/** Every step of the publication protocol keeps its invariant: commands, mutations and lag. */
module PublicationsCommandSteps {
  import opened Wrappers
  import opened Publications
  import opened PublicationsInvariant
  import opened PublicationsFrame
  import opened PublicationsSteps
  import opened PublicationsConnectionSteps

  // ---------------------------------------------------------------- starting a command

  lemma RefusedStartKeeps(s: Server, c: nat)
    requires Inv(s) && InPhase(s, c, Idle)
    ensures Inv(WithConnection(s, c, TakeTicket(s.connections[c])))
  {
    var k := s.connections[c];
    var k' := TakeTicket(k);
    AnswersKept(s.w, c, k, k');
    assert Subscriptions(s.w, k') by {
      forall id | id in k'.subscriptions ensures Subscribed(s.w.log, s.w.made, k'.processed, ReachedBelow(k', id), k'.subscriptions[id]) { assert Subscribed(s.w.log, s.w.made, k.processed, ReachedBelow(k, id), k.subscriptions[id]); }
    }
    KeepConnection(s, c, k');
  }

  /** The shared state after a task of connection `c` is counted or changes stage; the rest of
      the connection's invariant does not see it. */
  lemma TasksOnly(w: World, w': World, c: nat, k: Connection, k': Connection)
    requires LiveInv(w, c, k)
    requires w'.log == w.log && w'.made == w.made && w'.unsent == w.unsent
    requires k' == k.(phase := k'.phase, running := k'.running, accepted := k'.accepted, tickets := k'.tickets, ran := k'.ran)
    requires forall t | t in k.accepted :: t in k'.accepted && k'.accepted[t] == k.accepted[t]
    requires AnsweredBelow(k') == AnsweredBelow(k) == k.cursor && !k.phase.Publishing? && !k.phase.Lagging? && !k'.phase.Lagging?
    ensures Answers(w', c, k') && Subscriptions(w', k') && Processed(w', c, k')
  {
    AnswersKept(w, c, k, k');
    FrameAnswers(w, w', c, k');
    assert Subscriptions(w', k') by {
      forall id | id in k'.subscriptions ensures Subscribed(w'.log, w'.made, k'.processed, ReachedBelow(k', id), k'.subscriptions[id]) { assert Subscribed(w.log, w.made, k.processed, ReachedBelow(k, id), k.subscriptions[id]); }
    }
  }

  lemma StartedIsLive(w: World, c: nat, k: Connection, id: Option<nat>)
    requires WorldInv(w) && LiveInv(w, c, k) && k.phase == Idle && w.nextTask !in w.tasks
    ensures var ticket := k.tickets + 1;
            LiveInv(CountTask(w, c, ticket), c, k.(tickets := ticket, phase := Starting(w.nextTask, ticket, id)))
  {
    var ticket := k.tickets + 1;
    var w' := CountTask(w, c, ticket);
    var k' := k.(tickets := ticket, phase := Starting(w.nextTask, ticket, id));
    TasksOnly(w, w', c, k, k');
    assert OwnTasks(w', c, k') by {
      forall i | i in w'.tasks && w'.tasks[i].origin == c
        ensures OwnTask(i, w'.tasks[i], k'.phase, k'.accepted, k'.running, k'.ran)
      {
        if i != w.nextTask { assert OwnTask(i, w.tasks[i], k.phase, k.accepted, k.running, k.ran); }
      }
    }
    assert Commands(w', c, k');
  }

  lemma CountGrows(w: World, origin: nat, ticket: nat, d: nat)
    requires WorldInv(w) && d != origin && w.nextTask !in w.tasks
    ensures Grows(w, CountTask(w, origin, ticket), d)
  {
    GrowsSelf(w, d);
  }

  lemma CountGrowsAll(w: World, origin: nat, ticket: nat)
    requires WorldInv(w) && w.nextTask !in w.tasks
    ensures forall d: nat | d != origin :: Grows(w, CountTask(w, origin, ticket), d)
  {
    forall d: nat | d != origin ensures Grows(w, CountTask(w, origin, ticket), d) { CountGrows(w, origin, ticket, d); }
  }

  lemma StartedConnection(w: World, c: nat, k: Connection, id: Option<nat>)
    requires WorldInv(w) && ConnectionInv(w, c, k) && k.phase == Idle && !w.stopping
    ensures var w' := CountTask(w, c, k.tickets + 1);
            WorldInv(w')
            && ConnectionInv(w', c, k.(tickets := k.tickets + 1, phase := Starting(w.nextTask, k.tickets + 1, id)))
    ensures w.nextTask !in w.tasks
  {
    CountTaskKeeps(w, c, k.tickets + 1);
    StartedIsLive(w, c, k, id);
    LiveConnection(w, CountTask(w, c, k.tickets + 1), c, k,
                   k.(tickets := k.tickets + 1, phase := Starting(w.nextTask, k.tickets + 1, id)));
  }

  lemma LiveConnection(w: World, w': World, c: nat, k: Connection, k': Connection)
    requires ConnectionInv(w, c, k) && Live(k) && Live(k') && w'.served == w.served && LiveInv(w', c, k')
    ensures ConnectionInv(w', c, k')
  {}

  lemma StartKeeps(s: Server, c: nat, id: Option<nat>)
    requires Inv(s) && InPhase(s, c, Idle) && !s.w.stopping
    ensures Inv(Started(s, c, id))
  {
    var s' := Started(s, c, id);
    StartedConnection(s.w, c, s.connections[c], id);
    CountGrowsAll(s.w, c, s.connections[c].tickets + 1);
    StartedWith(s, c, id);
    KeepWith(s, s'.w, c, s'.connections[c]);
  }

  lemma StartedWith(s: Server, c: nat, id: Option<nat>)
    requires c in s.connections
    ensures var s' := Started(s, c, id); var k := s.connections[c];
            && c in s'.connections && s'.w == CountTask(s.w, c, k.tickets + 1)
            && s'.connections[c] == k.(tickets := k.tickets + 1, phase := Starting(s.w.nextTask, k.tickets + 1, id))
            && s' == Server(s'.w, s.connections[c := s'.connections[c]])
  {}

  lemma GrantGrows(w: World, id: nat, d: nat)
    requires WorldInv(w) && id in w.tasks && w.tasks[id].stage == Counted && d != w.tasks[id].origin
    ensures Grows(w, GrantTask(w, id), d)
  {
    GrowsSelf(w, d);
  }

  lemma UncountGrows(w: World, id: nat, d: nat)
    requires WorldInv(w) && id in w.tasks && (d != w.tasks[id].origin || w.tasks[id].stage.Sent?)
    ensures Grows(w, UncountTask(w, id), d)
  {
    GrowsSelf(w, d);
  }

  /** A ticket not yet accepted has no answer. */
  lemma NewTicketUnanswered(w: World, c: nat, k: Connection, t: nat)
    requires Answers(w, c, k) && t !in k.accepted
    ensures !HasAnswer(k.answers, t)
  {}

  lemma GrantedTickets(w: World, c: nat, k: Connection)
    requires Commands(w, c, k) && Answers(w, c, k) && k.phase.Starting?
    ensures var k' := Granted(k); TicketsInv(k'.accepted, k'.running, k'.answers, k'.tickets)
  {
    NewTicketUnanswered(w, c, k, k.phase.ticket);
  }

  lemma GrantedOutcomes(w: World, c: nat, k: Connection)
    requires Commands(w, c, k) && OwnTasks(w, c, k) && k.phase.Starting?
    ensures var k' := Granted(k);
            OwnLogInv(w.log, c, k'.accepted, k'.running, k'.ran, k'.answers, AnsweredBelow(k'))
  {
    var k' := Granted(k);
    forall i | 0 <= i < |w.log| && w.log[i].Ran? && w.log[i].origin == c
      ensures OwnOutcome(w.log[i], i, k'.accepted, k'.running, k'.ran, k'.answers, AnsweredBelow(k'))
    {
      assert OwnOutcome(w.log[i], i, k.accepted, k.running, k.ran, k.answers, AnsweredBelow(k));
    }
  }

  lemma GrantedTasks(w: World, c: nat, k: Connection)
    requires Commands(w, c, k) && OwnTasks(w, c, k) && k.phase.Starting?
    ensures var k' := Granted(k);
            && OwnTasksInv(GrantTask(w, k.phase.task).tasks, c, k'.phase, k'.accepted, k'.running, k'.ran)
            && WaitingInv(GrantTask(w, k.phase.task).tasks, c, k'.accepted, k'.running, k'.ran)
  {
    var tasks := GrantTask(w, k.phase.task).tasks;
    var k' := Granted(k);
    forall i | i in tasks && tasks[i].origin == c
      ensures OwnTask(i, tasks[i], k'.phase, k'.accepted, k'.running, k'.ran)
    {
      assert OwnTask(i, w.tasks[i], k.phase, k.accepted, k.running, k.ran);
    }
  }

  lemma GrantedIsLive(w: World, c: nat, k: Connection)
    requires LiveInv(w, c, k) && k.phase.Starting?
    ensures LiveInv(GrantTask(w, k.phase.task), c, Granted(k))
  {
    GrantedTickets(w, c, k);
    GrantedOutcomes(w, c, k);
    GrantedTasks(w, c, k);
    TasksOnly(w, GrantTask(w, k.phase.task), c, k, Granted(k));
  }

  lemma GrantedKeeps(s: Server, c: nat)
    requires Inv(s) && c in s.connections && s.connections[c].phase.Starting?
    requires s.connections[c].phase.task in s.w.tasks && s.w.permits > 0
    ensures Inv(Server(GrantTask(s.w, s.connections[c].phase.task), s.connections[c := Granted(s.connections[c])]))
  {
    var k := s.connections[c];
    var task := k.phase.task;
    var s' := Server(GrantTask(s.w, task), s.connections[c := Granted(k)]);
    assert ConnectionInv(s.w, c, k);
    GrantKeeps(s.w, task);
    GrantedIsLive(s.w, c, k);
    forall d: nat | d != c && d != NO_CONNECTION ensures Grows(s.w, s'.w, d) { GrantGrows(s.w, task, d); }
    KeepChanged(s, s', c);
  }

  lemma RefusedTasks(w: World, c: nat, k: Connection)
    requires Commands(w, c, k) && OwnTasks(w, c, k) && k.phase.Starting?
    ensures var k' := k.(phase := Idle); var tasks := UncountTask(w, k.phase.task).tasks;
            && OwnTasksInv(tasks, c, k'.phase, k'.accepted, k'.running, k'.ran)
            && WaitingInv(tasks, c, k'.accepted, k'.running, k'.ran)
  {
    var tasks := UncountTask(w, k.phase.task).tasks;
    forall i | i in tasks && tasks[i].origin == c
      ensures OwnTask(i, tasks[i], Idle, k.accepted, k.running, k.ran)
    {
      assert OwnTask(i, w.tasks[i], k.phase, k.accepted, k.running, k.ran);
    }
  }

  lemma RefusedPermitKeeps(s: Server, c: nat)
    requires Inv(s) && c in s.connections && s.connections[c].phase.Starting?
    requires s.connections[c].phase.task in s.w.tasks
    ensures Inv(Server(UncountTask(s.w, s.connections[c].phase.task),
                       s.connections[c := s.connections[c].(phase := Idle)]))
  {
    var k := s.connections[c];
    var task := k.phase.task;
    var s' := Server(UncountTask(s.w, task), s.connections[c := k.(phase := Idle)]);
    UncountKeeps(s.w, task);
    RefusedTasks(s.w, c, k);
    TasksOnly(s.w, s'.w, c, k, k.(phase := Idle));
    forall d: nat | d != c && d != NO_CONNECTION ensures Grows(s.w, s'.w, d) { UncountGrows(s.w, task, d); }
    KeepChanged(s, s', c);
  }
}
