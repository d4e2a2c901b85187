/** Every step of the publication protocol keeps its invariant: falling behind, and sending. */
module PublicationsLagSteps {
  import opened Wrappers
  import opened Publications
  import opened PublicationsInvariant
  import opened PublicationsFrame
  import opened PublicationsSteps
  import opened PublicationsConnectionSteps
  import opened PublicationsDeliverySteps

  lemma LagKeeps(s: Server, c: nat)
    requires Inv(s) && InPhase(s, c, Idle)
    ensures Inv(WithConnection(s, c, Behind(s.w, s.connections[c])))
  {
    var k := s.connections[c];
    var k' := Behind(s.w, k);
    AnswersKept(s.w, c, k, k');
    BehindRest(s.w, c, k);
    KeepConnection(s, c, k');
  }

  lemma BehindRest(w: World, c: nat, k: Connection)
    requires WorldInv(w) && LiveInv(w, c, k) && k.phase == Idle
    ensures var k' := Behind(w, k);
            PhaseInv(w, c, k') && Commands(w, c, k') && OwnTasks(w, c, k') && Subscriptions(w, k') && Processed(w, c, k')
  {
    var k' := Behind(w, k);
    forall i | i in w.tasks && w.tasks[i].origin == c
      ensures OwnTask(i, w.tasks[i], k'.phase, k'.accepted, k'.running, k'.ran)
    {
      assert OwnTask(i, w.tasks[i], k.phase, k.accepted, k.running, k.ran);
    }
    assert forall sub | sub in k.subscriptions :: ReachedBelow(k', sub) == ReachedBelow(k, sub);
  }

  lemma LagResyncedRest(w: World, c: nat, k: Connection, sub: nat)
    requires WorldInv(w) && LiveInv(w, c, k) && k.phase.Lagging? && sub in k.subscriptions
    ensures var k' := LagResynced(w, k, sub);
            PhaseInv(w, c, k') && Commands(w, c, k') && OwnTasks(w, c, k') && Processed(w, c, k')
  {
    var k' := LagResynced(w, k, sub);
    forall i | i in w.tasks && w.tasks[i].origin == c
      ensures OwnTask(i, w.tasks[i], k'.phase, k'.accepted, k'.running, k'.ran)
    {
      assert OwnTask(i, w.tasks[i], k.phase, k.accepted, k.running, k.ran);
    }
  }

  lemma LagResyncKeeps(s: Server, c: nat, sub: nat)
    requires Inv(s) && c in s.connections && s.connections[c].phase.Lagging?
    requires sub in s.connections[c].phase.pending && sub in s.connections[c].subscriptions
    ensures Inv(WithConnection(s, c, LagResynced(s.w, s.connections[c], sub)))
  {
    var k := s.connections[c];
    var k' := LagResynced(s.w, k, sub);
    assert Subscriptions(s.w, k') by {
      forall id | id in k'.subscriptions
        ensures id < k'.nextSubscription
        ensures Subscribed(s.w.log, s.w.made, k'.processed, ReachedBelow(k', id), k'.subscriptions[id])
      {
        assert Subscribed(s.w.log, s.w.made, k.processed, ReachedBelow(k, id), k.subscriptions[id]);
        if id == sub {
          FreshSubscription(s.w, k', sub, k.subscriptions[sub]);
        }
      }
    }
    AnswersKept(s.w, c, k, k');
    LagResyncedRest(s.w, c, k, sub);
    KeepConnection(s, c, k');
  }

  // ---------------------------------------------------------------- answering what was skipped

  function Told(k: Connection, order: seq<(nat, nat)>): seq<Answer> {
    seq(|order|, i requires 0 <= i < |order| =>
      Answer(order[i].0, IdOf(k.running, order[i].0), order[i].1, k.subscriptions))
  }

  function TicketsOf(order: seq<(nat, nat)>): set<nat> { set i | 0 <= i < |order| :: order[i].0 }

  /** Answering one by one answers each ticket with its own id. */
  lemma {:induction false} AnsweredAllShape(k: Connection, order: seq<(nat, nat)>)
    requires forall i, j | 0 <= i < j < |order| :: order[i].0 != order[j].0
    ensures AnsweredAll(k, order) == k.(ran := k.ran - TicketsOf(order),
                                        running := k.running - TicketsOf(order),
                                        answers := k.answers + Told(k, order))
    decreases |order|
  {
    if order == [] {
      assert k.ran - TicketsOf(order) == k.ran && k.running - TicketsOf(order) == k.running;
      assert k.answers + Told(k, order) == k.answers;
    } else {
      var next := Answered(k, order[0].0, order[0].1);
      var rest := order[1..];
      forall i, j | 0 <= i < j < |rest| ensures rest[i].0 != rest[j].0 { assert order[i + 1].0 != order[j + 1].0; }
      AnsweredAllShape(next, rest);
      TicketsOfRest(order);
      assert k.ran - TicketsOf(order) == next.ran - TicketsOf(rest);
      assert k.running - TicketsOf(order) == next.running - TicketsOf(rest);
      ToldRest(k, order);
      assert k.answers + Told(k, order) == next.answers + Told(next, rest);
    }
  }

  lemma TicketsOfRest(order: seq<(nat, nat)>)
    requires order != []
    ensures TicketsOf(order) == {order[0].0} + TicketsOf(order[1..])
  {
    var rest := order[1..];
    forall i | 0 < i < |order| ensures order[i].0 in TicketsOf(rest) { assert order[i] == rest[i - 1]; }
    forall i | 0 <= i < |rest| ensures rest[i].0 in TicketsOf(order) { assert rest[i] == order[i + 1]; }
  }

  lemma ToldRest(k: Connection, order: seq<(nat, nat)>)
    requires order != [] && forall i, j | 0 <= i < j < |order| :: order[i].0 != order[j].0
    ensures var next := Answered(k, order[0].0, order[0].1);
            Told(k, order) == [Answer(order[0].0, IdOf(k.running, order[0].0), order[0].1, k.subscriptions)] + Told(next, order[1..])
  {
    var next := Answered(k, order[0].0, order[0].1);
    var rest := order[1..];
    forall i | 0 <= i < |rest| ensures Told(next, rest)[i] == Told(k, order)[i + 1] {
      assert rest[i].0 != order[0].0;
    }
  }

  /** The outcomes a connection skipped, through `skipped`, in the order they were published. */
  ghost predicate Skips(w: World, c: nat, k: Connection, order: seq<(nat, nat)>) {
    && Numbered(w) && Quiet(w) && LiveInv(w, c, k) && k.phase.Lagging? && k.phase.pending == {}
    && IsSkippedOrder(k.ran, k.phase.skipped, order)
  }

  lemma CaughtShape(k: Connection, order: seq<(nat, nat)>)
    requires k.phase.Lagging? && IsSkippedOrder(k.ran, k.phase.skipped, order)
    ensures Caught(k, order) == k.(phase := Checking(k.phase.skipped), ran := k.ran - TicketsOf(order),
                                   running := k.running - TicketsOf(order), answers := k.answers + Told(k, order))
  {
    forall i, j | 0 <= i < j < |order| ensures order[i].0 != order[j].0 {}
    AnsweredAllShape(k, order);
  }

  lemma CaughtSettles(k: Connection, order: seq<(nat, nat)>)
    requires k.phase.Lagging? && k.phase.from <= k.phase.skipped == k.cursor
    requires IsSkippedOrder(k.ran, k.phase.skipped, order)
    ensures Settles(k, Caught(k, order), TicketsOf(order))
  {
    CaughtShape(k, order);
    forall t | t in k.ran && k.ran[t] <= k.phase.skipped ensures t in TicketsOf(order) {
      assert (t, k.ran[t]) in order;
      var i :| 0 <= i < |order| && order[i] == (t, k.ran[t]);
      assert order[i].0 == t;
    }
    forall t: nat
      ensures HasAnswer(k.answers + Told(k, order), t) <==> HasAnswer(k.answers, t) || t in TicketsOf(order)
    {
      ToldAnswers(k, order, t);
    }
  }

  lemma ToldAnswers(k: Connection, order: seq<(nat, nat)>, t: nat)
    ensures HasAnswer(k.answers + Told(k, order), t) <==> HasAnswer(k.answers, t) || t in TicketsOf(order)
  {
    var answers := k.answers + Told(k, order);
    if HasAnswer(k.answers, t) {
      var a :| 0 <= a < |k.answers| && k.answers[a].ticket == t;
      assert answers[a].ticket == t;
    }
    if t in TicketsOf(order) {
      var i :| 0 <= i < |order| && order[i].0 == t;
      assert answers[|k.answers| + i].ticket == t;
    }
    if HasAnswer(answers, t) && !HasAnswer(k.answers, t) {
      var a :| 0 <= a < |answers| && answers[a].ticket == t;
      assert a >= |k.answers|;
      assert order[a - |k.answers|].0 == t;
    }
  }

  /** A skipped command's answer follows the snapshots, which hold everything skipped. */
  lemma ToldInv(w: World, c: nat, k: Connection, answer: Answer)
    requires PhaseInv(w, c, k) && Commands(w, c, k) && Subscriptions(w, k)
    requires k.phase.Lagging? && k.phase.pending == {}
    requires answer.ticket in k.ran && answer.number == k.ran[answer.ticket] <= k.phase.skipped
    requires answer.view == k.subscriptions && answer.id == IdOf(k.running, answer.ticket)
    ensures AnswerInv(w.log, c, k.accepted, k.phase.skipped, answer)
    ensures k.phase.from < answer.number && answer.ticket in k.running
  {
    assert RanAt(w.log, w.sending, c, answer.ticket, answer.number);
    forall sub | sub in answer.view ensures Covers(w.log, answer.view[sub], answer.number - 1) {
      assert Subscribed(w.log, w.made, k.processed, ReachedBelow(k, sub), k.subscriptions[sub]);
    }
  }

  lemma EarlierAnswer(w: World, c: nat, k: Connection, a: nat)
    requires PhaseInv(w, c, k) && Answers(w, c, k) && Commands(w, c, k) && k.phase.Lagging? && a < |k.answers|
    ensures AnswerInv(w.log, c, k.accepted, k.phase.skipped, k.answers[a])
    ensures k.answers[a].number <= k.phase.from && k.answers[a].ticket !in k.running
  {
    assert AnswerInv(w.log, c, k.accepted, AnsweredBelow(k), k.answers[a]);
    assert HasAnswer(k.answers, k.answers[a].ticket);
  }

  /** The answer at `a` is an earlier one, or one of those just told. */
  lemma CaughtAnswer(w: World, c: nat, k: Connection, order: seq<(nat, nat)>, a: nat)
    requires Skips(w, c, k, order) && a < |k.answers| + |order|
    ensures var answer := (k.answers + Told(k, order))[a];
            && AnswerInv(w.log, c, k.accepted, k.phase.skipped, answer)
            && (if a < |k.answers| then answer.number <= k.phase.from && answer.ticket !in k.running
                else answer.number > k.phase.from && answer.ticket in k.running)
  {
    if a < |k.answers| {
      EarlierAnswer(w, c, k, a);
      assert (k.answers + Told(k, order))[a] == k.answers[a];
    } else {
      ToldAt(w, c, k, order, a - |k.answers|);
      assert (k.answers + Told(k, order))[a] == Told(k, order)[a - |k.answers|];
    }
  }

  lemma ToldAt(w: World, c: nat, k: Connection, order: seq<(nat, nat)>, i: nat)
    requires PhaseInv(w, c, k) && Commands(w, c, k) && Subscriptions(w, k)
    requires k.phase.Lagging? && k.phase.pending == {}
    requires IsSkippedOrder(k.ran, k.phase.skipped, order) && i < |order|
    ensures AnswerInv(w.log, c, k.accepted, k.phase.skipped, Told(k, order)[i])
    ensures k.phase.from < Told(k, order)[i].number && Told(k, order)[i].ticket in k.running
  {
    assert order[i].0 in k.ran && k.ran[order[i].0] == order[i].1 <= k.phase.skipped;
    ToldInv(w, c, k, Told(k, order)[i]);
  }

  lemma CaughtOrder(w: World, c: nat, k: Connection, order: seq<(nat, nat)>, a: nat, b: nat)
    requires Skips(w, c, k, order) && a < b < |k.answers| + |order|
    ensures var answers := k.answers + Told(k, order);
            answers[a].number < answers[b].number && answers[a].ticket != answers[b].ticket
  {
    CaughtAnswer(w, c, k, order, a);
    CaughtAnswer(w, c, k, order, b);
    if a >= |k.answers| {
      assert order[a - |k.answers|].1 < order[b - |k.answers|].1;
    }
  }

  lemma CaughtAnswers(w: World, c: nat, k: Connection, k': Connection, order: seq<(nat, nat)>)
    requires Skips(w, c, k, order) && k'.answers == k.answers + Told(k, order) && k'.accepted == k.accepted
    requires AnsweredBelow(k') == k.phase.skipped
    ensures Answers(w, c, k')
  {
    forall a | 0 <= a < |k'.answers| ensures AnswerInv(w.log, c, k'.accepted, AnsweredBelow(k'), k'.answers[a]) {
      CaughtAnswer(w, c, k, order, a);
    }
    forall a, b | 0 <= a < b < |k'.answers|
      ensures k'.answers[a].number < k'.answers[b].number && k'.answers[a].ticket != k'.answers[b].ticket
    {
      CaughtOrder(w, c, k, order, a, b);
    }
  }

  /** What is left running after the skipped commands are answered is not before the closing. */
  lemma CaughtPhase(w: World, c: nat, k: Connection, k': Connection, gone: set<nat>)
    requires Numbered(w) && Quiet(w) && Commands(w, c, k) && PhaseInv(w, c, k) && k.phase.Lagging?
    requires Settles(k, k', gone) && k'.phase == Checking(k.phase.skipped) && k'.cursor == k.cursor
    ensures PhaseInv(w, c, k')
  {
    if w.closingAt > 0 && w.closingAt <= k'.cursor {
      forall t | t in k.running ensures t in gone { RunningPrecedesClosing(w, c, k, t); }
      assert k'.running.Keys == {};
    }
  }

  lemma CaughtIsLive(w: World, c: nat, k: Connection, order: seq<(nat, nat)>)
    requires Skips(w, c, k, order)
    ensures LiveInv(w, c, Caught(k, order))
  {
    var k' := Caught(k, order);
    CaughtShape(k, order);
    CaughtSettles(k, order);
    CaughtPhase(w, c, k, k', TicketsOf(order));
    SettlesCommands(w, c, k, k', TicketsOf(order));
    SettlesOwnTasks(w, c, k, k', TicketsOf(order));
    CaughtAnswers(w, c, k, k', order);
    CaughtDeliveries(w, c, k, k');
  }

  lemma CaughtDeliveries(w: World, c: nat, k: Connection, k': Connection)
    requires Subscriptions(w, k) && Processed(w, c, k) && k.phase.Lagging? && k.phase.pending == {}
    requires k' == k.(phase := Checking(k.phase.skipped), ran := k'.ran, running := k'.running, answers := k'.answers)
    ensures Subscriptions(w, k') && Processed(w, c, k')
  {
    assert forall sub | sub in k.subscriptions :: ReachedBelow(k', sub) == ReachedBelow(k, sub);
  }

  lemma LagAnswerKeeps(s: Server, c: nat, order: seq<(nat, nat)>)
    requires Inv(s) && c in s.connections && s.connections[c].phase.Lagging? && s.connections[c].phase.pending == {}
    requires IsSkippedOrder(s.connections[c].ran, s.connections[c].phase.skipped, order)
    ensures Inv(WithConnection(s, c, Caught(s.connections[c], order)))
  {
    var k := s.connections[c];
    assert ConnectionInv(s.w, c, k);
    CaughtIsLive(s.w, c, k, order);
    KeepConnection(s, c, Caught(k, order));
  }

  lemma CheckKeeps(s: Server, c: nat)
    requires Inv(s) && c in s.connections && s.connections[c].phase.Checking?
    ensures if s.w.closingAt != 0 && s.w.closingAt <= s.connections[c].phase.skipped then Inv(End(s, c, true))
            else Inv(WithConnection(s, c, s.connections[c].(phase := Idle)))
  {
    var k := s.connections[c];
    if s.w.closingAt != 0 && s.w.closingAt <= k.phase.skipped {
      EndKeeps(s, c, true);
    } else {
      PhaseOnly(s.w, c, k, k.(phase := Idle));
      KeepConnection(s, c, k.(phase := Idle));
    }
  }

  // ---------------------------------------------------------------- sending

  /** Numbering an outcome keeps its number with the connection that answers it. */
  lemma SentCommands(w: World, c: nat, k: Connection, id: nat)
    requires WorldInv(w) && LiveInv(w, c, k) && w.sending.None?
    requires id in w.tasks && w.tasks[id].origin == c && w.tasks[id].stage.Returned?
    ensures Commands(SendTask(w, id), c, Keeping(k, w.tasks[id].ticket, w.last + 1))
  {
    var w' := SendTask(w, id);
    var k' := Keeping(k, w.tasks[id].ticket, w.last + 1);
    assert OwnTask(id, w.tasks[id], k.phase, k.accepted, k.running, k.ran);
    forall t | t in k'.ran ensures RanAt(w'.log, w'.sending, c, t, k'.ran[t]) && AnsweredBelow(k') < k'.ran[t] {
      if t != w.tasks[id].ticket { assert RanAt(w.log, w.sending, c, t, k.ran[t]); }
    }
    forall t | t in k'.running && t !in k'.ran ensures t in k'.accepted && InFlight(w'.tasks, k'.accepted[t].0, c, t) {
      assert InFlight(w.tasks, k.accepted[t].0, c, t);
    }
  }

  lemma SentOwnTasks(w: World, c: nat, k: Connection, id: nat)
    requires WorldInv(w) && LiveInv(w, c, k) && w.sending.None?
    requires id in w.tasks && w.tasks[id].origin == c && w.tasks[id].stage.Returned?
    ensures OwnTasks(SendTask(w, id), c, Keeping(k, w.tasks[id].ticket, w.last + 1))
  {
    var w' := SendTask(w, id);
    var k' := Keeping(k, w.tasks[id].ticket, w.last + 1);
    assert OwnTask(id, w.tasks[id], k.phase, k.accepted, k.running, k.ran);
    forall i | i in w'.tasks && w'.tasks[i].origin == c
      ensures OwnTask(i, w'.tasks[i], k'.phase, k'.accepted, k'.running, k'.ran)
    {
      assert OwnTask(i, w.tasks[i], k.phase, k.accepted, k.running, k.ran);
    }
    forall i | 0 <= i < |w'.log| && w'.log[i].Ran? && w'.log[i].origin == c
      ensures OwnOutcome(w'.log[i], i, k'.accepted, k'.running, k'.ran, k'.answers, AnsweredBelow(k'))
    {
      assert OwnOutcome(w.log[i], i, k.accepted, k.running, k.ran, k.answers, AnsweredBelow(k));
    }
  }

  lemma SentIsLive(w: World, c: nat, k: Connection, id: nat)
    requires WorldInv(w) && LiveInv(w, c, k) && w.sending.None?
    requires id in w.tasks && w.tasks[id].origin == c && w.tasks[id].stage.Returned?
    ensures LiveInv(SendTask(w, id), c, Keeping(k, w.tasks[id].ticket, w.last + 1))
  {
    var w' := SendTask(w, id);
    var k' := Keeping(k, w.tasks[id].ticket, w.last + 1);
    SentCommands(w, c, k, id);
    SentOwnTasks(w, c, k, id);
    AnswersKept(w, c, k, k');
    FrameAnswers(w, w', c, k');
    assert Subscriptions(w', k') by {
      assert forall sub | sub in k.subscriptions :: ReachedBelow(k', sub) == ReachedBelow(k, sub);
    }
    assert Processed(w', c, k');
    assert PhaseInv(w', c, k');
  }

  lemma SendTaskGrows(w: World, id: nat, d: nat)
    requires WorldInv(w) && w.sending.None? && id in w.tasks && w.tasks[id].stage.Returned? && d != w.tasks[id].origin
    ensures Grows(w, SendTask(w, id), d)
  {
    GrowsSelf(w, d);
  }

  lemma TaskSendKeepsConnection(s: Server, id: nat)
    requires Inv(s) && id in s.w.tasks && s.w.tasks[id].stage.Returned? && s.w.sending.None?
    requires s.w.tasks[id].origin in s.connections
    ensures var c := s.w.tasks[id].origin;
            Inv(Server(SendTask(s.w, id),
                       s.connections[c := Keeping(s.connections[c], s.w.tasks[id].ticket, s.w.last + 1)]))
  {
    var c := s.w.tasks[id].origin;
    var k := s.connections[c];
    var k' := Keeping(k, s.w.tasks[id].ticket, s.w.last + 1);
    var s' := Server(SendTask(s.w, id), s.connections[c := k']);
    TaskSendKeeps(s.w, id);
    assert ConnectionInv(s.w, c, k) && !k.phase.Admitting?;
    if Live(k) {
      SentIsLive(s.w, c, k, id);
    } else {
      AnswersKept(s.w, c, k, k');
      FrameAnswers(s.w, s'.w, c, k');
    }
    forall d: nat | d != c && d != NO_CONNECTION ensures Grows(s.w, s'.w, d) { SendTaskGrows(s.w, id, d); }
    KeepChanged(s, s', c);
  }

  lemma TaskSendKeepsHost(s: Server, id: nat)
    requires Inv(s) && id in s.w.tasks && s.w.tasks[id].stage.Returned? && s.w.sending.None?
    requires s.w.tasks[id].origin !in s.connections
    ensures Inv(s.(w := SendTask(s.w, id)))
  {
    assert s.w.tasks[id].origin == NO_CONNECTION;
    TaskSendKeeps(s.w, id);
    forall d: nat | d != NO_CONNECTION ensures Grows(s.w, SendTask(s.w, id), d) { SendTaskGrows(s.w, id, d); }
    KeepWorld(s, s.(w := SendTask(s.w, id)));
  }

  lemma BroadcastGrows(w: World, w': World, d: nat)
    requires WorldInv(w) && IsBroadcast(w, w') && w.sending.value.owner != ByConnection(d) && d != NO_CONNECTION
    ensures Grows(w, w', d)
  {
    assert Held(w, Carried(w.sending.value.publication), w.sending.value.owner);
    assert GrowsTasks(w, w', d);
    assert GrowsSaved(w, w', d);
  }

  lemma BroadcastOtherKeeps(s: Server)
    requires Inv(s) && s.w.sending.Some? && !s.w.sending.value.owner.ByConnection?
    ensures Inv(s.(w := Broadcast(s.w)))
  {
    var w' := Broadcast(s.w);
    BroadcastShape(s.w);
    BroadcastKeeps(s.w, w');
    forall d: nat | d != NO_CONNECTION ensures Grows(s.w, w', d) { BroadcastGrows(s.w, w', d); }
    KeepWorld(s, s.(w := w'));
  }

  lemma BroadcastOwnRest(w: World, w': World, c: nat, k: Connection)
    requires WorldInv(w) && LiveInv(w, c, k) && IsBroadcast(w, w') && w.sending.value.owner == ByConnection(c)
    ensures var k' := k.(phase := Idle); PhaseInv(w', c, k') && Commands(w', c, k') && OwnTasks(w', c, k')
  {
    var k' := k.(phase := Idle);
    assert w.sending.value.publication.Served?;
    forall t | t in k'.ran ensures RanAt(w'.log, w'.sending, c, t, k'.ran[t]) {
      assert RanAt(w.log, w.sending, c, t, k.ran[t]);
    }
    forall t | t in k'.running && t !in k'.ran ensures t in k'.accepted && InFlight(w'.tasks, k'.accepted[t].0, c, t) {
      assert InFlight(w.tasks, k.accepted[t].0, c, t);
    }
    forall i | i in w'.tasks && w'.tasks[i].origin == c
      ensures OwnTask(i, w'.tasks[i], k'.phase, k'.accepted, k'.running, k'.ran)
    {
      assert OwnTask(i, w.tasks[i], k.phase, k.accepted, k.running, k.ran);
    }
    forall i | 0 <= i < |w'.log| && w'.log[i].Ran? && w'.log[i].origin == c
      ensures OwnOutcome(w'.log[i], i, k'.accepted, k'.running, k'.ran, k'.answers, AnsweredBelow(k'))
    {
      assert w'.log[i] == w.log[i];
      assert OwnOutcome(w.log[i], i, k.accepted, k.running, k.ran, k.answers, AnsweredBelow(k));
    }
  }

  lemma BroadcastOwnProcessed(w: World, w': World, c: nat, k: Connection)
    requires PhaseInv(w, c, k) && Processed(w, c, k) && IsBroadcast(w, w') && w.sending.value.owner == ByConnection(c)
    ensures Processed(w', c, k.(phase := Idle))
  {
    forall i | k.cursor <= i < |w'.log| ensures FreshTo(w'.log[i], c, k.processed) {
      assert i < |w.log| ==> w'.log[i] == w.log[i] && FreshTo(w.log[i], c, k.processed);
    }
    forall i | 0 <= i < |w'.log| ensures OwnProcessed(w'.log[i], c, k.processed) {
      assert i < |w.log| ==> w'.log[i] == w.log[i] && OwnProcessed(w.log[i], c, k.processed);
    }
  }

  lemma BroadcastOwnLive(w: World, w': World, c: nat, k: Connection)
    requires WorldInv(w) && LiveInv(w, c, k) && IsBroadcast(w, w') && w.sending.value.owner == ByConnection(c)
    ensures LiveInv(w', c, k.(phase := Idle))
  {
    var k' := k.(phase := Idle);
    BroadcastOwnRest(w, w', c, k);
    BroadcastOwnProcessed(w, w', c, k);
    AnswersKept(w, c, k, k');
    FrameAnswers(w, w', c, k');
    FrameSubscriptions(w, w', c, k);
    assert forall sub | sub in k.subscriptions :: ReachedBelow(k', sub) == ReachedBelow(k, sub);
  }

  lemma BroadcastOwnKeeps(s: Server, c: nat)
    requires Inv(s) && s.w.sending.Some? && s.w.sending.value.owner == ByConnection(c) && c in s.connections
    ensures Inv(Server(Broadcast(s.w), s.connections[c := s.connections[c].(phase := Idle)]))
  {
    var k := s.connections[c];
    var s' := Server(Broadcast(s.w), s.connections[c := k.(phase := Idle)]);
    assert ConnectionInv(s.w, c, k);
    BroadcastShape(s.w);
    BroadcastKeeps(s.w, s'.w);
    BroadcastOwnLive(s.w, s'.w, c, k);
    forall d: nat | d != c && d != NO_CONNECTION ensures Grows(s.w, s'.w, d) { BroadcastGrows(s.w, s'.w, d); }
    KeepChanged(s, s', c);
  }
}
