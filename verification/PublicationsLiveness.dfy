/**
 A server that is not stopped never gets stuck either: whatever it is doing, steps of its own lead to
 where every command is answered and every change published has reached the subscriptions it concerns.
 */
module PublicationsLiveness {
  import opened Wrappers
  import opened Publications
  import opened PublicationsInvariant
  import opened PublicationsRuns
  import opened PublicationsTheorems
  import opened PublicationsProgress
  import opened PublicationsOwners

  // ---------------------------------------------------------------- until everyone has taken everything

  /** The connection has taken everything there is. */
  predicate CaughtUp(s: Server, c: nat) { InPhase(s, c, Idle) && s.connections[c].cursor == |s.w.log| }

  /** What the invariant says of a served connection when nothing is left to publish. */
  lemma {:induction false} QuietPhase(w: World, c: nat, k: Connection)
    requires ConnectionInv(w, c, k) && c in w.served && w.sending.None? && w.tasks == map[] && !k.phase.Mutating?
    ensures k.cursor <= |w.log| && (k.phase == Idle || k.phase.Lagging? || k.phase.Checking?)
    ensures k.phase.Lagging? ==> k.phase.pending <= k.subscriptions.Keys
    ensures RanInv(w.log, w.sending, c, k.ran, k.running, AnsweredBelow(k))
  {
  }

  lemma {:induction false} NotClosed(s: Server, c: nat)
    requires Inv(s) && !s.w.stopping && c in s.connections
    ensures s.connections[c].phase != Ended(true)
  {
    assert ConnectionInv(s.w, c, s.connections[c]);
  }

  /** A quiet server, told nothing to stop. */
  ghost predicate IsQuiet(s: Server) { Inv(s) && Work(s) == 0 && !s.w.stopping }

  lemma {:induction false} ServedIsInLog(s: Server, c: nat)
    requires Inv(s) && c in s.w.served
    ensures c in s.connections && ConnectionInv(s.w, c, s.connections[c]) && s.connections[c].cursor <= |s.w.log|
  {
    CursorInLog(s.w, c, s.connections[c]);
  }

  /** A step of a connection that has not taken everything. */
  lemma {:induction false} CatchingUp(s: Server, c: nat) returns (step: Step)
    requires IsQuiet(s) && c in s.w.served && !CaughtUp(s, c)
    ensures Drives(s, step, c) && IsQuiet(Apply(s, step)) && SameServed(s, Apply(s, step))
  {
    NothingLeft(s);
    ServedIsInLog(s, c);
    assert c !in MutatingIn(s.connections);
    QuietPhase(s.w, c, s.connections[c]);
    step := PhaseDrives(s, c);
    DrivesQuietly(s, step, c);
    NotClosed(Apply(s, step), c);
  }

  /** A served connection takes everything there is, and no other changes. */
  lemma {:induction false} CatchesUp(s: Server, c: nat) returns (steps: seq<Step>)
    requires IsQuiet(s) && c in s.w.served && c in s.connections && s.connections[c].cursor <= |s.w.log|
    ensures IsOwnRun(s, steps) && IsQuiet(After(s, steps)) && SameServed(s, After(s, steps))
    ensures CaughtUp(After(s, steps), c) && After(s, steps).w.log == s.w.log
    ensures forall d | d != c && CaughtUp(s, d) :: CaughtUp(After(s, steps), d)
    decreases |s.w.log| - s.connections[c].cursor, PhaseRank(s.connections[c].phase), |PendingOf(s.connections[c].phase)|
  {
    steps := [];
    if !CaughtUp(s, c) {
      var step := CatchingUp(s, c);
      var rest := CatchesUp(Apply(s, step), c);
      StepAndRun(s, step, rest);
      steps := [step] + rest;
    }
  }

  ghost predicate AllButCaughtUp(s: Server, todo: set<nat>) { forall c | c in s.w.served && c !in todo :: CaughtUp(s, c) }

  lemma {:induction false} OneCatchesUp(s: Server, c: nat, todo: set<nat>) returns (steps: seq<Step>)
    requires IsQuiet(s) && c in todo && todo <= s.w.served && AllButCaughtUp(s, todo)
    ensures IsOwnRun(s, steps) && IsQuiet(After(s, steps)) && SameServed(s, After(s, steps))
    ensures AllButCaughtUp(After(s, steps), todo - {c})
  {
    ServedIsInLog(s, c);
    steps := CatchesUp(s, c);
  }

  /** And so does everyone. */
  lemma {:induction false} AllCatchUp(s: Server, todo: set<nat>) returns (steps: seq<Step>)
    requires IsQuiet(s) && todo <= s.w.served && AllButCaughtUp(s, todo)
    ensures IsOwnRun(s, steps) && IsQuiet(After(s, steps)) && SameServed(s, After(s, steps))
    ensures AllButCaughtUp(After(s, steps), {})
    decreases |todo|
  {
    steps := [];
    if c :| c in todo {
      var first := OneCatchesUp(s, c, todo);
      OneLess(todo, c);
      var rest := AllCatchUp(After(s, first), todo - {c});
      RunsJoin(s, first, rest);
      steps := first + rest;
    } else {
      assert todo == {};
    }
  }

  /** Nothing is left to publish, and every connection served has taken everything. */
  ghost predicate Settled(s: Server) { IsQuiet(s) && forall c | c in s.w.served :: CaughtUp(s, c) }

  lemma {:induction false} Settles(s: Server) returns (steps: seq<Step>)
    requires Inv(s) && !s.w.stopping
    ensures IsOwnRun(s, steps) && Settled(After(s, steps)) && SameServed(s, After(s, steps))
  {
    var first := Quiesces(s);
    var rest := AllCatchUp(After(s, first), s.w.served);
    RunsJoin(s, first, rest);
    steps := first + rest;
  }

  // ---------------------------------------------------------------- what the server's own steps keep

  /** Nothing more is saved, what is published stays so, and what is accepted stays accepted. */
  ghost predicate Keeps(s: Server, after: Server) {
    && after.w.made == s.w.made
    && (forall n | n in after.w.unsent :: n in s.w.unsent && after.w.unsent[n] == s.w.unsent[n])
    && forall c | c in s.connections ::
         c in after.connections && forall t | t in s.connections[c].accepted ::
           t in after.connections[c].accepted && after.connections[c].accepted[t] == s.connections[c].accepted[t]
  }

  lemma {:induction false} BroadcastKeeps(s: Server)
    requires s.w.sending.Some?
    ensures Keeps(s, Apply(s, BroadcastStep))
  {
    forall n | n in Broadcast(s.w).unsent ensures n in s.w.unsent && Broadcast(s.w).unsent[n] == s.w.unsent[n] { LandedKeeps(s.w, n); }
  }

  lemma {:induction false} PermitKeeps(s: Server, c: nat)
    requires Inv(s) && Enabled(s, PermitStep(c))
    ensures Keeps(s, Apply(s, PermitStep(c)))
  {
    assert ConnectionInv(s.w, c, s.connections[c]);
    TicketIsNew(s.w, c, s.connections[c]);
    NewTicketKeeps(s, c);
  }

  lemma {:induction false} NewTicketKeeps(s: Server, c: nat)
    requires Enabled(s, PermitStep(c)) && s.connections[c].phase.ticket !in s.connections[c].accepted
    ensures Keeps(s, Apply(s, PermitStep(c)))
  {
  }

  lemma {:induction false} TicketIsNew(w: World, c: nat, k: Connection)
    requires ConnectionInv(w, c, k) && k.phase.Starting?
    ensures k.phase.ticket !in k.accepted
  {
  }

  lemma {:induction false} TakeKeeps(s: Server, c: nat)
    requires Enabled(s, TakeStep(c))
    ensures Keeps(s, Apply(s, TakeStep(c)))
  {
    TakeKeepsAccepted(c, s.connections[c], s.w.log[s.connections[c].cursor]);
  }

  lemma {:induction false} TakeKeepsAccepted(c: nat, k: Connection, p: Publication)
    ensures TakeAt(c, k, p).accepted == k.accepted
  {
  }

  lemma {:induction false} LagKeeps(s: Server, step: Step)
    requires Enabled(s, step) && (step.LagStep? || step.LagResyncStep? || step.LagAnswerStep? || step.LagCheckStep?)
    ensures Keeps(s, Apply(s, step))
  {
    if step.LagAnswerStep? { AnsweredKeepsAccepted(s.connections[step.c], step.order); }
  }

  lemma {:induction false} TaskKeeps(s: Server, step: Step)
    requires Enabled(s, step)
    requires step.HostPermitStep? || step.TaskReturnStep? || step.TaskSendStep? || step.TaskDropStep? || step.CloserStep? || step.RespondStep?
    ensures Keeps(s, Apply(s, step))
  {
  }

  lemma {:induction false} OwnStepKeeps(s: Server, step: Step)
    requires Inv(s) && Enabled(s, step) && IsOwn(step)
    ensures Keeps(s, Apply(s, step))
  {
    if step.BroadcastStep? {
      BroadcastKeeps(s);
    } else if step.PermitStep? {
      PermitKeeps(s, step.c);
    } else if step.TakeStep? {
      TakeKeeps(s, step.c);
    } else if step.LagStep? || step.LagResyncStep? || step.LagAnswerStep? || step.LagCheckStep? {
      LagKeeps(s, step);
    } else {
      TaskKeeps(s, step);
    }
  }

  lemma {:induction false} OwnRunKeeps(s: Server, steps: seq<Step>)
    requires Inv(s) && IsOwnRun(s, steps)
    ensures Keeps(s, After(s, steps))
    decreases |steps|
  {
    if steps != [] {
      var next := Apply(s, steps[0]);
      assert IsOwn(steps[0]);
      OwnStepKeeps(s, steps[0]);
      StepKeeps(s, steps[0]);
      assert forall i | 0 <= i < |steps[1..]| :: steps[1..][i] == steps[i + 1];
      OwnRunKeeps(next, steps[1..]);
    }
  }

  // ---------------------------------------------------------------- where everything has arrived

  /** The subscription has the modification in its snapshot, is not concerned by it, or was offered it. */
  predicate Has(held: Subscription, change: Change, n: nat) {
    n <= held.through || !change.publishes || held.projection !in change.affects || held.authoring || n in held.offered
  }

  lemma {:induction false} SettledAnswers(s: Server, c: nat, t: nat)
    requires Settled(s) && c in s.w.served && c in s.connections && t in s.connections[c].accepted
    ensures HasAnswer(s.connections[c].answers, t)
  {
    NothingLeft(s);
    assert ConnectionInv(s.w, c, s.connections[c]) && CaughtUp(s, c);
    NoneIsRunning(s.w, c, s.connections[c], t);
  }

  lemma {:induction false} NoneIsRunning(w: World, c: nat, k: Connection, t: nat)
    requires ConnectionInv(w, c, k) && k.phase == Idle && k.cursor == |w.log| && w.sending.None? && w.tasks == map[] && t in k.accepted
    ensures HasAnswer(k.answers, t)
  {
  }

  /** Every modification that is published has arrived. */
  lemma {:induction false} SettledHas(s: Server, c: nat, sub: nat, n: nat)
    requires Reachable(s) && Settled(s) && c in s.w.served && c in s.connections && sub in s.connections[c].subscriptions
    requires 0 < n <= |s.w.made| && n !in s.w.unsent
    ensures Has(s.connections[c].subscriptions[sub], s.w.made[n - 1], n)
  {
    assert CaughtUp(s, c);
    NothingLost(s, c, sub, n);
  }

  /** What is not published once the server has settled, its host has saved and not announced. */
  lemma {:induction false} SettledUnsent(s: Server, n: nat)
    requires Reachable(s) && Settled(s) && n in s.w.unsent
    ensures s.w.unsent[n] == ByHost
  {
    UnsentIsAtHand(s, n);
    NothingLeft(s);
    if s.w.unsent[n].ByConnection? { NoneAtHand(s, s.w.unsent[n].connection, n); }
  }

  lemma {:induction false} NoneAtHand(s: Server, c: nat, n: nat)
    requires Settled(s) && c in s.connections
    ensures !InConnection(s.connections[c].phase, n)
  {
    assert ConnectionInv(s.w, c, s.connections[c]);
    if c in s.w.served { assert CaughtUp(s, c); } else { NotServed(s.w, c, s.connections[c], n); }
  }

  lemma {:induction false} NotServed(w: World, c: nat, k: Connection, n: nat)
    requires ConnectionInv(w, c, k) && c !in w.served
    ensures !InConnection(k.phase, n)
  {
  }

  lemma {:induction false} JoinedRun(s: Server, first: seq<Step>, rest: seq<Step>)
    requires IsRun(s, first) && IsRun(After(s, first), rest)
    ensures IsRun(s, first + rest) && After(s, first + rest) == After(After(s, first), rest)
    decreases |first|
  {
    var all := first + rest;
    if first == [] {
      assert all == rest;
    } else {
      assert all[0] == first[0] && all[1..] == first[1..] + rest;
      JoinedRun(Apply(s, first[0]), first[1..], rest);
    }
  }

  lemma {:induction false} ReachableOn(s: Server, steps: seq<Step>)
    requires Reachable(s) && IsRun(s, steps)
    ensures Reachable(After(s, steps))
  {
    var window: nat, commandLimit: nat, first :| IsRun(Initial(window, commandLimit), first) && After(Initial(window, commandLimit), first) == s;
    JoinedRun(Initial(window, commandLimit), first, steps);
  }

  /** Each connection served has answered every command it had accepted. */
  ghost predicate AllAnswered(s: Server, after: Server) {
    forall c | c in s.w.served && c in s.connections ::
      c in after.connections && forall t | t in s.connections[c].accepted :: HasAnswer(after.connections[c].answers, t)
  }

  /** Each subscription of the connections served has the modification. */
  ghost predicate AllHave(s: Server, n: nat)
    requires 0 < n <= |s.w.made|
  {
    forall c | c in s.w.served && c in s.connections ::
      forall sub | sub in s.connections[c].subscriptions :: Has(s.connections[c].subscriptions[sub], s.w.made[n - 1], n)
  }

  lemma {:induction false} SettledAllAnswered(s: Server, after: Server)
    requires Keeps(s, after) && Settled(after) && after.w.served == s.w.served
    ensures AllAnswered(s, after)
  {
    forall c, t | c in s.w.served && c in s.connections && t in s.connections[c].accepted
      ensures c in after.connections && HasAnswer(after.connections[c].answers, t)
    {
      SettledAnswers(after, c, t);
    }
  }

  lemma {:induction false} SettledAllHave(s: Server, n: nat)
    requires Reachable(s) && Settled(s) && 0 < n <= |s.w.made|
    ensures AllHave(s, n) || (n in s.w.unsent && s.w.unsent[n] == ByHost)
  {
    if n in s.w.unsent {
      SettledUnsent(s, n);
    } else {
      forall c, sub | c in s.w.served && c in s.connections && sub in s.connections[c].subscriptions
        ensures Has(s.connections[c].subscriptions[sub], s.w.made[n - 1], n)
      {
        SettledHas(s, c, sub, n);
      }
    }
  }

  /** Whatever a server that is not stopped is doing, some run of its own steps, with no request, leads to
      where each connection it serves has answered every command it accepted, and each subscription has
      every modification saved that concerns it, but those the host has saved and not announced. */
  lemma {:induction false} EverythingArrives(s: Server) returns (steps: seq<Step>)
    requires Reachable(s) && !s.w.stopping
    ensures IsOwnRun(s, steps) && Reachable(After(s, steps)) && Keeps(s, After(s, steps)) && SameServed(s, After(s, steps))
    ensures AllAnswered(s, After(s, steps))
    ensures forall n | 0 < n <= |s.w.made| ::
              AllHave(After(s, steps), n) || (n in s.w.unsent && s.w.unsent[n] == ByHost && n in After(s, steps).w.unsent)
  {
    ReachableKeeps(s);
    steps := Settles(s);
    OwnRunKeeps(s, steps);
    ReachableOn(s, steps);
    SettledAllAnswered(s, After(s, steps));
    forall n | 0 < n <= |s.w.made|
      ensures AllHave(After(s, steps), n) || (n in s.w.unsent && s.w.unsent[n] == ByHost && n in After(s, steps).w.unsent)
    {
      SettledAllHave(After(s, steps), n);
    }
  }

  // ---------------------------------------------------------------- from a request on

  /** The steps, and then the server's own to where everything has arrived. */
  lemma {:induction false} ArrivesFrom(s: Server, first: seq<Step>) returns (steps: seq<Step>)
    requires Reachable(s) && IsRun(s, first) && !After(s, first).w.stopping
    ensures IsRun(s, steps) && Keeps(After(s, first), After(s, steps)) && AllAnswered(After(s, first), After(s, steps))
    ensures SameServed(After(s, first), After(s, steps))
    ensures forall n | 0 < n <= |After(s, first).w.made| ::
              AllHave(After(s, steps), n)
              || (n in After(s, first).w.unsent && After(s, first).w.unsent[n] == ByHost && n in After(s, steps).w.unsent)
  {
    ReachableOn(s, first);
    var rest := EverythingArrives(After(s, first));
    JoinedRun(s, first, rest);
    steps := first + rest;
  }

  lemma {:induction false} OneMore(s: Server, steps: seq<Step>, step: Step)
    requires IsRun(s, steps) && Enabled(After(s, steps), step)
    ensures IsRun(s, steps + [step]) && After(s, steps + [step]) == Apply(After(s, steps), step)
  {
    var last := [step];
    assert last[1..] == [] && IsRun(After(s, steps), last);
    JoinedRun(s, steps, last);
  }

  /** A served connection's command, where there is a permit for it, can run, save its change and be
      answered with its id, and every subscription then has its change. */
  lemma {:induction false} CommandIsCarried(s: Server, c: nat, id: Option<nat>, change: Change) returns (steps: seq<Step>)
    requires Reachable(s) && !s.w.stopping && InPhase(s, c, Idle) && s.w.permits > 0 && change.modification == Some(|s.w.made| + 1)
    ensures IsRun(s, steps) && After(s, steps).w.made == s.w.made + [change]
    ensures var t, after := s.connections[c].tickets + 1, After(s, steps);
            && c in after.connections && t in after.connections[c].accepted && after.connections[c].accepted[t].1 == id
            && HasAnswer(after.connections[c].answers, t)
    ensures AllHave(After(s, steps), |s.w.made| + 1)
  {
    ReachableKeeps(s);
    assert ConnectionInv(s.w, c, s.connections[c]);
    var first := CommandSaves(s, c, id, change);
    steps := ArrivesFrom(s, first);
  }

  lemma {:induction false} CommandStarts(s: Server, c: nat, id: Option<nat>)
    requires !s.w.stopping && InPhase(s, c, Idle) && s.w.permits > 0
    ensures Enabled(Apply(s, StartStep(c, id)), PermitStep(c))
    ensures var started := Apply(Apply(s, StartStep(c, id)), PermitStep(c));
            && s.w.nextTask in started.w.tasks && started.w.tasks[s.w.nextTask].stage == Executing(None)
            && started.w.made == s.w.made && started.w.stopping == s.w.stopping && started.w.served == s.w.served
            && c in started.connections && s.connections[c].tickets + 1 in started.connections[c].accepted
            && started.connections[c].accepted[s.connections[c].tickets + 1].1 == id
  {
  }

  /** The command is started and saves its change. */
  lemma {:induction false} CommandSaves(s: Server, c: nat, id: Option<nat>, change: Change) returns (steps: seq<Step>)
    requires !s.w.stopping && InPhase(s, c, Idle) && s.w.permits > 0 && change.modification == Some(|s.w.made| + 1)
    ensures IsRun(s, steps)
    ensures var after := After(s, steps);
            && after.w.made == s.w.made + [change] && !after.w.stopping && after.w.served == s.w.served
            && |s.w.made| + 1 in after.w.unsent && after.w.unsent[|s.w.made| + 1].ByTask?
            && c in after.connections && s.connections[c].tickets + 1 in after.connections[c].accepted
            && after.connections[c].accepted[s.connections[c].tickets + 1].1 == id
  {
    steps := StartingRun(s, c, id);
    CommandStarts(s, c, id);
    TaskSaves(After(s, steps), s.w.nextTask, change);
    OneMore(s, steps, TaskSaveStep(s.w.nextTask, change));
    steps := steps + [TaskSaveStep(s.w.nextTask, change)];
  }

  lemma {:induction false} StartingRun(s: Server, c: nat, id: Option<nat>) returns (steps: seq<Step>)
    requires Enabled(s, StartStep(c, id)) && Enabled(Apply(s, StartStep(c, id)), PermitStep(c))
    ensures IsRun(s, steps) && After(s, steps) == Apply(Apply(s, StartStep(c, id)), PermitStep(c))
  {
    OneMore(s, [], StartStep(c, id));
    OneMore(s, [] + [StartStep(c, id)], PermitStep(c));
    steps := [] + [StartStep(c, id)] + [PermitStep(c)];
  }

  lemma {:induction false} TaskSaves(s: Server, task: nat, change: Change)
    requires task in s.w.tasks && s.w.tasks[task].stage == Executing(None) && NextChange(s.w, change)
    ensures Enabled(s, TaskSaveStep(task, change))
    ensures var after := Apply(s, TaskSaveStep(task, change));
            && after.w.made == s.w.made + [change] && after.w.stopping == s.w.stopping && after.w.served == s.w.served
            && after.connections == s.connections && |s.w.made| + 1 in after.w.unsent && after.w.unsent[|s.w.made| + 1].ByTask?
  {
  }

  /** And so can a command of the host's. */
  lemma {:induction false} HostCommandIsCarried(s: Server, change: Change) returns (steps: seq<Step>)
    requires Reachable(s) && !s.w.stopping && s.w.permits > 0 && change.modification == Some(|s.w.made| + 1)
    ensures IsRun(s, steps) && After(s, steps).w.made == s.w.made + [change] && AllHave(After(s, steps), |s.w.made| + 1)
  {
    var task := s.w.nextTask;
    HostStarts(s);
    var first := [] + [HostStartStep] + [HostPermitStep(task)];
    TaskSaves(After(s, first), task, change);
    OneMore(s, first, TaskSaveStep(task, change));
    steps := ArrivesFrom(s, first + [TaskSaveStep(task, change)]);
  }

  lemma {:induction false} HostStarts(s: Server)
    requires !s.w.stopping && s.w.permits > 0
    ensures var first := [] + [HostStartStep] + [HostPermitStep(s.w.nextTask)];
            && IsRun(s, first)
            && var after := After(s, first);
               && s.w.nextTask in after.w.tasks && after.w.tasks[s.w.nextTask].stage == Executing(None)
               && after.w.made == s.w.made && !after.w.stopping
  {
    OneMore(s, [], HostStartStep);
    OneMore(s, [] + [HostStartStep], HostPermitStep(s.w.nextTask));
  }

  /** A mutation a connection is asked for reaches every subscription. */
  lemma {:induction false} MutationIsCarried(s: Server, c: nat, change: Change) returns (steps: seq<Step>)
    requires Reachable(s) && !s.w.stopping && InPhase(s, c, Idle) && change.modification == Some(|s.w.made| + 1)
    ensures IsRun(s, steps) && After(s, steps).w.made == s.w.made + [change] && AllHave(After(s, steps), |s.w.made| + 1)
  {
    OneMore(s, [], MutateStep(c, change));
    steps := ArrivesFrom(s, [MutateStep(c, change)]);
  }

  /** A change the host saves and announces reaches every subscription. */
  lemma {:induction false} AnnouncementIsCarried(s: Server, change: Change) returns (steps: seq<Step>)
    requires Reachable(s) && !s.w.stopping && s.w.sending.None? && change.modification == Some(|s.w.made| + 1)
    ensures IsRun(s, steps) && After(s, steps).w.made == s.w.made + [change] && AllHave(After(s, steps), |s.w.made| + 1)
  {
    var announced := HostAnnounces(s, change);
    AnnouncedIsSent(After(s, announced).w, change);
    OneMore(s, announced, BroadcastStep);
    steps := ArrivesFrom(s, announced + [BroadcastStep]);
  }

  lemma {:induction false} HostAnnounces(s: Server, change: Change) returns (steps: seq<Step>)
    requires s.w.sending.None? && change.modification == Some(|s.w.made| + 1)
    ensures IsRun(s, steps)
    ensures var after := After(s, steps);
            && after.w.sending == Some(Send(Announced(change), ByHost)) && after.w.made == s.w.made + [change]
            && after.w.stopping == s.w.stopping
  {
    OneMore(s, [], HostSaveStep(change));
    OneMore(s, [] + [HostSaveStep(change)], HostSendStep(Announced(change)));
    steps := [] + [HostSaveStep(change)] + [HostSendStep(Announced(change))];
  }

  lemma {:induction false} AnnouncedIsSent(w: World, change: Change)
    requires w.sending == Some(Send(Announced(change), ByHost)) && change.modification.Some?
    ensures change.modification.value !in Broadcast(w).unsent && Broadcast(w).made == w.made && Broadcast(w).stopping == w.stopping
  {
  }

  /** A connection that is admitted is served, and can then subscribe. */
  lemma {:induction false} AdmittedIsServed(s: Server, c: nat) returns (steps: seq<Step>)
    requires !s.w.stopping && s.w.sending.None? && c != NO_CONNECTION && c !in s.connections
    ensures IsRun(s, steps) && CaughtUp(After(s, steps), c) && After(s, steps).w.served == s.w.served + {c}
  {
    OneMore(s, [], AdmitStep(c));
    OneMore(s, [AdmitStep(c)], CountStep(c));
    steps := [AdmitStep(c)] + [CountStep(c)];
  }

  /** Whatever a server is doing, once it is told to shut down it can come to an end by itself. */
  lemma {:induction false} ShutDownEnds(s: Server) returns (steps: seq<Step>)
    requires Reachable(s)
    ensures IsRun(s, [ShutDownStep] + steps) && (forall i | 0 <= i < |steps| :: IsOwn(steps[i]))
    ensures After(s, [ShutDownStep] + steps).w.running == 0 && After(s, [ShutDownStep] + steps).w.serving == 0
  {
    var stopped := Apply(s, ShutDownStep);
    OneMore(s, [], ShutDownStep);
    ReachableOn(s, [ShutDownStep]);
    steps := ShutDownCanComplete(stopped);
    JoinedRun(s, [ShutDownStep], steps);
  }
}
