/**
 A shutdown never gets stuck: from every state it can be in, steps of the server's own, with no
 request and no disconnection, lead to one where nothing runs and nobody is served.
 */
module PublicationsProgress {
  import opened Wrappers
  import opened Publications
  import opened PublicationsInvariant
  import opened PublicationsRuns
  import opened PublicationsTheorems

  /** The steps a server takes by itself: no client asks for one, and no host does. */
  predicate IsOwn(step: Step) {
    match step
    case PermitStep(_) => true
    case RespondStep(_) => true
    case TakeStep(_) => true
    case LagStep(_) => true
    case LagResyncStep(_, _) => true
    case LagAnswerStep(_, _) => true
    case LagCheckStep(_) => true
    case HostPermitStep(_) => true
    case TaskReturnStep(_, _) => true
    case TaskSendStep(_) => true
    case TaskDropStep(_) => true
    case BroadcastStep => true
    case CloserStep => true
    case _ => false
  }

  /** A run of own steps. */
  ghost predicate IsOwnRun(s: Server, steps: seq<Step>) {
    IsRun(s, steps) && forall i | 0 <= i < |steps| :: IsOwn(steps[i])
  }

  ghost predicate Stopping(s: Server) { Inv(s) && s.w.stopping }

  lemma {:induction false} RunsJoin(s: Server, first: seq<Step>, then_: seq<Step>)
    requires IsOwnRun(s, first) && IsOwnRun(After(s, first), then_)
    ensures IsOwnRun(s, first + then_) && After(s, first + then_) == After(After(s, first), then_)
    decreases |first|
  {
    var all := first + then_;
    if first == [] {
      assert all == then_;
    } else {
      assert all[0] == first[0] && all[1..] == first[1..] + then_;
      var next := Apply(s, first[0]);
      assert forall i | 0 <= i < |first[1..]| :: first[1..][i] == first[i + 1];
      RunsJoin(next, first[1..], then_);
    }
  }

  lemma {:induction false} RunOf(s: Server, step: Step)
    requires Enabled(s, step) && IsOwn(step)
    ensures IsOwnRun(s, [step]) && After(s, [step]) == Apply(s, step)
  {
    assert [step][1..] == [];
    assert After(Apply(s, step), []) == Apply(s, step);
  }

  /** One step and a run after it. */
  lemma {:induction false} StepAndRun(s: Server, step: Step, rest: seq<Step>)
    requires Enabled(s, step) && IsOwn(step) && IsOwnRun(Apply(s, step), rest)
    ensures IsOwnRun(s, [step] + rest) && After(s, [step] + rest) == After(Apply(s, step), rest)
  {
    RunOf(s, step);
    RunsJoin(s, [step], rest);
  }

  // ---------------------------------------------------------------- what is still to be published

  function Rank(stage: Stage): nat {
    match stage
    case Counted => 5
    case Executing(_) => 4
    case Returned(_) => 3
    case Sent(false) => 2
    case Sent(true) => 1
  }

  function TasksFrom(tasks: map<nat, Task>, rank: nat): set<nat> { set id | id in tasks && Rank(tasks[id].stage) >= rank }

  /** The steps the tasks have left, the sending of an outcome counted twice. */
  function TaskWork(tasks: map<nat, Task>): nat {
    |TasksFrom(tasks, 1)| + |TasksFrom(tasks, 2)| + 2 * |TasksFrom(tasks, 3)| + |TasksFrom(tasks, 4)| + |TasksFrom(tasks, 5)|
  }

  function MutatingIn(connections: map<nat, Connection>): set<nat> { set c | c in connections && connections[c].phase.Mutating? }

  function Work(s: Server): nat {
    TaskWork(s.w.tasks) + 2 * |MutatingIn(s.connections)| + (if s.w.closerPending then 2 else 0) + (if s.w.sending.Some? then 1 else 0)
  }

  lemma {:induction false} OneLess(s: set<nat>, id: nat)
    ensures |s - {id}| == if id in s then |s| - 1 else |s|
  {
    if id !in s { assert s - {id} == s; }
  }

  lemma {:induction false} StageDropsAt(tasks: map<nat, Task>, id: nat, stage: Stage, r: nat)
    requires id in tasks && Rank(stage) < Rank(tasks[id].stage)
    ensures |TasksFrom(tasks[id := tasks[id].(stage := stage)], r)| ==
            if Rank(stage) < r <= Rank(tasks[id].stage) then |TasksFrom(tasks, r)| - 1 else |TasksFrom(tasks, r)|
  {
    var after := tasks[id := tasks[id].(stage := stage)];
    if r <= Rank(stage) {
      assert TasksFrom(after, r) == TasksFrom(tasks, r);
    } else {
      assert TasksFrom(after, r) == TasksFrom(tasks, r) - {id};
      OneLess(TasksFrom(tasks, r), id);
    }
  }

  lemma {:induction false} StageDrops(tasks: map<nat, Task>, id: nat, stage: Stage)
    requires id in tasks && Rank(stage) < Rank(tasks[id].stage)
    ensures var after := tasks[id := tasks[id].(stage := stage)];
            TaskWork(after) + (if Rank(stage) < 3 <= Rank(tasks[id].stage) then 2 else 1) <= TaskWork(tasks)
  {
    StageDropsAt(tasks, id, stage, 1);
    StageDropsAt(tasks, id, stage, 2);
    StageDropsAt(tasks, id, stage, 3);
    StageDropsAt(tasks, id, stage, 4);
    StageDropsAt(tasks, id, stage, 5);
  }

  lemma {:induction false} TaskLeavesAt(tasks: map<nat, Task>, id: nat, r: nat)
    requires id in tasks
    ensures |TasksFrom(tasks - {id}, r)| <= |TasksFrom(tasks, r)|
    ensures r <= Rank(tasks[id].stage) ==> |TasksFrom(tasks - {id}, r)| < |TasksFrom(tasks, r)|
  {
    assert TasksFrom(tasks - {id}, r) == TasksFrom(tasks, r) - {id};
    OneLess(TasksFrom(tasks, r), id);
  }

  lemma {:induction false} TaskLeaves(tasks: map<nat, Task>, id: nat)
    requires id in tasks
    ensures TaskWork(tasks - {id}) < TaskWork(tasks)
  {
    TaskLeavesAt(tasks, id, 1);
    TaskLeavesAt(tasks, id, 2);
    TaskLeavesAt(tasks, id, 3);
    TaskLeavesAt(tasks, id, 4);
    TaskLeavesAt(tasks, id, 5);
  }

  lemma {:induction false} NoMoreMutating(before: map<nat, Connection>, after: map<nat, Connection>)
    requires forall c | c in after && after[c].phase.Mutating? :: c in before && before[c].phase.Mutating?
    ensures |MutatingIn(after)| <= |MutatingIn(before)|
  {
    SubsetSize(MutatingIn(after), MutatingIn(before));
  }

  lemma {:induction false} SubsetSize(a: set<nat>, b: set<nat>)
    requires a <= b
    ensures |a| <= |b|
    decreases |a|
  {
    if a != {} {
      var x :| x in a;
      SubsetSize(a - {x}, b - {x});
    }
  }

  /** The server is still stopping, with the same connections served. */
  predicate SameServed(s: Server, after: Server) { after.w.stopping == s.w.stopping && after.w.served == s.w.served }

  // ---------------------------------------------------------------- each step leaves less

  /** The publication is sent, and its task, if it is one's outcome, has it sent. */
  ghost predicate IsSent(s: Server, after: Server)
    requires s.w.sending.Some?
  {
    var owner := s.w.sending.value.owner;
    && after.w.sending.None? && after.w.closerPending == s.w.closerPending && SameServed(s, after)
    && after.w.tasks == (if owner.ByTask? && owner.task in s.w.tasks
                         then s.w.tasks[owner.task := s.w.tasks[owner.task].(stage := Sent(true))] else s.w.tasks)
    && forall c | c in after.connections && after.connections[c].phase.Mutating? ::
         c in s.connections && s.connections[c].phase.Mutating?
  }

  lemma {:induction false} LandedLeaves(w: World)
    requires w.sending.Some?
    ensures var after := Landed(w);
            && after.sending.None? && after.tasks == w.tasks && after.closerPending == w.closerPending
            && after.stopping == w.stopping && after.served == w.served
  {
  }

  lemma {:induction false} BroadcastLeaves(w: World)
    requires w.sending.Some?
    ensures var after, owner := Broadcast(w), w.sending.value.owner;
            && after.sending.None? && after.closerPending == w.closerPending && after.stopping == w.stopping && after.served == w.served
            && after.tasks == (if owner.ByTask? && owner.task in w.tasks
                               then w.tasks[owner.task := w.tasks[owner.task].(stage := Sent(true))] else w.tasks)
  {
    LandedLeaves(w);
  }

  lemma {:induction false} BroadcastSends(s: Server)
    requires s.w.sending.Some?
    ensures IsSent(s, Apply(s, BroadcastStep))
  {
    BroadcastLeaves(s.w);
    assert Apply(s, BroadcastStep).w == Broadcast(s.w);
  }

  lemma {:induction false} SentIsLess(s: Server, after: Server)
    requires s.w.sending.Some? && IsSent(s, after)
    requires forall id | s.w.sending.value.owner == ByTask(id) && id in s.w.tasks :: s.w.tasks[id].stage == Sent(false)
    ensures Work(after) < Work(s)
  {
    var owner := s.w.sending.value.owner;
    if owner.ByTask? && owner.task in s.w.tasks { StageDrops(s.w.tasks, owner.task, Sent(true)); }
    NoMoreMutating(s.connections, after.connections);
  }

  lemma {:induction false} BroadcastDrops(s: Server)
    requires s.w.sending.Some?
    requires forall id | s.w.sending.value.owner == ByTask(id) && id in s.w.tasks :: s.w.tasks[id].stage == Sent(false)
    ensures Work(Apply(s, BroadcastStep)) < Work(s) && SameServed(s, Apply(s, BroadcastStep))
  {
    BroadcastSends(s);
    SentIsLess(s, Apply(s, BroadcastStep));
  }

  lemma {:induction false} PermitDrops(s: Server, step: Step, id: nat)
    requires Enabled(s, step) && id in s.w.tasks && s.w.tasks[id].stage == Counted
    requires (step.PermitStep? && s.connections[step.c].phase.task == id) || step == HostPermitStep(id)
    ensures Work(Apply(s, step)) < Work(s) && SameServed(s, Apply(s, step))
  {
    var after := Apply(s, step);
    assert after.w == PermitTask(s.w, id);
    PermittedIsLess(s.w, id);
    NoMoreMutating(s.connections, after.connections);
  }

  lemma {:induction false} PermittedIsLess(w: World, id: nat)
    requires id in w.tasks && w.tasks[id].stage == Counted
    ensures var after := PermitTask(w, id);
            && TaskWork(after.tasks) < TaskWork(w.tasks) && after.stopping == w.stopping && after.served == w.served
            && after.sending == w.sending && after.closerPending == w.closerPending
  {
    StageDrops(w.tasks, id, Executing(None));
    TaskLeaves(w.tasks, id);
  }

  lemma {:induction false} ReturnDrops(s: Server, id: nat, outcome: Outcome)
    requires Enabled(s, TaskReturnStep(id, outcome))
    ensures Work(Apply(s, TaskReturnStep(id, outcome))) < Work(s) && SameServed(s, Apply(s, TaskReturnStep(id, outcome)))
  {
    StageDrops(s.w.tasks, id, Returned(outcome));
  }

  lemma {:induction false} SendDrops(s: Server, id: nat)
    requires Enabled(s, TaskSendStep(id))
    ensures Work(Apply(s, TaskSendStep(id))) < Work(s) && SameServed(s, Apply(s, TaskSendStep(id)))
  {
    StageDrops(s.w.tasks, id, Sent(false));
    NoMoreMutating(s.connections, Apply(s, TaskSendStep(id)).connections);
  }

  lemma {:induction false} DropDrops(s: Server, id: nat)
    requires Enabled(s, TaskDropStep(id))
    ensures Work(Apply(s, TaskDropStep(id))) < Work(s) && SameServed(s, Apply(s, TaskDropStep(id)))
  {
    TaskLeaves(s.w.tasks, id);
  }

  lemma {:induction false} RespondDrops(s: Server, c: nat)
    requires Enabled(s, RespondStep(c))
    ensures Work(Apply(s, RespondStep(c))) < Work(s) && SameServed(s, Apply(s, RespondStep(c)))
  {
    var after := Apply(s, RespondStep(c));
    assert MutatingIn(after.connections) == MutatingIn(s.connections) - {c};
    OneLess(MutatingIn(s.connections), c);
  }

  lemma {:induction false} CloserDrops(s: Server)
    requires Enabled(s, CloserStep)
    ensures Work(Apply(s, CloserStep)) < Work(s) && SameServed(s, Apply(s, CloserStep))
  {
  }

  // ---------------------------------------------------------------- until nothing is left to publish

  /** An own step, and less to do after it. */
  ghost predicate Advances(s: Server, step: Step) {
    Enabled(s, step) && IsOwn(step) && Work(Apply(s, step)) < Work(s) && SameServed(s, Apply(s, step))
  }

  /** A command that is counted and has no permit is being started by its connection. */
  lemma {:induction false} CountedIsStarting(s: Server, id: nat)
    requires Inv(s) && id in s.w.tasks && s.w.tasks[id].stage == Counted && s.w.tasks[id].origin != NO_CONNECTION
    ensures var c := s.w.tasks[id].origin;
            c in s.connections && s.connections[c].phase.Starting? && s.connections[c].phase.task == id
  {
    var c := s.w.tasks[id].origin;
    if c in s.connections {
      assert ConnectionInv(s.w, c, s.connections[c]);
      StartedByConnection(s.w, c, s.connections[c], id);
    }
  }

  lemma {:induction false} StartedByConnection(w: World, c: nat, k: Connection, id: nat)
    requires ConnectionInv(w, c, k) && id in w.tasks && w.tasks[id].origin == c && w.tasks[id].stage == Counted
    ensures k.phase.Starting? && k.phase.task == id
  {
    if Live(k) { assert OwnTask(id, w.tasks[id], k.phase, k.accepted, k.running, k.ran); }
  }

  lemma {:induction false} TaskAdvances(s: Server, id: nat) returns (step: Step)
    requires Inv(s) && id in s.w.tasks && s.w.sending.None?
    ensures Advances(s, step)
  {
    assert TaskInv(s.w, id);
    match s.w.tasks[id].stage
    case Counted => step := CountedAdvances(s, id);
    case Executing(saved) =>
      var outcome := if saved.Some? then Done(saved.value) else Failed;
      step := TaskReturnStep(id, outcome);
      ReturnDrops(s, id, outcome);
    case Returned(_) =>
      step := TaskSendStep(id);
      SendDrops(s, id);
    case Sent(_) =>
      step := TaskDropStep(id);
      DropDrops(s, id);
  }

  lemma {:induction false} CountedAdvances(s: Server, id: nat) returns (step: Step)
    requires Inv(s) && id in s.w.tasks && s.w.tasks[id].stage == Counted
    ensures Advances(s, step)
  {
    if s.w.tasks[id].origin == NO_CONNECTION {
      step := HostPermitStep(id);
    } else {
      CountedIsStarting(s, id);
      step := PermitStep(s.w.tasks[id].origin);
    }
    PermitDrops(s, step, id);
  }

  /** While something is left to publish, some own step publishes more of it. */
  lemma {:induction false} WorkAdvances(s: Server) returns (step: Step)
    requires Inv(s) && Work(s) > 0
    ensures Advances(s, step)
  {
    if s.w.sending.Some? {
      assert SendingTask(s.w);
      step := BroadcastStep;
      BroadcastDrops(s);
    } else if id :| id in s.w.tasks {
      step := TaskAdvances(s, id);
    } else if c :| c in MutatingIn(s.connections) {
      step := RespondStep(c);
      RespondDrops(s, c);
    } else {
      NoTasksNoWork(s.w.tasks);
      assert s.w.tasks == map[] && s.w.running == 0;
      step := CloserStep;
      CloserDrops(s);
    }
  }

  lemma {:induction false} NoTasksNoWork(tasks: map<nat, Task>)
    requires forall id :: id !in tasks
    ensures TaskWork(tasks) == 0
  {
    forall r: nat ensures TasksFrom(tasks, r) == {} {}
  }

  /** A server's own steps lead to where nothing is left to publish. */
  lemma {:induction false} Quiesces(s: Server) returns (steps: seq<Step>)
    requires Inv(s)
    ensures IsOwnRun(s, steps) && Inv(After(s, steps)) && Work(After(s, steps)) == 0 && SameServed(s, After(s, steps))
    decreases Work(s)
  {
    steps := [];
    if Work(s) > 0 {
      var step := WorkAdvances(s);
      StepKeeps(s, step);
      var rest := Quiesces(Apply(s, step));
      StepAndRun(s, step, rest);
      steps := [step] + rest;
    }
  }

  // ---------------------------------------------------------------- until nobody is served

  /** Nothing is left to publish, and the closing publication is in the log. */
  lemma {:induction false} QuietIsClosed(s: Server)
    requires Stopping(s) && Work(s) == 0
    ensures s.w.sending.None? && s.w.tasks == map[] && 0 < s.w.closingAt <= |s.w.log| && MutatingIn(s.connections) == {}
  {
    NothingLeft(s);
  }

  lemma {:induction false} NothingLeft(s: Server)
    requires Work(s) == 0
    ensures s.w.sending.None? && s.w.tasks == map[] && MutatingIn(s.connections) == {} && !s.w.closerPending
  {
    if id :| id in s.w.tasks {
      TaskLeaves(s.w.tasks, id);
    }
  }

  /** What is left for a connection to take, and to do once it fell behind. */
  function PhaseRank(phase: Phase): nat { if phase.Lagging? then 2 else if phase.Checking? then 1 else 0 }

  function PendingOf(phase: Phase): set<nat> { if phase.Lagging? then phase.pending else {} }

  ghost predicate Nearer(s: Server, after: Server, c: nat)
    requires c in s.connections && c in after.connections
  {
    var k, k' := s.connections[c], after.connections[c];
    && after.w.log == s.w.log && k.cursor <= k'.cursor <= |s.w.log|
    && (k'.cursor == k.cursor ==> PhaseRank(k'.phase) <= PhaseRank(k.phase))
    && (k'.cursor == k.cursor && PhaseRank(k'.phase) == PhaseRank(k.phase) ==> |PendingOf(k'.phase)| < |PendingOf(k.phase)|)
  }

  /** The step closes the connection, or brings it nearer to the closing publication, and does nothing else. */
  ghost predicate Drives(s: Server, step: Step, c: nat) {
    && c in s.connections && Enabled(s, step) && IsOwn(step)
    && var after := Apply(s, step);
       && c in after.connections
       && after.w == s.w.(serving := after.w.serving, served := after.w.served)
       && MutatingIn(after.connections) <= MutatingIn(s.connections)
       && (forall d | d != c && d in s.connections :: d in after.connections && after.connections[d] == s.connections[d])
       && (|| (after.w.served == s.w.served - {c} && after.connections[c].phase == Ended(true))
           || (after.w.served == s.w.served && Nearer(s, after, c)))
  }

  lemma {:induction false} TakeDrives(s: Server, c: nat)
    requires Enabled(s, TakeStep(c)) && s.connections[c].cursor < |s.w.log|
    ensures Drives(s, TakeStep(c), c)
  {
    var k := s.connections[c];
    if !s.w.log[k.cursor].Closing? { TakeKeepsPhase(c, k, s.w.log[k.cursor]); }
  }

  lemma {:induction false} TakeKeepsPhase(c: nat, k: Connection, p: Publication)
    ensures TakeAt(c, k, p).phase == k.phase && TakeAt(c, k, p).cursor == k.cursor + 1
  {
  }

  lemma {:induction false} LagDrives(s: Server, c: nat)
    requires Enabled(s, LagStep(c))
    ensures Drives(s, LagStep(c), c)
  {
  }

  lemma {:induction false} ResyncDrives(s: Server, c: nat, sub: nat)
    requires Enabled(s, LagResyncStep(c, sub)) && s.connections[c].cursor <= |s.w.log|
    ensures Drives(s, LagResyncStep(c, sub), c)
  {
    OneLess(s.connections[c].phase.pending, sub);
  }

  lemma {:induction false} AnswerDrives(s: Server, c: nat, order: seq<(nat, nat)>)
    requires Enabled(s, LagAnswerStep(c, order)) && s.connections[c].cursor <= |s.w.log|
    ensures Drives(s, LagAnswerStep(c, order), c)
  {
    AnsweringKeepsPlace(s.connections[c], order);
  }

  lemma {:induction false} AnsweringKeepsPlace(k: Connection, order: seq<(nat, nat)>)
    ensures AnsweredAll(k, order).cursor == k.cursor
    decreases |order|
  {
    if order != [] { AnsweringKeepsPlace(Answered(k, order[0].0, order[0].1), order[1..]); }
  }

  lemma {:induction false} CheckDrives(s: Server, c: nat)
    requires Enabled(s, LagCheckStep(c)) && s.connections[c].cursor <= |s.w.log|
    ensures Drives(s, LagCheckStep(c), c)
  {
  }

  // ---------------------------------------------------------------- the skipped commands have an order

  lemma {:induction false} LatestOf(ran: map<nat, nat>, tickets: set<nat>) returns (t: nat)
    requires tickets <= ran.Keys && tickets != {}
    ensures t in tickets && forall u | u in tickets :: ran[u] <= ran[t]
    decreases |tickets|
  {
    t :| t in tickets;
    var rest := tickets - {t};
    if rest != {} {
      var u := LatestOf(ran, rest);
      if ran[u] > ran[t] { t := u; }
    }
  }

  ghost predicate IsOrderOf(ran: map<nat, nat>, tickets: set<nat>, order: seq<(nat, nat)>) {
    && (forall i | 0 <= i < |order| :: order[i].0 in tickets && order[i].0 in ran && ran[order[i].0] == order[i].1)
    && (forall t | t in tickets && t in ran :: (t, ran[t]) in order)
    && (forall i, j | 0 <= i < j < |order| :: order[i].1 < order[j].1)
  }

  lemma {:induction false} OrderExists(ran: map<nat, nat>, tickets: set<nat>) returns (order: seq<(nat, nat)>)
    requires tickets <= ran.Keys && forall t, u | t in tickets && u in tickets && ran[t] == ran[u] :: t == u
    ensures IsOrderOf(ran, tickets, order)
    decreases |tickets|
  {
    order := [];
    if tickets != {} {
      var t := LatestOf(ran, tickets);
      var fewer := OrderExists(ran, tickets - {t});
      order := fewer + [(t, ran[t])];
      assert order[|fewer|] == (t, ran[t]);
      forall u | u in tickets ensures (u, ran[u]) in order {
        if u != t { assert (u, ran[u]) in fewer; }
      }
    }
  }

  lemma {:induction false} SkippedOrderExists(ran: map<nat, nat>, skipped: nat) returns (order: seq<(nat, nat)>)
    requires forall t, u | t in ran && u in ran && ran[t] == ran[u] :: t == u
    ensures IsSkippedOrder(ran, skipped, order)
  {
    var tickets := set t | t in ran && ran[t] <= skipped;
    order := OrderExists(ran, tickets);
  }

  /** No two commands of a connection ran at one number. */
  lemma {:induction false} NumbersDiffer(w: World, c: nat, k: Connection)
    requires RanInv(w.log, w.sending, c, k.ran, k.running, AnsweredBelow(k))
    ensures forall t, u | t in k.ran && u in k.ran && k.ran[t] == k.ran[u] :: t == u
  {
    forall t, u | t in k.ran && u in k.ran && k.ran[t] == k.ran[u] ensures t == u {
      assert RanAt(w.log, w.sending, c, t, k.ran[t]) && RanAt(w.log, w.sending, c, u, k.ran[u]);
    }
  }

  // ---------------------------------------------------------------- one connection driven to its end

  /** What the invariant says of a served connection when nothing is left to publish. */
  lemma {:induction false} ServedPhase(w: World, c: nat, k: Connection)
    requires ConnectionInv(w, c, k) && c in w.served && w.sending.None? && w.tasks == map[] && 0 < w.closingAt <= |w.log| && !k.phase.Mutating?
    ensures k.cursor <= |w.log| && (k.phase == Idle || k.phase.Lagging? || k.phase.Checking?)
    ensures k.phase == Idle ==> k.cursor < |w.log|
    ensures k.phase.Lagging? ==> k.phase.pending <= k.subscriptions.Keys
    ensures RanInv(w.log, w.sending, c, k.ran, k.running, AnsweredBelow(k))
  {
  }

  lemma {:induction false} ConnectionDrives(s: Server, c: nat) returns (step: Step)
    requires Stopping(s) && Work(s) == 0 && c in s.w.served
    ensures Drives(s, step, c)
  {
    QuietIsClosed(s);
    assert c in s.connections && ConnectionInv(s.w, c, s.connections[c]) && c !in MutatingIn(s.connections);
    ServedPhase(s.w, c, s.connections[c]);
    step := PhaseDrives(s, c);
  }

  lemma {:induction false} PhaseDrives(s: Server, c: nat) returns (step: Step)
    requires c in s.connections && s.w.sending.None?
    requires var k := s.connections[c];
             && k.cursor <= |s.w.log| && (k.phase == Idle || k.phase.Lagging? || k.phase.Checking?)
             && (k.phase == Idle ==> k.cursor < |s.w.log|)
             && (k.phase.Lagging? ==> k.phase.pending <= k.subscriptions.Keys)
             && RanInv(s.w.log, s.w.sending, c, k.ran, k.running, AnsweredBelow(k))
    ensures Drives(s, step, c)
  {
    var k := s.connections[c];
    if k.phase == Idle {
      if |s.w.log| <= k.cursor + s.w.window {
        step := TakeStep(c);
        TakeDrives(s, c);
      } else {
        step := LagStep(c);
        LagDrives(s, c);
      }
    } else if k.phase.Checking? {
      step := LagCheckStep(c);
      CheckDrives(s, c);
    } else if sub :| sub in k.phase.pending {
      step := LagResyncStep(c, sub);
      ResyncDrives(s, c, sub);
    } else {
      NumbersDiffer(s.w, c, k);
      var order := SkippedOrderExists(k.ran, k.phase.skipped);
      assert k.phase.pending == {};
      step := LagAnswerStep(c, order);
      AnswerDrives(s, c, order);
    }
  }

  lemma {:induction false} DrivesQuietly(s: Server, step: Step, c: nat)
    requires Inv(s) && Work(s) == 0 && Drives(s, step, c)
    ensures Inv(Apply(s, step)) && Work(Apply(s, step)) == 0 && Apply(s, step).w.stopping == s.w.stopping
  {
    StepKeeps(s, step);
    SubsetSize(MutatingIn(Apply(s, step).connections), MutatingIn(s.connections));
  }

  predicate ClosedIn(s: Server, c: nat) { c in s.connections && s.connections[c].phase == Ended(true) }

  /** A served connection is closed, and no other that has ended changes. */
  lemma {:induction false} Closes(s: Server, c: nat) returns (steps: seq<Step>)
    requires Stopping(s) && Work(s) == 0 && c in s.w.served && c in s.connections && s.connections[c].cursor <= |s.w.log|
    ensures IsOwnRun(s, steps) && Stopping(After(s, steps)) && Work(After(s, steps)) == 0
    ensures After(s, steps).w.served == s.w.served - {c} && ClosedIn(After(s, steps), c)
    ensures forall d | d != c && d in s.connections && s.connections[d].phase.Ended? ::
              d in After(s, steps).connections && After(s, steps).connections[d] == s.connections[d]
    decreases |s.w.log| - s.connections[c].cursor, PhaseRank(s.connections[c].phase), |PendingOf(s.connections[c].phase)|
  {
    var step := ConnectionDrives(s, c);
    DrivesQuietly(s, step, c);
    var after := Apply(s, step);
    var rest: seq<Step> := [];
    if after.w.served != s.w.served - {c} {
      rest := Closes(after, c);
    }
    StepAndRun(s, step, rest);
    steps := [step] + rest;
  }

  /** And so is everyone. */
  lemma {:induction false} AllClose(s: Server) returns (steps: seq<Step>)
    requires Stopping(s) && Work(s) == 0
    ensures IsOwnRun(s, steps) && Stopping(After(s, steps)) && Work(After(s, steps)) == 0 && After(s, steps).w.served == {}
    ensures forall c | c in s.w.served || ClosedIn(s, c) :: ClosedIn(After(s, steps), c)
    decreases |s.w.served|
  {
    steps := [];
    if c :| c in s.w.served {
      assert c in s.connections && ConnectionInv(s.w, c, s.connections[c]);
      CursorInLog(s.w, c, s.connections[c]);
      var first := Closes(s, c);
      OneLess(s.w.served, c);
      var rest := AllClose(After(s, first));
      RunsJoin(s, first, rest);
      steps := first + rest;
    }
  }

  lemma {:induction false} CursorInLog(w: World, c: nat, k: Connection)
    requires ConnectionInv(w, c, k)
    ensures k.cursor <= |w.log|
  {
  }

  /** Whatever a server was doing as it was shut down, some run of its own steps, with no request and
      no disconnection, ends with no command running and no connection served; each that was served
      was closed by the shutdown, and so has answered every command it accepted. */
  lemma {:induction false} ShutDownCanComplete(s: Server) returns (steps: seq<Step>)
    requires Reachable(s) && s.w.stopping
    ensures IsOwnRun(s, steps) && After(s, steps).w.running == 0 && After(s, steps).w.serving == 0
    ensures forall c | c in s.w.served ::
              ClosedIn(After(s, steps), c) && forall t | t in After(s, steps).connections[c].accepted :: HasAnswer(After(s, steps).connections[c].answers, t)
  {
    ReachableKeeps(s);
    var first := Quiesces(s);
    var rest := AllClose(After(s, first));
    RunsJoin(s, first, rest);
    steps := first + rest;
    QuietIsClosed(After(s, steps));
    NobodyServed(After(s, steps).w);
    forall c | c in s.w.served
      ensures ClosedIn(After(s, steps), c) && forall t | t in After(s, steps).connections[c].accepted :: HasAnswer(After(s, steps).connections[c].answers, t)
    {
      ClosedHasAnswered(After(s, steps), c);
    }
  }

  lemma {:induction false} ClosedHasAnswered(s: Server, c: nat)
    requires Inv(s) && ClosedIn(s, c)
    ensures forall t | t in s.connections[c].accepted :: HasAnswer(s.connections[c].answers, t)
  {
    assert ConnectionInv(s.w, c, s.connections[c]);
  }

  lemma {:induction false} NobodyServed(w: World)
    requires WorldInv(w) && w.tasks == map[] && w.served == {}
    ensures w.running == 0 && w.serving == 0
  {
  }
}
