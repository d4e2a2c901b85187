/**
 What is published reaches every subscription it concerns, and what is not yet published is held by
 the one that saved it: publication by publication, as their constructors carry a change.
 */
module PublicationsOwners {
  import opened Wrappers
  import opened Publications
  import opened PublicationsInvariant
  import opened PublicationsRuns
  import opened PublicationsTheorems

  /** The publication is of the change: a served mutation's, an announced one's, or what a command that
      was done has changed. */
  predicate IsOf(p: Publication, change: Change) {
    match p
    case Served(_, served) => served == change
    case Ran(_, _, outcome) => outcome == Done(change)
    case Announced(announced) => announced == change
    case Stored => false
    case Closing => false
  }

  /** A change published below where the receiver has brought a subscription is in its snapshot, does
      not concern it, or was offered to it. */
  lemma PublishedIsDelivered(s: Server, c: nat, sub: nat, i: nat, change: Change, n: nat)
    requires Reachable(s) && c in s.connections && Live(s.connections[c]) && sub in s.connections[c].subscriptions
    requires i < |s.w.log| && IsOf(s.w.log[i], change) && change.modification == Some(n)
    requires var k := s.connections[c]; i < if k.phase.Lagging? && sub in k.phase.pending then k.phase.from else k.cursor
    ensures var held := s.connections[c].subscriptions[sub];
            n <= held.through || !change.publishes || held.projection !in change.affects || held.authoring || n in held.offered
  {
    ReachableKeeps(s);
    var k := s.connections[c];
    assert ConnectionInv(s.w, c, k);
    SubscriptionHolds(s.w, c, k, sub);
    assert Covered(k.subscriptions[sub], s.w.log[i]);
  }

  // ---------------------------------------------------------------- what is not yet published

  predicate Holds(change: Change, n: nat) { change.modification == Some(n) }

  predicate InStage(w: World, id: nat, stage: Stage, n: nat) {
    match stage
    case Counted => false
    case Executing(saved) => saved.Some? && Holds(saved.value, n)
    case Returned(outcome) => outcome.Done? && Holds(outcome.change, n)
    case Sent(done) =>
      && !done && w.sending.Some? && w.sending.value.owner == ByTask(id) && w.sending.value.publication.Ran?
      && w.sending.value.publication.outcome.Done? && Holds(w.sending.value.publication.outcome.change, n)
  }

  predicate InConnection(phase: Phase, n: nat) {
    match phase
    case Mutating(change) => Holds(change, n)
    case Publishing(change) => Holds(change, n)
    case _ => false
  }

  /** The owner of an unpublished modification has it at hand. */
  predicate AtHand(s: Server, owner: Owner, n: nat) {
    match owner
    case ByTask(id) => id in s.w.tasks && InStage(s.w, id, s.w.tasks[id].stage, n)
    case ByConnection(c) => c in s.connections && InConnection(s.connections[c].phase, n)
    case ByHost => true
    case ByCloser => false
  }

  ghost predicate Owned(s: Server) { forall n | n in s.w.unsent :: AtHand(s, s.w.unsent[n], n) }

  /** Tasks and connections that have a modification at hand keep it. */
  ghost predicate KeepsHands(s: Server, s': Server) {
    && (forall id, n | id in s.w.tasks && InStage(s.w, id, s.w.tasks[id].stage, n) ::
          id in s'.w.tasks && InStage(s'.w, id, s'.w.tasks[id].stage, n))
    && (forall c, n | c in s.connections && InConnection(s.connections[c].phase, n) ::
          c in s'.connections && InConnection(s'.connections[c].phase, n))
  }

  lemma {:induction false} KeptOwned(s: Server, s': Server)
    requires Owned(s) && KeepsHands(s, s') && s'.w.unsent == s.w.unsent
    ensures Owned(s')
  {
  }

  lemma {:induction false} SavedOwned(s: Server, s': Server, owner: Owner, n: nat)
    requires Owned(s) && KeepsHands(s, s') && s'.w.unsent == s.w.unsent[n := owner] && AtHand(s', owner, n)
    ensures Owned(s')
  {
  }

  // ---------------------------------------------------------------- step by step

  /** Steps of a connection that has nothing at hand. */
  lemma {:induction false} ConnectionKeepsHands(s: Server, s': Server, c: nat)
    requires s'.w.tasks == s.w.tasks && s'.w.sending == s.w.sending && s'.connections.Keys == s.connections.Keys + {c}
    requires forall d | d in s.connections && d != c :: s'.connections[d] == s.connections[d]
    requires c in s.connections ==> !s.connections[c].phase.Mutating? && !s.connections[c].phase.Publishing?
    ensures KeepsHands(s, s')
  {
  }

  /** Steps that change no task or connection but in what holds nothing, while nothing is being sent or
      what is stays. */
  lemma {:induction false} TasksKeepHands(s: Server, s': Server)
    requires forall id | id in s.w.tasks && !(s.w.tasks[id].stage.Counted? || s.w.tasks[id].stage == Executing(None)
                                              || s.w.tasks[id].stage == Returned(Failed) || s.w.tasks[id].stage == Sent(true)) ::
               id in s'.w.tasks && s'.w.tasks[id] == s.w.tasks[id]
    requires s.w.sending.None? || s'.w.sending == s.w.sending
    requires forall c | c in s.connections && (s.connections[c].phase.Mutating? || s.connections[c].phase.Publishing?) ::
               c in s'.connections && s'.connections[c] == s.connections[c]
    ensures KeepsHands(s, s')
  {
  }

  predicate IsOfConnection(step: Step) {
    step.AdmitStep? || step.CountStep? || step.SubscribeStep? || step.UnsubscribeStep? || step.ResyncStep? || step.TakeStep?
    || step.LagStep? || step.LagResyncStep? || step.LagAnswerStep? || step.LagCheckStep? || step.DisconnectStep?
  }

  lemma {:induction false} ConnectionStepOwned(s: Server, step: Step)
    requires Owned(s) && Enabled(s, step) && IsOfConnection(step)
    ensures Owned(Apply(s, step))
  {
    ConnectionKeepsHands(s, Apply(s, step), step.c);
    KeptOwned(s, Apply(s, step));
  }

  lemma {:induction false} StartOwned(s: Server, step: Step)
    requires Owned(s) && Enabled(s, step) && (step.StartStep? || step.HostStartStep?) && s.w.nextTask !in s.w.tasks
    ensures Owned(Apply(s, step))
  {
    TasksKeepHands(s, Apply(s, step));
    KeptOwned(s, Apply(s, step));
  }

  lemma {:induction false} PermitOwned(s: Server, step: Step)
    requires Owned(s) && Enabled(s, step) && (step.PermitStep? || step.HostPermitStep?)
    requires step.PermitStep? ==> s.w.tasks[s.connections[step.c].phase.task].stage == Counted
    ensures Owned(Apply(s, step))
  {
    TasksKeepHands(s, Apply(s, step));
    KeptOwned(s, Apply(s, step));
  }

  lemma {:induction false} MutateOwned(s: Server, c: nat, change: Change)
    requires Owned(s) && Enabled(s, MutateStep(c, change))
    ensures Owned(Apply(s, MutateStep(c, change)))
  {
    var after := Apply(s, MutateStep(c, change));
    ConnectionKeepsHands(s, after, c);
    if change.modification.Some? { SavedOwned(s, after, ByConnection(c), |s.w.made| + 1); } else { KeptOwned(s, after); }
  }

  lemma {:induction false} RespondOwned(s: Server, c: nat)
    requires Owned(s) && Enabled(s, RespondStep(c))
    ensures Owned(Apply(s, RespondStep(c)))
  {
    var after := Apply(s, RespondStep(c));
    assert after.connections[c].phase == Publishing(s.connections[c].phase.change);
    KeptOwned(s, after);
  }

  lemma {:induction false} TaskSaveOwned(s: Server, id: nat, change: Change)
    requires Owned(s) && Enabled(s, TaskSaveStep(id, change))
    ensures Owned(Apply(s, TaskSaveStep(id, change)))
  {
    var after := Apply(s, TaskSaveStep(id, change));
    TasksKeepHands(s, after);
    SavedOwned(s, after, ByTask(id), |s.w.made| + 1);
  }

  lemma {:induction false} TaskReturnOwned(s: Server, id: nat, outcome: Outcome)
    requires Owned(s) && Enabled(s, TaskReturnStep(id, outcome))
    ensures Owned(Apply(s, TaskReturnStep(id, outcome)))
  {
    KeptOwned(s, Apply(s, TaskReturnStep(id, outcome)));
  }

  lemma {:induction false} TaskSendOwned(s: Server, id: nat)
    requires Owned(s) && Enabled(s, TaskSendStep(id))
    ensures Owned(Apply(s, TaskSendStep(id)))
  {
    var after := Apply(s, TaskSendStep(id));
    forall c | c in s.connections ensures c in after.connections && after.connections[c].phase == s.connections[c].phase {}
    KeptOwned(s, after);
  }

  lemma {:induction false} TaskDropOwned(s: Server, id: nat)
    requires Owned(s) && Enabled(s, TaskDropStep(id))
    ensures Owned(Apply(s, TaskDropStep(id)))
  {
    TasksKeepHands(s, Apply(s, TaskDropStep(id)));
    KeptOwned(s, Apply(s, TaskDropStep(id)));
  }

  lemma {:induction false} HostOwned(s: Server, step: Step)
    requires Owned(s) && Enabled(s, step) && (step.HostSaveStep? || step.HostSendStep? || step.ShutDownStep? || step.CloserStep?)
    ensures Owned(Apply(s, step))
  {
    var after := Apply(s, step);
    TasksKeepHands(s, after);
    if step.HostSaveStep? { SavedOwned(s, after, ByHost, |s.w.made| + 1); } else { KeptOwned(s, after); }
  }

  /** Once sent, a modification is no longer unpublished, and its owner has nothing else at hand. */
  lemma {:induction false} BroadcastOwned(s: Server)
    requires Owned(s) && s.w.sending.Some?
    requires forall id | id in s.w.tasks && s.w.sending.value.owner == ByTask(id) :: s.w.tasks[id].stage == Sent(false)
    requires forall c | c in s.connections && s.w.sending.value.owner == ByConnection(c) ::
               s.connections[c].phase.Publishing? && s.w.sending.value.publication == Served(c, s.connections[c].phase.change)
    ensures Owned(Apply(s, BroadcastStep))
  {
    var after := Apply(s, BroadcastStep);
    forall n | n in after.w.unsent ensures AtHand(after, after.w.unsent[n], n) {
      LandedKeeps(s.w, n);
      assert AtHand(s, s.w.unsent[n], n);
    }
  }

  /** What a publication carries is the change it is of. */
  lemma {:induction false} CarriedIsOf(p: Publication, change: Change)
    ensures Carried(p) == Some(change) <==> IsOf(p, change)
  {
  }

  lemma {:induction false} LandedUnsent(w: World, n: nat)
    requires w.sending.Some? && n in Landed(w).unsent
    ensures n in w.unsent && Landed(w).unsent[n] == w.unsent[n] && !Carries(w.sending.value.publication, n)
    ensures Landed(w).tasks == w.tasks
  {
  }

  lemma {:induction false} LandedKeeps(w: World, n: nat)
    requires w.sending.Some? && n in Broadcast(w).unsent
    ensures n in w.unsent && Broadcast(w).unsent[n] == w.unsent[n]
    ensures forall change | IsOf(w.sending.value.publication, change) :: change.modification != Some(n)
    ensures forall id | id in w.tasks && w.sending.value.owner != ByTask(id) :: id in Broadcast(w).tasks && Broadcast(w).tasks[id] == w.tasks[id]
  {
    assert Broadcast(w).unsent == Landed(w).unsent;
    LandedUnsent(w, n);
    forall change | IsOf(w.sending.value.publication, change) ensures change.modification != Some(n) {
      CarriedIsOf(w.sending.value.publication, change);
    }
  }

  lemma {:induction false} StepOwned(s: Server, step: Step)
    requires Inv(s) && Owned(s) && Enabled(s, step)
    ensures Owned(Apply(s, step))
  {
    if IsOfConnection(step) {
      ConnectionStepOwned(s, step);
    } else if step.StartStep? || step.HostStartStep? {
      NextIsNew(s.w);
      StartOwned(s, step);
    } else if step.PermitStep? || step.HostPermitStep? {
      if step.PermitStep? { StartedIsCounted(s, step.c); }
      PermitOwned(s, step);
    } else if step.BroadcastStep? {
      SenderHasIt(s);
      BroadcastOwned(s);
    } else {
      OtherOwned(s, step);
    }
  }

  lemma {:induction false} OtherOwned(s: Server, step: Step)
    requires Owned(s) && Enabled(s, step) && !IsOfConnection(step) && !step.StartStep? && !step.HostStartStep?
    requires !step.PermitStep? && !step.HostPermitStep? && !step.BroadcastStep?
    ensures Owned(Apply(s, step))
  {
    if step.MutateStep? {
      MutateOwned(s, step.c, step.change);
    } else if step.RespondStep? {
      RespondOwned(s, step.c);
    } else if step.TaskSaveStep? {
      TaskSaveOwned(s, step.task, step.change);
    } else if step.TaskReturnStep? {
      TaskReturnOwned(s, step.task, step.outcome);
    } else if step.TaskSendStep? {
      TaskSendOwned(s, step.task);
    } else if step.TaskDropStep? {
      TaskDropOwned(s, step.task);
    } else {
      HostOwned(s, step);
    }
  }

  lemma {:induction false} NextIsNew(w: World)
    requires WorldInv(w)
    ensures w.nextTask !in w.tasks
  {
    forall id | id in w.tasks ensures id < w.nextTask { assert TaskInv(w, id); }
  }

  lemma {:induction false} StartedIsCounted(s: Server, c: nat)
    requires Inv(s) && Enabled(s, PermitStep(c))
    ensures s.w.tasks[s.connections[c].phase.task].stage == Counted
  {
    assert ConnectionInv(s.w, c, s.connections[c]);
    StartedTask(s.w, c, s.connections[c]);
  }

  lemma {:induction false} StartedTask(w: World, c: nat, k: Connection)
    requires ConnectionInv(w, c, k) && k.phase.Starting? && k.phase.task in w.tasks
    ensures w.tasks[k.phase.task].stage == Counted
  {
  }

  lemma {:induction false} SenderHasIt(s: Server)
    requires Inv(s) && s.w.sending.Some?
    ensures forall id | id in s.w.tasks && s.w.sending.value.owner == ByTask(id) :: s.w.tasks[id].stage == Sent(false)
    ensures forall c | c in s.connections && s.w.sending.value.owner == ByConnection(c) ::
              s.connections[c].phase.Publishing? && s.w.sending.value.publication == Served(c, s.connections[c].phase.change)
  {
    assert SendingTask(s.w);
    forall c | c in s.connections && s.w.sending.value.owner == ByConnection(c)
      ensures s.connections[c].phase.Publishing? && s.w.sending.value.publication == Served(c, s.connections[c].phase.change)
    {
      assert ConnectionInv(s.w, c, s.connections[c]);
      SendingConnection(s.w, c, s.connections[c]);
    }
  }

  lemma {:induction false} SendingConnection(w: World, c: nat, k: Connection)
    requires ConnectionInv(w, c, k) && w.sending.Some? && w.sending.value.owner == ByConnection(c)
    ensures k.phase.Publishing? && w.sending.value.publication == Served(c, k.phase.change)
  {
  }

  lemma {:induction false} RunOwned(s: Server, steps: seq<Step>)
    requires Inv(s) && Owned(s) && IsRun(s, steps)
    ensures Owned(After(s, steps))
    decreases |steps|
  {
    if steps != [] {
      StepKeeps(s, steps[0]);
      StepOwned(s, steps[0]);
      RunOwned(Apply(s, steps[0]), steps[1..]);
    }
  }

  /** A modification that is not yet published is at hand to the one that saved it, and in no
      publication of the log. */
  lemma UnsentIsAtHand(s: Server, n: nat)
    requires Reachable(s) && n in s.w.unsent
    ensures AtHand(s, s.w.unsent[n], n)
    ensures forall i, change | 0 <= i < |s.w.log| && IsOf(s.w.log[i], change) :: change.modification != Some(n)
  {
    ReachableKeeps(s);
    var window: nat, commandLimit: nat, steps :|
      IsRun(Initial(window, commandLimit), steps) && After(Initial(window, commandLimit), steps) == s;
    InitialKeeps(window, commandLimit);
    RunOwned(Initial(window, commandLimit), steps);
    forall i, change | 0 <= i < |s.w.log| && IsOf(s.w.log[i], change) ensures change.modification != Some(n) {
      assert InLog(s.w, i);
    }
  }

  // ---------------------------------------------------------------- what requests do

  /** A new subscription follows the projection asked for, from a snapshot of everything saved; no other
      changes. */
  lemma {:induction false} SubscriptionBegins(s: Server, c: nat, projection: string, authoring: bool)
    requires Reachable(s) && Enabled(s, SubscribeStep(c, projection, authoring))
    ensures var k, after := s.connections[c], Apply(s, SubscribeStep(c, projection, authoring));
            && c in after.connections && k.nextSubscription !in k.subscriptions
            && var held := after.connections[c].subscriptions;
               && held.Keys == k.subscriptions.Keys + {k.nextSubscription}
               && (forall sub | sub in k.subscriptions :: held[sub] == k.subscriptions[sub])
               && var begun := held[k.nextSubscription];
                  && begun.projection == projection && begun.authoring == authoring && begun.offered == []
                  && begun.through == if authoring then 0 else |s.w.made|
  {
    ReachableKeeps(s);
    assert ConnectionInv(s.w, c, s.connections[c]);
    FreshSubscription(s.w, c, s.connections[c]);
  }

  lemma {:induction false} FreshSubscription(w: World, c: nat, k: Connection)
    requires ConnectionInv(w, c, k) && Live(k)
    ensures k.nextSubscription !in k.subscriptions
  {
    assert forall sub | sub in k.subscriptions :: sub < k.nextSubscription;
  }

  /** A subscription sent anew follows what it did, from a snapshot of everything saved; no other changes. */
  lemma {:induction false} SubscriptionBeginsAnew(s: Server, c: nat, sub: nat)
    requires Enabled(s, ResyncStep(c, sub))
    ensures var before, after := s.connections[c].subscriptions, Apply(s, ResyncStep(c, sub)).connections[c].subscriptions;
            && after.Keys == before.Keys && (forall other | other in before && other != sub :: after[other] == before[other])
            && after[sub].projection == before[sub].projection && after[sub].authoring == before[sub].authoring
            && after[sub].offered == [] && after[sub].through == if before[sub].authoring then 0 else |s.w.made|
  {
  }

  /** A connection that disconnects is served no longer, without having been closed, and no other changes. */
  lemma {:induction false} DisconnectedEnds(s: Server, c: nat)
    requires Enabled(s, DisconnectStep(c))
    ensures var after := Apply(s, DisconnectStep(c));
            && InPhase(after, c, Ended(false)) && after.w == s.w.(served := s.w.served - {c}, serving := s.w.serving - 1)
            && forall d | d != c :: (d in after.connections <==> d in s.connections)
                                    && (d in s.connections ==> after.connections[d] == s.connections[d])
  {
  }

  /** An ended subscription is gone, and no other changes. */
  lemma {:induction false} SubscriptionEnds(s: Server, c: nat, sub: nat)
    requires Enabled(s, UnsubscribeStep(c, sub))
    ensures var after := Apply(s, UnsubscribeStep(c, sub));
            && c in after.connections && sub !in after.connections[c].subscriptions
            && forall other | other != sub ::
                 (other in after.connections[c].subscriptions <==> other in s.connections[c].subscriptions)
                 && (other in s.connections[c].subscriptions ==>
                       after.connections[c].subscriptions[other] == s.connections[c].subscriptions[other])
  {
  }

  /** The commands a connection has accepted, or is starting. */
  function Taken(s: Server, c: nat): set<nat> {
    if c !in s.connections then {}
    else s.connections[c].accepted.Keys + (if s.connections[c].phase.Starting? then {s.connections[c].phase.ticket} else {})
  }

  /** Once the server is stopping no command is accepted that was not being started, on any connection or
      by the host, and no connection is served that was not. */
  lemma {:induction false} NothingStartsStopping(s: Server, steps: seq<Step>)
    requires s.w.stopping && IsRun(s, steps)
    ensures var after := After(s, steps);
            && after.w.stopping && after.w.tasks.Keys <= s.w.tasks.Keys && after.w.served <= s.w.served
            && forall c :: Taken(after, c) <= Taken(s, c)
    decreases |steps|
  {
    if steps != [] {
      StoppingStays(s, steps[0]);
      NothingStartsStopping(Apply(s, steps[0]), steps[1..]);
    }
  }

  /** One step of a stopping server. */
  lemma {:induction false} StoppingStays(s: Server, step: Step)
    requires s.w.stopping && Enabled(s, step)
    ensures var after := Apply(s, step);
            && after.w.stopping && after.w.tasks.Keys <= s.w.tasks.Keys && after.w.served <= s.w.served
            && forall c :: Taken(after, c) <= Taken(s, c)
  {
    TakenStays(s, step);
    if step.BroadcastStep? { BroadcastStays(s.w); }
  }

  lemma {:induction false} TakenStays(s: Server, step: Step)
    requires s.w.stopping && Enabled(s, step)
    ensures forall c :: Taken(Apply(s, step), c) <= Taken(s, c)
  {
    if IsOfConnection(step) {
      ConnectionTakenStays(s, step);
    } else {
      OtherTakenStays(s, step);
    }
  }

  lemma {:induction false} ConnectionTakenStays(s: Server, step: Step)
    requires s.w.stopping && Enabled(s, step) && IsOfConnection(step)
    ensures forall c :: Taken(Apply(s, step), c) <= Taken(s, c)
  {
    if step.LagAnswerStep? {
      AnsweredKeepsAccepted(s.connections[step.c], step.order);
    }
  }

  lemma {:induction false} OtherTakenStays(s: Server, step: Step)
    requires s.w.stopping && Enabled(s, step) && !IsOfConnection(step)
    ensures forall c :: Taken(Apply(s, step), c) <= Taken(s, c)
  {
  }

  lemma {:induction false} AnsweredKeepsAccepted(k: Connection, order: seq<(nat, nat)>)
    ensures AnsweredAll(k, order).accepted == k.accepted
    decreases |order|
  {
    if order != [] { AnsweredKeepsAccepted(Answered(k, order[0].0, order[0].1), order[1..]); }
  }

  lemma {:induction false} BroadcastStays(w: World)
    requires w.sending.Some?
    ensures Broadcast(w).stopping == w.stopping && Broadcast(w).nextTask == w.nextTask && Broadcast(w).tasks.Keys == w.tasks.Keys
    ensures Broadcast(w).served == w.served
  {
    var landed := Landed(w);
    assert landed.tasks == w.tasks && landed.stopping == w.stopping && landed.served == w.served && landed.nextTask == w.nextTask;
  }
}
