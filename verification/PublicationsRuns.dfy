/** What holds in every state any run of the publication protocol reaches. */
module PublicationsRuns {
  import opened Wrappers
  import opened Publications
  import opened PublicationsInvariant
  import opened PublicationsFrame
  import opened PublicationsSteps
  import opened PublicationsConnectionSteps
  import opened PublicationsCommandSteps
  import opened PublicationsDeliverySteps
  import opened PublicationsLagSteps

  // ---------------------------------------------------------------- every step keeps the invariant

  lemma HostStartKeeps(s: Server)
    requires Inv(s) && !s.w.stopping
    ensures Inv(s.(w := CountTask(s.w, NO_CONNECTION, 0)))
  {
    CountTaskKeeps(s.w, NO_CONNECTION, 0);
    var w' := CountTask(s.w, NO_CONNECTION, 0);
    forall d: nat | d != NO_CONNECTION ensures Grows(s.w, w', d) { CountGrows(s.w, NO_CONNECTION, 0, d); }
    KeepWorld(s, s.(w := w'));
  }

  lemma HostGrantKeeps(s: Server, id: nat)
    requires Inv(s) && id in s.w.tasks && s.w.tasks[id].stage == Counted && s.w.tasks[id].origin == NO_CONNECTION
    requires s.w.permits > 0
    ensures Inv(s.(w := GrantTask(s.w, id)))
  {
    GrantKeeps(s.w, id);
    forall d: nat | d != NO_CONNECTION ensures Grows(s.w, GrantTask(s.w, id), d) { GrantGrows(s.w, id, d); }
    KeepWorld(s, s.(w := GrantTask(s.w, id)));
  }

  lemma HostUncountKeeps(s: Server, id: nat)
    requires Inv(s) && id in s.w.tasks
    requires s.w.tasks[id].stage == Sent(true) || (s.w.tasks[id].stage == Counted && s.w.tasks[id].origin == NO_CONNECTION)
    ensures Inv(s.(w := UncountTask(s.w, id)))
  {
    UncountKeeps(s.w, id);
    forall d: nat | d != NO_CONNECTION ensures Grows(s.w, UncountTask(s.w, id), d) { UncountGrows(s.w, id, d); }
    KeepWorld(s, s.(w := UncountTask(s.w, id)));
  }

  lemma TaskStageGrows(w: World, w': World, id: nat, stage: Stage, d: nat)
    requires WorldInv(w) && id in w.tasks && Pending(w.tasks[id].stage) && Pending(stage)
    requires w' == WithTask(w, id, stage).(permits := w'.permits, executing := w'.executing)
    ensures Grows(w, w', d)
  {
    GrowsSelf(w, d);
  }

  lemma TaskSaveStepKeeps(s: Server, id: nat, change: Change)
    requires Inv(s) && id in s.w.tasks && s.w.tasks[id].stage == Executing(None) && NextChange(s.w, change)
    ensures Inv(s.(w := Save(WithTask(s.w, id, Executing(Some(change))), change, ByTask(id))))
  {
    var w1 := WithTask(s.w, id, Executing(Some(change)));
    var w' := Save(w1, change, ByTask(id));
    TaskSaveKeeps(s.w, id, change);
    forall d: nat | d != NO_CONNECTION ensures Grows(s.w, w', d) {
      TaskStageGrows(s.w, w1, id, Executing(Some(change)), d);
      assert forall n | n in s.w.unsent :: n <= |s.w.made|;
    }
    KeepWorld(s, s.(w := w'));
  }

  lemma TaskReturnStepKeeps(s: Server, id: nat, outcome: Outcome)
    requires Inv(s) && Enabled(s, TaskReturnStep(id, outcome))
    ensures Inv(s.(w := ReturnTask(s.w, id, outcome)))
  {
    var w' := ReturnTask(s.w, id, outcome);
    TaskReturnKeeps(s.w, id, outcome);
    forall d: nat | d != NO_CONNECTION ensures Grows(s.w, w', d) {
      TaskStageGrows(s.w, w', id, Returned(outcome), d);
    }
    KeepWorld(s, s.(w := w'));
  }

  lemma HostSaveKeeps(s: Server, change: Change)
    requires Inv(s) && NextChange(s.w, change)
    ensures Inv(s.(w := Save(s.w, change, ByHost)))
  {
    SaveKeeps(s.w, change, ByHost);
    forall d: nat | d != NO_CONNECTION ensures Grows(s.w, Save(s.w, change, ByHost), d) {
      SaveGrows(s.w, change, ByHost, d);
    }
    KeepWorld(s, s.(w := Save(s.w, change, ByHost)));
  }

  lemma HostSendKeeps(s: Server, p: Publication)
    requires Inv(s) && Enabled(s, HostSendStep(p))
    ensures Inv(s.(w := Number(s.w, p, ByHost)))
  {
    NumberKeeps(s.w, p, ByHost);
    forall d: nat | d != NO_CONNECTION ensures Grows(s.w, Number(s.w, p, ByHost), d) { NumberGrows(s.w, p, ByHost, d); }
    KeepWorld(s, s.(w := Number(s.w, p, ByHost)));
  }

  lemma ShutDownKeeps(s: Server)
    requires Inv(s)
    ensures Inv(s.(w := s.w.(stopping := true, closerPending := s.w.closerPending || !s.w.stopping)))
  {
    var w' := s.w.(stopping := true, closerPending := s.w.closerPending || !s.w.stopping);
    AccountedKept(s.w, w');
    forall id | id in w'.tasks ensures TaskInv(w', id) { assert TaskInv(s.w, id); }
    forall d: nat | d != NO_CONNECTION ensures Grows(s.w, w', d) { GrowsSelf(s.w, d); }
    KeepWorld(s, s.(w := w'));
  }

  lemma CloserStepKeeps(s: Server)
    requires Inv(s) && s.w.closerPending && s.w.running == 0 && s.w.sending.None?
    ensures Inv(s.(w := SendClosing(s.w)))
  {
    CloserKeeps(s.w);
    forall d: nat | d != NO_CONNECTION ensures Grows(s.w, SendClosing(s.w), d) { GrowsSelf(s.w, d); }
    KeepWorld(s, s.(w := SendClosing(s.w)));
  }

  lemma AdmitStepKeeps(s: Server, step: Step)
    requires Inv(s) && Enabled(s, step) && step.AdmitStep?
    ensures Inv(Apply(s, step))
  {
    AdmitKeeps(s, step.c);
  }

  lemma CountStepKeeps(s: Server, step: Step)
    requires Inv(s) && Enabled(s, step) && step.CountStep?
    ensures Inv(Apply(s, step))
  {
    if s.w.stopping { RefuseKeeps(s, step.c); } else { CountKeeps(s, step.c); }
  }

  lemma DisconnectStepKeeps(s: Server, step: Step)
    requires Inv(s) && Enabled(s, step) && step.DisconnectStep?
    ensures Inv(Apply(s, step))
  {
    EndKeeps(s, step.c, false);
  }

  lemma SubscribeStepKeeps(s: Server, step: Step)
    requires Inv(s) && Enabled(s, step) && step.SubscribeStep?
    ensures Inv(Apply(s, step))
  {
    SubscribeKeeps(s, step.c, s.connections[step.c].nextSubscription,
                   Subscription(step.projection, step.authoring, 0, []));
  }

  lemma UnsubscribeStepKeeps(s: Server, step: Step)
    requires Inv(s) && Enabled(s, step) && step.UnsubscribeStep?
    ensures Inv(Apply(s, step))
  {
    UnsubscribeKeeps(s, step.c, step.sub);
  }

  lemma ResyncStepKeeps(s: Server, step: Step)
    requires Inv(s) && Enabled(s, step) && step.ResyncStep?
    ensures Inv(Apply(s, step))
  {
    SubscribeKeeps(s, step.c, step.sub, s.connections[step.c].subscriptions[step.sub]);
  }

  lemma StartStepKeeps(s: Server, step: Step)
    requires Inv(s) && Enabled(s, step) && step.StartStep? && !s.w.stopping
    ensures Inv(Apply(s, step))
  {
    StartKeeps(s, step.c, step.id);
  }

  lemma StartRefusedKeeps(s: Server, step: Step)
    requires Inv(s) && Enabled(s, step) && step.StartStep? && s.w.stopping
    ensures Inv(Apply(s, step))
  {
    RefusedStartKeeps(s, step.c);
  }

  lemma PermitStepKeeps(s: Server, step: Step)
    requires Inv(s) && Enabled(s, step) && step.PermitStep?
    ensures Inv(Apply(s, step))
  {
    if s.w.permits > 0 { GrantedKeeps(s, step.c); } else { RefusedPermitKeeps(s, step.c); }
  }

  lemma MutateStepKeeps(s: Server, step: Step)
    requires Inv(s) && Enabled(s, step) && step.MutateStep?
    ensures Inv(Apply(s, step))
  {
    if step.change.modification.Some? {
      MutateKeeps(s, step.c, step.change);
    } else {
      MutateNothingKeeps(s, step.c, step.change);
    }
  }

  lemma RespondStepKeeps(s: Server, step: Step)
    requires Inv(s) && Enabled(s, step) && step.RespondStep?
    ensures Inv(Apply(s, step))
  {
    RespondKeeps(s, step.c);
  }

  lemma TakeStepKeeps(s: Server, step: Step)
    requires Inv(s) && Enabled(s, step) && step.TakeStep?
    ensures Inv(Apply(s, step))
  {
    if s.w.log[s.connections[step.c].cursor].Closing? { TakeClosingKeeps(s, step.c); } else { TakeKeeps(s, step.c); }
  }

  lemma LagStepKeeps(s: Server, step: Step)
    requires Inv(s) && Enabled(s, step) && (step.LagStep? || step.LagResyncStep?)
    ensures Inv(Apply(s, step))
  {
    if step.LagStep? { LagKeeps(s, step.c); } else { LagResyncKeeps(s, step.c, step.sub); }
  }

  lemma CatchUpKeeps(s: Server, step: Step)
    requires Inv(s) && Enabled(s, step) && (step.LagAnswerStep? || step.LagCheckStep?)
    ensures Inv(Apply(s, step))
  {
    if step.LagAnswerStep? { LagAnswerKeeps(s, step.c, step.order); } else { CheckKeeps(s, step.c); }
  }

  lemma HostStepKeeps(s: Server, step: Step)
    requires Inv(s) && Enabled(s, step) && (step.HostStartStep? || step.HostPermitStep?)
    ensures Inv(Apply(s, step))
  {
    match step
    case HostStartStep => if !s.w.stopping { HostStartKeeps(s); }
    case HostPermitStep(id) => if s.w.permits > 0 { HostGrantKeeps(s, id); } else { HostUncountKeeps(s, id); }
  }

  lemma TaskSaveStepsKeep(s: Server, step: Step)
    requires Inv(s) && Enabled(s, step) && step.TaskSaveStep?
    ensures Inv(Apply(s, step))
  {
    TaskSaveStepKeeps(s, step.task, step.change);
  }

  lemma TaskEndKeeps(s: Server, step: Step)
    requires Inv(s) && Enabled(s, step) && (step.TaskReturnStep? || step.TaskDropStep?)
    ensures Inv(Apply(s, step))
  {
    if step.TaskReturnStep? {
      TaskReturnStepKeeps(s, step.task, step.outcome);
    } else {
      HostUncountKeeps(s, step.task);
    }
  }

  lemma TaskSendEffect(s: Server, step: Step)
    requires Enabled(s, step) && step.TaskSendStep?
    ensures var c := s.w.tasks[step.task].origin;
            Apply(s, step)
            == if c in s.connections
               then Server(SendTask(s.w, step.task),
                           s.connections[c := Keeping(s.connections[c], s.w.tasks[step.task].ticket, s.w.last + 1)])
               else s.(w := SendTask(s.w, step.task))
  {}

  lemma TaskSendStepKeeps(s: Server, step: Step)
    requires Inv(s) && Enabled(s, step) && step.TaskSendStep?
    ensures Inv(Apply(s, step))
  {
    TaskSendEffect(s, step);
    if s.w.tasks[step.task].origin in s.connections {
      TaskSendKeepsConnection(s, step.task);
    } else {
      TaskSendKeepsHost(s, step.task);
    }
  }

  lemma HostChangeKeeps(s: Server, step: Step)
    requires Inv(s) && Enabled(s, step) && (step.HostSaveStep? || step.HostSendStep?)
    ensures Inv(Apply(s, step))
  {
    match step
    case HostSaveStep(change) => HostSaveKeeps(s, change);
    case HostSendStep(p) => HostSendKeeps(s, p);
  }

  lemma BroadcastStepKeeps(s: Server, step: Step)
    requires Inv(s) && Enabled(s, step) && step.BroadcastStep?
    ensures Inv(Apply(s, step))
  {
    if s.w.sending.value.owner.ByConnection? {
      assert s.w.sending.value.owner.connection in s.connections;
      BroadcastOwnKeeps(s, s.w.sending.value.owner.connection);
    } else {
      BroadcastOtherKeeps(s);
    }
  }

  lemma ShutDownStepKeeps(s: Server, step: Step)
    requires Inv(s) && Enabled(s, step) && (step.ShutDownStep? || step.CloserStep?)
    ensures Inv(Apply(s, step))
  {
    if step.ShutDownStep? { ShutDownKeeps(s); } else { CloserStepKeeps(s); }
  }

  /** A connection comes, goes, or changes what it subscribes to. */
  predicate IsMembership(step: Step) {
    step.AdmitStep? || step.CountStep? || step.DisconnectStep? || step.SubscribeStep? || step.UnsubscribeStep?
    || step.ResyncStep?
  }

  predicate IsRequest(step: Step) { step.StartStep? || step.PermitStep? || step.MutateStep? || step.RespondStep? }

  predicate IsTask(step: Step) {
    step.HostStartStep? || step.HostPermitStep? || step.TaskSaveStep? || step.TaskReturnStep? || step.TaskDropStep?
    || step.TaskSendStep?
  }

  lemma MembershipKeeps(s: Server, step: Step)
    requires Inv(s) && Enabled(s, step) && IsMembership(step)
    ensures Inv(Apply(s, step))
  {
    match step
    case AdmitStep(_) => AdmitStepKeeps(s, step);
    case CountStep(_) => CountStepKeeps(s, step);
    case DisconnectStep(_) => DisconnectStepKeeps(s, step);
    case SubscribeStep(_, _, _) => SubscribeStepKeeps(s, step);
    case UnsubscribeStep(_, _) => UnsubscribeStepKeeps(s, step);
    case ResyncStep(_, _) => ResyncStepKeeps(s, step);
  }

  lemma RequestKeeps(s: Server, step: Step)
    requires Inv(s) && Enabled(s, step) && IsRequest(step)
    ensures Inv(Apply(s, step))
  {
    match step
    case StartStep(_, _) => if s.w.stopping { StartRefusedKeeps(s, step); } else { StartStepKeeps(s, step); }
    case PermitStep(_) => PermitStepKeeps(s, step);
    case MutateStep(_, _) => MutateStepKeeps(s, step);
    case RespondStep(_) => RespondStepKeeps(s, step);
  }

  lemma TaskKeeps(s: Server, step: Step)
    requires Inv(s) && Enabled(s, step) && IsTask(step)
    ensures Inv(Apply(s, step))
  {
    match step
    case HostStartStep => HostStepKeeps(s, step);
    case HostPermitStep(_) => HostStepKeeps(s, step);
    case TaskSaveStep(_, _) => TaskSaveStepsKeep(s, step);
    case TaskReturnStep(_, _) => TaskEndKeeps(s, step);
    case TaskDropStep(_) => TaskEndKeeps(s, step);
    case TaskSendStep(_) => TaskSendStepKeeps(s, step);
  }

  lemma StepKeeps(s: Server, step: Step)
    requires Inv(s) && Enabled(s, step)
    ensures Inv(Apply(s, step))
  {
    if IsMembership(step) {
      MembershipKeeps(s, step);
    } else if IsRequest(step) {
      RequestKeeps(s, step);
    } else if IsTask(step) {
      TaskKeeps(s, step);
    } else if step.HostSaveStep? || step.HostSendStep? {
      HostChangeKeeps(s, step);
    } else if step.BroadcastStep? {
      BroadcastStepKeeps(s, step);
    } else if step.ShutDownStep? || step.CloserStep? {
      ShutDownStepKeeps(s, step);
    } else if step.TakeStep? {
      TakeStepKeeps(s, step);
    } else if step.LagStep? || step.LagResyncStep? {
      LagStepKeeps(s, step);
    } else {
      CatchUpKeeps(s, step);
    }
  }
}
