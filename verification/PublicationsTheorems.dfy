/** What the publication protocol promises in every state any run reaches. */
module PublicationsTheorems {
  import opened Wrappers
  import opened Publications
  import opened PublicationsInvariant
  import opened PublicationsDeliverySteps
  import opened PublicationsRuns

  lemma InitialKeeps(window: nat, commandLimit: nat)
    ensures Inv(Initial(window, commandLimit))
  {}

  lemma {:induction false} RunKeeps(s: Server, steps: seq<Step>)
    requires Inv(s) && IsRun(s, steps)
    ensures Inv(After(s, steps))
    decreases |steps|
  {
    if steps != [] {
      StepKeeps(s, steps[0]);
      RunKeeps(Apply(s, steps[0]), steps[1..]);
    }
  }

  /** The invariant holds in every reachable state. */
  lemma ReachableKeeps(s: Server)
    requires Reachable(s)
    ensures Inv(s)
  {
    var window: nat, commandLimit: nat, steps :|
      IsRun(Initial(window, commandLimit), steps) && After(Initial(window, commandLimit), steps) == s;
    InitialKeeps(window, commandLimit);
    RunKeeps(Initial(window, commandLimit), steps);
  }

  // ---------------------------------------------------------------- patches

  lemma {:induction false} OfferedSound(made: seq<Change>, processed: seq<nat>, sub: Subscription)
    requires forall i, j | 0 <= i < j < |processed| :: processed[i] != processed[j]
    ensures var offered := OfferedOf(made, processed, sub);
            && (forall n :: n in offered <==> n in processed && Due(made, sub, n))
            && (forall i, j | 0 <= i < j < |offered| :: offered[i] != offered[j])
    decreases |processed|
  {
    if processed != [] {
      var earlier := processed[..|processed| - 1];
      var last := processed[|processed| - 1];
      OfferedSound(made, earlier, sub);
      assert processed == earlier + [last];
      assert last !in earlier;
    }
  }

  /** The modifications offered to a live subscription are exactly those its connection processed
      that affect it and are numbered after its snapshot, each once. */
  lemma OfferedExactlyOnce(s: Server, c: nat, sub: nat)
    requires Reachable(s) && c in s.connections && Live(s.connections[c]) && sub in s.connections[c].subscriptions
    ensures var k := s.connections[c]; var held := k.subscriptions[sub];
            && (forall n :: n in held.offered <==> n in k.processed && Due(s.w.made, held, n))
            && (forall i, j | 0 <= i < j < |held.offered| :: held.offered[i] != held.offered[j])
            && (forall i, j | 0 <= i < j < |k.processed| :: k.processed[i] != k.processed[j])
  {
    ReachableKeeps(s);
    SubscriptionHolds(s.w, c, s.connections[c], sub);
    OfferedSound(s.w.made, s.connections[c].processed, s.connections[c].subscriptions[sub]);
  }

  lemma SubscriptionHolds(w: World, c: nat, k: Connection, sub: nat)
    requires ConnectionInv(w, c, k) && Live(k) && sub in k.subscriptions
    ensures Subscribed(w.log, w.made, k.processed, ReachedBelow(k, sub), k.subscriptions[sub])
    ensures forall i, j | 0 <= i < j < |k.processed| :: k.processed[i] != k.processed[j]
  {}

  /** No modification that affects a subscription is lost: it is in the snapshot, was offered, is
      still held by the one that saved it, or is published where the receiver has yet to bring it. */
  lemma NothingLost(s: Server, c: nat, sub: nat, n: nat)
    requires Reachable(s) && c in s.connections && Live(s.connections[c]) && sub in s.connections[c].subscriptions
    requires 0 < n <= |s.w.made|
    ensures var k := s.connections[c]; var held := k.subscriptions[sub];
            || !Wanted(held, s.w.made[n - 1])
            || n in held.offered
            || n in s.w.unsent
            || (exists i: nat :: ReachedBelow(k, sub) <= i < |s.w.log| && Carries(s.w.log[i], n))
    ensures Wanted(s.connections[c].subscriptions[sub], s.w.made[n - 1]) <==>
            var held := s.connections[c].subscriptions[sub];
            n > held.through && s.w.made[n - 1].publishes && held.projection in s.w.made[n - 1].affects && !held.authoring
  {
    ReachableKeeps(s);
    var k := s.connections[c];
    var held := k.subscriptions[sub];
    assert ConnectionInv(s.w, c, k);
    assert s.w.made[n - 1].modification == Some(n);
    assert Subscribed(s.w.log, s.w.made, k.processed, ReachedBelow(k, sub), held);
    if n in s.w.at {
      assert Carries(s.w.log[s.w.at[n]], n) && InLog(s.w, s.w.at[n]);
      if s.w.at[n] < ReachedBelow(k, sub) {
        assert Covered(held, s.w.log[s.w.at[n]]);
      }
    }
  }

  /** A connection that has taken everything, while nobody holds a modification unpublished, has
      brought each subscription every modification its snapshot does not hold. */
  lemma SettledHoldsAll(s: Server, c: nat, sub: nat, n: nat)
    requires Reachable(s) && InPhase(s, c, Idle) && sub in s.connections[c].subscriptions
    requires s.connections[c].cursor == |s.w.log| && s.w.unsent == map[] && 0 < n <= |s.w.made|
    ensures Wanted(s.connections[c].subscriptions[sub], s.w.made[n - 1])
            ==> n in s.connections[c].subscriptions[sub].offered
  {
    NothingLost(s, c, sub, n);
  }

  /** Every publication a lagging connection skipped has its modification inside the snapshot it
      then sends. */
  lemma SkippedIsInSnapshot(s: Server, c: nat, sub: nat, i: nat, n: nat)
    requires Reachable(s) && Enabled(s, LagResyncStep(c, sub))
    requires i < s.connections[c].phase.skipped && i < |s.w.log| && Carries(s.w.log[i], n)
    ensures var held := Apply(s, LagResyncStep(c, sub)).connections[c].subscriptions[sub];
            held.authoring || n <= held.through
  {
    ReachableKeeps(s);
    assert InLog(s.w, i);
  }

  // ---------------------------------------------------------------- commands

  /** Every accepted command is answered once, from the moment its connection has passed its
      publication; until then it is running, held by its task or published further on. */
  lemma AnsweredExactlyOnce(s: Server, c: nat, t: nat)
    requires Reachable(s) && c in s.connections && Live(s.connections[c]) && t in s.connections[c].accepted
    ensures var k := s.connections[c];
            && (t in k.running <==> !HasAnswer(k.answers, t))
            && (forall a, b | 0 <= a < |k.answers| && 0 <= b < |k.answers| && k.answers[a].ticket == t == k.answers[b].ticket :: a == b)
            && (forall i | 0 <= i < AnsweredBelow(k) && i < |s.w.log| && OutcomeOf(s.w.log[i], c, t) :: HasAnswer(k.answers, t))
            && (HasAnswer(k.answers, t) ==>
                  exists a :: 0 <= a < |k.answers| && k.answers[a].ticket == t
                    && 0 < k.answers[a].number <= AnsweredBelow(k) && k.answers[a].number <= |s.w.log|
                    && OutcomeOf(s.w.log[k.answers[a].number - 1], c, t) && k.answers[a].id == k.accepted[t].1)
            && (t in k.running ==>
                  if t in k.ran then AnsweredBelow(k) < k.ran[t] && RanAt(s.w.log, s.w.sending, c, t, k.ran[t])
                  else InFlight(s.w.tasks, k.accepted[t].0, c, t))
  {
    ReachableKeeps(s);
    var k := s.connections[c];
    assert ConnectionInv(s.w, c, k);
    forall i | 0 <= i < AnsweredBelow(k) && i < |s.w.log| && OutcomeOf(s.w.log[i], c, t)
      ensures HasAnswer(k.answers, t)
    {
      assert OwnOutcome(s.w.log[i], i, k.accepted, k.running, k.ran, k.answers, AnsweredBelow(k));
    }
    if HasAnswer(k.answers, t) {
      var a :| 0 <= a < |k.answers| && k.answers[a].ticket == t;
      assert AnswerInv(s.w.log, c, k.accepted, AnsweredBelow(k), k.answers[a]);
    }
  }

  /** Distinct commands ran at distinct numbers, so the skipped ones always have an order. */
  lemma RanNumbersDiffer(s: Server, c: nat, t: nat, u: nat)
    requires Reachable(s) && c in s.connections && Live(s.connections[c])
    requires t in s.connections[c].ran && u in s.connections[c].ran
    requires s.connections[c].ran[t] == s.connections[c].ran[u]
    ensures t == u
  {
    ReachableKeeps(s);
    var k := s.connections[c];
    assert ConnectionInv(s.w, c, k);
    assert RanAt(s.w.log, s.w.sending, c, t, k.ran[t]) && RanAt(s.w.log, s.w.sending, c, u, k.ran[u]);
  }

  /** An answer once given stays given. */
  lemma AnswersStay(s: Server, step: Step, c: nat)
    requires Enabled(s, step) && c in s.connections
    ensures c in Apply(s, step).connections
    ensures s.connections[c].answers <= Apply(s, step).connections[c].answers
  {
    if step.LagAnswerStep? && step.c == c {
      AnsweredAllExtends(s.connections[c], step.order);
    }
  }

  lemma {:induction false} AnsweredAllExtends(k: Connection, order: seq<(nat, nat)>)
    ensures k.answers <= AnsweredAll(k, order).answers
    decreases |order|
  {
    if order != [] {
      AnsweredAllExtends(Answered(k, order[0].0, order[0].1), order[1..]);
    }
  }

  /** Answers leave in increasing publication number, and as each left, every subscription held, in
      its snapshot or as a patch, every modification published before it that affects it. */
  lemma AnswersFollowPublications(s: Server, c: nat, a: nat)
    requires Reachable(s) && c in s.connections && !s.connections[c].phase.Admitting? && a < |s.connections[c].answers|
    ensures var answer := s.connections[c].answers[a];
            && 0 < answer.number <= |s.w.log|
            && OutcomeOf(s.w.log[answer.number - 1], c, answer.ticket)
            && (forall b | a < b < |s.connections[c].answers| :: answer.number < s.connections[c].answers[b].number)
            && (forall sub, i | sub in answer.view && 0 <= i < answer.number - 1 :: Covered(answer.view[sub], s.w.log[i]))
  {
    ReachableKeeps(s);
    var k := s.connections[c];
    assert ConnectionInv(s.w, c, k);
    assert AnswerInv(s.w.log, c, k.accepted, AnsweredBelow(k), k.answers[a]);
    forall sub, i | sub in k.answers[a].view && 0 <= i < k.answers[a].number - 1
      ensures Covered(k.answers[a].view[sub], s.w.log[i])
    {
      assert Covers(s.w.log, k.answers[a].view[sub], k.answers[a].number - 1);
    }
  }

  /** The limit on running commands is kept, and the counts never fall below zero. */
  lemma LimitsHold(s: Server)
    requires Reachable(s)
    ensures |s.w.executing| <= s.w.commandLimit && 0 <= s.w.permits && 0 <= s.w.running && 0 <= s.w.serving
    ensures forall id | id in s.w.tasks :: id in s.w.executing <==> s.w.tasks[id].stage.Executing?
  {
    ReachableKeeps(s);
    forall id | id in s.w.tasks ensures id in s.w.executing <==> s.w.tasks[id].stage.Executing? {
      assert TaskInv(s.w, id);
    }
  }

  // ---------------------------------------------------------------- shutting down

  /** The closing publication is numbered after the outcome of every command ever started. */
  lemma ClosingFollowsEveryCommand(s: Server)
    requires Reachable(s) && s.w.closingAt > 0
    ensures s.w.tasks == map[]
    ensures forall i | 0 <= i < |s.w.log| && s.w.log[i].Ran? :: i < s.w.closingAt - 1
    ensures s.w.sending.Some? ==> !s.w.sending.value.publication.Ran?
  {
    ReachableKeeps(s);
    forall i | 0 <= i < |s.w.log| && s.w.log[i].Ran? ensures i < s.w.closingAt - 1 {
      assert i != s.w.closingAt - 1;
    }
  }

  /** A command a live connection still owes an answer is numbered before the closing publication. */
  lemma OwedPrecedesClosing(s: Server, c: nat, t: nat)
    requires Reachable(s) && s.w.closingAt > 0 && c in s.connections && Live(s.connections[c])
    requires t in s.connections[c].running
    ensures t in s.connections[c].ran && s.connections[c].ran[t] < s.w.closingAt
  {
    ReachableKeeps(s);
    assert ConnectionInv(s.w, c, s.connections[c]);
    RunningPrecedesClosing(s.w, c, s.connections[c], t);
  }

  /** No counted connection misses the closing publication: its receiver has yet to bring it; or the
      receiver fell behind and skipped it, and catching up ends in the check; or the connection is at
      the check, and the very next step closes it. */
  lemma ClosingIsNotMissed(s: Server, c: nat)
    requires Reachable(s) && c in s.w.served && s.w.closingAt > 0
    ensures c in s.connections && Live(s.connections[c])
    ensures var k := s.connections[c];
            || k.cursor < s.w.closingAt
            || (k.phase.Lagging? && s.w.closingAt <= k.phase.skipped == k.cursor
                && forall order :: Caught(k, order).phase == Checking(k.phase.skipped))
            || (k.phase.Checking? && Apply(s, LagCheckStep(c)).connections[c].phase == Ended(true))
  {
    ReachableKeeps(s);
    ClosingIsAhead(s.w, c, s.connections[c]);
  }

  lemma ClosingIsAhead(w: World, c: nat, k: Connection)
    requires ConnectionInv(w, c, k) && c in w.served && w.closingAt > 0
    ensures Live(k)
    ensures || k.cursor < w.closingAt
            || (k.phase.Lagging? && w.closingAt <= k.phase.skipped == k.cursor)
            || (k.phase.Checking? && w.closingAt <= k.phase.skipped)
  {}

  /** A connection the shutdown closed has answered every command it accepted. */
  lemma ClosedOwesNothing(s: Server, c: nat)
    requires Reachable(s) && c in s.connections && s.connections[c].phase == Ended(true)
    ensures s.connections[c].running == map[]
    ensures forall t | t in s.connections[c].accepted :: HasAnswer(s.connections[c].answers, t)
  {
    ReachableKeeps(s);
    assert ConnectionInv(s.w, c, s.connections[c]);
  }

  /** When a shutdown resolves, no command is running and no connection is served. */
  lemma ShutDownIsComplete(s: Server)
    requires Reachable(s) && s.w.stopping && s.w.running == 0 && s.w.serving == 0
    ensures s.w.tasks == map[] && forall c | c in s.connections :: !Live(s.connections[c])
  {
    ReachableKeeps(s);
    assert s.w.served == {};
    forall c | c in s.connections ensures !Live(s.connections[c]) { assert ConnectionInv(s.w, c, s.connections[c]); }
  }
}
