/** A step of one connection, task or the host leaves every other connection's invariant alone. */
module PublicationsFrame {
  import opened Wrappers
  import opened Publications
  import opened PublicationsInvariant

  predicate Pending(stage: Stage) { stage.Executing? || stage.Returned? }

  /** How the shared state may change around connection `c`. */
  ghost predicate Grows(w: World, w': World, c: nat) {
    GrowsLog(w, w', c) && GrowsTasks(w, w', c) && GrowsSaved(w, w', c)
    && (c in w'.served <==> c in w.served)
  }

  ghost predicate GrowsLog(w: World, w': World, c: nat) {
    && (w'.log == w.log || (w.sending.Some? && w'.log == w.log + [w.sending.value.publication]))
    && |w.log| <= w.last <= w'.last
    && (w'.sending == w.sending ==> w'.log == w.log && w'.last == w.last)
    && (w'.sending != w.sending && w.sending.Some? ==> w'.log == w.log + [w.sending.value.publication])
    && (w'.sending != w.sending && w.sending.Some? ==> w.sending.value.owner != ByConnection(c))
    && (w'.sending != w.sending && w'.sending.Some? ==>
          !Names(w'.sending.value.publication, c) && w'.sending.value.owner != ByConnection(c))
    && (w'.closingAt == w.closingAt || w'.closingAt > |w.log|)
  }

  ghost predicate GrowsTasks(w: World, w': World, c: nat) {
    && (forall id | id in w.tasks && w.tasks[id].origin == c && !w.tasks[id].stage.Sent? ::
          && id in w'.tasks && w'.tasks[id].origin == c && w'.tasks[id].ticket == w.tasks[id].ticket
          && (w.tasks[id].stage == Counted <==> w'.tasks[id].stage == Counted)
          && (Pending(w.tasks[id].stage) <==> Pending(w'.tasks[id].stage)))
    && (forall id | id in w'.tasks && w'.tasks[id].origin == c && !w'.tasks[id].stage.Sent? ::
          id in w.tasks && w.tasks[id].origin == c && !w.tasks[id].stage.Sent?)
    && (forall id | id in w'.tasks && w'.tasks[id].origin == c :: id in w.tasks && w.tasks[id].origin == c)
  }

  ghost predicate GrowsSaved(w: World, w': World, c: nat) {
    && w.made <= w'.made
    && (forall n | n in w'.unsent && n <= |w.made| :: n in w.unsent && w'.unsent[n] == w.unsent[n])
    && (forall n | n in w.unsent && w.unsent[n] == ByConnection(c) :: n in w'.unsent && w'.unsent[n] == ByConnection(c))
  }

  lemma {:induction false} OfferedFrame(made: seq<Change>, made': seq<Change>, processed: seq<nat>, sub: Subscription)
    requires made <= made'
    requires forall i | 0 <= i < |processed| :: 0 < processed[i] <= |made|
    ensures OfferedOf(made', processed, sub) == OfferedOf(made, processed, sub)
    decreases |processed|
  {
    if processed != [] {
      OfferedFrame(made, made', processed[..|processed| - 1], sub);
    }
  }

  lemma FramePhase(w: World, w': World, c: nat, k: Connection)
    requires WorldInv(w) && LiveInv(w, c, k) && Grows(w, w', c)
    ensures PhaseInv(w', c, k)
  {
    assert k.cursor <= |w.log| <= |w'.log|;
    assert k.phase.Lagging? ==> k.phase.from <= k.cursor;
  }

  lemma FrameRanAt(w: World, w': World, c: nat, t: nat, number: nat)
    requires WorldInv(w) && GrowsLog(w, w', c) && RanAt(w.log, w.sending, c, t, number)
    ensures RanAt(w'.log, w'.sending, c, t, number)
  {}

  lemma FrameCommands(w: World, w': World, c: nat, k: Connection)
    requires WorldInv(w) && Commands(w, c, k) && Grows(w, w', c)
    ensures Commands(w', c, k)
  {
    forall t | t in k.ran ensures RanAt(w'.log, w'.sending, c, t, k.ran[t]) { FrameRanAt(w, w', c, t, k.ran[t]); }
  }

  lemma FrameOwnTasks(w: World, w': World, c: nat, k: Connection)
    requires WorldInv(w) && OwnTasks(w, c, k) && Grows(w, w', c) && AnsweredBelow(k) <= |w.log|
    ensures OwnTasks(w', c, k)
  {
    forall id | id in w'.tasks && w'.tasks[id].origin == c
      ensures OwnTask(id, w'.tasks[id], k.phase, k.accepted, k.running, k.ran)
    {
      assert OwnTask(id, w.tasks[id], k.phase, k.accepted, k.running, k.ran);
    }
    forall i | 0 <= i < |w'.log| && w'.log[i].Ran? && w'.log[i].origin == c
      ensures OwnOutcome(w'.log[i], i, k.accepted, k.running, k.ran, k.answers, AnsweredBelow(k))
    {
      assert i < |w.log| ==> w'.log[i] == w.log[i];
    }
  }

  lemma FrameAnswers(w: World, w': World, c: nat, k: Connection)
    requires w.log <= w'.log && Answers(w, c, k)
    ensures Answers(w', c, k)
  {
    forall a | 0 <= a < |k.answers| ensures AnswerInv(w'.log, c, k.accepted, AnsweredBelow(k), k.answers[a]) {
      assert AnswerInv(w.log, c, k.accepted, AnsweredBelow(k), k.answers[a]);
      forall sub | sub in k.answers[a].view ensures Covers(w'.log, k.answers[a].view[sub], k.answers[a].number - 1) {
        assert Covers(w.log, k.answers[a].view[sub], k.answers[a].number - 1);
      }
    }
  }

  lemma FrameSubscriptions(w: World, w': World, c: nat, k: Connection)
    requires Subscriptions(w, k) && Processed(w, c, k) && w.log <= w'.log && w.made <= w'.made
    ensures Subscriptions(w', k)
  {
    forall sub | sub in k.subscriptions ensures Subscribed(w'.log, w'.made, k.processed, ReachedBelow(k, sub), k.subscriptions[sub]) {
      assert Subscribed(w.log, w.made, k.processed, ReachedBelow(k, sub), k.subscriptions[sub]);
      OfferedFrame(w.made, w'.made, k.processed, k.subscriptions[sub]);
    }
  }

  /** What another holds the lock for is not yet delivered here. */
  lemma SendingIsFresh(w: World, c: nat, k: Connection)
    requires Accounted(w) && Sender(w) && Processed(w, c, k) && c != NO_CONNECTION
    requires w.sending.Some? && w.sending.value.owner != ByConnection(c)
    ensures FreshTo(w.sending.value.publication, c, k.processed)
    ensures OwnProcessed(w.sending.value.publication, c, k.processed)
  {}

  lemma FrameProcessed(w: World, w': World, c: nat, k: Connection)
    requires Accounted(w) && Sender(w) && Processed(w, c, k) && c != NO_CONNECTION
    requires GrowsLog(w, w', c) && GrowsSaved(w, w', c)
    ensures Processed(w', c, k)
  {
    if w'.log != w.log {
      SendingIsFresh(w, c, k);
    }
    forall i | k.cursor <= i < |w'.log| ensures FreshTo(w'.log[i], c, k.processed) {
      assert i < |w.log| ==> w'.log[i] == w.log[i];
    }
    forall i | 0 <= i < |w'.log| ensures OwnProcessed(w'.log[i], c, k.processed) {
      assert i < |w.log| ==> w'.log[i] == w.log[i];
    }
  }

  lemma GrowsSelf(w: World, c: nat)
    requires WorldInv(w)
    ensures Grows(w, w, c)
  {}

  lemma FrameUntouched(w: World, w': World, c: nat)
    requires WorldInv(w) && Untouched(w, c) && Grows(w, w', c) && c != NO_CONNECTION
    ensures Untouched(w', c)
  {}

  lemma Frame(w: World, w': World, c: nat, k: Connection)
    requires WorldInv(w) && ConnectionInv(w, c, k) && Grows(w, w', c)
    ensures ConnectionInv(w', c, k)
  {
    if Live(k) {
      FramePhase(w, w', c, k);
      FrameCommands(w, w', c, k);
      FrameOwnTasks(w, w', c, k);
      FrameAnswers(w, w', c, k);
      FrameSubscriptions(w, w', c, k);
      FrameProcessed(w, w', c, k);
    } else if k.phase.Admitting? {
      FrameUntouched(w, w', c);
    } else {
      FrameAnswers(w, w', c, k);
    }
  }
}
