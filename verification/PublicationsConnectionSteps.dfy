/** Every step of the publication protocol keeps its invariant: the connections' own steps. */
module PublicationsConnectionSteps {
  import opened Wrappers
  import opened Publications
  import opened PublicationsInvariant
  import opened PublicationsFrame
  import opened PublicationsSteps

  /** A step that changes nothing but connection `c`. */
  lemma KeepConnection(s: Server, c: nat, k: Connection)
    requires Inv(s) && c in s.connections && ConnectionInv(s.w, c, k)
    ensures Inv(WithConnection(s, c, k))
  {
    forall d: nat | d != c && d != NO_CONNECTION ensures Grows(s.w, s.w, d) { GrowsSelf(s.w, d); }
    KeepChanged(s, WithConnection(s, c, k), c);
  }

  // ---------------------------------------------------------------- subscriptions

  /** A subscription whose snapshot holds everything saved so far is offered none of it. */
  lemma {:induction false} OfferedNone(made: seq<Change>, processed: seq<nat>, sub: Subscription)
    requires sub.authoring || sub.through == |made|
    requires forall n | 0 < n <= |made| :: made[n - 1].modification == Some(n)
    ensures OfferedOf(made, processed, sub) == []
    decreases |processed|
  {
    if processed != [] {
      var n := processed[|processed| - 1];
      assert 0 < n <= |made| ==> made[n - 1].modification == Some(n);
      OfferedNone(made, processed[..|processed| - 1], sub);
    }
  }

  /** What is offered depends on the snapshot, not on what was offered before. */
  lemma {:induction false} OfferedSame(made: seq<Change>, processed: seq<nat>, sub: Subscription, sub': Subscription)
    requires sub' == sub.(offered := sub'.offered)
    ensures OfferedOf(made, processed, sub') == OfferedOf(made, processed, sub)
    decreases |processed|
  {
    if processed != [] {
      OfferedSame(made, processed[..|processed| - 1], sub, sub');
    }
  }

  lemma FreshSubscription(w: World, k: Connection, sub: nat, held: Subscription)
    requires Accounted(w) && k.cursor <= |w.log| && ReachedBelow(k, sub) <= |w.log|
    requires sub in k.subscriptions && k.subscriptions[sub] == Resynced(held, Saved(w))
    ensures Subscribed(w.log, w.made, k.processed, ReachedBelow(k, sub), k.subscriptions[sub])
  {
    OfferedNone(w.made, k.processed, k.subscriptions[sub]);
    forall i | 0 <= i < |w.log| ensures Covered(k.subscriptions[sub], w.log[i]) { assert InLog(w, i); }
  }

  /** A step that changes only what the connection's subscriptions are. */
  lemma SubscriptionsKeep(w: World, c: nat, k: Connection, k': Connection)
    requires LiveInv(w, c, k) && Subscriptions(w, k') && k.phase == Idle
    requires k' == k.(subscriptions := k'.subscriptions, nextSubscription := k'.nextSubscription)
    ensures LiveInv(w, c, k')
  {
    AnswersKept(w, c, k, k');
  }

  lemma SubscribeKeeps(s: Server, c: nat, sub: nat, held: Subscription)
    requires Inv(s) && InPhase(s, c, Idle)
    ensures Inv(WithConnection(s, c, WithSubscription(s.connections[c], sub, held, Saved(s.w))))
  {
    var k := s.connections[c];
    var k' := WithSubscription(k, sub, held, Saved(s.w));
    forall id | id in k'.subscriptions ensures id < k'.nextSubscription && Subscribed(s.w.log, s.w.made, k'.processed, ReachedBelow(k', id), k'.subscriptions[id]) {
      if id == sub {
        FreshSubscription(s.w, k', sub, held);
      } else {
        assert Subscribed(s.w.log, s.w.made, k.processed, ReachedBelow(k, id), k.subscriptions[id]);
      }
    }
    SubscriptionsKeep(s.w, c, k, k');
    KeepConnection(s, c, k');
  }

  lemma UnsubscribeKeeps(s: Server, c: nat, sub: nat)
    requires Inv(s) && InPhase(s, c, Idle)
    ensures Inv(WithConnection(s, c, s.connections[c].(subscriptions := s.connections[c].subscriptions - {sub})))
  {
    var k := s.connections[c];
    var k' := k.(subscriptions := k.subscriptions - {sub});
    assert Subscriptions(s.w, k') by {
      forall id | id in k'.subscriptions ensures Subscribed(s.w.log, s.w.made, k'.processed, ReachedBelow(k', id), k'.subscriptions[id]) { assert Subscribed(s.w.log, s.w.made, k.processed, ReachedBelow(k, id), k.subscriptions[id]); }
    }
    SubscriptionsKeep(s.w, c, k, k');
    KeepConnection(s, c, k');
  }

  /** The answers depend on these parts alone. */
  lemma AnswersKept(w: World, c: nat, k: Connection, k': Connection)
    requires Answers(w, c, k) && k'.answers == k.answers
    requires forall t | t in k.accepted :: t in k'.accepted && k'.accepted[t] == k.accepted[t]
    requires AnsweredBelow(k) <= AnsweredBelow(k') <= |w.log|
    ensures Answers(w, c, k')
  {
    forall a | 0 <= a < |k'.answers| ensures AnswerInv(w.log, c, k'.accepted, AnsweredBelow(k'), k'.answers[a]) {
      assert AnswerInv(w.log, c, k.accepted, AnsweredBelow(k), k.answers[a]);
    }
  }

  // ---------------------------------------------------------------- admission and ending

  lemma AdmitKeeps(s: Server, c: nat)
    requires Inv(s) && c != NO_CONNECTION && c !in s.connections && s.w.sending.None?
    ensures Inv(WithConnection(s, c, NewConnection(s.w)))
  {
    var s' := WithConnection(s, c, NewConnection(s.w));
    forall d: nat | d != c && d != NO_CONNECTION ensures Grows(s.w, s'.w, d) { GrowsSelf(s.w, d); }
    KeepChanged(s, s', c);
  }

  /** Counting a connection in or out changes nothing else that is shared. */
  lemma ServedKeeps(w: World, served: set<nat>)
    requires WorldInv(w)
    ensures WorldInv(w.(serving := |served|, served := served))
  {
    var w' := w.(serving := |served|, served := served);
    AccountedKept(w, w');
    forall id | id in w'.tasks ensures TaskInv(w', id) { assert TaskInv(w, id); }
  }

  lemma ServedGrows(w: World, served: set<nat>, d: nat)
    requires WorldInv(w) && (d in served <==> d in w.served)
    ensures Grows(w, w.(serving := |served|, served := served), d)
  {
    GrowsSelf(w, d);
  }

  lemma NewIsLive(w: World, c: nat, k: Connection)
    requires WorldInv(w) && NewInv(w, c, k) && !w.stopping
    ensures LiveInv(w, c, k.(phase := Idle))
  {
    var k' := k.(phase := Idle);
    assert forall i | 0 <= i < |w.log| :: !Names(w.log[i], c);
    assert OwnTasks(w, c, k');
    assert Processed(w, c, k');
  }

  lemma RefuseKeeps(s: Server, c: nat)
    requires Inv(s) && InPhase(s, c, Admitting)
    ensures Inv(WithConnection(s, c, s.connections[c].(phase := Ended(false))))
  {
    KeepConnection(s, c, s.connections[c].(phase := Ended(false)));
  }

  lemma CountKeeps(s: Server, c: nat)
    requires Inv(s) && InPhase(s, c, Admitting) && !s.w.stopping
    ensures Inv(CountIn(s, c))
  {
    var served := s.w.served + {c};
    var s' := CountIn(s, c);
    ServedKeeps(s.w, served);
    assert s'.w == s.w.(serving := |served|, served := served);
    assert NewInv(s'.w, c, s.connections[c]);
    NewIsLive(s'.w, c, s.connections[c]);
    assert ConnectionInv(s'.w, c, s'.connections[c]);
    forall d: nat | d != c && d != NO_CONNECTION ensures Grows(s.w, s'.w, d) { ServedGrows(s.w, served, d); }
    KeepChanged(s, s', c);
  }

  lemma EndedIsKept(w: World, w': World, c: nat, k: Connection, closed: bool)
    requires LiveInv(w, c, k) && (k.phase == Idle || k.phase.Checking?)
    requires closed ==> k.running == map[] && w.closingAt > 0
    requires w' == w.(serving := w'.serving, served := w'.served)
    ensures EndedInv(w', c, k.(phase := Ended(closed)))
  {
    AnswersKept(w, c, k, k.(phase := Ended(closed)));
    FrameAnswers(w, w', c, k.(phase := Ended(closed)));
    forall id | id in w'.tasks && w'.tasks[id].origin == c ensures w'.tasks[id].stage != Counted {
      assert OwnTask(id, w.tasks[id], k.phase, k.accepted, k.running, k.ran);
    }
    forall t | closed && t in k.accepted ensures HasAnswer(k.answers, t) {
      assert HasAnswer(k.answers, t);
    }
  }

  lemma EndCount(s: Server, c: nat, closed: bool)
    requires s.w.serving == |s.w.served| && c in s.connections && c in s.w.served
    ensures var served := s.w.served - {c}; End(s, c, closed).w == s.w.(serving := |served|, served := served)
  {
    assert s.w.served == s.w.served - {c} + {c};
  }

  /** A connection in a live phase ends. */
  lemma EndKeeps(s: Server, c: nat, closed: bool)
    requires Inv(s) && c in s.connections && (InPhase(s, c, Idle) || s.connections[c].phase.Checking?)
    requires closed ==> s.connections[c].running == map[] && s.w.closingAt > 0
    ensures Inv(End(s, c, closed))
  {
    var s' := End(s, c, closed);
    assert ConnectionInv(s.w, c, s.connections[c]);
    EndCount(s, c, closed);
    ServedKeeps(s.w, s.w.served - {c});
    EndedIsKept(s.w, s'.w, c, s.connections[c], closed);
    forall d: nat | d != c && d != NO_CONNECTION ensures Grows(s.w, s'.w, d) { ServedGrows(s.w, s.w.served - {c}, d); }
    KeepChanged(s, s', c);
  }
}
