/** Every step of the publication protocol keeps its invariant: deliveries, answers and lag. */
module PublicationsDeliverySteps {
  import opened Wrappers
  import opened Publications
  import opened PublicationsInvariant
  import opened PublicationsFrame
  import opened PublicationsSteps
  import opened PublicationsConnectionSteps

  // ---------------------------------------------------------------- delivering a change

  /** Delivering the next modification offers it to the subscriptions that want it. */
  lemma DeliverSubscribed(log: seq<Publication>, made: seq<Change>, processed: seq<nat>, reached: nat,
                          held: Subscription, change: Change)
    requires Subscribed(log, made, processed, reached, held)
    requires change.modification.Some? && 0 < change.modification.value <= |made|
    requires made[change.modification.value - 1] == change
    ensures Subscribed(log, made, processed + [change.modification.value], reached, Offer(held, change))
  {
    var n := change.modification.value;
    var next := processed + [n];
    assert next[..|next| - 1] == processed;
    OfferedSame(made, processed, held, Offer(held, change));
    forall i | 0 <= i < reached ensures Covered(Offer(held, change), log[i]) {
      assert Covered(held, log[i]);
    }
  }

  /** One more publication is behind a subscription it was delivered to. */
  lemma ReachedFurther(log: seq<Publication>, made: seq<Change>, processed: seq<nat>, reached: nat, held: Subscription)
    requires Subscribed(log, made, processed, reached, held) && reached < |log| && Covered(held, log[reached])
    ensures Subscribed(log, made, processed, reached + 1, held)
  {}

  lemma {:induction false} OfferedMember(made: seq<Change>, processed: seq<nat>, sub: Subscription, n: nat)
    requires n in processed && Due(made, sub, n)
    ensures n in OfferedOf(made, processed, sub)
    decreases |processed|
  {
    if n != processed[|processed| - 1] {
      OfferedMember(made, processed[..|processed| - 1], sub, n);
    }
  }

  // ---------------------------------------------------------------- a connection's own mutation

  lemma MutateKeeps(s: Server, c: nat, change: Change)
    requires Inv(s) && InPhase(s, c, Idle) && NextChange(s.w, change)
    ensures Inv(Server(Save(s.w, change, ByConnection(c)), s.connections[c := s.connections[c].(phase := Mutating(change))]))
  {
    var k := s.connections[c];
    var w' := Save(s.w, change, ByConnection(c));
    var k' := k.(phase := Mutating(change));
    SaveKeeps(s.w, change, ByConnection(c));
    forall d: nat ensures Grows(s.w, w', d) { SaveGrows(s.w, change, ByConnection(c), d); }
    Frame(s.w, w', c, k);
    PhaseOnly(w', c, k, k');
    KeepChanged(s, Server(w', s.connections[c := k']), c);
  }

  lemma MutateNothingKeeps(s: Server, c: nat, change: Change)
    requires Inv(s) && InPhase(s, c, Idle) && change.modification.None?
    ensures Inv(WithConnection(s, c, s.connections[c].(phase := Mutating(change))))
  {
    PhaseOnly(s.w, c, s.connections[c], s.connections[c].(phase := Mutating(change)));
    KeepConnection(s, c, s.connections[c].(phase := Mutating(change)));
  }

  /** Between phases that keep no lag or start of their own, only the phase's own part changes. */
  lemma PhaseOnly(w: World, c: nat, k: Connection, k': Connection)
    requires LiveInv(w, c, k) && k' == k.(phase := k'.phase)
    requires !k.phase.Lagging? && !k'.phase.Lagging? && !k.phase.Starting? && !k'.phase.Starting?
    requires k.phase.Publishing? ==> k'.phase == k.phase
    ensures Commands(w, c, k') && OwnTasks(w, c, k') && Answers(w, c, k') && Subscriptions(w, k') && Processed(w, c, k')
  {
    AnswersKept(w, c, k, k');
    forall i | i in w.tasks && w.tasks[i].origin == c
      ensures OwnTask(i, w.tasks[i], k'.phase, k'.accepted, k'.running, k'.ran)
    {
      assert OwnTask(i, w.tasks[i], k.phase, k.accepted, k.running, k.ran);
    }
    assert forall sub | sub in k.subscriptions :: ReachedBelow(k', sub) == ReachedBelow(k, sub);
  }

  lemma RespondingSubscriptions(w: World, c: nat, k: Connection)
    requires PhaseInv(w, c, k) && Subscriptions(w, k) && k.phase.Mutating?
    ensures Subscriptions(w, Responding(k))
  {
    var k' := Responding(k);
    forall sub | sub in k'.subscriptions
      ensures sub < k'.nextSubscription
      ensures Subscribed(w.log, w.made, k'.processed, ReachedBelow(k', sub), k'.subscriptions[sub])
    {
      assert Subscribed(w.log, w.made, k.processed, ReachedBelow(k, sub), k.subscriptions[sub]);
      if k.phase.change.modification.Some? {
        DeliverSubscribed(w.log, w.made, k.processed, ReachedBelow(k, sub), k.subscriptions[sub], k.phase.change);
      }
    }
  }

  lemma RespondingProcessed(w: World, c: nat, k: Connection)
    requires Accounted(w) && PhaseInv(w, c, k) && Processed(w, c, k) && k.phase.Mutating?
    ensures Processed(w, c, Responding(k))
  {
    var k' := Responding(k);
    if k.phase.change.modification.Some? {
      var n := k.phase.change.modification.value;
      assert k'.processed == k.processed + [n];
      forall i | k'.cursor <= i < |w.log| ensures FreshTo(w.log[i], c, k'.processed) {
        assert InLog(w, i) && FreshTo(w.log[i], c, k.processed);
      }
      forall i | 0 <= i < |w.log| ensures OwnProcessed(w.log[i], c, k'.processed) {
        assert OwnProcessed(w.log[i], c, k.processed);
      }
    }
  }

  lemma RespondingRest(w: World, c: nat, k: Connection)
    requires LiveInv(w, c, k) && k.phase.Mutating?
    ensures Commands(w, c, Responding(k)) && OwnTasks(w, c, Responding(k)) && Answers(w, c, Responding(k))
  {
    var k' := Responding(k);
    AnswersKept(w, c, k, k');
    forall i | i in w.tasks && w.tasks[i].origin == c
      ensures OwnTask(i, w.tasks[i], k'.phase, k'.accepted, k'.running, k'.ran)
    {
      assert OwnTask(i, w.tasks[i], k.phase, k.accepted, k.running, k.ran);
    }
  }

  /** Numbering another's publication, or the connection's own mutation, as the connection sees it. */
  lemma NumberedIsLive(w: World, c: nat, k: Connection)
    requires WorldInv(w) && LiveInv(w, c, k) && k.phase.Mutating? && w.sending.None?
    ensures LiveInv(Number(w, Served(c, k.phase.change), ByConnection(c)), c, Responding(k))
  {
    var w' := Number(w, Served(c, k.phase.change), ByConnection(c));
    var k' := Responding(k);
    RespondingSubscriptions(w, c, k);
    RespondingProcessed(w, c, k);
    RespondingRest(w, c, k);
    FrameAnswers(w, w', c, k');
    assert RanInv(w'.log, w'.sending, c, k'.ran, k'.running, AnsweredBelow(k')) by {
      forall t | t in k'.ran ensures RanAt(w'.log, w'.sending, c, t, k'.ran[t]) {
        assert RanAt(w.log, w.sending, c, t, k.ran[t]);
      }
    }
    assert Processed(w', c, k');
    assert Subscriptions(w', k');
    assert PhaseInv(w', c, k');
  }

  lemma NumberGrows(w: World, p: Publication, owner: Owner, d: nat)
    requires WorldInv(w) && w.sending.None? && !Names(p, d) && owner != ByConnection(d)
    ensures Grows(w, Number(w, p, owner), d)
  {
    GrowsSelf(w, d);
  }

  lemma RespondKeeps(s: Server, c: nat)
    requires Inv(s) && c in s.connections && s.connections[c].phase.Mutating? && s.w.sending.None?
    ensures var k := s.connections[c];
            Inv(Server(Number(s.w, Served(c, k.phase.change), ByConnection(c)), s.connections[c := Responding(k)]))
  {
    var k := s.connections[c];
    var p := Served(c, k.phase.change);
    var s' := Server(Number(s.w, p, ByConnection(c)), s.connections[c := Responding(k)]);
    NumberKeeps(s.w, p, ByConnection(c));
    NumberedIsLive(s.w, c, k);
    forall d: nat | d != c && d != NO_CONNECTION ensures Grows(s.w, s'.w, d) { NumberGrows(s.w, p, ByConnection(c), d); }
    KeepChanged(s, s', c);
  }

  // ---------------------------------------------------------------- taking a publication

  lemma AnsweredMore(answers: seq<Answer>, answer: Answer, t: nat)
    ensures HasAnswer(answers + [answer], t) <==> HasAnswer(answers, t) || t == answer.ticket
  {
    if HasAnswer(answers, t) {
      var a :| 0 <= a < |answers| && answers[a].ticket == t;
      assert (answers + [answer])[a].ticket == t;
    }
    assert (answers + [answer])[|answers|] == answer;
  }

  /** The connection after the commands of `gone` are answered: those published below the place
      it has now reached. */
  ghost predicate Settles(k: Connection, k': Connection, gone: set<nat>) {
    && k'.accepted == k.accepted && k'.tickets == k.tickets
    && k'.ran == k.ran - gone && k'.running == k.running - gone
    && !k.phase.Starting? && !k'.phase.Starting?
    && AnsweredBelow(k) <= AnsweredBelow(k')
    && (forall t | t in k.ran :: t in gone <==> k.ran[t] <= AnsweredBelow(k'))
    && (forall t | t in gone :: t in k.ran)
    && (forall t: nat :: HasAnswer(k'.answers, t) <==> HasAnswer(k.answers, t) || t in gone)
  }

  lemma SettlesCommands(w: World, c: nat, k: Connection, k': Connection, gone: set<nat>)
    requires Commands(w, c, k) && Settles(k, k', gone)
    ensures Commands(w, c, k')
  {
    assert TicketsInv(k'.accepted, k'.running, k'.answers, k'.tickets);
    assert RanInv(w.log, w.sending, c, k'.ran, k'.running, AnsweredBelow(k'));
    assert WaitingInv(w.tasks, c, k'.accepted, k'.running, k'.ran);
  }

  lemma SettlesOutcomes(w: World, c: nat, k: Connection, k': Connection, gone: set<nat>)
    requires Settles(k, k', gone) && AnsweredBelow(k') <= |w.log|
    requires OwnLogInv(w.log, c, k.accepted, k.running, k.ran, k.answers, AnsweredBelow(k))
    ensures OwnLogInv(w.log, c, k'.accepted, k'.running, k'.ran, k'.answers, AnsweredBelow(k'))
  {
    forall i | 0 <= i < |w.log| && w.log[i].Ran? && w.log[i].origin == c
      ensures OwnOutcome(w.log[i], i, k'.accepted, k'.running, k'.ran, k'.answers, AnsweredBelow(k'))
    {
      assert OwnOutcome(w.log[i], i, k.accepted, k.running, k.ran, k.answers, AnsweredBelow(k));
    }
  }

  lemma SettlesOwnTasks(w: World, c: nat, k: Connection, k': Connection, gone: set<nat>)
    requires OwnTasks(w, c, k) && Settles(k, k', gone) && AnsweredBelow(k') <= |w.log|
    requires w.last == |w.log| + (if w.sending.Some? then 1 else 0)
    ensures OwnTasks(w, c, k')
  {
    SettlesOutcomes(w, c, k, k', gone);
    forall i | i in w.tasks && w.tasks[i].origin == c
      ensures OwnTask(i, w.tasks[i], k'.phase, k'.accepted, k'.running, k'.ran)
    {
      assert OwnTask(i, w.tasks[i], k.phase, k.accepted, k.running, k.ran);
    }
  }

  /** A publication that answers nothing here moves the connection past it. */
  lemma PassSettles(w: World, c: nat, k: Connection, k': Connection)
    requires Commands(w, c, k) && k.phase == Idle && k.cursor < |w.log|
    requires !(w.log[k.cursor].Ran? && w.log[k.cursor].origin == c)
    requires k' == k.(cursor := k.cursor + 1, subscriptions := k'.subscriptions, processed := k'.processed)
    ensures Settles(k, k', {})
  {
    assert k.ran - {} == k.ran && k.running - {} == k.running;
    forall t | t in k.ran ensures k'.cursor < k.ran[t] { assert RanAt(w.log, w.sending, c, t, k.ran[t]); }
  }

  /** The outcome at the cursor is the one kept for its ticket. */
  lemma OwnIsKept(w: World, c: nat, k: Connection)
    requires Commands(w, c, k) && OwnTasks(w, c, k) && k.phase == Idle && k.cursor < |w.log|
    requires w.log[k.cursor].Ran? && w.log[k.cursor].origin == c
    ensures var t := w.log[k.cursor].ticket;
            t in k.ran && k.ran[t] == k.cursor + 1 && t in k.running && t in k.accepted
            && IdOf(k.running, t) == k.accepted[t].1 && !HasAnswer(k.answers, t)
  {
    assert OwnOutcome(w.log[k.cursor], k.cursor, k.accepted, k.running, k.ran, k.answers, AnsweredBelow(k));
  }

  lemma OwnSettles(w: World, c: nat, k: Connection, k': Connection)
    requires Commands(w, c, k) && OwnTasks(w, c, k) && k.phase == Idle && k.cursor < |w.log|
    requires w.log[k.cursor].Ran? && w.log[k.cursor].origin == c
    requires var next := Answered(k.(cursor := k.cursor + 1), w.log[k.cursor].ticket, k.cursor + 1);
             k' == next.(subscriptions := k'.subscriptions, processed := k'.processed)
    ensures Settles(k, k', {w.log[k.cursor].ticket})
  {
    OwnIsKept(w, c, k);
    var t := w.log[k.cursor].ticket;
    forall u: nat ensures HasAnswer(k'.answers, u) <==> HasAnswer(k.answers, u) || u == t {
      AnsweredMore(k.answers, k'.answers[|k.answers|], u);
    }
    forall u | u in k.ran ensures u == t <==> k.ran[u] <= k'.cursor { assert RanAt(w.log, w.sending, c, u, k.ran[u]); }
  }

  /** The answer is the latest, and follows everything published before it. */
  lemma AnsweredAnswers(w: World, c: nat, k: Connection, k': Connection, answer: Answer)
    requires Answers(w, c, k) && Subscriptions(w, k) && k.phase == Idle && k.cursor < |w.log|
    requires OutcomeOf(w.log[k.cursor], c, answer.ticket) && answer.ticket in k.accepted
    requires !HasAnswer(k.answers, answer.ticket)
    requires answer == Answer(answer.ticket, k.accepted[answer.ticket].1, k.cursor + 1, k.subscriptions)
    requires k'.answers == k.answers + [answer] && k'.accepted == k.accepted && AnsweredBelow(k') == k.cursor + 1
    ensures Answers(w, c, k')
  {
    forall sub | sub in answer.view ensures Covers(w.log, answer.view[sub], answer.number - 1) {
      assert Subscribed(w.log, w.made, k.processed, ReachedBelow(k, sub), k.subscriptions[sub]);
    }
    forall a | 0 <= a < |k.answers|
      ensures AnswerInv(w.log, c, k'.accepted, AnsweredBelow(k'), k'.answers[a])
      ensures k'.answers[a].number < answer.number && k'.answers[a].ticket != answer.ticket
    {
      assert AnswerInv(w.log, c, k.accepted, AnsweredBelow(k), k.answers[a]);
    }
  }

  /** Delivering changes the subscriptions and what was processed, nothing else. */
  lemma TakeShape(c: nat, k: Connection, p: Publication)
    ensures var k' := TakeAt(c, k, p);
            var next := k.(cursor := k.cursor + 1);
            var answered := if p.Ran? && p.origin == c then Answered(next, p.ticket, k.cursor + 1) else next;
            k' == answered.(subscriptions := k'.subscriptions, processed := k'.processed)
  {}

  lemma TakenCommands(w: World, c: nat, k: Connection)
    requires Numbered(w) && LiveInv(w, c, k) && k.phase == Idle && k.cursor < |w.log|
    ensures var k' := TakeAt(c, k, w.log[k.cursor]); Commands(w, c, k') && OwnTasks(w, c, k') && Answers(w, c, k')
  {
    var p := w.log[k.cursor];
    var k' := TakeAt(c, k, p);
    TakeShape(c, k, p);
    var gone := if p.Ran? && p.origin == c then {p.ticket} else {};
    if p.Ran? && p.origin == c {
      OwnIsKept(w, c, k);
      OwnSettles(w, c, k, k');
      AnsweredAnswers(w, c, k, k', k'.answers[|k.answers|]);
    } else {
      PassSettles(w, c, k, k');
      AnswersKept(w, c, k, k');
    }
    SettlesCommands(w, c, k, k', gone);
    SettlesOwnTasks(w, c, k, k', gone);
  }

  lemma TakenSubscribed(w: World, c: nat, k: Connection, held: Subscription)
    requires Accounted(w) && Processed(w, c, k) && k.cursor < |w.log|
    requires Subscribed(w.log, w.made, k.processed, k.cursor, held)
    ensures var p := w.log[k.cursor];
            var delivered := Delivers(c, p).Some? && Delivers(c, p).value.modification.Some?;
            if delivered
            then Subscribed(w.log, w.made, k.processed + [Delivers(c, p).value.modification.value], k.cursor + 1,
                            Offer(held, Delivers(c, p).value))
            else Subscribed(w.log, w.made, k.processed, k.cursor + 1, held)
  {
    var p := w.log[k.cursor];
    assert InLog(w, k.cursor);
    if Delivers(c, p).Some? && Delivers(c, p).value.modification.Some? {
      var change := Delivers(c, p).value;
      DeliverSubscribed(w.log, w.made, k.processed, k.cursor, held, change);
      ReachedFurther(w.log, w.made, k.processed + [change.modification.value], k.cursor, Offer(held, change));
    } else {
      assert OwnProcessed(p, c, k.processed);
      if Carried(p).Some? && Wanted(held, Carried(p).value) {
        OfferedMember(w.made, k.processed, held, Carried(p).value.modification.value);
      }
      ReachedFurther(w.log, w.made, k.processed, k.cursor, held);
    }
  }

  lemma TakenSubscriptions(w: World, c: nat, k: Connection)
    requires WorldInv(w) && LiveInv(w, c, k) && k.phase == Idle && k.cursor < |w.log|
    ensures Subscriptions(w, TakeAt(c, k, w.log[k.cursor]))
  {
    var k' := TakeAt(c, k, w.log[k.cursor]);
    forall sub | sub in k'.subscriptions
      ensures sub < k'.nextSubscription
      ensures Subscribed(w.log, w.made, k'.processed, ReachedBelow(k', sub), k'.subscriptions[sub])
    {
      TakenSubscribed(w, c, k, k.subscriptions[sub]);
    }
  }

  /** Delivering what no one delivered here before, from the place the log holds it. */
  lemma ProcessedMore(w: World, c: nat, k: Connection, k': Connection, n: nat)
    requires Accounted(w) && Processed(w, c, k) && k.phase == Idle && k.cursor < |w.log|
    requires Carries(w.log[k.cursor], n) && n !in k.processed
    requires k'.phase == Idle && k'.cursor == k.cursor + 1 && k'.processed == k.processed + [n]
    ensures Processed(w, c, k')
  {
    assert InLog(w, k.cursor);
    forall i | k'.cursor <= i < |w.log| ensures FreshTo(w.log[i], c, k'.processed) {
      assert FreshTo(w.log[i], c, k.processed) && InLog(w, i);
    }
    forall i | 0 <= i < |w.log| ensures OwnProcessed(w.log[i], c, k'.processed) {
      assert OwnProcessed(w.log[i], c, k.processed);
    }
  }

  lemma TakenProcessed(w: World, c: nat, k: Connection)
    requires Accounted(w) && Processed(w, c, k) && k.phase == Idle && k.cursor < |w.log|
    ensures Processed(w, c, TakeAt(c, k, w.log[k.cursor]))
  {
    var p := w.log[k.cursor];
    assert FreshTo(p, c, k.processed);
    if Delivers(c, p).Some? && Delivers(c, p).value.modification.Some? {
      ProcessedMore(w, c, k, TakeAt(c, k, p), Delivers(c, p).value.modification.value);
    }
  }

  lemma TakenPhase(w: World, c: nat, k: Connection)
    requires WorldInv(w) && PhaseInv(w, c, k) && k.phase == Idle && k.cursor < |w.log| && !w.log[k.cursor].Closing?
    ensures PhaseInv(w, c, TakeAt(c, k, w.log[k.cursor]))
  {}

  lemma TakeKeeps(s: Server, c: nat)
    requires Inv(s) && InPhase(s, c, Idle) && s.connections[c].cursor < |s.w.log|
    requires !s.w.log[s.connections[c].cursor].Closing?
    ensures Inv(WithConnection(s, c, TakeAt(c, s.connections[c], s.w.log[s.connections[c].cursor])))
  {
    var k := s.connections[c];
    TakenPhase(s.w, c, k);
    TakenCommands(s.w, c, k);
    TakenSubscriptions(s.w, c, k);
    TakenProcessed(s.w, c, k);
    KeepConnection(s, c, TakeAt(c, k, s.w.log[k.cursor]));
  }

  /** Once the closing publication is numbered, every running command's outcome is before it. */
  lemma RunningPrecedesClosing(w: World, c: nat, k: Connection, t: nat)
    requires Numbered(w) && Quiet(w) && Commands(w, c, k) && w.closingAt > 0 && t in k.running
    ensures t in k.ran && k.ran[t] < w.closingAt
  {
    assert t !in k.ran ==> !InFlight(w.tasks, k.accepted[t].0, c, t);
    assert RanAt(w.log, w.sending, c, t, k.ran[t]);
  }

  /** Taking the closing publication, the connection owes no answer. */
  lemma ClosingFindsNoneRunning(w: World, c: nat, k: Connection)
    requires WorldInv(w) && Commands(w, c, k) && k.phase == Idle && k.cursor < |w.log| && w.log[k.cursor].Closing?
    ensures w.closingAt > 0 && k.running == map[]
  {
    assert w.closingAt == k.cursor + 1;
    forall t | t in k.running ensures t in k.ran && k.ran[t] <= k.cursor { RunningPrecedesClosing(w, c, k, t); }
    assert k.running.Keys == {};
  }

  lemma TakeClosingKeeps(s: Server, c: nat)
    requires Inv(s) && InPhase(s, c, Idle) && s.connections[c].cursor < |s.w.log|
    requires s.w.log[s.connections[c].cursor].Closing?
    ensures Inv(End(s, c, true))
  {
    ClosingFindsNoneRunning(s.w, c, s.connections[c]);
    EndKeeps(s, c, true);
  }
}
