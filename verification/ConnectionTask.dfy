/**
 The loop that serves one connection: what it keeps in `running`, `ran` and its subscriptions, and
 how it changes them. Each method is proved against the protocol's own account of the step.
 */
module ConnectionTask {
  import opened Wrappers
  import opened Publications

  class ServedConnection {
    const origin: nat
    var cursor: nat
    var running: map<nat, Option<nat>>
    var ran: map<nat, nat>
    var subscriptions: map<nat, Subscription>
    var processed: seq<nat>
    var answers: seq<Answer>
    // What these methods leave alone.
    var phase: Phase
    var tickets: nat
    var nextSubscription: nat
    var accepted: map<nat, (nat, Option<nat>)>

    function View(): Connection
      reads this
    {
      Connection(phase, cursor, tickets, running, ran, subscriptions, nextSubscription, accepted, processed, answers)
    }

    constructor (origin: nat, k: Connection)
      ensures this.origin == origin && View() == k
    {
      this.origin := origin;
      cursor, running, ran, subscriptions := k.cursor, k.running, k.ran, k.subscriptions;
      processed, answers, phase, tickets := k.processed, k.answers, k.phase, k.tickets;
      nextSubscription, accepted := k.nextSubscription, k.accepted;
    }

    /** Asks each subscription the change affects for its patch, one at a time. */
    method DeliverChange(change: Change)
      modifies this
      ensures View() == Deliver(old(View()), change)
    {
      if change.modification.None? {
        return;
      }
      var before := subscriptions;
      var left := before.Keys;
      while left != {}
        invariant left <= before.Keys == subscriptions.Keys
        invariant forall id | id in before ::
                    subscriptions[id] == if id in left then before[id] else Offer(before[id], change)
        invariant View() == old(View()).(subscriptions := subscriptions)
        decreases |left|
      {
        var id :| id in left;
        subscriptions := subscriptions[id := Offer(subscriptions[id], change)];
        left := left - {id};
      }
      assert subscriptions == map id | id in before :: Offer(before[id], change);
      processed := processed + [change.modification.value];
    }

    /** Sends the response to one of the connection's own commands. */
    method AnswerCommand(ticket: nat, number: nat)
      modifies this
      ensures View() == Answered(old(View()), ticket, number)
    {
      var id := if ticket in running then running[ticket] else None;
      answers := answers + [Answer(ticket, id, number, subscriptions)];
      ran := ran - {ticket};
      running := running - {ticket};
    }

    /** Takes the publication its receiver brings next, and says whether it closes the connection. */
    method TakeNext(p: Publication) returns (closes: bool)
      modifies this
      ensures View() == TakeAt(origin, old(View()), p)
      ensures closes <==> p.Closing?
    {
      closes := false;
      cursor := cursor + 1;
      match p
      case Served(from, change) =>
        if from != origin {
          DeliverChange(change);
        }
      case Announced(change) => DeliverChange(change);
      case Ran(from, ticket, outcome) =>
        if from == origin {
          AnswerCommand(ticket, cursor);
        }
        if outcome.Done? {
          DeliverChange(outcome.change);
        }
      case Stored =>
      case Closing => closes := true;
    }

    /** Sends every subscription a snapshot that holds everything saved when it is taken. */
    method ResyncAll(saved: nat -> nat)
      modifies this
      ensures View() == old(View()).(subscriptions := subscriptions)
      ensures subscriptions.Keys == old(subscriptions.Keys)
      ensures forall id | id in subscriptions :: subscriptions[id] == Resynced(old(subscriptions)[id], saved(id))
    {
      var before := subscriptions;
      var left := before.Keys;
      while left != {}
        invariant left <= before.Keys == subscriptions.Keys
        invariant forall id | id in before ::
                    subscriptions[id] == if id in left then before[id] else Resynced(before[id], saved(id))
        invariant View() == old(View()).(subscriptions := subscriptions)
        decreases |left|
      {
        var id :| id in left;
        subscriptions := subscriptions[id := Resynced(subscriptions[id], saved(id))];
        left := left - {id};
      }
    }

    /** Answers, in the order they were published, the commands whose outcome it skipped. */
    method AnswerSkipped(skipped: nat) returns (order: seq<(nat, nat)>)
      requires forall t, u | t in ran && u in ran && ran[t] == ran[u] :: t == u
      modifies this
      ensures IsSkippedOrder(old(ran), skipped, order)
      ensures View() == AnsweredAll(old(View()), order)
    {
      order := SkippedOrder(ran, skipped);
      var before := View();
      var i := 0;
      assert order[0..] == order;
      while i < |order|
        invariant 0 <= i <= |order|
        invariant AnsweredAll(View(), order[i..]) == AnsweredAll(before, order)
      {
        assert order[i..][1..] == order[i + 1..];
        AnswerCommand(order[i].0, order[i].1);
        i := i + 1;
      }
    }
  }

  predicate Ascending(order: seq<(nat, nat)>) {
    forall i, j | 0 <= i < j < |order| :: order[i].1 < order[j].1
  }

  /** `entry` put at its place among entries already in order. */
  method InsertByNumber(order: seq<(nat, nat)>, entry: (nat, nat)) returns (sorted: seq<(nat, nat)>)
    requires Ascending(order) && forall i | 0 <= i < |order| :: order[i].1 != entry.1
    ensures Ascending(sorted) && |sorted| == |order| + 1
    ensures forall e :: e in sorted <==> e in order || e == entry
  {
    var at := 0;
    while at < |order| && order[at].1 < entry.1
      invariant 0 <= at <= |order|
      invariant forall i | 0 <= i < at :: order[i].1 < entry.1
    {
      at := at + 1;
    }
    var low, high := order[..at], order[at..];
    assert order == low + high;
    sorted := low + [entry] + high;
    assert forall e :: e in sorted <==> e in low || e == entry || e in high;
  }

  /** The commands that ran at or below `skipped`, sorted by their publication's number. */
  method SkippedOrder(ran: map<nat, nat>, skipped: nat) returns (order: seq<(nat, nat)>)
    requires forall t, u | t in ran && u in ran && ran[t] == ran[u] :: t == u
    ensures IsSkippedOrder(ran, skipped, order)
  {
    order := [];
    var left := ran.Keys;
    while left != {}
      invariant left <= ran.Keys && Ascending(order)
      invariant forall e | e in order :: e.0 in ran && e.0 !in left && ran[e.0] == e.1 <= skipped
      invariant forall t | t in ran && t !in left && ran[t] <= skipped :: (t, ran[t]) in order
      decreases |left|
    {
      var ticket :| ticket in left;
      left := left - {ticket};
      if ran[ticket] <= skipped {
        forall i | 0 <= i < |order| ensures order[i].1 != ran[ticket] { assert order[i] in order; }
        order := InsertByNumber(order, (ticket, ran[ticket]));
      }
    }
  }
}
