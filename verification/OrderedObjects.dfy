/**
 JSON objects in ECMAScript property order (section 10.1.11.1 of ECMA-262): array indices first,
 ascending, then every other key in the order it was first inserted in.
 */
module OrderedObjects {
  import opened Wrappers

  // ---------------------------------------------------------------- array indices

  predicate IsDigit(c: char) { '0' <= c <= '9' }

  function DigitValue(c: char): nat
    requires IsDigit(c)
  {
    c as int - '0' as int
  }

  predicate AllDigits(s: string) { forall i | 0 <= i < |s| :: IsDigit(s[i]) }

  function NumberOf(s: string): nat
    requires AllDigits(s)
  {
    if s == "" then 0 else NumberOf(s[..|s| - 1]) * 10 + DigitValue(s[|s| - 1])
  }

  /** Written without needless zeros. */
  predicate IsCanonical(s: string) { s == "0" || (s != "" && s[0] != '0') }

  /** The key as an array index, if it is one: a number below 2^32 - 1, written canonically. */
  function ArrayIndex(key: string): Option<nat> {
    if IsCanonical(key) && AllDigits(key) && NumberOf(key) < 0xFFFF_FFFF then Some(NumberOf(key)) else None
  }

  lemma {:induction false} NumberIsPositive(s: string)
    requires AllDigits(s) && s != "" && s[0] != '0'
    ensures NumberOf(s) > 0
    decreases |s|
  {
    if |s| > 1 { NumberIsPositive(s[..|s| - 1]); }
  }

  /** Two keys are the same array index only if they are the same key. */
  lemma {:induction false} IndexIsOne(a: string, b: string)
    requires AllDigits(a) && AllDigits(b) && IsCanonical(a) && IsCanonical(b) && NumberOf(a) == NumberOf(b)
    ensures a == b
    decreases |a|
  {
    if a != "0" { NumberIsPositive(a); }
    if b != "0" { NumberIsPositive(b); }
    assert NumberOf("0") == 0 by { assert "0"[..0] == ""; }
    if a != "0" && b != "0" {
      var a', b' := a[..|a| - 1], b[..|b| - 1];
      assert a == a' + [a[|a| - 1]] && b == b' + [b[|b| - 1]];
      LastDigit(NumberOf(a'), DigitValue(a[|a| - 1]), NumberOf(b'), DigitValue(b[|b| - 1]));
      if |a| > 1 { NumberIsPositive(a'); }
      if |b| > 1 { NumberIsPositive(b'); }
      if |a| > 1 && |b| > 1 { IndexIsOne(a', b'); }
    }
  }

  lemma {:induction false} LastDigit(p: nat, x: nat, q: nat, y: nat)
    requires x < 10 && y < 10 && p * 10 + x == q * 10 + y
    ensures p == q && x == y
  {
  }

  // ---------------------------------------------------------------- objects

  datatype Entry<V> = Entry(key: string, value: V)

  predicate Has<V>(entries: seq<Entry<V>>, key: string) { exists i | 0 <= i < |entries| :: entries[i].key == key }

  /** How many entries lead up to an index: those of smaller ones. */
  function LeadingBelow<V>(entries: seq<Entry<V>>, index: nat): (count: nat)
    ensures count <= |entries|
    ensures forall i | 0 <= i < count :: ArrayIndex(entries[i].key).Some? && ArrayIndex(entries[i].key).value < index
    ensures count < |entries| ==> ArrayIndex(entries[count].key).None? || ArrayIndex(entries[count].key).value >= index
  {
    if entries != [] && ArrayIndex(entries[0].key).Some? && ArrayIndex(entries[0].key).value < index
    then 1 + LeadingBelow(entries[1..], index) else 0
  }

  function Replaced<V>(entries: seq<Entry<V>>, key: string, value: V): seq<Entry<V>> {
    seq(|entries|, i requires 0 <= i < |entries| => if entries[i].key == key then Entry(key, value) else entries[i])
  }

  /** The object with a key assigned: an existing one keeps its place. */
  function Inserted<V>(entries: seq<Entry<V>>, key: string, value: V): seq<Entry<V>> {
    if Has(entries, key) then Replaced(entries, key, value)
    else match ArrayIndex(key)
      case Some(index) =>
        var at := LeadingBelow(entries, index);
        entries[..at] + [Entry(key, value)] + entries[at..]
      case None => entries + [Entry(key, value)]
  }

  /** The place of a key's first insertion, or the end. */
  function FirstOf<V>(history: seq<Entry<V>>, key: string): (at: nat)
    ensures at <= |history| && (forall i | 0 <= i < at :: history[i].key != key) && (at < |history| ==> history[at].key == key)
    ensures Has(history, key) <==> at < |history|
  {
    if history == [] then 0 else if history[0].key == key then 0 else 1 + FirstOf(history[1..], key)
  }

  /** Where a key stands in property order, when its object was built by inserting in turn. */
  predicate Precedes<V>(history: seq<Entry<V>>, a: string, b: string) {
    match (ArrayIndex(a), ArrayIndex(b))
    case (Some(i), Some(j)) => i < j
    case (Some(_), None) => true
    case (None, Some(_)) => false
    case (None, None) => FirstOf(history, a) < FirstOf(history, b)
  }

  ghost predicate LastValue<V>(history: seq<Entry<V>>, key: string, value: V) {
    exists i :: 0 <= i < |history| && history[i] == Entry(key, value) && forall j | i < j < |history| :: history[j].key != key
  }

  /** The object is what a history of insertions makes: each key inserted is there once, with the
      value inserted last, in property order. */
  ghost predicate IsBuilt<V(!new)>(entries: seq<Entry<V>>, history: seq<Entry<V>>) {
    && (forall key :: Has(entries, key) <==> Has(history, key))
    && (forall i | 0 <= i < |entries| :: LastValue(history, entries[i].key, entries[i].value))
    && (forall i, j | 0 <= i < j < |entries| :: Precedes(history, entries[i].key, entries[j].key))
  }

  // ---------------------------------------------------------------- insertions

  lemma {:induction false} FirstOfMore<V>(history: seq<Entry<V>>, entry: Entry<V>, key: string)
    ensures FirstOf(history + [entry], key) ==
            if Has(history, key) then FirstOf(history, key) else if entry.key == key then |history| else |history| + 1
  {
    var more := history + [entry];
    assert forall i | 0 <= i < |history| :: more[i] == history[i];
    assert more[|history|] == entry;
  }

  lemma {:induction false} LastValueMore<V>(history: seq<Entry<V>>, entry: Entry<V>, key: string, value: V)
    requires if entry.key == key then entry.value == value else LastValue(history, key, value)
    ensures LastValue(history + [entry], key, value)
  {
    var more := history + [entry];
    if entry.key == key {
      assert more[|history|] == Entry(key, value);
    } else {
      var i :| 0 <= i < |history| && history[i] == Entry(key, value) && forall j | i < j < |history| :: history[j].key != key;
      assert more[i] == history[i];
      forall j | i < j < |more| ensures more[j].key != key { if j < |history| { assert more[j] == history[j]; } }
    }
  }

  lemma {:induction false} HasMore<V>(history: seq<Entry<V>>, entry: Entry<V>, key: string)
    ensures Has(history + [entry], key) <==> Has(history, key) || entry.key == key
  {
    FirstOfMore(history, entry, key);
  }

  /** A key inserted before keeps its place among the others. */
  lemma {:induction false} PrecedesMore<V>(history: seq<Entry<V>>, entry: Entry<V>, a: string, b: string)
    requires Has(history, a) && Has(history, b) && Precedes(history, a, b)
    ensures Precedes(history + [entry], a, b)
  {
    FirstOfMore(history, entry, a);
    FirstOfMore(history, entry, b);
  }

  lemma {:induction false} InsertedBuilds<V(!new)>(entries: seq<Entry<V>>, history: seq<Entry<V>>, key: string, value: V)
    requires IsBuilt(entries, history)
    ensures IsBuilt(Inserted(entries, key, value), history + [Entry(key, value)])
  {
    var entry := Entry(key, value);
    forall k ensures Has(history + [entry], k) <==> Has(history, k) || k == key { HasMore(history, entry, k); }
    forall i | 0 <= i < |entries| ensures Has(history, entries[i].key) { assert Has(entries, entries[i].key); }
    if Has(entries, key) { ReplacedBuilds(entries, history, key, value); }
    else if ArrayIndex(key).Some? { IndexBuilds(entries, history, key, value); }
    else { AppendedBuilds(entries, history, key, value); }
  }

  lemma {:induction false} ReplacedBuilds<V(!new)>(entries: seq<Entry<V>>, history: seq<Entry<V>>, key: string, value: V)
    requires IsBuilt(entries, history) && Has(entries, key) && forall i | 0 <= i < |entries| :: Has(history, entries[i].key)
    requires forall k :: Has(history + [Entry(key, value)], k) <==> Has(history, k) || k == key
    ensures IsBuilt(Replaced(entries, key, value), history + [Entry(key, value)])
  {
    var entry, after := Entry(key, value), Replaced(entries, key, value);
    assert forall i | 0 <= i < |after| :: after[i].key == entries[i].key;
    forall k ensures Has(after, k) <==> Has(entries, k) {
      if Has(entries, k) { var i :| 0 <= i < |entries| && entries[i].key == k; assert after[i].key == k; }
    }
    forall i | 0 <= i < |after| ensures LastValue(history + [entry], after[i].key, after[i].value) {
      LastValueMore(history, entry, after[i].key, after[i].value);
    }
    forall i, j | 0 <= i < j < |after| ensures Precedes(history + [entry], after[i].key, after[j].key) {
      PrecedesMore(history, entry, entries[i].key, entries[j].key);
    }
  }

  /** A new key, put where it belongs. */
  lemma {:induction false} PlacedBuilds<V(!new)>(entries: seq<Entry<V>>, history: seq<Entry<V>>, key: string, value: V, at: nat)
    requires IsBuilt(entries, history) && !Has(entries, key) && at <= |entries|
    requires forall i | 0 <= i < |entries| :: Has(history, entries[i].key)
    requires forall k :: Has(history + [Entry(key, value)], k) <==> Has(history, k) || k == key
    requires forall i | 0 <= i < at :: Precedes(history + [Entry(key, value)], entries[i].key, key)
    requires forall i | at <= i < |entries| :: Precedes(history + [Entry(key, value)], key, entries[i].key)
    ensures IsBuilt(entries[..at] + [Entry(key, value)] + entries[at..], history + [Entry(key, value)])
  {
    var entry, more, after := Entry(key, value), history + [Entry(key, value)], entries[..at] + [Entry(key, value)] + entries[at..];
    PlacedAt(entries, entry, at);
    assert forall i | 0 <= i < |entries| :: entries[i].key != key;
    forall k ensures Has(after, k) <==> Has(entries, k) || k == key { PlacedHas(entries, entry, at, k); }
    forall i | 0 <= i < |after| ensures LastValue(more, after[i].key, after[i].value) {
      LastValueMore(history, entry, after[i].key, after[i].value);
    }
    PlacedOrder(entries, history, entry, at);
  }

  lemma {:induction false} PlacedAt<V>(entries: seq<Entry<V>>, entry: Entry<V>, at: nat)
    requires at <= |entries|
    ensures var after := entries[..at] + [entry] + entries[at..];
            |after| == |entries| + 1
            && forall i | 0 <= i < |after| :: after[i] == if i < at then entries[i] else if i == at then entry else entries[i - 1]
  {
  }

  lemma {:induction false} PlacedHas<V>(entries: seq<Entry<V>>, entry: Entry<V>, at: nat, k: string)
    requires at <= |entries|
    ensures Has(entries[..at] + [entry] + entries[at..], k) <==> Has(entries, k) || entry.key == k
  {
    var after := entries[..at] + [entry] + entries[at..];
    PlacedAt(entries, entry, at);
    if Has(entries, k) {
      var i :| 0 <= i < |entries| && entries[i].key == k;
      assert after[if i < at then i else i + 1].key == k;
    }
    assert after[at] == entry;
  }

  lemma {:induction false} PlacedOrder<V(!new)>(entries: seq<Entry<V>>, history: seq<Entry<V>>, entry: Entry<V>, at: nat)
    requires at <= |entries| && forall i | 0 <= i < |entries| :: Has(history, entries[i].key)
    requires forall i, j | 0 <= i < j < |entries| :: Precedes(history, entries[i].key, entries[j].key)
    requires forall i | 0 <= i < at :: Precedes(history + [entry], entries[i].key, entry.key)
    requires forall i | at <= i < |entries| :: Precedes(history + [entry], entry.key, entries[i].key)
    ensures var after := entries[..at] + [entry] + entries[at..];
            forall i, j | 0 <= i < j < |after| :: Precedes(history + [entry], after[i].key, after[j].key)
  {
    var after := entries[..at] + [entry] + entries[at..];
    PlacedAt(entries, entry, at);
    forall i, j | 0 <= i < j < |after| ensures Precedes(history + [entry], after[i].key, after[j].key) {
      if i != at && j != at {
        var x, y := if i < at then i else i - 1, if j < at then j else j - 1;
        PrecedesMore(history, entry, entries[x].key, entries[y].key);
      }
    }
  }

  lemma {:induction false} IndexBuilds<V(!new)>(entries: seq<Entry<V>>, history: seq<Entry<V>>, key: string, value: V)
    requires IsBuilt(entries, history) && !Has(entries, key) && ArrayIndex(key).Some?
    requires forall i | 0 <= i < |entries| :: Has(history, entries[i].key)
    requires forall k :: Has(history + [Entry(key, value)], k) <==> Has(history, k) || k == key
    ensures IsBuilt(Inserted(entries, key, value), history + [Entry(key, value)])
  {
    var index := ArrayIndex(key).value;
    var at := LeadingBelow(entries, index);
    forall i | at <= i < |entries| ensures Precedes(history + [Entry(key, value)], key, entries[i].key) {
      if ArrayIndex(entries[at].key) == Some(index) { IndexIsOne(entries[at].key, key); }
      if i > at { assert Precedes(history, entries[at].key, entries[i].key); }
    }
    PlacedBuilds(entries, history, key, value, at);
  }

  lemma {:induction false} AppendedBuilds<V(!new)>(entries: seq<Entry<V>>, history: seq<Entry<V>>, key: string, value: V)
    requires IsBuilt(entries, history) && !Has(entries, key) && ArrayIndex(key).None?
    requires forall i | 0 <= i < |entries| :: Has(history, entries[i].key)
    requires forall k :: Has(history + [Entry(key, value)], k) <==> Has(history, k) || k == key
    ensures IsBuilt(Inserted(entries, key, value), history + [Entry(key, value)])
  {
    forall i | 0 <= i < |entries| ensures Precedes(history + [Entry(key, value)], entries[i].key, key) {
      FirstOfMore(history, Entry(key, value), entries[i].key);
      FirstOfMore(history, Entry(key, value), key);
    }
    PlacedBuilds(entries, history, key, value, |entries|);
    assert entries[..|entries|] + [Entry(key, value)] + entries[|entries|..] == entries + [Entry(key, value)];
  }

  /** An object changed in place, with the insertions that made it. */
  class OrderedObject<V(!new)> {
    var entries: seq<Entry<V>>
    ghost var history: seq<Entry<V>>

    ghost predicate Valid()
      reads this
    {
      IsBuilt(entries, history)
    }

    constructor ()
      ensures Valid() && entries == [] && history == []
    {
      entries, history := [], [];
    }

    method Insert(key: string, value: V)
      requires Valid()
      modifies this
      ensures Valid() && entries == Inserted(old(entries), key, value) && history == old(history) + [Entry(key, value)]
    {
      InsertedBuilds(entries, history, key, value);
      history := history + [Entry(key, value)];
      var position := 0;
      while position < |entries| && entries[position].key != key
        invariant position <= |entries| && forall i | 0 <= i < position :: entries[i].key != key
        invariant entries == old(entries) && IsBuilt(Inserted(entries, key, value), history) && history == old(history) + [Entry(key, value)]
      {
        position := position + 1;
      }
      if position < |entries| {
        KeysDiffer(entries, old(history), position);
        assert entries[position := Entry(key, value)] == Inserted(entries, key, value);
        entries := entries[position := Entry(key, value)];
        return;
      }
      var index := ArrayIndex(key);
      if index.Some? {
        var at := LeadingBelow(entries, index.value);
        entries := entries[..at] + [Entry(key, value)] + entries[at..];
      } else {
        entries := entries + [Entry(key, value)];
      }
    }

    /** Assigns every entry of another object in turn. */
    method Spread(other: seq<Entry<V>>)
      requires Valid()
      modifies this
      ensures Valid() && history == old(history) + other
    {
      for i := 0 to |other|
        invariant Valid() && history == old(history) + other[..i]
      {
        Insert(other[i].key, other[i].value);
        assert other[..i] + [other[i]] == other[..i + 1];
      }
      assert other[..|other|] == other;
    }
  }

  lemma {:induction false} KeysDiffer<V(!new)>(entries: seq<Entry<V>>, history: seq<Entry<V>>, at: nat)
    requires IsBuilt(entries, history) && at < |entries|
    ensures forall i | 0 <= i < |entries| && i != at :: entries[i].key != entries[at].key
  {
    forall i | 0 <= i < |entries| && i != at ensures entries[i].key != entries[at].key {
      if i < at { assert Precedes(history, entries[i].key, entries[at].key); } else { assert Precedes(history, entries[at].key, entries[i].key); }
    }
  }
}
