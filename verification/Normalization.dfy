/** The normalised document: every object's keys in the collation's order, however it was written. */
module Normalization {
  import opened Wrappers
  import opened OrderedObjects
  import opened Numbers

  /** A document whose objects have an order. */
  datatype Ordered =
    | Null
    | Bool(b: bool)
    | Num(number: Decimal)
    | Text(s: string)
    | List(items: seq<Ordered>)
    | Object(entries: Entries)

  type Entries = seq<Entry<Ordered>>

  /** Whether one key sorts no later than another. */
  type Collation = (string, string) -> bool

  ghost predicate Distinct(entries: Entries) { forall i, j | 0 <= i < j < |entries| :: entries[i].key != entries[j].key }

  /** Objects have each key once, here and inside. */
  ghost predicate WellFormed(value: Ordered) {
    match value
    case List(items) => forall i | 0 <= i < |items| :: WellFormed(items[i])
    case Object(entries) => Distinct(entries) && forall i | 0 <= i < |entries| :: WellFormed(entries[i].value)
    case _ => true
  }

  function KeysOf(entries: Entries): set<string> { set i | 0 <= i < |entries| :: entries[i].key }

  /** The collation orders the keys and separates any two of them. */
  ghost predicate Orders(leq: Collation, keys: set<string>) {
    && Ranks(leq, keys)
    && (forall a, b {:trigger leq(a, b)} | a in keys && b in keys && leq(a, b) && leq(b, a) :: a == b)
  }

  /** The collation compares any two of the keys, perhaps as equal. */
  ghost predicate Ranks(leq: Collation, keys: set<string>) {
    && (forall a, b {:trigger leq(a, b)} | a in keys && b in keys :: leq(a, b) || leq(b, a))
    && (forall a, b, c {:trigger leq(a, b), leq(b, c)} | a in keys && b in keys && c in keys && leq(a, b) && leq(b, c) :: leq(a, c))
  }

  ghost predicate Separates(leq: Collation, value: Ordered) {
    match value
    case List(items) => forall i | 0 <= i < |items| :: Separates(leq, items[i])
    case Object(entries) => Orders(leq, KeysOf(entries)) && forall i | 0 <= i < |entries| :: Separates(leq, entries[i].value)
    case _ => true
  }

  ghost predicate RanksAll(leq: Collation, value: Ordered) {
    match value
    case List(items) => forall i | 0 <= i < |items| :: RanksAll(leq, items[i])
    case Object(entries) => Ranks(leq, KeysOf(entries)) && forall i | 0 <= i < |entries| :: RanksAll(leq, entries[i].value)
    case _ => true
  }

  /** The documents are equal but for the order of keys. */
  ghost predicate SameUpToOrder(a: Ordered, b: Ordered)
    decreases a
  {
    match (a, b)
    case (List(x), List(y)) => |x| == |y| && forall i | 0 <= i < |x| :: SameUpToOrder(x[i], y[i])
    case (Object(x), Object(y)) =>
      KeysOf(x) == KeysOf(y)
      && forall i, j | 0 <= i < |x| && 0 <= j < |y| && x[i].key == y[j].key :: SameUpToOrder(x[i].value, y[j].value)
    case _ => a == b
  }

  // ---------------------------------------------------------------- sorting

  /** The entry put before the first that does not sort before it. */
  function Placed(leq: Collation, entry: Entry<Ordered>, sorted: Entries): Entries {
    if sorted == [] || leq(entry.key, sorted[0].key) then [entry] + sorted
    else [sorted[0]] + Placed(leq, entry, sorted[1..])
  }

  function Sorted(leq: Collation, entries: Entries): Entries {
    if entries == [] then [] else Placed(leq, entries[0], Sorted(leq, entries[1..]))
  }

  ghost predicate Ascending(leq: Collation, entries: Entries) {
    forall i, j | 0 <= i < j < |entries| :: leq(entries[i].key, entries[j].key)
  }

  /** `value` with every object's keys in the collation's order, array indices ahead. */
  function DeepSort(leq: Collation, value: Ordered): Ordered {
    match value
    case List(items) => List(seq(|items|, i requires 0 <= i < |items| => DeepSort(leq, items[i])))
    case Object(entries) =>
      Object(Collected(Sorted(leq, seq(|entries|, i requires 0 <= i < |entries| => Entry(entries[i].key, DeepSort(leq, entries[i].value))))))
    case _ => value
  }

  function Deepened(leq: Collation, entries: Entries): Entries {
    seq(|entries|, i requires 0 <= i < |entries| => Entry(entries[i].key, DeepSort(leq, entries[i].value)))
  }

  /** An object of the entries, inserted in turn. */
  function Collected(entries: Entries): Entries {
    if entries == [] then [] else Inserted(Collected(entries[..|entries| - 1]), entries[|entries| - 1].key, entries[|entries| - 1].value)
  }

  // ---------------------------------------------------------------- what sorting does

  lemma {:induction false} PlacedHolds(leq: Collation, entry: Entry<Ordered>, sorted: Entries)
    ensures |Placed(leq, entry, sorted)| == |sorted| + 1
    ensures forall e :: e in Placed(leq, entry, sorted) <==> e == entry || e in sorted
    decreases |sorted|
  {
    if sorted != [] {
      PlacedHolds(leq, entry, sorted[1..]);
      assert sorted == [sorted[0]] + sorted[1..];
    }
  }

  lemma {:induction false} PlacedIsSorted(leq: Collation, entry: Entry<Ordered>, sorted: Entries, keys: set<string>)
    requires Ascending(leq, sorted) && Ranks(leq, keys) && entry.key in keys && KeysOf(sorted) <= keys
    ensures Ascending(leq, Placed(leq, entry, sorted))
    decreases |sorted|
  {
    assert forall i | 0 <= i < |sorted| :: sorted[i].key in KeysOf(sorted);
    if sorted != [] && !leq(entry.key, sorted[0].key) {
      var rest := sorted[1..];
      PlacedIsSorted(leq, entry, rest, keys);
      PlacedHolds(leq, entry, rest);
      var placed := Placed(leq, entry, rest);
      forall j | 0 <= j < |placed| ensures leq(sorted[0].key, placed[j].key) {
        assert placed[j] in placed;
        if placed[j] != entry { var k :| 0 <= k < |rest| && rest[k] == placed[j]; assert sorted[k + 1] == rest[k]; }
      }
    }
  }

  lemma {:induction false} SortedHolds(leq: Collation, entries: Entries)
    ensures |Sorted(leq, entries)| == |entries| && forall e :: e in Sorted(leq, entries) <==> e in entries
    decreases |entries|
  {
    if entries != [] {
      SortedHolds(leq, entries[1..]);
      PlacedHolds(leq, entries[0], Sorted(leq, entries[1..]));
      assert entries == [entries[0]] + entries[1..];
    }
  }

  lemma {:induction false} SortedAscends(leq: Collation, entries: Entries, keys: set<string>)
    requires Ranks(leq, keys) && KeysOf(entries) <= keys
    ensures Ascending(leq, Sorted(leq, entries))
    decreases |entries|
  {
    if entries != [] {
      var rest := entries[1..];
      assert forall i | 0 <= i < |rest| :: rest[i] == entries[i + 1];
      assert forall i | 0 <= i < |entries| :: entries[i].key in KeysOf(entries);
      SortedAscends(leq, rest, keys);
      SortedHolds(leq, rest);
      forall i | 0 <= i < |Sorted(leq, rest)| ensures Sorted(leq, rest)[i].key in keys { assert Sorted(leq, rest)[i] in rest; }
      PlacedIsSorted(leq, entries[0], Sorted(leq, rest), keys);
    }
  }

  /** Sorting entries whose keys differ keeps them different. */
  lemma {:induction false} SortedDistinct(leq: Collation, entries: Entries)
    requires Distinct(entries)
    ensures Distinct(Sorted(leq, entries))
    decreases |entries|
  {
    if entries != [] {
      var rest := entries[1..];
      SortedDistinct(leq, rest);
      SortedHolds(leq, rest);
      forall i | 0 <= i < |Sorted(leq, rest)| ensures Sorted(leq, rest)[i].key != entries[0].key {
        assert Sorted(leq, rest)[i] in rest;
        var k :| 0 <= k < |rest| && rest[k] == Sorted(leq, rest)[i];
        assert entries[k + 1] == rest[k];
      }
      PlacedDistinct(leq, entries[0], Sorted(leq, rest));
    }
  }

  lemma {:induction false} PlacedDistinct(leq: Collation, entry: Entry<Ordered>, sorted: Entries)
    requires Distinct(sorted) && forall i | 0 <= i < |sorted| :: sorted[i].key != entry.key
    ensures Distinct(Placed(leq, entry, sorted))
    decreases |sorted|
  {
    if sorted != [] && !leq(entry.key, sorted[0].key) {
      var rest := sorted[1..];
      PlacedDistinct(leq, entry, rest);
      PlacedHolds(leq, entry, rest);
      var placed := Placed(leq, entry, rest);
      forall j | 0 <= j < |placed| ensures placed[j].key != sorted[0].key {
        assert placed[j] in placed;
        if placed[j] != entry { var k :| 0 <= k < |rest| && rest[k] == placed[j]; assert sorted[k + 1] == rest[k]; }
      }
    }
  }

  /** The same entries, ascending, are in the same order. */
  lemma {:induction false} AscendingIsOne(leq: Collation, a: Entries, b: Entries, keys: set<string>)
    requires Orders(leq, keys) && KeysOf(a) <= keys && Ascending(leq, a) && Ascending(leq, b) && Distinct(a) && Distinct(b)
    requires forall e :: e in a <==> e in b
    ensures a == b
    decreases |a|
  {
    if a == [] {
      EmptyIsEmpty(a, b);
    } else {
      assert a[0] in b && b != [] && b[0] in a;
      FirstIsLeast(leq, a, b, keys);
      var a', b' := a[1..], b[1..];
      assert a == [a[0]] + a' && b == [b[0]] + b';
      forall e ensures e in a' <==> e in b' { RestOf(a, e); RestOf(b, e); }
      forall i | 0 <= i < |a'| ensures a'[i].key in KeysOf(a) { assert a'[i] == a[i + 1]; }
      AscendingIsOne(leq, a', b', keys);
    }
  }

  lemma {:induction false} EmptyIsEmpty(a: Entries, b: Entries)
    requires forall e :: e in a <==> e in b
    ensures |a| == 0 ==> |b| == 0
  {
    if |b| > 0 { assert b[0] in a; }
  }

  lemma {:induction false} RestOf(entries: Entries, e: Entry<Ordered>)
    requires entries != [] && Distinct(entries)
    ensures e in entries[1..] <==> e in entries && e != entries[0]
  {
    if e in entries && e != entries[0] {
      var i :| 0 <= i < |entries| && entries[i] == e;
      assert entries[1..][i - 1] == e;
    }
    if e in entries[1..] {
      var i :| 0 <= i < |entries[1..]| && entries[1..][i] == e;
      assert entries[i + 1] == e;
    }
  }

  lemma {:induction false} FirstIsLeast(leq: Collation, a: Entries, b: Entries, keys: set<string>)
    requires Orders(leq, keys) && KeysOf(a) <= keys && Ascending(leq, a) && Ascending(leq, b) && Distinct(a) && a != [] && b != []
    requires a[0] in b && b[0] in a
    ensures a[0] == b[0]
  {
    var i :| 0 <= i < |a| && a[i] == b[0];
    var j :| 0 <= j < |b| && b[j] == a[0];
    assert a[0].key in KeysOf(a) && a[i].key in KeysOf(a);
    assert leq(a[0].key, a[0].key) && leq(a[i].key, a[i].key);
    assert a[0].key == a[i].key;
  }

  // ---------------------------------------------------------------- one normal form

  /** Entries of the same children, whatever their order, sort to the same. */
  lemma {:induction false} SameSorted(leq: Collation, a: Entries, b: Entries)
    requires Orders(leq, KeysOf(a)) && Distinct(a) && Distinct(b) && forall e :: e in a <==> e in b
    ensures Sorted(leq, a) == Sorted(leq, b)
  {
    SortedHolds(leq, a);
    SortedHolds(leq, b);
    SortedDistinct(leq, a);
    SortedDistinct(leq, b);
    SortedAscends(leq, a, KeysOf(a));
    forall i | 0 <= i < |b| ensures b[i].key in KeysOf(a) {
      assert b[i] in a;
      var k :| 0 <= k < |a| && a[k] == b[i];
    }
    SortedAscends(leq, b, KeysOf(a));
    forall i | 0 <= i < |Sorted(leq, a)| ensures Sorted(leq, a)[i].key in KeysOf(a) {
      assert Sorted(leq, a)[i] in a;
      var k :| 0 <= k < |a| && a[k] == Sorted(leq, a)[i];
    }
    AscendingIsOne(leq, Sorted(leq, a), Sorted(leq, b), KeysOf(a));
  }

  lemma {:induction false} DeepenedKeys(leq: Collation, entries: Entries)
    ensures KeysOf(Deepened(leq, entries)) == KeysOf(entries) && (Distinct(entries) ==> Distinct(Deepened(leq, entries)))
  {
    var deep := Deepened(leq, entries);
    assert forall i | 0 <= i < |entries| :: deep[i].key == entries[i].key;
  }

  /** Documents equal up to the order of keys have one normal form. */
  lemma {:induction false} NormalFormIsOne(leq: Collation, a: Ordered, b: Ordered)
    requires WellFormed(a) && WellFormed(b) && Separates(leq, a) && SameUpToOrder(a, b)
    ensures DeepSort(leq, a) == DeepSort(leq, b)
    decreases a
  {
    match a
    case List(items) =>
      forall i | 0 <= i < |items| ensures DeepSort(leq, items[i]) == DeepSort(leq, b.items[i]) {
        NormalFormIsOne(leq, items[i], b.items[i]);
      }
      assert DeepSort(leq, a).items == DeepSort(leq, b).items;
    case Object(entries) =>
      forall i, j | 0 <= i < |entries| && 0 <= j < |b.entries| && entries[i].key == b.entries[j].key
        ensures DeepSort(leq, entries[i].value) == DeepSort(leq, b.entries[j].value)
      {
        NormalFormIsOne(leq, entries[i].value, b.entries[j].value);
      }
      ObjectFormIsOne(leq, entries, b.entries);
    case _ =>
  }

  lemma {:induction false} ObjectFormIsOne(leq: Collation, a: Entries, b: Entries)
    requires Orders(leq, KeysOf(a)) && Distinct(a) && Distinct(b) && KeysOf(a) == KeysOf(b)
    requires forall i, j | 0 <= i < |a| && 0 <= j < |b| && a[i].key == b[j].key ::
               DeepSort(leq, a[i].value) == DeepSort(leq, b[j].value)
    ensures DeepSort(leq, Object(a)) == DeepSort(leq, Object(b))
  {
    var x, y := Deepened(leq, a), Deepened(leq, b);
    forall e | e in x ensures e in y {
      var i :| 0 <= i < |x| && x[i] == e;
      assert a[i].key in KeysOf(b);
      var j :| 0 <= j < |b| && b[j].key == a[i].key;
      assert y[j] == e;
    }
    forall e | e in y ensures e in x {
      var j :| 0 <= j < |y| && y[j] == e;
      assert b[j].key in KeysOf(a);
      var i :| 0 <= i < |a| && a[i].key == b[j].key;
      assert x[i] == e;
    }
    DeepenedKeys(leq, a);
    DeepenedKeys(leq, b);
    SameSorted(leq, x, y);
  }

  lemma {:induction false} CollectedIsBuilt(entries: Entries)
    ensures IsBuilt(Collected(entries), entries)
    decreases |entries|
  {
    if entries != [] {
      var fewer, last := entries[..|entries| - 1], entries[|entries| - 1];
      CollectedIsBuilt(fewer);
      InsertedBuilds(Collected(fewer), fewer, last.key, last.value);
      assert entries == fewer + [last] && last == Entry(last.key, last.value);
    }
  }

  /** Collecting entries whose keys differ only moves array indices ahead. */
  lemma {:induction false} CollectedHolds(entries: Entries)
    requires Distinct(entries)
    ensures Distinct(Collected(entries)) && forall e :: e in Collected(entries) <==> e in entries
  {
    CollectedIsBuilt(entries);
    var made := Collected(entries);
    forall i, j | 0 <= i < j < |made| ensures made[i].key != made[j].key { assert Precedes(entries, made[i].key, made[j].key); }
    forall e | e in made ensures e in entries {
      var i :| 0 <= i < |made| && made[i] == e;
      assert LastValue(entries, made[i].key, made[i].value);
    }
    forall e | e in entries ensures e in made {
      var i :| 0 <= i < |entries| && entries[i] == e;
      assert Has(entries, e.key) && Has(made, e.key);
      var k :| 0 <= k < |made| && made[k].key == e.key;
      assert LastValue(entries, made[k].key, made[k].value);
      var m :| 0 <= m < |entries| && entries[m] == Entry(made[k].key, made[k].value);
      assert m == i;
    }
  }

  /** A sorted object's keys: array indices ascending, then the rest in the collation's order. */
  lemma {:induction false} SortedObjectOrder(leq: Collation, entries: Entries)
    requires Ranks(leq, KeysOf(entries)) && Distinct(entries)
    ensures var sorted := Sorted(leq, Deepened(leq, entries));
            IsBuilt(DeepSort(leq, Object(entries)).entries, sorted) && Ascending(leq, sorted)
  {
    DeepenedKeys(leq, entries);
    SortedAscends(leq, Deepened(leq, entries), KeysOf(entries));
    CollectedIsBuilt(Sorted(leq, Deepened(leq, entries)));
  }

  /** A sorted document is the same document up to the order of keys, whatever the collation answers. */
  lemma {:induction false} SortingKeepsDocument(leq: Collation, value: Ordered)
    requires WellFormed(value)
    ensures SameUpToOrder(DeepSort(leq, value), value) && WellFormed(DeepSort(leq, value))
    decreases value
  {
    match value
    case List(items) =>
      forall i | 0 <= i < |items|
        ensures SameUpToOrder(DeepSort(leq, items[i]), items[i]) && WellFormed(DeepSort(leq, items[i]))
      {
        SortingKeepsDocument(leq, items[i]);
      }
    case Object(entries) =>
      forall i | 0 <= i < |entries|
        ensures SameUpToOrder(DeepSort(leq, entries[i].value), entries[i].value) && WellFormed(DeepSort(leq, entries[i].value))
      {
        SortingKeepsDocument(leq, entries[i].value);
      }
      SortingKeepsObject(leq, entries);
    case _ =>
  }

  lemma {:induction false} SortingKeepsObject(leq: Collation, entries: Entries)
    requires Distinct(entries)
    requires forall i | 0 <= i < |entries| ::
               SameUpToOrder(DeepSort(leq, entries[i].value), entries[i].value) && WellFormed(DeepSort(leq, entries[i].value))
    ensures var made := DeepSort(leq, Object(entries)); SameUpToOrder(made, Object(entries)) && WellFormed(made)
  {
    var deep, made := Deepened(leq, entries), DeepSort(leq, Object(entries)).entries;
    SortedEntries(leq, entries);
    forall i | 0 <= i < |made|
      ensures WellFormed(made[i].value)
      ensures forall j | 0 <= j < |entries| && made[i].key == entries[j].key :: SameUpToOrder(made[i].value, entries[j].value)
    {
      assert made[i] in made;
      var j :| 0 <= j < |deep| && deep[j] == made[i];
      assert entries[j].key == made[i].key;
    }
    SameEntriesSameKeys(made, deep);
    DeepenedKeys(leq, entries);
  }

  lemma {:induction false} SameEntriesSameKeys(a: Entries, b: Entries)
    requires forall e :: e in a <==> e in b
    ensures KeysOf(a) == KeysOf(b)
  {
    forall i | 0 <= i < |a| ensures a[i].key in KeysOf(b) { assert a[i] in b; var j :| 0 <= j < |b| && b[j] == a[i]; }
    forall j | 0 <= j < |b| ensures b[j].key in KeysOf(a) { assert b[j] in a; var i :| 0 <= i < |a| && a[i] == b[j]; }
  }

  /** A sorted object has the sorted children of the object, each once. */
  lemma {:induction false} SortedEntries(leq: Collation, entries: Entries)
    requires Distinct(entries)
    ensures var made := DeepSort(leq, Object(entries)).entries;
            Distinct(made) && forall e :: e in made <==> e in Deepened(leq, entries)
  {
    var deep := Deepened(leq, entries);
    DeepenedKeys(leq, entries);
    SortedHolds(leq, deep);
    SortedDistinct(leq, deep);
    CollectedHolds(Sorted(leq, deep));
  }

  // ---------------------------------------------------------------- sorting twice

  /** Placing an entry keeps the order of the others. */
  lemma {:induction false} PlacedKeepsOrder(leq: Collation, entry: Entry<Ordered>, sorted: Entries, a: string, b: string)
    requires entry.key != a && entry.key != b && FirstOf(sorted, a) < FirstOf(sorted, b)
    ensures FirstOf(Placed(leq, entry, sorted), a) < FirstOf(Placed(leq, entry, sorted), b)
    decreases |sorted|
  {
    if leq(entry.key, sorted[0].key) {
      assert ([entry] + sorted)[1..] == sorted;
    } else {
      assert ([sorted[0]] + Placed(leq, entry, sorted[1..]))[1..] == Placed(leq, entry, sorted[1..]);
      if sorted[0].key != a { PlacedKeepsOrder(leq, entry, sorted[1..], a, b); }
    }
  }

  /** An entry is placed before those it does not sort after. */
  lemma {:induction false} PlacedComesFirst(leq: Collation, entry: Entry<Ordered>, sorted: Entries, b: string)
    requires leq(entry.key, b) && entry.key != b && Has(sorted, b)
    ensures FirstOf(Placed(leq, entry, sorted), entry.key) < FirstOf(Placed(leq, entry, sorted), b)
    decreases |sorted|
  {
    if !leq(entry.key, sorted[0].key) {
      assert sorted == [sorted[0]] + sorted[1..];
      assert Has(sorted[1..], b) by { var i :| 0 <= i < |sorted| && sorted[i].key == b; assert sorted[1..][i - 1].key == b; }
      assert ([sorted[0]] + Placed(leq, entry, sorted[1..]))[1..] == Placed(leq, entry, sorted[1..]);
      PlacedComesFirst(leq, entry, sorted[1..], b);
    }
  }

  /** The sort is stable: keys that are already in order stay so. */
  lemma {:induction false} SortedIsStable(leq: Collation, entries: Entries, a: string, b: string)
    requires Distinct(entries) && FirstOf(entries, a) < FirstOf(entries, b) < |entries| && leq(a, b)
    ensures FirstOf(Sorted(leq, entries), a) < FirstOf(Sorted(leq, entries), b)
    decreases |entries|
  {
    var rest := entries[1..];
    SortedHolds(leq, rest);
    if entries[0].key == a {
      var i := FirstOf(rest, b);
      assert rest[i] in Sorted(leq, rest);
      PlacedComesFirst(leq, entries[0], Sorted(leq, rest), b);
    } else {
      SortedIsStable(leq, rest, a, b);
      PlacedKeepsOrder(leq, entries[0], Sorted(leq, rest), a, b);
    }
  }

  /** An order of insertions, as one that compares keys. */
  ghost function InOrder(history: Entries): Collation { (a, b) => a == b || Precedes(history, a, b) }

  lemma {:induction false} InOrderOrders(history: Entries, keys: set<string>)
    requires forall key | key in keys :: Has(history, key)
    ensures Orders(InOrder(history), keys)
  {
    forall a, b | a in keys && b in keys ensures a == b || Precedes(history, a, b) || Precedes(history, b, a) {
      var i, j := ArrayIndex(a), ArrayIndex(b);
      if i.Some? && i == j { IndexIsOne(a, b); }
      assert Has(history, a) && Has(history, b);
    }
  }

  /** A history of insertions makes one object. */
  lemma {:induction false} BuiltIsOne(a: Entries, b: Entries, history: Entries)
    requires IsBuilt(a, history) && IsBuilt(b, history) && Distinct(a) && Distinct(b) && forall e :: e in a <==> e in b
    ensures a == b
  {
    var leq, keys := InOrder(history), KeysOf(a);
    forall key | key in keys ensures Has(history, key) { assert Has(a, key); }
    InOrderOrders(history, keys);
    AscendingIsOne(leq, a, b, keys);
  }

  /** Sorting an object made of ascending entries makes the same object. */
  lemma {:induction false} CollectedAgain(leq: Collation, sorted: Entries)
    requires Distinct(sorted) && Ascending(leq, sorted)
    ensures Collected(Sorted(leq, Collected(sorted))) == Collected(sorted)
  {
    var made := Collected(sorted);
    var again := Sorted(leq, made);
    var remade := Collected(again);
    CollectedIsBuilt(sorted);
    CollectedHolds(sorted);
    SortedHolds(leq, made);
    SortedDistinct(leq, made);
    CollectedIsBuilt(again);
    CollectedHolds(again);
    forall i, j | 0 <= i < j < |made| ensures Precedes(again, made[i].key, made[j].key) {
      CollectedStays(leq, sorted, i, j);
    }
    AgainIsBuilt(made, again);
    BuiltIsOne(made, remade, again);
  }

  lemma {:induction false} AgainIsBuilt(made: Entries, again: Entries)
    requires Distinct(again) && forall e :: e in made <==> e in again
    requires forall i, j | 0 <= i < j < |made| :: Precedes(again, made[i].key, made[j].key)
    ensures IsBuilt(made, again)
  {
    forall key ensures Has(made, key) <==> Has(again, key) {
      if Has(made, key) { var i :| 0 <= i < |made| && made[i].key == key; assert made[i] in again; }
      if Has(again, key) { var i :| 0 <= i < |again| && again[i].key == key; assert again[i] in made; }
    }
    forall i | 0 <= i < |made| ensures LastValue(again, made[i].key, made[i].value) {
      assert made[i] in again;
      var k :| 0 <= k < |again| && again[k] == made[i];
      assert again[k] == Entry(made[i].key, made[i].value);
    }
  }

  lemma {:induction false} FirstOfAt(entries: Entries, i: nat)
    requires Distinct(entries) && i < |entries|
    ensures FirstOf(entries, entries[i].key) == i
  {
    assert Has(entries, entries[i].key);
  }

  lemma {:induction false} CollectedStays(leq: Collation, sorted: Entries, i: nat, j: nat)
    requires Distinct(sorted) && Ascending(leq, sorted) && i < j < |Collected(sorted)|
    ensures var made := Collected(sorted); Precedes(Sorted(leq, made), made[i].key, made[j].key)
  {
    var made := Collected(sorted);
    CollectedIsBuilt(sorted);
    CollectedHolds(sorted);
    var a, b := made[i].key, made[j].key;
    assert Precedes(sorted, a, b);
    if ArrayIndex(a).None? && ArrayIndex(b).None? {
      assert Has(made, a) && Has(made, b);
      var p, q := FirstOf(sorted, a), FirstOf(sorted, b);
      assert leq(sorted[p].key, sorted[q].key);
      FirstOfAt(made, i);
      FirstOfAt(made, j);
      SortedIsStable(leq, made, a, b);
    }
  }

  /** Sorting a sorted document changes nothing, also where the collation takes keys for equal. */
  lemma {:induction false} SortingIsIdempotent(leq: Collation, value: Ordered)
    requires WellFormed(value) && RanksAll(leq, value)
    ensures DeepSort(leq, DeepSort(leq, value)) == DeepSort(leq, value)
    decreases value
  {
    match value
    case List(items) =>
      forall i | 0 <= i < |items| ensures DeepSort(leq, DeepSort(leq, items[i])) == DeepSort(leq, items[i]) {
        SortingIsIdempotent(leq, items[i]);
      }
      var made := DeepSort(leq, value).items;
      assert DeepSort(leq, DeepSort(leq, value)).items == made;
    case Object(entries) =>
      forall i | 0 <= i < |entries| ensures DeepSort(leq, DeepSort(leq, entries[i].value)) == DeepSort(leq, entries[i].value) {
        SortingIsIdempotent(leq, entries[i].value);
      }
      SortedObjectAgain(leq, entries);
    case _ =>
  }

  lemma {:induction false} SortedObjectAgain(leq: Collation, entries: Entries)
    requires Distinct(entries) && Ranks(leq, KeysOf(entries))
    requires forall i | 0 <= i < |entries| :: DeepSort(leq, DeepSort(leq, entries[i].value)) == DeepSort(leq, entries[i].value)
    ensures DeepSort(leq, DeepSort(leq, Object(entries))) == DeepSort(leq, Object(entries))
  {
    var deep := Deepened(leq, entries);
    var sorted, made := Sorted(leq, deep), DeepSort(leq, Object(entries)).entries;
    DeepenedKeys(leq, entries);
    SortedDistinct(leq, deep);
    SortedObjectOrder(leq, entries);
    SortedEntries(leq, entries);
    forall i | 0 <= i < |made| ensures DeepSort(leq, made[i].value) == made[i].value {
      assert made[i] in deep;
      var k :| 0 <= k < |deep| && deep[k] == made[i];
    }
    assert Deepened(leq, made) == made;
    CollectedAgain(leq, sorted);
  }
}
