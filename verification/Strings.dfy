/** The order strings are sorted in, and the one ascending listing of a set of them. */
module Strings {
  predicate Below(a: string, b: string)
    decreases |a|
  {
    b != [] && (a == [] || a[0] < b[0] || (a[0] == b[0] && Below(a[1..], b[1..])))
  }

  lemma {:induction false} BelowIrreflexive(a: string)
    ensures !Below(a, a)
    decreases |a|
  {
    if a != [] { BelowIrreflexive(a[1..]); }
  }

  lemma {:induction false} BelowTotal(a: string, b: string)
    ensures a == b || Below(a, b) || Below(b, a)
    decreases |a|
  {
    if a != [] && b != [] {
      BelowTotal(a[1..], b[1..]);
      if a[0] == b[0] && a[1..] == b[1..] {
        assert a == [a[0]] + a[1..] && b == [b[0]] + b[1..];
      }
    }
  }

  lemma {:induction false} BelowTransitive(a: string, b: string, c: string)
    requires Below(a, b) && Below(b, c)
    ensures Below(a, c)
    decreases |a|
  {
    if a != [] && a[0] == b[0] && b[0] == c[0] { BelowTransitive(a[1..], b[1..], c[1..]); }
  }

  predicate Ascending(keys: seq<string>) { forall i, j | 0 <= i < j < |keys| :: Below(keys[i], keys[j]) }

  ghost predicate Lists(keys: seq<string>, names: set<string>) { forall k :: k in keys <==> k in names }

  /** `key` put at its place in an ascending listing that lacks it. */
  method InsertKey(keys: seq<string>, key: string) returns (more: seq<string>)
    requires Ascending(keys) && key !in keys
    ensures Ascending(more) && forall k :: k in more <==> k in keys || k == key
  {
    var at := 0;
    while at < |keys| && Below(keys[at], key)
      invariant 0 <= at <= |keys|
      invariant forall i | 0 <= i < at :: Below(keys[i], key)
    {
      at := at + 1;
    }
    var low, high := keys[..at], keys[at..];
    more := low + [key] + high;
    forall i | at <= i < |keys| ensures Below(key, keys[i]) {
      BelowTotal(key, keys[at]);
      if i > at { BelowTransitive(key, keys[at], keys[i]); }
    }
    assert keys == low + high;
    assert forall k :: k in more <==> k in low || k == key || k in high;
  }

  /** The ascending listing of a set. */
  method SortKeys(names: set<string>) returns (keys: seq<string>)
    ensures Ascending(keys) && Lists(keys, names)
  {
    keys := [];
    var left := names;
    while left != {}
      invariant left <= names && Ascending(keys) && Lists(keys, names - left)
      decreases |left|
    {
      var key :| key in left;
      left := left - {key};
      keys := InsertKey(keys, key);
    }
    assert names - {} == names;
  }

  lemma {:induction false} LeastExists(names: set<string>) returns (least: string)
    requires names != {}
    ensures least in names && forall k | k in names && k != least :: Below(least, k)
    decreases |names|
  {
    var k :| k in names;
    var rest := names - {k};
    assert names == rest + {k};
    if rest == {} {
      least := k;
    } else {
      var low := LeastExists(rest);
      BelowTotal(k, low);
      least := if Below(k, low) then k else low;
      forall other | other in names && other != least ensures Below(least, other) {
        if least == k && other != low { BelowTransitive(k, low, other); }
      }
    }
  }

  lemma {:induction false} SortedExists(names: set<string>)
    ensures exists keys: seq<string> :: Ascending(keys) && Lists(keys, names)
    decreases |names|
  {
    if names == {} {
      assert Ascending([]) && Lists([], names);
    } else {
      var least := LeastExists(names);
      SortedExists(names - {least});
      var rest: seq<string> :| Ascending(rest) && Lists(rest, names - {least});
      var keys := [least] + rest;
      forall i | 0 <= i < |rest| ensures Below(least, rest[i]) { assert rest[i] in rest; }
      assert Ascending(keys);
      assert Lists(keys, names);
    }
  }

  /** The ascending listing of a set, which is the only one. */
  ghost function Sorted(names: set<string>): (keys: seq<string>)
    ensures Ascending(keys) && Lists(keys, names)
  {
    SortedExists(names);
    var keys: seq<string> :| Ascending(keys) && Lists(keys, names);
    keys
  }

  lemma {:induction false} SortedUnique(a: seq<string>, b: seq<string>, names: set<string>)
    requires Ascending(a) && Ascending(b) && Lists(a, names) && Lists(b, names)
    ensures a == b
    decreases |a|
  {
    ListsEmpty(a, names);
    ListsEmpty(b, names);
    if a != [] {
      HeadsAgree(a, b, names);
      forall k ensures k in a[1..] <==> k in names && k != a[0] { TailLists(a, names, k); }
      forall k ensures k in b[1..] <==> k in names && k != b[0] { TailLists(b, names, k); }
      SortedUnique(a[1..], b[1..], names - {a[0]});
      assert a == [a[0]] + a[1..] && b == [b[0]] + b[1..];
    }
  }

  lemma {:induction false} ListsEmpty(keys: seq<string>, names: set<string>)
    requires Lists(keys, names)
    ensures keys == [] <==> names == {}
  {
    if keys != [] { assert keys[0] in keys; }
  }

  lemma {:induction false} HeadsAgree(a: seq<string>, b: seq<string>, names: set<string>)
    requires Ascending(a) && Ascending(b) && Lists(a, names) && Lists(b, names) && a != [] && b != []
    ensures a[0] == b[0]
  {
    assert a[0] in b && b[0] in a;
    if a[0] != b[0] {
      assert Below(b[0], a[0]) && Below(a[0], b[0]);
      BelowTransitive(a[0], b[0], a[0]);
      BelowIrreflexive(a[0]);
    }
  }

  lemma {:induction false} TailLists(keys: seq<string>, names: set<string>, k: string)
    requires Ascending(keys) && Lists(keys, names) && keys != []
    ensures k in keys[1..] <==> k in names && k != keys[0]
  {
    if k in keys[1..] && k == keys[0] { BelowIrreflexive(k); }
    if k in names { assert k in keys; }
  }
}
