/**
 Lists of objects that carry an identity: how one is chosen to be kept by identity, and how the
 order of a kept one is read back whatever its order list holds.
 */
module KeyedList {
  import opened Wrappers
  import opened Json
  import opened Store
  import opened Strings

  const MARKER := "$keyedBy"
  const ORDER := "$order"
  const ITEMS := "$items"

  /** The identity of an item a list can be keyed by. */
  function ItemKey(value: Json, identity: string): Option<string> {
    match Member(value, identity)
    case Some(Str(key)) => Some(key)
    case _ => None
  }

  /** An unmarked object with a non-empty identity. */
  predicate HasIdentity(value: Json, identity: string) {
    value.Obj? && MARKER !in value.members && ItemKey(value, identity).Some? && ItemKey(value, identity).value != ""
  }

  predicate KeyedBy(values: seq<Json>, identity: string) {
    && (forall i | 0 <= i < |values| :: HasIdentity(values[i], identity))
    && (forall i, j | 0 <= i < j < |values| :: ItemKey(values[i], identity) != ItemKey(values[j], identity))
  }

  /** The identity a list of objects is kept by: `id` before `uid`. */
  function KeyedIdentity(values: seq<Json>): Option<string> {
    if values == [] then None
    else if KeyedBy(values, "id") then Some("id")
    else if KeyedBy(values, "uid") then Some("uid")
    else None
  }

  /** Every value is an object without a mark, with a non-empty string under the name, and no two have
      the same. */
  ghost predicate AreToldApart(values: seq<Json>, name: string) {
    && (forall i | 0 <= i < |values| ::
          && values[i].Obj? && "$keyedBy" !in values[i].members && name in values[i].members
          && values[i].members[name].Str? && values[i].members[name].s != "")
    && forall i, j | 0 <= i < |values| && 0 <= j < |values| && i != j :: values[i].members[name] != values[j].members[name]
  }

  /** A list is kept by `id` exactly when that tells its values apart, by `uid` when only that does, and by
      nothing else. */
  lemma {:induction false} KeyedIdentityExactly(values: seq<Json>)
    ensures KeyedIdentity(values) == Some("id") <==> values != [] && AreToldApart(values, "id")
    ensures KeyedIdentity(values) == Some("uid") <==> values != [] && AreToldApart(values, "uid") && !AreToldApart(values, "id")
    ensures KeyedIdentity(values).Some? ==> KeyedIdentity(values).value in {"id", "uid"}
  {
    KeyedByExactly(values, "id");
    KeyedByExactly(values, "uid");
  }

  lemma {:induction false} KeyedByExactly(values: seq<Json>, name: string)
    ensures KeyedBy(values, name) <==> AreToldApart(values, name)
  {
    if AreToldApart(values, name) {
      forall i | 0 <= i < |values| ensures HasIdentity(values[i], name) { assert values[i].Obj?; }
    }
    if KeyedBy(values, name) {
      forall i | 0 <= i < |values|
        ensures values[i].Obj? && name in values[i].members && values[i].members[name].Str? && values[i].members[name].s != ""
      {
        assert HasIdentity(values[i], name);
      }
      forall i, j | 0 <= i < |values| && 0 <= j < |values| && i != j ensures values[i].members[name] != values[j].members[name] {
        if i < j { assert ItemKey(values[i], name) != ItemKey(values[j], name); } else { assert ItemKey(values[j], name) != ItemKey(values[i], name); }
      }
    }
  }

  /** Looks for the identity as the values are gone through, keeping those seen. */
  method FindIdentity(values: seq<Json>) returns (found: Option<string>)
    ensures found == KeyedIdentity(values)
  {
    if values == [] {
      return None;
    }
    var byId := IsKeyedBy(values, "id");
    if byId {
      return Some("id");
    }
    var byUid := IsKeyedBy(values, "uid");
    found := if byUid then Some("uid") else None;
  }

  method IsKeyedBy(values: seq<Json>, identity: string) returns (keyed: bool)
    ensures keyed == KeyedBy(values, identity)
  {
    var seen: set<string> := {};
    for i := 0 to |values|
      invariant forall j | 0 <= j < i :: HasIdentity(values[j], identity)
      invariant forall k :: k in seen <==> exists j :: 0 <= j < i && ItemKey(values[j], identity) == Some(k)
      invariant forall j, h | 0 <= j < h < i :: ItemKey(values[j], identity) != ItemKey(values[h], identity)
    {
      if !HasIdentity(values[i], identity) {
        return false;
      }
      var key := ItemKey(values[i], identity).value;
      if key in seen {
        var j :| 0 <= j < i && ItemKey(values[j], identity) == Some(key);
        assert ItemKey(values[j], identity) == ItemKey(values[i], identity);
        return false;
      }
      seen := seen + {key};
    }
    return true;
  }

  /** The values that carry the identity, by it; a later one replaces an earlier one. */
  function ByIdentity(values: seq<Json>, identity: string): (kept: map<string, Json>)
    ensures forall k | k in kept :: kept[k] in values && ItemKey(kept[k], identity) == Some(k)
    decreases |values|
  {
    if values == [] then map[]
    else
      var earlier := ByIdentity(values[..|values| - 1], identity);
      var last := values[|values| - 1];
      match ItemKey(last, identity)
      case Some(key) => earlier[key := last]
      case None => earlier
  }

  /** The identities of the values that carry one, in order. */
  function Identities(values: seq<Json>, identity: string): seq<string>
    decreases |values|
  {
    if values == [] then []
    else
      var earlier := Identities(values[..|values| - 1], identity);
      match ItemKey(values[|values| - 1], identity)
      case Some(key) => earlier + [key]
      case None => earlier
  }

  /** In a keyed list the identities are those of its values, place by place. */
  lemma {:induction false} KeyedIdentities(values: seq<Json>, identity: string)
    requires KeyedBy(values, identity)
    ensures |Identities(values, identity)| == |values|
    ensures forall i | 0 <= i < |values| :: ItemKey(values[i], identity) == Some(Identities(values, identity)[i])
    ensures forall i, j | 0 <= i < j < |values| :: Identities(values, identity)[i] != Identities(values, identity)[j]
    decreases |values|
  {
    if values != [] {
      var earlier := values[..|values| - 1];
      KeyedIdentities(earlier, identity);
      assert forall i | 0 <= i < |values| - 1 :: earlier[i] == values[i];
    }
  }

  /** In a keyed list every value is kept under its own identity, and nothing else is kept. */
  lemma {:induction false} KeyedListing(values: seq<Json>, identity: string)
    requires KeyedBy(values, identity)
    ensures forall i | 0 <= i < |values| ::
              var key := ItemKey(values[i], identity).value;
              key in ByIdentity(values, identity) && ByIdentity(values, identity)[key] == values[i]
    ensures forall key :: key in ByIdentity(values, identity) <==> key in Identities(values, identity)
    decreases |values|
  {
    if values != [] {
      var earlier := values[..|values| - 1];
      KeyedListing(earlier, identity);
      var last := ItemKey(values[|values| - 1], identity).value;
      forall i | 0 <= i < |values|
        ensures var key := ItemKey(values[i], identity).value;
                key in ByIdentity(values, identity) && ByIdentity(values, identity)[key] == values[i]
      {
        if i < |values| - 1 {
          assert earlier[i] == values[i] && ItemKey(values[i], identity) != ItemKey(values[|values| - 1], identity);
        }
      }
      assert Identities(values, identity) == Identities(earlier, identity) + [last];
    }
  }

  // ---------------------------------------------------------------- reading the order back

  predicate IsItem(items: Cells, key: string) { key in items && items[key].Child? }

  /** The keys of items among `keys`, each at its first mention. */
  function Listed(keys: seq<string>, items: Cells): (listed: seq<string>)
    ensures forall i | 0 <= i < |listed| :: IsItem(items, listed[i])
    decreases |keys|
  {
    if keys == [] then []
    else
      var before := keys[..|keys| - 1];
      var key := keys[|keys| - 1];
      if key in before || !IsItem(items, key) then Listed(before, items) else Listed(before, items) + [key]
  }

  /** The order of a kept list's items: those the order list names, then the others ascending. */
  ghost function ReadOrder(order: seq<string>, items: Cells): (keys: seq<string>)
    ensures forall i | 0 <= i < |keys| :: IsItem(items, keys[i])
  {
    Listed(order + Sorted(items.Keys), items)
  }

  /** Goes through the order list and then the sorted keys, skipping those seen. */
  method ReadKeys(order: seq<string>, items: Cells) returns (ordered: seq<string>)
    ensures ordered == ReadOrder(order, items)
  {
    var itemKeys := SortKeys(items.Keys);
    SortedUnique(itemKeys, Sorted(items.Keys), items.Keys);
    var keys := order + itemKeys;
    var seen: set<string> := {};
    ordered := [];
    for i := 0 to |keys|
      invariant forall k :: k in seen <==> k in keys[..i]
      invariant ordered == Listed(keys[..i], items)
    {
      assert keys[..i + 1][..|keys[..i + 1]| - 1] == keys[..i];
      if keys[i] !in seen {
        seen := seen + {keys[i]};
        if IsItem(items, keys[i]) {
          ordered := ordered + [keys[i]];
        }
      }
    }
    assert keys[..|keys|] == keys;
  }

  /** The first place a key is mentioned. */
  function FirstMention(keys: seq<string>, key: string): (at: nat)
    requires key in keys
    ensures at < |keys| && keys[at] == key && forall i | 0 <= i < at :: keys[i] != key
    decreases |keys|
  {
    if keys[0] == key then 0 else 1 + FirstMention(keys[1..], key)
  }

  lemma {:induction false} ListedByMention(keys: seq<string>, items: Cells)
    ensures forall k :: k in Listed(keys, items) <==> k in keys && IsItem(items, k)
    ensures forall i | 0 <= i < |Listed(keys, items)| :: Listed(keys, items)[i] in keys
    ensures forall i, j | 0 <= i < j < |Listed(keys, items)| ::
              FirstMention(keys, Listed(keys, items)[i]) < FirstMention(keys, Listed(keys, items)[j])
    decreases |keys|
  {
    if keys != [] {
      var before := keys[..|keys| - 1];
      ListedByMention(before, items);
      assert keys == before + [keys[|keys| - 1]];
      forall k | k in before ensures FirstMention(before, k) == FirstMention(keys, k) {
        FirstMentionOf(before, keys, k);
      }
    }
  }

  lemma {:induction false} FirstMentionOf(before: seq<string>, keys: seq<string>, k: string)
    requires before <= keys && k in before
    ensures FirstMention(before, k) == FirstMention(keys, k)
  {}

  /** Where a key stands in the order of a kept list. */
  predicate Precedes(order: seq<string>, a: string, b: string) {
    if a in order && b in order then FirstMention(order, a) < FirstMention(order, b)
    else if a in order || b in order then a in order
    else Below(a, b)
  }

  /** Whatever the order list holds, every stored item is read exactly once: those it names by
      first mention, then the rest ascending. */
  lemma {:induction false} ReadsEveryItemOnce(order: seq<string>, items: Cells)
    ensures forall k :: k in ReadOrder(order, items) <==> IsItem(items, k)
    ensures forall i, j | 0 <= i < j < |ReadOrder(order, items)| ::
              Precedes(order, ReadOrder(order, items)[i], ReadOrder(order, items)[j])
              && ReadOrder(order, items)[i] != ReadOrder(order, items)[j]
  {
    var sorted := Sorted(items.Keys);
    var keys := order + sorted;
    var read := ReadOrder(order, items);
    ListedByMention(keys, items);
    forall k ensures k in read <==> IsItem(items, k) {
      if IsItem(items, k) { assert k in sorted; }
    }
    forall i, j | 0 <= i < j < |read|
      ensures Precedes(order, read[i], read[j]) && read[i] != read[j]
    {
      MentionInParts(order, sorted, read[i]);
      MentionInParts(order, sorted, read[j]);
    }
  }

  /** A key the order list lacks is mentioned at its place among the sorted ones. */
  lemma {:induction false} MentionInParts(order: seq<string>, sorted: seq<string>, k: string)
    requires k in order + sorted
    ensures FirstMention(order + sorted, k)
            == if k in order then FirstMention(order, k) else |order| + FirstMention(sorted, k)
  {
    var keys := order + sorted;
    var at := FirstMention(keys, k);
    if k !in order {
      assert keys[|order| + FirstMention(sorted, k)] == k;
      assert at >= |order|;
      assert sorted[at - |order|] == k;
    } else {
      assert keys[FirstMention(order, k)] == k;
    }
  }

  /** A list that names exactly its items, each once, is read in its own order. */
  lemma {:induction false} ReadsOwnOrder(order: seq<string>, items: Cells)
    requires forall i, j | 0 <= i < j < |order| :: order[i] != order[j]
    requires forall k :: k in order <==> IsItem(items, k)
    ensures ReadOrder(order, items) == order
  {
    ListedAll(order, items);
    ListedNone(order, Sorted(items.Keys), items);
  }

  lemma {:induction false} ListedAll(order: seq<string>, items: Cells)
    requires forall i, j | 0 <= i < j < |order| :: order[i] != order[j]
    requires forall i | 0 <= i < |order| :: IsItem(items, order[i])
    ensures Listed(order, items) == order
    decreases |order|
  {
    if order != [] {
      ListedAll(order[..|order| - 1], items);
    }
  }

  lemma {:induction false} ListedNone(order: seq<string>, more: seq<string>, items: Cells)
    requires forall i | 0 <= i < |more| :: more[i] in order || !IsItem(items, more[i])
    ensures Listed(order + more, items) == Listed(order, items)
    decreases |more|
  {
    if more == [] {
      assert order + more == order;
    } else {
      var fewer := more[..|more| - 1];
      assert (order + more)[..|order + more| - 1] == order + fewer;
      ListedNone(order, fewer, items);
    }
  }
}
