/** Round trips of a structured document, exactly when they hold, and the writer that makes them. */
module StructuredDocumentTheorems {
  import opened Wrappers
  import opened Json
  import opened Store
  import opened Strings
  import opened KeyedList
  import opened StructuredDocument
  import opened StructuredDocumentWrites

  /** A store reads as the document it holds. */
  lemma {:induction false} HeldReads(cells: Cells, members: Members)
    requires Holds(cells, members, {})
    ensures Read(cells) == Some(StoredMembers(members))
  {
    ReadsWhatItHolds(cells, members, {});
    assert Read(cells).value == StoredMembers(members);
  }

  /** Written into an empty map, any object at all reads back as it is stored: itself, exactly
      when every integer in it fits an `i64`. */
  lemma {:induction false} SeedRoundTrip(next: Members)
    ensures Read(Write(map[], map[], next)) == Some(StoredMembers(next))
    ensures Read(Write(map[], map[], next)) == Some(next) <==> Exact(Obj(next))
  {
    FromNothing(next, {});
    FreshHolds(map[], next, {});
    HeldReads(Write(map[], map[], next), next);
    StoredObject(next);
    StoredIsExact(Obj(next));
  }

  /** A store that holds `previous` reads as it, and after a shape-stable difference as `next`. */
  lemma {:induction false} DifferenceRoundTrip(cells: Cells, previous: Members, next: Members)
    requires Holds(cells, previous, {}) && Stable(previous, next)
    ensures Read(cells) == Some(StoredMembers(previous))
    ensures Holds(Write(cells, previous, next), next, {})
    ensures Read(Write(cells, previous, next)) == Some(StoredMembers(next))
  {
    HeldReads(cells, previous);
    WriteHolds(cells, previous, next, {});
    HeldReads(Write(cells, previous, next), next);
  }

  /** The store after each document of a run is written over the one before it. */
  function WriteAll(cells: Cells, documents: seq<Members>): Cells
    decreases |documents|
  {
    if |documents| < 2 then cells
    else WriteAll(Write(cells, documents[0], documents[1]), documents[1..])
  }

  /** Over any run of shape-stable documents the store always reads as the last one written. */
  lemma {:induction false} RunRoundTrip(cells: Cells, documents: seq<Members>)
    requires documents != [] && Holds(cells, documents[0], {})
    requires forall i | 0 <= i < |documents| - 1 :: Stable(documents[i], documents[i + 1])
    ensures Read(WriteAll(cells, documents)) == Some(StoredMembers(documents[|documents| - 1]))
    decreases |documents|
  {
    if |documents| == 1 {
      HeldReads(cells, documents[0]);
    } else {
      assert Stable(documents[0], documents[0 + 1]);
      WriteHolds(cells, documents[0], documents[1], {});
      var rest := documents[1..];
      forall i | 0 <= i < |rest| - 1 ensures Stable(rest[i], rest[i + 1]) {
        var j := i + 1;
        assert Stable(documents[j], documents[j + 1]);
      }
      RunRoundTrip(Write(cells, documents[0], documents[1]), rest);
    }
  }

  // ---------------------------------------------------------------- only then

  /** A level read back, with the identity the reader supplies. */
  ghost predicate ReadsAs(cells: Cells, members: Members, skip: set<string>) {
    && Read(cells).Some?
    && (forall k | k in members && k !in skip :: k in Read(cells).value && Read(cells).value[k] == Stored(members[k]))
  }

  lemma {:induction false} FreshOnlyIf(previous: Members, next: Members, skip: set<string>)
    requires ReadsAs(Write(map[], previous, next), next, skip)
    ensures Fresh(previous, next, skip)
    decreases Obj(next), 0
  {
    var written := Write(map[], previous, next);
    forall k | k in next && k !in skip ensures Changed(previous, next, k) && FreshValue(At(previous, k), next[k]) {
      assert k in Read(written).value;
      assert ReadValue(written[k]) == Some(Stored(next[k]));
      FreshValueOnlyIf(None, At(previous, k), next[k]);
    }
  }

  lemma {:induction false} FreshValueOnlyIf(cell: Option<Cell>, previous: Option<Json>, next: Json)
    requires ReadValue(WriteValue(cell, previous, next)) == Some(Stored(next)) && ChildOf(cell) == map[]
    ensures FreshValue(previous, next)
    decreases next, 1
  {
    if Unmarked(next) {
      StoredObject(next.members);
      assert MARKER !in Write(map[], ObjectOf(previous), next.members);
      FreshOnlyIf(ObjectOf(previous), next.members, {});
    } else if Keyed(next) {
      ListReadsBack(cell, previous, next);
      FreshListOnlyIf(KeyedIdentity(next.items).value, ArrayOf(previous), next.items);
    }
  }

  /** A list written to be kept is read as one. */
  lemma {:induction false} ListReadsBack(cell: Option<Cell>, previous: Option<Json>, next: Json)
    requires Keyed(next)
    ensures var level := WriteKeyed(ChildOf(cell), KeyedIdentity(next.items).value, ArrayOf(previous), next.items);
            MARKER in level && ReadValue(WriteValue(cell, previous, next)) == ReadKeyed(level)
  {}

  lemma {:induction false} FreshListOnlyIf(identity: string, previous: seq<Json>, next: seq<Json>)
    requires KeyedBy(next, identity)
    requires ReadKeyed(WriteKeyed(map[], identity, previous, next)) == Some(Stored(Arr(next)))
    ensures forall i | 0 <= i < |next| :: FreshItem(ByIdentity(previous, identity), identity, next[i])
    decreases Arr(next), 0
  {
    var had := ByIdentity(previous, identity);
    forall i | 0 <= i < |next| ensures FreshItem(had, identity, next[i]) {
      ReadItem(map[], identity, previous, next, i);
      FreshOnlyIf(ObjectOf(At(had, ItemKey(next[i], identity).value)), next[i].members, {identity});
    }
  }

  /** A kept list's level: its marker, its items and their order. */
  ghost predicate IsKept(level: Cells, identity: string, items: Cells, order: seq<string>) {
    && MARKER in level && MarkerOf(level[MARKER]) == Some(identity)
    && ITEMS in level && level[ITEMS] == Child(items)
    && OrderOf(CellAt(level, ORDER)) == order
  }

  lemma {:induction false} WrittenLevel(cells: Cells, identity: string, previous: seq<Json>, next: seq<Json>)
    ensures IsKept(WriteKeyed(cells, identity, previous, next), identity,
                   WriteItems(ChildOf(CellAt(cells, ITEMS)), ByIdentity(previous, identity), identity, next),
                   Identities(next, identity))
  {
    assert MARKER != ITEMS && MARKER != ORDER && ITEMS != ORDER;
    StringsOfNames(Identities(next, identity));
  }

  /** The items of a list, when what was there is removed or named again. */
  lemma {:induction false} WrittenOrder(items: Cells, previous: Members, identity: string, next: seq<Json>)
    requires KeyedBy(next, identity)
    requires forall k | k in items :: items[k].Child? && (k in previous || k in Identities(next, identity))
    ensures ReadOrder(Identities(next, identity), WriteItems(items, previous, identity, next)) == Identities(next, identity)
  {
    KeyedIdentities(next, identity);
    KeyedListing(next, identity);
    ReadsOwnOrder(Identities(next, identity), WriteItems(items, previous, identity, next));
  }

  /** The child a list's item is written to. */
  lemma {:induction false} WrittenItem(items: Cells, previous: Members, identity: string, next: seq<Json>, i: nat)
    requires KeyedBy(next, identity) && i < |next|
    ensures var key := ItemKey(next[i], identity).value;
            var written := WriteItems(items, previous, identity, next);
            key in written && written[key] == ItemCell(items, previous, key, next[i])
            && i < |Identities(next, identity)| && Identities(next, identity)[i] == key
  {
    KeyedIdentities(next, identity);
    KeyedListing(next, identity);
  }

  /** One item of a kept list that reads back at all. */
  lemma {:induction false} ListReads(level: Cells, identity: string, items: Cells, order: seq<string>, i: nat)
    requires IsKept(level, identity, items, order) && ReadKeyed(level).Some? && i < |ReadOrder(order, items)|
    ensures var key := ReadOrder(order, items)[i];
            && IsItem(items, key) && Read(items[key].cells).Some?
            && ReadKeyed(level).value.Arr? && i < |ReadKeyed(level).value.items|
            && ReadKeyed(level).value.items[i] == Obj(Read(items[key].cells).value[identity := Str(key)])
  {}

  /** If a list reads back as `next`, each of its items was written to a child that reads as it. */
  lemma {:induction false} ReadItem(cells: Cells, identity: string, previous: seq<Json>, next: seq<Json>, i: nat)
    requires KeyedBy(next, identity) && i < |next|
    requires var items := ChildOf(CellAt(cells, ITEMS)); var had := ByIdentity(previous, identity);
             (forall k | k in items :: items[k].Child? && (k in had || k in Identities(next, identity)))
    requires ReadKeyed(WriteKeyed(cells, identity, previous, next)) == Some(Stored(Arr(next)))
    ensures var items := ChildOf(CellAt(cells, ITEMS)); var had := ByIdentity(previous, identity);
            var key := ItemKey(next[i], identity).value;
            ReadsAs(ItemCell(items, had, key, next[i]).cells, next[i].members, {identity})
  {
    var items := ChildOf(CellAt(cells, ITEMS));
    var had := ByIdentity(previous, identity);
    var key := ItemKey(next[i], identity).value;
    WrittenLevel(cells, identity, previous, next);
    WrittenOrder(items, had, identity, next);
    WrittenItem(items, had, identity, next, i);
    ItemOfList(WriteKeyed(cells, identity, previous, next), identity, WriteItems(items, had, identity, next), next, i, key);
  }

  lemma {:induction false} ItemOfList(level: Cells, identity: string, items: Cells, next: seq<Json>, i: nat, key: string)
    requires i < |next| && next[i].Obj?
    requires IsKept(level, identity, items, Identities(next, identity))
    requires ReadOrder(Identities(next, identity), items) == Identities(next, identity)
    requires i < |Identities(next, identity)| && Identities(next, identity)[i] == key
    requires ReadKeyed(level) == Some(Stored(Arr(next)))
    ensures IsItem(items, key) && ReadsAs(items[key].cells, next[i].members, {identity})
  {
    ListReads(level, identity, items, Identities(next, identity), i);
    StoredItem(next, i);
    ItemReadsAs(items[key].cells, identity, key, next[i].members);
  }

  lemma {:induction false} StoredItem(values: seq<Json>, i: nat)
    requires i < |values| && values[i].Obj?
    ensures Stored(Arr(values)).Arr? && i < |Stored(Arr(values)).items|
    ensures Stored(Arr(values)).items[i] == Obj(StoredMembers(values[i].members))
  {
    StoredArray(values);
    StoredObject(values[i].members);
  }

  lemma {:induction false} ItemReadsAs(cells: Cells, identity: string, key: string, members: Members)
    requires Read(cells).Some? && Read(cells).value[identity := Str(key)] == StoredMembers(members)
    ensures ReadsAs(cells, members, {identity})
  {
    var read := Read(cells).value;
    forall k | k in members && k != identity ensures k in read && read[k] == Stored(members[k]) {
      assert k in read[identity := Str(key)];
    }
  }

  /** Neither a change of the identity a list is kept by, nor an object with a member named as a
      kept list's items that becomes such a list. */
  ghost predicate Comparable(previous: Members, next: Members)
    decreases Obj(next), 0
  {
    forall k | k in next && k in previous && previous[k] != next[k] :: ComparableValue(previous[k], next[k])
  }

  ghost predicate ComparableValue(previous: Json, next: Json)
    decreases next, 1
  {
    if Unmarked(next) then Unmarked(previous) ==> Comparable(previous.members, next.members)
    else if Keyed(next) then
      && (Keyed(previous) ==>
            var identity := KeyedIdentity(next.items).value;
            && KeyedIdentity(previous.items) == Some(identity)
            && forall i | 0 <= i < |next.items| ::
                 ComparableItem(ByIdentity(previous.items, identity), identity, next.items[i]))
      && (Unmarked(previous) ==> ITEMS !in previous.members)
    else true
  }

  ghost predicate ComparableItem(previous: Members, identity: string, item: Json)
    requires HasIdentity(item, identity)
    decreases item, 1
  {
    var key := ItemKey(item, identity).value;
    key in previous && previous[key].Obj? ==> Comparable(previous[key].members, item.members)
  }

  lemma {:induction false} StableOnlyIf(cells: Cells, previous: Members, next: Members, skip: set<string>)
    requires Holds(cells, previous, skip) && Comparable(previous, next)
    requires forall k | k in skip :: At(previous, k) == At(next, k)
    requires ReadsAs(Write(cells, previous, next), next, skip)
    ensures Stable(previous, next)
    decreases Obj(next), 0
  {
    var written := Write(cells, previous, next);
    forall k | k in next && k in previous && previous[k] != next[k] ensures StableValue(previous[k], next[k]) {
      assert k in Read(written).value;
      assert ReadValue(written[k]) == Some(Stored(next[k]));
      StableValueOnlyIf(cells[k], previous[k], next[k]);
    }
  }

  lemma {:induction false} StableValueOnlyIf(cell: Cell, previous: Json, next: Json)
    requires HoldsValue(cell, previous) && ComparableValue(previous, next)
    requires ReadValue(WriteValue(Some(cell), Some(previous), next)) == Some(Stored(next))
    ensures StableValue(previous, next)
    decreases next, 2
  {
    if Unmarked(next) {
      StableObjectOnlyIf(cell, previous, next);
    } else if Keyed(next) {
      ListReadsBack(Some(cell), Some(previous), next);
      StableKeptOnlyIf(cell, previous, next);
    }
  }

  lemma {:induction false} StableKeptOnlyIf(cell: Cell, previous: Json, next: Json)
    requires HoldsValue(cell, previous) && ComparableValue(previous, next) && Keyed(next)
    requires var level := WriteKeyed(ChildOf(Some(cell)), KeyedIdentity(next.items).value, ArrayOf(Some(previous)), next.items);
             MARKER in level && ReadKeyed(level) == Some(Stored(next))
    ensures StableValue(previous, next)
    decreases next, 1
  {
    if Keyed(previous) {
      StableListOnlyIf(cell.cells, KeyedIdentity(next.items).value, previous.items, next.items);
    } else if !Unmarked(previous) {
      HeldElsewhere(cell, previous);
      FreshListOnlyIf(KeyedIdentity(next.items).value, ArrayOf(Some(previous)), next.items);
    }
  }

  lemma {:induction false} StableObjectOnlyIf(cell: Cell, previous: Json, next: Json)
    requires HoldsValue(cell, previous) && ComparableValue(previous, next) && Unmarked(next)
    requires ReadValue(WriteValue(Some(cell), Some(previous), next)) == Some(Stored(next))
    ensures StableValue(previous, next)
    decreases next, 1
  {
    if Unmarked(previous) {
      ObjectReadsAs(cell.cells, previous.members, next.members);
      StableOnlyIf(cell.cells, previous.members, next.members, {});
    } else if Keyed(previous) {
      ListNeverReadsAsObject(cell, previous, next);
    } else {
      HeldElsewhere(cell, previous);
      FreshValueOnlyIf(Some(cell), Some(previous), next);
    }
  }

  /** Only an unmarked object and a kept list are held in a child map. */
  lemma {:induction false} HeldElsewhere(cell: Cell, value: Json)
    requires HoldsValue(cell, value) && !Unmarked(value) && !Keyed(value)
    ensures ChildOf(Some(cell)) == map[]
  {}

  lemma {:induction false} ObjectReadsAs(cells: Cells, previous: Members, next: Members)
    requires MARKER !in cells && MARKER !in next
    requires ReadValue(Child(Write(cells, previous, next))) == Some(Stored(Obj(next)))
    ensures ReadsAs(Write(cells, previous, next), next, {})
  {
    StoredObject(next);
    assert MARKER !in Write(cells, previous, next);
  }

  lemma {:induction false} StableListOnlyIf(cells: Cells, identity: string, previous: seq<Json>, next: seq<Json>)
    requires KeyedBy(previous, identity) && KeyedBy(next, identity) && HoldsKeyed(cells, identity, previous)
    requires forall i | 0 <= i < |next| :: ComparableItem(ByIdentity(previous, identity), identity, next[i])
    requires ReadKeyed(WriteKeyed(cells, identity, previous, next)) == Some(Stored(Arr(next)))
    ensures forall i | 0 <= i < |next| :: StableItem(ByIdentity(previous, identity), identity, next[i])
    decreases Arr(next), 0
  {
    var items := cells[ITEMS].cells;
    var had := ByIdentity(previous, identity);
    forall k | k in items ensures items[k].Child? && k in had { HeldItem(cells, identity, previous, k); }
    forall i | 0 <= i < |next| ensures StableItem(had, identity, next[i]) {
      ReadItem(cells, identity, previous, next, i);
      StableItemOnlyIf(cells, identity, previous, next[i]);
    }
  }

  lemma {:induction false} StableItemOnlyIf(cells: Cells, identity: string, previous: seq<Json>, item: Json)
    requires KeyedBy(previous, identity) && HoldsKeyed(cells, identity, previous) && HasIdentity(item, identity)
    requires ComparableItem(ByIdentity(previous, identity), identity, item)
    requires var key := ItemKey(item, identity).value;
             ReadsAs(ItemCell(cells[ITEMS].cells, ByIdentity(previous, identity), key, item).cells, item.members, {identity})
    ensures StableItem(ByIdentity(previous, identity), identity, item)
    decreases item, 1
  {
    var had := ByIdentity(previous, identity);
    var key := ItemKey(item, identity).value;
    if key in had && had[key].Obj? {
      HeldItem(cells, identity, previous, key);
      SameIdentity(had[key], item, identity, key);
      StableOnlyIf(cells[ITEMS].cells[key].cells, had[key].members, item.members, {identity});
    }
  }

  /** A kept list overwritten by an unmarked object still reads as a list. */
  lemma {:induction false} ListNeverReadsAsObject(cell: Cell, previous: Json, next: Json)
    requires HoldsValue(cell, previous) && Keyed(previous) && Unmarked(next)
    ensures ReadValue(WriteValue(Some(cell), Some(previous), next)) != Some(Stored(next))
  {
    StoredObject(next.members);
    assert MARKER in Write(cell.cells, map[], next.members);
  }

  /** An item the difference neither removes nor names is read back with the list, whatever else
      is: so a list kept by another identity, or an object's own items, outlive the write. */
  lemma {:induction false} StrayItemSurvives(cells: Cells, identity: string, previous: seq<Json>, next: seq<Json>, key: string)
    requires KeyedBy(next, identity) && IsItem(ChildOf(CellAt(cells, ITEMS)), key)
    requires key !in ByIdentity(previous, identity) && key !in Identities(next, identity)
    ensures ReadKeyed(WriteKeyed(cells, identity, previous, next)) != Some(Stored(Arr(next)))
  {
    var items := WriteItems(ChildOf(CellAt(cells, ITEMS)), ByIdentity(previous, identity), identity, next);
    KeyedListing(next, identity);
    assert key !in ByIdentity(next, identity);
    assert items[key] == ChildOf(CellAt(cells, ITEMS))[key];
    WrittenLevel(cells, identity, previous, next);
    if ReadKeyed(WriteKeyed(cells, identity, previous, next)) == Some(Stored(Arr(next))) {
      ReadItemIsNamed(WriteKeyed(cells, identity, previous, next), identity, items, next, key);
    }
  }

  /** Every item a list reads back with is one its values name. */
  lemma {:induction false} ReadItemIsNamed(level: Cells, identity: string, items: Cells, next: seq<Json>, key: string)
    requires KeyedBy(next, identity) && IsKept(level, identity, items, Identities(next, identity)) && IsItem(items, key)
    requires ReadKeyed(level) == Some(Stored(Arr(next)))
    ensures key in Identities(next, identity)
  {
    var order := Identities(next, identity);
    var keys := ReadOrder(order, items);
    ReadsEveryItemOnce(order, items);
    assert key in keys;
    var i :| 0 <= i < |keys| && keys[i] == key;
    ListReads(level, identity, items, order, i);
    StoredArray(next);
    ItemNamesKey(next, identity, i, Read(items[key].cells).value, key);
  }

  /** An item read back under a key is the one its values name by it. */
  lemma {:induction false} ItemNamesKey(next: seq<Json>, identity: string, i: nat, read: Members, key: string)
    requires KeyedBy(next, identity) && i < |next|
    requires Stored(Arr(next)).Arr? && i < |Stored(Arr(next)).items|
    requires Stored(Arr(next)).items[i] == Obj(read[identity := Str(key)])
    ensures key in Identities(next, identity)
  {
    KeyedIdentities(next, identity);
    StoredItem(next, i);
    assert StoredMembers(next[i].members)[identity] == Str(key);
    assert Stored(next[i].members[identity]) == Str(Identities(next, identity)[i]);
  }

  /** Between documents that change no list's identity, a difference reads back as the new document
      exactly when it is shape-stable. */
  lemma {:induction false} RoundTripExactlyWhenStable(cells: Cells, previous: Members, next: Members)
    requires Holds(cells, previous, {}) && Comparable(previous, next)
    ensures Read(Write(cells, previous, next)) == Some(StoredMembers(next)) <==> Stable(previous, next)
  {
    if Stable(previous, next) {
      DifferenceRoundTrip(cells, previous, next);
    } else if Read(Write(cells, previous, next)) == Some(StoredMembers(next)) {
      StableOnlyIf(cells, previous, next, {});
    }
  }
}
