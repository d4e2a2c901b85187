/** When writing a structured document's difference leaves the store holding the new document. */
module StructuredDocumentWrites {
  import opened Wrappers
  import opened Json
  import opened Store
  import opened KeyedList
  import opened StructuredDocument

  /** The difference names every member, those of `skip` aside: written to an empty map it makes
      the whole of `next`. */
  ghost predicate Fresh(previous: Members, next: Members, skip: set<string>)
    decreases Obj(next), 0
  {
    forall k | k in next && k !in skip :: Changed(previous, next, k) && FreshValue(At(previous, k), next[k])
  }

  ghost predicate FreshValue(previous: Option<Json>, next: Json)
    decreases next, 1
  {
    if Unmarked(next) then Fresh(ObjectOf(previous), next.members, {})
    else if Keyed(next) then
      var identity := KeyedIdentity(next.items).value;
      forall i | 0 <= i < |next.items| :: FreshItem(ByIdentity(ArrayOf(previous), identity), identity, next.items[i])
    else true
  }

  ghost predicate FreshItem(previous: Members, identity: string, item: Json)
    requires HasIdentity(item, identity)
    decreases item, 1
  {
    Fresh(ObjectOf(At(previous, ItemKey(item, identity).value)), item.members, {identity})
  }

  /** From nothing, everything is new. */
  lemma {:induction false} FromNothing(next: Members, skip: set<string>)
    ensures Fresh(map[], next, skip)
    decreases Obj(next), 0
  {
    forall k | k in next && k !in skip ensures FreshValue(None, next[k]) { ValueFromNothing(None, next[k]); }
  }

  lemma {:induction false} ValueFromNothing(previous: Option<Json>, next: Json)
    requires ObjectOf(previous) == map[] && ArrayOf(previous) == []
    ensures FreshValue(previous, next)
    decreases next, 1
  {
    if Unmarked(next) {
      FromNothing(next.members, {});
    } else if Keyed(next) {
      var identity := KeyedIdentity(next.items).value;
      forall i | 0 <= i < |next.items| ensures FreshItem(map[], identity, next.items[i]) {
        FromNothing(next.items[i].members, {identity});
      }
    }
  }

  lemma {:induction false} FreshHolds(previous: Members, next: Members, skip: set<string>)
    requires Fresh(previous, next, skip) && forall k | k in skip && k in next :: next[k].Str?
    ensures Holds(Write(map[], previous, next), next, skip)
    decreases Obj(next), 0
  {
    var cells := Write(map[], previous, next);
    forall k | k in cells ensures HoldsValue(cells[k], next[k]) {
      if k !in skip {
        FreshValueHolds(None, At(previous, k), next[k]);
      }
    }
  }

  /** A value whose difference says all of it is held wherever nothing of it was. */
  lemma {:induction false} FreshValueHolds(cell: Option<Cell>, previous: Option<Json>, next: Json)
    requires FreshValue(previous, next)
    requires Unmarked(next) ==> ChildOf(cell) == map[]
    requires Keyed(next) ==> ChildOf(CellAt(ChildOf(cell), ITEMS)) == map[]
    ensures HoldsValue(WriteValue(cell, previous, next), next)
    decreases next, 1
  {
    if Unmarked(next) {
      FreshHolds(ObjectOf(previous), next.members, {});
    } else if Keyed(next) {
      FreshListHolds(ChildOf(cell), KeyedIdentity(next.items).value, ArrayOf(previous), next.items);
    }
  }

  lemma {:induction false} FreshListHolds(cells: Cells, identity: string, previous: seq<Json>, next: seq<Json>)
    requires KeyedBy(next, identity) && ChildOf(CellAt(cells, ITEMS)) == map[]
    requires forall i | 0 <= i < |next| :: FreshItem(ByIdentity(previous, identity), identity, next[i])
    ensures HoldsKeyed(WriteKeyed(cells, identity, previous, next), identity, next)
    decreases Arr(next), 0
  {
    var had := ByIdentity(previous, identity);
    forall i | 0 <= i < |next|
      ensures var key := ItemKey(next[i], identity).value;
              HoldsItem(ItemCell(map[], had, key, next[i]), identity, next[i])
    {
      assert FreshItem(had, identity, next[i]);
      FreshHolds(ObjectOf(At(had, ItemKey(next[i], identity).value)), next[i].members, {identity});
    }
    ItemsHeld(cells, identity, previous, next);
  }

  /** The child an item is written to. */
  function ItemCell(items: Cells, previous: Members, key: string, item: Json): Cell
    requires item.Obj?
  {
    Child(Write(ChildOf(CellAt(items, key)), ObjectOf(At(previous, key)), item.members))
  }

  /** A kept list is held when no item but its own is left and each of its own is held. */
  lemma {:induction false} ItemsHeld(cells: Cells, identity: string, previous: seq<Json>, next: seq<Json>)
    requires KeyedBy(next, identity)
    requires var items := ChildOf(CellAt(cells, ITEMS)); var had := ByIdentity(previous, identity);
             && (forall k | k in items && k !in had :: k in Identities(next, identity))
             && (forall i | 0 <= i < |next| ::
                   HoldsItem(ItemCell(items, had, ItemKey(next[i], identity).value, next[i]), identity, next[i]))
    ensures HoldsKeyed(WriteKeyed(cells, identity, previous, next), identity, next)
  {
    var items := ChildOf(CellAt(cells, ITEMS));
    var had := ByIdentity(previous, identity);
    var kept := ByIdentity(next, identity);
    var written := WriteItems(items, had, identity, next);
    KeyedListing(next, identity);
    forall k ensures k in written <==> k in Identities(next, identity) {}
    forall i | 0 <= i < |next|
      ensures var key := ItemKey(next[i], identity).value; key in written && HoldsItem(written[key], identity, next[i])
    {
      var key := ItemKey(next[i], identity).value;
      assert kept[key] == next[i];
      assert written[key] == ItemCell(items, had, key, next[i]);
    }
  }

  // ---------------------------------------------------------------- differences that keep the shape

  /** Every value that changes goes from one shape to another the writer handles. */
  ghost predicate Stable(previous: Members, next: Members)
    decreases Obj(next), 0
  {
    forall k | k in next && k in previous && previous[k] != next[k] :: StableValue(previous[k], next[k])
  }

  ghost predicate StableValue(previous: Json, next: Json)
    decreases next, 1
  {
    if Unmarked(next) then
      if Unmarked(previous) then Stable(previous.members, next.members)
      else !Keyed(previous) && FreshValue(Some(previous), next)
    else if Keyed(next) then
      if Keyed(previous) then
        var identity := KeyedIdentity(next.items).value;
        && KeyedIdentity(previous.items) == Some(identity)
        && forall i | 0 <= i < |next.items| :: StableItem(ByIdentity(previous.items, identity), identity, next.items[i])
      else if Unmarked(previous) then ITEMS !in previous.members
      else FreshValue(Some(previous), next)
    else true
  }

  ghost predicate StableItem(previous: Members, identity: string, item: Json)
    requires HasIdentity(item, identity)
    decreases item, 1
  {
    var key := ItemKey(item, identity).value;
    key in previous && previous[key].Obj? ==> Stable(previous[key].members, item.members)
  }

  /** Writing a shape-stable difference into a level that holds `previous` leaves it holding `next`. */
  lemma {:induction false} WriteHolds(cells: Cells, previous: Members, next: Members, skip: set<string>)
    requires Holds(cells, previous, skip) && Stable(previous, next)
    requires forall k | k in skip :: At(previous, k) == At(next, k)
    ensures Holds(Write(cells, previous, next), next, skip)
    decreases Obj(next), 0
  {
    var written := Write(cells, previous, next);
    forall k | k in written ensures k in next && HoldsValue(written[k], next[k]) {
      if k in next && Changed(previous, next, k) {
        if k in previous {
          StableValueHolds(cells[k], previous[k], next[k]);
        } else {
          ValueFromNothing(None, next[k]);
          FreshValueHolds(None, None, next[k]);
        }
      }
    }
  }

  lemma {:induction false} StableValueHolds(cell: Cell, previous: Json, next: Json)
    requires HoldsValue(cell, previous) && StableValue(previous, next)
    ensures HoldsValue(WriteValue(Some(cell), Some(previous), next), next)
    decreases next, 1
  {
    if Unmarked(next) && Unmarked(previous) {
      WriteHolds(cell.cells, previous.members, next.members, {});
    } else if Keyed(next) && Keyed(previous) {
      StableListHolds(cell.cells, KeyedIdentity(next.items).value, previous.items, next.items);
    } else if Unmarked(next) || Keyed(next) {
      if Unmarked(previous) { ValueFromNothing(Some(Null), next); ObjectIsNoList(previous, next); }
      NothingHeld(cell, previous, next);
      FreshValueHolds(Some(cell), Some(previous), next);
    }
  }

  /** A value of another shape leaves nothing a write could keep. */
  lemma {:induction false} NothingHeld(cell: Cell, previous: Json, next: Json)
    requires HoldsValue(cell, previous) && StableValue(previous, next)
    requires (Unmarked(next) && !Unmarked(previous)) || (Keyed(next) && !Keyed(previous))
    ensures Unmarked(next) ==> ChildOf(Some(cell)) == map[]
    ensures Keyed(next) ==> ChildOf(CellAt(ChildOf(Some(cell)), ITEMS)) == map[]
  {}

  /** A list is never diffed against an object. */
  lemma {:induction false} ObjectIsNoList(previous: Json, next: Json)
    requires previous.Obj? && Keyed(next) && FreshValue(Some(Null), next)
    ensures FreshValue(Some(previous), next)
  {
    assert ArrayOf(Some(previous)) == ArrayOf(Some(Null));
  }

  /** The item kept under a key is held in a child of its own. */
  lemma {:induction false} HeldItem(cells: Cells, identity: string, values: seq<Json>, key: string)
    requires KeyedBy(values, identity) && HoldsKeyed(cells, identity, values)
    requires key in cells[ITEMS].cells || key in ByIdentity(values, identity)
    ensures key in cells[ITEMS].cells && key in ByIdentity(values, identity)
    ensures ByIdentity(values, identity)[key].Obj? && HoldsItem(cells[ITEMS].cells[key], identity, ByIdentity(values, identity)[key])
  {
    KeyedListing(values, identity);
    KeyedIdentities(values, identity);
    var order := Identities(values, identity);
    assert key in order;
    var i :| 0 <= i < |order| && order[i] == key;
    assert ItemKey(values[i], identity) == Some(key);
  }

  lemma {:induction false} SameIdentity(a: Json, b: Json, identity: string, key: string)
    requires ItemKey(a, identity) == Some(key) == ItemKey(b, identity)
    ensures a.Obj? && b.Obj? && At(a.members, identity) == At(b.members, identity)
  {}

  lemma {:induction false} StableListHolds(cells: Cells, identity: string, previous: seq<Json>, next: seq<Json>)
    requires KeyedBy(previous, identity) && KeyedBy(next, identity) && HoldsKeyed(cells, identity, previous)
    requires forall i | 0 <= i < |next| :: StableItem(ByIdentity(previous, identity), identity, next[i])
    ensures HoldsKeyed(WriteKeyed(cells, identity, previous, next), identity, next)
    decreases Arr(next), 0
  {
    var items := cells[ITEMS].cells;
    var had := ByIdentity(previous, identity);
    forall i | 0 <= i < |next|
      ensures HoldsItem(ItemCell(items, had, ItemKey(next[i], identity).value, next[i]), identity, next[i])
    {
      StableItemHolds(cells, identity, previous, next[i]);
    }
    forall k | k in items ensures k in had { HeldItem(cells, identity, previous, k); }
    ItemsHeld(cells, identity, previous, next);
  }

  lemma {:induction false} StableItemHolds(cells: Cells, identity: string, previous: seq<Json>, item: Json)
    requires KeyedBy(previous, identity) && HasIdentity(item, identity) && HoldsKeyed(cells, identity, previous)
    requires StableItem(ByIdentity(previous, identity), identity, item)
    ensures var key := ItemKey(item, identity).value;
            HoldsItem(ItemCell(cells[ITEMS].cells, ByIdentity(previous, identity), key, item), identity, item)
    decreases item, 1
  {
    var items := cells[ITEMS].cells;
    var had := ByIdentity(previous, identity);
    var key := ItemKey(item, identity).value;
    if key in had {
      HeldItem(cells, identity, previous, key);
      SameIdentity(had[key], item, identity, key);
      WriteHolds(items[key].cells, had[key].members, item.members, {identity});
    } else {
      if key in items { HeldItem(cells, identity, previous, key); }
      FromNothing(item.members, {identity});
      FreshHolds(map[], item.members, {identity});
    }
  }
}
