/**
 Exactly when a structured document reads back after its difference is written, whatever the store
 holds: also across a change of the identity a list is kept by, and over an object with members
 named as a kept list's.
 */
module StructuredDocumentExact {
  import opened Wrappers
  import opened Json
  import opened Store
  import opened Strings
  import opened KeyedList
  import opened StructuredDocument
  import opened StructuredDocumentWrites
  import opened StructuredDocumentTheorems

  /** The difference lands on the level: no entry is left that neither document names, what it leaves
      alone reads as it should, and what it writes lands. `identity` is left to the reader of an item. */
  ghost predicate Lands(cells: Cells, previous: Members, next: Members, identity: Option<string>)
    decreases Obj(next), 0
  {
    && (forall k | k in cells && k !in next :: k in previous)
    && (forall k | k in next && identity != Some(k) :: LandsMember(cells, previous, next, k))
    && (forall k | k in cells && k in next && identity == Some(k) :: Changed(previous, next, k) || ReadValue(cells[k]).Some?)
  }

  ghost predicate LandsMember(cells: Cells, previous: Members, next: Members, k: string)
    requires k in next
    decreases next[k], 2
  {
    if Changed(previous, next, k) then LandsValue(CellAt(cells, k), At(previous, k), next[k])
    else k in cells && ReadValue(cells[k]) == Some(Stored(next[k]))
  }

  ghost predicate LandsValue(cell: Option<Cell>, previous: Option<Json>, next: Json)
    decreases next, 1
  {
    if Unmarked(next) then Lands(ChildOf(cell), ObjectOf(previous), next.members, None)
    else if Keyed(next) then
      LandsItems(ChildOf(CellAt(ChildOf(cell), ITEMS)), ArrayOf(previous), KeyedIdentity(next.items).value, next.items)
    else true
  }

  /** Every item stored is named by the new list or, by the same identity, by the old one; and each of
      the new list lands on what is stored under its name. */
  ghost predicate LandsItems(items: Cells, previous: seq<Json>, identity: string, next: seq<Json>)
    requires KeyedBy(next, identity)
    decreases Arr(next), 0
  {
    && (forall k | IsItem(items, k) :: k in Identities(next, identity) || k in ByIdentity(previous, identity))
    && (forall i | 0 <= i < |next| :: LandsItem(items, ByIdentity(previous, identity), identity, next[i]))
  }

  ghost predicate LandsItem(items: Cells, previous: Members, identity: string, item: Json)
    requires HasIdentity(item, identity)
    decreases item, 1
  {
    var key := ItemKey(item, identity).value;
    Lands(ChildOf(CellAt(items, key)), ObjectOf(At(previous, key)), item.members, Some(identity))
  }

  // ---------------------------------------------------------------- one level

  /** The level reads as the document, once the reader has set an item's identity. */
  ghost predicate LevelReads(cells: Cells, next: Members, identity: Option<string>) {
    && Read(cells).Some?
    && (identity.None? ==> Read(cells).value == StoredMembers(next))
    && (identity.Some? ==> identity.value in next && Read(cells).value[identity.value := next[identity.value]] == StoredMembers(next))
  }

  /** Member by member, what `LevelReads` asks for. */
  ghost predicate MembersRead(cells: Cells, next: Members, identity: Option<string>) {
    && (forall k | k in cells :: k in next)
    && (forall k | k in next && identity != Some(k) :: k in cells && ReadValue(cells[k]) == Some(Stored(next[k])))
    && (forall k | k in cells && identity == Some(k) :: ReadValue(cells[k]).Some?)
  }

  lemma {:induction false} LevelReadsByMember(cells: Cells, next: Members, identity: Option<string>)
    requires identity.Some? ==> identity.value in next && next[identity.value].Str?
    ensures LevelReads(cells, next, identity) <==> MembersRead(cells, next, identity)
  {
    if LevelReads(cells, next, identity) { LevelGivesMembers(cells, next, identity); }
    if MembersRead(cells, next, identity) { MembersGiveLevel(cells, next, identity); }
  }

  lemma {:induction false} LevelGivesMembers(cells: Cells, next: Members, identity: Option<string>)
    requires LevelReads(cells, next, identity)
    ensures MembersRead(cells, next, identity)
  {
    var read := Read(cells).value;
    var whole := if identity.Some? then read[identity.value := next[identity.value]] else read;
    forall k | k in cells ensures k in next { assert k in read && k in whole; }
    forall k | k in next && identity != Some(k) ensures k in cells && ReadValue(cells[k]) == Some(Stored(next[k])) {
      assert k in whole && k in read;
    }
  }

  lemma {:induction false} MembersGiveLevel(cells: Cells, next: Members, identity: Option<string>)
    requires identity.Some? ==> identity.value in next && next[identity.value].Str?
    requires MembersRead(cells, next, identity)
    ensures LevelReads(cells, next, identity)
  {
    assert forall k | k in cells :: ReadValue(cells[k]).Some?;
    var read := Read(cells).value;
    if identity.Some? {
      assert read[identity.value := next[identity.value]] == StoredMembers(next);
    } else {
      assert read == StoredMembers(next);
    }
  }

  /** A level reads back as the new document exactly when the difference lands. */
  lemma {:induction false} LevelExactly(cells: Cells, previous: Members, next: Members, identity: Option<string>)
    requires identity.Some? ==> identity.value in next && next[identity.value].Str?
    ensures LevelReads(Write(cells, previous, next), next, identity) <==> Lands(cells, previous, next, identity)
    decreases Obj(next), 0
  {
    var written := Write(cells, previous, next);
    LevelReadsByMember(written, next, identity);
    forall k | k in next && identity != Some(k)
      ensures LandsMember(cells, previous, next, k) <==> k in written && ReadValue(written[k]) == Some(Stored(next[k]))
    {
      if Changed(previous, next, k) {
        ValueExactly(CellAt(cells, k), At(previous, k), next[k]);
      }
    }
    forall k | k in cells && k !in next ensures k in written <==> k !in previous {}
    forall k | k in next && identity == Some(k)
      ensures (k in written ==> ReadValue(written[k]).Some?) <==> (k in cells ==> Changed(previous, next, k) || ReadValue(cells[k]).Some?)
    {
      if Changed(previous, next, k) { TextIsWritten(cells, previous, next, k); }
    }
  }

  lemma {:induction false} TextIsWritten(cells: Cells, previous: Members, next: Members, k: string)
    requires k in next && next[k].Str? && Changed(previous, next, k)
    ensures k in Write(cells, previous, next) && ReadValue(Write(cells, previous, next)[k]).Some?
  {
    assert WriteValue(CellAt(cells, k), At(previous, k), next[k]) == TextCell(next[k].s);
  }

  lemma {:induction false} ValueExactly(cell: Option<Cell>, previous: Option<Json>, next: Json)
    ensures ReadValue(WriteValue(cell, previous, next)) == Some(Stored(next)) <==> LandsValue(cell, previous, next)
    decreases next, 1
  {
    if Unmarked(next) {
      LevelExactly(ChildOf(cell), ObjectOf(previous), next.members, None);
      ObjectReads(Write(ChildOf(cell), ObjectOf(previous), next.members), next.members);
    } else if Keyed(next) {
      ListReadsBack(cell, previous, next);
      ListExactly(ChildOf(cell), KeyedIdentity(next.items).value, ArrayOf(previous), next.items);
    }
  }

  /** A child map reads as an unmarked object exactly when its level does. */
  lemma {:induction false} ObjectReads(cells: Cells, members: Members)
    requires MARKER !in members
    ensures ReadValue(Child(cells)) == Some(Stored(Obj(members))) <==> LevelReads(cells, members, None)
  {
    StoredObject(members);
    LevelReadsByMember(cells, members, None);
  }

  // ---------------------------------------------------------------- one kept list

  /** A list reads back exactly when no other item is stored and each of its own reads as it. */
  lemma {:induction false} ListExactly(cells: Cells, identity: string, previous: seq<Json>, next: seq<Json>)
    requires KeyedBy(next, identity)
    ensures MARKER in WriteKeyed(cells, identity, previous, next)
    ensures ReadKeyed(WriteKeyed(cells, identity, previous, next)) == Some(Stored(Arr(next))) <==>
            LandsItems(ChildOf(CellAt(cells, ITEMS)), previous, identity, next)
    decreases Arr(next), 0
  {
    var items, had := ChildOf(CellAt(cells, ITEMS)), ByIdentity(previous, identity);
    var written := WriteItems(items, had, identity, next);
    forall i | 0 <= i < |next|
      ensures LandsItem(items, had, identity, next[i]) <==>
              LevelReads(ItemCell(items, had, ItemKey(next[i], identity).value, next[i]).cells, next[i].members, Some(identity))
    {
      var key := ItemKey(next[i], identity).value;
      LevelExactly(ChildOf(CellAt(items, key)), ObjectOf(At(had, key)), next[i].members, Some(identity));
    }
    WrittenLevel(cells, identity, previous, next);
    StraysExactly(items, had, identity, next);
    forall i | 0 <= i < |next|
      ensures var key := ItemKey(next[i], identity).value; IsItem(written, key) && written[key] == ItemCell(items, had, key, next[i])
    {
      WrittenItem(items, had, identity, next, i);
    }
    KeptReadsExactly(WriteKeyed(cells, identity, previous, next), identity, written, next);
  }

  /** What is stored under no name of the new list stays exactly if the old one does not name it. */
  lemma {:induction false} StraysExactly(items: Cells, previous: Members, identity: string, next: seq<Json>)
    requires KeyedBy(next, identity)
    ensures (forall k | IsItem(WriteItems(items, previous, identity, next), k) :: k in Identities(next, identity)) <==>
            (forall k | IsItem(items, k) :: k in Identities(next, identity) || k in previous)
  {
    var written := WriteItems(items, previous, identity, next);
    KeyedListing(next, identity);
    forall k | k !in Identities(next, identity)
      ensures IsItem(written, k) <==> IsItem(items, k) && k !in previous
    {}
    if forall k | IsItem(written, k) :: k in Identities(next, identity) {
      forall k | IsItem(items, k) ensures k in Identities(next, identity) || k in previous {
        if k !in Identities(next, identity) { assert !IsItem(written, k); }
      }
    }
  }

  /** A kept list's level reads as its values exactly when it has their items and no others, and each
      reads as its value. */
  lemma {:induction false} KeptReadsExactly(level: Cells, identity: string, items: Cells, next: seq<Json>)
    requires KeyedBy(next, identity) && IsKept(level, identity, items, Identities(next, identity))
    requires forall i | 0 <= i < |next| :: IsItem(items, ItemKey(next[i], identity).value)
    ensures ReadKeyed(level) == Some(Stored(Arr(next))) <==>
            && (forall k | IsItem(items, k) :: k in Identities(next, identity))
            && forall i | 0 <= i < |next| :: LevelReads(items[ItemKey(next[i], identity).value].cells, next[i].members, Some(identity))
  {
    KeyedIdentities(next, identity);
    if ReadKeyed(level) == Some(Stored(Arr(next))) {
      forall k | IsItem(items, k) ensures k in Identities(next, identity) {
        ReadItemIsNamed(level, identity, items, next, k);
      }
      OwnOrder(identity, items, next);
      forall i | 0 <= i < |next| ensures LevelReads(items[ItemKey(next[i], identity).value].cells, next[i].members, Some(identity)) {
        KeptItemReads(level, identity, items, next, i);
      }
    } else if (forall k | IsItem(items, k) :: k in Identities(next, identity))
           && forall i | 0 <= i < |next| :: LevelReads(items[ItemKey(next[i], identity).value].cells, next[i].members, Some(identity)) {
      OwnOrder(identity, items, next);
      forall i | 0 <= i < |next|
        ensures var key := Identities(next, identity)[i];
                IsItem(items, key) && Read(items[key].cells).Some? && Obj(Read(items[key].cells).value[identity := Str(key)]) == Stored(next[i])
      {
        assert ItemKey(next[i], identity) == Some(Identities(next, identity)[i]);
        StoredObject(next[i].members);
      }
      ListOfItems(level, identity, items, Identities(next, identity), next);
    }
  }

  lemma {:induction false} OwnOrder(identity: string, items: Cells, next: seq<Json>)
    requires KeyedBy(next, identity)
    requires forall i | 0 <= i < |next| :: IsItem(items, ItemKey(next[i], identity).value)
    requires forall k | IsItem(items, k) :: k in Identities(next, identity)
    ensures ReadOrder(Identities(next, identity), items) == Identities(next, identity)
  {
    KeyedIdentities(next, identity);
    forall k | k in Identities(next, identity) ensures IsItem(items, k) {
      var i :| 0 <= i < |next| && Identities(next, identity)[i] == k;
      assert ItemKey(next[i], identity) == Some(k);
    }
    ReadsOwnOrder(Identities(next, identity), items);
  }

  lemma {:induction false} KeptItemReads(level: Cells, identity: string, items: Cells, next: seq<Json>, i: nat)
    requires KeyedBy(next, identity) && IsKept(level, identity, items, Identities(next, identity)) && i < |next|
    requires ReadOrder(Identities(next, identity), items) == Identities(next, identity)
    requires ReadKeyed(level) == Some(Stored(Arr(next)))
    ensures var key := ItemKey(next[i], identity).value; IsItem(items, key) && LevelReads(items[key].cells, next[i].members, Some(identity))
  {
    KeyedIdentities(next, identity);
    ListReads(level, identity, items, Identities(next, identity), i);
    StoredItem(next, i);
  }

  // ---------------------------------------------------------------- documents

  /** Whatever the store holds, the written difference reads back as the new document exactly when it
      lands. */
  lemma {:induction false} RoundTripExactly(cells: Cells, previous: Members, next: Members)
    ensures Read(Write(cells, previous, next)) == Some(StoredMembers(next)) <==> Lands(cells, previous, next, None)
  {
    LevelExactly(cells, previous, next, None);
  }

  /** A level reads as a document whose integers an `i64` holds. */
  lemma {:induction false} ReadIntegersFit(cells: Cells)
    ensures Read(cells).Some? ==> Exact(Obj(Read(cells).value))
    decreases Child(cells), 0
  {
    forall k | k in cells && ReadValue(cells[k]).Some? ensures Exact(ReadValue(cells[k]).value) { ReadValueIntegersFit(cells[k]); }
  }

  lemma {:induction false} ReadValueIntegersFit(cell: Cell)
    ensures ReadValue(cell).Some? ==> Exact(ReadValue(cell).value)
    decreases cell, 1
  {
    match cell
    case Plain(value) => StoredIntegersFit(value);
    case TextCell(_) =>
    case ListCell(entries) => StoredIntegersFit(LList(entries));
    case Child(cells) => if MARKER in cells { KeptIntegersFit(cells); } else { ReadIntegersFit(cells); }
  }

  lemma {:induction false} KeptIntegersFit(cells: Cells)
    requires MARKER in cells
    ensures ReadKeyed(cells).Some? ==> Exact(ReadKeyed(cells).value)
    decreases Child(cells), 0
  {
    if ReadKeyed(cells).Some? && IsItem(cells, ITEMS) {
      var identity, items := MarkerOf(cells[MARKER]).value, cells[ITEMS].cells;
      var keys := ReadOrder(OrderOf(CellAt(cells, ORDER)), items);
      forall i | 0 <= i < |keys| ensures Exact(Obj(Read(items[keys[i]].cells).value[identity := Str(keys[i])])) {
        ReadIntegersFit(items[keys[i]].cells);
      }
    }
  }

  /** And as the next document itself exactly when besides its integers fit. */
  lemma {:induction false} RoundTripIsExactly(cells: Cells, previous: Members, next: Members)
    ensures Read(Write(cells, previous, next)) == Some(next) <==> Exact(Obj(next)) && Lands(cells, previous, next, None)
  {
    RoundTripExactly(cells, previous, next);
    ReadIntegersFit(Write(cells, previous, next));
    StoredObject(next);
    StoredIsExact(Obj(next));
  }

  /** A shape-stable difference lands on a store that holds the document it starts from. */
  lemma {:induction false} StableLands(cells: Cells, previous: Members, next: Members)
    requires Holds(cells, previous, {}) && Stable(previous, next)
    ensures Lands(cells, previous, next, None)
  {
    DifferenceRoundTrip(cells, previous, next);
    RoundTripExactly(cells, previous, next);
  }

  /** Where a list kept by one identity is written as one kept by another, it reads back exactly when
      every old identity is a new one, or the other identity of an item that was there, and each item
      lands on what is stored under its name. */
  lemma {:induction false} IdentityChangeExactly(cells: Cells, was: string, identity: string, previous: seq<Json>, next: seq<Json>)
    requires KeyedBy(previous, was) && HoldsKeyed(cells, was, previous) && KeyedBy(next, identity)
    ensures MARKER in WriteKeyed(cells, identity, previous, next)
    ensures ReadKeyed(WriteKeyed(cells, identity, previous, next)) == Some(Stored(Arr(next))) <==>
            && (forall k | k in Identities(previous, was) :: k in Identities(next, identity) || k in ByIdentity(previous, identity))
            && (forall i | 0 <= i < |next| :: LandsItem(cells[ITEMS].cells, ByIdentity(previous, identity), identity, next[i]))
  {
    ListExactly(cells, identity, previous, next);
    forall k ensures IsItem(cells[ITEMS].cells, k) <==> k in Identities(previous, was) {
      StoredUnderOld(cells, was, previous, k);
    }
    StoredUnderOld(cells, was, previous, "");
    LandsNamed(cells[ITEMS].cells, Identities(previous, was), previous, identity, next);
  }

  lemma {:induction false} LandsNamed(items: Cells, names: seq<string>, previous: seq<Json>, identity: string, next: seq<Json>)
    requires KeyedBy(next, identity) && forall k :: IsItem(items, k) <==> k in names
    ensures LandsItems(items, previous, identity, next) <==>
            && (forall k | k in names :: k in Identities(next, identity) || k in ByIdentity(previous, identity))
            && (forall i | 0 <= i < |next| :: LandsItem(items, ByIdentity(previous, identity), identity, next[i]))
  {
  }

  /** What is stored as an item of a held list is what the list names. */
  lemma {:induction false} StoredUnderOld(cells: Cells, was: string, previous: seq<Json>, key: string)
    requires KeyedBy(previous, was) && HoldsKeyed(cells, was, previous)
    ensures IsItem(ChildOf(CellAt(cells, ITEMS)), key) <==> key in Identities(previous, was)
    ensures ChildOf(CellAt(cells, ITEMS)) == cells[ITEMS].cells
  {
    if key in cells[ITEMS].cells { HeldItem(cells, was, previous, key); }
  }

  /** An item of a list that holds nothing under its name lands exactly when the difference names all
      of it. */
  lemma {:induction false} NewItemLands(items: Cells, previous: Members, identity: string, item: Json)
    requires HasIdentity(item, identity) && ChildOf(CellAt(items, ItemKey(item, identity).value)) == map[]
    ensures LandsItem(items, previous, identity, item) <==> FreshItem(previous, identity, item)
  {
    var key := ItemKey(item, identity).value;
    var had := ObjectOf(At(previous, key));
    LevelExactly(map[], had, item.members, Some(identity));
    if FreshItem(previous, identity, item) {
      FreshHolds(had, item.members, {identity});
      ReadsWhatItHolds(Write(map[], had, item.members), item.members, {identity});
      WithIdentity(Read(Write(map[], had, item.members)).value, item.members, identity, key);
    } else if LevelReads(Write(map[], had, item.members), item.members, Some(identity)) {
      ItemReadsAs(Write(map[], had, item.members), identity, key, item.members);
      FreshOnlyIf(had, item.members, {identity});
    }
  }

  /** Where none of the old identities is one of the new ones, a list kept by another identity reads
      back exactly when every old identity is the other one of an item that was there, and the
      difference names all of every item. */
  lemma {:induction false} DisjointIdentitiesExactly(cells: Cells, was: string, identity: string, previous: seq<Json>, next: seq<Json>)
    requires KeyedBy(previous, was) && HoldsKeyed(cells, was, previous) && KeyedBy(next, identity)
    requires forall k | k in Identities(previous, was) :: k !in Identities(next, identity)
    ensures MARKER in WriteKeyed(cells, identity, previous, next)
    ensures ReadKeyed(WriteKeyed(cells, identity, previous, next)) == Some(Stored(Arr(next))) <==>
            && (forall k | k in Identities(previous, was) :: k in ByIdentity(previous, identity))
            && (forall i | 0 <= i < |next| :: FreshItem(ByIdentity(previous, identity), identity, next[i]))
  {
    IdentityChangeExactly(cells, was, identity, previous, next);
    KeyedIdentities(next, identity);
    forall i | 0 <= i < |next|
      ensures LandsItem(cells[ITEMS].cells, ByIdentity(previous, identity), identity, next[i]) <==>
              FreshItem(ByIdentity(previous, identity), identity, next[i])
    {
      assert ItemKey(next[i], identity) == Some(Identities(next, identity)[i]);
      assert Identities(next, identity)[i] !in cells[ITEMS].cells;
      NewItemLands(cells[ITEMS].cells, ByIdentity(previous, identity), identity, next[i]);
    }
  }

  /** Where an object becomes a kept list, it reads back exactly when every member of the object's own
      `$items` that is an object or a kept list is named by the list, and each item lands on it. */
  lemma {:induction false} ItemsObjectExactly(cell: Cell, previous: Json, next: Json)
    requires HoldsValue(cell, previous) && Unmarked(previous) && Keyed(next)
    requires ITEMS in previous.members && Unmarked(previous.members[ITEMS])
    ensures var identity, own := KeyedIdentity(next.items).value, previous.members[ITEMS].members;
            var items := ChildOf(CellAt(ChildOf(Some(cell)), ITEMS));
            ReadValue(WriteValue(Some(cell), Some(previous), next)) == Some(Stored(next)) <==>
            && (forall k | k in own && (Unmarked(own[k]) || Keyed(own[k])) :: k in Identities(next.items, identity))
            && (forall i | 0 <= i < |next.items| :: LandsItem(items, map[], identity, next.items[i]))
  {
    ValueExactly(Some(cell), Some(previous), next);
    var own, items := previous.members[ITEMS].members, ChildOf(CellAt(ChildOf(Some(cell)), ITEMS));
    assert HoldsValue(cell.cells[ITEMS], previous.members[ITEMS]);
    assert Holds(items, own, {});
    forall k ensures IsItem(items, k) <==> k in own && (Unmarked(own[k]) || Keyed(own[k])) {
      if k in items { assert HoldsValue(items[k], own[k]); }
    }
  }

  // ---------------------------------------------------------------- the failures, at documents

  /** A document with a member that does not read back does not. */
  lemma {:induction false} MemberIsLost(cells: Cells, previous: Members, next: Members, k: string)
    requires k in cells && k in previous && k in next && previous[k] != next[k]
    requires ReadValue(WriteValue(Some(cells[k]), Some(previous[k]), next[k])) != Some(Stored(next[k]))
    ensures Read(Write(cells, previous, next)) != Some(StoredMembers(next))
  {
    ValueExactly(Some(cells[k]), Some(previous[k]), next[k]);
    assert !LandsMember(cells, previous, next, k);
    RoundTripExactly(cells, previous, next);
  }

  lemma {:induction false} HeldKept(cell: Cell, value: Json)
    requires HoldsValue(cell, value) && Keyed(value)
    ensures cell.Child? && HoldsKeyed(cell.cells, KeyedIdentity(value.items).value, value.items)
  {
  }

  /** An old identity that no item has as its new one is left behind. */
  lemma {:induction false} OldIdentityStays(cell: Cell, previous: Json, next: Json, key: string)
    requires HoldsValue(cell, previous) && Keyed(previous) && Keyed(next)
    requires key in Identities(previous.items, KeyedIdentity(previous.items).value)
    requires var identity := KeyedIdentity(next.items).value; key !in Identities(next.items, identity) && key !in ByIdentity(previous.items, identity)
    ensures ReadValue(WriteValue(Some(cell), Some(previous), next)) != Some(Stored(next))
  {
    HeldKept(cell, previous);
    OldItemStays(cell.cells, KeyedIdentity(previous.items).value, KeyedIdentity(next.items).value, previous.items, next.items, key);
    ListWritten(cell, previous, next);
  }

  lemma {:induction false} ListWritten(cell: Cell, previous: Json, next: Json)
    requires cell.Child? && Keyed(previous) && Keyed(next)
    ensures var level := WriteKeyed(cell.cells, KeyedIdentity(next.items).value, previous.items, next.items);
            MARKER in level && ReadValue(WriteValue(Some(cell), Some(previous), next)) == ReadKeyed(level)
            && Stored(next) == Stored(Arr(next.items))
  {
    ListReadsBack(Some(cell), Some(previous), next);
  }

  lemma {:induction false} OldItemStays(cells: Cells, was: string, identity: string, previous: seq<Json>, next: seq<Json>, key: string)
    requires KeyedBy(previous, was) && HoldsKeyed(cells, was, previous) && KeyedBy(next, identity)
    requires key in Identities(previous, was) && key !in Identities(next, identity) && key !in ByIdentity(previous, identity)
    ensures MARKER in WriteKeyed(cells, identity, previous, next)
    ensures ReadKeyed(WriteKeyed(cells, identity, previous, next)) != Some(Stored(Arr(next)))
  {
    StoredUnderOld(cells, was, previous, key);
    StrayItemSurvives(cells, identity, previous, next, key);
  }

  function ListOf(value: Json): Members { map["list" := value] }

  lemma {:induction false} HeldList(value: Json)
    ensures var held := Write(map[], map[], ListOf(value));
            "list" in held && HoldsValue(held["list"], value) && Read(held) == Some(StoredMembers(ListOf(value)))
  {
    SeedRoundTrip(ListOf(value));
    FromNothing(ListOf(value), {});
    FreshHolds(map[], ListOf(value), {});
  }

  const BY_ID: Json := Arr([Obj(map["id" := Str("a")])])
  const BY_UID: Json := Arr([Obj(map["uid" := Str("b")])])
  const BY_ITEMS: Json := Obj(map[ITEMS := Obj(map["a" := Obj(map[])])])

  lemma {:induction false} KeptBy()
    ensures KeyedIdentity(BY_ID.items) == Some("id") && Identities(BY_ID.items, "id") == ["a"]
    ensures KeyedIdentity(BY_UID.items) == Some("uid") && Identities(BY_UID.items, "uid") == ["b"]
    ensures ByIdentity(BY_ID.items, "uid") == map[]
  {
    assert HasIdentity(BY_ID.items[0], "id") && HasIdentity(BY_UID.items[0], "uid");
    assert !HasIdentity(BY_UID.items[0], "id");
    assert BY_ID.items[..0] == [] && BY_UID.items[..0] == [];
    assert Identities(BY_ID.items, "id") == [] + ["a"] && Identities(BY_UID.items, "uid") == [] + ["b"];
  }

  /** A document that changes what its list is kept by does not read back. */
  lemma {:induction false} ChangedIdentityIsLost()
    ensures var held := Write(map[], map[], ListOf(BY_ID));
            && Read(held) == Some(StoredMembers(ListOf(BY_ID)))
            && Read(Write(held, ListOf(BY_ID), ListOf(BY_UID))) != Some(StoredMembers(ListOf(BY_UID)))
  {
    HeldList(BY_ID);
    KeptBy();
    var held := Write(map[], map[], ListOf(BY_ID));
    assert BY_ID.items[0].members.Keys != BY_UID.items[0].members.Keys;
    OldIdentityStays(held["list"], BY_ID, BY_UID, "a");
    MemberIsLost(held, ListOf(BY_ID), ListOf(BY_UID), "list");
  }

  /** A document whose object has members named as a kept list's does not read back as such a list. */
  lemma {:induction false} ItemsMemberIsLost()
    ensures var held := Write(map[], map[], ListOf(BY_ITEMS));
            && Read(held) == Some(StoredMembers(ListOf(BY_ITEMS)))
            && Read(Write(held, ListOf(BY_ITEMS), ListOf(BY_UID))) != Some(StoredMembers(ListOf(BY_UID)))
  {
    HeldList(BY_ITEMS);
    KeptBy();
    var held := Write(map[], map[], ListOf(BY_ITEMS));
    assert Unmarked(BY_ITEMS) && Unmarked(BY_ITEMS.members[ITEMS]) && Unmarked(BY_ITEMS.members[ITEMS].members["a"]);
    ItemsObjectExactly(held["list"], BY_ITEMS, BY_UID);
    MemberIsLost(held, ListOf(BY_ITEMS), ListOf(BY_UID), "list");
  }
}
