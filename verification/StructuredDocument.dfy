/**
 A structured document in its map container: strings are texts, lists whose items carry an
 identity are kept by it, unmarked objects are child maps, and everything else is a plain value.
 The writer writes the difference from `previous` to `next`; the reader rebuilds the document.
 */
module StructuredDocument {
  import opened Wrappers
  import opened Json
  import opened Store
  import opened Strings
  import opened KeyedList

  type Members = map<string, Json>

  predicate Unmarked(value: Json) { value.Obj? && MARKER !in value.members }

  predicate Keyed(value: Json) { value.Arr? && KeyedIdentity(value.items).Some? }

  function CellAt(cells: Cells, key: string): Option<Cell> { if key in cells then Some(cells[key]) else None }

  function At(members: Members, key: string): Option<Json> { if key in members then Some(members[key]) else None }

  /** The child map at a cell: the one there, or an empty one in place of anything else. */
  function ChildOf(cell: Option<Cell>): Cells {
    match cell
    case Some(Child(cells)) => cells
    case _ => map[]
  }

  function ObjectOf(value: Option<Json>): Members {
    match value
    case Some(Obj(members)) => members
    case _ => map[]
  }

  function ArrayOf(value: Option<Json>): seq<Json> {
    match value
    case Some(Arr(items)) => items
    case _ => []
  }

  // ---------------------------------------------------------------- writing

  predicate Changed(previous: Members, next: Members, key: string)
    requires key in next
  {
    At(previous, key) != Some(next[key])
  }

  predicate Removed(previous: Members, next: Members, key: string) { key in previous && key !in next }

  /** The keys a level holds after the difference is written. */
  function WrittenKeys(cells: Cells, previous: Members, next: Members): set<string> {
    (set k | k in cells && !Removed(previous, next, k)) + (set k | k in next && Changed(previous, next, k))
  }

  /** One level after the difference from `previous` to `next` is written to it. */
  function Write(cells: Cells, previous: Members, next: Members): Cells
    decreases Obj(next), 1
  {
    map k | k in WrittenKeys(cells, previous, next) ::
      if k in next && Changed(previous, next, k) then WriteValue(CellAt(cells, k), At(previous, k), next[k])
      else cells[k]
  }

  /** One value, written over what its cell holds. */
  function WriteValue(cell: Option<Cell>, previous: Option<Json>, next: Json): Cell
    decreases next, 2
  {
    match next
    case Str(text) => TextCell(text)
    case Obj(members) =>
      if MARKER in members then Plain(ToLoro(next))
      else Child(Write(ChildOf(cell), ObjectOf(previous), members))
    case Arr(values) =>
      (match KeyedIdentity(values)
       case Some(identity) => Child(WriteKeyed(ChildOf(cell), identity, ArrayOf(previous), values))
       case None => Plain(ToLoro(next)))
    case _ => Plain(ToLoro(next))
  }

  /** A list kept by identity: its marker, its items by identity, and their order. */
  function WriteKeyed(cells: Cells, identity: string, previous: seq<Json>, next: seq<Json>): Cells
    decreases Arr(next), 1
  {
    cells[MARKER := Plain(LStr(identity))]
         [ITEMS := Child(WriteItems(ChildOf(CellAt(cells, ITEMS)), ByIdentity(previous, identity), identity, next))]
         [ORDER := ListCell(Names(Identities(next, identity)))]
  }

  function Names(keys: seq<string>): seq<Loro> { seq(|keys|, i requires 0 <= i < |keys| => LStr(keys[i])) }

  function WriteItems(items: Cells, previous: Members, identity: string, next: seq<Json>): Cells
    decreases Arr(next), 0
  {
    var kept := ByIdentity(next, identity);
    map k | k in (set k | k in items && !Removed(previous, kept, k)) + kept.Keys ::
      if k in kept then
        Child(if kept[k].Obj? then Write(ChildOf(CellAt(items, k)), ObjectOf(At(previous, k)), kept[k].members)
              else ChildOf(CellAt(items, k)))
      else items[k]
  }

  // ---------------------------------------------------------------- reading

  /** One level as a document; nothing when a kept list's marker is not a string. */
  ghost function Read(cells: Cells): Option<Members>
    decreases Child(cells), 0
  {
    if forall k | k in cells :: ReadValue(cells[k]).Some? then Some(map k | k in cells :: ReadValue(cells[k]).value)
    else None
  }

  ghost function ReadValue(cell: Cell): Option<Json>
    decreases cell, 1
  {
    match cell
    case Plain(value) => Some(ToJson(value))
    case TextCell(text) => Some(Str(text))
    case ListCell(entries) => Some(ToJson(LList(entries)))
    case Child(cells) =>
      if MARKER in cells then ReadKeyed(cells)
      else match Read(cells) { case Some(members) => Some(Obj(members)) case None => None }
  }

  function MarkerOf(cell: Cell): Option<string> {
    match cell
    case Plain(LStr(identity)) => Some(identity)
    case TextCell(identity) => Some(identity)
    case _ => None
  }

  /** The strings of an order list. */
  function OrderOf(cell: Option<Cell>): seq<string> {
    match cell
    case Some(ListCell(entries)) => StringsOf(entries)
    case _ => []
  }

  function StringsOf(entries: seq<Loro>): seq<string>
    decreases |entries|
  {
    if entries == [] then []
    else
      var earlier := StringsOf(entries[..|entries| - 1]);
      match entries[|entries| - 1]
      case LStr(key) => earlier + [key]
      case _ => earlier
  }

  ghost function ReadKeyed(cells: Cells): Option<Json>
    requires MARKER in cells
    decreases Child(cells), 0
  {
    match MarkerOf(cells[MARKER])
    case None => None
    case Some(identity) =>
      if !IsItem(cells, ITEMS) then Some(Arr([]))
      else
        var items := cells[ITEMS].cells;
        var keys := ReadOrder(OrderOf(CellAt(cells, ORDER)), items);
        if forall i | 0 <= i < |keys| :: Read(items[keys[i]].cells).Some? then
          Some(Arr(seq(|keys|, i requires 0 <= i < |keys| =>
            Obj(Read(items[keys[i]].cells).value[identity := Str(keys[i])]))))
        else None
  }

  // ---------------------------------------------------------------- what a store holds

  /** The level holds the document, but for members of `skip` it may leave to the reader. */
  ghost predicate Holds(cells: Cells, members: Members, skip: set<string>)
    decreases Obj(members), 0
  {
    && cells.Keys <= members.Keys <= cells.Keys + skip
    && forall k | k in cells :: HoldsValue(cells[k], members[k])
  }

  ghost predicate HoldsValue(cell: Cell, value: Json)
    decreases value, 1
  {
    if value.Str? then cell == TextCell(value.s)
    else if Unmarked(value) then cell.Child? && Holds(cell.cells, value.members, {})
    else if Keyed(value) then cell.Child? && HoldsKeyed(cell.cells, KeyedIdentity(value.items).value, value.items)
    else cell == Plain(ToLoro(value))
  }

  /** A kept list: its own items, each under its identity, in its order; other entries aside. */
  ghost predicate HoldsKeyed(cells: Cells, identity: string, values: seq<Json>)
    requires KeyedBy(values, identity)
    decreases Arr(values), 0
  {
    && MARKER in cells && cells[MARKER] == Plain(LStr(identity))
    && IsItem(cells, ITEMS)
    && ORDER in cells && cells[ORDER] == ListCell(Names(Identities(values, identity)))
    && (forall k :: k in cells[ITEMS].cells <==> k in Identities(values, identity))
    && forall i | 0 <= i < |values| ::
         var key := ItemKey(values[i], identity).value;
         key in cells[ITEMS].cells && HoldsItem(cells[ITEMS].cells[key], identity, values[i])
  }

  ghost predicate HoldsItem(cell: Cell, identity: string, value: Json)
    requires value.Obj?
    decreases value, 1
  {
    cell.Child? && Holds(cell.cells, value.members, {identity})
  }

  lemma {:induction false} StringsOfNames(keys: seq<string>)
    ensures StringsOf(Names(keys)) == keys
    decreases |keys|
  {
    if keys != [] {
      assert Names(keys)[..|keys| - 1] == Names(keys[..|keys| - 1]);
      StringsOfNames(keys[..|keys| - 1]);
    }
  }

  /** A level reads back as what it holds, identities the reader supplies aside. */
  lemma {:induction false} ReadsWhatItHolds(cells: Cells, members: Members, skip: set<string>)
    requires Holds(cells, members, skip)
    ensures Read(cells).Some? && Read(cells).value.Keys == cells.Keys
    ensures forall k | k in cells :: Read(cells).value[k] == Stored(members[k])
    decreases Obj(members), 0
  {
    forall k | k in cells ensures ReadValue(cells[k]) == Some(Stored(members[k])) {
      ReadsWhatValueHolds(cells[k], members[k]);
    }
  }

  lemma {:induction false} ReadsWhatValueHolds(cell: Cell, value: Json)
    requires HoldsValue(cell, value)
    ensures ReadValue(cell) == Some(Stored(value))
    decreases value, 1
  {
    if Unmarked(value) {
      ReadsWhatItHolds(cell.cells, value.members, {});
      StoredObject(value.members);
      assert Read(cell.cells).value == StoredMembers(value.members);
    } else if Keyed(value) {
      ReadsWhatListHolds(cell.cells, KeyedIdentity(value.items).value, value.items);
    }
  }

  lemma {:induction false} ReadsWhatItemHolds(cell: Cell, identity: string, value: Json)
    requires value.Obj? && ItemKey(value, identity).Some? && HoldsItem(cell, identity, value)
    ensures Read(cell.cells).Some?
    ensures Obj(Read(cell.cells).value[identity := Str(ItemKey(value, identity).value)]) == Stored(value)
    decreases value, 1
  {
    ReadsWhatItHolds(cell.cells, value.members, {identity});
    StoredObject(value.members);
    WithIdentity(Read(cell.cells).value, value.members, identity, ItemKey(value, identity).value);
  }

  /** An item read back is whole once the reader has set its identity. */
  lemma {:induction false} WithIdentity(read: Members, members: Members, identity: string, key: string)
    requires read.Keys <= members.Keys <= read.Keys + {identity}
    requires identity in members && members[identity] == Str(key)
    requires forall k | k in read :: read[k] == Stored(members[k])
    ensures read[identity := Str(key)] == StoredMembers(members)
  {
    assert Stored(members[identity]) == Str(key);
  }

  /** A kept list's items are its own, and its order names each of them once. */
  lemma {:induction false} KeptOrder(cells: Cells, identity: string, values: seq<Json>)
    requires KeyedBy(values, identity) && HoldsKeyed(cells, identity, values)
    ensures ReadOrder(OrderOf(CellAt(cells, ORDER)), cells[ITEMS].cells) == Identities(values, identity)
  {
    var items := cells[ITEMS].cells;
    var order := Identities(values, identity);
    KeyedIdentities(values, identity);
    StringsOfNames(order);
    forall k | k in items ensures items[k].Child? {
      assert k in order;
      var i :| 0 <= i < |order| && order[i] == k;
      assert ItemKey(values[i], identity) == Some(k);
      assert HoldsItem(items[k], identity, values[i]);
    }
    ReadsOwnOrder(order, items);
  }

  lemma {:induction false} ReadsWhatListHolds(cells: Cells, identity: string, values: seq<Json>)
    requires KeyedBy(values, identity) && HoldsKeyed(cells, identity, values)
    ensures ReadKeyed(cells) == Some(Stored(Arr(values)))
    decreases Arr(values), 0
  {
    var items := cells[ITEMS].cells;
    var order := Identities(values, identity);
    KeptOrder(cells, identity, values);
    KeyedIdentities(values, identity);
    forall i | 0 <= i < |values|
      ensures order[i] in items && items[order[i]].Child? && Read(items[order[i]].cells).Some?
      ensures Obj(Read(items[order[i]].cells).value[identity := Str(order[i])]) == Stored(values[i])
    {
      assert ItemKey(values[i], identity) == Some(order[i]);
      ReadsWhatItemHolds(items[order[i]], identity, values[i]);
    }
    assert MarkerOf(cells[MARKER]) == Some(identity);
    ListOfItems(cells, identity, items, order, values);
  }

  /** A list whose items read as its values reads as the list of them. */
  lemma {:induction false} ListOfItems(cells: Cells, identity: string, items: Cells, order: seq<string>, values: seq<Json>)
    requires MARKER in cells && MarkerOf(cells[MARKER]) == Some(identity)
    requires ITEMS in cells && cells[ITEMS] == Child(items)
    requires ReadOrder(OrderOf(CellAt(cells, ORDER)), items) == order && |order| == |values|
    requires forall i | 0 <= i < |values| :: IsItem(items, order[i]) && Read(items[order[i]].cells).Some?
                                            && Obj(Read(items[order[i]].cells).value[identity := Str(order[i])]) == Stored(values[i])
    ensures ReadKeyed(cells) == Some(Stored(Arr(values)))
  {
    StoredArray(values);
    assert ReadKeyed(cells).Some?;
    assert ReadKeyed(cells).value.items == Stored(Arr(values)).items;
  }
}
