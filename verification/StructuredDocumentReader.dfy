/** The reader of a structured document, building the document up as it goes through its cells. */
module StructuredDocumentReader {
  import opened Wrappers
  import opened Json
  import opened Store
  import opened KeyedList
  import opened StructuredDocument

  method ReadLevel(cells: Cells) returns (read: Option<Members>)
    ensures read == Read(cells)
    decreases Child(cells), 1
  {
    var members: Members := map[];
    var pending := cells.Keys;
    while pending != {}
      invariant pending <= cells.Keys && members.Keys == cells.Keys - pending
      invariant forall k | k in members :: ReadValue(cells[k]) == Some(members[k])
      decreases |pending|
    {
      var key :| key in pending;
      var value := ReadCell(cells[key]);
      if value.None? {
        return None;
      }
      members := members[key := value.value];
      pending := pending - {key};
    }
    assert Read(cells).Some? && Read(cells).value == members;
    return Some(members);
  }

  method ReadCell(cell: Cell) returns (read: Option<Json>)
    ensures read == ReadValue(cell)
    decreases cell, 2
  {
    match cell {
      case Plain(value) => return Some(ToJson(value));
      case TextCell(text) => return Some(Str(text));
      case ListCell(entries) => return Some(ToJson(LList(entries)));
      case Child(cells) =>
        if MARKER in cells {
          read := ReadList(cells);
        } else {
          var members := ReadLevel(cells);
          read := if members.Some? then Some(Obj(members.value)) else None;
        }
    }
  }

  /** A list kept by identity: each item read once, in order, with its own key as its identity. */
  method ReadList(cells: Cells) returns (read: Option<Json>)
    requires MARKER in cells
    ensures read == ReadKeyed(cells)
    decreases Child(cells), 1
  {
    var identity := MarkerOf(cells[MARKER]);
    if identity.None? {
      return None;
    }
    if !IsItem(cells, ITEMS) {
      return Some(Arr([]));
    }
    var items := cells[ITEMS].cells;
    var keys := ReadKeys(OrderOf(CellAt(cells, ORDER)), items);
    var ordered := [];
    for i := 0 to |keys|
      invariant |ordered| == i
      invariant forall j | 0 <= j < i :: Read(items[keys[j]].cells).Some?
                                         && ordered[j] == Obj(Read(items[keys[j]].cells).value[identity.value := Str(keys[j])])
    {
      var item := ReadLevel(items[keys[i]].cells);
      if item.None? {
        return None;
      }
      ordered := ordered + [Obj(item.value[identity.value := Str(keys[i])])];
    }
    assert ReadKeyed(cells).Some? && ReadKeyed(cells).value.items == ordered;
    return Some(Arr(ordered));
  }

  // ---------------------------------------------------------------- whatever another program has stored

  /** A list's marker is a string, stored as a value or as a text. */
  lemma {:induction false} MarkerExactly(cell: Cell, identity: string)
    ensures MarkerOf(cell) == Some(identity) <==> cell == Plain(LStr(identity)) || cell == TextCell(identity)
  {
  }

  /** A marked map reads as a list, an empty one where it has no map of items, and cannot be read where its
      marker is no string; an item reads with its key as its identity. */
  lemma {:induction false} MarkedReads(cells: Cells)
    requires MARKER in cells
    ensures (exists name :: cells[MARKER] == Plain(LStr(name)) || cells[MARKER] == TextCell(name)) || ReadKeyed(cells).None?
    ensures (exists name :: cells[MARKER] == Plain(LStr(name)) || cells[MARKER] == TextCell(name)) && !IsItem(cells, ITEMS)
            ==> ReadKeyed(cells) == Some(Arr([]))
    ensures ReadKeyed(cells).Some? && IsItem(cells, ITEMS) ==>
              var keys, name := ReadOrder(OrderOf(CellAt(cells, ORDER)), cells[ITEMS].cells), MarkerOf(cells[MARKER]).value;
              && ReadKeyed(cells).value.Arr? && |ReadKeyed(cells).value.items| == |keys|
              && forall i | 0 <= i < |keys| ::
                   var item := ReadKeyed(cells).value.items[i];
                   item.Obj? && name in item.members && item.members[name] == Str(keys[i])
  {
    if MarkerOf(cells[MARKER]).Some? { MarkerExactly(cells[MARKER], MarkerOf(cells[MARKER]).value); }
    forall name | cells[MARKER] == Plain(LStr(name)) || cells[MARKER] == TextCell(name) ensures MarkerOf(cells[MARKER]) == Some(name) {
      MarkerExactly(cells[MARKER], name);
    }
  }

  /** The order list's strings, and nothing else it holds, are the order. */
  lemma {:induction false} OrderExactly(entries: seq<Loro>)
    ensures forall key :: key in StringsOf(entries) <==> LStr(key) in entries
    ensures forall keys: seq<string> | entries == Names(keys) :: StringsOf(entries) == keys
    decreases |entries|
  {
    if entries != [] {
      var fewer := entries[..|entries| - 1];
      OrderExactly(fewer);
      assert entries == fewer + [entries[|entries| - 1]];
      forall keys: seq<string> | entries == Names(keys) ensures StringsOf(entries) == keys {
        assert fewer == Names(keys[..|keys| - 1]);
        assert keys == keys[..|keys| - 1] + [keys[|keys| - 1]];
      }
    }
  }

  /** A cell reads as a string exactly when it is a text or a string, and as an object only when it is a
      value of that kind or a child map without a mark. */
  lemma {:induction false} ReadExactly(cell: Cell)
    ensures forall text :: ReadValue(cell) == Some(Str(text)) <==> cell == TextCell(text) || cell == Plain(LStr(text))
    ensures ReadValue(cell).Some? && ReadValue(cell).value.Obj? <==>
            (cell.Plain? && cell.value.LMap?) || (cell.Child? && MARKER !in cell.cells && Read(cell.cells).Some?)
    ensures ReadValue(cell).None? ==> cell.Child?
  {
  }
}
