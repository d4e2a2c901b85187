/**
 The writers of structured documents and structured maps, changing their map container in place:
 a loop deletes the members that are gone, another writes those that changed, each through the
 child container it opens. The members may come in any order; the outcome is always the same.
 */
module MapContainers {
  import opened Wrappers
  import opened Json
  import opened Store
  import opened KeyedList
  import opened StructuredDocument
  import opened StructuredMap

  class MapContainer {
    var cells: Cells

    constructor (cells: Cells)
      ensures this.cells == cells
    {
      this.cells := cells;
    }

    method Delete(keys: set<string>)
      modifies this
      ensures cells == map k | k in old(cells) && k !in keys :: old(cells)[k]
    {
      var pending := keys;
      while pending != {}
        invariant pending <= keys
        invariant cells == map k | k in old(cells) && k !in keys - pending :: old(cells)[k]
        decreases |pending|
      {
        var key :| key in pending;
        cells := cells - {key};
        pending := pending - {key};
      }
    }

    method WriteDocument(previous: Members, next: Members)
      modifies this
      ensures cells == Write(old(cells), previous, next)
      decreases Obj(next), 1
    {
      Delete(previous.Keys - next.Keys);
      var pending := next.Keys;
      while pending != {}
        invariant pending <= next.Keys && MembersWritten(old(cells), previous, next, pending, cells)
        decreases |pending|
      {
        var key :| key in pending;
        MemberWritten(old(cells), previous, next, pending, cells, key);
        pending := pending - {key};
        if key !in previous || previous[key] != next[key] {
          WriteMember(key, At(previous, key), next[key]);
        }
      }
      AllWritten(old(cells), previous, next, cells);
    }

    /** The same for a structured map, whose objects are all child maps. */
    method WriteStructuredMap(previous: Members, next: Members)
      modifies this
      ensures cells == WriteMap(old(cells), previous, next)
      decreases Obj(next), 0
    {
      Delete(previous.Keys - next.Keys);
      var pending := next.Keys;
      while pending != {}
        invariant pending <= next.Keys && MapWritten(old(cells), previous, next, pending, cells)
        decreases |pending|
      {
        var key :| key in pending;
        MapMemberWritten(old(cells), previous, next, pending, cells, key);
        pending := pending - {key};
        if key !in previous || previous[key] != next[key] {
          WriteMapMember(key, At(previous, key), next[key]);
        }
      }
      MapAllWritten(old(cells), previous, next, cells);
    }

    method WriteMapMember(key: string, previous: Option<Json>, next: Json)
      modifies this
      ensures cells == old(cells)[key := WriteMapValue(CellAt(old(cells), key), previous, next)]
      decreases next, 1
    {
      if next.Obj? {
        var child := new MapContainer(ChildOf(CellAt(cells, key)));
        child.WriteStructuredMap(ObjectOf(previous), next.members);
        cells := cells[key := Child(child.cells)];
      } else {
        cells := cells[key := Plain(ToLoro(next))];
      }
    }

    method WriteMember(key: string, previous: Option<Json>, next: Json)
      modifies this
      ensures cells == old(cells)[key := WriteValue(CellAt(old(cells), key), previous, next)]
      decreases next, 3
    {
      match next {
        case Str(text) =>
          cells := cells[key := TextCell(text)];
        case Obj(members) =>
          if MARKER in members {
            cells := cells[key := Plain(ToLoro(next))];
          } else {
            WriteChild(key, ObjectOf(previous), members);
          }
        case Arr(values) =>
          var identity := FindIdentity(values);
          if identity.Some? {
            var child := new MapContainer(ChildOf(CellAt(cells, key)));
            child.WriteList(identity.value, ArrayOf(previous), values);
            cells := cells[key := Child(child.cells)];
          } else {
            cells := cells[key := Plain(ToLoro(next))];
          }
        case _ =>
          cells := cells[key := Plain(ToLoro(next))];
      }
    }

    method WriteList(identity: string, previous: seq<Json>, next: seq<Json>)
      requires KeyedBy(next, identity)
      modifies this
      ensures cells == WriteKeyed(old(cells), identity, previous, next)
      decreases Arr(next), 1
    {
      var items := new MapContainer(ChildOf(CellAt(cells, ITEMS)));
      items.WriteItems(ByIdentity(previous, identity), identity, next);
      assert MARKER != ITEMS && MARKER != ORDER && ITEMS != ORDER;
      cells := cells[MARKER := Plain(LStr(identity))];
      cells := cells[ITEMS := Child(items.cells)];
      cells := cells[ORDER := ListCell(Names(Identities(next, identity)))];
    }

    method WriteChild(key: string, previous: Members, next: Members)
      modifies this
      ensures cells == old(cells)[key := Child(Write(ChildOf(CellAt(old(cells), key)), previous, next))]
      decreases Obj(next), 2
    {
      var child := new MapContainer(ChildOf(CellAt(cells, key)));
      child.WriteDocument(previous, next);
      cells := cells[key := Child(child.cells)];
    }

    method WriteItems(previous: Members, identity: string, next: seq<Json>)
      requires KeyedBy(next, identity)
      modifies this
      ensures cells == StructuredDocument.WriteItems(old(cells), previous, identity, next)
      decreases Arr(next), 0
    {
      var kept := ByIdentity(next, identity);
      Delete(previous.Keys - kept.Keys);
      var pending := kept.Keys;
      while pending != {}
        invariant pending <= kept.Keys && ItemsWritten(old(cells), previous, kept, pending, cells)
        decreases |pending|
      {
        var key :| key in pending;
        ItemWritten(old(cells), previous, kept, pending, cells, key);
        pending := pending - {key};
        KeptIsItem(next, identity, key);
        WriteChild(key, ObjectOf(At(previous, key)), kept[key].members);
      }
      AllItemsWritten(old(cells), previous, identity, next, cells);
    }
  }

  /** Removed members are gone, changed ones no longer pending are written, the rest are as before. */
  ghost predicate MembersWritten(before: Cells, previous: Members, next: Members, pending: set<string>, cells: Cells) {
    forall k :: CellAt(cells, k) ==
      if Removed(previous, next, k) then None
      else if k in next && Changed(previous, next, k) && k !in pending
      then Some(WriteValue(CellAt(before, k), At(previous, k), next[k]))
      else CellAt(before, k)
  }

  lemma {:induction false} MemberWritten(before: Cells, previous: Members, next: Members, pending: set<string>, cells: Cells, key: string)
    requires key in pending && key in next && MembersWritten(before, previous, next, pending, cells)
    ensures Changed(previous, next, key) ==>
              MembersWritten(before, previous, next, pending - {key},
                             cells[key := WriteValue(CellAt(cells, key), At(previous, key), next[key])])
    ensures !Changed(previous, next, key) ==> MembersWritten(before, previous, next, pending - {key}, cells)
  {
    assert CellAt(cells, key) == CellAt(before, key);
  }

  lemma {:induction false} AllWritten(before: Cells, previous: Members, next: Members, cells: Cells)
    requires MembersWritten(before, previous, next, {}, cells)
    ensures cells == Write(before, previous, next)
  {
    SameCells(cells, Write(before, previous, next));
  }

  lemma {:induction false} SameCells(a: Cells, b: Cells)
    requires forall k :: CellAt(a, k) == CellAt(b, k)
    ensures a == b
  {
    forall k ensures k in a <==> k in b { assert CellAt(a, k) == CellAt(b, k); }
    forall k | k in a ensures a[k] == b[k] { assert CellAt(a, k) == CellAt(b, k); }
  }

  function ItemAfter(items: Cells, previous: Members, key: string, value: Json): Cell {
    Child(if value.Obj? then Write(ChildOf(CellAt(items, key)), ObjectOf(At(previous, key)), value.members)
          else ChildOf(CellAt(items, key)))
  }

  ghost predicate ItemsWritten(before: Cells, previous: Members, kept: Members, pending: set<string>, cells: Cells) {
    forall k :: CellAt(cells, k) ==
      if Removed(previous, kept, k) then None
      else if k in kept && k !in pending then Some(ItemAfter(before, previous, k, kept[k]))
      else CellAt(before, k)
  }

  lemma {:induction false} ItemWritten(before: Cells, previous: Members, kept: Members, pending: set<string>, cells: Cells, key: string)
    requires key in pending && key in kept && ItemsWritten(before, previous, kept, pending, cells)
    ensures ItemsWritten(before, previous, kept, pending - {key}, cells[key := ItemAfter(cells, previous, key, kept[key])])
  {
    assert CellAt(cells, key) == CellAt(before, key);
  }

  lemma {:induction false} AllItemsWritten(before: Cells, previous: Members, identity: string, next: seq<Json>, cells: Cells)
    requires ItemsWritten(before, previous, ByIdentity(next, identity), {}, cells)
    ensures cells == StructuredDocument.WriteItems(before, previous, identity, next)
  {
    forall k ensures CellAt(cells, k) == CellAt(StructuredDocument.WriteItems(before, previous, identity, next), k) {
      ItemsAt(before, previous, identity, next, k);
    }
    SameCells(cells, StructuredDocument.WriteItems(before, previous, identity, next));
  }

  lemma {:induction false} ItemsAt(before: Cells, previous: Members, identity: string, next: seq<Json>, key: string)
    ensures var kept := ByIdentity(next, identity);
            CellAt(StructuredDocument.WriteItems(before, previous, identity, next), key) ==
            if Removed(previous, kept, key) then None
            else if key in kept then Some(ItemAfter(before, previous, key, kept[key]))
            else CellAt(before, key)
  {}

  lemma {:induction false} KeptIsItem(values: seq<Json>, identity: string, key: string)
    requires KeyedBy(values, identity) && key in ByIdentity(values, identity)
    ensures ByIdentity(values, identity)[key].Obj? && ByIdentity(values, identity)[key] in values
    ensures Obj(ByIdentity(values, identity)[key].members) < Arr(values)
  {
    KeyedListing(values, identity);
    KeyedIdentities(values, identity);
    var i :| 0 <= i < |values| && ItemKey(values[i], identity) == Some(key);
    assert ByIdentity(values, identity)[key] == values[i];
  }

  // ---------------------------------------------------------------- structured maps

  ghost predicate MapWritten(before: Cells, previous: Members, next: Members, pending: set<string>, cells: Cells) {
    forall k :: CellAt(cells, k) ==
      if Removed(previous, next, k) then None
      else if k in next && Changed(previous, next, k) && k !in pending
      then Some(WriteMapValue(CellAt(before, k), At(previous, k), next[k]))
      else CellAt(before, k)
  }

  lemma {:induction false} MapMemberWritten(before: Cells, previous: Members, next: Members, pending: set<string>, cells: Cells, key: string)
    requires key in pending && key in next && MapWritten(before, previous, next, pending, cells)
    ensures Changed(previous, next, key) ==>
              MapWritten(before, previous, next, pending - {key},
                         cells[key := WriteMapValue(CellAt(cells, key), At(previous, key), next[key])])
    ensures !Changed(previous, next, key) ==> MapWritten(before, previous, next, pending - {key}, cells)
  {
    assert CellAt(cells, key) == CellAt(before, key);
  }

  lemma {:induction false} MapAllWritten(before: Cells, previous: Members, next: Members, cells: Cells)
    requires MapWritten(before, previous, next, {}, cells)
    ensures cells == WriteMap(before, previous, next)
  {
    forall k ensures CellAt(cells, k) == CellAt(WriteMap(before, previous, next), k) { WriteMapAt(before, previous, next, k); }
    SameCells(cells, WriteMap(before, previous, next));
  }
}
