/**
 A structured map: every object is a child map, everything else a plain value. A difference from
 `previous` to `next` may be written to a map that holds neither, which is how two writers'
 differences from one base are brought together.
 */
module StructuredMap {
  import opened Wrappers
  import opened Json
  import opened Store
  import opened StructuredDocument

  function WriteMap(cells: Cells, previous: Members, next: Members): Cells
    decreases Obj(next), 0
  {
    map k | k in WrittenKeys(cells, previous, next) ::
      if k in next && Changed(previous, next, k) then WriteMapValue(CellAt(cells, k), At(previous, k), next[k])
      else cells[k]
  }

  function WriteMapValue(cell: Option<Cell>, previous: Option<Json>, next: Json): Cell
    decreases next, 1
  {
    if next.Obj? then Child(WriteMap(ChildOf(cell), ObjectOf(previous), next.members)) else Plain(ToLoro(next))
  }

  /** The map as a document. */
  function View(cells: Cells): Members
    decreases Child(cells), 0
  {
    map k | k in cells :: ViewCell(cells[k])
  }

  function ViewCell(cell: Cell): Json
    decreases cell, 1
  {
    match cell
    case Plain(value) => ToJson(value)
    case TextCell(text) => Str(text)
    case ListCell(entries) => ToJson(LList(entries))
    case Child(cells) => Obj(View(cells))
  }

  /** What reads as what: a text cell as its string, a list cell as its values, and a child map as an
      object, the empty one too. */
  lemma {:induction false} ViewedExactly(cell: Cell)
    ensures forall text :: ViewCell(cell) == Str(text) <==> cell == TextCell(text) || cell == Plain(LStr(text))
    ensures ViewCell(cell).Arr? <==> cell.ListCell? || (cell.Plain? && cell.value.LList?)
    ensures ViewCell(cell).Obj? <==> cell.Child? || (cell.Plain? && cell.value.LMap?)
    ensures forall entries :: cell == ListCell(entries) ==> ViewCell(cell) == ViewCell(Plain(LList(entries)))
  {
  }

  /** Every object is a child map. */
  predicate Proper(cells: Cells)
    decreases Child(cells), 0
  {
    forall k | k in cells :: ProperCell(cells[k])
  }

  predicate ProperCell(cell: Cell)
    decreases cell, 1
  {
    match cell
    case Plain(value) => !value.LMap?
    case Child(cells) => Proper(cells)
    case _ => true
  }

  /** What a difference makes of a document: what it removes is gone, what it changes is its own,
      down to the members it names, and the rest is as it was. */
  function Overlay(held: Members, previous: Members, next: Members): Members
    decreases Obj(next), 0
  {
    map k | k in (set k | k in held && !Removed(previous, next, k)) + (set k | k in next && Changed(previous, next, k)) ::
      if k in next && Changed(previous, next, k) then OverlayValue(At(held, k), At(previous, k), next[k])
      else held[k]
  }

  function OverlayValue(held: Option<Json>, previous: Option<Json>, next: Json): Json
    decreases next, 1
  {
    if next.Obj? then Obj(Overlay(ObjectOf(held), ObjectOf(previous), next.members)) else Stored(next)
  }

  lemma {:induction false} SameMembers(a: Members, b: Members)
    requires forall k :: At(a, k) == At(b, k)
    ensures a == b
  {
    forall k ensures k in a <==> k in b { assert At(a, k) == At(b, k); }
    forall k | k in a ensures a[k] == b[k] { assert At(a, k) == At(b, k); }
  }

  /** The difference, member by member. */
  lemma {:induction false} OverlayAt(held: Members, previous: Members, next: Members, k: string)
    ensures At(Overlay(held, previous, next), k) ==
            if Removed(previous, next, k) then None
            else if k in next && Changed(previous, next, k) then Some(OverlayValue(At(held, k), At(previous, k), next[k]))
            else At(held, k)
  {
  }

  // ---------------------------------------------------------------- the writer refines the overlay

  /** Writing a difference overlays it on what the map reads as. */
  lemma {:induction false} WriteOverlays(cells: Cells, previous: Members, next: Members)
    requires Proper(cells)
    ensures Proper(WriteMap(cells, previous, next))
    ensures View(WriteMap(cells, previous, next)) == Overlay(View(cells), previous, next)
    decreases Obj(next), 0
  {
    var written := WriteMap(cells, previous, next);
    forall k ensures At(View(written), k) == At(Overlay(View(cells), previous, next), k)
             ensures k in written ==> ProperCell(written[k])
    {
      WriteMapAt(cells, previous, next, k);
      OverlayAt(View(cells), previous, next, k);
      if k in next && Changed(previous, next, k) { ValueOverlays(CellAt(cells, k), At(previous, k), next[k]); }
    }
    SameMembers(View(written), Overlay(View(cells), previous, next));
  }

  lemma {:induction false} WriteMapAt(cells: Cells, previous: Members, next: Members, k: string)
    ensures CellAt(WriteMap(cells, previous, next), k) ==
            if Removed(previous, next, k) then None
            else if k in next && Changed(previous, next, k) then Some(WriteMapValue(CellAt(cells, k), At(previous, k), next[k]))
            else CellAt(cells, k)
    ensures At(View(WriteMap(cells, previous, next)), k) == ViewOf(CellAt(WriteMap(cells, previous, next), k))
    ensures At(View(cells), k) == ViewOf(CellAt(cells, k))
  {
  }

  function ViewOf(cell: Option<Cell>): Option<Json> { if cell.Some? then Some(ViewCell(cell.value)) else None }

  lemma {:induction false} ValueOverlays(cell: Option<Cell>, previous: Option<Json>, next: Json)
    requires cell.Some? ==> ProperCell(cell.value)
    ensures ProperCell(WriteMapValue(cell, previous, next))
    ensures ViewCell(WriteMapValue(cell, previous, next)) == OverlayValue(ViewOf(cell), previous, next)
    decreases next, 1
  {
    if next.Obj? {
      WriteOverlays(ChildOf(cell), ObjectOf(previous), next.members);
      assert View(ChildOf(cell)) == ObjectOf(ViewOf(cell));
    }
  }

  /** Overlaid on the document it starts from, a difference makes the one it leads to. */
  lemma {:induction false} OverlayRewrites(previous: Members, next: Members)
    ensures Overlay(StoredMembers(previous), previous, next) == StoredMembers(next)
    decreases Obj(next), 0
  {
    var held := StoredMembers(previous);
    forall k ensures At(Overlay(held, previous, next), k) == At(StoredMembers(next), k) {
      OverlayAt(held, previous, next, k);
      if k in next && Changed(previous, next, k) { ValueRewrites(At(previous, k), next[k]); }
    }
    SameMembers(Overlay(held, previous, next), StoredMembers(next));
  }

  function StoredOf(value: Option<Json>): Option<Json> { if value.Some? then Some(Stored(value.value)) else None }

  lemma {:induction false} ValueRewrites(previous: Option<Json>, next: Json)
    ensures OverlayValue(StoredOf(previous), previous, next) == Stored(next)
    decreases next, 1
  {
    if next.Obj? {
      OverlayRewrites(ObjectOf(previous), next.members);
      StoredObject(next.members);
      StoredObject(ObjectOf(previous));
      assert ObjectOf(StoredOf(previous)) == StoredMembers(ObjectOf(previous));
    }
  }

  /** Written to a map that reads as `previous`, whatever shapes change, a difference makes it read
      as `next`: the same as rewriting the map from empty. */
  lemma {:induction false} DifferenceRewrites(cells: Cells, previous: Members, next: Members)
    requires Proper(cells) && View(cells) == StoredMembers(previous)
    ensures View(WriteMap(cells, previous, next)) == StoredMembers(next) == View(WriteMap(map[], map[], next))
    ensures Proper(WriteMap(cells, previous, next))
  {
    WriteOverlays(cells, previous, next);
    OverlayRewrites(previous, next);
    WriteOverlays(map[], map[], next);
    OverlayRewrites(map[], next);
    assert View(map[]) == StoredMembers(map[]);
  }

  // ---------------------------------------------------------------- whatever the map holds

  /** The difference lands on the map: no entry is left that neither document names, what it leaves
      alone reads as it should, and what it writes lands. */
  predicate MapLands(cells: Cells, previous: Members, next: Members)
    decreases Obj(next), 0
  {
    && (forall k | k in cells && k !in next :: k in previous)
    && (forall k | k in next :: MemberLands(cells, previous, next, k))
  }

  predicate MemberLands(cells: Cells, previous: Members, next: Members, k: string)
    requires k in next
    decreases next[k], 1
  {
    if !Changed(previous, next, k) then ViewOf(CellAt(cells, k)) == Some(Stored(next[k]))
    else next[k].Obj? ==> MapLands(ChildOf(CellAt(cells, k)), ObjectOf(At(previous, k)), next[k].members)
  }

  /** What the member comes to, and whether it is what it should be. */
  predicate EntryLands(cells: Cells, previous: Members, next: Members, k: string) {
    if k in next then MemberLands(cells, previous, next, k) else k in cells ==> k in previous
  }

  /** Whatever the map holds, it reads as the new document exactly when the difference lands. */
  lemma {:induction false} MapExactly(cells: Cells, previous: Members, next: Members)
    ensures View(WriteMap(cells, previous, next)) == StoredMembers(next) <==> MapLands(cells, previous, next)
    decreases Obj(next), 0
  {
    var view, stored := View(WriteMap(cells, previous, next)), StoredMembers(next);
    forall k ensures At(view, k) == At(stored, k) <==> EntryLands(cells, previous, next, k) { EntryExactly(cells, previous, next, k); }
    MembersExactly(cells, previous, next, view, stored);
  }

  lemma {:induction false} MembersExactly(cells: Cells, previous: Members, next: Members, view: Members, stored: Members)
    requires forall k :: At(view, k) == At(stored, k) <==> EntryLands(cells, previous, next, k)
    ensures view == stored <==> MapLands(cells, previous, next)
  {
    if view == stored {
      forall k | k in cells && k !in next ensures k in previous { assert At(view, k) == At(stored, k); }
      forall k | k in next ensures MemberLands(cells, previous, next, k) { assert At(view, k) == At(stored, k); }
    }
    if MapLands(cells, previous, next) {
      forall k ensures At(view, k) == At(stored, k) { assert EntryLands(cells, previous, next, k); }
      SameMembers(view, stored);
    }
  }

  lemma {:induction false} EntryExactly(cells: Cells, previous: Members, next: Members, k: string)
    ensures At(View(WriteMap(cells, previous, next)), k) == At(StoredMembers(next), k) <==> EntryLands(cells, previous, next, k)
    decreases Obj(next), -1, 0
  {
    WriteMapAt(cells, previous, next, k);
    if k in next && Changed(previous, next, k) {
      if next[k].Obj? {
        ObjectLands(CellAt(cells, k), At(previous, k), next[k]);
      } else {
        assert ViewCell(WriteMapValue(CellAt(cells, k), At(previous, k), next[k])) == Stored(next[k]);
      }
    }
  }

  lemma {:induction false} ObjectLands(cell: Option<Cell>, previous: Option<Json>, next: Json)
    requires next.Obj?
    ensures ViewCell(WriteMapValue(cell, previous, next)) == Stored(next) <==> MapLands(ChildOf(cell), ObjectOf(previous), next.members)
    decreases next, 1
  {
    MapExactly(ChildOf(cell), ObjectOf(previous), next.members);
    StoredObject(next.members);
  }

  /** A difference lands on a map of child maps that reads as the document it starts from. */
  lemma {:induction false} ProperLands(cells: Cells, previous: Members, next: Members)
    requires Proper(cells) && View(cells) == StoredMembers(previous)
    ensures MapLands(cells, previous, next)
  {
    DifferenceRewrites(cells, previous, next);
    MapExactly(cells, previous, next);
  }

  /** A map reads as one whose integers an `i64` holds. */
  lemma {:induction false} ViewIntegersFit(cells: Cells)
    ensures Exact(Obj(View(cells)))
    decreases Child(cells), 0
  {
    forall k | k in cells ensures Exact(ViewCell(cells[k])) { ViewCellIntegersFit(cells[k]); }
  }

  lemma {:induction false} ViewCellIntegersFit(cell: Cell)
    ensures Exact(ViewCell(cell))
    decreases cell, 1
  {
    match cell
    case Plain(value) => StoredIntegersFit(value);
    case TextCell(_) =>
    case ListCell(entries) => StoredIntegersFit(LList(entries));
    case Child(cells) => ViewIntegersFit(cells);
  }

  /** And as the new document itself exactly when besides its integers fit. */
  lemma {:induction false} MapIsExactly(cells: Cells, previous: Members, next: Members)
    ensures View(WriteMap(cells, previous, next)) == next <==> Exact(Obj(next)) && MapLands(cells, previous, next)
  {
    MapExactly(cells, previous, next);
    ViewIntegersFit(WriteMap(cells, previous, next));
    StoredObject(next);
    StoredIsExact(Obj(next));
  }

  // ---------------------------------------------------------------- two writers from one base

  predicate Touched(base: Members, next: Members, k: string) { At(base, k) != At(next, k) }

  /** Where both writers change a member, both make it an object, and so down its members. */
  predicate Disjoint(base: Members, left: Members, right: Members)
    decreases Obj(left), 0
  {
    forall k | k in left.Keys + right.Keys + base.Keys :: Touched(base, left, k) && Touched(base, right, k) ==>
      && k in left && k in right && left[k].Obj? && right[k].Obj?
      && Disjoint(ObjectOf(At(base, k)), left[k].members, right[k].members)
  }

  /** The three-way merge of two disjoint changes. */
  function Merged(base: Members, left: Members, right: Members): Members
    decreases Obj(left), 0
  {
    map k | k in MergedKeys(base, left, right) ::
      if !Touched(base, left, k) then right[k]
      else if !Touched(base, right, k) then left[k]
      else if left[k].Obj? then Obj(Merged(ObjectOf(At(base, k)), left[k].members, ObjectOf(At(right, k))))
      else left[k]
  }

  function MergedKeys(base: Members, left: Members, right: Members): set<string> {
    (set k | k in left && Touched(base, left, k)) + (set k | k in right && !Touched(base, left, k))
  }

  lemma {:induction false} MergedAt(base: Members, left: Members, right: Members, k: string)
    requires Disjoint(base, left, right)
    ensures At(Merged(base, left, right), k) ==
            if !Touched(base, left, k) then At(right, k)
            else if !Touched(base, right, k) then At(left, k)
            else Some(Obj(Merged(ObjectOf(At(base, k)), ObjectOf(At(left, k)), ObjectOf(At(right, k)))))
    ensures Touched(base, left, k) && Touched(base, right, k) ==>
              && At(left, k).Some? && At(right, k).Some? && At(left, k).value.Obj? && At(right, k).value.Obj?
              && Disjoint(ObjectOf(At(base, k)), ObjectOf(At(left, k)), ObjectOf(At(right, k)))
  {
    if Touched(base, left, k) && Touched(base, right, k) { assert k in left.Keys + right.Keys + base.Keys; }
  }

  /** Disjoint differences from one base may be written in either order, to any document. */
  lemma {:induction false} OverlaysCommute(held: Members, base: Members, left: Members, right: Members)
    requires Disjoint(base, left, right)
    ensures Overlay(Overlay(held, base, left), base, right) == Overlay(Overlay(held, base, right), base, left)
    decreases Obj(left), 0
  {
    var l, r := Overlay(held, base, left), Overlay(held, base, right);
    forall k ensures At(Overlay(l, base, right), k) == At(Overlay(r, base, left), k) {
      MemberCommutes(held, base, left, right, k);
    }
    SameMembers(Overlay(l, base, right), Overlay(r, base, left));
  }

  lemma {:induction false} MemberCommutes(held: Members, base: Members, left: Members, right: Members, k: string)
    requires Disjoint(base, left, right)
    ensures At(Overlay(Overlay(held, base, left), base, right), k) == At(Overlay(Overlay(held, base, right), base, left), k)
    decreases Obj(left), -1
  {
    OverlayAt(held, base, left, k);
    OverlayAt(held, base, right, k);
    OverlayAt(Overlay(held, base, left), base, right, k);
    OverlayAt(Overlay(held, base, right), base, left, k);
    MergedAt(base, left, right, k);
    if Touched(base, left, k) && Touched(base, right, k) {
      ValuesCommute(At(held, k), At(base, k), left[k], right[k]);
    }
  }

  lemma {:induction false} ValuesCommute(held: Option<Json>, base: Option<Json>, left: Json, right: Json)
    requires left.Obj? && right.Obj? && Disjoint(ObjectOf(base), left.members, right.members)
    ensures OverlayValue(Some(OverlayValue(held, base, left)), base, right)
         == OverlayValue(Some(OverlayValue(held, base, right)), base, left)
    decreases left, 1
  {
    OverlaysCommute(ObjectOf(held), ObjectOf(base), left.members, right.members);
  }

  /** The second of two disjoint differences makes the three-way merge of what the first has made. */
  lemma {:induction false} OverlayMerges(base: Members, left: Members, right: Members)
    requires Disjoint(base, left, right)
    ensures Overlay(StoredMembers(left), base, right) == StoredMembers(Merged(base, left, right))
    decreases Obj(left), 0
  {
    var merged := Merged(base, left, right);
    forall k ensures At(Overlay(StoredMembers(left), base, right), k) == At(StoredMembers(merged), k) {
      MergedAt(base, left, right, k);
      MemberMerges(base, left, right, k);
    }
    SameMembers(Overlay(StoredMembers(left), base, right), StoredMembers(merged));
  }

  lemma {:induction false} MemberMerges(base: Members, left: Members, right: Members, k: string)
    requires Disjoint(base, left, right)
    ensures At(Overlay(StoredMembers(left), base, right), k) == StoredOf(At(Merged(base, left, right), k))
    decreases Obj(left), -1
  {
    OverlayAt(StoredMembers(left), base, right, k);
    MergedAt(base, left, right, k);
    if Touched(base, left, k) && Touched(base, right, k) {
      ValueMerges(At(base, k), left[k], right[k]);
    } else if Touched(base, right, k) && k in right {
      ValueRewrites(At(base, k), right[k]);
    }
  }

  lemma {:induction false} ValueMerges(base: Option<Json>, left: Json, right: Json)
    requires left.Obj? && right.Obj? && Disjoint(ObjectOf(base), left.members, right.members)
    ensures OverlayValue(Some(Stored(left)), base, right) == Stored(Obj(Merged(ObjectOf(base), left.members, right.members)))
    decreases left, 1
  {
    OverlayMerges(ObjectOf(base), left.members, right.members);
    StoredObject(left.members);
    StoredObject(Merged(ObjectOf(base), left.members, right.members));
  }

  /** Two writers' disjoint differences, written one after the other to a map that reads as their
      base, leave it reading as their three-way merge, whichever comes first. */
  lemma {:induction false} DifferencesMerge(cells: Cells, base: Members, left: Members, right: Members)
    requires Proper(cells) && View(cells) == StoredMembers(base) && Disjoint(base, left, right)
    ensures View(WriteMap(WriteMap(cells, base, left), base, right)) == StoredMembers(Merged(base, left, right))
    ensures View(WriteMap(WriteMap(cells, base, right), base, left)) == StoredMembers(Merged(base, left, right))
  {
    WriteOverlays(cells, base, left);
    WriteOverlays(cells, base, right);
    WriteOverlays(WriteMap(cells, base, left), base, right);
    WriteOverlays(WriteMap(cells, base, right), base, left);
    OverlayRewrites(base, left);
    OverlaysCommute(View(cells), base, left, right);
    OverlayMerges(base, left, right);
  }

  // ---------------------------------------------------------------- path by path

  lemma {:induction false} PathAt(members: Members, path: seq<string>)
    requires path != []
    ensures ValueAt(Obj(members), path) ==
            match At(members, path[0]) case Some(value) => ValueAt(value, path[1..]) case None => None
  {
  }

  /** Nothing but the whole value lies in a value that is no object, as in an empty one. */
  lemma {:induction false} PathInside(value: Option<Json>, path: seq<string>)
    requires path != []
    ensures ValueAt(Obj(ObjectOf(value)), path) == match value case Some(v) => ValueAt(v, path) case None => None
  {
  }

  /** Where one writer changed nothing, the merge has what the other wrote. */
  lemma {:induction false} BothChangesSurvive(base: Members, left: Members, right: Members, path: seq<string>)
    requires Disjoint(base, left, right)
    ensures ValueAt(Obj(right), path) == ValueAt(Obj(base), path) ==>
              ValueAt(Obj(Merged(base, left, right)), path) == ValueAt(Obj(left), path)
    ensures ValueAt(Obj(left), path) == ValueAt(Obj(base), path) ==>
              ValueAt(Obj(Merged(base, left, right)), path) == ValueAt(Obj(right), path)
    decreases |path|
  {
    if path == [] {
      MergeOfOne(base, left, right);
    } else {
      var k, rest := path[0], path[1..];
      MergedAt(base, left, right, k);
      PathAt(base, path); PathAt(left, path); PathAt(right, path); PathAt(Merged(base, left, right), path);
      if Touched(base, left, k) && Touched(base, right, k) {
        BothChangesSurvive(ObjectOf(At(base, k)), left[k].members, right[k].members, rest);
        if rest != [] { PathInside(At(base, k), rest); }
      }
    }
  }

  lemma {:induction false} MergeOfOne(base: Members, left: Members, right: Members)
    requires Disjoint(base, left, right)
    ensures right == base ==> Merged(base, left, right) == left
    ensures left == base ==> Merged(base, left, right) == right
  {
    forall k ensures right == base ==> At(Merged(base, left, right), k) == At(left, k)
             ensures left == base ==> At(Merged(base, left, right), k) == At(right, k)
    {
      MergedAt(base, left, right, k);
    }
    if right == base { SameMembers(Merged(base, left, right), left); }
    if left == base { SameMembers(Merged(base, left, right), right); }
  }

  predicate ChangesAt(base: Members, next: Members, path: seq<string>) {
    ValueAt(Obj(next), path) != ValueAt(Obj(base), path)
  }

  predicate IsObject(value: Option<Json>) { value.Some? && value.value.Obj? }

  /** Both writers change the value at the path, and not both to objects. */
  predicate Clash(base: Members, left: Members, right: Members, path: seq<string>) {
    && ChangesAt(base, left, path) && ChangesAt(base, right, path)
    && !(IsObject(ValueAt(Obj(left), path)) && IsObject(ValueAt(Obj(right), path)))
  }

  /** Differences are disjoint exactly when they clash at no path. */
  lemma {:induction false} DisjointExactlyWhenNoClash(base: Members, left: Members, right: Members)
    ensures Disjoint(base, left, right) <==> forall path: seq<string> :: !Clash(base, left, right, path)
  {
    if Disjoint(base, left, right) {
      forall path: seq<string> ensures !Clash(base, left, right, path) { DisjointNeverClashes(base, left, right, path); }
    } else {
      var path := FindClash(base, left, right);
    }
  }

  lemma {:induction false} DisjointNeverClashes(base: Members, left: Members, right: Members, path: seq<string>)
    requires Disjoint(base, left, right)
    ensures !Clash(base, left, right, path)
    decreases |path|
  {
    if path != [] {
      var k, rest := path[0], path[1..];
      MergedAt(base, left, right, k);
      PathAt(base, path); PathAt(left, path); PathAt(right, path);
      if Touched(base, left, k) && Touched(base, right, k) {
        DisjointNeverClashes(ObjectOf(At(base, k)), left[k].members, right[k].members, rest);
        if rest != [] { PathInside(At(base, k), rest); }
      }
    }
  }

  lemma {:induction false} FindClash(base: Members, left: Members, right: Members) returns (path: seq<string>)
    requires !Disjoint(base, left, right)
    ensures Clash(base, left, right, path)
    decreases Obj(left)
  {
    var k :| k in left.Keys + right.Keys + base.Keys && Touched(base, left, k) && Touched(base, right, k)
             && !(k in left && k in right && left[k].Obj? && right[k].Obj?
                  && Disjoint(ObjectOf(At(base, k)), left[k].members, right[k].members));
    path := [k];
    PathAt(base, path); PathAt(left, path); PathAt(right, path);
    if k in left && k in right && left[k].Obj? && right[k].Obj? {
      var rest := FindClash(ObjectOf(At(base, k)), left[k].members, right[k].members);
      PathInside(At(base, k), rest);
      path := [k] + rest;
      assert path[1..] == rest;
      PathAt(base, path); PathAt(left, path); PathAt(right, path);
    }
  }
}
