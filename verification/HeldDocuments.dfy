/**
 The document a replica holds of a wire document: what its plan declares, with empty optional
 members left out and members that a present parent requires restored.
 */
module HeldDocuments {
  import opened Wrappers
  import opened Json
  import opened DocumentShapes

  datatype Codec =
    | IntegerCodec | NumberCodec | OptionalNumber | BooleanCodec | StringCodec | OptionalString
    | PropertyText | StringList | StructuredJson | Identity | KeyedSequenceCodec

  /** How a field is stored; the items of a keyed sequence have a plan of their own. */
  datatype Storage =
    | Scalar | Text | OrderedList | StructuredList | StructuredMap | StructuredDocument
    | DerivedIdentity(variable: string)
    | DerivedRevision
    | KeyedSequence(identityPath: Path, variable: string, item: map<Path, Field>)

  datatype Field = Field(storage: Storage, codec: Codec, required: bool, requiredInParent: bool)

  /** The fields of a document, or of a sequence's items, by their paths in it. */
  type Plan = map<Path, Field>

  predicate IsEmptyOptional(value: Json) {
    value == Arr([]) || value == Obj(map[]) || value == Str("") || value == Null
  }

  predicate IsObjectStorage(storage: Storage) { storage.StructuredMap? || storage.StructuredDocument? }

  /** The empty form of a member its parent requires, though the document need not have it. */
  function Restored(field: Field): Option<Json> {
    if !field.requiredInParent || field.required then None
    else match field.codec
      case StringCodec => Some(Str(""))
      case OptionalString => Some(Str(""))
      case StringList => Some(Arr([]))
      case KeyedSequenceCodec => Some(Arr([]))
      case StructuredJson => if IsObjectStorage(field.storage) then None else Some(Arr([]))
      case _ => None
  }

  // ---------------------------------------------------------------- the held document

  /** `node` as a replica holds it; a root or a keyed item is always present. */
  function HeldNode(plan: Plan, node: Json, always: bool, inItem: bool): (held: Json)
    ensures node.Obj? ==> held.Obj?
    decreases node, 1
  {
    if !node.Obj? then node
    else
      var held := HeldMembers(plan, node, inItem);
      Obj(if always || held != map[] then Completed(plan, held) else held)
  }

  /** The members held of what the node has. */
  function HeldMembers(plan: Plan, node: Json, inItem: bool): Members
    requires node.Obj?
    decreases node, 0
  {
    map name | name in node.members && HeldMember(plan, name, node.members[name], inItem).Some? ::
      HeldMember(plan, name, node.members[name], inItem).value
  }

  function Completed(plan: Plan, held: Members): Members {
    held + map name | name in Heads(plan) && [name] in plan && name !in held && Restored(plan[[name]]).Some? ::
      Restored(plan[[name]]).value
  }

  function HeldMember(plan: Plan, name: string, value: Json, inItem: bool): Option<Json>
    decreases value, 3
  {
    if [name] in plan then HeldField(plan[[name]], value, inItem)
    else if value.Obj? && Below(plan, name) != map[] then
      var held := HeldNode(Below(plan, name), value, false, inItem);
      if held.members == map[] then None else Some(held)
    else Some(value)
  }

  function HeldField(field: Field, value: Json, inItem: bool): Option<Json>
    decreases value, 2
  {
    if field.storage.DerivedIdentity? && !inItem then None
    else if field.storage.DerivedRevision? then None
    else if field.storage.KeyedSequence? && value.Arr? then
      Some(Arr(seq(|value.items|, i requires 0 <= i < |value.items| => HeldNode(field.storage.item, value.items[i], true, true))))
    else if IsEmptyOptional(value) && !field.required && !IsObjectStorage(field.storage) then None
    else Some(value)
  }

  /** The revision is set at the root, where the plan derives it. */
  function HeldDocument(plan: Plan, wire: Json, revision: string): Json
    requires wire.Obj?
  {
    Obj(HeldNode(plan, wire, true, false).members
        + map name | name in Heads(plan) && [name] in plan && plan[[name]].storage.DerivedRevision? :: Str(revision))
  }

  // ---------------------------------------------------------------- its entries

  /** What the document holds at each path of its plan. */
  function Entry(field: Field, value: Option<Json>, inItem: bool): Option<Json> {
    match value
    case Some(v) => HeldField(field, v, inItem)
    case None => None
  }

  function HeldEntries(plan: Plan, node: Json, inItem: bool): Entries {
    map p | p in plan && Entry(plan[p], ValueAt(node, p), inItem).Some? :: Entry(plan[p], ValueAt(node, p), inItem).value
  }

  /** Some entry lies in the object that holds the path's member. */
  ghost predicate ParentPresent(entries: Entries, path: Path, always: bool) {
    if |path| <= 1 then always || entries != map[] else Reaches(entries, path[..|path| - 1])
  }

  /** The members restored beside the entries. */
  ghost function RestoredEntries(plan: Plan, entries: Entries, always: bool): Entries {
    map p | p in plan && p !in entries && Restored(plan[p]).Some? && ParentPresent(entries, p, always) :: Restored(plan[p]).value
  }

  ghost function AllEntries(plan: Plan, node: Json, always: bool, inItem: bool): Entries {
    HeldEntries(plan, node, inItem) + RestoredEntries(plan, HeldEntries(plan, node, inItem), always)
  }

  /** Every member of the node, and of the objects in it that lead to fields, is declared. */
  predicate DeclaredMembers(plan: Plan, node: Json)
    decreases node
  {
    node.Obj? && forall name | name in node.members ::
      [name] in plan || (node.members[name].Obj? && Below(plan, name) != map[] && DeclaredMembers(Below(plan, name), node.members[name]))
  }

  lemma {:induction false} EntriesBelow(plan: Plan, node: Json, inItem: bool, name: string)
    requires node.Obj?
    ensures name in node.members ==>
              Below(HeldEntries(plan, node, inItem), name) == HeldEntries(Below(plan, name), node.members[name], inItem)
    ensures name !in node.members ==> Below(HeldEntries(plan, node, inItem), name) == map[]
  {
    var entries := HeldEntries(plan, node, inItem);
    forall q: Path | q != []
      ensures ValueAt(node, [name] + q) == if name in node.members then ValueAt(node.members[name], q) else None
    {
      assert ([name] + q)[1..] == q;
    }
    if name in node.members {
      var inner := HeldEntries(Below(plan, name), node.members[name], inItem);
      forall q ensures q in Below(entries, name) <==> q in inner
               ensures q in inner ==> Below(entries, name)[q] == inner[q]
      {
        NoneBelowIsEmpty(entries, name);
        NoneBelowIsEmpty(plan, name);
        if q != [] { BelowAt(entries, name, q); BelowAt(plan, name, q); }
      }
    } else {
      forall q ensures q !in Below(entries, name) {
        NoneBelowIsEmpty(entries, name);
        if q != [] { BelowAt(entries, name, q); }
      }
    }
  }

  lemma {:induction false} BelowBoth(a: Entries, b: Entries, name: string)
    ensures Below(a + b, name) == Below(a, name) + Below(b, name)
  {
    var both, parts := Below(a + b, name), Below(a, name) + Below(b, name);
    forall q ensures q in both <==> q in parts ensures q in both ==> both[q] == parts[q] {
      NoneBelowIsEmpty(a + b, name);
      NoneBelowIsEmpty(a, name);
      NoneBelowIsEmpty(b, name);
      if q != [] { BelowAt(a + b, name, q); BelowAt(a, name, q); BelowAt(b, name, q); }
    }
  }

  lemma {:induction false} PrefixOfParent(p: Path, path: Path)
    requires path != []
    ensures IsPrefix(p, path[..|path| - 1]) ==> IsPrefix(p, path) && p != path
  {
    if IsPrefix(p, path[..|path| - 1]) { assert path[..|path| - 1][..|p|] == path[..|p|]; }
  }

  /** A member inside has its parent exactly when it has it among what lies below. */
  lemma {:induction false} ParentBelow(plan: Plan, entries: Entries, always: bool, name: string, q: Path)
    requires PrefixFree(plan.Keys) && entries.Keys <= plan.Keys && q != [] && [name] + q in plan
    ensures ParentPresent(entries, [name] + q, always) <==> ParentPresent(Below(entries, name), q, false)
  {
    var path := [name] + q;
    var parent := path[..|path| - 1];
    assert [name] !in entries by { PrefixCons(name, [], q); assert [name] + [] == [name]; }
    if |q| == 1 {
      assert parent == [name];
      ReachesName(entries, name);
      HeadIs(entries, name);
    } else {
      assert parent == [name] + q[..|q| - 1] && parent[1..] == q[..|q| - 1];
      forall p | p in entries && p != parent ensures !IsPrefix(p, parent) { PrefixOfParent(p, path); }
      ReachesBelow(entries, parent);
    }
  }

  lemma {:induction false} RestoredBelow(plan: Plan, entries: Entries, always: bool, name: string)
    requires PrefixFree(plan.Keys) && entries.Keys <= plan.Keys
    ensures Below(RestoredEntries(plan, entries, always), name) == RestoredEntries(Below(plan, name), Below(entries, name), false)
  {
    var outer, inner := Below(RestoredEntries(plan, entries, always), name), RestoredEntries(Below(plan, name), Below(entries, name), false);
    forall q ensures q in outer <==> q in inner ensures q in outer ==> outer[q] == inner[q] {
      NoneBelowIsEmpty(RestoredEntries(plan, entries, always), name);
      NoneBelowIsEmpty(plan, name);
      if q != [] {
        BelowAt(RestoredEntries(plan, entries, always), name, q);
        BelowAt(plan, name, q);
        BelowAt(entries, name, q);
        if [name] + q in plan { ParentBelow(plan, entries, always, name, q); }
      }
    }
  }

  /** Nothing is restored in an object that has nothing. */
  lemma {:induction false} EmptyStaysEmpty(plan: Plan, node: Json, inItem: bool)
    ensures AllEntries(plan, node, false, inItem) == map[] <==> HeldEntries(plan, node, inItem) == map[]
  {
    var entries := HeldEntries(plan, node, inItem);
    if entries == map[] {
      forall p ensures p !in RestoredEntries(plan, entries, false) {}
    } else {
      var p :| p in entries;
      assert p in AllEntries(plan, node, false, inItem);
    }
  }

  lemma {:induction false} ShapeOfNothing(members: Members, entries: Entries)
    requires Shape(members, entries)
    ensures members == map[] <==> entries == map[]
  {
    if entries != map[] {
      var p :| p in entries;
      assert p[0] in Heads(entries);
    }
  }

  /** The held node is the one object of its entries and those restored beside them. */
  lemma {:induction false} HeldHasShape(plan: Plan, node: Json, always: bool, inItem: bool)
    requires PrefixFree(plan.Keys) && DeclaredMembers(plan, node)
    ensures Shape(HeldNode(plan, node, always, inItem).members, AllEntries(plan, node, always, inItem))
    decreases node, 1
  {
    var all, members := AllEntries(plan, node, always, inItem), HeldNode(plan, node, always, inItem).members;
    HeldNames(plan, node, inItem);
    forall name ensures name in members <==> name in Heads(all)
                ensures name in members ==> MemberShape(members[name], all, name)
    {
      HeldMemberShape(plan, node, always, inItem, name);
    }
    NoEmptyPath(plan, node, always, inItem);
    ShapeByMember(members, all);
  }

  lemma {:induction false} NoEmptyPath(plan: Plan, node: Json, always: bool, inItem: bool)
    requires PrefixFree(plan.Keys)
    ensures [] !in AllEntries(plan, node, always, inItem)
  {
  }

  lemma {:induction false} ShapeByMember(members: Members, entries: Entries)
    requires [] !in entries
    requires forall name :: name in members <==> name in Heads(entries)
    requires forall name | name in members :: MemberShape(members[name], entries, name)
    ensures Shape(members, entries)
  {
  }

  /** A member is held exactly when there are entries under its name. */
  lemma {:induction false} HeldNames(plan: Plan, node: Json, inItem: bool)
    requires PrefixFree(plan.Keys) && DeclaredMembers(plan, node)
    ensures HeldMembers(plan, node, inItem).Keys == Heads(HeldEntries(plan, node, inItem))
    ensures HeldMembers(plan, node, inItem) == map[] <==> HeldEntries(plan, node, inItem) == map[]
    decreases node, 0, 1
  {
    var held, entries := HeldMembers(plan, node, inItem), HeldEntries(plan, node, inItem);
    forall name ensures name in held <==> name in Heads(entries) {
      HeadIs(entries, name);
      if [name] in plan { LeafName(plan, node, inItem, name); } else { InsideName(plan, node, inItem, name); }
    }
    if entries != map[] { var p :| p in entries; assert p[0] in Heads(entries); }
  }

  lemma {:induction false} LeafName(plan: Plan, node: Json, inItem: bool, name: string)
    requires [name] in plan && node.Obj? && PrefixFree(plan.Keys)
    ensures name in HeldMembers(plan, node, inItem) <==> [name] in HeldEntries(plan, node, inItem)
    ensures name in HeldMembers(plan, node, inItem) ==>
              HeldMembers(plan, node, inItem)[name] == HeldEntries(plan, node, inItem)[[name]]
    ensures Below(HeldEntries(plan, node, inItem), name) == map[]
  {
    assert ValueAt(node, [name]) == Member(node, name) by { assert [name][1..] == []; }
    NothingBelow(plan, HeldEntries(plan, node, inItem), name);
  }

  /** No entry lies below a field. */
  lemma {:induction false} NothingBelow(plan: Plan, entries: Entries, name: string)
    requires [name] in plan && PrefixFree(plan.Keys) && entries.Keys <= plan.Keys
    ensures Below(entries, name) == map[]
  {
    PrefixFreeBelow(plan, name);
    forall q ensures q !in Below(entries, name) {
      NoneBelowIsEmpty(entries, name);
      if q != [] { BelowAt(entries, name, q); BelowAt(plan, name, q); }
    }
  }

  lemma {:induction false} InsideName(plan: Plan, node: Json, inItem: bool, name: string)
    requires [name] !in plan && PrefixFree(plan.Keys) && DeclaredMembers(plan, node)
    ensures name in HeldMembers(plan, node, inItem) <==> Below(HeldEntries(plan, node, inItem), name) != map[]
    decreases node, 0, 0
  {
    EntriesBelow(plan, node, inItem, name);
    if name in node.members {
      PrefixFreeBelow(plan, name);
      InnerHeld(Below(plan, name), node.members[name], inItem);
    }
  }

  /** An object is held, beneath another, exactly when it has entries. */
  lemma {:induction false} InnerHeld(plan: Plan, node: Json, inItem: bool)
    requires PrefixFree(plan.Keys) && DeclaredMembers(plan, node)
    ensures Shape(HeldNode(plan, node, false, inItem).members, AllEntries(plan, node, false, inItem))
    ensures HeldNode(plan, node, false, inItem).members == map[] <==> HeldEntries(plan, node, inItem) == map[]
    ensures HeldNode(plan, node, false, inItem).members == map[] <==> AllEntries(plan, node, false, inItem) == map[]
    decreases node, 2
  {
    HeldHasShape(plan, node, false, inItem);
    EmptyStaysEmpty(plan, node, inItem);
    ShapeOfNothing(HeldNode(plan, node, false, inItem).members, AllEntries(plan, node, false, inItem));
  }

  lemma {:induction false} HeldMemberShape(plan: Plan, node: Json, always: bool, inItem: bool, name: string)
    requires PrefixFree(plan.Keys) && DeclaredMembers(plan, node)
    requires HeldMembers(plan, node, inItem).Keys == Heads(HeldEntries(plan, node, inItem))
    requires HeldMembers(plan, node, inItem) == map[] <==> HeldEntries(plan, node, inItem) == map[]
    ensures var members, all := HeldNode(plan, node, always, inItem).members, AllEntries(plan, node, always, inItem);
            (name in members <==> name in Heads(all)) && (name in members ==> MemberShape(members[name], all, name))
    decreases node, 0, 1
  {
    var all := AllEntries(plan, node, always, inItem);
    HeadIs(all, name);
    if [name] in plan {
      NothingBelow(plan, all, name);
      LeafHeld(plan, node, always, inItem, name);
    } else {
      InsideHeld(plan, node, always, inItem, name);
    }
  }

  /** A field at a name of its own. */
  lemma {:induction false} LeafHeld(plan: Plan, node: Json, always: bool, inItem: bool, name: string)
    requires [name] in plan && node.Obj? && PrefixFree(plan.Keys)
    requires HeldMembers(plan, node, inItem) == map[] <==> HeldEntries(plan, node, inItem) == map[]
    ensures var members, all := HeldNode(plan, node, always, inItem).members, AllEntries(plan, node, always, inItem);
            (name in members <==> [name] in all) && (name in members ==> members[name] == all[[name]])
  {
    LeafName(plan, node, inItem, name);
    assert name in Heads(plan) by { assert [name][0] == name; }
  }

  /** What lies below a name is what the object there holds. */
  lemma {:induction false} InsideHeld(plan: Plan, node: Json, always: bool, inItem: bool, name: string)
    requires [name] !in plan && PrefixFree(plan.Keys) && DeclaredMembers(plan, node)
    ensures var members, all := HeldNode(plan, node, always, inItem).members, AllEntries(plan, node, always, inItem);
            && [name] !in all && (name in members <==> Below(all, name) != map[])
            && (name in members ==> members[name].Obj? && Shape(members[name].members, Below(all, name)))
    decreases node, 0, 0
  {
    AllBelow(plan, node, always, inItem, name);
    InsideMember(plan, node, always, inItem, name);
    if name in node.members {
      PrefixFreeBelow(plan, name);
      InnerHeld(Below(plan, name), node.members[name], inItem);
    }
  }

  lemma {:induction false} InsideMember(plan: Plan, node: Json, always: bool, inItem: bool, name: string)
    requires [name] !in plan && DeclaredMembers(plan, node)
    ensures var members := HeldNode(plan, node, always, inItem).members;
            && (name in members ==> name in node.members)
            && (name in node.members ==>
                  var inner := HeldNode(Below(plan, name), node.members[name], false, inItem);
                  && DeclaredMembers(Below(plan, name), node.members[name]) && inner.Obj?
                  && (name in members <==> inner.members != map[]) && (name in members ==> members[name] == inner))
  {
    assert name in HeldNode(plan, node, always, inItem).members <==> name in HeldMembers(plan, node, inItem);
  }

  lemma {:induction false} AllBelow(plan: Plan, node: Json, always: bool, inItem: bool, name: string)
    requires [name] !in plan && PrefixFree(plan.Keys) && node.Obj?
    ensures [name] !in AllEntries(plan, node, always, inItem)
    ensures Below(AllEntries(plan, node, always, inItem), name)
         == if name in node.members then AllEntries(Below(plan, name), node.members[name], false, inItem) else map[]
  {
    var entries := HeldEntries(plan, node, inItem);
    BelowBoth(entries, RestoredEntries(plan, entries, always), name);
    RestoredBelow(plan, entries, always, name);
    EntriesBelow(plan, node, inItem, name);
    NothingRestored(Below(plan, name));
  }

  lemma {:induction false} NothingRestored(plan: Plan)
    ensures RestoredEntries(plan, map[], false) == map[]
  {
    forall p ensures p !in RestoredEntries(plan, map[], false) {}
  }
}
