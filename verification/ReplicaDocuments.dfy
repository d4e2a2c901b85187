/**
 Exactly when the containers of a replica materialise as the document it is to hold: of a document
 written where nothing was, and of one written over another.
 */
module ReplicaDocuments {
  import opened Wrappers
  import opened Json
  import opened Store
  import opened DocumentShapes
  import opened HeldDocuments
  import opened FieldSlots
  import opened ReplicaWrites
  import opened ReplicaReads

  // ---------------------------------------------------------------- documents of a plan

  /** The items of a sequence have no members but declared ones. */
  ghost predicate ItemsDeclared(field: Field, value: Option<Json>)
    decreases field
  {
    field.storage.KeyedSequence? ==>
      forall i | 0 <= i < |ItemsOf(value)| ::
        && DeclaredMembers(field.storage.item, ItemsOf(value)[i])
        && forall q | q in field.storage.item :: ItemsDeclared(field.storage.item[q], ValueAt(ItemsOf(value)[i], q))
  }

  ghost predicate NodeValid(plan: Plan, node: Json) {
    && PlanFits(plan) && DeclaredMembers(plan, node) && DocumentValid(plan, node)
    && forall p | p in plan :: ItemsDeclared(plan[p], ValueAt(node, p))
  }

  /** The identities derived in the items of a value are theirs, or those of the items they lie in. */
  ghost predicate IdentitiesKept(field: Field, value: Option<Json>, context: Context, inItem: bool)
    decreases field
  {
    match field.storage
    case DerivedIdentity(variable) => inItem ==> variable in context && Entry(field, value, true) == Some(Str(context[variable]))
    case KeyedSequence(path, variable, item) =>
      forall i, q | 0 <= i < |ItemsOf(value)| && StringAt(ItemsOf(value)[i], path).Some? && q in item ::
        IdentitiesKept(item[q], ValueAt(ItemsOf(value)[i], q), context[variable := StringAt(ItemsOf(value)[i], path).value], true)
    case _ => true
  }

  /** The identity of an item is derived from the name its containers go by. */
  predicate IsDerived(scope: Storage)
    requires scope.KeyedSequence?
  {
    scope.identityPath in scope.item && scope.item[scope.identityPath].storage == DerivedIdentity(scope.variable)
  }

  ghost predicate IdentitiesDerived(field: Field)
    decreases field
  {
    field.storage.KeyedSequence? ==>
      IsDerived(field.storage) && forall q | q in field.storage.item :: IdentitiesDerived(field.storage.item[q])
  }

  ghost predicate NamesItems(slot: Slot, scope: Storage, items: seq<Json>)
    requires scope.KeyedSequence?
  {
    AllIdentified(items, scope.identityPath) && UniqueStrings(slot.list) == IdentitiesOf(items, scope.identityPath)
  }

  /** Order lists name the items of the value, as they do wherever the containers show it. */
  ghost predicate Lists(slot: Slot, field: Field, value: Option<Json>)
    decreases field
  {
    field.storage.KeyedSequence? ==>
      && NamesItems(slot, field.storage, ItemsOf(value))
      && forall i, q | 0 <= i < |ItemsOf(value)| && q in field.storage.item :: ItemLists(slot, field, ItemsOf(value)[i], q)
  }

  ghost predicate ItemLists(slot: Slot, field: Field, item: Json, q: Path)
    requires field.storage.KeyedSequence? && StringAt(item, field.storage.identityPath).Some? && q in field.storage.item
    decreases field, 0
  {
    Lists(SlotAt(ItemSlots(slot, StringAt(item, field.storage.identityPath).value), q), field.storage.item[q], ValueAt(item, q))
  }

  /** What items are read can be told to be those of the value: their identities are derived, or the
      order lists name them. */
  ghost predicate Named(slot: Slot, field: Field, value: Option<Json>)
    decreases field
  {
    field.storage.KeyedSequence? ==>
      && (IsDerived(field.storage) || ItemsOf(value) == [] || NamesItems(slot, field.storage, ItemsOf(value)))
      && forall i, q | 0 <= i < |ItemsOf(value)| && StringAt(ItemsOf(value)[i], field.storage.identityPath).Some? && q in field.storage.item ::
           Named(SlotAt(ItemSlots(slot, StringAt(ItemsOf(value)[i], field.storage.identityPath).value), q),
                 field.storage.item[q], ValueAt(ItemsOf(value)[i], q))
  }

  // ---------------------------------------------------------------- the entries of a node

  /** The entries a replica sets: those it holds, and its revision at the root. */
  function SetEntries(plan: Plan, node: Json, inItem: bool, revision: string): Entries {
    HeldEntries(plan, node, inItem) + Revisions(plan, inItem, revision)
  }

  function Revisions(plan: Plan, inItem: bool, revision: string): Entries {
    map p | p in plan && plan[p].storage.DerivedRevision? && !inItem :: Str(revision)
  }

  /** The root sets its revision, if its plan derives one, by a name of its own. */
  ghost predicate RevisionsAtTop(plan: Plan) { forall p | p in plan && plan[p].storage.DerivedRevision? :: |p| == 1 }

  /** What the node's document is once its revision is in it. */
  function WithRevision(plan: Plan, node: Json, inItem: bool, revision: string): Json
    requires node.Obj?
  {
    if inItem then HeldNode(plan, node, true, true) else HeldDocument(plan, node, revision)
  }

  /** What a replica is to set a field to. */
  function EntryOf(plan: Plan, node: Json, inItem: bool, revision: string, p: Path): Option<Json>
    requires p in plan
  {
    if plan[p].storage.DerivedRevision? && !inItem then Some(Str(revision)) else Entry(plan[p], ValueAt(node, p), inItem)
  }

  lemma {:induction false} SetEntryOf(plan: Plan, node: Json, inItem: bool, revision: string, p: Path)
    requires p in plan
    ensures var entries := SetEntries(plan, node, inItem, revision);
            EntryOf(plan, node, inItem, revision, p) == if p in entries then Some(entries[p]) else None
  {
  }

  /** A revision at the top makes no difference to what is restored. */
  lemma {:induction false} SameRestored(plan: Plan, node: Json, inItem: bool, revision: string)
    requires PrefixFree(plan.Keys) && (!inItem ==> RevisionsAtTop(plan))
    ensures WithRestored(plan, SetEntries(plan, node, inItem, revision))
         == AllEntries(plan, node, true, inItem) + Revisions(plan, inItem, revision)
  {
    var held, revisions := HeldEntries(plan, node, inItem), Revisions(plan, inItem, revision);
    forall p | p in plan ensures ParentPresent(held + revisions, p, true) <==> ParentPresent(held, p, true) {
      if |p| > 1 { ReachesSame(plan, held, revisions, p); }
    }
    assert forall p | p in held :: !plan[p].storage.DerivedRevision?;
    RestoredBeside(plan, held, revisions);
  }

  lemma {:induction false} RestoredBeside(plan: Plan, held: Entries, more: Entries)
    requires held.Keys !! more.Keys
    requires forall p | p in plan :: ParentPresent(held + more, p, true) <==> ParentPresent(held, p, true)
    ensures WithRestored(plan, held + more) == held + RestoredEntries(plan, held, true) + more
  {
    var now, then_ := WithRestored(plan, held + more), held + RestoredEntries(plan, held, true) + more;
    forall p ensures p in now <==> p in then_ ensures p in now ==> now[p] == then_[p] {
      assert p in RestoredEntries(plan, held + more, true) <==> p in RestoredEntries(plan, held, true) && p !in more;
    }
  }

  lemma {:induction false} ReachesSame(plan: Plan, entries: Entries, top: Entries, path: Path)
    requires PrefixFree(plan.Keys) && path in plan && |path| > 1 && top.Keys <= plan.Keys && forall p | p in top :: |p| == 1
    ensures Reaches(entries + top, path[..|path| - 1]) <==> Reaches(entries, path[..|path| - 1])
  {
    var parent := path[..|path| - 1];
    forall p | p in top ensures !IsPrefix(parent, p) {
      if |parent| == 1 && p == parent { assert IsPrefix(p, path); }
    }
    if Reaches(entries, parent) {
      var p :| p in entries && IsPrefix(parent, p);
      assert p in entries + top;
    }
  }

  lemma {:induction false} RevisionShape(plan: Plan, members: Members, all: Entries, revision: string)
    requires Shape(members, all) && RevisionsAtTop(plan) && PrefixFree(plan.Keys)
    ensures Shape(members + map name | name in Heads(plan) && [name] in plan && plan[[name]].storage.DerivedRevision? :: Str(revision),
                  all + Revisions(plan, false, revision))
  {
    var revisions := Revisions(plan, false, revision);
    var now := all + revisions;
    var after := members + map name | name in Heads(plan) && [name] in plan && plan[[name]].storage.DerivedRevision? :: Str(revision);
    forall name: string ensures [name][0] == name && ([name] in plan ==> name in Heads(plan)) {}
    forall p | p in revisions ensures p == [p[0]] {}
    assert after.Keys == Heads(now) by {
      forall name | name in Heads(now) ensures name in after {
        var p :| p in now && p != [] && p[0] == name;
        if p in revisions { assert p == [name]; } else { assert p in all && name in Heads(all); }
      }
      forall name | name in after ensures name in Heads(now) {
        if name in members {
          var p :| p in all && p != [] && p[0] == name;
          assert p in now;
        } else {
          assert [name] in now;
        }
      }
    }
    forall name | name in after ensures MemberShape(after[name], now, name) {
      if [name] !in revisions {
        assert MemberShape(members[name], all, name);
        BelowRevisions(all, revisions, name);
      }
    }
  }

  lemma {:induction false} BelowRevisions(all: Entries, top: Entries, name: string)
    requires forall p | p in top :: |p| == 1
    ensures Below(all + top, name) == Below(all, name)
  {
    BelowBoth(all, top, name);
    forall q ensures q !in Below(top, name) {
      NoneBelowIsEmpty(top, name);
      if q != [] { BelowAt(top, name, q); }
    }
  }

  /** The held node is the one object of its entries, its revision, and those restored beside them. */
  lemma {:induction false} HeldIsMade(plan: Plan, node: Json, inItem: bool, revision: string)
    requires PrefixFree(plan.Keys) && DeclaredMembers(plan, node) && (!inItem ==> RevisionsAtTop(plan))
    ensures WithRevision(plan, node, inItem, revision).Obj?
    ensures Shape(WithRevision(plan, node, inItem, revision).members, WithRestored(plan, SetEntries(plan, node, inItem, revision)))
  {
    HeldHasShape(plan, node, true, inItem);
    SameRestored(plan, node, inItem, revision);
    if inItem { NoRevisions(plan, node, revision); } else { RootIsMade(plan, node, revision); }
  }

  lemma {:induction false} NoRevisions(plan: Plan, node: Json, revision: string)
    ensures AllEntries(plan, node, true, true) + Revisions(plan, true, revision) == AllEntries(plan, node, true, true)
  {
    assert Revisions(plan, true, revision) == map[];
  }

  lemma {:induction false} RootIsMade(plan: Plan, node: Json, revision: string)
    requires node.Obj? && RevisionsAtTop(plan) && PrefixFree(plan.Keys)
    requires Shape(HeldNode(plan, node, true, false).members, AllEntries(plan, node, true, false))
    ensures Shape(HeldDocument(plan, node, revision).members, AllEntries(plan, node, true, false) + Revisions(plan, false, revision))
  {
    RevisionShape(plan, HeldNode(plan, node, true, false).members, AllEntries(plan, node, true, false), revision);
  }

  /** What lies at a declared path of the document made is its entry. */
  lemma {:induction false} DeclaredValue(plan: Plan, document: Members, entries: Entries, path: Path)
    requires PrefixFree(plan.Keys) && entries.Keys <= plan.Keys && path in plan && Shape(document, entries)
    ensures ValueAt(Obj(document), path) == if path in entries then Some(entries[path]) else None
  {
    assert NoneAbove(entries, path);
    if path in entries {
      EntryIsThere(document, entries, path);
    } else {
      LeadsExactlyToEntries(document, entries, path);
    }
  }

  /** There is an object of any entries that lie apart. */
  lemma {:induction false} ShapeExists(plan: Plan, entries: Entries) returns (members: Members)
    requires PrefixFree(plan.Keys) && entries.Keys <= plan.Keys
    ensures Shape(members, entries)
    decreases |entries|
  {
    if entries == map[] {
      members := map[];
    } else {
      var p :| p in entries;
      var fewer := map q | q in entries && q != p :: entries[q];
      assert fewer.Keys == entries.Keys - {p};
      members := ShapeExists(plan, fewer);
      assert Apart(fewer, p);
      SetShapes(members, fewer, p, entries[p]);
      assert fewer[p := entries[p]] == entries;
      members := SetAt(members, p, entries[p]).value;
    }
  }

  // ---------------------------------------------------------------- a node read

  /** Every field is read as what the node is to have there. */
  ghost predicate EntriesAgree(slots: Slots, scope: Storage, context: Context, inItem: bool, revision: string, node: Json)
    requires scope.KeyedSequence?
  {
    forall p | p in scope.item ::
      EntryRead(SlotAt(slots, p), scope.item[p], context, inItem, revision) == Some(EntryOf(scope.item, node, inItem, revision, p))
  }

  /** A node whose entries are read as they should be is read as the one held. */
  lemma {:induction false} AgreeingReadsHeld(slots: Slots, scope: Storage, context: Context, inItem: bool, revision: string, node: Json)
    requires scope.KeyedSequence? && PrefixFree(scope.item.Keys) && DeclaredMembers(scope.item, node) && (!inItem ==> RevisionsAtTop(scope.item))
    requires EntriesAgree(slots, scope, context, inItem, revision, node)
    ensures WithRevision(scope.item, node, inItem, revision).Obj?
    ensures NodeRead(slots, scope, context, inItem, revision) == Some(WithRevision(scope.item, node, inItem, revision).members)
  {
    var read, set_ := EntriesRead(slots, scope, context, inItem, revision), SetEntries(scope.item, node, inItem, revision);
    forall p | p in scope.item ensures p in read <==> p in set_ ensures p in read ==> read[p] == set_[p] {
      SetEntryOf(scope.item, node, inItem, revision, p);
    }
    assert read == set_;
    HeldIsMade(scope.item, node, inItem, revision);
    MadeIs(WithRevision(scope.item, node, inItem, revision).members, WithRestored(scope.item, set_));
  }

  /** An entry and what may be restored in its place, told apart by the document. */
  ghost predicate ToldApart(field: Field, read: Option<Json>, held: Option<Json>) {
    && (read.Some? && held.None? ==> Restored(field) != read)
    && (read.None? && held.Some? ==> Restored(field) != held)
  }

  /** A node read as the one held has its entries, where what may be restored is told apart. */
  lemma {:induction false} HeldReadsAgreeing(slots: Slots, scope: Storage, context: Context, inItem: bool, revision: string, node: Json)
    requires scope.KeyedSequence? && PrefixFree(scope.item.Keys) && DeclaredMembers(scope.item, node) && (!inItem ==> RevisionsAtTop(scope.item))
    requires WithRevision(scope.item, node, inItem, revision).Obj?
    requires NodeRead(slots, scope, context, inItem, revision) == Some(WithRevision(scope.item, node, inItem, revision).members)
    requires forall p | p in scope.item ::
               var read := EntryRead(SlotAt(slots, p), scope.item[p], context, inItem, revision);
               read.Some? ==> ToldApart(scope.item[p], read.value, EntryOf(scope.item, node, inItem, revision, p))
    ensures EntriesAgree(slots, scope, context, inItem, revision, node)
  {
    var plan, members := scope.item, WithRevision(scope.item, node, inItem, revision).members;
    var read, set_ := EntriesRead(slots, scope, context, inItem, revision), SetEntries(plan, node, inItem, revision);
    HeldIsMade(plan, node, inItem, revision);
    ReadHasShape(slots, scope, context, inItem, revision);
    forall p | p in plan
      ensures EntryRead(SlotAt(slots, p), plan[p], context, inItem, revision) == Some(EntryOf(plan, node, inItem, revision, p))
    {
      SetEntryOf(plan, node, inItem, revision, p);
      EntryReadAt(slots, scope, context, inItem, revision, p);
      SameEntry(plan, members, read, set_, p);
    }
  }

  /** A node read is the one object of the entries read and of those restored beside them. */
  lemma {:induction false} ReadHasShape(slots: Slots, scope: Storage, context: Context, inItem: bool, revision: string)
    requires scope.KeyedSequence? && PrefixFree(scope.item.Keys) && NodeRead(slots, scope, context, inItem, revision).Some?
    ensures Shape(NodeRead(slots, scope, context, inItem, revision).value,
                  WithRestored(scope.item, EntriesRead(slots, scope, context, inItem, revision)))
  {
    var entries := WithRestored(scope.item, EntriesRead(slots, scope, context, inItem, revision));
    var made := ShapeExists(scope.item, entries);
    MadeIs(made, entries);
  }

  lemma {:induction false} EntryReadAt(slots: Slots, scope: Storage, context: Context, inItem: bool, revision: string, p: Path)
    requires scope.KeyedSequence? && p in scope.item && NodeRead(slots, scope, context, inItem, revision).Some?
    ensures var read := EntriesRead(slots, scope, context, inItem, revision);
            EntryRead(SlotAt(slots, p), scope.item[p], context, inItem, revision) == Some(if p in read then Some(read[p]) else None)
  {
  }

  /** An object of two sets of entries has the same entry at a path, where what may be restored is
      told apart. */
  lemma {:induction false} SameEntry(plan: Plan, members: Members, read: Entries, held: Entries, p: Path)
    requires PrefixFree(plan.Keys) && p in plan && read.Keys <= plan.Keys && held.Keys <= plan.Keys
    requires Shape(members, WithRestored(plan, read)) && Shape(members, WithRestored(plan, held))
    requires ToldApart(plan[p], if p in read then Some(read[p]) else None, if p in held then Some(held[p]) else None)
    ensures p in read <==> p in held
    ensures p in read ==> read[p] == held[p]
  {
    DeclaredValue(plan, members, WithRestored(plan, read), p);
    DeclaredValue(plan, members, WithRestored(plan, held), p);
    WithRestoredAt(plan, read, p);
    WithRestoredAt(plan, held, p);
  }

  lemma {:induction false} WithRestoredAt(plan: Plan, entries: Entries, p: Path)
    requires p in plan && entries.Keys <= plan.Keys
    ensures p in entries ==> p in WithRestored(plan, entries) && WithRestored(plan, entries)[p] == entries[p]
    ensures p !in entries && p in WithRestored(plan, entries) ==> Restored(plan[p]) == Some(WithRestored(plan, entries)[p])
  {
  }

  // ---------------------------------------------------------------- what is shown is read

  /** A field whose containers show the value is read as what the document is to have. */
  lemma {:induction false} ShownIsRead(slot: Slot, scope: Storage, p: Path, node: Json, context: Context, inItem: bool, revision: string)
    requires scope.KeyedSequence? && p in scope.item && FieldPlanned(scope.item[p])
    requires FieldValid(scope.item[p], ValueAt(node, p)) && ItemsDeclared(scope.item[p], ValueAt(node, p))
    requires FieldShows(slot, scope.item[p], ValueAt(node, p)) && IdentitiesKept(scope.item[p], ValueAt(node, p), context, inItem)
    ensures EntryRead(slot, scope.item[p], context, inItem, revision) == Some(EntryOf(scope.item, node, inItem, revision, p))
    decreases scope, 0
  {
    var field, value := scope.item[p], ValueAt(node, p);
    if field.storage.KeyedSequence? {
      ShownSequenceIsRead(slot, field, value, context, inItem);
    }
  }

  lemma {:induction false} ShownSequenceIsRead(slot: Slot, field: Field, value: Option<Json>, context: Context, inItem: bool)
    requires field.storage.KeyedSequence? && FieldPlanned(field) && FieldValid(field, value) && ItemsDeclared(field, value)
    requires FieldShows(slot, field, value) && IdentitiesKept(field, value, context, inItem)
    ensures EntryRead(slot, field, context, inItem, "") == Some(Entry(field, value, inItem))
    decreases field.storage, 2
  {
    var scope, items := field.storage, ItemsOf(value);
    forall i | 0 <= i < |items|
      ensures var name := UniqueStrings(slot.list)[i];
              ItemRead(slot, scope, context, name).Some? && Obj(ItemRead(slot, scope, context, name).value) == HeldNode(scope.item, items[i], true, true)
    {
      ShownItemIsRead(slot, field, value, context, inItem, i);
    }
    assert ItemsRead(slot, scope, context).Some?;
    HeldSequence(slot, field, value, context, inItem);
  }

  /** The items read are those held, so the sequence is. */
  lemma {:induction false} HeldSequence(slot: Slot, field: Field, value: Option<Json>, context: Context, inItem: bool)
    requires field.storage.KeyedSequence? && FieldValid(field, value)
    requires |UniqueStrings(slot.list)| == |ItemsOf(value)| && (field.required || slot.present || ItemsOf(value) != [] <==> value.Some?)
    requires forall i | 0 <= i < |ItemsOf(value)| ::
               var read := ItemRead(slot, field.storage, context, UniqueStrings(slot.list)[i]);
               read.Some? && Obj(read.value) == HeldNode(field.storage.item, ItemsOf(value)[i], true, true)
    ensures EntryRead(slot, field, context, inItem, "") == Some(Entry(field, value, inItem))
  {
    var read := ItemsRead(slot, field.storage, context);
    assert read.Some? && |read.value| == |ItemsOf(value)|;
    if value.Some? { assert HeldField(field, value.value, inItem).value.items == read.value; }
  }

  lemma {:induction false} ShownItemIsRead(slot: Slot, field: Field, value: Option<Json>, context: Context, inItem: bool, i: nat)
    requires field.storage.KeyedSequence? && FieldPlanned(field) && FieldValid(field, value) && ItemsDeclared(field, value)
    requires FieldShows(slot, field, value) && IdentitiesKept(field, value, context, inItem) && i < |ItemsOf(value)|
    ensures i < |UniqueStrings(slot.list)|
    ensures var read := ItemRead(slot, field.storage, context, UniqueStrings(slot.list)[i]);
            read.Some? && Obj(read.value) == HeldNode(field.storage.item, ItemsOf(value)[i], true, true)
    decreases field.storage, 1
  {
    var scope, item := field.storage, ItemsOf(value)[i];
    var name := UniqueStrings(slot.list)[i];
    assert StringAt(item, scope.identityPath) == Some(name);
    forall q | q in scope.item
      ensures EntryRead(SlotAt(ItemSlots(slot, name), q), scope.item[q], context[scope.variable := name], true, "")
           == Some(EntryOf(scope.item, item, true, "", q))
    {
      assert ItemShows(slot, field, item, q);
      ShownIsRead(SlotAt(ItemSlots(slot, name), q), scope, q, item, context[scope.variable := name], true, "");
    }
    AgreeingReadsHeld(ItemSlots(slot, name), scope, context[scope.variable := name], true, "", item);
  }

  // ---------------------------------------------------------------- what is read is shown

  /** The presence marks of sequences are those of the value: every write leaves them so. */
  ghost predicate Settled(slot: Slot, field: Field, value: Option<Json>)
    decreases field
  {
    field.storage.KeyedSequence? ==>
      && (slot.present <==> value.Some? || field.required)
      && forall i, q | 0 <= i < |ItemsOf(value)| && StringAt(ItemsOf(value)[i], field.storage.identityPath).Some? && q in field.storage.item ::
           Settled(SlotAt(ItemSlots(slot, StringAt(ItemsOf(value)[i], field.storage.identityPath).value), q),
                   field.storage.item[q], ValueAt(ItemsOf(value)[i], q))
  }

  lemma {:induction false} WriteSettles(slot: Slot, field: Field, previous: Option<Json>, next: Option<Json>)
    requires FieldValid(field, next) && WriteField(slot, field, previous, next).Some?
    ensures Settled(WriteField(slot, field, previous, next).value, field, next)
    decreases field
  {
    if field.storage.KeyedSequence? {
      var now, path := ItemsOf(next), field.storage.identityPath;
      var after := WriteField(slot, field, previous, next).value;
      SequenceWritten(slot, field, previous, next);
      forall i, q | 0 <= i < |now| && StringAt(now[i], path).Some? && q in field.storage.item
        ensures Settled(SlotAt(ItemSlots(after, StringAt(now[i], path).value), q), field.storage.item[q], ValueAt(now[i], q))
      {
        var id := StringAt(now[i], path).value;
        ItemWritten(slot, field, previous, next, i, q);
        WriteSettles(SlotAt(ItemSlots(slot, id), q), field.storage.item[q], ValueIn(ItemOf(ItemsOf(previous), path, id), q), ValueAt(now[i], q));
      }
    }
  }

  lemma {:induction false} DerivedIsNamed(slot: Slot, field: Field, value: Option<Json>)
    requires IdentitiesDerived(field)
    ensures Named(slot, field, value)
    decreases field
  {
    if field.storage.KeyedSequence? {
      var items, path := ItemsOf(value), field.storage.identityPath;
      forall i, q | 0 <= i < |items| && StringAt(items[i], path).Some? && q in field.storage.item
        ensures Named(SlotAt(ItemSlots(slot, StringAt(items[i], path).value), q), field.storage.item[q], ValueAt(items[i], q))
      {
        DerivedIsNamed(SlotAt(ItemSlots(slot, StringAt(items[i], path).value), q), field.storage.item[q], ValueAt(items[i], q));
      }
    }
  }

  lemma {:induction false} ShownLists(slot: Slot, field: Field, value: Option<Json>)
    requires FieldShows(slot, field, value)
    ensures Lists(slot, field, value)
    decreases field
  {
    if field.storage.KeyedSequence? {
      var items := ItemsOf(value);
      forall i, q | 0 <= i < |items| && q in field.storage.item ensures ItemLists(slot, field, items[i], q) {
        assert ItemShows(slot, field, items[i], q);
        ShownLists(SlotAt(ItemSlots(slot, StringAt(items[i], field.storage.identityPath).value), q), field.storage.item[q], ValueAt(items[i], q));
      }
    }
  }

  /** A change written where order lists name the items before, or where an item comes or comes back,
      leaves them naming those after. */
  lemma {:induction false} WriteIsNamed(slot: Slot, field: Field, previous: Option<Json>, next: Option<Json>)
    requires FieldValid(field, next) && WriteField(slot, field, previous, next).Some? && (previous.None? || Lists(slot, field, previous))
    ensures Named(WriteField(slot, field, previous, next).value, field, next)
    decreases field
  {
    if field.storage.KeyedSequence? {
      var now, path := ItemsOf(next), field.storage.identityPath;
      var after := WriteField(slot, field, previous, next).value;
      SequenceWritten(slot, field, previous, next);
      UniqueNames(IdentitiesOf(now, path));
      forall i, q | 0 <= i < |now| && StringAt(now[i], path).Some? && q in field.storage.item
        ensures Named(SlotAt(ItemSlots(after, StringAt(now[i], path).value), q), field.storage.item[q], ValueAt(now[i], q))
      {
        var was, id := ItemsOf(previous), StringAt(now[i], path).value;
        ItemWritten(slot, field, previous, next, i, q);
        if ItemOf(was, path, id).Some? {
          var j := ItemOfIsThere(was, path, id);
          assert ItemLists(slot, field, was[j], q);
        }
        WriteIsNamed(SlotAt(ItemSlots(slot, id), q), field.storage.item[q], ValueIn(ItemOf(was, path, id), q), ValueAt(now[i], q));
      }
    }
  }

  /** Nothing that is read or held can be taken for what is restored in its place. */
  lemma {:induction false} ReadIsToldApart(slot: Slot, plan: Plan, p: Path, node: Json, context: Context, inItem: bool, revision: string)
    requires p in plan && FieldFits(plan[p]) && FieldValid(plan[p], ValueAt(node, p)) && Settled(slot, plan[p], ValueAt(node, p))
    ensures var read := EntryRead(slot, plan[p], context, inItem, revision);
            read.Some? ==> ToldApart(plan[p], read.value, EntryOf(plan, node, inItem, revision, p))
  {
    var field, value := plan[p], ValueAt(node, p);
    if field.storage.KeyedSequence? && ItemsRead(slot, field.storage, context).Some? {
      assert Entry(field, value, inItem).Some? <==> value.Some?;
    }
  }

  /** A field read as what the document is to have is one whose containers show it. */
  lemma {:induction false} ReadIsShown(slot: Slot, scope: Storage, p: Path, node: Json, context: Context, inItem: bool, revision: string)
    requires scope.KeyedSequence? && p in scope.item && FieldPlanned(scope.item[p])
    requires FieldValid(scope.item[p], ValueAt(node, p)) && ItemsDeclared(scope.item[p], ValueAt(node, p))
    requires Settled(slot, scope.item[p], ValueAt(node, p)) && Named(slot, scope.item[p], ValueAt(node, p))
    requires EntryRead(slot, scope.item[p], context, inItem, revision) == Some(EntryOf(scope.item, node, inItem, revision, p))
    ensures FieldShows(slot, scope.item[p], ValueAt(node, p)) && IdentitiesKept(scope.item[p], ValueAt(node, p), context, inItem)
    decreases scope, 0
  {
    var field, value := scope.item[p], ValueAt(node, p);
    if field.storage.KeyedSequence? {
      ReadSequenceIsShown(slot, field, value, context, inItem);
    }
  }

  lemma {:induction false} ReadSequenceIsShown(slot: Slot, field: Field, value: Option<Json>, context: Context, inItem: bool)
    requires field.storage.KeyedSequence? && FieldPlanned(field)
    requires FieldValid(field, value) && ItemsDeclared(field, value) && Settled(slot, field, value) && Named(slot, field, value)
    requires EntryRead(slot, field, context, inItem, "") == Some(Entry(field, value, inItem))
    ensures FieldShows(slot, field, value) && IdentitiesKept(field, value, context, inItem)
    decreases field.storage, 3
  {
    var scope, items, path := field.storage, ItemsOf(value), field.storage.identityPath;
    var names := UniqueStrings(slot.list);
    ItemsReadAreHeld(slot, field, value, context, inItem);
    forall i | 0 <= i < |items| ensures StringAt(items[i], path) == Some(names[i]) { ReadNameIsIdentity(slot, field, value, context, i); }
    assert names == IdentitiesOf(items, path);
    forall i, q | 0 <= i < |items| && q in scope.item
      ensures ItemShows(slot, field, items[i], q)
      ensures IdentitiesKept(scope.item[q], ValueAt(items[i], q), context[scope.variable := names[i]], true)
    {
      ReadItemIsShown(slot, field, value, context, i, q);
    }
  }

  /** A sequence read as the one held has as many items, each read as the one held. */
  lemma {:induction false} ItemsReadAreHeld(slot: Slot, field: Field, value: Option<Json>, context: Context, inItem: bool)
    requires field.storage.KeyedSequence? && FieldValid(field, value)
    requires EntryRead(slot, field, context, inItem, "") == Some(Entry(field, value, inItem))
    ensures |UniqueStrings(slot.list)| == |ItemsOf(value)| && (field.required || slot.present || ItemsOf(value) != [] <==> value.Some?)
    ensures forall i | 0 <= i < |ItemsOf(value)| ::
              var read := ItemRead(slot, field.storage, context, UniqueStrings(slot.list)[i]);
              read.Some? && Obj(read.value) == HeldNode(field.storage.item, ItemsOf(value)[i], true, true)
  {
    var read := ItemsRead(slot, field.storage, context);
    assert read.Some? && |read.value| == |UniqueStrings(slot.list)|;
    if value.Some? {
      var held := HeldField(field, value.value, inItem).value.items;
      assert held == read.value && |held| == |ItemsOf(value)|;
      forall i | 0 <= i < |held|
        ensures Obj(ItemRead(slot, field.storage, context, UniqueStrings(slot.list)[i]).value) == HeldNode(field.storage.item, ItemsOf(value)[i], true, true)
      {
        assert held[i] == HeldNode(field.storage.item, ItemsOf(value)[i], true, true);
        assert read.value[i] == Obj(ItemRead(slot, field.storage, context, UniqueStrings(slot.list)[i]).value);
      }
    }
  }

  lemma {:induction false} ReadItemAgrees(slot: Slot, field: Field, value: Option<Json>, context: Context, i: nat)
    requires field.storage.KeyedSequence? && FieldPlanned(field)
    requires FieldValid(field, value) && ItemsDeclared(field, value) && Settled(slot, field, value) && Named(slot, field, value)
    requires i < |ItemsOf(value)| && i < |UniqueStrings(slot.list)|
    requires StringAt(ItemsOf(value)[i], field.storage.identityPath) == Some(UniqueStrings(slot.list)[i])
    requires var read := ItemRead(slot, field.storage, context, UniqueStrings(slot.list)[i]);
             read.Some? && Obj(read.value) == HeldNode(field.storage.item, ItemsOf(value)[i], true, true)
    ensures var name := UniqueStrings(slot.list)[i];
            EntriesAgree(ItemSlots(slot, name), field.storage, context[field.storage.variable := name], true, "", ItemsOf(value)[i])
  {
    var scope, item, name := field.storage, ItemsOf(value)[i], UniqueStrings(slot.list)[i];
    var inner := context[scope.variable := name];
    forall q | q in scope.item
      ensures var read := EntryRead(SlotAt(ItemSlots(slot, name), q), scope.item[q], inner, true, "");
              read.Some? ==> ToldApart(scope.item[q], read.value, EntryOf(scope.item, item, true, "", q))
    {
      ReadIsToldApart(SlotAt(ItemSlots(slot, name), q), scope.item, q, item, inner, true, "");
    }
    HeldReadsAgreeing(ItemSlots(slot, name), scope, inner, true, "", item);
  }

  lemma {:induction false} ReadItemIsShown(slot: Slot, field: Field, value: Option<Json>, context: Context, i: nat, q: Path)
    requires field.storage.KeyedSequence? && FieldPlanned(field) && q in field.storage.item
    requires FieldValid(field, value) && ItemsDeclared(field, value) && Settled(slot, field, value) && Named(slot, field, value)
    requires i < |ItemsOf(value)| && i < |UniqueStrings(slot.list)|
    requires StringAt(ItemsOf(value)[i], field.storage.identityPath) == Some(UniqueStrings(slot.list)[i])
    requires var read := ItemRead(slot, field.storage, context, UniqueStrings(slot.list)[i]);
             read.Some? && Obj(read.value) == HeldNode(field.storage.item, ItemsOf(value)[i], true, true)
    ensures ItemShows(slot, field, ItemsOf(value)[i], q)
    ensures IdentitiesKept(field.storage.item[q], ValueAt(ItemsOf(value)[i], q), context[field.storage.variable := UniqueStrings(slot.list)[i]], true)
    decreases field.storage, 2
  {
    var scope, item, name := field.storage, ItemsOf(value)[i], UniqueStrings(slot.list)[i];
    ReadItemAgrees(slot, field, value, context, i);
    ReadIsShown(SlotAt(ItemSlots(slot, name), q), scope, q, item, context[scope.variable := name], true, "");
  }

  /** An item read as the one held goes by its identity. */
  lemma {:induction false} ReadNameIsIdentity(slot: Slot, field: Field, value: Option<Json>, context: Context, i: nat)
    requires field.storage.KeyedSequence? && FieldPlanned(field) && FieldValid(field, value) && ItemsDeclared(field, value)
    requires Named(slot, field, value)
    requires i < |ItemsOf(value)| && i < |UniqueStrings(slot.list)|
    requires var read := ItemRead(slot, field.storage, context, UniqueStrings(slot.list)[i]);
             read.Some? && Obj(read.value) == HeldNode(field.storage.item, ItemsOf(value)[i], true, true)
    ensures StringAt(ItemsOf(value)[i], field.storage.identityPath) == Some(UniqueStrings(slot.list)[i])
  {
    var scope, item := field.storage, ItemsOf(value)[i];
    if IsDerived(scope) { ItemNameIsRead(slot, scope, context, UniqueStrings(slot.list)[i]); }
    HeldIdentity(scope.item, item, scope.identityPath, StringAt(item, scope.identityPath).value);
  }

  /** A derived identity is read as the name of the item's containers. */
  lemma {:induction false} ItemNameIsRead(slot: Slot, scope: Storage, context: Context, name: string)
    requires scope.KeyedSequence? && PrefixFree(scope.item.Keys) && IsDerived(scope) && ItemRead(slot, scope, context, name).Some?
    ensures StringAt(Obj(ItemRead(slot, scope, context, name).value), scope.identityPath) == Some(name)
  {
    var path, inner := scope.identityPath, context[scope.variable := name];
    var read := EntriesRead(ItemSlots(slot, name), scope, inner, true, "");
    assert EntryRead(SlotAt(ItemSlots(slot, name), path), scope.item[path], inner, true, "") == Some(Some(Str(name)));
    assert path in read && read[path] == Str(name);
    ReadHasShape(ItemSlots(slot, name), scope, inner, true, "");
    DeclaredValue(scope.item, ItemRead(slot, scope, context, name).value, WithRestored(scope.item, read), path);
  }

  // ---------------------------------------------------------------- what is held is valid

  /** Some declared field lies on the way to a value. */
  lemma {:induction false} DeclaredOnTheWay(plan: Plan, node: Json, path: Path) returns (p: Path)
    requires DeclaredMembers(plan, node) && StringAt(node, path).Some?
    ensures p in plan && IsPrefix(p, path) && ValueAt(node, p).Some?
    ensures ValueAt(ValueAt(node, p).value, path[|p|..]) == ValueAt(node, path)
    decreases |path|
  {
    var name, rest := path[0], path[1..];
    if [name] in plan {
      p := [name];
      assert path[..1] == p && [name][1..] == [];
    } else {
      var q := DeclaredOnTheWay(Below(plan, name), node.members[name], rest);
      NoneBelowIsEmpty(plan, name);
      p := [name] + q;
      if q != [] { BelowAt(plan, name, q); }
      assert path == [name] + rest && p[1..] == q;
      assert path[..|p|] == [name] + rest[..|q|] && path[|p|..] == rest[|q|..];
    }
  }

  lemma {:induction false} ValueBeyond(node: Json, p: Path, path: Path)
    requires IsPrefix(p, path)
    ensures ValueAt(node, path) == if ValueAt(node, p).Some? then ValueAt(ValueAt(node, p).value, path[|p|..]) else None
    decreases |p|
  {
    if p == [] {
      assert path[0..] == path;
    } else {
      assert p[0] == path[0] && path[1..][..|p| - 1] == p[1..] && path[1..][|p| - 1..] == path[|p|..];
      if Member(node, p[0]).Some? { ValueBeyond(Member(node, p[0]).value, p[1..], path[1..]); }
    }
  }

  /** An item is held with its identity. */
  lemma {:induction false} HeldIdentity(plan: Plan, item: Json, path: Path, id: string)
    requires PrefixFree(plan.Keys) && DeclaredMembers(plan, item) && StringAt(item, path) == Some(id) && id != ""
    requires forall q | q in plan && IsPrefix(q, path) :: !plan[q].storage.DerivedRevision?
    ensures StringAt(HeldNode(plan, item, true, true), path) == Some(id)
  {
    var p := DeclaredOnTheWay(plan, item, path);
    var held, all := HeldNode(plan, item, true, true), AllEntries(plan, item, true, true);
    var value, rest := ValueAt(item, p).value, path[|p|..];
    HeldHasShape(plan, item, true, true);
    assert ValueAt(value, rest) == Some(Str(id));
    assert HeldField(plan[p], value, true) == Some(value) by { HeldOnTheWay(plan[p], value, rest, id); }
    assert p in HeldEntries(plan, item, true) && p in all && all[p] == value;
    DeclaredValue(plan, held.members, all, p);
    ValueBeyond(held, p, path);
  }

  lemma {:induction false} HeldOnTheWay(field: Field, value: Json, rest: Path, id: string)
    requires ValueAt(value, rest) == Some(Str(id)) && id != "" && !field.storage.DerivedRevision?
    ensures HeldField(field, value, true) == Some(value)
  {
    if rest != [] { assert Member(value, rest[0]).Some?; }
  }

  /** The document made of a valid one is valid. */
  lemma {:induction false} MadeIsValid(scope: Storage, node: Json, inItem: bool, revision: string, document: Members)
    requires scope.KeyedSequence? && NodeValid(scope.item, node)
    requires Shape(document, WithRestored(scope.item, SetEntries(scope.item, node, inItem, revision)))
    ensures DocumentValid(scope.item, Obj(document))
    decreases scope, 1
  {
    var plan, entries := scope.item, WithRestored(scope.item, SetEntries(scope.item, node, inItem, revision));
    forall p | p in plan ensures FieldValid(plan[p], ValueAt(Obj(document), p)) {
      DeclaredValue(plan, document, entries, p);
      MadeFieldValid(scope, node, inItem, revision, p);
    }
  }

  lemma {:induction false} MadeFieldValid(scope: Storage, node: Json, inItem: bool, revision: string, p: Path)
    requires scope.KeyedSequence? && NodeValid(scope.item, node) && p in scope.item
    ensures var entries := WithRestored(scope.item, SetEntries(scope.item, node, inItem, revision));
            FieldValid(scope.item[p], if p in entries then Some(entries[p]) else None)
    decreases scope, 0
  {
    var field, value := scope.item[p], ValueAt(node, p);
    if field.storage.DerivedRevision? || field.storage.DerivedIdentity? {
    } else if Entry(field, value, inItem).Some? {
      EntryIsSet(scope.item, node, inItem, revision, p);
      HeldFieldValid(field, value, inItem);
    } else {
      DroppedIsOptional(field, value, inItem);
      RestoredIsValid(field);
      EntryIsRestored(scope.item, node, inItem, revision, p);
    }
  }

  lemma {:induction false} EntryIsSet(plan: Plan, node: Json, inItem: bool, revision: string, p: Path)
    requires p in plan && !plan[p].storage.DerivedRevision? && Entry(plan[p], ValueAt(node, p), inItem).Some?
    ensures var entries := WithRestored(plan, SetEntries(plan, node, inItem, revision));
            p in entries && entries[p] == Entry(plan[p], ValueAt(node, p), inItem).value
  {
  }

  lemma {:induction false} EntryIsRestored(plan: Plan, node: Json, inItem: bool, revision: string, p: Path)
    requires p in plan && !plan[p].storage.DerivedRevision? && Entry(plan[p], ValueAt(node, p), inItem).None?
    ensures var entries := WithRestored(plan, SetEntries(plan, node, inItem, revision));
            p in entries ==> Restored(plan[p]) == Some(entries[p])
  {
  }

  lemma {:induction false} DroppedIsOptional(field: Field, value: Option<Json>, inItem: bool)
    requires FieldFits(field) && FieldValid(field, value) && Entry(field, value, inItem).None?
    requires !field.storage.DerivedRevision? && !field.storage.DerivedIdentity?
    ensures FieldValid(field, None)
  {
    if value.Some? && PropertyParts(value.value).Some? { PropertyIsNotEmpty(value.value); }
  }

  lemma {:induction false} PropertyIsNotEmpty(value: Json)
    requires PropertyParts(value).Some?
    ensures !IsEmptyOptional(value)
  {
    assert "$mime" in value.members;
  }

  lemma {:induction false} RestoredIsValid(field: Field)
    requires FieldFits(field) && !field.storage.DerivedRevision?
    ensures Restored(field).Some? ==> FieldValid(field, Restored(field))
  {
  }

  lemma {:induction false} HeldFieldValid(field: Field, value: Option<Json>, inItem: bool)
    requires FieldPlanned(field) && FieldValid(field, value) && ItemsDeclared(field, value) && Entry(field, value, inItem).Some?
    ensures FieldValid(field, Entry(field, value, inItem))
    decreases field.storage, 4
  {
    if field.storage.KeyedSequence? {
      var held := Entry(field, value, inItem).value.items;
      forall i | 0 <= i < |held|
        ensures StringAt(held[i], field.storage.identityPath) == StringAt(ItemsOf(value)[i], field.storage.identityPath)
        ensures forall q | q in field.storage.item :: FieldValid(field.storage.item[q], ValueAt(held[i], q))
      {
        HeldItemValid(field, value, i);
      }
    }
  }

  lemma {:induction false} HeldItemValid(field: Field, value: Option<Json>, i: nat)
    requires field.storage.KeyedSequence? && FieldPlanned(field) && FieldValid(field, value) && ItemsDeclared(field, value)
    requires i < |ItemsOf(value)|
    ensures var item, held := ItemsOf(value)[i], HeldNode(field.storage.item, ItemsOf(value)[i], true, true);
            && StringAt(held, field.storage.identityPath) == StringAt(item, field.storage.identityPath)
            && DocumentValid(field.storage.item, held)
    decreases field.storage, 3
  {
    var item, plan, path := ItemsOf(value)[i], field.storage.item, field.storage.identityPath;
    HeldIdentity(plan, item, path, StringAt(item, path).value);
    HeldNodeValid(field.storage, item);
  }

  lemma {:induction false} HeldNodeValid(scope: Storage, item: Json)
    requires scope.KeyedSequence? && NodeValid(scope.item, item)
    ensures DocumentValid(scope.item, HeldNode(scope.item, item, true, true))
    decreases scope, 2
  {
    HeldHasShape(scope.item, item, true, true);
    ItemEntries(scope.item, item);
    MadeIsValid(scope, item, true, "", HeldNode(scope.item, item, true, true).members);
  }

  lemma {:induction false} ItemEntries(plan: Plan, item: Json)
    ensures WithRestored(plan, SetEntries(plan, item, true, "")) == AllEntries(plan, item, true, true)
  {
    assert Revisions(plan, true, "") == map[];
    assert HeldEntries(plan, item, true) + map[] == HeldEntries(plan, item, true);
  }

  // ---------------------------------------------------------------- documents materialised

  /** All that a document is to be for a replica to hold it as it is written. */
  ghost predicate Fits(plan: Plan, wire: Json) { NodeValid(plan, wire) && RevisionsAtTop(plan) }

  ghost predicate AllKept(plan: Plan, wire: Json) { forall p | p in plan :: IdentitiesKept(plan[p], ValueAt(wire, p), map[], false) }

  ghost predicate AllDerived(plan: Plan) { forall p | p in plan :: IdentitiesDerived(plan[p]) }

  ghost predicate AllLists(slots: Slots, plan: Plan, document: Option<Json>) {
    document.Some? ==> forall p | p in plan :: Lists(SlotAt(slots, p), plan[p], ValueAt(document.value, p))
  }

  ghost predicate AllNamed(slots: Slots, plan: Plan, wire: Json) { forall p | p in plan :: Named(SlotAt(slots, p), plan[p], ValueAt(wire, p)) }

  ghost predicate AllSettled(slots: Slots, plan: Plan, wire: Json) { forall p | p in plan :: Settled(SlotAt(slots, p), plan[p], ValueAt(wire, p)) }

  /** Containers that show a document materialise as the one a replica holds of it, which is valid. */
  lemma {:induction false} ShownMaterializes(slots: Slots, plan: Plan, revision: string, wire: Json)
    requires Fits(plan, wire) && Showing(slots, plan, wire) && AllKept(plan, wire)
    ensures Materialized(slots, plan, revision) == Some(HeldDocument(plan, wire, revision))
  {
    var scope := Root(plan);
    forall p | p in plan
      ensures EntryRead(SlotAt(slots, p), plan[p], map[], false, revision) == Some(EntryOf(plan, wire, false, revision, p))
    {
      ShownIsRead(SlotAt(slots, p), scope, p, wire, map[], false, revision);
    }
    AgreeingReadsHeld(slots, scope, map[], false, revision, wire);
    HeldIsMade(plan, wire, false, revision);
    MadeIsValid(scope, wire, false, revision, HeldDocument(plan, wire, revision).members);
  }

  /** Containers that materialise as the document a replica is to hold show it. */
  lemma {:induction false} MaterializedIsShown(slots: Slots, plan: Plan, revision: string, wire: Json)
    requires Fits(plan, wire) && AllNamed(slots, plan, wire) && AllSettled(slots, plan, wire)
    requires Materialized(slots, plan, revision) == Some(HeldDocument(plan, wire, revision))
    ensures Showing(slots, plan, wire) && AllKept(plan, wire)
  {
    var scope := Root(plan);
    assert NodeRead(slots, scope, map[], false, revision) == Some(WithRevision(plan, wire, false, revision).members);
    forall p | p in plan
      ensures var read := EntryRead(SlotAt(slots, p), plan[p], map[], false, revision);
              read.Some? ==> ToldApart(plan[p], read.value, EntryOf(plan, wire, false, revision, p))
    {
      ReadIsToldApart(SlotAt(slots, p), plan, p, wire, map[], false, revision);
    }
    HeldReadsAgreeing(slots, scope, map[], false, revision, wire);
    forall p | p in plan
      ensures FieldShows(SlotAt(slots, p), plan[p], ValueAt(wire, p)) && IdentitiesKept(plan[p], ValueAt(wire, p), map[], false)
    {
      ReadIsShown(SlotAt(slots, p), scope, p, wire, map[], false, revision);
    }
  }

  lemma {:induction false} WrittenIsSettled(slots: Slots, plan: Plan, previous: Option<Json>, next: Json, after: Slots)
    requires DocumentValid(plan, next) && IsWritten(slots, plan, previous, next, after)
    ensures AllSettled(after, plan, next)
  {
    forall p | p in plan ensures Settled(SlotAt(after, p), plan[p], ValueAt(next, p)) {
      WriteSettles(SlotAt(slots, p), plan[p], ValueIn(previous, p), ValueAt(next, p));
    }
  }

  lemma {:induction false} WrittenIsNamed(slots: Slots, plan: Plan, previous: Option<Json>, next: Json, after: Slots)
    requires DocumentValid(plan, next) && IsWritten(slots, plan, previous, next, after) && (AllDerived(plan) || AllLists(slots, plan, previous))
    ensures AllNamed(after, plan, next)
  {
    forall p | p in plan ensures Named(SlotAt(after, p), plan[p], ValueAt(next, p)) {
      if AllDerived(plan) {
        DerivedIsNamed(SlotAt(after, p), plan[p], ValueAt(next, p));
      } else {
        if ValueIn(previous, p).None? { } else { assert Lists(SlotAt(slots, p), plan[p], ValueAt(previous.value, p)); }
        WriteIsNamed(SlotAt(slots, p), plan[p], ValueIn(previous, p), ValueAt(next, p));
      }
    }
  }

  /** Once a change is written, whatever the containers held, they materialise as the document a
      replica is to hold exactly when the change makes it whole and its items' derived identities are
      theirs. */
  lemma {:induction false} UpdateExactly(slots: Slots, plan: Plan, previous: Option<Json>, next: Json, after: Slots, revision: string)
    requires Fits(plan, next) && IsWritten(slots, plan, previous, next, after)
    requires AllDerived(plan) || AllLists(slots, plan, previous)
    ensures Materialized(after, plan, revision) == Some(HeldDocument(plan, next, revision)) <==>
            DocumentWhole(slots, plan, previous, next) && AllKept(plan, next)
  {
    WrittenShows(slots, plan, previous, next, after);
    WrittenIsSettled(slots, plan, previous, next, after);
    WrittenIsNamed(slots, plan, previous, next, after);
    if DocumentWhole(slots, plan, previous, next) && AllKept(plan, next) { ShownMaterializes(after, plan, revision, next); }
    if Materialized(after, plan, revision) == Some(HeldDocument(plan, next, revision)) {
      MaterializedIsShown(after, plan, revision, next);
    }
  }

  /** Written over containers that show the previous document, the next materialises as the one a replica
      is to hold exactly when the change is safe and its items' derived identities are theirs. */
  lemma {:induction false} ShownUpdateExactly(slots: Slots, plan: Plan, previous: Json, next: Json, after: Slots, revision: string)
    requires Fits(plan, next) && Showing(slots, plan, previous) && IsWritten(slots, plan, Some(previous), next, after)
    ensures Materialized(after, plan, revision) == Some(HeldDocument(plan, next, revision)) <==>
            DocumentSafe(slots, plan, previous, next) && AllKept(plan, next)
  {
    forall p | p in plan ensures Lists(SlotAt(slots, p), plan[p], ValueAt(previous, p)) {
      ShownLists(SlotAt(slots, p), plan[p], ValueAt(previous, p));
    }
    DocumentWholeExactlyWhenSafe(slots, plan, previous, next);
    UpdateExactly(slots, plan, Some(previous), next, after, revision);
  }

  /** A document written where nothing was materialises as the one a replica is to hold exactly when
      storage keeps every part of it and its items' derived identities are theirs. */
  lemma {:induction false} SeedExactly(plan: Plan, wire: Json, after: Slots, revision: string)
    requires Fits(plan, wire) && IsWritten(map[], plan, None, wire, after)
    ensures Materialized(after, plan, revision) == Some(HeldDocument(plan, wire, revision)) <==>
            DocumentFaithful(plan, wire) && AllKept(plan, wire)
  {
    SeedShows(plan, wire, after);
    WrittenIsSettled(map[], plan, None, wire, after);
    WrittenIsNamed(map[], plan, None, wire, after);
    if DocumentFaithful(plan, wire) && AllKept(plan, wire) { ShownMaterializes(after, plan, revision, wire); }
    if Materialized(after, plan, revision) == Some(HeldDocument(plan, wire, revision)) {
      MaterializedIsShown(after, plan, revision, wire);
    }
  }

  ghost predicate Holdable(plan: Plan, wire: Json) { Fits(plan, wire) && AllKept(plan, wire) }

  /** Over any run of safe changes, every document is materialised as the one a replica is to hold. */
  lemma {:induction false} RunMaterializes(states: seq<Slots>, plan: Plan, documents: seq<Json>, revision: string, i: nat)
    requires |states| == |documents| && i < |documents|
    requires forall j | 0 <= j < |documents| :: Holdable(plan, documents[j])
    requires Showing(states[0], plan, documents[0])
    requires forall j | 0 <= j < |documents| - 1 :: IsWritten(states[j], plan, Some(documents[j]), documents[j + 1], states[j + 1])
    requires forall j | 0 <= j < |documents| - 1 :: DocumentSafe(states[j], plan, documents[j], documents[j + 1])
    ensures Showing(states[i], plan, documents[i]) && documents[i].Obj?
    ensures Materialized(states[i], plan, revision) == Some(HeldDocument(plan, documents[i], revision))
    decreases i
  {
    assert Holdable(plan, documents[i]);
    if i > 0 {
      var j := i - 1;
      RunMaterializes(states, plan, documents, revision, j);
      assert IsWritten(states[j], plan, Some(documents[j]), documents[j + 1], states[j + 1]);
      assert DocumentSafe(states[j], plan, documents[j], documents[j + 1]);
      DocumentWholeExactlyWhenSafe(states[j], plan, documents[j], documents[i]);
      WrittenShows(states[j], plan, Some(documents[j]), documents[i], states[i]);
    }
    ShownMaterializes(states[i], plan, revision, documents[i]);
  }

  // ---------------------------------------------------------------- the failures

  /** An item removed and then given again, without a field it once showed, comes back with the old
      value: the replica materialises as another document than it is to hold. */
  lemma {:induction false} ReturningItemDiffers(
    slots: Slots, gone: Slots, back: Slots, plan: Plan, first: Json, middle: Json, last: Json, p: Path, j: nat, i: nat, q: Path, revision: string)
    requires Fits(plan, last) && Showing(slots, plan, first)
    requires AllDerived(plan) || AllLists(gone, plan, Some(middle))
    requires IsWritten(slots, plan, Some(first), middle, gone) && IsWritten(gone, plan, Some(middle), last, back)
    requires p in plan && plan[p].storage.KeyedSequence? && q in plan[p].storage.item && IsPlain(plan[p].storage.item[q])
    requires j < |ItemsOf(ValueAt(first, p))| && i < |ItemsOf(ValueAt(last, p))|
    requires var path, was, now := plan[p].storage.identityPath, ItemsOf(ValueAt(first, p))[j], ItemsOf(ValueAt(last, p))[i];
             && StringAt(was, path).Some? && StringAt(now, path) == StringAt(was, path)
             && Entry(plan[p].storage.item[q], ValueAt(was, q), true).Some? && ValueAt(now, q).None?
             && ItemOf(ItemsOf(ValueAt(middle, p)), path, StringAt(was, path).value).None?
    ensures Materialized(back, plan, revision) != Some(HeldDocument(plan, last, revision))
  {
    var field, was := plan[p], ItemsOf(ValueAt(first, p))[j];
    var id := StringAt(was, field.storage.identityPath).value;
    assert FieldShows(SlotAt(slots, p), field, ValueAt(first, p));
    assert ItemShows(SlotAt(slots, p), field, was, q);
    ShownOnce(SlotAt(ItemSlots(SlotAt(slots, p), id), q), field.storage.item[q], ValueAt(was, q));
    assert WrittenAt(slots, plan, Some(first), middle, p) == Some(SlotAt(gone, p));
    DepartedItemStays(SlotAt(slots, p), field, ValueAt(first, p), ValueAt(middle, p), id);
    ReturningItemIsNotWhole(gone, plan, Some(middle), last, p, i, q);
    UpdateExactly(gone, plan, Some(middle), last, back, revision);
  }

  lemma {:induction false} ShownOnce(slot: Slot, field: Field, value: Option<Json>)
    requires IsPlain(field) && FieldShows(slot, field, value) && Entry(field, value, true).Some?
    ensures !PlainShows(slot, field, None)
  {
    assert Shown(field, value).Some?;
  }

  /** The containers of an item that leaves a sequence stay as they are. */
  lemma {:induction false} DepartedItemStays(slot: Slot, field: Field, previous: Option<Json>, next: Option<Json>, id: string)
    requires field.storage.KeyedSequence? && WriteField(slot, field, previous, next).Some?
    requires ItemOf(ItemsOf(next), field.storage.identityPath, id).None?
    ensures ItemSlots(WriteField(slot, field, previous, next).value, id) == ItemSlots(slot, id)
  {
    SequenceWritten(slot, field, previous, next);
    var path, now := field.storage.identityPath, ItemsOf(next);
    if id in IdentitiesOf(now, path) {
      var i :| 0 <= i < |now| && IdentitiesOf(now, path)[i] == id;
      ItemIsFound(now, path, i);
    }
  }

  lemma {:induction false} ItemIsFound(items: seq<Json>, path: Path, i: nat)
    requires i < |items| && StringAt(items[i], path).Some?
    ensures ItemOf(items, path, StringAt(items[i], path).value).Some?
    decreases |items|
  {
    if i < |items| - 1 { ItemIsFound(items[..|items| - 1], path, i); }
  }

  /** A valid document that leaves out no structured list is written. */
  lemma {:induction false} CanBeWritten(slots: Slots, plan: Plan, previous: Option<Json>, next: Json) returns (after: Slots)
    requires PlanFits(plan) && DocumentValid(plan, next) && (previous.Some? ==> DocumentValid(plan, previous.value))
    requires !DocumentDrops(plan, previous, next)
    ensures IsWritten(slots, plan, previous, next, after)
  {
    AcceptedDocument(slots, plan, previous, next);
    after := EachWritten(slots, plan, previous, next);
  }

  lemma {:induction false} EachWritten(slots: Slots, plan: Plan, previous: Option<Json>, next: Json) returns (after: Slots)
    requires forall p | p in plan :: WrittenAt(slots, plan, previous, next, p).Some?
    ensures IsWritten(slots, plan, previous, next, after)
  {
    var written := map p | p in plan :: WrittenAt(slots, plan, previous, next, p).value;
    after := slots + written;
    forall p | p in plan ensures SlotAt(after, p) == written[p] {}
    forall p | p !in plan ensures SlotAt(after, p) == SlotAt(slots, p) {}
  }

  const NOTED_ITEM: Plan :=
    map[["id"] := Field(DerivedIdentity("id"), Identity, true, false), ["note"] := Field(Scalar, StringCodec, false, false)]
  const NOTED: Plan := map[["items"] := Field(KeyedSequence(["id"], "id", NOTED_ITEM), KeyedSequenceCodec, true, false)]

  function Items(items: seq<Json>): Json { Obj(map["items" := Arr(items)]) }

  const WITH_NOTE: Json := Obj(map["id" := Str("a"), "note" := Str("x")])
  const WITHOUT_NOTE: Json := Obj(map["id" := Str("a")])

  lemma {:induction false} NotedPlan()
    ensures PlanFits(NOTED) && PlanFits(NOTED_ITEM) && AllDerived(NOTED) && RevisionsAtTop(NOTED)
  {
    forall p, q | p in NOTED_ITEM && q in NOTED_ITEM && p != q ensures !IsPrefix(p, q) {
      assert p[0] != q[0];
    }
    assert PrefixFree(NOTED.Keys);
    assert forall q | q in NOTED_ITEM :: FieldPlanned(NOTED_ITEM[q]);
    assert FieldPlanned(NOTED[["items"]]);
  }

  predicate IsNoted(items: seq<Json>) { items == [] || items == [WITH_NOTE] || items == [WITHOUT_NOTE] }

  lemma {:induction false} NotedPaths(items: seq<Json>)
    requires IsNoted(items)
    ensures ValueAt(Items(items), ["items"]) == Some(Arr(items))
    ensures forall i | 0 <= i < |items| :: ValueAt(items[i], ["id"]) == Some(Str("a"))
    ensures items == [WITH_NOTE] ==> ValueAt(items[0], ["note"]) == Some(Str("x"))
    ensures items == [WITHOUT_NOTE] ==> ValueAt(items[0], ["note"]) == None
  {
    assert ["items"][1..] == [] && ["id"][1..] == [] && ["note"][1..] == [];
  }

  lemma {:induction false} NotedIsValid(items: seq<Json>)
    requires IsNoted(items)
    ensures DocumentValid(NOTED, Items(items)) && DocumentFaithful(NOTED, Items(items))
  {
    NotedPaths(items);
    forall i, q | 0 <= i < |items| && q in NOTED_ITEM
      ensures FieldValid(NOTED_ITEM[q], ValueAt(items[i], q)) && FieldFaithful(NOTED_ITEM[q], ValueAt(items[i], q))
    {}
    assert FieldValid(NOTED[["items"]], Some(Arr(items)));
    assert FieldFaithful(NOTED[["items"]], Some(Arr(items)));
  }

  lemma {:induction false} NotedIsDeclared(items: seq<Json>)
    requires IsNoted(items)
    ensures DeclaredMembers(NOTED, Items(items)) && ItemsDeclared(NOTED[["items"]], Some(Arr(items)))
  {
    forall i | 0 <= i < |items| ensures DeclaredMembers(NOTED_ITEM, items[i]) {
      assert forall name | name in items[i].members :: [name] in NOTED_ITEM;
    }
  }

  lemma {:induction false} NotedDropsNothing(previous: Option<Json>, next: Json)
    ensures !DocumentDrops(NOTED, previous, next)
  {
    var field := NOTED[["items"]];
    forall was, item, q | q in NOTED_ITEM ensures !ItemDrops(field, was, item, q) {
      assert forall before, after :: !Drops(NOTED_ITEM[q], before, after);
    }
  }

  /** An item with a note, removed, and given again without one, is materialised with the old note. */
  lemma {:induction false} ReturnedNoteDiffers(revision: string) returns (slots: Slots, gone: Slots, back: Slots)
    ensures IsWritten(map[], NOTED, None, Items([WITH_NOTE]), slots)
    ensures IsWritten(slots, NOTED, Some(Items([WITH_NOTE])), Items([]), gone)
    ensures IsWritten(gone, NOTED, Some(Items([])), Items([WITHOUT_NOTE]), back)
    ensures Materialized(back, NOTED, revision) != Some(HeldDocument(NOTED, Items([WITHOUT_NOTE]), revision))
  {
    slots := NotedIsWritten(map[], None, [WITH_NOTE]);
    gone := NotedIsWritten(slots, Some([WITH_NOTE]), []);
    back := NotedIsWritten(gone, Some([]), [WITHOUT_NOTE]);
    NotedPlan();
    NotedIsValid([WITH_NOTE]);
    SeedShows(NOTED, Items([WITH_NOTE]), slots);
    NotedDiffers(slots, gone, back, revision);
  }

  lemma {:induction false} NotedIsWritten(slots: Slots, previous: Option<seq<Json>>, next: seq<Json>) returns (after: Slots)
    requires (previous.Some? ==> IsNoted(previous.value)) && IsNoted(next)
    ensures IsWritten(slots, NOTED, if previous.Some? then Some(Items(previous.value)) else None, Items(next), after)
  {
    NotedPlan();
    NotedIsValid(next);
    if previous.Some? { NotedIsValid(previous.value); }
    var was := if previous.Some? then Some(Items(previous.value)) else None;
    NotedDropsNothing(was, Items(next));
    after := CanBeWritten(slots, NOTED, was, Items(next));
  }

  lemma {:induction false} NotedFits()
    ensures Fits(NOTED, Items([WITHOUT_NOTE])) && AllDerived(NOTED)
  {
    NotedPlan();
    NotedPaths([WITHOUT_NOTE]);
    NotedIsValid([WITHOUT_NOTE]);
    NotedIsDeclared([WITHOUT_NOTE]);
  }

  lemma {:induction false} NotedItem(items: seq<Json>)
    requires IsNoted(items)
    ensures ItemsOf(ValueAt(Items(items), ["items"])) == items
    ensures items != [] ==> StringAt(items[0], ["id"]) == Some("a")
    ensures items == [] ==> ItemOf(items, ["id"], "a") == None
    ensures items == [WITH_NOTE] ==> Entry(NOTED_ITEM[["note"]], ValueAt(items[0], ["note"]), true).Some?
    ensures items == [WITHOUT_NOTE] ==> ValueAt(items[0], ["note"]).None?
  {
    NotedPaths(items);
  }

  lemma {:induction false} NotedSequence()
    ensures ["items"] in NOTED && NOTED[["items"]].storage.KeyedSequence? && NOTED[["items"]].storage.identityPath == ["id"]
    ensures ["note"] in NOTED[["items"]].storage.item && NOTED[["items"]].storage.item[["note"]] == NOTED_ITEM[["note"]]
    ensures IsPlain(NOTED_ITEM[["note"]])
  {
  }

  lemma {:induction false} NotedDiffers(slots: Slots, gone: Slots, back: Slots, revision: string)
    requires Showing(slots, NOTED, Items([WITH_NOTE]))
    requires IsWritten(slots, NOTED, Some(Items([WITH_NOTE])), Items([]), gone)
    requires IsWritten(gone, NOTED, Some(Items([])), Items([WITHOUT_NOTE]), back)
    ensures Materialized(back, NOTED, revision) != Some(HeldDocument(NOTED, Items([WITHOUT_NOTE]), revision))
  {
    NotedFits();
    NotedItem([WITH_NOTE]);
    NotedItem([]);
    NotedItem([WITHOUT_NOTE]);
    NotedSequence();
    ReturningItemDiffers(slots, gone, back, NOTED, Items([WITH_NOTE]), Items([]), Items([WITHOUT_NOTE]), ["items"], 0, 0, ["note"], revision);
  }

  const SUMMARY: Plan := map[["summary"] := Field(Text, PropertyText, false, false)]

  /** A valid document without an optional property text is written, and cannot be materialised. */
  lemma {:induction false} MissingTextIsNotMaterialized(after: Slots, revision: string)
    requires IsWritten(map[], SUMMARY, None, Obj(map[]), after)
    ensures PlanFits(SUMMARY) && DocumentValid(SUMMARY, Obj(map[])) && !DocumentDrops(SUMMARY, None, Obj(map[]))
    ensures Materialized(after, SUMMARY, revision).None?
  {
    assert ValueAt(Obj(map[]), ["summary"]) == None;
    NothingDropped(SUMMARY, Obj(map[]));
    assert WrittenAt(map[], SUMMARY, None, Obj(map[]), ["summary"]) == Some(SlotAt(after, ["summary"]));
    assert EntryRead(SlotAt(after, ["summary"]), SUMMARY[["summary"]], map[], false, revision).None?;
  }

  // ---------------------------------------------------------------- a replica

  const REPLICA_REVISION := "replica:materialized"

  /** A replica of one plan's documents: its containers, and the document its next edit is written
      against, unless an update has changed the containers since. */
  class Replica {
    const plan: Plan
    const containers: Containers
    var baseline: Option<Json>

    ghost predicate Valid()
      reads this
    {
      PlanFits(plan) && (baseline.Some? ==> DocumentValid(plan, baseline.value))
    }

    constructor (plan: Plan)
      requires PlanFits(plan)
      ensures Valid() && this.plan == plan && fresh(containers) && containers.slots == map[] && baseline == None
    {
      this.plan := plan;
      containers := new Containers();
      baseline := None;
    }

    /** Writes a first document: refused exactly when it is not valid. */
    method Seed(wire: Json) returns (seeded: bool)
      requires Valid() && containers.slots == map[]
      modifies this, containers
      ensures Valid() && (seeded <==> DocumentValid(plan, wire)) && (seeded ==> baseline == Some(wire))
      ensures seeded ==> IsWritten(map[], plan, None, wire, containers.slots)
    {
      NothingDropped(plan, wire);
      seeded := containers.WriteDocument(plan, None, wire);
      baseline := if seeded then Some(wire) else None;
    }

    /** Writes a document as the difference from the one the replica holds: the last one written, or
        after an update the one materialised. */
    method ReplaceDocument(next: Json) returns (replaced: bool)
      requires Valid()
      modifies this, containers
      ensures Valid()
      ensures var previous := if old(baseline).Some? then old(baseline) else Materialized(old(containers.slots), plan, REPLICA_REVISION);
              && (replaced <==> previous.Some? && DocumentValid(plan, next) && !DocumentDrops(plan, previous, next))
              && (replaced ==> baseline == Some(next) && IsWritten(old(containers.slots), plan, previous, next, containers.slots))
              && (!replaced ==> baseline == None)
    {
      var previous := baseline;
      baseline := None;
      if previous.None? {
        previous := Materialize(containers.slots, plan, REPLICA_REVISION);
        if previous.None? {
          return false;
        }
      }
      replaced := containers.WriteDocument(plan, previous, next);
      if replaced {
        baseline := Some(next);
      }
    }

    /** Takes over the containers an update leaves. */
    method Adopt(slots: Slots)
      requires Valid()
      modifies this, containers
      ensures Valid() && containers.slots == slots && baseline == None
    {
      containers.slots := slots;
      baseline := None;
    }
  }
}
