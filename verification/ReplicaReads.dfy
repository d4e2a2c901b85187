/** The document a replica materialises from its containers, whatever they hold. */
module ReplicaReads {
  import opened Wrappers
  import opened Json
  import opened Store
  import opened DocumentShapes
  import opened HeldDocuments
  import opened FieldSlots
  import opened ReplicaWrites
  import SM = StructuredMap
  import SDR = StructuredDocumentReader

  type Context = map<string, string>

  // ---------------------------------------------------------------- what containers read as

  /** The one object of the entries, if they make one. */
  ghost function Made(entries: Entries): Members {
    if exists members :: Shape(members, entries) then (var members :| Shape(members, entries); members) else map[]
  }

  lemma {:induction false} MadeIs(members: Members, entries: Entries)
    requires Shape(members, entries)
    ensures Made(entries) == members
  {
    ShapeIsUnique(Made(entries), members, entries);
  }

  ghost function WithRestored(plan: Plan, entries: Entries): Entries { entries + RestoredEntries(plan, entries, true) }

  /** What a field is set to, `None` where it is left out; nothing if its containers are damaged. */
  ghost function EntryRead(slot: Slot, field: Field, context: Context, inItem: bool, revision: string): Option<Option<Json>>
    decreases field.storage, 4
  {
    match field.storage
    case DerivedIdentity(variable) =>
      if !inItem then Some(None) else if variable in context then Some(Some(Str(context[variable]))) else None
    case DerivedRevision => Some(if inItem then None else Some(Str(revision)))
    case KeyedSequence(_, _, _) =>
      (match ItemsRead(slot, field.storage, context)
       case Some(items) => Some(if field.required || items != [] || slot.present then Some(Arr(items)) else None)
       case None => None)
    case _ => (match ReadField(slot, field) case Some(read) => Some(Shown(field, read)) case None => None)
  }

  /** The items the order list names, each of its own containers. */
  ghost function ItemsRead(slot: Slot, scope: Storage, context: Context): Option<seq<Json>>
    requires scope.KeyedSequence?
    decreases scope, 3
  {
    var names := UniqueStrings(slot.list);
    if forall i | 0 <= i < |names| :: ItemRead(slot, scope, context, names[i]).Some? then
      Some(seq(|names|, i requires 0 <= i < |names| => Obj(ItemRead(slot, scope, context, names[i]).value)))
    else None
  }

  ghost function ItemRead(slot: Slot, scope: Storage, context: Context, name: string): Option<Members>
    requires scope.KeyedSequence?
    decreases scope, 2
  {
    NodeRead(ItemSlots(slot, name), scope, context[scope.variable := name], true, "")
  }

  /** A document, or an item: the one object of the entries read and of those restored beside them. */
  ghost function NodeRead(slots: Slots, scope: Storage, context: Context, inItem: bool, revision: string): Option<Members>
    requires scope.KeyedSequence?
    decreases scope, 1
  {
    if forall p | p in scope.item :: EntryRead(SlotAt(slots, p), scope.item[p], context, inItem, revision).Some? then
      Some(Made(WithRestored(scope.item, EntriesRead(slots, scope, context, inItem, revision))))
    else None
  }

  ghost function EntriesRead(slots: Slots, scope: Storage, context: Context, inItem: bool, revision: string): Entries
    requires scope.KeyedSequence?
    decreases scope, 0
  {
    map p | p in scope.item && EntryRead(SlotAt(slots, p), scope.item[p], context, inItem, revision).Some?
            && EntryRead(SlotAt(slots, p), scope.item[p], context, inItem, revision).value.Some? ::
      EntryRead(SlotAt(slots, p), scope.item[p], context, inItem, revision).value.value
  }

  // ---------------------------------------------------------------- entries set one by one

  function Only(entries: Entries, paths: set<Path>): Entries { map p | p in entries && p in paths :: entries[p] }

  /** One more path done: its entry, if there is one, is set. */
  lemma {:induction false} OneMoreSet(document: Members, entries: Entries, plan: Plan, done: set<Path>, path: Path)
    requires PrefixFree(plan.Keys) && entries.Keys <= plan.Keys && path in plan && path !in done
    requires Shape(document, Only(entries, done))
    ensures path in entries ==> SetAt(document, path, entries[path]).Some?
                                && Shape(SetAt(document, path, entries[path]).value, Only(entries, done + {path}))
    ensures path !in entries ==> Shape(document, Only(entries, done + {path}))
  {
    if path in entries {
      assert Apart(Only(entries, done), path);
      SetShapes(document, Only(entries, done), path, entries[path]);
      assert Only(entries, done)[path := entries[path]] == Only(entries, done + {path});
    } else {
      assert Only(entries, done + {path}) == Only(entries, done);
    }
  }

  /** The entries and some of those restored beside them. */
  ghost predicate Restoring(plan: Plan, entries: Entries, now: Entries) {
    && PrefixFree(plan.Keys) && entries.Keys <= now.Keys <= plan.Keys
    && forall p | p in now && p !in entries :: ParentPresent(entries, p, true)
  }

  /** Restoring members brings no object into being. */
  lemma {:induction false} ParentsStay(plan: Plan, entries: Entries, now: Entries, path: Path)
    requires Restoring(plan, entries, now) && path in plan && |path| > 1
    ensures Reaches(now, path[..|path| - 1]) <==> Reaches(entries, path[..|path| - 1])
  {
    var parent := path[..|path| - 1];
    if Reaches(entries, parent) {
      var p :| p in entries && IsPrefix(parent, p);
      assert p in now;
    }
    if Reaches(now, parent) {
      var p :| p in now && IsPrefix(parent, p);
      if p !in entries { RestoredParent(plan, entries, p, path); }
    }
  }

  lemma {:induction false} RestoredParent(plan: Plan, entries: Entries, p: Path, path: Path)
    requires PrefixFree(plan.Keys) && p in plan && path in plan && |path| > 1
    requires IsPrefix(path[..|path| - 1], p) && ParentPresent(entries, p, true)
    ensures Reaches(entries, path[..|path| - 1])
  {
    var parent := path[..|path| - 1];
    assert |p| > |parent| by {
      if |p| == |parent| { assert p == parent && IsPrefix(p, path); }
    }
    var own := p[..|p| - 1];
    var e :| e in entries && IsPrefix(own, e);
    assert IsPrefix(parent, own) by { assert own[..|parent|] == p[..|parent|]; }
    assert IsPrefix(parent, e) by { assert e[..|parent|] == e[..|own|][..|parent|]; }
  }

  // ---------------------------------------------------------------- reading

  /** A plain field's containers, read. */
  method ReadSlot(slot: Slot, field: Field) returns (read: Option<Option<Json>>)
    ensures read == ReadField(slot, field)
  {
    if field.storage.StructuredDocument? {
      var members := SDR.ReadLevel(slot.cells);
      return if members.Some? then Some(ReadStructured(field, slot, members.value)) else None;
    }
    match field.storage {
      case Scalar => return Some(if slot.scalar.Some? then Some(ToJson(slot.scalar.value)) else None);
      case Text =>
        if field.codec.OptionalString? && slot.text == "" {
          return Some(None);
        }
        if !field.codec.PropertyText? {
          return Some(Some(Str(slot.text)));
        }
        if slot.mime.None? {
          return None;
        }
        return Some(Some(Obj(map["$mime" := Str(slot.mime.value), "value" := Str(slot.text)])));
      case OrderedList => return Some(Some(ToJson(LList(slot.list))));
      case StructuredList => return Some(Some(ToJson(LList(slot.list))));
      case StructuredMap => return Some(ReadStructured(field, slot, SM.View(slot.cells)));
      case _ => return Some(None);
    }
  }

  /** The value a field that is no sequence is set to, if it is. */
  method ReadEntry(slot: Slot, field: Field, context: Context, inItem: bool, revision: string) returns (read: Option<Option<Json>>)
    requires !field.storage.KeyedSequence?
    ensures read == EntryRead(slot, field, context, inItem, revision)
  {
    if field.storage.DerivedIdentity? {
      if !inItem {
        return Some(None);
      }
      if field.storage.variable !in context {
        return None;
      }
      return Some(Some(Str(context[field.storage.variable])));
    }
    if field.storage.DerivedRevision? {
      return Some(if inItem then None else Some(Str(revision)));
    }
    var stored := ReadSlot(slot, field);
    if stored.None? {
      return None;
    }
    return Some(Shown(field, stored.value));
  }

  /** The items of a sequence, each read from its own containers. */
  method ReadSequence(slot: Slot, scope: Storage, context: Context) returns (items: Option<seq<Json>>)
    requires scope.KeyedSequence? && PlanFits(scope.item)
    ensures items == ItemsRead(slot, scope, context)
    decreases scope, 5
  {
    var names := UniqueStrings(slot.list);
    items := Some([]);
    for i := 0 to |names|
      invariant items.Some? && |items.value| == i
      invariant forall j | 0 <= j < i ::
                  ItemRead(slot, scope, context, names[j]).Some? && items.value[j] == Obj(ItemRead(slot, scope, context, names[j]).value)
    {
      var item := ReadNode(ItemSlots(slot, names[i]), scope, context[scope.variable := names[i]], true, "");
      assert item == ItemRead(slot, scope, context, names[i]);
      if item.None? {
        return None;
      }
      items := Some(items.value + [Obj(item.value)]);
    }
    assert ItemsRead(slot, scope, context).Some?;
    assert items.value == ItemsRead(slot, scope, context).value;
  }

  /** What one field is set to, sequence or not. */
  method FieldEntry(slot: Slot, scope: Storage, path: Path, context: Context, inItem: bool, revision: string)
    returns (value: Option<Option<Json>>)
    requires scope.KeyedSequence? && PlanFits(scope.item) && path in scope.item
    ensures value == EntryRead(slot, scope.item[path], context, inItem, revision)
    decreases scope, 0
  {
    var field := scope.item[path];
    if field.storage.KeyedSequence? {
      SequencePlanFits(field);
      var items := ReadSequence(slot, field.storage, context);
      if items.None? {
        return None;
      }
      return Some(if field.required || items.value != [] || slot.present then Some(Arr(items.value)) else None);
    }
    value := ReadEntry(slot, field, context, inItem, revision);
  }

  lemma {:induction false} SequencePlanFits(field: Field)
    requires FieldPlanned(field) && field.storage.KeyedSequence?
    ensures PlanFits(field.storage.item)
  {
  }

  /** The fields reached are set, and nothing else. */
  ghost predicate Reached(slots: Slots, scope: Storage, context: Context, inItem: bool, revision: string, made: Members, reached: set<Path>)
    requires scope.KeyedSequence?
  {
    && (forall p | p in reached && p in scope.item :: EntryRead(SlotAt(slots, p), scope.item[p], context, inItem, revision).Some?)
    && Shape(made, Only(EntriesRead(slots, scope, context, inItem, revision), reached))
  }

  /** Sets one field beside those reached. */
  method SetField(slots: Slots, scope: Storage, context: Context, inItem: bool, revision: string, made: Members, path: Path,
                  ghost reached: set<Path>)
    returns (longer: Option<Members>)
    requires scope.KeyedSequence? && PlanFits(scope.item) && path in scope.item && path !in reached
    requires Reached(slots, scope, context, inItem, revision, made, reached)
    ensures longer.Some? <==> EntryRead(SlotAt(slots, path), scope.item[path], context, inItem, revision).Some?
    ensures longer.Some? ==> Reached(slots, scope, context, inItem, revision, longer.value, reached + {path})
    decreases scope, 1
  {
    var value := FieldEntry(SlotAt(slots, path), scope, path, context, inItem, revision);
    if value.None? {
      return None;
    }
    OneMoreSet(made, EntriesRead(slots, scope, context, inItem, revision), scope.item, reached, path);
    return if value.value.Some? then SetAt(made, path, value.value.value) else Some(made);
  }

  /** Sets the fields at the paths, in any order, beside those reached. */
  method SetFields(slots: Slots, scope: Storage, context: Context, inItem: bool, revision: string, document: Members, paths: set<Path>,
                   ghost reached: set<Path>)
    returns (longer: Option<Members>)
    requires scope.KeyedSequence? && PlanFits(scope.item) && paths <= scope.item.Keys && paths !! reached
    requires Reached(slots, scope, context, inItem, revision, document, reached)
    ensures longer.Some? <==> forall p | p in paths :: EntryRead(SlotAt(slots, p), scope.item[p], context, inItem, revision).Some?
    ensures longer.Some? ==> Reached(slots, scope, context, inItem, revision, longer.value, reached + paths)
    decreases scope, 2
  {
    longer := Some(document);
    var pending := paths;
    ghost var now := reached;
    while pending != {}
      invariant longer.Some? && pending <= paths && pending !! now && now + pending == reached + paths
      invariant Reached(slots, scope, context, inItem, revision, longer.value, now)
      decreases |pending|
    {
      var path :| path in pending;
      longer := SetField(slots, scope, context, inItem, revision, longer.value, path, now);
      if longer.None? {
        return;
      }
      SetsJoin(now, pending, path);
      now := now + {path};
      pending := pending - {path};
    }
    SetsEnd(now, reached + paths);
  }

  lemma {:induction false} SetsJoin(now: set<Path>, pending: set<Path>, path: Path)
    requires path in pending
    ensures now + {path} + (pending - {path}) == now + pending
  {
  }

  lemma {:induction false} SetsEnd(now: set<Path>, all: set<Path>)
    requires now + {} == all
    ensures now == all
  {
  }

  // ---------------------------------------------------------------- restoring

  /** Whether a member is restored can be seen from the document as it is. */
  lemma {:induction false} RestoreStep(plan: Plan, entries: Entries, now: Entries, made: Members, path: Path)
    requires Restoring(plan, entries, now) && path in plan && (path in now ==> path in entries) && Shape(made, now)
    ensures path !in entries && ParentPresent(entries, path, true) <==>
            && ValueAt(Obj(made), path).None?
            && (|path| == 1 || ValueAt(Obj(made), path[..|path| - 1]).Some?)
  {
    assert NoneAbove(now, path);
    LeadsExactlyToEntries(made, now, path);
    assert Reaches(now, path) <==> path in entries by {
      if path in entries { assert path in now && IsPrefix(path, path); }
    }
    if |path| > 1 {
      forall p | p in now && p != path[..|path| - 1] ensures !IsPrefix(p, path[..|path| - 1]) { PrefixOfParent(p, path); }
      LeadsExactlyToEntries(made, now, path[..|path| - 1]);
      ParentsStay(plan, entries, now, path);
    }
  }

  /** Restores one member, if its parent requires it and is there, beside those at `paths`. */
  method RestoreMember(plan: Plan, made: Members, path: Path, ghost entries: Entries, ghost paths: set<Path>)
    returns (longer: Option<Members>)
    requires PrefixFree(plan.Keys) && entries.Keys <= paths <= plan.Keys && path in plan && (path in paths ==> path in entries)
    requires Shape(made, Only(WithRestored(plan, entries), paths))
    ensures longer.Some? && Shape(longer.value, Only(WithRestored(plan, entries), paths + {path}))
  {
    ghost var all, now := WithRestored(plan, entries), Only(WithRestored(plan, entries), paths);
    if Restored(plan[path]).Some? {
      assert Restoring(plan, entries, now);
      RestoreStep(plan, entries, now, made, path);
      if ValueAt(Obj(made), path).None? && (|path| == 1 || ValueAt(Obj(made), path[..|path| - 1]).Some?) {
        OneMoreSet(made, all, plan, paths, path);
        longer := SetAt(made, path, Restored(plan[path]).value);
        return;
      }
    }
    assert Only(all, paths + {path}) == now;
    return Some(made);
  }

  /** Gives the document each member a present parent requires but that was read as absent. */
  method RestoreMembers(plan: Plan, document: Members, ghost entries: Entries) returns (completed: Option<Members>)
    requires PrefixFree(plan.Keys) && entries.Keys <= plan.Keys && Shape(document, entries)
    ensures completed.Some? && Shape(completed.value, WithRestored(plan, entries))
  {
    completed := Some(document);
    var pending := plan.Keys;
    ghost var paths := entries.Keys;
    OnlyEnds(plan, entries);
    while pending != {}
      invariant completed.Some? && StillToRestore(plan, entries, completed.value, pending, paths)
      decreases |pending|
    {
      var path :| path in pending;
      completed := RestoreMember(plan, completed.value, path, entries, paths);
      if completed.None? {
        return;
      }
      OneFewer(plan, entries, completed.value, pending, paths, path);
      pending, paths := pending - {path}, paths + {path};
    }
    NoneLeft(plan, entries, completed.value, paths);
  }

  /** Those at `paths` are in the document, and the pending ones are not restored yet. */
  ghost predicate StillToRestore(plan: Plan, entries: Entries, made: Members, pending: set<Path>, paths: set<Path>) {
    && entries.Keys <= paths <= plan.Keys && pending <= plan.Keys <= paths + pending
    && (forall p | p in pending && p in paths :: p in entries)
    && Shape(made, Only(WithRestored(plan, entries), paths))
  }

  lemma {:induction false} OneFewer(plan: Plan, entries: Entries, made: Members, pending: set<Path>, paths: set<Path>, path: Path)
    requires path in pending && Shape(made, Only(WithRestored(plan, entries), paths + {path}))
    requires entries.Keys <= paths <= plan.Keys && pending <= plan.Keys <= paths + pending
    requires forall p | p in pending && p in paths :: p in entries
    ensures StillToRestore(plan, entries, made, pending - {path}, paths + {path})
  {
  }

  lemma {:induction false} NoneLeft(plan: Plan, entries: Entries, made: Members, paths: set<Path>)
    requires StillToRestore(plan, entries, made, {}, paths)
    ensures Shape(made, WithRestored(plan, entries))
  {
    assert paths == plan.Keys;
    OnlyEnds(plan, entries);
  }

  lemma {:induction false} OnlyEnds(plan: Plan, entries: Entries)
    requires entries.Keys <= plan.Keys
    ensures Only(WithRestored(plan, entries), entries.Keys) == entries
    ensures Only(WithRestored(plan, entries), plan.Keys) == WithRestored(plan, entries)
  {
  }

  /** The containers of a node, read. */
  method ReadNode(slots: Slots, scope: Storage, context: Context, inItem: bool, revision: string) returns (document: Option<Members>)
    requires scope.KeyedSequence? && PlanFits(scope.item)
    ensures document == NodeRead(slots, scope, context, inItem, revision)
    decreases scope, 4
  {
    document := SetAll(slots, scope, context, inItem, revision);
    if document.None? {
      return;
    }
    document := RestoreMembers(scope.item, document.value, EntriesRead(slots, scope, context, inItem, revision));
    if document.Some? {
      MadeIs(document.value, WithRestored(scope.item, EntriesRead(slots, scope, context, inItem, revision)));
    }
  }

  /** Sets the fields of a node that are no sequences, then the sequences. */
  method SetAll(slots: Slots, scope: Storage, context: Context, inItem: bool, revision: string) returns (document: Option<Members>)
    requires scope.KeyedSequence? && PlanFits(scope.item)
    ensures document.Some? <==> forall p | p in scope.item :: EntryRead(SlotAt(slots, p), scope.item[p], context, inItem, revision).Some?
    ensures document.Some? ==> Shape(document.value, EntriesRead(slots, scope, context, inItem, revision))
    decreases scope, 3
  {
    var sequences := set p | p in scope.item && scope.item[p].storage.KeyedSequence?;
    var plain := scope.item.Keys - sequences;
    OnlyParts(scope.item, EntriesRead(slots, scope, context, inItem, revision), plain, sequences);
    document := SetFields(slots, scope, context, inItem, revision, map[], plain, {});
    if document.None? {
      return;
    }
    document := SetFields(slots, scope, context, inItem, revision, document.value, sequences, {} + plain);
  }

  lemma {:induction false} OnlyParts(plan: Plan, entries: Entries, plain: set<Path>, sequences: set<Path>)
    requires entries.Keys <= plan.Keys && plain + sequences == plan.Keys
    ensures Only(entries, {}) == map[] && Shape(map[], Only(entries, {}))
    ensures Only(entries, {} + plain + sequences) == entries
  {
    assert Only(entries, {}) == map[];
    assert {} + plain + sequences == plan.Keys;
  }

  // ---------------------------------------------------------------- a document materialised

  function Root(plan: Plan): Storage { KeyedSequence([], "", plan) }

  /** The document read, unless it is not valid. */
  ghost function Materialized(slots: Slots, plan: Plan, revision: string): Option<Json> {
    match NodeRead(slots, Root(plan), map[], false, revision)
    case Some(members) => if DocumentValid(plan, Obj(members)) then Some(Obj(members)) else None
    case None => None
  }

  method Materialize(slots: Slots, plan: Plan, revision: string) returns (document: Option<Json>)
    requires PlanFits(plan)
    ensures document == Materialized(slots, plan, revision)
  {
    var members := ReadNode(slots, Root(plan), map[], false, revision);
    if members.None? || !DocumentValid(plan, Obj(members.value)) {
      return None;
    }
    return Some(Obj(members.value));
  }
}
