/** Documents written to a replica's containers, field by field and item by item. */
module ReplicaWrites {
  import opened Wrappers
  import opened Json
  import opened Store
  import opened DocumentShapes
  import opened HeldDocuments
  import opened FieldSlots
  import SD = StructuredDocument

  // ---------------------------------------------------------------- plans and documents

  predicate DistinctIdentities(items: seq<Json>, identityPath: Path) {
    && AllIdentified(items, identityPath)
    && (forall i | 0 <= i < |items| :: StringAt(items[i], identityPath).value != "")
    && (forall i, j | 0 <= i < j < |items| :: StringAt(items[i], identityPath) != StringAt(items[j], identityPath))
  }

  /** A field whose codec fits, and a sequence whose items' fields do, lie apart, and do not derive
      the identity as a revision. */
  ghost predicate FieldPlanned(field: Field)
    decreases field
  {
    FieldFits(field) &&
    (field.storage.KeyedSequence? ==>
       && PrefixFree(field.storage.item.Keys)
       && forall q | q in field.storage.item ::
            && FieldPlanned(field.storage.item[q])
            && (IsPrefix(q, field.storage.identityPath) ==> !field.storage.item[q].storage.DerivedRevision?))
  }

  /** What validation asks of a field's value, and of the items of a sequence. */
  predicate FieldValid(field: Field, value: Option<Json>)
    decreases field
  {
    if IsPlain(field) then ValueFits(field, value)
    else if field.storage.KeyedSequence? then
      if value.None? then !field.required
      else
        && value.value.Arr? && DistinctIdentities(value.value.items, field.storage.identityPath)
        && forall i | 0 <= i < |value.value.items| :: forall q | q in field.storage.item ::
             FieldValid(field.storage.item[q], ValueAt(value.value.items[i], q))
    else true
  }

  /** Storage keeps every part of the value. */
  ghost predicate FieldFaithful(field: Field, value: Option<Json>)
    decreases field
  {
    if IsPlain(field) then Faithful(field, value)
    else if field.storage.KeyedSequence? then
      forall i, q | 0 <= i < |ItemsOf(value)| && q in field.storage.item :: FieldFaithful(field.storage.item[q], ValueAt(ItemsOf(value)[i], q))
    else true
  }

  // ---------------------------------------------------------------- what containers show

  /** The field's containers read as the value: a sequence's order list names its items, and the
      containers of each read as its fields. Those of items it does not name show anything. */
  ghost predicate FieldShows(slot: Slot, field: Field, value: Option<Json>)
    decreases field
  {
    if IsPlain(field) then PlainShows(slot, field, value)
    else if field.storage.KeyedSequence? then
      var path, items := field.storage.identityPath, ItemsOf(value);
      && AllIdentified(items, path) && UniqueStrings(slot.list) == IdentitiesOf(items, path)
      && (field.required || slot.present || items != [] <==> value.Some?)
      && forall i, q | 0 <= i < |items| && q in field.storage.item :: ItemShows(slot, field, items[i], q)
    else true
  }

  ghost predicate ItemShows(slot: Slot, field: Field, item: Json, q: Path)
    requires field.storage.KeyedSequence? && StringAt(item, field.storage.identityPath).Some? && q in field.storage.item
    decreases field, 0
  {
    FieldShows(SlotAt(ItemSlots(slot, StringAt(item, field.storage.identityPath).value), q), field.storage.item[q], ValueAt(item, q))
  }

  /** The change makes the field whole, whatever its containers hold: an order list it leaves alone
      already names the items, and every field of each item is made whole, from what the item was or,
      of an item that comes or comes back, from nothing. */
  ghost predicate WritesWhole(slot: Slot, field: Field, previous: Option<Json>, next: Option<Json>)
    decreases field
  {
    if IsPlain(field) then PlainWhole(slot, field, previous, next)
    else if field.storage.KeyedSequence? then
      var path, was, now := field.storage.identityPath, ItemsOf(previous), ItemsOf(next);
      && AllIdentified(was, path) && AllIdentified(now, path)
      && (IdentitiesOf(was, path) != IdentitiesOf(now, path) || UniqueStrings(slot.list) == IdentitiesOf(now, path))
      && forall i, q | 0 <= i < |now| && q in field.storage.item :: ItemWhole(slot, field, was, now[i], q)
    else true
  }

  ghost predicate ItemWhole(slot: Slot, field: Field, was: seq<Json>, item: Json, q: Path)
    requires field.storage.KeyedSequence? && StringAt(item, field.storage.identityPath).Some? && q in field.storage.item
    decreases field, 0
  {
    var path := field.storage.identityPath;
    var id := StringAt(item, path).value;
    WritesWhole(SlotAt(ItemSlots(slot, id), q), field.storage.item[q], ValueIn(ItemOf(was, path, id), q), ValueAt(item, q))
  }

  /** The change leaves out a structured list that was there, here or in an item that stays. */
  ghost predicate Drops(field: Field, previous: Option<Json>, next: Option<Json>)
    decreases field
  {
    if IsPlain(field) then field.storage.StructuredList? && previous.Some? && next.None?
    else if field.storage.KeyedSequence? then
      exists i, q | 0 <= i < |ItemsOf(next)| && q in field.storage.item :: ItemDrops(field, ItemsOf(previous), ItemsOf(next)[i], q)
    else false
  }

  ghost predicate ItemDrops(field: Field, was: seq<Json>, item: Json, q: Path)
    requires field.storage.KeyedSequence? && q in field.storage.item
    decreases field, 0
  {
    var path := field.storage.identityPath;
    StringAt(item, path).Some?
    && Drops(field.storage.item[q], ValueIn(ItemOf(was, path, StringAt(item, path).value), q), ValueAt(item, q))
  }

  // ---------------------------------------------------------------- items

  lemma {:induction false} ItemOfItself(items: seq<Json>, path: Path, i: nat)
    requires AllIdentified(items, path) && i < |items|
    requires forall j | i < j < |items| :: StringAt(items[i], path) != StringAt(items[j], path)
    ensures ItemOf(items, path, StringAt(items[i], path).value) == Some(items[i])
    decreases |items|
  {
    if i < |items| - 1 {
      var fewer := items[..|items| - 1];
      assert forall j | 0 <= j < |fewer| :: fewer[j] == items[j];
      ItemOfItself(fewer, path, i);
    }
  }

  lemma {:induction false} ItemOfIsThere(items: seq<Json>, path: Path, id: string) returns (i: nat)
    requires ItemOf(items, path, id).Some?
    ensures i < |items| && ItemOf(items, path, id) == Some(items[i]) && StringAt(items[i], path) == Some(id)
    decreases |items|
  {
    i := |items| - 1;
    if StringAt(items[i], path) != Some(id) { i := ItemOfIsThere(items[..|items| - 1], path, id); }
  }

  /** What the writer of a sequence leaves. */
  lemma {:induction false} SequenceWritten(slot: Slot, field: Field, previous: Option<Json>, next: Option<Json>)
    requires field.storage.KeyedSequence? && WriteField(slot, field, previous, next).Some?
    ensures AllIdentified(ItemsOf(previous), field.storage.identityPath) && AllIdentified(ItemsOf(next), field.storage.identityPath)
    ensures var after, ordered := WriteField(slot, field, previous, next).value, IdentitiesOf(ItemsOf(next), field.storage.identityPath);
            && after.present == (next.Some? || field.required)
            && after.list == (if IdentitiesOf(ItemsOf(previous), field.storage.identityPath) != ordered then SD.Names(ordered) else slot.list)
            && (forall id | id !in ordered :: ItemSlots(after, id) == ItemSlots(slot, id))
            && forall id, q | id in ordered && q in field.storage.item ::
                 WriteItemField(slot, field.storage, ItemsOf(previous), ItemsOf(next), id, q) == Some(SlotAt(ItemSlots(after, id), q))
  {
  }

  /** What the writer leaves of one field of one item. */
  lemma {:induction false} ItemWritten(slot: Slot, field: Field, previous: Option<Json>, next: Option<Json>, i: nat, q: Path)
    requires field.storage.KeyedSequence? && FieldValid(field, next) && WriteField(slot, field, previous, next).Some?
    requires i < |ItemsOf(next)| && q in field.storage.item
    ensures var path, was, item := field.storage.identityPath, ItemsOf(previous), ItemsOf(next)[i];
            && StringAt(item, path).Some?
            && var id := StringAt(item, path).value;
               Some(SlotAt(ItemSlots(WriteField(slot, field, previous, next).value, id), q)) ==
               WriteField(SlotAt(ItemSlots(slot, id), q), field.storage.item[q], ValueIn(ItemOf(was, path, id), q), ValueAt(item, q))
  {
    var path, now := field.storage.identityPath, ItemsOf(next);
    SequenceWritten(slot, field, previous, next);
    ItemOfItself(now, path, i);
    var ordered := IdentitiesOf(now, path);
    assert ordered[i] in ordered;
    assert WriteItemField(slot, field.storage, ItemsOf(previous), now, ordered[i], q)
        == Some(SlotAt(ItemSlots(WriteField(slot, field, previous, next).value, ordered[i]), q));
  }

  // ---------------------------------------------------------------- what is accepted

  /** A change between valid values is accepted exactly when it leaves out no structured list that
      was there. */
  lemma {:induction false} AcceptedExactly(slot: Slot, field: Field, previous: Option<Json>, next: Option<Json>)
    requires FieldPlanned(field) && (previous.None? || FieldValid(field, previous)) && FieldValid(field, next)
    ensures WriteField(slot, field, previous, next).Some? <==> !Drops(field, previous, next)
    decreases field, 1
  {
    if IsPlain(field) {
      PlainAccepted(slot, field, previous, next);
    } else if field.storage.KeyedSequence? {
      var path, was, now := field.storage.identityPath, ItemsOf(previous), ItemsOf(next);
      var ordered := IdentitiesOf(now, path);
      forall i, q | 0 <= i < |now| && q in field.storage.item
        ensures WriteItemField(slot, field.storage, was, now, ordered[i], q).Some? <==> !ItemDrops(field, was, now[i], q)
      {
        ItemAccepted(slot, field, previous, next, i, q);
      }
      ItemsAccepted(slot, field, was, now, ordered);
    }
  }

  lemma {:induction false} ItemAccepted(slot: Slot, field: Field, previous: Option<Json>, next: Option<Json>, i: nat, q: Path)
    requires field.storage.KeyedSequence? && FieldPlanned(field) && q in field.storage.item
    requires (previous.None? || FieldValid(field, previous)) && FieldValid(field, next) && i < |ItemsOf(next)|
    ensures StringAt(ItemsOf(next)[i], field.storage.identityPath).Some?
    ensures var id := StringAt(ItemsOf(next)[i], field.storage.identityPath).value;
            WriteItemField(slot, field.storage, ItemsOf(previous), ItemsOf(next), id, q).Some? <==>
            !ItemDrops(field, ItemsOf(previous), ItemsOf(next)[i], q)
    decreases field, 0
  {
    var path, was, now := field.storage.identityPath, ItemsOf(previous), ItemsOf(next);
    var id := StringAt(now[i], path).value;
    ItemOfItself(now, path, i);
    if ItemOf(was, path, id).Some? { var j := ItemOfIsThere(was, path, id); }
    AcceptedExactly(SlotAt(ItemSlots(slot, id), q), field.storage.item[q], ValueIn(ItemOf(was, path, id), q), ValueAt(now[i], q));
  }

  lemma {:induction false} ItemsAccepted(slot: Slot, field: Field, was: seq<Json>, now: seq<Json>, ordered: seq<string>)
    requires field.storage.KeyedSequence? && |ordered| == |now|
    requires forall i, q | 0 <= i < |now| && q in field.storage.item ::
               WriteItemField(slot, field.storage, was, now, ordered[i], q).Some? <==> !ItemDrops(field, was, now[i], q)
    ensures (exists id, q | id in ordered && q in field.storage.item :: WriteItemField(slot, field.storage, was, now, id, q).None?) <==>
            exists i, q | 0 <= i < |now| && q in field.storage.item :: ItemDrops(field, was, now[i], q)
  {
    if i, q :| 0 <= i < |now| && q in field.storage.item && ItemDrops(field, was, now[i], q) {
      assert ordered[i] in ordered && WriteItemField(slot, field.storage, was, now, ordered[i], q).None?;
    }
    if id, q :| id in ordered && q in field.storage.item && WriteItemField(slot, field.storage, was, now, id, q).None? {
      var i :| 0 <= i < |ordered| && ordered[i] == id;
      assert ItemDrops(field, was, now[i], q);
    }
  }

  // ---------------------------------------------------------------- what a change makes whole

  /** Whatever the containers hold, once a change is written they read as the new value exactly when
      the change makes it whole: for every storage, and through sequences however deep. */
  lemma {:induction false} WriteShowsExactly(slot: Slot, field: Field, previous: Option<Json>, next: Option<Json>)
    requires FieldPlanned(field) && FieldValid(field, next)
    requires WriteField(slot, field, previous, next).Some?
    ensures FieldShows(WriteField(slot, field, previous, next).value, field, next) <==> WritesWhole(slot, field, previous, next)
    decreases field, 1
  {
    if IsPlain(field) {
      PlainWriteExactly(slot, field, previous, next);
    } else if field.storage.KeyedSequence? {
      var was, now := ItemsOf(previous), ItemsOf(next);
      var after := WriteField(slot, field, previous, next).value;
      SequenceWritten(slot, field, previous, next);
      UniqueNames(IdentitiesOf(now, field.storage.identityPath));
      forall i, q | 0 <= i < |now| && q in field.storage.item
        ensures ItemShows(after, field, now[i], q) <==> ItemWhole(slot, field, was, now[i], q)
      {
        ItemShowsExactly(slot, field, previous, next, i, q);
      }
    }
  }

  lemma {:induction false} ItemShowsExactly(slot: Slot, field: Field, previous: Option<Json>, next: Option<Json>, i: nat, q: Path)
    requires field.storage.KeyedSequence? && FieldPlanned(field) && FieldValid(field, next)
    requires WriteField(slot, field, previous, next).Some? && i < |ItemsOf(next)| && q in field.storage.item
    ensures StringAt(ItemsOf(next)[i], field.storage.identityPath).Some?
    ensures ItemShows(WriteField(slot, field, previous, next).value, field, ItemsOf(next)[i], q) <==>
            ItemWhole(slot, field, ItemsOf(previous), ItemsOf(next)[i], q)
    decreases field, 0
  {
    var path, was, item := field.storage.identityPath, ItemsOf(previous), ItemsOf(next)[i];
    var id := StringAt(item, path).value;
    ItemWritten(slot, field, previous, next, i, q);
    WriteShowsExactly(SlotAt(ItemSlots(slot, id), q), field.storage.item[q], ValueIn(ItemOf(was, path, id), q), ValueAt(item, q));
  }

  /** Written where nothing was, a valid value is accepted, and reads back exactly when storage keeps
      every part of it. */
  lemma {:induction false} SeedShowsExactly(field: Field, next: Option<Json>)
    requires FieldPlanned(field) && FieldValid(field, next)
    ensures WriteField(Untouched(), field, None, next).Some?
    ensures FieldShows(WriteField(Untouched(), field, None, next).value, field, next) <==> FieldFaithful(field, next)
    decreases field, 1
  {
    NothingToDrop(field, next);
    AcceptedExactly(Untouched(), field, None, next);
    if IsPlain(field) {
      PlainSeedExactly(field, next);
    } else if field.storage.KeyedSequence? {
      var now, path := ItemsOf(next), field.storage.identityPath;
      var after := WriteField(Untouched(), field, None, next).value;
      SequenceWritten(Untouched(), field, None, next);
      assert IdentitiesOf([], path) == [] && UniqueStrings([]) == [];
      UniqueNames(IdentitiesOf(now, path));
      forall i, q | 0 <= i < |now| && q in field.storage.item
        ensures ItemShows(after, field, now[i], q) <==> FieldFaithful(field.storage.item[q], ValueAt(now[i], q))
      {
        ItemWritten(Untouched(), field, None, next, i, q);
        SeedShowsExactly(field.storage.item[q], ValueAt(now[i], q));
      }
    }
  }

  lemma {:induction false} NothingToDrop(field: Field, next: Option<Json>)
    ensures !Drops(field, None, next)
    decreases field
  {
    if field.storage.KeyedSequence? {
      forall i, q | 0 <= i < |ItemsOf(next)| && q in field.storage.item ensures !ItemDrops(field, [], ItemsOf(next)[i], q) {
        NothingToDrop(field.storage.item[q], ValueAt(ItemsOf(next)[i], q));
      }
    }
  }

  // ---------------------------------------------------------------- a change from what is shown

  /** What a change from a value the containers read as still has to meet: a map or document that
      changes lands, and an item that was not in the sequence is whole in what its containers hold. */
  ghost predicate ChangeSafe(slot: Slot, field: Field, previous: Option<Json>, next: Option<Json>)
    decreases field
  {
    if IsPlain(field) then previous != next ==> PlainWhole(slot, field, previous, next)
    else if field.storage.KeyedSequence? then
      AllIdentified(ItemsOf(next), field.storage.identityPath)
      && forall i, q | 0 <= i < |ItemsOf(next)| && q in field.storage.item :: ItemSafe(slot, field, ItemsOf(previous), ItemsOf(next)[i], q)
    else true
  }

  ghost predicate ItemSafe(slot: Slot, field: Field, was: seq<Json>, item: Json, q: Path)
    requires field.storage.KeyedSequence? && StringAt(item, field.storage.identityPath).Some? && q in field.storage.item
    decreases field, 0
  {
    var path := field.storage.identityPath;
    var id := StringAt(item, path).value;
    var before := SlotAt(ItemSlots(slot, id), q);
    match ItemOf(was, path, id)
    case Some(had) => ChangeSafe(before, field.storage.item[q], ValueAt(had, q), ValueAt(item, q))
    case None => WritesWhole(before, field.storage.item[q], None, ValueAt(item, q))
  }

  /** Where the containers read as the previous value, a change makes the new one whole exactly when
      it is safe. */
  lemma {:induction false} WholeExactlyWhenSafe(slot: Slot, field: Field, previous: Option<Json>, next: Option<Json>)
    requires FieldShows(slot, field, previous)
    ensures WritesWhole(slot, field, previous, next) <==> ChangeSafe(slot, field, previous, next)
    decreases field, 1
  {
    if field.storage.KeyedSequence? && AllIdentified(ItemsOf(next), field.storage.identityPath) {
      var was, now := ItemsOf(previous), ItemsOf(next);
      forall i, q | 0 <= i < |now| && q in field.storage.item
        ensures ItemWhole(slot, field, was, now[i], q) <==> ItemSafe(slot, field, was, now[i], q)
      {
        ItemWholeExactlyWhenSafe(slot, field, previous, now[i], q);
      }
    }
  }

  lemma {:induction false} ItemWholeExactlyWhenSafe(slot: Slot, field: Field, previous: Option<Json>, item: Json, q: Path)
    requires field.storage.KeyedSequence? && FieldShows(slot, field, previous)
    requires StringAt(item, field.storage.identityPath).Some? && q in field.storage.item
    ensures ItemWhole(slot, field, ItemsOf(previous), item, q) <==> ItemSafe(slot, field, ItemsOf(previous), item, q)
    decreases field, 0
  {
    var path, was := field.storage.identityPath, ItemsOf(previous);
    var id := StringAt(item, path).value;
    if ItemOf(was, path, id).Some? {
      var j := ItemOfIsThere(was, path, id);
      assert ItemShows(slot, field, was[j], q);
      WholeExactlyWhenSafe(SlotAt(ItemSlots(slot, id), q), field.storage.item[q], ValueAt(was[j], q), ValueAt(item, q));
    }
  }

  // ---------------------------------------------------------------- a document written

  ghost predicate PlanFits(plan: Plan) { PrefixFree(plan.Keys) && forall p | p in plan :: FieldPlanned(plan[p]) }

  /** The document passes validation, nulls left out. */
  predicate DocumentValid(plan: Plan, document: Json) { forall p | p in plan :: FieldValid(plan[p], ValueAt(document, p)) }

  ghost predicate DocumentFaithful(plan: Plan, document: Json) { forall p | p in plan :: FieldFaithful(plan[p], ValueAt(document, p)) }

  ghost predicate Showing(slots: Slots, plan: Plan, document: Json) {
    forall p | p in plan :: FieldShows(SlotAt(slots, p), plan[p], ValueAt(document, p))
  }

  ghost predicate DocumentWhole(slots: Slots, plan: Plan, previous: Option<Json>, next: Json) {
    forall p | p in plan :: WritesWhole(SlotAt(slots, p), plan[p], ValueIn(previous, p), ValueAt(next, p))
  }

  ghost predicate DocumentSafe(slots: Slots, plan: Plan, previous: Json, next: Json) {
    forall p | p in plan :: ChangeSafe(SlotAt(slots, p), plan[p], ValueAt(previous, p), ValueAt(next, p))
  }

  ghost predicate DocumentDrops(plan: Plan, previous: Option<Json>, next: Json) {
    exists p :: p in plan && Drops(plan[p], ValueIn(previous, p), ValueAt(next, p))
  }

  function WrittenAt(slots: Slots, plan: Plan, previous: Option<Json>, next: Json, p: Path): Option<Slot>
    requires p in plan
  {
    WriteField(SlotAt(slots, p), plan[p], ValueIn(previous, p), ValueAt(next, p))
  }

  /** Every field of the plan is written, and nothing else. */
  ghost predicate IsWritten(slots: Slots, plan: Plan, previous: Option<Json>, next: Json, after: Slots) {
    && (forall p | p in plan :: WrittenAt(slots, plan, previous, next, p) == Some(SlotAt(after, p)))
    && (forall p | p !in plan :: SlotAt(after, p) == SlotAt(slots, p))
  }

  /** The containers of a document, changed in place. */
  class Containers {
    var slots: Slots

    constructor ()
      ensures slots == map[]
    {
      slots := map[];
    }

    /** Writes the difference between two documents, the plain fields and then the sequences, unless
        the new one is not valid: refused besides exactly when a structured list is left out. */
    method WriteDocument(plan: Plan, previous: Option<Json>, next: Json) returns (written: bool)
      requires PlanFits(plan) && (previous.Some? ==> DocumentValid(plan, previous.value))
      modifies this
      ensures written <==> DocumentValid(plan, next) && !DocumentDrops(plan, previous, next)
      ensures written ==> IsWritten(old(slots), plan, previous, next, slots)
      ensures written ==> (Showing(slots, plan, next) <==> DocumentWhole(old(slots), plan, previous, next))
    {
      if !DocumentValid(plan, next) {
        return false;
      }
      AcceptedDocument(slots, plan, previous, next);
      written := WriteAll(plan, previous, next);
      if written {
        WrittenShows(old(slots), plan, previous, next, slots);
      }
    }

    method WriteAll(plan: Plan, previous: Option<Json>, next: Json) returns (written: bool)
      modifies this
      ensures written <==> forall p | p in plan :: WrittenAt(old(slots), plan, previous, next, p).Some?
      ensures written ==> IsWritten(old(slots), plan, previous, next, slots)
    {
      var sequences := set p | p in plan && plan[p].storage.KeyedSequence?;
      written := WriteFields(plan, previous, next, plan.Keys - sequences, slots, {});
      if written {
        written := WriteFields(plan, previous, next, sequences, old(slots), {} + (plan.Keys - sequences));
      }
      assert {} + (plan.Keys - sequences) + sequences == plan.Keys;
    }

    method WriteFields(plan: Plan, previous: Option<Json>, next: Json, paths: set<Path>, ghost before: Slots, ghost done: set<Path>)
      returns (written: bool)
      requires paths <= plan.Keys && paths !! done && done <= plan.Keys && PartWritten(before, plan, previous, next, slots, done)
      modifies this
      ensures written ==> PartWritten(before, plan, previous, next, slots, done + paths)
      ensures written <==> forall p | p in paths :: WrittenAt(before, plan, previous, next, p).Some?
    {
      var pending := paths;
      while pending != {}
        invariant pending <= paths && PartWritten(before, plan, previous, next, slots, done + (paths - pending))
        invariant forall p | p in paths - pending :: WrittenAt(before, plan, previous, next, p).Some?
        decreases |pending|
      {
        var path :| path in pending;
        var slot := WriteField(SlotAt(slots, path), plan[path], ValueIn(previous, path), ValueAt(next, path));
        assert slot == WrittenAt(before, plan, previous, next, path);
        if slot.None? {
          return false;
        }
        OneMoreWritten(before, plan, previous, next, slots, done + (paths - pending), path, slot.value);
        PathsJoin(done, paths, pending, path);
        slots := slots[path := slot.value];
        pending := pending - {path};
      }
      assert paths - {} == paths;
      return true;
    }
  }

  /** The fields done are written, and nothing else. */
  ghost predicate PartWritten(slots: Slots, plan: Plan, previous: Option<Json>, next: Json, after: Slots, done: set<Path>)
    requires done <= plan.Keys
  {
    && (forall p | p in done :: WrittenAt(slots, plan, previous, next, p) == Some(SlotAt(after, p)))
    && (forall p | p !in done :: SlotAt(after, p) == SlotAt(slots, p))
  }

  lemma {:induction false} OneMoreWritten(
    slots: Slots, plan: Plan, previous: Option<Json>, next: Json, after: Slots, done: set<Path>, path: Path, slot: Slot)
    requires done <= plan.Keys && path in plan && PartWritten(slots, plan, previous, next, after, done)
    requires WrittenAt(slots, plan, previous, next, path) == Some(slot)
    ensures PartWritten(slots, plan, previous, next, after[path := slot], done + {path})
  {
    forall p | p != path ensures SlotAt(after[path := slot], p) == SlotAt(after, p) {}
  }

  lemma {:induction false} PathsJoin(done: set<Path>, paths: set<Path>, pending: set<Path>, path: Path)
    requires path in pending && pending <= paths
    ensures done + (paths - (pending - {path})) == done + (paths - pending) + {path}
    ensures paths - (pending - {path}) == paths - pending + {path}
  {
  }

  lemma {:induction false} AcceptedDocument(slots: Slots, plan: Plan, previous: Option<Json>, next: Json)
    requires PlanFits(plan) && DocumentValid(plan, next) && (previous.Some? ==> DocumentValid(plan, previous.value))
    ensures (forall p | p in plan :: WrittenAt(slots, plan, previous, next, p).Some?) <==> !DocumentDrops(plan, previous, next)
  {
    forall p | p in plan
      ensures WrittenAt(slots, plan, previous, next, p).Some? <==> !Drops(plan[p], ValueIn(previous, p), ValueAt(next, p))
    {
      AcceptedExactly(SlotAt(slots, p), plan[p], ValueIn(previous, p), ValueAt(next, p));
    }
  }

  /** Written, the containers read as the document exactly when the change makes it whole. */
  lemma {:induction false} WrittenShows(slots: Slots, plan: Plan, previous: Option<Json>, next: Json, after: Slots)
    requires PlanFits(plan) && DocumentValid(plan, next) && IsWritten(slots, plan, previous, next, after)
    ensures Showing(after, plan, next) <==> DocumentWhole(slots, plan, previous, next)
  {
    forall p | p in plan
      ensures FieldShows(SlotAt(after, p), plan[p], ValueAt(next, p)) <==>
              WritesWhole(SlotAt(slots, p), plan[p], ValueIn(previous, p), ValueAt(next, p))
    {
      WriteShowsExactly(SlotAt(slots, p), plan[p], ValueIn(previous, p), ValueAt(next, p));
    }
  }

  /** Where the containers read as the previous document, a change makes the new one whole exactly
      when it is safe. */
  lemma {:induction false} DocumentWholeExactlyWhenSafe(slots: Slots, plan: Plan, previous: Json, next: Json)
    requires Showing(slots, plan, previous)
    ensures DocumentWhole(slots, plan, Some(previous), next) <==> DocumentSafe(slots, plan, previous, next)
  {
    forall p | p in plan
      ensures WritesWhole(SlotAt(slots, p), plan[p], ValueAt(previous, p), ValueAt(next, p)) <==>
              ChangeSafe(SlotAt(slots, p), plan[p], ValueAt(previous, p), ValueAt(next, p))
    {
      WholeExactlyWhenSafe(SlotAt(slots, p), plan[p], ValueAt(previous, p), ValueAt(next, p));
    }
  }

  /** Written where nothing was, a document is shown exactly when storage keeps every part of it. */
  lemma {:induction false} SeedShows(plan: Plan, next: Json, after: Slots)
    requires PlanFits(plan) && DocumentValid(plan, next) && IsWritten(map[], plan, None, next, after)
    ensures Showing(after, plan, next) <==> DocumentFaithful(plan, next)
  {
    forall p | p in plan ensures FieldShows(SlotAt(after, p), plan[p], ValueAt(next, p)) <==> FieldFaithful(plan[p], ValueAt(next, p)) {
      SeedShowsExactly(plan[p], ValueAt(next, p));
    }
  }

  lemma {:induction false} NothingDropped(plan: Plan, next: Json)
    ensures !DocumentDrops(plan, None, next)
  {
    forall p | p in plan ensures !Drops(plan[p], None, ValueAt(next, p)) { NothingToDrop(plan[p], ValueAt(next, p)); }
  }

  // ---------------------------------------------------------------- what is not whole

  /** A field an item leaves out as it comes back, whose containers still show a value, keeps the
      whole document from being made whole. */
  lemma {:induction false} ReturningItemIsNotWhole(
    slots: Slots, plan: Plan, previous: Option<Json>, next: Json, p: Path, i: nat, q: Path)
    requires p in plan && plan[p].storage.KeyedSequence? && i < |ItemsOf(ValueAt(next, p))|
    requires var item := ItemsOf(ValueAt(next, p))[i];
             && q in plan[p].storage.item && IsPlain(plan[p].storage.item[q]) && ValueAt(item, q).None?
             && StringAt(item, plan[p].storage.identityPath).Some?
             && var id := StringAt(item, plan[p].storage.identityPath).value;
                && ItemOf(ItemsOf(ValueIn(previous, p)), plan[p].storage.identityPath, id).None?
                && !PlainShows(SlotAt(ItemSlots(SlotAt(slots, p), id), q), plan[p].storage.item[q], None)
    ensures !DocumentWhole(slots, plan, previous, next)
  {
    var item := ItemsOf(ValueAt(next, p))[i];
    if DocumentWhole(slots, plan, previous, next) {
      assert WritesWhole(SlotAt(slots, p), plan[p], ValueIn(previous, p), ValueAt(next, p));
      assert ItemWhole(SlotAt(slots, p), plan[p], ItemsOf(ValueIn(previous, p)), item, q);
      NothingGivenIsWhole(SlotAt(ItemSlots(SlotAt(slots, p), StringAt(item, plan[p].storage.identityPath).value), q), plan[p].storage.item[q]);
    }
  }

  lemma {:induction false} NothingGivenIsWhole(slot: Slot, field: Field)
    requires IsPlain(field)
    ensures WritesWhole(slot, field, None, None) <==> PlainShows(slot, field, None)
  {
  }

  const TAGS: Plan := map[["tags"] := Field(StructuredList, StructuredJson, false, false)]
  const TAGGED: Json := Obj(map["tags" := Arr([Str("a")])])

  /** A valid document that leaves out an optional structured list is refused. */
  lemma {:induction false} DroppedListIsRefused(slots: Slots)
    ensures PlanFits(TAGS) && DocumentValid(TAGS, TAGGED) && DocumentValid(TAGS, Obj(map[]))
    ensures WrittenAt(slots, TAGS, Some(TAGGED), Obj(map[]), ["tags"]).None?
  {
    assert ["tags"][1..] == [];
    assert ValueAt(TAGGED, ["tags"]) == Some(Arr([Str("a")]));
    assert ValueAt(Obj(map[]), ["tags"]) == None;
  }
}
