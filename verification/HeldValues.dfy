/**
 Value by value, what a replica holds of a document, and so what one it is written to materialises:
 which values are left out, which stand as given, and which stand in an empty form.
 */
module HeldValues {
  import opened Wrappers
  import opened Json
  import opened DocumentShapes
  import opened HeldDocuments
  import opened FieldSlots
  import opened ReplicaWrites
  import opened ReplicaReads
  import opened ReplicaDocuments

  // ---------------------------------------------------------------- one value

  /** The form a member is restored in, by its codec: nothing for those that have no empty one. */
  function EmptyForm(field: Field): Option<Json> {
    match (field.codec, field.storage)
    case (StringCodec, _) => Some(Str(""))
    case (OptionalString, _) => Some(Str(""))
    case (StringList, _) => Some(Arr([]))
    case (KeyedSequenceCodec, _) => Some(Arr([]))
    case (StructuredJson, StructuredMap) => None
    case (StructuredJson, StructuredDocument) => None
    case (StructuredJson, _) => Some(Arr([]))
    case _ => None
  }

  /** A value that is left out where the document need not have it: null, or empty. Of maps and
      documents none is. */
  predicate LeftOut(field: Field, value: Json) {
    && value in {Json.Null, Str(""), Arr([]), Obj(map[])}
    && !field.required && field.storage != StructuredMap && field.storage != StructuredDocument
  }

  /** The member's object is there. */
  predicate ParentThere(held: Json, p: Path) { |p| == 1 || (p != [] && ValueAt(held, p[..|p| - 1]).Some?) }

  /** A plain field of the document, and what is held of it: the value as given, unless it has none or
      one that is left out; then the empty form, where the object around it requires the member and is
      there, and nothing otherwise. */
  predicate HeldPlain(field: Field, given: Json, held: Json, p: Path) {
    if ValueAt(given, p).Some? && !LeftOut(field, ValueAt(given, p).value) then ValueAt(held, p) == ValueAt(given, p)
    else ValueAt(held, p) == if field.requiredInParent && !field.required && ParentThere(held, p) then EmptyForm(field) else None
  }

  lemma {:induction false} PlainIsHeld(plan: Plan, node: Json, inItem: bool, revision: string, p: Path)
    requires PrefixFree(plan.Keys) && DeclaredMembers(plan, node) && (!inItem ==> RevisionsAtTop(plan))
    requires p in plan && IsPlain(plan[p])
    ensures HeldPlain(plan[p], node, WithRevision(plan, node, inItem, revision), p)
  {
    HeldEntry(plan, node, inItem, revision, p);
    RestoredForm(plan[p]);
    if ValueAt(node, p).Some? { PlainEntry(plan[p], ValueAt(node, p).value, inItem); }
  }

  lemma {:induction false} PlainEntry(field: Field, value: Json, inItem: bool)
    requires IsPlain(field)
    ensures Entry(field, Some(value), inItem) == if LeftOut(field, value) then None else Some(value)
  {
  }

  /** The form a member is restored in, where the object around it requires it and the document does not. */
  lemma {:induction false} RestoredForm(field: Field)
    ensures Restored(field) == if field.requiredInParent && !field.required then EmptyForm(field) else None
  {
  }

  /** What is held at a declared path: the field's entry, or what is restored in its place. */
  lemma {:induction false} HeldEntry(plan: Plan, node: Json, inItem: bool, revision: string, p: Path)
    requires PrefixFree(plan.Keys) && DeclaredMembers(plan, node) && (!inItem ==> RevisionsAtTop(plan)) && p in plan
    ensures var held, entry := WithRevision(plan, node, inItem, revision), EntryOf(plan, node, inItem, revision, p);
            ValueAt(held, p) == if entry.Some? then entry else if ParentThere(held, p) then Restored(plan[p]) else None
  {
    var entries := SetEntries(plan, node, inItem, revision);
    var held := WithRevision(plan, node, inItem, revision);
    HeldIsMade(plan, node, inItem, revision);
    DeclaredValue(plan, held.members, WithRestored(plan, entries), p);
    SetEntryOf(plan, node, inItem, revision, p);
    ParentIsThere(plan, entries, held.members, p);
  }

  /** Whether something is set or restored in an object is seen in the document. */
  lemma {:induction false} ParentIsThere(plan: Plan, entries: Entries, members: Members, p: Path)
    requires PrefixFree(plan.Keys) && entries.Keys <= plan.Keys && p in plan && Shape(members, WithRestored(plan, entries))
    ensures ParentThere(Obj(members), p) <==> ParentPresent(entries, p, true)
  {
    var all := WithRestored(plan, entries);
    if |p| > 1 {
      var parent := p[..|p| - 1];
      forall q | q in all && q != parent ensures !IsPrefix(q, parent) { PrefixOfParent(q, p); }
      LeadsExactlyToEntries(members, all, parent);
      assert Restoring(plan, entries, all);
      ParentsStay(plan, entries, all, p);
    }
  }

  /** The items of a sequence are held one by one, and nothing of one that is not there but the empty form. */
  lemma {:induction false} SequenceIsHeld(plan: Plan, node: Json, inItem: bool, revision: string, p: Path)
    requires PrefixFree(plan.Keys) && DeclaredMembers(plan, node) && (!inItem ==> RevisionsAtTop(plan))
    requires p in plan && plan[p].storage.KeyedSequence? && (ValueAt(node, p).Some? ==> ValueAt(node, p).value.Arr?)
    ensures var held := WithRevision(plan, node, inItem, revision);
            match ValueAt(node, p)
            case Some(given) =>
              && ValueAt(held, p).Some? && ValueAt(held, p).value.Arr? && |ValueAt(held, p).value.items| == |given.items|
              && forall i | 0 <= i < |given.items| ::
                   ValueAt(held, p).value.items[i] == HeldNode(plan[p].storage.item, given.items[i], true, true)
            case None =>
              ValueAt(held, p) == if plan[p].requiredInParent && !plan[p].required && ParentThere(held, p) then EmptyForm(plan[p]) else None
  {
    HeldEntry(plan, node, inItem, revision, p);
    RestoredForm(plan[p]);
    if ValueAt(node, p).Some? { HeldItems(plan[p], ValueAt(node, p).value, inItem); }
  }

  lemma {:induction false} HeldItems(field: Field, value: Json, inItem: bool)
    requires field.storage.KeyedSequence? && value.Arr?
    ensures var held := HeldField(field, value, inItem);
            && held.Some? && held.value.Arr? && |held.value.items| == |value.items|
            && forall i | 0 <= i < |value.items| :: held.value.items[i] == HeldNode(field.storage.item, value.items[i], true, true)
  {
  }

  /** A derived identity is held in an item as given, and never at the root; a revision is held at the
      root alone, as it is there. */
  lemma {:induction false} DerivedIsHeld(plan: Plan, node: Json, inItem: bool, revision: string, p: Path)
    requires PrefixFree(plan.Keys) && DeclaredMembers(plan, node) && (!inItem ==> RevisionsAtTop(plan)) && p in plan
    requires Restored(plan[p]).None?
    ensures var held := WithRevision(plan, node, inItem, revision);
            && (plan[p].storage.DerivedIdentity? && !inItem ==> ValueAt(held, p) == None)
            && (plan[p].storage.DerivedIdentity? && inItem && ValueAt(node, p).Some? && ValueAt(node, p).value.Str? && ValueAt(node, p).value.s != "" ==>
                  ValueAt(held, p) == ValueAt(node, p))
            && (plan[p].storage.DerivedRevision? ==> ValueAt(held, p) == if inItem then None else Some(Str(revision)))
  {
    HeldEntry(plan, node, inItem, revision, p);
  }

  // ---------------------------------------------------------------- through keyed items

  /** Items met on the way to a value: the sequence each lies in, and its place there. */
  type Route = seq<(Path, nat)>

  /** The item a route leads to. */
  function ItemAt(node: Json, route: Route): Option<Json>
    decreases |route|
  {
    if route == [] then Some(node)
    else match ValueAt(node, route[0].0)
      case Some(Arr(items)) => if route[0].1 < |items| then ItemAt(items[route[0].1], route[1..]) else None
      case _ => None
  }

  /** The plan of its items. */
  function PlanAt(plan: Plan, route: Route): Option<Plan>
    decreases |route|
  {
    if route == [] then Some(plan)
    else if route[0].0 in plan && plan[route[0].0].storage.KeyedSequence? then PlanAt(plan[route[0].0].storage.item, route[1..])
    else None
  }

  lemma {:induction false} ItemIsValid(plan: Plan, node: Json, p: Path, i: nat)
    requires NodeValid(plan, node) && p in plan && plan[p].storage.KeyedSequence? && i < |ItemsOf(ValueAt(node, p))|
    ensures NodeValid(plan[p].storage.item, ItemsOf(ValueAt(node, p))[i])
  {
    var field, value := plan[p], ValueAt(node, p);
    assert FieldPlanned(field) && FieldValid(field, value) && ItemsDeclared(field, value);
  }

  /** Every plain field of a valid document, however deep in keyed items, is held as `HeldPlain` says: null
      and the empty values are left out where it is optional, and every other value stands as given. */
  lemma {:induction false} HeldThroughItems(plan: Plan, node: Json, inItem: bool, revision: string, route: Route, p: Path)
    requires NodeValid(plan, node) && (!inItem ==> RevisionsAtTop(plan))
    requires PlanAt(plan, route).Some? && p in PlanAt(plan, route).value && IsPlain(PlanAt(plan, route).value[p])
    requires ItemAt(node, route).Some?
    ensures var held := ItemAt(WithRevision(plan, node, inItem, revision), route);
            held.Some? && HeldPlain(PlanAt(plan, route).value[p], ItemAt(node, route).value, held.value, p)
    decreases |route|
  {
    if route == [] {
      PlainIsHeld(plan, node, inItem, revision, p);
    } else {
      var (q, i) := route[0];
      var items := ValueAt(node, q).value.items;
      SequenceIsHeld(plan, node, inItem, revision, q);
      ItemIsValid(plan, node, q, i);
      HeldThroughItems(plan[q].storage.item, items[i], true, revision, route[1..], p);
    }
  }

  /** And so is every plain field of a document that storage keeps, as a replica it was written to
      materialises it. */
  lemma {:induction false} SeededThroughItems(plan: Plan, wire: Json, after: Slots, revision: string, route: Route, p: Path)
    requires Fits(plan, wire) && IsWritten(map[], plan, None, wire, after) && DocumentFaithful(plan, wire) && AllKept(plan, wire)
    requires PlanAt(plan, route).Some? && p in PlanAt(plan, route).value && IsPlain(PlanAt(plan, route).value[p])
    requires ItemAt(wire, route).Some?
    ensures var document := Materialized(after, plan, revision);
            && document.Some? && ItemAt(document.value, route).Some?
            && HeldPlain(PlanAt(plan, route).value[p], ItemAt(wire, route).value, ItemAt(document.value, route).value, p)
  {
    SeedExactly(plan, wire, after, revision);
    HeldThroughItems(plan, wire, false, revision, route, p);
  }
}
