/**
 What the judgement of edits keeps over any run of accepted ones: clients edit from any earlier
 accepted document, and what they wrote is merged into the last.

 An item is listed in its sequence by entries of the order list. Moving it takes its entries away
 and puts a new one there, so two edits that both move it leave two, and one that moves it puts it
 back after another has removed it. What its containers hold is never cleared.
 */
module PolicyRuns {
  import opened Wrappers
  import opened Json
  import opened Policy
  import opened PolicySequences

  /** An item's place: the sequences and identities that lead to it, outermost first. */
  type Address = seq<(seq<string>, string)>

  /** The entries that list each item. */
  type Entries = map<Address, set<nat>>

  function EntriesAt(entries: Entries, address: Address): set<nat> { if address in entries then entries[address] else {} }

  /** The items that enclose a value. */
  function Enclosing(key: Key, prefix: Address): set<Address> {
    match key
    case Here(_) => {}
    case InItem(sequence, identity, rest) =>
      var address := prefix + [(sequence, identity)];
      {address} + Enclosing(rest, address)
  }

  /** Every item that encloses the value is listed. */
  predicate Shown(entries: Entries, key: Key) { forall a | a in Enclosing(key, []) :: EntriesAt(entries, a) != {} }

  /** The value a document shows: what is held, if its items are listed. */
  function Visible(entries: Entries, held: map<Key, Json>, key: Key): Json {
    if Shown(entries, key) then ValueOf(held, key) else Null
  }

  /** Fields with containers of their own. */
  predicate IsStored(field: Field) { Plain(field) && !field.storage.KeyedSequence? }

  /** The member `b` lies in the object that holds the member `a`. */
  predicate Beside(a: Key, b: Key) {
    match (a, b)
    case (Here(leaf), Here(other)) => leaf != [] && leaf[..|leaf| - 1] <= other
    case (InItem(sequence, identity, rest), InItem(_, _, other)) => b.sequence == sequence && b.identity == identity && Beside(rest, other)
    case _ => false
  }

  /** The object that holds the member is the document or an item, which is always there. */
  predicate AtTop(key: Key) {
    match key
    case Here(leaf) => |leaf| <= 1
    case InItem(_, _, rest) => AtTop(rest)
  }

  /** The object that holds the member is there: it is always, or some member in it is set. */
  ghost predicate Present(held: map<Key, Json>, marked: set<Key>, key: Key) {
    AtTop(key) || exists k :: Beside(key, k) && (k in marked || ValueOf(held, k) != Null)
  }

  /** The value as a document has it: one that is not set is restored where its object is there. */
  ghost function Form(field: Field, entries: Entries, held: map<Key, Json>, marked: set<Key>, key: Key): Json {
    if Visible(entries, held, key) != Null then Visible(entries, held, key)
    else if field.restored.Some? && Shown(entries, key) && Present(held, marked, key) then field.restored.value
    else Null
  }

  /** The document read from the entries, what is held, and the other members that are set. What is
      held is never the form an unset value is restored in: that is read as unset. */
  ghost predicate Shows(plan: Plan, document: Json, entries: Entries, held: map<Key, Json>, marked: set<Key>) {
    forall f, key {:trigger Addresses(plan[f].path, key)} | 0 <= f < |plan| && IsStored(plan[f]) && Addresses(plan[f].path, key) ::
      && plan[f].restored != Some(ValueOf(held, key))
      && ValueOf(FieldValues(plan, plan[f], document), key) == Form(plan[f], entries, held, marked, key)
  }

  /** The accepted document and what it is read from, with how often each value was written. `marked`
      are the members set besides those held: the sequences it has and the identities it derives. */
  datatype State = State(document: Json, entries: Entries, held: map<Key, Json>, writes: map<Key, nat>, marked: set<Key>)

  function WritesOf(state: State, key: Key): nat { if key in state.writes then state.writes[key] else 0 }

  /** An edit of kind `kind`, made from the accepted document numbered `base`: the document and the
      values it leaves, the entries it takes away and those it puts. It may have written values and
      given them back, and where another edit wrote as well the store may take its write for the later. */
  datatype Edit = Edit(base: nat, kind: Kind, document: Json, held: map<Key, Json>, taken: Entries, put: Entries,
                       rewrote: set<Key>, later: set<Key>, marked: set<Key>)

  ghost predicate Relists(edit: Edit, before: Entries, after: Entries) {
    forall a {:trigger EntriesAt(after, a)} ::
      EntriesAt(after, a) == EntriesAt(before, a) - EntriesAt(edit.taken, a) + EntriesAt(edit.put, a)
  }

  predicate Changed(base: State, edit: Edit, key: Key) { ValueOf(edit.held, key) != ValueOf(base.held, key) }

  predicate Wrote(base: State, edit: Edit, key: Key) { Changed(base, edit, key) || key in edit.rewrote }

  /** Both the edit and one accepted since its base wrote the value. */
  predicate Contested(base: State, edit: Edit, current: State, key: Key) {
    Wrote(base, edit, key) && WritesOf(current, key) != WritesOf(base, key)
  }

  /** The edit's write is the one the store keeps. */
  predicate Overwrites(base: State, edit: Edit, current: State, key: Key) {
    Wrote(base, edit, key) && (!Contested(base, edit, current, key) || key in edit.later)
  }

  /** The edit's writes, one or several, come to taking entries its base has and putting new ones, and
      to a document read from what they leave. */
  ghost predicate IsEdit(plan: Plan, base: State, edit: Edit, entries: Entries) {
    && Relists(edit, base.entries, entries)
    && (forall a {:trigger EntriesAt(edit.taken, a)} :: EntriesAt(edit.taken, a) <= EntriesAt(base.entries, a))
    && (forall a {:trigger EntriesAt(edit.put, a)} :: EntriesAt(edit.put, a) !! EntriesAt(base.entries, a))
    && Shows(plan, edit.document, entries, edit.held, edit.marked)
  }

  /** How one value merges: what the edit did not write stays, and what only it wrote is written. Two
      writes of a text, list or map merge as the store merges them. */
  ghost predicate Settles(base: State, edit: Edit, current: State, merged: State, key: Key) {
    && WritesOf(merged, key) == WritesOf(current, key) + (if Wrote(base, edit, key) then 1 else 0)
    && (!Contested(base, edit, current, key) ==> SettlesAlone(base, edit, current, merged, key))
  }

  /** One write stays: the edit's, or what is there. So it is with two writes of a scalar. */
  ghost predicate SettlesAlone(base: State, edit: Edit, current: State, merged: State, key: Key) {
    ValueOf(merged.held, key) == ValueOf(if Overwrites(base, edit, current, key) then edit.held else current.held, key)
  }

  ghost predicate Merges(plan: Plan, base: State, edit: Edit, current: State, merged: State) {
    && Relists(edit, current.entries, merged.entries)
    && Shows(plan, merged.document, merged.entries, merged.held, merged.marked)
    && (forall key :: Settles(base, edit, current, merged, key))
    && (forall f, key | 0 <= f < |plan| && plan[f].storage.Scalar? && Addresses(plan[f].path, key) ::
          SettlesAlone(base, edit, current, merged, key))
  }

  /** One accepted edit: made from an earlier accepted document, judged against the last one, and
      merged only because no field conflicts. */
  ghost predicate AcceptedEdit(plan: Plan, states: seq<State>, i: nat, edit: Edit, entries: Entries)
    requires i + 1 < |states|
  {
    && edit.base <= i
    && IsEdit(plan, states[edit.base], edit, entries)
    && Accepts(plan, Incremental(edit.kind), states[edit.base].document, edit.document, states[i].document)
    && Merges(plan, states[edit.base], edit, states[i], states[i + 1])
  }

  /** The accepted documents, from the one created, and the edits between them with the entries of
      the document each left its client. */
  ghost predicate IsHistory(plan: Plan, states: seq<State>, edits: seq<Edit>, entries: seq<Entries>) {
    && |states| == |edits| + 1 && |entries| == |edits|
    && Shows(plan, states[0].document, states[0].entries, states[0].held, states[0].marked)
    && forall i {:trigger AcceptedEdit(plan, states, i, edits[i], entries[i])} | 0 <= i < |edits| ::
         AcceptedEdit(plan, states, i, edits[i], entries[i])
  }

  // ---------------------------------------------------------------- what an edit does to a value

  /** The edit leaves some item that encloses the value without entries. */
  predicate Loses(edit: Edit, current: State, key: Key) {
    && Shown(current.entries, key)
    && exists a | a in Enclosing(key, []) :: EntriesAt(edit.put, a) == {} && EntriesAt(current.entries, a) <= EntriesAt(edit.taken, a)
  }

  /** The edit lists again what encloses a value another edit has taken away. */
  predicate BringsBack(edit: Edit, current: State, key: Key) {
    && !Shown(current.entries, key)
    && forall a | a in Enclosing(key, []) :: EntriesAt(edit.put, a) != {} || !(EntriesAt(current.entries, a) <= EntriesAt(edit.taken, a))
  }

  /** The edit lists an item its base did not, and empties what the item's containers held. */
  predicate Empties(base: State, edit: Edit, entries: Entries, key: Key) {
    && !Shown(base.entries, key) && Shown(entries, key)
    && ValueOf(base.held, key) != Null && ValueOf(edit.held, key) == Null
  }

  /** The edit wrote a value and gave back the one it found. */
  predicate GivesBack(base: State, edit: Edit, key: Key) { key in edit.rewrote && !Changed(base, edit, key) }

  /** The edit wrote a value of an item it does not leave listed. */
  predicate WritesUnlisted(base: State, edit: Edit, entries: Entries, key: Key) { Wrote(base, edit, key) && !Shown(entries, key) }

  predicate ListedAfter(edit: Edit, current: State, key: Key) {
    if Shown(current.entries, key) then !Loses(edit, current, key) else BringsBack(edit, current, key)
  }

  /** What is held comes into sight, or goes out of it. */
  predicate Relisted(edit: Edit, current: State, key: Key) {
    ValueOf(current.held, key) != Null && (Loses(edit, current, key) || BringsBack(edit, current, key))
  }

  /** What the edit holds, where its item is listed, is not what is visible. */
  predicate LeavesOther(edit: Edit, current: State, key: Key) {
    (if ListedAfter(edit, current, key) then ValueOf(edit.held, key) else Null) != VisibleIn(current, key)
  }

  lemma {:induction false} ShownAfter(edit: Edit, current: State, merged: State, key: Key)
    requires Relists(edit, current.entries, merged.entries)
    ensures Shown(merged.entries, key) <==> ListedAfter(edit, current, key)
  {
    forall a ensures EntriesAt(merged.entries, a) != {} <==>
                     EntriesAt(edit.put, a) != {} || !(EntriesAt(current.entries, a) <= EntriesAt(edit.taken, a))
    {
      var now, taken, put := EntriesAt(current.entries, a), EntriesAt(edit.taken, a), EntriesAt(edit.put, a);
      if e :| e in put { assert e in now - taken + put; }
      if e :| e in now && e !in taken { assert e in now - taken + put; }
    }
  }

  /** One step of a run, at one value of a judged field: what is visible, and how it was judged. */
  ghost predicate StepAt(plan: Plan, states: seq<State>, edits: seq<Edit>, entries: seq<Entries>, f: nat, key: Key, i: nat) {
    && IsHistory(plan, states, edits, entries) && i < |edits|
    && f < |plan| && IsStored(plan[f]) && Addresses(plan[f].path, key)
  }

  function VisibleIn(state: State, key: Key): Json { Visible(state.entries, state.held, key) }

  /** The value an accepted document has. */
  ghost function FormIn(field: Field, state: State, key: Key): Json { Form(field, state.entries, state.held, state.marked, key) }

  lemma {:induction false} DocumentsShow(plan: Plan, states: seq<State>, edits: seq<Edit>, entries: seq<Entries>, f: nat, key: Key, i: nat)
    requires IsHistory(plan, states, edits, entries) && i < |states| && f < |plan| && IsStored(plan[f]) && Addresses(plan[f].path, key)
    ensures ValueOf(FieldValues(plan, plan[f], states[i].document), key) == FormIn(plan[f], states[i], key)
    ensures plan[f].restored != Some(ValueOf(states[i].held, key))
  {
    if i > 0 { assert AcceptedEdit(plan, states, i - 1, edits[i - 1], entries[i - 1]); }
    assert Shows(plan, states[i].document, states[i].entries, states[i].held, states[i].marked);
  }

  /** The `i`th edit is judged by the policy at the field: it is the field's own, or that of a keyed
      sequence it lies in, which the judgement compares as a whole. */
  ghost predicate Bound(plan: Plan, states: seq<State>, edits: seq<Edit>, f: nat, i: nat, conflict: Conflict)
    requires f < |plan| && i < |edits| && i < |states|
  {
    || ConflictFor(plan[f], edits[i].kind) == conflict
    || exists g: nat, outer: nat :: BoundBy(plan, states, edits, f, i, conflict, g, outer)
  }

  ghost predicate BoundBy(plan: Plan, states: seq<State>, edits: seq<Edit>, f: nat, i: nat, conflict: Conflict, g: nat, outer: nat)
    requires f < |plan| && i < |edits| && i < |states|
  {
    var path := plan[f].path;
    && g < |plan| && outer < |path.within| && plan[g].path == SequencePath(path, outer)
    && plan[g].storage.KeyedSequence? && ConflictFor(plan[g], edits[i].kind) == conflict
    && edits[i].base < |states| && DistinctItems(plan, path, 0, outer, states[edits[i].base].document)
    && DistinctItems(plan, path, 0, outer, edits[i].document) && DistinctItems(plan, path, 0, outer, states[i].document)
  }

  /** What acceptance says of the three values, as documents have them. */
  lemma {:induction false} FormsNotBroken(plan: Plan, states: seq<State>, edits: seq<Edit>, entries: seq<Entries>, f: nat, key: Key, i: nat, conflict: Conflict)
    requires StepAt(plan, states, edits, entries, f, key, i) && Bound(plan, states, edits, f, i, conflict)
    ensures AcceptedEdit(plan, states, i, edits[i], entries[i])
    ensures !Breaks(conflict, ValueOf(FieldValues(plan, plan[f], states[edits[i].base].document), key),
                    ValueOf(FieldValues(plan, plan[f], edits[i].document), key),
                    ValueOf(FieldValues(plan, plan[f], states[i].document), key))
  {
    var edit := edits[i];
    assert AcceptedEdit(plan, states, i, edit, entries[i]);
    var base, client, current := states[edit.base].document, edit.document, states[i].document;
    if ConflictFor(plan[f], edit.kind) == conflict {
      assert !ConflictsAt(plan, Incremental(edit.kind), plan[f], base, client, current, key);
    } else {
      var g: nat, outer: nat :| BoundBy(plan, states, edits, f, i, conflict, g, outer);
      var path := plan[f].path;
      assert !ConflictsAt(plan, Incremental(edit.kind), plan[g], base, client, current, SequenceKey(path, outer, 0, key));
      ReadFromArray(plan, path, outer, 0, base, key);
      ReadFromArray(plan, path, outer, 0, client, key);
      ReadFromArray(plan, path, outer, 0, current, key);
    }
  }

  /** What acceptance says of the three visible values. */
  lemma {:induction false} NotBroken(plan: Plan, states: seq<State>, edits: seq<Edit>, entries: seq<Entries>, f: nat, key: Key, i: nat, conflict: Conflict)
    requires StepAt(plan, states, edits, entries, f, key, i) && Bound(plan, states, edits, f, i, conflict)
    ensures AcceptedEdit(plan, states, i, edits[i], entries[i])
    ensures Settles(states[edits[i].base], edits[i], states[i], states[i + 1], key)
    ensures !Breaks(conflict, VisibleIn(states[edits[i].base], key), Visible(entries[i], edits[i].held, key), VisibleIn(states[i], key))
  {
    FormsNotBroken(plan, states, edits, entries, f, key, i, conflict);
    DocumentsShow(plan, states, edits, entries, f, key, i);
    DocumentsShow(plan, states, edits, entries, f, key, edits[i].base);
    assert plan[f].restored != Some(ValueOf(edits[i].held, key));
  }

  /** Where one write stays, how a step changes what is visible. */
  lemma {:induction false} StepReplaces(
    plan: Plan, states: seq<State>, edits: seq<Edit>, entries: seq<Entries>, f: nat, key: Key, i: nat)
    requires StepAt(plan, states, edits, entries, f, key, i)
    ensures AcceptedEdit(plan, states, i, edits[i], entries[i])
    ensures Shown(states[i + 1].entries, key) <==> ListedAfter(edits[i], states[i], key)
    ensures plan[f].storage.Scalar? || !Contested(states[edits[i].base], edits[i], states[i], key) ==>
              && SettlesAlone(states[edits[i].base], edits[i], states[i], states[i + 1], key)
              && (VisibleIn(states[i + 1], key) != VisibleIn(states[i], key) <==>
                  if Overwrites(states[edits[i].base], edits[i], states[i], key) then LeavesOther(edits[i], states[i], key)
                  else Relisted(edits[i], states[i], key))
  {
    assert AcceptedEdit(plan, states, i, edits[i], entries[i]);
    assert Settles(states[edits[i].base], edits[i], states[i], states[i + 1], key);
    ShownAfter(edits[i], states[i], states[i + 1], key);
    if plan[f].storage.Scalar? { assert SettlesAlone(states[edits[i].base], edits[i], states[i], states[i + 1], key); }
  }

  // ---------------------------------------------------------------- immutable values

  /** An accepted edit by a kind judged immutable writes only values it gives back, empties of items its
      base did not list, or has in items it does not leave listed. With no other write in its way it
      replaces what is visible exactly when it relists the item, or leaves another value in one of the
      latter two ways; with one in its way, a scalar exactly when the store takes its write for the
      later and that is another value, or when it relists the item. */
  lemma {:induction false} ImmutableKindLeavesValue(
    plan: Plan, states: seq<State>, edits: seq<Edit>, entries: seq<Entries>, f: nat, key: Key, i: nat)
    requires StepAt(plan, states, edits, entries, f, key, i) && Bound(plan, states, edits, f, i, Immutable)
    ensures edits[i].base <= i
    ensures var base, edit := states[edits[i].base], edits[i];
            Wrote(base, edit, key) ==>
              GivesBack(base, edit, key) || Empties(base, edit, entries[i], key) || WritesUnlisted(base, edit, entries[i], key)
    ensures var base, edit := states[edits[i].base], edits[i];
            !Contested(base, edit, states[i], key) ==>
              (VisibleIn(states[i + 1], key) != VisibleIn(states[i], key) <==>
               if Empties(base, edit, entries[i], key) || WritesUnlisted(base, edit, entries[i], key)
               then LeavesOther(edit, states[i], key) else Relisted(edit, states[i], key))
    ensures var base, edit := states[edits[i].base], edits[i];
            Contested(base, edit, states[i], key) && plan[f].storage.Scalar? ==>
              (VisibleIn(states[i + 1], key) != VisibleIn(states[i], key) <==>
               if key in edit.later then LeavesOther(edit, states[i], key) else Relisted(edit, states[i], key))
  {
    NotBroken(plan, states, edits, entries, f, key, i, Immutable);
    StepReplaces(plan, states, edits, entries, f, key, i);
    UnwrittenIsHeld(plan, states, edits, entries, key, edits[i].base, i);
  }

  /** The item is listed in the edit's base, where it leaves it, and in the accepted documents around it. */
  ghost predicate StaysListed(states: seq<State>, edits: seq<Edit>, entries: seq<Entries>, key: Key, i: nat)
    requires i < |edits| && i < |entries| && i + 1 < |states| && edits[i].base < |states|
  {
    && Shown(states[edits[i].base].entries, key) && Shown(entries[i], key)
    && Shown(states[i].entries, key) && Shown(states[i + 1].entries, key)
  }

  /** While its items stay listed, a scalar is replaced by an accepted edit of a kind judged immutable
      exactly when that gives back what it found, another edit has replaced it since, and the store
      takes the giving back for the later write. */
  lemma {:induction false} ImmutableKindGivesBack(
    plan: Plan, states: seq<State>, edits: seq<Edit>, entries: seq<Entries>, f: nat, key: Key, i: nat)
    requires StepAt(plan, states, edits, entries, f, key, i) && Bound(plan, states, edits, f, i, Immutable)
    requires plan[f].storage.Scalar? && edits[i].base < |states| && StaysListed(states, edits, entries, key, i)
    ensures var base, edit := states[edits[i].base], edits[i];
            VisibleIn(states[i + 1], key) != VisibleIn(states[i], key) <==>
            GivesBack(base, edit, key) && key in edit.later && VisibleIn(base, key) != VisibleIn(states[i], key)
  {
    NotBroken(plan, states, edits, entries, f, key, i, Immutable);
    StepReplaces(plan, states, edits, entries, f, key, i);
    UnwrittenIsHeld(plan, states, edits, entries, key, edits[i].base, i);
  }

  ghost predicate ImmutableToAll(field: Field) { forall kind :: ConflictFor(field, kind) == Immutable }

  /** Every edit is judged immutable at the field, as where it is immutable to all kinds. */
  ghost predicate ImmutableThroughout(plan: Plan, states: seq<State>, edits: seq<Edit>, f: nat)
    requires f < |plan| && |edits| < |states|
  {
    forall i | 0 <= i < |edits| :: Bound(plan, states, edits, f, i, Immutable)
  }

  /** No edit before the `i`th state left an item that encloses the value without entries. */
  predicate NoneLoses(states: seq<State>, edits: seq<Edit>, key: Key, i: nat)
    requires i <= |edits| < |states|
  {
    forall j | 0 <= j < i :: !Loses(edits[j], states[j], key)
  }

  /** The edit among the first `n` whose write of the value is the last one kept, counted from 1; 0 if
      the creation's is. */
  function LastWriter(states: seq<State>, edits: seq<Edit>, key: Key, n: nat): (writer: nat)
    requires n <= |edits| < |states|
    ensures writer <= n
  {
    if n == 0 then 0
    else if edits[n - 1].base < |states| && Overwrites(states[edits[n - 1].base], edits[n - 1], states[n - 1], key) then n
    else LastWriter(states, edits, key, n - 1)
  }

  function LastWritten(states: seq<State>, edits: seq<Edit>, key: Key, n: nat): Json
    requires n <= |edits| < |states|
  {
    var writer := LastWriter(states, edits, key, n);
    ValueOf(if writer == 0 then states[0].held else edits[writer - 1].held, key)
  }

  /** The edit leaves the item listed, and the last write kept of the value in it, before or by the edit,
      is one of an item its writer did not leave listed. */
  predicate Surfaces(states: seq<State>, edits: seq<Edit>, entries: seq<Entries>, key: Key, j: nat)
    requires j < |edits| == |entries| && |edits| < |states|
  {
    var writer := LastWriter(states, edits, key, j + 1);
    && ListedAfter(edits[j], states[j], key) && LastWritten(states, edits, key, j + 1) != Null
    && (writer > 0 ==>
          edits[writer - 1].base < |states| && WritesUnlisted(states[edits[writer - 1].base], edits[writer - 1], entries[writer - 1], key))
  }

  predicate NoneSurfaces(states: seq<State>, edits: seq<Edit>, entries: seq<Entries>, key: Key)
    requires |entries| == |edits| < |states|
  {
    forall j | 0 <= j < |edits| :: !Surfaces(states, edits, entries, key, j)
  }

  /** No two writes of the value were made from one document without either seeing the other. */
  ghost predicate NoneContested(states: seq<State>, edits: seq<Edit>, key: Key) {
    forall j | 0 <= j < |edits| && edits[j].base < |states| && j < |states| :: !Contested(states[edits[j].base], edits[j], states[j], key)
  }

  /** A field of a run whose every step keeps one write of its value. */
  ghost predicate RunAt(plan: Plan, states: seq<State>, edits: seq<Edit>, entries: seq<Entries>, f: nat, key: Key) {
    && IsHistory(plan, states, edits, entries) && f < |plan| && IsStored(plan[f]) && Addresses(plan[f].path, key)
    && ImmutableThroughout(plan, states, edits, f) && (plan[f].storage.Scalar? || NoneContested(states, edits, key))
  }

  /** While no edit loses the item, its containers hold the value set at creation. */
  lemma {:induction false} ImmutableIsHeld(
    plan: Plan, states: seq<State>, edits: seq<Edit>, entries: seq<Entries>, f: nat, key: Key, i: nat)
    requires RunAt(plan, states, edits, entries, f, key) && i < |states|
    requires VisibleIn(states[0], key) != Null && NoneLoses(states, edits, key, i)
    ensures Shown(states[i].entries, key) && ValueOf(states[i].held, key) == ValueOf(states[0].held, key)
    decreases i
  {
    if i > 0 {
      var j := i - 1;
      assert AcceptedEdit(plan, states, j, edits[j], entries[j]);
      ImmutableIsHeld(plan, states, edits, entries, f, key, j);
      ImmutableIsHeld(plan, states, edits, entries, f, key, edits[j].base);
      SetIsHeldOn(plan, states, edits, entries, f, key, j);
    }
  }

  lemma {:induction false} SetIsHeldOn(plan: Plan, states: seq<State>, edits: seq<Edit>, entries: seq<Entries>, f: nat, key: Key, i: nat)
    requires RunAt(plan, states, edits, entries, f, key) && i < |edits| && edits[i].base < |states|
    requires Shown(states[i].entries, key) && !Loses(edits[i], states[i], key) && Shown(states[edits[i].base].entries, key)
    requires ValueOf(states[i].held, key) == ValueOf(states[edits[i].base].held, key) != Null
    ensures Shown(states[i + 1].entries, key) && ValueOf(states[i + 1].held, key) == ValueOf(states[i].held, key)
  {
    assert Bound(plan, states, edits, f, i, Immutable);
    NotBroken(plan, states, edits, entries, f, key, i, Immutable);
    StepReplaces(plan, states, edits, entries, f, key, i);
  }

  /** A value immutable to every kind stays what it was at creation, in every accepted document:
      one that was set, exactly when no edit left an item that encloses it without entries; one that
      was not, exactly when no edit leaves its item listed after a value was written in it by one that
      did not. */
  lemma {:induction false} ImmutableKeepsCreation(
    plan: Plan, states: seq<State>, edits: seq<Edit>, entries: seq<Entries>, f: nat, key: Key)
    requires RunAt(plan, states, edits, entries, f, key)
    ensures (forall i | 0 <= i < |states| :: VisibleIn(states[i], key) == VisibleIn(states[0], key)) <==>
            if VisibleIn(states[0], key) != Null then NoneLoses(states, edits, key, |edits|) else NoneSurfaces(states, edits, entries, key)
  {
    if VisibleIn(states[0], key) != Null {
      SetStays(plan, states, edits, entries, f, key);
    } else {
      UnsetStays(plan, states, edits, entries, f, key);
    }
  }

  lemma {:induction false} SetStays(plan: Plan, states: seq<State>, edits: seq<Edit>, entries: seq<Entries>, f: nat, key: Key)
    requires RunAt(plan, states, edits, entries, f, key) && VisibleIn(states[0], key) != Null
    ensures (forall i | 0 <= i < |states| :: VisibleIn(states[i], key) == VisibleIn(states[0], key)) <==> NoneLoses(states, edits, key, |edits|)
  {
    if NoneLoses(states, edits, key, |edits|) {
      forall i | 0 <= i < |states| ensures VisibleIn(states[i], key) == VisibleIn(states[0], key) {
        ImmutableIsHeld(plan, states, edits, entries, f, key, i);
      }
    } else {
      var i :| 0 <= i < |edits| && Loses(edits[i], states[i], key);
      StepReplaces(plan, states, edits, entries, f, key, i);
      assert VisibleIn(states[i + 1], key) == Null;
    }
  }

  /** What is held is what was written last. */
  lemma {:induction false} HeldIsLastWritten(
    plan: Plan, states: seq<State>, edits: seq<Edit>, entries: seq<Entries>, f: nat, key: Key, n: nat)
    requires RunAt(plan, states, edits, entries, f, key) && |edits| < |states| && n <= |edits|
    ensures ValueOf(states[n].held, key) == LastWritten(states, edits, key, n)
    decreases n
  {
    if n > 0 {
      HeldIsLastWritten(plan, states, edits, entries, f, key, n - 1);
      HoldsOrKeeps(plan, states, edits, entries, f, key, n - 1);
      HeldMore(states, edits, key, n - 1);
    } else {
      NothingWritten(states, edits, key);
    }
  }

  lemma {:induction false} NothingWritten(states: seq<State>, edits: seq<Edit>, key: Key)
    requires |edits| < |states|
    ensures LastWritten(states, edits, key, 0) == ValueOf(states[0].held, key)
  {
  }

  lemma {:induction false} HeldMore(states: seq<State>, edits: seq<Edit>, key: Key, n: nat)
    requires n < |edits| < |states| && edits[n].base < |states|
    requires SettlesAlone(states[edits[n].base], edits[n], states[n], states[n + 1], key)
    requires ValueOf(states[n].held, key) == LastWritten(states, edits, key, n)
    ensures ValueOf(states[n + 1].held, key) == LastWritten(states, edits, key, n + 1)
  {
    LastWrittenMore(states, edits, key, n + 1);
  }

  lemma {:induction false} LastWrittenMore(states: seq<State>, edits: seq<Edit>, key: Key, n: nat)
    requires 0 < n <= |edits| < |states|
    ensures LastWritten(states, edits, key, n) ==
            if edits[n - 1].base < |states| && Overwrites(states[edits[n - 1].base], edits[n - 1], states[n - 1], key)
            then ValueOf(edits[n - 1].held, key) else LastWritten(states, edits, key, n - 1)
  {
  }

  lemma {:induction false} HoldsOrKeeps(
    plan: Plan, states: seq<State>, edits: seq<Edit>, entries: seq<Entries>, f: nat, key: Key, i: nat)
    requires RunAt(plan, states, edits, entries, f, key) && i < |edits| < |states|
    ensures edits[i].base < |states| && SettlesAlone(states[edits[i].base], edits[i], states[i], states[i + 1], key)
  {
    assert AcceptedEdit(plan, states, i, edits[i], entries[i]);
    StepReplaces(plan, states, edits, entries, f, key, i);
  }

  /** While nothing is visible, a value is written only in items that are not left listed. */
  lemma {:induction false} WrittenOutOfSight(
    plan: Plan, states: seq<State>, edits: seq<Edit>, entries: seq<Entries>, f: nat, key: Key, w: nat)
    requires RunAt(plan, states, edits, entries, f, key) && w < |edits| && edits[w].base < |states|
    requires VisibleIn(states[edits[w].base], key) == Null && ValueOf(edits[w].held, key) != Null && Wrote(states[edits[w].base], edits[w], key)
    ensures WritesUnlisted(states[edits[w].base], edits[w], entries[w], key)
  {
    assert Bound(plan, states, edits, f, w, Immutable);
    NotBroken(plan, states, edits, entries, f, key, w, Immutable);
  }

  lemma {:induction false} UnsetStays(plan: Plan, states: seq<State>, edits: seq<Edit>, entries: seq<Entries>, f: nat, key: Key)
    requires RunAt(plan, states, edits, entries, f, key) && VisibleIn(states[0], key) == Null
    ensures (forall i | 0 <= i < |states| :: VisibleIn(states[i], key) == VisibleIn(states[0], key)) <==>
            NoneSurfaces(states, edits, entries, key)
  {
    forall j | 0 <= j < |edits|
      ensures VisibleIn(states[j + 1], key) ==
              if ListedAfter(edits[j], states[j], key) then LastWritten(states, edits, key, j + 1) else Null
    {
      StepReplaces(plan, states, edits, entries, f, key, j);
      HeldIsLastWritten(plan, states, edits, entries, f, key, j + 1);
    }
    if NoneSurfaces(states, edits, entries, key) {
      forall i | 0 <= i < |states| ensures VisibleIn(states[i], key) == Null {
        NothingSurfaces(plan, states, edits, entries, f, key, i);
      }
    } else {
      var j :| 0 <= j < |edits| && Surfaces(states, edits, entries, key, j);
      assert VisibleIn(states[j + 1], key) != Null;
    }
  }

  /** What each edit leaves visible is what was written last, if it leaves the item listed. */
  ghost predicate ShowsLastWritten(states: seq<State>, edits: seq<Edit>, key: Key)
    requires |edits| < |states|
  {
    forall j {:trigger ListedAfter(edits[j], states[j], key)} | 0 <= j < |edits| ::
      VisibleIn(states[j + 1], key) == if ListedAfter(edits[j], states[j], key) then LastWritten(states, edits, key, j + 1) else Null
  }

  /** A run that leaves nothing visible at the creation, and in which nothing surfaces. */
  ghost predicate IsUnset(plan: Plan, states: seq<State>, edits: seq<Edit>, entries: seq<Entries>, f: nat, key: Key) {
    && RunAt(plan, states, edits, entries, f, key) && VisibleIn(states[0], key) == Null
    && ShowsLastWritten(states, edits, key) && NoneSurfaces(states, edits, entries, key)
  }

  function BaseOf(states: seq<State>, edits: seq<Edit>, key: Key, n: nat): nat
    requires n <= |edits| < |states|
  {
    var writer := LastWriter(states, edits, key, n);
    if writer == 0 then 0 else edits[writer - 1].base
  }

  lemma {:induction false} NothingSurfaces(plan: Plan, states: seq<State>, edits: seq<Edit>, entries: seq<Entries>, f: nat, key: Key, i: nat)
    requires IsUnset(plan, states, edits, entries, f, key) && i <= |edits| == |entries| && |edits| < |states|
    ensures VisibleIn(states[i], key) == Null
    decreases i
  {
    if i > 0 {
      var base := BaseOf(states, edits, key, i);
      WriterIsBefore(plan, states, edits, entries, f, key, i);
      NothingSurfaces(plan, states, edits, entries, f, key, base);
      ShowsAt(plan, states, edits, entries, f, key, i - 1);
      StepStaysUnset(plan, states, edits, entries, f, key, i - 1);
    } else {
      StartsUnset(plan, states, edits, entries, f, key);
    }
  }

  lemma {:induction false} StartsUnset(plan: Plan, states: seq<State>, edits: seq<Edit>, entries: seq<Entries>, f: nat, key: Key)
    requires IsUnset(plan, states, edits, entries, f, key)
    ensures VisibleIn(states[0], key) == Null
  {
  }

  lemma {:induction false} WriterIsBefore(plan: Plan, states: seq<State>, edits: seq<Edit>, entries: seq<Entries>, f: nat, key: Key, n: nat)
    requires IsUnset(plan, states, edits, entries, f, key) && 0 < n <= |edits| < |states|
    ensures BaseOf(states, edits, key, n) < n
  {
    var writer := LastWriter(states, edits, key, n);
    if writer > 0 { assert AcceptedEdit(plan, states, writer - 1, edits[writer - 1], entries[writer - 1]); }
  }

  lemma {:induction false} StepStaysUnset(plan: Plan, states: seq<State>, edits: seq<Edit>, entries: seq<Entries>, f: nat, key: Key, j: nat)
    requires RunAt(plan, states, edits, entries, f, key) && j < |edits| == |entries| && |edits| < |states|
    requires BaseOf(states, edits, key, j + 1) < |states| && VisibleIn(states[BaseOf(states, edits, key, j + 1)], key) == Null
    requires VisibleIn(states[j + 1], key) == if ListedAfter(edits[j], states[j], key) then LastWritten(states, edits, key, j + 1) else Null
    requires !Surfaces(states, edits, entries, key, j)
    ensures VisibleIn(states[j + 1], key) == Null
  {
    LastWriterUnseen(plan, states, edits, entries, f, key, j + 1);
    NotSurfaced(states, edits, entries, key, j);
  }

  /** The writer of the value wrote it out of sight, if it is one. */
  ghost predicate WrittenUnseen(states: seq<State>, edits: seq<Edit>, entries: seq<Entries>, key: Key, n: nat)
    requires n <= |edits| == |entries| && |edits| < |states|
  {
    var writer := LastWriter(states, edits, key, n);
    writer > 0 && LastWritten(states, edits, key, n) != Null ==>
      edits[writer - 1].base < |states| && WritesUnlisted(states[edits[writer - 1].base], edits[writer - 1], entries[writer - 1], key)
  }

  lemma {:induction false} ShowsAt(plan: Plan, states: seq<State>, edits: seq<Edit>, entries: seq<Entries>, f: nat, key: Key, j: nat)
    requires IsUnset(plan, states, edits, entries, f, key) && j < |edits| == |entries| && |edits| < |states|
    ensures VisibleIn(states[j + 1], key) == if ListedAfter(edits[j], states[j], key) then LastWritten(states, edits, key, j + 1) else Null
    ensures !Surfaces(states, edits, entries, key, j)
  {
  }

  /** The last write kept, of one who saw nothing, is of an item its writer did not leave listed. */
  lemma {:induction false} LastWriterUnseen(plan: Plan, states: seq<State>, edits: seq<Edit>, entries: seq<Entries>, f: nat, key: Key, n: nat)
    requires RunAt(plan, states, edits, entries, f, key) && n <= |edits| == |entries| && |edits| < |states|
    requires BaseOf(states, edits, key, n) < |states| && VisibleIn(states[BaseOf(states, edits, key, n)], key) == Null
    ensures WrittenUnseen(states, edits, entries, key, n)
  {
    var writer := LastWriter(states, edits, key, n);
    if writer > 0 && LastWritten(states, edits, key, n) != Null {
      LastWriterWrote(states, edits, key, n);
      WrittenOutOfSight(plan, states, edits, entries, f, key, writer - 1);
    }
  }

  lemma {:induction false} NotSurfaced(states: seq<State>, edits: seq<Edit>, entries: seq<Entries>, key: Key, j: nat)
    requires j < |edits| == |entries| && |edits| < |states|
    requires VisibleIn(states[j + 1], key) == if ListedAfter(edits[j], states[j], key) then LastWritten(states, edits, key, j + 1) else Null
    requires !Surfaces(states, edits, entries, key, j) && WrittenUnseen(states, edits, entries, key, j + 1)
    ensures VisibleIn(states[j + 1], key) == Null
  {
  }

  lemma {:induction false} LastWriterWrote(states: seq<State>, edits: seq<Edit>, key: Key, n: nat)
    requires n <= |edits| < |states| && LastWriter(states, edits, key, n) > 0
    ensures var w := LastWriter(states, edits, key, n) - 1;
            edits[w].base < |states| && Overwrites(states[edits[w].base], edits[w], states[w], key)
    decreases n
  {
    if LastWriter(states, edits, key, n) != n { LastWriterWrote(states, edits, key, n - 1); }
  }

  /** What is held nowhere comes to be held only by an edit that writes it in an item it does not leave
      listed: without one, a value immutable to every kind and unset stays so. */
  lemma {:induction false} UnsetStaysUnset(
    plan: Plan, states: seq<State>, edits: seq<Edit>, entries: seq<Entries>, f: nat, key: Key, i: nat)
    requires RunAt(plan, states, edits, entries, f, key) && i < |states| && ValueOf(states[0].held, key) == Null
    requires forall j | 0 <= j < i && edits[j].base < |states| ::
               !(WritesUnlisted(states[edits[j].base], edits[j], entries[j], key) && ValueOf(edits[j].held, key) != Null)
    ensures ValueOf(states[i].held, key) == Null == VisibleIn(states[i], key)
    decreases i
  {
    if i > 0 {
      var edit := edits[i - 1];
      assert StepAt(plan, states, edits, entries, f, key, i - 1);
      assert Bound(plan, states, edits, f, i - 1, Immutable);
      NotBroken(plan, states, edits, entries, f, key, i - 1, Immutable);
      StepReplaces(plan, states, edits, entries, f, key, i - 1);
      UnsetStaysUnset(plan, states, edits, entries, f, key, i - 1);
      UnsetStaysUnset(plan, states, edits, entries, f, key, edit.base);
    }
  }

  // ---------------------------------------------------------------- explicit values

  /** A value written no more often is held as it was. */
  lemma {:induction false} UnwrittenIsHeld(
    plan: Plan, states: seq<State>, edits: seq<Edit>, entries: seq<Entries>, key: Key, b: nat, i: nat)
    requires IsHistory(plan, states, edits, entries) && b <= i < |states|
    ensures WritesOf(states[b], key) <= WritesOf(states[i], key)
    ensures WritesOf(states[b], key) == WritesOf(states[i], key) ==> ValueOf(states[i].held, key) == ValueOf(states[b].held, key)
    decreases i
  {
    if b < i {
      assert AcceptedEdit(plan, states, i - 1, edits[i - 1], entries[i - 1]);
      assert Settles(states[edits[i - 1].base], edits[i - 1], states[i - 1], states[i], key);
      UnwrittenIsHeld(plan, states, edits, entries, key, b, i - 1);
    }
  }

  /** The visible value changes though its writer's base did not show it. */
  predicate ReplacesUnseen(states: seq<State>, edit: Edit, i: nat, key: Key)
    requires i + 1 < |states| && edit.base < |states|
  {
    VisibleIn(states[i + 1], key) != VisibleIn(states[i], key) && VisibleIn(states[edit.base], key) != VisibleIn(states[i], key)
  }

  /** An accepted edit by a kind judged explicit, with no other write in its way, replaces a value its
      base did not show exactly when it relists the item, or has written another value and emptied an
      item its base did not list or not left the item listed. A scalar with another write in its way it
      replaces exactly when the store takes its write for the later and that is another value, or when
      it relists the item. */
  lemma {:induction false} ExplicitReplacesUnseen(
    plan: Plan, states: seq<State>, edits: seq<Edit>, entries: seq<Entries>, f: nat, key: Key, i: nat)
    requires StepAt(plan, states, edits, entries, f, key, i) && Bound(plan, states, edits, f, i, Explicit)
    ensures edits[i].base <= i
    ensures var base, edit := states[edits[i].base], edits[i];
            !Contested(base, edit, states[i], key) ==>
              (ReplacesUnseen(states, edit, i, key) <==>
               && VisibleIn(base, key) != VisibleIn(states[i], key)
               && if Changed(base, edit, key)
                  then (Empties(base, edit, entries[i], key) || WritesUnlisted(base, edit, entries[i], key)) && LeavesOther(edit, states[i], key)
                  else Relisted(edit, states[i], key))
    ensures var base, edit := states[edits[i].base], edits[i];
            Contested(base, edit, states[i], key) && plan[f].storage.Scalar? ==>
              (ReplacesUnseen(states, edit, i, key) <==>
               && VisibleIn(base, key) != VisibleIn(states[i], key)
               && if key in edit.later then LeavesOther(edit, states[i], key) else Relisted(edit, states[i], key))
  {
    NotBroken(plan, states, edits, entries, f, key, i, Explicit);
    StepReplaces(plan, states, edits, entries, f, key, i);
    UnwrittenIsHeld(plan, states, edits, entries, key, edits[i].base, i);
  }

  /** While its items stay listed, an accepted edit by a kind judged explicit replaces a scalar its base
      did not show exactly when it gives back what it found and the store takes that for the later
      write. Otherwise it replaces only what its base showed, with the value it leaves. */
  lemma {:induction false} ExplicitReplacedFromItsValue(
    plan: Plan, states: seq<State>, edits: seq<Edit>, entries: seq<Entries>, f: nat, key: Key, i: nat)
    requires StepAt(plan, states, edits, entries, f, key, i) && Bound(plan, states, edits, f, i, Explicit)
    requires edits[i].base < |states| && StaysListed(states, edits, entries, key, i)
    requires plan[f].storage.Scalar? || !Contested(states[edits[i].base], edits[i], states[i], key)
    ensures var base, edit := states[edits[i].base], edits[i];
            ReplacesUnseen(states, edit, i, key) <==>
            GivesBack(base, edit, key) && key in edit.later && VisibleIn(base, key) != VisibleIn(states[i], key)
    ensures VisibleIn(states[i + 1], key) in {VisibleIn(states[i], key), Visible(entries[i], edits[i].held, key)}
  {
    NotBroken(plan, states, edits, entries, f, key, i, Explicit);
    StepReplaces(plan, states, edits, entries, f, key, i);
    UnwrittenIsHeld(plan, states, edits, entries, key, edits[i].base, i);
  }

  /** Where two writes of an explicit value meet in items that stay listed, the edit found the value
      that is there, leaves it, or gives back the one it found. */
  lemma {:induction false} ExplicitContested(
    plan: Plan, states: seq<State>, edits: seq<Edit>, entries: seq<Entries>, f: nat, key: Key, i: nat)
    requires StepAt(plan, states, edits, entries, f, key, i) && Bound(plan, states, edits, f, i, Explicit)
    requires edits[i].base < |states| && StaysListed(states, edits, entries, key, i)
    ensures var base, edit := states[edits[i].base], edits[i];
            Contested(base, edit, states[i], key) ==>
              || VisibleIn(states[i], key) in {VisibleIn(base, key), Visible(entries[i], edit.held, key)}
              || GivesBack(base, edit, key)
  {
    NotBroken(plan, states, edits, entries, f, key, i, Explicit);
  }

  // ---------------------------------------------------------------- restored forms

  /** The value the merge keeps, where it keeps one write. */
  function KeptAt(base: State, edit: Edit, current: State, key: Key): Json {
    ValueOf(if Overwrites(base, edit, current, key) then edit.held else current.held, key)
  }

  /** Once merged, the object that holds the member is there: some member in it is marked, or kept set. */
  ghost predicate PresentAfter(base: State, edit: Edit, current: State, marked: set<Key>, key: Key) {
    AtTop(key) || exists k :: Beside(key, k) && (k in marked || KeptAt(base, edit, current, k) != Null)
  }

  /** What is visible of a value is what the document has of it, unless that is its restored form. */
  lemma {:induction false} FormIsVisible(plan: Plan, states: seq<State>, edits: seq<Edit>, entries: seq<Entries>, f: nat, key: Key, i: nat)
    requires IsHistory(plan, states, edits, entries) && i < |states| && f < |plan| && IsStored(plan[f]) && Addresses(plan[f].path, key)
    ensures VisibleIn(states[i], key) == if plan[f].restored == Some(FormIn(plan[f], states[i], key)) then Null else FormIn(plan[f], states[i], key)
  {
    DocumentsShow(plan, states, edits, entries, f, key, i);
  }

  /** What a document has of a value changes exactly when what is visible does, or when it is unset and
      its restored form comes or goes: its item is listed and something beside it is set before the step
      and not after it, or after it and not before. */
  lemma {:induction false} FormChanges(
    plan: Plan, states: seq<State>, edits: seq<Edit>, entries: seq<Entries>, f: nat, key: Key, i: nat)
    requires StepAt(plan, states, edits, entries, f, key, i) && edits[i].base < |states| && plan[f].restored != Some(Null)
    requires forall k | Beside(key, k) :: SettlesAlone(states[edits[i].base], edits[i], states[i], states[i + 1], k)
    ensures var base, edit, now, next := states[edits[i].base], edits[i], states[i], states[i + 1];
            FormIn(plan[f], next, key) != FormIn(plan[f], now, key) <==>
            || VisibleIn(next, key) != VisibleIn(now, key)
            || (&& VisibleIn(now, key) == Null && plan[f].restored.Some?
                && (Shown(now.entries, key) && Present(now.held, now.marked, key)) !=
                   (ListedAfter(edit, now, key) && PresentAfter(base, edit, now, next.marked, key)))
  {
    StepReplaces(plan, states, edits, entries, f, key, i);
    DocumentsShow(plan, states, edits, entries, f, key, i);
    DocumentsShow(plan, states, edits, entries, f, key, i + 1);
    PresentIsKept(states[edits[i].base], edits[i], states[i], states[i + 1], key);
  }

  lemma {:induction false} PresentIsKept(base: State, edit: Edit, current: State, merged: State, key: Key)
    requires forall k | Beside(key, k) :: SettlesAlone(base, edit, current, merged, k)
    ensures Present(merged.held, merged.marked, key) <==> PresentAfter(base, edit, current, merged.marked, key)
  {
    if k :| Beside(key, k) && (k in merged.marked || ValueOf(merged.held, k) != Null) {
      assert Beside(key, k) && (k in merged.marked || KeptAt(base, edit, current, k) != Null);
    }
    if k :| Beside(key, k) && (k in merged.marked || KeptAt(base, edit, current, k) != Null) {
      assert Beside(key, k) && (k in merged.marked || ValueOf(merged.held, k) != Null);
    }
  }
}
