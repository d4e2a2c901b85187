/** The conflict policy of a collaborative document's fields: how one edit is judged. */
module Policy {
  import opened Wrappers
  import opened Json

  datatype Kind = Human | Agent | Service | System

  datatype Conflict = Immutable | Explicit | Merge | LastWriterWins

  datatype Storage =
    | Scalar | Text | OrderedList | StructuredList | StructuredMap | StructuredDocument
    | DerivedIdentity | DerivedRevision | KeyedSequence

  /** A declared path: the keyed sequences it passes through, then the member it names. */
  datatype FieldPath = FieldPath(within: seq<seq<string>>, leaf: seq<string>)

  datatype Field = Field(
    path: FieldPath,
    storage: Storage,
    identityPath: Option<seq<string>>,
    conflict: Conflict,
    writers: seq<(Kind, Conflict)>,
    /** The empty form it is read in when it is not set and the object that holds it is there. */
    restored: Option<Json>)

  type Plan = seq<Field>

  /** The policy that replaces the field's own for `kind`: the first its writers name. */
  function WriterConflict(writers: seq<(Kind, Conflict)>, kind: Kind): Option<Conflict>
    decreases |writers|
  {
    if writers == [] then None
    else if writers[0].0 == kind then Some(writers[0].1)
    else WriterConflict(writers[1..], kind)
  }

  function ConflictFor(field: Field, kind: Kind): Conflict {
    match WriterConflict(field.writers, kind)
    case Some(conflict) => conflict
    case None => field.conflict
  }

  /** The first of the writers of the kind names the policy; without one, none does. */
  ghost predicate FirstNames(writers: seq<(Kind, Conflict)>, kind: Kind, conflict: Option<Conflict>) {
    match conflict
    case Some(named) => exists w :: 0 <= w < |writers| && writers[w] == (kind, named) && forall v | 0 <= v < w :: writers[v].0 != kind
    case None => forall v | 0 <= v < |writers| :: writers[v].0 != kind
  }

  lemma {:induction false} WriterConflictIsFirst(writers: seq<(Kind, Conflict)>, kind: Kind, conflict: Option<Conflict>)
    ensures FirstNames(writers, kind, conflict) <==> WriterConflict(writers, kind) == conflict
  {
    FirstIsNamed(writers, kind);
    if FirstNames(writers, kind, conflict) { OneIsFirst(writers, kind, conflict, WriterConflict(writers, kind)); }
  }

  lemma {:induction false} FirstIsNamed(writers: seq<(Kind, Conflict)>, kind: Kind)
    ensures FirstNames(writers, kind, WriterConflict(writers, kind))
    decreases |writers|
  {
    if writers != [] && writers[0].0 != kind {
      var rest, named := writers[1..], WriterConflict(writers, kind);
      FirstIsNamed(rest, kind);
      assert forall v | 1 <= v < |writers| :: writers[v] == rest[v - 1];
      if named.Some? {
        var w :| 0 <= w < |rest| && rest[w] == (kind, named.value) && forall v | 0 <= v < w :: rest[v].0 != kind;
        assert writers[w + 1] == (kind, named.value);
      }
    } else if writers != [] {
      assert writers[0] == (kind, writers[0].1);
    }
  }

  lemma {:induction false} OneIsFirst(writers: seq<(Kind, Conflict)>, kind: Kind, a: Option<Conflict>, b: Option<Conflict>)
    requires FirstNames(writers, kind, a) && FirstNames(writers, kind, b)
    ensures a == b
  {
    if a.Some? && b.Some? {
      var v :| 0 <= v < |writers| && writers[v] == (kind, a.value) && forall u | 0 <= u < v :: writers[u].0 != kind;
      var w :| 0 <= w < |writers| && writers[w] == (kind, b.value) && forall u | 0 <= u < w :: writers[u].0 != kind;
      assert v == w;
    }
  }

  // ---------------------------------------------------------------- the values of a field

  /** A value's address: each enclosing item named by its identity. */
  datatype Key = Here(leaf: seq<string>) | InItem(sequence: seq<string>, identity: string, rest: Key)

  /** The identity path of the keyed sequence the plan declares at `path`. */
  function IdentityPath(plan: Plan, path: FieldPath): Option<seq<string>>
    decreases |plan|
  {
    if plan == [] then None
    else if plan[0].path == path && plan[0].storage.KeyedSequence? then plan[0].identityPath
    else IdentityPath(plan[1..], path)
  }

  /** The values the path addresses in `scope`, which its first `depth` sequences enclose. */
  function Collect(plan: Plan, path: FieldPath, depth: nat, scope: Json): map<Key, Json>
    requires depth <= |path.within|
    decreases |path.within| - depth, 0
  {
    if depth == |path.within| then
      map[Here(path.leaf) := match ValueAt(scope, path.leaf) case Some(value) => value case None => Null]
    else
      var sequence := path.within[depth];
      match (IdentityPath(plan, FieldPath(path.within[..depth], sequence)), ValueAt(scope, sequence))
      case (Some(identityPath), Some(Arr(items))) => CollectItems(plan, path, depth, identityPath, items)
      case _ => map[]
  }

  /** The values inside each item; a later item of one identity replaces an earlier one. */
  function CollectItems(plan: Plan, path: FieldPath, depth: nat, identityPath: seq<string>, items: seq<Json>): map<Key, Json>
    requires depth < |path.within|
    decreases |path.within| - depth - 1, 1, |items|
  {
    if items == [] then map[]
    else
      var earlier := CollectItems(plan, path, depth, identityPath, items[..|items| - 1]);
      var item := items[|items| - 1];
      match StringAt(item, identityPath)
      case None => earlier
      case Some(identity) =>
        var inside := Collect(plan, path, depth + 1, item);
        var named := set key | key in inside :: InItem(path.within[depth], identity, key);
        earlier + map key | key in named :: inside[key.rest]
  }

  function FieldValues(plan: Plan, field: Field, document: Json): map<Key, Json> {
    Collect(plan, field.path, 0, document)
  }

  function ValueOf(values: map<Key, Json>, key: Key): Json { if key in values then values[key] else Null }

  // ---------------------------------------------------------------- judging one edit

  /** Whether an edit from `base` to `client` breaks the policy, given the accepted `current`. */
  predicate Breaks(conflict: Conflict, base: Json, client: Json, current: Json) {
    match conflict
    case Immutable => client != base
    case Explicit => client != base && current != base && client != current
    case Merge => false
    case LastWriterWins => false
  }

  /** How the edit is judged: an incremental one by every field's policy for the kind, a creation
      only by the policies that replace a field's own. */
  datatype Judgement = Incremental(kind: Kind) | Creation(kind: Kind)

  function PolicyOf(judgement: Judgement, field: Field): Option<Conflict> {
    match judgement
    case Incremental(kind) => Some(ConflictFor(field, kind))
    case Creation(kind) => WriterConflict(field.writers, kind)
  }

  predicate Judged(judgement: Judgement, field: Field) {
    && (PolicyOf(judgement, field) == Some(Explicit) || PolicyOf(judgement, field) == Some(Immutable))
    && !field.storage.DerivedIdentity? && !field.storage.DerivedRevision?
  }

  predicate ConflictsAt(plan: Plan, judgement: Judgement, field: Field, base: Json, client: Json, current: Json, key: Key) {
    && Judged(judgement, field)
    && Breaks(PolicyOf(judgement, field).value,
              ValueOf(FieldValues(plan, field, base), key),
              ValueOf(FieldValues(plan, field, client), key),
              ValueOf(FieldValues(plan, field, current), key))
  }

  /** The policy a field is judged by: that of the first of its writers of the kind, and for an edit
      without one the field's own. */
  ghost predicate JudgedBy(judgement: Judgement, field: Field, conflict: Conflict) {
    match judgement
    case Incremental(kind) =>
      FirstNames(field.writers, kind, Some(conflict)) || (FirstNames(field.writers, kind, None) && conflict == field.conflict)
    case Creation(kind) => FirstNames(field.writers, kind, Some(conflict))
  }

  /** An immutable value may not change at all; of an explicit one two different changes are refused;
      every other change is accepted. */
  ghost predicate Clashes(judgement: Judgement, field: Field, base: Json, client: Json, current: Json) {
    && field.storage != DerivedIdentity && field.storage != DerivedRevision
    && ((JudgedBy(judgement, field, Immutable) && client != base)
        || (JudgedBy(judgement, field, Explicit) && client != base && current != base && client != current))
  }

  lemma {:induction false} ConflictsExactly(plan: Plan, judgement: Judgement, field: Field, base: Json, client: Json, current: Json, key: Key)
    ensures ConflictsAt(plan, judgement, field, base, client, current, key) <==>
            Clashes(judgement, field, ValueOf(FieldValues(plan, field, base), key), ValueOf(FieldValues(plan, field, client), key),
                    ValueOf(FieldValues(plan, field, current), key))
  {
    WriterConflictIsFirst(field.writers, judgement.kind, None);
    WriterConflictIsFirst(field.writers, judgement.kind, Some(Immutable));
    WriterConflictIsFirst(field.writers, judgement.kind, Some(Explicit));
  }

  /** The keys an edit changes against their policy, field by field and value by value. */
  method JudgedFieldPaths(plan: Plan, judgement: Judgement, base: Json, client: Json, current: Json)
    returns (conflicts: set<Key>)
    ensures forall key :: key in conflicts <==>
              exists i :: 0 <= i < |plan| && ConflictsAt(plan, judgement, plan[i], base, client, current, key)
    ensures forall key :: key in conflicts <==>
              exists i :: 0 <= i < |plan| && Clashes(judgement, plan[i], ValueOf(FieldValues(plan, plan[i], base), key),
                                                     ValueOf(FieldValues(plan, plan[i], client), key), ValueOf(FieldValues(plan, plan[i], current), key))
  {
    forall i, key | 0 <= i < |plan|
      ensures ConflictsAt(plan, judgement, plan[i], base, client, current, key) <==>
              Clashes(judgement, plan[i], ValueOf(FieldValues(plan, plan[i], base), key), ValueOf(FieldValues(plan, plan[i], client), key),
                      ValueOf(FieldValues(plan, plan[i], current), key))
    {
      ConflictsExactly(plan, judgement, plan[i], base, client, current, key);
    }
    conflicts := {};
    for i := 0 to |plan|
      invariant forall key :: key in conflicts <==>
                  exists j :: 0 <= j < i && ConflictsAt(plan, judgement, plan[j], base, client, current, key)
    {
      var found := FieldConflicts(plan, judgement, plan[i], base, client, current);
      conflicts := conflicts + found;
    }
  }

  method FieldConflicts(plan: Plan, judgement: Judgement, field: Field, base: Json, client: Json, current: Json)
    returns (found: set<Key>)
    ensures forall key :: key in found <==> ConflictsAt(plan, judgement, field, base, client, current, key)
  {
    found := {};
    if !Judged(judgement, field) {
      return;
    }
    var conflict := PolicyOf(judgement, field).value;
    var before, mine, now := FieldValues(plan, field, base), FieldValues(plan, field, client), FieldValues(plan, field, current);
    var keys := before.Keys + mine.Keys + now.Keys;
    var left := keys;
    while left != {}
      invariant left <= keys
      invariant forall key :: key in found <==>
                  key in keys && key !in left && Breaks(conflict, ValueOf(before, key), ValueOf(mine, key), ValueOf(now, key))
      decreases |left|
    {
      var key :| key in left;
      left := left - {key};
      if Breaks(conflict, ValueOf(before, key), ValueOf(mine, key), ValueOf(now, key)) {
        found := found + {key};
      }
    }
  }

  ghost predicate Accepts(plan: Plan, judgement: Judgement, base: Json, client: Json, current: Json) {
    forall i, key | 0 <= i < |plan| :: !ConflictsAt(plan, judgement, plan[i], base, client, current, key)
  }

  // ---------------------------------------------------------------- creations

  predicate Plain(field: Field) { !field.storage.DerivedIdentity? && !field.storage.DerivedRevision? }

  /** A document a kind creates is accepted exactly when every field its writers make immutable to
      that kind is left unset. */
  lemma {:induction false} CreationLeavesImmutableUnset(plan: Plan, created: Json, kind: Kind)
    ensures Accepts(plan, Creation(kind), Null, created, Null) <==>
            forall i, key | 0 <= i < |plan| && WriterConflict(plan[i].writers, kind) == Some(Immutable) && Plain(plan[i]) ::
              ValueOf(FieldValues(plan, plan[i], created), key) == Null
  {
    forall i, key | 0 <= i < |plan|
      ensures ConflictsAt(plan, Creation(kind), plan[i], Null, created, Null, key) <==>
              WriterConflict(plan[i].writers, kind) == Some(Immutable) && Plain(plan[i])
              && ValueOf(FieldValues(plan, plan[i], created), key) != Null
    {
      UnsetInNull(plan, plan[i], key);
    }
  }

  /** Nothing is set in a document that is not there. */
  lemma {:induction false} UnsetInNull(plan: Plan, field: Field, key: Key)
    ensures ValueOf(FieldValues(plan, field, Null), key) == Null
  {
    if field.path.within == [] {
      assert field.path.leaf == [] || ValueAt(Null, field.path.leaf).None?;
    } else if field.path.within[0] == [] {
      assert ValueAt(Null, field.path.within[0]) == Some(Null);
    }
  }
}
