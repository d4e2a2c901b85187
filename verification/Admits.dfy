/**
 Whether every value of one schema is a value of another, as an open object's other members must
 hold every declared member. Recursive definitions are compared coinductively: a pair of
 references being compared is assumed.
 */
module Admits {
  import opened Wrappers
  import opened Schemas
  import opened ReferenceChains

  datatype Verdict = Yes | No | Refused

  /** One comparison: settled, or as the comparison of another pair says. */
  datatype Judged = Admitted | NotAdmitted | Malformed | Then(values: Schema, member: Schema)

  // ---------------------------------------------------------------- one pair

  /** The values a member enumerates, less those its own bounds exclude. */
  function MemberValues(member: Schema): Option<seq<Json>> {
    match (member.listed, member.constant)
    case (Some(listed), _) => Some(Meeting(member, listed))
    case (None, Some(constant)) => Some([constant])
    case (None, None) => None
  }

  function Meeting(schema: Schema, values: seq<Json>): (met: seq<Json>)
    ensures forall v :: v in met <==> v in values && MeetsBounds(schema, v)
    decreases |values|
  {
    if values == [] then []
    else
      var earlier := Meeting(schema, values[..|values| - 1]);
      if MeetsBounds(schema, values[|values| - 1]) then earlier + [values[|values| - 1]] else earlier
  }

  predicate AllIntegers(values: Option<seq<Json>>) {
    values.Some? && forall i | 0 <= i < |values.value| :: IsInteger(values.value[i])
  }

  predicate KindAdmits(values: Kind, member: Kind, integral: bool) {
    || values == member
    || (values == NumberKind && member == IntegerKind)
    || (values == IntegerKind && member == NumberKind && integral)
  }

  predicate KindsAdmit(values: seq<Kind>, member: seq<Kind>, integral: bool) {
    forall i | 0 <= i < |member| :: exists j | 0 <= j < |values| :: KindAdmits(values[j], member[i], integral)
  }

  predicate ListAdmits(values: Schema, member: Schema) {
    values.listed.Some? ==> member.listed.Some? && forall i | 0 <= i < |member.listed.value| :: member.listed.value[i] in values.listed.value
  }

  predicate ConstantAdmits(values: Schema, memberValues: Option<seq<Json>>) {
    values.constant.Some? ==>
      memberValues.Some? && forall i | 0 <= i < |memberValues.value| :: memberValues.value[i] == values.constant.value
  }

  /** The bound a schema whose numbers are integers leaves. */
  function Least(kinds: seq<Kind>, bound: real): real {
    if NumberKind !in kinds && IntegerKind in kinds then Ceiling(bound) else bound
  }

  function Greatest(kinds: seq<Kind>, bound: real): real {
    if NumberKind !in kinds && IntegerKind in kinds then bound.Floor as real else bound
  }

  predicate BoundsAdmit(values: Schema, valuesKinds: seq<Kind>, member: Schema, memberKinds: seq<Kind>) {
    var numeric := IntegerKind in memberKinds || NumberKind in memberKinds;
    && (values.minimum.Some? && numeric ==>
          member.minimum.Some? && Least(memberKinds, member.minimum.value) >= Least(valuesKinds, values.minimum.value))
    && (values.maximum.Some? && numeric ==>
          member.maximum.Some? && Greatest(memberKinds, member.maximum.value) <= Greatest(valuesKinds, values.maximum.value))
    && (values.minLength.Some? && StringKind in memberKinds ==>
          member.minLength.Some? && member.minLength.value >= values.minLength.value)
  }

  /** Two schemas that are no references, as far as their own keywords go. */
  predicate KeywordsAdmit(values: Schema, valuesKinds: seq<Kind>, member: Schema, memberKinds: seq<Kind>) {
    var memberValues := MemberValues(member);
    && KindsAdmit(valuesKinds, memberKinds, AllIntegers(memberValues))
    && ListAdmits(values, member)
    && ConstantAdmits(values, memberValues)
    && if memberValues.Some? then forall i | 0 <= i < |memberValues.value| :: MeetsBounds(values, memberValues.value[i])
       else BoundsAdmit(values, valuesKinds, member, memberKinds)
  }

  function JudgePlain(values: Schema, member: Schema): Judged {
    match (KindsOf(member), KindsOf(values))
    case (None, _) => Malformed
    case (Some(memberKinds), None) => if memberKinds == [] then NotAdmitted else Malformed
    case (Some(memberKinds), Some(valuesKinds)) =>
      if memberKinds == [] || valuesKinds == [] then NotAdmitted
      else if !KeywordsAdmit(values, valuesKinds, member, memberKinds) then NotAdmitted
      else if |valuesKinds| > 1 || |memberKinds| > 1 then Admitted
      else match valuesKinds[0]
        case ArrayKind =>
          if values.items.Some? && member.items.Some? then Then(values.items.value, member.items.value) else NotAdmitted
        case ObjectKind =>
          if RecordValues(values).Some? && RecordValues(member).Some?
          then Then(RecordValues(values).value, RecordValues(member).value) else NotAdmitted
        case _ => Admitted
  }

  /** References that end at one definition name one type. */
  predicate SameDefinition(defs: Defs, values: Schema, member: Schema) {
    values.ref.Some? && member.ref.Some? && Last(LinksOf(defs), values.ref.value, {}) == Last(LinksOf(defs), member.ref.value, {})
  }

  function Judge(defs: Defs, values: Schema, member: Schema): Judged {
    if values.typed == Single(JsonKind) then Admitted
    else if values.ref.Some? && values.ref == member.ref then Admitted
    else if IsReference(values, member) then
      match (Dereferenced(defs, values), Dereferenced(defs, member))
      case (Some(v), Some(m)) => if SameDefinition(defs, values, member) then Admitted else Then(v, m)
      case _ => Malformed
    else JudgePlain(values, member)
  }

  predicate IsReference(values: Schema, member: Schema) { values.ref.Some? || member.ref.Some? }

  // ---------------------------------------------------------------- the comparison

  type Pairs = set<(Schema, Schema)>

  /** The schemas a comparison can come to: those of the definitions and of the two it starts
      from, closed under the steps it takes. */
  ghost predicate Universe(defs: Defs, all: set<Schema>) {
    && (forall n | n in defs :: defs[n] in all)
    && (forall s | s in all :: (s.items.Some? ==> s.items.value in all) && (s.additional.Some? ==> s.additional.value in all))
  }

  ghost function PairsOf(all: set<Schema>): Pairs { set v, m | v in all && m in all :: (v, m) }

  /** Whether every value of `member` is one of `values`, the assumed pairs taken for granted. */
  function Compare(defs: Defs, values: Schema, member: Schema, assumed: Pairs, ghost all: set<Schema>): Verdict
    requires Universe(defs, all) && values in all && member in all
    decreases PairsOf(all) - assumed, values
  {
    if IsReference(values, member) && (values, member) in assumed then Yes
    else match Judge(defs, values, member)
      case Admitted => Yes
      case NotAdmitted => No
      case Malformed => Refused
      case Then(v, m) => Compare(defs, v, m, if IsReference(values, member) then assumed + {(values, member)} else assumed, all)
  }

  /** A schema and the ones a comparison finds in it. */
  ghost function Within(schema: Schema): set<Schema> {
    {schema}
    + (if schema.items.Some? then Within(schema.items.value) else {})
    + (if schema.additional.Some? then Within(schema.additional.value) else {})
  }

  ghost function Reach(defs: Defs, values: Schema, member: Schema): (all: set<Schema>)
    ensures Universe(defs, all) && values in all && member in all
  {
    var all := (set n, s | n in defs && s in Within(defs[n]) :: s) + Within(values) + Within(member);
    assert forall n | n in defs :: defs[n] in all by {
      forall n | n in defs ensures defs[n] in all { assert defs[n] in Within(defs[n]); }
    }
    assert forall s | s in all :: (s.items.Some? ==> s.items.value in all) && (s.additional.Some? ==> s.additional.value in all) by {
      WithinCloses(values);
      WithinCloses(member);
      forall n | n in defs ensures Closed(Within(defs[n])) { WithinCloses(defs[n]); }
    }
    all
  }

  ghost predicate Closed(all: set<Schema>) {
    forall s | s in all :: (s.items.Some? ==> s.items.value in all) && (s.additional.Some? ==> s.additional.value in all)
  }

  lemma {:induction false} WithinCloses(schema: Schema)
    ensures Closed(Within(schema))
  {
    if schema.items.Some? { WithinCloses(schema.items.value); }
    if schema.additional.Some? { WithinCloses(schema.additional.value); }
  }

  /** Whether every value of `member` is one of `values`: the comparison always comes to an end. */
  function Admits(defs: Defs, values: Schema, member: Schema): Verdict {
    Compare(defs, values, member, {}, Reach(defs, values, member))
  }

  // ---------------------------------------------------------------- soundness

  /** Every pair is admitted, or stands or falls with one of `proved`. */
  ghost predicate Simulated(defs: Defs, pairs: Pairs, proved: Pairs) {
    forall p | p in pairs ::
      var judged := Judge(defs, p.0, p.1);
      judged.Admitted? || (judged.Then? && (judged.values, judged.member) in proved)
  }

  /** A comparison that says yes has gone through pairs that stand or fall with one another and the
      assumed ones. */
  lemma {:induction false} YesIsSimulated(defs: Defs, values: Schema, member: Schema, assumed: Pairs, all: set<Schema>) returns (pairs: Pairs)
    requires Universe(defs, all) && values in all && member in all
    requires Compare(defs, values, member, assumed, all) == Yes
    ensures (values, member) in pairs + assumed && pairs <= PairsOf(all)
    ensures Simulated(defs, pairs, pairs + assumed)
    decreases PairsOf(all) - assumed, values
  {
    if IsReference(values, member) && (values, member) in assumed {
      pairs := {};
    } else {
      pairs := {(values, member)};
      var judged := Judge(defs, values, member);
      if judged.Then? {
        var next := if IsReference(values, member) then assumed + {(values, member)} else assumed;
        var rest := YesIsSimulated(defs, judged.values, judged.member, next, all);
        pairs := pairs + rest;
        assert rest + next <= pairs + assumed;
      }
    }
  }

  lemma {:induction false} KindIsHad(value: Json, values: Kind, member: Kind, integral: bool)
    requires HasKind(value, member) && KindAdmits(values, member, integral) && (integral ==> IsInteger(value))
    ensures HasKind(value, values)
  {
  }

  /** A value of a member that enumerates its values is one of those. */
  lemma {:induction false} ValueIsListed(member: Schema, value: Json)
    requires MeetsKeywords(member, value) && MemberValues(member).Some?
    ensures value in MemberValues(member).value
  {
  }

  /** A number of integer kinds keeps to the integer its bounds leave. */
  lemma {:induction false} NumberIsBounded(kinds: seq<Kind>, r: real, bound: real)
    requires HasSomeKind(Num(r), kinds) && JsonKind !in kinds
    ensures IntegerKind in kinds || NumberKind in kinds
    ensures r >= bound ==> r >= Least(kinds, bound)
    ensures r <= bound ==> r <= Greatest(kinds, bound)
    ensures Least(kinds, bound) >= bound >= Greatest(kinds, bound)
  {
    IntegerBounds(r, bound);
    var i :| 0 <= i < |kinds| && HasKind(Num(r), kinds[i]);
    assert kinds[i] == IntegerKind || kinds[i] == NumberKind;
  }

  lemma {:induction false} TextHasItsKind(kinds: seq<Kind>, s: string)
    requires HasSomeKind(Text(s), kinds) && JsonKind !in kinds
    ensures StringKind in kinds
  {
    var i :| 0 <= i < |kinds| && HasKind(Text(s), kinds[i]);
    assert kinds[i] == StringKind;
  }

  lemma {:induction false} BoundsAreMet(values: Schema, valuesKinds: seq<Kind>, member: Schema, memberKinds: seq<Kind>, value: Json)
    requires BoundsAdmit(values, valuesKinds, member, memberKinds) && MeetsBounds(member, value)
    requires HasSomeKind(value, memberKinds) && HasSomeKind(value, valuesKinds)
    requires JsonKind !in memberKinds && JsonKind !in valuesKinds
    ensures MeetsBounds(values, value)
  {
    match value
    case Num(r) =>
      if values.minimum.Some? {
        NumberIsBounded(valuesKinds, r, values.minimum.value);
        NumberIsBounded(memberKinds, r, if member.minimum.Some? then member.minimum.value else 0.0);
      }
      if values.maximum.Some? {
        NumberIsBounded(valuesKinds, r, values.maximum.value);
        NumberIsBounded(memberKinds, r, if member.maximum.Some? then member.maximum.value else 0.0);
      }
    case Text(s) => TextHasItsKind(memberKinds, s);
    case _ =>
  }

  lemma {:induction false} SomeKindIsHad(value: Json, values: seq<Kind>, member: seq<Kind>, integral: bool)
    requires HasSomeKind(value, member) && KindsAdmit(values, member, integral) && (integral ==> IsInteger(value))
    ensures HasSomeKind(value, values)
  {
    var i :| 0 <= i < |member| && HasKind(value, member[i]);
    var j :| 0 <= j < |values| && KindAdmits(values[j], member[i], integral);
    KindIsHad(value, values[j], member[i], integral);
  }

  /** What the keywords of the one admit, those of the other allow. */
  lemma {:induction false} KeywordsAreMet(values: Schema, member: Schema, value: Json)
    requires KindsOf(values).Some? && KindsOf(member).Some? && MeetsKeywords(member, value)
    requires KeywordsAdmit(values, KindsOf(values).value, member, KindsOf(member).value)
    requires JsonKind !in KindsOf(values).value
    ensures MeetsKeywords(values, value)
  {
    var valuesKinds, memberKinds, memberValues := KindsOf(values).value, KindsOf(member).value, MemberValues(member);
    if memberValues.Some? { ValueIsListed(member, value); }
    SomeKindIsHad(value, valuesKinds, memberKinds, AllIntegers(memberValues));
    assert JsonKind !in memberKinds by { NoJson(valuesKinds, memberKinds, AllIntegers(memberValues)); }
    if memberValues.None? { BoundsAreMet(values, valuesKinds, member, memberKinds, value); }
  }

  lemma {:induction false} NoJson(values: seq<Kind>, member: seq<Kind>, integral: bool)
    requires KindsAdmit(values, member, integral) && JsonKind !in values
    ensures JsonKind !in member
  {
    forall i | 0 <= i < |member| ensures member[i] != JsonKind {
      var kind := member[i];
      var j :| 0 <= j < |values| && KindAdmits(values[j], kind, integral);
      assert values[j] in values;
    }
  }

  /** All schemas of the universe have passed validation. */
  ghost predicate AllChecked(all: set<Schema>) { forall s | s in all :: Checked(s) }

  /** If pairs stand or fall only with one another, all of them stand. */
  lemma {:induction false} SimulationIsSound(defs: Defs, all: set<Schema>, pairs: Pairs, values: Schema, member: Schema, value: Json)
    requires Universe(defs, all) && AllChecked(all) && pairs <= PairsOf(all) && Simulated(defs, pairs, pairs)
    requires (values, member) in pairs && Satisfies(defs, member, value)
    ensures Satisfies(defs, values, value)
    decreases value, if IsReference(values, member) then 1 else 0
  {
    var judged := Judge(defs, values, member);
    assert values in all && member in all;
    if values.typed == Single(JsonKind) {
      assert HasKind(value, KindsOf(values).value[0]);
    } else if SameDefinition(defs, values, member) || (values.ref.Some? && values.ref == member.ref) {
    } else if IsReference(values, member) {
      SimulationIsSound(defs, all, pairs, judged.values, judged.member, value);
    } else {
      PlainIsSound(defs, all, pairs, values, member, value);
    }
  }

  lemma {:induction false} PlainIsSound(defs: Defs, all: set<Schema>, pairs: Pairs, values: Schema, member: Schema, value: Json)
    requires Universe(defs, all) && AllChecked(all) && pairs <= PairsOf(all) && Simulated(defs, pairs, pairs)
    requires (values, member) in pairs && Satisfies(defs, member, value)
    requires !IsReference(values, member) && values.typed != Single(JsonKind)
    ensures Satisfies(defs, values, value)
    decreases value, -1
  {
    var judged := JudgePlain(values, member);
    assert judged == Judge(defs, values, member);
    PlainShape(values, member);
    KeywordsAreMet(values, member, value);
    if values.typed == Single(ArrayKind) {
      forall i | 0 <= i < |value.items| ensures Satisfies(defs, values.items.value, value.items[i]) {
        SimulationIsSound(defs, all, pairs, values.items.value, member.items.value, value.items[i]);
      }
    } else if values.typed == Single(ObjectKind) {
      forall k | k in value.members ensures MemberSatisfies(defs, values, k, value.members[k]) {
        assert MemberSatisfies(defs, member, k, value.members[k]);
        SimulationIsSound(defs, all, pairs, values.additional.value, member.additional.value, value.members[k]);
      }
    }
  }

  /** What an admitted pair that is no reference looks like. */
  lemma {:induction false} PlainShape(values: Schema, member: Schema)
    requires JudgePlain(values, member).Admitted? || JudgePlain(values, member).Then?
    requires values.typed != Single(JsonKind)
    ensures KindsOf(values).Some? && KindsOf(member).Some? && JsonKind !in KindsOf(values).value
    ensures KeywordsAdmit(values, KindsOf(values).value, member, KindsOf(member).value)
    ensures values.typed == Single(ArrayKind) ==>
              && member.typed == Single(ArrayKind) && values.items.Some? && member.items.Some?
              && JudgePlain(values, member) == Then(values.items.value, member.items.value)
    ensures values.typed == Single(ObjectKind) ==>
              && member.typed == Single(ObjectKind) && values.properties.Undeclared? && member.properties.Undeclared?
              && values.additional.Some? && member.additional.Some?
              && JudgePlain(values, member) == Then(values.additional.value, member.additional.value)
  {
    var valuesKinds, memberKinds := KindsOf(values).value, KindsOf(member).value;
    if values.typed == Single(ArrayKind) || values.typed == Single(ObjectKind) {
      assert KindAdmits(valuesKinds[0], memberKinds[0], AllIntegers(MemberValues(member)));
      assert member.typed.Union? ==> IsPrimitive(memberKinds[0]);
    }
  }

  /** If the comparison of two validated schemas says yes, every value of the member is one of the
      other members', through recursive definitions and however deep. */
  lemma {:induction false} AdmitsIsSound(defs: Defs, values: Schema, member: Schema, value: Json)
    requires AllChecked(Reach(defs, values, member))
    requires Admits(defs, values, member) == Yes && Satisfies(defs, member, value)
    ensures Satisfies(defs, values, value)
  {
    var all := Reach(defs, values, member);
    var pairs := YesIsSimulated(defs, values, member, {}, all);
    assert pairs + {} == pairs;
    SimulationIsSound(defs, all, pairs, values, member, value);
  }

  /** The comparison as it runs, adding to the pairs it assumes as it follows references; these the
      check of the chains lets come to an end. */
  method Compares(defs: Defs, values: Schema, member: Schema, assumed: Pairs, ghost all: set<Schema>)
    returns (verdict: Verdict, after: Pairs)
    requires Universe(defs, all) && values in all && member in all && AllEnd(LinksOf(defs))
    ensures verdict == Compare(defs, values, member, assumed, all) && assumed <= after
    decreases PairsOf(all) - assumed, values
  {
    after := assumed;
    if values.typed == Single(JsonKind) || (values.ref.Some? && values.ref == member.ref) {
      return Yes, after;
    }
    if IsReference(values, member) {
      if (values, member) in assumed {
        return Yes, after;
      }
      var valuesEnd := Dereference(defs, values);
      var memberEnd := Dereference(defs, member);
      if valuesEnd.None? || memberEnd.None? {
        return Refused, after + {(values, member)};
      }
      if SameDefinition(defs, values, member) {
        return Yes, after + {(values, member)};
      }
      verdict, after := Compares(defs, valuesEnd.value, memberEnd.value, assumed + {(values, member)}, all);
      return;
    }
    match JudgePlain(values, member) {
      case Admitted => verdict := Yes;
      case NotAdmitted => verdict := No;
      case Malformed => verdict := Refused;
      case Then(v, m) => verdict, after := Compares(defs, v, m, assumed, all);
    }
  }

  /** The generated field that holds an open object's other members. */
  const OTHER_MEMBERS_FIELD := "other_members"

  /** Checks that every declared member of an open object is a value of its other members' schema, and
      that none is named, as `fieldOf` names fields, like the field holding those. */
  method CheckOpenObject(defs: Defs, properties: map<string, Schema>, otherMembers: Schema, fieldOf: string -> string)
    returns (passed: bool)
    requires AllEnd(LinksOf(defs))
    ensures passed <==>
            properties != map[] && forall name | name in properties ::
              fieldOf(name) != OTHER_MEMBERS_FIELD && Admits(defs, otherMembers, properties[name]) == Yes
  {
    if properties == map[] {
      return false;
    }
    var pending := properties.Keys;
    while pending != {}
      invariant pending <= properties.Keys
      invariant forall name | name in properties && name !in pending ::
                  fieldOf(name) != OTHER_MEMBERS_FIELD && Admits(defs, otherMembers, properties[name]) == Yes
      decreases |pending|
    {
      var name :| name in pending;
      if fieldOf(name) == OTHER_MEMBERS_FIELD {
        return false;
      }
      var verdict, assumed := Compares(defs, otherMembers, properties[name], {}, Reach(defs, otherMembers, properties[name]));
      if verdict != Yes {
        return false;
      }
      pending := pending - {name};
    }
    return true;
  }

  /** Every value of an open object that passes is a record of its other members' values. */
  lemma {:induction false} OpenObjectIsRecord(defs: Defs, schema: Schema, value: Json)
    requires schema.typed == Single(ObjectKind) && schema.ref.None? && schema.oneOf.Undeclared?
    requires schema.properties.Declared? && schema.additional.Some?
    requires forall name | name in schema.properties.fields ::
               && Admits(defs, schema.additional.value, schema.properties.fields[name]) == Yes
               && AllChecked(Reach(defs, schema.additional.value, schema.properties.fields[name]))
    requires Satisfies(defs, schema, value)
    ensures Satisfies(defs, schema.(properties := Undeclared, required := {}), value)
  {
    var record := schema.(properties := Undeclared, required := {});
    forall name | name in value.members ensures MemberSatisfies(defs, record, name, value.members[name]) {
      assert MemberSatisfies(defs, schema, name, value.members[name]);
      if name in schema.properties.fields {
        AdmitsIsSound(defs, schema.additional.value, schema.properties.fields[name], value.members[name]);
      }
    }
    assert KindsOf(record) == KindsOf(schema);
  }
}
