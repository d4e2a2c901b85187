/**
 When the comparison of two schemas says yes: for the schemas it takes apart exactly when it does for
 the parts, for plain ones by what their kinds and bounds leave, and for recursive ones whenever no
 pair they come to stands in the way.
 */
module AdmitsExactly {
  import opened Wrappers
  import opened Schemas
  import opened ReferenceChains
  import opened Comparing = Admits

  // ---------------------------------------------------------------- closed pairs are admitted

  /** Pairs that stand or fall only with one another are admitted, whatever is assumed. */
  lemma {:induction false} SimulatedIsYes(defs: Defs, values: Schema, member: Schema, assumed: Pairs, all: set<Schema>, pairs: Pairs)
    requires Universe(defs, all) && values in all && member in all
    requires (values, member) in pairs && Simulated(defs, pairs, pairs)
    ensures Compare(defs, values, member, assumed, all) == Yes
    decreases PairsOf(all) - assumed, values
  {
    var judged := Judge(defs, values, member);
    if !(IsReference(values, member) && (values, member) in assumed) && judged.Then? {
      var next := if IsReference(values, member) then assumed + {(values, member)} else assumed;
      SimulatedIsYes(defs, judged.values, judged.member, next, all, pairs);
    }
  }

  /** A comparison says yes exactly when it lies among pairs that stand or fall only with one another. */
  lemma {:induction false} AdmitsExactlyWhenSimulated(defs: Defs, values: Schema, member: Schema)
    ensures Admits(defs, values, member) == Yes <==> exists pairs: Pairs :: (values, member) in pairs && Simulated(defs, pairs, pairs)
  {
    var all := Reach(defs, values, member);
    if Admits(defs, values, member) == Yes {
      var pairs := YesIsSimulated(defs, values, member, {}, all);
      assert pairs + {} == pairs;
    }
    if pairs: Pairs :| (values, member) in pairs && Simulated(defs, pairs, pairs) {
      SimulatedIsYes(defs, values, member, {}, all, pairs);
    }
  }

  /** One more pair that comes to an admitted one is admitted as well, and an admitted one comes to such. */
  lemma {:induction false} LeadsOn(defs: Defs, values: Schema, member: Schema)
    requires Judge(defs, values, member).Then?
    ensures Admits(defs, values, member) == Yes <==>
            Admits(defs, Judge(defs, values, member).values, Judge(defs, values, member).member) == Yes
  {
    var judged := Judge(defs, values, member);
    AdmitsExactlyWhenSimulated(defs, values, member);
    AdmitsExactlyWhenSimulated(defs, judged.values, judged.member);
    if Admits(defs, judged.values, judged.member) == Yes {
      var pairs: Pairs :| (judged.values, judged.member) in pairs && Simulated(defs, pairs, pairs);
      var more := pairs + {(values, member)};
      assert Simulated(defs, more, more);
    }
  }

  lemma {:induction false} SettledIs(defs: Defs, values: Schema, member: Schema)
    requires !Judge(defs, values, member).Then?
    ensures Admits(defs, values, member) == Yes <==> Judge(defs, values, member).Admitted?
  {
  }

  // ---------------------------------------------------------------- arrays, records and references

  /** A schema that is no reference, of one kind, with no other keyword that bears on its values. */
  predicate IsBare(schema: Schema, kind: Kind) {
    schema.ref.None? && schema.typed == Single(kind) && schema.listed.None? && schema.constant.None?
  }

  /** An array is one of another's exactly when its items are. */
  lemma {:induction false} ArraysExactly(defs: Defs, values: Schema, member: Schema)
    requires IsBare(values, ArrayKind) && IsBare(member, ArrayKind) && values.items.Some? && member.items.Some?
    ensures Admits(defs, values, member) == Yes <==> Admits(defs, values.items.value, member.items.value) == Yes
  {
    BareKeywords(values, member, ArrayKind);
    assert Judge(defs, values, member) == Then(values.items.value, member.items.value);
    LeadsOn(defs, values, member);
  }

  /** A record is one of another's exactly when its values are, and an object with members of its own is
      of no record and no other object. */
  lemma {:induction false} RecordsExactly(defs: Defs, values: Schema, member: Schema)
    requires IsBare(values, ObjectKind) && IsBare(member, ObjectKind)
    ensures Admits(defs, values, member) == Yes <==>
            && values.properties.Undeclared? && values.additional.Some? && member.properties.Undeclared? && member.additional.Some?
            && Admits(defs, values.additional.value, member.additional.value) == Yes
  {
    BareKeywords(values, member, ObjectKind);
    if values.properties.Undeclared? && values.additional.Some? && member.properties.Undeclared? && member.additional.Some? {
      assert Judge(defs, values, member) == Then(values.additional.value, member.additional.value);
      LeadsOn(defs, values, member);
    } else {
      assert Judge(defs, values, member) == NotAdmitted;
    }
  }

  lemma {:induction false} BareKeywords(values: Schema, member: Schema, kind: Kind)
    requires IsBare(values, kind) && IsBare(member, kind) && (kind == ArrayKind || kind == ObjectKind)
    ensures KindsOf(values) == KindsOf(member) == Some([kind]) && KeywordsAdmit(values, [kind], member, [kind])
  {
    var one := [kind];
    assert KindAdmits(one[0], one[0], AllIntegers(MemberValues(member)));
  }

  /** References are compared as what they lead to, unless they are one name or lead to one definition. */
  lemma {:induction false} ReferencesExactly(defs: Defs, values: Schema, member: Schema)
    requires (values.ref.Some? || member.ref.Some?) && values.typed != Single(JsonKind)
    requires Dereferenced(defs, values).Some? && Dereferenced(defs, member).Some?
    ensures Admits(defs, values, member) == Yes <==>
            || (values.ref.Some? && values.ref == member.ref)
            || (values.ref.Some? && member.ref.Some? && Last(LinksOf(defs), values.ref.value, {}) == Last(LinksOf(defs), member.ref.value, {}))
            || Admits(defs, Dereferenced(defs, values).value, Dereferenced(defs, member).value) == Yes
  {
    if Judge(defs, values, member).Then? { LeadsOn(defs, values, member); } else { SettledIs(defs, values, member); }
  }

  /** Anything is one of the values of a schema of all JSON. */
  lemma {:induction false} JsonAdmitsAll(defs: Defs, values: Schema, member: Schema)
    requires values.typed == Single(JsonKind)
    ensures Admits(defs, values, member) == Yes
  {
    SettledIs(defs, values, member);
  }

  // ---------------------------------------------------------------- plain values

  predicate AllPrimitive(kinds: seq<Kind>) { kinds != [] && forall i | 0 <= i < |kinds| :: IsPrimitive(kinds[i]) }

  /** A schema of primitive values, one kind or several. */
  predicate IsScalar(schema: Schema) { schema.ref.None? && KindsOf(schema).Some? && AllPrimitive(KindsOf(schema).value) }

  /** A number of the schema's kinds. */
  predicate IsNumberOf(schema: Schema, r: real)
    requires IsScalar(schema)
  {
    NumberKind in KindsOf(schema).value || (IntegerKind in KindsOf(schema).value && r.Floor as real == r)
  }

  /** Each kind of the member is one of the other's, or integer under number. */
  ghost predicate KindsFit(values: Schema, member: Schema)
    requires IsScalar(values) && IsScalar(member)
  {
    forall kind | kind in KindsOf(member).value :: kind in KindsOf(values).value || (kind == IntegerKind && NumberKind in KindsOf(values).value)
  }

  /** Every number of the member's kinds within its bounds is within the other's, and texts are no
      shorter. */
  ghost predicate BoundsFit(values: Schema, member: Schema)
    requires IsScalar(values) && IsScalar(member)
  {
    && (forall r: real | IsNumberOf(member, r) && (member.minimum.Some? ==> r >= member.minimum.value) ::
          values.minimum.Some? ==> r >= values.minimum.value)
    && (forall r: real | IsNumberOf(member, r) && (member.maximum.Some? ==> r <= member.maximum.value) ::
          values.maximum.Some? ==> r <= values.maximum.value)
    && (StringKind in KindsOf(member).value && values.minLength.Some? ==>
          member.minLength.Some? && member.minLength.value >= values.minLength.value)
  }

  /** Scalars that list no values are admitted exactly when their kinds and bounds fit. */
  lemma {:induction false} ScalarsExactly(defs: Defs, values: Schema, member: Schema)
    requires IsScalar(values) && IsScalar(member)
    requires values.listed.None? && values.constant.None? && member.listed.None? && member.constant.None?
    ensures Admits(defs, values, member) == Yes <==> KindsFit(values, member) && BoundsFit(values, member)
  {
    var valuesKinds, memberKinds := KindsOf(values).value, KindsOf(member).value;
    PlainIsSettled(defs, values, member);
    KindsExactly(valuesKinds, memberKinds, false);
    if KindsFit(values, member) { BoundsExactly(values, member); }
  }

  lemma {:induction false} PlainIsSettled(defs: Defs, values: Schema, member: Schema)
    requires IsScalar(values) && IsScalar(member)
    ensures Admits(defs, values, member) == Yes <==> KeywordsAdmit(values, KindsOf(values).value, member, KindsOf(member).value)
  {
    var kinds := KindsOf(values).value;
    assert IsPrimitive(kinds[0]);
    assert values.typed != Single(JsonKind);
    SettledIs(defs, values, member);
  }

  lemma {:induction false} KindsExactly(values: seq<Kind>, member: seq<Kind>, integral: bool)
    requires AllPrimitive(values) && AllPrimitive(member)
    ensures KindsAdmit(values, member, integral) <==>
            forall kind | kind in member ::
              kind in values || (kind == IntegerKind && NumberKind in values) || (kind == NumberKind && IntegerKind in values && integral)
  {
    if KindsAdmit(values, member, integral) {
      forall kind | kind in member
        ensures kind in values || (kind == IntegerKind && NumberKind in values) || (kind == NumberKind && IntegerKind in values && integral)
      {
        var i :| 0 <= i < |member| && member[i] == kind;
        var j :| 0 <= j < |values| && KindAdmits(values[j], member[i], integral);
      }
    }
    if forall kind | kind in member ::
         kind in values || (kind == IntegerKind && NumberKind in values) || (kind == NumberKind && IntegerKind in values && integral)
    {
      forall i | 0 <= i < |member| ensures exists j | 0 <= j < |values| :: KindAdmits(values[j], member[i], integral) {
        var kind := if member[i] in values then member[i] else if member[i] == IntegerKind then NumberKind else IntegerKind;
        assert member[i] in member && kind in values;
        var j :| 0 <= j < |values| && values[j] == kind;
        assert KindAdmits(values[j], member[i], integral);
      }
    }
  }

  lemma {:induction false} BoundsExactly(values: Schema, member: Schema)
    requires IsScalar(values) && IsScalar(member) && KindsFit(values, member)
    ensures BoundsAdmit(values, KindsOf(values).value, member, KindsOf(member).value) <==> BoundsFit(values, member)
  {
    MinimumExactly(values, member);
    MaximumExactly(values, member);
  }

  /** The smallest number of the kinds at or above a bound. */
  lemma {:induction false} LeastIs(schema: Schema, bound: real)
    requires IsScalar(schema) && (IntegerKind in KindsOf(schema).value || NumberKind in KindsOf(schema).value)
    ensures var least := Least(KindsOf(schema).value, bound);
            IsNumberOf(schema, least) && least >= bound && forall r: real | IsNumberOf(schema, r) && r >= bound :: r >= least
  {
    WholeIsIntegral((-bound).Floor);
    IntegerBounds(0.0, bound);
    forall r: real | IsNumberOf(schema, r) && r >= bound ensures r >= Least(KindsOf(schema).value, bound) { IntegerBounds(r, bound); }
  }

  lemma {:induction false} GreatestIs(schema: Schema, bound: real)
    requires IsScalar(schema) && (IntegerKind in KindsOf(schema).value || NumberKind in KindsOf(schema).value)
    ensures var greatest := Greatest(KindsOf(schema).value, bound);
            IsNumberOf(schema, greatest) && greatest <= bound && forall r: real | IsNumberOf(schema, r) && r <= bound :: r <= greatest
  {
    WholeIsIntegral(bound.Floor);
    IntegerBounds(0.0, bound);
    forall r: real | IsNumberOf(schema, r) && r <= bound ensures r <= Greatest(KindsOf(schema).value, bound) { IntegerBounds(r, bound); }
  }

  /** A whole number below any bound. */
  lemma {:induction false} NumbersGoDown(schema: Schema, bound: real)
    requires IsScalar(schema) && (IntegerKind in KindsOf(schema).value || NumberKind in KindsOf(schema).value)
    ensures exists r: real :: IsNumberOf(schema, r) && r < bound
    ensures exists r: real :: IsNumberOf(schema, r) && r > bound
  {
    var low, high := (bound.Floor - 1) as real, (bound.Floor + 1) as real;
    WholeIsIntegral(bound.Floor - 1);
    WholeIsIntegral(bound.Floor + 1);
    assert IsNumberOf(schema, low) && low < bound && IsNumberOf(schema, high) && high > bound;
  }

  lemma {:induction false} MinimumExactly(values: Schema, member: Schema)
    requires IsScalar(values) && IsScalar(member) && KindsFit(values, member)
    ensures (values.minimum.Some? && (IntegerKind in KindsOf(member).value || NumberKind in KindsOf(member).value) ==>
               member.minimum.Some? && Least(KindsOf(member).value, member.minimum.value) >= Least(KindsOf(values).value, values.minimum.value)) <==>
            forall r: real | IsNumberOf(member, r) && (member.minimum.Some? ==> r >= member.minimum.value) ::
              values.minimum.Some? ==> r >= values.minimum.value
  {
    if values.minimum.Some? && (IntegerKind in KindsOf(member).value || NumberKind in KindsOf(member).value) {
      var bound := values.minimum.value;
      assert forall r: real | IsNumberOf(member, r) :: IsNumberOf(values, r);
      LeastIs(values, bound);
      if member.minimum.Some? {
        LeastIs(member, member.minimum.value);
      } else {
        NumbersGoDown(member, bound);
      }
    }
  }

  lemma {:induction false} MaximumExactly(values: Schema, member: Schema)
    requires IsScalar(values) && IsScalar(member) && KindsFit(values, member)
    ensures (values.maximum.Some? && (IntegerKind in KindsOf(member).value || NumberKind in KindsOf(member).value) ==>
               member.maximum.Some? && Greatest(KindsOf(member).value, member.maximum.value) <= Greatest(KindsOf(values).value, values.maximum.value)) <==>
            forall r: real | IsNumberOf(member, r) && (member.maximum.Some? ==> r <= member.maximum.value) ::
              values.maximum.Some? ==> r <= values.maximum.value
  {
    if values.maximum.Some? && (IntegerKind in KindsOf(member).value || NumberKind in KindsOf(member).value) {
      var bound := values.maximum.value;
      assert forall r: real | IsNumberOf(member, r) :: IsNumberOf(values, r);
      GreatestIs(values, bound);
      if member.maximum.Some? {
        GreatestIs(member, member.maximum.value);
      } else {
        NumbersGoDown(member, bound);
      }
    }
  }

  /** A constant of one kind is admitted, by scalars that list no values, exactly when it is one of theirs. */
  lemma {:induction false} ConstantExactly(defs: Defs, values: Schema, member: Schema)
    requires IsScalar(values) && values.listed.None? && member.ref.None? && member.typed.Single? && IsPrimitive(member.typed.kind)
    requires member.listed.None? && member.constant.Some? && HasKind(member.constant.value, member.typed.kind)
    ensures Admits(defs, values, member) == Yes <==> Satisfies(defs, values, member.constant.value)
  {
    var kinds, constant := KindsOf(values).value, member.constant.value;
    assert KindsOf(member) == Some([member.typed.kind]);
    PlainIsSettled(defs, values, member);
    KindsExactly(kinds, [member.typed.kind], IsInteger(constant));
    OneValue(values, member);
    KindOfValue(kinds, member.typed.kind, constant);
    ScalarSatisfies(defs, values, constant);
  }

  lemma {:induction false} OneValue(values: Schema, member: Schema)
    requires member.listed.None? && member.constant.Some?
    ensures AllIntegers(MemberValues(member)) == IsInteger(member.constant.value)
    ensures ConstantAdmits(values, MemberValues(member)) <==> (values.constant.Some? ==> values.constant.value == member.constant.value)
    ensures (forall i | 0 <= i < |MemberValues(member).value| :: MeetsBounds(values, MemberValues(member).value[i])) <==>
            MeetsBounds(values, member.constant.value)
  {
    var memberValues := MemberValues(member).value;
    assert memberValues == [member.constant.value] && memberValues[0] == member.constant.value;
  }

  lemma {:induction false} ScalarSatisfies(defs: Defs, values: Schema, value: Json)
    requires IsScalar(values)
    ensures Satisfies(defs, values, value) <==> MeetsKeywords(values, value)
  {
    var kinds := KindsOf(values).value;
    assert IsPrimitive(kinds[0]);
  }

  /** A value of the kind is of the kinds exactly when the kind fits them. */
  lemma {:induction false} KindOfValue(kinds: seq<Kind>, kind: Kind, value: Json)
    requires AllPrimitive(kinds) && IsPrimitive(kind) && HasKind(value, kind)
    ensures HasSomeKind(value, kinds) <==>
            kind in kinds || (kind == IntegerKind && NumberKind in kinds) || (kind == NumberKind && IntegerKind in kinds && IsInteger(value))
  {
    if HasSomeKind(value, kinds) {
      var i :| 0 <= i < |kinds| && HasKind(value, kinds[i]);
      assert IsPrimitive(kinds[i]);
    }
    if kind in kinds { var i :| 0 <= i < |kinds| && kinds[i] == kind; assert HasKind(value, kinds[i]); }
    if NumberKind in kinds { var i :| 0 <= i < |kinds| && kinds[i] == NumberKind; assert value.Num? ==> HasKind(value, kinds[i]); }
    if IntegerKind in kinds { var i :| 0 <= i < |kinds| && kinds[i] == IntegerKind; assert IsInteger(value) ==> HasKind(value, kinds[i]); }
  }

  /** Listed texts are admitted by texts exactly when all are listed there too, if any are, and those
      within the member's own bounds are values. */
  lemma {:induction false} ListedExactly(defs: Defs, values: Schema, member: Schema)
    requires values.ref.None? && values.typed == Single(StringKind) && values.constant.None?
    requires member.ref.None? && member.typed == Single(StringKind) && member.listed.Some?
    requires forall v | v in member.listed.value :: v.Text?
    ensures Admits(defs, values, member) == Yes <==>
            && (values.listed.Some? ==> forall v | v in member.listed.value :: v in values.listed.value)
            && (forall v | v in member.listed.value && MeetsBounds(member, v) :: MeetsBounds(values, v))
  {
    assert KindsOf(values) == KindsOf(member) == Some([StringKind]);
    PlainIsSettled(defs, values, member);
    var kinds, met, listed := [StringKind], Meeting(member, member.listed.value), member.listed.value;
    assert KindAdmits(kinds[0], kinds[0], AllIntegers(MemberValues(member)));
    assert forall v :: v in met <==> exists i :: 0 <= i < |met| && met[i] == v;
    assert forall v :: v in listed <==> exists i :: 0 <= i < |listed| && listed[i] == v;
  }

  // ---------------------------------------------------------------- schemas admit themselves

  /** A schema the comparison takes apart: of primitive kinds, arrays, records, references and all JSON. */
  predicate Comparable(schema: Schema) {
    && Checked(schema)
    && (schema.typed == Single(ObjectKind) ==> schema.properties.Undeclared? && schema.oneOf.Undeclared? && schema.discriminator.None?)
    && (schema.items.Some? ==> Comparable(schema.items.value))
    && (schema.additional.Some? ==> Comparable(schema.additional.value))
  }

  /** Such a schema admits itself, whatever the definitions. */
  lemma {:induction false} AdmitsItself(defs: Defs, schema: Schema)
    requires Comparable(schema)
    ensures Admits(defs, schema, schema) == Yes
  {
    var pairs: Pairs := set s | s in Within(schema) :: (s, s);
    WithinCloses(schema);
    WithinComparable(schema);
    assert (schema, schema) in pairs;
    forall p | p in pairs
      ensures var judged := Judge(defs, p.0, p.1); judged.Admitted? || (judged.Then? && (judged.values, judged.member) in pairs)
    {
      JudgesItself(defs, p.0);
    }
    AdmitsExactlyWhenSimulated(defs, schema, schema);
  }

  lemma {:induction false} WithinComparable(schema: Schema)
    requires Comparable(schema)
    ensures schema in Within(schema) && forall s | s in Within(schema) :: Comparable(s)
  {
    if schema.items.Some? { WithinComparable(schema.items.value); }
    if schema.additional.Some? { WithinComparable(schema.additional.value); }
  }

  lemma {:induction false} JudgesItself(defs: Defs, s: Schema)
    requires Comparable(s)
    ensures var judged := Judge(defs, s, s);
            || judged.Admitted?
            || (s.items.Some? && judged == Then(s.items.value, s.items.value))
            || (s.additional.Some? && judged == Then(s.additional.value, s.additional.value))
  {
    if s.ref.None? && s.typed != Single(JsonKind) { PlainJudgesItself(defs, s); }
  }

  lemma {:induction false} PlainJudgesItself(defs: Defs, s: Schema)
    requires Comparable(s) && s.ref.None? && s.typed != Single(JsonKind)
    ensures var judged := JudgePlain(s, s);
            || judged.Admitted?
            || (s.items.Some? && judged == Then(s.items.value, s.items.value))
            || (s.additional.Some? && judged == Then(s.additional.value, s.additional.value))
  {
    var kinds := KindsOf(s).value;
    assert forall i | 0 <= i < |kinds| :: KindAdmits(kinds[i], kinds[i], AllIntegers(MemberValues(s)));
    assert KeywordsAdmit(s, kinds, s, kinds);
  }

  // ---------------------------------------------------------------- recursive definitions

  const TEXT := Schema(None, Single(StringKind), None, None, None, None, None, None, Undeclared, {}, None, None, Undeclared)

  function To(name: string): Schema { TEXT.(typed := NoType, ref := Some(name)) }

  function ArrayOf(items: Schema): Schema { TEXT.(typed := Single(ArrayKind), items := Some(items)) }

  /** Two definitions of nested arrays, each of itself, the second by way of a third. */
  const NESTED: Defs := map["a" := ArrayOf(To("a")), "b" := ArrayOf(To("c")), "c" := To("b")]

  /** Recursive definitions that differ in name, and in how they refer to themselves, admit one another. */
  lemma {:induction false} RecursiveAdmitted()
    ensures Admits(NESTED, To("a"), To("b")) == Yes == Admits(NESTED, To("b"), To("a"))
  {
    NestedJudged();
    RoundIsAdmitted(NESTED, (To("a"), To("b")), (To("a"), To("c")), (ArrayOf(To("a")), ArrayOf(To("c"))));
    RoundIsAdmitted(NESTED, (To("b"), To("a")), (To("c"), To("a")), (ArrayOf(To("c")), ArrayOf(To("a"))));
  }

  /** Two pairs that come back to one another are admitted, whatever leads to them. */
  lemma {:induction false} RoundIsAdmitted(defs: Defs, first: (Schema, Schema), back: (Schema, Schema), end: (Schema, Schema))
    requires Judge(defs, first.0, first.1) == Then(end.0, end.1) == Judge(defs, back.0, back.1)
    requires Judge(defs, end.0, end.1) == Then(back.0, back.1)
    ensures Admits(defs, first.0, first.1) == Yes
  {
    var pairs: Pairs := {first, back, end};
    forall p | p in pairs
      ensures var judged := Judge(defs, p.0, p.1); judged.Then? && (judged.values, judged.member) in pairs
    {
      if p != end { assert Judge(defs, p.0, p.1) == Then(end.0, end.1); }
      assert back == (back.0, back.1) && end == (end.0, end.1);
    }
    assert first == (first.0, first.1);
    AdmitsExactlyWhenSimulated(defs, first.0, first.1);
  }

  lemma {:induction false} ReferencesJudged(defs: Defs, values: Schema, member: Schema, valuesEnd: Schema, memberEnd: Schema)
    requires values.ref.Some? && member.ref.Some? && values.ref != member.ref && values.typed == NoType
    requires Dereferenced(defs, values) == Some(valuesEnd) && Dereferenced(defs, member) == Some(memberEnd)
    requires !SameDefinition(defs, values, member)
    ensures Judge(defs, values, member) == Then(valuesEnd, memberEnd)
  {
  }

  lemma {:induction false} ArraysJudged(defs: Defs, values: Schema, member: Schema)
    requires IsBare(values, ArrayKind) && IsBare(member, ArrayKind) && values.items.Some? && member.items.Some?
    ensures Judge(defs, values, member) == Then(values.items.value, member.items.value)
  {
    BareKeywords(values, member, ArrayKind);
  }

  lemma {:induction false} NestedJudged()
    ensures Judge(NESTED, To("a"), To("b")) == Then(ArrayOf(To("a")), ArrayOf(To("c"))) == Judge(NESTED, To("a"), To("c"))
    ensures Judge(NESTED, To("b"), To("a")) == Then(ArrayOf(To("c")), ArrayOf(To("a"))) == Judge(NESTED, To("c"), To("a"))
    ensures Judge(NESTED, ArrayOf(To("a")), ArrayOf(To("c"))) == Then(To("a"), To("c"))
    ensures Judge(NESTED, ArrayOf(To("c")), ArrayOf(To("a"))) == Then(To("c"), To("a"))
  {
    NestedEnds();
    var a, b, c := ArrayOf(To("a")), ArrayOf(To("c")), To("c");
    ReferencesJudged(NESTED, To("a"), To("b"), a, b);
    ReferencesJudged(NESTED, To("a"), c, a, b);
    ReferencesJudged(NESTED, To("b"), To("a"), b, a);
    ReferencesJudged(NESTED, c, To("a"), b, a);
    ArraysJudged(NESTED, a, b);
    ArraysJudged(NESTED, b, a);
  }

  lemma {:induction false} NestedLinks()
    ensures LinksOf(NESTED) == map["a" := None, "b" := None, "c" := Some("b")]
  {
  }

  lemma {:induction false} NestedEnds()
    ensures var links := LinksOf(NESTED); Last(links, "a", {}) == Some("a") && Last(links, "b", {}) == Some("b") == Last(links, "c", {})
    ensures Dereferenced(NESTED, To("a")) == Some(ArrayOf(To("a")))
    ensures Dereferenced(NESTED, To("b")) == Some(ArrayOf(To("c"))) == Dereferenced(NESTED, To("c"))
  {
    NestedLinks();
    var links := LinksOf(NESTED);
    assert Last(links, "b", {"c"}) == Some("b");
    assert Last(links, "c", {}) == Last(links, "b", {} + {"c"});
  }
}
