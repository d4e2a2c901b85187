/**
 When a schema is sampled, and what the sample looks like: each schema the sampler comes to must
 leave a value, an array's sample has one item, and an object's the members it requires and, where it
 is open and its sample extended, one it does not declare.
 */
module SampleShapes {
  import opened Wrappers
  import opened Schemas
  import opened ReferenceChains
  import opened Samples

  // ---------------------------------------------------------------- when there is a sample

  /** The schema's bounds leave a value of the kind that a fixture holds. */
  ghost predicate LeavesValue(schema: Schema, kind: Kind) {
    match kind
    case StringKind => schema.minLength.Some? ==> schema.minLength.value <= STRING_LIMIT as real
    case IntegerKind => exists r :: IsCandidate(schema, true, r)
    case NumberKind => exists r :: IsCandidate(schema, false, r)
    case _ => true
  }

  /** Every schema the sampler comes to leaves a value, no deeper than `depth`. */
  ghost predicate Samplable(defs: Defs, schema: Schema, extend: bool, depth: nat)
    decreases depth, 1
  {
    depth > 0
    && if schema.ref.Some? then schema.ref.value in defs && Samplable(defs, defs[schema.ref.value], extend, depth - 1)
       else if schema.constant.Some? then true
       else if schema.listed.Some? then exists value :: value in schema.listed.value && MeetsBounds(schema, value)
       else match schema.typed
         case NoType => false
         case Union(kinds) => exists kind :: kind in kinds && LeavesValue(schema, kind)
         case Single(ArrayKind) => schema.items.Some? && Samplable(defs, schema.items.value, extend, depth - 1)
         case Single(ObjectKind) =>
           if schema.oneOf.Declared?
           then schema.oneOf.fields != map[] && Samplable(defs, schema.oneOf.fields[FirstTag(schema.oneOf.fields)], extend, depth - 1)
           else RequiredSamplable(defs, schema, extend, depth - 1) && OtherSamplable(defs, schema, extend, depth - 1)
         case Single(kind) => LeavesValue(schema, kind)
  }

  /** The members required leave values. */
  ghost predicate RequiredSamplable(defs: Defs, schema: Schema, extend: bool, depth: nat)
    decreases depth, 2
  {
    forall k | k in Fields(schema) && k in schema.required :: Samplable(defs, Fields(schema)[k], extend, depth)
  }

  /** And so does the one more. */
  ghost predicate OtherSamplable(defs: Defs, schema: Schema, extend: bool, depth: nat)
    decreases depth, 2
  {
    HasOther(schema, extend) && schema.additional.value.typed != Single(JsonKind) ==> Samplable(defs, schema.additional.value, false, depth)
  }

  lemma {:induction false} ScalarExactly(schema: Schema, kind: Kind, naming: Naming, key: Option<string>)
    requires IsPrimitive(kind) || kind == JsonKind
    ensures SampleScalar(schema, kind, naming, key).Sampled? <==> LeavesValue(schema, kind)
    ensures SampleScalar(schema, kind, naming, key).Sampled? || SampleScalar(schema, kind, naming, key).Refused?
  {
    NearestCandidate(schema, kind == IntegerKind, Clamped(schema, kind == IntegerKind));
    var number := Bounded(schema, kind == IntegerKind);
    if number.Some? { assert IsCandidate(schema, kind == IntegerKind, number.value); }
  }

  /** A union's sample is of the first of its kinds that is left a value. */
  lemma {:induction false} UnionExactly(schema: Schema, kinds: seq<Kind>, naming: Naming, key: Option<string>)
    requires forall i | 0 <= i < |kinds| :: IsPrimitive(kinds[i])
    ensures SampleUnion(schema, kinds, naming, key).Sampled? <==> exists kind :: kind in kinds && LeavesValue(schema, kind)
    ensures forall i | 0 <= i < |kinds| && LeavesValue(schema, kinds[i]) && (forall j | 0 <= j < i :: !LeavesValue(schema, kinds[j])) ::
              SampleUnion(schema, kinds, naming, key) == SampleScalar(schema, kinds[i], naming, key)
  {
    if kinds != [] {
      ScalarExactly(schema, kinds[0], naming, key);
      UnionExactly(schema, kinds[1..], naming, key);
      assert forall kind :: kind in kinds <==> kind == kinds[0] || kind in kinds[1..];
      if !LeavesValue(schema, kinds[0]) {
        forall i | 0 <= i < |kinds| && LeavesValue(schema, kinds[i]) && (forall j | 0 <= j < i :: !LeavesValue(schema, kinds[j]))
          ensures SampleUnion(schema, kinds, naming, key) == SampleScalar(schema, kinds[i], naming, key)
        {
          assert kinds[1..][i - 1] == kinds[i];
          assert forall j | 0 <= j < i - 1 :: kinds[1..][j] == kinds[j + 1];
        }
      }
    }
  }

  /** An enumeration's sample is the first of its values within its bounds. */
  lemma {:induction false} ListedExactly(schema: Schema, values: seq<Json>)
    ensures FirstMeeting(schema, values).Some? <==> exists value :: value in values && MeetsBounds(schema, value)
    ensures forall i | 0 <= i < |values| && MeetsBounds(schema, values[i]) && (forall j | 0 <= j < i :: !MeetsBounds(schema, values[j])) ::
              FirstMeeting(schema, values) == Some(values[i])
  {
    if values != [] {
      ListedExactly(schema, values[1..]);
      assert forall value :: value in values <==> value == values[0] || value in values[1..];
      if !MeetsBounds(schema, values[0]) {
        forall i | 0 <= i < |values| && MeetsBounds(schema, values[i]) && (forall j | 0 <= j < i :: !MeetsBounds(schema, values[j]))
          ensures FirstMeeting(schema, values) == Some(values[i])
        {
          assert values[1..][i - 1] == values[i];
          assert forall j | 0 <= j < i - 1 :: values[1..][j] == values[j + 1];
        }
      }
    }
  }

  /** A validated schema is sampled exactly when every schema the sampler comes to leaves a value. */
  lemma {:induction false} SampledExactly(defs: Defs, schema: Schema, naming: Naming, key: Option<string>, extend: bool, depth: nat)
    requires AllValid(defs) && Valid(schema)
    ensures Sample(defs, schema, naming, key, extend, depth).Sampled? <==> Samplable(defs, schema, extend, depth)
    decreases depth, 1
  {
    if depth > 0 {
      if schema.ref.Some? {
        if schema.ref.value in defs { SampledExactly(defs, defs[schema.ref.value], naming, key, extend, depth - 1); }
      } else if schema.constant.Some? || schema.listed.Some? || !IsNested(schema) {
        LeafExactly(defs, schema, naming, key, extend, depth);
      } else if schema.typed == Single(ArrayKind) {
        SampledExactly(defs, schema.items.value, naming, None, extend, depth - 1);
      } else if schema.oneOf.Declared? {
        SampledExactly(defs, schema.oneOf.fields[FirstTag(schema.oneOf.fields)], naming, key, extend, depth - 1);
      } else {
        ObjectExactly(defs, schema, naming, extend, depth);
      }
    }
  }

  lemma {:induction false} LeafExactly(defs: Defs, schema: Schema, naming: Naming, key: Option<string>, extend: bool, depth: nat)
    requires Checked(schema) && schema.ref.None? && depth > 0
    requires schema.constant.Some? || schema.listed.Some? || !IsNested(schema)
    ensures Sample(defs, schema, naming, key, extend, depth).Sampled? <==> Samplable(defs, schema, extend, depth)
  {
    if schema.constant.None? && schema.listed.Some? {
      ListedExactly(schema, schema.listed.value);
    } else if schema.constant.None? && schema.typed.Union? {
      UnionExactly(schema, schema.typed.kinds, naming, key);
    } else if schema.constant.None? {
      ScalarExactly(schema, schema.typed.kind, naming, key);
    }
  }

  lemma {:induction false} ObjectExactly(defs: Defs, schema: Schema, naming: Naming, extend: bool, depth: nat)
    requires AllValid(defs) && Valid(schema) && depth > 0
    ensures SampleObject(defs, schema, naming, extend, depth).Sampled? <==>
            RequiredSamplable(defs, schema, extend, depth - 1) && OtherSamplable(defs, schema, extend, depth - 1)
    decreases depth, 0
  {
    var samples, other := MemberSamples(defs, schema, naming, extend, depth - 1), OtherSample(defs, schema, naming, extend, depth - 1);
    MembersExactly(defs, schema, naming, extend, depth - 1);
    OtherExactly(defs, schema, naming, extend, depth - 1);
    AssembledSampled(samples, OtherName(schema), other);
  }

  predicate AllSampled(samples: map<string, Outcome>) { forall k | k in samples :: samples[k].Sampled? }

  lemma {:induction false} MembersExactly(defs: Defs, schema: Schema, naming: Naming, extend: bool, depth: nat)
    requires AllValid(defs) && Valid(schema)
    ensures AllSampled(MemberSamples(defs, schema, naming, extend, depth)) <==> RequiredSamplable(defs, schema, extend, depth)
    decreases depth, 2
  {
    var samples := MemberSamples(defs, schema, naming, extend, depth);
    if AllSampled(samples) {
      forall k | k in Fields(schema) && k in schema.required ensures Samplable(defs, Fields(schema)[k], extend, depth) {
        assert k in samples && samples[k].Sampled?;
        SampledExactly(defs, Fields(schema)[k], naming, Some(k), extend, depth);
      }
    }
    if RequiredSamplable(defs, schema, extend, depth) {
      forall k | k in samples ensures samples[k].Sampled? {
        SampledExactly(defs, Fields(schema)[k], naming, Some(k), extend, depth);
      }
    }
  }

  lemma {:induction false} OtherExactly(defs: Defs, schema: Schema, naming: Naming, extend: bool, depth: nat)
    requires AllValid(defs) && Valid(schema)
    ensures (OtherSample(defs, schema, naming, extend, depth).Some? ==> OtherSample(defs, schema, naming, extend, depth).value.Sampled?) <==>
            OtherSamplable(defs, schema, extend, depth)
    decreases depth, 2
  {
    if HasOther(schema, extend) { SampledExactly(defs, schema.additional.value, naming, Some(OtherName(schema)), false, depth); }
  }

  /** An object of samples is one exactly when all its members are, and has those members. */
  lemma {:induction false} AssembledSampled(samples: map<string, Outcome>, name: string, other: Option<Outcome>)
    ensures Assembled(samples, name, other).Sampled? <==> AllSampled(samples) && (other.Some? ==> other.value.Sampled?)
    ensures Assembled(samples, name, other).Sampled? ==>
              && Assembled(samples, name, other).value.Object?
              && Assembled(samples, name, other).value.members.Keys == samples.Keys + (if other.Some? then {name} else {})
              && (forall k | k in samples && k != name :: samples[k] == Sampled(Assembled(samples, name, other).value.members[k]))
              && (other.Some? ==> other.value == Sampled(Assembled(samples, name, other).value.members[name]))
  {
    if Assembled(samples, name, other).Sampled? {
      assert forall k | k in samples :: samples[k].Sampled?;
    }
  }

  // ---------------------------------------------------------------- what a sample looks like

  /** An array's sample has one item, sampled of its items' schema. */
  lemma {:induction false} ArraySampleHasOneItem(defs: Defs, schema: Schema, naming: Naming, key: Option<string>, extend: bool, depth: nat)
    requires Checked(schema) && schema.ref.None? && schema.typed == Single(ArrayKind) && schema.constant.None? && depth > 0
    ensures var sample := Sample(defs, schema, naming, key, extend, depth);
            sample.Sampled? ==>
              && sample.value.List? && |sample.value.items| == 1
              && Sample(defs, schema.items.value, naming, None, extend, depth - 1) == Sampled(sample.value.items[0])
  {
  }

  /** An object's sample has the members it requires, sampled under their names, and no other but one,
      where the object declares members and allows others: that one has a name it does not declare,
      and is sampled of the schema for the others, or a text where that is opaque JSON. */
  lemma {:induction false} ObjectSampleMembers(defs: Defs, schema: Schema, naming: Naming, key: Option<string>, extend: bool, depth: nat)
    requires Checked(schema) && schema.ref.None? && schema.typed == Single(ObjectKind) && schema.oneOf.Undeclared?
    requires schema.constant.None? && schema.listed.None? && depth > 0
    requires Sample(defs, schema, naming, key, extend, depth).Sampled?
    ensures var sample, open, name := Sample(defs, schema, naming, key, extend, depth).value,
                                      extend && schema.properties.Declared? && schema.additional.Some?, OtherName(schema);
            && sample.Object? && sample.members.Keys == schema.required + (if open then {name} else {})
            && (schema.properties.Declared? ==> name !in schema.properties.fields)
            && (forall k | k in schema.required ::
                  Sample(defs, schema.properties.fields[k], naming, Some(k), extend, depth - 1) == Sampled(sample.members[k]))
            && (open ==>
                  if schema.additional.value.typed == Single(JsonKind) then sample.members[name] == Text("other-value")
                  else Sample(defs, schema.additional.value, naming, Some(name), false, depth - 1) == Sampled(sample.members[name]))
  {
    var samples, other := MemberSamples(defs, schema, naming, extend, depth - 1), OtherSample(defs, schema, naming, extend, depth - 1);
    AssembledSampled(samples, OtherName(schema), other);
    assert samples.Keys == schema.required && (other.Some? <==> HasOther(schema, extend));
    assert Sample(defs, schema, naming, key, extend, depth) == Assembled(samples, OtherName(schema), other);
    if other.Some? { assert other.value == SampleOther(defs, schema.additional.value, naming, OtherName(schema), depth - 1); }
  }

  /** A union's sample has its tag, the name of a variant, and the members of that variant's sample. */
  lemma {:induction false} UnionSampleMembers(defs: Defs, schema: Schema, naming: Naming, key: Option<string>, extend: bool, depth: nat)
    requires Valid(schema) && schema.ref.None? && schema.oneOf.Declared? && schema.constant.None? && depth > 0
    requires Sample(defs, schema, naming, key, extend, depth).Sampled?
    ensures var sample := Sample(defs, schema, naming, key, extend, depth).value;
            && sample.Object? && schema.discriminator.value in sample.members
            && exists tag :: tag in schema.oneOf.fields && sample.members[schema.discriminator.value] == Text(tag)
                 && Sample(defs, schema.oneOf.fields[tag], naming, key, extend, depth - 1) == Sampled(Object(sample.members - {schema.discriminator.value}))
  {
    var tag, name := FirstTag(schema.oneOf.fields), schema.discriminator.value;
    var variant := schema.oneOf.fields[tag];
    assert IsVariant(variant, name) && Checked(variant);
    VariantMembers(defs, variant, name, naming, key, extend, depth - 1);
    var members := Sample(defs, variant, naming, key, extend, depth - 1).value.members;
    assert (map[name := Text(tag)] + members) - {name} == members;
  }

  /** A boolean's sample is true and opaque JSON's null, a number's is a candidate and no candidate is nearer
      to 1. */
  lemma {:induction false} ScalarSampleIs(schema: Schema, kind: Kind, naming: Naming, key: Option<string>)
    requires LeavesValue(schema, kind)
    ensures match kind
            case BooleanKind => SampleScalar(schema, kind, naming, key) == Sampled(Bool(true))
            case JsonKind => SampleScalar(schema, kind, naming, key) == Sampled(Null)
            case IntegerKind => exists r :: SampleScalar(schema, kind, naming, key) == Sampled(Num(r)) && IsNearest(schema, true, r)
            case NumberKind => exists r :: SampleScalar(schema, kind, naming, key) == Sampled(Num(r)) && IsNearest(schema, false, r)
            case _ => true
  {
    NearestCandidate(schema, kind == IntegerKind, Clamped(schema, kind == IntegerKind));
    if kind == IntegerKind || kind == NumberKind {
      assert IsNearest(schema, kind == IntegerKind, Bounded(schema, kind == IntegerKind).value);
    }
  }

  ghost predicate IsNearest(schema: Schema, integer: bool, r: real) {
    IsCandidate(schema, integer, r) && forall other | IsCandidate(schema, integer, other) :: Distance(r) <= Distance(other)
  }

  /** A free text's sample begins with its name, a property's before the suffix and otherwise the suffix with
      `-value`, and has as many x behind it as its least length demands. */
  lemma {:induction false} TextSampleIs(schema: Schema, naming: Naming, key: Option<string>)
    requires schema.minLength.Some? ==> IsIntegral(schema.minLength.value) && 0.0 <= schema.minLength.value <= STRING_LIMIT as real
    ensures var text, name := SampleText(schema, naming, key).value.s, FreeText(naming, key);
            && |text| as real == (if schema.minLength.Some? && schema.minLength.value > |name| as real then schema.minLength.value else |name| as real)
            && text[..|name|] == name && forall i | |name| <= i < |text| :: text[i] == 'x'
    ensures naming.suffix.None? ==> FreeText(naming, key) == "fixture"
    ensures forall suffix | naming.suffix == Some(suffix) ::
              FreeText(naming, key) == if key.Some? then naming.kebab(key.value) + "-" + suffix else suffix + "-value"
  {
    var name, least := FreeText(naming, key), if schema.minLength.Some? then schema.minLength.value.Floor else 0;
    PaddingIs(least - |name|);
    assert (name + Padding(least - |name|))[..|name|] == name;
  }

  lemma {:induction false} PaddingIs(n: int)
    ensures |Padding(n)| == (if n <= 0 then 0 else n) && forall i | 0 <= i < |Padding(n)| :: Padding(n)[i] == 'x'
  {
    if n > 0 { PaddingIs(n - 1); }
  }
}
