/** The generator's samples: one value of each schema, for the conformance fixtures. */
module Samples {
  import opened Wrappers
  import opened Schemas
  import opened ReferenceChains

  // ---------------------------------------------------------------- numbers

  predicate InBounds(schema: Schema, r: real) {
    && (schema.minimum.Some? ==> r >= schema.minimum.value)
    && (schema.maximum.Some? ==> r <= schema.maximum.value)
  }

  predicate FitsI64(r: real) { -9223372036854775808.0 <= r < 9223372036854775808.0 }

  predicate IsCandidate(schema: Schema, integer: bool, r: real) {
    InBounds(schema, r) && (integer ==> IsIntegral(r) && FitsI64(r))
  }

  function Distance(r: real): real { if r < 1.0 then 1.0 - r else r - 1.0 }

  /** 1, or the bound nearest it: refused exactly when the bounds leave no number, or no integer an
      `i64` holds, and otherwise the one of those nearest to 1. */
  method BoundedSample(schema: Schema, integer: bool) returns (sample: Option<real>)
    ensures sample == Bounded(schema, integer)
    ensures sample.Some? <==> exists r :: IsCandidate(schema, integer, r)
    ensures sample.Some? ==> IsCandidate(schema, integer, sample.value)
    ensures sample.Some? ==> forall r | IsCandidate(schema, integer, r) :: Distance(sample.value) <= Distance(r)
  {
    var number := 1.0;
    if schema.minimum.Some? && number < schema.minimum.value {
      number := if integer then Ceiling(schema.minimum.value) else schema.minimum.value;
    }
    if schema.maximum.Some? && number > schema.maximum.value {
      number := if integer then schema.maximum.value.Floor as real else schema.maximum.value;
    }
    NearestCandidate(schema, integer, number);
    if InBounds(schema, number) && (!integer || FitsI64(number)) {
      assert IsCandidate(schema, integer, number);
      return Some(number);
    }
    return None;
  }

  /** The number the bounds lead to from 1. */
  function Clamped(schema: Schema, integer: bool): real {
    var low := if schema.minimum.Some? && 1.0 < schema.minimum.value
               then (if integer then Ceiling(schema.minimum.value) else schema.minimum.value) else 1.0;
    if schema.maximum.Some? && low > schema.maximum.value
    then (if integer then schema.maximum.value.Floor as real else schema.maximum.value) else low
  }

  function Bounded(schema: Schema, integer: bool): Option<real> {
    var number := Clamped(schema, integer);
    if InBounds(schema, number) && (!integer || FitsI64(number)) then Some(number) else None
  }

  lemma {:induction false} NearestCandidate(schema: Schema, integer: bool, number: real)
    requires number == Clamped(schema, integer)
    ensures integer ==> IsIntegral(number)
    ensures forall r | IsCandidate(schema, integer, r) :: IsCandidate(schema, integer, number) && Distance(number) <= Distance(r)
  {
    WholeIsIntegral(1);
    if schema.minimum.Some? { IntegerBounds(1.0, schema.minimum.value); WholeIsIntegral((-schema.minimum.value).Floor); }
    if schema.maximum.Some? { IntegerBounds(1.0, schema.maximum.value); WholeIsIntegral(schema.maximum.value.Floor); }
    forall r | IsCandidate(schema, integer, r) ensures IsCandidate(schema, integer, number) && Distance(number) <= Distance(r) {
      if integer {
        if schema.minimum.Some? { IntegerBounds(r, schema.minimum.value); }
        if schema.maximum.Some? { IntegerBounds(r, schema.maximum.value); }
      }
    }
  }

  // ---------------------------------------------------------------- samples

  /** What sampling comes to; a schema that requires its own values is never done. */
  datatype Outcome = Sampled(value: Json) | Refused | Unfinished

  /** What free strings are named by: the suffix, and a property's name in lower-case words. */
  datatype Naming = Naming(suffix: Option<string>, kebab: string -> string)

  const STRING_LIMIT := 1048576

  function FreeText(naming: Naming, key: Option<string>): string {
    match (naming.suffix, key)
    case (None, _) => "fixture"
    case (Some(suffix), Some(name)) => naming.kebab(name) + "-" + suffix
    case (Some(suffix), None) => suffix + "-value"
  }

  function Padding(n: int): string { if n <= 0 then "" else Padding(n - 1) + "x" }

  lemma {:induction false} PaddingLength(n: int)
    ensures |Padding(n)| == if n <= 0 then 0 else n
  {
    if n > 0 { PaddingLength(n - 1); }
  }

  function SampleText(schema: Schema, naming: Naming, key: Option<string>): Outcome {
    var least := if schema.minLength.Some? then schema.minLength.value else 0.0;
    if least > STRING_LIMIT as real then Refused
    else
      var text := FreeText(naming, key);
      Sampled(Text(text + Padding(least.Floor - |text|)))
  }

  /** A sample of one primitive kind, under the schema's bounds. */
  function SampleScalar(schema: Schema, kind: Kind, naming: Naming, key: Option<string>): Outcome {
    match kind
    case StringKind => SampleText(schema, naming, key)
    case BooleanKind => Sampled(Bool(true))
    case JsonKind => Sampled(Null)
    case _ =>
      var number := Bounded(schema, kind == IntegerKind);
      if number.Some? then Sampled(Num(number.value)) else Refused
  }

  /** A sample of the first kind the constraints leave values of. */
  function SampleUnion(schema: Schema, kinds: seq<Kind>, naming: Naming, key: Option<string>): Outcome {
    if kinds == [] then Refused
    else
      var sample := SampleScalar(schema, kinds[0], naming, key);
      if sample.Sampled? then sample else SampleUnion(schema, kinds[1..], naming, key)
  }

  function FirstMeeting(schema: Schema, values: seq<Json>): Option<Json> {
    if values == [] then None
    else if MeetsBounds(schema, values[0]) then Some(values[0])
    else FirstMeeting(schema, values[1..])
  }

  function AtLeast(names: set<string>, length: nat): set<string> { set n | n in names && |n| >= length }

  /** A name no declared member has. */
  function FreeName(names: set<string>, name: string): (free: string)
    ensures free !in names
    decreases AtLeast(names, |name|)
  {
    if name in names then
      assert name in AtLeast(names, |name|) && name !in AtLeast(names, |name + "-"|);
      assert AtLeast(names, |name + "-"|) <= AtLeast(names, |name|);
      FreeName(names, name + "-")
    else name
  }

  /** One value of the schema, sampling no deeper than `depth`. */
  ghost function Sample(defs: Defs, schema: Schema, naming: Naming, key: Option<string>, extend: bool, depth: nat): Outcome
    decreases depth, 1
  {
    if depth == 0 then Unfinished
    else if schema.ref.Some? then
      if schema.ref.value in defs then Sample(defs, defs[schema.ref.value], naming, key, extend, depth - 1) else Refused
    else if schema.constant.Some? then Sampled(schema.constant.value)
    else if schema.listed.Some? then
      match FirstMeeting(schema, schema.listed.value)
      case Some(value) => Sampled(value)
      case None => Refused
    else match schema.typed
      case NoType => Refused
      case Union(kinds) => if KindsOf(schema).Some? then SampleUnion(schema, kinds, naming, key) else Refused
      case Single(ArrayKind) =>
        if schema.items.None? then Refused
        else (match Sample(defs, schema.items.value, naming, None, extend, depth - 1)
              case Sampled(item) => Sampled(List([item]))
              case other => other)
      case Single(ObjectKind) =>
        if schema.oneOf.Declared? then SampleVariant(defs, schema, naming, key, extend, depth)
        else SampleObject(defs, schema, naming, extend, depth)
      case Single(kind) => SampleScalar(schema, kind, naming, key)
  }

  /** The first variant's tag, in the order they were declared in. */
  ghost function FirstTag(variants: map<string, Schema>): (tag: string)
    requires variants != map[]
    ensures tag in variants
  {
    var tag :| tag in variants; tag
  }

  /** A sample of the first variant, with its tag. */
  ghost function SampleVariant(defs: Defs, schema: Schema, naming: Naming, key: Option<string>, extend: bool, depth: nat): Outcome
    requires depth > 0 && schema.oneOf.Declared?
    decreases depth, 0
  {
    if schema.oneOf.fields == map[] || schema.discriminator.None? then Refused
    else
      var tag := FirstTag(schema.oneOf.fields);
      match Sample(defs, schema.oneOf.fields[tag], naming, key, extend, depth - 1)
      case Sampled(Object(members)) => Sampled(Object(map[schema.discriminator.value := Text(tag)] + members))
      case Sampled(_) => Sampled(Object(map[schema.discriminator.value := Text(tag)]))
      case other => other
  }

  function Fields(schema: Schema): map<string, Schema> { if schema.properties.Declared? then schema.properties.fields else map[] }

  predicate HasOther(schema: Schema, extend: bool) { extend && schema.properties.Declared? && schema.additional.Some? }

  /** The members required, and of an open object one more. */
  ghost function SampleObject(defs: Defs, schema: Schema, naming: Naming, extend: bool, depth: nat): Outcome
    requires depth > 0
    decreases depth, 0
  {
    Assembled(MemberSamples(defs, schema, naming, extend, depth - 1), OtherName(schema), OtherSample(defs, schema, naming, extend, depth - 1))
  }

  function OtherName(schema: Schema): string { FreeName(Fields(schema).Keys, "other-member") }

  ghost function OtherSample(defs: Defs, schema: Schema, naming: Naming, extend: bool, depth: nat): Option<Outcome>
    decreases depth, 3
  {
    if HasOther(schema, extend) then Some(SampleOther(defs, schema.additional.value, naming, OtherName(schema), depth)) else None
  }

  ghost function MemberSamples(defs: Defs, schema: Schema, naming: Naming, extend: bool, depth: nat): map<string, Outcome>
    decreases depth, 2
  {
    map k | k in Fields(schema) && k in schema.required :: Sample(defs, Fields(schema)[k], naming, Some(k), extend, depth)
  }

  /** The sample of an object, of the samples of its members. */
  function Assembled(samples: map<string, Outcome>, name: string, other: Option<Outcome>): Outcome {
    if exists k | k in samples :: samples[k].Refused? then Refused
    else if exists k | k in samples :: samples[k].Unfinished? then Unfinished
    else
      var members := map k | k in samples && samples[k].Sampled? :: samples[k].value;
      match other
      case None => Sampled(Object(members))
      case Some(Sampled(value)) => Sampled(Object(members[name := value]))
      case Some(outcome) => outcome
  }

  /** The sample of an open object's other members. */
  ghost function SampleOther(defs: Defs, others: Schema, naming: Naming, name: string, depth: nat): Outcome
    decreases depth, 2
  {
    if others.typed == Single(JsonKind) then Sampled(Text("other-value")) else Sample(defs, others, naming, Some(name), false, depth)
  }

  // ---------------------------------------------------------------- a sample is a value

  /** The tagged union's sample is one of its values: what it requires beside its variants is the tag
      or a member its first variant requires, and a constant it declares is a value of its variants.
      Validation looks at neither, and the sampler takes the constant. */
  ghost predicate UnionSound(defs: Defs, schema: Schema)
    requires schema.oneOf.Declared? && schema.oneOf.fields != map[] && schema.discriminator.Some?
  {
    match schema.constant
    case None => schema.required <= {schema.discriminator.value} + schema.oneOf.fields[FirstTag(schema.oneOf.fields)].required
    case Some(value) => Satisfies(defs, schema.(constant := None), value)
  }

  /** Every tagged union the sampler comes to is sound. */
  ghost predicate MeetsSound(defs: Defs, schema: Schema, extend: bool, depth: nat)
    decreases depth, 1
  {
    if depth == 0 then true
    else if schema.ref.Some? then schema.ref.value in defs ==> MeetsSound(defs, defs[schema.ref.value], extend, depth - 1)
    else if schema.oneOf.Declared? && schema.oneOf.fields != map[] && schema.discriminator.Some? then
      && UnionSound(defs, schema)
      && (schema.constant.None? ==> MeetsSound(defs, schema.oneOf.fields[FirstTag(schema.oneOf.fields)], extend, depth - 1))
    else if schema.typed == Single(ArrayKind) then
      schema.items.Some? ==> MeetsSound(defs, schema.items.value, extend, depth - 1)
    else if schema.typed == Single(ObjectKind) then MembersSound(defs, schema, extend, depth)
    else true
  }

  ghost predicate MembersSound(defs: Defs, schema: Schema, extend: bool, depth: nat)
    requires depth > 0
    decreases depth, 0
  {
    && (forall k | k in Fields(schema) && k in schema.required :: MeetsSound(defs, Fields(schema)[k], extend, depth - 1))
    && (HasOther(schema, extend) && schema.additional.value.typed != Single(JsonKind) ==>
          MeetsSound(defs, schema.additional.value, false, depth - 1))
  }

  /** Every tagged union of the schema, or nested in it, is sound. */
  ghost predicate UnionsSound(defs: Defs, schema: Schema)
    decreases schema
  {
    && (schema.oneOf.Declared? && schema.oneOf.fields != map[] && schema.discriminator.Some? ==> UnionSound(defs, schema))
    && (schema.items.Some? ==> UnionsSound(defs, schema.items.value))
    && (schema.additional.Some? ==> UnionsSound(defs, schema.additional.value))
    && (schema.properties.Declared? ==> forall k | k in schema.properties.fields :: UnionsSound(defs, schema.properties.fields[k]))
    && (schema.oneOf.Declared? ==> forall t | t in schema.oneOf.fields :: UnionsSound(defs, schema.oneOf.fields[t]))
  }

  ghost predicate AllSound(defs: Defs) { forall n | n in defs :: UnionsSound(defs, defs[n]) }

  lemma {:induction false} FirstMeetingMeets(schema: Schema, values: seq<Json>)
    ensures FirstMeeting(schema, values).Some? ==> FirstMeeting(schema, values).value in values && MeetsBounds(schema, FirstMeeting(schema, values).value)
  {
    if values != [] { FirstMeetingMeets(schema, values[1..]); }
  }

  lemma {:induction false} TextMeets(schema: Schema, naming: Naming, key: Option<string>)
    requires schema.minLength.Some? ==> IsIntegral(schema.minLength.value)
    ensures SampleText(schema, naming, key).Sampled? ==>
              SampleText(schema, naming, key).value.Text? && MeetsBounds(schema, SampleText(schema, naming, key).value)
  {
    if schema.minLength.Some? {
      PaddingLength(schema.minLength.value.Floor - |FreeText(naming, key)|);
    }
  }

  lemma {:induction false} ScalarMeets(schema: Schema, kind: Kind, naming: Naming, key: Option<string>)
    requires schema.minLength.Some? ==> IsIntegral(schema.minLength.value)
    requires IsPrimitive(kind) || kind == JsonKind
    ensures SampleScalar(schema, kind, naming, key).Sampled? ==>
              HasKind(SampleScalar(schema, kind, naming, key).value, kind) && MeetsBounds(schema, SampleScalar(schema, kind, naming, key).value)
  {
    TextMeets(schema, naming, key);
    NearestCandidate(schema, kind == IntegerKind, Clamped(schema, kind == IntegerKind));
  }

  lemma {:induction false} UnionMeets(schema: Schema, kinds: seq<Kind>, naming: Naming, key: Option<string>)
    requires schema.minLength.Some? ==> IsIntegral(schema.minLength.value)
    requires forall i | 0 <= i < |kinds| :: IsPrimitive(kinds[i])
    ensures SampleUnion(schema, kinds, naming, key).Sampled? ==>
              HasSomeKind(SampleUnion(schema, kinds, naming, key).value, kinds) && MeetsBounds(schema, SampleUnion(schema, kinds, naming, key).value)
  {
    if kinds != [] {
      ScalarMeets(schema, kinds[0], naming, key);
      UnionMeets(schema, kinds[1..], naming, key);
      var rest := SampleUnion(schema, kinds[1..], naming, key);
      if rest.Sampled? {
        var i :| 0 <= i < |kinds[1..]| && HasKind(rest.value, kinds[1..][i]);
        assert kinds[1..][i] == kinds[i + 1];
      }
    }
  }

  /** What is sampled of a validated schema is one of its values exactly when every tagged union the
      sampler comes to is sound. */
  lemma {:induction false} SampleIsValueExactly(defs: Defs, schema: Schema, naming: Naming, key: Option<string>, extend: bool, depth: nat)
    requires AllValid(defs) && Valid(schema)
    ensures Sample(defs, schema, naming, key, extend, depth).Sampled? ==>
              (Satisfies(defs, schema, Sample(defs, schema, naming, key, extend, depth).value) <==> MeetsSound(defs, schema, extend, depth))
    decreases depth, 1
  {
    if depth > 0 {
      if schema.ref.Some? {
        if schema.ref.value in defs { ReferenceIsValue(defs, schema, naming, key, extend, depth); }
      } else if schema.constant.Some? && IsTaggedUnion(schema) {
        ConstantIsValue(defs, schema, schema.constant.value);
      } else if schema.constant.Some? || schema.listed.Some? || !IsNested(schema) {
        ScalarIsValue(defs, schema, naming, key, extend, depth);
      } else if schema.typed == Single(ArrayKind) {
        ArrayIsValue(defs, schema, naming, key, extend, depth);
      } else if schema.oneOf.Declared? {
        VariantIsValue(defs, schema, naming, key, extend, depth);
      } else {
        ObjectIsValue(defs, schema, naming, extend, depth);
      }
    }
  }

  /** Whatever is sampled of a validated schema whose unions are sound is one of its values. */
  lemma {:induction false} SampleIsValue(defs: Defs, schema: Schema, naming: Naming, key: Option<string>, extend: bool, depth: nat)
    requires AllValid(defs) && AllSound(defs) && Valid(schema) && UnionsSound(defs, schema)
    ensures Sample(defs, schema, naming, key, extend, depth).Sampled? ==>
              Satisfies(defs, schema, Sample(defs, schema, naming, key, extend, depth).value)
  {
    SampleIsValueExactly(defs, schema, naming, key, extend, depth);
    SoundIsMet(defs, schema, extend, depth);
  }

  /** A tagged union's sample, when the unions inside it are sound, is a value exactly when it has no
      constant and requires at most the tag and what its first variant requires, or when its constant
      is a value of its variants. */
  lemma {:induction false} UnionSampleExactly(defs: Defs, schema: Schema, naming: Naming, key: Option<string>, extend: bool, depth: nat)
    requires AllValid(defs) && AllSound(defs) && Valid(schema) && schema.ref.None? && IsTaggedUnion(schema) && depth > 0
    requires forall t | t in schema.oneOf.fields :: UnionsSound(defs, schema.oneOf.fields[t])
    ensures Sample(defs, schema, naming, key, extend, depth).Sampled? ==>
              (Satisfies(defs, schema, Sample(defs, schema, naming, key, extend, depth).value) <==>
               match schema.constant
               case None => schema.required <= {schema.discriminator.value} + schema.oneOf.fields[FirstTag(schema.oneOf.fields)].required
               case Some(value) => Satisfies(defs, schema.(constant := None), value))
  {
    SampleIsValueExactly(defs, schema, naming, key, extend, depth);
    SoundIsMet(defs, schema.oneOf.fields[FirstTag(schema.oneOf.fields)], extend, depth - 1);
  }

  lemma {:induction false} SoundIsMet(defs: Defs, schema: Schema, extend: bool, depth: nat)
    requires AllSound(defs) && UnionsSound(defs, schema)
    ensures MeetsSound(defs, schema, extend, depth)
    decreases depth
  {
    if depth > 0 {
      if schema.ref.Some? {
        if schema.ref.value in defs { SoundIsMet(defs, defs[schema.ref.value], extend, depth - 1); }
      } else if schema.oneOf.Declared? && schema.oneOf.fields != map[] && schema.discriminator.Some? {
        SoundIsMet(defs, schema.oneOf.fields[FirstTag(schema.oneOf.fields)], extend, depth - 1);
      } else if schema.typed == Single(ArrayKind) {
        if schema.items.Some? { SoundIsMet(defs, schema.items.value, extend, depth - 1); }
      } else {
        forall k | k in Fields(schema) ensures MeetsSound(defs, Fields(schema)[k], extend, depth - 1) {
          SoundIsMet(defs, Fields(schema)[k], extend, depth - 1);
        }
        if schema.additional.Some? { SoundIsMet(defs, schema.additional.value, false, depth - 1); }
      }
    }
  }

  predicate IsNested(schema: Schema) { schema.typed == Single(ArrayKind) || schema.typed == Single(ObjectKind) }

  lemma {:induction false} ReferenceIsValue(defs: Defs, schema: Schema, naming: Naming, key: Option<string>, extend: bool, depth: nat)
    requires AllValid(defs) && schema.ref.Some? && schema.ref.value in defs && depth > 0
    ensures Sample(defs, schema, naming, key, extend, depth).Sampled? ==>
              (Satisfies(defs, schema, Sample(defs, schema, naming, key, extend, depth).value) <==> MeetsSound(defs, schema, extend, depth))
    decreases depth, 0
  {
    var target := defs[schema.ref.value];
    SampleIsValueExactly(defs, target, naming, key, extend, depth - 1);
    if Sample(defs, target, naming, key, extend, depth - 1).Sampled? {
      SampledEnds(defs, target, naming, key, extend, depth - 1);
      ReferenceLeadsOn(defs, schema);
    }
  }

  /** Only a chain of references that ends is sampled. */
  lemma {:induction false} SampledEnds(defs: Defs, schema: Schema, naming: Naming, key: Option<string>, extend: bool, depth: nat)
    requires Sample(defs, schema, naming, key, extend, depth).Sampled?
    ensures Dereferenced(defs, schema).Some?
    decreases depth
  {
    if schema.ref.Some? {
      SampledEnds(defs, defs[schema.ref.value], naming, key, extend, depth - 1);
      ReferenceLeadsOn(defs, schema);
    }
  }

  /** A constant beside variants is a value of the union exactly when it is one of the variants alone. */
  lemma {:induction false} ConstantIsValue(defs: Defs, schema: Schema, value: Json)
    requires schema.ref.None? && schema.typed == Single(ObjectKind) && schema.oneOf.Declared? && schema.constant == Some(value)
    ensures Satisfies(defs, schema, value) <==> Satisfies(defs, schema.(constant := None), value)
  {
    assert MeetsKeywords(schema, value) <==> MeetsKeywords(schema.(constant := None), value) by {
      assert KindsOf(schema) == KindsOf(schema.(constant := None));
    }
  }

  lemma {:induction false} ScalarIsValue(defs: Defs, schema: Schema, naming: Naming, key: Option<string>, extend: bool, depth: nat)
    requires Checked(schema) && (IsTaggedUnion(schema) ==> schema.constant.None?) && schema.ref.None? && depth > 0
    requires schema.constant.Some? || schema.listed.Some? || !IsNested(schema)
    ensures MeetsSound(defs, schema, extend, depth)
    ensures Sample(defs, schema, naming, key, extend, depth).Sampled? ==>
              Satisfies(defs, schema, Sample(defs, schema, naming, key, extend, depth).value)
  {
    var sample := Sample(defs, schema, naming, key, extend, depth);
    if schema.constant.Some? {
      assert IsPrimitive(KindsOf(schema).value[0]);
    } else if schema.listed.Some? {
      FirstMeetingMeets(schema, schema.listed.value);
      assert sample.Sampled? ==> HasKind(sample.value, KindsOf(schema).value[0]);
    } else if schema.typed.Union? {
      UnionMeets(schema, schema.typed.kinds, naming, key);
    } else {
      ScalarMeets(schema, schema.typed.kind, naming, key);
      assert sample.Sampled? ==> HasKind(sample.value, KindsOf(schema).value[0]);
    }
  }

  lemma {:induction false} ArrayIsValue(defs: Defs, schema: Schema, naming: Naming, key: Option<string>, extend: bool, depth: nat)
    requires AllValid(defs) && Valid(schema) && depth > 0
    requires schema.ref.None? && schema.typed == Single(ArrayKind) && schema.constant.None? && schema.listed.None?
    ensures Sample(defs, schema, naming, key, extend, depth).Sampled? ==>
              (Satisfies(defs, schema, Sample(defs, schema, naming, key, extend, depth).value) <==> MeetsSound(defs, schema, extend, depth))
    decreases depth, 0
  {
    SampleIsValueExactly(defs, schema.items.value, naming, None, extend, depth - 1);
    var sample := Sample(defs, schema, naming, key, extend, depth);
    if sample.Sampled? {
      assert HasKind(sample.value, KindsOf(schema).value[0]);
      assert Satisfies(defs, schema, sample.value) <==> Satisfies(defs, schema.items.value, sample.value.items[0]);
    }
  }

  lemma {:induction false} VariantIsValue(defs: Defs, schema: Schema, naming: Naming, key: Option<string>, extend: bool, depth: nat)
    requires AllValid(defs) && Valid(schema) && depth > 0
    requires schema.ref.None? && schema.typed == Single(ObjectKind) && schema.oneOf.Declared? && schema.constant.None?
    ensures SampleVariant(defs, schema, naming, key, extend, depth).Sampled? ==>
              (Satisfies(defs, schema, SampleVariant(defs, schema, naming, key, extend, depth).value) <==> MeetsSound(defs, schema, extend, depth))
    decreases depth, 0
  {
    var tag := FirstTag(schema.oneOf.fields);
    var variant := schema.oneOf.fields[tag];
    var inner := Sample(defs, variant, naming, key, extend, depth - 1);
    if inner.Sampled? {
      SampleIsValueExactly(defs, variant, naming, key, extend, depth - 1);
      VariantExactly(defs, schema, tag, naming, key, extend, depth);
    }
  }

  lemma {:induction false} VariantExactly(defs: Defs, schema: Schema, tag: string, naming: Naming, key: Option<string>, extend: bool, depth: nat)
    requires Checked(schema) && schema.ref.None? && schema.oneOf.Declared? && schema.constant.None? && depth > 0
    requires tag in schema.oneOf.fields && Checked(schema.oneOf.fields[tag])
    requires Sample(defs, schema.oneOf.fields[tag], naming, key, extend, depth - 1).Sampled?
    ensures var value := Sample(defs, schema.oneOf.fields[tag], naming, key, extend, depth - 1).value;
            value.Object? && (Satisfies(defs, schema, Object(map[schema.discriminator.value := Text(tag)] + value.members)) <==>
                              && Satisfies(defs, schema.oneOf.fields[tag], value)
                              && schema.required <= {schema.discriminator.value} + schema.oneOf.fields[tag].required)
  {
    assert IsVariant(schema.oneOf.fields[tag], schema.discriminator.value);
    VariantMembers(defs, schema.oneOf.fields[tag], schema.discriminator.value, naming, key, extend, depth - 1);
    TaggedIsValue(defs, schema, tag, Sample(defs, schema.oneOf.fields[tag], naming, key, extend, depth - 1).value.members);
  }

  /** A variant's sample has the members the variant requires and no others. */
  lemma {:induction false} VariantMembers(defs: Defs, variant: Schema, name: string, naming: Naming, key: Option<string>, extend: bool, depth: nat)
    requires Checked(variant) && IsVariant(variant, name) && Sample(defs, variant, naming, key, extend, depth).Sampled?
    ensures var value := Sample(defs, variant, naming, key, extend, depth).value;
            value.Object? && value.members.Keys == variant.required && name !in variant.required
  {
    assert KindsOf(variant).value[0] == ObjectKind;
    var samples := MemberSamples(defs, variant, naming, extend, depth - 1);
    assert samples.Keys == variant.required;
    assert OtherSample(defs, variant, naming, extend, depth - 1).None?;
  }

  /** A closed variant's members with the tag beside them are one of the union's values exactly when
      they are one of the variant's and the union requires nothing else. */
  lemma {:induction false} TaggedIsValue(defs: Defs, schema: Schema, tag: string, members: map<string, Json>)
    requires Checked(schema) && schema.ref.None? && schema.oneOf.Declared? && tag in schema.oneOf.fields && schema.constant.None?
    requires Checked(schema.oneOf.fields[tag])
    requires schema.discriminator.value !in members && members.Keys == schema.oneOf.fields[tag].required
    ensures Satisfies(defs, schema, Object(map[schema.discriminator.value := Text(tag)] + members)) <==>
            Satisfies(defs, schema.oneOf.fields[tag], Object(members))
            && schema.required <= {schema.discriminator.value} + schema.oneOf.fields[tag].required
  {
    var variant, name := schema.oneOf.fields[tag], schema.discriminator.value;
    var tagged := map[name := Text(tag)] + members;
    assert IsVariant(variant, name);
    assert KindsOf(variant).value[0] == ObjectKind;
    assert tagged.Keys == {name} + members.Keys;
    ObjectKeywords(schema, tagged);
    ObjectKeywords(variant, members);
    assert forall k | k in members :: tagged[k] == members[k];
    assert MembersSatisfy(defs, variant, tagged, Some(name)) <==> MembersSatisfy(defs, variant, members, None);
  }

  lemma {:induction false} ObjectKeywords(schema: Schema, members: map<string, Json>)
    requires schema.typed == Single(ObjectKind) && schema.constant.None? && schema.listed.None?
    ensures MeetsKeywords(schema, Object(members))
  {
    assert HasKind(Object(members), KindsOf(schema).value[0]);
  }

  lemma {:induction false} ObjectIsValue(defs: Defs, schema: Schema, naming: Naming, extend: bool, depth: nat)
    requires AllValid(defs) && Valid(schema) && depth > 0
    requires schema.ref.None? && schema.typed == Single(ObjectKind) && schema.oneOf.Undeclared?
    requires schema.constant.None? && schema.listed.None?
    ensures SampleObject(defs, schema, naming, extend, depth).Sampled? ==>
              (Satisfies(defs, schema, SampleObject(defs, schema, naming, extend, depth).value) <==> MembersSound(defs, schema, extend, depth))
    decreases depth, 0
  {
    MembersAreValues(defs, schema, naming, extend, depth - 1);
    OtherIsValue(defs, schema, naming, extend, depth - 1);
    AssembledExactly(defs, schema, MemberSamples(defs, schema, naming, extend, depth - 1), OtherName(schema),
                     OtherSample(defs, schema, naming, extend, depth - 1), extend, depth);
  }

  lemma {:induction false} AssembledExactly(
    defs: Defs, schema: Schema, samples: map<string, Outcome>, name: string, other: Option<Outcome>, extend: bool, depth: nat)
    requires Checked(schema) && schema.ref.None? && schema.typed == Single(ObjectKind) && schema.oneOf.Undeclared? && depth > 0
    requires schema.constant.None? && schema.listed.None? && name !in Fields(schema)
    requires samples.Keys == Fields(schema).Keys * schema.required
    requires forall k | k in samples && samples[k].Sampled? ::
               Satisfies(defs, Fields(schema)[k], samples[k].value) <==> MeetsSound(defs, Fields(schema)[k], extend, depth - 1)
    requires HasOther(schema, extend) <==> other.Some?
    requires other.Some? && other.value.Sampled? ==>
               (Satisfies(defs, schema.additional.value, other.value.value) <==>
                schema.additional.value.typed == Single(JsonKind) || MeetsSound(defs, schema.additional.value, false, depth - 1))
    ensures Assembled(samples, name, other).Sampled? ==>
              (Satisfies(defs, schema, Assembled(samples, name, other).value) <==> MembersSound(defs, schema, extend, depth))
  {
    AssembledIsValue(defs, schema, samples, name, other);
    if Assembled(samples, name, other).Sampled? { MembersSoundExactly(defs, schema, samples, other, extend, depth); }
  }

  lemma {:induction false} MembersSoundExactly(defs: Defs, schema: Schema, samples: map<string, Outcome>, other: Option<Outcome>, extend: bool, depth: nat)
    requires depth > 0 && samples.Keys == Fields(schema).Keys * schema.required
    requires forall k | k in samples ::
               samples[k].Sampled? && (Satisfies(defs, Fields(schema)[k], samples[k].value) <==> MeetsSound(defs, Fields(schema)[k], extend, depth - 1))
    requires HasOther(schema, extend) <==> other.Some?
    requires other.Some? ==>
               other.value.Sampled? && (Satisfies(defs, schema.additional.value, other.value.value) <==>
                                        schema.additional.value.typed == Single(JsonKind) || MeetsSound(defs, schema.additional.value, false, depth - 1))
    ensures MembersSound(defs, schema, extend, depth) <==>
            && (forall k | k in samples :: Satisfies(defs, Fields(schema)[k], samples[k].value))
            && (other.Some? ==> Satisfies(defs, schema.additional.value, other.value.value))
  {
  }

  lemma {:induction false} MembersAreValues(defs: Defs, schema: Schema, naming: Naming, extend: bool, depth: nat)
    requires AllValid(defs) && Valid(schema)
    ensures var samples := MemberSamples(defs, schema, naming, extend, depth);
            && samples.Keys == Fields(schema).Keys * schema.required
            && forall k | k in samples && samples[k].Sampled? ::
                 Satisfies(defs, Fields(schema)[k], samples[k].value) <==> MeetsSound(defs, Fields(schema)[k], extend, depth)
    decreases depth, 2
  {
    forall k | k in Fields(schema) && k in schema.required
      ensures Sample(defs, Fields(schema)[k], naming, Some(k), extend, depth).Sampled? ==>
                (Satisfies(defs, Fields(schema)[k], Sample(defs, Fields(schema)[k], naming, Some(k), extend, depth).value)
                 <==> MeetsSound(defs, Fields(schema)[k], extend, depth))
    {
      SampleIsValueExactly(defs, Fields(schema)[k], naming, Some(k), extend, depth);
    }
  }

  /** An object of samples is a value exactly when each sample is. */
  lemma {:induction false} AssembledIsValue(defs: Defs, schema: Schema, samples: map<string, Outcome>, name: string, other: Option<Outcome>)
    requires Checked(schema) && schema.ref.None? && schema.typed == Single(ObjectKind) && schema.oneOf.Undeclared?
    requires schema.constant.None? && schema.listed.None? && name !in Fields(schema)
    requires samples.Keys == Fields(schema).Keys * schema.required
    requires other.Some? ==> schema.additional.Some?
    ensures Assembled(samples, name, other).Sampled? ==>
              && (forall k | k in samples :: samples[k].Sampled?) && (other.Some? ==> other.value.Sampled?)
              && (Satisfies(defs, schema, Assembled(samples, name, other).value) <==>
                    && (forall k | k in samples :: Satisfies(defs, Fields(schema)[k], samples[k].value))
                    && (other.Some? ==> Satisfies(defs, schema.additional.value, other.value.value)))
  {
    var sample := Assembled(samples, name, other);
    if sample.Sampled? {
      var members := sample.value.members;
      ObjectKeywords(schema, members);
      assert Satisfies(defs, schema, sample.value) <==> MembersSatisfy(defs, schema, members, None);
      forall k | k in samples ensures k in members && members[k] == samples[k].value { }
      assert forall k | k in members :: k in samples || (other.Some? && k == name && members[k] == other.value.value);
      if MembersSatisfy(defs, schema, members, None) {
        forall k | k in samples ensures Satisfies(defs, Fields(schema)[k], samples[k].value) { assert MemberSatisfies(defs, schema, k, members[k]); }
        if other.Some? { assert MemberSatisfies(defs, schema, name, members[name]); }
      } else {
        assert schema.required <= members.Keys;
        var k :| k in members && !MemberSatisfies(defs, schema, k, members[k]);
        assert k in samples ==> !Satisfies(defs, Fields(schema)[k], samples[k].value);
      }
    }
  }

  lemma {:induction false} OtherIsValue(defs: Defs, schema: Schema, naming: Naming, extend: bool, depth: nat)
    requires AllValid(defs) && Valid(schema)
    ensures var other := OtherSample(defs, schema, naming, extend, depth);
            other.Some? && other.value.Sampled? ==>
              (Satisfies(defs, schema.additional.value, other.value.value) <==>
               schema.additional.value.typed == Single(JsonKind) || MeetsSound(defs, schema.additional.value, false, depth))
    decreases depth, 2
  {
    if HasOther(schema, extend) {
      var others := schema.additional.value;
      if others.typed == Single(JsonKind) {
        assert HasKind(Text("other-value"), KindsOf(others).value[0]);
      } else {
        SampleIsValueExactly(defs, others, naming, Some(OtherName(schema)), false, depth);
      }
    }
  }

  const TEXT_SCHEMA := Schema(None, Single(StringKind), None, None, None, None, None, None, Undeclared, {}, None, None, Undeclared)

  const EMPTY_VARIANT := TEXT_SCHEMA.(typed := Single(ObjectKind), properties := Declared(map[]))

  /** A union of one empty variant that declares a constant or required members beside it. */
  function StrayUnion(constant: Option<Json>, required: set<string>): Schema {
    TEXT_SCHEMA.(typed := Single(ObjectKind), constant := constant, required := required,
                 discriminator := Some("type"), oneOf := Declared(map["a" := EMPTY_VARIANT]))
  }

  /** Validation passes a union with a stray constant, and its sample is no value. */
  lemma {:induction false} StrayConstantIsNoValue(naming: Naming, key: Option<string>, extend: bool)
    ensures var union := StrayUnion(Some(Text("a")), {});
            Valid(union) && Sample(map[], union, naming, key, extend, 2) == Sampled(Text("a")) && !Satisfies(map[], union, Text("a"))
  {
    assert "a" in StrayUnion(Some(Text("a")), {}).oneOf.fields;
  }

  /** Validation passes a union with a stray required member, and its sample is no value. */
  lemma {:induction false} StrayRequirementIsNoValue(naming: Naming, key: Option<string>, extend: bool)
    ensures var union := StrayUnion(None, {"label"});
            && Valid(union) && Sample(map[], union, naming, key, extend, 2) == Sampled(Object(map["type" := Text("a")]))
            && !Satisfies(map[], union, Object(map["type" := Text("a")]))
  {
    var union := StrayUnion(None, {"label"});
    assert "a" in union.oneOf.fields;
    assert FirstTag(union.oneOf.fields) == "a";
    EmptyVariantSample(naming, key, extend);
    assert map["type" := Text("a")] + map[] == map["type" := Text("a")];
    assert "label" in union.required;
  }

  lemma {:induction false} EmptyVariantSample(naming: Naming, key: Option<string>, extend: bool)
    ensures Sample(map[], EMPTY_VARIANT, naming, key, extend, 1) == Sampled(Object(map[])) && Valid(EMPTY_VARIANT)
  {
    assert KindsOf(EMPTY_VARIANT).value == [ObjectKind];
    assert MemberSamples(map[], EMPTY_VARIANT, naming, extend, 0) == map[];
  }

  /** Sampling deeper changes nothing that was sampled or refused. */
  lemma {:induction false} DeeperIsSame(defs: Defs, schema: Schema, naming: Naming, key: Option<string>, extend: bool, depth: nat)
    ensures Sample(defs, schema, naming, key, extend, depth).Unfinished?
            || Sample(defs, schema, naming, key, extend, depth + 1) == Sample(defs, schema, naming, key, extend, depth)
    decreases depth, 1
  {
    if depth > 0 && schema.ref.Some? {
      if schema.ref.value in defs { DeeperIsSame(defs, defs[schema.ref.value], naming, key, extend, depth - 1); }
    } else if depth > 0 && schema.typed == Single(ArrayKind) {
      if schema.items.Some? { DeeperIsSame(defs, schema.items.value, naming, None, extend, depth - 1); }
    } else if depth > 0 && schema.typed == Single(ObjectKind) {
      if schema.oneOf.Declared? {
        DeeperVariant(defs, schema, naming, key, extend, depth);
      } else {
        DeeperObject(defs, schema, naming, extend, depth);
      }
    }
  }

  lemma {:induction false} DeeperVariant(defs: Defs, schema: Schema, naming: Naming, key: Option<string>, extend: bool, depth: nat)
    requires depth > 0 && schema.oneOf.Declared?
    ensures SampleVariant(defs, schema, naming, key, extend, depth).Unfinished?
            || SampleVariant(defs, schema, naming, key, extend, depth + 1) == SampleVariant(defs, schema, naming, key, extend, depth)
    decreases depth, 0
  {
    if schema.oneOf.fields != map[] {
      DeeperIsSame(defs, schema.oneOf.fields[FirstTag(schema.oneOf.fields)], naming, key, extend, depth - 1);
    }
  }

  lemma {:induction false} DeeperObject(defs: Defs, schema: Schema, naming: Naming, extend: bool, depth: nat)
    requires depth > 0
    ensures SampleObject(defs, schema, naming, extend, depth).Unfinished?
            || SampleObject(defs, schema, naming, extend, depth + 1) == SampleObject(defs, schema, naming, extend, depth)
    decreases depth, 0
  {
    var name := OtherName(schema);
    var now, later := MemberSamples(defs, schema, naming, extend, depth - 1), MemberSamples(defs, schema, naming, extend, depth);
    forall k | k in now ensures now[k].Unfinished? || later[k] == now[k] {
      DeeperIsSame(defs, Fields(schema)[k], naming, Some(k), extend, depth - 1);
    }
    if HasOther(schema, extend) {
      DeeperIsSame(defs, schema.additional.value, naming, Some(name), false, depth - 1);
      assert var now := SampleOther(defs, schema.additional.value, naming, name, depth - 1);
             now.Unfinished? || SampleOther(defs, schema.additional.value, naming, name, depth) == now;
    }
    AssembledSame(now, later, name, OtherSample(defs, schema, naming, extend, depth - 1), OtherSample(defs, schema, naming, extend, depth));
  }

  lemma {:induction false} AssembledSame(now: map<string, Outcome>, later: map<string, Outcome>, name: string, a: Option<Outcome>, b: Option<Outcome>)
    requires now.Keys == later.Keys && forall k | k in now :: now[k].Unfinished? || later[k] == now[k]
    requires a == b || (a.Some? && a.value.Unfinished?)
    ensures Assembled(now, name, a).Unfinished? || Assembled(later, name, b) == Assembled(now, name, a)
  {
    if k :| k in now && now[k].Refused? {
      assert later[k].Refused?;
    } else if forall k | k in now :: now[k].Sampled? {
      assert now == later;
    }
  }
}
