/**
 The generator's schema subset: schemas with local references, the values they describe, and the
 chains of references that validation makes sure come to an end.
 */
module Schemas {
  import opened Wrappers

  /** JSON as the generator reads it: every number is one. */
  datatype Json =
    | Null
    | Bool(b: bool)
    | Num(r: real)
    | Text(s: string)
    | List(items: seq<Json>)
    | Object(members: map<string, Json>)

  datatype Kind = StringKind | BooleanKind | IntegerKind | NumberKind | ArrayKind | ObjectKind | JsonKind

  /** The `type` keyword: absent, a name, or the array of a primitive union. */
  datatype TypeKeyword = NoType | Single(kind: Kind) | Union(kinds: seq<Kind>)

  datatype Schema = Schema(
    ref: Option<string>,
    typed: TypeKeyword,
    listed: Option<seq<Json>>,
    constant: Option<Json>,
    minimum: Option<real>,
    maximum: Option<real>,
    minLength: Option<real>,
    items: Option<Schema>,
    properties: Declared,
    required: set<string>,
    additional: Option<Schema>,
    discriminator: Option<string>,
    oneOf: Declared)

  /** Schemas by name, if the keyword that holds them is there. */
  datatype Declared = Undeclared | Declared(fields: map<string, Schema>)

  type Defs = map<string, Schema>

  // ---------------------------------------------------------------- reading a schema

  predicate IsPrimitive(kind: Kind) { kind in {StringKind, BooleanKind, IntegerKind, NumberKind} }

  /** The kinds a schema's type names, none if it has no type; nothing for a union the subset refuses. */
  function KindsOf(schema: Schema): Option<seq<Kind>> {
    match schema.typed
    case NoType => Some([])
    case Single(kind) => Some([kind])
    case Union(kinds) =>
      if |kinds| >= 2 && (forall i | 0 <= i < |kinds| :: IsPrimitive(kinds[i]))
         && (forall i, j | 0 <= i < j < |kinds| :: kinds[i] != kinds[j])
      then Some(kinds) else None
  }

  function RecordValues(schema: Schema): Option<Schema> {
    if schema.typed == Single(ObjectKind) && schema.properties.Undeclared? then schema.additional else None
  }

  predicate IsIntegral(r: real) { r.Floor as real == r }

  function Ceiling(r: real): real { -((-r).Floor as real) }

  lemma {:induction false} IntegerBounds(r: real, bound: real)
    ensures Ceiling(bound) >= bound >= bound.Floor as real
    ensures IsIntegral(r) && r >= bound ==> r >= Ceiling(bound)
    ensures IsIntegral(r) && r <= bound ==> r <= bound.Floor as real
  {
    if IsIntegral(r) && r >= bound { assert (-bound).Floor >= -(r.Floor); }
  }

  lemma {:induction false} WholeIsIntegral(n: int)
    ensures IsIntegral(n as real) && IsIntegral(-(n as real))
  {
    assert -(n as real) == (-n) as real;
  }

  predicate IsInteger(value: Json) { value.Num? && IsIntegral(value.r) }

  /** The value meets the bounds that apply to its type. */
  predicate MeetsBounds(schema: Schema, value: Json) {
    match value
    case Text(s) => schema.minLength.Some? ==> |s| as real >= schema.minLength.value
    case Num(r) => (schema.minimum.Some? ==> r >= schema.minimum.value) && (schema.maximum.Some? ==> r <= schema.maximum.value)
    case _ => true
  }

  // ---------------------------------------------------------------- references

  /** What each definition refers to, if it is a reference. */
  type Links = map<string, Option<string>>

  function LinksOf(defs: Defs): Links { map n | n in defs :: defs[n].ref }

  /** The definition at the end of the chain from a name, if the chain meets no name twice and
      names nothing unknown. */
  function Last(links: Links, name: string, met: set<string>): (last: Option<string>)
    ensures last.Some? ==> last.value in links && links[last.value].None?
    decreases links.Keys - met
  {
    if name !in links || name in met then None
    else match links[name]
      case None => Some(name)
      case Some(next) => Last(links, next, met + {name})
  }

  /** The schema itself, or the one at the end of its chain of references. */
  function Dereferenced(defs: Defs, schema: Schema): (found: Option<Schema>)
    ensures found.Some? ==> found.value.ref.None?
  {
    match schema.ref
    case None => Some(schema)
    case Some(name) =>
      var last := Last(LinksOf(defs), name, {});
      if last.Some? then Some(defs[last.value]) else None
  }

  // ---------------------------------------------------------------- what a schema means

  predicate HasKind(value: Json, kind: Kind) {
    match kind
    case StringKind => value.Text?
    case BooleanKind => value.Bool?
    case IntegerKind => IsInteger(value)
    case NumberKind => value.Num?
    case ArrayKind => value.List?
    case ObjectKind => value.Object?
    case JsonKind => true
  }

  predicate HasSomeKind(value: Json, kinds: seq<Kind>) { exists i | 0 <= i < |kinds| :: HasKind(value, kinds[i]) }

  /** The value meets the keywords that look at nothing inside it. */
  predicate MeetsKeywords(schema: Schema, value: Json) {
    && KindsOf(schema).Some? && HasSomeKind(value, KindsOf(schema).value)
    && (schema.listed.Some? ==> value in schema.listed.value)
    && (schema.constant.Some? ==> value == schema.constant.value)
    && MeetsBounds(schema, value)
  }

  /** The value is one of the schema's. */
  predicate Satisfies(defs: Defs, schema: Schema, value: Json)
    decreases value, if schema.ref.Some? then 1 else 0
  {
    if schema.ref.Some? then
      Dereferenced(defs, schema).Some? && Satisfies(defs, Dereferenced(defs, schema).value, value)
    else
      MeetsKeywords(schema, value)
      && match schema.typed
         case Single(ArrayKind) =>
           value.List? && (schema.items.Some? ==> forall i | 0 <= i < |value.items| :: Satisfies(defs, schema.items.value, value.items[i]))
         case Single(ObjectKind) =>
           && value.Object? && schema.required <= value.members.Keys
           && if schema.oneOf.Declared? then
                && schema.discriminator.Some? && Member(value, schema.discriminator.value).Some?
                && Member(value, schema.discriminator.value).value.Text?
                && Member(value, schema.discriminator.value).value.s in schema.oneOf.fields
                && MembersSatisfy(defs, schema.oneOf.fields[Member(value, schema.discriminator.value).value.s],
                                  value.members, schema.discriminator)
              else MembersSatisfy(defs, schema, value.members, None)
         case _ => true
  }

  function Member(value: Json, name: string): Option<Json> {
    if value.Object? && name in value.members then Some(value.members[name]) else None
  }

  /** The members an object requires are there, and each, the discriminator aside, is a value of
      the schema declared for it or of the one for the others. */
  predicate MembersSatisfy(defs: Defs, schema: Schema, members: map<string, Json>, discriminator: Option<string>)
    decreases Object(members), -1
  {
    && schema.required <= members.Keys
    && forall k | k in members && discriminator != Some(k) :: MemberSatisfies(defs, schema, k, members[k])
  }

  /** A member satisfies the schema declared for it, or the one for the others. */
  predicate MemberSatisfies(defs: Defs, schema: Schema, name: string, value: Json)
    decreases value, 2
  {
    if schema.properties.Declared? && name in schema.properties.fields then
      Satisfies(defs, schema.properties.fields[name], value)
    else schema.additional.Some? && Satisfies(defs, schema.additional.value, value)
  }

  // ---------------------------------------------------------------- what validation demands

  predicate Bare(schema: Schema) {
    && schema.typed.NoType? && schema.listed.None? && schema.constant.None?
    && schema.minimum.None? && schema.maximum.None? && schema.minLength.None?
    && schema.items.None? && schema.additional.None? && schema.required == {}
    && schema.properties.Undeclared? && schema.oneOf.Undeclared? && schema.discriminator.None?
  }

  /** The bounds, constant and list of values fit the kinds they constrain. */
  predicate KeywordsFit(schema: Schema, kinds: seq<Kind>) {
    && (schema.minimum.Some? || schema.maximum.Some? ==> IntegerKind in kinds || NumberKind in kinds)
    && (schema.minLength.Some? ==>
          StringKind in kinds && IsIntegral(schema.minLength.value) && schema.minLength.value >= 0.0)
    && (schema.constant.Some? ==>
          && schema.listed.None? && (forall i | 0 <= i < |kinds| :: IsPrimitive(kinds[i]))
          && HasSomeKind(schema.constant.value, kinds) && MeetsBounds(schema, schema.constant.value))
    && (schema.listed.Some? ==> exists i | 0 <= i < |schema.listed.value| :: MeetsBounds(schema, schema.listed.value[i]))
  }

  predicate IsTaggedUnion(schema: Schema) { schema.oneOf.Declared? || schema.discriminator.Some? }

  /** A variant is a closed object that leaves the tag to the union. */
  predicate IsVariant(variant: Schema, discriminator: string) {
    && variant.ref.None? && variant.typed == Single(ObjectKind) && !IsTaggedUnion(variant)
    && variant.additional.None? && variant.properties.Declared? && discriminator !in variant.properties.fields
  }

  /** Validation passes the node: what its own keywords and those of its variants must be. */
  predicate Checked(schema: Schema) {
    if schema.ref.Some? then Bare(schema)
    else
      && (schema.listed.Some? ==>
            && schema.typed == Single(StringKind) && schema.listed.value != []
            && forall i | 0 <= i < |schema.listed.value| :: schema.listed.value[i].Text?)
      && if IsTaggedUnion(schema) then
           && schema.typed == Single(ObjectKind) && schema.discriminator.Some?
           && schema.oneOf.Declared? && schema.oneOf.fields != map[]
           && schema.properties.Undeclared? && schema.additional.None?
           && forall t | t in schema.oneOf.fields :: IsVariant(schema.oneOf.fields[t], schema.discriminator.value)
         else
           && KindsOf(schema).Some? && KindsOf(schema).value != [] && KeywordsFit(schema, KindsOf(schema).value)
           && match schema.typed
              case Single(ObjectKind) =>
                && schema.items.None?
                && (schema.properties.Declared? ==> schema.required <= schema.properties.fields.Keys)
                && (schema.properties.Undeclared? ==> schema.additional.Some? && schema.required == {})
              case Single(ArrayKind) =>
                schema.items.Some? && schema.additional.None? && schema.required == {} && schema.properties.Undeclared?
              case _ =>
                schema.items.None? && schema.additional.None? && schema.required == {} && schema.properties.Undeclared?
  }

  /** Validation passes the schema: the node and every one nested in it. */
  predicate Valid(schema: Schema) {
    && Checked(schema)
    && (schema.items.Some? ==> Valid(schema.items.value))
    && (schema.additional.Some? ==> Valid(schema.additional.value))
    && (schema.properties.Declared? ==> forall k | k in schema.properties.fields :: Valid(schema.properties.fields[k]))
    && (schema.oneOf.Declared? ==> forall t | t in schema.oneOf.fields :: Valid(schema.oneOf.fields[t]))
  }

  ghost predicate AllValid(defs: Defs) { forall n | n in defs :: Valid(defs[n]) }
}
