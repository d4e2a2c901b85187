/**
 The JSON Schema a definition's schema denotes, and that it means the same: a value satisfies the
 schema exactly when it satisfies its JSON Schema.
 */
module JsonSchemas {
  import opened Wrappers
  import opened Schemas

  /** What `additionalProperties` says: nothing, `false`, or a schema. */
  datatype Others = AnyOther | NoOther | EachOther(schema: JsonSchema)

  /** JSON Schema, as far as the export writes it and the import reads it: the schema `true`, or
      keywords, a numeric format among them by the range it stands for. The schemas of `oneOf` are an
      array in no particular order, each under a name of its own. */
  datatype JsonSchema = Always | JsonSchema(
    ref: Option<string>,
    kinds: Option<seq<Kind>>,
    listed: Option<seq<Json>>,
    constant: Option<Json>,
    minimum: Option<real>,
    maximum: Option<real>,
    minLength: Option<real>,
    range: Option<(int, int)>,
    items: Option<JsonSchema>,
    properties: JsonDeclared,
    required: set<string>,
    additional: Others,
    oneOf: Alternatives)

  datatype JsonDeclared = NoProperties | Properties(fields: map<string, JsonSchema>)

  datatype Alternatives = Unrestricted | OneOf(variants: map<string, JsonSchema>)

  type JsonDefs = map<string, JsonSchema>

  // ---------------------------------------------------------------- what JSON Schema means

  function ReferenceOf(schema: JsonSchema): Option<string> { if schema.Always? then None else schema.ref }

  function JsonLinks(defs: JsonDefs): Links { map n | n in defs :: ReferenceOf(defs[n]) }

  predicate Within(value: Json, minimum: Option<real>, maximum: Option<real>, minLength: Option<real>) {
    && (value.Num? && minimum.Some? ==> value.r >= minimum.value)
    && (value.Num? && maximum.Some? ==> value.r <= maximum.value)
    && (value.Text? && minLength.Some? ==> |value.s| as real >= minLength.value)
  }

  /** The value satisfies the schema, or the one its reference leads to. */
  ghost predicate Accepts(defs: JsonDefs, schema: JsonSchema, value: Json)
    decreases value, 1
  {
    if ReferenceOf(schema).Some? then
      var last := Last(JsonLinks(defs), ReferenceOf(schema).value, {});
      last.Some? && AcceptsPlain(defs, defs[last.value], value)
    else AcceptsPlain(defs, schema, value)
  }

  /** Each keyword says its part; of `oneOf` exactly one accepts the value. */
  ghost predicate AcceptsPlain(defs: JsonDefs, schema: JsonSchema, value: Json)
    decreases value, 0, schema
  {
    if schema.Always? then true
    else
      && (schema.kinds.Some? ==> HasSomeKind(value, schema.kinds.value))
      && (schema.listed.Some? ==> value in schema.listed.value)
      && (schema.constant.Some? ==> value == schema.constant.value)
      && Within(value, schema.minimum, schema.maximum, schema.minLength)
      && (value.Num? && schema.range.Some? ==> schema.range.value.0 as real <= value.r <= schema.range.value.1 as real)
      && (value.List? && schema.items.Some? ==> forall i | 0 <= i < |value.items| :: Accepts(defs, schema.items.value, value.items[i]))
      && (value.Object? ==>
            && schema.required <= value.members.Keys
            && forall k | k in value.members :: AcceptsMember(defs, schema, k, value.members[k]))
      && (schema.oneOf.OneOf? ==>
            exists t :: t in schema.oneOf.variants && AcceptsPlain(defs, schema.oneOf.variants[t], value)
                        && forall u | u in schema.oneOf.variants && u != t :: !AcceptsPlain(defs, schema.oneOf.variants[u], value))
  }

  ghost predicate AcceptsMember(defs: JsonDefs, schema: JsonSchema, name: string, value: Json)
    requires schema.JsonSchema?
    decreases value, 2
  {
    if schema.properties.Properties? && name in schema.properties.fields then Accepts(defs, schema.properties.fields[name], value)
    else match schema.additional
      case AnyOther => true
      case NoOther => false
      case EachOther(others) => Accepts(defs, others, value)
  }

  // ---------------------------------------------------------------- the export

  /** `schema` as JSON Schema. */
  function Export(schema: Schema): (exported: JsonSchema)
    ensures exported.JsonSchema?
    decreases schema
  {
    JsonSchema(
      schema.ref,
      match schema.typed
        case NoType => None
        case Single(kind) => if kind == JsonKind then None else Some([kind])
        case Union(kinds) => Some(kinds),
      schema.listed, schema.constant, schema.minimum, schema.maximum, schema.minLength, None,
      if schema.items.Some? then Some(Export(schema.items.value)) else None,
      ExportEach(schema.properties),
      schema.required,
      if schema.additional.Some? then EachOther(Export(schema.additional.value))
      else if schema.typed == Single(ObjectKind) && schema.oneOf.Undeclared? then NoOther
      else AnyOther,
      if schema.oneOf.Declared? && schema.discriminator.Some?
      then OneOf(map t | t in schema.oneOf.fields ::
             Tagged(ExportVariant(schema.oneOf, t), schema.discriminator.value, t))
      else Unrestricted)
  }

  function ExportVariant(oneOf: Declared, tag: string): (exported: JsonSchema)
    ensures exported.JsonSchema?
    requires oneOf.Declared? && tag in oneOf.fields
    decreases oneOf, 0
  {
    Export(oneOf.fields[tag])
  }

  function ExportEach(declared: Declared): JsonDeclared
    decreases declared, 0
  {
    match declared
    case Undeclared => NoProperties
    case Declared(fields) => Properties(map k | k in fields :: Export(fields[k]))
  }

  /** A tagged union's variant: the discriminator is a required member whose value is the tag. */
  function Tagged(variant: JsonSchema, discriminator: string, tag: string): JsonSchema
    requires variant.JsonSchema?
  {
    variant.(properties := Properties(map[discriminator := TagSchema(tag)]
                                      + if variant.properties.Properties? then variant.properties.fields else map[]),
             required := {discriminator} + variant.required)
  }

  function TagSchema(tag: string): JsonSchema {
    JsonSchema(None, None, None, Some(Text(tag)), None, None, None, None, None, NoProperties, {}, AnyOther, Unrestricted)
  }

  function ExportDefs(defs: Defs): JsonDefs { map n | n in defs :: Export(defs[n]) }
}
