/**
 What the import makes of an exported schema: a schema without tagged unions and opaque JSON is
 imported as it was, a union only without the type it is exported with.
 */
module SchemaRoundTrips {
  import opened Wrappers
  import opened Schemas
  import opened JsonSchemas
  import opened JsonSchemaMeaning
  import opened SchemaImports

  /** No tagged union, here or nested. */
  predicate Unionless(schema: Schema) {
    && !IsTaggedUnion(schema)
    && (schema.items.Some? ==> Unionless(schema.items.value))
    && (schema.additional.Some? ==> Unionless(schema.additional.value))
    && (schema.properties.Declared? ==> forall k | k in schema.properties.fields :: Unionless(schema.properties.fields[k]))
  }

  /** No opaque JSON, here or nested outside unions. */
  predicate Jsonless(schema: Schema) {
    && schema.typed != Single(JsonKind)
    && (schema.items.Some? ==> Jsonless(schema.items.value))
    && (schema.additional.Some? ==> Jsonless(schema.additional.value))
    && (schema.properties.Declared? ==> forall k | k in schema.properties.fields :: Jsonless(schema.properties.fields[k]))
  }

  // ---------------------------------------------------------------- when an export is imported

  lemma {:induction false} ReferenceReturns(schema: Schema)
    requires Valid(schema) && schema.ref.Some?
    ensures Import(Export(schema)) == Some(schema) && Unionless(schema) && Jsonless(schema)
  {
  }

  /** A reference is imported exactly when no keyword stands beside it. */
  lemma {:induction false} ReferenceImportsExactly(schema: JsonSchema)
    requires schema.JsonSchema? && schema.ref.Some?
    ensures Import(schema) ==
            if schema == JsonSchema(schema.ref, None, None, None, None, None, None, None, None, NoProperties, {}, AnyOther, Unrestricted)
            then Some(Blank().(ref := schema.ref)) else None
  {
  }

  /** A union is exported beside its type, and the import refuses alternatives beside anything else. */
  lemma {:induction false} UnionIsRefused(schema: Schema)
    requires Valid(schema) && IsTaggedUnion(schema)
    ensures Import(Export(schema)).None?
  {
  }

  /** What is exported of a validated schema is imported exactly when there is no union in it. */
  lemma {:induction false} ImportsExactly(schema: Schema)
    requires Valid(schema)
    ensures Import(Export(schema)).Some? <==> Unionless(schema)
    decreases schema
  {
    if schema.ref.Some? {
      ReferenceReturns(schema);
    } else if IsTaggedUnion(schema) {
      UnionIsRefused(schema);
    } else {
      if schema.items.Some? { ImportsExactly(schema.items.value); }
      if schema.additional.Some? { ImportsExactly(schema.additional.value); }
      if schema.properties.Declared? {
        forall k | k in schema.properties.fields
          ensures Import(Export(schema.properties.fields[k])).Some? <==> Unionless(schema.properties.fields[k])
        {
          ImportsExactly(schema.properties.fields[k]);
        }
      }
      PartsImport(schema, {});
    }
  }

  /** A node is imported exactly when what is nested in it is. */
  lemma {:induction false} PartsImport(schema: Schema, tags: set<string>)
    requires Checked(schema) && schema.ref.None? && !IsTaggedUnion(schema)
    ensures ImportNode(Export(schema), tags).Some? <==>
            && (schema.items.Some? ==> Import(Export(schema.items.value)).Some?)
            && (schema.additional.Some? ==> Import(Export(schema.additional.value)).Some?)
            && (schema.properties.Declared? ==>
                  forall k | k in schema.properties.fields && k !in tags :: Import(Export(schema.properties.fields[k])).Some?)
  {
    var exported := Export(schema);
    assert exported.kinds == Some([ObjectKind]) <==> schema.typed == Single(ObjectKind) by {
      if schema.typed.Union? { assert |schema.typed.kinds| >= 2; }
    }
  }

  /** The schema is imported, as it was and valid exactly when there is no opaque JSON in it. */
  predicate Returns(schema: Schema) {
    && Import(Export(schema)).Some?
    && (Import(Export(schema)) == Some(schema) <==> Jsonless(schema))
    && (Valid(Import(Export(schema)).value) <==> Jsonless(schema))
  }

  /** What is nested in a node returns. */
  predicate PartsReturn(schema: Schema) {
    && (schema.items.Some? ==> Returns(schema.items.value))
    && (schema.additional.Some? ==> Returns(schema.additional.value))
    && (schema.properties.Declared? ==> forall k | k in schema.properties.fields :: Returns(schema.properties.fields[k]))
  }

  lemma {:induction false} UnionlessReturns(schema: Schema)
    requires Valid(schema) && Unionless(schema)
    ensures Returns(schema)
    decreases schema
  {
    ImportsExactly(schema);
    if schema.ref.Some? {
      ReferenceReturns(schema);
    } else {
      if schema.items.Some? { UnionlessReturns(schema.items.value); }
      if schema.additional.Some? { UnionlessReturns(schema.additional.value); }
      if schema.properties.Declared? {
        forall k | k in schema.properties.fields ensures Returns(schema.properties.fields[k]) {
          UnionlessReturns(schema.properties.fields[k]);
        }
      }
      assert PartsReturn(schema);
      NodeReturns(schema);
      NodeIsValid(schema);
    }
  }

  /** It is imported as it was exactly when there is no opaque JSON in it either: opaque JSON is exported
      as no type, and validation refuses that. */
  lemma {:induction false} ReturnsExactly(schema: Schema)
    requires Valid(schema)
    ensures Import(Export(schema)) == Some(schema) <==> Unionless(schema) && Jsonless(schema)
    ensures Import(Export(schema)).Some? && Valid(Import(Export(schema)).value) <==> Unionless(schema) && Jsonless(schema)
  {
    ImportsExactly(schema);
    if Unionless(schema) { UnionlessReturns(schema); }
  }

  /** The node imported from an export, its parts as they are imported. */
  lemma {:induction false} NodeIs(schema: Schema)
    requires Checked(schema) && schema.ref.None? && !IsTaggedUnion(schema) && Import(Export(schema)).Some?
    ensures var imported := Import(Export(schema)).value;
            && imported == ImportNode(Export(schema), {}).value
            && imported.typed == (if schema.typed == Single(JsonKind) then NoType else schema.typed)
            && imported == schema.(typed := imported.typed, items := imported.items, additional := imported.additional,
                                   properties := imported.properties)
            && (schema.items.Some? ==> imported.items == Import(Export(schema.items.value)))
            && (schema.items.None? ==> imported.items.None?)
            && (schema.additional.Some? ==> imported.additional == Import(Export(schema.additional.value)))
            && (schema.additional.None? ==> imported.additional.None?)
            && (schema.properties.Undeclared? <==> imported.properties.Undeclared?)
  {
    assert schema.required - {} == schema.required;
  }

  lemma {:induction false} MembersAre(schema: Schema)
    requires Checked(schema) && schema.ref.None? && !IsTaggedUnion(schema) && Import(Export(schema)).Some? && schema.properties.Declared?
    ensures var imported := Import(Export(schema)).value;
            && imported.properties.Declared? && imported.properties.fields.Keys == schema.properties.fields.Keys
            && forall k | k in schema.properties.fields :: Import(Export(schema.properties.fields[k])) == Some(imported.properties.fields[k])
  {
    NodeIs(schema);
    NodeShape(Export(schema), {});
  }

  lemma {:induction false} NodeReturns(schema: Schema)
    requires Valid(schema) && schema.ref.None? && Unionless(schema) && Import(Export(schema)).Some?
    requires PartsReturn(schema)
    ensures Import(Export(schema)) == Some(schema) <==> Jsonless(schema)
  {
    NodeIs(schema);
    if schema.properties.Declared? {
      MembersAre(schema);
      var fields := Import(Export(schema)).value.properties.fields;
      if forall k | k in schema.properties.fields :: Jsonless(schema.properties.fields[k]) {
        assert forall k | k in schema.properties.fields :: fields[k] == schema.properties.fields[k];
        assert fields == schema.properties.fields;
      }
      if fields == schema.properties.fields {
        forall k | k in schema.properties.fields ensures Jsonless(schema.properties.fields[k]) {
          assert Import(Export(schema.properties.fields[k])) == Some(fields[k]);
        }
      }
    }
  }

  lemma {:induction false} NodeIsValid(schema: Schema)
    requires Valid(schema) && schema.ref.None? && Unionless(schema) && Import(Export(schema)).Some?
    requires Import(Export(schema)) == Some(schema) <==> Jsonless(schema)
    requires PartsReturn(schema)
    ensures Valid(Import(Export(schema)).value) <==> Jsonless(schema)
  {
    NodeIs(schema);
    if schema.properties.Declared? { MembersAre(schema); }
  }

  /** A schema of primitive values with a numeric format beside them is imported exactly when they are
      integers. */
  lemma {:induction false} FormatImportsExactly(schema: Schema, range: (int, int))
    requires Valid(schema) && KindsOf(schema).Some? && KindsOf(schema).value != [] && IsPrimitive(KindsOf(schema).value[0])
    requires Export(schema).JsonSchema?
    ensures Import(Export(schema).(range := Some(range))).Some? <==> schema.typed == Single(IntegerKind)
  {
    var kinds := Export(schema).kinds.value;
    assert kinds == [IntegerKind] <==> schema.typed == Single(IntegerKind) by {
      if schema.typed.Union? { assert |kinds| >= 2; } else { assert kinds[0] == schema.typed.kind; }
    }
  }

  // ---------------------------------------------------------------- unions without their type

  /** A tagged union with no other keyword, its variants without unions and opaque JSON. */
  predicate IsPlainUnion(schema: Schema) {
    && Valid(schema) && schema.oneOf.Declared?
    && schema == Blank().(typed := Single(ObjectKind), discriminator := schema.discriminator, oneOf := schema.oneOf)
    && forall t | t in schema.oneOf.fields :: Unionless(schema.oneOf.fields[t]) && Jsonless(schema.oneOf.fields[t])
  }

  /** The union's export without its type. */
  function Untyped(schema: Schema): (untyped: JsonSchema)
    ensures untyped.JsonSchema?
  {
    var exported := Export(schema);
    assert exported.JsonSchema?;
    exported.(kinds := None)
  }

  /** A member that every variant requires as a string constant, so that it could be the tag as well. */
  predicate IsOtherTag(schema: Schema, name: string)
    requires schema.oneOf.Declared?
  {
    && Some(name) != schema.discriminator
    && forall t | t in schema.oneOf.fields :: RequiresConstant(schema.oneOf.fields[t], name)
  }

  predicate RequiresConstant(variant: Schema, name: string) {
    && variant.properties.Declared? && name in variant.properties.fields && name in variant.required
    && variant.properties.fields[name].constant.Some? && variant.properties.fields[name].constant.value.Text?
  }

  /** The members of an exported variant: its own, and its tag. */
  lemma {:induction false} TaggedMembers(variant: Schema, discriminator: string, tag: string)
    requires IsVariant(variant, discriminator)
    ensures var exported := Tagged(Export(variant), discriminator, tag);
            && exported == Export(variant).(properties := exported.properties, required := exported.required)
            && exported.required == {discriminator} + variant.required && exported.properties.Properties?
            && exported.properties.fields.Keys == {discriminator} + variant.properties.fields.Keys
            && exported.properties.fields[discriminator] == TagSchema(tag)
            && forall k | k in variant.properties.fields :: exported.properties.fields[k] == Export(variant.properties.fields[k])
  {
    assert Export(variant).properties == ExportEach(variant.properties);
    assert forall k | k in variant.properties.fields :: Export(variant).properties.fields[k] == Export(variant.properties.fields[k]);
  }

  /** A variant is imported as it was, its tag taken out again. */
  lemma {:induction false} VariantReturns(variant: Schema, discriminator: string, tag: string)
    requires Valid(variant) && IsVariant(variant, discriminator) && Unionless(variant) && Jsonless(variant)
    ensures ImportNode(Tagged(Export(variant), discriminator, tag), {discriminator}) == Some(variant)
  {
    var exported := Tagged(Export(variant), discriminator, tag);
    TaggedMembers(variant, discriminator, tag);
    forall k | k in variant.properties.fields
      ensures Import(exported.properties.fields[k]) == Some(variant.properties.fields[k])
    {
      ReturnsExactly(variant.properties.fields[k]);
    }
    assert exported.properties.fields.Keys - {discriminator} == variant.properties.fields.Keys;
    assert exported.required - {discriminator} == variant.required;
    VariantImports(exported, variant, discriminator);
  }

  lemma {:induction false} VariantImports(exported: JsonSchema, variant: Schema, discriminator: string)
    requires Checked(variant) && IsVariant(variant, discriminator) && exported.JsonSchema? && exported.properties.Properties?
    requires Export(variant).JsonSchema? && exported == Export(variant).(properties := exported.properties, required := exported.required)
    requires exported.required - {discriminator} == variant.required
    requires exported.properties.fields.Keys - {discriminator} == variant.properties.fields.Keys
    requires forall k | k in variant.properties.fields :: Import(exported.properties.fields[k]) == Some(variant.properties.fields[k])
    ensures ImportNode(exported, {discriminator}) == Some(variant)
  {
    var imported := ImportNode(exported, {discriminator});
    assert imported.Some?;
    NodeShape(exported, {discriminator});
    assert imported.value.properties.fields.Keys == variant.properties.fields.Keys;
    assert imported.value.properties.fields == variant.properties.fields;
  }

  lemma {:induction false} VariantTag(variant: Schema, discriminator: string, tag: string, name: string)
    requires Valid(variant) && IsVariant(variant, discriminator)
    ensures var exported := Tagged(Export(variant), discriminator, tag);
            && (IsTagOf(exported, name) <==> name == discriminator || RequiresConstant(variant, name))
            && IsTagOf(exported, discriminator) && TagOf(exported, discriminator) == tag
            && IsTagSchema(exported.properties.fields[discriminator])
            && exported.ref.None? && exported.oneOf.Unrestricted?
  {
    TaggedMembers(variant, discriminator, tag);
    if name in variant.properties.fields {
      assert Export(variant.properties.fields[name]).constant == variant.properties.fields[name].constant;
    }
  }

  /** The variants of an exported union. */
  lemma {:induction false} VariantsAre(schema: Schema)
    requires IsPlainUnion(schema)
    ensures Untyped(schema).oneOf.OneOf? && Untyped(schema).oneOf.variants.Keys == schema.oneOf.fields.Keys
    ensures Untyped(schema).oneOf.variants != map[]
    ensures forall t | t in schema.oneOf.fields ::
              Untyped(schema).oneOf.variants[t] == Tagged(Export(schema.oneOf.fields[t]), schema.discriminator.value, t)
  {
    ExportedVariants(schema);
    var some :| some in schema.oneOf.fields;
    assert some in Untyped(schema).oneOf.variants;
  }

  /** A tag of the exported variants: the discriminator, or another of the same kind. */
  lemma {:induction false} TagsAre(schema: Schema, name: string)
    requires IsPlainUnion(schema)
    ensures Untyped(schema).oneOf.OneOf?
    ensures name in Discriminators(Untyped(schema).oneOf.variants) <==> Some(name) == schema.discriminator || IsOtherTag(schema, name)
  {
    VariantsAre(schema);
    var variants, fields, discriminator := Untyped(schema).oneOf.variants, schema.oneOf.fields, schema.discriminator.value;
    forall t | t in fields
      ensures IsTagOf(variants[t], name) <==> name == discriminator || RequiresConstant(fields[t], name)
    {
      VariantTag(fields[t], discriminator, t, name);
    }
    var some :| some in fields;
    assert forall t | t in variants :: t in fields;
    assert IsTagOf(variants[some], name) ==> name in PropertyNames(variants[some]);
  }

  lemma {:induction false} UnionIsAlone(schema: Schema)
    requires IsPlainUnion(schema)
    ensures IsOneOfAlone(Untyped(schema))
  {
    ExportedVariants(schema);
    var exported := Export(schema);
    assert exported.properties.NoProperties? && exported.additional.AnyOther? && exported.required == {} && exported.items.None?;
  }

  lemma {:induction false} AloneIsImported(schema: JsonSchema)
    requires schema.JsonSchema? && IsOneOfAlone(schema)
    ensures Import(schema) == ImportUnion(schema.oneOf)
  {
  }

  /** Alternatives are refused where more than one member could be their tag. */
  lemma {:induction false} TwoTagsAreRefused(oneOf: Alternatives, name: string, other: string)
    requires oneOf.OneOf? && name in Discriminators(oneOf.variants) && other in Discriminators(oneOf.variants) && name != other
    ensures ImportUnion(oneOf).None?
  {
  }

  lemma {:induction false} OneTagIsImported(oneOf: Alternatives, name: string)
    requires oneOf.OneOf? && oneOf.variants != map[] && Discriminators(oneOf.variants) == {name} && VariantsImport(oneOf, name)
    ensures ImportUnion(oneOf) == Some(Blank().(typed := Single(ObjectKind), discriminator := Some(name), oneOf := ImportedVariants(oneOf, name)))
  {
    var names := Discriminators(oneOf.variants);
    assert name in names;
    forall other | names == {other} ensures other == name { assert name in {other}; }
  }

  lemma {:induction false} OnlyTag(schema: Schema)
    requires IsPlainUnion(schema) && !exists name :: IsOtherTag(schema, name)
    ensures Untyped(schema).oneOf.OneOf? && Discriminators(Untyped(schema).oneOf.variants) == {schema.discriminator.value}
  {
    VariantsAre(schema);
    var names := Discriminators(Untyped(schema).oneOf.variants);
    forall name ensures name in names <==> name in {schema.discriminator.value} { TagsAre(schema, name); }
  }

  lemma {:induction false} OneTagReturns(schema: Schema, oneOf: Alternatives)
    requires IsPlainUnion(schema) && oneOf.OneOf? && oneOf.variants != map[]
    requires Discriminators(oneOf.variants) == {schema.discriminator.value} && VariantsImport(oneOf, schema.discriminator.value)
    requires ImportedVariants(oneOf, schema.discriminator.value) == schema.oneOf
    ensures ImportUnion(oneOf) == Some(schema)
  {
    OneTagIsImported(oneOf, schema.discriminator.value);
  }

  lemma {:induction false} OtherTagIsRefused(schema: Schema, name: string)
    requires IsPlainUnion(schema) && IsOtherTag(schema, name)
    ensures Untyped(schema).oneOf.OneOf? && ImportUnion(Untyped(schema).oneOf).None?
  {
    TagsAre(schema, schema.discriminator.value);
    TagsAre(schema, name);
    TwoTagsAreRefused(Untyped(schema).oneOf, name, schema.discriminator.value);
  }

  /** Without its type, an exported union is imported as it was exactly when no other member could be
      its tag, and else refused. */
  lemma {:induction false} UnionReturnsExactly(schema: Schema)
    requires IsPlainUnion(schema)
    ensures Import(Untyped(schema)) == if exists name :: IsOtherTag(schema, name) then None else Some(schema)
  {
    UnionIsAlone(schema);
    AloneIsImported(Untyped(schema));
    if name :| IsOtherTag(schema, name) {
      OtherTagIsRefused(schema, name);
    } else {
      OnlyTag(schema);
      VariantsAre(schema);
      VariantsReturn(schema);
      OneTagReturns(schema, Untyped(schema).oneOf);
    }
  }

  lemma {:induction false} VariantsReturn(schema: Schema)
    requires IsPlainUnion(schema)
    ensures Untyped(schema).oneOf.OneOf? && VariantsImport(Untyped(schema).oneOf, schema.discriminator.value)
    ensures ImportedVariants(Untyped(schema).oneOf, schema.discriminator.value) == schema.oneOf
  {
    VariantsAre(schema);
    var variants, fields, discriminator := Untyped(schema).oneOf.variants, schema.oneOf.fields, schema.discriminator.value;
    forall t | t in variants
      ensures t in fields && IsTagOf(variants[t], discriminator) && TagOf(variants[t], discriminator) == t
      ensures IsTagSchema(variants[t].properties.fields[discriminator]) && variants[t].ref.None? && variants[t].oneOf.Unrestricted?
      ensures ImportNode(variants[t], {discriminator}) == Some(fields[t])
    {
      VariantTag(fields[t], discriminator, t, discriminator);
      VariantReturns(fields[t], discriminator, t);
    }
    TheVariantsAre(Untyped(schema).oneOf, discriminator, fields);
  }

  lemma {:induction false} TheVariantsAre(oneOf: Alternatives, name: string, fields: map<string, Schema>)
    requires oneOf.OneOf? && oneOf.variants.Keys == fields.Keys
    requires VariantsImport(oneOf, name)
    requires forall t | t in fields :: TagOf(oneOf.variants[t], name) == t && ImportNode(oneOf.variants[t], {name}) == Some(fields[t])
    ensures ImportedVariants(oneOf, name) == Declared(fields)
  {
    var imported := ImportedVariants(oneOf, name).fields;
    assert imported.Keys == fields.Keys;
    assert forall t | t in fields :: imported[t] == fields[t];
  }
}
