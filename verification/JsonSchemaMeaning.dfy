/** The export to JSON Schema preserves meaning, and a schema's document holds what it needs. */
module JsonSchemaMeaning {
  import opened Wrappers
  import opened Schemas
  import opened JsonSchemas

  lemma {:induction false} SameLinks(defs: Defs)
    ensures JsonLinks(ExportDefs(defs)) == LinksOf(defs)
  {
  }

  /** A value satisfies a validated schema exactly when it satisfies its JSON Schema. */
  lemma {:induction false} ExportPreservesMeaning(defs: Defs, schema: Schema, value: Json)
    requires AllValid(defs) && Valid(schema)
    ensures Satisfies(defs, schema, value) <==> Accepts(ExportDefs(defs), Export(schema), value)
    decreases value, 3
  {
    if schema.ref.Some? {
      SameLinks(defs);
      var last := Last(LinksOf(defs), schema.ref.value, {});
      if last.Some? { PlainPreserved(defs, defs[last.value], value); }
    } else {
      PlainPreserved(defs, schema, value);
    }
  }

  lemma {:induction false} PlainPreserved(defs: Defs, schema: Schema, value: Json)
    requires AllValid(defs) && Valid(schema) && schema.ref.None?
    ensures Satisfies(defs, schema, value) <==> AcceptsPlain(ExportDefs(defs), Export(schema), value)
    decreases value, 2
  {
    if IsTaggedUnion(schema) {
      UnionPreserved(defs, schema, value);
    } else if schema.typed == Single(ObjectKind) {
      ObjectPreserved(defs, schema, value);
    } else if schema.typed == Single(ArrayKind) {
      ArrayPreserved(defs, schema, value);
    } else {
      ScalarPreserved(defs, schema, value);
    }
  }

  /** The keywords that look at nothing inside the value. */
  ghost predicate AcceptsKeywords(schema: JsonSchema, value: Json)
    requires schema.JsonSchema?
  {
    && (schema.kinds.Some? ==> HasSomeKind(value, schema.kinds.value))
    && (schema.listed.Some? ==> value in schema.listed.value)
    && (schema.constant.Some? ==> value == schema.constant.value)
    && Within(value, schema.minimum, schema.maximum, schema.minLength)
    && (value.Num? && schema.range.Some? ==> schema.range.value.0 as real <= value.r <= schema.range.value.1 as real)
  }

  lemma {:induction false} KeywordsPreserved(schema: Schema, value: Json)
    requires Checked(schema) && schema.ref.None?
    ensures MeetsKeywords(schema, value) <==> AcceptsKeywords(Export(schema), value)
  {
    if schema.typed == Single(JsonKind) { assert HasKind(value, KindsOf(schema).value[0]); }
  }

  lemma {:induction false} HasTheKind(value: Json, kind: Kind)
    ensures HasSomeKind(value, [kind]) <==> HasKind(value, kind)
  {
    assert [kind][0] == kind;
  }

  lemma {:induction false} ScalarPreserved(defs: Defs, schema: Schema, value: Json)
    requires Checked(schema) && schema.ref.None? && !IsTaggedUnion(schema)
    requires schema.typed != Single(ObjectKind) && schema.typed != Single(ArrayKind)
    ensures Satisfies(defs, schema, value) <==> AcceptsPlain(ExportDefs(defs), Export(schema), value)
  {
    KeywordsPreserved(schema, value);
  }

  lemma {:induction false} ArrayPreserved(defs: Defs, schema: Schema, value: Json)
    requires AllValid(defs) && Valid(schema) && schema.ref.None? && schema.typed == Single(ArrayKind)
    ensures Satisfies(defs, schema, value) <==> AcceptsPlain(ExportDefs(defs), Export(schema), value)
    decreases value, 1
  {
    KeywordsPreserved(schema, value);
    HasTheKind(value, ArrayKind);
    if value.List? {
      forall i | 0 <= i < |value.items|
        ensures Satisfies(defs, schema.items.value, value.items[i])
           <==> Accepts(ExportDefs(defs), Export(schema.items.value), value.items[i])
      {
        ExportPreservesMeaning(defs, schema.items.value, value.items[i]);
      }
    }
  }

  /** A member means the same to an object and to its JSON Schema. */
  lemma {:induction false} MemberPreserved(defs: Defs, schema: Schema, name: string, value: Json)
    requires AllValid(defs) && Valid(schema) && schema.ref.None?
    requires schema.typed == Single(ObjectKind) && !IsTaggedUnion(schema)
    ensures MemberSatisfies(defs, schema, name, value) <==> AcceptsMember(ExportDefs(defs), Export(schema), name, value)
    decreases value, 4
  {
    if schema.properties.Declared? && name in schema.properties.fields {
      ExportPreservesMeaning(defs, schema.properties.fields[name], value);
    } else if schema.additional.Some? {
      ExportPreservesMeaning(defs, schema.additional.value, value);
    }
  }

  lemma {:induction false} ObjectPreserved(defs: Defs, schema: Schema, value: Json)
    requires AllValid(defs) && Valid(schema) && schema.ref.None?
    requires schema.typed == Single(ObjectKind) && !IsTaggedUnion(schema)
    ensures Satisfies(defs, schema, value) <==> AcceptsPlain(ExportDefs(defs), Export(schema), value)
    decreases value, 1
  {
    KeywordsPreserved(schema, value);
    HasTheKind(value, ObjectKind);
    if value.Object? {
      forall k | k in value.members
        ensures MemberSatisfies(defs, schema, k, value.members[k])
           <==> AcceptsMember(ExportDefs(defs), Export(schema), k, value.members[k])
      {
        MemberPreserved(defs, schema, k, value.members[k]);
      }
    }
  }

  /** The value is of the variant the tag names. */
  predicate IsOfVariant(defs: Defs, variant: Schema, discriminator: string, tag: string, members: map<string, Json>) {
    && discriminator in members && members[discriminator] == Text(tag)
    && MembersSatisfy(defs, variant, members, Some(discriminator))
  }

  lemma {:induction false} TagAccepted(defs: JsonDefs, tag: string, value: Json)
    ensures Accepts(defs, TagSchema(tag), value) <==> value == Text(tag)
  {
  }

  /** The discriminator is the tag's. */
  lemma {:induction false} TagMember(defs: JsonDefs, variant: Schema, discriminator: string, tag: string, value: Json)
    requires IsVariant(variant, discriminator)
    ensures AcceptsMember(defs, Tagged(Export(variant), discriminator, tag), discriminator, value) <==> value == Text(tag)
  {
    TagAccepted(defs, tag, value);
    assert Export(variant).properties == ExportEach(variant.properties);
    assert discriminator !in Export(variant).properties.fields;
  }

  /** The tag beside a variant makes no difference to its other members. */
  lemma {:induction false} OtherMember(defs: JsonDefs, variant: JsonSchema, discriminator: string, tag: string, name: string, value: Json)
    requires variant.JsonSchema? && name != discriminator
    ensures AcceptsMember(defs, Tagged(variant, discriminator, tag), name, value) <==> AcceptsMember(defs, variant, name, value)
  {
  }

  lemma {:induction false} VariantPreserved(defs: Defs, variant: Schema, discriminator: string, tag: string, members: map<string, Json>)
    requires AllValid(defs) && Valid(variant) && IsVariant(variant, discriminator)
    ensures IsOfVariant(defs, variant, discriminator, tag, members)
       <==> AcceptsPlain(ExportDefs(defs), Tagged(Export(variant), discriminator, tag), Object(members))
    decreases Object(members), 0, 0
  {
    var tagged := Tagged(Export(variant), discriminator, tag);
    HasTheKind(Object(members), ObjectKind);
    VariantKeywords(variant);
    forall k | k in members
      ensures AcceptsMember(ExportDefs(defs), tagged, k, members[k])
         <==> if k == discriminator then members[k] == Text(tag) else MemberSatisfies(defs, variant, k, members[k])
    {
      if k == discriminator {
        TagMember(ExportDefs(defs), variant, discriminator, tag, members[k]);
      } else {
        OtherMember(ExportDefs(defs), Export(variant), discriminator, tag, k, members[k]);
        MemberPreserved(defs, variant, k, members[k]);
      }
    }
  }

  /** A variant has no keyword but those of a closed object. */
  lemma {:induction false} VariantKeywords(variant: Schema)
    requires Checked(variant) && variant.ref.None? && variant.typed == Single(ObjectKind) && !IsTaggedUnion(variant)
    ensures variant.listed.None? && variant.constant.None?
    ensures variant.minimum.None? && variant.maximum.None? && variant.minLength.None?
  {
  }

  /** The one variant a value is of is the one its tag names. */
  lemma {:induction false} UnionIsItsVariant(defs: Defs, schema: Schema, members: map<string, Json>)
    requires Checked(schema) && schema.ref.None? && IsTaggedUnion(schema)
    ensures Satisfies(defs, schema, Object(members)) <==>
            && MeetsKeywords(schema, Object(members)) && schema.required <= members.Keys
            && SomeVariant(defs, schema, members)
  {
    var discriminator := schema.discriminator.value;
    if discriminator in members && members[discriminator].Text? {
      var t := members[discriminator].s;
      assert t in schema.oneOf.fields ==> IsOfVariant(defs, schema.oneOf.fields[t], discriminator, t, members)
                                          == MembersSatisfy(defs, schema.oneOf.fields[t], members, Some(discriminator));
    }
  }

  /** What a JSON Schema of alternatives and nothing inside an object says. */
  lemma {:induction false} AcceptsOneOf(defs: JsonDefs, schema: JsonSchema, members: map<string, Json>)
    requires schema.JsonSchema? && schema.oneOf.OneOf? && schema.properties.NoProperties? && schema.additional.AnyOther?
    ensures AcceptsPlain(defs, schema, Object(members)) <==>
            && AcceptsKeywords(schema, Object(members)) && schema.required <= members.Keys
            && OnlyOne(defs, schema.oneOf.variants, Object(members))
  {
    assert forall k | k in members :: AcceptsMember(defs, schema, k, members[k]);
  }

  ghost predicate OnlyOne(defs: JsonDefs, variants: map<string, JsonSchema>, value: Json) {
    exists t :: t in variants && AcceptsPlain(defs, variants[t], value)
                && forall u | u in variants && u != t :: !AcceptsPlain(defs, variants[u], value)
  }

  ghost predicate SomeVariant(defs: Defs, schema: Schema, members: map<string, Json>)
    requires schema.oneOf.Declared? && schema.discriminator.Some?
  {
    exists t :: t in schema.oneOf.fields && IsOfVariant(defs, schema.oneOf.fields[t], schema.discriminator.value, t, members)
  }

  /** Tags differ, so no value is of two variants. */
  lemma {:induction false} OnlyOneIsSome(defs: Defs, schema: Schema, members: map<string, Json>)
    requires AllValid(defs) && Valid(schema) && schema.ref.None? && IsTaggedUnion(schema)
    ensures OnlyOne(ExportDefs(defs), Export(schema).oneOf.variants, Object(members)) <==> SomeVariant(defs, schema, members)
    decreases Object(members), 0, 2
  {
    VariantsPreserved(defs, schema, members);
  }

  lemma {:induction false} UnionPreserved(defs: Defs, schema: Schema, value: Json)
    requires AllValid(defs) && Valid(schema) && schema.ref.None? && IsTaggedUnion(schema)
    ensures Satisfies(defs, schema, value) <==> AcceptsPlain(ExportDefs(defs), Export(schema), value)
    decreases value, 1
  {
    KeywordsPreserved(schema, value);
    HasTheKind(value, ObjectKind);
    if value.Object? {
      UnionIsItsVariant(defs, schema, value.members);
      AcceptsOneOf(ExportDefs(defs), Export(schema), value.members);
      OnlyOneIsSome(defs, schema, value.members);
    }
  }

  lemma {:induction false} VariantsPreserved(defs: Defs, schema: Schema, members: map<string, Json>)
    requires AllValid(defs) && Valid(schema) && schema.ref.None? && IsTaggedUnion(schema)
    ensures var variants := Export(schema).oneOf.variants;
            && variants.Keys == schema.oneOf.fields.Keys
            && (forall t | t in variants :: AcceptsPlain(ExportDefs(defs), variants[t], Object(members))
                  <==> IsOfVariant(defs, schema.oneOf.fields[t], schema.discriminator.value, t, members))
    decreases Object(members), 0, 1
  {
    var discriminator, variants := schema.discriminator.value, Export(schema).oneOf.variants;
    ExportedVariants(schema);
    forall t | t in variants
      ensures AcceptsPlain(ExportDefs(defs), variants[t], Object(members))
         <==> IsOfVariant(defs, schema.oneOf.fields[t], discriminator, t, members)
    {
      VariantPreserved(defs, schema.oneOf.fields[t], discriminator, t, members);
    }
  }

  lemma {:induction false} ExportedVariants(schema: Schema)
    requires schema.oneOf.Declared? && schema.discriminator.Some?
    ensures Export(schema).oneOf.OneOf? && Export(schema).oneOf.variants.Keys == schema.oneOf.fields.Keys
    ensures forall t | t in schema.oneOf.fields ::
              Export(schema).oneOf.variants[t] == Tagged(Export(schema.oneOf.fields[t]), schema.discriminator.value, t)
  {
  }
}
