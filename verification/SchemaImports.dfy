/**
 JSON Schema read into the generator's subset. What the import makes, once validation has passed it,
 means what the JSON Schema meant, a numeric format standing for its range.
 */
module SchemaImports {
  import opened Wrappers
  import opened Schemas
  import opened JsonSchemas
  import opened JsonSchemaMeaning

  function Blank(): Schema {
    Schema(None, NoType, None, None, None, None, None, None, Undeclared, {}, None, None, Undeclared)
  }

  predicate IsReferenceAlone(schema: JsonSchema)
    requires schema.JsonSchema?
  {
    && schema.kinds.None? && schema.listed.None? && schema.constant.None? && schema.minimum.None? && schema.maximum.None?
    && schema.minLength.None? && schema.range.None? && schema.items.None? && schema.properties.NoProperties?
    && schema.required == {} && schema.additional.AnyOther? && schema.oneOf.Unrestricted?
  }

  /** The keywords of an array of alternatives stand alone. */
  predicate IsOneOfAlone(schema: JsonSchema)
    requires schema.JsonSchema?
  {
    schema.oneOf.OneOf? && schema.ref.None? && IsReferenceAlone(schema.(oneOf := Unrestricted))
  }

  function TypeOf(kinds: Option<seq<Kind>>): TypeKeyword {
    match kinds
    case None => NoType
    case Some(ks) => if |ks| == 1 then Single(ks[0]) else Union(ks)
  }

  /** The tighter of a declared bound and a format's. */
  function AtLeast(declared: Option<real>, limit: real): real { if declared.Some? && declared.value >= limit then declared.value else limit }

  function AtMost(declared: Option<real>, limit: real): real { if declared.Some? && declared.value <= limit then declared.value else limit }

  /** The subset's schema for a JSON Schema; nothing where the import or its validation refuses it. */
  function Import(schema: JsonSchema): Option<Schema>
    decreases schema, 2
  {
    match schema
    case Always => Some(Blank().(typed := Single(JsonKind)))
    case JsonSchema(ref, _, _, _, _, _, _, _, _, _, _, _, oneOf) =>
      if ref.Some? then if IsReferenceAlone(schema) then Some(Blank().(ref := ref)) else None
      else if oneOf.OneOf? then if IsOneOfAlone(schema) then ImportUnion(oneOf) else None
      else ImportNode(schema, {})
  }

  /** Keyword by keyword, a variant without the member that carries its tag. */
  function ImportNode(schema: JsonSchema, tags: set<string>): Option<Schema>
    requires schema.JsonSchema?
    decreases schema, 1
  {
    if schema.range.Some? && schema.kinds != Some([IntegerKind]) then None
    else if (schema.kinds == Some([ObjectKind])) == schema.additional.AnyOther? then None
    else if schema.items.Some? && Import(schema.items.value).None? then None
    else if schema.additional.EachOther? && Import(schema.additional.schema).None? then None
    else if schema.properties.Properties?
            && exists k | k in schema.properties.fields && k !in tags :: Import(schema.properties.fields[k]).None? then None
    else Some(Schema(
      None, TypeOf(schema.kinds), schema.listed, schema.constant,
      if schema.range.Some? then Some(AtLeast(schema.minimum, schema.range.value.0 as real)) else schema.minimum,
      if schema.range.Some? then Some(AtMost(schema.maximum, schema.range.value.1 as real)) else schema.maximum,
      schema.minLength,
      if schema.items.Some? then Import(schema.items.value) else None,
      ImportEach(schema.properties, tags),
      schema.required - tags,
      if schema.additional.EachOther? then Import(schema.additional.schema) else None,
      None, Undeclared))
  }

  function ImportEach(properties: JsonDeclared, tags: set<string>): Declared
    decreases properties, 1
  {
    match properties
    case NoProperties => Undeclared
    case Properties(fields) =>
      Declared(map k | k in fields && k !in tags && Import(fields[k]).Some? :: Import(fields[k]).value)
  }

  // ---------------------------------------------------------------- tagged unions

  /** The member is a required string constant of the variant. */
  predicate IsTagOf(variant: JsonSchema, name: string) {
    && variant.JsonSchema? && variant.properties.Properties? && name in variant.properties.fields && name in variant.required
    && variant.properties.fields[name].JsonSchema?
    && variant.properties.fields[name].constant.Some? && variant.properties.fields[name].constant.value.Text?
  }

  /** A tag's schema says nothing but its constant, and that it is a string. */
  predicate IsTagSchema(schema: JsonSchema) {
    && schema.JsonSchema? && schema.ref.None? && (schema.kinds.None? || schema.kinds == Some([StringKind]))
    && IsReferenceAlone(schema.(kinds := None, constant := None))
  }

  function TagOf(variant: JsonSchema, name: string): string
    requires IsTagOf(variant, name)
  {
    variant.properties.fields[name].constant.value.s
  }

  /** The members every variant has as a tag. */
  function Discriminators(variants: map<string, JsonSchema>): set<string> {
    set t, k | t in variants && k in PropertyNames(variants[t]) && (forall u | u in variants :: IsTagOf(variants[u], k)) :: k
  }

  function PropertyNames(schema: JsonSchema): set<string> {
    if schema.JsonSchema? && schema.properties.Properties? then schema.properties.fields.Keys else {}
  }

  /** Every variant is imported, each under a tag of its own. */
  predicate VariantsImport(oneOf: Alternatives, name: string)
    requires oneOf.OneOf?
    decreases oneOf, 0
  {
    && (forall t | t in oneOf.variants ::
          && IsTagOf(oneOf.variants[t], name) && IsTagSchema(oneOf.variants[t].properties.fields[name])
          && oneOf.variants[t].ref.None? && oneOf.variants[t].oneOf.Unrestricted?
          && ImportNode(oneOf.variants[t], {name}).Some?)
    && forall t, u | t in oneOf.variants && u in oneOf.variants && t != u ::
         TagOf(oneOf.variants[t], name) != TagOf(oneOf.variants[u], name)
  }

  /** Alternatives told apart by the one member all of them have as a tag. */
  function ImportUnion(oneOf: Alternatives): Option<Schema>
    requires oneOf.OneOf?
    decreases oneOf, 2
  {
    var names := Discriminators(oneOf.variants);
    if oneOf.variants == map[] || !(exists name :: name in names && names == {name}) then None
    else
      var name :| name in names && names == {name};
      if !VariantsImport(oneOf, name) then None
      else Some(Blank().(typed := Single(ObjectKind), discriminator := Some(name), oneOf := ImportedVariants(oneOf, name)))
  }

  function ImportedVariants(oneOf: Alternatives, name: string): Declared
    requires oneOf.OneOf? && VariantsImport(oneOf, name)
    decreases oneOf, 1
  {
    Declared(map t | t in oneOf.variants :: TagOf(oneOf.variants[t], name) := ImportNode(oneOf.variants[t], {name}).value)
  }

  function ImportDefs(defs: JsonDefs): Defs { map n | n in defs && Import(defs[n]).Some? :: Import(defs[n]).value }

  // ---------------------------------------------------------------- meaning

  /** The definitions are imported, and validation passes them. */
  ghost predicate AllImport(defs: JsonDefs) { forall n | n in defs :: Import(defs[n]).Some? && Valid(Import(defs[n]).value) }

  lemma {:induction false} ImportedLinks(defs: JsonDefs)
    requires AllImport(defs)
    ensures LinksOf(ImportDefs(defs)) == JsonLinks(defs)
  {
    forall n | n in defs ensures ImportDefs(defs)[n].ref == ReferenceOf(defs[n]) { ImportedReference(defs[n]); }
  }

  lemma {:induction false} ImportedReference(schema: JsonSchema)
    requires Import(schema).Some?
    ensures Import(schema).value.ref == ReferenceOf(schema)
  {
  }

  /** A value satisfies the schema imported exactly when it satisfies the JSON Schema it was imported
      from, and then the schema exported again. */
  lemma {:induction false} ImportPreservesMeaning(defs: JsonDefs, schema: JsonSchema, value: Json)
    requires AllImport(defs) && Import(schema).Some? && Valid(Import(schema).value)
    ensures Satisfies(ImportDefs(defs), Import(schema).value, value) <==> Accepts(defs, schema, value)
    decreases value, 3
  {
    var imported := Import(schema).value;
    ImportedReference(schema);
    if imported.ref.Some? {
      ImportedLinks(defs);
      var last := Last(JsonLinks(defs), imported.ref.value, {});
      if last.Some? {
        ImportedReference(defs[last.value]);
        PlainImport(defs, defs[last.value], value);
      }
    } else {
      PlainImport(defs, schema, value);
    }
  }

  lemma {:induction false} PlainImport(defs: JsonDefs, schema: JsonSchema, value: Json)
    requires AllImport(defs) && Import(schema).Some? && Valid(Import(schema).value) && Import(schema).value.ref.None?
    ensures Satisfies(ImportDefs(defs), Import(schema).value, value) <==> AcceptsPlain(defs, schema, value)
    decreases value, 2
  {
    if schema.Always? {
      HasTheKind(value, JsonKind);
    } else if schema.oneOf.OneOf? {
      UnionImport(defs, schema, value);
    } else {
      NodeImport(defs, schema, value);
    }
  }

  /** The bounds with a format's range are those the range leaves. */
  lemma {:induction false} BoundsImport(schema: JsonSchema, tags: set<string>, value: Json)
    requires schema.JsonSchema? && ImportNode(schema, tags).Some?
    ensures MeetsBounds(ImportNode(schema, tags).value, value) <==>
            && Within(value, schema.minimum, schema.maximum, schema.minLength)
            && (value.Num? && schema.range.Some? ==> schema.range.value.0 as real <= value.r <= schema.range.value.1 as real)
  {
  }

  lemma {:induction false} KeywordsImport(schema: JsonSchema, tags: set<string>, value: Json)
    requires schema.JsonSchema? && ImportNode(schema, tags).Some? && Checked(ImportNode(schema, tags).value)
    ensures MeetsKeywords(ImportNode(schema, tags).value, value) <==> AcceptsKeywords(schema, value)
  {
    BoundsImport(schema, tags, value);
    NodeShape(schema, tags);
    if schema.kinds.Some? && |schema.kinds.value| == 1 { assert [schema.kinds.value[0]] == schema.kinds.value; }
    assert Some(KindsOf(ImportNode(schema, tags).value).value) == schema.kinds;
  }

  lemma {:induction false} TypeIs(kinds: Option<seq<Kind>>, kind: Kind)
    requires TypeOf(kinds) == Single(kind)
    ensures kinds == Some([kind])
  {
    assert kinds.value == [kind];
  }

  /** What a node imported has of its schema. */
  lemma {:induction false} NodeShape(schema: JsonSchema, tags: set<string>)
    requires schema.JsonSchema? && ImportNode(schema, tags).Some?
    ensures var imported := ImportNode(schema, tags).value;
            && imported.typed == TypeOf(schema.kinds) && imported.required == schema.required - tags
            && imported.ref.None? && imported.oneOf.Undeclared? && imported.discriminator.None?
            && (schema.items.Some? ==> Import(schema.items.value).Some? && imported.items == Import(schema.items.value))
            && (schema.items.None? ==> imported.items.None?)
            && (schema.additional.EachOther? ==> Import(schema.additional.schema).Some? && imported.additional == Import(schema.additional.schema))
            && (!schema.additional.EachOther? ==> imported.additional.None?)
            && (schema.additional.AnyOther? <==> schema.kinds != Some([ObjectKind]))
            && (schema.properties.Properties? <==> imported.properties.Declared?)
            && (schema.properties.Properties? ==>
                  forall k | k !in tags :: k in schema.properties.fields <==> k in imported.properties.fields)
            && (schema.properties.Properties? ==>
                  forall k | k in schema.properties.fields && k !in tags ::
                    Import(schema.properties.fields[k]) == Some(imported.properties.fields[k]))
  {
  }

  /** A member that is no tag means the same to the object imported. */
  lemma {:induction false} MemberImport(defs: JsonDefs, schema: JsonSchema, tags: set<string>, name: string, value: Json)
    requires AllImport(defs) && schema.JsonSchema? && ImportNode(schema, tags).Some? && Valid(ImportNode(schema, tags).value)
    requires schema.kinds == Some([ObjectKind]) && name !in tags
    ensures MemberSatisfies(ImportDefs(defs), ImportNode(schema, tags).value, name, value) <==> AcceptsMember(defs, schema, name, value)
    decreases value, 4
  {
    NodeShape(schema, tags);
    if schema.properties.Properties? && name in schema.properties.fields {
      ImportPreservesMeaning(defs, schema.properties.fields[name], value);
    } else if schema.additional.EachOther? {
      ImportPreservesMeaning(defs, schema.additional.schema, value);
    }
  }

  lemma {:induction false} NodeImport(defs: JsonDefs, schema: JsonSchema, value: Json)
    requires AllImport(defs) && schema.JsonSchema? && schema.oneOf.Unrestricted?
    requires ImportNode(schema, {}).Some? && Valid(ImportNode(schema, {}).value)
    ensures Satisfies(ImportDefs(defs), ImportNode(schema, {}).value, value) <==> AcceptsPlain(defs, schema, value)
    decreases value, 1
  {
    var imported := ImportNode(schema, {}).value;
    KeywordsImport(schema, {}, value);
    NodeShape(schema, {});
    if imported.typed == Single(ObjectKind) {
      TypeIs(schema.kinds, ObjectKind);
      ObjectImport(defs, schema, value);
    } else if imported.typed == Single(ArrayKind) {
      ArrayImport(defs, schema, value);
    } else {
      ScalarImport(defs, schema, value);
    }
  }

  lemma {:induction false} ScalarImport(defs: JsonDefs, schema: JsonSchema, value: Json)
    requires schema.JsonSchema? && schema.oneOf.Unrestricted? && ImportNode(schema, {}).Some? && Checked(ImportNode(schema, {}).value)
    requires ImportNode(schema, {}).value.typed != Single(ObjectKind) && ImportNode(schema, {}).value.typed != Single(ArrayKind)
    ensures Satisfies(ImportDefs(defs), ImportNode(schema, {}).value, value) <==> AcceptsPlain(defs, schema, value)
  {
    KeywordsImport(schema, {}, value);
    NodeShape(schema, {});
    assert schema.required - {} == schema.required;
    assert schema.items.None? && schema.properties.NoProperties? && schema.additional.AnyOther? && schema.required == {};
  }

  lemma {:induction false} ArrayImport(defs: JsonDefs, schema: JsonSchema, value: Json)
    requires AllImport(defs) && schema.JsonSchema? && schema.oneOf.Unrestricted?
    requires ImportNode(schema, {}).Some? && Valid(ImportNode(schema, {}).value) && ImportNode(schema, {}).value.typed == Single(ArrayKind)
    ensures Satisfies(ImportDefs(defs), ImportNode(schema, {}).value, value) <==> AcceptsPlain(defs, schema, value)
    decreases value, 0
  {
    var imported := ImportNode(schema, {}).value;
    KeywordsImport(schema, {}, value);
    NodeShape(schema, {});
    HasTheKind(value, ArrayKind);
    if value.List? {
      forall i | 0 <= i < |value.items|
        ensures Satisfies(ImportDefs(defs), imported.items.value, value.items[i]) <==> Accepts(defs, schema.items.value, value.items[i])
      {
        ImportPreservesMeaning(defs, schema.items.value, value.items[i]);
      }
    }
  }

  lemma {:induction false} ObjectImport(defs: JsonDefs, schema: JsonSchema, value: Json)
    requires AllImport(defs) && schema.JsonSchema? && schema.oneOf.Unrestricted? && schema.kinds == Some([ObjectKind])
    requires ImportNode(schema, {}).Some? && Valid(ImportNode(schema, {}).value)
    ensures Satisfies(ImportDefs(defs), ImportNode(schema, {}).value, value) <==> AcceptsPlain(defs, schema, value)
    decreases value, 0
  {
    var imported := ImportNode(schema, {}).value;
    KeywordsImport(schema, {}, value);
    NodeShape(schema, {});
    HasTheKind(value, ObjectKind);
    if value.Object? {
      assert imported.required == schema.required;
      forall k | k in value.members
        ensures MemberSatisfies(ImportDefs(defs), imported, k, value.members[k]) <==> AcceptsMember(defs, schema, k, value.members[k])
      {
        MemberImport(defs, schema, {}, k, value.members[k]);
      }
    }
  }

  lemma {:induction false} TagImport(defs: JsonDefs, schema: JsonSchema, tag: string, value: Json)
    requires IsTagSchema(schema) && schema.constant == Some(Text(tag))
    ensures Accepts(defs, schema, value) <==> value == Text(tag)
  {
    HasTheKind(value, StringKind);
  }

  /** A variant means the same with its tag taken out of it and put beside it. */
  lemma {:induction false} VariantImport(defs: JsonDefs, variant: JsonSchema, name: string, members: map<string, Json>)
    requires AllImport(defs) && IsTagOf(variant, name) && IsTagSchema(variant.properties.fields[name])
    requires variant.ref.None? && variant.oneOf.Unrestricted?
    requires ImportNode(variant, {name}).Some? && Valid(ImportNode(variant, {name}).value) && IsVariant(ImportNode(variant, {name}).value, name)
    ensures IsOfVariant(ImportDefs(defs), ImportNode(variant, {name}).value, name, TagOf(variant, name), members)
       <==> AcceptsPlain(defs, variant, Object(members))
    decreases Object(members), 0, 0
  {
    var imported, tag := ImportNode(variant, {name}).value, TagOf(variant, name);
    HasTheKind(Object(members), ObjectKind);
    NodeShape(variant, {name});
    TypeIs(variant.kinds, ObjectKind);
    VariantKeywords(imported);
    forall k | k in members
      ensures AcceptsMember(defs, variant, k, members[k])
         <==> if k == name then members[k] == Text(tag) else MemberSatisfies(ImportDefs(defs), imported, k, members[k])
    {
      if k == name {
        TagImport(defs, variant.properties.fields[name], tag, members[k]);
      } else {
        MemberImport(defs, variant, {name}, k, members[k]);
      }
    }
    assert variant.required == imported.required + {name};
  }

  /** What an imported union is made of. */
  lemma {:induction false} UnionShape(schema: JsonSchema) returns (name: string)
    requires schema.JsonSchema? && schema.oneOf.OneOf? && Import(schema).Some?
    ensures VariantsImport(schema.oneOf, name)
    ensures Import(schema).value == Blank().(typed := Single(ObjectKind), discriminator := Some(name), oneOf := ImportedVariants(schema.oneOf, name))
  {
    var names := Discriminators(schema.oneOf.variants);
    name :| name in names && names == {name};
  }

  /** The variant is imported under its tag, and means the same there. */
  ghost predicate Agrees(defs: JsonDefs, imported: Schema, variant: JsonSchema, name: string, members: map<string, Json>)
    requires imported.oneOf.Declared? && IsTagOf(variant, name)
  {
    var tag := TagOf(variant, name);
    && tag in imported.oneOf.fields
    && (AcceptsPlain(defs, variant, Object(members)) <==> IsOfVariant(ImportDefs(defs), imported.oneOf.fields[tag], name, tag, members))
  }

  lemma {:induction false} VariantsAgree(defs: JsonDefs, schema: JsonSchema, name: string, members: map<string, Json>)
    requires AllImport(defs) && schema.JsonSchema? && schema.oneOf.OneOf? && VariantsImport(schema.oneOf, name)
    requires Import(schema).Some? && Valid(Import(schema).value)
    requires Import(schema).value == Blank().(typed := Single(ObjectKind), discriminator := Some(name), oneOf := ImportedVariants(schema.oneOf, name))
    ensures forall t | t in schema.oneOf.variants :: Agrees(defs, Import(schema).value, schema.oneOf.variants[t], name, members)
    ensures forall tag | tag in Import(schema).value.oneOf.fields ::
              exists t :: t in schema.oneOf.variants && TagOf(schema.oneOf.variants[t], name) == tag
    decreases Object(members), 0, 1
  {
    forall t | t in schema.oneOf.variants ensures Agrees(defs, Import(schema).value, schema.oneOf.variants[t], name, members) {
      var variant := schema.oneOf.variants[t];
      assert TagOf(variant, name) in ImportedVariants(schema.oneOf, name).fields;
      VariantImport(defs, variant, name, members);
    }
  }

  lemma {:induction false} UnionImport(defs: JsonDefs, schema: JsonSchema, value: Json)
    requires AllImport(defs) && schema.JsonSchema? && schema.ref.None? && schema.oneOf.OneOf?
    requires Import(schema).Some? && Valid(Import(schema).value)
    ensures Satisfies(ImportDefs(defs), Import(schema).value, value) <==> AcceptsPlain(defs, schema, value)
    decreases value, 1
  {
    var imported := Import(schema).value;
    var name := UnionShape(schema);
    if value.Object? {
      OneOfImport(defs, schema, name, value.members);
    } else {
      NoVariant(defs, schema, name, value);
      HasTheKind(value, ObjectKind);
    }
  }

  lemma {:induction false} NoVariant(defs: JsonDefs, schema: JsonSchema, name: string, value: Json)
    requires schema.JsonSchema? && schema.oneOf.OneOf? && VariantsImport(schema.oneOf, name) && !value.Object?
    requires Import(schema).Some? && Valid(Import(schema).value)
    requires Import(schema).value == Blank().(typed := Single(ObjectKind), discriminator := Some(name), oneOf := ImportedVariants(schema.oneOf, name))
    ensures !AcceptsPlain(defs, schema, value)
  {
    forall t | t in schema.oneOf.variants ensures !AcceptsPlain(defs, schema.oneOf.variants[t], value) {
      assert TagOf(schema.oneOf.variants[t], name) in ImportedVariants(schema.oneOf, name).fields;
      ObjectVariant(defs, schema.oneOf.variants[t], name, value);
    }
  }

  lemma {:induction false} ObjectVariant(defs: JsonDefs, variant: JsonSchema, name: string, value: Json)
    requires variant.JsonSchema? && ImportNode(variant, {name}).Some? && IsVariant(ImportNode(variant, {name}).value, name) && !value.Object?
    ensures !AcceptsPlain(defs, variant, value)
  {
    NodeShape(variant, {name});
    TypeIs(variant.kinds, ObjectKind);
    HasTheKind(value, ObjectKind);
  }

  lemma {:induction false} OneOfImport(defs: JsonDefs, schema: JsonSchema, name: string, members: map<string, Json>)
    requires AllImport(defs) && schema.JsonSchema? && schema.ref.None? && schema.oneOf.OneOf? && VariantsImport(schema.oneOf, name)
    requires Import(schema).Some? && Valid(Import(schema).value)
    requires Import(schema).value == Blank().(typed := Single(ObjectKind), discriminator := Some(name), oneOf := ImportedVariants(schema.oneOf, name))
    ensures Satisfies(ImportDefs(defs), Import(schema).value, Object(members)) <==> AcceptsPlain(defs, schema, Object(members))
    decreases Object(members), 0, 2
  {
    var imported := Import(schema).value;
    VariantsAgree(defs, schema, name, members);
    AloneSaysNothing(schema, members);
    UnionSaysObject(imported, members);
    UnionIsItsVariant(ImportDefs(defs), imported, members);
    AcceptsOneOf(defs, schema, members);
    OnlyOneAgrees(defs, schema.oneOf.variants, imported, name, members);
  }

  lemma {:induction false} AloneSaysNothing(schema: JsonSchema, members: map<string, Json>)
    requires schema.JsonSchema? && schema.ref.None? && schema.oneOf.OneOf? && Import(schema).Some?
    ensures AcceptsKeywords(schema, Object(members)) && schema.required == {} && schema.properties.NoProperties? && schema.additional.AnyOther?
  {
  }

  lemma {:induction false} UnionSaysObject(schema: Schema, members: map<string, Json>)
    requires schema == Blank().(typed := Single(ObjectKind), discriminator := schema.discriminator, oneOf := schema.oneOf)
    ensures MeetsKeywords(schema, Object(members))
  {
    HasTheKind(Object(members), ObjectKind);
  }

  /** Tags differ, so a value of one variant is of no other. */
  lemma {:induction false} OnlyOneAgrees(defs: JsonDefs, variants: map<string, JsonSchema>, imported: Schema, name: string, members: map<string, Json>)
    requires imported.oneOf.Declared? && imported.discriminator == Some(name)
    requires forall t | t in variants :: IsTagOf(variants[t], name)
    requires forall t, u | t in variants && u in variants && t != u :: TagOf(variants[t], name) != TagOf(variants[u], name)
    requires forall t | t in variants :: Agrees(defs, imported, variants[t], name, members)
    requires forall tag | tag in imported.oneOf.fields :: exists t :: t in variants && TagOf(variants[t], name) == tag
    ensures OnlyOne(defs, variants, Object(members)) <==> SomeVariant(ImportDefs(defs), imported, members)
  {
    if OnlyOne(defs, variants, Object(members)) {
      var t :| t in variants && AcceptsPlain(defs, variants[t], Object(members));
      assert Agrees(defs, imported, variants[t], name, members);
    }
    if SomeVariant(ImportDefs(defs), imported, members) {
      var tag :| tag in imported.oneOf.fields && IsOfVariant(ImportDefs(defs), imported.oneOf.fields[tag], name, tag, members);
      var t :| t in variants && TagOf(variants[t], name) == tag;
      assert Agrees(defs, imported, variants[t], name, members);
      forall u | u in variants && u != t ensures !AcceptsPlain(defs, variants[u], Object(members)) {
        assert Agrees(defs, imported, variants[u], name, members);
      }
    }
  }

  /** A JSON Schema imported and exported again accepts the values it did. */
  lemma {:induction false} ImportThenExport(defs: JsonDefs, schema: JsonSchema, value: Json)
    requires AllImport(defs) && Import(schema).Some? && Valid(Import(schema).value)
    ensures Accepts(ExportDefs(ImportDefs(defs)), Export(Import(schema).value), value) <==> Accepts(defs, schema, value)
  {
    ImportPreservesMeaning(defs, schema, value);
    ExportPreservesMeaning(ImportDefs(defs), Import(schema).value, value);
  }
}
