/** Which schemas validation passes, form by form. */
module SchemaForms {
  import opened Wrappers
  import opened Schemas
  import opened SchemaImports

  /** A reference passes by itself. */
  lemma {:induction false} ReferencePasses(name: string)
    ensures Valid(Blank().(ref := Some(name)))
    ensures forall kind :: !Valid(Blank().(ref := Some(name), typed := Single(kind)))
  {
  }

  /** A schema of one kind that is neither array nor object, with bounds: numbers have a minimum and a
      maximum, texts a least length, which is a whole number. */
  lemma {:induction false} ScalarPassesExactly(kind: Kind, minimum: Option<real>, maximum: Option<real>, minLength: Option<real>)
    requires kind != ArrayKind && kind != ObjectKind
    ensures Valid(Blank().(typed := Single(kind), minimum := minimum, maximum := maximum, minLength := minLength)) <==>
            && (minimum.Some? || maximum.Some? ==> kind == IntegerKind || kind == NumberKind)
            && (minLength.Some? ==> kind == StringKind && minLength.value.Floor as real == minLength.value && minLength.value >= 0.0)
  {
    var schema := Blank().(typed := Single(kind), minimum := minimum, maximum := maximum, minLength := minLength);
    assert KindsOf(schema).value[0] == kind;
  }

  /** Several kinds pass when they are primitive, two at least, and no two alike. */
  lemma {:induction false} KindsPassExactly(kinds: seq<Kind>)
    ensures Valid(Blank().(typed := Union(kinds))) <==>
            && |kinds| >= 2 && (forall i | 0 <= i < |kinds| :: kinds[i] in {StringKind, BooleanKind, IntegerKind, NumberKind})
            && forall i, j | 0 <= i < j < |kinds| :: kinds[i] != kinds[j]
  {
    assert KindsOf(Blank().(typed := Union(kinds))).Some? ==> |kinds| >= 2;
  }

  /** Only texts are enumerated, one at least. */
  lemma {:induction false} EnumerationPassesExactly(kind: Kind, values: seq<Json>)
    requires kind != ArrayKind && kind != ObjectKind
    ensures Valid(Blank().(typed := Single(kind), listed := Some(values))) <==>
            kind == StringKind && values != [] && forall i | 0 <= i < |values| :: values[i].Text?
  {
    var schema := Blank().(typed := Single(kind), listed := Some(values));
    if values != [] { assert MeetsBounds(schema, values[0]); }
  }

  /** A constant is of its schema's kind, which is primitive. */
  lemma {:induction false} ConstantPassesExactly(kind: Kind, value: Json)
    ensures Valid(Blank().(typed := Single(kind), constant := Some(value))) <==>
            match kind
            case StringKind => value.Text?
            case BooleanKind => value.Bool?
            case IntegerKind => value.Num? && value.r.Floor as real == value.r
            case NumberKind => value.Num?
            case _ => false
  {
    var schema := Blank().(typed := Single(kind), constant := Some(value));
    assert KindsOf(schema).value == [kind];
    assert HasSomeKind(value, [kind]) <==> HasKind(value, [kind][0]);
    assert IsPrimitive([kind][0]) <==> forall i | 0 <= i < |[kind]| :: IsPrimitive([kind][i]);
  }

  /** An array passes exactly when its items' schema does, and without one never. */
  lemma {:induction false} ArrayPassesExactly(items: Option<Schema>)
    ensures Valid(Blank().(typed := Single(ArrayKind), items := items)) <==> items.Some? && Valid(items.value)
  {
  }

  /** A record passes exactly when its values' schema does. */
  lemma {:induction false} RecordPassesExactly(values: Option<Schema>)
    ensures Valid(Blank().(typed := Single(ObjectKind), additional := values)) <==> values.Some? && Valid(values.value)
  {
  }

  /** An object with members passes exactly when their schemas do, those for its other members too if there
      are any, and what it requires is declared. */
  lemma {:induction false} ObjectPassesExactly(fields: map<string, Schema>, required: set<string>, others: Option<Schema>)
    ensures Valid(Blank().(typed := Single(ObjectKind), properties := Declared(fields), required := required, additional := others)) <==>
            && (forall k | k in fields :: Valid(fields[k])) && (others.Some? ==> Valid(others.value)) && required <= fields.Keys
  {
  }

  /** A tagged union passes exactly when it has variants, and each is a closed object that passes and does
      not declare the tag. */
  lemma {:induction false} UnionPassesExactly(discriminator: string, variants: map<string, Schema>)
    ensures Valid(Blank().(typed := Single(ObjectKind), discriminator := Some(discriminator), oneOf := Declared(variants))) <==>
            && variants != map[]
            && forall t | t in variants ::
                 && Valid(variants[t]) && variants[t].ref.None? && variants[t].typed == Single(ObjectKind)
                 && variants[t].properties.Declared? && discriminator !in variants[t].properties.fields && variants[t].additional.None?
                 && variants[t].oneOf.Undeclared? && variants[t].discriminator.None?
  {
  }
}
