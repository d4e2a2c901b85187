/** The document that carries a schema: the schema and the definitions it reaches, no others. */
module SchemaDocuments {
  import opened Wrappers
  import opened Schemas
  import opened JsonSchemas
  import opened JsonSchemaMeaning

  /** Every definition the schema and the schemas nested in it refer to. */
  function References(schema: Schema): set<string> {
    (if schema.ref.Some? then {schema.ref.value} else {})
    + (if schema.items.Some? then References(schema.items.value) else {})
    + (if schema.additional.Some? then References(schema.additional.value) else {})
    + ReferencesOfEach(schema.properties)
    + ReferencesOfEach(schema.oneOf)
  }

  function ReferencesOfEach(declared: Declared): set<string> {
    match declared
    case Undeclared => {}
    case Declared(fields) => set k, n | k in fields && n in References(fields[k]) :: n
  }

  /** Every reference of the definitions names a definition. */
  ghost predicate Resolved(defs: Defs) { forall n | n in defs :: References(defs[n]) <= defs.Keys }

  /** Each definition of the path is referred to by the one before it, the first by the root. */
  ghost predicate IsRoute(defs: Defs, root: Schema, route: seq<string>) {
    && |route| > 0 && route[0] in References(root)
    && forall i | 0 <= i < |route| - 1 :: route[i] in defs && route[i + 1] in References(defs[route[i]])
  }

  ghost predicate Reachable(defs: Defs, root: Schema, name: string) {
    exists route :: IsRoute(defs, root, route) && route[|route| - 1] == name
  }

  lemma {:induction false} ReachableOn(defs: Defs, root: Schema, name: string, next: string)
    requires Reachable(defs, root, name) && name in defs && next in References(defs[name])
    ensures Reachable(defs, root, next)
  {
    var route :| IsRoute(defs, root, route) && route[|route| - 1] == name;
    var longer := route + [next];
    forall i | 0 <= i < |longer| - 1 ensures longer[i] in defs && longer[i + 1] in References(defs[longer[i]]) {
      if i < |route| - 1 { assert longer[i] == route[i] && longer[i + 1] == route[i + 1]; }
    }
    assert IsRoute(defs, root, longer) && longer[|longer| - 1] == next;
  }

  lemma {:induction false} ReachableAtOnce(defs: Defs, root: Schema, name: string)
    requires name in References(root)
    ensures Reachable(defs, root, name)
  {
    assert IsRoute(defs, root, [name]);
  }

  /** The schema is the root, or a definition reached from it. */
  ghost predicate IsReached(defs: Defs, root: Schema, schema: Schema) {
    schema == root || exists n :: n in defs && defs[n] == schema && Reachable(defs, root, n)
  }

  lemma {:induction false} ReferenceIsReached(defs: Defs, root: Schema, schema: Schema, name: string)
    requires IsReached(defs, root, schema) && name in References(schema)
    ensures Reachable(defs, root, name)
  {
    if schema == root {
      ReachableAtOnce(defs, root, name);
    } else {
      var n :| n in defs && defs[n] == schema && Reachable(defs, root, n);
      ReachableOn(defs, root, n, name);
    }
  }

  /** All the references of a schema that is no longer pending are reached. */
  ghost predicate Followed(pending: seq<Schema>, schema: Schema, reached: set<string>) {
    schema in pending || References(schema) <= reached
  }

  /** The new schemas a schema refers to, beside those pending. */
  method AddReferences(defs: Defs, schema: Schema, reached: set<string>, pending: seq<Schema>)
    returns (more: set<string>, waiting: seq<Schema>)
    requires References(schema) <= defs.Keys && reached <= defs.Keys
    ensures more == reached + References(schema)
    ensures forall s | s in pending :: s in waiting
    ensures forall n | n in more && n !in reached :: defs[n] in waiting
    ensures forall s | s in waiting :: s in pending || exists n :: n in References(schema) && s == defs[n]
    ensures more == reached ==> waiting == pending
  {
    more, waiting := reached, pending;
    var names := References(schema);
    while names != {}
      invariant names <= References(schema) && more + names == reached + References(schema) && reached <= more
      invariant forall s | s in pending :: s in waiting
      invariant forall n | n in more && n !in reached :: defs[n] in waiting
      invariant forall s | s in waiting :: s in pending || exists n :: n in References(schema) && s == defs[n]
      invariant more == reached ==> waiting == pending
      decreases |names|
    {
      var name :| name in names;
      names := names - {name};
      if name !in more {
        more := more + {name};
        waiting := waiting + [defs[name]];
      }
    }
  }

  /** What the search for definitions keeps. */
  ghost predicate Searching(defs: Defs, root: Schema, reached: set<string>, pending: seq<Schema>) {
    && reached <= defs.Keys && (forall n | n in reached :: Reachable(defs, root, n))
    && (forall s | s in pending :: IsReached(defs, root, s) && References(s) <= defs.Keys)
    && Followed(pending, root, reached) && forall n | n in reached :: Followed(pending, defs[n], reached)
  }

  lemma {:induction false} SearchesOn(defs: Defs, root: Schema, reached: set<string>, pending: seq<Schema>, more: set<string>, waiting: seq<Schema>)
    requires Resolved(defs) && Searching(defs, root, reached, pending) && pending != []
    requires var schema, rest := pending[|pending| - 1], pending[..|pending| - 1];
             && more == reached + References(schema)
             && (forall s | s in rest :: s in waiting)
             && (forall n | n in more && n !in reached :: defs[n] in waiting)
             && forall s | s in waiting :: s in rest || exists n :: n in References(schema) && s == defs[n]
    ensures Searching(defs, root, more, waiting)
  {
    var schema, rest := pending[|pending| - 1], pending[..|pending| - 1];
    assert schema in pending;
    forall n | n in References(schema) ensures Reachable(defs, root, n) && IsReached(defs, root, defs[n]) {
      ReferenceIsReached(defs, root, schema, n);
    }
    forall s | s in pending ensures Followed(waiting, s, more) { assert s == schema || s in rest; }
    forall n | n in more ensures Followed(waiting, defs[n], more) {
      if n in reached { assert Followed(pending, defs[n], reached); }
    }
    assert Followed(pending, root, reached);
  }

  /** The definitions a schema reaches, by a list of those still to be looked through. */
  method ReachedDefinitions(defs: Defs, root: Schema) returns (reached: set<string>)
    requires Resolved(defs) && References(root) <= defs.Keys
    ensures reached <= defs.Keys
    ensures forall n :: n in reached <==> Reachable(defs, root, n)
  {
    reached := {};
    var pending := [root];
    while pending != []
      invariant Searching(defs, root, reached, pending)
      decreases defs.Keys - reached, |pending|
    {
      var schema := pending[|pending| - 1];
      assert schema in pending;
      var more, waiting := AddReferences(defs, schema, reached, pending[..|pending| - 1]);
      SearchesOn(defs, root, reached, pending, more, waiting);
      reached, pending := more, waiting;
    }
    AllAreReached(defs, root, reached);
  }

  lemma {:induction false} AllAreReached(defs: Defs, root: Schema, reached: set<string>)
    requires Searching(defs, root, reached, [])
    ensures forall n :: n in reached <==> Reachable(defs, root, n)
  {
    forall n | n in reached ensures References(defs[n]) <= reached { assert Followed([], defs[n], reached); }
    assert References(root) <= reached by { assert Followed([], root, reached); }
    ClosedHoldsReachable(defs, root, reached);
  }

  lemma {:induction false} ClosedHoldsReachable(defs: Defs, root: Schema, reached: set<string>)
    requires References(root) <= reached && reached <= defs.Keys && forall n | n in reached :: References(defs[n]) <= reached
    ensures forall n | Reachable(defs, root, n) :: n in reached
  {
    forall n | Reachable(defs, root, n) ensures n in reached {
      var route :| IsRoute(defs, root, route) && route[|route| - 1] == n;
      RouteIsReached(defs, root, reached, route, |route| - 1);
    }
  }

  /** A set that holds what the root and its own members refer to holds every route. */
  lemma {:induction false} RouteIsReached(defs: Defs, root: Schema, reached: set<string>, route: seq<string>, i: nat)
    requires IsRoute(defs, root, route) && i < |route|
    requires References(root) <= reached && reached <= defs.Keys && forall n | n in reached :: References(defs[n]) <= reached
    ensures route[i] in reached
    decreases i
  {
    if i > 0 {
      RouteIsReached(defs, root, reached, route, i - 1);
      assert route[(i - 1) + 1] in References(defs[route[i - 1]]);
    }
  }

  // ---------------------------------------------------------------- the document

  function Keep(defs: Defs, kept: set<string>): Defs { map n | n in defs && n in kept :: defs[n] }

  /** The kept definitions refer only to one another. */
  ghost predicate KeptClosed(defs: Defs, kept: set<string>) {
    kept <= defs.Keys && forall n | n in kept :: References(defs[n]) <= kept
  }

  lemma {:induction false} LastKept(defs: Defs, kept: set<string>, name: string, met: set<string>)
    requires KeptClosed(defs, kept) && name in kept
    ensures Last(LinksOf(Keep(defs, kept)), name, met) == Last(LinksOf(defs), name, met)
    ensures Last(LinksOf(defs), name, met).Some? ==> Last(LinksOf(defs), name, met).value in kept
    decreases LinksOf(defs).Keys - met
  {
    if name !in met && defs[name].ref.Some? {
      assert defs[name].ref.value in References(defs[name]);
      LastKept(defs, kept, defs[name].ref.value, met + {name});
    }
  }

  /** A schema that refers only to kept definitions means the same with the others gone. */
  lemma {:induction false} KeepPreservesMeaning(defs: Defs, kept: set<string>, schema: Schema, value: Json)
    requires KeptClosed(defs, kept) && References(schema) <= kept
    ensures Satisfies(Keep(defs, kept), schema, value) <==> Satisfies(defs, schema, value)
    decreases value, if schema.ref.Some? then 1 else 0
  {
    if schema.ref.Some? {
      LastKept(defs, kept, schema.ref.value, {});
      var last := Last(LinksOf(defs), schema.ref.value, {});
      if last.Some? { KeepPreservesMeaning(defs, kept, defs[last.value], value); }
    } else if value.List? && schema.items.Some? {
      forall i | 0 <= i < |value.items|
        ensures Satisfies(Keep(defs, kept), schema.items.value, value.items[i])
           <==> Satisfies(defs, schema.items.value, value.items[i])
      {
        KeepPreservesMeaning(defs, kept, schema.items.value, value.items[i]);
      }
    } else if value.Object? {
      KeepPreservesMembers(defs, kept, schema, schema, value.members, None);
      if schema.oneOf.Declared? {
        forall t | t in schema.oneOf.fields
          ensures MembersSatisfy(Keep(defs, kept), schema.oneOf.fields[t], value.members, schema.discriminator)
             <==> MembersSatisfy(defs, schema.oneOf.fields[t], value.members, schema.discriminator)
        {
          KeepPreservesMembers(defs, kept, schema, schema.oneOf.fields[t], value.members, schema.discriminator);
        }
      }
    }
  }

  lemma {:induction false} KeepPreservesMembers(defs: Defs, kept: set<string>, whole: Schema, schema: Schema,
                                                members: map<string, Json>, discriminator: Option<string>)
    requires KeptClosed(defs, kept) && References(whole) <= kept
    requires schema == whole || (whole.oneOf.Declared? && schema in whole.oneOf.fields.Values)
    ensures MembersSatisfy(Keep(defs, kept), schema, members, discriminator) <==> MembersSatisfy(defs, schema, members, discriminator)
    decreases Object(members), -1
  {
    forall k | k in members
      ensures MemberSatisfies(Keep(defs, kept), schema, k, members[k]) <==> MemberSatisfies(defs, schema, k, members[k])
    {
      KeepPreservesMember(defs, kept, whole, schema, k, members[k]);
    }
  }

  lemma {:induction false} KeepPreservesMember(defs: Defs, kept: set<string>, whole: Schema, schema: Schema, name: string, value: Json)
    requires KeptClosed(defs, kept) && References(whole) <= kept
    requires schema == whole || (whole.oneOf.Declared? && schema in whole.oneOf.fields.Values)
    ensures MemberSatisfies(Keep(defs, kept), schema, name, value) <==> MemberSatisfies(defs, schema, name, value)
    decreases value, 2
  {
    VariantReferences(whole, schema);
    if schema.properties.Declared? && name in schema.properties.fields {
      assert References(schema.properties.fields[name]) <= References(schema);
      KeepPreservesMeaning(defs, kept, schema.properties.fields[name], value);
    } else if schema.additional.Some? {
      KeepPreservesMeaning(defs, kept, schema.additional.value, value);
    }
  }

  lemma {:induction false} VariantReferences(whole: Schema, schema: Schema)
    requires schema == whole || (whole.oneOf.Declared? && schema in whole.oneOf.fields.Values)
    ensures References(schema) <= References(whole)
  {
    if schema != whole {
      var t :| t in whole.oneOf.fields && whole.oneOf.fields[t] == schema;
      assert References(schema) <= ReferencesOfEach(whole.oneOf);
    }
  }

  datatype Document = Document(root: JsonSchema, defs: JsonDefs)

  /** The document of a definition: it carries exactly the definitions it reaches, every reference
      in it resolves, and it accepts exactly the values of the definition. */
  method SchemaDocument(defs: Defs, name: string) returns (document: Document)
    requires Resolved(defs) && AllValid(defs) && name in defs
    ensures document.root == Export(defs[name])
    ensures forall n :: n in document.defs <==> Reachable(defs, defs[name], n)
    ensures forall n | n in document.defs :: n in defs && document.defs[n] == Export(defs[n])
    ensures References(defs[name]) <= document.defs.Keys
    ensures forall n | n in document.defs :: References(defs[n]) <= document.defs.Keys
    ensures forall value :: Accepts(document.defs, document.root, value) <==> Satisfies(defs, defs[name], value)
  {
    var reached := ReachedDefinitions(defs, defs[name]);
    document := Document(Export(defs[name]), ExportDefs(Keep(defs, reached)));
    ReachedIsClosed(defs, defs[name], reached);
    forall value ensures Accepts(document.defs, document.root, value) <==> Satisfies(defs, defs[name], value) {
      DocumentMeans(defs, reached, defs[name], value);
    }
  }

  lemma {:induction false} ReachedIsClosed(defs: Defs, root: Schema, reached: set<string>)
    requires reached <= defs.Keys && forall n :: n in reached <==> Reachable(defs, root, n)
    ensures References(root) <= reached && KeptClosed(defs, reached)
  {
    forall n | n in References(root) ensures n in reached { ReachableAtOnce(defs, root, n); }
    forall n, m | n in reached && m in References(defs[n]) ensures m in reached { ReachableOn(defs, root, n, m); }
  }

  lemma {:induction false} DocumentMeans(defs: Defs, kept: set<string>, root: Schema, value: Json)
    requires AllValid(defs) && Valid(root) && KeptClosed(defs, kept) && References(root) <= kept
    ensures Accepts(ExportDefs(Keep(defs, kept)), Export(root), value) <==> Satisfies(defs, root, value)
  {
    KeepPreservesMeaning(defs, kept, root, value);
    ExportPreservesMeaning(Keep(defs, kept), root, value);
  }
}
