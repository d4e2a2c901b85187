/**
 Which fields of the generated Rust types are boxed: those whose type holds the field's own
 definition without an indirection. A depth-first search over the definitions decides it.
 */
module Boxing {
  import opened Wrappers
  import opened Schemas
  import opened ReferenceChains

  function Each(declared: Declared): set<Schema> {
    if declared.Declared? then declared.fields.Values else {}
  }

  /** The schemas of the fields of a struct, or of a tagged union's variants. */
  function Fields(schema: Schema): set<Schema> {
    Each(schema.properties) + set v, f | v in Each(schema.oneOf) && f in Each(v.properties) :: f
  }

  lemma {:induction false} FieldIsSmaller(schema: Schema, field: Schema)
    requires field in Fields(schema)
    ensures field < schema
  {
    if field in Each(schema.properties) {
      var k :| k in schema.properties.fields && schema.properties.fields[k] == field;
    } else {
      var v :| v in Each(schema.oneOf) && field in Each(v.properties);
      var t :| t in schema.oneOf.fields && schema.oneOf.fields[t] == v;
      var k :| k in v.properties.fields && v.properties.fields[k] == field;
    }
  }

  /** A value of the schema holds one of the named definition without an indirection. */
  ghost predicate Holds(schema: Schema, name: string) {
    if schema.ref.Some? then schema.ref.value == name
    else schema.typed == Single(ObjectKind) && exists f :: f in Fields(schema) && f < schema && Holds(f, name)
  }

  /** A member of the object holds the definition. */
  ghost predicate MemberHolds(schema: Schema, name: string) {
    schema.properties.Declared? && exists k :: k in schema.properties.fields && Holds(schema.properties.fields[k], name)
  }

  /** Which members hold a definition: those of an object and of its variants, and neither items nor the
      values of a record. */
  lemma {:induction false} HoldsExactly(schema: Schema, name: string)
    ensures Holds(schema, name) <==>
            if schema.ref.Some? then schema.ref.value == name
            else schema.typed == Single(ObjectKind)
                 && (MemberHolds(schema, name)
                     || (schema.oneOf.Declared? && exists t :: t in schema.oneOf.fields && MemberHolds(schema.oneOf.fields[t], name)))
  {
    if schema.ref.None? && schema.typed == Single(ObjectKind) {
      if Holds(schema, name) {
        var f :| f in Fields(schema) && f < schema && Holds(f, name);
        FieldHolds(schema, f, name);
      }
      if MemberHolds(schema, name) {
        MemberIsField(schema, name);
      } else if schema.oneOf.Declared? && exists t :: t in schema.oneOf.fields && MemberHolds(schema.oneOf.fields[t], name) {
        var t :| t in schema.oneOf.fields && MemberHolds(schema.oneOf.fields[t], name);
        VariantMemberIsField(schema, t, name);
      }
    }
  }

  lemma {:induction false} FieldHolds(schema: Schema, f: Schema, name: string)
    requires f in Fields(schema) && Holds(f, name)
    ensures MemberHolds(schema, name)
            || (schema.oneOf.Declared? && exists t :: t in schema.oneOf.fields && MemberHolds(schema.oneOf.fields[t], name))
  {
    if f in Each(schema.properties) {
      var k :| k in schema.properties.fields && schema.properties.fields[k] == f;
    } else {
      var v :| v in Each(schema.oneOf) && f in Each(v.properties);
      var t :| t in schema.oneOf.fields && schema.oneOf.fields[t] == v;
      var k :| k in v.properties.fields && v.properties.fields[k] == f;
      assert MemberHolds(schema.oneOf.fields[t], name);
    }
  }

  lemma {:induction false} MemberIsField(schema: Schema, name: string)
    requires MemberHolds(schema, name)
    ensures exists f :: f in Fields(schema) && f < schema && Holds(f, name)
  {
    var k :| k in schema.properties.fields && Holds(schema.properties.fields[k], name);
    var f := schema.properties.fields[k];
    assert f in Fields(schema);
    FieldIsSmaller(schema, f);
  }

  lemma {:induction false} VariantMemberIsField(schema: Schema, t: string, name: string)
    requires schema.oneOf.Declared? && t in schema.oneOf.fields && MemberHolds(schema.oneOf.fields[t], name)
    ensures exists f :: f in Fields(schema) && f < schema && Holds(f, name)
  {
    var v := schema.oneOf.fields[t];
    var k :| k in v.properties.fields && Holds(v.properties.fields[k], name);
    assert v in Each(schema.oneOf) && v.properties.fields[k] in Each(v.properties);
    FieldIsSmaller(schema, v.properties.fields[k]);
  }

  // ---------------------------------------------------------------- containment

  /** Each definition of the path holds the next. */
  ghost predicate IsPath(defs: Defs, path: seq<string>) {
    |path| > 0 && forall i | 0 <= i < |path| - 1 :: path[i] in defs && Holds(defs[path[i]], path[i + 1])
  }

  ghost predicate Leads(defs: Defs, from: string, to: string, path: seq<string>) {
    IsPath(defs, path) && path[0] == from && path[|path| - 1] == to
  }

  /** A value of the definition is, or directly holds however deep, one of the target. */
  ghost predicate Contains(defs: Defs, name: string, target: string) { exists path :: Leads(defs, name, target, path) }

  ghost predicate SchemaContains(defs: Defs, schema: Schema, target: string) {
    exists name :: Holds(schema, name) && Contains(defs, name, target)
  }

  /** Every definition a definition holds is there. */
  ghost predicate Resolves(defs: Defs) { forall a, b | a in defs && Holds(defs[a], b) :: b in defs }

  lemma {:induction false} ContainsItself(defs: Defs, name: string)
    ensures Contains(defs, name, name)
  {
    assert Leads(defs, name, name, [name]);
  }

  lemma {:induction false} ContainsThrough(defs: Defs, name: string, target: string)
    requires name in defs && SchemaContains(defs, defs[name], target)
    ensures Contains(defs, name, target)
  {
    var next :| Holds(defs[name], next) && Contains(defs, next, target);
    var path :| Leads(defs, next, target, path);
    var longer := [name] + path;
    forall i | 0 <= i < |longer| - 1 ensures longer[i] in defs && Holds(defs[longer[i]], longer[i + 1]) {
      if i > 0 { assert longer[i] == path[i - 1] && longer[i + 1] == path[i]; }
    }
    assert Leads(defs, name, target, longer);
  }

  // ---------------------------------------------------------------- the search

  datatype Search = Found | NotFound | Unknown

  /** A definition whose search is over holds only visited ones, and not the target. */
  ghost predicate Done(defs: Defs, name: string, target: string, visited: set<string>) {
    name in defs && forall n | Holds(defs[name], n) :: n in visited && n != target
  }

  /** What a search that found nothing has gone through. */
  ghost predicate Explored(defs: Defs, target: string, before: set<string>, visited: set<string>) {
    before <= visited && forall n | n in visited && n !in before :: n != target && Done(defs, n, target, visited)
  }

  lemma {:induction false} ExploredOn(defs: Defs, target: string, a: set<string>, b: set<string>, c: set<string>)
    requires Explored(defs, target, a, b) && Explored(defs, target, b, c)
    ensures Explored(defs, target, a, c)
  {
    forall n | n in c && n !in a ensures n != target && Done(defs, n, target, c) {
      if n in b { assert Done(defs, n, target, b); }
    }
  }

  /** Whether a value of the schema directly holds one of the target, searched with the definitions
      already visited set aside. */
  method ReachesDirectly(defs: Defs, schema: Schema, target: string, visited: set<string>)
    returns (search: Search, after: set<string>)
    requires visited <= defs.Keys
    ensures after <= defs.Keys
    ensures search == Found ==> SchemaContains(defs, schema, target)
    ensures search == NotFound ==> Explored(defs, target, visited, after)
    ensures search == NotFound ==> forall n | Holds(schema, n) :: n in after && n != target
    ensures search == Unknown ==> !Resolves(defs) || exists n :: Holds(schema, n) && n !in defs
    decreases defs.Keys - visited, schema
  {
    after := visited;
    if schema.ref.Some? {
      var name := schema.ref.value;
      if name !in defs {
        return Unknown, after;
      }
      if name == target {
        ContainsItself(defs, name);
        return Found, after;
      }
      if name in visited {
        return NotFound, after;
      }
      search, after := ReachesDirectly(defs, defs[name], target, visited + {name});
      if search == Found { ContainsThrough(defs, name, target); }
      return;
    }
    search := NotFound;
    if schema.typed != Single(ObjectKind) {
      return;
    }
    var pending := Fields(schema);
    while pending != {}
      invariant pending <= Fields(schema) && visited <= after <= defs.Keys
      invariant Explored(defs, target, visited, after)
      invariant forall f | f in Fields(schema) && f !in pending :: forall n | Holds(f, n) :: n in after && n != target
      decreases |pending|
    {
      var field :| field in pending;
      FieldIsSmaller(schema, field);
      ghost var before := after;
      search, after := ReachesDirectly(defs, field, target, after);
      if search != NotFound {
        return;
      }
      ExploredOn(defs, target, visited, before, after);
      pending := pending - {field};
    }
    search := NotFound;
  }

  /** Nothing a finished search has visited leads to the target. */
  lemma {:induction false} NeverLeads(defs: Defs, name: string, target: string, visited: set<string>, path: seq<string>)
    requires Explored(defs, target, {}, visited) && name in visited
    ensures !Leads(defs, name, target, path)
    decreases |path|
  {
    if |path| > 1 && IsPath(defs, path) && path[0] == name {
      var rest := path[1..];
      assert Done(defs, name, target, visited) && Holds(defs[path[0]], path[0 + 1]);
      forall i | 0 <= i < |rest| - 1 ensures rest[i] in defs && Holds(defs[rest[i]], rest[i + 1]) {
        assert rest[i] == path[i + 1] && rest[i + 1] == path[(i + 1) + 1];
      }
      NeverLeads(defs, path[1], target, visited, rest);
    }
  }

  /** A field that is a reference is boxed exactly when its type directly holds the type the field
      belongs to. */
  method BoxesField(defs: Defs, owner: string, field: Schema) returns (boxed: Option<bool>)
    requires field.ref.Some?
    ensures boxed.Some? ==> (boxed.value <==> SchemaContains(defs, field, owner))
    ensures boxed.None? ==> !Resolves(defs) || field.ref.value !in defs
  {
    var search, visited := ReachesDirectly(defs, field, owner, {});
    match search {
      case Found => boxed := Some(true);
      case NotFound =>
        forall path ensures !Leads(defs, field.ref.value, owner, path) {
          assert Holds(field, field.ref.value);
          NeverLeads(defs, field.ref.value, owner, visited, path);
        }
        boxed := Some(false);
      case Unknown => boxed := None;
    }
  }

  // ---------------------------------------------------------------- generated types

  /** The type generated for `a` holds one of type `b` with no box between: an alias of it, or with
      a field of it that is not boxed. */
  ghost predicate Unboxed(defs: Defs, a: string, b: string) {
    a in defs && (Aliases(defs, a, b) || exists f :: UnboxedField(defs, a, b, f))
  }

  ghost predicate Aliases(defs: Defs, a: string, b: string) { a in defs && defs[a].ref == Some(b) }

  ghost predicate UnboxedField(defs: Defs, a: string, b: string, f: Schema) {
    && a in defs && defs[a].ref.None? && defs[a].typed == Single(ObjectKind)
    && f in Fields(defs[a]) && f.ref == Some(b) && !SchemaContains(defs, f, a)
  }

  ghost predicate UnboxedPath(defs: Defs, path: seq<string>) {
    |path| > 0 && forall i | 0 <= i < |path| - 1 :: Unboxed(defs, path[i], path[i + 1])
  }

  lemma {:induction false} UnboxedHolds(defs: Defs, a: string, b: string)
    requires Unboxed(defs, a, b)
    ensures Holds(defs[a], b)
  {
    if !Aliases(defs, a, b) {
      var f :| UnboxedField(defs, a, b, f);
      FieldIsSmaller(defs[a], f);
      assert Holds(f, b);
    }
  }

  lemma {:induction false} UnboxedLeads(defs: Defs, path: seq<string>)
    requires UnboxedPath(defs, path)
    ensures IsPath(defs, path)
  {
    forall i | 0 <= i < |path| - 1 ensures path[i] in defs && Holds(defs[path[i]], path[i + 1]) {
      UnboxedHolds(defs, path[i], path[i + 1]);
    }
  }

  /** A field that lies on a cycle of direct containment is not left unboxed. */
  lemma {:induction false} NoUnboxedFieldOnCycle(defs: Defs, path: seq<string>, i: nat)
    requires UnboxedPath(defs, path) && i < |path| - 1 && path[0] == path[|path| - 1]
    ensures Aliases(defs, path[i], path[i + 1])
  {
    UnboxedLeads(defs, path);
    var around := path[i + 1..] + path[1..i + 1];
    forall k | 0 <= k < |around| - 1 ensures around[k] in defs && Holds(defs[around[k]], around[k + 1]) {
      var m := |path| - 1 - i;
      if k < m - 1 {
        assert around[k] == path[i + 1 + k] && around[k + 1] == path[(i + 1 + k) + 1];
      } else {
        var j := k - (m - 1);
        assert around[k] == path[j] && around[k + 1] == path[j + 1];
      }
    }
    assert Leads(defs, path[i + 1], path[i], around);
    var a, b := path[i], path[i + 1];
    assert Contains(defs, b, a);
    forall f ensures !UnboxedField(defs, a, b, f) {
      if f.ref == Some(b) { assert Holds(f, b); }
    }
    assert Unboxed(defs, a, b);
  }

  lemma {:induction false} AliasesEnd(defs: Defs, path: seq<string>, k: nat, n: nat)
    requires k < |path| && forall i | 0 <= i < |path| - 1 :: Aliases(defs, path[i], path[i + 1])
    requires Ends(LinksOf(defs), path[0], n)
    ensures n >= k && Ends(LinksOf(defs), path[k], n - k)
    decreases k
  {
    if k > 0 {
      AliasesEnd(defs, path, k - 1, n);
      assert Aliases(defs, path[k - 1], path[(k - 1) + 1]);
    }
  }

  /** No generated type holds itself without a box, whatever definitions refer to one another. */
  lemma {:induction false} UnboxedIsAcyclic(defs: Defs, path: seq<string>)
    requires AllEnd(LinksOf(defs)) && UnboxedPath(defs, path) && |path| > 1
    ensures path[0] != path[|path| - 1]
  {
    if path[0] == path[|path| - 1] {
      forall i | 0 <= i < |path| - 1 ensures Aliases(defs, path[i], path[i + 1]) { NoUnboxedFieldOnCycle(defs, path, i); }
      assert Aliases(defs, path[0], path[0 + 1]) && HasEnd(LinksOf(defs), path[0]);
      var n: nat :| Ends(LinksOf(defs), path[0], n);
      AliasesEnd(defs, path, |path| - 1, n);
      EndsOnce(LinksOf(defs), path[0], n, n - (|path| - 1));
    }
  }

  /** So no chain of unboxed fields is longer than the definitions are many: every generated type
      has a finite size. */
  lemma {:induction false} UnboxedPathsAreShort(defs: Defs, path: seq<string>)
    requires AllEnd(LinksOf(defs)) && UnboxedPath(defs, path)
    ensures |path| <= |defs| + 1
  {
    var n := |path| - 1;
    forall i, j | 0 <= i < j < n ensures path[i] != path[j] {
      var part := path[i..j + 1];
      forall k | 0 <= k < |part| - 1 ensures Unboxed(defs, part[k], part[k + 1]) {
        assert part[k] == path[i + k] && part[k + 1] == path[(i + k) + 1];
      }
      UnboxedIsAcyclic(defs, part);
    }
    forall i | 0 <= i < n ensures path[i] in defs { assert Unboxed(defs, path[i], path[i + 1]); }
    DistinctAreFew(path[..n], defs.Keys);
  }

  lemma {:induction false} DistinctAreFew(names: seq<string>, all: set<string>)
    requires forall i, j | 0 <= i < j < |names| :: names[i] != names[j]
    requires forall i | 0 <= i < |names| :: names[i] in all
    ensures |names| <= |all|
    decreases |names|
  {
    if names != [] {
      var last := names[|names| - 1];
      DistinctAreFew(names[..|names| - 1], all - {last});
    }
  }

  /** And no field is boxed for nothing: a boxed one lies on a cycle of direct containment. */
  lemma {:induction false} BoxedFieldClosesCycle(defs: Defs, owner: string, field: Schema)
    requires owner in defs && defs[owner].ref.None? && defs[owner].typed == Single(ObjectKind)
    requires field in Fields(defs[owner]) && field.ref.Some? && SchemaContains(defs, field, owner)
    ensures exists path :: Leads(defs, owner, owner, path) && |path| > 1 && path[1] == field.ref.value
  {
    var path :| Leads(defs, field.ref.value, owner, path);
    var cycle := [owner] + path;
    FieldIsSmaller(defs[owner], field);
    assert Holds(field, path[0]);
    assert Holds(defs[owner], path[0]);
    forall i | 0 <= i < |cycle| - 1 ensures cycle[i] in defs && Holds(defs[cycle[i]], cycle[i + 1]) {
      if i > 0 { assert cycle[i] == path[i - 1] && cycle[i + 1] == path[(i - 1) + 1]; }
    }
    assert Leads(defs, owner, owner, cycle) && |cycle| > 1 && cycle[1] == field.ref.value;
  }
}
