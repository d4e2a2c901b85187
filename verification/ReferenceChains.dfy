/** Validation's walk along the chains of references, and following one that it has passed. */
module ReferenceChains {
  import opened Wrappers
  import opened Schemas

  /** The chain from a name comes to a schema that is no reference after `n` references. */
  predicate Ends(links: Links, name: string, n: nat)
    decreases n
  {
    name in links && if n == 0 then links[name].None? else links[name].Some? && Ends(links, links[name].value, n - 1)
  }

  ghost predicate EndsAfter(links: Links, name: string, n: int) { exists k: nat :: k > n && Ends(links, name, k) }

  ghost predicate HasEnd(links: Links, name: string) { exists n: nat :: Ends(links, name, n) }

  /** A chain that ends does so in one way only. */
  lemma {:induction false} EndsOnce(links: Links, name: string, a: nat, b: nat)
    requires Ends(links, name, a) && Ends(links, name, b)
    ensures a == b
    decreases a
  {
    if a > 0 && b > 0 { EndsOnce(links, links[name].value, a - 1, b - 1); }
  }

  lemma {:induction false} LastEnds(links: Links, name: string, met: set<string>) returns (n: nat)
    requires Last(links, name, met).Some?
    ensures Ends(links, name, n)
    decreases links.Keys - met
  {
    n := 0;
    if links[name].Some? {
      var rest := LastEnds(links, links[name].value, met + {name});
      n := rest + 1;
    }
  }

  /** A chain does not come back to a name whose own chain is longer. */
  lemma {:induction false} NotMet(links: Links, name: string, met: set<string>, n: nat)
    requires Ends(links, name, n) && forall m | m in met :: EndsAfter(links, m, n)
    ensures name !in met
  {
    forall m | m in met ensures m != name {
      var k: nat :| k > n && Ends(links, m, k);
      if m == name { EndsOnce(links, name, n, k); }
    }
  }

  lemma {:induction false} EndsIsLast(links: Links, name: string, met: set<string>, n: nat)
    requires Ends(links, name, n) && forall m | m in met :: EndsAfter(links, m, n)
    ensures Last(links, name, met).Some?
    decreases n
  {
    NotMet(links, name, met, n);
    if n > 0 {
      forall m | m in met + {name} ensures EndsAfter(links, m, n - 1) {
        if m == name { assert Ends(links, name, n); } else { var k: nat :| k > n && Ends(links, m, k); }
      }
      EndsIsLast(links, links[name].value, met + {name}, n - 1);
    }
  }

  /** There is a last definition exactly when the chain, followed without looking back, ends. */
  lemma {:induction false} LastExactlyWhenEnds(links: Links, name: string)
    ensures Last(links, name, {}).Some? <==> HasEnd(links, name)
  {
    if Last(links, name, {}).Some? { var n := LastEnds(links, name, {}); }
    if HasEnd(links, name) {
      var n: nat :| Ends(links, name, n);
      EndsIsLast(links, name, {}, n);
    }
  }

  /** However far a chain is followed from, it ends at the same definition. */
  lemma {:induction false} LastIsOne(links: Links, name: string, a: set<string>, b: set<string>)
    requires Last(links, name, a).Some? && Last(links, name, b).Some?
    ensures Last(links, name, a) == Last(links, name, b)
    decreases links.Keys - a
  {
    if links[name].Some? { LastIsOne(links, links[name].value, a + {name}, b + {name}); }
  }

  /** A reference leads where the definition it names leads. */
  lemma {:induction false} ReferenceLeadsOn(defs: Defs, schema: Schema)
    requires schema.ref.Some? && schema.ref.value in defs && Dereferenced(defs, defs[schema.ref.value]).Some?
    ensures Dereferenced(defs, schema) == Dereferenced(defs, defs[schema.ref.value])
  {
    var links, name := LinksOf(defs), schema.ref.value;
    if links[name].Some? {
      var next := links[name].value;
      var n := LastEnds(links, next, {});
      assert Ends(links, name, n + 1);
      LastExactlyWhenEnds(links, name);
      assert Last(links, name, {}) == Last(links, next, {} + {name});
      LastIsOne(links, next, {} + {name}, {});
    }
  }

  ghost predicate AllEnd(links: Links) { forall name | name in links :: HasEnd(links, name) }

  /** Refuses a definition whose chain of references returns to one already on it, or names none. */
  method CheckReferenceChains(links: Links) returns (passed: bool)
    ensures passed <==> AllEnd(links)
  {
    var pending := links.Keys;
    while pending != {}
      invariant pending <= links.Keys
      invariant forall name | name in links && name !in pending :: HasEnd(links, name)
      decreases |pending|
    {
      var name :| name in pending;
      LastExactlyWhenEnds(links, name);
      var ended := FollowChain(links, name);
      if !ended {
        return false;
      }
      pending := pending - {name};
    }
    return true;
  }

  method FollowChain(links: Links, name: string) returns (ended: bool)
    requires name in links
    ensures ended <==> Last(links, name, {}).Some?
  {
    var chain := [name];
    var current := links[name];
    ghost var met := {};
    while current.Some?
      invariant |chain| > 0 && chain[|chain| - 1] in links && current == links[chain[|chain| - 1]]
      invariant chain[|chain| - 1] !in met && met <= links.Keys
      invariant forall x :: x in chain <==> x in met + {chain[|chain| - 1]}
      invariant Last(links, name, {}) == Last(links, chain[|chain| - 1], met)
      decreases links.Keys - met
    {
      var next := current.value;
      if next !in links || next in chain {
        return false;
      }
      met := met + {chain[|chain| - 1]};
      current := links[next];
      chain := chain + [next];
    }
    return true;
  }

  /** Once the chains are checked, following one always ends, at the schema it leads to. */
  method Dereference(defs: Defs, schema: Schema) returns (found: Option<Schema>)
    requires AllEnd(LinksOf(defs))
    ensures found == Dereferenced(defs, schema)
  {
    if schema.ref.None? {
      return Some(schema);
    }
    var name := schema.ref.value;
    if name !in defs {
      return None;
    }
    ghost var links := LinksOf(defs);
    assert HasEnd(links, name);
    ghost var left: nat :| Ends(links, name, left);
    ghost var met: set<string> := {};
    while defs[name].ref.Some?
      invariant name in defs && Ends(links, name, left)
      invariant Last(links, schema.ref.value, {}) == Last(links, name, met) && name !in met
      invariant forall m | m in met :: EndsAfter(links, m, left)
      decreases left
    {
      met := met + {name};
      assert EndsAfter(links, name, left - 1);
      name := defs[name].ref.value;
      left := left - 1;
      NotMet(links, name, met, left);
    }
    return Some(defs[name]);
  }
}
