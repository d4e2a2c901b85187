/**
 What the judgement of a keyed sequence says of the values inside it: they are read from the whole
 array the sequence's own policy compares.
 */
module PolicySequences {
  import opened Wrappers
  import opened Json
  import opened Policy

  /** The key addresses a value of the field. */
  predicate Addresses(path: FieldPath, key: Key) { AddressesFrom(path, 0, key) }

  predicate AddressesFrom(path: FieldPath, depth: nat, key: Key)
    requires depth <= |path.within|
    decreases key
  {
    match key
    case Here(leaf) => depth == |path.within| && leaf == path.leaf
    case InItem(sequence, _, rest) =>
      depth < |path.within| && sequence == path.within[depth] && AddressesFrom(path, depth + 1, rest)
  }

  /** The sequence a value lies in, `outer` sequences deep. */
  function SequencePath(path: FieldPath, outer: nat): FieldPath
    requires outer < |path.within|
  {
    FieldPath(path.within[..outer], path.within[outer])
  }

  /** The key of that sequence. */
  function SequenceKey(path: FieldPath, outer: nat, depth: nat, key: Key): Key
    requires depth <= outer < |path.within| && AddressesFrom(path, depth, key)
    decreases outer - depth
  {
    if depth == outer then Here(path.within[outer])
    else InItem(key.sequence, key.identity, SequenceKey(path, outer, depth + 1, key.rest))
  }

  /** The part of the key inside the sequence. */
  function InnerKey(path: FieldPath, outer: nat, depth: nat, key: Key): Key
    requires depth <= outer < |path.within| && AddressesFrom(path, depth, key)
    decreases outer - depth
  {
    if depth == outer then key else InnerKey(path, outer, depth + 1, key.rest)
  }

  /** The value inside, read from the sequence's array. */
  function FromArray(plan: Plan, path: FieldPath, outer: nat, whole: Json, inner: Key): Json
    requires outer < |path.within|
  {
    match (IdentityPath(plan, SequencePath(path, outer)), whole)
    case (Some(identityPath), Arr(items)) => ValueOf(CollectItems(plan, path, outer, identityPath, items), inner)
    case _ => Null
  }

  /** The items of every sequence the path passes through have identities of their own. */
  predicate DistinctItems(plan: Plan, path: FieldPath, depth: nat, outer: nat, scope: Json)
    requires depth <= outer <= |path.within|
    decreases outer - depth
  {
    depth < outer ==>
      match (IdentityPath(plan, FieldPath(path.within[..depth], path.within[depth])), ValueAt(scope, path.within[depth]))
      case (Some(identityPath), Some(Arr(items))) =>
        && (forall i, j | 0 <= i < j < |items| :: StringAt(items[i], identityPath).None? || StringAt(items[i], identityPath) != StringAt(items[j], identityPath))
        && (forall i | 0 <= i < |items| :: DistinctItems(plan, path, depth + 1, outer, items[i]))
      case _ => true
  }

  /** What is collected of items with identities of their own, at a key in one of them. */
  lemma {:induction false} CollectedAt(plan: Plan, path: FieldPath, depth: nat, identityPath: seq<string>, items: seq<Json>, identity: string, rest: Key)
    requires depth < |path.within|
    requires forall i, j | 0 <= i < j < |items| :: StringAt(items[i], identityPath).None? || StringAt(items[i], identityPath) != StringAt(items[j], identityPath)
    ensures var value := ValueOf(CollectItems(plan, path, depth, identityPath, items), InItem(path.within[depth], identity, rest));
            && (forall i | 0 <= i < |items| && StringAt(items[i], identityPath) == Some(identity) ::
                  value == ValueOf(Collect(plan, path, depth + 1, items[i]), rest))
            && ((forall i | 0 <= i < |items| :: StringAt(items[i], identityPath) != Some(identity)) ==> value == Null)
    decreases |items|
  {
    if items != [] {
      var fewer, last := items[..|items| - 1], items[|items| - 1];
      assert forall i | 0 <= i < |fewer| :: fewer[i] == items[i];
      CollectedAt(plan, path, depth, identityPath, fewer, identity, rest);
      CollectedWith(plan, path, depth, identityPath, items, identity, rest);
    }
  }

  /** What one more item adds at a key. */
  lemma {:induction false} CollectedWith(plan: Plan, path: FieldPath, depth: nat, identityPath: seq<string>, items: seq<Json>, identity: string, rest: Key)
    requires depth < |path.within| && items != []
    ensures var fewer, last := items[..|items| - 1], items[|items| - 1];
            var key := InItem(path.within[depth], identity, rest);
            ValueOf(CollectItems(plan, path, depth, identityPath, items), key) ==
            if StringAt(last, identityPath) == Some(identity) && rest in Collect(plan, path, depth + 1, last)
            then Collect(plan, path, depth + 1, last)[rest]
            else ValueOf(CollectItems(plan, path, depth, identityPath, fewer), key)
  {
    var last := items[|items| - 1];
    if StringAt(last, identityPath).Some? {
      var inside := Collect(plan, path, depth + 1, last);
      var named := set k | k in inside :: InItem(path.within[depth], StringAt(last, identityPath).value, k);
      assert InItem(path.within[depth], identity, rest) in named <==> StringAt(last, identityPath) == Some(identity) && rest in inside;
    }
  }

  /** A value inside a sequence is the one read from the sequence's array, so a sequence that is the same
      in two documents has the same values. */
  lemma {:induction false} ReadFromArray(plan: Plan, path: FieldPath, outer: nat, depth: nat, scope: Json, key: Key)
    requires depth <= outer < |path.within| && AddressesFrom(path, depth, key)
    requires DistinctItems(plan, path, depth, outer, scope)
    ensures ValueOf(Collect(plan, path, depth, scope), key) ==
            FromArray(plan, path, outer, ValueOf(Collect(plan, SequencePath(path, outer), depth, scope), SequenceKey(path, outer, depth, key)),
                      InnerKey(path, outer, depth, key))
    decreases outer - depth
  {
    var sequence := SequencePath(path, outer);
    if depth < outer {
      assert sequence.within[..depth] == path.within[..depth] && sequence.within[depth] == path.within[depth];
      match (IdentityPath(plan, FieldPath(path.within[..depth], path.within[depth])), ValueAt(scope, path.within[depth]))
      case (Some(identityPath), Some(Arr(items))) =>
        ReadFromItems(plan, path, outer, depth, identityPath, items, key);
      case _ =>
    }
  }

  lemma {:induction false} ReadFromItems(plan: Plan, path: FieldPath, outer: nat, depth: nat, identityPath: seq<string>, items: seq<Json>, key: Key)
    requires depth < outer < |path.within| && AddressesFrom(path, depth, key)
    requires forall i, j | 0 <= i < j < |items| :: StringAt(items[i], identityPath).None? || StringAt(items[i], identityPath) != StringAt(items[j], identityPath)
    requires forall i | 0 <= i < |items| :: DistinctItems(plan, path, depth + 1, outer, items[i])
    ensures ValueOf(CollectItems(plan, path, depth, identityPath, items), key) ==
            FromArray(plan, path, outer,
                      ValueOf(CollectItems(plan, SequencePath(path, outer), depth, identityPath, items), SequenceKey(path, outer, depth, key)),
                      InnerKey(path, outer, depth, key))
    decreases outer - depth, 0
  {
    CollectedAt(plan, path, depth, identityPath, items, key.identity, key.rest);
    CollectedAt(plan, SequencePath(path, outer), depth, identityPath, items, key.identity, SequenceKey(path, outer, depth + 1, key.rest));
    if i :| 0 <= i < |items| && StringAt(items[i], identityPath) == Some(key.identity) {
      ReadFromArray(plan, path, outer, depth + 1, items[i], key.rest);
    }
  }

  // ---------------------------------------------------------------- what a key reads

  predicate IsSequenceAt(field: Field, path: FieldPath) { field.path == path && field.storage.KeyedSequence? }

  /** The first keyed sequence the plan declares at the path has the identity path. */
  ghost predicate DeclaresIdentity(plan: Plan, path: FieldPath, identityPath: seq<string>) {
    exists g :: 0 <= g < |plan| && IsSequenceAt(plan[g], path) && plan[g].identityPath == Some(identityPath)
                && forall h | 0 <= h < g :: !IsSequenceAt(plan[h], path)
  }

  lemma {:induction false} FirstSequence(plan: Plan, path: FieldPath) returns (g: nat)
    ensures g <= |plan| && forall h | 0 <= h < g :: !IsSequenceAt(plan[h], path)
    ensures g < |plan| ==> IsSequenceAt(plan[g], path) && IdentityPath(plan, path) == plan[g].identityPath
    ensures g == |plan| ==> IdentityPath(plan, path) == None
    decreases |plan|
  {
    g := 0;
    if plan != [] && !IsSequenceAt(plan[0], path) {
      var later := FirstSequence(plan[1..], path);
      g := later + 1;
      assert forall h | 1 <= h < |plan| :: plan[h] == plan[1..][h - 1];
    }
  }

  lemma {:induction false} IdentityPathIsFirst(plan: Plan, path: FieldPath, identityPath: seq<string>)
    ensures DeclaresIdentity(plan, path, identityPath) <==> IdentityPath(plan, path) == Some(identityPath)
  {
    var g := FirstSequence(plan, path);
  }

  /** What the key leads to: through each item with the identity it names, to the value at the leaf. */
  ghost predicate LeadsTo(plan: Plan, path: FieldPath, depth: nat, scope: Json, key: Key, value: Json)
    requires depth <= |path.within|
    decreases key
  {
    match key
    case Here(leaf) => depth == |path.within| && leaf == path.leaf && ValueAt(scope, leaf) == Some(value)
    case InItem(sequence, identity, rest) =>
      && depth < |path.within| && sequence == path.within[depth]
      && exists identityPath, i :: LeadsInto(plan, path, depth, scope, identity, identityPath, i)
                                   && LeadsTo(plan, path, depth + 1, ValueAt(scope, sequence).value.items[i], rest, value)
  }

  /** The `i`th item at the sequence has the identity. */
  ghost predicate LeadsInto(plan: Plan, path: FieldPath, depth: nat, scope: Json, identity: string, identityPath: seq<string>, i: int)
    requires depth < |path.within|
  {
    && DeclaresIdentity(plan, SequencePath(path, depth), identityPath)
    && ValueAt(scope, path.within[depth]).Some? && ValueAt(scope, path.within[depth]).value.Arr?
    && 0 <= i < |ValueAt(scope, path.within[depth]).value.items|
    && StringAt(ValueAt(scope, path.within[depth]).value.items[i], identityPath) == Some(identity)
  }

  /** The value judged at a key is the one it leads to, and null where it leads to none. */
  lemma {:induction false} ValuesAreLedTo(plan: Plan, field: Field, document: Json, key: Key, value: Json)
    requires DistinctItems(plan, field.path, 0, |field.path.within|, document)
    ensures LeadsTo(plan, field.path, 0, document, key, value) ==> ValueOf(FieldValues(plan, field, document), key) == value
    ensures ValueOf(FieldValues(plan, field, document), key) == value != Null ==> LeadsTo(plan, field.path, 0, document, key, value)
  {
    CollectedIsLedTo(plan, field.path, 0, document, key, value);
  }

  lemma {:induction false} CollectedIsLedTo(plan: Plan, path: FieldPath, depth: nat, scope: Json, key: Key, value: Json)
    requires depth <= |path.within| && DistinctItems(plan, path, depth, |path.within|, scope)
    ensures LeadsTo(plan, path, depth, scope, key, value) ==> ValueOf(Collect(plan, path, depth, scope), key) == value
    ensures ValueOf(Collect(plan, path, depth, scope), key) == value != Null ==> LeadsTo(plan, path, depth, scope, key, value)
    decreases |path.within| - depth
  {
    if depth < |path.within| {
      var sequence := path.within[depth];
      var found := IdentityPath(plan, SequencePath(path, depth));
      if found.Some? && ValueAt(scope, sequence).Some? && ValueAt(scope, sequence).value.Arr? {
        ItemsAreLedTo(plan, path, depth, scope, found.value, ValueAt(scope, sequence).value.items, key, value);
      } else {
        NowhereLed(plan, path, depth, scope, key, value);
      }
    }
  }

  lemma {:induction false} NowhereLed(plan: Plan, path: FieldPath, depth: nat, scope: Json, key: Key, value: Json)
    requires depth < |path.within|
    requires IdentityPath(plan, SequencePath(path, depth)).None? || ValueAt(scope, path.within[depth]).None? || !ValueAt(scope, path.within[depth]).value.Arr?
    ensures !LeadsTo(plan, path, depth, scope, key, value)
  {
    forall identityPath ensures DeclaresIdentity(plan, SequencePath(path, depth), identityPath) <==>
                                IdentityPath(plan, SequencePath(path, depth)) == Some(identityPath)
    {
      IdentityPathIsFirst(plan, SequencePath(path, depth), identityPath);
    }
  }

  lemma {:induction false} ItemsAreLedTo(
    plan: Plan, path: FieldPath, depth: nat, scope: Json, identityPath: seq<string>, items: seq<Json>, key: Key, value: Json)
    requires depth < |path.within| && DistinctItems(plan, path, depth, |path.within|, scope)
    requires IdentityPath(plan, SequencePath(path, depth)) == Some(identityPath) && ValueAt(scope, path.within[depth]) == Some(Arr(items))
    ensures LeadsTo(plan, path, depth, scope, key, value) ==> ValueOf(CollectItems(plan, path, depth, identityPath, items), key) == value
    ensures ValueOf(CollectItems(plan, path, depth, identityPath, items), key) == value != Null ==> LeadsTo(plan, path, depth, scope, key, value)
    decreases |path.within| - depth, 0
  {
    if key.InItem? && key.sequence == path.within[depth] {
      CollectedAt(plan, path, depth, identityPath, items, key.identity, key.rest);
      IdentityPathIsFirst(plan, SequencePath(path, depth), identityPath);
      forall other ensures DeclaresIdentity(plan, SequencePath(path, depth), other) ==> other == identityPath {
        IdentityPathIsFirst(plan, SequencePath(path, depth), other);
      }
      forall i | 0 <= i < |items| && StringAt(items[i], identityPath) == Some(key.identity)
        ensures LeadsTo(plan, path, depth + 1, items[i], key.rest, value) ==> ValueOf(Collect(plan, path, depth + 1, items[i]), key.rest) == value
        ensures ValueOf(Collect(plan, path, depth + 1, items[i]), key.rest) == value != Null ==> LeadsTo(plan, path, depth + 1, items[i], key.rest, value)
        ensures LeadsInto(plan, path, depth, scope, key.identity, identityPath, i)
      {
        CollectedIsLedTo(plan, path, depth + 1, items[i], key.rest, value);
      }
    } else {
      CollectedKeys(plan, path, depth, identityPath, items, key);
    }
  }

  /** Only keys through the sequence are collected of its items. */
  lemma {:induction false} CollectedKeys(plan: Plan, path: FieldPath, depth: nat, identityPath: seq<string>, items: seq<Json>, key: Key)
    requires depth < |path.within| && !(key.InItem? && key.sequence == path.within[depth])
    ensures key !in CollectItems(plan, path, depth, identityPath, items)
    decreases |items|
  {
    if items != [] { CollectedKeys(plan, path, depth, identityPath, items[..|items| - 1], key); }
  }
}
