/** The containers a replica's document is stored in, and the plain values they hold. */
module Store {
  import opened Wrappers
  import opened Json

  predicate IsI64(n: int) { -0x8000_0000_0000_0000 <= n < 0x8000_0000_0000_0000 }

  type I64 = n: int | IsI64(n)

  datatype Loro =
    | LNull
    | LBool(b: bool)
    | LI64(n: I64)
    | LDouble(r: real)
    | LStr(s: string)
    | LList(items: seq<Loro>)
    | LMap(members: map<string, Loro>)

  /** One entry of a map container: a value, or a container of its own. */
  datatype Cell =
    | Plain(value: Loro)
    | TextCell(text: string)
    | ListCell(entries: seq<Loro>)
    | Child(cells: map<string, Cell>)

  type Cells = map<string, Cell>

  /** A JSON value as the store holds it: an integer no `i64` holds becomes a double. */
  function ToLoro(value: Json): Loro {
    match value
    case Null => LNull
    case Bool(b) => LBool(b)
    case Int(n) => if IsI64(n) then LI64(n) else LDouble(n as real)
    case Float(r) => LDouble(r)
    case Str(s) => LStr(s)
    case Arr(items) => LList(seq(|items|, i requires 0 <= i < |items| => ToLoro(items[i])))
    case Obj(members) => LMap(map k | k in members :: ToLoro(members[k]))
  }

  function ToJson(value: Loro): Json {
    match value
    case LNull => Null
    case LBool(b) => Bool(b)
    case LI64(n) => Int(n)
    case LDouble(r) => Float(r)
    case LStr(s) => Str(s)
    case LList(items) => Arr(seq(|items|, i requires 0 <= i < |items| => ToJson(items[i])))
    case LMap(members) => Obj(map k | k in members :: ToJson(members[k]))
  }

  /** What a stored value reads back as. */
  function Stored(value: Json): Json { ToJson(ToLoro(value)) }

  function StoredMembers(members: map<string, Json>): map<string, Json> {
    map k | k in members :: Stored(members[k])
  }

  /** Every integer in the value is one an `i64` holds. */
  predicate Exact(value: Json) {
    match value
    case Int(n) => IsI64(n)
    case Arr(items) => forall i | 0 <= i < |items| :: Exact(items[i])
    case Obj(members) => forall k | k in members :: Exact(members[k])
    case _ => true
  }

  /** An integer beyond 64 bits reads back as the float of its value. */
  lemma {:induction false} IntegerReadsAs(n: int)
    ensures Stored(Int(n)) == if -9223372036854775808 <= n <= 9223372036854775807 then Int(n) else Float(n as real)
  {
  }

  /** A value reads back as itself exactly when every integer in it fits. */
  lemma {:induction false} StoredIsExact(value: Json)
    ensures Stored(value) == value <==> Exact(value)
  {
    match value
    case Arr(items) =>
      forall i | 0 <= i < |items| ensures Stored(items[i]) == items[i] <==> Exact(items[i]) { StoredIsExact(items[i]); }
      assert Stored(value).items == seq(|items|, i requires 0 <= i < |items| => Stored(items[i]));
      if Stored(value) == value {
        forall i | 0 <= i < |items| ensures Exact(items[i]) { assert Stored(value).items[i] == Stored(items[i]); }
      }
    case Obj(members) =>
      forall k | k in members ensures Stored(members[k]) == members[k] <==> Exact(members[k]) { StoredIsExact(members[k]); }
      assert Stored(value).members == StoredMembers(members);
      if Stored(value) == value {
        forall k | k in members ensures Exact(members[k]) { assert Stored(value).members[k] == Stored(members[k]); }
      }
    case _ =>
  }

  /** Whatever is stored reads back with integers an `i64` holds. */
  lemma {:induction false} StoredIntegersFit(value: Loro)
    ensures Exact(ToJson(value))
  {
    match value
    case LList(items) => forall i | 0 <= i < |items| ensures Exact(ToJson(items[i])) { StoredIntegersFit(items[i]); }
    case LMap(members) => forall k | k in members ensures Exact(ToJson(members[k])) { StoredIntegersFit(members[k]); }
    case _ =>
  }

  lemma {:induction false} StoredObject(members: map<string, Json>)
    ensures Stored(Obj(members)) == Obj(StoredMembers(members))
  {
    assert Stored(Obj(members)).members == StoredMembers(members);
  }

  lemma {:induction false} StoredArray(items: seq<Json>)
    ensures Stored(Arr(items)) == Arr(seq(|items|, i requires 0 <= i < |items| => Stored(items[i])))
  {
    assert Stored(Arr(items)).items == seq(|items|, i requires 0 <= i < |items| => Stored(items[i]));
  }
}
