/**
 The containers of one declared field, and how a value is written to and read from them. A keyed
 sequence has an order list, a presence mark, and for each of its items the containers of the
 item's fields.
 */
module FieldSlots {
  import opened Wrappers
  import opened Json
  import opened Store
  import opened DocumentShapes
  import opened HeldDocuments
  import SD = StructuredDocument
  import SM = StructuredMap
  import SDW = StructuredDocumentWrites
  import SDT = StructuredDocumentTheorems
  import SDX = StructuredDocumentExact

  datatype Slot = Slot(scalar: Option<Loro>, text: string, mime: Option<string>, list: seq<Loro>, cells: Cells, present: bool,
                       items: map<string, map<Path, Slot>>)

  type Slots = map<Path, Slot>

  /** A field's containers before anything is written to them. */
  function Untouched(): Slot { Slot(None, "", None, [], map[], false, map[]) }

  function SlotAt(slots: Slots, path: Path): Slot { if path in slots then slots[path] else Untouched() }

  function ItemSlots(slot: Slot, identity: string): Slots { if identity in slot.items then slot.items[identity] else map[] }

  // ---------------------------------------------------------------- values

  function AsI64(value: Json): Option<I64> {
    if value.Int? && IsI64(value.n) then
      var n: I64 := value.n;
      Some(n)
    else None
  }

  function AsF64(value: Json): Option<real> {
    match value
    case Int(n) => Some(n as real)
    case Float(r) => Some(r)
    case _ => None
  }

  predicate IsText(mime: string) { |mime| >= 5 && mime[..5] == "text/" }

  /** The MIME and text of a property text. */
  function PropertyParts(value: Json): Option<(string, string)> {
    match (Member(value, "$mime"), Member(value, "value"))
    case (Some(Str(mime)), Some(Str(text))) => if IsText(mime) then Some((mime, text)) else None
    case _ => None
  }

  predicate IsStrings(value: Json) { value.Arr? && forall i | 0 <= i < |value.items| :: value.items[i].Str? }

  predicate Absent(value: Option<Json>) { value.None? || value.value == Null }

  /** The codec accepts the value. */
  predicate Accepts(field: Field, value: Option<Json>) {
    match field.codec
    case IntegerCodec => value.Some? && AsI64(value.value).Some?
    case NumberCodec => value.Some? && AsF64(value.value).Some?
    case OptionalNumber => value.Some? && AsF64(value.value).Some?
    case BooleanCodec => value.Some? && value.value.Bool?
    case StringCodec => value.Some? && value.value.Str?
    case OptionalString => value.Some? && value.value.Str?
    case Identity => value.Some? && value.value.Str?
    case PropertyText => value.Some? && PropertyParts(value.value).Some?
    case StringList => if value.None? then !field.required else IsStrings(value.value)
    case StructuredJson => value.Some? && if IsObjectStorage(field.storage) then value.value.Obj? else value.value.Arr?
    case KeyedSequenceCodec => value.Some? && if IsObjectStorage(field.storage) then true else value.value.Arr?
  }

  // ---------------------------------------------------------------- writing

  function ItemsOf(value: Option<Json>): seq<Json> { if value.Some? && value.value.Arr? then value.value.items else [] }

  predicate AllIdentified(items: seq<Json>, identityPath: Path) {
    forall i | 0 <= i < |items| :: StringAt(items[i], identityPath).Some?
  }

  function IdentitiesOf(items: seq<Json>, identityPath: Path): seq<string>
    requires AllIdentified(items, identityPath)
  {
    seq(|items|, i requires 0 <= i < |items| => StringAt(items[i], identityPath).value)
  }

  /** The item of an identity; the last, if there are several. */
  function ItemOf(items: seq<Json>, identityPath: Path, identity: string): Option<Json>
    decreases |items|
  {
    if items == [] then None
    else if StringAt(items[|items| - 1], identityPath) == Some(identity) then Some(items[|items| - 1])
    else ItemOf(items[..|items| - 1], identityPath, identity)
  }

  function WriteScalar(slot: Slot, codec: Codec, next: Option<Json>): Option<Slot> {
    if Absent(next) then Some(slot.(scalar := None))
    else match codec
      case IntegerCodec => if AsI64(next.value).Some? then Some(slot.(scalar := Some(LI64(AsI64(next.value).value)))) else None
      case NumberCodec => if AsF64(next.value).Some? then Some(slot.(scalar := Some(LDouble(AsF64(next.value).value)))) else None
      case OptionalNumber =>
        Some(slot.(scalar := if AsF64(next.value).Some? then Some(LDouble(AsF64(next.value).value)) else None))
      case BooleanCodec => if next.value.Bool? then Some(slot.(scalar := Some(LBool(next.value.b)))) else None
      case StringCodec => if next.value.Str? then Some(slot.(scalar := Some(LStr(next.value.s)))) else None
      case OptionalString => Some(slot.(scalar := if next.value.Str? && next.value.s != "" then Some(LStr(next.value.s)) else None))
      case _ => None
  }

  function WriteText(slot: Slot, codec: Codec, next: Option<Json>): Option<Slot> {
    if Absent(next) then Some(slot.(text := "", mime := if codec.PropertyText? then None else slot.mime))
    else match codec
      case StringCodec => if next.value.Str? then Some(slot.(text := next.value.s)) else None
      case OptionalString => Some(slot.(text := if next.value.Str? then next.value.s else ""))
      case PropertyText =>
        if PropertyParts(next.value).Some?
        then Some(slot.(text := PropertyParts(next.value).value.1, mime := Some(PropertyParts(next.value).value.0))) else None
      case _ => None
  }

  function LoroList(items: seq<Json>): seq<Loro> { seq(|items|, i requires 0 <= i < |items| => ToLoro(items[i])) }

  /** A structured map or document: its presence is marked beside it, and its absence clears it. */
  function WriteStructured(slot: Slot, field: Field, previous: Option<Json>, next: Option<Json>): Option<Slot> {
    match next
    case Some(Obj(members)) =>
      Some(slot.(present := true,
                 cells := if field.storage.StructuredMap? then SM.WriteMap(slot.cells, SD.ObjectOf(previous), members)
                          else SD.Write(slot.cells, SD.ObjectOf(previous), members)))
    case None => if field.required then None else Some(slot.(present := false, cells := map[]))
    case _ => None
  }

  /** The field's containers after a change from `previous` to `next`; nothing if it is refused. */
  function WriteField(slot: Slot, field: Field, previous: Option<Json>, next: Option<Json>): Option<Slot>
    decreases field, 0
  {
    if field.storage.DerivedIdentity? || field.storage.DerivedRevision? then Some(slot)
    else if field.storage.KeyedSequence? then WriteSequence(slot, field, previous, next)
    else if previous == next then Some(slot)
    else if field.required && !Accepts(field, next) then None
    else match field.storage
      case Scalar => WriteScalar(slot, field.codec, next)
      case Text => WriteText(slot, field.codec, next)
      case OrderedList =>
        if next.None? && !field.required then Some(slot.(list := []))
        else if next.Some? && IsStrings(next.value) then Some(slot.(list := LoroList(next.value.items))) else None
      case StructuredList => if next.Some? && next.value.Arr? then Some(slot.(list := LoroList(next.value.items))) else None
      case _ => WriteStructured(slot, field, previous, next)
  }

  function WriteSequence(slot: Slot, field: Field, previous: Option<Json>, next: Option<Json>): Option<Slot>
    requires field.storage.KeyedSequence?
    decreases field, -1
  {
    var path, was, now := field.storage.identityPath, ItemsOf(previous), ItemsOf(next);
    if !AllIdentified(was, path) || !AllIdentified(now, path) then None
    else
      var order, ordered := IdentitiesOf(was, path), IdentitiesOf(now, path);
      if exists id, q | id in ordered && q in field.storage.item :: WriteItemField(slot, field.storage, was, now, id, q).None? then None
      else Some(slot.(present := next.Some? || field.required,
                      list := if order != ordered then SD.Names(ordered) else slot.list,
                      items := slot.items + map id | id in ordered ::
                        map q | q in field.storage.item :: WriteItemField(slot, field.storage, was, now, id, q).value))
  }

  /** One field of the item with the identity, as it changes from what the item was, if it was. */
  function WriteItemField(slot: Slot, storage: Storage, was: seq<Json>, now: seq<Json>, identity: string, q: Path): Option<Slot>
    requires storage.KeyedSequence? && q in storage.item
    decreases storage, 0
  {
    WriteField(SlotAt(ItemSlots(slot, identity), q), storage.item[q],
               ValueIn(ItemOf(was, storage.identityPath, identity), q), ValueIn(ItemOf(now, storage.identityPath, identity), q))
  }

  function ValueIn(item: Option<Json>, path: Path): Option<Json> { if item.Some? then ValueAt(item.value, path) else None }

  // ---------------------------------------------------------------- reading

  function ReadStructured(field: Field, slot: Slot, members: SD.Members): Option<Json> {
    if field.required || slot.present || members != map[] then Some(Obj(members)) else None
  }

  /** What a field's containers read as, `None` where it is absent; nothing if they are damaged. */
  ghost function ReadField(slot: Slot, field: Field): Option<Option<Json>> {
    match field.storage
    case Scalar => Some(if slot.scalar.Some? then Some(ToJson(slot.scalar.value)) else None)
    case Text =>
      if field.codec.OptionalString? && slot.text == "" then Some(None)
      else if field.codec.PropertyText? then
        if slot.mime.None? then None
        else Some(Some(Obj(map["$mime" := Str(slot.mime.value), "value" := Str(slot.text)])))
      else Some(Some(Str(slot.text)))
    case OrderedList => Some(Some(ToJson(LList(slot.list))))
    case StructuredList => Some(Some(ToJson(LList(slot.list))))
    case StructuredMap => Some(ReadStructured(field, slot, SM.View(slot.cells)))
    case StructuredDocument => (match SD.Read(slot.cells) case Some(members) => Some(ReadStructured(field, slot, members)) case None => None)
    case _ => Some(None)
  }

  /** What is set of a value read: all but an empty optional one. */
  function Shown(field: Field, read: Option<Json>): Option<Json> {
    if read.Some? && IsEmptyOptional(read.value) && !field.required && !IsObjectStorage(field.storage) then None else read
  }

  function Decimal(n: int): string
    decreases if n < 0 then 1 - n else n
  {
    if n < 0 then "-" + Decimal(-n)
    else if n < 10 then [('0' as int + n) as char]
    else Decimal(n / 10) + [('0' as int + n % 10) as char]
  }

  function NameOf(entry: Loro): string {
    match entry
    case LStr(name) => name
    case LI64(n) => Decimal(n)
    case _ => ""
  }

  /** The names in an order list, each once, empty ones left out. */
  function UniqueStrings(entries: seq<Loro>): seq<string>
    decreases |entries|
  {
    if entries == [] then []
    else
      var earlier := UniqueStrings(entries[..|entries| - 1]);
      var name := NameOf(entries[|entries| - 1]);
      if name == "" || name in earlier then earlier else earlier + [name]
  }

  /** The order's names are its strings and its integers as decimals, the empty one aside, each where it is
      first mentioned. */
  lemma {:induction false} UniqueNamesExactly(entries: seq<Loro>)
    ensures forall name :: name in UniqueStrings(entries) <==> name != "" && exists i :: 0 <= i < |entries| && IsNamed(entries[i], name)
    ensures forall i, j | 0 <= i < j < |UniqueStrings(entries)| :: UniqueStrings(entries)[i] != UniqueStrings(entries)[j]
    ensures |entries| > 0 ==> UniqueStrings(entries[..|entries| - 1]) <= UniqueStrings(entries)
    decreases |entries|
  {
    if entries != [] {
      var fewer, last := entries[..|entries| - 1], entries[|entries| - 1];
      UniqueNamesExactly(fewer);
      forall name
        ensures (exists i :: 0 <= i < |entries| && IsNamed(entries[i], name)) <==>
                (exists i :: 0 <= i < |fewer| && IsNamed(fewer[i], name)) || IsNamed(last, name)
      {
        if i :| 0 <= i < |fewer| && IsNamed(fewer[i], name) { assert IsNamed(entries[i], name); }
      }
      assert forall name | name != "" :: IsNamed(last, name) <==> NameOf(last) == name;
    }
  }

  predicate IsNamed(entry: Loro, name: string) { entry == LStr(name) || (entry.LI64? && name == Decimal(entry.n)) }

  lemma {:induction false} UniqueNames(names: seq<string>)
    requires (forall i | 0 <= i < |names| :: names[i] != "") && forall i, j | 0 <= i < j < |names| :: names[i] != names[j]
    ensures UniqueStrings(SD.Names(names)) == names
    decreases |names|
  {
    if names != [] {
      var fewer := names[..|names| - 1];
      assert SD.Names(names)[..|names| - 1] == SD.Names(fewer);
      UniqueNames(fewer);
      assert names == fewer + [names[|names| - 1]];
    }
  }

  // ---------------------------------------------------------------- well-formed fields and documents

  /** The codec is one its storage can hold. */
  predicate FieldFits(field: Field) {
    match field.storage
    case Scalar => field.codec in {IntegerCodec, NumberCodec, OptionalNumber, BooleanCodec, StringCodec, OptionalString}
    case Text => field.codec in {StringCodec, OptionalString, PropertyText}
    case OrderedList => field.codec.StringList?
    case StructuredList => field.codec.StructuredJson?
    case StructuredMap => field.codec.StructuredJson?
    case StructuredDocument => field.codec.StructuredJson?
    case KeyedSequence(_, _, _) => field.codec.KeyedSequenceCodec?
    case DerivedIdentity(_) => field.codec.Identity?
    case DerivedRevision => true
  }

  /** A value validation passes, nulls left out. */
  predicate ValueFits(field: Field, value: Option<Json>) {
    match value
    case None => !field.required
    case Some(v) => v != Null && Accepts(field, value)
  }

  /** Storage keeps the value as it is: a number is a float, every integer inside is one an `i64`
      holds, a property text is there and has no members but its own, and a string its codec takes
      for absent when it is empty is not empty where it is required. */
  predicate Faithful(field: Field, value: Option<Json>) {
    match field.storage
    case Scalar =>
      value.Some? ==> && (field.codec.NumberCodec? || field.codec.OptionalNumber? ==> value.value.Float?)
                      && (field.codec.OptionalString? && field.required ==> value.value != Str(""))
    case Text =>
      && (field.codec.PropertyText? ==> value.Some? && value.value.Obj? && value.value.members.Keys == {"$mime", "value"})
      && (field.codec.OptionalString? && field.required ==> value != Some(Str("")))
    case _ => value.Some? ==> Exact(value.value)
  }

  predicate IsPlain(field: Field) {
    !field.storage.DerivedIdentity? && !field.storage.DerivedRevision? && !field.storage.KeyedSequence?
  }

  // ---------------------------------------------------------------- one field written and read

  /** The field's containers read as what a document shows of the value. */
  ghost predicate PlainShows(slot: Slot, field: Field, value: Option<Json>) {
    ReadField(slot, field).Some? && Shown(field, ReadField(slot, field).value) == Shown(field, value)
  }

  /** The change makes the field whole: what it leaves alone is already so; what it writes is a value
      its storage keeps, and lands on what is there where that is held member by member. */
  ghost predicate PlainWhole(slot: Slot, field: Field, previous: Option<Json>, next: Option<Json>) {
    if previous == next then PlainShows(slot, field, next)
    else Faithful(field, next) && match field.storage
      case StructuredMap => next.Some? ==> SM.MapLands(slot.cells, SD.ObjectOf(previous), SD.ObjectOf(next))
      case StructuredDocument => next.Some? ==> SDX.Lands(slot.cells, SD.ObjectOf(previous), SD.ObjectOf(next), None)
      case _ => true
  }

  /** Every change to a valid value is accepted but one: a structured list cannot be left out again. */
  lemma {:induction false} PlainAccepted(slot: Slot, field: Field, previous: Option<Json>, next: Option<Json>)
    requires IsPlain(field) && FieldFits(field) && ValueFits(field, next)
    ensures WriteField(slot, field, previous, next).Some? <==> !(field.storage.StructuredList? && previous.Some? && next.None?)
  {
  }

  /** What each codec is of: integers of 64 bits, numbers, booleans, strings, property texts with a text
      type, lists of strings, and the JSON its storage holds. */
  predicate IsOfCodec(codec: Codec, storage: Storage, value: Json) {
    match codec
    case IntegerCodec => value.Int? && -9223372036854775808 <= value.n <= 9223372036854775807
    case NumberCodec => value.Int? || value.Float?
    case OptionalNumber => value.Int? || value.Float?
    case BooleanCodec => value.Bool?
    case StringCodec => value.Str?
    case OptionalString => value.Str?
    case Identity => value.Str?
    case PropertyText =>
      && value.Obj? && "$mime" in value.members && value.members["$mime"].Str? && "text/" <= value.members["$mime"].s
      && "value" in value.members && value.members["value"].Str?
    case StringList => value.Arr? && forall i | 0 <= i < |value.items| :: value.items[i].Str?
    case StructuredJson => if storage.StructuredMap? || storage.StructuredDocument? then value.Obj? else value.Arr?
    case KeyedSequenceCodec => storage.StructuredMap? || storage.StructuredDocument? || value.Arr?
  }

  /** Validation takes a value exactly when it is of the field's codec, and none at all only where a list of
      strings may be left out. */
  lemma {:induction false} AcceptsExactly(field: Field, value: Option<Json>)
    ensures Accepts(field, value) <==>
            if value.Some? then IsOfCodec(field.codec, field.storage, value.value) else field.codec.StringList? && !field.required
  {
    if value.Some? && field.codec.PropertyText? { PropertyPartsExactly(value.value); }
  }

  lemma {:induction false} PropertyPartsExactly(value: Json)
    ensures PropertyParts(value).Some? <==> IsOfCodec(PropertyText, Text, value)
  {
    if value.Obj? && "$mime" in value.members && value.members["$mime"].Str? {
      var mime := value.members["$mime"].s;
      assert IsText(mime) <==> "text/" <= mime;
    }
  }

  /** A plain field takes a new value exactly when it is of its codec; one that is not required also takes
      none, but for a structured list, and one with an optional codec anything. */
  lemma {:induction false} WriteAcceptedExactly(slot: Slot, field: Field, previous: Option<Json>, next: Option<Json>)
    requires IsPlain(field) && FieldFits(field) && previous != next
    ensures WriteField(slot, field, previous, next).Some? <==>
            || (next.Some? && IsOfCodec(field.codec, field.storage, next.value))
            || (next.None? && !field.required && !field.storage.StructuredList?)
            || (next == Some(Null) && !field.required && (field.storage.Scalar? || field.storage.Text?))
            || (!field.required && (field.codec.OptionalNumber? || field.codec.OptionalString?))
  {
    AcceptsExactly(field, next);
    if next.Some? && field.codec.PropertyText? { PropertyPartsExactly(next.value); }
  }

  /** Whatever its containers hold, a plain field is absent exactly when they are empty, a map or document also
      unmarked, and cannot be read exactly when a property text has no type or a document is damaged. */
  lemma {:induction false} AbsentExactly(slot: Slot, field: Field)
    requires IsPlain(field)
    ensures ReadField(slot, field) == Some(None) <==>
            match field.storage
            case Scalar => slot.scalar.None?
            case Text => field.codec.OptionalString? && slot.text == ""
            case StructuredMap => !field.required && !slot.present && slot.cells == map[]
            case StructuredDocument => !field.required && !slot.present && slot.cells == map[]
            case _ => false
    ensures ReadField(slot, field).None? <==>
            || (field.storage.Text? && field.codec.PropertyText? && slot.mime.None?)
            || (field.storage.StructuredDocument? && exists k :: k in slot.cells && SD.ReadValue(slot.cells[k]).None?)
  {
    if field.storage.StructuredMap? { assert SM.View(slot.cells).Keys == slot.cells.Keys; }
    if field.storage.StructuredDocument? && SD.Read(slot.cells).Some? { assert SD.Read(slot.cells).value.Keys == slot.cells.Keys; }
  }

  /** Whatever the containers hold, after a change they read as the new value exactly when the change
      makes it whole. */
  lemma {:induction false} PlainWriteExactly(slot: Slot, field: Field, previous: Option<Json>, next: Option<Json>)
    requires IsPlain(field) && FieldFits(field) && ValueFits(field, next)
    requires WriteField(slot, field, previous, next).Some?
    ensures PlainShows(WriteField(slot, field, previous, next).value, field, next) <==> PlainWhole(slot, field, previous, next)
  {
    if previous != next {
      match field.storage
      case Scalar => ScalarReads(slot, field, next);
      case Text => TextReads(slot, field, next);
      case OrderedList => ListReads(slot, field, next);
      case StructuredList => ListReads(slot, field, next);
      case _ => StructuredReads(slot, field, previous, next);
    }
  }

  /** Written where nothing was, a valid value reads back exactly when it is one its storage keeps. */
  lemma {:induction false} PlainSeedExactly(field: Field, value: Option<Json>)
    requires IsPlain(field) && FieldFits(field) && ValueFits(field, value)
    ensures WriteField(Untouched(), field, None, value).Some?
    ensures PlainShows(WriteField(Untouched(), field, None, value).value, field, value) <==> Faithful(field, value)
  {
    if value.None? {
      UntouchedShows(field);
    } else {
      match field.storage
      case Scalar => ScalarReads(Untouched(), field, value);
      case Text => TextReads(Untouched(), field, value);
      case OrderedList => ListReads(Untouched(), field, value);
      case StructuredList => ListReads(Untouched(), field, value);
      case _ => StructuredSeeds(field, value);
    }
  }

  /** Untouched containers show nothing, but those of a property text cannot be read. */
  lemma {:induction false} UntouchedShows(field: Field)
    requires IsPlain(field) && FieldFits(field) && !field.required
    ensures PlainShows(Untouched(), field, None) <==> !field.codec.PropertyText?
  {
    assert ToJson(LList([])) == Arr([]);
    assert SM.View(map[]) == map[];
    assert SD.Read(map[]) == Some(map[]);
  }

  lemma {:induction false} ScalarReads(slot: Slot, field: Field, value: Option<Json>)
    requires field.storage.Scalar? && FieldFits(field) && ValueFits(field, value)
    ensures WriteScalar(slot, field.codec, value).Some?
    ensures PlainShows(WriteScalar(slot, field.codec, value).value, field, value) <==> Faithful(field, value)
  {
  }

  lemma {:induction false} TextReads(slot: Slot, field: Field, value: Option<Json>)
    requires field.storage.Text? && FieldFits(field) && ValueFits(field, value)
    ensures WriteText(slot, field.codec, value).Some?
    ensures PlainShows(WriteText(slot, field.codec, value).value, field, value) <==> Faithful(field, value)
  {
    if field.codec.PropertyText? && value.Some? {
      PropertyReads(value.value, PropertyParts(value.value).value.0, PropertyParts(value.value).value.1);
    }
  }

  lemma {:induction false} PropertyReads(value: Json, mime: string, text: string)
    requires PropertyParts(value) == Some((mime, text))
    ensures value.Obj? && value.members != map[]
    ensures Obj(map["$mime" := Str(mime), "value" := Str(text)]) == value <==> value.members.Keys == {"$mime", "value"}
  {
    assert "$mime" in value.members;
    var read := map["$mime" := Str(mime), "value" := Str(text)];
    assert read.Keys == {"$mime", "value"};
    if value.members.Keys == {"$mime", "value"} { assert value.members == read; }
  }

  lemma {:induction false} ListReads(slot: Slot, field: Field, value: Option<Json>)
    requires (field.storage.OrderedList? || field.storage.StructuredList?) && FieldFits(field) && ValueFits(field, value)
    ensures PlainShows(slot.(list := LoroList(ItemsOf(value))), field, value) <==> Faithful(field, value)
  {
    var items := ItemsOf(value);
    assert LList(LoroList(items)) == ToLoro(Arr(items));
    StoredArray(items);
    StoredIsExact(Arr(items));
    assert Stored(Arr(items)) == Arr([]) <==> items == [];
  }

  lemma {:induction false} StructuredReads(slot: Slot, field: Field, previous: Option<Json>, next: Option<Json>)
    requires IsObjectStorage(field.storage) && FieldFits(field) && ValueFits(field, next) && previous != next
    ensures WriteStructured(slot, field, previous, next).Some?
    ensures PlainShows(WriteStructured(slot, field, previous, next).value, field, next) <==> PlainWhole(slot, field, previous, next)
  {
    if next.Some? {
      var members, was := next.value.members, SD.ObjectOf(previous);
      if field.storage.StructuredMap? { SM.MapIsExactly(slot.cells, was, members); } else { SDX.RoundTripIsExactly(slot.cells, was, members); }
    } else {
      assert SM.View(map[]) == map[];
      assert SD.Read(map[]) == Some(map[]);
    }
  }

  lemma {:induction false} StructuredSeeds(field: Field, value: Option<Json>)
    requires IsObjectStorage(field.storage) && FieldFits(field) && ValueFits(field, value) && value.Some?
    ensures WriteStructured(Untouched(), field, None, value).Some?
    ensures PlainShows(WriteStructured(Untouched(), field, None, value).value, field, value) <==> Faithful(field, value)
  {
    var members := value.value.members;
    StoredObject(members);
    StoredIsExact(value.value);
    if field.storage.StructuredMap? {
      assert SM.View(map[]) == StoredMembers(map[]);
      SM.DifferenceRewrites(map[], map[], members);
    } else {
      SDT.SeedRoundTrip(members);
    }
  }

  /** A change of a map whose objects are child maps is whole, whatever shapes change, exactly when the
      integers written fit; and they stay so. */
  lemma {:induction false} MapChangeIsWhole(slot: Slot, field: Field, previous: Json, next: Json)
    requires field.storage.StructuredMap? && previous.Obj? && next.Obj? && SM.Proper(slot.cells)
    requires PlainShows(slot, field, Some(previous))
    ensures PlainWhole(slot, field, Some(previous), Some(next)) <==> Exact(next)
    ensures SM.Proper(SM.WriteMap(slot.cells, previous.members, next.members))
  {
    ShownMap(slot, field, previous);
    SM.ViewIntegersFit(slot.cells);
    StoredObject(previous.members);
    StoredIsExact(previous);
    SM.ProperLands(slot.cells, previous.members, next.members);
    SM.DifferenceRewrites(slot.cells, previous.members, next.members);
  }

  /** A change of a document that is held member by member and keeps its shapes is whole exactly when
      the integers written fit; and it stays so held. */
  lemma {:induction false} StableChangeIsWhole(slot: Slot, field: Field, previous: Json, next: Json)
    requires field.storage.StructuredDocument? && previous.Obj? && next.Obj?
    requires PlainShows(slot, field, Some(previous))
    requires SD.Holds(slot.cells, previous.members, {}) && SDW.Stable(previous.members, next.members)
    ensures PlainWhole(slot, field, Some(previous), Some(next)) <==> Exact(next)
    ensures SD.Holds(SD.Write(slot.cells, previous.members, next.members), next.members, {})
  {
    SDT.DifferenceRoundTrip(slot.cells, previous.members, next.members);
    if previous == next {
      SDX.ReadIntegersFit(slot.cells);
      ShownDocument(slot, field, previous);
    } else {
      SDX.StableLands(slot.cells, previous.members, next.members);
    }
  }

  lemma {:induction false} ShownDocument(slot: Slot, field: Field, value: Json)
    requires field.storage.StructuredDocument? && value.Obj? && PlainShows(slot, field, Some(value))
    ensures SD.Read(slot.cells) == Some(value.members)
  {
  }

  lemma {:induction false} ShownMap(slot: Slot, field: Field, value: Json)
    requires field.storage.StructuredMap? && value.Obj? && PlainShows(slot, field, Some(value))
    ensures SM.View(slot.cells) == value.members
  {
  }

  /** A field of a returning item, in containers left as they were: but for maps and documents, it
      reads as the item has it exactly when the item has a value its storage keeps, or has none and the
      containers show none. */
  lemma {:induction false} ReturningFieldExactly(slot: Slot, field: Field, next: Option<Json>)
    requires IsPlain(field) && !IsObjectStorage(field.storage) && FieldFits(field) && ValueFits(field, next)
    ensures WriteField(slot, field, None, next).Some?
    ensures PlainShows(WriteField(slot, field, None, next).value, field, next) <==>
            if next.Some? then Faithful(field, next) else PlainShows(slot, field, None)
  {
    PlainAccepted(slot, field, None, next);
    PlainWriteExactly(slot, field, None, next);
  }
}
