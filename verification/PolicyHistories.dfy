/** Runs of accepted edits in which a value is replaced that its policy was to protect. */
module PolicyHistories {
  import opened Wrappers
  import opened Json
  import opened Policy
  import opened PolicySequences
  import opened PolicyRuns

  // ---------------------------------------------------------------- lists of notes

  const ITEMS := Field(FieldPath([], ["items"]), KeyedSequence, Some(["id"]), Merge, [], None)
  const NOTE := FieldPath([["items"]], ["note"])

  /** A sequence of items, each with a note. */
  function Notes(rule: Rule): Plan { [ITEMS, Field(NOTE, Scalar, None, rule.conflict, rule.writers, None)] }

  /** The policy of the notes, and those that replace it for some kinds. */
  datatype Rule = Rule(conflict: Conflict, writers: seq<(Kind, Conflict)>)

  function Judging(rule: Rule, kind: Kind): Conflict { ConflictFor(Notes(rule)[1], kind) }

  const EXPLICIT := Rule(Explicit, [])
  const IMMUTABLE := Rule(Immutable, [])

  function NoteKey(name: string): Key { InItem(["items"], name, Here(["note"])) }

  function Place(name: string): Address { [(["items"], name)] }

  function Item(name: string, note: Json): Json {
    if note == Null then Obj(map["id" := Str(name)]) else Obj(map["id" := Str(name), "note" := note])
  }

  type Listing = seq<(string, Json)>

  function Document(listing: Listing): Json { Obj(map["items" := Arr(Items(listing))]) }

  function Items(listing: Listing): seq<Json> {
    seq(|listing|, i requires 0 <= i < |listing| => Item(listing[i].0, listing[i].1))
  }

  function NoteOf(listing: Listing, name: string): Json {
    if listing == [] then Null
    else if listing[|listing| - 1].0 == name then listing[|listing| - 1].1
    else NoteOf(listing[..|listing| - 1], name)
  }

  lemma {:induction false} ItemPaths(name: string, note: Json)
    ensures ValueAt(Item(name, note), ["id"]) == Some(Str(name))
    ensures (match ValueAt(Item(name, note), ["note"]) case Some(value) => value case None => Null) == note
  {
    assert ["id"][1..] == [] && ["note"][1..] == [];
  }

  lemma {:induction false} CollectedNotes(rule: Rule, listing: Listing, key: Key)
    ensures var values := CollectItems(Notes(rule), NOTE, 0, ["id"], Items(listing));
            ValueOf(values, key) == if key == NoteKey(if key.InItem? then key.identity else "") then NoteOf(listing, key.identity) else Null
    decreases |listing|
  {
    if listing != [] {
      var items, fewer, last := Items(listing), listing[..|listing| - 1], listing[|listing| - 1];
      assert items[..|items| - 1] == Items(fewer);
      CollectedNotes(rule, fewer, key);
      ItemPaths(last.0, last.1);
      var inside := Collect(Notes(rule), NOTE, 1, Item(last.0, last.1));
      assert inside == map[Here(["note"]) := last.1];
      var named := set k | k in inside :: InItem(["items"], last.0, k);
      assert named == {NoteKey(last.0)};
      assert CollectItems(Notes(rule), NOTE, 0, ["id"], items)
          == CollectItems(Notes(rule), NOTE, 0, ["id"], Items(fewer)) + map k | k in named :: inside[k.rest];
    }
  }

  /** The values of the note field are the items' notes. */
  lemma {:induction false} NoteValues(rule: Rule, listing: Listing, key: Key)
    ensures ValueOf(FieldValues(Notes(rule), Notes(rule)[1], Document(listing)), key) ==
            if key == NoteKey(if key.InItem? then key.identity else "") then NoteOf(listing, key.identity) else Null
  {
    assert NOTE.within[..0] == [];
    assert IdentityPath(Notes(rule), FieldPath([], ["items"])) == Some(["id"]);
    assert ["items"][1..] == [];
    assert ValueAt(Document(listing), ["items"]) == Some(Arr(Items(listing)));
    CollectedNotes(rule, listing, key);
  }

  /** The listing has the notes that the entries and what is held show. */
  ghost predicate Reads(listing: Listing, entries: Entries, held: map<Key, Json>) {
    forall name :: NoteOf(listing, name) == if EntriesAt(entries, Place(name)) != {} then ValueOf(held, NoteKey(name)) else Null
  }

  lemma {:induction false} NoteIsShown(entries: Entries, name: string)
    ensures Enclosing(NoteKey(name), []) == {Place(name)}
    ensures Shown(entries, NoteKey(name)) <==> EntriesAt(entries, Place(name)) != {}
  {
    assert [] + [(["items"], name)] == Place(name);
    assert Enclosing(NoteKey(name), []) == {Place(name)} + {};
  }

  lemma {:induction false} ListingShows(rule: Rule, listing: Listing, entries: Entries, held: map<Key, Json>)
    requires Reads(listing, entries, held)
    ensures Shows(Notes(rule), Document(listing), entries, held, {})
  {
    var plan := Notes(rule);
    forall f, key | 0 <= f < |plan| && IsStored(plan[f]) && Addresses(plan[f].path, key)
      ensures ValueOf(FieldValues(plan, plan[f], Document(listing)), key) == Visible(entries, held, key) == Form(plan[f], entries, held, {}, key)
    {
      assert f == 1 && key.InItem? && key.sequence == ["items"] && AddressesFrom(NOTE, 1, key.rest);
      assert key == NoteKey(key.identity);
      NoteValues(rule, listing, key);
      NoteIsShown(entries, key.identity);
    }
  }

  /** An edit of a listing is accepted if no note breaks the policy. */
  lemma {:induction false} ListingAccepted(rule: Rule, kind: Kind, base: Listing, client: Listing, current: Listing)
    requires forall name :: !Breaks(Judging(rule, kind), NoteOf(base, name), NoteOf(client, name), NoteOf(current, name))
    ensures Accepts(Notes(rule), Incremental(kind), Document(base), Document(client), Document(current))
  {
    forall f, key | 0 <= f < |Notes(rule)|
      ensures !ConflictsAt(Notes(rule), Incremental(kind), Notes(rule)[f], Document(base), Document(client), Document(current), key)
    {
      NoteValues(rule, base, key);
      NoteValues(rule, client, key);
      NoteValues(rule, current, key);
    }
  }

  /** A state of a listing, whose notes were written so often. */
  function ListingState(listing: Listing, entries: Entries, held: map<Key, Json>, writes: map<Key, nat>): State {
    State(Document(listing), entries, held, writes, {})
  }

  function ListingEdit(base: nat, kind: Kind, listing: Listing, held: map<Key, Json>, taken: Entries, put: Entries): Edit {
    Edit(base, kind, Document(listing), held, taken, put, {}, {}, {})
  }

  /** The edit takes entries its base has and puts new ones. */
  ghost predicate TakesAndPuts(edit: Edit, base: State, client: Entries, current: State, merged: State) {
    && Relists(edit, base.entries, client) && Relists(edit, current.entries, merged.entries)
    && (forall a {:trigger EntriesAt(edit.taken, a)} :: EntriesAt(edit.taken, a) <= EntriesAt(base.entries, a))
    && (forall a {:trigger EntriesAt(edit.put, a)} :: EntriesAt(edit.put, a) !! EntriesAt(base.entries, a))
  }

  /** The edit only moves, adds or removes items: nothing is written. */
  ghost predicate OnlyRelists(edit: Edit, base: State, current: State, merged: State) {
    && edit.held == base.held == current.held == merged.held && edit.rewrote == {}
    && base.writes == current.writes == merged.writes && edit.marked == merged.marked == {}
  }

  /** One accepted edit between listings that writes nothing. */
  lemma {:induction false} RelistingStep(
    rule: Rule, edit: Edit, entries: Entries, base: State, current: State, merged: State,
    before: Listing, client: Listing, now: Listing, next: Listing)
    requires base.document == Document(before) && edit.document == Document(client)
    requires current.document == Document(now) && merged.document == Document(next)
    requires TakesAndPuts(edit, base, entries, current, merged) && OnlyRelists(edit, base, current, merged)
    requires Reads(client, entries, edit.held) && Reads(next, merged.entries, merged.held)
    requires forall name :: !Breaks(Judging(rule, edit.kind), NoteOf(before, name), NoteOf(client, name), NoteOf(now, name))
    ensures IsEdit(Notes(rule), base, edit, entries) && Merges(Notes(rule), base, edit, current, merged)
    ensures Accepts(Notes(rule), Incremental(edit.kind), base.document, edit.document, current.document)
  {
    ListingShows(rule, client, entries, edit.held);
    ListingShows(rule, next, merged.entries, merged.held);
    ListingAccepted(rule, edit.kind, before, client, now);
  }

  /** The edit sets the note of "a", which nobody has set. */
  ghost predicate OnlySetsA(edit: Edit, base: State, current: State, merged: State) {
    && edit.held == merged.held == X && base.held == current.held == map[] && edit.rewrote == {}
    && base.writes == current.writes == map[] && merged.writes == map[NoteKey("a") := 1] && edit.marked == merged.marked == {}
  }

  /** One accepted edit between listings that sets the note of "a". */
  lemma {:induction false} SettingStep(
    rule: Rule, edit: Edit, entries: Entries, base: State, current: State, merged: State,
    before: Listing, client: Listing, now: Listing, next: Listing)
    requires base.document == Document(before) && edit.document == Document(client)
    requires current.document == Document(now) && merged.document == Document(next)
    requires TakesAndPuts(edit, base, entries, current, merged) && OnlySetsA(edit, base, current, merged)
    requires Reads(client, entries, X) && Reads(next, merged.entries, X)
    requires forall name :: !Breaks(Judging(rule, edit.kind), NoteOf(before, name), NoteOf(client, name), NoteOf(now, name))
    ensures IsEdit(Notes(rule), base, edit, entries) && Merges(Notes(rule), base, edit, current, merged)
    ensures Accepts(Notes(rule), Incremental(edit.kind), base.document, edit.document, current.document)
  {
    ListingShows(rule, client, entries, X);
    ListingShows(rule, next, merged.entries, X);
    ListingAccepted(rule, edit.kind, before, client, now);
    forall key ensures Settles(base, edit, current, merged, key) && SettlesAlone(base, edit, current, merged, key) {
      if key != NoteKey("a") { assert !Wrote(base, edit, key); }
    }
  }

  lemma {:induction false} PlacesDiffer(a: string, b: string)
    ensures Place(a) == Place(b) <==> a == b
  {
    assert Place(a)[0].1 == a && Place(b)[0].1 == b;
  }

  // ---------------------------------------------------------------- a removal of what was not seen

  const A: Listing := [("a", Null)]
  const AX: Listing := [("a", Str("x"))]
  const X: map<Key, Json> := map[NoteKey("a") := Str("x")]
  const ONE_A: Entries := map[Place("a") := {0}]

  const UNSEEN_STATES: seq<State> :=
    [ListingState(A, ONE_A, map[], map[]),
     ListingState(AX, ONE_A, X, map[NoteKey("a") := 1]),
     ListingState([], map[], X, map[NoteKey("a") := 1])]
  const UNSEEN_EDITS: seq<Edit> := [ListingEdit(0, Human, AX, X, map[], map[]), ListingEdit(0, Agent, [], map[], ONE_A, map[])]

  /** An accepted removal of an item takes with it an explicit value its writer never saw. */
  lemma {:induction false} RemovalReplacesUnseenValue()
    ensures var states, edits := UNSEEN_STATES, UNSEEN_EDITS;
            && IsHistory(Notes(EXPLICIT), states, edits, [ONE_A, map[]])
            && VisibleIn(states[0], NoteKey("a")) == Null && edits[1].base == 0
            && VisibleIn(states[1], NoteKey("a")) == Str("x") && VisibleIn(states[2], NoteKey("a")) == Null
  {
    assert A[..0] == [] && AX[..0] == [];
    forall name ensures Place(name) == Place("a") <==> name == "a" { PlacesDiffer(name, "a"); }
    NoteIsShown(ONE_A, "a");
    NoteIsShown(map[], "a");
    ListingShows(EXPLICIT, A, ONE_A, map[]);
    NoteIsSet();
    ItemIsRemoved();
  }

  lemma {:induction false} NoteIsSet()
    ensures AcceptedEdit(Notes(EXPLICIT), UNSEEN_STATES, 0, UNSEEN_EDITS[0], ONE_A)
  {
    assert A[..0] == [] && AX[..0] == [];
    forall name ensures Place(name) == Place("a") <==> name == "a" { PlacesDiffer(name, "a"); }
    assert Reads(AX, ONE_A, X);
    SettingStep(EXPLICIT, UNSEEN_EDITS[0], ONE_A, UNSEEN_STATES[0], UNSEEN_STATES[0], UNSEEN_STATES[1], A, AX, A, AX);
  }

  lemma {:induction false} ItemIsRemoved()
    ensures AcceptedEdit(Notes(EXPLICIT), UNSEEN_STATES, 1, UNSEEN_EDITS[1], map[])
  {
    assert A[..0] == [] && AX[..0] == [];
    ListingShows(EXPLICIT, [], map[], map[]);
    ListingShows(EXPLICIT, [], map[], X);
    ListingAccepted(EXPLICIT, Agent, A, [], AX);
  }

  // ---------------------------------------------------------------- a move of what was removed

  function Entered(a: set<nat>, others: Entries): Entries { others[Place("a") := a] }

  function StateA(listing: Listing, a: set<nat>, others: Entries): State { ListingState(listing, Entered(a, others), X, map[]) }

  /** An edit that takes entries of "a" and puts others there, and adds items. */
  function EditA(base: nat, kind: Kind, listing: Listing, took: set<nat>, puts: set<nat>, added: Entries): Edit {
    ListingEdit(base, kind, listing, X, map[Place("a") := took], Entered(puts, added))
  }

  /** A listing whose only note is that of "a". */
  ghost predicate NotesA(listing: Listing, note: Json) {
    forall name :: NoteOf(listing, name) == if name == "a" then note else Null
  }

  lemma {:induction false} NotesAMore(listing: Listing, note: Json, name: string)
    requires NotesA(listing, note)
    ensures name != "a" ==> NotesA(listing + [(name, Null)], note)
    ensures NotesA(listing + AX, Str("x"))
  {
    var other, more := listing + [(name, Null)], listing + AX;
    assert other[..|listing|] == listing && more[..|listing|] == listing;
  }

  function NoteA(a: set<nat>): Json { if a != {} then Str("x") else Null }

  /** Entries that list "a" or not are read as a listing that has it or not. */
  lemma {:induction false} ReadsA(listing: Listing, a: set<nat>, others: Entries)
    requires NotesA(listing, NoteA(a))
    ensures Reads(listing, Entered(a, others), X)
  {
    forall name ensures Place(name) == Place("a") <==> name == "a" { PlacesDiffer(name, "a"); }
    assert forall name :: NoteKey(name) == NoteKey("a") <==> name == "a";
  }

  lemma {:induction false} VisibleA(a: set<nat>, others: Entries)
    ensures Visible(Entered(a, others), X, NoteKey("a")) == NoteA(a)
  {
    NoteIsShown(Entered(a, others), "a");
  }

  ghost predicate Adds(others: Entries, added: Entries, after: Entries) {
    forall x | x != Place("a") :: EntriesAt(after, x) == EntriesAt(others, x) + EntriesAt(added, x)
  }

  lemma {:induction false} EnteredAt(a: set<nat>, others: Entries, x: Address)
    ensures EntriesAt(Entered(a, others), x) == if x == Place("a") then a else EntriesAt(others, x)
  {
  }

  lemma {:induction false} EditARelists(edit: Edit, took: set<nat>, puts: set<nat>, added: Entries, a: set<nat>, others: Entries, after: Entries)
    requires edit.taken == map[Place("a") := took] && edit.put == Entered(puts, added) && Adds(others, added, after)
    ensures Relists(edit, Entered(a, others), Entered(a - took + puts, after))
  {
    forall x ensures EntriesAt(Entered(a - took + puts, after), x)
                  == EntriesAt(Entered(a, others), x) - EntriesAt(edit.taken, x) + EntriesAt(edit.put, x)
    {
      EnteredAt(a, others, x);
      EnteredAt(puts, added, x);
      EnteredAt(a - took + puts, after, x);
    }
  }

  /** One accepted edit that moves, keeps or removes "a". */
  lemma {:induction false} StepA(
    rule: Rule, b: nat, kind: Kind, took: set<nat>, puts: set<nat>, added: Entries,
    before: Listing, x: set<nat>, others: Entries, client: Listing, clientOthers: Entries,
    now: Listing, y: set<nat>, nowOthers: Entries, next: Listing, nextOthers: Entries)
    requires took <= x && puts !! x && Adds(others, added, clientOthers) && Adds(nowOthers, added, nextOthers)
    requires forall e | e != Place("a") :: EntriesAt(added, e) !! EntriesAt(others, e)
    requires NotesA(before, NoteA(x)) && NotesA(client, NoteA(x - took + puts))
    requires NotesA(now, NoteA(y)) && NotesA(next, NoteA(y - took + puts))
    requires !Breaks(Judging(rule, kind), NoteA(x), NoteA(x - took + puts), NoteA(y))
    ensures var edit := EditA(b, kind, client, took, puts, added);
            var base, current := StateA(before, x, others), StateA(now, y, nowOthers);
            var merged := StateA(next, y - took + puts, nextOthers);
            && IsEdit(Notes(rule), base, edit, Entered(x - took + puts, clientOthers))
            && Merges(Notes(rule), base, edit, current, merged)
            && Accepts(Notes(rule), Incremental(kind), base.document, edit.document, current.document)
  {
    var edit := EditA(b, kind, client, took, puts, added);
    var base, current, merged := StateA(before, x, others), StateA(now, y, nowOthers), StateA(next, y - took + puts, nextOthers);
    ReadsA(client, x - took + puts, clientOthers);
    ReadsA(next, y - took + puts, nextOthers);
    EditARelists(edit, took, puts, added, x, others, clientOthers);
    EditARelists(edit, took, puts, added, y, nowOthers, nextOthers);
    forall e ensures EntriesAt(edit.put, e) !! EntriesAt(base.entries, e) {
      EnteredAt(puts, added, e);
      EnteredAt(x, others, e);
    }
    RelistingStep(rule, edit, Entered(x - took + puts, clientOthers), base, current, merged, before, client, now, next);
  }

  lemma {:induction false} CreatedA(rule: Rule, listing: Listing, a: set<nat>, others: Entries)
    requires NotesA(listing, NoteA(a))
    ensures Shows(Notes(rule), Document(listing), Entered(a, others), X, {})
  {
    ReadsA(listing, a, others);
    ListingShows(rule, listing, Entered(a, others), X);
  }

  const B: Listing := [("b", Null)]
  const AB: Listing := AX + [("b", Null)]
  const BA: Listing := B + AX
  const ONE: Entries := map[Place("b") := {1}]

  const MOVED_STATES: seq<State> := [StateA(AB, {0}, ONE), StateA(B, {}, ONE), StateA(BA, {2}, ONE)]
  const MOVED_EDITS: seq<Edit> := [EditA(0, Human, B, {0}, {}, map[]), EditA(0, Agent, BA, {0}, {2}, map[])]

  lemma {:induction false} MovedListings()
    ensures NotesA(AX, Str("x")) && NotesA(AB, Str("x")) && NotesA(BA, Str("x")) && NotesA(B, Null)
  {
    NotesAMore([], Null, "b");
    assert [] + [("b", Null)] == B && [] + AX == AX;
    NotesAMore(AX, Str("x"), "b");
    NotesAMore(B, Null, "b");
  }

  /** An accepted move of an item another edit has removed brings it back, with a value that is not
      the one shown and that its writer did not change. */
  lemma {:induction false} MoveBringsBackRemoved()
    ensures var states, edits := MOVED_STATES, MOVED_EDITS;
            && IsHistory(Notes(EXPLICIT), states, edits, [Entered({}, ONE), Entered({2}, ONE)])
            && VisibleIn(states[0], NoteKey("a")) == Str("x") && edits[1].base == 0
            && VisibleIn(states[1], NoteKey("a")) == Null && VisibleIn(states[2], NoteKey("a")) == Str("x")
  {
    MovedListings();
    CreatedA(EXPLICIT, AB, {0}, ONE);
    VisibleA({0}, ONE);
    VisibleA({}, ONE);
    VisibleA({2}, ONE);
    RemovedThenMoved();
  }

  lemma {:induction false} RemovedThenMoved()
    ensures AcceptedEdit(Notes(EXPLICIT), MOVED_STATES, 0, MOVED_EDITS[0], Entered({}, ONE))
    ensures AcceptedEdit(Notes(EXPLICIT), MOVED_STATES, 1, MOVED_EDITS[1], Entered({2}, ONE))
  {
    MovedListings();
    assert {0} - {0} + {} == {} && {0} - {0} + {2} == {2} && {} - {0} + {2} == {2};
    StepA(EXPLICIT, 0, Human, {0}, {}, map[], AB, {0}, ONE, B, ONE, AB, {0}, ONE, B, ONE);
    StepA(EXPLICIT, 0, Agent, {0}, {2}, map[], AB, {0}, ONE, BA, ONE, B, {}, ONE, BA, ONE);
  }

  // ---------------------------------------------------------------- two moves, and two edits after

  const BAD: Listing := BA + [("d", Null)]
  const ABD: Listing := AB + [("d", Null)]
  const BDA: Listing := B + [("d", Null)] + AX
  const ABDE: Listing := ABD + [("e", Null)]
  const BDE: Listing := B + [("d", Null)] + [("e", Null)]

  const TWO: Entries := map[Place("b") := {1}, Place("d") := {2}]
  const FIVE: Entries := map[Place("e") := {5}]
  const THREE: Entries := TWO + FIVE

  /** Two edits move "a" from one place, so two entries list it; two edits that follow each take one
      of the two away. */
  const LOST_STATES: seq<State> :=
    [StateA(BAD, {0}, TWO), StateA(ABD, {3}, TWO), StateA(ABD, {3, 4}, TWO), StateA(ABDE, {3}, THREE), StateA(BDE, {}, THREE)]
  const LOST_EDITS: seq<Edit> :=
    [EditA(0, Human, ABD, {0}, {3}, map[]), EditA(0, Agent, BDA, {0}, {4}, map[]),
     EditA(2, Human, ABDE, {4}, {}, FIVE), EditA(2, Agent, BDA, {3}, {}, map[])]
  const LOST_ENTRIES: seq<Entries> := [Entered({3}, TWO), Entered({4}, TWO), Entered({3}, THREE), Entered({4}, TWO)]

  lemma {:induction false} LostListings()
    ensures NotesA(BAD, Str("x")) && NotesA(ABD, Str("x")) && NotesA(BDA, Str("x")) && NotesA(ABDE, Str("x")) && NotesA(BDE, Null)
  {
    MovedListings();
    NotesAMore(BA, Str("x"), "d");
    NotesAMore(AB, Str("x"), "d");
    NotesAMore(B, Null, "d");
    NotesAMore(B + [("d", Null)], Null, "e");
    NotesAMore(ABD, Str("x"), "e");
  }

  lemma {:induction false} LostEntries()
    ensures {0} - {0} + {3} == {3} && {0} - {0} + {4} == {4} && {3} - {0} + {4} == {3, 4}
    ensures {3, 4} - {4} + {} == {3} && {3, 4} - {3} + {} == {4} && {3} - {3} + {} == {}
    ensures Adds(TWO, map[], TWO) && Adds(THREE, map[], THREE) && Adds(TWO, FIVE, THREE)
    ensures forall e :: EntriesAt(FIVE, e) !! EntriesAt(TWO, e)
  {
    PlacesDiffer("b", "e");
    PlacesDiffer("d", "e");
  }

  /** A value immutable to everyone is lost by edits that each leave it as it is. */
  lemma {:induction false} ImmutableIsLost()
    ensures IsHistory(Notes(IMMUTABLE), LOST_STATES, LOST_EDITS, LOST_ENTRIES) && ImmutableToAll(Notes(IMMUTABLE)[1])
    ensures VisibleIn(LOST_STATES[0], NoteKey("a")) == Str("x") && VisibleIn(LOST_STATES[4], NoteKey("a")) == Null
  {
    LostListings();
    CreatedA(IMMUTABLE, BAD, {0}, TWO);
    VisibleA({0}, TWO);
    VisibleA({}, THREE);
    FirstMoves();
    ThenTakes();
  }

  lemma {:induction false} FirstMoves()
    ensures AcceptedEdit(Notes(IMMUTABLE), LOST_STATES, 0, LOST_EDITS[0], LOST_ENTRIES[0])
    ensures AcceptedEdit(Notes(IMMUTABLE), LOST_STATES, 1, LOST_EDITS[1], LOST_ENTRIES[1])
  {
    LostListings();
    LostEntries();
    StepA(IMMUTABLE, 0, Human, {0}, {3}, map[], BAD, {0}, TWO, ABD, TWO, BAD, {0}, TWO, ABD, TWO);
    StepA(IMMUTABLE, 0, Agent, {0}, {4}, map[], BAD, {0}, TWO, BDA, TWO, ABD, {3}, TWO, ABD, TWO);
  }

  lemma {:induction false} ThenTakes()
    ensures AcceptedEdit(Notes(IMMUTABLE), LOST_STATES, 2, LOST_EDITS[2], LOST_ENTRIES[2])
    ensures AcceptedEdit(Notes(IMMUTABLE), LOST_STATES, 3, LOST_EDITS[3], LOST_ENTRIES[3])
  {
    LostListings();
    LostEntries();
    StepA(IMMUTABLE, 2, Human, {4}, {}, FIVE, ABD, {3, 4}, TWO, ABDE, THREE, ABD, {3, 4}, TWO, ABDE, THREE);
    StepA(IMMUTABLE, 2, Agent, {3}, {}, map[], ABD, {3, 4}, TWO, BDA, TWO, ABDE, {3}, THREE, BDE, THREE);
  }

  // ---------------------------------------------------------------- a value given back

  const AY: Listing := [("a", Str("y"))]
  const Y: map<Key, Json> := map[NoteKey("a") := Str("y")]

  /** Explicit, but for agents judged by another policy. */
  function Agents(agent: Conflict): Rule { Rule(Explicit, [(Agent, agent)]) }

  /** One edit replaces a note; another, from the same base, replaces it twice, with another and then
      with the one it found, and its last write is taken for the later. */
  const GIVEN_STATES: seq<State> :=
    [ListingState(AX, ONE_A, X, map[]),
     ListingState(AY, ONE_A, Y, map[NoteKey("a") := 1]),
     ListingState(AX, ONE_A, X, map[NoteKey("a") := 2])]
  const GIVEN_EDITS: seq<Edit> :=
    [ListingEdit(0, Human, AY, Y, map[], map[]),
     ListingEdit(0, Agent, AX, X, map[], map[]).(rewrote := {NoteKey("a")}, later := {NoteKey("a")})]

  lemma {:induction false} OneNote(note: Json)
    ensures NotesA([("a", note)], note)
  {
    assert [("a", note)][..0] == [];
  }

  lemma {:induction false} OneNoteShows(rule: Rule, note: Json)
    ensures Shows(Notes(rule), Document([("a", note)]), ONE_A, map[NoteKey("a") := note], {})
  {
    OneNote(note);
    forall name ensures Place(name) == Place("a") <==> name == "a" { PlacesDiffer(name, "a"); }
    assert forall name :: NoteKey(name) == NoteKey("a") <==> name == "a";
    ListingShows(rule, [("a", note)], ONE_A, map[NoteKey("a") := note]);
  }

  /** Judged explicit or immutable, an update that leaves a value as its writer found it is accepted,
      and replaces the one another edit has set since. */
  lemma {:induction false} GivenBackReplacesUnseenValue(agent: Conflict)
    requires agent == Explicit || agent == Immutable
    ensures var states, edits := GIVEN_STATES, GIVEN_EDITS;
            && IsHistory(Notes(Agents(agent)), states, edits, [ONE_A, ONE_A]) && Judging(Agents(agent), edits[1].kind) == agent
            && VisibleIn(states[0], NoteKey("a")) == Str("x") && edits[1].base == 0
            && VisibleIn(states[1], NoteKey("a")) == Str("y") && VisibleIn(states[2], NoteKey("a")) == Str("x")
  {
    NoteIsShown(ONE_A, "a");
    OneNoteShows(Agents(agent), Str("x"));
    NoteIsReplaced(agent);
    NoteIsGivenBack(agent);
  }

  lemma {:induction false} NoteIsReplaced(agent: Conflict)
    ensures AcceptedEdit(Notes(Agents(agent)), GIVEN_STATES, 0, GIVEN_EDITS[0], ONE_A)
  {
    OneNoteShows(Agents(agent), Str("y"));
    OneNote(Str("x"));
    OneNote(Str("y"));
    ListingAccepted(Agents(agent), Human, AX, AY, AX);
  }

  lemma {:induction false} NoteIsGivenBack(agent: Conflict)
    requires agent == Explicit || agent == Immutable
    ensures AcceptedEdit(Notes(Agents(agent)), GIVEN_STATES, 1, GIVEN_EDITS[1], ONE_A)
  {
    OneNoteShows(Agents(agent), Str("x"));
    ListingAccepted(Agents(agent), Agent, AX, AX, AY);
  }

  // ---------------------------------------------------------------- a value set out of sight

  const AB0: Listing := A + B
  const BA0: Listing := B + A

  /** One edit moves "a"; another, from the same base, sets its note and removes it. */
  const SET_STATES: seq<State> :=
    [ListingState(AB0, Entered({0}, ONE), map[], map[]),
     ListingState(BA0, Entered({2}, ONE), map[], map[]),
     ListingState(BA, Entered({2}, ONE), X, map[NoteKey("a") := 1])]
  const SET_EDITS: seq<Edit> :=
    [ListingEdit(0, Human, BA0, map[], ONE_A, map[Place("a") := {2}]), ListingEdit(0, Agent, B, X, ONE_A, map[])]

  lemma {:induction false} EmptyShows(rule: Rule, listing: Listing, entries: Entries)
    requires NotesA(listing, Null)
    ensures Shows(Notes(rule), Document(listing), entries, map[], {})
  {
    ListingShows(rule, listing, entries, map[]);
  }

  lemma {:induction false} SetListings()
    ensures NotesA(AB0, Null) && NotesA(BA0, Null) && NotesA(B, Null) && NotesA(BA, Str("x"))
  {
    MovedListings();
    OneNote(Null);
    NotesAMore(A, Null, "b");
    assert BA0[..1] == B;
  }

  /** A value immutable to everyone, and unset, is set by an update that removes the item it sets it in. */
  lemma {:induction false} ImmutableIsSet()
    ensures var states, edits := SET_STATES, SET_EDITS;
            && IsHistory(Notes(IMMUTABLE), states, edits, [Entered({2}, ONE), Entered({}, ONE)]) && ImmutableToAll(Notes(IMMUTABLE)[1])
            && VisibleIn(states[0], NoteKey("a")) == Null && VisibleIn(states[2], NoteKey("a")) == Str("x")
  {
    SetListings();
    EmptyShows(IMMUTABLE, AB0, Entered({0}, ONE));
    VisibleA({2}, ONE);
    ItemIsMoved();
    ItemIsSetAndRemoved();
  }

  lemma {:induction false} ItemIsMoved()
    ensures AcceptedEdit(Notes(IMMUTABLE), SET_STATES, 0, SET_EDITS[0], Entered({2}, ONE))
  {
    SetListings();
    EmptyShows(IMMUTABLE, BA0, Entered({2}, ONE));
    ListingAccepted(IMMUTABLE, Human, AB0, BA0, AB0);
    PlacesDiffer("a", "b");
  }

  lemma {:induction false} ItemIsSetAndRemoved()
    ensures AcceptedEdit(Notes(IMMUTABLE), SET_STATES, 1, SET_EDITS[1], Entered({}, ONE))
  {
    SetListings();
    ReadsA(B, {}, ONE);
    ReadsA(BA, {2}, ONE);
    SetRelists();
    SettingStep(IMMUTABLE, SET_EDITS[1], Entered({}, ONE), SET_STATES[0], SET_STATES[1], SET_STATES[2], AB0, B, BA0, BA);
  }

  lemma {:induction false} SetRelists()
    ensures TakesAndPuts(SET_EDITS[1], SET_STATES[0], Entered({}, ONE), SET_STATES[1], SET_STATES[2])
  {
    PlacesDiffer("a", "b");
  }

  // ---------------------------------------------------------------- a restored member

  const URL: Key := Here(["source", "url"])
  const EXCERPT: Key := Here(["source", "excerpt"])
  const TITLE: Key := Here(["source", "title"])

  /** An object of three members, whose `url` is restored where one of the others is set. */
  function Source(conflict: Conflict): Plan {
    [Field(FieldPath([], ["source", "url"]), Scalar, None, conflict, [], Some(Str(""))),
     Field(FieldPath([], ["source", "excerpt"]), Scalar, None, Merge, [], None),
     Field(FieldPath([], ["source", "title"]), Scalar, None, Merge, [], None)]
  }

  /** What is held of the three, `Null` where one is unset. */
  function Three(url: Json, excerpt: Json, title: Json): map<Key, Json> { map[URL := url, EXCERPT := excerpt, TITLE := title] }

  function SetMember(name: string, value: Json): map<string, Json> { if value == Null then map[] else map[name := value] }

  function SourceDocument(url: Json, excerpt: Json, title: Json): Json {
    if url == excerpt == title == Null then Obj(map[])
    else Obj(map["source" := Obj(SourceMembers(url, excerpt, title))])
  }

  function SourceMembers(url: Json, excerpt: Json, title: Json): map<string, Json> {
    map["url" := if url == Null then Str("") else url] + SetMember("excerpt", excerpt) + SetMember("title", title)
  }

  lemma {:induction false} MemberAt(members: map<string, Json>, name: string)
    ensures ValueAt(Obj(map["source" := Obj(members)]), ["source", name]) == if name in members then Some(members[name]) else None
    ensures ValueAt(Obj(map[]), ["source", name]) == None
  {
    assert ["source", name][1..] == [name] && [name][1..] == [];
    assert ValueAt(Obj(members), [name]) == if name in members then Some(members[name]) else None;
  }

  function SourceState(url: Json, excerpt: Json, title: Json, writes: map<Key, nat>): State {
    State(SourceDocument(url, excerpt, title), map[], Three(url, excerpt, title), writes, {})
  }

  function SourceEdit(kind: Kind, url: Json, excerpt: Json, title: Json): Edit {
    Edit(0, kind, SourceDocument(url, excerpt, title), Three(url, excerpt, title), map[], map[], {}, {}, {})
  }

  lemma {:induction false} SourceValues(url: Json, excerpt: Json, title: Json)
    ensures var document := SourceDocument(url, excerpt, title);
            && ValueAt(document, ["source", "excerpt"]) == (if excerpt == Null then None else Some(excerpt))
            && ValueAt(document, ["source", "title"]) == (if title == Null then None else Some(title))
            && ValueAt(document, ["source", "url"]) ==
               (if url == excerpt == title == Null then None else Some(if url == Null then Str("") else url))
  {
    var members := SourceMembers(url, excerpt, title);
    MemberAt(members, "url");
    MemberAt(members, "excerpt");
    MemberAt(members, "title");
  }

  lemma {:induction false} UrlIsPresent(url: Json, excerpt: Json, title: Json)
    ensures Present(Three(url, excerpt, title), {}, URL) <==> !(url == excerpt == title == Null)
  {
    assert ["source", "url"][..1] == ["source"];
    assert Beside(URL, URL) && Beside(URL, EXCERPT) && Beside(URL, TITLE);
    assert ValueOf(Three(url, excerpt, title), URL) == url && ValueOf(Three(url, excerpt, title), EXCERPT) == excerpt;
    assert ValueOf(Three(url, excerpt, title), TITLE) == title;
  }

  lemma {:induction false} SourceShows(conflict: Conflict, url: Json, excerpt: Json, title: Json)
    requires url != Str("")
    ensures Shows(Source(conflict), SourceDocument(url, excerpt, title), map[], Three(url, excerpt, title), {})
  {
    SourceValues(url, excerpt, title);
    UrlIsPresent(url, excerpt, title);
    var plan := Source(conflict);
    forall f, key | 0 <= f < |plan| && IsStored(plan[f]) && Addresses(plan[f].path, key)
      ensures plan[f].restored != Some(ValueOf(Three(url, excerpt, title), key))
      ensures ValueOf(FieldValues(plan, plan[f], SourceDocument(url, excerpt, title)), key) ==
              Form(plan[f], map[], Three(url, excerpt, title), {}, key)
    {
      assert key == Here(plan[f].path.leaf);
    }
  }

  /** How one member settles: what it was, what the edit leaves, what it is and what it comes to, and how
      often it was written before each. */
  predicate MemberSettles(was: Json, left: Json, now: Json, next: Json, base: nat, current: nat, merged: nat) {
    if left == was then next == now && merged == current else next == left && merged == current + 1 && current == base
  }

  function HeldIn(state: State, key: Key): Json { ValueOf(state.held, key) }

  predicate KeySettles(base: State, edit: Edit, current: State, merged: State, key: Key) {
    MemberSettles(HeldIn(base, key), ValueOf(edit.held, key), HeldIn(current, key), HeldIn(merged, key),
                  WritesOf(base, key), WritesOf(current, key), WritesOf(merged, key))
  }

  predicate IsSource(state: State, url: Json, excerpt: Json, title: Json) {
    && url != Str("") && state.document == SourceDocument(url, excerpt, title) && state.held == Three(url, excerpt, title)
    && state.entries == map[] && state.marked == {} && OnlyThree(state)
  }

  /** Nothing is held and was written but the three members. */
  predicate OnlyThree(state: State) { state.held.Keys <= {URL, EXCERPT, TITLE} && state.writes.Keys <= {URL, EXCERPT, TITLE} }

  /** One accepted edit of the three members. */
  lemma {:induction false} SourceStep(
    conflict: Conflict, kind: Kind, base: State, current: State, merged: State,
    u0: Json, e0: Json, t0: Json, u1: Json, e1: Json, t1: Json, u2: Json, e2: Json, t2: Json, u3: Json, e3: Json, t3: Json)
    requires IsSource(base, u0, e0, t0) && IsSource(current, u2, e2, t2) && IsSource(merged, u3, e3, t3) && u1 != Str("")
    requires var edit := SourceEdit(kind, u1, e1, t1);
             KeySettles(base, edit, current, merged, URL) && KeySettles(base, edit, current, merged, EXCERPT) && KeySettles(base, edit, current, merged, TITLE)
    requires !Breaks(conflict, UrlOf(u0, e0, t0), UrlOf(u1, e1, t1), UrlOf(u2, e2, t2))
    ensures var edit := SourceEdit(kind, u1, e1, t1);
            && IsEdit(Source(conflict), base, edit, map[]) && Merges(Source(conflict), base, edit, current, merged)
            && Accepts(Source(conflict), Incremental(kind), base.document, edit.document, current.document)
  {
    var edit := SourceEdit(kind, u1, e1, t1);
    SourceIsEdit(conflict, kind, base, u1, e1, t1);
    SourceShows(conflict, u3, e3, t3);
    SourceJudged(conflict, kind, u0, e0, t0, u1, e1, t1, u2, e2, t2);
    SourceMerges(conflict, base, edit, current, merged);
  }

  lemma {:induction false} SourceIsEdit(conflict: Conflict, kind: Kind, base: State, url: Json, excerpt: Json, title: Json)
    requires base.entries == map[] && url != Str("")
    ensures IsEdit(Source(conflict), base, SourceEdit(kind, url, excerpt, title), map[])
  {
    SourceShows(conflict, url, excerpt, title);
  }

  lemma {:induction false} SourceJudged(
    conflict: Conflict, kind: Kind, u0: Json, e0: Json, t0: Json, u1: Json, e1: Json, t1: Json, u2: Json, e2: Json, t2: Json)
    requires !Breaks(conflict, UrlOf(u0, e0, t0), UrlOf(u1, e1, t1), UrlOf(u2, e2, t2))
    ensures Accepts(Source(conflict), Incremental(kind), SourceDocument(u0, e0, t0), SourceDocument(u1, e1, t1), SourceDocument(u2, e2, t2))
  {
    SourceValues(u0, e0, t0);
    SourceValues(u1, e1, t1);
    SourceValues(u2, e2, t2);
    SourceAccepted(conflict, kind, SourceDocument(u0, e0, t0), SourceDocument(u1, e1, t1), SourceDocument(u2, e2, t2));
  }

  function UrlOf(url: Json, excerpt: Json, title: Json): Json {
    if url == excerpt == title == Null then Null else if url == Null then Str("") else url
  }

  lemma {:induction false} SourceMerges(conflict: Conflict, base: State, edit: Edit, current: State, merged: State)
    requires OnlyThree(base) && OnlyThree(current) && OnlyThree(merged) && edit.held.Keys <= {URL, EXCERPT, TITLE} && edit.rewrote == {}
    requires KeySettles(base, edit, current, merged, URL) && KeySettles(base, edit, current, merged, EXCERPT) && KeySettles(base, edit, current, merged, TITLE)
    requires edit.taken == edit.put == base.entries == current.entries == merged.entries == map[]
    requires Shows(Source(conflict), merged.document, map[], merged.held, merged.marked)
    ensures Merges(Source(conflict), base, edit, current, merged)
  {
    forall key ensures Settles(base, edit, current, merged, key) && SettlesAlone(base, edit, current, merged, key) {
      if key !in {URL, EXCERPT, TITLE} { assert !Wrote(base, edit, key); }
    }
  }

  /** The policy of the first member, and values of it that do not break it. */
  lemma {:induction false} SourceAccepted(conflict: Conflict, kind: Kind, base: Json, client: Json, current: Json)
    requires var url := ["source", "url"]; !Breaks(conflict, Or(ValueAt(base, url)), Or(ValueAt(client, url)), Or(ValueAt(current, url)))
    ensures Accepts(Source(conflict), Incremental(kind), base, client, current)
  {
  }

  function Or(value: Option<Json>): Json { match value case Some(v) => v case None => Null }

  const U: Json := Str("u")
  const E: Json := Str("e")
  const T: Json := Str("t")

  /** One edit clears `url`, which is read as empty beside the other member; another, from the same base,
      clears that. */
  const CLEARED_STATES: seq<State> :=
    [SourceState(U, E, Null, map[]), SourceState(Null, E, Null, map[URL := 1]), SourceState(Null, Null, Null, map[URL := 1, EXCERPT := 1])]
  const CLEARED_EDITS: seq<Edit> := [SourceEdit(Human, Null, E, Null), SourceEdit(Agent, U, Null, Null)]

  /** An explicit value goes from its empty form to none by an edit that neither wrote it nor saw that
      form: its object is gone. */
  lemma {:induction false} RestoredGoesUnseen()
    ensures var plan, states, edits := Source(Explicit), CLEARED_STATES, CLEARED_EDITS;
            && IsHistory(plan, states, edits, [map[], map[]]) && edits[1].base == 0
            && FormIn(plan[0], states[0], URL) == U && FormIn(plan[0], states[1], URL) == Str("") && FormIn(plan[0], states[2], URL) == Null
            && !Wrote(states[0], edits[1], URL)
  {
    SourceShows(Explicit, U, E, Null);
    UrlIsPresent(Null, E, Null);
    UrlIsPresent(Null, Null, Null);
    UrlIsCleared();
    ExcerptIsCleared();
  }

  lemma {:induction false} UrlIsCleared()
    ensures AcceptedEdit(Source(Explicit), CLEARED_STATES, 0, CLEARED_EDITS[0], map[])
  {
    SourceStep(Explicit, Human, CLEARED_STATES[0], CLEARED_STATES[0], CLEARED_STATES[1],
               U, E, Null, Null, E, Null, U, E, Null, Null, E, Null);
  }

  lemma {:induction false} ExcerptIsCleared()
    ensures AcceptedEdit(Source(Explicit), CLEARED_STATES, 1, CLEARED_EDITS[1], map[])
  {
    SourceStep(Explicit, Agent, CLEARED_STATES[0], CLEARED_STATES[1], CLEARED_STATES[2],
               U, E, Null, U, Null, Null, Null, E, Null, Null, Null, Null);
  }

  /** Two edits from one base each clear one of the members beside it. */
  const EMPTIED_STATES: seq<State> :=
    [SourceState(Null, E, T, map[]), SourceState(Null, Null, T, map[EXCERPT := 1]), SourceState(Null, Null, Null, map[EXCERPT := 1, TITLE := 1])]
  const EMPTIED_EDITS: seq<Edit> := [SourceEdit(Human, Null, Null, T), SourceEdit(Agent, Null, E, Null)]

  /** A value immutable to everyone, and in its empty form, goes with what lies beside it. */
  lemma {:induction false} ImmutableFormGoes()
    ensures var plan, states, edits := Source(Immutable), EMPTIED_STATES, EMPTIED_EDITS;
            && IsHistory(plan, states, edits, [map[], map[]]) && ImmutableToAll(plan[0])
            && FormIn(plan[0], states[0], URL) == Str("") && FormIn(plan[0], states[1], URL) == Str("") && FormIn(plan[0], states[2], URL) == Null
  {
    SourceShows(Immutable, Null, E, T);
    UrlIsPresent(Null, E, T);
    UrlIsPresent(Null, Null, T);
    UrlIsPresent(Null, Null, Null);
    FirstIsCleared();
    SecondIsCleared();
  }

  lemma {:induction false} FirstIsCleared()
    ensures AcceptedEdit(Source(Immutable), EMPTIED_STATES, 0, EMPTIED_EDITS[0], map[])
  {
    SourceStep(Immutable, Human, EMPTIED_STATES[0], EMPTIED_STATES[0], EMPTIED_STATES[1],
               Null, E, T, Null, Null, T, Null, E, T, Null, Null, T);
  }

  lemma {:induction false} SecondIsCleared()
    ensures AcceptedEdit(Source(Immutable), EMPTIED_STATES, 1, EMPTIED_EDITS[1], map[])
  {
    SourceStep(Immutable, Agent, EMPTIED_STATES[0], EMPTIED_STATES[1], EMPTIED_STATES[2],
               Null, E, T, Null, E, Null, Null, Null, T, Null, Null, Null);
  }
}
