/**
 A list container whose entries have identities of their own, and the writer that turns it into
 a desired list by the deletions and insertions of an edit script.
 */
module ListContainer {
  import opened Store

  /** One entry: the value, under the identity the container gave it when it was inserted. */
  datatype Entry = Entry(id: nat, value: Loro)

  datatype Edit =
    | Equal(oldIndex: nat, newIndex: nat, len: nat)
    | Delete(oldIndex: nat, oldLen: nat, newIndex: nat)
    | Insert(oldIndex: nat, newIndex: nat, newLen: nat)
    | Replace(oldIndex: nat, oldLen: nat, newIndex: nat, newLen: nat)

  function OldLen(edit: Edit): nat {
    match edit
    case Equal(_, _, len) => len
    case Delete(_, oldLen, _) => oldLen
    case Insert(_, _, _) => 0
    case Replace(_, oldLen, _, _) => oldLen
  }

  function NewLen(edit: Edit): nat {
    match edit
    case Equal(_, _, len) => len
    case Delete(_, _, _) => 0
    case Insert(_, _, newLen) => newLen
    case Replace(_, _, _, newLen) => newLen
  }

  function Values(entries: seq<Entry>): seq<Loro> {
    seq(|entries|, i requires 0 <= i < |entries| => entries[i].value)
  }

  /** Where the edit begins in the current list, and where the last one ends. */
  function OldAt(script: seq<Edit>, n: nat, end: nat): nat { if n < |script| then script[n].oldIndex else end }

  function NewAt(script: seq<Edit>, n: nat, end: nat): nat { if n < |script| then script[n].newIndex else end }

  /** The edit fits both lists, begins a run they share if it is an equal one, and ends where the
      next begins. */
  predicate Fits(script: seq<Edit>, n: nat, current: seq<Loro>, desired: seq<Loro>)
    requires n < |script|
  {
    var edit := script[n];
    && edit.oldIndex + OldLen(edit) == OldAt(script, n + 1, |current|) <= |current|
    && edit.newIndex + NewLen(edit) == NewAt(script, n + 1, |desired|) <= |desired|
    && (edit.Equal? ==> current[edit.oldIndex..edit.oldIndex + edit.len] == desired[edit.newIndex..edit.newIndex + edit.len])
  }

  /** The edits lead from the current list to the desired one, each beginning where the last ended. */
  ghost predicate IsScript(script: seq<Edit>, current: seq<Loro>, desired: seq<Loro>) {
    && OldAt(script, 0, |current|) == 0 && NewAt(script, 0, |desired|) == 0
    && forall n | 0 <= n < |script| :: Fits(script, n, current, desired)
  }

  function Inserted(values: seq<Loro>, nextId: nat): seq<Entry> {
    seq(|values|, i requires 0 <= i < |values| => Entry(nextId + i, values[i]))
  }

  /** What one edit puts in its place: the entries there, if they are to stay, or new ones. */
  function EditRun(edit: Edit, kept: seq<Entry>, desired: seq<Loro>, nextId: nat): seq<Entry>
    requires edit.newIndex + NewLen(edit) <= |desired|
  {
    if edit.Equal? then kept else Inserted(desired[edit.newIndex..edit.newIndex + NewLen(edit)], nextId)
  }

  function NextId(edit: Edit, nextId: nat): nat { if edit.Equal? then nextId else nextId + NewLen(edit) }

  /** Identities no two entries share, all given out before `nextId`. */
  ghost predicate Distinct(entries: seq<Entry>, nextId: nat) {
    && (forall i | 0 <= i < |entries| :: entries[i].id < nextId)
    && (forall i, j | 0 <= i < j < |entries| :: entries[i].id != entries[j].id)
  }

  /** The places of an equal run hold the original entries. */
  ghost predicate KeepsRun(edit: Edit, before: seq<Entry>, after: seq<Entry>) {
    && edit.Equal? && edit.oldIndex + edit.len <= |before| && edit.newIndex + edit.len <= |after|
    && after[edit.newIndex..edit.newIndex + edit.len] == before[edit.oldIndex..edit.oldIndex + edit.len]
  }

  /** Place `x` of the current list lies in a run both lists share. */
  predicate InEqualRun(script: seq<Edit>, x: nat) {
    exists m | 0 <= m < |script| :: script[m].Equal? && script[m].oldIndex <= x < script[m].oldIndex + script[m].len
  }

  class List {
    var entries: seq<Entry>
    var nextId: nat

    ghost predicate Valid()
      reads this
    {
      Distinct(entries, nextId)
    }

    method Delete(position: nat, count: nat)
      requires position + count <= |entries|
      modifies this
      ensures entries == old(entries)[..position] + old(entries)[position + count..] && nextId == old(nextId)
    {
      entries := entries[..position] + entries[position + count..];
    }

    method Insert(position: nat, value: Loro)
      requires position <= |entries|
      modifies this
      ensures entries == old(entries)[..position] + [Entry(old(nextId), value)] + old(entries)[position..]
      ensures nextId == old(nextId) + 1
    {
      entries := entries[..position] + [Entry(nextId, value)] + entries[position..];
      nextId := nextId + 1;
    }

    /** Inserts the values one after another, from `start` on. */
    method InsertAll(start: nat, values: seq<Loro>) returns (position: nat)
      requires start <= |entries|
      modifies this
      ensures position == start + |values| && nextId == old(nextId) + |values|
      ensures entries == old(entries)[..start] + Inserted(values, old(nextId)) + old(entries)[start..]
    {
      position := start;
      for k := 0 to |values|
        invariant position == start + k && nextId == old(nextId) + k
        invariant entries == old(entries)[..start] + Inserted(values[..k], old(nextId)) + old(entries)[start..]
      {
        InsertedOne(old(entries)[..start], values, k, old(nextId), old(entries)[start..]);
        Insert(position, values[k]);
        position := position + 1;
      }
      assert values[..|values|] == values;
    }

    /** One edit, made at the place the earlier ones lead to; the next place comes back. */
    method ApplyEdit(edit: Edit, desired: seq<Loro>, start: nat) returns (position: nat)
      requires start + OldLen(edit) <= |entries| && edit.newIndex + NewLen(edit) <= |desired|
      modifies this
      ensures position == start + NewLen(edit) && nextId == NextId(edit, old(nextId))
      ensures entries == old(entries)[..start]
                         + EditRun(edit, old(entries)[start..start + OldLen(edit)], desired, old(nextId))
                         + old(entries)[start + OldLen(edit)..]
    {
      var deleted, inserted := 0, [];
      match edit {
        case Equal(_, _, len) =>
          position := start + len;
          return;
        case Delete(_, oldLen, _) => deleted := oldLen;
        case Insert(_, newIndex, newLen) => inserted := desired[newIndex..newIndex + newLen];
        case Replace(_, oldLen, newIndex, newLen) => deleted, inserted := oldLen, desired[newIndex..newIndex + newLen];
      }
      assert deleted == OldLen(edit) && inserted == desired[edit.newIndex..edit.newIndex + NewLen(edit)];
      if deleted > 0 {
        Delete(start, deleted);
      }
      assert entries[..start] == old(entries)[..start] && entries[start..] == old(entries)[start + deleted..];
      position := InsertAll(start, inserted);
    }

    /** The next edit of a script, after those before it have taken their runs. */
    method TakeEdit(script: seq<Edit>, n: nat, desired: seq<Loro>, start: nat,
                    ghost before: seq<Entry>, ghost first: nat, ghost taken: seq<Entry>)
      returns (position: nat, ghost longer: seq<Entry>)
      requires n < |script| && IsScript(script, Values(before), desired) && Distinct(before, first) && start == |taken|
      requires Written(script, n, before, desired, first, taken, nextId)
      requires Stands(script, n, before, desired, taken, entries)
      modifies this
      ensures Written(script, n + 1, before, desired, first, longer, nextId) && position == |longer|
      ensures Stands(script, n + 1, before, desired, longer, entries)
    {
      RunWritten(script, n, before, desired, first, taken, nextId);
      ghost var run := RunOf(script, n, before, desired, nextId);
      RunTaken(script, n, before, desired, taken, entries, run);
      position := ApplyEdit(script[n], desired, start);
      longer := taken + run;
    }

    /** Rewrites the list to `desired` by the edits of the script: every place it deletes or
        inserts at is in range, the list ends as desired, an equal run's places hold its original
        entries, and no other original entry is left. */
    method WriteList(desired: seq<Loro>, script: seq<Edit>)
      requires Valid() && IsScript(script, Values(entries), desired)
      modifies this
      ensures Valid() && Values(entries) == desired
      ensures forall m | 0 <= m < |script| && script[m].Equal? :: KeepsRun(script[m], old(entries), entries)
      ensures forall x | 0 <= x < |old(entries)| :: old(entries)[x] in entries <==> InEqualRun(script, x)
    {
      var position := 0;
      ghost var taken: seq<Entry> := [];
      AtStart(script, entries, desired, nextId);
      for n := 0 to |script|
        invariant Written(script, n, old(entries), desired, old(nextId), taken, nextId)
        invariant Stands(script, n, old(entries), desired, taken, entries) && position == |taken|
      {
        position, taken := TakeEdit(script, n, desired, position, old(entries), old(nextId), taken);
      }
      AllWritten(script, old(entries), desired, old(nextId), taken, nextId, entries);
    }
  }

  lemma {:induction false} InsertedOne(left: seq<Entry>, values: seq<Loro>, k: nat, nextId: nat, right: seq<Entry>)
    requires k < |values|
    ensures var entries := left + Inserted(values[..k], nextId) + right;
            entries[..|left| + k] + [Entry(nextId + k, values[k])] + entries[|left| + k..]
            == left + Inserted(values[..k + 1], nextId) + right
  {
    assert Inserted(values[..k + 1], nextId) == Inserted(values[..k], nextId) + [Entry(nextId + k, values[k])];
  }

  /** The list after `n` edits: the entries taken, then those not reached yet. */
  ghost predicate Stands(script: seq<Edit>, n: nat, before: seq<Entry>, desired: seq<Loro>, taken: seq<Entry>, entries: seq<Entry>) {
    && OldAt(script, n, |before|) <= |before| && |taken| == NewAt(script, n, |desired|)
    && entries == taken + before[OldAt(script, n, |before|)..]
  }

  lemma {:induction false} AtStart(script: seq<Edit>, before: seq<Entry>, desired: seq<Loro>, first: nat)
    requires IsScript(script, Values(before), desired)
    ensures Stands(script, 0, before, desired, [], before) && Written(script, 0, before, desired, first, [], first)
  {
  }

  /** An edit made where the taken entries end takes its run. */
  lemma {:induction false} RunTaken(script: seq<Edit>, n: nat, before: seq<Entry>, desired: seq<Loro>, taken: seq<Entry>,
                                    entries: seq<Entry>, run: seq<Entry>)
    requires n < |script| && Stands(script, n, before, desired, taken, entries)
    requires Fits(script, n, Values(before), desired) && |run| == NewLen(script[n])
    ensures var i, len := script[n].oldIndex, OldLen(script[n]);
            && |taken| + len <= |entries| && entries[|taken|..|taken| + len] == before[i..i + len]
            && Stands(script, n + 1, before, desired, taken + run, entries[..|taken|] + run + entries[|taken| + len..])
  {
    var i, len := script[n].oldIndex, OldLen(script[n]);
    assert entries[..|taken|] == taken && entries[|taken| + len..] == before[i + len..];
  }

  // ---------------------------------------------------------------- what a part of a script has done

  /** The entry is a new one, or an original one of an equal run. */
  ghost predicate Known(entry: Entry, script: seq<Edit>, n: nat, before: seq<Entry>, first: nat)
    requires n <= |script|
  {
    entry.id >= first || exists m: nat, t: nat :: FromRun(entry, script, m, t, n, before)
  }

  ghost predicate FromRun(entry: Entry, script: seq<Edit>, m: nat, t: nat, n: nat, before: seq<Entry>)
    requires n <= |script|
  {
    && m < n && script[m].Equal? && t < script[m].len
    && script[m].oldIndex + t < |before| && before[script[m].oldIndex + t] == entry
  }

  ghost predicate AllKnown(entries: seq<Entry>, script: seq<Edit>, n: nat, before: seq<Entry>, first: nat)
    requires n <= |script|
  {
    forall k | 0 <= k < |entries| :: Known(entries[k], script, n, before, first)
  }

  /** The values of the entries stand in the desired list from a place on. */
  ghost predicate AsDesired(entries: seq<Entry>, desired: seq<Loro>, start: nat) {
    start + |entries| <= |desired| && Values(entries) == desired[start..start + |entries|]
  }

  ghost predicate RunsKept(script: seq<Edit>, n: nat, before: seq<Entry>, taken: seq<Entry>)
    requires n <= |script|
  {
    forall m | 0 <= m < n && script[m].Equal? :: KeepsRun(script[m], before, taken)
  }

  /** What the entries taken by the first `n` edits are. */
  ghost predicate Written(script: seq<Edit>, n: nat, before: seq<Entry>, desired: seq<Loro>, first: nat, taken: seq<Entry>, nextId: nat) {
    && n <= |script| && first <= nextId
    && AsDesired(taken, desired, 0) && AllKnown(taken, script, n, before, first)
    && RunsKept(script, n, before, taken) && Distinct(taken, nextId)
  }

  lemma {:induction false} RunAsDesired(edit: Edit, before: seq<Entry>, desired: seq<Loro>, nextId: nat)
    requires edit.oldIndex + OldLen(edit) <= |before| && edit.newIndex + NewLen(edit) <= |desired|
    requires edit.Equal? ==> Values(before)[edit.oldIndex..edit.oldIndex + edit.len] == desired[edit.newIndex..edit.newIndex + edit.len]
    ensures var run := EditRun(edit, before[edit.oldIndex..edit.oldIndex + OldLen(edit)], desired, nextId);
            |run| == NewLen(edit) && AsDesired(run, desired, edit.newIndex)
  {
    if edit.Equal? {
      assert Values(before[edit.oldIndex..edit.oldIndex + edit.len]) == Values(before)[edit.oldIndex..edit.oldIndex + edit.len];
    }
  }

  lemma {:induction false} JoinedAsDesired(taken: seq<Entry>, run: seq<Entry>, desired: seq<Loro>)
    requires AsDesired(taken, desired, 0) && AsDesired(run, desired, |taken|)
    ensures AsDesired(taken + run, desired, 0)
  {
    assert Values(taken + run) == Values(taken) + Values(run);
    assert desired[0..|taken|] + desired[|taken|..|taken| + |run|] == desired[0..|taken| + |run|];
  }

  /** What edit `n` puts in its place. */
  ghost function RunOf(script: seq<Edit>, n: nat, before: seq<Entry>, desired: seq<Loro>, nextId: nat): seq<Entry>
    requires n < |script| && Fits(script, n, Values(before), desired)
  {
    EditRun(script[n], before[script[n].oldIndex..script[n].oldIndex + OldLen(script[n])], desired, nextId)
  }

  lemma {:induction false} RunWritten(script: seq<Edit>, n: nat, before: seq<Entry>, desired: seq<Loro>, first: nat, taken: seq<Entry>, nextId: nat)
    requires n < |script| && IsScript(script, Values(before), desired) && Distinct(before, first)
    requires Written(script, n, before, desired, first, taken, nextId) && |taken| == script[n].newIndex
    ensures Fits(script, n, Values(before), desired) && |RunOf(script, n, before, desired, nextId)| == NewLen(script[n])
    ensures Written(script, n + 1, before, desired, first, taken + RunOf(script, n, before, desired, nextId), NextId(script[n], nextId))
  {
    assert Fits(script, n, Values(before), desired);
    var run := RunOf(script, n, before, desired, nextId);
    RunAsDesired(script[n], before, desired, nextId);
    JoinedAsDesired(taken, run, desired);
    RunKnown(script, n, before, desired, first, nextId);
    JoinedKnown(script, n, before, first, taken, run);
    RunApart(script, n, before, desired, first, taken, nextId);
    JoinedDistinct(taken, run, nextId, NextId(script[n], nextId));
    JoinedRuns(script, n, before, taken, run);
  }

  lemma {:induction false} JoinedKnown(script: seq<Edit>, n: nat, before: seq<Entry>, first: nat, taken: seq<Entry>, run: seq<Entry>)
    requires n < |script| && AllKnown(taken, script, n, before, first) && AllKnown(run, script, n + 1, before, first)
    ensures AllKnown(taken + run, script, n + 1, before, first)
  {
    forall k | 0 <= k < |taken| ensures Known(taken[k], script, n + 1, before, first) {
      LaterKnown(taken[k], script, n, before, first);
    }
  }

  lemma {:induction false} RunApart(script: seq<Edit>, n: nat, before: seq<Entry>, desired: seq<Loro>, first: nat, taken: seq<Entry>, nextId: nat)
    requires n < |script| && IsScript(script, Values(before), desired) && Distinct(before, first) && first <= nextId
    requires AllKnown(taken, script, n, before, first) && Distinct(taken, nextId) && Fits(script, n, Values(before), desired)
    ensures forall k | 0 <= k < |taken| :: forall h | 0 <= h < |RunOf(script, n, before, desired, nextId)| ::
              RunOf(script, n, before, desired, nextId)[h].id != taken[k].id
  {
    forall k | 0 <= k < |taken|
      ensures forall h | 0 <= h < |RunOf(script, n, before, desired, nextId)| ::
                RunOf(script, n, before, desired, nextId)[h].id != taken[k].id
    {
      ApartFromRun(script, n, before, desired, first, taken[k], nextId);
    }
  }

  lemma {:induction false} JoinedRuns(script: seq<Edit>, n: nat, before: seq<Entry>, taken: seq<Entry>, run: seq<Entry>)
    requires n < |script| && RunsKept(script, n, before, taken) && script[n].newIndex == |taken|
    requires script[n].Equal? ==> script[n].oldIndex + script[n].len <= |before|
                                  && run == before[script[n].oldIndex..script[n].oldIndex + script[n].len]
    ensures RunsKept(script, n + 1, before, taken + run)
  {
    forall m | 0 <= m < n && script[m].Equal? ensures KeepsRun(script[m], before, taken + run) {
      KeepsLonger(script[m], before, taken, run);
    }
    assert (taken + run)[|taken|..|taken| + |run|] == run;
  }

  lemma {:induction false} KeepsLonger(edit: Edit, before: seq<Entry>, taken: seq<Entry>, run: seq<Entry>)
    requires KeepsRun(edit, before, taken)
    ensures KeepsRun(edit, before, taken + run)
  {
    assert (taken + run)[edit.newIndex..edit.newIndex + edit.len] == taken[edit.newIndex..edit.newIndex + edit.len];
  }

  lemma {:induction false} JoinedDistinct(taken: seq<Entry>, run: seq<Entry>, nextId: nat, next: nat)
    requires Distinct(taken, nextId) && nextId <= next && Distinct(run, next)
    requires forall k | 0 <= k < |taken| :: forall h | 0 <= h < |run| :: run[h].id != taken[k].id
    ensures Distinct(taken + run, next)
  {
  }

  lemma {:induction false} RunKnown(script: seq<Edit>, n: nat, before: seq<Entry>, desired: seq<Loro>, first: nat, nextId: nat)
    requires n < |script| && Fits(script, n, Values(before), desired) && Distinct(before, first) && first <= nextId
    ensures Distinct(RunOf(script, n, before, desired, nextId), NextId(script[n], nextId))
    ensures AllKnown(RunOf(script, n, before, desired, nextId), script, n + 1, before, first)
  {
    var edit, run := script[n], RunOf(script, n, before, desired, nextId);
    forall k | 0 <= k < |run| ensures Known(run[k], script, n + 1, before, first) {
      assert edit.Equal? ==> FromRun(run[k], script, n, k, n + 1, before);
    }
  }

  lemma {:induction false} LaterKnown(entry: Entry, script: seq<Edit>, n: nat, before: seq<Entry>, first: nat)
    requires n < |script| && Known(entry, script, n, before, first)
    ensures Known(entry, script, n + 1, before, first)
  {
    if entry.id < first {
      var m: nat, t: nat :| FromRun(entry, script, m, t, n, before);
      assert FromRun(entry, script, m, t, n + 1, before);
    }
  }

  /** A later run begins at or after the place an earlier one ends. */
  lemma {:induction false} RunsFollow(script: seq<Edit>, current: seq<Loro>, desired: seq<Loro>, m: nat, n: nat)
    requires IsScript(script, current, desired) && m < n < |script|
    ensures script[m].oldIndex + OldLen(script[m]) <= script[n].oldIndex
    decreases n
  {
    assert Fits(script, n - 1, current, desired);
    if m < n - 1 { RunsFollow(script, current, desired, m, n - 1); }
  }

  /** No entry of a run has the identity of one taken before it. */
  lemma {:induction false} ApartFromRun(script: seq<Edit>, n: nat, before: seq<Entry>, desired: seq<Loro>, first: nat, entry: Entry, nextId: nat)
    requires n < |script| && IsScript(script, Values(before), desired) && Distinct(before, first)
    requires Known(entry, script, n, before, first) && entry.id < nextId && first <= nextId
    requires Fits(script, n, Values(before), desired)
    ensures forall h | 0 <= h < |RunOf(script, n, before, desired, nextId)| ::
              RunOf(script, n, before, desired, nextId)[h].id != entry.id
  {
    if entry.id < first && script[n].Equal? {
      var m: nat, t: nat :| FromRun(entry, script, m, t, n, before);
      RunsFollow(script, Values(before), desired, m, n);
    }
  }

  lemma {:induction false} AllWritten(script: seq<Edit>, before: seq<Entry>, desired: seq<Loro>, first: nat, taken: seq<Entry>, nextId: nat,
                                      entries: seq<Entry>)
    requires Distinct(before, first) && Written(script, |script|, before, desired, first, taken, nextId)
    requires Stands(script, |script|, before, desired, taken, entries)
    ensures entries == taken && Values(taken) == desired && forall m | 0 <= m < |script| && script[m].Equal? :: KeepsRun(script[m], before, taken)
    ensures forall x | 0 <= x < |before| :: before[x] in taken <==> InEqualRun(script, x)
  {
    forall x | 0 <= x < |before| ensures before[x] in taken <==> InEqualRun(script, x) {
      KeptExactlyInEqualRuns(script, before, desired, first, taken, nextId, x);
    }
  }

  lemma {:induction false} KeptExactlyInEqualRuns(script: seq<Edit>, before: seq<Entry>, desired: seq<Loro>, first: nat, taken: seq<Entry>, nextId: nat, x: nat)
    requires Distinct(before, first) && Written(script, |script|, before, desired, first, taken, nextId) && x < |before|
    ensures before[x] in taken <==> InEqualRun(script, x)
  {
    if before[x] in taken {
      var k :| 0 <= k < |taken| && taken[k] == before[x];
      assert Known(taken[k], script, |script|, before, first);
      var m: nat, t: nat :| FromRun(taken[k], script, m, t, |script|, before);
      assert script[m].oldIndex + t == x;
    }
    if InEqualRun(script, x) {
      var m :| 0 <= m < |script| && script[m].Equal? && script[m].oldIndex <= x < script[m].oldIndex + script[m].len;
      var edit := script[m];
      assert KeepsRun(edit, before, taken);
      assert taken[edit.newIndex..edit.newIndex + edit.len][x - edit.oldIndex] == before[edit.oldIndex..edit.oldIndex + edit.len][x - edit.oldIndex];
    }
  }
}
