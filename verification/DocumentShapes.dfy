/** Documents made by setting values at paths: what a document of given entries looks like. */
module DocumentShapes {
  import opened Wrappers
  import opened Json

  type Path = seq<string>

  type Members = map<string, Json>

  type Entries = map<Path, Json>

  predicate IsPrefix(p: Path, q: Path) { |p| <= |q| && q[..|p|] == p }

  /** The paths are of one document's values: none is empty, and none lies inside another. */
  ghost predicate PrefixFree(paths: set<Path>) {
    [] !in paths && forall p, q | p in paths && q in paths && p != q :: !IsPrefix(p, q)
  }

  /** What lies below a name, at the rest of its path. */
  function Below<T>(entries: map<Path, T>, name: string): map<Path, T> {
    map q | q in Rests(entries.Keys, name) && [name] + q in entries :: entries[[name] + q]
  }

  function Rests(paths: set<Path>, name: string): set<Path> {
    set p | p in paths && |p| > 1 && p[0] == name :: p[1..]
  }

  lemma {:induction false} BelowAt<T>(entries: map<Path, T>, name: string, path: Path)
    requires path != []
    ensures path in Below(entries, name) <==> [name] + path in entries
    ensures path in Below(entries, name) ==> Below(entries, name)[path] == entries[[name] + path]
  {
    assert ([name] + path)[1..] == path;
  }

  lemma {:induction false} NoneBelowIsEmpty<T>(entries: map<Path, T>, name: string)
    ensures [] !in Below(entries, name)
  {
  }

  lemma {:induction false} PrefixCons(name: string, p: Path, q: Path)
    ensures IsPrefix([name] + p, [name] + q) <==> IsPrefix(p, q)
    ensures [name] + p == [name] + q <==> p == q
  {
    assert ([name] + p)[1..] == p && ([name] + q)[1..] == q;
    if IsPrefix([name] + p, [name] + q) {
      assert ([name] + q)[..|p| + 1][1..] == q[..|p|];
    }
    if IsPrefix(p, q) {
      assert ([name] + q)[..|p| + 1] == [name] + q[..|p|];
    }
  }

  lemma {:induction false} PathIsCons(path: Path)
    requires path != []
    ensures path == [path[0]] + path[1..] && IsPrefix([path[0]], path)
  {
  }

  /** The names the paths begin with. */
  function Heads<T>(entries: map<Path, T>): set<string> { set p | p in entries && p != [] :: p[0] }

  lemma {:induction false} HeadIs<T>(entries: map<Path, T>, name: string)
    requires [] !in entries
    ensures name in Heads(entries) <==> [name] in entries || Below(entries, name) != map[]
  {
    if name in Heads(entries) {
      var p :| p in entries && p != [] && p[0] == name;
      assert p == [name] + p[1..];
      if |p| == 1 { assert p == [name]; } else { assert p[1..] in Below(entries, name); }
    }
    if Below(entries, name) != map[] {
      var q :| q in Below(entries, name);
      assert ([name] + q)[0] == name;
    }
    if [name] in entries { assert [name][0] == name; }
  }

  lemma {:induction false} PrefixFreeBelow<T>(entries: map<Path, T>, name: string)
    requires PrefixFree(entries.Keys)
    ensures PrefixFree(Below(entries, name).Keys)
    ensures [name] in entries ==> Below(entries, name) == map[]
  {
    forall p, q | p in Below(entries, name) && q in Below(entries, name) && p != q ensures !IsPrefix(p, q) {
      BelowAt(entries, name, p);
      BelowAt(entries, name, q);
      PrefixCons(name, p, q);
    }
    if [name] in entries && Below(entries, name) != map[] {
      var q :| q in Below(entries, name);
      BelowAt(entries, name, q);
      assert IsPrefix([name], [name] + q);
    }
  }

  /** The object has exactly the entries: each at its path, and objects only to lead to them. */
  ghost predicate Shape(members: Members, entries: Entries)
    decreases Obj(members), 0
  {
    && [] !in entries
    && members.Keys == Heads(entries)
    && forall name | name in members :: MemberShape(members[name], entries, name)
  }

  ghost predicate MemberShape(value: Json, entries: Entries, name: string)
    decreases value, 1
  {
    if [name] in entries then value == entries[[name]]
    else value.Obj? && Shape(value.members, Below(entries, name))
  }

  /** There is one object of given entries. */
  lemma {:induction false} ShapeIsUnique(a: Members, b: Members, entries: Entries)
    requires Shape(a, entries) && Shape(b, entries)
    ensures a == b
    decreases Obj(a)
  {
    assert a.Keys == b.Keys;
    forall name | name in a ensures a[name] == b[name] {
      assert MemberShape(a[name], entries, name) && MemberShape(b[name], entries, name);
      if [name] !in entries { ShapeIsUnique(a[name].members, b[name].members, Below(entries, name)); }
    }
  }

  // ---------------------------------------------------------------- setting a value

  /** The object under a name, or an empty one. */
  function Inner(members: Members, name: string): Members {
    if name in members && members[name].Obj? then members[name].members else map[]
  }

  /** The object with a value set at a path, making the objects that lead there; nothing if the
      path leads into a value that is none. */
  function SetAt(members: Members, path: Path, value: Json): Option<Members>
    decreases |path|
  {
    if path == [] then None
    else if |path| == 1 then Some(members[path[0] := value])
    else if path[0] in members && !members[path[0]].Obj? then None
    else
      match SetAt(Inner(members, path[0]), path[1..], value)
      case Some(set_) => Some(members[path[0] := Obj(set_)])
      case None => None
  }

  ghost predicate Apart(entries: Entries, path: Path) {
    path != [] && forall p | p in entries && p != path :: !IsPrefix(p, path) && !IsPrefix(path, p)
  }

  lemma {:induction false} ApartBelow(entries: Entries, path: Path)
    requires [] !in entries && Apart(entries, path) && |path| > 1
    ensures [path[0]] !in entries && Apart(Below(entries, path[0]), path[1..])
  {
    PathIsCons(path);
    forall q | q in Below(entries, path[0]) && q != path[1..] ensures !IsPrefix(q, path[1..]) && !IsPrefix(path[1..], q) {
      BelowAt(entries, path[0], q);
      PrefixCons(path[0], q, path[1..]);
      PrefixCons(path[0], path[1..], q);
    }
  }

  lemma {:induction false} BelowSet(entries: Entries, path: Path, value: Json, name: string)
    requires |path| > 1
    ensures Below(entries[path := value], name) ==
            if path[0] == name then Below(entries, name)[path[1..] := value] else Below(entries, name)
  {
    var now := Below(entries[path := value], name);
    var then_ := if path[0] == name then Below(entries, name)[path[1..] := value] else Below(entries, name);
    assert path == [path[0]] + path[1..];
    forall q ensures q in now <==> q in then_ ensures q in now ==> now[q] == then_[q] {
      if q != [] {
        BelowAt(entries[path := value], name, q);
        BelowAt(entries, name, q);
        assert ([name] + q)[1..] == q && ([name] + q)[0] == name;
      }
    }
  }

  lemma {:induction false} BelowSetLeaf(entries: Entries, leaf: string, value: Json, name: string)
    ensures Below(entries[[leaf] := value], name) == Below(entries, name)
  {
    var now, then_ := Below(entries[[leaf] := value], name), Below(entries, name);
    forall q ensures q in now <==> q in then_ ensures q in now ==> now[q] == then_[q] {
      if q != [] {
        BelowAt(entries[[leaf] := value], name, q);
        BelowAt(entries, name, q);
      }
    }
  }

  lemma {:induction false} HeadsSet(entries: Entries, path: Path, value: Json)
    requires path != []
    ensures Heads(entries[path := value]) == Heads(entries) + {path[0]}
  {
    var now := entries[path := value];
    assert path in now;
    forall p | p in entries && p != [] ensures p[0] in Heads(now) { assert p in now; }
  }

  /** Setting a value at a path that lies in none of the entries, nor any of them in it, adds the
      one entry. */
  lemma {:induction false} SetShapes(members: Members, entries: Entries, path: Path, value: Json)
    requires Shape(members, entries) && Apart(entries, path)
    ensures SetAt(members, path, value).Some? && Shape(SetAt(members, path, value).value, entries[path := value])
    decreases |path|, 1
  {
    if |path| == 1 { PathIsCons(path); assert path == [path[0]]; SetLeaf(members, entries, path[0], value); } else { SetInside(members, entries, path, value); }
  }

  lemma {:induction false} SetLeaf(members: Members, entries: Entries, name: string, value: Json)
    requires Shape(members, entries) && Apart(entries, [name])
    ensures Shape(members[name := value], entries[[name] := value])
  {
    var now, after := entries[[name] := value], members[name := value];
    HeadsSet(entries, [name], value);
    assert after.Keys == Heads(now);
    forall other | other in after ensures MemberShape(after[other], now, other) {
      if other != name { MemberKept(members[other], entries, [name], value, other); }
    }
  }

  /** A member keeps its shape when a value is set under another name. */
  lemma {:induction false} MemberKept(member: Json, entries: Entries, path: Path, value: Json, name: string)
    requires path != [] && path[0] != name && MemberShape(member, entries, name)
    ensures MemberShape(member, entries[path := value], name)
  {
    assert [name][0] != path[0];
    if |path| == 1 {
      assert path == [path[0]];
      BelowSetLeaf(entries, path[0], value, name);
    } else {
      BelowSet(entries, path, value, name);
    }
  }

  lemma {:induction false} SetInside(members: Members, entries: Entries, path: Path, value: Json)
    requires Shape(members, entries) && Apart(entries, path) && |path| > 1
    ensures SetAt(members, path, value).Some? && Shape(SetAt(members, path, value).value, entries[path := value])
    decreases |path|, 0
  {
    ApartBelow(entries, path);
    InnerShape(members, entries, path[0]);
    SetShapes(Inner(members, path[0]), Below(entries, path[0]), path[1..], value);
    ReplacedInside(members, entries, path, value, SetAt(Inner(members, path[0]), path[1..], value).value);
  }

  lemma {:induction false} ReplacedInside(members: Members, entries: Entries, path: Path, value: Json, within: Members)
    requires Shape(members, entries) && |path| > 1 && [path[0]] !in entries
    requires Shape(within, Below(entries, path[0])[path[1..] := value])
    ensures Shape(members[path[0] := Obj(within)], entries[path := value])
  {
    var now, head := entries[path := value], path[0];
    var after := members[head := Obj(within)];
    HeadsSet(entries, path, value);
    assert after.Keys == Heads(now);
    forall name | name in after ensures MemberShape(after[name], now, name) {
      if name == head { MemberMade(entries, path, value, within); } else { MemberKept(members[name], entries, path, value, name); }
    }
  }

  lemma {:induction false} MemberMade(entries: Entries, path: Path, value: Json, within: Members)
    requires |path| > 1 && [path[0]] !in entries && Shape(within, Below(entries, path[0])[path[1..] := value])
    ensures MemberShape(Obj(within), entries[path := value], path[0])
  {
    BelowSet(entries, path, value, path[0]);
  }

  lemma {:induction false} InnerShape(members: Members, entries: Entries, head: string)
    requires Shape(members, entries) && [head] !in entries
    ensures head in members ==> members[head].Obj?
    ensures Shape(Inner(members, head), Below(entries, head))
  {
    HeadIs(entries, head);
    if head in members { assert MemberShape(members[head], entries, head); }
    if head !in members { assert Below(entries, head) == map[]; }
  }

  /** An entry lies at or below the path. */
  ghost predicate Reaches(entries: Entries, path: Path) { exists p :: p in entries && IsPrefix(path, p) }

  ghost predicate NoneAbove(entries: Entries, path: Path) { forall p | p in entries && p != path :: !IsPrefix(p, path) }

  /** A path leads somewhere exactly when an entry lies at or below it. */
  lemma {:induction false} LeadsExactlyToEntries(members: Members, entries: Entries, path: Path)
    requires Shape(members, entries) && path != [] && NoneAbove(entries, path)
    ensures ValueAt(Obj(members), path).Some? <==> Reaches(entries, path)
    decreases |path|
  {
    var head, rest := path[0], path[1..];
    PathIsCons(path);
    HeadIs(entries, head);
    if |path| == 1 {
      ReachesName(entries, head);
    } else {
      assert [head] !in entries;
      ReachesBelow(entries, path);
      InnerShape(members, entries, head);
      if head in members { LeadsExactlyToEntries(members[head].members, Below(entries, head), rest); }
    }
  }

  /** An entry is what lies at its path. */
  lemma {:induction false} EntryIsThere(members: Members, entries: Entries, path: Path)
    requires Shape(members, entries) && path in entries && NoneAbove(entries, path)
    ensures ValueAt(Obj(members), path) == Some(entries[path])
    decreases |path|
  {
    var head, rest := path[0], path[1..];
    PathIsCons(path);
    HeadIs(entries, head);
    if |path| == 1 {
      assert path == [head] && rest == [] && MemberShape(members[head], entries, head);
    } else {
      BelowAt(entries, head, rest);
      assert [head] !in entries;
      assert IsPrefix(path, path) && Reaches(entries, path);
      ReachesBelow(entries, path);
      InnerShape(members, entries, head);
      EntryIsThere(members[head].members, Below(entries, head), rest);
    }
  }

  lemma {:induction false} ReachesName(entries: Entries, name: string)
    requires [] !in entries
    ensures Reaches(entries, [name]) <==> name in Heads(entries)
  {
    if name in Heads(entries) {
      var p :| p in entries && p != [] && p[0] == name;
      assert IsPrefix([name], p);
    }
  }

  lemma {:induction false} ReachesBelow(entries: Entries, path: Path)
    requires |path| > 1 && [] !in entries && NoneAbove(entries, path)
    ensures Reaches(entries, path) <==> Reaches(Below(entries, path[0]), path[1..])
    ensures NoneAbove(Below(entries, path[0]), path[1..])
    ensures Reaches(entries, path) ==> path[0] in Heads(entries)
  {
    var head, rest := path[0], path[1..];
    PathIsCons(path);
    forall q | q in Below(entries, head) && q != rest ensures !IsPrefix(q, rest) { PrefixCons(head, q, rest); }
    if Reaches(entries, path) {
      var p :| p in entries && IsPrefix(path, p);
      PathIsCons(p);
      PrefixCons(head, rest, p[1..]);
      BelowAt(entries, head, p[1..]);
    }
    if Reaches(Below(entries, head), rest) {
      var q :| q in Below(entries, head) && IsPrefix(rest, q);
      PrefixCons(head, rest, q);
    }
  }
}
