/**
 Documents as text, as `JSON.stringify` writes them (section 25.5.2 of ECMA-262): compact, or with
 a gap for each level. The text with a gap is the compact one laid out.
 */
module Printing {
  import opened Wrappers
  import opened OrderedObjects
  import opened Numbers
  import opened Normalization

  // ---------------------------------------------------------------- text followed by more

  function Hex(n: nat): char
    requires n < 16
  {
    if n < 10 then ('0' as int + n) as char else ('a' as int + n - 10) as char
  }

  /** A character as a string literal holds it. */
  function Escaped(c: char): string {
    if c == '"' then "\\\""
    else if c == '\\' then "\\\\"
    else if c == 8 as char then "\\b"
    else if c == 12 as char then "\\f"
    else if c == '\n' then "\\n"
    else if c == '\r' then "\\r"
    else if c == '\t' then "\\t"
    else if c < 32 as char then "\\u00" + [Hex(c as int / 16), Hex(c as int % 16)]
    else [c]
  }

  /** A string literal's characters and closing quote, followed by more. */
  function Literal(s: string, more: string): string {
    if s == "" then "\"" + more else Escaped(s[0]) + Literal(s[1..], more)
  }

  function Quoted(s: string, more: string): string { "\"" + Literal(s, more) }

  predicate Printable(value: Ordered) {
    match value
    case Num(number) => IsDecimal(number)
    case List(items) => forall i | 0 <= i < |items| :: Printable(items[i])
    case Object(entries) => forall i | 0 <= i < |entries| :: Printable(entries[i].value)
    case _ => true
  }

  /** A line break and the level's indentation, if there is a gap. */
  function Break(gap: Option<string>, indent: string, more: string): string {
    if gap.Some? then "\n" + indent + more else more
  }

  function Deeper(gap: Option<string>, indent: string): string { if gap.Some? then indent + gap.value else indent }

  /** The value's text, followed by more. */
  function Written(value: Ordered, gap: Option<string>, indent: string, more: string): string
    requires Printable(value)
    decreases value, 0
  {
    match value
    case Null => "null" + more
    case Bool(b) => (if b then "true" else "false") + more
    case Num(number) => NumberText(number) + more
    case Text(s) => Quoted(s, more)
    case List(items) =>
      if items == [] then "[]" + more
      else "[" + WrittenItems(items, gap, Deeper(gap, indent), true, Break(gap, indent, "]" + more))
    case Object(entries) =>
      if entries == [] then "{}" + more
      else "{" + WrittenEntries(entries, gap, Deeper(gap, indent), true, Break(gap, indent, "}" + more))
  }

  function WrittenItems(items: seq<Ordered>, gap: Option<string>, indent: string, first: bool, more: string): string
    requires forall i | 0 <= i < |items| :: Printable(items[i])
    decreases items, 1
  {
    if items == [] then more
    else (if first then "" else ",")
         + Break(gap, indent, Written(items[0], gap, indent, WrittenItems(items[1..], gap, indent, false, more)))
  }

  function WrittenEntries(entries: Entries, gap: Option<string>, indent: string, first: bool, more: string): string
    requires forall i | 0 <= i < |entries| :: Printable(entries[i].value)
    decreases entries, 1
  {
    if entries == [] then more
    else (if first then "" else ",")
         + Break(gap, indent, Quoted(entries[0].key, ":" + (if gap.Some? then " " else "")
             + Written(entries[0].value, gap, indent, WrittenEntries(entries[1..], gap, indent, false, more))))
  }

  /** `JSON.stringify` of a document, compact or with a gap. */
  function Stringified(value: Ordered, gap: Option<string>): string
    requires Printable(value)
  {
    Written(value, gap, "", "")
  }

  // ---------------------------------------------------------------- how the texts go on

  /** A list's text up to its first item. */
  lemma {:induction false} ItemsBegun(items: seq<Ordered>, gap: Option<string>, indent: string, first: bool, close: string)
    requires Printable(List(items)) && items != []
    ensures var text := Break(gap, indent, Written(items[0], gap, indent, WrittenItems(items[1..], gap, indent, false, close)));
            WrittenItems(items, gap, indent, first, close) == if first then text else "," + text
  {
    var text := Break(gap, indent, Written(items[0], gap, indent, WrittenItems(items[1..], gap, indent, false, close)));
    assert "" + text == text;
  }

  /** And from the comma behind that one. */
  lemma {:induction false} ItemsGoOn(items: seq<Ordered>, gap: Option<string>, indent: string, close: string)
    requires Printable(List(items)) && items != []
    ensures WrittenItems(items, gap, indent, false, close) == "," + WrittenItems(items, gap, indent, true, close)
  {
    ItemsBegun(items, gap, indent, true, close);
    ItemsBegun(items, gap, indent, false, close);
  }

  /** An object's text up to its first value. */
  lemma {:induction false} EntriesBegun(entries: Entries, gap: Option<string>, indent: string, first: bool, close: string)
    requires Printable(Object(entries)) && entries != []
    ensures var value := Written(entries[0].value, gap, indent, WrittenEntries(entries[1..], gap, indent, false, close));
            var text := Break(gap, indent, Quoted(entries[0].key, ":" + ((if gap.Some? then " " else "") + value)));
            WrittenEntries(entries, gap, indent, first, close) == if first then text else "," + text
  {
    var space, value := if gap.Some? then " " else "", Written(entries[0].value, gap, indent, WrittenEntries(entries[1..], gap, indent, false, close));
    assert ":" + space + value == ":" + (space + value);
    var text := Break(gap, indent, Quoted(entries[0].key, ":" + (space + value)));
    assert "" + text == text;
  }

  lemma {:induction false} EntriesGoOn(entries: Entries, gap: Option<string>, indent: string, close: string)
    requires Printable(Object(entries)) && entries != []
    ensures WrittenEntries(entries, gap, indent, false, close) == "," + WrittenEntries(entries, gap, indent, true, close)
  {
    EntriesBegun(entries, gap, indent, true, close);
    EntriesBegun(entries, gap, indent, false, close);
  }

  /** The texts of the items and members at a place and behind it. */
  lemma {:induction false} ItemsFrom(items: seq<Ordered>, at: nat, gap: Option<string>, indent: string, close: string)
    requires Printable(List(items)) && at < |items|
    ensures WrittenItems(items[at..], gap, indent, at == 0, close)
         == (if at == 0 then "" else ",")
            + Break(gap, indent, Written(items[at], gap, indent, WrittenItems(items[at + 1..], gap, indent, false, close)))
  {
    var text := Break(gap, indent, Written(items[at], gap, indent, WrittenItems(items[at + 1..], gap, indent, false, close)));
    assert items[at..][0] == items[at] && items[at..][1..] == items[at + 1..];
    ItemsBegun(items[at..], gap, indent, at == 0, close);
    assert "" + text == text;
  }

  lemma {:induction false} EntriesFrom(entries: Entries, at: nat, gap: Option<string>, indent: string, close: string)
    requires Printable(Object(entries)) && at < |entries|
    ensures WrittenEntries(entries[at..], gap, indent, at == 0, close)
         == (if at == 0 then "" else ",")
            + Break(gap, indent, Quoted(entries[at].key, ":" + ((if gap.Some? then " " else "")
                + Written(entries[at].value, gap, indent, WrittenEntries(entries[at + 1..], gap, indent, false, close)))))
  {
    var value := Written(entries[at].value, gap, indent, WrittenEntries(entries[at + 1..], gap, indent, false, close));
    var text := Break(gap, indent, Quoted(entries[at].key, ":" + ((if gap.Some? then " " else "") + value)));
    assert entries[at..][0] == entries[at] && entries[at..][1..] == entries[at + 1..];
    EntriesBegun(entries[at..], gap, indent, at == 0, close);
    assert "" + text == text;
  }

  // ---------------------------------------------------------------- writing to a buffer

  /** Text written piece by piece. `more` is what is still to be written after a piece: with it the
      text is what it was with the piece and `more` to come. */
  class Output {
    var text: string

    constructor ()
      ensures text == ""
    {
      text := "";
    }

    method Push(piece: string, ghost more: string)
      modifies this
      ensures text + more == old(text) + (piece + more)
    {
      text := text + piece;
    }

    method PushString(s: string, ghost more: string)
      modifies this
      ensures text + more == old(text) + Quoted(s, more)
    {
      Push("\"", Literal(s, more));
      var at := 0;
      assert s[0..] == s;
      while at < |s|
        invariant at <= |s| && text + Literal(s[at..], more) == old(text) + Quoted(s, more)
      {
        assert s[at..][0] == s[at] && s[at..][1..] == s[at + 1..];
        Push(Escaped(s[at]), Literal(s[at + 1..], more));
        at := at + 1;
      }
      assert s[|s|..] == "";
      Push("\"", more);
    }

    method PushBreak(gap: Option<string>, indent: string, ghost more: string)
      modifies this
      ensures text + more == old(text) + Break(gap, indent, more)
    {
      if gap.Some? {
        Push("\n", indent + more);
        Push(indent, more);
        assert "\n" + (indent + more) == "\n" + indent + more;
      }
    }

    method PushValue(value: Ordered, gap: Option<string>, indent: string, ghost more: string)
      requires Printable(value)
      modifies this
      ensures text + more == old(text) + Written(value, gap, indent, more)
      decreases value, 0
    {
      match value {
        case Null => Push("null", more);
        case Bool(b) => Push(if b then "true" else "false", more);
        case Num(number) => Push(NumberText(number), more);
        case Text(s) => PushString(s, more);
        case List(items) =>
          if items == [] {
            Push("[]", more);
          } else {
            ghost var close := Break(gap, indent, "]" + more);
            Push("[", WrittenItems(items, gap, Deeper(gap, indent), true, close));
            PushItems(items, gap, Deeper(gap, indent), close);
            PushBreak(gap, indent, "]" + more);
            Push("]", more);
          }
        case Object(entries) =>
          if entries == [] {
            Push("{}", more);
          } else {
            ghost var close := Break(gap, indent, "}" + more);
            Push("{", WrittenEntries(entries, gap, Deeper(gap, indent), true, close));
            PushEntries(entries, gap, Deeper(gap, indent), close);
            PushBreak(gap, indent, "}" + more);
            Push("}", more);
          }
      }
    }

    /** An item with the comma and the line ahead of it. */
    method PushItem(items: seq<Ordered>, at: nat, gap: Option<string>, indent: string, ghost more: string)
      requires at < |items| && Printable(List(items))
      modifies this
      ensures text + WrittenItems(items[at + 1..], gap, indent, false, more)
           == old(text) + WrittenItems(items[at..], gap, indent, at == 0, more)
      decreases items, 1
    {
      ghost var rest := WrittenItems(items[at + 1..], gap, indent, false, more);
      ghost var value := Written(items[at], gap, indent, rest);
      ItemsFrom(items, at, gap, indent, more);
      Push(if at == 0 then "" else ",", Break(gap, indent, value));
      PushBreak(gap, indent, value);
      PushValue(items[at], gap, indent, rest);
    }

    method PushItems(items: seq<Ordered>, gap: Option<string>, indent: string, ghost more: string)
      requires Printable(List(items))
      modifies this
      ensures text + more == old(text) + WrittenItems(items, gap, indent, true, more)
      decreases items, 2
    {
      assert items[0..] == items;
      for at := 0 to |items|
        invariant text + WrittenItems(items[at..], gap, indent, at == 0, more) == old(text) + WrittenItems(items, gap, indent, true, more)
      {
        PushItem(items, at, gap, indent, more);
      }
      assert items[|items|..] == [];
    }

    method PushMember(entry: Entry<Ordered>, gap: Option<string>, indent: string, ghost more: string)
      requires Printable(entry.value)
      modifies this
      ensures text + more == old(text) + Quoted(entry.key, ":" + ((if gap.Some? then " " else "") + Written(entry.value, gap, indent, more)))
      decreases entry.value, 2
    {
      var space := if gap.Some? then " " else "";
      ghost var value := Written(entry.value, gap, indent, more);
      PushString(entry.key, ":" + (space + value));
      Push(":", space + value);
      Push(space, value);
      PushValue(entry.value, gap, indent, more);
    }

    method PushEntry(entries: Entries, at: nat, gap: Option<string>, indent: string, ghost more: string)
      requires at < |entries| && Printable(Object(entries))
      modifies this
      ensures text + WrittenEntries(entries[at + 1..], gap, indent, false, more)
           == old(text) + WrittenEntries(entries[at..], gap, indent, at == 0, more)
      decreases entries, 1
    {
      ghost var rest := WrittenEntries(entries[at + 1..], gap, indent, false, more);
      ghost var member := Quoted(entries[at].key, ":" + ((if gap.Some? then " " else "") + Written(entries[at].value, gap, indent, rest)));
      EntriesFrom(entries, at, gap, indent, more);
      Push(if at == 0 then "" else ",", Break(gap, indent, member));
      PushBreak(gap, indent, member);
      PushMember(entries[at], gap, indent, rest);
    }

    method PushEntries(entries: Entries, gap: Option<string>, indent: string, ghost more: string)
      requires Printable(Object(entries))
      modifies this
      ensures text + more == old(text) + WrittenEntries(entries, gap, indent, true, more)
      decreases entries, 2
    {
      assert entries[0..] == entries;
      for at := 0 to |entries|
        invariant text + WrittenEntries(entries[at..], gap, indent, at == 0, more) == old(text) + WrittenEntries(entries, gap, indent, true, more)
      {
        PushEntry(entries, at, gap, indent, more);
      }
      assert entries[|entries|..] == [];
    }
  }

  /** A document written to a buffer of its own. */
  method Stringify(value: Ordered, gap: Option<string>) returns (text: string)
    requires Printable(value)
    ensures text == Stringified(value, gap)
  {
    var output := new Output();
    output.PushValue(value, gap, "", "");
    text := output.text;
    assert text + "" == text && "" + Stringified(value, gap) == Stringified(value, gap);
  }

  // ---------------------------------------------------------------- numbers

  predicate IsNumberChar(c: char) { IsDigit(c) || c in {'-', '+', '.', 'e'} }

  predicate NumberChars(s: string) { forall i | 0 <= i < |s| :: IsNumberChar(s[i]) }

  lemma {:induction false} Joined(a: string, b: string)
    requires NumberChars(a) && NumberChars(b)
    ensures NumberChars(a + b)
  {
  }

  lemma {:induction false} ExponentChars(e: int)
    ensures NumberChars(Exponent(e))
  {
    NatTextIsNumber(if e >= 0 then e else -e);
  }

  lemma {:induction false} SpeltChars(digits: string, n: int)
    requires digits != "" && AllDigits(digits)
    ensures NumberChars(Spelt(digits, n))
  {
    var k := |digits|;
    if k <= n <= 21 {
      ZerosAre(n - k);
      Joined(digits, Zeros(n - k));
    } else if 0 < n <= 21 {
      Joined(digits[..n], ".");
      Joined(digits[..n] + ".", digits[n..]);
    } else if -6 < n <= 0 {
      ZerosAre(-n);
      Joined("0.", Zeros(-n));
      Joined("0." + Zeros(-n), digits);
    } else {
      ExponentChars(n - 1);
      Joined(digits, Exponent(n - 1));
      Joined(digits[..1], ".");
      Joined(digits[..1] + ".", digits[1..]);
      Joined(digits[..1] + "." + digits[1..], Exponent(n - 1));
    }
  }

  lemma {:induction false} NumberTextChars(d: Decimal)
    requires IsDecimal(d)
    ensures NumberChars(NumberText(d))
  {
    if d.Decimal? { SpeltChars(d.digits, d.n); }
  }

  /** What a document's text begins with. */
  predicate Begins(value: Ordered, c: char) {
    match value
    case Null => c == 'n'
    case Bool(b) => c == if b then 't' else 'f'
    case Num(_) => IsDigit(c) || c == '-'
    case Text(_) => c == '"'
    case List(_) => c == '['
    case Object(_) => c == '{'
  }

  lemma {:induction false} WrittenBegins(value: Ordered, gap: Option<string>, indent: string, more: string)
    requires Printable(value)
    ensures Written(value, gap, indent, more) != "" && Begins(value, Written(value, gap, indent, more)[0])
  {
    if value.Num? { SignIsSeen(value.number); }
  }

  // ---------------------------------------------------------------- white space

  /** Whether a text's reader is outside a string, inside one, or behind a backslash in one. */
  datatype Place = Outside | Inside | Behind

  predicate IsSpace(c: char) { c in {' ', '\t', '\n', '\r'} }

  /** A text without the white space outside its strings. */
  function Squeezed(text: string, place: Place): string {
    if text == "" then ""
    else match place
      case Outside =>
        if IsSpace(text[0]) then Squeezed(text[1..], Outside)
        else [text[0]] + Squeezed(text[1..], if text[0] == '"' then Inside else Outside)
      case Inside =>
        [text[0]] + Squeezed(text[1..], if text[0] == '"' then Outside else if text[0] == '\\' then Behind else Inside)
      case Behind => [text[0]] + Squeezed(text[1..], Inside)
  }

  predicate IsBlank(s: string) { forall i | 0 <= i < |s| :: IsSpace(s[i]) }

  predicate IsMarks(s: string) { forall i | 0 <= i < |s| :: !IsSpace(s[i]) && s[i] != '"' }

  lemma {:induction false} MarksStay(s: string, more: string)
    requires IsMarks(s)
    ensures Squeezed(s + more, Outside) == s + Squeezed(more, Outside)
    decreases |s|
  {
    if s == "" {
      assert s + more == more;
    } else {
      assert (s + more)[0] == s[0] && (s + more)[1..] == s[1..] + more;
      MarksStay(s[1..], more);
      assert s == [s[0]] + s[1..];
    }
  }

  lemma {:induction false} BlanksGo(s: string, more: string)
    requires IsBlank(s)
    ensures Squeezed(s + more, Outside) == Squeezed(more, Outside)
    decreases |s|
  {
    if s == "" {
      assert s + more == more;
    } else {
      assert (s + more)[0] == s[0] && (s + more)[1..] == s[1..] + more;
      BlanksGo(s[1..], more);
    }
  }

  lemma {:induction false} EscapedStays(c: char, more: string)
    ensures Squeezed(Escaped(c) + more, Inside) == Escaped(c) + Squeezed(more, Inside)
  {
    var e, text := Escaped(c), Escaped(c) + more;
    if |e| == 1 {
      assert text[1..] == more;
    } else if |e| == 2 {
      assert text[1..][1..] == more && text[1..][0] == e[1];
      assert e == [e[0]] + [e[1]];
    } else {
      PlainStays(e[2..], more);
      assert text[1..][1..] == e[2..] + more && text[1..][0] == e[1];
      assert e == [e[0]] + [e[1]] + e[2..];
    }
  }

  lemma {:induction false} PlainStays(s: string, more: string)
    requires forall i | 0 <= i < |s| :: s[i] != '"' && s[i] != '\\'
    ensures Squeezed(s + more, Inside) == s + Squeezed(more, Inside)
    decreases |s|
  {
    if s == "" {
      assert s + more == more;
    } else {
      assert (s + more)[0] == s[0] && (s + more)[1..] == s[1..] + more;
      PlainStays(s[1..], more);
      assert s == [s[0]] + s[1..];
    }
  }

  lemma {:induction false} LiteralStays(s: string, more: string)
    ensures Squeezed(Literal(s, more), Inside) == Literal(s, Squeezed(more, Outside))
    decreases |s|
  {
    if s == "" {
      assert ("\"" + more)[1..] == more;
    } else {
      EscapedStays(s[0], Literal(s[1..], more));
      LiteralStays(s[1..], more);
    }
  }

  /** White space in a string stays. */
  lemma {:induction false} QuotedStays(s: string, more: string)
    ensures Squeezed(Quoted(s, more), Outside) == Quoted(s, Squeezed(more, Outside))
  {
    assert Quoted(s, more)[1..] == Literal(s, more);
    LiteralStays(s, more);
  }

  lemma {:induction false} BreakGoes(gap: Option<string>, indent: string, more: string)
    requires IsBlank(indent)
    ensures Squeezed(Break(gap, indent, more), Outside) == Squeezed(more, Outside)
  {
    if gap.Some? {
      BlanksGo("\n" + indent, more);
      assert "\n" + indent + more == ("\n" + indent) + more;
    }
  }

  predicate IsGap(gap: Option<string>) { gap.Some? ==> IsBlank(gap.value) }

  /** Without its white space outside strings, a document's text is its compact text. */
  lemma {:induction false} SqueezedIsCompact(value: Ordered, gap: Option<string>, indent: string, more: string)
    requires Printable(value) && IsGap(gap) && IsBlank(indent)
    ensures Squeezed(Written(value, gap, indent, more), Outside) == Written(value, None, "", Squeezed(more, Outside))
    decreases value, 0
  {
    match value
    case Null => MarksStay("null", more);
    case Bool(b) => MarksStay(if b then "true" else "false", more);
    case Num(number) =>
      NumberTextChars(number);
      MarksStay(NumberText(number), more);
    case Text(s) => QuotedStays(s, more);
    case List(items) =>
      if items == [] {
        MarksStay("[]", more);
      } else {
        var inner, close := Deeper(gap, indent), Break(gap, indent, "]" + more);
        MarksStay("[", WrittenItems(items, gap, inner, true, close));
        SqueezedItems(items, gap, inner, true, close);
        BreakGoes(gap, indent, "]" + more);
        MarksStay("]", more);
      }
    case Object(entries) =>
      if entries == [] {
        MarksStay("{}", more);
      } else {
        var inner, close := Deeper(gap, indent), Break(gap, indent, "}" + more);
        MarksStay("{", WrittenEntries(entries, gap, inner, true, close));
        SqueezedEntries(entries, gap, inner, true, close);
        BreakGoes(gap, indent, "}" + more);
        MarksStay("}", more);
      }
  }

  lemma {:induction false} SqueezedItems(items: seq<Ordered>, gap: Option<string>, indent: string, first: bool, more: string)
    requires Printable(List(items)) && IsGap(gap) && IsBlank(indent)
    ensures Squeezed(WrittenItems(items, gap, indent, first, more), Outside)
         == WrittenItems(items, None, "", first, Squeezed(more, Outside))
    decreases items, 1
  {
    if items != [] {
      var rest := WrittenItems(items[1..], gap, indent, false, more);
      var text := Written(items[0], gap, indent, rest);
      MarksStay(if first then "" else ",", Break(gap, indent, text));
      BreakGoes(gap, indent, text);
      SqueezedIsCompact(items[0], gap, indent, rest);
      SqueezedItems(items[1..], gap, indent, false, more);
    }
  }

  lemma {:induction false} SqueezedEntries(entries: Entries, gap: Option<string>, indent: string, first: bool, more: string)
    requires Printable(Object(entries)) && IsGap(gap) && IsBlank(indent)
    ensures Squeezed(WrittenEntries(entries, gap, indent, first, more), Outside)
         == WrittenEntries(entries, None, "", first, Squeezed(more, Outside))
    decreases entries, 1
  {
    if entries != [] {
      var key, rest, space := entries[0].key, WrittenEntries(entries[1..], gap, indent, false, more), if gap.Some? then " " else "";
      var value := Written(entries[0].value, gap, indent, rest);
      SqueezedIsCompact(entries[0].value, gap, indent, rest);
      SqueezedEntries(entries[1..], gap, indent, false, more);
      EntriesBegun(entries, gap, indent, first, more);
      EntriesBegun(entries, None, "", first, Squeezed(more, Outside));
      SqueezedEntry(key, space, value, gap, indent);
      MarksStay(",", Break(gap, indent, Quoted(key, ":" + (space + value))));
    }
  }

  /** One entry loses the white space around its value's text. */
  lemma {:induction false} SqueezedEntry(key: string, space: string, value: string, gap: Option<string>, indent: string)
    requires IsBlank(space) && IsBlank(indent)
    ensures Squeezed(Break(gap, indent, Quoted(key, ":" + (space + value))), Outside) == Quoted(key, ":" + ("" + Squeezed(value, Outside)))
  {
    BreakGoes(gap, indent, Quoted(key, ":" + (space + value)));
    QuotedStays(key, ":" + (space + value));
    MarksStay(":", space + value);
    BlanksGo(space, value);
    assert "" + Squeezed(value, Outside) == Squeezed(value, Outside);
  }

  // ---------------------------------------------------------------- the layout

  /** A gap for each level. */
  function Levels(gap: string, depth: nat): string { if depth == 0 then "" else Levels(gap, depth - 1) + gap }

  function NewLine(gap: string, depth: nat): string { "\n" + Levels(gap, depth) }

  predicate IsOpening(c: char) { c == '[' || c == '{' }

  predicate IsClosing(c: char) { c == ']' || c == '}' }

  /** A compact text laid out: outside strings, a line for each item and member at its depth, their
      closing brackets on lines of their own, empty brackets left together, and a space behind each colon. */
  function Laid(text: string, gap: string, depth: nat, place: Place): string
    decreases |text|
  {
    if text == "" then ""
    else
      var c, rest := text[0], text[1..];
      match place
      case Behind => [c] + Laid(rest, gap, depth, Inside)
      case Inside => [c] + Laid(rest, gap, depth, if c == '"' then Outside else if c == '\\' then Behind else Inside)
      case Outside =>
        if c == '"' then [c] + Laid(rest, gap, depth, Inside)
        else if IsOpening(c) && rest != "" && IsClosing(rest[0]) then [c, rest[0]] + Laid(rest[1..], gap, depth, Outside)
        else if IsOpening(c) then [c] + NewLine(gap, depth + 1) + Laid(rest, gap, depth + 1, Outside)
        else if IsClosing(c) && depth > 0 then NewLine(gap, depth - 1) + [c] + Laid(rest, gap, depth - 1, Outside)
        else if c == ',' then [c] + NewLine(gap, depth) + Laid(rest, gap, depth, Outside)
        else if c == ':' then [c] + " " + Laid(rest, gap, depth, Outside)
        else [c] + Laid(rest, gap, depth, Outside)
  }

  predicate IsPlain(s: string) { forall i | 0 <= i < |s| :: s[i] !in {'"', '[', ']', '{', '}', ',', ':'} }

  lemma {:induction false} PlainLaid(s: string, more: string, gap: string, depth: nat)
    requires IsPlain(s)
    ensures Laid(s + more, gap, depth, Outside) == s + Laid(more, gap, depth, Outside)
    decreases |s|
  {
    if s == "" {
      assert s + more == more;
    } else {
      assert (s + more)[0] == s[0] && (s + more)[1..] == s[1..] + more;
      PlainLaid(s[1..], more, gap, depth);
      assert s == [s[0]] + s[1..];
    }
  }

  lemma {:induction false} InsideLaid(s: string, more: string, gap: string, depth: nat)
    requires forall i | 0 <= i < |s| :: s[i] != '"' && s[i] != '\\'
    ensures Laid(s + more, gap, depth, Inside) == s + Laid(more, gap, depth, Inside)
    decreases |s|
  {
    if s == "" {
      assert s + more == more;
    } else {
      assert (s + more)[0] == s[0] && (s + more)[1..] == s[1..] + more;
      InsideLaid(s[1..], more, gap, depth);
      assert s == [s[0]] + s[1..];
    }
  }

  lemma {:induction false} BehindLaid(c: char, more: string, gap: string, depth: nat)
    ensures Laid(['\\', c] + more, gap, depth, Inside) == ['\\', c] + Laid(more, gap, depth, Inside)
  {
    var text := ['\\', c] + more;
    assert text[1..] == [c] + more && ([c] + more)[1..] == more;
    assert ['\\', c] == ['\\'] + [c];
  }

  lemma {:induction false} EscapedLaid(c: char, more: string, gap: string, depth: nat)
    ensures Laid(Escaped(c) + more, gap, depth, Inside) == Escaped(c) + Laid(more, gap, depth, Inside)
  {
    var e := Escaped(c);
    if |e| == 1 {
      assert (e + more)[1..] == more;
    } else {
      var rest := e[2..];
      InsideLaid(rest, more, gap, depth);
      BehindLaid(e[1], rest + more, gap, depth);
      assert e == ['\\', e[1]] + rest && e + more == ['\\', e[1]] + (rest + more);
    }
  }

  lemma {:induction false} LiteralLaid(s: string, more: string, gap: string, depth: nat)
    ensures Laid(Literal(s, more), gap, depth, Inside) == Literal(s, Laid(more, gap, depth, Outside))
    decreases |s|
  {
    if s == "" {
      assert ("\"" + more)[1..] == more;
    } else {
      EscapedLaid(s[0], Literal(s[1..], more), gap, depth);
      LiteralLaid(s[1..], more, gap, depth);
    }
  }

  /** Strings stay as they are. */
  lemma {:induction false} QuotedLaid(s: string, more: string, gap: string, depth: nat)
    ensures Laid(Quoted(s, more), gap, depth, Outside) == Quoted(s, Laid(more, gap, depth, Outside))
  {
    assert Quoted(s, more)[1..] == Literal(s, more);
    LiteralLaid(s, more, gap, depth);
  }

  lemma {:induction false} EmptyLaid(more: string, gap: string, depth: nat)
    ensures Laid("[]" + more, gap, depth, Outside) == "[]" + Laid(more, gap, depth, Outside)
    ensures Laid("{}" + more, gap, depth, Outside) == "{}" + Laid(more, gap, depth, Outside)
  {
    assert ("[]" + more)[1..] == "]" + more && ("]" + more)[1..] == more;
    assert ("{}" + more)[1..] == "}" + more && ("}" + more)[1..] == more;
  }

  lemma {:induction false} OpeningLaid(open: char, text: string, gap: string, depth: nat)
    requires IsOpening(open) && text != "" && !IsClosing(text[0])
    ensures Laid([open] + text, gap, depth, Outside) == [open] + (NewLine(gap, depth + 1) + Laid(text, gap, depth + 1, Outside))
  {
    assert ([open] + text)[1..] == text;
    var line, rest := NewLine(gap, depth + 1), Laid(text, gap, depth + 1, Outside);
    assert [open] + line + rest == [open] + (line + rest);
  }

  lemma {:induction false} ClosingLaid(close: char, more: string, gap: string, depth: nat)
    requires IsClosing(close)
    ensures Laid([close] + more, gap, depth + 1, Outside)
         == Break(Some(gap), Levels(gap, depth), [close] + Laid(more, gap, depth, Outside))
  {
    assert ([close] + more)[1..] == more;
  }

  lemma {:induction false} CommaLaid(text: string, gap: string, depth: nat)
    ensures Laid("," + text, gap, depth, Outside) == "," + Break(Some(gap), Levels(gap, depth), Laid(text, gap, depth, Outside))
    ensures Laid(":" + text, gap, depth, Outside) == ":" + " " + Laid(text, gap, depth, Outside)
  {
    assert ("," + text)[1..] == text && (":" + text)[1..] == text;
  }

  /** A value's compact text laid out is its text with the gap, at its depth. */
  lemma {:induction false} WrittenLaid(value: Ordered, gap: string, depth: nat, more: string)
    requires Printable(value)
    ensures Laid(Written(value, None, "", more), gap, depth, Outside)
         == Written(value, Some(gap), Levels(gap, depth), Laid(more, gap, depth, Outside))
    decreases value, 0
  {
    match value
    case Null => PlainLaid("null", more, gap, depth);
    case Bool(b) => PlainLaid(if b then "true" else "false", more, gap, depth);
    case Num(number) =>
      NumberTextChars(number);
      PlainLaid(NumberText(number), more, gap, depth);
    case Text(s) => QuotedLaid(s, more, gap, depth);
    case List(items) => if items == [] { EmptyLaid(more, gap, depth); } else { ListLaid(items, gap, depth, more); }
    case Object(entries) => if entries == [] { EmptyLaid(more, gap, depth); } else { ObjectLaid(entries, gap, depth, more); }
  }

  lemma {:induction false} ListLaid(items: seq<Ordered>, gap: string, depth: nat, more: string)
    requires Printable(List(items)) && items != []
    ensures Laid(Written(List(items), None, "", more), gap, depth, Outside)
         == Written(List(items), Some(gap), Levels(gap, depth), Laid(more, gap, depth, Outside))
    decreases items, 4
  {
    var text := WrittenItems(items, None, "", true, "]" + more);
    WrittenBegins(items[0], None, "", WrittenItems(items[1..], None, "", false, "]" + more));
    OpeningLaid('[', text, gap, depth);
    ItemsLaid(items, gap, depth, more);
  }

  lemma {:induction false} ObjectLaid(entries: Entries, gap: string, depth: nat, more: string)
    requires Printable(Object(entries)) && entries != []
    ensures Laid(Written(Object(entries), None, "", more), gap, depth, Outside)
         == Written(Object(entries), Some(gap), Levels(gap, depth), Laid(more, gap, depth, Outside))
    decreases entries, 4
  {
    OpeningLaid('{', WrittenEntries(entries, None, "", true, "}" + more), gap, depth);
    EntriesLaid(entries, gap, depth, more);
  }

  /** Items laid out, the line of the first one begun before. */
  lemma {:induction false} ItemsLaid(items: seq<Ordered>, gap: string, depth: nat, more: string)
    requires Printable(List(items)) && items != []
    ensures NewLine(gap, depth + 1) + Laid(WrittenItems(items, None, "", true, "]" + more), gap, depth + 1, Outside)
         == WrittenItems(items, Some(gap), Levels(gap, depth + 1), true, Break(Some(gap), Levels(gap, depth), "]" + Laid(more, gap, depth, Outside)))
    decreases items, 2
  {
    ItemsBegun(items, None, "", true, "]" + more);
    ItemsBegun(items, Some(gap), Levels(gap, depth + 1), true, Break(Some(gap), Levels(gap, depth), "]" + Laid(more, gap, depth, Outside)));
    WrittenLaid(items[0], gap, depth + 1, WrittenItems(items[1..], None, "", false, "]" + more));
    OtherItemsLaid(items[1..], gap, depth, more);
  }

  lemma {:induction false} OtherItemsLaid(items: seq<Ordered>, gap: string, depth: nat, more: string)
    requires Printable(List(items))
    ensures Laid(WrittenItems(items, None, "", false, "]" + more), gap, depth + 1, Outside)
         == WrittenItems(items, Some(gap), Levels(gap, depth + 1), false, Break(Some(gap), Levels(gap, depth), "]" + Laid(more, gap, depth, Outside)))
    decreases items, 3
  {
    if items == [] {
      ClosingLaid(']', more, gap, depth);
    } else {
      ItemsGoOn(items, None, "", "]" + more);
      ItemsGoOn(items, Some(gap), Levels(gap, depth + 1), Break(Some(gap), Levels(gap, depth), "]" + Laid(more, gap, depth, Outside)));
      CommaLaid(WrittenItems(items, None, "", true, "]" + more), gap, depth + 1);
      ItemsLaid(items, gap, depth, more);
    }
  }

  lemma {:induction false} EntriesLaid(entries: Entries, gap: string, depth: nat, more: string)
    requires Printable(Object(entries)) && entries != []
    ensures NewLine(gap, depth + 1) + Laid(WrittenEntries(entries, None, "", true, "}" + more), gap, depth + 1, Outside)
         == WrittenEntries(entries, Some(gap), Levels(gap, depth + 1), true, Break(Some(gap), Levels(gap, depth), "}" + Laid(more, gap, depth, Outside)))
    decreases entries, 2
  {
    var rest := WrittenEntries(entries[1..], None, "", false, "}" + more);
    EntriesBegun(entries, None, "", true, "}" + more);
    EntriesBegun(entries, Some(gap), Levels(gap, depth + 1), true, Break(Some(gap), Levels(gap, depth), "}" + Laid(more, gap, depth, Outside)));
    MemberLaid(entries[0].key, Written(entries[0].value, None, "", rest), gap, depth + 1);
    WrittenLaid(entries[0].value, gap, depth + 1, rest);
    OtherEntriesLaid(entries[1..], gap, depth, more);
  }

  lemma {:induction false} OtherEntriesLaid(entries: Entries, gap: string, depth: nat, more: string)
    requires Printable(Object(entries))
    ensures Laid(WrittenEntries(entries, None, "", false, "}" + more), gap, depth + 1, Outside)
         == WrittenEntries(entries, Some(gap), Levels(gap, depth + 1), false, Break(Some(gap), Levels(gap, depth), "}" + Laid(more, gap, depth, Outside)))
    decreases entries, 3
  {
    if entries == [] {
      ClosingLaid('}', more, gap, depth);
    } else {
      EntriesGoOn(entries, None, "", "}" + more);
      EntriesGoOn(entries, Some(gap), Levels(gap, depth + 1), Break(Some(gap), Levels(gap, depth), "}" + Laid(more, gap, depth, Outside)));
      CommaLaid(WrittenEntries(entries, None, "", true, "}" + more), gap, depth + 1);
      EntriesLaid(entries, gap, depth, more);
    }
  }

  lemma {:induction false} MemberLaid(key: string, value: string, gap: string, depth: nat)
    ensures Laid(Quoted(key, ":" + ("" + value)), gap, depth, Outside) == Quoted(key, ":" + (" " + Laid(value, gap, depth, Outside)))
  {
    QuotedLaid(key, ":" + value, gap, depth);
    CommaLaid(value, gap, depth);
    assert "" + value == value;
    assert ":" + " " + Laid(value, gap, depth, Outside) == ":" + (" " + Laid(value, gap, depth, Outside));
  }

  /** The text with a gap is the compact text laid out, and the compact text is what is left of it
      without white space outside strings. */
  lemma {:induction false} PrettyIsLaidOut(value: Ordered, gap: string)
    requires Printable(value)
    ensures Stringified(value, Some(gap)) == Laid(Stringified(value, None), gap, 0, Outside)
    ensures IsBlank(gap) ==> Squeezed(Stringified(value, Some(gap)), Outside) == Stringified(value, None)
    ensures Squeezed(Stringified(value, None), Outside) == Stringified(value, None)
  {
    WrittenLaid(value, gap, 0, "");
    SqueezedIsCompact(value, None, "", "");
    if IsBlank(gap) { SqueezedIsCompact(value, Some(gap), "", ""); }
  }
}
