/**
 A reader of JSON texts as RFC 8259 describes them (sections 2 to 7), and what it makes of the texts
 the printer writes: the document they were written from.
 */
module JsonReader {
  import opened Wrappers
  import opened OrderedObjects
  import opened Numbers
  import opened Normalization
  import opened Printing

  // ---------------------------------------------------------------- strings

  /** The character a letter stands for behind a backslash (section 7 of RFC 8259). */
  function Unescaped(letter: char): Option<char> {
    if letter == '"' then Some('"')
    else if letter == '\\' then Some('\\')
    else if letter == '/' then Some('/')
    else if letter == 'b' then Some(8 as char)
    else if letter == 'f' then Some(12 as char)
    else if letter == 'n' then Some(10 as char)
    else if letter == 'r' then Some(13 as char)
    else if letter == 't' then Some(9 as char)
    else None
  }

  function HexValue(c: char): Option<nat> {
    if '0' <= c <= '9' then Some(c as int - '0' as int)
    else if 'a' <= c <= 'f' then Some(c as int - 'a' as int + 10)
    else if 'A' <= c <= 'F' then Some(c as int - 'A' as int + 10)
    else None
  }

  /** Four hexadecimal digits. */
  function FourHex(text: string): (code: Option<nat>)
    ensures code.Some? ==> code.value < 0x1_0000
  {
    if |text| < 4 then None
    else match (HexValue(text[0]), HexValue(text[1]), HexValue(text[2]), HexValue(text[3]))
      case (Some(a), Some(b), Some(c), Some(d)) => Some(a * 0x1000 + b * 0x100 + c * 0x10 + d)
      case _ => None
  }

  predicate IsSurrogate(code: nat) { 0xD800 <= code < 0xE000 }

  /** What follows a backslash: a letter, or u and the character's code. */
  function ReadEscape(text: string): (r: Option<(char, string)>)
    ensures r.Some? ==> |r.value.1| < |text|
  {
    if text == "" then None
    else if text[0] == 'u' then
      match FourHex(text[1..])
      case Some(code) => if IsSurrogate(code) then None else Some((code as char, text[5..]))
      case None => None
    else match Unescaped(text[0])
      case Some(c) => Some((c, text[1..]))
      case None => None
  }

  /** A character as it stands in a string, control characters refused, or an escaped one. */
  function ReadChar(text: string): (r: Option<(char, string)>)
    ensures r.Some? ==> |r.value.1| < |text|
  {
    if text == "" || text[0] < 32 as char || text[0] == '"' then None
    else if text[0] == '\\' then ReadEscape(text[1..])
    else Some((text[0], text[1..]))
  }

  /** A string up to its closing quote, and what follows it. */
  function ReadChars(text: string): (r: Option<(string, string)>)
    ensures r.Some? ==> |r.value.1| < |text|
    decreases |text|
  {
    if text != "" && text[0] == '"' then Some(("", text[1..]))
    else match ReadChar(text)
      case None => None
      case Some((c, rest)) =>
        match ReadChars(rest)
        case None => None
        case Some((s, more)) => Some(([c] + s, more))
  }

  // ---------------------------------------------------------------- numbers

  /** Digits with no needless zero ahead. */
  predicate IsWhole(s: string) { s != "" && AllDigits(s) && (s[0] == '0' ==> |s| == 1) }

  predicate IsPlaces(s: string) { s != "" && AllDigits(s) }

  /** Digits, with a point among them or not. */
  predicate IsMantissa(s: string) {
    IsWhole(Before(s, '.')) && (Before(s, '.') == s || IsPlaces(After(s, '.')))
  }

  predicate IsPower(s: string) { IsPlaces(if s != "" && s[0] in {'+', '-'} then s[1..] else s) }

  /** A number's text (section 6 of RFC 8259), its sign apart. */
  predicate IsMagnitude(s: string) {
    IsMantissa(Before(s, 'e')) && (Before(s, 'e') == s || IsPower(After(s, 'e')))
  }

  predicate IsNumber(s: string) { IsMagnitude(if s != "" && s[0] == '-' then s[1..] else s) }

  /** The number by its digits and the place of its point. */
  function DecimalOf(number: Scaled): Decimal {
    if number.m == 0 then Zero
    else var digits := NatText(if number.m < 0 then -number.m else number.m); Decimal(number.m < 0, digits, number.e + |digits|)
  }

  predicate InNumber(c: char) { IsNumberChar(c) || c == 'E' }

  /** How many of a number's characters a text begins with. */
  function Leading(text: string): (n: nat)
    ensures n <= |text|
  {
    if text == "" || !InNumber(text[0]) then 0 else 1 + Leading(text[1..])
  }

  function Lowered(s: string): string { seq(|s|, i requires 0 <= i < |s| => if s[i] == 'E' then 'e' else s[i]) }

  function ReadNumber(text: string): (r: Option<(Ordered, string)>)
    ensures r.Some? ==> |r.value.1| < |text|
  {
    var number := Lowered(text[..Leading(text)]);
    if number != "" && IsNumber(number) then Some((Num(DecimalOf(Denoted(number))), text[|number|..])) else None
  }

  // ---------------------------------------------------------------- documents

  /** A text from its first character that is no white space. */
  function Skipped(text: string): (rest: string)
    ensures |rest| <= |text|
  {
    if text != "" && IsSpace(text[0]) then Skipped(text[1..]) else text
  }

  predicate Starts(text: string, mark: char) { text != "" && text[0] == mark }

  predicate StartsWith(text: string, word: string) { |word| <= |text| && text[..|word|] == word }

  function ReadWord(text: string): (r: Option<(Ordered, string)>)
    ensures r.Some? ==> |r.value.1| < |text|
  {
    if StartsWith(text, "null") then Some((Null, text[4..]))
    else if StartsWith(text, "true") then Some((Bool(true), text[4..]))
    else if StartsWith(text, "false") then Some((Bool(false), text[5..]))
    else None
  }

  /** A value and what follows it. */
  function ReadValue(text: string): (r: Option<(Ordered, string)>)
    ensures r.Some? ==> |r.value.1| < |text|
    decreases |text|, 0
  {
    var text := Skipped(text);
    if text == "" then None
    else if Starts(text, '"') then
      match ReadChars(text[1..])
      case Some((s, rest)) => Some((Text(s), rest))
      case None => None
    else if Starts(text, '[') then
      if Starts(Skipped(text[1..]), ']') then Some((List([]), Skipped(text[1..])[1..]))
      else match ReadItems(text[1..])
        case Some((items, rest)) => Some((List(items), rest))
        case None => None
    else if Starts(text, '{') then
      if Starts(Skipped(text[1..]), '}') then Some((Object([]), Skipped(text[1..])[1..]))
      else match ReadEntries(text[1..])
        case Some((entries, rest)) => Some((Object(entries), rest))
        case None => None
    else if text[0] in {'n', 't', 'f'} then ReadWord(text)
    else ReadNumber(text)
  }

  /** Values with commas between them, up to the closing bracket. */
  function ReadItems(text: string): (r: Option<(seq<Ordered>, string)>)
    ensures r.Some? ==> |r.value.1| < |text|
    decreases |text|, 1
  {
    match ReadValue(text)
    case None => None
    case Some((item, behind)) =>
      var behind := Skipped(behind);
      if Starts(behind, ']') then Some(([item], behind[1..]))
      else if !Starts(behind, ',') then None
      else match ReadItems(behind[1..])
        case Some((items, rest)) => Some(([item] + items, rest))
        case None => None
  }

  /** A name with its colon, and what follows them. */
  function ReadName(text: string): (r: Option<(string, string)>)
    ensures r.Some? ==> |r.value.1| < |text|
  {
    var text := Skipped(text);
    if !Starts(text, '"') then None
    else match ReadChars(text[1..])
      case None => None
      case Some((name, behind)) =>
        var behind := Skipped(behind);
        if Starts(behind, ':') then Some((name, behind[1..])) else None
  }

  /** Members with commas between them, up to the closing brace. */
  function ReadEntries(text: string): (r: Option<(Entries, string)>)
    ensures r.Some? ==> |r.value.1| < |text|
    decreases |text|, 1
  {
    match ReadName(text)
    case None => None
    case Some((name, rest)) =>
      match ReadValue(rest)
      case None => None
      case Some((value, behind)) =>
        var behind := Skipped(behind);
        if Starts(behind, '}') then Some(([Entry(name, value)], behind[1..]))
        else if !Starts(behind, ',') then None
        else match ReadEntries(behind[1..])
          case Some((entries, rest)) => Some(([Entry(name, value)] + entries, rest))
          case None => None
  }

  /** A text that is one value and nothing more. */
  function ReadDocument(text: string): Option<Ordered> {
    match ReadValue(text)
    case Some((value, rest)) => if Skipped(rest) == "" then Some(value) else None
    case None => None
  }

  // ---------------------------------------------------------------- strings are read as they were

  /** The seven characters with an escape of two characters are written by it, the other control
      characters by their code in small hexadecimal digits, and all others as they are (section
      25.5.2.3 of ECMA-262). */
  lemma {:induction false} EscapesExactly(c: char)
    ensures Escaped(c) == ['\\', 'b'] <==> c as int == 0x08
    ensures Escaped(c) == ['\\', 't'] <==> c as int == 0x09
    ensures Escaped(c) == ['\\', 'n'] <==> c as int == 0x0A
    ensures Escaped(c) == ['\\', 'f'] <==> c as int == 0x0C
    ensures Escaped(c) == ['\\', 'r'] <==> c as int == 0x0D
    ensures Escaped(c) == ['\\', '"'] <==> c as int == 0x22
    ensures Escaped(c) == ['\\', '\\'] <==> c as int == 0x5C
    ensures |Escaped(c)| == 2 <==> c as int in {0x08, 0x09, 0x0A, 0x0C, 0x0D, 0x22, 0x5C}
    ensures |Escaped(c)| == 6 <==> c as int < 0x20 && c as int !in {0x08, 0x09, 0x0A, 0x0C, 0x0D}
    ensures |Escaped(c)| == 6 ==>
              && Escaped(c)[..2] == ['\\', 'u'] && FourHex(Escaped(c)[2..]) == Some(c as int)
              && forall i | 2 <= i < 6 :: !('A' <= Escaped(c)[i] <= 'F')
    ensures c as int >= 0x20 && c != '"' && c != '\\' ==> Escaped(c) == [c]
  {
    if |Escaped(c)| == 6 { CodeIs(c); }
  }

  lemma {:induction false} HexReads(n: nat)
    requires n < 16
    ensures HexValue(Hex(n)) == Some(n)
  {
  }

  lemma {:induction false} CodeIs(c: char)
    requires |Escaped(c)| == 6
    ensures Escaped(c)[..2] == ['\\', 'u'] && FourHex(Escaped(c)[2..]) == Some(c as int) && c as int < 0x20
  {
    var digits := Escaped(c)[2..];
    HexReads(c as int / 16);
    HexReads(c as int % 16);
    assert digits == ['0', '0', Hex(c as int / 16), Hex(c as int % 16)];
  }

  lemma {:induction false} CodeReads(c: char, more: string)
    requires |Escaped(c)| == 6
    ensures ReadEscape((Escaped(c) + more)[1..]) == Some((c, more))
  {
    CodeIs(c);
    var text := (Escaped(c) + more)[1..];
    assert text[0] == 'u' && text[1..][..4] == Escaped(c)[2..] && text[5..] == more;
    assert forall i | 0 <= i < 4 :: text[1..][i] == Escaped(c)[2..][i];
  }

  /** A character is read from its escaped form. */
  lemma {:induction false} CharReads(c: char, more: string)
    ensures ReadChar(Escaped(c) + more) == Some((c, more)) && Escaped(c) != "" && Escaped(c)[0] != '"'
  {
    var text := Escaped(c) + more;
    EscapesExactly(c);
    assert text[0] == Escaped(c)[0];
    if |Escaped(c)| == 6 {
      CodeReads(c, more);
    } else if |Escaped(c)| == 2 {
      assert text[1..] == [Escaped(c)[1]] + more && text[1..][1..] == more;
    } else {
      assert text[1..] == more;
    }
  }

  /** A string is read from its literal, and what follows is left. */
  lemma {:induction false} LiteralReads(s: string, more: string)
    ensures ReadChars(Literal(s, more)) == Some((s, more))
    decreases |s|
  {
    if s == "" {
      assert ("\"" + more)[1..] == more;
    } else {
      LiteralReads(s[1..], more);
      CharReads(s[0], Literal(s[1..], more));
      assert s == [s[0]] + s[1..];
    }
  }

  // ---------------------------------------------------------------- numbers are read as they were

  /** A number is read from what its text denotes. */
  lemma {:induction false} DecimalReads(d: Decimal)
    requires IsDecimal(d)
    ensures DecimalOf(Amount(d)) == d
  {
    if d.Decimal? {
      var value := NumberOf(d.digits);
      NumberIsPositive(d.digits);
      NatTextIsCanonical(value);
      IndexIsOne(d.digits, NatText(value));
    }
  }

  lemma {:induction false} MantissaIs(whole: string, places: string)
    requires IsWhole(whole) && IsPlaces(places)
    ensures IsMantissa(whole) && IsMantissa(whole + "." + places)
    ensures Lacks(whole, 'e') && Lacks(whole + "." + places, 'e')
  {
    NoSplit(whole, '.');
    SplitAt(whole, '.', places);
  }

  lemma {:induction false} PlainIs(mantissa: string)
    requires IsMantissa(mantissa) && Lacks(mantissa, 'e')
    ensures IsMagnitude(mantissa)
  {
    NoSplit(mantissa, 'e');
  }

  lemma {:induction false} PowerIs(e: int)
    ensures Exponent(e) == ['e'] + Exponent(e)[1..] && IsPower(Exponent(e)[1..])
  {
    var power, n := Exponent(e)[1..], if e >= 0 then e else -e;
    NatTextIsNumber(n);
    assert power[1..] == NatText(n);
  }

  lemma {:induction false} PoweredIs(mantissa: string, e: int)
    requires IsMantissa(mantissa) && Lacks(mantissa, 'e')
    ensures IsMagnitude(mantissa + Exponent(e))
  {
    var power := Exponent(e)[1..];
    PowerIs(e);
    SplitAt(mantissa, 'e', power);
    assert mantissa + Exponent(e) == mantissa + ['e'] + power;
  }

  lemma {:induction false} PaddedIs(digits: string, n: int)
    requires digits != "" && AllDigits(digits) && digits[0] != '0'
    ensures IsMagnitude(digits + Zeros(n))
  {
    ZerosAre(n);
    MantissaIs(digits + Zeros(n), "0");
    PlainIs(digits + Zeros(n));
  }

  lemma {:induction false} SmallIs(digits: string, n: int)
    requires digits != "" && AllDigits(digits)
    ensures IsMagnitude("0." + Zeros(n) + digits)
  {
    ZerosAre(n);
    MantissaIs("0", Zeros(n) + digits);
    assert "0." + Zeros(n) + digits == "0" + "." + (Zeros(n) + digits);
    PlainIs("0" + "." + (Zeros(n) + digits));
  }

  lemma {:induction false} PointedIs(whole: string, places: string)
    requires whole != "" && AllDigits(whole) && whole[0] != '0' && IsPlaces(places)
    ensures IsMagnitude(whole + "." + places)
  {
    MantissaIs(whole, places);
    PlainIs(whole + "." + places);
  }

  lemma {:induction false} ScaledIs(digits: string, e: int)
    requires digits != "" && AllDigits(digits) && digits[0] != '0'
    ensures |digits| == 1 ==> IsMagnitude(digits + Exponent(e))
    ensures |digits| > 1 ==> IsMagnitude(digits[..1] + "." + digits[1..] + Exponent(e))
  {
    if |digits| == 1 {
      MantissaIs(digits, "0");
      PoweredIs(digits, e);
    } else {
      MantissaIs(digits[..1], digits[1..]);
      PoweredIs(digits[..1] + "." + digits[1..], e);
    }
  }

  /** Each of the four forms is a number's text. */
  lemma {:induction false} SpeltIsMagnitude(digits: string, n: int)
    requires digits != "" && AllDigits(digits) && digits[0] != '0'
    ensures IsMagnitude(Spelt(digits, n))
  {
    if |digits| <= n <= 21 {
      PaddedIs(digits, n - |digits|);
    } else if 0 < n <= 21 {
      PointedIs(digits[..n], digits[n..]);
    } else if -6 < n <= 0 {
      SmallIs(digits, -n);
    } else {
      ScaledIs(digits, n - 1);
    }
  }

  lemma {:induction false} TextIsNumber(d: Decimal)
    requires IsDecimal(d)
    ensures NumberText(d) != "" && IsNumber(NumberText(d))
  {
    match d
    case Zero =>
      MantissaIs("0", "0");
      PlainIs("0");
    case Decimal(negative, digits, n) =>
      SpeltIsMagnitude(digits, n);
      SpeltStart(digits, n);
      var text := Spelt(digits, n);
      if negative { assert ("-" + text)[1..] == text; } else { assert "" + text == text; }
  }

  /** What a number's text may be followed by. */
  predicate Ends(more: string) { more == "" || !InNumber(more[0]) }

  lemma {:induction false} LeadingIs(s: string, more: string)
    requires NumberChars(s) && Ends(more)
    ensures Leading(s + more) == |s|
    decreases |s|
  {
    if s == "" {
      assert s + more == more;
    } else {
      assert (s + more)[0] == s[0] && (s + more)[1..] == s[1..] + more;
      LeadingIs(s[1..], more);
    }
  }

  lemma {:induction false} MagnitudeReads(text: string, more: string)
    requires text != "" && NumberChars(text) && IsNumber(text) && Ends(more)
    ensures ReadNumber(text + more) == Some((Num(DecimalOf(Denoted(text))), more))
  {
    LeadingIs(text, more);
    assert (text + more)[..|text|] == text && (text + more)[|text|..] == more && Lowered(text) == text;
  }

  lemma {:induction false} NumberReads(d: Decimal, more: string)
    requires IsDecimal(d) && Ends(more)
    ensures ReadNumber(NumberText(d) + more) == Some((Num(d), more))
  {
    NumberTextChars(d);
    TextIsNumber(d);
    MagnitudeReads(NumberText(d), more);
    TextDenotes(d);
    DecimalReads(d);
  }

  // ---------------------------------------------------------------- documents are read as they were

  lemma {:induction false} SkippedBlank(s: string, more: string)
    requires IsBlank(s)
    ensures Skipped(s + more) == Skipped(more)
    decreases |s|
  {
    if s == "" {
      assert s + more == more;
    } else {
      assert (s + more)[0] == s[0] && (s + more)[1..] == s[1..] + more;
      SkippedBlank(s[1..], more);
    }
  }

  lemma {:induction false} SkippedBreak(gap: Option<string>, indent: string, more: string)
    requires IsBlank(indent)
    ensures Skipped(Break(gap, indent, more)) == Skipped(more)
    ensures Ends(more) ==> Ends(Break(gap, indent, more))
  {
    if gap.Some? {
      SkippedBlank("\n" + indent, more);
      assert "\n" + indent + more == ("\n" + indent) + more;
    }
  }

  /** White space ahead of a value is nothing. */
  lemma {:induction false} ReadSkipped(text: string, other: string)
    requires Skipped(text) == Skipped(other)
    ensures ReadValue(text) == ReadValue(other)
  {
  }

  lemma {:induction false} WordReads(more: string)
    ensures ReadValue("null" + more) == Some((Null, more))
    ensures ReadValue("true" + more) == Some((Bool(true), more))
    ensures ReadValue("false" + more) == Some((Bool(false), more))
  {
    assert ("null" + more)[..4] == "null" && ("null" + more)[4..] == more;
    assert ("true" + more)[..4] == "true" && ("true" + more)[4..] == more;
    assert ("false" + more)[..5] == "false" && ("false" + more)[5..] == more;
  }

  lemma {:induction false} NumberIsNext(text: string)
    requires text != "" && (IsDigit(text[0]) || text[0] == '-')
    ensures ReadValue(text) == ReadNumber(text)
  {
  }

  lemma {:induction false} NumberValueReads(d: Decimal, more: string)
    requires IsDecimal(d) && Ends(more)
    ensures ReadValue(NumberText(d) + more) == Some((Num(d), more))
  {
    NumberReads(d, more);
    SignIsSeen(d);
    NumberIsNext(NumberText(d) + more);
  }

  lemma {:induction false} TextReads(s: string, more: string)
    ensures ReadValue(Quoted(s, more)) == Some((Text(s), more))
  {
    LiteralReads(s, more);
    assert Quoted(s, more)[1..] == Literal(s, more);
  }

  lemma {:induction false} EmptyReads(more: string)
    ensures ReadValue("[]" + more) == Some((List([]), more))
    ensures ReadValue("{}" + more) == Some((Object([]), more))
  {
    assert ("[]" + more)[1..] == "]" + more && ("]" + more)[1..] == more;
    assert ("{}" + more)[1..] == "}" + more && ("}" + more)[1..] == more;
  }

  lemma {:induction false} ListReads(text: string, items: seq<Ordered>, more: string)
    requires !Starts(Skipped(text), ']') && ReadItems(text) == Some((items, more))
    ensures ReadValue("[" + text) == Some((List(items), more))
  {
    assert ("[" + text)[1..] == text;
  }

  lemma {:induction false} ObjectReads(text: string, entries: Entries, more: string)
    requires !Starts(Skipped(text), '}') && ReadEntries(text) == Some((entries, more))
    ensures ReadValue("{" + text) == Some((Object(entries), more))
  {
    assert ("{" + text)[1..] == text;
  }

  lemma {:induction false} LastItemReads(text: string, item: Ordered, behind: string, more: string)
    requires ReadValue(text) == Some((item, behind)) && Skipped(behind) == "]" + more
    ensures ReadItems(text) == Some(([item], more))
  {
    assert ("]" + more)[1..] == more;
  }

  lemma {:induction false} NextItemReads(text: string, item: Ordered, others: string, items: seq<Ordered>, more: string)
    requires ReadValue(text) == Some((item, "," + others)) && ReadItems(others) == Some((items, more))
    ensures ReadItems(text) == Some(([item] + items, more))
  {
    assert ("," + others)[1..] == others;
  }

  lemma {:induction false} LastEntryReads(text: string, key: string, rest: string, value: Ordered, behind: string, more: string)
    requires ReadName(text) == Some((key, rest)) && ReadValue(rest) == Some((value, behind)) && Skipped(behind) == "}" + more
    ensures ReadEntries(text) == Some(([Entry(key, value)], more))
  {
    assert ("}" + more)[1..] == more;
  }

  lemma {:induction false} NextEntryReads(text: string, key: string, rest: string, value: Ordered, others: string, entries: Entries, more: string)
    requires ReadName(text) == Some((key, rest)) && ReadValue(rest) == Some((value, "," + others))
    requires ReadEntries(others) == Some((entries, more))
    ensures ReadEntries(text) == Some(([Entry(key, value)] + entries, more))
  {
    assert ("," + others)[1..] == others;
  }

  /** A value is read from its text, whatever the gap, and what follows is left. */
  lemma {:induction false} WrittenReads(value: Ordered, gap: Option<string>, indent: string, more: string)
    requires Printable(value) && IsGap(gap) && IsBlank(indent) && Ends(more)
    ensures ReadValue(Written(value, gap, indent, more)) == Some((value, more))
    decreases value, 0
  {
    match value
    case Null => WordReads(more);
    case Bool(b) => WordReads(more);
    case Num(number) => NumberValueReads(number, more);
    case Text(s) => TextReads(s, more);
    case List(items) => ListIsRead(items, gap, indent, more);
    case Object(entries) => ObjectIsRead(entries, gap, indent, more);
  }

  lemma {:induction false} ListIsRead(items: seq<Ordered>, gap: Option<string>, indent: string, more: string)
    requires Printable(List(items)) && IsGap(gap) && IsBlank(indent)
    ensures ReadValue(Written(List(items), gap, indent, more)) == Some((List(items), more))
    decreases items, 3
  {
    if items == [] {
      EmptyReads(more);
    } else {
      var inner, close := Deeper(gap, indent), Break(gap, indent, "]" + more);
      SkippedBreak(gap, indent, "]" + more);
      ItemsRead(items, gap, inner, close, more);
      ItemsBegin(items, gap, inner, close);
      ListReads(WrittenItems(items, gap, inner, true, close), items, more);
    }
  }

  lemma {:induction false} ObjectIsRead(entries: Entries, gap: Option<string>, indent: string, more: string)
    requires Printable(Object(entries)) && IsGap(gap) && IsBlank(indent)
    ensures ReadValue(Written(Object(entries), gap, indent, more)) == Some((Object(entries), more))
    decreases entries, 3
  {
    if entries == [] {
      EmptyReads(more);
    } else {
      var inner, close := Deeper(gap, indent), Break(gap, indent, "}" + more);
      SkippedBreak(gap, indent, "}" + more);
      EntriesRead(entries, gap, inner, close, more);
      EntriesBegin(entries, gap, inner, close);
      ObjectReads(WrittenEntries(entries, gap, inner, true, close), entries, more);
    }
  }

  lemma {:induction false} ItemsBegin(items: seq<Ordered>, gap: Option<string>, indent: string, close: string)
    requires Printable(List(items)) && items != [] && IsBlank(indent)
    ensures !Starts(Skipped(WrittenItems(items, gap, indent, true, close)), ']')
  {
    var rest := WrittenItems(items[1..], gap, indent, false, close);
    var text := Written(items[0], gap, indent, rest);
    SkippedBreak(gap, indent, text);
    WrittenBegins(items[0], gap, indent, rest);
    assert "" + Break(gap, indent, text) == Break(gap, indent, text);
  }

  lemma {:induction false} EntriesBegin(entries: Entries, gap: Option<string>, indent: string, close: string)
    requires Printable(Object(entries)) && entries != [] && IsBlank(indent)
    ensures !Starts(Skipped(WrittenEntries(entries, gap, indent, true, close)), '}')
  {
    var rest := WrittenEntries(entries[1..], gap, indent, false, close);
    var text := Quoted(entries[0].key, ":" + (if gap.Some? then " " else "") + Written(entries[0].value, gap, indent, rest));
    SkippedBreak(gap, indent, text);
    assert "" + Break(gap, indent, text) == Break(gap, indent, text);
  }

  lemma {:induction false} BrokenReads(value: Ordered, gap: Option<string>, indent: string, more: string)
    requires Printable(value) && IsGap(gap) && IsBlank(indent) && Ends(more)
    ensures ReadValue(Break(gap, indent, Written(value, gap, indent, more))) == Some((value, more))
    decreases value, 1
  {
    var text := Written(value, gap, indent, more);
    WrittenReads(value, gap, indent, more);
    SkippedBreak(gap, indent, text);
    ReadSkipped(Break(gap, indent, text), text);
  }

  lemma {:induction false} FirstItemReads(items: seq<Ordered>, gap: Option<string>, indent: string, close: string)
    requires Printable(List(items)) && items != [] && IsGap(gap) && IsBlank(indent) && Ends(close)
    ensures ReadValue(WrittenItems(items, gap, indent, true, close)) == Some((items[0], WrittenItems(items[1..], gap, indent, false, close)))
    decreases items, 1
  {
    ItemsBegun(items, gap, indent, true, close);
    assert Ends(WrittenItems(items[1..], gap, indent, false, close)) by { if |items| > 1 { ItemsGoOn(items[1..], gap, indent, close); } }
    BrokenReads(items[0], gap, indent, WrittenItems(items[1..], gap, indent, false, close));
  }

  lemma {:induction false} ItemsRead(items: seq<Ordered>, gap: Option<string>, indent: string, close: string, more: string)
    requires Printable(List(items)) && items != [] && IsGap(gap) && IsBlank(indent)
    requires Ends(close) && Skipped(close) == "]" + more
    ensures ReadItems(WrittenItems(items, gap, indent, true, close)) == Some((items, more))
    decreases items, 2
  {
    var text, rest, item := WrittenItems(items, gap, indent, true, close), WrittenItems(items[1..], gap, indent, false, close), items[0];
    FirstItemReads(items, gap, indent, close);
    if |items| == 1 {
      LastItemReads(text, item, rest, more);
      assert [item] == items;
    } else {
      var others := items[1..];
      ItemsGoOn(others, gap, indent, close);
      ItemsRead(others, gap, indent, close, more);
      NextItemReads(text, item, WrittenItems(others, gap, indent, true, close), others, more);
      assert [item] + others == items;
    }
  }

  lemma {:induction false} NameReads(key: string, gap: Option<string>, indent: string, value: string)
    requires IsBlank(indent)
    ensures ReadName(Break(gap, indent, Quoted(key, ":" + value))) == Some((key, value))
  {
    SkippedBreak(gap, indent, Quoted(key, ":" + value));
    LiteralReads(key, ":" + value);
    assert Quoted(key, ":" + value)[1..] == Literal(key, ":" + value) && (":" + value)[1..] == value;
  }

  lemma {:induction false} FirstEntryReads(entries: Entries, gap: Option<string>, indent: string, close: string) returns (rest: string)
    requires Printable(Object(entries)) && entries != [] && IsGap(gap) && IsBlank(indent) && Ends(close)
    ensures ReadName(WrittenEntries(entries, gap, indent, true, close)) == Some((entries[0].key, rest))
    ensures ReadValue(rest) == Some((entries[0].value, WrittenEntries(entries[1..], gap, indent, false, close)))
    decreases entries, 1
  {
    var behind := WrittenEntries(entries[1..], gap, indent, false, close);
    var space, text := if gap.Some? then " " else "", Written(entries[0].value, gap, indent, behind);
    rest := space + text;
    EntriesBegun(entries, gap, indent, true, close);
    assert behind == close || Ends(behind) by { if |entries| > 1 { EntriesGoOn(entries[1..], gap, indent, close); } }
    NameReads(entries[0].key, gap, indent, rest);
    SkippedBlank(space, text);
    ReadSkipped(rest, text);
    WrittenReads(entries[0].value, gap, indent, behind);
  }

  lemma {:induction false} EntriesRead(entries: Entries, gap: Option<string>, indent: string, close: string, more: string)
    requires Printable(Object(entries)) && entries != [] && IsGap(gap) && IsBlank(indent)
    requires Ends(close) && Skipped(close) == "}" + more
    ensures ReadEntries(WrittenEntries(entries, gap, indent, true, close)) == Some((entries, more))
    decreases entries, 2
  {
    var text, behind := WrittenEntries(entries, gap, indent, true, close), WrittenEntries(entries[1..], gap, indent, false, close);
    var key, value := entries[0].key, entries[0].value;
    var rest := FirstEntryReads(entries, gap, indent, close);
    if |entries| == 1 {
      LastEntryReads(text, key, rest, value, behind, more);
      assert [Entry(key, value)] == entries;
    } else {
      EntriesGoOn(entries[1..], gap, indent, close);
      EntriesRead(entries[1..], gap, indent, close, more);
      NextEntryReads(text, key, rest, value, WrittenEntries(entries[1..], gap, indent, true, close), entries[1..], more);
      assert [Entry(key, value)] + entries[1..] == entries;
    }
  }

  /** A document is read from its text, compact or with any gap of white space. */
  lemma {:induction false} StringifiedReads(value: Ordered, gap: Option<string>)
    requires Printable(value) && IsGap(gap)
    ensures ReadDocument(Stringified(value, gap)) == Some(value)
  {
    WrittenReads(value, gap, "", "");
  }

  /** Literals written alike, whatever follows them, are of one string. */
  lemma {:induction false} LiteralIsOne(a: string, s: string, b: string, t: string)
    requires Literal(a, s) == Literal(b, t)
    ensures a == b && s == t
  {
    LiteralReads(a, s);
    LiteralReads(b, t);
  }

  /** No two documents have one text, compact or not. */
  lemma {:induction false} TextIsOne(a: Ordered, b: Ordered, gap: Option<string>, other: Option<string>)
    requires Printable(a) && Printable(b) && IsGap(gap) && IsGap(other) && Stringified(a, gap) == Stringified(b, other)
    ensures a == b
  {
    StringifiedReads(a, gap);
    StringifiedReads(b, other);
  }
}
