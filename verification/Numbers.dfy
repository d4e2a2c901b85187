/**
 How a finite number is spelt (section 6.1.6.1.20 of ECMA-262): its shortest digits and the place
 of its point, in one of four forms. Each denotes the number, and no two numbers are spelt alike.
 */
module Numbers {
  import opened Wrappers
  import opened OrderedObjects

  /** A finite number: zero, or its shortest digits d1…dk as 0.d1…dk × 10^n. */
  datatype Decimal = Zero | Decimal(negative: bool, digits: string, n: int)

  predicate IsDecimal(d: Decimal) {
    d.Decimal? ==> d.digits != "" && AllDigits(d.digits) && d.digits[0] != '0' && d.digits[|d.digits| - 1] != '0'
  }

  function Zeros(count: int): string { if count <= 0 then "" else Zeros(count - 1) + "0" }

  function NatText(n: nat): string {
    if n < 10 then [('0' as int + n) as char] else NatText(n / 10) + [('0' as int + n % 10) as char]
  }

  function Exponent(e: int): string { if e >= 0 then "e+" + NatText(e) else "e-" + NatText(-e) }

  /** Where the point goes. */
  function Spelt(digits: string, n: int): string
    requires digits != ""
  {
    var k := |digits|;
    if k <= n <= 21 then digits + Zeros(n - k)
    else if 0 < n <= 21 then digits[..n] + "." + digits[n..]
    else if -6 < n <= 0 then "0." + Zeros(-n) + digits
    else if k == 1 then digits + Exponent(n - 1)
    else digits[..1] + "." + digits[1..] + Exponent(n - 1)
  }

  function NumberText(d: Decimal): string
    requires IsDecimal(d)
  {
    match d
    case Zero => "0"
    case Decimal(negative, digits, n) => (if negative then "-" else "") + Spelt(digits, n)
  }

  // ---------------------------------------------------------------- what a spelling denotes

  /** The number m × 10^e. */
  datatype Scaled = Scaled(m: int, e: int)

  /** The same number with no zero at the end of m. */
  function Normal(m: int, e: int): Scaled
    decreases if m < 0 then -m else m
  {
    if m == 0 then Scaled(0, 0) else if m % 10 == 0 then Normal(m / 10, e + 1) else Scaled(m, e)
  }

  /** What stands before the first `c`, and after it. */
  function Before(text: string, c: char): string {
    if text == "" || text[0] == c then "" else [text[0]] + Before(text[1..], c)
  }

  function After(text: string, c: char): string {
    if text == "" then "" else if text[0] == c then text[1..] else After(text[1..], c)
  }

  function DigitsValue(s: string): int { if AllDigits(s) then NumberOf(s) else 0 }

  function ExponentValue(s: string): int {
    if s == "" then 0 else if s[0] == '-' then -DigitsValue(s[1..]) else DigitsValue(s[1..])
  }

  /** A mantissa with an exponent: its digits, less the places behind the point. */
  function Reading(mantissa: string, exponent: int): Scaled {
    Normal(DigitsValue(Before(mantissa, '.') + After(mantissa, '.')), exponent - |After(mantissa, '.')|)
  }

  /** The number a decimal literal denotes: its digits, its point and its exponent. */
  function Unsigned(text: string): Scaled { Reading(Before(text, 'e'), ExponentValue(After(text, 'e'))) }

  function Denoted(text: string): Scaled {
    if text != "" && text[0] == '-' then Scaled(-Unsigned(text[1..]).m, Unsigned(text[1..]).e) else Unsigned(text)
  }

  /** The number itself: its digits times ten to the n less k. */
  function Amount(d: Decimal): Scaled
    requires IsDecimal(d)
  {
    match d
    case Zero => Scaled(0, 0)
    case Decimal(negative, digits, n) =>
      var value: int := NumberOf(digits);
      Scaled(if negative then -value else value, n - |digits|)
  }

  // ---------------------------------------------------------------- digits

  lemma {:induction false} ZerosAre(count: int)
    ensures AllDigits(Zeros(count)) && |Zeros(count)| == (if count < 0 then 0 else count) && NumberOf(Zeros(count)) == 0
  {
    if count > 0 {
      ZerosAre(count - 1);
      assert Zeros(count)[..|Zeros(count)| - 1] == Zeros(count - 1);
    }
  }

  /** Zeros behind digits scale them, and nothing else. */
  lemma {:induction false} TrailingZeros(digits: string, count: int, e: int)
    requires AllDigits(digits) && count >= 0 && NumberOf(digits) != 0
    ensures AllDigits(digits + Zeros(count)) && NumberOf(digits + Zeros(count)) != 0
    ensures Normal(NumberOf(digits + Zeros(count)), e) == Normal(NumberOf(digits), e + count)
    decreases count
  {
    if count == 0 {
      assert digits + Zeros(0) == digits;
    } else {
      var fewer := digits + Zeros(count - 1);
      TrailingZeros(digits, count - 1, e + 1);
      ZeroBehind(digits, count);
      OneMoreZero(fewer);
      NormalTen(NumberOf(fewer), e);
    }
  }

  lemma {:induction false} ZeroBehind(digits: string, count: int)
    requires count > 0
    ensures digits + Zeros(count) == digits + Zeros(count - 1) + "0"
  {
  }

  lemma {:induction false} OneMoreZero(s: string)
    requires AllDigits(s)
    ensures AllDigits(s + "0") && NumberOf(s + "0") == NumberOf(s) * 10
  {
    assert (s + "0")[..|s + "0"| - 1] == s;
  }

  lemma {:induction false} NormalTen(m: int, e: int)
    requires m != 0
    ensures Normal(m * 10, e) == Normal(m, e + 1)
  {
  }

  /** Zeros ahead of digits are worth nothing. */
  lemma {:induction false} LeadingZeros(zeros: string, digits: string)
    requires AllDigits(zeros) && NumberOf(zeros) == 0 && AllDigits(digits)
    ensures AllDigits(zeros + digits) && NumberOf(zeros + digits) == NumberOf(digits)
    decreases |digits|
  {
    if digits == "" {
      assert zeros + digits == zeros;
    } else {
      LeadingZeros(zeros, digits[..|digits| - 1]);
      assert (zeros + digits)[..|zeros + digits| - 1] == zeros + digits[..|digits| - 1];
    }
  }

  lemma {:induction false} NatTextIsNumber(n: nat)
    ensures AllDigits(NatText(n)) && NumberOf(NatText(n)) == n && NatText(n) != ""
  {
    if n < 10 {
      assert NatText(n)[..0] == "";
    } else {
      NatTextIsNumber(n / 10);
      assert NatText(n)[..|NatText(n)| - 1] == NatText(n / 10);
    }
  }

  // ---------------------------------------------------------------- splitting a spelling

  ghost predicate Lacks(text: string, c: char) { forall i | 0 <= i < |text| :: text[i] != c }

  lemma {:induction false} SplitAt(left: string, c: char, right: string)
    requires Lacks(left, c)
    ensures Before(left + [c] + right, c) == left && After(left + [c] + right, c) == right
    decreases |left|
  {
    var text := left + [c] + right;
    if left == "" {
      assert text[0] == c && text[1..] == right;
    } else {
      assert text[0] == left[0] && text[1..] == left[1..] + [c] + right;
      SplitAt(left[1..], c, right);
    }
  }

  lemma {:induction false} NoSplit(text: string, c: char)
    requires Lacks(text, c)
    ensures Before(text, c) == text && After(text, c) == ""
    decreases |text|
  {
    if text != "" { NoSplit(text[1..], c); }
  }

  lemma {:induction false} DigitsLack(s: string, c: char)
    requires AllDigits(s) && !IsDigit(c)
    ensures Lacks(s, c)
  {
  }

  /** Without a point, the digits as they are. */
  lemma {:induction false} WholeReading(s: string, e: int)
    requires AllDigits(s)
    ensures Reading(s, e) == Normal(NumberOf(s), e)
  {
    DigitsLack(s, '.');
    NoSplit(s, '.');
    assert s + "" == s;
  }

  /** With one, the digits less the places behind it. */
  lemma {:induction false} PointReading(left: string, right: string, e: int)
    requires AllDigits(left) && AllDigits(right)
    ensures AllDigits(left + right) && Reading(left + "." + right, e) == Normal(NumberOf(left + right), e - |right|)
  {
    DigitsLack(left, '.');
    SplitAt(left, '.', right);
  }

  lemma {:induction false} PlainUnsigned(s: string)
    requires Lacks(s, 'e')
    ensures Unsigned(s) == Reading(s, 0)
  {
    NoSplit(s, 'e');
  }

  lemma {:induction false} ExponentUnsigned(s: string, e: int)
    requires Lacks(s, 'e')
    ensures Unsigned(s + Exponent(e)) == Reading(s, e)
  {
    ExponentReads(e);
    assert s + Exponent(e) == s + ['e'] + Exponent(e)[1..];
    SplitAt(s, 'e', Exponent(e)[1..]);
  }

  lemma {:induction false} ExponentReads(e: int)
    ensures Exponent(e) == ['e'] + Exponent(e)[1..] && ExponentValue(Exponent(e)[1..]) == e
  {
    var rest := Exponent(e)[1..];
    NatTextIsNumber(if e >= 0 then e else -e);
    assert rest[1..] == NatText(if e >= 0 then e else -e);
  }

  // ---------------------------------------------------------------- each form denotes its number

  /** Each of the four forms denotes the digits times ten to the n less k. */
  lemma {:induction false} SpeltDenotes(digits: string, n: int)
    requires digits != "" && AllDigits(digits) && NumberOf(digits) != 0
    ensures Unsigned(Spelt(digits, n)) == Normal(NumberOf(digits), n - |digits|)
  {
    var k := |digits|;
    if k <= n <= 21 {
      PaddedDenotes(digits, n);
      assert Spelt(digits, n) == digits + Zeros(n - k);
    } else if 0 < n <= 21 {
      PointedDenotes(digits, n);
      assert Spelt(digits, n) == digits[..n] + "." + digits[n..];
    } else if -6 < n <= 0 {
      SmallDenotes(digits, n);
      assert Spelt(digits, n) == "0." + Zeros(-n) + digits;
    } else if k == 1 {
      UnitDenotes(digits, n);
    } else {
      ScaledDenotes(digits, n);
    }
  }

  lemma {:induction false} UnitDenotes(digits: string, n: int)
    requires AllDigits(digits) && |digits| == 1
    ensures Unsigned(digits + Exponent(n - 1)) == Normal(NumberOf(digits), n - |digits|)
  {
    DigitsLack(digits, 'e');
    ExponentUnsigned(digits, n - 1);
    WholeReading(digits, n - 1);
  }

  lemma {:induction false} PaddedDenotes(digits: string, n: int)
    requires AllDigits(digits) && |digits| <= n && NumberOf(digits) != 0
    ensures Unsigned(digits + Zeros(n - |digits|)) == Normal(NumberOf(digits), n - |digits|)
  {
    TrailingZeros(digits, n - |digits|, 0);
    DigitsLack(digits + Zeros(n - |digits|), 'e');
    PlainUnsigned(digits + Zeros(n - |digits|));
    WholeReading(digits + Zeros(n - |digits|), 0);
  }

  lemma {:induction false} PointedDenotes(digits: string, n: int)
    requires AllDigits(digits) && 0 < n < |digits|
    ensures Unsigned(digits[..n] + "." + digits[n..]) == Normal(NumberOf(digits), n - |digits|)
  {
    assert digits[..n] + digits[n..] == digits;
    PlainUnsigned(digits[..n] + "." + digits[n..]);
    PointReading(digits[..n], digits[n..], 0);
  }

  lemma {:induction false} SmallDenotes(digits: string, n: int)
    requires AllDigits(digits) && n <= 0
    ensures Unsigned("0." + Zeros(-n) + digits) == Normal(NumberOf(digits), n - |digits|)
  {
    var fraction := Zeros(-n) + digits;
    ZerosAre(-n);
    LeadingZeros(Zeros(-n), digits);
    ZeroAhead(fraction);
    assert "0." + Zeros(-n) + digits == "0" + "." + fraction;
    DigitsLack(fraction, 'e');
    PlainUnsigned("0" + "." + fraction);
    PointReading("0", fraction, 0);
  }

  lemma {:induction false} ScaledDenotes(digits: string, n: int)
    requires AllDigits(digits) && |digits| > 1
    ensures Unsigned(digits[..1] + "." + digits[1..] + Exponent(n - 1)) == Normal(NumberOf(digits), n - |digits|)
  {
    assert digits[..1] + digits[1..] == digits;
    ExponentUnsigned(digits[..1] + "." + digits[1..], n - 1);
    PointReading(digits[..1], digits[1..], n - 1);
  }

  lemma {:induction false} ZeroAhead(s: string)
    requires AllDigits(s)
    ensures AllDigits("0" + s) && NumberOf("0" + s) == NumberOf(s)
  {
    assert "0"[..0] == "";
    LeadingZeros("0", s);
  }

  lemma {:induction false} SpeltStart(digits: string, n: int)
    requires digits != "" && AllDigits(digits)
    ensures Spelt(digits, n) != "" && IsDigit(Spelt(digits, n)[0])
  {
  }

  lemma {:induction false} LastIsLeft(digits: string)
    requires AllDigits(digits) && digits != ""
    ensures NumberOf(digits) % 10 == DigitValue(digits[|digits| - 1])
  {
  }

  /** A number's text denotes it. */
  lemma {:induction false} TextDenotes(d: Decimal)
    requires IsDecimal(d)
    ensures Denoted(NumberText(d)) == Amount(d)
  {
    match d
    case Zero =>
      WholeReading("0", 0);
      DigitsLack("0", 'e');
      PlainUnsigned("0");
      assert "0"[..0] == "" && NumberOf("0") == 0;
    case Decimal(negative, digits, n) =>
      NumberIsPositive(digits);
      LastIsLeft(digits);
      SpeltDenotes(digits, n);
      SpeltStart(digits, n);
      var text := Spelt(digits, n);
      if negative { assert ("-" + text)[1..] == text; } else { assert "" + text == text; }
  }

  /** Numbers spelt alike are one number. */
  lemma {:induction false} NumberTextIsOne(a: Decimal, b: Decimal)
    requires IsDecimal(a) && IsDecimal(b) && NumberText(a) == NumberText(b)
    ensures a == b
  {
    TextDenotes(a);
    TextDenotes(b);
    SignIsSeen(a);
    SignIsSeen(b);
    if a.Decimal? { NumberIsPositive(a.digits); }
    if b.Decimal? { NumberIsPositive(b.digits); }
    if a.Decimal? && b.Decimal? { IndexIsOne(a.digits, b.digits); }
  }

  lemma {:induction false} SignIsSeen(d: Decimal)
    requires IsDecimal(d)
    ensures NumberText(d) != "" && (NumberText(d)[0] == '-' <==> d.Decimal? && d.negative)
    ensures NumberText(d)[0] == '-' || IsDigit(NumberText(d)[0])
  {
    if d.Decimal? { SpeltStart(d.digits, d.n); }
  }

  // ---------------------------------------------------------------- which form is taken

  function Pow10(n: nat): nat { if n == 0 then 1 else 10 * Pow10(n - 1) }

  /** Whether m × 10^e is at least 10^bound. */
  predicate Reaches(m: nat, e: int, bound: int) {
    if e >= bound then m * Pow10(e - bound) >= 1 else m >= Pow10(bound - e)
  }

  lemma {:induction false} PowersGrow(a: nat, b: nat)
    requires a <= b
    ensures 1 <= Pow10(a) <= Pow10(b)
    decreases b
  {
    if a < b { PowersGrow(a, b - 1); } else if a > 0 { PowersGrow(a - 1, b - 1); }
  }

  /** Digits are worth what their number says. */
  lemma {:induction false} DigitsSize(digits: string)
    requires AllDigits(digits) && digits != "" && digits[0] != '0'
    ensures Pow10(|digits| - 1) <= NumberOf(digits) < Pow10(|digits|)
    decreases |digits|
  {
    var fewer := digits[..|digits| - 1];
    assert NumberOf(digits) == NumberOf(fewer) * 10 + DigitValue(digits[|digits| - 1]);
    if fewer == "" {
      assert Pow10(0) == 1 && Pow10(1) == 10 && DigitValue(digits[0]) >= 1;
    } else {
      DigitsSize(fewer);
    }
  }

  /** The number's size, by the place of its point. */
  lemma {:induction false} ReachesExactly(digits: string, n: int, bound: int)
    requires AllDigits(digits) && digits != "" && digits[0] != '0'
    ensures Reaches(NumberOf(digits), n - |digits|, bound) <==> n > bound
  {
    var m, e := NumberOf(digits), n - |digits|;
    DigitsSize(digits);
    PowersGrow(0, |digits| - 1);
    if e >= bound {
      PowersGrow(0, e - bound);
      assert m * Pow10(e - bound) >= 1;
    } else if n > bound {
      PowersGrow(bound - e, |digits| - 1);
    } else {
      PowersGrow(|digits|, bound - e);
    }
  }

  /** A number from a millionth on and below 10^21 is written without an exponent, and no other is. */
  lemma {:induction false} PlainExactly(digits: string, n: int)
    requires AllDigits(digits) && digits != "" && digits[0] != '0'
    ensures Lacks(Spelt(digits, n), 'e') <==> Reaches(NumberOf(digits), n - |digits|, -6) && !Reaches(NumberOf(digits), n - |digits|, 21)
  {
    ReachesExactly(digits, n, -6);
    ReachesExactly(digits, n, 21);
    var text := Spelt(digits, n);
    if -6 < n <= 21 {
      ZerosAre(n - |digits|);
      ZerosAre(-n);
      PlainLacks(digits, n);
    } else {
      var mantissa := if |digits| == 1 then digits else digits[..1] + "." + digits[1..];
      assert text[|mantissa|] == 'e';
    }
  }

  lemma {:induction false} PlainLacks(digits: string, n: int)
    requires AllDigits(digits) && digits != "" && -6 < n <= 21
    requires AllDigits(Zeros(n - |digits|)) && AllDigits(Zeros(-n))
    ensures Lacks(Spelt(digits, n), 'e')
  {
  }

  /** Without an exponent, a number has a point exactly when it is not whole. */
  lemma {:induction false} PointExactly(digits: string, n: int)
    requires AllDigits(digits) && digits != "" && -6 < n <= 21
    ensures Lacks(Spelt(digits, n), '.') <==> n >= |digits|
  {
    var text := Spelt(digits, n);
    ZerosAre(n - |digits|);
    if n < |digits| { assert text[if n > 0 then n else 1] == '.'; }
  }

  /** No zero ends the places behind a point. */
  lemma {:induction false} PlacesAreShort(digits: string, n: int)
    requires AllDigits(digits) && digits != "" && digits[|digits| - 1] != '0' && -6 < n < |digits| && n <= 21
    ensures Spelt(digits, n)[|Spelt(digits, n)| - 1] != '0'
  {
  }

  /** The digits with a point behind the first, if there are more. */
  function Mantissa(digits: string): string
    requires digits != ""
  {
    if |digits| == 1 then digits else digits[..1] + "." + digits[1..]
  }

  lemma {:induction false} MantissaForm(digits: string)
    requires AllDigits(digits) && digits != ""
    ensures Before(Mantissa(digits), '.') == digits[..1] && After(Mantissa(digits), '.') == digits[1..]
    ensures Lacks(Mantissa(digits), 'e') && (Lacks(Mantissa(digits), '.') <==> |digits| == 1)
  {
    DigitsLack(digits, '.');
    if |digits| > 1 {
      SplitAt(digits[..1], '.', digits[1..]);
      assert Mantissa(digits)[1] == '.';
    } else {
      NoSplit(digits, '.');
    }
  }

  /** With an exponent, one digit stands ahead of the point, the others behind it if there are any, and
      the exponent has its sign. */
  lemma {:induction false} ExponentForm(digits: string, n: int)
    requires AllDigits(digits) && digits != "" && !(-6 < n <= 21)
    ensures Before(Spelt(digits, n), 'e') == Mantissa(digits)
    ensures After(Spelt(digits, n), 'e') == (if n > 0 then "+" else "-") + NatText(if n > 0 then n - 1 else 1 - n)
  {
    MantissaForm(digits);
    ExponentReads(n - 1);
    SplitAt(Mantissa(digits), 'e', Exponent(n - 1)[1..]);
    assert Mantissa(digits) + Exponent(n - 1) == Mantissa(digits) + ['e'] + Exponent(n - 1)[1..];
  }

  lemma {:induction false} NatTextIsCanonical(n: nat)
    ensures IsCanonical(NatText(n)) && AllDigits(NatText(n)) && NumberOf(NatText(n)) == n
  {
    NatTextIsNumber(n);
    if n >= 10 { NatTextIsCanonical(n / 10); }
  }

  /** A key is an array index exactly when it is how a number below 2^32 - 1 is spelt. */
  lemma {:induction false} IndexExactly(key: string, n: nat)
    ensures ArrayIndex(key) == Some(n) <==> key == NatText(n) && n < 4294967295
  {
    NatTextIsCanonical(n);
    if ArrayIndex(key) == Some(n) { IndexIsOne(key, NatText(n)); }
  }
}
