/**
  The decimal conversions of the C printer: `%d`, `%lld`, `%ld`, `%.0f` and `%.2f`,
  and the reader that undoes them.
 */
module Decimals {
  import opened Wrappers

  const INT_MIN: int := -0x8000_0000
  const INT_MAX: int := 0x7fff_ffff
  const LLONG_MIN: int := -0x8000_0000_0000_0000
  const LLONG_MAX: int := 0x7fff_ffff_ffff_ffff

  /** (2^53 - 1) * 2^971, the largest finite IEEE 754 double. */
  const DBL_MAX: int := 179769313486231570814527423731704356798070567525844996598917476803157260780028538760589558632766878171540458953514382464234321326889464182768467546703537516986049910576551282076245490090389328944075868508455133942304583236903222948165808559332123347764797926204144723168738177180919299881250404026184124858368

  type Int32 = x: int | INT_MIN <= x <= INT_MAX
  type Int64 = x: int | LLONG_MIN <= x <= LLONG_MAX

  /** A C double, with its sign bit kept apart so that -0.0 is a value of its own. */
  datatype RawDouble =
    | NaN
    | Infinite(negative: bool)
    | Finite(negative: bool, magnitude: real)
  {
    /** The C comparison `this >= 0.0`. */
    predicate AtLeastZero() {
      match this
      case NaN => false
      case Infinite(neg) => !neg
      case Finite(neg, mag) => !neg || mag <= 0.0
    }

    /** The C comparison `this <= 100.0`. */
    predicate AtMostHundred() {
      match this
      case NaN => false
      case Infinite(neg) => neg
      case Finite(neg, mag) => neg || mag <= 100.0
    }
  }

  type Double = d: RawDouble | d.Finite? ==> 0.0 <= d.magnitude <= DBL_MAX as real
    witness NaN

  /** A number as it stands in the text: `scaled` units of 10^-`decimals`. */
  datatype Numeral =
    | Decimal(negative: bool, scaled: nat, decimals: nat)
    | Infinity(negative: bool)
    | NotANumber

  // ----- digits

  function Pow10(n: nat): (p: nat)
    ensures p >= 1
  {
    if n == 0 then 1 else 10 * Pow10(n - 1)
  }

  function DigitChar(d: nat): char
    requires d < 10
  {
    '0' + d as char
  }

  predicate IsDigit(c: char) { '0' <= c <= '9' }

  function DigitValue(c: char): nat
    requires IsDigit(c)
  {
    (c - '0') as nat
  }

  ghost predicate AllDigits(s: string) { forall i :: 0 <= i < |s| ==> IsDigit(s[i]) }

  /** The decimal representation without leading zeros. */
  function Digits(n: nat): (s: string)
    ensures |s| >= 1 && AllDigits(s)
  {
    if n < 10 then [DigitChar(n)] else Digits(n / 10) + [DigitChar(n % 10)]
  }

  /** The last `width` digits, with leading zeros. */
  function FixedDigits(n: nat, width: nat): (s: string)
    ensures |s| == width && AllDigits(s)
  {
    if width == 0 then "" else FixedDigits(n / 10, width - 1) + [DigitChar(n % 10)]
  }

  function DigitsValue(s: string): nat
    requires AllDigits(s)
  {
    if s == "" then 0 else 10 * DigitsValue(s[..|s| - 1]) + DigitValue(s[|s| - 1])
  }

  lemma {:induction false} DigitsRoundTrip(n: nat)
    ensures DigitsValue(Digits(n)) == n
  {
    if n >= 10 {
      DigitsRoundTrip(n / 10);
      assert Digits(n)[..|Digits(n)| - 1] == Digits(n / 10);
    }
  }

  lemma {:induction false} FixedDigitsValue(n: nat, width: nat)
    requires n < Pow10(width)
    ensures DigitsValue(FixedDigits(n, width)) == n
  {
    if width > 0 {
      assert Pow10(width) == 10 * Pow10(width - 1);
      assert n / 10 < Pow10(width - 1);
      hide Pow10;
      FixedDigitsValue(n / 10, width - 1);
      var s := FixedDigits(n, width);
      assert s[..|s| - 1] == FixedDigits(n / 10, width - 1);
    }
  }

  /** `n` without its last `count` digits. */
  function DropDigits(n: nat, count: nat): nat {
    if count == 0 then n else DropDigits(n / 10, count - 1)
  }

  /** Splitting a number before its last `width` digits loses nothing. */
  lemma {:induction false} SplitDigitsRoundTrip(n: nat, width: nat)
    ensures AllDigits(Digits(DropDigits(n, width)) + FixedDigits(n, width))
    ensures DigitsValue(Digits(DropDigits(n, width)) + FixedDigits(n, width)) == n
  {
    if width == 0 {
      assert Digits(n) + FixedDigits(n, 0) == Digits(n);
      DigitsRoundTrip(n);
    } else {
      SplitDigitsRoundTrip(n / 10, width - 1);
      var u := Digits(DropDigits(n, width)) + FixedDigits(n / 10, width - 1);
      assert Digits(DropDigits(n, width)) + FixedDigits(n, width) == u + [DigitChar(n % 10)];
      assert (u + [DigitChar(n % 10)])[..|u|] == u;
    }
  }

  /** A number has at most `width` digits exactly when it is below 10^width. */
  lemma {:induction false} DigitsWidth(n: nat, width: nat)
    requires width >= 1
    ensures |Digits(n)| <= width <==> n < Pow10(width)
  {
    if n >= 10 && width >= 2 {
      DigitsWidth(n / 10, width - 1);
    }
  }

  lemma {:induction false} DropDigitsBelow(n: nat, count: nat, width: nat)
    ensures DropDigits(n, count) < Pow10(width) <==> n < Pow10(width + count)
  {
    if count > 0 {
      DropDigitsBelow(n / 10, count - 1, width);
    }
  }

  lemma {:induction false} Pow10Sum(a: nat, b: nat)
    ensures Pow10(a + b) == Pow10(a) * Pow10(b)
  {
    if a > 0 {
      Pow10Sum(a - 1, b);
      var p, q := Pow10(a - 1), Pow10(b);
      assert Pow10(a) == 10 * p && Pow10(a + b) == 10 * Pow10(a - 1 + b);
      hide Pow10;
      assert 10 * (p * q) == (10 * p) * q;
    }
  }

  lemma PowerSquare(a: nat, p: int)
    requires Pow10(a) == p
    ensures Pow10(2 * a) == p * p
  {
    Pow10Sum(a, a);
  }

  /** The largest double has exactly 309 integer digits. */
  lemma DoubleMaxDigits()
    ensures Pow10(308) <= DBL_MAX < Pow10(309)
  {
    assert Pow10(7) == 10000000;
    assert Pow10(11) == 100000000000;
    PowerSquare(11, 100000000000);
    Pow10Sum(22, 11);
    assert Pow10(33) == 1000000000000000000000000000000000;
    PowerSquare(33, 1000000000000000000000000000000000);
    Pow10Sum(66, 11);
    assert Pow10(77) == 100000000000000000000000000000000000000000000000000000000000000000000000000000;
    PowerSquare(77, 100000000000000000000000000000000000000000000000000000000000000000000000000000);
    PowerSquare(154, 10000000000000000000000000000000000000000000000000000000000000000000000000000000000000000000000000000000000000000000000000000000000000000000000000000000000);
    assert Pow10(309) == 10 * Pow10(308);
  }

  // ----- rounding

  /** Nearest integer, ties to even: how the C library rounds the exact value of a double. */
  function RoundHalfEven(x: real): (n: int)
    ensures n as real - 0.5 <= x <= n as real + 0.5
    ensures x == n as real + 0.5 || x == n as real - 0.5 ==> n % 2 == 0
  {
    var f := x.Floor;
    var rest := x - f as real;
    if rest < 0.5 || (rest == 0.5 && f % 2 == 0) then f else f + 1
  }

  function IntNumeral(n: int): Numeral {
    if n < 0 then Decimal(true, -n, 0) else Decimal(false, n, 0)
  }

  /** The magnitude in units of the last decimal shown. */
  function Scaled(magnitude: real, decimals: nat): real { magnitude * Pow10(decimals) as real }

  /** What `%.<decimals>f` shows of a double. */
  function DoubleNumeral(d: Double, decimals: nat): Numeral {
    match d
    case NaN => NotANumber
    case Infinite(neg) => Infinity(neg)
    case Finite(neg, mag) =>
      RoundedIsNatural(mag, decimals);
      Decimal(neg, RoundHalfEven(Scaled(mag, decimals)), decimals)
  }

  lemma RoundedIsNatural(magnitude: real, decimals: nat)
    requires 0.0 <= magnitude
    ensures RoundHalfEven(Scaled(magnitude, decimals)) >= 0
  {
    assert Scaled(magnitude, decimals) >= 0.0;
  }

  /** `n` is the integer nearest to `x`, the even one of two equally near. */
  predicate IsNearest(n: int, x: real) {
    -0.5 <= x - n as real <= 0.5 && (x - n as real in {-0.5, 0.5} ==> n % 2 == 0)
  }

  /** `%.2f` shows a finite double as the nearest number of hundredths, and `%.0f` as the nearest integer. */
  lemma ShownIsNearest(d: Double)
    requires d.Finite?
    ensures var shown := DoubleNumeral(d, 2);
      && shown.Decimal? && shown.decimals == 2 && shown.negative == d.negative
      && IsNearest(shown.scaled, d.magnitude * 100.0)
    ensures var shown := DoubleNumeral(d, 0);
      && shown.Decimal? && shown.decimals == 0 && shown.negative == d.negative
      && IsNearest(shown.scaled, d.magnitude)
  {
    assert Pow10(0) == 1 && Pow10(2) == 100;
    assert Scaled(d.magnitude, 2) == d.magnitude * 100.0 && Scaled(d.magnitude, 0) == d.magnitude;
    hide Scaled;
  }

  /** Integers are shown exactly, and the other doubles under their names. */
  lemma ShownExactly(n: int)
    ensures IntNumeral(n) == Decimal(n < 0, if n < 0 then -n else n, 0)
    ensures DoubleNumeral(NaN, 2) == DoubleNumeral(NaN, 0) == NotANumber
    ensures forall b :: DoubleNumeral(Infinite(b), 2) == DoubleNumeral(Infinite(b), 0) == Infinity(b)
  {
  }

  // ----- printing and reading numerals

  function Sign(negative: bool): string { if negative then "-" else "" }

  function PrintUnsigned(scaled: nat, decimals: nat): (s: string)
    ensures |s| >= 1
  {
    if decimals == 0 then Digits(scaled)
    else Digits(DropDigits(scaled, decimals)) + ("." + FixedDigits(scaled, decimals))
  }

  function Print(v: Numeral): (s: string)
    ensures |s| >= 1
  {
    match v
    case NotANumber => "nan"
    case Infinity(neg) => Sign(neg) + "inf"
    case Decimal(neg, scaled, decimals) => Sign(neg) + PrintUnsigned(scaled, decimals)
  }

  /** Length of the longest prefix whose characters all satisfy `p`. */
  function Span(s: string, p: char -> bool): (n: nat)
    ensures n <= |s| && (forall i :: 0 <= i < n ==> p(s[i])) && (n < |s| ==> !p(s[n]))
  {
    if s == "" || !p(s[0]) then 0 else 1 + Span(s[1..], p)
  }

  lemma {:induction false} SpanStops(a: string, b: string, p: char -> bool)
    requires forall i :: 0 <= i < |a| ==> p(a[i])
    requires b == "" || !p(b[0])
    ensures Span(a + b, p) == |a|
  {
    if a == "" {
      assert a + b == b;
    } else {
      assert (a + b)[1..] == a[1..] + b;
      SpanStops(a[1..], b, p);
    }
  }

  /** Reads an unsigned decimal with an optional fraction. */
  function ReadUnsigned(s: string, negative: bool): Option<Numeral> {
    var n := Span(s, IsDigit);
    if n == 0 then None
    else if n == |s| then Some(Decimal(negative, DigitsValue(s), 0))
    else
      var fraction := s[n + 1..];
      if s[n] == '.' && fraction != "" && Span(fraction, IsDigit) == |fraction| then
        Some(Decimal(negative, DigitsValue(s[..n] + fraction), |fraction|))
      else None
  }

  function ReadNumeral(s: string): Option<Numeral> {
    if s == "nan" then Some(NotANumber)
    else if s == "inf" then Some(Infinity(false))
    else if s == "-inf" then Some(Infinity(true))
    else if s != "" && s[0] == '-' then ReadUnsigned(s[1..], true)
    else ReadUnsigned(s, false)
  }

  lemma ReadUnsignedPrinted(negative: bool, scaled: nat, decimals: nat)
    ensures ReadUnsigned(PrintUnsigned(scaled, decimals), negative) == Some(Decimal(negative, scaled, decimals))
    ensures IsDigit(PrintUnsigned(scaled, decimals)[0])
  {
    var s := PrintUnsigned(scaled, decimals);
    var whole := Digits(DropDigits(scaled, decimals));
    if decimals == 0 {
      SpanStops(s, "", IsDigit);
      assert s + "" == s;
      DigitsRoundTrip(scaled);
    } else {
      var fraction := FixedDigits(scaled, decimals);
      SpanStops(whole, "." + fraction, IsDigit);
      assert s[..|whole|] == whole && s[|whole|] == '.' && s[|whole| + 1..] == fraction;
      SplitDigitsRoundTrip(scaled, decimals);
    }
  }

  lemma ReadSpecial(s: string)
    requires s != "" && IsDigit(s[0])
    ensures ReadNumeral(s) == ReadUnsigned(s, false)
    ensures ReadNumeral("-" + s) == ReadUnsigned(s, true)
  {
    var t := "-" + s;
    assert s[0] != 'n' && s[0] != 'i' && s[0] != '-';
    assert t[0] == '-' && t[1] == s[0] && t[1..] == s;
  }

  /** Reading undoes printing, for every numeral. */
  lemma ReadPrinted(v: Numeral)
    ensures ReadNumeral(Print(v)) == Some(v)
  {
    match v
    case NotANumber =>
    case Infinity(neg) =>
      assert "-" + "inf" == "-inf" && "" + "inf" == "inf";
    case Decimal(neg, scaled, decimals) =>
      hide ReadNumeral;
      ReadUnsignedPrinted(neg, scaled, decimals);
      ReadSpecial(PrintUnsigned(scaled, decimals));
      assert "" + PrintUnsigned(scaled, decimals) == PrintUnsigned(scaled, decimals);
  }

  lemma UnsignedCharacters(scaled: nat, decimals: nat)
    ensures forall c <- PrintUnsigned(scaled, decimals) :: IsDigit(c) || c == '.'
  {
    hide Digits, FixedDigits, DropDigits;
  }

  /** The characters a printed number can contain. */
  lemma PrintedCharacters(v: Numeral)
    ensures forall c :: c in Print(v) ==> c != '\n' && c != '"' && c != '\\' && c != '}' && c != '\0'
  {
    hide Digits, FixedDigits, DropDigits;
    match v
    case Decimal(_, scaled, decimals) => UnsignedCharacters(scaled, decimals);
    case _ =>
  }
}
