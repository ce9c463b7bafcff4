/**
 * The JavaScript number operations the converters rely on, over exact
 * rationals: `Number(string)`, `parseInt`, `parseFloat`, `Math.round`,
 * `Math.ceil` and `String(number)`.
 */
module JsNumber {
  import opened Wrappers
  import opened JsText

  /** A JavaScript number: NaN, an infinity, or a finite value. */
  datatype Num = NaN | PosInf | NegInf | Finite(value: real)

  /** `Math.round`: the nearest integer, halves rounded up. */
  function Round(x: real): (r: int)
    ensures x - 0.5 < r as real <= x + 0.5
  {
    (x + 0.5).Floor
  }

  /** `Math.ceil`. */
  function Ceil(x: real): (r: int)
    ensures x <= r as real < x + 1.0
  {
    if x.Floor as real == x then x.Floor else x.Floor + 1
  }

  /** `Math.max` on finite numbers. */
  function MaxReal(a: real, b: real): (r: real)
    ensures r >= a && r >= b && (r == a || r == b)
  {
    if a >= b then a else b
  }

  /** `Math.min` on finite numbers. */
  function MinReal(a: real, b: real): (r: real)
    ensures r <= a && r <= b && (r == a || r == b)
  {
    if a <= b then a else b
  }

  lemma RoundOfInt(n: int)
    ensures Round(n as real) == n
  {
  }

  function Pow10(n: nat): (r: nat)
    ensures r >= 1
  {
    if n == 0 then 1 else 10 * Pow10(n - 1)
  }

  /** Number of leading characters of `s` that satisfy the digit test of `hex`/decimal. */
  function DigitPrefix(s: string): (k: nat)
    ensures k <= |s|
    ensures AllDigits(s[..k])
    ensures k < |s| ==> !IsDigit(s[k])
  {
    if |s| == 0 || !IsDigit(s[0]) then 0
    else
      var k := 1 + DigitPrefix(s[1..]);
      assert s[..k] == [s[0]] + s[1..][..k - 1];
      k
  }

  /** The value of a string of digits read as a fraction `0.ddd`. */
  function FractionValue(s: string): real
    requires AllDigits(s)
  {
    DigitsValue(s) as real / Pow10(|s|) as real
  }

  /** `10^e` for a signed exponent. */
  function Scale(e: int): (r: real)
    ensures r > 0.0
  {
    if e >= 0 then Pow10(e) as real else 1.0 / Pow10(-e) as real
  }

  /** `m` times `10^e`; with no exponent, `m` itself. */
  function Scaled(m: real, e: int): (r: real)
    ensures e == 0 ==> r == m
  {
    m * Scale(e)
  }

  /**
   * An unsigned `StrDecimalLiteral` (digits, optional `.` and fraction, optional
   * exponent) occupying all of `s`, or None when `s` is not one.
   */
  function UnsignedDecimal(s: string): Option<real> {
    var k1 := DigitPrefix(s);
    var hasDot := k1 < |s| && s[k1] == '.';
    var k2 := if hasDot then DigitPrefix(s[k1 + 1..]) else 0;
    var mEnd := if hasDot then k1 + 1 + k2 else k1;
    if k1 + k2 == 0 then None
    else
      var m := Mantissa(s[..k1], if hasDot then s[k1 + 1..][..k2] else []);
      match Exponent(s[mEnd..])
      case None => None
      case Some(e) => Some(Scaled(m, e))
  }

  function Mantissa(intPart: string, frac: string): real
    requires AllDigits(intPart) && AllDigits(frac)
  {
    DigitsValue(intPart) as real + FractionValue(frac)
  }

  /** The exponent denoted by `s` (empty, or `e`/`E`, optional sign, digits), or None. */
  function Exponent(s: string): Option<int> {
    if |s| == 0 then Some(0)
    else if s[0] != 'e' && s[0] != 'E' then None
    else
      var neg := |s| > 1 && s[1] == '-';
      var digits := if |s| > 1 && (s[1] == '-' || s[1] == '+') then s[2..] else s[1..];
      if |digits| == 0 || !AllDigits(digits) then None
      else
        var x := DigitsValue(digits);
        Some(if neg then -(x as int) else x as int)
  }

  /** Value of a non-empty string of digits in base 16, 8 or 2, or None. */
  function RadixValue(s: string, radix: nat): Option<nat>
    requires radix == 2 || radix == 8 || radix == 16
  {
    if |s| == 0 then None
    else
      var last := s[|s| - 1];
      if !IsHexDigit(last) || HexValue(last) >= radix then None
      else if |s| == 1 then Some(HexValue(last))
      else
        match RadixValue(s[..|s| - 1], radix)
        case None => None
        case Some(v) => Some(Shift(v, radix) + HexValue(last))
  }

  /**
   * `Number(s)` for a string: surrounding white space is ignored, the empty
   * string is 0, `0x`/`0o`/`0b` prefixes select a radix (unsigned only),
   * `Infinity` may be signed, anything else must be a signed decimal literal.
   */
  function ToNumber(s: string): (r: Num)
    ensures AllSpace(s) ==> r == Finite(0.0)
  {
    var t := Trim(s);
    if |t| == 0 then Finite(0.0)
    else if |t| > 2 && t[0] == '0' && (t[1] == 'x' || t[1] == 'X') then
      FromNat(RadixValue(t[2..], 16))
    else if |t| > 2 && t[0] == '0' && (t[1] == 'o' || t[1] == 'O') then
      FromNat(RadixValue(t[2..], 8))
    else if |t| > 2 && t[0] == '0' && (t[1] == 'b' || t[1] == 'B') then
      FromNat(RadixValue(t[2..], 2))
    else
      var neg := t[0] == '-';
      var body := if t[0] == '-' || t[0] == '+' then t[1..] else t;
      if body == "Infinity" then (if neg then NegInf else PosInf)
      else
        match UnsignedDecimal(body)
        case None => NaN
        case Some(v) => Finite(if neg then -v else v)
  }

  function FromNat(v: Option<nat>): Num {
    match v
    case None => NaN
    case Some(n) => Finite(n as real)
  }

  /** `isFinite(Number(s))` together with `Number(s)`. */
  predicate IsFiniteNumber(s: string) {
    ToNumber(s).Finite?
  }

  /** Reading the decimal text of a natural number gives that number back. */
  lemma ToNumberOfNatToString(n: nat)
    ensures ToNumber(NatToString(n)) == Finite(n as real)
  {
    DigitsToNumber(NatToString(n));
    DigitsValueOfNatToString(n);
  }

  /** A non-empty run of decimal digits, leading zeros and all, reads as its digit value. */
  lemma DigitsToNumber(s: string)
    requires |s| > 0 && AllDigits(s)
    ensures Trim(s) == s
    ensures ToNumber(s) == Finite(DigitsValue(s) as real)
  {
    DigitsArePlain(s);
    UnsignedDecimalOfDigits(s);
    PlainDecimalText(s);
  }

  /** Digit text is trimmed and has no sign, no radix prefix, and is not `Infinity`. */
  lemma DigitsArePlain(s: string)
    requires |s| > 0 && AllDigits(s)
    ensures Trim(s) == s && s[0] != '-' && s[0] != '+' && s != "Infinity"
    ensures |s| > 2 && s[0] == '0' ==> s[1] !in "xXoObB"
  {
    assert IsDigit(s[0]) && IsDigit(s[|s| - 1]);
    TrimOfTrimmed(s);
    assert s != "Infinity" by { assert IsDigit(s[0]); }
    assert |s| > 2 ==> IsDigit(s[1]);
  }

  /** Trimmed text with no sign, no radix prefix and other than `Infinity` reads as an unsigned decimal literal. */
  lemma PlainDecimalText(t: string)
    requires |t| > 0 && Trim(t) == t && t[0] != '-' && t[0] != '+' && t != "Infinity"
    requires |t| > 2 && t[0] == '0' ==> t[1] !in "xXoObB"
    ensures UnsignedDecimal(t).None? ==> ToNumber(t) == NaN
    ensures UnsignedDecimal(t).Some? ==> ToNumber(t) == Finite(UnsignedDecimal(t).value)
  {
  }

  /** Trimmed text that starts with no digit, dot, sign or `I` is not a number. */
  lemma NonNumericText(s: string)
    requires |s| > 0 && IsTrimmed(s)
    requires !IsDigit(s[0]) && s[0] !in ".+-I"
    ensures ToNumber(s) == NaN
  {
    TrimOfTrimmed(s);
    assert s != "Infinity";
    assert DigitPrefix(s) == 0;
  }

  /** A non-empty string of decimal digits is an unsigned decimal literal with its digit value. */
  lemma UnsignedDecimalOfDigits(s: string)
    requires |s| > 0 && AllDigits(s)
    ensures UnsignedDecimal(s) == Some(DigitsValue(s) as real)
  {
    DigitPrefixAll(s);
    UnsignedDecimalNoTail(s);
    MantissaOfDigits(s);
  }

  lemma MantissaOfDigits(s: string)
    requires AllDigits(s)
    ensures Mantissa(s, []) == DigitsValue(s) as real
  {
    assert FractionValue([]) == 0.0;
  }

  lemma UnsignedDecimalNoTail(s: string)
    requires |s| > 0 && AllDigits(s) && DigitPrefix(s) == |s|
    ensures UnsignedDecimal(s) == Some(Mantissa(s, []))
  {
    assert s[..|s|] == s;
    assert s[|s|..] == [];
    assert Exponent([]) == Some(0);
  }

  lemma {:induction false} DigitPrefixAll(s: string)
    requires AllDigits(s)
    ensures DigitPrefix(s) == |s|
    decreases |s|
  {
    if |s| > 0 {
      DigitPrefixAll(s[1..]);
    }
  }

  /**
   * `parseInt(s, radix)` for radix 10 or 16: leading white space and a sign
   * are skipped, for radix 16 an optional `0x`, then the longest run of
   * digits of that radix is read; no digit gives NaN.
   */
  function ParseInt(s: string, radix: nat): (r: Num)
    requires radix == 10 || radix == 16
    ensures r.Finite? ==> exists i | 0 <= i < |s| :: IsRadixDigit(s[i], radix)
  {
    var t := s[LeadingSpaces(s)..];
    var neg := |t| > 0 && t[0] == '-';
    var u := if |t| > 0 && (t[0] == '-' || t[0] == '+') then t[1..] else t;
    var w := if radix == 16 && |u| >= 2 && u[0] == '0' && (u[1] == 'x' || u[1] == 'X') then u[2..] else u;
    var k := RadixPrefix(w, radix);
    if k == 0 then NaN
    else
      assert w[0] in s;
      var v := PrefixValue(w[..k], radix);
      Finite(if neg then -(v as real) else v as real)
  }

  /**
   * `parseInt(s)` with no radix: hexadecimal when the digits (after white space
   * and a sign) start with `0x` or `0X`, decimal otherwise.
   */
  function ParseIntAuto(s: string): (r: Num)
    ensures r.Finite? ==> exists i | 0 <= i < |s| :: IsHexDigit(s[i])
  {
    var t := s[LeadingSpaces(s)..];
    var u := if |t| > 0 && (t[0] == '-' || t[0] == '+') then t[1..] else t;
    if |u| >= 2 && u[0] == '0' && (u[1] == 'x' || u[1] == 'X') then ParseInt(s, 16) else ParseInt(s, 10)
  }

  predicate IsRadixDigit(c: char, radix: nat) {
    IsHexDigit(c) && HexValue(c) < radix
  }

  function RadixPrefix(s: string, radix: nat): (k: nat)
    ensures k <= |s|
    ensures forall i | 0 <= i < k :: IsRadixDigit(s[i], radix)
    ensures k < |s| ==> !IsRadixDigit(s[k], radix)
  {
    if |s| == 0 || !IsRadixDigit(s[0], radix) then 0
    else 1 + RadixPrefix(s[1..], radix)
  }

  function PrefixValue(s: string, radix: nat): nat
    requires forall i | 0 <= i < |s| :: IsRadixDigit(s[i], radix)
  {
    if |s| == 0 then 0
    else
      assert forall i | 0 <= i < |s| - 1 :: s[..|s| - 1][i] == s[i];
      assert IsRadixDigit(s[|s| - 1], radix);
      Shift(PrefixValue(s[..|s| - 1], radix), radix) + HexValue(s[|s| - 1])
  }

  function Shift(v: nat, radix: nat): nat {
    v * radix
  }

  lemma HexValueOfHexChar(d: nat)
    requires d < 16
    ensures IsHexDigit(HexChar(d)) && HexValue(HexChar(d)) == d
  {
  }

  /** A two-digit string of hexadecimal digits is read as `16·hi + lo`. */
  lemma ParseIntTwoHexDigits(a: char, b: char)
    requires IsHexDigit(a) && IsHexDigit(b)
    ensures ParseInt([a, b], 16) == Finite((16 * HexValue(a) + HexValue(b)) as real)
  {
    var h := [a, b];
    assert LeadingSpaces(h) == 0 by { assert !IsSpace(a); }
    assert h[0..] == h;
    assert !(b == 'x' || b == 'X');
    assert RadixPrefix(h[2..], 16) == 0;
    assert RadixPrefix(h[1..], 16) == 1;
    assert RadixPrefix(h, 16) == 2;
    assert h[..2] == h;
    assert h[..1] == [a];
    assert [a][..0] == [];
    assert PrefixValue([a], 16) == HexValue(a);
    assert PrefixValue(h, 16) == Shift(HexValue(a), 16) + HexValue(b);
  }

  /** Two hexadecimal digits read back by `parseInt(_, 16)`. */
  lemma ParseIntHexPair(n: nat)
    requires n < 256
    ensures ParseInt(PadStart2(HexString(n)), 16) == Finite(n as real)
  {
    if n < 16 {
      HexPairOneDigit(n);
    } else {
      HexPairTwoDigits(n);
    }
  }

  lemma HexPairOneDigit(n: nat)
    requires n < 16
    ensures ParseInt(PadStart2(HexString(n)), 16) == Finite(n as real)
  {
    assert PadStart2(HexString(n)) == ['0', HexChar(n)];
    HexValueOfHexChar(n);
    ParseIntTwoHexDigits('0', HexChar(n));
  }

  lemma HexPairTwoDigits(n: nat)
    requires 16 <= n < 256
    ensures ParseInt(PadStart2(HexString(n)), 16) == Finite(n as real)
  {
    assert HexString(n / 16) == [HexChar(n / 16)];
    assert PadStart2(HexString(n)) == [HexChar(n / 16), HexChar(n % 16)];
    HexValueOfHexChar(n / 16);
    HexValueOfHexChar(n % 16);
    ParseIntTwoHexDigits(HexChar(n / 16), HexChar(n % 16));
  }

  /**
   * `parseFloat(s)`: leading white space skipped, then the longest prefix
   * that is a signed decimal literal (or `Infinity`); otherwise NaN.
   */
  function ParseFloat(s: string): (r: Num)
    ensures r != NaN ==> exists i | 0 <= i < |s| :: !IsSpace(s[i])
  {
    var t := s[LeadingSpaces(s)..];
    var neg := |t| > 0 && t[0] == '-';
    var u := if |t| > 0 && (t[0] == '-' || t[0] == '+') then t[1..] else t;
    var k1 := DigitPrefix(u);
    var hasDot := k1 < |u| && u[k1] == '.';
    var k2 := if hasDot then DigitPrefix(u[k1 + 1..]) else 0;
    var mEnd := if hasDot then k1 + 1 + k2 else k1;
    if k1 + k2 == 0 then
      if StartsWith(u, "Infinity") then (if neg then NegInf else PosInf) else NaN
    else
      var eLen := ExponentPrefix(u[mEnd..]);
      match UnsignedDecimal(u[..mEnd + eLen])
      case None => NaN
      case Some(v) => Finite(if neg then -v else v)
  }

  /** Length of a complete exponent part (`e`, optional sign, digits) at the start of `s`, or 0. */
  function ExponentPrefix(s: string): (k: nat)
    ensures k <= |s|
  {
    if |s| == 0 || (s[0] != 'e' && s[0] != 'E') then 0
    else
      var signLen := if |s| > 1 && (s[1] == '+' || s[1] == '-') then 1 else 0;
      var d := DigitPrefix(s[1 + signLen..]);
      if d == 0 then 0 else 1 + signLen + d
  }

  /** Fraction digits of `x` in [0, 1), at most `fuel` of them, trailing zeros dropped. */
  function FractionDigits(x: real, fuel: nat): (r: string)
    requires 0.0 <= x < 1.0
    ensures AllDigits(r)
    ensures |r| <= fuel
    ensures x == 0.0 ==> r == []
    decreases fuel
  {
    if fuel == 0 || x == 0.0 then []
    else
      var d := (x * 10.0).Floor;
      assert 0 <= d < 10;
      var rest := FractionDigits(x * 10.0 - d as real, fuel - 1);
      if rest == [] && d == 0 then [] else [DigitChar(d)] + rest
  }

  /**
   * `String(x)` for a finite number: the integer digits, then `.` and the
   * fraction digits (at most 20) when there is a fraction.
   */
  function NumberText(x: real): (r: string)
    ensures |r| >= 1
  {
    var neg := x < 0.0;
    var a := if neg then -x else x;
    var ip := a.Floor;
    var fd := FractionDigits(a - ip as real, 20);
    (if neg && (ip > 0 || fd != []) then "-" else "")
      + NatToString(ip) + (if fd == [] then "" else "." + fd)
  }

  /** The text of a whole number is its decimal digits. */
  lemma NumberTextOfNat(n: nat)
    ensures NumberText(n as real) == NatToString(n)
  {
    assert (n as real).Floor == n;
  }

  /** `String(n)` for any JavaScript number. */
  function NumText(n: Num): (r: string)
    ensures |r| >= 1
  {
    match n
    case NaN => "NaN"
    case PosInf => "Infinity"
    case NegInf => "-Infinity"
    case Finite(v) => NumberText(v)
  }
}
