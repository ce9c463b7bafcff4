/**
 * The JavaScript string operations the converters rely on, written out over
 * `seq<char>`: `trim`, `startsWith`/`endsWith`/`includes`, `split` on one
 * character, `substring` (with its clamping and argument swap), ASCII case
 * mapping, decimal and hexadecimal digit strings, `padStart`, and the
 * U+4E00..U+9FFF ideograph test that the source writes as `/[一-鿿]/`.
 */
module JsText {

  /** The code points JavaScript counts as white space or line terminators (`trim`, `\s`). */
  predicate IsSpace(c: char) {
    || c == '\t' || c == '\n' || c == '\U{000B}' || c == '\U{000C}' || c == '\r' || c == ' '
    || c == '\U{00A0}' || c == '\U{1680}' || ('\U{2000}' <= c <= '\U{200A}')
    || c == '\U{2028}' || c == '\U{2029}' || c == '\U{202F}' || c == '\U{205F}'
    || c == '\U{3000}' || c == '\U{FEFF}'
  }

  predicate AllSpace(s: string) {
    forall i | 0 <= i < |s| :: IsSpace(s[i])
  }

  /** Number of leading white-space characters. */
  function LeadingSpaces(s: string): (k: nat)
    ensures k <= |s|
    ensures AllSpace(s[..k])
    ensures k < |s| ==> !IsSpace(s[k])
  {
    if |s| == 0 || !IsSpace(s[0]) then 0
    else
      var k := 1 + LeadingSpaces(s[1..]);
      assert s[..k] == [s[0]] + s[1..][..k - 1];
      k
  }

  /** Index where the trailing white space of `s` begins. */
  function TrailingStart(s: string): (k: nat)
    ensures k <= |s|
    ensures AllSpace(s[k..])
    ensures k > 0 ==> !IsSpace(s[k - 1])
  {
    if |s| == 0 || !IsSpace(s[|s| - 1]) then |s|
    else
      var k := TrailingStart(s[..|s| - 1]);
      assert s[k..] == s[..|s| - 1][k..] + [s[|s| - 1]];
      k
  }

  function TrimStart(s: string): string {
    s[LeadingSpaces(s)..]
  }

  function TrimEnd(s: string): string {
    s[..TrailingStart(s)]
  }

  /** No white space at either end. */
  predicate IsTrimmed(s: string) {
    |s| == 0 || (!IsSpace(s[0]) && !IsSpace(s[|s| - 1]))
  }

  /**
   * `String.prototype.trim`: `s` is white space, then `r`, then white space,
   * and `r` neither starts nor ends with white space.
   */
  function Trim(s: string): (r: string)
    ensures IsTrimmed(r)
    ensures LeadingSpaces(s) + |r| <= |s|
    ensures r == s[LeadingSpaces(s)..LeadingSpaces(s) + |r|]
    ensures AllSpace(s[LeadingSpaces(s) + |r|..])
    ensures r == [] <==> AllSpace(s)
  {
    var a := LeadingSpaces(s);
    var b := TrailingStart(s[a..]);
    TrimFacts(s, a, b);
    s[a..a + b]
  }

  lemma TrimFacts(s: string, a: nat, b: nat)
    requires a == LeadingSpaces(s) && b == TrailingStart(s[a..])
    ensures a + b <= |s|
    ensures IsTrimmed(s[a..a + b])
    ensures AllSpace(s[a + b..])
    ensures b == 0 <==> AllSpace(s)
  {
    SuffixOfSuffix(s, a, b);
    if b > 0 {
      TrimmedMiddle(s, a, b);
    } else {
      NoMiddle(s, a);
    }
  }

  lemma SuffixOfSuffix(s: string, a: nat, b: nat)
    requires a <= |s| && b <= |s| - a
    ensures s[a..][b..] == s[a + b..]
  {
  }

  /** When something is left between the leading and the trailing white space, it is trimmed. */
  lemma TrimmedMiddle(s: string, a: nat, b: nat)
    requires a == LeadingSpaces(s) && b == TrailingStart(s[a..]) && b > 0
    ensures IsTrimmed(s[a..a + b]) && !AllSpace(s)
  {
    var t := s[a..];
    assert !IsSpace(s[a]);
    assert !IsSpace(t[b - 1]);
    TrimmedSlice(s, a, b, t);
    NotAllSpace(s, a);
  }

  lemma TrimmedSlice(s: string, a: nat, b: nat, t: string)
    requires 0 < b && a + b <= |s| && t == s[a..]
    requires !IsSpace(s[a]) && !IsSpace(t[b - 1])
    ensures IsTrimmed(s[a..a + b])
  {
    var r := s[a..a + b];
    assert r[0] == s[a];
    assert r[|r| - 1] == t[b - 1];
  }

  lemma NotAllSpace(s: string, a: nat)
    requires a < |s| && !IsSpace(s[a])
    ensures !AllSpace(s)
  {
  }

  /** When nothing is left after the leading white space, the string is all white space. */
  lemma NoMiddle(s: string, a: nat)
    requires a == LeadingSpaces(s) && TrailingStart(s[a..]) == 0
    ensures AllSpace(s)
  {
    var t := s[a..];
    assert t[0..] == t;
    if a < |s| {
      assert false;
    }
    assert s[..a] == s;
  }

  /** Concatenation is associative. */
  lemma ConcatAssoc(a: string, b: string, c: string)
    ensures (a + b) + c == a + (b + c)
  {
  }

  /** Trimming a string that has no white space at its ends changes nothing. */
  lemma TrimOfTrimmed(s: string)
    requires IsTrimmed(s)
    ensures Trim(s) == s
  {
    if |s| > 0 {
      assert LeadingSpaces(s) == 0;
      assert TrailingStart(s) == |s|;
    }
  }

  predicate StartsWith(s: string, p: string) {
    |p| <= |s| && s[..|p|] == p
  }

  predicate EndsWith(s: string, p: string) {
    |p| <= |s| && s[|s| - |p|..] == p
  }

  /** `s.includes(sub)`. */
  predicate Contains(s: string, sub: string)
    decreases |s|
  {
    StartsWith(s, sub) || (|s| > 0 && Contains(s[1..], sub))
  }

  function LowerChar(c: char): char {
    if 'A' <= c <= 'Z' then (c as int + 32) as char else c
  }

  function UpperChar(c: char): char {
    if 'a' <= c <= 'z' then (c as int - 32) as char else c
  }

  /** `toLowerCase`, for the ASCII letters. */
  function ToLower(s: string): (r: string)
    ensures |r| == |s|
    ensures forall i | 0 <= i < |s| :: r[i] == LowerChar(s[i])
  {
    seq(|s|, i requires 0 <= i < |s| => LowerChar(s[i]))
  }

  /** `toUpperCase`, for the ASCII letters. */
  function ToUpper(s: string): (r: string)
    ensures |r| == |s|
    ensures forall i | 0 <= i < |s| :: r[i] == UpperChar(s[i])
  {
    seq(|s|, i requires 0 <= i < |s| => UpperChar(s[i]))
  }

  /** Index of the first `c` in `s`, or `|s|` when there is none. */
  function IndexOfChar(s: string, c: char): (k: nat)
    ensures k <= |s|
    ensures k < |s| ==> s[k] == c
    ensures c !in s[..k]
  {
    if |s| == 0 then 0
    else if s[0] == c then 0
    else
      var k := 1 + IndexOfChar(s[1..], c);
      assert s[..k] == [s[0]] + s[1..][..k - 1];
      k
  }

  /** `s.replace(c, "")` for a one-character pattern: the first occurrence is removed. */
  function RemoveFirst(s: string, c: char): (r: string)
    ensures c in s ==> |r| == |s| - 1
    ensures c !in s ==> r == s
  {
    var k := IndexOfChar(s, c);
    if k == |s| then
      assert s[..k] == s;
      s
    else s[..k] + s[k + 1..]
  }

  /** A leading `c` is the one removed. */
  lemma RemoveLeading(s: string, c: char)
    ensures |s| > 0 && s[0] == c ==> RemoveFirst(s, c) == s[1..]
  {
    if |s| > 0 && s[0] == c {
      assert IndexOfChar(s, c) == 0;
    }
  }

  /** `s.replace(/c/g, d)`: every `c` replaced by `d`; the length is kept. */
  function ReplaceChar(s: string, c: char, d: char): (r: string)
    ensures |r| == |s|
    ensures forall i | 0 <= i < |s| :: r[i] == (if s[i] == c then d else s[i])
  {
    seq(|s|, i requires 0 <= i < |s| => if s[i] == c then d else s[i])
  }

  /** `s.split(d)` for a one-character separator: the pieces between separators. */
  function Split(s: string, d: char): (r: seq<string>)
    ensures |r| >= 1
    ensures forall k | 0 <= k < |r| :: d !in r[k]
    decreases |s|
  {
    var k := IndexOfChar(s, d);
    if k == |s| then
      assert s[..k] == s;
      [s]
    else [s[..k]] + Split(s[k + 1..], d)
  }

  /** `parts.join(d)`. */
  function Join(parts: seq<string>, d: char): string
    requires |parts| >= 1
  {
    if |parts| == 1 then parts[0] else parts[0] + [d] + Join(parts[1..], d)
  }

  /** Splitting and re-joining on the same separator gives the original string back. */
  lemma {:induction false} JoinSplit(s: string, d: char)
    ensures Join(Split(s, d), d) == s
    decreases |s|
  {
    var k := IndexOfChar(s, d);
    if k == |s| {
      assert s[..k] == s;
    } else {
      var rest := s[k + 1..];
      JoinSplit(rest, d);
      SplitAtFirst(s, d);
      JoinCons(s[..k], Split(rest, d), d);
      AroundChar(s, k);
    }
  }

  /** With a separator in `s`, the split is the text before the first one and the split of the rest. */
  lemma SplitAtFirst(s: string, d: char)
    requires IndexOfChar(s, d) < |s|
    ensures Split(s, d) == [s[..IndexOfChar(s, d)]] + Split(s[IndexOfChar(s, d) + 1..], d)
  {
  }

  /** A string is what comes before position `k`, the character there, and what comes after. */
  lemma AroundChar(s: string, k: nat)
    requires k < |s|
    ensures s == s[..k] + [s[k]] + s[k + 1..]
  {
  }

  /** Joining a first piece in front of at least one more. */
  lemma JoinCons(a: string, rest: seq<string>, d: char)
    requires |rest| >= 1
    ensures Join([a] + rest, d) == a + [d] + Join(rest, d)
  {
    assert ([a] + rest)[1..] == rest;
  }

  /** Joining pieces free of the separator and splitting again gives the pieces back. */
  lemma {:induction false} SplitJoin(parts: seq<string>, d: char)
    requires |parts| >= 1 && forall k | 0 <= k < |parts| :: d !in parts[k]
    ensures Split(Join(parts, d), d) == parts
    decreases |parts|
  {
    var a := parts[0];
    if |parts| == 1 {
      assert IndexOfChar(a, d) == |a|;
      assert a[..|a|] == a;
    } else {
      var rest := Join(parts[1..], d);
      SplitAtSeparator(Join(parts, d), a, rest, d);
      SplitJoin(parts[1..], d);
      assert parts == [a] + parts[1..];
    }
  }

  /** A separator-free piece followed by the separator splits off as the first piece. */
  lemma SplitAtSeparator(s: string, a: string, rest: string, d: char)
    requires s == a + [d] + rest && d !in a
    ensures Split(s, d) == [a] + Split(rest, d)
  {
    var k := IndexOfChar(s, d);
    assert s[|a|] == d;
    assert s[..k] == a && s[k + 1..] == rest;
  }

  /** A character absent from every piece and different from the separator is absent from the join. */
  lemma {:induction false} JoinAvoids(parts: seq<string>, d: char, c: char)
    requires |parts| >= 1 && c != d && forall k | 0 <= k < |parts| :: c !in parts[k]
    ensures c !in Join(parts, d)
    decreases |parts|
  {
    if |parts| > 1 {
      JoinAvoids(parts[1..], d, c);
      assert Join(parts, d) == parts[0] + [d] + Join(parts[1..], d);
    }
  }

  /** A piece with a non-space character makes the whole join non-blank. */
  lemma {:induction false} JoinNotAllSpace(parts: seq<string>, d: char, k: nat)
    requires k < |parts| && !AllSpace(parts[k])
    ensures !AllSpace(Join(parts, d))
    decreases |parts|
  {
    var s := Join(parts, d);
    if |parts| > 1 {
      assert s == parts[0] + [d] + Join(parts[1..], d);
      if k == 0 {
        var i :| 0 <= i < |parts[0]| && !IsSpace(parts[0][i]);
        assert s[i] == parts[0][i];
      } else {
        JoinNotAllSpace(parts[1..], d, k - 1);
        var rest := Join(parts[1..], d);
        var i :| 0 <= i < |rest| && !IsSpace(rest[i]);
        assert s[|parts[0]| + 1 + i] == rest[i];
      }
    }
  }

  /** `s.split(/\r?\n/)`: the pieces between line feeds, a carriage return before each line feed dropped. */
  function SplitLines(s: string): (r: seq<string>)
    ensures |r| == |Split(s, '\n')|
  {
    var parts := Split(s, '\n');
    seq(|parts|, i requires 0 <= i < |parts| =>
      if i < |parts| - 1 && |parts[i]| > 0 && parts[i][|parts[i]| - 1] == '\r'
      then parts[i][..|parts[i]| - 1] else parts[i])
  }

  /** Number of occurrences of `c` in `s`. */
  function CountChar(s: string, c: char): nat {
    if |s| == 0 then 0 else (if s[0] == c then 1 else 0) + CountChar(s[1..], c)
  }

  /** A string split on `d` has one more piece than it has separators. */
  lemma {:induction false} SplitCount(s: string, d: char)
    ensures |Split(s, d)| == CountChar(s, d) + 1
    decreases |s|
  {
    var k := IndexOfChar(s, d);
    CountAppend(s[..k], s[k..], d);
    assert s == s[..k] + s[k..];
    NoCharCount(s[..k], d);
    if k == |s| {
      assert s[..k] == s;
    } else {
      SplitCount(s[k + 1..], d);
      assert s[k..] == [d] + s[k + 1..];
      CountAppend([d], s[k + 1..], d);
    }
  }

  lemma {:induction false} CountAppend(a: string, b: string, c: char)
    ensures CountChar(a + b, c) == CountChar(a, c) + CountChar(b, c)
    decreases |a|
  {
    if |a| > 0 {
      assert (a + b)[1..] == a[1..] + b;
      CountAppend(a[1..], b, c);
    } else {
      assert a + b == b;
    }
  }

  lemma {:induction false} NoCharCount(a: string, c: char)
    requires c !in a
    ensures CountChar(a, c) == 0
    decreases |a|
  {
    if |a| > 0 {
      assert a[0] != c;
      assert forall x | x in a[1..] :: x in a;
      NoCharCount(a[1..], c);
    }
  }

  function Min(a: int, b: int): int {
    if a <= b then a else b
  }

  function Max(a: int, b: int): int {
    if a >= b then a else b
  }

  /** `v` clamped into [lo, hi]. */
  function Clamp(v: int, lo: int, hi: int): (r: int)
    requires lo <= hi
    ensures lo <= r <= hi
    ensures lo <= v <= hi ==> r == v
  {
    if v < lo then lo else if v > hi then hi else v
  }

  /**
   * `s.substring(a, b)`: both ends clamped into [0, |s|] and swapped when the
   * first exceeds the second.
   */
  function Substring(s: string, a: int, b: int): (r: string)
    ensures 0 <= a <= b <= |s| ==> r == s[a..b]
    ensures |r| <= |s|
  {
    var x := Clamp(a, 0, |s|);
    var y := Clamp(b, 0, |s|);
    if x <= y then s[x..y] else s[y..x]
  }

  /** `s.substring(a)`: from `a` (clamped) to the end. */
  function SubstringFrom(s: string, a: int): (r: string)
    ensures 0 <= a <= |s| ==> r == s[a..]
  {
    s[Clamp(a, 0, |s|)..]
  }

  predicate IsDigit(c: char) {
    '0' <= c <= '9'
  }

  function DigitChar(d: nat): (c: char)
    requires d < 10
    ensures IsDigit(c)
  {
    ('0' as int + d) as char
  }

  function DigitValue(c: char): (d: nat)
    requires IsDigit(c)
    ensures d < 10
  {
    c as int - '0' as int
  }

  /** The decimal text of `n` (`n.toString()`), without leading zeros. */
  function NatToString(n: nat): (r: string)
    ensures |r| >= 1
    ensures forall i | 0 <= i < |r| :: IsDigit(r[i])
  {
    if n < 10 then [DigitChar(n)] else NatToString(n / 10) + [DigitChar(n % 10)]
  }

  predicate AllDigits(s: string) {
    forall i | 0 <= i < |s| :: IsDigit(s[i])
  }

  /** The number a string of decimal digits denotes. */
  function DigitsValue(s: string): nat
    requires AllDigits(s)
  {
    if |s| == 0 then 0 else 10 * DigitsValue(s[..|s| - 1]) + DigitValue(s[|s| - 1])
  }

  /** Reading back the decimal text of `n` gives `n`. */
  lemma {:induction false} DigitsValueOfNatToString(n: nat)
    ensures DigitsValue(NatToString(n)) == n
  {
    var r := NatToString(n);
    if n >= 10 {
      DigitsValueOfNatToString(n / 10);
      assert r[..|r| - 1] == NatToString(n / 10);
    }
  }

  /** Distinct numbers have distinct decimal texts. */
  lemma NatToStringInjective(a: nat, b: nat)
    requires NatToString(a) == NatToString(b)
    ensures a == b
  {
    DigitsValueOfNatToString(a);
    DigitsValueOfNatToString(b);
  }

  function HexChar(d: nat): (c: char)
    requires d < 16
  {
    if d < 10 then DigitChar(d) else ('a' as int + d - 10) as char
  }

  predicate IsHexDigit(c: char) {
    IsDigit(c) || 'a' <= c <= 'f' || 'A' <= c <= 'F'
  }

  predicate IsLowerHexDigit(c: char) {
    IsDigit(c) || 'a' <= c <= 'f'
  }

  function HexValue(c: char): (d: nat)
    requires IsHexDigit(c)
    ensures d < 16
  {
    if IsDigit(c) then DigitValue(c)
    else if 'a' <= c <= 'f' then c as int - 'a' as int + 10
    else c as int - 'A' as int + 10
  }

  /** `n.toString(16)`: lower-case hexadecimal digits without leading zeros. */
  function HexString(n: nat): (r: string)
    ensures |r| >= 1
    ensures forall i | 0 <= i < |r| :: IsLowerHexDigit(r[i])
    ensures n < 16 ==> |r| == 1
    ensures 16 <= n < 256 ==> |r| == 2
  {
    if n < 16 then [HexChar(n)] else HexString(n / 16) + [HexChar(n % 16)]
  }

  /** `s.padStart(2, "0")`. */
  function PadStart2(s: string): (r: string)
    ensures |s| >= 2 ==> r == s
    ensures |s| < 2 ==> |r| == 2
  {
    if |s| >= 2 then s else seq(2 - |s|, _ => '0') + s
  }

  /** A CJK unified ideograph, U+4E00..U+9FFF. */
  predicate IsCjk(c: char) {
    '\U{4E00}' <= c <= '\U{9FFF}'
  }

  predicate HasCjk(s: string) {
    exists i | 0 <= i < |s| :: IsCjk(s[i])
  }

  /** Number of U+4E00..U+9FFF characters in `s`. */
  function CountCjk(s: string): (n: nat)
    ensures n <= |s|
    ensures n > 0 <==> HasCjk(s)
  {
    if |s| == 0 then 0
    else
      var n := (if IsCjk(s[0]) then 1 else 0) + CountCjk(s[1..]);
      assert HasCjk(s[1..]) ==> HasCjk(s) by {
        if HasCjk(s[1..]) {
          var i :| 0 <= i < |s[1..]| && IsCjk(s[1..][i]);
          assert IsCjk(s[i + 1]);
        }
      }
      assert HasCjk(s) && !IsCjk(s[0]) ==> HasCjk(s[1..]) by {
        if HasCjk(s) && !IsCjk(s[0]) {
          var i :| 0 <= i < |s| && IsCjk(s[i]);
          assert i > 0 && IsCjk(s[1..][i - 1]);
        }
      }
      n
  }
}
