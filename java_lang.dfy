/**
 * The small pieces of the Java platform that the modelled code leans on:
 * 32-bit hash arithmetic, ASCII case folding, decimal integers and the
 * `String.split` / `lastIndexOf` lookups.
 */
module JavaLang {
  import opened Wrappers

  // ---------------------------------------------------------------------
  // 32-bit integers and hash codes
  // ---------------------------------------------------------------------

  const INT_MIN: int := -0x8000_0000
  const INT_MAX: int := 0x7FFF_FFFF

  /** A value of Java's `int`. */
  type Int32 = x: int | INT_MIN <= x <= INT_MAX

  /** Two's-complement wrap-around of an unbounded integer into `int`. */
  function Wrap(x: int): (r: Int32)
    ensures (r - x) % 0x1_0000_0000 == 0
    ensures INT_MIN <= x <= INT_MAX ==> r == x
  {
    (x - INT_MIN) % 0x1_0000_0000 + INT_MIN
  }

  /** `Boolean.hashCode`. */
  function BooleanHash(b: bool): Int32 {
    if b then 1231 else 1237
  }

  /** `String.hashCode`: h = 31 * h + c over the characters, in `int` arithmetic. */
  function StringHash(s: string): Int32 {
    if s == [] then 0 else Wrap(31 * StringHash(s[..|s| - 1]) + s[|s| - 1] as int)
  }

  /**
   * `Arrays.hashCode` of the element hash codes, which is what `Objects.hash`
   * and Guava's `Objects.hashCode` compute: start at 1, then 31 * h + e.
   */
  function HashAll(hs: seq<Int32>): Int32 {
    if hs == [] then 1 else Wrap(31 * HashAll(hs[..|hs| - 1]) + hs[|hs| - 1])
  }

  // ---------------------------------------------------------------------
  // ASCII case folding (Unicode case folding is not modelled)
  // ---------------------------------------------------------------------

  predicate IsAsciiUpper(c: char) { 'A' <= c <= 'Z' }

  predicate IsAsciiLower(c: char) { 'a' <= c <= 'z' }

  predicate IsAsciiDigit(c: char) { '0' <= c <= '9' }

  predicate IsAsciiAlphanumeric(c: char) { IsAsciiUpper(c) || IsAsciiLower(c) || IsAsciiDigit(c) }

  function ToLowerChar(c: char): (r: char)
    ensures !IsAsciiUpper(r)
    ensures IsAsciiUpper(c) ==> r as int == c as int + 32
    ensures !IsAsciiUpper(c) ==> r == c
  {
    if IsAsciiUpper(c) then (c as int + 32) as char else c
  }

  /** `toLowerCase(Locale.ROOT)`, restricted to ASCII letters. */
  function ToLowerCase(s: string): (r: string)
    ensures |r| == |s|
    ensures forall i :: 0 <= i < |s| ==> r[i] == ToLowerChar(s[i])
  {
    if s == [] then [] else ToLowerCase(s[..|s| - 1]) + [ToLowerChar(s[|s| - 1])]
  }

  /** `equalsIgnoreCase`, with ASCII case folding. */
  predicate EqualsIgnoreCase(a: string, b: string) {
    |a| == |b| && forall i :: 0 <= i < |a| ==> ToLowerChar(a[i]) == ToLowerChar(b[i])
  }

  lemma EqualsIgnoreCaseReflexive(a: string)
    ensures EqualsIgnoreCase(a, a)
  {
  }

  lemma {:induction false} EqualsIgnoreCaseLowered(a: string)
    ensures EqualsIgnoreCase(ToLowerCase(a), a)
    ensures EqualsIgnoreCase(a, ToLowerCase(a))
  {
    forall i | 0 <= i < |a| ensures ToLowerChar(ToLowerCase(a)[i]) == ToLowerChar(a[i]) {
      assert ToLowerCase(a)[i] == ToLowerChar(a[i]);
    }
  }

  // ---------------------------------------------------------------------
  // Decimal integers (optional sign and ASCII digits only)
  // ---------------------------------------------------------------------

  predicate AllDigits(s: string) {
    forall i :: 0 <= i < |s| ==> IsAsciiDigit(s[i])
  }

  function DigitValue(c: char): (d: nat)
    requires IsAsciiDigit(c)
    ensures d < 10
  {
    c as int - '0' as int
  }

  function DigitChar(d: nat): (c: char)
    requires d < 10
    ensures IsAsciiDigit(c) && DigitValue(c) == d
  {
    ('0' as int + d) as char
  }

  /** The value of a run of decimal digits, most significant first. */
  function DigitsValue(s: string): nat
    requires AllDigits(s)
  {
    if s == [] then 0 else 10 * DigitsValue(s[..|s| - 1]) + DigitValue(s[|s| - 1])
  }

  /**
   * `Integer.parseInt(s, 10)` without its `int` bound: an optional '+' or '-'
   * followed by at least one digit; anything else is a `NumberFormatException`.
   */
  function ParseDecimal(s: string): (r: Option<int>)
    ensures r.Some? <==> (
      || (|s| > 0 && AllDigits(s))
      || (|s| > 1 && (s[0] == '-' || s[0] == '+') && AllDigits(s[1..])))
  {
    if |s| > 1 && s[0] == '-' && AllDigits(s[1..]) then Some(-(DigitsValue(s[1..]) as int))
    else if |s| > 1 && s[0] == '+' && AllDigits(s[1..]) then Some(DigitsValue(s[1..]))
    else if |s| > 0 && AllDigits(s) then Some(DigitsValue(s))
    else None
  }

  /** The decimal digits of n, without leading zeros (`Integer.toString` for n >= 0). */
  function NatToString(n: nat): (s: string)
    ensures |s| > 0 && AllDigits(s)
    decreases n
  {
    if n < 10 then [DigitChar(n)] else NatToString(n / 10) + [DigitChar(n % 10)]
  }

  /** `Integer.toString` / `Short.toString`. */
  function IntToString(v: int): (s: string)
    ensures |s| > 0
  {
    if v < 0 then "-" + NatToString(-v) else NatToString(v)
  }

  lemma {:induction false} DigitsOfNat(n: nat)
    ensures DigitsValue(NatToString(n)) == n
    decreases n
  {
    var s := NatToString(n);
    if n >= 10 {
      DigitsOfNat(n / 10);
      assert s[..|s| - 1] == NatToString(n / 10);
    }
  }

  /** Rendering an integer in decimal and parsing it back gives the integer. */
  lemma {:induction false} ParseDecimalRoundTrip(v: int)
    ensures ParseDecimal(IntToString(v)) == Some(v)
  {
    var s := IntToString(v);
    if v < 0 {
      var digits := NatToString(-v);
      assert s[1..] == digits;
      DigitsOfNat(-v);
      assert s[0] == '-' && AllDigits(s[1..]);
    } else {
      DigitsOfNat(v);
      assert IsAsciiDigit(s[0]);
      assert s[0] != '-' && s[0] != '+';
    }
  }

  // ---------------------------------------------------------------------
  // String searching and splitting
  // ---------------------------------------------------------------------

  predicate Contains(s: string, c: char) {
    exists i :: 0 <= i < |s| && s[i] == c
  }

  /** `s.indexOf(c)`: the first index of c in s, or -1. */
  function IndexOf(s: string, c: char): (r: int)
    ensures -1 <= r < |s|
    ensures r == -1 <==> !Contains(s, c)
    ensures r >= 0 ==> s[r] == c && forall j :: 0 <= j < r ==> s[j] != c
  {
    if s == [] then -1
    else if s[0] == c then 0
    else var k := IndexOf(s[1..], c); if k == -1 then -1 else k + 1
  }

  /** `s.lastIndexOf(c)`: the last index of c in s, or -1. */
  function LastIndexOf(s: string, c: char): (r: int)
    ensures -1 <= r < |s|
    ensures r == -1 <==> !Contains(s, c)
    ensures r >= 0 ==> s[r] == c && forall j :: r < j < |s| ==> s[j] != c
  {
    if s == [] then -1
    else if s[|s| - 1] == c then |s| - 1
    else LastIndexOf(s[..|s| - 1], c)
  }

  /**
   * Element 0 of `s.split(sep)` for a one-character separator. Java drops
   * trailing empty pieces, so when a non-empty s consists of separators only
   * the array is empty and indexing it throws: that case is None. An empty s
   * has no match and splits into [s].
   */
  function SplitFirst(s: string, sep: char): (r: Option<string>)
    ensures r.None? <==> |s| > 0 && forall i :: 0 <= i < |s| ==> s[i] == sep
    ensures r.Some? && Contains(s, sep) ==> r.value == s[..IndexOf(s, sep)]
    ensures r.Some? && !Contains(s, sep) ==> r.value == s
  {
    if |s| > 0 && forall i :: 0 <= i < |s| ==> s[i] == sep then None
    else if Contains(s, sep) then Some(s[..IndexOf(s, sep)])
    else Some(s)
  }
}
