/**
 * String helpers used by several modules: ASCII case folding (Swift's
 * `lowercased()` restricted to ASCII), `%0Nx` hexadecimal formatting with a
 * reference parser, decimal formatting of integers (string interpolation of
 * an Int) with a reference parser, prefix tests and joining with a separator.
 */
module Text {

  // ---------------------------------------------------------------------
  // Case folding
  // ---------------------------------------------------------------------

  function LowerChar(c: char): char {
    if 'A' <= c <= 'Z' then (c as int + 32) as char else c
  }

  /** `lowercased()` on ASCII text: upper-case letters become lower-case, everything else is kept. */
  function Lower(s: string): (r: string)
    ensures |r| == |s|
    ensures forall i :: 0 <= i < |s| ==> r[i] == LowerChar(s[i])
  {
    if |s| == 0 then [] else [LowerChar(s[0])] + Lower(s[1..])
  }

  /** Two strings are equal once case is ignored. */
  predicate EqualsIgnoringCase(s: string, t: string) {
    Lower(s) == Lower(t)
  }

  /** A string without upper-case letters is its own folding. */
  lemma LowerOfLower(s: string)
    requires forall i :: 0 <= i < |s| ==> !('A' <= s[i] <= 'Z')
    ensures Lower(s) == s
  {
  }

  // ---------------------------------------------------------------------
  // Prefixes and joining
  // ---------------------------------------------------------------------

  predicate IsPrefix(p: string, s: string) {
    |p| <= |s| && s[..|p|] == p
  }

  /** The strings of `parts` with `sep` between consecutive ones (Swift's `joined(separator:)`). */
  function Join(parts: seq<string>, sep: string): string {
    if |parts| == 0 then ""
    else if |parts| == 1 then parts[0]
    else parts[0] + sep + Join(parts[1..], sep)
  }

  // ---------------------------------------------------------------------
  // Hexadecimal
  // ---------------------------------------------------------------------

  const HexAlphabet: string := "0123456789abcdef"

  function HexDigitChar(d: int): char
    requires 0 <= d < 16
  {
    HexAlphabet[d]
  }

  /** Value of a hexadecimal digit of either case; -1 for any other character. */
  function HexDigitValue(c: char): int {
    if '0' <= c <= '9' then c as int - '0' as int
    else if 'a' <= c <= 'f' then c as int - 'a' as int + 10
    else if 'A' <= c <= 'F' then c as int - 'A' as int + 10
    else -1
  }

  predicate IsHexDigit(c: char) {
    HexDigitValue(c) >= 0
  }

  predicate IsHexString(s: string) {
    forall i :: 0 <= i < |s| ==> IsHexDigit(s[i])
  }

  function Pow16(n: nat): (r: nat)
    ensures r >= 1
  {
    if n == 0 then 1 else 16 * Pow16(n - 1)
  }

  /** Value of a string of hexadecimal digits, most significant first. */
  function HexValue(s: string): int {
    if |s| == 0 then 0 else 16 * HexValue(s[..|s| - 1]) + HexDigitValue(s[|s| - 1])
  }

  /**
   * `String(format: "%0<width>x", n)`: lower-case hexadecimal digits of n,
   * padded on the left with zeros to at least `width` characters.
   */
  function Hex(n: nat, width: nat): (r: string)
    decreases n + width
  {
    if n == 0 && width == 0 then ""
    else if n < 16 && width <= 1 then [HexDigitChar(n)]
    else Hex(n / 16, if width == 0 then 0 else width - 1) + [HexDigitChar(n % 16)]
  }

  lemma HexDigitRoundTrip(d: int)
    requires 0 <= d < 16
    ensures HexDigitValue(HexDigitChar(d)) == d
    ensures 'A' <= HexDigitChar(d) <= 'Z' ==> false
  {
  }

  /** Formatting then parsing gives the number back; the digits are lower-case hexadecimal. */
  lemma {:induction false} HexRoundTrip(n: nat, width: nat)
    ensures HexValue(Hex(n, width)) == n
    ensures IsHexString(Hex(n, width))
    ensures forall i :: 0 <= i < |Hex(n, width)| ==> !('A' <= Hex(n, width)[i] <= 'Z')
    decreases n + width
  {
    if n == 0 && width == 0 {
    } else if n < 16 && width <= 1 {
      HexDigitRoundTrip(n);
      assert [HexDigitChar(n)][..0] == [];
    } else {
      var w' := if width == 0 then 0 else width - 1;
      HexRoundTrip(n / 16, w');
      HexDigitRoundTrip(n % 16);
      var s := Hex(n, width);
      assert s[..|s| - 1] == Hex(n / 16, w');
    }
  }

  /** A number below 16^width is written with exactly `width` digits. */
  lemma {:induction false} HexLength(n: nat, width: nat)
    requires n < Pow16(width)
    ensures |Hex(n, width)| == width
    decreases n + width
  {
    if n == 0 && width == 0 {
    } else if n < 16 && width <= 1 {
    } else {
      HexLength(n / 16, width - 1);
    }
  }

  // ---------------------------------------------------------------------
  // Decimal
  // ---------------------------------------------------------------------

  function DigitChar(d: int): char
    requires 0 <= d < 10
  {
    ('0' as int + d) as char
  }

  function Digits(n: nat): (r: string)
    ensures |r| >= 1
    ensures forall i :: 0 <= i < |r| ==> '0' <= r[i] <= '9'
  {
    if n < 10 then [DigitChar(n)] else Digits(n / 10) + [DigitChar(n % 10)]
  }

  /** String interpolation of an integer: its decimal digits, with a leading '-' when negative. */
  function Decimal(n: int): string {
    if n < 0 then "-" + Digits(-n) else Digits(n)
  }

  function DigitsValue(s: string): int {
    if |s| == 0 then 0 else 10 * DigitsValue(s[..|s| - 1]) + (s[|s| - 1] as int - '0' as int)
  }

  /** Reference reading of a decimal string: an optional '-' followed by digits. */
  function DecimalValue(s: string): int {
    if |s| > 0 && s[0] == '-' then -DigitsValue(s[1..]) else DigitsValue(s)
  }

  lemma {:induction false} DigitsRoundTrip(n: nat)
    ensures DigitsValue(Digits(n)) == n
  {
    if n >= 10 {
      DigitsRoundTrip(n / 10);
      var s := Digits(n);
      assert s[..|s| - 1] == Digits(n / 10);
    } else {
      assert [DigitChar(n)][..0] == [];
    }
  }

  /** Reading a formatted integer gives it back; the text is never empty. */
  lemma DecimalRoundTrip(n: int)
    ensures DecimalValue(Decimal(n)) == n
    ensures |Decimal(n)| > 0
  {
    if n < 0 {
      DigitsRoundTrip(-n);
      assert Decimal(n)[1..] == Digits(-n);
    } else {
      DigitsRoundTrip(n);
    }
  }
}
