/**
 * The three PHP string builtins the identifier allocators rely on:
 * `substr($s, $start)`, `intval($s)` on a string, and
 * `str_pad($n, $width, $pad, STR_PAD_LEFT)` applied to an integer
 * (which PHP first converts to its decimal text).
 */
module PhpStrings {

  predicate IsDigit(c: char) {
    '0' <= c <= '9'
  }

  predicate AllDigits(s: string) {
    forall i :: 0 <= i < |s| ==> IsDigit(s[i])
  }

  function DigitValue(c: char): nat
    requires IsDigit(c)
  {
    (c as int) - ('0' as int)
  }

  function DigitChar(d: nat): (c: char)
    requires d < 10
    ensures IsDigit(c) && DigitValue(c) == d
  {
    (('0' as int) + d) as char
  }

  /** The number a string of decimal digits denotes (leading zeros allowed). */
  function DigitsValue(s: string): nat
    requires AllDigits(s)
  {
    if |s| == 0 then 0 else DigitsValue(s[..|s| - 1]) * 10 + DigitValue(s[|s| - 1])
  }

  /** `substr($s, $start)` for a non-negative start: the empty string once start passes the end. */
  function Substr(s: string, start: nat): string {
    if start <= |s| then s[start..] else ""
  }

  predicate IsSpace(c: char) {
    c == ' ' || c == '\t' || c == '\n' || c == '\r' || c == '\U{B}' || c == '\U{C}'
  }

  /** Drops the leading whitespace PHP skips before a numeric prefix. */
  function SkipSpaces(s: string): string {
    if |s| > 0 && IsSpace(s[0]) then SkipSpaces(s[1..]) else s
  }

  /** The longest prefix of `s` made of decimal digits. */
  function LeadingDigits(s: string): (d: string)
    ensures AllDigits(d)
  {
    if |s| > 0 && IsDigit(s[0]) then [s[0]] + LeadingDigits(s[1..]) else ""
  }

  /**
   * `intval($s)` for a string: skip whitespace, read an optional sign and
   * then as many decimal digits as there are; no digits gives 0.
   */
  function IntVal(s: string): (r: int)
    ensures |s| > 0 && !IsSpace(s[0]) && !IsDigit(s[0]) && s[0] != '-' && s[0] != '+' ==> r == 0
  {
    var t := SkipSpaces(s);
    if |t| > 0 && t[0] == '-' then -(DigitsValue(LeadingDigits(t[1..])) as int)
    else if |t| > 0 && t[0] == '+' then DigitsValue(LeadingDigits(t[1..]))
    else DigitsValue(LeadingDigits(t))
  }

  /** Decimal text of a natural number, without leading zeros. */
  function NatToString(n: nat): (s: string)
    ensures |s| >= 1 && AllDigits(s)
    ensures |s| > 1 ==> s[0] != '0'
    decreases n
  {
    if n < 10 then [DigitChar(n)] else NatToString(n / 10) + [DigitChar(n % 10)]
  }

  /** PHP's conversion of an integer to a string: a '-' sign before the digits of a negative number. */
  function IntToString(n: int): (s: string)
    ensures n >= 0 ==> s == NatToString(n)
    ensures n < 0 ==> s == "-" + NatToString(-n)
  {
    if n >= 0 then NatToString(n) else "-" + NatToString(-n)
  }

  function Repeat(c: char, n: nat): (r: string)
    ensures |r| == n && forall i :: 0 <= i < n ==> r[i] == c
  {
    if n == 0 then "" else [c] + Repeat(c, n - 1)
  }

  /**
   * `str_pad($s, $width, $c, STR_PAD_LEFT)`: fills on the left up to `width`
   * characters and never shortens a longer input.
   */
  function PadLeft(s: string, width: nat, c: char): string {
    if |s| >= width then s else Repeat(c, width - |s|) + s
  }

  /** `str_pad` fills on the left up to `width` characters and never shortens a longer input. */
  lemma PadLeftShape(s: string, width: nat, c: char)
    ensures var r := PadLeft(s, width, c);
      && |r| == (if |s| >= width then |s| else width)
      && r[|r| - |s|..] == s
      && forall i :: 0 <= i < |r| - |s| ==> r[i] == c
  {
  }

  /** Text that `IntToString` can produce: non-empty and without a redundant leading zero. */
  predicate Canonical(s: string) {
    |s| >= 1 && (s[0] == '0' ==> |s| == 1)
  }

  // ---------------------------------------------------------------------
  // Lemmas
  // ---------------------------------------------------------------------

  /** Reading the decimal text of `n` gives `n` back. */
  lemma {:induction false} NatToStringValue(n: nat)
    ensures DigitsValue(NatToString(n)) == n
    decreases n
  {
    var s := NatToString(n);
    if n >= 10 {
      assert s[..|s| - 1] == NatToString(n / 10);
      NatToStringValue(n / 10);
    }
  }

  /** Leading zeros do not change the value of a digit string. */
  lemma {:induction false} DigitsValueZeroPrefix(z: nat, d: string)
    requires AllDigits(d)
    ensures AllDigits(Repeat('0', z) + d)
    ensures DigitsValue(Repeat('0', z) + d) == DigitsValue(d)
    decreases |d|
  {
    var s := Repeat('0', z) + d;
    assert AllDigits(s) by {
      forall i | 0 <= i < |s| ensures IsDigit(s[i]) {
        if i >= z { assert s[i] == d[i - z]; }
      }
    }
    if |d| == 0 {
      assert s == Repeat('0', z);
      AllZerosValue(z);
    } else {
      var d' := d[..|d| - 1];
      assert s[..|s| - 1] == Repeat('0', z) + d';
      assert s[|s| - 1] == d[|d| - 1];
      DigitsValueZeroPrefix(z, d');
    }
  }

  lemma {:induction false} AllZerosValue(z: nat)
    ensures AllDigits(Repeat('0', z))
    ensures DigitsValue(Repeat('0', z)) == 0
  {
    if z > 0 {
      var s := Repeat('0', z);
      assert s[..z - 1] == Repeat('0', z - 1);
      AllZerosValue(z - 1);
    }
  }

  /** A string made of digits is its own longest digit prefix. */
  lemma {:induction false} LeadingDigitsOfDigits(s: string)
    requires AllDigits(s)
    ensures LeadingDigits(s) == s
  {
    if |s| > 0 {
      LeadingDigitsOfDigits(s[1..]);
    }
  }

  /**
   * `intval` reads back the number that `str_pad` of a non-negative integer
   * wrote, whatever the width and however long the number.
   */
  lemma PadRoundTrip(n: nat, width: nat)
    ensures IntVal(PadLeft(IntToString(n), width, '0')) == n
  {
    var p := PadLeft(NatToString(n), width, '0');
    NatToStringValue(n);
    ZeroPaddedValue(NatToString(n), width);
    DigitsIntVal(p);
  }

  /** On a non-empty digit string `intval` is plain decimal reading. */
  lemma DigitsIntVal(p: string)
    requires |p| > 0 && AllDigits(p)
    ensures IntVal(p) == DigitsValue(p)
  {
    assert IsDigit(p[0]);
    assert SkipSpaces(p) == p;
    LeadingDigitsOfDigits(p);
  }

  /** A zero-padded digit string is still a digit string of the same value. */
  lemma ZeroPaddedValue(d: string, width: nat)
    requires AllDigits(d)
    ensures AllDigits(PadLeft(d, width, '0'))
    ensures DigitsValue(PadLeft(d, width, '0')) == DigitsValue(d)
  {
    var p := PadLeft(d, width, '0');
    var z := |p| - |d|;
    assert p == Repeat('0', z) + d;
    DigitsValueZeroPrefix(z, d);
  }

  /** Distinct integers have distinct decimal texts, and those texts are canonical. */
  lemma IntToStringInjective(m: int, n: int)
    ensures Canonical(IntToString(m))
    ensures IntToString(m) == IntToString(n) ==> m == n
  {
    if IntToString(m) == IntToString(n) {
      if m >= 0 && n >= 0 {
        NatToStringValue(m);
        NatToStringValue(n);
      } else if m < 0 && n < 0 {
        assert NatToString(-m) == IntToString(m)[1..];
        NatToStringValue(-m);
        NatToStringValue(-n);
      }
    }
  }

  /** Zero-padding is one-to-one on canonical texts: it never merges two of them. */
  lemma PadLeftInjective(a: string, b: string, width: nat)
    requires Canonical(a) && Canonical(b)
    requires PadLeft(a, width, '0') == PadLeft(b, width, '0')
    ensures a == b
  {
    var r := PadLeft(a, width, '0');
    PadLeftShape(a, width, '0');
    PadLeftShape(b, width, '0');
    assert a == r[|r| - |a|..] && b == r[|r| - |b|..];
  }
}
