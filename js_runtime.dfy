/**
 * The pieces of JavaScript's built-in string and number behaviour that the core
 * relies on: String(n) for integers, String.prototype.indexOf and replace with a
 * one-character pattern, and parseInt with radix 10.  Numbers are modelled as
 * unbounded integers; parseInt returns None where JavaScript returns NaN.
 */
module JsRuntime {
  import opened Exceptions

  predicate IsDigit(c: char) {
    '0' <= c <= '9'
  }

  predicate AllDigits(s: string) {
    forall i :: 0 <= i < |s| ==> IsDigit(s[i])
  }

  function DigitValue(c: char): (d: nat)
    requires IsDigit(c)
    ensures d < 10
  {
    (c as int) - ('0' as int)
  }

  function DigitChar(d: nat): (c: char)
    requires d < 10
    ensures IsDigit(c) && DigitValue(c) == d
  {
    (('0' as int) + d) as char
  }

  /** The number denoted by a run of decimal digits, most significant digit first. */
  function DigitsValue(ds: string): nat
    requires AllDigits(ds)
  {
    if ds == [] then 0 else DigitsValue(ds[..|ds| - 1]) * 10 + DigitValue(ds[|ds| - 1])
  }

  /**
   * String(n) for a non-negative integer below 10^21 (from there on JavaScript
   * switches to exponent notation, which is not modelled).
   */
  function NatToString(n: nat): (s: string)
    ensures |s| > 0 && AllDigits(s)
  {
    if n < 10 then [DigitChar(n)] else NatToString(n / 10) + [DigitChar(n % 10)]
  }

  /** String(i), the text a template literal `${i}` produces for an integer i. */
  function IntToString(i: int): (s: string)
    ensures |s| > 0
  {
    if i < 0 then "-" + NatToString(-i) else NatToString(i)
  }

  /** Reading back the digits String(n) writes gives n. */
  lemma {:induction false} NatToStringValue(n: nat)
    ensures DigitsValue(NatToString(n)) == n
  {
    if n >= 10 {
      var s := NatToString(n);
      NatToStringValue(n / 10);
      assert s[..|s| - 1] == NatToString(n / 10);
    }
  }

  /** JavaScript's StrWhiteSpaceChar: the WhiteSpace and LineTerminator code points. */
  predicate IsWhitespace(c: char) {
    || c == '\t' || c == '\U{000B}' || c == '\U{000C}' || c == ' ' || c == '\U{00A0}'
    || c == '\U{FEFF}' || c == '\U{1680}' || ('\U{2000}' <= c <= '\U{200A}')
    || c == '\U{202F}' || c == '\U{205F}' || c == '\U{3000}'
    || c == '\n' || c == '\r' || c == '\U{2028}' || c == '\U{2029}'
  }

  /** The suffix of s left once its leading white space is removed. */
  function TrimStart(s: string): (r: string)
    ensures |r| <= |s| && r == s[|s| - |r|..]
    ensures r != [] ==> !IsWhitespace(r[0])
  {
    if s != [] && IsWhitespace(s[0]) then TrimStart(s[1..]) else s
  }

  /** The longest prefix of s made of decimal digits. */
  function LeadingDigits(s: string): (ds: string)
    ensures ds <= s && AllDigits(ds)
    ensures |ds| < |s| ==> !IsDigit(s[|ds|])
  {
    if s != [] && IsDigit(s[0]) then [s[0]] + LeadingDigits(s[1..]) else []
  }

  /** The text after an optional leading sign. */
  function UnsignedPart(t: string): string {
    if t != [] && (t[0] == '-' || t[0] == '+') then t[1..] else t
  }

  /**
   * parseInt(s, 10): skip leading white space, read an optional sign, then the
   * longest run of decimal digits; anything after the digits is ignored.  No
   * digits at all gives NaN, here None.
   */
  function ParseInt(s: string): Option<int> {
    var t := TrimStart(s);
    var ds := LeadingDigits(UnsignedPart(t));
    if ds == [] then None
    else
      var value: int := DigitsValue(ds);
      if t[0] == '-' then Some(-value) else Some(value)
  }

  lemma {:induction false} LeadingDigitsOfDigits(ds: string, rest: string)
    requires AllDigits(ds)
    requires rest == [] || !IsDigit(rest[0])
    ensures LeadingDigits(ds + rest) == ds
  {
    if ds == [] {
      assert ds + rest == rest;
    } else {
      assert (ds + rest)[1..] == ds[1..] + rest;
      LeadingDigitsOfDigits(ds[1..], rest);
    }
  }

  /** parseInt reads a leading run of digits and ignores whatever follows it. */
  lemma ParseIntLeadingDigits(ds: string, rest: string)
    requires ds != [] && AllDigits(ds)
    requires rest == [] || !IsDigit(rest[0])
    ensures ParseInt(ds + rest) == Some(DigitsValue(ds))
  {
    var s := ds + rest;
    assert s[0] == ds[0];
    DigitIsNoWhitespace(s[0]);
    assert TrimStart(s) == s;
    assert UnsignedPart(s) == s;
    LeadingDigitsOfDigits(ds, rest);
    assert LeadingDigits(UnsignedPart(TrimStart(s))) == ds;
  }

  lemma DigitIsNoWhitespace(c: char)
    requires IsDigit(c)
    ensures !IsWhitespace(c) && c != '-' && c != '+'
  {
  }

  /** parseInt(String(i), 10) === i: reading back a printed integer gives it again. */
  lemma ParseIntOfIntToString(i: int)
    ensures ParseInt(IntToString(i)) == Some(i)
  {
    var s := IntToString(i);
    var n: nat := if i < 0 then -i else i;
    var ds := NatToString(n);
    NatToStringValue(n);
    LeadingDigitsOfDigits(ds, []);
    assert ds + [] == ds;
    assert !IsWhitespace(s[0]);
    assert TrimStart(s) == s;
    if i < 0 {
      assert s[1..] == ds;
      assert UnsignedPart(s) == ds;
    } else {
      assert UnsignedPart(s) == ds;
    }
  }

  /** Distinct integers print as distinct strings. */
  lemma IntToStringInjective(a: int, b: int)
    requires a != b
    ensures IntToString(a) != IntToString(b)
  {
    if IntToString(a) == IntToString(b) {
      ParseIntOfIntToString(a);
      ParseIntOfIntToString(b);
    }
  }

  /** s.indexOf(c): the first position of c in s, or -1 when c does not occur. */
  function IndexOf(s: string, c: char): (k: int)
    ensures -1 <= k < |s|
    ensures k == -1 <==> c !in s
    ensures k >= 0 ==> s[k] == c && c !in s[..k]
  {
    if s == [] then -1
    else if s[0] == c then 0
    else
      var k := IndexOf(s[1..], c);
      assert k >= 0 ==> s[..k + 1] == [s[0]] + s[1..][..k];
      if k == -1 then -1 else k + 1
  }

  /** s.replace(c, ''): a one-character string pattern is replaced at its first occurrence only. */
  function ReplaceFirst(s: string, c: char): string {
    if s == [] then []
    else if s[0] == c then s[1..]
    else [s[0]] + ReplaceFirst(s[1..], c)
  }

  /** replace removes exactly the first occurrence of c, and leaves a string without c as it is. */
  lemma {:induction false} ReplaceFirstRemovesFirst(s: string, c: char)
    ensures var k := IndexOf(s, c);
            ReplaceFirst(s, c) == if k < 0 then s else s[..k] + s[k + 1..]
  {
    if s != [] && s[0] != c {
      var t := s[1..];
      ReplaceFirstRemovesFirst(t, c);
      var k := IndexOf(t, c);
      assert IndexOf(s, c) == if k < 0 then -1 else k + 1;
      assert ReplaceFirst(s, c) == [s[0]] + ReplaceFirst(t, c);
      ConsSlices(s, k);
    }
  }

  /** How slicing a non-empty sequence relates to slicing its tail. */
  lemma ConsSlices(s: string, k: int)
    requires s != [] && -1 <= k < |s| - 1
    ensures k < 0 ==> [s[0]] + s[1..] == s
    ensures k >= 0 ==> [s[0]] + (s[1..][..k] + s[1..][k + 1..]) == s[..k + 1] + s[k + 2..]
  {
    if k >= 0 {
      assert s[..k + 1] == [s[0]] + s[1..][..k];
      assert s[k + 2..] == s[1..][k + 1..];
    }
  }
}
