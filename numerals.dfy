/**
 * Number text as the statistics log writes and reads it: `operator<<` for an int,
 * and the prefix parsing of std::stoi and std::stod (leading white space, optional
 * sign, digits, trailing text ignored, failure when no digit is found).
 */
module Numerals {
  import opened Common

  /** The range of a C++ int; std::stoi fails outside it. */
  const IntMin: int := -0x8000_0000
  const IntMax: int := 0x7FFF_FFFF

  predicate IsDigit(c: char) { '0' <= c <= '9' }

  /** The white space std::isspace skips in the C locale. */
  predicate IsSpace(c: char)
  {
    c == ' ' || c == '\t' || c == '\n' || c == '\r' || c == '\U{000B}' || c == '\U{000C}'
  }

  predicate AllDigits(s: string) { forall i :: 0 <= i < |s| ==> IsDigit(s[i]) }

  function DigitChar(d: nat): (c: char)
    requires d < 10
    ensures IsDigit(c)
  {
    ('0' as int + d) as char
  }

  function DigitValue(c: char): (d: nat)
    requires IsDigit(c)
    ensures d < 10
  {
    c as int - '0' as int
  }

  /** Decimal digits of n, most significant first, without leading zeros. */
  function NatDigits(n: nat): (s: string)
    ensures |s| >= 1 && AllDigits(s)
    decreases n
  {
    if n < 10 then [DigitChar(n)] else NatDigits(n / 10) + [DigitChar(n % 10)]
  }

  /** The number a run of digits denotes. */
  function DigitsValue(s: string): nat
    requires AllDigits(s)
  {
    if s == [] then 0 else DigitsValue(s[..|s| - 1]) * 10 + DigitValue(s[|s| - 1])
  }

  /** Reading back the digits of n gives n. */
  lemma {:induction false} NatDigitsValue(n: nat)
    ensures DigitsValue(NatDigits(n)) == n
    decreases n
  {
    if n >= 10 {
      NatDigitsValue(n / 10);
      var s := NatDigits(n);
      assert s[..|s| - 1] == NatDigits(n / 10);
    }
  }

  /** `operator<<` for an int: an optional minus sign, then the digits. */
  function IntToString(n: int): (s: string)
    ensures s != [] && (s[0] == '-' <==> n < 0)
    ensures forall i :: 0 <= i < |s| ==> IsDigit(s[i]) || (i == 0 && s[i] == '-')
  {
    if n < 0 then "-" + NatDigits(-n) else NatDigits(n)
  }

  function SkipSpaces(s: string): (t: string)
    ensures |t| <= |s| && t == s[|s| - |t|..]
    ensures t != [] ==> !IsSpace(t[0])
    ensures forall i :: 0 <= i < |s| - |t| ==> IsSpace(s[i])
  {
    if s != [] && IsSpace(s[0]) then SkipSpaces(s[1..]) else s
  }

  /** The length of the longest run of digits at the front of s. */
  function DigitRun(s: string): (k: nat)
    ensures k <= |s| && AllDigits(s[..k]) && (k < |s| ==> !IsDigit(s[k]))
  {
    if s != [] && IsDigit(s[0]) then
      var k := 1 + DigitRun(s[1..]);
      assert s[..k] == [s[0]] + s[1..][..k - 1];
      k
    else 0
  }

  lemma {:induction false} DigitRunAll(s: string)
    requires AllDigits(s)
    ensures DigitRun(s) == |s|
  {
    if s != [] {
      DigitRunAll(s[1..]);
    }
  }

  /** The text after an optional leading sign, and whether that sign was a minus. */
  function SplitSign(t: string): (string, bool)
  {
    if t != [] && (t[0] == '-' || t[0] == '+') then (t[1..], t[0] == '-') else (t, false)
  }

  /** std::stoi: None where it throws (no digit after the optional sign, or out of int range). */
  function ParseInt(s: string): (r: Option<int>)
    ensures r.Some? ==> IntMin <= r.value <= IntMax
  {
    var t := SplitSign(SkipSpaces(s));
    SignedValue(t.0, t.1)
  }

  /** The int value of the leading digits of u, negated when a minus sign preceded them. */
  function SignedValue(u: string, negative: bool): (r: Option<int>)
    ensures r.Some? ==> IntMin <= r.value <= IntMax
  {
    var k := DigitRun(u);
    if k == 0 then None
    else
      var magnitude: int := DigitsValue(u[..k]);
      var v := if negative then -magnitude else magnitude;
      if IntMin <= v <= IntMax then Some(v) else None
  }

  /** stoi on an optional minus sign followed by digits whose value is an int: that value. */
  lemma ParseSignedDigits(u: string, negative: bool, v: int)
    requires u != [] && AllDigits(u)
    requires v == (if negative then -(DigitsValue(u) as int) else DigitsValue(u)) && IntMin <= v <= IntMax
    ensures ParseInt(if negative then "-" + u else u) == Some(v)
  {
    var s := if negative then "-" + u else u;
    assert !IsSpace(s[0]);
    assert SkipSpaces(s) == s;
    if negative {
      assert s[0] == '-' && s[1..] == u;
    } else {
      assert IsDigit(s[0]);
    }
    assert SplitSign(s) == (u, negative);
    DigitRunAll(u);
    assert u[..|u|] == u;
    assert SignedValue(u, negative) == Some(v);
  }

  /** Every int the log writes is read back unchanged. */
  lemma IntRoundTrip(n: int)
    requires IntMin <= n <= IntMax
    ensures ParseInt(IntToString(n)) == Some(n)
  {
    var d := if n < 0 then -n else n;
    NatDigitsValue(d);
    ParseSignedDigits(NatDigits(d), n < 0, n);
  }

  /** The value of the digits after a decimal point: FractionValue("25") == 0.25. */
  function FractionValue(s: string): (v: real)
    requires AllDigits(s)
    ensures 0.0 <= v <= 1.0
  {
    if s == [] then 0.0 else (DigitValue(s[0]) as real + FractionValue(s[1..])) / 10.0
  }

  /**
   * std::stod on plain decimal notation: optional sign, digits, optionally a point and more
   * digits, with at least one digit in all. None where it throws.
   */
  function ParseReal(s: string): (r: Option<real>)
  {
    var (u, negative) := SplitSign(SkipSpaces(s));
    var k := DigitRun(u);
    var rest := u[k..];
    var f := if rest != [] && rest[0] == '.' then DigitRun(rest[1..]) else 0;
    if k + f == 0 then None
    else
      var whole := DigitsValue(u[..k]) as real;
      var frac := if f == 0 then 0.0 else FractionValue(rest[1..][..f]);
      Some(if negative then -(whole + frac) else whole + frac)
  }

  /** A whole number written in digits, as the stream prints an integral cpm or accuracy, reads back exactly. */
  lemma WholeNumberRoundTrip(n: nat)
    ensures ParseReal(NatDigits(n)) == Some(n as real)
  {
    var s := NatDigits(n);
    assert SkipSpaces(s) == s;
    assert SplitSign(s) == (s, false);
    DigitRunAll(s);
    assert s[DigitRun(s)..] == [];
    assert s[..DigitRun(s)] == s;
    NatDigitsValue(n);
  }
}
