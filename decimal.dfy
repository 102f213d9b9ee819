/** Decimal text of integers: how PHP prints an int, and how it reads an integer back. */
module Decimal {
  import opened Outcomes

  predicate IsDigit(c: char) { '0' <= c <= '9' }

  predicate AllDigits(s: string) { forall i | 0 <= i < |s| :: IsDigit(s[i]) }

  function DigitValue(c: char): nat
    requires IsDigit(c)
  {
    c as int - '0' as int
  }

  function DigitChar(d: nat): (c: char)
    requires d < 10
    ensures IsDigit(c) && DigitValue(c) == d
  {
    ('0' as int + d) as char
  }

  /** The number a string of digits denotes, most significant digit first. */
  function DigitsValue(s: string): nat
    requires AllDigits(s)
  {
    if |s| == 0 then 0 else DigitsValue(s[..|s| - 1]) * 10 + DigitValue(s[|s| - 1])
  }

  /** The shortest decimal text of a natural number. */
  function NatToString(n: nat): (s: string)
    ensures |s| > 0 && AllDigits(s)
    ensures DigitsValue(s) == n
    ensures |s| > 1 ==> s[0] != '0'
    decreases n
  {
    if n < 10 then [DigitChar(n)]
    else
      var t := NatToString(n / 10);
      var s := t + [DigitChar(n % 10)];
      assert s[..|s| - 1] == t;
      s
  }

  /** PHP's string form of an int: a minus sign for negatives, then the digits. */
  function IntToString(i: int): (s: string)
    ensures |s| > 0
    ensures '\n' !in s
  {
    if i < 0 then "-" + NatToString(-i) else NatToString(i)
  }

  /** The number of leading digits of `s`. */
  function SpanDigits(s: string): (k: nat)
    ensures k <= |s| && AllDigits(s[..k])
    ensures k < |s| ==> !IsDigit(s[k])
  {
    if |s| > 0 && IsDigit(s[0]) then
      var k := 1 + SpanDigits(s[1..]);
      assert s[..k] == [s[0]] + s[1..][..k - 1];
      k
    else 0
  }

  /** Reads a maximal run of digits, at least one, and returns its value and what follows. */
  function ParseNat(s: string): (r: Option<(nat, string)>)
    ensures r.Some? ==> |r.value.1| < |s| && r.value.1 == s[|s| - |r.value.1|..]
  {
    var k := SpanDigits(s);
    if k == 0 then None else Some((DigitsValue(s[..k]), s[k..]))
  }

  /** Reads an optional minus sign followed by digits. */
  function ParseInt(s: string): (r: Option<(int, string)>)
    ensures r.Some? ==> |r.value.1| < |s| && r.value.1 == s[|s| - |r.value.1|..]
  {
    if |s| > 0 && s[0] == '-' then
      match ParseNat(s[1..])
      case Some((n, rest)) => Some((-(n as int), rest))
      case None => None
    else
      match ParseNat(s)
      case Some((n, rest)) => Some((n as int, rest))
      case None => None
  }

  lemma {:induction false} SpanOfDigits(t: string, rest: string)
    requires AllDigits(t)
    requires rest == [] || !IsDigit(rest[0])
    ensures SpanDigits(t + rest) == |t|
  {
    if |t| > 0 {
      assert (t + rest)[1..] == t[1..] + rest;
      SpanOfDigits(t[1..], rest);
    }
  }

  /** Printing a natural number and reading it back gives the number and leaves what follows. */
  lemma ParseNatOfString(n: nat, rest: string)
    requires rest == [] || !IsDigit(rest[0])
    ensures ParseNat(NatToString(n) + rest) == Some((n, rest))
  {
    var t := NatToString(n);
    SpanOfDigits(t, rest);
    assert (t + rest)[..|t|] == t;
    assert (t + rest)[|t|..] == rest;
  }

  /** Printing an int and reading it back gives the int and leaves what follows. */
  lemma ParseIntOfString(i: int, rest: string)
    requires rest == [] || !IsDigit(rest[0])
    ensures ParseInt(IntToString(i) + rest) == Some((i, rest))
  {
    if i < 0 {
      ParseNegativeOfString(i, rest);
    } else {
      ParseNonNegativeOfString(i, rest);
    }
  }

  lemma ParseNegativeOfString(i: int, rest: string)
    requires i < 0
    requires rest == [] || !IsDigit(rest[0])
    ensures ParseInt(IntToString(i) + rest) == Some((i, rest))
  {
    ParseNatOfString(-i, rest);
    MinusText(i, rest);
    ParseMinus(NatToString(-i) + rest, i, rest);
  }

  lemma MinusText(i: int, rest: string)
    requires i < 0
    ensures IntToString(i) + rest == "-" + (NatToString(-i) + rest)
  {
  }

  /** A minus sign before digits negates what they read as. */
  lemma ParseMinus(u: string, i: int, rest: string)
    requires i < 0 && ParseNat(u) == Some((-i, rest))
    ensures ParseInt("-" + u) == Some((i, rest))
  {
    assert ("-" + u)[1..] == u;
  }

  lemma ParseNonNegativeOfString(i: int, rest: string)
    requires i >= 0
    requires rest == [] || !IsDigit(rest[0])
    ensures ParseInt(IntToString(i) + rest) == Some((i, rest))
  {
    var t := NatToString(i);
    ParseNatOfString(i, rest);
    assert IntToString(i) == t;
    assert (t + rest)[0] == t[0] && IsDigit(t[0]);
  }

  /** PHP 5/7's reading of a string as a number in a comparison with an int: an optional sign and
      the leading digits, or 0 when there are none (whitespace, fractions and exponents are not modelled). */
  function LeadingInt(s: string): int
  {
    var negative := |s| > 0 && s[0] == '-';
    var body := if |s| > 0 && (s[0] == '-' || s[0] == '+') then s[1..] else s;
    match ParseNat(body)
    case Some((n, _)) => if negative then -(n as int) else n
    case None => 0
  }

  /** A numeric string in the sense of is_numeric, restricted to integers: a sign, then only digits. */
  predicate IsNumericString(s: string)
  {
    var body := if |s| > 0 && (s[0] == '-' || s[0] == '+') then s[1..] else s;
    |body| > 0 && AllDigits(body)
  }

  /** The comparison value of the printed form of an int is that int. */
  lemma LeadingIntOfString(i: int)
    ensures LeadingInt(IntToString(i)) == i
    ensures IsNumericString(IntToString(i))
  {
    if i < 0 {
      ParseNatOfString(-i, "");
      assert IntToString(i)[1..] == NatToString(-i) + "";
    } else {
      ParseNatOfString(i, "");
      assert NatToString(i) + "" == NatToString(i);
    }
  }
}
