/**
 * Decimal text for Java `int` values, as used in the connection table: the
 * `%d` conversion of `String.format` and `Integer.parseInt` with radix 10
 * (an optional sign, digits, and the 32-bit range check). Only the ASCII
 * digits '0'..'9' are modelled: `Integer.parseInt` also accepts the decimal
 * digits of other scripts, and `%d` writes the default locale's digits.
 */
module Decimal {
  import opened Wrappers

  const IntMin: int := -0x8000_0000
  const IntMax: int := 0x7FFF_FFFF

  /** The value is representable as a Java `int`. */
  predicate IsInt32(n: int) {
    IntMin <= n <= IntMax
  }

  predicate IsDigit(c: char) {
    '0' <= c <= '9'
  }

  predicate AllDigits(s: string) {
    forall i :: 0 <= i < |s| ==> IsDigit(s[i])
  }

  function DigitChar(d: nat): (c: char)
    requires d < 10
    ensures IsDigit(c)
  {
    ['0', '1', '2', '3', '4', '5', '6', '7', '8', '9'][d]
  }

  function DigitValue(c: char): (d: nat)
    requires IsDigit(c)
    ensures d < 10 && DigitChar(d) == c
  {
    (c as int - '0' as int) as nat
  }

  /** The decimal digits of `n`, most significant first, without leading zeros. */
  function NatToString(n: nat): (s: string)
    ensures |s| > 0 && AllDigits(s)
    ensures s[0] == '0' ==> n == 0
  {
    if n < 10 then [DigitChar(n)]
    else NatToString(n / 10) + [DigitChar(n % 10)]
  }

  /** The `%d` conversion: a minus sign for negative values, then the digits. */
  function IntToString(n: int): (s: string)
    ensures |s| > 0 && ':' !in s
    ensures n >= 0 <==> AllDigits(s)
  {
    if n < 0 then
      var s := "-" + NatToString(-n);
      assert !IsDigit(s[0]);
      s
    else NatToString(n)
  }

  /** The value of a string of digits, most significant first. */
  function DigitsValue(s: string): (v: nat)
    requires AllDigits(s)
  {
    if s == [] then 0 else DigitsValue(s[..|s| - 1]) * 10 + DigitValue(s[|s| - 1])
  }

  /**
   * `Integer.parseInt(s)`: `None` where Java throws `NumberFormatException` —
   * the empty string, a lone sign, a non-digit, or a value outside the 32-bit range.
   */
  function ParseInt(s: string): (r: Option<int>)
    ensures r.Some? ==> IsInt32(r.value)
    ensures s == [] ==> r.None?
    ensures r.Some? && (s[0] != '-' || |s| == 1) ==> r.value >= 0
  {
    if s == [] then None
    else if s[0] == '-' || s[0] == '+' then
      var digits := s[1..];
      if digits == [] || !AllDigits(digits) then None
      else
        var v: int := if s[0] == '-' then -(DigitsValue(digits) as int) else DigitsValue(digits);
        if IsInt32(v) then Some(v) else None
    else if !AllDigits(s) then None
    else if IsInt32(DigitsValue(s)) then Some(DigitsValue(s)) else None
  }

  /** Reading back the digits of a number gives the number. */
  lemma {:induction false} DigitsValueOfNatToString(n: nat)
    ensures DigitsValue(NatToString(n)) == n
  {
    var s := NatToString(n);
    if n >= 10 {
      assert s[..|s| - 1] == NatToString(n / 10);
      DigitsValueOfNatToString(n / 10);
    }
  }

  /** Parsing what `%d` printed gives back every 32-bit value. */
  lemma ParseIntToString(n: int)
    requires IsInt32(n)
    ensures ParseInt(IntToString(n)) == Some(n)
  {
    if n < 0 {
      ParseNegative(-n);
    } else {
      DigitsValueOfNatToString(n);
    }
  }

  /** A minus sign followed by the digits of m reads as -m, down to the smallest `int`. */
  lemma ParseNegative(m: nat)
    requires 1 <= m <= -IntMin
    ensures ParseInt("-" + NatToString(m)) == Some(-(m as int))
  {
    var s := "-" + NatToString(m);
    assert s[1..] == NatToString(m);
    DigitsValueOfNatToString(m);
  }

  /** A leading sign is accepted; a lone sign and a letter are not. */
  lemma ParseIntExamples()
    ensures ParseInt("+7") == Some(7) && ParseInt("-12") == Some(-12)
    ensures ParseInt("-") == None && ParseInt("1a") == None
  {
    assert "+7"[1..] == "7";
    assert "-12"[1..] == "12" && "12"[..1] == "1";
    assert !IsDigit("1a"[1]);
  }
}
