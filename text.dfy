/**
 * The Java int arithmetic and decimal conversions the persistence code relies on:
 * Integer.toString, Integer.parseInt and int addition, which wraps around at 32 bits.
 */
module Text {
  import opened Wrappers

  const IntMin: int := -0x8000_0000
  const IntMax: int := 0x7fff_ffff

  predicate IsInt32(x: int) {
    IntMin <= x <= IntMax
  }

  /** x + 1 on a Java int: IntMax wraps around to IntMin. */
  function Inc32(x: int): (r: int)
    requires IsInt32(x)
    ensures IsInt32(r)
    ensures x < IntMax ==> r == x + 1
    ensures x == IntMax ==> r == IntMin
  {
    if x == IntMax then IntMin else x + 1
  }

  predicate IsDigit(c: char) {
    '0' <= c <= '9'
  }

  predicate AllDigits(s: string) {
    forall i | 0 <= i < |s| :: IsDigit(s[i])
  }

  function DigitChar(d: nat): (c: char)
    requires d < 10
    ensures IsDigit(c) && DigitValue(c) == d
  {
    ['0', '1', '2', '3', '4', '5', '6', '7', '8', '9'][d]
  }

  function DigitValue(c: char): nat
    requires IsDigit(c)
  {
    (c as int - '0' as int) as nat
  }

  /** The value of a string of decimal digits, most significant first. */
  function DigitsValue(s: string): nat
    requires AllDigits(s)
    decreases |s|
  {
    if s == [] then 0 else DigitsValue(s[..|s| - 1]) * 10 + DigitValue(s[|s| - 1])
  }

  /** The decimal digits of n, without leading zeros. */
  function NatToString(n: nat): (s: string)
    ensures |s| >= 1 && AllDigits(s)
    ensures |s| > 1 ==> s[0] != '0'
    decreases n
  {
    if n < 10 then [DigitChar(n)] else NatToString(n / 10) + [DigitChar(n % 10)]
  }

  /** Integer.toString: a minus sign for negative values, then the digits. */
  function IntToString(n: int): string {
    if n < 0 then "-" + NatToString(-n) else NatToString(n)
  }

  /** The digits denote the number they were made from. */
  lemma {:induction false} NatToStringValue(n: nat)
    ensures DigitsValue(NatToString(n)) == n
    decreases n
  {
    var s := NatToString(n);
    if n >= 10 {
      NatToStringValue(n / 10);
      assert s[..|s| - 1] == NatToString(n / 10);
    }
  }

  function NumberFormatError(s: string): string {
    "For input string: \"" + s + "\""
  }

  /**
   * Integer.parseInt(s, 10) on ASCII input: an optional sign, then one or more digits, whose value
   * must lie in the int range; anything else is a NumberFormatException.
   */
  function ParseInt(s: string): (r: Result<int, string>)
    ensures r.Ok? ==> IsInt32(r.value)
    ensures s == "" || s == "-" || s == "+" ==> r.Err?
    ensures |s| > 0 && !IsDigit(s[0]) && s[0] != '-' && s[0] != '+' ==> r.Err?
    ensures (exists i | 0 < i < |s| :: !IsDigit(s[i])) ==> r.Err?
    ensures s != "" && AllDigits(s) ==> r == if DigitsValue(s) <= IntMax then Ok(DigitsValue(s)) else Err(NumberFormatError(s))
    ensures |s| > 1 && s[0] == '+' && AllDigits(s[1..]) ==>
      r == if DigitsValue(s[1..]) <= IntMax then Ok(DigitsValue(s[1..])) else Err(NumberFormatError(s))
    ensures |s| > 1 && s[0] == '-' && AllDigits(s[1..]) ==>
      r == if DigitsValue(s[1..]) <= -IntMin then Ok(-(DigitsValue(s[1..]) as int)) else Err(NumberFormatError(s))
  {
    if |s| > 0 && s[0] == '-' then ParseDigits(s[1..], true, s)
    else if |s| > 0 && s[0] == '+' then ParseDigits(s[1..], false, s)
    else ParseDigits(s, false, s)
  }

  /** The digits after the sign of s, negated when the sign is '-', if they are digits and fit an int. */
  function ParseDigits(digits: string, negative: bool, s: string): (r: Result<int, string>)
    ensures r.Ok? ==>
      digits != [] && AllDigits(digits) && r.value == (if negative then -(DigitsValue(digits) as int) else DigitsValue(digits))
  {
    if digits == [] || !AllDigits(digits) then Err(NumberFormatError(s))
    else
      var v: int := if negative then -(DigitsValue(digits) as int) else DigitsValue(digits);
      if IsInt32(v) then Ok(v) else Err(NumberFormatError(s))
  }

  /** Integer.parseInt reads back what Integer.toString writes, for every int. */
  lemma ParseIntToString(n: int)
    requires IsInt32(n)
    ensures ParseInt(IntToString(n)) == Ok(n)
  {
    if n < 0 {
      NatToStringValue(-n);
      ParseSigned(NatToString(-n), true);
    } else {
      NatToStringValue(n);
      ParseSigned(NatToString(n), false);
    }
  }

  lemma ParseSigned(d: string, negative: bool)
    requires d != [] && AllDigits(d)
    requires if negative then DigitsValue(d) <= -IntMin else DigitsValue(d) <= IntMax
    ensures negative ==> ParseInt("-" + d) == Ok(-(DigitsValue(d) as int))
    ensures !negative ==> ParseInt(d) == Ok(DigitsValue(d))
  {
    if negative {
      var s := "-" + d;
      assert s[0] == '-' && s[1..] == d;
      assert ParseInt(s) == ParseDigits(d, true, s);
    } else {
      assert IsDigit(d[0]);
      assert ParseInt(d) == ParseDigits(d, false, d);
    }
  }
}
