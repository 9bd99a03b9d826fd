/** Decimal text of integers as JavaScript writes and reads it:
    Number.prototype.toString on an integral value, BigInt(string) and parseInt(string). */
module Decimal {
  import opened Wrappers

  predicate IsDigit(c: char) { '0' <= c <= '9' }

  predicate AllDigits(s: string) { forall i :: 0 <= i < |s| ==> IsDigit(s[i]) }

  /** Decimal digits with no superfluous leading zero: the form toString produces. */
  predicate Canonical(s: string) { |s| > 0 && AllDigits(s) && (s[0] == '0' ==> |s| == 1) }

  function DigitValue(c: char): (d: nat)
    requires IsDigit(c)
    ensures d < 10
  {
    c as int - '0' as int
  }

  function DigitChar(d: nat): (c: char)
    requires d < 10
    ensures IsDigit(c) && DigitValue(c) == d
  {
    ('0' as int + d) as char
  }

  /** The value of a string of decimal digits, most significant first; "" is 0. */
  function DigitsValue(s: string): nat
    requires AllDigits(s)
    decreases |s|
  {
    if s == [] then 0 else DigitsValue(s[..|s| - 1]) * 10 + DigitValue(s[|s| - 1])
  }

  /** The decimal digits of a natural number. */
  function NatToDecimal(n: nat): (s: string)
    ensures Canonical(s)
    ensures n < 10 <==> |s| == 1
    decreases n
  {
    if n < 10 then [DigitChar(n)] else NatToDecimal(n / 10) + [DigitChar(n % 10)]
  }

  /** `(i).toString()` for an integral Number: a minus sign for negatives, then the digits. */
  function IntToString(i: int): (s: string)
    ensures i >= 0 ==> Canonical(s)
    ensures i < 0 ==> |s| > 1 && s[0] == '-' && Canonical(s[1..]) && s[1..] != "0"
  {
    if i < 0 then "-" + NatToDecimal(-i) else NatToDecimal(i)
  }

  /** `BigInt(s)`: the empty string is 0; otherwise an optional sign and one or more decimal
      digits. None stands for the SyntaxError BigInt throws on anything else. */
  function ParseBigInt(s: string): (r: Option<int>)
    ensures s == [] ==> r == Some(0)
    ensures s != [] && AllDigits(s) ==> r == Some(DigitsValue(s))
    ensures |s| > 1 && s[0] == '-' && AllDigits(s[1..]) ==> r == Some(-(DigitsValue(s[1..]) as int))
    ensures |s| > 1 && s[0] == '+' && AllDigits(s[1..]) ==> r == Some(DigitsValue(s[1..]))
    ensures r.Some? <==>
              || s == []
              || AllDigits(s)
              || (|s| > 1 && (s[0] == '-' || s[0] == '+') && AllDigits(s[1..]))
  {
    if s == [] then Some(0)
    else if s[0] == '-' || s[0] == '+' then
      var body := s[1..];
      if body != [] && AllDigits(body) then
        var magnitude: int := DigitsValue(body);
        Some(if s[0] == '-' then -magnitude else magnitude)
      else None
    else if AllDigits(s) then Some(DigitsValue(s))
    else None
  }

  /** The longest prefix of `s` made of decimal digits. */
  function LeadingDigits(s: string): (p: string)
    ensures p <= s && AllDigits(p)
    ensures |p| < |s| ==> !IsDigit(s[|p|])
    decreases |s|
  {
    if s == [] || !IsDigit(s[0]) then [] else [s[0]] + LeadingDigits(s[1..])
  }

  /** `parseInt(s)`: an optional sign, then as many decimal digits as follow; anything after
      them is ignored. None stands for NaN, the result when no digit follows. */
  function ParseIntPrefix(s: string): (r: Option<int>)
    ensures r.Some? <==>
              || (|s| > 0 && IsDigit(s[0]))
              || (|s| > 1 && (s[0] == '-' || s[0] == '+') && IsDigit(s[1]))
    ensures s != [] && AllDigits(s) ==> r == Some(DigitsValue(s))
    ensures |s| > 1 && s[0] == '-' && AllDigits(s[1..]) ==> r == Some(-(DigitsValue(s[1..]) as int))
  {
    if s != [] && AllDigits(s) then
      LeadingDigitsOfDigits(s);
      ParseIntPrefixUnfolded(s)
    else if |s| > 1 && s[0] == '-' && AllDigits(s[1..]) then
      LeadingDigitsOfDigits(s[1..]);
      ParseIntPrefixUnfolded(s)
    else
      ParseIntPrefixUnfolded(s)
  }

  function ParseIntPrefixUnfolded(s: string): Option<int>
  {
    var signed := |s| > 0 && (s[0] == '-' || s[0] == '+');
    var digits := LeadingDigits(if signed then s[1..] else s);
    if digits == [] then None
    else
      var magnitude: int := DigitsValue(digits);
      Some(if signed && s[0] == '-' then -magnitude else magnitude)
  }

  /** Reading back the digits of n gives n. */
  lemma {:induction false} DigitsValueOfNatToDecimal(n: nat)
    ensures DigitsValue(NatToDecimal(n)) == n
    decreases n
  {
    if n >= 10 {
      var s := NatToDecimal(n / 10);
      DigitsValueOfNatToDecimal(n / 10);
      assert (s + [DigitChar(n % 10)])[..|s|] == s;
    }
  }

  lemma {:induction false} DigitsValuePositive(s: string)
    requires |s| > 0 && AllDigits(s) && s[0] != '0'
    ensures DigitsValue(s) >= 1
    decreases |s|
  {
    if |s| > 1 {
      DigitsValuePositive(s[..|s| - 1]);
    }
  }

  /** Every canonical digit string is the toString of its own value: the decimal form is unique. */
  lemma {:induction false} NatToDecimalOfDigitsValue(s: string)
    requires Canonical(s)
    ensures NatToDecimal(DigitsValue(s)) == s
    decreases |s|
  {
    if |s| > 1 {
      var p := s[..|s| - 1];
      var d := DigitValue(s[|s| - 1]);
      assert Canonical(p);
      DigitsValuePositive(p);
      NatToDecimalOfDigitsValue(p);
      var v := DigitsValue(s);
      assert v == DigitsValue(p) * 10 + d;
      assert v / 10 == DigitsValue(p) && v % 10 == d;
      assert DigitChar(d) == s[|s| - 1];
      assert p + [s[|s| - 1]] == s;
    } else {
      assert DigitChar(DigitValue(s[0])) == s[0];
    }
  }

  /** BigInt reads back exactly the integer toString wrote. */
  lemma ParseBigIntOfIntToString(i: int)
    ensures ParseBigInt(IntToString(i)) == Some(i)
  {
    if i < 0 {
      var digits := NatToDecimal(-i);
      DigitsValueOfNatToDecimal(-i);
      var s := "-" + digits;
      assert s[0] == '-' && s[1..] == digits;
    } else {
      var digits := NatToDecimal(i);
      DigitsValueOfNatToDecimal(i);
      assert IsDigit(digits[0]);
    }
  }

  /** On canonical digits, BigInt and toString are mutually inverse. */
  lemma CanonicalRoundTrip(s: string)
    requires Canonical(s)
    ensures ParseBigInt(s) == Some(DigitsValue(s))
    ensures IntToString(DigitsValue(s)) == s
  {
    NatToDecimalOfDigitsValue(s);
  }

  /** Every character of an all-digit string belongs to its leading digits. */
  lemma LeadingDigitsOfDigits(s: string)
    requires AllDigits(s)
    ensures LeadingDigits(s) == s
  {
    var p := LeadingDigits(s);
    if |p| < |s| {
      // LeadingDigits' second ensures says s[|p|] is not a digit, yet AllDigits(s) says it is.
      assert false;
    }
  }

  /** parseInt ignores whatever follows the leading digits. */
  lemma ParseIntPrefixIgnoresTail(digits: string, tail: string)
    requires digits != [] && AllDigits(digits)
    requires tail == [] || !IsDigit(tail[0])
    ensures ParseIntPrefix(digits + tail) == Some(DigitsValue(digits))
  {
    LeadingDigitsOfAppend(digits, tail);
    assert (digits + tail)[0] == digits[0];
  }

  lemma {:induction false} LeadingDigitsOfAppend(digits: string, tail: string)
    requires AllDigits(digits)
    requires tail == [] || !IsDigit(tail[0])
    ensures LeadingDigits(digits + tail) == digits
    decreases |digits|
  {
    if digits == [] {
      assert digits + tail == tail;
    } else {
      assert (digits + tail)[1..] == digits[1..] + tail;
      LeadingDigitsOfAppend(digits[1..], tail);
      assert [digits[0]] + digits[1..] == digits;
    }
  }

  /** parseInt reads back the digits of a natural number written by toString. */
  lemma ParseIntPrefixOfNatToDecimal(n: nat)
    ensures ParseIntPrefix(NatToDecimal(n)) == Some(n)
  {
    DigitsValueOfNatToDecimal(n);
  }
}
