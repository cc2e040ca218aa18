/** The Option type used for results that may be absent. */
module Optional {

  datatype Option<+T> = None | Some(value: T) {

    predicate IsFailure() {
      None?
    }

    function PropagateFailure<U>(): Option<U>
      requires None?
    {
      None
    }

    function Extract(): T
      requires Some?
    {
      value
    }
  }
}

/**
 * Decimal text of integers: the writer's side (`IJ.d2s(v, 0)` of an integer value) and
 * two readers, an unbounded one for the profile document and `Integer.parseInt` on ASCII text.
 */
module Decimal {
  import opened Optional

  const INT_MIN: int := -0x8000_0000
  const INT_MAX: int := 0x7fff_ffff

  /** Java's `x++` on an `int`: one more, except that the largest value wraps to the smallest. */
  function Inc32(x: int): (r: int)
    ensures INT_MIN <= x <= INT_MAX ==> INT_MIN <= r <= INT_MAX
    ensures INT_MIN <= x < INT_MAX ==> r == x + 1
    ensures (r - (x + 1)) % 0x1_0000_0000 == 0
  {
    if x == INT_MAX then INT_MIN else x + 1
  }

  /** Incrementing the largest `int` gives the smallest, whose text is negative. */
  lemma IncrementWraps()
    ensures Inc32(INT_MAX) == INT_MIN
    ensures IntText(Inc32(INT_MAX))[0] == '-'
  {
  }

  predicate IsDigit(c: char) {
    '0' <= c <= '9'
  }

  predicate AllDigits(s: string) {
    forall i :: 0 <= i < |s| ==> IsDigit(s[i])
  }

  function DigitChar(d: nat): (c: char)
    requires d < 10
    ensures IsDigit(c) && c as int - '0' as int == d
  {
    ('0' as int + d) as char
  }

  function DigitValue(c: char): nat
    requires IsDigit(c)
  {
    c as int - '0' as int
  }

  /** Decimal digits of `x`, without leading zeros. */
  function NatText(x: nat): (s: string)
    ensures |s| > 0 && AllDigits(s)
  {
    if x < 10 then [DigitChar(x)] else NatText(x / 10) + [DigitChar(x % 10)]
  }

  /** Decimal text of `x` with a leading '-' when it is negative. */
  function IntText(x: int): (s: string)
    ensures |s| > 0
    ensures s[0] == '-' <==> x < 0
    ensures forall i :: 0 <= i < |s| ==> IsDigit(s[i]) || (i == 0 && s[i] == '-')
  {
    if x < 0 then "-" + NatText(-x) else NatText(x)
  }

  /** The value of a digit string, most significant digit first. */
  function DigitsValue(s: string): nat
    requires AllDigits(s)
  {
    if |s| == 0 then 0 else DigitsValue(s[..|s| - 1]) * 10 + DigitValue(s[|s| - 1])
  }

  lemma {:induction false} NatTextValue(x: nat)
    ensures DigitsValue(NatText(x)) == x
  {
    if x >= 10 {
      var s := NatText(x);
      assert s[..|s| - 1] == NatText(x / 10);
      NatTextValue(x / 10);
    }
  }

  /** Reads `-`? digit+ with no bound on the value. */
  function ParseInteger(s: string): Option<int>
  {
    if |s| > 1 && s[0] == '-' && AllDigits(s[1..]) then Some(-(DigitsValue(s[1..]) as int))
    else if |s| > 0 && AllDigits(s) then Some(DigitsValue(s))
    else None
  }

  lemma IntTextRoundTrip(x: int)
    ensures ParseInteger(IntText(x)) == Some(x)
  {
    if x < 0 {
      assert IntText(x)[1..] == NatText(-x);
      NatTextValue(-x);
    } else {
      NatTextValue(x);
    }
  }

  /**
   * `Integer.parseInt` restricted to ASCII digits: an optional sign ('-' or '+'), then one
   * or more digits, with a value that fits in 32 bits; anything else is the
   * NumberFormatException case. The other Unicode decimal digits are not modelled.
   */
  function ParseInt(s: string): (r: Option<int>)
    ensures r.Some? ==> INT_MIN <= r.value <= INT_MAX
    ensures r.Some? ==> |s| > 0 && (IsDigit(s[0]) || s[0] == '-' || s[0] == '+')
  {
    if |s| > 1 && (s[0] == '-' || s[0] == '+') && AllDigits(s[1..]) then
      var v: int := if s[0] == '-' then -(DigitsValue(s[1..]) as int) else DigitsValue(s[1..]);
      if INT_MIN <= v <= INT_MAX then Some(v) else None
    else if |s| > 0 && AllDigits(s) && DigitsValue(s) <= INT_MAX then Some(DigitsValue(s))
    else None
  }

  /**
   * What `Integer.parseInt` reads, in terms of the unbounded reader: the value of the text, or
   * of the digits after a '+', when that value fits in 32 bits; every other text is rejected.
   */
  lemma ParseIntMeaning(s: string, v: int)
    ensures ParseInt(s) == Some(v) <==>
              INT_MIN <= v <= INT_MAX &&
              (ParseInteger(s) == Some(v) || (|s| > 1 && s[0] == '+' && AllDigits(s[1..]) && ParseInteger(s[1..]) == Some(v)))
    ensures ParseInt(s).None? <==>
              (ParseInteger(s).None? || !(INT_MIN <= ParseInteger(s).value <= INT_MAX)) &&
              !(|s| > 1 && s[0] == '+' && AllDigits(s[1..]) && INT_MIN <= DigitsValue(s[1..]) <= INT_MAX)
  {
    if |s| > 0 && s[0] == '+' {
      assert !IsDigit(s[0]);
      assert ParseInteger(s).None?;
    }
  }

  /** Sample readings: signs, leading zeros, and texts `Integer.parseInt` rejects. */
  lemma ParseIntExamples()
    ensures ParseInt("+7") == Some(7) && ParseInt("007") == Some(7) && ParseInt("-0") == Some(0)
    ensures ParseInt("+") == None && ParseInt("") == None && ParseInt("7a") == None && ParseInt("+-7") == None
  {
    assert "+7"[1..] == "7";
    assert "007"[..2] == "00" && "00"[..1] == "0";
    assert "-0"[1..] == "0";
    assert !IsDigit("7a"[1]);
    assert !IsDigit("+-7"[1..][0]);
  }

  /** The text of an integer outside the 32-bit range, such as 2147483648, is rejected. */
  lemma ParseIntRejectsOutOfRange(x: int)
    requires x < INT_MIN || INT_MAX < x
    ensures ParseInt(IntText(x)) == None
  {
    IntTextRoundTrip(x);
    ParseIntMeaning(IntText(x), x);
    var t := IntText(x);
    assert t[0] != '+';
  }

  /** Every 32-bit value written by IntText is read back by `Integer.parseInt`. */
  lemma ParseIntOfIntText(x: int)
    requires INT_MIN <= x <= INT_MAX
    ensures ParseInt(IntText(x)) == Some(x)
  {
    if x < 0 {
      assert IntText(x)[1..] == NatText(-x);
      NatTextValue(-x);
    } else {
      NatTextValue(x);
    }
  }
}
