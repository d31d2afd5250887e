/** Decimal text of integers, as JavaScript's `Number.prototype.toString` and
    `String(n)` print an integral number and Python's `str` prints an `int`, and the
    matching parser (what a server does when it reads such a query parameter back). */
module Decimal {
  import opened Wrappers

  predicate IsDigit(c: char) {
    '0' <= c <= '9'
  }

  predicate AllDigits(s: string) {
    forall i :: 0 <= i < |s| ==> IsDigit(s[i])
  }

  function DigitValue(c: char): (d: nat)
    requires IsDigit(c)
    ensures d < 10
  {
    c as int - '0' as int
  }

  function DigitChar(d: nat): (c: char)
    requires d < 10
    ensures IsDigit(c) && DigitValue(c) == d
  {
    (d + '0' as int) as char
  }

  /** The digits of `n`, most significant first, with no leading zero. */
  function NatToString(n: nat): (s: string)
    ensures 1 <= |s| && AllDigits(s)
    ensures s[0] == '0' <==> n == 0
  {
    if n < 10 then [DigitChar(n)] else NatToString(n / 10) + [DigitChar(n % 10)]
  }

  /** `String(n)` for an integral `n`: a minus sign, then the digits of `|n|`. */
  function IntToString(n: int): (s: string)
    ensures 1 <= |s|
    ensures s[0] == '-' <==> n < 0
  {
    if n < 0 then "-" + NatToString(-n) else NatToString(n)
  }

  /** `String(b)` for a boolean. */
  function BoolToString(b: bool): (s: string)
    ensures s == "true" || s == "false"
    ensures b <==> s == "true"
  {
    if b then "true" else "false"
  }

  /** The number a string of digits denotes. */
  function DigitsValue(s: string): nat
    requires AllDigits(s)
  {
    if s == [] then 0 else 10 * DigitsValue(s[..|s| - 1]) + DigitValue(s[|s| - 1])
  }

  /** Reads an optionally signed run of digits back; anything else is rejected. */
  function ParseInt(s: string): (r: Option<int>)
    ensures r.Some? ==> 1 <= |s|
    ensures |s| >= 1 && AllDigits(s) ==> r == Some(DigitsValue(s))
  {
    if 1 <= |s| && AllDigits(s) then Some(DigitsValue(s))
    else if 2 <= |s| && s[0] == '-' && AllDigits(s[1..]) then Some(-(DigitsValue(s[1..]) as int))
    else None
  }

  /** The digits of `n` denote `n`. */
  lemma {:induction false} NatToStringValue(n: nat)
    ensures DigitsValue(NatToString(n)) == n
  {
    if n >= 10 {
      var s := NatToString(n);
      assert s[..|s| - 1] == NatToString(n / 10);
      NatToStringValue(n / 10);
    }
  }

  /** Printing an integer and reading it back gives the integer. */
  lemma IntToStringRoundTrip(n: int)
    ensures ParseInt(IntToString(n)) == Some(n)
  {
    if n < 0 {
      var t := NatToString(-n);
      NatToStringValue(-n);
      ParseNegative(t);
      assert ParseInt("-" + t) == Some(n);
      assert IntToString(n) == "-" + t;
    } else {
      ParseNat(n);
      assert IntToString(n) == NatToString(n);
    }
  }

  lemma ParseNat(n: nat)
    ensures ParseInt(NatToString(n)) == Some(n)
  {
    NatToStringValue(n);
  }

  /** A minus sign before a run of digits reads as the negated value. */
  lemma ParseNegative(t: string)
    requires 1 <= |t| && AllDigits(t)
    ensures ParseInt("-" + t) == Some(-(DigitsValue(t) as int))
  {
    var s := "-" + t;
    assert !IsDigit(s[0]);
    assert s[1..] == t;
  }

  /** Distinct integers print differently. */
  lemma IntToStringInjective(a: int, b: int)
    ensures IntToString(a) == IntToString(b) ==> a == b
  {
    IntToStringRoundTrip(a);
    IntToStringRoundTrip(b);
  }

  /** The defaults the request functions print. */
  lemma SmallDecimals()
    ensures IntToString(0) == "0" && IntToString(1) == "1" && IntToString(10) == "10"
  {
    assert NatToString(10) == NatToString(1) + [DigitChar(0)];
  }

  /** Exactly the numbers 100..999 print with three digits, and then the leading
      digit is the hundreds digit. */
  lemma {:induction false} ThreeDigits(n: nat)
    ensures |NatToString(n)| == 3 <==> 100 <= n <= 999
    ensures |NatToString(n)| == 3 ==> NatToString(n)[0] == DigitChar(n / 100)
  {
    if n >= 1000 {
      AtLeastThreeDigits(n / 10);
    } else if n >= 100 {
      assert NatToString(n / 10) == NatToString(n / 100) + [DigitChar(n / 10 % 10)];
    } else if n >= 10 {
      assert |NatToString(n / 10)| == 1;
    }
  }

  lemma {:induction false} AtLeastThreeDigits(n: nat)
    requires n >= 100
    ensures |NatToString(n)| >= 3
  {
    if n >= 1000 {
      AtLeastThreeDigits(n / 10);
    } else {
      assert |NatToString(n / 10)| == 2 by {
        assert |NatToString(n / 100)| == 1;
      }
    }
  }
}
