/**
 * Python's decimal rendering of an int, as an f-string writes it, and the
 * parser that reads it back.
 */
module Decimal {
  import opened Records

  predicate IsDigit(c: char) {
    '0' <= c <= '9'
  }

  predicate AllDigits(s: string) {
    forall i :: 0 <= i < |s| ==> IsDigit(s[i])
  }

  function DigitChar(d: nat): (c: char)
    requires d < 10
    ensures IsDigit(c) && (c as int) - ('0' as int) == d
  {
    ('0' as int + d) as char
  }

  /** A non-empty string of digits without a leading zero: the form str
      gives a non-negative int. */
  predicate IsNatDecimal(s: string) {
    |s| >= 1 && AllDigits(s) && (|s| > 1 ==> s[0] != '0')
  }

  /** The form str gives an int: a non-negative one, or a minus sign
      followed by the digits of a positive one (never "-0"). */
  predicate IsIntDecimal(s: string) {
    || IsNatDecimal(s)
    || (|s| >= 2 && s[0] == '-' && IsNatDecimal(s[1..]) && s[1..] != "0")
  }

  /** The decimal digits of n, most significant first, without leading
      zeros; the single digit "0" exactly for 0. */
  function NatToDecimal(n: nat): (s: string)
    ensures IsNatDecimal(s)
    ensures s == "0" <==> n == 0
    decreases n
  {
    if n < 10 then [DigitChar(n)] else NatToDecimal(n / 10) + [DigitChar(n % 10)]
  }

  /** str(n) for a Python int: a minus sign before the digits of a negative
      number. */
  function IntToDecimal(n: int): (s: string)
    ensures IsIntDecimal(s)
    ensures s[0] == '-' <==> n < 0
  {
    if n < 0 then "-" + NatToDecimal(-n) else NatToDecimal(n)
  }

  /** The number a string of digits denotes. */
  function DigitsValue(s: string): nat
    requires AllDigits(s)
    decreases |s|
  {
    if s == [] then 0
    else DigitsValue(s[..|s| - 1]) * 10 + ((s[|s| - 1] as int) - ('0' as int))
  }

  /** int(s) for an optional minus sign followed by at least one digit. */
  function ParseInt(s: string): Option<int>
  {
    if |s| > 1 && s[0] == '-' && AllDigits(s[1..]) then Some(-(DigitsValue(s[1..]) as int))
    else if |s| > 0 && AllDigits(s) then Some(DigitsValue(s))
    else None
  }

  lemma {:induction false} NatRoundTrip(n: nat)
    ensures DigitsValue(NatToDecimal(n)) == n
    decreases n
  {
    if n >= 10 {
      var s := NatToDecimal(n);
      NatRoundTrip(n / 10);
      assert s[..|s| - 1] == NatToDecimal(n / 10);
    }
  }

  /** Reading back what str(n) wrote gives n, for every int. */
  lemma {:induction false} DecimalRoundTrip(n: int)
    ensures ParseInt(IntToDecimal(n)) == Some(n)
  {
    var magnitude: nat := if n < 0 then -n else n;
    var digits := NatToDecimal(magnitude);
    NatRoundTrip(magnitude);
    if n < 0 {
      var s := "-" + digits;
      assert s[0] == '-' && s[1..] == digits;
      assert IntToDecimal(n) == s;
    } else {
      assert IsDigit(digits[0]);
      assert IntToDecimal(n) == digits;
    }
  }

  /** A digit string without a leading zero denotes at least 1 unless it is
      the single digit "0". */
  lemma {:induction false} NatDecimalIsPositive(s: string)
    requires IsNatDecimal(s) && s != "0"
    ensures DigitsValue(s) >= 1
    decreases |s|
  {
    if |s| > 1 {
      var init := s[..|s| - 1];
      assert init[0] == s[0];
      NatDecimalIsPositive(init);
    } else {
      assert s == [s[0]];
    }
  }

  /** A digit string without a leading zero is the one NatToDecimal writes
      for its value. */
  lemma {:induction false} NatDecimalIsUnique(s: string)
    requires IsNatDecimal(s)
    ensures s == NatToDecimal(DigitsValue(s))
    decreases |s|
  {
    var n := DigitsValue(s);
    var last := s[|s| - 1];
    if |s| == 1 {
      assert s == [last] && s[..0] == [];
      assert n == (last as int) - ('0' as int) < 10;
      assert DigitChar(n) == last;
    } else {
      var init := s[..|s| - 1];
      assert init[0] == s[0];
      NatDecimalIsPositive(init);
      NatDecimalIsUnique(init);
      var d := (last as int) - ('0' as int);
      assert n == DigitsValue(init) * 10 + d && 0 <= d < 10;
      assert n / 10 == DigitsValue(init) && n % 10 == d;
      assert DigitChar(d) == last;
      assert s == init + [last];
    }
  }

  /** str writes each int in exactly one way: the only string in its form
      that parses to n is IntToDecimal(n). */
  lemma {:induction false} DecimalIsUnique(s: string, n: int)
    requires IsIntDecimal(s) && ParseInt(s) == Some(n)
    ensures s == IntToDecimal(n)
  {
    if IsNatDecimal(s) {
      assert s[0] != '-';
      NatDecimalIsUnique(s);
    } else {
      var digits := s[1..];
      NatDecimalIsUnique(digits);
      NatDecimalIsPositive(digits);
      assert s == "-" + digits;
    }
  }
}
