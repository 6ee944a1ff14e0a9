/**
 * Decimal digit strings as Java reads and writes them: String.valueOf(int) and
 * printf's %d on one side, Integer.parseInt and Long.parseLong on the other.
 * Only ASCII digits are modelled.
 */
module Decimal {
  import opened Wrappers

  const INT_MIN: int := -0x8000_0000
  const INT_MAX: int := 0x7fff_ffff
  const LONG_MIN: int := -0x8000_0000_0000_0000
  const LONG_MAX: int := 0x7fff_ffff_ffff_ffff

  predicate IsDigit(c: char) { '0' <= c <= '9' }

  predicate AllDigits(s: string) { forall i :: 0 <= i < |s| ==> IsDigit(s[i]) }

  function DigitValue(c: char): nat
    requires IsDigit(c)
  {
    c as int - '0' as int
  }

  function DigitChar(d: nat): (c: char)
    requires d < 10
    ensures IsDigit(c) && DigitValue(c) == d
  {
    ('0' as int + d) as char
  }

  /** The value of a string of digits, most significant first. */
  function DigitsValue(s: string): nat
    requires AllDigits(s)
  {
    if s == [] then 0 else 10 * DigitsValue(s[..|s| - 1]) + DigitValue(s[|s| - 1])
  }

  /** The shortest decimal rendering of a natural number. */
  function NatToString(n: nat): (s: string)
    ensures |s| > 0 && AllDigits(s)
    decreases n
  {
    if n < 10 then [DigitChar(n)] else NatToString(n / 10) + [DigitChar(n % 10)]
  }

  /** String.valueOf(int) and %d: a minus sign for negatives, then the digits. */
  function IntToString(i: int): string
  {
    if i < 0 then "-" + NatToString(-i) else NatToString(i)
  }

  lemma {:induction false} DigitsOfNat(n: nat)
    ensures DigitsValue(NatToString(n)) == n
    decreases n
  {
    var s := NatToString(n);
    if n >= 10 {
      DigitsOfNat(n / 10);
      assert s[..|s| - 1] == NatToString(n / 10);
    }
  }

  lemma IntToStringShape(i: int)
    ensures i >= 0 ==> AllDigits(IntToString(i)) && |IntToString(i)| > 0
    ensures i < 0 ==> |IntToString(i)| > 1 && IntToString(i)[0] == '-' && AllDigits(IntToString(i)[1..])
  {
    if i < 0 { assert IntToString(i)[1..] == NatToString(-i); }
  }

  /** Renderings of different numbers differ (patient ids map to distinct strings). */
  lemma IntToStringInjective(i: int, j: int)
    requires IntToString(i) == IntToString(j)
    ensures i == j
  {
    IntToStringShape(i);
    IntToStringShape(j);
    if i < 0 {
      assert IntToString(i)[1..] == NatToString(-i);
      assert IntToString(j)[1..] == NatToString(-j);
      DigitsOfNat(-i);
      DigitsOfNat(-j);
    } else {
      DigitsOfNat(i);
      DigitsOfNat(j);
    }
  }

  /**
   * Integer.parseInt / Long.parseLong over ASCII digits: an optional sign, at
   * least one digit, and the value inside [lo, hi]; anything else is a
   * NumberFormatException, modelled as None.
   */
  function ParseSigned(s: string, lo: int, hi: int): (r: Option<int>)
    ensures r.Some? ==> lo <= r.value <= hi
    ensures r.Some? ==> |s| > 0 && (s[0] != '-' ==> r.value >= 0)
  {
    if |s| == 0 then None
    else
      var neg := s[0] == '-';
      var body := if s[0] == '-' || s[0] == '+' then s[1..] else s;
      if |body| == 0 || !AllDigits(body) then None
      else
        var v: int := if neg then 0 - DigitsValue(body) as int else DigitsValue(body);
        if lo <= v <= hi then Some(v) else None
  }

  /** Integer.parseInt: a result is always a 32-bit int. */
  function ParseInt(s: string): (r: Option<int>)
    ensures r.Some? ==> INT_MIN <= r.value <= INT_MAX
  {
    ParseSigned(s, INT_MIN, INT_MAX)
  }

  /** Long.parseLong: a result is always a 64-bit long. */
  function ParseLong(s: string): (r: Option<int>)
    ensures r.Some? ==> LONG_MIN <= r.value <= LONG_MAX
  {
    ParseSigned(s, LONG_MIN, LONG_MAX)
  }

  /** An unsigned digit string, leading zeros allowed, reads as its value when that is in range. */
  lemma ParseSignedDigits(s: string, lo: int, hi: int)
    requires |s| > 0 && AllDigits(s) && lo <= 0
    ensures ParseSigned(s, lo, hi) == if DigitsValue(s) <= hi then Some(DigitsValue(s) as int) else None
  {
    assert IsDigit(s[0]);
  }

  /** Reading back what String.valueOf wrote gives the number, inside the range. */
  lemma ParseSignedRoundTrip(i: int, lo: int, hi: int)
    requires lo <= i <= hi
    ensures ParseSigned(IntToString(i), lo, hi) == Some(i)
  {
    var s := IntToString(i);
    IntToStringShape(i);
    if i < 0 {
      assert s[1..] == NatToString(-i);
      DigitsOfNat(-i);
    } else {
      assert DigitChar(0) == '0';
      DigitsOfNat(i);
    }
  }

  /** An out-of-range digit string is refused, so no value outside [lo, hi] is stored. */
  lemma ParseSignedRejectsOverflow(n: nat, lo: int, hi: int)
    requires n > hi
    ensures ParseSigned(NatToString(n), lo, hi) == None
  {
    DigitsOfNat(n);
  }
}
