/** Decimal rendering of integers, as Python `str(int)` and Rust `i64::to_string`
    produce it, with its inverse. A feed identifier is stringified so that a
    consumer with doubles-only numbers cannot round it; the round trip below is
    what makes that safe. */
module Decimal {
  import opened Results

  predicate IsDigit(c: char) {
    '0' <= c <= '9'
  }

  predicate AllDigits(s: string) {
    forall i :: 0 <= i < |s| ==> IsDigit(s[i])
  }

  function DigitChar(d: nat): (c: char)
    requires d < 10
    ensures IsDigit(c)
  {
    ('0' as int + d) as char
  }

  function DigitValue(c: char): (d: nat)
    requires IsDigit(c)
    ensures d < 10
  {
    c as int - '0' as int
  }

  /** The digits of `n`, most significant first, without leading zeros. */
  function NatDigits(n: nat): (r: string)
    ensures |r| > 0 && AllDigits(r)
    ensures |r| > 1 ==> r[0] != '0'
    decreases n
  {
    if n < 10 then [DigitChar(n)] else NatDigits(n / 10) + [DigitChar(n % 10)]
  }

  /** A digit string without leading zeros (`0` itself is allowed). */
  predicate NoLeadingZero(s: string) {
    |s| > 0 && AllDigits(s) && (|s| > 1 ==> s[0] != '0')
  }

  /** The form `str(int)` and `to_string` produce: digits without leading
      zeros, or a minus sign followed by digits that do not start with `0`
      (so there is no `-0`). */
  predicate Canonical(s: string) {
    if |s| > 0 && s[0] == '-' then |s| > 1 && NoLeadingZero(s[1..]) && s[1] != '0'
    else NoLeadingZero(s)
  }

  /** `str(i)`: an optional minus sign followed by the digits of `|i|`. */
  function Decimal(i: int): (r: string)
    ensures |r| > 0
    ensures r[0] == '-' <==> i < 0
    ensures i < 0 ==> |r| > 1 && AllDigits(r[1..])
    ensures i >= 0 ==> AllDigits(r)
    ensures Canonical(r)
    ensures i == 0 ==> r == "0"
  {
    if i < 0 then "-" + NatDigits(-i) else NatDigits(i)
  }

  /** The number a string of digits denotes. */
  function DigitsValue(s: string): nat
    requires AllDigits(s)
    decreases |s|
  {
    if |s| == 0 then 0 else DigitsValue(s[..|s| - 1]) * 10 + DigitValue(s[|s| - 1])
  }

  /** Reads back an optionally signed decimal numeral. */
  function ParseDecimal(s: string): Option<int> {
    if |s| > 1 && s[0] == '-' && AllDigits(s[1..]) then Some(0 - DigitsValue(s[1..]) as int)
    else if |s| > 0 && AllDigits(s) then Some(DigitsValue(s))
    else None
  }

  lemma {:induction false} NatDigitsValue(n: nat)
    ensures DigitsValue(NatDigits(n)) == n
    decreases n
  {
    if n >= 10 {
      var s := NatDigits(n);
      assert s[..|s| - 1] == NatDigits(n / 10);
      NatDigitsValue(n / 10);
    }
  }

  /** Decimal rendering loses nothing: it reads back as the same integer. */
  lemma DecimalRoundTrip(i: int)
    ensures ParseDecimal(Decimal(i)) == Some(i)
  {
    if i < 0 {
      assert Decimal(i)[1..] == NatDigits(-i);
      NatDigitsValue(-i);
    } else {
      NatDigitsValue(i);
    }
  }

  /** A digit string without leading zeros that starts with a non-zero digit
      denotes a positive number. */
  lemma {:induction false} LeadingDigitPositive(s: string)
    requires NoLeadingZero(s) && s[0] != '0'
    ensures DigitsValue(s) > 0
    decreases |s|
  {
    if |s| > 1 {
      var p := s[..|s| - 1];
      assert p[0] == s[0];
      LeadingDigitPositive(p);
    }
  }

  /** A digit string without leading zeros is the rendering of its value. */
  lemma {:induction false} NoLeadingZeroIsNatDigits(s: string)
    requires NoLeadingZero(s)
    ensures NatDigits(DigitsValue(s)) == s
    decreases |s|
  {
    var n := DigitsValue(s);
    var c := s[|s| - 1];
    assert DigitChar(DigitValue(c)) == c;
    if |s| > 1 {
      var p := s[..|s| - 1];
      assert p[0] == s[0];
      LeadingDigitPositive(p);
      NoLeadingZeroIsNatDigits(p);
      assert n == DigitsValue(p) * 10 + DigitValue(c);
      assert n / 10 == DigitsValue(p) && n % 10 == DigitValue(c);
      assert s == p + [c];
    }
  }

  /** The rendering is the only canonical numeral of an integer: any
      canonical string that reads back as `i` is `Decimal(i)`. */
  lemma CanonicalIsDecimal(s: string, i: int)
    requires Canonical(s) && ParseDecimal(s) == Some(i)
    ensures s == Decimal(i)
  {
    if s[0] == '-' {
      var t := s[1..];
      LeadingDigitPositive(t);
      NoLeadingZeroIsNatDigits(t);
      assert s == "-" + t;
    } else {
      NoLeadingZeroIsNatDigits(s);
    }
  }

  /** Distinct identifiers never share a string form. */
  lemma DecimalInjective(i: int, j: int)
    requires Decimal(i) == Decimal(j)
    ensures i == j
  {
    DecimalRoundTrip(i);
    DecimalRoundTrip(j);
  }
}
