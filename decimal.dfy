/**
  Decimal integer numerals: the syntax a version string must have before its
  value is looked at. A numeral is an optional sign followed by at least one
  decimal digit, as Go's base-10 integer parsing accepts it. `Parse` reads a
  numeral, `Show` writes an integer in canonical form, and the two are proved
  to be inverse to each other.
*/
module Decimal {
  import opened Wrappers

  predicate IsDigit(c: char) {
    '0' <= c <= '9'
  }

  predicate IsSign(c: char) {
    c == '+' || c == '-'
  }

  predicate AllDigits(s: string) {
    forall i :: 0 <= i < |s| ==> IsDigit(s[i])
  }

  /** An optional sign followed by one or more decimal digits. */
  predicate IsNumeral(s: string) {
    && |s| > 0
    && (IsSign(s[0]) ==> |s| > 1)
    && forall i :: (if IsSign(s[0]) then 1 else 0) <= i < |s| ==> IsDigit(s[i])
  }

  /** The numerals `Show` produces: no '+', no leading zero, no "-0". */
  predicate IsCanonical(s: string) {
    && IsNumeral(s)
    && s[0] != '+'
    && var digits := if s[0] == '-' then s[1..] else s;
       digits[0] != '0' || (digits == "0" && s[0] != '-')
  }

  function DigitValue(c: char): (d: nat)
    requires IsDigit(c)
    ensures d <= 9
  {
    c as int - '0' as int
  }

  function DigitChar(d: nat): (c: char)
    requires d <= 9
    ensures IsDigit(c) && DigitValue(c) == d
  {
    ('0' as int + d) as char
  }

  /** The value of a run of digits, most significant digit first. */
  function DigitsValue(s: string): nat
    requires AllDigits(s)
  {
    if s == [] then 0 else 10 * DigitsValue(s[..|s| - 1]) + DigitValue(s[|s| - 1])
  }

  /** Reads a whole string as a numeral; None when it is not one. */
  function Parse(s: string): (r: Option<int>)
    ensures r.Some? <==> IsNumeral(s)
  {
    if s == [] then None
    else if IsSign(s[0]) then
      var digits := s[1..];
      if digits != [] && AllDigits(digits) then
        var magnitude: int := DigitsValue(digits);
        Some(if s[0] == '-' then -magnitude else magnitude)
      else
        None
    else if AllDigits(s) then Some(DigitsValue(s))
    else None
  }

  /** The digits of a natural number, without leading zeros. */
  function ShowNat(n: nat): (s: string)
    ensures |s| > 0 && AllDigits(s)
    ensures s[0] == '0' <==> n == 0
  {
    if n < 10 then [DigitChar(n)] else ShowNat(n / 10) + [DigitChar(n % 10)]
  }

  /** The canonical numeral of an integer: a '-' before negative values only. */
  function Show(i: int): string {
    if i < 0 then "-" + ShowNat(-i) else ShowNat(i)
  }

  lemma {:induction false} DigitsValueOfShowNat(n: nat)
    ensures DigitsValue(ShowNat(n)) == n
  {
    var s := ShowNat(n);
    if n < 10 {
      assert s[..|s| - 1] == [];
    } else {
      assert s[..|s| - 1] == ShowNat(n / 10);
      DigitsValueOfShowNat(n / 10);
    }
  }

  lemma {:induction false} ShowNatOfDigitsValue(d: string)
    requires |d| > 0 && AllDigits(d)
    requires d[0] != '0' || |d| == 1
    ensures ShowNat(DigitsValue(d)) == d
  {
    var last := d[|d| - 1];
    if |d| == 1 {
      assert d[..0] == [];
      assert DigitChar(DigitValue(last)) == last;
      assert d == [last];
    } else {
      var prefix := d[..|d| - 1];
      ShowNatOfDigitsValue(prefix);
      var v := DigitsValue(prefix);
      assert v != 0;
      var n := 10 * v + DigitValue(last);
      assert n / 10 == v && n % 10 == DigitValue(last);
      assert DigitChar(DigitValue(last)) == last;
      assert prefix + [last] == d;
    }
  }

  /** Every integer survives writing then reading back. */
  lemma ParseShow(i: int)
    ensures Parse(Show(i)) == Some(i)
  {
    var digits := ShowNat(if i < 0 then -i else i);
    DigitsValueOfShowNat(if i < 0 then -i else i);
    if i < 0 {
      assert Show(i)[1..] == digits;
    }
  }

  /** Every canonical numeral survives reading then writing back. */
  lemma ShowParse(s: string)
    requires IsCanonical(s)
    ensures Parse(s).Some? && Show(Parse(s).value) == s
  {
    if s[0] == '-' {
      var digits := s[1..];
      assert AllDigits(digits);
      ShowNatOfDigitsValue(digits);
      assert DigitsValue(digits) != 0;
      assert "-" + digits == s;
    } else {
      ShowNatOfDigitsValue(s);
    }
  }

  /** A leading zero does not change the value of a run of digits. */
  lemma {:induction false} DigitsValueLeadingZero(d: string)
    requires AllDigits(d)
    ensures AllDigits("0" + d) && DigitsValue("0" + d) == DigitsValue(d)
  {
    var z := "0" + d;
    if d == [] {
      assert z[..0] == [];
    } else {
      var prefix := d[..|d| - 1];
      assert z[..|z| - 1] == "0" + prefix;
      DigitsValueLeadingZero(prefix);
    }
  }

  /** Leading zeros are ignored: "007" reads as 7. */
  lemma ParseLeadingZero(d: string)
    requires |d| > 0 && AllDigits(d)
    ensures Parse("0" + d) == Parse(d)
  {
    DigitsValueLeadingZero(d);
  }

  /** A '+' sign is ignored: "+1" reads as 1. */
  lemma ParsePlus(d: string)
    requires |d| > 0 && AllDigits(d)
    ensures Parse("+" + d) == Parse(d)
  {
    assert ("+" + d)[1..] == d;
  }

  /** A '-' sign negates: "-0" reads as 0, "-5" as -5. */
  lemma ParseMinus(d: string)
    requires |d| > 0 && AllDigits(d)
    ensures Parse(d).Some? && Parse("-" + d) == Some(-Parse(d).value)
  {
    assert ("-" + d)[1..] == d;
  }
}
