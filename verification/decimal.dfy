/** Decimal digit strings: JavaScript's `Number(digits)` on a run of ASCII
    digits and `String(n)` on a non-negative integer. Numbers are unbounded
    here; the float precision of `Number` is not modelled. */
module Decimal {

  /** The regular-expression class `\d`: ASCII digits only. */
  predicate IsDigit(c: char) {
    '0' <= c <= '9'
  }

  predicate AllDigits(s: string) {
    forall i :: 0 <= i < |s| ==> IsDigit(s[i])
  }

  /** A character of a digit string is a digit. */
  lemma DigitAt(s: string, i: nat)
    requires AllDigits(s) && i < |s|
    ensures IsDigit(s[i])
  {
  }

  /** The shape `String(n)` produces: digits, and no leading zero unless the
      number is a single digit. */
  predicate Canonical(s: string) {
    |s| > 0 && AllDigits(s) && (|s| > 1 ==> s[0] != '0')
  }

  function DigitValue(c: char): (d: nat)
    requires IsDigit(c)
    ensures d < 10
  {
    c as int - '0' as int
  }

  function DigitChar(d: nat): (c: char)
    requires d < 10
    ensures IsDigit(c) && DigitValue(c) == d
  {
    ('0' as int + d) as char
  }

  /** `Number(ds)` for a digit string, read most significant digit first. */
  function Value(ds: string): nat
    requires AllDigits(ds)
    decreases |ds|
  {
    if |ds| == 0 then 0 else Value(ds[..|ds| - 1]) * 10 + DigitValue(ds[|ds| - 1])
  }

  /** `String(n)` for a non-negative integer. */
  function ToString(n: nat): (r: string)
    ensures Canonical(r)
    ensures |r| == 1 <==> n < 10
  {
    if n < 10 then [DigitChar(n)] else ToString(n / 10) + [DigitChar(n % 10)]
  }

  /** Reading back the decimal form of n gives n. */
  lemma {:induction false} ValueOfToString(n: nat)
    ensures Value(ToString(n)) == n
  {
    if n >= 10 {
      var r := ToString(n);
      assert r[..|r| - 1] == ToString(n / 10);
      ValueOfToString(n / 10);
    }
  }

  /** A canonical digit string is the decimal form of its value: `String`
      and `Number` are inverse on canonical strings. */
  lemma {:induction false} ToStringOfValue(ds: string)
    requires Canonical(ds)
    ensures ToString(Value(ds)) == ds
    decreases |ds|
  {
    if |ds| > 1 {
      var front := ds[..|ds| - 1];
      assert Canonical(front) by {
        assert front[0] == ds[0];
      }
      PositiveValue(front);
      ToStringOfValue(front);
      var v := Value(ds);
      assert v / 10 == Value(front) && v % 10 == DigitValue(ds[|ds| - 1]);
      assert ToString(v) == ToString(v / 10) + [DigitChar(v % 10)];
      assert ds == front + [ds[|ds| - 1]];
    }
  }

  /** A digit string that does not start with '0' has a positive value. */
  lemma {:induction false} PositiveValue(ds: string)
    requires |ds| > 0 && AllDigits(ds) && ds[0] != '0'
    ensures Value(ds) > 0
    decreases |ds|
  {
    if |ds| > 1 {
      var front := ds[..|ds| - 1];
      assert front[0] == ds[0];
      PositiveValue(front);
    }
  }

  /** Leading zeros do not change the value: `Number("07") == 7`. */
  lemma {:induction false} LeadingZero(ds: string)
    requires AllDigits(ds)
    ensures AllDigits("0" + ds) && Value("0" + ds) == Value(ds)
    decreases |ds|
  {
    if |ds| > 0 {
      var zs := "0" + ds;
      assert zs[..|zs| - 1] == "0" + ds[..|ds| - 1];
      LeadingZero(ds[..|ds| - 1]);
    }
  }
}
