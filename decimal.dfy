/**
 * Decimal text of integers, as written by Go's strconv.Itoa and by fmt.Sprint
 * on an int: no leading zeros, a leading '-' for negative values.
 * ToNat is the inverse used to show that distinct numbers give distinct text.
 */
module Decimal {

  predicate IsDigit(c: char) {
    '0' <= c <= '9'
  }

  predicate AllDigits(s: string) {
    forall i :: 0 <= i < |s| ==> IsDigit(s[i])
  }

  function DigitChar(d: nat): (c: char)
    requires d < 10
    ensures IsDigit(c)
  {
    (('0' as int) + d) as char
  }

  function DigitValue(c: char): (d: nat)
    requires IsDigit(c)
    ensures d < 10
    ensures DigitChar(d) == c
  {
    (c as int) - ('0' as int)
  }

  /** strconv.Itoa on a non-negative int. */
  function FromNat(n: nat): (s: string)
    ensures |s| >= 1 && AllDigits(s)
    ensures s[0] == '0' ==> n == 0   // no leading zeros
    ensures n < 10 <==> |s| == 1
    decreases n
  {
    if n < 10 then [DigitChar(n)] else FromNat(n / 10) + [DigitChar(n % 10)]
  }

  /** strconv.Itoa / fmt.Sprint on any int. */
  function FromInt(i: int): (s: string)
    ensures |s| >= 1
    ensures i >= 0 <==> AllDigits(s)
  {
    if i < 0 then
      var s := "-" + FromNat(-i);
      assert !IsDigit(s[0]);
      s
    else FromNat(i)
  }

  /** Reads back a string of decimal digits. */
  function ToNat(s: string): nat
    requires AllDigits(s)
    decreases |s|
  {
    if s == [] then 0 else 10 * ToNat(s[..|s| - 1]) + DigitValue(s[|s| - 1])
  }

  lemma {:induction false} ToNatFromNat(n: nat)
    ensures ToNat(FromNat(n)) == n
    decreases n
  {
    if n >= 10 {
      ToNatFromNat(n / 10);
      var s := FromNat(n);
      assert s[..|s| - 1] == FromNat(n / 10);
      assert DigitValue(s[|s| - 1]) == n % 10;
    } else {
      assert DigitValue(DigitChar(n)) == n;
    }
  }

  /** Distinct numbers have distinct decimal text. */
  lemma FromNatInjective(m: nat, n: nat)
    ensures FromNat(m) == FromNat(n) <==> m == n
  {
    ToNatFromNat(m);
    ToNatFromNat(n);
  }

  /** Distinct ints have distinct decimal text, sign included. */
  lemma FromIntInjective(i: int, j: int)
    ensures FromInt(i) == FromInt(j) <==> i == j
  {
    if FromInt(i) == FromInt(j) {
      if i < 0 && j < 0 {
        assert FromNat(-i) == FromInt(i)[1..];
        FromNatInjective(-i, -j);
      } else if i >= 0 && j >= 0 {
        FromNatInjective(i, j);
      }
    }
  }
}
