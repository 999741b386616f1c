/** Decimal numerals, as lists of digits. */
module Numerals {

  type Digit = d: nat | d < 10

  function Digits(n: nat): (ds: seq<Digit>)
    ensures |ds| >= 1
  {
    if n < 10 then [n] else Digits(n / 10) + [n % 10]
  }

  function Value(ds: seq<Digit>): nat {
    if ds == [] then 0 else 10 * Value(ds[..|ds| - 1]) + ds[|ds| - 1]
  }

  lemma {:induction false} ValueOfDigits(n: nat)
    ensures Value(Digits(n)) == n
  {
    if n >= 10 {
      ValueOfDigits(n / 10);
      assert Digits(n)[..|Digits(n)| - 1] == Digits(n / 10);
    }
  }

  function TenTo(k: nat): (p: nat)
    ensures p >= 1
  {
    if k == 0 then 1 else 10 * TenTo(k - 1)
  }

  lemma {:induction false} DigitsWithin(n: nat, k: nat)
    requires k >= 1 && n < TenTo(k)
    ensures |Digits(n)| <= k
  {
    if n >= 10 {
      assert TenTo(0) == 1 && TenTo(k) == 10 * TenTo(k - 1);
      DigitsWithin(n / 10, k - 1);
    }
  }
}
