/** Products and quotients of whole numbers. */
module Quotients {

  lemma Times(k: int, a: int, b: int)
    requires k >= 0 && a <= b
    ensures k * a <= k * b
  {}

  lemma Cancel(k: int, a: int, b: int)
    requires k > 0
    ensures k * a <= b * k ==> a <= b
    ensures a * k < k * b ==> a < b
  {
    if a > b { Times(k, b + 1, a); }
    if a >= b { Times(k, b, a); }
  }

  lemma FloorBound(n: int, d: int)
    requires d > 0
    ensures d * (n / d) <= n < d * (n / d + 1)
  {}

  lemma QuotientIsNonNegative(n: int, d: int)
    requires n >= 0 && d > 0
    ensures n / d >= 0
  {
    QuotientBetween(n, d, 0, n + 1);
  }

  /** A quotient lies between two numbers when the dividend lies between their multiples. */
  lemma QuotientBetween(n: int, d: int, lo: int, hi: int)
    requires d > 0 && d * lo <= n
    ensures lo <= n / d
    ensures n < d * hi ==> n / d < hi
  {
    FloorBound(n, d);
    var q := n / d;
    if q < lo { Times(d, q + 1, lo); }
    if q >= hi { Times(d, hi, q); }
  }
}
