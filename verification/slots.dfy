/** Jobs per task slot of a proxy. */
module Slots {

  /** Unknown slots count as one. */
  function Weight(slots: int): (w: int)
    ensures w > 0
  {
    if slots <= 0 then 1 else slots
  }

  function PerSlot(jobs: int, slots: int): real {
    jobs as real / Weight(slots) as real
  }

  lemma OneMoreJobCounts(jobs: int, slots: int)
    ensures PerSlot(jobs, slots) < PerSlot(jobs + 1, slots)
  {
    var w := Weight(slots) as real;
    assert (jobs + 1) as real / w == jobs as real / w + 1.0 / w;
  }

  lemma {:induction false} MoreJobsCountMore(j: int, k: int, slots: int)
    requires j <= k
    ensures PerSlot(j, slots) <= PerSlot(k, slots)
    ensures j < k ==> PerSlot(j, slots) < PerSlot(k, slots)
    decreases k - j
  {
    if j < k {
      OneMoreJobCounts(j, slots);
      MoreJobsCountMore(j + 1, k, slots);
    }
  }

  /** Comparing loads per slot is comparing products. */
  lemma PerSlotLess(j: int, s: int, k: int, t: int)
    ensures PerSlot(j, s) < PerSlot(k, t) <==> j * Weight(t) < k * Weight(s)
    ensures PerSlot(j, s) == PerSlot(k, t) <==> j * Weight(t) == k * Weight(s)
  {
    var a, b, v, w := PerSlot(j, s), PerSlot(k, t), Weight(s) as real, Weight(t) as real;
    assert a * v == j as real && b * w == k as real;
    assert a * (v * w) == (j * Weight(t)) as real by { Regroup(a, v, w, j); }
    assert b * (v * w) == (k * Weight(s)) as real by { Regroup(b, w, v, k); assert v * w == w * v; }
    ProductIsPositive(v, w);
    ScaledBoth(a, b, v * w);
  }

  lemma Regroup(a: real, v: real, w: real, j: int)
    requires a * v == j as real && w == w.Floor as real
    ensures a * (v * w) == (j * w.Floor) as real
  {
    assert a * (v * w) == (a * v) * w;
    assert (j * w.Floor) as real == j as real * w.Floor as real;
  }

  lemma ProductIsPositive(v: real, w: real)
    requires v > 0.0 && w > 0.0
    ensures v * w > 0.0
  {}

  lemma ScaledBoth(a: real, b: real, c: real)
    requires c > 0.0
    ensures a < b <==> a * c < b * c
    ensures a == b <==> a * c == b * c
  {
    if a < b { LessTimes(a, b, c); }
    if b < a { LessTimes(b, a, c); }
  }

  lemma LessTimes(a: real, b: real, c: real)
    requires c > 0.0 && a < b
    ensures a * c < b * c
  {}

  lemma Halves(n: int, m: int)
    ensures n as real < 0.5 * m as real <==> 2 * n < m
  {}

  lemma Difference(a: real, b: real, c: real)
    ensures (a - b) * c == a * c - b * c
  {}

  /** Half a job per slot apart, as products. */
  lemma HalfAJobApart(j: int, s: int, k: int, t: int)
    ensures PerSlot(j, s) - PerSlot(k, t) >= 0.5 <==> 2 * (j * Weight(t) - k * Weight(s)) >= Weight(s) * Weight(t)
  {
    var a, b, v, w := PerSlot(j, s), PerSlot(k, t), Weight(s) as real, Weight(t) as real;
    assert a * v == j as real && b * w == k as real;
    var m, c := Weight(s) * Weight(t), v * w;
    assert a * c == (j * Weight(t)) as real by { Regroup(a, v, w, j); }
    assert b * c == (k * Weight(s)) as real by { Regroup(b, w, v, k); assert c == w * v; }
    assert m as real == c;
    ProductIsPositive(v, w);
    HalfApart(a, b, c, j * Weight(t), k * Weight(s), m);
  }

  lemma HalfApart(a: real, b: real, c: real, x: int, y: int, m: int)
    requires c > 0.0 && a * c == x as real && b * c == y as real && c == m as real
    ensures a - b >= 0.5 <==> 2 * (x - y) >= m
  {
    Difference(a, b, c);
    ScaledBoth(a - b, 0.5, c);
    Halves(x - y, m);
  }
}
