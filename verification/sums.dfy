/** Totals kept in maps: a missing key counts 0, as in a Go map. */
module Sums {

  function At<K>(m: map<K, int>, k: K): int {
    if k in m then m[k] else 0
  }

  function AddTo<K>(m: map<K, int>, k: K, v: int): map<K, int> {
    m[k := At(m, k) + v]
  }

  ghost function SumOver<K(!new)>(keys: set<K>, m: map<K, int>): int {
    if keys == {} then 0
    else
      var k :| k in keys;
      At(m, k) + SumOver(keys - {k}, m)
  }

  ghost function SumMap<K(!new)>(m: map<K, int>): int {
    SumOver(m.Keys, m)
  }

  /** The sum does not depend on the order the keys are taken in. */
  lemma {:induction false} TakeOut<K(!new)>(keys: set<K>, m: map<K, int>, k: K)
    requires k in keys
    ensures SumOver(keys, m) == At(m, k) + SumOver(keys - {k}, m)
  {
    var c :| c in keys && SumOver(keys, m) == At(m, c) + SumOver(keys - {c}, m);
    if c != k {
      TakeOut(keys - {c}, m, k);
      TakeOut(keys - {k}, m, c);
      assert keys - {c} - {k} == keys - {k} - {c};
    }
  }

  lemma {:induction false} SameOnKeys<K(!new)>(keys: set<K>, m: map<K, int>, n: map<K, int>)
    requires forall k :: k in keys ==> At(m, k) == At(n, k)
    ensures SumOver(keys, m) == SumOver(keys, n)
  {
    if keys != {} {
      var k :| k in keys;
      TakeOut(keys, m, k);
      TakeOut(keys, n, k);
      SameOnKeys(keys - {k}, m, n);
    }
  }

  lemma SumAddTo<K(!new)>(m: map<K, int>, k: K, v: int)
    ensures SumMap(AddTo(m, k, v)) == SumMap(m) + v
  {
    var n := AddTo(m, k, v);
    TakeOut(n.Keys, n, k);
    SameOnKeys(n.Keys - {k}, n, m);
    if k in m {
      TakeOut(m.Keys, m, k);
      assert n.Keys - {k} == m.Keys - {k};
    } else {
      assert n.Keys - {k} == m.Keys;
    }
  }

  lemma {:induction false} SumIsMonotone<K(!new)>(part: set<K>, whole: set<K>, m: map<K, int>)
    requires part <= whole && forall k :: k in whole ==> At(m, k) >= 0
    ensures 0 <= SumOver(part, m) <= SumOver(whole, m)
  {
    if whole != {} {
      var k :| k in whole;
      TakeOut(whole, m, k);
      if k in part { TakeOut(part, m, k); }
      SumIsMonotone(part - {k}, whole - {k}, m);
    }
  }
}
