/** What repeated ranking amounts to: findings folded in one stage at a time rank as if at once. */
module Ranking {
  import opened Sorting
  import opened Actions

  /** Order and numbers follow from the actions alone. */
  lemma RankedIsDetermined(a: seq<Action>, b: seq<Action>)
    requires forall k :: Class(Bares(a), ByImpact, k) == Class(Bares(b), ByImpact, k)
    ensures Ranked(a) == Ranked(b)
  {
    RankingIsAStablePermutation(a);
    RankingIsAStablePermutation(b);
    StableOrderIsUnique(Bares(Ranked(a)), Bares(Ranked(b)), ByImpact);
    var x, y := Ranked(a), Ranked(b);
    assert |x| == |Bares(x)| == |Bares(y)| == |y|;
    forall i | 0 <= i < |x| ensures x[i] == y[i] {
      assert x[i] == Bares(x)[i].(rank := i + 1);
      assert y[i] == Bares(y)[i].(rank := i + 1);
    }
  }

  /** Ranking the middle first changes nothing. */
  lemma RankedOnceIsEnough(front: seq<Action>, mid: seq<Action>, back: seq<Action>)
    ensures Ranked(front + Ranked(mid) + back) == Ranked(front + mid + back)
  {
    forall k
      ensures Class(Bares(front + Ranked(mid) + back), ByImpact, k) == Class(Bares(front + mid + back), ByImpact, k)
    {
      SplitClass(front, Ranked(mid), back, k);
      SplitClass(front, mid, back, k);
      RankingIsAStablePermutation(mid);
    }
    RankedIsDetermined(front + Ranked(mid) + back, front + mid + back);
  }

  lemma SplitClass(a: seq<Action>, b: seq<Action>, c: seq<Action>, k: Key)
    ensures Class(Bares(a + b + c), ByImpact, k)
         == Class(Bares(a), ByImpact, k) + Class(Bares(b), ByImpact, k) + Class(Bares(c), ByImpact, k)
  {
    assert Bares(a + b + c) == Bares(a) + Bares(b) + Bares(c);
    ClassConcat(Bares(a) + Bares(b), Bares(c), ByImpact, k);
    ClassConcat(Bares(a), Bares(b), ByImpact, k);
  }

  /** A stage: it ranks what it adds into the list, or leaves the list alone. */
  function Fold(front: seq<Action>, list: seq<Action>, back: seq<Action>): seq<Action> {
    if front == [] && back == [] then list else Ranked(front + list + back)
  }

  lemma FoldInFront(rel: seq<Action>, list: seq<Action>, a: seq<Action>)
    ensures Fold([], Fold(rel, list, []), a) == Fold(rel, list, a)
  {
    assert rel + list + [] == rel + list && [] + (rel + list) + a == rel + list + a;
    if rel == [] {
      assert rel + list == list && [] + list + a == rel + list + a;
    } else if a != [] {
      RankedOnceIsEnough([], rel + list, a);
      assert [] + Ranked(rel + list) + a == [] + Fold(rel, list, []) + a;
    } else {
      assert rel + list + a == rel + list;
    }
  }

  lemma FoldBehindTwice(rel: seq<Action>, list: seq<Action>, a: seq<Action>, b: seq<Action>)
    ensures Fold([], Fold(rel, list, a), b) == Fold(rel, list, a + b)
  {
    var all := rel + list + a;
    assert all + b == rel + list + (a + b);
    if b == [] {
      assert a + b == a;
    } else if rel == [] && a == [] {
      assert a + b == b && [] + list + b == rel + list + b;
    } else {
      RankedOnceIsEnough([], all, b);
      assert [] + all + b == all + b && [] + Ranked(all) + b == [] + Fold(rel, list, a) + b;
    }
  }

  /** One stage in front and two behind rank the list once, with all that they add. */
  lemma StagesRankOnce(rel: seq<Action>, list: seq<Action>, sizing: seq<Action>, last: seq<Action>)
    ensures Fold([], Fold([], Fold(rel, list, []), sizing), last) == Fold(rel, list, sizing + last)
  {
    FoldInFront(rel, list, sizing);
    FoldBehindTwice(rel, list, sizing, last);
  }
}
