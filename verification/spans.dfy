/**
  Wall-clock time a resource was busy: the measure of a union of intervals.
  Times are whole seconds, which is all the timestamps carry once they are parsed.
 */
module Spans {
  import opened Sorting

  /** Activity in [from, to). */
  datatype Span = Span(from: int, to: int)

  predicate WellFormed(sp: seq<Span>) {
    forall i :: 0 <= i < |sp| ==> sp[i].from <= sp[i].to
  }

  predicate Within(x: Span, t: int) {
    x.from <= t < x.to
  }

  function Seconds(x: Span): set<int> {
    set t | x.from <= t < x.to && Within(x, t)
  }

  /** The seconds inside at least one span. */
  function Covered(sp: seq<Span>): set<int> {
    if sp == [] then {} else Seconds(sp[0]) + Covered(sp[1..])
  }

  function SumDurations(sp: seq<Span>): int {
    if sp == [] then 0 else sp[0].to - sp[0].from + SumDurations(sp[1..])
  }

  function ByStart(x: Span): Key {
    (x.from, 0)
  }

  /** Sort by start, then sweep once: a gap closes the current stretch, anything else extends it. */
  method UnionSeconds(sp: seq<Span>) returns (total: int)
    requires WellFormed(sp)
    ensures total == |Covered(sp)|
  {
    if |sp| == 0 {
      return 0;
    }
    var s := StableSort(sp, ByStart);
    StableSortPermutes(s, sp, ByStart);
    SameSpansSameCover(s, sp);
    assert forall i :: 0 <= i < |s| ==> s[i] in sp;
    assert forall i, j :: 0 <= i < j < |s| ==> !Before(ByStart(s[j]), ByStart(s[i]));
    total := Sweep(s);
  }

  method Sweep(s: seq<Span>) returns (total: int)
    requires s != [] && WellFormed(s)
    requires forall i, j :: 0 <= i < j < |s| ==> s[i].from <= s[j].from
    ensures total == |Covered(s)|
  {
    total := 0;
    var cur := s[0];
    ghost var closed: set<int> := {};
    assert s[..1] == [s[0]];
    for k := 1 to |s|
      invariant forall j :: k <= j < |s| ==> cur.from <= s[j].from
      invariant Swept(Covered(s[..k]), closed, cur, total)
    {
      var x := s[k];
      CoveredSnoc(s, k);
      if x.from > cur.to {
        CloseStretch(Covered(s[..k]), closed, cur, total, x);
        closed := closed + Seconds(cur);
        total := total + (cur.to - cur.from);
        cur := x;
      } else {
        Extend(cur, x);
        assert Covered(s[..k + 1]) == closed + (Seconds(cur) + Seconds(x));
        if x.to > cur.to {
          cur := cur.(to := x.to);
        }
      }
    }
    assert s[..|s|] == s;
    DisjointSizes(closed, cur);
    total := total + (cur.to - cur.from);
  }

  /** The cover so far: closed stretches of `total` seconds, all before the current one. */
  ghost predicate Swept(cover: set<int>, closed: set<int>, cur: Span, total: int) {
    && cur.from <= cur.to
    && cover == closed + Seconds(cur)
    && |closed| == total
    && forall t :: t in closed ==> t < cur.from
  }

  lemma CloseStretch(cover: set<int>, closed: set<int>, cur: Span, total: int, x: Span)
    requires Swept(cover, closed, cur, total) && cur.to < x.from <= x.to
    ensures Swept(cover + Seconds(x), closed + Seconds(cur), x, total + cur.to - cur.from)
  {
    DisjointSizes(closed, cur);
  }

  /** A span that starts inside the current stretch, or where it ends, makes one longer stretch. */
  lemma Extend(cur: Span, x: Span)
    requires cur.from <= x.from <= cur.to
    ensures Seconds(cur) + Seconds(x) == Seconds(Span(cur.from, if x.to > cur.to then x.to else cur.to))
  {}

  lemma {:induction false} SecondsSize(x: Span)
    requires x.from <= x.to
    ensures |Seconds(x)| == x.to - x.from
    decreases x.to - x.from
  {
    if x.from < x.to {
      SecondsSize(Span(x.from + 1, x.to));
      assert Seconds(x) == {x.from} + Seconds(Span(x.from + 1, x.to));
    } else {
      assert Seconds(x) == {};
    }
  }

  lemma DisjointSizes(closed: set<int>, cur: Span)
    requires cur.from <= cur.to && forall t :: t in closed ==> t < cur.from
    ensures |closed + Seconds(cur)| == |closed| + cur.to - cur.from
  {
    SecondsSize(cur);
    assert closed !! Seconds(cur);
  }

  lemma {:induction false} CoveredIff(sp: seq<Span>, t: int)
    ensures t in Covered(sp) <==> exists i :: 0 <= i < |sp| && sp[i].from <= t < sp[i].to
  {
    if sp != [] {
      CoveredIff(sp[1..], t);
      if t in Covered(sp[1..]) {
        var i :| 0 <= i < |sp| - 1 && sp[1..][i].from <= t < sp[1..][i].to;
        assert sp[i + 1].from <= t < sp[i + 1].to;
      }
      if i :| 0 <= i < |sp| && sp[i].from <= t < sp[i].to {
        if i > 0 { assert sp[1..][i - 1] == sp[i]; }
      }
    }
  }

  lemma CoveredSnoc(sp: seq<Span>, k: nat)
    requires k < |sp|
    ensures Covered(sp[..k + 1]) == Covered(sp[..k]) + Seconds(sp[k])
  {
    var a, b := sp[..k], sp[..k + 1];
    forall t ensures t in Covered(b) <==> t in Covered(a) + Seconds(sp[k]) {
      CoveredIff(b, t);
      CoveredIff(a, t);
      if t in Covered(a) {
        var i :| 0 <= i < |a| && a[i].from <= t < a[i].to;
        assert b[i] == a[i];
      }
      if t in Seconds(sp[k]) { assert b[k] == sp[k]; }
      if i :| 0 <= i < |b| && b[i].from <= t < b[i].to {
        if i < k { assert a[i] == b[i]; }
      }
    }
  }

  /** More spans never cover less. */
  lemma CoverIsMonotone(a: seq<Span>, b: seq<Span>)
    requires forall x :: x in a ==> x in b
    ensures Covered(a) <= Covered(b)
    ensures |Covered(a)| <= |Covered(b)|
  {
    forall t | t in Covered(a) ensures t in Covered(b) {
      CoveredIff(a, t);
      CoveredIff(b, t);
      var i :| 0 <= i < |a| && a[i].from <= t < a[i].to;
      assert a[i] in b;
    }
    SubsetSize(Covered(a), Covered(b));
  }

  /** Neither the order the spans come in nor their repetition matters. */
  lemma SameSpansSameCover(a: seq<Span>, b: seq<Span>)
    requires forall x :: x in a <==> x in b
    ensures Covered(a) == Covered(b)
  {
    CoverIsMonotone(a, b);
    CoverIsMonotone(b, a);
  }

  lemma SubsetSize(a: set<int>, b: set<int>)
    requires a <= b
    ensures |a| <= |b|
  {
    assert b == a + (b - a);
  }

  /** Overlaps count once, so the union is at most the sum of the durations and at least the longest. */
  lemma {:induction false} CoverBounds(sp: seq<Span>)
    requires WellFormed(sp)
    ensures |Covered(sp)| <= SumDurations(sp)
    ensures forall i :: 0 <= i < |sp| ==> sp[i].to - sp[i].from <= |Covered(sp)|
  {
    if sp != [] {
      CoverBounds(sp[1..]);
      SecondsSize(sp[0]);
      UnionSize(Seconds(sp[0]), Covered(sp[1..]));
      forall i | 0 <= i < |sp| ensures sp[i].to - sp[i].from <= |Covered(sp)| {
        if i > 0 { assert sp[1..][i - 1] == sp[i]; }
      }
    }
  }

  lemma UnionSize(a: set<int>, b: set<int>)
    ensures |a + b| <= |a| + |b|
    ensures |a| <= |a + b| && |b| <= |a + b|
  {
    assert a + b == a + (b - a);
    SubsetSize(b - a, b);
    SubsetSize(b, a + b);
  }

  /** Spans inside a window cover at most the window. */
  lemma CoverInsideWindow(sp: seq<Span>, lo: int, hi: int)
    requires lo <= hi && forall i :: 0 <= i < |sp| ==> lo <= sp[i].from && sp[i].to <= hi
    ensures |Covered(sp)| <= hi - lo
  {
    forall t | t in Covered(sp) ensures t in Seconds(Span(lo, hi)) {
      CoveredIff(sp, t);
    }
    SecondsSize(Span(lo, hi));
    SubsetSize(Covered(sp), Seconds(Span(lo, hi)));
  }
}
