/**
  Final loads in closed form.  The automatic jobs fill the proxies like water: how far they
  rise follows from the pins and the number of these jobs, without running the assignment.
 */
module Levels {
  import opened Sums
  import opened Quotients
  import opened Slots
  import opened Fairness
  import opened Sharing

  /** With fewer than this many jobs, `q` comes before `h` with `k` jobs. */
  function Quota(f: Fleet, q: string, h: string, k: nat): int {
    var n, d := k * Weight(At(f.slots, q)), Weight(At(f.slots, h));
    if Place(f.order, q) < Place(f.order, h) then n / d + 1 else (n + d - 1) / d
  }

  lemma QuotaIsWhereItEnds(f: Fleet, q: string, n: int, h: string, k: nat)
    ensures Sooner(f, q, n, h, k) <==> n < Quota(f, q, h, k)
  {
    var m, d := k * Weight(At(f.slots, q)), Weight(At(f.slots, h));
    PerSlotLess(n, At(f.slots, q), k, At(f.slots, h));
    if Place(f.order, q) < Place(f.order, h) {
      AtMostIff(n, m, d);
    } else {
      BelowIff(n, m, d);
    }
  }

  lemma AtMostIff(n: int, m: int, d: int)
    requires d > 0
    ensures n * d <= m <==> n < m / d + 1
  {
    FloorBound(m, d);
    if n <= m / d { Times(d, n, m / d); } else { Times(d, m / d + 1, n); }
  }

  lemma BelowIff(n: int, m: int, d: int)
    requires d > 0
    ensures n * d < m <==> n < (m + d - 1) / d
  {
    var c := (m + d - 1) / d;
    FloorBound(m + d - 1, d);
    assert d * (c + 1) == d * c + d && d * (c - 1) == d * c - d;
    if n <= c - 1 { Times(d, n, c - 1); } else { Times(d, c, n); }
  }

  function Quotas(f: Fleet, cool: set<string>, h: string, k: nat): Loads {
    map q | q in cool :: Quota(f, q, h, k)
  }

  /** How many jobs each proxy lacks to reach its quota. */
  function Lacks(cool: set<string>, start: Loads, quota: Loads): Loads {
    map q | q in cool :: Positive(At(quota, q) - At(start, q))
  }

  function Positive(n: int): nat {
    if n < 0 then 0 else n
  }

  /** What the proxies together lack to no longer come before `h` with `k` jobs. */
  ghost function Wanted(f: Fleet, cool: set<string>, start: Loads, h: string, k: nat): int {
    SumOver(cool, Lacks(cool, start, Quotas(f, cool, h, k)))
  }

  function Gifts(cool: set<string>, start: Loads, loads: Loads): Loads {
    map q | q in cool :: At(loads, q) - At(start, q)
  }

  lemma {:induction false} GiftsAddUp(keys: set<string>, cool: set<string>, start: Loads, loads: Loads)
    requires keys <= cool
    ensures SumOver(keys, loads) == SumOver(keys, start) + SumOver(keys, Gifts(cool, start, loads))
  {
    if keys != {} {
      var k :| k in keys;
      TakeOut(keys, loads, k);
      TakeOut(keys, start, k);
      TakeOut(keys, Gifts(cool, start, loads), k);
      GiftsAddUp(keys - {k}, cool, start, loads);
    }
  }

  lemma {:induction false} SumAtMost(keys: set<string>, m: Loads, n: Loads)
    requires forall k :: k in keys ==> At(m, k) <= At(n, k)
    ensures SumOver(keys, m) <= SumOver(keys, n)
    ensures (exists k :: k in keys && At(m, k) < At(n, k)) ==> SumOver(keys, m) < SumOver(keys, n)
  {
    if keys != {} {
      var k :| k in keys;
      TakeOut(keys, m, k);
      TakeOut(keys, n, k);
      SumAtMost(keys - {k}, m, n);
    }
  }

  /** The facts about a sharing of `a` automatic jobs that the levels follow from. */
  ghost predicate Lifts(f: Fleet, cool: set<string>, start: Loads, loads: Loads, a: int) {
    && Even(f, cool, start, loads) && OnlyAdds(cool, start, loads)
    && SumOver(cool, loads) == SumOver(cool, start) + a
  }

  lemma SharingHasLevels(f: Fleet, hot: Shares, start: Loads, jobs: seq<Job>)
    requires forall id :: id in f.order ==> id in start
    ensures Lifts(f, Cool(f, hot), start, Share(f, hot, start, jobs).loads,
                  if Cool(f, hot) == {} then 0 else Autos(jobs))
  {
    SharingIsEven(f, hot, start, jobs);
    AutomaticJobsAreCounted(f, hot, start, jobs);
  }

  /** No proxy comes before `h` with `k` jobs any more. */
  ghost predicate AllPast(f: Fleet, cool: set<string>, loads: Loads, h: string, k: nat) {
    forall q :: q in cool ==> !Sooner(f, q, At(loads, q), h, k)
  }

  lemma PastIff(f: Fleet, cool: set<string>, loads: Loads, h: string, k: nat)
    ensures AllPast(f, cool, loads, h, k) <==> Reached(cool, loads, Quotas(f, cool, h, k))
  {
    forall q | q in cool ensures !Sooner(f, q, At(loads, q), h, k) <==> At(loads, q) >= Quotas(f, cool, h, k)[q] {
      QuotaIsWhereItEnds(f, q, At(loads, q), h, k);
    }
  }

  predicate Reached(cool: set<string>, loads: Loads, quota: Loads) {
    forall q :: q in cool ==> At(loads, q) >= At(quota, q)
  }

  /** While one proxy is below its quota, no other was given a job beyond its own. */
  ghost predicate InStep(cool: set<string>, start: Loads, loads: Loads, quota: Loads) {
    forall p, q :: p in cool && q in cool && p != q && At(loads, q) > At(start, q) && At(loads, p) < At(quota, p) ==>
      At(loads, q) <= At(quota, q)
  }

  lemma EvenIsInStep(f: Fleet, cool: set<string>, start: Loads, loads: Loads, h: string, k: nat)
    requires Even(f, cool, start, loads)
    ensures InStep(cool, start, loads, Quotas(f, cool, h, k))
  {
    forall p, q | p in cool && q in cool && p != q && At(loads, q) > At(start, q) && At(loads, p) < Quota(f, p, h, k)
      ensures At(loads, q) <= Quota(f, q, h, k)
    {
      assert Sooner(f, q, At(loads, q) - 1, p, At(loads, p));
      BothBefore(f, q, At(loads, q) - 1, p, At(loads, p), h, k);
    }
  }

  lemma BothBefore(f: Fleet, q: string, n: int, p: string, m: int, h: string, k: nat)
    requires Sooner(f, q, n, p, m) && m < Quota(f, p, h, k)
    ensures n < Quota(f, q, h, k)
  {
    QuotaIsWhereItEnds(f, p, m, h, k);
    SoonerIsTransitive(f, q, n, p, m, h, k);
    QuotaIsWhereItEnds(f, q, n, h, k);
  }

  lemma SoonerIsTransitive(f: Fleet, q: string, n: int, p: string, m: int, h: string, k: int)
    requires Sooner(f, q, n, p, m) && Sooner(f, p, m, h, k)
    ensures Sooner(f, q, n, h, k)
  {}

  /** Filling up: everyone reaches the quota exactly when there are as many jobs as all lack. */
  lemma FilledIff(cool: set<string>, start: Loads, loads: Loads, quota: Loads, a: int)
    requires OnlyAdds(cool, start, loads) && SumOver(cool, loads) == SumOver(cool, start) + a
    requires InStep(cool, start, loads, quota)
    ensures Reached(cool, loads, quota) <==> a >= SumOver(cool, Lacks(cool, start, quota))
  {
    var gifts, lacks := Gifts(cool, start, loads), Lacks(cool, start, quota);
    GiftsAddUp(cool, cool, start, loads);
    if Reached(cool, loads, quota) {
      GiftsCoverLacks(cool, start, loads, quota);
      SumAtMost(cool, lacks, gifts);
    } else {
      var p :| p in cool && At(loads, p) < At(quota, p);
      GiftsStayBelowLacks(cool, start, loads, quota, p);
      SumAtMost(cool, gifts, lacks);
    }
  }

  lemma GiftsCoverLacks(cool: set<string>, start: Loads, loads: Loads, quota: Loads)
    requires OnlyAdds(cool, start, loads) && Reached(cool, loads, quota)
    ensures forall q :: q in cool ==> At(Lacks(cool, start, quota), q) <= At(Gifts(cool, start, loads), q)
  {
    forall q | q in cool ensures At(Lacks(cool, start, quota), q) <= At(Gifts(cool, start, loads), q) {
      assert At(loads, q) >= At(quota, q) && At(loads, q) >= At(start, q);
    }
  }

  lemma GiftsStayBelowLacks(cool: set<string>, start: Loads, loads: Loads, quota: Loads, p: string)
    requires OnlyAdds(cool, start, loads) && InStep(cool, start, loads, quota)
    requires p in cool && At(loads, p) < At(quota, p)
    ensures forall q :: q in cool ==> At(Gifts(cool, start, loads), q) <= At(Lacks(cool, start, quota), q)
    ensures At(Gifts(cool, start, loads), p) < At(Lacks(cool, start, quota), p)
  {
    forall q | q in cool ensures At(Gifts(cool, start, loads), q) <= At(Lacks(cool, start, quota), q) {
      assert At(loads, q) >= At(start, q);
    }
  }

  /** The jobs lift every proxy past the mark exactly when there are as many as all lack together. */
  lemma LiftedIff(f: Fleet, cool: set<string>, start: Loads, loads: Loads, a: int, h: string, k: nat)
    requires Lifts(f, cool, start, loads, a)
    ensures AllPast(f, cool, loads, h, k) <==> a >= Wanted(f, cool, start, h, k)
  {
    PastIff(f, cool, loads, h, k);
    EvenIsInStep(f, cool, start, loads, h, k);
    FilledIff(cool, start, loads, Quotas(f, cool, h, k), a);
  }

  lemma OwnQuota(f: Fleet, p: string, k: nat)
    ensures Quota(f, p, p, k) == k
  {
    QuotaIsWhereItEnds(f, p, k - 1, p, k);
    QuotaIsWhereItEnds(f, p, k, p, k);
    OneMoreJobCounts(k - 1, At(f.slots, p));
  }

  /** Around `k` jobs of `p`: above it all others are past, at it none was given more than up to it. */
  ghost predicate Meets(cool: set<string>, start: Loads, loads: Loads, quota: Loads, p: string, k: nat) {
    && At(quota, p) == k
    && (At(loads, p) > k ==> Reached(cool, loads, quota))
    && (At(loads, p) == k ==>
          forall q :: q in cool && q != p && At(loads, q) > At(start, q) ==> At(loads, q) <= At(quota, q))
  }

  lemma EvenMeets(f: Fleet, cool: set<string>, start: Loads, loads: Loads, p: string, k: nat)
    requires Even(f, cool, start, loads) && p in cool && k >= At(start, p)
    ensures Meets(cool, start, loads, Quotas(f, cool, p, k), p, k)
  {
    OwnQuota(f, p, k);
    forall q | q in cool && q != p && At(loads, p) > k ensures At(loads, q) >= Quota(f, q, p, k) {
      assert Sooner(f, p, At(loads, p) - 1, q, At(loads, q));
      PastWhenAbove(f, p, k, At(loads, p) - 1, q, At(loads, q));
    }
    forall q | q in cool && q != p && At(loads, p) == k && At(loads, q) > At(start, q)
      ensures At(loads, q) <= Quota(f, q, p, k)
    {
      assert Sooner(f, q, At(loads, q) - 1, p, k);
      QuotaIsWhereItEnds(f, q, At(loads, q) - 1, p, k);
    }
  }

  lemma PastWhenAbove(f: Fleet, p: string, k: nat, m: int, q: string, n: int)
    requires k <= m && Sooner(f, p, m, q, n)
    ensures n >= Quota(f, q, p, k)
  {
    MoreJobsCountMore(k, m, At(f.slots, p));
    QuotaIsWhereItEnds(f, q, n, p, k);
  }

  lemma RiseIff(cool: set<string>, start: Loads, loads: Loads, quota: Loads, a: int, p: string, k: nat)
    requires OnlyAdds(cool, start, loads) && SumOver(cool, loads) == SumOver(cool, start) + a
    requires InStep(cool, start, loads, quota) && Meets(cool, start, loads, quota, p, k)
    requires p in cool && k >= At(start, p)
    ensures At(loads, p) > k <==> a > SumOver(cool, Lacks(cool, start, quota))
  {
    GiftsAddUp(cool, cool, start, loads);
    if At(loads, p) > k {
      GiftsCoverLacks(cool, start, loads, quota);
      AboveItsQuota(cool, start, loads, quota, p);
      SumAtMost(cool, Lacks(cool, start, quota), Gifts(cool, start, loads));
    } else if At(loads, p) == k {
      GiftsUpToLacks(cool, start, loads, quota, p);
      SumAtMost(cool, Gifts(cool, start, loads), Lacks(cool, start, quota));
    } else {
      FilledIff(cool, start, loads, quota, a);
    }
  }

  lemma AboveItsQuota(cool: set<string>, start: Loads, loads: Loads, quota: Loads, p: string)
    requires p in cool && At(start, p) <= At(quota, p) < At(loads, p)
    ensures At(Lacks(cool, start, quota), p) < At(Gifts(cool, start, loads), p)
  {}

  lemma GiftsUpToLacks(cool: set<string>, start: Loads, loads: Loads, quota: Loads, p: string)
    requires OnlyAdds(cool, start, loads) && At(loads, p) == At(quota, p)
    requires forall q :: q in cool && q != p && At(loads, q) > At(start, q) ==> At(loads, q) <= At(quota, q)
    ensures forall q :: q in cool ==> At(Gifts(cool, start, loads), q) <= At(Lacks(cool, start, quota), q)
  {
    forall q | q in cool ensures At(Gifts(cool, start, loads), q) <= At(Lacks(cool, start, quota), q) {
      assert At(loads, q) >= At(start, q);
    }
  }

  /** A proxy rises above `k` jobs exactly when there are more jobs than all lack to be past it at `k`. */
  lemma RisesAboveIff(f: Fleet, cool: set<string>, start: Loads, loads: Loads, a: int, p: string, k: nat)
    requires Lifts(f, cool, start, loads, a) && p in cool && k >= At(start, p)
    ensures At(loads, p) > k <==> a > Wanted(f, cool, start, p, k)
  {
    EvenIsInStep(f, cool, start, loads, p, k);
    EvenMeets(f, cool, start, loads, p, k);
    RiseIff(cool, start, loads, Quotas(f, cool, p, k), a, p, k);
  }

  // --- the loads themselves -------------------------------------------------------------

  /** How many of the `n` numbers from `s` on are taken. */
  ghost function CountTaken(taken: nat -> bool, s: nat, n: nat): nat {
    if n == 0 then 0 else CountTaken(taken, s, n - 1) + if taken(s + n - 1) then 1 else 0
  }

  lemma {:induction false} CountOfThoseBelow(taken: nat -> bool, s: nat, load: nat, n: nat)
    requires s <= load && forall k: nat :: k >= s ==> (taken(k) <==> k < load)
    ensures CountTaken(taken, s, n) == if n < load - s then n else load - s
  {
    if n > 0 {
      CountOfThoseBelow(taken, s, load, n - 1);
      assert taken(s + n - 1) <==> s + n - 1 < load;
    }
  }

  ghost function StepsTaken(f: Fleet, cool: set<string>, start: Loads, a: int, p: string): nat -> bool {
    (k: nat) => a > Wanted(f, cool, start, p, k)
  }

  /** How many of the next `n` steps a proxy takes when `a` automatic jobs are shared out. */
  ghost function Risen(f: Fleet, cool: set<string>, start: Loads, a: int, p: string, n: nat): nat
    requires At(start, p) >= 0
  {
    CountTaken(StepsTaken(f, cool, start, a, p), At(start, p), n)
  }

  /** The steps that are taken are those below the proxy's final load. */
  ghost predicate RisesTo(f: Fleet, cool: set<string>, start: Loads, a: int, p: string, load: int) {
    forall k: nat :: k >= At(start, p) ==> (load > k <==> a > Wanted(f, cool, start, p, k))
  }

  lemma RisesToItsLoad(f: Fleet, cool: set<string>, start: Loads, loads: Loads, a: int, p: string)
    requires Lifts(f, cool, start, loads, a) && p in cool
    ensures RisesTo(f, cool, start, a, p, At(loads, p))
  {
    forall k: nat | k >= At(start, p) ensures At(loads, p) > k <==> a > Wanted(f, cool, start, p, k) {
      RisesAboveIff(f, cool, start, loads, a, p, k);
    }
  }

  lemma RisenIs(f: Fleet, cool: set<string>, start: Loads, a: int, p: string, load: int, n: nat)
    requires RisesTo(f, cool, start, a, p, load) && 0 <= At(start, p) <= load
    ensures Risen(f, cool, start, a, p, n) == if n < load - At(start, p) then n else load - At(start, p)
  {
    CountOfThoseBelow(StepsTaken(f, cool, start, a, p), At(start, p), load, n);
  }

  /** The loads that the pins and `a` automatic jobs lead to. */
  ghost function LevelsFrom(f: Fleet, cool: set<string>, start: Loads, a: nat): Loads
    requires forall id :: At(start, id) >= 0
  {
    map id | id in start :: At(start, id) + if id in cool then Risen(f, cool, start, a, id, a) else 0
  }

  ghost function LevelsOf(proxies: seq<Proxy>, jobs: seq<Job>, hot: Shares): Loads {
    PinnedIsListed(proxies, jobs);
    LevelsFrom(FleetOf(proxies), Cool(FleetOf(proxies), hot), Pinned(proxies, jobs), Autos(jobs))
  }

  /** They are the loads the assignment ends with. */
  lemma LoadsAreLevels(proxies: seq<Proxy>, jobs: seq<Job>, hot: Shares)
    ensures ShareOut(proxies, jobs, hot).loads == LevelsOf(proxies, jobs, hot)
  {
    PinnedIsListed(proxies, jobs);
    SharingReachesLevels(FleetOf(proxies), hot, Pinned(proxies, jobs), jobs);
  }

  lemma SharingReachesLevels(f: Fleet, hot: Shares, start: Loads, jobs: seq<Job>)
    requires forall x :: x in f.order ==> x in start
    requires forall id :: At(start, id) >= 0
    ensures Share(f, hot, start, jobs).loads == LevelsFrom(f, Cool(f, hot), start, Autos(jobs))
  {
    var cool, loads := Cool(f, hot), Share(f, hot, start, jobs).loads;
    SharingHasLevels(f, hot, start, jobs);
    forall id | id in start ensures loads[id] == LevelsFrom(f, cool, start, Autos(jobs))[id] {
      assert At(loads, id) == loads[id];
      if id in cool { LoadIsLevel(f, cool, start, loads, Autos(jobs), id); }
    }
  }

  lemma LoadIsLevel(f: Fleet, cool: set<string>, start: Loads, loads: Loads, a: nat, id: string)
    requires Lifts(f, cool, start, loads, a) && id in cool && At(start, id) >= 0
    ensures At(loads, id) == At(start, id) + Risen(f, cool, start, a, id, a)
  {
    assert At(loads, id) >= At(start, id);
    RisesToItsLoad(f, cool, start, loads, a, id);
    RisenIs(f, cool, start, a, id, At(loads, id), a);
    GiftsAddUp(cool, cool, start, loads);
    TakeOut(cool, Gifts(cool, start, loads), id);
    NoNegativeGifts(cool - {id}, cool, start, loads);
  }

  lemma NoNegativeGifts(keys: set<string>, cool: set<string>, start: Loads, loads: Loads)
    requires OnlyAdds(cool, start, loads)
    ensures SumOver(keys, Gifts(cool, start, loads)) >= 0
  {
    SumIsMonotone({}, keys, Gifts(cool, start, loads));
  }
}
