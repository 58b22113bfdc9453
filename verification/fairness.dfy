/** What the proxy advice promises of every input: no job is lost, no bottleneck gains one, and it is fair. */
module Fairness {
  import opened Sums
  import opened Slots
  import opened Sharing

  lemma PinnedIsListed(proxies: seq<Proxy>, jobs: seq<Job>)
    ensures Pinned(proxies, jobs).Keys == LastSlots(proxies).Keys
    ensures forall id :: id in Ids(proxies) <==> id in LastSlots(proxies)
    ensures forall id :: At(Pinned(proxies, jobs), id) >= 0
    ensures SumMap(Pinned(proxies, jobs)) == KnownPins(LastSlots(proxies).Keys, jobs)
  {
    var empty := NoLoads(proxies);
    assert empty.Keys == LastSlots(proxies).Keys;
    PinnedJobsAreCounted(empty, jobs);
    AllZero(empty.Keys, empty);
    forall id ensures id in Ids(proxies) <==> id in LastSlots(proxies) { ListedProxies(proxies, id); }
    forall id ensures At(Pinned(proxies, jobs), id) >= 0 { assert At(empty, id) == 0; }
  }

  /**
    Job for job: the loads are the known pins plus the automatic jobs, a bottleneck carries its
    pins alone, and no row names one.
   */
  lemma AdviceConservesJobs(proxies: seq<Proxy>, jobs: seq<Job>, hot: Shares)
    ensures var s, cool := ShareOut(proxies, jobs, hot), Cool(FleetOf(proxies), hot);
      && SumMap(s.loads) == KnownPins(LastSlots(proxies).Keys, jobs) + (if cool == {} then 0 else Autos(jobs))
      && (forall id :: IsHot(hot, id) ==> At(s.loads, id) == At(Pinned(proxies, jobs), id))
      && (forall id :: At(s.loads, id) == At(Pinned(proxies, jobs), id) + GivenTo(s.rows, id))
      && forall i :: 0 <= i < |s.rows| ==> s.rows[i].target in cool
  {
    var f, start := FleetOf(proxies), Pinned(proxies, jobs);
    PinnedIsListed(proxies, jobs);
    AutomaticJobsAreCounted(f, hot, start, jobs);
    SharingIsEven(f, hot, start, jobs);
    var s := ShareOut(proxies, jobs, hot);
    forall id
      ensures At(s.loads, id) == At(start, id) + GivenTo(s.rows, id)
    {
      RowsAreCounted(f, hot, start, jobs, id);
    }
    forall i | 0 <= i < |s.rows| ensures s.rows[i].target in Cool(f, hot) {
      EveryRowNamesTheLightest(f, hot, start, jobs, i);
    }
  }

  /**
    Fairness: a proxy given an automatic job carried before its last one no more jobs per slot
    than any proxy that is no bottleneck carries in the end.
   */
  lemma AdviceIsFair(proxies: seq<Proxy>, jobs: seq<Job>, hot: Shares, i: nat, p: string)
    ensures var s := ShareOut(proxies, jobs, hot);
      i < |s.rows| && s.rows[i].kind == AutoRow && p in Cool(FleetOf(proxies), hot) ==>
        FairTo(LastSlots(proxies), s, i, p)
  {
    PinnedIsListed(proxies, jobs);
    SharingIsFair(FleetOf(proxies), hot, Pinned(proxies, jobs), jobs, i, p);
  }

  /** The target of row `i` had, before its last job, no more jobs per slot than `p` has now. */
  predicate FairTo(slots: map<string, int>, s: Shared, i: nat, p: string)
    requires i < |s.rows|
  {
    var b := s.rows[i].target;
    PerSlot(At(s.loads, b) - 1, At(slots, b)) <= PerSlot(At(s.loads, p), At(slots, p))
  }

  lemma SharingIsFair(f: Fleet, hot: Shares, start: Loads, jobs: seq<Job>, i: nat, p: string)
    requires forall id :: id in f.order ==> id in start
    ensures var s := Share(f, hot, start, jobs);
      i < |s.rows| && s.rows[i].kind == AutoRow && p in Cool(f, hot) ==> FairTo(f.slots, s, i, p)
  {
    var s := Share(f, hot, start, jobs);
    if i < |s.rows| && s.rows[i].kind == AutoRow && p in Cool(f, hot) {
      var b := s.rows[i].target;
      NamedRowsAreGiven(s.rows, i);
      RowsAreCounted(f, hot, start, jobs, b);
      EveryRowNamesTheLightest(f, hot, start, jobs, i);
      SharingIsEven(f, hot, start, jobs);
      EvenIsFair(f, Cool(f, hot), start, s.loads, b, p);
    }
  }

  lemma EvenIsFair(f: Fleet, cool: set<string>, start: Loads, loads: Loads, b: string, p: string)
    ensures Even(f, cool, start, loads) && b in cool && p in cool && At(loads, b) > At(start, b) ==>
      PerSlot(At(loads, b) - 1, At(f.slots, b)) <= PerSlot(At(loads, p), At(f.slots, p))
  {
    if b == p {
      OneMoreJobCounts(At(loads, b) - 1, At(f.slots, b));
    } else if Even(f, cool, start, loads) && b in cool && p in cool && At(loads, b) > At(start, b) {
      assert Sooner(f, b, At(loads, b) - 1, p, At(loads, p));
    }
  }
}
