/**
  When the balance row points at a bottleneck.  The other rows never do; this one does for
  inputs that can be told beforehand, from pins, slots and the number of automatic jobs.
 */
module Balance {
  import opened Wrappers
  import opened Sums
  import opened Fairness
  import opened Sharing
  import opened Levels
  import opened Recommend

  predicate PointsAtABottleneck(proxies: seq<Proxy>, jobs: seq<Job>, hot: Shares) {
    exists r :: r in Advice(proxies, jobs, hot) && r.kind == BalanceRow && IsHot(hot, r.target)
  }

  function Hots(f: Fleet, hot: Shares): set<string> {
    set id | id in f.order && IsHot(hot, id)
  }

  /** The bottleneck with the fewest pins per slot. */
  function LightestHot(proxies: seq<Proxy>, jobs: seq<Job>, hot: Shares): Option<string> {
    Pick(FleetOf(proxies), Hots(FleetOf(proxies), hot), Pinned(proxies, jobs))
  }

  /**
    Some bottleneck is listed, beside another proxy; the automatic jobs suffice to lift every
    other proxy past its pins; and the heaviest proxy then carries two jobs or more and half a
    job per slot above it.
   */
  ghost predicate IdleBottleneck(proxies: seq<Proxy>, jobs: seq<Job>, hot: Shares) {
    var f, start, h := FleetOf(proxies), Pinned(proxies, jobs), LightestHot(proxies, jobs, hot);
    && |f.slots| >= 2
    && h.Some?
    && Autos(jobs) >= Wanted(f, Cool(f, hot), start, h.value, Positive(At(start, h.value)))
    && f.order != []
    && var levels := LevelsOf(proxies, jobs, hot);
       var hi := Heaviest(f, levels);
       At(levels, hi) >= 2 && LoadOf(f.slots, levels, hi) >= LoadOf(f.slots, start, h.value) + GAP
  }

  lemma PlacesDiffer(f: Fleet, p: string, q: string)
    requires p in f.order && q in f.order && p != q
    ensures Place(f.order, p) != Place(f.order, q)
  {
    assert f.order[Place(f.order, p)] == p;
  }

  /** Of two listed proxies one comes before the other. */
  lemma OneComesFirst(f: Fleet, p: string, j: int, q: string, k: int)
    requires p in f.order && q in f.order && p != q
    ensures Sooner(f, p, j, q, k) <==> !Sooner(f, q, k, p, j)
  {
    PlacesDiffer(f, p, q);
  }

  /** The lightest proxy of all is a bottleneck exactly when all others are past the lightest bottleneck. */
  lemma LightestIsHotIff(f: Fleet, hot: Shares, start: Loads, loads: Loads, h: Option<string>)
    requires OnlyAdds(Cool(f, hot), start, loads) && h == Pick(f, Hots(f, hot), start)
    requires h.Some? ==> At(start, h.value) >= 0
    ensures var lo := Pick(f, Everyone(f), loads);
      && (lo.Some? && IsHot(hot, lo.value) <==>
            h.Some? && AllPast(f, Cool(f, hot), loads, h.value, Positive(At(start, h.value))))
      && (lo.Some? && IsHot(hot, lo.value) ==> lo == h)
  {
    var lo := Pick(f, Everyone(f), loads);
    PickIsSoonest(f, Everyone(f), loads);
    PickIsSoonest(f, Hots(f, hot), start);
    if lo.Some? && IsHot(hot, lo.value) {
      HotSoonest(f, hot, start, loads, lo.value);
      SoonestIsUnique(f, Hots(f, hot), start, lo.value, h.value);
    }
    if h.Some? && AllPast(f, Cool(f, hot), loads, h.value, Positive(At(start, h.value))) {
      SoonestOfAll(f, hot, start, loads, h.value);
      SoonestIsUnique(f, Everyone(f), loads, lo.value, h.value);
    }
  }

  lemma HotSoonest(f: Fleet, hot: Shares, start: Loads, loads: Loads, b: string)
    requires OnlyAdds(Cool(f, hot), start, loads) && Soonest(f, Everyone(f), loads, b) && IsHot(hot, b)
    requires At(start, b) >= 0
    ensures Soonest(f, Hots(f, hot), start, b)
    ensures AllPast(f, Cool(f, hot), loads, b, Positive(At(start, b)))
  {
    assert At(loads, b) == At(start, b);
    forall q | q in Hots(f, hot) && q != b ensures Sooner(f, b, At(start, b), q, At(start, q)) {
      assert At(loads, q) == At(start, q);
      assert Sooner(f, b, At(loads, b), q, At(loads, q));
    }
    forall q | q in Cool(f, hot) ensures !Sooner(f, q, At(loads, q), b, At(start, b)) {
      OneComesFirst(f, b, At(loads, b), q, At(loads, q));
    }
  }

  lemma SoonestOfAll(f: Fleet, hot: Shares, start: Loads, loads: Loads, h: string)
    requires OnlyAdds(Cool(f, hot), start, loads) && Soonest(f, Hots(f, hot), start, h) && At(start, h) >= 0
    requires AllPast(f, Cool(f, hot), loads, h, At(start, h))
    ensures Soonest(f, Everyone(f), loads, h)
  {
    assert At(loads, h) == At(start, h);
    forall q | q in f.order && q != h ensures Sooner(f, h, At(loads, h), q, At(loads, q)) {
      if q in Cool(f, hot) {
        OneComesFirst(f, h, At(loads, h), q, At(loads, q));
      } else {
        assert At(loads, q) == At(start, q);
      }
    }
  }

  /** Only the balance block makes balance rows. */
  lemma BalanceRowsAreTheBalance(proxies: seq<Proxy>, jobs: seq<Job>, hot: Shares, r: Row)
    requires r.kind == BalanceRow
    ensures r in Advice(proxies, jobs, hot) <==> r in BalanceRows(FleetOf(proxies), ShareOut(proxies, jobs, hot).loads)
  {
    var s := ShareOut(proxies, jobs, hot);
    var balance := BalanceRows(FleetOf(proxies), s.loads);
    var ok := OkRows(jobs, NamesOf(s.rows + balance));
    if r in s.rows {
      var i :| 0 <= i < |s.rows| && s.rows[i] == r;
      EveryRowNamesTheLightest(FleetOf(proxies), hot, Pinned(proxies, jobs), jobs, i);
    }
    if r in ok { OkRowsAreForTheOthers(jobs, NamesOf(s.rows + balance), r); }
  }

  lemma BalanceRowIs(f: Fleet, loads: Loads, hot: Shares)
    ensures var lo := Pick(f, Everyone(f), loads);
      (exists r :: r in BalanceRows(f, loads) && IsHot(hot, r.target)) <==>
        && |loads| >= 2 && lo.Some? && IsHot(hot, lo.value)
        && f.order != [] && WorthMoving(f, loads, Heaviest(f, loads), lo.value)
  {
    var lo := Pick(f, Everyone(f), loads);
    if |loads| >= 2 && lo.Some? && f.order != [] && WorthMoving(f, loads, Heaviest(f, loads), lo.value) {
      assert Row("(load balancing)", BalanceRow, lo.value) in BalanceRows(f, loads);
    }
  }

  /** The balance row points at a bottleneck exactly for these inputs. */
  lemma BalancePointsAtABottleneckIff(proxies: seq<Proxy>, jobs: seq<Job>, hot: Shares)
    ensures PointsAtABottleneck(proxies, jobs, hot) <==> IdleBottleneck(proxies, jobs, hot)
  {
    var f, start, loads := FleetOf(proxies), Pinned(proxies, jobs), ShareOut(proxies, jobs, hot).loads;
    var h := LightestHot(proxies, jobs, hot);
    PinnedIsListed(proxies, jobs);
    LoadsAreLevels(proxies, jobs, hot);
    SharingHasLevels(f, hot, start, jobs);
    assert |loads| == |f.slots| by { assert loads.Keys == f.slots.Keys; }
    if h.Some? {
      LiftedIff(f, Cool(f, hot), start, loads, if Cool(f, hot) == {} then 0 else Autos(jobs),
                h.value, Positive(At(start, h.value)));
    }
    LightestIsHotIff(f, hot, start, loads, h);
    BalanceRowIs(f, loads, hot);
    InTheAdvice(proxies, jobs, hot);
  }

  lemma InTheAdvice(proxies: seq<Proxy>, jobs: seq<Job>, hot: Shares)
    ensures PointsAtABottleneck(proxies, jobs, hot) <==>
      exists r :: r in BalanceRows(FleetOf(proxies), ShareOut(proxies, jobs, hot).loads) && IsHot(hot, r.target)
  {
    if r :| r in Advice(proxies, jobs, hot) && r.kind == BalanceRow && IsHot(hot, r.target) {
      BalanceRowsAreTheBalance(proxies, jobs, hot, r);
    }
    if r :| r in BalanceRows(FleetOf(proxies), ShareOut(proxies, jobs, hot).loads) && IsHot(hot, r.target) {
      BalanceRowsAreTheBalance(proxies, jobs, hot, r);
    }
  }

  // --- an input for which it does ---------------------------------------------------------

  const TWO_PROXIES := [Proxy("a", 1), Proxy("b", 1)]
  const TWO_PINNED := [Job("x", false, ["a"]), Job("y", false, ["a"])]
  const B_IS_HOT: Shares := map["b" := 60]

  lemma TwoProxies()
    ensures FleetOf(TWO_PROXIES) == Fleet(["a", "b"], map["a" := 1, "b" := 1])
    ensures NoLoads(TWO_PROXIES) == map["a" := 0, "b" := 0]
  {
    assert TWO_PROXIES[..1] == [Proxy("a", 1)] && TWO_PROXIES[..1][..0] == [];
    assert Ids([Proxy("a", 1)]) == ["a"] && LastSlots([Proxy("a", 1)]) == map["a" := 1];
  }

  lemma TwoPinned()
    ensures PinJobs(map["a" := 0, "b" := 0], TWO_PINNED) == map["a" := 2, "b" := 0]
  {
    assert TWO_PINNED[..1] == [Job("x", false, ["a"])] && TWO_PINNED[..1][..0] == [];
    assert ["a"][..0] == [];
    assert PinAll(map["a" := 0, "b" := 0], ["a"]) == map["a" := 1, "b" := 0];
    assert PinAll(map["a" := 1, "b" := 0], ["a"]) == map["a" := 2, "b" := 0];
    assert PinJobs(map["a" := 0, "b" := 0], TWO_PINNED[..1]) == map["a" := 1, "b" := 0];
  }

  /** Two jobs pinned to "a" and nothing on the bottleneck "b": the advice is to move some to "b". */
  lemma AdviceMovesJobsToABottleneck()
    ensures IsHot(B_IS_HOT, "b")
    ensures Row("(load balancing)", BalanceRow, "b") in Advice(TWO_PROXIES, TWO_PINNED, B_IS_HOT)
  {
    var f, loads := Fleet(["a", "b"], map["a" := 1, "b" := 1]), map["a" := 2, "b" := 0];
    TwoProxies();
    TwoPinned();
    NothingToShare(f, loads);
    HeavyAndLight(f, loads);
    assert BalanceRows(f, loads) == [Row("(load balancing)", BalanceRow, "b")];
    BalanceRowsAreTheBalance(TWO_PROXIES, TWO_PINNED, B_IS_HOT, Row("(load balancing)", BalanceRow, "b"));
  }

  lemma NothingToShare(f: Fleet, loads: Loads)
    ensures Share(f, B_IS_HOT, loads, TWO_PINNED) == Shared(loads, [])
  {
    assert TWO_PINNED[..1] == [Job("x", false, ["a"])] && TWO_PINNED[..1][..0] == [];
    assert !IsHot(B_IS_HOT, "a");
    assert Share(f, B_IS_HOT, loads, []) == Shared(loads, []);
    assert Share(f, B_IS_HOT, loads, TWO_PINNED[..1]) == Shared(loads, []);
  }

  lemma HeavyAndLight(f: Fleet, loads: Loads)
    requires f == Fleet(["a", "b"], map["a" := 1, "b" := 1]) && loads == map["a" := 2, "b" := 0]
    ensures Heaviest(f, loads) == "a" && Pick(f, Everyone(f), loads) == Some("b")
    ensures |loads| == 2 && WorthMoving(f, loads, "a", "b")
  {
    assert f.order[..1] == ["a"] && ["a"][..0] == [];
    LoadsOfTwo(f, loads);
    assert "a" in Everyone(f) && "b" in Everyone(f) by { assert f.order[0] == "a" && f.order[1] == "b"; }
    PickOfTwo(f, Everyone(f), loads);
    assert loads.Keys == {"a", "b"} && "a" != "b";
  }

  lemma LoadsOfTwo(f: Fleet, loads: Loads)
    requires f == Fleet(["a", "b"], map["a" := 1, "b" := 1]) && loads == map["a" := 2, "b" := 0]
    ensures LoadOf(f.slots, loads, "a") == 2.0 && LoadOf(f.slots, loads, "b") == 0.0
  {
  }

  lemma PickOfTwo(f: Fleet, among: set<string>, loads: Loads)
    requires |f.order| == 2 && f.order[0] in among && f.order[1] in among
    requires LoadOf(f.slots, loads, f.order[1]) < LoadOf(f.slots, loads, f.order[0])
    ensures Pick(f, among, loads) == Some(f.order[1])
  {
    var one := f.(order := f.order[..1]);
    assert one.order[..0] == [];
    assert Pick(one.(order := []), among, loads) == None;
    assert Pick(one, among, loads) == Some(f.order[0]);
  }
}
