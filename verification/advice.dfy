/**
  The proxy advice in numbers: whom each row is for, whom it names and why, told from the
  listings alone, with loads per task slot compared as products of whole numbers.
 */
module AdviceInNumbers {
  import opened Wrappers
  import opened Sorting
  import opened Sums
  import opened Slots
  import opened Fairness
  import opened Sharing
  import opened Recommend

  predicate Listed(proxies: seq<Proxy>, id: string) {
    exists i :: 0 <= i < |proxies| && proxies[i].id == id
  }

  predicate Bottleneck(hot: Shares, id: string) {
    id in hot && hot[id] >= 35
  }

  predicate Free(proxies: seq<Proxy>, hot: Shares, id: string) {
    Listed(proxies, id) && !Bottleneck(hot, id)
  }

  /** The slots of its last listing; one when they are unknown. */
  function TaskSlots(proxies: seq<Proxy>, id: string): (n: int)
    ensures n > 0
  {
    if proxies == [] then 1
    else
      var p := proxies[|proxies| - 1];
      if p.id != id then TaskSlots(proxies[..|proxies| - 1], id) else if p.slots > 0 then p.slots else 1
  }

  predicate ListedBefore(proxies: seq<Proxy>, p: string, q: string) {
    exists i :: 0 <= i < |proxies| && proxies[i].id == p && forall k :: 0 <= k <= i ==> proxies[k].id != q
  }

  /** The pins on the proxy by jobs that do not choose automatically, as positions. */
  function PinsOn(jobs: seq<Job>, id: string): set<(int, int)> {
    set n, k | 0 <= n < |jobs| && !jobs[n].auto && 0 <= k < |jobs[n].pins| && jobs[n].pins[k] == id :: (n, k)
  }

  /** The automatic jobs given to the proxy, as positions of their rows. */
  function GivenOn(rows: seq<Row>, id: string): set<int> {
    set i | 0 <= i < |rows| && rows[i].kind == AutoRow && rows[i].target == id
  }

  /** What the proxy carries once the rows are followed. */
  function Carries(jobs: seq<Job>, rows: seq<Row>, id: string): nat {
    |PinsOn(jobs, id)| + |GivenOn(rows, id)|
  }

  /** With `j` jobs `p` carries less per slot than `q` with `k`, or as much and is listed first. */
  predicate Lighter(proxies: seq<Proxy>, p: string, j: int, q: string, k: int) {
    var here, there := j * TaskSlots(proxies, q), k * TaskSlots(proxies, p);
    here < there || (here == there && ListedBefore(proxies, p, q))
  }

  predicate InNeed(proxies: seq<Proxy>, hot: Shares, jb: Job) {
    jb.auto || exists k :: 0 <= k < |jb.pins| && Bottleneck(hot, jb.pins[k]) && Listed(proxies, jb.pins[k])
  }

  ghost predicate Increasing(at: seq<int>, n: int) {
    && (forall i :: 0 <= i < |at| ==> 0 <= at[i] < n)
    && forall i, j :: 0 <= i < j < |at| ==> at[i] < at[j]
  }

  predicate RowFor(row: Row, jb: Job) {
    row.job == jb.name && row.kind == if jb.auto then AutoRow else HotspotRow
  }

  /** Row `i` names the proxy that is the lightest of those that are no bottleneck. */
  ghost predicate NamesTheLightest(proxies: seq<Proxy>, jobs: seq<Job>, hot: Shares, moves: seq<Row>, i: nat)
    requires i < |moves|
  {
    var b, before := moves[i].target, moves[..i];
    && Free(proxies, hot, b)
    && forall q :: Free(proxies, hot, q) && q != b ==>
      Lighter(proxies, b, Carries(jobs, before, b), q, Carries(jobs, before, q))
  }

  ghost predicate AllNameTheLightest(proxies: seq<Proxy>, jobs: seq<Job>, hot: Shares, moves: seq<Row>) {
    forall i :: 0 <= i < |moves| ==> NamesTheLightest(proxies, jobs, hot, moves, i)
  }

  /** Of the first `n` jobs those in need have one row each, in their order; `at` says where they stand. */
  ghost predicate RowsOfTheNeedy(proxies: seq<Proxy>, jobs: seq<Job>, n: nat, hot: Shares, at: seq<int>,
                                 moves: seq<Row>)
    requires n <= |jobs|
  {
    && Increasing(at, n) && |at| == |moves|
    && (forall k :: 0 <= k < n ==> (k in at <==> InNeed(proxies, hot, jobs[k])))
    && forall i :: 0 <= i < |at| ==> RowFor(moves[i], jobs[at[i]])
  }

  /** The steering rows; there are none when every proxy is a bottleneck. */
  ghost predicate Steered(proxies: seq<Proxy>, jobs: seq<Job>, hot: Shares, moves: seq<Row>) {
    && AllNameTheLightest(proxies, jobs, hot, moves)
    && if exists id :: Free(proxies, hot, id)
       then exists at :: RowsOfTheNeedy(proxies, jobs, |jobs|, hot, at, moves)
       else moves == []
  }

  // --- the figures of the assignment ------------------------------------------------------

  lemma {:induction false} SlotsAreTheLast(proxies: seq<Proxy>, id: string)
    ensures TaskSlots(proxies, id) == Weight(At(LastSlots(proxies), id))
  {
    if proxies != [] { SlotsAreTheLast(proxies[..|proxies| - 1], id); }
  }

  lemma {:induction false} IdsInOrder(proxies: seq<Proxy>)
    ensures |Ids(proxies)| == |proxies| && forall i :: 0 <= i < |proxies| ==> Ids(proxies)[i] == proxies[i].id
  {
    if proxies != [] { IdsInOrder(proxies[..|proxies| - 1]); }
  }

  lemma ListedIff(proxies: seq<Proxy>, hot: Shares, id: string)
    ensures Listed(proxies, id) <==> id in Ids(proxies)
    ensures Listed(proxies, id) <==> id in LastSlots(proxies)
    ensures Free(proxies, hot, id) <==> id in Cool(FleetOf(proxies), hot)
  {
    IdsInOrder(proxies);
    ListedProxies(proxies, id);
    if Listed(proxies, id) {
      var i :| 0 <= i < |proxies| && proxies[i].id == id;
      assert Ids(proxies)[i] == id;
    }
  }

  lemma BeforeIff(proxies: seq<Proxy>, p: string, q: string)
    ensures ListedBefore(proxies, p, q) <==> Place(Ids(proxies), p) < Place(Ids(proxies), q)
  {
    IdsInOrder(proxies);
    var i := Place(Ids(proxies), p);
    if i < Place(Ids(proxies), q) {
      assert proxies[i].id == p;
    }
  }

  lemma LighterIff(proxies: seq<Proxy>, p: string, j: int, q: string, k: int)
    ensures Lighter(proxies, p, j, q, k) <==> Sooner(FleetOf(proxies), p, j, q, k)
  {
    SlotsAreTheLast(proxies, p);
    SlotsAreTheLast(proxies, q);
    BeforeIff(proxies, p, q);
    PerSlotLess(j, At(LastSlots(proxies), p), k, At(LastSlots(proxies), q));
  }

  function PinsOfJob(n: int, pins: seq<string>, id: string): set<(int, int)> {
    set k | 0 <= k < |pins| && pins[k] == id :: (n, k)
  }

  lemma OneMorePin(n: int, pins: seq<string>, id: string)
    requires pins != []
    ensures var k := |pins| - 1;
      PinsOfJob(n, pins, id) == PinsOfJob(n, pins[..k], id) + if pins[k] == id then {(n, k)} else {}
  {}

  lemma {:induction false} PinsOfJobAreCounted(loads: Loads, n: int, pins: seq<string>, id: string)
    requires id in loads
    ensures id in PinAll(loads, pins)
    ensures At(PinAll(loads, pins), id) == At(loads, id) + |PinsOfJob(n, pins, id)|
  {
    if pins == [] {
      assert PinsOfJob(n, pins, id) == {};
    } else {
      PinsOfJobAreCounted(loads, n, pins[..|pins| - 1], id);
      OneMorePin(n, pins, id);
      PinsAreCounted(loads, pins[..|pins| - 1]);
    }
  }

  lemma OneMoreJob(jobs: seq<Job>, id: string)
    requires jobs != []
    ensures var n := |jobs| - 1;
      PinsOn(jobs, id) == PinsOn(jobs[..n], id) + if jobs[n].auto then {} else PinsOfJob(n, jobs[n].pins, id)
  {}

  lemma {:induction false} PinsOnAreCounted(loads: Loads, jobs: seq<Job>, id: string)
    requires id in loads
    ensures id in PinJobs(loads, jobs)
    ensures At(PinJobs(loads, jobs), id) == At(loads, id) + |PinsOn(jobs, id)|
  {
    if jobs == [] {
      assert PinsOn(jobs, id) == {};
    } else {
      var n := |jobs| - 1;
      PinsOnAreCounted(loads, jobs[..n], id);
      OneMoreJob(jobs, id);
      PinsOfJobAreCounted(PinJobs(loads, jobs[..n]), n, jobs[n].pins, id);
      assert PinsOn(jobs[..n], id) !! PinsOfJob(n, jobs[n].pins, id);
    }
  }

  lemma OneMoreRow(rows: seq<Row>, row: Row, id: string)
    ensures GivenOn(rows + [row], id)
         == GivenOn(rows, id) + if row.kind == AutoRow && row.target == id then {|rows|} else {}
  {}

  lemma {:induction false} GivenOnAreCounted(rows: seq<Row>, id: string)
    ensures |GivenOn(rows, id)| == GivenTo(rows, id)
  {
    if rows == [] {
      assert GivenOn(rows, id) == {};
    } else {
      var init, row := rows[..|rows| - 1], rows[|rows| - 1];
      GivenOnAreCounted(init, id);
      OneMoreRow(init, row, id);
      assert init + [row] == rows;
    }
  }

  /** The load of the assignment is pins plus rows. */
  lemma CarriesItsLoad(proxies: seq<Proxy>, jobs: seq<Job>, hot: Shares, n: nat, id: string)
    requires n <= |jobs| && Listed(proxies, id)
    ensures var s := Share(FleetOf(proxies), hot, Pinned(proxies, jobs), jobs[..n]);
      At(s.loads, id) == Carries(jobs, s.rows, id)
  {
    ListedIff(proxies, hot, id);
    RowsAreCounted(FleetOf(proxies), hot, Pinned(proxies, jobs), jobs[..n], id);
    PinsOnAreCounted(NoLoads(proxies), jobs, id);
    GivenOnAreCounted(Share(FleetOf(proxies), hot, Pinned(proxies, jobs), jobs[..n]).rows, id);
  }

  lemma InNeedIff(proxies: seq<Proxy>, hot: Shares, jb: Job)
    ensures InNeed(proxies, hot, jb) <==> NeedsRow(jb, hot, LastSlots(proxies).Keys)
  {
    forall id ensures Listed(proxies, id) <==> id in LastSlots(proxies) { ListedIff(proxies, hot, id); }
    if k :| 0 <= k < |jb.pins| && Bottleneck(hot, jb.pins[k]) && Listed(proxies, jb.pins[k]) {
      assert IsHot(hot, jb.pins[k]);
    }
    if k :| 0 <= k < |jb.pins| && IsHot(hot, jb.pins[k]) && jb.pins[k] in LastSlots(proxies).Keys {
      assert Bottleneck(hot, jb.pins[k]);
    }
  }

  // --- the steering rows --------------------------------------------------------------------

  lemma PickIsLightest(proxies: seq<Proxy>, jobs: seq<Job>, hot: Shares, n: nat)
    requires n <= |jobs|
    ensures var s := Share(FleetOf(proxies), hot, Pinned(proxies, jobs), jobs[..n]);
      var best := Pick(FleetOf(proxies), Cool(FleetOf(proxies), hot), s.loads);
      && (best == None <==> forall id :: !Free(proxies, hot, id))
      && forall row: Row :: best == Some(row.target) ==>
        NamesTheLightest(proxies, jobs, hot, s.rows + [row], |s.rows|)
  {
    var f, cool := FleetOf(proxies), Cool(FleetOf(proxies), hot);
    var s := Share(f, hot, Pinned(proxies, jobs), jobs[..n]);
    var best := Pick(f, cool, s.loads);
    PickIsSoonest(f, cool, s.loads);
    forall id ensures Free(proxies, hot, id) <==> id in cool { ListedIff(proxies, hot, id); }
    forall row: Row | best == Some(row.target)
      ensures NamesTheLightest(proxies, jobs, hot, s.rows + [row], |s.rows|)
    {
      assert (s.rows + [row])[..|s.rows|] == s.rows;
      SoonestIsLightest(proxies, jobs, hot, n, row.target);
    }
  }

  lemma SoonestIsLightest(proxies: seq<Proxy>, jobs: seq<Job>, hot: Shares, n: nat, b: string)
    requires n <= |jobs|
    requires Soonest(FleetOf(proxies), Cool(FleetOf(proxies), hot),
                     Share(FleetOf(proxies), hot, Pinned(proxies, jobs), jobs[..n]).loads, b)
    ensures Free(proxies, hot, b)
    ensures var rows := Share(FleetOf(proxies), hot, Pinned(proxies, jobs), jobs[..n]).rows;
      forall q :: Free(proxies, hot, q) && q != b ==>
        Lighter(proxies, b, Carries(jobs, rows, b), q, Carries(jobs, rows, q))
  {
    var s := Share(FleetOf(proxies), hot, Pinned(proxies, jobs), jobs[..n]);
    ListedIff(proxies, hot, b);
    CarriesItsLoad(proxies, jobs, hot, n, b);
    forall q | Free(proxies, hot, q) && q != b
      ensures Lighter(proxies, b, Carries(jobs, s.rows, b), q, Carries(jobs, s.rows, q))
    {
      ListedIff(proxies, hot, q);
      CarriesItsLoad(proxies, jobs, hot, n, q);
      assert Sooner(FleetOf(proxies), b, At(s.loads, b), q, At(s.loads, q));
      LighterIff(proxies, b, At(s.loads, b), q, At(s.loads, q));
    }
  }

  lemma StillNamesTheLightest(proxies: seq<Proxy>, jobs: seq<Job>, hot: Shares, moves: seq<Row>, row: Row, i: nat)
    requires i < |moves| && NamesTheLightest(proxies, jobs, hot, moves, i)
    ensures NamesTheLightest(proxies, jobs, hot, moves + [row], i)
  {
    assert (moves + [row])[..i] == moves[..i];
  }

  lemma {:induction false} EveryRowIsForTheLightest(proxies: seq<Proxy>, jobs: seq<Job>, hot: Shares, n: nat)
    requires n <= |jobs|
    ensures AllNameTheLightest(proxies, jobs, hot, Share(FleetOf(proxies), hot, Pinned(proxies, jobs), jobs[..n]).rows)
  {
    if n > 0 {
      EveryRowIsForTheLightest(proxies, jobs, hot, n - 1);
      assert jobs[..n][..n - 1] == jobs[..n - 1];
      PickIsLightest(proxies, jobs, hot, n - 1);
      var before := Share(FleetOf(proxies), hot, Pinned(proxies, jobs), jobs[..n - 1]).rows;
      var after := Share(FleetOf(proxies), hot, Pinned(proxies, jobs), jobs[..n]).rows;
      if |after| > |before| {
        assert after == before + [after[|before|]];
        forall i | 0 <= i < |before| ensures NamesTheLightest(proxies, jobs, hot, after, i) {
          StillNamesTheLightest(proxies, jobs, hot, before, after[|before|], i);
        }
      }
    }
  }

  /** What one more job adds. */
  lemma OneMoreJobShared(proxies: seq<Proxy>, jobs: seq<Job>, hot: Shares, n: nat)
    requires 0 < n <= |jobs| && exists id :: Free(proxies, hot, id)
    ensures var before := Share(FleetOf(proxies), hot, Pinned(proxies, jobs), jobs[..n - 1]).rows;
      var after := Share(FleetOf(proxies), hot, Pinned(proxies, jobs), jobs[..n]).rows;
      if InNeed(proxies, hot, jobs[n - 1])
      then |after| == |before| + 1 && after[..|before|] == before && RowFor(after[|before|], jobs[n - 1])
      else after == before
  {
    assert jobs[..n][..n - 1] == jobs[..n - 1];
    PickIsLightest(proxies, jobs, hot, n - 1);
    InNeedIff(proxies, hot, jobs[n - 1]);
  }

  lemma OneMoreInNeed(proxies: seq<Proxy>, jobs: seq<Job>, hot: Shares, n: nat, at: seq<int>,
                      before: seq<Row>, after: seq<Row>)
    requires 0 < n <= |jobs| && RowsOfTheNeedy(proxies, jobs, n - 1, hot, at, before)
    requires if InNeed(proxies, hot, jobs[n - 1])
      then |after| == |before| + 1 && after[..|before|] == before && RowFor(after[|before|], jobs[n - 1])
      else after == before
    ensures RowsOfTheNeedy(proxies, jobs, n, hot,
                           at + if InNeed(proxies, hot, jobs[n - 1]) then [n - 1] else [], after)
  {
    forall i | 0 <= i < |before| && InNeed(proxies, hot, jobs[n - 1]) ensures after[i] == before[i] {
      assert after[..|before|][i] == after[i];
    }
  }

  lemma {:induction false} TheNeedyHaveRows(proxies: seq<Proxy>, jobs: seq<Job>, hot: Shares, n: nat)
    returns (at: seq<int>)
    requires n <= |jobs| && exists id :: Free(proxies, hot, id)
    ensures RowsOfTheNeedy(proxies, jobs, n, hot, at,
                           Share(FleetOf(proxies), hot, Pinned(proxies, jobs), jobs[..n]).rows)
  {
    at := [];
    if n > 0 {
      var init := TheNeedyHaveRows(proxies, jobs, hot, n - 1);
      OneMoreJobShared(proxies, jobs, hot, n);
      OneMoreInNeed(proxies, jobs, hot, n, init,
                    Share(FleetOf(proxies), hot, Pinned(proxies, jobs), jobs[..n - 1]).rows,
                    Share(FleetOf(proxies), hot, Pinned(proxies, jobs), jobs[..n]).rows);
      at := init + if InNeed(proxies, hot, jobs[n - 1]) then [n - 1] else [];
    }
  }

  /** Whom the steering rows are for and whom they name. */
  lemma RowsAreSteered(proxies: seq<Proxy>, jobs: seq<Job>, hot: Shares)
    ensures Steered(proxies, jobs, hot, ShareOut(proxies, jobs, hot).rows)
  {
    assert jobs[..|jobs|] == jobs;
    var moves := Share(FleetOf(proxies), hot, Pinned(proxies, jobs), jobs[..|jobs|]).rows;
    assert moves == ShareOut(proxies, jobs, hot).rows;
    EveryRowIsForTheLightest(proxies, jobs, hot, |jobs|);
    if exists id :: Free(proxies, hot, id) {
      var at := TheNeedyHaveRows(proxies, jobs, hot, |jobs|);
    } else {
      forall id ensures id !in Cool(FleetOf(proxies), hot) { ListedIff(proxies, hot, id); }
      RowsAreForThoseInNeed(FleetOf(proxies), hot, Pinned(proxies, jobs), jobs);
    }
  }

  /**
    Fairness: a proxy given an automatic job carried before its last one no more jobs per slot
    than any proxy that is no bottleneck carries in the end.
   */
  lemma GivenJobsAreFair(proxies: seq<Proxy>, jobs: seq<Job>, hot: Shares, i: nat, p: string)
    requires i < |ShareOut(proxies, jobs, hot).rows| && ShareOut(proxies, jobs, hot).rows[i].kind == AutoRow
    requires Free(proxies, hot, p)
    ensures var moves := ShareOut(proxies, jobs, hot).rows; var b := moves[i].target;
      (Carries(jobs, moves, b) - 1) * TaskSlots(proxies, p) <= Carries(jobs, moves, p) * TaskSlots(proxies, b)
  {
    var s := ShareOut(proxies, jobs, hot);
    var b := s.rows[i].target;
    assert jobs[..|jobs|] == jobs;
    ListedIff(proxies, hot, p);
    EveryRowIsForTheLightest(proxies, jobs, hot, |jobs|);
    assert AllNameTheLightest(proxies, jobs, hot, s.rows);
    assert NamesTheLightest(proxies, jobs, hot, s.rows, i);
    CarriesItsLoad(proxies, jobs, hot, |jobs|, b);
    CarriesItsLoad(proxies, jobs, hot, |jobs|, p);
    AdviceIsFair(proxies, jobs, hot, i, p);
    SlotsAreTheLast(proxies, b);
    SlotsAreTheLast(proxies, p);
    PerSlotLess(At(s.loads, p), At(LastSlots(proxies), p), At(s.loads, b) - 1, At(LastSlots(proxies), b));
  }

  // --- the balance row ------------------------------------------------------------------------

  /** With `j` jobs `p` carries more per slot than `q` with `k`, or as much and is listed first. */
  predicate HeavierHere(proxies: seq<Proxy>, p: string, j: int, q: string, k: int) {
    var here, there := j * TaskSlots(proxies, q), k * TaskSlots(proxies, p);
    here > there || (here == there && ListedBefore(proxies, p, q))
  }

  /** The first of the listed proxies with the most jobs per slot. */
  ghost predicate IsHeaviest(proxies: seq<Proxy>, jobs: seq<Job>, moves: seq<Row>, hi: string) {
    && Listed(proxies, hi)
    && forall q :: Listed(proxies, q) && q != hi ==>
      HeavierHere(proxies, hi, Carries(jobs, moves, hi), q, Carries(jobs, moves, q))
  }

  /** The first of the listed proxies with the fewest jobs per slot. */
  ghost predicate IsLightest(proxies: seq<Proxy>, jobs: seq<Job>, moves: seq<Row>, lo: string) {
    && Listed(proxies, lo)
    && forall q :: Listed(proxies, q) && q != lo ==>
      Lighter(proxies, lo, Carries(jobs, moves, lo), q, Carries(jobs, moves, q))
  }

  /** Half a job per slot or more lies between the two, and the heavier one has two jobs. */
  ghost predicate Lopsided(proxies: seq<Proxy>, jobs: seq<Job>, moves: seq<Row>, hi: string, lo: string) {
    && IsHeaviest(proxies, jobs, moves, hi) && IsLightest(proxies, jobs, moves, lo) && hi != lo
    && Carries(jobs, moves, hi) >= 2
    && 2 * (Carries(jobs, moves, hi) * TaskSlots(proxies, lo) - Carries(jobs, moves, lo) * TaskSlots(proxies, hi))
       >= TaskSlots(proxies, hi) * TaskSlots(proxies, lo)
  }

  ghost predicate Balanced(proxies: seq<Proxy>, jobs: seq<Job>, moves: seq<Row>, balance: seq<Row>) {
    if balance == [] then forall hi, lo :: !Lopsided(proxies, jobs, moves, hi, lo)
    else exists hi, lo :: Lopsided(proxies, jobs, moves, hi, lo) && balance == [Row("(load balancing)", BalanceRow, lo)]
  }

  ghost predicate CarriedAs(proxies: seq<Proxy>, jobs: seq<Job>, moves: seq<Row>, loads: Loads) {
    && loads.Keys == LastSlots(proxies).Keys
    && forall id :: Listed(proxies, id) ==> At(loads, id) == Carries(jobs, moves, id)
  }

  lemma GapIff(proxies: seq<Proxy>, jobs: seq<Job>, moves: seq<Row>, loads: Loads, hi: string, lo: string)
    requires CarriedAs(proxies, jobs, moves, loads) && Listed(proxies, hi) && Listed(proxies, lo)
    ensures WorthMoving(FleetOf(proxies), loads, hi, lo) <==>
      && Carries(jobs, moves, hi) >= 2
      && 2 * (Carries(jobs, moves, hi) * TaskSlots(proxies, lo) - Carries(jobs, moves, lo) * TaskSlots(proxies, hi))
         >= TaskSlots(proxies, hi) * TaskSlots(proxies, lo)
  {
    SlotsAreTheLast(proxies, hi);
    SlotsAreTheLast(proxies, lo);
    HalfAJobApart(At(loads, hi), At(LastSlots(proxies), hi), At(loads, lo), At(LastSlots(proxies), lo));
  }

  /** Which of two proxies `Heaviest` prefers, in products. */
  lemma HeavierHereIff(proxies: seq<Proxy>, p: string, j: int, q: string, k: int)
    ensures HeavierHere(proxies, p, j, q, k) <==>
      var a, b := PerSlot(j, At(LastSlots(proxies), p)), PerSlot(k, At(LastSlots(proxies), q));
      a > b || (a == b && Place(Ids(proxies), p) < Place(Ids(proxies), q))
  {
    SlotsAreTheLast(proxies, p);
    SlotsAreTheLast(proxies, q);
    BeforeIff(proxies, p, q);
    PerSlotLess(k, At(LastSlots(proxies), q), j, At(LastSlots(proxies), p));
  }

  /** Among the heaviest the scan keeps the one listed first. */
  lemma {:induction false} HeaviestIsListedFirst(f: Fleet, loads: Loads, q: string)
    requires f.order != [] && q in f.order && q != Heaviest(f, loads)
    requires LoadOf(f.slots, loads, q) == LoadOf(f.slots, loads, Heaviest(f, loads))
    ensures Place(f.order, Heaviest(f, loads)) < Place(f.order, q)
    decreases |f.order|
  {
    var init, last := f.(order := f.order[..|f.order| - 1]), f.order[|f.order| - 1];
    assert f.order == init.order + [last];
    NoneIsHeavier(f, loads);
    if |f.order| > 1 {
      NoneIsHeavier(init, loads);
      if Heaviest(f, loads) == Heaviest(init, loads) {
        if q in init.order { HeaviestIsListedFirst(init, loads, q); }
      } else {
        assert q in init.order && Heavier(f.slots, loads, last, Heaviest(init, loads));
        assert !Heavier(f.slots, loads, q, Heaviest(init, loads));
      }
    }
  }

  lemma HeaviestIs(proxies: seq<Proxy>, jobs: seq<Job>, moves: seq<Row>, loads: Loads, hi: string)
    requires CarriedAs(proxies, jobs, moves, loads) && proxies != []
    ensures IsHeaviest(proxies, jobs, moves, hi) <==> hi == Heaviest(FleetOf(proxies), loads)
  {
    var f := FleetOf(proxies);
    IdsInOrder(proxies);
    NoneIsHeavier(f, loads);
    var h := Heaviest(f, loads);
    ListedIff(proxies, map[], h);
    forall q | Listed(proxies, q) && q != h
      ensures HeavierHere(proxies, h, Carries(jobs, moves, h), q, Carries(jobs, moves, q))
    {
      ListedIff(proxies, map[], q);
      assert !Heavier(f.slots, loads, q, h);
      if LoadOf(f.slots, loads, q) == LoadOf(f.slots, loads, h) { HeaviestIsListedFirst(f, loads, q); }
      HeavierHereIff(proxies, h, At(loads, h), q, At(loads, q));
    }
    if IsHeaviest(proxies, jobs, moves, hi) && hi != h { NotBothBefore(proxies, hi, h); }
  }

  lemma NotBothBefore(proxies: seq<Proxy>, p: string, q: string)
    ensures !(ListedBefore(proxies, p, q) && ListedBefore(proxies, q, p))
  {
    BeforeIff(proxies, p, q);
    BeforeIff(proxies, q, p);
  }

  lemma LightestIs(proxies: seq<Proxy>, jobs: seq<Job>, moves: seq<Row>, loads: Loads, lo: string)
    requires CarriedAs(proxies, jobs, moves, loads) && proxies != []
    ensures IsLightest(proxies, jobs, moves, lo) <==>
      Some(lo) == Pick(FleetOf(proxies), Everyone(FleetOf(proxies)), loads)
  {
    var f := FleetOf(proxies);
    IdsInOrder(proxies);
    PickIsSoonest(f, Everyone(f), loads);
    assert f.order[0] in Everyone(f);
    var l := Pick(f, Everyone(f), loads).value;
    ListedIff(proxies, map[], l);
    forall q | Listed(proxies, q) && q != l
      ensures Lighter(proxies, l, Carries(jobs, moves, l), q, Carries(jobs, moves, q))
    {
      ListedIff(proxies, map[], q);
      LighterIff(proxies, l, At(loads, l), q, At(loads, q));
      assert q in Everyone(f);
    }
    if IsLightest(proxies, jobs, moves, lo) && lo != l { NotBothBefore(proxies, lo, l); }
  }

  /** For which two proxies the row is made. */
  lemma LopsidedIs(proxies: seq<Proxy>, jobs: seq<Job>, moves: seq<Row>, loads: Loads, hi: string, lo: string)
    requires CarriedAs(proxies, jobs, moves, loads) && proxies != []
    ensures Lopsided(proxies, jobs, moves, hi, lo) <==>
      && hi == Heaviest(FleetOf(proxies), loads)
      && Some(lo) == Pick(FleetOf(proxies), Everyone(FleetOf(proxies)), loads)
      && hi != lo && WorthMoving(FleetOf(proxies), loads, hi, lo)
  {
    HeaviestIs(proxies, jobs, moves, loads, hi);
    LightestIs(proxies, jobs, moves, loads, lo);
    if IsHeaviest(proxies, jobs, moves, hi) && IsLightest(proxies, jobs, moves, lo) {
      GapIff(proxies, jobs, moves, loads, hi, lo);
    }
  }

  lemma RowsAreBalanced(proxies: seq<Proxy>, jobs: seq<Job>, moves: seq<Row>, loads: Loads)
    requires CarriedAs(proxies, jobs, moves, loads)
    ensures Balanced(proxies, jobs, moves, BalanceRows(FleetOf(proxies), loads))
  {
    var f := FleetOf(proxies);
    IdsInOrder(proxies);
    if proxies != [] {
      forall hi, lo | Lopsided(proxies, jobs, moves, hi, lo)
        ensures BalanceRows(f, loads) == [Row("(load balancing)", BalanceRow, lo)]
      {
        LopsidedIs(proxies, jobs, moves, loads, hi, lo);
        ListedIff(proxies, map[], hi);
        ListedIff(proxies, map[], lo);
        TwoAreListed(loads, hi, lo);
      }
      if BalanceRows(f, loads) != [] {
        LopsidedIs(proxies, jobs, moves, loads, Heaviest(f, loads), Pick(f, Everyone(f), loads).value);
      }
    }
  }

  lemma TwoAreListed(loads: Loads, p: string, q: string)
    requires p in loads && q in loads && p != q
    ensures |loads| >= 2
  {
    assert |loads.Keys - {p, q}| == |loads.Keys| - 2;
  }

  // --- the whole advice -----------------------------------------------------------------------

  predicate Named(rows: seq<Row>, job: string) {
    exists i :: 0 <= i < |rows| && rows[i].job == job
  }

  /** Of the first `n` jobs the pinned ones without a row, in their order, need no change. */
  ghost predicate OthersUpTo(jobs: seq<Job>, n: nat, advice: seq<Row>, at: seq<int>, ok: seq<Row>)
    requires n <= |jobs|
  {
    && Increasing(at, n) && |at| == |ok|
    && (forall k :: 0 <= k < n ==> (k in at <==> !jobs[k].auto && !Named(advice, jobs[k].name)))
    && forall i :: 0 <= i < |at| ==> ok[i] == Row(jobs[at[i]].name, OkRow, "")
  }

  /** Nothing is said of the others when there is no advice. */
  ghost predicate OthersAreFine(jobs: seq<Job>, advice: seq<Row>, ok: seq<Row>) {
    if advice == [] then ok == [] else exists at :: OthersUpTo(jobs, |jobs|, advice, at, ok)
  }

  function OfKind(rows: seq<Row>, kind: RowKind): seq<Row> {
    if rows == [] then [] else (if rows[0].kind == kind then [rows[0]] else []) + OfKind(rows[1..], kind)
  }

  /**
    What the advice reads: moves off the bottlenecks, proxies for the automatic jobs, the
    balance, and the jobs that need no change.
   */
  ghost predicate AdviceReads(proxies: seq<Proxy>, jobs: seq<Job>, hot: Shares, rows: seq<Row>) {
    exists moves, balance, ok ::
      && Steered(proxies, jobs, hot, moves)
      && Balanced(proxies, jobs, moves, balance)
      && OthersAreFine(jobs, moves + balance, ok)
      && rows == OfKind(moves, HotspotRow) + OfKind(moves, AutoRow) + balance + ok
  }

  lemma {:induction false} OthersAre(jobs: seq<Job>, advice: seq<Row>, n: nat) returns (at: seq<int>)
    requires n <= |jobs|
    ensures OthersUpTo(jobs, n, advice, at, OkRows(jobs[..n], NamesOf(advice)))
  {
    at := [];
    if n > 0 {
      var init := OthersAre(jobs, advice, n - 1);
      assert jobs[..n][..n - 1] == jobs[..n - 1];
      var name := jobs[n - 1].name;
      assert Named(advice, name) <==> name in NamesOf(advice) by { NamedIff(advice, name); }
      at := init + if !jobs[n - 1].auto && !Named(advice, name) then [n - 1] else [];
    }
  }

  lemma NamedIff(rows: seq<Row>, job: string)
    ensures Named(rows, job) <==> job in NamesOf(rows)
  {
    if i :| 0 <= i < |rows| && rows[i].job == job { assert rows[i] in rows; }
    if r :| r in rows && r.job == job {
      var i :| 0 <= i < |rows| && rows[i] == r;
    }
  }

  function OthersOf(jobs: seq<Job>, advice: seq<Row>): seq<Row> {
    if advice == [] then [] else OkRows(jobs, NamesOf(advice))
  }

  lemma OthersOfAre(jobs: seq<Job>, advice: seq<Row>)
    ensures OthersAreFine(jobs, advice, OthersOf(jobs, advice))
    ensures forall i :: 0 <= i < |OthersOf(jobs, advice)| ==> OthersOf(jobs, advice)[i].kind == OkRow
  {
    if advice != [] {
      assert jobs[..|jobs|] == jobs;
      var at := OthersAre(jobs, advice, |jobs|);
      assert OthersUpTo(jobs, |jobs|, advice, at, OthersOf(jobs, advice));
    }
  }

  const HIGH: Key := (0, 0)
  const MEDIUM: Key := (1, 0)

  predicate OnlySteers(rows: seq<Row>) {
    forall i :: 0 <= i < |rows| ==> rows[i].kind == AutoRow || rows[i].kind == HotspotRow
  }

  lemma {:induction false} ClassesOfMoves(moves: seq<Row>, k: Key)
    requires OnlySteers(moves)
    ensures Class(moves, ByImpact, k)
         == if k == HIGH then OfKind(moves, HotspotRow) else if k == MEDIUM then OfKind(moves, AutoRow) else []
  {
    if moves != [] { ClassesOfMoves(moves[1..], k); }
  }

  lemma {:induction false} OneClass(rows: seq<Row>, k: Key, c: Key)
    requires forall i :: 0 <= i < |rows| ==> ByImpact(rows[i]) == c
    ensures Class(rows, ByImpact, k) == if k == c then rows else []
  {
    if rows != [] {
      OneClass(rows[1..], k, c);
      assert rows == [rows[0]] + rows[1..];
    }
  }

  lemma {:induction false} OfKindIs(rows: seq<Row>, kind: RowKind)
    ensures forall i :: 0 <= i < |OfKind(rows, kind)| ==> OfKind(rows, kind)[i].kind == kind
  {
    if rows != [] { OfKindIs(rows[1..], kind); }
  }

  lemma ClassOfFour(a: seq<Row>, b: seq<Row>, c: seq<Row>, d: seq<Row>, k: Key)
    ensures Class(a + b + c + d, ByImpact, k)
         == Class(a, ByImpact, k) + Class(b, ByImpact, k) + Class(c, ByImpact, k) + Class(d, ByImpact, k)
  {
    ClassConcat(a + b + c, d, ByImpact, k);
    ClassConcat(a + b, c, ByImpact, k);
    ClassConcat(a, b, ByImpact, k);
  }

  lemma ClassOfAll(moves: seq<Row>, balance: seq<Row>, ok: seq<Row>, k: Key)
    ensures Class(moves + balance + ok, ByImpact, k)
         == Class(moves, ByImpact, k) + Class(balance, ByImpact, k) + Class(ok, ByImpact, k)
  {
    ClassConcat(moves + balance, ok, ByImpact, k);
    ClassConcat(moves, balance, ByImpact, k);
  }

  lemma ClassOfBoth(moves: seq<Row>, k: Key)
    requires OnlySteers(moves)
    ensures Class(OfKind(moves, HotspotRow), ByImpact, k) + Class(OfKind(moves, AutoRow), ByImpact, k)
         == Class(moves, ByImpact, k)
  {
    ClassesOfMoves(moves, k);
    OfKindIs(moves, HotspotRow);
    OfKindIs(moves, AutoRow);
    OneClass(OfKind(moves, HotspotRow), k, HIGH);
    OneClass(OfKind(moves, AutoRow), k, MEDIUM);
  }

  lemma ClassesByKind(moves: seq<Row>, balance: seq<Row>, ok: seq<Row>, k: Key)
    requires OnlySteers(moves)
    ensures Class(OfKind(moves, HotspotRow) + OfKind(moves, AutoRow) + balance + ok, ByImpact, k)
         == Class(moves + balance + ok, ByImpact, k)
  {
    ClassOfFour(OfKind(moves, HotspotRow), OfKind(moves, AutoRow), balance, ok, k);
    ClassOfAll(moves, balance, ok, k);
    ClassOfBoth(moves, k);
  }

  lemma InOrderByKind(moves: seq<Row>, balance: seq<Row>, ok: seq<Row>)
    requires forall i :: 0 <= i < |balance| ==> balance[i].kind == BalanceRow
    requires forall i :: 0 <= i < |ok| ==> ok[i].kind == OkRow
    ensures Ordered(OfKind(moves, HotspotRow) + OfKind(moves, AutoRow) + balance + ok, ByImpact)
  {
    OfKindIs(moves, HotspotRow);
    OfKindIs(moves, AutoRow);
  }

  /** Sorted by impact the rows come kind by kind. */
  lemma SortedByKind(moves: seq<Row>, balance: seq<Row>, ok: seq<Row>, rows: seq<Row>)
    requires OnlySteers(moves) && StableSortOf(rows, moves + balance + ok, ByImpact)
    requires forall i :: 0 <= i < |balance| ==> balance[i].kind == BalanceRow
    requires forall i :: 0 <= i < |ok| ==> ok[i].kind == OkRow
    ensures rows == OfKind(moves, HotspotRow) + OfKind(moves, AutoRow) + balance + ok
  {
    var out := OfKind(moves, HotspotRow) + OfKind(moves, AutoRow) + balance + ok;
    InOrderByKind(moves, balance, ok);
    forall k ensures Class(out, ByImpact, k) == Class(rows, ByImpact, k) {
      ClassesByKind(moves, balance, ok, k);
    }
    StableOrderIsUnique(out, rows, ByImpact);
  }

  lemma MovesSteer(f: Fleet, hot: Shares, start: Loads, jobs: seq<Job>)
    ensures OnlySteers(Share(f, hot, start, jobs).rows)
  {
    forall i | 0 <= i < |Share(f, hot, start, jobs).rows|
      ensures var row := Share(f, hot, start, jobs).rows[i]; row.kind == AutoRow || row.kind == HotspotRow
    {
      EveryRowNamesTheLightest(f, hot, start, jobs, i);
    }
  }

  lemma LoadsAreCarried(proxies: seq<Proxy>, jobs: seq<Job>, hot: Shares)
    ensures var s := ShareOut(proxies, jobs, hot); CarriedAs(proxies, jobs, s.rows, s.loads)
  {
    PinnedIsListed(proxies, jobs);
    forall id ensures id in FleetOf(proxies).order ==> id in Pinned(proxies, jobs) { ListedIff(proxies, hot, id); }
    SharingIsEven(FleetOf(proxies), hot, Pinned(proxies, jobs), jobs);
    assert jobs[..|jobs|] == jobs;
    var s := ShareOut(proxies, jobs, hot);
    forall id | Listed(proxies, id) ensures At(s.loads, id) == Carries(jobs, s.rows, id) {
      CarriesItsLoad(proxies, jobs, hot, |jobs|, id);
    }
  }

  /** The advice of every input reads like this. */
  lemma AdviceIsAsItReads(proxies: seq<Proxy>, jobs: seq<Job>, hot: Shares)
    ensures AdviceReads(proxies, jobs, hot, Advice(proxies, jobs, hot))
  {
    var s, f := ShareOut(proxies, jobs, hot), FleetOf(proxies);
    var balance := BalanceRows(f, s.loads);
    var advice := s.rows + balance;
    RowsAreSteered(proxies, jobs, hot);
    LoadsAreCarried(proxies, jobs, hot);
    RowsAreBalanced(proxies, jobs, s.rows, s.loads);
    MovesSteer(f, hot, Pinned(proxies, jobs), jobs);
    var ok := OthersOf(jobs, advice);
    OthersOfAre(jobs, advice);
    SortedByKind(s.rows, balance, ok, Advice(proxies, jobs, hot));
  }

  /** What is said of the steering rows leaves no choice. */
  lemma SteeringIsDetermined(proxies: seq<Proxy>, jobs: seq<Job>, hot: Shares, a: seq<Row>, b: seq<Row>)
    requires Steered(proxies, jobs, hot, a) && Steered(proxies, jobs, hot, b)
    ensures a == b
  {
    if exists id :: Free(proxies, hot, id) {
      var p :| RowsOfTheNeedy(proxies, jobs, |jobs|, hot, p, a);
      var q :| RowsOfTheNeedy(proxies, jobs, |jobs|, hot, q, b);
      SameRows(proxies, jobs, hot, p, a, q, b);
    }
  }

  lemma SameNeedy(proxies: seq<Proxy>, jobs: seq<Job>, hot: Shares, p: seq<int>, a: seq<Row>, q: seq<int>, b: seq<Row>)
    requires RowsOfTheNeedy(proxies, jobs, |jobs|, hot, p, a)
    requires RowsOfTheNeedy(proxies, jobs, |jobs|, hot, q, b)
    ensures p == q && |a| == |b|
  {
    SamePositions(p, q, |jobs|);
  }

  lemma SameRows(proxies: seq<Proxy>, jobs: seq<Job>, hot: Shares, p: seq<int>, a: seq<Row>, q: seq<int>, b: seq<Row>)
    requires RowsOfTheNeedy(proxies, jobs, |jobs|, hot, p, a) && AllNameTheLightest(proxies, jobs, hot, a)
    requires RowsOfTheNeedy(proxies, jobs, |jobs|, hot, q, b) && AllNameTheLightest(proxies, jobs, hot, b)
    ensures a == b
  {
    SameNeedy(proxies, jobs, hot, p, a, q, b);
    SameTargets(proxies, jobs, hot, p, a, b, |a|);
    assert a[..|a|] == a && b[..|b|] == b;
  }

  lemma {:induction false} SamePositions(p: seq<int>, q: seq<int>, n: nat)
    requires Increasing(p, n) && Increasing(q, n)
    requires forall k :: 0 <= k < n ==> (k in p <==> k in q)
    ensures p == q
  {
    EmptyTogether(p, q, n);
    if p != [] && q != [] {
      var i, j := |p| - 1, |q| - 1;
      assert p[i] in q && q[j] in p;
      assert p[i] == q[j];
      assert p == p[..i] + [p[i]] && q == q[..j] + [q[j]];
      forall k | 0 <= k < p[i] ensures k in p[..i] <==> k in q[..j] {
        assert k in p <==> k in q;
      }
      SamePositions(p[..i], q[..j], p[i]);
    }
  }

  lemma EmptyTogether(p: seq<int>, q: seq<int>, n: nat)
    requires Increasing(p, n) && Increasing(q, n)
    requires forall k :: 0 <= k < n ==> (k in p <==> k in q)
    ensures p == [] <==> q == []
  {
    assert p != [] ==> p[0] in q;
    assert q != [] ==> q[0] in p;
  }

  lemma SameTarget(proxies: seq<Proxy>, jobs: seq<Job>, hot: Shares, a: seq<Row>, b: seq<Row>, i: nat)
    requires i < |a| && i < |b| && a[..i] == b[..i]
    requires NamesTheLightest(proxies, jobs, hot, a, i) && NamesTheLightest(proxies, jobs, hot, b, i)
    ensures a[i].target == b[i].target
  {
    NotBothBefore(proxies, a[i].target, b[i].target);
  }

  lemma {:induction false} SameTargets(proxies: seq<Proxy>, jobs: seq<Job>, hot: Shares, at: seq<int>,
                                       a: seq<Row>, b: seq<Row>, n: nat)
    requires RowsOfTheNeedy(proxies, jobs, |jobs|, hot, at, a) && AllNameTheLightest(proxies, jobs, hot, a)
    requires RowsOfTheNeedy(proxies, jobs, |jobs|, hot, at, b) && AllNameTheLightest(proxies, jobs, hot, b)
    requires n <= |a|
    ensures a[..n] == b[..n]
  {
    if n > 0 {
      SameTargets(proxies, jobs, hot, at, a, b, n - 1);
      var i := n - 1;
      SameTarget(proxies, jobs, hot, a, b, i);
      assert RowFor(a[i], jobs[at[i]]) && RowFor(b[i], jobs[at[i]]);
      assert a[..n] == a[..i] + [a[i]] && b[..n] == b[..i] + [b[i]];
    }
  }
}
