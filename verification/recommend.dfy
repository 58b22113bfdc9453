/**
  Proxy advice: pinned jobs are counted, jobs are steered to the proxies with the fewest jobs
  per task slot, and rows about balance and coverage are added.

  The classes do it in place; `Sharing` says what comes out, and `Advice` what is reported.
 */
module Recommend {
  import opened Wrappers
  import opened Sorting
  import opened Sums
  import opened Slots
  import opened Sharing

  class PxInfo {
    const id: string
    const slots: int
    var jobs: int

    constructor (p: Proxy)
      ensures id == p.id && slots == p.slots && jobs == 0
    {
      id, slots, jobs := p.id, p.slots, 0;
    }

    function Load(): real
      reads this
    {
      PerSlot(jobs, slots)
    }
  }

  /** The VMware proxies and what each carries; a repeated id is listed again and replaced. */
  class Pool {
    var vi: map<string, PxInfo>
    var order: seq<string>

    ghost predicate Valid()
      reads this
    {
      && (forall id :: id in vi ==> vi[id].id == id)
      && (forall id :: id in vi <==> id in order)
    }

    ghost function Carried(): Loads
      reads this, vi.Values
    {
      map id | id in vi :: vi[id].jobs
    }

    ghost function Listed(): Fleet
      reads this
    {
      Fleet(order, map id | id in vi :: vi[id].slots)
    }

    function LoadAt(id: string): (load: real)
      requires Valid() && id in vi
      reads this, vi.Values
      ensures load == LoadOf(Listed().slots, Carried(), id)
    {
      vi[id].Load()
    }

    constructor ()
      ensures Valid() && vi == map[] && order == []
    {
      vi, order := map[], [];
    }

    method Add(p: Proxy)
      requires Valid()
      modifies this
      ensures Valid()
      ensures Listed() == Fleet(old(order) + [p.id], old(Listed()).slots[p.id := p.slots])
      ensures Carried() == old(Carried())[p.id := 0]
      ensures forall o :: o in vi.Values ==> o in old(vi.Values) || fresh(o)
    {
      var info := new PxInfo(p);
      vi := vi[p.id := info];
      order := order + [p.id];
    }

    method AddAll(proxies: seq<Proxy>)
      requires Valid() && vi == map[] && order == []
      modifies this
      ensures Valid() && Listed() == FleetOf(proxies) && Carried() == NoLoads(proxies)
      ensures forall o :: o in vi.Values ==> fresh(o)
    {
      for i := 0 to |proxies|
        invariant Valid() && Listed() == FleetOf(proxies[..i]) && Carried() == NoLoads(proxies[..i])
        invariant forall o :: o in vi.Values ==> fresh(o)
      {
        assert proxies[..i + 1][..i] == proxies[..i];
        Add(proxies[i]);
      }
      assert proxies[..|proxies|] == proxies;
    }

    method Count(id: string)
      requires Valid() && id in vi
      modifies vi[id]
      ensures Valid() && Listed() == old(Listed())
      ensures Carried() == AddTo(old(Carried()), id, 1)
    {
      vi[id].jobs := vi[id].jobs + 1;
    }

    /** Pins of jobs that do not choose their proxy automatically, on proxies that are listed. */
    method CountPins(jobs: seq<Job>)
      requires Valid()
      modifies vi.Values
      ensures Valid() && Listed() == old(Listed())
      ensures Carried() == PinJobs(old(Carried()), jobs)
    {
      for i := 0 to |jobs|
        invariant Valid() && Carried() == PinJobs(old(Carried()), jobs[..i])
      {
        assert jobs[..i + 1][..i] == jobs[..i];
        if !jobs[i].auto {
          ghost var before := Carried();
          for k := 0 to |jobs[i].pins|
            invariant Valid() && Carried() == PinAll(before, jobs[i].pins[..k])
          {
            var pins := jobs[i].pins;
            assert pins[..k + 1][..k] == pins[..k];
            if pins[k] in vi {
              Count(pins[k]);
            }
          }
          assert jobs[i].pins[..|jobs[i].pins|] == jobs[i].pins;
        }
      }
      assert jobs[..|jobs|] == jobs;
    }

    /** The first of the proxies with the fewest jobs per slot, bottlenecks skipped. */
    method Best(hot: Shares) returns (best: Option<string>)
      requires Valid()
      ensures best == Pick(Listed(), Cool(Listed(), hot), Carried())
      ensures best == None <==> Cool(Listed(), hot) == {}
      ensures best.Some? ==> Soonest(Listed(), Cool(Listed(), hot), Carried(), best.value)
    {
      best := None;
      ghost var f, cool, loads := Listed(), Cool(Listed(), hot), Carried();
      for i := 0 to |order|
        invariant best == Pick(f.(order := order[..i]), cool, loads)
        invariant best.Some? ==> best.value in vi
      {
        var id := order[i];
        assert order[..i + 1][..i] == order[..i];
        if IsHot(hot, id) {
          continue;
        }
        if best == None || LoadAt(id) < LoadAt(best.value) {
          best := Some(id);
        }
      }
      assert order[..|order|] == order;
      PickIsSoonest(f, cool, loads);
    }

    /** The row of one job, if it needs one. */
    method AssignOne(jb: Job, hot: Shares) returns (row: Option<Row>)
      requires Valid()
      modifies vi.Values
      ensures Valid() && Listed() == old(Listed())
      ensures row.Some? <==> NeedsRow(jb, hot, vi.Keys) && Cool(Listed(), hot) != {}
      ensures row.Some? ==> row.value.job == jb.name && row.value.kind == RowKindOf(jb)
      ensures row.Some? ==> Some(row.value.target) == Pick(Listed(), Cool(Listed(), hot), old(Carried()))
      ensures row.Some? ==> Soonest(Listed(), Cool(Listed(), hot), old(Carried()), row.value.target)
      ensures Carried() == if row.Some? && jb.auto then AddTo(old(Carried()), row.value.target, 1) else old(Carried())
    {
      if !jb.auto {
        var pinned := FirstHotPin(jb.pins, hot);
        if pinned.None? {
          return None;
        }
        var b := Best(hot);
        if b.Some? && b.value != pinned.value {
          return Some(Row(jb.name, HotspotRow, b.value));
        }
        return None;
      }
      var b := Best(hot);
      if b.None? {
        return None;
      }
      row := Some(Row(jb.name, AutoRow, b.value));
      Count(b.value);
    }

    /** The rows for automatic jobs and for jobs pinned to a bottleneck, in job order. */
    method Assign(jobs: seq<Job>, hot: Shares) returns (rows: seq<Row>)
      requires Valid()
      modifies vi.Values
      ensures Valid() && Listed() == old(Listed())
      ensures Shared(Carried(), rows) == Share(Listed(), hot, old(Carried()), jobs)
    {
      rows := [];
      ghost var f, start := Listed(), Carried();
      for i := 0 to |jobs|
        invariant Valid() && Listed() == f
        invariant Shared(Carried(), rows) == Share(f, hot, start, jobs[..i])
      {
        assert jobs[..i + 1][..i] == jobs[..i];
        PickIsSoonest(f, Cool(f, hot), Carried());
        var row := AssignOne(jobs[i], hot);
        assert f.slots.Keys == vi.Keys;
        if row.Some? {
          rows := rows + [row.value];
        }
      }
      assert jobs[..|jobs|] == jobs;
    }

    /** The first listed pin that is the bottleneck. */
    method FirstHotPin(pins: seq<string>, hot: Shares) returns (id: Option<string>)
      ensures id.None? <==> forall i :: 0 <= i < |pins| ==> !(IsHot(hot, pins[i]) && pins[i] in vi)
      ensures id.Some? ==> id.value in pins && IsHot(hot, id.value) && id.value in vi
    {
      for i := 0 to |pins|
        invariant forall k :: 0 <= k < i ==> !(IsHot(hot, pins[k]) && pins[k] in vi)
      {
        if IsHot(hot, pins[i]) && pins[i] in vi {
          return Some(pins[i]);
        }
      }
      return None;
    }
  }

  // --- the rest of the advice --------------------------------------------------------------

  predicate Heavier(slots: map<string, int>, loads: Loads, p: string, q: string) {
    LoadOf(slots, loads, p) > LoadOf(slots, loads, q)
  }

  /** The first of the proxies with the most jobs per slot. */
  function Heaviest(f: Fleet, loads: Loads): string
    requires f.order != []
    decreases |f.order|
  {
    var init, last := f.(order := f.order[..|f.order| - 1]), f.order[|f.order| - 1];
    if |f.order| == 1 then last
    else
      var h := Heaviest(init, loads);
      if Heavier(f.slots, loads, last, h) then last else h
  }

  lemma {:induction false} NoneIsHeavier(f: Fleet, loads: Loads)
    requires f.order != []
    ensures Heaviest(f, loads) in f.order
    ensures forall p :: p in f.order ==> !Heavier(f.slots, loads, p, Heaviest(f, loads))
    decreases |f.order|
  {
    var init, last := f.(order := f.order[..|f.order| - 1]), f.order[|f.order| - 1];
    assert f.order == init.order + [last];
    if |f.order| > 1 {
      NoneIsHeavier(init, loads);
      var h := Heaviest(init, loads);
      forall p | p in f.order ensures !Heavier(f.slots, loads, p, Heaviest(f, loads)) {
        if p != last { assert !Heavier(f.slots, loads, p, h); }
      }
    }
  }

  function Everyone(f: Fleet): set<string> {
    set id | id in f.order
  }

  const GAP := 0.5

  /** Half a job per slot lies between the two, and the heavier one has a job to spare. */
  predicate WorthMoving(f: Fleet, loads: Loads, hi: string, lo: string) {
    LoadOf(f.slots, loads, hi) - LoadOf(f.slots, loads, lo) >= GAP && At(loads, hi) >= 2
  }

  /** The rebalancing row: it looks at every listed proxy, the bottlenecks included. */
  function BalanceRows(f: Fleet, loads: Loads): seq<Row> {
    var lo := Pick(f, Everyone(f), loads);
    if |loads| < 2 || lo == None || f.order == [] then []
    else
      var hi := Heaviest(f, loads);
      if hi != lo.value && WorthMoving(f, loads, hi, lo.value) then [Row("(load balancing)", BalanceRow, lo.value)]
      else []
  }

  function NamesOf(rows: seq<Row>): set<string> {
    set r | r in rows :: r.job
  }

  function OkRows(jobs: seq<Job>, named: set<string>): seq<Row> {
    if jobs == [] then []
    else
      var jb := jobs[|jobs| - 1];
      OkRows(jobs[..|jobs| - 1], named) + if jb.auto || jb.name in named then [] else [Row(jb.name, OkRow, "")]
  }

  /** Every pinned job has a row of its own or one that says it needs no change. */
  lemma {:induction false} EveryPinnedJobIsNamed(jobs: seq<Job>, named: set<string>, i: nat)
    requires i < |jobs| && !jobs[i].auto
    ensures jobs[i].name in named || Row(jobs[i].name, OkRow, "") in OkRows(jobs, named)
  {
    var init := jobs[..|jobs| - 1];
    if i < |init| {
      assert init[i] == jobs[i];
      EveryPinnedJobIsNamed(init, named, i);
    }
  }

  /** The no-change rows are for pinned jobs that have no row yet. */
  lemma {:induction false} OkRowsAreForTheOthers(jobs: seq<Job>, named: set<string>, r: Row)
    requires r in OkRows(jobs, named)
    ensures r.kind == OkRow && r.job !in named
    ensures exists i :: 0 <= i < |jobs| && !jobs[i].auto && jobs[i].name == r.job
  {
    var init, last := jobs[..|jobs| - 1], jobs[|jobs| - 1];
    if r in OkRows(init, named) {
      OkRowsAreForTheOthers(init, named, r);
      var i :| 0 <= i < |init| && !init[i].auto && init[i].name == r.job;
      assert jobs[i] == init[i];
    } else {
      assert !last.auto && last.name == r.job;
    }
  }

  function ByImpact(r: Row): Key {
    (match r.kind case HotspotRow => 0 case AutoRow => 1 case BalanceRow => 1 case OkRow => 2, 0)
  }

  method Balance(p: Pool) returns (rows: seq<Row>)
    requires p.Valid()
    ensures rows == BalanceRows(p.Listed(), p.Carried())
  {
    rows := [];
    assert p.Carried().Keys == p.vi.Keys;
    if |p.vi| < 2 || p.order == [] {
      return;
    }
    var hi, lo := Extremes(p);
    if hi != lo && p.LoadAt(hi) - p.LoadAt(lo) >= GAP && p.vi[hi].jobs >= 2 {
      rows := [Row("(load balancing)", BalanceRow, lo)];
    }
  }

  lemma OneMoreProxy(f: Fleet, loads: Loads, i: nat, hi: string, lo: string)
    requires 0 < i < |f.order|
    requires hi == Heaviest(f.(order := f.order[..i]), loads)
    requires Some(lo) == Pick(f.(order := f.order[..i]), Everyone(f), loads)
    ensures var id := f.order[i];
      && Heaviest(f.(order := f.order[..i + 1]), loads) == (if Heavier(f.slots, loads, id, hi) then id else hi)
      && Pick(f.(order := f.order[..i + 1]), Everyone(f), loads) ==
        Some(if Heavier(f.slots, loads, lo, id) then id else lo)
  {
    assert f.order[..i + 1][..i] == f.order[..i];
  }

  method Extremes(p: Pool) returns (hi: string, lo: string)
    requires p.Valid() && p.order != []
    ensures hi in p.vi && hi == Heaviest(p.Listed(), p.Carried())
    ensures lo in p.vi && Some(lo) == Pick(p.Listed(), Everyone(p.Listed()), p.Carried())
  {
    ghost var f, loads := p.Listed(), p.Carried();
    hi, lo := p.order[0], p.order[0];
    assert p.order[..1] == [p.order[0]] && p.order[..1][..0] == [];
    for i := 1 to |p.order|
      invariant hi in p.vi && lo in p.vi
      invariant hi == Heaviest(f.(order := p.order[..i]), loads)
      invariant Some(lo) == Pick(f.(order := p.order[..i]), Everyone(f), loads)
    {
      var id := p.order[i];
      OneMoreProxy(f, loads, i, hi, lo);
      if p.LoadAt(id) > p.LoadAt(hi) {
        hi := id;
      }
      if p.LoadAt(id) < p.LoadAt(lo) {
        lo := id;
      }
    }
    assert p.order[..|p.order|] == p.order;
  }

  method Cover(jobs: seq<Job>, named: set<string>) returns (rows: seq<Row>)
    ensures rows == OkRows(jobs, named)
  {
    rows := [];
    for i := 0 to |jobs|
      invariant rows == OkRows(jobs[..i], named)
    {
      assert jobs[..i + 1][..i] == jobs[..i];
      if !jobs[i].auto && jobs[i].name !in named {
        rows := rows + [Row(jobs[i].name, OkRow, "")];
      }
    }
    assert jobs[..|jobs|] == jobs;
  }

  /** Count the pins, then give every job that needs one its row. */
  method Steer(proxies: seq<Proxy>, jobs: seq<Job>, hot: Shares) returns (p: Pool, moves: seq<Row>)
    ensures p.Valid() && p.Listed() == FleetOf(proxies)
    ensures Shared(p.Carried(), moves) == ShareOut(proxies, jobs, hot)
  {
    p := new Pool();
    p.AddAll(proxies);
    p.CountPins(jobs);
    moves := p.Assign(jobs, hot);
  }

  /** All rows, as they are found. */
  function AllRows(proxies: seq<Proxy>, jobs: seq<Job>, hot: Shares): seq<Row> {
    var s := ShareOut(proxies, jobs, hot);
    var advice := s.rows + BalanceRows(FleetOf(proxies), s.loads);
    advice + if advice == [] then [] else OkRows(jobs, NamesOf(advice))
  }

  /** The advice: a function of the proxies, the jobs and the bottlenecks. */
  function Advice(proxies: seq<Proxy>, jobs: seq<Job>, hot: Shares): (rows: seq<Row>)
    ensures StableSortOf(rows, AllRows(proxies, jobs, hot), ByImpact)
    ensures forall r :: r in rows <==> r in AllRows(proxies, jobs, hot)
  {
    StableSort(AllRows(proxies, jobs, hot), ByImpact)
  }

  /** No advice at all exactly when no job is steered and the load is in balance. */
  lemma AdviceIsEmptyIff(proxies: seq<Proxy>, jobs: seq<Job>, hot: Shares)
    ensures var s := ShareOut(proxies, jobs, hot);
      Advice(proxies, jobs, hot) == [] <==> s.rows == [] && BalanceRows(FleetOf(proxies), s.loads) == []
  {
    var s, all, rows := ShareOut(proxies, jobs, hot), AllRows(proxies, jobs, hot), Advice(proxies, jobs, hot);
    if all != [] { assert all[0] in all && all[0] in rows; }
    if rows != [] { assert rows[0] in rows && rows[0] in all; }
  }

  /** Every pinned job is named, unless there is no advice at all. */
  lemma PinnedJobsAreInTheAdvice(proxies: seq<Proxy>, jobs: seq<Job>, hot: Shares, i: nat)
    requires i < |jobs| && !jobs[i].auto
    ensures Advice(proxies, jobs, hot) == [] || exists r :: r in Advice(proxies, jobs, hot) && r.job == jobs[i].name
  {
    var s := ShareOut(proxies, jobs, hot);
    var advice := s.rows + BalanceRows(FleetOf(proxies), s.loads);
    var all, rows := AllRows(proxies, jobs, hot), Advice(proxies, jobs, hot);
    AdviceIsEmptyIff(proxies, jobs, hot);
    if advice != [] {
      EveryPinnedJobIsNamed(jobs, NamesOf(advice), i);
      if jobs[i].name in NamesOf(advice) {
        var r :| r in advice && r.job == jobs[i].name;
        assert r in all && r in rows;
      } else {
        assert Row(jobs[i].name, OkRow, "") in all && Row(jobs[i].name, OkRow, "") in rows;
      }
    }
  }

  /** The whole advice. */
  method Advise(proxies: seq<Proxy>, jobs: seq<Job>, hot: Shares) returns (rows: seq<Row>)
    ensures rows == Advice(proxies, jobs, hot)
  {
    var p, moves := Steer(proxies, jobs, hot);
    var balance := Balance(p);
    ghost var s := ShareOut(proxies, jobs, hot);
    assert moves == s.rows && balance == BalanceRows(FleetOf(proxies), s.loads);
    var advice := moves + balance;
    var ok := [];
    if |advice| > 0 {
      ok := Cover(jobs, NamesOf(advice));
    }
    rows := StableSort(advice + ok, ByImpact);
  }
}
