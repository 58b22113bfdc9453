/**
  Sharing out proxies: pinned jobs are counted, then each automatic job goes to the proxy with
  the fewest jobs per task slot, the first listed among equals, bottlenecks left out.

  `Share` is the outcome as a function of proxies, jobs and bottlenecks; what it promises is
  proved from that definition.
 */
module Sharing {
  import opened Wrappers
  import opened Sums
  import opened Slots

  // % of the binding data that makes a resource a bottleneck.
  const HOT_SHARE := 35

  datatype Proxy = Proxy(id: string, slots: int)
  datatype Job = Job(name: string, auto: bool, pins: seq<string>)

  datatype RowKind = AutoRow | HotspotRow | BalanceRow | OkRow
  datatype Row = Row(job: string, kind: RowKind, target: string)

  type Shares = map<string, int>
  type Loads = map<string, int>

  /** The listed proxies, in order, and their task slots; an id may be listed twice. */
  datatype Fleet = Fleet(order: seq<string>, slots: map<string, int>)

  predicate IsHot(hot: Shares, id: string) {
    id in hot && hot[id] >= HOT_SHARE
  }

  function LoadOf(slots: map<string, int>, loads: Loads, id: string): real {
    PerSlot(At(loads, id), At(slots, id))
  }

  /** Where the id is first listed. */
  function Place(order: seq<string>, id: string): (i: nat)
    ensures i <= |order|
    ensures i < |order| <==> id in order
    ensures i < |order| ==> order[i] == id
    ensures forall k :: 0 <= k < i ==> order[k] != id
  {
    if order == [] then 0
    else
      var init, last := order[..|order| - 1], order[|order| - 1];
      assert order == init + [last];
      var i := Place(init, id);
      if i < |init| then i else if last == id then |init| else |order|
  }

  /** With `j` jobs, `p` comes before `q` with `k` jobs: less per slot, or as much and listed first. */
  predicate Sooner(f: Fleet, p: string, j: int, q: string, k: int) {
    var a, b := PerSlot(j, At(f.slots, p)), PerSlot(k, At(f.slots, q));
    a < b || (a == b && Place(f.order, p) < Place(f.order, q))
  }

  /** Of the listed proxies in `among`, `b` comes before all others. */
  ghost predicate Soonest(f: Fleet, among: set<string>, loads: Loads, b: string) {
    && b in f.order && b in among
    && forall q :: q in f.order && q in among && q != b ==> Sooner(f, b, At(loads, b), q, At(loads, q))
  }

  /** What the loop over the proxies finds: a later one is taken only when it carries less per slot. */
  function Pick(f: Fleet, among: set<string>, loads: Loads): Option<string>
    decreases |f.order|
  {
    if f.order == [] then None
    else
      var best, last := Pick(f.(order := f.order[..|f.order| - 1]), among, loads), f.order[|f.order| - 1];
      if last in among && (best == None || LoadOf(f.slots, loads, last) < LoadOf(f.slots, loads, best.value))
      then Some(last) else best
  }

  lemma {:induction false} PickIsSoonest(f: Fleet, among: set<string>, loads: Loads)
    ensures Pick(f, among, loads) == None <==> forall id :: id in f.order ==> id !in among
    ensures Pick(f, among, loads).Some? ==> Soonest(f, among, loads, Pick(f, among, loads).value)
    decreases |f.order|
  {
    if f.order != [] {
      var init, last := f.(order := f.order[..|f.order| - 1]), f.order[|f.order| - 1];
      PickIsSoonest(init, among, loads);
      assert f.order == init.order + [last];
      assert forall id :: id in f.order <==> id in init.order || id == last;
    }
  }

  lemma SoonestIsUnique(f: Fleet, among: set<string>, loads: Loads, b: string, c: string)
    requires Soonest(f, among, loads, b) && Soonest(f, among, loads, c)
    ensures b == c
  {
  }

  // --- pins -----------------------------------------------------------------------------

  function Ids(proxies: seq<Proxy>): seq<string> {
    if proxies == [] then [] else Ids(proxies[..|proxies| - 1]) + [proxies[|proxies| - 1].id]
  }

  function LastSlots(proxies: seq<Proxy>): map<string, int> {
    if proxies == [] then map[]
    else LastSlots(proxies[..|proxies| - 1])[proxies[|proxies| - 1].id := proxies[|proxies| - 1].slots]
  }

  function FleetOf(proxies: seq<Proxy>): Fleet {
    Fleet(Ids(proxies), LastSlots(proxies))
  }

  /** Every listed proxy starts with no job. */
  function NoLoads(proxies: seq<Proxy>): Loads {
    map id | id in LastSlots(proxies) :: 0
  }

  function PinAll(loads: Loads, pins: seq<string>): Loads {
    if pins == [] then loads
    else
      var before := PinAll(loads, pins[..|pins| - 1]);
      var id := pins[|pins| - 1];
      if id in before then AddTo(before, id, 1) else before
  }

  function PinJobs(loads: Loads, jobs: seq<Job>): Loads {
    if jobs == [] then loads
    else
      var before := PinJobs(loads, jobs[..|jobs| - 1]);
      if jobs[|jobs| - 1].auto then before else PinAll(before, jobs[|jobs| - 1].pins)
  }

  /** What the proxies carry before any automatic job is placed. */
  function Pinned(proxies: seq<Proxy>, jobs: seq<Job>): Loads {
    PinJobs(NoLoads(proxies), jobs)
  }

  // --- the greedy assignment -------------------------------------------------------------

  /** The proxies that are not the bottleneck. */
  function Cool(f: Fleet, hot: Shares): set<string> {
    set id | id in f.order && !IsHot(hot, id)
  }

  /** An automatic job, or one pinned to a listed proxy that is the bottleneck. */
  predicate NeedsRow(jb: Job, hot: Shares, known: set<string>) {
    jb.auto || exists i :: 0 <= i < |jb.pins| && IsHot(hot, jb.pins[i]) && jb.pins[i] in known
  }

  function RowKindOf(jb: Job): RowKind {
    if jb.auto then AutoRow else HotspotRow
  }

  datatype Shared = Shared(loads: Loads, rows: seq<Row>)

  /** One job after the other; only an automatic job counts on the proxy it is given. */
  function Share(f: Fleet, hot: Shares, start: Loads, jobs: seq<Job>): Shared {
    if jobs == [] then Shared(start, [])
    else GiveOne(f, hot, Share(f, hot, start, jobs[..|jobs| - 1]), jobs[|jobs| - 1])
  }

  function GiveOne(f: Fleet, hot: Shares, s: Shared, jb: Job): Shared {
    var best := Pick(f, Cool(f, hot), s.loads);
    if best == None || !NeedsRow(jb, hot, f.slots.Keys) then s
    else Shared(if jb.auto then AddTo(s.loads, best.value, 1) else s.loads,
                s.rows + [Row(jb.name, RowKindOf(jb), best.value)])
  }

  function Autos(jobs: seq<Job>): nat {
    if jobs == [] then 0 else Autos(jobs[..|jobs| - 1]) + if jobs[|jobs| - 1].auto then 1 else 0
  }

  /**
    Before its last automatic job, a proxy that received one came before every other proxy that
    is no bottleneck, as loaded as that one is now.
   */
  ghost predicate Even(f: Fleet, cool: set<string>, start: Loads, loads: Loads) {
    forall b, p :: b in cool && p in cool && b != p && At(loads, b) > At(start, b) ==>
      Sooner(f, b, At(loads, b) - 1, p, At(loads, p))
  }

  /** Nothing is taken away, and bottlenecks are given nothing. */
  ghost predicate OnlyAdds(cool: set<string>, start: Loads, loads: Loads) {
    && loads.Keys == start.Keys
    && forall id :: At(loads, id) >= At(start, id) && (id !in cool ==> At(loads, id) == At(start, id))
  }

  /** The greedy assignment is even: fairness and the tie-break, from the definition alone. */
  lemma {:induction false} SharingIsEven(f: Fleet, hot: Shares, start: Loads, jobs: seq<Job>)
    requires forall id :: id in f.order ==> id in start
    ensures var loads := Share(f, hot, start, jobs).loads;
      Even(f, Cool(f, hot), start, loads) && OnlyAdds(Cool(f, hot), start, loads)
  {
    if jobs != [] {
      var s := Share(f, hot, start, jobs[..|jobs| - 1]);
      SharingIsEven(f, hot, start, jobs[..|jobs| - 1]);
      PickIsSoonest(f, Cool(f, hot), s.loads);
      var best := Pick(f, Cool(f, hot), s.loads);
      if best.Some? { GivingKeepsEven(f, Cool(f, hot), start, s.loads, best.value); }
    }
  }

  lemma GivingKeepsEven(f: Fleet, cool: set<string>, start: Loads, loads: Loads, c: string)
    requires Even(f, cool, start, loads) && OnlyAdds(cool, start, loads) && Soonest(f, cool, loads, c) && c in start
    requires forall id :: id in cool ==> id in f.order
    ensures Even(f, cool, start, AddTo(loads, c, 1)) && OnlyAdds(cool, start, AddTo(loads, c, 1))
  {
    var next := AddTo(loads, c, 1);
    OneMoreJobCounts(At(loads, c), At(f.slots, c));
    forall b, p | b in cool && p in cool && b != p && At(next, b) > At(start, b)
      ensures Sooner(f, b, At(next, b) - 1, p, At(next, p))
    {
      if b == c {
        assert Sooner(f, c, At(loads, c), p, At(loads, p));
      } else {
        assert Sooner(f, b, At(loads, b) - 1, p, At(loads, p));
      }
    }
  }

  // --- rows and totals ------------------------------------------------------------------

  /** The automatic rows that name the proxy. */
  function GivenTo(rows: seq<Row>, id: string): nat {
    if rows == [] then 0
    else
      var row := rows[|rows| - 1];
      GivenTo(rows[..|rows| - 1], id) + if row.kind == AutoRow && row.target == id then 1 else 0
  }

  lemma GivenToOneMore(rows: seq<Row>, row: Row, id: string)
    ensures GivenTo(rows + [row], id) == GivenTo(rows, id) + if row.kind == AutoRow && row.target == id then 1 else 0
  {
    assert (rows + [row])[..|rows|] == rows;
  }

  /** Each proxy carries what it started with and its automatic rows. */
  lemma {:induction false} RowsAreCounted(f: Fleet, hot: Shares, start: Loads, jobs: seq<Job>, id: string)
    ensures var s := Share(f, hot, start, jobs); At(s.loads, id) == At(start, id) + GivenTo(s.rows, id)
  {
    if jobs != [] {
      var s := Share(f, hot, start, jobs[..|jobs| - 1]);
      RowsAreCounted(f, hot, start, jobs[..|jobs| - 1], id);
      var best := Pick(f, Cool(f, hot), s.loads);
      if best.Some? {
        GivenToOneMore(s.rows, Row(jobs[|jobs| - 1].name, RowKindOf(jobs[|jobs| - 1]), best.value), id);
      }
    }
  }

  lemma {:induction false} NamedRowsAreGiven(rows: seq<Row>, i: nat)
    requires i < |rows| && rows[i].kind == AutoRow
    ensures GivenTo(rows, rows[i].target) > 0
  {
    if i < |rows| - 1 { NamedRowsAreGiven(rows[..|rows| - 1], i); }
  }

  /** As many automatic jobs as there are, unless every proxy is a bottleneck. */
  lemma {:induction false} AutomaticJobsAreCounted(f: Fleet, hot: Shares, start: Loads, jobs: seq<Job>)
    ensures var s := Share(f, hot, start, jobs); var a := if Cool(f, hot) == {} then 0 else Autos(jobs);
      && SumOver(Cool(f, hot), s.loads) == SumOver(Cool(f, hot), start) + a
      && SumMap(s.loads) == SumMap(start) + a
  {
    if jobs != [] {
      var init, jb := jobs[..|jobs| - 1], jobs[|jobs| - 1];
      var s := Share(f, hot, start, init);
      AutomaticJobsAreCounted(f, hot, start, init);
      PickIsSoonest(f, Cool(f, hot), s.loads);
      var best := Pick(f, Cool(f, hot), s.loads);
      if best.Some? && jb.auto {
        SumAddTo(s.loads, best.value, 1);
        TakeOut(Cool(f, hot), s.loads, best.value);
        TakeOut(Cool(f, hot), AddTo(s.loads, best.value, 1), best.value);
        SameOnKeys(Cool(f, hot) - {best.value}, s.loads, AddTo(s.loads, best.value, 1));
      } else if best == None {
        assert Cool(f, hot) == {};
      }
    }
  }

  /** The job, kind and target of row `i`: made for job `n`, for the lightest proxy of that moment. */
  ghost predicate MadeFor(f: Fleet, hot: Shares, start: Loads, jobs: seq<Job>, i: nat, n: nat) {
    && n < |jobs|
    && var before, after := Share(f, hot, start, jobs[..n]), Share(f, hot, start, jobs[..n + 1]);
    && i == |before.rows| < |after.rows| <= |Share(f, hot, start, jobs).rows|
    && var row := Share(f, hot, start, jobs).rows[i];
    && after.rows == before.rows + [row]
    && row.job == jobs[n].name && row.kind == RowKindOf(jobs[n])
    && NeedsRow(jobs[n], hot, f.slots.Keys)
    && Soonest(f, Cool(f, hot), before.loads, row.target)
  }

  /** Every row is made for one job and names the lightest proxy of that moment. */
  lemma {:induction false} EveryRowNamesTheLightest(f: Fleet, hot: Shares, start: Loads, jobs: seq<Job>, i: nat)
    requires i < |Share(f, hot, start, jobs).rows|
    ensures exists n: nat :: MadeFor(f, hot, start, jobs, i, n)
  {
    var last := |jobs| - 1;
    if i < |Share(f, hot, start, jobs[..last]).rows| {
      EveryRowNamesTheLightest(f, hot, start, jobs[..last], i);
      var n: nat :| MadeFor(f, hot, start, jobs[..last], i, n);
      assert jobs[..last][..n] == jobs[..n] && jobs[..last][..n + 1] == jobs[..n + 1];
      assert MadeFor(f, hot, start, jobs, i, n);
    } else {
      LastRowNamesTheLightest(f, hot, start, jobs, i);
    }
  }

  lemma LastRowNamesTheLightest(f: Fleet, hot: Shares, start: Loads, jobs: seq<Job>, i: nat)
    requires jobs != []
    requires |Share(f, hot, start, jobs[..|jobs| - 1]).rows| <= i < |Share(f, hot, start, jobs).rows|
    ensures MadeFor(f, hot, start, jobs, i, |jobs| - 1)
  {
    var last := |jobs| - 1;
    PickIsSoonest(f, Cool(f, hot), Share(f, hot, start, jobs[..last]).loads);
    assert jobs[..last + 1] == jobs;
  }

  /** The jobs that need a row have one, in their order, unless every proxy is a bottleneck. */
  lemma {:induction false} RowsAreForThoseInNeed(f: Fleet, hot: Shares, start: Loads, jobs: seq<Job>)
    ensures Shape(Share(f, hot, start, jobs).rows)
         == if Cool(f, hot) == {} then [] else Needed(jobs, hot, f.slots.Keys)
  {
    if jobs != [] {
      var init := jobs[..|jobs| - 1];
      var s := Share(f, hot, start, init);
      RowsAreForThoseInNeed(f, hot, start, init);
      PickIsSoonest(f, Cool(f, hot), s.loads);
      var best := Pick(f, Cool(f, hot), s.loads);
      if best.Some? {
        var row := Row(jobs[|jobs| - 1].name, RowKindOf(jobs[|jobs| - 1]), best.value);
        assert (s.rows + [row])[..|s.rows|] == s.rows;
      } else {
        assert Cool(f, hot) == {};
      }
    }
  }

  function Needed(jobs: seq<Job>, hot: Shares, known: set<string>): seq<(string, RowKind)> {
    if jobs == [] then []
    else
      var jb := jobs[|jobs| - 1];
      Needed(jobs[..|jobs| - 1], hot, known) + if NeedsRow(jb, hot, known) then [(jb.name, RowKindOf(jb))] else []
  }

  function Shape(rows: seq<Row>): seq<(string, RowKind)> {
    if rows == [] then [] else Shape(rows[..|rows| - 1]) + [(rows[|rows| - 1].job, rows[|rows| - 1].kind)]
  }

  /** Pins of non-automatic jobs on proxies that are listed. */
  function KnownPins(known: set<string>, jobs: seq<Job>): nat {
    if jobs == [] then 0
    else
      var jb := jobs[|jobs| - 1];
      KnownPins(known, jobs[..|jobs| - 1]) + if jb.auto then 0 else KnownIn(known, jb.pins)
  }

  function KnownIn(known: set<string>, pins: seq<string>): nat {
    if pins == [] then 0
    else KnownIn(known, pins[..|pins| - 1]) + if pins[|pins| - 1] in known then 1 else 0
  }

  lemma {:induction false} PinsAreCounted(loads: Loads, pins: seq<string>)
    ensures PinAll(loads, pins).Keys == loads.Keys
    ensures SumMap(PinAll(loads, pins)) == SumMap(loads) + KnownIn(loads.Keys, pins)
    ensures forall id :: At(PinAll(loads, pins), id) >= At(loads, id)
  {
    if pins != [] {
      PinsAreCounted(loads, pins[..|pins| - 1]);
      SumAddTo(PinAll(loads, pins[..|pins| - 1]), pins[|pins| - 1], 1);
    }
  }

  lemma {:induction false} PinnedJobsAreCounted(loads: Loads, jobs: seq<Job>)
    ensures PinJobs(loads, jobs).Keys == loads.Keys
    ensures SumMap(PinJobs(loads, jobs)) == SumMap(loads) + KnownPins(loads.Keys, jobs)
    ensures forall id :: At(PinJobs(loads, jobs), id) >= At(loads, id)
  {
    if jobs != [] {
      var init := jobs[..|jobs| - 1];
      PinnedJobsAreCounted(loads, init);
      PinsAreCounted(PinJobs(loads, init), jobs[|jobs| - 1].pins);
    }
  }

  lemma {:induction false} AllZero<K(!new)>(keys: set<K>, m: map<K, int>)
    requires forall k :: k in keys ==> At(m, k) == 0
    ensures SumOver(keys, m) == 0
  {
    if keys != {} {
      var k :| k in keys;
      TakeOut(keys, m, k);
      AllZero(keys - {k}, m);
    }
  }

  lemma {:induction false} ListedProxies(proxies: seq<Proxy>, id: string)
    ensures id in Ids(proxies) <==> id in LastSlots(proxies)
  {
    if proxies != [] { ListedProxies(proxies[..|proxies| - 1], id); }
  }

  function ShareOut(proxies: seq<Proxy>, jobs: seq<Job>, hot: Shares): Shared {
    Share(FleetOf(proxies), hot, Pinned(proxies, jobs), jobs)
  }
}
