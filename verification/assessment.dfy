/**
  The environment assessment: one pass over the runs of a window that fills the hour table,
  the counters and the bottleneck totals, and the findings read off them.

  `Tally` is the pass; `CountsOf`, `BucketsOf` and `BindingOf` say what it has gathered, run
  by run.
 */
module Assessment {
  import opened Wrappers
  import opened Spans
  import opened Sums
  import opened Hours

  // Below 16 MiB a run is a no-op.
  const LOW_FLOOR := 16777216

  /** A completed run: `job` is the job id, or the name where there is none; "" is no known stage. */
  datatype Record = Record(
    job: string, creation: Option<int>, end: Option<int>, bytes: int,
    primary: string, repoIDs: seq<string>, proxyIDs: seq<string>)

  datatype Kind = Repository | Proxy
  datatype Res = Res(kind: Kind, id: string)

  predicate Timed(r: Record) {
    r.creation.Some? && r.end.Some? && r.end.value > r.creation.value
  }

  // --- counters -------------------------------------------------------------------

  datatype Counts = Counts(
    runs: int, totalBytes: int, jobs: set<string>, jobData: map<string, int>,
    hourJobs: map<int, set<string>>, startBytes: map<int, int>)

  function JobsAt(m: map<int, set<string>>, h: int): set<string> {
    if h in m then m[h] else {}
  }

  function CountStep(c: Counts, r: Record): Counts {
    var c' := c.(runs := c.runs + 1, totalBytes := c.totalBytes + r.bytes, jobs := c.jobs + {r.job},
                 jobData := AddTo(c.jobData, r.job, r.bytes));
    if r.creation.None? then c'
    else
      var h := HourOfDay(r.creation.value);
      c'.(startBytes := AddTo(c.startBytes, h, r.bytes),
          hourJobs := c.hourJobs[h := JobsAt(c.hourJobs, h) + {r.job}])
  }

  function CountsOf(recs: seq<Record>): Counts {
    if recs == [] then Counts(0, 0, {}, map[], map[], map[])
    else CountStep(CountsOf(recs[..|recs| - 1]), recs[|recs| - 1])
  }

  // --- activity -------------------------------------------------------------------

  function BucketStep(b: map<int, Bucket>, r: Record): map<int, Bucket> {
    if Timed(r) && r.bytes > 0 then SpreadOver(b, r.creation.value, r.end.value, r.bytes, r.job)
    else if r.creation.Some? then AddWhole(b, r.creation.value, r.bytes, r.job)
    else b
  }

  function BucketsOf(recs: seq<Record>): map<int, Bucket> {
    if recs == [] then map[] else BucketStep(BucketsOf(recs[..|recs| - 1]), recs[|recs| - 1])
  }

  // --- bottleneck totals ------------------------------------------------------------

  datatype Binding = Binding(
    dataRuns: int, stageBytes: map<string, int>, stageRuns: map<string, int>, total: int,
    resBytes: map<Res, int>, resRuns: map<Res, int>, resStage: map<Res, string>, resSpans: map<Res, seq<Span>>)

  const NO_BINDING := Binding(0, map[], map[], 0, map[], map[], map[], map[])

  predicate Moves(r: Record) {
    r.bytes >= LOW_FLOOR
  }

  /** The run counts towards a stage: it moved data and its stage is known. */
  predicate Binds(r: Record) {
    Moves(r) && r.primary != ""
  }

  function Tag(kind: Kind, ids: seq<string>): (rs: seq<Res>)
    ensures |rs| == |ids| && forall i :: 0 <= i < |ids| ==> rs[i] == Res(kind, ids[i])
  {
    seq(|ids|, i requires 0 <= i < |ids| => Res(kind, ids[i]))
  }

  /** The resources a stage belongs to: Target to repositories, Proxy and Network to proxies. */
  function Owners(r: Record): seq<Res> {
    if r.primary == "Target" then Tag(Repository, r.repoIDs)
    else if r.primary == "Proxy" || r.primary == "Network" then Tag(Proxy, r.proxyIDs)
    else []
  }

  function SpansAt(m: map<Res, seq<Span>>, k: Res): seq<Span> {
    if k in m then m[k] else []
  }

  function Charge(b: Binding, k: Res, r: Record): Binding {
    b.(resBytes := AddTo(b.resBytes, k, r.bytes), resRuns := AddTo(b.resRuns, k, 1),
       resStage := b.resStage[k := r.primary],
       resSpans := if Timed(r) then b.resSpans[k := SpansAt(b.resSpans, k) + [Span(r.creation.value, r.end.value)]]
                   else b.resSpans)
  }

  function ChargeAll(b: Binding, ks: seq<Res>, r: Record): Binding
    decreases |ks|
  {
    if ks == [] then b else ChargeAll(Charge(b, ks[0], r), ks[1..], r)
  }

  function CountStage(b: Binding, r: Record): Binding {
    b.(dataRuns := b.dataRuns + 1, stageBytes := AddTo(b.stageBytes, r.primary, r.bytes),
       stageRuns := AddTo(b.stageRuns, r.primary, 1), total := b.total + r.bytes)
  }

  function BindStep(b: Binding, r: Record): Binding {
    if !Moves(r) then b
    else if r.primary == "" then b.(dataRuns := b.dataRuns + 1)
    else ChargeAll(CountStage(b, r), Owners(r), r)
  }

  function BindingOf(recs: seq<Record>): Binding {
    if recs == [] then NO_BINDING else BindStep(BindingOf(recs[..|recs| - 1]), recs[|recs| - 1])
  }

  // --- the pass -----------------------------------------------------------------------

  class Tally {
    const hours: HourTable
    var counts: Counts
    var dataRuns: int
    var stageBytes: map<string, int>
    var stageRuns: map<string, int>
    var bindingTotal: int
    var resBytes: map<Res, int>
    var resRuns: map<Res, int>
    var resStage: map<Res, string>
    var resSpans: map<Res, seq<Span>>

    function Bound(): Binding
      reads this
    {
      Binding(dataRuns, stageBytes, stageRuns, bindingTotal, resBytes, resRuns, resStage, resSpans)
    }

    constructor ()
      ensures fresh(hours) && hours.buckets == map[]
      ensures counts == CountsOf([]) && Bound() == NO_BINDING
    {
      hours := new HourTable();
      counts := Counts(0, 0, {}, map[], map[], map[]);
      dataRuns, bindingTotal := 0, 0;
      stageBytes, stageRuns := map[], map[];
      resBytes, resRuns, resStage, resSpans := map[], map[], map[], map[];
    }

    method AddRun(r: Record)
      modifies this, hours
      ensures counts == CountStep(old(counts), r)
      ensures hours.buckets == BucketStep(old(hours.buckets), r)
      ensures Bound() == BindStep(old(Bound()), r)
    {
      CountRun(r);
      if Timed(r) && r.bytes > 0 {
        hours.Spread(r.creation.value, r.end.value, r.bytes, r.job);
      } else if r.creation.Some? {
        hours.AddAt(r.creation.value, r.bytes, r.job);
      }
      BindRun(r);
    }

    method BindRun(r: Record)
      modifies this`dataRuns, this`stageBytes, this`stageRuns, this`bindingTotal
      modifies this`resBytes, this`resRuns, this`resStage, this`resSpans
      ensures Bound() == BindStep(old(Bound()), r)
    {
      if r.bytes < LOW_FLOOR {
        return;
      }
      dataRuns := dataRuns + 1;
      if r.primary == "" {
        return;
      }
      stageBytes := AddTo(stageBytes, r.primary, r.bytes);
      stageRuns := AddTo(stageRuns, r.primary, 1);
      bindingTotal := bindingTotal + r.bytes;
      ChargeOwners(Owners(r), r);
    }

    method CountRun(r: Record)
      modifies this`counts
      ensures counts == CountStep(old(counts), r)
    {
      counts :=
        counts.(runs := counts.runs + 1, totalBytes := counts.totalBytes + r.bytes, jobs := counts.jobs + {r.job});
      counts := counts.(jobData := AddTo(counts.jobData, r.job, r.bytes));
      if r.creation.Some? {
        var h := HourOfDay(r.creation.value);
        counts := counts.(startBytes := AddTo(counts.startBytes, h, r.bytes));
        counts := counts.(hourJobs := counts.hourJobs[h := JobsAt(counts.hourJobs, h) + {r.job}]);
      }
    }

    method ChargeOwners(ks: seq<Res>, r: Record)
      modifies this`resBytes, this`resRuns, this`resStage, this`resSpans
      ensures Bound() == ChargeAll(old(Bound()), ks, r)
    {
      assert ks[0..] == ks;
      for i := 0 to |ks|
        invariant ChargeAll(Bound(), ks[i..], r) == ChargeAll(old(Bound()), ks, r)
        invariant dataRuns == old(dataRuns) && stageBytes == old(stageBytes)
        invariant stageRuns == old(stageRuns) && bindingTotal == old(bindingTotal)
      {
        var k := ks[i];
        ghost var before := Bound();
        resBytes := AddTo(resBytes, k, r.bytes);
        resRuns := AddTo(resRuns, k, 1);
        resStage := resStage[k := r.primary];
        if Timed(r) {
          resSpans := resSpans[k := SpansAt(resSpans, k) + [Span(r.creation.value, r.end.value)]];
        }
        assert ks[i..][1..] == ks[i + 1..];
        assert Bound() == Charge(before, k, r);
      }
    }
  }

  method TallyRuns(recs: seq<Record>) returns (t: Tally)
    ensures fresh(t) && fresh(t.hours)
    ensures t.counts == CountsOf(recs) && t.hours.buckets == BucketsOf(recs) && t.Bound() == BindingOf(recs)
  {
    t := new Tally();
    for i := 0 to |recs|
      invariant t.counts == CountsOf(recs[..i]) && t.hours.buckets == BucketsOf(recs[..i])
      invariant t.Bound() == BindingOf(recs[..i])
    {
      t.AddRun(recs[i]);
      assert recs[..i + 1][..i] == recs[..i];
    }
    assert recs[..|recs|] == recs;
  }

  // --- what the pass has gathered -----------------------------------------------------

  predicate NonNegative(recs: seq<Record>) {
    forall i :: 0 <= i < |recs| ==> recs[i].bytes >= 0
  }

  function TotalBytes(recs: seq<Record>): int {
    if recs == [] then 0 else TotalBytes(recs[..|recs| - 1]) + recs[|recs| - 1].bytes
  }

  /** Over any list of runs the hour table stays in order and holds at most the bytes moved. */
  lemma {:induction false} BucketsHoldAtMostTheTotal(recs: seq<Record>)
    requires NonNegative(recs)
    ensures TableOk(BucketsOf(recs))
    ensures SumMap(BytesOf(BucketsOf(recs))) <= TotalBytes(recs) == CountsOf(recs).totalBytes
  {
    if recs == [] {
      assert BytesOf(map[]) == map[];
    } else {
      var init, r := recs[..|recs| - 1], recs[|recs| - 1];
      BucketsHoldAtMostTheTotal(init);
      if Timed(r) && r.bytes > 0 {
        SpreadKeeps(BucketsOf(init), r.creation.value, r.end.value, r.bytes, r.job);
      } else if r.creation.Some? {
        AddWholeKeeps(BucketsOf(init), r.creation.value, r.bytes, r.job);
      }
    }
  }

  /** What the runs that start in one hour of the day carry is at most the bytes moved. */
  lemma {:induction false} StartsHoldAtMostTheTotal(recs: seq<Record>)
    requires NonNegative(recs)
    ensures forall h :: At(CountsOf(recs).startBytes, h) >= 0
    ensures SumMap(CountsOf(recs).startBytes) <= TotalBytes(recs)
  {
    if recs != [] {
      var init, r := recs[..|recs| - 1], recs[|recs| - 1];
      var before := CountsOf(init);
      StartsHoldAtMostTheTotal(init);
      if r.creation.Some? {
        SumAddTo(before.startBytes, HourOfDay(r.creation.value), r.bytes);
      }
      forall h ensures At(CountsOf(recs).startBytes, h) >= 0 {
        assert At(before.startBytes, h) >= 0
          && At(before.startBytes, (if r.creation.Some? then HourOfDay(r.creation.value) else h)) >= 0;
      }
    }
  }

  // --- no-op runs do not count ----------------------------------------------------------

  /** The runs that moved data, in order. */
  function Movers(recs: seq<Record>): seq<Record> {
    if recs == [] then []
    else Movers(recs[..|recs| - 1]) + if Moves(recs[|recs| - 1]) then [recs[|recs| - 1]] else []
  }

  lemma {:induction false} OnlyMoversBind(recs: seq<Record>)
    ensures BindingOf(recs) == BindingOf(Movers(recs))
  {
    if recs != [] {
      var init, r := recs[..|recs| - 1], recs[|recs| - 1];
      OnlyMoversBind(init);
      if Moves(r) {
        var m := Movers(recs);
        assert m == Movers(init) + [r];
        assert m[..|m| - 1] == Movers(init) && m[|m| - 1] == r;
      } else {
        assert Movers(recs) == Movers(init);
      }
    }
  }

  /** Inserting no-op runs anywhere changes none of the bottleneck totals. */
  lemma NoOpImmunity(a: seq<Record>, b: seq<Record>)
    requires Movers(a) == Movers(b)
    ensures BindingOf(a) == BindingOf(b)
  {
    OnlyMoversBind(a);
    OnlyMoversBind(b);
  }

  lemma {:induction false} MoversConcat(a: seq<Record>, b: seq<Record>)
    ensures Movers(a + b) == Movers(a) + Movers(b)
    decreases |b|
  {
    if b == [] {
      assert a + b == a;
    } else {
      var init := b[..|b| - 1];
      MoversConcat(a, init);
      assert (a + b)[..|a + b| - 1] == a + init;
    }
  }

  /** One no-op run put in between two stretches of runs. */
  lemma InsertingANoOp(a: seq<Record>, r: Record, b: seq<Record>)
    requires !Moves(r)
    ensures BindingOf(a + [r] + b) == BindingOf(a + b)
  {
    MoversConcat(a + [r], b);
    MoversConcat(a, [r]);
    MoversConcat(a, b);
    assert Movers([r]) == [] by { assert [r][..0] == []; }
    assert Movers(a + [r]) == Movers(a);
    NoOpImmunity(a + [r] + b, a + b);
  }

  // --- conservation ---------------------------------------------------------------------

  /** The bytes of the runs that count, of one stage, and of one resource. */
  function BindingBytes(recs: seq<Record>): int {
    if recs == [] then 0
    else BindingBytes(recs[..|recs| - 1]) + if Binds(recs[|recs| - 1]) then recs[|recs| - 1].bytes else 0
  }

  function StageTotal(recs: seq<Record>, stage: string): int {
    if recs == [] then 0
    else
      var r := recs[|recs| - 1];
      StageTotal(recs[..|recs| - 1], stage) + if Binds(r) && r.primary == stage then r.bytes else 0
  }

  function ResTotal(recs: seq<Record>, k: Res): int {
    if recs == [] then 0
    else
      var r := recs[|recs| - 1];
      ResTotal(recs[..|recs| - 1], k) + if Binds(r) && k in Owners(r) then r.bytes else 0
  }

  predicate DuplicateFree(ids: seq<string>) {
    forall i, j :: 0 <= i < j < |ids| ==> ids[i] != ids[j]
  }

  predicate CleanRecords(recs: seq<Record>) {
    forall i :: 0 <= i < |recs| ==> DuplicateFree(recs[i].repoIDs) && DuplicateFree(recs[i].proxyIDs)
  }

  /** The stages share out exactly the bytes of the runs that moved data and know their stage. */
  lemma {:induction false} StageBytesAreConserved(recs: seq<Record>)
    ensures SumMap(BindingOf(recs).stageBytes) == BindingOf(recs).total == BindingBytes(recs)
  {
    if recs != [] {
      var init, r := recs[..|recs| - 1], recs[|recs| - 1];
      StageBytesAreConserved(init);
      StageStep(BindingOf(init), r);
      SumAddTo(BindingOf(init).stageBytes, r.primary, r.bytes);
    }
  }

  /** Each stage holds the bytes of its own runs; a listed stage has a name and real data. */
  lemma {:induction false} StageBytesAreTheStagesRuns(recs: seq<Record>, stage: string)
    ensures At(BindingOf(recs).stageBytes, stage) == StageTotal(recs, stage)
    ensures stage in BindingOf(recs).stageBytes ==> stage != "" && BindingOf(recs).stageBytes[stage] >= LOW_FLOOR
  {
    if recs != [] {
      var init, r := recs[..|recs| - 1], recs[|recs| - 1];
      StageBytesAreTheStagesRuns(init, stage);
      StageStep(BindingOf(init), r);
    }
  }

  lemma StageStep(b: Binding, r: Record)
    ensures var c := BindStep(b, r);
      if Binds(r) then c.stageBytes == AddTo(b.stageBytes, r.primary, r.bytes) && c.total == b.total + r.bytes
      else c.stageBytes == b.stageBytes && c.total == b.total
  {
    if Binds(r) { ChargeFrame(CountStage(b, r), Owners(r), r); }
  }

  lemma {:induction false} ChargeFrame(b: Binding, ks: seq<Res>, r: Record)
    ensures var c := ChargeAll(b, ks, r);
      c.stageBytes == b.stageBytes && c.stageRuns == b.stageRuns && c.total == b.total && c.dataRuns == b.dataRuns
    decreases |ks|
  {
    if ks != [] { ChargeFrame(Charge(b, ks[0], r), ks[1..], r); }
  }

  /** With no resource listed twice, each listed one is charged the run's bytes once. */
  lemma {:induction false} ChargedOnce(b: Binding, ks: seq<Res>, r: Record, k: Res)
    requires forall i, j :: 0 <= i < j < |ks| ==> ks[i] != ks[j]
    ensures At(ChargeAll(b, ks, r).resBytes, k) == At(b.resBytes, k) + if k in ks then r.bytes else 0
    decreases |ks|
  {
    if ks != [] {
      var c := Charge(b, ks[0], r);
      ChargedOnce(c, ks[1..], r, k);
      assert k in ks <==> k == ks[0] || k in ks[1..] by { assert ks == [ks[0]] + ks[1..]; }
      assert At(c.resBytes, k) == At(b.resBytes, k) + if k == ks[0] then r.bytes else 0;
      assert ChargeAll(b, ks, r) == ChargeAll(c, ks[1..], r);
    }
  }

  lemma OwnersAreDistinct(r: Record)
    requires DuplicateFree(r.repoIDs) && DuplicateFree(r.proxyIDs)
    ensures forall i, j :: 0 <= i < j < |Owners(r)| ==> Owners(r)[i] != Owners(r)[j]
  {}

  /** A resource holds the bytes of the runs it owns, never more than all that count. */
  lemma {:induction false} ResourceBytesAreBounded(recs: seq<Record>, k: Res)
    requires CleanRecords(recs)
    ensures At(BindingOf(recs).resBytes, k) == ResTotal(recs, k)
    ensures 0 <= ResTotal(recs, k) <= BindingBytes(recs)
  {
    if recs != [] {
      ResourceBytesAreBounded(recs[..|recs| - 1], k);
      ResourceStep(BindingOf(recs[..|recs| - 1]), recs[|recs| - 1], k);
    }
  }

  lemma ResourceStep(b: Binding, r: Record, k: Res)
    requires DuplicateFree(r.repoIDs) && DuplicateFree(r.proxyIDs)
    ensures At(BindStep(b, r).resBytes, k) == At(b.resBytes, k) + if Binds(r) && k in Owners(r) then r.bytes else 0
  {
    if Binds(r) {
      OwnersAreDistinct(r);
      ChargedOnce(CountStage(b, r), Owners(r), r, k);
    }
  }

  /** The bound needs the duplicate-free lists: one run naming a repository twice charges it twice. */
  lemma DuplicatesBreakTheBound()
    ensures var r := Record("j", None, None, LOW_FLOOR, "Target", ["r", "r"], []);
      && BindingOf([r]).total == LOW_FLOOR
      && At(BindingOf([r]).resBytes, Res(Repository, "r")) == 2 * LOW_FLOOR
  {
    var r := Record("j", None, None, LOW_FLOOR, "Target", ["r", "r"], []);
    var k := Res(Repository, "r");
    var b := CountStage(NO_BINDING, r);
    assert [r][..0] == [];
    assert BindingOf([r]) == BindStep(NO_BINDING, r);
    assert Owners(r) == [k, k];
    ChargedTwice(b, k, r);
    ChargeFrame(b, [k, k], r);
  }

  lemma ChargedTwice(b: Binding, k: Res, r: Record)
    ensures At(ChargeAll(b, [k, k], r).resBytes, k) == At(b.resBytes, k) + 2 * r.bytes
  {
    var c := Charge(b, k, r);
    assert [k, k][1..] == [k];
    assert ChargeAll(b, [k, k], r) == ChargeAll(c, [k], r);
    ChargedOnce(c, [k], r, k);
  }
}
