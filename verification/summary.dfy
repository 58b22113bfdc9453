/**
  The summary of an environment: what one pass over the runs amounts to, each figure in terms
  of the runs.
 */
module Summaries {
  import opened Wrappers
  import opened Spans
  import opened Sums
  import opened Hours
  import opened Assessment
  import opened Findings

  datatype Summary = Summary(
    runs: int, jobs: int, noDataJobs: int, totalBytes: int,
    peakAt: Option<int>, peakBytes: int, peakBusySec: int,
    busiestHour: int, busiestJobs: int, busiestPct: int,
    staggerHour: int, staggerJobs: int, staggerPct: int,
    topStage: string, topStagePct: int, topStageRuns: int, dataRuns: int,
    hotspots: seq<Hotspot>)

  lemma {:induction false} ResourceMapsLineUp(recs: seq<Record>)
    ensures AllWellFormed(BindingOf(recs).resSpans) && BindingOf(recs).resStage.Keys == BindingOf(recs).resBytes.Keys
  {
    if recs != [] {
      var init, r := recs[..|recs| - 1], recs[|recs| - 1];
      ResourceMapsLineUp(init);
      if Binds(r) { ChargesLineUp(CountStage(BindingOf(init), r), Owners(r), r); }
    }
  }

  lemma {:induction false} ChargesLineUp(b: Binding, ks: seq<Res>, r: Record)
    requires AllWellFormed(b.resSpans) && b.resStage.Keys == b.resBytes.Keys
    ensures AllWellFormed(ChargeAll(b, ks, r).resSpans)
    ensures ChargeAll(b, ks, r).resStage.Keys == ChargeAll(b, ks, r).resBytes.Keys
    decreases |ks|
  {
    if ks != [] { ChargesLineUp(Charge(b, ks[0], r), ks[1..], r); }
  }

  /** The load of one hour of the day is part of what the table holds, so of what was moved. */
  lemma HourShareIsBounded(recs: seq<Record>, h: int)
    requires NonNegative(recs)
    ensures 0 <= SumOver(LoadedAt(BucketsOf(recs), h), BytesOf(BucketsOf(recs))) <= TotalBytes(recs)
  {
    var buckets := BucketsOf(recs);
    BucketsHoldAtMostTheTotal(recs);
    forall t | t in buckets.Keys ensures At(BytesOf(buckets), t) >= 0 { assert BucketOk(t, buckets[t]); }
    assert BytesOf(buckets).Keys == buckets.Keys;
    SumIsMonotone(LoadedAt(buckets, h), buckets.Keys, BytesOf(buckets));
  }

  lemma StartShareIsBounded(recs: seq<Record>, h: int)
    requires NonNegative(recs)
    ensures 0 <= At(CountsOf(recs).startBytes, h) <= TotalBytes(recs)
  {
    var m := CountsOf(recs).startBytes;
    StartsHoldAtMostTheTotal(recs);
    forall k | k in m.Keys ensures At(m, k) >= 0 { assert At(CountsOf(recs).startBytes, k) >= 0; }
    if h in m {
      SumIsMonotone({h}, m.Keys, m);
      TakeOut({h}, m, h);
    } else {
      SumIsMonotone({}, m.Keys, m);
    }
  }

  // --- counts ----------------------------------------------------------------------------

  function JobsOf(recs: seq<Record>): set<string> {
    set r | r in recs :: r.job
  }

  /** The runs that moved data and name this stage. */
  function StageCount(recs: seq<Record>, stage: string): nat {
    if recs == [] then 0
    else
      var r := recs[|recs| - 1];
      StageCount(recs[..|recs| - 1], stage) + if Binds(r) && r.primary == stage then 1 else 0
  }

  lemma {:induction false} RunsAreCounted(recs: seq<Record>, stage: string)
    ensures CountsOf(recs).runs == |recs| && CountsOf(recs).jobs == JobsOf(recs)
    ensures BindingOf(recs).dataRuns == |Movers(recs)|
    ensures At(BindingOf(recs).stageRuns, stage) == StageCount(recs, stage)
  {
    if recs != [] {
      var init, r := recs[..|recs| - 1], recs[|recs| - 1];
      RunsAreCounted(init, stage);
      assert recs == init + [r];
      assert JobsOf(recs) == JobsOf(init) + {r.job};
      if Binds(r) { ChargeFrame(CountStage(BindingOf(init), r), Owners(r), r); }
    }
  }

  /** What the runs of one job carry. */
  function JobTotal(recs: seq<Record>, job: string): int {
    if recs == [] then 0
    else JobTotal(recs[..|recs| - 1], job) + if recs[|recs| - 1].job == job then recs[|recs| - 1].bytes else 0
  }

  /** The jobs whose runs together moved next to nothing. */
  function IdleJobs(recs: seq<Record>): set<string> {
    set job | job in JobsOf(recs) && JobTotal(recs, job) < LOW_FLOOR
  }

  lemma {:induction false} JobDataIsTheJobs(recs: seq<Record>, job: string)
    ensures CountsOf(recs).jobData.Keys == JobsOf(recs)
    ensures At(CountsOf(recs).jobData, job) == JobTotal(recs, job)
  {
    if recs != [] {
      var init, r := recs[..|recs| - 1], recs[|recs| - 1];
      JobDataIsTheJobs(init, job);
      assert recs == init + [r];
      assert JobsOf(recs) == JobsOf(init) + {r.job};
    }
  }

  method CountIdle(recs: seq<Record>, jobData: map<string, int>) returns (n: int)
    requires jobData == CountsOf(recs).jobData
    ensures n == |IdleJobs(recs)|
  {
    n := 0;
    var todo := jobData.Keys;
    ghost var idle: set<string> := {};
    while todo != {}
      invariant todo <= jobData.Keys && n == |idle|
      invariant forall j :: j in idle <==> j in jobData && j !in todo && jobData[j] < LOW_FLOOR
      decreases |todo|
    {
      var j :| j in todo;
      todo := todo - {j};
      if jobData[j] < LOW_FLOOR {
        n := n + 1;
        idle := idle + {j};
      }
    }
    forall j ensures j in idle <==> j in IdleJobs(recs) {
      JobDataIsTheJobs(recs, j);
    }
    assert idle == IdleJobs(recs);
  }

  function Sizes(m: map<int, set<string>>): map<int, int> {
    map h | h in m :: |m[h]|
  }

  method BuildAssessment(recs: seq<Record>) returns (a: Option<Summary>)
    requires NonNegative(recs) && CleanRecords(recs)
    ensures a.None? <==> recs == []
    ensures a.Some? ==> Sound(recs, a.value)
  {
    if |recs| == 0 {
      return None;
    }
    var t := TallyRuns(recs);
    BucketsHoldAtMostTheTotal(recs);
    var peak, hourBytes, hourActive := HourLoads(t.hours.buckets);
    var peakBytes, peakBusySec := PeakLoad(recs, t.hours.buckets, peak);
    var busiestHour, busiestJobs, busiestPct := Busiest(recs, hourBytes, hourActive);
    var staggerHour, staggerJobs, staggerPct := Stagger(recs, t.counts);
    var topStage, topStagePct, hotspots := Stages(recs, t.Bound());
    var noDataJobs := CountIdle(recs, t.counts.jobData);
    RunsAreCounted(recs, topStage);
    a := Some(Summary(t.counts.runs, |t.counts.jobs|, noDataJobs, t.counts.totalBytes, peak, peakBytes, peakBusySec,
      busiestHour, busiestJobs, busiestPct, staggerHour, staggerJobs, staggerPct,
      topStage, topStagePct, At(t.stageRuns, topStage), t.dataRuns, hotspots));
  }

  method PeakLoad(recs: seq<Record>, buckets: map<int, Bucket>, peak: Option<int>) returns (bytes: int, busySec: int)
    requires NonNegative(recs) && buckets == BucketsOf(recs)
    requires peak.Some? ==> peak.value in buckets
    ensures PeakIs(recs, peak, bytes, busySec)
  {
    bytes, busySec := 0, 0;
    BucketsHoldAtMostTheTotal(recs);
    if peak.Some? {
      bytes := buckets[peak.value].bytes;
      BusyTimeFitsTheHour(buckets, peak.value);
      busySec := UnionSeconds(buckets[peak.value].spans);
      forall t | t in buckets.Keys ensures At(BytesOf(buckets), t) >= 0 { assert BucketOk(t, buckets[t]); }
      assert BytesOf(buckets).Keys == buckets.Keys;
      SumIsMonotone({peak.value}, buckets.Keys, BytesOf(buckets));
      TakeOut({peak.value}, BytesOf(buckets), peak.value);
    }
  }

  /** The rate of the peak hour divides its bytes by the seconds something ran in it. */
  ghost predicate PeakIs(recs: seq<Record>, peak: Option<int>, bytes: int, busySec: int) {
    match peak
    case None => bytes == 0 && busySec == 0
    case Some(t) =>
      && t in BucketsOf(recs)
      && bytes == BucketsOf(recs)[t].bytes <= TotalBytes(recs)
      && 0 <= busySec == |Covered(BucketsOf(recs)[t].spans)| <= HOUR
  }

  method Busiest(recs: seq<Record>, hourBytes: map<int, int>, hourActive: map<int, set<string>>)
    returns (hour: int, jobs: int, pct: int)
    requires NonNegative(recs)
    requires LoadsAre(BucketsOf(recs), BucketsOf(recs).Keys, hourBytes)
    requires ActiveAre(BucketsOf(recs), BucketsOf(recs).Keys, hourActive)
    ensures BusiestIs(recs, hour, jobs, pct)
  {
    var value;
    hour, value := Largest(hourBytes);
    jobs, pct := 0, 0;
    if hour >= 0 {
      ActiveAreTheJobs(BucketsOf(recs), hourActive, hour);
      jobs := |JobsAt(hourActive, hour)|;
      HourShareIsBounded(recs, hour);
      assert LoadedAt(BucketsOf(recs), hour) * BucketsOf(recs).Keys == LoadedAt(BucketsOf(recs), hour);
      PctInRange(value, TotalBytes(recs));
      pct := Pct(value, TotalBytes(recs));
    }
    assert forall h :: At(hourBytes, h) == HourLoad(recs, h) by {
      forall h ensures LoadedAt(BucketsOf(recs), h) * BucketsOf(recs).Keys == LoadedAt(BucketsOf(recs), h) {}
    }
    forall h ensures HourLoad(recs, h) <= if hour == -1 then 0 else HourLoad(recs, hour) {
      assert At(hourBytes, h) == HourLoad(recs, h);
    }
  }

  /** The bytes that landed in the loaded clock hours on hour `h` of the day. */
  ghost function HourLoad(recs: seq<Record>, h: int): int {
    SumOver(LoadedAt(BucketsOf(recs), h), BytesOf(BucketsOf(recs)))
  }

  /** No hour of the day carries more; the jobs are those running then, the share that of the hour. */
  ghost predicate BusiestIs(recs: seq<Record>, hour: int, jobs: int, pct: int) {
    && 0 <= pct <= 100
    && (forall h :: HourLoad(recs, h) <= if hour == -1 then 0 else HourLoad(recs, hour))
    && (hour == -1 ==> jobs == 0 && pct == 0)
    && (hour != -1 ==>
          && 0 <= hour < 24 && HourLoad(recs, hour) > 0
          && jobs == |ActiveJobs(BucketsOf(recs), hour)| && pct == Pct(HourLoad(recs, hour), TotalBytes(recs)))
  }

  /** In no hour of the day do more jobs start; the share is what the runs starting then carry. */
  ghost predicate StaggerIs(recs: seq<Record>, hour: int, jobs: int, pct: int) {
    && 0 <= pct <= 100
    && (forall h :: |JobsAt(CountsOf(recs).hourJobs, h)| <= jobs)
    && (hour == -1 ==> jobs == 0 && pct == 0)
    && (hour != -1 ==>
          && 0 <= hour < 24 && jobs > 0
          && jobs == |JobsAt(CountsOf(recs).hourJobs, hour)|
          && pct == Pct(At(CountsOf(recs).startBytes, hour), TotalBytes(recs)))
  }

  method Stagger(recs: seq<Record>, c: Counts) returns (hour: int, jobs: int, pct: int)
    requires NonNegative(recs) && c == CountsOf(recs)
    ensures StaggerIs(recs, hour, jobs, pct)
  {
    StartHours(recs);
    hour, jobs := Largest(Sizes(c.hourJobs));
    forall h ensures |JobsAt(c.hourJobs, h)| <= jobs {
      if h in c.hourJobs { assert Sizes(c.hourJobs)[h] <= jobs; }
    }
    BucketsHoldAtMostTheTotal(recs);
    pct := 0;
    if hour >= 0 && c.totalBytes > 0 {
      StartShareIsBounded(recs, hour);
      PctInRange(At(c.startBytes, hour), TotalBytes(recs));
      pct := Pct(At(c.startBytes, hour), c.totalBytes);
    }
  }

  lemma {:induction false} StartHours(recs: seq<Record>)
    ensures forall h :: h in CountsOf(recs).hourJobs ==> 0 <= h < 24
  {
    if recs != [] {
      StartHours(recs[..|recs| - 1]);
    }
  }

  method Stages(recs: seq<Record>, b: Binding) returns (top: string, pct: int, hotspots: seq<Hotspot>)
    requires CleanRecords(recs) && b == BindingOf(recs)
    ensures TopStageIs(recs, top, pct, StageCount(recs, top))
    ensures HotspotsAre(recs, hotspots)
  {
    top, pct := TopShare(recs, b);
    ResourceMapsLineUp(recs);
    StageBytesAreConserved(recs);
    hotspots := Hotspots(b);
    forall i | 0 <= i < |hotspots| ensures HotspotIs(recs, hotspots[i]) {
      assert RowOf(b, hotspots[i]);
      ResourceBytesAreBounded(recs, hotspots[i].res);
      PctInRange(hotspots[i].bytes, b.total);
    }
  }

  method TopShare(recs: seq<Record>, b: Binding) returns (top: string, pct: int)
    requires b == BindingOf(recs)
    ensures TopStageIs(recs, top, pct, StageCount(recs, top))
  {
    StagesAreTheirRuns(recs);
    StageBytesAreConserved(recs);
    top := TopStage(b.stageBytes);
    pct := 0;
    if b.total > 0 && top != "" {
      pct := Pct(b.stageBytes[top], b.total);
    }
    if top != "" {
      SumIsMonotone({top}, b.stageBytes.Keys, b.stageBytes);
      TakeOut({top}, b.stageBytes, top);
      PctInRange(b.stageBytes[top], b.total);
    }
  }

  lemma StagesAreTheirRuns(recs: seq<Record>)
    ensures var m := BindingOf(recs).stageBytes;
      && "" !in m && (forall st :: st in m ==> m[st] >= LOW_FLOOR)
      && forall st :: At(m, st) == StageTotal(recs, st)
  {
    forall st
      ensures At(BindingOf(recs).stageBytes, st) == StageTotal(recs, st)
      ensures st in BindingOf(recs).stageBytes ==> st != "" && BindingOf(recs).stageBytes[st] >= LOW_FLOOR
    {
      StageBytesAreTheStagesRuns(recs, st);
    }
  }

  /** No stage holds more bytes than the top one; there is a top one as soon as a run counts. */
  ghost predicate TopStageIs(recs: seq<Record>, top: string, pct: int, runs: int) {
    && 0 <= pct <= 100 && runs == StageCount(recs, top)
    && (top == "" ==> pct == 0 && forall st :: StageTotal(recs, st) == 0)
    && (top != "" ==>
          && (forall st :: StageTotal(recs, st) <= StageTotal(recs, top))
          && StageTotal(recs, top) >= LOW_FLOOR
          && pct == Pct(StageTotal(recs, top), BindingBytes(recs)))
  }

  /** A hotspot's bytes are those of the runs its resource owns, and its share is one. */
  predicate HotspotIs(recs: seq<Record>, h: Hotspot) {
    && h.bytes == ResTotal(recs, h.res) && 0 <= h.bytes <= BindingBytes(recs)
    && h.sharePct == Pct(h.bytes, BindingBytes(recs)) && 0 <= h.sharePct <= 100
  }

  ghost predicate HotspotsAre(recs: seq<Record>, hs: seq<Hotspot>) {
    LargestFive(BindingOf(recs), hs) && forall i :: 0 <= i < |hs| ==> HotspotIs(recs, hs[i])
  }

  /** Every figure of the summary is what it says of the runs. */
  ghost predicate Sound(recs: seq<Record>, a: Summary) {
    && a.runs == |recs| && a.jobs == |JobsOf(recs)| && a.noDataJobs == |IdleJobs(recs)|
    && a.totalBytes == TotalBytes(recs)
    && IsPeak(BucketsOf(recs), BucketsOf(recs).Keys, a.peakAt)
    && PeakIs(recs, a.peakAt, a.peakBytes, a.peakBusySec)
    && BusiestIs(recs, a.busiestHour, a.busiestJobs, a.busiestPct)
    && StaggerIs(recs, a.staggerHour, a.staggerJobs, a.staggerPct)
    && BottleneckIs(recs, a)
  }

  /** The bottleneck part of a summary. */
  ghost predicate BottleneckIs(recs: seq<Record>, a: Summary) {
    && TopStageIs(recs, a.topStage, a.topStagePct, a.topStageRuns)
    && a.dataRuns == |Movers(recs)|
    && HotspotsAre(recs, a.hotspots)
  }

  // --- no-op runs ------------------------------------------------------------------------

  lemma SameTotals(a: seq<Record>, b: seq<Record>)
    requires CleanRecords(a) && CleanRecords(b) && Movers(a) == Movers(b)
    ensures BindingOf(a) == BindingOf(b) && BindingBytes(a) == BindingBytes(b)
    ensures forall st :: StageTotal(a, st) == StageTotal(b, st) && StageCount(a, st) == StageCount(b, st)
    ensures forall k :: ResTotal(a, k) == ResTotal(b, k)
  {
    NoOpImmunity(a, b);
    StageBytesAreConserved(a);
    StageBytesAreConserved(b);
    forall st ensures StageTotal(a, st) == StageTotal(b, st) && StageCount(a, st) == StageCount(b, st) {
      StageBytesAreTheStagesRuns(a, st);
      StageBytesAreTheStagesRuns(b, st);
      RunsAreCounted(a, st);
      RunsAreCounted(b, st);
    }
    forall k ensures ResTotal(a, k) == ResTotal(b, k) {
      ResourceBytesAreBounded(a, k);
      ResourceBytesAreBounded(b, k);
    }
  }

  /**
    Runs that move next to nothing leave the bottleneck part of the summary as it is: what may
    be reported for one list is what may be reported for the other.
   */
  lemma NoOpsLeaveTheBottleneck(a: seq<Record>, b: seq<Record>, x: Summary)
    requires CleanRecords(a) && CleanRecords(b) && Movers(a) == Movers(b)
    ensures BottleneckIs(a, x) <==> BottleneckIs(b, x)
  {
    SameTotals(a, b);
    SameBottleneck(a, b, x);
    SameBottleneck(b, a, x);
  }

  /** Between equal maxima the stage may differ, but not its share, its size or the other figures. */
  lemma BottleneckFiguresAreDetermined(recs: seq<Record>, x: Summary, y: Summary)
    ensures BottleneckIs(recs, x) && BottleneckIs(recs, y) ==>
      && x.topStagePct == y.topStagePct && x.dataRuns == y.dataRuns && |x.hotspots| == |y.hotspots|
      && StageTotal(recs, x.topStage) == StageTotal(recs, y.topStage)
  {
    if TopStageIs(recs, x.topStage, x.topStagePct, x.topStageRuns)
      && TopStageIs(recs, y.topStage, y.topStagePct, y.topStageRuns)
    {
      TopShareIsDetermined(recs, x.topStage, x.topStagePct, x.topStageRuns, y.topStage, y.topStagePct, y.topStageRuns);
    }
  }

  lemma TopShareIsDetermined(recs: seq<Record>, top: string, pct: int, runs: int, top': string, pct': int, runs': int)
    requires TopStageIs(recs, top, pct, runs) && TopStageIs(recs, top', pct', runs')
    ensures pct == pct' && StageTotal(recs, top) == StageTotal(recs, top')
  {
    NoTotalOfNoStage(recs);
    assert StageTotal(recs, top) <= StageTotal(recs, top') && StageTotal(recs, top') <= StageTotal(recs, top);
  }

  lemma {:induction false} NoTotalOfNoStage(recs: seq<Record>)
    ensures StageTotal(recs, "") == 0
  {
    if recs != [] { NoTotalOfNoStage(recs[..|recs| - 1]); }
  }

  lemma SameBottleneck(a: seq<Record>, b: seq<Record>, x: Summary)
    requires BindingOf(a) == BindingOf(b) && BindingBytes(a) == BindingBytes(b) && Movers(a) == Movers(b)
    requires forall st :: StageTotal(a, st) == StageTotal(b, st) && StageCount(a, st) == StageCount(b, st)
    requires forall k :: ResTotal(a, k) == ResTotal(b, k)
    ensures BottleneckIs(a, x) ==> BottleneckIs(b, x)
  {
    if BottleneckIs(a, x) {
      SameTopStage(a, b, x.topStage, x.topStagePct, x.topStageRuns);
      SameHotspots(a, b, x.hotspots);
    }
  }

  lemma SameTopStage(a: seq<Record>, b: seq<Record>, top: string, pct: int, runs: int)
    requires BindingBytes(a) == BindingBytes(b)
    requires forall st :: StageTotal(a, st) == StageTotal(b, st) && StageCount(a, st) == StageCount(b, st)
    requires TopStageIs(a, top, pct, runs)
    ensures TopStageIs(b, top, pct, runs)
  {
    assert StageTotal(a, top) == StageTotal(b, top);
    forall st
      ensures StageTotal(b, st) <= StageTotal(a, top) || top == ""
    {
      assert StageTotal(a, st) == StageTotal(b, st);
    }
    forall st ensures StageTotal(b, st) == StageTotal(a, st) {}
  }

  lemma SameHotspots(a: seq<Record>, b: seq<Record>, hs: seq<Hotspot>)
    requires BindingOf(a) == BindingOf(b) && BindingBytes(a) == BindingBytes(b)
    requires forall k :: ResTotal(a, k) == ResTotal(b, k)
    requires HotspotsAre(a, hs)
    ensures HotspotsAre(b, hs)
  {
    forall i | 0 <= i < |hs| ensures HotspotIs(b, hs[i]) { assert HotspotIs(a, hs[i]); }
  }
}
