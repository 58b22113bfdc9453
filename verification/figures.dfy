/**
  The figures of a summary in terms of the runs alone: no table the pass fills is named here,
  and every rounding is an inequality.
 */
module Figures {
  import opened Wrappers
  import opened Spans
  import opened Sums
  import opened Quotients
  import opened Hours
  import opened Assessment
  import opened Findings
  import opened Summaries
  import opened Activity

  // 16 MiB: less is a run that moved nothing.
  const NOTHING := 16 * 1024 * 1024

  /** `pct` is `part` of `total` in percent, to the nearest, halves up. */
  predicate IsPercent(pct: int, part: int, total: int) {
    if total <= 0 then pct == 0 else 2 * total * pct <= 200 * part + total < 2 * total * (pct + 1)
  }

  lemma PctIsPercent(part: int, total: int)
    ensures IsPercent(Pct(part, total), part, total)
  {
    if total > 0 { FloorBound(200 * part + total, 2 * total); }
  }

  /** The hour of the day, 0 to 23. */
  function ClockHour(t: int): int {
    t % 86400 / 3600
  }

  lemma HourOfDayIsTheClockHour(t: int)
    ensures HourOfDay(t) == ClockHour(t)
  {
  }

  // --- the peak hour -----------------------------------------------------------------------

  /** The loaded hour no other exceeds, its bytes, and the seconds in which something ran. */
  ghost predicate PeakFigure(recs: seq<Record>, peak: Option<int>, bytes: int, busySec: int) {
    match peak
    case None => bytes == 0 && busySec == 0 && forall h :: FullHour(h) ==> HourBytes(recs, h) < NOTHING
    case Some(p) =>
      && FullHour(p) && bytes == HourBytes(recs, p) >= NOTHING
      && (forall h :: FullHour(h) ==> HourBytes(recs, h) <= bytes)
      && busySec == |BusySeconds(recs, p)| <= 3600
  }

  lemma PeakIsTrue(recs: seq<Record>, peak: Option<int>, bytes: int, busySec: int)
    requires NonNegative(recs)
    requires IsPeak(BucketsOf(recs), BucketsOf(recs).Keys, peak) && PeakIs(recs, peak, bytes, busySec)
    ensures PeakFigure(recs, peak, bytes, busySec)
  {
    AllKeysAreFull(recs);
    BucketsHoldAtMostTheTotal(recs);
    forall h | FullHour(h) ensures HourBytes(recs, h) == BucketAt(BucketsOf(recs), h).bytes { HourHolds(recs, h); }
    if peak.Some? { BusyTimeIsTheRuns(recs, peak.value); }
  }

  // --- hours of the day ---------------------------------------------------------------------

  /** `hours` are the loaded hours that fall on hour `h` of the day. */
  ghost predicate AreLoaded(recs: seq<Record>, h: int, hours: set<int>) {
    forall t :: t in hours <==> FullHour(t) && HourBytes(recs, t) >= NOTHING && ClockHour(t) == h
  }

  /** What all days together carry in hour `h` of the day. */
  ghost predicate Carries(recs: seq<Record>, h: int, bytes: int) {
    exists hours: set<int> :: AreLoaded(recs, h, hours)
      && bytes == SumOver(hours, map t | t in hours :: HourBytes(recs, t))
  }

  lemma CarriesHourLoad(recs: seq<Record>, h: int)
    ensures Carries(recs, h, HourLoad(recs, h))
  {
    var loaded := LoadedAt(BucketsOf(recs), h);
    LoadedAreLoaded(recs, h);
    SameOnKeys(loaded, BytesOf(BucketsOf(recs)), map t | t in loaded :: HourBytes(recs, t));
  }

  lemma CarriesOnlyThat(recs: seq<Record>, h: int, bytes: int)
    requires Carries(recs, h, bytes)
    ensures bytes == HourLoad(recs, h)
  {
    LoadedAreLoaded(recs, h);
    var hours: set<int> :|
      AreLoaded(recs, h, hours) && bytes == SumOver(hours, map t | t in hours :: HourBytes(recs, t));
    SameHours(recs, h, hours, LoadedAt(BucketsOf(recs), h));
    SameOnKeys(hours, BytesOf(BucketsOf(recs)), map t | t in hours :: HourBytes(recs, t));
  }

  lemma SameHours(recs: seq<Record>, h: int, a: set<int>, b: set<int>)
    requires AreLoaded(recs, h, a) && AreLoaded(recs, h, b)
    ensures a == b
  {
    forall t ensures t in a <==> t in b {}
  }

  lemma LoadedAreLoaded(recs: seq<Record>, h: int)
    ensures AreLoaded(recs, h, LoadedAt(BucketsOf(recs), h))
    ensures forall t :: t in LoadedAt(BucketsOf(recs), h) ==> At(BytesOf(BucketsOf(recs)), t) == HourBytes(recs, t)
  {
    AllKeysAreFull(recs);
    forall t
      ensures t in LoadedAt(BucketsOf(recs), h) <==> FullHour(t) && HourBytes(recs, t) >= NOTHING && ClockHour(t) == h
      ensures t in LoadedAt(BucketsOf(recs), h) ==> At(BytesOf(BucketsOf(recs)), t) == HourBytes(recs, t)
    {
      if FullHour(t) { HourHolds(recs, t); }
      HourOfDayIsTheClockHour(t);
    }
  }

  /** The jobs that touch a loaded hour on hour `h` of the day. */
  ghost predicate RunsThen(recs: seq<Record>, h: int, job: string) {
    exists r, t :: r in recs && r.job == job && Touches(r, t)
      && FullHour(t) && HourBytes(recs, t) >= NOTHING && ClockHour(t) == h
  }

  ghost predicate AreTheJobsThen(recs: seq<Record>, h: int, jobs: set<string>) {
    forall job :: job in jobs <==> RunsThen(recs, h, job)
  }

  lemma ActiveJobsRunThen(recs: seq<Record>, h: int)
    ensures AreTheJobsThen(recs, h, ActiveJobs(BucketsOf(recs), h))
  {
    forall job ensures job in ActiveJobs(BucketsOf(recs), h) <==> RunsThen(recs, h, job) {
      if job in ActiveJobs(BucketsOf(recs), h) { ActiveJobRunsThen(recs, h, job); }
      if RunsThen(recs, h, job) { JobThenIsActive(recs, h, job); }
    }
  }

  lemma ActiveJobRunsThen(recs: seq<Record>, h: int, job: string)
    requires job in ActiveJobs(BucketsOf(recs), h)
    ensures RunsThen(recs, h, job)
  {
    LoadedAreLoaded(recs, h);
    var t :| t in LoadedAt(BucketsOf(recs), h) && t in BucketsOf(recs) && job in BucketsOf(recs)[t].jobs;
    HourHolds(recs, t);
    assert job in HourJobs(recs, t);
  }

  lemma JobThenIsActive(recs: seq<Record>, h: int, job: string)
    requires RunsThen(recs, h, job)
    ensures job in ActiveJobs(BucketsOf(recs), h)
  {
    LoadedAreLoaded(recs, h);
    var r, t :| r in recs && r.job == job && Touches(r, t)
      && FullHour(t) && HourBytes(recs, t) >= NOTHING && ClockHour(t) == h;
    HourHolds(recs, t);
    assert t in LoadedAt(BucketsOf(recs), h) && t in BucketsOf(recs) && job in HourJobs(recs, t);
  }

  /** No hour of the day carries more; the jobs are those running then, the share that of the hour. */
  ghost predicate BusiestFigure(recs: seq<Record>, hour: int, jobs: int, pct: int) {
    if hour == -1 then jobs == 0 && pct == 0 && forall h, b :: Carries(recs, h, b) ==> b <= 0
    else
      && 0 <= hour < 24
      && exists top, names :: Carries(recs, hour, top) && AreTheJobsThen(recs, hour, names)
           && top > 0 && jobs == |names| && IsPercent(pct, top, TotalBytes(recs))
           && forall h, b :: Carries(recs, h, b) ==> b <= top
  }

  lemma BusiestIsTrue(recs: seq<Record>, hour: int, jobs: int, pct: int)
    requires BusiestIs(recs, hour, jobs, pct)
    ensures BusiestFigure(recs, hour, jobs, pct)
  {
    forall h, b | Carries(recs, h, b) ensures b == HourLoad(recs, h) { CarriesOnlyThat(recs, h, b); }
    if hour != -1 {
      CarriesHourLoad(recs, hour);
      ActiveJobsRunThen(recs, hour);
      PctIsPercent(HourLoad(recs, hour), TotalBytes(recs));
    }
  }

  // --- starting hours -----------------------------------------------------------------------

  predicate StartsAt(r: Record, h: int) {
    r.creation.Some? && ClockHour(r.creation.value) == h
  }

  function StartingJobs(recs: seq<Record>, h: int): set<string> {
    set r | r in recs && StartsAt(r, h) :: r.job
  }

  function StartingBytes(recs: seq<Record>, h: int): int {
    if recs == [] then 0
    else StartingBytes(recs[..|recs| - 1], h) + if StartsAt(recs[|recs| - 1], h) then recs[|recs| - 1].bytes else 0
  }

  lemma {:induction false} StartsAreCounted(recs: seq<Record>, h: int)
    ensures JobsAt(CountsOf(recs).hourJobs, h) == StartingJobs(recs, h)
    ensures At(CountsOf(recs).startBytes, h) == StartingBytes(recs, h)
  {
    if recs != [] {
      var init, r := recs[..|recs| - 1], recs[|recs| - 1];
      StartsAreCounted(init, h);
      assert recs == init + [r];
      if r.creation.Some? { HourOfDayIsTheClockHour(r.creation.value); }
      assert StartingJobs(recs, h) == StartingJobs(init, h) + if StartsAt(r, h) then {r.job} else {};
    }
  }

  /** In no hour of the day do more jobs start; the share is what the runs starting then carry. */
  ghost predicate StaggerFigure(recs: seq<Record>, hour: int, jobs: int, pct: int) {
    && (forall h :: |StartingJobs(recs, h)| <= jobs)
    && if hour == -1 then jobs == 0 && pct == 0
       else 0 <= hour < 24 && jobs == |StartingJobs(recs, hour)| > 0
            && IsPercent(pct, StartingBytes(recs, hour), TotalBytes(recs))
  }

  lemma StaggerIsTrue(recs: seq<Record>, hour: int, jobs: int, pct: int)
    requires StaggerIs(recs, hour, jobs, pct)
    ensures StaggerFigure(recs, hour, jobs, pct)
  {
    forall h ensures |StartingJobs(recs, h)| <= jobs {
      StartsAreCounted(recs, h);
      assert |JobsAt(CountsOf(recs).hourJobs, h)| <= jobs;
    }
    if hour != -1 {
      StartsAreCounted(recs, hour);
      PctIsPercent(StartingBytes(recs, hour), TotalBytes(recs));
    }
  }

  // --- resources ----------------------------------------------------------------------------

  /** The run counts towards its stage. */
  predicate Matters(r: Record) {
    r.bytes >= NOTHING && r.primary != ""
  }

  /** A bottleneck at the target belongs to the repositories, one at proxy or network to the proxies. */
  predicate Owns(r: Record, k: Res) {
    match k.kind
    case Repository => r.primary == "Target" && k.id in r.repoIDs
    case Proxy => (r.primary == "Proxy" || r.primary == "Network") && k.id in r.proxyIDs
  }

  predicate On(r: Record, k: Res) {
    Matters(r) && Owns(r, k)
  }

  function RunsOn(recs: seq<Record>, k: Res): int {
    if recs == [] then 0 else RunsOn(recs[..|recs| - 1], k) + if On(recs[|recs| - 1], k) then 1 else 0
  }

  function BytesOn(recs: seq<Record>, k: Res): int {
    if recs == [] then 0
    else BytesOn(recs[..|recs| - 1], k) + if On(recs[|recs| - 1], k) then recs[|recs| - 1].bytes else 0
  }

  function BytesThatMatter(recs: seq<Record>): int {
    if recs == [] then 0
    else BytesThatMatter(recs[..|recs| - 1]) + if Matters(recs[|recs| - 1]) then recs[|recs| - 1].bytes else 0
  }

  function BytesOfStage(recs: seq<Record>, st: string): int {
    if recs == [] then 0
    else
      var r := recs[|recs| - 1];
      BytesOfStage(recs[..|recs| - 1], st) + if Matters(r) && r.primary == st then r.bytes else 0
  }

  /** The stage of the last run that mattered to the resource. */
  function LastStageOn(recs: seq<Record>, k: Res): string {
    if recs == [] then ""
    else if On(recs[|recs| - 1], k) then recs[|recs| - 1].primary
    else LastStageOn(recs[..|recs| - 1], k)
  }

  predicate BusyOn(recs: seq<Record>, k: Res, t: int) {
    exists r :: r in recs && On(r, k) && r.creation.Some? && r.end.Some? && r.creation.value <= t < r.end.value
  }

  /** The seconds in which some run that mattered was active on the resource. */
  ghost predicate AreBusyOn(recs: seq<Record>, k: Res, seconds: set<int>) {
    forall t :: t in seconds <==> BusyOn(recs, k, t)
  }

  lemma OwnersAreOwners(r: Record, k: Res)
    ensures k in Owners(r) <==> Owns(r, k)
    ensures Binds(r) <==> Matters(r)
  {
    if k in Owners(r) {
      var i :| 0 <= i < |Owners(r)| && Owners(r)[i] == k;
    }
    if Owns(r, k) {
      var ids := if k.kind == Repository then r.repoIDs else r.proxyIDs;
      var i :| 0 <= i < |ids| && ids[i] == k.id;
      assert Owners(r)[i] == k;
    }
  }

  /** What charging a run to distinct resources does to each of them. */
  lemma {:induction false} ChargedWhole(b: Binding, ks: seq<Res>, r: Record, k: Res)
    requires forall i, j :: 0 <= i < j < |ks| ==> ks[i] != ks[j]
    ensures var c := ChargeAll(b, ks, r);
      if k in ks then
        && k in c.resBytes && At(c.resBytes, k) == At(b.resBytes, k) + r.bytes
        && At(c.resRuns, k) == At(b.resRuns, k) + 1
        && k in c.resStage && c.resStage[k] == r.primary
        && SpansAt(c.resSpans, k)
           == SpansAt(b.resSpans, k) + if Timed(r) then [Span(r.creation.value, r.end.value)] else []
      else
        && (k in c.resBytes <==> k in b.resBytes) && At(c.resBytes, k) == At(b.resBytes, k)
        && At(c.resRuns, k) == At(b.resRuns, k)
        && (k in c.resStage <==> k in b.resStage) && (k in b.resStage ==> c.resStage[k] == b.resStage[k])
        && SpansAt(c.resSpans, k) == SpansAt(b.resSpans, k)
    decreases |ks|
  {
    if ks != [] {
      ChargedWhole(Charge(b, ks[0], r), ks[1..], r, k);
      assert k in ks <==> k == ks[0] || k in ks[1..] by { assert ks == [ks[0]] + ks[1..]; }
    }
  }

  /** What the pass knows of a resource is what the runs on it amount to. */
  ghost predicate KnowsResource(recs: seq<Record>, k: Res) {
    var b := BindingOf(recs);
    && (k in b.resBytes <==> RunsOn(recs, k) > 0) && (k in b.resStage <==> k in b.resBytes)
    && At(b.resBytes, k) == BytesOn(recs, k) && At(b.resRuns, k) == RunsOn(recs, k) >= 0
    && (k in b.resStage ==> b.resStage[k] == LastStageOn(recs, k))
    && AreBusyOn(recs, k, Covered(SpansAt(b.resSpans, k)))
  }

  lemma {:induction false} ResourceIsItsRuns(recs: seq<Record>, k: Res)
    requires CleanRecords(recs)
    ensures KnowsResource(recs, k)
  {
    if recs == [] {
      forall t ensures t !in Covered([]) { CoveredIff([], t); }
    } else {
      var init, r := recs[..|recs| - 1], recs[|recs| - 1];
      ResourceIsItsRuns(init, k);
      OneMoreRunOn(init, r, k);
      assert init + [r] == recs;
    }
  }

  lemma OneMoreRunOn(init: seq<Record>, r: Record, k: Res)
    requires KnowsResource(init, k) && DuplicateFree(r.repoIDs) && DuplicateFree(r.proxyIDs)
    ensures KnowsResource(init + [r], k)
  {
    var recs := init + [r];
    assert recs[..|recs| - 1] == init;
    OwnersAreOwners(r, k);
    var b := BindingOf(init);
    if Binds(r) {
      OwnersAreDistinct(r);
      ChargedWhole(CountStage(b, r), Owners(r), r, k);
    }
    forall t ensures t in Covered(SpansAt(BindingOf(recs).resSpans, k)) <==> BusyOn(recs, k, t) {
      assert t in Covered(SpansAt(b.resSpans, k)) <==> BusyOn(init, k, t);
      OneMoreSpan(SpansAt(b.resSpans, k), SpansAt(BindingOf(recs).resSpans, k), t);
    }
  }

  /** A hotspot: the runs on its resource, their bytes, their last stage, and the time they kept it busy. */
  ghost predicate HotspotFigure(recs: seq<Record>, h: Hotspot) {
    && h.runs == RunsOn(recs, h.res) > 0
    && h.bytes == BytesOn(recs, h.res)
    && IsPercent(h.sharePct, h.bytes, BytesThatMatter(recs)) && 0 <= h.sharePct <= 100
    && h.stage == LastStageOn(recs, h.res)
    && exists seconds :: AreBusyOn(recs, h.res, seconds) && h.busySec == |seconds|
  }

  /** The five largest, largest first, no resource twice; one left out is not larger than any listed. */
  ghost predicate HotspotFigures(recs: seq<Record>, hs: seq<Hotspot>) {
    && |hs| <= 5
    && (forall i :: 0 <= i < |hs| ==> HotspotFigure(recs, hs[i]))
    && (forall i, j :: 0 <= i < j < |hs| ==> hs[i].res != hs[j].res && hs[i].bytes >= hs[j].bytes)
    && forall k :: RunsOn(recs, k) > 0 && (forall i :: 0 <= i < |hs| ==> hs[i].res != k) ==>
         |hs| == 5 && forall i :: 0 <= i < |hs| ==> BytesOn(recs, k) <= hs[i].bytes
  }

  lemma HotspotsAreTrue(recs: seq<Record>, hs: seq<Hotspot>)
    requires CleanRecords(recs) && HotspotsAre(recs, hs)
    ensures HotspotFigures(recs, hs)
  {
    var b := BindingOf(recs);
    StagesInRuns(recs, "");
    StageBytesAreConserved(recs);
    forall i | 0 <= i < |hs| ensures HotspotFigure(recs, hs[i]) {
      assert RowOf(b, hs[i]) && HotspotIs(recs, hs[i]);
      ResourceIsItsRuns(recs, hs[i].res);
      PctIsPercent(hs[i].bytes, b.total);
    }
    forall k | RunsOn(recs, k) > 0 && (forall i :: 0 <= i < |hs| ==> hs[i].res != k)
      ensures |hs| == 5 && forall i :: 0 <= i < |hs| ==> BytesOn(recs, k) <= hs[i].bytes
    {
      ResourceIsItsRuns(recs, k);
      assert !Listed(hs, k);
      if |hs| < 5 { AllAreListed(b, hs, k); }
    }
  }

  /** As many distinct rows as there are resources leave none out. */
  lemma AllAreListed(b: Binding, hs: seq<Hotspot>, k: Res)
    requires LargestFive(b, hs) && |hs| < 5 && k in b.resBytes
    ensures Listed(hs, k)
  {
    var listed := ResSet(hs);
    DistinctSize(hs);
    assert forall i :: 0 <= i < |hs| ==> RowOf(b, hs[i]);
    assert listed <= b.resBytes.Keys;
    if k !in listed {
      assert listed + {k} <= b.resBytes.Keys && |listed + {k}| == |listed| + 1;
      SubsetIsSmaller(listed + {k}, b.resBytes.Keys);
    }
  }

  function ResSet(hs: seq<Hotspot>): set<Res> {
    set i | 0 <= i < |hs| :: hs[i].res
  }

  lemma OneMoreRes(hs: seq<Hotspot>)
    requires hs != []
    ensures ResSet(hs) == ResSet(hs[..|hs| - 1]) + {hs[|hs| - 1].res}
  {
    var n := |hs| - 1;
    var init := hs[..n];
    forall k | k in ResSet(hs) ensures k in ResSet(init) + {hs[n].res} {
      var i :| 0 <= i < |hs| && hs[i].res == k;
      if i < n { assert init[i].res == k; }
    }
    forall k | k in ResSet(init) ensures k in ResSet(hs) {
      var i :| 0 <= i < n && init[i].res == k;
      assert hs[i].res == k;
    }
  }

  lemma LastIsNew(hs: seq<Hotspot>)
    requires DistinctRows(hs) && hs != []
    ensures DistinctRows(hs[..|hs| - 1]) && hs[|hs| - 1].res !in ResSet(hs[..|hs| - 1])
  {
  }

  lemma {:induction false} DistinctSize(hs: seq<Hotspot>)
    requires DistinctRows(hs)
    ensures |ResSet(hs)| == |hs|
  {
    if hs != [] {
      LastIsNew(hs);
      DistinctSize(hs[..|hs| - 1]);
      OneMoreRes(hs);
    }
  }

  lemma SubsetIsSmaller(a: set<Res>, b: set<Res>)
    requires a <= b
    ensures |a| <= |b|
  {
    assert b == a + (b - a);
  }

  // --- stages -------------------------------------------------------------------------------

  lemma {:induction false} StagesInRuns(recs: seq<Record>, st: string)
    ensures StageTotal(recs, st) == BytesOfStage(recs, st) && BindingBytes(recs) == BytesThatMatter(recs)
  {
    if recs != [] {
      StagesInRuns(recs[..|recs| - 1], st);
      OwnersAreOwners(recs[|recs| - 1], Res(Repository, ""));
    }
  }

  /** The positions of the runs that matter to the stage. */
  function StageRuns(recs: seq<Record>, st: string): set<int> {
    set i | 0 <= i < |recs| && Matters(recs[i]) && recs[i].primary == st
  }

  /** No stage carries more bytes; the share and the runs are its own. */
  ghost predicate StageFigure(recs: seq<Record>, top: string, pct: int, runs: int) {
    && 0 <= pct <= 100
    && (forall st :: BytesOfStage(recs, st) <= BytesOfStage(recs, top))
    && (top == "" <==> forall st :: BytesOfStage(recs, st) == 0)
    && IsPercent(pct, BytesOfStage(recs, top), BytesThatMatter(recs))
    && runs == |StageRuns(recs, top)|
  }

  lemma {:induction false} StageRunsAreCounted(recs: seq<Record>, st: string)
    ensures StageCount(recs, st) == |StageRuns(recs, st)|
  {
    if recs == [] {
      assert StageRuns(recs, st) == {};
    } else {
      var n := |recs| - 1;
      StageRunsAreCounted(recs[..n], st);
      OwnersAreOwners(recs[n], Res(Repository, ""));
      OneMoreStageRun(recs, st);
    }
  }

  lemma OneMoreStageRun(recs: seq<Record>, st: string)
    requires recs != []
    ensures var n := |recs| - 1;
      StageRuns(recs, st) == StageRuns(recs[..n], st) + if Matters(recs[n]) && recs[n].primary == st then {n} else {}
  {
  }

  lemma StageIsTrue(recs: seq<Record>, top: string, pct: int, runs: int)
    requires TopStageIs(recs, top, pct, runs)
    ensures StageFigure(recs, top, pct, runs)
  {
    forall st ensures StageTotal(recs, st) == BytesOfStage(recs, st) { StagesInRuns(recs, st); }
    StagesInRuns(recs, top);
    StageRunsAreCounted(recs, top);
    PctIsPercent(BytesOfStage(recs, top), BytesThatMatter(recs));
    NoTotalOfNoStage(recs);
    if top == "" {
      assert forall st :: StageTotal(recs, st) == 0;
      assert StageTotal(recs, "") == BytesOfStage(recs, "") == 0;
      NothingMatters(recs);
    }
  }

  /** Where no stage carries bytes, no run matters. */
  lemma {:induction false} NothingMatters(recs: seq<Record>)
    requires forall st :: BytesOfStage(recs, st) == 0
    ensures BytesThatMatter(recs) == 0
  {
    StageBytesAreConserved(recs);
    forall st ensures StageTotal(recs, st) == 0 { StagesInRuns(recs, st); }
    StagesInRuns(recs, "");
    StagesAreTheirRuns(recs);
    var m := BindingOf(recs).stageBytes;
    forall k | k in m.Keys ensures At(m, k) == 0 { assert At(m, k) == StageTotal(recs, k); }
    SumIsMonotone({}, m.Keys, m);
    NoneLeft(m.Keys, m);
  }

  lemma {:induction false} NoneLeft(keys: set<string>, m: map<string, int>)
    requires forall k :: k in keys ==> At(m, k) == 0
    ensures SumOver(keys, m) == 0
  {
    if keys != {} {
      var k :| k in keys;
      TakeOut(keys, m, k);
      NoneLeft(keys - {k}, m);
    }
  }

  // --- the summary ----------------------------------------------------------------------------

  lemma {:induction false} MoversAreTheDataRuns(recs: seq<Record>)
    ensures |Movers(recs)| == |set i | 0 <= i < |recs| && recs[i].bytes >= NOTHING|
  {
    var all := set i | 0 <= i < |recs| && recs[i].bytes >= NOTHING;
    if recs == [] {
      assert all == {};
    } else {
      var n := |recs| - 1;
      MoversAreTheDataRuns(recs[..n]);
      var before := set i | 0 <= i < n && recs[..n][i].bytes >= NOTHING;
      assert all == before + if recs[n].bytes >= NOTHING then {n} else {};
    }
  }

  /** Every figure is what it says of the runs. */
  ghost predicate TrueToTheRuns(recs: seq<Record>, a: Summary) {
    && a.runs == |recs| && a.jobs == |set r | r in recs :: r.job| && a.totalBytes == TotalBytes(recs)
    && a.noDataJobs == |set r | r in recs && JobTotal(recs, r.job) < NOTHING :: r.job|
    && a.dataRuns == |set i | 0 <= i < |recs| && recs[i].bytes >= NOTHING|
    && PeakFigure(recs, a.peakAt, a.peakBytes, a.peakBusySec)
    && BusiestFigure(recs, a.busiestHour, a.busiestJobs, a.busiestPct) && 0 <= a.busiestPct <= 100
    && StaggerFigure(recs, a.staggerHour, a.staggerJobs, a.staggerPct) && 0 <= a.staggerPct <= 100
    && StageFigure(recs, a.topStage, a.topStagePct, a.topStageRuns)
    && HotspotFigures(recs, a.hotspots)
  }

  lemma SummaryIsTrue(recs: seq<Record>, a: Summary)
    requires NonNegative(recs) && CleanRecords(recs) && Sound(recs, a)
    ensures TrueToTheRuns(recs, a)
  {
    PeakIsTrue(recs, a.peakAt, a.peakBytes, a.peakBusySec);
    BusiestIsTrue(recs, a.busiestHour, a.busiestJobs, a.busiestPct);
    StaggerIsTrue(recs, a.staggerHour, a.staggerJobs, a.staggerPct);
    StageIsTrue(recs, a.topStage, a.topStagePct, a.topStageRuns);
    HotspotsAreTrue(recs, a.hotspots);
    MoversAreTheDataRuns(recs);
    assert IdleJobs(recs) == set r | r in recs && JobTotal(recs, r.job) < NOTHING :: r.job;
  }
}
