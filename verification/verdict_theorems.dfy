/** What a finished verdict promises, for every job, log and measurement. */
module VerdictTheorems {
  import opened Wrappers
  import opened Sorting
  import opened Actions
  import opened Capacity
  import opened VerdictRules
  import opened Verdict

  function BaseSeverity(c: Case): Severity {
    if Bound(c) != [] && Bound(c)[0].util >= 95 then Critical else Warn
  }

  function SeverityOf(c: Case): Severity {
    if c.job.confidence == Insufficient then Unknown
    else if Visited(c) == [] then Fine
    else SeverityAfter(BaseSeverity(c), Visited(c), c)
  }

  function DiagnosisOf(c: Case): Diagnosis {
    if c.job.confidence == Insufficient then Diagnosis(false, Noop, false)
    else if Visited(c) == [] then Diagnosis(true, Balanced, false)
    else HearAll(SILENT, CausesOfAll(Visited(c), c))
  }

  function RuleActs(c: Case): seq<Action> {
    if c.job.confidence == Insufficient then [Finding(Verify, ActWindow)]
    else
      (if Visited(c) == [] then [Finding(Info, ActBalanced)] else ActsOfAll(Visited(c), c, GainOf(c)))
      + CrossActs(c, if Visited(c) == [] then NoStage else Visited(c)[0])
  }

  function HeadlineOf(c: Case): string {
    if c.job.confidence == Insufficient then "hl.nodata"
    else if Visited(c) == [] then "hl.balanced"
    else if Bound(c) == [] then "hl.boundnopct"
    else if |Bound(c)| > 1 then "hl.bound2"
    else "hl.bound"
  }

  method BindingStages(stages: seq<StageInfo>) returns (out: seq<StageInfo>)
    ensures out == StableSort(Saturated(stages), ByUtil)
  {
    out := [];
    for i := 0 to |stages|
      invariant out == Saturated(stages[..i])
    {
      assert stages[..i + 1][..i] == stages[..i];
      if stages[i].binding && stages[i].util > 0 {
        out := out + [stages[i]];
      }
    }
    assert stages[..|stages|] == stages;
    out := StableSort(out, ByUtil);
  }

  method BuildVerdict(c: Case) returns (b: VBuild)
    ensures fresh(b) && b.c == c
    ensures b.acts == Ranked(RuleActs(c))
    ensures b.Said() == DiagnosisOf(c)
    ensures b.severity == SeverityOf(c)
    ensures b.headline == HeadlineOf(c)
    ensures b.gain == if c.job.confidence == Insufficient then None else GainOf(c)
    ensures b.stage == if Visited(c) == [] then NoStage else Visited(c)[0]
    ensures b.stage2 == if |Visited(c)| > 1 then Visited(c)[1] else NoStage
    ensures b.stageUtil == if c.job.confidence != Insufficient && Bound(c) != [] then Bound(c)[0].util else 0
  {
    b := new VBuild(c);
    if c.job.confidence == Insufficient {
      b.severity := Unknown;
      b.headline := "hl.nodata";
      b.SetCause(false, Noop);
      b.Add(Verify, NoStage, ActWindow);
      b.Finish();
      return;
    }
    Judge(b);
    b.CrossCutting();
    b.Finish();
  }

  /** The rules of a job that moved data. */
  method Judge(b: VBuild)
    requires b.c.job.confidence != Insufficient
    requires b.acts == [] && b.Said() == SILENT && b.stage == NoStage && b.stage2 == NoStage && b.stageUtil == 0
    modifies b
    ensures b.acts ==
      if Visited(b.c) == [] then [Finding(Info, ActBalanced)] else ActsOfAll(Visited(b.c), b.c, GainOf(b.c))
    ensures b.Said() == DiagnosisOf(b.c)
    ensures b.severity == SeverityOf(b.c)
    ensures b.headline == HeadlineOf(b.c)
    ensures b.gain == GainOf(b.c)
    ensures b.stage == if Visited(b.c) == [] then NoStage else Visited(b.c)[0]
    ensures b.stage2 == if |Visited(b.c)| > 1 then Visited(b.c)[1] else NoStage
    ensures b.stageUtil == if Bound(b.c) != [] then Bound(b.c)[0].util else 0
  {
    var c := b.c;
    b.gain := GainOf(c);
    var bind := BindingStages(c.job.stages);
    if bind == [] && c.job.primary == NoStage {
      b.severity := Fine;
      b.headline := "hl.balanced";
      b.SetCause(true, Balanced);
      b.Add(Info, NoStage, ActBalanced);
    } else if bind == [] {
      JudgeDominant(b);
    } else {
      JudgeBinding(b, bind);
    }
  }

  /** The stage that dominates the runs, at an unknown level. */
  method JudgeDominant(b: VBuild)
    requires b.acts == [] && b.Said() == SILENT
    modifies b`stage, b`severity, b`headline, b`acts, b`causeKnown, b`causeCode, b`causeLocked
    ensures b.stage == b.c.job.primary && b.headline == "hl.boundnopct"
    ensures b.acts == ActsOfAll([b.stage], b.c, b.gain)
    ensures b.Said() == HearAll(SILENT, CausesOfAll([b.stage], b.c))
    ensures b.severity == SeverityAfter(Warn, [b.stage], b.c)
  {
    b.stage := b.c.job.primary;
    b.severity := Warn;
    b.headline := "hl.boundnopct";
    AllOfOne(b.stage, b.c, b.gain);
    b.StageRules(b.stage);
  }

  /** All stages that bind, the busiest first. */
  method JudgeBinding(b: VBuild, bind: seq<StageInfo>)
    requires b.acts == [] && b.Said() == SILENT && bind != [] && b.stage2 == NoStage
    modifies b`stage, b`stage2, b`stageUtil, b`severity, b`headline, b`acts, b`causeKnown, b`causeCode, b`causeLocked
    ensures b.stage == bind[0].name && b.stageUtil == bind[0].util
    ensures b.stage2 == if |bind| > 1 then bind[1].name else NoStage
    ensures b.headline == if |bind| > 1 then "hl.bound2" else "hl.bound"
    ensures b.acts == ActsOfAll(Names(bind), b.c, b.gain)
    ensures b.Said() == HearAll(SILENT, CausesOfAll(Names(bind), b.c))
    ensures b.severity == SeverityAfter(if bind[0].util >= 95 then Critical else Warn, Names(bind), b.c)
  {
    b.stage, b.stageUtil := bind[0].name, bind[0].util;
    b.severity := if bind[0].util >= 95 then Critical else Warn;
    if |bind| > 1 {
      b.stage2 := bind[1].name;
      b.headline := "hl.bound2";
    } else {
      b.headline := "hl.bound";
    }
    VisitAll(b, bind);
  }

  method VisitAll(b: VBuild, bind: seq<StageInfo>)
    requires b.acts == [] && b.Said() == SILENT
    modifies b`acts, b`causeKnown, b`causeCode, b`causeLocked, b`severity
    ensures b.acts == ActsOfAll(Names(bind), b.c, b.gain)
    ensures b.Said() == HearAll(SILENT, CausesOfAll(Names(bind), b.c))
    ensures b.severity == SeverityAfter(old(b.severity), Names(bind), b.c)
  {
    ghost var sts := Names(bind);
    for i := 0 to |bind|
      invariant b.acts == ActsOfAll(sts[..i], b.c, b.gain)
      invariant b.Said() == HearAll(SILENT, CausesOfAll(sts[..i], b.c))
      invariant b.severity == SeverityAfter(old(b.severity), sts[..i], b.c)
    {
      assert sts[..i + 1][..i] == sts[..i];
      HearConcat(SILENT, CausesOfAll(sts[..i], b.c), CausesOf(sts[i], b.c));
      GradeOnce(b.severity, sts[i], b.c);
      b.StageRules(bind[i].name);
    }
    assert sts[..|bind|] == sts;
  }

  lemma GradeOnce(base: Severity, st: Stage, c: Case)
    ensures SeverityAfter(base, [st], c) == var g := GradeOf(st, c); if g.Some? then g.value else base
  {
    assert [st][..0] == [];
    assert SeverityAfter(base, [], c) == base;
  }

  lemma AllOfOne(st: Stage, c: Case, gain: Option<int>)
    ensures CausesOfAll([st], c) == CausesOf(st, c)
    ensures ActsOfAll([st], c, gain) == StageActs(st, c, gain)
  {
    assert [st][..0] == [];
    assert CausesOfAll([], c) == [] && ActsOfAll([], c, gain) == [];
  }

  // --- the cause ---------------------------------------------------------------------------

  /** Stage `i` is the first of the list whose ceiling was measured. */
  predicate FirstMeasured(sts: seq<Stage>, c: Case, i: nat)
    requires i < |sts|
  {
    MeasuredCause(sts[i], c).Some? && forall j :: 0 <= j < i ==> MeasuredCause(sts[j], c) == None
  }

  predicate NoneMeasured(sts: seq<Stage>, c: Case) {
    forall i :: 0 <= i < |sts| ==> MeasuredCause(sts[i], c) == None
  }

  predicate FromMeasurement(cause: Cause) {
    cause in {StarvedTarget, PartialTarget, MaxedTarget, StarvedNet, MaxedNet}
  }

  lemma {:induction false} LockedStays(f: Diagnosis, es: seq<Said>)
    requires f.locked
    ensures HearAll(f, es) == f
  {
    if es != [] { LockedStays(f, es[..|es| - 1]); }
  }

  lemma SlotCausesNeverLock(f: Diagnosis, kind: Kind, c: Case)
    requires !f.locked
    ensures var g := HearAll(f, SlotCauses(kind, c)); !g.locked && (g == f || g == Diagnosis(true, Slots, false))
  {
    if SlotCauses(kind, c) == [States(true, Slots)] {
      HearOne(f, States(true, Slots));
    } else {
      assert SlotCauses(kind, c) == [];
    }
  }

  lemma OneTarget(f: Diagnosis, c: Case)
    requires !f.locked
    ensures var g := HearAll(f, CausesOf(Target, c)); var m := MeasuredCause(Target, c);
      && (m.Some? ==> g == Diagnosis(true, m.value, true))
      && (m == None ==> !g.locked && g.known && (FromMeasurement(g.cause) ==> g.cause == f.cause))
  {
    HearConcat(f, [Guesses(RepoWrite)], TargetCauses(c));
    HearOne(f, Guesses(RepoWrite));
    var h := Hear(f, Guesses(RepoWrite));
    if TargetMeasured(c) {
      TargetCausesHeard(h, c);
      LockedStays(Hear(h, Measures(MeasuredCause(Target, c).value)), TargetCauses(c)[1..]);
    } else {
      SlotCausesNeverLock(h, Repository, c);
    }
  }

  /** What one stage makes of an open diagnosis. */
  lemma OneStage(f: Diagnosis, st: Stage, c: Case)
    requires !f.locked
    ensures var g := HearAll(f, CausesOf(st, c)); var m := MeasuredCause(st, c);
      && (m.Some? ==> g == Diagnosis(true, m.value, true))
      && (m == None ==> !g.locked && (FromMeasurement(g.cause) ==> g.cause == f.cause))
      && (m == None && st in STAGES ==> (g.known <==> st != Source || c.deep.Some?))
      && (m == None && st !in STAGES ==> g == f)
  {
    match st
    case Source =>
      HearOne(f, SourceCause(c));
    case Proxy =>
      HearConcat(f, [Guesses(ProxyProc)], SlotCauses(ProxyHost, c));
      HearOne(f, Guesses(ProxyProc));
      SlotCausesNeverLock(Hear(f, Guesses(ProxyProc)), ProxyHost, c);
    case Network =>
      HearOne(f, NetworkCauses(c)[0]);
    case Target =>
      OneTarget(f, c);
    case Other(_) =>
    case NoStage =>
  }

  lemma {:induction false} WithoutMeasurement(sts: seq<Stage>, c: Case)
    requires NoneMeasured(sts, c)
    ensures var f := HearAll(SILENT, CausesOfAll(sts, c)); !f.locked && !FromMeasurement(f.cause)
  {
    if sts != [] {
      var init, last := sts[..|sts| - 1], sts[|sts| - 1];
      assert forall i :: 0 <= i < |init| ==> init[i] == sts[i];
      WithoutMeasurement(init, c);
      HearConcat(SILENT, CausesOfAll(init, c), CausesOf(last, c));
      OneStage(HearAll(SILENT, CausesOfAll(init, c)), last, c);
    }
  }

  lemma {:induction false} MeasurementDecides(sts: seq<Stage>, c: Case, i: nat)
    requires i < |sts| && FirstMeasured(sts, c, i)
    ensures HearAll(SILENT, CausesOfAll(sts, c)) == Diagnosis(true, MeasuredCause(sts[i], c).value, true)
  {
    var init, last := sts[..|sts| - 1], sts[|sts| - 1];
    var f := HearAll(SILENT, CausesOfAll(init, c));
    assert forall j :: 0 <= j < |init| ==> init[j] == sts[j];
    HearConcat(SILENT, CausesOfAll(init, c), CausesOf(last, c));
    if i == |sts| - 1 {
      WithoutMeasurement(init, c);
      OneStage(f, last, c);
    } else {
      MeasurementDecides(init, c, i);
      LockedStays(f, CausesOf(last, c));
    }
  }

  /** The first measured stage, which exists when not all are unmeasured. */
  function FirstOne(sts: seq<Stage>, c: Case): (i: nat)
    requires !NoneMeasured(sts, c)
    ensures i < |sts| && FirstMeasured(sts, c, i)
  {
    if MeasuredCause(sts[0], c).Some? then 0
    else
      assert sts == [sts[0]] + sts[1..];
      FirstOne(sts[1..], c) + 1
  }

  /**
    The cause of a finished verdict is the one measured on the busiest stage that was measured,
    whatever the other stages say before or after it.
   */
  lemma FirstMeasurementIsTheCause(c: Case, i: nat)
    requires i < |Visited(c)| && FirstMeasured(Visited(c), c, i)
    ensures DiagnosisOf(c) == Diagnosis(true, MeasuredCause(Visited(c)[i], c).value, true)
  {
    MeasurementDecides(Visited(c), c, i);
  }

  lemma NoMeasurementNoMeasuredCause(c: Case)
    ensures DiagnosisOf(c).locked || FromMeasurement(DiagnosisOf(c).cause) ==> !NoneMeasured(Visited(c), c)
  {
    if NoneMeasured(Visited(c), c) { WithoutMeasurement(Visited(c), c); }
  }

  lemma {:induction false} KnownUnlessSourceSpokeLast(sts: seq<Stage>, c: Case)
    requires sts != [] && forall st :: st in sts ==> st in STAGES
    requires NoneMeasured(sts, c)
    ensures HearAll(SILENT, CausesOfAll(sts, c)).known <==> sts[|sts| - 1] != Source || c.deep.Some?
  {
    var init, last := sts[..|sts| - 1], sts[|sts| - 1];
    assert forall i :: 0 <= i < |init| ==> init[i] == sts[i];
    WithoutMeasurement(init, c);
    HearConcat(SILENT, CausesOfAll(init, c), CausesOf(last, c));
    OneStage(HearAll(SILENT, CausesOfAll(init, c)), last, c);
  }

  /**
    The cause stays open in just these cases: too little data, or no measurement and the last
    stage visited is the source without its logs, or a dominant stage no rule knows.
   */
  lemma CauseIsOpenIff(c: Case)
    requires forall s :: s in c.job.stages ==> s.name in STAGES
    ensures var v := Visited(c);
      !DiagnosisOf(c).known <==>
        || c.job.confidence == Insufficient
        || (v != [] && NoneMeasured(v, c) && (v[|v| - 1] !in STAGES || (v[|v| - 1] == Source && c.deep == None)))
  {
    var v := Visited(c);
    if v != [] && NoneMeasured(v, c) {
      if Bound(c) != [] {
        assert forall i :: 0 <= i < |v| ==> Bound(c)[i] in Bound(c) && v[i] == Bound(c)[i].name;
        KnownUnlessSourceSpokeLast(v, c);
      } else {
        AllOfOne(c.job.primary, c, None);
        OneStage(SILENT, c.job.primary, c);
      }
    } else if v != [] {
      var i := FirstOne(v, c);
      MeasurementDecides(v, c, i);
    }
  }

  // --- the severity ------------------------------------------------------------------------

  /** The severity the last graded measurement of the list sets. */
  function LastGrade(sts: seq<Stage>, c: Case): (g: Option<Severity>)
    ensures g == None <==> forall i :: 0 <= i < |sts| ==> GradeOf(sts[i], c) == None
    ensures g.Some? ==> exists i :: LastGraded(sts, c, i) && GradeOf(sts[i], c) == g
  {
    if sts == [] then None
    else
      var init, last := sts[..|sts| - 1], sts[|sts| - 1];
      assert forall i :: 0 <= i < |init| ==> init[i] == sts[i];
      if GradeOf(last, c).Some? then
        assert LastGraded(sts, c, |sts| - 1);
        GradeOf(last, c)
      else
        EarlierGradeStands(sts, c);
        LastGrade(init, c)
  }

  /** Stage `i` is the last of the list whose measurement sets a severity. */
  predicate LastGraded(sts: seq<Stage>, c: Case, i: int) {
    && 0 <= i < |sts|
    && GradeOf(sts[i], c).Some? && forall j :: i < j < |sts| ==> GradeOf(sts[j], c) == None
  }

  lemma EarlierGradeStands(sts: seq<Stage>, c: Case)
    requires sts != [] && GradeOf(sts[|sts| - 1], c) == None
    ensures forall i :: LastGraded(sts[..|sts| - 1], c, i) ==> LastGraded(sts, c, i)
  {
  }

  lemma {:induction false} SeverityIsTheLastGrade(base: Severity, sts: seq<Stage>, c: Case)
    ensures SeverityAfter(base, sts, c) == if LastGrade(sts, c).Some? then LastGrade(sts, c).value else base
  {
    if sts != [] { SeverityIsTheLastGrade(base, sts[..|sts| - 1], c); }
  }

  /** The severity of a verdict before any measurement. */
  function Unmeasured(c: Case): Severity {
    if c.job.confidence == Insufficient then Unknown
    else if Visited(c) == [] then Fine
    else BaseSeverity(c)
  }

  /** The severity that goes with the cause: the one its measurement sets, or that of the load alone. */
  function Fitting(c: Case): Severity {
    var g := Grade(DiagnosisOf(c).cause);
    if g.Some? then g.value else Unmeasured(c)
  }

  lemma {:induction false} SaturatedNamesDiffer(stages: seq<StageInfo>)
    requires NamesDiffer(stages)
    ensures NamesDiffer(Saturated(stages))
  {
    if stages != [] {
      var init, last := stages[..|stages| - 1], stages[|stages| - 1];
      assert forall i :: 0 <= i < |init| ==> init[i] == stages[i];
      SaturatedNamesDiffer(init);
      forall s | s in Saturated(init) ensures s.name != last.name {
        var i :| 0 <= i < |init| && init[i] == s;
        assert stages[i].name != stages[|stages| - 1].name;
      }
    }
  }

  /** No stage is visited twice. */
  lemma VisitedOnce(c: Case)
    requires NamesDiffer(c.job.stages)
    ensures Distinct(Visited(c))
  {
    var sat, out := Saturated(c.job.stages), Bound(c);
    SaturatedNamesDiffer(c.job.stages);
    SortingKeepsDistinct(out, sat, ByUtil);
    forall i, j | 0 <= i < j < |out| ensures out[i].name != out[j].name {
      assert out[i] in sat && out[j] in sat && out[i] != out[j];
      var a :| 0 <= a < |sat| && sat[a] == out[i];
      var b :| 0 <= b < |sat| && sat[b] == out[j];
    }
  }

  predicate Visits(c: Case, st: Stage) {
    st in Visited(c)
  }

  predicate VisitsBefore(c: Case, a: Stage, b: Stage) {
    exists i, j :: 0 <= i < j < |Visited(c)| && Visited(c)[i] == a && Visited(c)[j] == b
  }

  /** Both ceilings that can be measured were, and both stages are visited. */
  predicate BothCeilings(c: Case) {
    Visits(c, Target) && TargetMeasured(c) && Visits(c, Network) && NetworkMeasured(c)
  }

  /** The job fills less than 59.5% of the link; MB/s are eight times as many Mbit/s. */
  predicate LinkIsIdle(c: Case)
    requires c.measured.Some?
  {
    1600.0 * c.job.writeMBps < 119.0 * c.measured.value.linkMbps
  }

  /** The job writes less than 59.5% of what the repository takes; 79.5% or more. */
  predicate DiskIsIdle(c: Case)
    requires c.measured.Some?
  {
    200.0 * c.job.writeMBps < 119.0 * c.measured.value.repoMBps
  }

  predicate DiskIsFull(c: Case)
    requires c.measured.Some?
  {
    200.0 * c.job.writeMBps >= 159.0 * c.measured.value.repoMBps
  }

  lemma GradesInRates(c: Case)
    ensures NetworkMeasured(c) ==> GradeOf(Network, c) == Some(if LinkIsIdle(c) then Warn else Critical)
    ensures TargetMeasured(c) ==>
      GradeOf(Target, c) == if DiskIsIdle(c) then Some(Warn) else if DiskIsFull(c) then Some(Critical) else None
  {
    if NetworkMeasured(c) { LinkThreshold(c); }
    if TargetMeasured(c) { MeasuredTargetThresholds(c); }
  }

  /** What one measured stage alone says: cause and severity belong together. */
  lemma OneCeiling(c: Case, i: nat)
    requires i < |Visited(c)| && MeasuredCause(Visited(c)[i], c).Some?
    requires forall j :: 0 <= j < |Visited(c)| && j != i ==> MeasuredCause(Visited(c)[j], c) == None
    ensures SeverityOf(c) == Fitting(c)
  {
    FirstMeasurementIsTheCause(c, i);
    SeverityIsTheLastGrade(BaseSeverity(c), Visited(c), c);
    var last := LastGrade(Visited(c), c);
    if last.Some? {
      var k :| LastGraded(Visited(c), c, k) && GradeOf(Visited(c)[k], c) == last;
      assert k == i;
    }
  }

  lemma NoCeiling(c: Case)
    requires NoneMeasured(Visited(c), c)
    ensures SeverityOf(c) == Fitting(c)
  {
    NoMeasurementNoMeasuredCause(c);
    SeverityIsTheLastGrade(BaseSeverity(c), Visited(c), c);
  }

  /** Two measured stages: the first gives the cause, the second the severity unless it sets none. */
  lemma TwoCeilings(c: Case, i: nat, k: nat)
    requires i < k < |Visited(c)|
    requires MeasuredCause(Visited(c)[i], c).Some? && MeasuredCause(Visited(c)[k], c).Some?
    requires forall j :: 0 <= j < |Visited(c)| && j != i && j != k ==> MeasuredCause(Visited(c)[j], c) == None
    ensures var first, second := GradeOf(Visited(c)[i], c), GradeOf(Visited(c)[k], c);
      && Fitting(c) == (if first.Some? then first.value else BaseSeverity(c))
      && SeverityOf(c) == (if second.Some? then second.value else Fitting(c))
  {
    FirstMeasurementIsTheCause(c, i);
    SeverityIsTheLastGrade(BaseSeverity(c), Visited(c), c);
    var last := LastGrade(Visited(c), c);
    if last.Some? {
      var j :| LastGraded(Visited(c), c, j) && GradeOf(Visited(c)[j], c) == last;
      assert j == i || j == k;
    }
  }

  lemma BothCeilingsFitIff(c: Case, t: nat, n: nat)
    requires BothCeilings(c) && Distinct(Visited(c))
    requires t < |Visited(c)| && Visited(c)[t] == Target && n < |Visited(c)| && Visited(c)[n] == Network
    ensures SeverityOf(c) == Fitting(c) <==>
      && (DiskIsIdle(c) ==> LinkIsIdle(c))
      && (DiskIsFull(c) ==> !LinkIsIdle(c))
      && (t < n && !DiskIsIdle(c) && !DiskIsFull(c) ==> (LinkIsIdle(c) <==> BaseSeverity(c) == Warn))
  {
    GradesInRates(c);
    if t < n { TwoCeilings(c, t, n); } else { TwoCeilings(c, n, t); }
  }

  lemma AtMostOneCeilingFits(c: Case)
    requires !BothCeilings(c) && Distinct(Visited(c))
    ensures SeverityOf(c) == Fitting(c)
  {
    var v := Visited(c);
    if NoneMeasured(v, c) {
      NoCeiling(c);
    } else {
      var i := FirstOne(v, c);
      forall j | 0 <= j < |v| && j != i ensures MeasuredCause(v[j], c) == None {
        assert v[j] != v[i];
      }
      OneCeiling(c, i);
    }
  }

  /**
    While the cause comes from the first stage measured, the severity comes from the last one
    that sets any.  They fit unless both ceilings were measured and one of these holds: the
    disk is idle and the link is not, the disk is full and the link is idle, or the disk, first
    visited, is neither and the link says otherwise than the load.
   */
  lemma SeverityFitsTheCauseIff(c: Case)
    requires NamesDiffer(c.job.stages)
    ensures SeverityOf(c) == Fitting(c) <==>
      !BothCeilings(c)
      || (&& (DiskIsIdle(c) ==> LinkIsIdle(c))
          && (DiskIsFull(c) ==> !LinkIsIdle(c))
          && (VisitsBefore(c, Target, Network) && !DiskIsIdle(c) && !DiskIsFull(c) ==>
                (LinkIsIdle(c) <==> BaseSeverity(c) == Warn)))
  {
    VisitedOnce(c);
    if BothCeilings(c) {
      var t :| 0 <= t < |Visited(c)| && Visited(c)[t] == Target;
      var n :| 0 <= n < |Visited(c)| && Visited(c)[n] == Network;
      assert VisitsBefore(c, Target, Network) <==> t < n;
      BothCeilingsFitIff(c, t, n);
    } else {
      AtMostOneCeilingFits(c);
    }
  }

  const NETWORK_AND_TARGET := [StageInfo(Network, 96, true), StageInfo(Target, 98, true)]

  // It writes 100 MB/s to a disk that was measured at 100 MB/s, over a link of 10 Gbit/s.
  const MAXED_BEHIND_AN_IDLE_LINK := Case(
    Job(Observed, NETWORK_AND_TARGET, Target, 100.0, 0.0, [], None), None, Some(Measured(100.0, 10000.0)))

  lemma BothMeasured()
    ensures MeasuredCause(Target, MAXED_BEHIND_AN_IDLE_LINK) == Some(MaxedTarget)
    ensures MeasuredCause(Network, MAXED_BEHIND_AN_IDLE_LINK) == Some(StarvedNet)
  {
    assert Used(100.0, 100.0) == 100 && Used(800.0, 10000.0) == 8;
  }

  /** A job at the ceiling of its repository is only a warning when its link is idle. */
  lemma AMaxedTargetMayOnlyWarn()
    ensures DiagnosisOf(MAXED_BEHIND_AN_IDLE_LINK).cause == MaxedTarget
    ensures SeverityOf(MAXED_BEHIND_AN_IDLE_LINK) == Warn && Fitting(MAXED_BEHIND_AN_IDLE_LINK) == Critical
  {
    BothMeasured();
    BusiestOfTwo(MAXED_BEHIND_AN_IDLE_LINK, StageInfo(Network, 96, true), StageInfo(Target, 98, true));
    MaxedThenStarved(MAXED_BEHIND_AN_IDLE_LINK);
  }

  lemma MaxedThenStarved(c: Case)
    requires c.job.confidence != Insufficient && Names(Bound(c)) == [Target, Network]
    requires MeasuredCause(Target, c) == Some(MaxedTarget) && MeasuredCause(Network, c) == Some(StarvedNet)
    ensures DiagnosisOf(c).cause == MaxedTarget && SeverityOf(c) == Warn && Fitting(c) == Critical
  {
    assert Visited(c) == [Target, Network];
    FirstMeasurementIsTheCause(c, 0);
    assert LastGrade(Visited(c), c) == Some(Warn);
    SeverityIsTheLastGrade(BaseSeverity(c), Visited(c), c);
  }

  lemma BusiestOfTwo(c: Case, a: StageInfo, b: StageInfo)
    requires c.job.stages == [a, b] && Saturates(a) && Saturates(b) && a.util < b.util
    ensures Bound(c) == [b, a] && Names(Bound(c)) == [b.name, a.name]
  {
    assert [a, b][..1] == [a] && [a][..0] == [];
    assert Saturated([a]) == Saturated([]) + [a];
    assert Saturated([a, b]) == [a, b];
    assert [a, b][1..] == [b] && [b][1..] == [];
    assert StableSort([b], ByUtil) == Insert(b, [], ByUtil) == [b];
    assert Insert(a, [b], ByUtil) == [b] + Insert(a, [], ByUtil) == [b, a];
  }

  // --- the actions -------------------------------------------------------------------------

  predicate Credible(a: Action, gain: Option<int>) {
    a.gain.Some? ==> a.impact == High && a.gain == gain && 1 <= a.gain.value <= MAX_CREDIBLE_GAIN
  }

  predicate AllCredible(acts: seq<Action>, gain: Option<int>) {
    forall a :: a in acts ==> Credible(a, gain)
  }

  lemma SlotsAreCredible(kind: Kind, st: Stage, c: Case, gain: Option<int>)
    requires gain.Some? ==> 1 <= gain.value <= MAX_CREDIBLE_GAIN
    ensures AllCredible(SlotActs(kind, st, c, gain), gain)
  {
  }

  lemma StageIsCredible(st: Stage, c: Case, gain: Option<int>)
    requires gain.Some? ==> 1 <= gain.value <= MAX_CREDIBLE_GAIN
    ensures AllCredible(StageActs(st, c, gain), gain)
  {
    SlotsAreCredible(ProxyHost, Proxy, c, gain);
    SlotsAreCredible(Repository, Target, c, gain);
    if st == Target {
      assert AllCredible(MeasuredTargetActs(c, gain), gain);
      assert AllCredible(CompressionActs(c), gain);
    } else if st == Source {
      assert AllCredible(SkewActs(c), gain);
    }
  }

  lemma {:induction false} RulesAreCredible(sts: seq<Stage>, c: Case)
    ensures AllCredible(ActsOfAll(sts, c, GainOf(c)), GainOf(c))
  {
    if sts != [] {
      RulesAreCredible(sts[..|sts| - 1], c);
      StageIsCredible(sts[|sts| - 1], c, GainOf(c));
    }
  }

  lemma {:induction false} SpaceHasNoGain(rs: seq<Resource>)
    ensures forall a :: a in SpaceActs(rs) ==> a.gain == None
  {
    if rs != [] { SpaceHasNoGain(rs[..|rs| - 1]); }
  }

  lemma CrossIsCredible(c: Case, st: Stage, gain: Option<int>)
    ensures AllCredible(CrossActs(c, st), gain)
  {
    SpaceHasNoGain(c.job.resources);
  }

  lemma RankingKeepsCredibility(acts: seq<Action>, gain: Option<int>)
    requires AllCredible(acts, gain)
    ensures AllCredible(Ranked(acts), gain)
  {
    var sorted := StableSort(acts, ByImpact);
    forall a | a in Ranked(acts) ensures Credible(a, gain) {
      var i :| 0 <= i < |Ranked(acts)| && Ranked(acts)[i] == a;
      assert sorted[i] in acts;
    }
  }

  /**
    Every action that carries a gain has high impact and carries exactly the verdict's gain,
    between 1 and 75 percent.
   */
  lemma GainsAreCredible(c: Case)
    ensures AllCredible(Ranked(RuleActs(c)), GainOf(c))
  {
    RulesAreCredible(Visited(c), c);
    CrossIsCredible(c, if Visited(c) == [] then NoStage else Visited(c)[0], GainOf(c));
    RankingKeepsCredibility(RuleActs(c), GainOf(c));
  }

  /** The actions come out as a stable permutation by impact, numbered from 1. */
  lemma ActionsAreRanked(c: Case)
    ensures StableSortOf(Bares(Ranked(RuleActs(c))), Bares(RuleActs(c)), ByImpact)
    ensures multiset(Bares(Ranked(RuleActs(c)))) == multiset(Bares(RuleActs(c)))
    ensures forall i :: 0 <= i < |Ranked(RuleActs(c))| ==> Ranked(RuleActs(c))[i].rank == i + 1
  {
    RankingIsAStablePermutation(RuleActs(c));
  }
}
