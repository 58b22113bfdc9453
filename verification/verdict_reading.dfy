/**
  How a finished verdict is to be read: the order of its actions and stages, its cause, its
  severity and its headline, told from stages, rates and logs.
 */
module VerdictReading {
  import opened Wrappers
  import opened Sorting
  import opened Actions
  import opened Capacity
  import opened VerdictRules
  import opened VerdictTheorems
  import opened VerdictAdvice

  // --- the stages ---------------------------------------------------------------------------

  /** The positions of the stages that saturate. */
  function StopsAt(stages: seq<StageInfo>): set<int> {
    set i | 0 <= i < |stages| && stages[i].binding && stages[i].util > 0
  }

  /** Those stages, the busiest first, and stages as busy as each other in the order listed. */
  ghost predicate ByLoad(stages: seq<StageInfo>, out: seq<StageInfo>) {
    && |out| == |StopsAt(stages)|
    && (forall s :: s in out <==> s in stages && s.binding && s.util > 0)
    && forall i, j :: 0 <= i < j < |out| ==>
      out[i].util > out[j].util || (out[i].util == out[j].util && InThisOrder(stages, out[i], out[j]))
  }

  /** Which stages are visited: those that saturate, or else the dominant one. */
  ghost predicate VisitedReads(c: Case, v: seq<Stage>) {
    if c.job.confidence == Insufficient then v == []
    else if StopsAt(c.job.stages) == {} then v == if c.job.primary == NoStage then [] else [c.job.primary]
    else exists out: seq<StageInfo> ::
      ByLoad(c.job.stages, out) && |v| == |out| && forall i :: 0 <= i < |v| ==> v[i] == out[i].name
  }

  lemma OneMoreStop(stages: seq<StageInfo>)
    requires stages != []
    ensures var n := |stages| - 1;
      StopsAt(stages) == StopsAt(stages[..n]) + if stages[n].binding && stages[n].util > 0 then {n} else {}
  {}

  lemma {:induction false} SaturatedAre(stages: seq<StageInfo>)
    ensures |Saturated(stages)| == |StopsAt(stages)|
  {
    if stages == [] {
      assert StopsAt(stages) == {};
    } else {
      SaturatedAre(stages[..|stages| - 1]);
      OneMoreStop(stages);
    }
  }

  lemma {:induction false} SaturatedKeepsOrder(stages: seq<StageInfo>, p: nat, q: nat)
    requires p < q < |Saturated(stages)|
    ensures InThisOrder(stages, Saturated(stages)[p], Saturated(stages)[q])
  {
    var init, last := stages[..|stages| - 1], stages[|stages| - 1];
    assert stages == init + [last];
    if q < |Saturated(init)| {
      SaturatedKeepsOrder(init, p, q);
      var a, b :| 0 <= a < b < |init| && init[a] == Saturated(stages)[p] && init[b] == Saturated(stages)[q];
      assert stages[a] == init[a] && stages[b] == init[b];
    } else {
      var x := Saturated(stages)[p];
      assert x in Saturated(init) && x in init;
      var a :| 0 <= a < |init| && init[a] == x;
      assert stages[a] == x && stages[|init|] == last;
    }
  }

  lemma BoundIsByLoad(c: Case)
    ensures ByLoad(c.job.stages, Bound(c))
  {
    var sat, out := Saturated(c.job.stages), Bound(c);
    SaturatedAre(c.job.stages);
    forall i, j | 0 <= i < j < |out|
      ensures out[i].util > out[j].util || (out[i].util == out[j].util && InThisOrder(c.job.stages, out[i], out[j]))
    {
      assert !Before(ByUtil(out[j]), ByUtil(out[i]));
      if out[i].util == out[j].util {
        SortingIsStable(out, sat, ByUtil, i, j);
        var p, q :| 0 <= p < q < |sat| && sat[p] == out[i] && sat[q] == out[j];
        SaturatedKeepsOrder(c.job.stages, p, q);
      }
    }
  }

  /** The stages of the verdict. */
  lemma StagesReadAs(c: Case)
    ensures VisitedReads(c, Visited(c))
  {
    BoundIsByLoad(c);
    assert |Bound(c)| == |StopsAt(c.job.stages)|;
  }

  // --- the order of the actions ---------------------------------------------------------------

  /** From the most urgent to mere information. */
  predicate NoLessUrgent(a: Impact, b: Impact) {
    match a
    case High => true
    case Hygiene => b != High
    case Medium => b == Medium || b == Verify || b == Info
    case Verify => b == Verify || b == Info
    case Info => b == Info
  }

  /** Advice about a visited stage itself, not about space or missing logs. */
  predicate AboutItsStage(a: Action) {
    a.stage in STAGES && a.code != ActRepoFree && a.code != ActDeep
  }

  /** Numbered from 1 by urgency; of equal urgency, what is about a busier stage comes first. */
  ghost predicate WellOrdered(c: Case, acts: seq<Action>) {
    && (forall i :: 0 <= i < |acts| ==> acts[i].rank == i + 1)
    && forall i, j :: 0 <= i < j < |acts| ==>
      && NoLessUrgent(acts[i].impact, acts[j].impact)
      && (acts[i].impact == acts[j].impact && AboutItsStage(acts[i]) && AboutItsStage(acts[j]) ==>
            acts[i].stage == acts[j].stage || VisitsBefore(c, acts[i].stage, acts[j].stage))
  }

  lemma StageActsAreItsOwn(st: Stage, c: Case, gain: Option<int>, a: Action)
    requires a in StageActs(st, c, gain) && a.stage != NoStage
    ensures a.stage == st
  {
    if st == Source { assert forall b :: b in SkewActs(c) ==> b.stage == NoStage; }
    if st == Target { TargetActsAreItsOwn(c, gain, a); }
  }

  lemma TargetActsAreItsOwn(c: Case, gain: Option<int>, a: Action)
    requires a in TargetActs(c, gain)
    ensures a.stage == Target
  {
    assert forall b :: b in SlotActs(Repository, Target, c, gain) ==> b.stage == Target;
    assert forall b :: b in CompressionActs(c) ==> b.stage == Target;
  }

  predicate InTurn(sts: seq<Stage>, a: Stage, b: Stage) {
    a == b || InThisOrder(sts, a, b)
  }

  lemma {:induction false} ActsInTurn(sts: seq<Stage>, c: Case, gain: Option<int>, p: nat, q: nat)
    requires p < q < |ActsOfAll(sts, c, gain)|
    requires ActsOfAll(sts, c, gain)[p].stage != NoStage && ActsOfAll(sts, c, gain)[q].stage != NoStage
    ensures InTurn(sts, ActsOfAll(sts, c, gain)[p].stage, ActsOfAll(sts, c, gain)[q].stage)
  {
    var init, last := sts[..|sts| - 1], sts[|sts| - 1];
    var before, all := ActsOfAll(init, c, gain), ActsOfAll(sts, c, gain);
    assert sts == init + [last] && all == before + StageActs(last, c, gain);
    if q < |before| {
      ActsInTurn(init, c, gain, p, q);
      if before[p].stage != before[q].stage {
        var i, j :| 0 <= i < j < |init| && init[i] == before[p].stage && init[j] == before[q].stage;
        assert sts[i] == init[i] && sts[j] == init[j];
      }
    } else {
      assert all[q] in StageActs(last, c, gain);
      StageActsAreItsOwn(last, c, gain, all[q]);
      if p >= |before| {
        assert all[p] in StageActs(last, c, gain);
        StageActsAreItsOwn(last, c, gain, all[p]);
      } else {
        assert before[p] in before;
        SaidByAStage(init, c, gain, before[p]);
        var st :| st in init && Contributes(st, c, gain, before[p]);
        StageActsAreItsOwn(st, c, gain, before[p]);
        var i :| 0 <= i < |init| && init[i] == st;
        assert sts[i] == st && sts[|init|] == last;
      }
    }
  }

  lemma RulesInTurn(c: Case, p: nat, q: nat)
    requires p < q < |RuleActs(c)| && AboutItsStage(RuleActs(c)[p]) && AboutItsStage(RuleActs(c)[q])
    ensures InTurn(Visited(c), RuleActs(c)[p].stage, RuleActs(c)[q].stage)
  {
    var acts := RuleActs(c);
    if c.job.confidence != Insufficient {
      var cross := CrossActs(c, if Visited(c) == [] then NoStage else Visited(c)[0]);
      var judged := if Visited(c) == [] then [Finding(Info, ActBalanced)] else ActsOfAll(Visited(c), c, GainOf(c));
      assert acts == judged + cross;
      if q >= |judged| {
        CrossIs(c, acts[q]);
      } else if Visited(c) != [] {
        ActsInTurn(Visited(c), c, GainOf(c), p, q);
      }
    }
  }

  lemma RulesAreBare(c: Case)
    ensures Bares(RuleActs(c)) == RuleActs(c)
  {
    var acts := RuleActs(c);
    forall i | 0 <= i < |acts| ensures Bares(acts)[i] == acts[i] {
      assert acts[i] in acts;
      RulesSay(c, acts[i]);
    }
  }

  /** The order of the finished actions. */
  lemma ActionsAreWellOrdered(c: Case)
    ensures WellOrdered(c, Ranked(RuleActs(c)))
  {
    var acts, out := RuleActs(c), Ranked(RuleActs(c));
    RankingIsAStablePermutation(acts);
    RulesAreBare(c);
    forall i, j | 0 <= i < j < |out|
      ensures NoLessUrgent(out[i].impact, out[j].impact)
      ensures out[i].impact == out[j].impact && AboutItsStage(out[i]) && AboutItsStage(out[j]) ==>
        out[i].stage == out[j].stage || VisitsBefore(c, out[i].stage, out[j].stage)
    {
      assert !Before(ByImpact(Bares(out)[j]), ByImpact(Bares(out)[i]));
      if out[i].impact == out[j].impact && AboutItsStage(out[i]) && AboutItsStage(out[j]) {
        SortingIsStable(Bares(out), acts, ByImpact, i, j);
        var p, q :| 0 <= p < q < |acts| && acts[p] == Bare(out[i]) && acts[q] == Bare(out[j]);
        RulesInTurn(c, p, q);
      }
    }
  }

  // --- the cause ------------------------------------------------------------------------------

  predicate Rated(c: Case, st: Stage) {
    (st == Target && DiskRated(c)) || (st == Network && LinkRated(c))
  }

  predicate FirstRated(c: Case, v: seq<Stage>, i: int) {
    0 <= i < |v| && Rated(c, v[i]) && forall k :: 0 <= k < i ==> !Rated(c, v[k])
  }

  function MeasuredAs(c: Case, st: Stage): Cause {
    if st == Target then if DiskIdle(c) then StarvedTarget else if DiskFull(c) then MaxedTarget else PartialTarget
    else if LinkIdle(c) then StarvedNet else MaxedNet
  }

  /** The host carries three tasks and one more than it is set to. */
  predicate CanRaise(c: Case, kind: Kind) {
    exists r :: r in c.job.resources && IsHost(c, kind, r) && r.cores > 0 && Carries(r, 3) && Carries(r, r.slots + 1)
  }

  /** A stage that settles the cause, whatever was said before: the source, and a host with slots to raise. */
  predicate Settles(c: Case, st: Stage) {
    || st == Source || (st == Proxy && CanRaise(c, ProxyHost)) || (st == Target && CanRaise(c, Repository))
  }

  function SettledAs(c: Case, st: Stage): Diagnosis {
    if st != Source then Diagnosis(true, Slots, false)
    else if c.deep == None then Diagnosis(false, SrcUnknown, false)
    else if c.deep.value.transport == NotReported then Diagnosis(true, SrcStore, false)
    else if c.deep.value.transport == OtherMode then Diagnosis(true, TransportOK, false)
    else if c.deep.value.noted then Diagnosis(true, NbdHotadd, false)
    else Diagnosis(true, NbdOnly, false)
  }

  /** What is taken for the cause while nothing better is known. */
  function PresumedOf(st: Stage): Diagnosis {
    Diagnosis(true, if st == Proxy then ProxyProc else if st == Network then NetLink else RepoWrite, false)
  }

  /** `j` is the last stage that settles the cause, -1 for none; `k` is the first stage behind it, if any. */
  ghost predicate Marks(c: Case, v: seq<Stage>, j: int, k: int) {
    && -1 <= j < k <= |v|
    && (j >= 0 ==> Settles(c, v[j])) && (forall i :: j < i < |v| ==> !Settles(c, v[i]))
    && (k < |v| ==> v[k] in STAGES) && (forall i :: j < i < k ==> v[i] !in STAGES)
  }

  /** What settles it counts; a source without its logs leaves it to the next stage. */
  function MarkedCause(c: Case, v: seq<Stage>, j: int, k: int): (d: Diagnosis)
    requires -1 <= j < k <= |v|
    ensures !d.locked
  {
    var s := if j >= 0 then SettledAs(c, v[j]) else SILENT;
    if s.known || k == |v| then s else PresumedOf(v[k])
  }

  /** The cause of the verdict. */
  ghost predicate CauseReads(c: Case, d: Diagnosis) {
    var v := Visited(c);
    if c.job.confidence == Insufficient then d == Diagnosis(false, Noop, false)
    else if v == [] then d == Diagnosis(true, Balanced, false)
    else if exists i :: FirstRated(c, v, i)
    then exists i :: FirstRated(c, v, i) && d == Diagnosis(true, MeasuredAs(c, v[i]), true)
    else exists j, k :: Marks(c, v, j, k) && d == MarkedCause(c, v, j, k)
  }

  lemma RatedIff(c: Case, st: Stage)
    ensures MeasuredCause(st, c) == if Rated(c, st) then Some(MeasuredAs(c, st)) else None
  {
    CeilingsInRates(c);
  }

  lemma CanRaiseIff(c: Case, kind: Kind)
    ensures SlotCauses(kind, c) == if CanRaise(c, kind) then [States(true, Slots)] else []
  {
    var res := FirstOf(c.job.resources, kind);
    forall r ensures IsHost(c, kind, r) <==> res == Some(r) { HostIs(c, kind, r); }
    if res.Some? {
      HostIs(c, kind, res.value);
      ViableIsWhatItCarries(res.value, 3);
      ViableIsWhatItCarries(res.value, res.value.slots + 1);
    }
  }

  /** What an unmeasured stage makes of what was said so far. */
  lemma Hears(f: Diagnosis, st: Stage, c: Case)
    requires !f.locked && !Rated(c, st)
    ensures HearAll(f, CausesOf(st, c)) ==
      if Settles(c, st) then SettledAs(c, st) else if st in STAGES && !f.known then PresumedOf(st) else f
  {
    RatedIff(c, st);
    match st
    case Source => Verdict.HearOne(f, SourceCause(c));
    case Proxy => HearsSlots(f, ProxyProc, ProxyHost, c);
    case Network => Verdict.HearOne(f, NetworkCauses(c)[0]);
    case Target => HearsSlots(f, RepoWrite, Repository, c);
    case Other(_) =>
    case NoStage =>
  }

  lemma HearsSlots(f: Diagnosis, guess: Cause, kind: Kind, c: Case)
    requires !f.locked
    ensures HearAll(f, [Guesses(guess)] + SlotCauses(kind, c)) ==
      if CanRaise(c, kind) then Diagnosis(true, Slots, false)
      else if f.known then f else Diagnosis(true, guess, false)
  {
    CanRaiseIff(c, kind);
    HearConcat(f, [Guesses(guess)], SlotCauses(kind, c));
    Verdict.HearOne(f, Guesses(guess));
    if CanRaise(c, kind) { Verdict.HearOne(Hear(f, Guesses(guess)), States(true, Slots)); }
  }

  lemma MarksOneMore(v: seq<Stage>, c: Case, j: int, k: int) returns (jj: int, kk: int)
    requires v != [] && Marks(c, v[..|v| - 1], j, k)
    ensures Marks(c, v, jj, kk)
    ensures var last, f := v[|v| - 1], MarkedCause(c, v[..|v| - 1], j, k);
      MarkedCause(c, v, jj, kk) ==
        if Settles(c, last) then SettledAs(c, last) else if last in STAGES && !f.known then PresumedOf(last) else f
  {
    var n := |v| - 1;
    assert forall i :: 0 <= i < n ==> v[..n][i] == v[i];
    if Settles(c, v[n]) {
      jj, kk := n, n + 1;
    } else {
      jj, kk := j, if k == n && v[n] !in STAGES then n + 1 else k;
    }
  }

  lemma {:induction false} UnmeasuredCause(v: seq<Stage>, c: Case) returns (j: int, k: int)
    requires forall i :: 0 <= i < |v| ==> !Rated(c, v[i])
    ensures Marks(c, v, j, k) && HearAll(SILENT, CausesOfAll(v, c)) == MarkedCause(c, v, j, k)
  {
    j, k := -1, 0;
    if v != [] {
      var n := |v| - 1;
      var init, last := v[..n], v[n];
      j, k := UnmeasuredCause(init, c);
      HearConcat(SILENT, CausesOfAll(init, c), CausesOf(last, c));
      Hears(HearAll(SILENT, CausesOfAll(init, c)), last, c);
      j, k := MarksOneMore(v, c, j, k);
    }
  }

  /** The cause of every verdict. */
  lemma CauseReadsAs(c: Case)
    ensures CauseReads(c, DiagnosisOf(c))
  {
    var v := Visited(c);
    forall i | 0 <= i < |v| ensures MeasuredCause(v[i], c).Some? <==> Rated(c, v[i]) { RatedIff(c, v[i]); }
    if v != [] && NoneMeasured(v, c) {
      var j, k := UnmeasuredCause(v, c);
    } else if v != [] {
      var i := FirstOne(v, c);
      RatedIff(c, v[i]);
      FirstMeasurementIsTheCause(c, i);
      assert FirstRated(c, v, i);
    }
  }

  // --- severity and headline --------------------------------------------------------------------

  /** The measurement of the stage says how bad it is: the link always, the disk when it is idle or full. */
  predicate Tells(c: Case, st: Stage) {
    (st == Target && (DiskIdle(c) || DiskFull(c))) || (st == Network && LinkRated(c))
  }

  function ToldBy(c: Case, st: Stage): Severity {
    if (st == Target && DiskIdle(c)) || (st == Network && LinkIdle(c)) then Warn else Critical
  }

  predicate LastToTell(c: Case, v: seq<Stage>, i: int) {
    0 <= i < |v| && Tells(c, v[i]) && forall k :: i < k < |v| ==> !Tells(c, v[k])
  }

  /** The severity of the verdict. */
  ghost predicate SeverityReads(c: Case, s: Severity) {
    var v := Visited(c);
    if c.job.confidence == Insufficient then s == Unknown
    else if v == [] then s == Fine
    else if exists i :: LastToTell(c, v, i) then exists i :: LastToTell(c, v, i) && s == ToldBy(c, v[i])
    else s == if exists st :: st in c.job.stages && st.binding && st.util >= 95 then Critical else Warn
  }

  lemma TellsIff(c: Case, st: Stage)
    ensures GradeOf(st, c) == if Tells(c, st) then Some(ToldBy(c, st)) else None
  {
    RatedIff(c, st);
    CeilingsInRates(c);
  }

  lemma BaseReads(c: Case)
    ensures BaseSeverity(c) == if exists s :: s in c.job.stages && s.binding && s.util >= 95 then Critical else Warn
  {
    BoundIsByLoad(c);
    if Bound(c) != [] { assert Bound(c)[0] in Bound(c); }
    if s :| s in c.job.stages && s.binding && s.util >= 95 {
      assert s in Bound(c);
      var i :| 0 <= i < |Bound(c)| && Bound(c)[i] == s;
    }
  }

  /** The severity of every verdict. */
  lemma SeverityReadsAs(c: Case)
    ensures SeverityReads(c, SeverityOf(c))
  {
    var v := Visited(c);
    if v != [] {
      BaseReads(c);
      SeverityIsTheLastGrade(BaseSeverity(c), v, c);
      forall i | 0 <= i < |v| ensures GradeOf(v[i], c) == if Tells(c, v[i]) then Some(ToldBy(c, v[i])) else None {
        TellsIff(c, v[i]);
      }
      if LastGrade(v, c).Some? {
        var i :| LastGraded(v, c, i) && GradeOf(v[i], c) == LastGrade(v, c);
        assert LastToTell(c, v, i);
      }
    }
  }

  /** By how many stages saturate. */
  lemma HeadlineReadsAs(c: Case)
    ensures HeadlineOf(c) ==
      if c.job.confidence == Insufficient then "hl.nodata"
      else if |StopsAt(c.job.stages)| > 1 then "hl.bound2"
      else if |StopsAt(c.job.stages)| == 1 then "hl.bound"
      else if c.job.primary == NoStage then "hl.balanced"
      else "hl.boundnopct"
  {
    BoundIsByLoad(c);
  }
}
