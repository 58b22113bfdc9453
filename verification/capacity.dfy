/** The stages of a job, which of them bind, and the time to expect once they no longer do. */
module Capacity {
  import opened Wrappers
  import opened Quotients
  import opened Actions

  const BIND_THRESHOLD := 85
  const CO_LIMIT_SPREAD := 6

  const STAGES: seq<Stage> := [Source, Proxy, Network, Target]

  datatype StageInfo = StageInfo(name: Stage, util: int, binding: bool)

  /** The line that says how busy each stage was; stages it does not mention are absent. */
  datatype Load = Load(util: map<Stage, int>, primary: Stage)

  predicate HasPct(load: Load) {
    exists i :: 0 <= i < 4 && STAGES[i] in load.util
  }

  function UtilOf(load: Load, st: Stage): int {
    if st in load.util then load.util[st] else 0
  }

  /** Busy enough to saturate, and within the spread of every other stage. */
  predicate Binds(load: Load, st: Stage) {
    && UtilOf(load, st) >= BIND_THRESHOLD
    && forall i :: 0 <= i < 4 ==> UtilOf(load, st) >= UtilOf(load, STAGES[i]) - CO_LIMIT_SPREAD
  }

  /** `stages` says of each stage how busy it was and whether it binds. */
  predicate StagesOf(load: Load, stages: seq<StageInfo>) {
    && |stages| == 4
    && forall i :: 0 <= i < 4 ==> stages[i] == StageOf(load, STAGES[i])
  }

  /** Without utilisations only the dominant stage binds, at an unknown level. */
  predicate StageBinds(load: Load, st: Stage) {
    if HasPct(load) then Binds(load, st) else st == load.primary
  }

  function StageOf(load: Load, st: Stage): StageInfo {
    StageInfo(st, if HasPct(load) then UtilOf(load, st) else 0, StageBinds(load, st))
  }

  predicate NamesDiffer(stages: seq<StageInfo>) {
    forall i, j :: 0 <= i < j < |stages| ==> stages[i].name != stages[j].name
  }

  lemma EachStageIsListedOnce(load: Load, stages: seq<StageInfo>)
    requires StagesOf(load, stages)
    ensures NamesDiffer(stages)
  {
  }

  method BuildStages(load: Load) returns (out: seq<StageInfo>)
    ensures StagesOf(load, out)
  {
    var hasPct := false;
    for i := 0 to 4
      invariant hasPct <==> exists k :: 0 <= k < i && STAGES[k] in load.util
    {
      if STAGES[i] in load.util { hasPct := true; }
    }
    out := [];
    if !hasPct {
      for i := 0 to 4
        invariant |out| == i
        invariant forall k :: 0 <= k < i ==> out[k] == StageOf(load, STAGES[k])
      {
        out := out + [StageInfo(STAGES[i], 0, STAGES[i] == load.primary)];
      }
      return;
    }
    var max := 0;
    for i := 0 to 4
      invariant max >= 0 && forall k :: 0 <= k < i ==> UtilOf(load, STAGES[k]) <= max
      invariant max == 0 || exists k :: 0 <= k < i && UtilOf(load, STAGES[k]) == max
    {
      if UtilOf(load, STAGES[i]) > max { max := UtilOf(load, STAGES[i]); }
    }
    for i := 0 to 4
      invariant |out| == i
      invariant forall k :: 0 <= k < i ==> out[k] == StageOf(load, STAGES[k])
    {
      var u := UtilOf(load, STAGES[i]);
      out := out + [StageInfo(STAGES[i], u, u >= BIND_THRESHOLD && u >= max - CO_LIMIT_SPREAD)];
    }
  }

  datatype Projection = Projection(next: Stage, seconds: real, improvementPct: int)

  /** The largest utilisation among the stages that bind, or that do not; 0 when there is none above 0. */
  function Top(stages: seq<StageInfo>, binding: bool): (u: int)
    ensures u >= 0
    ensures forall s :: s in stages && s.binding == binding ==> s.util <= u
    ensures u > 0 ==> exists s :: s in stages && s.binding == binding && s.util == u
  {
    if stages == [] then 0
    else
      var init, last := stages[..|stages| - 1], stages[|stages| - 1];
      var u := Top(init, binding);
      assert stages == init + [last];
      if last.binding == binding && last.util > u then last.util else u
  }

  /** The first stage at that utilisation. */
  function Holder(stages: seq<StageInfo>, binding: bool): (name: Stage)
    ensures Top(stages, binding) > 0 ==>
      exists s :: s in stages && s.binding == binding && s.util == Top(stages, binding) && s.name == name
  {
    if stages == [] then NoStage
    else
      var init, last := stages[..|stages| - 1], stages[|stages| - 1];
      assert stages == init + [last];
      if last.binding == binding && last.util > Top(init, binding) then last.name else Holder(init, binding)
  }

  /** The time when the stage at `next` takes over from the one at `bind`. */
  function Projected(name: Stage, seconds: real, next: int, bind: int): (p: Projection)
    requires 0 < next < bind
    ensures p.next == name
  {
    Projection(name, seconds * (next as real / bind as real), 100 * (bind - next) / bind)
  }

  function ProjectionOf(stages: seq<StageInfo>, seconds: real, hasData: bool): Option<Projection> {
    var bind, next := Top(stages, true), Top(stages, false);
    if hasData && seconds > 0.0 && 0 < next < bind then Some(Projected(Holder(stages, false), seconds, next, bind))
    else None
  }

  method TopUtils(stages: seq<StageInfo>) returns (bindUtil: int, nextUtil: int, nextName: Stage)
    ensures bindUtil == Top(stages, true)
    ensures nextUtil == Top(stages, false) && nextName == Holder(stages, false)
  {
    bindUtil, nextUtil, nextName := 0, 0, NoStage;
    for i := 0 to |stages|
      invariant bindUtil == Top(stages[..i], true)
    {
      assert stages[..i + 1][..i] == stages[..i];
      if stages[i].binding && stages[i].util > bindUtil { bindUtil := stages[i].util; }
    }
    for i := 0 to |stages|
      invariant nextUtil == Top(stages[..i], false) && nextName == Holder(stages[..i], false)
    {
      assert stages[..i + 1][..i] == stages[..i];
      if !stages[i].binding && stages[i].util > nextUtil { nextUtil, nextName := stages[i].util, stages[i].name; }
    }
    assert stages[..|stages|] == stages;
  }

  method ProjectTime(stages: seq<StageInfo>, seconds: real, hasData: bool) returns (p: Option<Projection>)
    ensures p == ProjectionOf(stages, seconds, hasData)
  {
    if !hasData || seconds <= 0.0 {
      return None;
    }
    var bindUtil, nextUtil, nextName := TopUtils(stages);
    if bindUtil == 0 || nextUtil == 0 || nextUtil >= bindUtil {
      return None;
    }
    p := Some(Projected(nextName, seconds, nextUtil, bindUtil));
  }

  // --- what the model promises for utilisations between 0 and 100 ---------------------------

  predicate Percentages(load: Load) {
    forall st :: st in load.util ==> 0 <= load.util[st] <= 100
  }

  predicate Busiest(load: Load, st: Stage) {
    st in STAGES && forall i :: 0 <= i < 4 ==> UtilOf(load, STAGES[i]) <= UtilOf(load, st)
  }

  /** The four stages in pipeline order, each as busy as the line says, 0 where it says nothing. */
  predicate AsBusyAsStated(load: Load, stages: seq<StageInfo>) {
    && |stages| == 4
    && stages[0].name == Source && stages[1].name == Proxy && stages[2].name == Network && stages[3].name == Target
    && forall i :: 0 <= i < 4 ==>
      stages[i].util == if stages[i].name in load.util then load.util[stages[i].name] else 0
  }

  /**
    Where the line states any stage, one binds from 85 percent on when it is within 6 of the
    busiest; so some stage binds exactly when the busiest saturates.
   */
  lemma BindingStages(load: Load, stages: seq<StageInfo>, top: Stage)
    requires StagesOf(load, stages) && HasPct(load) && Busiest(load, top)
    ensures AsBusyAsStated(load, stages)
    ensures forall s :: s in stages ==> s.util <= UtilOf(load, top)
    ensures forall s :: s in stages ==> (s.binding <==> s.util >= 85 && s.util >= UtilOf(load, top) - 6)
    ensures StageInfo(top, UtilOf(load, top), UtilOf(load, top) >= 85) in stages
    ensures (exists s :: s in stages && s.binding) <==> UtilOf(load, top) >= 85
  {
    var i :| 0 <= i < 4 && STAGES[i] == top;
    assert stages[i] in stages && stages[i].name == top && stages[i].util == UtilOf(load, top);
    forall s | s in stages
      ensures exists k :: 0 <= k < 4 && stages[k] == s && s.name == STAGES[k] && s.util == UtilOf(load, STAGES[k])
    {
      var k :| 0 <= k < 4 && stages[k] == s;
    }
  }

  /** Where it states none, only the dominant stage binds, at an unknown level. */
  lemma DominantStageBinds(load: Load, stages: seq<StageInfo>)
    requires StagesOf(load, stages) && !HasPct(load)
    ensures AsBusyAsStated(load, stages)
    ensures forall s :: s in stages ==> s.util == 0 && (s.binding <==> s.name == load.primary)
  {
    assert forall i :: 0 <= i < 4 ==> stages[i].name == STAGES[i] && STAGES[i] !in load.util;
  }

  lemma UtilsOf(load: Load, stages: seq<StageInfo>, top: Stage)
    requires StagesOf(load, stages) && HasPct(load) && Busiest(load, top) && Percentages(load)
    ensures UtilOf(load, top) >= BIND_THRESHOLD ==>
      Top(stages, true) == UtilOf(load, top) && Top(stages, false) < UtilOf(load, top)
    ensures UtilOf(load, top) < BIND_THRESHOLD ==> Top(stages, true) == 0
    ensures UtilOf(load, top) <= 100
  {
    BindingStages(load, stages, top);
    if Top(stages, true) > 0 {
      var s :| s in stages && s.binding && s.util == Top(stages, true);
      assert s.util <= UtilOf(load, top);
    }
    if Top(stages, false) > 0 {
      var s :| s in stages && !s.binding && s.util == Top(stages, false);
      assert s.util < UtilOf(load, top) || UtilOf(load, top) < BIND_THRESHOLD;
    }
  }

  /** Less time, and between 1 and 99 percent less. */
  lemma ProjectedIsShorter(name: Stage, seconds: real, next: int, bind: int)
    requires 0 < next < bind <= 100 && seconds > 0.0
    ensures var p := Projected(name, seconds, next, bind);
      0.0 < p.seconds < seconds && 1 <= p.improvementPct <= 99
  {
    QuotientBetween(100 * (bind - next), bind, 1, 100);
    RatioBelowOne(next as real, bind as real);
    Shorter(seconds, next as real / bind as real);
  }

  lemma RatioBelowOne(a: real, b: real)
    requires 0.0 < a < b
    ensures 0.0 < a / b < 1.0
  {
    var r := a / b;
    assert r * b == a;
    if r >= 1.0 { Scaled(b, 1.0, r); }
    if r <= 0.0 { Scaled(b, r, 0.0); }
  }

  lemma Scaled(k: real, a: real, b: real)
    requires k >= 0.0 && a <= b
    ensures k * a <= k * b
  {}

  lemma Shorter(seconds: real, ratio: real)
    requires seconds > 0.0 && 0.0 < ratio < 1.0
    ensures 0.0 < seconds * ratio < seconds
  {}

  /** The busiest of the stages that do not bind. */
  predicate NextInLine(stages: seq<StageInfo>, s: StageInfo) {
    s in stages && !s.binding && forall t :: t in stages && !t.binding ==> t.util <= s.util
  }

  /**
    A job gets a projection exactly when it moved data, its busiest stage saturates and a stage
    that does not bind did some work.  It compares the busiest of these with the busiest stage:
    the time is shorter and the gain at least one percent.
   */
  lemma ProjectionIsSound(load: Load, stages: seq<StageInfo>, seconds: real, hasData: bool, top: Stage)
    requires StagesOf(load, stages) && Percentages(load) && Busiest(load, top)
    ensures var p := ProjectionOf(stages, seconds, hasData);
      && (p.Some? <==>
            hasData && seconds > 0.0 && HasPct(load) && UtilOf(load, top) >= 85 && OthersWork(stages))
      && (p.Some? ==> 0.0 < p.value.seconds < seconds && 1 <= p.value.improvementPct <= 99)
  {
    TopsOf(load, stages, top);
    var bind, next := Top(stages, true), Top(stages, false);
    if hasData && seconds > 0.0 && 0 < next < bind {
      ProjectedIsShorter(Holder(stages, false), seconds, next, bind);
    }
  }

  lemma TopsOf(load: Load, stages: seq<StageInfo>, top: Stage)
    requires StagesOf(load, stages) && Percentages(load) && Busiest(load, top)
    ensures 0 < Top(stages, false) < Top(stages, true) <==>
      HasPct(load) && UtilOf(load, top) >= BIND_THRESHOLD && OthersWork(stages)
    ensures 0 < Top(stages, true) ==> Top(stages, true) == UtilOf(load, top) <= 100
  {
    if HasPct(load) {
      UtilsOf(load, stages, top);
    } else {
      NothingAboveZero(stages);
    }
    assert OthersWork(stages) <==> Top(stages, false) > 0;
  }

  /** The time shrinks as the utilisation does; the gain is the percentage it shrinks by, rounded down. */
  predicate InProportion(p: Projection, seconds: real, next: int, bind: int) {
    && p.seconds * bind as real == seconds * next as real
    && p.improvementPct * bind <= 100 * (bind - next) < (p.improvementPct + 1) * bind
  }

  lemma ProjectedInProducts(name: Stage, seconds: real, next: int, bind: int)
    requires 0 < next < bind
    ensures InProportion(Projected(name, seconds, next, bind), seconds, next, bind)
  {
    FloorBound(100 * (bind - next), bind);
    var q := next as real / bind as real;
    assert q * bind as real == next as real;
    assert seconds * q * bind as real == seconds * (q * bind as real);
  }

  /** What a projection compares. */
  lemma ProjectionComparesTheNextStage(load: Load, stages: seq<StageInfo>, seconds: real, hasData: bool, top: Stage)
    requires StagesOf(load, stages) && Percentages(load) && Busiest(load, top)
    ensures ProjectionOf(stages, seconds, hasData).Some? ==>
      exists i :: Compares(load, stages, seconds, top, i, ProjectionOf(stages, seconds, hasData).value)
  {
    TopsOf(load, stages, top);
    if ProjectionOf(stages, seconds, hasData).Some? {
      var i := HolderIsFirst(stages);
      NextComparesWith(load, stages, seconds, top, i);
    }
  }

  lemma NextComparesWith(load: Load, stages: seq<StageInfo>, seconds: real, top: Stage, i: nat)
    requires 0 < Top(stages, false) < Top(stages, true) == UtilOf(load, top)
    requires i < |stages| && !stages[i].binding && stages[i].util == Top(stages, false)
    requires stages[i].name == Holder(stages, false)
    requires forall k :: 0 <= k < i && !stages[k].binding ==> stages[k].util < stages[i].util
    ensures Compares(load, stages, seconds, top, i,
                     Projected(Holder(stages, false), seconds, Top(stages, false), Top(stages, true)))
  {
    ProjectedInProducts(stages[i].name, seconds, Top(stages, false), Top(stages, true));
  }

  lemma {:induction false} HolderIsFirst(stages: seq<StageInfo>) returns (i: nat)
    requires Top(stages, false) > 0
    ensures i < |stages| && !stages[i].binding && stages[i].util == Top(stages, false)
    ensures stages[i].name == Holder(stages, false)
    ensures forall k :: 0 <= k < i && !stages[k].binding ==> stages[k].util < stages[i].util
  {
    var n := |stages| - 1;
    assert stages == stages[..n] + [stages[n]];
    if !stages[n].binding && stages[n].util > Top(stages[..n], false) {
      i := n;
      assert forall k :: 0 <= k < n ==> stages[k] in stages[..n];
    } else {
      i := HolderIsFirst(stages[..n]);
    }
  }

  /**
    The projection sets the first of the busiest stages that do not bind against the busiest of
    all.
   */
  predicate Compares(load: Load, stages: seq<StageInfo>, seconds: real, top: Stage, i: int, p: Projection) {
    && 0 <= i < |stages| && NextInLine(stages, stages[i])
    && (forall k :: 0 <= k < i && !stages[k].binding ==> stages[k].util < stages[i].util)
    && p.next == stages[i].name
    && var next, bind := stages[i].util, UtilOf(load, top);
    0 < next < bind && InProportion(p, seconds, next, bind)
  }

  predicate OthersWork(stages: seq<StageInfo>) {
    exists s :: s in stages && !s.binding && s.util > 0
  }

  lemma NothingAboveZero(stages: seq<StageInfo>)
    requires forall s :: s in stages ==> s.util == 0
    ensures Top(stages, true) == 0 && Top(stages, false) == 0
  {}
}
