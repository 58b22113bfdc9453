/**
  What the rules of a job's verdict say about each stage: the actions they list, the causes
  they name and the severity they set.
 */
module VerdictRules {
  import opened Wrappers
  import opened Sorting
  import opened Actions
  import opened Capacity

  const MAX_CREDIBLE_GAIN := 75
  const STARVED_PCT := 60
  const MAXED_PCT := 80

  datatype Kind = ProxyHost | Repository

  datatype Resource = Resource(kind: Kind, slots: int, cores: int, ramGB: int, capacityGB: Option<real>,
                               freeGB: Option<real>)

  datatype Confidence = Observed | Low | Insufficient

  datatype Transport = Nbd | OtherMode | NotReported

  /** What the logs of a job add: transport, compression level and seconds per machine. */
  datatype Deep = Deep(transport: Transport, noted: bool, compression: Option<int>, vms: seq<real>)

  /** Measured ceilings; 0 where nothing was measured. */
  datatype Measured = Measured(repoMBps: real, linkMbps: real)

  datatype Job = Job(confidence: Confidence, stages: seq<StageInfo>, primary: Stage, writeMBps: real, repSeconds: real,
                     resources: seq<Resource>, projection: Option<Projection>)

  datatype Case = Case(job: Job, deep: Option<Deep>, measured: Option<Measured>)

  datatype Cause =
    | NoCause | Noop | Balanced
    | SrcUnknown | NbdHotadd | NbdOnly | TransportOK | SrcStore
    | ProxyProc | NetLink | RepoWrite | Slots
    | StarvedTarget | PartialTarget | MaxedTarget | StarvedNet | MaxedNet

  // --- gain and binding stages -------------------------------------------------------------

  /** The projected gain, capped; none when nothing is projected. */
  function GainOf(c: Case): (g: Option<int>)
    ensures g.Some? ==> 1 <= g.value <= MAX_CREDIBLE_GAIN
  {
    if c.job.projection.Some? && c.job.projection.value.improvementPct > 0 then
      var p := c.job.projection.value.improvementPct;
      Some(if p > MAX_CREDIBLE_GAIN then MAX_CREDIBLE_GAIN else p)
    else None
  }

  predicate Saturates(s: StageInfo) {
    s.binding && s.util > 0
  }

  function Saturated(stages: seq<StageInfo>): (r: seq<StageInfo>)
    ensures forall s :: s in r <==> s in stages && Saturates(s)
  {
    if stages == [] then []
    else
      var init, last := stages[..|stages| - 1], stages[|stages| - 1];
      assert stages == init + [last];
      Saturated(init) + if Saturates(last) then [last] else []
  }

  function ByUtil(s: StageInfo): Key {
    (-s.util, 0)
  }

  function Bound(c: Case): seq<StageInfo> {
    StableSort(Saturated(c.job.stages), ByUtil)
  }

  function Names(stages: seq<StageInfo>): (r: seq<Stage>)
    ensures |r| == |stages| && forall i :: 0 <= i < |r| ==> r[i] == stages[i].name
  {
    seq(|stages|, i requires 0 <= i < |stages| => stages[i].name)
  }

  /** The stages whose rules apply, the busiest first; without utilisations, the dominant one. */
  function Visited(c: Case): seq<Stage> {
    if c.job.confidence == Insufficient then []
    else if Bound(c) != [] then Names(Bound(c))
    else if c.job.primary == NoStage then []
    else [c.job.primary]
  }

  // --- measured ceilings -------------------------------------------------------------------

  /** Percent of the ceiling that is used, to the nearest. */
  function Used(got: real, ceiling: real): int
    requires ceiling > 0.0
  {
    (got / ceiling * 100.0 + 0.5).Floor
  }

  predicate TargetMeasured(c: Case) {
    c.measured.Some? && c.measured.value.repoMBps > 0.0 && c.job.writeMBps > 0.0
  }

  predicate NetworkMeasured(c: Case) {
    c.measured.Some? && c.measured.value.linkMbps > 0.0 && c.job.writeMBps > 0.0
  }

  /** The cause a measurement of the stage establishes. */
  function MeasuredCause(st: Stage, c: Case): Option<Cause> {
    if st == Target && TargetMeasured(c) then
      var used := Used(c.job.writeMBps, c.measured.value.repoMBps);
      Some(if used < STARVED_PCT then StarvedTarget else if used >= MAXED_PCT then MaxedTarget else PartialTarget)
    else if st == Network && NetworkMeasured(c) then
      Some(if Used(c.job.writeMBps * 8.0, c.measured.value.linkMbps) < STARVED_PCT then StarvedNet else MaxedNet)
    else None
  }

  /** The severity a measured cause sets. */
  function Grade(cause: Cause): Option<Severity> {
    match cause
    case StarvedTarget | StarvedNet => Some(Warn)
    case MaxedTarget | MaxedNet => Some(Critical)
    case _ => None
  }

  function GradeOf(st: Stage, c: Case): Option<Severity> {
    var m := MeasuredCause(st, c);
    if m.Some? then Grade(m.value) else None
  }

  /** A share below `p` percent, rounded, is one below `p` minus a half. */
  lemma UsedBelow(got: real, ceiling: real, p: int)
    requires ceiling > 0.0
    ensures Used(got, ceiling) < p <==> 200.0 * got < (2 * p - 1) as real * ceiling
  {
    var q, bar := got / ceiling, (p as real - 0.5) / 100.0;
    assert q * ceiling == got;
    assert Used(got, ceiling) < p <==> q < bar;
    if q < bar { ScaledStrictly(ceiling, q, bar); }
    if q >= bar { Scaled(ceiling, bar, q); }
    assert ceiling * bar * 200.0 == (2 * p - 1) as real * ceiling;
  }

  lemma ScaledStrictly(k: real, a: real, b: real)
    requires k > 0.0 && a < b
    ensures k * a < k * b
  {}

  /** A repository is starved below 59.5% of its measured ceiling and at its limit from 79.5% on. */
  lemma MeasuredTargetThresholds(c: Case)
    requires TargetMeasured(c)
    ensures MeasuredCause(Target, c) == Some(StarvedTarget) <==>
      200.0 * c.job.writeMBps < 119.0 * c.measured.value.repoMBps
    ensures MeasuredCause(Target, c) == Some(MaxedTarget) <==>
      200.0 * c.job.writeMBps >= 159.0 * c.measured.value.repoMBps
  {
    UsedBelow(c.job.writeMBps, c.measured.value.repoMBps, STARVED_PCT);
    UsedBelow(c.job.writeMBps, c.measured.value.repoMBps, MAXED_PCT);
  }

  /** A link is idle below 59.5% of its measured rate. */
  lemma LinkThreshold(c: Case)
    requires NetworkMeasured(c)
    ensures MeasuredCause(Network, c) == Some(StarvedNet) <==>
      1600.0 * c.job.writeMBps < 119.0 * c.measured.value.linkMbps
  {
    UsedBelow(c.job.writeMBps * 8.0, c.measured.value.linkMbps, STARVED_PCT);
  }

  // --- resources ---------------------------------------------------------------------------

  function FirstOf(rs: seq<Resource>, kind: Kind): Option<Resource> {
    if rs == [] then None
    else
      var before := FirstOf(rs[..|rs| - 1], kind);
      if before == None && rs[|rs| - 1].kind == kind then Some(rs[|rs| - 1]) else before
  }

  /** Tasks the host carries: one per core and, where the memory is known, one per 2 GB. */
  function Viable(r: Resource): int {
    if r.ramGB > 0 && r.ramGB / 2 < r.cores then r.ramGB / 2 else r.cores
  }

  predicate UnderUsed(r: Resource) {
    r.cores > 0 && Viable(r) > 2 && r.slots < Viable(r)
  }

  function SlotActs(kind: Kind, st: Stage, c: Case, gain: Option<int>): seq<Action> {
    match FirstOf(c.job.resources, kind)
    case None => []
    case Some(r) =>
      if r.cores <= 0 then
        if r.slots > 0 then [Advice(Verify, st, ActSlotsUnknown, None)] else []
      else if Viable(r) <= 2 then [Advice(High, st, ActScaleHost, gain)]
      else if UnderUsed(r) then [Advice(High, st, ActSlots, gain)]
      else [Advice(High, st, ActAtCapacity, gain)]
  }

  /** The host carries `n` tasks: a core each and, where the memory is known, 2 GB each. */
  predicate Carries(r: Resource, n: int) {
    n <= r.cores && (r.ramGB <= 0 || 2 * n <= r.ramGB)
  }

  predicate HasCode(acts: seq<Action>, code: Code) {
    exists a :: a in acts && a.code == code
  }

  /**
    Advice about slots, one item at most.  With a gain only when the cores are known: raise the
    slots where the host carries three tasks and one more than it is set to, scale it where it
    carries no three, else it is at its capacity.
   */
  lemma SlotAdviceIff(kind: Kind, st: Stage, c: Case, gain: Option<int>)
    ensures var acts, res := SlotActs(kind, st, c, gain), FirstOf(c.job.resources, kind);
      && |acts| <= 1
      && (acts != [] <==> res.Some? && (res.value.cores > 0 || res.value.slots > 0))
      && (forall a :: a in acts && a.gain.Some? ==> res.value.cores > 0 && a.gain == gain)
      && (HasCode(acts, ActSlotsUnknown) <==> res.Some? && res.value.cores <= 0 && res.value.slots > 0)
      && (HasCode(acts, ActScaleHost) <==> res.Some? && res.value.cores > 0 && !Carries(res.value, 3))
      && (HasCode(acts, ActSlots) <==>
            res.Some? && res.value.cores > 0 && Carries(res.value, 3) && Carries(res.value, res.value.slots + 1))
      && (HasCode(acts, ActAtCapacity) <==>
            res.Some? && res.value.cores > 0 && Carries(res.value, 3) && !Carries(res.value, res.value.slots + 1))
  {
    var acts, res := SlotActs(kind, st, c, gain), FirstOf(c.job.resources, kind);
    if acts != [] { assert acts[0] in acts; }
    if res.Some? {
      ViableIsWhatItCarries(res.value, 3);
      ViableIsWhatItCarries(res.value, res.value.slots + 1);
    }
  }

  lemma ViableIsWhatItCarries(r: Resource, n: int)
    ensures n <= Viable(r) <==> Carries(r, n)
  {
  }

  // --- causes ------------------------------------------------------------------------------

  /** A rule may guess a cause, which only fills a gap, state one, or measure one. */
  datatype Said = Guesses(cause: Cause) | States(known: bool, cause: Cause) | Measures(cause: Cause)

  datatype Diagnosis = Diagnosis(known: bool, cause: Cause, locked: bool)

  const SILENT := Diagnosis(false, NoCause, false)

  function Hear(f: Diagnosis, e: Said): Diagnosis {
    match e
    case Guesses(x) => if f.known || f.locked then f else Diagnosis(true, x, false)
    case States(k, x) => if f.locked then f else Diagnosis(k, x, false)
    case Measures(x) => if f.locked then f else Diagnosis(true, x, true)
  }

  function HearAll(f: Diagnosis, es: seq<Said>): Diagnosis {
    if es == [] then f else Hear(HearAll(f, es[..|es| - 1]), es[|es| - 1])
  }

  lemma {:induction false} HearConcat(f: Diagnosis, a: seq<Said>, b: seq<Said>)
    ensures HearAll(f, a + b) == HearAll(HearAll(f, a), b)
  {
    if b == [] {
      assert a + b == a;
    } else {
      assert (a + b)[..|a + b| - 1] == a + b[..|b| - 1];
      HearConcat(f, a, b[..|b| - 1]);
    }
  }

  function SlotCauses(kind: Kind, c: Case): seq<Said> {
    match FirstOf(c.job.resources, kind)
    case None => []
    case Some(r) => if UnderUsed(r) then [States(true, Slots)] else []
  }

  function SourceCause(c: Case): Said {
    match c.deep
    case None => States(false, SrcUnknown)
    case Some(d) =>
      match d.transport
      case Nbd => States(true, if d.noted then NbdHotadd else NbdOnly)
      case OtherMode => States(true, TransportOK)
      case NotReported => States(true, SrcStore)
  }

  function TargetCauses(c: Case): seq<Said> {
    var m := MeasuredCause(Target, c);
    if m == None then SlotCauses(Repository, c)
    else [Measures(m.value)] + if FeedsBySlots(c) || m.value == PartialTarget then SlotCauses(Repository, c) else []
  }

  /** A starved repository on a host of known cores is advised on its slots. */
  predicate FeedsBySlots(c: Case) {
    var r := FirstOf(c.job.resources, Repository);
    MeasuredCause(Target, c) == Some(StarvedTarget) && r.Some? && r.value.cores > 0
  }

  function NetworkCauses(c: Case): seq<Said> {
    var m := MeasuredCause(Network, c);
    if m.Some? then [Measures(m.value)] else [Guesses(NetLink)]
  }

  function CausesOf(st: Stage, c: Case): seq<Said> {
    match st
    case Source => [SourceCause(c)]
    case Proxy => [Guesses(ProxyProc)] + SlotCauses(ProxyHost, c)
    case Network => NetworkCauses(c)
    case Target => [Guesses(RepoWrite)] + TargetCauses(c)
    case Other(_) => []
    case NoStage => []
  }

  // --- actions -----------------------------------------------------------------------------

  function CompressionActs(c: Case): seq<Action> {
    if c.deep.Some? && c.deep.value.compression.Some? && c.deep.value.compression.value < 5
    then [Advice(Medium, Target, ActCompression, None)] else []
  }

  function Total(xs: seq<real>): real {
    if xs == [] then 0.0 else Total(xs[..|xs| - 1]) + xs[|xs| - 1]
  }

  /** The machine time adds up: over parts of the list, and for one machine it is its own. */
  lemma {:induction false} TimesAddUp(a: seq<real>, b: seq<real>)
    ensures Total([]) == 0.0 && forall x :: Total([x]) == x
    ensures Total(a + b) == Total(a) + Total(b)
  {
    assert forall x: real :: [x][..0] == [];
    if b == [] {
      assert a + b == a;
    } else {
      assert (a + b)[..|a + b| - 1] == a + b[..|b| - 1];
      TimesAddUp(a, b[..|b| - 1]);
    }
  }

  /** One machine out of three or more takes 60% of the machine time. */
  predicate Skewed(vms: seq<real>) {
    |vms| >= 3 && exists x :: x in vms && x >= 0.6 * Total(vms)
  }

  /** The machine time fills the run and no machine takes more than 70% of it. */
  predicate Serial(vms: seq<real>, run: real) {
    0.8 * run <= Total(vms) <= 1.25 * run && forall x :: x in vms ==> x <= 0.7 * Total(vms)
  }

  function SkewActs(c: Case): seq<Action> {
    if c.deep == None then []
    else
      var vms, run := c.deep.value.vms, c.job.repSeconds;
      if |vms| < 2 || run <= 0.0 || Total(vms) <= 0.0 then []
      else if Skewed(vms) then [Advice(Medium, NoStage, ActSkew, None)]
      else if Serial(vms, run) then [Advice(Medium, NoStage, ActSerial, None)]
      else []
  }

  function SourceActs(c: Case, gain: Option<int>): seq<Action> {
    match c.deep
    case None => [Advice(Verify, Source, ActDeep, None), Advice(Verify, Source, ActSrcStorage, None)]
    case Some(d) =>
      [if d.transport == Nbd then Advice(High, Source, ActHotadd, gain)
       else Advice(Verify, Source, ActSrcStorage, None)]
      + SkewActs(c)
  }

  function NetworkActs(c: Case, gain: Option<int>): seq<Action> {
    match MeasuredCause(Network, c)
    case None => [Advice(High, Network, ActNetUpgrade, gain), Advice(Verify, Network, ActIperf, None)]
    case Some(m) => [Advice(High, Network, if m == StarvedNet then ActFeedNet else ActNetUpgrade, gain)]
  }

  function MeasuredTargetActs(c: Case, gain: Option<int>): seq<Action> {
    if FeedsBySlots(c) then SlotActs(Repository, Target, c, gain) + [Advice(Info, Target, ActNoBuyStorage, None)]
    else if MeasuredCause(Target, c) == Some(StarvedTarget) then
      [Advice(High, Target, ActFeedTarget, gain), Advice(Info, Target, ActNoBuyStorage, None)]
    else if MeasuredCause(Target, c) == Some(MaxedTarget) then [Advice(High, Target, ActFasterTarget, gain)]
    else SlotActs(Repository, Target, c, gain) + [Advice(Medium, Target, ActFeedTarget, None)]
  }

  function TargetActs(c: Case, gain: Option<int>): seq<Action> {
    (if TargetMeasured(c) then MeasuredTargetActs(c, gain)
     else SlotActs(Repository, Target, c, gain) + [Advice(Verify, Target, ActFio, None)])
    + CompressionActs(c)
  }

  function StageActs(st: Stage, c: Case, gain: Option<int>): seq<Action> {
    match st
    case Source => SourceActs(c, gain)
    case Proxy => SlotActs(ProxyHost, Proxy, c, gain)
    case Network => NetworkActs(c, gain)
    case Target => TargetActs(c, gain)
    case Other(_) => []
    case NoStage => []
  }

  // --- rules that do not depend on the stage -------------------------------------------------

  function Truncated(x: real): int {
    if x >= 0.0 then x.Floor else -((-x).Floor)
  }

  /** The percentage free, where both sizes are known. */
  function FreePct(r: Resource): Option<int> {
    if r.kind == Repository && r.capacityGB.Some? && r.freeGB.Some? && r.capacityGB.value > 0.0
    then Some(Truncated(r.freeGB.value / r.capacityGB.value * 100.0)) else None
  }

  function SpaceAct(r: Resource): seq<Action> {
    match FreePct(r)
    case None => []
    case Some(p) => if p >= 10 then [] else [Advice(if p < 5 then High else Hygiene, Target, ActRepoFree, None)]
  }

  function SpaceActs(rs: seq<Resource>): seq<Action> {
    if rs == [] then [] else SpaceActs(rs[..|rs| - 1]) + SpaceAct(rs[|rs| - 1])
  }

  function CrossActs(c: Case, st: Stage): seq<Action> {
    SpaceActs(c.job.resources)
    + (if c.job.confidence == Low then [Advice(Verify, NoStage, ActWindow, None)] else [])
    + if c.deep == None && st != NoStage && st != Source then [Advice(Verify, st, ActDeep, None)] else []
  }

  /** Less than 10% of the space is left; less than 5%. */
  predicate IsFilling(r: Resource) {
    Sized(r) && 10.0 * r.freeGB.value < r.capacityGB.value
  }

  predicate IsFull(r: Resource) {
    Sized(r) && 20.0 * r.freeGB.value < r.capacityGB.value
  }

  predicate Sized(r: Resource) {
    r.kind == Repository && r.capacityGB.Some? && r.freeGB.Some? && r.capacityGB.value > 0.0
  }

  /** The truncated percentage is below a positive bound exactly when the share is. */
  lemma FreeBelow(r: Resource, p: nat)
    requires Sized(r) && p > 0
    ensures FreePct(r).value < p <==> 100.0 * r.freeGB.value < p as real * r.capacityGB.value
  {
    var free, cap := r.freeGB.value, r.capacityGB.value;
    var q := free / cap;
    assert q * cap == free;
    assert Truncated(q * 100.0) < p <==> q * 100.0 < p as real;
    var bar := p as real / 100.0;
    if q < bar { ScaledStrictly(cap, q, bar); }
    if q >= bar { Scaled(cap, bar, q); }
    assert cap * bar * 100.0 == p as real * cap;
  }

  lemma SpaceActIs(r: Resource)
    ensures SpaceAct(r) ==
      if IsFilling(r) then [Advice(if IsFull(r) then High else Hygiene, Target, ActRepoFree, None)] else []
  {
    if Sized(r) {
      FreeBelow(r, 10);
      FreeBelow(r, 5);
    }
  }

  /** Space is advised on exactly when a repository has less than 10% left, urgently below 5%. */
  lemma {:induction false} SpaceAdviceIff(rs: seq<Resource>)
    ensures SpaceActs(rs) != [] <==> exists r :: r in rs && IsFilling(r)
    ensures (exists a :: a in SpaceActs(rs) && a.impact == High) <==> exists r :: r in rs && IsFull(r)
    ensures forall a :: a in SpaceActs(rs) ==> a.code == ActRepoFree && a.stage == Target && a.gain == None
  {
    if rs != [] {
      var init, last := rs[..|rs| - 1], rs[|rs| - 1];
      assert rs == init + [last];
      SpaceAdviceIff(init);
      SpaceActIs(last);
    }
  }

  /** What is advised whatever the stage: space, a wider window for little data, the logs where they are missing. */
  lemma CrossAdviceIff(c: Case, st: Stage)
    ensures var acts := CrossActs(c, st);
      && (HasCode(acts, ActRepoFree) <==> exists r :: r in c.job.resources && IsFilling(r))
      && (HasCode(acts, ActWindow) <==> c.job.confidence == Low)
      && (HasCode(acts, ActDeep) <==> c.deep == None && st != NoStage && st != Source)
  {
    var space := SpaceActs(c.job.resources);
    var window := if c.job.confidence == Low then [Advice(Verify, NoStage, ActWindow, None)] else [];
    var deep := if c.deep == None && st != NoStage && st != Source then [Advice(Verify, st, ActDeep, None)] else [];
    assert CrossActs(c, st) == space + window + deep;
    SpaceAdviceIff(c.job.resources);
    CodesOfThree(space, window, deep, ActRepoFree, ActWindow, ActDeep, ActRepoFree);
    CodesOfThree(space, window, deep, ActRepoFree, ActWindow, ActDeep, ActWindow);
    CodesOfThree(space, window, deep, ActRepoFree, ActWindow, ActDeep, ActDeep);
  }

  predicate AllCoded(acts: seq<Action>, code: Code) {
    forall a :: a in acts ==> a.code == code
  }

  lemma CodesOfBoth(a: seq<Action>, b: seq<Action>, code: Code)
    ensures HasCode(a + b, code) <==> HasCode(a, code) || HasCode(b, code)
  {
    assert forall e :: e in a + b <==> e in a || e in b;
  }

  lemma CodesOfAll(a: seq<Action>, b: seq<Action>, c: seq<Action>, code: Code)
    ensures HasCode(a + b + c, code) <==> HasCode(a, code) || HasCode(b, code) || HasCode(c, code)
  {
    CodesOfBoth(a + b, c, code);
    CodesOfBoth(a, b, code);
  }

  lemma CodeOfOne(acts: seq<Action>, x: Code, code: Code)
    requires AllCoded(acts, x)
    ensures HasCode(acts, code) <==> acts != [] && code == x
  {
    if acts != [] { assert acts[0] in acts; }
  }

  lemma CodesOfThree(a: seq<Action>, b: seq<Action>, c: seq<Action>, x: Code, y: Code, z: Code, code: Code)
    requires AllCoded(a, x) && AllCoded(b, y) && AllCoded(c, z)
    ensures HasCode(a + b + c, code) <==> (code == x && a != []) || (code == y && b != []) || (code == z && c != [])
  {
    CodesOfAll(a, b, c, code);
    CodeOfOne(a, x, code);
    CodeOfOne(b, y, code);
    CodeOfOne(c, z, code);
  }

  // --- over all the stages visited -----------------------------------------------------------

  function ActsOfAll(sts: seq<Stage>, c: Case, gain: Option<int>): seq<Action> {
    if sts == [] then [] else ActsOfAll(sts[..|sts| - 1], c, gain) + StageActs(sts[|sts| - 1], c, gain)
  }

  function CausesOfAll(sts: seq<Stage>, c: Case): seq<Said> {
    if sts == [] then [] else CausesOfAll(sts[..|sts| - 1], c) + CausesOf(sts[|sts| - 1], c)
  }

  function SeverityAfter(base: Severity, sts: seq<Stage>, c: Case): Severity {
    if sts == [] then base
    else
      var g := GradeOf(sts[|sts| - 1], c);
      if g.Some? then g.value else SeverityAfter(base, sts[..|sts| - 1], c)
  }
}
