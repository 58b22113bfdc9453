/**
  What a finished verdict says, told from the stages visited, the rates and the logs: every
  action with its stage, urgency and gain, the cause, the severity and the headline.
 */
module VerdictAdvice {
  import opened Wrappers
  import opened Actions
  import opened VerdictRules
  import opened VerdictTheorems

  // --- what is known of the job -------------------------------------------------------------

  predicate DiskRated(c: Case) {
    c.measured.Some? && c.measured.value.repoMBps > 0.0 && c.job.writeMBps > 0.0
  }

  predicate LinkRated(c: Case) {
    c.measured.Some? && c.measured.value.linkMbps > 0.0 && c.job.writeMBps > 0.0
  }

  /** Less than 59.5% of what the repository takes is written; 79.5% or more. */
  predicate DiskIdle(c: Case) {
    DiskRated(c) && 200.0 * c.job.writeMBps < 119.0 * c.measured.value.repoMBps
  }

  predicate DiskFull(c: Case) {
    DiskRated(c) && 200.0 * c.job.writeMBps >= 159.0 * c.measured.value.repoMBps
  }

  /** Less than 59.5% of the link is filled; MB/s are eight times as many Mbit/s. */
  predicate LinkIdle(c: Case) {
    LinkRated(c) && 1600.0 * c.job.writeMBps < 119.0 * c.measured.value.linkMbps
  }

  /** The projected gain, at most 75 percent. */
  function Gain(c: Case): Option<int> {
    match c.job.projection
    case None => None
    case Some(p) =>
      if p.improvementPct <= 0 then None else if p.improvementPct >= 75 then Some(75) else Some(p.improvementPct)
  }

  /** The first resource of the kind. */
  predicate IsHost(c: Case, kind: Kind, r: Resource) {
    exists i :: 0 <= i < |c.job.resources| && c.job.resources[i] == r && r.kind == kind && NoneUpTo(c, kind, i)
  }

  predicate NoneUpTo(c: Case, kind: Kind, i: int)
    requires i <= |c.job.resources|
  {
    forall k :: 0 <= k < i ==> c.job.resources[k].kind != kind
  }

  predicate ReadsByNbd(c: Case) {
    c.deep.Some? && c.deep.value.transport == Nbd
  }

  // --- every action -------------------------------------------------------------------------

  predicate Is(a: Action, impact: Impact, st: Stage, gain: Option<int>) {
    a.impact == impact && a.stage == st && a.gain == gain
  }

  /** The slots of the proxy, or those of the repository unless the disk is full or nothing is known of its host. */
  predicate SlotsAreJudged(c: Case, st: Stage, r: Resource) {
    || (st == Proxy && Visits(c, Proxy) && IsHost(c, ProxyHost, r))
    || (st == Target && Visits(c, Target) && IsHost(c, Repository, r) && !DiskFull(c) && (DiskIdle(c) ==> r.cores > 0))
  }

  predicate SlotFinding(r: Resource, code: Code) {
    match code
    case ActSlotsUnknown => r.cores <= 0 && r.slots > 0
    case ActScaleHost => r.cores > 0 && !Carries(r, 3)
    case ActSlots => r.cores > 0 && Carries(r, 3) && Carries(r, r.slots + 1)
    case ActAtCapacity => r.cores > 0 && Carries(r, 3) && !Carries(r, r.slots + 1)
    case _ => false
  }

  predicate SlotsWarranted(c: Case, a: Action) {
    && Is(a, if a.code == ActSlotsUnknown then Verify else High, a.stage,
          if a.code == ActSlotsUnknown then None else Gain(c))
    && exists r :: r in c.job.resources && SlotsAreJudged(c, a.stage, r) && SlotFinding(r, a.code)
  }

  /** One machine of three or more took 60% of the machine time. */
  predicate OneDominates(vms: seq<real>) {
    |vms| >= 3 && exists i :: 0 <= i < |vms| && 5.0 * vms[i] >= 3.0 * Total(vms)
  }

  /** The machine time is that of the run, within a fifth less or a quarter more, and none took over 70% of it. */
  predicate OneByOne(vms: seq<real>, run: real) {
    && 4.0 * run <= 5.0 * Total(vms) && 4.0 * Total(vms) <= 5.0 * run
    && forall i :: 0 <= i < |vms| ==> 10.0 * vms[i] <= 7.0 * Total(vms)
  }

  predicate MachinesAreKnown(c: Case) {
    c.deep.Some? && |c.deep.value.vms| >= 2 && c.job.repSeconds > 0.0 && Total(c.deep.value.vms) > 0.0
  }

  predicate SourceWarranted(c: Case, a: Action) {
    Visits(c, Source)
    && match a.code
       case ActSrcStorage => Is(a, Verify, Source, None) && !ReadsByNbd(c)
       case ActHotadd => Is(a, High, Source, Gain(c)) && ReadsByNbd(c)
       case ActSkew => Is(a, Medium, NoStage, None) && MachinesAreKnown(c) && OneDominates(c.deep.value.vms)
       case ActSerial =>
         && Is(a, Medium, NoStage, None) && MachinesAreKnown(c)
         && !OneDominates(c.deep.value.vms) && OneByOne(c.deep.value.vms, c.job.repSeconds)
       case _ => false
  }

  predicate NetworkWarranted(c: Case, a: Action) {
    Visits(c, Network)
    && match a.code
       case ActFeedNet => Is(a, High, Network, Gain(c)) && LinkIdle(c)
       case ActNetUpgrade => Is(a, High, Network, Gain(c)) && !LinkIdle(c)
       case ActIperf => Is(a, Verify, Network, None) && !LinkRated(c)
       case _ => false
  }

  predicate TargetWarranted(c: Case, a: Action) {
    Visits(c, Target)
    && match a.code
       case ActFeedTarget =>
         if DiskIdle(c) then Is(a, High, Target, Gain(c)) && !KnownRepository(c)
         else Is(a, Medium, Target, None) && DiskRated(c) && !DiskFull(c)
       case ActNoBuyStorage => Is(a, Info, Target, None) && DiskIdle(c)
       case ActFasterTarget => Is(a, High, Target, Gain(c)) && DiskFull(c)
       case ActFio => Is(a, Verify, Target, None) && !DiskRated(c)
       case ActCompression =>
         && Is(a, Medium, Target, None)
         && c.deep.Some? && c.deep.value.compression.Some? && c.deep.value.compression.value < 5
       case _ => false
  }

  /** The host of the repository is known. */
  predicate KnownRepository(c: Case) {
    exists r :: r in c.job.resources && IsHost(c, Repository, r) && r.cores > 0
  }

  /** The logs are asked for where they are missing: for the source and, unless it comes first, for the first stage. */
  predicate DeepWarranted(c: Case, a: Action) {
    && Is(a, Verify, a.stage, None) && c.deep == None && a.stage != NoStage && Visited(c) != []
    && if a.stage == Source then Visits(c, Source) else Visited(c)[0] == a.stage
  }

  /** When an action is in the verdict, and with what stage, urgency and gain. */
  predicate Warranted(c: Case, a: Action) {
    && a.rank == 0
    && match a.code
       case ActWindow => Is(a, Verify, NoStage, None) && (c.job.confidence == Low || c.job.confidence == Insufficient)
       case ActBalanced => Is(a, Info, NoStage, None) && c.job.confidence != Insufficient && Visited(c) == []
       case ActDeep => DeepWarranted(c, a)
       case ActSrcStorage | ActHotadd | ActSkew | ActSerial => SourceWarranted(c, a)
       case ActSlotsUnknown | ActScaleHost | ActSlots | ActAtCapacity => SlotsWarranted(c, a)
       case ActFeedNet | ActNetUpgrade | ActIperf => NetworkWarranted(c, a)
       case ActFeedTarget | ActNoBuyStorage | ActFasterTarget | ActFio | ActCompression => TargetWarranted(c, a)
       case ActRepoFree => c.job.confidence != Insufficient && SpaceWarranted(c, a)
       case _ => false
  }

  /** Less than 10% of a repository is free; it is urgent below 5%. */
  predicate SpaceWarranted(c: Case, a: Action) {
    exists r :: r in c.job.resources && IsFilling(r) && Is(a, if IsFull(r) then High else Hygiene, Target, None)
  }

  // --- the rules say the same ---------------------------------------------------------------

  lemma CeilingsInRates(c: Case)
    ensures TargetMeasured(c) <==> DiskRated(c)
    ensures NetworkMeasured(c) <==> LinkRated(c)
    ensures MeasuredCause(Target, c) ==
      if !DiskRated(c) then None
      else Some(if DiskIdle(c) then StarvedTarget else if DiskFull(c) then MaxedTarget else PartialTarget)
    ensures MeasuredCause(Network, c) ==
      if !LinkRated(c) then None else Some(if LinkIdle(c) then StarvedNet else MaxedNet)
    ensures DiskIdle(c) ==> !DiskFull(c)
  {
    if TargetMeasured(c) { MeasuredTargetThresholds(c); }
    if NetworkMeasured(c) { LinkThreshold(c); }
  }

  lemma {:induction false} HostIsFirst(rs: seq<Resource>, kind: Kind)
    ensures FirstOf(rs, kind) == None <==> forall k :: 0 <= k < |rs| ==> rs[k].kind != kind
    ensures FirstOf(rs, kind).Some? ==>
      exists i :: 0 <= i < |rs| && rs[i] == FirstOf(rs, kind).value && rs[i].kind == kind
               && forall k :: 0 <= k < i ==> rs[k].kind != kind
  {
    if rs != [] {
      var init := rs[..|rs| - 1];
      HostIsFirst(init, kind);
      if FirstOf(init, kind).Some? {
        var i :| 0 <= i < |init| && init[i] == FirstOf(init, kind).value && init[i].kind == kind
              && forall k :: 0 <= k < i ==> init[k].kind != kind;
        assert rs[i] == init[i];
      }
    }
  }

  lemma HostIs(c: Case, kind: Kind, r: Resource)
    ensures IsHost(c, kind, r) <==> FirstOf(c.job.resources, kind) == Some(r)
    ensures IsHost(c, kind, r) ==> r in c.job.resources
  {
    var rs := c.job.resources;
    HostIsFirst(rs, kind);
    if FirstOf(rs, kind) == Some(r) {
      var i :| 0 <= i < |rs| && rs[i] == r && r.kind == kind && forall k :: 0 <= k < i ==> rs[k].kind != kind;
      assert NoneUpTo(c, kind, i);
    }
    if IsHost(c, kind, r) {
      var i :| 0 <= i < |rs| && rs[i] == r && r.kind == kind && NoneUpTo(c, kind, i);
      var j :| 0 <= j < |rs| && rs[j] == FirstOf(rs, kind).value && rs[j].kind == kind
            && forall k :: 0 <= k < j ==> rs[k].kind != kind;
      assert i == j;
    }
  }

  predicate SlotsSaid(c: Case, kind: Kind, st: Stage, a: Action) {
    && a.rank == 0
    && Is(a, if a.code == ActSlotsUnknown then Verify else High, st,
          if a.code == ActSlotsUnknown then None else Gain(c))
    && exists r :: r in c.job.resources && IsHost(c, kind, r) && SlotFinding(r, a.code)
  }

  lemma SlotsAre(c: Case, kind: Kind, st: Stage, a: Action)
    ensures a in SlotActs(kind, st, c, Gain(c)) <==> SlotsSaid(c, kind, st, a)
  {
    var res := FirstOf(c.job.resources, kind);
    forall r ensures IsHost(c, kind, r) <==> res == Some(r) { HostIs(c, kind, r); }
    if res.Some? {
      HostIs(c, kind, res.value);
      ViableIsWhatItCarries(res.value, 3);
      ViableIsWhatItCarries(res.value, res.value.slots + 1);
      assert a in SlotActs(kind, st, c, Gain(c)) <==>
        SlotFinding(res.value, a.code) && a == Advice(if a.code == ActSlotsUnknown then Verify else High, st, a.code,
                                                      if a.code == ActSlotsUnknown then None else Gain(c));
    }
  }

  lemma MachinesAre(c: Case, a: Action)
    requires Visits(c, Source)
    ensures a in SkewActs(c) <==> a.rank == 0 && a.code in {ActSkew, ActSerial} && SourceWarranted(c, a)
  {
    if c.deep.Some? {
      var vms, run := c.deep.value.vms, c.job.repSeconds;
      assert Skewed(vms) <==> OneDominates(vms) by { SkewedIff(vms); }
      assert Serial(vms, run) <==> OneByOne(vms, run) by { SerialIff(vms, run); }
    }
  }

  lemma SkewedIff(vms: seq<real>)
    ensures Skewed(vms) <==> OneDominates(vms)
  {
    if i :| 0 <= i < |vms| && 5.0 * vms[i] >= 3.0 * Total(vms) { assert vms[i] in vms && vms[i] >= 0.6 * Total(vms); }
    if x :| x in vms && x >= 0.6 * Total(vms) {
      var i :| 0 <= i < |vms| && vms[i] == x;
      assert 5.0 * vms[i] >= 3.0 * Total(vms);
    }
  }

  lemma SerialIff(vms: seq<real>, run: real)
    ensures Serial(vms, run) <==> OneByOne(vms, run)
  {
    if OneByOne(vms, run) {
      forall x | x in vms ensures x <= 0.7 * Total(vms) {
        var i :| 0 <= i < |vms| && vms[i] == x;
        assert 10.0 * vms[i] <= 7.0 * Total(vms);
      }
    }
    if Serial(vms, run) {
      forall i | 0 <= i < |vms| ensures 10.0 * vms[i] <= 7.0 * Total(vms) { assert vms[i] in vms; }
    }
  }

  /** What one visited stage contributes. */
  predicate StageSays(c: Case, st: Stage, a: Action) {
    && a.rank == 0
    && match st
       case Source => SourceWarranted(c, a) || (a.code == ActDeep && Is(a, Verify, Source, None) && c.deep == None)
       case Proxy => SlotsWarranted(c, a) && a.stage == Proxy
       case Network => NetworkWarranted(c, a)
       case Target => TargetWarranted(c, a) || (SlotsWarranted(c, a) && a.stage == Target)
       case Other(_) => false
       case NoStage => false
  }

  lemma SourceSays(c: Case, a: Action)
    requires Visits(c, Source)
    ensures a in SourceActs(c, Gain(c)) <==> StageSays(c, Source, a)
  {
    MachinesAre(c, a);
  }

  lemma SlotsJudged(c: Case, kind: Kind, st: Stage, a: Action)
    requires (kind, st) == (ProxyHost, Proxy) || (kind, st) == (Repository, Target)
    requires Visits(c, st)
    requires st == Target ==> !DiskFull(c) && (DiskIdle(c) ==> KnownRepository(c))
    ensures a in SlotActs(kind, st, c, Gain(c)) <==> a.rank == 0 && a.stage == st && SlotsWarranted(c, a)
  {
    SlotsAre(c, kind, st, a);
    forall r, q | IsHost(c, kind, r) && IsHost(c, kind, q) ensures r == q {
      HostIs(c, kind, r);
      HostIs(c, kind, q);
    }
  }

  lemma ProxySays(c: Case, a: Action)
    requires Visits(c, Proxy)
    ensures a in SlotActs(ProxyHost, Proxy, c, Gain(c)) <==> StageSays(c, Proxy, a)
  {
    SlotsJudged(c, ProxyHost, Proxy, a);
  }

  lemma NetworkSays(c: Case, a: Action)
    requires Visits(c, Network)
    ensures a in NetworkActs(c, Gain(c)) <==> StageSays(c, Network, a)
  {
    CeilingsInRates(c);
  }

  lemma KnownRepositoryIff(c: Case)
    ensures KnownRepository(c) <==>
      FirstOf(c.job.resources, Repository).Some? && FirstOf(c.job.resources, Repository).value.cores > 0
  {
    forall r ensures IsHost(c, Repository, r) <==> FirstOf(c.job.resources, Repository) == Some(r) {
      HostIs(c, Repository, r);
    }
    if FirstOf(c.job.resources, Repository).Some? {
      HostIs(c, Repository, FirstOf(c.job.resources, Repository).value);
    }
  }

  lemma UnjudgedRepository(c: Case, a: Action)
    requires a.stage == Target && (DiskFull(c) || (DiskIdle(c) && !KnownRepository(c)))
    ensures !SlotsWarranted(c, a)
  {}

  predicate InCompression(c: Case, a: Action) {
    && a == Advice(Medium, Target, ActCompression, None)
    && c.deep.Some? && c.deep.value.compression.Some? && c.deep.value.compression.value < 5
  }

  predicate RatedSays(c: Case, a: Action) {
    && a.rank == 0
    && if a.stage == Target && SlotsWarranted(c, a) then true
       else a.code in {ActFeedTarget, ActNoBuyStorage, ActFasterTarget} && TargetWarranted(c, a)
  }

  lemma IdleTargetSays(c: Case, a: Action)
    requires Visits(c, Target) && DiskIdle(c)
    ensures a in MeasuredTargetActs(c, Gain(c)) <==> RatedSays(c, a)
  {
    CeilingsInRates(c);
    KnownRepositoryIff(c);
    if KnownRepository(c) {
      SlotsJudged(c, Repository, Target, a);
    } else if a.stage == Target {
      UnjudgedRepository(c, a);
    }
  }

  lemma BusyTargetSays(c: Case, a: Action)
    requires Visits(c, Target) && DiskRated(c) && !DiskIdle(c)
    ensures a in MeasuredTargetActs(c, Gain(c)) <==> RatedSays(c, a)
  {
    CeilingsInRates(c);
    if !DiskFull(c) {
      SlotsJudged(c, Repository, Target, a);
    } else if a.stage == Target {
      UnjudgedRepository(c, a);
    }
  }

  lemma TargetSays(c: Case, a: Action)
    requires Visits(c, Target)
    ensures a in TargetActs(c, Gain(c)) <==> StageSays(c, Target, a)
  {
    CeilingsInRates(c);
    assert a in CompressionActs(c) <==> InCompression(c, a);
    if DiskIdle(c) {
      IdleTargetSays(c, a);
    } else if DiskRated(c) {
      BusyTargetSays(c, a);
    } else {
      SlotsJudged(c, Repository, Target, a);
    }
  }

  lemma EachStageSays(c: Case, st: Stage, a: Action)
    requires Visits(c, st)
    ensures a in StageActs(st, c, Gain(c)) <==> StageSays(c, st, a)
  {
    match st
    case Source => SourceSays(c, a);
    case Proxy => ProxySays(c, a);
    case Network => NetworkSays(c, a);
    case Target => TargetSays(c, a);
    case Other(_) =>
    case NoStage =>
  }

  predicate Contributes(st: Stage, c: Case, gain: Option<int>, a: Action) {
    a in StageActs(st, c, gain)
  }

  lemma {:induction false} SaidByAStage(sts: seq<Stage>, c: Case, gain: Option<int>, a: Action)
    ensures a in ActsOfAll(sts, c, gain) <==> exists st :: st in sts && Contributes(st, c, gain, a)
  {
    if sts != [] {
      var init, last := sts[..|sts| - 1], sts[|sts| - 1];
      SaidByAStage(init, c, gain, a);
      assert a in ActsOfAll(sts, c, gain) <==> a in ActsOfAll(init, c, gain) || Contributes(last, c, gain, a);
      assert forall st :: st in sts <==> st in init || st == last;
    }
  }

  lemma {:induction false} SpaceSays(rs: seq<Resource>, a: Action)
    ensures a in SpaceActs(rs) <==>
      a.rank == 0 && a.code == ActRepoFree
      && exists r :: r in rs && IsFilling(r) && Is(a, if IsFull(r) then High else Hygiene, Target, None)
  {
    if rs != [] {
      var init, last := rs[..|rs| - 1], rs[|rs| - 1];
      assert rs == init + [last];
      SpaceSays(init, a);
      SpaceActIs(last);
    }
  }

  predicate SomeStageSays(c: Case, a: Action) {
    exists st :: st in Visited(c) && StageSays(c, st, a)
  }

  lemma StagesSay(c: Case, a: Action)
    ensures a in ActsOfAll(Visited(c), c, GainOf(c)) <==> SomeStageSays(c, a)
  {
    assert GainOf(c) == Gain(c);
    SaidByAStage(Visited(c), c, Gain(c), a);
    forall st | st in Visited(c) ensures Contributes(st, c, Gain(c), a) <==> StageSays(c, st, a) {
      EachStageSays(c, st, a);
    }
  }

  predicate CrossSays(c: Case, a: Action) {
    || (a == Finding(Verify, ActWindow) && c.job.confidence == Low)
    || (a.rank == 0 && a.code == ActRepoFree && SpaceWarranted(c, a))
    || (&& Visited(c) != [] && a == Advice(Verify, Visited(c)[0], ActDeep, None)
        && c.deep == None && Visited(c)[0] != NoStage && Visited(c)[0] != Source)
  }

  lemma CrossIs(c: Case, a: Action)
    ensures a in CrossActs(c, if Visited(c) == [] then NoStage else Visited(c)[0]) <==> CrossSays(c, a)
  {
    SpaceSays(c.job.resources, a);
  }

  predicate ByAStage(c: Case, a: Action) {
    && a.rank == 0
    && (SourceWarranted(c, a) || NetworkWarranted(c, a) || TargetWarranted(c, a) || SlotsWarranted(c, a)
        || (a.code == ActDeep && Is(a, Verify, Source, None) && c.deep == None && Visits(c, Source)))
  }

  lemma ByAStageIff(c: Case, a: Action)
    ensures SomeStageSays(c, a) <==> ByAStage(c, a)
  {
    if Visits(c, Source) && StageSays(c, Source, a) { assert SomeStageSays(c, a); }
    if Visits(c, Proxy) && StageSays(c, Proxy, a) { assert SomeStageSays(c, a); }
    if Visits(c, Network) && StageSays(c, Network, a) { assert SomeStageSays(c, a); }
    if Visits(c, Target) && StageSays(c, Target, a) { assert SomeStageSays(c, a); }
  }

  lemma WarrantedByStages(c: Case, a: Action)
    requires c.job.confidence != Insufficient
    ensures Warranted(c, a) <==>
      ByAStage(c, a) || CrossSays(c, a) || (Visited(c) == [] && a == Finding(Info, ActBalanced))
  {
    var source, network, target, slots :=
      SourceWarranted(c, a), NetworkWarranted(c, a), TargetWarranted(c, a), SlotsWarranted(c, a);
    assert source ==> a.code in {ActSrcStorage, ActHotadd, ActSkew, ActSerial};
    assert network ==> a.code in {ActFeedNet, ActNetUpgrade, ActIperf};
    assert target ==> a.code in {ActFeedTarget, ActNoBuyStorage, ActFasterTarget, ActFio, ActCompression};
    assert slots ==> a.code in {ActSlotsUnknown, ActScaleHost, ActSlots, ActAtCapacity};
  }

  lemma RulesSay(c: Case, a: Action)
    ensures a in RuleActs(c) <==> Warranted(c, a)
  {
    if c.job.confidence == Insufficient {
      assert Visited(c) == [];
    } else {
      WarrantedByStages(c, a);
      ByAStageIff(c, a);
      StagesSay(c, a);
      CrossIs(c, a);
      if Visited(c) == [] { assert !SomeStageSays(c, a); }
    }
  }

  /** Up to its number, an action is in the finished verdict exactly when it is warranted. */
  lemma AdviceIff(c: Case, a: Action)
    ensures a in Bares(Ranked(RuleActs(c))) <==> Warranted(c, a)
  {
    RankingIsAStablePermutation(RuleActs(c));
    var acts := RuleActs(c);
    forall i | 0 <= i < |acts| ensures Bares(acts)[i] == acts[i] {
      RulesSay(c, acts[i]);
      assert acts[i] in acts;
    }
    assert Bares(acts) == acts;
    RulesSay(c, a);
    assert a in Bares(Ranked(acts)) <==> multiset(Bares(Ranked(acts)))[a] > 0;
    assert a in acts <==> multiset(acts)[a] > 0;
  }
}
