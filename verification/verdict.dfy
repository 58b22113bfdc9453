/** The builder of a job's verdict: rules add actions and name causes, a measured cause stays. */
module Verdict {
  import opened Wrappers
  import opened Actions
  import opened VerdictRules

  class VBuild {
    const c: Case
    var acts: seq<Action>
    var causeKnown: bool
    var causeCode: Cause
    var causeLocked: bool
    var severity: Severity
    var stage: Stage
    var stage2: Stage
    var stageUtil: int
    var headline: string
    var gain: Option<int>

    constructor (c: Case)
      ensures this.c == c && acts == [] && Said() == SILENT && gain == None
      ensures severity == Unknown && stage == NoStage && stage2 == NoStage && stageUtil == 0
    {
      this.c := c;
      acts, causeKnown, causeCode, causeLocked := [], false, NoCause, false;
      severity, stage, stage2, stageUtil, headline, gain := Unknown, NoStage, NoStage, 0, "", None;
    }

    /** What is said about the cause so far. */
    function Said(): Diagnosis
      reads this
    {
      Diagnosis(causeKnown, causeCode, causeLocked)
    }

    method Add(impact: Impact, st: Stage, code: Code)
      modifies this`acts
      ensures acts == old(acts) + [Advice(impact, st, code, None)]
    {
      acts := acts + [Advice(impact, st, code, None)];
    }

    method AddGain(impact: Impact, st: Stage, code: Code)
      modifies this`acts
      ensures acts == old(acts) + [Advice(impact, st, code, gain)]
    {
      acts := acts + [Advice(impact, st, code, gain)];
    }

    method SetCause(known: bool, code: Cause)
      modifies this`causeKnown, this`causeCode
      ensures Said() == Hear(old(Said()), States(known, code))
      ensures causeLocked ==> Said() == old(Said())
    {
      if causeLocked { return; }
      causeKnown, causeCode := known, code;
    }

    method CauseFinal(code: Cause)
      modifies this`causeKnown, this`causeCode, this`causeLocked
      ensures Said() == Hear(old(Said()), Measures(code))
      ensures causeLocked
    {
      SetCause(true, code);
      causeLocked := true;
    }

    method Res(kind: Kind) returns (r: Option<Resource>)
      ensures r == FirstOf(c.job.resources, kind)
    {
      var rs := c.job.resources;
      for i := 0 to |rs|
        invariant FirstOf(rs[..i], kind) == None
      {
        assert rs[..i + 1][..i] == rs[..i];
        if rs[i].kind == kind {
          FirstStays(rs, kind, i + 1);
          return Some(rs[i]);
        }
      }
      assert rs[..|rs|] == rs;
      return None;
    }

    method SlotsRules(kind: Kind, st: Stage)
      modifies this`acts, this`causeKnown, this`causeCode
      ensures acts == old(acts) + SlotActs(kind, st, c, gain)
      ensures Said() == HearAll(old(Said()), SlotCauses(kind, c))
    {
      var res := Res(kind);
      if res == None { return; }
      var r := res.value;
      if r.cores <= 0 {
        if r.slots > 0 {
          Add(Verify, st, ActSlotsUnknown);
        }
        return;
      }
      var viable := r.cores;
      if r.ramGB > 0 && r.ramGB / 2 < viable {
        viable := r.ramGB / 2;
      }
      if viable <= 2 {
        AddGain(High, st, ActScaleHost);
      } else if r.slots < viable {
        AddGain(High, st, ActSlots);
        SetCause(true, Slots);
        assert SlotCauses(kind, c) == [States(true, Slots)];
        HearOne(old(Said()), States(true, Slots));
      } else {
        AddGain(High, st, ActAtCapacity);
      }
    }

    method CompressionRule()
      modifies this`acts
      ensures acts == old(acts) + CompressionActs(c)
    {
      if c.deep == None || c.deep.value.compression == None || c.deep.value.compression.value >= 5 { return; }
      Add(Medium, Target, ActCompression);
    }

    method SkewRules()
      modifies this`acts
      ensures acts == old(acts) + SkewActs(c)
    {
      if c.deep == None || |c.deep.value.vms| < 2 || c.job.repSeconds <= 0.0 { return; }
      var vms, run := c.deep.value.vms, c.job.repSeconds;
      var sum, max := SumAndLargest(vms);
      if sum <= 0.0 { return; }
      LargestDecides(vms, max, 0.6 * sum);
      LargestDecides(vms, max, 0.7 * sum);
      if |vms| >= 3 && max >= 0.6 * sum {
        Add(Medium, NoStage, ActSkew);
      } else if sum >= 0.8 * run && sum <= 1.25 * run && max <= 0.7 * sum {
        Add(Medium, NoStage, ActSerial);
      }
    }

    method SourceRules()
      modifies this`acts, this`causeKnown, this`causeCode
      ensures acts == old(acts) + SourceActs(c, gain)
      ensures Said() == HearAll(old(Said()), [SourceCause(c)])
    {
      HearOne(old(Said()), SourceCause(c));
      if c.deep == None {
        SetCause(false, SrcUnknown);
        Add(Verify, Source, ActDeep);
        Add(Verify, Source, ActSrcStorage);
        return;
      }
      var d := c.deep.value;
      if d.transport == Nbd && d.noted {
        SetCause(true, NbdHotadd);
        AddGain(High, Source, ActHotadd);
      } else if d.transport == Nbd {
        SetCause(true, NbdOnly);
        AddGain(High, Source, ActHotadd);
      } else if d.transport == OtherMode {
        SetCause(true, TransportOK);
        Add(Verify, Source, ActSrcStorage);
      } else {
        SetCause(true, SrcStore);
        Add(Verify, Source, ActSrcStorage);
      }
      SkewRules();
    }

    /** The lever of a starved repository is concurrency. */
    method FeedTarget()
      requires MeasuredCause(Target, c) == Some(StarvedTarget)
      modifies this`acts, this`causeKnown, this`causeCode
      ensures acts == old(acts) + MeasuredTargetActs(c, gain)
      ensures Said() == HearAll(old(Said()), if FeedsBySlots(c) then SlotCauses(Repository, c) else [])
    {
      var res := Res(Repository);
      if res.Some? && res.value.cores > 0 {
        SlotsRules(Repository, Target);
      } else {
        AddGain(High, Target, ActFeedTarget);
      }
      Add(Info, Target, ActNoBuyStorage);
    }

    method TargetMeasuredRules() returns (spoke: bool)
      modifies this`acts, this`causeKnown, this`causeCode, this`causeLocked, this`severity
      ensures spoke <==> TargetMeasured(c)
      ensures spoke ==> acts == old(acts) + TargetActs(c, gain)
      ensures spoke ==> Said() == HearAll(old(Said()), TargetCauses(c))
      ensures spoke ==> severity == SeverityAfter(old(severity), [Target], c)
      ensures !spoke ==> acts == old(acts) && Said() == old(Said()) && severity == old(severity)
    {
      if c.measured == None || c.measured.value.repoMBps <= 0.0 || c.job.writeMBps <= 0.0 {
        return false;
      }
      var used := Used(c.job.writeMBps, c.measured.value.repoMBps);
      TargetCausesHeard(Said(), c);
      if used < STARVED_PCT {
        CauseFinal(StarvedTarget);
        severity := Warn;
        FeedTarget();
      } else if used >= MAXED_PCT {
        CauseFinal(MaxedTarget);
        severity := Critical;
        AddGain(High, Target, ActFasterTarget);
      } else {
        CauseFinal(PartialTarget);
        SlotsRules(Repository, Target);
        Add(Medium, Target, ActFeedTarget);
      }
      CompressionRule();
      return true;
    }

    method NetworkMeasuredRules() returns (spoke: bool)
      modifies this`acts, this`causeKnown, this`causeCode, this`causeLocked, this`severity
      ensures spoke <==> NetworkMeasured(c)
      ensures spoke ==> acts == old(acts) + NetworkActs(c, gain)
      ensures spoke ==> Said() == HearAll(old(Said()), NetworkCauses(c))
      ensures spoke ==> severity == SeverityAfter(old(severity), [Network], c)
      ensures !spoke ==> acts == old(acts) && Said() == old(Said()) && severity == old(severity)
    {
      if c.measured == None || c.measured.value.linkMbps <= 0.0 || c.job.writeMBps <= 0.0 {
        return false;
      }
      var used := Used(c.job.writeMBps * 8.0, c.measured.value.linkMbps);
      HearOne(Said(), Measures(MeasuredCause(Network, c).value));
      if used < STARVED_PCT {
        CauseFinal(StarvedNet);
        severity := Warn;
        AddGain(High, Network, ActFeedNet);
        return true;
      }
      CauseFinal(MaxedNet);
      severity := Critical;
      AddGain(High, Network, ActNetUpgrade);
      return true;
    }

    /** A cause that only fills a gap. */
    method Guess(code: Cause)
      modifies this`causeKnown, this`causeCode
      ensures Said() == HearAll(old(Said()), [Guesses(code)])
    {
      HearOne(Said(), Guesses(code));
      if !causeKnown {
        SetCause(true, code);
      }
    }

    method StageRules(st: Stage)
      modifies this`acts, this`causeKnown, this`causeCode, this`causeLocked, this`severity
      ensures acts == old(acts) + StageActs(st, c, gain)
      ensures Said() == HearAll(old(Said()), CausesOf(st, c))
      ensures severity == SeverityAfter(old(severity), [st], c)
    {
      match st
      case Source => SourceRules();
      case Proxy =>
        HearConcat(Said(), [Guesses(ProxyProc)], SlotCauses(ProxyHost, c));
        Guess(ProxyProc);
        SlotsRules(ProxyHost, Proxy);
      case Network =>
        var spoke := NetworkMeasuredRules();
        if spoke { return; }
        Guess(NetLink);
        AddGain(High, Network, ActNetUpgrade);
        Add(Verify, Network, ActIperf);
      case Target =>
        HearConcat(Said(), [Guesses(RepoWrite)], TargetCauses(c));
        Guess(RepoWrite);
        var spoke := TargetMeasuredRules();
        if spoke { return; }
        SlotsRules(Repository, Target);
        Add(Verify, Target, ActFio);
        CompressionRule();
      case Other(_) =>
      case NoStage =>
    }

    method CrossCutting()
      modifies this`acts
      ensures acts == old(acts) + CrossActs(c, stage)
    {
      SpaceRules();
      if c.job.confidence == Low {
        Add(Verify, NoStage, ActWindow);
      }
      if c.deep == None && stage != NoStage && stage != Source {
        Add(Verify, stage, ActDeep);
      }
    }

    method SpaceRules()
      modifies this`acts
      ensures acts == old(acts) + SpaceActs(c.job.resources)
    {
      var rs := c.job.resources;
      for i := 0 to |rs|
        invariant acts == old(acts) + SpaceActs(rs[..i])
      {
        assert rs[..i + 1][..i] == rs[..i];
        var r := rs[i];
        if r.kind != Repository || r.capacityGB == None || r.freeGB == None || r.capacityGB.value <= 0.0 {
          continue;
        }
        var pct := Truncated(r.freeGB.value / r.capacityGB.value * 100.0);
        if pct >= 10 {
          continue;
        }
        Add(if pct < 5 then High else Hygiene, Target, ActRepoFree);
      }
      assert rs[..|rs|] == rs;
    }

    method Finish()
      modifies this`acts
      ensures acts == Ranked(old(acts))
    {
      acts := Rank(acts);
    }
  }

  method SumAndLargest(vms: seq<real>) returns (sum: real, max: real)
    ensures sum == Total(vms) && LargestOf(vms, max)
  {
    sum, max := 0.0, 0.0;
    for i := 0 to |vms|
      invariant sum == Total(vms[..i]) && LargestOf(vms[..i], max)
    {
      assert vms[..i + 1][..i] == vms[..i];
      OneMoreCandidate(vms[..i], max, vms[i]);
      assert vms[..i + 1] == vms[..i] + [vms[i]];
      sum := sum + vms[i];
      if vms[i] > max { max := vms[i]; }
    }
    assert vms[..|vms|] == vms;
  }

  lemma OneMoreCandidate(xs: seq<real>, max: real, x: real)
    requires LargestOf(xs, max)
    ensures LargestOf(xs + [x], if x > max then x else max)
  {
  }

  /** `max` is the largest of the seconds, or 0 where none is above 0. */
  predicate LargestOf(xs: seq<real>, max: real) {
    max >= 0.0 && (max == 0.0 || max in xs) && forall x :: x in xs ==> x <= max
  }

  lemma LargestDecides(xs: seq<real>, max: real, bar: real)
    requires LargestOf(xs, max) && bar > 0.0
    ensures max >= bar <==> exists x :: x in xs && x >= bar
    ensures max <= bar <==> forall x :: x in xs ==> x <= bar
  {
  }

  lemma HearOne(f: Diagnosis, e: Said)
    ensures HearAll(f, [e]) == Hear(f, e)
  {
    assert [e][..0] == [];
    assert HearAll(f, []) == f;
  }

  lemma TargetCausesHeard(f: Diagnosis, c: Case)
    requires TargetMeasured(c)
    ensures var m := MeasuredCause(Target, c).value;
      HearAll(f, TargetCauses(c))
        == HearAll(Hear(f, Measures(m)),
                   if FeedsBySlots(c) || m == PartialTarget then SlotCauses(Repository, c) else [])
  {
    var m := MeasuredCause(Target, c).value;
    HearConcat(f, [Measures(m)], if FeedsBySlots(c) || m == PartialTarget then SlotCauses(Repository, c) else []);
    HearOne(f, Measures(m));
  }

  lemma {:induction false} FirstStays(rs: seq<Resource>, kind: Kind, n: nat)
    requires n <= |rs| && FirstOf(rs[..n], kind).Some?
    ensures FirstOf(rs, kind) == FirstOf(rs[..n], kind)
  {
    if n < |rs| {
      assert rs[..|rs| - 1][..n] == rs[..n];
      FirstStays(rs[..|rs| - 1], kind, n);
    } else {
      assert rs[..n] == rs;
    }
  }
}
