/**
  How the environment verdict is finished: repository space, reliability, proxy sizing and the
  closing findings are folded into it in this order.
 */
module Pipeline {
  import opened Wrappers
  import opened Sorting
  import opened Actions
  import opened Ranking
  import opened Quotients
  import Findings
  import Reliability

  datatype DownHost = DownHost(name: string, repos: seq<string>)

  datatype Reliable = Reliable(failedRuns: int, failures: seq<Reliability.Failure>, downHosts: seq<DownHost>)

  // --- repository space -------------------------------------------------------------------

  const GIB := 0x4000_0000

  datatype RepoState = RepoState(id: string, name: string, freeGB: int)

  function PerDay(st: RepoState, perDay: map<string, int>): int {
    if st.id in perDay then perDay[st.id] else 0
  }

  /** The estimate means something: the repository grows and has room. */
  predicate HasRunway(st: RepoState, perDay: map<string, int>) {
    PerDay(st, perDay) >= GIB / 4 && st.freeGB > 0
  }

  function Runway(st: RepoState, perDay: map<string, int>): (days: int)
    requires HasRunway(st, perDay)
    ensures days >= 0
  {
    var rate := PerDay(st, perDay);
    assert GIB / 4 > 0;
    st.freeGB * GIB / rate
  }

  function RepoName(st: RepoState, names: map<string, string>): string {
    if st.id in names && names[st.id] != "" then names[st.id]
    else if st.name != "" then st.name
    else "repository"
  }

  /** Repository `i` fills first; among equals, it is the one listed first. */
  predicate FillsFirst(states: seq<RepoState>, perDay: map<string, int>, i: nat)
    requires i < |states|
  {
    && HasRunway(states[i], perDay)
    && forall j :: 0 <= j < |states| && HasRunway(states[j], perDay) ==> Sooner(states, perDay, i, j)
  }

  predicate Sooner(states: seq<RepoState>, perDay: map<string, int>, i: nat, j: nat)
    requires i < |states| && j < |states|
    requires HasRunway(states[i], perDay) && HasRunway(states[j], perDay)
  {
    var a, b := Runway(states[i], perDay), Runway(states[j], perDay);
    a < b || (a == b && i <= j)
  }

  predicate NoRunway(states: seq<RepoState>, perDay: map<string, int>) {
    forall i :: 0 <= i < |states| ==> !HasRunway(states[i], perDay)
  }

  /** The repository that fills first, if any repository has a runway. */
  function FirstToFill(states: seq<RepoState>, perDay: map<string, int>): (r: Option<nat>)
    ensures r == None <==> NoRunway(states, perDay)
    ensures r.Some? ==> r.value < |states| && FillsFirst(states, perDay, r.value)
  {
    if states == [] then None
    else
      var init, last := states[..|states| - 1], states[|states| - 1];
      var before := FirstToFill(init, perDay);
      if !HasRunway(last, perDay) then
        FillsFirstOneMore(states, perDay, before);
        before
      else if before == None || Runway(last, perDay) < Runway(states[before.value], perDay) then
        FillsFirstOneMore(states, perDay, before);
        Some(|init|)
      else
        FillsFirstOneMore(states, perDay, before);
        before
  }

  lemma FillsFirstOneMore(states: seq<RepoState>, perDay: map<string, int>, before: Option<nat>)
    requires states != []
    requires before == None <==> NoRunway(states[..|states| - 1], perDay)
    requires before.Some? ==> before.value < |states| - 1 && FillsFirst(states[..|states| - 1], perDay, before.value)
    ensures NoRunway(states, perDay) <==> before == None && !HasRunway(states[|states| - 1], perDay)
    ensures var last := |states| - 1;
      && (before.Some? && (HasRunway(states[last], perDay) ==> Sooner(states, perDay, before.value, last)) ==>
            FillsFirst(states, perDay, before.value))
      && (HasRunway(states[last], perDay) && (before.Some? ==> !Sooner(states, perDay, before.value, last)) ==>
            FillsFirst(states, perDay, last))
  {
    var init := states[..|states| - 1];
    assert forall j :: 0 <= j < |init| ==> init[j] == states[j];
    if before.Some? {
      assert HasRunway(states[before.value], perDay);
      forall j | 0 <= j < |init| && HasRunway(states[j], perDay) ensures Sooner(states, perDay, before.value, j) {
        assert Sooner(init, perDay, before.value, j);
      }
    }
  }

  /** A quarter of a GiB or more a day is written to it, and it has room. */
  predicate Fills(st: RepoState, perDay: map<string, int>) {
    st.id in perDay && perDay[st.id] >= 0x1000_0000 && st.freeGB > 0
  }

  /** The room lasts for `d` whole days and not for one more. */
  predicate LastsFor(st: RepoState, perDay: map<string, int>, d: int)
    requires Fills(st, perDay)
  {
    d * perDay[st.id] <= st.freeGB * 0x4000_0000 < (d + 1) * perDay[st.id]
  }

  /** It is called by its known name, else by the one it states. */
  predicate CalledBy(st: RepoState, names: map<string, string>, name: string) {
    && (st.id in names && names[st.id] != "" ==> name == names[st.id])
    && (st.id !in names || names[st.id] == "" ==> name == if st.name == "" then "repository" else st.name)
  }

  /** Repository `i` lasts for `days` days, and no other fills in fewer; among equals it is the first. */
  ghost predicate FirstFull(states: seq<RepoState>, perDay: map<string, int>, i: int, days: int) {
    && 0 <= i < |states| && Fills(states[i], perDay) && LastsFor(states[i], perDay, days)
    && forall j, d :: 0 <= j < |states| && Fills(states[j], perDay) && LastsFor(states[j], perDay, d) ==>
      days < d || (days == d && i <= j)
  }

  /** The repository named is the first to be full; without one, what was named before stays. */
  ghost predicate SpaceReads(states: seq<RepoState>, names: map<string, string>, perDay: map<string, int>,
                             repo: string, days: int, before: string, daysBefore: int)
  {
    if forall i :: 0 <= i < |states| ==> !Fills(states[i], perDay) then repo == before && days == daysBefore
    else exists i :: FirstFull(states, perDay, i, days) && CalledBy(states[i], names, repo)
  }

  lemma RunwayInDays(st: RepoState, perDay: map<string, int>)
    ensures HasRunway(st, perDay) <==> Fills(st, perDay)
    ensures Fills(st, perDay) ==> LastsFor(st, perDay, Runway(st, perDay))
  {
    if Fills(st, perDay) { FloorBound(st.freeGB * GIB, perDay[st.id]); }
  }

  lemma OneNumberOfDays(st: RepoState, perDay: map<string, int>, d: int, e: int)
    requires Fills(st, perDay) && LastsFor(st, perDay, d) && LastsFor(st, perDay, e)
    ensures d == e
  {
    Cancel(perDay[st.id], d, e + 1);
    Cancel(perDay[st.id], e, d + 1);
    assert d * perDay[st.id] < perDay[st.id] * (e + 1) && e * perDay[st.id] < perDay[st.id] * (d + 1);
  }

  lemma FirstToFillIsFirstFull(states: seq<RepoState>, perDay: map<string, int>)
    ensures FirstToFill(states, perDay) == None <==> forall i :: 0 <= i < |states| ==> !Fills(states[i], perDay)
    ensures FirstToFill(states, perDay).Some? ==>
      var i := FirstToFill(states, perDay).value; FirstFull(states, perDay, i, Runway(states[i], perDay))
  {
    forall i | 0 <= i < |states| ensures HasRunway(states[i], perDay) <==> Fills(states[i], perDay) {
      RunwayInDays(states[i], perDay);
    }
    if FirstToFill(states, perDay).Some? {
      var i := FirstToFill(states, perDay).value;
      RunwayInDays(states[i], perDay);
      forall j, d | 0 <= j < |states| && Fills(states[j], perDay) && LastsFor(states[j], perDay, d)
        ensures Runway(states[i], perDay) < d || (Runway(states[i], perDay) == d && i <= j)
      {
        RunwayInDays(states[j], perDay);
        OneNumberOfDays(states[j], perDay, d, Runway(states[j], perDay));
        assert Sooner(states, perDay, i, j);
      }
    }
  }

  lemma NamedFirstFull(states: seq<RepoState>, names: map<string, string>, perDay: map<string, int>,
                       repo: string, days: int, before: string, daysBefore: int)
    requires var first := FirstToFill(states, perDay);
      && (first == None ==> repo == before && days == daysBefore)
      && (first.Some? ==>
            repo == RepoName(states[first.value], names) && days == Runway(states[first.value], perDay))
    ensures SpaceReads(states, names, perDay, repo, days, before, daysBefore)
  {
    FirstToFillIsFirstFull(states, perDay);
    if FirstToFill(states, perDay).Some? {
      assert CalledBy(states[FirstToFill(states, perDay).value], names, repo);
    }
  }

  // --- proxy sizing -----------------------------------------------------------------------

  datatype Sized = Deficit | Oversized | Enough | NoData

  datatype ProxySizing = ProxySizing(proxy: string, slots: int, viable: int, state: Sized, overload: int)

  function SizingState(slots: int, viable: int): Sized {
    if viable <= 0 || slots <= 0 then NoData
    else if slots > viable then Deficit
    else if viable >= slots * 2 then Oversized
    else Enough
  }

  function SizeOf(proxy: string, slots: int, cores: int, ramGB: int): ProxySizing {
    if cores > 0 && ramGB > 0 then
      var viable := if ramGB / 2 < cores then ramGB / 2 else cores;
      var state := SizingState(slots, viable);
      ProxySizing(proxy, slots, viable, state, if state == Deficit then slots - viable else 0)
    else ProxySizing(proxy, slots, 0, NoData, 0)
  }

  /** The host lacks a core or 2 GB for some slot. */
  predicate ShortOf(slots: int, cores: int, ramGB: int) {
    slots > cores || 2 * slots > ramGB
  }

  /**
    A deficit is a host short of one core and 2 GB per slot, but only a host that carries at
    least one slot is judged: below that the row says there is no data.  The overload is what
    must go; it is at least what remains when the host carries no more than half the slots.
   */
  lemma DeficitIff(proxy: string, slots: int, cores: int, ramGB: int)
    ensures var r := SizeOf(proxy, slots, cores, ramGB);
      && (r.state == Deficit <==> cores >= 1 && ramGB >= 2 && slots > 0 && ShortOf(slots, cores, ramGB))
      && (r.state == NoData <==> cores < 1 || ramGB < 2 || slots <= 0)
      && (r.state == Oversized <==> cores >= 1 && ramGB >= 2 && slots > 0 && !ShortOf(2 * slots, cores, ramGB))
      && (r.state == Deficit ==>
            !ShortOf(slots - r.overload, cores, ramGB) && ShortOf(slots - r.overload + 1, cores, ramGB))
      && (r.state == Deficit ==> (r.overload >= r.viable <==> ShortOf(slots / 2 + 1, cores, ramGB)))
  {
  }

  /** A host below one slot has no data, however many slots it runs. */
  lemma AHostBelowOneSlotIsNotJudged(proxy: string, slots: int)
    requires slots > 1
    ensures SizeOf(proxy, slots, 1, 1).state == NoData && ShortOf(slots, 1, 1)
  {
  }

  function Deficits(rows: seq<ProxySizing>): (r: seq<ProxySizing>)
    ensures forall x :: x in r <==> x in rows && x.state == Deficit
  {
    if rows == [] then []
    else
      assert rows == [rows[0]] + rows[1..];
      (if rows[0].state == Deficit then [rows[0]] else []) + Deficits(rows[1..])
  }

  function SizingActs(rows: seq<ProxySizing>): (r: seq<Action>)
    ensures |r| <= 1
    ensures r != [] <==> exists x :: x in rows && x.state == Deficit
  {
    var short := Deficits(rows);
    if short == [] then []
    else
      assert short[0] in short;
      [Finding(if short[0].overload >= short[0].viable then High else Medium, ActEnvSizing)]
  }

  // --- reliability ------------------------------------------------------------------------

  function NowOnly(fs: seq<Reliability.Failure>): (r: seq<Reliability.Failure>)
    ensures forall x :: x in r <==> x in fs && x.now
    ensures fs != [] && fs[0].now ==> r != [] && r[0] == fs[0]
  {
    if fs == [] then []
    else
      assert fs == [fs[0]] + fs[1..];
      (if fs[0].now then [fs[0]] else []) + NowOnly(fs[1..])
  }

  function HostAct(h: DownHost): Action {
    if h.repos != [] then Finding(High, ActEnvHostDown) else Finding(Medium, ActEnvHostDownBare)
  }

  function HostActs(hosts: seq<DownHost>): (r: seq<Action>)
    ensures |r| == |hosts|
    ensures forall i :: 0 <= i < |r| ==> r[i] == HostAct(hosts[i])
  {
    seq(|hosts|, i requires 0 <= i < |hosts| => HostAct(hosts[i]))
  }

  function ReliabilityActs(rel: Reliable): seq<Action> {
    (if NowOnly(rel.failures) != [] then [Finding(High, ActEnvFailing)]
     else if rel.failedRuns > 0 then [Finding(Medium, ActEnvPastFailures)]
     else []) + HostActs(rel.downHosts)
  }

  // --- closing findings -------------------------------------------------------------------

  function FinishActs(waitPct: int, waitSec: real, stale: nat, fillRepo: string, fillDays: int): seq<Action> {
    (if waitPct >= 10 && waitSec >= 300.0 then [Finding(if waitPct >= 25 then High else Medium, ActEnvWaits)]
     else [])
    + (if stale > 0 then [Finding(Medium, ActEnvStale)] else [])
    + if fillRepo != "" && fillDays < 30 then [Finding(if fillDays < 7 then High else Medium, ActEnvSpace)] else []
  }

  predicate Has(acts: seq<Action>, impact: Impact, code: Code) {
    exists a :: a in acts && a.code == code && a.impact == impact
  }

  predicate HasCode(acts: seq<Action>, code: Code) {
    exists a :: a in acts && a.code == code
  }

  /** Which closing findings there are, and how urgent: each by its thresholds, each at most once. */
  lemma ClosingFindings(waitPct: int, waitSec: real, stale: nat, fillRepo: string, fillDays: int)
    ensures var acts := FinishActs(waitPct, waitSec, stale, fillRepo, fillDays);
      && |acts| <= 3
      && (HasCode(acts, ActEnvWaits) <==> waitPct >= 10 && waitSec >= 300.0)
      && (Has(acts, High, ActEnvWaits) <==> waitPct >= 25 && waitSec >= 300.0)
      && (HasCode(acts, ActEnvStale) <==> stale > 0)
      && (HasCode(acts, ActEnvSpace) <==> fillRepo != "" && fillDays < 30)
      && (Has(acts, High, ActEnvSpace) <==> fillRepo != "" && fillDays < 7)
      && (acts == [] <==> !(waitPct >= 10 && waitSec >= 300.0) && stale == 0 && (fillRepo == "" || fillDays >= 30))
  {
    var waits :=
      if waitPct >= 10 && waitSec >= 300.0 then [Finding(if waitPct >= 25 then High else Medium, ActEnvWaits)]
      else [];
    var old_ := if stale > 0 then [Finding(Medium, ActEnvStale)] else [];
    var space :=
      if fillRepo != "" && fillDays < 30 then [Finding(if fillDays < 7 then High else Medium, ActEnvSpace)]
      else [];
    assert FinishActs(waitPct, waitSec, stale, fillRepo, fillDays) == waits + old_ + space;
    if waits != [] { assert waits[0] in waits + old_ + space; }
    if old_ != [] { assert old_[0] in waits + old_ + space; }
    if space != [] { assert space[0] in waits + old_ + space; }
  }

  /** Completed runs out of those attempted; `before` while nothing was attempted. */
  function SuccessShare(runs: int, failedRuns: int, before: int): int {
    if runs + failedRuns > 0 then Findings.Pct(runs, runs + failedRuns) else before
  }

  /** The share of the completed runs, to the nearest percent; without any run it stays what it was. */
  lemma SuccessIsAShare(runs: nat, failedRuns: nat, before: int)
    ensures var pct, all := SuccessShare(runs, failedRuns, before), runs + failedRuns;
      if all == 0 then pct == before
      else 0 <= pct <= 100 && 2 * all * pct <= 200 * runs + all < 2 * all * (pct + 1)
  {
    if runs + failedRuns > 0 {
      Findings.PctInRange(runs, runs + failedRuns);
      FloorBound(200 * runs + (runs + failedRuns), 2 * (runs + failedRuns));
    }
  }

  class EnvVerdict {
    var runs: int
    var successPct: int
    var severity: Severity
    var headline: string
    var about: Option<Reliability.Failure>  // the failure the headline is about
    var waitPct: int
    var waitSec: real
    var stale: nat
    var fillRepo: string
    var fillDays: int
    var actions: seq<Action>

    /** The verdict of a window in which nothing completed. */
    constructor NothingCompleted()
      ensures severity == Unknown && headline == "env.nodata" && about == None && runs == 0 && successPct == -1
      ensures waitPct == 0 && waitSec == 0.0 && stale == 0 && fillRepo == "" && fillDays == 0 && actions == []
    {
      runs, successPct, severity, headline, about := 0, -1, Unknown, "env.nodata", None;
      waitPct, waitSec, stale, fillRepo, fillDays, actions := 0, 0.0, 0, "", 0, [];
    }

    method AddCapacity(states: seq<RepoState>, names: map<string, string>, perDay: map<string, int>)
      modifies this`fillRepo, this`fillDays
      ensures SpaceReads(states, names, perDay, fillRepo, fillDays, old(fillRepo), old(fillDays))
    {
      var best := -1;
      for k := 0 to |states|
        invariant var first := FirstToFill(states[..k], perDay);
          && (first == None ==> best == -1 && fillRepo == old(fillRepo) && fillDays == old(fillDays))
          && (first.Some? ==>
                && best == fillDays == Runway(states[first.value], perDay)
                && fillRepo == RepoName(states[first.value], names))
      {
        var st := states[k];
        assert states[..k + 1][..k] == states[..k];
        if PerDay(st, perDay) < GIB / 4 || st.freeGB * GIB <= 0 {
          assert !HasRunway(st, perDay);
          continue;
        }
        var days := Runway(st, perDay);
        if best < 0 || days < best {
          best := days;
          fillRepo, fillDays := RepoName(st, names), days;
        }
      }
      assert states[..|states|] == states;
      NamedFirstFull(states, names, perDay, fillRepo, fillDays, old(fillRepo), old(fillDays));
    }

    method AddReliability(rel: Reliable)
      modifies this`successPct, this`severity, this`headline, this`about, this`actions
      ensures successPct == SuccessShare(runs, rel.failedRuns, old(successPct))
      ensures NowOnly(rel.failures) != [] ==>
        severity == Critical && headline == "env.failing" && about == Some(NowOnly(rel.failures)[0])
      ensures NowOnly(rel.failures) == [] ==>
        severity == old(severity) && headline == old(headline) && about == old(about)
      ensures actions == Fold(ReliabilityActs(rel), old(actions), [])
    {
      successPct := SuccessShare(runs, rel.failedRuns, successPct);
      var failingNow := NowOnly(rel.failures);
      var acts: seq<Action> := [];
      if failingNow != [] {
        severity, headline, about := Critical, "env.failing", Some(failingNow[0]);
        acts := [Finding(High, ActEnvFailing)];
      } else if rel.failedRuns > 0 {
        acts := [Finding(Medium, ActEnvPastFailures)];
      }
      ghost var first := acts;
      for i := 0 to |rel.downHosts|
        invariant acts == first + HostActs(rel.downHosts)[..i]
      {
        acts := acts + [HostAct(rel.downHosts[i])];
      }
      assert acts == ReliabilityActs(rel);
      if acts == [] { return; }
      assert acts + actions + [] == acts + actions;
      actions := Rank(acts + actions);
    }

    method AddSizing(rows: seq<ProxySizing>)
      modifies this`actions
      ensures actions == Fold([], old(actions), SizingActs(rows))
    {
      if rows == [] { return; }
      var short: seq<ProxySizing> := Deficits(rows);
      if short == [] { return; }
      var top := short[0];
      var act := Finding(if top.overload >= top.viable then High else Medium, ActEnvSizing);
      assert [] + actions + [act] == actions + [act];
      actions := Rank(actions + [act]);
    }

    method FinishActions()
      modifies this`actions
      ensures actions == Fold([], old(actions), FinishActs(waitPct, waitSec, stale, fillRepo, fillDays))
    {
      var acts: seq<Action> := [];
      if waitPct >= 10 && waitSec >= 300.0 {
        acts := acts + [Finding(if waitPct >= 25 then High else Medium, ActEnvWaits)];
      }
      if stale > 0 {
        acts := acts + [Finding(Medium, ActEnvStale)];
      }
      if fillRepo != "" && fillDays < 30 {
        acts := acts + [Finding(if fillDays < 7 then High else Medium, ActEnvSpace)];
      }
      assert acts == FinishActs(waitPct, waitSec, stale, fillRepo, fillDays);
      if acts == [] { return; }
      assert [] + actions + acts == actions + acts;
      actions := Rank(actions + acts);
    }
  }

  twostate predicate Untouched(v: EnvVerdict)
    reads v
  {
    v.runs == old(v.runs) && v.waitPct == old(v.waitPct) && v.waitSec == old(v.waitSec) && v.stale == old(v.stale)
  }

  /** What the closing stages add behind the list. */
  function Behind(v: EnvVerdict, sizing: seq<ProxySizing>): seq<Action>
    reads v
  {
    SizingActs(sizing) + FinishActs(v.waitPct, v.waitSec, v.stale, v.fillRepo, v.fillDays)
  }

  predicate FailingJob(sess: seq<Reliability.Session>) {
    exists i :: 0 <= i < |sess| && sess[i].failed && Reliability.IsNewest(sess, i)
  }

  /** The failure the headline names: it is failing now, and nothing failing now failed more often. */
  predicate WorstOf(f: Reliability.Failure, failures: seq<Reliability.Failure>) {
    && f in failures && f.now
    && forall g :: g in failures && g.now ==> g.count <= f.count
  }

  /**
    The end of the environment analysis.  A job whose newest run failed comes out on top,
    whatever the earlier stages found and the later ones add.
   */
  method Conclude(asmt: EnvVerdict?, sess: seq<Reliability.Session>, hosts: seq<DownHost>, states: seq<RepoState>,
                  names: map<string, string>, perDay: map<string, int>, sizing: seq<ProxySizing>)
    returns (v: EnvVerdict?, rel: Reliable)
    modifies asmt
    ensures rel.failedRuns == Reliability.FailedRuns(sess) && rel.downHosts == hosts
    ensures StableSortOf(rel.failures, Reliability.Rows(sess), Reliability.ByUrgency)
    ensures v == null <==> asmt == null && rel.failedRuns <= 0 && hosts == []
    ensures v != null ==> asmt == v || (asmt == null && fresh(v))
    ensures v != null ==>
      v.actions == Fold(ReliabilityActs(rel), if asmt == null then [] else old(asmt.actions), Behind(v, sizing))
    ensures v != null ==>
      v.successPct == SuccessShare(v.runs, rel.failedRuns, if asmt == null then -1 else old(asmt.successPct))
    ensures asmt != null ==>
      && Untouched(asmt)
      && SpaceReads(states, names, perDay, asmt.fillRepo, asmt.fillDays, old(asmt.fillRepo), old(asmt.fillDays))
    ensures v != null && asmt == null ==>
      v.runs == 0 && SpaceReads(states, names, perDay, v.fillRepo, v.fillDays, "", 0)
    ensures FailingJob(sess) ==>
      && v != null && v.severity == Critical && v.headline == "env.failing"
      && v.about.Some? && WorstOf(v.about.value, rel.failures)
      && |v.actions| > 0 && v.actions[0] == Finding(High, ActEnvFailing).(rank := 1)
    ensures !FailingJob(sess) && asmt != null ==>
      v.severity == old(asmt.severity) && v.headline == old(asmt.headline)
    ensures !FailingJob(sess) && asmt == null && v != null ==> v.severity == Unknown && v.headline == "env.nodata"
  {
    var failedRuns, failures := Reliability.FailuresOf(sess);
    rel := Reliable(failedRuns, failures, hosts);
    v := asmt;
    if v == null && (failedRuns > 0 || hosts != []) {
      v := new EnvVerdict.NothingCompleted();
    }
    if v != null {
      Complete(v, rel, states, names, perDay, sizing);
    }
    NowRowsAreFirst(sess, failures);
    FailingJobsFailed(sess);
  }

  method Complete(v: EnvVerdict, rel: Reliable, states: seq<RepoState>, names: map<string, string>,
                  perDay: map<string, int>, sizing: seq<ProxySizing>)
    modifies v`fillRepo, v`fillDays, v`successPct, v`severity, v`headline, v`about, v`actions
    ensures SpaceReads(states, names, perDay, v.fillRepo, v.fillDays, old(v.fillRepo), old(v.fillDays))
    ensures v.successPct == SuccessShare(v.runs, rel.failedRuns, old(v.successPct))
    ensures v.actions == Fold(ReliabilityActs(rel), old(v.actions), Behind(v, sizing))
    ensures NowOnly(rel.failures) != [] ==>
      && v.severity == Critical && v.headline == "env.failing" && v.about == Some(NowOnly(rel.failures)[0])
      && |v.actions| > 0 && v.actions[0] == Finding(High, ActEnvFailing).(rank := 1)
    ensures NowOnly(rel.failures) == [] ==> v.severity == old(v.severity) && v.headline == old(v.headline)
  {
    v.AddCapacity(states, names, perDay);
    ghost var list := v.actions;
    v.AddReliability(rel);
    FoldBehind(v, rel, list, sizing);
  }

  method FoldBehind(v: EnvVerdict, rel: Reliable, ghost list: seq<Action>, sizing: seq<ProxySizing>)
    requires v.actions == Fold(ReliabilityActs(rel), list, [])
    modifies v`actions
    ensures v.actions == Fold(ReliabilityActs(rel), list, Behind(v, sizing))
    ensures NowOnly(rel.failures) != [] ==>
      |v.actions| > 0 && v.actions[0] == Finding(High, ActEnvFailing).(rank := 1)
  {
    v.AddSizing(sizing);
    v.FinishActions();
    StagesRankOnce(ReliabilityActs(rel), list, SizingActs(sizing),
                   FinishActs(v.waitPct, v.waitSec, v.stale, v.fillRepo, v.fillDays));
    if NowOnly(rel.failures) != [] {
      FailingNowIsOnTop(rel, list, Behind(v, sizing));
    }
  }

  /** A finding of a failing job is on top of every list it is folded into. */
  lemma FailingNowIsOnTop(rel: Reliable, list: seq<Action>, back: seq<Action>)
    requires NowOnly(rel.failures) != []
    ensures var r := Fold(ReliabilityActs(rel), list, back);
      |r| > 0 && r[0] == Finding(High, ActEnvFailing).(rank := 1)
  {
    FirstHighIsOnTop(ReliabilityActs(rel) + list + back, 0);
  }

  lemma FailingJobsFailed(sess: seq<Reliability.Session>)
    ensures FailingJob(sess) ==> Reliability.FailedRuns(sess) > 0
  {
    if i :| 0 <= i < |sess| && sess[i].failed && Reliability.IsNewest(sess, i) {
      FailedIsCounted(sess, i);
    }
  }

  lemma {:induction false} FailedIsCounted(sess: seq<Reliability.Session>, i: nat)
    requires i < |sess| && sess[i].failed
    ensures Reliability.FailedRuns(sess) > 0
  {
    if i < |sess| - 1 { FailedIsCounted(sess[..|sess| - 1], i); }
  }

  /** The rows failing now lead the sorted list, the most frequent first. */
  lemma NowRowsAreFirst(sess: seq<Reliability.Session>, failures: seq<Reliability.Failure>)
    requires StableSortOf(failures, Reliability.Rows(sess), Reliability.ByUrgency)
    ensures FailingJob(sess) <==> NowOnly(failures) != []
    ensures FailingJob(sess) ==> WorstOf(NowOnly(failures)[0], failures)
  {
    Reliability.SomethingFailsNowIff(sess);
    StableSortPermutes(failures, Reliability.Rows(sess), Reliability.ByUrgency);
    assert forall r :: r in Reliability.Rows(sess) <==> r in multiset(Reliability.Rows(sess));
    assert forall r :: r in failures <==> r in multiset(failures);
    if NowOnly(failures) != [] {
      assert NowOnly(failures)[0] in failures;
    }
    if FailingJob(sess) {
      var r :| r in Reliability.Rows(sess) && r.now;
      assert r in failures;
      var i :| 0 <= i < |failures| && failures[i] == r;
      assert i > 0 ==> !Before(Reliability.ByUrgency(failures[i]), Reliability.ByUrgency(failures[0]));
      assert failures[0].now;
      forall g | g in failures && g.now ensures g.count <= failures[0].count {
        var j :| 0 <= j < |failures| && failures[j] == g;
        assert j > 0 ==> !Before(Reliability.ByUrgency(failures[j]), Reliability.ByUrgency(failures[0]));
      }
    }
  }

  /** No stage loses an action, and actions of one impact stay in the order they had. */
  lemma StagesKeepTheList(front: seq<Action>, list: seq<Action>, back: seq<Action>, k: Key)
    requires list == Ranked(list)
    ensures var r := Fold(front, list, back);
      && Class(Bares(r), ByImpact, k)
           == Class(Bares(front), ByImpact, k) + Class(Bares(list), ByImpact, k) + Class(Bares(back), ByImpact, k)
      && multiset(Bares(r)) == multiset(Bares(front)) + multiset(Bares(list)) + multiset(Bares(back))
      && forall i :: 0 <= i < |r| ==> r[i].rank == i + 1
  {
    assert Fold(front, list, back) == Ranked(front + list + back) by {
      if front == [] && back == [] { assert front + list + back == list; }
    }
    AddingKeeps(front, list, back, k);
    RankingIsAStablePermutation(front + list + back);
  }
}
