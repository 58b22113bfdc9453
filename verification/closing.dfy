/**
  What the closing stages add to the environment verdict: each finding, how urgent it is, and
  how often it comes, told from the figures.
 */
module Closing {
  import opened Actions
  import opened Ranking
  import opened Pipeline

  /** The figures of the window. */
  datatype Window = Window(waitPct: int, waitSec: real, stale: nat, fillRepo: string, fillDays: int)

  predicate FailsNow(rel: Reliable) {
    exists i :: 0 <= i < |rel.failures| && rel.failures[i].now
  }

  function HostsDown(rel: Reliable, withRepos: bool): set<int> {
    set i | 0 <= i < |rel.downHosts| && (rel.downHosts[i].repos != []) == withRepos
  }

  /** The first proxy with more slots than its host carries. */
  predicate FirstShort(rows: seq<ProxySizing>, i: int) {
    0 <= i < |rows| && rows[i].state == Deficit && forall k :: 0 <= k < i ==> rows[k].state != Deficit
  }

  /** For the failures and the hosts that are down. */
  ghost function DueForFailures(rel: Reliable, a: Action): nat {
    if a == Finding(High, ActEnvFailing) && FailsNow(rel) then 1
    else if a == Finding(Medium, ActEnvPastFailures) && !FailsNow(rel) && rel.failedRuns > 0 then 1
    else if a == Finding(High, ActEnvHostDown) then |HostsDown(rel, true)|
    else if a == Finding(Medium, ActEnvHostDownBare) then |HostsDown(rel, false)|
    else 0
  }

  /** For the first proxy that is short: urgent when as many slots must go as remain. */
  ghost function DueForSlots(rows: seq<ProxySizing>, a: Action): nat {
    if exists i :: FirstShort(rows, i) && a == Finding(Sharpness(rows[i]), ActEnvSizing) then 1 else 0
  }

  function Sharpness(r: ProxySizing): Impact {
    if r.overload >= r.viable then High else Medium
  }

  /** For the waiting. */
  ghost function DueForWaiting(f: Window, a: Action): nat {
    if a == Finding(High, ActEnvWaits) && f.waitPct >= 25 && f.waitSec >= 300.0 then 1
    else if a == Finding(Medium, ActEnvWaits) && 10 <= f.waitPct < 25 && f.waitSec >= 300.0 then 1
    else 0
  }

  /** For the machines without a fresh copy. */
  ghost function DueForStale(f: Window, a: Action): nat {
    if a == Finding(Medium, ActEnvStale) && f.stale > 0 then 1 else 0
  }

  /** For the space. */
  ghost function DueForSpace(f: Window, a: Action): nat {
    if a == Finding(High, ActEnvSpace) && f.fillRepo != "" && f.fillDays < 7 then 1
    else if a == Finding(Medium, ActEnvSpace) && f.fillRepo != "" && 7 <= f.fillDays < 30 then 1
    else 0
  }

  lemma {:induction false} FailsNowIff(fs: seq<Reliability.Failure>)
    ensures NowOnly(fs) != [] <==> exists i :: 0 <= i < |fs| && fs[i].now
  {
    if fs != [] { FailsNowIff(fs[1..]); }
  }

  lemma {:induction false} DeficitsStartWith(rows: seq<ProxySizing>)
    ensures Deficits(rows) != [] <==> exists i :: FirstShort(rows, i)
    ensures forall i :: FirstShort(rows, i) ==> Deficits(rows)[0] == rows[i]
  {
    if rows != [] {
      DeficitsStartWith(rows[1..]);
      if rows[0].state == Deficit {
        assert FirstShort(rows, 0);
      } else {
        if i :| FirstShort(rows[1..], i) { assert FirstShort(rows, i + 1); }
        forall i | FirstShort(rows, i) ensures FirstShort(rows[1..], i - 1) {}
      }
    }
  }

  function HostsOf(hosts: seq<DownHost>, withRepos: bool): set<int> {
    set i | 0 <= i < |hosts| && (hosts[i].repos != []) == withRepos
  }

  lemma OneMoreHost(hosts: seq<DownHost>, withRepos: bool)
    requires hosts != []
    ensures var n := |hosts| - 1;
      HostsOf(hosts, withRepos)
        == HostsOf(hosts[..n], withRepos) + if (hosts[n].repos != []) == withRepos then {n} else {}
  {}

  function Often(acts: seq<Action>, a: Action): nat {
    if acts == [] then 0 else Often(acts[..|acts| - 1], a) + if acts[|acts| - 1] == a then 1 else 0
  }

  lemma {:induction false} OftenInBoth(s: seq<Action>, t: seq<Action>, a: Action)
    ensures Often(s + t, a) == Often(s, a) + Often(t, a)
  {
    if t == [] {
      assert s + t == s;
    } else {
      assert (s + t)[..|s + t| - 1] == s + t[..|t| - 1];
      OftenInBoth(s, t[..|t| - 1], a);
    }
  }

  lemma {:induction false} OftenIsTheCount(acts: seq<Action>, a: Action)
    ensures Often(acts, a) == multiset(acts)[a]
  {
    if acts != [] {
      OftenIsTheCount(acts[..|acts| - 1], a);
      assert acts == acts[..|acts| - 1] + [acts[|acts| - 1]];
    }
  }

  function Only(when: bool, x: Action): seq<Action> {
    if when then [x] else []
  }

  lemma OftenInOnly(when: bool, x: Action, a: Action)
    ensures Often(Only(when, x), a) == if when && x == a then 1 else 0
  {}

  lemma {:induction false} HostsAreCounted(hosts: seq<DownHost>, a: Action)
    ensures Often(HostActs(hosts), a)
         == if a == Finding(High, ActEnvHostDown) then |HostsOf(hosts, true)|
            else if a == Finding(Medium, ActEnvHostDownBare) then |HostsOf(hosts, false)|
            else 0
  {
    if hosts == [] {
      assert HostsOf(hosts, true) == {} && HostsOf(hosts, false) == {};
    } else {
      var n := |hosts| - 1;
      var before, one := HostActs(hosts[..n]), HostAct(hosts[n]);
      HostsAreCounted(hosts[..n], a);
      OneMoreHost(hosts, true);
      OneMoreHost(hosts, false);
      assert HostActs(hosts) == before + Only(true, one);
      OftenInBoth(before, Only(true, one), a);
      OftenInOnly(true, one, a);
    }
  }

  lemma ReliabilityInParts(rel: Reliable)
    ensures ReliabilityActs(rel) ==
      Only(FailsNow(rel), Finding(High, ActEnvFailing))
      + Only(!FailsNow(rel) && rel.failedRuns > 0, Finding(Medium, ActEnvPastFailures))
      + HostActs(rel.downHosts)
  {
    FailsNowIff(rel.failures);
  }

  lemma ReliabilityIsDue(rel: Reliable, a: Action)
    ensures Often(ReliabilityActs(rel), a) == DueForFailures(rel, a)
  {
    ReliabilityInParts(rel);
    HostsAreCounted(rel.downHosts, a);
    assert HostsOf(rel.downHosts, true) == HostsDown(rel, true);
    assert HostsOf(rel.downHosts, false) == HostsDown(rel, false);
    OftenInThree(Only(FailsNow(rel), Finding(High, ActEnvFailing)),
                 Only(!FailsNow(rel) && rel.failedRuns > 0, Finding(Medium, ActEnvPastFailures)),
                 HostActs(rel.downHosts), a);
    OftenInOnly(FailsNow(rel), Finding(High, ActEnvFailing), a);
    OftenInOnly(!FailsNow(rel) && rel.failedRuns > 0, Finding(Medium, ActEnvPastFailures), a);
  }

  lemma SlotsAreDue(rows: seq<ProxySizing>, a: Action)
    ensures Often(SizingActs(rows), a) == DueForSlots(rows, a)
  {
    DeficitsStartWith(rows);
    if Deficits(rows) != [] { OftenInOnly(true, Finding(Sharpness(Deficits(rows)[0]), ActEnvSizing), a); }
  }

  lemma OftenInThree(s: seq<Action>, t: seq<Action>, u: seq<Action>, a: Action)
    ensures Often(s + t + u, a) == Often(s, a) + Often(t, a) + Often(u, a)
  {
    OftenInBoth(s + t, u, a);
    OftenInBoth(s, t, a);
  }

  lemma TheRestInParts(f: Window)
    ensures FinishActs(f.waitPct, f.waitSec, f.stale, f.fillRepo, f.fillDays) ==
      Only(f.waitPct >= 10 && f.waitSec >= 300.0, Finding(if f.waitPct >= 25 then High else Medium, ActEnvWaits))
      + Only(f.stale > 0, Finding(Medium, ActEnvStale))
      + Only(f.fillRepo != "" && f.fillDays < 30, Finding(if f.fillDays < 7 then High else Medium, ActEnvSpace))
  {}

  lemma WaitingIsDue(f: Window, a: Action)
    ensures Often(Only(f.waitPct >= 10 && f.waitSec >= 300.0,
                       Finding(if f.waitPct >= 25 then High else Medium, ActEnvWaits)), a) == DueForWaiting(f, a)
  {
    OftenInOnly(f.waitPct >= 10 && f.waitSec >= 300.0,
                Finding(if f.waitPct >= 25 then High else Medium, ActEnvWaits), a);
  }

  lemma SpaceIsDue(f: Window, a: Action)
    ensures Often(Only(f.fillRepo != "" && f.fillDays < 30,
                       Finding(if f.fillDays < 7 then High else Medium, ActEnvSpace)), a) == DueForSpace(f, a)
  {
    OftenInOnly(f.fillRepo != "" && f.fillDays < 30, Finding(if f.fillDays < 7 then High else Medium, ActEnvSpace), a);
  }

  lemma TheRestIsDue(f: Window, a: Action)
    ensures Often(FinishActs(f.waitPct, f.waitSec, f.stale, f.fillRepo, f.fillDays), a)
         == DueForWaiting(f, a) + DueForStale(f, a) + DueForSpace(f, a)
  {
    TheRestInParts(f);
    OftenInThree(
      Only(f.waitPct >= 10 && f.waitSec >= 300.0, Finding(if f.waitPct >= 25 then High else Medium, ActEnvWaits)),
      Only(f.stale > 0, Finding(Medium, ActEnvStale)),
      Only(f.fillRepo != "" && f.fillDays < 30, Finding(if f.fillDays < 7 then High else Medium, ActEnvSpace)), a);
    WaitingIsDue(f, a);
    OftenInOnly(f.stale > 0, Finding(Medium, ActEnvStale), a);
    SpaceIsDue(f, a);
  }

  lemma FoldKeepsOften(front: seq<Action>, list: seq<Action>, back: seq<Action>, a: Action)
    requires Bares(front) == front && Bares(back) == back
    ensures Often(Bares(Fold(front, list, back)), a) == Often(Bares(list), a) + Often(front, a) + Often(back, a)
  {
    OftenIsTheCount(Bares(Fold(front, list, back)), a);
    OftenIsTheCount(Bares(list), a);
    OftenIsTheCount(front, a);
    OftenIsTheCount(back, a);
    if front != [] || back != [] { AddingKeeps(front, list, back, ByImpact(a)); }
  }

  lemma AddedAreBare(rel: Reliable, rows: seq<ProxySizing>, f: Window)
    ensures Bares(ReliabilityActs(rel)) == ReliabilityActs(rel)
    ensures var back := SizingActs(rows) + FinishActs(f.waitPct, f.waitSec, f.stale, f.fillRepo, f.fillDays);
      Bares(back) == back
  {
    assert forall h :: HostAct(h).rank == 0;
  }

  /** The closing stages add each action as often as it is due, and drop none. */
  lemma AddsWhatIsDue(rel: Reliable, list: seq<Action>, rows: seq<ProxySizing>, f: Window, a: Action)
    ensures var back := SizingActs(rows) + FinishActs(f.waitPct, f.waitSec, f.stale, f.fillRepo, f.fillDays);
      Often(Bares(Fold(ReliabilityActs(rel), list, back)), a)
        == Often(Bares(list), a) + DueForFailures(rel, a) + DueForSlots(rows, a)
           + DueForWaiting(f, a) + DueForStale(f, a) + DueForSpace(f, a)
  {
    var sizing, finish := SizingActs(rows), FinishActs(f.waitPct, f.waitSec, f.stale, f.fillRepo, f.fillDays);
    ReliabilityIsDue(rel, a);
    SlotsAreDue(rows, a);
    TheRestIsDue(f, a);
    OftenInBoth(sizing, finish, a);
    AddedAreBare(rel, rows, f);
    FoldKeepsOften(ReliabilityActs(rel), list, sizing + finish, a);
  }
}
