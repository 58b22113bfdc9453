/** From the tasks of a run to the record the assessment counts. */
module Records {
  import opened Wrappers
  import opened Assessment
  import Summaries
  import Figures

  const EMPTY_GUID := "00000000-0000-0000-0000-000000000000"

  predicate Usable(id: string) {
    id != "" && id != EMPTY_GUID
  }

  /** The usable ids, each where it is first seen. */
  function Cleaned(ids: seq<string>): seq<string> {
    if ids == [] then []
    else
      var before, id := Cleaned(ids[..|ids| - 1]), ids[|ids| - 1];
      if Usable(id) && id !in before then before + [id] else before
  }

  method CleanIDs(ids: seq<string>) returns (out: seq<string>)
    ensures out == Cleaned(ids)
  {
    var seen: set<string> := {};
    out := [];
    for i := 0 to |ids|
      invariant out == Cleaned(ids[..i])
      invariant forall id :: id in seen <==> id in out
    {
      assert ids[..i + 1][..i] == ids[..i];
      var id := ids[i];
      if id == "" || id == EMPTY_GUID || id in seen {
        continue;
      }
      seen := seen + {id};
      out := out + [id];
    }
    assert ids[..|ids|] == ids;
  }

  /** Neither the empty text nor the null id of the server. */
  predicate IsAnId(id: string) {
    id != "" && id != "00000000-0000-0000-0000-000000000000"
  }

  /** Nothing is listed twice, and exactly the usable ids remain. */
  lemma {:induction false} CleanedIsDuplicateFree(ids: seq<string>)
    ensures DuplicateFree(Cleaned(ids))
    ensures forall id :: id in Cleaned(ids) <==> id in ids && IsAnId(id)
  {
    if ids != [] {
      CleanedIsDuplicateFree(ids[..|ids| - 1]);
      assert ids == ids[..|ids| - 1] + [ids[|ids| - 1]];
    }
  }

  /** They keep the order in which they are first seen. */
  lemma {:induction false} CleanedKeepsTheOrder(ids: seq<string>, p: nat, q: nat)
    requires p < q < |Cleaned(ids)|
    ensures exists i :: 0 <= i < |ids| && ids[i] == Cleaned(ids)[p] && NotUpTo(ids, i, Cleaned(ids)[q])
  {
    var n := |ids| - 1;
    CleanedIsDuplicateFree(ids[..n]);
    assert ids == ids[..n] + [ids[n]];
    var x := Cleaned(ids[..n])[p];
    if q < |Cleaned(ids[..n])| {
      CleanedKeepsTheOrder(ids[..n], p, q);
      var i :| 0 <= i < n && ids[..n][i] == x && NotUpTo(ids[..n], i, Cleaned(ids)[q]);
      assert ids[i] == x && NotUpTo(ids, i, Cleaned(ids)[q]);
    } else {
      assert x in ids[..n];
      var i :| 0 <= i < n && ids[..n][i] == x;
      assert ids[i] == x && NotUpTo(ids, i, ids[n]) by {
        forall k | 0 <= k <= i ensures ids[k] != ids[n] { assert ids[k] in ids[..n]; }
      }
    }
  }

  predicate NotUpTo(ids: seq<string>, i: nat, id: string)
    requires i < |ids|
  {
    forall k :: 0 <= k <= i ==> ids[k] != id
  }

  /** A list without duplicates or unusable ids is left as it is. */
  lemma {:induction false} CleaningKeeps(ids: seq<string>)
    requires DuplicateFree(ids) && forall id :: id in ids ==> Usable(id)
    ensures Cleaned(ids) == ids
  {
    if ids != [] {
      var init, last := ids[..|ids| - 1], ids[|ids| - 1];
      assert ids == init + [last];
      CleaningKeeps(init);
    }
  }

  lemma CleaningTwiceIsCleaningOnce(ids: seq<string>)
    ensures Cleaned(Cleaned(ids)) == Cleaned(ids)
  {
    CleanedIsDuplicateFree(ids);
    CleaningKeeps(Cleaned(ids));
  }

  /** The members of a set in some order, each once. */
  method Keys(s: set<string>) returns (out: seq<string>)
    ensures DuplicateFree(out) && forall id :: id in out <==> id in s
  {
    out := [];
    var todo := s;
    while todo != {}
      invariant forall id :: id in s <==> id in todo || id in out
      invariant forall id :: id in out ==> id !in todo
      invariant DuplicateFree(out)
    {
      var id :| id in todo;
      todo := todo - {id};
      out := out + [id];
    }
  }

  datatype Task = Task(repository: string, transferred: int)

  /** A completed session as read: its tasks, and the proxies its job names. */
  datatype Run = Run(job: string, creation: Option<int>, end: Option<int>, primary: string,
                     tasks: seq<Task>, jobProxies: seq<string>)

  function Transferred(tasks: seq<Task>): int {
    if tasks == [] then 0 else Transferred(tasks[..|tasks| - 1]) + tasks[|tasks| - 1].transferred
  }

  /** What is transferred adds up: over parts of the task list, and for one task it is its own. */
  lemma {:induction false} TransfersAddUp(a: seq<Task>, b: seq<Task>)
    ensures Transferred([]) == 0 && forall t :: Transferred([t]) == t.transferred
    ensures Transferred(a + b) == Transferred(a) + Transferred(b)
  {
    assert forall t: Task :: [t][..0] == [];
    if b == [] {
      assert a + b == a;
    } else {
      assert (a + b)[..|a + b| - 1] == a + b[..|b| - 1];
      TransfersAddUp(a, b[..|b| - 1]);
    }
  }

  ghost predicate IsRecordOf(run: Run, r: Record) {
    && r.job == run.job && r.creation == run.creation && r.end == run.end && r.primary == run.primary
    && r.bytes == Transferred(run.tasks)
    && DuplicateFree(r.repoIDs)
    && (forall id :: id in r.repoIDs <==> IsAnId(id) && exists t :: t in run.tasks && t.repository == id)
    && DuplicateFree(r.proxyIDs)
    && (forall id :: id in r.proxyIDs <==> IsAnId(id) && id in run.jobProxies)
  }

  method BuildRecord(run: Run) returns (r: Record)
    ensures IsRecordOf(run, r)
  {
    var transferred := 0;
    var repos: set<string> := {};
    for i := 0 to |run.tasks|
      invariant transferred == Transferred(run.tasks[..i])
      invariant forall id :: id in repos <==> Usable(id) && exists k :: 0 <= k < i && run.tasks[k].repository == id
    {
      assert run.tasks[..i + 1][..i] == run.tasks[..i];
      var t := run.tasks[i];
      transferred := transferred + t.transferred;
      if t.repository != "" && t.repository != EMPTY_GUID {
        repos := repos + {t.repository};
      }
    }
    assert run.tasks[..|run.tasks|] == run.tasks;
    assert forall t :: t in run.tasks <==> exists k :: 0 <= k < |run.tasks| && run.tasks[k] == t;
    var repoIDs := Keys(repos);
    var proxyIDs := CleanIDs(run.jobProxies);
    CleanedIsDuplicateFree(run.jobProxies);
    r := Record(run.job, run.creation, run.end, transferred, run.primary, repoIDs, proxyIDs);
  }

  predicate NoNegativeTask(run: Run) {
    forall t :: t in run.tasks ==> t.transferred >= 0
  }

  lemma {:induction false} TransferredIsNonNegative(tasks: seq<Task>)
    requires forall t :: t in tasks ==> t.transferred >= 0
    ensures Transferred(tasks) >= 0
  {
    if tasks != [] {
      assert tasks == tasks[..|tasks| - 1] + [tasks[|tasks| - 1]];
      TransferredIsNonNegative(tasks[..|tasks| - 1]);
    }
  }

  /**
    From the runs to the summary: every record has clean id lists, so with task sizes that are
    not negative every figure of the summary is true to the runs.
   */
  method Assess(runs: seq<Run>) returns (recs: seq<Record>, a: Option<Summaries.Summary>)
    requires forall i :: 0 <= i < |runs| ==> NoNegativeTask(runs[i])
    ensures |recs| == |runs| && forall i :: 0 <= i < |runs| ==> IsRecordOf(runs[i], recs[i])
    ensures a == None <==> runs == []
    ensures a.Some? ==> Figures.TrueToTheRuns(recs, a.value)
  {
    recs := [];
    for i := 0 to |runs|
      invariant |recs| == i && forall k :: 0 <= k < i ==> IsRecordOf(runs[k], recs[k])
    {
      var r := BuildRecord(runs[i]);
      recs := recs + [r];
    }
    forall i | 0 <= i < |recs| ensures recs[i].bytes >= 0 {
      assert NoNegativeTask(runs[i]);
      TransferredIsNonNegative(runs[i].tasks);
    }
    a := Summaries.BuildAssessment(recs);
    if a.Some? { Figures.SummaryIsTrue(recs, a.value); }
  }
}
