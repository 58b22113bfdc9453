/**
  Failed runs of a window, grouped.  Sessions come newest first, so the first session seen of
  a job says whether that job is failing now.
 */
module Reliability {
  import opened Wrappers
  import opened Sorting

  /**
    `job` is the job id or, without one, the session name; `name` is the job name; `msg` is the
    trimmed message, already replaced where it is empty or no error text.
   */
  datatype Session = Session(job: string, name: string, failed: bool, msg: string, at: string)

  datatype Failure = Failure(job: string, name: string, msg: string, count: int, lastAt: string, now: bool)

  function GroupKey(x: Session): string {
    x.name + "|" + x.msg
  }

  predicate InGroup(x: Session, k: string) {
    x.failed && GroupKey(x) == k
  }

  function FailedRuns(sess: seq<Session>): nat {
    if sess == [] then 0 else FailedRuns(sess[..|sess| - 1]) + if sess[|sess| - 1].failed then 1 else 0
  }

  function Count(sess: seq<Session>, k: string): nat {
    if sess == [] then 0 else Count(sess[..|sess| - 1], k) + if InGroup(sess[|sess| - 1], k) then 1 else 0
  }

  /** The keys of the failed sessions, each where it is first seen. */
  function FirstKeys(sess: seq<Session>): seq<string> {
    if sess == [] then []
    else
      var before, x := FirstKeys(sess[..|sess| - 1]), sess[|sess| - 1];
      if x.failed && GroupKey(x) !in before then before + [GroupKey(x)] else before
  }

  function FirstOf(sess: seq<Session>, k: string): Option<Session> {
    if sess == [] then None
    else
      var before := FirstOf(sess[..|sess| - 1], k);
      if before.None? && InGroup(sess[|sess| - 1], k) then Some(sess[|sess| - 1]) else before
  }

  /** Session `i` is the newest one of its job. */
  predicate IsNewest(sess: seq<Session>, i: nat)
    requires i < |sess|
  {
    forall j :: 0 <= j < i ==> sess[j].job != sess[i].job
  }

  /** Some job's newest session failed into group `k`. */
  predicate FailingNow(sess: seq<Session>, k: string) {
    exists i :: 0 <= i < |sess| && InGroup(sess[i], k) && IsNewest(sess, i)
  }

  /** The row of one group. */
  function RowOf(sess: seq<Session>, k: string): Failure
    requires FirstOf(sess, k).Some?
  {
    var x := FirstOf(sess, k).value;
    Failure.Failure(x.job, x.name, x.msg, Count(sess, k), x.at, FailingNow(sess, k))
  }

  function Jobs(sess: seq<Session>): set<string> {
    set x | x in sess :: x.job
  }

  /** The keys seen are those of the groups that have a first session, each once. */
  lemma {:induction false} KeysAreTheGroups(sess: seq<Session>)
    ensures forall i, j :: 0 <= i < j < |FirstKeys(sess)| ==> FirstKeys(sess)[i] != FirstKeys(sess)[j]
    ensures forall k :: k in FirstKeys(sess) <==> FirstOf(sess, k).Some?
    ensures forall k :: FirstOf(sess, k).Some? ==> InGroup(FirstOf(sess, k).value, k)
    ensures forall k :: k in FirstKeys(sess) <==> Count(sess, k) > 0
  {
    if sess != [] {
      KeysAreTheGroups(sess[..|sess| - 1]);
    }
  }

  function ByUrgency(f: Failure): Key {
    (if f.now then 0 else 1, -f.count)
  }

  function Rows(sess: seq<Session>): seq<Failure> {
    KeysAreTheGroups(sess);
    seq(|FirstKeys(sess)|, i requires 0 <= i < |FirstKeys(sess)| => RowOf(sess, FirstKeys(sess)[i]))
  }

  function InOrder(group: map<string, Failure>, order: seq<string>): (r: seq<Failure>)
    requires forall i :: 0 <= i < |order| ==> order[i] in group
    ensures |r| == |order| && forall i :: 0 <= i < |r| ==> r[i] == group[order[i]]
  {
    seq(|order|, i requires 0 <= i < |order| => group[order[i]])
  }

  lemma TableGivesTheRows(sess: seq<Session>, group: map<string, Failure>, order: seq<string>)
    requires GroupsAre(sess, group) && order == FirstKeys(sess)
    ensures forall i :: 0 <= i < |order| ==> order[i] in group
    ensures InOrder(group, order) == Rows(sess)
  {
    KeysAreTheGroups(sess);
    assert forall i :: 0 <= i < |order| ==> order[i] in order;
  }

  method FailuresOf(sess: seq<Session>) returns (failedRuns: int, failures: seq<Failure>)
    ensures failedRuns == FailedRuns(sess)
    ensures StableSortOf(failures, Rows(sess), ByUrgency)
  {
    failedRuns := 0;
    var group: map<string, Failure> := map[];
    var newest: set<string> := {};
    var order: seq<string> := [];
    for i := 0 to |sess|
      invariant failedRuns == FailedRuns(sess[..i])
      invariant newest == Jobs(sess[..i])
      invariant order == FirstKeys(sess[..i])
      invariant GroupsAre(sess[..i], group)
    {
      var x := sess[i];
      var first := x.job !in newest;
      assert sess[..i + 1] == sess[..i] + [x];
      newest := newest + {x.job};
      OneMore(sess[..i], x, first, group);
      KeysAreTheGroups(sess[..i]);
      if x.failed {
        failedRuns := failedRuns + 1;
        var key := GroupKey(x);
        if key !in group {
          group := group[key := Failure.Failure(x.job, x.name, x.msg, 0, x.at, false)];
          order := order + [key];
        }
        var f := group[key];
        group := group[key := f.(count := f.count + 1, now := f.now || first)];
      }
    }
    assert sess[..|sess|] == sess;
    TableGivesTheRows(sess, group, order);
    failures := StableSort(InOrder(group, order), ByUrgency);
  }

  /** The table holds the row of every group and nothing else. */
  ghost predicate GroupsAre(sess: seq<Session>, group: map<string, Failure>) {
    forall k :: (k in group <==> FirstOf(sess, k).Some?) && (k in group ==> group[k] == RowOf(sess, k))
  }

  /** The table after one more session. */
  function GroupStep(group: map<string, Failure>, x: Session, first: bool): map<string, Failure> {
    if !x.failed then group
    else
      var k := GroupKey(x);
      var f := if k in group then group[k] else Failure.Failure(x.job, x.name, x.msg, 0, x.at, false);
      group[k := f.(count := f.count + 1, now := f.now || first)]
  }

  lemma OneMore(sess: seq<Session>, x: Session, first: bool, group: map<string, Failure>)
    requires GroupsAre(sess, group)
    requires first <==> x.job !in Jobs(sess)
    ensures GroupsAre(sess + [x], GroupStep(group, x, first))
    ensures FailedRuns(sess + [x]) == FailedRuns(sess) + if x.failed then 1 else 0
    ensures FirstKeys(sess + [x]) ==
      if x.failed && GroupKey(x) !in FirstKeys(sess) then FirstKeys(sess) + [GroupKey(x)] else FirstKeys(sess)
  {
    var all, next := sess + [x], GroupStep(group, x, first);
    assert all[..|all| - 1] == sess;
    KeysAreTheGroups(sess);
    forall k
      ensures k in next <==> FirstOf(all, k).Some?
      ensures k in next ==> next[k] == RowOf(all, k)
    {
      NowAfterOneMore(sess, x, k);
      if FirstOf(sess, k).None? { NotFailingYet(sess, k); }
    }
  }

  lemma NotFailingYet(sess: seq<Session>, k: string)
    requires FirstOf(sess, k).None?
    ensures !FailingNow(sess, k) && Count(sess, k) == 0
  {
    KeysAreTheGroups(sess);
    if FailingNow(sess, k) {
      var i :| 0 <= i < |sess| && InGroup(sess[i], k) && IsNewest(sess, i);
      SeenHasFirst(sess, k, i);
    }
  }

  lemma {:induction false} SeenHasFirst(sess: seq<Session>, k: string, i: nat)
    requires i < |sess| && InGroup(sess[i], k)
    ensures FirstOf(sess, k).Some?
  {
    if i < |sess| - 1 { SeenHasFirst(sess[..|sess| - 1], k, i); }
  }

  lemma NowAfterOneMore(sess: seq<Session>, x: Session, k: string)
    ensures FailingNow(sess + [x], k) <==> FailingNow(sess, k) || (InGroup(x, k) && x.job !in Jobs(sess))
  {
    var all := sess + [x];
    assert forall i :: 0 <= i < |sess| ==> all[i] == sess[i];
    if FailingNow(sess, k) {
      var i :| 0 <= i < |sess| && InGroup(sess[i], k) && IsNewest(sess, i);
      assert InGroup(all[i], k) && IsNewest(all, i);
    }
    if InGroup(x, k) && x.job !in Jobs(sess) {
      assert forall j :: 0 <= j < |sess| ==> sess[j] in sess;
      assert InGroup(all[|sess|], k) && IsNewest(all, |sess|);
    }
    if FailingNow(all, k) {
      var i :| 0 <= i < |all| && InGroup(all[i], k) && IsNewest(all, i);
      if i < |sess| {
        assert InGroup(sess[i], k) && IsNewest(sess, i);
      } else if y :| y in sess && y.job == x.job {
        var j :| 0 <= j < |sess| && sess[j] == y;
        assert all[j].job == all[i].job;
      }
    }
  }

  // --- what the grouping promises ---------------------------------------------------------

  function SumCounts(fs: seq<Failure>): int {
    if fs == [] then 0 else fs[0].count + SumCounts(fs[1..])
  }

  function CountAll(sess: seq<Session>, ks: seq<string>): int {
    if ks == [] then 0 else Count(sess, ks[0]) + CountAll(sess, ks[1..])
  }

  /** Every failed session is in exactly one row. */
  lemma EveryFailureIsCountedOnce(sess: seq<Session>)
    ensures SumCounts(Rows(sess)) == FailedRuns(sess)
  {
    KeysAreTheGroups(sess);
    RowsCount(sess, FirstKeys(sess), Rows(sess));
    KeysCoverTheFailures(sess);
  }

  lemma {:induction false} RowsCount(sess: seq<Session>, ks: seq<string>, rows: seq<Failure>)
    requires |rows| == |ks| && forall i :: 0 <= i < |ks| ==> rows[i].count == Count(sess, ks[i])
    ensures SumCounts(rows) == CountAll(sess, ks)
  {
    if ks != [] { RowsCount(sess, ks[1..], rows[1..]); }
  }

  lemma {:induction false} KeysCoverTheFailures(sess: seq<Session>)
    ensures CountAll(sess, FirstKeys(sess)) == FailedRuns(sess)
  {
    if sess != [] {
      var init, x := sess[..|sess| - 1], sess[|sess| - 1];
      KeysCoverTheFailures(init);
      KeysAreTheGroups(init);
      KeysAreTheGroups(sess);
      CountOneMore(init, x, FirstKeys(init));
      assert init + [x] == sess;
      if x.failed && GroupKey(x) !in FirstKeys(init) {
        CountAllSnoc(sess, FirstKeys(init), GroupKey(x));
      }
    }
  }

  lemma {:induction false} CountOneMore(sess: seq<Session>, x: Session, ks: seq<string>)
    requires forall i, j :: 0 <= i < j < |ks| ==> ks[i] != ks[j]
    ensures CountAll(sess + [x], ks) == CountAll(sess, ks) + if x.failed && GroupKey(x) in ks then 1 else 0
  {
    assert (sess + [x])[..|sess|] == sess;
    if ks != [] {
      CountOneMore(sess, x, ks[1..]);
      assert ks == [ks[0]] + ks[1..];
    }
  }

  lemma {:induction false} CountAllSnoc(sess: seq<Session>, ks: seq<string>, k: string)
    ensures CountAll(sess, ks + [k]) == CountAll(sess, ks) + Count(sess, k)
  {
    if ks == [] {
      assert [k][1..] == [];
    } else {
      assert (ks + [k])[1..] == ks[1..] + [k];
      CountAllSnoc(sess, ks[1..], k);
    }
  }

  /** One row per group of failed sessions, marked Now exactly when a job's newest session failed into it. */
  lemma RowsAreTheGroups(sess: seq<Session>, i: nat)
    requires i < |sess| && sess[i].failed
    ensures exists r :: r in Rows(sess) && r.name + "|" + r.msg == GroupKey(sess[i])
              && r.count == Count(sess, GroupKey(sess[i])) && (r.now <==> FailingNow(sess, GroupKey(sess[i])))
  {
    var k := GroupKey(sess[i]);
    KeysAreTheGroups(sess);
    SeenHasFirst(sess, k, i);
    var n :| 0 <= n < |FirstKeys(sess)| && FirstKeys(sess)[n] == k;
    assert Rows(sess)[n] == RowOf(sess, k) && Rows(sess)[n] in Rows(sess);
  }

  /** Some row is Now exactly when the newest session of some job failed. */
  lemma SomethingFailsNowIff(sess: seq<Session>)
    ensures (exists r :: r in Rows(sess) && r.now) <==>
      (exists i :: 0 <= i < |sess| && sess[i].failed && IsNewest(sess, i))
  {
    KeysAreTheGroups(sess);
    if r :| r in Rows(sess) && r.now {
      var n :| 0 <= n < |FirstKeys(sess)| && Rows(sess)[n] == r;
      assert FailingNow(sess, FirstKeys(sess)[n]);
    }
    if i :| 0 <= i < |sess| && sess[i].failed && IsNewest(sess, i) {
      var k := GroupKey(sess[i]);
      assert InGroup(sess[i], k) && FailingNow(sess, k);
      RowsAreTheGroups(sess, i);
    }
  }

  /** Conversely every row is one group, and no two rows are the same group. */
  lemma EveryRowIsOneGroup(sess: seq<Session>, n: nat, m: nat)
    requires n < |Rows(sess)| && m < |Rows(sess)|
    ensures var r := Rows(sess)[n]; var key := r.name + "|" + r.msg;
      && r.count == Count(sess, key) > 0
      && (r.now <==> FailingNow(sess, key))
      && (Rows(sess)[m].name + "|" + Rows(sess)[m].msg == key <==> n == m)
  {
    KeysAreTheGroups(sess);
    var ks := FirstKeys(sess);
    assert FirstOf(sess, ks[n]).Some? && InGroup(FirstOf(sess, ks[n]).value, ks[n]);
    assert FirstOf(sess, ks[m]).Some? && InGroup(FirstOf(sess, ks[m]).value, ks[m]);
  }

  function UpToBar(s: string): string {
    if s == [] || s[0] == '|' then [] else [s[0]] + UpToBar(s[1..])
  }

  lemma {:induction false} TheBarEndsTheName(a: string, m: string)
    requires '|' !in a
    ensures UpToBar(a + "|" + m) == a
  {
    var all := a + "|" + m;
    if a != [] {
      assert all[0] == a[0] && all[1..] == a[1..] + "|" + m;
      TheBarEndsTheName(a[1..], m);
    }
  }

  /** Job names without a bar keep groups of different jobs or messages apart. */
  lemma KeysTellGroupsApart(a: string, m: string, b: string, n: string)
    requires '|' !in a && '|' !in b && a + "|" + m == b + "|" + n
    ensures a == b && m == n
  {
    TheBarEndsTheName(a, m);
    TheBarEndsTheName(b, n);
    assert m == (a + "|" + m)[|a| + 1..] && n == (b + "|" + n)[|b| + 1..];
  }

  /**
    Two failures share a row although their names or messages differ exactly when one name is
    the other, a bar and a word that the other's message goes on with.
   */
  lemma KeysCollideIff(a: string, m: string, b: string, n: string)
    ensures a + "|" + m == b + "|" + n && (a != b || m != n) <==> Swallows(a, m, b, n) || Swallows(b, n, a, m)
  {
    if a + "|" + m == b + "|" + n {
      if |a| < |b| {
        LongerNameSwallows(a, m, b, n);
      } else if |b| < |a| {
        LongerNameSwallows(b, n, a, m);
      } else {
        NamesOfOneLength(a, m, b, n);
      }
    }
    if Swallows(a, m, b, n) { SwallowedKeysCollide(a, m, b, n); }
    if Swallows(b, n, a, m) { SwallowedKeysCollide(b, n, a, m); }
  }

  predicate Swallows(a: string, m: string, b: string, n: string) {
    && |b| > |a|
    && b == a + "|" + b[|a| + 1..]
    && m == b[|a| + 1..] + "|" + n
  }

  lemma SwallowedKeysCollide(a: string, m: string, b: string, n: string)
    requires Swallows(a, m, b, n)
    ensures a + "|" + m == b + "|" + n
  {
    var word := b[|a| + 1..];
    assert a + "|" + (word + "|" + n) == (a + "|" + word) + "|" + n;
  }

  lemma NamesOfOneLength(a: string, m: string, b: string, n: string)
    requires a + "|" + m == b + "|" + n && |a| == |b|
    ensures a == b && m == n
  {
    assert a == (a + "|" + m)[..|a|] && b == (b + "|" + n)[..|b|];
    assert m == (a + "|" + m)[|a| + 1..] && n == (b + "|" + n)[|b| + 1..];
  }

  lemma LongerNameSwallows(a: string, m: string, b: string, n: string)
    requires a + "|" + m == b + "|" + n && |a| < |b|
    ensures Swallows(a, m, b, n)
  {
    var key := a + "|" + m;
    assert key[..|b|] == b && key[..|a|] == a && key[|a|] == '|';
    assert b[..|a|] == a && b[|a|] == '|';
    assert m == key[|a| + 1..];
    assert (b + "|" + n)[|a| + 1..] == b[|a| + 1..] + "|" + n;
  }

  const TWO_JOBS := [Session("1", "a|b", true, "c", ""), Session("2", "a", true, "b|c", "")]

  lemma TwoOfAGroup(x: Session, y: Session, k: string)
    requires InGroup(x, k) && InGroup(y, k)
    ensures FirstKeys([x, y]) == [k] && FirstOf([x, y], k) == Some(x) && Count([x, y], k) == 2
    ensures FailingNow([x, y], k)
  {
    OneMoreOfAGroup([], x, k);
    OneMoreOfAGroup([x], y, k);
    assert [] + [x] == [x] && [x] + [y] == [x, y];
    assert InGroup([x, y][0], k) && IsNewest([x, y], 0);
  }

  lemma OneMoreOfAGroup(sess: seq<Session>, x: Session, k: string)
    requires InGroup(x, k)
    ensures FirstKeys(sess + [x]) == if k in FirstKeys(sess) then FirstKeys(sess) else FirstKeys(sess) + [k]
    ensures FirstOf(sess + [x], k) == if FirstOf(sess, k).None? then Some(x) else FirstOf(sess, k)
    ensures Count(sess + [x], k) == Count(sess, k) + 1
  {
    assert (sess + [x])[..|sess + [x]| - 1] == sess;
  }

  /** A bar in a job name can merge failures of two jobs with different messages into one row. */
  lemma ABarMergesGroups()
    ensures Rows(TWO_JOBS) == [Failure.Failure("1", "a|b", "c", 2, "", true)]
  {
    var k := "a|b|c";
    assert GroupKey(TWO_JOBS[0]) == k && GroupKey(TWO_JOBS[1]) == k;
    TwoOfAGroup(TWO_JOBS[0], TWO_JOBS[1], k);
    assert TWO_JOBS == [TWO_JOBS[0], TWO_JOBS[1]];
    KeysAreTheGroups(TWO_JOBS);
    assert Rows(TWO_JOBS) == [RowOf(TWO_JOBS, k)];
  }
}
