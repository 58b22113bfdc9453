/** What the rows of failures say, told by positions in the list of sessions. */
module ReliabilityReport {
  import opened Wrappers
  import opened Sorting
  import opened Reliability

  /** The sessions that failed under the same job name with the same message, run together with a bar. */
  function Alike(sess: seq<Session>, h: nat): set<int>
    requires h < |sess|
  {
    set i | 0 <= i < |sess| && sess[i].failed && sess[i].name + "|" + sess[i].msg == sess[h].name + "|" + sess[h].msg
  }

  /** The newest failed session of its kind. */
  predicate IsHead(sess: seq<Session>, h: int) {
    0 <= h < |sess| && h in Alike(sess, h) && forall i :: i in Alike(sess, h) ==> h <= i
  }

  /** No newer session is of the same job. */
  predicate NewestOfItsJob(sess: seq<Session>, i: int) {
    0 <= i < |sess| && forall k :: 0 <= k < i ==> sess[k].job != sess[i].job
  }

  /** The row of the failures that session `h` is the newest of. */
  predicate RowReads(sess: seq<Session>, h: int, f: Failure) {
    && IsHead(sess, h)
    && f.job == sess[h].job && f.name == sess[h].name && f.msg == sess[h].msg && f.lastAt == sess[h].at
    && f.count == |Alike(sess, h)|
    && (f.now <==> exists i :: i in Alike(sess, h) && NewestOfItsJob(sess, i))
  }

  /** What fails now comes first, then what failed more often, then what failed last. */
  predicate Precedes(f: Failure, h: int, g: Failure, k: int) {
    if f.now != g.now then f.now
    else f.count > g.count || (f.count == g.count && h < k)
  }

  /** One row for each kind of failure, in this order. */
  ghost predicate FailuresRead(sess: seq<Session>, failures: seq<Failure>) {
    exists heads: seq<int> ::
      && |heads| == |failures|
      && (forall h :: h in heads <==> IsHead(sess, h))
      && (forall n :: 0 <= n < |failures| ==> RowReads(sess, heads[n], failures[n]))
      && forall n, m :: 0 <= n < m < |failures| ==> Precedes(failures[n], heads[n], failures[m], heads[m])
  }

  /** The first session of the group; past the end when it has none. */
  function HeadOf(sess: seq<Session>, k: string): (i: nat)
    ensures i < |sess| ==> InGroup(sess[i], k) && forall j :: 0 <= j < i ==> !InGroup(sess[j], k)
    ensures i >= |sess| ==> i == |sess| && forall j :: 0 <= j < |sess| ==> !InGroup(sess[j], k)
    ensures FirstOf(sess, k) == if i < |sess| then Some(sess[i]) else None
  {
    if sess == [] then 0
    else
      var n := |sess| - 1;
      var i := HeadOf(sess[..n], k);
      if i < n then i else if InGroup(sess[n], k) then n else n + 1
  }

  lemma {:induction false} KeysComeInOrder(sess: seq<Session>, p: nat, q: nat)
    requires p < q < |FirstKeys(sess)|
    ensures HeadOf(sess, FirstKeys(sess)[p]) < HeadOf(sess, FirstKeys(sess)[q])
  {
    var n := |sess| - 1;
    KeysAreTheGroups(sess[..n]);
    KeysAreTheGroups(sess);
    assert FirstKeys(sess)[p] == FirstKeys(sess[..n])[p];
    assert FirstKeys(sess[..n])[p] in FirstKeys(sess[..n]);
    if q < |FirstKeys(sess[..n])| {
      assert FirstKeys(sess[..n])[q] in FirstKeys(sess[..n]);
      KeysComeInOrder(sess[..n], p, q);
    }
  }

  function GroupAt(sess: seq<Session>, k: string): set<int> {
    set i | 0 <= i < |sess| && InGroup(sess[i], k)
  }

  lemma OneMoreOfGroup(sess: seq<Session>, k: string)
    requires sess != []
    ensures var n := |sess| - 1;
      GroupAt(sess, k) == GroupAt(sess[..n], k) + if InGroup(sess[n], k) then {n} else {}
  {}

  lemma {:induction false} CountIs(sess: seq<Session>, k: string)
    ensures Count(sess, k) == |GroupAt(sess, k)|
  {
    if sess == [] {
      assert GroupAt(sess, k) == {};
    } else {
      CountIs(sess[..|sess| - 1], k);
      OneMoreOfGroup(sess, k);
    }
  }

  lemma GroupIsAlike(sess: seq<Session>, h: nat)
    requires h < |sess| && sess[h].failed
    ensures GroupAt(sess, GroupKey(sess[h])) == Alike(sess, h)
  {}

  /** The row of a group is that of its newest session. */
  lemma RowIs(sess: seq<Session>, k: string)
    requires HeadOf(sess, k) < |sess|
    ensures RowReads(sess, HeadOf(sess, k), RowOf(sess, k))
  {
    var h := HeadOf(sess, k);
    CountIs(sess, k);
    GroupIsAlike(sess, h);
    assert forall i :: i in Alike(sess, h) <==> 0 <= i < |sess| && InGroup(sess[i], k) by {
      assert forall i :: i in GroupAt(sess, k) <==> 0 <= i < |sess| && InGroup(sess[i], k);
    }
    NowIs(sess, k, h);
  }

  lemma NowIs(sess: seq<Session>, k: string, h: nat)
    requires h < |sess| && GroupAt(sess, k) == Alike(sess, h)
    ensures FailingNow(sess, k) <==> exists i :: i in Alike(sess, h) && NewestOfItsJob(sess, i)
  {
    if FailingNow(sess, k) {
      var i :| 0 <= i < |sess| && InGroup(sess[i], k) && IsNewest(sess, i);
      assert i in GroupAt(sess, k) && NewestOfItsJob(sess, i);
    }
    if i :| i in Alike(sess, h) && NewestOfItsJob(sess, i) {
      assert i in GroupAt(sess, k) && IsNewest(sess, i);
    }
  }

  lemma HeadsAreHeads(sess: seq<Session>, h: int)
    ensures IsHead(sess, h) <==>
      0 <= h < |sess| && sess[h].failed && GroupKey(sess[h]) in FirstKeys(sess) && HeadOf(sess, GroupKey(sess[h])) == h
  {
    if 0 <= h < |sess| && sess[h].failed {
      var k := GroupKey(sess[h]);
      KeysAreTheGroups(sess);
      GroupIsAlike(sess, h);
      var i := HeadOf(sess, k);
      assert i in GroupAt(sess, k);
    }
  }

  /** Sessions that failed, counted by position. */
  lemma {:induction false} FailedRunsAre(sess: seq<Session>)
    ensures FailedRuns(sess) == |set i | 0 <= i < |sess| && sess[i].failed|
  {
    var all := set i | 0 <= i < |sess| && sess[i].failed;
    if sess == [] {
      assert all == {};
    } else {
      var n := |sess| - 1;
      FailedRunsAre(sess[..n]);
      var before := set i | 0 <= i < n && sess[..n][i].failed;
      assert all == before + if sess[n].failed then {n} else {};
    }
  }

  /** The session a row is named after. */
  function HeadOfRow(sess: seq<Session>, f: Failure): nat {
    HeadOf(sess, f.name + "|" + f.msg)
  }

  lemma RowAt(sess: seq<Session>, n: nat)
    requires n < |Rows(sess)|
    ensures n < |FirstKeys(sess)| && HeadOfRow(sess, Rows(sess)[n]) == HeadOf(sess, FirstKeys(sess)[n]) < |sess|
    ensures RowReads(sess, HeadOfRow(sess, Rows(sess)[n]), Rows(sess)[n])
  {
    KeysAreTheGroups(sess);
    var k := FirstKeys(sess)[n];
    assert k in FirstKeys(sess);
    RowIs(sess, k);
  }

  lemma RowsReadAs(sess: seq<Session>, f: Failure)
    requires f in Rows(sess)
    ensures RowReads(sess, HeadOfRow(sess, f), f)
  {
    var n :| 0 <= n < |Rows(sess)| && Rows(sess)[n] == f;
    RowAt(sess, n);
  }

  lemma EveryHeadHasARow(sess: seq<Session>, h: int)
    requires IsHead(sess, h)
    ensures exists f :: f in Rows(sess) && HeadOfRow(sess, f) == h
  {
    HeadsAreHeads(sess, h);
    var k := GroupKey(sess[h]);
    KeysAreTheGroups(sess);
    var n :| 0 <= n < |FirstKeys(sess)| && FirstKeys(sess)[n] == k;
    RowAt(sess, n);
    assert Rows(sess)[n] in Rows(sess);
  }

  lemma InTheOrderOfHeads(sess: seq<Session>, f: Failure, g: Failure)
    requires InThisOrder(Rows(sess), f, g)
    ensures HeadOfRow(sess, f) < HeadOfRow(sess, g)
  {
    var p, q :| 0 <= p < q < |Rows(sess)| && Rows(sess)[p] == f && Rows(sess)[q] == g;
    RowAt(sess, p);
    RowAt(sess, q);
    KeysComeInOrder(sess, p, q);
  }

  lemma OrderedRows(sess: seq<Session>, failures: seq<Failure>, n: nat, m: nat)
    requires StableSortOf(failures, Rows(sess), ByUrgency) && n < m < |failures|
    ensures Precedes(failures[n], HeadOfRow(sess, failures[n]), failures[m], HeadOfRow(sess, failures[m]))
  {
    assert !Before(ByUrgency(failures[m]), ByUrgency(failures[n]));
    if ByUrgency(failures[n]) == ByUrgency(failures[m]) {
      SortingIsStable(failures, Rows(sess), ByUrgency, n, m);
      InTheOrderOfHeads(sess, failures[n], failures[m]);
    }
  }

  lemma SameRows(sess: seq<Session>, failures: seq<Failure>, f: Failure)
    requires StableSortOf(failures, Rows(sess), ByUrgency)
    ensures f in failures <==> f in Rows(sess)
  {
    StableSortPermutes(failures, Rows(sess), ByUrgency);
    assert f in failures <==> f in multiset(failures);
    assert f in Rows(sess) <==> f in multiset(Rows(sess));
  }

  function HeadsOf(sess: seq<Session>, failures: seq<Failure>): (heads: seq<int>)
    ensures |heads| == |failures| && forall n :: 0 <= n < |failures| ==> heads[n] == HeadOfRow(sess, failures[n])
  {
    seq(|failures|, n requires 0 <= n < |failures| => HeadOfRow(sess, failures[n]) as int)
  }

  lemma EveryHeadIsThere(sess: seq<Session>, failures: seq<Failure>, h: int)
    requires StableSortOf(failures, Rows(sess), ByUrgency) && IsHead(sess, h)
    ensures h in HeadsOf(sess, failures)
  {
    EveryHeadHasARow(sess, h);
    var f :| f in Rows(sess) && HeadOfRow(sess, f) == h;
    SameRows(sess, failures, f);
    var n :| 0 <= n < |failures| && failures[n] == f;
    assert HeadsOf(sess, failures)[n] == h;
  }

  lemma EachRowReads(sess: seq<Session>, failures: seq<Failure>, n: nat)
    requires StableSortOf(failures, Rows(sess), ByUrgency) && n < |failures|
    ensures RowReads(sess, HeadsOf(sess, failures)[n], failures[n])
  {
    SameRows(sess, failures, failures[n]);
    RowsReadAs(sess, failures[n]);
  }

  /** The rows the grouping comes out with. */
  lemma FailuresReadAs(sess: seq<Session>, failures: seq<Failure>)
    requires StableSortOf(failures, Rows(sess), ByUrgency)
    ensures FailuresRead(sess, failures)
  {
    var heads := HeadsOf(sess, failures);
    forall n | 0 <= n < |failures| ensures RowReads(sess, heads[n], failures[n]) { EachRowReads(sess, failures, n); }
    forall h | IsHead(sess, h) ensures h in heads { EveryHeadIsThere(sess, failures, h); }
    forall n, m | 0 <= n < m < |failures| ensures Precedes(failures[n], heads[n], failures[m], heads[m]) {
      OrderedRows(sess, failures, n, m);
    }
  }
}
