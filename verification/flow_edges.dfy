/**
  Which proxy writes to which repository: assignments the jobs make themselves and those the
  server makes for them, merged into one table.
 */
module FlowEdges {

  const EMPTY_GUID := "00000000-0000-0000-0000-000000000000"

  /** A job's repository as its settings name it, under the first key or the second, and its proxies. */
  datatype Job = Job(backupRepository: string, repository: string, proxies: seq<string>)

  type Link = (string, string)

  predicate IsRepository(id: string) {
    id != "" && id != EMPTY_GUID
  }

  function RepositoryOf(j: Job): string {
    if j.backupRepository != "" then j.backupRepository else j.repository
  }

  /** The job names the proxy for the repository itself. */
  predicate Names(j: Job, k: Link) {
    IsRepository(k.1) && RepositoryOf(j) == k.1 && k.0 in j.proxies && k.0 != ""
  }

  /** The job leaves the choice to the server, which may take any proxy. */
  predicate Leaves(j: Job, eligible: seq<string>, k: Link) {
    IsRepository(k.1) && RepositoryOf(j) == k.1 && j.proxies == [] && k.0 in eligible && k.0 != ""
  }

  predicate Named(jobs: seq<Job>, k: Link) {
    exists j :: j in jobs && Names(j, k)
  }

  predicate Left(jobs: seq<Job>, eligible: seq<string>, k: Link) {
    exists j :: j in jobs && Leaves(j, eligible, k)
  }

  /** The table has the links some job makes, marked automatic where no job names the proxy itself. */
  ghost predicate IsLinkTable(table: map<Link, bool>, jobs: seq<Job>, eligible: seq<string>) {
    forall k ::
      && (k in table <==> Named(jobs, k) || Left(jobs, eligible, k))
      && (k in table ==> (table[k] <==> !Named(jobs, k)))
  }

  /** The order of the jobs and of the proxies is of no consequence. */
  lemma LinksIgnoreTheOrder(a: map<Link, bool>, b: map<Link, bool>, jobs: seq<Job>, jobs': seq<Job>,
                            eligible: seq<string>, eligible': seq<string>)
    requires multiset(jobs) == multiset(jobs') && multiset(eligible) == multiset(eligible')
    requires IsLinkTable(a, jobs, eligible) && IsLinkTable(b, jobs', eligible')
    ensures a == b
  {
    assert forall j :: j in jobs <==> j in multiset(jobs);
    assert forall j :: j in jobs' <==> j in multiset(jobs');
    assert forall p :: p in eligible <==> p in multiset(eligible);
    assert forall p :: p in eligible' <==> p in multiset(eligible');
    forall k
      ensures k in a <==> k in b
      ensures k in a ==> a[k] == b[k]
    {
      assert Named(jobs, k) <==> Named(jobs', k);
      assert Left(jobs, eligible, k) <==> Left(jobs', eligible', k);
    }
  }

  /** One assignment; one the job makes itself always wins. */
  function Put(table: map<Link, bool>, from: string, to: string, auto: bool): map<Link, bool> {
    if from == "" || !IsRepository(to) then table
    else if (from, to) !in table || !auto then table[(from, to) := auto]
    else table
  }

  /** After the assignments of `froms` to `to`. */
  ghost predicate PutAll(table: map<Link, bool>, froms: seq<string>, to: string, auto: bool, out: map<Link, bool>) {
    forall k: Link ::
      var hit := k.1 == to && IsRepository(to) && k.0 in froms && k.0 != "";
      && (k in out <==> k in table || hit)
      && (k in out ==> out[k] == if hit && !auto then false else if k in table then table[k] else auto)
  }

  method Assign(table: map<Link, bool>, froms: seq<string>, to: string, auto: bool) returns (out: map<Link, bool>)
    ensures PutAll(table, froms, to, auto, out)
  {
    out := table;
    for i := 0 to |froms|
      invariant PutAll(table, froms[..i], to, auto, out)
    {
      assert froms[..i + 1] == froms[..i] + [froms[i]];
      out := Put(out, froms[i], to, auto);
    }
    assert froms[..|froms|] == froms;
  }

  lemma OneMoreJob(table: map<Link, bool>, jobs: seq<Job>, j: Job, eligible: seq<string>, out: map<Link, bool>)
    requires IsLinkTable(table, jobs, eligible)
    requires if j.proxies != [] then PutAll(table, j.proxies, RepositoryOf(j), false, out)
             else PutAll(table, eligible, RepositoryOf(j), true, out)
    ensures IsLinkTable(out, jobs + [j], eligible)
  {
    forall k
      ensures k in out <==> Named(jobs + [j], k) || Left(jobs + [j], eligible, k)
      ensures k in out ==> (out[k] <==> !Named(jobs + [j], k))
    {
      OneMore(jobs, j, eligible, k);
    }
  }

  lemma OneMore(jobs: seq<Job>, j: Job, eligible: seq<string>, k: Link)
    ensures Named(jobs + [j], k) <==> Named(jobs, k) || Names(j, k)
    ensures Left(jobs + [j], eligible, k) <==> Left(jobs, eligible, k) || Leaves(j, eligible, k)
  {
    assert forall x :: x in jobs + [j] <==> x in jobs || x == j;
  }

  lemma NothingToAssign(table: map<Link, bool>, froms: seq<string>, to: string, auto: bool)
    requires !IsRepository(to)
    ensures PutAll(table, froms, to, auto, table)
  {
  }

  method LinkTable(jobs: seq<Job>, eligible: seq<string>) returns (table: map<Link, bool>)
    ensures IsLinkTable(table, jobs, eligible)
  {
    table := map[];
    for i := 0 to |jobs|
      invariant IsLinkTable(table, jobs[..i], eligible)
    {
      var j := jobs[i];
      ghost var before := table;
      var repo := j.backupRepository;
      if repo == "" { repo := j.repository; }
      if repo == "" || repo == EMPTY_GUID {
        NothingToAssign(table, j.proxies, repo, false);
        NothingToAssign(table, eligible, repo, true);
      } else if j.proxies != [] {
        table := Assign(table, j.proxies, repo, false);
      } else {
        table := Assign(table, eligible, repo, true);
      }
      OneMoreJob(before, jobs[..i], j, eligible, table);
      assert jobs[..i + 1] == jobs[..i] + [j];
    }
    assert jobs[..|jobs|] == jobs;
  }
}
