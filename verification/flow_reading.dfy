/** What every node and edge of the architecture graph says, told from the listings and the jobs. */
module FlowReading {
  import opened FlowEdges
  import opened Flow
  import opened FlowTheorems

  // --- edges ------------------------------------------------------------------------------------

  /** One edge per repository entry with a mount server. */
  predicate MountReads(rs: seq<RepoItem>, e: Edge) {
    e.kind == Mount && !e.auto && exists i :: 0 <= i < |rs| && rs[i].id == e.from && rs[i].mount == e.to != ""
  }

  /** The repository of the job: the one under its first key, else that under its second; the null id is none. */
  predicate WritesThere(j: Job, to: string) {
    && to != "" && to != "00000000-0000-0000-0000-000000000000"
    && (j.backupRepository == to || (j.backupRepository == "" && j.repository == to))
  }

  predicate AJobNames(jobs: seq<Job>, from: string, to: string) {
    from != "" && exists i :: 0 <= i < |jobs| && WritesThere(jobs[i], to) && from in jobs[i].proxies
  }

  /** A job that names no proxy may use any that is listed. */
  predicate AJobMayUse(jobs: seq<Job>, ps: seq<ProxyItem>, from: string, to: string) {
    && from != "" && (exists i :: 0 <= i < |ps| && ps[i].id == from)
    && exists i :: 0 <= i < |jobs| && WritesThere(jobs[i], to) && jobs[i].proxies == []
  }

  /** A link some job makes, marked automatic where no job names the proxy itself. */
  predicate LinkReads(jobs: seq<Job>, ps: seq<ProxyItem>, e: Edge) {
    && e.kind == WritesTo
    && (AJobNames(jobs, e.from, e.to) || AJobMayUse(jobs, ps, e.from, e.to))
    && (e.auto <==> !AJobNames(jobs, e.from, e.to))
  }

  lemma NamedIff(jobs: seq<Job>, from: string, to: string)
    ensures AJobNames(jobs, from, to) <==> Named(jobs, (from, to))
  {
    if AJobNames(jobs, from, to) {
      var i :| 0 <= i < |jobs| && WritesThere(jobs[i], to) && from in jobs[i].proxies;
      assert Names(jobs[i], (from, to));
    }
    if Named(jobs, (from, to)) {
      var j :| j in jobs && Names(j, (from, to));
      var i :| 0 <= i < |jobs| && jobs[i] == j;
      assert WritesThere(jobs[i], to);
    }
  }

  lemma LeftIff(jobs: seq<Job>, ps: seq<ProxyItem>, from: string, to: string)
    ensures AJobMayUse(jobs, ps, from, to) <==> Left(jobs, Eligible(ps), (from, to))
  {
    EligibleAreListed(ps, from);
    if AJobMayUse(jobs, ps, from, to) {
      var k :| 0 <= k < |ps| && ps[k].id == from;
      var i :| 0 <= i < |jobs| && WritesThere(jobs[i], to) && jobs[i].proxies == [];
      assert ps[k] in ps && Leaves(jobs[i], Eligible(ps), (from, to));
    }
    if Left(jobs, Eligible(ps), (from, to)) {
      var j :| j in jobs && Leaves(j, Eligible(ps), (from, to));
      var i :| 0 <= i < |jobs| && jobs[i] == j;
      var p :| p in ps && p.id == from;
      assert WritesThere(jobs[i], to);
    }
  }

  lemma LinkEdgesRead(jobs: seq<Job>, ps: seq<ProxyItem>, links: map<Link, bool>, made: seq<Edge>, e: Edge)
    requires IsLinkTable(links, jobs, Eligible(ps)) && EdgesOf(links, made)
    ensures e in made <==> LinkReads(jobs, ps, e)
  {
    NamedIff(jobs, e.from, e.to);
    LeftIff(jobs, ps, e.from, e.to);
    if LinkReads(jobs, ps, e) { assert LinkEdge((e.from, e.to), links[(e.from, e.to)]) in made; }
  }

  lemma {:induction false} MountEdgesRead(rs: seq<RepoItem>, e: Edge)
    ensures e in MountEdges(rs) <==> MountReads(rs, e)
  {
    if rs != [] {
      var n := |rs| - 1;
      MountEdgesRead(rs[..n], e);
      if MountReads(rs[..n], e) {
        var i :| 0 <= i < n && rs[..n][i].id == e.from && rs[..n][i].mount == e.to != "";
        assert rs[i].id == e.from;
      }
      if MountReads(rs, e) {
        var i :| 0 <= i < |rs| && rs[i].id == e.from && rs[i].mount == e.to != "";
        assert i < n ==> rs[..n][i].id == e.from;
      }
    }
  }

  /** The edges are the mounts and the links. */
  lemma EdgesReadAs(ms: seq<Managed>, ps: seq<ProxyItem>, rs: seq<RepoItem>, jobs: seq<Job>, links: map<Link, bool>,
                    g: Graph, e: Edge)
    requires IsLinkTable(links, jobs, Eligible(ps)) && IsGraph(ms, ps, rs, links, g)
    ensures e in g.edges <==> MountReads(rs, e) || LinkReads(jobs, ps, e)
  {
    var n := |MountEdges(rs)|;
    assert g.edges == g.edges[..n] + g.edges[n..];
    MountEdgesRead(rs, e);
    LinkEdgesRead(jobs, ps, links, g.edges[n..], e);
  }

  /** No link is drawn twice. */
  lemma ALinkIsOneEdge(ms: seq<Managed>, ps: seq<ProxyItem>, rs: seq<RepoItem>, links: map<Link, bool>, g: Graph,
                       i: nat, j: nat)
    requires IsGraph(ms, ps, rs, links, g) && i < j < |g.edges| && g.edges[i].kind == WritesTo
    ensures (g.edges[i].from, g.edges[i].to) != (g.edges[j].from, g.edges[j].to) || g.edges[j].kind == Mount
  {
    var n := |MountEdges(rs)|;
    var made := g.edges[n..];
    if i < n {
      assert MountEdges(rs)[i] == g.edges[i];
      MountEdgesRead(rs, g.edges[i]);
    } else {
      assert made[i - n] == g.edges[i] && made[j - n] == g.edges[j];
    }
  }

  // --- nodes ------------------------------------------------------------------------------------

  predicate ServerAt(ms: seq<Managed>, i: int, id: string) {
    0 <= i < |ms| && ms[i].id == id && forall k :: 0 <= k < i ==> ms[k].id != id
  }

  predicate ProxyAt(ps: seq<ProxyItem>, i: int, id: string) {
    0 <= i < |ps| && ps[i].id == id && forall k :: 0 <= k < i ==> ps[k].id != id
  }

  predicate Mentions(r: RepoItem, id: string) {
    r.id == id || r.mount == id
  }

  /** The first repository entry with this id, as its own or as that of its mount server. */
  predicate EntryAt(rs: seq<RepoItem>, i: int, id: string) {
    0 <= i < |rs| && Mentions(rs[i], id) && forall k :: 0 <= k < i ==> !Mentions(rs[k], id)
  }

  /** The kind stated last for the repository with this id. */
  predicate KindReads(rs: seq<RepoItem>, id: string, kind: string) {
    if kind == "" then forall i :: 0 <= i < |rs| && rs[i].id == id ==> rs[i].kind == ""
    else exists i :: 0 <= i < |rs| && rs[i].id == id && rs[i].kind == kind && NoKindBehind(rs, i, id)
  }

  predicate NoKindBehind(rs: seq<RepoItem>, i: int, id: string) {
    forall k :: 0 <= k < |rs| && i < k && rs[k].id == id ==> rs[k].kind == ""
  }

  function Stated(name: string, other: string): string {
    if name == "" then other else name
  }

  /**
    Title, role and kind of a node.  The servers come first, then the proxies, then the
    repositories; who mentions an id first decides, only a plain server becomes a mount server.
   */
  ghost predicate NodeReads(ms: seq<Managed>, ps: seq<ProxyItem>, rs: seq<RepoItem>, id: string, v: View) {
    if exists i :: ServerAt(ms, i, id) then
      && KindReads(rs, id, v.kind)
      && exists i :: ServerAt(ms, i, id) && v.title == Stated(ms[i].name, "server")
           && v.role == if ms[i].role == ManagedServer && Mounts(rs, id) then MountServer else ms[i].role
    else if exists i :: ProxyAt(ps, i, id) then
      && KindReads(rs, id, v.kind) && v.role == ProxyServer
      && exists i :: ProxyAt(ps, i, id) && v.title == Stated(ps[i].name, "proxy")
    else if exists i :: EntryAt(rs, i, id) then
      && KindReads(rs, id, v.kind)
      && exists i :: EntryAt(rs, i, id)
           && v.title == (if rs[i].id == id then Stated(rs[i].name, "repository") else "mount server")
           && v.role == if rs[i].id == id then Repository else MountServer
    else v == View("(repository not listed by the REST API)", Repository, "unknown")
  }

  /** Where the id is listed first; past the end when it is not. */
  function FirstServer(ms: seq<Managed>, id: string): (i: nat)
    ensures i < |ms| ==> ServerAt(ms, i, id)
    ensures i >= |ms| ==> i == |ms| && forall k :: 0 <= k < |ms| ==> ms[k].id != id
  {
    if ms == [] then 0
    else
      var n := |ms| - 1;
      var i := FirstServer(ms[..n], id);
      if i < n then assert ServerAt(ms[..n], i, id); i else if ms[n].id == id then n else n + 1
  }

  function FirstProxy(ps: seq<ProxyItem>, id: string): (i: nat)
    ensures i < |ps| ==> ProxyAt(ps, i, id)
    ensures i >= |ps| ==> i == |ps| && forall k :: 0 <= k < |ps| ==> ps[k].id != id
  {
    if ps == [] then 0
    else
      var n := |ps| - 1;
      var i := FirstProxy(ps[..n], id);
      if i < n then assert ProxyAt(ps[..n], i, id); i else if ps[n].id == id then n else n + 1
  }

  function FirstEntry(rs: seq<RepoItem>, id: string): (i: nat)
    ensures i < |rs| ==> EntryAt(rs, i, id)
    ensures i >= |rs| ==> i == |rs| && forall k :: 0 <= k < |rs| ==> !Mentions(rs[k], id)
  {
    if rs == [] then 0
    else
      var n := |rs| - 1;
      var i := FirstEntry(rs[..n], id);
      if i < n then assert EntryAt(rs[..n], i, id); i else if Mentions(rs[n], id) then n else n + 1
  }

  lemma {:induction false} ServerView(ms: seq<Managed>, id: string)
    requires id != ""
    ensures var i := FirstServer(ms, id);
      if i < |ms| then
        id in WithManaged(ms) && WithManaged(ms)[id] == View(Stated(ms[i].name, "server"), ms[i].role, "")
      else id !in WithManaged(ms)
  {
    if ms != [] { ServerView(ms[..|ms| - 1], id); }
  }

  lemma {:induction false} ProxyView(t: Table, ps: seq<ProxyItem>, id: string)
    requires id != ""
    ensures var i, out := FirstProxy(ps, id), WithProxies(t, ps);
      if id in t then id in out && out[id] == t[id]
      else if i < |ps| then id in out && out[id] == View(Stated(ps[i].name, "proxy"), ProxyServer, "")
      else id !in out
  {
    if ps != [] { ProxyView(t, ps[..|ps| - 1], id); }
  }

  /** The last kind stated for the id, or what it was. */
  function LastKind(rs: seq<RepoItem>, id: string, before: string): string {
    if rs == [] then before else KindAfter(rs[|rs| - 1], id, LastKind(rs[..|rs| - 1], id, before))
  }

  lemma {:induction false} LastKindReads(rs: seq<RepoItem>, id: string)
    ensures KindReads(rs, id, LastKind(rs, id, ""))
  {
    if rs != [] {
      var n := |rs| - 1;
      LastKindReads(rs[..n], id);
      assert forall k :: 0 <= k < n ==> rs[..n][k] == rs[k];
      var kind := LastKind(rs, id, "");
      if rs[n].id == id && rs[n].kind != "" {
        assert NoKindBehind(rs, n, id);
      } else if kind != "" {
        var i :| 0 <= i < n && rs[..n][i].id == id && rs[..n][i].kind == kind && NoKindBehind(rs[..n], i, id);
        assert rs[i].kind == kind && NoKindBehind(rs, i, id);
      }
    }
  }

  function MountRole(role: Role, mounted: bool): Role {
    if role == ManagedServer && mounted then MountServer else role
  }

  function KindAfter(r: RepoItem, id: string, before: string): string {
    if r.id == id && r.kind != "" then r.kind else before
  }

  /** What one repository makes of a node that is there already. */
  lemma OneKnown(t: Table, r: RepoItem, ms: seq<Managed>, id: string)
    requires id != "" && id in t
    ensures var out := WithRepository(t, r, ms);
      id in out && out[id] == View(t[id].title, MountRole(t[id].role, r.mount == id), KindAfter(r, id, t[id].kind))
  {}

  lemma OneNew(t: Table, r: RepoItem, ms: seq<Managed>, id: string)
    requires id != "" && id !in t
    ensures var out := WithRepository(t, r, ms);
      if r.id == id then
        id in out && out[id] == View(Stated(r.name, "repository"), Repository, r.kind)
      else if r.mount == id then id in out && out[id] == View(LabelFor(ms, id), MountServer, "")
      else id !in out
  {}

  lemma OneMoreMount(rs: seq<RepoItem>, id: string)
    requires rs != []
    ensures Mounts(rs, id) <==> Mounts(rs[..|rs| - 1], id) || (id != "" && rs[|rs| - 1].mount == id)
  {
    assert rs == rs[..|rs| - 1] + [rs[|rs| - 1]];
  }

  /** What the repositories make of a node that is there already. */
  lemma {:induction false} KnownView(t: Table, rs: seq<RepoItem>, ms: seq<Managed>, id: string)
    requires id != "" && id in t
    ensures var out := WithRepositories(t, rs, ms);
      id in out
      && out[id] == View(t[id].title, MountRole(t[id].role, Mounts(rs, id)), LastKind(rs, id, t[id].kind))
  {
    if rs != [] {
      var init, last := rs[..|rs| - 1], rs[|rs| - 1];
      KnownView(t, init, ms, id);
      OneKnown(WithRepositories(t, init, ms), last, ms, id);
      OneMoreMount(rs, id);
    }
  }

  /** What they make of an id that only they mention. */
  lemma {:induction false} EntryView(t: Table, rs: seq<RepoItem>, ms: seq<Managed>, id: string)
    requires id != "" && id !in t
    ensures var i, out := FirstEntry(rs, id), WithRepositories(t, rs, ms);
      if i < |rs| then
        id in out && out[id] == View(
          if rs[i].id == id then Stated(rs[i].name, "repository") else LabelFor(ms, id),
          if rs[i].id == id then Repository else MountServer,
          LastKind(rs, id, ""))
      else id !in out && LastKind(rs, id, "") == ""
  {
    if rs != [] {
      var init, last := rs[..|rs| - 1], rs[|rs| - 1];
      EntryView(t, init, ms, id);
      var before := WithRepositories(t, init, ms);
      if id in before { OneKnown(before, last, ms, id); } else { OneNew(before, last, ms, id); }
    }
  }

  lemma {:induction false} NoLabel(ms: seq<Managed>, id: string)
    requires forall k :: 0 <= k < |ms| ==> ms[k].id != id
    ensures LabelFor(ms, id) == "mount server"
  {
    if ms != [] { NoLabel(ms[1..], id); }
  }

  lemma ListedReads(ms: seq<Managed>, ps: seq<ProxyItem>, rs: seq<RepoItem>, id: string)
    requires id != "" && id in Listed(ms, ps, rs)
    ensures NodeReads(ms, ps, rs, id, Listed(ms, ps, rs)[id])
  {
    ServerView(ms, id);
    ProxyView(WithManaged(ms), ps, id);
    LastKindReads(rs, id);
    var t := WithProxies(WithManaged(ms), ps);
    if id in t {
      KnownView(t, rs, ms, id);
    } else {
      EntryView(t, rs, ms, id);
      NoLabel(ms, id);
    }
  }

  lemma UnlistedReads(ms: seq<Managed>, ps: seq<ProxyItem>, rs: seq<RepoItem>, id: string)
    requires id != "" && id !in Listed(ms, ps, rs)
    ensures NodeReads(ms, ps, rs, id, View(UNLISTED, Repository, "unknown"))
  {
    ListedNodes(ms, ps, rs, id);
  }

  /** Every node shown says this. */
  lemma NodesReadAs(ms: seq<Managed>, ps: seq<ProxyItem>, rs: seq<RepoItem>, links: map<Link, bool>, g: Graph,
                    id: string, v: View)
    requires IsGraph(ms, ps, rs, links, g) && "" !in Targets(links)
    ensures (id, v) in g.nodes ==> NodeReads(ms, ps, rs, id, v)
  {
    if (id, v) in g.nodes {
      assert FlowTheorems.Shown(g, id);
      ShownIff(ms, ps, rs, links, g, id);
      if id in Listed(ms, ps, rs) { ListedReads(ms, ps, rs, id); } else { UnlistedReads(ms, ps, rs, id); }
    }
  }
}
