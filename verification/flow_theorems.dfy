/** What the architecture graph shows, for all listings and all jobs. */
module FlowTheorems {
  import opened Wrappers
  import opened FlowEdges
  import opened Flow

  predicate Shown(g: Graph, id: string) {
    exists n :: n in g.nodes && n.0 == id
  }

  /** The role of the first server listed under the id. */
  function ServerRole(ms: seq<Managed>, id: string): Option<Role> {
    if ms == [] then None
    else
      var before := ServerRole(ms[..|ms| - 1], id);
      if before == None && ms[|ms| - 1].id == id then Some(ms[|ms| - 1].role) else before
  }

  /** A server of no other role, listed first under its id. */
  predicate PlainServer(ms: seq<Managed>, id: string) {
    id != "" && ServerRole(ms, id) == Some(ManagedServer)
  }

  predicate Mounts(rs: seq<RepoItem>, id: string) {
    id != "" && exists r :: r in rs && r.mount == id
  }

  predicate InListings(ms: seq<Managed>, ps: seq<ProxyItem>, rs: seq<RepoItem>, id: string) {
    || (exists m :: m in ms && m.id == id)
    || (exists p :: p in ps && p.id == id)
    || (exists r :: r in rs && (r.id == id || r.mount == id))
  }

  predicate Plain(t: Table, id: string) {
    id in t && t[id].role == ManagedServer
  }

  lemma {:induction false} ManagedNodes(ms: seq<Managed>, id: string)
    ensures id in WithManaged(ms) <==> id != "" && exists m :: m in ms && m.id == id
    ensures id in WithManaged(ms) ==> ServerRole(ms, id) == Some(WithManaged(ms)[id].role)
    ensures ServerRole(ms, id) == None <==> !exists m :: m in ms && m.id == id
  {
    if ms != [] {
      ManagedNodes(ms[..|ms| - 1], id);
      assert ms == ms[..|ms| - 1] + [ms[|ms| - 1]];
    }
  }

  lemma {:induction false} ProxyNodes(t: Table, ps: seq<ProxyItem>, id: string)
    ensures id in WithProxies(t, ps) <==> id in t || (id != "" && exists p :: p in ps && p.id == id)
    ensures Plain(WithProxies(t, ps), id) <==> Plain(t, id)
  {
    if ps != [] {
      ProxyNodes(t, ps[..|ps| - 1], id);
      assert ps == ps[..|ps| - 1] + [ps[|ps| - 1]];
    }
  }

  lemma OneRepository(t: Table, r: RepoItem, ms: seq<Managed>, id: string)
    ensures id in WithRepository(t, r, ms) <==> id in t || (id != "" && (r.id == id || r.mount == id))
    ensures Plain(WithRepository(t, r, ms), id) <==> Plain(t, id) && (id == "" || r.mount != id)
  {
  }

  lemma {:induction false} RepositoryNodes(t: Table, rs: seq<RepoItem>, ms: seq<Managed>, id: string)
    requires "" !in t
    ensures id in WithRepositories(t, rs, ms) <==>
      id in t || (id != "" && exists r :: r in rs && (r.id == id || r.mount == id))
    ensures Plain(WithRepositories(t, rs, ms), id) <==> Plain(t, id) && !Mounts(rs, id)
  {
    if rs != [] {
      var init, last := rs[..|rs| - 1], rs[|rs| - 1];
      RepositoryNodes(t, init, ms, id);
      OneRepository(WithRepositories(t, init, ms), last, ms, id);
      assert rs == init + [last];
      assert forall r :: r in rs <==> r in init || r == last;
    }
  }

  lemma ListedNodes(ms: seq<Managed>, ps: seq<ProxyItem>, rs: seq<RepoItem>, id: string)
    ensures id in Listed(ms, ps, rs) <==> id != "" && InListings(ms, ps, rs, id)
    ensures Plain(Listed(ms, ps, rs), id) <==> PlainServer(ms, id) && !Mounts(rs, id)
  {
    ManagedNodes(ms, id);
    ManagedNodes(ms, "");
    ProxyNodes(WithManaged(ms), ps, id);
    ProxyNodes(WithManaged(ms), ps, "");
    RepositoryNodes(WithProxies(WithManaged(ms), ps), rs, ms, id);
  }

  /** A node is shown exactly when some listing or job has it, unless it is a plain server that mounts nothing. */
  lemma ShownIff(ms: seq<Managed>, ps: seq<ProxyItem>, rs: seq<RepoItem>, links: map<Link, bool>, g: Graph, id: string)
    requires IsGraph(ms, ps, rs, links, g)
    requires "" !in Targets(links)
    ensures Shown(g, id) <==>
      && id != ""
      && (InListings(ms, ps, rs, id) || id in Targets(links))
      && (PlainServer(ms, id) ==> Mounts(rs, id))
  {
    ListedNodes(ms, ps, rs, id);
    var t := WithUnlisted(Listed(ms, ps, rs), Targets(links));
    if id in t && t[id].role != ManagedServer {
      assert (id, t[id]) in g.nodes;
    }
  }

  lemma LinksEndAtRepositories(links: map<Link, bool>, jobs: seq<Job>, eligible: seq<string>)
    requires IsLinkTable(links, jobs, eligible)
    ensures "" !in Targets(links)
    ensures forall k :: k in links ==> k.0 != "" && k.1 in Targets(links)
  {
    forall k | k in links ensures k.0 != "" && k.1 != "" && k.1 in Targets(links) {
      assert Named(jobs, k) || Left(jobs, eligible, k);
    }
  }

  lemma {:induction false} MountEdgesName(rs: seq<RepoItem>, e: Edge)
    requires e in MountEdges(rs)
    ensures e.kind == Mount && Mounts(rs, e.to)
  {
    var init, last := rs[..|rs| - 1], rs[|rs| - 1];
    assert rs == init + [last];
    if e in MountEdges(init) {
      MountEdgesName(init, e);
    } else {
      assert last in rs;
    }
  }

  /** Every mount server an edge points at is shown. */
  lemma MountServersAreShown(ms: seq<Managed>, ps: seq<ProxyItem>, rs: seq<RepoItem>, links: map<Link, bool>, g: Graph,
                             e: Edge)
    requires IsGraph(ms, ps, rs, links, g) && "" !in Targets(links)
    requires e in g.edges && e.kind == Mount
    ensures Shown(g, e.to)
  {
    var n := |MountEdges(rs)|;
    assert g.edges == g.edges[..n] + g.edges[n..];
    assert e !in g.edges[n..];
    MountEdgesName(rs, e);
    ShownIff(ms, ps, rs, links, g, e.to);
  }

  /** The repository a link points at is shown unless its id is that of a plain server that mounts nothing. */
  lemma LinkedRepositoryIsShownIff(ms: seq<Managed>, ps: seq<ProxyItem>, rs: seq<RepoItem>, jobs: seq<Job>,
                                   links: map<Link, bool>, g: Graph, k: Link)
    requires IsLinkTable(links, jobs, Eligible(ps)) && IsGraph(ms, ps, rs, links, g)
    ensures k in links ==> (Shown(g, k.1) <==> (PlainServer(ms, k.1) ==> Mounts(rs, k.1)))
  {
    LinksEndAtRepositories(links, jobs, Eligible(ps));
    ShownIff(ms, ps, rs, links, g, k.1);
  }

  /** A job writes to a repository under the id of a plain server: the link points at no node. */
  lemma ARepositoryMayHideBehindAServer(links: map<Link, bool>, g: Graph, proxy: string, repo: string)
    requires IsLinkTable(links, [Job(repo, "", [proxy])], [])
    requires IsGraph([Managed(repo, "", ManagedServer)], [], [], links, g)
    requires IsRepository(repo) && proxy != "" && proxy != repo
    ensures (proxy, repo) in links && !Shown(g, repo)
  {
    var ms := [Managed(repo, "", ManagedServer)];
    TheOnlyLink(links, proxy, repo);
    assert Targets(links) == {repo};
    assert ServerRole(ms[..0], repo) == None;
    assert PlainServer(ms, repo) && !Mounts([], repo);
    ShownIff(ms, [], [], links, g, repo);
  }

  lemma {:induction false} EligibleAreListed(ps: seq<ProxyItem>, id: string)
    ensures id in Eligible(ps) <==> id != "" && exists p :: p in ps && p.id == id
  {
    if ps != [] {
      EligibleAreListed(ps[..|ps| - 1], id);
      assert ps == ps[..|ps| - 1] + [ps[|ps| - 1]];
    }
  }

  /**
    The proxy a link starts at is shown when a listing or another link has it and it is no plain
    server.  For a link the server makes, a listing always has it.
   */
  lemma LinkedProxyIsShownIff(ms: seq<Managed>, ps: seq<ProxyItem>, rs: seq<RepoItem>, jobs: seq<Job>,
                              links: map<Link, bool>, g: Graph, k: Link)
    requires IsLinkTable(links, jobs, Eligible(ps)) && IsGraph(ms, ps, rs, links, g)
    ensures k in links ==>
      (Shown(g, k.0) <==>
        && (InListings(ms, ps, rs, k.0) || k.0 in Targets(links))
        && (PlainServer(ms, k.0) ==> Mounts(rs, k.0)))
    ensures k in links && links[k] ==> InListings(ms, ps, rs, k.0)
  {
    LinksEndAtRepositories(links, jobs, Eligible(ps));
    ShownIff(ms, ps, rs, links, g, k.0);
    if k in links && links[k] {
      var j :| j in jobs && Leaves(j, Eligible(ps), k);
      EligibleAreListed(ps, k.0);
    }
  }

  lemma TheOnlyLink(links: map<Link, bool>, proxy: string, repo: string)
    requires IsLinkTable(links, [Job(repo, "", [proxy])], []) && IsRepository(repo) && proxy != ""
    ensures links.Keys == {(proxy, repo)}
  {
    var jobs := [Job(repo, "", [proxy])];
    assert jobs[0] in jobs && Names(jobs[0], (proxy, repo));
    assert Named(jobs, (proxy, repo));
    forall k | k in links ensures k == (proxy, repo) {
      assert Named(jobs, k) || Left(jobs, [], k);
    }
  }

  /** A link from a proxy that no listing has starts nowhere; only repositories get a stand-in. */
  lemma AnUnlistedProxyIsNotShown(links: map<Link, bool>, g: Graph, proxy: string, repo: string)
    requires IsLinkTable(links, [Job(repo, "", [proxy])], []) && IsGraph([], [], [], links, g)
    requires IsRepository(repo) && proxy != "" && proxy != repo
    ensures (proxy, repo) in links && Shown(g, repo) && !Shown(g, proxy)
  {
    TheOnlyLink(links, proxy, repo);
    assert Targets(links) == {repo};
    ShownIff([], [], [], links, g, repo);
    ShownIff([], [], [], links, g, proxy);
  }

  /** Two graphs of the same listings show the same nodes and edges, however their jobs are ordered. */
  lemma GraphIgnoresJobOrder(ms: seq<Managed>, ps: seq<ProxyItem>, rs: seq<RepoItem>, jobs: seq<Job>, jobs': seq<Job>,
                             a: map<Link, bool>, b: map<Link, bool>, g: Graph, h: Graph)
    requires multiset(jobs) == multiset(jobs')
    requires IsLinkTable(a, jobs, Eligible(ps)) && IsLinkTable(b, jobs', Eligible(ps))
    requires IsGraph(ms, ps, rs, a, g) && IsGraph(ms, ps, rs, b, h)
    ensures a == b
    ensures forall n :: n in g.nodes <==> n in h.nodes
    ensures forall e :: e in g.edges <==> e in h.edges
  {
    LinksIgnoreTheOrder(a, b, jobs, jobs', Eligible(ps), Eligible(ps));
    var n := |MountEdges(rs)|;
    assert g.edges == g.edges[..n] + g.edges[n..] && h.edges == h.edges[..n] + h.edges[n..];
    forall e ensures e in g.edges[n..] <==> e in h.edges[n..] {
      if e in g.edges[n..] { assert LinkEdge((e.from, e.to), b[(e.from, e.to)]) in h.edges[n..]; }
      if e in h.edges[n..] { assert LinkEdge((e.from, e.to), a[(e.from, e.to)]) in g.edges[n..]; }
    }
  }
}
