/** The architecture graph: nodes by role, mount edges, and the links the jobs make. */
module Flow {
  import opened Wrappers
  import opened FlowEdges

  datatype Role = ManagedServer | ProxyServer | Repository | MountServer | Gateway | BackupServer

  datatype Managed = Managed(id: string, name: string, role: Role)
  datatype ProxyItem = ProxyItem(id: string, name: string)
  datatype RepoItem = RepoItem(id: string, name: string, kind: string, mount: string)

  datatype EdgeKind = Mount | WritesTo
  datatype Edge = Edge(from: string, to: string, kind: EdgeKind, auto: bool)

  datatype View = View(title: string, role: Role, kind: string)

  const UNLISTED := "(repository not listed by the REST API)"

  class Node {
    const id: string
    const title: string
    var role: Role
    var kind: string

    constructor (id: string, title: string, role: Role)
      ensures this.id == id && this.title == title && this.role == role && this.kind == ""
    {
      this.id, this.title, this.role, this.kind := id, title, role, "";
    }

    function Seen(): View
      reads this
    {
      View(title, role, kind)
    }
  }

  // --- the table of nodes as a value ---------------------------------------------------------

  type Table = map<string, View>

  function Added(t: Table, id: string, title: string, role: Role): Table {
    if id == "" || id in t then t else t[id := View(title, role, "")]
  }

  function KindSet(t: Table, id: string, kind: string): Table {
    if id in t && kind != "" then t[id := t[id].(kind := kind)] else t
  }

  function Promoted(t: Table, id: string, role: Role): Table {
    if id in t && t[id].role == ManagedServer then t[id := t[id].(role := role)] else t
  }

  /** Each node is listed once and found under its id. */
  ghost predicate Indexed(order: seq<Node>, byID: map<string, Node>) {
    && (forall id :: id in byID ==> byID[id].id == id && id != "" && byID[id] in order)
    && (forall i :: 0 <= i < |order| ==> order[i].id in byID && byID[order[i].id] == order[i])
    && (forall i, j :: 0 <= i < j < |order| ==> order[i].id != order[j].id)
  }

  lemma OneMoreNode(order: seq<Node>, byID: map<string, Node>, n: Node)
    requires Indexed(order, byID) && n.id != "" && n.id !in byID
    ensures Indexed(order + [n], byID[n.id := n])
  {
  }

  class Builder {
    var order: seq<Node>
    var byID: map<string, Node>
    var edges: seq<Edge>

    ghost predicate Valid()
      reads this
    {
      Indexed(order, byID)
    }

    function Nodes(): Table
      reads this, byID.Values
    {
      map id | id in byID :: byID[id].Seen()
    }

    constructor ()
      ensures Valid() && Nodes() == map[] && order == [] && edges == [] && byID == map[]
    {
      order, byID, edges := [], map[], [];
    }

    method Add(id: string, title: string, role: Role)
      requires Valid()
      modifies this`order, this`byID
      ensures Valid() && Nodes() == Added(old(Nodes()), id, title, role)
      ensures old(order) <= order
      ensures fresh(byID.Values - old(byID.Values))
    {
      if id == "" || id in byID { return; }
      var n := new Node(id, title, role);
      Insert(n);
    }

    method Insert(n: Node)
      requires Valid() && n.id != "" && n.id !in byID
      modifies this`order, this`byID
      ensures Valid() && Nodes() == old(Nodes())[n.id := n.Seen()]
      ensures order == old(order) + [n]
      ensures byID.Values <= old(byID.Values) + {n}
    {
      OneMoreNode(order, byID, n);
      byID := byID[n.id := n];
      order := order + [n];
    }

    method Join(e: Edge)
      requires Valid()
      modifies this`edges
      ensures Valid() && Nodes() == old(Nodes()) && edges == old(edges) + [e]
    {
      edges := edges + [e];
    }

    method SetKind(id: string, kind: string)
      requires Valid()
      modifies byID.Values
      ensures Valid() && Nodes() == KindSet(old(Nodes()), id, kind)
    {
      if id in byID && kind != "" {
        byID[id].kind := kind;
      }
    }

    method Promote(id: string, role: Role)
      requires Valid()
      modifies byID.Values
      ensures Valid() && Nodes() == Promoted(old(Nodes()), id, role)
    {
      if id in byID && byID[id].role == ManagedServer {
        byID[id].role := role;
      }
    }
  }

  // --- what the listings make of the table ---------------------------------------------------

  function NameOr(name: string, other: string): string {
    if name != "" then name else other
  }

  function WithManaged(ms: seq<Managed>): Table {
    if ms == [] then map[]
    else var m := ms[|ms| - 1]; Added(WithManaged(ms[..|ms| - 1]), m.id, NameOr(m.name, "server"), m.role)
  }

  function WithProxies(t: Table, ps: seq<ProxyItem>): Table {
    if ps == [] then t
    else var p := ps[|ps| - 1]; Added(WithProxies(t, ps[..|ps| - 1]), p.id, NameOr(p.name, "proxy"), ProxyServer)
  }

  function LabelFor(ms: seq<Managed>, id: string): string {
    if ms == [] then "mount server"
    else if ms[0].id == id then NameOr(ms[0].name, "mount server")
    else LabelFor(ms[1..], id)
  }

  /** A repository and, where it has one, its mount server. */
  function WithRepository(t: Table, r: RepoItem, ms: seq<Managed>): Table {
    var t1 := KindSet(Added(t, r.id, NameOr(r.name, "repository"), Repository), r.id, r.kind);
    if r.mount == "" then t1
    else Promoted(Added(t1, r.mount, LabelFor(ms, r.mount), MountServer), r.mount, MountServer)
  }

  function WithRepositories(t: Table, rs: seq<RepoItem>, ms: seq<Managed>): Table {
    if rs == [] then t
    else WithRepository(WithRepositories(t, rs[..|rs| - 1], ms), rs[|rs| - 1], ms)
  }

  function MountEdges(rs: seq<RepoItem>): seq<Edge> {
    if rs == [] then []
    else
      var r := rs[|rs| - 1];
      MountEdges(rs[..|rs| - 1]) + if r.mount == "" then [] else [Edge(r.id, r.mount, Mount, false)]
  }

  function Listed(ms: seq<Managed>, ps: seq<ProxyItem>, rs: seq<RepoItem>): Table {
    WithRepositories(WithProxies(WithManaged(ms), ps), rs, ms)
  }

  /** Repositories that only the jobs know. */
  function WithUnlisted(t: Table, targets: set<string>): Table {
    map id | id in t.Keys + targets :: if id in t then t[id] else View(UNLISTED, Repository, "unknown")
  }

  function Targets(links: map<Link, bool>): set<string> {
    set k | k in links :: k.1
  }

  function LinkEdge(k: Link, auto: bool): Edge {
    Edge(k.0, k.1, WritesTo, auto)
  }

  /** Every link is one edge, and there are no other edges. */
  ghost predicate EdgesOf(links: map<Link, bool>, edges: seq<Edge>) {
    && (forall k :: k in links ==> LinkEdge(k, links[k]) in edges)
    && (forall e :: e in edges ==> (e.from, e.to) in links && e == LinkEdge((e.from, e.to), links[(e.from, e.to)]))
    && (forall i, j :: 0 <= i < j < |edges| ==> edges[i] != edges[j])
  }

  datatype Graph = Graph(nodes: seq<(string, View)>, edges: seq<Edge>)

  /** The nodes shown are those of the table without the plain servers, each once. */
  ghost predicate Shows(t: Table, nodes: seq<(string, View)>) {
    && (forall n :: n in nodes <==> n.0 in t && t[n.0] == n.1 && n.1.role != ManagedServer)
    && (forall i, j :: 0 <= i < j < |nodes| ==> nodes[i].0 != nodes[j].0)
  }

  ghost predicate IsGraph(ms: seq<Managed>, ps: seq<ProxyItem>, rs: seq<RepoItem>, links: map<Link, bool>, g: Graph) {
    && Shows(WithUnlisted(Listed(ms, ps, rs), Targets(links)), g.nodes)
    && |g.edges| >= |MountEdges(rs)| && g.edges[..|MountEdges(rs)|] == MountEdges(rs)
    && EdgesOf(links, g.edges[|MountEdges(rs)|..])
  }

  function Eligible(ps: seq<ProxyItem>): seq<string> {
    if ps == [] then []
    else Eligible(ps[..|ps| - 1]) + if ps[|ps| - 1].id != "" then [ps[|ps| - 1].id] else []
  }

  /**
    The graph of the listings.  A listing that cannot be read is an error, except the jobs:
    without them the graph has no links.
   */
  method Build(proxies: Result<seq<ProxyItem>, string>, repos: Result<seq<RepoItem>, string>,
               managed: Result<seq<Managed>, string>, jobs: Result<seq<Job>, string>)
    returns (g: Result<Graph, string>, ghost links: map<Link, bool>)
    ensures g.Success? <==> proxies.Success? && repos.Success? && managed.Success?
    ensures g.Success? ==> IsLinkTable(links, if jobs.Success? then jobs.value else [], Eligible(proxies.value))
    ensures g.Success? ==> IsGraph(managed.value, proxies.value, repos.value, links, g.value)
  {
    links := map[];
    if proxies.Failure? { return Failure(proxies.error), links; }
    if repos.Failure? { return Failure(repos.error), links; }
    if managed.Failure? { return Failure(managed.error), links; }
    var b := new Builder();
    AddServers(b, managed.value, proxies.value);
    AddRepositories(b, repos.value, managed.value);
    var eligible := [];
    for i := 0 to |proxies.value|
      invariant eligible == Eligible(proxies.value[..i])
    {
      assert proxies.value[..i + 1][..i] == proxies.value[..i];
      if proxies.value[i].id != "" { eligible := eligible + [proxies.value[i].id]; }
    }
    assert proxies.value[..|proxies.value|] == proxies.value;
    var table := LinkTable(if jobs.Success? then jobs.value else [], eligible);
    links := table;
    AddLinks(b, table);
    var nodes := Shown(b);
    g := Success(Graph(nodes, b.edges));
  }

  method AddServers(b: Builder, ms: seq<Managed>, ps: seq<ProxyItem>)
    requires b.Valid() && b.Nodes() == map[]
    modifies b`order, b`byID
    ensures b.Valid() && b.Nodes() == WithProxies(WithManaged(ms), ps)
    ensures fresh(b.byID.Values - old(b.byID.Values))
  {
    for i := 0 to |ms|
      invariant b.Valid() && b.Nodes() == WithManaged(ms[..i])
      invariant fresh(b.byID.Values - old(b.byID.Values))
    {
      assert ms[..i + 1][..i] == ms[..i];
      b.Add(ms[i].id, NameOr(ms[i].name, "server"), ms[i].role);
    }
    assert ms[..|ms|] == ms;
    for i := 0 to |ps|
      invariant b.Valid() && b.Nodes() == WithProxies(WithManaged(ms), ps[..i])
      invariant fresh(b.byID.Values - old(b.byID.Values))
    {
      assert ps[..i + 1][..i] == ps[..i];
      b.Add(ps[i].id, NameOr(ps[i].name, "proxy"), ProxyServer);
    }
    assert ps[..|ps|] == ps;
  }

  method AddRepository(b: Builder, r: RepoItem, ms: seq<Managed>)
    requires b.Valid()
    modifies b, b.byID.Values
    ensures b.Valid() && b.Nodes() == WithRepository(old(b.Nodes()), r, ms)
    ensures b.edges == old(b.edges) + if r.mount == "" then [] else [Edge(r.id, r.mount, Mount, false)]
    ensures fresh(b.byID.Values - old(b.byID.Values))
  {
    b.Add(r.id, NameOr(r.name, "repository"), Repository);
    b.SetKind(r.id, r.kind);
    if r.mount != "" {
      AddMount(b, r, ms);
    }
  }

  method AddMount(b: Builder, r: RepoItem, ms: seq<Managed>)
    requires b.Valid()
    modifies b, b.byID.Values
    ensures b.Valid()
    ensures b.Nodes() ==
      Promoted(Added(old(b.Nodes()), r.mount, LabelFor(ms, r.mount), MountServer), r.mount, MountServer)
    ensures b.edges == old(b.edges) + [Edge(r.id, r.mount, Mount, false)]
    ensures fresh(b.byID.Values - old(b.byID.Values))
  {
    b.Add(r.mount, LabelFor(ms, r.mount), MountServer);
    b.Promote(r.mount, MountServer);
    b.Join(Edge(r.id, r.mount, Mount, false));
  }

  method AddRepositories(b: Builder, rs: seq<RepoItem>, ms: seq<Managed>)
    requires b.Valid() && b.edges == []
    modifies b, b.byID.Values
    ensures b.Valid() && b.Nodes() == WithRepositories(old(b.Nodes()), rs, ms) && b.edges == MountEdges(rs)
    ensures fresh(b.byID.Values - old(b.byID.Values))
  {
    for i := 0 to |rs|
      invariant b.Valid() && b.edges == MountEdges(rs[..i])
      invariant b.Nodes() == WithRepositories(old(b.Nodes()), rs[..i], ms)
      invariant fresh(b.byID.Values - old(b.byID.Values))
    {
      assert rs[..i + 1][..i] == rs[..i];
      AddRepository(b, rs[i], ms);
    }
    assert rs[..|rs|] == rs;
  }

  /** The links of the table in some order. */
  method Enumerate(links: map<Link, bool>) returns (ks: seq<Link>)
    ensures Enumerates(ks, links)
  {
    ks := [];
    var todo := links.Keys;
    while todo != {}
      invariant forall k :: k in links.Keys <==> k in todo || k in ks
      invariant forall k :: k in ks ==> k !in todo
      invariant forall i, j :: 0 <= i < j < |ks| ==> ks[i] != ks[j]
    {
      var k :| k in todo;
      todo := todo - {k};
      ks := ks + [k];
    }
  }

  ghost predicate Enumerates(ks: seq<Link>, links: map<Link, bool>) {
    && (forall k :: k in ks <==> k in links)
    && (forall i, j :: 0 <= i < j < |ks| ==> ks[i] != ks[j])
  }

  /** A repository that no listing has gets a node. */
  function Unlisted(t: Table, id: string): Table {
    if id in t then t else t[id := View(UNLISTED, Repository, "unknown")]
  }

  function UnlistedOf(t: Table, ks: seq<Link>): Table {
    if ks == [] then t else Unlisted(UnlistedOf(t, ks[..|ks| - 1]), ks[|ks| - 1].1)
  }

  function LinkEdges(ks: seq<Link>, links: map<Link, bool>): (es: seq<Edge>)
    requires forall k :: k in ks ==> k in links
    ensures |es| == |ks| && forall i :: 0 <= i < |es| ==> es[i] == LinkEdge(ks[i], links[ks[i]])
  {
    seq(|ks|, i requires 0 <= i < |ks| => LinkEdge(ks[i], links[ks[i]]))
  }

  function Ends(ks: seq<Link>): set<string> {
    set k | k in ks :: k.1
  }

  lemma OneMoreUnlisted(t: Table, targets: set<string>, id: string)
    ensures Unlisted(WithUnlisted(t, targets), id) == WithUnlisted(t, targets + {id})
  {
  }

  lemma {:induction false} UnlistedInAnyOrder(t: Table, ks: seq<Link>)
    ensures UnlistedOf(t, ks) == WithUnlisted(t, Ends(ks))
  {
    if ks == [] {
      assert WithUnlisted(t, {}) == t;
    } else {
      var init, last := ks[..|ks| - 1], ks[|ks| - 1];
      UnlistedInAnyOrder(t, init);
      OneMoreUnlisted(t, Ends(init), last.1);
      assert ks == init + [last];
      assert Ends(ks) == Ends(init) + {last.1};
    }
  }

  lemma EveryLinkIsAnEdge(ks: seq<Link>, links: map<Link, bool>)
    requires Enumerates(ks, links)
    ensures EdgesOf(links, LinkEdges(ks, links))
  {
    var es := LinkEdges(ks, links);
    forall k | k in links ensures LinkEdge(k, links[k]) in es {
      var i :| 0 <= i < |ks| && ks[i] == k;
      assert es[i] == LinkEdge(k, links[k]);
    }
    forall e | e in es ensures (e.from, e.to) in links && e == LinkEdge((e.from, e.to), links[(e.from, e.to)]) {
      var i :| 0 <= i < |es| && es[i] == e;
      assert ks[i] in ks;
    }
    forall i, j | 0 <= i < j < |es| ensures es[i] != es[j] {
      assert ks[i] != ks[j];
    }
  }

  /** The links become edges, in whatever order the table gives them. */
  method AddLinks(b: Builder, links: map<Link, bool>)
    requires b.Valid() && forall k :: k in links ==> k.1 != ""
    modifies b, b.byID.Values
    ensures b.Valid() && b.Nodes() == WithUnlisted(old(b.Nodes()), Targets(links))
    ensures |b.edges| >= |old(b.edges)| && b.edges[..|old(b.edges)|] == old(b.edges)
    ensures EdgesOf(links, b.edges[|old(b.edges)|..])
  {
    var ks := Enumerate(links);
    ghost var listed, edges := b.Nodes(), b.edges;
    AddEach(b, ks, links);
    UnlistedInAnyOrder(listed, ks);
    assert Ends(ks) == Targets(links);
    EveryLinkIsAnEdge(ks, links);
    assert b.edges[|edges|..] == LinkEdges(ks, links);
  }

  method AddEach(b: Builder, ks: seq<Link>, links: map<Link, bool>)
    requires b.Valid() && forall k :: k in ks ==> k in links && k.1 != ""
    modifies b, b.byID.Values
    ensures b.Valid() && b.Nodes() == UnlistedOf(old(b.Nodes()), ks)
    ensures b.edges == old(b.edges) + LinkEdges(ks, links)
  {
    ghost var listed, edges, made := b.Nodes(), b.edges, LinkEdges(ks, links);
    for i := 0 to |ks|
      invariant b.Valid() && b.Nodes() == UnlistedOf(listed, ks[..i])
      invariant fresh(b.byID.Values - old(b.byID.Values))
      invariant b.edges == edges + made[..i]
    {
      assert ks[..i + 1][..i] == ks[..i];
      assert ks[i] in ks && made[..i + 1] == made[..i] + [LinkEdge(ks[i], links[ks[i]])];
      AddLink(b, ks[i], links[ks[i]]);
    }
    assert ks[..|ks|] == ks;
  }

  lemma KindOfUnlisted(t: Table, id: string)
    requires id != ""
    ensures id !in t ==> KindSet(Added(t, id, UNLISTED, Repository), id, "unknown") == Unlisted(t, id)
  {
  }

  method AddUnlisted(b: Builder, id: string)
    requires b.Valid() && id != "" && id !in b.byID
    modifies b`order, b`byID, b.byID.Values
    ensures b.Valid() && b.Nodes() == Unlisted(old(b.Nodes()), id)
    ensures fresh(b.byID.Values - old(b.byID.Values))
  {
    KindOfUnlisted(b.Nodes(), id);
    b.Add(id, UNLISTED, Repository);
    b.SetKind(id, "unknown");
  }

  method AddLink(b: Builder, k: Link, auto: bool)
    requires b.Valid() && k.1 != ""
    modifies b, b.byID.Values
    ensures b.Valid() && b.Nodes() == Unlisted(old(b.Nodes()), k.1)
    ensures b.edges == old(b.edges) + [LinkEdge(k, auto)]
    ensures fresh(b.byID.Values - old(b.byID.Values))
  {
    if k.1 !in b.byID {
      AddUnlisted(b, k.1);
    }
    b.Join(LinkEdge(k, auto));
  }

  method Shown(b: Builder) returns (nodes: seq<(string, View)>)
    requires b.Valid()
    ensures Shows(b.Nodes(), nodes)
  {
    nodes := [];
    for i := 0 to |b.order|
      invariant forall n :: n in nodes <==>
        n.1.role != ManagedServer && exists k :: 0 <= k < i && n == (b.order[k].id, b.order[k].Seen())
      invariant forall p, q :: 0 <= p < q < |nodes| ==> nodes[p].0 != nodes[q].0
    {
      var n := b.order[i];
      if n.role != ManagedServer {
        forall p | 0 <= p < |nodes| ensures nodes[p].0 != n.id { assert nodes[p] in nodes; }
        nodes := nodes + [(n.id, n.Seen())];
      }
    }
  }
}
