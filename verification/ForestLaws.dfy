/** Where the Hosts forest puts what (webpanel/app/tree.py), said of the rows and the nodes alone: stacks and their counts,
    bands of unmanaged Proxmox nodes, kinds of nodes and the order of siblings. */
module ForestLaws {
  import opened Options
  import opened Lists
  import opened Forest
  import Text

  // ---------------------------------------------------------------- lists

  lemma {:induction false} KeysOnly<T>(key: T -> string, xs: seq<T>, k: string)
    ensures k in Keys(key, xs) <==> k != "" && exists x :: x in xs && key(x) == k
  {
    if xs != [] {
      var n := |xs| - 1;
      assert xs == xs[..n] + [xs[n]];
      KeysOnly(key, xs[..n], k);
      KeysOnly(key, xs[..n], key(xs[n]));
    }
  }

  /** A list without repetitions is as long as the set of its elements. */
  lemma {:induction false} Counts<T, K(!new)>(key: T -> K, xs: seq<T>, all: set<T>)
    requires Distinct(key, xs) && forall x :: x in xs <==> x in all
    ensures |xs| == |all|
    decreases |xs|
  {
    if xs == [] {
      assert all == {};
    } else {
      var n := |xs| - 1;
      assert xs == xs[..n] + [xs[n]] && xs[n] in xs;
      forall x | x in xs[..n] ensures x != xs[n] {
        var i :| 0 <= i < n && xs[i] == x;
        assert key(xs[i]) != key(xs[n]);
      }
      Counts(key, xs[..n], all - {xs[n]});
    }
  }

  // ---------------------------------------------------------------- containers

  /** The containers of a host that belong to a compose project; those without one belong to "". */
  ghost predicate Belongs(f: Fleet, c: Container, host: nat, project: string) {
    c in f.containers && c.host == host && Text.Strip(c.project) == project
  }

  ghost predicate Shows(ns: seq<Node>, what: Subject) { exists n :: n in ns && n.what == what }

  lemma LeavesShow(cs: seq<Container>, depth: nat, parentId: NodeId, what: Subject)
    ensures Shows(Leaves(cs, depth, parentId), what) <==> exists c :: c in cs && what == ContainerOf(c.id)
  {
    var ns := Leaves(cs, depth, parentId);
    if n :| n in ns && n.what == what {
      var i :| 0 <= i < |ns| && ns[i] == n;
      assert cs[i] in cs;
    }
    if c :| c in cs && what == ContainerOf(c.id) {
      var i :| 0 <= i < |cs| && cs[i] == c;
      assert ns[i] in ns && ns[i].what == what;
    }
  }

  lemma SortedLeavesShow(cs: seq<Container>, depth: nat, parentId: NodeId, what: Subject)
    ensures Shows(Leaves(SortBy(ContainerKey, cs), depth, parentId), what) <==> exists c :: c in cs && what == ContainerOf(c.id)
  {
    LeavesShow(SortBy(ContainerKey, cs), depth, parentId, what);
    forall c ensures c in SortBy(ContainerKey, cs) <==> c in cs { SortMember(ContainerKey, cs, c); }
  }

  lemma OfProject(f: Fleet, host: nat, project: string, c: Container)
    ensures c in Filter(KeyIs(Project, project), ContainersOn(f, host)) <==> Belongs(f, c, host, project)
  {
    hide Filter, Text.Strip;
    FilterMember(KeyIs(Project, project), ContainersOn(f, host), c);
    FilterMember(RunsOn(host), f.containers, c);
    assert KeyIs(Project, project)(c) <==> Project(c) == project;
    assert RunsOn(host)(c) <==> c.host == host;
  }

  /** A stack is labelled with the project, shows exactly its containers, and counts them and those that run. */
  ghost predicate StackOfProject(f: Fleet, host: nat, n: Node) {
    && n.what.StackOf? && n.kind.KStack? && n.hasChildren
    && (forall w :: Shows(n.children, w) <==> exists c :: Belongs(f, c, host, n.what.project) && w == ContainerOf(c.id))
    && n.what.total == |Containers(f, host, n.what.project)|
    && n.what.running == |set c | c in Containers(f, host, n.what.project) && c.state == "running"|
  }

  lemma StackNodeLaw(f: Fleet, host: nat, project: string, depth: nat, parentId: NodeId)
    requires Keyed(f)
    ensures var n := StackNode(project, Filter(KeyIs(Project, project), ContainersOn(f, host)), depth, parentId);
      n.what.StackOf? && n.what.project == project && StackOfProject(f, host, n)
  {
    var (on, cs) := (ContainersOn(f, host), Filter(KeyIs(Project, project), ContainersOn(f, host)));
    var n := StackNode(project, cs, depth, parentId);
    forall c ensures c in cs <==> Belongs(f, c, host, project) { OfProject(f, host, project, c); }
    forall w ensures Shows(n.children, w) <==> exists c :: Belongs(f, c, host, project) && w == ContainerOf(c.id) {
      SortedLeavesShow(cs, depth + 1, n.nodeId, w);
    }
    StackCounts(f, host, project);
    hide Belongs, Shows, StackNode;
    StackNodeIs(project, cs, depth, parentId);
  }

  lemma StackNodeIs(project: string, cs: seq<Container>, depth: nat, parentId: NodeId)
    ensures var n := StackNode(project, cs, depth, parentId);
      n.what == StackOf(project, |cs|, CountRunning(cs)) && n.kind.KStack? && n.hasChildren
  {
  }

  ghost function Containers(f: Fleet, host: nat, project: string): set<Container> {
    set c | c in f.containers && Belongs(f, c, host, project)
  }

  lemma StackCounts(f: Fleet, host: nat, project: string)
    requires Keyed(f)
    ensures var cs := Filter(KeyIs(Project, project), ContainersOn(f, host));
      && |cs| == |Containers(f, host, project)|
      && CountRunning(cs) == |set c | c in Containers(f, host, project) && c.state == "running"|
  {
    var (on, cs) := (ContainersOn(f, host), Filter(KeyIs(Project, project), ContainersOn(f, host)));
    FilterDistinct(ContainerId, RunsOn(host), f.containers);
    FilterDistinct(ContainerId, KeyIs(Project, project), on);
    forall c ensures c in cs <==> Belongs(f, c, host, project) { OfProject(f, host, project, c); }
    hide Belongs, KeyIs, RunsOn;
    var all := Containers(f, host, project);
    MembersAre(f, host, project, cs);
    Counts(ContainerId, cs, all);
    RunningCounts(cs, all);
  }

  lemma MembersAre(f: Fleet, host: nat, project: string, cs: seq<Container>)
    requires forall c :: c in cs <==> Belongs(f, c, host, project)
    ensures forall c :: c in cs <==> c in Containers(f, host, project)
  {
  }

  lemma RunningCounts(cs: seq<Container>, all: set<Container>)
    requires Distinct(ContainerId, cs) && forall c :: c in cs <==> c in all
    ensures CountRunning(cs) == |set c | c in all && c.state == "running"|
  {
    var runs := (c: Container) => c.state == "running";
    FilterDistinct(ContainerId, runs, cs);
    forall c ensures c in Filter(runs, cs) <==> c in all && c.state == "running" { FilterMember(runs, cs, c); }
    Counts(ContainerId, Filter(runs, cs), set c | c in all && c.state == "running");
  }

  ghost predicate HasStack(ns: seq<Node>, project: string) { exists n :: n in ns && n.what.StackOf? && n.what.project == project }

  /** What hangs under a host besides its guests: a stack for each project some container belongs to, and the containers
      without a project. */
  ghost predicate ShowsContainers(f: Fleet, host: nat, ns: seq<Node>) {
    && (forall n :: n in ns && n.what.StackOf? ==> StackOfProject(f, host, n))
    && (forall p :: HasStack(ns, p) <==> p != "" && exists c :: Belongs(f, c, host, p))
    && (forall i, j :: 0 <= i < j < |ns| && ns[i].what.StackOf? && ns[j].what.StackOf? ==> ns[i].what.project != ns[j].what.project)
    && (forall id :: Shows(ns, ContainerOf(id)) <==> exists c :: Belongs(f, c, host, "") && c.id == id)
  }

  lemma ProjectsOf(f: Fleet, host: nat, p: string)
    ensures p in SortBy(Lower, Keys(Project, ContainersOn(f, host))) <==> p != "" && exists c :: Belongs(f, c, host, p)
  {
    var on := ContainersOn(f, host);
    SortMember(Lower, Keys(Project, on), p);
    KeysOnly(Project, on, p);
    forall c ensures c in on && Project(c) == p <==> Belongs(f, c, host, p) { FilterMember(RunsOn(host), f.containers, c); }
  }

  lemma StackNodesAre(f: Fleet, host: nat, projects: seq<string>, depth: nat, parentId: NodeId)
    requires Keyed(f)
    ensures var ns := StackNodes(projects, ContainersOn(f, host), depth, parentId);
      |ns| == |projects| && forall i :: 0 <= i < |ns| ==> ns[i].what.StackOf? && ns[i].what.project == projects[i] && StackOfProject(f, host, ns[i])
  {
    var ns := StackNodes(projects, ContainersOn(f, host), depth, parentId);
    forall i | 0 <= i < |ns| ensures ns[i].what.StackOf? && ns[i].what.project == projects[i] && StackOfProject(f, host, ns[i]) {
      StackNodeLaw(f, host, projects[i], depth, parentId);
    }
  }

  lemma StandaloneLaw(f: Fleet, host: nat, depth: nat, parentId: NodeId, w: Subject)
    ensures Shows(Leaves(SortBy(ContainerKey, Filter(KeyIs(Project, ""), ContainersOn(f, host))), depth, parentId), w) <==>
      exists c :: Belongs(f, c, host, "") && w == ContainerOf(c.id)
  {
    var cs := Filter(KeyIs(Project, ""), ContainersOn(f, host));
    SortedLeavesShow(cs, depth, parentId, w);
    forall c ensures c in cs <==> Belongs(f, c, host, "") { OfProject(f, host, "", c); }
  }

  lemma JoinedShows(f: Fleet, host: nat, guests: seq<Node>, stacks: seq<Node>, leaves: seq<Node>, projects: seq<string>)
    requires forall n :: n in guests ==> n.what.HostOf?
    requires |stacks| == |projects| && Distinct(Same, projects)
    requires forall i :: 0 <= i < |stacks| ==> stacks[i].what.StackOf? && stacks[i].what.project == projects[i] && StackOfProject(f, host, stacks[i])
    requires forall p :: p in projects <==> p != "" && exists c :: Belongs(f, c, host, p)
    requires forall n :: n in leaves ==> n.what.ContainerOf?
    requires forall id :: Shows(leaves, ContainerOf(id)) <==> exists c :: Belongs(f, c, host, "") && c.id == id
    ensures ShowsContainers(f, host, guests + (stacks + leaves))
  {
    hide StackOfProject, Belongs;
    var ns := guests + (stacks + leaves);
    forall n | n in ns && n.what.StackOf? ensures n in stacks { }
    forall p ensures HasStack(ns, p) <==> p in projects {
      if p in projects {
        var i :| 0 <= i < |projects| && projects[i] == p;
        assert stacks[i] in ns;
      }
      if n :| n in ns && n.what.StackOf? && n.what.project == p {
        var i :| 0 <= i < |stacks| && stacks[i] == n;
      }
    }
    var g := |guests|;
    assert forall k :: 0 <= k < g ==> ns[k] in guests;
    assert forall k :: g + |stacks| <= k < |ns| ==> ns[k] in leaves;
    forall i, j | 0 <= i < j < |ns| && ns[i].what.StackOf? && ns[j].what.StackOf? ensures ns[i].what.project != ns[j].what.project {
      assert g <= i < j < g + |stacks|;
      assert Same(projects[i - g]) != Same(projects[j - g]);
    }
    forall id ensures Shows(ns, ContainerOf(id)) <==> Shows(leaves, ContainerOf(id)) {
      if n :| n in ns && n.what == ContainerOf(id) { assert n in leaves; }
      if n :| n in leaves && n.what == ContainerOf(id) { assert n in ns; }
    }
  }

  /** A container whose project is not blank is shown in the stack labelled with it and in no other, one without directly
      under the host; there are no other stacks. */
  lemma ContainersLaw(f: Fleet, s: Server, depth: nat, parentId: NodeId, kind: Kind, path: set<nat>)
    requires Keyed(f) && OnPath(f, s, path)
    ensures ShowsContainers(f, s.id, ServerNode(f, s, depth, parentId, kind, true, path).children)
  {
    var n := ServerNode(f, s, depth, parentId, kind, true, path);
    var (on, projects) := (ContainersOn(f, s.id), SortBy(Lower, Keys(Project, ContainersOn(f, s.id))));
    var stacks := StackNodes(projects, on, depth + 1, n.nodeId);
    var leaves := Leaves(SortBy(ContainerKey, Filter(KeyIs(Project, ""), on)), depth + 1, n.nodeId);
    var guests := n.children[..|Guests(f, s.id)|];
    ChildrenOf(f, s, depth, parentId, kind, path);
    hide ServerNode, ShowsContainers, Belongs, StackOfProject, Shows, StackNodes, Leaves;
    StackNodesAre(f, s.id, projects, depth + 1, n.nodeId);
    KeysExact(Project, on);
    SortDistinct(Lower, Same, Keys(Project, on));
    forall p ensures p in projects <==> p != "" && exists c :: Belongs(f, c, s.id, p) { ProjectsOf(f, s.id, p); }
    forall id ensures Shows(leaves, ContainerOf(id)) <==> exists c :: Belongs(f, c, s.id, "") && c.id == id {
      StandaloneLaw(f, s.id, depth + 1, n.nodeId, ContainerOf(id));
    }
    JoinedShows(f, s.id, guests, stacks, leaves, projects);
  }

  lemma ChildrenOf(f: Fleet, s: Server, depth: nat, parentId: NodeId, kind: Kind, path: set<nat>)
    requires Keyed(f) && OnPath(f, s, path)
    ensures var n := ServerNode(f, s, depth, parentId, kind, true, path);
      var (on, gs) := (ContainersOn(f, s.id), Guests(f, s.id));
      var leaves := Leaves(SortBy(ContainerKey, Filter(KeyIs(Project, ""), on)), depth + 1, n.nodeId);
      && |gs| <= |n.children|
      && (forall i :: 0 <= i < |gs| ==> n.children[i].what == HostOf(gs[i].id) && n.children[i].kind.KGuest?)
      && n.children == n.children[..|gs|] + (StackNodes(SortBy(Lower, Keys(Project, on)), on, depth + 1, n.nodeId) + leaves)
      && forall l :: l in leaves ==> l.what.ContainerOf? && l.kind.KDocker? && !l.hasChildren
  {
    var n := ServerNode(f, s, depth, parentId, kind, true, path);
    var gs := Guests(f, s.id);
    hide Guests, StackNodes;
    forall i | 0 <= i < |gs| ensures n.children[i].what == HostOf(gs[i].id) && n.children[i].kind.KGuest? {
      GuestOnPath(f, s, path, i);
      assert n.children[i] == ServerNode(f, gs[i], depth + 1, n.nodeId, KGuest, true, path + {s.id});
      NodeIs(f, gs[i], depth + 1, n.nodeId, KGuest, true, path + {s.id});
      hide ServerNode;
    }
  }

  lemma NodeIs(f: Fleet, s: Server, depth: nat, parentId: NodeId, kind: Kind, nest: bool, path: set<nat>)
    requires nest ==> Keyed(f) && OnPath(f, s, path)
    ensures var n := ServerNode(f, s, depth, parentId, kind, nest, path); n.what == HostOf(s.id) && n.kind == kind
  {
    hide DockerNodes, Guests;
  }

  // ---------------------------------------------------------------- bands

  /** A guest of a Proxmox node that is named but not managed. */
  predicate Strays(s: Server) { s.parent.None? && (s.guestType != "" || s.connection == "proxmox") && s.node != "" }

  lemma OrphansAre(f: Fleet, node: string, s: Server)
    requires node != ""
    ensures s in Orphans(f, node) <==> s in f.servers && Strays(s) && s.node == node
  {
    hide SortBy, Filter;
    SortMember(ServerKey, Filter(KeyIs(BandName, node), Roots(f)), s);
    FilterMember(KeyIs(BandName, node), Roots(f), s);
    FilterMember(IsRoot, f.servers, s);
    assert KeyIs(BandName, node)(s) <==> BandName(s) == node;
  }

  lemma PlainAre(f: Fleet, s: Server)
    ensures s in PlainRoots(f) <==> s in f.servers && s.parent.None? && !Strays(s)
  {
    hide SortBy, Filter;
    SortMember(ServerKey, Filter(KeyIs(BandName, ""), Roots(f)), s);
    FilterMember(KeyIs(BandName, ""), Roots(f), s);
    FilterMember(IsRoot, f.servers, s);
    assert KeyIs(BandName, "")(s) <==> BandName(s) == "";
  }

  lemma BandsAre(f: Fleet, node: string)
    ensures node in Bands(f) <==> node != "" && exists s :: s in f.servers && Strays(s) && s.node == node
  {
    SortMember(Unsorted, Keys(BandName, Roots(f)), node);
    KeysOnly(BandName, Roots(f), node);
    forall s ensures s in Roots(f) <==> s in f.servers && s.parent.None? { FilterMember(IsRoot, f.servers, s); }
    if node != "" {
      if s :| s in Roots(f) && BandName(s) == node { assert s in f.servers && Strays(s) && s.node == node; }
      if s :| s in f.servers && Strays(s) && s.node == node { assert s in Roots(f) && BandName(s) == node; }
    }
  }

  lemma HostsShown(ns: seq<Node>, ss: seq<Server>, w: Subject)
    requires |ns| == |ss| && forall i :: 0 <= i < |ns| ==> ns[i].what == HostOf(ss[i].id)
    ensures Shows(ns, w) <==> exists s :: s in ss && w == HostOf(s.id)
  {
    if n :| n in ns && n.what == w {
      var i :| 0 <= i < |ns| && ns[i] == n;
      assert ss[i] in ss;
    }
    if s :| s in ss && w == HostOf(s.id) {
      var i :| 0 <= i < |ss| && ss[i] == s;
      assert ns[i] in ns;
    }
  }

  lemma BandChildren(f: Fleet, node: string)
    requires Keyed(f)
    ensures var (gs, ns) := (Orphans(f, node), BandNode(f, node).children);
      |ns| == |gs| && forall i :: 0 <= i < |ns| ==> ns[i].what == HostOf(gs[i].id) && ns[i].kind.KGuest?
  {
    var (gs, ns) := (Orphans(f, node), BandNode(f, node).children);
    hide Orphans, ServerNode;
    forall i | 0 <= i < |ns| ensures ns[i].what == HostOf(gs[i].id) && ns[i].kind.KGuest? {
      BandMembers(f, node, gs[i]);
      RootOnPath(f, gs[i]);
      NodeIs(f, gs[i], 1, [Band(node)], KGuest, true, {});
    }
  }

  lemma RootChildren(f: Fleet)
    requires Keyed(f)
    ensures var (ss, ns) := (PlainRoots(f), RootNodes(f));
      |ns| == |ss| && forall i :: 0 <= i < |ns| ==> ns[i].what == HostOf(ss[i].id)
  {
    var (ss, ns) := (PlainRoots(f), RootNodes(f));
    hide ServerNode;
    forall i | 0 <= i < |ns| ensures ns[i].what == HostOf(ss[i].id) {
      BandMembers(f, "", ss[i]);
      RootOnPath(f, ss[i]);
      NodeIs(f, ss[i], 0, [], if ss[i].virtKind != "" || Guests(f, ss[i].id) != [] then KVirtualHost else KHost, true, {});
    }
  }

  lemma BandShows(f: Fleet, node: string, w: Subject)
    requires Keyed(f) && node != ""
    ensures Shows(BandNode(f, node).children, w) <==> exists s :: s in f.servers && Strays(s) && s.node == node && w == HostOf(s.id)
  {
    forall s ensures s in Orphans(f, node) <==> s in f.servers && Strays(s) && s.node == node { OrphansAre(f, node, s); }
    BandChildren(f, node);
    hide Orphans, BandNode, Shows, Strays;
    HostsShown(BandNode(f, node).children, Orphans(f, node), w);
  }

  lemma RootsShow(f: Fleet, w: Subject)
    requires Keyed(f)
    ensures Shows(RootNodes(f), w) <==> exists s :: s in f.servers && s.parent.None? && !Strays(s) && w == HostOf(s.id)
  {
    forall s ensures s in PlainRoots(f) <==> s in f.servers && s.parent.None? && !Strays(s) { PlainAre(f, s); }
    RootChildren(f);
    hide PlainRoots, RootNodes, Shows, Strays;
    HostsShown(RootNodes(f), PlainRoots(f), w);
  }

  /** A parentless host is under the band of its node if it is a guest and names one, and at the top otherwise; there is a
      band for a node exactly when some host belongs under it. */
  lemma BandsLaw(f: Fleet)
    requires Keyed(f)
    ensures forall id :: Shows(Physical(f), HostOf(id)) <==> exists s :: s in f.servers && s.id == id && s.parent.None? && !Strays(s)
    ensures forall node :: Shows(Physical(f), BandOf(node)) <==> exists s :: s in f.servers && Strays(s) && s.node == node
    ensures forall b, w :: b in Physical(f) && b.what.BandOf? ==>
      (Shows(b.children, w) <==> exists s :: s in f.servers && Strays(s) && s.node == b.what.node && w == HostOf(s.id))
  {
    hide Physical, Shows, Strays;
    forall id ensures Shows(Physical(f), HostOf(id)) <==> exists s :: s in f.servers && s.id == id && s.parent.None? && !Strays(s) {
      TopHosts(f, id);
    }
    forall node ensures Shows(Physical(f), BandOf(node)) <==> exists s :: s in f.servers && Strays(s) && s.node == node {
      TopBands(f, node);
    }
    forall b, w | b in Physical(f) && b.what.BandOf?
      ensures Shows(b.children, w) <==> exists s :: s in f.servers && Strays(s) && s.node == b.what.node && w == HostOf(s.id)
    {
      BandOfName(f, b);
      BandsAre(f, b.what.node);
      BandShows(f, b.what.node, w);
    }
  }

  lemma TopHosts(f: Fleet, id: nat)
    requires Keyed(f)
    ensures Shows(Physical(f), HostOf(id)) <==> exists s :: s in f.servers && s.id == id && s.parent.None? && !Strays(s)
  {
    hide RootNodes, BandNode, Strays;
    RootsShow(f, HostOf(id));
    ShowsConcat(RootNodes(f), BandNodes(f), HostOf(id));
    BandNodesAre(f);
    hide BandNodes;
    assert !Shows(BandNodes(f), HostOf(id));
  }

  lemma TopBands(f: Fleet, node: string)
    requires Keyed(f)
    ensures Shows(Physical(f), BandOf(node)) <==> exists s :: s in f.servers && Strays(s) && s.node == node
  {
    hide RootNodes, BandNodes, Bands, BandNode, Strays;
    ShowsConcat(RootNodes(f), BandNodes(f), BandOf(node));
    forall n | n in RootNodes(f) ensures n.what.HostOf? { RootIsHost(f, n); }
    BandNodesAre(f);
    BandsAre(f, node);
    StraysName(f, node);
    var (names, bands) := (Bands(f), BandNodes(f));
    if node in names {
      var i :| 0 <= i < |names| && names[i] == node;
      assert bands[i] in bands;
    }
    assert forall i :: 0 <= i < |names| ==> names[i] in names;
  }

  lemma BandNodesAre(f: Fleet)
    requires Keyed(f)
    ensures var (names, bands) := (Bands(f), BandNodes(f));
      |bands| == |names| && forall i :: 0 <= i < |names| ==> bands[i] == BandNode(f, names[i]) && bands[i].what == BandOf(names[i])
  {
    hide ServerNode, Orphans;
  }

  lemma BandOfName(f: Fleet, b: Node)
    requires Keyed(f) && b in Physical(f) && b.what.BandOf?
    ensures b.what.node in Bands(f) && b == BandNode(f, b.what.node)
  {
    hide RootNodes, BandNodes, Bands, BandNode;
    forall n | n in RootNodes(f) ensures n.what.HostOf? { RootIsHost(f, n); }
    BandNodesAre(f);
    var (names, bands) := (Bands(f), BandNodes(f));
    var i :| 0 <= i < |bands| && bands[i] == b;
    assert names[i] in names;
  }

  lemma StraysName(f: Fleet, node: string)
    ensures (exists s :: s in f.servers && Strays(s) && s.node == node) ==> node != ""
  {
  }

  lemma RootIsHost(f: Fleet, n: Node)
    requires Keyed(f) && n in RootNodes(f)
    ensures n.what.HostOf?
  {
  }

  lemma ShowsConcat(a: seq<Node>, b: seq<Node>, w: Subject)
    ensures Shows(a + b, w) <==> Shows(a, w) || Shows(b, w)
  {
    if n :| n in a && n.what == w { assert n in a + b; }
    if n :| n in b && n.what == w { assert n in a + b; }
  }
}
