/** The order of siblings in the Hosts forest (webpanel/app/tree.py), which nodes are virtualization hosts and which can be
    expanded, and what the label of a group counts. */
module ForestOrder {
  import opened Options
  import opened Lists
  import opened Forest
  import opened ForestLaws

  // ---------------------------------------------------------------- texts and lists

  /** Lower case, letter by letter. */
  lemma {:induction false} LowerLaw(s: string)
    ensures |Lower(s)| == |s|
    ensures forall i :: 0 <= i < |s| ==> 'A' <= s[i] <= 'Z' ==> Lower(s)[i] as int - 'a' as int == s[i] as int - 'A' as int
    ensures forall i :: 0 <= i < |s| ==> !('A' <= s[i] <= 'Z') ==> Lower(s)[i] == s[i]
  {
    if s != "" {
      LowerLaw(s[1..]);
      assert forall i :: 0 < i < |s| ==> Lower(s)[i] == Lower(s[1..])[i - 1] && s[i] == s[1..][i - 1];
    }
  }

  lemma {:induction false} LeqTransitive(a: string, b: string, c: string)
    requires StringLeq(a, b) && StringLeq(b, c)
    ensures StringLeq(a, c)
  {
    if a != "" && a[0] == b[0] == c[0] { LeqTransitive(a[1..], b[1..], c[1..]); }
  }

  ghost predicate Ordered<T(!new)>(key: T -> string, xs: seq<T>) {
    forall i, j :: 0 <= i < j < |xs| ==> StringLeq(key(xs[i]), key(xs[j]))
  }

  lemma {:induction false} SortedOrdered<T(!new)>(key: T -> string, xs: seq<T>)
    requires Sorted(key, xs)
    ensures Ordered(key, xs)
  {
    if |xs| > 1 {
      var n := |xs| - 1;
      SortedOrdered(key, xs[..n]);
      hide StringLeq;
      forall i | 0 <= i < n ensures StringLeq(key(xs[i]), key(xs[n])) {
        assert StringLeq(key(xs[n - 1]), key(xs[n - 1 + 1]));
        if i < n - 1 {
          assert StringLeq(key(xs[..n][i]), key(xs[..n][n - 1]));
          LeqTransitive(key(xs[i]), key(xs[n - 1]), key(xs[n]));
        }
      }
    }
  }

  lemma {:induction false} FilterOrdered<T(!new)>(key: T -> string, p: T -> bool, xs: seq<T>)
    requires Ordered(key, xs)
    ensures Ordered(key, Filter(p, xs))
  {
    hide StringLeq;
    if xs != [] {
      var n := |xs| - 1;
      FilterOrdered(key, p, xs[..n]);
      var rest := Filter(p, xs[..n]);
      forall i | 0 <= i < |rest| ensures StringLeq(key(rest[i]), key(xs[n])) {
        FilterMember(p, xs[..n], rest[i]);
        var j :| 0 <= j < n && xs[..n][j] == rest[i];
      }
    }
  }

  lemma SortOrdered<T(!new)>(key: T -> string, xs: seq<T>)
    ensures Ordered(key, SortBy(key, xs)) && |SortBy(key, xs)| == |xs|
  {
    SortSorts(key, xs);
    SortedOrdered(key, SortBy(key, xs));
  }

  // ---------------------------------------------------------------- siblings

  /** Groups come before hosts, hosts before stacks, stacks before containers. */
  function Rank(w: Subject): nat {
    match w
    case GroupOf(_, _, _) => 0
    case HostOf(_) => 1
    case StackOf(_, _, _) => 2
    case ContainerOf(_) => 3
    case BandOf(_) => 4
  }

  /** Siblings of one sort are ordered by their names, upper and lower case alike: hosts and groups by name, stacks by
      project, containers by name or else by their id. */
  ghost predicate Before(f: Fleet, v: Subject, w: Subject) {
    match (v, w)
    case (HostOf(a), HostOf(b)) =>
      forall s, t :: s in f.servers && t in f.servers && s.id == a && t.id == b ==> StringLeq(Lower(s.name), Lower(t.name))
    case (StackOf(p, _, _), StackOf(q, _, _)) => StringLeq(Lower(p), Lower(q))
    case (ContainerOf(a), ContainerOf(b)) =>
      forall c, d :: c in f.containers && d in f.containers && c.id == a && d.id == b ==>
        StringLeq(Lower(if c.name == "" then c.containerId else c.name), Lower(if d.name == "" then d.containerId else d.name))
    case (GroupOf(a, _, _), GroupOf(b, _, _)) =>
      forall g, h :: g in f.groups && h in f.groups && g.id == a && h.id == b ==> StringLeq(Lower(g.name), Lower(h.name))
    case _ => Rank(v) <= Rank(w)
  }

  ghost predicate InOrder(f: Fleet, ns: seq<Node>) {
    forall i, j :: 0 <= i < j < |ns| ==> Before(f, ns[i].what, ns[j].what)
  }

  lemma ConcatInOrder(f: Fleet, a: seq<Node>, b: seq<Node>)
    requires InOrder(f, a) && InOrder(f, b)
    requires forall m, n :: m in a && n in b ==> Rank(m.what) < Rank(n.what)
    ensures InOrder(f, a + b)
  {
    forall i, j | 0 <= i < j < |a + b| ensures Before(f, (a + b)[i].what, (a + b)[j].what) {
      if i < |a| && j >= |a| {
        assert a[i] in a && b[j - |a|] in b;
      } else {
        hide Before;
      }
    }
  }

  lemma HostsInOrder(f: Fleet, ss: seq<Server>, ns: seq<Node>)
    requires Keyed(f) && Ordered(ServerKey, ss) && forall s :: s in ss ==> s in f.servers
    requires |ns| == |ss| && forall i :: 0 <= i < |ns| ==> ns[i].what == HostOf(ss[i].id)
    ensures InOrder(f, ns)
  {
    hide StringLeq, Lower;
    forall i, j | 0 <= i < j < |ns| ensures Before(f, ns[i].what, ns[j].what) {
      assert ss[i] in ss && ss[j] in ss && StringLeq(ServerKey(ss[i]), ServerKey(ss[j]));
      forall s, t | s in f.servers && t in f.servers && s.id == ss[i].id && t.id == ss[j].id
        ensures StringLeq(Lower(s.name), Lower(t.name))
      {
        SameId(f, s, ss[i]);
        SameId(f, t, ss[j]);
      }
    }
  }

  lemma LeavesInOrder(f: Fleet, cs: seq<Container>, depth: nat, parentId: NodeId)
    requires Keyed(f) && Ordered(ContainerKey, cs) && forall c :: c in cs ==> c in f.containers
    ensures InOrder(f, Leaves(cs, depth, parentId))
  {
    hide StringLeq, Lower;
    var ns := Leaves(cs, depth, parentId);
    forall i, j | 0 <= i < j < |ns| ensures Before(f, ns[i].what, ns[j].what) {
      assert cs[i] in cs && cs[j] in cs && StringLeq(ContainerKey(cs[i]), ContainerKey(cs[j]));
      forall c, d | c in f.containers && d in f.containers && c.id == cs[i].id && d.id == cs[j].id ensures c == cs[i] && d == cs[j] {
        DistinctSame(ContainerId, f.containers, c, cs[i]);
        DistinctSame(ContainerId, f.containers, d, cs[j]);
      }
    }
  }

  lemma SortedLeavesInOrder(f: Fleet, host: nat, p: Container -> bool, depth: nat, parentId: NodeId)
    requires Keyed(f)
    ensures InOrder(f, Leaves(SortBy(ContainerKey, Filter(p, ContainersOn(f, host))), depth, parentId))
  {
    var cs := Filter(p, ContainersOn(f, host));
    SortOrdered(ContainerKey, cs);
    forall c | c in SortBy(ContainerKey, cs) ensures c in f.containers {
      SortMember(ContainerKey, cs, c);
      FilterMember(p, ContainersOn(f, host), c);
      FilterMember(RunsOn(host), f.containers, c);
    }
    LeavesInOrder(f, SortBy(ContainerKey, cs), depth, parentId);
  }

  lemma StacksInOrder(f: Fleet, host: nat, projects: seq<string>, depth: nat, parentId: NodeId)
    requires Keyed(f) && Ordered(Lower, projects)
    ensures InOrder(f, StackNodes(projects, ContainersOn(f, host), depth, parentId))
    ensures forall n :: n in StackNodes(projects, ContainersOn(f, host), depth, parentId) ==> n.what.StackOf? && InOrder(f, n.children)
  {
    var ns := StackNodes(projects, ContainersOn(f, host), depth, parentId);
    hide InOrder, StackNode, StringLeq, Lower;
    forall i | 0 <= i < |ns| ensures ns[i].what.StackOf? && ns[i].what.project == projects[i] && InOrder(f, ns[i].children) {
      StackInOrder(f, host, projects[i], depth, parentId);
    }
    ProjectsInOrder(f, ns, projects);
  }

  lemma ProjectsInOrder(f: Fleet, ns: seq<Node>, projects: seq<string>)
    requires Ordered(Lower, projects) && |ns| == |projects|
    requires forall i :: 0 <= i < |ns| ==> ns[i].what.StackOf? && ns[i].what.project == projects[i]
    ensures InOrder(f, ns)
  {
    hide StringLeq, Lower;
  }

  lemma StackInOrder(f: Fleet, host: nat, project: string, depth: nat, parentId: NodeId)
    requires Keyed(f)
    ensures var n := StackNode(project, Filter(KeyIs(Project, project), ContainersOn(f, host)), depth, parentId);
      n.what.StackOf? && n.what.project == project && InOrder(f, n.children)
  {
    hide InOrder, Leaves;
    SortedLeavesInOrder(f, host, KeyIs(Project, project), depth + 1, parentId + [StackSegment(project)]);
  }

  /** The children of a host are in order, and so are those of its stacks. */
  lemma HostChildrenInOrder(f: Fleet, s: Server, depth: nat, parentId: NodeId, kind: Kind, path: set<nat>)
    requires Keyed(f) && OnPath(f, s, path)
    ensures var n := ServerNode(f, s, depth, parentId, kind, true, path);
      InOrder(f, n.children) && forall m :: m in n.children && m.what.StackOf? ==> InOrder(f, m.children)
  {
    hide ServerNode, InOrder, StackNodes, Leaves, Guests, SortBy, Keys, Filter;
    var n := ServerNode(f, s, depth, parentId, kind, true, path);
    var (on, gs) := (ContainersOn(f, s.id), Guests(f, s.id));
    var projects := SortBy(Lower, Keys(Project, on));
    var stacks := StackNodes(projects, on, depth + 1, n.nodeId);
    var leaves := Leaves(SortBy(ContainerKey, Filter(KeyIs(Project, ""), on)), depth + 1, n.nodeId);
    ChildrenOf(f, s, depth, parentId, kind, path);
    GuestsInOrder(f, s.id, n.children[..|gs|]);
    SortOrdered(Lower, Keys(Project, on));
    StacksInOrder(f, s.id, projects, depth + 1, n.nodeId);
    SortedLeavesInOrder(f, s.id, KeyIs(Project, ""), depth + 1, n.nodeId);
    PartsInOrder(f, n.children[..|gs|], stacks, leaves);
  }

  lemma GuestsInOrder(f: Fleet, id: nat, ns: seq<Node>)
    requires Keyed(f) && |ns| == |Guests(f, id)| && forall i :: 0 <= i < |ns| ==> ns[i].what == HostOf(Guests(f, id)[i].id)
    ensures InOrder(f, ns)
  {
    SortOrdered(ServerKey, Filter(ChildOf(id), f.servers));
    forall g | g in Guests(f, id) ensures g in f.servers { GuestsExact(f, id, g); }
    hide InOrder;
    HostsInOrder(f, Guests(f, id), ns);
  }

  lemma PartsInOrder(f: Fleet, guests: seq<Node>, stacks: seq<Node>, leaves: seq<Node>)
    requires InOrder(f, guests) && InOrder(f, stacks) && InOrder(f, leaves)
    requires forall i :: 0 <= i < |guests| ==> guests[i].what.HostOf?
    requires forall m :: m in stacks ==> m.what.StackOf? && InOrder(f, m.children)
    requires forall m :: m in leaves ==> m.what.ContainerOf?
    ensures InOrder(f, guests + (stacks + leaves))
    ensures forall m :: m in guests + (stacks + leaves) && m.what.StackOf? ==> InOrder(f, m.children)
  {
    hide InOrder;
    ConcatInOrder(f, stacks, leaves);
    ConcatInOrder(f, guests, stacks + leaves);
  }

  ghost predicate TopInOrder(f: Fleet, ns: seq<Node>) {
    forall i, j :: 0 <= i < j < |ns| ==>
      && (ns[i].what.HostOf? && ns[j].what.HostOf? ==> Before(f, ns[i].what, ns[j].what))
      && (ns[i].what.BandOf? ==> ns[j].what.BandOf? && ns[i].what.node != ns[j].what.node && StringLeq(ns[i].what.node, ns[j].what.node))
  }

  /** Hosts at the top and under a band are ordered by name, bands by the name of the node as it is written. */
  lemma PhysicalInOrder(f: Fleet)
    requires Keyed(f)
    ensures TopInOrder(f, Physical(f))
    ensures forall b :: b in Physical(f) && b.what.BandOf? ==> InOrder(f, b.children)
  {
    hide RootNodes, BandNodes, Bands, BandNode, InOrder, TopInOrder, StringLeq;
    var (roots, bands, names) := (RootNodes(f), BandNodes(f), Bands(f));
    RootsInOrder(f);
    BandNodesInOrder(f);
    TopsInOrder(f, roots, bands, names);
  }

  lemma RootsInOrder(f: Fleet)
    requires Keyed(f)
    ensures InOrder(f, RootNodes(f)) && forall n :: n in RootNodes(f) ==> n.what.HostOf?
  {
    hide InOrder, RootNodes;
    var ss := PlainRoots(f);
    RootChildren(f);
    SortOrdered(ServerKey, Filter(KeyIs(BandName, ""), Roots(f)));
    forall s | s in ss ensures s in f.servers { PlainAre(f, s); }
    hide PlainRoots;
    HostsInOrder(f, ss, RootNodes(f));
  }

  lemma BandNodesInOrder(f: Fleet)
    requires Keyed(f)
    ensures var (bands, names) := (BandNodes(f), Bands(f));
      && |bands| == |names| && Ordered(Unsorted, names) && Distinct(Same, names)
      && forall i :: 0 <= i < |bands| ==> bands[i].what == BandOf(names[i]) && InOrder(f, bands[i].children)
  {
    hide InOrder, Ordered, Keys;
    var (bands, names) := (BandNodes(f), Bands(f));
    SortOrdered(Unsorted, Keys(BandName, Roots(f)));
    KeysExact(BandName, Roots(f));
    SortDistinct(Unsorted, Same, Keys(BandName, Roots(f)));
    forall i | 0 <= i < |bands| ensures bands[i].what == BandOf(names[i]) && InOrder(f, bands[i].children) {
      BandInOrder(f, names[i]);
    }
  }

  lemma TopsInOrder(f: Fleet, roots: seq<Node>, bands: seq<Node>, names: seq<string>)
    requires InOrder(f, roots) && forall n :: n in roots ==> n.what.HostOf?
    requires Ordered(Unsorted, names) && Distinct(Same, names) && |bands| == |names|
    requires forall i :: 0 <= i < |bands| ==> bands[i].what == BandOf(names[i]) && InOrder(f, bands[i].children)
    ensures TopInOrder(f, roots + bands) && forall b :: b in roots + bands && b.what.BandOf? ==> InOrder(f, b.children)
  {
    BandsInOrder(bands, names);
    hide StringLeq, Before, Ordered, Distinct;
    var ns := roots + bands;
    assert forall i :: 0 <= i < |roots| ==> ns[i] in roots;
    forall b | b in ns && b.what.BandOf? ensures b in bands { }
  }

  lemma BandsInOrder(bands: seq<Node>, names: seq<string>)
    requires Ordered(Unsorted, names) && Distinct(Same, names) && |bands| == |names|
    requires forall i :: 0 <= i < |bands| ==> bands[i].what == BandOf(names[i])
    ensures forall i, j :: 0 <= i < j < |bands| ==>
      bands[i].what.node != bands[j].what.node && StringLeq(bands[i].what.node, bands[j].what.node)
  {
    hide StringLeq;
    forall i, j | 0 <= i < j < |bands| ensures names[i] != names[j] && StringLeq(names[i], names[j]) {
      assert Same(names[i]) != Same(names[j]) && StringLeq(Unsorted(names[i]), Unsorted(names[j]));
    }
  }

  lemma BandInOrder(f: Fleet, node: string)
    requires Keyed(f)
    ensures InOrder(f, BandNode(f, node).children)
  {
    var gs := Orphans(f, node);
    BandChildren(f, node);
    SortOrdered(ServerKey, Filter(KeyIs(BandName, node), Roots(f)));
    forall s | s in gs ensures s in f.servers {
      BandMembers(f, node, s);
      FilterMember(IsRoot, f.servers, s);
    }
    hide BandNode, Orphans, InOrder;
    HostsInOrder(f, gs, BandNode(f, node).children);
  }

  // ---------------------------------------------------------------- kinds

  /** A host at the top shows as a virtualization host if it is marked as one or has guests. */
  lemma RootKinds(f: Fleet, n: Node, s: Server)
    requires Keyed(f) && n in Physical(f) && n.what == HostOf(s.id) && s in f.servers
    ensures n.kind == if s.virtKind != "" || exists g :: g in f.servers && g.parent == Some(s.id) then KVirtualHost else KHost
  {
    var ss := PlainRoots(f);
    var i := RootIndex(f, n);
    BandMembers(f, "", ss[i]);
    FilterMember(IsRoot, f.servers, ss[i]);
    RootOnPath(f, ss[i]);
    hide ServerNode, Guests;
    NodeIs(f, ss[i], 0, [], if ss[i].virtKind != "" || Guests(f, ss[i].id) != [] then KVirtualHost else KHost, true, {});
    SameId(f, s, ss[i]);
    HasGuests(f, s.id);
  }

  lemma RootIndex(f: Fleet, n: Node) returns (i: nat)
    requires Keyed(f) && n in Physical(f) && n.what.HostOf?
    ensures i < |PlainRoots(f)| && PlainRoots(f)[i] in Orphans(f, "") && PlainRoots(f)[i] in Roots(f) && n == RootNode(f, PlainRoots(f)[i])
  {
    hide ServerNode;
    var bands := BandNodes(f);
    assert forall k :: 0 <= k < |bands| ==> bands[k].what.BandOf?;
    var k :| 0 <= k < |RootNodes(f)| && RootNodes(f)[k] == n;
    i := k;
    BandMembers(f, "", PlainRoots(f)[i]);
  }

  lemma HasGuests(f: Fleet, id: nat)
    ensures Guests(f, id) != [] <==> exists g :: g in f.servers && g.parent == Some(id)
  {
    if Guests(f, id) != [] { GuestsExact(f, id, Guests(f, id)[0]); }
    if g :| g in f.servers && g.parent == Some(id) { GuestsExact(f, id, g); }
  }

  /** A host can be expanded if it is marked as a virtualization host, has a guest or runs a container. */
  lemma Expandable(f: Fleet, s: Server, depth: nat, parentId: NodeId, kind: Kind, path: set<nat>)
    requires Keyed(f) && OnPath(f, s, path)
    ensures ServerNode(f, s, depth, parentId, kind, true, path).hasChildren <==>
      || s.virtKind != ""
      || (exists g :: g in f.servers && g.parent == Some(s.id))
      || exists c :: c in f.containers && c.host == s.id
  {
    var n := ServerNode(f, s, depth, parentId, kind, true, path);
    HasChildrenIff(f, s, depth, parentId, kind, path);
    ChildrenOf(f, s, depth, parentId, kind, path);
    ContainersLaw(f, s, depth, parentId, kind, path);
    HasGuests(f, s.id);
    hide ServerNode, Guests, StackNodes, Leaves, StackOfProject;
    var ns := n.children;
    if c :| c in f.containers && c.host == s.id {
      var p := Text.Strip(c.project);
      assert Belongs(f, c, s.id, p);
      assert HasStack(ns, p) || Shows(ns, ContainerOf(c.id));
    }
    if ns != [] && Guests(f, s.id) == [] { HoldsContainer(f, s.id, ns, ns[0]); }
  }

  lemma HoldsContainer(f: Fleet, host: nat, ns: seq<Node>, n: Node)
    requires ShowsContainers(f, host, ns) && n in ns && (n.what.StackOf? || n.what.ContainerOf?)
    ensures exists c :: c in f.containers && c.host == host
  {
    hide StackOfProject;
    if n.what.StackOf? {
      assert HasStack(ns, n.what.project);
    } else {
      assert Shows(ns, ContainerOf(n.what.container));
    }
  }

  lemma HasChildrenIff(f: Fleet, s: Server, depth: nat, parentId: NodeId, kind: Kind, path: set<nat>)
    requires Keyed(f) && OnPath(f, s, path)
    ensures var n := ServerNode(f, s, depth, parentId, kind, true, path); n.hasChildren <==> n.children != [] || s.virtKind != ""
  {
  }

  // ---------------------------------------------------------------- the group overlay

  ghost predicate Named(ns: seq<Node>, cs: seq<Group>) {
    forall n :: n in ns ==> n.what.GroupOf? && exists c :: c in cs && c.id == n.what.group
  }

  ghost predicate Above(f: Fleet, key: Group -> string, v: Subject, w: Subject) {
    v.GroupOf? && w.GroupOf? && forall g, h :: g in f.groups && h in f.groups && g.id == v.group && h.id == w.group ==> StringLeq(key(g), key(h))
  }

  ghost predicate GroupsOrdered(f: Fleet, key: Group -> string, ns: seq<Node>) {
    forall i, j :: 0 <= i < j < |ns| ==> Above(f, key, ns[i].what, ns[j].what)
  }

  lemma OneMoreGroup(f: Fleet, key: Group -> string, cs: seq<Group>, ns: seq<Node>, n: Node)
    requires Keyed(f) && cs != [] && Ordered(key, cs) && (forall c :: c in cs ==> c in f.groups)
    requires GroupsOrdered(f, key, ns) && Named(ns, cs[..|cs| - 1])
    requires n.what.GroupOf? && n.what.group == cs[|cs| - 1].id
    ensures GroupsOrdered(f, key, ns + [n]) && Named(ns + [n], cs)
  {
    hide StringLeq;
    var last := cs[|cs| - 1];
    forall m | m in ns ensures Above(f, key, m.what, n.what) && exists c :: c in cs && c.id == m.what.group {
      var c :| c in cs[..|cs| - 1] && c.id == m.what.group;
      var i :| 0 <= i < |cs| - 1 && cs[i] == c;
      assert StringLeq(key(cs[i]), key(cs[|cs| - 1]));
      forall g, h | g in f.groups && h in f.groups && g.id == c.id && h.id == last.id ensures g == c && h == last {
        DistinctSame(GroupId, f.groups, g, c);
        DistinctSame(GroupId, f.groups, h, last);
      }
    }
    assert last in cs;
    hide Above;
    forall i, j | 0 <= i < j < |ns + [n]| ensures Above(f, key, (ns + [n])[i].what, (ns + [n])[j].what) {
      if j == |ns| { assert ns[i] in ns; }
    }
  }

  lemma FewerNamed(ns: seq<Node>, cs: seq<Group>)
    requires cs != [] && Named(ns, cs[..|cs| - 1])
    ensures Named(ns, cs)
  {
  }

  lemma {:induction false} SubgroupsInOrder(f: Fleet, g: Group, cs: seq<Group>, depth: nat, parentId: NodeId, visited: set<nat>)
    requires Keyed(f) && g in f.groups && g.id in visited
    requires Ordered(GroupKey, cs) && forall c :: c in cs ==> c in Subgroups(f, g.id)
    ensures var ns := SubgroupNodes(f, g, cs, depth, parentId, visited); GroupsOrdered(f, GroupKey, ns) && Named(ns, cs)
    decreases |cs|
  {
    if cs != [] {
      var c := cs[|cs| - 1];
      var rest := SubgroupNodes(f, g, cs[..|cs| - 1], depth, parentId, visited);
      SubgroupsInOrder(f, g, cs[..|cs| - 1], depth, parentId, visited);
      forall c | c in cs ensures c in f.groups { SubgroupsExact(f, g.id, c); }
      var n := GroupNode(f, c, depth, parentId, visited);
      hide GroupNode, GroupsOrdered, Named, Subgroups, Ordered;
      FewerNamed(rest, cs);
      if n.Some? {
        GroupNodeIs(f, c, depth, parentId, visited);
        OneMoreGroup(f, GroupKey, cs, rest, n.value);
      }
    }
  }

  lemma GroupNodeIs(f: Fleet, g: Group, depth: nat, parentId: NodeId, visited: set<nat>)
    requires g in f.groups && g.id !in visited
    ensures var n := GroupNode(f, g, depth, parentId, visited).value; n.what.GroupOf? && n.what.group == g.id && n.kind.KGroup?
  {
    hide SubgroupNodes, Members, Subgroups;
  }

  /** A group shows its subgroups by name, then its members by name, and says how many members it has. */
  lemma GroupLaw(f: Fleet, g: Group, depth: nat, parentId: NodeId, visited: set<nat>)
    requires Keyed(f) && g in f.groups && g.id !in visited
    ensures var n := GroupNode(f, g, depth, parentId, visited).value;
      && InOrder(f, n.children)
      && n.what.GroupOf? && n.what.direct == |set s | s in f.servers && (g.id, s.id) in f.members|
      && (forall s :: s in f.servers ==> (Shows(n.children, HostOf(s.id)) <==> (g.id, s.id) in f.members))
      && (forall m :: m in n.children && m.what.HostOf? ==> m.kind.KHost? && m.children == [] && !m.hasChildren)
      && (n.hasChildren <==> n.children != [])
  {
    var n := GroupNode(f, g, depth, parentId, visited).value;
    var (ms, cs) := (Members(f, g.id), Subgroups(f, g.id));
    var nodeId := parentId + [G(g.id)];
    var subs := SubgroupNodes(f, g, cs, depth + 1, nodeId, visited + {g.id});
    var leaves := MemberLeaves(f, ms, depth + 1, nodeId);
    assert n.children == subs + leaves && n.what.direct == |ms| && (n.hasChildren <==> n.children != []);
    hide GroupNode, SubgroupNodes, InOrder, Shows, MemberLeaves;
    SortOrdered(GroupKey, Filter(SubgroupOf(f, g.id), f.groups));
    hide Subgroups;
    SubgroupsInOrder(f, g, cs, depth + 1, nodeId, visited + {g.id});
    GroupsAreInOrder(f, subs, cs);
    MembersLaw(f, g.id, depth + 1, nodeId);
    ConcatInOrder(f, subs, leaves);
    forall s | s in f.servers ensures Shows(n.children, HostOf(s.id)) <==> (g.id, s.id) in f.members {
      ShowsConcat(subs, leaves, HostOf(s.id));
      NoHosts(subs, cs, HostOf(s.id));
    }
  }

  lemma NoHosts(ns: seq<Node>, cs: seq<Group>, w: Subject)
    requires Named(ns, cs) && w.HostOf?
    ensures !Shows(ns, w)
  {
  }

  lemma GroupsAreInOrder(f: Fleet, ns: seq<Node>, cs: seq<Group>)
    requires GroupsOrdered(f, GroupKey, ns) && Named(ns, cs)
    ensures InOrder(f, ns) && forall n :: n in ns ==> Rank(n.what) == 0
  {
    hide StringLeq, Lower;
    forall i, j | 0 <= i < j < |ns| ensures Before(f, ns[i].what, ns[j].what) {
      assert Above(f, GroupKey, ns[i].what, ns[j].what);
      forall g, h | g in f.groups && h in f.groups && g.id == ns[i].what.group && h.id == ns[j].what.group
        ensures StringLeq(Lower(g.name), Lower(h.name))
      {
        assert StringLeq(GroupKey(g), GroupKey(h));
      }
    }
  }

  lemma MembersLaw(f: Fleet, g: nat, depth: nat, parentId: NodeId)
    requires Keyed(f)
    ensures var (ms, ns) := (Members(f, g), MemberLeaves(f, Members(f, g), depth, parentId));
      && InOrder(f, ns)
      && |ms| == |set s | s in f.servers && (g, s.id) in f.members|
      && (forall n :: n in ns ==> n.what.HostOf? && n.kind.KHost? && n.children == [] && !n.hasChildren)
      && (forall s :: s in f.servers ==> (Shows(ns, HostOf(s.id)) <==> (g, s.id) in f.members))
  {
    var (ms, ns) := (Members(f, g), MemberLeaves(f, Members(f, g), depth, parentId));
    forall s ensures s in ms <==> s in f.servers && (g, s.id) in f.members { MembersExact(f, g, s); }
    SortOrdered(ServerKey, Filter(InGroup(f, g), f.servers));
    FilterDistinct(ServerId, InGroup(f, g), f.servers);
    SortDistinct(ServerKey, ServerId, Filter(InGroup(f, g), f.servers));
    MemberLeavesAre(f, ms, depth, parentId);
    hide Members, MemberLeaves, Shows;
    Counts(ServerId, ms, set s | s in f.servers && (g, s.id) in f.members);
    HostsInOrder(f, ms, ns);
    forall s | s in f.servers ensures Shows(ns, HostOf(s.id)) <==> (g, s.id) in f.members {
      HostsShown(ns, ms, HostOf(s.id));
      forall t | t in ms && t.id == s.id ensures t == s { SameId(f, s, t); }
    }
  }

  lemma MemberLeavesAre(f: Fleet, ms: seq<Server>, depth: nat, parentId: NodeId)
    ensures var ns := MemberLeaves(f, ms, depth, parentId);
      && |ns| == |ms|
      && (forall i :: 0 <= i < |ns| ==> ns[i].what == HostOf(ms[i].id))
      && (forall n :: n in ns ==> n.what.HostOf? && n.kind.KHost? && n.children == [] && !n.hasChildren)
  {
    hide DockerNodes, Guests;
  }

  /** The top of the overlay: the groups no group contains, by name as it is written. */
  lemma {:induction false} OverlayInOrder(f: Fleet, tops: seq<Group>)
    requires Keyed(f) && Ordered(GroupName, tops) && forall g :: g in tops ==> g in f.groups
    ensures GroupsOrdered(f, GroupName, Overlay(f, tops)) && Named(Overlay(f, tops), tops)
  {
    if tops != [] {
      var g := tops[|tops| - 1];
      OverlayInOrder(f, tops[..|tops| - 1]);
      GroupNodeIs(f, g, 0, [], {});
      hide GroupNode, GroupsOrdered, Named, Ordered;
      OneMoreGroup(f, GroupName, tops, Overlay(f, tops[..|tops| - 1]), GroupNode(f, g, 0, [], {}).value);
    }
  }

  ghost predicate NamesRise(f: Fleet, v: Subject, w: Subject) {
    v.GroupOf? && w.GroupOf? && forall g, h :: g in f.groups && h in f.groups && g.id == v.group && h.id == w.group ==> StringLeq(g.name, h.name)
  }

  lemma TopsLaw(f: Fleet)
    requires Keyed(f)
    ensures forall g :: g in TopGroups(f) ==> g in f.groups
    ensures var ns := Overlay(f, TopGroups(f)); forall i, j :: 0 <= i < j < |ns| ==> NamesRise(f, ns[i].what, ns[j].what)
  {
    hide Overlay, StringLeq;
    forall g | g in TopGroups(f) ensures g in f.groups { TopGroupsExact(f, g); }
    SortOrdered(GroupName, f.groups);
    FilterOrdered(GroupName, TopOf(f), SortBy(GroupName, f.groups));
    OverlayInOrder(f, TopGroups(f));
    var ns := Overlay(f, TopGroups(f));
    forall i, j | 0 <= i < j < |ns| ensures NamesRise(f, ns[i].what, ns[j].what) {
      assert Above(f, GroupName, ns[i].what, ns[j].what);
      forall g, h | g in f.groups && h in f.groups && g.id == ns[i].what.group && h.id == ns[j].what.group
        ensures StringLeq(g.name, h.name)
      {
        assert StringLeq(GroupName(g), GroupName(h));
      }
    }
  }
}
