/** The loops of webpanel/app/tree.py that build the Hosts forest, proved to build the forest of Forest.dfy. */
module ForestBuilder {
  import opened Options
  import opened Graph
  import opened Lists
  import opened Forest
  import Groups

  /** A dictionary of lists. */
  function Bucket<K, T>(m: map<K, seq<T>>, k: K): seq<T> { if k in m then m[k] else [] }

  /** `m.setdefault(k, []).append(x)` */
  function Append<K(!new), T>(m: map<K, seq<T>>, k: K, x: T): (r: map<K, seq<T>>)
    ensures forall j :: Bucket(r, j) == if j == k then Bucket(m, j) + [x] else Bucket(m, j)
  {
    m[k := Bucket(m, k) + [x]]
  }

  lemma FilterNext<T>(p: T -> bool, xs: seq<T>, i: nat)
    requires i < |xs|
    ensures Filter(p, xs[..i + 1]) == Filter(p, xs[..i]) + if p(xs[i]) then [xs[i]] else []
  {
    assert xs[..i + 1][..i] == xs[..i];
  }

  /** The lookups shared by the recursive builders. */
  class Ctx {
    ghost const fleet: Fleet
    const servers: seq<Server>
    const groups: seq<Group>
    const edges: Edges
    const members: set<(nat, nat)>
    var childrenMap: map<nat, seq<Server>>
    var dockerMap: map<nat, seq<Container>>

    ghost predicate Valid()
      reads this
    {
      && servers == fleet.servers && groups == fleet.groups && edges == fleet.edges && members == fleet.members
      && (forall id :: Bucket(childrenMap, id) == Filter(ChildOf(id), fleet.servers))
      && (forall id :: Bucket(dockerMap, id) == ContainersOn(fleet, id))
    }

    constructor (f: Fleet)
      ensures Valid() && fleet == f
    {
      fleet, servers, groups, edges, members := f, f.servers, f.groups, f.edges, f.members;
      childrenMap, dockerMap := map[], map[];
      new;
      childrenMap := MapChildren(f);
      dockerMap := MapContainers(f);
    }
  }

  method MapChildren(f: Fleet) returns (m: map<nat, seq<Server>>)
    ensures forall id :: Bucket(m, id) == Filter(ChildOf(id), f.servers)
  {
    m := map[];
    var i := 0;
    while i < |f.servers|
      invariant 0 <= i <= |f.servers|
      invariant forall id :: Bucket(m, id) == Filter(ChildOf(id), f.servers[..i])
    {
      var s := f.servers[i];
      forall id: nat ensures Filter(ChildOf(id), f.servers[..i + 1]) == Filter(ChildOf(id), f.servers[..i]) + if s.parent == Some(id) then [s] else [] {
        FilterNext(ChildOf(id), f.servers, i);
      }
      if s.parent.Some? { m := Append(m, s.parent.value, s); }
      i := i + 1;
    }
    assert f.servers[..i] == f.servers;
  }

  method MapContainers(f: Fleet) returns (m: map<nat, seq<Container>>)
    ensures forall id :: Bucket(m, id) == ContainersOn(f, id)
  {
    m := map[];
    var i := 0;
    while i < |f.containers|
      invariant 0 <= i <= |f.containers|
      invariant forall id :: Bucket(m, id) == Filter(RunsOn(id), f.containers[..i])
    {
      var c := f.containers[i];
      forall id: nat ensures Filter(RunsOn(id), f.containers[..i + 1]) == Filter(RunsOn(id), f.containers[..i]) + if c.host == id then [c] else [] {
        FilterNext(RunsOn(id), f.containers, i);
      }
      m := Append(m, c.host, c);
      i := i + 1;
    }
    assert f.containers[..i] == f.containers;
  }

  /** Distributes `xs` over a dictionary of lists by non-empty key; `order` holds the dictionary's keys as inserted,
      `rest` the elements without a key. */
  method Distribute<T>(key: T -> string, xs: seq<T>) returns (m: map<string, seq<T>>, order: seq<string>, rest: seq<T>)
    ensures order == Keys(key, xs)
    ensures forall k :: k != "" ==> Bucket(m, k) == Filter(KeyIs(key, k), xs)
    ensures rest == Filter(KeyIs(key, ""), xs)
  {
    m, order, rest := map[], [], [];
    var i := 0;
    while i < |xs|
      invariant 0 <= i <= |xs|
      invariant order == Keys(key, xs[..i])
      invariant forall k :: k != "" ==> Bucket(m, k) == Filter(KeyIs(key, k), xs[..i])
      invariant rest == Filter(KeyIs(key, ""), xs[..i])
    {
      var x := xs[i];
      var k := key(x);
      forall j ensures Filter(KeyIs(key, j), xs[..i + 1]) == Filter(KeyIs(key, j), xs[..i]) + if k == j then [x] else [] {
        FilterNext(KeyIs(key, j), xs, i);
      }
      assert xs[..i + 1][..i] == xs[..i];
      if k != "" {
        if k !in order { order := order + [k]; }
        m := Append(m, k, x);
      } else {
        rest := rest + [x];
      }
      i := i + 1;
    }
    assert xs[..i] == xs;
  }

  lemma KeyNonEmpty<T>(key: T -> string, order: string -> string, xs: seq<T>, k: string)
    requires k in SortBy(order, Keys(key, xs))
    ensures k != ""
  {
    KeysExact(key, xs);
    SortMember(order, Keys(key, xs), k);
  }

  /** The container nodes of a host: compose stacks in a dictionary, the rest in a list, both then sorted. */
  method BuildDocker(ctx: Ctx, host: nat, depth: nat, parentId: NodeId) returns (nodes: seq<Node>)
    requires ctx.Valid()
    ensures nodes == DockerNodes(ctx.fleet, host, depth, parentId)
  {
    var cs := Bucket(ctx.dockerMap, host);
    var stacks, order, standalone := Distribute(Project, cs);
    nodes := BuildStacks(cs, stacks, SortBy(Lower, order), depth, parentId);
    nodes := nodes + Leaves(SortBy(ContainerKey, standalone), depth, parentId);
  }

  method BuildStacks(ghost cs: seq<Container>, stacks: map<string, seq<Container>>, projects: seq<string>, depth: nat, parentId: NodeId)
    returns (nodes: seq<Node>)
    requires projects == SortBy(Lower, Keys(Project, cs))
    requires forall k :: k != "" ==> Bucket(stacks, k) == Filter(KeyIs(Project, k), cs)
    ensures nodes == StackNodes(projects, cs, depth, parentId)
  {
    hide Filter, SortBy, Keys;
    nodes := [];
    var i := 0;
    while i < |projects|
      invariant 0 <= i <= |projects|
      invariant nodes == StackNodes(projects, cs, depth, parentId)[..i]
    {
      var n := BuildStack(cs, stacks, projects, depth, parentId, i);
      nodes := nodes + [n];
      i := i + 1;
    }
  }

  method BuildStack(ghost cs: seq<Container>, stacks: map<string, seq<Container>>, projects: seq<string>, depth: nat, parentId: NodeId, i: nat)
    returns (n: Node)
    requires i < |projects| && projects == SortBy(Lower, Keys(Project, cs))
    requires forall k :: k != "" ==> Bucket(stacks, k) == Filter(KeyIs(Project, k), cs)
    ensures n == StackNodes(projects, cs, depth, parentId)[i]
  {
    KeyNonEmpty(Project, Lower, cs, projects[i]);
    n := StackNode(projects[i], Bucket(stacks, projects[i]), depth, parentId);
  }

  method BuildServer(ctx: Ctx, s: Server, depth: nat, parentId: NodeId, kind: Kind, nest: bool, ghost path: set<nat>) returns (n: Node)
    requires ctx.Valid()
    requires nest ==> Keyed(ctx.fleet) && OnPath(ctx.fleet, s, path)
    ensures n == ServerNode(ctx.fleet, s, depth, parentId, kind, nest, path)
    decreases nest, Ids(ctx.fleet) - path
  {
    hide Filter, SortBy, DockerNodes;
    var nodeId := parentId + [H(s.id)];
    var children: seq<Node> := [];
    ghost var spec := ServerNode(ctx.fleet, s, depth, parentId, kind, nest, path);
    if nest {
      var gs := SortBy(ServerKey, Bucket(ctx.childrenMap, s.id));
      var i := 0;
      while i < |gs|
        invariant 0 <= i <= |gs| == |Guests(ctx.fleet, s.id)| && gs == Guests(ctx.fleet, s.id)
        invariant |gs| <= |spec.children| && children == spec.children[..i]
      {
        GuestOnPath(ctx.fleet, s, path, i);
        var g := BuildServer(ctx, gs[i], depth + 1, nodeId, KGuest, true, path + {s.id});
        children := children + [g];
        i := i + 1;
      }
      var docker := BuildDocker(ctx, s.id, depth + 1, nodeId);
      children := children + docker;
      assert children == spec.children;
    }
    n := Node(kind, depth, nodeId, parentId, children != [] || (nest && s.virtKind != ""), HostOf(s.id), children);
  }

  method BuildGroup(ctx: Ctx, g: Group, depth: nat, parentId: NodeId, visited: set<nat>) returns (n: Option<Node>)
    requires ctx.Valid() && g in ctx.groups
    ensures n == GroupNode(ctx.fleet, g, depth, parentId, visited)
    decreases GroupIds(ctx.fleet) - visited, 0
  {
    if g.id in visited { return None; }
    var seen := visited + {g.id};
    var nodeId := parentId + [G(g.id)];
    var children: seq<Node> := [];
    var cs := SortBy(GroupKey, Filter((c: Group) => (g.id, c.id) in ctx.edges, ctx.groups));
    assert cs == Subgroups(ctx.fleet, g.id) by {
      FilterSame((c: Group) => (g.id, c.id) in ctx.edges, SubgroupOf(ctx.fleet, g.id), ctx.groups);
    }
    children := BuildSubgroups(ctx, g, cs, depth + 1, nodeId, seen);
    var ms := SortBy(ServerKey, Filter((s: Server) => (g.id, s.id) in ctx.members, ctx.servers));
    assert ms == Members(ctx.fleet, g.id) by {
      FilterSame((s: Server) => (g.id, s.id) in ctx.members, InGroup(ctx.fleet, g.id), ctx.servers);
    }
    var leaves := BuildMembers(ctx, ms, depth + 1, nodeId);
    children := children + leaves;
    var effective := Groups.ExpandGroupHosts(ctx.edges, ctx.members, [g.id]);
    assert Groups.Elements([g.id]) == {g.id};
    return Some(Node(KGroup, depth, nodeId, parentId, children != [], GroupOf(g.id, |ms|, |effective|), children));
  }

  method BuildSubgroups(ctx: Ctx, ghost g: Group, cs: seq<Group>, depth: nat, nodeId: NodeId, seen: set<nat>) returns (nodes: seq<Node>)
    requires ctx.Valid() && g in ctx.groups && g.id in seen && cs == Subgroups(ctx.fleet, g.id)
    ensures nodes == SubgroupNodes(ctx.fleet, g, cs, depth, nodeId, seen)
    decreases GroupIds(ctx.fleet) - seen, 1
  {
    hide GroupNode, Filter, SortBy;
    nodes := [];
    var i := 0;
    while i < |cs|
      invariant 0 <= i <= |cs|
      invariant nodes == SubgroupNodes(ctx.fleet, g, cs[..i], depth, nodeId, seen)
    {
      SubgroupsExact(ctx.fleet, g.id, cs[i]);
      var n := BuildGroup(ctx, cs[i], depth, nodeId, seen);
      SubgroupsNext(ctx.fleet, g, cs, i, depth, nodeId, seen);
      if n.Some? { nodes := nodes + [n.value]; }
      i := i + 1;
    }
    assert cs[..i] == cs;
  }

  lemma SubgroupsNext(f: Fleet, g: Group, cs: seq<Group>, i: nat, depth: nat, nodeId: NodeId, seen: set<nat>)
    requires g in f.groups && g.id in seen && cs == Subgroups(f, g.id) && i < |cs|
    ensures cs[i] in f.groups
    ensures var n := GroupNode(f, cs[i], depth, nodeId, seen);
      SubgroupNodes(f, g, cs[..i + 1], depth, nodeId, seen) ==
      SubgroupNodes(f, g, cs[..i], depth, nodeId, seen) + if n.Some? then [n.value] else []
  {
    SubgroupsExact(f, g.id, cs[i]);
    assert cs[..i + 1][..i] == cs[..i];
  }

  method BuildMembers(ctx: Ctx, ms: seq<Server>, depth: nat, nodeId: NodeId) returns (nodes: seq<Node>)
    requires ctx.Valid()
    ensures nodes == MemberLeaves(ctx.fleet, ms, depth, nodeId)
  {
    nodes := [];
    var i := 0;
    while i < |ms|
      invariant 0 <= i <= |ms| && |nodes| == i
      invariant forall k :: 0 <= k < i ==> nodes[k] == ServerNode(ctx.fleet, ms[k], depth, nodeId, KHost, false, {})
    {
      var leaf := BuildServer(ctx, ms[i], depth, nodeId, KHost, false, {});
      nodes := nodes + [leaf];
      i := i + 1;
    }
  }

  lemma {:induction false} FilterSame<T>(p: T -> bool, q: T -> bool, xs: seq<T>)
    requires forall x :: p(x) == q(x)
    ensures Filter(p, xs) == Filter(q, xs)
  {
    if xs != [] { FilterSame(p, q, xs[..|xs| - 1]); }
  }

  method BuildHostForest(f: Fleet) returns (forest: seq<Node>)
    requires Keyed(f)
    ensures forest == HostForest(f)
  {
    var ctx := new Ctx(f);
    var orphans, order, plain := Distribute(BandName, Roots(f));
    var rootNodes := BuildRoots(ctx, SortBy(ServerKey, plain));
    var bandNodes := BuildBands(ctx, orphans, SortBy(Unsorted, order));
    var overlay := BuildOverlay(ctx);
    forest := rootNodes + bandNodes + overlay;
  }

  lemma GuestsEmpty(f: Fleet, id: nat)
    ensures Guests(f, id) == [] <==> Filter(ChildOf(id), f.servers) == []
  {
    SortSorts(ServerKey, Filter(ChildOf(id), f.servers));
  }

  method BuildRoots(ctx: Ctx, plain: seq<Server>) returns (nodes: seq<Node>)
    requires ctx.Valid() && Keyed(ctx.fleet) && plain == PlainRoots(ctx.fleet)
    ensures nodes == RootNodes(ctx.fleet)
  {
    hide ServerNode, Filter, SortBy;
    nodes := [];
    var i := 0;
    while i < |plain|
      invariant 0 <= i <= |plain|
      invariant nodes == RootNodes(ctx.fleet)[..i]
    {
      var n := BuildRoot(ctx, plain[i], i);
      nodes := nodes + [n];
      i := i + 1;
    }
  }

  method BuildRoot(ctx: Ctx, s: Server, ghost i: nat) returns (n: Node)
    requires ctx.Valid() && Keyed(ctx.fleet) && i < |PlainRoots(ctx.fleet)| && s == PlainRoots(ctx.fleet)[i]
    ensures n == RootNodes(ctx.fleet)[i]
  {
    BandMembers(ctx.fleet, "", s);
    RootOnPath(ctx.fleet, s);
    GuestsEmpty(ctx.fleet, s.id);
    var hasGuests := Bucket(ctx.childrenMap, s.id) != [];
    var kind := if s.virtKind != "" || hasGuests then KVirtualHost else KHost;
    n := BuildServer(ctx, s, 0, [], kind, true, {});
  }

  method BuildBands(ctx: Ctx, orphans: map<string, seq<Server>>, names: seq<string>) returns (nodes: seq<Node>)
    requires ctx.Valid() && Keyed(ctx.fleet) && names == Bands(ctx.fleet)
    requires forall k :: k != "" ==> Bucket(orphans, k) == Filter(KeyIs(BandName, k), Roots(ctx.fleet))
    ensures nodes == BandNodes(ctx.fleet)
  {
    hide ServerNode, Filter, SortBy, Keys;
    nodes := [];
    var i := 0;
    while i < |names|
      invariant 0 <= i <= |names|
      invariant nodes == BandNodes(ctx.fleet)[..i]
    {
      var n := BuildBandAt(ctx, orphans, names, i);
      nodes := nodes + [n];
      i := i + 1;
    }
  }

  method BuildBandAt(ctx: Ctx, orphans: map<string, seq<Server>>, names: seq<string>, i: nat) returns (n: Node)
    requires ctx.Valid() && Keyed(ctx.fleet) && names == Bands(ctx.fleet) && i < |names|
    requires forall k :: k != "" ==> Bucket(orphans, k) == Filter(KeyIs(BandName, k), Roots(ctx.fleet))
    ensures n == BandNodes(ctx.fleet)[i]
  {
    KeyNonEmpty(BandName, Unsorted, Roots(ctx.fleet), names[i]);
    n := BuildBand(ctx, names[i], Bucket(orphans, names[i]));
  }

  method BuildBand(ctx: Ctx, node: string, guests: seq<Server>) returns (n: Node)
    requires ctx.Valid() && Keyed(ctx.fleet) && guests == Filter(KeyIs(BandName, node), Roots(ctx.fleet))
    ensures n == BandNode(ctx.fleet, node)
  {
    hide ServerNode, Filter, SortBy;
    var gs := SortBy(ServerKey, guests);
    var children: seq<Node> := [];
    ghost var spec := BandNode(ctx.fleet, node).children;
    var i := 0;
    while i < |gs|
      invariant 0 <= i <= |gs| == |spec|
      invariant children == spec[..i]
    {
      BandMembers(ctx.fleet, node, gs[i]);
      RootOnPath(ctx.fleet, gs[i]);
      var g := BuildServer(ctx, gs[i], 1, [Band(node)], KGuest, true, {});
      children := children + [g];
      i := i + 1;
    }
    n := Node(KVirtualHost, 0, [Band(node)], [], true, BandOf(node), children);
  }

  method BuildOverlay(ctx: Ctx) returns (nodes: seq<Node>)
    requires ctx.Valid()
    ensures (forall g :: g in TopGroups(ctx.fleet) ==> g in ctx.fleet.groups) && nodes == Overlay(ctx.fleet, TopGroups(ctx.fleet))
  {
    forall g | g in TopGroups(ctx.fleet) ensures g in ctx.fleet.groups { TopGroupsExact(ctx.fleet, g); }
    var gs := SortBy(GroupName, ctx.groups);
    forall g | g in gs ensures g in ctx.fleet.groups { SortMember(GroupName, ctx.groups, g); }
    hide GroupNode, Filter, SortBy;
    nodes := [];
    var i := 0;
    while i < |gs|
      invariant 0 <= i <= |gs|
      invariant nodes == OverlayOf(ctx.fleet, gs, i)
    {
      OverlayNext(ctx.fleet, gs, i);
      if forall e :: e in ctx.edges ==> e.1 != gs[i].id {
        var n := BuildGroup(ctx, gs[i], 0, [], {});
        if n.Some? { nodes := nodes + [n.value]; }
      }
      i := i + 1;
    }
    assert gs[..i] == gs;
  }

  /** The overlay of the parentless groups among the first `i`. */
  ghost function OverlayOf(f: Fleet, gs: seq<Group>, i: nat): seq<Node>
    requires i <= |gs| && forall g :: g in gs ==> g in f.groups
  {
    TopsAreGroups(f, gs, i);
    Overlay(f, Filter(TopOf(f), gs[..i]))
  }

  lemma TopsAreGroups(f: Fleet, gs: seq<Group>, i: nat)
    requires i <= |gs| && forall g :: g in gs ==> g in f.groups
    ensures forall g :: g in Filter(TopOf(f), gs[..i]) ==> g in f.groups
  {
    forall g | g in Filter(TopOf(f), gs[..i]) ensures g in f.groups { FilterMember(TopOf(f), gs[..i], g); }
  }

  lemma OverlayNext(f: Fleet, gs: seq<Group>, i: nat)
    requires i < |gs| && forall g :: g in gs ==> g in f.groups
    ensures var n := GroupNode(f, gs[i], 0, [], {});
      OverlayOf(f, gs, i + 1) == OverlayOf(f, gs, i) + if IsTop(f, gs[i]) && n.Some? then [n.value] else []
  {
    FilterNext(TopOf(f), gs, i);
    TopsAreGroups(f, gs, i);
    var done := Filter(TopOf(f), gs[..i]);
    if IsTop(f, gs[i]) {
      assert (done + [gs[i]])[..|done|] == done;
    } else {
      assert done + [] == done;
      assert OverlayOf(f, gs, i) + [] == OverlayOf(f, gs, i);
    }
  }
}
