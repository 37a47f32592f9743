/** Where the nodes of the Hosts forest hang (webpanel/app/tree.py `node_id`, `parent_id`, `depth`), and that no two of
    them share an id. */
module ForestShape {
  import opened Options
  import opened Lists
  import opened Forest
  import Text

  /** Siblings: each names its parent, is one level below it and extends its id by a segment of its own. */
  ghost predicate Hang(ns: seq<Node>, depth: nat, parentId: NodeId)
    decreases ns
  {
    && (forall i :: 0 <= i < |ns| ==>
         && ns[i].depth == depth && ns[i].parentId == parentId
         && |ns[i].nodeId| == |parentId| + 1 && ns[i].nodeId[..|parentId|] == parentId
         && Hang(ns[i].children, depth + 1, ns[i].nodeId))
    && forall i, j :: 0 <= i < j < |ns| ==> ns[i].nodeId != ns[j].nodeId
  }

  lemma HangConcat(a: seq<Node>, b: seq<Node>, depth: nat, parentId: NodeId)
    requires Hang(a, depth, parentId) && Hang(b, depth, parentId)
    requires forall x, y :: x in a && y in b ==> x.nodeId != y.nodeId
    ensures Hang(a + b, depth, parentId)
  {
    var ns := a + b;
    forall i, j | 0 <= i < j < |ns| ensures ns[i].nodeId != ns[j].nodeId {
      if i < |a| <= j { assert ns[i] in a && ns[j] in b; }
    }
  }

  // ---------------------------------------------------------------- the physical section

  lemma LeavesHang(cs: seq<Container>, depth: nat, parentId: NodeId)
    requires Distinct(ContainerId, cs)
    ensures Hang(Leaves(cs, depth, parentId), depth, parentId)
  {
    var ns := Leaves(cs, depth, parentId);
    forall i, j | 0 <= i < j < |ns| ensures ns[i].nodeId != ns[j].nodeId {
      assert ContainerId(cs[i]) != ContainerId(cs[j]);
      assert ns[i].nodeId[|parentId|] != ns[j].nodeId[|parentId|];
    }
  }

  lemma StackHangs(project: string, cs: seq<Container>, depth: nat, parentId: NodeId)
    requires Distinct(ContainerId, cs)
    ensures var n := StackNode(project, cs, depth, parentId); Hang(n.children, depth + 1, n.nodeId)
  {
    SortDistinct(ContainerKey, ContainerId, cs);
    LeavesHang(SortBy(ContainerKey, cs), depth + 1, parentId + [StackSegment(project)]);
  }

  lemma StacksHang(projects: seq<string>, cs: seq<Container>, depth: nat, parentId: NodeId)
    requires Distinct(Same, projects) && Distinct(ContainerId, cs)
    ensures Hang(StackNodes(projects, cs, depth, parentId), depth, parentId)
  {
    var ns := StackNodes(projects, cs, depth, parentId);
    forall i | 0 <= i < |ns| ensures Hang(ns[i].children, depth + 1, ns[i].nodeId) {
      FilterDistinct(ContainerId, KeyIs(Project, projects[i]), cs);
      StackHangs(projects[i], Filter(KeyIs(Project, projects[i]), cs), depth, parentId);
    }
    forall i, j | 0 <= i < j < |ns| ensures ns[i].nodeId != ns[j].nodeId {
      assert Same(projects[i]) != Same(projects[j]);
      assert ns[i].nodeId[|parentId|] != ns[j].nodeId[|parentId|];
    }
  }

  lemma DockerNodesHang(f: Fleet, host: nat, depth: nat, parentId: NodeId)
    requires Keyed(f)
    ensures Hang(DockerNodes(f, host, depth, parentId), depth, parentId)
    ensures forall n :: n in DockerNodes(f, host, depth, parentId) ==> |n.nodeId| == |parentId| + 1 && !n.nodeId[|parentId|].H?
  {
    var cs := ContainersOn(f, host);
    var projects := SortBy(Lower, Keys(Project, cs));
    var alone := SortBy(ContainerKey, Filter(KeyIs(Project, ""), cs));
    FilterDistinct(ContainerId, RunsOn(host), f.containers);
    KeysExact(Project, cs);
    SortDistinct(Lower, Same, Keys(Project, cs));
    FilterDistinct(ContainerId, KeyIs(Project, ""), cs);
    SortDistinct(ContainerKey, ContainerId, Filter(KeyIs(Project, ""), cs));
    StacksHang(projects, cs, depth, parentId);
    LeavesHang(alone, depth, parentId);
    var (a, b) := (StackNodes(projects, cs, depth, parentId), Leaves(alone, depth, parentId));
    forall x, y | x in a && y in b ensures x.nodeId != y.nodeId {
      assert x.nodeId[|parentId|].StackSegment? && y.nodeId[|parentId|].D?;
    }
    HangConcat(a, b, depth, parentId);
  }

  lemma GuestsDistinct(f: Fleet, id: nat)
    requires Keyed(f)
    ensures Distinct(ServerId, Guests(f, id))
  {
    FilterDistinct(ServerId, ChildOf(id), f.servers);
    SortDistinct(ServerKey, ServerId, Filter(ChildOf(id), f.servers));
  }

  /** Nodes of hosts, one for each. */
  ghost predicate ShowsHosts(ns: seq<Node>, ss: seq<Server>, depth: nat, parentId: NodeId) {
    && |ns| == |ss|
    && forall i :: 0 <= i < |ns| ==>
      ns[i].depth == depth && ns[i].parentId == parentId && ns[i].nodeId == parentId + [H(ss[i].id)] && Hang(ns[i].children, depth + 1, ns[i].nodeId)
  }

  lemma HostsHang(ns: seq<Node>, ss: seq<Server>, depth: nat, parentId: NodeId)
    requires ShowsHosts(ns, ss, depth, parentId) && Distinct(ServerId, ss)
    ensures Hang(ns, depth, parentId)
  {
    forall i, j | 0 <= i < j < |ns| ensures ns[i].nodeId != ns[j].nodeId {
      assert ServerId(ss[i]) != ServerId(ss[j]);
      assert ns[i].nodeId[|parentId|] != ns[j].nodeId[|parentId|];
    }
  }

  lemma {:induction false} ServerNodeHangs(f: Fleet, s: Server, depth: nat, parentId: NodeId, kind: Kind, nest: bool, path: set<nat>)
    requires nest ==> Keyed(f) && OnPath(f, s, path)
    ensures var n := ServerNode(f, s, depth, parentId, kind, nest, path);
      n.depth == depth && n.parentId == parentId && n.nodeId == parentId + [H(s.id)] && Hang(n.children, depth + 1, n.nodeId)
    decreases nest, Ids(f) - path
  {
    hide DockerNodes, Guests, Hang;
    var n := ServerNode(f, s, depth, parentId, kind, nest, path);
    if !nest {
      NothingHangs(depth + 1, n.nodeId);
    } else {
      var gs := Guests(f, s.id);
      var docker := DockerNodes(f, s.id, depth + 1, n.nodeId);
      var guests := n.children[..|gs|];
      assert n.children == guests + docker;
      forall i | 0 <= i < |gs|
        ensures guests[i].depth == depth + 1 && guests[i].parentId == n.nodeId && guests[i].nodeId == n.nodeId + [H(gs[i].id)]
        ensures Hang(guests[i].children, depth + 2, guests[i].nodeId)
      {
        GuestOnPath(f, s, path, i);
        ServerNodeHangs(f, gs[i], depth + 1, n.nodeId, KGuest, true, path + {s.id});
      }
      GuestsDistinct(f, s.id);
      HostsHang(guests, gs, depth + 1, n.nodeId);
      DockerNodesHang(f, s.id, depth + 1, n.nodeId);
      HostsAndOthers(guests, gs, docker, depth + 1, n.nodeId);
    }
  }

  lemma NothingHangs(depth: nat, parentId: NodeId)
    ensures Hang([], depth, parentId)
  {
  }

  lemma HostsAndOthers(hosts: seq<Node>, ss: seq<Server>, others: seq<Node>, depth: nat, parentId: NodeId)
    requires ShowsHosts(hosts, ss, depth, parentId) && Hang(hosts, depth, parentId) && Hang(others, depth, parentId)
    requires forall n :: n in others ==> |n.nodeId| == |parentId| + 1 && !n.nodeId[|parentId|].H?
    ensures Hang(hosts + others, depth, parentId)
    ensures Hang(others + hosts, depth, parentId)
  {
    forall x, y | x in hosts && y in others ensures x.nodeId != y.nodeId { assert x.nodeId[|parentId|].H?; }
    HangConcat(hosts, others, depth, parentId);
    HangConcat(others, hosts, depth, parentId);
  }

  lemma RootsDistinct(f: Fleet, band: string)
    requires Keyed(f)
    ensures Distinct(ServerId, Orphans(f, band))
  {
    FilterDistinct(ServerId, IsRoot, f.servers);
    FilterDistinct(ServerId, KeyIs(BandName, band), Roots(f));
    SortDistinct(ServerKey, ServerId, Filter(KeyIs(BandName, band), Roots(f)));
  }

  lemma BandHangs(f: Fleet, band: string)
    requires Keyed(f)
    ensures Hang(BandNode(f, band).children, 1, [Band(band)])
  {
    var (n, gs) := (BandNode(f, band), Orphans(f, band));
    forall i | 0 <= i < |gs|
      ensures n.children[i].depth == 1 && n.children[i].parentId == [Band(band)] && n.children[i].nodeId == [Band(band)] + [H(gs[i].id)]
      ensures Hang(n.children[i].children, 2, n.children[i].nodeId)
    {
      BandMembers(f, band, gs[i]);
      RootOnPath(f, gs[i]);
      ServerNodeHangs(f, gs[i], 1, [Band(band)], KGuest, true, {});
    }
    RootsDistinct(f, band);
    HostsHang(n.children, gs, 1, [Band(band)]);
  }

  lemma RootHangs(f: Fleet, s: Server)
    requires Keyed(f) && s in Roots(f)
    ensures var n := RootNode(f, s); n.depth == 0 && n.parentId == [] && n.nodeId == [H(s.id)] && Hang(n.children, 1, n.nodeId)
  {
    hide ServerNode, Hang;
    RootOnPath(f, s);
    ServerNodeHangs(f, s, 0, [], if s.virtKind != "" || Guests(f, s.id) != [] then KVirtualHost else KHost, true, {});
  }

  lemma RootNodesHang(f: Fleet)
    requires Keyed(f)
    ensures ShowsHosts(RootNodes(f), PlainRoots(f), 0, []) && Hang(RootNodes(f), 0, [])
  {
    hide Hang, RootNode;
    var (ns, plain) := (RootNodes(f), PlainRoots(f));
    forall i | 0 <= i < |plain|
      ensures ns[i].depth == 0 && ns[i].parentId == [] && ns[i].nodeId == [] + [H(plain[i].id)] && Hang(ns[i].children, 1, ns[i].nodeId)
    {
      BandMembers(f, "", plain[i]);
      RootHangs(f, plain[i]);
    }
    RootsDistinct(f, "");
    HostsHang(ns, plain, 0, []);
  }

  lemma BandNodesHang(f: Fleet)
    requires Keyed(f)
    ensures Hang(BandNodes(f), 0, [])
  {
    var (ns, bands) := (BandNodes(f), Bands(f));
    KeysExact(BandName, Roots(f));
    SortDistinct(Unsorted, Same, Keys(BandName, Roots(f)));
    forall i | 0 <= i < |ns| ensures Hang(ns[i].children, 1, ns[i].nodeId) { BandHangs(f, bands[i]); }
    forall i, j | 0 <= i < j < |ns| ensures ns[i].nodeId != ns[j].nodeId { assert Same(bands[i]) != Same(bands[j]); }
  }

  /** The whole physical section: top nodes at depth 0 without a parent, everything else one below its parent. */
  lemma PhysicalHangs(f: Fleet)
    requires Keyed(f)
    ensures Hang(Physical(f), 0, [])
    ensures forall n :: n in Physical(f) ==> n.nodeId != [] && !n.nodeId[0].G?
  {
    RootNodesHang(f);
    BandNodesHang(f);
    forall n | n in BandNodes(f) ensures |n.nodeId| == 1 && n.nodeId[0].Band? { }
    HostsAndOthers(RootNodes(f), PlainRoots(f), BandNodes(f), 0, []);
  }

  // ---------------------------------------------------------------- the group overlay

  lemma MembersHang(f: Fleet, g: nat, depth: nat, parentId: NodeId)
    requires Keyed(f)
    ensures ShowsHosts(MemberLeaves(f, Members(f, g), depth, parentId), Members(f, g), depth, parentId)
    ensures Hang(MemberLeaves(f, Members(f, g), depth, parentId), depth, parentId)
  {
    var (ns, ms) := (MemberLeaves(f, Members(f, g), depth, parentId), Members(f, g));
    forall i | 0 <= i < |ms| ensures Hang(ns[i].children, depth + 1, ns[i].nodeId) {
      ServerNodeHangs(f, ms[i], depth, parentId, KHost, false, {});
    }
    FilterDistinct(ServerId, InGroup(f, g), f.servers);
    SortDistinct(ServerKey, ServerId, Filter(InGroup(f, g), f.servers));
    HostsHang(ns, ms, depth, parentId);
  }

  /** Nodes of groups from a list. */
  ghost predicate OfGroups(ns: seq<Node>, cs: seq<Group>, parentId: NodeId) {
    forall n :: n in ns ==> exists c :: c in cs && n.nodeId == parentId + [G(c.id)]
  }

  lemma GroupAdded(ns: seq<Node>, cs: seq<Group>, n: Node, depth: nat, parentId: NodeId)
    requires cs != [] && Distinct(GroupId, cs)
    requires Hang(ns, depth, parentId) && OfGroups(ns, cs[..|cs| - 1], parentId)
    requires n.depth == depth && n.parentId == parentId && n.nodeId == parentId + [G(cs[|cs| - 1].id)] && Hang(n.children, depth + 1, n.nodeId)
    ensures Hang(ns + [n], depth, parentId) && OfGroups(ns + [n], cs, parentId)
  {
    forall x | x in ns ensures x.nodeId != n.nodeId && exists c :: c in cs && x.nodeId == parentId + [G(c.id)] {
      var c :| c in cs[..|cs| - 1] && x.nodeId == parentId + [G(c.id)];
      var i :| 0 <= i < |cs| - 1 && cs[i] == c;
      assert GroupId(cs[i]) != GroupId(cs[|cs| - 1]);
      assert x.nodeId[|parentId|] != n.nodeId[|parentId|];
      assert c in cs;
    }
    assert cs[|cs| - 1] in cs;
    HangConcat(ns, [n], depth, parentId);
  }

  lemma StillOfGroups(ns: seq<Node>, cs: seq<Group>, parentId: NodeId)
    requires cs != [] && OfGroups(ns, cs[..|cs| - 1], parentId)
    ensures OfGroups(ns + [], cs, parentId)
  {
    forall x | x in ns ensures exists c :: c in cs && x.nodeId == parentId + [G(c.id)] {
      var c :| c in cs[..|cs| - 1] && x.nodeId == parentId + [G(c.id)];
      assert c in cs;
    }
  }

  lemma {:induction false} GroupNodeHangs(f: Fleet, g: Group, depth: nat, parentId: NodeId, visited: set<nat>)
    requires Keyed(f) && g in f.groups && g.id !in visited
    ensures var n := GroupNode(f, g, depth, parentId, visited).value;
      n.depth == depth && n.parentId == parentId && n.nodeId == parentId + [G(g.id)] && Hang(n.children, depth + 1, n.nodeId)
    decreases GroupIds(f) - visited, 1
  {
    hide Hang, SubgroupNodes, MemberLeaves, OfGroups;
    var n := GroupNode(f, g, depth, parentId, visited).value;
    var (cs, ms) := (Subgroups(f, g.id), Members(f, g.id));
    FilterDistinct(GroupId, SubgroupOf(f, g.id), f.groups);
    SortDistinct(GroupKey, GroupId, Filter(SubgroupOf(f, g.id), f.groups));
    SubgroupNodesHang(f, g, cs, depth + 1, n.nodeId, visited + {g.id});
    MembersHang(f, g.id, depth + 1, n.nodeId);
    var subs := SubgroupNodes(f, g, cs, depth + 1, n.nodeId, visited + {g.id});
    GroupsAreNoHosts(subs, cs, n.nodeId);
    HostsAndOthers(MemberLeaves(f, ms, depth + 1, n.nodeId), ms, subs, depth + 1, n.nodeId);
  }

  lemma GroupsAreNoHosts(ns: seq<Node>, cs: seq<Group>, parentId: NodeId)
    requires OfGroups(ns, cs, parentId)
    ensures forall n :: n in ns ==> |n.nodeId| == |parentId| + 1 && n.nodeId[|parentId|].G?
  {
  }

  lemma {:induction false} SubgroupNodesHang(f: Fleet, g: Group, cs: seq<Group>, depth: nat, parentId: NodeId, visited: set<nat>)
    requires Keyed(f) && g in f.groups && g.id in visited && Distinct(GroupId, cs)
    requires forall c :: c in cs ==> c in Subgroups(f, g.id)
    ensures var ns := SubgroupNodes(f, g, cs, depth, parentId, visited); Hang(ns, depth, parentId) && OfGroups(ns, cs, parentId)
    decreases GroupIds(f) - visited, 2, |cs|
  {
    if cs == [] {
      NothingHangs(depth, parentId);
    } else {
      hide Hang, OfGroups, GroupNode;
      var (init, c) := (cs[..|cs| - 1], cs[|cs| - 1]);
      SubgroupNodesHang(f, g, init, depth, parentId, visited);
      SubgroupsExact(f, g.id, c);
      var ns := SubgroupNodes(f, g, init, depth, parentId, visited);
      if c.id in visited {
        StillOfGroups(ns, cs, parentId);
        assert ns + [] == ns;
      } else {
        GroupNodeHangs(f, c, depth, parentId, visited);
        GroupAdded(ns, cs, GroupNode(f, c, depth, parentId, visited).value, depth, parentId);
      }
    }
  }

  lemma NoOverlay(f: Fleet)
    ensures Overlay(f, []) == [] && Hang([], 0, []) && OfGroups([], [], [])
  {
  }

  lemma OverlayNext(f: Fleet, tops: seq<Group>)
    requires tops != [] && forall g :: g in tops ==> g in f.groups
    ensures var (init, g) := (tops[..|tops| - 1], tops[|tops| - 1]);
      GroupNode(f, g, 0, [], {}).Some? && Overlay(f, tops) == Overlay(f, init) + [GroupNode(f, g, 0, [], {}).value]
  {
    hide GroupNode;
  }

  lemma {:induction false} OverlayHangs(f: Fleet, tops: seq<Group>)
    requires Keyed(f) && Distinct(GroupId, tops) && forall g :: g in tops ==> g in f.groups
    ensures Hang(Overlay(f, tops), 0, []) && OfGroups(Overlay(f, tops), tops, [])
  {
    hide Hang, OfGroups, GroupNode, Overlay;
    if tops == [] {
      NoOverlay(f);
    } else {
      var (init, g) := (tops[..|tops| - 1], tops[|tops| - 1]);
      OverlayNext(f, tops);
      OverlayHangs(f, init);
      GroupNodeHangs(f, g, 0, [], {});
      GroupAdded(Overlay(f, init), tops, GroupNode(f, g, 0, [], {}).value, 0, []);
    }
  }

  /** The whole forest: every node is one level below its parent, names it and extends its id. */
  lemma ForestHangs(f: Fleet)
    requires Keyed(f)
    ensures Hang(HostForest(f), 0, [])
  {
    hide Hang, OfGroups, Physical, Overlay;
    var tops := TopGroups(f);
    forall g | g in tops ensures g in f.groups { TopGroupsExact(f, g); }
    SortDistinct(GroupName, GroupId, f.groups);
    FilterDistinct(GroupId, TopOf(f), SortBy(GroupName, f.groups));
    PhysicalHangs(f);
    OverlayHangs(f, tops);
    GroupsAreNoHosts(Overlay(f, tops), tops, []);
    HangConcat(Physical(f), Overlay(f, tops), 0, []);
  }

  // ---------------------------------------------------------------- ids

  /** The node at the end of a way down from the top, given by positions among siblings. */
  function At(ns: seq<Node>, way: seq<nat>): Option<Node>
    decreases |way|
  {
    if way == [] || way[0] >= |ns| then None
    else if |way| == 1 then Some(ns[way[0]])
    else At(ns[way[0]].children, way[1..])
  }

  lemma {:induction false} IdAt(ns: seq<Node>, depth: nat, parentId: NodeId, way: seq<nat>)
    requires Hang(ns, depth, parentId) && At(ns, way).Some?
    ensures var n := At(ns, way).value;
      && n.depth == depth + |way| - 1 && |n.nodeId| == |parentId| + |way|
      && n.nodeId[..|parentId| + 1] == ns[way[0]].nodeId
    decreases |way|
  {
    if |way| > 1 {
      var c := ns[way[0]];
      IdAt(c.children, depth + 1, c.nodeId, way[1..]);
      var (n, d) := (At(ns, way).value, c.children[way[1]]);
      assert d.nodeId[..|c.nodeId|] == c.nodeId;
      assert n.nodeId[..|c.nodeId| + 1][..|c.nodeId|] == n.nodeId[..|c.nodeId|];
    }
  }

  lemma {:induction false} SameIdSameWay(ns: seq<Node>, depth: nat, parentId: NodeId, p: seq<nat>, q: seq<nat>)
    requires Hang(ns, depth, parentId) && At(ns, p).Some? && At(ns, q).Some? && At(ns, p).value.nodeId == At(ns, q).value.nodeId
    ensures p == q
    decreases |p|
  {
    IdAt(ns, depth, parentId, p);
    IdAt(ns, depth, parentId, q);
    assert p[0] == q[0];
    if |p| > 1 {
      SameIdSameWay(ns[p[0]].children, depth + 1, ns[p[0]].nodeId, p[1..], q[1..]);
      assert p == [p[0]] + p[1..] && q == [q[0]] + q[1..];
    }
  }

  /** No two places of the forest have the same id, and an id is as long as its place is deep. */
  lemma NodeIdsDistinct(f: Fleet, p: seq<nat>, q: seq<nat>)
    requires Keyed(f) && At(HostForest(f), p).Some? && At(HostForest(f), q).Some?
    ensures At(HostForest(f), p).value.nodeId == At(HostForest(f), q).value.nodeId <==> p == q
    ensures |At(HostForest(f), p).value.nodeId| == At(HostForest(f), p).value.depth + 1
  {
    hide HostForest;
    ForestHangs(f);
    IdAt(HostForest(f), 0, [], p);
    if At(HostForest(f), p).value.nodeId == At(HostForest(f), q).value.nodeId { SameIdSameWay(HostForest(f), 0, [], p, q); }
  }

  // ---------------------------------------------------------------- ids as text

  function Shown(seg: Segment): string {
    match seg
    case H(id) => "h" + Text.Decimal(id)
    case D(id) => "d" + Text.Decimal(id)
    case G(id) => "g" + Text.Decimal(id)
    case StackSegment(project) => "stack:" + project
    case Band(node) => "node:" + node
  }

  /** The id as the page has it. */
  function Joined(id: NodeId): string {
    if id == [] then "" else if |id| == 1 then Shown(id[0]) else Shown(id[0]) + "/" + Joined(id[1..])
  }

  /** No name in the id contains the separator. */
  predicate Plain(id: NodeId) {
    forall i :: 0 <= i < |id| ==>
      (id[i].StackSegment? ==> '/' !in id[i].project) && (id[i].Band? ==> '/' !in id[i].node)
  }

  lemma {:induction false} DecimalInjective(m: nat, n: nat)
    requires Text.Decimal(m) == Text.Decimal(n)
    ensures m == n
  {
    Text.DecimalDigits(m / 10);
    Text.DecimalDigits(n / 10);
    var s := Text.Decimal(m);
    assert s[|s| - 1] == Text.Digit(m % 10) == Text.Digit(n % 10);
    if m >= 10 && n >= 10 {
      assert Text.Decimal(m / 10) == s[..|s| - 1] == Text.Decimal(n / 10);
      DecimalInjective(m / 10, n / 10);
    }
  }

  lemma ShownInjective(a: Segment, b: Segment)
    requires Shown(a) == Shown(b)
    ensures a == b
  {
    var s := Shown(a);
    assert s[0] in "hdgsn" && s[0] == Shown(b)[0];
    match a
    case H(id) => assert s[1..] == Text.Decimal(id) == Text.Decimal(b.server); DecimalInjective(id, b.server);
    case D(id) => assert s[1..] == Text.Decimal(id) == Text.Decimal(b.container); DecimalInjective(id, b.container);
    case G(id) => assert s[1..] == Text.Decimal(id) == Text.Decimal(b.group); DecimalInjective(id, b.group);
    case StackSegment(project) => assert s[6..] == project == b.project;
    case Band(node) => assert s[5..] == node == b.node;
  }

  lemma ShownPlain(seg: Segment)
    requires Plain([seg])
    ensures Shown(seg) != "" && '/' !in Shown(seg)
  {
    assert [seg][0] == seg;
    match seg
    case H(id) => Text.DecimalDigits(id);
    case D(id) => Text.DecimalDigits(id);
    case G(id) => Text.DecimalDigits(id);
    case _ =>
  }

  lemma SameSplit(x: string, u: string, y: string, v: string)
    requires '/' !in x && '/' !in y && x + "/" + u == y + "/" + v
    ensures x == y && u == v
  {
    var s := x + "/" + u;
    assert s[|x|] == '/' && s[|y|] == '/';
    assert forall i :: 0 <= i < |x| ==> s[i] == x[i] != '/';
    assert forall i :: 0 <= i < |y| ==> s[i] == y[i] != '/';
    assert x == s[..|x|] && y == s[..|y|] && u == s[|x| + 1..] && v == s[|y| + 1..];
  }

  /** Ids without the separator in a name can be told apart as texts. */
  lemma {:induction false} JoinedInjective(a: NodeId, b: NodeId)
    requires Plain(a) && Plain(b) && Joined(a) == Joined(b)
    ensures a == b
    decreases |a|
  {
    if a != [] { assert a[0] == [a[0]][0]; ShownPlain(a[0]); }
    if b != [] { assert b[0] == [b[0]][0]; ShownPlain(b[0]); }
    if a != [] && b != [] {
      if |a| > 1 { assert '/' in Joined(a) by { assert Joined(a)[|Shown(a[0])|] == '/'; } }
      if |b| > 1 { assert '/' in Joined(b) by { assert Joined(b)[|Shown(b[0])|] == '/'; } }
      if |a| > 1 {
        SameSplit(Shown(a[0]), Joined(a[1..]), Shown(b[0]), Joined(b[1..]));
        JoinedInjective(a[1..], b[1..]);
      }
      ShownInjective(a[0], b[0]);
      assert a == [a[0]] + a[1..] && b == [b[0]] + b[1..];
    }
  }

  /** The same of the texts, for places whose ids have no such name. */
  lemma JoinedIdsDistinct(f: Fleet, p: seq<nat>, q: seq<nat>)
    requires Keyed(f) && At(HostForest(f), p).Some? && At(HostForest(f), q).Some?
    requires Plain(At(HostForest(f), p).value.nodeId) && Plain(At(HostForest(f), q).value.nodeId)
    ensures Joined(At(HostForest(f), p).value.nodeId) == Joined(At(HostForest(f), q).value.nodeId) <==> p == q
  {
    hide HostForest, Plain, Joined;
    NodeIdsDistinct(f, p, q);
    var (a, b) := (At(HostForest(f), p).value.nodeId, At(HostForest(f), q).value.nodeId);
    if Joined(a) == Joined(b) { JoinedInjective(a, b); }
  }

  /** With such a name they can coincide: a container of one stack, and a stack named after its path. */
  lemma JoinedIdsCanCoincide()
    ensures Joined([H(1), StackSegment("x"), D(5)]) == Joined([H(1), StackSegment("x/d5")]) == "h1/stack:x/d5"
  {
    assert Text.Decimal(1) == "1" && Text.Decimal(5) == "5";
    var (a, b) := ([H(1), StackSegment("x"), D(5)], [H(1), StackSegment("x/d5")]);
    assert a[1..] == [StackSegment("x"), D(5)] && a[1..][1..] == [D(5)] && b[1..] == [StackSegment("x/d5")];
  }
}
