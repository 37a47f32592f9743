/** The Hosts forest (webpanel/app/tree.py): the physical tree of hosts, guests and containers, and the group
    overlay below it. ForestBuilder.dfy holds the loops that build it. */
module Forest {
  import opened Options
  import opened Graph
  import opened Lists
  import Groups
  import Text

  datatype Server = Server(
    id: nat, name: string, parent: Option<nat>,
    virtKind: string,        // "" when NULL
    guestType: string,       // "" when NULL
    connection: string,
    node: string)            // proxmox_node, "" when NULL

  datatype Container = Container(id: nat, host: nat, containerId: string, name: string, state: string, project: string)

  datatype Group = Group(id: nat, name: string)

  datatype Fleet = Fleet(
    servers: seq<Server>, containers: seq<Container>,
    groups: seq<Group>, edges: Edges, members: set<(nat, nat)>)

  datatype Kind = KHost | KVirtualHost | KGuest | KStack | KDocker | KGroup

  /** A node id is the path of its segments: `h3/stack:web/d7`. */
  datatype Segment = H(server: nat) | D(container: nat) | StackSegment(project: string) | Band(node: string) | G(group: nat)
  type NodeId = seq<Segment>

  datatype Subject =
    | HostOf(server: nat)
    | ContainerOf(container: nat)
    | StackOf(project: string, total: nat, running: nat)
    | BandOf(node: string)
    | GroupOf(group: nat, direct: nat, effective: nat)

  datatype Node = Node(
    kind: Kind, depth: nat, nodeId: NodeId, parentId: NodeId,   // [] stands for no parent
    hasChildren: bool, what: Subject, children: seq<Node>)

  // ---------------------------------------------------------------- keys

  function LowerChar(c: char): char { if 'A' <= c <= 'Z' then c + (32 as char) else c }
  function Lower(s: string): string { if s == "" then "" else [LowerChar(s[0])] + Lower(s[1..]) }

  function ServerKey(s: Server): string { Lower(s.name) }
  function GroupKey(g: Group): string { Lower(g.name) }
  function ContainerKey(c: Container): string { Lower(if c.name != "" then c.name else c.containerId) }
  function Project(c: Container): string { Text.Strip(c.project) }
  function Unsorted(s: string): string { s }

  function ServerId(s: Server): nat { s.id }
  function ContainerId(c: Container): nat { c.id }
  function GroupId(g: Group): nat { g.id }

  predicate IsGuest(s: Server) { s.guestType != "" || s.connection == "proxmox" }

  /** The band a parentless host is shown under: its unmanaged Proxmox node, for a guest that names one. */
  function BandName(s: Server): string { if IsGuest(s) then s.node else "" }

  function ChildOf(id: nat): Server -> bool { (s: Server) => s.parent == Some(id) }
  predicate IsRoot(s: Server) { s.parent.None? }
  function RunsOn(id: nat): Container -> bool { (c: Container) => c.host == id }
  function InGroup(f: Fleet, g: nat): Server -> bool { (s: Server) => (g, s.id) in f.members }
  function SubgroupOf(f: Fleet, g: nat): Group -> bool { (c: Group) => (g, c.id) in f.edges }

  // ---------------------------------------------------------------- the physical tree

  /** The (parent, child) pairs of `parent_server_id`. */
  function Links(f: Fleet): Edges {
    set s | s in f.servers && s.parent.Some? :: (s.parent.value, s.id)
  }

  ghost function Ids(f: Fleet): set<nat> { set s | s in f.servers :: s.id }

  /** Primary keys. */
  ghost predicate Keyed(f: Fleet) {
    Distinct(ServerId, f.servers) && Distinct(ContainerId, f.containers) && Distinct(GroupId, f.groups)
  }

  /** `path` holds the ancestors of `s` and `s` is not one of them; this is why the recursion ends, whatever the
      parent links look like elsewhere. */
  ghost predicate OnPath(f: Fleet, s: Server, path: set<nat>) {
    && s in f.servers && s.id !in path
    && forall p, c :: (p, c) in Links(f) && c in path + {s.id} ==> p in path
  }

  function Guests(f: Fleet, id: nat): seq<Server> { SortBy(ServerKey, Filter(ChildOf(id), f.servers)) }

  lemma GuestOnPath(f: Fleet, s: Server, path: set<nat>, i: nat)
    requires Keyed(f) && OnPath(f, s, path) && i < |Guests(f, s.id)|
    ensures OnPath(f, Guests(f, s.id)[i], path + {s.id})
    ensures Guests(f, s.id)[i].parent == Some(s.id)
  {
    var g := Guests(f, s.id)[i];
    GuestsExact(f, s.id, g);
    assert (s.id, g.id) in Links(f);
    forall p, c | (p, c) in Links(f) && c in path + {s.id} + {g.id} ensures p in path + {s.id} {
      if c == g.id { ParentUnique(f, s.id, p, g.id); }
    }
  }

  lemma GuestsExact(f: Fleet, id: nat, g: Server)
    ensures g in Guests(f, id) <==> g in f.servers && g.parent == Some(id)
  {
    SortMember(ServerKey, Filter(ChildOf(id), f.servers), g);
    FilterMember(ChildOf(id), f.servers, g);
  }

  lemma SameId(f: Fleet, s: Server, t: Server)
    requires Keyed(f) && s in f.servers && t in f.servers && s.id == t.id
    ensures s == t
  {
    DistinctSame(ServerId, f.servers, s, t);
  }

  lemma ParentUnique(f: Fleet, p: nat, q: nat, c: nat)
    requires Keyed(f) && (p, c) in Links(f) && (q, c) in Links(f)
    ensures p == q
  {
    var s :| s in f.servers && s.parent == Some(p) && s.id == c;
    var t :| t in f.servers && t.parent == Some(q) && t.id == c;
    SameId(f, s, t);
  }

  function ServerNode(f: Fleet, s: Server, depth: nat, parentId: NodeId, kind: Kind, nest: bool, ghost path: set<nat>): Node
    requires nest ==> Keyed(f) && OnPath(f, s, path)
    decreases nest, Ids(f) - path
  {
    var nodeId := parentId + [H(s.id)];
    var children :=
      if !nest then []
      else
        var gs := Guests(f, s.id);
        seq(|gs|, i requires 0 <= i < |gs| =>
          (GuestOnPath(f, s, path, i);
           ServerNode(f, gs[i], depth + 1, nodeId, KGuest, true, path + {s.id})))
        + DockerNodes(f, s.id, depth + 1, nodeId);
    Node(kind, depth, nodeId, parentId, children != [] || (nest && s.virtKind != ""), HostOf(s.id), children)
  }

  function DockerNode(c: Container, depth: nat, parentId: NodeId): Node {
    Node(KDocker, depth, parentId + [D(c.id)], parentId, false, ContainerOf(c.id), [])
  }

  function Leaves(cs: seq<Container>, depth: nat, parentId: NodeId): seq<Node> {
    seq(|cs|, i requires 0 <= i < |cs| => DockerNode(cs[i], depth, parentId))
  }

  function CountRunning(cs: seq<Container>): nat { |Filter((c: Container) => c.state == "running", cs)| }

  function StackNode(project: string, cs: seq<Container>, depth: nat, parentId: NodeId): Node {
    var nodeId := parentId + [StackSegment(project)];
    Node(KStack, depth, nodeId, parentId, true, StackOf(project, |cs|, CountRunning(cs)),
         Leaves(SortBy(ContainerKey, cs), depth + 1, nodeId))
  }

  function StackNodes(projects: seq<string>, cs: seq<Container>, depth: nat, parentId: NodeId): seq<Node> {
    seq(|projects|, i requires 0 <= i < |projects| => StackNode(projects[i], Filter(KeyIs(Project, projects[i]), cs), depth, parentId))
  }

  function ContainersOn(f: Fleet, host: nat): seq<Container> { Filter(RunsOn(host), f.containers) }

  /** The containers of one host: a node per compose project, then the ones without a project. */
  function DockerNodes(f: Fleet, host: nat, depth: nat, parentId: NodeId): seq<Node> {
    var cs := ContainersOn(f, host);
    StackNodes(SortBy(Lower, Keys(Project, cs)), cs, depth, parentId)
    + Leaves(SortBy(ContainerKey, Filter(KeyIs(Project, ""), cs)), depth, parentId)
  }

  function Roots(f: Fleet): seq<Server> { Filter(IsRoot, f.servers) }

  lemma RootOnPath(f: Fleet, s: Server)
    requires Keyed(f) && s in Roots(f)
    ensures OnPath(f, s, {})
  {
    FilterMember(IsRoot, f.servers, s);
    forall p, c | (p, c) in Links(f) && c == s.id ensures false {
      var t :| t in f.servers && t.parent == Some(p) && t.id == c;
      SameId(f, s, t);
    }
  }

  function RootNode(f: Fleet, s: Server): Node
    requires Keyed(f) && s in Roots(f)
  {
    RootOnPath(f, s);
    ServerNode(f, s, 0, [], if s.virtKind != "" || Guests(f, s.id) != [] then KVirtualHost else KHost, true, {})
  }

  function PlainRoots(f: Fleet): seq<Server> { SortBy(ServerKey, Filter(KeyIs(BandName, ""), Roots(f))) }
  function Orphans(f: Fleet, node: string): seq<Server> { SortBy(ServerKey, Filter(KeyIs(BandName, node), Roots(f))) }
  function Bands(f: Fleet): seq<string> { SortBy(Unsorted, Keys(BandName, Roots(f))) }

  lemma BandMembers(f: Fleet, node: string, s: Server)
    ensures s in Orphans(f, node) ==> s in Roots(f)
  {
    SortMember(ServerKey, Filter(KeyIs(BandName, node), Roots(f)), s);
    FilterMember(KeyIs(BandName, node), Roots(f), s);
  }

  /** A label-only node for guests whose Proxmox node is not a managed host. */
  function BandNode(f: Fleet, node: string): Node
    requires Keyed(f)
  {
    var gs := Orphans(f, node);
    Node(KVirtualHost, 0, [Band(node)], [], true, BandOf(node),
         seq(|gs|, i requires 0 <= i < |gs| =>
           (BandMembers(f, node, gs[i]); RootOnPath(f, gs[i]);
            ServerNode(f, gs[i], 1, [Band(node)], KGuest, true, {}))))
  }

  function RootNodes(f: Fleet): seq<Node>
    requires Keyed(f)
  {
    var plain := PlainRoots(f);
    seq(|plain|, i requires 0 <= i < |plain| => (BandMembers(f, "", plain[i]); RootNode(f, plain[i])))
  }

  function BandNodes(f: Fleet): seq<Node>
    requires Keyed(f)
  {
    var bands := Bands(f);
    seq(|bands|, i requires 0 <= i < |bands| => BandNode(f, bands[i]))
  }

  function Physical(f: Fleet): seq<Node>
    requires Keyed(f)
  {
    RootNodes(f) + BandNodes(f)
  }

  // ---------------------------------------------------------------- the group overlay

  function Subgroups(f: Fleet, g: nat): seq<Group> { SortBy(GroupKey, Filter(SubgroupOf(f, g), f.groups)) }
  function Members(f: Fleet, g: nat): seq<Server> { SortBy(ServerKey, Filter(InGroup(f, g), f.servers)) }

  ghost function GroupIds(f: Fleet): set<nat> { set g | g in f.groups :: g.id }

  /** Foreign keys of the group tables. */
  ghost predicate Referential(f: Fleet) {
    && (forall e :: e in f.edges ==> e.0 in GroupIds(f) && e.1 in GroupIds(f))
    && (forall m :: m in f.members ==> m.0 in GroupIds(f) && m.1 in Ids(f))
  }

  lemma SubgroupsExact(f: Fleet, g: nat, c: Group)
    ensures c in Subgroups(f, g) <==> c in f.groups && (g, c.id) in f.edges
  {
    SortMember(GroupKey, Filter(SubgroupOf(f, g), f.groups), c);
    FilterMember(SubgroupOf(f, g), f.groups, c);
  }

  lemma MembersExact(f: Fleet, g: nat, s: Server)
    ensures s in Members(f, g) <==> s in f.servers && (g, s.id) in f.members
  {
    SortMember(ServerKey, Filter(InGroup(f, g), f.servers), s);
    FilterMember(InGroup(f, g), f.servers, s);
  }

  /** Members render as leaves in a group, their guests are not nested again. */
  function MemberLeaves(f: Fleet, ms: seq<Server>, depth: nat, parentId: NodeId): seq<Node> {
    seq(|ms|, i requires 0 <= i < |ms| => ServerNode(f, ms[i], depth, parentId, KHost, false, {}))
  }

  /** The overlay node of a group, None when it is already on the path from the top. */
  ghost function GroupNode(f: Fleet, g: Group, depth: nat, parentId: NodeId, visited: set<nat>): (r: Option<Node>)
    requires g in f.groups
    ensures r.None? <==> g.id in visited
    decreases GroupIds(f) - visited, 1
  {
    if g.id in visited then None
    else
      var nodeId := parentId + [G(g.id)];
      var members := Members(f, g.id);
      var children := SubgroupNodes(f, g, Subgroups(f, g.id), depth + 1, nodeId, visited + {g.id})
                      + MemberLeaves(f, members, depth + 1, nodeId);
      Some(Node(KGroup, depth, nodeId, parentId, children != [],
                GroupOf(g.id, |members|, |Groups.GroupHosts(f.edges, f.members, {g.id})|), children))
  }

  /** The nodes of the subgroups that are not yet on the path. */
  ghost function SubgroupNodes(f: Fleet, g: Group, cs: seq<Group>, depth: nat, parentId: NodeId, visited: set<nat>): seq<Node>
    requires g in f.groups && g.id in visited
    requires forall c :: c in cs ==> c in Subgroups(f, g.id)
    decreases GroupIds(f) - visited, 2, |cs|
  {
    if cs == [] then []
    else
      var c := cs[|cs| - 1];
      SubgroupsExact(f, g.id, c);
      var n := GroupNode(f, c, depth, parentId, visited);
      SubgroupNodes(f, g, cs[..|cs| - 1], depth, parentId, visited) + if n.Some? then [n.value] else []
  }

  /** No group has it as a child. */
  predicate IsTop(f: Fleet, g: Group) { forall e :: e in f.edges ==> e.1 != g.id }

  function GroupName(g: Group): string { g.name }

  function TopOf(f: Fleet): Group -> bool { (g: Group) => IsTop(f, g) }

  function TopGroups(f: Fleet): seq<Group> { Filter(TopOf(f), SortBy(GroupName, f.groups)) }

  lemma TopGroupsExact(f: Fleet, g: Group)
    ensures g in TopGroups(f) <==> g in f.groups && IsTop(f, g)
  {
    FilterMember(TopOf(f), SortBy(GroupName, f.groups), g);
    SortMember(GroupName, f.groups, g);
  }

  ghost function Overlay(f: Fleet, tops: seq<Group>): seq<Node>
    requires forall g :: g in tops ==> g in f.groups
  {
    if tops == [] then []
    else
      var n := GroupNode(f, tops[|tops| - 1], 0, [], {});
      Overlay(f, tops[..|tops| - 1]) + if n.Some? then [n.value] else []
  }

  /** Physical hosts first, then the groups that no group contains. */
  ghost function HostForest(f: Fleet): seq<Node>
    requires Keyed(f)
  {
    assert forall g :: g in TopGroups(f) ==> g in f.groups by {
      forall g | g in TopGroups(f) ensures g in f.groups { TopGroupsExact(f, g); }
    }
    Physical(f) + Overlay(f, TopGroups(f))
  }
}
