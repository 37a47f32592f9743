/** The group overlay of the Hosts forest against job targeting: the hosts shown under a group are the hosts a run
    on that group would reach (webpanel/app/tree.py `_group_node`, webpanel/app/groups.py). */
module OverlayFacts {
  import opened Options
  import opened Graph
  import opened Forest
  import opened Groups

  ghost function HostsIn(n: Node): set<nat>
    decreases n, 1
  {
    (if n.what.HostOf? then {n.what.server} else {}) + HostsInAll(n.children)
  }

  ghost function HostsInAll(ns: seq<Node>): set<nat>
    decreases ns, 0
  {
    if ns == [] then {} else HostsInAll(ns[..|ns| - 1]) + HostsIn(ns[|ns| - 1])
  }

  ghost function GroupsIn(n: Node): set<nat>
    decreases n, 1
  {
    (if n.what.GroupOf? then {n.what.group} else {}) + GroupsInAll(n.children)
  }

  ghost function GroupsInAll(ns: seq<Node>): set<nat>
    decreases ns, 0
  {
    if ns == [] then {} else GroupsInAll(ns[..|ns| - 1]) + GroupsIn(ns[|ns| - 1])
  }

  lemma {:induction false} InConcat(a: seq<Node>, b: seq<Node>)
    ensures HostsInAll(a + b) == HostsInAll(a) + HostsInAll(b)
    ensures GroupsInAll(a + b) == GroupsInAll(a) + GroupsInAll(b)
  {
    if b == [] {
      assert a + b == a;
    } else {
      InConcat(a, b[..|b| - 1]);
      assert (a + b)[..|a + b| - 1] == a + b[..|b| - 1];
    }
  }

  /** The graph without the groups of `v`. */
  ghost function Cut(es: Edges, v: set<nat>): Edges {
    set e | e in es && e.0 !in v && e.1 !in v
  }

  ghost function GroupsBelow(f: Fleet, es: Edges, ids: set<nat>): set<nat> {
    set g | g in GroupIds(f) && ReachedFrom(es, ids, g)
  }

  ghost function Unvisited(cs: seq<Group>, visited: set<nat>): set<nat> {
    set c | c in cs && c.id !in visited :: c.id
  }

  ghost function IdsOf(ms: seq<Server>): set<nat> { set s | s in ms :: s.id }

  lemma {:induction false} LeavesShow(f: Fleet, ms: seq<Server>, depth: nat, parentId: NodeId)
    ensures var ns := MemberLeaves(f, ms, depth, parentId); HostsInAll(ns) == IdsOf(ms) && GroupsInAll(ns) == {}
  {
    if ms != [] {
      var n := |ms| - 1;
      LeavesShow(f, ms[..n], depth, parentId);
      var ns := MemberLeaves(f, ms, depth, parentId);
      assert ns[..n] == MemberLeaves(f, ms[..n], depth, parentId);
      assert ms == ms[..n] + [ms[n]];
      LeafShows(ns[n]);
    }
  }

  lemma LeafShows(n: Node)
    requires n.what.HostOf? && n.children == []
    ensures HostsIn(n) == {n.what.server} && GroupsIn(n) == {}
  {
    assert GroupsInAll(n.children) == {};
  }

  lemma NodeShows(n: Node, subs: seq<Node>, leaves: seq<Node>)
    requires n.what.GroupOf? && n.children == subs + leaves
    ensures HostsIn(n) == HostsInAll(subs) + HostsInAll(leaves)
    ensures GroupsIn(n) == GroupsInAll(subs) + GroupsInAll(leaves) + {n.what.group}
  {
    InConcat(subs, leaves);
  }

  /** What a node shows, in terms of reachability along `es`. */
  ghost predicate Shows(f: Fleet, n: Node, es: Edges) {
    && n.what.GroupOf?
    && HostsIn(n) == GroupHosts(es, f.members, {n.what.group})
    && GroupsIn(n) == GroupsBelow(f, es, {n.what.group})
  }

  /** A group not on the path shows the groups and hosts it reaches without passing through the path. */
  lemma {:induction false} GroupNodeShows(f: Fleet, g: Group, depth: nat, parentId: NodeId, visited: set<nat>)
    requires Referential(f) && g in f.groups && g.id !in visited
    ensures GroupNode(f, g, depth, parentId, visited).Some?
    ensures var n := GroupNode(f, g, depth, parentId, visited).value;
            Shows(f, n, Cut(f.edges, visited)) && n.what.group == g.id
            && n.what.effective == |GroupHosts(f.edges, f.members, {g.id})|
    decreases GroupIds(f) - visited, 1
  {
    var n := GroupNode(f, g, depth, parentId, visited).value;
    var cs, ms, v := Subgroups(f, g.id), Members(f, g.id), visited + {g.id};
    SubgroupNodesShow(f, g, cs, depth + 1, n.nodeId, v);
    LeavesShow(f, ms, depth + 1, n.nodeId);
    NodeShows(n, SubgroupNodes(f, g, cs, depth + 1, n.nodeId, v), MemberLeaves(f, ms, depth + 1, n.nodeId));
    SplitAt(f, g, visited);
  }

  lemma SplitAt(f: Fleet, g: Group, visited: set<nat>)
    requires Referential(f) && g in f.groups && g.id !in visited
    ensures var es, fs, ids := Cut(f.edges, visited), Cut(f.edges, visited + {g.id}), Unvisited(Subgroups(f, g.id), visited + {g.id});
            GroupHosts(es, f.members, {g.id}) == GroupHosts(fs, f.members, ids) + IdsOf(Members(f, g.id))
            && GroupsBelow(f, es, {g.id}) == GroupsBelow(f, fs, ids) + {g.id}
  {
    var es, fs, ids := Cut(f.edges, visited), Cut(f.edges, visited + {g.id}), Unvisited(Subgroups(f, g.id), visited + {g.id});
    forall h ensures ReachedFrom(es, {g.id}, h) <==> h == g.id || ReachedFrom(fs, ids, h) {
      ReachSplits(f, g, visited, h);
    }
    HostsSplit(f, g.id, es, fs, ids);
    GroupsSplit(f, g.id, es, fs, ids);
    MembersAre(f, g.id);
  }

  ghost function DirectMembers(f: Fleet, g: nat): set<nat> { set m | m in f.members && m.0 == g :: m.1 }

  lemma MembersAre(f: Fleet, g: nat)
    requires Referential(f)
    ensures IdsOf(Members(f, g)) == DirectMembers(f, g)
  {
    forall x | x in DirectMembers(f, g) ensures x in IdsOf(Members(f, g)) {
      assert (g, x) in f.members && (g, x).1 in Ids(f);
      var s :| s in f.servers && s.id == x;
      MembersExact(f, g, s);
    }
    forall x | x in IdsOf(Members(f, g)) ensures x in DirectMembers(f, g) {
      var s :| s in Members(f, g) && s.id == x;
      MembersExact(f, g, s);
      assert (g, x).0 == g;
    }
  }

  lemma HostsSplit(f: Fleet, g: nat, es: Edges, fs: Edges, ids: set<nat>)
    requires forall h :: ReachedFrom(es, {g}, h) <==> h == g || ReachedFrom(fs, ids, h)
    ensures GroupHosts(es, f.members, {g}) == GroupHosts(fs, f.members, ids) + DirectMembers(f, g)
  {
  }

  lemma GroupsSplit(f: Fleet, g: nat, es: Edges, fs: Edges, ids: set<nat>)
    requires g in GroupIds(f)
    requires forall h :: ReachedFrom(es, {g}, h) <==> h == g || ReachedFrom(fs, ids, h)
    ensures GroupsBelow(f, es, {g}) == GroupsBelow(f, fs, ids) + {g}
  {
  }

  /** Leaving `g` for good: whoever is below it off the path is it, or below an unvisited child off the longer path. */
  lemma ReachSplits(f: Fleet, g: Group, visited: set<nat>, h: nat)
    requires Referential(f) && g in f.groups && g.id !in visited
    ensures ReachedFrom(Cut(f.edges, visited), {g.id}, h) <==>
      h == g.id || ReachedFrom(Cut(f.edges, visited + {g.id}), Unvisited(Subgroups(f, g.id), visited + {g.id}), h)
  {
    var es, v := Cut(f.edges, visited), visited + {g.id};
    assert Without(es, g.id) == Cut(f.edges, v);
    Reflexive(es, g.id);
    if ReachedFrom(es, {g.id}, h) && h != g.id {
      var c := LastExit(es, g.id, h);
      var child :| child in f.groups && child.id == c by { assert (g.id, c).1 in GroupIds(f); }
      SubgroupsExact(f, g.id, child);
      assert c in Unvisited(Subgroups(f, g.id), v);
    }
    if ReachedFrom(Cut(f.edges, v), Unvisited(Subgroups(f, g.id), v), h) {
      var c :| c in Unvisited(Subgroups(f, g.id), v) && Reaches(Cut(f.edges, v), c, h);
      var child :| child in Subgroups(f, g.id) && child.id == c;
      SubgroupsExact(f, g.id, child);
      Monotone(Cut(f.edges, v), es, c, h);
      EdgeReaches(es, g.id, c);
      Transitive(es, g.id, c, h);
    }
  }

  lemma {:induction false} SubgroupNodesShow(f: Fleet, g: Group, cs: seq<Group>, depth: nat, parentId: NodeId, visited: set<nat>)
    requires Referential(f) && g in f.groups && g.id in visited
    requires forall c :: c in cs ==> c in Subgroups(f, g.id)
    ensures var ns := SubgroupNodes(f, g, cs, depth, parentId, visited);
      && HostsInAll(ns) == GroupHosts(Cut(f.edges, visited), f.members, Unvisited(cs, visited))
      && GroupsInAll(ns) == GroupsBelow(f, Cut(f.edges, visited), Unvisited(cs, visited))
    decreases GroupIds(f) - visited, 2, |cs|
  {
    if cs != [] {
      var k := |cs| - 1;
      var c, rest := cs[k], cs[..k];
      UnvisitedLast(rest, c, visited);
      assert cs == rest + [c];
      SubgroupsExact(f, g.id, c);
      SubgroupNodesShow(f, g, rest, depth, parentId, visited);
      var before := SubgroupNodes(f, g, rest, depth, parentId, visited);
      if c.id in visited {
        assert before + [] == before;
      } else {
        GroupNodeShows(f, c, depth, parentId, visited);
        OneMore(f, before, GroupNode(f, c, depth, parentId, visited).value, Cut(f.edges, visited), Unvisited(rest, visited));
      }
    }
  }

  lemma UnvisitedLast(rest: seq<Group>, c: Group, visited: set<nat>)
    ensures Unvisited(rest + [c], visited) == Unvisited(rest, visited) + if c.id in visited then {} else {c.id}
  {
  }

  lemma SameReach(f: Fleet, es: Edges, fs: Edges, ids: set<nat>)
    requires forall h :: ReachedFrom(es, ids, h) <==> ReachedFrom(fs, ids, h)
    ensures GroupHosts(es, f.members, ids) == GroupHosts(fs, f.members, ids)
  {
  }

  ghost function GroupIdsOf(gs: seq<Group>): set<nat> { set g | g in gs :: g.id }

  lemma GroupIdsLast(gs: seq<Group>, g: Group)
    ensures GroupIdsOf(gs + [g]) == GroupIdsOf(gs) + {g.id}
  {
  }

  lemma BelowDistributes(f: Fleet, es: Edges, a: set<nat>, b: set<nat>)
    ensures GroupsBelow(f, es, a + b) == GroupsBelow(f, es, a) + GroupsBelow(f, es, b)
  {
  }

  lemma OneMore(f: Fleet, ns: seq<Node>, n: Node, es: Edges, ids: set<nat>)
    requires HostsInAll(ns) == GroupHosts(es, f.members, ids) && GroupsInAll(ns) == GroupsBelow(f, es, ids)
    requires Shows(f, n, es)
    ensures HostsInAll(ns + [n]) == GroupHosts(es, f.members, ids + {n.what.group})
    ensures GroupsInAll(ns + [n]) == GroupsBelow(f, es, ids + {n.what.group})
  {
    hide HostsIn, GroupsIn, GroupHosts, GroupsBelow;
    assert (ns + [n])[..|ns|] == ns;
    ExpansionDistributes(es, f.members, ids, {n.what.group});
    BelowDistributes(f, es, ids, {n.what.group});
  }

  // ---------------------------------------------------------------- the overlay agrees with targeting

  /** A top-level group shows exactly the hosts a run on it targets, and counts them, even if the graph has cycles. */
  lemma TopGroupAgrees(f: Fleet, g: Group)
    requires Referential(f) && g in f.groups
    ensures GroupNode(f, g, 0, [], {}).Some?
    ensures var n := GroupNode(f, g, 0, [], {}).value;
            Shows(f, n, f.edges) && n.what.group == g.id && n.what.effective == |HostsIn(n)|
  {
    GroupNodeShows(f, g, 0, [], {});
    assert Cut(f.edges, {}) == f.edges;
  }

  /** The same for every group node of a subtree. */
  ghost predicate Agrees(f: Fleet, n: Node)
    decreases n
  {
    && (n.what.GroupOf? ==> HostsIn(n) == GroupHosts(f.edges, f.members, {n.what.group}) && n.what.effective == |HostsIn(n)|)
    && forall i | 0 <= i < |n.children| :: Agrees(f, n.children[i])
  }

  /** The groups on the path are above `g`. */
  ghost predicate LeadTo(es: Edges, visited: set<nat>, g: nat) {
    forall v :: v in visited ==> Reaches(es, v, g)
  }

  lemma OnPathSelf(es: Edges, visited: set<nat>, g: nat)
    requires LeadTo(es, visited, g)
    ensures LeadTo(es, visited + {g}, g)
  {
    Reflexive(es, g);
  }

  lemma LeadOn(es: Edges, visited: set<nat>, g: nat, c: nat)
    requires LeadTo(es, visited, g) && (g, c) in es
    ensures LeadTo(es, visited, c)
  {
    forall v | v in visited ensures Reaches(es, v, c) {
      EdgeReaches(es, g, c);
      Transitive(es, v, g, c);
    }
  }

  /** In an acyclic graph nothing below a group is on the path that led to it. */
  lemma PathIsAbove(es: Edges, g: nat, visited: set<nat>, h: nat)
    requires Acyclic(es) && g !in visited && LeadTo(es, visited, g)
    ensures Reaches(Cut(es, visited), g, h) <==> Reaches(es, g, h)
  {
    if Reaches(es, g, h) {
      var p :| IsPathFromTo(es, p, g, h);
      forall i | 0 <= i < |p| ensures p[i] !in visited {
        assert IsPathFromTo(es, p[..i + 1], g, p[i]);
        if p[i] in visited {
          FirstStep(es, g, p[i]);
          AboveThenReaches(es, g, p[i], g);
        }
      }
      forall i | 0 <= i < |p| - 1 ensures (p[i], p[i + 1]) in Cut(es, visited) { assert (p[i], p[i + 1]) in es; }
      assert IsPathFromTo(Cut(es, visited), p, g, h);
    }
    if Reaches(Cut(es, visited), g, h) { Monotone(Cut(es, visited), es, g, h); }
  }

  lemma GroupNodeParts(f: Fleet, g: Group, depth: nat, parentId: NodeId, visited: set<nat>)
    requires g in f.groups && g.id !in visited
    ensures var n := GroupNode(f, g, depth, parentId, visited).value;
      n.children == SubgroupNodes(f, g, Subgroups(f, g.id), depth + 1, n.nodeId, visited + {g.id})
                    + MemberLeaves(f, Members(f, g.id), depth + 1, n.nodeId)
  {
  }

  lemma PathHidesNothing(f: Fleet, g: nat, visited: set<nat>)
    requires Acyclic(f.edges) && g !in visited && LeadTo(f.edges, visited, g)
    ensures GroupHosts(Cut(f.edges, visited), f.members, {g}) == GroupHosts(f.edges, f.members, {g})
  {
    forall h ensures ReachedFrom(Cut(f.edges, visited), {g}, h) <==> ReachedFrom(f.edges, {g}, h) {
      PathIsAbove(f.edges, g, visited, h);
    }
    SameReach(f, Cut(f.edges, visited), f.edges, {g});
  }

  lemma {:induction false} GroupNodeAgrees(f: Fleet, g: Group, depth: nat, parentId: NodeId, visited: set<nat>)
    requires Referential(f) && Acyclic(f.edges) && g in f.groups && g.id !in visited
    requires LeadTo(f.edges, visited, g.id)
    ensures GroupNode(f, g, depth, parentId, visited).Some? && Agrees(f, GroupNode(f, g, depth, parentId, visited).value)
    decreases GroupIds(f) - visited, 1
  {
    var n := GroupNode(f, g, depth, parentId, visited).value;
    GroupNodeShows(f, g, depth, parentId, visited);
    PathHidesNothing(f, g.id, visited);
    OnPathSelf(f.edges, visited, g.id);
    var subs := SubgroupNodes(f, g, Subgroups(f, g.id), depth + 1, n.nodeId, visited + {g.id});
    SubgroupNodesAgree(f, g, Subgroups(f, g.id), depth + 1, n.nodeId, visited + {g.id});
    LeavesAgree(f, Members(f, g.id), depth + 1, n.nodeId);
    GroupNodeParts(f, g, depth, parentId, visited);
    AgreeConcat(f, subs, MemberLeaves(f, Members(f, g.id), depth + 1, n.nodeId));
    AgreesFrom(f, n);
  }

  ghost predicate AllAgree(f: Fleet, ns: seq<Node>) {
    forall i :: 0 <= i < |ns| ==> Agrees(f, ns[i])
  }

  lemma AgreeConcat(f: Fleet, a: seq<Node>, b: seq<Node>)
    requires AllAgree(f, a) && AllAgree(f, b)
    ensures AllAgree(f, a + b)
  {
  }

  lemma AgreesFrom(f: Fleet, n: Node)
    requires n.what.GroupOf? && n.what.effective == |HostsIn(n)| && HostsIn(n) == GroupHosts(f.edges, f.members, {n.what.group})
    requires AllAgree(f, n.children)
    ensures Agrees(f, n)
  {
  }

  lemma LeavesAgree(f: Fleet, ms: seq<Server>, depth: nat, parentId: NodeId)
    ensures AllAgree(f, MemberLeaves(f, ms, depth, parentId))
  {
  }

  lemma {:induction false} SubgroupNodesAgree(f: Fleet, g: Group, cs: seq<Group>, depth: nat, parentId: NodeId, visited: set<nat>)
    requires Referential(f) && Acyclic(f.edges) && g in f.groups && g.id in visited
    requires LeadTo(f.edges, visited, g.id)
    requires forall c :: c in cs ==> c in Subgroups(f, g.id)
    ensures AllAgree(f, SubgroupNodes(f, g, cs, depth, parentId, visited))
    decreases GroupIds(f) - visited, 2, |cs|
  {
    if cs != [] {
      var k := |cs| - 1;
      var c := cs[k];
      SubgroupsExact(f, g.id, c);
      SubgroupNodesAgree(f, g, cs[..k], depth, parentId, visited);
      if c.id !in visited {
        LeadOn(f.edges, visited, g.id, c.id);
        GroupNodeAgrees(f, c, depth, parentId, visited);
      }
    }
  }

  /** On an acyclic graph, every group node anywhere in the overlay shows and counts the hosts its group targets. */
  lemma {:induction false} OverlayAgrees(f: Fleet, tops: seq<Group>)
    requires Referential(f) && Acyclic(f.edges) && forall g :: g in tops ==> g in f.groups
    ensures AllAgree(f, Overlay(f, tops))
  {
    if tops != [] {
      OverlayAgrees(f, tops[..|tops| - 1]);
      GroupNodeAgrees(f, tops[|tops| - 1], 0, [], {});
    }
  }

  // ---------------------------------------------------------------- no group goes missing

  lemma {:induction false} OverlayGroups(f: Fleet, tops: seq<Group>)
    requires Referential(f) && forall g :: g in tops ==> g in f.groups
    ensures GroupsInAll(Overlay(f, tops)) == GroupsBelow(f, f.edges, GroupIdsOf(tops))
    ensures HostsInAll(Overlay(f, tops)) == GroupHosts(f.edges, f.members, GroupIdsOf(tops))
  {
    if tops != [] {
      var n := |tops| - 1;
      assert tops == tops[..n] + [tops[n]];
      OverlayGroups(f, tops[..n]);
      TopGroupAgrees(f, tops[n]);
      OneMore(f, Overlay(f, tops[..n]), GroupNode(f, tops[n], 0, [], {}).value, f.edges, GroupIdsOf(tops[..n]));
      GroupIdsLast(tops[..n], tops[n]);
    }
  }

  lemma {:induction false} SomeTopAbove(f: Fleet, g: Group) returns (t: Group)
    requires Referential(f) && Acyclic(f.edges) && g in f.groups
    ensures t in TopGroups(f) && Reaches(f.edges, t.id, g.id)
    decreases |Ancestors(f.edges, g.id)|
  {
    if e :| e in f.edges && e.1 == g.id {
      var p :| p in f.groups && p.id == e.0;
      assert (p.id, g.id) == e;
      Reflexive(f.edges, g.id);
      assert Above(f.edges, p.id, g.id);
      AncestorsGrow(f.edges, p.id, g.id);
      t := SomeTopAbove(f, p);
      EdgeReaches(f.edges, p.id, g.id);
      Transitive(f.edges, t.id, p.id, g.id);
    } else {
      TopGroupsExact(f, g);
      Reflexive(f.edges, g.id);
      t := g;
    }
  }

  /** The overlay shows exactly the groups below a parentless one; it misses none just when every group has one above. */
  lemma OverlayShowsGroupsUnderTops(f: Fleet)
    requires Referential(f) && forall g :: g in TopGroups(f) ==> g in f.groups
    ensures GroupsInAll(Overlay(f, TopGroups(f))) == GroupsBelow(f, f.edges, GroupIdsOf(TopGroups(f)))
  {
    OverlayGroups(f, TopGroups(f));
  }

  /** On an acyclic graph no group is missing from the forest. */
  lemma EveryGroupShown(f: Fleet)
    requires Keyed(f) && Referential(f) && Acyclic(f.edges)
    ensures GroupIds(f) <= GroupsInAll(HostForest(f))
  {
    forall g | g in TopGroups(f) ensures g in f.groups { TopGroupsExact(f, g); }
    OverlayGroups(f, TopGroups(f));
    InConcat(Physical(f), Overlay(f, TopGroups(f)));
    forall x | x in GroupIds(f) ensures ReachedFrom(f.edges, GroupIdsOf(TopGroups(f)), x) {
      var g :| g in f.groups && g.id == x;
      var t := SomeTopAbove(f, g);
      assert t.id in GroupIdsOf(TopGroups(f));
    }
  }
}
