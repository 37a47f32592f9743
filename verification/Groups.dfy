/** Group-graph helpers (webpanel/app/groups.py): worklist closures over the rows of
    `host_group_children`, target expansion, and the overlay order of a host's groups. */
module Groups {
  import opened Graph

  // ---------------------------------------------------------------- what the searches compute

  ghost predicate ReachedFrom(es: Edges, ids: set<nat>, g: nat) {
    exists a :: a in ids && Reaches(es, a, g)
  }

  ghost function Elements(xs: seq<nat>): set<nat> { set x | x in xs }

  /** Hosts that are members of a group reachable from one of `ids`. */
  ghost function GroupHosts(es: Edges, members: set<(nat, nat)>, ids: set<nat>): set<nat> {
    set m | m in members && ReachedFrom(es, ids, m.0) :: m.1
  }

  ghost function Ancestors(es: Edges, g: nat): set<nat> {
    set a | a in Sources(es) && Above(es, a, g)
  }

  /** Groups that hold the host directly or through a subgroup. */
  ghost function EffectiveGroups(es: Edges, members: set<(nat, nat)>, server: nat): set<nat> {
    set g | g in Sources(es) + (set m | m in members :: m.0) && Holds(es, members, g, server)
  }

  ghost predicate Holds(es: Edges, members: set<(nat, nat)>, g: nat, server: nat) {
    exists d :: (d, server) in members && Reaches(es, g, d)
  }

  // ---------------------------------------------------------------- the code

  predicate Maps(m: map<nat, set<nat>>, x: nat, y: nat) { x in m && y in m[x] }

  /** `m.setdefault(x, set()).add(y)` */
  function AddTo(m: map<nat, set<nat>>, x: nat, y: nat): (r: map<nat, set<nat>>)
    ensures forall a: nat, b: nat :: Maps(r, a, b) <==> Maps(m, a, b) || (a == x && b == y)
  {
    m[x := (if x in m then m[x] else {}) + {y}]
  }

  method ChildEdges(rows: Edges) returns (m: map<nat, set<nat>>)
    ensures forall p: nat, c: nat :: (p, c) in rows <==> Maps(m, p, c)
  {
    m := map[];
    var rest := rows;
    while rest != {}
      invariant rest <= rows
      invariant forall p: nat, c: nat :: (p, c) in rows - rest <==> Maps(m, p, c)
      decreases rest
    {
      var row :| row in rest;
      var (parent, child) := row;
      m := AddTo(m, parent, child);
      rest := rest - {row};
    }
  }

  /** Enumerates a set in some order, as iterating a Python set does. */
  method Enumerate(s: set<nat>) returns (xs: seq<nat>)
    ensures Elements(xs) == s
    ensures |xs| == |s|
    ensures forall i, j :: 0 <= i < j < |xs| ==> xs[i] != xs[j]
  {
    xs := [];
    var rest := s;
    while rest != {}
      invariant rest <= s
      invariant Elements(xs) == s - rest
      invariant |xs| + |rest| == |s|
      invariant forall i, j :: 0 <= i < j < |xs| ==> xs[i] != xs[j]
      invariant forall i :: 0 <= i < |xs| ==> xs[i] !in rest
      decreases rest
    {
      var x :| x in rest;
      ElementsConcat(xs, [x]);
      xs, rest := xs + [x], rest - {x};
    }
  }

  ghost function ReachedSet(es: Edges, start: set<nat>): set<nat> {
    set g | g in start + Targets(es) && ReachedFrom(es, start, g)
  }

  lemma ReachedStep(es: Edges, start: set<nat>, a: nat, b: nat)
    requires a in ReachedSet(es, start) && (a, b) in es
    ensures b in ReachedSet(es, start)
  {
    var x :| x in start && Reaches(es, x, a);
    EdgeReaches(es, a, b);
    Transitive(es, x, a, b);
    assert (a, b).1 == b;
  }

  /** A set between the start and what it reaches, closed under the edges, is everything it reaches. */
  lemma ClosedIsReached(es: Edges, start: set<nat>, s: set<nat>)
    requires start <= s <= ReachedSet(es, start) && Closed(es, s)
    ensures forall g :: g in s <==> ReachedFrom(es, start, g)
  {
    forall g | ReachedFrom(es, start, g) ensures g in s {
      var a :| a in start && Reaches(es, a, g);
      ClosedReaches(es, s, a, g);
    }
  }

  /** What the worklist keeps: nothing unreached is listed, and nothing reached is forgotten. */
  ghost predicate Covers(es: Edges, start: set<nat>, seen: set<nat>, pending: set<nat>) {
    && start <= seen + pending <= ReachedSet(es, start)
    && forall e :: e in es && e.0 in seen ==> e.1 in seen + pending
  }

  lemma VisitKeepsCover(es: Edges, start: set<nat>, seen: set<nat>, pending: set<nat>, gid: nat, next: set<nat>)
    requires Covers(es, start, seen, pending + {gid})
    requires forall g :: (gid, g) in es <==> g in next
    ensures Covers(es, start, seen + {gid}, pending + (next - (seen + {gid})))
  {
    forall g | g in next ensures g in ReachedSet(es, start) {
      ReachedStep(es, start, gid, g);
    }
    forall e | e in es && e.0 in seen + {gid} ensures e.1 in seen + {gid} + (pending + (next - (seen + {gid}))) {
      if e.0 == gid { assert e == (gid, e.1); }
    }
  }

  /** The worklist closure; it ends on cyclic graphs too, since only unseen groups push their children. */
  method ReachableGroupIds(rows: Edges, groupIds: seq<nat>) returns (seen: set<nat>)
    ensures forall g :: g in seen <==> ReachedFrom(rows, Elements(groupIds), g)
  {
    var edges := ChildEdges(rows);
    seen := {};
    var stack := groupIds;
    ghost var start := Elements(groupIds);
    forall a | a in start ensures a in ReachedSet(rows, start) { Reflexive(rows, a); }
    while stack != []
      invariant Covers(rows, start, seen, Elements(stack))
      decreases ReachedSet(rows, start) - seen, |stack|
    {
      var gid, rest := stack[|stack| - 1], stack[..|stack| - 1];
      SplitLast(stack);
      stack := rest;
      if gid !in seen {
        var children := if gid in edges then edges[gid] else {};
        assert forall g: nat :: Maps(edges, gid, g) <==> g in children;
        VisitKeepsCover(rows, start, seen, Elements(rest), gid, children);
        seen := seen + {gid};
        var next := Enumerate(children - seen);
        ElementsConcat(rest, next);
        stack := rest + next;
      }
    }
    ClosedIsReached(rows, start, seen);
  }

  lemma SplitLast(xs: seq<nat>)
    requires xs != []
    ensures Elements(xs) == Elements(xs[..|xs| - 1]) + {xs[|xs| - 1]}
  {
    assert xs == xs[..|xs| - 1] + [xs[|xs| - 1]];
  }

  lemma ElementsConcat(xs: seq<nat>, ys: seq<nat>)
    ensures Elements(xs + ys) == Elements(xs) + Elements(ys)
  {
  }

  method DescendantGroupIds(rows: Edges, groupId: nat) returns (ids: set<nat>)
    ensures forall g :: g in ids <==> g != groupId && Above(rows, groupId, g)
  {
    var reached := ReachableGroupIds(rows, [groupId]);
    ids := reached - {groupId};
    forall g ensures g in ids <==> g != groupId && Above(rows, groupId, g) {
      if g in ids { FirstStep(rows, groupId, g); }
      if Above(rows, groupId, g) {
        AboveReaches(rows, groupId, g);
        assert groupId in [groupId];
      }
    }
  }

  method AncestorGroupIds(rows: Edges, groupId: nat) returns (seen: set<nat>)
    ensures seen == Ancestors(rows, groupId)
  {
    var edges := ChildEdges(rows);
    var parents: map<nat, set<nat>> := map[];
    var todo := edges.Keys;
    while todo != {}
      invariant todo <= edges.Keys
      invariant forall p: nat, c: nat :: (p, c) in rows && p !in todo <==> Maps(parents, c, p)
      decreases todo
    {
      var parent :| parent in todo;
      parents := AddParent(parents, parent, edges[parent]);
      todo := todo - {parent};
      assert forall c: nat :: (parent, c) in rows <==> Maps(edges, parent, c);
    }
    seen := WalkUp(rows, parents, groupId);
  }

  ghost predicate ParentsIn(es: Edges, g: nat, s: set<nat>) {
    forall p: nat :: (p, g) in es ==> p in s
  }

  ghost predicate CoversUp(es: Edges, groupId: nat, seen: set<nat>, pending: set<nat>) {
    && seen <= Ancestors(es, groupId)
    && pending <= seen + {groupId}
    && forall g :: g in seen + {groupId} ==> g in pending || ParentsIn(es, g, seen)
  }

  method WalkUp(ghost rows: Edges, parents: map<nat, set<nat>>, groupId: nat) returns (seen: set<nat>)
    requires forall p: nat, c: nat :: (p, c) in rows <==> Maps(parents, c, p)
    ensures seen == Ancestors(rows, groupId)
  {
    seen := {};
    var stack := [groupId];
    while stack != []
      invariant CoversUp(rows, groupId, seen, Elements(stack))
      decreases Ancestors(rows, groupId) - seen, |stack|
    {
      var gid, rest := stack[|stack| - 1], stack[..|stack| - 1];
      SplitLast(stack);
      var ps := if gid in parents then parents[gid] else {};
      assert forall p: nat :: Maps(parents, gid, p) <==> p in ps;
      ClimbKeepsCover(rows, groupId, seen, Elements(rest), gid, ps);
      var next := Enumerate(ps - seen);
      ElementsConcat(rest, next);
      stack := rest + next;
      seen := seen + ps;
    }
    CoveredIsAncestors(rows, groupId, seen);
  }

  lemma CoveredIsAncestors(es: Edges, groupId: nat, seen: set<nat>)
    requires CoversUp(es, groupId, seen, {})
    ensures seen == Ancestors(es, groupId)
  {
    forall a | a in Ancestors(es, groupId) ensures a in seen {
      var c :| (a, c) in es && Reaches(es, c, groupId);
      UpwardClosed(es, seen, groupId, c);
      assert ParentsIn(es, c, seen);
    }
  }

  lemma ClimbKeepsCover(es: Edges, groupId: nat, seen: set<nat>, pending: set<nat>, gid: nat, ps: set<nat>)
    requires CoversUp(es, groupId, seen, pending + {gid})
    requires forall p: nat :: (p, gid) in es <==> p in ps
    ensures CoversUp(es, groupId, seen + ps, pending + (ps - seen))
    ensures if ps - seen == {} then seen + ps == seen
            else Ancestors(es, groupId) - (seen + ps) < Ancestors(es, groupId) - seen
  {
    forall p | p in ps ensures p in Ancestors(es, groupId) {
      Reflexive(es, gid);
      if gid != groupId { AboveReaches(es, gid, groupId); }
      assert (p, gid).0 == p && Above(es, p, groupId);
    }
    if p :| p in ps - seen { assert p in Ancestors(es, groupId) - seen; }
    forall g | g in seen + ps + {groupId} ensures g in pending + (ps - seen) || ParentsIn(es, g, seen + ps) {
      if g in seen + {groupId} && g !in pending && g != gid {
        assert ParentsIn(es, g, seen);
      }
    }
  }

  /** `parents.setdefault(child, set()).add(parent)` for every child. */
  method AddParent(m: map<nat, set<nat>>, parent: nat, children: set<nat>) returns (r: map<nat, set<nat>>)
    ensures forall p: nat, c: nat :: Maps(r, c, p) <==> Maps(m, c, p) || (p == parent && c in children)
  {
    r := m;
    var rest := children;
    while rest != {}
      invariant rest <= children
      invariant forall p: nat, c: nat :: Maps(r, c, p) <==> Maps(m, c, p) || (p == parent && c in children && c !in rest)
      decreases rest
    {
      var child :| child in rest;
      r := AddTo(r, child, parent);
      rest := rest - {child};
    }
  }

  method WouldCreateCycle(rows: Edges, parentId: nat, childId: nat) returns (b: bool)
    ensures b <==> Reaches(rows, childId, parentId)
  {
    if childId == parentId {
      Reflexive(rows, childId);
      return true;
    }
    var reached := ReachableGroupIds(rows, [childId]);
    b := parentId in reached;
    assert childId in [childId];
  }

  method ExpandGroupHosts(rows: Edges, members: set<(nat, nat)>, groupIds: seq<nat>) returns (hosts: set<nat>)
    ensures hosts == GroupHosts(rows, members, Elements(groupIds))
  {
    if groupIds == [] { return {}; }
    var allGroups := ReachableGroupIds(rows, groupIds);
    if allGroups == {} { return {}; }
    hosts := set m | m in members && m.0 in allGroups :: m.1;
  }

  /** `sorted(..., key=lambda g: (len(ancestor_group_ids(g)), g))`. */
  ghost predicate OverlaysBefore(es: Edges, a: nat, b: nat) {
    |Ancestors(es, a)| < |Ancestors(es, b)| || (|Ancestors(es, a)| == |Ancestors(es, b)| && a < b)
  }

  ghost predicate OverlayOrder(es: Edges, order: seq<nat>) {
    forall i, j :: 0 <= i < j < |order| ==> OverlaysBefore(es, order[i], order[j])
  }

  method EffectiveGroupIdsForHost(rows: Edges, members: set<(nat, nat)>, server: nat) returns (order: seq<nat>)
    ensures Elements(order) == EffectiveGroups(rows, members, server)
    ensures OverlayOrder(rows, order)
  {
    var direct := set m | m in members && m.1 == server :: m.0;
    var effective := direct;
    var todo := direct;
    while todo != {}
      invariant todo <= direct
      invariant effective == direct + set g | g in Sources(rows) && exists d :: d in direct - todo && Above(rows, g, d)
      decreases todo
    {
      var gid :| gid in todo;
      var above := AncestorGroupIds(rows, gid);
      effective, todo := effective + above, todo - {gid};
    }
    assert effective == EffectiveGroups(rows, members, server) by {
      forall g ensures g in effective <==> g in EffectiveGroups(rows, members, server) {
        if g in direct { assert (g, server) in members; Reflexive(rows, g); }
        if d :| d in direct && Above(rows, g, d) { AboveReaches(rows, g, d); }
        if g in EffectiveGroups(rows, members, server) {
          var d :| (d, server) in members && Reaches(rows, g, d);
          assert d in direct;
          FirstStep(rows, g, d);
        }
      }
    }
    order := [];
    var rest := effective;
    while rest != {}
      invariant rest <= effective
      invariant Elements(order) == effective - rest
      invariant OverlayOrder(rows, order)
      decreases rest
    {
      var g :| g in rest;
      order := InsertByDepth(rows, order, g);
      rest := rest - {g};
    }
  }

  method InsertByDepth(rows: Edges, order: seq<nat>, g: nat) returns (r: seq<nat>)
    requires OverlayOrder(rows, order) && g !in order
    ensures OverlayOrder(rows, r)
    ensures Elements(r) == Elements(order) + {g}
  {
    var depth := AncestorGroupIds(rows, g);
    var i := 0;
    while i < |order|
      invariant 0 <= i <= |order|
      invariant forall k :: 0 <= k < i ==> OverlaysBefore(rows, order[k], g)
    {
      var other := AncestorGroupIds(rows, order[i]);
      if |other| > |depth| || (|other| == |depth| && order[i] > g) { break; }
      i := i + 1;
    }
    assert i < |order| ==> OverlaysBefore(rows, g, order[i]);
    r := order[..i] + [g] + order[i..];
    forall k, l | 0 <= k < l < |r| ensures OverlaysBefore(rows, r[k], r[l]) {
      var k' := if k > i then k - 1 else k;
      var l' := if l > i then l - 1 else l;
      assert k != i ==> r[k] == order[k'];
      assert l != i ==> r[l] == order[l'];
    }
    assert order == order[..i] + order[i..];
  }

  // ---------------------------------------------------------------- what it is for

  lemma UpwardClosed(es: Edges, s: set<nat>, g: nat, c: nat)
    requires forall p :: (p, g) in es ==> p in s
    requires forall x, p :: x in s && (p, x) in es ==> p in s
    requires Reaches(es, c, g)
    ensures c == g || c in s
  {
    var p :| IsPathFromTo(es, p, c, g);
    var i := |p| - 1;
    while i > 0
      invariant 0 <= i < |p|
      invariant p[i] == g || p[i] in s
    {
      i := i - 1;
      assert (p[i], p[i + 1]) in es;
    }
  }

  /** The test behind the edit form is exact: an edge closes a cycle just when the child already reaches the parent. */
  lemma CycleCheckIsExact(es: Edges, parent: nat, child: nat)
    requires Acyclic(es)
    ensures Acyclic(es + {(parent, child)}) <==> !Reaches(es, child, parent)
  {
    var fs := es + {(parent, child)};
    if Reaches(es, child, parent) {
      Monotone(es, fs, child, parent);
      assert (parent, child) in fs;
      assert Above(fs, parent, parent);
    } else {
      NewExitsKeepAcyclic(es, fs, parent);
    }
  }

  lemma NoWayBack(es: Edges, a: nat, b: nat)
    requires Acyclic(es) && (a, b) in es
    ensures !Reaches(es, b, a)
  {
    assert Reaches(es, b, a) ==> Above(es, a, a);
  }

  /** Adding edges that leave `v` keeps the graph acyclic when none of their ends reaches `v`. */
  lemma NewExitsKeepAcyclic(es: Edges, fs: Edges, v: nat)
    requires Acyclic(es) && es <= fs && NotLeaving(fs, v) <= es
    requires forall c: nat :: (v, c) in fs ==> !Reaches(es, c, v) || (v, c) in es
    ensures Acyclic(fs)
  {
    forall a: nat | Above(fs, a, a) ensures false {
      CycleAvoidsOrPasses(fs, v, a);
      if Above(NotLeaving(fs, v), a, a) {
        AcyclicSubset(NotLeaving(fs, v), es);
      } else {
        var c :| (v, c) in fs && Reaches(fs, c, v);
        if (v, c) in es { NoWayBack(es, v, c); }
        ReachesIgnoresExits(fs, v, c);
        Monotone(NotLeaving(fs, v), es, c, v);
      }
    }
  }

  /** Ancestors and descendants are each other's converse, self included, exactly on acyclic graphs. */
  lemma AncestorsMirrorDescendants(es: Edges)
    ensures (forall a: nat, b: nat :: a in Ancestors(es, b) <==> a != b && Reaches(es, a, b)) <==> Acyclic(es)
  {
    forall a, b | a != b ensures a in Ancestors(es, b) <==> Reaches(es, a, b) {
      if Reaches(es, a, b) {
        FirstStep(es, a, b);
        assert a in Sources(es) by { var c :| (a, c) in es && Reaches(es, c, b); }
      }
      if a in Ancestors(es, b) { AboveReaches(es, a, b); }
    }
    forall a ensures a in Ancestors(es, a) <==> Above(es, a, a) {
      if Above(es, a, a) { var c :| (a, c) in es && Reaches(es, c, a); }
    }
  }

  /** Going down an edge of an acyclic graph strictly adds ancestors, so their number is a depth. */
  lemma AncestorsGrow(es: Edges, a: nat, b: nat)
    requires Acyclic(es) && Above(es, a, b)
    ensures Ancestors(es, a) < Ancestors(es, b)
    ensures |Ancestors(es, a)| < |Ancestors(es, b)|
  {
    assert a in Ancestors(es, b) && a !in Ancestors(es, a);
    forall x | x in Ancestors(es, a) ensures x in Ancestors(es, b) {
      AboveReaches(es, a, b);
      AboveThenReaches(es, x, a, b);
    }
    SmallerSubset(Ancestors(es, a), Ancestors(es, b));
  }

  lemma SmallerSubset(s: set<nat>, t: set<nat>)
    requires s < t
    ensures |s| < |t|
  {
    assert t == s + (t - s);
  }

  /** The overlay order is a topological order: no group comes after one of its descendants. */
  lemma OverlayOrderIsTopological(es: Edges, order: seq<nat>, i: nat, j: nat)
    requires Acyclic(es) && OverlayOrder(es, order)
    requires i < |order| && j < |order| && Above(es, order[i], order[j])
    ensures i < j
  {
    AncestorsGrow(es, order[i], order[j]);
    assert !OverlaysBefore(es, order[j], order[i]);
  }

  /** Expanding a selection is expanding its parts. */
  lemma ExpansionDistributes(es: Edges, members: set<(nat, nat)>, s: set<nat>, t: set<nat>)
    ensures GroupHosts(es, members, s + t) == GroupHosts(es, members, s) + GroupHosts(es, members, t)
  {
    forall g ensures ReachedFrom(es, s + t, g) <==> ReachedFrom(es, s, g) || ReachedFrom(es, t, g) {
    }
  }

  /** Selecting a group already selects its descendants, and nothing above it. */
  lemma ExpansionAbsorbsDescendants(es: Edges, members: set<(nat, nat)>, s: set<nat>, g: nat)
    requires ReachedFrom(es, s, g)
    ensures GroupHosts(es, members, s + {g}) == GroupHosts(es, members, s)
  {
    var a :| a in s && Reaches(es, a, g);
    forall h | ReachedFrom(es, s + {g}, h) ensures ReachedFrom(es, s, h) {
      var x :| x in s + {g} && Reaches(es, x, h);
      if x == g { Transitive(es, a, g, h); }
    }
  }

  /** A host belongs to a group's overlay exactly when the group's expansion targets it. */
  lemma EffectiveMeansTargeted(es: Edges, members: set<(nat, nat)>, g: nat, server: nat)
    ensures g in EffectiveGroups(es, members, server) <==> server in GroupHosts(es, members, {g})
  {
    if server in GroupHosts(es, members, {g}) {
      var d :| (d, server) in members && ReachedFrom(es, {g}, d);
      FirstStep(es, g, d);
      if g != d { var c :| (g, c) in es && Reaches(es, c, d); }
      assert (d, server).0 == d;
      assert g in Sources(es) + (set m | m in members :: m.0);
    }
    if d :| (d, server) in members && Reaches(es, g, d) {
      assert ReachedFrom(es, {g}, d);
      assert (d, server).1 == server;
    }
  }
}
