/** What the Hosts forest promises: nothing is lost or shown twice in the physical part, every child hangs where it
    says it hangs, and the group overlay shows the hosts that targeting a group would reach. */
module ForestFacts {
  import opened Options
  import opened Graph
  import opened Lists
  import opened Forest
  import Groups

  /** How often a host or container is shown in a subtree. */
  function Count(n: Node, w: Subject): nat
    decreases n, 1
  {
    (if n.what == w then 1 else 0) + CountAll(n.children, w)
  }

  function CountAll(ns: seq<Node>, w: Subject): nat
    decreases ns, 0
  {
    if ns == [] then 0 else CountAll(ns[..|ns| - 1], w) + Count(ns[|ns| - 1], w)
  }

  lemma {:induction false} CountConcat(a: seq<Node>, b: seq<Node>, w: Subject)
    ensures CountAll(a + b, w) == CountAll(a, w) + CountAll(b, w)
  {
    if b == [] {
      assert a + b == a;
    } else {
      CountConcat(a, b[..|b| - 1], w);
      assert (a + b)[..|a + b| - 1] == a + b[..|b| - 1];
    }
  }

  lemma {:induction false} CountIsSum<T>(ns: seq<Node>, xs: seq<T>, f: T -> nat, w: Subject)
    requires |ns| == |xs| && forall i :: 0 <= i < |ns| ==> Count(ns[i], w) == f(xs[i])
    ensures CountAll(ns, w) == Sum(f, xs)
  {
    if ns != [] { CountIsSum(ns[..|ns| - 1], xs[..|xs| - 1], f, w); }
  }

  // ---------------------------------------------------------------- parent links

  /** Of two hosts above a third, one is above the other: every host has one parent. */
  lemma {:induction false} Linear(f: Fleet, p: seq<nat>, a: nat, b: nat, x: nat)
    requires Keyed(f) && IsPathFromTo(Links(f), p, a, x) && Reaches(Links(f), b, x)
    ensures Reaches(Links(f), a, b) || Reaches(Links(f), b, a)
    decreases |p|
  {
    var es := Links(f);
    if |p| > 1 {
      FirstStep(es, b, x);
      if b == x {
        assert Reaches(es, a, x);
      } else {
        var c := LastStep(es, b, x);
        var d := p[|p| - 2];
        assert (p[|p| - 2], p[|p| - 2 + 1]) in es;
        ParentUnique(f, c, d, x);
        assert IsPathFromTo(es, p[..|p| - 1], a, d);
        Linear(f, p[..|p| - 1], a, b, d);
      }
    }
  }

  /** Whoever is above a host on the path is on the path. */
  lemma AboveIsOnPath(f: Fleet, s: Server, path: set<nat>, y: nat)
    requires OnPath(f, s, path) && Reaches(Links(f), y, s.id)
    ensures y in path + {s.id}
  {
    var es := Links(f);
    forall x | x in path + {s.id} ensures Groups.ParentsIn(es, x, path) {
      forall p: nat | (p, x) in es ensures p in path { }
    }
    Groups.UpwardClosed(es, path, s.id, y);
  }

  /** Among the guests of a host exactly one has a given lower host below it. */
  lemma OneGuestAbove(f: Fleet, s: Server, path: set<nat>, x: nat)
    requires Keyed(f) && OnPath(f, s, path)
    ensures Sum(Weight(f, x), Guests(f, s.id)) == if x != s.id && Reaches(Links(f), s.id, x) then 1 else 0
  {
    var es := Links(f);
    SortSum(ServerKey, Filter(ChildOf(s.id), f.servers), Weight(f, x));
    if x != s.id && Reaches(es, s.id, x) {
      FirstStep(es, s.id, x);
      var c :| (s.id, c) in es && Reaches(es, c, x);
      var g :| g in f.servers && g.parent == Some(s.id) && g.id == c;
      forall h | h in f.servers && ChildOf(s.id)(h) && ServerId(h) != ServerId(g) ensures Weight(f, x)(h) == 0 {
        SiblingsApart(f, s, path, g, h, x);
      }
      SumUnique(Weight(f, x), ChildOf(s.id), ServerId, f.servers, g);
    } else {
      forall h | h in f.servers && ChildOf(s.id)(h) ensures Weight(f, x)(h) == 0 {
        NotBelowItself(f, s, path, h);
        assert (s.id, h.id) in es;
        EdgeReaches(es, s.id, h.id);
        if Reaches(es, h.id, x) { Transitive(es, s.id, h.id, x); }
      }
      SumNone(Weight(f, x), ChildOf(s.id), f.servers);
    }
  }

  /** 1 for a host that has `x` at or below it. */
  ghost function Weight(f: Fleet, x: nat): Server -> nat {
    (g: Server) => if Reaches(Links(f), g.id, x) then 1 else 0
  }

  lemma NotBelowItself(f: Fleet, s: Server, path: set<nat>, g: Server)
    requires Keyed(f) && OnPath(f, s, path) && g in f.servers && g.parent == Some(s.id)
    ensures !Reaches(Links(f), g.id, s.id)
  {
    assert (s.id, g.id) in Links(f);
    if Reaches(Links(f), g.id, s.id) { AboveIsOnPath(f, s, path, g.id); }
  }

  lemma SiblingsApart(f: Fleet, s: Server, path: set<nat>, g: Server, h: Server, x: nat)
    requires Keyed(f) && OnPath(f, s, path)
    requires g in f.servers && h in f.servers && g.parent == Some(s.id) && h.parent == Some(s.id) && g.id != h.id
    requires Reaches(Links(f), g.id, x)
    ensures !Reaches(Links(f), h.id, x)
  {
    if Reaches(Links(f), h.id, x) {
      var p :| IsPathFromTo(Links(f), p, g.id, x);
      Linear(f, p, g.id, h.id, x);
      if Reaches(Links(f), g.id, h.id) {
        BelowSibling(f, s, path, g, h);
      } else {
        BelowSibling(f, s, path, h, g);
      }
    }
  }

  lemma BelowSibling(f: Fleet, s: Server, path: set<nat>, g: Server, h: Server)
    requires Keyed(f) && OnPath(f, s, path)
    requires g in f.servers && h in f.servers && g.parent == Some(s.id) && h.parent == Some(s.id) && g.id != h.id
    ensures !Reaches(Links(f), g.id, h.id)
  {
    var es := Links(f);
    NotBelowItself(f, s, path, g);
    if Reaches(es, g.id, h.id) {
      FirstStep(es, g.id, h.id);
      var c := LastStep(es, g.id, h.id);
      assert (s.id, h.id) in es;
      ParentUnique(f, c, s.id, h.id);
    }
  }

  // ---------------------------------------------------------------- containers

  ghost predicate IsContainer(f: Fleet, cid: nat, host: nat) {
    exists c :: c in f.containers && c.id == cid && c.host == host
  }

  ghost function IdIs(cid: nat): Container -> nat { (c: Container) => if c.id == cid then 1 else 0 }

  lemma CountLeaves(cs: seq<Container>, depth: nat, parentId: NodeId, w: Subject)
    requires w.HostOf? || w.ContainerOf?
    ensures CountAll(Leaves(cs, depth, parentId), w) == if w.ContainerOf? then Sum(IdIs(w.container), cs) else 0
  {
    var ns := Leaves(cs, depth, parentId);
    var f := (c: Container) => if ContainerOf(c.id) == w then 1 else 0;
    forall i | 0 <= i < |ns| ensures Count(ns[i], w) == f(cs[i]) {
      assert ns[i].children == [];
    }
    CountIsSum(ns, cs, f, w);
    if w.ContainerOf? { SumSame(f, IdIs(w.container), cs); } else { SumZero(f, cs); }
  }

  ghost function Ones(w: Subject): Container -> nat { if w.ContainerOf? then IdIs(w.container) else (c: Container) => 0 }

  lemma CountBucket(project: string, cs: seq<Container>, depth: nat, parentId: NodeId, w: Subject)
    requires w.HostOf? || w.ContainerOf?
    ensures Count(StackNode(project, cs, depth, parentId), w) == Sum(Ones(w), cs)
  {
    var n := StackNode(project, cs, depth, parentId);
    CountLeaves(SortBy(ContainerKey, cs), depth + 1, n.nodeId, w);
    SortSum(ContainerKey, cs, Ones(w));
    if w.HostOf? { SumZero(Ones(w), cs); }
  }

  lemma CountStacks(projects: seq<string>, cs: seq<Container>, depth: nat, parentId: NodeId, w: Subject)
    requires w.HostOf? || w.ContainerOf?
    ensures CountAll(StackNodes(projects, cs, depth, parentId), w) == Sum(BucketSum(Ones(w), Project, cs), projects)
  {
    var ns := StackNodes(projects, cs, depth, parentId);
    forall i | 0 <= i < |ns| ensures Count(ns[i], w) == BucketSum(Ones(w), Project, cs)(projects[i]) {
      CountBucket(projects[i], Filter(KeyIs(Project, projects[i]), cs), depth, parentId, w);
    }
    CountIsSum(ns, projects, BucketSum(Ones(w), Project, cs), w);
  }

  /** A host's container nodes show each of its containers once and nobody else's. */
  lemma CountDocker(f: Fleet, host: nat, depth: nat, parentId: NodeId, w: Subject)
    requires Keyed(f) && (w.HostOf? || w.ContainerOf?)
    ensures CountAll(DockerNodes(f, host, depth, parentId), w) ==
            if w.ContainerOf? && IsContainer(f, w.container, host) then 1 else 0
  {
    var cs := ContainersOn(f, host);
    var projects := SortBy(Lower, Keys(Project, cs));
    var alone := Filter(KeyIs(Project, ""), cs);
    CountConcat(StackNodes(projects, cs, depth, parentId), Leaves(SortBy(ContainerKey, alone), depth, parentId), w);
    CountStacks(projects, cs, depth, parentId, w);
    CountLeaves(SortBy(ContainerKey, alone), depth, parentId, w);
    SortSum(ContainerKey, alone, Ones(w));
    GroupedSum(Ones(w), Project, Lower, cs);
    if w.ContainerOf? {
      ContainerOnce(f, w.container, host);
    } else {
      SumZero(Ones(w), alone);
      SumZero(Ones(w), cs);
    }
  }

  lemma ContainerOnce(f: Fleet, cid: nat, host: nat)
    requires Keyed(f)
    ensures Sum(IdIs(cid), ContainersOn(f, host)) == if IsContainer(f, cid, host) then 1 else 0
  {
    if c :| c in f.containers && c.id == cid && c.host == host {
      SumUnique(IdIs(cid), RunsOn(host), ContainerId, f.containers, c);
    } else {
      SumNone(IdIs(cid), RunsOn(host), f.containers);
    }
  }

  ghost function One(): Container -> nat { (c: Container) => 1 }

  lemma TotalOfStacks(projects: seq<string>, cs: seq<Container>, depth: nat, parentId: NodeId)
    ensures Sum(Total, StackNodes(projects, cs, depth, parentId)) == Sum(BucketSum(One(), Project, cs), projects)
  {
    var ns := StackNodes(projects, cs, depth, parentId);
    forall i | 0 <= i < |ns| ensures Total(ns[i]) == BucketSum(One(), Project, cs)(projects[i]) {
      SumOnes(Filter(KeyIs(Project, projects[i]), cs));
    }
    SumAlong(Total, ns, BucketSum(One(), Project, cs), projects);
  }

  /** The totals on the stack nodes and the leaves beside them add up to the host's containers. */
  lemma StackTotals(f: Fleet, host: nat, depth: nat, parentId: NodeId)
    ensures Sum(Total, DockerNodes(f, host, depth, parentId)) == |ContainersOn(f, host)|
  {
    var cs := ContainersOn(f, host);
    var projects := SortBy(Lower, Keys(Project, cs));
    var alone := Filter(KeyIs(Project, ""), cs);
    var sorted := SortBy(ContainerKey, alone);
    SumConcat(Total, StackNodes(projects, cs, depth, parentId), Leaves(sorted, depth, parentId));
    TotalOfStacks(projects, cs, depth, parentId);
    SumAlong(Total, Leaves(sorted, depth, parentId), One(), sorted);
    SortSum(ContainerKey, alone, One());
    GroupedSum(One(), Project, Lower, cs);
    SumOnes(cs);
  }

  /** The containers a node under a host stands for. */
  function Total(n: Node): nat {
    match n.what
    case StackOf(_, total, _) => total
    case ContainerOf(_) => 1
    case _ => 0
  }

  lemma {:induction false} SumOnes(cs: seq<Container>)
    ensures Sum(One(), cs) == |cs|
  {
    if cs != [] { SumOnes(cs[..|cs| - 1]); }
  }

  lemma {:induction false} SumAlong<S, T>(f: S -> nat, xs: seq<S>, g: T -> nat, ys: seq<T>)
    requires |xs| == |ys| && forall i :: 0 <= i < |xs| ==> f(xs[i]) == g(ys[i])
    ensures Sum(f, xs) == Sum(g, ys)
  {
    if xs != [] { SumAlong(f, xs[..|xs| - 1], g, ys[..|ys| - 1]); }
  }

  // ---------------------------------------------------------------- each host and container once

  /** The host a thing is shown under: a host under itself, a container under the host that runs it. */
  ghost predicate Home(f: Fleet, w: Subject, host: nat) {
    match w
    case HostOf(s) => s == host
    case ContainerOf(c) => IsContainer(f, c, host)
    case _ => false
  }

  /** A host's subtree shows a thing once if the thing's home is that host or below it, and not at all otherwise. */
  lemma {:induction false} CountServerNode(f: Fleet, s: Server, depth: nat, parentId: NodeId, kind: Kind, path: set<nat>, w: Subject, home: nat)
    requires Keyed(f) && OnPath(f, s, path) && Home(f, w, home)
    ensures Count(ServerNode(f, s, depth, parentId, kind, true, path), w) == Weight(f, home)(s)
    decreases Ids(f) - path
  {
    var nodeId := parentId + [H(s.id)];
    var gs := Guests(f, s.id);
    var guestNodes := seq(|gs|, i requires 0 <= i < |gs| =>
      (GuestOnPath(f, s, path, i); ServerNode(f, gs[i], depth + 1, nodeId, KGuest, true, path + {s.id})));
    var docker := DockerNodes(f, s.id, depth + 1, nodeId);
    var n := ServerNode(f, s, depth, parentId, kind, true, path);
    assert n.children == guestNodes + docker;
    CountConcat(guestNodes, docker, w);
    CountDocker(f, s.id, depth + 1, nodeId, w);
    forall i | 0 <= i < |gs| ensures Count(guestNodes[i], w) == Weight(f, home)(gs[i]) {
      GuestOnPath(f, s, path, i);
      CountServerNode(f, gs[i], depth + 1, nodeId, KGuest, path + {s.id}, w, home);
    }
    CountIsSum(guestNodes, gs, Weight(f, home), w);
    OneGuestAbove(f, s, path, home);
    Reflexive(Links(f), s.id);
    HomeUnique(f, w, home, s.id);
  }

  lemma HomeUnique(f: Fleet, w: Subject, home: nat, host: nat)
    requires Keyed(f) && Home(f, w, home)
    ensures (w.HostOf? || w.ContainerOf?) && (Home(f, w, host) <==> host == home)
  {
    if w.ContainerOf? && Home(f, w, host) {
      var c :| c in f.containers && c.id == w.container && c.host == home;
      var d :| d in f.containers && d.id == w.container && d.host == host;
      DistinctSame(ContainerId, f.containers, c, d);
    }
  }

  /** The host's chain of parents ends at a host without a parent. */
  ghost predicate Rooted(f: Fleet, x: nat) {
    exists r :: r in Roots(f) && Reaches(Links(f), r.id, x)
  }

  /** The physical section shows a thing exactly once when its home's chain of parents ends at a root, and never
      otherwise, whatever the parent links look like. */
  lemma ShownOnceIffRooted(f: Fleet, w: Subject, home: nat)
    requires Keyed(f) && Home(f, w, home)
    ensures CountAll(Physical(f), w) == if Rooted(f, home) then 1 else 0
  {
    var wt := Weight(f, home);
    CountConcat(RootNodes(f), BandNodes(f), w);
    CountRoots(f, w, home);
    forall i | 0 <= i < |Bands(f)| ensures Count(BandNodes(f)[i], w) == BucketSum(wt, BandName, Roots(f))(Bands(f)[i]) {
      CountBand(f, Bands(f)[i], w, home);
    }
    CountIsSum(BandNodes(f), Bands(f), BucketSum(wt, BandName, Roots(f)), w);
    GroupedSum(wt, BandName, Unsorted, Roots(f));
    OneRootAbove(f, home);
  }

  lemma CountRoots(f: Fleet, w: Subject, home: nat)
    requires Keyed(f) && Home(f, w, home)
    ensures CountAll(RootNodes(f), w) == Sum(Weight(f, home), Filter(KeyIs(BandName, ""), Roots(f)))
  {
    var plain := PlainRoots(f);
    forall i | 0 <= i < |plain| ensures Count(RootNodes(f)[i], w) == Weight(f, home)(plain[i]) {
      BandMembers(f, "", plain[i]);
      RootOnPath(f, plain[i]);
      CountServerNode(f, plain[i], 0, [], RootNodes(f)[i].kind, {}, w, home);
    }
    CountIsSum(RootNodes(f), plain, Weight(f, home), w);
    SortSum(ServerKey, Filter(KeyIs(BandName, ""), Roots(f)), Weight(f, home));
  }

  lemma CountBandGuest(f: Fleet, band: string, w: Subject, home: nat, i: nat)
    requires Keyed(f) && Home(f, w, home) && i < |Orphans(f, band)|
    ensures Count(BandNode(f, band).children[i], w) == Weight(f, home)(Orphans(f, band)[i])
  {
    var g := Orphans(f, band)[i];
    BandMembers(f, band, g);
    RootOnPath(f, g);
    hide Orphans, Roots, Weight, Filter, SortBy;
    CountServerNode(f, g, 1, [Band(band)], KGuest, {}, w, home);
    hide Count;
  }

  lemma CountBand(f: Fleet, band: string, w: Subject, home: nat)
    requires Keyed(f) && Home(f, w, home)
    ensures Count(BandNode(f, band), w) == BucketSum(Weight(f, home), BandName, Roots(f))(band)
  {
    hide ServerNode, Weight, Home, Roots, Filter, SortBy;
    var (gs, n) := (Orphans(f, band), BandNode(f, band));
    HomeUnique(f, w, home, home);
    forall i | 0 <= i < |gs| ensures Count(n.children[i], w) == Weight(f, home)(gs[i]) { CountBandGuest(f, band, w, home, i); }
    SortSum(ServerKey, Filter(KeyIs(BandName, band), Roots(f)), Weight(f, home));
    CountIsSum(n.children, gs, Weight(f, home), w);
  }

  lemma OneRootAbove(f: Fleet, x: nat)
    requires Keyed(f)
    ensures Sum(Weight(f, x), Roots(f)) == if Rooted(f, x) then 1 else 0
  {
    var wt := Weight(f, x);
    if Rooted(f, x) {
      var r :| r in Roots(f) && Reaches(Links(f), r.id, x);
      FilterMember(IsRoot, f.servers, r);
      forall h | h in f.servers && IsRoot(h) && ServerId(h) != ServerId(r) ensures wt(h) == 0 {
        RootsApart(f, r, h, x);
      }
      SumUnique(wt, IsRoot, ServerId, f.servers, r);
    } else {
      forall h | h in f.servers && IsRoot(h) ensures wt(h) == 0 { FilterMember(IsRoot, f.servers, h); }
      SumNone(wt, IsRoot, f.servers);
    }
  }

  lemma RootsApart(f: Fleet, r: Server, h: Server, x: nat)
    requires Keyed(f) && r in f.servers && h in f.servers && IsRoot(r) && IsRoot(h) && Reaches(Links(f), r.id, x)
    ensures r.id == h.id || !Reaches(Links(f), h.id, x)
  {
    var es := Links(f);
    if r.id != h.id && Reaches(es, h.id, x) {
      var p :| IsPathFromTo(es, p, r.id, x);
      Linear(f, p, r.id, h.id, x);
      NothingAboveRoot(f, r, h.id);
      NothingAboveRoot(f, h, r.id);
    }
  }

  lemma NothingAboveRoot(f: Fleet, r: Server, y: nat)
    requires Keyed(f) && r in f.servers && IsRoot(r)
    ensures Reaches(Links(f), y, r.id) ==> y == r.id
  {
    FilterMember(IsRoot, f.servers, r);
    RootOnPath(f, r);
    if Reaches(Links(f), y, r.id) { AboveIsOnPath(f, r, {}, y); }
  }

  // ---------------------------------------------------------------- parent links over time

  /** Every parent link points at an existing host, and following them upwards never goes round; containers and group
      memberships are those of existing hosts. */
  ghost predicate SoundFleet(f: Fleet) {
    && Keyed(f) && Acyclic(Links(f)) && Referential(f)
    && (forall p, c :: (p, c) in Links(f) ==> p in Ids(f))
    && forall c :: c in f.containers ==> c.host in Ids(f)
  }

  datatype HostOp = AddHost(s: Server) | DeleteHost(id: nat)

  /** A new host has a fresh id and, if any, an existing parent; deleting a host detaches its guests first and takes its
      containers and memberships with it. */
  function ApplyHost(f: Fleet, op: HostOp): Fleet {
    match op
    case AddHost(s) =>
      if (exists t :: t in f.servers && t.id == s.id) || (s.parent.Some? && forall t :: t in f.servers ==> t.id != s.parent.value) then f
      else f.(servers := f.servers + [s])
    case DeleteHost(id) =>
      if exists t :: t in f.servers && t.id == id then Removed(f, id) else f
  }

  function RunsElsewhere(id: nat): Container -> bool { (c: Container) => c.host != id }

  function Removed(f: Fleet, id: nat): Fleet {
    f.(servers := Detached(f.servers, id), containers := Filter(RunsElsewhere(id), f.containers), members := set m | m in f.members && m.1 != id)
  }

  function Detached(servers: seq<Server>, id: nat): seq<Server> {
    if servers == [] then []
    else
      var s := servers[|servers| - 1];
      Detached(servers[..|servers| - 1], id)
      + if s.id == id then [] else [if s.parent == Some(id) then s.(parent := None) else s]
  }

  lemma {:induction false} DetachedExact(servers: seq<Server>, id: nat)
    requires Distinct(ServerId, servers)
    ensures Distinct(ServerId, Detached(servers, id))
    ensures forall t :: t in Detached(servers, id) <==>
      exists s :: s in servers && s.id != id && t == if s.parent == Some(id) then s.(parent := None) else s
  {
    if servers != [] {
      var n := |servers| - 1;
      var s := servers[n];
      var rest := servers[..n];
      DetachedExact(rest, id);
      assert servers == rest + [s];
      var d := Detached(rest, id);
      forall i | 0 <= i < |d| ensures d[i].id != s.id {
        assert d[i] in d;
        var t :| t in rest && t.id != id && d[i] == if t.parent == Some(id) then t.(parent := None) else t;
        var k :| 0 <= k < n && rest[k] == t;
        assert ServerId(servers[k]) != ServerId(servers[n]);
      }
    }
  }

  lemma HostOpKeepsLinks(f: Fleet, op: HostOp)
    requires SoundFleet(f)
    ensures SoundFleet(ApplyHost(f, op))
  {
    match op
    case AddHost(s) => if ApplyHost(f, op) != f { AddKeepsLinks(f, s); }
    case DeleteHost(id) => if ApplyHost(f, op) != f { RemoveKeepsLinks(f, id); }
  }

  lemma AddKeepsLinks(f: Fleet, s: Server)
    requires SoundFleet(f) && (forall t :: t in f.servers ==> t.id != s.id) && (s.parent.Some? ==> s.parent.value in Ids(f))
    ensures SoundFleet(f.(servers := f.servers + [s]))
  {
    var g := f.(servers := f.servers + [s]);
    forall t ensures t in g.servers <==> t in f.servers || t == s { }
    assert Keyed(g) by {
      forall i | 0 <= i < |f.servers| ensures f.servers[i].id != s.id { assert f.servers[i] in f.servers; }
    }
    assert forall e :: e in Links(g) <==> e in Links(f) || (s.parent.Some? && e == (s.parent.value, s.id));
    LeafKeepsAcyclic(Links(f), Links(g), s.id);
    assert forall x :: x in Ids(f) ==> x in Ids(g);
    assert GroupIds(g) == GroupIds(f);
  }

  /** The parent links left after a deletion, and the hosts. */
  lemma RemovedLinks(f: Fleet, id: nat)
    requires Keyed(f) && forall p, c :: (p, c) in Links(f) ==> p in Ids(f)
    ensures Links(Removed(f, id)) <= Links(f) && Distinct(ServerId, Removed(f, id).servers)
    ensures forall p, c :: (p, c) in Links(Removed(f, id)) ==> p in Ids(Removed(f, id))
    ensures Ids(Removed(f, id)) == Ids(f) - {id}
  {
    var g := Removed(f, id);
    DetachedExact(f.servers, id);
    forall x ensures x in Ids(g) <==> x in Ids(f) - {id} {
      if x in Ids(f) - {id} {
        var q :| q in f.servers && q.id == x;
        assert (if q.parent == Some(id) then q.(parent := None) else q) in g.servers;
      }
    }
    forall p, c | (p, c) in Links(g) ensures (p, c) in Links(f) && p != id {
      var t :| t in g.servers && t.parent == Some(p) && t.id == c;
      var s :| s in f.servers && s.id != id && t == if s.parent == Some(id) then s.(parent := None) else s;
      assert (p, c) in Links(f);
    }
  }

  lemma RemovedContainers(f: Fleet, id: nat)
    requires Keyed(f) && forall c :: c in f.containers ==> c.host in Ids(f)
    ensures Distinct(ContainerId, Removed(f, id).containers)
    ensures forall c :: c in Removed(f, id).containers ==> c in f.containers && c.host in Ids(f) - {id}
  {
    FilterDistinct(ContainerId, RunsElsewhere(id), f.containers);
    forall c | c in Removed(f, id).containers ensures c in f.containers && c.host != id { FilterMember(RunsElsewhere(id), f.containers, c); }
  }

  lemma RemoveKeepsLinks(f: Fleet, id: nat)
    requires SoundFleet(f)
    ensures SoundFleet(Removed(f, id))
  {
    var g := Removed(f, id);
    RemovedLinks(f, id);
    RemovedContainers(f, id);
    AcyclicSubset(Links(g), Links(f));
    assert GroupIds(g) == GroupIds(f);
    hide Links, Ids, Removed, Detached, Filter;
  }

  /** Hanging a new node below the graph closes no cycle. */
  lemma LeafKeepsAcyclic(es: Edges, fs: Edges, v: nat)
    requires Acyclic(es) && forall e :: e in fs ==> e in es || e.1 == v
    requires forall e :: e in fs ==> e.0 != v
    ensures Acyclic(fs)
  {
    forall a: nat | Above(fs, a, a) ensures false {
      var c :| (a, c) in fs && Reaches(fs, c, a);
      LeafReaches(es, fs, v, c, a);
    }
  }

  lemma LeafReaches(es: Edges, fs: Edges, v: nat, c: nat, a: nat)
    requires forall e :: e in fs ==> e in es || e.1 == v
    requires forall e :: e in fs ==> e.0 != v
    requires (a, c) in fs && Reaches(fs, c, a)
    ensures Above(es, a, a)
  {
    var p :| IsPathFromTo(fs, p, c, a);
    assert (a, c).0 != v;
    forall i | 0 <= i < |p| ensures p[i] != v {
      if i < |p| - 1 { assert (p[i], p[i + 1]) in fs && (p[i], p[i + 1]).0 != v; }
    }
    forall j | 0 <= j < |p| - 1 ensures (p[j], p[j + 1]) in es { assert (p[j], p[j + 1]) in fs; }
    assert IsPathFromTo(es, p, c, a);
  }

  function ApplyHosts(f: Fleet, ops: seq<HostOp>): Fleet {
    if ops == [] then f else ApplyHost(ApplyHosts(f, ops[..|ops| - 1]), ops[|ops| - 1])
  }

  lemma {:induction false} HostOpsKeepLinks(f: Fleet, ops: seq<HostOp>)
    requires SoundFleet(f)
    ensures SoundFleet(ApplyHosts(f, ops))
  {
    if ops != [] {
      HostOpsKeepLinks(f, ops[..|ops| - 1]);
      HostOpKeepsLinks(ApplyHosts(f, ops[..|ops| - 1]), ops[|ops| - 1]);
    }
  }

  /** In sound tables every host's chain of parents ends at a root. */
  lemma {:induction false} SoundIsRooted(f: Fleet, x: nat)
    requires SoundFleet(f) && x in Ids(f)
    ensures Rooted(f, x)
    decreases |Groups.Ancestors(Links(f), x)|
  {
    var s :| s in f.servers && s.id == x;
    if s.parent.None? {
      FilterMember(IsRoot, f.servers, s);
      Reflexive(Links(f), x);
    } else {
      var p := s.parent.value;
      assert (p, x) in Links(f);
      Reflexive(Links(f), x);
      assert Above(Links(f), p, x);
      Groups.AncestorsGrow(Links(f), p, x);
      SoundIsRooted(f, p);
      var r :| r in Roots(f) && Reaches(Links(f), r.id, p);
      EdgeReaches(Links(f), p, x);
      Transitive(Links(f), r.id, p, x);
    }
  }

  /** After any sequence of host creations and deletions, every managed host and every container is shown exactly once. */
  lemma EveryHostOnce(f: Fleet, ops: seq<HostOp>)
    requires SoundFleet(f)
    ensures var g := ApplyHosts(f, ops);
      && SoundFleet(g)
      && (forall x :: x in Ids(g) ==> CountAll(Physical(g), HostOf(x)) == 1)
      && (forall c :: c in g.containers ==> CountAll(Physical(g), ContainerOf(c.id)) == 1)
  {
    HostOpsKeepLinks(f, ops);
    var g := ApplyHosts(f, ops);
    forall x | x in Ids(g) ensures CountAll(Physical(g), HostOf(x)) == 1 {
      SoundIsRooted(g, x);
      ShownOnceIffRooted(g, HostOf(x), x);
    }
    forall c | c in g.containers ensures CountAll(Physical(g), ContainerOf(c.id)) == 1 {
      SoundIsRooted(g, c.host);
      assert IsContainer(g, c.id, c.host);
      ShownOnceIffRooted(g, ContainerOf(c.id), c.host);
    }
  }
}
