/** Finite directed graphs given by their edge sets: paths, reachability, acyclicity.
    Both the group graph (parent group, child group) and the host tree (host, guest) are read this way. */
module Graph {
  type Edges = set<(nat, nat)>

  ghost predicate IsPath(es: Edges, p: seq<nat>) {
    |p| > 0 && forall i :: 0 <= i < |p| - 1 ==> (p[i], p[i + 1]) in es
  }

  ghost predicate IsPathFromTo(es: Edges, p: seq<nat>, a: nat, b: nat) {
    IsPath(es, p) && p[0] == a && p[|p| - 1] == b
  }

  /** Reflexive-transitive reachability. */
  ghost predicate Reaches(es: Edges, a: nat, b: nat) {
    exists p :: IsPathFromTo(es, p, a, b)
  }

  /** At least one edge leads from `a` to `b`. */
  ghost predicate Above(es: Edges, a: nat, b: nat) {
    exists c :: (a, c) in es && Reaches(es, c, b)
  }

  ghost predicate Acyclic(es: Edges) {
    forall a :: !Above(es, a, a)
  }

  ghost predicate Closed(es: Edges, s: set<nat>) {
    forall a, b :: (a, b) in es && a in s ==> b in s
  }

  ghost function Sources(es: Edges): set<nat> { set e | e in es :: e.0 }

  ghost function Targets(es: Edges): set<nat> { set e | e in es :: e.1 }

  lemma Reflexive(es: Edges, a: nat)
    ensures Reaches(es, a, a)
  {
    assert IsPathFromTo(es, [a], a, a);
  }

  lemma Transitive(es: Edges, a: nat, b: nat, c: nat)
    requires Reaches(es, a, b) && Reaches(es, b, c)
    ensures Reaches(es, a, c)
  {
    var p :| IsPathFromTo(es, p, a, b);
    var q :| IsPathFromTo(es, q, b, c);
    var r := p + q[1..];
    forall i | 0 <= i < |r| - 1 ensures (r[i], r[i + 1]) in es {
      if i >= |p| - 1 {
        assert r[i] == q[i - (|p| - 1)] && r[i + 1] == q[i + 1 - (|p| - 1)];
      }
    }
    assert r[|r| - 1] == c;
    assert IsPathFromTo(es, r, a, c);
  }

  lemma EdgeReaches(es: Edges, a: nat, b: nat)
    requires (a, b) in es
    ensures Reaches(es, a, b)
  {
    assert IsPathFromTo(es, [a, b], a, b);
  }

  lemma AboveReaches(es: Edges, a: nat, b: nat)
    requires Above(es, a, b)
    ensures Reaches(es, a, b)
  {
    var c :| (a, c) in es && Reaches(es, c, b);
    EdgeReaches(es, a, c);
    Transitive(es, a, c, b);
  }

  lemma AboveThenReaches(es: Edges, a: nat, b: nat, c: nat)
    requires Above(es, a, b) && Reaches(es, b, c)
    ensures Above(es, a, c)
  {
    var d :| (a, d) in es && Reaches(es, d, b);
    Transitive(es, d, b, c);
  }

  /** A path of two or more nodes starts with an edge. */
  lemma FirstStep(es: Edges, a: nat, b: nat)
    requires Reaches(es, a, b)
    ensures a == b || Above(es, a, b)
  {
    if a != b {
      var p :| IsPathFromTo(es, p, a, b);
      assert (p[0], p[1]) in es;
      assert IsPathFromTo(es, p[1..], p[1], b);
    }
  }

  lemma ReachesThenAbove(es: Edges, a: nat, b: nat, c: nat)
    requires Reaches(es, a, b) && Above(es, b, c)
    ensures Above(es, a, c)
  {
    FirstStep(es, a, b);
    if a != b {
      AboveReaches(es, b, c);
      AboveThenReaches(es, a, b, c);
    }
  }

  /** A path of two or more nodes ends with an edge. */
  lemma LastStep(es: Edges, a: nat, b: nat) returns (c: nat)
    requires Above(es, a, b)
    ensures Reaches(es, a, c) && (c, b) in es
  {
    var d :| (a, d) in es && Reaches(es, d, b);
    var p :| IsPathFromTo(es, p, d, b);
    if |p| == 1 {
      Reflexive(es, a);
      c := a;
    } else {
      c := p[|p| - 2];
      assert (p[|p| - 2], p[|p| - 2 + 1]) in es;
      assert IsPathFromTo(es, p[..|p| - 1], d, c);
      EdgeReaches(es, a, d);
      Transitive(es, a, d, c);
    }
  }

  /** Reachability never leaves a set that is closed under the edges. */
  lemma ClosedReaches(es: Edges, s: set<nat>, a: nat, b: nat)
    requires Closed(es, s) && a in s && Reaches(es, a, b)
    ensures b in s
  {
    var p :| IsPathFromTo(es, p, a, b);
    var i := 0;
    while i < |p| - 1
      invariant 0 <= i < |p| && p[i] in s
    {
      assert (p[i], p[i + 1]) in es;
      i := i + 1;
    }
  }

  lemma Monotone(es: Edges, fs: Edges, a: nat, b: nat)
    requires es <= fs && Reaches(es, a, b)
    ensures Reaches(fs, a, b)
  {
    var p :| IsPathFromTo(es, p, a, b);
    assert IsPathFromTo(fs, p, a, b);
  }

  lemma AcyclicSubset(es: Edges, fs: Edges)
    requires es <= fs && Acyclic(fs)
    ensures Acyclic(es)
  {
    forall a: nat | Above(es, a, a) ensures false {
      var c :| (a, c) in es && Reaches(es, c, a);
      Monotone(es, fs, c, a);
      assert Above(fs, a, a);
    }
  }

  /** The graph with node `v` cut out. */
  ghost function Without(es: Edges, v: nat): Edges {
    set e | e in es && e.0 != v && e.1 != v
  }

  /** The edges that do not leave `v`. */
  ghost function NotLeaving(es: Edges, v: nat): Edges {
    set e | e in es && e.0 != v
  }

  /** Whoever is below `a` is reached from some child of `a` without passing through `a` again. */
  lemma LastExit(es: Edges, a: nat, b: nat) returns (c: nat)
    requires Reaches(es, a, b) && a != b
    ensures (a, c) in es && c != a && Reaches(Without(es, a), c, b)
  {
    var p :| IsPathFromTo(es, p, a, b);
    var i := |p| - 1;
    while p[i] != a
      invariant 0 <= i < |p|
      invariant forall j :: i < j < |p| ==> p[j] != a
      decreases i
    {
      i := i - 1;
    }
    c := p[i + 1];
    assert (p[i], p[i + 1]) in es;
    var q := p[i + 1..];
    forall j | 0 <= j < |q| - 1 ensures (q[j], q[j + 1]) in Without(es, a) {
      assert (p[i + 1 + j], p[i + 1 + j + 1]) in es;
    }
    assert IsPathFromTo(Without(es, a), q, c, b);
  }

  /** Whether `a` reaches `v` does not depend on the edges leaving `v`. */
  lemma ReachesIgnoresExits(es: Edges, v: nat, a: nat)
    ensures Reaches(es, a, v) <==> Reaches(NotLeaving(es, v), a, v)
  {
    if Reaches(es, a, v) {
      var p :| IsPathFromTo(es, p, a, v);
      var i := 0;
      while p[i] != v
        invariant 0 <= i < |p|
        invariant forall j :: 0 <= j < i ==> p[j] != v
        decreases |p| - i
      {
        i := i + 1;
      }
      var q := p[..i + 1];
      forall j | 0 <= j < |q| - 1 ensures (q[j], q[j + 1]) in NotLeaving(es, v) {
        assert (p[j], p[j + 1]) in es;
      }
      assert IsPathFromTo(NotLeaving(es, v), q, a, v);
    }
    if Reaches(NotLeaving(es, v), a, v) {
      Monotone(NotLeaving(es, v), es, a, v);
    }
  }

  /** If every edge of `v` is new, a cycle in the whole graph is either old or runs through `v`. */
  lemma CycleAvoidsOrPasses(es: Edges, v: nat, a: nat)
    requires Above(es, a, a)
    ensures Above(es, v, v) || Above(NotLeaving(es, v), a, a)
  {
    var c :| (a, c) in es && Reaches(es, c, a);
    if a == v { return; }
    var p :| IsPathFromTo(es, p, c, a);
    if i :| 0 <= i < |p| && p[i] == v {
      assert IsPathFromTo(es, p[..i + 1], c, v);
      assert IsPathFromTo(es, p[i..], v, a);
      assert Above(es, a, v);
      AboveReaches(es, a, v);
      ReachesThenAbove(es, v, a, v);
    } else {
      forall j | 0 <= j < |p| - 1 ensures (p[j], p[j + 1]) in NotLeaving(es, v) {
        assert (p[j], p[j + 1]) in es;
      }
      assert IsPathFromTo(NotLeaving(es, v), p, c, a);
    }
  }
}
