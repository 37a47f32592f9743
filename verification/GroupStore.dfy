/** The group editor (webpanel/app/routers/groups.py): in-place edits of the group tables,
    and what every sequence of edits keeps. */
module GroupStore {
  import opened Graph
  import Groups

  datatype Tables = Tables(
    names: map<nat, string>,       // host_groups: id -> name
    servers: set<nat>,             // ids of servers
    edges: Edges,                  // host_group_children: (parent, child)
    members: set<(nat, nat)>)      // host_group_members: (group, server)

  datatype Outcome = Done | NameRequired | NoSuchGroup | NameTaken | ForeignKeyError

  datatype Op =
    | Add(id: nat, name: string)
    | Update(id: nat, name: string, hosts: set<nat>, children: set<nat>)
    | Delete(id: nat)

  ghost predicate NameClash(t: Tables, id: nat, name: string) {
    exists g :: g in t.names && t.names[g] == name && g != id
  }

  /** The submitted children that may become children of `id`: judged on the edges of the other groups alone. */
  ghost function Accepted(es: Edges, id: nat, children: set<nat>): set<nat> {
    set c | c in children && c != id && !Reaches(NotLeaving(es, id), c, id)
  }

  ghost function ChildEdges(id: nat, children: set<nat>): Edges {
    set c | c in children :: (id, c)
  }

  ghost function Added(t: Tables, id: nat, name: string): (Tables, Outcome) {
    if name == "" then (t, NameRequired)
    else if NameClash(t, id, name) then (t, NameTaken)
    else (t.(names := t.names[id := name]), Done)
  }

  ghost function Updated(t: Tables, id: nat, name: string, hosts: set<nat>, children: set<nat>): (Tables, Outcome) {
    var kept := Accepted(t.edges, id, children);
    if id !in t.names then (t, NoSuchGroup)
    else if name != "" && NameClash(t, id, name) then (t, NameTaken)
    else if !(hosts <= t.servers && kept <= t.names.Keys) then (t, ForeignKeyError)
    else (t.(names := if name == "" then t.names else t.names[id := name],
             members := (set m | m in t.members && m.0 != id) + (set h | h in hosts :: (id, h)),
             edges := NotLeaving(t.edges, id) + ChildEdges(id, kept)), Done)
  }

  ghost function Deleted(t: Tables, id: nat): (Tables, Outcome) {
    if id !in t.names then (t, NoSuchGroup)
    else (t.(names := t.names - {id}, members := (set m | m in t.members && m.0 != id),
             edges := Without(t.edges, id)), Done)
  }

  /** One request; a new group gets an id no row uses. */
  ghost function Apply(t: Tables, op: Op): Tables {
    match op
    case Add(id, name) => if id in t.names then t else Added(t, id, name).0
    case Update(id, name, hosts, children) => Updated(t, id, name, hosts, children).0
    case Delete(id) => Deleted(t, id).0
  }

  ghost function ApplyAll(t: Tables, ops: seq<Op>): Tables
    decreases |ops|
  {
    if ops == [] then t else Apply(ApplyAll(t, ops[..|ops| - 1]), ops[|ops| - 1])
  }

  /** Whatever children were let in before, the next one is judged as if none had been. */
  lemma AcceptOne(es0: Edges, es: Edges, id: nat, done: set<nat>, c: nat)
    requires es == NotLeaving(es0, id) + ChildEdges(id, Accepted(es0, id, done))
    ensures NotLeaving(es0, id) + ChildEdges(id, Accepted(es0, id, done + {c})) ==
            if c != id && !Reaches(es, c, id) then es + {(id, c)} else es
  {
    assert NotLeaving(es, id) == NotLeaving(es0, id);
    ReachesIgnoresExits(es, id, c);
    assert Accepted(es0, id, done + {c}) == Accepted(es0, id, done) + if c != id && !Reaches(es, c, id) then {c} else {};
  }

  // ---------------------------------------------------------------- what the edits do to the tables

  /** The child reaches the group without one of the group's own edges. */
  ghost predicate WouldLoop(es: Edges, id: nat, c: nat) { c == id || Reaches(NotLeaving(es, id), c, id) }

  /** An edit: nothing changes unless it is done. Then the group's members are the submitted hosts, its children the
      submitted ones that close no cycle, its name the submitted one if any; all other rows are as before. */
  ghost predicate Edits(t: Tables, u: Tables, r: Outcome, id: nat, name: string, hosts: set<nat>, children: set<nat>) {
    && (r.NoSuchGroup? <==> id !in t.names)
    && (r.NameTaken? <==> id in t.names && name != "" && exists g :: g in t.names && g != id && t.names[g] == name)
    && (r.ForeignKeyError? <==>
         && id in t.names && !r.NameTaken?
         && ((exists h :: h in hosts && h !in t.servers) || exists c :: c in children && c !in t.names && !WouldLoop(t.edges, id, c)))
    && !r.NameRequired? && (!r.Done? ==> u == t)
    && (r.Done? ==>
         && u.servers == t.servers && u.names.Keys == t.names.Keys
         && (forall g :: g in t.names ==> u.names[g] == if g == id && name != "" then name else t.names[g])
         && (forall g, h :: (g, h) in u.members <==> if g == id then h in hosts else (g, h) in t.members)
         && (forall p, c :: (p, c) in u.edges <==> if p == id then c in children && !WouldLoop(t.edges, id, c) else (p, c) in t.edges))
  }

  /** A new group is one more row with that name. */
  ghost predicate Adds(t: Tables, u: Tables, r: Outcome, id: nat, name: string) {
    && (r.NameRequired? <==> name == "")
    && (r.NameTaken? <==> name != "" && exists g :: g in t.names && t.names[g] == name)
    && (r.Done? <==> !r.NameRequired? && !r.NameTaken?)
    && u.servers == t.servers && u.edges == t.edges && u.members == t.members
    && u.names.Keys == t.names.Keys + (if r.Done? then {id} else {}) && (r.Done? ==> u.names[id] == name)
    && forall g :: g in t.names ==> u.names[g] == t.names[g]
  }

  /** Exactly the rows of the group and those that mention it go. */
  ghost predicate Deletes(t: Tables, u: Tables, r: Outcome, id: nat) {
    && (r.Done? <==> id in t.names) && (r.NoSuchGroup? <==> id !in t.names) && (!r.Done? ==> u == t) && u.servers == t.servers
    && (r.Done? ==>
         && u.names.Keys == t.names.Keys - {id} && (forall g :: g in u.names ==> u.names[g] == t.names[g])
         && (forall g, h :: (g, h) in u.members <==> g != id && (g, h) in t.members)
         && (forall p, c :: (p, c) in u.edges <==> p != id && c != id && (p, c) in t.edges))
  }

  lemma UpdateLaw(t: Tables, id: nat, name: string, hosts: set<nat>, children: set<nat>)
    ensures var (u, r) := Updated(t, id, name, hosts, children); Edits(t, u, r, id, name, hosts, children)
  {
    var (u, r) := Updated(t, id, name, hosts, children);
    var kept := Accepted(t.edges, id, children);
    assert forall c :: c in kept <==> c in children && !WouldLoop(t.edges, id, c);
    if r.Done? {
      forall p, c ensures (p, c) in u.edges <==> if p == id then c in children && !WouldLoop(t.edges, id, c) else (p, c) in t.edges {
        assert (p, c) in ChildEdges(id, kept) <==> p == id && c in kept;
      }
    }
  }

  lemma AddLaw(t: Tables, id: nat, name: string)
    requires id !in t.names
    ensures var (u, r) := Added(t, id, name); Adds(t, u, r, id, name)
  {
  }

  lemma DeleteLaw(t: Tables, id: nat)
    ensures var (u, r) := Deleted(t, id); Deletes(t, u, r, id)
  {
  }

  class Store {
    var names: map<nat, string>
    var servers: set<nat>
    var edges: Edges
    var members: set<(nat, nat)>

    ghost function Contents(): Tables reads this { Tables(names, servers, edges, members) }

    method FindClash(id: nat, name: string) returns (b: bool)
      ensures b <==> NameClash(Contents(), id, name)
    {
      b := false;
      var rest := names.Keys;
      while rest != {}
        invariant rest <= names.Keys
        invariant b <==> exists g :: g in names.Keys - rest && names[g] == name && g != id
        decreases rest
      {
        var g :| g in rest;
        b, rest := b || (names[g] == name && g != id), rest - {g};
      }
    }

    method AddGroup(id: nat, name: string) returns (r: Outcome)
      requires id !in names
      modifies this
      ensures (Contents(), r) == Added(old(Contents()), id, name) && Adds(old(Contents()), Contents(), r, id, name)
    {
      AddLaw(Contents(), id, name);
      hide Adds;
      if name == "" { return NameRequired; }
      var clash := FindClash(id, name);
      if clash { return NameTaken; }
      names := names[id := name];
      return Done;
    }

    /** Drops the group's child edges and adds the submitted ones back, one by one in some order, skipping
        each that would close a cycle in the graph as it is by then. The order turns out not to matter. */
    method ReplaceChildren(id: nat, wantChildren: set<nat>)
      modifies this`edges
      ensures edges == NotLeaving(old(edges), id) + ChildEdges(id, Accepted(old(edges), id, wantChildren))
    {
      ghost var edges0 := edges;
      edges := set e | e in edges && e.0 != id;
      var rest := wantChildren;
      assert edges == NotLeaving(edges0, id) + ChildEdges(id, Accepted(edges0, id, {}));
      while rest != {}
        invariant rest <= wantChildren
        invariant edges == NotLeaving(edges0, id) + ChildEdges(id, Accepted(edges0, id, wantChildren - rest))
        decreases rest
      {
        var cid :| cid in rest;
        ghost var done := wantChildren - rest;
        rest := rest - {cid};
        assert wantChildren - rest == done + {cid};
        AcceptOne(edges0, edges, id, done, cid);
        if cid == id { continue; }
        var cycle := Groups.WouldCreateCycle(edges, id, cid);
        if cycle { continue; }
        edges := edges + {(id, cid)};
      }
      assert wantChildren - rest == wantChildren;
    }

    method UpdateGroup(id: nat, name: string, wantHosts: set<nat>, wantChildren: set<nat>) returns (r: Outcome)
      modifies this
      ensures (Contents(), r) == Updated(old(Contents()), id, name, wantHosts, wantChildren)
      ensures Edits(old(Contents()), Contents(), r, id, name, wantHosts, wantChildren)
    {
      UpdateLaw(Contents(), id, name, wantHosts, wantChildren);
      hide Edits;
      if id !in names { return NoSuchGroup; }
      var names0, edges0, members0 := names, edges, members;
      if name != "" {
        var clash := FindClash(id, name);
        if clash { return NameTaken; }
        names := names[id := name];
        assert names.Keys == names0.Keys;
      }
      members := (set m | m in members && m.0 != id) + set h | h in wantHosts :: (id, h);
      ReplaceChildren(id, wantChildren);
      // The foreign keys of the new rows are checked at the latest when the transaction commits.
      ghost var kept := Accepted(edges0, id, wantChildren);
      assert forall c :: c in kept ==> (id, c) in edges && (id, c).1 == c;
      if !(wantHosts <= servers) || exists e :: e in edges && e.0 == id && e.1 !in names {
        names, edges, members := names0, edges0, members0;
        return ForeignKeyError;
      }
      return Done;
    }

    method DeleteGroup(id: nat) returns (r: Outcome)
      modifies this
      ensures (Contents(), r) == Deleted(old(Contents()), id) && Deletes(old(Contents()), Contents(), r, id)
    {
      DeleteLaw(Contents(), id);
      hide Deletes;
      if id !in names { return NoSuchGroup; }
      members := set m | m in members && m.0 != id;
      edges := set e | e in edges && !(e.0 == id || e.1 == id);
      names := names - {id};
      assert edges == Without(old(edges), id);
      return Done;
    }
  }

  // ---------------------------------------------------------------- what every sequence of edits keeps

  ghost predicate Sound(t: Tables) {
    && Acyclic(t.edges)
    && (forall e :: e in t.edges ==> e.0 in t.names && e.1 in t.names)
    && (forall m :: m in t.members ==> m.0 in t.names && m.1 in t.servers)
    && (forall g, h :: g in t.names && h in t.names && t.names[g] == t.names[h] ==> g == h)
  }

  lemma UpdateKeepsAcyclic(es: Edges, id: nat, children: set<nat>)
    requires Acyclic(es)
    ensures Acyclic(NotLeaving(es, id) + ChildEdges(id, Accepted(es, id, children)))
  {
    var base := NotLeaving(es, id);
    var fs := base + ChildEdges(id, Accepted(es, id, children));
    AcyclicSubset(base, es);
    Groups.NewExitsKeepAcyclic(base, fs, id);
  }

  /** A child that was turned down could not have been let in: it would close a cycle in the result. */
  lemma RejectedWouldCycle(es: Edges, id: nat, children: set<nat>, c: nat)
    requires Acyclic(es) && c in children && c !in Accepted(es, id, children)
    ensures !Acyclic(NotLeaving(es, id) + ChildEdges(id, Accepted(es, id, children)) + {(id, c)})
  {
    var fs := NotLeaving(es, id) + ChildEdges(id, Accepted(es, id, children)) + {(id, c)};
    if c == id { Reflexive(fs, id); } else { Monotone(NotLeaving(es, id), fs, c, id); }
    assert (id, c) in fs && Above(fs, id, id);
  }

  /** Row by row, of each edit in a sequence; a new group has an id no row uses. */
  lemma ApplyLaw(t: Tables, op: Op) returns (r: Outcome)
    ensures var u := Apply(t, op);
      match op
      case Add(id, name) => if id in t.names then u == t else Adds(t, u, r, id, name)
      case Update(id, name, hosts, children) => Edits(t, u, r, id, name, hosts, children)
      case Delete(id) => Deletes(t, u, r, id)
  {
    hide Adds, Edits, Deletes;
    match op
    case Add(id, name) =>
      r := Added(t, id, name).1;
      if id !in t.names { AddLaw(t, id, name); }
    case Update(id, name, hosts, children) =>
      r := Updated(t, id, name, hosts, children).1;
      UpdateLaw(t, id, name, hosts, children);
    case Delete(id) =>
      r := Deleted(t, id).1;
      DeleteLaw(t, id);
  }

  lemma ApplyKeepsSound(t: Tables, op: Op)
    requires Sound(t)
    ensures Sound(Apply(t, op))
  {
    match op
    case Add(id, name) =>
    case Update(id, name, hosts, children) =>
      UpdateKeepsAcyclic(t.edges, id, children);
    case Delete(id) =>
      AcyclicSubset(Without(t.edges, id), t.edges);
  }

  /** Starting from no groups, no sequence of edits ever produces a cycle, a dangling edge or two groups of one name. */
  lemma {:induction false} EditsKeepSound(servers: set<nat>, ops: seq<Op>)
    ensures Sound(ApplyAll(Tables(map[], servers, {}, {}), ops))
    decreases |ops|
  {
    if ops != [] {
      EditsKeepSound(servers, ops[..|ops| - 1]);
      ApplyKeepsSound(ApplyAll(Tables(map[], servers, {}, {}), ops[..|ops| - 1]), ops[|ops| - 1]);
    }
  }

  /** In sound tables the editor fails on foreign keys exactly when a submitted host or child (other than the group itself) does not exist. */
  lemma UpdateFailsOnUnknownIds(t: Tables, id: nat, hosts: set<nat>, children: set<nat>)
    requires Sound(t) && id in t.names
    ensures Updated(t, id, "", hosts, children).1.ForeignKeyError? <==>
            !(hosts <= t.servers && children <= t.names.Keys)
  {
    var base := NotLeaving(t.edges, id);
    forall c | c in children && c !in t.names ensures c in Accepted(t.edges, id, children) {
      assert !Above(base, c, id) by {
        forall d: nat ensures (c, d) !in base { assert (c, d) in t.edges ==> (c, d).0 in t.names; }
      }
      if Reaches(base, c, id) { FirstStep(base, c, id); }
    }
  }
}
