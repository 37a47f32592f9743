/** Parent links as the host routes keep them (webpanel/app/routers/hosts.py `add_host`, `_create_guest_server`,
    `_node_server_id`, `delete_host`): a guest is hung under the host that stands for its node, and a deleted host's
    guests are detached first. */
module HostLinks {
  import opened Options
  import opened Lists
  import opened Forest
  import opened ForestFacts
  import Text

  /** The lowest id with a property. */
  function Lowest(servers: seq<Server>, p: Server -> bool): (id: Option<nat>)
    ensures id.Some? ==> exists s :: s in servers && s.id == id.value && p(s)
    ensures forall s :: s in servers && p(s) ==> id.Some? && id.value <= s.id
  {
    if servers == [] then None
    else
      var (init, s) := (servers[..|servers| - 1], servers[|servers| - 1]);
      assert servers == init + [s];
      var before := Lowest(init, p);
      if p(s) && (before.None? || s.id < before.value) then Some(s.id) else before
  }

  predicate IsVirt(s: Server) { s.virtKind != "" }
  predicate IsLocal(s: Server) { s.connection == "local" }
  function VirtNamed(name: string): Server -> bool { (s: Server) => IsVirt(s) && s.name == name }

  /** The managed host that stands for a Proxmox node. */
  function NodeServerId(servers: seq<Server>, node: string): Option<nat> {
    if node != "" && Lowest(servers, VirtNamed(node)).Some? then Lowest(servers, VirtNamed(node))
    else if Lowest(servers, IsVirt).Some? then Lowest(servers, IsVirt)
    else Lowest(servers, IsLocal)
  }

  /** A parent once it has a guest counts as a virtualization host. */
  function Marked(servers: seq<Server>, id: Option<nat>): (r: seq<Server>)
    ensures |r| == |servers|
    ensures forall i :: 0 <= i < |r| ==> r[i] == if id == Some(servers[i].id) && !IsVirt(servers[i]) then servers[i].(virtKind := "proxmox") else servers[i]
  {
    if servers == [] then []
    else
      var (init, s) := (servers[..|servers| - 1], servers[|servers| - 1]);
      Marked(init, id) + [if id == Some(s.id) && !IsVirt(s) then s.(virtKind := "proxmox") else s]
  }

  /** The row of a host entered by hand: a guest carries its type and node, and hangs under the host of that node. */
  function NewHost(servers: seq<Server>, id: nat, name: string, connection: string, isGuest: bool, guestType: string, node: string, here: string): (s: Server)
    ensures s.id == id && s.name == Text.Strip(name) && s.connection == connection && s.virtKind == ""
    ensures !isGuest ==> s.parent == None && s.guestType == "" && s.node == ""
    ensures isGuest ==> s.parent == NodeServerId(servers, Text.Strip(node)) && s.guestType != ""
  {
    Server(id, Text.Strip(name), if isGuest then NodeServerId(servers, Text.Strip(node)) else None, "",
           if !isGuest then "" else if Text.Strip(guestType) != "" then Text.Strip(guestType) else "qemu",
           connection, if !isGuest then "" else if Text.Strip(node) != "" then Text.Strip(node) else here)
  }

  /** A container picked from the node's list, by vmid and name. */
  type Pick = (string, string)

  predicate NameUsed(servers: seq<Server>, name: string) { exists i :: 0 <= i < |servers| && servers[i].name == name }

  function ContainerHost(servers: seq<Server>, id: nat, pick: Pick, parent: Option<nat>, here: string): Server {
    var base := if Text.Strip(pick.1) != "" then Text.Strip(pick.1) else "ct" + pick.0;
    Server(id, if NameUsed(servers, base) then base + "-" + pick.0 else base, parent, "", "lxc", "proxmox", here)
  }

  function VmidsOf(picks: seq<Pick>): set<string> { set p | p in picks && p.0 != "" :: p.0 }

  /** The hosts once the picked containers are registered under `parent`, known and repeated vmids skipped. */
  function Picked(servers: seq<Server>, registered: set<string>, picks: seq<Pick>, freshId: nat, parent: Option<nat>, here: string): seq<Server> {
    if picks == [] then servers
    else
      var n := |picks| - 1;
      var before := Picked(servers, registered, picks[..n], freshId, parent, here);
      if picks[n].0 == "" || picks[n].0 in registered + VmidsOf(picks[..n]) then before
      else Marked(before + [ContainerHost(before, freshId + n, picks[n], parent, here)], parent)
  }

  /** The row is as before, but for the mark. */
  predicate Kept(s: Server, t: Server) { t == s || t == s.(virtKind := "proxmox") }

  /** `r` has the old rows first, and then containers under the parent, with ids from the given range. */
  ghost predicate Registers(servers: seq<Server>, r: seq<Server>, parent: Option<nat>, lo: nat, hi: nat) {
    && |servers| <= |r|
    && (forall i :: 0 <= i < |servers| ==> Kept(servers[i], r[i]))
    && (forall i :: |servers| <= i < |r| ==> r[i].connection == "proxmox" && r[i].guestType == "lxc" && r[i].parent == parent && lo <= r[i].id < hi)
  }

  /** One new host per picked vmid that was not registered, each a container under the parent; the others are kept. */
  lemma {:induction false} PickedExact(servers: seq<Server>, registered: set<string>, picks: seq<Pick>, freshId: nat, parent: Option<nat>, here: string)
    ensures var r := Picked(servers, registered, picks, freshId, parent, here);
      Registers(servers, r, parent, freshId, freshId + |picks|) && |r| == |servers| + |VmidsOf(picks) - registered|
  {
    hide Picked, VmidsOf, ContainerHost, Marked, Registers;
    if picks == [] {
      NothingPicked(servers, registered, freshId, parent, here);
    } else {
      var n := |picks| - 1;
      PickedExact(servers, registered, picks[..n], freshId, parent, here);
      VmidsNext(registered, picks, n);
      assert picks[..n + 1] == picks;
      PickedNext(servers, registered, picks, n, freshId, parent, here);
      var before := Picked(servers, registered, picks[..n], freshId, parent, here);
      ContainerIs(before, freshId + n, picks[n], parent, here);
      RegistersNext(servers, before, ContainerHost(before, freshId + n, picks[n], parent, here), parent, freshId, freshId + n);
    }
  }

  lemma NothingPicked(servers: seq<Server>, registered: set<string>, freshId: nat, parent: Option<nat>, here: string)
    ensures Picked(servers, registered, [], freshId, parent, here) == servers
    ensures Registers(servers, servers, parent, freshId, freshId) && VmidsOf([]) == {} && |VmidsOf([]) - registered| == 0
  {
    assert VmidsOf([]) - registered == {};
  }

  lemma RegistersNext(servers: seq<Server>, before: seq<Server>, s: Server, parent: Option<nat>, lo: nat, id: nat)
    requires Registers(servers, before, parent, lo, id) && lo <= id
    requires s.connection == "proxmox" && s.guestType == "lxc" && s.parent == parent && s.id == id
    ensures Registers(servers, before, parent, lo, id + 1)
    ensures Registers(servers, Marked(before + [s], parent), parent, lo, id + 1) && |Marked(before + [s], parent)| == |before| + 1
  {
    var r := Marked(before + [s], parent);
    forall i | 0 <= i < |r| ensures Kept((before + [s])[i], r[i]) { }
    hide Marked;
    forall i | 0 <= i < |servers| ensures Kept(servers[i], r[i]) { assert Kept(servers[i], before[i]); }
  }

  lemma ContainerIs(servers: seq<Server>, id: nat, pick: Pick, parent: Option<nat>, here: string)
    ensures var s := ContainerHost(servers, id, pick, parent, here);
      s.id == id && s.connection == "proxmox" && s.guestType == "lxc" && s.parent == parent
  {
  }

  lemma PickedNext(servers: seq<Server>, registered: set<string>, picks: seq<Pick>, i: nat, freshId: nat, parent: Option<nat>, here: string)
    requires i < |picks|
    ensures var before := Picked(servers, registered, picks[..i], freshId, parent, here);
      Picked(servers, registered, picks[..i + 1], freshId, parent, here) ==
        if picks[i].0 == "" || picks[i].0 in registered + VmidsOf(picks[..i]) then before
        else Marked(before + [ContainerHost(before, freshId + i, picks[i], parent, here)], parent)
  {
    hide Marked, ContainerHost, VmidsOf, Picked;
    var upto := picks[..i + 1];
    assert upto[..|upto| - 1] == picks[..i] && upto[|upto| - 1] == picks[i];
    PickedLast(servers, registered, upto, freshId, parent, here);
  }

  lemma PickedLast(servers: seq<Server>, registered: set<string>, picks: seq<Pick>, freshId: nat, parent: Option<nat>, here: string)
    requires picks != []
    ensures var n := |picks| - 1;
      var before := Picked(servers, registered, picks[..n], freshId, parent, here);
      Picked(servers, registered, picks, freshId, parent, here) ==
        if picks[n].0 == "" || picks[n].0 in registered + VmidsOf(picks[..n]) then before
        else Marked(before + [ContainerHost(before, freshId + n, picks[n], parent, here)], parent)
  {
    hide Marked, ContainerHost, VmidsOf;
  }

  lemma VmidsNext(registered: set<string>, picks: seq<Pick>, i: nat)
    requires i < |picks|
    ensures var (old_, new_, v) := (VmidsOf(picks[..i]), VmidsOf(picks[..i + 1]), picks[i].0);
      && new_ == (if v == "" then old_ else old_ + {v})
      && |new_ - registered| == |old_ - registered| + if v == "" || v in registered + old_ then 0 else 1
  {
    var (old_, new_, v) := (VmidsOf(picks[..i]), VmidsOf(picks[..i + 1]), picks[i].0);
    assert picks[..i + 1] == picks[..i] + [picks[i]];
    assert new_ == if v == "" then old_ else old_ + {v};
    assert new_ - registered == if v == "" || v in registered + old_ then old_ - registered else (old_ - registered) + {v};
  }

  class Hosts {
    var fleet: Fleet

    constructor (fleet: Fleet)
      ensures this.fleet == fleet
    {
      this.fleet := fleet;
    }

    /** The guest picker: containers of this node, each its own host. */
    method AddContainers(registered: set<string>, picks: seq<Pick>, freshId: nat, here: string)
      requires forall s :: s in fleet.servers ==> s.id < freshId
      modifies this
      ensures fleet == old(fleet).(servers := Picked(old(fleet).servers, registered, picks, freshId, NodeServerId(old(fleet).servers, ""), here))
      ensures SoundFleet(old(fleet)) ==> SoundFleet(fleet)
    {
      hide Picked, VmidsOf, SoundFleet, ContainerHost, Marked, NodeServerId, Registers;
      var parent := NodeServerId(fleet.servers, "");
      var taken := registered;
      PickerKeepsLinks(fleet, registered, picks, freshId, here);
      NothingPicked(fleet.servers, registered, freshId, parent, here);
      assert picks[..0] == [];
      for i := 0 to |picks|
        invariant taken == registered + VmidsOf(picks[..i])
        invariant fleet == old(fleet).(servers := Picked(old(fleet).servers, registered, picks[..i], freshId, parent, here))
      {
        var pick := picks[i];
        PickedNext(old(fleet).servers, registered, picks, i, freshId, parent, here);
        VmidsNext(registered, picks, i);
        if pick.0 != "" && pick.0 !in taken {
          taken := taken + {pick.0};
          fleet := fleet.(servers := Marked(fleet.servers + [ContainerHost(fleet.servers, freshId + i, pick, parent, here)], parent));
        }
      }
      assert picks[..|picks|] == picks;
    }

    /** A guest goes under its node's host, if there is one; any other host stands at the top. */
    method AddHost(freshId: nat, name: string, connection: string, isGuest: bool, guestType: string, node: string, here: string,
                   registered: set<string>, picks: seq<Pick>)
      requires forall s :: s in fleet.servers ==> s.id < freshId
      modifies this
      ensures connection == "proxmox" ==>
        fleet == old(fleet).(servers := Picked(old(fleet).servers, registered, picks, freshId, NodeServerId(old(fleet).servers, ""), here))
      ensures connection != "proxmox" && Text.Strip(name) == "" ==> fleet == old(fleet)
      ensures connection != "proxmox" && Text.Strip(name) != "" ==>
        var s := NewHost(old(fleet).servers, freshId, name, connection, isGuest, guestType, node, here);
        fleet == old(fleet).(servers := Marked(old(fleet).servers + [s], s.parent))
      ensures SoundFleet(old(fleet)) ==> SoundFleet(fleet)
    {
      if connection == "proxmox" {
        AddContainers(registered, picks, freshId, here);
        return;
      }
      if Text.Strip(name) == "" { return; }
      var nodeName := Text.Strip(node);
      var parent := if isGuest then NodeServerId(fleet.servers, nodeName) else None;
      var kind := if Text.Strip(guestType) != "" then Text.Strip(guestType) else "qemu";
      var s := Server(freshId, Text.Strip(name), parent, "", if isGuest then kind else "", connection,
                      if !isGuest then "" else if nodeName != "" then nodeName else here);
      NodeIsChosen(fleet.servers, nodeName);
      AddedLinks(fleet, s);
      fleet := fleet.(servers := Marked(fleet.servers + [s], parent));
    }

    method DeleteHost(id: nat)
      modifies this
      ensures fleet == ApplyHost(old(fleet), HostOp.DeleteHost(id))
      ensures SoundFleet(old(fleet)) ==> SoundFleet(fleet)
    {
      if SoundFleet(fleet) { HostOpKeepsLinks(fleet, HostOp.DeleteHost(id)); }
      if !exists t :: t in fleet.servers && t.id == id { return; }
      var rest: seq<Server> := [];
      for i := 0 to |fleet.servers|
        invariant fleet == old(fleet) && rest == Detached(fleet.servers[..i], id)
      {
        var s := fleet.servers[i];
        assert fleet.servers[..i + 1][..i] == fleet.servers[..i];
        if s.id != id { rest := rest + [if s.parent == Some(id) then s.(parent := None) else s]; }
      }
      assert fleet.servers[..|fleet.servers|] == fleet.servers;
      // The rows that refer to the host go with it.
      fleet := fleet.(servers := rest, containers := Filter(RunsElsewhere(id), fleet.containers), members := set m | m in fleet.members && m.1 != id);
    }
  }

  /** The lowest id among the hosts with a property. */
  ghost predicate First(servers: seq<Server>, p: Server -> bool, id: nat) {
    (exists s :: s in servers && s.id == id && p(s)) && forall t :: t in servers && p(t) ==> id <= t.id
  }

  ghost predicate AnyHost(servers: seq<Server>, p: Server -> bool) { exists s :: s in servers && p(s) }

  /** The host chosen for a node: the first virtualization host of that name if there is one, else the first
      virtualization host, else the first local host; none exactly when there is neither. */
  lemma NodeIsChosen(servers: seq<Server>, node: string)
    ensures var id := NodeServerId(servers, node);
      && (id.None? <==> !AnyHost(servers, IsVirt) && !AnyHost(servers, IsLocal))
      && (id.Some? ==> First(servers,
            if node != "" && AnyHost(servers, VirtNamed(node)) then VirtNamed(node) else if AnyHost(servers, IsVirt) then IsVirt else IsLocal, id.value))
  {
    assert forall t :: t in servers && VirtNamed(node)(t) ==> IsVirt(t);
  }

  /** The host stands for a node of this name: of the virtualization hosts with the name if there are any, else of all
      virtualization hosts, else of the local hosts it is the one with the lowest id. */
  ghost predicate StandsFor(servers: seq<Server>, node: string, s: Server) {
    if node != "" && exists t :: t in servers && t.virtKind != "" && t.name == node then
      s.virtKind != "" && s.name == node && forall t :: t in servers && t.virtKind != "" && t.name == node ==> s.id <= t.id
    else if exists t :: t in servers && t.virtKind != "" then
      s.virtKind != "" && forall t :: t in servers && t.virtKind != "" ==> s.id <= t.id
    else
      s.connection == "local" && forall t :: t in servers && t.connection == "local" ==> s.id <= t.id
  }

  lemma NodeLaw(servers: seq<Server>, node: string)
    ensures var id := NodeServerId(servers, node);
      && (id.None? <==> forall s :: s in servers ==> s.virtKind == "" && s.connection != "local")
      && (id.Some? ==> exists s :: s in servers && s.id == id.value && StandsFor(servers, node, s))
  {
    NodeIsChosen(servers, node);
    hide NodeServerId;
  }

  lemma MarkedLinks(f: Fleet, id: Option<nat>)
    requires SoundFleet(f)
    ensures SoundFleet(f.(servers := Marked(f.servers, id)))
  {
    var g := f.(servers := Marked(f.servers, id));
    forall i | 0 <= i < |f.servers| ensures g.servers[i].id == f.servers[i].id && g.servers[i].parent == f.servers[i].parent {}
    assert Keyed(g);
    SameLinks(f, g);
  }

  lemma SameLinks(f: Fleet, g: Fleet)
    requires |f.servers| == |g.servers|
    requires forall i :: 0 <= i < |f.servers| ==> g.servers[i].id == f.servers[i].id && g.servers[i].parent == f.servers[i].parent
    ensures Links(f) == Links(g) && Ids(f) == Ids(g)
  {
    forall s | s in f.servers ensures exists t :: t in g.servers && t.id == s.id && t.parent == s.parent {
      var i :| 0 <= i < |f.servers| && f.servers[i] == s;
      assert g.servers[i] in g.servers;
    }
    forall t | t in g.servers ensures exists s :: s in f.servers && t.id == s.id && t.parent == s.parent {
      var i :| 0 <= i < |g.servers| && g.servers[i] == t;
      assert f.servers[i] in f.servers;
    }
  }

  /** A new host under an existing one, or under none, keeps the links sound. */
  lemma AddedLinks(f: Fleet, s: Server)
    requires forall t :: t in f.servers ==> t.id != s.id
    requires s.parent.Some? ==> exists t :: t in f.servers && t.id == s.parent.value
    ensures SoundFleet(f) ==> SoundFleet(f.(servers := Marked(f.servers + [s], s.parent)))
  {
    if SoundFleet(f) {
      HostOpKeepsLinks(f, HostOp.AddHost(s));
      MarkedLinks(f.(servers := f.servers + [s]), s.parent);
    }
  }

  lemma {:induction false} PickedLinks(f: Fleet, registered: set<string>, picks: seq<Pick>, freshId: nat, parent: Option<nat>, here: string)
    requires forall s :: s in f.servers ==> s.id < freshId
    requires parent.Some? ==> exists t :: t in f.servers && t.id == parent.value
    ensures SoundFleet(f) ==> SoundFleet(f.(servers := Picked(f.servers, registered, picks, freshId, parent, here)))
  {
    hide Picked, VmidsOf, SoundFleet, ContainerHost, Marked, Registers;
    if picks == [] {
      NothingPicked(f.servers, registered, freshId, parent, here);
    } else {
      var n := |picks| - 1;
      PickedLinks(f, registered, picks[..n], freshId, parent, here);
      PickedExact(f.servers, registered, picks[..n], freshId, parent, here);
      PickedNext(f.servers, registered, picks, n, freshId, parent, here);
      assert picks[..n + 1] == picks;
      var before := Picked(f.servers, registered, picks[..n], freshId, parent, here);
      var s := ContainerHost(before, freshId + n, picks[n], parent, here);
      ContainerIs(before, freshId + n, picks[n], parent, here);
      RegisteredIds(f.servers, before, parent, freshId, freshId + n);
      AddedLinks(f.(servers := before), s);
    }
  }

  lemma PickerKeepsLinks(f: Fleet, registered: set<string>, picks: seq<Pick>, freshId: nat, here: string)
    requires forall s :: s in f.servers ==> s.id < freshId
    ensures SoundFleet(f) ==> SoundFleet(f.(servers := Picked(f.servers, registered, picks, freshId, NodeServerId(f.servers, ""), here)))
  {
    NodeIsChosen(f.servers, "");
    PickedLinks(f, registered, picks, freshId, NodeServerId(f.servers, ""), here);
  }

  lemma RegisteredIds(servers: seq<Server>, r: seq<Server>, parent: Option<nat>, lo: nat, hi: nat)
    requires Registers(servers, r, parent, lo, hi) && (forall s :: s in servers ==> s.id < lo) && lo <= hi
    requires parent.Some? ==> exists t :: t in servers && t.id == parent.value
    ensures forall t :: t in r ==> t.id < hi
    ensures parent.Some? ==> exists t :: t in r && t.id == parent.value
  {
    forall t | t in r ensures t.id < hi {
      var i :| 0 <= i < |r| && r[i] == t;
      if i < |servers| { assert servers[i] in servers && Kept(servers[i], r[i]); }
    }
    if parent.Some? {
      var t :| t in servers && t.id == parent.value;
      var i :| 0 <= i < |servers| && servers[i] == t;
      assert Kept(servers[i], r[i]) && r[i] in r && r[i].id == parent.value;
    }
  }

  // ---------------------------------------------------------------- what adding and deleting a host change

  /** A guest is of the type given, a virtual machine without one, on the node given or else on this one; any other host
      has no type and no node. */
  lemma NewHostLaw(servers: seq<Server>, id: nat, name: string, connection: string, isGuest: bool, guestType: string, node: string, here: string)
    ensures var s := NewHost(servers, id, name, connection, isGuest, guestType, node, here);
      && s.id == id && s.name == Text.Strip(name) && s.connection == connection && s.virtKind == ""
      && (!isGuest ==> s.guestType == "" && s.node == "" && s.parent == None)
      && (isGuest && Text.Strip(guestType) == "" ==> s.guestType == "qemu")
      && (isGuest && Text.Strip(guestType) != "" ==> s.guestType == Text.Strip(guestType))
      && (isGuest && Text.Strip(node) == "" ==> s.node == here)
      && (isGuest && Text.Strip(node) != "" ==> s.node == Text.Strip(node))
  {
  }

  ghost predicate HasName(servers: seq<Server>, name: string) { exists s :: s in servers && s.name == name }

  /** A picked container is a guest of this node under the picked name, or one made of its vmid, with the vmid after it
      if the name is taken; the host it goes under is marked. One that is registered is skipped. */
  lemma PickLaw(servers: seq<Server>, registered: set<string>, pick: Pick, freshId: nat, parent: Option<nat>, here: string)
    ensures var r := Picked(servers, registered, [pick], freshId, parent, here);
      if pick.0 == "" || pick.0 in registered then r == servers
      else
        && |r| == |servers| + 1
        && (forall i :: 0 <= i < |servers| ==>
              r[i] == if parent == Some(servers[i].id) && servers[i].virtKind == "" then servers[i].(virtKind := "proxmox") else servers[i])
        && var s := r[|servers|];
        && s.id == freshId && s.parent == parent && s.guestType == "lxc" && s.connection == "proxmox" && s.node == here
        && var name := if Text.Strip(pick.1) == "" then "ct" + pick.0 else Text.Strip(pick.1);
           s.name == if HasName(servers, name) then name + "-" + pick.0 else name
  {
    hide Picked, VmidsOf, ContainerHost, Marked;
    NothingPicked(servers, registered, freshId, parent, here);
    assert [pick][..0] == [] && [pick][..1] == [pick];
    PickedNext(servers, registered, [pick], 0, freshId, parent, here);
    PickedHostIs(servers, freshId, pick, parent, here);
    MarkedOne(servers, ContainerHost(servers, freshId, pick, parent, here), parent);
  }

  lemma MarkedOne(servers: seq<Server>, s: Server, parent: Option<nat>)
    ensures var r := Marked(servers + [s], parent);
      && |r| == |servers| + 1 && r[|servers|] == s.(virtKind := r[|servers|].virtKind)
      && forall i :: 0 <= i < |servers| ==>
           r[i] == if parent == Some(servers[i].id) && servers[i].virtKind == "" then servers[i].(virtKind := "proxmox") else servers[i]
  {
  }

  lemma PickedHostIs(servers: seq<Server>, id: nat, pick: Pick, parent: Option<nat>, here: string)
    ensures var s := ContainerHost(servers, id, pick, parent, here);
      && s.id == id && s.parent == parent && s.guestType == "lxc" && s.connection == "proxmox" && s.node == here && s.virtKind == ""
      && var name := if Text.Strip(pick.1) == "" then "ct" + pick.0 else Text.Strip(pick.1);
         s.name == if HasName(servers, name) then name + "-" + pick.0 else name
  {
    var name := if Text.Strip(pick.1) == "" then "ct" + pick.0 else Text.Strip(pick.1);
    assert NameUsed(servers, name) <==> HasName(servers, name);
  }

  /** Deleting a host takes it out with its containers and memberships, leaves its guests without a parent, and touches
      nothing else; there is nothing to do for an unknown id. */
  lemma DeleteLaw(f: Fleet, id: nat)
    requires Keyed(f)
    ensures var g := ApplyHost(f, HostOp.DeleteHost(id));
      if forall s :: s in f.servers ==> s.id != id then g == f
      else
        && (forall t :: t in g.servers <==> exists s :: s in f.servers && s.id != id && t == Orphaned(s, id))
        && Distinct(ServerId, g.servers) && |g.servers| == |f.servers| - 1
        && (forall c :: c in g.containers <==> c in f.containers && c.host != id)
        && (forall m :: m in g.members <==> m in f.members && m.1 != id)
        && g.groups == f.groups && g.edges == f.edges
  {
    hide Detached, Filter, Removed;
    ContainersLeft(f, id);
    DetachedExact(f.servers, id);
    if s :| s in f.servers && s.id == id {
      var k :| 0 <= k < |f.servers| && f.servers[k] == s;
      DetachedLength(f.servers, id, k);
    }
    RemovedIs(f, id);
  }

  lemma ContainersLeft(f: Fleet, id: nat)
    ensures forall c :: c in Filter(RunsElsewhere(id), f.containers) <==> c in f.containers && c.host != id
  {
    forall c ensures c in Filter(RunsElsewhere(id), f.containers) <==> c in f.containers && c.host != id {
      FilterMember(RunsElsewhere(id), f.containers, c);
    }
  }

  lemma RemovedIs(f: Fleet, id: nat)
    ensures var g := Removed(f, id);
      && g.servers == Detached(f.servers, id) && g.containers == Filter(RunsElsewhere(id), f.containers)
      && (forall m :: m in g.members <==> m in f.members && m.1 != id) && g.groups == f.groups && g.edges == f.edges
  {
    hide Detached, Filter;
  }

  function Orphaned(s: Server, id: nat): Server { if s.parent == Some(id) then s.(parent := None) else s }

  lemma DetachedNext(servers: seq<Server>, id: nat)
    requires servers != []
    ensures var n := |servers| - 1; |Detached(servers, id)| == |Detached(servers[..n], id)| + if servers[n].id == id then 0 else 1
  {
  }

  lemma {:induction false} DetachedNone(servers: seq<Server>, id: nat)
    requires forall i :: 0 <= i < |servers| ==> servers[i].id != id
    ensures |Detached(servers, id)| == |servers|
  {
    if servers != [] {
      DetachedNext(servers, id);
      hide Detached;
      DetachedNone(servers[..|servers| - 1], id);
    }
  }

  lemma {:induction false} DetachedLength(servers: seq<Server>, id: nat, k: nat)
    requires Distinct(ServerId, servers) && k < |servers| && servers[k].id == id
    ensures |Detached(servers, id)| == |servers| - 1
  {
    var n := |servers| - 1;
    DetachedNext(servers, id);
    hide Detached;
    if k < n {
      assert ServerId(servers[k]) != ServerId(servers[n]);
      DetachedLength(servers[..n], id, k);
    } else {
      forall i | 0 <= i < n ensures servers[i].id != id { assert ServerId(servers[i]) != ServerId(servers[n]); }
      DetachedNone(servers[..n], id);
    }
  }
}
