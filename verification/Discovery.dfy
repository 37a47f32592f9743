/** Discoveries (webpanel/app/discovery.py, the row handling of webpanel/app/netscan.py): what the rows of the table
    are and what each reconciler does to them. Their long-run properties are in DiscoveryFacts. */
module Discovery {
  import opened Lists
  import opened Options
  import opened Text

  datatype Kind = NewHost | NameChange
  datatype Status = Pending | Confirmed | Ignored

  datatype Disc = Disc(id: nat, kind: Kind, status: Status, source: string, name: Option<string>, node: Option<string>,
                       vmid: Option<string>, guestType: Option<string>, statusText: Option<string>, address: Option<string>,
                       serverId: Option<nat>, oldName: Option<string>, newName: Option<string>, lastSeen: int, resolvedAt: Option<int>)

  datatype Server = Server(id: nat, name: string, connection: string, address: Option<string>, node: Option<string>,
                           vmid: Option<string>, guestType: Option<string>, enabled: bool)

  /** The table in row order, and the next free row id. */
  datatype Book = Book(rows: seq<Disc>, nextId: nat)

  predicate Given(s: Option<string>) { s.Some? && s.value != "" }

  function NonBlank(s: string): Option<string> { if Strip(s) == "" then None else Some(Strip(s)) }

  // ---------------------------------------------------------------- live names

  datatype Guest = Guest(vmid: string, name: string, status: string, guestType: string)

  /** Who says what a host is really called: the node's guest list, or the probe's map from host name to hostname. */
  datatype Naming = ByNode(guests: seq<Guest>) | ByProbe(hostnames: map<string, string>)

  /** The last guest listed under a vmid. */
  function GuestAt(guests: seq<Guest>, vmid: string): Option<Guest> {
    if guests == [] then None
    else if guests[|guests| - 1].vmid == vmid then Some(guests[|guests| - 1])
    else GuestAt(guests[..|guests| - 1], vmid)
  }

  /** The live name to reconcile a host against, if this authority has a say about it. */
  function Live(naming: Naming, srv: Server): Option<string> {
    match naming
    case ByNode(guests) =>
      if !Given(srv.vmid) || GuestAt(guests, srv.vmid.value).None? then None
      else Some(Strip(GuestAt(guests, srv.vmid.value).value.name))
    case ByProbe(hostnames) =>
      if srv.name !in hostnames || hostnames[srv.name] == "" || srv.connection !in {"ssh", "local"} || Given(srv.vmid) then None
      else Some(hostnames[srv.name])
  }

  function SourceOf(naming: Naming, srv: Server): string { if naming.ByNode? then "proxmox" else srv.connection }

  // ---------------------------------------------------------------- renames

  predicate Agrees(srv: Server, live: string) { live == "" || live == srv.name }

  /** A pending rename of this host. */
  predicate Outstanding(d: Disc, host: nat) { d.kind.NameChange? && d.status.Pending? && d.serverId == Some(host) }

  /** The user ignored exactly this transition. */
  predicate Declined(d: Disc, srv: Server, live: string) {
    d.kind.NameChange? && d.status.Ignored? && d.serverId == Some(srv.id) && d.oldName == Some(srv.name) && d.newName == Some(live)
  }

  predicate SomeDeclined(rows: seq<Disc>, srv: Server, live: string) {
    exists i :: 0 <= i < |rows| && Declined(rows[i], srv, live)
  }

  function NotOutstanding(host: nat): Disc -> bool { (d: Disc) => !Outstanding(d, host) }

  /** Everything but the host's pending renames. */
  function Rest(rows: seq<Disc>, host: nat): seq<Disc> { Filter(NotOutstanding(host), rows) }

  /** The position of the host's first pending rename, or the length. */
  function FirstOutstanding(rows: seq<Disc>, host: nat): (k: nat)
    ensures k <= |rows|
    ensures k < |rows| ==> Outstanding(rows[k], host)
    ensures forall i :: 0 <= i < k ==> !Outstanding(rows[i], host)
  {
    if rows == [] then 0
    else
      var init := rows[..|rows| - 1];
      assert forall i :: 0 <= i < |init| ==> rows[i] == init[i];
      var k := FirstOutstanding(init, host);
      if k < |rows| - 1 then k
      else if Outstanding(rows[|rows| - 1], host) then |rows| - 1 else |rows|
  }

  function Rename(id: nat, srv: Server, live: string, source: string, now: int): Disc {
    Disc(id, NameChange, Pending, source, Some(live), None, None, None, None, None, Some(srv.id), Some(srv.name), Some(live), now, None)
  }

  function Retargeted(d: Disc, srv: Server, live: string, now: int): Disc {
    d.(oldName := Some(srv.name), newName := Some(live), name := Some(live), lastSeen := now)
  }

  function Reconciled(b: Book, srv: Server, live: string, source: string, now: int): Book {
    if Agrees(srv, live) then b.(rows := Rest(b.rows, srv.id))
    else if SomeDeclined(b.rows, srv, live) then b
    else
      var k := FirstOutstanding(b.rows, srv.id);
      if k < |b.rows| then b.(rows := b.rows[k := Retargeted(b.rows[k], srv, live, now)])
      else Book(b.rows + [Rename(b.nextId, srv, live, source, now)], b.nextId + 1)
  }

  function NamesReconciled(b: Book, servers: seq<Server>, naming: Naming, now: int): Book {
    if servers == [] then b
    else
      var (before, srv) := (NamesReconciled(b, servers[..|servers| - 1], naming, now), servers[|servers| - 1]);
      match Live(naming, srv)
      case None => before
      case Some(live) => Reconciled(before, srv, live, SourceOf(naming, srv), now)
  }

  // ---------------------------------------------------------------- unregistered hosts

  /** Something a scan came across: a guest of the node, or an address that answers (with its name). */
  datatype Find = OfGuest(guest: Guest) | OfAddress(ip: string, name: string) {
    function Source(): string { if OfGuest? then "proxmox" else "network" }

    function Key(): string { if OfGuest? then guest.vmid else ip }
  }

  /** What a new-host row is about: its source and its vmid or address. */
  function About(d: Disc): Option<(string, string)> {
    if d.kind.NewHost? && d.source == "proxmox" && Given(d.vmid) then Some((d.source, d.vmid.value))
    else if d.kind.NewHost? && d.source == "network" && Given(d.address) then Some((d.source, d.address.value))
    else None
  }

  function Fresh(id: nat, f: Find, node: Option<string>, now: int): Disc {
    match f
    case OfGuest(g) =>
      Disc(id, NewHost, Pending, "proxmox", NonBlank(g.name), node, Some(g.vmid), Some(g.guestType), Some(g.status), None, None, None, None, now, None)
    case OfAddress(ip, name) =>
      Disc(id, NewHost, Pending, "network", Some(name), None, None, None, None, Some(ip), None, None, None, now, None)
  }

  function Refreshed(d: Disc, f: Find, node: Option<string>, now: int): Disc {
    match f
    case OfGuest(g) =>
      d.(name := NonBlank(g.name), statusText := Some(g.status), guestType := Some(g.guestType), lastSeen := now,
      node := if Given(node) && !Given(d.node) then node else d.node)
    case OfAddress(_, _) => d.(lastSeen := now)
  }

  /** The last row about something (a dictionary built in row order keeps the last). */
  function RowAbout(rows: seq<Disc>, source: string, key: string): (k: Option<nat>)
    ensures k.Some? ==> k.value < |rows| && About(rows[k.value]) == Some((source, key))
    ensures k.None? ==> forall i :: 0 <= i < |rows| ==> About(rows[i]) != Some((source, key))
  {
    if rows == [] then None
    else if About(rows[|rows| - 1]) == Some((source, key)) then Some(|rows| - 1)
    else
      var init := rows[..|rows| - 1];
      assert forall i :: 0 <= i < |init| ==> rows[i] == init[i];
      RowAbout(init, source, key)
  }

  /** One find, judged against the rows `was` as they were before the scan; registered keys are skipped. */
  function MergedOne(b: Book, was: seq<Disc>, managed: set<string>, f: Find, node: Option<string>, now: int): Book
    requires |was| <= |b.rows|
  {
    if f.Key() == "" || f.Key() in managed then b
    else
      match RowAbout(was, f.Source(), f.Key())
      case None => Book(b.rows + [Fresh(b.nextId, f, node, now)], b.nextId + 1)
      case Some(k) => if b.rows[k].status.Pending? then b.(rows := b.rows[k := Refreshed(b.rows[k], f, node, now)]) else b
  }

  function Merged(b: Book, managed: set<string>, finds: seq<Find>, node: Option<string>, now: int): (r: Book)
    ensures |r.rows| >= |b.rows|
  {
    if finds == [] then b
    else MergedOne(Merged(b, managed, finds[..|finds| - 1], node, now), b.rows, managed, finds[|finds| - 1], node, now)
  }

  /** A pending row is closed; any write to a row also says that it was seen. */
  function Decide(d: Disc, status: Status, now: int): Disc {
    d.(status := status, resolvedAt := Some(now), lastSeen := now)
  }

  /** The row at `i` was on record as something that is by now a managed host. */
  predicate Overtaken(was: seq<Disc>, rows: seq<Disc>, source: string, managed: set<string>, i: nat)
    requires i < |rows|
  {
    && rows[i].status.Pending? && i < |was| && About(was[i]).Some? && About(was[i]).value.0 == source
    && About(was[i]).value.1 in managed && RowAbout(was, source, About(was[i]).value.1) == Some(i)
  }

  function Resolved(was: seq<Disc>, rows: seq<Disc>, source: string, managed: set<string>, now: int): (r: seq<Disc>)
    ensures |r| == |rows|
    ensures forall i: nat :: i < |rows| ==> r[i] == if Overtaken(was, rows, source, managed, i) then Decide(rows[i], Confirmed, now) else rows[i]
  {
    seq(|rows|, i requires 0 <= i < |rows| => if Overtaken(was, rows, source, managed, i) then Decide(rows[i], Confirmed, now) else rows[i])
  }

  function Swept(b: Book, source: string, managed: set<string>, finds: seq<Find>, node: Option<string>, now: int): Book {
    var m := Merged(b, managed, finds, node, now);
    m.(rows := Resolved(b.rows, m.rows, source, managed, now))
  }

  function Vmids(servers: seq<Server>): set<string> { set s | s in servers && Given(s.vmid) :: s.vmid.value }

  function Addresses(servers: seq<Server>): set<string> { set s | s in servers && Given(s.address) :: s.address.value }

  function NodeOf(servers: seq<Server>): Option<string> {
    if servers == [] then None else if Given(servers[0].node) then servers[0].node else NodeOf(servers[1..])
  }

  function Guests(guests: seq<Guest>): (r: seq<Find>)
    ensures |r| == |guests| && forall i :: 0 <= i < |r| ==> r[i] == OfGuest(guests[i])
  {
    seq(|guests|, i requires 0 <= i < |guests| => OfGuest(guests[i]))
  }

  /** A scan of the node's guest lists. */
  function Scanned(b: Book, servers: seq<Server>, guests: seq<Guest>, now: int): Book {
    if guests == [] then b
    else Swept(NamesReconciled(b, servers, ByNode(guests), now), "proxmox", Vmids(servers), Guests(guests), NodeOf(servers), now)
  }

  /** A sweep of the network that tried some targets, given who answered. */
  function NetScanned(b: Book, servers: seq<Server>, targets: seq<string>, open: seq<Find>, now: int): Book {
    if targets == [] then b else Swept(b, "network", Addresses(servers), open, None, now)
  }

  // ---------------------------------------------------------------- decisions

  /** The hosts and the discoveries. */
  datatype World = World(servers: seq<Server>, book: Book)

  function RowWithId(rows: seq<Disc>, id: nat): (k: Option<nat>)
    ensures k.Some? ==> k.value < |rows| && rows[k.value].id == id
    ensures k.None? ==> forall i :: 0 <= i < |rows| ==> rows[i].id != id
  {
    LastWhere((d: Disc) => d.id == id, rows)
  }

  function HostWithId(servers: seq<Server>, id: nat): (k: Option<nat>)
    ensures k.Some? ==> k.value < |servers| && servers[k.value].id == id
    ensures k.None? ==> forall i :: 0 <= i < |servers| ==> servers[i].id != id
  {
    LastWhere((s: Server) => s.id == id, servers)
  }

  predicate NameTaken(servers: seq<Server>, name: string, otherThan: Option<nat>) {
    exists i :: 0 <= i < |servers| && servers[i].name == name && Some(servers[i].id) != otherThan
  }

  /** `_create_guest_server`: the hosts once the guest of a discovery is registered on node `here`. */
  function GuestCreated(servers: seq<Server>, d: Disc, here: string, freshId: nat): seq<Server> {
    if !Given(d.vmid) || d.vmid.value in Vmids(servers) then servers
    else
      var vmid := d.vmid.value;
      var guestType := if Given(d.guestType) then d.guestType.value else "lxc";
      var base := if Strip(d.name.GetOr("")) != "" then Strip(d.name.GetOr("")) else (if guestType == "qemu" then "vm" else "ct") + vmid;
      var name := if NameTaken(servers, base, None) then base + "-" + vmid else base;
      servers + [Server(freshId, name, if guestType == "qemu" then "ssh" else "proxmox", None, Some(here), Some(vmid), Some(guestType), guestType != "qemu")]
  }

  /** The name a confirmed rename gives a host: the new name, or with a suffix when another host has it. */
  function Candidate(servers: seq<Server>, srv: Server, newName: string): string {
    var new_ := if Strip(newName) != "" then Strip(newName) else srv.name;
    if NameTaken(servers, new_, Some(srv.id)) then new_ + "-" + (if Given(srv.vmid) then srv.vmid.value else Decimal(srv.id)) else new_
  }

  /** `_apply_name_change` */
  function NameApplied(servers: seq<Server>, d: Disc): seq<Server> {
    if d.serverId.None? || HostWithId(servers, d.serverId.value).None? then servers
    else
      var k := HostWithId(servers, d.serverId.value).value;
      servers[k := servers[k].(name := Candidate(servers, servers[k], d.newName.GetOr("")))]
  }

  function Closed(b: Book, k: nat, status: Status, now: int): Book
    requires k < |b.rows|
  {
    b.(rows := b.rows[k := Decide(b.rows[k], status, now)])
  }

  function ConfirmedIn(w: World, id: nat, here: string, freshId: nat, now: int): World {
    var k := RowWithId(w.book.rows, id);
    if k.None? || !w.book.rows[k.value].status.Pending? then w
    else
      var d := w.book.rows[k.value];
      World(if d.kind.NewHost? then GuestCreated(w.servers, d, here, freshId) else NameApplied(w.servers, d), Closed(w.book, k.value, Confirmed, now))
  }

  /** Ignoring a discovery, or confirming it because its host was entered by hand. */
  function ClosedIn(w: World, id: nat, status: Status, now: int): World {
    var k := RowWithId(w.book.rows, id);
    if k.None? || !w.book.rows[k.value].status.Pending? then w else w.(book := Closed(w.book, k.value, status, now))
  }

  // ---------------------------------------------------------------- the reconcilers and handlers

  class Panel {
    var servers: seq<Server>
    var rows: seq<Disc>
    var nextId: nat

    ghost function Now(): Book
      reads this
    {
      Book(rows, nextId)
    }

    ghost function All(): World
      reads this
    {
      World(servers, Now())
    }

    method ReconcileName(srv: Server, live: string, source: string, now: int) returns (emitted: bool)
      modifies this`rows, this`nextId
      ensures Now() == Reconciled(old(Now()), srv, live, source, now)
      ensures emitted <==> nextId > old(nextId)
    {
      if live == "" || live == srv.name {
        var kept: seq<Disc> := [];
        for i := 0 to |rows|
          invariant rows == old(rows) && nextId == old(nextId) && kept == Rest(rows[..i], srv.id)
        {
          assert rows[..i + 1][..i] == rows[..i];
          if !(rows[i].kind.NameChange? && rows[i].serverId == Some(srv.id) && rows[i].status.Pending?) { kept := kept + [rows[i]]; }
        }
        assert rows[..|rows|] == rows;
        rows := kept;
        return false;
      }
      for i := 0 to |rows|
        invariant rows == old(rows) && nextId == old(nextId) && forall j :: 0 <= j < i ==> !Declined(rows[j], srv, live)
      {
        if Declined(rows[i], srv, live) { return false; }
      }
      var k := 0;
      while k < |rows| && !Outstanding(rows[k], srv.id)
        invariant k <= |rows| && forall j :: 0 <= j < k ==> !Outstanding(rows[j], srv.id)
      {
        k := k + 1;
      }
      assert k == FirstOutstanding(rows, srv.id);
      if k < |rows| {
        rows := rows[k := rows[k].(oldName := Some(srv.name), newName := Some(live), name := Some(live), lastSeen := now)];
        return false;
      }
      rows := rows + [Rename(nextId, srv, live, source, now)];
      nextId := nextId + 1;
      return true;
    }

    /** `detect_proxmox_name_changes` and `record_probe_hostnames`: the count of new pending renames. */
    method ReconcileNames(hosts: seq<Server>, naming: Naming, now: int) returns (emitted: nat)
      modifies this`rows, this`nextId
      ensures Now() == NamesReconciled(old(Now()), hosts, naming, now)
      ensures emitted == nextId - old(nextId)
    {
      emitted := 0;
      for i := 0 to |hosts|
        invariant Now() == NamesReconciled(old(Now()), hosts[..i], naming, now)
        invariant emitted == nextId - old(nextId)
      {
        assert hosts[..i + 1][..i] == hosts[..i];
        if Live(naming, hosts[i]).Some? {
          var isNew := ReconcileName(hosts[i], Live(naming, hosts[i]).value, SourceOf(naming, hosts[i]), now);
          if isNew { emitted := emitted + 1; }
        }
      }
      assert hosts[..|hosts|] == hosts;
    }

    /** The loop over what was found. */
    method Merge(was: seq<Disc>, managed: set<string>, finds: seq<Find>, node: Option<string>, now: int) returns (added: nat)
      requires was == rows
      modifies this`rows, this`nextId
      ensures Now() == Merged(old(Now()), managed, finds, node, now)
      ensures added == nextId - old(nextId) == |rows| - |old(rows)|
    {
      added := 0;
      ghost var b := Now();
      hide RowAbout, Fresh, Refreshed, About;
      for j := 0 to |finds|
        invariant Now() == Merged(b, managed, finds[..j], node, now)
        invariant added == nextId - b.nextId == |rows| - |b.rows|
      {
        assert finds[..j + 1][..j] == finds[..j];
        var f := finds[j];
        if f.Key() != "" && f.Key() !in managed {
          var k := RowAbout(was, f.Source(), f.Key());
          if k.None? {
            rows := rows + [Fresh(nextId, f, node, now)];
            nextId := nextId + 1;
            added := added + 1;
          } else if rows[k.value].status.Pending? {
            rows := rows[k.value := Refreshed(rows[k.value], f, node, now)];
          }
        }
      }
      assert finds[..|finds|] == finds;
    }

    /** The loop over what was on record: what is by now a managed host is resolved. */
    method Resolve(was: seq<Disc>, source: string, managed: set<string>, now: int)
      requires |was| <= |rows|
      modifies this`rows
      ensures rows == Resolved(was, old(rows), source, managed, now)
    {
      ghost var merged := rows;
      hide RowAbout, About;
      for i := 0 to |was|
        invariant |rows| == |merged|
        invariant forall j: nat :: i <= j < |rows| ==> rows[j] == merged[j]
        invariant forall j: nat :: j < i ==> rows[j] == Resolved(was, merged, source, managed, now)[j]
      {
        var about := About(was[i]);
        if about.Some? && about.value.0 == source && about.value.1 in managed && rows[i].status.Pending? && RowAbout(was, source, about.value.1) == Some(i) {
          rows := rows[i := rows[i].(status := Confirmed, resolvedAt := Some(now), lastSeen := now)];
        }
      }
      assert rows == Resolved(was, merged, source, managed, now);
    }

    method Sweep(source: string, managed: set<string>, finds: seq<Find>, node: Option<string>, now: int) returns (added: nat)
      modifies this`rows, this`nextId
      ensures Now() == Swept(old(Now()), source, managed, finds, node, now)
      ensures added == nextId - old(nextId) == |rows| - |old(rows)|
    {
      var was := rows;
      added := Merge(was, managed, finds, node, now);
      Resolve(was, source, managed, now);
    }

    method RunDiscovery(guests: seq<Guest>, now: int) returns (renamed: nat, added: nat)
      modifies this`rows, this`nextId
      ensures Now() == Scanned(old(Now()), servers, guests, now)
      ensures renamed + added == nextId - old(nextId)
    {
      renamed, added := 0, 0;
      if guests == [] { return; }
      renamed := ReconcileNames(servers, ByNode(guests), now);
      added := Sweep("proxmox", Vmids(servers), Guests(guests), NodeOf(servers), now);
    }

    method RunNetworkScan(targets: seq<string>, open: seq<Find>, now: int) returns (added: nat)
      modifies this`rows, this`nextId
      ensures Now() == NetScanned(old(Now()), servers, targets, open, now)
      ensures added == nextId - old(nextId)
    {
      added := 0;
      if targets == [] { return; }
      added := Sweep("network", Addresses(servers), open, None, now);
    }

    method ConfirmDiscovery(id: nat, here: string, freshId: nat, now: int)
      modifies this`servers, this`rows
      ensures All() == ConfirmedIn(old(All()), id, here, freshId, now)
    {
      var k := RowWithId(rows, id);
      if k.None? || !rows[k.value].status.Pending? { return; }
      var d := rows[k.value];
      if d.kind.NewHost? {
        CreateGuest(d, here, freshId);
      } else {
        ApplyNameChange(d);
      }
      rows := rows[k.value := d.(status := Confirmed, resolvedAt := Some(now), lastSeen := now)];
    }

    method CreateGuest(d: Disc, here: string, freshId: nat)
      modifies this`servers
      ensures servers == GuestCreated(old(servers), d, here, freshId)
    {
      if !Given(d.vmid) || d.vmid.value in Vmids(servers) { return; }
      var guestType := if Given(d.guestType) then d.guestType.value else "lxc";
      var prefix := if guestType == "qemu" then "vm" else "ct";
      var name := Strip(d.name.GetOr(""));
      if name == "" { name := prefix + d.vmid.value; }
      if NameTaken(servers, name, None) { name := name + "-" + d.vmid.value; }
      var connection := if guestType == "qemu" then "ssh" else "proxmox";
      servers := servers + [Server(freshId, name, connection, None, Some(here), d.vmid, Some(guestType), guestType != "qemu")];
    }

    method ApplyNameChange(d: Disc)
      modifies this`servers
      ensures servers == NameApplied(old(servers), d)
    {
      if d.serverId.None? { return; }
      var k := HostWithId(servers, d.serverId.value);
      if k.None? { return; }
      var srv := servers[k.value];
      var candidate := Candidate(servers, srv, d.newName.GetOr(""));
      if candidate == srv.name {
        assert servers[k.value := srv] == servers;
        return;
      }
      servers := servers[k.value := srv.(name := candidate)];
    }

    method CloseDiscovery(id: nat, status: Status, now: int)
      modifies this`rows
      ensures All() == ClosedIn(old(All()), id, status, now)
    {
      var k := RowWithId(rows, id);
      if k.Some? && rows[k.value].status.Pending? {
        rows := rows[k.value := rows[k.value].(status := status, resolvedAt := Some(now), lastSeen := now)];
      }
    }
  }
}
