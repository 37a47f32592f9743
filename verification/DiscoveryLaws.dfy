/** What a scan, a probe and a decision write (webpanel/app/discovery.py, webpanel/app/netscan.py,
    webpanel/app/routers/hosts.py), said of the rows and the hosts field by field. */
module DiscoveryLaws {
  import opened Options
  import opened Text
  import opened Discovery
  import opened DiscoveryFacts
  import opened DiscoveryRuns

  // ---------------------------------------------------------------- finds

  /** A row for an unregistered host that is this very guest, or answers at this very address. */
  predicate IsAbout(d: Disc, f: Find) {
    && d.kind.NewHost?
    && match f
       case OfGuest(g) => d.source == "proxmox" && d.vmid == Some(g.vmid)
       case OfAddress(ip, _) => d.source == "network" && d.address == Some(ip)
  }

  /** The name as it is stored: without white space around it, none if nothing is left. */
  predicate Called(name: Option<string>, given: string) {
    if Strip(given) == "" then name == None else name == Some(Strip(given))
  }

  /** The row of something that was not on record. */
  predicate NewRow(d: Disc, f: Find, node: Option<string>, now: int) {
    && IsAbout(d, f) && d.status.Pending? && d.lastSeen == now
    && d.resolvedAt == None && d.serverId == None && d.oldName == None && d.newName == None
    && match f
       case OfGuest(g) =>
         Called(d.name, g.name) && d.guestType == Some(g.guestType) && d.statusText == Some(g.status) && d.node == node && d.address == None
       case OfAddress(_, name) => d.name == Some(name) && d.vmid == None && d.guestType == None && d.statusText == None && d.node == None
  }

  /** A row `e` seen once more becomes `d`: a guest's name, type and state are those of today, and a node is filled in if
      there was none; of an address only the time changes. */
  predicate SeenAgain(d: Disc, e: Disc, f: Find, node: Option<string>, now: int) {
    && d.(lastSeen := 0, name := None, guestType := None, statusText := None, node := None)
       == e.(lastSeen := 0, name := None, guestType := None, statusText := None, node := None)
    && d.lastSeen == now
    && match f
       case OfGuest(g) =>
         && Called(d.name, g.name) && d.guestType == Some(g.guestType) && d.statusText == Some(g.status)
         && d.node == if e.node.Some? && e.node.value != "" then e.node else if node.Some? && node.value != "" then node else e.node
       case OfAddress(_, _) => d == e.(lastSeen := now)
  }

  lemma AboutIs(d: Disc, f: Find)
    requires f.Key() != ""
    ensures About(d) == Some(Tag(f)) <==> IsAbout(d, f)
  {
  }

  lemma FreshIs(id: nat, f: Find, node: Option<string>, now: int)
    ensures NewRow(Fresh(id, f, node, now), f, node, now) && Fresh(id, f, node, now).id == id
  {
  }

  lemma RefreshedIs(e: Disc, f: Find, node: Option<string>, now: int)
    ensures SeenAgain(Refreshed(e, f, node, now), e, f, node, now)
  {
  }

  /** One find changes nothing but the row about it. */
  lemma OneFind(was: Book, b: Book, managed: set<string>, news: seq<Find>, f: Find, node: Option<string>, now: int)
    requires Extends(was, b, news) && OneRowEach(was.rows)
    ensures var r := MergedOne(b, was.rows, managed, f, node, now);
      && |was.rows| <= |r.rows|
      && (forall i: nat :: i < |was.rows| && !(Concerns(f, managed) && IsAbout(was.rows[i], f)) ==> r.rows[i] == b.rows[i])
      && (forall i: nat :: i < |was.rows| && Concerns(f, managed) && IsAbout(was.rows[i], f) ==>
           if b.rows[i].status.Pending? then SeenAgain(r.rows[i], b.rows[i], f, node, now) else r.rows[i] == b.rows[i])
      && (forall i: nat :: |was.rows| <= i < |b.rows| ==> r.rows[i] == b.rows[i])
      && (IsNew(was.rows, managed, f) ==> r.rows == b.rows + [r.rows[|b.rows|]] && NewRow(r.rows[|b.rows|], f, node, now))
  {
    if Concerns(f, managed) {
      forall i: nat | i < |was.rows| ensures About(was.rows[i]) == Some(Tag(f)) <==> IsAbout(was.rows[i], f) { AboutIs(was.rows[i], f); }
      FreshIs(b.nextId, f, node, now);
      var k := RowAbout(was.rows, f.Source(), f.Key());
      if k.Some? { RefreshedIs(b.rows[k.value], f, node, now); }
      hide About, IsAbout, Fresh, Refreshed, NewRow, SeenAgain, Updates, Announces;
      assert k.Some? ==> About(was.rows[k.value]) == Some(Tag(f));
    }
  }

  ghost predicate Mentioned(d: Disc, managed: set<string>, finds: seq<Find>) {
    exists f :: f in finds && Concerns(f, managed) && IsAbout(d, f)
  }

  /** What all finds together leave of the rows there were. */
  ghost predicate Leaves(was: Book, r: Book, managed: set<string>, finds: seq<Find>, node: Option<string>, now: int) {
    && |was.rows| <= |r.rows|
    && (forall i: nat :: i < |was.rows| && (!was.rows[i].status.Pending? || !Mentioned(was.rows[i], managed, finds)) ==> r.rows[i] == was.rows[i])
    && (forall i: nat, f :: i < |was.rows| && was.rows[i].status.Pending? && f in finds && Concerns(f, managed) && IsAbout(was.rows[i], f) ==>
          SeenAgain(r.rows[i], was.rows[i], f, node, now))
  }

  ghost predicate AddsRows(was: Book, r: Book, news: seq<Find>, node: Option<string>, now: int) {
    |r.rows| == |was.rows| + |news| && forall i: nat :: i < |news| ==> NewRow(r.rows[|was.rows| + i], news[i], node, now)
  }

  lemma {:induction false} AllFinds(b: Book, managed: set<string>, finds: seq<Find>, node: Option<string>, now: int)
    requires OneRowEach(b.rows) && ListedOnce(finds)
    ensures Leaves(b, Merged(b, managed, finds, node, now), managed, finds, node, now)
    ensures AddsRows(b, Merged(b, managed, finds, node, now), NewOnes(b.rows, managed, finds), node, now)
  {
    if finds != [] {
      var (init, f) := (finds[..|finds| - 1], finds[|finds| - 1]);
      AllFinds(b, managed, init, node, now);
      MergedExtends(b, managed, init, node, now);
      MergedNext(b, managed, finds, node, now);
      hide Merged, MergedOne, NewOnes, Leaves, AddsRows, Extends, OneRowEach, ListedOnce, IsNew;
      NextFind(b, Merged(b, managed, init, node, now), managed, finds, node, now);
    } else {
      assert Merged(b, managed, finds, node, now) == b;
    }
  }

  lemma MergedNext(b: Book, managed: set<string>, finds: seq<Find>, node: Option<string>, now: int)
    requires finds != []
    ensures var (init, f) := (finds[..|finds| - 1], finds[|finds| - 1]);
      && Merged(b, managed, finds, node, now) == MergedOne(Merged(b, managed, init, node, now), b.rows, managed, f, node, now)
      && NewOnes(b.rows, managed, finds) == NewOnes(b.rows, managed, init) + if IsNew(b.rows, managed, f) then [f] else []
  {
    hide MergedOne, IsNew;
  }

  lemma NextFind(b: Book, m: Book, managed: set<string>, finds: seq<Find>, node: Option<string>, now: int)
    requires OneRowEach(b.rows) && ListedOnce(finds) && finds != [] && |b.rows| <= |m.rows|
    requires Leaves(b, m, managed, finds[..|finds| - 1], node, now)
    requires AddsRows(b, m, NewOnes(b.rows, managed, finds[..|finds| - 1]), node, now)
    requires Extends(b, m, NewOnes(b.rows, managed, finds[..|finds| - 1]))
    ensures var r := MergedOne(m, b.rows, managed, finds[|finds| - 1], node, now);
      && Leaves(b, r, managed, finds, node, now)
      && AddsRows(b, r, NewOnes(b.rows, managed, finds[..|finds| - 1]) + if IsNew(b.rows, managed, finds[|finds| - 1]) then [finds[|finds| - 1]] else [], node, now)
  {
    hide MergedOne, NewOnes, Extends, IsNew, OneRowEach, IsAbout, NewRow, SeenAgain, ListedOnce, Concerns, Leaves, AddsRows;
    var (init, f) := (finds[..|finds| - 1], finds[|finds| - 1]);
    var news := NewOnes(b.rows, managed, init);
    var r := MergedOne(m, b.rows, managed, f, node, now);
    OneFind(b, m, managed, news, f, node, now);
    ExtendsOne(b, m, managed, news, f, node, now);
    ExtendsLength(b, r, news + if IsNew(b.rows, managed, f) then [f] else []);
    forall g, i: nat | g in init && Concerns(g, managed) && Concerns(f, managed) && i < |b.rows| && IsAbout(b.rows[i], g)
      ensures !IsAbout(b.rows[i], f)
    {
      ConcernsKeyed(g, managed);
      OthersAbout(finds, g, b.rows[i]);
    }
    OneMore(b, m, r, managed, init, f, node, now);
    AddsOne(b, m, r, news, IsNew(b.rows, managed, f), f, node, now);
    assert finds == init + [f];
  }

  lemma AddsOne(b: Book, m: Book, r: Book, news: seq<Find>, isNew: bool, f: Find, node: Option<string>, now: int)
    requires AddsRows(b, m, news, node, now) && |r.rows| == |b.rows| + |news| + if isNew then 1 else 0
    requires forall i: nat :: |b.rows| <= i < |m.rows| ==> r.rows[i] == m.rows[i]
    requires isNew ==> r.rows == m.rows + [r.rows[|m.rows|]] && NewRow(r.rows[|m.rows|], f, node, now)
    ensures AddsRows(b, r, news + if isNew then [f] else [], node, now)
  {
    hide NewRow;
    var all := news + if isNew then [f] else [];
    forall i: nat | i < |all| ensures NewRow(r.rows[|b.rows| + i], all[i], node, now) {
      if i < |news| { assert r.rows[|b.rows| + i] == m.rows[|b.rows| + i]; }
    }
  }

  lemma ExtendsLength(was: Book, b: Book, news: seq<Find>)
    requires Extends(was, b, news)
    ensures |b.rows| == |was.rows| + |news|
  {
  }

  lemma ConcernsKeyed(f: Find, managed: set<string>)
    requires Concerns(f, managed)
    ensures f.Key() != ""
  {
  }

  lemma OthersAbout(finds: seq<Find>, g: Find, d: Disc)
    requires ListedOnce(finds) && finds != [] && g in finds[..|finds| - 1] && IsAbout(d, g) && g.Key() != ""
    ensures !IsAbout(d, finds[|finds| - 1])
  {
    var i :| 0 <= i < |finds| - 1 && finds[i] == g;
    assert Tag(finds[i]) != Tag(finds[|finds| - 1]);
  }

  lemma OneMore(b: Book, m: Book, r: Book, managed: set<string>, init: seq<Find>, f: Find, node: Option<string>, now: int)
    requires Leaves(b, m, managed, init, node, now) && |b.rows| <= |r.rows|
    requires forall i: nat :: i < |b.rows| && !(Concerns(f, managed) && IsAbout(b.rows[i], f)) ==> r.rows[i] == m.rows[i]
    requires forall i: nat :: i < |b.rows| && Concerns(f, managed) && IsAbout(b.rows[i], f) ==>
      if m.rows[i].status.Pending? then SeenAgain(r.rows[i], m.rows[i], f, node, now) else r.rows[i] == m.rows[i]
    requires forall g, i: nat :: g in init && Concerns(g, managed) && Concerns(f, managed) && i < |b.rows| && IsAbout(b.rows[i], g) ==> !IsAbout(b.rows[i], f)
    ensures Leaves(b, r, managed, init + [f], node, now)
  {
    hide IsAbout, SeenAgain, Concerns;
    var finds := init + [f];
    assert forall g :: g in finds <==> g in init || g == f;
    forall i: nat | i < |b.rows| ensures Mentioned(b.rows[i], managed, finds) <==>
      Mentioned(b.rows[i], managed, init) || (Concerns(f, managed) && IsAbout(b.rows[i], f)) { }
  }

  // ---------------------------------------------------------------- sweeps

  /** The rows after a sweep, one by one: decided rows stay, rows about a host that is managed by now are confirmed, rows
      about what was found are brought up to date, all other rows stay. */
  lemma SweepLaw(b: Book, source: string, managed: set<string>, finds: seq<Find>, node: Option<string>, now: int, i: nat)
    requires OneRowEach(b.rows) && ListedOnce(finds) && i < |b.rows|
    ensures var (e, r) := (b.rows[i], Swept(b, source, managed, finds, node, now).rows);
      && i < |r|
      && (!e.status.Pending? ==> r[i] == e)
      && (e.status.Pending? && About(e).Some? && About(e).value.0 == source && About(e).value.1 in managed && !Mentioned(e, managed, finds) ==>
           r[i] == e.(status := Confirmed, resolvedAt := Some(now), lastSeen := now))
      && (e.status.Pending? && !(About(e).Some? && About(e).value.0 == source && About(e).value.1 in managed) && !Mentioned(e, managed, finds) ==> r[i] == e)
      && (forall f :: e.status.Pending? && f in finds && Concerns(f, managed) && f.Source() == source && IsAbout(e, f) ==> SeenAgain(r[i], e, f, node, now))
  {
    var (e, m) := (b.rows[i], Merged(b, managed, finds, node, now));
    AllFinds(b, managed, finds, node, now);
    MergedExtends(b, managed, finds, node, now);
    assert Updates(m.rows[i], e);
    if About(e).Some? { RowAboutUnique(b.rows, i); }
    forall f | f in finds && Concerns(f, managed) && IsAbout(e, f) ensures About(e) == Some(Tag(f)) { AboutIs(e, f); }
    hide Merged, Extends, Updates, About, IsAbout, SeenAgain;
  }

  /** The rows a sweep adds: one for each new find, in order. */
  lemma SweepAdds(b: Book, source: string, managed: set<string>, finds: seq<Find>, node: Option<string>, now: int)
    requires OneRowEach(b.rows) && ListedOnce(finds)
    ensures AddsRows(b, Swept(b, source, managed, finds, node, now), NewOnes(b.rows, managed, finds), node, now)
  {
    hide Merged, IsNew, NewRow, About;
    AllFinds(b, managed, finds, node, now);
  }

  lemma SweepFinds(b: Book, source: string, managed: set<string>, finds: seq<Find>, node: Option<string>, now: int, f: Find)
    requires OneRowEach(b.rows) && ListedOnce(finds) && f in finds && Concerns(f, managed) && f.Source() == source
    ensures var r := Swept(b, source, managed, finds, node, now).rows;
      && ((forall e :: e in b.rows ==> !IsAbout(e, f)) ==> exists d :: d in r && NewRow(d, f, node, now))
      && (forall e :: e in b.rows && IsAbout(e, f) && e.status.Pending? ==> exists d :: d in r && SeenAgain(d, e, f, node, now))
  {
    var r := Swept(b, source, managed, finds, node, now).rows;
    forall e | e in b.rows && IsAbout(e, f) && e.status.Pending? ensures exists d :: d in r && SeenAgain(d, e, f, node, now) {
      var i :| 0 <= i < |b.rows| && b.rows[i] == e;
      SweepLaw(b, source, managed, finds, node, now, i);
      assert r[i] in r;
    }
    if forall e :: e in b.rows ==> !IsAbout(e, f) {
      forall i: nat | i < |b.rows| ensures About(b.rows[i]) != Some(Tag(f)) { AboutIs(b.rows[i], f); assert b.rows[i] in b.rows; }
      NewOnesNew(b.rows, managed, finds, f);
      var news := NewOnes(b.rows, managed, finds);
      var i :| 0 <= i < |news| && news[i] == f;
      SweepAdds(b, source, managed, finds, node, now);
      assert r[|b.rows| + i] in r;
    }
  }

  // ---------------------------------------------------------------- scans of the node

  /** The node that new guests are put on record with: the first one a managed host names. */
  lemma {:induction false} NodeLaw(servers: seq<Server>, i: nat)
    requires i <= |servers| && forall j :: 0 <= j < i ==> servers[j].node == None || servers[j].node == Some("")
    ensures i == |servers| ==> NodeOf(servers) == None
    ensures i < |servers| && servers[i].node.Some? && servers[i].node.value != "" ==> NodeOf(servers) == servers[i].node
  {
    if servers != [] && i > 0 { NodeLaw(servers[1..], i - 1); }
  }

  lemma VmidsAre(servers: seq<Server>, v: string)
    ensures v in Vmids(servers) <==> v != "" && exists s :: s in servers && s.vmid == Some(v)
  {
    if s :| s in servers && s.vmid == Some(v) && v != "" { assert Given(s.vmid) && s.vmid.value == v; }
  }

  lemma AddressesAre(servers: seq<Server>, a: string)
    ensures a in Addresses(servers) <==> a != "" && exists s :: s in servers && s.address == Some(a)
  {
    if s :| s in servers && s.address == Some(a) && a != "" { assert Given(s.address) && s.address.value == a; }
  }

  /** After a scan of the node a guest that no managed host stands for has the row it should have: a new one if there was
      none, else the one there was brought up to date, unless that is decided. */
  lemma ScanLaw(b: Book, servers: seq<Server>, guests: seq<Guest>, now: int, g: Guest)
    requires Tidy(b) && ListedOnce(Guests(guests)) && g in guests && g.vmid != "" && forall s :: s in servers ==> s.vmid != Some(g.vmid)
    ensures var r := Scanned(b, servers, guests, now).rows;
      && ((forall e :: e in b.rows ==> !IsAbout(e, OfGuest(g))) ==> exists d :: d in r && NewRow(d, OfGuest(g), NodeOf(servers), now))
      && (forall e :: e in b.rows && IsAbout(e, OfGuest(g)) && e.status.Pending? ==> exists d :: d in r && SeenAgain(d, e, OfGuest(g), NodeOf(servers), now))
  {
    var n := NamesReconciled(b, servers, ByNode(guests), now);
    NamesTidy(b, servers, ByNode(guests), now);
    forall e: Disc | e.kind.NewHost? ensures e in n.rows <==> e in b.rows { NamesKeepOthers(b, servers, ByNode(guests), now, e); }
    VmidsAre(servers, g.vmid);
    var i :| 0 <= i < |guests| && guests[i] == g;
    assert Guests(guests)[i] == OfGuest(g);
    hide Swept, NamesReconciled, NodeOf, Vmids, OneRowEach, ListedOnce, SeenAgain, NewRow;
    SweepFinds(n, "proxmox", Vmids(servers), Guests(guests), NodeOf(servers), now, OfGuest(g));
  }

  /** A pending row about a guest that a managed host stands for by now is confirmed by the scan. */
  lemma ScanConfirms(b: Book, servers: seq<Server>, guests: seq<Guest>, now: int, e: Disc, s: Server)
    requires Tidy(b) && ListedOnce(Guests(guests)) && guests != [] && e in b.rows && e.kind.NewHost? && e.status.Pending? && e.source == "proxmox"
    requires s in servers && e.vmid == s.vmid && s.vmid.Some? && s.vmid.value != ""
    ensures e.(status := Confirmed, resolvedAt := Some(now), lastSeen := now) in Scanned(b, servers, guests, now).rows
  {
    var n := NamesReconciled(b, servers, ByNode(guests), now);
    NamesTidy(b, servers, ByNode(guests), now);
    NamesKeepOthers(b, servers, ByNode(guests), now, e);
    VmidsAre(servers, s.vmid.value);
    assert About(e) == Some(("proxmox", s.vmid.value));
    forall f | f in Guests(guests) && Concerns(f, Vmids(servers)) ensures !IsAbout(e, f) { }
    var i :| 0 <= i < |n.rows| && n.rows[i] == e;
    hide Swept, NamesReconciled, NodeOf, Vmids, OneRowEach, ListedOnce, SeenAgain, About;
    SweepLaw(n, "proxmox", Vmids(servers), Guests(guests), NodeOf(servers), now, i);
    assert Scanned(b, servers, guests, now).rows[i] == e.(status := Confirmed, resolvedAt := Some(now), lastSeen := now);
  }

  /** The same of a sweep of the network and the addresses that answered. */
  lemma NetScanLaw(b: Book, servers: seq<Server>, targets: seq<string>, open: seq<Find>, now: int, f: Find)
    requires Tidy(b) && ListedOnce(open) && targets != [] && f in open && f.OfAddress? && f.ip != "" && forall s :: s in servers ==> s.address != Some(f.ip)
    ensures var r := NetScanned(b, servers, targets, open, now).rows;
      && ((forall e :: e in b.rows ==> !IsAbout(e, f)) ==> exists d :: d in r && NewRow(d, f, None, now))
      && (forall e :: e in b.rows && IsAbout(e, f) && e.status.Pending? ==> e.(lastSeen := now) in r)
  {
    AddressesAre(servers, f.ip);
    hide Swept, Addresses, OneRowEach, ListedOnce, NewRow;
    SweepFinds(b, "network", Addresses(servers), open, None, now, f);
    var r := NetScanned(b, servers, targets, open, now).rows;
    forall e | e in b.rows && IsAbout(e, f) && e.status.Pending? ensures e.(lastSeen := now) in r {
      var d :| d in r && SeenAgain(d, e, f, None, now);
    }
  }

  // ---------------------------------------------------------------- renames

  /** The node calls a host by the name of the last guest listed under its vmid, without white space around it. */
  lemma {:induction false} NodeCalls(guests: seq<Guest>, srv: Server, i: nat)
    requires i < |guests| && srv.vmid == Some(guests[i].vmid) && guests[i].vmid != ""
    requires forall j :: i < j < |guests| ==> guests[j].vmid != guests[i].vmid
    ensures Live(ByNode(guests), srv) == Some(Strip(guests[i].name))
  {
    var n := |guests| - 1;
    if i < n {
      NodeCalls(guests[..n], srv, i);
      assert GuestAt(guests, srv.vmid.value) == GuestAt(guests[..n], srv.vmid.value);
    }
  }

  /** What the table says about the name of a host when it is called `live`: no pending rename if that is its name, else
      this very rename, unless it was ignored. */
  ghost predicate SaysRename(rows: seq<Disc>, srv: Server, live: string) {
    if live == "" || live == srv.name
    then forall d :: d in rows ==> !(d.kind.NameChange? && d.status.Pending? && d.serverId == Some(srv.id))
    else exists d :: d in rows && d.kind.NameChange? && d.serverId == Some(srv.id) && d.oldName == Some(srv.name) && d.newName == Some(live)
                     && (d.status.Ignored? || (d.status.Pending? && d.name == Some(live)))
  }

  lemma SettledSays(rows: seq<Disc>, srv: Server, live: string)
    requires SettledAs(rows, srv, live)
    ensures SaysRename(rows, srv, live)
  {
    if !Agrees(srv, live) {
      if SomeDeclined(rows, srv, live) {
        var i :| 0 <= i < |rows| && Declined(rows[i], srv, live);
        assert rows[i] in rows;
      } else {
        var i: nat :| i < |rows| && Reflects(rows[i], srv, live);
        assert rows[i] in rows;
      }
    }
  }

  lemma ScanNames(b: Book, servers: seq<Server>, guests: seq<Guest>, now: int, srv: Server, i: nat)
    requires Tidy(b) && DistinctHosts(servers) && srv in servers
    requires i < |guests| && srv.vmid == Some(guests[i].vmid) && guests[i].vmid != ""
    requires forall j :: i < j < |guests| ==> guests[j].vmid != guests[i].vmid
    ensures SaysRename(Scanned(b, servers, guests, now).rows, srv, Strip(guests[i].name))
  {
    var n := NamesReconciled(b, servers, ByNode(guests), now);
    NodeCalls(guests, srv, i);
    NamesSettle(b, servers, ByNode(guests), now, srv);
    hide SettledAs, NamesReconciled, Live;
    SettledSays(n.rows, srv, Strip(guests[i].name));
    forall d: Disc | d.kind.NameChange? ensures d in n.rows <==> d in Scanned(b, servers, guests, now).rows {
      SweptKeepsRenames(n, "proxmox", Vmids(servers), Guests(guests), NodeOf(servers), now, d);
    }
  }

  /** A probe says what a host without a vmid is called that it reaches over ssh or locally. */
  lemma ProbeNames(b: Book, servers: seq<Server>, hostnames: map<string, string>, now: int, srv: Server)
    requires Tidy(b) && DistinctHosts(servers) && srv in servers
    requires srv.name in hostnames && hostnames[srv.name] != "" && srv.connection in {"ssh", "local"} && (srv.vmid == None || srv.vmid == Some(""))
    ensures SaysRename(NamesReconciled(b, servers, ByProbe(hostnames), now).rows, srv, hostnames[srv.name])
  {
    NamesSettle(b, servers, ByProbe(hostnames), now, srv);
    hide SettledAs, NamesReconciled;
    SettledSays(NamesReconciled(b, servers, ByProbe(hostnames), now).rows, srv, hostnames[srv.name]);
  }

  /** Who said so: a rename that was not on record comes from the node or is found over the host's own connection. */
  ghost predicate Sourced(rows: seq<Disc>, from: nat, servers: seq<Server>, naming: Naming, now: int) {
    forall d :: d in rows && d.id >= from ==> exists s :: s in servers && RenameOf(d, s, naming, now)
  }

  predicate RenameOf(d: Disc, s: Server, naming: Naming, now: int) {
    && d.kind.NameChange? && d.status.Pending? && d.serverId == Some(s.id) && d.lastSeen == now && d.resolvedAt == None
    && d.oldName == Some(s.name) && d.newName.Some? && d.name == d.newName
    && d.source == (if naming.ByNode? then "proxmox" else s.connection)
    && d.node == None && d.vmid == None && d.guestType == None && d.statusText == None && d.address == None
  }

  lemma {:induction false} RenameSources(b: Book, servers: seq<Server>, naming: Naming, now: int)
    requires DistinctHosts(servers) && Tidy(b)
    ensures Sourced(NamesReconciled(b, servers, naming, now).rows, b.nextId, servers, naming, now)
    ensures NamesReconciled(b, servers, naming, now).nextId >= b.nextId
  {
    if servers == [] {
      forall d | d in b.rows ensures d.id < b.nextId { }
    } else {
      var (init, srv) := (servers[..|servers| - 1], servers[|servers| - 1]);
      RenameSources(b, init, naming, now);
      var before := NamesReconciled(b, init, naming, now);
      var live := Live(naming, srv);
      assert servers == init + [srv];
      if live.Some? {
        forall d | d in Reconciled(before, srv, live.value, SourceOf(naming, srv), now).rows && d.id >= b.nextId
          ensures exists s :: s in servers && RenameOf(d, s, naming, now)
        {
          RowsComeFrom(before, srv, live.value, naming, now, d);
          assert forall e :: e in before.rows && e.id >= b.nextId ==> !Outstanding(e, srv.id) by {
            NotYetNamed(before.rows, b.nextId, servers, naming, now);
          }
        }
      }
    }
  }

  lemma NotYetNamed(rows: seq<Disc>, from: nat, servers: seq<Server>, naming: Naming, now: int)
    requires DistinctHosts(servers) && servers != [] && Sourced(rows, from, servers[..|servers| - 1], naming, now)
    ensures forall e :: e in rows && e.id >= from ==> !Outstanding(e, servers[|servers| - 1].id)
  {
    forall s | s in servers[..|servers| - 1] ensures s.id != servers[|servers| - 1].id { SameHost(servers, s); }
  }

  lemma SameHost(servers: seq<Server>, s: Server)
    requires DistinctHosts(servers) && servers != [] && s in servers[..|servers| - 1]
    ensures s.id != servers[|servers| - 1].id
  {
    var i :| 0 <= i < |servers| - 1 && servers[i] == s;
  }

  lemma RowsComeFrom(b: Book, srv: Server, live: string, naming: Naming, now: int, d: Disc)
    requires d in Reconciled(b, srv, live, SourceOf(naming, srv), now).rows
    ensures d in b.rows || RenameOf(d, srv, naming, now) || exists e :: e in b.rows && e.id == d.id && Outstanding(e, srv.id)
  {
    if Agrees(srv, live) {
      RestMember(b.rows, srv.id, d);
    } else if !SomeDeclined(b.rows, srv, live) {
      var k := FirstOutstanding(b.rows, srv.id);
      if k < |b.rows| {
        var i :| 0 <= i < |b.rows| && b.rows[k := Retargeted(b.rows[k], srv, live, now)][i] == d;
        assert b.rows[i] in b.rows;
      }
    }
  }

  /** A pending rename that points elsewhere by now is brought up to date in place: it names both names and the time, the
      rest of it stays. */
  lemma RetargetLaw(b: Book, srv: Server, live: string, source: string, now: int, k: nat)
    requires Tidy(b) && live != "" && live != srv.name && k < |b.rows| && Outstanding(b.rows[k], srv.id)
    requires forall d :: d in b.rows ==> !(d.kind.NameChange? && d.status.Ignored? && d.serverId == Some(srv.id) && d.oldName == Some(srv.name) && d.newName == Some(live))
    ensures Reconciled(b, srv, live, source, now).rows ==
      b.rows[k := b.rows[k].(oldName := Some(srv.name), newName := Some(live), name := Some(live), lastSeen := now)]
  {
    assert forall i :: 0 <= i < |b.rows| ==> b.rows[i] in b.rows;
    var j := FirstOutstanding(b.rows, srv.id);
    assert j == k;
  }

  // ---------------------------------------------------------------- decisions

  predicate Taken(servers: seq<Server>, name: string, id: Option<nat>) { exists s :: s in servers && s.name == name && id != Some(s.id) }

  lemma TakenIs(servers: seq<Server>, name: string, id: Option<nat>)
    ensures NameTaken(servers, name, id) <==> Taken(servers, name, id)
  {
  }

  /** The host registered for a guest: below the node, over ssh and disabled if it is a virtual machine, under its own
      name if that is free. */
  predicate Registers(s: Server, d: Disc, servers: seq<Server>, here: string, id: nat) {
    && s.id == id && s.vmid == d.vmid && s.node == Some(here) && s.address == None && s.guestType.Some?
    && s.guestType.value == (if d.guestType.Some? && d.guestType.value != "" then d.guestType.value else "lxc")
    && s.connection == (if s.guestType.value == "qemu" then "ssh" else "proxmox")
    && (s.enabled <==> s.guestType.value != "qemu")
    && d.vmid.Some?
    && var name := if d.name.Some? then Strip(d.name.value) else "";
       && (name != "" && !Taken(servers, name, None) ==> s.name == name)
       && (name != "" && Taken(servers, name, None) ==> s.name == name + "-" + d.vmid.value)
       && (name == "" && s.guestType.value == "qemu" && !Taken(servers, "vm" + d.vmid.value, None) ==> s.name == "vm" + d.vmid.value)
       && (name == "" && s.guestType.value != "qemu" && !Taken(servers, "ct" + d.vmid.value, None) ==> s.name == "ct" + d.vmid.value)
  }

  /** A confirmed rename gives the host the new name, with its vmid or id after it if another host has that name. */
  predicate Renames(t: Server, s: Server, servers: seq<Server>, newName: string) {
    && t == s.(name := t.name)
    && (newName == "" && !Taken(servers, s.name, Some(s.id)) ==> t == s)
    && (newName != "" && !Taken(servers, newName, Some(s.id)) ==> t.name == newName)
    && (newName != "" && Taken(servers, newName, Some(s.id)) ==>
         t.name == newName + "-" + (if s.vmid.Some? && s.vmid.value != "" then s.vmid.value else Decimal(s.id)))
  }

  /** A decision closes the row and says when; the others stay as they are. */
  predicate Closes(was: seq<Disc>, rows: seq<Disc>, k: nat, status: Status, now: int)
    requires k < |was|
  {
    rows == was[k := was[k].(status := status, resolvedAt := Some(now), lastSeen := now)]
  }

  lemma TheRow(b: Book, k: nat)
    requires OrderedIds(b) && k < |b.rows|
    ensures RowWithId(b.rows, b.rows[k].id) == Some(k)
  {
  }

  lemma ConfirmHostLaw(w: World, k: nat, here: string, freshId: nat, now: int)
    requires Tidy(w.book) && k < |w.book.rows| && w.book.rows[k].status.Pending? && w.book.rows[k].kind.NewHost?
    ensures var (d, after) := (w.book.rows[k], ConfirmedIn(w, w.book.rows[k].id, here, freshId, now));
      && Closes(w.book.rows, after.book.rows, k, Confirmed, now)
      && if d.vmid == None || d.vmid == Some("") || exists s :: s in w.servers && s.vmid == d.vmid then after.servers == w.servers
         else |after.servers| == |w.servers| + 1 && after.servers[..|w.servers|] == w.servers && Registers(after.servers[|w.servers|], d, w.servers, here, freshId)
  {
    var d := w.book.rows[k];
    TheRow(w.book, k);
    if Given(d.vmid) {
      VmidsAre(w.servers, d.vmid.value);
      if d.vmid.value !in Vmids(w.servers) { GuestLaw(w.servers, d, here, freshId); }
    }
    hide GuestCreated, Registers, RowWithId, Vmids;
    assert !Given(d.vmid) || d.vmid.value in Vmids(w.servers) ==> GuestCreated(w.servers, d, here, freshId) == w.servers by { NotCreated(w.servers, d, here, freshId); }
  }

  lemma NotCreated(servers: seq<Server>, d: Disc, here: string, freshId: nat)
    ensures !Given(d.vmid) || d.vmid.value in Vmids(servers) ==> GuestCreated(servers, d, here, freshId) == servers
  {
  }

  lemma GuestLaw(servers: seq<Server>, d: Disc, here: string, freshId: nat)
    requires Given(d.vmid) && d.vmid.value !in Vmids(servers)
    ensures var after := GuestCreated(servers, d, here, freshId);
      |after| == |servers| + 1 && after[..|servers|] == servers && Registers(after[|servers|], d, servers, here, freshId)
  {
    var name := if d.name.Some? then Strip(d.name.value) else "";
    TakenIs(servers, name, None);
    TakenIs(servers, "vm" + d.vmid.value, None);
    TakenIs(servers, "ct" + d.vmid.value, None);
    hide NameTaken, Taken;
  }

  lemma ConfirmRenameLaw(w: World, k: nat, here: string, freshId: nat, now: int, j: nat)
    requires Tidy(w.book) && DistinctHosts(w.servers) && k < |w.book.rows| && j < |w.servers|
    requires w.book.rows[k].status.Pending? && w.book.rows[k].kind.NameChange? && w.book.rows[k].serverId == Some(w.servers[j].id)
    ensures var (d, after) := (w.book.rows[k], ConfirmedIn(w, w.book.rows[k].id, here, freshId, now));
      && Closes(w.book.rows, after.book.rows, k, Confirmed, now)
      && |after.servers| == |w.servers| && after.servers == w.servers[j := after.servers[j]]
      && Renames(after.servers[j], w.servers[j], w.servers, if d.newName.Some? then Strip(d.newName.value) else "")
  {
    TheRow(w.book, k);
    HostIsUnique(w.servers, j);
    var d := w.book.rows[k];
    var new_ := if d.newName.Some? then Strip(d.newName.value) else "";
    TakenIs(w.servers, new_, Some(w.servers[j].id));
    TakenIs(w.servers, w.servers[j].name, Some(w.servers[j].id));
    hide NameTaken, Taken, RowWithId, HostWithId;
    assert Strip("") == "";
  }

  /** Ignoring a pending row, or confirming it by hand, closes it and touches nothing else. A decided or unknown row stays
      as it is, and so do the hosts. */
  lemma CloseLaw(w: World, k: nat, status: Status, now: int)
    requires Tidy(w.book) && k < |w.book.rows| && w.book.rows[k].status.Pending?
    ensures var after := ClosedIn(w, w.book.rows[k].id, status, now);
      Closes(w.book.rows, after.book.rows, k, status, now) && after.servers == w.servers && after.book.nextId == w.book.nextId
  {
    TheRow(w.book, k);
    hide RowWithId;
  }

  lemma DecidedStays(w: World, id: nat, status: Status, here: string, freshId: nat, now: int)
    requires Tidy(w.book) && forall d :: d in w.book.rows && d.id == id ==> !d.status.Pending?
    ensures ClosedIn(w, id, status, now) == w && ConfirmedIn(w, id, here, freshId, now) == w
  {
    hide GuestCreated, NameApplied;
    var k := RowWithId(w.book.rows, id);
    assert k.Some? ==> w.book.rows[k.value] in w.book.rows;
  }
}
