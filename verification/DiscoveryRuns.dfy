/** Runs of scans, probes and decisions: the table stays tidy, decisions stick, and a repeated scan finds nothing new. */
module DiscoveryRuns {
  import opened Lists
  import opened Options
  import opened Text
  import opened Discovery
  import opened DiscoveryFacts

  datatype Op =
    | NodeScan(guests: seq<Guest>, now: int)
    | Probe(who: set<nat>, hostnames: map<string, string>, now: int)
    | NetScan(targets: seq<string>, open: seq<Find>, now: int)
    | Confirm(id: nat, here: string, freshId: nat, now: int)
    | Close(id: nat, status: Status, now: int)
    | EditHosts(servers: seq<Server>)
    | DeleteHost(host: nat)

  function Among(servers: seq<Server>, who: set<nat>): seq<Server> {
    if servers == [] then [] else (if servers[0].id in who then [servers[0]] else []) + Among(servers[1..], who)
  }

  /** What is left of the table when a host goes (its discoveries go with it). */
  function NotAbout(host: nat): Disc -> bool { (d: Disc) => d.serverId != Some(host) }

  function Without(rows: seq<Disc>, host: nat): seq<Disc> { Filter(NotAbout(host), rows) }

  function Step(w: World, op: Op): World {
    match op
    case NodeScan(guests, now) => w.(book := Scanned(w.book, w.servers, guests, now))
    case Probe(who, hostnames, now) => w.(book := NamesReconciled(w.book, Among(w.servers, who), ByProbe(hostnames), now))
    case NetScan(targets, open, now) => w.(book := NetScanned(w.book, w.servers, targets, open, now))
    case Confirm(id, here, freshId, now) => ConfirmedIn(w, id, here, freshId, now)
    case Close(id, status, now) => ClosedIn(w, id, status, now)
    case EditHosts(servers) => w.(servers := servers)
    case DeleteHost(host) => w.(book := w.book.(rows := Without(w.book.rows, host)))
  }

  function Run(w: World, ops: seq<Op>): World {
    if ops == [] then w else Step(Run(w, ops[..|ops| - 1]), ops[|ops| - 1])
  }

  /** No vmid and no address is listed twice. */
  ghost predicate ListedOnce(finds: seq<Find>) {
    forall i, j :: 0 <= i < j < |finds| && finds[i].Key() != "" ==> Tag(finds[i]) != Tag(finds[j])
  }

  ghost predicate Sensible(op: Op) {
    match op
    case NodeScan(guests, _) => ListedOnce(Guests(guests))
    case NetScan(_, open, _) => ListedOnce(open)
    case _ => true
  }

  // ---------------------------------------------------------------- the table stays tidy

  lemma {:induction false} NewsOnce(rows: seq<Disc>, managed: set<string>, finds: seq<Find>)
    requires ListedOnce(finds)
    ensures NoneTwice(NewOnes(rows, managed, finds))
  {
    if finds != [] {
      var (init, f) := (finds[..|finds| - 1], finds[|finds| - 1]);
      NewsOnce(rows, managed, init);
      forall g | g in NewOnes(rows, managed, init) ensures Tag(g) != Tag(f) {
        NewOnesNew(rows, managed, init, g);
        var i :| 0 <= i < |init| && init[i] == g;
        assert finds[i] == g;
      }
    }
  }

  lemma ClosedTidy(b: Book, k: nat, status: Status, now: int)
    requires Tidy(b) && k < |b.rows| && b.rows[k].status.Pending?
    ensures Tidy(Closed(b, k, status, now))
  {
    ReplacedTidy(b, k, Decide(b.rows[k], status, now));
  }

  lemma StepTidy(w: World, op: Op)
    requires Tidy(w.book) && Sensible(op)
    ensures Tidy(Step(w, op).book)
  {
    hide Tidy;
    match op
    case NodeScan(guests, now) =>
      NamesTidy(w.book, w.servers, ByNode(guests), now);
      var n := NamesReconciled(w.book, w.servers, ByNode(guests), now);
      NewsOnce(n.rows, Vmids(w.servers), Guests(guests));
      SweepTidyIff(n, "proxmox", Vmids(w.servers), Guests(guests), NodeOf(w.servers), now);
    case Probe(who, hostnames, now) => NamesTidy(w.book, Among(w.servers, who), ByProbe(hostnames), now);
    case NetScan(targets, open, now) =>
      NewsOnce(w.book.rows, Addresses(w.servers), open);
      SweepTidyIff(w.book, "network", Addresses(w.servers), open, None, now);
    case Confirm(id, _, _, now) =>
      var k := RowWithId(w.book.rows, id);
      if k.Some? && w.book.rows[k.value].status.Pending? { ClosedTidy(w.book, k.value, Confirmed, now); }
    case Close(id, status, now) =>
      var k := RowWithId(w.book.rows, id);
      if k.Some? && w.book.rows[k.value].status.Pending? { ClosedTidy(w.book, k.value, status, now); }
    case EditHosts(_) =>
    case DeleteHost(host) =>
      var at := FilterEmbeds(NotAbout(host), w.book.rows);
      SubsequenceTidy(w.book, Without(w.book.rows, host), at);
  }

  /** Whatever happens, and however hosts are edited meanwhile: one pending rename per host, one row per vmid and per
      address, row ids in order. */
  lemma {:induction false} RunTidy(w: World, ops: seq<Op>)
    requires Tidy(w.book) && forall op :: op in ops ==> Sensible(op)
    ensures Tidy(Run(w, ops).book)
  {
    if ops != [] {
      RunTidy(w, ops[..|ops| - 1]);
      StepTidy(Run(w, ops[..|ops| - 1]), ops[|ops| - 1]);
    }
  }

  /** A guest list that names an unregistered, unrecorded vmid twice leaves two rows for it. */
  lemma ListedTwiceGivesTwoRows(here: string, now: int)
    ensures var g := Guest("101", "web", "running", "lxc");
      var b := Scanned(Book([], 0), [], [g, g], now);
      |b.rows| == 2 && About(b.rows[0]) == About(b.rows[1]) == Some(("proxmox", "101"))
  {
    var g := Guest("101", "web", "running", "lxc");
    var finds := Guests([g, g]);
    assert finds == [OfGuest(g), OfGuest(g)];
    var b := Book([], 0);
    assert finds[..1] == [OfGuest(g)] && finds[..1][..0] == [];
    var b1 := Merged(b, {}, finds[..1], None, now);
    assert b1 == MergedOne(Merged(b, {}, finds[..1][..0], None, now), [], {}, OfGuest(g), None, now);
    assert Vmids([]) == {};
  }

  // ---------------------------------------------------------------- decisions stick

  lemma SweptKeepsDecided(b: Book, source: string, managed: set<string>, finds: seq<Find>, node: Option<string>, now: int, d: Disc)
    requires d in b.rows && !d.status.Pending?
    ensures d in Swept(b, source, managed, finds, node, now).rows
  {
    var m := Merged(b, managed, finds, node, now);
    MergedExtends(b, managed, finds, node, now);
    var i :| 0 <= i < |b.rows| && b.rows[i] == d;
    assert Updates(m.rows[i], b.rows[i]);
    assert Swept(b, source, managed, finds, node, now).rows[i] == d;
  }

  lemma StepKeepsDecided(w: World, op: Op, d: Disc)
    requires d in w.book.rows && !d.status.Pending? && !(op.DeleteHost? && d.serverId == Some(op.host))
    ensures d in Step(w, op).book.rows
  {
    match op
    case NodeScan(guests, now) =>
      if guests != [] {
        NamesKeepOthers(w.book, w.servers, ByNode(guests), now, d);
        var n := NamesReconciled(w.book, w.servers, ByNode(guests), now);
        SweptKeepsDecided(n, "proxmox", Vmids(w.servers), Guests(guests), NodeOf(w.servers), now, d);
      }
    case Probe(who, hostnames, now) => NamesKeepOthers(w.book, Among(w.servers, who), ByProbe(hostnames), now, d);
    case NetScan(targets, open, now) => SweptKeepsDecided(w.book, "network", Addresses(w.servers), open, None, now, d);
    case Confirm(_, _, _, _) =>
      var i :| 0 <= i < |w.book.rows| && w.book.rows[i] == d;
      assert Step(w, op).book.rows[i] == d;
    case Close(_, _, _) =>
      var i :| 0 <= i < |w.book.rows| && w.book.rows[i] == d;
      assert Step(w, op).book.rows[i] == d;
    case EditHosts(_) =>
    case DeleteHost(host) => FilterMember(NotAbout(host), w.book.rows, d);
  }

  /** A confirmed or ignored discovery is never altered again; it goes only with its host. */
  lemma {:induction false} DecisionsStick(w: World, ops: seq<Op>, d: Disc)
    requires d in w.book.rows && !d.status.Pending?
    requires forall op :: op in ops && op.DeleteHost? ==> d.serverId != Some(op.host)
    ensures d in Run(w, ops).book.rows
  {
    if ops != [] {
      DecisionsStick(w, ops[..|ops| - 1], d);
      StepKeepsDecided(Run(w, ops[..|ops| - 1]), ops[|ops| - 1], d);
    }
  }

  // ---------------------------------------------------------------- a repeated scan

  /** Two rows, or tables, that differ at most in when they were last seen. */
  function Blank(d: Disc): Disc { d.(lastSeen := 0) }

  ghost predicate Same(a: Book, b: Book) {
    a.nextId == b.nextId && |a.rows| == |b.rows| && forall i: nat :: i < |a.rows| ==> Blank(a.rows[i]) == Blank(b.rows[i])
  }

  /** Nothing is left to reconcile about a host's name. */
  ghost predicate SettledAs(rows: seq<Disc>, srv: Server, live: string) {
    if Agrees(srv, live) then forall i: nat :: i < |rows| ==> !Outstanding(rows[i], srv.id)
    else SomeDeclined(rows, srv, live) || exists i: nat :: i < |rows| && Reflects(rows[i], srv, live)
  }

  predicate Reflects(d: Disc, srv: Server, live: string) {
    Outstanding(d, srv.id) && d.oldName == Some(srv.name) && d.newName == Some(live) && d.name == Some(live)
  }

  ghost predicate Settled(rows: seq<Disc>, srv: Server, naming: Naming) {
    Live(naming, srv).Some? ==> SettledAs(rows, srv, Live(naming, srv).value)
  }

  lemma SameSettled(a: Book, b: Book, srv: Server, naming: Naming)
    requires Same(a, b) && Settled(a.rows, srv, naming)
    ensures Settled(b.rows, srv, naming)
  {
    if Live(naming, srv).Some? {
      var live := Live(naming, srv).value;
      forall i: nat | i < |a.rows|
        ensures Outstanding(a.rows[i], srv.id) == Outstanding(b.rows[i], srv.id)
        ensures Declined(a.rows[i], srv, live) == Declined(b.rows[i], srv, live) && Reflects(a.rows[i], srv, live) == Reflects(b.rows[i], srv, live)
      {
        assert Blank(a.rows[i]) == Blank(b.rows[i]);
      }
    }
  }

  /** Only a host's own renames matter for its name. */
  lemma OwnRowsSettle(a: seq<Disc>, b: seq<Disc>, srv: Server, naming: Naming)
    requires forall d: Disc :: d.kind.NameChange? && d.serverId == Some(srv.id) ==> (d in a <==> d in b)
    requires Settled(a, srv, naming)
    ensures Settled(b, srv, naming)
  {
    if Live(naming, srv).Some? {
      var live := Live(naming, srv).value;
      if Agrees(srv, live) {
        forall i: nat | i < |b| ensures !Outstanding(b[i], srv.id) { assert b[i] in b; }
      } else if SomeDeclined(a, srv, live) {
        var i :| 0 <= i < |a| && Declined(a[i], srv, live);
        assert a[i] in b;
      } else {
        var i: nat :| i < |a| && Reflects(a[i], srv, live);
        assert a[i] in b;
      }
    }
  }

  lemma ReconcileSettles(b: Book, srv: Server, live: string, source: string, now: int)
    requires Tidy(b)
    ensures SettledAs(Reconciled(b, srv, live, source, now).rows, srv, live)
  {
    var r := Reconciled(b, srv, live, source, now).rows;
    ReconcileOutcome(b, srv, live, source, now);
    if Agrees(srv, live) {
      forall i: nat | i < |r| ensures !Outstanding(r[i], srv.id) { assert r[i] in r; }
    } else if !SomeDeclined(b.rows, srv, live) {
      var k := FirstOutstanding(b.rows, srv.id);
      assert Reflects(r[k], srv, live);
    }
  }

  lemma SettledReconcile(b: Book, srv: Server, live: string, source: string, now: int)
    requires Tidy(b) && SettledAs(b.rows, srv, live)
    ensures Same(b, Reconciled(b, srv, live, source, now))
  {
    if Agrees(srv, live) {
      forall d | d in b.rows ensures !Outstanding(d, srv.id) {}
      RestWhole(b.rows, srv.id);
    } else if !SomeDeclined(b.rows, srv, live) {
      var i: nat :| i < |b.rows| && Reflects(b.rows[i], srv, live);
      assert FirstOutstanding(b.rows, srv.id) == i;
    }
  }

  ghost predicate DistinctHosts(servers: seq<Server>) {
    forall i, j :: 0 <= i < j < |servers| ==> servers[i].id != servers[j].id
  }

  lemma {:induction false} NamesSettle(b: Book, servers: seq<Server>, naming: Naming, now: int, srv: Server)
    requires Tidy(b) && DistinctHosts(servers) && srv in servers
    ensures Settled(NamesReconciled(b, servers, naming, now).rows, srv, naming)
  {
    var (init, last) := (servers[..|servers| - 1], servers[|servers| - 1]);
    var before := NamesReconciled(b, init, naming, now);
    NamesTidy(b, init, naming, now);
    if srv == last {
      if Live(naming, srv).Some? { ReconcileSettles(before, srv, Live(naming, srv).value, SourceOf(naming, srv), now); }
    } else {
      NamesSettle(b, init, naming, now, srv);
      if Live(naming, last).Some? {
        var after := Reconciled(before, last, Live(naming, last).value, SourceOf(naming, last), now);
        ReconcileTouchesOwn(before, last, Live(naming, last).value, SourceOf(naming, last), now);
        forall d: Disc | d.kind.NameChange? && d.serverId == Some(srv.id) ensures d in before.rows <==> d in after.rows {
          RestMember(before.rows, last.id, d);
          RestMember(after.rows, last.id, d);
        }
        OwnRowsSettle(before.rows, after.rows, srv, naming);
      }
    }
  }

  lemma {:induction false} SettledNames(b: Book, servers: seq<Server>, naming: Naming, now: int)
    requires Tidy(b) && forall s :: s in servers ==> Settled(b.rows, s, naming)
    ensures Same(b, NamesReconciled(b, servers, naming, now))
  {
    if servers != [] {
      var (init, last) := (servers[..|servers| - 1], servers[|servers| - 1]);
      SettledNames(b, init, naming, now);
      var before := NamesReconciled(b, init, naming, now);
      NamesTidy(b, init, naming, now);
      SameSettled(b, before, last, naming);
      if Live(naming, last).Some? { SettledReconcile(before, last, Live(naming, last).value, SourceOf(naming, last), now); }
    }
  }

  /** Reconciling names leaves the renames of a host alone that the authority has no say about. */
  lemma {:induction false} NamesLeaveUnaddressed(b: Book, servers: seq<Server>, naming: Naming, now: int, host: nat, d: Disc)
    requires d.serverId == Some(host) && forall s :: s in servers && s.id == host ==> Live(naming, s).None?
    ensures d in NamesReconciled(b, servers, naming, now).rows <==> d in b.rows
  {
    if servers != [] {
      var (init, last) := (servers[..|servers| - 1], servers[|servers| - 1]);
      var before := NamesReconciled(b, init, naming, now);
      NamesLeaveUnaddressed(b, init, naming, now, host, d);
      if Live(naming, last).Some? {
        var live := Live(naming, last).value;
        ReconcileTouchesOwn(before, last, live, SourceOf(naming, last), now);
        RestMember(before.rows, last.id, d);
        RestMember(Reconciled(before, last, live, SourceOf(naming, last), now).rows, last.id, d);
      }
    }
  }

  /** A host with a vmid gets its name from the node alone, any other host from the probe alone. */
  lemma OneNameAuthority(b: Book, servers: seq<Server>, guests: seq<Guest>, hostnames: map<string, string>, now: int, srv: Server, d: Disc)
    requires DistinctHosts(servers) && srv in servers && d.serverId == Some(srv.id)
    ensures Given(srv.vmid) ==> (d in NamesReconciled(b, servers, ByProbe(hostnames), now).rows <==> d in b.rows)
    ensures !Given(srv.vmid) ==> (d in NamesReconciled(b, servers, ByNode(guests), now).rows <==> d in b.rows)
  {
    forall s | s in servers && s.id == srv.id ensures s == srv {}
    var naming := if Given(srv.vmid) then ByProbe(hostnames) else ByNode(guests);
    NamesLeaveUnaddressed(b, servers, naming, now, srv.id, d);
  }

  // ---------------------------------------------------------------- a repeated sweep

  /** The table has nothing to learn from a find. */
  ghost predicate Knows(rows: seq<Disc>, k: nat, f: Find, node: Option<string>) {
    && k < |rows| && About(rows[k]) == Some(Tag(f))
    && (rows[k].status.Pending? ==> Blank(Refreshed(rows[k], f, node, 0)) == Blank(rows[k]))
  }

  predicate Concerns(f: Find, managed: set<string>) { f.Key() != "" && f.Key() !in managed }

  ghost predicate KnowsAll(rows: seq<Disc>, managed: set<string>, finds: seq<Find>, node: Option<string>) {
    forall f :: f in finds && Concerns(f, managed) ==> exists k: nat :: Knows(rows, k, f, node)
  }

  /** No pending row is about a registered host. */
  ghost predicate NoneOvertaken(rows: seq<Disc>, source: string, managed: set<string>) {
    forall i: nat :: i < |rows| && rows[i].status.Pending? && About(rows[i]).Some? && About(rows[i]).value.0 == source ==> About(rows[i]).value.1 !in managed
  }

  lemma MergedOneKnows(was: Book, b: Book, managed: set<string>, news: seq<Find>, f: Find, node: Option<string>, now: int) returns (k: nat)
    requires Extends(was, b, news) && Concerns(f, managed)
    ensures Knows(MergedOne(b, was.rows, managed, f, node, now).rows, k, f, node)
  {
    var at := RowAbout(was.rows, f.Source(), f.Key());
    if at.None? {
      k := |b.rows|;
    } else {
      k := at.value;
      assert Updates(b.rows[k], was.rows[k]);
    }
  }

  lemma MergedOneForgetsNothing(was: Book, b: Book, managed: set<string>, news: seq<Find>, f: Find, node: Option<string>, now: int, g: Find, k: nat)
    requires Extends(was, b, news) && Knows(b.rows, k, g, node) && Tag(g) != Tag(f)
    ensures Knows(MergedOne(b, was.rows, managed, f, node, now).rows, k, g, node)
  {
    var at := RowAbout(was.rows, f.Source(), f.Key());
    if at.Some? { assert Updates(b.rows[at.value], was.rows[at.value]); }
  }

  lemma {:induction false} MergedKnows(b: Book, managed: set<string>, finds: seq<Find>, node: Option<string>, now: int)
    requires ListedOnce(finds)
    ensures KnowsAll(Merged(b, managed, finds, node, now).rows, managed, finds, node)
  {
    if finds != [] {
      var (init, f) := (finds[..|finds| - 1], finds[|finds| - 1]);
      var news := NewOnes(b.rows, managed, init);
      MergedKnows(b, managed, init, node, now);
      MergedExtends(b, managed, init, node, now);
      var before := Merged(b, managed, init, node, now);
      var after := Merged(b, managed, finds, node, now);
      forall g | g in finds && Concerns(g, managed) ensures exists k: nat :: Knows(after.rows, k, g, node) {
        if g == f {
          var k := MergedOneKnows(b, before, managed, news, f, node, now);
        } else {
          var i :| 0 <= i < |finds| && finds[i] == g;
          assert init[i] == g;
          var k: nat :| Knows(before.rows, k, g, node);
          MergedOneForgetsNothing(b, before, managed, news, f, node, now, g, k);
        }
      }
    }
  }

  lemma RowAboutUnique(rows: seq<Disc>, i: nat)
    requires OneRowEach(rows) && i < |rows| && About(rows[i]).Some?
    ensures RowAbout(rows, About(rows[i]).value.0, About(rows[i]).value.1) == Some(i)
  {
  }

  lemma SweptAbout(b: Book, source: string, managed: set<string>, finds: seq<Find>, node: Option<string>, now: int)
    ensures var (m, r) := (Merged(b, managed, finds, node, now).rows, Swept(b, source, managed, finds, node, now).rows);
      && |b.rows| <= |m| == |r|
      && (forall i: nat :: i < |r| ==> About(r[i]) == About(m[i]))
      && (forall i: nat :: i < |b.rows| ==> About(r[i]) == About(b.rows[i]))
      && (forall i: nat :: |b.rows| <= i < |r| ==> About(r[i]).Some? && About(r[i]).value.1 !in managed)
  {
    var (m, news) := (Merged(b, managed, finds, node, now), NewOnes(b.rows, managed, finds));
    var r := Swept(b, source, managed, finds, node, now).rows;
    MergedExtends(b, managed, finds, node, now);
    RowsAbout(b, m, news);
    forall i: nat | i < |r| ensures About(r[i]) == About(m.rows[i]) { ResolvedOnly(b, m, news, source, managed, now, i); }
    forall i: nat | |b.rows| <= i < |r| ensures About(r[i]).Some? && About(r[i]).value.1 !in managed {
      NewOnesNew(b.rows, managed, finds, news[i - |b.rows|]);
    }
  }

  lemma SweptKnows(b: Book, source: string, managed: set<string>, finds: seq<Find>, node: Option<string>, now: int)
    requires ListedOnce(finds)
    ensures KnowsAll(Swept(b, source, managed, finds, node, now).rows, managed, finds, node)
  {
    var m := Merged(b, managed, finds, node, now).rows;
    var r := Swept(b, source, managed, finds, node, now).rows;
    MergedKnows(b, managed, finds, node, now);
    SweptAbout(b, source, managed, finds, node, now);
    forall f | f in finds && Concerns(f, managed) ensures exists k: nat :: Knows(r, k, f, node) {
      var k: nat :| Knows(m, k, f, node);
      assert !Overtaken(b.rows, m, source, managed, k);
      assert Knows(r, k, f, node);
    }
  }

  lemma SweptLeavesNoneOvertaken(b: Book, source: string, managed: set<string>, finds: seq<Find>, node: Option<string>, now: int)
    requires Tidy(b)
    ensures NoneOvertaken(Swept(b, source, managed, finds, node, now).rows, source, managed)
  {
    var m := Merged(b, managed, finds, node, now).rows;
    var r := Swept(b, source, managed, finds, node, now).rows;
    SweptAbout(b, source, managed, finds, node, now);
    forall i: nat | i < |r| && r[i].status.Pending? && About(r[i]).Some? && About(r[i]).value.0 == source ensures About(r[i]).value.1 !in managed {
      assert !Overtaken(b.rows, m, source, managed, i);
      if i < |b.rows| { RowAboutUnique(b.rows, i); }
    }
  }

  lemma SameKnows(a: Book, b: Book, source: string, managed: set<string>, finds: seq<Find>, node: Option<string>)
    requires Same(a, b) && KnowsAll(a.rows, managed, finds, node) && NoneOvertaken(a.rows, source, managed)
    ensures KnowsAll(b.rows, managed, finds, node) && NoneOvertaken(b.rows, source, managed)
  {
    forall i: nat | i < |a.rows| ensures About(a.rows[i]) == About(b.rows[i]) && a.rows[i].status == b.rows[i].status {
      assert Blank(a.rows[i]) == Blank(b.rows[i]);
    }
    forall f | f in finds && Concerns(f, managed) ensures exists k: nat :: Knows(b.rows, k, f, node) {
      var k: nat :| Knows(a.rows, k, f, node);
      assert Blank(a.rows[k]) == Blank(b.rows[k]);
      assert Knows(b.rows, k, f, node);
    }
  }

  lemma {:induction false} FixedMerge(b: Book, managed: set<string>, finds: seq<Find>, node: Option<string>, now: int)
    requires OneRowEach(b.rows) && KnowsAll(b.rows, managed, finds, node)
    ensures Same(b, Merged(b, managed, finds, node, now))
  {
    if finds != [] {
      var (init, f) := (finds[..|finds| - 1], finds[|finds| - 1]);
      FixedMerge(b, managed, init, node, now);
      var before := Merged(b, managed, init, node, now);
      if Concerns(f, managed) {
        var k: nat :| Knows(b.rows, k, f, node);
        RowAboutUnique(b.rows, k);
        RefreshBlank(b.rows[k], before.rows[k], f, node, now);
      }
    }
  }

  lemma RefreshBlank(d: Disc, e: Disc, f: Find, node: Option<string>, now: int)
    requires Blank(d) == Blank(e)
    ensures Blank(Refreshed(d, f, node, 0)) == Blank(Refreshed(e, f, node, now)) && d.status == e.status
  {
    assert e == d.(lastSeen := e.lastSeen) by { assert Blank(d).(lastSeen := e.lastSeen) == e; }
  }

  lemma FixedSweep(b: Book, source: string, managed: set<string>, finds: seq<Find>, node: Option<string>, now: int)
    requires OneRowEach(b.rows) && KnowsAll(b.rows, managed, finds, node) && NoneOvertaken(b.rows, source, managed)
    ensures Same(b, Swept(b, source, managed, finds, node, now))
  {
    var m := Merged(b, managed, finds, node, now);
    FixedMerge(b, managed, finds, node, now);
    forall i: nat | i < |m.rows| ensures !Overtaken(b.rows, m.rows, source, managed, i) {
      assert Blank(b.rows[i]) == Blank(m.rows[i]);
    }
  }

  lemma SweptKeepsRenames(b: Book, source: string, managed: set<string>, finds: seq<Find>, node: Option<string>, now: int, d: Disc)
    requires d.kind.NameChange?
    ensures d in Swept(b, source, managed, finds, node, now).rows <==> d in b.rows
  {
    var m := Merged(b, managed, finds, node, now);
    var r := Swept(b, source, managed, finds, node, now).rows;
    var news := NewOnes(b.rows, managed, finds);
    MergedExtends(b, managed, finds, node, now);
    forall i: nat | i < |r| ensures if i < |b.rows| then (r[i] == d <==> b.rows[i] == d) else r[i] != d {
      ResolvedOnly(b, m, news, source, managed, now, i);
      if i < |b.rows| {
        assert Updates(m.rows[i], b.rows[i]);
      } else {
        assert Announces(m.rows[i], b.nextId + (i - |b.rows|), news[i - |b.rows|]);
      }
    }
    if d in b.rows {
      var i :| 0 <= i < |b.rows| && b.rows[i] == d;
      assert r[i] == d;
    }
  }

  /** Scanning again with the same guests and hosts adds no row and changes nothing but when rows were last seen. */
  lemma ScanAgain(b: Book, servers: seq<Server>, guests: seq<Guest>, now: int, later: int)
    requires Tidy(b) && DistinctHosts(servers) && ListedOnce(Guests(guests))
    ensures Same(Scanned(b, servers, guests, now), Scanned(Scanned(b, servers, guests, now), servers, guests, later))
  {
    if guests != [] {
      var (naming, managed, finds, node) := (ByNode(guests), Vmids(servers), Guests(guests), NodeOf(servers));
      var n1 := NamesReconciled(b, servers, naming, now);
      var once := Swept(n1, "proxmox", managed, finds, node, now);
      var n2 := NamesReconciled(once, servers, naming, later);
      StepTidy(World(servers, b), NodeScan(guests, now));
      NamesTidy(b, servers, naming, now);
      NamesTidy(once, servers, naming, later);
      forall s | s in servers ensures Settled(once.rows, s, naming) {
        NamesSettle(b, servers, naming, now, s);
        forall d: Disc | d.kind.NameChange? && d.serverId == Some(s.id) ensures d in n1.rows <==> d in once.rows {
          SweptKeepsRenames(n1, "proxmox", managed, finds, node, now, d);
        }
        OwnRowsSettle(n1.rows, once.rows, s, naming);
      }
      SettledNames(once, servers, naming, later);
      SweptKnows(n1, "proxmox", managed, finds, node, now);
      SweptLeavesNoneOvertaken(n1, "proxmox", managed, finds, node, now);
      SameKnows(once, n2, "proxmox", managed, finds, node);
      FixedSweep(n2, "proxmox", managed, finds, node, later);
    }
  }

  /** So does a sweep of the network over the same answers. */
  lemma NetScanAgain(b: Book, servers: seq<Server>, targets: seq<string>, open: seq<Find>, now: int, later: int)
    requires Tidy(b) && ListedOnce(open)
    ensures Same(NetScanned(b, servers, targets, open, now), NetScanned(NetScanned(b, servers, targets, open, now), servers, targets, open, later))
  {
    if targets != [] {
      var managed := Addresses(servers);
      var once := Swept(b, "network", managed, open, None, now);
      StepTidy(World(servers, b), NetScan(targets, open, now));
      SweptKnows(b, "network", managed, open, None, now);
      SweptLeavesNoneOvertaken(b, "network", managed, open, None, now);
      FixedSweep(once, "network", managed, open, None, later);
    }
  }

  /** And so does a look at the names, whoever is asked for them. */
  lemma NamesAgain(b: Book, servers: seq<Server>, naming: Naming, now: int, later: int)
    requires Tidy(b) && DistinctHosts(servers)
    ensures var once := NamesReconciled(b, servers, naming, now); Same(once, NamesReconciled(once, servers, naming, later))
  {
    NamesTidy(b, servers, naming, now);
    forall s | s in servers ensures Settled(NamesReconciled(b, servers, naming, now).rows, s, naming) {
      NamesSettle(b, servers, naming, now, s);
    }
    SettledNames(NamesReconciled(b, servers, naming, now), servers, naming, later);
  }

  /** After a scan every listed guest is a managed host or on record, and no pending row is about a managed one. */
  lemma ScanAccountsForAll(b: Book, servers: seq<Server>, guests: seq<Guest>, now: int, g: Guest)
    requires Tidy(b) && ListedOnce(Guests(guests)) && g in guests && g.vmid != ""
    ensures g.vmid in Vmids(servers) || exists d :: d in Scanned(b, servers, guests, now).rows && About(d) == Some(("proxmox", g.vmid))
    ensures NoneOvertaken(Scanned(b, servers, guests, now).rows, "proxmox", Vmids(servers))
  {
    var n := NamesReconciled(b, servers, ByNode(guests), now);
    NamesTidy(b, servers, ByNode(guests), now);
    SweptKnows(n, "proxmox", Vmids(servers), Guests(guests), NodeOf(servers), now);
    SweptLeavesNoneOvertaken(n, "proxmox", Vmids(servers), Guests(guests), NodeOf(servers), now);
    var i :| 0 <= i < |guests| && guests[i] == g;
    assert Guests(guests)[i] == OfGuest(g);
    if g.vmid !in Vmids(servers) {
      assert Concerns(OfGuest(g), Vmids(servers));
      var r := Scanned(b, servers, guests, now).rows;
      var k: nat :| Knows(r, k, OfGuest(g), NodeOf(servers));
      assert r[k] in r;
    }
  }

  // ---------------------------------------------------------------- confirming

  /** Confirming a new host registers its vmid; without one (a network find) it registers nothing. */
  lemma ConfirmRegisters(w: World, id: nat, here: string, freshId: nat, now: int, k: nat)
    requires RowWithId(w.book.rows, id) == Some(k) && w.book.rows[k].kind.NewHost? && w.book.rows[k].status.Pending?
    ensures var (d, after) := (w.book.rows[k], ConfirmedIn(w, id, here, freshId, now));
      && (Given(d.vmid) ==> d.vmid.value in Vmids(after.servers))
      && (!Given(d.vmid) ==> after.servers == w.servers)
      && after.book.rows[k].status.Confirmed?
  {
    var (d, after) := (w.book.rows[k], ConfirmedIn(w, id, here, freshId, now));
    if Given(d.vmid) && d.vmid.value !in Vmids(w.servers) {
      var s := after.servers[|w.servers|];
      assert s in after.servers && Given(s.vmid);
    }
  }

  /** The host registered for a guest agrees with the guest's live name, so that the next scan announces no rename,
      exactly when the guest is unnamed or its name was free. */
  lemma CreatedGuestAgreesIff(servers: seq<Server>, d: Disc, here: string, freshId: nat)
    requires Given(d.vmid) && d.vmid.value !in Vmids(servers)
    ensures var after := GuestCreated(servers, d, here, freshId);
      && |after| == |servers| + 1 && after[..|servers|] == servers
      && var srv := after[|servers|];
      && srv.vmid == d.vmid && (srv.enabled <==> srv.connection == "proxmox") && (srv.enabled <==> srv.guestType != Some("qemu"))
      && (Agrees(srv, Strip(d.name.GetOr(""))) <==> Strip(d.name.GetOr("")) == "" || !NameTaken(servers, Strip(d.name.GetOr("")), None))
  {
    var name := Strip(d.name.GetOr(""));
    assert |name + "-" + d.vmid.value| > |name|;
  }

  lemma HostIsUnique(servers: seq<Server>, k: nat)
    requires DistinctHosts(servers) && k < |servers|
    ensures HostWithId(servers, servers[k].id) == Some(k)
  {
  }

  /** A confirmed rename sticks (the next look at the same live name finds no discrepancy) exactly when no other host
      has the name. Otherwise the host is left with a suffixed name, and confirming the same rename once more changes
      no host at all. */
  lemma RenameSticksIffFree(servers: seq<Server>, d: Disc, live: string, k: nat)
    requires DistinctHosts(servers) && k < |servers| && d.serverId == Some(servers[k].id)
    requires d.newName == Some(live) && Strip(live) == live != ""
    ensures var after := NameApplied(servers, d);
      && |after| == |servers| && (forall i :: 0 <= i < |servers| && i != k ==> after[i] == servers[i])
      && (Agrees(after[k], live) <==> !NameTaken(servers, live, Some(servers[k].id)))
      && NameApplied(after, d) == after
  {
    HostIsUnique(servers, k);
    var after := NameApplied(servers, d);
    var suffix := if Given(servers[k].vmid) then servers[k].vmid.value else Decimal(servers[k].id);
    assert |live + "-" + suffix| > |live|;
    HostIsUnique(after, k);
    if NameTaken(servers, live, Some(servers[k].id)) {
      var i :| 0 <= i < |servers| && servers[i].name == live && servers[i].id != servers[k].id;
      assert after[i].name == live && Some(after[i].id) != Some(servers[k].id);
    }
    assert NameTaken(after, live, Some(servers[k].id)) == NameTaken(servers, live, Some(servers[k].id));
  }

  /** Right after a pending rename is confirmed, a look at the same live name announces a new one exactly when another
      host has that name and the transition from the suffixed name, which the host then gets, to it was never ignored. */
  lemma ConfirmedRenameResurfacesIff(w: World, id: nat, here: string, freshId: nat, now: int, j: nat, k: nat, live: string, source: string)
    requires Tidy(w.book) && DistinctHosts(w.servers) && k < |w.servers| && Strip(live) == live != ""
    requires RowWithId(w.book.rows, id) == Some(j) && Outstanding(w.book.rows[j], w.servers[k].id) && w.book.rows[j].newName == Some(live)
    ensures var after := ConfirmedIn(w, id, here, freshId, now);
      && |after.servers| == |w.servers|
      && (Reconciled(after.book, after.servers[k], live, source, now).nextId > after.book.nextId <==>
        NameTaken(w.servers, live, Some(w.servers[k].id))
        && !SomeDeclined(w.book.rows, w.servers[k].(name := Candidate(w.servers, w.servers[k], live)), live))
  {
    var d := w.book.rows[j];
    var after := ConfirmedIn(w, id, here, freshId, now);
    RenameSticksIffFree(w.servers, d, live, k);
    ClosedTidy(w.book, j, Confirmed, now);
    HostIsUnique(w.servers, k);
    assert after.servers[k] == w.servers[k].(name := Candidate(w.servers, w.servers[k], live));
    forall i | 0 <= i < |w.book.rows|
      ensures Declined(after.book.rows[i], after.servers[k], live) == Declined(w.book.rows[i], after.servers[k], live) {
      assert i != j ==> after.book.rows[i] == w.book.rows[i];
    }
    forall e | e in after.book.rows ensures !Outstanding(e, w.servers[k].id) {
      var i :| 0 <= i < |after.book.rows| && after.book.rows[i] == e;
      assert i != j ==> e == w.book.rows[i];
    }
    ReconcileOutcome(after.book, after.servers[k], live, source, now);
  }

  /** Such a rename: the confirmed name is taken, so the host gets a suffix, and the live name is announced anew. */
  lemma ConfirmedRenameCanResurface(here: string, freshId: nat, now: int)
    ensures var app := Server(1, "app", "proxmox", None, None, Some("101"), None, true);
      var web := Server(2, "web", "proxmox", None, None, Some("102"), None, true);
      var after := ConfirmedIn(World([app, web], Book([Rename(0, app, "web", "proxmox", now)], 1)), 0, here, freshId, now);
      && |after.servers| == 2 && after.servers[0].name == "web-101" && after.book.nextId == 1
      && Reconciled(after.book, after.servers[0], "web", "proxmox", now).nextId == 2
  {
    var app := Server(1, "app", "proxmox", None, None, Some("101"), None, true);
    var web := Server(2, "web", "proxmox", None, None, Some("102"), None, true);
    var d := Rename(0, app, "web", "proxmox", now);
    var w := World([app, web], Book([d], 1));
    assert Strip("web") == "web";
    assert RowWithId([d], 0) == Some(0);
    assert [app, web][0].id == 1 && [app, web][1].id == 2;
    assert HostWithId([app, web], 1) == Some(0);
    assert [app, web][1].name == "web" && NameTaken([app, web], "web", Some(1));
    ConfirmedRenameResurfacesIff(w, 0, here, freshId, now, 0, 0, "web", "proxmox");
    assert Candidate([app, web], app, "web") == "web-101";
  }
}
