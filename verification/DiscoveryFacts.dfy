/** What holds of the discoveries table over any serial run of scans, probes and decisions. */
module DiscoveryFacts {
  import opened Lists
  import opened Options
  import opened Discovery

  // ---------------------------------------------------------------- one host, one name

  lemma RestMember(rows: seq<Disc>, host: nat, d: Disc)
    ensures d in Rest(rows, host) <==> d in rows && !Outstanding(d, host)
  {
    FilterMember(NotOutstanding(host), rows, d);
  }

  lemma RestWhole(rows: seq<Disc>, host: nat)
    requires forall d :: d in rows ==> !Outstanding(d, host)
    ensures Rest(rows, host) == rows
  {
    FilterWhole(NotOutstanding(host), rows);
  }

  lemma {:induction false} RestTwice(rows: seq<Disc>, host: nat)
    ensures Rest(Rest(rows, host), host) == Rest(rows, host)
  {
    forall d | d in Rest(rows, host) ensures !Outstanding(d, host) { RestMember(rows, host, d); }
    RestWhole(Rest(rows, host), host);
  }

  lemma {:induction false} RestReplaced(rows: seq<Disc>, host: nat, k: nat, d: Disc)
    requires k < |rows| && Outstanding(rows[k], host) && Outstanding(d, host)
    ensures Rest(rows[k := d], host) == Rest(rows, host)
  {
    var n := |rows| - 1;
    if k < n {
      RestReplaced(rows[..n], host, k, d);
      assert rows[k := d][..n] == rows[..n][k := d];
    } else {
      assert rows[k := d][..n] == rows[..n];
    }
  }

  /** Reconciling a host touches nothing but that host's own pending rename. */
  lemma ReconcileTouchesOwn(b: Book, srv: Server, live: string, source: string, now: int)
    ensures Rest(Reconciled(b, srv, live, source, now).rows, srv.id) == Rest(b.rows, srv.id)
  {
    var r := Reconciled(b, srv, live, source, now);
    if Agrees(srv, live) {
      RestTwice(b.rows, srv.id);
    } else if !SomeDeclined(b.rows, srv, live) {
      var k := FirstOutstanding(b.rows, srv.id);
      if k < |b.rows| {
        RestReplaced(b.rows, srv.id, k, Retargeted(b.rows[k], srv, live, now));
      } else {
        assert r.rows[..|r.rows| - 1] == b.rows;
      }
    }
  }

  // ---------------------------------------------------------------- the invariant

  ghost predicate OrderedIds(b: Book) {
    && (forall i, j :: 0 <= i < j < |b.rows| ==> b.rows[i].id < b.rows[j].id)
    && forall i :: 0 <= i < |b.rows| ==> b.rows[i].id < b.nextId
  }

  ghost predicate OnePendingRename(rows: seq<Disc>) {
    forall i, j, h :: 0 <= i < j < |rows| && Outstanding(rows[i], h) ==> !Outstanding(rows[j], h)
  }

  ghost predicate OneRowEach(rows: seq<Disc>) {
    forall i, j :: 0 <= i < j < |rows| && About(rows[i]).Some? ==> About(rows[i]) != About(rows[j])
  }

  ghost predicate Tidy(b: Book) { OrderedIds(b) && OnePendingRename(b.rows) && OneRowEach(b.rows) }

  /** Rows of `b` at increasing places of `a`. */
  ghost predicate Embeds(a: seq<Disc>, b: seq<Disc>, at: seq<nat>) {
    && |at| == |b|
    && (forall i :: 0 <= i < |b| ==> at[i] < |a| && b[i] == a[at[i]])
    && forall i, j :: 0 <= i < j < |b| ==> at[i] < at[j]
  }

  lemma EmbedsMore(rows: seq<Disc>, sub: seq<Disc>, at: seq<nat>)
    requires rows != [] && Embeds(rows[..|rows| - 1], sub, at)
    ensures Embeds(rows, sub, at)
    ensures Embeds(rows, sub + [rows[|rows| - 1]], at + [|rows| - 1])
  {
    forall i | 0 <= i < |sub| ensures at[i] < |rows| - 1 && sub[i] == rows[at[i]] {
      assert rows[..|rows| - 1][at[i]] == rows[at[i]];
    }
  }

  lemma {:induction false} FilterEmbeds(p: Disc -> bool, rows: seq<Disc>) returns (at: seq<nat>)
    ensures Embeds(rows, Filter(p, rows), at)
  {
    at := [];
    if rows != [] {
      var n := |rows| - 1;
      at := FilterEmbeds(p, rows[..n]);
      EmbedsMore(rows, Filter(p, rows[..n]), at);
      hide Embeds;
      if p(rows[n]) {
        at := at + [n];
      } else {
        assert Filter(p, rows[..n]) + [] == Filter(p, rows[..n]);
      }
    }
  }

  lemma SubsequenceTidy(b: Book, rows: seq<Disc>, at: seq<nat>)
    requires Tidy(b) && Embeds(b.rows, rows, at)
    ensures Tidy(b.(rows := rows))
  {
  }

  lemma ReplacedTidy(b: Book, k: nat, d: Disc)
    requires Tidy(b) && k < |b.rows| && d.id == b.rows[k].id && (About(d) == About(b.rows[k]) || About(d) == None)
    requires forall h :: Outstanding(d, h) ==> Outstanding(b.rows[k], h)
    ensures Tidy(b.(rows := b.rows[k := d]))
  {
  }

  lemma AppendedTidy(b: Book, d: Disc)
    requires Tidy(b) && d.id == b.nextId
    requires forall i, h :: 0 <= i < |b.rows| && Outstanding(d, h) ==> !Outstanding(b.rows[i], h)
    requires forall i :: 0 <= i < |b.rows| && About(d).Some? ==> About(b.rows[i]) != About(d)
    ensures Tidy(Book(b.rows + [d], b.nextId + 1))
  {
  }

  lemma ReconcileTidy(b: Book, srv: Server, live: string, source: string, now: int)
    requires Tidy(b)
    ensures Tidy(Reconciled(b, srv, live, source, now))
  {
    if Agrees(srv, live) {
      var at := FilterEmbeds(NotOutstanding(srv.id), b.rows);
      SubsequenceTidy(b, Rest(b.rows, srv.id), at);
    } else if !SomeDeclined(b.rows, srv, live) {
      var k := FirstOutstanding(b.rows, srv.id);
      if k < |b.rows| {
        ReplacedTidy(b, k, Retargeted(b.rows[k], srv, live, now));
      } else {
        AppendedTidy(b, Rename(b.nextId, srv, live, source, now));
      }
    }
  }

  ghost predicate SoleRename(rows: seq<Disc>, k: nat, srv: Server, live: string) {
    && k < |rows| && Outstanding(rows[k], srv.id) && rows[k].oldName == Some(srv.name) && rows[k].newName == Some(live)
    && forall i: nat :: i < |rows| && i != k ==> !Outstanding(rows[i], srv.id)
  }

  /** After reconciling: no pending rename when the names agree; else either this very transition was ignored and the
      table is as before, or the host has one pending rename, from its name to the live one. */
  lemma ReconcileOutcome(b: Book, srv: Server, live: string, source: string, now: int)
    requires Tidy(b)
    ensures var r := Reconciled(b, srv, live, source, now).rows;
      if Agrees(srv, live) then forall d :: d in r ==> !Outstanding(d, srv.id)
      else if SomeDeclined(b.rows, srv, live) then r == b.rows
      else exists k: nat :: SoleRename(r, k, srv, live)
    ensures Reconciled(b, srv, live, source, now).nextId > b.nextId <==>
      !Agrees(srv, live) && !SomeDeclined(b.rows, srv, live) && forall d :: d in b.rows ==> !Outstanding(d, srv.id)
  {
    ReconcileTidy(b, srv, live, source, now);
    var r := Reconciled(b, srv, live, source, now).rows;
    if Agrees(srv, live) {
      forall d | d in r ensures !Outstanding(d, srv.id) { RestMember(b.rows, srv.id, d); }
    } else if !SomeDeclined(b.rows, srv, live) {
      var k := FirstOutstanding(b.rows, srv.id);
      assert SoleRename(r, k, srv, live);
      if k < |b.rows| { assert b.rows[k] in b.rows; }
    }
  }

  lemma {:induction false} NamesTidy(b: Book, servers: seq<Server>, naming: Naming, now: int)
    requires Tidy(b)
    ensures Tidy(NamesReconciled(b, servers, naming, now))
  {
    if servers != [] {
      var srv := servers[|servers| - 1];
      NamesTidy(b, servers[..|servers| - 1], naming, now);
      if Live(naming, srv).Some? {
        ReconcileTidy(NamesReconciled(b, servers[..|servers| - 1], naming, now), srv, Live(naming, srv).value, SourceOf(naming, srv), now);
      }
    }
  }

  /** Renames leave every row alone that is not a pending rename. */
  lemma {:induction false} NamesKeepOthers(b: Book, servers: seq<Server>, naming: Naming, now: int, d: Disc)
    requires !(d.kind.NameChange? && d.status.Pending?)
    ensures d in NamesReconciled(b, servers, naming, now).rows <==> d in b.rows
  {
    if servers != [] {
      var srv := servers[|servers| - 1];
      var before := NamesReconciled(b, servers[..|servers| - 1], naming, now);
      NamesKeepOthers(b, servers[..|servers| - 1], naming, now, d);
      if Live(naming, srv).Some? {
        ReconcileTouchesOwn(before, srv, Live(naming, srv).value, SourceOf(naming, srv), now);
        RestMember(before.rows, srv.id, d);
        RestMember(Reconciled(before, srv, Live(naming, srv).value, SourceOf(naming, srv), now).rows, srv.id, d);
      }
    }
  }

  // ---------------------------------------------------------------- finds

  function Tag(f: Find): (string, string) { (f.Source(), f.Key()) }

  /** A find that names an unregistered host no row is about. */
  predicate IsNew(rows: seq<Disc>, managed: set<string>, f: Find) {
    f.Key() != "" && f.Key() !in managed && forall i :: 0 <= i < |rows| ==> About(rows[i]) != Some(Tag(f))
  }

  /** The finds that get a row of their own, in order. */
  function NewOnes(rows: seq<Disc>, managed: set<string>, finds: seq<Find>): seq<Find> {
    if finds == [] then []
    else NewOnes(rows, managed, finds[..|finds| - 1]) + if IsNew(rows, managed, finds[|finds| - 1]) then [finds[|finds| - 1]] else []
  }

  ghost predicate NoneTwice(finds: seq<Find>) {
    forall i, j :: 0 <= i < j < |finds| ==> Tag(finds[i]) != Tag(finds[j])
  }

  /** A row a sweep may leave in place of another: the same row, or the same pending new host with fresher details. */
  ghost predicate Updates(d: Disc, was: Disc) {
    d == was || (was.kind.NewHost? && was.status.Pending? && d.id == was.id && d.kind == was.kind && d.status == was.status && About(d) == About(was))
  }

  /** The row of a find that was not on record. */
  ghost predicate Announces(d: Disc, id: nat, f: Find) {
    d.id == id && d.kind.NewHost? && d.status.Pending? && About(d) == Some(Tag(f))
  }

  /** The table `b` is `was` with its rows updated in place and one new row for each of `news`. */
  ghost predicate Extends(was: Book, b: Book, news: seq<Find>) {
    && |b.rows| == |was.rows| + |news| && b.nextId == was.nextId + |news|
    && (forall i: nat :: i < |was.rows| ==> Updates(b.rows[i], was.rows[i]))
    && (forall i: nat :: |was.rows| <= i < |b.rows| ==> Announces(b.rows[i], was.nextId + (i - |was.rows|), news[i - |was.rows|]))
  }

  lemma FreshAnnounces(id: nat, f: Find, node: Option<string>, now: int)
    requires f.Key() != ""
    ensures Announces(Fresh(id, f, node, now), id, f)
  {
  }

  lemma ExtendsOne(was: Book, b: Book, managed: set<string>, news: seq<Find>, f: Find, node: Option<string>, now: int)
    requires Extends(was, b, news)
    ensures Extends(was, MergedOne(b, was.rows, managed, f, node, now), news + if IsNew(was.rows, managed, f) then [f] else [])
  {
    if f.Key() != "" && f.Key() !in managed {
      var k := RowAbout(was.rows, f.Source(), f.Key());
      if k.None? {
        FreshAnnounces(b.nextId, f, node, now);
      } else if b.rows[k.value].status.Pending? {
        assert Updates(b.rows[k.value], was.rows[k.value]);
        assert Updates(Refreshed(b.rows[k.value], f, node, now), was.rows[k.value]);
      }
    }
  }

  lemma {:induction false} MergedExtends(b: Book, managed: set<string>, finds: seq<Find>, node: Option<string>, now: int)
    ensures Extends(b, Merged(b, managed, finds, node, now), NewOnes(b.rows, managed, finds))
  {
    if finds != [] {
      MergedExtends(b, managed, finds[..|finds| - 1], node, now);
      ExtendsOne(b, Merged(b, managed, finds[..|finds| - 1], node, now), managed, NewOnes(b.rows, managed, finds[..|finds| - 1]), finds[|finds| - 1], node, now);
    }
  }

  lemma {:induction false} NewOnesNew(rows: seq<Disc>, managed: set<string>, finds: seq<Find>, f: Find)
    ensures f in NewOnes(rows, managed, finds) <==> f in finds && IsNew(rows, managed, f)
  {
    if finds != [] {
      NewOnesNew(rows, managed, finds[..|finds| - 1], f);
      assert finds == finds[..|finds| - 1] + [finds[|finds| - 1]];
    }
  }

  lemma RenamesKept(was: Book, b: Book, news: seq<Find>)
    requires OnePendingRename(was.rows) && Extends(was, b, news)
    ensures OnePendingRename(b.rows)
  {
    forall i: nat, h | |was.rows| <= i < |b.rows| ensures !Outstanding(b.rows[i], h) {
      assert Announces(b.rows[i], was.nextId + (i - |was.rows|), news[i - |was.rows|]);
    }
    forall i: nat, h | i < |was.rows| ensures Outstanding(b.rows[i], h) == Outstanding(was.rows[i], h) {
      assert Updates(b.rows[i], was.rows[i]);
    }
  }

  lemma IdsKept(was: Book, b: Book, news: seq<Find>)
    requires OrderedIds(was) && Extends(was, b, news)
    ensures OrderedIds(b)
  {
    forall i: nat | |was.rows| <= i < |b.rows| ensures b.rows[i].id == was.nextId + (i - |was.rows|) {
      assert Announces(b.rows[i], was.nextId + (i - |was.rows|), news[i - |was.rows|]);
    }
    forall i: nat | i < |was.rows| ensures b.rows[i].id == was.rows[i].id {
      assert Updates(b.rows[i], was.rows[i]);
    }
  }

  lemma RowsAbout(was: Book, b: Book, news: seq<Find>)
    requires Extends(was, b, news)
    ensures forall i: nat :: i < |was.rows| ==> About(b.rows[i]) == About(was.rows[i])
    ensures forall i: nat :: |was.rows| <= i < |b.rows| ==> About(b.rows[i]) == Some(Tag(news[i - |was.rows|]))
  {
    forall i: nat | |was.rows| <= i < |b.rows| ensures About(b.rows[i]) == Some(Tag(news[i - |was.rows|])) {
      assert Announces(b.rows[i], was.nextId + (i - |was.rows|), news[i - |was.rows|]);
    }
    forall i: nat | i < |was.rows| ensures About(b.rows[i]) == About(was.rows[i]) {
      assert Updates(b.rows[i], was.rows[i]);
    }
  }

  lemma OneRowEachIff(was: seq<Disc>, rows: seq<Disc>, news: seq<Find>)
    requires OneRowEach(was) && |rows| == |was| + |news|
    requires forall i: nat :: i < |was| ==> About(rows[i]) == About(was[i])
    requires forall i: nat :: |was| <= i < |rows| ==> About(rows[i]) == Some(Tag(news[i - |was|]))
    requires forall i: nat, j: nat :: i < |was| && j < |news| ==> About(was[i]) != Some(Tag(news[j]))
    ensures OneRowEach(rows) <==> NoneTwice(news)
  {
    hide About, Tag;
    if OneRowEach(rows) {
      forall i: nat, j: nat | i < j < |news| ensures Tag(news[i]) != Tag(news[j]) {
        assert About(rows[|was| + i]) != About(rows[|was| + j]);
      }
    }
  }

  lemma ExtendsTidyIff(was: Book, b: Book, managed: set<string>, finds: seq<Find>)
    requires Tidy(was) && Extends(was, b, NewOnes(was.rows, managed, finds))
    ensures Tidy(b) <==> NoneTwice(NewOnes(was.rows, managed, finds))
  {
    var news := NewOnes(was.rows, managed, finds);
    RenamesKept(was, b, news);
    IdsKept(was, b, news);
    RowsAbout(was, b, news);
    forall i: nat, j: nat | i < |was.rows| && j < |news| ensures About(was.rows[i]) != Some(Tag(news[j])) {
      NewOnesNew(was.rows, managed, finds, news[j]);
      assert IsNew(was.rows, managed, news[j]);
    }
    OneRowEachIff(was.rows, b.rows, news);
  }

  lemma AlikeTidy(a: Book, b: Book)
    requires |a.rows| == |b.rows| && a.nextId == b.nextId
    requires forall i: nat :: i < |a.rows| ==> a.rows[i].id == b.rows[i].id && About(a.rows[i]) == About(b.rows[i])
    requires forall i: nat, h :: i < |a.rows| ==> Outstanding(a.rows[i], h) == Outstanding(b.rows[i], h)
    ensures Tidy(a) <==> Tidy(b)
  {
    hide Outstanding, About;
  }

  /** What is resolved at the end of a sweep: pending new hosts that were on record, and only their status. */
  lemma ResolvedOnly(was: Book, m: Book, news: seq<Find>, source: string, managed: set<string>, now: int, i: nat)
    requires Extends(was, m, news) && i < |m.rows|
    ensures var d := Resolved(was.rows, m.rows, source, managed, now)[i];
      d == m.rows[i] || (d == Decide(m.rows[i], Confirmed, now) && m.rows[i].kind.NewHost? && m.rows[i].status.Pending?)
  {
    if i < |was.rows| { assert Updates(m.rows[i], was.rows[i]); }
  }

  /** A sweep keeps one row per vmid or address exactly when it lists none of the new ones twice. */
  lemma SweepTidyIff(b: Book, source: string, managed: set<string>, finds: seq<Find>, node: Option<string>, now: int)
    requires Tidy(b)
    ensures Tidy(Swept(b, source, managed, finds, node, now)) <==> NoneTwice(NewOnes(b.rows, managed, finds))
  {
    var m := Merged(b, managed, finds, node, now);
    var r := Swept(b, source, managed, finds, node, now);
    MergedExtends(b, managed, finds, node, now);
    ExtendsTidyIff(b, m, managed, finds);
    forall i: nat | i < |r.rows|
      ensures r.rows[i].id == m.rows[i].id && About(r.rows[i]) == About(m.rows[i]) && forall h :: Outstanding(r.rows[i], h) == Outstanding(m.rows[i], h)
    {
      ResolvedOnly(b, m, NewOnes(b.rows, managed, finds), source, managed, now, i);
    }
    hide *;
    AlikeTidy(r, m);
  }
}
