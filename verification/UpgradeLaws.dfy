/** What a start makes of the rows of the fleet's tables (webpanel/app/db.py), table by table and value by value. */
module UpgradeLaws {
  import opened Options
  import opened Schema
  import opened Migration

  // ---------------------------------------------------------------- statements that leave a table alone

  /** The statement does not change the table, if it is there. */
  ghost predicate Bypasses(s: Stmt, t: string) {
    match s
    case RenameTable(a, b) => t != a && t != b
    case RenameColumn(u, _, _) => u != t
    case CreateTable(_, _) => true
    case AddColumn(u, _, _) => u != t
    case Update(rule) => RuleTable(rule) != t
    case DropColumn(u, _) => u != t
    case CreateIndex(_, _) => true
    case SetVersion(_) => true
  }

  lemma {:induction false} BypassedTable(db: Db, ss: seq<Stmt>, t: string)
    requires t in db.tables && forall s :: s in ss ==> Bypasses(s, t)
    ensures t in RunAll(db, ss).tables && RunAll(db, ss).tables[t] == db.tables[t]
  {
    if ss != [] {
      BypassedTable(db, ss[..|ss| - 1], t);
      assert Bypasses(ss[|ss| - 1], t);
    }
  }

  function Names(columns: seq<(string, Value)>): set<string> { set e | e in columns :: e.0 }

  /** The default of an added column; NULL for any other. */
  function Default(columns: seq<(string, Value)>, c: string): Value {
    if columns == [] then Null else if columns[|columns| - 1].0 == c then columns[|columns| - 1].1 else Default(columns[..|columns| - 1], c)
  }

  /** Rows and values survive; a column that was missing is there with its default. */
  ghost predicate Grows(a: Table, b: Table, columns: seq<(string, Value)>) {
    && b.rows.Keys == a.rows.Keys && b.columns == a.columns + Names(columns) && Tidy(b)
    && forall k, c :: k in a.rows ==> Get(b.rows[k], c) == if c in a.columns then Get(a.rows[k], c) else Default(columns, c)
  }

  lemma {:induction false} DefaultsAreNamed(columns: seq<(string, Value)>, c: string)
    requires c !in Names(columns)
    ensures Default(columns, c) == Null
  {
    if columns != [] {
      assert columns[|columns| - 1] in columns;
      DefaultsAreNamed(columns[..|columns| - 1], c);
    }
  }

  lemma {:induction false} AddsGrowTable(db: Db, t: string, columns: seq<(string, Value)>)
    requires t in db.tables && Tidy(db.tables[t]) && DistinctNames(columns)
    ensures var after := RunAll(db, Adds(t, columns)); t in after.tables && Grows(db.tables[t], after.tables[t], columns)
  {
    if columns == [] {
      GrowsNothing(db.tables[t]);
    } else {
      var n := |columns| - 1;
      AddsGrowTable(db, t, columns[..n]);
      assert Adds(t, columns)[..n] == Adds(t, columns[..n]);
      var mid := RunAll(db, Adds(t, columns[..n]));
      GrowsOne(db.tables[t], mid.tables[t], columns);
      hide Grows;
    }
  }

  lemma GrowsNothing(a: Table)
    requires Tidy(a)
    ensures Grows(a, a, [])
  {
    assert Names([]) == {};
  }

  lemma GrowsOne(a: Table, b: Table, columns: seq<(string, Value)>)
    requires columns != [] && DistinctNames(columns) && Tidy(a) && Grows(a, b, columns[..|columns| - 1])
    ensures var (c, default) := columns[|columns| - 1];
      Grows(a, if c in b.columns then b else Extended(b, c, default), columns)
  {
    hide Names, Extended, Get, Tidy, Default, DistinctNames;
    var (n, init) := (|columns| - 1, columns[..|columns| - 1]);
    var (c, default) := columns[n];
    NamesNext(columns);
    var r := if c in b.columns then b else Extended(b, c, default);
    if c !in b.columns { ExtendedRows(b, c, default); }
    forall k, d | k in a.rows ensures Get(r.rows[k], d) == if d in a.columns then Get(a.rows[k], d) else Default(columns, d) {
      assert Get(b.rows[k], d) == if d in a.columns then Get(a.rows[k], d) else Default(init, d);
      DefaultNext(columns, d);
    }
  }

  lemma ExtendedRows(b: Table, c: string, default: Value)
    requires Tidy(b)
    ensures var r := Extended(b, c, default);
      && r.rows.Keys == b.rows.Keys && r.columns == b.columns + {c} && Tidy(r)
      && forall k, d :: k in b.rows ==> Get(r.rows[k], d) == if d == c then default else Get(b.rows[k], d)
  {
  }

  lemma DefaultNext(columns: seq<(string, Value)>, d: string)
    requires columns != []
    ensures var n := |columns| - 1; Default(columns, d) == if d == columns[n].0 then columns[n].1 else Default(columns[..n], d)
  {
  }

  lemma NamesNext(columns: seq<(string, Value)>)
    requires columns != [] && DistinctNames(columns)
    ensures var (n, init) := (|columns| - 1, columns[..|columns| - 1]);
      Names(columns) == Names(init) + {columns[n].0} && columns[n].0 !in Names(init)
  {
    assert columns == columns[..|columns| - 1] + [columns[|columns| - 1]];
  }

  // ---------------------------------------------------------------- the phases, for one table

  /** The columns added to a table. */
  function Added(t: string): seq<(string, Value)> {
    if t == "servers" then ADDITIVE[0].1
    else if t == "host_state" then ADDITIVE[1].1
    else if t == "jobs" then ADDITIVE[2].1
    else if t == "schedules" then ADDITIVE[3].1
    else []
  }

  lemma CreatesBypass(t: string)
    requires t != OLD_TABLE && t != NEW_TABLE
    ensures forall s :: s in PRE_CREATE + Creates(MODEL) + DISCOVERY_BACKFILL + INDEXES + [SetVersion(SCHEMA_VERSION)] ==> Bypasses(s, t)
  {
  }

  lemma AddedOnce(i: nat, t: string)
    requires i < 5 && t != NEW_TABLE
    ensures |ADDITIVE| == 5 && (if ADDITIVE[i].0 == t then Added(t) == ADDITIVE[i].1
                                else forall s :: s in Adds(ADDITIVE[i].0, ADDITIVE[i].1) ==> Bypasses(s, t))
  {
  }

  /** The table after the additive columns up to entry `i`. */
  lemma {:induction false} SomeAdds(db: Db, t: string, i: nat)
    requires t != NEW_TABLE && t in db.tables && Tidy(db.tables[t]) && i <= |ADDITIVE|
    ensures var after := RunAll(db, AllAdds(ADDITIVE[..i]));
      && t in after.tables
      && if exists j :: 0 <= j < i && ADDITIVE[j].0 == t then Grows(db.tables[t], after.tables[t], Added(t)) else after.tables[t] == db.tables[t]
  {
    if i > 0 {
      hide RunAll, Grows, Adds, AllAdds, Added, Bypasses, DistinctNames, ADDITIVE;
      SomeAdds(db, t, i - 1);
      AllAddsNext(db, i - 1);
      EntriesDiffer();
      OneAdds(RunAll(db, AllAdds(ADDITIVE[..i - 1])), t, i - 1);
    } else {
      NoAdds(db);
    }
  }

  lemma OneAdds(mid: Db, t: string, i: nat)
    requires i < |ADDITIVE| == 5 && t != NEW_TABLE && t in mid.tables
    requires ADDITIVE[i].0 == t ==> Tidy(mid.tables[t])
    ensures var after := RunAll(mid, Adds(ADDITIVE[i].0, ADDITIVE[i].1));
      t in after.tables && if ADDITIVE[i].0 == t then Grows(mid.tables[t], after.tables[t], Added(t)) else after.tables[t] == mid.tables[t]
  {
    hide RunAll, Grows, Adds, Added, Bypasses, DistinctNames, ADDITIVE;
    AdditiveIsDistinct(i);
    AddedOnce(i, t);
    if ADDITIVE[i].0 == t {
      AddsGrowTable(mid, t, ADDITIVE[i].1);
    } else {
      BypassedTable(mid, Adds(ADDITIVE[i].0, ADDITIVE[i].1), t);
    }
  }

  lemma NoAdds(db: Db)
    ensures RunAll(db, AllAdds(ADDITIVE[..0])) == db
  {
    assert ADDITIVE[..0] == [];
  }

  lemma EntriesDiffer()
    ensures |ADDITIVE| == 5
    ensures forall i, j :: 0 <= i < j < |ADDITIVE| ==> ADDITIVE[i].0 != ADDITIVE[j].0
  {
  }

  lemma AllAddsGrow(db: Db, t: string)
    requires t != NEW_TABLE && t in db.tables && Tidy(db.tables[t])
    ensures var after := RunAll(db, AllAdds(ADDITIVE)); t in after.tables && Grows(db.tables[t], after.tables[t], Added(t))
  {
    SomeAdds(db, t, |ADDITIVE|);
    assert ADDITIVE[..|ADDITIVE|] == ADDITIVE;
    if forall j :: 0 <= j < |ADDITIVE| ==> ADDITIVE[j].0 != t {
      AddedNothing(t);
      GrowsNothing(db.tables[t]);
    }
    hide RunAll, Grows, AllAdds;
  }

  lemma AddedNothing(t: string)
    requires forall j :: 0 <= j < |ADDITIVE| ==> ADDITIVE[j].0 != t
    ensures Added(t) == []
  {
    assert ADDITIVE[0].0 == "servers" && ADDITIVE[1].0 == "host_state" && ADDITIVE[2].0 == "jobs" && ADDITIVE[3].0 == "schedules";
  }

  /** What a row has in a column that its table was missing. */
  function Missing(t: string, c: string): Value {
    if t == "host_state" && c == "pending_changes" then Int(0)
    else if (t == "jobs" && c == "kind") || (t == "schedules" && c == "action") then Text("ansible")
    else Null
  }

  lemma MissingIs(t: string, c: string)
    ensures Default(Added(t), c) == Missing(t, c)
  {
    var columns := Added(t);
    if columns != [] {
      NullsButLast(t);
      assert Default(columns, c) == if columns[|columns| - 1].0 == c then columns[|columns| - 1].1 else Default(columns[..|columns| - 1], c);
      hide Added, Default;
      AllNull(columns[..|columns| - 1], c);
    }
  }

  lemma NullsButLast(t: string)
    requires Added(t) != []
    ensures var (columns, n) := (Added(t), |Added(t)| - 1);
      && (forall i :: 0 <= i < n ==> columns[i].1 == Null)
      && columns[n] == (if t == "servers" then "guest_type" else if t == "host_state" then "pending_changes" else if t == "jobs" then "kind" else "action",
                        Missing(t, columns[n].0))
      && t in {"servers", "host_state", "jobs", "schedules"}
  {
  }

  lemma {:induction false} AllNull(columns: seq<(string, Value)>, c: string)
    requires forall e :: e in columns ==> e.1 == Null
    ensures Default(columns, c) == Null
  {
    if columns != [] { AllNull(columns[..|columns| - 1], c); }
  }

  /** A value of a row as it was, or that of a column the table was missing. */
  ghost function Was(t: string, table: Table, k: nat, c: string): Value
    requires k in table.rows
  {
    if c in table.columns then Get(table.rows[k], c) else Missing(t, c)
  }

  /** Every row, with the values it had. */
  ghost predicate Carried(t: string, a: Table, b: Table) {
    b.rows.Keys == a.rows.Keys && Tidy(b) && forall k, c :: k in a.rows ==> Get(b.rows[k], c) == Was(t, a, k, c)
  }

  lemma GrownCarries(t: string, a: Table, b: Table)
    requires Grows(a, b, Added(t))
    ensures Carried(t, a, b)
  {
    forall k, c | k in a.rows ensures Get(b.rows[k], c) == Was(t, a, k, c) { MissingIs(t, c); }
    hide Added;
  }

  /** The database with the additive columns; what the fleet backfill makes of a table is what is left of it. */
  function WithColumns(db: Db): Db { RunAll(RunAll(RunAll(db, PRE_CREATE), Creates(MODEL)), AllAdds(ADDITIVE)) }

  lemma TableCarried(db: Db, t: string)
    requires t != NEW_TABLE && t != OLD_TABLE && t in db.tables && Tidy(db.tables[t])
    ensures t in WithColumns(db).tables && Carried(t, db.tables[t], WithColumns(db).tables[t])
  {
    CreatesBypass(t);
    var pre := RunAll(db, PRE_CREATE);
    var created := RunAll(pre, Creates(MODEL));
    hide RunAll, Grows, Carried, Creates, AllAdds, Bypasses;
    BypassedTable(db, PRE_CREATE, t);
    BypassedTable(pre, Creates(MODEL), t);
    AllAddsGrow(created, t);
    GrownCarries(t, db.tables[t], WithColumns(db).tables[t]);
  }

  lemma TableAtEnd(db: Db, t: string)
    requires t != NEW_TABLE && t != OLD_TABLE && t in RunAll(WithColumns(db), FLEET_BACKFILL).tables
    ensures var after := RunAll(db, InitStatements());
      && Start(db, InitStatements()) == (if Startable(db) then Some(after) else None)
      && t in after.tables && after.tables[t] == RunAll(WithColumns(db), FLEET_BACKFILL).tables[t]
  {
    StartsIff(db);
    StartRuns(db, InitStatements());
    RunPhases(db);
    CreatesBypass(t);
    var a := RunAll(WithColumns(db), FLEET_BACKFILL);
    var b := RunAll(a, DISCOVERY_BACKFILL);
    var c := RunAll(b, INDEXES);
    hide RunAll, Start, Startable, Bypasses, Creates, AllAdds, InitStatements;
    BypassedTable(a, DISCOVERY_BACKFILL, t);
    BypassedTable(b, INDEXES, t);
    BypassedTable(c, [SetVersion(SCHEMA_VERSION)], t);
  }

  /** In the database where a start ends, if it completes, every other table has all its rows with their values. */
  lemma OtherTablesLaw(db: Db, t: string)
    requires t !in {OLD_TABLE, NEW_TABLE, "servers", "host_state"} && t in db.tables && Tidy(db.tables[t])
    ensures var after := RunAll(db, InitStatements());
      && Start(db, InitStatements()) == (if Startable(db) then Some(after) else None)
      && t in after.tables && Carried(t, db.tables[t], after.tables[t])
  {
    TableCarried(db, t);
    FleetBypasses(t);
    hide RunAll, Start, Startable, WithColumns, Bypasses, Carried, InitStatements;
    BypassedTable(WithColumns(db), FLEET_BACKFILL, t);
    TableAtEnd(db, t);
  }

  lemma FleetBypasses(t: string)
    requires t != "servers" && t != "host_state"
    ensures forall s :: s in FLEET_BACKFILL ==> Bypasses(s, t)
  {
  }

  // ---------------------------------------------------------------- host_state

  /** The settled code for each code there was. */
  function Settles(code: Value): Value {
    if code == Text("updated") then Text("ok")
    else if code == Text("out_of_date") then Text("pending")
    else if code == Text("unknown") then Text("failed")
    else code
  }

  ghost predicate Recoded(a: map<nat, Row>, b: map<nat, Row>) {
    b.Keys == a.Keys && forall k, c :: k in a ==> Get(b[k], c) == if c == "config_status" then Settles(Get(a[k], c)) else Get(a[k], c)
  }

  lemma RecodeStep(db: Db, from: string, to: string)
    requires "host_state" in db.tables && "config_status" in db.tables["host_state"].columns
    ensures var after := Exec(db, Update(Recode(from, to)));
      && "host_state" in after.tables && after.tables["host_state"].columns == db.tables["host_state"].columns
      && var (a, b) := (db.tables["host_state"].rows, after.tables["host_state"].rows);
        b.Keys == a.Keys && forall k, c :: k in a ==>
          Get(b[k], c) == if c == "config_status" && Get(a[k], c) == Text(from) then Text(to) else Get(a[k], c)
  {
  }

  lemma FleetRecodes(db: Db)
    requires "host_state" in db.tables && "config_status" in db.tables["host_state"].columns
    ensures var after := RunAll(db, FLEET_BACKFILL);
      "host_state" in after.tables && Recoded(db.tables["host_state"].rows, after.tables["host_state"].rows)
  {
    var (f, g) := (FLEET_BACKFILL[..3], FLEET_BACKFILL[3..]);
    assert FLEET_BACKFILL == f + g && g == [g[0], g[1], g[2]];
    RunConcat(db, f, g);
    BypassedTable(db, f, "host_state");
    var a := RunAll(db, f);
    RunThree(a, g[0], g[1], g[2]);
    hide RunAll;
    RecodeStep(a, "updated", "ok");
    var b := Exec(a, g[0]);
    RecodeStep(b, "out_of_date", "pending");
    var c := Exec(b, g[1]);
    RecodeStep(c, "unknown", "failed");
    hide Exec;
  }

  /** Every host state is there: updated has become ok, out_of_date pending and unknown failed; any other code, and every
      other value, is as it was. */
  lemma HostStateLaw(db: Db)
    requires "host_state" in db.tables && Tidy(db.tables["host_state"])
    ensures var after := RunAll(db, InitStatements());
      && Start(db, InitStatements()) == (if Startable(db) then Some(after) else None)
      && "host_state" in after.tables
      && var (a, b) := (db.tables["host_state"], after.tables["host_state"].rows);
        && b.Keys == a.rows.Keys
        && (forall k :: k in a.rows ==> Get(b[k], "config_status") == Settles(Get(a.rows[k], "config_status")))
        && forall k, c :: k in a.rows && c != "config_status" ==> Get(b[k], c) == Was("host_state", a, k, c)
  {
    hide RunAll, Start, Startable, WithColumns, InitStatements, Settles, Was;
    TableCarried(db, "host_state");
    StatusColumn(db);
    FleetRecodes(WithColumns(db));
    StatusWas(db.tables["host_state"]);
    TableAtEnd(db, "host_state");
  }

  lemma StatusWas(a: Table)
    requires Tidy(a)
    ensures forall k :: k in a.rows ==> Was("host_state", a, k, "config_status") == Get(a.rows[k], "config_status")
  {
  }

  lemma StatusColumn(db: Db)
    ensures "host_state" in WithColumns(db).tables && "config_status" in WithColumns(db).tables["host_state"].columns
  {
    hide RunAll, Creates, AllAdds, AdditivePresent;
    CreatedHaveAdditive(RunAll(db, PRE_CREATE));
    AddedPresent(RunAll(RunAll(db, PRE_CREATE), Creates(MODEL)));
    Ready(WithColumns(db), Recode("updated", "ok"));
  }

  // ---------------------------------------------------------------- servers

  ghost predicate Any(rows: map<nat, Row>, how: string) { exists j :: j in rows && Get(rows[j], "connection_type") == Text(how) }

  /** The lowest id of a local host. */
  ghost predicate LowestLocal(rows: map<nat, Row>, id: nat) {
    && id in rows && Get(rows[id], "connection_type") == Text("local")
    && forall j :: j in rows && Get(rows[j], "connection_type") == Text("local") ==> id <= j
  }

  lemma UpdateServers(db: Db, rule: Rule)
    requires rule in {GuestIsLxc, LocalIsProxmox, GuestUnderLocal}
    requires "servers" in db.tables && RuleColumn(rule) in db.tables["servers"].columns
    ensures var after := Exec(db, Update(rule));
      && "servers" in after.tables && after.tables["servers"].columns == db.tables["servers"].columns
      && after.tables["servers"].rows == Updated(db.tables["servers"].rows, rule)
  {
  }

  /** All values but those of one column. */
  ghost predicate SameBut(a: map<nat, Row>, b: map<nat, Row>, column: string) {
    b.Keys == a.Keys && forall k, c :: k in a && c != column ==> Get(b[k], c) == Get(a[k], c)
  }

  /** The guest type of a host: one reached through Proxmox without any is a container. */
  function GuestTypeOf(r: Row): Value {
    if Get(r, "connection_type") == Text("proxmox") && Get(r, "guest_type") == Null then Text("lxc") else Get(r, "guest_type")
  }

  /** The kind of a host: a local one without any is a Proxmox node if there are guests. */
  ghost function VirtKindOf(rows: map<nat, Row>, r: Row): Value {
    if Get(r, "connection_type") == Text("local") && Get(r, "virt_kind") == Null && Any(rows, "proxmox") then Text("proxmox")
    else Get(r, "virt_kind")
  }

  /** The parent of a host: a guest without any goes under the first local host, if there is one. */
  ghost predicate ParentIs(rows: map<nat, Row>, r: Row, parent: Value) {
    if Get(r, "connection_type") == Text("proxmox") && Get(r, "parent_server_id") == Null && Any(rows, "local") then
      exists id: nat :: LowestLocal(rows, id) && parent == Int(id)
    else parent == Get(r, "parent_server_id")
  }

  lemma GuestRule(rows: map<nat, Row>)
    ensures var b := Updated(rows, GuestIsLxc);
      SameBut(rows, b, "guest_type") && forall k :: k in rows ==> Get(b[k], "guest_type") == GuestTypeOf(rows[k])
  {
  }

  lemma VirtRule(rows: map<nat, Row>)
    ensures var b := Updated(rows, LocalIsProxmox);
      SameBut(rows, b, "virt_kind") && forall k :: k in rows ==> Get(b[k], "virt_kind") == VirtKindOf(rows, rows[k])
  {
    AnyIs(rows, "proxmox");
    hide Any, AnyConnects;
  }

  lemma AnyIs(rows: map<nat, Row>, how: string)
    ensures Any(rows, how) <==> AnyConnects(rows, how)
  {
    if Any(rows, how) {
      var j :| j in rows && Get(rows[j], "connection_type") == Text(how);
      assert Connects(rows[j], how);
    }
  }

  lemma ParentRule(rows: map<nat, Row>)
    ensures var b := Updated(rows, GuestUnderLocal);
      SameBut(rows, b, "parent_server_id") && forall k :: k in rows ==> ParentIs(rows, rows[k], Get(b[k], "parent_server_id"))
  {
    AnyIs(rows, "local");
    if Any(rows, "local") {
      var id := FirstLocal(rows);
      assert LowestLocal(rows, id);
    }
    hide Any, AnyConnects, FirstLocal, LowestLocal;
  }

  lemma SameConnectionsAny(a: map<nat, Row>, b: map<nat, Row>, column: string)
    requires SameBut(a, b, column) && column != "connection_type"
    ensures forall how :: Any(b, how) <==> Any(a, how)
    ensures forall id: nat :: LowestLocal(b, id) <==> LowestLocal(a, id)
  {
    forall how ensures Any(b, how) <==> Any(a, how) {
      if j :| j in a && Get(a[j], "connection_type") == Text(how) { assert j in b && Get(b[j], "connection_type") == Text(how); }
      if j :| j in b && Get(b[j], "connection_type") == Text(how) { assert j in a && Get(a[j], "connection_type") == Text(how); }
    }
  }

  /** What the fleet backfill makes of the hosts. */
  ghost predicate Placed(a: map<nat, Row>, b: map<nat, Row>) {
    && b.Keys == a.Keys
    && forall k :: k in a ==>
      && Get(b[k], "guest_type") == GuestTypeOf(a[k])
      && Get(b[k], "virt_kind") == VirtKindOf(a, a[k])
      && ParentIs(a, a[k], Get(b[k], "parent_server_id"))
      && forall c :: c !in {"guest_type", "virt_kind", "parent_server_id"} ==> Get(b[k], c) == Get(a[k], c)
  }

  lemma RulesPlace(a: map<nat, Row>)
    ensures Placed(a, Updated(Updated(Updated(a, GuestIsLxc), LocalIsProxmox), GuestUnderLocal))
  {
    var b := Updated(a, GuestIsLxc);
    var c := Updated(b, LocalIsProxmox);
    var d := Updated(c, GuestUnderLocal);
    GuestRule(a);
    VirtRule(b);
    ParentRule(c);
    hide Updated, VirtKindOf, ParentIs, GuestTypeOf, Any, LowestLocal;
    SameConnectionsAny(a, b, "guest_type");
    SameConnectionsAny(b, c, "virt_kind");
    forall k | k in a ensures VirtKindOf(b, b[k]) == VirtKindOf(a, a[k]) { SameVirt(a, b, a[k], b[k]); }
    forall k, v | k in a ensures ParentIs(c, c[k], v) == ParentIs(a, a[k], v) { SameParent(a, c, a[k], c[k], v); }
  }

  lemma SameVirt(a: map<nat, Row>, b: map<nat, Row>, r: Row, q: Row)
    requires forall how :: Any(b, how) <==> Any(a, how)
    requires Get(q, "connection_type") == Get(r, "connection_type") && Get(q, "virt_kind") == Get(r, "virt_kind")
    ensures VirtKindOf(b, q) == VirtKindOf(a, r)
  {
    hide Any;
  }

  lemma SameParent(a: map<nat, Row>, c: map<nat, Row>, r: Row, q: Row, v: Value)
    requires forall how :: Any(c, how) <==> Any(a, how)
    requires forall id: nat :: LowestLocal(c, id) <==> LowestLocal(a, id)
    requires Get(q, "connection_type") == Get(r, "connection_type") && Get(q, "parent_server_id") == Get(r, "parent_server_id")
    ensures ParentIs(c, q, v) == ParentIs(a, r, v)
  {
    hide Any, LowestLocal;
  }

  lemma FleetPlaces(db: Db)
    requires "servers" in db.tables && {"guest_type", "virt_kind", "parent_server_id"} <= db.tables["servers"].columns
    ensures var after := RunAll(db, FLEET_BACKFILL);
      "servers" in after.tables && Placed(db.tables["servers"].rows, after.tables["servers"].rows)
  {
    var (f, g) := (FLEET_BACKFILL[..3], FLEET_BACKFILL[3..]);
    assert FLEET_BACKFILL == f + g && f == [f[0], f[1], f[2]];
    RunConcat(db, f, g);
    RunThree(db, f[0], f[1], f[2]);
    UpdateServers(db, GuestIsLxc);
    var b := Exec(db, f[0]);
    UpdateServers(b, LocalIsProxmox);
    var c := Exec(b, f[1]);
    UpdateServers(c, GuestUnderLocal);
    hide RunAll, Exec, Placed, Updated;
    BypassedTable(RunAll(db, f), g, "servers");
    RulesPlace(db.tables["servers"].rows);
  }

  /** The hosts with the columns that their table was missing. */
  ghost predicate Completed(a: Table, rows: map<nat, Row>) {
    rows.Keys == a.rows.Keys && forall k, c :: k in rows ==> Get(rows[k], c) == Was("servers", a, k, c)
  }

  /** Every host is there with every value it had. One reached through Proxmox that had no guest type is a container; one
      without a parent is under the local host with the lowest id, if there is a local host. A local host of no kind is a
      Proxmox node if and only if some host is reached through Proxmox. */
  lemma ServersLaw(db: Db)
    requires "servers" in db.tables && Tidy(db.tables["servers"])
    ensures var after := RunAll(db, InitStatements());
      && Start(db, InitStatements()) == (if Startable(db) then Some(after) else None)
      && "servers" in after.tables
      && exists rows :: Completed(db.tables["servers"], rows) && Placed(rows, after.tables["servers"].rows)
  {
    TableCarried(db, "servers");
    var rows := WithColumns(db).tables["servers"].rows;
    assert Completed(db.tables["servers"], rows);
    ServerColumns(db);
    FleetPlaces(WithColumns(db));
    hide RunAll, Start, Startable, WithColumns, InitStatements, Placed, Completed, Carried;
    TableAtEnd(db, "servers");
    assert Completed(db.tables["servers"], rows) && Placed(rows, RunAll(db, InitStatements()).tables["servers"].rows);
  }

  lemma ServerColumns(db: Db)
    ensures "servers" in WithColumns(db).tables && {"guest_type", "virt_kind", "parent_server_id"} <= WithColumns(db).tables["servers"].columns
  {
    hide RunAll, Creates, AllAdds, AdditivePresent;
    CreatedHaveAdditive(RunAll(db, PRE_CREATE));
    AddedPresent(RunAll(RunAll(db, PRE_CREATE), Creates(MODEL)));
    ReadyServers(WithColumns(db));
  }

  lemma ReadyServers(db: Db)
    requires AdditivePresent(db)
    ensures "servers" in db.tables && {"guest_type", "virt_kind", "parent_server_id"} <= db.tables["servers"].columns
  {
    Ready(db, GuestIsLxc);
    Ready(db, LocalIsProxmox);
    Ready(db, GuestUnderLocal);
    hide AdditivePresent, ADDITIVE;
  }

  // ---------------------------------------------------------------- the schema

  lemma {:induction false} TablesStay(db: Db, ss: seq<Stmt>)
    requires forall s :: s in ss ==> !s.RenameTable?
    ensures db.tables.Keys <= RunAll(db, ss).tables.Keys
    ensures db.indexes <= RunAll(db, ss).indexes
  {
    if ss != [] {
      TablesStay(db, ss[..|ss| - 1]);
      assert ss[|ss| - 1] in ss;
    }
  }

  const TABLES: seq<string> := [
    "users", "credentials", "servers", "host_groups", "host_group_members", "host_group_children", "plugins", "plugin_configs", "jobs",
    "host_state", "host_events", "host_inventory", "docker_containers", "schedules", "discoveries", "settings", "subnets", "audit_log"
  ]

  lemma ModelNames()
    ensures |MODEL| == |TABLES| && forall i :: 0 <= i < |TABLES| ==> MODEL[i].0 == TABLES[i]
  {
  }

  /** After a start all tables are there, and so are the indexes of the discoveries and the version. */
  lemma SchemaLaw(db: Db)
    ensures var after := RunAll(db, InitStatements());
      && Start(db, InitStatements()) == (if Startable(db) then Some(after) else None)
      && after.version == "12"
      && {"ix_discoveries_source_vmid", "ix_discoveries_server_status"} <= after.indexes
      && forall t :: t in TABLES ==> t in after.tables
  {
    hide RunAll, Start, Startable, InitStatements, Creates, AllAdds, MODEL, TABLES, INDEXES, Backfilled;
    StartsIff(db);
    StartRuns(db, InitStatements());
    var pre := RunAll(db, PRE_CREATE);
    var created := RunAll(pre, Creates(MODEL));
    CreatesExist(pre, MODEL);
    ModelNames();
    forall t | t in TABLES ensures t in created.tables {
      var i :| 0 <= i < |TABLES| && TABLES[i] == t;
      assert MODEL[i] in MODEL && MODEL[i].0 == t;
    }
    BackfilledTables(created);
    Closing(Backfilled(created));
    EndsBackfilled(db);
  }

  lemma EndsBackfilled(db: Db)
    ensures RunAll(db, InitStatements()) ==
            RunAll(RunAll(Backfilled(RunAll(RunAll(db, PRE_CREATE), Creates(MODEL))), INDEXES), [SetVersion(SCHEMA_VERSION)])
  {
    RunPhases(db);
    hide RunAll, InitStatements, Creates, AllAdds;
  }

  lemma Closing(db: Db)
    ensures var after := RunAll(RunAll(db, INDEXES), [SetVersion(SCHEMA_VERSION)]);
      after.version == "12" && {"ix_discoveries_source_vmid", "ix_discoveries_server_status"} <= after.indexes && after.tables == db.tables
  {
    RunTwo(db, INDEXES[0], INDEXES[1]);
    RunOne(RunAll(db, INDEXES), SetVersion(SCHEMA_VERSION));
    hide RunAll;
  }

  function Backfilled(created: Db): Db { RunAll(RunAll(RunAll(created, AllAdds(ADDITIVE)), FLEET_BACKFILL), DISCOVERY_BACKFILL) }

  lemma BackfilledTables(created: Db)
    ensures created.tables.Keys <= Backfilled(created).tables.Keys
  {
    hide RunAll, AllAdds;
    AddsOnly(ADDITIVE);
    TablesStay(created, AllAdds(ADDITIVE));
    var a := RunAll(created, AllAdds(ADDITIVE));
    TablesStay(a, FLEET_BACKFILL);
    TablesStay(RunAll(a, FLEET_BACKFILL), DISCOVERY_BACKFILL);
  }

  // ---------------------------------------------------------------- the columns

  /** The columns that releases added to each table. */
  function Later(t: string): set<string> {
    if t == "servers" then {"parent_server_id", "virt_kind", "guest_type"}
    else if t == "host_state" then {"config_status", "config_checked_at", "pending_changes"}
    else if t == "jobs" then {"log_text", "server_ids", "plugin_ids", "group_ids", "kind"}
    else if t == "schedules" then {"group_ids", "action"}
    else if t == "discoveries" then {"kind", "status", "server_id", "old_name", "new_name", "resolved_at", "guest_type", "address"}
    else {}
  }

  ghost predicate KeepsColumns(s: Stmt) { s.Update? || s.CreateIndex? || s.SetVersion? || (s.DropColumn? && s.column == "dismissed") }

  lemma {:induction false} ColumnStays(db: Db, ss: seq<Stmt>, t: string, c: string)
    requires HasColumn(db, t, c) && c != "dismissed" && forall s :: s in ss ==> KeepsColumns(s)
    ensures HasColumn(RunAll(db, ss), t, c)
  {
    if ss != [] {
      ColumnStays(db, ss[..|ss| - 1], t, c);
      assert ss[|ss| - 1] in ss;
      hide RunAll;
      ColumnStep(RunAll(db, ss[..|ss| - 1]), ss[|ss| - 1], t, c);
      RunLast(db, ss);
    }
  }

  lemma RunLast(db: Db, ss: seq<Stmt>)
    requires ss != []
    ensures RunAll(db, ss) == Exec(RunAll(db, ss[..|ss| - 1]), ss[|ss| - 1])
  {
    hide Exec;
  }

  lemma ColumnStep(db: Db, s: Stmt, t: string, c: string)
    requires HasColumn(db, t, c) && c != "dismissed" && KeepsColumns(s)
    ensures HasColumn(Exec(db, s), t, c)
  {
  }

  lemma LaterPresent(db: Db, t: string, c: string)
    requires AdditivePresent(db) && c in Later(t)
    ensures HasColumn(db, t, c)
  {
    var i := if t == "servers" then 0 else if t == "host_state" then 1 else if t == "jobs" then 2 else if t == "schedules" then 3 else 4;
    assert ADDITIVE[i].0 == t;
    var columns := ADDITIVE[i].1;
    assert c == columns[0].0 || c == columns[1].0 || (|columns| > 2 && c == columns[2].0)
      || (|columns| > 4 && (c == columns[3].0 || c == columns[4].0))
      || (|columns| > 7 && (c == columns[5].0 || c == columns[6].0 || c == columns[7].0));
  }

  /** Whatever release the database is from, after a start every table has the columns that were added to it since. */
  lemma ColumnsLaw(db: Db, t: string, c: string)
    requires c in Later(t)
    ensures var after := RunAll(db, InitStatements());
      && Start(db, InitStatements()) == (if Startable(db) then Some(after) else None)
      && t in after.tables && c in after.tables[t].columns
  {
    hide RunAll, Start, Startable, Creates, AllAdds, AdditivePresent, InitStatements, ADDITIVE, MODEL, HasColumn;
    StartsIff(db);
    StartRuns(db, InitStatements());
    CreatedHaveAdditive(RunAll(db, PRE_CREATE));
    AddedPresent(RunAll(RunAll(db, PRE_CREATE), Creates(MODEL)));
    LaterPresent(WithColumns(db), t, c);
    EndsBackfilled(db);
    NotDismissed(t, c);
    ColumnStays(WithColumns(db), FLEET_BACKFILL, t, c);
    ColumnStays(RunAll(WithColumns(db), FLEET_BACKFILL), DISCOVERY_BACKFILL, t, c);
    var filled := RunAll(RunAll(WithColumns(db), FLEET_BACKFILL), DISCOVERY_BACKFILL);
    ColumnStays(filled, INDEXES, t, c);
    ColumnStays(RunAll(filled, INDEXES), [SetVersion(SCHEMA_VERSION)], t, c);
    HasColumnIs(RunAll(db, InitStatements()), t, c);
  }

  lemma HasColumnIs(db: Db, t: string, c: string)
    requires HasColumn(db, t, c)
    ensures t in db.tables && c in db.tables[t].columns
  {
  }

  lemma NotDismissed(t: string, c: string)
    requires c in Later(t)
    ensures c != "dismissed"
  {
  }
}
