/** `init_db` (webpanel/app/db.py): the statements it issues, in the order it issues them. */
module Migration {
  import opened Options
  import opened Schema

  /** Columns added after the first release, by table, in the order of `_ADDITIVE_COLUMNS`. */
  const ADDITIVE: seq<(string, seq<(string, Value)>)> := [
    ("servers", [("parent_server_id", Null), ("virt_kind", Null), ("guest_type", Null)]),
    ("host_state", [("config_status", Null), ("config_checked_at", Null), ("pending_changes", Int(0))]),
    ("jobs", [("log_text", Null), ("server_ids", Null), ("plugin_ids", Null), ("group_ids", Null), ("kind", Text("ansible"))]),
    ("schedules", [("group_ids", Null), ("action", Text("ansible"))]),
    ("discoveries", [("kind", Null), ("status", Null), ("server_id", Null), ("old_name", Null), ("new_name", Null),
                     ("resolved_at", Null), ("guest_type", Null), ("address", Null)])
  ]

  /** The model's tables, for `create_all`. */
  const MODEL: seq<(string, set<string>)> := [
    ("users", {"id", "username", "password_hash", "role", "is_active", "failed_logins", "locked_until", "created_at", "last_login_at"}),
    ("credentials", {"id", "name", "type", "secret_ciphertext", "meta_json", "created_by", "created_at"}),
    ("servers", {"id", "name", "connection_type", "address", "port", "ssh_user", "credential_id", "proxmox_node", "proxmox_vmid",
                 "proxmox_endpoint", "parent_server_id", "virt_kind", "guest_type", "enabled", "created_at", "updated_at"}),
    ("host_groups", {"id", "name", "description"}),
    ("host_group_members", {"id", "host_group_id", "server_id"}),
    ("host_group_children", {"id", "parent_group_id", "child_group_id"}),
    ("plugins", {"id", "key", "name", "ansible_tags", "role_name", "description", "schema_json", "supported_connections",
                 "enable_var", "supports_check_mode", "order", "enabled", "version", "installed_at"}),
    ("plugin_configs", {"id", "plugin_id", "scope", "scope_ref_id", "config_json", "updated_by", "updated_at"}),
    ("jobs", {"id", "status", "mode", "kind", "target_type", "target_ref", "plugin_tags", "server_ids", "plugin_ids", "group_ids",
              "started_at", "finished_at", "return_code", "log_path", "log_text", "pid", "triggered_by", "created_at"}),
    ("host_state", {"id", "server_id", "last_job_id", "last_status", "reboot_required", "facts_json", "plugin_state_json",
                    "config_status", "config_checked_at", "pending_changes", "updated_at"}),
    ("host_events", {"id", "server_id", "kind", "status", "message", "job_id", "created_at"}),
    ("host_inventory", {"id", "server_id", "key", "value", "previous_value", "changed_at", "updated_at"}),
    ("docker_containers", {"id", "host_server_id", "container_id", "name", "image", "state", "status", "ports",
                           "compose_project", "first_seen", "last_seen", "updated_at"}),
    ("schedules", {"id", "name", "enabled", "kind", "interval_minutes", "daily_time", "mode", "action", "server_ids", "plugin_ids",
                   "group_ids", "last_run_at", "next_run_at", "created_by", "created_at"}),
    ("discoveries", {"id", "kind", "status", "source", "name", "proxmox_node", "proxmox_vmid", "guest_type", "status_text", "address",
                     "server_id", "old_name", "new_name", "first_seen", "last_seen", "resolved_at"}),
    ("settings", {"key", "value", "value_type"}),
    ("subnets", {"id", "label", "spec", "enabled", "created_by", "created_at"}),
    ("audit_log", {"id", "user_id", "action", "target", "detail_json", "created_at"})
  ]

  const PRE_CREATE: seq<Stmt> := [RenameTable(OLD_TABLE, NEW_TABLE), RenameColumn(NEW_TABLE, "status", "status_text")]

  function Creates(model: seq<(string, set<string>)>): seq<Stmt> {
    seq(|model|, i requires 0 <= i < |model| => CreateTable(model[i].0, model[i].1))
  }

  function Adds(table: string, columns: seq<(string, Value)>): seq<Stmt> {
    seq(|columns|, i requires 0 <= i < |columns| => AddColumn(table, columns[i].0, columns[i].1))
  }

  function AllAdds(additive: seq<(string, seq<(string, Value)>)>): seq<Stmt> {
    if additive == [] then []
    else AllAdds(additive[..|additive| - 1]) + Adds(additive[|additive| - 1].0, additive[|additive| - 1].1)
  }

  const FLEET_BACKFILL: seq<Stmt> := [
    Update(GuestIsLxc), Update(LocalIsProxmox), Update(GuestUnderLocal),
    Update(Recode("updated", "ok")), Update(Recode("out_of_date", "pending")), Update(Recode("unknown", "failed"))
  ]

  const DISCOVERY_BACKFILL: seq<Stmt> := [
    Update(KindIsNewHost), Update(DismissedIsIgnored), Update(OtherIsPending), DropColumn(NEW_TABLE, "dismissed")
  ]

  const INDEXES: seq<Stmt> := [CreateIndex("ix_discoveries_source_vmid", INDEXED), CreateIndex("ix_discoveries_server_status", {"server_id", "status"})]

  /** Everything after the two renames. */
  function Rest(): seq<Stmt> { Creates(MODEL) + AllAdds(ADDITIVE) + FLEET_BACKFILL + DISCOVERY_BACKFILL + INDEXES + [SetVersion(SCHEMA_VERSION)] }

  /** The statements of the second transaction. */
  function MigrateStatements(): seq<Stmt> { AllAdds(ADDITIVE) + FLEET_BACKFILL + DISCOVERY_BACKFILL + INDEXES }

  function InitStatements(): seq<Stmt> { PRE_CREATE + Rest() }

  // ---------------------------------------------------------------- the code

  ghost predicate DistinctNames(columns: seq<(string, Value)>) {
    forall i, j :: 0 <= i < j < |columns| ==> columns[i].0 != columns[j].0
  }

  lemma AdditiveIsDistinct(i: nat)
    requires i < |ADDITIVE|
    ensures DistinctNames(ADDITIVE[i].1)
  {
  }

  class Engine {
    var db: Db

    constructor (db: Db)
      ensures this.db == db
    {
      this.db := db;
    }

    predicate TableExists(table: string) reads this { table in db.tables }

    /** `PRAGMA table_info`: no columns for a table that does not exist. */
    function TableColumns(table: string): set<string> reads this {
      if table in db.tables then db.tables[table].columns else {}
    }

    method MigratePreCreate()
      modifies this
      ensures db == RunAll(old(db), PRE_CREATE)
    {
      RunTwo(db, PRE_CREATE[0], PRE_CREATE[1]);
      if TableExists(OLD_TABLE) && !TableExists(NEW_TABLE) {
        db := db.(tables := (db.tables - {OLD_TABLE})[NEW_TABLE := db.tables[OLD_TABLE]]);
      }
      if TableExists(NEW_TABLE) {
        var cols := TableColumns(NEW_TABLE);
        if "status" in cols && "status_text" !in cols {
          db := Put(db, NEW_TABLE, Renamed(db.tables[NEW_TABLE], "status", "status_text"));
        }
      }
    }

    /** `Base.metadata.create_all` */
    method CreateAll()
      modifies this
      ensures db == RunAll(old(db), Creates(MODEL))
    {
      var i := 0;
      while i < |MODEL|
        invariant 0 <= i <= |MODEL|
        invariant db == RunAll(old(db), Creates(MODEL)[..i])
      {
        RunAllNext(old(db), Creates(MODEL), i);
        if !TableExists(MODEL[i].0) { db := Put(db, MODEL[i].0, Table(MODEL[i].1, map[])); }
        i := i + 1;
      }
      assert Creates(MODEL)[..i] == Creates(MODEL);
    }

    /** The columns a table is missing, judged by one look at it beforehand. */
    method AddMissing(table: string, columns: seq<(string, Value)>)
      requires table in db.tables && DistinctNames(columns)
      modifies this
      ensures db == RunAll(old(db), Adds(table, columns))
      ensures db.tables.Keys == old(db.tables.Keys)
    {
      var have := TableColumns(table);
      var j := 0;
      ghost var ss := Adds(table, columns);
      assert RunAll(old(db), ss[..0]) == old(db);
      hide RunAll;
      while j < |columns|
        invariant 0 <= j <= |columns| && table in db.tables
        invariant db == RunAll(old(db), ss[..j]) && db.tables.Keys == old(db.tables.Keys)
        invariant forall k :: j <= k < |columns| ==> (columns[k].0 in have <==> columns[k].0 in db.tables[table].columns)
      {
        RunAllNext(old(db), ss, j);
        var (name, default) := columns[j];
        if name !in have { db := Put(db, table, Extended(db.tables[table], name, default)); }
        j := j + 1;
      }
      assert ss[..j] == ss;
    }

    method AddColumns()
      requires forall e :: e in ADDITIVE ==> e.0 in db.tables
      modifies this
      ensures db == RunAll(old(db), AllAdds(ADDITIVE)) && db.tables.Keys == old(db.tables.Keys)
    {
      var i := 0;
      while i < |ADDITIVE|
        invariant 0 <= i <= |ADDITIVE|
        invariant db == RunAll(old(db), AllAdds(ADDITIVE[..i])) && db.tables.Keys == old(db.tables.Keys)
      {
        AdditiveIsDistinct(i);
        assert ADDITIVE[i] in ADDITIVE;
        var (table, columns) := ADDITIVE[i];
        AllAddsNext(old(db), i);
        AddMissing(table, columns);
        i := i + 1;
      }
      assert ADDITIVE[..i] == ADDITIVE;
    }

    /** Fails, changing nothing, when a column is missing. */
    method Issue(rule: Rule) returns (ok: bool)
      requires rule.DismissedIsIgnored? ==> NEW_TABLE in db.tables && "dismissed" in db.tables[NEW_TABLE].columns
      modifies this
      ensures ok == (RuleTable(rule) in old(db).tables && Mentioned(rule) <= old(db).tables[RuleTable(rule)].columns)
      ensures db == if ok then Exec(old(db), Update(rule)) else old(db)
    {
      var t := RuleTable(rule);
      ok := TableExists(t) && Mentioned(rule) <= TableColumns(t);
      if ok { db := Put(db, t, Table(db.tables[t].columns, Updated(db.tables[t].rows, rule))); }
    }

    method BackfillFleet() returns (ok: bool)
      modifies this
      ensures Start(old(db), FLEET_BACKFILL) == if ok then Some(db) else None
    {
      var i := 0;
      assert FLEET_BACKFILL[..0] == [];
      while i < |FLEET_BACKFILL|
        invariant 0 <= i <= |FLEET_BACKFILL|
        invariant Start(old(db), FLEET_BACKFILL[..i]) == Some(db)
      {
        StartNext(old(db), FLEET_BACKFILL, i);
        ok := Issue(FLEET_BACKFILL[i].rule);
        if !ok { return; }
        i := i + 1;
      }
      assert FLEET_BACKFILL[..i] == FLEET_BACKFILL;
      ok := true;
    }

    method BackfillDiscoveries() returns (ok: bool)
      modifies this
      ensures Start(old(db), DISCOVERY_BACKFILL) == if ok then Some(db) else None
    {
      StartFour(db, DISCOVERY_BACKFILL[0], DISCOVERY_BACKFILL[1], DISCOVERY_BACKFILL[2], DISCOVERY_BACKFILL[3]);
      ok := true;
      if TableExists(NEW_TABLE) {
        ok := Issue(KindIsNewHost);
        if !ok { return; }
        var cols := TableColumns(NEW_TABLE);
        if "dismissed" in cols {
          ok := Issue(DismissedIsIgnored);
          if !ok { return; }
        }
        ok := Issue(OtherIsPending);
        if !ok { return; }
        if "dismissed" in cols { db := Put(db, NEW_TABLE, Shortened(db.tables[NEW_TABLE], "dismissed")); }
      }
    }

    method CreateIndexes() returns (ok: bool)
      modifies this
      ensures Start(old(db), INDEXES) == if ok then Some(db) else None
    {
      StartTwo(db, INDEXES[0], INDEXES[1]);
      ok := TableExists(NEW_TABLE) ==> INDEXED <= TableColumns(NEW_TABLE);
      if !ok { return; }
      db := db.(indexes := db.indexes + {"ix_discoveries_source_vmid"});
      ok := TableExists(NEW_TABLE) ==> {"server_id", "status"} <= TableColumns(NEW_TABLE);
      if !ok { return; }
      db := db.(indexes := db.indexes + {"ix_discoveries_server_status"});
    }

    /** `_migrate`: one transaction, taken back as a whole when a statement fails. */
    method Migrate() returns (ok: bool)
      requires forall e :: e in ADDITIVE ==> e.0 in db.tables
      modifies this
      ensures Start(old(db), MigrateStatements()) == if ok then Some(db) else None
      ensures !ok ==> db == old(db)
    {
      var before := db;
      AddsSucceed(db);
      MigrateParts(db);
      hide RunAll, Start, Exec, AllAdds, MigrateStatements;
      AddColumns();
      ok := BackfillFleet();
      if ok { ok := BackfillDiscoveries(); }
      if ok { ok := CreateIndexes(); }
      if !ok { db := before; }
    }

    /** Ends with the statements run, or with an error: then with what the first two transactions did, and this happens
        exactly when a column is missing that no release adds. */
    method InitDb() returns (ok: bool)
      modifies this
      ensures Start(old(db), InitStatements()) == if ok then Some(db) else None
      ensures ok <==> Startable(old(db))
      ensures !ok ==> db == RunAll(old(db), PRE_CREATE + Creates(MODEL))
    {
      ghost var db0 := db;
      StartsIff(db0);
      StartPhases(db0);
      RunConcat(db0, PRE_CREATE, Creates(MODEL));
      CreatedHaveAdditive(RunAll(db0, PRE_CREATE));
      hide RunAll, Start, Startable, Creates, MigrateStatements, InitStatements, MODEL, ADDITIVE, PRE_CREATE;
      MigratePreCreate();
      CreateAll();
      ok := Migrate();
      if ok { StampVersion(); }
    }

    method StampVersion()
      modifies this
      ensures Start(old(db), [SetVersion(SCHEMA_VERSION)]) == Some(db)
    {
      StartOne(db, SetVersion(SCHEMA_VERSION));
      if db.version != SCHEMA_VERSION { db := db.(version := SCHEMA_VERSION); }
    }
  }

  // ---------------------------------------------------------------- when a start completes

  lemma StartOne(db: Db, a: Stmt)
    ensures Start(db, [a]) == if Succeeds(db, a) then Some(Exec(db, a)) else None
  {
    assert [a][..0] == [];
  }

  lemma StartTwo(db: Db, a: Stmt, b: Stmt)
    ensures Start(db, [a, b]) == Continue(Start(db, [a]), [b])
    ensures Start(db, [a]) == if Succeeds(db, a) then Some(Exec(db, a)) else None
    ensures Succeeds(db, a) ==> Start(Exec(db, a), [b]) == if Succeeds(Exec(db, a), b) then Some(Exec(Exec(db, a), b)) else None
  {
    StartOne(db, a);
    StartOne(Exec(db, a), b);
    assert [a, b] == [a] + [b];
    StartConcat(db, [a], [b]);
  }

  /** One statement after the other. */
  function Then(d: Option<Db>, s: Stmt): Option<Db> { if d.Some? && Succeeds(d.value, s) then Some(Exec(d.value, s)) else None }

  lemma StartFour(db: Db, a: Stmt, b: Stmt, c: Stmt, d: Stmt)
    ensures Start(db, [a, b, c, d]) == Then(Then(Then(Then(Some(db), a), b), c), d)
  {
    assert [a, b, c, d][..3] == [a, b, c] && [a, b, c][..2] == [a, b] && [a, b][..1] == [a] && [a][..0] == [];
    assert Start(db, [a]) == Then(Some(db), a);
    assert Start(db, [a, b]) == Then(Start(db, [a]), b);
    assert Start(db, [a, b, c]) == Then(Start(db, [a, b]), c);
    hide Exec, Succeeds;
  }

  lemma AddsSucceed(db: Db)
    requires forall e :: e in ADDITIVE ==> e.0 in db.tables
    ensures Start(db, AllAdds(ADDITIVE)) == Some(RunAll(db, AllAdds(ADDITIVE)))
  {
    AddsOnly(ADDITIVE);
    StartAll(db, AllAdds(ADDITIVE));
  }

  lemma {:induction false} AddsOnly(additive: seq<(string, seq<(string, Value)>)>)
    ensures forall s :: s in AllAdds(additive) ==> s.AddColumn? && exists e :: e in additive && e.0 == s.table
  {
    if additive != [] {
      var n := |additive| - 1;
      AddsOnly(additive[..n]);
      assert additive == additive[..n] + [additive[n]];
      forall s | s in AllAdds(additive) ensures s.AddColumn? && exists e :: e in additive && e.0 == s.table {
        if s in AllAdds(additive[..n]) {
          var e :| e in additive[..n] && e.0 == s.table;
          assert e in additive;
        } else {
          assert additive[n] in additive && additive[n].0 == s.table;
        }
      }
    }
  }

  lemma CreatesSucceed(db: Db)
    ensures Start(db, Creates(MODEL)) == Some(RunAll(db, Creates(MODEL)))
  {
    StartAll(db, Creates(MODEL));
  }

  lemma RenamesSucceed(db: Db)
    ensures Start(db, PRE_CREATE) == Some(RunAll(db, PRE_CREATE))
  {
    StartTwo(db, PRE_CREATE[0], PRE_CREATE[1]);
    StartRuns(db, PRE_CREATE);
  }

  lemma MigrateParts(db: Db)
    ensures Start(db, MigrateStatements()) ==
            Continue(Continue(Continue(Start(db, AllAdds(ADDITIVE)), FLEET_BACKFILL), DISCOVERY_BACKFILL), INDEXES)
  {
    var a, b, c, d := AllAdds(ADDITIVE), FLEET_BACKFILL, DISCOVERY_BACKFILL, INDEXES;
    hide Start;
    StartConcat(db, a + b + c, d);
    StartConcat(db, a + b, c);
    StartConcat(db, a, b);
  }

  lemma StartPhases(db: Db)
    ensures Start(db, InitStatements()) ==
            Continue(Start(RunAll(RunAll(db, PRE_CREATE), Creates(MODEL)), MigrateStatements()), [SetVersion(SCHEMA_VERSION)])
  {
    var a, b, m, v := PRE_CREATE, Creates(MODEL), MigrateStatements(), [SetVersion(SCHEMA_VERSION)];
    assert InitStatements() == a + b + m + v;
    RenamesSucceed(db);
    CreatesSucceed(RunAll(db, a));
    hide Start, RunAll, Creates, MigrateStatements, InitStatements;
    StartConcat(db, a + b + m, v);
    StartConcat(db, a + b, m);
    StartConcat(db, a, b);
  }

  lemma {:induction false} UpdatesStart(db: Db, ss: seq<Stmt>)
    requires forall s :: s in ss ==> s.Update? && RuleTable(s.rule) in db.tables && Mentioned(s.rule) <= db.tables[RuleTable(s.rule)].columns
    ensures Start(db, ss).Some? && SameColumns(db, Start(db, ss).value)
  {
    if ss != [] {
      hide Updated, Applies;
      UpdatesStart(db, ss[..|ss| - 1]);
      assert ss[|ss| - 1] in ss;
    }
  }

  lemma FleetIff(db: Db)
    requires AdditivePresent(db)
    ensures Start(db, FLEET_BACKFILL).Some? <==> HasConnections(db)
    ensures Start(db, FLEET_BACKFILL).Some? ==> SameColumns(db, Start(db, FLEET_BACKFILL).value)
  {
    Ready(db, GuestIsLxc);
    Ready(db, LocalIsProxmox);
    Ready(db, GuestUnderLocal);
    Ready(db, Recode("updated", "ok"));
    if HasConnections(db) {
      UpdatesStart(db, FLEET_BACKFILL);
    } else {
      assert FLEET_BACKFILL[..0] == [];
      StartNext(db, FLEET_BACKFILL, 0);
    }
  }

  lemma DiscoveriesStart(db: Db)
    requires AdditivePresent(db)
    ensures Start(db, DISCOVERY_BACKFILL).Some?
    ensures var d := Start(db, DISCOVERY_BACKFILL).value; Has(d, "server_id") && Has(d, "status")
  {
    Ready(db, KindIsNewHost);
    Ready(db, OtherIsPending);
    assert ADDITIVE[4].0 == NEW_TABLE && ADDITIVE[4].1[2].0 == "server_id";
    UpdatesStart(db, DISCOVERY_BACKFILL[..3]);
    assert DISCOVERY_BACKFILL[..3] + [DISCOVERY_BACKFILL[3]] == DISCOVERY_BACKFILL;
    var c := Start(db, DISCOVERY_BACKFILL[..3]).value;
    StartConcat(db, DISCOVERY_BACKFILL[..3], [DISCOVERY_BACKFILL[3]]);
    StartOne(c, DISCOVERY_BACKFILL[3]);
  }

  lemma IndexesIff(db: Db)
    requires Has(db, "server_id") && Has(db, "status")
    ensures Start(db, INDEXES).Some? <==> Indexable(db)
  {
    StartTwo(db, INDEXES[0], INDEXES[1]);
  }

  lemma InitIsNeutral()
    ensures forall s :: s in InitStatements() ==> Neutral(s)
    ensures forall s :: s in Creates(MODEL) + AllAdds(ADDITIVE) + FLEET_BACKFILL + DISCOVERY_BACKFILL ==> Neutral(s)
  {
    CreatesNeutral();
    AdditiveNeutral();
    hide Creates, AllAdds, MODEL, ADDITIVE;
  }

  lemma CreatesNeutral()
    ensures forall s :: s in Creates(MODEL) ==> Neutral(s)
  {
    forall i | 0 <= i < |MODEL| ensures Neutral(Creates(MODEL)[i]) { ModelNeutral(i); }
    hide Neutral, MODEL;
  }

  lemma AdditiveNeutral()
    ensures forall s :: s in AllAdds(ADDITIVE) ==> Neutral(s)
  {
    AddsNeutral(ADDITIVE);
  }

  lemma ModelNeutral(i: nat)
    requires i < |MODEL|
    ensures Neutral(CreateTable(MODEL[i].0, MODEL[i].1))
  {
    if MODEL[i].0 == NEW_TABLE { assert i == 14; }
    if MODEL[i].0 == "servers" { assert i == 2; }
  }

  lemma {:induction false} AddsNeutral(additive: seq<(string, seq<(string, Value)>)>)
    requires forall i, j :: 0 <= i < |additive| && 0 <= j < |additive[i].1| ==>
      Neutral(AddColumn(additive[i].0, additive[i].1[j].0, additive[i].1[j].1))
    ensures forall s :: s in AllAdds(additive) ==> Neutral(s)
  {
    if additive != [] { AddsNeutral(additive[..|additive| - 1]); }
  }

  /** A start completes exactly when the tables it finds have the columns that no release adds later. */
  lemma StartsIff(db: Db)
    ensures Start(db, InitStatements()).Some? <==> Startable(db)
  {
    hide RunAll, Start, Creates, AllAdds, InitStatements, MigrateStatements, HasConnections, Indexable, AdditivePresent, MODEL, ADDITIVE, FLEET_BACKFILL, DISCOVERY_BACKFILL, INDEXES, PRE_CREATE;
    var pre := RunAll(db, PRE_CREATE);
    var created := RunAll(pre, Creates(MODEL));
    var added := RunAll(created, AllAdds(ADDITIVE));
    StartPhases(db);
    MigrateParts(created);
    CreatedHaveAdditive(pre);
    AddsSucceed(created);
    AddedPresent(created);
    BackfillsIff(added);
    StillStartable(db);
    var migrated := Start(created, MigrateStatements());
    if migrated.Some? { StartOne(migrated.value, SetVersion(SCHEMA_VERSION)); }
  }

  lemma BackfillsIff(added: Db)
    requires AdditivePresent(added)
    ensures Continue(Continue(Start(added, FLEET_BACKFILL), DISCOVERY_BACKFILL), INDEXES).Some? <==>
      HasConnections(added) && Indexable(RunAll(RunAll(added, FLEET_BACKFILL), DISCOVERY_BACKFILL))
  {
    hide RunAll, Start, HasConnections, Indexable, PresentIn, SameColumns, Has;
    FleetIff(added);
    if HasConnections(added) {
      var settled := Start(added, FLEET_BACKFILL).value;
      StartRuns(added, FLEET_BACKFILL);
      SamePresent(added, settled, ADDITIVE);
      DiscoveriesStart(settled);
      StartRuns(settled, DISCOVERY_BACKFILL);
      IndexesIff(Start(settled, DISCOVERY_BACKFILL).value);
    }
  }

  lemma AddedPresent(db: Db)
    requires forall e :: e in ADDITIVE ==> e.0 in db.tables
    ensures AdditivePresent(RunAll(db, AllAdds(ADDITIVE)))
  {
    AddsExist(db, ADDITIVE);
    assert forall i :: 0 <= i < |ADDITIVE| ==> ADDITIVE[i] in ADDITIVE;
  }

  lemma SamePresent(a: Db, b: Db, additive: seq<(string, seq<(string, Value)>)>)
    requires PresentIn(a, additive) && SameColumns(a, b)
    ensures PresentIn(b, additive)
  {
    forall i, j | 0 <= i < |additive| && 0 <= j < |additive[i].1| ensures HasColumn(b, additive[i].0, additive[i].1[j].0) {
      assert HasColumn(a, additive[i].0, additive[i].1[j].0);
      KeepsColumn(a, b, additive[i].0, additive[i].1[j].0);
    }
  }

  lemma KeepsColumn(a: Db, b: Db, t: string, c: string)
    requires HasColumn(a, t, c) && SameColumns(a, b)
    ensures HasColumn(b, t, c)
  {
    assert t in a.tables.Keys && t in b.tables.Keys;
  }

  lemma StillStartable(db: Db)
    ensures var added := RunAll(RunAll(RunAll(db, PRE_CREATE), Creates(MODEL)), AllAdds(ADDITIVE));
      && (HasConnections(added) <==> HasConnections(db))
      && (Indexable(RunAll(RunAll(added, FLEET_BACKFILL), DISCOVERY_BACKFILL)) <==> Indexable(db))
  {
    InitIsNeutral();
    hide RunAll, Neutral, HasConnections, Indexable, Creates, AllAdds;
    var pre := RunAll(db, PRE_CREATE);
    NeutralRun(db, PRE_CREATE);
    NeutralRun(pre, Creates(MODEL));
    var created := RunAll(pre, Creates(MODEL));
    NeutralRun(created, AllAdds(ADDITIVE));
    var added := RunAll(created, AllAdds(ADDITIVE));
    NeutralRun(added, FLEET_BACKFILL);
    NeutralRun(RunAll(added, FLEET_BACKFILL), DISCOVERY_BACKFILL);
  }

  /** Whatever starts were cut off or failed before, the next one completes if and only if the first could have. */
  lemma StartsAlwaysOrNever(db: Db, cuts: seq<nat>)
    requires forall i :: 0 <= i < |cuts| ==> cuts[i] <= |InitStatements()|
    ensures Start(Attempts(db, InitStatements(), cuts), InitStatements()).Some? <==> Start(db, InitStatements()).Some?
  {
    InitIsNeutral();
    assert InitStatements()[0] == PRE_CREATE[0];
    AttemptsStayStartable(db, InitStatements(), cuts);
    StartsIff(db);
    StartsIff(Attempts(db, InitStatements(), cuts));
  }

  function Migrated(db: Db): Db {
    RunAll(RunAll(RunAll(RunAll(db, AllAdds(ADDITIVE)), FLEET_BACKFILL), DISCOVERY_BACKFILL), INDEXES)
  }

  lemma ModelCovers()
    ensures forall e :: e in ADDITIVE ==> exists m :: m in MODEL && m.0 == e.0
  {
    forall e | e in ADDITIVE ensures exists m :: m in MODEL && m.0 == e.0 {
      var i :| 0 <= i < |ADDITIVE| && ADDITIVE[i] == e;
      assert MODEL[[2, 9, 8, 13, 14][i]].0 == e.0;
    }
  }

  lemma CreatedHaveAdditive(db: Db)
    ensures forall e :: e in ADDITIVE ==> e.0 in RunAll(db, Creates(MODEL)).tables
  {
    CreatesExist(db, MODEL);
    ModelCovers();
    hide *;
    forall e | e in ADDITIVE ensures e.0 in RunAll(db, Creates(MODEL)).tables {
      var m :| m in MODEL && m.0 == e.0;
    }
  }

  ghost predicate SameColumns(a: Db, b: Db) {
    a.tables.Keys == b.tables.Keys && forall t :: t in a.tables ==> a.tables[t].columns == b.tables[t].columns
  }

  ghost predicate HasColumn(db: Db, t: string, c: string) { t in db.tables && c in db.tables[t].columns }

  ghost predicate PresentIn(db: Db, additive: seq<(string, seq<(string, Value)>)>) {
    forall i, j :: 0 <= i < |additive| && 0 <= j < |additive[i].1| ==> HasColumn(db, additive[i].0, additive[i].1[j].0)
  }

  ghost predicate AdditivePresent(db: Db) { PresentIn(db, ADDITIVE) }

  /** Once the additive columns are there, the updates find their columns. */
  lemma Ready(db: Db, rule: Rule)
    requires AdditivePresent(db) && !rule.DismissedIsIgnored?
    ensures RuleTable(rule) in db.tables && Applies(db.tables[RuleTable(rule)], rule)
  {
    var (i, j) := match rule
      case GuestIsLxc => (0, 2)
      case LocalIsProxmox => (0, 1)
      case GuestUnderLocal => (0, 0)
      case Recode(_, _) => (1, 0)
      case KindIsNewHost => (4, 0)
      case _ => (4, 1);
    assert ADDITIVE[i].0 == RuleTable(rule) && ADDITIVE[i].1[j].0 == RuleColumn(rule);
  }

  lemma {:induction false} CreatesExist(db: Db, model: seq<(string, set<string>)>)
    ensures var after := RunAll(db, Creates(model)); db.tables.Keys <= after.tables.Keys && forall m :: m in model ==> m.0 in after.tables
  {
    if model != [] {
      var n := |model| - 1;
      CreatesExist(db, model[..n]);
      assert Creates(model)[..n] == Creates(model[..n]);
      assert model == model[..n] + [model[n]];
    }
  }

  lemma {:induction false} AddsGrow(db: Db, table: string, columns: seq<(string, Value)>)
    ensures var after := RunAll(db, Adds(table, columns));
      && after.tables.Keys == db.tables.Keys
      && (forall t :: t in db.tables ==> db.tables[t].columns <= after.tables[t].columns)
      && (table in db.tables ==> forall c :: c in columns ==> c.0 in after.tables[table].columns)
  {
    if columns != [] {
      var n := |columns| - 1;
      AddsGrow(db, table, columns[..n]);
      assert Adds(table, columns)[..n] == Adds(table, columns[..n]);
      assert columns == columns[..n] + [columns[n]];
    }
  }

  lemma {:induction false} AddsExist(db: Db, additive: seq<(string, seq<(string, Value)>)>)
    requires forall e :: e in additive ==> e.0 in db.tables
    ensures var after := RunAll(db, AllAdds(additive));
      && after.tables.Keys == db.tables.Keys
      && forall i, j :: 0 <= i < |additive| && 0 <= j < |additive[i].1| ==> additive[i].1[j].0 in after.tables[additive[i].0].columns
  {
    if additive != [] {
      var n := |additive| - 1;
      var e, rest := additive[n], additive[..n];
      AddsExist(db, rest);
      var mid := RunAll(db, AllAdds(rest));
      RunConcat(db, AllAdds(rest), Adds(e.0, e.1));
      AddsGrow(mid, e.0, e.1);
      var after := RunAll(mid, Adds(e.0, e.1));
      forall i, j | 0 <= i < |additive| && 0 <= j < |additive[i].1| ensures additive[i].1[j].0 in after.tables[additive[i].0].columns {
        assert additive[i] in additive;
        if i < n { assert rest[i] == additive[i] && rest[i].1[j].0 in mid.tables[rest[i].0].columns; }
      }
    }
  }

  lemma RunPhases(db: Db)
    ensures RunAll(db, InitStatements()) ==
            RunAll(Migrated(RunAll(RunAll(db, PRE_CREATE), Creates(MODEL))), [SetVersion(SCHEMA_VERSION)])
  {
    var a, b, c, d, e, f, g := PRE_CREATE, Creates(MODEL), AllAdds(ADDITIVE), FLEET_BACKFILL, DISCOVERY_BACKFILL, INDEXES, [SetVersion(SCHEMA_VERSION)];
    SplitRun(db, a, b, c, d, e, f, g);
  }

  lemma SplitRun(db: Db, a: seq<Stmt>, b: seq<Stmt>, c: seq<Stmt>, d: seq<Stmt>, e: seq<Stmt>, f: seq<Stmt>, g: seq<Stmt>)
    ensures RunAll(db, a + (b + c + d + e + f + g)) ==
            RunAll(RunAll(RunAll(RunAll(RunAll(RunAll(RunAll(db, a), b), c), d), e), f), g)
  {
    hide RunAll;
    RunConcat(db, a, b + c + d + e + f + g);
    var mid := RunAll(db, a);
    RunConcat(mid, b + c + d + e + f, g);
    RunConcat(mid, b + c + d + e, f);
    RunConcat(mid, b + c + d, e);
    RunConcat(mid, b + c, d);
    RunConcat(mid, b, c);
  }

  lemma RunThree(db: Db, a: Stmt, b: Stmt, c: Stmt)
    ensures RunAll(db, [a, b, c]) == Exec(Exec(Exec(db, a), b), c)
  {
    RunTwo(db, a, b);
    assert [a, b, c][..2] == [a, b];
  }

  lemma RunFour(db: Db, a: Stmt, b: Stmt, c: Stmt, d: Stmt)
    ensures RunAll(db, [a, b, c, d]) == Exec(Exec(Exec(Exec(db, a), b), c), d)
  {
    RunThree(db, a, b, c);
    assert [a, b, c, d][..3] == [a, b, c];
  }

  lemma RunTwo(db: Db, a: Stmt, b: Stmt)
    ensures RunAll(db, [a, b]) == Exec(Exec(db, a), b)
  {
    RunOne(db, a);
    assert [a, b][..1] == [a];
  }

  lemma RunOne(db: Db, a: Stmt)
    ensures RunAll(db, [a]) == Exec(db, a)
  {
    assert [a][..0] == [];
  }

  lemma AllAddsNext(db: Db, i: nat)
    requires i < |ADDITIVE|
    ensures RunAll(db, AllAdds(ADDITIVE[..i + 1])) == RunAll(RunAll(db, AllAdds(ADDITIVE[..i])), Adds(ADDITIVE[i].0, ADDITIVE[i].1))
  {
    assert ADDITIVE[..i + 1][..i] == ADDITIVE[..i];
    RunConcat(db, AllAdds(ADDITIVE[..i]), Adds(ADDITIVE[i].0, ADDITIVE[i].1));
  }

  // ---------------------------------------------------------------- running it again

  ghost predicate AllOurs(ss: seq<Stmt>, lo: nat, hi: nat) {
    forall s :: s in ss ==> Ours(s) && lo <= Phase(s) <= hi
  }

  lemma CreatesOurs()
    ensures AllOurs(Creates(MODEL), 2, 2)
  {
    forall i | 0 <= i < |MODEL| ensures Ours(Creates(MODEL)[i]) {
      if MODEL[i].0 == NEW_TABLE { assert i == 14; }
    }
  }

  lemma {:induction false} AddsOurs(additive: seq<(string, seq<(string, Value)>)>)
    requires forall i, j :: 0 <= i < |additive| && 0 <= j < |additive[i].1| ==>
      Ours(AddColumn(additive[i].0, additive[i].1[j].0, additive[i].1[j].1))
    ensures AllOurs(AllAdds(additive), 3, 3)
  {
    if additive != [] {
      AddsOurs(additive[..|additive| - 1]);
    }
  }

  lemma AdditiveOurs()
    ensures AllOurs(AllAdds(ADDITIVE), 3, 3)
  {
    forall i, j | 0 <= i < |ADDITIVE| && 0 <= j < |ADDITIVE[i].1|
      ensures Ours(AddColumn(ADDITIVE[i].0, ADDITIVE[i].1[j].0, ADDITIVE[i].1[j].1)) {
    }
    AddsOurs(ADDITIVE);
  }

  lemma {:induction false} OrderedConcat(a: seq<Stmt>, b: seq<Stmt>, m: nat)
    requires Ordered(a) && Ordered(b)
    requires forall s :: s in a ==> Phase(s) <= m
    requires forall s :: s in b ==> Phase(s) >= m
    ensures Ordered(a + b)
  {
  }

  /** Two runs of statements, the second from the phase on where the first ends. */
  lemma Join(a: seq<Stmt>, b: seq<Stmt>, lo: nat, m: nat, hi: nat)
    requires AllOurs(a, lo, m) && Ordered(a) && AllOurs(b, m, hi) && Ordered(b) && lo <= m <= hi
    ensures AllOurs(a + b, lo, hi) && Ordered(a + b)
  {
    OrderedConcat(a, b, m);
  }

  lemma FleetOurs()
    ensures AllOurs(FLEET_BACKFILL, 3, 4) && Ordered(FLEET_BACKFILL)
  {
  }

  lemma DiscoveryOurs()
    ensures AllOurs(DISCOVERY_BACKFILL, 4, 5) && Ordered(DISCOVERY_BACKFILL)
  {
  }

  lemma IndexesOurs()
    ensures AllOurs(INDEXES, 5, 6) && Ordered(INDEXES)
    ensures AllOurs([SetVersion(SCHEMA_VERSION)], 6, 7)
  {
  }

  lemma RestOurs()
    ensures AllOurs(Rest(), 2, 7) && Ordered(Rest())
  {
    CreatesOurs();
    AdditiveOurs();
    FleetOurs();
    DiscoveryOurs();
    IndexesOurs();
    var creates, adds := Creates(MODEL), AllAdds(ADDITIVE);
    assert Ordered(creates) && Ordered(adds) && AllOurs(adds, 2, 3);
    hide Ours, Creates, AllAdds, MODEL, ADDITIVE, FLEET_BACKFILL, DISCOVERY_BACKFILL, INDEXES;
    Join(creates, adds, 2, 2, 3);
    Join(creates + adds, FLEET_BACKFILL, 2, 3, 4);
    Join(creates + adds + FLEET_BACKFILL, DISCOVERY_BACKFILL, 2, 4, 5);
    Join(creates + adds + FLEET_BACKFILL + DISCOVERY_BACKFILL, INDEXES, 2, 5, 6);
    Join(creates + adds + FLEET_BACKFILL + DISCOVERY_BACKFILL + INDEXES, [SetVersion(SCHEMA_VERSION)], 2, 6, 7);
  }

  lemma InitIsMigration()
    ensures IsMigration(InitStatements())
  {
    RestOurs();
    OrderedConcat(PRE_CREATE, Rest(), 1);
  }

  /** Whatever starts were cut off before, however far each got, a complete start leaves the database one
      uninterrupted start would have left; in particular two starts equal one. */
  lemma {:induction false} InterruptedStartsConverge(db: Db, cuts: seq<nat>)
    requires Shaped(db) && forall i :: 0 <= i < |cuts| ==> cuts[i] <= |InitStatements()|
    ensures RunAll(Attempts(db, InitStatements(), cuts), InitStatements()) == RunAll(db, InitStatements())
    ensures Start(Attempts(db, InitStatements(), cuts), InitStatements()) == Start(db, InitStatements())
  {
    InitIsMigration();
    CompletesTheSame(db, InitStatements(), cuts);
    StartsAlwaysOrNever(db, cuts);
    StartRuns(db, InitStatements());
    StartRuns(Attempts(db, InitStatements(), cuts), InitStatements());
  }

  /** Running the migration twice changes nothing exactly when the discoveries table, under either name, comes with
      a column for the running/stopped text: otherwise the first run adds the lifecycle column and the second one
      takes it for the text and renames it. */
  lemma TwiceIsOnceIffShaped(db: Db)
    ensures RunAll(RunAll(db, InitStatements()), InitStatements()) == RunAll(db, InitStatements()) <==> Shaped(db)
    ensures Startable(db) ==> var once := Start(db, InitStatements());
      once.Some? && Start(once.value, InitStatements()).Some? && (Start(once.value, InitStatements()) == once <==> Shaped(db))
  {
    if Startable(db) { TwiceStarts(db); }
    var ss := InitStatements();
    if Shaped(db) {
      InitIsMigration();
      RunAgain(db, ss, |ss|, |ss|);
      assert ss[..|ss|] == ss;
    } else {
      UnshapedLacksText(db);
      UnshapedGainsText(RunAll(db, ss));
    }
  }

  /** A database on which starts complete and a second one does change something: a discoveries table with the columns of
      its index, and neither of those. */
  lemma TwiceCanDiffer()
    ensures var db := Db(map[NEW_TABLE := Table({"id", "source", "proxmox_vmid"}, map[])], {}, "");
      var once := Start(db, InitStatements());
      once.Some? && Start(once.value, InitStatements()).Some? && Start(once.value, InitStatements()) != once
  {
    var db := Db(map[NEW_TABLE := Table({"id", "source", "proxmox_vmid"}, map[])], {}, "");
    hide RunAll, InitStatements, Start;
    TwiceIsOnceIffShaped(db);
  }

  lemma TwiceStarts(db: Db)
    requires Startable(db)
    ensures var ss := InitStatements(); Start(db, ss) == Some(RunAll(db, ss)) && Start(RunAll(db, ss), ss) == Some(RunAll(RunAll(db, ss), ss))
  {
    var ss := InitStatements();
    StartsIff(db);
    StartRuns(db, ss);
    assert Attempts(db, ss, [|ss|]) == RunAll(db, ss) by {
      assert ss[..|ss|] == ss && [|ss|][..0] == [];
      assert Attempts(db, ss, []) == db;
    }
    StartsAlwaysOrNever(db, [|ss|]);
    StartRuns(RunAll(db, ss), ss);
  }

  lemma UnshapedLacksText(db: Db)
    requires !Shaped(db)
    ensures Lacks(RunAll(db, InitStatements()), "status_text") && Has(RunAll(db, InitStatements()), "status")
  {
    var pre := RunAll(db, PRE_CREATE);
    RunTwo(db, PRE_CREATE[0], PRE_CREATE[1]);
    assert Lacks(pre, "status_text");
    RestOurs();
    RunConcat(db, PRE_CREATE, Rest());
    RunKeepsLack(pre, Rest());
    HasStatusAfterAdds(pre);
  }

  lemma HasStatusAfterAdds(db: Db)
    requires Lacks(db, "status_text")
    ensures Has(RunAll(db, Rest()), "status")
  {
    var created := RunAll(db, Creates(MODEL));
    CreatesOurs();
    RunKeepsLack(db, Creates(MODEL));
    DiscoveryColumnsAdded(db);
    AdditiveOurs();
    var added := RunAll(created, AllAdds(ADDITIVE));
    hide *;
    RunKeepsLack(created, AllAdds(ADDITIVE));
    RestOurs();
    StatusStays(db, added);
  }

  lemma StatusStays(db: Db, added: Db)
    requires added == RunAll(RunAll(db, Creates(MODEL)), AllAdds(ADDITIVE))
    requires Lacks(added, "status_text") && Has(added, "status") && AllOurs(Rest(), 2, 7)
    ensures Has(RunAll(db, Rest()), "status")
  {
    var tail := FLEET_BACKFILL + DISCOVERY_BACKFILL + INDEXES + [SetVersion(SCHEMA_VERSION)];
    assert Rest() == (Creates(MODEL) + AllAdds(ADDITIVE)) + tail;
    hide RunAll, Creates, AllAdds, Ours, MODEL, ADDITIVE, FLEET_BACKFILL, DISCOVERY_BACKFILL, INDEXES;
    RunKeepsLack(added, tail);
    RunConcat(db, Creates(MODEL) + AllAdds(ADDITIVE), tail);
    RunConcat(db, Creates(MODEL), AllAdds(ADDITIVE));
  }

  lemma UnshapedGainsText(db: Db)
    requires Has(db, "status") && Lacks(db, "status_text")
    ensures Has(RunAll(db, InitStatements()), "status_text")
  {
    RunTwo(db, PRE_CREATE[0], PRE_CREATE[1]);
    RestOurs();
    RunConcat(db, PRE_CREATE, Rest());
    RunKeepsColumn(RunAll(db, PRE_CREATE), Rest());
  }

  // ---------------------------------------------------------------- what becomes of the old rows

  /** Rows hold values for their table's columns. */
  ghost predicate Tidy(t: Table) { forall k :: k in t.rows ==> t.rows[k].Keys <= t.columns }

  /** Statements that leave the discoveries table alone: they touch other tables, or only create what is missing. */
  ghost predicate Spares(s: Stmt) {
    match s
    case CreateTable(_, _) => true
    case AddColumn(t, _, _) => t != NEW_TABLE
    case Update(rule) => RuleTable(rule) != NEW_TABLE
    case CreateIndex(_, _) => true
    case SetVersion(_) => true
    case _ => false
  }

  lemma {:induction false} SparedTable(db: Db, ss: seq<Stmt>)
    requires NEW_TABLE in db.tables && forall s :: s in ss ==> Spares(s)
    ensures NEW_TABLE in RunAll(db, ss).tables && RunAll(db, ss).tables[NEW_TABLE] == db.tables[NEW_TABLE]
  {
    if ss != [] {
      SparedTable(db, ss[..|ss| - 1]);
      assert Spares(ss[|ss| - 1]);
    }
  }

  /** The same rows with the same values, columns possibly added as NULL. */
  ghost predicate SameValues(a: Table, b: Table) {
    && a.rows.Keys == b.rows.Keys
    && forall k, c :: k in a.rows ==> Get(b.rows[k], c) == Get(a.rows[k], c)
  }

  lemma {:induction false} AddsKeepValues(db: Db, ss: seq<Stmt>)
    requires NEW_TABLE in db.tables && Tidy(db.tables[NEW_TABLE]) && AllOurs(ss, 3, 3)
    ensures NEW_TABLE in RunAll(db, ss).tables
    ensures var t := RunAll(db, ss).tables[NEW_TABLE];
      Tidy(t) && SameValues(db.tables[NEW_TABLE], t) && db.tables[NEW_TABLE].columns <= t.columns
  {
    if ss != [] {
      AddsKeepValues(db, ss[..|ss| - 1]);
      assert Ours(ss[|ss| - 1]) && Phase(ss[|ss| - 1]) == 3;
    }
  }

  ghost function Backfilled(rows: map<nat, Row>): map<nat, Row> {
    Updated(Updated(Updated(rows, KindIsNewHost), DismissedIsIgnored), OtherIsPending)
  }

  /** The lifecycle status of a row that has one stays; otherwise the old flag decides. */
  function Lifecycle(status: Value, dismissed: Value): Value {
    if status != Null then status else Text(if dismissed == Int(1) then "ignored" else "pending")
  }

  function KindOr(kind: Value): Value { if kind != Null then kind else Text("new_host") }

  /** What the backfill makes of a row. */
  ghost predicate Decided(before: Row, after: Row) {
    && Get(after, "kind") == KindOr(Get(before, "kind"))
    && Get(after, "status") == Lifecycle(Get(before, "status"), Get(before, "dismissed"))
    && forall c :: c !in {"kind", "status", "dismissed"} ==> Get(after, c) == Get(before, c)
  }

  lemma BackfillRow(rows: map<nat, Row>, k: nat)
    requires k in rows
    ensures k in Backfilled(rows) && Decided(rows[k], Backfilled(rows)[k] - {"dismissed"})
  {
    var a := Updated(rows, KindIsNewHost);
    var b := Updated(a, DismissedIsIgnored);
    KindRow(rows, k);
    StatusRow(a, k);
    hide Updated;
    var r := Updated(b, OtherIsPending)[k];
    assert forall c :: c != "dismissed" ==> Get(r - {"dismissed"}, c) == Get(r, c);
  }

  lemma KindRow(rows: map<nat, Row>, k: nat)
    requires k in rows
    ensures var a := Updated(rows, KindIsNewHost);
      k in a && Get(a[k], "kind") == KindOr(Get(rows[k], "kind")) && forall c :: c != "kind" ==> Get(a[k], c) == Get(rows[k], c)
  {
  }

  lemma StatusRow(rows: map<nat, Row>, k: nat)
    requires k in rows
    ensures var b := Updated(Updated(rows, DismissedIsIgnored), OtherIsPending);
      && k in b
      && Get(b[k], "status") == Lifecycle(Get(rows[k], "status"), Get(rows[k], "dismissed"))
      && forall c :: c != "status" ==> Get(b[k], c) == Get(rows[k], c)
  {
  }

  lemma BackfillResult(db: Db)
    requires NEW_TABLE in db.tables && {"kind", "status"} <= db.tables[NEW_TABLE].columns && Tidy(db.tables[NEW_TABLE])
    ensures NEW_TABLE in RunAll(db, DISCOVERY_BACKFILL).tables
    ensures RunAll(db, DISCOVERY_BACKFILL).tables[NEW_TABLE] ==
            Shortened(Table(db.tables[NEW_TABLE].columns, Backfilled(db.tables[NEW_TABLE].rows)), "dismissed")
  {
    var t := db.tables[NEW_TABLE];
    RunFour(db, Update(KindIsNewHost), Update(DismissedIsIgnored), Update(OtherIsPending), DropColumn(NEW_TABLE, "dismissed"));
    UpdateStep(db, KindIsNewHost);
    var a := Exec(db, Update(KindIsNewHost));
    DismissedStep(a);
    var b := Exec(a, Update(DismissedIsIgnored));
    UpdateStep(b, OtherIsPending);
    DropStep(Exec(b, Update(OtherIsPending)));
    hide Updated;
  }

  /** A table without the flag has no row that carries it. */
  lemma DismissedStep(db: Db)
    requires NEW_TABLE in db.tables && "status" in db.tables[NEW_TABLE].columns && Tidy(db.tables[NEW_TABLE])
    ensures NEW_TABLE in Exec(db, Update(DismissedIsIgnored)).tables
    ensures var t := Exec(db, Update(DismissedIsIgnored)).tables[NEW_TABLE];
      t == Table(db.tables[NEW_TABLE].columns, Updated(db.tables[NEW_TABLE].rows, DismissedIsIgnored)) && Tidy(t)
  {
    var t := db.tables[NEW_TABLE];
    if "dismissed" !in t.columns { assert Updated(t.rows, DismissedIsIgnored) == t.rows; }
  }

  lemma DropStep(db: Db)
    requires NEW_TABLE in db.tables && Tidy(db.tables[NEW_TABLE])
    ensures var after := Exec(db, DropColumn(NEW_TABLE, "dismissed"));
      NEW_TABLE in after.tables && after.tables[NEW_TABLE] == Shortened(db.tables[NEW_TABLE], "dismissed")
  {
    var t := db.tables[NEW_TABLE];
    if "dismissed" !in t.columns {
      forall k | k in t.rows ensures t.rows[k] - {"dismissed"} == t.rows[k] { }
      assert Shortened(t, "dismissed") == t;
    }
  }

  lemma UpdateStep(db: Db, rule: Rule)
    requires NEW_TABLE in db.tables && RuleTable(rule) == NEW_TABLE && Applies(db.tables[NEW_TABLE], rule) && Tidy(db.tables[NEW_TABLE])
    ensures NEW_TABLE in Exec(db, Update(rule)).tables
    ensures var t := Exec(db, Update(rule)).tables[NEW_TABLE];
      t == Table(db.tables[NEW_TABLE].columns, Updated(db.tables[NEW_TABLE].rows, rule)) && Tidy(t)
  {
  }

  lemma BackfillTable(db: Db)
    requires NEW_TABLE in db.tables && {"kind", "status"} <= db.tables[NEW_TABLE].columns && Tidy(db.tables[NEW_TABLE])
    ensures NEW_TABLE in RunAll(db, DISCOVERY_BACKFILL).tables
    ensures var t, u := db.tables[NEW_TABLE], RunAll(db, DISCOVERY_BACKFILL).tables[NEW_TABLE];
      "dismissed" !in u.columns && u.rows.Keys == t.rows.Keys && forall k :: k in t.rows ==> Decided(t.rows[k], u.rows[k])
  {
    BackfillResult(db);
    var t := db.tables[NEW_TABLE];
    hide RunAll, Decided;
    forall k | k in t.rows ensures k in Backfilled(t.rows) && Decided(t.rows[k], Backfilled(t.rows)[k] - {"dismissed"}) {
      BackfillRow(t.rows, k);
    }
    hide Backfilled;
  }

  /** `status` still holds the running/stopped text. */
  predicate StatusIsText(t: Table) { "status" in t.columns && "status_text" !in t.columns }

  function WithTextMoved(t: Table): Table { if StatusIsText(t) then Renamed(t, "status", "status_text") else t }

  /** The renames put the table in the new place, its text column under the new name. */
  lemma RenamedTable(db: Db)
    requires HasDiscoveries(db)
    ensures var pre := RunAll(db, PRE_CREATE);
      NEW_TABLE in pre.tables && pre.tables[NEW_TABLE] == WithTextMoved(Discoveries(db))
  {
    RunTwo(db, PRE_CREATE[0], PRE_CREATE[1]);
  }

  lemma MovedRows(t: Table)
    requires Tidy(t)
    ensures Tidy(WithTextMoved(t)) && WithTextMoved(t).rows.Keys == t.rows.Keys
    ensures forall k :: k in t.rows ==> Moved(t.rows[k], StatusIsText(t), WithTextMoved(t).rows[k])
  {
  }

  /** The text goes to its own column if it was in `status`, which is then free. */
  ghost predicate Moved(before: Row, moves: bool, after: Row) {
    && Get(after, "status") == (if moves then Null else Get(before, "status"))
    && Get(after, "status_text") == Get(before, if moves then "status" else "status_text")
    && forall c :: c != "status" && c != "status_text" ==> Get(after, c) == Get(before, c)
  }

  /** What a row becomes: a status and a kind it already has stand, the flag decides where there is no status yet,
      the text is kept, and so is everything else. */
  ghost predicate Upgraded(before: Row, moves: bool, after: Row) {
    && Get(after, "kind") == KindOr(Get(before, "kind"))
    && Get(after, "status") == Lifecycle(if moves then Null else Get(before, "status"), Get(before, "dismissed"))
    && Get(after, "status_text") == Get(before, if moves then "status" else "status_text")
    && forall c :: c !in {"kind", "status", "status_text", "dismissed"} ==> Get(after, c) == Get(before, c)
  }

  lemma {:induction false} OldTableStaysGone(db: Db, ss: seq<Stmt>)
    requires OLD_TABLE !in db.tables && forall s :: s in ss ==> Ours(s) && Phase(s) >= 1
    ensures OLD_TABLE !in RunAll(db, ss).tables
  {
    if ss != [] {
      OldTableStaysGone(db, ss[..|ss| - 1]);
      assert Ours(ss[|ss| - 1]);
    }
  }

  /** The discoveries table after creating tables and adding columns. */
  lemma AfterAdds(pre: Db)
    requires NEW_TABLE in pre.tables && Tidy(pre.tables[NEW_TABLE])
    ensures var added := RunAll(RunAll(pre, Creates(MODEL)), AllAdds(ADDITIVE));
      && NEW_TABLE in added.tables && SameValues(pre.tables[NEW_TABLE], added.tables[NEW_TABLE]) && Tidy(added.tables[NEW_TABLE])
      && pre.tables[NEW_TABLE].columns + {"kind", "status"} <= added.tables[NEW_TABLE].columns
  {
    CreatesSpare();
    AdditiveOurs();
    DiscoveryColumnsAdded(pre);
    hide *;
    SparedTable(pre, Creates(MODEL));
    AddsKeepValues(RunAll(pre, Creates(MODEL)), AllAdds(ADDITIVE));
  }

  lemma DiscoveryColumnsAdded(pre: Db)
    ensures var added := RunAll(RunAll(pre, Creates(MODEL)), AllAdds(ADDITIVE));
      NEW_TABLE in added.tables && "kind" in added.tables[NEW_TABLE].columns && "status" in added.tables[NEW_TABLE].columns
  {
    AdditiveNames();
    CreatedHaveAdditive(pre);
    hide *;
    AddsExist(RunAll(pre, Creates(MODEL)), ADDITIVE);
    assert ADDITIVE[4].1[0].0 == "kind" && ADDITIVE[4].1[1].0 == "status";
    assert ADDITIVE[4] in ADDITIVE;
  }

  lemma CreatesSpare()
    ensures forall s :: s in Creates(MODEL) ==> Spares(s)
  {
  }

  lemma AdditiveNames()
    ensures |ADDITIVE| == 5 && ADDITIVE[4].0 == NEW_TABLE && |ADDITIVE[4].1| == 8
    ensures ADDITIVE[4].1[0].0 == "kind" && ADDITIVE[4].1[1].0 == "status"
  {
  }

  lemma FleetSpares()
    ensures forall s :: s in FLEET_BACKFILL ==> Spares(s)
  {
  }

  lemma ClosingSpares(db: Db)
    requires NEW_TABLE in db.tables
    ensures var after := RunAll(RunAll(db, INDEXES), [SetVersion(SCHEMA_VERSION)]);
      NEW_TABLE in after.tables && after.tables[NEW_TABLE] == db.tables[NEW_TABLE]
  {
    SparedTable(db, INDEXES);
    SparedTable(RunAll(db, INDEXES), [SetVersion(SCHEMA_VERSION)]);
  }

  /** The rest of the run, from the state after the additive columns. */
  lemma AfterBackfill(added: Db)
    requires NEW_TABLE in added.tables && {"kind", "status"} <= added.tables[NEW_TABLE].columns && Tidy(added.tables[NEW_TABLE])
    ensures var after := RunAll(RunAll(RunAll(RunAll(added, FLEET_BACKFILL), DISCOVERY_BACKFILL), INDEXES), [SetVersion(SCHEMA_VERSION)]);
      && NEW_TABLE in after.tables
      && var t, u := added.tables[NEW_TABLE], after.tables[NEW_TABLE];
        "dismissed" !in u.columns && u.rows.Keys == t.rows.Keys && forall k :: k in t.rows ==> Decided(t.rows[k], u.rows[k])
  {
    FleetSpares();
    SparedTable(added, FLEET_BACKFILL);
    BackfillTable(RunAll(added, FLEET_BACKFILL));
    hide RunAll, Decided;
    ClosingSpares(RunAll(RunAll(added, FLEET_BACKFILL), DISCOVERY_BACKFILL));
  }

  lemma UpgradedFrom(before: Row, moves: bool, renamed: Row, added: Row, after: Row)
    requires Moved(before, moves, renamed)
    requires forall c :: Get(added, c) == Get(renamed, c)
    requires Decided(added, after)
    ensures Upgraded(before, moves, after)
  {
  }

  /** Whatever release the discoveries table comes from, under its old or its new name: in the database where a start
      ends, if it completes, every row is there with its id and upgraded, and the flag is gone. */
  lemma RowsUpgraded(db: Db)
    requires HasDiscoveries(db) && Tidy(Discoveries(db))
    ensures var after := RunAll(db, InitStatements());
      && Start(db, InitStatements()) == (if Startable(db) then Some(after) else None)
      && NEW_TABLE in after.tables
      && var t, u := Discoveries(db), after.tables[NEW_TABLE];
        && "dismissed" !in u.columns && u.rows.Keys == t.rows.Keys
        && forall k :: k in t.rows ==> Upgraded(t.rows[k], StatusIsText(t), u.rows[k])
  {
    var t := Discoveries(db);
    StartsIff(db);
    StartRuns(db, InitStatements());
    RenamedTable(db);
    MovedRows(t);
    var pre := RunAll(db, PRE_CREATE);
    var renamed := pre.tables[NEW_TABLE];
    AfterAdds(pre);
    var added := RunAll(RunAll(pre, Creates(MODEL)), AllAdds(ADDITIVE));
    AfterBackfill(added);
    RunPhases(db);
    var u := RunAll(db, InitStatements()).tables[NEW_TABLE];
    hide RunAll, Start, Startable, Decided, Upgraded, Moved, WithTextMoved, StatusIsText, Discoveries;
    forall k | k in t.rows ensures Upgraded(t.rows[k], StatusIsText(t), u.rows[k]) {
      UpgradedFrom(t.rows[k], StatusIsText(t), renamed.rows[k], added.tables[NEW_TABLE].rows[k], u.rows[k]);
    }
  }

  /** The table of the release that knew only discovered hosts: a running/stopped text in `status`, a `dismissed`
      flag, no kind. */
  ghost predicate Legacy(db: Db) {
    && OLD_TABLE in db.tables && NEW_TABLE !in db.tables
    && var t := db.tables[OLD_TABLE]; StatusIsText(t) && "dismissed" in t.columns && "kind" !in t.columns && Tidy(t)
  }

  /** From that release: dismissed rows end ignored, the others pending, all as new hosts, the text in its own column;
      the old table is gone. */
  lemma LegacyRowsUpgraded(db: Db)
    requires Legacy(db)
    ensures var after := RunAll(db, InitStatements());
      && Start(db, InitStatements()) == (if Startable(db) then Some(after) else None)
      && OLD_TABLE !in after.tables && NEW_TABLE in after.tables
      && var t, u := db.tables[OLD_TABLE], after.tables[NEW_TABLE];
        u.rows.Keys == t.rows.Keys && forall k :: k in t.rows ==>
          && Get(u.rows[k], "kind") == Text("new_host")
          && Get(u.rows[k], "status") == Text(if Get(t.rows[k], "dismissed") == Int(1) then "ignored" else "pending")
          && Get(u.rows[k], "status_text") == Get(t.rows[k], "status")
  {
    RowsUpgraded(db);
    GoneAfterRun(db);
    hide RunAll;
  }

  lemma GoneAfterRun(db: Db)
    requires OLD_TABLE in db.tables && NEW_TABLE !in db.tables
    ensures OLD_TABLE !in RunAll(db, InitStatements()).tables
  {
    RunTwo(db, PRE_CREATE[0], PRE_CREATE[1]);
    assert OLD_TABLE !in RunAll(db, PRE_CREATE).tables;
    RestOurs();
    hide RunAll, Rest, Ours, Exec;
    RunConcat(db, PRE_CREATE, Rest());
    OldTableStaysGone(RunAll(db, PRE_CREATE), Rest());
  }
}
