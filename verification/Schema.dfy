/** The database schema migration (webpanel/app/db.py) as a list of guarded statements, and why running it again,
    or after being cut off anywhere, ends in the same database. Migration.dfy holds the code that issues them. */
module Schema {
  import opened Options

  datatype Value = Null | Int(i: int) | Text(s: string)
  type Row = map<string, Value>
  datatype Table = Table(columns: set<string>, rows: map<nat, Row>)   // rows by their integer primary key
  datatype Db = Db(tables: map<string, Table>, indexes: set<string>, version: string)

  function Get(r: Row, c: string): Value { if c in r then r[c] else Null }

  /** The backfilling updates. */
  datatype Rule =
    | GuestIsLxc                              // servers.guest_type
    | LocalIsProxmox                          // servers.virt_kind
    | GuestUnderLocal                         // servers.parent_server_id
    | Recode(from: string, to: string)        // host_state.config_status
    | KindIsNewHost                           // discoveries.kind
    | DismissedIsIgnored                      // discoveries.status
    | OtherIsPending                          // discoveries.status

  datatype Stmt =
    | RenameTable(from: string, to: string)
    | RenameColumn(table: string, old_: string, new_: string)
    | CreateTable(table: string, columns: set<string>)
    | AddColumn(table: string, column: string, default: Value)
    | Update(rule: Rule)
    | DropColumn(table: string, column: string)
    | CreateIndex(name: string, columns: set<string>)   // on the discoveries table
    | SetVersion(version: string)

  // ---------------------------------------------------------------- what one statement does

  function RuleTable(rule: Rule): string {
    match rule
    case GuestIsLxc => "servers"
    case LocalIsProxmox => "servers"
    case GuestUnderLocal => "servers"
    case Recode(_, _) => "host_state"
    case _ => "discoveries"
  }

  function RuleColumn(rule: Rule): string {
    match rule
    case GuestIsLxc => "guest_type"
    case LocalIsProxmox => "virt_kind"
    case GuestUnderLocal => "parent_server_id"
    case Recode(_, _) => "config_status"
    case KindIsNewHost => "kind"
    case _ => "status"
  }

  predicate Connects(r: Row, how: string) { Get(r, "connection_type") == Text(how) }

  /** `SELECT id FROM servers WHERE connection_type='local' LIMIT 1`: the lowest id. */
  predicate IsFirstLocal(rows: map<nat, Row>, id: nat) {
    id in rows && Connects(rows[id], "local") && forall j :: j in rows && Connects(rows[j], "local") ==> id <= j
  }

  lemma {:induction false} FirstLocalExists(rows: map<nat, Row>, id: nat)
    requires id in rows && Connects(rows[id], "local")
    ensures exists first: nat :: IsFirstLocal(rows, first)
    decreases id
  {
    if j :| j in rows && Connects(rows[j], "local") && j < id {
      FirstLocalExists(rows, j);
    } else {
      assert IsFirstLocal(rows, id);
    }
  }

  function FirstLocal(rows: map<nat, Row>): (id: nat)
    requires AnyConnects(rows, "local")
    ensures IsFirstLocal(rows, id)
  {
    assert exists first :: first in rows && IsFirstLocal(rows, first) by {
      var some :| some in rows && Connects(rows[some], "local");
      FirstLocalExists(rows, some);
    }
    var first :| first in rows && IsFirstLocal(rows, first);
    first
  }

  predicate AnyConnects(rows: map<nat, Row>, how: string) {
    exists id :: id in rows && Connects(rows[id], how)
  }

  /** The columns the update needs; the one on `dismissed` is skipped where that column is gone. */
  predicate Applies(t: Table, rule: Rule) {
    RuleColumn(rule) in t.columns && (rule.DismissedIsIgnored? ==> "dismissed" in t.columns)
  }

  /** The WHERE clause. */
  predicate Matches(rows: map<nat, Row>, rule: Rule, r: Row) {
    match rule
    case GuestIsLxc => Connects(r, "proxmox") && Get(r, "guest_type") == Null
    case LocalIsProxmox => Get(r, "virt_kind") == Null && Connects(r, "local") && AnyConnects(rows, "proxmox")
    case GuestUnderLocal => Connects(r, "proxmox") && Get(r, "parent_server_id") == Null && AnyConnects(rows, "local")
    case Recode(from, _) => Get(r, "config_status") == Text(from)
    case KindIsNewHost => Get(r, "kind") == Null
    case DismissedIsIgnored => Get(r, "status") == Null && Get(r, "dismissed") == Int(1)
    case OtherIsPending => Get(r, "status") == Null
  }

  function NewValue(rows: map<nat, Row>, rule: Rule): Value {
    match rule
    case GuestIsLxc => Text("lxc")
    case LocalIsProxmox => Text("proxmox")
    case GuestUnderLocal => if AnyConnects(rows, "local") then Int(FirstLocal(rows)) else Null
    case Recode(_, to) => Text(to)
    case KindIsNewHost => Text("new_host")
    case DismissedIsIgnored => Text("ignored")
    case OtherIsPending => Text("pending")
  }

  function Updated(rows: map<nat, Row>, rule: Rule): map<nat, Row> {
    map k | k in rows :: if Matches(rows, rule, rows[k]) then rows[k][RuleColumn(rule) := NewValue(rows, rule)] else rows[k]
  }

  function RenameIn(r: Row, a: string, b: string): Row { if a in r then (r - {a})[b := r[a]] else r }

  function Renamed(t: Table, a: string, b: string): Table {
    Table(t.columns - {a} + {b}, map k | k in t.rows :: RenameIn(t.rows[k], a, b))
  }

  function Extended(t: Table, c: string, default: Value): Table {
    Table(t.columns + {c}, map k | k in t.rows :: t.rows[k][c := default])
  }

  function Shortened(t: Table, c: string): Table {
    Table(t.columns - {c}, map k | k in t.rows :: t.rows[k] - {c})
  }

  function Put(db: Db, name: string, t: Table): Db { db.(tables := db.tables[name := t]) }

  /** Each statement carries its guard: it does nothing where the code would skip it. */
  function Exec(db: Db, s: Stmt): Db {
    match s
    case RenameTable(a, b) =>
      if a in db.tables && b !in db.tables then db.(tables := (db.tables - {a})[b := db.tables[a]]) else db
    case RenameColumn(t, a, b) =>
      if t in db.tables && a in db.tables[t].columns && b !in db.tables[t].columns then Put(db, t, Renamed(db.tables[t], a, b)) else db
    case CreateTable(t, columns) =>
      if t in db.tables then db else Put(db, t, Table(columns, map[]))
    case AddColumn(t, c, default) =>
      if t in db.tables && c !in db.tables[t].columns then Put(db, t, Extended(db.tables[t], c, default)) else db
    case Update(rule) =>
      var t := RuleTable(rule);
      if t in db.tables && Applies(db.tables[t], rule)
      then Put(db, t, Table(db.tables[t].columns, Updated(db.tables[t].rows, rule))) else db
    case DropColumn(t, c) =>
      if t in db.tables && c in db.tables[t].columns then Put(db, t, Shortened(db.tables[t], c)) else db
    case CreateIndex(name, _) => db.(indexes := db.indexes + {name})
    case SetVersion(v) => db.(version := v)
  }

  function RunAll(db: Db, ss: seq<Stmt>): Db {
    if ss == [] then db else Exec(RunAll(db, ss[..|ss| - 1]), ss[|ss| - 1])
  }

  // ---------------------------------------------------------------- statements that the database rejects

  /** The columns an update mentions, but for `dismissed`, which the code looks for first. */
  function Mentioned(rule: Rule): set<string> {
    {RuleColumn(rule)} + if RuleTable(rule) == "servers" then {"connection_type"} else {}
  }

  /** The database executes the statement: what it mentions is there. Where the guards skip it nothing can fail. */
  predicate Succeeds(db: Db, s: Stmt) {
    match s
    case AddColumn(t, _, _) => t in db.tables
    case Update(rule) =>
      var t := RuleTable(rule);
      if t in db.tables then Mentioned(rule) <= db.tables[t].columns else t == NEW_TABLE
    case CreateIndex(_, columns) => NEW_TABLE in db.tables ==> columns <= db.tables[NEW_TABLE].columns
    case _ => true
  }

  /** What the statements lead to, None when one of them is rejected. */
  function Start(db: Db, ss: seq<Stmt>): Option<Db> {
    if ss == [] then Some(db)
    else
      match Start(db, ss[..|ss| - 1])
      case None => None
      case Some(d) => if Succeeds(d, ss[|ss| - 1]) then Some(Exec(d, ss[|ss| - 1])) else None
  }

  /** Statements that all succeed lead where running them regardless does. */
  lemma {:induction false} StartRuns(db: Db, ss: seq<Stmt>)
    ensures Start(db, ss).Some? ==> Start(db, ss).value == RunAll(db, ss)
  {
    if ss != [] { StartRuns(db, ss[..|ss| - 1]); }
  }

  function Continue(d: Option<Db>, ss: seq<Stmt>): Option<Db> { if d.None? then None else Start(d.value, ss) }

  lemma {:induction false} StartConcat(db: Db, a: seq<Stmt>, b: seq<Stmt>)
    ensures Start(db, a + b) == Continue(Start(db, a), b)
  {
    if b == [] {
      assert a + b == a;
    } else {
      var n := |b| - 1;
      StartConcat(db, a, b[..n]);
      assert (a + b)[..|a + b| - 1] == a + b[..n];
    }
  }

  lemma StartNext(db: Db, ss: seq<Stmt>, j: nat)
    requires j < |ss| && Start(db, ss[..j]).Some?
    ensures var d := Start(db, ss[..j]).value;
      Start(db, ss[..j + 1]) == if Succeeds(d, ss[j]) then Some(Exec(d, ss[j])) else None
    ensures !Succeeds(Start(db, ss[..j]).value, ss[j]) ==> Start(db, ss).None?
  {
    assert ss[..j + 1][..j] == ss[..j];
    assert ss == ss[..j + 1] + ss[j + 1..];
    StartConcat(db, ss[..j + 1], ss[j + 1..]);
  }

  /** Nothing in the list can fail, in any database with these tables. */
  lemma {:induction false} StartAll(db: Db, ss: seq<Stmt>)
    requires forall d: Db, s :: s in ss && d.tables.Keys >= db.tables.Keys ==> Succeeds(d, s)
    requires forall s :: s in ss ==> s.CreateTable? || s.AddColumn?
    ensures Start(db, ss) == Some(RunAll(db, ss)) && db.tables.Keys <= RunAll(db, ss).tables.Keys
  {
    if ss != [] {
      StartAll(db, ss[..|ss| - 1]);
      assert ss[|ss| - 1] in ss;
    }
  }

  lemma RunAllNext(db: Db, ss: seq<Stmt>, j: nat)
    requires j < |ss|
    ensures RunAll(db, ss[..j + 1]) == Exec(RunAll(db, ss[..j]), ss[j])
  {
    assert ss[..j + 1][..j] == ss[..j];
  }

  // ---------------------------------------------------------------- settled statements

  /** The statement has nothing left to do, now and after every later statement. */
  ghost predicate Settled(db: Db, s: Stmt) {
    match s
    case RenameTable(a, b) => a in db.tables ==> b in db.tables
    case RenameColumn(t, a, b) => t in db.tables ==> b in db.tables[t].columns
    case CreateTable(t, _) => t in db.tables
    case AddColumn(t, c, _) => t in db.tables ==> c in db.tables[t].columns
    case Update(rule) =>
      var t := RuleTable(rule);
      t in db.tables && Applies(db.tables[t], rule) ==>
        forall k :: k in db.tables[t].rows ==> !Matches(db.tables[t].rows, rule, db.tables[t].rows[k])
    case DropColumn(t, c) => t in db.tables ==> c !in db.tables[t].columns
    case CreateIndex(name, _) => name in db.indexes
    case SetVersion(v) => db.version == v
  }

  lemma SettledIsQuiet(db: Db, s: Stmt)
    requires Settled(db, s)
    ensures Exec(db, s) == db
  {
    match s
    case Update(rule) =>
      var t := RuleTable(rule);
      if t in db.tables && Applies(db.tables[t], rule) {
        assert Updated(db.tables[t].rows, rule) == db.tables[t].rows;
        assert Exec(db, s).tables == db.tables;
      }
    case CreateIndex(name, _) => assert db.indexes + {name} == db.indexes;
    case _ =>
  }

  const OLD_TABLE := "discovered_hosts"
  const NEW_TABLE := "discoveries"
  const LEGACY_CODES: set<string> := {"updated", "out_of_date", "unknown"}
  const SETTLED_CODES: set<string> := {"ok", "pending", "failed"}

  /** The phases of the migration, in order. */
  function Phase(s: Stmt): nat {
    match s
    case RenameTable(_, _) => 0
    case RenameColumn(_, _, _) => 1
    case CreateTable(_, _) => 2
    case AddColumn(_, _, _) => 3
    case Update(_) => 4
    case DropColumn(_, _) => 5
    case CreateIndex(_, _) => 6
    case SetVersion(_) => 7
  }

  /** What the argument uses of the statements: the names they touch. */
  ghost predicate Ours(s: Stmt) {
    match s
    case RenameTable(a, b) => a == OLD_TABLE && b == NEW_TABLE
    case RenameColumn(t, a, b) => t == NEW_TABLE && a == "status" && b == "status_text"
    case CreateTable(t, columns) => t != OLD_TABLE && (t == NEW_TABLE ==> "status_text" in columns && "status" in columns)
    case AddColumn(t, c, default) => c != "status_text" && c != "dismissed" && t != OLD_TABLE && (t == NEW_TABLE ==> default == Null)
    case Update(Recode(from, to)) => from in LEGACY_CODES && to in SETTLED_CODES
    case Update(_) => true
    case DropColumn(t, c) => t == NEW_TABLE && c == "dismissed"
    case CreateIndex(_, _) => true
    case SetVersion(v) => v == SCHEMA_VERSION
  }

  const SCHEMA_VERSION := "12"

  /** The discoveries table, under its old or its new name, has a column for the running/stopped text. */
  ghost predicate Shaped(db: Db) {
    var name := if NEW_TABLE in db.tables then NEW_TABLE else OLD_TABLE;
    name in db.tables ==> "status" in db.tables[name].columns || "status_text" in db.tables[name].columns
  }

  lemma ExecKeepsShape(db: Db, s: Stmt)
    requires Shaped(db) && Ours(s)
    ensures Shaped(Exec(db, s))
  {
  }

  lemma UpdateSettles(rows: map<nat, Row>, rule: Rule, k: nat)
    requires k in rows
    requires rule.Recode? ==> rule.from in LEGACY_CODES && rule.to in SETTLED_CODES
    ensures !Matches(Updated(rows, rule), rule, Updated(rows, rule)[k])
  {
    SameConnections(rows, Updated(rows, rule));
  }

  lemma SameConnections(rows: map<nat, Row>, rows': map<nat, Row>)
    requires rows.Keys == rows'.Keys
    requires forall k :: k in rows ==> Get(rows'[k], "connection_type") == Get(rows[k], "connection_type")
    ensures forall how :: AnyConnects(rows, how) <==> AnyConnects(rows', how)
  {
    forall how ensures AnyConnects(rows, how) <==> AnyConnects(rows', how) {
      if id :| id in rows && Connects(rows[id], how) { assert id in rows' && Connects(rows'[id], how); }
      if id :| id in rows' && Connects(rows'[id], how) { assert id in rows && Connects(rows[id], how); }
    }
  }

  /** A statement is settled once it has run. */
  lemma ExecSettles(db: Db, s: Stmt)
    requires Shaped(db) && Ours(s) && (s.RenameColumn? ==> Settled(db, RenameTable(OLD_TABLE, NEW_TABLE)))
    ensures Settled(Exec(db, s), s)
  {
    match s
    case Update(rule) =>
      var t := RuleTable(rule);
      if t in db.tables && Applies(db.tables[t], rule) {
        var rows := db.tables[t].rows;
        forall k | k in Updated(rows, rule) ensures !Matches(Updated(rows, rule), rule, Updated(rows, rule)[k]) {
          UpdateSettles(rows, rule, k);
        }
      }
    case _ =>
  }

  /** A settled statement stays settled when a statement of the same or a later phase runs. */
  lemma SettledStays(db: Db, s: Stmt, later: Stmt)
    requires Settled(db, s) && Ours(s) && Ours(later) && Phase(s) <= Phase(later)
    ensures Settled(Exec(db, later), s)
  {
    if s.Update? && later.Update? {
      UpdatesCommute(db, s.rule, later.rule);
    }
  }

  lemma UpdatesCommute(db: Db, rule: Rule, later: Rule)
    requires Settled(db, Update(rule)) && Ours(Update(rule)) && Ours(Update(later))
    ensures Settled(Exec(db, Update(later)), Update(rule))
  {
    var t := RuleTable(later);
    if RuleTable(rule) == t && t in db.tables && Applies(db.tables[t], later) && Applies(db.tables[t], rule) {
      var rows := db.tables[t].rows;
      var rows' := Updated(rows, later);
      SameConnections(rows, rows');
      forall k | k in rows' ensures !Matches(rows', rule, rows'[k]) {
        assert !Matches(rows, rule, rows[k]);
      }
    }
  }

  // ---------------------------------------------------------------- running a list again

  ghost predicate Ordered(ss: seq<Stmt>) {
    forall i, j :: 0 <= i < j < |ss| ==> Phase(ss[i]) <= Phase(ss[j])
  }

  /** A migration: our statements, in phase order, beginning with the table rename. */
  ghost predicate IsMigration(ss: seq<Stmt>) {
    && ss != [] && ss[0] == RenameTable(OLD_TABLE, NEW_TABLE)
    && Ordered(ss) && forall s :: s in ss ==> Ours(s)
  }

  lemma {:induction false} RunKeepsShape(db: Db, ss: seq<Stmt>)
    requires Shaped(db) && forall s :: s in ss ==> Ours(s)
    ensures Shaped(RunAll(db, ss))
  {
    if ss != [] {
      RunKeepsShape(db, ss[..|ss| - 1]);
      ExecKeepsShape(RunAll(db, ss[..|ss| - 1]), ss[|ss| - 1]);
    }
  }

  /** After any prefix of the migration every statement of the prefix is settled. */
  lemma {:induction false} PrefixSettles(db: Db, ss: seq<Stmt>, k: nat)
    requires Shaped(db) && IsMigration(ss) && k <= |ss|
    ensures Shaped(RunAll(db, ss[..k]))
    ensures forall i :: 0 <= i < k ==> Settled(RunAll(db, ss[..k]), ss[i])
  {
    if k > 0 {
      hide Settled, Exec, Shaped;
      PrefixSettles(db, ss, k - 1);
      var before := RunAll(db, ss[..k - 1]);
      assert ss[..k][..k - 1] == ss[..k - 1];
      ExecKeepsShape(before, ss[k - 1]);
      if k - 1 == 0 { assert ss[k - 1].RenameTable?; }
      ExecSettles(before, ss[k - 1]);
      forall i | 0 <= i < k - 1 ensures Settled(Exec(before, ss[k - 1]), ss[i]) {
        SettledStays(before, ss[i], ss[k - 1]);
      }
    }
  }

  lemma {:induction false} SettledRunIsQuiet(db: Db, ss: seq<Stmt>)
    requires forall i :: 0 <= i < |ss| ==> Settled(db, ss[i])
    ensures RunAll(db, ss) == db
  {
    if ss != [] {
      SettledRunIsQuiet(db, ss[..|ss| - 1]);
      SettledIsQuiet(db, ss[|ss| - 1]);
    }
  }

  lemma {:induction false} RunConcat(db: Db, a: seq<Stmt>, b: seq<Stmt>)
    ensures RunAll(db, a + b) == RunAll(RunAll(db, a), b)
  {
    if b == [] {
      assert a + b == a;
    } else {
      RunConcat(db, a, b[..|b| - 1]);
      assert (a + b)[..|a + b| - 1] == a + b[..|b| - 1];
    }
  }

  /** Running further prefixes on top of a prefix amounts to the longest of them. */
  lemma RunAgain(db: Db, ss: seq<Stmt>, k: nat, m: nat)
    requires Shaped(db) && IsMigration(ss) && k <= |ss| && m <= |ss|
    ensures RunAll(RunAll(db, ss[..k]), ss[..m]) == RunAll(db, ss[..if k < m then m else k])
  {
    PrefixSettles(db, ss, k);
    var mid := RunAll(db, ss[..k]);
    if m <= k {
      SettledRunIsQuiet(mid, ss[..m]);
    } else {
      SettledRunIsQuiet(mid, ss[..k]);
      assert ss[..m] == ss[..k] + ss[k..m];
      RunConcat(mid, ss[..k], ss[k..m]);
      RunConcat(db, ss[..k], ss[k..m]);
    }
  }

  /** A sequence of starts, each cut off after some number of statements. */
  ghost function Attempts(db: Db, ss: seq<Stmt>, cuts: seq<nat>): Db
    requires forall i :: 0 <= i < |cuts| ==> cuts[i] <= |ss|
  {
    if cuts == [] then db else RunAll(Attempts(db, ss, cuts[..|cuts| - 1]), ss[..cuts[|cuts| - 1]])
  }

  function Farthest(cuts: seq<nat>): nat {
    if cuts == [] then 0
    else var m, last := Farthest(cuts[..|cuts| - 1]), cuts[|cuts| - 1]; if m < last then last else m
  }

  lemma {:induction false} AttemptsReachFarthest(db: Db, ss: seq<Stmt>, cuts: seq<nat>)
    requires Shaped(db) && IsMigration(ss) && forall i :: 0 <= i < |cuts| ==> cuts[i] <= |ss|
    ensures Farthest(cuts) <= |ss| && Attempts(db, ss, cuts) == RunAll(db, ss[..Farthest(cuts)])
  {
    if cuts == [] {
      assert ss[..0] == [];
    } else {
      AttemptsReachFarthest(db, ss, cuts[..|cuts| - 1]);
      RunAgain(db, ss, Farthest(cuts[..|cuts| - 1]), cuts[|cuts| - 1]);
    }
  }

  /** However often and wherever earlier starts were cut off, one complete run ends in the same database. */
  lemma {:induction false} CompletesTheSame(db: Db, ss: seq<Stmt>, cuts: seq<nat>)
    requires Shaped(db) && IsMigration(ss) && forall i :: 0 <= i < |cuts| ==> cuts[i] <= |ss|
    ensures RunAll(Attempts(db, ss, cuts), ss) == RunAll(db, ss)
  {
    AttemptsReachFarthest(db, ss, cuts);
    RunAgain(db, ss, Farthest(cuts), |ss|);
    assert ss[..|ss|] == ss;
  }

  // ---------------------------------------------------------------- what a start needs

  predicate HasDiscoveries(db: Db) { NEW_TABLE in db.tables || OLD_TABLE in db.tables }

  /** The discoveries table: under its new name if there is one, else under the old one. */
  function Discoveries(db: Db): Table
    requires HasDiscoveries(db)
  {
    db.tables[if NEW_TABLE in db.tables then NEW_TABLE else OLD_TABLE]
  }

  const INDEXED: set<string> := {"source", "proxmox_vmid"}

  /** The hosts, if there is a table of them, have a connection type. */
  predicate HasConnections(db: Db) { "servers" in db.tables ==> "connection_type" in db.tables["servers"].columns }

  /** So do the discoveries have the columns of their index, none of which is added later. */
  predicate Indexable(db: Db) { HasDiscoveries(db) ==> INDEXED <= Discoveries(db).columns }

  predicate Startable(db: Db) { HasConnections(db) && Indexable(db) }

  /** The statement neither brings nor takes these columns. */
  ghost predicate Neutral(s: Stmt) {
    match s
    case RenameTable(a, b) => a == OLD_TABLE && b == NEW_TABLE
    case RenameColumn(t, a, b) => t == NEW_TABLE && a == "status" && b == "status_text"
    case CreateTable(t, columns) => t != OLD_TABLE && (t == "servers" ==> "connection_type" in columns) && (t == NEW_TABLE ==> INDEXED <= columns)
    case AddColumn(_, c, _) => c != "connection_type" && c !in INDEXED
    case DropColumn(t, c) => t == NEW_TABLE && c == "dismissed"
    case _ => true
  }

  /** The discoveries are not under the old name alone. */
  predicate Placed(db: Db) { OLD_TABLE in db.tables ==> NEW_TABLE in db.tables }

  lemma NeutralStep(db: Db, s: Stmt)
    requires Neutral(s) && (Placed(db) || s.RenameTable?)
    ensures Placed(Exec(db, s))
    ensures HasConnections(Exec(db, s)) <==> HasConnections(db)
    ensures Indexable(Exec(db, s)) <==> Indexable(db)
  {
  }

  lemma {:induction false} NeutralRun(db: Db, ss: seq<Stmt>)
    requires forall s :: s in ss ==> Neutral(s)
    requires Placed(db) || ss == [] || ss[0].RenameTable?
    ensures HasConnections(RunAll(db, ss)) <==> HasConnections(db)
    ensures Indexable(RunAll(db, ss)) <==> Indexable(db)
    ensures ss != [] || Placed(db) ==> Placed(RunAll(db, ss))
  {
    if ss != [] {
      NeutralRun(db, ss[..|ss| - 1]);
      NeutralStep(RunAll(db, ss[..|ss| - 1]), ss[|ss| - 1]);
    }
  }

  /** Starts that were cut off take nothing away that a start needs, and bring nothing. */
  lemma {:induction false} AttemptsStayStartable(db: Db, ss: seq<Stmt>, cuts: seq<nat>)
    requires forall i :: 0 <= i < |cuts| ==> cuts[i] <= |ss|
    requires ss != [] && ss[0].RenameTable? && forall s :: s in ss ==> Neutral(s)
    ensures Startable(Attempts(db, ss, cuts)) <==> Startable(db)
  {
    if cuts != [] {
      AttemptsStayStartable(db, ss, cuts[..|cuts| - 1]);
      NeutralRun(Attempts(db, ss, cuts[..|cuts| - 1]), ss[..cuts[|cuts| - 1]]);
    }
  }

  // ---------------------------------------------------------------- the tables that do not meet the shape

  ghost predicate Lacks(db: Db, c: string) { NEW_TABLE in db.tables && c !in db.tables[NEW_TABLE].columns }
  ghost predicate Has(db: Db, c: string) { NEW_TABLE in db.tables && c in db.tables[NEW_TABLE].columns }

  lemma {:induction false} RunKeepsColumn(db: Db, ss: seq<Stmt>)
    requires Has(db, "status_text") && forall s :: s in ss ==> Ours(s)
    ensures Has(RunAll(db, ss), "status_text")
  {
    if ss != [] {
      RunKeepsColumn(db, ss[..|ss| - 1]);
      assert Ours(ss[|ss| - 1]);
    }
  }

  /** Past the renames nothing brings the text column back. */
  lemma {:induction false} RunKeepsLack(db: Db, ss: seq<Stmt>)
    requires Lacks(db, "status_text") && forall s :: s in ss ==> Ours(s) && Phase(s) >= 2
    ensures Lacks(RunAll(db, ss), "status_text")
    ensures Has(db, "status") ==> Has(RunAll(db, ss), "status")
  {
    if ss != [] {
      RunKeepsLack(db, ss[..|ss| - 1]);
      assert Ours(ss[|ss| - 1]);
    }
  }
}
