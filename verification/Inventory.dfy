/** Fact storage (webpanel/app/inventory.py `store_facts`): one row per host and fact that remembers the value, the
    value before it and when it changed, and what that row says about everything ever observed. */
module Inventory {
  import opened Options
  import Text
  import Lists

  function InventoryKeys(): (keys: seq<string>)
    ensures forall i, j :: 0 <= i < j < |keys| ==> keys[i] != keys[j]
  {
    [
      "hostname", "fqdn", "distribution", "distribution_version", "distribution_release", "kernel", "architecture",
      "cpu_model", "vcpus", "memtotal_mb", "disk_mounts", "default_ipv4", "macaddress", "all_ipv4",
      "virtualization_type", "virtualization_role", "python_version", "pkg_mgr", "timezone"]
  }

  /** A gathered fact: JSON null, a list, or anything else, each already as text. */
  datatype Fact = Null | Many(items: seq<string>) | Scalar(text: string)

  datatype Server = Server(id: int, name: string)

  datatype Row = Row(value: string, previous: Option<string>, changedAt: Option<int>)

  type Cell = (int, string)

  /** One pass over the hosts of a finished run. */
  datatype Run = Run(servers: seq<Server>, facts: map<string, map<string, Fact>>, now: int)

  function Joined(items: seq<string>): string {
    if items == [] then "" else if |items| == 1 then items[0] else Joined(items[..|items| - 1]) + ", " + items[|items| - 1]
  }

  function Norm(f: Fact): string {
    match f
    case Null => ""
    case Many(items) => Joined(items)
    case Scalar(text) => Text.Strip(text)
  }

  // ---------------------------------------------------------------- what one run means for one cell

  ghost predicate DistinctIds(servers: seq<Server>) {
    forall i, j :: 0 <= i < j < |servers| ==> servers[i].id != servers[j].id
  }

  /** What the facts say about a host: nothing when the host or key is missing or the value is blank. */
  function Told(s: Server, key: string, facts: map<string, map<string, Fact>>): Option<string> {
    if key in InventoryKeys() && s.name in facts && key in facts[s.name] && Norm(facts[s.name][key]) != ""
    then Some(Norm(facts[s.name][key]))
    else None
  }

  /** What a run observes of a cell. */
  function Seen(c: Cell, servers: seq<Server>, facts: map<string, map<string, Fact>>): Option<string> {
    if servers == [] then None
    else if servers[|servers| - 1].id == c.0 then Told(servers[|servers| - 1], c.1, facts)
    else Seen(c, servers[..|servers| - 1], facts)
  }

  function Observed(row: Option<Row>, seen: Option<string>, now: int): Option<Row> {
    match (row, seen)
    case (_, None) => row
    case (None, Some(v)) => Some(Row(v, None, None))
    case (Some(r), Some(v)) => if v == r.value then row else Some(Row(v, Some(r.value), Some(now)))
  }

  function At(rows: map<Cell, Row>, c: Cell): Option<Row> { if c in rows then Some(rows[c]) else None }

  /** The cells whose stored value a pass replaced by another. */
  function Replaced(was: map<Cell, Row>, rows: map<Cell, Row>): set<Cell> {
    set c | c in was && c in rows && was[c].value != rows[c].value
  }

  ghost predicate Follows(was: map<Cell, Row>, rows: map<Cell, Row>, run: Run) {
    forall c: Cell :: At(rows, c) == Observed(At(was, c), Seen(c, run.servers, run.facts), run.now)
  }

  // ---------------------------------------------------------------- the pass

  class HostInventory {
    var rows: map<Cell, Row>

    /** One host: `existing` is what the host's rows were before its facts are looked at. */
    method StoreHost(srv: Server, facts: map<string, Fact>, now: int) returns (changed: nat)
      modifies this
      ensures forall c: Cell :: At(rows, c) == if c.0 == srv.id then Observed(At(old(rows), c), Told(srv, c.1, map[srv.name := facts]), now) else At(old(rows), c)
      ensures changed == |Replaced(old(rows), rows)|
    {
      hide InventoryKeys, Norm, Replaced, Told, At;
      var existing := rows;
      changed := 0;
      var (k, keys) := (0, InventoryKeys());
      ghost var world := map[srv.name := facts];
      SameReplaced(existing, rows);
      while k < |keys|
        invariant 0 <= k <= |keys| && changed == |Replaced(existing, rows)|
        invariant forall c: Cell :: At(rows, c) == if c.0 == srv.id && c.1 in keys[..k] then Observed(At(existing, c), Told(srv, c.1, world), now) else At(existing, c)
      {
        var key := keys[k];
        var c := (srv.id, key);
        ghost var before := rows;
        assert key !in keys[..k] && At(rows, c) == At(existing, c);
        ToldAlone(srv, key, facts);
        AtIs(existing, c);
        AtIs(rows, c);
        if key in facts && Norm(facts[key]) != "" {
          var v := Norm(facts[key]);
          if c !in existing {
            rows := rows[c := Row(v, None, None)];
            AtPut(before, c, Row(v, None, None));
            SameChanges(existing, before, rows, c);
          } else if v != existing[c].value {
            rows := rows[c := Row(v, Some(existing[c].value), Some(now))];
            AtPut(before, c, rows[c]);
            OneMoreChange(existing, before, rows, c);
            changed := changed + 1;
          }
        }
        assert keys[..k + 1] == keys[..k] + [key];
        k := k + 1;
      }
      assert keys[..k] == keys;
      forall key | key !in keys ensures Told(srv, key, world) == None { ToldAlone(srv, key, facts); }
    }

    method StoreFacts(servers: seq<Server>, factsByHost: map<string, map<string, Fact>>, now: int) returns (changed: nat)
      requires DistinctIds(servers)
      modifies this
      ensures Follows(old(rows), rows, Run(servers, factsByHost, now))
      ensures changed == |Replaced(old(rows), rows)|
    {
      changed := 0;
      ghost var was := rows;
      SameReplaced(was, rows);
      if |factsByHost| == 0 {
        forall c: Cell ensures Seen(c, servers, factsByHost) == None { NothingTold(c, servers, factsByHost); }
        return;
      }
      var i := 0;
      while i < |servers|
        invariant 0 <= i <= |servers| && changed == |Replaced(was, rows)|
        invariant forall c: Cell :: At(rows, c) == Observed(At(was, c), Seen(c, servers[..i], factsByHost), now)
      {
        var srv := servers[i];
        ghost var before := rows;
        assert servers[..i + 1][..i] == servers[..i];
        forall c: Cell | c.0 == srv.id ensures Seen(c, servers[..i], factsByHost) == None { NotYet(c, servers, i, factsByHost); }
        if srv.name in factsByHost && |factsByHost[srv.name]| != 0 {
          var n := StoreHost(srv, factsByHost[srv.name], now);
          ChangesAdd(was, before, rows, srv.id);
          changed := changed + n;
        } else {
          assert forall key :: Told(srv, key, factsByHost) == None;
        }
        i := i + 1;
      }
      assert servers[..i] == servers;
    }
  }

  lemma AtIs(rows: map<Cell, Row>, c: Cell)
    ensures At(rows, c) == if c in rows then Some(rows[c]) else None
  {
  }

  lemma AtPut(rows: map<Cell, Row>, c: Cell, r: Row)
    ensures forall d: Cell :: At(rows[c := r], d) == if d == c then Some(r) else At(rows, d)
  {
    forall d: Cell ensures At(rows[c := r], d) == if d == c then Some(r) else At(rows, d) {
      if d == c { assert c in rows[c := r]; } else { assert d in rows[c := r] <==> d in rows; }
    }
  }

  lemma ToldAlone(srv: Server, key: string, facts: map<string, Fact>)
    ensures Told(srv, key, map[srv.name := facts]) ==
      if key in InventoryKeys() && key in facts && Norm(facts[key]) != "" then Some(Norm(facts[key])) else None
  {
  }

  lemma SameReplaced(was: map<Cell, Row>, rows: map<Cell, Row>)
    requires was == rows
    ensures |Replaced(was, rows)| == 0
  {
    assert Replaced(was, rows) == {};
  }

  lemma SameChanges(was: map<Cell, Row>, before: map<Cell, Row>, rows: map<Cell, Row>, c: Cell)
    requires c !in was && rows.Keys == before.Keys + {c} && forall d :: d in before && d != c ==> rows[d] == before[d]
    ensures Replaced(was, rows) == Replaced(was, before)
  {
  }

  lemma OneMoreChange(was: map<Cell, Row>, before: map<Cell, Row>, rows: map<Cell, Row>, c: Cell)
    requires c in was && c in before && was[c] == before[c] && rows.Keys == before.Keys && rows[c].value != was[c].value
    requires forall d :: d in before && d != c ==> rows[d] == before[d]
    ensures |Replaced(was, rows)| == |Replaced(was, before)| + 1
  {
    assert Replaced(was, rows) == Replaced(was, before) + {c};
  }

  lemma NothingTold(c: Cell, servers: seq<Server>, facts: map<string, map<string, Fact>>)
    requires |facts| == 0
    ensures Seen(c, servers, facts) == None
  {
    assert forall name :: name !in facts.Keys;
  }

  lemma NotYet(c: Cell, servers: seq<Server>, i: nat, facts: map<string, map<string, Fact>>)
    requires i < |servers| && DistinctIds(servers) && c.0 == servers[i].id
    ensures Seen(c, servers[..i], facts) == None
  {
    Absent(c, servers[..i], facts);
  }

  lemma {:induction false} Absent(c: Cell, servers: seq<Server>, facts: map<string, map<string, Fact>>)
    requires forall s :: s in servers ==> s.id != c.0
    ensures Seen(c, servers, facts) == None
  {
    if servers != [] { Absent(c, servers[..|servers| - 1], facts); }
  }

  /** Passes over different hosts replace different cells. */
  lemma ChangesAdd(was: map<Cell, Row>, before: map<Cell, Row>, rows: map<Cell, Row>, id: int)
    requires forall c: Cell :: c.0 != id ==> At(rows, c) == At(before, c)
    requires forall c: Cell :: c.0 == id ==> At(before, c) == At(was, c)
    ensures |Replaced(was, rows)| == |Replaced(was, before)| + |Replaced(before, rows)|
  {
    forall c: Cell ensures c in Replaced(was, rows) <==> c in Replaced(was, before) + Replaced(before, rows) {
      assert At(rows, c) == At(before, c) || At(before, c) == At(was, c);
    }
    forall c: Cell ensures !(c in Replaced(was, before) && c in Replaced(before, rows)) {
      assert At(rows, c) == At(before, c) || At(before, c) == At(was, c);
    }
    assert Replaced(was, rows) == Replaced(was, before) + Replaced(before, rows);
  }

  // ---------------------------------------------------------------- what is stored

  /** The items of a list, a comma and a space between them. */
  ghost predicate Listed(items: seq<string>, text: string)
    decreases |items|
  {
    if items == [] then text == ""
    else if |items| == 1 then text == items[0]
    else exists rest :: Listed(items[1..], rest) && text == items[0] + ", " + rest
  }

  lemma {:induction false} ListedNext(items: seq<string>, text: string, last: string)
    requires items != [] && Listed(items, text)
    ensures Listed(items + [last], text + ", " + last)
    decreases |items|
  {
    var all := items + [last];
    assert all[1..] == items[1..] + [last];
    if |items| == 1 {
      assert Listed(all[1..], last);
    } else {
      var rest :| Listed(items[1..], rest) && text == items[0] + ", " + rest;
      ListedNext(items[1..], rest, last);
      assert text + ", " + last == items[0] + ", " + (rest + ", " + last);
    }
  }

  lemma {:induction false} JoinedLists(items: seq<string>)
    ensures Listed(items, Joined(items))
  {
    if |items| > 1 {
      var n := |items| - 1;
      JoinedLists(items[..n]);
      ListedNext(items[..n], Joined(items[..n]), items[n]);
      assert items == items[..n] + [items[n]];
    }
  }

  /** A fact as text: nothing for null, a list item by item, anything else without white space around it. */
  ghost predicate Says(fact: Fact, text: string) {
    match fact
    case Null => text == ""
    case Many(items) => Listed(items, text)
    case Scalar(whole) =>
      && (exists i, j :: 0 <= i <= j <= |whole| && text == whole[i..j] && Text.Blank(whole[..i]) && Text.Blank(whole[j..]))
      && (text != "" ==> !Text.IsSpace(text[0]) && !Text.IsSpace(text[|text| - 1]))
  }

  /** A new value moves the stored one to `previous` and is stamped; a first value is not. */
  ghost predicate Stores(was: Option<Row>, row: Option<Row>, text: string, now: int) {
    && row.Some? && row.value.value == text
    && (was.None? ==> row.value.previous == None && row.value.changedAt == None)
    && (was.Some? && was.value.value == text ==> row == was)
    && (was.Some? && was.value.value != text ==> row.value.previous == Some(was.value.value) && row.value.changedAt == Some(now))
  }

  lemma NormLaw(fact: Fact) returns (text: string)
    ensures Says(fact, text) && text == Norm(fact)
  {
    text := Norm(fact);
    match fact
    case Null =>
    case Many(items) => JoinedLists(items);
    case Scalar(whole) => var i, j := Text.StripLaw(whole);
  }

  lemma {:induction false} SeenIs(s: Server, key: string, servers: seq<Server>, facts: map<string, map<string, Fact>>)
    requires s in servers && DistinctIds(servers)
    ensures Seen((s.id, key), servers, facts) == Told(s, key, facts)
  {
    var n := |servers| - 1;
    assert servers == servers[..n] + [servers[n]];
    if s != servers[n] {
      var i :| 0 <= i < n && servers[i] == s;
      SeenIs(s, key, servers[..n], facts);
    }
  }

  /** A run leaves a fact it gathered of a host in its row, unless it is blank, and leaves all other rows alone. */
  lemma FactsLaw(was: map<Cell, Row>, rows: map<Cell, Row>, run: Run, c: Cell)
    requires Follows(was, rows, run) && DistinctIds(run.servers)
    ensures (forall s :: s in run.servers ==> s.id != c.0) || c.1 !in InventoryKeys() ==> At(rows, c) == At(was, c)
    ensures forall s :: s in run.servers && s.id == c.0 && c.1 in InventoryKeys() ==>
      if s.name in run.facts && c.1 in run.facts[s.name]
      then exists text :: Says(run.facts[s.name][c.1], text) && if text == "" then At(rows, c) == At(was, c) else Stores(At(was, c), At(rows, c), text, run.now)
      else At(rows, c) == At(was, c)
  {
    hide InventoryKeys, Norm, Says;
    if forall s :: s in run.servers ==> s.id != c.0 { Absent(c, run.servers, run.facts); }
    forall s | s in run.servers && s.id == c.0 ensures Seen(c, run.servers, run.facts) == Told(s, c.1, run.facts) {
      SeenIs(s, c.1, run.servers, run.facts);
    }
    if s :| s in run.servers && s.id == c.0 && s.name in run.facts && c.1 in run.facts[s.name] {
      var text := NormLaw(run.facts[s.name][c.1]);
      assert Says(run.facts[s.name][c.1], text);
    } else if c.1 !in InventoryKeys() {
      UncuratedUnseen(c, run.servers, run.facts);
    }
  }

  lemma {:induction false} UncuratedUnseen(c: Cell, servers: seq<Server>, facts: map<string, map<string, Fact>>)
    requires c.1 !in InventoryKeys()
    ensures Seen(c, servers, facts) == None
  {
    if servers != [] { UncuratedUnseen(c, servers[..|servers| - 1], facts); }
  }

  // ---------------------------------------------------------------- the full history

  /** Everything ever observed of a cell, with the time of each observation. */
  function Observations(c: Cell, runs: seq<Run>): seq<(string, int)> {
    if runs == [] then []
    else
      var run := runs[|runs| - 1];
      var earlier := Observations(c, runs[..|runs| - 1]);
      match Seen(c, run.servers, run.facts)
      case None => earlier
      case Some(v) => earlier + [(v, run.now)]
  }

  /** The observations that differ from the one before, the first included. */
  function StutterFree(obs: seq<(string, int)>): seq<(string, int)> {
    if |obs| <= 1 then obs
    else if obs[|obs| - 1].0 == obs[|obs| - 2].0 then StutterFree(obs[..|obs| - 1])
    else StutterFree(obs[..|obs| - 1]) + [obs[|obs| - 1]]
  }

  /** What a row should say about a list of observations. */
  function Summary(obs: seq<(string, int)>): Option<Row> {
    var s := StutterFree(obs);
    if s == [] then None
    else if |s| == 1 then Some(Row(s[0].0, None, None))
    else Some(Row(s[|s| - 1].0, Some(s[|s| - 2].0), Some(s[|s| - 1].1)))
  }

  lemma {:induction false} LastSurvives(obs: seq<(string, int)>)
    requires obs != []
    ensures StutterFree(obs) != [] && StutterFree(obs)[|StutterFree(obs)| - 1].0 == obs[|obs| - 1].0
  {
    if |obs| > 1 { LastSurvives(obs[..|obs| - 1]); }
  }

  lemma SummaryEmpty(obs: seq<(string, int)>)
    ensures Summary(obs) == None <==> obs == []
  {
    if obs != [] { LastSurvives(obs); }
  }

  lemma SummaryNext(obs: seq<(string, int)>, v: string, now: int)
    ensures Summary(obs + [(v, now)]) == Observed(Summary(obs), Some(v), now)
  {
    var next := obs + [(v, now)];
    assert next[..|next| - 1] == obs;
    if obs != [] { LastSurvives(obs); }
  }

  /** A run of the store: the states after each pass, each following from the one before. */
  ghost predicate IsHistory(states: seq<map<Cell, Row>>, runs: seq<Run>) {
    && |states| == |runs| + 1
    && states[0] == map[]
    && forall i {:trigger runs[i]} :: 0 <= i < |runs| ==> Follows(states[i], states[i + 1], runs[i])
  }

  /** Compact tracking loses nothing it promises: whatever was gathered, each stored row is the last value, the value
      before it and the time of the last change in the stutter-free list of all observations. */
  lemma {:induction false} RowsSummariseHistory(states: seq<map<Cell, Row>>, runs: seq<Run>, c: Cell)
    requires IsHistory(states, runs)
    ensures At(states[|runs|], c) == Summary(Observations(c, runs))
  {
    if runs != [] {
      var n := |runs| - 1;
      assert IsHistory(states[..n + 1], runs[..n]);
      RowsSummariseHistory(states[..n + 1], runs[..n], c);
      assert Follows(states[n], states[n + 1], runs[n]);
      match Seen(c, runs[n].servers, runs[n].facts)
      case None =>
      case Some(v) => SummaryNext(Observations(c, runs[..n]), v, runs[n].now);
    }
  }

  // ---------------------------------------------------------------- the returned counts

  /** The sum of what the passes returned. */
  ghost function Returned(states: seq<map<Cell, Row>>): nat {
    if |states| <= 1 then 0 else Returned(states[..|states| - 1]) + |Replaced(states[|states| - 2], states[|states| - 1])|
  }

  function ChangeCount(obs: seq<(string, int)>): nat {
    if StutterFree(obs) == [] then 0 else |StutterFree(obs)| - 1
  }

  ghost function Changes(runs: seq<Run>): Cell -> nat { c => ChangeCount(Observations(c, runs)) }

  ghost function Among(cells: set<Cell>): Cell -> nat { c => if c in cells then 1 else 0 }

  ghost predicate NoRepeats(cells: seq<Cell>) { forall i, j :: 0 <= i < j < |cells| ==> cells[i] != cells[j] }

  lemma {:induction false} CountAmong(cells: seq<Cell>, s: set<Cell>)
    requires NoRepeats(cells) && forall c :: c in s ==> c in cells
    ensures Lists.Sum(Among(s), cells) == |s|
  {
    if cells == [] {
      assert s == {};
    } else {
      var (rest, c) := (cells[..|cells| - 1], cells[|cells| - 1]);
      var t := s - {c};
      CountAmong(rest, t);
      forall d | d in rest ensures Among(s)(d) == Among(t)(d) {}
      Lists.SumSame(Among(s), Among(t), rest);
      if c in s { assert s == t + {c}; }
    }
  }

  lemma ChangeCountNext(obs: seq<(string, int)>, v: string, now: int)
    ensures obs != [] ==> Summary(obs).Some?
    ensures ChangeCount(obs + [(v, now)]) == ChangeCount(obs) + if obs != [] && Summary(obs).value.value != v then 1 else 0
  {
    var next := obs + [(v, now)];
    assert next[..|next| - 1] == obs;
    if obs != [] { LastSurvives(obs); }
  }

  /** A cell is replaced exactly when what is seen differs from the last observation. */
  lemma ReplacedIff(was: map<Cell, Row>, rows: map<Cell, Row>, c: Cell, seen: Option<string>, now: int)
    requires At(rows, c) == Observed(At(was, c), seen, now)
    ensures c in Replaced(was, rows) <==> At(was, c).Some? && seen.Some? && At(was, c).value.value != seen.value
  {
  }

  lemma ChangesGrow(states: seq<map<Cell, Row>>, runs: seq<Run>, c: Cell)
    requires IsHistory(states, runs) && runs != []
    ensures Changes(runs)(c) == Changes(runs[..|runs| - 1])(c) + Among(Replaced(states[|runs| - 1], states[|runs|]))(c)
  {
    var n := |runs| - 1;
    assert IsHistory(states[..n + 1], runs[..n]);
    RowsSummariseHistory(states[..n + 1], runs[..n], c);
    var (obs, seen) := (Observations(c, runs[..n]), Seen(c, runs[n].servers, runs[n].facts));
    assert At(states[n], c) == Summary(obs);
    assert Follows(states[n], states[n + 1], runs[n]);
    ReplacedIff(states[n], states[n + 1], c, seen, runs[n].now);
    assert Observations(c, runs) == if seen.None? then obs else obs + [(seen.value, runs[n].now)];
    if seen.Some? {
      ChangeCountNext(obs, seen.value, runs[n].now);
      SummaryEmpty(obs);
    }
    hide StutterFree, Summary, ChangeCount, IsHistory, Follows, Replaced, Observations, Seen, Observed, At;
  }

  /** The counts returned over all passes add up to the number of changes in the full history. */
  lemma {:induction false} CountsAreChanges(states: seq<map<Cell, Row>>, runs: seq<Run>, cells: seq<Cell>)
    requires IsHistory(states, runs) && NoRepeats(cells)
    requires forall i, c :: 0 <= i < |states| && c in states[i] ==> c in cells
    ensures Returned(states) == Lists.Sum(Changes(runs), cells)
  {
    if runs == [] {
      Lists.SumZero(Changes(runs), cells);
    } else {
      var n := |runs| - 1;
      assert IsHistory(states[..n + 1], runs[..n]);
      CountsAreChanges(states[..n + 1], runs[..n], cells);
      var s := Replaced(states[n], states[n + 1]);
      CountAmong(cells, s);
      forall c: Cell ensures Changes(runs)(c) == Changes(runs[..n])(c) + Among(s)(c) { ChangesGrow(states, runs, c); }
      Lists.SumAdd(Changes(runs[..n]), Among(s), Changes(runs), cells);
    }
  }
}
