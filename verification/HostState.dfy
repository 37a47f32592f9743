/** The per-host state register written when runs finish (webpanel/app/jobs.py `_finalize`,
    webpanel/app/ansible_layer/headless.py `run_now`, webpanel/app/ansible_layer/results.py). */
module HostState {
  import opened Options

  datatype Mode = Check | Apply
  datatype Stats = Stats(ok: nat, changed: nat, failed: nat)
  datatype RunStatus = RunOk | RunChanged | RunFailed
  datatype ConfigStatus = ConfigOk | ConfigPending | ConfigFailed

  datatype Row = Row(
    lastJob: Option<nat>, lastStatus: Option<RunStatus>, reboot: bool,
    config: Option<ConfigStatus>, checkedAt: Option<int>, pending: nat)

  const NewRow := Row(None, None, false, None, None, 0)

  /** What one finished job means for one host: its line of the recap, and whether it asked for a reboot. */
  datatype Finished =
    | Ansible(id: nat, mode: Mode, stats: Option<Stats>, reboot: bool, at: int)
    | Power(id: nat)

  function StatusFromStats(stats: Option<Stats>): Option<RunStatus> {
    match stats
    case None => None
    case Some(s) => Some(if s.failed > 0 then RunFailed else if s.changed > 0 then RunChanged else RunOk)
  }

  function DeriveHostState(mode: Mode, stats: Option<Stats>, reachable: bool): (ConfigStatus, nat) {
    if !reachable || stats.None? || stats.value.failed > 0 then (ConfigFailed, 0)
    else if mode == Check && stats.value.changed > 0 then (ConfigPending, stats.value.changed)
    else (ConfigOk, 0)
  }

  /** The two verdicts on a run agree: failed exactly when the run status is failed or missing, pending exactly when a
      check found changes, and then with a positive count. */
  lemma VerdictsAgree(mode: Mode, stats: Option<Stats>)
    ensures var (status, (config, pending)) := (StatusFromStats(stats), DeriveHostState(mode, stats, stats.Some?));
      && (config.ConfigFailed? <==> status == None || status == Some(RunFailed))
      && (config.ConfigPending? <==> mode == Check && status == Some(RunChanged))
      && (pending > 0 <==> config.ConfigPending?) && (pending > 0 ==> pending == stats.value.changed)
      && !DeriveHostState(mode, stats, false).0.ConfigOk?
  {
  }

  /** A line of the recap as ansible prints it. */
  datatype Recap = Recap(ok: nat, changed: nat, unreachable: nat, failed: nat)

  /** The panel's pattern skips the count of unreachable tries. */
  function Parsed(r: Recap): Stats { Stats(r.ok, r.changed, r.failed) }

  /** An unreachable host with a recap line is failed if and only if a task failed too: without that the run counts as
      ok, or as pending. */
  lemma UnreachableIsMissed(mode: Mode, r: Recap)
    ensures DeriveHostState(mode, Some(Parsed(r)), true).0.ConfigFailed? <==> r.failed > 0
    ensures r == Recap(0, 0, 1, 0) ==>
      StatusFromStats(Some(Parsed(r))) == Some(RunOk) && DeriveHostState(mode, Some(Parsed(r)), true) == (ConfigOk, 0)
  {
  }

  /** The guarded write: an older job never replaces what a newer one wrote. */
  function Settle(row: Option<Row>, f: Finished): Option<Row> {
    if f.Power? then row
    else
      var r := row.GetOr(NewRow);
      if r.lastJob.Some? && f.id < r.lastJob.value then Some(r)
      else
        var st := StatusFromStats(f.stats);
        var (config, pending) := DeriveHostState(f.mode, f.stats, f.stats.Some?);
        Some(Row(Some(f.id), if st.Some? then st else r.lastStatus, f.reboot, Some(config), Some(f.at), pending))
  }

  function SettleAll(row: Option<Row>, fs: seq<Finished>): Option<Row> {
    if fs == [] then row else Settle(SettleAll(row, fs[..|fs| - 1]), fs[|fs| - 1])
  }

  // ---------------------------------------------------------------- the two executors

  datatype Server = Server(id: nat, name: string)

  /** The recap and reboot set of a run, keyed by host name. */
  datatype Output = Output(recap: map<string, Stats>, reboots: set<string>)

  function ForHost(jobId: nat, mode: Mode, out: Output, at: int, name: string): Finished {
    Ansible(jobId, mode, if name in out.recap then Some(out.recap[name]) else None, name in out.reboots, at)
  }

  /** What is recorded of a host when a job on it ends, `row` in place of `was`: nothing if a newer job already did, else
      the job, the time, whether the host asked for a reboot, and what its line of the recap says; without a line the
      configuration counts as failed and the last status stays. */
  ghost predicate Records(was: Option<Row>, row: Option<Row>, jobId: nat, mode: Mode, out: Output, at: int, name: string) {
    if was.Some? && was.value.lastJob.Some? && jobId < was.value.lastJob.value then row == was
    else
      && row.Some? && row.value.lastJob == Some(jobId) && row.value.checkedAt == Some(at)
      && (row.value.reboot <==> name in out.reboots)
      && (name !in out.recap ==>
           && row.value.config == Some(ConfigFailed) && row.value.pending == 0
           && row.value.lastStatus == (if was.Some? then was.value.lastStatus else None))
      && (name in out.recap ==> Reflects(row.value, mode, out.recap[name]))
  }

  predicate Reflects(row: Row, mode: Mode, line: Stats) {
    && row.lastStatus.Some? && row.config.Some?
    && (row.lastStatus.value.RunFailed? <==> line.failed > 0)
    && (row.lastStatus.value.RunChanged? <==> line.failed == 0 && line.changed > 0)
    && (row.config.value.ConfigFailed? <==> line.failed > 0)
    && (row.config.value.ConfigPending? <==> line.failed == 0 && line.changed > 0 && mode.Check?)
    && row.pending == if row.config.value.ConfigPending? then line.changed else 0
  }

  lemma RecordsLaw(was: Option<Row>, jobId: nat, mode: Mode, out: Output, at: int, name: string)
    ensures Records(was, Settle(was, ForHost(jobId, mode, out, at, name)), jobId, mode, out, at, name)
  {
  }

  class Table {
    var rows: map<nat, Row>   // host_state by server id

    ghost function Get(id: nat): Option<Row> reads this { if id in rows then Some(rows[id]) else None }

    method Write(id: nat, f: Finished)
      requires f.Ansible?
      modifies this
      ensures rows == old(rows)[id := Settle(old(Get(id)), f).value]
    {
      var r := if id in rows then rows[id] else NewRow;
      if r.lastJob.Some? && f.id < r.lastJob.value {
        rows := rows[id := r];
        return;
      }
      var st := StatusFromStats(f.stats);
      var status := if st.Some? then st else r.lastStatus;
      var (config, pending) := DeriveHostState(f.mode, f.stats, f.stats.Some?);
      rows := rows[id := Row(Some(f.id), status, f.reboot, Some(config), Some(f.at), pending)];
    }

    /** The panel: server ids are looked up, missing servers skipped, power jobs leave the register alone. */
    method FinalizePanel(jobId: nat, power: bool, mode: Mode, serverIds: seq<nat>, servers: map<nat, string>, out: Output, at: int)
      modifies this
      ensures forall id :: Get(id) ==
                           if !power && id in serverIds && id in servers
                           then Settle(old(Get(id)), ForHost(jobId, mode, out, at, servers[id]))
                           else old(Get(id))
      ensures forall id {:trigger Get(id)} ::
                if !power && id in serverIds && id in servers then Records(old(Get(id)), Get(id), jobId, mode, out, at, servers[id])
                else Get(id) == old(Get(id))
    {
      hide Records;
      if power { return; }
      var i := 0;
      while i < |serverIds|
        invariant 0 <= i <= |serverIds|
        invariant forall id :: Get(id) ==
                               if id in serverIds[..i] && id in servers
                               then Settle(old(Get(id)), ForHost(jobId, mode, out, at, servers[id]))
                               else old(Get(id))
      {
        var sid := serverIds[i];
        assert serverIds[..i + 1] == serverIds[..i] + [sid];
        if sid in servers {
          SettleTwice(old(Get(sid)), ForHost(jobId, mode, out, at, servers[sid]));
          Write(sid, ForHost(jobId, mode, out, at, servers[sid]));
        }
        i := i + 1;
      }
      forall id: nat | id in servers && id in serverIds ensures Records(old(Get(id)), Get(id), jobId, mode, out, at, servers[id]) {
        RecordsLaw(old(Get(id)), jobId, mode, out, at, servers[id]);
      }
    }

    /** The scheduler child: the loop runs over the server rows it loaded. */
    method FinalizeHeadless(jobId: nat, mode: Mode, servers: seq<Server>, out: Output, at: int)
      requires forall i, j :: 0 <= i < j < |servers| ==> servers[i].id != servers[j].id
      modifies this
      ensures forall s :: s in servers ==> Get(s.id) == Settle(old(Get(s.id)), ForHost(jobId, mode, out, at, s.name))
      ensures forall s :: s in servers ==> Records(old(Get(s.id)), Get(s.id), jobId, mode, out, at, s.name)
      ensures forall id :: (forall s :: s in servers ==> s.id != id) ==> Get(id) == old(Get(id))
    {
      hide Records;
      var i := 0;
      while i < |servers|
        invariant 0 <= i <= |servers|
        invariant forall k :: 0 <= k < i ==>
          Get(servers[k].id) == Settle(old(Get(servers[k].id)), ForHost(jobId, mode, out, at, servers[k].name))
        invariant forall id :: (forall k :: 0 <= k < i ==> servers[k].id != id) ==> Get(id) == old(Get(id))
      {
        Write(servers[i].id, ForHost(jobId, mode, out, at, servers[i].name));
        i := i + 1;
      }
      forall s | s in servers ensures Records(old(Get(s.id)), Get(s.id), jobId, mode, out, at, s.name) {
        RecordsLaw(old(Get(s.id)), jobId, mode, out, at, s.name);
      }
    }
  }

  lemma SettleTwice(row: Option<Row>, f: Finished)
    ensures Settle(Settle(row, f), f) == Settle(row, f)
  {
  }

  // ---------------------------------------------------------------- convergence

  /** The fields that do not depend on the finishing order. */
  datatype Core = Core(job: Option<nat>, config: Option<ConfigStatus>, pending: nat, reboot: bool)

  function CoreOf(row: Option<Row>): Core {
    match row
    case None => Core(None, None, 0, false)
    case Some(r) => Core(r.lastJob, r.config, r.pending, r.reboot)
  }

  function CoreFrom(f: Finished): Core
    requires f.Ansible?
  {
    var (config, pending) := DeriveHostState(f.mode, f.stats, f.stats.Some?);
    Core(Some(f.id), Some(config), pending, f.reboot)
  }

  /** No id twice, said of the jobs and not of their order. */
  ghost predicate DistinctIds(fs: seq<Finished>) {
    && (forall f, g :: f in fs && g in fs && f.id == g.id ==> f == g)
    && (forall f :: f in fs ==> multiset(fs)[f] == 1)
  }

  lemma DistinctPrefix(fs: seq<Finished>)
    requires DistinctIds(fs) && fs != []
    ensures var n := |fs| - 1; fs == fs[..n] + [fs[n]] && DistinctIds(fs[..n]) && fs[n] !in fs[..n]
  {
    var n := |fs| - 1;
    assert fs == fs[..n] + [fs[n]];
    assert multiset(fs) == multiset(fs[..n]) + multiset{fs[n]};
    forall f | f in fs[..n] ensures multiset(fs[..n])[f] == 1 && f != fs[n] {
      assert f in multiset(fs[..n]) && f in fs;
    }
  }

  lemma DistinctPermutes(fs: seq<Finished>, gs: seq<Finished>)
    requires DistinctIds(fs) && multiset(fs) == multiset(gs)
    ensures DistinctIds(gs) && forall f :: f in fs <==> f in gs
  {
    forall f ensures f in fs <==> f in gs { assert f in fs <==> f in multiset(fs); assert f in gs <==> f in multiset(gs); }
  }

  ghost predicate Newest(fs: seq<Finished>, m: Finished) {
    m in fs && m.Ansible? && forall f :: f in fs && f.Ansible? ==> f.id <= m.id
  }

  /** Whatever the order, the register ends up holding what the newest ansible job derives, and its finish time. */
  lemma {:induction false} NewestWins(row: Option<Row>, fs: seq<Finished>, m: Finished)
    requires DistinctIds(fs) && Newest(fs, m)
    ensures var r := SettleAll(row, fs);
      if row.Some? && row.value.lastJob.Some? && m.id < row.value.lastJob.value
      then CoreOf(r) == CoreOf(row) && r == row
      else CoreOf(r) == CoreFrom(m) && r.Some? && r.value.checkedAt == Some(m.at)
  {
    var n := |fs| - 1;
    DistinctPrefix(fs);
    if fs[n] == m {
      LastJobBelow(row, fs[..n], m.id);
    } else {
      NewestWins(row, fs[..n], m);
      assert fs[n] in fs && fs[n].id != m.id;
    }
  }

  lemma {:induction false} LastJobBelow(row: Option<Row>, fs: seq<Finished>, bound: nat)
    requires forall f :: f in fs && f.Ansible? ==> f.id <= bound
    ensures var r := SettleAll(row, fs);
      if row.Some? && row.value.lastJob.Some? && bound < row.value.lastJob.value then r == row
      else r.Some? && r.value.lastJob.Some? ==> r.value.lastJob.value <= bound
  {
    if fs != [] {
      assert fs == fs[..|fs| - 1] + [fs[|fs| - 1]];
      LastJobBelow(row, fs[..|fs| - 1], bound);
    }
  }

  lemma {:induction false} OnlyPower(row: Option<Row>, fs: seq<Finished>)
    requires forall f :: f in fs ==> f.Power?
    ensures SettleAll(row, fs) == row
  {
    if fs != [] {
      assert fs == fs[..|fs| - 1] + [fs[|fs| - 1]];
      OnlyPower(row, fs[..|fs| - 1]);
    }
  }

  lemma {:induction false} FindNewest(fs: seq<Finished>) returns (m: Finished)
    requires exists f :: f in fs && f.Ansible?
    ensures Newest(fs, m)
  {
    var n := |fs| - 1;
    assert fs == fs[..n] + [fs[n]];
    if exists f :: f in fs[..n] && f.Ansible? {
      m := FindNewest(fs[..n]);
      if fs[n].Ansible? && fs[n].id > m.id { m := fs[n]; }
    } else {
      m := fs[n];
    }
  }

  /** Any two finishing orders of the same jobs, power jobs mixed in, leave the same job id, config status,
      pending count and reboot flag. */
  lemma OrdersConverge(row: Option<Row>, fs: seq<Finished>, gs: seq<Finished>)
    requires DistinctIds(fs) && multiset(fs) == multiset(gs)
    ensures CoreOf(SettleAll(row, fs)) == CoreOf(SettleAll(row, gs))
  {
    DistinctPermutes(fs, gs);
    if exists f :: f in fs && f.Ansible? {
      var m := FindNewest(fs);
      NewestWins(row, fs, m);
      NewestWins(row, gs, m);
    } else {
      OnlyPower(row, fs);
      OnlyPower(row, gs);
    }
  }

  // ---------------------------------------------------------------- last_status, the field that does depend on the order

  function LastStatus(row: Option<Row>): Option<RunStatus> {
    if row.Some? then row.value.lastStatus else None
  }

  ghost predicate Recapped(f: Finished) { f.Ansible? && f.stats.Some? }

  /** Not older than what the row holds already. */
  predicate Relevant(row: Option<Row>, f: Finished) {
    f.Ansible? && (row.Some? && row.value.lastJob.Some? ==> row.value.lastJob.value <= f.id)
  }

  ghost predicate LastStatusConverges(row: Option<Row>, fs: seq<Finished>) {
    forall gs :: multiset(gs) == multiset(fs) ==>
      LastStatus(SettleAll(row, gs)) == LastStatus(SettleAll(row, fs))
  }

  lemma {:induction false} RecappedNewestSetsStatus(row: Option<Row>, fs: seq<Finished>, m: Finished)
    requires DistinctIds(fs) && Newest(fs, m) && Recapped(m) && Relevant(row, m)
    ensures LastStatus(SettleAll(row, fs)) == StatusFromStats(m.stats)
  {
    var n := |fs| - 1;
    DistinctPrefix(fs);
    if fs[n] == m {
      LastJobBelow(row, fs[..n], m.id);
    } else {
      RecappedNewestSetsStatus(row, fs[..n], m);
      NewestWins(row, fs[..n], m);
      assert fs[n] in fs && fs[n].id != m.id;
    }
  }

  /** Every job that may overwrite the row and has a recap line says what the row says. */
  ghost predicate NothingNew(row: Option<Row>, fs: seq<Finished>) {
    forall f :: f in fs && Recapped(f) && Relevant(row, f) ==> StatusFromStats(f.stats) == LastStatus(row)
  }

  lemma {:induction false} NothingNewNothingChanged(row: Option<Row>, fs: seq<Finished>)
    requires NothingNew(row, fs)
    ensures var r := SettleAll(row, fs);
      && LastStatus(r) == LastStatus(row)
      && (row.Some? && row.value.lastJob.Some? ==> r.Some? && r.value.lastJob.Some? && row.value.lastJob.value <= r.value.lastJob.value)
  {
    if fs != [] {
      assert fs == fs[..|fs| - 1] + [fs[|fs| - 1]];
      NothingNewNothingChanged(row, fs[..|fs| - 1]);
    }
  }

  /** Jobs older than what the register holds leave it alone. */
  lemma {:induction false} StragglersIgnored(row: Row, fs: seq<Finished>)
    requires row.lastJob.Some? && forall f :: f in fs && f.Ansible? ==> f.id < row.lastJob.value
    ensures SettleAll(Some(row), fs) == Some(row)
  {
    if fs != [] {
      assert fs == fs[..|fs| - 1] + [fs[|fs| - 1]];
      StragglersIgnored(row, fs[..|fs| - 1]);
    }
  }

  lemma {:induction false} SettleConcat(row: Option<Row>, fs: seq<Finished>, gs: seq<Finished>)
    ensures SettleAll(row, fs + gs) == SettleAll(SettleAll(row, fs), gs)
  {
    if gs == [] {
      assert fs + gs == fs;
    } else {
      SettleConcat(row, fs, gs[..|gs| - 1]);
      assert (fs + gs)[..|fs + gs| - 1] == fs + gs[..|gs| - 1];
    }
  }

  lemma Extract(fs: seq<Finished>, m: Finished) returns (rest: seq<Finished>)
    requires m in fs
    ensures multiset([m] + rest) == multiset(fs)
  {
    var k :| 0 <= k < |fs| && fs[k] == m;
    rest := fs[..k] + fs[k + 1..];
    assert fs == fs[..k] + [m] + fs[k + 1..];
  }

  /** A job that is followed only by older ones decides the outcome. */
  lemma DecidedAfter(row: Option<Row>, head: seq<Finished>, m: Finished, tail: seq<Finished>)
    requires DistinctIds(head + [m] + tail) && Newest(head + [m] + tail, m) && Relevant(row, m)
    ensures SettleAll(row, head + [m] + tail) == Settle(SettleAll(row, head), m)
  {
    var all := head + [m] + tail;
    SettleConcat(row, head + [m], tail);
    assert (head + [m])[..|head|] == head;
    assert forall f :: f in head ==> f in all;
    LastJobBelow(row, head, m.id);
    forall f | f in tail && f.Ansible? ensures f.id < m.id {
      assert f in all;
      assert multiset(all)[m] == multiset(head)[m] + 1 + multiset(tail)[m];
      assert m !in multiset(tail);
    }
    StragglersIgnored(Settle(SettleAll(row, head), m).value, tail);
  }

  /** The order shows in last_status exactly when the newest ansible job has no recap line for the host, and some other
      that has one, and is not older than the row, disagrees with the row. */
  lemma LastStatusConvergesExactly(row: Option<Row>, fs: seq<Finished>, m: Finished)
    requires DistinctIds(fs) && Newest(fs, m)
    ensures LastStatusConverges(row, fs) <==>
      Recapped(m) || forall f :: f in fs && Recapped(f) && Relevant(row, f) ==> StatusFromStats(f.stats) == LastStatus(row)
  {
    if Recapped(m) || NothingNew(row, fs) {
      forall gs | multiset(gs) == multiset(fs) ensures LastStatus(SettleAll(row, gs)) == LastStatus(SettleAll(row, fs)) {
        DistinctPermutes(fs, gs);
        SameStatus(row, fs, gs, m);
      }
    } else {
      var j :| j in fs && Recapped(j) && Relevant(row, j) && StatusFromStats(j.stats) != LastStatus(row);
      TwoOrdersDiffer(row, fs, m, j);
    }
  }

  lemma SameStatus(row: Option<Row>, fs: seq<Finished>, gs: seq<Finished>, m: Finished)
    requires DistinctIds(fs) && DistinctIds(gs) && Newest(fs, m) && forall f :: f in fs <==> f in gs
    requires Recapped(m) || NothingNew(row, fs)
    ensures LastStatus(SettleAll(row, gs)) == LastStatus(SettleAll(row, fs))
  {
    if NothingNew(row, fs) {
      NothingNewNothingChanged(row, fs);
      NothingNewNothingChanged(row, gs);
    } else {
      RecappedNewestSetsStatus(row, fs, m);
      RecappedNewestSetsStatus(row, gs, m);
    }
  }

  lemma NewestFirst(row: Option<Row>, m: Finished, rest: seq<Finished>)
    requires DistinctIds([] + [m] + rest) && Newest([] + [m] + rest, m) && !Recapped(m) && Relevant(row, m)
    ensures LastStatus(SettleAll(row, [] + [m] + rest)) == LastStatus(row)
  {
    DecidedAfter(row, [], m, rest);
  }

  lemma NewestSecond(row: Option<Row>, j: Finished, m: Finished, rest: seq<Finished>)
    requires DistinctIds([j] + [m] + rest) && Newest([j] + [m] + rest, m) && !Recapped(m) && Recapped(j) && Relevant(row, j)
    ensures LastStatus(SettleAll(row, [j] + [m] + rest)) == StatusFromStats(j.stats)
  {
    assert j in [j] + [m] + rest;
    DecidedAfter(row, [j], m, rest);
    assert SettleAll(row, [j]) == Settle(row, j) by { assert [j][..0] == []; }
  }

  lemma TwoOrders(fs: seq<Finished>, m: Finished, j: Finished) returns (rest: seq<Finished>, more: seq<Finished>)
    requires m in fs && j in fs && m != j
    ensures multiset([] + [m] + rest) == multiset(fs) == multiset([j] + [m] + more)
  {
    rest := Extract(fs, m);
    assert j in multiset([m] + rest);
    more := Extract(rest, j);
    assert [] + [m] + rest == [m] + rest;
    assert multiset([j] + [m] + more) == multiset([m]) + multiset([j] + more);
  }

  lemma TwoOrdersDiffer(row: Option<Row>, fs: seq<Finished>, m: Finished, j: Finished)
    requires DistinctIds(fs) && Newest(fs, m) && !Recapped(m) && j in fs && Recapped(j) && Relevant(row, j)
    requires StatusFromStats(j.stats) != LastStatus(row)
    ensures !LastStatusConverges(row, fs)
  {
    hide SettleAll, DistinctIds, LastStatus, StatusFromStats;
    var rest, more := TwoOrders(fs, m, j);
    DistinctPermutes(fs, [] + [m] + rest);
    DistinctPermutes(fs, [j] + [m] + more);
    assert j.id <= m.id;
    NewestFirst(row, m, rest);
    NewestSecond(row, j, m, more);
  }

  /** Two such orders: the older of two runs has a recap line for the host, the newer one has none. */
  lemma LastStatusCanDiffer()
    ensures var (a, b) := (Ansible(1, Apply, Some(Stats(1, 0, 0)), false, 0), Ansible(2, Apply, None, false, 0));
      LastStatus(SettleAll(None, [a, b])) == Some(RunOk) && LastStatus(SettleAll(None, [b, a])) == None
  {
    var (a, b) := (Ansible(1, Apply, Some(Stats(1, 0, 0)), false, 0), Ansible(2, Apply, None, false, 0));
    SettleTwo(None, a, b);
    SettleTwo(None, b, a);
  }

  lemma SettleTwo(row: Option<Row>, f: Finished, g: Finished)
    ensures SettleAll(row, [f, g]) == Settle(Settle(row, f), g)
  {
    assert [f][..0] == [];
    assert [f, g][..1] == [f];
    assert SettleAll(row, [f]) == Settle(row, f);
  }
}
