/** What each event does to the pool, said of the states before and after it alone, and what a cancellation comes to over
    a whole run. */
module JobPoolLaws {
  import opened Lists
  import opened Options
  import opened JobPool
  import opened JobPoolFacts
  import opened JobPoolRuns

  /** The number of jobs a setting admits at a time. */
  predicate Admits(setting: Option<int>, n: int) {
    match setting
    case None => n == 5
    case Some(k) => 1 <= n <= 10 && (1 <= k <= 10 ==> n == k) && (k < 1 ==> n == 1) && (k > 10 ==> n == 10)
  }

  /** The list without one of its elements, the others in order. */
  ghost predicate Removes(a: seq<JobId>, id: JobId, b: seq<JobId>) {
    exists i :: 0 <= i < |a| && a[i] == id && b == a[..i] + a[i + 1..]
  }

  ghost predicate SameRowsBut(a: map<JobId, Status>, b: map<JobId, Status>, ids: set<JobId>) {
    forall j :: j in a && j !in ids ==> j in b && b[j] == a[j]
  }

  lemma {:induction false} MinusRemoves(s: seq<JobId>, id: JobId)
    requires NoDup(s) && id in s
    ensures Removes(s, id, Minus(s, {id}))
  {
    var n := |s| - 1;
    assert s == s[..n] + [s[n]];
    if s[n] == id {
      forall x | x in s[..n] ensures x !in {id} { }
      MinusNothing(s[..n], {id});
      assert s[..n] + s[n + 1..] == s[..n];
    } else {
      MinusRemoves(s[..n], id);
      var i :| 0 <= i < n && s[..n][i] == id && Minus(s[..n], {id}) == s[..n][..i] + s[..n][i + 1..];
      assert Minus(s, {id}) == Minus(s[..n], {id}) + [s[n]];
      hide Minus;
      RemovesLater(s, id, i);
    }
  }

  lemma RemovesLater(s: seq<JobId>, id: JobId, i: nat)
    requires i < |s| - 1 && s[i] == id
    ensures var n := |s| - 1; Removes(s, id, s[..n][..i] + s[..n][i + 1..] + [s[n]])
  {
    var n := |s| - 1;
    assert s[..n][..i] + s[..n][i + 1..] + [s[n]] == s[..i] + s[i + 1..];
  }

  // ---------------------------------------------------------------- events that call the dispatcher

  /** The jobs that wait and those that run when the dispatcher is called on the event loop. */
  ghost predicate Calls(s: State, e: Event, waiting: seq<JobId>, busy: seq<JobId>) {
    match e
    case StartJob(id) => id !in s.rows && waiting == s.queue + [id] && busy == s.active
    case Finished(id, _) => id in s.active && id !in s.stuck && waiting == s.queue && Removes(s.active, id, busy)
    case RetryFires => s.retryArmed && waiting == s.queue && busy == s.active
    case SetLimit(_, onLoop) => onLoop && waiting == s.queue && busy == s.active
    case _ => false
  }

  /** How many of the waiting jobs a limit of `n` leaves room for. */
  function Fit(n: int, waiting: seq<JobId>, busy: seq<JobId>): nat {
    if n <= |busy| then 0 else if n - |busy| < |waiting| then n - |busy| else |waiting|
  }

  /** The longest prefix of the waiting jobs that a limit of `n` admits has started, all of it or nothing depending on the
      lock, and then the timer runs; no other rows changed but those named. */
  ghost predicate Fills(s: State, t: State, waiting: seq<JobId>, busy: seq<JobId>, ended: set<JobId>, n: int) {
    var m := Fit(n, waiting, busy);
    && SameRowsBut(s.rows, t.rows, Members(waiting[..m]) + ended)
    && (if m == 0 || s.lockHeld || s.owner == Nobody then
          && t.active == busy + waiting[..m] && t.queue == waiting[m..] && t.started == s.started + waiting[..m] && !t.retryArmed
          && (forall j :: j in waiting[..m] && j in t.rows ==> t.rows[j] == Running)
        else
          t.active == busy && t.queue == waiting && t.started == s.started && t.retryArmed)
  }

  lemma DispatchedIs(s: State, n: int)
    requires !s.draining && Admits(s.setting, n)
    ensures var t := Dispatched(s);
      && t == s.(active := t.active, queue := t.queue, started := t.started, rows := t.rows, retryArmed := t.retryArmed, lockHeld := t.lockHeld, owner := t.owner)
      && t.rows.Keys == s.rows.Keys && Fills(s, t, s.queue, s.active, {}, n)
  {
    var m := Room(s);
    assert m == Fit(n, s.queue, s.active);
    hide Room, Fit, Admits, Mark;
    MarkSome(s.rows, s.queue[..m]);
    assert s.active + s.queue[..0] == s.active && s.queue[0..] == s.queue && s.started + s.queue[..0] == s.started;
  }

  lemma MarkSome(rows: map<JobId, Status>, ids: seq<JobId>)
    ensures var r := Mark(rows, ids, Running);
      r.Keys == rows.Keys && SameRowsBut(rows, r, Members(ids)) && forall j :: j in ids && j in rows ==> r[j] == Running
  {
  }

  /** The call's own effects are seen before and after. */
  lemma FillsFrom(s: State, r: State, t: State, waiting: seq<JobId>, busy: seq<JobId>, ended: set<JobId>, n: int)
    requires Fills(r, t, waiting, busy, {}, n) && SameRowsBut(s.rows, r.rows, ended)
    requires r.started == s.started && r.lockHeld == s.lockHeld && r.owner == s.owner
    ensures Fills(s, t, waiting, busy, ended, n)
  {
  }

  /** On the event loop the dispatcher fills the pool up to the setting; nothing else changes but the row of a job that
      ended. */
  lemma DispatchLaw(s: State, e: Event, waiting: seq<JobId>, busy: seq<JobId>, n: int)
    requires Inv(s) && !s.draining && Calls(s, e, waiting, busy) && Admits(if e.SetLimit? then e.n else s.setting, n)
    ensures var t := Step(s, e);
      && Fills(s, t, waiting, busy, if e.Finished? then {e.id} else {}, n)
      && !t.draining && t.setting == (if e.SetLimit? then e.n else s.setting)
      && t.accepted == s.accepted + (if e.StartJob? then [e.id] else []) && t.dropped == s.dropped
      && (forall j :: j in waiting ==> j in t.rows) && (forall j :: j in t.queue ==> j in t.rows && t.rows[j] == Queued)
  {
    StepKeeps(s, e);
    QueuedRows(s);
    QueuedRows(Step(s, e));
    WaitingRows(s, e, waiting, busy);
    hide Inv, Step, Fills, Admits;
    match e
    case StartJob(id) => StartFills(s, id, n);
    case Finished(id, rc) => FinishFills(s, id, rc, busy, n);
    case RetryFires => RetryFills(s, n);
    case SetLimit(k, _) => SettingFills(s, k, n);
  }

  lemma WaitingRows(s: State, e: Event, waiting: seq<JobId>, busy: seq<JobId>)
    requires Inv(s) && !s.draining && Calls(s, e, waiting, busy)
    ensures forall j :: j in waiting ==> j in Step(s, e).rows
  {
    QueuedRows(s);
    RowsGrow(s, e);
    hide Inv, Dispatched, Removes, Minus;
    if e.StartJob? { StartKeepsRow(s, e.id); }
  }

  lemma RowsGrow(s: State, e: Event)
    ensures s.rows.Keys <= Step(s, e).rows.Keys
  {
    HistoryGrows(s, e);
    hide Step;
  }

  lemma StartKeepsRow(s: State, id: JobId)
    requires id !in s.rows && !s.draining
    ensures id in Step(s, StartJob(id)).rows
  {
    DispatchExtends(Enqueued(s, id));
    hide Dispatched;
  }

  lemma StartFills(s: State, id: JobId, n: int)
    requires id !in s.rows && !s.draining && Admits(s.setting, n)
    ensures var t := Step(s, StartJob(id));
      Fills(s, t, s.queue + [id], s.active, {}, n) && !t.draining && t.setting == s.setting && t.accepted == s.accepted + [id] && t.dropped == s.dropped
  {
    hide Dispatched, Fills, Admits;
    var r := Enqueued(s, id);
    DispatchedIs(r, n);
    FillsFrom(s, r, Dispatched(r), r.queue, s.active, {}, n);
  }

  lemma FinishFills(s: State, id: JobId, rc: int, busy: seq<JobId>, n: int)
    requires Inv(s) && !s.draining && id in s.active && id !in s.stuck && Removes(s.active, id, busy) && Admits(s.setting, n)
    ensures var t := Step(s, Finished(id, rc));
      Fills(s, t, s.queue, busy, {id}, n) && !t.draining && t.setting == s.setting && t.accepted == s.accepted && t.dropped == s.dropped
  {
    FinishDispatches(s, id, rc, busy);
    assert s.lockHeld;
    hide Inv, Dispatched, Fills, Admits, Mark, Minus, Removes;
    var r := Popped(s, id, rc);
    DispatchedIs(r, n);
    FillsFrom(s, r, Dispatched(r), s.queue, busy, {id}, n);
    ReleaseFills(s, Dispatched(r), s.queue, busy, {id}, n);
  }

  lemma RetryFills(s: State, n: int)
    requires s.retryArmed && !s.draining && Admits(s.setting, n)
    ensures var t := Step(s, RetryFires);
      Fills(s, t, s.queue, s.active, {}, n) && !t.draining && t.setting == s.setting && t.accepted == s.accepted && t.dropped == s.dropped
  {
    hide Dispatched, Fills, Admits;
    DispatchedIs(s, n);
  }

  lemma SettingFills(s: State, k: Option<int>, n: int)
    requires !s.draining && Admits(k, n)
    ensures var t := Step(s, SetLimit(k, true));
      Fills(s, t, s.queue, s.active, {}, n) && !t.draining && t.setting == k && t.accepted == s.accepted && t.dropped == s.dropped
  {
    hide Dispatched, Fills, Admits;
    var r := s.(setting := k);
    DispatchedIs(r, n);
    FillsFrom(s, r, Dispatched(r), s.queue, s.active, {}, n);
  }

  lemma ReleaseFills(s: State, t: State, waiting: seq<JobId>, busy: seq<JobId>, ended: set<JobId>, n: int)
    requires Fills(s, t, waiting, busy, ended, n)
    ensures Fills(s, Released(t), waiting, busy, ended, n)
  {
  }

  lemma QueuedRows(s: State)
    requires Inv(s)
    ensures forall j :: j in s.queue ==> j in s.rows && s.rows[j] == Queued
  {
    StartedAndQueuedDiffer(s);
    forall j | j in s.queue ensures j in s.rows && s.rows[j] == Queued { assert RowFits(s, j, s.rows[j]); }
  }

  lemma RemovesOnce(a: seq<JobId>, id: JobId, b: seq<JobId>, c: seq<JobId>)
    requires NoDup(a) && Removes(a, id, b) && Removes(a, id, c)
    ensures b == c
  {
  }

  lemma FinishDispatches(s: State, id: JobId, rc: int, busy: seq<JobId>)
    requires Inv(s) && id in s.active && Removes(s.active, id, busy)
    ensures var t := Popped(s, id, rc); t.active == busy && SameRowsBut(s.rows, t.rows, {id})
  {
    MinusRemoves(s.active, id);
    hide Minus, KindInv, RowInv;
    RemovesOnce(s.active, id, busy, Minus(s.active, {id}));
  }

  /** In a worker thread, at most the head of the queue becomes active, without a coroutine, and no timer runs. */
  lemma ThreadLaw(s: State, k: Option<int>, n: int)
    requires Inv(s) && Admits(k, n)
    ensures var t := Step(s, SetLimit(k, false));
      if s.draining || |s.active| >= n || s.queue == [] || s.owner.Other? then t == s.(setting := k, retryArmed := false)
      else
        && t == s.(setting := k, retryArmed := false, lockHeld := true, owner := Panel, active := s.active + [s.queue[0]], queue := s.queue[1..],
                   started := s.started + [s.queue[0]], stuck := s.stuck + {s.queue[0]}, rows := t.rows)
        && SameRowsBut(s.rows, t.rows, {s.queue[0]}) && s.queue[0] in t.rows && t.rows[s.queue[0]] == Running
  {
    QueuedRows(s);
    var r := s.(setting := k);
    assert Room(r) == 0 <==> |s.active| >= n || s.queue == [];
    assert s.lockHeld <==> s.owner == Panel;
    hide Inv, Mark, Room, Admits;
    if s.queue != [] {
      assert s.queue[0] in s.queue;
      MarkOne(s.rows, s.queue[0], Running);
    }
  }

  /** While draining a submission only leaves its row, and the end of a job only takes it out. */
  lemma DrainingLaw(s: State, id: JobId, rc: int)
    requires Inv(s) && s.draining
    ensures id !in s.rows ==> Step(s, StartJob(id)) == s.(rows := s.rows[id := Queued])
    ensures id in s.active && id !in s.stuck ==>
      var t := Step(s, Finished(id, rc)); Removes(s.active, id, t.active) && t.queue == s.queue && t.started == s.started && SameRowsBut(s.rows, t.rows, {id})
  {
    if id in s.active && id !in s.stuck { MinusRemoves(s.active, id); }
    hide Minus, KindInv, RowInv;
  }

  // ---------------------------------------------------------------- the other events

  /** Events that cannot happen leave everything as it is. */
  lemma ImpossibleLaw(s: State, id: JobId, rc: int)
    ensures id in s.rows ==> Step(s, StartJob(id)) == s && Step(s, ScheduledRun(id)) == s
    ensures id !in s.active || id in s.stuck ==> Step(s, Finished(id, rc)) == s && Step(s, Spawned(id)) == s
    ensures id !in s.cancelling ==> Step(s, CancelReturns(id)) == s
    ensures !s.retryArmed ==> Step(s, RetryFires) == s
  {
  }

  /** The first signal freezes the queue; the second one, like a crash, is followed by an empty pool, a free lock unless
      another process has it, and unfinished rows that say failed. */
  lemma RestartLaw(s: State)
    ensures Step(s, Sighup) == if s.draining then Step(s, Restart) else s.(draining := true)
    ensures var t := Step(s, Restart);
      && t.active == [] && t.queue == [] && t.spawned == {} && t.killed == {} && t.stuck == {} && t.cancelling == {} && t.abandoned == {}
      && !t.lockHeld && !t.retryArmed && !t.draining && t.owner == (if s.owner == Panel then Nobody else s.owner)
      && t.inside == s.inside && t.scheduled == s.scheduled && t.setting == s.setting
      && t.accepted == s.accepted && t.started == s.started && (forall j :: j in t.dropped <==> j in s.dropped || j in s.queue)
      && t.rows.Keys == s.rows.Keys
      && forall j :: j in s.rows ==> t.rows[j] == if s.rows[j] == Queued || s.rows[j] == Running then Failed else s.rows[j]
  {
  }

  /** A job's process comes into being, and the wait of a cancellation ends. */
  lemma ProcessLaw(s: State, id: JobId)
    ensures id in s.active && id !in s.stuck ==> Step(s, Spawned(id)) == s.(spawned := s.spawned + {id})
    ensures id in s.cancelling && id in s.rows ==>
      Step(s, CancelReturns(id)) == s.(cancelling := s.cancelling - {id}, rows := s.rows[id := Cancelled])
  {
    if id in s.rows { assert Mark(s.rows, [id], Cancelled) == s.rows[id := Cancelled]; }
  }

  /** The scheduler child's run from its first row to its last. */
  lemma ScheduledLaw(s: State, id: JobId, rc: Option<int>)
    ensures id !in s.rows ==> Step(s, ScheduledRun(id)) == s.(rows := s.rows[id := Running], scheduled := s.scheduled[id := Waiting])
    ensures id in s.rows && id in s.scheduled && s.scheduled[id] == Waiting ==>
      Step(s, OtherTries(Scheduled(id))) ==
        if s.owner == Nobody then s.(owner := Other(Scheduled(id)), inside := s.inside + {Scheduled(id)}, scheduled := s.scheduled[id := Inside])
        else s.(rows := s.rows[id := Cancelled], scheduled := s.scheduled - {id})
    ensures Scheduled(id) in s.inside ==>
      Step(s, OtherLeaves(Scheduled(id), rc)) == s.(owner := Nobody, inside := s.inside - {Scheduled(id)}, scheduled := s.scheduled[id := Exited(rc)])
    ensures id in s.rows && id in s.scheduled && s.scheduled[id] == Exited(rc) ==>
      Step(s, ScheduledWrites(id)) == s.(rows := s.rows[id := if rc == None then Cancelled else if rc == Some(0) then Success else Failed], scheduled := s.scheduled - {id})
  {
    if id in s.rows {
      forall st ensures Mark(s.rows, [id], st) == s.rows[id := st] { }
    }
  }

  /** A command-line run enters a free critical section and gives it back. */
  lemma ScriptLaw(s: State, pid: nat, who: Visitor, rc: Option<int>)
    ensures Step(s, OtherTries(Script(pid))) ==
      if s.owner == Nobody then s.(owner := Other(Script(pid)), inside := s.inside + {Script(pid)}) else s
    ensures Script(pid) in s.inside ==> Step(s, OtherLeaves(Script(pid), rc)) == s.(owner := Nobody, inside := s.inside - {Script(pid)})
    ensures who !in s.inside ==> Step(s, OtherLeaves(who, rc)) == s
  {
  }

  /** Whoever dies lets go of it, and a scheduled run that dies leaves its row as it is. */
  lemma DeathLaw(s: State, who: Visitor)
    ensures var t := Step(s, OtherDies(who));
      && t == s.(owner := t.owner, inside := s.inside - {who}, scheduled := t.scheduled, abandoned := t.abandoned)
      && t.owner == (if who in s.inside then Nobody else s.owner)
      && (who.Scheduled? ==> t.scheduled == s.scheduled - {who.id})
  {
  }

  // ---------------------------------------------------------------- cancelling

  /** Cancelling a running job with a process signals it; a waiting job is taken out of the queue, the others keeping
      their order, and its row says so; any other job is not touched. */
  lemma CancelLaw(s: State, id: JobId)
    requires Inv(s)
    ensures var t := Step(s, Cancel(id));
      if id in s.active && id in s.spawned then t == s.(killed := s.killed + {id}, cancelling := s.cancelling + {id})
      else if id in s.queue then
        Removes(s.queue, id, t.queue) && id in s.rows && t == s.(queue := t.queue, rows := s.rows[id := Cancelled], dropped := s.dropped + {id})
      else t == s
  {
    if !(id in s.active && id in s.spawned) && id in s.queue {
      StartedAndQueuedDiffer(s);
      MinusRemoves(s.queue, id);
      assert id in s.rows;
      assert Mark(s.rows, [id], Cancelled) == s.rows[id := Cancelled];
    }
    hide KindInv, RowInv, LockInv, HistoryInv, Minus;
  }

  /** It is signalled and has not ended yet, or has ended and its row says cancelled. */
  ghost predicate Doomed(s: State, id: JobId) {
    if id in s.active then id in s.killed && id !in s.stuck
    else id in s.rows && s.rows[id] == Cancelled && id !in s.queue && id !in s.scheduled
  }

  lemma DispatchKeepsMarks(s: State, id: JobId)
    requires id !in s.queue
    ensures Dispatched(s).killed == s.killed == DispatchedInThread(s).killed
    ensures id in Dispatched(s).stuck <==> id in s.stuck
    ensures id in DispatchedInThread(s).stuck <==> id in s.stuck
    ensures id in Dispatched(s).active <==> id in s.active
    ensures id in DispatchedInThread(s).active <==> id in s.active
  {
    if Room(s) > 0 { assert s.queue[0] in s.queue; }
    forall x | x in s.queue[..Room(s)] ensures x != id { }
  }

  lemma ElsewhereKeeps(s: State, e: Event)
    requires !Dispatches(e) && !Restarts(s, e)
    ensures var t := Step(s, e); t.active == s.active && s.killed <= t.killed && t.stuck == s.stuck
  {
    hide Minus, Mark, Dispatched, DispatchedInThread, Submitted, JobPool.Ended, Restarted;
    if ByScheduler(e) { OthersKeepActive(s, e); }
  }

  lemma OthersKeepActive(s: State, e: Event)
    requires ByScheduler(e)
    ensures var t := Step(s, e); t.active == s.active && s.killed == t.killed && t.stuck == s.stuck
  {
    hide Mark, InPhase;
  }

  lemma DispatchElsewhere(s: State, e: Event, id: JobId)
    requires Dispatches(e) && id in s.rows && id !in s.queue && !(e.Finished? && e.id == id)
    ensures var t := Step(s, e);
      (id in t.active <==> id in s.active) && (id in s.killed ==> id in t.killed) && (id in t.stuck <==> id in s.stuck)
  {
    hide Dispatched, DispatchedInThread, Minus, Mark;
    match e
    case StartJob(j) => if j !in s.rows { DispatchKeepsMarks(Enqueued(s, j), id); }
    case Finished(j, rc) => MinusMember(s.active, {j}, id); DispatchKeepsMarks(Popped(s, j, rc), id);
    case RetryFires => DispatchKeepsMarks(s, id);
    case SetLimit(n, onLoop) => DispatchKeepsMarks(s.(setting := n), id);
    case _ =>
  }

  lemma ActiveDoomed(s: State, e: Event, id: JobId)
    requires Inv(s) && id in s.active && Doomed(s, id) && !Restarts(s, e) && !(e.Finished? && e.id == id)
    ensures id in Step(s, e).active && Doomed(Step(s, e), id)
  {
    assert id !in s.queue && id in s.rows by { StartedAndQueuedDiffer(s); assert id in s.started; }
    hide Inv, Step, Restarts;
    if Dispatches(e) { DispatchElsewhere(s, e, id); } else { ElsewhereKeeps(s, e); }
  }

  lemma EndsDoomed(s: State, rc: int, id: JobId)
    requires Inv(s) && id in s.active && Doomed(s, id)
    ensures var t := Step(s, Finished(id, rc)); id !in t.active && Doomed(t, id) && Fixed(t, id)
  {
    FinishSettles(s, id, rc);
    StepKeeps(s, Finished(id, rc));
    var t := Step(s, Finished(id, rc));
    assert id in s.accepted && id !in s.queue by { StartedAndQueuedDiffer(s); assert id in s.started; }
    assert id !in t.queue && id !in t.scheduled by { AcceptedEnds(s, rc, id); }
    hide Inv, Step;
  }

  lemma AcceptedEnds(s: State, rc: int, id: JobId)
    requires Inv(s) && id in s.active && id !in s.stuck && id in s.accepted && id !in s.queue
    ensures var t := Step(s, Finished(id, rc)); id !in t.queue && id !in t.scheduled
  {
    hide HistoryInv, RowInv, Minus, Mark;
    assert id !in s.scheduled;
    QueueShrinks(Popped(s, id, rc), id);
    DispatchSchedules(Popped(s, id, rc));
    hide Dispatched;
  }

  lemma QueueShrinks(s: State, id: JobId)
    requires id !in s.queue
    ensures id !in Dispatched(s).queue
  {
  }

  /** However the run goes on, short of a restart: a job cancelled while it ran ends cancelled, whatever its exit code,
      and its row then says so for good. */
  lemma {:induction false} CancelledEndsCancelled(s: State, id: JobId, es: seq<Event>)
    requires Inv(s) && id in s.active && id in s.spawned
    requires var t := Step(s, Cancel(id)); forall k :: 0 <= k < |es| ==> !Restarts(Run(t, es[..k]), es[k])
    ensures var u := Run(Step(s, Cancel(id)), es);
      if id in u.active then id in u.killed else id in u.rows && forall fs :: id in Run(u, fs).rows && Run(u, fs).rows[id] == Cancelled
  {
    var t := Step(s, Cancel(id));
    CancelLaw(s, id);
    StepKeeps(s, Cancel(id));
    assert Doomed(t, id);
    StaysDoomed(t, id, es);
    var u := Run(t, es);
    if id !in u.active {
      forall fs ensures id in Run(u, fs).rows && Run(u, fs).rows[id] == Cancelled {
        RunKeeps(t, es);
        OutcomeSticks(u, fs, id);
      }
    }
  }

  lemma {:induction false} StaysDoomed(t: State, id: JobId, es: seq<Event>)
    requires Inv(t) && id in t.active && Doomed(t, id)
    requires forall k :: 0 <= k < |es| ==> !Restarts(Run(t, es[..k]), es[k])
    ensures var u := Run(t, es); if id in u.active then Doomed(u, id) else Fixed(u, id) && u.rows[id] == Cancelled
    decreases |es|
  {
    hide Inv, Step, Run, Doomed, Fixed, Restarts;
    RunLast(t, es);
    if es != [] {
      var (n, init) := (|es| - 1, es[..|es| - 1]);
      forall k | 0 <= k < n ensures !Restarts(Run(t, init[..k]), init[k]) { assert init[..k] == es[..k]; }
      StaysDoomed(t, id, init);
      RunKeeps(t, init);
      DoomedStep(Run(t, init), es[n], id);
    }
  }

  lemma DoomedStep(s: State, e: Event, id: JobId)
    requires Inv(s) && !Restarts(s, e)
    requires if id in s.active then Doomed(s, id) else Fixed(s, id) && s.rows[id] == Cancelled
    ensures var t := Step(s, e); if id in t.active then Doomed(t, id) else Fixed(t, id) && t.rows[id] == Cancelled
  {
    if id in s.active {
      if e.Finished? && e.id == id { EndsDoomed(s, e.rc, id); } else { ActiveDoomed(s, e, id); }
    } else {
      FixedStep(s, e, id);
      EndedStays(s, e, id);
    }
    hide Inv, Step;
  }

  lemma EndedStays(s: State, e: Event, id: JobId)
    requires Inv(s) && Fixed(s, id) && id !in s.active
    ensures id !in Step(s, e).active
  {
    FixedWaits(s, id);
    hide Inv, Step;
    if Restarts(s, e) { RestartLaw(s); }
    else if e.Finished? && e.id == id { ImpossibleLaw(s, id, e.rc); }
    else if Dispatches(e) { DispatchElsewhere(s, e, id); }
    else { ElsewhereKeeps(s, e); }
  }

  /** A job cancelled while it waited never starts, in any run, and its row says cancelled for good. */
  lemma {:induction false} CancelledNeverStarts(s: State, id: JobId, es: seq<Event>)
    requires Inv(s) && id in s.queue
    ensures var u := Run(Step(s, Cancel(id)), es);
      id !in u.queue && id !in u.active && id !in u.started && id in u.rows && u.rows[id] == Cancelled
  {
    var t := Step(s, Cancel(id));
    assert id !in s.active && id in s.accepted by { StartedAndQueuedDiffer(s); }
    CancelLaw(s, id);
    StepKeeps(s, Cancel(id));
    assert id !in t.scheduled;
    OutcomeSticks(t, es, id);
    DroppedStays(t, es, id);
    RunKeeps(t, es);
    var u := Run(t, es);
    StartedAndQueuedDiffer(u);
    assert id in u.dropped;
    hide Run, Step, KindInv, RowInv, LockInv;
  }

  lemma {:induction false} DroppedStays(s: State, es: seq<Event>, id: JobId)
    requires id in s.dropped
    ensures id in Run(s, es).dropped
    decreases |es|
  {
    if es != [] {
      DroppedStays(s, es[..|es| - 1], id);
      HistoryGrows(Run(s, es[..|es| - 1]), es[|es| - 1]);
    }
  }
}
