/** `JobManager` as the code runs it: fields updated in place, the dispatch loop popping the queue, one method
    per callback; and the scheduler child's `run_now`, which shares the lock and the jobs table with it. Every method is
    tied to the transition of JobPool.dfy it carries out. */
module JobManager {
  import opened Options
  import opened JobPool
  import opened JobPoolFacts

  datatype Refused = PanelRestarting

  /** The lock file shared by all processes, as flock(2) sees it. */
  class RunLock {
    var owner: Owner
    var inside: set<Visitor>   // other processes between taking the lock and releasing it

    constructor ()
      ensures owner == Nobody && inside == {}
    {
      owner, inside := Nobody, {};
    }

    /** LOCK_EX | LOCK_NB */
    method TryLock(who: Owner) returns (ok: bool)
      modifies this`owner
      ensures ok == (old(owner) == Nobody)
      ensures owner == if ok then who else old(owner)
    {
      ok := owner == Nobody;
      if ok { owner := who; }
    }

    /** `with _Flock(...)` of a headless run, or `flock -n` of run.sh: enter, or give up at once. */
    method EnterRun(who: Visitor) returns (ok: bool)
      modifies this
      ensures ok == (old(owner) == Nobody)
      ensures owner == (if ok then Other(who) else old(owner)) && inside == old(inside) + if ok then {who} else {}
    {
      ok := TryLock(Other(who));
      if ok { inside := inside + {who}; }
    }

    method LeaveRun(who: Visitor)
      requires who in inside
      modifies this
      ensures owner == Nobody && inside == old(inside) - {who}
    {
      owner, inside := Nobody, inside - {who};
    }
  }

  /** The jobs table and the concurrency setting. */
  class Database {
    var rows: map<JobId, Status>
    var setting: Option<int>

    constructor (setting: Option<int>)
      ensures rows == map[] && this.setting == setting
    {
      this.rows, this.setting := map[], setting;
    }

    method SetStatus(id: JobId, st: Status)
      modifies this`rows
      ensures rows == Mark(old(rows), [id], st)
    {
      if id in rows { rows := rows[id := st]; }
    }
  }

  /** `run_now` of the scheduler child, cut where it commits and where it takes and leaves the lock. */
  class Scheduler {
    const lock: RunLock
    const db: Database
    var runs: map<JobId, Phase>

    constructor (lock: RunLock, db: Database)
      ensures this.lock == lock && this.db == db && runs == map[]
    {
      this.lock, this.db, runs := lock, db, map[];
    }

    /** The first commit: the row is there, and running. */
    method Begin(id: JobId)
      requires id !in db.rows
      modifies this`runs, db`rows
      ensures runs == old(runs)[id := Waiting] && db.rows == old(db.rows)[id := Running]
    {
      db.rows := db.rows[id := Running];
      runs := runs[id := Waiting];
    }

    /** Into the critical section, or cancelled when the lock is taken. */
    method Enter(id: JobId) returns (ok: bool)
      requires InPhase(runs, id, Waiting)
      modifies this`runs, lock, db`rows
      ensures ok == (old(lock.owner) == Nobody)
      ensures lock.owner == (if ok then Other(Scheduled(id)) else old(lock.owner))
      ensures lock.inside == old(lock.inside) + if ok then {Scheduled(id)} else {}
      ensures runs == (if ok then old(runs)[id := Inside] else old(runs) - {id})
      ensures db.rows == if ok then old(db.rows) else Mark(old(db.rows), [id], Cancelled)
    {
      ok := lock.EnterRun(Scheduled(id));
      if ok {
        runs := runs[id := Inside];
      } else {
        db.SetStatus(id, Cancelled);
        runs := runs - {id};
      }
    }

    /** The lock is given back whether the subprocess ended or an error came up. */
    method Exit(id: JobId, rc: Option<int>)
      requires Scheduled(id) in lock.inside
      modifies this`runs, lock
      ensures lock.owner == Nobody && lock.inside == old(lock.inside) - {Scheduled(id)} && runs == old(runs)[id := Exited(rc)]
    {
      lock.LeaveRun(Scheduled(id));
      runs := runs[id := Exited(rc)];
    }

    /** The last commit, over whatever the row says by then. */
    method WriteRow(id: JobId)
      requires id in runs && runs[id].Exited?
      modifies this`runs, db`rows
      ensures runs == old(runs) - {id}
      ensures db.rows == Mark(old(db.rows), [id], Verdict(old(runs[id].rc)))
    {
      var rc := runs[id].rc;
      db.SetStatus(id, if rc.None? then Cancelled else if rc.value == 0 then Success else Failed);
      runs := runs - {id};
    }
  }

  class Manager {
    const lock: RunLock
    const db: Database
    const others: Scheduler
    var active: seq<JobId>       // keys of the _active dictionary, in insertion order
    var spawned: set<JobId>      // runtimes whose process is set
    var killed: set<JobId>       // runtimes whose status is cancelled
    var stuck: set<JobId>        // runtimes whose coroutine could not be created
    var cancelling: set<JobId>   // cancel calls that wait for the process
    var queue: seq<JobId>
    var lockFd: bool
    var retryHandle: bool
    var draining: bool
    ghost var abandoned: set<JobId>
    ghost var accepted: seq<JobId>
    ghost var started: seq<JobId>
    ghost var dropped: set<JobId>

    ghost function View(): State
      reads this, lock, db, others
    {
      State(active, spawned, killed, stuck, cancelling, queue, lockFd, retryHandle, draining,
            lock.owner, lock.inside, others.runs, abandoned, db.setting, db.rows, accepted, started, dropped)
    }

    /** The scheduler child works on the same lock file and the same database. */
    ghost predicate Wired() { others.lock == lock && others.db == db }

    constructor (lock: RunLock, db: Database, others: Scheduler)
      requires others.lock == lock && others.db == db
      ensures this.lock == lock && this.db == db && this.others == others && Wired()
      ensures View() == Boot(None).(owner := lock.owner, inside := lock.inside, scheduled := others.runs, setting := db.setting, rows := db.rows)
    {
      this.lock, this.db, this.others := lock, db, others;
      active, spawned, killed, stuck, cancelling, queue := [], {}, {}, {}, {}, [];
      lockFd, retryHandle, draining := false, false, false;
      abandoned, accepted, started, dropped := {}, [], [], {};
    }

    method AcquireFlock() returns (ok: bool)
      modifies this`lockFd, lock`owner
      ensures ok == (old(lockFd) || old(lock.owner) == Nobody)
      ensures View() == if !ok || old(lockFd) then old(View()) else old(View()).(lockHeld := true, owner := Panel)
    {
      if lockFd { return true; }
      ok := lock.TryLock(Panel);
      if ok { lockFd := true; }
    }

    method ReleaseFlock()
      modifies this`lockFd, lock`owner
      ensures View() == Released(old(View()))
    {
      if lockFd {
        lock.owner := Nobody;
        lockFd := false;
      }
    }

    /** In a thread without an event loop there is nothing to arm the timer on, and the error is swallowed. */
    method ArmRetry(onLoop: bool)
      modifies this`retryHandle
      ensures View() == if onLoop then old(View()).(retryArmed := true) else old(View())
    {
      if retryHandle || !onLoop { return; }
      retryHandle := true;
    }

    /** In such a thread creating the coroutine raises, after the job was registered. */
    method Start(id: JobId, onLoop: bool) returns (raised: bool)
      requires id !in active
      modifies this`active, this`stuck, this`started, db`rows
      ensures raised == !onLoop
      ensures View() == old(View()).(active := old(active) + [id], started := old(started) + [id], rows := Mark(old(db.rows), [id], Running),
                                     stuck := if onLoop then old(stuck) else old(stuck) + {id})
    {
      active := active + [id];
      started := started + [id];
      db.SetStatus(id, Running);
      raised := !onLoop;
      if raised { stuck := stuck + {id}; }
    }

    /** Takes the head of the queue out and starts it. */
    method StartHead(onLoop: bool) returns (raised: bool)
      requires queue != [] && queue[0] !in active
      modifies this`queue, this`active, this`stuck, this`started, db`rows
      ensures raised == !onLoop
      ensures var (s, id) := (old(View()), old(queue[0]));
        View() == s.(queue := s.queue[1..], active := s.active + [id], started := s.started + [id], rows := Mark(s.rows, [id], Running),
                     stuck := if onLoop then s.stuck else s.stuck + {id})
    {
      var id := queue[0];
      queue := queue[1..];
      raised := Start(id, onLoop);
    }

    method Dispatch(onLoop: bool)
      requires NoDup(active + queue)
      modifies this, lock`owner, db`rows
      ensures View() == if onLoop then Dispatched(old(View())) else DispatchedInThread(old(View()))
    {
      ghost var s := old(View());
      hide Mark, NoDup, Limit, Dispatched, DispatchedInThread, Room, After;
      DispatchForms(s);
      retryHandle := false;
      if draining { return; }
      var limit := Limit(db.setting);
      ghost var k := 0;
      while queue != [] && |active| < limit
        invariant 0 <= k <= Room(s) && (!onLoop ==> k == 0) && (k > 0 ==> s.lockHeld || s.owner == Nobody)
        invariant View() == After(s, k)
        decreases |queue|
      {
        AfterNext(s, k);
        var ok := AcquireFlock();
        if !ok {
          ArmRetry(onLoop);
          return;
        }
        var raised := StartHead(onLoop);
        if raised { return; }
        k := k + 1;
      }
      AfterStops(s, k);
    }

    /** A job row is created and committed, then submitted; a draining panel refuses. */
    method StartJob(id: JobId) returns (r: Result<(), Refused>)
      requires Inv(View()) && id !in db.rows
      modifies this, lock`owner, db`rows
      ensures r == if old(draining) then Err(PanelRestarting) else Ok(())
      ensures View() == Step(old(View()), Event.StartJob(id))
    {
      EnqueueDistinct(View(), id);
      hide Inv, HistoryInv, KindInv, RowInv, LockInv;
      db.rows := db.rows[id := Queued];
      if draining { return Err(PanelRestarting); }
      queue := queue + [id];
      accepted := accepted + [id];
      assert View() == Enqueued(old(View()), id);
      Dispatch(true);
      return Ok(());
    }

    method ProcessStarted(id: JobId)
      modifies this`spawned
      ensures View() == Step(old(View()), Spawned(id))
    {
      if id in active && id !in stuck { spawned := spawned + {id}; }
    }

    /** The row is settled and the job leaves the pool. */
    method Pop(id: JobId, rc: int)
      modifies this`active, this`spawned, this`killed, db`rows
      ensures View() == Popped(old(View()), id, rc)
    {
      hide Mark, Minus;
      var status := if id in killed then Cancelled else if rc == 0 then Success else Failed;
      db.SetStatus(id, status);
      active := Minus(active, {id});
      spawned, killed := spawned - {id}, killed - {id};
    }

    /** The `finally` block of a job's coroutine. */
    method Finish(id: JobId, rc: int)
      requires Inv(View()) && id in active && id !in stuck
      modifies this, lock`owner, db`rows
      ensures View() == Step(old(View()), Finished(id, rc))
    {
      StartedAndQueuedDiffer(View());
      StepFinishes(View(), id, rc);
      RemoveKeepsDistinct(active, queue, id);
      hide Dispatched, Step, Inv, Mark, Minus, NoDup, HistoryInv, LockInv, KindInv, RowInv;
      Pop(id, rc);
      Dispatch(true);
      if active == [] && queue == [] { ReleaseFlock(); }
    }

    /** Up to the wait for the process, for a running job; a waiting one is dropped at once. */
    method CancelJob(id: JobId) returns (found: bool)
      requires Inv(View())
      modifies this`killed, this`cancelling, this`queue, this`dropped, db`rows
      ensures found == ((id in old(active) && id in old(spawned)) || id in old(queue))
      ensures View() == Step(old(View()), Cancel(id))
    {
      StartedAndQueuedDiffer(View());
      StepCancels(View(), id);
      hide Step, Inv, Mark, Minus, LockInv, KindInv, RowInv, HistoryInv;
      if id in active && id in spawned {
        killed, cancelling := killed + {id}, cancelling + {id};
        return true;
      }
      found := DropQueued(id);
    }

    method DropQueued(id: JobId) returns (found: bool)
      requires NoDup(queue)
      modifies this`queue, this`dropped, db`rows
      ensures found == (id in old(queue))
      ensures View() == if found then Unqueued(old(View()), id) else old(View())
    {
      hide Mark, Minus, NoDup;
      var i := 0;
      while i < |queue|
        invariant 0 <= i <= |queue| && forall k :: 0 <= k < i ==> queue[k] != id
      {
        if queue[i] == id {
          PopIsMinus(queue, i);
          queue := queue[..i] + queue[i + 1..];
          dropped := dropped + {id};
          db.SetStatus(id, Cancelled);
          return true;
        }
        i := i + 1;
      }
      return false;
    }

    /** After the wait, at most ten seconds later. */
    method CancelReturned(id: JobId)
      modifies this`cancelling, db`rows
      ensures View() == Step(old(View()), CancelReturns(id))
    {
      if id in cancelling {
        cancelling := cancelling - {id};
        db.SetStatus(id, Cancelled);
      }
    }

    method Retry()
      requires Inv(View()) && retryHandle
      modifies this, lock`owner, db`rows
      ensures View() == Step(old(View()), RetryFires)
    {
      DistinctJobs(View());
      hide Inv, HistoryInv, KindInv, RowInv, LockInv;
      retryHandle := false;
      Dispatch(true);
    }

    /** The runtime settings form: the new limit is committed, then the queue is dispatched under it. The handler is not
        a coroutine, so that the framework runs it in a worker thread. */
    method UpdateLimit(n: Option<int>, onLoop: bool)
      requires Inv(View())
      modifies this, lock`owner, db
      ensures View() == Step(old(View()), SetLimit(n, onLoop))
    {
      DistinctJobs(View());
      hide Inv, HistoryInv, KindInv, RowInv, LockInv;
      db.setting := n;
      Dispatch(onLoop);
    }

    method BeginDrain()
      modifies this, lock`owner, db`rows
      ensures View() == Step(old(View()), Sighup)
    {
      if draining {
        ForceRestart();
        return;
      }
      draining := true;
    }

    /** Memory starts afresh. */
    method Forget()
      modifies this
      ensures active == [] && spawned == {} && killed == {} && stuck == {} && cancelling == {} && queue == []
      ensures !lockFd && !retryHandle && !draining
      ensures abandoned == {} && accepted == old(accepted) && started == old(started) && dropped == old(dropped) + Members(old(queue))
    {
      dropped := dropped + Members(queue);
      active, spawned, killed, stuck, cancelling, queue := [], {}, {}, {}, {}, [];
      lockFd, retryHandle, draining, abandoned := false, false, false, {};
    }

    /** The process image is replaced: memory starts afresh, the kernel drops the lock, startup settles the rows. */
    method ForceRestart()
      modifies this, lock`owner, db`rows
      ensures View() == Step(old(View()), Restart)
    {
      StepRestarts(View());
      hide Recovered, Members, Step;
      if lock.owner == Panel { lock.owner := Nobody; }
      db.rows := Recovered(db.rows);
      Forget();
    }

    /** A move of another process. */
    method OtherMoves(e: Event)
      requires Inv(View()) && Wired()
      requires e.ScheduledRun? || e.OtherTries? || e.OtherLeaves? || e.OtherDies? || e.ScheduledWrites?
      modifies this`abandoned, lock, db`rows, others
      ensures View() == Step(old(View()), e)
    {
      StepOthers(View(), e);
      hide Step, Inv, HistoryInv, KindInv, RowInv, LockInv, Mark, Tried, Left, Died, Written;
      match e
      case ScheduledRun(id) => if id !in db.rows { others.Begin(id); }
      case OtherTries(who) => Try(who);
      case OtherLeaves(who, rc) => Leave(who, rc);
      case OtherDies(who) => Die(who);
      case ScheduledWrites(id) => Write(id);
    }

    method Try(who: Visitor)
      requires Wired()
      modifies lock, db`rows, others
      ensures View() == Tried(old(View()), who)
    {
      hide Mark;
      if who.Script? {
        var _ := lock.EnterRun(who);
      } else if InPhase(others.runs, who.id, Waiting) {
        var _ := others.Enter(who.id);
      }
    }

    method Leave(who: Visitor, rc: Option<int>)
      requires Wired()
      modifies lock, others
      ensures View() == Left(old(View()), who, rc)
    {
      if who in lock.inside {
        if who.Script? { lock.LeaveRun(who); } else { others.Exit(who.id, rc); }
      }
    }

    method Write(id: JobId)
      requires Wired()
      modifies db`rows, others
      ensures View() == Written(old(View()), id)
    {
      hide Mark;
      if id in others.runs && others.runs[id].Exited? { others.WriteRow(id); }
    }

    /** A death leaves the row as it is. */
    method Die(who: Visitor)
      modifies this`abandoned, lock, others
      ensures View() == Died(old(View()), who)
    {
      if who in lock.inside { lock.LeaveRun(who); }
      if who.Scheduled? && who.id in others.runs {
        others.runs := others.runs - {who.id};
        if who.id in db.rows && db.rows[who.id] == Running { abandoned := abandoned + {who.id}; }
      }
    }

    /** One callback of the panel, or one move of another process. */
    method Handle(e: Event)
      requires Inv(View()) && Wired()
      modifies this, lock, db, others
      ensures View() == Step(old(View()), e) && Inv(View())
    {
      StepKeeps(View(), e);
      hide Step, Inv;
      match e
      case StartJob(id) =>
        KnownRow(View(), id);
        if id !in db.rows { var _ := this.StartJob(id); }
      case Spawned(id) => ProcessStarted(id);
      case Finished(id, rc) =>
        NotLive(View(), id, rc);
        if id in active && id !in stuck { Finish(id, rc); }
      case Cancel(id) => var _ := CancelJob(id);
      case CancelReturns(id) => CancelReturned(id);
      case RetryFires =>
        NotArmed(View());
        if retryHandle { Retry(); }
      case SetLimit(n, onLoop) => UpdateLimit(n, onLoop);
      case Sighup => BeginDrain();
      case Restart => ForceRestart();
      case _ => OtherMoves(e);
    }
  }

  /** The panel from boot over any sequence of events is the state machine's run. */
  method Serve(setting: Option<int>, es: seq<Event>) returns (m: Manager)
    ensures m.View() == Run(Boot(setting), es) && Inv(m.View())
  {
    var lock := new RunLock();
    var db := new Database(setting);
    var others := new Scheduler(lock, db);
    m := new Manager(lock, db, others);
    var i := 0;
    assert m.View() == Boot(setting) == Run(Boot(setting), es[..0]) && Inv(m.View());
    hide Inv, Step, Run, Boot;
    while i < |es|
      invariant 0 <= i <= |es|
      invariant fresh(m) && fresh(m.lock) && fresh(m.db) && fresh(m.others) && m.Wired()
      invariant m.View() == Run(Boot(setting), es[..i]) && Inv(m.View())
    {
      RunNext(Boot(setting), es, i);
      m.Handle(es[i]);
      i := i + 1;
    }
    assert es[..i] == es;
  }

  // ---------------------------------------------------------------- proof helpers

  lemma RunNext(s: State, es: seq<Event>, i: nat)
    requires i < |es|
    ensures Run(s, es[..i + 1]) == Step(Run(s, es[..i]), es[i])
  {
    hide Step;
    assert es[..i + 1][..i] == es[..i];
  }

  /** A dispatch that has started `k` jobs. */
  ghost function After(s: State, k: nat): State
    requires k <= |s.queue|
  {
    Promoted(s, k).(retryArmed := false, lockHeld := s.lockHeld || k > 0, owner := if k > 0 && !s.lockHeld then Panel else s.owner)
  }

  lemma DispatchForms(s: State)
    ensures Room(s) <= |s.queue| && After(s, 0) == s.(retryArmed := false)
    ensures s.draining || Room(s) == 0 ==> Dispatched(s) == DispatchedInThread(s) == After(s, 0)
    ensures !s.draining && Room(s) > 0 && !s.lockHeld && s.owner != Nobody ==>
      Dispatched(s) == s.(retryArmed := true) && DispatchedInThread(s) == After(s, 0)
    ensures !s.draining && Room(s) > 0 && (s.lockHeld || s.owner == Nobody) ==>
      Dispatched(s) == After(s, Room(s)) && DispatchedInThread(s) == After(s, 1).(stuck := s.stuck + {s.queue[0]})
  {
    assert s.active + s.queue[..0] == s.active && s.started + s.queue[..0] == s.started && Mark(s.rows, s.queue[..0], Running) == s.rows;
    if Room(s) > 0 { assert s.queue[..1] == [s.queue[0]]; }
  }

  lemma AfterNext(s: State, k: nat)
    requires NoDup(s.active + s.queue) && k <= Room(s) <= |s.queue|
    requires var t := After(s, k); t.queue != [] && |t.active| < Limit(s.setting)
    ensures var (t, id) := (After(s, k), s.queue[k]);
      && k < Room(s) && t.queue[0] == id && id !in t.active
      && After(s, k + 1) == t.(active := t.active + [id], queue := t.queue[1..], started := t.started + [id],
                               rows := Mark(t.rows, [id], Running), lockHeld := true, owner := if t.lockHeld then t.owner else Panel)
      && (k > 0 ==> t.lockHeld) && (k == 0 ==> t.lockHeld == s.lockHeld && t.owner == s.owner)
  {
    HeadIsNew(s, k);
    hide Mark;
  }

  lemma AfterStops(s: State, k: nat)
    requires k <= Room(s) <= |s.queue|
    requires var t := After(s, k); t.queue == [] || |t.active| >= Limit(s.setting)
    ensures k == Room(s)
  {
  }

  lemma StepRestarts(s: State)
    ensures Step(s, Restart) == Restarted(s)
  {
  }

  lemma StepFinishes(s: State, id: JobId, rc: int)
    requires id in s.active && id !in s.stuck
    ensures Step(s, Finished(id, rc)) == Ended(s, id, rc)
  {
  }

  lemma StepCancels(s: State, id: JobId)
    ensures Step(s, Cancel(id)) == CancelRequested(s, id)
  {
  }

  lemma StepOthers(s: State, e: Event)
    ensures match e
      case ScheduledRun(id) => Step(s, e) == if id in s.rows then s else s.(rows := s.rows[id := Running], scheduled := s.scheduled[id := Waiting])
      case OtherTries(who) => Step(s, e) == Tried(s, who)
      case OtherLeaves(who, rc) => Step(s, e) == Left(s, who, rc)
      case OtherDies(who) => Step(s, e) == Died(s, who)
      case ScheduledWrites(id) => Step(s, e) == Written(s, id)
      case _ => true
  {
  }

  lemma KnownRow(s: State, id: JobId)
    ensures id in s.rows ==> Step(s, Event.StartJob(id)) == s
  {
  }

  lemma NotLive(s: State, id: JobId, rc: int)
    ensures !(id in s.active && id !in s.stuck) ==> Step(s, Finished(id, rc)) == s
  {
  }

  lemma NotArmed(s: State)
    ensures !s.retryArmed ==> Step(s, RetryFires) == s
  {
  }

  lemma HeadIsNew(s: State, k: nat)
    requires NoDup(s.active + s.queue) && k < |s.queue|
    ensures s.queue[k] !in s.active + s.queue[..k]
    ensures s.queue[k..][1..] == s.queue[k + 1..] && s.queue[..k + 1] == s.queue[..k] + [s.queue[k]]
    ensures Mark(Mark(s.rows, s.queue[..k], Running), [s.queue[k]], Running) == Mark(s.rows, s.queue[..k + 1], Running)
  {
    var all := s.active + s.queue;
    forall i | 0 <= i < |s.active| + k ensures (s.active + s.queue[..k])[i] != s.queue[k] {
      assert all[i] != all[|s.active| + k];
    }
    assert s.queue[..k + 1] == s.queue[..k] + [s.queue[k]];
  }

  lemma DistinctJobs(s: State)
    requires Inv(s)
    ensures NoDup(s.active + s.queue)
  {
    StartedAndQueuedDiffer(s);
    forall i, j | 0 <= i < |s.active| && 0 <= j < |s.queue| ensures s.active[i] != s.queue[j] {
      assert s.queue[j] in s.queue;
    }
  }

  lemma EnqueueDistinct(s: State, id: JobId)
    requires Inv(s) && id !in s.rows
    ensures NoDup(s.active + (s.queue + [id]))
  {
    DistinctJobs(s);
    FreshStays(s, id);
    assert s.active + (s.queue + [id]) == (s.active + s.queue) + [id];
    assert id !in s.active + s.queue;
  }

  lemma RemoveKeepsDistinct(active: seq<JobId>, queue: seq<JobId>, id: JobId)
    requires NoDup(active) && NoDup(queue) && forall x :: x in queue ==> x !in active
    ensures NoDup(Minus(active, {id}) + queue)
  {
    MinusNoDup(active, {id});
    forall x | x in Minus(active, {id}) ensures x in active { MinusMember(active, {id}, x); }
    var rest := Minus(active, {id});
    forall i, j | 0 <= i < |rest| && 0 <= j < |queue| ensures rest[i] != queue[j] {
      assert rest[i] in rest && queue[j] in queue;
    }
  }

  lemma {:induction false} PopIsMinus(s: seq<JobId>, i: nat)
    requires NoDup(s) && i < |s|
    ensures s[..i] + s[i + 1..] == Minus(s, {s[i]})
  {
    var n := |s| - 1;
    var init := s[..n];
    if i == n {
      forall x | x in init ensures x !in {s[n]} {
        var j :| 0 <= j < n && init[j] == x;
      }
      MinusNothing(init, {s[n]});
    } else {
      PopIsMinus(init, i);
      assert s[n] != s[i];
      assert init[..i] == s[..i] && s[i + 1..] == init[i + 1..] + [s[n]];
      assert s[..i] + s[i + 1..] == (init[..i] + init[i + 1..]) + [s[n]];
    }
  }
}
