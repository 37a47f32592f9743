/** The panel's job pool (webpanel/app/jobs.py) and the run lock it shares with the scheduler child and
    the command line (webpanel/app/ansible_layer/headless.py, run.sh): the state machine of one event-loop
    callback at a time, and its invariant. JobPoolFacts.dfy shows that every step keeps the invariant, JobPoolRuns.dfy
    has the properties of every run, JobManager.dfy the code. */
module JobPool {
  import opened Lists
  import opened Options

  type JobId = nat

  datatype Status = Queued | Running | Success | Failed | Cancelled

  /** Another process that takes the lock: the command line or a facts probe, which have no job row, or the scheduler
      child running a job of its own. */
  datatype Visitor = Script(pid: nat) | Scheduled(id: JobId)

  /** Holder of the flock on the run-lock file. */
  datatype Owner = Nobody | Panel | Other(who: Visitor)

  /** A scheduled run: about to try the lock, in its critical section, or out of it with its row still to be written. */
  datatype Phase = Waiting | Inside | Exited(rc: Option<int>)

  const DEFAULT_MAX_CONCURRENT := 5
  const MAX_MAX_CONCURRENT := 10

  datatype State = State(
    active: seq<JobId>,           // running jobs, oldest first
    spawned: set<JobId>,          // those whose process exists
    killed: set<JobId>,           // those whose cancellation was requested
    stuck: set<JobId>,            // those whose coroutine was never created
    cancelling: set<JobId>,       // cancellations that still wait for the process before they write the row
    queue: seq<JobId>,
    lockHeld: bool,               // the panel keeps a locked descriptor
    retryArmed: bool,
    draining: bool,
    owner: Owner,                 // the lock as the kernel sees it
    inside: set<Visitor>,         // other processes inside their critical section
    scheduled: map<JobId, Phase>, // the scheduler child's runs
    abandoned: set<JobId>,        // those whose process died without writing the row
    setting: Option<int>,         // max_concurrent_jobs, None when absent or unreadable
    rows: map<JobId, Status>,     // the jobs table, shared with the scheduler child
    accepted: seq<JobId>,         // history: ids taken by submit
    started: seq<JobId>,          // history: ids started
    dropped: set<JobId>)          // history: ids that left the queue without starting

  datatype Event =
    | StartJob(id: JobId)                  // a fresh job row is committed and submitted
    | Spawned(id: JobId)                   // the job's process came into being
    | Finished(id: JobId, rc: int)         // the job's coroutine reached its finally block
    | Cancel(id: JobId)                    // up to the wait for the process
    | CancelReturns(id: JobId)             // after it
    | RetryFires
    | SetLimit(n: Option<int>, onLoop: bool) // the settings form: store, then dispatch, on the event loop or in a thread
    | Sighup                               // begin_drain; a second one forces the restart
    | Restart                              // crash, forced restart or end of drain, then startup recovery
    | ScheduledRun(id: JobId)              // the scheduler child commits the row of a run of its own
    | OtherTries(who: Visitor)
    | OtherLeaves(who: Visitor, exit: Option<int>) // with its exit code, None after an error of the operating system
    | OtherDies(who: Visitor)              // the kernel drops its lock, its row is never written
    | ScheduledWrites(id: JobId)           // after the critical section

  function Limit(setting: Option<int>): nat {
    var n := setting.GetOr(DEFAULT_MAX_CONCURRENT);
    if n < 1 then 1 else if n > MAX_MAX_CONCURRENT then MAX_MAX_CONCURRENT else n
  }

  function Mark(rows: map<JobId, Status>, ids: seq<JobId>, st: Status): map<JobId, Status> {
    map j | j in rows :: if j in ids then st else rows[j]
  }

  ghost predicate NoDup(s: seq<JobId>) {
    forall i, j :: 0 <= i < j < |s| ==> s[i] != s[j]
  }

  function NotIn(out: set<JobId>): JobId -> bool { x => x !in out }

  /** `s` without the ids in `out`. */
  function Minus(s: seq<JobId>, out: set<JobId>): seq<JobId> { Filter(NotIn(out), s) }

  // ---------------------------------------------------------------- the transitions

  /** How many queued jobs a dispatch may start. */
  function Room(s: State): nat {
    var free := Limit(s.setting) - |s.active|;
    if free <= 0 then 0 else if free < |s.queue| then free else |s.queue|
  }

  /** One dispatch, in closed form: the longest queue prefix the limit admits starts, all or none of it
      depending on the lock. */
  function Dispatched(s: State): State {
    var n := Room(s);
    var quiet := s.(retryArmed := false);
    if s.draining || n == 0 then quiet
    else if !s.lockHeld && s.owner != Nobody then s.(retryArmed := true)
    else quiet.(active := s.active + s.queue[..n], queue := s.queue[n..],
                lockHeld := true, owner := if s.lockHeld then s.owner else Panel,
                rows := Mark(s.rows, s.queue[..n], Running), started := s.started + s.queue[..n])
  }

  /** The same code called from a worker thread, which has no event loop: the timer is taken down but cannot be armed
      again, and the first job started is registered as running before creating its coroutine fails. */
  function DispatchedInThread(s: State): State {
    var quiet := s.(retryArmed := false);
    if s.draining || Room(s) == 0 || (!s.lockHeld && s.owner != Nobody) then quiet
    else
      var id := s.queue[0];
      quiet.(active := s.active + [id], stuck := s.stuck + {id}, queue := s.queue[1..],
             lockHeld := true, owner := if s.lockHeld then s.owner else Panel,
             rows := Mark(s.rows, [id], Running), started := s.started + [id])
  }

  function Released(s: State): State {
    if s.lockHeld then s.(lockHeld := false, owner := Nobody) else s
  }

  function Enqueued(s: State, id: JobId): State {
    s.(rows := s.rows[id := Queued], queue := s.queue + [id], accepted := s.accepted + [id])
  }

  /** A job is taken into the queue and dispatched, or refused while draining (its row stays behind). */
  function Submitted(s: State, id: JobId): State {
    if s.draining then s.(rows := s.rows[id := Queued]) else Dispatched(Enqueued(s, id))
  }

  /** The finished job has left the pool and its row is settled. */
  function Popped(s: State, id: JobId, rc: int): State {
    s.(active := Minus(s.active, {id}), spawned := s.spawned - {id}, killed := s.killed - {id},
       rows := Mark(s.rows, [id], if id in s.killed then Cancelled else if rc == 0 then Success else Failed))
  }

  function Ended(s: State, id: JobId, rc: int): State {
    var t := Dispatched(Popped(s, id, rc));
    if t.active == [] && t.queue == [] then Released(t) else t
  }

  function CancelRequested(s: State, id: JobId): State {
    if id in s.active && id in s.spawned then
      s.(killed := s.killed + {id}, cancelling := s.cancelling + {id})
    else if id in s.queue then
      s.(queue := Minus(s.queue, {id}), rows := Mark(s.rows, [id], Cancelled), dropped := s.dropped + {id})
    else s
  }

  function Members(s: seq<JobId>): set<JobId> { set j | j in s }

  /** `UPDATE jobs SET status='failed' WHERE status IN ('running', 'queued')` */
  function Recovered(rows: map<JobId, Status>): map<JobId, Status> {
    map j | j in rows :: if rows[j] == Queued || rows[j] == Running then Failed else rows[j]
  }

  /** The panel's memory is gone, the kernel drops its lock, and startup marks every unfinished row failed, those of
      scheduled runs still under way included. */
  function Restarted(s: State): State {
    State([], {}, {}, {}, {}, [], false, false, false, if s.owner == Panel then Nobody else s.owner, s.inside, s.scheduled, {},
          s.setting, Recovered(s.rows), s.accepted, s.started, s.dropped + Members(s.queue))
  }

  predicate InPhase(scheduled: map<JobId, Phase>, id: JobId, p: Phase) { id in scheduled && scheduled[id] == p }

  /** Another process tries the lock without waiting; a scheduled run that does not get it gives up for good. */
  function Tried(s: State, who: Visitor): State {
    if who.Scheduled? && !InPhase(s.scheduled, who.id, Waiting) then s
    else if s.owner == Nobody then
      s.(owner := Other(who), inside := s.inside + {who},
         scheduled := if who.Scheduled? then s.scheduled[who.id := Inside] else s.scheduled)
    else if who.Scheduled? then s.(rows := Mark(s.rows, [who.id], Cancelled), scheduled := s.scheduled - {who.id})
    else s
  }

  function Left(s: State, who: Visitor, rc: Option<int>): State {
    if who !in s.inside then s
    else s.(owner := Nobody, inside := s.inside - {who},
            scheduled := if who.Scheduled? then s.scheduled[who.id := Exited(rc)] else s.scheduled)
  }

  function Died(s: State, who: Visitor): State {
    var t := s.(owner := if who in s.inside then Nobody else s.owner, inside := s.inside - {who});
    if who.Scheduled? && who.id in s.scheduled then
      t.(scheduled := s.scheduled - {who.id}, abandoned := if who.id in s.rows && s.rows[who.id] == Running then s.abandoned + {who.id} else s.abandoned)
    else t
  }

  /** What a scheduled run makes of itself: an error of the operating system anywhere inside is taken for a busy lock. */
  function Verdict(rc: Option<int>): Status {
    match rc
    case None => Cancelled
    case Some(code) => if code == 0 then Success else Failed
  }

  /** The row a scheduled run writes after its critical section, over whatever is there. */
  function Written(s: State, id: JobId): State {
    if id in s.scheduled && s.scheduled[id].Exited? then
      s.(rows := Mark(s.rows, [id], Verdict(s.scheduled[id].rc)), scheduled := s.scheduled - {id})
    else s
  }

  /** Events that cannot happen in a state leave it alone: ids are fresh primary keys, only a running job with a
      coroutine finishes, only an armed timer fires. */
  function Step(s: State, e: Event): State {
    match e
    case StartJob(id) => if id in s.rows then s else Submitted(s, id)
    case Spawned(id) => if id in s.active && id !in s.stuck then s.(spawned := s.spawned + {id}) else s
    case Finished(id, rc) => if id in s.active && id !in s.stuck then Ended(s, id, rc) else s
    case Cancel(id) => CancelRequested(s, id)
    case CancelReturns(id) => if id in s.cancelling then s.(cancelling := s.cancelling - {id}, rows := Mark(s.rows, [id], Cancelled)) else s
    case RetryFires => if s.retryArmed then Dispatched(s) else s
    case SetLimit(n, onLoop) => if onLoop then Dispatched(s.(setting := n)) else DispatchedInThread(s.(setting := n))
    case Sighup => if s.draining then Restarted(s) else s.(draining := true)
    case Restart => Restarted(s)
    case ScheduledRun(id) => if id in s.rows then s else s.(rows := s.rows[id := Running], scheduled := s.scheduled[id := Waiting])
    case OtherTries(who) => Tried(s, who)
    case OtherLeaves(who, rc) => Left(s, who, rc)
    case OtherDies(who) => Died(s, who)
    case ScheduledWrites(id) => Written(s, id)
  }

  function Boot(setting: Option<int>): State {
    State([], {}, {}, {}, {}, [], false, false, false, Nobody, {}, map[], {}, setting, map[], [], [], {})
  }

  ghost function Run(s: State, es: seq<Event>): State
    decreases |es|
  {
    if es == [] then s else Step(Run(s, es[..|es| - 1]), es[|es| - 1])
  }

  // ---------------------------------------------------------------- the invariant

  /** Mutual exclusion, and a bounded pool that never runs without the lock. */
  ghost predicate LockBase(s: State) {
    && (s.lockHeld <==> s.owner == Panel)
    && s.inside == (if s.owner.Other? then {s.owner.who} else {})
    && (s.active != [] ==> s.lockHeld)
    && |s.active| <= MAX_MAX_CONCURRENT
  }

  /** Moreover an idle pool gives the lock back, unless it is draining. */
  ghost predicate LockInv(s: State) {
    LockBase(s) && (!s.draining && s.lockHeld ==> s.active != [])
  }

  ghost predicate HistoryInv(s: State) {
    && NoDup(s.accepted)
    && Minus(s.accepted, s.dropped) == s.started + s.queue
    && (forall j :: j in s.active ==> j in s.started)
    && NoDup(s.active)
    && (forall j :: j in s.accepted || j in s.dropped ==> j in s.rows)
  }

  /** Where the bookkeeping of a job may appear: the panel's jobs and the scheduler's are apart. */
  ghost predicate KindInv(s: State) {
    && s.killed <= s.spawned && (forall j :: j in s.spawned ==> j in s.active && j !in s.stuck)
    && (forall j :: j in s.stuck ==> j in s.active)
    && (forall j :: j in s.cancelling ==> j in s.killed || (j in s.rows && j !in s.active && j !in s.queue && j !in s.scheduled && s.rows[j] == Cancelled))
    && (forall j :: j in s.scheduled ==> j in s.rows && j !in s.accepted && j !in s.abandoned)
    && (forall j :: j in s.abandoned ==> j in s.rows && j !in s.accepted)
    && (forall j :: InPhase(s.scheduled, j, Inside) <==> Scheduled(j) in s.inside)
  }

  /** What the row of a job says while it is at a certain stage. */
  ghost predicate RowFits(s: State, j: JobId, row: Status) {
    if j in s.active then (row == Running && (j in s.killed ==> j in s.cancelling)) || (row == Cancelled && j in s.killed)
    else if j in s.queue then row == Queued
    else if j in s.scheduled then row == Running || row == Failed
    else if j in s.abandoned then row == Running
    else row != Running && (row == Queued ==> s.draining && j !in s.accepted)
  }

  ghost predicate RowInv(s: State) {
    forall j :: j in s.rows ==> RowFits(s, j, s.rows[j])
  }

  ghost predicate Inv(s: State) {
    LockInv(s) && HistoryInv(s) && KindInv(s) && RowInv(s)
  }

  /** A waiting job waits for something that will call the dispatcher: for a running job with a coroutine, the pool
      being full, or for the timer. */
  ghost predicate Wake(s: State) {
    && s.stuck == {}
    && (!s.draining && s.queue != [] ==> |s.active| >= Limit(s.setting) || (s.retryArmed && s.active == []))
  }
}
