/** What every run of the job pool guarantees: exclusion, no lost wake-up, conservation, and a jobs table that tells the
    truth as far as it does. */
module JobPoolRuns {
  import opened Options
  import opened JobPool
  import opened JobPoolFacts

  // ---------------------------------------------------------------- safety

  /** While a panel job runs, the panel owns the lock and no scheduler or command-line run is in its critical
      section; those exclude each other too; outside draining an idle panel never sits on the lock. */
  lemma MutualExclusion(setting: Option<int>, es: seq<Event>)
    ensures var s := Run(Boot(setting), es);
      && (s.active != [] ==> s.owner == Panel && s.inside == {})
      && |s.inside| <= 1
      && |s.active| <= MAX_MAX_CONCURRENT
      && (!s.draining ==> (s.owner == Panel <==> s.active != []))
  {
    RunKeeps(Boot(setting), es);
  }

  /** Jobs start in submission order with the dropped ones skipped, none twice and none lost: the accepted ids
      are, in order, the started ones followed by the queued ones, once the dropped ones are taken out. */
  lemma {:induction false} JobsConserved(setting: Option<int>, es: seq<Event>)
    ensures var s := Run(Boot(setting), es);
      && Minus(s.accepted, s.dropped) == s.started + s.queue
      && NoDup(s.started + s.queue)
      && (forall j :: j in s.active ==> j in s.started)
      && (forall j :: j in s.accepted ==> (j in s.queue || j in s.started) != (j in s.dropped))
  {
    var s := Run(Boot(setting), es);
    RunKeeps(Boot(setting), es);
    hide Run, LockInv, KindInv, RowInv;
    MinusNoDup(s.accepted, s.dropped);
    forall j | j in s.accepted ensures (j in s.queue || j in s.started) != (j in s.dropped) {
      MinusMember(s.accepted, s.dropped, j);
      assert j in s.queue || j in s.started <==> j in s.started + s.queue;
    }
  }

  ghost predicate Extends(s: State, t: State) {
    s.accepted <= t.accepted && s.started <= t.started && s.dropped <= t.dropped && s.rows.Keys <= t.rows.Keys
  }

  lemma DispatchExtends(s: State)
    ensures Extends(s, Dispatched(s)) && Extends(s, DispatchedInThread(s))
  {
  }

  lemma SubmitExtends(s: State, id: JobId)
    ensures Extends(s, Submitted(s, id))
  {
    DispatchExtends(Enqueued(s, id));
    hide Dispatched;
  }

  lemma EndExtends(s: State, id: JobId, rc: int)
    ensures Extends(s, Ended(s, id, rc))
  {
    DispatchExtends(Popped(s, id, rc));
    hide Dispatched;
  }

  lemma LimitExtends(s: State, n: Option<int>, onLoop: bool)
    ensures Extends(s, Step(s, SetLimit(n, onLoop)))
  {
    DispatchExtends(s.(setting := n));
    hide Dispatched, DispatchedInThread;
  }

  /** History only grows, so an id once started or dropped is never started again. */
  lemma HistoryGrows(s: State, e: Event)
    ensures Extends(s, Step(s, e))
  {
    hide Dispatched, DispatchedInThread, Submitted, JobPool.Ended;
    match e
    case StartJob(id) => SubmitExtends(s, id);
    case Finished(id, rc) => EndExtends(s, id, rc);
    case RetryFires => DispatchExtends(s);
    case SetLimit(n, onLoop) => LimitExtends(s, n, onLoop);
    case _ => OthersExtend(s, e);
  }

  lemma OthersExtend(s: State, e: Event)
    requires !e.StartJob? && !e.Finished? && !e.RetryFires? && !e.SetLimit?
    ensures Extends(s, Step(s, e))
  {
    hide Minus, Dispatched, DispatchedInThread, Submitted, JobPool.Ended;
  }

  // ---------------------------------------------------------------- wake-up

  /** A settings change handled in a worker thread has nothing to start. */
  ghost predicate Harmless(s: State, e: Event) {
    e.SetLimit? && !e.onLoop ==> s.draining || s.queue == [] || |s.active| >= Limit(e.n)
  }

  /** A settings change handled in a worker thread leaves the wake-up condition intact if and only if it has nothing to
      start. */
  lemma WakeSurvivesThreadIff(s: State, n: Option<int>)
    requires Inv(s) && Wake(s)
    ensures Wake(Step(s, SetLimit(n, false))) <==> Harmless(s, SetLimit(n, false))
  {
    hide HistoryInv, KindInv, RowInv, Mark;
  }

  lemma StepWakes(s: State, e: Event)
    requires Inv(s) && Wake(s) && Harmless(s, e)
    ensures Wake(Step(s, e))
  {
    hide HistoryInv, KindInv, RowInv, LockInv, Wake, Dispatched, DispatchedInThread, Submitted, JobPool.Ended;
    match e
    case StartJob(id) =>
      if id !in s.rows {
        if s.draining { RefusedWakes(s, id); } else { SubmitKeeps(s, id); StuckOf(s); }
      }
    case Finished(id, rc) => if id in s.active && id !in s.stuck { EndedKeeps(s, id, rc); StuckOf(s); }
    case RetryFires => LockOf(s); DispatchKeeps(s); StuckOf(s);
    case SetLimit(n, onLoop) => if onLoop { SetLimitKeeps(s, n, true); StuckOf(s); } else { WakeSurvivesThreadIff(s, n); }
    case Sighup => if s.draining { RestartKeeps(s); } else { DrainWakes(s); }
    case Restart => RestartKeeps(s);
    case Cancel(id) => CancelWakes(s, id);
    case _ => OthersWake(s, e);
  }

  lemma StuckOf(s: State)
    requires Wake(s)
    ensures s.stuck == {}
  {
  }

  lemma RefusedWakes(s: State, id: JobId)
    requires Wake(s) && s.draining
    ensures Wake(Submitted(s, id))
  {
  }

  lemma DrainWakes(s: State)
    requires Wake(s)
    ensures Wake(s.(draining := true))
  {
  }

  lemma CancelWakes(s: State, id: JobId)
    requires Wake(s)
    ensures Wake(CancelRequested(s, id))
  {
    if id in s.queue { assert s.queue != []; }
  }

  lemma OthersWake(s: State, e: Event)
    requires Wake(s)
    requires e.Spawned? || e.CancelReturns? || e.ScheduledRun? || e.OtherTries? || e.OtherLeaves? || e.OtherDies? || e.ScheduledWrites?
    ensures Wake(Step(s, e))
  {
    hide Mark;
  }

  /** A waiting job is always waiting for something that will call the dispatcher again, in every run in which no
      settings change handled in a worker thread finds something to start. */
  lemma {:induction false} NoLostWakeup(s: State, es: seq<Event>)
    requires Inv(s) && Wake(s)
    requires forall k :: 0 <= k < |es| ==> Harmless(Run(s, es[..k]), es[k])
    ensures Wake(Run(s, es))
    decreases |es|
  {
    if es != [] {
      var n := |es| - 1;
      forall k | 0 <= k < n ensures Harmless(Run(s, es[..n][..k]), es[..n][k]) {
        assert es[..n][..k] == es[..k];
        assert Harmless(Run(s, es[..k]), es[k]);
      }
      NoLostWakeup(s, es[..n]);
      RunKeeps(s, es[..n]);
      assert Harmless(Run(s, es[..n]), es[n]);
      StepWakes(Run(s, es[..n]), es[n]);
    }
  }

  lemma BootIsSound(setting: Option<int>)
    ensures Inv(Boot(setting)) && Wake(Boot(setting))
    ensures var s := Boot(setting);
      s.active == s.queue == [] && s.rows == map[] && s.setting == setting && !s.draining && !s.retryArmed && s.owner == Nobody
  {
  }

  ghost predicate Restarts(s: State, e: Event) { e.Restart? || (e.Sighup? && s.draining) }

  /** Jobs wait, none runs and no timer is armed. */
  ghost predicate Stranded(s: State) { !s.draining && s.queue != [] && s.active == [] && !s.retryArmed }

  /** What a harmful settings change does: with the lock taken elsewhere it strands the queue, otherwise the head of the
      queue becomes a running job without a coroutine. */
  lemma HarmDone(s: State, n: Option<int>)
    requires Inv(s) && Wake(s) && !Harmless(s, SetLimit(n, false))
    ensures var t := Step(s, SetLimit(n, false));
      if s.owner.Other? then Stranded(t) && t.queue == s.queue else s.queue[0] in t.stuck
  {
    hide HistoryInv, KindInv, RowInv, Mark;
  }

  /** A stranded queue stays as it is, the lock free or not, until something is submitted, a job is cancelled, the
      settings change again or the panel restarts or drains. */
  lemma StrandedWaits(s: State, e: Event)
    requires Inv(s) && Stranded(s)
    requires !e.StartJob? && !e.Cancel? && !e.SetLimit? && !e.Restart? && !e.Sighup?
    ensures Stranded(Step(s, e)) && Step(s, e).queue == s.queue && Step(s, e).started == s.started
  {
    hide HistoryInv, KindInv, RowInv, Mark;
  }

  lemma StuckStep(s: State, e: Event, id: JobId)
    requires Inv(s) && id in s.stuck && !Restarts(s, e)
    ensures id in Step(s, e).stuck
  {
    hide Mark, Minus, Limit, HistoryInv, RowInv, KindInv;
  }

  /** A job without a coroutine occupies its slot, and the panel the lock, until the restart: no scheduler or
      command-line run gets in meanwhile. */
  lemma {:induction false} StuckHoldsTheLock(s: State, es: seq<Event>, id: JobId)
    requires Inv(s) && id in s.stuck
    requires forall k :: 0 <= k < |es| ==> !Restarts(Run(s, es[..k]), es[k])
    ensures var t := Run(s, es); id in t.stuck && id in t.active && t.owner == Panel && t.inside == {}
    decreases |es|
  {
    RunKeeps(s, es);
    if es != [] {
      var n := |es| - 1;
      forall k | 0 <= k < n ensures !Restarts(Run(s, es[..n][..k]), es[..n][k]) {
        assert es[..n][..k] == es[..k];
        assert !Restarts(Run(s, es[..k]), es[k]);
      }
      StuckHoldsTheLock(s, es[..n], id);
      RunKeeps(s, es[..n]);
      assert !Restarts(Run(s, es[..n]), es[n]);
      StuckStep(Run(s, es[..n]), es[n], id);
    }
    hide HistoryInv, RowInv, Run;
  }

  // ---------------------------------------------------------------- the jobs table

  predicate Settled(status: Status) { status == Success || status == Failed || status == Cancelled }

  /** A `running` row is an active job of the panel, or another process's run, under way or dead without a trace; a
      `queued` row is a waiting job, or a submission refused while draining. */
  lemma RowsMatchMemory(setting: Option<int>, es: seq<Event>, j: JobId)
    ensures var s := Run(Boot(setting), es); j in s.rows ==>
      && (s.rows[j] == Running ==> j in s.active || j in s.scheduled || j in s.abandoned)
      && (j in s.active ==> (s.rows[j] == Running && (j in s.killed ==> j in s.cancelling)) || (s.rows[j] == Cancelled && j in s.killed))
      && (s.rows[j] == Queued ==> j in s.queue || (s.draining && j !in s.accepted))
      && (j in s.queue ==> s.rows[j] == Queued)
  {
    RunKeeps(Boot(setting), es);
    RowSays(Run(Boot(setting), es), j);
    hide Run;
  }

  lemma RowSays(s: State, j: JobId)
    requires Inv(s)
    ensures j in s.rows ==>
      && (s.rows[j] == Running ==> j in s.active || j in s.scheduled || j in s.abandoned)
      && (j in s.active ==> (s.rows[j] == Running && (j in s.killed ==> j in s.cancelling)) || (s.rows[j] == Cancelled && j in s.killed))
      && (s.rows[j] == Queued ==> j in s.queue || (s.draining && j !in s.accepted))
      && (j in s.queue ==> s.rows[j] == Queued)
  {
    StartedAndQueuedDiffer(s);
    hide LockInv, HistoryInv, KindInv;
  }

  /** A finished job's row says cancelled if it was cancelled while running, else what its exit code says. */
  lemma FinishSettles(s: State, id: JobId, rc: int)
    requires Inv(s) && id in s.active && id !in s.stuck
    ensures var t := Step(s, Finished(id, rc));
      id !in t.active && id in t.rows && t.rows[id] == if id in s.killed then Cancelled else if rc == 0 then Success else Failed
  {
    assert id in s.rows && id !in s.queue by {
      StartedAndQueuedDiffer(s);
      assert id in s.started;
    }
    hide Inv, Minus, Dispatched;
    MinusMember(s.active, {id}, id);
    DispatchLeaves(Popped(s, id, rc), id);
  }

  lemma DispatchLeaves(s: State, j: JobId)
    requires j in s.rows && j !in s.queue
    ensures j in Dispatched(s).rows && Dispatched(s).rows[j] == s.rows[j] && (j in Dispatched(s).active <==> j in s.active)
    ensures j in DispatchedInThread(s).rows && DispatchedInThread(s).rows[j] == s.rows[j]
  {
    var q := s.queue[..Room(s)];
    assert j !in q;
    if Room(s) > 0 { assert s.queue[0] in s.queue; }
  }

  /** The row shows an end, and no run of the scheduler child is left that could write something else over it. */
  predicate Fixed(s: State, j: JobId) {
    j in s.rows && Settled(s.rows[j]) && (j in s.scheduled ==> s.scheduled[j].Exited? && Verdict(s.scheduled[j].rc) == Failed)
  }

  lemma FixedWaits(s: State, j: JobId)
    requires Inv(s) && Fixed(s, j)
    ensures j !in s.queue && (j in s.active || j in s.cancelling ==> s.rows[j] == Cancelled) && (j in s.active ==> j in s.killed)
    ensures j in s.scheduled ==> s.rows[j] == Failed && Scheduled(j) !in s.inside
  {
    assert RowFits(s, j, s.rows[j]);
    assert InPhase(s.scheduled, j, Inside) <==> Scheduled(j) in s.inside;
    StartedAndQueuedDiffer(s);
  }

  /** The steps of the panel but for the dispatches. */
  predicate Dispatches(e: Event) { e.StartJob? || e.Finished? || e.RetryFires? || e.SetLimit? }

  lemma FixedElsewhere(s: State, e: Event, j: JobId)
    requires Fixed(s, j) && !Dispatches(e)
    requires j !in s.queue && (j in s.active || j in s.cancelling ==> s.rows[j] == Cancelled)
    requires j in s.scheduled ==> s.rows[j] == Failed && Scheduled(j) !in s.inside
    requires Scheduled(j) in s.inside ==> j in s.scheduled
    ensures Fixed(Step(s, e), j) && Step(s, e).rows[j] == s.rows[j]
  {
    hide Minus, Limit;
  }

  lemma FixedStep(s: State, e: Event, j: JobId)
    requires Inv(s) && Fixed(s, j)
    ensures Fixed(Step(s, e), j) && Step(s, e).rows[j] == s.rows[j]
  {
    FixedWaits(s, j);
    assert InPhase(s.scheduled, j, Inside) <==> Scheduled(j) in s.inside;
    hide Inv, Dispatched, DispatchedInThread, LockInv, HistoryInv, KindInv, RowInv, Minus;
    if Dispatches(e) {
      DispatchStepLeaves(s, e, j);
    } else {
      FixedElsewhere(s, e, j);
    }
  }

  /** A step that dispatches touches only waiting rows and the row of the job that ends. */
  lemma DispatchStepLeaves(s: State, e: Event, j: JobId)
    requires Dispatches(e) && j in s.rows && j !in s.queue
    requires e.Finished? && e.id == j && j in s.active && j !in s.stuck ==> j in s.killed && s.rows[j] == Cancelled
    ensures j in Step(s, e).rows && Step(s, e).rows[j] == s.rows[j] && Step(s, e).scheduled == s.scheduled
  {
    hide Minus, Dispatched, DispatchedInThread;
    DispatchSchedules(s);
    match e
    case StartJob(id) => DispatchLeavesNew(s, id, j);
    case Finished(id, rc) => DispatchLeavesEnd(s, id, rc, j);
    case RetryFires => DispatchLeaves(s, j);
    case SetLimit(n, _) => DispatchLeaves(s.(setting := n), j); DispatchSchedules(s.(setting := n));
    case _ =>
  }

  lemma DispatchSchedules(s: State)
    ensures Dispatched(s).scheduled == s.scheduled == DispatchedInThread(s).scheduled
  {
  }

  lemma DispatchLeavesNew(s: State, id: JobId, j: JobId)
    requires j in s.rows && j !in s.queue
    ensures var t := Step(s, StartJob(id)); j in t.rows && t.rows[j] == s.rows[j] && t.scheduled == s.scheduled
  {
    if id !in s.rows && !s.draining {
      DispatchLeaves(Enqueued(s, id), j);
      DispatchSchedules(Enqueued(s, id));
    }
    hide Dispatched;
  }

  lemma DispatchLeavesEnd(s: State, id: JobId, rc: int, j: JobId)
    requires j in s.rows && j !in s.queue
    requires id == j && j in s.active && j !in s.stuck ==> j in s.killed && s.rows[j] == Cancelled
    ensures var t := Step(s, Finished(id, rc)); j in t.rows && t.rows[j] == s.rows[j] && t.scheduled == s.scheduled
  {
    if id in s.active && id !in s.stuck {
      DispatchLeaves(Popped(s, id, rc), j);
      DispatchSchedules(Popped(s, id, rc));
    }
    hide Dispatched, Minus;
  }

  lemma {:induction false} OutcomeSticks(s: State, es: seq<Event>, j: JobId)
    requires Inv(s) && Fixed(s, j)
    ensures Fixed(Run(s, es), j) && Run(s, es).rows[j] == s.rows[j]
    decreases |es|
  {
    if es != [] {
      OutcomeSticks(s, es[..|es| - 1], j);
      RunKeeps(s, es[..|es| - 1]);
      FixedStep(Run(s, es[..|es| - 1]), es[|es| - 1], j);
    }
  }

  lemma RunOne(s: State, e: Event)
    ensures Run(s, [e]) == Step(s, e)
  {
    hide Step;
    assert [e][..0] == [];
  }

  lemma Writes(s: State, j: JobId)
    requires j in s.rows && j in s.scheduled && s.scheduled[j].Exited?
    ensures var t := Run(s, [ScheduledWrites(j)]); j in t.rows && t.rows[j] == Verdict(s.scheduled[j].rc)
  {
    RunOne(s, ScheduledWrites(j));
    hide Run;
  }

  lemma LeavesAndWrites(s: State, j: JobId)
    requires j in s.rows && Scheduled(j) in s.inside
    ensures var t := Run(s, [OtherLeaves(Scheduled(j), Some(0)), ScheduledWrites(j)]); j in t.rows && t.rows[j] == Success
  {
    var leaves := OtherLeaves(Scheduled(j), Some(0));
    RunOne(s, leaves);
    Writes(Step(s, leaves), j);
    RunConcat(s, [leaves], [ScheduledWrites(j)]);
    assert [leaves, ScheduledWrites(j)] == [leaves] + [ScheduledWrites(j)];
    hide Run;
  }

  lemma TriesAndGoesOn(s: State, j: JobId) returns (es: seq<Event>)
    requires j in s.rows && InPhase(s.scheduled, j, Waiting)
    ensures var t := Run(s, es); j in t.rows && t.rows[j] == if s.owner == Nobody then Success else Cancelled
  {
    var tries := OtherTries(Scheduled(j));
    RunOne(s, tries);
    es := [tries];
    if s.owner == Nobody {
      var more := [OtherLeaves(Scheduled(j), Some(0)), ScheduledWrites(j)];
      LeavesAndWrites(Step(s, tries), j);
      RunConcat(s, [tries], more);
      es := [tries] + more;
    }
    hide Run;
  }

  /** What the scheduler child may still do to a row that a restart marked failed under its feet. */
  lemma Overwritten(s: State, j: JobId) returns (es: seq<Event>)
    requires Inv(s) && j in s.scheduled && j in s.rows && s.rows[j] == Failed && !Fixed(s, j)
    ensures j in Run(s, es).rows && Run(s, es).rows[j] != Failed
  {
    assert InPhase(s.scheduled, j, Inside) <==> Scheduled(j) in s.inside;
    hide Inv, Run;
    match s.scheduled[j]
    case Waiting => es := TriesAndGoesOn(s, j);
    case Inside =>
      es := [OtherLeaves(Scheduled(j), Some(0)), ScheduledWrites(j)];
      LeavesAndWrites(s, j);
    case Exited(_) =>
      es := [ScheduledWrites(j)];
      Writes(s, j);
  }

  lemma {:induction false} RunConcat(s: State, es: seq<Event>, fs: seq<Event>)
    ensures Run(s, es + fs) == Run(Run(s, es), fs)
    decreases |fs|
  {
    hide Step;
    if fs == [] {
      assert es + fs == es;
    } else {
      RunConcat(s, es, fs[..|fs| - 1]);
      assert (es + fs)[..|es + fs| - 1] == es + fs[..|fs| - 1];
    }
  }

  /** A row that shows an end shows it for good, whatever happens, if and only if it is a panel job's, or a scheduled
      run is over, or it is a scheduled run that failed and has only to write so. */
  lemma OutcomeIsFinalIff(s: State, j: JobId)
    requires Inv(s) && j in s.rows && Settled(s.rows[j])
    ensures (forall es :: j in Run(s, es).rows && Run(s, es).rows[j] == s.rows[j]) <==> Fixed(s, j)
  {
    if Fixed(s, j) {
      forall es ensures j in Run(s, es).rows && Run(s, es).rows[j] == s.rows[j] { OutcomeSticks(s, es, j); }
    } else {
      assert RowFits(s, j, s.rows[j]);
      assert s.rows[j] == Failed by { StartedAndQueuedDiffer(s); }
      var es := Overwritten(s, j);
      assert Run(s, es).rows[j] != s.rows[j];
    }
  }

  lemma ScheduledRowStep(s: State, e: Event, j: JobId)
    requires Inv(s) && j in s.scheduled && j in Step(s, e).scheduled
    ensures j in Step(s, e).rows && (Settled(Step(s, e).rows[j]) <==> Settled(s.rows[j]) || Restarts(s, e))
  {
    ScheduledApart(s, j);
    RowOfScheduled(s, j);
    hide Inv, LockInv, HistoryInv, KindInv, RowInv, Dispatched, DispatchedInThread, Minus;
    if Dispatches(e) {
      DispatchStepLeaves(s, e, j);
    } else {
      ScheduledElsewhere(s, e, j);
    }
  }

  lemma ScheduledElsewhere(s: State, e: Event, j: JobId)
    requires !Dispatches(e) && j in s.scheduled && j in Step(s, e).scheduled
    requires j in s.rows && j !in s.active && j !in s.queue && j !in s.cancelling && (s.rows[j] == Running || s.rows[j] == Failed)
    ensures j in Step(s, e).rows && (Settled(Step(s, e).rows[j]) <==> Settled(s.rows[j]) || Restarts(s, e))
  {
    hide Minus, Dispatched, DispatchedInThread, JobPool.Ended, Submitted;
  }

  lemma NotRescheduled(s: State, e: Event, j: JobId)
    requires Inv(s) && j in s.rows && j !in s.scheduled
    ensures j !in Step(s, e).scheduled
  {
    assert InPhase(s.scheduled, j, Inside) <==> Scheduled(j) in s.inside;
    hide Inv, Dispatched, DispatchedInThread, JobPool.Ended, Submitted, CancelRequested, Mark;
    if ByScheduler(e) {
      assert j in s.rows;
    } else {
      PanelKeepsSchedule(s, e);
    }
  }

  /** The events of other processes. */
  predicate ByScheduler(e: Event) { e.ScheduledRun? || e.OtherTries? || e.OtherLeaves? || e.OtherDies? || e.ScheduledWrites? }

  lemma PanelKeepsSchedule(s: State, e: Event)
    requires !ByScheduler(e)
    ensures Step(s, e).scheduled == s.scheduled
  {
    hide Dispatched, DispatchedInThread, Enqueued, Popped, Mark, Minus;
    match e
    case StartJob(id) => DispatchSchedules(Enqueued(s, id)); EditKeepsSchedule(s, id, 0);
    case Finished(id, rc) => DispatchSchedules(Popped(s, id, rc)); EditKeepsSchedule(s, id, rc);
    case RetryFires => DispatchSchedules(s);
    case SetLimit(n, onLoop) => DispatchSchedules(s.(setting := n));
    case _ =>
  }

  lemma EditKeepsSchedule(s: State, id: JobId, rc: int)
    ensures Enqueued(s, id).scheduled == s.scheduled == Popped(s, id, rc).scheduled
  {
  }

  lemma RowsStay(s: State, e: Event)
    ensures s.rows.Keys <= Step(s, e).rows.Keys
  {
    HistoryGrows(s, e);
  }

  lemma {:induction false} StillScheduled(s: State, es: seq<Event>, j: JobId)
    requires Inv(s) && j in s.rows
    ensures j in Run(s, es).rows && (j in Run(s, es).scheduled ==> j in s.scheduled)
    decreases |es|
  {
    if es != [] {
      StillScheduled(s, es[..|es| - 1], j);
      RunKeeps(s, es[..|es| - 1]);
      var t := Run(s, es[..|es| - 1]);
      RowsStay(t, es[|es| - 1]);
      if j !in t.scheduled { NotRescheduled(t, es[|es| - 1], j); }
    }
  }

  ghost predicate RestartedDuring(s: State, es: seq<Event>) {
    exists k :: 0 <= k < |es| && Restarts(Run(s, es[..k]), es[k])
  }

  lemma RestartedNext(s: State, es: seq<Event>)
    requires es != []
    ensures RestartedDuring(s, es) <==> RestartedDuring(s, es[..|es| - 1]) || Restarts(Run(s, es[..|es| - 1]), es[|es| - 1])
  {
    hide Run, Restarts;
    var n := |es| - 1;
    var init := es[..n];
    assert forall k :: 0 <= k < n ==> es[k] == init[k] && es[..k] == init[..k];
    if RestartedDuring(s, init) {
      var k :| 0 <= k < n && Restarts(Run(s, init[..k]), init[k]);
      assert Restarts(Run(s, es[..k]), es[k]);
    }
    if RestartedDuring(s, es) {
      var k :| 0 <= k < |es| && Restarts(Run(s, es[..k]), es[k]);
      if k < n { assert Restarts(Run(s, init[..k]), init[k]); }
    }
  }

  /** While a run of the scheduler child is under way its row says so, unless and only unless the panel restarted since:
      then it says failed, whatever becomes of the run. */
  lemma {:induction false} ScheduledRowSweptIff(s: State, es: seq<Event>, j: JobId)
    requires Inv(s) && j in s.scheduled && s.rows[j] == Running && j in Run(s, es).scheduled
    ensures j in Run(s, es).rows && Run(s, es).rows[j] == if RestartedDuring(s, es) then Failed else Running
    decreases |es|
  {
    hide Inv, Run, Step, Restarts, RestartedDuring;
    RowOfScheduled(s, j);
    RunLast(s, es);
    if es == [] {
      NoRestartYet(s);
    } else {
      var n := |es| - 1;
      var t := Run(s, es[..n]);
      RunKeeps(s, es[..n]);
      StillScheduled(s, es[..n], j);
      if j !in t.scheduled { NotRescheduled(t, es[n], j); }
      ScheduledRowSweptIff(s, es[..n], j);
      RestartedNext(s, es);
      ScheduledRowStep(t, es[n], j);
    }
    RunKeeps(s, es);
    RowOfScheduled(Run(s, es), j);
  }

  lemma RunLast(s: State, es: seq<Event>)
    ensures if es == [] then Run(s, es) == s else Run(s, es) == Step(Run(s, es[..|es| - 1]), es[|es| - 1])
  {
  }

  lemma NoRestartYet(s: State)
    ensures !RestartedDuring(s, [])
  {
  }

  lemma RowOfScheduled(s: State, j: JobId)
    requires Inv(s) && j in s.scheduled
    ensures j in s.rows && (s.rows[j] == Running || s.rows[j] == Failed)
  {
    ScheduledApart(s, j);
    assert RowFits(s, j, s.rows[j]);
  }

  // ---------------------------------------------------------------- draining and restart

  /** Until the restart, a draining panel starts nothing and accepts nothing; both sets only shrink. */
  lemma DrainingOnlyShrinks(s: State, e: Event)
    requires s.draining && !e.Restart? && !e.Sighup?
    ensures var t := Step(s, e);
      && t.draining && t.started == s.started && t.accepted == s.accepted
      && Shrinks(s.active, t.active) && Shrinks(s.queue, t.queue)
  {
    ShrinksNot(s.active);
    ShrinksNot(s.queue);
    hide Minus, Shrinks, Mark, Limit, Dispatched, DispatchedInThread;
    match e
    case Finished(id, rc) =>
      ShrinksBy(s.active, {id});
      DrainingDispatch(Popped(s, id, rc));
    case Cancel(id) => ShrinksBy(s.queue, {id});
    case RetryFires => DrainingDispatch(s);
    case SetLimit(n, onLoop) => DrainingDispatch(s.(setting := n));
    case _ =>
  }

  lemma DrainingDispatch(s: State)
    requires s.draining
    ensures Dispatched(s) == DispatchedInThread(s) == s.(retryArmed := false)
  {
  }

  ghost predicate Shrinks(a: seq<JobId>, b: seq<JobId>) {
    exists out :: b == Minus(a, out)
  }

  lemma ShrinksBy(a: seq<JobId>, out: set<JobId>)
    ensures Shrinks(a, Minus(a, out))
  {
  }

  lemma ShrinksNot(a: seq<JobId>)
    ensures Shrinks(a, a)
  {
    MinusNothing(a, {});
  }

  /** After startup recovery no row is left queued or running, those of other processes included, and the lock is not
      the panel's. */
  lemma RestartSettlesRows(s: State, j: JobId)
    requires Inv(s)
    ensures var t := Step(s, Restart);
      && t.owner != Panel
      && (j in t.rows ==> Settled(t.rows[j]))
      && (j in s.rows ==> j in t.rows && (j in s.active || j in s.queue ==> t.rows[j] == Failed || (j in s.killed && t.rows[j] == Cancelled)))
  {
    StartedAndQueuedDiffer(s);
    assert j in s.rows ==> RowFits(s, j, s.rows[j]);
    hide Inv, HistoryInv, KindInv, RowInv;
  }

  // ---------------------------------------------------------------- progress

  /** A finishing job hands its slot to the head of the queue, unless the pool is still at the limit. */
  lemma FinishStartsNext(s: State, id: JobId, rc: int)
    requires Inv(s) && !s.draining && id in s.active && id !in s.stuck && s.queue != []
    ensures var t := Step(s, Finished(id, rc));
      if |s.active| <= Limit(s.setting) then s.started + [s.queue[0]] <= t.started
      else t.queue == s.queue && t.started == s.started
  {
    MinusOne(s.active, id);
    HeadStarts(Popped(s, id, rc));
    hide HistoryInv, KindInv, RowInv, Dispatched;
  }

  lemma HeadStarts(s: State)
    requires s.lockHeld && !s.draining && s.queue != []
    ensures var t := Dispatched(s);
      if |s.active| < Limit(s.setting) then s.started + [s.queue[0]] <= t.started
      else t.queue == s.queue && t.started == s.started
  {
    if |s.active| < Limit(s.setting) {
      assert s.queue[..Room(s)][0] == s.queue[0];
    }
  }

  lemma {:induction false} MinusOne(s: seq<JobId>, id: JobId)
    requires NoDup(s) && id in s
    ensures |Minus(s, {id})| == |s| - 1
  {
    var n := |s| - 1;
    assert s == s[..n] + [s[n]];
    if s[n] == id { MinusNothing(s[..n], {id}); } else { MinusOne(s[..n], id); }
  }

  /** The ends, releases and effective retries that are possible in a state. */
  predicate Enabled(s: State, e: Event) {
    match e
    case Finished(id, _) => id in s.active && id !in s.stuck
    case OtherLeaves(who, _) => who in s.inside
    case RetryFires => s.retryArmed && s.owner == Nobody && s.queue != []
    case _ => false
  }

  ghost function Work(s: State): nat {
    3 * (|s.active| + |s.queue|) + if s.owner.Other? then 2 else if s.active == [] then 1 else 0
  }

  /** The step loses and reorders nothing and leaves less to do. */
  ghost predicate Advances(s: State, e: Event) {
    var t := Step(s, e);
    !t.draining && t.started + t.queue == s.started + s.queue && Work(t) < Work(s)
  }

  lemma DispatchAdvances(s: State)
    requires !s.draining
    ensures var t := Dispatched(s);
      && t.started + t.queue == s.started + s.queue && |t.active| + |t.queue| == |s.active| + |s.queue|
      && t.draining == s.draining && (t.owner == s.owner || (t.owner == Panel && t.active != []))
      && (s.owner == Nobody && !s.lockHeld && Room(s) > 0 ==> t.owner == Panel)
  {
    var n := Room(s);
    assert (s.started + s.queue[..n]) + s.queue[n..] == s.started + s.queue;
  }

  lemma FinishAdvances(s: State, id: JobId, rc: int)
    requires Inv(s) && !s.draining && id in s.active && id !in s.stuck
    ensures Advances(s, Finished(id, rc))
  {
    MinusOne(s.active, id);
    DispatchAdvances(Popped(s, id, rc));
    hide Minus, Dispatched, HistoryInv, KindInv, RowInv;
  }

  /** Every possible end, release or effective retry makes progress. */
  lemma EnabledAdvances(s: State, e: Event)
    requires Inv(s) && !s.draining && Enabled(s, e)
    ensures Advances(s, e)
  {
    match e
    case Finished(id, rc) => FinishAdvances(s, id, rc);
    case OtherLeaves(who, rc) => hide Minus, HistoryInv, KindInv, RowInv;
    case RetryFires => DispatchAdvances(s); hide Minus, Dispatched, HistoryInv, KindInv, RowInv;
  }

  /** As long as something is left to do, something can happen. */
  lemma SomethingEnabled(s: State) returns (e: Event)
    requires Inv(s) && Wake(s) && !s.draining && (s.queue != [] || s.active != [] || s.owner != Nobody)
    ensures Enabled(s, e)
  {
    hide HistoryInv, KindInv, RowInv;
    e := if s.owner.Other? then OtherLeaves(s.owner.who, Some(0)) else if s.active != [] then Finished(s.active[0], 0) else RetryFires;
  }

  ghost predicate Schedule(s: State, es: seq<Event>) {
    forall k :: 0 <= k < |es| ==> Enabled(Run(s, es[..k]), es[k])
  }

  /** Every schedule of ends, releases and effective retries, from any state outside draining that nothing harmful led
      to, has at most `Work` steps and keeps the order; when it cannot go on, everything queued has started and the pool
      is empty. */
  lemma {:induction false} EveryScheduleEnds(s: State, es: seq<Event>)
    requires Inv(s) && Wake(s) && !s.draining && Schedule(s, es)
    ensures var t := Run(s, es);
      && Inv(t) && Wake(t) && !t.draining && |es| + Work(t) <= Work(s) && t.started + t.queue == s.started + s.queue
      && ((forall e :: !Enabled(t, e)) ==> t.started == s.started + s.queue && t.active == [] && t.owner == Nobody)
    decreases |es|
  {
    hide Inv, Wake, Run, Step, Schedule, Enabled, Work;
    RunLast(s, es);
    if es != [] {
      var n := |es| - 1;
      ScheduleParts(s, es);
      EveryScheduleEnds(s, es[..n]);
      NextAdvances(Run(s, es[..n]), es[n]);
    }
    ScheduleDone(Run(s, es), s.started + s.queue);
  }

  lemma ScheduleParts(s: State, es: seq<Event>)
    requires Schedule(s, es) && es != []
    ensures var n := |es| - 1; Schedule(s, es[..n]) && Enabled(Run(s, es[..n]), es[n])
  {
    hide Run, Enabled;
    var n := |es| - 1;
    forall k | 0 <= k < n ensures Enabled(Run(s, es[..n][..k]), es[..n][k]) {
      assert es[..n][..k] == es[..k];
    }
  }

  lemma NextAdvances(s: State, e: Event)
    requires Inv(s) && Wake(s) && !s.draining && Enabled(s, e)
    ensures Advances(s, e) && Inv(Step(s, e)) && Wake(Step(s, e))
  {
    EnabledAdvances(s, e);
    StepKeeps(s, e);
    assert Harmless(s, e);
    StepWakes(s, e);
    hide *;
  }

  lemma ScheduleDone(t: State, all: seq<JobId>)
    requires Inv(t) && Wake(t) && !t.draining && t.started + t.queue == all
    ensures (forall e :: !Enabled(t, e)) ==> t.started == all && t.active == [] && t.owner == Nobody
  {
    if t.queue != [] || t.active != [] || t.owner != Nobody {
      var e := SomethingEnabled(t);
    } else {
      assert t.started + t.queue == t.started;
    }
  }

  /** One such schedule: no sound state is stuck, and everything queued can start, in queue order. */
  lemma {:induction false} EverythingStarts(s: State) returns (es: seq<Event>)
    requires Inv(s) && Wake(s) && !s.draining
    ensures Schedule(s, es)
    ensures var t := Run(s, es); t.started == s.started + s.queue && t.queue == [] && t.active == [] && t.owner == Nobody
    decreases Work(s)
  {
    if s.queue != [] || s.active != [] || s.owner != Nobody {
      var e := SomethingEnabled(s);
      EnabledAdvances(s, e);
      StepKeeps(s, e);
      StepWakes(s, e);
      hide Inv, Wake, Enabled;
      var fs := EverythingStarts(Step(s, e));
      es := [e] + fs;
      ScheduleFirst(s, e, fs);
    } else {
      es := [];
      assert s.started + s.queue == s.started;
    }
  }

  lemma ScheduleFirst(s: State, e: Event, fs: seq<Event>)
    requires Enabled(s, e) && Schedule(Step(s, e), fs)
    ensures Schedule(s, [e] + fs) && Run(s, [e] + fs) == Run(Step(s, e), fs)
  {
    RunOne(s, e);
    RunConcat(s, [e], fs);
    var es := [e] + fs;
    forall k | 0 <= k < |es| ensures Enabled(Run(s, es[..k]), es[k]) {
      if k > 0 {
        assert es[..k] == [e] + fs[..k - 1];
        RunConcat(s, [e], fs[..k - 1]);
        assert Enabled(Run(Step(s, e), fs[..k - 1]), fs[k - 1]);
      }
    }
  }

  // ---------------------------------------------------------------- what can go wrong, concretely

  lemma RunTwo(s: State, a: Event, b: Event)
    ensures Run(s, [a, b]) == Step(Step(s, a), b)
  {
    RunOne(s, a);
    assert [a, b][..1] == [a];
  }

  lemma RunThree(s: State, a: Event, b: Event, c: Event)
    ensures Run(s, [a, b, c]) == Step(Step(Step(s, a), b), c)
  {
    hide Step;
    RunTwo(s, a, b);
    assert [a, b, c][..2] == [a, b];
  }

  /** A job submitted while a command-line run has the lock. */
  ghost function WaitingBehind(): State { Step(Step(Boot(None), OtherTries(Script(1))), StartJob(7)) }

  lemma WaitsBehind()
    ensures var s := WaitingBehind();
      s.queue == [7] && s.active == [] && s.owner == Other(Script(1)) && !s.lockHeld && !s.draining && s.inside == {Script(1)} && s.stuck == {}
  {
    hide Mark;
    var s := Step(Boot(None), OtherTries(Script(1)));
    assert s.owner == Other(Script(1)) && s.queue == [] && s.rows == map[];
    var t := Enqueued(s, 7);
    assert t.queue == [7] && Room(t) == 1;
  }

  /** A command-line run has the lock, a job is submitted and the settings are saved: the job waits for nobody. */
  lemma SettingsStrandAJob()
    ensures var s := Run(Boot(None), [OtherTries(Script(1)), StartJob(7), SetLimit(Some(5), false)]);
      Stranded(s) && s.queue == [7]
  {
    RunThree(Boot(None), OtherTries(Script(1)), StartJob(7), SetLimit(Some(5), false));
    WaitsBehind();
    hide WaitingBehind;
  }

  /** The same with the lock given back in between: the job holds its slot and the lock without ever running. */
  lemma SettingsBlockTheLock()
    ensures var s := Run(Run(Boot(None), [OtherTries(Script(1)), StartJob(7), OtherLeaves(Script(1), Some(0))]), [SetLimit(Some(5), false)]);
      s.stuck == {7} && s.active == [7] && s.owner == Panel
  {
    hide Run, Step, WaitingBehind;
    RunThree(Boot(None), OtherTries(Script(1)), StartJob(7), OtherLeaves(Script(1), Some(0)));
    WaitsBehind();
    WaitingIs();
    var s := Step(WaitingBehind(), OtherLeaves(Script(1), Some(0)));
    RunOne(s, SetLimit(Some(5), false));
    ThreadTakesSlot(WaitingBehind(), 7);
  }

  lemma WaitingIs()
    ensures WaitingBehind() == Step(Step(Boot(None), OtherTries(Script(1))), StartJob(7))
  {
  }

  lemma ThreadTakesSlot(s: State, id: JobId)
    requires s.queue == [id] && s.active == [] && s.inside == {Script(1)} && !s.lockHeld && !s.draining && s.stuck == {}
    ensures var t := Step(Step(s, OtherLeaves(Script(1), Some(0))), SetLimit(Some(5), false));
      t.stuck == {id} && t.active == [id] && t.owner == Panel
  {
    hide Mark;
  }

  /** A scheduled run under way when the panel restarts: its row says failed, then that it succeeded. */
  lemma RestartFailsALiveRun()
    ensures var s := Run(Boot(None), [ScheduledRun(7), OtherTries(Scheduled(7)), Restart]);
      && 7 in s.rows && s.rows[7] == Failed
      && var t := Run(s, [OtherLeaves(Scheduled(7), Some(0)), ScheduledWrites(7)]); 7 in t.rows && t.rows[7] == Success
  {
    RunThree(Boot(None), ScheduledRun(7), OtherTries(Scheduled(7)), Restart);
    var s := Step(Step(Step(Boot(None), ScheduledRun(7)), OtherTries(Scheduled(7))), Restart);
    assert InPhase(s.scheduled, 7, Inside) && Scheduled(7) in s.inside;
    LeavesAndWrites(s, 7);
  }
}
