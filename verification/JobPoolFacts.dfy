/** Every step of the job pool keeps the invariant of JobPool.dfy. What that means for runs is in JobPoolRuns.dfy. */
module JobPoolFacts {
  import opened Lists
  import opened Options
  import opened JobPool

  // ---------------------------------------------------------------- sequences

  lemma MinusMember(s: seq<JobId>, out: set<JobId>, x: JobId)
    ensures x in Minus(s, out) <==> x in s && x !in out
  {
    FilterMember(NotIn(out), s, x);
  }

  lemma MinusNothing(s: seq<JobId>, out: set<JobId>)
    requires forall x :: x in s ==> x !in out
    ensures Minus(s, out) == s
  {
    FilterWhole(NotIn(out), s);
  }

  lemma {:induction false} MinusNoDup(s: seq<JobId>, out: set<JobId>)
    requires NoDup(s)
    ensures NoDup(Minus(s, out)) && |Minus(s, out)| <= |s|
  {
    if s != [] {
      var n := |s| - 1;
      MinusNoDup(s[..n], out);
      MinusMember(s[..n], out, s[n]);
    }
  }

  lemma MinusConcat(a: seq<JobId>, b: seq<JobId>, out: set<JobId>)
    ensures Minus(a + b, out) == Minus(a, out) + Minus(b, out)
  {
    FilterConcat(NotIn(out), a, b);
  }

  lemma {:induction false} MinusTwice(s: seq<JobId>, out: set<JobId>, more: set<JobId>)
    ensures Minus(s, out + more) == Minus(Minus(s, out), more)
  {
    if s != [] {
      var n := |s| - 1;
      MinusTwice(s[..n], out, more);
      var last := if s[n] in out then [] else [s[n]];
      MinusConcat(Minus(s[..n], out), last, more);
      assert last == [s[n]] ==> last[..0] == [];
      assert Minus(last, more) == if s[n] in out + more then [] else [s[n]];
    }
  }

  lemma NoDupParts(a: seq<JobId>, b: seq<JobId>)
    requires NoDup(a + b)
    ensures NoDup(a) && NoDup(b) && forall x :: x in a ==> x !in b
  {
    forall i, j | 0 <= i < |a| && 0 <= j < |b| ensures a[i] != b[j] {
      assert (a + b)[i] != (a + b)[|a| + j];
    }
    forall i, j | 0 <= i < j < |b| ensures b[i] != b[j] {
      assert (a + b)[|a| + i] != (a + b)[|a| + j];
    }
    forall i, j | 0 <= i < j < |a| ensures a[i] != a[j] {
      assert (a + b)[i] != (a + b)[j];
    }
  }

  /** Dropping ids that are all in the second of two disjoint parts leaves the first part alone. */
  lemma DropFromTail(accepted: seq<JobId>, dropped: set<JobId>, a: seq<JobId>, b: seq<JobId>, out: set<JobId>)
    requires NoDup(accepted) && Minus(accepted, dropped) == a + b
    requires forall x :: x in out ==> x in b
    ensures Minus(accepted, dropped + out) == a + Minus(b, out)
  {
    MinusTwice(accepted, dropped, out);
    MinusConcat(a, b, out);
    MinusNoDup(accepted, dropped);
    NoDupParts(a, b);
    MinusNothing(a, out);
  }

  // ---------------------------------------------------------------- every step keeps the invariant

  lemma StartedAndQueuedDiffer(s: State)
    requires HistoryInv(s)
    ensures NoDup(s.queue) && forall x :: x in s.queue ==> x !in s.started && x !in s.active
    ensures forall x :: x in s.queue || x in s.started ==> x in s.accepted && x !in s.dropped
  {
    MinusNoDup(s.accepted, s.dropped);
    var all := s.started + s.queue;
    NoDupParts(s.started, s.queue);
    forall x | x in s.queue || x in s.started ensures x in s.accepted && x !in s.dropped {
      assert x in all;
      MinusMember(s.accepted, s.dropped, x);
    }
  }

  /** The first `n` waiting jobs start. */
  function Promoted(s: State, n: nat): State
    requires n <= |s.queue|
  {
    s.(active := s.active + s.queue[..n], queue := s.queue[n..], rows := Mark(s.rows, s.queue[..n], Running), started := s.started + s.queue[..n])
  }

  lemma PromotedHistory(s: State, n: nat)
    requires HistoryInv(s) && n <= |s.queue|
    ensures HistoryInv(Promoted(s, n))
  {
    var q := s.queue[..n];
    assert s.queue == q + s.queue[n..];
    assert s.started + s.queue == (s.started + q) + s.queue[n..];
    StartedAndQueuedDiffer(s);
    forall i, j | 0 <= i < j < |s.active + q| ensures (s.active + q)[i] != (s.active + q)[j] {
      if i < |s.active| <= j {
        assert s.active[i] in s.active && q[j - |s.active|] in s.queue;
      }
    }
  }

  lemma PromotedRows(s: State, n: nat)
    requires HistoryInv(s) && KindInv(s) && RowInv(s) && n <= |s.queue|
    ensures KindInv(Promoted(s, n)) && RowInv(Promoted(s, n))
  {
    var q := s.queue[..n];
    assert s.queue == q + s.queue[n..];
    StartedAndQueuedDiffer(s);
    forall j | j in q ensures j in s.queue && j !in s.queue[n..] {
      forall k | n <= k < |s.queue| ensures s.queue[k] != j {}
    }
  }

  /** History, bookkeeping and rows, without the lock. */
  ghost predicate Books(s: State) { HistoryInv(s) && KindInv(s) && RowInv(s) }

  lemma PromotedBooks(s: State, n: nat)
    requires Books(s) && n <= |s.queue|
    ensures Books(Promoted(s, n))
  {
    PromotedHistory(s, n);
    PromotedRows(s, n);
  }

  /** Fields the books do not mention. */
  lemma BooksIgnore(s: State, held: bool, armed: bool, owner: Owner, setting: Option<int>)
    requires Books(s)
    ensures Books(s.(lockHeld := held, retryArmed := armed, owner := owner, setting := setting))
  {
  }

  lemma DispatchedBooks(s: State)
    requires Books(s)
    ensures Books(Dispatched(s))
  {
    var n := Room(s);
    PromotedBooks(s, n);
    hide Books;
    BooksIgnore(s, s.lockHeld, false, s.owner, s.setting);
    BooksIgnore(s, s.lockHeld, true, s.owner, s.setting);
    BooksIgnore(Promoted(s, n), true, false, if s.lockHeld then s.owner else Panel, s.setting);
  }

  lemma ThreadBooks(s: State)
    requires Books(s)
    ensures Books(DispatchedInThread(s))
  {
    BooksIgnore(s, s.lockHeld, false, s.owner, s.setting);
    if Room(s) > 0 {
      assert s.queue[..1] == [s.queue[0]];
      PromotedBooks(s, 1);
      StartedAndQueuedDiffer(s);
      assert s.queue[0] in s.queue;
      StuckBooks(Promoted(s, 1), s.queue[0]);
      hide Books, Mark;
      BooksIgnore(Promoted(s, 1).(stuck := s.stuck + {s.queue[0]}), true, false, if s.lockHeld then s.owner else Panel, s.setting);
    }
  }

  lemma StuckBooks(s: State, id: JobId)
    requires Books(s) && id in s.active && id !in s.spawned
    ensures Books(s.(stuck := s.stuck + {id}))
  {
    hide Minus, NoDup, InPhase;
  }

  /** A dispatch on the event loop leaves nothing waiting for nobody, whatever the limit and the queue were changed
      to. */
  lemma DispatchKeeps(s: State)
    requires LockBase(s) && Books(s)
    ensures var t := Dispatched(s);
      && Books(t) && (LockInv(s) ==> LockInv(t)) && (s.stuck == {} ==> Wake(t))
      && LockInv(if t.active == [] && t.queue == [] then Released(t) else t)
  {
    DispatchedBooks(s);
    DispatchWakes(s);
  }

  lemma DispatchWakes(s: State)
    requires LockBase(s)
    ensures var t := Dispatched(s);
      && (LockInv(s) ==> LockInv(t)) && (s.stuck == {} ==> Wake(t))
      && LockInv(if t.active == [] && t.queue == [] then Released(t) else t)
  {
    hide Mark;
  }

  lemma ThreadKeeps(s: State)
    requires LockInv(s) && Books(s)
    ensures Books(DispatchedInThread(s)) && LockInv(DispatchedInThread(s))
  {
    ThreadBooks(s);
    hide Books, Mark;
  }

  lemma PoppedBooks(s: State, id: JobId, rc: int)
    requires Inv(s) && id in s.active && id !in s.stuck
    ensures Books(Popped(s, id, rc)) && LockBase(Popped(s, id, rc))
  {
    var t := Popped(s, id, rc);
    assert id in s.accepted && id !in s.queue by {
      StartedAndQueuedDiffer(s);
      assert id in s.started;
    }
    hide Minus, RowInv, LockBase;
    MinusNoDup(s.active, {id});
    forall x ensures x in t.active <==> x in s.active && x != id { MinusMember(s.active, {id}, x); }
    PoppedRows(s, t, id);
    PoppedLock(s, id, rc);
  }

  lemma PoppedLock(s: State, id: JobId, rc: int)
    requires LockBase(s) && id in s.active && NoDup(s.active)
    ensures LockBase(Popped(s, id, rc))
  {
    MinusNoDup(s.active, {id});
  }

  lemma PoppedRows(s: State, t: State, id: JobId)
    requires Books(s) && id in s.active && id in s.accepted && id !in s.queue
    requires t.queue == s.queue && t.scheduled == s.scheduled && t.abandoned == s.abandoned && t.accepted == s.accepted && t.draining == s.draining && t.cancelling == s.cancelling
    requires (forall x :: x in t.active <==> x in s.active && x != id) && t.killed == s.killed - {id}
    requires t.rows.Keys == s.rows.Keys && (forall j :: j in s.rows && j != id ==> t.rows[j] == s.rows[j])
    requires id in t.rows ==> t.rows[id] != Running && t.rows[id] != Queued
    ensures RowInv(t)
  {
    forall j | j in t.rows ensures RowFits(t, j, t.rows[j]) { assert RowFits(s, j, s.rows[j]); }
  }

  lemma EndedKeeps(s: State, id: JobId, rc: int)
    requires Inv(s) && id in s.active && id !in s.stuck
    ensures Inv(Ended(s, id, rc))
    ensures s.stuck == {} ==> Wake(Ended(s, id, rc))
  {
    var t := Popped(s, id, rc);
    PoppedBooks(s, id, rc);
    DispatchKeeps(t);
    hide HistoryInv, KindInv, RowInv, Dispatched;
    var u := Dispatched(t);
    BooksIgnore(u, false, u.retryArmed, Nobody, u.setting);
  }

  lemma CancelKeeps(s: State, id: JobId)
    requires Inv(s)
    ensures Inv(CancelRequested(s, id))
  {
    if id in s.active && id in s.spawned {
      KillKeeps(s, id);
    } else if id in s.queue {
      UnqueueHistory(s, id);
      UnqueueRows(s, id);
    }
  }

  lemma KillKeeps(s: State, id: JobId)
    requires Inv(s) && id in s.active && id in s.spawned
    ensures Inv(s.(killed := s.killed + {id}, cancelling := s.cancelling + {id}))
  {
    var t := s.(killed := s.killed + {id}, cancelling := s.cancelling + {id});
    forall j | j in t.rows ensures RowFits(t, j, t.rows[j]) { assert RowFits(s, j, s.rows[j]); }
    hide HistoryInv, RowInv;
    assert HistoryInv(t) by { HistoryFrame(s, t); }
  }

  lemma HistoryFrame(s: State, t: State)
    requires HistoryInv(s) && t.accepted == s.accepted && t.dropped == s.dropped && t.started == s.started && t.queue == s.queue && t.active == s.active
    requires s.rows.Keys <= t.rows.Keys
    ensures HistoryInv(t)
  {
  }

  function Unqueued(s: State, id: JobId): State {
    s.(queue := Minus(s.queue, {id}), rows := Mark(s.rows, [id], Cancelled), dropped := s.dropped + {id})
  }

  lemma UnqueueHistory(s: State, id: JobId)
    requires HistoryInv(s) && id in s.queue
    ensures HistoryInv(Unqueued(s, id))
  {
    StartedAndQueuedDiffer(s);
    DropFromTail(s.accepted, s.dropped, s.started, s.queue, {id});
  }

  lemma UnqueueRows(s: State, id: JobId)
    requires Books(s) && id in s.queue
    ensures KindInv(Unqueued(s, id)) && RowInv(Unqueued(s, id))
  {
    var t := Unqueued(s, id);
    StartedAndQueuedDiffer(s);
    forall x ensures x in t.queue <==> x in s.queue && x != id { MinusMember(s.queue, {id}, x); }
    forall j | j in t.rows ensures RowFits(t, j, t.rows[j]) { assert RowFits(s, j, s.rows[j]); }
    hide RowInv, HistoryInv;
  }

  lemma RefusedKeeps(s: State, id: JobId)
    requires Inv(s) && id !in s.rows && s.draining
    ensures Inv(s.(rows := s.rows[id := Queued]))
  {
    var t := s.(rows := s.rows[id := Queued]);
    FreshStays(s, id);
    HistoryFrame(s, t);
    hide HistoryInv;
    RefusedRows(s, id);
    hide RowInv, Minus;
  }

  lemma RefusedRows(s: State, id: JobId)
    requires RowInv(s) && id !in s.rows && s.draining
    requires id !in s.accepted && id !in s.active && id !in s.queue && id !in s.scheduled && id !in s.abandoned
    ensures RowInv(s.(rows := s.rows[id := Queued]))
  {
    var t := s.(rows := s.rows[id := Queued]);
    forall j | j in t.rows ensures RowFits(t, j, t.rows[j]) { if j != id { assert RowFits(s, j, s.rows[j]); } }
  }

  lemma SubmitKeeps(s: State, id: JobId)
    requires Inv(s) && id !in s.rows
    ensures Inv(Submitted(s, id))
    ensures !s.draining && s.stuck == {} ==> Wake(Submitted(s, id))
  {
    hide HistoryInv, KindInv, RowInv, Dispatched, Wake;
    if s.draining {
      RefusedKeeps(s, id);
    } else {
      EnqueueKeeps(s, id);
      DispatchKeeps(Enqueued(s, id));
    }
  }

  lemma EnqueueKeeps(s: State, id: JobId)
    requires Inv(s) && id !in s.rows && !s.draining
    ensures Books(Enqueued(s, id))
  {
    hide HistoryInv, KindInv, RowInv;
    FreshStays(s, id);
    BooksAre(s);
    var u := Enqueued(s, id);
    assert forall j :: j in u.queue <==> j in s.queue || j == id;
    assert forall j :: j in u.accepted <==> j in s.accepted || j == id;
    EnqueueHistory(s, u, id);
    EnqueueRows(s, u, id);
    EnqueueKind(s, u, id);
    hide *;
    BooksAre(u);
  }

  lemma EnqueueHistory(s: State, u: State, id: JobId)
    requires HistoryInv(s) && u == s.(rows := s.rows[id := Queued], queue := s.queue + [id], accepted := s.accepted + [id])
    requires id !in s.accepted && Minus(s.accepted + [id], s.dropped) == Minus(s.accepted, s.dropped) + [id]
    ensures HistoryInv(u)
  {
    assert u.started + u.queue == (s.started + s.queue) + [id];
  }

  lemma BooksAre(s: State)
    ensures Books(s) <==> HistoryInv(s) && KindInv(s) && RowInv(s)
  {
  }

  lemma EnqueueKind(s: State, u: State, id: JobId)
    requires KindInv(s) && id !in s.rows && id !in s.active && id !in s.scheduled && id !in s.abandoned
    requires u == s.(rows := s.rows[id := Queued], queue := u.queue, accepted := u.accepted)
    requires (forall j :: j in u.queue <==> j in s.queue || j == id) && (forall j :: j in u.accepted <==> j in s.accepted || j == id)
    ensures KindInv(u)
  {
  }

  lemma EnqueueRows(s: State, u: State, id: JobId)
    requires Books(s) && id !in s.rows && id !in s.active
    requires u.active == s.active && u.scheduled == s.scheduled && u.abandoned == s.abandoned && u.draining == s.draining && u.cancelling == s.cancelling && u.killed == s.killed
    requires (forall j :: j in u.queue <==> j in s.queue || j == id) && (forall j :: j in u.accepted <==> j in s.accepted || j == id)
    requires u.rows == s.rows[id := Queued]
    ensures RowInv(u)
  {
    forall j | j in u.rows ensures RowFits(u, j, u.rows[j]) { if j != id { assert RowFits(s, j, s.rows[j]); } }
  }

  lemma FreshStays(s: State, id: JobId)
    requires Inv(s) && id !in s.rows
    ensures id !in s.accepted && id !in s.active && id !in s.queue && id !in s.scheduled && id !in s.abandoned
    ensures Minus(s.accepted + [id], s.dropped) == Minus(s.accepted, s.dropped) + [id]
  {
    StartedAndQueuedDiffer(s);
    assert (s.accepted + [id])[..|s.accepted|] == s.accepted;
  }

  lemma RestartHistory(s: State)
    requires HistoryInv(s)
    ensures HistoryInv(Restarted(s))
  {
    var lost := Members(s.queue);
    StartedAndQueuedDiffer(s);
    DropFromTail(s.accepted, s.dropped, s.started, s.queue, lost);
    if Minus(s.queue, lost) != [] { MinusMember(s.queue, lost, Minus(s.queue, lost)[0]); }
  }

  lemma RestartKeeps(s: State)
    requires Inv(s)
    ensures Inv(Restarted(s)) && Wake(Restarted(s))
  {
    RestartHistory(s);
    StartedAndQueuedDiffer(s);
    hide HistoryInv;
  }

  lemma ScheduledKeeps(s: State, id: JobId)
    requires Inv(s) && id !in s.rows
    ensures Inv(Step(s, ScheduledRun(id)))
  {
    var t := Step(s, ScheduledRun(id));
    FreshStays(s, id);
    HistoryFrame(s, t);
    hide HistoryInv;
    ScheduledRows(s, t, id);
    ScheduledKind(s, t, id);
    hide RowInv, KindInv;
  }

  lemma ScheduledRows(s: State, t: State, id: JobId)
    requires Books(s) && id !in s.rows && id !in s.active && id !in s.queue
    requires t == s.(rows := s.rows[id := Running], scheduled := s.scheduled[id := Waiting])
    ensures RowInv(t)
  {
    forall j | j in t.rows ensures RowFits(t, j, t.rows[j]) { if j != id { assert RowFits(s, j, s.rows[j]); } }
  }

  lemma ScheduledKind(s: State, t: State, id: JobId)
    requires KindInv(s) && id !in s.rows && id !in s.active && id !in s.accepted && id !in s.abandoned && id !in s.scheduled
    requires t == s.(rows := s.rows[id := Running], scheduled := s.scheduled[id := Waiting])
    ensures KindInv(t)
  {
    assert !InPhase(s.scheduled, id, Inside);
    forall j ensures InPhase(t.scheduled, j, Inside) <==> Scheduled(j) in t.inside { assert InPhase(s.scheduled, j, Inside) <==> Scheduled(j) in s.inside; }
  }

  lemma MarkOne(rows: map<JobId, Status>, id: JobId, st: Status)
    ensures Mark(rows, [id], st).Keys == rows.Keys
    ensures forall j :: j in rows ==> Mark(rows, [id], st)[j] == if j == id then st else rows[j]
  {
  }

  /** Moves of the scheduler child touch its own rows only. */
  lemma OthersRows(s: State, t: State, id: JobId)
    requires Books(s) && id in s.scheduled
    requires t.rows.Keys == s.rows.Keys && (forall j :: j in s.rows && j != id ==> t.rows[j] == s.rows[j])
    requires t.active == s.active && t.queue == s.queue && t.killed == s.killed && t.cancelling == s.cancelling && t.draining == s.draining && t.accepted == s.accepted
    requires forall j :: j != id ==> (j in t.scheduled <==> j in s.scheduled) && (j in t.abandoned <==> j in s.abandoned)
    requires RowFits(t, id, t.rows[id])
    ensures RowInv(t)
  {
    forall j | j in t.rows ensures RowFits(t, j, t.rows[j]) { if j != id { assert RowFits(s, j, s.rows[j]); } }
  }

  lemma ScheduledApart(s: State, id: JobId)
    requires HistoryInv(s) && KindInv(s) && id in s.scheduled
    ensures id !in s.active && id !in s.queue && id !in s.cancelling && id in s.rows && id !in s.abandoned && id !in s.accepted
  {
    StartedAndQueuedDiffer(s);
  }

  lemma KindFrame(s: State, t: State, id: JobId)
    requires KindInv(s) && id !in s.cancelling && id !in s.accepted && id !in s.active
    requires t.killed == s.killed && t.spawned == s.spawned && t.stuck == s.stuck && t.active == s.active && t.queue == s.queue
    requires t.accepted == s.accepted && t.cancelling == s.cancelling
    requires t.rows.Keys == s.rows.Keys && forall j :: j in s.rows && j != id ==> t.rows[j] == s.rows[j]
    requires forall j :: j in t.scheduled ==> j in s.scheduled
    requires t.abandoned <= s.abandoned + {id} && (id in t.abandoned ==> id in t.rows && id !in t.scheduled)
    requires forall j :: InPhase(t.scheduled, j, Inside) <==> Scheduled(j) in t.inside
    ensures KindInv(t)
  {
  }

  lemma TriedRows(s: State, who: Visitor)
    requires Books(s)
    ensures RowInv(Tried(s, who))
  {
    if who.Scheduled? && InPhase(s.scheduled, who.id, Waiting) {
      ScheduledApart(s, who.id);
      assert RowFits(s, who.id, s.rows[who.id]);
      MarkOne(s.rows, who.id, Cancelled);
      hide HistoryInv, KindInv, RowInv, Mark, Books;
      if s.owner == Nobody {
        OthersRows(s, Tried(s, who), who.id);
      } else {
        OthersRows(s, Tried(s, who), who.id);
      }
    }
  }

  lemma TriedKeeps(s: State, who: Visitor)
    requires Inv(s)
    ensures Inv(Tried(s, who))
  {
    InvIs(s);
    BooksAre(s);
    TriedHistory(s, who);
    hide *;
    TriedRows(s, who);
    TriedKind(s, who);
    TriedLock(s, who);
    InvIs(Tried(s, who));
  }

  lemma TriedHistory(s: State, who: Visitor)
    requires HistoryInv(s)
    ensures HistoryInv(Tried(s, who))
  {
    hide HistoryInv;
    HistoryFrame(s, Tried(s, who));
  }

  lemma TriedLock(s: State, who: Visitor)
    requires LockInv(s)
    ensures LockInv(Tried(s, who))
  {
    hide Mark;
  }

  lemma TriedKind(s: State, who: Visitor)
    requires LockInv(s) && HistoryInv(s) && KindInv(s)
    ensures KindInv(Tried(s, who))
  {
    hide HistoryInv, LockInv, Mark;
    var t := Tried(s, who);
    TriedPhases(s, who);
    if who.Scheduled? && InPhase(s.scheduled, who.id, Waiting) {
      MarkOne(s.rows, who.id, Cancelled);
      ScheduledApart(s, who.id);
      hide KindInv, InPhase;
      KindFrame(s, t, who.id);
    }
  }

  lemma TriedPhases(s: State, who: Visitor)
    requires LockInv(s) && KindInv(s)
    ensures forall j :: InPhase(Tried(s, who).scheduled, j, Inside) <==> Scheduled(j) in Tried(s, who).inside
  {
    var t := Tried(s, who);
    assert forall j :: InPhase(s.scheduled, j, Inside) <==> Scheduled(j) in s.inside;
    hide HistoryInv, KindInv, Minus, Mark;
    forall j ensures InPhase(t.scheduled, j, Inside) <==> Scheduled(j) in t.inside { assert InPhase(s.scheduled, j, Inside) <==> Scheduled(j) in s.inside; }
  }

  lemma LeftRows(s: State, who: Visitor, rc: Option<int>)
    requires Books(s)
    ensures RowInv(Left(s, who, rc))
  {
    if who in s.inside && who.Scheduled? {
      assert InPhase(s.scheduled, who.id, Inside);
      ScheduledApart(s, who.id);
      assert RowFits(s, who.id, s.rows[who.id]);
      hide HistoryInv, KindInv, RowInv;
      OthersRows(s, Left(s, who, rc), who.id);
    }
  }

  lemma LeftKeeps(s: State, who: Visitor, rc: Option<int>)
    requires Inv(s)
    ensures Inv(Left(s, who, rc))
  {
    InvIs(s);
    BooksAre(s);
    LeftHistory(s, who, rc);
    hide *;
    LeftRows(s, who, rc);
    LeftKind(s, who, rc);
    LeftLock(s, who, rc);
    InvIs(Left(s, who, rc));
  }

  lemma LeftHistory(s: State, who: Visitor, rc: Option<int>)
    requires HistoryInv(s)
    ensures HistoryInv(Left(s, who, rc))
  {
    HistoryFrame(s, Left(s, who, rc));
  }

  lemma LeftLock(s: State, who: Visitor, rc: Option<int>)
    requires LockInv(s)
    ensures LockInv(Left(s, who, rc))
  {
    hide Mark;
  }

  lemma LeftKind(s: State, who: Visitor, rc: Option<int>)
    requires LockInv(s) && HistoryInv(s) && KindInv(s)
    ensures KindInv(Left(s, who, rc))
  {
    var t := Left(s, who, rc);
    if who in s.inside && who.Scheduled? {
      assert InPhase(s.scheduled, who.id, Inside);
      ScheduledApart(s, who.id);
      LeftPhases(s, who, rc);
      hide HistoryInv, LockInv, KindInv, Mark, InPhase;
      KindFrame(s, t, who.id);
    } else {
      LeftPhases(s, who, rc);
      hide HistoryInv, LockInv, Mark, InPhase;
    }
  }

  lemma LeftPhases(s: State, who: Visitor, rc: Option<int>)
    requires LockInv(s) && KindInv(s)
    ensures forall j :: InPhase(Left(s, who, rc).scheduled, j, Inside) <==> Scheduled(j) in Left(s, who, rc).inside
  {
    var t := Left(s, who, rc);
    assert forall j :: InPhase(s.scheduled, j, Inside) <==> Scheduled(j) in s.inside;
    hide HistoryInv, KindInv, Minus, Mark;
    forall j ensures InPhase(t.scheduled, j, Inside) <==> Scheduled(j) in t.inside { assert InPhase(s.scheduled, j, Inside) <==> Scheduled(j) in s.inside; }
  }

  lemma DiedRows(s: State, who: Visitor)
    requires Books(s)
    ensures RowInv(Died(s, who))
  {
    if who.Scheduled? && who.id in s.scheduled {
      ScheduledApart(s, who.id);
      assert RowFits(s, who.id, s.rows[who.id]);
      hide HistoryInv, KindInv, RowInv;
      OthersRows(s, Died(s, who), who.id);
    }
  }

  lemma DiedKeeps(s: State, who: Visitor)
    requires Inv(s)
    ensures Inv(Died(s, who))
  {
    InvIs(s);
    BooksAre(s);
    DiedHistory(s, who);
    hide *;
    DiedRows(s, who);
    DiedKind(s, who);
    DiedLock(s, who);
    InvIs(Died(s, who));
  }

  lemma DiedHistory(s: State, who: Visitor)
    requires HistoryInv(s)
    ensures HistoryInv(Died(s, who))
  {
    HistoryFrame(s, Died(s, who));
  }

  lemma DiedLock(s: State, who: Visitor)
    requires LockInv(s)
    ensures LockInv(Died(s, who))
  {
    hide Mark;
  }

  lemma DiedKind(s: State, who: Visitor)
    requires LockInv(s) && HistoryInv(s) && KindInv(s)
    ensures KindInv(Died(s, who))
  {
    hide HistoryInv, LockInv, Mark, InPhase;
    var t := Died(s, who);
    DiedPhases(s, who);
    if who.Scheduled? && who.id in s.scheduled {
      ScheduledApart(s, who.id);
      hide KindInv;
      KindFrame(s, t, who.id);
    }
  }

  lemma DiedPhases(s: State, who: Visitor)
    requires LockInv(s) && KindInv(s)
    ensures forall j :: InPhase(Died(s, who).scheduled, j, Inside) <==> Scheduled(j) in Died(s, who).inside
  {
    var t := Died(s, who);
    assert forall j :: InPhase(s.scheduled, j, Inside) <==> Scheduled(j) in s.inside;
    hide HistoryInv, KindInv, Minus, Mark;
    forall j ensures InPhase(t.scheduled, j, Inside) <==> Scheduled(j) in t.inside { assert InPhase(s.scheduled, j, Inside) <==> Scheduled(j) in s.inside; }
  }

  lemma WrittenRows(s: State, id: JobId)
    requires Books(s)
    ensures RowInv(Written(s, id))
  {
    if id in s.scheduled && s.scheduled[id].Exited? {
      ScheduledApart(s, id);
      assert RowFits(s, id, s.rows[id]);
      hide HistoryInv, KindInv, RowInv;
      OthersRows(s, Written(s, id), id);
    }
  }

  lemma WrittenKeeps(s: State, id: JobId)
    requires Inv(s)
    ensures Inv(Written(s, id))
  {
    InvIs(s);
    BooksAre(s);
    WrittenHistory(s, id);
    hide *;
    WrittenRows(s, id);
    WrittenKind(s, id);
    WrittenLock(s, id);
    InvIs(Written(s, id));
  }

  lemma WrittenHistory(s: State, id: JobId)
    requires HistoryInv(s)
    ensures HistoryInv(Written(s, id))
  {
    HistoryFrame(s, Written(s, id));
  }

  lemma WrittenLock(s: State, id: JobId)
    requires LockInv(s)
    ensures LockInv(Written(s, id))
  {
    hide Mark;
  }

  lemma WrittenKind(s: State, id: JobId)
    requires LockInv(s) && HistoryInv(s) && KindInv(s)
    ensures KindInv(Written(s, id))
  {
    var t := Written(s, id);
    if id in s.scheduled && s.scheduled[id].Exited? {
      MarkOne(s.rows, id, Verdict(s.scheduled[id].rc));
      ScheduledApart(s, id);
      WrittenPhases(s, id);
      hide HistoryInv, LockInv, KindInv, Mark, InPhase;
      KindFrame(s, t, id);
    } else {
      WrittenPhases(s, id);
      hide HistoryInv, LockInv, Mark, InPhase;
    }
  }

  lemma WrittenPhases(s: State, id: JobId)
    requires LockInv(s) && KindInv(s)
    ensures forall j :: InPhase(Written(s, id).scheduled, j, Inside) <==> Scheduled(j) in Written(s, id).inside
  {
    var t := Written(s, id);
    assert forall j :: InPhase(s.scheduled, j, Inside) <==> Scheduled(j) in s.inside;
    hide HistoryInv, KindInv, Minus, Mark;
    forall j ensures InPhase(t.scheduled, j, Inside) <==> Scheduled(j) in t.inside { assert InPhase(s.scheduled, j, Inside) <==> Scheduled(j) in s.inside; }
  }

  lemma ReturnKeeps(s: State, id: JobId)
    requires Inv(s)
    ensures Inv(Step(s, CancelReturns(id)))
  {
    if id in s.cancelling {
      assert id !in s.queue by { StartedAndQueuedDiffer(s); }
      hide HistoryInv, RowInv, RowFits;
      var t := Step(s, CancelReturns(id));
      HistoryFrame(s, t);
      ReturnRows(s, t, id);
    }
  }

  lemma ReturnRows(s: State, t: State, id: JobId)
    requires Books(s) && id in s.cancelling && id !in s.queue
    requires t == s.(cancelling := s.cancelling - {id}, rows := t.rows)
    requires t.rows.Keys == s.rows.Keys && (forall j :: j in s.rows ==> t.rows[j] == if j == id then Cancelled else s.rows[j])
    ensures RowInv(t)
  {
    forall j | j in t.rows ensures RowFits(t, j, t.rows[j]) { assert RowFits(s, j, s.rows[j]); }
  }

  lemma StepKeeps(s: State, e: Event)
    requires Inv(s)
    ensures Inv(Step(s, e))
  {
    hide HistoryInv, KindInv, RowInv, LockInv;
    match e
    case StartJob(id) => if id !in s.rows { SubmitKeeps(s, id); }
    case Spawned(id) => SpawnedKeeps(s, id);
    case Finished(id, rc) => if id in s.active && id !in s.stuck { EndedKeeps(s, id, rc); }
    case Cancel(id) => CancelKeeps(s, id);
    case CancelReturns(id) => ReturnKeeps(s, id);
    case RetryFires => LockOf(s); DispatchKeeps(s);
    case SetLimit(n, onLoop) => SetLimitKeeps(s, n, onLoop);
    case Sighup => if s.draining { RestartKeeps(s); } else { DrainKeeps(s); }
    case Restart => RestartKeeps(s);
    case ScheduledRun(id) => if id !in s.rows { ScheduledKeeps(s, id); }
    case OtherTries(who) => TriedKeeps(s, who);
    case OtherLeaves(who, rc) => LeftKeeps(s, who, rc);
    case OtherDies(who) => DiedKeeps(s, who);
    case ScheduledWrites(id) => WrittenKeeps(s, id);
  }

  lemma InvIs(s: State)
    ensures Inv(s) <==> LockInv(s) && HistoryInv(s) && KindInv(s) && RowInv(s)
  {
  }

  lemma LockOf(s: State)
    requires Inv(s)
    ensures LockBase(s) && Books(s)
  {
  }

  lemma SpawnedKeeps(s: State, id: JobId)
    requires Inv(s)
    ensures Inv(Step(s, Spawned(id)))
  {
  }

  lemma DrainKeeps(s: State)
    requires Inv(s)
    ensures Inv(s.(draining := true))
  {
  }

  lemma SetLimitKeeps(s: State, n: Option<int>, onLoop: bool)
    requires Inv(s)
    ensures Inv(Step(s, SetLimit(n, onLoop)))
    ensures onLoop && s.stuck == {} ==> Wake(Step(s, SetLimit(n, onLoop)))
  {
    var t := s.(setting := n);
    BooksIgnore(s, s.lockHeld, s.retryArmed, s.owner, n);
    InvIs(s);
    hide Inv, HistoryInv, KindInv, RowInv, Dispatched, DispatchedInThread, Books, Wake;
    if onLoop {
      DispatchKeeps(t);
      InvOf(Dispatched(t));
    } else {
      ThreadKeeps(t);
      InvOf(DispatchedInThread(t));
    }
  }

  lemma InvOf(s: State)
    requires Books(s) && LockInv(s)
    ensures Inv(s)
  {
  }

  lemma {:induction false} RunKeeps(s: State, es: seq<Event>)
    requires Inv(s)
    ensures Inv(Run(s, es))
    decreases |es|
  {
    if es != [] {
      RunKeeps(s, es[..|es| - 1]);
      StepKeeps(Run(s, es[..|es| - 1]), es[|es| - 1]);
    }
  }
}
