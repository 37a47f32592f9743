/** Login with lockout (webpanel/app/auth.py `authenticate`): five wrong passwords lock the account for ten minutes.
    Times are in microseconds; whether the password verifies is given with the attempt. */
module Lockout {
  import opened Options

  const MAX_FAILED_LOGINS := 5
  const LOCKOUT := 600_000_000

  datatype User = User(active: bool, failedLogins: nat, lockedUntil: Option<int>, lastLogin: Option<int>)

  /** `start` is when the lock is looked at, `end` when the password check is over. */
  datatype Attempt = Attempt(start: int, end: int, verifies: bool)

  datatype Outcome = Refused | WrongPassword | LoggedIn

  predicate Locked(u: User, now: int) { u.lockedUntil.Some? && u.lockedUntil.value > now }

  function Verdict(u: User, a: Attempt): Outcome {
    if !u.active || Locked(u, a.start) then Refused else if a.verifies then LoggedIn else WrongPassword
  }

  function After(u: User, a: Attempt): User {
    match Verdict(u, a)
    case Refused => u
    case LoggedIn => u.(failedLogins := 0, lockedUntil := None, lastLogin := Some(a.end))
    case WrongPassword =>
      if u.failedLogins + 1 >= MAX_FAILED_LOGINS then u.(failedLogins := 0, lockedUntil := Some(a.end + LOCKOUT))
      else u.(failedLogins := u.failedLogins + 1)
  }

  /** A checked password leaves the account like this: a right one forgets the failures and the lock, a wrong one counts,
      and the fifth locks. */
  predicate Checked(u: User, v: User, a: Attempt) {
    && v.active == u.active
    && (a.verifies ==> v.failedLogins == 0 && v.lockedUntil == None && v.lastLogin == Some(a.end))
    && (!a.verifies ==> v.lastLogin == u.lastLogin)
    && (!a.verifies && u.failedLogins < 4 ==> v.failedLogins == u.failedLogins + 1 && v.lockedUntil == u.lockedUntil)
    && (!a.verifies && u.failedLogins >= 4 ==> v.failedLogins == 0 && v.lockedUntil == Some(a.end + 10 * 60 * 1_000_000))
  }

  class Users {
    var rows: map<string, User>

    method Authenticate(username: string, a: Attempt) returns (r: Outcome)
      modifies this
      ensures username !in old(rows) ==> r == Refused && rows == old(rows)
      ensures username in old(rows) ==> r == Verdict(old(rows)[username], a) && rows == old(rows)[username := After(old(rows)[username], a)]
      ensures r.Refused? <==> !(username in old(rows) && old(rows)[username].active
                                && (old(rows)[username].lockedUntil.Some? ==> old(rows)[username].lockedUntil.value <= a.start))
      ensures r.Refused? ==> rows == old(rows)
      ensures !r.Refused? ==>
                && (r.LoggedIn? <==> a.verifies) && username in rows && Checked(old(rows)[username], rows[username], a)
                && rows == old(rows)[username := rows[username]]
    {
      if username !in rows || !rows[username].active { return Refused; }
      var user := rows[username];
      if user.lockedUntil.Some? && user.lockedUntil.value > a.start { return Refused; }
      if !a.verifies {
        user := user.(failedLogins := user.failedLogins + 1);
        if user.failedLogins >= MAX_FAILED_LOGINS {
          user := user.(lockedUntil := Some(a.end + LOCKOUT), failedLogins := 0);
        }
        rows := rows[username := user];
        return WrongPassword;
      }
      rows := rows[username := user.(failedLogins := 0, lockedUntil := None, lastLogin := Some(a.end))];
      return LoggedIn;
    }
  }

  // ---------------------------------------------------------------- runs of attempts on one account

  /** A clock that does not run backwards: each attempt ends before the next one starts. */
  ghost predicate Clocked(as_: seq<Attempt>) {
    && (forall i :: 0 <= i < |as_| ==> as_[i].start <= as_[i].end)
    && forall i, j :: 0 <= i < j < |as_| ==> as_[i].end <= as_[j].start
  }

  function AfterAll(u: User, as_: seq<Attempt>): User
    decreases |as_|
  {
    if as_ == [] then u else AfterAll(After(u, as_[0]), as_[1..])
  }

  /** How many attempts had their password checked and found wrong. */
  function Wrong(u: User, as_: seq<Attempt>): nat
    decreases |as_|
  {
    if as_ == [] then 0
    else (if Verdict(u, as_[0]) == WrongPassword then 1 else 0) + Wrong(After(u, as_[0]), as_[1..])
  }

  lemma {:induction false} CounterStaysBelow(u: User, as_: seq<Attempt>)
    requires u.failedLogins < MAX_FAILED_LOGINS
    ensures AfterAll(u, as_).failedLogins < MAX_FAILED_LOGINS
    decreases |as_|
  {
    if as_ != [] { CounterStaysBelow(After(u, as_[0]), as_[1..]); }
  }

  /** An account that is not active stays out and as it is, whatever is tried on it. */
  lemma {:induction false} InactiveStaysOut(u: User, as_: seq<Attempt>)
    requires !u.active
    ensures AfterAll(u, as_) == u && Wrong(u, as_) == 0
    decreases |as_|
  {
    if as_ != [] { InactiveStaysOut(After(u, as_[0]), as_[1..]); }
  }

  /** On an account without a lock in force every wrong password counts, and the fifth locks it for ten minutes from its check. */
  lemma {:induction false} FailuresCount(u: User, as_: seq<Attempt>)
    requires u.active && forall a :: a in as_ ==> !Locked(u, a.start) && !a.verifies
    requires u.failedLogins < MAX_FAILED_LOGINS && u.failedLogins + |as_| <= MAX_FAILED_LOGINS
    ensures Wrong(u, as_) == |as_|
    ensures AfterAll(u, as_) ==
      if u.failedLogins + |as_| < MAX_FAILED_LOGINS then u.(failedLogins := u.failedLogins + |as_|)
      else u.(failedLogins := 0, lockedUntil := Some(as_[|as_| - 1].end + LOCKOUT))
    decreases |as_|
  {
    if as_ != [] {
      var next := After(u, as_[0]);
      if u.failedLogins + 1 < MAX_FAILED_LOGINS {
        FailuresCount(next, as_[1..]);
      } else {
        assert as_[1..] == [];
      }
    }
  }

  /** A success starts over: of the wrong passwords that follow it, it takes five to lock the account. */
  lemma SuccessStartsOver(u: User, a: Attempt, as_: seq<Attempt>)
    requires Verdict(u, a) == LoggedIn && |as_| <= MAX_FAILED_LOGINS && forall b :: b in as_ ==> !b.verifies
    ensures AfterAll(After(u, a), as_).lockedUntil.Some? <==> |as_| == MAX_FAILED_LOGINS
    ensures AfterAll(After(u, a), as_).lastLogin == Some(a.end)
  {
    FailuresCount(After(u, a), as_);
  }

  /** While the lock is in force nothing is checked and nothing changes. */
  lemma {:induction false} LockHolds(u: User, as_: seq<Attempt>, i: nat)
    requires u.lockedUntil.Some? && forall k :: 0 <= k < |as_| ==> as_[k].start < u.lockedUntil.value
    requires i < |as_|
    ensures AfterAll(u, as_) == u && Verdict(AfterAll(u, as_[..i]), as_[i]) == Refused
    decreases |as_|
  {
    assert Verdict(u, as_[0]) == Refused;
    if |as_| == 1 {
      assert as_[1..] == [];
    } else {
      LockHolds(u, as_[1..], if i > 0 then i - 1 else 0);
    }
    if i > 0 { assert as_[..i][1..] == as_[1..][..i - 1] && as_[1..][i - 1] == as_[i]; }
  }

  /** Checks still possible until `hi` for attempts from `t` on. */
  ghost function Budget(u: User, t: int, hi: int): int {
    var from := if Locked(u, t) then u.lockedUntil.value else t;
    if from > hi then 0 else MAX_FAILED_LOGINS * ((hi - from) / LOCKOUT + 1) - u.failedLogins
  }

  lemma DivMonotone(x: int, y: int)
    requires x <= y
    ensures x / LOCKOUT <= y / LOCKOUT
  {
  }

  lemma DivShift(x: int)
    ensures (x - LOCKOUT) / LOCKOUT == x / LOCKOUT - 1
  {
  }

  lemma BudgetPays(u: User, a: Attempt, t: int, hi: int)
    requires u.failedLogins < MAX_FAILED_LOGINS && t <= a.start <= hi && a.start <= a.end && !a.verifies
    ensures Budget(u, t, hi) >= Budget(After(u, a), a.start, hi) + if Verdict(u, a) == WrongPassword then 1 else 0
  {
    var from := if Locked(u, t) then u.lockedUntil.value else t;
    if Verdict(u, a) == WrongPassword {
      DivMonotone(hi - a.start, hi - from);
      if u.failedLogins + 1 >= MAX_FAILED_LOGINS && a.end + LOCKOUT <= hi {
        DivMonotone(hi - a.end, hi - a.start);
        DivShift(hi - a.end);
      } else {
        DivMonotone(0, hi - a.start);
      }
    } else if !Locked(u, a.start) && from <= hi {
      DivMonotone(hi - a.start, hi - from);
    }
  }

  lemma {:induction false} WrongWithinBudget(u: User, as_: seq<Attempt>, t: int, hi: int)
    requires u.failedLogins < MAX_FAILED_LOGINS && Clocked(as_)
    requires forall i :: 0 <= i < |as_| ==> t <= as_[i].start <= hi && !as_[i].verifies
    ensures Wrong(u, as_) <= Budget(u, t, hi)
    decreases |as_|
  {
    if as_ == [] {
      var from := if Locked(u, t) then u.lockedUntil.value else t;
      if from <= hi { DivMonotone(0, hi - from); }
    } else {
      BudgetPays(u, as_[0], t, hi);
      WrongWithinBudget(After(u, as_[0]), as_[1..], as_[0].start, hi);
    }
  }

  /** The rate bound: in any stretch of a run without a success, whose attempts start within a span of T, at most
      5 * (T / 10 min + 1) passwords are checked. */
  lemma RateBound(u: User, as_: seq<Attempt>, i: nat, j: nat, lo: int, hi: int)
    requires u.failedLogins < MAX_FAILED_LOGINS && Clocked(as_) && i <= j <= |as_| && lo <= hi
    requires forall k :: i <= k < j ==> lo <= as_[k].start <= hi && !as_[k].verifies
    ensures Wrong(AfterAll(u, as_[..i]), as_[i..j]) <= MAX_FAILED_LOGINS * ((hi - lo) / LOCKOUT + 1)
  {
    var v := AfterAll(u, as_[..i]);
    CounterStaysBelow(u, as_[..i]);
    WrongWithinBudget(v, as_[i..j], lo, hi);
    DivMonotone(0, hi - lo);
    if Locked(v, lo) { DivMonotone(hi - v.lockedUntil.value, hi - lo); }
  }

  function Burst(t: int): seq<Attempt> { seq(MAX_FAILED_LOGINS, i => Attempt(t, t, false)) }

  function Bursts(t: int, n: nat): seq<Attempt>
    decreases n
  {
    if n == 0 then [] else Burst(t) + Bursts(t + LOCKOUT, n - 1)
  }

  /** The bound is reached: five tries whenever the lock has just expired make a run that meets the hypotheses of
      the bound over a span of n - 1 lockouts, and check as many passwords as it allows. */
  lemma {:induction false} BoundIsReached(u: User, t: int, n: nat)
    requires u.active && u.failedLogins == 0 && !Locked(u, t)
    ensures Wrong(u, Bursts(t, n)) == MAX_FAILED_LOGINS * n
    ensures Clocked(Bursts(t, n))
    ensures forall a :: a in Bursts(t, n) ==> t <= a.start <= t + LOCKOUT * (n - 1) && !a.verifies
    decreases n
  {
    if n > 0 {
      var v := u.(lockedUntil := Some(t + LOCKOUT));
      var rest := Bursts(t + LOCKOUT, n - 1);
      BoundIsReached(v, t + LOCKOUT, n - 1);
      var b := Attempt(t, t, false);
      assert Burst(t) == [b, b, b, b, b];
      WrongConcat(u, Burst(t), rest);
      FiveWrong(u, b, v);
    }
  }

  lemma {:induction false} WrongConcat(u: User, a: seq<Attempt>, b: seq<Attempt>)
    ensures Wrong(u, a + b) == Wrong(u, a) + Wrong(AfterAll(u, a), b)
    decreases |a|
  {
    if a == [] {
      assert a + b == b;
    } else {
      WrongConcat(After(u, a[0]), a[1..], b);
      assert (a + b)[1..] == a[1..] + b;
    }
  }

  lemma FiveWrong(u: User, b: Attempt, v: User)
    requires u.active && u.failedLogins == 0 && !Locked(u, b.start) && !b.verifies && v == u.(lockedUntil := Some(b.end + LOCKOUT))
    ensures Wrong(u, [b, b, b, b, b]) == 5 && AfterAll(u, [b, b, b, b, b]) == v
  {
    var u1, u2, u3, u4 := u.(failedLogins := 1), u.(failedLogins := 2), u.(failedLogins := 3), u.(failedLogins := 4);
    assert [b, b, b, b, b][1..] == [b, b, b, b] && [b, b, b, b][1..] == [b, b, b] && [b, b, b][1..] == [b, b] && [b, b][1..] == [b] && [b][1..] == [];
    assert Wrong(u4, [b]) == 1 && AfterAll(u4, [b]) == v;
    assert Wrong(u3, [b, b]) == 2 && AfterAll(u3, [b, b]) == v;
    assert Wrong(u2, [b, b, b]) == 3 && AfterAll(u2, [b, b, b]) == v;
    assert Wrong(u1, [b, b, b, b]) == 4 && AfterAll(u1, [b, b, b, b]) == v;
  }
}
