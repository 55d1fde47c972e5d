/**
 Per-account lockout (src/services/auth.rs, sign_in_email and register_failed_login).

 Each sign-in is taken as one atomic step. The threshold may be any integer; the lockout is positive.
 */
module Lockout {
  import opened Wrappers

  type Time = int

  datatype Counters = Counters(failed: nat, lockedUntil: Option<Time>)

  datatype Attempt = Attempt(at: Time, correct: bool)

  datatype Verdict = NoSuchUser | Suspended | LockedOut | NoPassword | WrongPassword | SignedIn

  /** `register_failed_login`: the counter goes up, and from the threshold on the lock is renewed. */
  function AfterFailure(c: Counters, at: Time, threshold: int, lockout: int): Counters {
    Counters(c.failed + 1, if c.failed + 1 >= threshold then Some(at + lockout) else c.lockedUntil)
  }

  predicate LockedAt(c: Counters, at: Time) {
    c.lockedUntil.Some? && c.lockedUntil.value > at
  }

  /** A sign-in to a live account that has a password. */
  function Try(c: Counters, a: Attempt, threshold: int, lockout: int): (Counters, Verdict) {
    if LockedAt(c, a.at) then (c, LockedOut)
    else if a.correct then (Counters(0, None), SignedIn)
    else (AfterFailure(c, a.at, threshold, lockout), WrongPassword)
  }

  /** How many of the attempts have their password checked and found wrong. */
  function Failures(c: Counters, attempts: seq<Attempt>, threshold: int, lockout: int): nat
    decreases |attempts|
  {
    if attempts == [] then 0
    else
      var (next, verdict) := Try(c, attempts[0], threshold, lockout);
      (if verdict.WrongPassword? then 1 else 0) + Failures(next, attempts[1..], threshold, lockout)
  }

  predicate NoReset(c: Counters, attempts: seq<Attempt>, threshold: int, lockout: int)
    decreases |attempts|
  {
    attempts == [] ||
    (var (next, verdict) := Try(c, attempts[0], threshold, lockout);
     !verdict.SignedIn? && NoReset(next, attempts[1..], threshold, lockout))
  }

  predicate Within(attempts: seq<Attempt>, from: Time, to: Time) {
    attempts == [] || (from <= attempts[0].at <= to && Within(attempts[1..], attempts[0].at, to))
  }

  function Max(a: int, b: int): int {
    if a < b then b else a
  }

  lemma MulGrows(d: int, x: int, y: int)
    requires d >= 0 && x <= y
    ensures d * x <= d * y
  {
    assert d * y - d * x == d * (y - x);
  }

  lemma QuotientAtLeast(a: int, d: int, q: int)
    requires d > 0
    ensures a / d >= q <==> a >= d * q
  {
    assert a == d * (a / d) + a % d;
    if a / d >= q {
      MulGrows(d, q, a / d);
    } else {
      MulGrows(d, a / d + 1, q);
      assert d * (a / d + 1) == d * (a / d) + d;
    }
  }

  lemma QuotientGrows(a: int, b: int, d: int)
    requires a <= b && d > 0
    ensures a / d <= b / d
  {
    QuotientAtLeast(a, d, a / d);
    QuotientAtLeast(b, d, a / d);
  }

  lemma QuotientStep(a: int, d: int)
    requires d > 0
    ensures (a - d) / d == a / d - 1
  {
    var p, q := (a - d) / d, a / d;
    QuotientAtLeast(a, d, q);
    QuotientAtLeast(a - d, d, q - 1);
    assert d * (q - 1) == d * q - d;
    QuotientAtLeast(a - d, d, p);
    QuotientAtLeast(a, d, p + 1);
    assert d * (p + 1) == d * p + d;
  }

  /** The failures still possible until `to`, when the next attempt comes no earlier than `from`. */
  function Budget(c: Counters, from: Time, to: Time, threshold: int, lockout: int): int
    requires lockout > 0
  {
    if c.failed + 1 < threshold then threshold - c.failed + (to - from) / lockout
    else
      var start := if LockedAt(c, from) then c.lockedUntil.value else from;
      if start > to then 0 else 1 + (to - start) / lockout
  }

  lemma {:induction false} FailuresWithinBudget(c: Counters, attempts: seq<Attempt>, from: Time, to: Time,
      threshold: int, lockout: int)
    requires lockout > 0 && from <= to && Within(attempts, from, to) && NoReset(c, attempts, threshold, lockout)
    ensures Failures(c, attempts, threshold, lockout) <= Budget(c, from, to, threshold, lockout)
    decreases |attempts|
  {
    QuotientGrows(0, to - from, lockout);
    if attempts == [] {
      if LockedAt(c, from) && c.lockedUntil.value <= to {
        QuotientGrows(0, to - c.lockedUntil.value, lockout);
      }
    } else {
      var at := attempts[0].at;
      var next := Try(c, attempts[0], threshold, lockout).0;
      FailuresWithinBudget(next, attempts[1..], at, to, threshold, lockout);
      BudgetStep(c, attempts[0], from, to, threshold, lockout);
    }
  }

  lemma BudgetStep(c: Counters, a: Attempt, from: Time, to: Time, threshold: int, lockout: int)
    requires lockout > 0 && from <= a.at <= to
    ensures var (next, verdict) := Try(c, a, threshold, lockout);
      !verdict.SignedIn? ==>
        (if verdict.WrongPassword? then 1 else 0) + Budget(next, a.at, to, threshold, lockout)
        <= Budget(c, from, to, threshold, lockout)
  {
    var start := if LockedAt(c, from) then c.lockedUntil.value else from;
    QuotientGrows(to - a.at, to - from, lockout);
    if !LockedAt(c, a.at) && !a.correct {
      QuotientStep(to - a.at, lockout);
      QuotientGrows(0, to - a.at, lockout);
      if start <= a.at {
        QuotientGrows(to - a.at, to - start, lockout);
      }
    }
  }

  /**
   Lockout bound: in any window of length `span` without a reset, an account sees at most
   `max(1, threshold) + span / lockout` failed password verifications, whatever is attempted.
   */
  lemma LockoutBound(c: Counters, attempts: seq<Attempt>, from: Time, span: nat, threshold: int, lockout: int)
    requires lockout > 0 && Within(attempts, from, from + span) && NoReset(c, attempts, threshold, lockout)
    ensures Failures(c, attempts, threshold, lockout) <= Max(1, threshold) + span / lockout
  {
    FailuresWithinBudget(c, attempts, from, from + span, threshold, lockout);
    QuotientGrows(0, span, lockout);
    if LockedAt(c, from) && c.lockedUntil.value <= from + span {
      QuotientGrows(from + span - c.lockedUntil.value, span, lockout);
    }
  }

  // -- the bound is attained -----------------------------------------------------------------

  /** `n` wrong passwords at once. */
  function Burst(at: Time, n: nat): seq<Attempt>
    decreases n
  {
    if n == 0 then [] else [Attempt(at, false)] + Burst(at, n - 1)
  }

  /** `n` more, one each time a lock runs out. */
  function Drip(at: Time, n: nat, lockout: int): seq<Attempt>
    decreases n
  {
    if n == 0 then [] else [Attempt(at, false)] + Drip(at + lockout, n - 1, lockout)
  }

  /** All of the attempts fit the window, none signs in, and exactly n are verified and wrong. */
  predicate Suffers(c: Counters, attempts: seq<Attempt>, from: Time, to: Time, threshold: int, lockout: int, n: nat) {
    && Within(attempts, from, to) && NoReset(c, attempts, threshold, lockout)
    && Failures(c, attempts, threshold, lockout) == n
  }

  lemma OneMoreFailure(c: Counters, rest: seq<Attempt>, at: Time, to: Time, threshold: int, lockout: int, n: nat)
    requires !LockedAt(c, at) && at <= to
    requires Suffers(AfterFailure(c, at, threshold, lockout), rest, at, to, threshold, lockout, n)
    ensures Suffers(c, [Attempt(at, false)] + rest, at, to, threshold, lockout, n + 1)
  {
    assert ([Attempt(at, false)] + rest)[1..] == rest;
  }

  lemma {:induction false} DripFails(c: Counters, at: Time, n: nat, to: Time, threshold: int, lockout: int)
    requires lockout > 0 && c.failed + 1 >= threshold && !LockedAt(c, at)
    requires at + (n - 1) * lockout <= to
    ensures Suffers(c, Drip(at, n, lockout), at, to, threshold, lockout, n)
    decreases n
  {
    if n > 0 {
      var rest, next := Drip(at + lockout, n - 1, lockout), AfterFailure(c, at, threshold, lockout);
      assert at + (n - 1) * lockout == at + lockout + (n - 2) * lockout;
      assert at <= at + (n - 1) * lockout;
      DripFails(next, at + lockout, n - 1, to, threshold, lockout);
      EarlierStart(rest, at, at + lockout, to);
      OneMoreFailure(c, rest, at, to, threshold, lockout, n - 1);
    }
  }

  lemma EarlierStart(attempts: seq<Attempt>, from: Time, later: Time, to: Time)
    requires from <= later && Within(attempts, later, to)
    ensures Within(attempts, from, to)
  {
  }

  lemma {:induction false} WorstCase(c: Counters, at: Time, n: nat, k: nat, to: Time, threshold: int, lockout: int)
    requires lockout > 0 && n >= 1 && c.failed + n == Max(1, threshold) && !LockedAt(c, at)
    requires at + k * lockout <= to && at <= to
    ensures Suffers(c, Burst(at, n) + Drip(at + lockout, k, lockout), at, to, threshold, lockout, n + k)
    decreases n
  {
    var drip, next := Drip(at + lockout, k, lockout), AfterFailure(c, at, threshold, lockout);
    if n == 1 {
      assert at + lockout + (k - 1) * lockout == at + k * lockout;
      DripFails(next, at + lockout, k, to, threshold, lockout);
      EarlierStart(drip, at, at + lockout, to);
      assert Burst(at, 1) + drip == [Attempt(at, false)] + drip;
      OneMoreFailure(c, drip, at, to, threshold, lockout, k);
    } else {
      WorstCase(next, at, n - 1, k, to, threshold, lockout);
      assert Burst(at, n) + drip == [Attempt(at, false)] + (Burst(at, n - 1) + drip);
      OneMoreFailure(c, Burst(at, n - 1) + drip, at, to, threshold, lockout, n - 1 + k);
    }
  }

  /** No smaller bound holds: some attempts against a fresh account reach it exactly. */
  lemma LockoutBoundIsTight(span: nat, threshold: int, lockout: int) returns (attempts: seq<Attempt>)
    requires lockout > 0
    ensures Within(attempts, 0, span) && NoReset(Counters(0, None), attempts, threshold, lockout)
    ensures Failures(Counters(0, None), attempts, threshold, lockout) == Max(1, threshold) + span / lockout
  {
    var n, k := Max(1, threshold), span / lockout;
    QuotientGrows(0, span, lockout);
    assert k * lockout <= span by {
      assert span == lockout * k + span % lockout;
    }
    attempts := Burst(0, n) + Drip(lockout, k, lockout);
    WorstCase(Counters(0, None), 0, n, k, span, threshold, lockout);
  }

  // -- the service ----------------------------------------------------------------------------

  /** The columns of a user that sign-in reads and writes. */
  class Account {
    const threshold: int
    const lockout: int
    var live: bool
    var banned: bool
    var hasPassword: bool
    var failedLoginAttempts: nat
    var lockedUntil: Option<Time>

    constructor (threshold: int, lockout: int)
      ensures this.threshold == threshold && this.lockout == lockout
      ensures live && !banned && hasPassword && failedLoginAttempts == 0 && lockedUntil == None
    {
      this.threshold, this.lockout := threshold, lockout;
      live, banned, hasPassword, failedLoginAttempts, lockedUntil := true, false, true, 0, None;
    }

    method RegisterFailedLogin(now: Time)
      modifies this`failedLoginAttempts, this`lockedUntil
      ensures Counters(failedLoginAttempts, lockedUntil) ==
              AfterFailure(Counters(old(failedLoginAttempts), old(lockedUntil)), now, threshold, lockout)
      ensures failedLoginAttempts == old(failedLoginAttempts) + 1
      ensures lockedUntil == if failedLoginAttempts >= threshold then Some(now + lockout) else old(lockedUntil)
    {
      failedLoginAttempts := failedLoginAttempts + 1;
      if failedLoginAttempts >= threshold {
        lockedUntil := Some(now + lockout);
      }
    }

    /** The checks in the order the service makes them; only a verified attempt moves the counters. */
    method SignInEmail(now: Time, correct: bool) returns (verdict: Verdict)
      modifies this`failedLoginAttempts, this`lockedUntil
      ensures var before := Counters(old(failedLoginAttempts), old(lockedUntil));
        var after := Counters(failedLoginAttempts, lockedUntil);
        if live && !banned && hasPassword
        then (after, verdict) == Try(before, Attempt(now, correct), threshold, lockout)
        else after == before && verdict == (if !live then NoSuchUser else if banned then Suspended
                                            else if LockedAt(before, now) then LockedOut else NoPassword)
      ensures var locked := old(lockedUntil).Some? && now < old(lockedUntil).value;
        && (verdict.NoSuchUser? <==> !live)
        && (verdict.Suspended? <==> live && banned)
        && (verdict.LockedOut? <==> live && !banned && locked)
        && (verdict.NoPassword? <==> live && !banned && !locked && !hasPassword)
        && (verdict.WrongPassword? <==> live && !banned && !locked && hasPassword && !correct)
        && (verdict.SignedIn? <==> live && !banned && !locked && hasPassword && correct)
      ensures verdict.SignedIn? ==> failedLoginAttempts == 0 && lockedUntil == None
      ensures verdict.WrongPassword? ==> failedLoginAttempts == old(failedLoginAttempts) + 1
      ensures verdict.WrongPassword? ==>
                lockedUntil == if failedLoginAttempts >= threshold then Some(now + lockout) else old(lockedUntil)
      ensures !verdict.SignedIn? && !verdict.WrongPassword? ==>
                failedLoginAttempts == old(failedLoginAttempts) && lockedUntil == old(lockedUntil)
    {
      if !live {
        return NoSuchUser;
      }
      if banned {
        return Suspended;
      }
      if lockedUntil.Some? && lockedUntil.value > now {
        return LockedOut;
      }
      if !hasPassword {
        return NoPassword;
      }
      if !correct {
        RegisterFailedLogin(now);
        return WrongPassword;
      }
      failedLoginAttempts, lockedUntil := 0, None;
      return SignedIn;
    }
  }
}
