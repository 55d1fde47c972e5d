/**
 The lockout with sign-ins in flight together (src/services/auth.rs, sign_in_email and register_failed_login).

 A sign-in reads the lock in one statement and registers a failure in another, and in between others may do the
 same. A step is one of the two statements, or a sign-in leaving for any other reason. At most `cap` sign-ins to
 the account are in flight at a time; with one, these are the atomic sign-ins of the module `Lockout`.
 */
module LockoutRace {
  import opened Wrappers
  import opened Lockout

  type SignInId = nat

  /** The account's counters, and the lock that each sign-in in flight has read. */
  datatype State = State(counters: Counters, flying: map<SignInId, Option<Time>>)

  datatype Step =
    | Read(a: SignInId, at: Time)
    | Fail(a: SignInId, at: Time)
    | Leave(a: SignInId, at: Time)

  datatype Limits = Limits(threshold: int, lockout: int, cap: nat)

  predicate Sane(l: Limits) {
    l.lockout > 0 && l.cap > 0
  }

  /** A lock that was read holds its reader back until it runs out. */
  predicate Passes(lock: Option<Time>, at: Time) {
    lock.Some? ==> lock.value <= at
  }

  predicate Enabled(s: State, e: Step, l: Limits) {
    match e
    case Read(a, _) => a !in s.flying && |s.flying| < l.cap
    case Fail(a, at) => a in s.flying && Passes(s.flying[a], at)
    case Leave(a, _) => a in s.flying
  }

  function Without(flying: map<SignInId, Option<Time>>, a: SignInId): map<SignInId, Option<Time>> {
    map x | x in flying && x != a :: flying[x]
  }

  function Apply(s: State, e: Step, l: Limits): State {
    match e
    case Read(a, _) => s.(flying := s.flying[a := s.counters.lockedUntil])
    case Fail(a, at) => State(AfterFailure(s.counters, at, l.threshold, l.lockout), Without(s.flying, a))
    case Leave(a, _) => s.(flying := Without(s.flying, a))
  }

  predicate Legal(s: State, es: seq<Step>, from: Time, to: Time, l: Limits)
    decreases |es|
  {
    es == [] ||
    (from <= es[0].at <= to && Enabled(s, es[0], l) && Legal(Apply(s, es[0], l), es[1..], es[0].at, to, l))
  }

  function Fails(es: seq<Step>): nat {
    if es == [] then 0 else (if es[0].Fail? then 1 else 0) + Fails(es[1..])
  }

  // -- the bound -----------------------------------------------------------------------------------

  /** The sign-ins in flight that can still fail before `until`. */
  function Pending(s: State, until: Time): set<SignInId> {
    set a | a in s.flying && Passes(s.flying[a], until - 1)
  }

  lemma FlightsAfter(s: State, e: Step, l: Limits)
    requires Enabled(s, e, l) && |s.flying| <= l.cap
    ensures |Apply(s, e, l).flying| <= l.cap
    ensures e.Fail? ==> |Apply(s, e, l).flying| <= l.cap - 1
  {
    if e.Read? {
      assert Apply(s, e, l).flying.Keys == s.flying.Keys + {e.a};
    } else {
      assert Apply(s, e, l).flying.Keys == s.flying.Keys - {e.a};
    }
  }

  lemma PendingWithin(s: State, until: Time)
    ensures |Pending(s, until)| <= |s.flying|
  {
    SubsetSize(Pending(s, until), s.flying.Keys);
  }

  /** While the account is locked until `until` or longer, nobody joins those who can fail before, each of them once. */
  lemma PendingAfter(s: State, e: Step, until: Time, l: Limits)
    requires Enabled(s, e, l) && s.counters.lockedUntil.Some? && s.counters.lockedUntil.value >= until
    ensures |Pending(Apply(s, e, l), until)| <= |Pending(s, until)|
    ensures e.Fail? && e.at < until ==> |Pending(Apply(s, e, l), until)| + 1 <= |Pending(s, until)|
  {
    var p, q := Pending(s, until), Pending(Apply(s, e, l), until);
    assert q <= p;
    SubsetSize(q, p);
    if e.Fail? && e.at < until {
      assert e.a in p && e.a !in q;
      SubsetSize(q, p - {e.a});
    }
  }

  /** From the moment `start` of a failure that locked the account: those in flight, and then one wave per lockout. */
  lemma {:induction false} FailuresSinceLock(s: State, es: seq<Step>, start: Time, from: Time, to: Time, l: Limits)
    requires Sane(l) && start <= from && start <= to && Legal(s, es, from, to, l)
    requires |s.flying| <= l.cap && s.counters.failed >= l.threshold
    requires s.counters.lockedUntil.Some? && s.counters.lockedUntil.value >= start + l.lockout
    ensures Fails(es) <= |Pending(s, start + l.lockout)| + l.cap * ((to - start) / l.lockout)
    decreases |es|
  {
    QuotientGrows(0, to - start, l.lockout);
    if es == [] {
      MulGrows(l.cap, 0, (to - start) / l.lockout);
    } else {
      var e := es[0];
      var s' := Apply(s, e, l);
      FlightsAfter(s, e, l);
      PendingAfter(s, e, start + l.lockout, l);
      if e.Fail? && e.at >= start + l.lockout {
        FailuresSinceLock(s', es[1..], e.at, e.at, to, l);
        PendingWithin(s', e.at + l.lockout);
        NextWave(to - start, to - e.at, l);
      } else {
        FailuresSinceLock(s', es[1..], start, e.at, to, l);
      }
    }
  }

  lemma NextWave(before: int, after: int, l: Limits)
    requires Sane(l) && after <= before - l.lockout
    ensures l.cap + l.cap * (after / l.lockout) <= l.cap * (before / l.lockout)
  {
    QuotientStep(before, l.lockout);
    QuotientGrows(after, before - l.lockout, l.lockout);
    MulGrows(l.cap, after / l.lockout + 1, before / l.lockout);
    assert l.cap * (after / l.lockout + 1) == l.cap * (after / l.lockout) + l.cap;
  }

  /** One wave of `cap` failures at once, and one for each lockout that fits. */
  function Waves(span: int, l: Limits): int
    requires l.lockout > 0
  {
    l.cap * (1 + span / l.lockout)
  }

  lemma WavesGrow(a: int, b: int, l: Limits)
    requires Sane(l) && 0 <= a <= b
    ensures 0 <= Waves(a, l) <= Waves(b, l)
  {
    QuotientGrows(0, a, l.lockout);
    QuotientGrows(a, b, l.lockout);
    MulGrows(l.cap, 0, 1 + a / l.lockout);
    MulGrows(l.cap, 1 + a / l.lockout, 1 + b / l.lockout);
  }

  /** Failures before the first lock, and then the waves. */
  function Bound(failed: nat, span: int, l: Limits): int
    requires l.lockout > 0
  {
    Max(0, Max(1, l.threshold) - 1 - failed) + Waves(span, l)
  }

  /** A failure that locks the account is part of the first wave. */
  lemma FirstLock(s: State, es: seq<Step>, to: Time, l: Limits)
    requires Sane(l) && es != [] && Legal(s, es, es[0].at, to, l) && |s.flying| <= l.cap
    requires es[0].Fail? && s.counters.failed + 1 >= l.threshold
    ensures Fails(es) <= Waves(to - es[0].at, l)
  {
    var e := es[0];
    var s' := Apply(s, e, l);
    FlightsAfter(s, e, l);
    FailuresSinceLock(s', es[1..], e.at, e.at, to, l);
    PendingWithin(s', e.at + l.lockout);
    assert Waves(to - e.at, l) == l.cap + l.cap * ((to - e.at) / l.lockout);
  }

  /**
   Lockout bound, concurrently: in any window of length `to - from` without a reset, with at most `cap` sign-ins in
   flight at a time, an account sees at most `max(1, threshold) - 1 + cap * (1 + (to - from) / lockout)` failed
   password verifications, whatever happened before the window, and however the statements interleave.
   */
  lemma {:induction false} ConcurrentLockoutBound(s: State, es: seq<Step>, from: Time, to: Time, l: Limits)
    requires Sane(l) && from <= to && Legal(s, es, from, to, l) && |s.flying| <= l.cap
    ensures Fails(es) <= Bound(s.counters.failed, to - from, l) <= Bound(0, to - from, l)
    decreases |es|
  {
    WavesGrow(0, to - from, l);
    if es != [] {
      var e := es[0];
      WavesGrow(to - e.at, to - from, l);
      if e.Fail? && s.counters.failed + 1 >= l.threshold {
        FirstLock(s, es, to, l);
      } else {
        FlightsAfter(s, e, l);
        ConcurrentLockoutBound(Apply(s, e, l), es[1..], e.at, to, l);
      }
    }
  }

  // -- the bound is reached --------------------------------------------------------------------------

  /** Sign-ins 0 to n - 1 are in flight, free to fail at `at`. */
  ghost predicate Flying(s: State, n: nat, at: Time) {
    && (forall a: SignInId :: a in s.flying <==> a < n)
    && (forall a :: a in s.flying ==> Passes(s.flying[a], at))
  }

  lemma {:induction false} Count(flying: map<SignInId, Option<Time>>, n: nat)
    requires forall a: SignInId :: a in flying <==> a < n
    ensures |flying| == n
  {
    if n == 0 {
      assert flying.Keys == {};
    } else {
      Count(Without(flying, n - 1), n - 1);
      assert Without(flying, n - 1).Keys == flying.Keys - {n - 1};
    }
  }

  lemma Then(s: State, e: Step, rest: seq<Step>, from: Time, to: Time, l: Limits)
    requires from <= e.at <= to && Enabled(s, e, l) && Legal(Apply(s, e, l), rest, e.at, to, l)
    ensures Legal(s, [e] + rest, from, to, l)
    ensures Fails([e] + rest) == (if e.Fail? then 1 else 0) + Fails(rest)
  {
    assert ([e] + rest)[1..] == rest;
  }

  /** The wave at `at` fails one by one, then k more waves come, one each time the lock runs out. */
  lemma {:induction false} DrainWave(s: State, n: nat, k: nat, from: Time, at: Time, to: Time, l: Limits)
      returns (es: seq<Step>)
    requires Sane(l) && Flying(s, n, at) && from <= at <= to && at + k * l.lockout <= to
    requires s.counters.failed + 1 >= l.threshold && Passes(s.counters.lockedUntil, at + l.lockout)
    ensures Legal(s, es, from, to, l) && Fails(es) == n + l.cap * k
    decreases k, 0, n
  {
    if n > 0 {
      var e := Fail(n - 1, at);
      es := DrainWave(Apply(s, e, l), n - 1, k, at, at, to, l);
      Then(s, e, es, from, to, l);
      es := [e] + es;
    } else if k > 0 {
      assert at + k * l.lockout == at + l.lockout + (k - 1) * l.lockout;
      MulGrows(l.lockout, 0, k - 1);
      es := FillWave(s, 0, k - 1, from, at + l.lockout, to, l);
      assert l.cap + l.cap * (k - 1) == l.cap * k;
    } else {
      es := [];
    }
  }

  lemma {:induction false} FillWave(s: State, n: nat, k: nat, from: Time, at: Time, to: Time, l: Limits)
      returns (es: seq<Step>)
    requires Sane(l) && Flying(s, n, at) && n <= l.cap && from <= at <= to && at + k * l.lockout <= to
    requires s.counters.failed + 1 >= l.threshold && Passes(s.counters.lockedUntil, at)
    ensures Legal(s, es, from, to, l) && Fails(es) == l.cap + l.cap * k
    decreases k, 1, l.cap - n
  {
    if n < l.cap {
      Count(s.flying, n);
      var e := Read(n, at);
      es := FillWave(Apply(s, e, l), n + 1, k, at, at, to, l);
      Then(s, e, es, from, to, l);
      es := [e] + es;
    } else {
      es := DrainWave(s, n, k, from, at, to, l);
    }
  }

  lemma {:induction false} WarmUp(s: State, k: nat, to: Time, l: Limits) returns (es: seq<Step>)
    requires Sane(l) && s.flying == map[] && s.counters.lockedUntil == None && s.counters.failed < Max(1, l.threshold)
    requires 0 <= k * l.lockout <= to
    ensures Legal(s, es, 0, to, l)
    ensures Fails(es) == Max(1, l.threshold) - 1 - s.counters.failed + (l.cap + l.cap * k)
    decreases Max(1, l.threshold) - s.counters.failed
  {
    if s.counters.failed + 1 < l.threshold {
      var s1 := Apply(s, Read(0, 0), l);
      var s2 := Apply(s1, Fail(0, 0), l);
      es := WarmUp(s2, k, to, l);
      Then(s1, Fail(0, 0), es, 0, to, l);
      Then(s, Read(0, 0), [Fail(0, 0)] + es, 0, to, l);
      es := [Read(0, 0)] + ([Fail(0, 0)] + es);
    } else {
      es := FillWave(s, 0, k, 0, 0, to, l);
    }
  }

  /** No smaller bound holds: some interleaving against a fresh account reaches it exactly. */
  lemma ConcurrentBoundIsTight(span: nat, l: Limits) returns (es: seq<Step>)
    requires Sane(l)
    ensures Legal(State(Counters(0, None), map[]), es, 0, span, l)
    ensures Fails(es) == Bound(0, span, l)
  {
    var k := span / l.lockout;
    QuotientGrows(0, span, l.lockout);
    assert span == l.lockout * k + span % l.lockout;
    MulGrows(l.lockout, 0, k);
    es := WarmUp(State(Counters(0, None), map[]), k, span, l);
    assert l.cap * (1 + k) == l.cap + l.cap * k;
  }

  /** With one sign-in at a time this is the bound of atomic sign-ins. */
  lemma OneAtATime(span: nat, l: Limits)
    requires Sane(l) && l.cap == 1
    ensures Bound(0, span, l) == Max(1, l.threshold) + span / l.lockout
  {
  }
}
