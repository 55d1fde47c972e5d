/**
 Idempotent replay of requests (src/middleware/idempotency.rs).

 A row of `idempotency_keys` is a lock while its request runs and a cached response afterwards; it
 carries no owner. Claiming a key is a transaction of three statements, each seeing the rows committed
 when it starts, and `now()` inside it is the time the transaction began. The machine takes one
 statement per step and lets any number of requests interleave; `holder` records, for the proofs only,
 which request inserted a row.
 */
module Idempotency {
  import opened Wrappers

  type Time = int
  type Scope = string
  type RequestId = nat

  const MAX_CACHED_BODY := 1024 * 1024

  datatype Response = Response(status: nat, contentType: Option<string>, body: seq<bv8>)

  /** Only settled outcomes are stored: success or client error, with a body that fits. */
  predicate Settled(r: Response) {
    Answerable(r) && |r.body| <= MAX_CACHED_BODY
  }

  predicate Answerable(r: Response) {
    200 <= r.status < 300 || 400 <= r.status < 500
  }

  datatype KeyRow = KeyRow(expiresAt: Time, response: Option<Response>)

  datatype Claim = Fresh | InFlight | Replay(response: Response)

  /** Where a request stands. `Owner` inserted the row; `Rowless` came through the `None => Fresh` arm. */
  datatype Pc =
    | Begun(at: Time)
    | Deleted(at: Time)
    | Missed
    | Owner(expiresAt: Time)
    | Rowless
    | Answered(claim: Claim)
    | Done

  datatype Request = Request(scope: Scope, pc: Pc)

  datatype State = State(
    ttl: nat,
    now: Time,
    rows: map<Scope, KeyRow>,
    holder: map<Scope, RequestId>,
    requests: map<RequestId, Request>)

  datatype Event =
    | Arrive(q: RequestId, scope: Scope)
    | Delete(q: RequestId)
    | Insert(q: RequestId)
    | Select(q: RequestId)
    | Finish(q: RequestId, response: Response)
    | Crash(q: RequestId)
    | Expire(key: Scope)
    | Tick(delta: nat)

  predicate Running(s: State, q: RequestId) {
    q in s.requests && (s.requests[q].pc.Owner? || s.requests[q].pc.Rowless?)
  }

  predicate Owns(s: State, q: RequestId, scope: Scope) {
    q in s.requests && s.requests[q].scope == scope && s.requests[q].pc.Owner?
  }

  predicate Enabled(s: State, e: Event) {
    match e
    case Arrive(q, _) => q !in s.requests
    case Delete(q) => q in s.requests && s.requests[q].pc.Begun?
    case Insert(q) => q in s.requests && s.requests[q].pc.Deleted?
    case Select(q) => q in s.requests && s.requests[q].pc.Missed?
    case Finish(q, _) => Running(s, q)
    case Crash(q) => q in s.requests
    case Expire(key) => key in s.rows && s.rows[key].expiresAt <= s.now
    case Tick(_) => true
  }

  function At(s: State, q: RequestId, pc: Pc): State
    requires q in s.requests
  {
    s.(requests := s.requests[q := s.requests[q].(pc := pc)])
  }

  function Without(rows: map<Scope, KeyRow>, scope: Scope): map<Scope, KeyRow> {
    map x | x in rows && x != scope :: rows[x]
  }

  function Stored(rows: map<Scope, KeyRow>, scope: Scope, r: Response): map<Scope, KeyRow> {
    if scope in rows then rows[scope := rows[scope].(response := Some(r))] else rows
  }

  /** What the SELECT of a claim that lost the insert concludes. */
  function Existing(rows: map<Scope, KeyRow>, scope: Scope): Pc {
    if scope !in rows then Rowless
    else if rows[scope].response.Some? then Answered(Replay(rows[scope].response.value))
    else Answered(InFlight)
  }

  function Apply(s: State, e: Event): State
    requires Enabled(s, e)
  {
    match e
    case Arrive(q, scope) => s.(requests := s.requests[q := Request(scope, Begun(s.now))])
    case Delete(q) =>
      var scope, at := s.requests[q].scope, s.requests[q].pc.at;
      At(s, q, Deleted(at)).(
        rows := if scope in s.rows && s.rows[scope].expiresAt <= at then Without(s.rows, scope) else s.rows)
    case Insert(q) =>
      var scope, at := s.requests[q].scope, s.requests[q].pc.at;
      if scope in s.rows then At(s, q, Missed)
      else
        At(s, q, Owner(at + s.ttl)).(
          rows := s.rows[scope := KeyRow(at + s.ttl, None)],
          holder := s.holder[scope := q])
    case Select(q) => At(s, q, Existing(s.rows, s.requests[q].scope))
    case Finish(q, r) =>
      var scope := s.requests[q].scope;
      At(s, q, Done).(rows := if Settled(r) then Stored(s.rows, scope, r) else Without(s.rows, scope))
    case Crash(q) => At(s, q, Done)
    case Expire(key) => s.(rows := Without(s.rows, key))
    case Tick(delta) => s.(now := s.now + delta)
  }

  ghost predicate Run(ss: seq<State>, es: seq<Event>) {
    && |ss| == |es| + 1
    && ss[0].rows == map[] && ss[0].requests == map[]
    && forall i {:trigger es[i]} :: 0 <= i < |es| ==> Enabled(ss[i], es[i]) && ss[i + 1] == Apply(ss[i], es[i])
  }

  /** Every execution that holds a row finishes before that row expires. */
  ghost predicate Timely(s: State) {
    forall q :: q in s.requests && s.requests[q].pc.Owner? ==> s.now < s.requests[q].pc.expiresAt
  }

  ghost predicate TimelyRun(ss: seq<State>, es: seq<Event>) {
    Run(ss, es) && forall i :: 0 <= i < |ss| ==> Timely(ss[i])
  }

  // -- exclusion --------------------------------------------------------------------

  /** Transactions began in the past. */
  ghost predicate PastStarts(s: State) {
    && (forall q :: q in s.requests && s.requests[q].pc.Begun? ==> s.requests[q].pc.at <= s.now)
    && (forall q :: q in s.requests && s.requests[q].pc.Deleted? ==> s.requests[q].pc.at <= s.now)
  }

  lemma PastStartsKept(s: State, e: Event)
    requires PastStarts(s) && Enabled(s, e)
    ensures PastStarts(Apply(s, e))
  {
  }

  lemma {:induction false} RunPastStarts(ss: seq<State>, es: seq<Event>, i: nat)
    requires Run(ss, es) && i < |ss|
    ensures PastStarts(ss[i])
  {
    if i > 0 {
      RunPastStarts(ss, es, i - 1);
      PastStartsKept(ss[i - 1], es[i - 1]);
    }
  }

  /** Every running owner of `scope` still has the row it inserted. */
  ghost predicate Guarded(s: State, scope: Scope) {
    forall q :: Owns(s, q, scope) ==>
      && scope in s.rows && scope in s.holder && s.holder[scope] == q
      && s.rows[scope].expiresAt == s.requests[q].pc.expiresAt
  }

  /** A rowless execution that fails deletes the row of an owner that is still running. */
  ghost predicate StrayRelease(s: State, e: Event, scope: Scope) {
    && e.Finish? && Enabled(s, e) && s.requests[e.q].pc.Rowless? && s.requests[e.q].scope == scope
    && !Settled(e.response)
    && exists p :: Owns(s, p, scope)
  }

  function Actor(e: Event): Option<RequestId> {
    match e
    case Expire(_) => None
    case Tick(_) => None
    case _ => Some(e.q)
  }

  /** One step keeps every running owner's row exactly when it is not a stray release. */
  lemma GuardKeptIff(s: State, e: Event, scope: Scope)
    requires PastStarts(s) && Timely(s) && Guarded(s, scope) && Enabled(s, e)
    ensures Guarded(Apply(s, e), scope) <==> !StrayRelease(s, e, scope)
  {
    var s' := Apply(s, e);
    if StrayRelease(s, e, scope) {
      var p :| Owns(s, p, scope);
      assert Owns(s', p, scope);
    } else {
      forall p | Owns(s', p, scope)
        ensures scope in s'.rows && scope in s'.holder && s'.holder[scope] == p
        ensures s'.rows[scope].expiresAt == s'.requests[p].pc.expiresAt
      {
        if Actor(e) == Some(p) {
          assert e.Insert?;
        } else {
          assert s'.requests[p] == s.requests[p] && Owns(s, p, scope);
        }
      }
    }
  }

  lemma {:induction false} RunGuarded(ss: seq<State>, es: seq<Event>, i: nat, scope: Scope)
    requires TimelyRun(ss, es) && i < |ss|
    requires forall k {:trigger es[k]} :: 0 <= k < i ==> !StrayRelease(ss[k], es[k], scope)
    ensures Guarded(ss[i], scope)
  {
    if i > 0 {
      RunGuarded(ss, es, i - 1, scope);
      RunPastStarts(ss, es, i - 1);
      GuardKeptIff(ss[i - 1], es[i - 1], scope);
    }
  }

  /**
   Exclusion: with handlers inside the TTL and no stray release so far, two executions of one scope
   overlap only if one of them came through the `None => Fresh` arm.
   */
  lemma OverlapNeedsRowless(ss: seq<State>, es: seq<Event>, i: nat, p: RequestId, q: RequestId)
    requires TimelyRun(ss, es) && i < |ss|
    requires Running(ss[i], p) && Running(ss[i], q) && p != q
    requires ss[i].requests[p].scope == ss[i].requests[q].scope
    requires forall k {:trigger es[k]} :: 0 <= k < i ==> !StrayRelease(ss[k], es[k], ss[i].requests[p].scope)
    ensures ss[i].requests[p].pc.Rowless? || ss[i].requests[q].pc.Rowless?
  {
    var scope := ss[i].requests[p].scope;
    RunGuarded(ss, es, i, scope);
    if ss[i].requests[p].pc.Owner? && ss[i].requests[q].pc.Owner? {
      assert Owns(ss[i], p, scope) && Owns(ss[i], q, scope);
    }
  }

  /** The hypothesis is needed: right after a stray release, the next claim overlaps the robbed owner. */
  lemma StrayReleaseBreaksExclusion(s: State, e: Event, scope: Scope, p: RequestId, q: RequestId)
    requires StrayRelease(s, e, scope) && Owns(s, p, scope) && q !in s.requests
    ensures var s1 := Apply(s, e);
      var s2 := Apply(s1, Arrive(q, scope));
      var s3 := Apply(s2, Delete(q));
      Enabled(s3, Insert(q)) && Owns(Apply(s3, Insert(q)), p, scope) && Owns(Apply(s3, Insert(q)), q, scope)
  {
  }

  /**
   A whole run in which it happens: request 1 misses the row of 0, finds it released and runs without
   one; 2 inserts; 1 fails and releases the row of 2; 3 inserts. Requests 2 and 3 overlap, and
   neither came through the `None => Fresh` arm.
   */
  lemma OwnersCanOverlap(scope: Scope, failure: Response, ttl: nat) returns (ss: seq<State>, es: seq<Event>)
    requires !Settled(failure) && ttl > 0
    ensures TimelyRun(ss, es)
    ensures var s := ss[|ss| - 1]; Owns(s, 2, scope) && Owns(s, 3, scope)
  {
    ss, es := RowlessRuns(scope, failure, ttl);
    ss, es := ClaimNext(ss, es, 2, scope);
    ss, es := Then(ss, es, Finish(1, failure));
    ss, es := ClaimNext(ss, es, 3, scope);
  }

  /** Request 1 runs without a row, in an empty table. */
  lemma RowlessRuns(scope: Scope, failure: Response, ttl: nat) returns (ss: seq<State>, es: seq<Event>)
    requires !Settled(failure) && ttl > 0
    ensures TimelyRun(ss, es)
    ensures var s := ss[|ss| - 1];
      && s.ttl == ttl && s.now == 0 && s.rows == map[]
      && s.requests == map[0 := Request(scope, Done), 1 := Request(scope, Rowless)]
  {
    ss, es := OneMisses(scope, ttl);
    ss, es := Then(ss, es, Finish(0, failure));
    ss, es := Then(ss, es, Select(1));
  }

  lemma OneMisses(scope: Scope, ttl: nat) returns (ss: seq<State>, es: seq<Event>)
    requires ttl > 0
    ensures TimelyRun(ss, es)
    ensures var s := ss[|ss| - 1];
      && s.ttl == ttl && s.now == 0 && s.rows == map[scope := KeyRow(ttl, None)]
      && s.requests == map[0 := Request(scope, Owner(ttl)), 1 := Request(scope, Missed)]
  {
    es := [];
    ss := [State(ttl, 0, map[], map[], map[])];
    ss, es := ClaimNext(ss, es, 0, scope);
    ss, es := ClaimNext(ss, es, 1, scope);
  }

  lemma Then(ss: seq<State>, es: seq<Event>, e: Event) returns (ss': seq<State>, es': seq<Event>)
    requires TimelyRun(ss, es) && Enabled(ss[|ss| - 1], e) && Timely(Apply(ss[|ss| - 1], e))
    ensures TimelyRun(ss', es') && |ss'| == |ss| + 1 && ss'[|ss|] == Apply(ss[|ss| - 1], e)
  {
    ss', es' := ss + [Apply(ss[|ss| - 1], e)], es + [e];
  }

  /** The three statements that claim a key before anything else happens. */
  function Claimed(s: State, q: RequestId, scope: Scope): State
    requires q !in s.requests
  {
    Apply(Apply(Apply(s, Arrive(q, scope)), Delete(q)), Insert(q))
  }

  lemma ClaimNext(ss: seq<State>, es: seq<Event>, q: RequestId, scope: Scope) returns (ss': seq<State>, es': seq<Event>)
    requires TimelyRun(ss, es) && q !in ss[|ss| - 1].requests && ss[|ss| - 1].ttl > 0
    ensures TimelyRun(ss', es') && |ss'| == |ss| + 3 && ss'[|ss'| - 1] == Claimed(ss[|ss| - 1], q, scope)
  {
    ss', es' := Then(ss, es, Arrive(q, scope));
    ss', es' := Then(ss', es', Delete(q));
    ss', es' := Then(ss', es', Insert(q));
  }

  /** The arm without a row is taken only if the row vanished between the failed insert and the select. */
  lemma RowlessMeansRemoved(ss: seq<State>, es: seq<Event>, k: nat, i: nat, q: RequestId) returns (m: nat)
    requires Run(ss, es) && k < i < |es|
    requires es[k] == Insert(q) && ss[k + 1].requests[q].pc.Missed?
    requires es[i] == Select(q) && ss[i].requests[q].scope == ss[k].requests[q].scope
    requires ss[i + 1].requests[q].pc.Rowless?
    ensures k < m < i && ss[k].requests[q].scope in ss[m].rows && ss[k].requests[q].scope !in ss[m + 1].rows
  {
    m := i;
    while ss[k].requests[q].scope !in ss[m].rows
      invariant k < m <= i
      invariant m == i || ss[k].requests[q].scope !in ss[m + 1].rows
      decreases m
    {
      m := m - 1;
    }
  }

  // -- replay -----------------------------------------------------------------------

  ghost predicate NoRowless(s: State, scope: Scope) {
    forall q :: q in s.requests && s.requests[q].scope == scope ==> !s.requests[q].pc.Rowless?
  }

  /** While an owner of `scope` runs its row is unanswered, so an answered row has no owner running. */
  ghost predicate Unanswered(s: State, scope: Scope) {
    forall q :: Owns(s, q, scope) ==> scope in s.rows && s.rows[scope].response.None?
  }

  lemma {:induction false} RunUnanswered(ss: seq<State>, es: seq<Event>, i: nat, scope: Scope)
    requires TimelyRun(ss, es) && i < |ss|
    requires forall k :: 0 <= k <= i ==> NoRowless(ss[k], scope)
    ensures Guarded(ss[i], scope) && Unanswered(ss[i], scope)
  {
    if i > 0 {
      RunUnanswered(ss, es, i - 1, scope);
      RunPastStarts(ss, es, i - 1);
      var s, e, s' := ss[i - 1], es[i - 1], ss[i];
      assert NoRowless(s, scope);
      GuardKeptIff(s, e, scope);
      forall p | Owns(s', p, scope) ensures scope in s'.rows && s'.rows[scope].response.None? {
        if Actor(e) != Some(p) {
          assert s'.requests[p] == s.requests[p] && Owns(s, p, scope);
        }
      }
    }
  }

  /** With the insert and the select of every claim back to back, nobody ever runs without a row. */
  lemma {:induction false} AtomicClaimsOwnTheirRow(ss: seq<State>, es: seq<Event>, i: nat, scope: Scope)
    requires Run(ss, es) && i < |ss|
    requires forall k :: 0 <= k < |es| && es[k].Select? ==> k > 0 && es[k - 1] == Insert(es[k].q)
    ensures NoRowless(ss[i], scope)
  {
    if i > 0 {
      AtomicClaimsOwnTheirRow(ss, es, i - 1, scope);
      var e := es[i - 1];
      if e.Select? {
        var before := es[i - 2];
        assert ss[i - 1] == Apply(ss[i - 2], before);
      }
    }
  }

  /**
   Once a settled response is stored, then until its row expires every claim of the same scope misses
   the insert and is answered with that very response, and nothing of that scope is executed.
   */
  lemma {:induction false} StoredResponseIsReplayed(ss: seq<State>, es: seq<Event>, i: nat, j: nat, scope: Scope)
    requires TimelyRun(ss, es) && i <= j < |ss|
    requires forall k :: 0 <= k <= j ==> NoRowless(ss[k], scope)
    requires scope in ss[i].rows && ss[i].rows[scope].response.Some? && ss[j].now < ss[i].rows[scope].expiresAt
    ensures scope in ss[j].rows && ss[j].rows[scope] == ss[i].rows[scope]
    ensures forall q :: Running(ss[j], q) ==> ss[j].requests[q].scope != scope
    ensures j < |es| && es[j].Insert? && ss[j].requests[es[j].q].scope == scope ==>
        ss[j + 1].requests[es[j].q].pc.Missed?
    ensures j < |es| && es[j].Select? && ss[j].requests[es[j].q].scope == scope ==>
              ss[j + 1].requests[es[j].q].pc == Answered(Replay(ss[i].rows[scope].response.value))
  {
    if i < j {
      var e := es[j - 1];
      assert ss[j] == Apply(ss[j - 1], e);
      assert ss[j - 1].now <= ss[j].now;
      StoredResponseIsReplayed(ss, es, i, j - 1, scope);
      RunPastStarts(ss, es, j - 1);
    }
    RunUnanswered(ss, es, j, scope);
    forall q | Running(ss[j], q) ensures ss[j].requests[q].scope != scope {
      if ss[j].requests[q].scope == scope {
        assert NoRowless(ss[j], scope);
        assert Owns(ss[j], q, scope);
      }
    }
  }

  /** A replayed response is one that an execution of the same scope produced earlier, and it was settled. */
  lemma {:induction false} ReplaysARealAnswer(ss: seq<State>, es: seq<Event>, i: nat, scope: Scope) returns (k: nat)
    requires Run(ss, es) && i < |ss|
    requires scope in ss[i].rows && ss[i].rows[scope].response.Some?
    ensures k < i && es[k].Finish? && es[k].response == ss[i].rows[scope].response.value
    ensures Settled(es[k].response)
    ensures es[k].q in ss[k].requests && ss[k].requests[es[k].q].scope == scope
  {
    var e := es[i - 1];
    assert ss[i] == Apply(ss[i - 1], e);
    if scope in ss[i - 1].rows && ss[i - 1].rows[scope].response == ss[i].rows[scope].response {
      k := ReplaysARealAnswer(ss, es, i - 1, scope);
    } else {
      k := i - 1;
    }
  }

  /** What finishing does to the store, in numbers: success and client errors are kept, everything else is released. */
  lemma FinishSettles(s: State, q: RequestId, r: Response)
    requires Running(s, q)
    ensures Enabled(s, Finish(q, r))
    ensures var scope, after := s.requests[q].scope, Apply(s, Finish(q, r)).rows;
      && (forall x :: x != scope ==> (x in after <==> x in s.rows) && (x in after ==> after[x] == s.rows[x]))
      && (if (r.status / 100 == 2 || r.status / 100 == 4) && |r.body| <= 1_048_576
          then (scope in after <==> scope in s.rows)
               && (scope in after ==> after[scope] == KeyRow(s.rows[scope].expiresAt, Some(r)))
          else scope !in after)
  {
  }

  // -- the middleware -----------------------------------------------------------------

  /** What a request is told: the handler's response, a stored one, a conflict, or a buffering failure. */
  datatype Reply = Handled(response: Response) | Replayed(response: Response) | Conflict | TooLarge

  predicate LiveAt(rows: map<Scope, KeyRow>, scope: Scope, now: Time) {
    scope in rows && now < rows[scope].expiresAt
  }

  /** The `idempotency_keys` table; each method is one transaction. */
  class KeyStore {
    const ttl: nat
    var rows: map<Scope, KeyRow>
    var now: Time

    constructor (ttl: nat, now: Time)
      ensures this.ttl == ttl && this.now == now && rows == map[]
    {
      this.ttl, this.now, rows := ttl, now, map[];
    }

    method ClaimKey(scope: Scope) returns (claim: Claim)
      modifies this`rows
      ensures claim.Fresh? <==> !LiveAt(old(rows), scope, now)
      ensures claim.Fresh? ==> rows == old(rows)[scope := KeyRow(now + ttl, None)]
      ensures !claim.Fresh? ==> rows == old(rows)
      ensures claim.InFlight? <==> LiveAt(old(rows), scope, now) && old(rows)[scope].response.None?
      ensures claim.Replay? ==> old(rows)[scope].response == Some(claim.response)
    {
      if scope in rows && rows[scope].expiresAt <= now {
        rows := Without(rows, scope);
      }
      if scope !in rows {
        rows := rows[scope := KeyRow(now + ttl, None)];
        claim := Fresh;
      } else {
        match rows[scope].response
        case Some(r) => claim := Replay(r);
        case None => claim := InFlight;
      }
    }

    method CompleteKey(scope: Scope, response: Response)
      modifies this`rows
      ensures rows.Keys == old(rows).Keys
      ensures scope in rows ==> rows[scope] == old(rows)[scope].(response := Some(response))
      ensures forall x :: x in rows && x != scope ==> rows[x] == old(rows)[x]
    {
      if scope in rows {
        rows := rows[scope := rows[scope].(response := Some(response))];
      }
    }

    method ReleaseKey(scope: Scope)
      modifies this`rows
      ensures rows == old(rows) - {scope}
    {
      rows := map x | x in rows && x != scope :: rows[x];
    }

    /**
     `idempotency_guard` with nobody else running. The handler runs exactly when no live row exists,
     and what it answers is what every later call with this scope is told until the row expires;
     `answer` is what the handler produces if it runs.
     */
    method Guard(scope: Scope, answer: Response) returns (reply: Reply)
      requires ttl > 0
      modifies this`rows
      ensures (reply.Handled? || reply.TooLarge?) <==> !LiveAt(old(rows), scope, now)
      ensures reply.Handled? ==> reply.response == answer
      ensures reply.TooLarge? <==> !LiveAt(old(rows), scope, now) && Answerable(answer) && !Settled(answer)
      ensures !LiveAt(old(rows), scope, now) ==>
                rows == if Settled(answer) then old(rows)[scope := KeyRow(now + ttl, Some(answer))]
                        else old(rows) - {scope}
      ensures LiveAt(old(rows), scope, now) ==> rows == old(rows)
      ensures reply.Replayed? <==> LiveAt(old(rows), scope, now) && old(rows)[scope].response.Some?
      ensures reply.Replayed? ==> old(rows)[scope].response == Some(reply.response)
      ensures !(scope in old(rows) && now < old(rows)[scope].expiresAt) ==>
                if answer.status / 100 !in {2, 4} then reply == Handled(answer) && rows == old(rows) - {scope}
                else if |answer.body| > 1_048_576 then reply == TooLarge && rows == old(rows) - {scope}
                else reply == Handled(answer) && rows == old(rows)[scope := KeyRow(now + ttl, Some(answer))]
    {
      var claim := ClaimKey(scope);
      match claim
      case Replay(r) => return Replayed(r);
      case InFlight => return Conflict;
      case Fresh =>
        if !Answerable(answer) {
          ReleaseKey(scope);
          return Handled(answer);
        }
        if |answer.body| > MAX_CACHED_BODY {
          ReleaseKey(scope);
          return TooLarge;
        }
        CompleteKey(scope, answer);
        return Handled(answer);
    }
  }
}
