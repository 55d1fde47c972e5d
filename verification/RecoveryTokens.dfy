/**
 Recovery tokens: purpose-scoped and single use (src/services/auth.rs, issue_verification_token and
 consume_verification_token), with the hourly reaping of old rows (src/main.rs).

 Each transaction is one step. The log remembers every token ever issued or redeemed; it is the
 reference against which the table, which forgets, is measured.
 */
module RecoveryTokens {
  import opened Wrappers
  import Sessions

  type Time = int
  type Digest = Sessions.Digest

  const WEEK: int := 7 * 86_400 * 1_000_000

  datatype Purpose = EmailVerify | PasswordReset

  datatype Row = Row(identifier: string, purpose: Purpose, expiresAt: Time, consumed: bool)

  datatype Entry =
    | Issued(digest: Digest, identifier: string, purpose: Purpose, expiresAt: Time)
    | Redeemed(digest: Digest)

  datatype State = State(now: Time, rows: map<Digest, Row>, log: seq<Entry>)

  datatype Event =
    | Issue(identifier: string, purpose: Purpose, ttl: int, digest: Digest)
    | Consume(digest: Digest, purpose: Purpose)
    | Reap
    | Tick(delta: nat)

  ghost predicate IssuedAt(log: seq<Entry>, k: int, d: Digest) {
    0 <= k < |log| && log[k].Issued? && log[k].digest == d
  }

  ghost predicate Unused(log: seq<Entry>, d: Digest) {
    forall k :: !IssuedAt(log, k, d)
  }

  ghost predicate Enabled(s: State, e: Event) {
    e.Issue? ==> Unused(s.log, e.digest)
  }

  /** Whatever is outstanding for the same identifier and purpose is used up first. */
  function Superseded(rows: map<Digest, Row>, identifier: string, purpose: Purpose): map<Digest, Row> {
    map d | d in rows ::
      if rows[d].identifier == identifier && rows[d].purpose == purpose then rows[d].(consumed := true) else rows[d]
  }

  /** The identifier returned by the consuming UPDATE, if a row matches. */
  function Result(s: State, d: Digest, purpose: Purpose): Option<string> {
    if d in s.rows && s.rows[d].purpose == purpose && !s.rows[d].consumed && s.rows[d].expiresAt > s.now
    then Some(s.rows[d].identifier) else None
  }

  function Apply(s: State, e: Event): State {
    match e
    case Issue(identifier, purpose, ttl, d) =>
      s.(rows := Superseded(s.rows, identifier, purpose)[d := Row(identifier, purpose, s.now + ttl, false)],
         log := s.log + [Issued(d, identifier, purpose, s.now + ttl)])
    case Consume(d, purpose) =>
      if Result(s, d, purpose).Some? then
        s.(rows := s.rows[d := s.rows[d].(consumed := true)], log := s.log + [Redeemed(d)])
      else s
    case Reap => s.(rows := map d | d in s.rows && !(s.rows[d].expiresAt <= s.now - WEEK) :: s.rows[d])
    case Tick(delta) => s.(now := s.now + delta)
  }

  ghost predicate Run(ss: seq<State>, es: seq<Event>) {
    && |ss| == |es| + 1
    && ss[0].rows == map[] && ss[0].log == []
    && forall i {:trigger es[i]} :: 0 <= i < |es| ==> Enabled(ss[i], es[i]) && ss[i + 1] == Apply(ss[i], es[i])
  }

  // -- the reference ---------------------------------------------------------------------------

  /** An entry that ends the life of the token issued by `x`. */
  predicate Ends(x: Entry, later: Entry) {
    x.Issued? &&
    (if later.Issued? then later.identifier == x.identifier && later.purpose == x.purpose else later.digest == x.digest)
  }

  /** Not superseded and not redeemed since. */
  ghost predicate Current(log: seq<Entry>, k: int)
    requires 0 <= k < |log|
  {
    forall m :: k < m < |log| ==> !Ends(log[k], log[m])
  }

  /** What the log alone says about a token: redeemable for `purpose` now, on behalf of `identifier`. */
  ghost predicate Redeemable(log: seq<Entry>, now: Time, d: Digest, purpose: Purpose, identifier: string) {
    exists k ::
      && IssuedAt(log, k, d) && log[k].purpose == purpose && log[k].identifier == identifier
      && now < log[k].expiresAt && Current(log, k)
  }

  ghost predicate Matches(s: State, k: int, d: Digest)
    requires IssuedAt(s.log, k, d)
  {
    var x := s.log[k];
    if d in s.rows then s.rows[d] == Row(x.identifier, x.purpose, x.expiresAt, !Current(s.log, k))
    else x.expiresAt <= s.now - WEEK
  }

  /** The table agrees with the log, except for rows that expired a week ago. */
  ghost predicate Inv(s: State) {
    && (forall d :: d in s.rows ==> exists k :: IssuedAt(s.log, k, d))
    && (forall k, m, d :: IssuedAt(s.log, k, d) && IssuedAt(s.log, m, d) ==> k == m)
    && (forall k, d :: IssuedAt(s.log, k, d) ==> Matches(s, k, d))
  }

  lemma CurrentAppend(log: seq<Entry>, x: Entry, k: int)
    requires 0 <= k < |log|
    ensures Current(log + [x], k) <==> Current(log, k) && !Ends(log[k], x)
  {
    var after := log + [x];
    if Current(after, k) {
      assert after[|log|] == x;
      forall m | k < m < |log| ensures !Ends(log[k], log[m]) {
        assert after[m] == log[m];
      }
    }
  }

  lemma ApplyInv(s: State, e: Event)
    requires Inv(s) && Enabled(s, e)
    ensures Inv(Apply(s, e))
  {
    var s' := Apply(s, e);
    forall k, d | IssuedAt(s'.log, k, d)
      ensures IssuedAt(s.log, k, d) || (e.Issue? && k == |s.log| && d == e.digest)
      ensures Matches(s', k, d)
    {
      if k < |s.log| {
        assert IssuedAt(s.log, k, d) && Matches(s, k, d);
        if |s'.log| > |s.log| {
          CurrentAppend(s.log, s'.log[|s.log|], k);
        }
      }
    }
    forall d | d in s'.rows ensures exists k :: IssuedAt(s'.log, k, d) {
      if e.Issue? && d == e.digest {
        assert IssuedAt(s'.log, |s.log|, d);
      } else {
        var k :| IssuedAt(s.log, k, d);
        assert IssuedAt(s'.log, k, d);
      }
    }
  }

  lemma {:induction false} RunInv(ss: seq<State>, es: seq<Event>, i: nat)
    requires Run(ss, es) && i < |ss|
    ensures Inv(ss[i])
  {
    if i > 0 {
      RunInv(ss, es, i - 1);
      ApplyInv(ss[i - 1], es[i - 1]);
    }
  }

  lemma ResultIsRedeemable(s: State, d: Digest, purpose: Purpose, identifier: string)
    requires Inv(s)
    ensures Result(s, d, purpose) == Some(identifier) <==> Redeemable(s.log, s.now, d, purpose, identifier)
  {
    if Result(s, d, purpose) == Some(identifier) {
      var k :| IssuedAt(s.log, k, d);
      assert Matches(s, k, d);
    }
    if Redeemable(s.log, s.now, d, purpose, identifier) {
      var k :| IssuedAt(s.log, k, d) && s.log[k].purpose == purpose && s.log[k].identifier == identifier
               && s.now < s.log[k].expiresAt && Current(s.log, k);
      assert Matches(s, k, d);
    }
  }

  /**
   In every reachable state a token is accepted exactly when the history says so: it was issued for
   this purpose, has not expired, is the latest issued for its identifier and purpose, and was not
   redeemed before. How often the table was reaped does not enter into it.
   */
  lemma ConsumeMatchesHistory(ss: seq<State>, es: seq<Event>, i: nat, d: Digest, purpose: Purpose, identifier: string)
    requires Run(ss, es) && i < |ss|
    ensures Result(ss[i], d, purpose) == Some(identifier) <==> Redeemable(ss[i].log, ss[i].now, d, purpose, identifier)
  {
    RunInv(ss, es, i);
    ResultIsRedeemable(ss[i], d, purpose, identifier);
  }

  lemma LogGrows(s: State, e: Event)
    ensures s.log <= Apply(s, e).log
  {
  }

  lemma {:induction false} LogOnlyGrows(ss: seq<State>, es: seq<Event>, i: nat, j: nat)
    requires Run(ss, es) && i <= j < |ss|
    ensures ss[i].log <= ss[j].log
  {
    if i < j {
      LogOnlyGrows(ss, es, i, j - 1);
      LogGrows(ss[j - 1], es[j - 1]);
    }
  }

  /** A token is redeemed at most once in a whole run, whatever purpose is named the second time. */
  lemma RedeemedAtMostOnce(ss: seq<State>, es: seq<Event>, i: nat, j: nat, d: Digest, p: Purpose, q: Purpose)
    requires Run(ss, es) && i < j < |ss|
    requires es[i] == Consume(d, p) && Result(ss[i], d, p).Some?
    ensures Result(ss[j], d, q).None?
  {
    RunInv(ss, es, i);
    RunInv(ss, es, j);
    LogOnlyGrows(ss, es, i + 1, j);
    var s, n := ss[j], |ss[i].log|;
    assert s.log[n] == Redeemed(d);
    var k0 :| IssuedAt(ss[i].log, k0, d);
    assert IssuedAt(s.log, k0, d);
    assert Matches(s, k0, d) && Ends(s.log[k0], s.log[n]);
  }

  // -- reaping is unobservable ---------------------------------------------------------------------

  /** The same steps on a table that is never reaped. */
  function Unreaped(s: State, es: seq<Event>): State {
    if es == [] then s
    else
      var before := Unreaped(s, es[..|es| - 1]);
      var e := es[|es| - 1];
      if e.Reap? then before else Apply(before, e)
  }

  ghost predicate Alike(s: State, u: State) {
    Inv(s) && Inv(u) && s.log == u.log && s.now == u.now
  }

  lemma AlikeResult(s: State, u: State, d: Digest, purpose: Purpose)
    requires Alike(s, u)
    ensures Result(s, d, purpose) == Result(u, d, purpose)
  {
    if Result(s, d, purpose).Some? {
      ResultIsRedeemable(s, d, purpose, Result(s, d, purpose).value);
      ResultIsRedeemable(u, d, purpose, Result(s, d, purpose).value);
    } else if Result(u, d, purpose).Some? {
      ResultIsRedeemable(s, d, purpose, Result(u, d, purpose).value);
      ResultIsRedeemable(u, d, purpose, Result(u, d, purpose).value);
    }
  }

  lemma AlikeStep(s: State, u: State, e: Event)
    requires Alike(s, u) && Enabled(s, e)
    ensures Alike(Apply(s, e), if e.Reap? then u else Apply(u, e))
  {
    ApplyInv(s, e);
    ApplyInv(u, e);
    if e.Consume? {
      AlikeResult(s, u, e.digest, e.purpose);
    }
  }

  /** Bisimulation: reaping week-old rows changes no answer, now or later, of issuing or consuming. */
  lemma {:induction false} ReapingIsUnobservable(ss: seq<State>, es: seq<Event>, i: nat, d: Digest, purpose: Purpose)
    requires Run(ss, es) && i < |ss|
    ensures Alike(ss[i], Unreaped(ss[0], es[..i]))
    ensures Result(ss[i], d, purpose) == Result(Unreaped(ss[0], es[..i]), d, purpose)
    ensures i < |es| ==> Enabled(Unreaped(ss[0], es[..i]), es[i])
  {
    if i > 0 {
      ReapingIsUnobservable(ss, es, i - 1, d, purpose);
      assert es[..i][..i - 1] == es[..i - 1];
      AlikeStep(ss[i - 1], Unreaped(ss[0], es[..i - 1]), es[i - 1]);
    }
    AlikeResult(ss[i], Unreaped(ss[0], es[..i]), d, purpose);
  }

  /** What issuing does to the table, column by column. */
  lemma IssuedIsRedeemable(s: State, identifier: string, purpose: Purpose, ttl: int, d: Digest)
    requires ttl > 0
    ensures var s' := Apply(s, Issue(identifier, purpose, ttl, d)); Redeemable(s'.log, s'.now, d, purpose, identifier)
  {
    var s' := Apply(s, Issue(identifier, purpose, ttl, d));
    assert IssuedAt(s'.log, |s.log|, d) && Current(s'.log, |s.log|);
  }

  ghost predicate Reissued(was: map<Digest, Row>, after: map<Digest, Row>, identifier: string, purpose: Purpose,
                           d: Digest, expiresAt: Time) {
    && after.Keys == was.Keys + {d} && after[d] == Row(identifier, purpose, expiresAt, false)
    && forall x :: x in was && x != d ==>
         after[x] == Row(was[x].identifier, was[x].purpose, was[x].expiresAt,
                         was[x].consumed || (was[x].identifier == identifier && was[x].purpose == purpose))
  }

  lemma IssueReissues(s: State, identifier: string, purpose: Purpose, ttl: int, d: Digest)
    ensures Reissued(s.rows, Apply(s, Issue(identifier, purpose, ttl, d)).rows, identifier, purpose, d, s.now + ttl)
  {
  }

  /** The hourly reaping removes exactly the rows expired for seven days of 86400 seconds. */
  lemma ReapRemoves(s: State, d: Digest)
    ensures d in Apply(s, Reap).rows <==> d in s.rows && s.now - 604_800_000_000 < s.rows[d].expiresAt
    ensures d in Apply(s, Reap).rows ==> Apply(s, Reap).rows[d] == s.rows[d]
    ensures Apply(s, Reap).log == s.log && Apply(s, Reap).now == s.now
  {
  }

  // -- the service -----------------------------------------------------------------------------------

  /** The `verifications` table; each method is one transaction. */
  class VerificationTable {
    var now: Time
    var rows: map<Digest, Row>
    ghost var log: seq<Entry>

    ghost predicate Valid()
      reads this
    {
      Inv(State(now, rows, log))
    }

    constructor (now: Time)
      ensures Valid() && this.now == now && rows == map[] && log == []
    {
      this.now, rows, log := now, map[], [];
    }

    method IssueVerificationToken(identifier: string, purpose: Purpose, ttl: int, token: Sessions.Token)
      requires Valid() && Unused(log, Sessions.Sha256(token))
      modifies this
      ensures Valid()
      ensures State(now, rows, log) ==
              Apply(old(State(now, rows, log)), Issue(identifier, purpose, ttl, Sessions.Sha256(token)))
      ensures ttl > 0 ==> Redeemable(log, now, Sessions.Sha256(token), purpose, identifier)
      ensures Reissued(old(rows), rows, identifier, purpose, Sessions.Sha256(token), now + ttl) && now == old(now)
    {
      ghost var before := State(now, rows, log);
      var d := Sessions.Sha256(token);
      rows := Superseded(rows, identifier, purpose);
      rows := rows[d := Row(identifier, purpose, now + ttl, false)];
      log := log + [Issued(d, identifier, purpose, now + ttl)];
      assert State(now, rows, log) == Apply(before, Issue(identifier, purpose, ttl, d));
      IssueReissues(before, identifier, purpose, ttl, d);
      if ttl > 0 {
        IssuedIsRedeemable(before, identifier, purpose, ttl, d);
      }
      ApplyInv(before, Issue(identifier, purpose, ttl, d));
    }

    method ConsumeVerificationToken(token: Sessions.Token, purpose: Purpose) returns (identifier: Option<string>)
      requires Valid()
      modifies this
      ensures Valid()
      ensures forall id :: identifier == Some(id) <==> Redeemable(old(log), now, Sessions.Sha256(token), purpose, id)
      ensures State(now, rows, log) == Apply(old(State(now, rows, log)), Consume(Sessions.Sha256(token), purpose))
      ensures var d := Sessions.Sha256(token);
              identifier.Some? <==>
                && d in old(rows) && old(rows)[d].purpose == purpose && !old(rows)[d].consumed
                && now < old(rows)[d].expiresAt
      ensures identifier.None? ==> rows == old(rows)
      ensures var d := Sessions.Sha256(token);
              identifier.Some? ==>
                && identifier.value == old(rows)[d].identifier
                && rows == old(rows)[d := Row(identifier.value, purpose, old(rows)[d].expiresAt, true)]
    {
      ghost var before := State(now, rows, log);
      var d := Sessions.Sha256(token);
      ApplyInv(before, Consume(d, purpose));
      if d in rows && rows[d].purpose == purpose && !rows[d].consumed && rows[d].expiresAt > now {
        identifier := Some(rows[d].identifier);
        rows := rows[d := rows[d].(consumed := true)];
        log := log + [Redeemed(d)];
      } else {
        identifier := None;
      }
      forall id ensures identifier == Some(id) <==> Redeemable(before.log, before.now, d, purpose, id) {
        ResultIsRedeemable(before, d, purpose, id);
      }
    }
  }
}
