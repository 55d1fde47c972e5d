/**
 Sessions with rotating refresh tokens, one transaction at a time (src/services/auth.rs).

 A session row is the revocation point: every request resolves it, and a refresh rotates the token
 it stores. The digest is a free constructor, that is, an injective function of the token.
 `AuthStore` holds the rows in fields and updates them in place; `Apply` says what each
 transaction does to them, and the lemmas speak of every run of transactions.
 */
module Sessions {
  import opened Wrappers

  type Time = int
  type UserId = nat
  type SessionId = nat
  type Token = nat

  datatype Digest = Sha256(token: Token)

  datatype User = User(banned: bool, deleted: bool)

  datatype Session = Session(
    user: UserId,
    current: Digest,
    previous: Option<Digest>,
    expiresAt: Time,
    revokedAt: Option<Time>)

  /** The WHERE clause of an `UPDATE sessions SET revoked_at`, without `revoked_at IS NULL`. */
  datatype Scope =
    | One(user: UserId, sid: SessionId)
    | All(user: UserId)
    | AllBut(user: UserId, keep: SessionId)

  predicate Covers(scope: Scope, sid: SessionId, row: Session) {
    && row.user == scope.user
    && (scope.One? ==> sid == scope.sid)
    && (scope.AllBut? ==> sid != scope.keep)
  }

  function RevokedRow(row: Session, now: Time): Session {
    if row.revokedAt.None? then row.(revokedAt := Some(now)) else row
  }

  function Revoke(sessions: map<SessionId, Session>, scope: Scope, now: Time): map<SessionId, Session> {
    map sid | sid in sessions ::
      if Covers(scope, sid, sessions[sid]) then RevokedRow(sessions[sid], now) else sessions[sid]
  }

  function RotatedRow(row: Session, next: Digest, expiresAt: Time): Session {
    row.(current := next, previous := Some(row.current), expiresAt := expiresAt)
  }

  datatype Reason = UnknownToken | SessionRevoked | SessionExpired | NoAccount | Suspended

  /** What a refresh answers: the rotated session, a detected replay, or a refusal. */
  datatype Outcome =
    | Rotated(sid: SessionId)
    | Replayed(user: UserId)
    | Refused(reason: Reason)

  /** The tables, with the history of every session id and digest handed out so far. */
  datatype Db = Db(
    sessions: map<SessionId, Session>,
    users: map<UserId, User>,
    now: Time,
    minted: set<SessionId>,
    issued: set<Digest>)

  ghost predicate CurrentIn(sessions: map<SessionId, Session>, d: Digest, sid: SessionId) {
    sid in sessions && sessions[sid].current == d
  }

  ghost predicate PreviousIn(sessions: map<SessionId, Session>, d: Digest, sid: SessionId) {
    sid in sessions && sessions[sid].previous == Some(d)
  }

  /** Ids and digests are never handed out twice, so each lookup has at most one answer. */
  ghost predicate Valid(db: Db) {
    && db.sessions.Keys <= db.minted
    && (forall sid :: sid in db.sessions ==> db.sessions[sid].current in db.issued)
    && (forall sid :: sid in db.sessions && db.sessions[sid].previous.Some? ==>
          db.sessions[sid].previous.value in db.issued)
    && (forall d, a, b :: CurrentIn(db.sessions, d, a) && CurrentIn(db.sessions, d, b) ==> a == b)
    && (forall d, a, b :: PreviousIn(db.sessions, d, a) && PreviousIn(db.sessions, d, b) ==> a == b)
    && (forall d, a, b :: CurrentIn(db.sessions, d, a) ==> !PreviousIn(db.sessions, d, b))
  }

  /** The checks a refresh makes on a session found by its current digest, in order. */
  function CheckSession(row: Session, sid: SessionId, users: map<UserId, User>, now: Time): Outcome {
    if row.revokedAt.Some? then Refused(SessionRevoked)
    else if row.expiresAt <= now then Refused(SessionExpired)
    else if row.user !in users || users[row.user].deleted then Refused(NoAccount)
    else if users[row.user].banned then Refused(Suspended)
    else Rotated(sid)
  }

  ghost predicate Answers(db: Db, d: Digest, r: Outcome) {
    if exists sid :: CurrentIn(db.sessions, d, sid) then
      exists sid :: CurrentIn(db.sessions, d, sid) && r == CheckSession(db.sessions[sid], sid, db.users, db.now)
    else if exists sid :: PreviousIn(db.sessions, d, sid) then
      exists sid :: PreviousIn(db.sessions, d, sid) && r == Replayed(db.sessions[sid].user)
    else
      r == Refused(UnknownToken)
  }

  /** Under `Valid` a refresh has exactly one answer. */
  lemma AnswerUnique(db: Db, d: Digest, a: Outcome, b: Outcome)
    requires Valid(db) && Answers(db, d, a) && Answers(db, d, b)
    ensures a == b
  {
  }

  /** `resolve_session`: the check made on every request. */
  predicate Resolves(db: Db, user: UserId, sid: SessionId) {
    && sid in db.sessions
    && db.sessions[sid].user == user
    && user in db.users
    && !db.users[user].deleted
    && db.sessions[sid].revokedAt.None?
    && db.now < db.sessions[sid].expiresAt
    && !db.users[user].banned
  }

  ghost predicate Usable(db: Db, sid: SessionId) {
    || (exists user :: Resolves(db, user, sid))
    || (exists d :: Answers(db, d, Rotated(sid)))
  }

  /** A session that its current digest finds is rotated exactly when it resolves. */
  lemma RotatesIffResolves(db: Db, d: Digest, sid: SessionId)
    requires Valid(db) && CurrentIn(db.sessions, d, sid)
    ensures Answers(db, d, Rotated(sid)) <==> Resolves(db, db.sessions[sid].user, sid)
    ensures forall r :: Answers(db, d, r) ==> !r.Replayed? && (r.Rotated? ==> r == Rotated(sid))
  {
  }

  // -- transactions -----------------------------------------------------------

  datatype Op =
    | SignIn(sid: SessionId, user: UserId, token: Token, expiresAt: Time)
    | Refresh(digest: Digest, answer: Outcome, next: Token, expiresAt: Time)
    | RevokeSessions(scope: Scope)
    | DeleteAccount(user: UserId)
    | SetUser(user: UserId, row: User)
    | Cleanup(retention: nat)
    | Advance(delta: nat)

  ghost predicate Enabled(db: Db, op: Op) {
    match op
    case SignIn(sid, _, token, _) => sid !in db.minted && Sha256(token) !in db.issued
    case Refresh(d, answer, next, _) => Answers(db, d, answer) && Sha256(next) !in db.issued
    case _ => true
  }

  function Live(db: Db, user: UserId): bool {
    user in db.users && !db.users[user].deleted
  }

  function Apply(db: Db, op: Op): Db {
    match op
    case SignIn(sid, user, token, expiresAt) =>
      db.(sessions := db.sessions[sid := Session(user, Sha256(token), None, expiresAt, None)],
          minted := db.minted + {sid},
          issued := db.issued + {Sha256(token)})
    case Refresh(_, answer, next, expiresAt) =>
      if answer.Rotated? && answer.sid in db.sessions then
        db.(sessions := db.sessions[answer.sid := RotatedRow(db.sessions[answer.sid], Sha256(next), expiresAt)],
            issued := db.issued + {Sha256(next)})
      else if answer.Replayed? then
        db.(sessions := Revoke(db.sessions, All(answer.user), db.now))
      else db
    case RevokeSessions(scope) => db.(sessions := Revoke(db.sessions, scope, db.now))
    case DeleteAccount(user) =>
      if Live(db, user) then
        db.(users := db.users[user := db.users[user].(deleted := true)],
            sessions := Revoke(db.sessions, All(user), db.now))
      else db
    case SetUser(user, row) => db.(users := db.users[user := row])
    case Cleanup(retention) =>
      db.(sessions := map sid | sid in db.sessions && !(db.sessions[sid].expiresAt <= db.now - retention) ::
                        db.sessions[sid])
    case Advance(delta) => db.(now := db.now + delta)
  }

  /** The sessions a transaction takes away. */
  function Taken(db: Db, op: Op): set<SessionId> {
    match op
    case Refresh(_, Replayed(user), _, _) => set sid | sid in db.sessions && db.sessions[sid].user == user
    case RevokeSessions(scope) => set sid | sid in db.sessions && Covers(scope, sid, db.sessions[sid])
    case DeleteAccount(user) =>
      if Live(db, user) then set sid | sid in db.sessions && db.sessions[sid].user == user else {}
    case _ => {}
  }

  // -- runs -------------------------------------------------------------------

  ghost predicate Run(dbs: seq<Db>, ops: seq<Op>) {
    && |dbs| == |ops| + 1
    && Valid(dbs[0])
    && forall i :: 0 <= i < |ops| ==> Enabled(dbs[i], ops[i]) && dbs[i + 1] == Apply(dbs[i], ops[i])
  }

  /** Dead for good: revoked, or reaped with an id that is never minted again. */
  ghost predicate Dead(db: Db, sid: SessionId) {
    && sid in db.minted
    && (sid in db.sessions ==> db.sessions[sid].revokedAt.Some?)
  }

  lemma RefreshValid(db: Db, op: Op)
    requires Valid(db) && Enabled(db, op) && op.Refresh? && op.answer.Rotated?
    ensures Valid(Apply(db, op))
  {
    var db' := Apply(db, op);
    var sid := op.answer.sid;
    var was := db.sessions[sid].current;
    assert CurrentIn(db.sessions, was, sid);
    forall d, a | CurrentIn(db'.sessions, d, a)
      ensures if a == sid then d == Sha256(op.next) else CurrentIn(db.sessions, d, a)
    {
    }
    forall d, a | PreviousIn(db'.sessions, d, a)
      ensures if a == sid then d == was else PreviousIn(db.sessions, d, a)
      ensures d in db.issued
    {
    }
  }

  lemma ApplyValid(db: Db, op: Op)
    requires Valid(db) && Enabled(db, op)
    ensures Valid(Apply(db, op))
  {
    if op.Refresh? && op.answer.Rotated? {
      RefreshValid(db, op);
    } else {
      var db' := Apply(db, op);
      forall d, a | CurrentIn(db'.sessions, d, a)
        ensures CurrentIn(db.sessions, d, a) || (op.SignIn? && a == op.sid && d == Sha256(op.token))
      {
      }
      forall d, a | PreviousIn(db'.sessions, d, a)
        ensures PreviousIn(db.sessions, d, a) && d in db.issued
      {
      }
    }
  }

  lemma ApplyKeepsDead(db: Db, op: Op, sid: SessionId)
    requires Valid(db) && Enabled(db, op)
    ensures Dead(db, sid) ==> Dead(Apply(db, op), sid)
    ensures sid in Taken(db, op) ==> Dead(Apply(db, op), sid)
  {
  }

  lemma DeadUnusable(db: Db, sid: SessionId)
    requires Dead(db, sid)
    ensures !Usable(db, sid)
  {
  }

  lemma DeadNotRotated(db: Db, op: Op, sid: SessionId)
    requires Dead(db, sid) && Enabled(db, op) && op.Refresh?
    ensures op.answer != Outcome.Rotated(sid)
  {
  }

  /** What a rotation leaves in the row, for as long as the session is there and not rotated again. */
  ghost predicate Holds(db: Db, sid: SessionId, user: UserId, spent: Digest, next: Digest) {
    && sid in db.minted
    && (sid in db.sessions ==>
          && db.sessions[sid].user == user
          && db.sessions[sid].current == next
          && db.sessions[sid].previous == Some(spent))
  }

  lemma RotationHolds(db: Db, op: Op, sid: SessionId)
    requires Valid(db) && Enabled(db, op) && op.Refresh? && op.answer == Outcome.Rotated(sid)
    ensures sid in db.sessions && db.sessions[sid].current == op.digest
    ensures Holds(Apply(db, op), sid, db.sessions[sid].user, op.digest, Sha256(op.next))
  {
  }

  lemma HoldsStays(db: Db, op: Op, sid: SessionId, user: UserId, spent: Digest, next: Digest)
    requires Valid(db) && Enabled(db, op) && Holds(db, sid, user, spent, next)
    requires !(op.Refresh? && op.answer == Outcome.Rotated(sid))
    ensures Holds(Apply(db, op), sid, user, spent, next)
  {
  }

  ghost predicate NotRotatedBetween(ops: seq<Op>, i: nat, j: nat, sid: SessionId)
    requires j <= |ops|
  {
    forall k {:trigger ops[k]} :: i < k < j ==> !(ops[k].Refresh? && ops[k].answer == Outcome.Rotated(sid))
  }

  lemma {:induction false} RotatedRowStays(dbs: seq<Db>, ops: seq<Op>, i: nat, j: nat, sid: SessionId)
    requires Run(dbs, ops) && i < j < |dbs| && ops[i].Refresh? && ops[i].answer == Outcome.Rotated(sid)
    requires NotRotatedBetween(ops, i, j, sid)
    ensures sid in dbs[i].sessions
    ensures Holds(dbs[j], sid, dbs[i].sessions[sid].user, ops[i].digest, Sha256(ops[i].next))
  {
    RunValid(dbs, ops, i);
    RunValid(dbs, ops, j - 1);
    RotationHolds(dbs[i], ops[i], sid);
    if j > i + 1 {
      RotatedRowStays(dbs, ops, i, j - 1, sid);
      HoldsStays(dbs[j - 1], ops[j - 1], sid, dbs[i].sessions[sid].user, ops[i].digest, Sha256(ops[i].next));
    }
  }

  /**
   After a rotation the spent token is a replay and nothing else, and the new one leads to that session and no
   other, for as long as the session is there and not rotated again, revoked or not.
   */
  lemma SpentTokenIsReplayed(dbs: seq<Db>, ops: seq<Op>, i: nat, j: nat, sid: SessionId, r: Outcome)
    requires Run(dbs, ops) && i < j < |dbs| && ops[i].Refresh? && ops[i].answer == Outcome.Rotated(sid)
    requires NotRotatedBetween(ops, i, j, sid) && sid in dbs[j].sessions
    ensures sid in dbs[i].sessions
    ensures Answers(dbs[j], ops[i].digest, r) <==> r == Replayed(dbs[i].sessions[sid].user)
    ensures Answers(dbs[j], Sha256(ops[i].next), Rotated(sid)) <==> Resolves(dbs[j], dbs[i].sessions[sid].user, sid)
  {
    RotatedRowStays(dbs, ops, i, j, sid);
    RunValid(dbs, ops, j);
    var db := dbs[j];
    assert PreviousIn(db.sessions, ops[i].digest, sid);
    assert CurrentIn(db.sessions, Sha256(ops[i].next), sid);
    RotatesIffResolves(db, Sha256(ops[i].next), sid);
  }

  lemma {:induction false} RunValid(dbs: seq<Db>, ops: seq<Op>, i: nat)
    requires Run(dbs, ops) && i < |dbs|
    ensures Valid(dbs[i])
  {
    if i > 0 {
      RunValid(dbs, ops, i - 1);
      ApplyValid(dbs[i - 1], ops[i - 1]);
    }
  }

  /**
   Revocation is permanent: whatever a sign-out, a password reset or change, an account deletion or a
   detected replay takes away at step `i` never resolves or refreshes again.
   */
  lemma {:induction false} RevocationIsPermanent(dbs: seq<Db>, ops: seq<Op>, i: nat, j: nat, sid: SessionId)
    requires Run(dbs, ops) && i < j < |dbs|
    requires sid in Taken(dbs[i], ops[i])
    ensures Dead(dbs[j], sid) && !Usable(dbs[j], sid)
    ensures j < |ops| && ops[j].Refresh? ==> ops[j].answer != Outcome.Rotated(sid)
  {
    RunValid(dbs, ops, j - 1);
    if j > i + 1 {
      RevocationIsPermanent(dbs, ops, i, j - 1, sid);
    }
    ApplyKeepsDead(dbs[j - 1], ops[j - 1], sid);
    DeadUnusable(dbs[j], sid);
    if j < |ops| && ops[j].Refresh? {
      assert Enabled(dbs[j], ops[j]);
      DeadNotRotated(dbs[j], ops[j], sid);
    }
  }

  /**
   After `change_password` the caller's session is the only one of the user's existing sessions that
   can still be used, and that session is untouched.
   */
  lemma ChangePasswordKeepsOnlyTheCaller(dbs: seq<Db>, ops: seq<Op>, i: nat, j: nat, user: UserId, keep: SessionId,
      sid: SessionId)
    requires Run(dbs, ops) && i < j < |dbs|
    requires ops[i] == RevokeSessions(AllBut(user, keep))
    requires sid in dbs[i].sessions && dbs[i].sessions[sid].user == user
    ensures Usable(dbs[j], sid) ==> sid == keep
    ensures sid == keep ==> dbs[i + 1].sessions[keep] == dbs[i].sessions[keep]
    ensures sid == keep ==> (Usable(dbs[i + 1], keep) <==> Usable(dbs[i], keep))
  {
    if sid != keep {
      RevocationIsPermanent(dbs, ops, i, j, sid);
    } else {
      KeptStaysUsable(dbs[i], user, keep);
    }
  }

  lemma KeptStaysUsable(db: Db, user: UserId, keep: SessionId)
    requires keep in db.sessions && db.sessions[keep].user == user
    ensures Usable(Apply(db, RevokeSessions(AllBut(user, keep))), keep) <==> Usable(db, keep)
  {
    var db' := Apply(db, RevokeSessions(AllBut(user, keep)));
    forall u ensures Resolves(db', u, keep) <==> Resolves(db, u, keep) {
    }
    forall d
      ensures Answers(db', d, Outcome.Rotated(keep)) <==> Answers(db, d, Outcome.Rotated(keep))
    {
      forall sid ensures CurrentIn(db'.sessions, d, sid) <==> CurrentIn(db.sessions, d, sid) {
      }
    }
  }

  // -- the service --------------------------------------------------------------

  /** Exactly the unrevoked sessions of `user`, but for `keep`, are revoked at `now`; nothing else about any changes. */
  ghost predicate RevokedFor(was: map<SessionId, Session>, after: map<SessionId, Session>, user: UserId,
                             keep: Option<SessionId>, now: Time) {
    && after.Keys == was.Keys
    && forall x :: x in was ==>
         after[x] == if was[x].user == user && Some(x) != keep && was[x].revokedAt == None
                     then Session(was[x].user, was[x].current, was[x].previous, was[x].expiresAt, Some(now))
                     else was[x]
  }

  /** The tables the service updates; each method is one transaction. */
  class AuthStore {
    var sessions: map<SessionId, Session>
    var users: map<UserId, User>
    var now: Time
    ghost var minted: set<SessionId>
    ghost var issued: set<Digest>

    ghost function Tables(): Db
      reads this
    {
      Db(sessions, users, now, minted, issued)
    }

    constructor (users: map<UserId, User>, now: Time)
      ensures Valid(Tables()) && Tables() == Db(map[], users, now, {}, {})
    {
      this.sessions, this.users, this.now := map[], users, now;
      minted, issued := {}, {};
    }

    /** A new session; its id and token are fresh, and only the digest is stored. */
    method CreateSession(user: UserId, sid: SessionId, token: Token, expiresAt: Time)
      requires Valid(Tables())
      requires sid !in minted && Sha256(token) !in issued
      modifies this
      ensures Valid(Tables())
      ensures Tables() == Apply(old(Tables()), SignIn(sid, user, token, expiresAt))
      ensures sessions == old(sessions)[sid := Session(user, Sha256(token), None, expiresAt, None)]
      ensures users == old(users) && now == old(now)
    {
      ghost var before := Tables();
      sessions := sessions[sid := Session(user, Sha256(token), None, expiresAt, None)];
      minted, issued := minted + {sid}, issued + {Sha256(token)};
      ApplyValid(before, SignIn(sid, user, token, expiresAt));
    }

    method ResolveSession(user: UserId, sid: SessionId) returns (accepted: bool)
      ensures accepted <==> Resolves(Tables(), user, sid)
      ensures accepted <==>
                && sid in sessions && sessions[sid].user == user && sessions[sid].revokedAt == None
                && now < sessions[sid].expiresAt
                && user in users && users[user] == User(false, false)
    {
      if sid !in sessions || sessions[sid].user != user || user !in users || users[user].deleted {
        return false;
      }
      if sessions[sid].revokedAt.Some? {
        return false;
      }
      if sessions[sid].expiresAt <= now {
        return false;
      }
      return !users[user].banned;
    }

    /** The live digest is tried first, then the superseded one; a hit on the latter is a replay. */
    method RefreshSession(token: Token, next: Token, expiresAt: Time) returns (r: Outcome)
      requires Valid(Tables())
      requires Sha256(next) !in issued
      modifies this
      ensures Valid(Tables())
      ensures Answers(old(Tables()), Sha256(token), r)
      ensures Tables() == Apply(old(Tables()), Refresh(Sha256(token), r, next, expiresAt))
      ensures r.Rotated? ==> r.sid in old(sessions)
      ensures r.Rotated? ==>
                var was := old(sessions)[r.sid];
                && was.current == Sha256(token) && was.revokedAt == None && old(now) < was.expiresAt
                && was.user in old(users) && old(users)[was.user] == User(false, false)
                && sessions == old(sessions)[r.sid :=
                     Session(was.user, Sha256(next), Some(Sha256(token)), expiresAt, None)]
      ensures r.Replayed? ==> RevokedFor(old(sessions), sessions, r.user, None, old(now))
      ensures r.Refused? ==> sessions == old(sessions)
      ensures users == old(users) && now == old(now)
    {
      var hash := Sha256(token);
      ghost var before := Tables();
      if sid :| sid in sessions && sessions[sid].current == hash {
        assert CurrentIn(before.sessions, hash, sid);
        var row := sessions[sid];
        if row.revokedAt.Some? {
          r := Refused(SessionRevoked);
        } else if row.expiresAt <= now {
          r := Refused(SessionExpired);
        } else if row.user !in users || users[row.user].deleted {
          r := Refused(NoAccount);
        } else if users[row.user].banned {
          r := Refused(Suspended);
        } else {
          sessions := sessions[sid := row.(
            current := Sha256(next), previous := Some(row.current), expiresAt := expiresAt)];
          issued := issued + {Sha256(next)};
          r := Rotated(sid);
        }
      } else if sid :| sid in sessions && sessions[sid].previous == Some(hash) {
        assert PreviousIn(before.sessions, hash, sid);
        var compromised := sessions[sid];
        sessions := Revoke(sessions, All(compromised.user), now);
        r := Replayed(compromised.user);
      } else {
        r := Refused(UnknownToken);
      }
      ApplyValid(before, Refresh(hash, r, next, expiresAt));
    }

    method SignOut(user: UserId, sid: SessionId)
      requires Valid(Tables())
      modifies this
      ensures Valid(Tables())
      ensures Tables() == Apply(old(Tables()), RevokeSessions(One(user, sid)))
      ensures sessions == if sid in old(sessions) && old(sessions)[sid].user == user
                             && old(sessions)[sid].revokedAt == None
                          then old(sessions)[sid := old(sessions)[sid].(revokedAt := Some(old(now)))]
                          else old(sessions)
      ensures sid in sessions && sessions[sid].user == user ==> sessions[sid].revokedAt.Some?
      ensures users == old(users) && now == old(now)
    {
      ApplyValid(Tables(), RevokeSessions(One(user, sid)));
      sessions := Revoke(sessions, One(user, sid), now);
    }

    /** Sign-out everywhere; a password reset ends with the same statement. */
    method SignOutAll(user: UserId)
      requires Valid(Tables())
      modifies this
      ensures Valid(Tables())
      ensures Tables() == Apply(old(Tables()), RevokeSessions(All(user)))
      ensures RevokedFor(old(sessions), sessions, user, None, old(now)) && users == old(users) && now == old(now)
    {
      ApplyValid(Tables(), RevokeSessions(All(user)));
      sessions := Revoke(sessions, All(user), now);
    }

    /** Nothing happens unless the current password verified. */
    method ChangePassword(user: UserId, currentSession: SessionId, verified: bool) returns (changed: bool)
      requires Valid(Tables())
      modifies this
      ensures Valid(Tables()) && changed == verified
      ensures Tables() == if verified then Apply(old(Tables()), RevokeSessions(AllBut(user, currentSession)))
                          else old(Tables())
      ensures if verified then RevokedFor(old(sessions), sessions, user, Some(currentSession), old(now))
              else sessions == old(sessions)
      ensures users == old(users) && now == old(now)
    {
      if !verified {
        return false;
      }
      ApplyValid(Tables(), RevokeSessions(AllBut(user, currentSession)));
      sessions := Revoke(sessions, AllBut(user, currentSession), now);
      return true;
    }

    method DeleteUser(user: UserId) returns (found: bool)
      requires Valid(Tables())
      modifies this
      ensures Valid(Tables()) && found == Live(old(Tables()), user)
      ensures Tables() == Apply(old(Tables()), DeleteAccount(user))
      ensures found <==> user in old(users) && !old(users)[user].deleted
      ensures !found ==> users == old(users) && sessions == old(sessions)
      ensures found ==> users == old(users)[user := User(old(users)[user].banned, true)]
      ensures found ==> RevokedFor(old(sessions), sessions, user, None, old(now))
    {
      ghost var before := Tables();
      if user !in users || users[user].deleted {
        return false;
      }
      users := users[user := users[user].(deleted := true)];
      sessions := Revoke(sessions, All(user), now);
      ApplyValid(before, DeleteAccount(user));
      return true;
    }
  }
}
