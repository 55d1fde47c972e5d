/**
 Concurrent refreshes, statement by statement (src/services/auth.rs, refresh_session).

 Transactions run at READ COMMITTED: a statement reads the committed rows, then queues for the row
 lock, and re-checks its predicate on the newest version once it holds the lock. Locks last until the
 transaction ends and its writes appear then, all at once. Any number of transactions interleave.
 */
module RefreshRace {
  import opened Wrappers
  import opened Sessions

  type TxId = nat

  datatype Request =
    | Present(digest: Digest)    // refresh_session with this token
    | Withdraw(scope: Scope)     // any of the revoking transactions

  /** Where a transaction stands; the names of the rows it has locked are part of it. */
  datatype Pc =
    | Begin
    | CurrentWait(sid: SessionId)
    | CurrentHeld(sid: SessionId)
    | Rotating(sid: SessionId)
    | PreviousReady
    | PreviousWait(sid: SessionId)
    | PreviousHeld(sid: SessionId)
    | Revoking(scope: Scope, family: set<SessionId>, todo: set<SessionId>, mine: set<SessionId>, anchor: set<SessionId>)
    | Won(sid: SessionId, link: nat)
    | RevokedAll(scope: Scope, family: set<SessionId>)
    | Lost

  datatype Tx = Tx(request: Request, pc: Pc)

  /** The committed tables, the transactions, and each session's history of tokens. */
  datatype State = State(
    rows: map<SessionId, Session>,
    users: map<UserId, User>,
    now: Time,
    txs: map<TxId, Tx>,
    issued: map<SessionId, seq<Digest>>,
    accepted: map<SessionId, seq<(Digest, TxId)>>)

  function Held(pc: Pc): set<SessionId> {
    match pc
    case CurrentHeld(sid) => {sid}
    case Rotating(sid) => {sid}
    case PreviousHeld(sid) => {sid}
    case Revoking(_, _, _, mine, anchor) => mine + anchor
    case _ => {}
  }

  predicate Terminal(pc: Pc) {
    pc.Won? || pc.RevokedAll? || pc.Lost?
  }

  ghost predicate Holds(s: State, t: TxId, sid: SessionId) {
    t in s.txs && sid in Held(s.txs[t].pc)
  }

  ghost predicate FreeFor(s: State, sid: SessionId, t: TxId) {
    forall u :: u != t ==> !Holds(s, u, sid)
  }

  ghost predicate Unlocked(s: State, sid: SessionId) {
    forall u :: !Holds(s, u, sid)
  }

  /** Token `k` of session `sid`'s chain is `d`. */
  ghost predicate Link(issued: map<SessionId, seq<Digest>>, sid: SessionId, k: nat, d: Digest) {
    sid in issued && k < |issued[sid]| && issued[sid][k] == d
  }

  /** The chain of a session's tokens, oldest first. */
  function Tokens(s: State, sid: SessionId): seq<Digest> {
    if sid in s.issued then s.issued[sid] else []
  }

  ghost predicate Fresh(s: State, d: Digest) {
    forall sid, k: nat :: !Link(s.issued, sid, k, d)
  }

  // -- steps --------------------------------------------------------------------

  datatype Event =
    | Start(t: TxId, request: Request)
    | CurrentLookup(t: TxId, found: Option<SessionId>)
    | CurrentLock(t: TxId)
    | Check(t: TxId)
    | CommitRotation(t: TxId, next: Digest, expiresAt: Time)
    | PreviousLookup(t: TxId, found: Option<SessionId>)
    | PreviousLock(t: TxId)
    | RevokeBegin(t: TxId)
    | RevokeRow(t: TxId, sid: SessionId)
    | CommitRevoke(t: TxId)
    | Abort(t: TxId)
    | SignIn(sid: SessionId, user: UserId, digest: Digest, expiresAt: Time)
    | Reap(sid: SessionId)
    | SetUser(user: UserId, row: User)
    | Tick(delta: nat)

  ghost predicate FindsCurrent(rows: map<SessionId, Session>, d: Digest, found: Option<SessionId>) {
    match found
    case Some(sid) => CurrentIn(rows, d, sid)
    case None => forall sid :: !CurrentIn(rows, d, sid)
  }

  ghost predicate FindsPrevious(rows: map<SessionId, Session>, d: Digest, found: Option<SessionId>) {
    match found
    case Some(sid) => PreviousIn(rows, d, sid)
    case None => forall sid :: !PreviousIn(rows, d, sid)
  }

  /** The scope of the UPDATE a transaction is about to start. */
  function ScopeOf(s: State, t: TxId): Scope
    requires t in s.txs
    requires s.txs[t].pc.PreviousHeld? ==> s.txs[t].pc.sid in s.rows
    requires !s.txs[t].pc.PreviousHeld? ==> s.txs[t].request.Withdraw?
  {
    if s.txs[t].pc.PreviousHeld? then All(s.rows[s.txs[t].pc.sid].user) else s.txs[t].request.scope
  }

  ghost predicate Enabled(s: State, e: Event) {
    match e
    case Start(t, _) => t !in s.txs
    case CurrentLookup(t, found) =>
      && t in s.txs && s.txs[t].pc.Begin? && s.txs[t].request.Present?
      && FindsCurrent(s.rows, s.txs[t].request.digest, found)
    case CurrentLock(t) =>
      t in s.txs && s.txs[t].pc.CurrentWait? && s.txs[t].request.Present? && FreeFor(s, s.txs[t].pc.sid, t)
    case Check(t) => t in s.txs && s.txs[t].pc.CurrentHeld? && s.txs[t].pc.sid in s.rows
    case CommitRotation(t, next, _) =>
      && t in s.txs && s.txs[t].pc.Rotating? && s.txs[t].request.Present? && Fresh(s, next)
      && s.txs[t].pc.sid in s.rows && s.txs[t].pc.sid in s.issued && s.txs[t].pc.sid in s.accepted
    case PreviousLookup(t, found) =>
      && t in s.txs && s.txs[t].pc.PreviousReady? && s.txs[t].request.Present?
      && FindsPrevious(s.rows, s.txs[t].request.digest, found)
    case PreviousLock(t) =>
      t in s.txs && s.txs[t].pc.PreviousWait? && s.txs[t].request.Present? && FreeFor(s, s.txs[t].pc.sid, t)
    case RevokeBegin(t) =>
      && t in s.txs
      && (|| (s.txs[t].pc.PreviousHeld? && s.txs[t].pc.sid in s.rows)
          || (s.txs[t].pc.Begin? && s.txs[t].request.Withdraw?))
    case RevokeRow(t, sid) =>
      t in s.txs && s.txs[t].pc.Revoking? && sid in s.txs[t].pc.todo && FreeFor(s, sid, t)
    case CommitRevoke(t) => t in s.txs && s.txs[t].pc.Revoking? && s.txs[t].pc.todo == {}
    case Abort(t) => t in s.txs && !Terminal(s.txs[t].pc)
    case SignIn(sid, _, d, _) => sid !in s.issued && Fresh(s, d)
    case Reap(sid) => sid in s.rows && Unlocked(s, sid)
    case SetUser(_, _) => true
    case Tick(_) => true
  }

  function At(s: State, t: TxId, pc: Pc): State
    requires t in s.txs
  {
    s.(txs := s.txs[t := s.txs[t].(pc := pc)])
  }

  /** The snapshot of an UPDATE: the rows in scope, and those of them still to be locked. */
  function Family(s: State, scope: Scope): set<SessionId> {
    set sid | sid in s.rows && Covers(scope, sid, s.rows[sid])
  }

  /** The winner's COMMIT: the superseded digest is kept, one deep, and the chain grows by one. */
  function Rotate(s: State, t: TxId, next: Digest, expiresAt: Time): State
    requires t in s.txs && s.txs[t].pc.Rotating? && s.txs[t].request.Present?
    requires s.txs[t].pc.sid in s.rows && s.txs[t].pc.sid in s.issued && s.txs[t].pc.sid in s.accepted
  {
    var sid := s.txs[t].pc.sid;
    At(s, t, Won(sid, |s.accepted[sid]|)).(
      rows := s.rows[sid := RotatedRow(s.rows[sid], next, expiresAt)],
      issued := s.issued[sid := s.issued[sid] + [next]],
      accepted := s.accepted[sid := s.accepted[sid] + [(s.txs[t].request.digest, t)]])
  }

  /** The COMMIT of a revoking transaction: exactly the rows it locked are revoked. */
  function WithdrawRows(s: State, t: TxId): State
    requires t in s.txs && s.txs[t].pc.Revoking?
  {
    var pc := s.txs[t].pc;
    At(s, t, RevokedAll(pc.scope, pc.family)).(
      rows := map sid | sid in s.rows :: if sid in pc.mine then RevokedRow(s.rows[sid], s.now) else s.rows[sid])
  }

  function Enrol(s: State, sid: SessionId, user: UserId, d: Digest, expiresAt: Time): State {
    s.(rows := s.rows[sid := Session(user, d, None, expiresAt, None)],
       issued := s.issued[sid := [d]],
       accepted := s.accepted[sid := []])
  }

  function Without(s: State, sid: SessionId): State {
    s.(rows := map x | x in s.rows && x != sid :: s.rows[x])
  }

  function Apply(s: State, e: Event): State
    requires Enabled(s, e)
  {
    match e
    case Start(t, request) => s.(txs := s.txs[t := Tx(request, Begin)])
    case CurrentLookup(t, found) =>
      At(s, t, if found.Some? then CurrentWait(found.value) else PreviousReady)
    case CurrentLock(t) =>
      var sid := s.txs[t].pc.sid;
      var found := sid in s.rows && s.rows[sid].current == s.txs[t].request.digest;
      At(s, t, if found then CurrentHeld(sid) else PreviousReady)
    case Check(t) =>
      var sid := s.txs[t].pc.sid;
      At(s, t, if CheckSession(s.rows[sid], sid, s.users, s.now).Rotated? then Rotating(sid) else Lost)
    case CommitRotation(t, next, expiresAt) => Rotate(s, t, next, expiresAt)
    case PreviousLookup(t, found) =>
      At(s, t, if found.Some? then PreviousWait(found.value) else Lost)
    case PreviousLock(t) =>
      var sid := s.txs[t].pc.sid;
      var found := sid in s.rows && s.rows[sid].previous == Some(s.txs[t].request.digest);
      At(s, t, if found then PreviousHeld(sid) else Lost)
    case RevokeBegin(t) =>
      var scope := ScopeOf(s, t);
      var family := Family(s, scope);
      var todo := set sid | sid in family && s.rows[sid].revokedAt.None?;
      At(s, t, Revoking(scope, family, todo, {}, Held(s.txs[t].pc)))
    case RevokeRow(t, sid) =>
      var pc := s.txs[t].pc;
      var still := sid in s.rows && Covers(pc.scope, sid, s.rows[sid]) && s.rows[sid].revokedAt.None?;
      At(s, t, pc.(todo := pc.todo - {sid}, mine := if still then pc.mine + {sid} else pc.mine))
    case CommitRevoke(t) => WithdrawRows(s, t)
    case Abort(t) => At(s, t, Lost)
    case SignIn(sid, user, d, expiresAt) => Enrol(s, sid, user, d, expiresAt)
    case Reap(sid) => Without(s, sid)
    case SetUser(user, row) => s.(users := s.users[user := row])
    case Tick(delta) => s.(now := s.now + delta)
  }

  // -- invariants -----------------------------------------------------------------

  ghost predicate ChainOf(issued: seq<Digest>, accepted: seq<(Digest, TxId)>) {
    && |issued| == |accepted| + 1
    && forall k :: 0 <= k < |accepted| ==> accepted[k].0 == issued[k]
  }

  ghost predicate Tip(row: Session, issued: seq<Digest>)
    requires |issued| > 0
  {
    && row.current == issued[|issued| - 1]
    && row.previous == if |issued| > 1 then Some(issued[|issued| - 2]) else None
  }

  ghost predicate Tips(s: State) {
    && s.rows.Keys <= s.issued.Keys == s.accepted.Keys
    && (forall sid :: sid in s.issued ==> ChainOf(s.issued[sid], s.accepted[sid]))
    && (forall sid :: sid in s.rows ==> Tip(s.rows[sid], s.issued[sid]))
  }

  ghost predicate Chains(s: State) {
    && Tips(s)
    && (forall a, j: nat, b, k: nat, d :: Link(s.issued, a, j, d) && Link(s.issued, b, k, d) ==> a == b && j == k)
  }

  ghost predicate Exclusive(s: State) {
    forall t, u, sid :: Holds(s, t, sid) && Holds(s, u, sid) ==> t == u
  }

  ghost predicate Gone(s: State, sid: SessionId) {
    sid in s.issued && (sid in s.rows ==> s.rows[sid].revokedAt.Some?)
  }

  ghost predicate TxOk(s: State, t: TxId)
    requires t in s.txs
  {
    var tx := s.txs[t];
    match tx.pc
    case CurrentHeld(sid) => tx.request.Present? && CurrentIn(s.rows, tx.request.digest, sid)
    case Rotating(sid) =>
      && tx.request.Present? && CurrentIn(s.rows, tx.request.digest, sid)
      && s.rows[sid].revokedAt.None?
    case PreviousHeld(sid) => tx.request.Present? && PreviousIn(s.rows, tx.request.digest, sid)
    case Revoking(scope, family, todo, mine, anchor) =>
      && mine + anchor <= s.rows.Keys
      && (forall sid :: sid in family ==> sid in s.issued && (sid in todo || sid in mine || Gone(s, sid)))
      && (forall sid :: sid in family && sid in s.rows ==> Covers(scope, sid, s.rows[sid]))
    case Won(sid, link) =>
      && tx.request.Present?
      && sid in s.accepted && link < |s.accepted[sid]| && s.accepted[sid][link] == (tx.request.digest, t)
    case RevokedAll(_, family) => forall sid :: sid in family ==> Gone(s, sid)
    case _ => true
  }

  ghost predicate Inv(s: State) {
    && Chains(s)
    && Exclusive(s)
    && forall t :: t in s.txs ==> TxOk(s, t)
  }

  /** What any step may do to the rows that transaction `u` relies on. */
  ghost predicate Evolves(s: State, s': State, u: TxId) {
    && (forall sid :: sid in s.issued ==> sid in s'.issued)
    && (forall sid :: Holds(s, u, sid) && sid in s.rows ==> sid in s'.rows && s'.rows[sid] == s.rows[sid])
    && (forall sid :: Gone(s, sid) ==> Gone(s', sid))
    && (forall sid :: sid in s.issued && sid in s'.rows ==> sid in s.rows && s'.rows[sid].user == s.rows[sid].user)
    && (forall sid :: sid in s.accepted ==> sid in s'.accepted && s.accepted[sid] <= s'.accepted[sid])
  }

  lemma TxFrame(s: State, s': State, u: TxId)
    requires u in s.txs && u in s'.txs && s'.txs[u] == s.txs[u]
    requires TxOk(s, u) && Evolves(s, s', u)
    ensures TxOk(s', u)
  {
    var pc := s.txs[u].pc;
    if pc.CurrentHeld? || pc.Rotating? || pc.PreviousHeld? {
      assert Holds(s, u, pc.sid);
    } else if pc.Revoking? {
      forall sid | sid in pc.mine + pc.anchor ensures sid in s'.rows {
        assert Holds(s, u, sid);
      }
    }
  }

  /** The transaction that takes the step, if it is not a step of the environment. */
  function Actor(e: Event): Option<TxId> {
    match e
    case SignIn(_, _, _, _) => None
    case Reap(_) => None
    case SetUser(_, _) => None
    case Tick(_) => None
    case _ => Some(e.t)
  }

  /** Every step but the two commits, sign-in and reaping leaves the tables alone. */
  predicate Quiet(e: Event) {
    !e.CommitRotation? && !e.CommitRevoke? && !e.SignIn? && !e.Reap?
  }

  lemma QuietStep(s: State, e: Event)
    requires Enabled(s, e) && Quiet(e)
    ensures var s' := Apply(s, e); s'.rows == s.rows && s'.issued == s.issued && s'.accepted == s.accepted
  {
  }

  lemma RotateTips(s: State, t: TxId, next: Digest, expiresAt: Time)
    requires Tips(s) && t in s.txs && s.txs[t].pc.Rotating? && TxOk(s, t)
    ensures s.txs[t].pc.sid in s.accepted && Tips(Rotate(s, t, next, expiresAt))
  {
    assert CurrentIn(s.rows, s.txs[t].request.digest, s.txs[t].pc.sid);
  }

  lemma EnrolTips(s: State, e: Event)
    requires Tips(s) && Enabled(s, e) && e.SignIn?
    ensures Tips(Apply(s, e))
  {
  }

  lemma ReapTips(s: State, e: Event)
    requires Tips(s) && Enabled(s, e) && e.Reap?
    ensures Tips(Apply(s, e))
  {
  }

  lemma WithdrawTips(s: State, e: Event)
    requires Tips(s) && Enabled(s, e) && e.CommitRevoke?
    ensures Tips(Apply(s, e))
  {
  }

  lemma QuietTips(s: State, e: Event)
    requires Tips(s) && Enabled(s, e) && Quiet(e)
    ensures Tips(Apply(s, e))
  {
    QuietStep(s, e);
  }

  lemma ApplyTips(s: State, e: Event)
    requires Tips(s) && Enabled(s, e) && (e.CommitRotation? ==> TxOk(s, e.t))
    ensures Tips(Apply(s, e))
  {
    if e.CommitRotation? {
      RotateTips(s, e.t, e.next, e.expiresAt);
    } else if Quiet(e) {
      QuietTips(s, e);
    } else if e.SignIn? {
      EnrolTips(s, e);
    } else if e.Reap? {
      ReapTips(s, e);
    } else {
      WithdrawTips(s, e);
    }
  }

  lemma RotateEvolves(s: State, e: Event, u: TxId)
    requires Tips(s) && Exclusive(s) && Enabled(s, e) && e.CommitRotation? && TxOk(s, e.t) && u != e.t
    ensures Evolves(s, Apply(s, e), u)
  {
    var sid := s.txs[e.t].pc.sid;
    assert CurrentIn(s.rows, s.txs[e.t].request.digest, sid);
    assert Holds(s, e.t, sid);
    assert !Holds(s, u, sid);
  }

  lemma WithdrawEvolves(s: State, e: Event, u: TxId)
    requires Exclusive(s) && Enabled(s, e) && e.CommitRevoke? && TxOk(s, e.t) && u != e.t
    ensures Evolves(s, Apply(s, e), u)
  {
    forall sid | sid in s.txs[e.t].pc.mine ensures Holds(s, e.t, sid) {
    }
  }

  lemma ReapEvolves(s: State, e: Event, u: TxId)
    requires Enabled(s, e) && e.Reap?
    ensures Evolves(s, Apply(s, e), u)
  {
  }

  lemma EnrolEvolves(s: State, e: Event, u: TxId)
    requires Tips(s) && Enabled(s, e) && e.SignIn?
    ensures Evolves(s, Apply(s, e), u)
  {
  }

  lemma QuietEvolves(s: State, e: Event, u: TxId)
    requires Enabled(s, e) && Quiet(e)
    ensures Evolves(s, Apply(s, e), u)
  {
    QuietStep(s, e);
  }

  lemma OthersEvolve(s: State, e: Event, u: TxId)
    requires Inv(s) && Enabled(s, e)
    requires u in s.txs && Actor(e) != Some(u)
    ensures Evolves(s, Apply(s, e), u)
  {
    if e.CommitRotation? {
      RotateEvolves(s, e, u);
    } else if e.CommitRevoke? {
      WithdrawEvolves(s, e, u);
    } else if e.Reap? {
      ReapEvolves(s, e, u);
    } else if e.SignIn? {
      EnrolEvolves(s, e, u);
    } else {
      QuietEvolves(s, e, u);
    }
  }

  /** A step adds at most one token to one chain, and a fresh one. */
  lemma ApplyLinks(s: State, e: Event, sid: SessionId, k: nat, d: Digest)
    requires Enabled(s, e)
    requires Link(Apply(s, e).issued, sid, k, d)
    ensures Link(s.issued, sid, k, d) || (Fresh(s, d) && Newest(s, e, sid, k, d))
  {
  }

  ghost predicate Newest(s: State, e: Event, sid: SessionId, k: nat, d: Digest) {
    if e.CommitRotation? then
      e.t in s.txs && s.txs[e.t].pc == Rotating(sid) && sid in s.issued && k == |s.issued[sid]| && d == e.next
    else
      e.SignIn? && sid == e.sid && k == 0 && d == e.digest
  }

  lemma ApplyChains(s: State, e: Event)
    requires Inv(s) && Enabled(s, e)
    ensures Chains(Apply(s, e))
  {
    ApplyTips(s, e);
    var s' := Apply(s, e);
    forall a, j: nat, b, k: nat, d | Link(s'.issued, a, j, d) && Link(s'.issued, b, k, d)
      ensures a == b && j == k
    {
      ApplyLinks(s, e, a, j, d);
      ApplyLinks(s, e, b, k, d);
    }
  }

  lemma LockTaken(s: State, e: Event, t: TxId, sid: SessionId)
    requires Enabled(s, e) && Holds(Apply(s, e), t, sid)
    ensures Holds(s, t, sid) || (Actor(e) == Some(t) && FreeFor(s, sid, t))
  {
  }

  lemma ApplyExclusive(s: State, e: Event)
    requires Inv(s) && Enabled(s, e)
    ensures Exclusive(Apply(s, e))
  {
    forall t: TxId, u: TxId, sid | Holds(Apply(s, e), t, sid) && Holds(Apply(s, e), u, sid) ensures t == u {
      LockTaken(s, e, t, sid);
      LockTaken(s, e, u, sid);
    }
  }

  lemma LockedOk(s: State, e: Event)
    requires Enabled(s, e) && (e.CurrentLock? || e.PreviousLock?)
    ensures TxOk(Apply(s, e), e.t)
  {
  }

  lemma CheckOk(s: State, e: Event)
    requires Enabled(s, e) && e.Check? && TxOk(s, e.t)
    ensures TxOk(Apply(s, e), e.t)
  {
  }

  lemma RotateOk(s: State, e: Event)
    requires Enabled(s, e) && e.CommitRotation?
    ensures TxOk(Apply(s, e), e.t)
  {
    var sid := s.txs[e.t].pc.sid;
    assert Apply(s, e).accepted[sid] == s.accepted[sid] + [(s.txs[e.t].request.digest, e.t)];
  }

  lemma RevokeBeginOk(s: State, e: Event)
    requires Tips(s) && Enabled(s, e) && e.RevokeBegin? && TxOk(s, e.t)
    ensures TxOk(Apply(s, e), e.t)
  {
  }

  lemma RevokeRowOk(s: State, e: Event)
    requires Tips(s) && Enabled(s, e) && e.RevokeRow? && TxOk(s, e.t)
    ensures TxOk(Apply(s, e), e.t)
  {
  }

  lemma CommitRevokeOk(s: State, e: Event)
    requires Enabled(s, e) && e.CommitRevoke? && TxOk(s, e.t)
    ensures TxOk(Apply(s, e), e.t)
  {
  }

  lemma WaitingOk(s: State, e: Event)
    requires Enabled(s, e) && (e.Start? || e.CurrentLookup? || e.PreviousLookup? || e.Abort?)
    ensures TxOk(Apply(s, e), e.t)
  {
  }

  lemma ActorOk(s: State, e: Event)
    requires Inv(s) && Enabled(s, e) && Actor(e).Some?
    ensures TxOk(Apply(s, e), e.t)
  {
    match e
    case CurrentLock(_) => LockedOk(s, e);
    case PreviousLock(_) => LockedOk(s, e);
    case Check(_) => CheckOk(s, e);
    case CommitRotation(_, _, _) => RotateOk(s, e);
    case RevokeBegin(_) => RevokeBeginOk(s, e);
    case RevokeRow(_, _) => RevokeRowOk(s, e);
    case CommitRevoke(_) => CommitRevokeOk(s, e);
    case _ => WaitingOk(s, e);
  }

  lemma ApplyInv(s: State, e: Event)
    requires Inv(s) && Enabled(s, e)
    ensures Inv(Apply(s, e))
  {
    ApplyChains(s, e);
    ApplyExclusive(s, e);
    var s' := Apply(s, e);
    forall u | u in s'.txs ensures TxOk(s', u) {
      if Actor(e) == Some(u) {
        ActorOk(s, e);
      } else {
        OthersEvolve(s, e, u);
        TxFrame(s, s', u);
      }
    }
  }

  // -- runs -----------------------------------------------------------------------

  ghost predicate Init(s: State) {
    s.rows == map[] && s.txs == map[] && s.issued == map[] && s.accepted == map[]
  }

  ghost predicate Step(s: State, e: Event, s': State) {
    Enabled(s, e) && s' == Apply(s, e)
  }

  ghost predicate Run(ss: seq<State>, es: seq<Event>) {
    && |ss| == |es| + 1
    && Init(ss[0])
    && forall i {:trigger es[i]} :: 0 <= i < |es| ==> Step(ss[i], es[i], ss[i + 1])
  }

  lemma {:induction false} RunInv(ss: seq<State>, es: seq<Event>, i: nat)
    requires Run(ss, es) && i < |ss|
    ensures Inv(ss[i])
  {
    if i > 0 {
      RunInv(ss, es, i - 1);
      ApplyInv(ss[i - 1], es[i - 1]);
    }
  }

  /** However refreshes of one token interleave, at most one of them ever rotates a session. */
  lemma AtMostOneWinner(ss: seq<State>, es: seq<Event>, i: nat, t: TxId, u: TxId)
    requires Run(ss, es) && i < |ss|
    requires t in ss[i].txs && u in ss[i].txs
    requires ss[i].txs[t].pc.Won? && ss[i].txs[u].pc.Won?
    requires ss[i].txs[t].request == ss[i].txs[u].request
    ensures t == u
  {
    RunInv(ss, es, i);
    var s := ss[i];
    var a, b := s.txs[t].pc, s.txs[u].pc;
    assert TxOk(s, t) && TxOk(s, u);
    assert Link(s.issued, a.sid, a.link, s.txs[t].request.digest);
    assert Link(s.issued, b.sid, b.link, s.txs[u].request.digest);
  }

  /**
   The tokens a session accepts are its issuance chain, in order and each once: all but the newest
   have been accepted, the newest is the current one and the one before it the previous one.
   */
  lemma AcceptedTokensAreTheChain(ss: seq<State>, es: seq<Event>, i: nat, sid: SessionId)
    requires Run(ss, es) && i < |ss| && sid in ss[i].issued
    ensures sid in ss[i].accepted && ChainOf(ss[i].issued[sid], ss[i].accepted[sid])
    ensures sid in ss[i].rows ==> Tip(ss[i].rows[sid], ss[i].issued[sid])
    ensures forall j, k :: 0 <= j < k < |ss[i].accepted[sid]| ==> ss[i].accepted[sid][j].0 != ss[i].accepted[sid][k].0
  {
    RunInv(ss, es, i);
    var s := ss[i];
    forall j, k | 0 <= j < k < |s.accepted[sid]| ensures s.accepted[sid][j].0 != s.accepted[sid][k].0 {
      assert Link(s.issued, sid, j, s.issued[sid][j]);
      assert Link(s.issued, sid, k, s.issued[sid][k]);
    }
  }

  /** No digest is current or previous in two sessions, nor both: the two lookups never disagree. */
  lemma LookupsNeverClash(ss: seq<State>, es: seq<Event>, i: nat, d: Digest, a: SessionId, b: SessionId)
    requires Run(ss, es) && i < |ss|
    requires CurrentIn(ss[i].rows, d, a) || PreviousIn(ss[i].rows, d, a)
    requires CurrentIn(ss[i].rows, d, b) || PreviousIn(ss[i].rows, d, b)
    ensures a == b
    ensures CurrentIn(ss[i].rows, d, a) <==> !PreviousIn(ss[i].rows, d, a)
  {
    RunInv(ss, es, i);
    var s := ss[i];
    assert Tip(s.rows[a], s.issued[a]) && Tip(s.rows[b], s.issued[b]);
    var n, m := |s.issued[a]|, |s.issued[b]|;
    assert Link(s.issued, a, n - 1, d) || Link(s.issued, a, n - 2, d);
    assert Link(s.issued, b, m - 1, d) || Link(s.issued, b, m - 2, d);
    assert CurrentIn(s.rows, d, a) ==> Link(s.issued, a, n - 1, d);
    assert PreviousIn(s.rows, d, a) ==> Link(s.issued, a, n - 2, d);
  }

  lemma IssuedGrows(s: State, e: Event, sid: SessionId)
    requires Enabled(s, e) && sid in s.issued
    ensures sid in Apply(s, e).issued && s.issued[sid] <= Apply(s, e).issued[sid]
  {
  }

  lemma {:induction false} ChainOnlyGrows(ss: seq<State>, es: seq<Event>, i: nat, j: nat, sid: SessionId)
    requires Run(ss, es) && i <= j < |ss| && sid in ss[i].issued
    ensures sid in ss[j].issued && ss[i].issued[sid] <= ss[j].issued[sid]
  {
    if i < j {
      ChainOnlyGrows(ss, es, i, j - 1, sid);
      IssuedGrows(ss[j - 1], es[j - 1], sid);
    }
  }

  /** A token superseded twice is forgotten: neither lookup of any later refresh can find it. */
  lemma OlderTokenIsForgotten(ss: seq<State>, es: seq<Event>, i: nat, j: nat, sid: SessionId, k: nat, x: SessionId)
    requires Run(ss, es) && i <= j < |ss|
    requires k + 2 < |Tokens(ss[i], sid)|
    ensures !CurrentIn(ss[j].rows, Tokens(ss[i], sid)[k], x)
    ensures !PreviousIn(ss[j].rows, Tokens(ss[i], sid)[k], x)
  {
    ChainOnlyGrows(ss, es, i, j, sid);
    RunInv(ss, es, j);
    var s, d := ss[j], ss[i].issued[sid][k];
    assert Link(s.issued, sid, k, d);
    if x in s.rows {
      var n := |s.issued[x]|;
      assert Tip(s.rows[x], s.issued[x]);
      assert CurrentIn(s.rows, d, x) ==> Link(s.issued, x, n - 1, d);
      assert PreviousIn(s.rows, d, x) ==> Link(s.issued, x, n - 2, d);
    }
  }

  /** A refresh that holds no lock and has found nothing. */
  predicate Fruitless(pc: Pc) {
    pc.Begin? || pc.PreviousReady? || pc.Lost?
  }

  /**
   So whoever presents a token superseded twice is refused without touching the family: such a refresh
   never locks a row, never revokes one and never rotates one, and if it ends it has lost.
   */
  lemma {:induction false} OlderTokenIsRefused(ss: seq<State>, es: seq<Event>, i: nat, m: nat, sid: SessionId, k: nat,
      t: TxId)
    requires Run(ss, es) && i <= m < |ss|
    requires k + 2 < |Tokens(ss[i], sid)|
    requires t in ss[i].txs && ss[i].txs[t] == Tx(Present(Tokens(ss[i], sid)[k]), Begin)
    ensures t in ss[m].txs && ss[m].txs[t].request == ss[i].txs[t].request && Fruitless(ss[m].txs[t].pc)
    ensures Terminal(ss[m].txs[t].pc) ==> ss[m].txs[t].pc.Lost?
  {
    if i < m {
      OlderTokenIsRefused(ss, es, i, m - 1, sid, k, t);
      var s, e := ss[m - 1], es[m - 1];
      if (e.CurrentLookup? || e.PreviousLookup?) && e.t == t && e.found.Some? {
        OlderTokenIsForgotten(ss, es, i, m - 1, sid, k, e.found.value);
      }
      FruitlessStep(s, e, t);
    }
  }

  lemma FruitlessStep(s: State, e: Event, t: TxId)
    requires Enabled(s, e) && t in s.txs && s.txs[t].request.Present? && Fruitless(s.txs[t].pc)
    requires (e.CurrentLookup? || e.PreviousLookup?) && e.t == t ==> e.found.None?
    ensures var s' := Apply(s, e);
      t in s'.txs && s'.txs[t].request == s.txs[t].request && Fruitless(s'.txs[t].pc)
  {
    if Actor(e) != Some(t) {
      assert Apply(s, e).txs[t] == s.txs[t];
    }
  }

  /** A replay is detected exactly when the presented token was superseded by the newest rotation. */
  lemma ReplayDetectedIff(ss: seq<State>, es: seq<Event>, i: nat, t: TxId)
    requires Run(ss, es) && i < |es| && es[i] == PreviousLock(t)
    ensures var s, sid, d := ss[i], ss[i].txs[t].pc.sid, ss[i].txs[t].request.digest;
      (ss[i + 1].txs[t].pc.PreviousHeld? <==>
         sid in s.rows && |Tokens(s, sid)| >= 2 && Tokens(s, sid)[|Tokens(s, sid)| - 2] == d)
  {
    RunInv(ss, es, i);
  }

  /** A started revocation keeps its snapshot until it commits or is rolled back. */
  ghost predicate Committed(s: State, t: TxId, scope: Scope, family: set<SessionId>) {
    t in s.txs &&
    match s.txs[t].pc
    case Revoking(sc, f, _, _, _) => sc == scope && f == family
    case RevokedAll(sc, f) => sc == scope && f == family
    case pc => pc.Lost?
  }

  lemma SnapshotTaken(s: State, t: TxId, s': State)
    requires Step(s, RevokeBegin(t), s')
    ensures Committed(s', t, ScopeOf(s, t), Family(s, ScopeOf(s, t)))
  {
  }

  lemma SnapshotKept(s: State, e: Event, s': State, t: TxId, scope: Scope, family: set<SessionId>)
    requires Committed(s, t, scope, family) && Step(s, e, s')
    ensures Committed(s', t, scope, family)
  {
    if Actor(e) != Some(t) {
      assert s'.txs[t] == s.txs[t];
    }
  }

  lemma {:induction false} SnapshotCarried(ss: seq<State>, es: seq<Event>, i: nat, j: nat, t: TxId, scope: Scope,
      family: set<SessionId>)
    requires Run(ss, es) && i < j < |ss| && Committed(ss[i + 1], t, scope, family)
    ensures Committed(ss[j], t, scope, family)
  {
    if j > i + 1 {
      SnapshotCarried(ss, es, i, j - 1, t, scope, family);
      SnapshotKept(ss[j - 1], es[j - 1], ss[j], t, scope, family);
    }
  }

  /** A committed revocation has withdrawn every session its statement could see, for good. */
  lemma CommittedRevocationCoversSnapshot(ss: seq<State>, es: seq<Event>, i: nat, j: nat, t: TxId, sid: SessionId)
    requires Run(ss, es) && i < j < |ss| && es[i] == RevokeBegin(t)
    requires t in ss[j].txs && ss[j].txs[t].pc.RevokedAll?
    requires sid in ss[i].rows && Covers(ScopeOf(ss[i], t), sid, ss[i].rows[sid])
    ensures Gone(ss[j], sid)
  {
    SnapshotTaken(ss[i], t, ss[i + 1]);
    SnapshotCarried(ss, es, i, j, t, ScopeOf(ss[i], t), Family(ss[i], ScopeOf(ss[i], t)));
    RunInv(ss, es, j);
    assert TxOk(ss[j], t);
  }

  /**
   A refresh that held the compromised row when its UPDATE began, and has committed, leaves every session of
   that user that the UPDATE could see gone; the compromised session is one of them, and the token presented
   is the one spent last on it.
   */
  lemma LoserRevokesTheFamily(ss: seq<State>, es: seq<Event>, i: nat, j: nat, t: TxId, sid: SessionId)
    requires Run(ss, es) && i < j < |ss| && es[i] == RevokeBegin(t)
    requires ss[i].txs[t].pc.PreviousHeld?
    requires t in ss[j].txs && ss[j].txs[t].pc.RevokedAll?
    requires sid in ss[i].rows
    requires ss[i].rows[sid].user == ss[i].rows[ss[i].txs[t].pc.sid].user
    ensures Gone(ss[j], sid)
    ensures Gone(ss[j], ss[i].txs[t].pc.sid)
    ensures sid == ss[i].txs[t].pc.sid ==>
              sid in ss[i].accepted && |ss[i].accepted[sid]| > 0 &&
              ss[i].txs[t].request == Present(ss[i].accepted[sid][|ss[i].accepted[sid]| - 1].0)
  {
    RunInv(ss, es, i);
    assert TxOk(ss[i], t);
    CommittedRevocationCoversSnapshot(ss, es, i, j, t, sid);
    CommittedRevocationCoversSnapshot(ss, es, i, j, t, ss[i].txs[t].pc.sid);
    assert Tip(ss[i].rows[sid], ss[i].issued[sid]);
  }

  ghost predicate Caught(s: State, t: TxId) {
    t in s.txs && (s.txs[t].pc.PreviousHeld? || s.txs[t].pc.Revoking? || s.txs[t].pc.RevokedAll?)
  }

  lemma CaughtStep(s: State, e: Event, s': State, t: TxId)
    requires Caught(s, t) && Step(s, e, s') && e != Abort(t)
    ensures Caught(s', t)
  {
    if Actor(e) != Some(t) {
      assert s'.txs[t] == s.txs[t];
    }
  }

  /** Having caught a replay, a transaction can only revoke the family or be rolled back. */
  lemma {:induction false} CaughtReplayIsNeverWaved(ss: seq<State>, es: seq<Event>, i: nat, j: nat, t: TxId)
    requires Run(ss, es) && i <= j < |ss|
    requires t in ss[i].txs && ss[i].txs[t].pc.PreviousHeld?
    requires forall k :: i <= k < j ==> es[k] != Abort(t)
    ensures Caught(ss[j], t)
  {
    if i < j {
      CaughtReplayIsNeverWaved(ss, es, i, j - 1, t);
      CaughtStep(ss[j - 1], es[j - 1], ss[j], t);
    }
  }

  // -- winner and loser ---------------------------------------------------------------

  /** Where a refresh can be once its second lookup has found row `sid` or nothing. */
  predicate Sought(pc: Pc, found: Option<SessionId>) {
    || (found.Some? && pc == PreviousWait(found.value))
    || (found.Some? && pc == PreviousHeld(found.value))
    || pc.Revoking? || pc.RevokedAll? || pc.Lost?
  }

  lemma SoughtStep(s: State, e: Event, t: TxId, found: Option<SessionId>)
    requires Enabled(s, e) && t in s.txs && Sought(s.txs[t].pc, found)
    ensures var s' := Apply(s, e);
      t in s'.txs && s'.txs[t].request == s.txs[t].request && Sought(s'.txs[t].pc, found)
  {
    if Actor(e) != Some(t) {
      assert Apply(s, e).txs[t] == s.txs[t];
    }
  }

  lemma {:induction false} SoughtSince(ss: seq<State>, es: seq<Event>, i: nat, k: nat, t: TxId)
    requires Run(ss, es) && i < k < |ss| && es[i].PreviousLookup? && es[i].t == t
    ensures t in ss[k].txs && ss[k].txs[t].request == ss[i].txs[t].request
    ensures Sought(ss[k].txs[t].pc, es[i].found)
  {
    if k > i + 1 {
      SoughtSince(ss, es, i, k - 1, t);
      SoughtStep(ss[k - 1], es[k - 1], t, es[i].found);
    }
  }

  /** The token a winner spent is link number `link` of its session's chain, for good. */
  lemma WinnersToken(s: State, u: TxId)
    requires Inv(s) && u in s.txs && s.txs[u].pc.Won?
    ensures s.txs[u].request.Present?
    ensures Link(s.issued, s.txs[u].pc.sid, s.txs[u].pc.link, s.txs[u].request.digest)
    ensures s.txs[u].pc.link + 1 < |s.issued[s.txs[u].pc.sid]|
  {
    assert TxOk(s, u);
  }

  /** A row whose previous digest is link `link` of a chain is the row of that chain, superseded once. */
  lemma PreviousLink(s: State, d: Digest, sid: SessionId, link: nat, x: SessionId)
    requires Inv(s) && Link(s.issued, sid, link, d) && PreviousIn(s.rows, d, x)
    ensures x == sid && |s.issued[sid]| == link + 2
  {
    var n := |s.issued[x]|;
    assert Tip(s.rows[x], s.issued[x]);
    assert Link(s.issued, x, n - 2, d);
  }

  lemma HeldMoves(s: State, e: Event, t: TxId)
    requires Enabled(s, e) && t in s.txs && s.txs[t].pc.PreviousHeld?
    requires t in Apply(s, e).txs && Apply(s, e).txs[t].pc != s.txs[t].pc
    ensures e == RevokeBegin(t) || e == Abort(t)
  {
  }

  /** From the lock on the compromised row, a committed refresh has gone through `RevokeBegin`. */
  lemma {:induction false} RevocationBegan(ss: seq<State>, es: seq<Event>, j: nat, m: nat, t: TxId, sid: SessionId)
      returns (b: nat)
    requires Run(ss, es) && j <= m < |ss|
    requires t in ss[j].txs && ss[j].txs[t].pc == PreviousHeld(sid)
    requires t in ss[m].txs && ss[m].txs[t].pc != PreviousHeld(sid)
    requires forall k :: j <= k < m ==> es[k] != Abort(t)
    ensures j <= b < m && es[b] == RevokeBegin(t) && t in ss[b].txs && ss[b].txs[t].pc == PreviousHeld(sid)
  {
    CaughtReplayIsNeverWaved(ss, es, j, m - 1, t);
    if ss[m - 1].txs[t].pc == PreviousHeld(sid) {
      b := m - 1;
      HeldMoves(ss[b], es[b], t);
    } else {
      b := RevocationBegan(ss, es, j, m - 1, t, sid);
    }
  }

  /**
   Whoever presents a token that `u` has already spent, and looks for it as a previous token, catches the
   replay exactly when the winner's session is still there and was not rotated again by the time the row
   is locked.
   */
  lemma LoserCatchesReplayIff(ss: seq<State>, es: seq<Event>, i: nat, j: nat, u: TxId, t: TxId)
    requires Run(ss, es) && i < j < |es|
    requires u in ss[i].txs && ss[i].txs[u].pc.Won?
    requires es[i].PreviousLookup? && es[i].t == t && ss[i].txs[t].request == ss[i].txs[u].request
    requires es[j] == PreviousLock(t)
    ensures var sid, link := ss[i].txs[u].pc.sid, ss[i].txs[u].pc.link;
      && t in ss[j + 1].txs && sid in ss[j].accepted
      && ss[j + 1].txs[t].pc ==
         if sid in ss[j].rows && |ss[j].accepted[sid]| == link + 1 then PreviousHeld(sid) else Lost
  {
    var sid, link := ss[i].txs[u].pc.sid, ss[i].txs[u].pc.link;
    RunInv(ss, es, i);
    RunInv(ss, es, j);
    SoughtSince(ss, es, i, j, t);
    WinnersRowFound(ss[i], es[i], u);
    ChainOnlyGrows(ss, es, i, j, sid);
    assert Step(ss[j], es[j], ss[j + 1]);
    CaughtIff(ss[j], t, sid, link);
  }

  /** A lookup of a token already spent finds, if anything, the session it was spent on. */
  lemma WinnersRowFound(s: State, e: Event, u: TxId)
    requires Inv(s) && Enabled(s, e) && e.PreviousLookup? && u in s.txs && s.txs[u].pc.Won?
    requires s.txs[e.t].request == s.txs[u].request
    ensures Link(s.issued, s.txs[u].pc.sid, s.txs[u].pc.link, s.txs[u].request.digest)
    ensures e.found.Some? ==> e.found.value == s.txs[u].pc.sid
  {
    WinnersToken(s, u);
    if e.found.Some? {
      PreviousLink(s, s.txs[u].request.digest, s.txs[u].pc.sid, s.txs[u].pc.link, e.found.value);
    }
  }

  lemma CaughtIff(s: State, t: TxId, sid: SessionId, link: nat)
    requires Inv(s) && Enabled(s, PreviousLock(t)) && s.txs[t].pc == PreviousWait(sid)
    requires Link(s.issued, sid, link, s.txs[t].request.digest)
    ensures sid in s.accepted
    ensures Apply(s, PreviousLock(t)).txs[t].pc ==
            if sid in s.rows && |s.accepted[sid]| == link + 1 then PreviousHeld(sid) else Lost
  {
    var d := s.txs[t].request.digest;
    assert ChainOf(s.issued[sid], s.accepted[sid]);
    if sid in s.rows {
      assert Tip(s.rows[sid], s.issued[sid]);
      if PreviousIn(s.rows, d, sid) {
        PreviousLink(s, d, sid, link, sid);
      }
    }
  }

  /**
   The losing refresh, from its second lookup to its end. It presents the token that `u` has spent; it is
   not rolled back; and it ends. Then it has revoked the family if and only if the winner's session was
   still there, not rotated again, when the row was locked, and otherwise it has merely lost. If it has
   revoked, then at the moment `b` its UPDATE began, every session of the user is one that is gone, in
   this and every later state, the winner's included.
   */
  lemma LoserRevokesTheFamilyIff(ss: seq<State>, es: seq<Event>, i: nat, j: nat, m: nat, u: TxId, t: TxId)
      returns (b: nat)
    requires Run(ss, es) && i < j < m < |ss|
    requires u in ss[i].txs && ss[i].txs[u].pc.Won?
    requires es[i].PreviousLookup? && es[i].t == t && ss[i].txs[t].request == ss[i].txs[u].request
    requires es[j] == PreviousLock(t)
    requires forall k :: j < k < m ==> es[k] != Abort(t)
    requires t in ss[m].txs && Terminal(ss[m].txs[t].pc)
    ensures var sid, link := ss[i].txs[u].pc.sid, ss[i].txs[u].pc.link;
      && sid in ss[j].accepted
      && (ss[m].txs[t].pc.RevokedAll? <==> sid in ss[j].rows && |ss[j].accepted[sid]| == link + 1)
      && (!ss[m].txs[t].pc.RevokedAll? ==> ss[m].txs[t].pc.Lost?)
    ensures ss[m].txs[t].pc.RevokedAll? ==>
      var sid := ss[i].txs[u].pc.sid;
      && j < b < m && es[b] == RevokeBegin(t) && sid in ss[b].rows && Gone(ss[m], sid)
      && forall x :: x in ss[b].rows && ss[b].rows[x].user == ss[b].rows[sid].user ==>
           forall n :: m <= n < |ss| ==> Gone(ss[n], x)
  {
    var sid := ss[i].txs[u].pc.sid;
    LoserCatchesReplayIff(ss, es, i, j, u, t);
    if ss[j + 1].txs[t].pc == PreviousHeld(sid) {
      CaughtReplayIsNeverWaved(ss, es, j + 1, m, t);
      b := RevocationBegan(ss, es, j + 1, m, t, sid);
      RunInv(ss, es, b);
      assert TxOk(ss[b], t);
      forall x | x in ss[b].rows && ss[b].rows[x].user == ss[b].rows[sid].user
        ensures forall n :: m <= n < |ss| ==> Gone(ss[n], x)
      {
        LoserRevokesTheFamily(ss, es, b, m, t, x);
        forall n: nat | m <= n < |ss| ensures Gone(ss[n], x) {
          RevokedForGood(ss, es, m, n, x);
        }
      }
      assert Gone(ss[m], sid);
    } else {
      LostStays(ss, es, j + 1, m, t);
      b := j;
    }
  }

  lemma {:induction false} LostStays(ss: seq<State>, es: seq<Event>, i: nat, m: nat, t: TxId)
    requires Run(ss, es) && i <= m < |ss| && t in ss[i].txs && ss[i].txs[t].pc.Lost?
    ensures t in ss[m].txs && ss[m].txs[t].pc.Lost?
  {
    if i < m {
      LostStays(ss, es, i, m - 1, t);
      LostStep(ss[m - 1], es[m - 1], t);
    }
  }

  lemma LostStep(s: State, e: Event, t: TxId)
    requires Enabled(s, e) && t in s.txs && s.txs[t].pc.Lost?
    ensures t in Apply(s, e).txs && Apply(s, e).txs[t].pc.Lost?
  {
    if Actor(e) != Some(t) {
      assert Apply(s, e).txs[t] == s.txs[t];
    }
  }

  // -- revocation is permanent under interleaving ------------------------------------------

  lemma RotationSparesGone(s: State, e: Event, sid: SessionId)
    requires Enabled(s, e) && e.CommitRotation? && TxOk(s, e.t) && Gone(s, sid)
    ensures s.txs[e.t].pc.sid != sid && Gone(Apply(s, e), sid)
  {
  }

  lemma CommitKeepsGone(s: State, e: Event, sid: SessionId)
    requires Enabled(s, e) && (e.CommitRevoke? || e.SignIn? || e.Reap?) && Gone(s, sid)
    ensures Gone(Apply(s, e), sid)
  {
  }

  lemma GoneStays(s: State, e: Event, sid: SessionId)
    requires Inv(s) && Enabled(s, e) && Gone(s, sid)
    ensures Gone(Apply(s, e), sid)
    ensures e.CommitRotation? ==> s.txs[e.t].pc.sid != sid
  {
    if e.CommitRotation? {
      RotationSparesGone(s, e, sid);
    } else if Quiet(e) {
      QuietStep(s, e);
    } else {
      CommitKeepsGone(s, e, sid);
    }
  }

  /**
   Once a revocation of a session is committed it stays so, and no transaction rotates the session again,
   not even one that had passed its checks before.
   */
  lemma {:induction false} RevokedForGood(ss: seq<State>, es: seq<Event>, i: nat, j: nat, sid: SessionId)
    requires Run(ss, es) && i <= j < |ss| && Gone(ss[i], sid)
    ensures Gone(ss[j], sid)
    ensures j < |es| && es[j].CommitRotation? ==> ss[j].txs[es[j].t].pc.sid != sid
  {
    if i < j {
      RevokedForGood(ss, es, i, j - 1, sid);
      RunInv(ss, es, j - 1);
      GoneStays(ss[j - 1], es[j - 1], sid);
    }
    if j < |es| {
      RunInv(ss, es, j);
      GoneStays(ss[j], es[j], sid);
    }
  }
}
