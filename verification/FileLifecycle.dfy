/**
 Two stores that must agree: file rows and stored objects (src/services/storage.rs,
 reap_abandoned_uploads in src/main.rs).

 Every SQL statement and every storage call is one step, and any number of handlers interleave with
 the reaper. A file's storage key is its id with an extension, so objects are keyed by the id.
 Times are in microseconds and the lifetime of a signed URL in seconds.
 */
module FileLifecycle {
  import opened Wrappers
  import Text
  import UploadStream

  type Time = int
  type FileId = nat
  type TaskId = nat

  const SECOND: int := 1_000_000

  datatype Status = Pending | Ready

  datatype FileRow = FileRow(status: Status, deleted: bool, createdAt: Time, size: nat)

  /**
   Where a handler stands between two statements; `Owes` means its object is gone and its tombstone due. A save
   can be refused after storing, and any handler can be dropped where it stands, by a crash or a disconnect.
   */
  datatype Pc =
    | SaveStored(id: FileId, len: nat)
    | PresignGranted(id: FileId, expires: Time)
    | UploadVerified(id: FileId, len: nat, since: Time)
    | UploadCleared(id: FileId, len: nat, since: Time)
    | CompleteRead(id: FileId)
    | CompleteSized(id: FileId, len: nat)
    | CompleteOver(id: FileId)
    | CompleteOwes(id: FileId)
    | DeleteLoaded(id: FileId)
    | DeleteMarked(id: FileId)
    | ReapTodo(todo: set<FileId>)
    | ReapOwes(id: FileId, todo: set<FileId>)
    | SaveRefused(id: FileId)
    | Dropped(was: Pc)
    | Finished

  datatype State = State(
    ttl: nat,
    maxBytes: nat,
    now: Time,
    rows: map<FileId, FileRow>,
    objects: map<FileId, nat>,
    grants: map<FileId, Time>,
    minted: set<FileId>,
    tasks: map<TaskId, Pc>)

  datatype Event =
    | SaveStore(t: TaskId, id: FileId, len: nat)
    | SaveInsert(t: TaskId)
    | SaveRefuse(t: TaskId)
    | SaveUndo(t: TaskId)
    | PresignBegin(t: TaskId, id: FileId)
    | PresignInsert(t: TaskId)
    | UploadVerify(t: TaskId, id: FileId, len: nat)
    | UploadCheck(t: TaskId)
    | UploadWrite(t: TaskId)
    | CompleteLoad(t: TaskId, id: FileId)
    | CompleteHead(t: TaskId)
    | CompleteDelete(t: TaskId)
    | CompleteTombstone(t: TaskId)
    | CompleteCommit(t: TaskId)
    | DeleteLoad(t: TaskId, id: FileId)
    | DeleteMark(t: TaskId)
    | DeleteObject(t: TaskId)
    | ReapSelect(t: TaskId)
    | ReapDelete(t: TaskId, id: FileId)
    | ReapTombstone(t: TaskId)
    | Drop(t: TaskId)
    | NativePut(id: FileId, len: nat)
    | Tick(delta: nat)

  predicate LiveReady(rows: map<FileId, FileRow>, id: FileId) {
    id in rows && rows[id].status.Ready? && !rows[id].deleted
  }

  predicate LivePending(rows: map<FileId, FileRow>, id: FileId) {
    id in rows && rows[id].status.Pending? && !rows[id].deleted
  }

  /** Expiry as printed in the URL: whole seconds. */
  function GrantUntil(now: Time, ttl: nat): Time {
    (now + ttl * SECOND) / SECOND * SECOND
  }

  /** The reaper waits out twice the URL lifetime. */
  predicate Stale(row: FileRow, now: Time, ttl: nat) {
    row.status.Pending? && !row.deleted && row.createdAt < now - 2 * ttl * SECOND
  }

  /** A handler that will take no further step. */
  predicate Ended(pc: Pc) {
    pc.Finished? || pc.SaveRefused? || pc.Dropped?
  }

  /** Where a handler stands, or stood when it was dropped. */
  function Was(pc: Pc): Pc {
    if pc.Dropped? then pc.was else pc
  }

  predicate Enabled(s: State, e: Event) {
    match e
    case SaveStore(t, id, len) => t !in s.tasks && id !in s.minted && 0 < len <= s.maxBytes
    case SaveInsert(t) => t in s.tasks && s.tasks[t].SaveStored?
    case SaveRefuse(t) => t in s.tasks && s.tasks[t].SaveStored?
    case SaveUndo(t) => t in s.tasks && s.tasks[t].SaveStored?
    case PresignBegin(t, id) => t !in s.tasks && id !in s.minted
    case PresignInsert(t) => t in s.tasks && s.tasks[t].PresignGranted?
    case UploadVerify(t, id, len) => t !in s.tasks && id in s.grants && s.now < s.grants[id] && len <= s.maxBytes
    case UploadCheck(t) => t in s.tasks && s.tasks[t].UploadVerified?
    case UploadWrite(t) => t in s.tasks && s.tasks[t].UploadCleared?
    case CompleteLoad(t, id) => t !in s.tasks && id in s.rows && !s.rows[id].deleted
    case CompleteHead(t) => t in s.tasks && s.tasks[t].CompleteRead?
    case CompleteDelete(t) => t in s.tasks && s.tasks[t].CompleteOver?
    case CompleteTombstone(t) => t in s.tasks && s.tasks[t].CompleteOwes?
    case CompleteCommit(t) => t in s.tasks && s.tasks[t].CompleteSized?
    case DeleteLoad(t, id) => t !in s.tasks && LiveReady(s.rows, id)
    case DeleteMark(t) => t in s.tasks && s.tasks[t].DeleteLoaded?
    case DeleteObject(t) => t in s.tasks && s.tasks[t].DeleteMarked?
    case ReapSelect(t) => t !in s.tasks
    case ReapDelete(t, id) => t in s.tasks && s.tasks[t].ReapTodo? && id in s.tasks[t].todo
    case ReapTombstone(t) => t in s.tasks && s.tasks[t].ReapOwes?
    case Drop(t) => t in s.tasks && !Ended(s.tasks[t])
    case NativePut(id, _) => id in s.grants
    case Tick(_) => true
  }

  function At(s: State, t: TaskId, pc: Pc): State {
    s.(tasks := s.tasks[t := pc])
  }

  /** A tombstone is put on the row, if there is one, whatever its status. */
  function Tombstoned(rows: map<FileId, FileRow>, id: FileId): map<FileId, FileRow> {
    if id in rows then rows[id := rows[id].(deleted := true)] else rows
  }

  /** A pending row becomes ready with its size; tombstones are not looked at. */
  function MadeReady(rows: map<FileId, FileRow>, id: FileId, len: nat): map<FileId, FileRow> {
    if id in rows && rows[id].status.Pending? then rows[id := rows[id].(status := Ready, size := len)] else rows
  }

  function Without(objects: map<FileId, nat>, id: FileId): map<FileId, nat> {
    map x | x in objects && x != id :: objects[x]
  }

  function Apply(s: State, e: Event): State
    requires Enabled(s, e)
  {
    match e
    case SaveStore(t, id, len) =>
      At(s, t, SaveStored(id, len)).(objects := s.objects[id := len], minted := s.minted + {id})
    case SaveInsert(t) =>
      var pc := s.tasks[t];
      At(s, t, Finished).(rows := s.rows[pc.id := FileRow(Ready, false, s.now, pc.len)])
    case SaveRefuse(t) => At(s, t, SaveRefused(s.tasks[t].id))
    case SaveUndo(t) => At(s, t, Finished).(objects := Without(s.objects, s.tasks[t].id))
    case PresignBegin(t, id) =>
      At(s, t, PresignGranted(id, GrantUntil(s.now, s.ttl))).(minted := s.minted + {id})
    case PresignInsert(t) =>
      var pc := s.tasks[t];
      At(s, t, Finished).(
        rows := s.rows[pc.id := FileRow(Pending, false, s.now, 0)],
        grants := s.grants[pc.id := pc.expires])
    case UploadVerify(t, id, len) => At(s, t, UploadVerified(id, len, s.now))
    case UploadCheck(t) =>
      var pc := s.tasks[t];
      At(s, t, if LivePending(s.rows, pc.id) then UploadCleared(pc.id, pc.len, pc.since) else Finished)
    case UploadWrite(t) =>
      At(s, t, Finished).(objects := s.objects[s.tasks[t].id := s.tasks[t].len])
    case CompleteLoad(t, id) => At(s, t, if s.rows[id].status.Ready? then Finished else CompleteRead(id))
    case CompleteHead(t) =>
      var id := s.tasks[t].id;
      At(s, t, if id !in s.objects || s.objects[id] == 0 then Finished
               else if s.objects[id] > s.maxBytes then CompleteOver(id)
               else CompleteSized(id, s.objects[id]))
    case CompleteDelete(t) =>
      At(s, t, CompleteOwes(s.tasks[t].id)).(objects := Without(s.objects, s.tasks[t].id))
    case CompleteTombstone(t) => At(s, t, Finished).(rows := Tombstoned(s.rows, s.tasks[t].id))
    case CompleteCommit(t) => At(s, t, Finished).(rows := MadeReady(s.rows, s.tasks[t].id, s.tasks[t].len))
    case DeleteLoad(t, id) => At(s, t, DeleteLoaded(id))
    case DeleteMark(t) => At(s, t, DeleteMarked(s.tasks[t].id)).(rows := Tombstoned(s.rows, s.tasks[t].id))
    case DeleteObject(t) => At(s, t, Finished).(objects := Without(s.objects, s.tasks[t].id))
    case ReapSelect(t) => At(s, t, ReapTodo(set id | id in s.rows && Stale(s.rows[id], s.now, s.ttl)))
    case ReapDelete(t, id) =>
      At(s, t, ReapOwes(id, s.tasks[t].todo - {id})).(objects := Without(s.objects, id))
    case ReapTombstone(t) => At(s, t, ReapTodo(s.tasks[t].todo)).(rows := Tombstoned(s.rows, s.tasks[t].id))
    case Drop(t) => At(s, t, Dropped(s.tasks[t]))
    case NativePut(id, len) => s.(objects := s.objects[id := len])
    case Tick(delta) => s.(now := s.now + delta)
  }

  ghost predicate Run(ss: seq<State>, es: seq<Event>) {
    && |ss| == |es| + 1
    && ss[0].rows == map[] && ss[0].objects == map[] && ss[0].grants == map[] && ss[0].tasks == map[]
    && forall i {:trigger es[i]} :: 0 <= i < |es| ==> Enabled(ss[i], es[i]) && ss[i + 1] == Apply(ss[i], es[i])
  }

  // -- every readable file has bytes ---------------------------------------------------

  predicate Owes(pc: Pc, id: FileId) {
    (Was(pc).CompleteOwes? || Was(pc).ReapOwes?) && Was(pc).id == id
  }

  /** Some handler has deleted the object and owes the row its tombstone, or was dropped owing it. */
  ghost predicate Owed(s: State, id: FileId) {
    exists t :: t in s.tasks && Owes(s.tasks[t], id)
  }

  ghost predicate Backed(s: State, id: FileId) {
    id in s.objects || Owed(s, id)
  }

  /** A new id whose row is not inserted yet, if it ever will be. */
  predicate Reserves(pc: Pc, id: FileId) {
    (Was(pc).SaveStored? || Was(pc).PresignGranted? || Was(pc).SaveRefused?) && Was(pc).id == id
  }

  ghost predicate TaskOk(s: State, t: TaskId)
    requires t in s.tasks
  {
    PcOk(s, Was(s.tasks[t]))
  }

  ghost predicate PcOk(s: State, pc: Pc) {
    match pc
    case SaveStored(id, _) => id in s.minted && id !in s.rows && id in s.objects
    case SaveRefused(id) => id in s.minted && id !in s.rows && id in s.objects
    case PresignGranted(id, _) => id in s.minted && id !in s.rows
    case UploadVerified(id, _, _) => id in s.rows
    case UploadCleared(id, _, _) => id in s.rows
    case CompleteRead(id) => id in s.rows
    case CompleteSized(id, _) => id in s.rows && (s.rows[id].deleted || Backed(s, id))
    case CompleteOver(id) => id in s.rows
    case CompleteOwes(id) => id in s.rows
    case DeleteLoaded(id) => id in s.rows
    case DeleteMarked(id) => id in s.rows && s.rows[id].deleted
    case ReapTodo(todo) => todo <= s.rows.Keys
    case ReapOwes(id, todo) => id in s.rows && todo <= s.rows.Keys
    case Dropped(_) => true
    case Finished => true
  }

  ghost predicate Inv(s: State) {
    && s.grants.Keys <= s.rows.Keys <= s.minted
    && (forall t :: t in s.tasks ==> TaskOk(s, t))
    && (forall t, u, id ::
          t in s.tasks && u in s.tasks && Reserves(s.tasks[t], id) && Reserves(s.tasks[u], id) ==> t == u)
    && (forall id :: LiveReady(s.rows, id) ==> Backed(s, id))
  }

  function Actor(e: Event): Option<TaskId> {
    match e
    case NativePut(_, _) => None
    case Tick(_) => None
    case _ => Some(e.t)
  }

  /** Rows stay, tombstones stay, and an object disappears only with its tombstone due or in place. */
  ghost predicate Evolves(s: State, s': State) {
    && s.rows.Keys <= s'.rows.Keys && s.minted <= s'.minted
    && (forall id :: id in s.rows && s.rows[id].deleted ==> s'.rows[id].deleted)
    && (forall id :: id in s.rows && Backed(s, id) ==> Backed(s', id) || (id in s'.rows && s'.rows[id].deleted))
  }

  lemma ObjectKept(s: State, e: Event, id: FileId)
    requires Inv(s) && Enabled(s, e) && id in s.objects && id in s.rows
    ensures id in Apply(s, e).objects || Owed(Apply(s, e), id) || (id in s.rows && s.rows[id].deleted)
  {
    var s' := Apply(s, e);
    if e.CompleteDelete? || e.ReapDelete? {
      assert id !in s'.objects ==> Owes(s'.tasks[e.t], id);
    } else if e.DeleteObject? || e.SaveUndo? {
      assert TaskOk(s, e.t);
    }
  }

  lemma DebtKept(s: State, e: Event, t: TaskId, id: FileId)
    requires Enabled(s, e) && t in s.tasks && Owes(s.tasks[t], id) && id in s.rows
    ensures Owed(Apply(s, e), id) || (id in Apply(s, e).rows && Apply(s, e).rows[id].deleted)
  {
    if Actor(e) != Some(t) {
      assert t in Apply(s, e).tasks && Apply(s, e).tasks[t] == s.tasks[t];
    } else if e.Drop? {
      assert Owes(Apply(s, e).tasks[t], id);
    }
  }

  lemma BackedKept(s: State, e: Event, id: FileId)
    requires Inv(s) && Enabled(s, e) && Backed(s, id) && id in s.rows
    ensures var s' := Apply(s, e); Backed(s', id) || (id in s'.rows && s'.rows[id].deleted)
  {
    if id in s.objects {
      ObjectKept(s, e, id);
      TombstonesStay(s, e);
    } else {
      var t :| t in s.tasks && Owes(s.tasks[t], id);
      DebtKept(s, e, t, id);
    }
  }

  lemma StepEvolves(s: State, e: Event)
    requires Inv(s) && Enabled(s, e)
    ensures Evolves(s, Apply(s, e))
  {
    var s' := Apply(s, e);
    forall id | id in s.rows && Backed(s, id) ensures Backed(s', id) || (id in s'.rows && s'.rows[id].deleted) {
      BackedKept(s, e, id);
    }
    TombstonesStay(s, e);
  }

  lemma TombstonesStay(s: State, e: Event)
    requires Inv(s) && Enabled(s, e)
    ensures var s' := Apply(s, e);
      && s.rows.Keys <= s'.rows.Keys && s.minted <= s'.minted
      && (forall id :: id in s.rows && s.rows[id].deleted ==> s'.rows[id].deleted)
  {
    if e.SaveInsert? || e.PresignInsert? {
      assert TaskOk(s, e.t);
    }
  }

  /** A reserved id stays out of everybody else's reach. */
  lemma RivalElsewhere(s: State, e: Event, t: TaskId, id: FileId)
    requires Inv(s) && Enabled(s, e) && t in s.tasks && Reserves(s.tasks[t], id)
    requires (e.SaveInsert? || e.PresignInsert? || e.SaveUndo?) && e.t != t
    ensures s.tasks[e.t].id != id
  {
    assert Reserves(s.tasks[e.t], s.tasks[e.t].id);
  }

  lemma RemovalElsewhere(s: State, e: Event, id: FileId)
    requires Inv(s) && Enabled(s, e) && id !in s.rows
    requires e.CompleteDelete? || e.DeleteObject? || e.ReapDelete?
    ensures id in s.objects ==> id in Apply(s, e).objects
  {
    assert TaskOk(s, e.t);
  }

  lemma ReservationKept(s: State, e: Event, t: TaskId, id: FileId)
    requires Inv(s) && Enabled(s, e) && t in s.tasks && Reserves(s.tasks[t], id) && Actor(e) != Some(t)
    ensures var s' := Apply(s, e);
      id !in s'.rows && (!Was(s.tasks[t]).PresignGranted? ==> id in s'.objects)
  {
    assert TaskOk(s, t);
    if e.SaveInsert? || e.PresignInsert? || e.SaveUndo? {
      RivalElsewhere(s, e, t, id);
    } else if e.CompleteDelete? || e.DeleteObject? || e.ReapDelete? {
      RemovalElsewhere(s, e, id);
    }
  }

  lemma OtherTaskOk(s: State, e: Event, t: TaskId)
    requires Inv(s) && Enabled(s, e) && t in s.tasks && Actor(e) != Some(t)
    ensures TaskOk(Apply(s, e), t)
  {
    StepEvolves(s, e);
    var s' := Apply(s, e);
    assert s'.tasks[t] == s.tasks[t] && TaskOk(s, t);
    var pc := Was(s.tasks[t]);
    if pc.SaveStored? || pc.PresignGranted? || pc.SaveRefused? {
      ReservationKept(s, e, t, pc.id);
    }
  }

  lemma SaverOk(s: State, e: Event)
    requires Inv(s) && Enabled(s, e) && (e.SaveStore? || e.SaveInsert? || e.SaveRefuse? || e.SaveUndo?)
    ensures e.t in Apply(s, e).tasks && TaskOk(Apply(s, e), e.t)
  {
    assert e.t in s.tasks ==> TaskOk(s, e.t);
  }

  lemma PresignerOk(s: State, e: Event)
    requires Inv(s) && Enabled(s, e) && (e.PresignBegin? || e.PresignInsert?)
    ensures e.t in Apply(s, e).tasks && TaskOk(Apply(s, e), e.t)
  {
  }

  lemma DroppedOk(s: State, e: Event)
    requires Inv(s) && Enabled(s, e) && e.Drop?
    ensures e.t in Apply(s, e).tasks && TaskOk(Apply(s, e), e.t)
  {
    var s' := Apply(s, e);
    assert TaskOk(s, e.t);
    assert Was(s'.tasks[e.t]) == Was(s.tasks[e.t]) == s.tasks[e.t];
    if s.tasks[e.t].CompleteSized? && Owed(s, s.tasks[e.t].id) {
      var t :| t in s.tasks && Owes(s.tasks[t], s.tasks[e.t].id);
      DebtKept(s, e, t, s.tasks[e.t].id);
    }
  }

  lemma UploaderOk(s: State, e: Event)
    requires Inv(s) && Enabled(s, e) && (e.UploadVerify? || e.UploadCheck? || e.UploadWrite?)
    ensures e.t in Apply(s, e).tasks && TaskOk(Apply(s, e), e.t)
  {
    assert e.t in s.tasks ==> TaskOk(s, e.t);
  }

  lemma CompleterOk(s: State, e: Event)
    requires Inv(s) && Enabled(s, e)
    requires e.CompleteLoad? || e.CompleteHead? || e.CompleteDelete? || e.CompleteTombstone? || e.CompleteCommit?
    ensures e.t in Apply(s, e).tasks && TaskOk(Apply(s, e), e.t)
  {
    assert e.t in s.tasks ==> TaskOk(s, e.t);
  }

  lemma RemoverOk(s: State, e: Event)
    requires Inv(s) && Enabled(s, e) && (e.DeleteLoad? || e.DeleteMark? || e.DeleteObject?)
    ensures e.t in Apply(s, e).tasks && TaskOk(Apply(s, e), e.t)
  {
    assert e.t in s.tasks ==> TaskOk(s, e.t);
  }

  lemma ReaperOk(s: State, e: Event)
    requires Inv(s) && Enabled(s, e) && (e.ReapSelect? || e.ReapDelete? || e.ReapTombstone?)
    ensures e.t in Apply(s, e).tasks && TaskOk(Apply(s, e), e.t)
  {
    assert e.t in s.tasks ==> TaskOk(s, e.t);
  }

  lemma ActorTaskOk(s: State, e: Event)
    requires Inv(s) && Enabled(s, e) && Actor(e).Some?
    ensures e.t in Apply(s, e).tasks && TaskOk(Apply(s, e), e.t)
  {
    if e.SaveStore? || e.SaveInsert? || e.SaveRefuse? || e.SaveUndo? {
      SaverOk(s, e);
    } else if e.PresignBegin? || e.PresignInsert? {
      PresignerOk(s, e);
    } else if e.Drop? {
      DroppedOk(s, e);
    } else if e.UploadVerify? || e.UploadCheck? || e.UploadWrite? {
      UploaderOk(s, e);
    } else if e.CompleteLoad? || e.CompleteHead? || e.CompleteDelete? || e.CompleteTombstone? || e.CompleteCommit? {
      CompleterOk(s, e);
    } else if e.DeleteLoad? || e.DeleteMark? || e.DeleteObject? {
      RemoverOk(s, e);
    } else {
      ReaperOk(s, e);
    }
  }

  lemma ReservationsApart(s: State, e: Event, t: TaskId, u: TaskId, id: FileId)
    requires Inv(s) && Enabled(s, e)
    requires var s' := Apply(s, e);
      t in s'.tasks && u in s'.tasks && Reserves(s'.tasks[t], id) && Reserves(s'.tasks[u], id)
    ensures t == u
  {
    if t in s.tasks {
      assert TaskOk(s, t);
    }
    if u in s.tasks {
      assert TaskOk(s, u);
    }
  }

  lemma BecomesReady(s: State, e: Event, id: FileId)
    requires Inv(s) && Enabled(s, e) && LiveReady(Apply(s, e).rows, id) && !LiveReady(s.rows, id)
    ensures (e.SaveInsert? || e.CompleteCommit?) && s.tasks[e.t].id == id && Backed(s, id)
  {
    assert e.SaveInsert? || e.CompleteCommit?;
    assert TaskOk(s, e.t);
  }

  lemma InsertKeepsObjects(s: State, e: Event, id: FileId)
    requires Enabled(s, e) && (e.SaveInsert? || e.CompleteCommit?) && Backed(s, id)
    ensures Backed(Apply(s, e), id)
  {
    if id !in s.objects {
      var t :| t in s.tasks && Owes(s.tasks[t], id);
      assert Apply(s, e).tasks[t] == s.tasks[t];
    }
  }

  lemma ReadyBacked(s: State, e: Event, id: FileId)
    requires Inv(s) && Enabled(s, e) && LiveReady(Apply(s, e).rows, id)
    ensures Backed(Apply(s, e), id)
  {
    if LiveReady(s.rows, id) {
      BackedKept(s, e, id);
    } else {
      BecomesReady(s, e, id);
      InsertKeepsObjects(s, e, id);
    }
  }

  /** Every step, of whatever handler, keeps the two stores in agreement. */
  lemma ApplyInv(s: State, e: Event)
    requires Inv(s) && Enabled(s, e)
    ensures Inv(Apply(s, e))
  {
    var s' := Apply(s, e);
    TombstonesStay(s, e);
    KeysNested(s, e);
    forall t | t in s'.tasks ensures TaskOk(s', t) {
      if Actor(e) == Some(t) {
        ActorTaskOk(s, e);
      } else {
        OtherTaskOk(s, e, t);
      }
    }
    forall t, u, id | t in s'.tasks && u in s'.tasks && Reserves(s'.tasks[t], id) && Reserves(s'.tasks[u], id)
      ensures t == u
    {
      ReservationsApart(s, e, t, u, id);
    }
    forall id | LiveReady(s'.rows, id) ensures Backed(s', id) {
      ReadyBacked(s, e, id);
    }
  }

  lemma KeysNested(s: State, e: Event)
    requires Inv(s) && Enabled(s, e)
    ensures var s' := Apply(s, e); s'.grants.Keys <= s'.rows.Keys <= s'.minted
  {
    if e.SaveInsert? || e.PresignInsert? {
      assert TaskOk(s, e.t);
    }
  }

  lemma {:induction false} RunInv(ss: seq<State>, es: seq<Event>, i: nat)
    requires Run(ss, es) && i < |ss|
    ensures Inv(ss[i])
  {
    if i > 0 {
      RunInv(ss, es, i - 1);
      ApplyInv(ss[i - 1], es[i - 1]);
    }
  }

  /**
   In every state a file that can be read has its bytes, unless a reaper or an over-limit completion
   has deleted the object and owes that very row its tombstone, or was dropped owing it.
   */
  lemma ReadableFilesHaveBytes(ss: seq<State>, es: seq<Event>, i: nat, id: FileId)
    requires Run(ss, es) && i < |ss| && LiveReady(ss[i].rows, id)
    ensures id in ss[i].objects || exists t :: t in ss[i].tasks && Owes(ss[i].tasks[t], id)
  {
    RunInv(ss, es, i);
  }

  /** While no tombstone is owed, by a handler under way or a dropped one, every readable file has its bytes. */
  lemma QuietStoresAgree(ss: seq<State>, es: seq<Event>, i: nat)
    requires Run(ss, es) && i < |ss|
    requires forall t, id :: t in ss[i].tasks ==> !Owes(ss[i].tasks[t], id)
    ensures forall id :: LiveReady(ss[i].rows, id) ==> id in ss[i].objects
  {
    RunInv(ss, es, i);
  }

  // -- the reaper and slow uploads --------------------------------------------------------

  /** The local backend is written by this service only, and an upload lasts no longer than a URL lives. */
  ghost predicate Prompt(s: State) {
    && (forall t :: t in s.tasks && s.tasks[t].UploadVerified? ==> s.now <= s.tasks[t].since + s.ttl * SECOND)
    && (forall t :: t in s.tasks && s.tasks[t].UploadCleared? ==> s.now <= s.tasks[t].since + s.ttl * SECOND)
  }

  ghost predicate LocalRun(ss: seq<State>, es: seq<Event>) {
    && Run(ss, es)
    && (forall i :: 0 <= i < |ss| ==> Prompt(ss[i]))
    && (forall i {:trigger es[i]} :: 0 <= i < |es| ==> !es[i].NativePut?)
  }

  /** The row outlived the grace period, so no URL for it is live and none was for a whole lifetime. */
  ghost predicate Overdue(s: State, id: FileId) {
    id in s.rows && s.rows[id].createdAt + 2 * s.ttl * SECOND < s.now
  }

  ghost predicate TaskTimed(s: State, t: TaskId)
    requires t in s.tasks
  {
    match s.tasks[t]
    case PresignGranted(_, expires) => expires <= s.now + s.ttl * SECOND
    case UploadVerified(id, _, since) => id in s.grants && since < s.grants[id]
    case UploadCleared(id, _, since) => id in s.grants && since < s.grants[id]
    case ReapTodo(todo) => forall id :: id in todo ==> Overdue(s, id)
    case ReapOwes(_, todo) => forall id :: id in todo ==> Overdue(s, id)
    case _ => true
  }

  ghost predicate Timing(s: State) {
    && (forall id :: id in s.grants && id in s.rows ==> s.grants[id] <= s.rows[id].createdAt + s.ttl * SECOND)
    && (forall t :: t in s.tasks ==> TaskTimed(s, t))
  }

  /** A URL lives for its lifetime, cut down to whole seconds. */
  lemma GrantLasts(now: Time, ttl: nat)
    ensures now + ttl * 1_000_000 - 1_000_000 < GrantUntil(now, ttl) <= now + ttl * 1_000_000
    ensures GrantUntil(now, ttl) % 1_000_000 == 0
  {
  }

  lemma GrantWithinLifetime(now: Time, ttl: nat)
    ensures GrantUntil(now, ttl) <= now + ttl * SECOND
  {
  }

  lemma OverdueKept(s: State, e: Event, id: FileId)
    requires Inv(s) && Enabled(s, e) && Overdue(s, id)
    ensures Overdue(Apply(s, e), id)
  {
    if e.SaveInsert? || e.PresignInsert? {
      assert TaskOk(s, e.t);
    }
  }

  lemma GrantsTimed(s: State, e: Event, id: FileId)
    requires Inv(s) && Timing(s) && Enabled(s, e)
    requires var s' := Apply(s, e); id in s'.grants && id in s'.rows
    ensures var s' := Apply(s, e); s'.grants[id] <= s'.rows[id].createdAt + s'.ttl * SECOND
  {
    if e.SaveInsert? || e.PresignInsert? {
      assert TaskOk(s, e.t) && TaskTimed(s, e.t);
    }
  }

  lemma BystanderTimed(s: State, e: Event, t: TaskId)
    requires Inv(s) && Timing(s) && Enabled(s, e) && t in s.tasks && Actor(e) != Some(t)
    ensures t in Apply(s, e).tasks && TaskTimed(Apply(s, e), t)
  {
    assert Apply(s, e).tasks[t] == s.tasks[t] && TaskTimed(s, t);
    GrantsStay(s, e);
    if s.tasks[t].ReapTodo? || s.tasks[t].ReapOwes? {
      forall id | id in s.tasks[t].todo ensures Overdue(Apply(s, e), id) {
        OverdueKept(s, e, id);
      }
    }
  }

  lemma PresignTimed(s: State, e: Event)
    requires Enabled(s, e) && (e.PresignBegin? || e.PresignInsert?)
    ensures e.t in Apply(s, e).tasks && TaskTimed(Apply(s, e), e.t)
  {
    if e.PresignBegin? {
      GrantWithinLifetime(s.now, s.ttl);
    }
  }

  lemma UploadTimed(s: State, e: Event)
    requires Timing(s) && Enabled(s, e) && (e.UploadVerify? || e.UploadCheck? || e.UploadWrite?)
    ensures e.t in Apply(s, e).tasks && TaskTimed(Apply(s, e), e.t)
  {
    assert e.t in s.tasks ==> TaskTimed(s, e.t);
  }

  lemma ReapTimed(s: State, e: Event)
    requires Timing(s) && Enabled(s, e) && (e.ReapSelect? || e.ReapDelete? || e.ReapTombstone?)
    ensures e.t in Apply(s, e).tasks && TaskTimed(Apply(s, e), e.t)
  {
    assert e.t in s.tasks ==> TaskTimed(s, e.t);
  }

  lemma ActorTimed(s: State, e: Event)
    requires Inv(s) && Timing(s) && Enabled(s, e) && Actor(e).Some?
    ensures e.t in Apply(s, e).tasks && TaskTimed(Apply(s, e), e.t)
  {
    if e.PresignBegin? || e.PresignInsert? {
      PresignTimed(s, e);
    } else if e.UploadVerify? || e.UploadCheck? || e.UploadWrite? {
      UploadTimed(s, e);
    } else if e.ReapSelect? || e.ReapDelete? || e.ReapTombstone? {
      ReapTimed(s, e);
    }
  }

  lemma TaskTimedKept(s: State, e: Event, t: TaskId)
    requires Inv(s) && Timing(s) && Enabled(s, e) && t in Apply(s, e).tasks
    ensures TaskTimed(Apply(s, e), t)
  {
    if Actor(e) == Some(t) {
      ActorTimed(s, e);
    } else {
      BystanderTimed(s, e, t);
    }
  }

  lemma GrantsStay(s: State, e: Event)
    requires Inv(s) && Enabled(s, e)
    ensures var s' := Apply(s, e); s.now <= s'.now && s'.ttl == s.ttl
    ensures forall id :: id in s.grants ==> id in Apply(s, e).grants && Apply(s, e).grants[id] == s.grants[id]
  {
    if e.PresignInsert? {
      assert TaskOk(s, e.t);
    }
  }

  lemma {:induction false} RunTiming(ss: seq<State>, es: seq<Event>, i: nat)
    requires Run(ss, es) && i < |ss|
    ensures Timing(ss[i])
  {
    if i > 0 {
      RunTiming(ss, es, i - 1);
      RunInv(ss, es, i - 1);
      var s, e, s' := ss[i - 1], es[i - 1], ss[i];
      forall id | id in s'.grants && id in s'.rows
        ensures s'.grants[id] <= s'.rows[id].createdAt + s'.ttl * SECOND
      {
        GrantsTimed(s, e, id);
      }
      forall t | t in s'.tasks ensures TaskTimed(s', t) {
        TaskTimedKept(s, e, t);
      }
    }
  }

  /** An overdue reservation has no upload under way: the last URL died a whole lifetime ago. */
  lemma NoUploadWhenOverdue(s: State, t: TaskId, id: FileId)
    requires Inv(s) && Timing(s) && Prompt(s) && Overdue(s, id) && t in s.tasks
    ensures !(s.tasks[t].UploadVerified? && s.tasks[t].id == id)
    ensures !(s.tasks[t].UploadCleared? && s.tasks[t].id == id)
  {
    assert TaskTimed(s, t);
  }

  lemma DeletedWhenOverdue(s: State, e: Event)
    requires Inv(s) && Timing(s) && Enabled(s, e) && e.ReapDelete?
    ensures Overdue(Apply(s, e), e.id) && e.id !in Apply(s, e).objects
  {
    assert TaskTimed(s, e.t);
    OverdueKept(s, e, e.id);
  }

  /** Neither a save nor an upload writes an object whose reservation is overdue. */
  lemma StaysGone(s: State, e: Event, id: FileId)
    requires Inv(s) && Timing(s) && Prompt(s) && Enabled(s, e) && !e.NativePut?
    requires Overdue(s, id) && id !in s.objects
    ensures Overdue(Apply(s, e), id) && id !in Apply(s, e).objects
  {
    OverdueKept(s, e, id);
    if e.SaveStore? {
      assert id in s.minted;
    }
    if e.UploadWrite? {
      NoUploadWhenOverdue(s, e.t, id);
    }
    WrittenOrAbsent(s, e, id);
  }

  /** An object appears by a save or by an upload. */
  lemma WrittenOrAbsent(s: State, e: Event, id: FileId)
    requires Enabled(s, e) && !e.NativePut?
    ensures id in Apply(s, e).objects ==>
              || (id in s.objects && Apply(s, e).objects[id] == s.objects[id])
              || (e.SaveStore? && e.id == id && Apply(s, e).objects[id] == e.len)
              || (e.UploadWrite? && s.tasks[e.t].id == id && Apply(s, e).objects[id] == s.tasks[e.t].len)
  {
  }

  lemma {:induction false} ReapedStaysGone(ss: seq<State>, es: seq<Event>, i: nat, j: nat, id: FileId)
    requires LocalRun(ss, es) && i < j < |ss|
    requires es[i].ReapDelete? && es[i].id == id
    ensures Overdue(ss[j], id) && id !in ss[j].objects
  {
    RunInv(ss, es, j - 1);
    RunTiming(ss, es, j - 1);
    if j == i + 1 {
      DeletedWhenOverdue(ss[i], es[i]);
    } else {
      ReapedStaysGone(ss, es, i, j - 1, id);
      StaysGone(ss[j - 1], es[j - 1], id);
    }
  }

  /**
   After the reaper deletes an object nothing writes it again, so reaping leaves no orphan: the id is
   absent from storage in every later state, and no later step is a write to it.
   */
  lemma ReaperLeavesNoOrphan(ss: seq<State>, es: seq<Event>, i: nat, j: nat, id: FileId)
    requires LocalRun(ss, es) && i < j < |ss|
    requires es[i].ReapDelete? && es[i].id == id
    ensures Overdue(ss[j], id) && id !in ss[j].objects
    ensures j < |es| && es[j].UploadWrite? ==> ss[j].tasks[es[j].t].id != id
  {
    ReapedStaysGone(ss, es, i, j, id);
    RunInv(ss, es, j);
    RunTiming(ss, es, j);
    if j < |es| && es[j].UploadWrite? {
      NoUploadWhenOverdue(ss[j], es[j].t, id);
    }
  }

  // -- stranded objects ---------------------------------------------------------------------

  /** An upload lands on a row that is already tombstoned. */
  predicate LateWrite(s: State, e: Event, id: FileId) {
    e.UploadWrite? && Enabled(s, e) && s.tasks[e.t].id == id && id in s.rows && s.rows[id].deleted
  }

  ghost predicate Local(s: State) {
    && (forall id :: id in s.objects ==> s.objects[id] <= s.maxBytes)
    && (forall t :: t in s.tasks ==> LocalTask(s, s.tasks[t]))
  }

  ghost predicate LocalTask(s: State, pc: Pc) {
    match pc
    case UploadVerified(_, len, _) => len <= s.maxBytes
    case UploadCleared(_, len, _) => len <= s.maxBytes
    case CompleteOver(_) => false
    case CompleteOwes(_) => false
    case ReapOwes(id, _) => Overdue(s, id) && id !in s.objects
    case _ => true
  }

  lemma SizesKept(s: State, e: Event, id: FileId)
    requires Local(s) && Enabled(s, e) && !e.NativePut? && id in Apply(s, e).objects
    ensures Apply(s, e).objects[id] <= s.maxBytes
  {
    WrittenOrAbsent(s, e, id);
    if e.UploadWrite? {
      assert LocalTask(s, s.tasks[e.t]);
    }
  }

  lemma LocalActor(s: State, e: Event)
    requires Inv(s) && Timing(s) && Local(s) && Enabled(s, e) && !e.NativePut? && Actor(e).Some?
    ensures LocalTask(Apply(s, e), Apply(s, e).tasks[e.t])
  {
    if e.t in s.tasks {
      assert LocalTask(s, s.tasks[e.t]);
    }
    if e.ReapDelete? {
      DeletedWhenOverdue(s, e);
    }
  }

  lemma LocalBystander(s: State, e: Event, t: TaskId)
    requires Inv(s) && Timing(s) && Prompt(s) && Local(s) && Enabled(s, e) && !e.NativePut?
    requires t in Apply(s, e).tasks && Actor(e) != Some(t)
    ensures LocalTask(Apply(s, e), Apply(s, e).tasks[t])
  {
    assert t in s.tasks && Apply(s, e).tasks[t] == s.tasks[t];
    assert LocalTask(s, s.tasks[t]);
    if s.tasks[t].ReapOwes? {
      StaysGone(s, e, s.tasks[t].id);
    }
  }

  lemma LocalKept(s: State, e: Event)
    requires Inv(s) && Timing(s) && Prompt(s) && Local(s) && Enabled(s, e) && !e.NativePut?
    ensures Local(Apply(s, e))
  {
    var s' := Apply(s, e);
    forall id | id in s'.objects ensures s'.objects[id] <= s'.maxBytes {
      SizesKept(s, e, id);
    }
    forall t | t in s'.tasks ensures LocalTask(s', s'.tasks[t]) {
      if Actor(e) == Some(t) {
        LocalActor(s, e);
      } else {
        LocalBystander(s, e, t);
      }
    }
  }

  lemma {:induction false} RunLocal(ss: seq<State>, es: seq<Event>, i: nat)
    requires LocalRun(ss, es) && i < |ss|
    ensures Local(ss[i])
  {
    if i > 0 {
      RunLocal(ss, es, i - 1);
      RunInv(ss, es, i - 1);
      RunTiming(ss, es, i - 1);
      LocalKept(ss[i - 1], es[i - 1]);
    }
  }

  ghost predicate BeingDeleted(s: State, id: FileId) {
    exists t :: t in s.tasks && s.tasks[t] == DeleteMarked(id)
  }

  ghost predicate BeingSaved(s: State, id: FileId) {
    exists t :: t in s.tasks && s.tasks[t].SaveStored? && s.tasks[t].id == id
  }

  /** A save that stored its object and was then refused for its visibility, or dropped. */
  predicate GaveUp(pc: Pc, id: FileId) {
    (pc.SaveRefused? && pc.id == id) || (pc.Dropped? && pc.was.SaveStored? && pc.was.id == id)
  }

  ghost predicate SaveGivenUp(s: State, id: FileId) {
    exists t :: t in s.tasks && GaveUp(s.tasks[t], id)
  }

  /** An object that no live row owns, and that no handler is about to remove or to give a row. */
  ghost predicate Stranded(s: State, id: FileId) {
    id in s.objects && !(id in s.rows && !s.rows[id].deleted) && !BeingDeleted(s, id) && !BeingSaved(s, id)
  }

  /** The row bears a tombstone and nobody is about to remove the object. */
  ghost predicate Forsaken(s: State, id: FileId) {
    id in s.objects && id in s.rows && s.rows[id].deleted && !BeingDeleted(s, id)
  }

  /** An object without any row is one whose save has not inserted it yet, or never will. */
  ghost predicate RowlessIsSaved(s: State) {
    forall id :: id in s.objects && id !in s.rows ==> BeingSaved(s, id) || SaveGivenUp(s, id)
  }

  lemma RowlessStep(s: State, e: Event, id: FileId)
    requires Inv(s) && Enabled(s, e) && RowlessIsSaved(s)
    requires id in Apply(s, e).objects && id !in Apply(s, e).rows
    ensures BeingSaved(Apply(s, e), id) || SaveGivenUp(Apply(s, e), id)
  {
    var s' := Apply(s, e);
    if e.SaveStore? && e.id == id {
      assert s'.tasks[e.t] == SaveStored(id, e.len);
    } else {
      NewObjectsHaveRows(s, e, id);
      if BeingSaved(s, id) {
        var t :| t in s.tasks && s.tasks[t].SaveStored? && s.tasks[t].id == id;
        SavePending(s, e, t);
      } else {
        var t :| t in s.tasks && GaveUp(s.tasks[t], id);
        EndedStays(s, e, t);
      }
    }
  }

  lemma EndedStays(s: State, e: Event, t: TaskId)
    requires Enabled(s, e) && t in s.tasks && Ended(s.tasks[t])
    ensures t in Apply(s, e).tasks && Apply(s, e).tasks[t] == s.tasks[t]
  {
    assert Actor(e) != Some(t);
    BystanderStays(s, e, t);
  }

  lemma SavePending(s: State, e: Event, t: TaskId)
    requires Enabled(s, e) && t in s.tasks && s.tasks[t].SaveStored?
    requires s.tasks[t].id !in Apply(s, e).rows && s.tasks[t].id in Apply(s, e).objects
    ensures t in Apply(s, e).tasks
    ensures Apply(s, e).tasks[t] == s.tasks[t] || GaveUp(Apply(s, e).tasks[t], s.tasks[t].id)
  {
    if Actor(e) != Some(t) {
      BystanderStays(s, e, t);
    } else {
      assert e.SaveInsert? || e.SaveRefuse? || e.SaveUndo? || e.Drop?;
    }
  }

  lemma BystanderStays(s: State, e: Event, t: TaskId)
    requires Enabled(s, e) && t in s.tasks && Actor(e) != Some(t)
    ensures t in Apply(s, e).tasks && Apply(s, e).tasks[t] == s.tasks[t]
  {
  }

  lemma NewObjectsHaveRows(s: State, e: Event, id: FileId)
    requires Inv(s) && Enabled(s, e) && !(e.SaveStore? && e.id == id)
    requires id in Apply(s, e).objects && id !in Apply(s, e).rows
    ensures id in s.objects && id !in s.rows
  {
    TombstonesStay(s, e);
    if e.UploadWrite? {
      assert TaskOk(s, e.t);
    }
  }

  /**
   In every reachable state an object has a row, or the save that stored it is still to insert one, or that
   save was refused or dropped in between.
   */
  lemma {:induction false} ObjectsHaveRows(ss: seq<State>, es: seq<Event>, i: nat)
    requires Run(ss, es) && i < |ss|
    ensures RowlessIsSaved(ss[i])
  {
    if i > 0 {
      ObjectsHaveRows(ss, es, i - 1);
      RunInv(ss, es, i - 1);
      var s, e := ss[i - 1], es[i - 1];
      forall id | id in ss[i].objects && id !in ss[i].rows ensures BeingSaved(ss[i], id) || SaveGivenUp(ss[i], id) {
        RowlessStep(s, e, id);
      }
    }
  }

  /** So an object is stranded in two ways: its row bears a tombstone, or its save was given up. */
  lemma StrandedIff(s: State, id: FileId)
    requires Inv(s) && RowlessIsSaved(s)
    ensures Stranded(s, id) <==> Forsaken(s, id) || SaveGivenUp(s, id)
  {
    if id in s.rows {
      NotReserved(s, id);
    } else if SaveGivenUp(s, id) {
      GivenUpIsStranded(s, id);
    }
  }

  lemma NotReserved(s: State, id: FileId)
    requires Inv(s) && id in s.rows
    ensures !BeingSaved(s, id) && !SaveGivenUp(s, id)
  {
    forall t | t in s.tasks ensures !(s.tasks[t].SaveStored? && s.tasks[t].id == id) && !GaveUp(s.tasks[t], id) {
      assert TaskOk(s, t);
    }
  }

  lemma GivenUpIsStranded(s: State, id: FileId)
    requires Inv(s) && SaveGivenUp(s, id)
    ensures Stranded(s, id)
  {
    var t :| t in s.tasks && GaveUp(s.tasks[t], id);
    assert TaskOk(s, t) && Reserves(s.tasks[t], id);
    forall u | u in s.tasks ensures s.tasks[u] != DeleteMarked(id) {
      assert TaskOk(s, u);
    }
    forall u | u in s.tasks ensures !(s.tasks[u].SaveStored? && s.tasks[u].id == id) {
      assert Reserves(s.tasks[u], id) ==> u == t;
    }
  }

  /** A deletion under way stays so until it removes the object. */
  lemma DeletionPending(s: State, e: Event, t: TaskId, id: FileId)
    requires Enabled(s, e) && t in s.tasks && s.tasks[t] == DeleteMarked(id)
    ensures BeingDeleted(Apply(s, e), id) || id !in Apply(s, e).objects || e == Drop(t)
  {
    assert Actor(e) != Some(t) ==> Apply(s, e).tasks[t] == s.tasks[t];
  }

  /** The save of `id` is refused for its visibility, after it has stored the object. */
  predicate Refuses(s: State, e: Event, id: FileId) {
    e.SaveRefuse? && Enabled(s, e) && s.tasks[e.t].id == id
  }

  /** A save between its object and its row, or a deletion between its tombstone and its object, is dropped. */
  predicate Deserts(s: State, e: Event, id: FileId) {
    e.Drop? && Enabled(s, e) && (s.tasks[e.t].SaveStored? || s.tasks[e.t].DeleteMarked?) && s.tasks[e.t].id == id
  }

  predicate Strands(s: State, e: Event, id: FileId) {
    LateWrite(s, e, id) || Refuses(s, e, id) || Deserts(s, e, id)
  }

  /** Unless something strands it, a tombstoned object that is there after a step was there before. */
  lemma ForsakenBefore(s: State, e: Event, id: FileId)
    requires Inv(s) && Local(s) && Enabled(s, e) && !e.NativePut? && !Strands(s, e, id)
    requires Forsaken(Apply(s, e), id)
    ensures id in s.objects && id in s.rows && s.rows[id].deleted
  {
    if e.SaveInsert? || e.PresignInsert? || e.SaveStore? {
      assert e.t in s.tasks ==> TaskOk(s, e.t);
    } else if e.CompleteTombstone? || e.ReapTombstone? {
      assert LocalTask(s, s.tasks[e.t]);
    } else if e.DeleteMark? {
      assert Apply(s, e).tasks[e.t] == DeleteMarked(s.tasks[e.t].id);
    }
  }

  lemma ForsakenStep(s: State, e: Event, id: FileId)
    requires Inv(s) && Local(s) && Enabled(s, e) && !e.NativePut?
    requires Forsaken(Apply(s, e), id)
    ensures Forsaken(s, id) || Strands(s, e, id)
  {
    if !Strands(s, e, id) {
      ForsakenBefore(s, e, id);
      NotBeingDeleted(s, e, id);
    }
  }

  lemma NotBeingDeleted(s: State, e: Event, id: FileId)
    requires Enabled(s, e) && id in Apply(s, e).objects && !BeingDeleted(Apply(s, e), id) && !Deserts(s, e, id)
    ensures !BeingDeleted(s, id)
  {
    forall t | t in s.tasks ensures s.tasks[t] != DeleteMarked(id) {
      if s.tasks[t] == DeleteMarked(id) {
        DeletionPending(s, e, t, id);
      }
    }
  }

  lemma GivenUpStep(s: State, e: Event, id: FileId)
    requires Enabled(s, e) && SaveGivenUp(Apply(s, e), id)
    ensures SaveGivenUp(s, id) || Refuses(s, e, id) || Deserts(s, e, id)
  {
    var s' := Apply(s, e);
    var t :| t in s'.tasks && GaveUp(s'.tasks[t], id);
    if Actor(e) != Some(t) {
      assert t in s.tasks && s.tasks[t] == s'.tasks[t];
    }
  }

  /**
   The only ways to strand an object: an upload that writes after the file was deleted, a save refused for its
   visibility, and a handler dropped between its two stores.
   */
  lemma {:induction false} StrandedNeedsCause(ss: seq<State>, es: seq<Event>, i: nat, id: FileId) returns (k: nat)
    requires LocalRun(ss, es) && i < |ss| && Stranded(ss[i], id)
    ensures k < i && Strands(ss[k], es[k], id)
  {
    StrandedHow(ss, es, i, id);
    RunInv(ss, es, i - 1);
    RunLocal(ss, es, i - 1);
    StrandedHow(ss, es, i - 1, id);
    StrandedBefore(ss[i - 1], es[i - 1], id);
    if Strands(ss[i - 1], es[i - 1], id) {
      k := i - 1;
    } else {
      k := StrandedNeedsCause(ss, es, i - 1, id);
    }
  }

  lemma StrandedBefore(s: State, e: Event, id: FileId)
    requires Inv(s) && Local(s) && Enabled(s, e) && !e.NativePut?
    requires Forsaken(Apply(s, e), id) || SaveGivenUp(Apply(s, e), id)
    ensures Forsaken(s, id) || SaveGivenUp(s, id) || Strands(s, e, id)
  {
    if Forsaken(Apply(s, e), id) {
      ForsakenStep(s, e, id);
    } else {
      GivenUpStep(s, e, id);
    }
  }

  lemma StrandedHow(ss: seq<State>, es: seq<Event>, i: nat, id: FileId)
    requires Run(ss, es) && i < |ss|
    ensures Stranded(ss[i], id) <==> Forsaken(ss[i], id) || SaveGivenUp(ss[i], id)
  {
    RunInv(ss, es, i);
    ObjectsHaveRows(ss, es, i);
    StrandedIff(ss[i], id);
  }

  /** Each of them does strand its object, exactly when the object is there and no deletion is still to remove it. */
  lemma CauseStrandsIff(s: State, e: Event, id: FileId)
    requires Inv(s) && Strands(s, e, id)
    ensures Stranded(Apply(s, e), id) <==> id in Apply(s, e).objects && !BeingDeleted(Apply(s, e), id)
  {
    var s' := Apply(s, e);
    if Refuses(s, e, id) || (e.Drop? && s.tasks[e.t].SaveStored?) {
      assert GaveUp(s'.tasks[e.t], id);
      ApplyInv(s, e);
      GivenUpIsStranded(s', id);
    } else {
      assert TaskOk(s, e.t);
      ApplyInv(s, e);
      NotReserved(s', id);
    }
  }

  /** For a late write: exactly when no deletion of the file is still to remove it. */
  lemma LateWriteStrandsIff(s: State, e: Event, id: FileId)
    requires Inv(s) && LateWrite(s, e, id)
    ensures Stranded(Apply(s, e), id) <==> !BeingDeleted(s, id)
  {
    var s' := Apply(s, e);
    CauseStrandsIff(s, e, id);
    forall t | t in s'.tasks && t != e.t ensures t in s.tasks && s'.tasks[t] == s.tasks[t] {
    }
    if BeingDeleted(s, id) {
      var t :| t in s.tasks && s.tasks[t] == DeleteMarked(id);
      assert s'.tasks[t] == DeleteMarked(id);
    }
  }

  /** Some local run ends in `s`. */
  ghost predicate Reachable(s: State) {
    exists ss, es :: LocalRun(ss, es) && ss[|ss| - 1] == s
  }

  lemma Reach(s: State, e: Event, s': State)
    requires Reachable(s) && Enabled(s, e) && !e.NativePut? && s' == Apply(s, e) && Prompt(s')
    ensures Reachable(s')
  {
    var ss, es :| LocalRun(ss, es) && ss[|ss| - 1] == s;
    assert LocalRun(ss + [s'], es + [e]);
  }

  /** One reserved file, at time zero. */
  function Snapshot(ttl: nat, len: nat, id: FileId, row: FileRow, objects: map<FileId, nat>,
                    tasks: map<TaskId, Pc>): State {
    State(ttl, len, 0, map[id := row], objects, map[id := GrantUntil(0, ttl)], {id}, tasks)
  }

  lemma Reserved(id: FileId, len: nat, ttl: nat)
    requires 0 < len && 0 < ttl
    ensures Reachable(Snapshot(ttl, len, id, FileRow(Pending, false, 0, 0), map[], map[0 := Finished]))
  {
    var s0 := State(ttl, len, 0, map[], map[], map[], {}, map[]);
    assert LocalRun([s0], []);
    var s1 := s0.(minted := {id}, tasks := map[0 := PresignGranted(id, GrantUntil(0, ttl))]);
    Reach(s0, PresignBegin(0, id), s1);
    Reach(s1, PresignInsert(0), Snapshot(ttl, len, id, FileRow(Pending, false, 0, 0), map[], map[0 := Finished]));
  }

  /** Any number of uploads can be admitted against one reservation. */
  lemma Admitted(s: State, t: TaskId, id: FileId, len: nat)
    requires Reachable(s) && t !in s.tasks && LivePending(s.rows, id) && len <= s.maxBytes
    requires id in s.grants && s.now < s.grants[id] && Prompt(s)
    ensures Reachable(s.(tasks := s.tasks[t := UploadCleared(id, len, s.now)]))
  {
    var s1 := s.(tasks := s.tasks[t := UploadVerified(id, len, s.now)]);
    Reach(s, UploadVerify(t, id, len), s1);
    Reach(s1, UploadCheck(t), s.(tasks := s.tasks[t := UploadCleared(id, len, s.now)]));
  }

  /** An admitted upload writes. */
  lemma Written(s: State, t: TaskId, id: FileId, len: nat)
    requires Reachable(s) && t in s.tasks && s.tasks[t].UploadCleared? && s.tasks[t].id == id && s.tasks[t].len == len
    requires Prompt(s)
    ensures Reachable(s.(tasks := s.tasks[t := Finished], objects := s.objects[id := len]))
  {
    Reach(s, UploadWrite(t), s.(tasks := s.tasks[t := Finished], objects := s.objects[id := len]));
  }

  lemma Measured(s: State, t: TaskId, id: FileId)
    requires Reachable(s) && Prompt(s) && t !in s.tasks && LivePending(s.rows, id)
    requires id in s.objects && 0 < s.objects[id] <= s.maxBytes
    ensures Reachable(s.(tasks := s.tasks[t := CompleteSized(id, s.objects[id])]))
  {
    var s1 := s.(tasks := s.tasks[t := CompleteRead(id)]);
    Reach(s, CompleteLoad(t, id), s1);
    Reach(s1, CompleteHead(t), s.(tasks := s.tasks[t := CompleteSized(id, s.objects[id])]));
  }

  /** A completion with nobody in between. */
  lemma CompletedAtOnce(s: State, t: TaskId, id: FileId)
    requires Reachable(s) && Prompt(s) && t !in s.tasks && LivePending(s.rows, id)
    requires id in s.objects && 0 < s.objects[id] <= s.maxBytes
    ensures Reachable(s.(tasks := s.tasks[t := Finished], rows := MadeReady(s.rows, id, s.objects[id])))
  {
    Measured(s, t, id);
    var s2 := s.(tasks := s.tasks[t := CompleteSized(id, s.objects[id])]);
    Reach(s2, CompleteCommit(t), s.(tasks := s.tasks[t := Finished], rows := MadeReady(s.rows, id, s.objects[id])));
  }

  /** A reservation with two uploads admitted. */
  lemma TwoAdmitted(id: FileId, len: nat, ttl: nat)
    requires 0 < len && 0 < ttl
    ensures Reachable(Snapshot(ttl, len, id, FileRow(Pending, false, 0, 0), map[],
                               map[0 := Finished, 1 := UploadCleared(id, len, 0), 2 := UploadCleared(id, len, 0)]))
  {
    Reserved(id, len, ttl);
    var s0 := Snapshot(ttl, len, id, FileRow(Pending, false, 0, 0), map[], map[0 := Finished]);
    Admitted(s0, 1, id, len);
    var s1 := s0.(tasks := map[0 := Finished, 1 := UploadCleared(id, len, 0)]);
    assert s1 == s0.(tasks := s0.tasks[1 := UploadCleared(id, len, 0)]);
    Admitted(s1, 2, id, len);
  }

  /** One of the two has been stored, and completed. */
  lemma Completed(id: FileId, len: nat, ttl: nat)
    requires 0 < len && 0 < ttl
    ensures Reachable(Snapshot(ttl, len, id, FileRow(Ready, false, 0, len), map[id := len],
                               map[0 := Finished, 1 := Finished, 2 := UploadCleared(id, len, 0), 3 := Finished]))
  {
    TwoAdmitted(id, len, ttl);
    var tasks := map[0 := Finished, 1 := UploadCleared(id, len, 0), 2 := UploadCleared(id, len, 0)];
    var s0 := Snapshot(ttl, len, id, FileRow(Pending, false, 0, 0), map[], tasks);
    Written(s0, 1, id, len);
    var s1 := s0.(tasks := tasks[1 := Finished], objects := map[id := len]);
    assert s1 == s0.(tasks := s0.tasks[1 := Finished], objects := s0.objects[id := len]);
    CompletedAtOnce(s1, 3, id);
    assert tasks[1 := Finished][3 := Finished] ==
           map[0 := Finished, 1 := Finished, 2 := UploadCleared(id, len, 0), 3 := Finished];
    assert MadeReady(s1.rows, id, len) == map[id := FileRow(Ready, false, 0, len)];
  }

  lemma Marked(s: State, t: TaskId, id: FileId)
    requires Reachable(s) && Prompt(s) && t !in s.tasks && LiveReady(s.rows, id)
    ensures Reachable(s.(tasks := s.tasks[t := DeleteMarked(id)], rows := Tombstoned(s.rows, id)))
  {
    var s1 := s.(tasks := s.tasks[t := DeleteLoaded(id)]);
    Reach(s, DeleteLoad(t, id), s1);
    Reach(s1, DeleteMark(t), s.(tasks := s.tasks[t := DeleteMarked(id)], rows := Tombstoned(s.rows, id)));
  }

  lemma DeletedAtOnce(s: State, t: TaskId, id: FileId)
    requires Reachable(s) && Prompt(s) && t !in s.tasks && LiveReady(s.rows, id)
    ensures Reachable(s.(tasks := s.tasks[t := Finished], rows := Tombstoned(s.rows, id),
                         objects := Without(s.objects, id)))
  {
    Marked(s, t, id);
    Reach(s.(tasks := s.tasks[t := DeleteMarked(id)], rows := Tombstoned(s.rows, id)), DeleteObject(t),
          s.(tasks := s.tasks[t := Finished], rows := Tombstoned(s.rows, id), objects := Without(s.objects, id)));
  }

  /** It can happen: the file is completed and deleted before the second upload writes. */
  lemma UploadCanOutliveItsFile(id: FileId, len: nat, ttl: nat) returns (s: State)
    requires 0 < len && 0 < ttl
    ensures Reachable(s) && Stranded(s, id)
    ensures forall t :: t in s.tasks ==> s.tasks[t] == Finished
  {
    Completed(id, len, ttl);
    var s3 := Snapshot(ttl, len, id, FileRow(Ready, false, 0, len), map[id := len],
                       map[0 := Finished, 1 := Finished, 2 := UploadCleared(id, len, 0), 3 := Finished]);
    DeletedAtOnce(s3, 4, id);
    var s4 := s3.(tasks := s3.tasks[4 := Finished], rows := Tombstoned(s3.rows, id),
                  objects := Without(s3.objects, id));
    s := s4.(tasks := s4.tasks[2 := Finished], objects := s4.objects[id := len]);
    Reach(s4, UploadWrite(2), s);
  }

  /** And so does an upload that is refused for its visibility, with nobody else about. */
  lemma RefusedSaveIsStranded(id: FileId, len: nat, ttl: nat) returns (s: State)
    requires 0 < len
    ensures Reachable(s) && Stranded(s, id) && s.rows == map[] && s.tasks == map[0 := SaveRefused(id)]
  {
    var s0 := State(ttl, len, 0, map[], map[], map[], {}, map[]);
    assert LocalRun([s0], []);
    var s1 := s0.(objects := map[id := len], minted := {id}, tasks := map[0 := SaveStored(id, len)]);
    Reach(s0, SaveStore(0, id, len), s1);
    s := s1.(tasks := map[0 := SaveRefused(id)]);
    Reach(s1, SaveRefuse(0), s);
  }

  // -- the reaper and late completions ----------------------------------------------------------

  /** Reaper `t` has selected `id` and not yet put its tombstone. */
  predicate Selected(s: State, t: TaskId, id: FileId) {
    t in s.tasks &&
    match s.tasks[t]
    case ReapTodo(todo) => id in todo
    case ReapOwes(owed, todo) => id == owed || id in todo
    case _ => false
  }

  predicate Reaping(s: State, t: TaskId) {
    t in s.tasks && (s.tasks[t].ReapTodo? || s.tasks[t].ReapOwes?)
  }

  predicate MakesReady(s: State, e: Event, id: FileId) {
    e.CompleteCommit? && Enabled(s, e) && s.tasks[e.t].id == id && LivePending(s.rows, id)
  }

  predicate Tombstones(s: State, e: Event, t: TaskId, id: FileId) {
    e == ReapTombstone(t) && Enabled(s, e) && s.tasks[t].id == id
  }

  lemma SelectionStep(s: State, e: Event, t: TaskId, id: FileId)
    requires Enabled(s, e) && t in s.tasks
    ensures Selected(Apply(s, e), t, id) ==> Selected(s, t, id)
    ensures Reaping(Apply(s, e), t) ==> Reaping(s, t)
    ensures Reaping(Apply(s, e), t) && Selected(s, t, id) ==> Selected(Apply(s, e), t, id) || Tombstones(s, e, t, id)
  {
    if Actor(e) != Some(t) {
      assert Apply(s, e).tasks[t] == s.tasks[t];
    }
  }

  lemma TasksStay(s: State, e: Event)
    requires Enabled(s, e)
    ensures s.tasks.Keys <= Apply(s, e).tasks.Keys
  {
  }

  lemma {:induction false} SelectionShrinks(ss: seq<State>, es: seq<Event>, k: nat, j: nat, t: TaskId, id: FileId)
    requires Run(ss, es) && k <= j < |ss| && t in ss[k].tasks
    ensures t in ss[j].tasks
    ensures Selected(ss[j], t, id) ==> Selected(ss[k], t, id)
  {
    if k < j {
      SelectionShrinks(ss, es, k, j - 1, t, id);
      TasksStay(ss[j - 1], es[j - 1]);
      SelectionStep(ss[j - 1], es[j - 1], t, id);
    }
  }

  lemma {:induction false} SelectionWorkedOff(ss: seq<State>, es: seq<Event>, k: nat, m: nat, t: TaskId, id: FileId)
      returns (j: nat)
    requires Run(ss, es) && k <= m < |ss| && Selected(ss[k], t, id)
    requires Reaping(ss[m], t) && !Selected(ss[m], t, id)
    ensures k <= j < m && Tombstones(ss[j], es[j], t, id)
  {
    SelectionShrinks(ss, es, k, m - 1, t, id);
    SelectionStep(ss[m - 1], es[m - 1], t, id);
    if Selected(ss[m - 1], t, id) {
      j := m - 1;
    } else {
      j := SelectionWorkedOff(ss, es, k, m - 1, t, id);
    }
  }

  /** The row is tombstoned by a reaper at work when it became ready, and that finishes. */
  ghost predicate ReapedBetween(ss: seq<State>, es: seq<Event>, k: nat, m: nat, t: TaskId, id: FileId)
    requires m <= |es| && |ss| == |es| + 1
  {
    exists j {:trigger es[j]} :: k < j < m && Tombstones(ss[j], es[j], t, id)
  }

  /**
   A file that has just been completed, its client told so, is still reaped, by a reaper that finishes, exactly
   when it was in that reaper's selection at that moment.
   */
  lemma ReadyFileIsReapedIff(ss: seq<State>, es: seq<Event>, k: nat, m: nat, t: TaskId, id: FileId)
    requires Run(ss, es) && k < m < |ss| && MakesReady(ss[k], es[k], id)
    requires Reaping(ss[k], t) && t in ss[m].tasks && ss[m].tasks[t] == ReapTodo({})
    ensures ReapedBetween(ss, es, k, m, t, id) <==> Selected(ss[k], t, id)
  {
    if Selected(ss[k], t, id) {
      var j := SelectionWorkedOff(ss, es, k, m, t, id);
      assert j != k;
    }
    if ReapedBetween(ss, es, k, m, t, id) {
      var j :| k < j < m && Tombstones(ss[j], es[j], t, id);
      SelectionShrinks(ss, es, k, j, t, id);
    }
  }

  lemma SelectedReadyStep(s: State, e: Event, t: TaskId, id: FileId)
    requires Inv(s) && Enabled(s, e) && Selected(Apply(s, e), t, id) && LiveReady(Apply(s, e).rows, id)
    ensures Selected(s, t, id) && (LiveReady(s.rows, id) || MakesReady(s, e, id))
  {
    SelectedBefore(s, e, t, id);
    if !LiveReady(s.rows, id) {
      BecomesReady(s, e, id);
      assert TaskOk(s, t) && TaskOk(s, e.t);
    }
  }

  /** A reaper does not select ready files. */
  lemma SelectedBefore(s: State, e: Event, t: TaskId, id: FileId)
    requires Enabled(s, e) && Selected(Apply(s, e), t, id) && LiveReady(Apply(s, e).rows, id)
    ensures Selected(s, t, id)
  {
    if t in s.tasks {
      SelectionStep(s, e, t, id);
    }
  }

  /** And no other ready file is ever in a reaper's selection: it was selected while pending, and completed since. */
  lemma {:induction false} ReadySelectedWasCompleted(ss: seq<State>, es: seq<Event>, i: nat, t: TaskId, id: FileId)
      returns (k: nat)
    requires Run(ss, es) && i < |ss| && Selected(ss[i], t, id) && LiveReady(ss[i].rows, id)
    ensures k < i && MakesReady(ss[k], es[k], id) && Selected(ss[k], t, id)
  {
    RunInv(ss, es, i - 1);
    SelectedReadyStep(ss[i - 1], es[i - 1], t, id);
    if LiveReady(ss[i - 1].rows, id) {
      k := ReadySelectedWasCompleted(ss, es, i - 1, t, id);
    } else {
      k := i - 1;
    }
  }

  /** One file, stored and measured by a completion under way, when its reservation has become overdue. */
  function Late(id: FileId, len: nat, ttl: nat, row: FileRow, objects: map<FileId, nat>,
                completion: Pc, reaper: Pc): State {
    State(ttl, len, 2 * ttl * SECOND + 1, map[id := row], objects, map[id := GrantUntil(0, ttl)], {id},
          map[0 := Finished, 1 := Finished, 2 := completion, 3 := reaper])
  }

  lemma MeasuredInTime(id: FileId, len: nat, ttl: nat)
    requires 0 < len && 0 < ttl
    ensures Reachable(Snapshot(ttl, len, id, FileRow(Pending, false, 0, 0), map[id := len],
                               map[0 := Finished, 1 := Finished, 2 := CompleteSized(id, len)]))
  {
    Reserved(id, len, ttl);
    var s0 := Snapshot(ttl, len, id, FileRow(Pending, false, 0, 0), map[], map[0 := Finished]);
    Admitted(s0, 1, id, len);
    var s1 := s0.(tasks := map[0 := Finished, 1 := UploadCleared(id, len, 0)]);
    assert s1 == s0.(tasks := s0.tasks[1 := UploadCleared(id, len, 0)]);
    Written(s1, 1, id, len);
    var s2 := s0.(tasks := map[0 := Finished, 1 := Finished], objects := map[id := len]);
    assert s2 == s1.(tasks := s1.tasks[1 := Finished], objects := s1.objects[id := len]);
    Measured(s2, 2, id);
  }

  lemma SelectedInTime(id: FileId, len: nat, ttl: nat)
    requires 0 < len && 0 < ttl
    ensures Reachable(Late(id, len, ttl, FileRow(Pending, false, 0, 0), map[id := len], CompleteSized(id, len),
                           ReapTodo({id})))
  {
    MeasuredInTime(id, len, ttl);
    var s0 := Snapshot(ttl, len, id, FileRow(Pending, false, 0, 0), map[id := len],
                       map[0 := Finished, 1 := Finished, 2 := CompleteSized(id, len)]);
    var s1 := s0.(now := 2 * ttl * SECOND + 1);
    Reach(s0, Tick(2 * ttl * SECOND + 1), s1);
    var s2 := Late(id, len, ttl, FileRow(Pending, false, 0, 0), map[id := len], CompleteSized(id, len), ReapTodo({id}));
    assert Stale(s1.rows[id], s1.now, s1.ttl);
    assert Apply(s1, ReapSelect(3)).tasks[3] == ReapTodo({id});
    assert Apply(s1, ReapSelect(3)).tasks == s2.tasks;
    Reach(s1, ReapSelect(3), s2);
  }

  lemma CompletedLate(id: FileId, len: nat, ttl: nat)
    requires 0 < len && 0 < ttl
    ensures Reachable(Late(id, len, ttl, FileRow(Ready, false, 0, len), map[id := len], Finished, ReapTodo({id})))
  {
    SelectedInTime(id, len, ttl);
    var s0 := Late(id, len, ttl, FileRow(Pending, false, 0, 0), map[id := len], CompleteSized(id, len), ReapTodo({id}));
    var s1 := Late(id, len, ttl, FileRow(Ready, false, 0, len), map[id := len], Finished, ReapTodo({id}));
    assert Apply(s0, CompleteCommit(2)).rows == s1.rows;
    assert Apply(s0, CompleteCommit(2)).tasks == s1.tasks;
    Reach(s0, CompleteCommit(2), s1);
  }

  /** The file is completed, and then its object is deleted by the reaper. */
  lemma ReadyFileLosesItsObject(id: FileId, len: nat, ttl: nat)
    requires 0 < len && 0 < ttl
    ensures Reachable(Late(id, len, ttl, FileRow(Ready, false, 0, len), map[], Finished, ReapOwes(id, {})))
  {
    CompletedLate(id, len, ttl);
    var s0 := Late(id, len, ttl, FileRow(Ready, false, 0, len), map[id := len], Finished, ReapTodo({id}));
    var s1 := Late(id, len, ttl, FileRow(Ready, false, 0, len), map[], Finished, ReapOwes(id, {}));
    assert {id} - {id} == {};
    assert Apply(s0, ReapDelete(3, id)).tasks == s1.tasks;
    assert Apply(s0, ReapDelete(3, id)).objects == s1.objects;
    Reach(s0, ReapDelete(3, id), s1);
  }

  /** It can happen: a completed file is reaped. */
  lemma ReadyFileCanBeReaped(id: FileId, len: nat, ttl: nat)
    requires 0 < len && 0 < ttl
    ensures Reachable(Late(id, len, ttl, FileRow(Ready, true, 0, len), map[], Finished, ReapTodo({})))
  {
    ReadyFileLosesItsObject(id, len, ttl);
    var s0 := Late(id, len, ttl, FileRow(Ready, false, 0, len), map[], Finished, ReapOwes(id, {}));
    Reach(s0, ReapTombstone(3), Late(id, len, ttl, FileRow(Ready, true, 0, len), map[], Finished, ReapTodo({})));
  }

  /** Or, if the reaper is dropped in between, it stays readable without bytes. */
  lemma ReadableFileCanLoseItsBytes(id: FileId, len: nat, ttl: nat) returns (s: State)
    requires 0 < len && 0 < ttl
    ensures Reachable(s) && LiveReady(s.rows, id) && id !in s.objects
    ensures forall t :: t in s.tasks ==> Ended(s.tasks[t])
  {
    ReadyFileLosesItsObject(id, len, ttl);
    var s0 := Late(id, len, ttl, FileRow(Ready, false, 0, len), map[], Finished, ReapOwes(id, {}));
    s := Late(id, len, ttl, FileRow(Ready, false, 0, len), map[], Finished, Dropped(ReapOwes(id, {})));
    Reach(s0, Drop(3), s);
  }

  // -- the service, one handler at a time -------------------------------------------------------

  /** An HMAC over the method, the key and the expiry; it matches only what was signed. */
  datatype Signature = Hmac(verb: string, id: FileId, expires: Time)

  datatype Answer = Done | NotFound | Forbidden | TooLarge | NothingUploaded | Empty

  datatype SaveOutcome = Inserted | SaveUnknownVisibility | InsertFailed

  /** What a reservation asks for; `member` is the answer of the membership check, if it is made. */
  datatype Reservation = Reservation(contentType: string, size: Option<nat>, org: Option<nat>,
      visibility: Option<string>)

  datatype Granted = Granted(signature: Signature, contentType: string, visibility: string)
    | TypeRefused | SizeRefused | Outsider | UnknownVisibility

  /** The `files` table and the local backend. */
  class FileStore {
    const ttl: nat
    const maxBytes: nat
    var now: Time
    var rows: map<FileId, FileRow>
    var objects: map<FileId, nat>

    /** Readable files have bytes, and the recorded size is their number. */
    ghost predicate Valid()
      reads this
    {
      forall id :: LiveReady(rows, id) ==> id in objects && rows[id].size == objects[id] && 0 < objects[id] <= maxBytes
    }

    constructor (ttl: nat, maxBytes: nat, now: Time)
      ensures Valid() && rows == map[] && objects == map[]
      ensures this.ttl == ttl && this.maxBytes == maxBytes && this.now == now
    {
      this.ttl, this.maxBytes, this.now := ttl, maxBytes, now;
      rows, objects := map[], map[];
    }

    /**
     The end of `save_upload_field`: the checked bytes are stored first, then the visibility is looked at, and
     only then the row is inserted; if that fails the object is deleted again.
     */
    method SaveFile(id: FileId, len: nat, visibility: string, inserts: bool) returns (r: SaveOutcome)
      requires Valid() && id !in rows && id !in objects && 0 < len <= maxBytes
      modifies this`rows, this`objects
      ensures Valid()
      ensures r.SaveUnknownVisibility? <==> UploadStream.NormalizeVisibility(visibility).None?
      ensures r.Inserted? <==> UploadStream.NormalizeVisibility(visibility).Some? && inserts
      ensures rows == if r.Inserted? then old(rows)[id := FileRow(Ready, false, now, len)] else old(rows)
      ensures objects == if r.InsertFailed? then old(objects) else old(objects)[id := len]
      ensures r.Inserted? ==> rows[id].status == Ready && !rows[id].deleted && rows[id].size == len
    {
      objects := objects[id := len];
      if UploadStream.NormalizeVisibility(visibility).None? {
        return SaveUnknownVisibility;
      }
      if !inserts {
        objects := Without(objects, id);
        return InsertFailed;
      }
      rows := rows[id := FileRow(Ready, false, now, len)];
      return Inserted;
    }

    /** The four refusals in their order; only then is the row reserved and the URL signed. */
    method GeneratePresignedUpload(id: FileId, req: Reservation, allowed: set<string>, member: bool)
        returns (r: Granted)
      requires Valid() && id !in rows
      modifies this`rows
      ensures Valid()
      ensures var mime := Text.Lower(Text.Trim(req.contentType));
        var visibility := UploadStream.NormalizeVisibility(req.visibility.UnwrapOr("private"));
        r == if mime !in allowed then TypeRefused
             else if req.size.Some? && req.size.value > maxBytes then SizeRefused
             else if req.org.Some? && !member then Outsider
             else if visibility.None? then UnknownVisibility
             else Granted(Hmac("PUT", id, GrantUntil(now, ttl)), mime, visibility.value)
      ensures rows == if r.Granted? then old(rows)[id := FileRow(Pending, false, now, 0)] else old(rows)
      ensures r.Granted? ==>
                var expires := r.signature.expires;
                && r.signature == Hmac("PUT", id, expires) && expires % 1_000_000 == 0
                && now + ttl * 1_000_000 - 1_000_000 < expires <= now + ttl * 1_000_000
    {
      var contentType := Text.Lower(Text.Trim(req.contentType));
      if contentType !in allowed {
        return TypeRefused;
      }
      if req.size.Some? && req.size.value > maxBytes {
        return SizeRefused;
      }
      if req.org.Some? && !member {
        return Outsider;
      }
      var visibility := UploadStream.NormalizeVisibility(req.visibility.UnwrapOr("private"));
      if visibility.None? {
        return UnknownVisibility;
      }
      GrantLasts(now, ttl);
      rows := rows[id := FileRow(Pending, false, now, 0)];
      return Granted(Hmac("PUT", id, GrantUntil(now, ttl)), contentType, visibility.value);
    }

    method AcceptSignedUpload(id: FileId, expires: Time, signature: Signature, len: nat) returns (r: Answer)
      requires Valid()
      modifies this`objects
      ensures Valid()
      ensures r.Forbidden? <==> !(now < expires && signature == Hmac("PUT", id, expires))
      ensures r.TooLarge? <==> !r.Forbidden? && len > maxBytes
      ensures r.NotFound? <==> !r.Forbidden? && !r.TooLarge? && !LivePending(rows, id)
      ensures r.Done? <==> !r.Forbidden? && len <= maxBytes && LivePending(rows, id)
      ensures objects == if r.Done? then old(objects)[id := len] else old(objects)
      ensures signature == Hmac("PUT", id, expires) && now < expires ==> !r.Forbidden?
      ensures r.Done? ==> id in rows && rows[id].status == Pending && !rows[id].deleted
      ensures r.NotFound? ==> !(id in rows && rows[id].status == Pending && !rows[id].deleted)
    {
      if expires <= now || signature != Hmac("PUT", id, expires) {
        return Forbidden;
      }
      if len > maxBytes {
        return TooLarge;
      }
      if id !in rows || !rows[id].status.Pending? || rows[id].deleted {
        return NotFound;
      }
      objects := objects[id := len];
      return Done;
    }

    /**
     The size comes from storage, and an oversized object is refused together with its row. A caller who may
     not write is told what a caller without a file is told.
     */
    method CompleteUpload(id: FileId, authorized: bool) returns (r: Answer)
      requires Valid()
      modifies this`rows, this`objects
      ensures Valid()
      ensures r.NotFound? <==> !authorized || (!old(LivePending(rows, id)) && !old(LiveReady(rows, id)))
      ensures r.NothingUploaded? <==> authorized && old(LivePending(rows, id)) && id !in old(objects)
      ensures r.Empty? <==> authorized && old(LivePending(rows, id)) && id in old(objects) && old(objects)[id] == 0
      ensures r.TooLarge? <==>
                authorized && old(LivePending(rows, id)) && id in old(objects) && old(objects)[id] > maxBytes
      ensures r.Done? || r.NotFound? || r.NothingUploaded? || r.Empty? || r.TooLarge?
      ensures r.Done? ==> objects == old(objects)
      ensures r.Done? && old(LiveReady(rows, id)) ==> rows == old(rows)
      ensures r.Done? && !old(LiveReady(rows, id)) ==>
                rows == old(rows)[id := old(rows)[id].(status := Ready, size := old(objects)[id])]
      ensures r.TooLarge? ==> rows == old(rows)[id := old(rows)[id].(deleted := true)] && objects == old(objects) - {id}
      ensures !r.Done? && !r.TooLarge? ==> rows == old(rows) && objects == old(objects)
    {
      if id !in rows || rows[id].deleted {
        return NotFound;
      }
      if !authorized {
        return NotFound;
      }
      if rows[id].status.Ready? {
        return Done;
      }
      if id !in objects {
        return NothingUploaded;
      }
      if objects[id] == 0 {
        return Empty;
      }
      if objects[id] > maxBytes {
        objects := Without(objects, id);
        rows := Tombstoned(rows, id);
        return TooLarge;
      }
      rows := MadeReady(rows, id, objects[id]);
      return Done;
    }

    method DeleteFile(id: FileId) returns (r: Answer)
      requires Valid()
      modifies this`rows, this`objects
      ensures Valid() && !LiveReady(rows, id)
      ensures r.Done? <==> old(LiveReady(rows, id))
      ensures r.Done? <==> id in old(rows) && old(rows)[id].status == Ready && !old(rows)[id].deleted
      ensures r.Done? ==> rows == old(rows)[id := old(rows)[id].(deleted := true)] && objects == old(objects) - {id}
      ensures !r.Done? ==> rows == old(rows) && objects == old(objects)
    {
      if !LiveReady(rows, id) {
        return NotFound;
      }
      rows := Tombstoned(rows, id);
      objects := Without(objects, id);
      return Done;
    }

    /** Deletes the object and tombstones the row of every reservation older than two URL lifetimes. */
    method ReapAbandonedUploads()
      requires Valid()
      modifies this`rows, this`objects
      ensures Valid() && rows.Keys == old(rows).Keys
      ensures forall id :: id in rows ==> !Stale(rows[id], now, ttl)
      ensures forall id :: id in rows ==>
                rows[id] == if Stale(old(rows)[id], now, ttl) then old(rows)[id].(deleted := true) else old(rows)[id]
      ensures forall id :: id in objects <==> id in old(objects) && !(id in old(rows) && Stale(old(rows)[id], now, ttl))
      ensures forall id :: id in objects ==> objects[id] == old(objects)[id]
      ensures forall id :: id in rows ==>
                var was := old(rows)[id];
                rows[id] == if was.status == Pending && !was.deleted && was.createdAt < now - 2 * ttl * 1_000_000
                            then FileRow(Pending, true, was.createdAt, was.size) else was
    {
      var stale := set id | id in rows && Stale(rows[id], now, ttl);
      var todo := stale;
      while todo != {}
        invariant todo <= stale && rows.Keys == old(rows).Keys
        invariant forall id :: id in rows ==>
                    rows[id] == if id in stale - todo then old(rows)[id].(deleted := true) else old(rows)[id]
        invariant objects == old(objects) - (stale - todo)
        decreases |todo|
      {
        var id :| id in todo;
        objects := Without(objects, id);
        rows := Tombstoned(rows, id);
        todo := todo - {id};
      }
    }
  }
}
