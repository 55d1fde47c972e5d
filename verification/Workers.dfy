/**
 Workers, dispatches and the queue, interleaved (src/services/job_queue.rs, src/services/webhook.rs,
 background_worker_loop in src/main.rs).

 `complete_job` and `fail_job` do not look at the status of the row, so nothing in one function keeps
 two workers off one job: it is the discipline of the loop, together with `SKIP LOCKED`, that does. A
 poll is two steps, the locking SELECT and the committing UPDATE. `ExecuteLost` is a delivery attempt whose
 outcome could not be recorded, which the loop reports as failed. `Abandon` covers a crash, a report that
 could not be written and a job type the loop does not know: the job then stays running for ever.
 */
module Workers {
  import opened Wrappers
  import opened JobQueue

  type DispatchId = nat

  datatype Pc =
    | Idle
    | Locking(job: JobId)
    | Holding(job: JobId, attempts: nat, limit: int)
    | Reported(job: JobId, attempts: nat, limit: int, ok: bool)

  /** What happened to a job so far; it outlives the row. `lost` counts the runs whose outcome was never recorded. */
  datatype History = History(limit: int, runs: nat, delay: nat, unrecorded: bool, lost: nat)

  datatype Dispatch = Dispatch(left: nat, inserted: nat, enqueued: nat, open: Option<DeliveryId>)

  datatype State = State(
    now: Time,
    jobs: map<JobId, Job>,
    deliveries: map<DeliveryId, Delivery>,
    workers: map<WorkerId, Pc>,
    dispatches: map<DispatchId, Dispatch>,
    history: map<JobId, History>,
    carrier: map<DeliveryId, JobId>,
    minted: set<DeliveryId>)

  datatype Event =
    | Enqueue(j: JobId, queue: string, kind: Kind, runAt: Time, limit: int)
    | DispatchBegin(k: DispatchId, hooks: nat)
    | DispatchInsert(k: DispatchId, d: DeliveryId)
    | DispatchEnqueue(k: DispatchId, j: JobId)
    | PollLock(w: WorkerId, queue: string, j: JobId)
    | PollCommit(w: WorkerId)
    | Poll(w: WorkerId, queue: string, j: JobId)
    | PollEmpty(w: WorkerId, queue: string)
    | Execute(w: WorkerId, ok: bool)
    | ExecuteLost(w: WorkerId, ok: bool)
    | Report(w: WorkerId)
    | Reject(w: WorkerId)
    | Abandon(w: WorkerId)
    | Reap(j: JobId)
    | Cascade(d: DeliveryId)
    | Tick(delta: nat)

  function Doing(s: State, w: WorkerId): Pc {
    if w in s.workers then s.workers[w] else Idle
  }

  /** The rows whose locks `SKIP LOCKED` passes over. */
  function Locked(s: State): set<JobId> {
    set w | w in s.workers && s.workers[w].Locking? :: s.workers[w].job
  }

  /** Worker `w` has a delivery in hand that it has not attempted in this run. */
  predicate Delivering(s: State, w: WorkerId) {
    && Doing(s, w).Holding? && Doing(s, w).job in s.jobs && Doing(s, w).job in s.history
    && s.jobs[Doing(s, w).job].kind.Deliver?
  }

  ghost predicate Enabled(s: State, e: Event) {
    match e
    case Enqueue(j, _, kind, _, _) => j !in s.history && !kind.Deliver?
    case DispatchBegin(k, _) => k !in s.dispatches
    case DispatchInsert(k, d) =>
      k in s.dispatches && s.dispatches[k].open.None? && s.dispatches[k].left > 0 && d !in s.minted
    case DispatchEnqueue(k, j) =>
      k in s.dispatches && s.dispatches[k].open.Some? && s.dispatches[k].left > 0 && j !in s.history
    case PollLock(w, queue, j) => Doing(s, w).Idle? && Next(s.jobs, Locked(s), queue, s.now, j)
    case PollCommit(w) => Doing(s, w).Locking? && Doing(s, w).job in s.jobs && Doing(s, w).job in s.history
    case Poll(w, queue, j) => Doing(s, w).Idle? && Next(s.jobs, Locked(s), queue, s.now, j) && j in s.history
    case PollEmpty(w, queue) => Doing(s, w).Idle? && NoneDue(s.jobs, Locked(s), queue, s.now)
    case Execute(w, _) => Delivering(s, w)
    case ExecuteLost(w, _) => Delivering(s, w)
    case Report(w) => Doing(s, w).Reported? && Doing(s, w).job in s.jobs && Doing(s, w).job in s.history
    case Reject(w) =>
      Doing(s, w).Holding? && Doing(s, w).job in s.jobs && s.jobs[Doing(s, w).job].kind.Malformed?
    case Abandon(w) => !Doing(s, w).Idle?
    case Reap(j) => j in s.jobs && Terminal(s.jobs[j].status) && s.jobs[j].updatedAt < s.now - RETENTION_DAYS * DAY
    case Cascade(d) => d in s.deliveries
    case Tick(_) => true
  }

  function At(s: State, w: WorkerId, pc: Pc): State {
    s.(workers := s.workers[w := pc])
  }

  /** A poll's UPDATE and COMMIT. */
  function Claim(s: State, w: WorkerId, j: JobId): State
    requires j in s.jobs && j in s.history
  {
    var job := Claimed(s.jobs[j], w, s.now);
    At(s, w, Holding(j, job.attempts, job.maxAttempts)).(
      jobs := s.jobs[j := job],
      history := s.history[j := s.history[j].(runs := s.history[j].runs + 1, unrecorded := true)])
  }

  /** `execute_delivery`: the outcome is recorded on the delivery row, if it is still there. */
  function RecordOutcome(s: State, w: WorkerId, ok: bool): State
    requires Doing(s, w).Holding? && Doing(s, w).job in s.jobs && Doing(s, w).job in s.history
    requires s.jobs[Doing(s, w).job].kind.Deliver?
  {
    var pc := Doing(s, w);
    var d := s.jobs[pc.job].kind.delivery;
    At(s, w, Reported(pc.job, pc.attempts, pc.limit, ok)).(
      deliveries := if d in s.deliveries then s.deliveries[d := Recorded(s.deliveries[d], ok)] else s.deliveries,
      history := s.history[pc.job := s.history[pc.job].(unrecorded := false)])
  }

  /** The attempt was made, and answered or not, but the delivery row could not be written: it counts as failed. */
  function LoseOutcome(s: State, w: WorkerId): State
    requires Delivering(s, w)
  {
    var pc := Doing(s, w);
    var h := s.history[pc.job];
    At(s, w, Reported(pc.job, pc.attempts, pc.limit, false)).(
      history := s.history[pc.job := h.(unrecorded := false, lost := h.lost + 1)])
  }

  /** `complete_job` or `fail_job`, as the worker calls it. */
  function Settle(s: State, w: WorkerId): State
    requires Doing(s, w).Reported? && Doing(s, w).job in s.jobs && Doing(s, w).job in s.history
  {
    var pc := Doing(s, w);
    var j := pc.job;
    var wait := if !pc.ok && pc.attempts < pc.limit then Backoff(pc.attempts) else 0;
    At(s, w, Idle).(
      jobs := s.jobs[j := if pc.ok then Finished(s.jobs[j], Completed, s.now)
                          else FailedRow(s.jobs[j], pc.attempts, pc.limit, s.now)],
      history := s.history[j := s.history[j].(delay := s.history[j].delay + wait)])
  }

  function Add(s: State, j: JobId, job: Job): State {
    s.(jobs := s.jobs[j := job], history := s.history[j := History(job.maxAttempts, 0, 0, false, 0)])
  }

  function Apply(s: State, e: Event): State
    requires Enabled(s, e)
  {
    match e
    case Enqueue(j, queue, kind, runAt, limit) => Add(s, j, Job(queue, kind, Queued, 0, limit, runAt, None, s.now))
    case DispatchBegin(k, hooks) => s.(dispatches := s.dispatches[k := Dispatch(hooks, 0, 0, None)])
    case DispatchInsert(k, d) =>
      var x := s.dispatches[k];
      s.(deliveries := s.deliveries[d := Delivery(Pending, 0)],
         minted := s.minted + {d},
         dispatches := s.dispatches[k := x.(inserted := x.inserted + 1, open := Some(d))])
    case DispatchEnqueue(k, j) =>
      var x := s.dispatches[k];
      Add(s, j, DeliveryJob(x.open.value, s.now)).(
        carrier := s.carrier[x.open.value := j],
        dispatches := s.dispatches[k := x.(left := x.left - 1, enqueued := x.enqueued + 1, open := None)])
    case PollLock(w, _, j) => At(s, w, Locking(j))
    case PollCommit(w) => Claim(s, w, Doing(s, w).job)
    case Poll(w, _, j) => Claim(s, w, j)
    case PollEmpty(w, _) => s
    case Execute(w, ok) => RecordOutcome(s, w, ok)
    case ExecuteLost(w, _) => LoseOutcome(s, w)
    case Report(w) => Settle(s, w)
    case Reject(w) =>
      At(s, w, Idle).(jobs := s.jobs[Doing(s, w).job := Finished(s.jobs[Doing(s, w).job], Failed, s.now)])
    case Abandon(w) => At(s, w, Idle)
    case Reap(j) => s.(jobs := map x | x in s.jobs && x != j :: s.jobs[x])
    case Cascade(d) => s.(deliveries := map x | x in s.deliveries && x != d :: s.deliveries[x])
    case Tick(delta) => s.(now := s.now + delta)
  }

  ghost predicate Run(ss: seq<State>, es: seq<Event>) {
    && |ss| == |es| + 1
    && ss[0] == State(ss[0].now, map[], map[], map[], map[], map[], map[], {})
    && forall i {:trigger es[i]} :: 0 <= i < |es| ==> Enabled(ss[i], es[i]) && ss[i + 1] == Apply(ss[i], es[i])
  }

  // -- invariants ---------------------------------------------------------------------------

  function Max(a: int, b: int): int {
    if a < b then b else a
  }

  /** The waits before attempts 2 to n + 1, added up. */
  function DelaySum(n: nat): nat {
    if n == 0 then 0 else DelaySum(n - 1) + Backoff(n)
  }

  ghost predicate RowOk(job: Job, h: History) {
    && job.maxAttempts == h.limit && job.attempts == h.runs
    && (job.status.Queued? ==> h.runs < Max(1, h.limit) && h.delay == DelaySum(h.runs))
    && (!job.status.Queued? ==> h.runs >= 1 && h.delay == DelaySum(h.runs - 1))
    && (h.unrecorded && job.kind.Deliver? ==> job.status.Running?)
  }

  /** A job row agrees with its history; every claim is one attempt and one run. */
  ghost predicate JobOk(s: State, j: JobId)
    requires j in s.history
  {
    var h := s.history[j];
    && h.runs <= Max(1, h.limit)
    && h.delay <= DelaySum(Max(1, h.limit) - 1)
    && (j in s.jobs ==> RowOk(s.jobs[j], h))
  }

  /** A worker's copy of its job is accurate, and the row carries the worker's name. */
  ghost predicate WorkerOk(s: State, w: WorkerId) {
    match Doing(s, w)
    case Idle => true
    case Locking(j) => j in s.jobs && j in s.history && s.jobs[j].status.Queued?
    case Holding(j, attempts, limit) =>
      && j in s.jobs && j in s.history && s.jobs[j].status.Running? && s.jobs[j].lockedBy == Some(w)
      && s.jobs[j].attempts == attempts && s.jobs[j].maxAttempts == limit
      && s.history[j].unrecorded
    case Reported(j, attempts, limit, _) =>
      && j in s.jobs && j in s.history && s.jobs[j].status.Running? && s.jobs[j].lockedBy == Some(w)
      && s.jobs[j].attempts == attempts && s.jobs[j].maxAttempts == limit
      && !s.history[j].unrecorded && s.jobs[j].kind.Deliver?
  }

  predicate Works(pc: Pc, j: JobId) {
    (pc.Holding? || pc.Reported?) && pc.job == j
  }

  ghost predicate Inv(s: State) {
    && s.jobs.Keys <= s.history.Keys
    && (forall j :: j in s.history ==> JobOk(s, j))
    && (forall w: WorkerId :: WorkerOk(s, w))
    && (forall w: WorkerId, v: WorkerId, j :: Doing(s, w) == Locking(j) && Doing(s, v) == Locking(j) ==> w == v)
  }

  lemma {:induction false} DelaySumGrows(m: nat, n: nat)
    requires m <= n
    ensures DelaySum(m) <= DelaySum(n)
  {
    if m < n {
      DelaySumGrows(m, n - 1);
    }
  }

  /** The worker that takes the step, if any. */
  function Actor(e: Event): Option<WorkerId> {
    match e
    case PollLock(w, _, _) => Some(w)
    case PollCommit(w) => Some(w)
    case Poll(w, _, _) => Some(w)
    case Execute(w, _) => Some(w)
    case ExecuteLost(w, _) => Some(w)
    case Report(w) => Some(w)
    case Reject(w) => Some(w)
    case Abandon(w) => Some(w)
    case _ => None
  }

  /** The job whose row or history the step writes. */
  function Subject(s: State, e: Event): Option<JobId> {
    match e
    case Enqueue(j, _, _, _, _) => Some(j)
    case DispatchEnqueue(_, j) => Some(j)
    case PollCommit(w) => if Doing(s, w).Locking? then Some(Doing(s, w).job) else None
    case Poll(_, _, j) => Some(j)
    case Execute(w, _) => if Doing(s, w).Holding? then Some(Doing(s, w).job) else None
    case ExecuteLost(w, _) => if Doing(s, w).Holding? then Some(Doing(s, w).job) else None
    case Report(w) => if Doing(s, w).Reported? then Some(Doing(s, w).job) else None
    case Reject(w) => if Doing(s, w).Holding? then Some(Doing(s, w).job) else None
    case Reap(j) => Some(j)
    case _ => None
  }

  /** Cleanup may take exactly the completed and failed jobs untouched for 14 days. */
  lemma ReapableIff(s: State, j: JobId)
    ensures Enabled(s, Reap(j)) <==>
              && j in s.jobs && (s.jobs[j].status == Completed || s.jobs[j].status == Failed)
              && s.jobs[j].updatedAt < s.now - 1_209_600_000_000
  {
  }

  lemma OtherJobs(s: State, e: Event, j: JobId)
    requires Enabled(s, e) && Subject(s, e) != Some(j)
    ensures j in s.jobs <==> j in Apply(s, e).jobs
    ensures j in s.jobs ==> Apply(s, e).jobs[j] == s.jobs[j]
    ensures j in s.history <==> j in Apply(s, e).history
    ensures j in s.history ==> Apply(s, e).history[j] == s.history[j]
  {
  }

  lemma OtherWorkers(s: State, e: Event, v: WorkerId)
    requires Enabled(s, e) && Actor(e) != Some(v)
    ensures Doing(Apply(s, e), v) == Doing(s, v)
  {
  }

  lemma ClaimJobOk(s: State, w: WorkerId, j: JobId)
    requires j in s.jobs && j in s.history && JobOk(s, j) && s.jobs[j].status.Queued?
    ensures JobOk(Claim(s, w, j), j)
  {
  }

  lemma RetryJobOk(s: State, w: WorkerId)
    requires Doing(s, w).Reported? && WorkerOk(s, w) && JobOk(s, Doing(s, w).job)
    requires !Doing(s, w).ok && Doing(s, w).attempts < Doing(s, w).limit
    ensures JobOk(Settle(s, w), Doing(s, w).job)
  {
    var h := s.history[Doing(s, w).job];
    DelaySumGrows(h.runs, h.limit - 1);
    assert DelaySum(h.runs) == DelaySum(h.runs - 1) + Backoff(h.runs);
  }

  lemma FinishedOk(job: Job, h: History, status: Status, now: Time)
    requires RowOk(job, h) && job.status.Running? && !h.unrecorded && JobQueue.Terminal(status)
    ensures RowOk(Finished(job, status, now), h)
  {
  }

  lemma FinalJobOk(s: State, w: WorkerId)
    requires Doing(s, w).Reported? && WorkerOk(s, w) && JobOk(s, Doing(s, w).job)
    requires Doing(s, w).ok || Doing(s, w).attempts >= Doing(s, w).limit
    ensures JobOk(Settle(s, w), Doing(s, w).job)
  {
    var j := Doing(s, w).job;
    var status := if Doing(s, w).ok then Completed else Failed;
    FinishedOk(s.jobs[j], s.history[j], status, s.now);
    assert Settle(s, w).history[j] == s.history[j];
    assert Settle(s, w).jobs[j] == Finished(s.jobs[j], status, s.now);
  }

  lemma SettleJobOk(s: State, w: WorkerId)
    requires Doing(s, w).Reported? && WorkerOk(s, w) && JobOk(s, Doing(s, w).job)
    ensures JobOk(Settle(s, w), Doing(s, w).job)
  {
    if !Doing(s, w).ok && Doing(s, w).attempts < Doing(s, w).limit {
      RetryJobOk(s, w);
    } else {
      FinalJobOk(s, w);
    }
  }

  lemma ClaimOk(s: State, e: Event, j: JobId)
    requires Inv(s) && Enabled(s, e) && (e.Poll? || e.PollCommit?) && Subject(s, e) == Some(j)
    ensures j in Apply(s, e).history && JobOk(Apply(s, e), j)
  {
    assert WorkerOk(s, e.w);
    ClaimJobOk(s, e.w, j);
  }

  lemma ReportOutcomeOk(s: State, e: Event, j: JobId)
    requires Inv(s) && Enabled(s, e) && e.Report? && Subject(s, e) == Some(j)
    ensures j in Apply(s, e).history && JobOk(Apply(s, e), j)
  {
    assert WorkerOk(s, e.w);
    SettleJobOk(s, e.w);
  }

  lemma ExecuteOk(s: State, e: Event, j: JobId)
    requires Enabled(s, e) && (e.Execute? || e.ExecuteLost?) && Subject(s, e) == Some(j)
    requires WorkerOk(s, e.w) && JobOk(s, j)
    ensures j in Apply(s, e).history && JobOk(Apply(s, e), j)
  {
  }

  lemma RejectOk(s: State, e: Event, j: JobId)
    requires Enabled(s, e) && e.Reject? && Subject(s, e) == Some(j) && WorkerOk(s, e.w) && JobOk(s, j)
    ensures j in Apply(s, e).history && JobOk(Apply(s, e), j)
  {
  }

  lemma NewOrReapedOk(s: State, e: Event, j: JobId)
    requires Inv(s) && Enabled(s, e) && (e.Enqueue? || e.DispatchEnqueue? || e.Reap?) && Subject(s, e) == Some(j)
    ensures j in Apply(s, e).history && JobOk(Apply(s, e), j)
  {
    if e.Reap? {
      assert JobOk(s, j);
    } else {
      assert DelaySum(0) == 0;
    }
  }

  lemma SubjectOk(s: State, e: Event, j: JobId)
    requires Inv(s) && Enabled(s, e) && Subject(s, e) == Some(j)
    ensures j in Apply(s, e).history && JobOk(Apply(s, e), j)
  {
    if e.Poll? || e.PollCommit? {
      ClaimOk(s, e, j);
    } else if e.Report? {
      ReportOutcomeOk(s, e, j);
    } else if e.Execute? || e.ExecuteLost? || e.Reject? {
      assert WorkerOk(s, e.w) && JobOk(s, j);
      if !e.Reject? {
        ExecuteOk(s, e, j);
      } else {
        RejectOk(s, e, j);
      }
    } else {
      NewOrReapedOk(s, e, j);
    }
  }

  /** The discipline of the loop: no step writes a job that another worker has in hand. */
  lemma NobodyElsesJob(s: State, e: Event, v: WorkerId)
    requires Inv(s) && Enabled(s, e) && Actor(e) != Some(v) && !Doing(s, v).Idle?
    ensures Subject(s, e) != Some(Doing(s, v).job)
  {
    assert WorkerOk(s, v);
    if Actor(e).Some? {
      assert WorkerOk(s, Actor(e).value);
    }
    assert Doing(s, v).Locking? ==> Doing(s, v).job in Locked(s);
  }

  lemma OtherWorkerOk(s: State, e: Event, v: WorkerId)
    requires Inv(s) && Enabled(s, e) && Actor(e) != Some(v)
    ensures WorkerOk(Apply(s, e), v)
  {
    OtherWorkers(s, e, v);
    assert WorkerOk(s, v);
    if !Doing(s, v).Idle? {
      NobodyElsesJob(s, e, v);
      OtherJobs(s, e, Doing(s, v).job);
    }
  }

  lemma ActorOk(s: State, e: Event, w: WorkerId)
    requires Inv(s) && Enabled(s, e) && Actor(e) == Some(w)
    ensures WorkerOk(Apply(s, e), w)
  {
    assert WorkerOk(s, w);
  }

  lemma ApplyInv(s: State, e: Event)
    requires Inv(s) && Enabled(s, e)
    ensures Inv(Apply(s, e))
  {
    var s' := Apply(s, e);
    forall j | j in s'.history ensures JobOk(s', j) {
      if Subject(s, e) == Some(j) {
        SubjectOk(s, e, j);
      } else {
        OtherJobs(s, e, j);
      }
    }
    forall w: WorkerId ensures WorkerOk(s', w) {
      if Actor(e) == Some(w) {
        ActorOk(s, e, w);
      } else {
        OtherWorkerOk(s, e, w);
      }
    }
    forall w: WorkerId, v: WorkerId, j | Doing(s', w) == Locking(j) && Doing(s', v) == Locking(j) ensures w == v {
      LocksApart(s, e, w, v, j);
    }
    forall j | j in s'.jobs ensures j in s'.history {
      if Subject(s, e) != Some(j) {
        OtherJobs(s, e, j);
      } else {
        SubjectOk(s, e, j);
      }
    }
  }

  lemma LocksApart(s: State, e: Event, w: WorkerId, v: WorkerId, j: JobId)
    requires Inv(s) && Enabled(s, e)
    requires Doing(Apply(s, e), w) == Locking(j) && Doing(Apply(s, e), v) == Locking(j)
    ensures w == v
  {
    assert Doing(s, w) == Locking(j) ==> j in Locked(s);
    assert Doing(s, v) == Locking(j) ==> j in Locked(s);
    if Actor(e) != Some(w) {
      OtherWorkers(s, e, w);
    }
    if Actor(e) != Some(v) {
      OtherWorkers(s, e, v);
    }
  }

  lemma {:induction false} RunInv(ss: seq<State>, es: seq<Event>, i: nat)
    requires Run(ss, es) && i < |ss|
    ensures Inv(ss[i])
  {
    if i > 0 {
      RunInv(ss, es, i - 1);
      ApplyInv(ss[i - 1], es[i - 1]);
    }
  }

  // -- claims about every run -------------------------------------------------------------------

  /** However many workers poll, a job is in the hands of at most one. */
  lemma OneHolderPerJob(ss: seq<State>, es: seq<Event>, i: nat, w: WorkerId, v: WorkerId, j: JobId)
    requires Run(ss, es) && i < |ss|
    requires Works(Doing(ss[i], w), j) && Works(Doing(ss[i], v), j)
    ensures w == v
    ensures j in ss[i].jobs && ss[i].jobs[j].status.Running? && ss[i].jobs[j].lockedBy == Some(w)
  {
    RunInv(ss, es, i);
    assert WorkerOk(ss[i], w) && WorkerOk(ss[i], v);
  }

  /** A job with limit `m` runs at most `max(1, m)` times, and the row counts its runs. */
  lemma RunsAreBounded(ss: seq<State>, es: seq<Event>, i: nat, j: JobId)
    requires Run(ss, es) && i < |ss| && j in ss[i].history
    ensures ss[i].history[j].runs <= Max(1, ss[i].history[j].limit)
    ensures j in ss[i].jobs ==> ss[i].jobs[j].attempts == ss[i].history[j].runs
    ensures j in ss[i].jobs && ss[i].jobs[j].status.Queued? ==> ss[i].history[j].runs < Max(1, ss[i].history[j].limit)
  {
    RunInv(ss, es, i);
  }

  /** The largest total of retry delays, in seconds, for a job allowed `n` runs. */
  function DelayBound(n: nat): int
    requires n >= 1
  {
    if n <= 11 then 10 * (Pow2(n - 1) - 1) else 10230 + 5120 * (n - 11)
  }

  lemma {:induction false} DelaySumClosed(n: nat)
    requires n >= 1
    ensures DelaySum(n - 1) == DelayBound(n)
  {
    if n > 1 {
      DelaySumClosed(n - 1);
      assert Pow2(10) == 1024 by {
        assert Pow2(4) == 16;
        assert Pow2(7) == 128;
      }
    }
  }

  /** The waits of a job add up to at most the closed form, and to exactly it when every run failed. */
  lemma TotalDelayIsBounded(ss: seq<State>, es: seq<Event>, i: nat, j: JobId)
    requires Run(ss, es) && i < |ss| && j in ss[i].history
    ensures ss[i].history[j].delay <= DelayBound(Max(1, ss[i].history[j].limit))
    ensures j in ss[i].jobs && !ss[i].jobs[j].status.Queued? ==>
              ss[i].history[j].runs >= 1 && ss[i].history[j].delay == DelayBound(ss[i].history[j].runs)
  {
    RunInv(ss, es, i);
    var h, n := ss[i].history[j], Max(1, ss[i].history[j].limit);
    assert JobOk(ss[i], j);
    assert h.delay <= DelayBound(n) by {
      DelaySumClosed(n);
    }
    if j in ss[i].jobs && !ss[i].jobs[j].status.Queued? {
      DelaySumClosed(h.runs);
    }
  }

  /** Statements only ever hit a live row; a finished one can only be reaped. */
  lemma SubjectAlive(s: State, e: Event)
    requires Inv(s) && Enabled(s, e) && !e.Enqueue? && !e.DispatchEnqueue? && Subject(s, e).Some?
    ensures Subject(s, e).value in s.jobs
    ensures Terminal(s.jobs[Subject(s, e).value].status) ==> e.Reap?
  {
    if Actor(e).Some? {
      assert WorkerOk(s, Actor(e).value);
    }
  }

  lemma TerminalStep(s: State, e: Event, j: JobId)
    requires Inv(s) && Enabled(s, e) && j in s.jobs && Terminal(s.jobs[j].status)
    ensures j in Apply(s, e).jobs ==> Apply(s, e).jobs[j] == s.jobs[j]
  {
    if Subject(s, e) != Some(j) {
      OtherJobs(s, e, j);
    } else if !e.Enqueue? && !e.DispatchEnqueue? {
      SubjectAlive(s, e);
    }
  }

  lemma GoneStays(s: State, e: Event, j: JobId)
    requires Inv(s) && Enabled(s, e) && j in s.history && j !in s.jobs
    ensures j in Apply(s, e).history && j !in Apply(s, e).jobs
  {
    if Subject(s, e).Some? && !e.Enqueue? && !e.DispatchEnqueue? {
      SubjectAlive(s, e);
    }
    if Subject(s, e) != Some(j) {
      OtherJobs(s, e, j);
    }
  }

  /** A completed or failed job never changes again; the reaper may only remove it. */
  lemma {:induction false} TerminalIsAbsorbing(ss: seq<State>, es: seq<Event>, i: nat, k: nat, j: JobId)
    requires Run(ss, es) && i <= k < |ss| && j in ss[i].jobs && Terminal(ss[i].jobs[j].status)
    ensures j in ss[k].history
    ensures j in ss[k].jobs ==> ss[k].jobs[j] == ss[i].jobs[j]
  {
    RunInv(ss, es, i);
    if i < k {
      TerminalIsAbsorbing(ss, es, i, k - 1, j);
      RunInv(ss, es, k - 1);
      if j in ss[k - 1].jobs {
        TerminalStep(ss[k - 1], es[k - 1], j);
        KnownStays(ss[k - 1], es[k - 1], j);
      } else {
        GoneStays(ss[k - 1], es[k - 1], j);
      }
    }
  }

  lemma KnownStays(s: State, e: Event, j: JobId)
    requires Inv(s) && Enabled(s, e) && j in s.history
    ensures j in Apply(s, e).history
  {
    if Subject(s, e) == Some(j) {
      SubjectOk(s, e, j);
    } else {
      OtherJobs(s, e, j);
    }
  }

  // -- which jobs run again -----------------------------------------------------------------------

  /** The step hands job `j` to a worker for a run. */
  predicate Claims(s: State, e: Event, j: JobId) {
    (e.Poll? && e.j == j) || (e.PollCommit? && Doing(s, e.w) == Locking(j))
  }

  /** The step reports a failed run of `j` that was below the limit. */
  predicate Requeues(s: State, e: Event, j: JobId) {
    && e.Report? && Doing(s, e.w).Reported? && Doing(s, e.w).job == j
    && !Doing(s, e.w).ok && Doing(s, e.w).attempts < Doing(s, e.w).limit
  }

  predicate IsQueued(s: State, j: JobId) {
    j in s.jobs && s.jobs[j].status.Queued?
  }

  lemma BystanderQueued(s: State, e: Event, j: JobId)
    requires Enabled(s, e) && Subject(s, e) != Some(j)
    ensures IsQueued(Apply(s, e), j) <==> IsQueued(s, j)
    ensures !Claims(s, e, j) && !Requeues(s, e, j)
  {
    OtherJobs(s, e, j);
  }

  lemma ClaimUnqueues(s: State, e: Event, j: JobId)
    requires Inv(s) && Enabled(s, e) && Subject(s, e) == Some(j) && (e.Poll? || e.PollCommit?)
    ensures IsQueued(s, j) && Claims(s, e, j) && !IsQueued(Apply(s, e), j)
  {
    assert WorkerOk(s, e.w);
  }

  lemma OutcomeQueues(s: State, e: Event, j: JobId)
    requires Inv(s) && Enabled(s, e) && Subject(s, e) == Some(j) 
    requires e.Report? || e.Reject? || e.Execute? || e.ExecuteLost?
    ensures !IsQueued(s, j) && (IsQueued(Apply(s, e), j) <==> Requeues(s, e, j))
  {
    assert WorkerOk(s, e.w);
  }

  /** A known job is queued after a step exactly when it is requeued by it, or was queued and is not claimed. */
  lemma QueuedStep(s: State, e: Event, j: JobId)
    requires Inv(s) && Enabled(s, e) && j in s.history
    ensures IsQueued(Apply(s, e), j) <==> Requeues(s, e, j) || (IsQueued(s, j) && !Claims(s, e, j))
    ensures Claims(s, e, j) ==> IsQueued(s, j)
    ensures Requeues(s, e, j) ==> !IsQueued(s, j)
  {
    if Subject(s, e) != Some(j) {
      BystanderQueued(s, e, j);
    } else if e.Poll? || e.PollCommit? {
      ClaimUnqueues(s, e, j);
    } else if e.Report? || e.Reject? || e.Execute? || e.ExecuteLost? {
      OutcomeQueues(s, e, j);
    }
  }

  ghost predicate RequeuedBetween(ss: seq<State>, es: seq<Event>, a: nat, k: nat, j: JobId)
    requires a < k <= |es| && |ss| == |es| + 1
  {
    exists r {:trigger es[r]} :: a < r < k && Requeues(ss[r], es[r], j)
  }

  ghost predicate UnclaimedBetween(ss: seq<State>, es: seq<Event>, a: nat, k: nat, j: JobId)
    requires a < k <= |es| && |ss| == |es| + 1
  {
    forall c {:trigger es[c]} :: a < c < k ==> !Claims(ss[c], es[c], j)
  }

  lemma RequeuedExtends(ss: seq<State>, es: seq<Event>, a: nat, k: nat, j: JobId)
    requires a < k < |es| && |ss| == |es| + 1
    ensures RequeuedBetween(ss, es, a, k + 1, j) <==> RequeuedBetween(ss, es, a, k, j) || Requeues(ss[k], es[k], j)
  {
  }

  /**
   Between two claims: after a claim of `j`, and until the next, `j` is queued, and so can be claimed again,
   exactly when a run of it has since been reported failed below the limit.
   */
  lemma {:induction false} QueuedAgainIff(ss: seq<State>, es: seq<Event>, a: nat, k: nat, j: JobId)
    requires Run(ss, es) && a < k < |ss| && j in ss[a].history && Claims(ss[a], es[a], j)
    requires UnclaimedBetween(ss, es, a, k, j)
    ensures j in ss[k].history
    ensures IsQueued(ss[k], j) <==> RequeuedBetween(ss, es, a, k, j)
  {
    if k == a + 1 {
      FirstAfterClaim(ss, es, a, j);
    } else {
      QueuedAgainIff(ss, es, a, k - 1, j);
      StillUnclaimed(ss, es, a, k - 1, j);
    }
  }

  lemma FirstAfterClaim(ss: seq<State>, es: seq<Event>, a: nat, j: JobId)
    requires Run(ss, es) && a < |es| && j in ss[a].history && Claims(ss[a], es[a], j)
    ensures j in ss[a + 1].history && !IsQueued(ss[a + 1], j) && !RequeuedBetween(ss, es, a, a + 1, j)
  {
    RunInv(ss, es, a);
    ClaimedLeavesQueue(ss[a], es[a], j);
  }

  lemma StillUnclaimed(ss: seq<State>, es: seq<Event>, a: nat, k: nat, j: JobId)
    requires Run(ss, es) && a < k < |es| && j in ss[k].history
    requires UnclaimedBetween(ss, es, a, k + 1, j)
    requires IsQueued(ss[k], j) <==> RequeuedBetween(ss, es, a, k, j)
    ensures j in ss[k + 1].history
    ensures IsQueued(ss[k + 1], j) <==> RequeuedBetween(ss, es, a, k + 1, j)
  {
    RunInv(ss, es, k);
    RequeuedExtends(ss, es, a, k, j);
    assert !Claims(ss[k], es[k], j);
    UnclaimedStep(ss[k], es[k], j);
  }

  lemma ClaimedLeavesQueue(s: State, e: Event, j: JobId)
    requires Inv(s) && Enabled(s, e) && j in s.history && Claims(s, e, j)
    ensures j in Apply(s, e).history && !IsQueued(Apply(s, e), j)
  {
    KnownStays(s, e, j);
    QueuedStep(s, e, j);
  }

  lemma UnclaimedStep(s: State, e: Event, j: JobId)
    requires Inv(s) && Enabled(s, e) && j in s.history && !Claims(s, e, j)
    ensures j in Apply(s, e).history
    ensures IsQueued(Apply(s, e), j) <==> Requeues(s, e, j) || IsQueued(s, j)
  {
    KnownStays(s, e, j);
    QueuedStep(s, e, j);
  }

  /** And the next claim does need such a report: no job runs again otherwise. */
  lemma ClaimedAgainOnlyIfRequeued(ss: seq<State>, es: seq<Event>, a: nat, k: nat, j: JobId)
    requires Run(ss, es) && a < k < |es| && Claims(ss[a], es[a], j) && Claims(ss[k], es[k], j)
    requires UnclaimedBetween(ss, es, a, k, j)
    ensures RequeuedBetween(ss, es, a, k, j)
  {
    RunInv(ss, es, a);
    ClaimedIsKnown(ss[a], es[a], j);
    QueuedAgainIff(ss, es, a, k, j);
    RunInv(ss, es, k);
    QueuedStep(ss[k], es[k], j);
  }

  lemma ClaimedIsKnown(s: State, e: Event, j: JobId)
    requires Inv(s) && Enabled(s, e) && Claims(s, e, j)
    ensures j in s.history
  {
  }

  /** How often `j` was requeued in the first k steps. */
  function Requeued(ss: seq<State>, es: seq<Event>, k: nat, j: JobId): nat
    requires k <= |es| && |ss| == |es| + 1
  {
    if k == 0 then 0 else Requeued(ss, es, k - 1, j) + if Requeues(ss[k - 1], es[k - 1], j) then 1 else 0
  }

  /** A step's effect on the number of runs: one more exactly at a claim. */
  lemma RunsStep(s: State, e: Event, j: JobId)
    requires Inv(s) && Enabled(s, e) && j in s.history
    ensures j in Apply(s, e).history
    ensures Apply(s, e).history[j].runs == s.history[j].runs + if Claims(s, e, j) then 1 else 0
  {
    if Subject(s, e) != Some(j) {
      OtherJobs(s, e, j);
    }
  }

  lemma UnknownNotRequeued(s: State, e: Event, j: JobId)
    requires Inv(s) && Enabled(s, e) && j !in s.history
    ensures !Requeues(s, e, j)
  {
    if e.Report? {
      assert WorkerOk(s, e.w);
    }
  }

  lemma Arrives(s: State, e: Event, j: JobId)
    requires Inv(s) && Enabled(s, e) && j !in s.history && j in Apply(s, e).history
    ensures IsQueued(Apply(s, e), j) && Apply(s, e).history[j].runs == 0
  {
  }

  /**
   Exactly how often a job runs: once for its arrival and once for every time it was requeued, the last of
   these still outstanding while it is queued. Nothing else, a crash in particular, ever leads to another run.
   */
  lemma {:induction false} RunsAreRequeues(ss: seq<State>, es: seq<Event>, k: nat, j: JobId)
    requires Run(ss, es) && k < |ss|
    ensures j !in ss[k].history ==> Requeued(ss, es, k, j) == 0
    ensures j in ss[k].history ==>
              ss[k].history[j].runs + (if IsQueued(ss[k], j) then 1 else 0) == 1 + Requeued(ss, es, k, j)
  {
    if k > 0 {
      var s, e := ss[k - 1], es[k - 1];
      RunsAreRequeues(ss, es, k - 1, j);
      RunInv(ss, es, k - 1);
      if j in s.history {
        RunsStep(s, e, j);
        QueuedStep(s, e, j);
      } else {
        UnknownNotRequeued(s, e, j);
        if j in ss[k].history {
          Arrives(s, e, j);
        }
      }
    }
  }

  // -- jobs that never finish -------------------------------------------------------------------------

  /** Running on paper only: no worker has it in hand. */
  ghost predicate Stuck(s: State, j: JobId) {
    j in s.jobs && s.jobs[j].status.Running? && forall w: WorkerId :: !Works(Doing(s, w), j)
  }

  lemma StuckStep(s: State, e: Event, j: JobId)
    requires Inv(s) && Enabled(s, e) && Stuck(s, j)
    ensures Stuck(Apply(s, e), j) && Apply(s, e).jobs[j] == s.jobs[j]
  {
    assert Subject(s, e) != Some(j) by {
      if Actor(e).Some? {
        assert WorkerOk(s, Actor(e).value);
        assert !Works(Doing(s, Actor(e).value), j);
      }
      assert j in s.history;
    }
    OtherJobs(s, e, j);
    forall w: WorkerId ensures !Works(Doing(Apply(s, e), w), j) {
      if Actor(e) != Some(w) {
        OtherWorkers(s, e, w);
      } else {
        assert !Works(Doing(s, w), j);
      }
    }
  }

  /** A job left running by its worker keeps its row, unchanged, in every later state of the run. */
  lemma {:induction false} StuckForEver(ss: seq<State>, es: seq<Event>, i: nat, k: nat, j: JobId)
    requires Run(ss, es) && i <= k < |ss| && Stuck(ss[i], j)
    ensures Stuck(ss[k], j) && ss[k].jobs[j] == ss[i].jobs[j]
  {
    if i < k {
      StuckForEver(ss, es, i, k - 1, j);
      RunInv(ss, es, k - 1);
      StuckStep(ss[k - 1], es[k - 1], j);
    }
  }

  /** Whoever drops a job it has claimed, by crashing or because it does not know the type, leaves it stuck. */
  lemma DroppedJobIsStuck(s: State, w: WorkerId, j: JobId)
    requires Inv(s) && Works(Doing(s, w), j)
    ensures Enabled(s, Abandon(w)) && Stuck(Apply(s, Abandon(w)), j)
  {
    assert WorkerOk(s, w);
    forall v: WorkerId ensures !Works(Doing(Apply(s, Abandon(w)), v), j) {
      assert WorkerOk(s, v);
    }
  }

  lemma Extend(ss: seq<State>, es: seq<Event>, e: Event) returns (ss': seq<State>, es': seq<Event>)
    requires Run(ss, es) && Enabled(ss[|ss| - 1], e)
    ensures Run(ss', es') && es' == es + [e] && ss' == ss + [Apply(ss[|ss| - 1], e)]
  {
    ss', es' := ss + [Apply(ss[|ss| - 1], e)], es + [e];
  }

  const WEBHOOKS := "webhooks"

  function Empty(): State {
    State(0, map[], map[], map[], map[], map[], map[], {})
  }

  /** A job of a type the loop does not know ends up stuck after one poll and one turn of the loop. */
  lemma UnknownJobGetsStuck(j: JobId, w: WorkerId) returns (ss: seq<State>, es: seq<Event>)
    ensures Run(ss, es) && Stuck(ss[|ss| - 1], j)
    ensures es == [Enqueue(j, WEBHOOKS, Unknown, 0, 5), Poll(w, WEBHOOKS, j), Abandon(w)]
  {
    ss, es := [Empty()], [];
    ss, es := Extend(ss, es, Enqueue(j, WEBHOOKS, Unknown, 0, 5));
    ss, es := Extend(ss, es, Poll(w, WEBHOOKS, j));
    RunInv(ss, es, 2);
    DroppedJobIsStuck(ss[2], w, j);
    ss, es := Extend(ss, es, Abandon(w));
  }

  /** One dispatched delivery, claimed by `w`, at time zero. */
  lemma FirstClaim(k: DispatchId, d: DeliveryId, j: JobId, w: WorkerId) returns (ss: seq<State>, es: seq<Event>)
    ensures Run(ss, es) && |es| == 4
    ensures var s := ss[4]; var job := Claimed(DeliveryJob(d, 0), w, 0);
      && s.now == 0 && s.jobs == map[j := job] && s.workers == map[w := Holding(j, 1, DELIVERY_ATTEMPTS)]
      && s.deliveries == map[d := Delivery(Pending, 0)]
      && s.history == map[j := History(DELIVERY_ATTEMPTS, 1, 0, true, 0)]
  {
    ss, es := [Empty()], [];
    ss, es := Extend(ss, es, DispatchBegin(k, 1));
    ss, es := Extend(ss, es, DispatchInsert(k, d));
    ss, es := Extend(ss, es, DispatchEnqueue(k, j));
    ss, es := Extend(ss, es, Poll(w, WEBHOOKS, j));
  }

  lemma FirstSuccess(k: DispatchId, d: DeliveryId, j: JobId, w: WorkerId) returns (ss: seq<State>, es: seq<Event>)
    ensures Run(ss, es) && |es| == 5 && es[4] == Execute(w, true)
    ensures ss[5].workers == map[w := Reported(j, 1, DELIVERY_ATTEMPTS, true)]
    ensures ss[5].deliveries == map[d := Delivery(Delivered, 1)]
  {
    ss, es := FirstClaim(k, d, j, w);
    ss, es := Extend(ss, es, Execute(w, true));
  }

  /** A worker that crashes after its delivery was accepted leaves the job stuck, with the delivery made. */
  lemma CrashAfterDelivery(k: DispatchId, d: DeliveryId, j: JobId, w: WorkerId) returns (ss: seq<State>, es: seq<Event>)
    ensures Run(ss, es) && |es| == 6 && es[4] == Execute(w, true) && es[5] == Abandon(w)
    ensures Stuck(ss[6], j) && d in ss[6].deliveries && ss[6].deliveries[d].status.Delivered?
  {
    ss, es := FirstSuccess(k, d, j, w);
    RunInv(ss, es, 5);
    DroppedJobIsStuck(ss[5], w, j);
    ss, es := Extend(ss, es, Abandon(w));
  }

  /** A first run that fails puts the job back, due after the first backoff. */
  lemma FirstRefusal(k: DispatchId, d: DeliveryId, j: JobId, w: WorkerId) returns (ss: seq<State>, es: seq<Event>)
    ensures Run(ss, es) && |es| == 6 && es[4] == Execute(w, false)
        && Doing(ss[4], w) == Holding(j, 1, DELIVERY_ATTEMPTS)
    ensures var s := ss[6]; var job := FailedRow(Claimed(DeliveryJob(d, 0), w, 0), 1, DELIVERY_ATTEMPTS, 0);
      && s.now == 0 && s.jobs == map[j := job] && s.workers == map[w := Idle]
      && s.deliveries == map[d := Delivery(Undelivered, 1)] && j in s.history
  {
    ss, es := FirstClaim(k, d, j, w);
    ss, es := Extend(ss, es, Execute(w, false));
    ss, es := Extend(ss, es, Report(w));
  }

  /** Not exactly once: a refused delivery is sent a second time. */
  lemma DeliveryIsSentTwice(k: DispatchId, d: DeliveryId, j: JobId, w: WorkerId)
      returns (ss: seq<State>, es: seq<Event>)
    ensures Run(ss, es) && |es| == 9 && es[4] == es[8] == Execute(w, false)
    ensures Doing(ss[4], w) == Holding(j, 1, DELIVERY_ATTEMPTS) && Doing(ss[8], w) == Holding(j, 2, DELIVERY_ATTEMPTS)
    ensures d in ss[9].deliveries && ss[9].deliveries[d].attempts == 2
  {
    ss, es := FirstRefusal(k, d, j, w);
    ss, es := Extend(ss, es, Tick(Backoff(1) * SECOND));
    ss, es := Extend(ss, es, Poll(w, WEBHOOKS, j));
    ss, es := Extend(ss, es, Execute(w, false));
  }

  /** A delivery that was accepted, but not recorded, goes back into the queue as a failure. */
  lemma FirstLoss(k: DispatchId, d: DeliveryId, j: JobId, w: WorkerId) returns (ss: seq<State>, es: seq<Event>)
    ensures Run(ss, es) && |es| == 6 && es[4] == ExecuteLost(w, true)
    ensures Doing(ss[4], w) == Holding(j, 1, DELIVERY_ATTEMPTS)
    ensures var s := ss[6]; var job := FailedRow(Claimed(DeliveryJob(d, 0), w, 0), 1, DELIVERY_ATTEMPTS, 0);
      && s.now == 0 && s.jobs == map[j := job] && s.workers == map[w := Idle]
      && s.deliveries == map[d := Delivery(Pending, 0)] && j in s.history
  {
    ss, es := FirstClaim(k, d, j, w);
    ss, es := Extend(ss, es, ExecuteLost(w, true));
    ss, es := Extend(ss, es, Report(w));
  }

  /** And is then sent, and accepted, a second time. */
  lemma AcceptedDeliveryIsSentAgain(k: DispatchId, d: DeliveryId, j: JobId, w: WorkerId)
      returns (ss: seq<State>, es: seq<Event>)
    ensures Run(ss, es) && |es| == 9 && es[4] == ExecuteLost(w, true) && es[8] == Execute(w, true)
    ensures Doing(ss[4], w) == Holding(j, 1, DELIVERY_ATTEMPTS) && Doing(ss[8], w) == Holding(j, 2, DELIVERY_ATTEMPTS)
    ensures d in ss[9].deliveries && ss[9].deliveries[d] == Delivery(Delivered, 1)
  {
    ss, es := FirstLoss(k, d, j, w);
    ss, es := Extend(ss, es, Tick(Backoff(1) * SECOND));
    ss, es := Extend(ss, es, Poll(w, WEBHOOKS, j));
    ss, es := Extend(ss, es, Execute(w, true));
  }
}
