/**
 The background job queue and the webhook outbox that feeds it (src/services/job_queue.rs,
 src/services/webhook.rs).

 The functions say what each statement does to a row; `Queue` runs them on the tables, and the
 module `Workers` interleaves them. Times are in microseconds. Ids are minted in increasing order.
 */
module JobQueue {
  import opened Wrappers

  type Time = int
  type JobId = nat
  type DeliveryId = nat
  type WorkerId = nat

  const SECOND: int := 1_000_000
  const DAY: int := 86_400 * SECOND
  const RETENTION_DAYS := 14
  const DELIVERY_ATTEMPTS := 5

  datatype Status = Queued | Running | Completed | Failed

  /** What the worker makes of a payload: a delivery, a delivery it cannot read, or another job type. */
  datatype Kind = Deliver(delivery: DeliveryId) | Malformed | Unknown

  datatype Job = Job(
    queue: string,
    kind: Kind,
    status: Status,
    attempts: nat,
    maxAttempts: int,
    runAt: Time,
    lockedBy: Option<WorkerId>,
    updatedAt: Time)

  datatype DeliveryStatus = Pending | Delivered | Undelivered

  datatype Delivery = Delivery(status: DeliveryStatus, attempts: nat)

  function Clamp(x: int, lo: int, hi: int): (r: int)
    requires lo <= hi
    ensures lo <= r <= hi && (lo <= x <= hi ==> r == x)
  {
    if x < lo then lo else if x > hi then hi else x
  }

  function Pow2(n: nat): nat {
    if n == 0 then 1 else 2 * Pow2(n - 1)
  }

  /** Exponential backoff in seconds: `2^attempts * 5`, with the exponent held between 0 and 10. */
  function Backoff(attempts: int): nat {
    Pow2(Clamp(attempts, 0, 10)) * 5
  }

  /** At least one second, at most 5120: nothing near the limits of a 64-bit integer. */
  lemma BackoffRange(attempts: int)
    ensures 5 <= Backoff(attempts) <= 5120
  {
    var n := Clamp(attempts, 0, 10);
    Pow2Monotone(0, n);
    Pow2Monotone(n, 10);
    assert Pow2(10) == 1024 by {
      assert Pow2(5) == 32;
      assert Pow2(8) == 256;
    }
  }

  lemma {:induction false} Pow2Monotone(m: nat, n: nat)
    requires m <= n
    ensures 1 <= Pow2(m) <= Pow2(n)
  {
    if m < n {
      Pow2Monotone(m, n - 1);
    } else if m > 0 {
      Pow2Monotone(m - 1, m - 1);
    }
  }

  /** The waits in seconds: 5 after no attempt, doubled with each, and 5120 from the tenth on. */
  lemma BackoffTable(attempts: int)
    ensures Backoff(attempts) ==
            if attempts <= 0 then 5
            else if attempts >= 10 then 5120
            else [5, 10, 20, 40, 80, 160, 320, 640, 1280, 2560][attempts]
  {
    assert Pow2(3) == 8;
    assert Pow2(6) == 64;
    assert Pow2(8) == 256;
    assert Pow2(10) == 1024;
  }

  function Claimed(job: Job, w: WorkerId, now: Time): Job {
    job.(status := Running, attempts := job.attempts + 1, lockedBy := Some(w), updatedAt := now)
  }

  function Finished(job: Job, status: Status, now: Time): Job {
    job.(status := status, lockedBy := None, updatedAt := now)
  }

  /** `fail_job`: a dead end once the limit is reached, otherwise queued again after the backoff. */
  function FailedRow(job: Job, attempts: int, maxAttempts: int, now: Time): Job {
    if attempts >= maxAttempts then Finished(job, Failed, now)
    else Finished(job, Queued, now).(runAt := now + Backoff(attempts) * SECOND)
  }

  function Recorded(d: Delivery, ok: bool): Delivery {
    Delivery(if ok then Delivered else Undelivered, d.attempts + 1)
  }

  predicate Terminal(status: Status) {
    status.Completed? || status.Failed?
  }

  predicate Eligible(job: Job, queue: string, now: Time) {
    job.queue == queue && job.status.Queued? && job.runAt <= now
  }

  /** `j` is a due job of the queue that runs no later than any other outside `locked`. */
  ghost predicate Next(jobs: map<JobId, Job>, locked: set<JobId>, queue: string, now: Time, j: JobId) {
    && j in jobs && j !in locked && Eligible(jobs[j], queue, now)
    && forall k :: k in jobs && k !in locked && Eligible(jobs[k], queue, now) ==> jobs[j].runAt <= jobs[k].runAt
  }

  ghost predicate NoneDue(jobs: map<JobId, Job>, locked: set<JobId>, queue: string, now: Time) {
    forall k :: k in jobs && k !in locked ==> !Eligible(jobs[k], queue, now)
  }

  lemma {:induction false} EarliestExists(jobs: map<JobId, Job>, due: set<JobId>)
    requires due != {} && due <= jobs.Keys
    ensures exists j :: j in due && forall k :: k in due ==> jobs[j].runAt <= jobs[k].runAt
  {
    var j :| j in due;
    if due != {j} {
      EarliestExists(jobs, due - {j});
      var m :| m in due - {j} && forall k :: k in due - {j} ==> jobs[m].runAt <= jobs[k].runAt;
      var best := if jobs[j].runAt <= jobs[m].runAt then j else m;
      assert best in due && forall k :: k in due ==> jobs[best].runAt <= jobs[k].runAt;
    }
  }

  /** The queue is drained in order: a poll comes back empty only if nothing is due. */
  lemma PollFindsWork(jobs: map<JobId, Job>, locked: set<JobId>, queue: string, now: Time)
    ensures (exists j :: Next(jobs, locked, queue, now, j)) <==> !NoneDue(jobs, locked, queue, now)
  {
    var due := set k | k in jobs && k !in locked && Eligible(jobs[k], queue, now);
    if due != {} {
      EarliestExists(jobs, due);
      var j :| j in due && forall k :: k in due ==> jobs[j].runAt <= jobs[k].runAt;
      assert Next(jobs, locked, queue, now, j);
    } else {
      forall k | k in jobs && k !in locked ensures !Eligible(jobs[k], queue, now) {
        assert k !in due;
      }
    }
  }

  // -- webhooks ---------------------------------------------------------------------------

  datatype Webhook = Webhook(app: Option<nat>, org: Option<nat>, events: seq<string>, active: bool)

  predicate Matches(wh: Webhook, event: string, app: Option<nat>, org: Option<nat>) {
    && wh.active
    && ((app.None? && wh.app.None?) || (app.Some? && wh.app == app))
    && (org.None? || wh.org.None? || wh.org == org)
    && ("*" in wh.events || event in wh.events)
  }

  function Matching(hooks: seq<Webhook>, event: string, app: Option<nat>, org: Option<nat>): (r: seq<Webhook>)
    ensures |r| <= |hooks|
    ensures forall wh :: wh in r <==> wh in hooks && Matches(wh, event, app, org)
  {
    if hooks == [] then []
    else
      var rest := Matching(hooks[1..], event, app, org);
      if Matches(hooks[0], event, app, org) then [hooks[0]] + rest else rest
  }

  /** The indices of the webhooks an event goes to, by their columns. */
  ghost function Subscribed(hooks: seq<Webhook>, event: string, app: Option<nat>, org: Option<nat>): set<int> {
    set i | 0 <= i < |hooks| && hooks[i].active && hooks[i].app == app
            && (org == None || hooks[i].org == None || hooks[i].org == org)
            && (event in hooks[i].events || ['*'] in hooks[i].events)
  }

  lemma MatchingCons(wh: Webhook, hooks: seq<Webhook>, event: string, app: Option<nat>, org: Option<nat>)
    ensures Matching([wh] + hooks, event, app, org) ==
            (if Matches(wh, event, app, org) then [wh] else []) + Matching(hooks, event, app, org)
  {
    assert ([wh] + hooks)[1..] == hooks;
  }

  lemma Joined<T>(a: seq<T>, b: seq<T>, c: seq<T>)
    ensures a + (b + c) == (a + b) + c
  {
  }

  lemma {:induction false} MatchingAppend(hooks: seq<Webhook>, wh: Webhook, event: string, app: Option<nat>,
                                          org: Option<nat>)
    ensures Matching(hooks + [wh], event, app, org) ==
            Matching(hooks, event, app, org) + if Matches(wh, event, app, org) then [wh] else []
  {
    var tail := if Matches(wh, event, app, org) then [wh] else [];
    if hooks == [] {
      assert hooks + [wh] == [wh];
    } else {
      var x, rest := hooks[0], hooks[1..];
      var front := if Matches(x, event, app, org) then [x] else [];
      MatchingAppend(rest, wh, event, app, org);
      MatchingCons(x, rest, event, app, org);
      MatchingCons(x, rest + [wh], event, app, org);
      assert hooks == [x] + rest;
      Joined([x], rest, [wh]);
      Joined(front, Matching(rest, event, app, org), tail);
    }
  }

  /** As many webhooks match as are active, of the application, of the organization or of none, and subscribed. */
  lemma SubscribedAppend(hooks: seq<Webhook>, wh: Webhook, event: string, app: Option<nat>, org: Option<nat>)
    ensures Subscribed(hooks + [wh], event, app, org) ==
            Subscribed(hooks, event, app, org) + if Matches(wh, event, app, org) then {|hooks|} else {}
  {
    var all := hooks + [wh];
    assert all[|hooks|] == wh;
    assert forall i :: 0 <= i < |hooks| ==> all[i] == hooks[i];
  }

  /** As many webhooks match as are active, of the application, of the organization or of none, and subscribed. */
  lemma {:induction false} MatchingCounts(hooks: seq<Webhook>, event: string, app: Option<nat>, org: Option<nat>)
    ensures |Matching(hooks, event, app, org)| == |Subscribed(hooks, event, app, org)|
  {
    if hooks != [] {
      var n := |hooks| - 1;
      var front := hooks[..n];
      MatchingCounts(front, event, app, org);
      MatchingAppend(front, hooks[n], event, app, org);
      SubscribedAppend(front, hooks[n], event, app, org);
      assert hooks == front + [hooks[n]];
      assert n !in Subscribed(front, event, app, org);
    }
  }

  function DeliveryJob(d: DeliveryId, now: Time): Job {
    Job("webhooks", Deliver(d), Queued, 0, DELIVERY_ATTEMPTS, now, None, now)
  }

  /** `n` new deliveries with ids `from`, `from + 2`, ... */
  function WithDeliveries(deliveries: map<DeliveryId, Delivery>, from: nat, n: nat): map<DeliveryId, Delivery> {
    if n == 0 then deliveries
    else WithDeliveries(deliveries, from, n - 1)[from + 2 * n - 2 := Delivery(Pending, 0)]
  }

  /** The job of each new delivery has the next id. */
  function WithJobs(jobs: map<JobId, Job>, from: nat, n: nat, now: Time): map<JobId, Job> {
    if n == 0 then jobs
    else WithJobs(jobs, from, n - 1, now)[from + 2 * n - 1 := DeliveryJob(from + 2 * n - 2, now)]
  }

  /** The ids of `n` new rows, every other one starting at `from`. */
  function NewIds(from: nat, n: nat): set<nat> {
    if n == 0 then {} else NewIds(from, n - 1) + {from + 2 * n - 2}
  }

  lemma {:induction false} NewIdsRange(from: nat, n: nat)
    ensures |NewIds(from, n)| == n
    ensures forall x :: x in NewIds(from, n) ==> from <= x < from + 2 * n
  {
    if n > 0 {
      NewIdsRange(from, n - 1);
    }
  }

  lemma {:induction false} NewIdsShift(from: nat, n: nat, x: nat)
    ensures x in NewIds(from, n) <==> x + 1 in NewIds(from + 1, n)
  {
    if n > 0 {
      NewIdsShift(from, n - 1, x);
    }
  }

  lemma {:induction false} DeliveriesAdded(deliveries: map<DeliveryId, Delivery>, from: nat, n: nat, d: DeliveryId)
    requires d in deliveries ==> d < from
    ensures WithDeliveries(deliveries, from, n).Keys == deliveries.Keys + NewIds(from, n)
    ensures d in WithDeliveries(deliveries, from, n) ==>
              WithDeliveries(deliveries, from, n)[d] == if d in deliveries then deliveries[d] else Delivery(Pending, 0)
  {
    if n > 0 {
      DeliveriesAdded(deliveries, from, n - 1, d);
    }
  }

  lemma {:induction false} JobsAdded(jobs: map<JobId, Job>, from: nat, n: nat, now: Time, j: JobId)
    requires j in jobs ==> j < from
    ensures WithJobs(jobs, from, n, now).Keys == jobs.Keys + NewIds(from + 1, n)
    ensures j in WithJobs(jobs, from, n, now) ==>
              (j in jobs || j > 0) &&
              WithJobs(jobs, from, n, now)[j] == if j in jobs then jobs[j] else DeliveryJob(j - 1, now)
  {
    if n > 0 {
      JobsAdded(jobs, from, n - 1, now, j);
    }
  }

  lemma NewIdsAddUp(ids: set<nat>, from: nat, n: nat)
    requires forall x :: x in ids ==> x < from
    ensures |ids + NewIds(from, n)| == |ids| + n
  {
    NewIdsRange(from, n);
    assert ids !! NewIds(from, n);
  }

  /** A dispatch adds as many jobs as deliveries ... */
  lemma DispatchAddsJobs(jobs: map<JobId, Job>, from: nat, n: nat, now: Time)
    requires forall x :: x in jobs.Keys ==> x < from
    ensures |WithJobs(jobs, from, n, now).Keys| == |jobs.Keys| + n
  {
    var keys := WithJobs(jobs, from, n, now).Keys;
    assert keys == jobs.Keys + NewIds(from + 1, n) by {
      JobsAdded(jobs, from, n, now, from);
    }
    NewIdsAddUp(jobs.Keys, from + 1, n);
  }

  /** ... and as many deliveries as jobs. */
  lemma DispatchAddsDeliveries(deliveries: map<DeliveryId, Delivery>, from: nat, n: nat)
    requires forall x :: x in deliveries.Keys ==> x < from
    ensures |WithDeliveries(deliveries, from, n).Keys| == |deliveries.Keys| + n
  {
    var keys := WithDeliveries(deliveries, from, n).Keys;
    assert keys == deliveries.Keys + NewIds(from, n) by {
      DeliveriesAdded(deliveries, from, n, from);
    }
    NewIdsAddUp(deliveries.Keys, from, n);
  }

  /** What a dispatch leaves: nothing removed, and each new job carries the new delivery with the id before its own. */
  lemma DispatchedRows(jobs: map<JobId, Job>, deliveries: map<DeliveryId, Delivery>, from: nat, n: nat, now: Time)
    requires (forall j :: j in jobs ==> j < from) && (forall d :: d in deliveries ==> d < from)
    ensures var after := WithJobs(jobs, from, n, now);
      && jobs.Keys <= after.Keys && |after.Keys| == |jobs.Keys| + n
      && forall j :: j in after && j !in jobs ==>
           j > 0 && after[j] == Job("webhooks", Deliver(j - 1), Queued, 0, 5, now, None, now)
    ensures var after := WithDeliveries(deliveries, from, n);
      && deliveries.Keys <= after.Keys && |after.Keys| == |deliveries.Keys| + n
      && forall d :: d in after && d !in deliveries ==> after[d] == Delivery(Pending, 0)
  {
    DispatchAddsJobs(jobs, from, n, now);
    DispatchAddsDeliveries(deliveries, from, n);
    JobsAdded(jobs, from, n, now, from);
    DeliveriesAdded(deliveries, from, n, from);
    forall j | j in WithJobs(jobs, from, n, now) && j !in jobs
      ensures j > 0 && WithJobs(jobs, from, n, now)[j] == DeliveryJob(j - 1, now)
    {
      JobsAdded(jobs, from, n, now, j);
    }
    forall d | d in WithDeliveries(deliveries, from, n) && d !in deliveries
      ensures WithDeliveries(deliveries, from, n)[d] == Delivery(Pending, 0)
    {
      DeliveriesAdded(deliveries, from, n, d);
    }
  }

  /** Every new delivery gets exactly one job, queued and due at once. */
  lemma OneJobPerDelivery(jobs: map<JobId, Job>, deliveries: map<DeliveryId, Delivery>, from: nat, n: nat, now: Time,
      d: DeliveryId, j: JobId)
    requires forall j :: j in jobs ==> j < from
    requires forall d :: d in deliveries ==> d < from
    requires d in WithDeliveries(deliveries, from, n) && d !in deliveries
    ensures WithDeliveries(deliveries, from, n)[d] == Delivery(Pending, 0)
    ensures var after := WithJobs(jobs, from, n, now);
      j in after && j !in jobs && after[j].kind == Deliver(d) <==> j == d + 1
    ensures j == d + 1 ==> WithJobs(jobs, from, n, now)[j] == DeliveryJob(d, now)
  {
    DeliveriesAdded(deliveries, from, n, d);
    JobsAdded(jobs, from, n, now, j);
    NewIdsRange(from, n);
    NewIdsShift(from, n, d);
  }

  class Queue {
    var now: Time
    var nextId: nat
    var jobs: map<JobId, Job>
    var deliveries: map<DeliveryId, Delivery>

    ghost predicate Valid()
      reads this
    {
      && (forall j :: j in jobs ==> j < nextId)
      && (forall d :: d in deliveries ==> d < nextId)
    }

    constructor (now: Time)
      ensures Valid() && this.now == now && jobs == map[] && deliveries == map[]
    {
      this.now, nextId, jobs, deliveries := now, 0, map[], map[];
    }

    method Enqueue(kind: Kind, queue: Option<string>, runAt: Option<Time>, maxAttempts: Option<int>) returns (j: JobId)
      requires Valid()
      modifies this`jobs, this`nextId
      ensures Valid() && j == old(nextId) && nextId == j + 1
      ensures jobs == old(jobs)[j := Job(
                if queue.Some? then queue.value else "default", kind, Queued, 0,
                if maxAttempts.Some? then maxAttempts.value else 5,
                if runAt.Some? then runAt.value else now, None, now)]
    {
      j := nextId;
      nextId := nextId + 1;
      var queueName := match queue case Some(q) => q case None => "default";
      var limit := match maxAttempts case Some(m) => m case None => 5;
      var start := match runAt case Some(t) => t case None => now;
      jobs := jobs[j := Job(queueName, kind, Queued, 0, limit, start, None, now)];
    }

    /** Nobody else is polling, so no row is locked and none is skipped. */
    method PollNextJob(queue: string, w: WorkerId) returns (r: Option<JobId>)
      modifies this`jobs
      ensures r.None? <==> NoneDue(old(jobs), {}, queue, now)
      ensures r.None? ==> jobs == old(jobs)
      ensures r.Some? ==> Next(old(jobs), {}, queue, now, r.value)
      ensures r.Some? ==> jobs == old(jobs)[r.value := Claimed(old(jobs)[r.value], w, now)]
      ensures r.None? ==>
                forall k :: k in old(jobs) && old(jobs)[k].queue == queue && old(jobs)[k].status == Queued ==>
                  now < old(jobs)[k].runAt
      ensures r.Some? ==>
                && r.value in old(jobs)
                && var was := old(jobs)[r.value];
                   && was.queue == queue && was.status == Queued && was.runAt <= now
                   && jobs[r.value] == Job(queue, was.kind, Running, was.attempts + 1, was.maxAttempts, was.runAt,
                                           Some(w), now)
                   && forall k :: k in old(jobs) && old(jobs)[k].queue == queue && old(jobs)[k].status == Queued ==>
                        was.runAt <= old(jobs)[k].runAt
    {
      PollFindsWork(jobs, {}, queue, now);
      if j :| j in jobs && Eligible(jobs[j], queue, now) &&
              forall k :: k in jobs && Eligible(jobs[k], queue, now) ==> jobs[j].runAt <= jobs[k].runAt {
        assert Next(jobs, {}, queue, now, j);
        var job := jobs[j];
        jobs := jobs[j := job.(status := Running, attempts := job.attempts + 1, lockedBy := Some(w), updatedAt := now)];
        r := Some(j);
      } else {
        assert forall j :: !Next(jobs, {}, queue, now, j);
        r := None;
      }
    }

    method CompleteJob(j: JobId)
      modifies this`jobs
      ensures jobs == if j in old(jobs) then old(jobs)[j := Finished(old(jobs)[j], Completed, now)] else old(jobs)
      ensures j in old(jobs) ==>
                jobs[j] == old(jobs)[j].(status := Completed, lockedBy := None, updatedAt := now)
    {
      if j in jobs {
        jobs := jobs[j := jobs[j].(status := Completed, lockedBy := None, updatedAt := now)];
      }
    }

    method FailJob(j: JobId, attempts: int, maxAttempts: int)
      modifies this`jobs
      ensures jobs ==
              if j in old(jobs) then old(jobs)[j := FailedRow(old(jobs)[j], attempts, maxAttempts, now)] else old(jobs)
      ensures j in jobs && jobs[j].status.Queued? ==> jobs[j].runAt > now && attempts < maxAttempts
      ensures j in old(jobs) && attempts >= maxAttempts ==>
                jobs[j] == old(jobs)[j].(status := Failed, lockedBy := None, updatedAt := now)
      ensures j in old(jobs) && attempts < maxAttempts ==>
                jobs[j] == old(jobs)[j].(status := Queued, lockedBy := None, updatedAt := now,
                                         runAt := now + Backoff(attempts) * 1_000_000)
    {
      BackoffRange(attempts);
      if j !in jobs {
        return;
      }
      if attempts >= maxAttempts {
        jobs := jobs[j := jobs[j].(status := Failed, lockedBy := None, updatedAt := now)];
      } else {
        var backoffSecs := Pow2(Clamp(attempts, 0, 10)) * 5;
        var retryAt := now + backoffSecs * SECOND;
        jobs := jobs[j := jobs[j].(status := Queued, runAt := retryAt, lockedBy := None, updatedAt := now)];
      }
    }

    /** Only finished jobs are reaped, and only after the retention period. */
    method ReapOldJobs(retentionDays: int) returns (reaped: nat)
      modifies this`jobs
      ensures forall j :: j in jobs ==> j in old(jobs) && jobs[j] == old(jobs)[j]
      ensures forall j :: j in old(jobs) ==>
                (j !in jobs <==> Terminal(old(jobs)[j].status) && old(jobs)[j].updatedAt < now - retentionDays * DAY)
      ensures forall j :: j in old(jobs) ==>
                (j !in jobs <==>
                   && (old(jobs)[j].status == Completed || old(jobs)[j].status == Failed)
                   && old(jobs)[j].updatedAt < now - retentionDays * 86_400_000_000)
      ensures reaped == |old(jobs)| - |jobs|
    {
      var cutoff := now - retentionDays * DAY;
      var dead := set j | j in jobs && Terminal(jobs[j].status) && jobs[j].updatedAt < cutoff;
      reaped := |dead|;
      assert (jobs - dead).Keys == jobs.Keys - dead;
      jobs := jobs - dead;
    }

    /** Delivery and job are inserted in turn, so at every turn of the loop the two counts agree. */
    method DispatchEvent(hooks: seq<Webhook>, event: string, app: Option<nat>, org: Option<nat>) returns (count: nat)
      requires Valid()
      modifies this`jobs, this`deliveries, this`nextId
      ensures Valid() && count == |Matching(hooks, event, app, org)|
      ensures jobs == WithJobs(old(jobs), old(nextId), count, now)
      ensures deliveries == WithDeliveries(old(deliveries), old(nextId), count)
      ensures count == |Subscribed(hooks, event, app, org)|
      ensures forall j :: j in jobs && j !in old(jobs) ==>
                j > 0 && jobs[j] == Job("webhooks", Deliver(j - 1), Queued, 0, 5, now, None, now)
      ensures forall d :: d in deliveries && d !in old(deliveries) ==> deliveries[d] == Delivery(Pending, 0)
      ensures old(jobs).Keys <= jobs.Keys && |jobs.Keys| == |old(jobs).Keys| + count
      ensures old(deliveries).Keys <= deliveries.Keys && |deliveries.Keys| == |old(deliveries).Keys| + count
    {
      var matching := Matching(hooks, event, app, org);
      count := |matching|;
      for i := 0 to count
        invariant Valid() && nextId == old(nextId) + 2 * i
        invariant jobs == WithJobs(old(jobs), old(nextId), i, now)
        invariant deliveries == WithDeliveries(old(deliveries), old(nextId), i)
      {
        var d := nextId;
        nextId := nextId + 1;
        deliveries := deliveries[d := Delivery(Pending, 0)];
        var j := Enqueue(Deliver(d), Some("webhooks"), None, Some(DELIVERY_ATTEMPTS));
      }
      MatchingCounts(hooks, event, app, org);
      DispatchedRows(old(jobs), old(deliveries), old(nextId), count, now);
    }

    /**
     One attempt. No answer or another status than 2xx is a failure; an outcome that cannot be recorded is an
     error, whatever the answer was.
     */
    method ExecuteDelivery(d: DeliveryId, statusCode: Option<int>, records: bool) returns (r: Option<bool>)
      modifies this`deliveries
      ensures r.None? <==> !records
      ensures r.Some? ==> (r.value <==> statusCode.Some? && 200 <= statusCode.value < 300)
      ensures deliveries ==
              if d in old(deliveries) && r.Some? then old(deliveries)[d := Recorded(old(deliveries)[d], r.value)]
              else old(deliveries)
    {
      var ok := statusCode.Some? && 200 <= statusCode.value < 300;
      if !records {
        return None;
      }
      if d in deliveries {
        deliveries := deliveries[d := Delivery(if ok then Delivered else Undelivered, deliveries[d].attempts + 1)];
      }
      return Some(ok);
    }

    /** One turn of the worker loop with a job at hand; a job of another type is left as it is. */
    method ProcessJob(j: JobId, statusCode: Option<int>, records: bool)
      requires j in jobs && jobs[j].status.Running?
      modifies this`jobs, this`deliveries
      ensures jobs.Keys == old(jobs).Keys && forall k :: k in jobs && k != j ==> jobs[k] == old(jobs)[k]
      ensures var was := old(jobs)[j]; var ok := records && statusCode.Some? && 200 <= statusCode.value < 300;
        jobs[j] == match was.kind
                   case Unknown => was
                   case Malformed => Finished(was, Failed, now)
                   case Deliver(_) =>
                     if ok then Finished(was, Completed, now) else FailedRow(was, was.attempts, was.maxAttempts, now)
      ensures !old(jobs)[j].kind.Deliver? || !records ==> deliveries == old(deliveries)
      ensures old(jobs)[j].kind.Deliver? && records ==>
        var d := old(jobs)[j].kind.delivery;
        deliveries.Keys == old(deliveries).Keys &&
        (forall x :: x in deliveries && x != d ==> deliveries[x] == old(deliveries)[x]) &&
        (d in deliveries ==> deliveries[d].attempts == old(deliveries)[d].attempts + 1) &&
        (d in deliveries && Terminal(jobs[j].status) ==>
            (deliveries[d].status.Delivered? <==> jobs[j].status.Completed?))
    {
      var job := jobs[j];
      match job.kind
      case Unknown =>
      case Malformed => FailJob(j, job.maxAttempts, job.maxAttempts);
      case Deliver(d) =>
        var r := ExecuteDelivery(d, statusCode, records);
        match r
        case Some(true) => CompleteJob(j);
        case Some(false) => FailJob(j, job.attempts, job.maxAttempts);
        case None => FailJob(j, job.attempts, job.maxAttempts);
    }
  }
}
