/**
 The webhook outbox on top of the workers (src/services/webhook.rs): delivery rows and the jobs that carry them
 keep account of each other over every run.
 */
module Outbox {
  import opened Wrappers
  import opened JobQueue
  import opened Workers

  /**
   Job and delivery agree: attempts differ by the runs that were lost, and by one more while a claim has not been
   recorded; and a delivery is recorded as made only once its job is on the way to completion.
   */
  ghost predicate Accounted(job: Job, h: History, d: Delivery) {
    && job.attempts == d.attempts + h.lost + (if h.unrecorded then 1 else 0)
    && (job.status.Queued? || job.status.Failed? || h.unrecorded ==> !d.status.Delivered?)
    && (job.status.Completed? ==> d.status.Delivered?)
    && (job.status.Failed? && h.lost == 0 ==> d.status.Undelivered?)
  }

  ghost predicate CarrierOk(s: State, j: JobId) {
    j in s.jobs && s.jobs[j].kind.Deliver? ==>
      var d := s.jobs[j].kind.delivery;
      && j in s.history && d in s.carrier && s.carrier[d] == j
      && (d in s.deliveries ==> Accounted(s.jobs[j], s.history[j], s.deliveries[d]))
  }

  ghost predicate ReportOk(s: State, w: WorkerId) {
    var pc := Doing(s, w);
    pc.Reported? && pc.job in s.jobs && pc.job in s.history && s.jobs[pc.job].kind.Deliver? ==>
      var d := s.jobs[pc.job].kind.delivery;
      d in s.deliveries ==>
        && (pc.ok <==> s.deliveries[d].status.Delivered?)
        && (!pc.ok && s.history[pc.job].lost == 0 ==> s.deliveries[d].status.Undelivered?)
  }

  ghost predicate DispatchOk(s: State, k: DispatchId)
    requires k in s.dispatches
  {
    var x := s.dispatches[k];
    && x.inserted == x.enqueued + (if x.open.Some? then 1 else 0)
    && (x.open.Some? ==> x.left > 0 && x.open.value in s.minted && x.open.value !in s.carrier)
  }

  ghost predicate OutboxInv(s: State) {
    && s.carrier.Keys <= s.minted && s.deliveries.Keys <= s.minted
    && (forall d :: d in s.deliveries && d !in s.carrier ==> s.deliveries[d] == Delivery(Pending, 0))
    && (forall j: JobId :: CarrierOk(s, j))
    && (forall w: WorkerId :: ReportOk(s, w))
    && (forall k :: k in s.dispatches ==> DispatchOk(s, k))
    && (forall k, l, d ::
          k in s.dispatches && l in s.dispatches && s.dispatches[k].open == Some(d) == s.dispatches[l].open ==> k == l)
  }

  /** The delivery rows a step may write: the one its worker executes, or one just inserted or removed. */
  lemma OtherDeliveries(s: State, e: Event, d: DeliveryId)
    requires Enabled(s, e)
    requires !(e.Execute? && s.jobs[Doing(s, e.w).job].kind == Deliver(d))
    requires !(e.DispatchInsert? && e.d == d)
    ensures d in Apply(s, e).deliveries ==> d in s.deliveries && Apply(s, e).deliveries[d] == s.deliveries[d]
  {
  }

  lemma CarriersStay(s: State, e: Event)
    requires Inv(s) && OutboxInv(s) && Enabled(s, e)
    ensures forall d :: d in s.carrier ==> d in Apply(s, e).carrier && Apply(s, e).carrier[d] == s.carrier[d]
  {
    if e.DispatchEnqueue? {
      assert DispatchOk(s, e.k);
    }
  }

  lemma ExecuteAccounts(s: State, w: WorkerId, ok: bool)
    requires Inv(s) && OutboxInv(s) && Enabled(s, Execute(w, ok))
    ensures CarrierOk(RecordOutcome(s, w, ok), Doing(s, w).job)
  {
    assert WorkerOk(s, w) && CarrierOk(s, Doing(s, w).job);
  }

  lemma LostAccounts(s: State, w: WorkerId)
    requires Inv(s) && OutboxInv(s) && Delivering(s, w)
    ensures CarrierOk(LoseOutcome(s, w), Doing(s, w).job)
  {
    assert WorkerOk(s, w) && CarrierOk(s, Doing(s, w).job);
  }

  lemma SettleAccounts(s: State, w: WorkerId)
    requires Inv(s) && OutboxInv(s) && Enabled(s, Report(w))
    ensures CarrierOk(Settle(s, w), Doing(s, w).job)
  {
    assert WorkerOk(s, w) && CarrierOk(s, Doing(s, w).job) && ReportOk(s, w);
  }

  lemma ClaimAccounts(s: State, e: Event, j: JobId)
    requires Inv(s) && OutboxInv(s) && Enabled(s, e) && Subject(s, e) == Some(j) && (e.Poll? || e.PollCommit?)
    ensures CarrierOk(Apply(s, e), j)
  {
    assert WorkerOk(s, e.w) && CarrierOk(s, j) && JobOk(s, j);
  }

  lemma EnqueueAccounts(s: State, e: Event, j: JobId)
    requires OutboxInv(s) && Enabled(s, e) && Subject(s, e) == Some(j) && (e.Enqueue? || e.DispatchEnqueue?)
    ensures CarrierOk(Apply(s, e), j)
  {
    if e.DispatchEnqueue? {
      assert DispatchOk(s, e.k);
    }
  }

  lemma SubjectAccounts(s: State, e: Event, j: JobId)
    requires Inv(s) && OutboxInv(s) && Enabled(s, e) && Subject(s, e) == Some(j)
    ensures CarrierOk(Apply(s, e), j)
  {
    match e
    case Execute(w, ok) => ExecuteAccounts(s, w, ok);
    case ExecuteLost(w, _) => LostAccounts(s, w);
    case Report(w) => SettleAccounts(s, w);
    case PollCommit(_) => ClaimAccounts(s, e, j);
    case Poll(_, _, _) => ClaimAccounts(s, e, j);
    case Enqueue(_, _, _, _, _) => EnqueueAccounts(s, e, j);
    case DispatchEnqueue(_, _) => EnqueueAccounts(s, e, j);
    case _ =>
  }

  lemma OtherAccounts(s: State, e: Event, j: JobId)
    requires Inv(s) && OutboxInv(s) && Enabled(s, e) && Subject(s, e) != Some(j)
    ensures CarrierOk(Apply(s, e), j)
  {
    OtherJobs(s, e, j);
    CarriersStay(s, e);
    assert CarrierOk(s, j);
    if j in s.jobs && s.jobs[j].kind.Deliver? {
      if e.Execute? {
        assert CarrierOk(s, Doing(s, e.w).job);
      }
      OtherDeliveries(s, e, s.jobs[j].kind.delivery);
    }
  }

  lemma OwnReportOk(s: State, e: Event, w: WorkerId)
    requires Inv(s) && OutboxInv(s) && Enabled(s, e) && Actor(e) == Some(w)
    ensures ReportOk(Apply(s, e), w)
  {
    if e.Execute? || e.ExecuteLost? {
      assert WorkerOk(s, w) && CarrierOk(s, Doing(s, w).job);
    }
  }

  lemma ReportsKept(s: State, e: Event, w: WorkerId)
    requires Inv(s) && OutboxInv(s) && Enabled(s, e)
    ensures ReportOk(Apply(s, e), w)
  {
    if Actor(e) != Some(w) && Doing(s, w).Reported? {
      OtherWorkers(s, e, w);
      NobodyElsesJob(s, e, w);
      var j := Doing(s, w).job;
      OtherJobs(s, e, j);
      assert ReportOk(s, w) && WorkerOk(s, w) && CarrierOk(s, j);
      if e.Execute? {
        assert CarrierOk(s, Doing(s, e.w).job);
      }
      OtherDeliveries(s, e, s.jobs[j].kind.delivery);
    } else if Actor(e) != Some(w) {
      OtherWorkers(s, e, w);
    } else {
      OwnReportOk(s, e, w);
    }
  }

  lemma DispatchKept(s: State, e: Event, k: DispatchId)
    requires Inv(s) && OutboxInv(s) && Enabled(s, e) && k in Apply(s, e).dispatches
    ensures DispatchOk(Apply(s, e), k)
  {
    match e
    case DispatchBegin(_, _) => BeginKept(s, e, k);
    case DispatchInsert(_, _) => InsertKept(s, e, k);
    case DispatchEnqueue(_, _) => EnqueueKept(s, e, k);
    case _ => assert DispatchOk(s, k);
  }

  lemma BeginKept(s: State, e: Event, k: DispatchId)
    requires OutboxInv(s) && Enabled(s, e) && e.DispatchBegin? && k in Apply(s, e).dispatches
    ensures DispatchOk(Apply(s, e), k)
  {
    assert k in s.dispatches ==> DispatchOk(s, k);
  }

  lemma InsertKept(s: State, e: Event, k: DispatchId)
    requires OutboxInv(s) && Enabled(s, e) && e.DispatchInsert? && k in Apply(s, e).dispatches
    ensures DispatchOk(Apply(s, e), k)
  {
    assert DispatchOk(s, k);
  }

  lemma EnqueueKept(s: State, e: Event, k: DispatchId)
    requires OutboxInv(s) && Enabled(s, e) && e.DispatchEnqueue? && k in Apply(s, e).dispatches
    ensures DispatchOk(Apply(s, e), k)
  {
    assert DispatchOk(s, k) && DispatchOk(s, e.k);
  }

  /** A dispatch's open delivery was open before, or is the one this step inserted. */
  lemma OpenedWhen(s: State, e: Event, k: DispatchId)
    requires Enabled(s, e) && k in Apply(s, e).dispatches && Apply(s, e).dispatches[k].open.Some?
    ensures (k in s.dispatches && s.dispatches[k].open == Apply(s, e).dispatches[k].open)
            || (e.DispatchInsert? && e.k == k && Apply(s, e).dispatches[k].open == Some(e.d))
  {
  }

  lemma OpenStaysOwn(s: State, e: Event, k: DispatchId, l: DispatchId)
    requires Inv(s) && OutboxInv(s) && Enabled(s, e)
    requires k in Apply(s, e).dispatches && l in Apply(s, e).dispatches
    requires Apply(s, e).dispatches[k].open.Some? && Apply(s, e).dispatches[k].open == Apply(s, e).dispatches[l].open
    ensures k == l
  {
    OpenedWhen(s, e, k);
    OpenedWhen(s, e, l);
    assert k in s.dispatches ==> DispatchOk(s, k);
    assert l in s.dispatches ==> DispatchOk(s, l);
  }

  lemma DispatchesKept(s: State, e: Event)
    requires Inv(s) && OutboxInv(s) && Enabled(s, e)
    ensures forall k :: k in Apply(s, e).dispatches ==> DispatchOk(Apply(s, e), k)
    ensures var after := Apply(s, e).dispatches;
      forall k, l, d :: k in after && l in after && after[k].open == Some(d) == after[l].open ==> k == l
  {
    var after := Apply(s, e).dispatches;
    forall k | k in after ensures DispatchOk(Apply(s, e), k) {
      DispatchKept(s, e, k);
    }
    forall k, l, d | k in after && l in after && after[k].open == Some(d) == after[l].open ensures k == l {
      OpenStaysOwn(s, e, k, l);
    }
  }

  lemma OrphansPending(s: State, e: Event)
    requires Inv(s) && OutboxInv(s) && Enabled(s, e)
    ensures var s' := Apply(s, e);
      && s'.carrier.Keys <= s'.minted && s'.deliveries.Keys <= s'.minted
      && (forall d :: d in s'.deliveries && d !in s'.carrier ==> s'.deliveries[d] == Delivery(Pending, 0))
  {
    if e.Execute? {
      assert CarrierOk(s, Doing(s, e.w).job);
    }
    if e.DispatchEnqueue? {
      assert DispatchOk(s, e.k);
    }
  }

  lemma OutboxKept(s: State, e: Event)
    requires Inv(s) && OutboxInv(s) && Enabled(s, e)
    ensures OutboxInv(Apply(s, e))
  {
    OrphansPending(s, e);
    DispatchesKept(s, e);
    forall j: JobId ensures CarrierOk(Apply(s, e), j) {
      if Subject(s, e) == Some(j) {
        SubjectAccounts(s, e, j);
      } else {
        OtherAccounts(s, e, j);
      }
    }
    forall w: WorkerId ensures ReportOk(Apply(s, e), w) {
      ReportsKept(s, e, w);
    }
  }

  lemma {:induction false} RunOutbox(ss: seq<State>, es: seq<Event>, i: nat)
    requires Run(ss, es) && i < |ss|
    ensures OutboxInv(ss[i])
  {
    if i > 0 {
      RunOutbox(ss, es, i - 1);
      RunInv(ss, es, i - 1);
      OutboxKept(ss[i - 1], es[i - 1]);
    }
  }

  /**
   While its delivery row exists, a job has as many attempts as the delivery has, plus one for every run whose
   outcome was lost, plus one exactly when a claim has not recorded its outcome yet, in which case it is still
   running; a completed job has been delivered and a failed one has not.
   */
  lemma AttemptsAddUp(ss: seq<State>, es: seq<Event>, i: nat, j: JobId)
    requires Run(ss, es) && i < |ss| && j in ss[i].jobs && ss[i].jobs[j].kind.Deliver?
    requires ss[i].jobs[j].kind.delivery in ss[i].deliveries
    ensures j in ss[i].history
    ensures var job, d, h := ss[i].jobs[j], ss[i].deliveries[ss[i].jobs[j].kind.delivery], ss[i].history[j];
      && job.attempts == d.attempts + h.lost + (if h.unrecorded then 1 else 0)
      && (h.unrecorded ==> job.status.Running?)
      && (job.status.Completed? ==> d.status.Delivered?)
      && (job.status.Failed? ==> !d.status.Delivered? && (h.lost == 0 ==> d.status.Undelivered?))
  {
    RunInv(ss, es, i);
    RunOutbox(ss, es, i);
    assert CarrierOk(ss[i], j) && JobOk(ss[i], j);
  }

  /** A job whose outcome is recorded, as a success if it is about to be reported, and that is not queued. */
  ghost predicate Succeeded(s: State, j: JobId) {
    && j in s.history
    && (j in s.jobs ==> !s.history[j].unrecorded && !s.jobs[j].status.Queued?)
    && forall w: WorkerId :: Doing(s, w).Reported? && Doing(s, w).job == j ==> Doing(s, w).ok
  }

  ghost predicate DeliveredOk(s: State, d: DeliveryId) {
    d in s.deliveries && s.deliveries[d].status.Delivered? ==> d in s.carrier && Succeeded(s, s.carrier[d])
  }

  /** Success sticks: from then on the job is neither claimed nor executed. */
  lemma SucceededStep(s: State, e: Event, j: JobId)
    requires Inv(s) && Enabled(s, e) && Succeeded(s, j)
    ensures Succeeded(Apply(s, e), j)
    ensures e.Execute? || e.ExecuteLost? ==> Doing(s, e.w).job != j
  {
    KnownStays(s, e, j);
    QueuedStep(s, e, j);
    SucceededIdle(s, e, j);
    if Subject(s, e) != Some(j) {
      OtherJobs(s, e, j);
    } else if j !in s.jobs {
      GoneStays(s, e, j);
    }
    forall w: WorkerId | Doing(Apply(s, e), w).Reported? && Doing(Apply(s, e), w).job == j
      ensures Doing(Apply(s, e), w).ok
    {
      if Actor(e) != Some(w) {
        OtherWorkers(s, e, w);
      }
    }
  }

  lemma SucceededIdle(s: State, e: Event, j: JobId)
    requires Inv(s) && Enabled(s, e) && Succeeded(s, j)
    ensures e.Execute? || e.ExecuteLost? ==> Doing(s, e.w).job != j
    ensures !Claims(s, e, j) && !Requeues(s, e, j)
  {
    QueuedStep(s, e, j);
    if e.Execute? || e.ExecuteLost? {
      assert WorkerOk(s, e.w);
    }
    if e.Report? {
      assert WorkerOk(s, e.w);
    }
  }

  lemma ExecutedOk(s: State, w: WorkerId)
    requires Inv(s) && OutboxInv(s) && Enabled(s, Execute(w, true))
    ensures Succeeded(Apply(s, Execute(w, true)), Doing(s, w).job)
  {
    var j := Doing(s, w).job;
    assert WorkerOk(s, w) && CarrierOk(s, j);
    var s' := Apply(s, Execute(w, true));
    assert Doing(s', w) == Reported(j, Doing(s, w).attempts, Doing(s, w).limit, true);
    forall v: WorkerId | Doing(s', v).Reported? && Doing(s', v).job == j ensures Doing(s', v).ok {
      assert WorkerOk(s, v);
      if v != w {
        OtherWorkers(s, Execute(w, true), v);
      }
    }
  }

  lemma DeliveredKept(s: State, e: Event, d: DeliveryId)
    requires Inv(s) && OutboxInv(s) && Enabled(s, e) && DeliveredOk(s, d)
    ensures DeliveredOk(Apply(s, e), d)
  {
    CarriersStay(s, e);
    if e.Execute? && s.jobs[Doing(s, e.w).job].kind == Deliver(d) {
      assert CarrierOk(s, Doing(s, e.w).job);
      if e.ok {
        assert e == Execute(e.w, true);
        ExecutedOk(s, e.w);
      }
    } else if !(e.DispatchInsert? && e.d == d) {
      OtherDeliveries(s, e, d);
      if d in Apply(s, e).deliveries && s.deliveries[d].status.Delivered? {
        SucceededStep(s, e, s.carrier[d]);
      }
    }
  }

  lemma {:induction false} RunDelivered(ss: seq<State>, es: seq<Event>, i: nat, d: DeliveryId)
    requires Run(ss, es) && i < |ss|
    ensures DeliveredOk(ss[i], d)
  {
    if i > 0 {
      RunDelivered(ss, es, i - 1, d);
      RunInv(ss, es, i - 1);
      RunOutbox(ss, es, i - 1);
      DeliveredKept(ss[i - 1], es[i - 1], d);
    }
  }

  lemma {:induction false} SuccessSticks(ss: seq<State>, es: seq<Event>, i: nat, k: nat, d: DeliveryId, j: JobId)
    requires Run(ss, es) && i <= k < |ss| && d in ss[i].carrier && ss[i].carrier[d] == j && Succeeded(ss[i], j)
    ensures d in ss[k].carrier && ss[k].carrier[d] == j && Succeeded(ss[k], j)
  {
    if i < k {
      SuccessSticks(ss, es, i, k - 1, d, j);
      RunInv(ss, es, k - 1);
      RunOutbox(ss, es, k - 1);
      SucceededStep(ss[k - 1], es[k - 1], j);
      CarriersStay(ss[k - 1], es[k - 1]);
    }
  }

  /** At most one success: a delivery recorded as delivered is never executed again, whatever happens to its rows. */
  lemma DeliveredIsNeverSentAgain(ss: seq<State>, es: seq<Event>, i: nat, k: nat, d: DeliveryId)
    requires Run(ss, es) && i <= k < |es|
    requires d in ss[i].deliveries && ss[i].deliveries[d].status.Delivered?
    requires es[k].Execute? || es[k].ExecuteLost?
    ensures ss[k].jobs[Doing(ss[k], es[k].w).job].kind != Deliver(d)
  {
    RunDelivered(ss, es, i, d);
    SuccessSticks(ss, es, i, k, d, ss[i].carrier[d]);
    RunInv(ss, es, k);
    RunOutbox(ss, es, k);
    SucceededIdle(ss[k], es[k], ss[i].carrier[d]);
    assert CarrierOk(ss[k], Doing(ss[k], es[k].w).job);
  }

  /** No two jobs ever carry the same delivery. */
  lemma OneCarrierPerDelivery(ss: seq<State>, es: seq<Event>, i: nat, a: JobId, b: JobId)
    requires Run(ss, es) && i < |ss| && a in ss[i].jobs && b in ss[i].jobs
    requires ss[i].jobs[a].kind.Deliver? && ss[i].jobs[a].kind == ss[i].jobs[b].kind
    ensures a == b
  {
    RunOutbox(ss, es, i);
    assert CarrierOk(ss[i], a) && CarrierOk(ss[i], b);
  }

  /** During a dispatch the deliveries it inserted exceed the jobs it enqueued by nought or one. */
  lemma DispatchInStep(ss: seq<State>, es: seq<Event>, i: nat, k: DispatchId)
    requires Run(ss, es) && i < |ss| && k in ss[i].dispatches
    ensures var x := ss[i].dispatches[k];
      x.enqueued <= x.inserted <= x.enqueued + 1 && (x.inserted == x.enqueued <==> x.open.None?)
  {
    RunOutbox(ss, es, i);
    assert DispatchOk(ss[i], k);
  }
}
