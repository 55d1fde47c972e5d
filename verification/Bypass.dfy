/**
 No job waits for ever (src/services/job_queue.rs): once a queued job is due, only boundedly many polls of its queue
 pass it over.
 */
module Bypass {
  import opened Wrappers
  import opened JobQueue
  import opened Workers

  /** Polls may interleave but are not rolled back, and new jobs are not backdated. */
  ghost predicate PatientRun(ss: seq<State>, es: seq<Event>) {
    && Run(ss, es)
    && (forall i {:trigger es[i]} :: 0 <= i < |es| && es[i].Abandon? ==> !Doing(ss[i], es[i].w).Locking?)
    && (forall i {:trigger es[i]} :: 0 <= i < |es| && es[i].Enqueue? ==> es[i].runAt >= ss[i].now)
  }

  ghost predicate Patient(s: State, e: Event) {
    (e.Abandon? ==> !Doing(s, e.w).Locking?) && (e.Enqueue? ==> e.runAt >= s.now)
  }

  /** The unlocked queued jobs of the same queue that run no later than `j`, itself included. */
  function Ahead(s: State, j: JobId): set<JobId>
    requires j in s.jobs
  {
    set k | k in s.jobs && s.jobs[k].queue == s.jobs[j].queue && s.jobs[k].status.Queued?
            && s.jobs[k].runAt <= s.jobs[j].runAt && k !in Locked(s)
  }

  /** A locking SELECT on the queue. */
  predicate Selects(e: Event, queue: string) {
    (e.PollLock? || e.Poll? || e.PollEmpty?) && e.queue == queue
  }

  /** The SELECT that takes `j`. */
  predicate Takes(e: Event, j: JobId) {
    (e.PollLock? || e.Poll?) && e.j == j
  }

  function SelectCount(es: seq<Event>, queue: string, i: nat, k: nat): nat
    requires i <= k <= |es|
  {
    if i == k then 0 else SelectCount(es, queue, i, k - 1) + if Selects(es[k - 1], queue) then 1 else 0
  }

  /** Due, and neither running nor locked. */
  ghost predicate Waiting(s: State, j: JobId) {
    IsQueued(s, j) && s.jobs[j].runAt < s.now && j !in Locked(s)
  }

  lemma LockedIff(s: State, j: JobId)
    ensures j in Locked(s) <==> exists w: WorkerId :: Doing(s, w) == Locking(j)
  {
    if j in Locked(s) {
      var w :| w in s.workers && s.workers[w].Locking? && s.workers[w].job == j;
      assert Doing(s, w) == Locking(j);
    }
  }

  /** A lock on a queued job that is not rolled back is held until the job is claimed. */
  lemma LockHeld(s: State, e: Event, k: JobId)
    requires Inv(s) && Enabled(s, e) && Patient(s, e) && k in Locked(s)
    ensures k in Locked(Apply(s, e)) || Claims(s, e, k)
  {
    LockedIff(s, k);
    var w: WorkerId :| Doing(s, w) == Locking(k);
    LockedIff(Apply(s, e), k);
    if Actor(e) != Some(w) {
      OtherWorkers(s, e, w);
    }
  }

  /** Requeued jobs go into the future, and locks are not given up: nothing joins the jobs ahead. */
  lemma NobodyCutsIn(s: State, e: Event, j: JobId, k: JobId)
    requires Inv(s) && Enabled(s, e) && Patient(s, e) && Waiting(s, j)
    requires j in Apply(s, e).jobs && Apply(s, e).jobs[j] == s.jobs[j]
    ensures k in Ahead(Apply(s, e), j) ==> k in Ahead(s, j)
  {
    if k in Ahead(Apply(s, e), j) {
      if k in s.history {
        QueuedStep(s, e, k);
        if k in Locked(s) {
          LockHeld(s, e, k);
        }
      }
      if Subject(s, e) != Some(k) {
        OtherJobs(s, e, k);
      }
    }
  }

  lemma StillWaiting(s: State, e: Event, j: JobId)
    requires Inv(s) && Enabled(s, e) && Waiting(s, j) && !Takes(e, j)
    ensures Waiting(Apply(s, e), j) && Apply(s, e).jobs[j] == s.jobs[j]
  {
    LockedIff(s, j);
    assert Subject(s, e) != Some(j) by {
      if Actor(e).Some? {
        assert WorkerOk(s, Actor(e).value);
      }
    }
    OtherJobs(s, e, j);
    LockedIff(Apply(s, e), j);
    forall w: WorkerId ensures Doing(Apply(s, e), w) != Locking(j) {
      if Actor(e) != Some(w) {
        OtherWorkers(s, e, w);
      }
    }
  }

  /** A locking SELECT finds a job, and unless it is `j` itself it takes one of those ahead out of the line. */
  lemma SelectShortensTheLine(s: State, e: Event, j: JobId)
    requires Inv(s) && Enabled(s, e) && Waiting(s, j) && Selects(e, s.jobs[j].queue) && !Takes(e, j)
    requires j in Apply(s, e).jobs
    ensures !e.PollEmpty? && e.j in Ahead(s, j) && e.j !in Ahead(Apply(s, e), j)
  {
    assert Eligible(s.jobs[j], s.jobs[j].queue, s.now);
    if e.PollLock? {
      assert Doing(Apply(s, e), e.w) == Locking(e.j);
      LockedIff(Apply(s, e), e.j);
    }
  }

  lemma LineStep(s: State, e: Event, j: JobId)
    requires Inv(s) && Enabled(s, e) && Patient(s, e) && Waiting(s, j) && !Takes(e, j)
    ensures Waiting(Apply(s, e), j) && Apply(s, e).jobs[j] == s.jobs[j]
    ensures |Ahead(Apply(s, e), j)| + (if Selects(e, s.jobs[j].queue) then 1 else 0) <= |Ahead(s, j)|
  {
    var s' := Apply(s, e);
    StillWaiting(s, e, j);
    forall x | x in Ahead(s', j) ensures x in Ahead(s, j) {
      NobodyCutsIn(s, e, j, x);
    }
    if Selects(e, s.jobs[j].queue) {
      SelectShortensTheLine(s, e, j);
      Fewer(Ahead(s', j), Ahead(s, j), e.j);
    } else {
      SubsetSize(Ahead(s', j), Ahead(s, j));
    }
  }

  lemma {:induction false} LineShrinks(ss: seq<State>, es: seq<Event>, i: nat, k: nat, j: JobId)
    requires PatientRun(ss, es) && i <= k <= |es| && Waiting(ss[i], j)
    requires forall m {:trigger es[m]} :: i <= m < k ==> !Takes(es[m], j)
    ensures Waiting(ss[k], j) && ss[k].jobs[j] == ss[i].jobs[j] && |Ahead(ss[k], j)| >= 1
    ensures |Ahead(ss[k], j)| + SelectCount(es, ss[i].jobs[j].queue, i, k) <= |Ahead(ss[i], j)|
  {
    if i < k {
      LineShrinks(ss, es, i, k - 1, j);
      RunInv(ss, es, k - 1);
      LineStep(ss[k - 1], es[k - 1], j);
    }
    assert j in Ahead(ss[k], j);
  }

  lemma Fewer(a: set<nat>, b: set<nat>, x: nat)
    requires a <= b && x in b && x !in a
    ensures |a| + 1 <= |b|
  {
    SubsetSize(a, b - {x});
  }

  /**
   Bounded bypass, however polls interleave: once a queued job is due, it is taken by a locking SELECT after
   at most as many of them on its queue as there were unlocked jobs due no later, itself included. It is then
   locked, or, when the poll has committed in the same step, running.
   */
  lemma BoundedBypass(ss: seq<State>, es: seq<Event>, i: nat, k: nat, j: JobId) returns (m: nat)
    requires PatientRun(ss, es) && i <= k <= |es| && Waiting(ss[i], j)
    requires SelectCount(es, ss[i].jobs[j].queue, i, k) >= |Ahead(ss[i], j)|
    ensures i <= m < k && Takes(es[m], j)
    ensures if es[m].PollLock? then Doing(ss[m + 1], es[m].w) == Locking(j) else Works(Doing(ss[m + 1], es[m].w), j)
  {
    if m' :| i <= m' < k && Takes(es[m'], j) {
      m := m';
      assert ss[m + 1] == Apply(ss[m], es[m]);
    } else {
      LineShrinks(ss, es, i, k, j);
      assert false;
    }
  }
}
