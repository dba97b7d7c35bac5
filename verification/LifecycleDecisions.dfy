/**
 What each decision of the lifecycle depends on, and what it leaves alone: when a failure is
 retried, when a stop takes effect and on whom, and how a stop that cannot finish ends.
 */
module LifecycleDecisions {
  import opened Basics
  import opened Text
  import opened LifecycleModel
  import opened LifecycleRuns

  // ----------------------------------------------------------------- failures

  /** The failure is worth a retry and one is left, or it is the queue's and not the request's fault. */
  predicate Retries(max: int, st: Record, e: Error) {
    e.retryable && (e.code in {SandboxCapacity, RateLimited, SecondaryRateLimit} || st.retryCount < max)
  }

  /**
   A failure is retried exactly when its error is retryable and either the queue's or within the budget;
   any other fails the request, which then keeps its count. Both name stage and code and forget the sandbox.
   */
  lemma FailureDecides(max: int, st: Record, stage: Stage, e: Error)
    ensures var w := ApplyFailure(max, st, stage, e);
      && (w.next.status == Queued <==> Retries(max, st, e))
      && (w.next.status == Status.Failed <==> !Retries(max, st, e))
      && (w.next.retryScheduled <==> Retries(max, st, e))
      && w.next.retryCount == st.retryCount + (if Retries(max, st, e) && st.retryCount < max then 1 else 0)
      && (w.budget == Budgeted <==> Retries(max, st, e) && e.code !in {SandboxCapacity, RateLimited, SecondaryRateLimit})
      && Describes(st, w.next, stage, e)
  {
  }

  /** The failed copy names stage and code, has no lease and no sandbox, no runner's version if it is queued again, and is otherwise the old one. */
  predicate Describes(st: Record, next: Record, stage: Stage, e: Error) {
    && next.stage == stage && next.reason == Classified(e.code) && next.lastError == Failure(e.code)
    && next.lastErrorRetryable == e.retryable && next.leaseOwner == "" && next.sandboxId == "" && next.pid == 0
    && SameRequest(st, next) && next.runnerVersion == (if next.status == Queued then "" else st.runnerVersion)
  }

  predicate SameRequest(st: Record, next: Record) {
    && (next.workflowJobId, next.runnerName, next.assignedJobId, next.assignedJobName)
       == (st.workflowJobId, st.runnerName, st.assignedJobId, st.assignedJobName)
    && (next.terminationSource, next.exitCode, next.lastAttempt) == (st.terminationSource, st.exitCode, st.lastAttempt)
  }

  /** What a start's failure and the sweep's retry write, and when they write nothing. */
  lemma FailedStartDecides(max: int, st: Record, stage: Stage, e: Error, attempt: Option<nat>)
    ensures var plan := FailStart(max, st, stage, e, attempt);
      if st.status in {Completed, Stopping} || (attempt.Some? && (st.status != Creating || st.lastAttempt != attempt.value)) then plan == []
      else |plan| == 1 && (plan[0].next.status == if Retries(max, st, e) then Queued else Status.Failed) && Describes(st, plan[0].next, stage, e)
    ensures var plan := RetryOrFail(max, st, stage, e);
      if st.status in {Completed, Status.Failed} then plan == []
      else |plan| == 1 && (plan[0].next.status == if Retries(max, st, e) then Queued else Status.Failed) && Describes(st, plan[0].next, stage, e)
  {
    hide Retries, Describes, ApplyFailure;
    FailureDecides(max, st, stage, e);
  }

  /** The record an agent's next write replaces, if the write passes its version check, is the copy its plan extends. */
  lemma AgentKnowsRecord(max: nat, jobId: int, runnerName: string, rejected: bool, steps: seq<Step>, agent: nat)
    requires ValidRun(max, Created(jobId, runnerName, rejected), steps)
    requires Enabled(After(max, Created(jobId, runnerName, rejected), steps), WriteNext(agent))
    ensures var st := After(max, Created(jobId, runnerName, rejected), steps);
      var a := st.agents[agent];
      && a.plan == Plan(max, a.op, a.base) && a.done < |a.plan|
      && (Current(st, agent) ==>
            && SameButLease(st.record, Before(a.base, a.plan, a.done).(version := st.record.version))
            && Apply(max, st, WriteNext(agent)).record == a.plan[a.done].next.(version := st.record.version + 1))
      && (!Current(st, agent) ==> Apply(max, st, WriteNext(agent)).record == st.record)
  {
    hide Plan;
    RunKeepsValid(max, Created(jobId, runnerName, rejected), steps);
    var st := After(max, Created(jobId, runnerName, rejected), steps);
    assert AgentValid(max, st.record, st.agents[agent]);
  }

  /**
   In every run the failure of a start, or of a sweep's check, requeues the request exactly when it is one to retry on the
   record as it then is: a permanent error never does.
   */
  lemma PermanentErrorsNeverRequeue(max: nat, jobId: int, runnerName: string, rejected: bool, steps: seq<Step>, agent: nat)
    requires ValidRun(max, Created(jobId, runnerName, rejected), steps)
    requires Enabled(After(max, Created(jobId, runnerName, rejected), steps), WriteNext(agent))
    requires var op := After(max, Created(jobId, runnerName, rejected), steps).agents[agent].op; op.OpFailStart? || op.OpRetryOrFail?
    ensures var st := After(max, Created(jobId, runnerName, rejected), steps);
      var op, next := st.agents[agent].op, Apply(max, st, WriteNext(agent)).record;
      && (Current(st, agent) ==>
            && next.status == (if Retries(max, st.record, op.error) then Queued else Status.Failed)
            && next.stage == op.stage && next.lastError == Failure(op.error.code)
            && (!op.error.retryable ==> next.status == Status.Failed && next.retryCount == st.record.retryCount && !next.retryScheduled))
      && (!Current(st, agent) ==> next == st.record)
  {
    hide ValidRun, After, ApplyFailure, Apply;
    AgentKnowsRecord(max, jobId, runnerName, rejected, steps, agent);
    var st := After(max, Created(jobId, runnerName, rejected), steps);
    var a := st.agents[agent];
    FailureDecides(max, a.base, a.op.stage, a.op.error);
    assert a.done == 0;
  }

  /** A stop is tried again exactly when its error is retryable and a retry is left; it then stays stopping and names the stop. */
  lemma StopRetryDecides(max: int, st: Record, e: Error)
    ensures var w := ScheduleStopRetry(max, st, e);
      && (w.Some? <==> e.retryable && st.retryCount < max)
      && (w.Some? ==>
            && w.value.budget == Budgeted && w.value.next.status == Stopping && w.value.next.retryScheduled
            && w.value.next.retryCount == st.retryCount + 1
            && (w.value.next.stage, w.value.next.reason, w.value.next.lastError) == (StopStage, Classified(e.code), Failure(e.code))
            && Identity(w.value.next.sandboxId, w.value.next.pid) == Identity(st.sandboxId, st.pid) && SameRequest(st, w.value.next)
            && w.value.next.runnerVersion == st.runnerVersion)
  {
  }

  /**
   A deregistration is tried again exactly when its error is retryable and a retry is left or the runner is busy;
   the request then stays stopping and keeps the stage that was blamed first.
   */
  lemma CleanupRetryDecides(max: int, st: Record, e: Error)
    ensures var w := ScheduleCleanupRetry(max, st, e);
      && (w.Some? <==> e.retryable && (e.busyCleanup || st.retryCount < max))
      && (w.Some? ==>
            && (w.value.budget == if e.busyCleanup then Deferred else Budgeted)
            && w.value.next.status == Stopping && w.value.next.retryScheduled
            && w.value.next.retryCount == st.retryCount + (if st.retryCount < max then 1 else 0)
            && w.value.next.lastError == Failure(e.code)
            && (if st.stage == NoStage then (w.value.next.stage, w.value.next.reason) == (Cleanup, Classified(e.code))
                else (w.value.next.stage, w.value.next.reason) == (st.stage, st.reason))
            && Identity(w.value.next.sandboxId, w.value.next.pid) == Identity(st.sandboxId, st.pid) && SameRequest(st, w.value.next)
            && w.value.next.runnerVersion == st.runnerVersion)
  {
  }

  // -------------------------------------------------------------------- stops

  /** GitHub says that this very runner ran the job. */
  predicate RanHere(st: Record, job: Job) {
    !Blank(job.runnerName) && TrimSpace(job.runnerName) == TrimSpace(st.runnerName)
  }

  /**
   A stop takes effect on a request that is not completed exactly when it is for no job, for one that ran on this runner,
   for the job the runner is assigned, or, on an unassigned runner, for a job the runner cannot have taken unnoticed:
   one that is not the request's own, or the request's own before any job started. Whom it stops, it marks first.
   */
  lemma StopTakesEffectExactlyWhen(max: int, st: Record, job: Job, changed: bool, source: string, stop: StopResult, cleanup: CleanupResult, queued: bool)
    ensures var plan := StopRunner(max, st, job, changed, source, stop, cleanup, queued);
      && (|plan| >= 2 <==>
            && st.status != Completed
            && (|| job.id == 0 || RanHere(st, job) || st.assignedJobId == job.id
                || (st.assignedJobId == 0 && !(st.assignedJobName == JOB_STARTED && st.workflowJobId == job.id))))
      && (|plan| >= 2 ==> Marked(st, plan[0].next, job, source))
  {
    hide TrimSpace, Blank;
    BlankTrims(job.runnerName);
    hide StopConflicts;
    Conflicts(st, job);
    var stopping := Sourced(Assigned(st, job), source).(status := Stopping);
    StopEnds(max, stopping, job, stop, cleanup, queued);
  }

  /** The stopping copy: the request's own sandbox, the job if there is one, and who stopped it first. */
  predicate Marked(st: Record, next: Record, job: Job, source: string) {
    && next.status == Stopping && next.sandboxId == st.sandboxId && next.pid == st.pid && next.retryCount == st.retryCount
    && (next.stage, next.reason, next.workflowJobId, next.runnerName) == (st.stage, st.reason, st.workflowJobId, st.runnerName)
    && (if job.id == 0 then (next.assignedJobId, next.assignedJobName) == (st.assignedJobId, st.assignedJobName)
        else (next.assignedJobId, next.assignedJobName) == (job.id, job.name))
    && next.terminationSource == (if st.terminationSource == "" then source else st.terminationSource)
  }

  lemma Conflicts(st: Record, job: Job)
    requires Blank(job.runnerName) <==> TrimSpace(job.runnerName) == ""
    ensures StopConflicts(st, job) <==>
      !(|| job.id == 0 || RanHere(st, job) || st.assignedJobId == job.id
        || (st.assignedJobId == 0 && !(st.assignedJobName == JOB_STARTED && st.workflowJobId == job.id)))
  {
    hide TrimSpace, Blank;
  }

  lemma StopEnds(max: int, stopping: Record, job: Job, stop: StopResult, cleanup: CleanupResult, queued: bool)
    ensures |StopEnd(max, stopping, job, stop, cleanup, queued)| >= 1
  {
  }

  /** A completion of another job, not known to have run here, changes nothing of a runner that is assigned a job. */
  lemma StopSparesOtherJobs(max: int, st: Record, job: Job, changed: bool, source: string, stop: StopResult, cleanup: CleanupResult, queued: bool)
    requires job.id != 0 && st.assignedJobId != 0 && st.assignedJobId != job.id && !RanHere(st, job)
    ensures StopRunner(max, st, job, changed, source, stop, cleanup, queued) == if changed then [Write(st, Plain)] else []
  {
    hide TrimSpace, Blank;
    BlankTrims(job.runnerName);
  }

  /** Nor does the completion of the request's own job while the runner has started one that is not known yet. */
  lemma StopSparesUnknownJobs(max: int, st: Record, job: Job, changed: bool, source: string, stop: StopResult, cleanup: CleanupResult, queued: bool)
    requires job.id != 0 && st.assignedJobId == 0 && st.assignedJobName == JOB_STARTED && st.workflowJobId == job.id && !RanHere(st, job)
    ensures StopRunner(max, st, job, changed, source, stop, cleanup, queued) == if changed then [Write(st, Plain)] else []
  {
    hide TrimSpace, Blank;
    BlankTrims(job.runnerName);
  }

  lemma StoppedForJob(max: int, st: Record, op: Op, i: nat)
    requires op.OpStop? && op.job.id != 0 && 0 < i < |Plan(max, op, st)|
    ensures Plan(max, op, st)[i - 1].next.assignedJobId in {0, op.job.id}
  {
    hide StopEnd, StopConflicts;
    var stopping := Sourced(Assigned(st, op.job), op.source).(status := Stopping);
    if i > 1 {
      EndingForJob(max, stopping, op.job, op.stop, op.cleanup, op.originalQueued, i - 2);
    }
  }

  lemma EndingForJob(max: int, stopping: Record, job: Job, stop: StopResult, cleanup: CleanupResult, queued: bool, i: nat)
    requires stopping.assignedJobId == job.id && i < |StopEnd(max, stopping, job, stop, cleanup, queued)|
    ensures StopEnd(max, stopping, job, stop, cleanup, queued)[i].next.assignedJobId in {0, job.id}
  {
  }

  /**
   In every run, whoever else writes meanwhile: a stop for a job never touches a runner that is assigned another one,
   unless GitHub names the runner. Its write, if it makes one, stores the record as it was.
   */
  lemma StopsNeverEndAnotherJob(max: nat, jobId: int, runnerName: string, rejected: bool, steps: seq<Step>, agent: nat)
    requires ValidRun(max, Created(jobId, runnerName, rejected), steps)
    requires Enabled(After(max, Created(jobId, runnerName, rejected), steps), WriteNext(agent))
    requires var st := After(max, Created(jobId, runnerName, rejected), steps);
      var op := st.agents[agent].op;
      op.OpStop? && op.job.id != 0 && st.record.assignedJobId !in {0, op.job.id} && !RanHere(st.record, op.job)
    ensures var st := After(max, Created(jobId, runnerName, rejected), steps);
      var next := Apply(max, st, WriteNext(agent)).record;
      SameButLease(next, st.record.(version := next.version))
  {
    hide ValidRun, After, Plan, Apply, RanHere;
    AgentKnowsRecord(max, jobId, runnerName, rejected, steps, agent);
    var st := After(max, Created(jobId, runnerName, rejected), steps);
    var a := st.agents[agent];
    var op := a.op;
    if Current(st, agent) {
      if a.done == 0 {
        NamedAlike(st.record, a.base, op.job);
        StopSparesOtherJobs(max, a.base, op.job, op.resultChanged, op.source, op.stop, op.cleanup, op.originalQueued);
        StopPlan(max, op, a.base);
      } else {
        StoppedForJob(max, a.base, op, a.done);
      }
    }
  }

  lemma StopPlan(max: int, op: Op, st: Record)
    requires op.OpStop?
    ensures Plan(max, op, st) == StopRunner(max, st, op.job, op.resultChanged, op.source, op.stop, op.cleanup, op.originalQueued)
  {
  }

  lemma NamedAlike(st: Record, other: Record, job: Job)
    requires st.runnerName == other.runnerName
    ensures RanHere(st, job) <==> RanHere(other, job)
  {
  }
}
