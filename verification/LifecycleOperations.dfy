/**
 When each operation writes at all, and the state it then leaves: every guard as an equivalence
 on the record, every ending by what a reader of the record sees.
 */
module LifecycleOperations {
  import opened Basics
  import opened Text
  import opened LifecycleModel
  import opened LifecycleRuns

  /** Nothing is blamed. */
  predicate Blameless(st: Record) { st.stage == NoStage && st.reason == NoReason }

  /** No error is noted and no retry is due. */
  predicate Quiet(st: Record) { st.lastError == NoError && !st.lastErrorRetryable && !st.retryScheduled }

  predicate SameBlame(b: Record, n: Record) { n.stage == b.stage && n.reason == b.reason }

  predicate SameError(b: Record, n: Record) { n.lastError == b.lastError && n.lastErrorRetryable == b.lastErrorRetryable }

  predicate SameSandbox(b: Record, n: Record) { n.sandboxId == b.sandboxId && n.pid == b.pid }

  predicate NoSandbox(st: Record) { st.sandboxId == "" && st.pid == 0 }

  predicate SameJob(b: Record, n: Record) { n.assignedJobId == b.assignedJobId && n.assignedJobName == b.assignedJobName }

  predicate NoJob(st: Record) { st.assignedJobId == 0 && st.assignedJobName == "" }

  predicate SameEnding(b: Record, n: Record) {
    n.terminationSource == b.terminationSource && n.exitCode == b.exitCode && n.runnerVersion == b.runnerVersion
  }

  // ------------------------------------------------------------------- starts

  /** Exactly a queued request begins; a wait for capacity is forgotten, an earlier failure is not. */
  lemma BeginsExactlyWhen(st: Record, worker: string, windows: Option<nat>)
    ensures var plan := BeginCreating(st, worker, windows);
      && (plan != [] <==> st.status == Queued)
      && (plan != [] ==>
            && |plan| == 1 && plan[0].next.status == Creating && plan[0].next.leaseOwner == worker
            && SameBlame(st, plan[0].next) && SameSandbox(st, plan[0].next) && SameJob(st, plan[0].next) && SameEnding(st, plan[0].next)
            && (if st.lastError.Capacity? then Quiet(plan[0].next)
                else SameError(st, plan[0].next) && plan[0].next.retryScheduled == st.retryScheduled)
            && (if windows.None? then plan[0].next.lastAttempt == st.lastAttempt
                else plan[0].next.lastAttempt > st.lastAttempt && plan[0].next.lastAttempt >= windows.value))
  {
  }

  /** Exactly a creating request adopts, a Windows one only in its own attempt; what was blamed before stays. */
  lemma AdoptsExactlyWhen(st: Record, sandboxId: string, pid: nat, attempt: Option<nat>)
    ensures var plan := Adopt(st, sandboxId, pid, attempt);
      && (plan != [] <==> st.status == Creating && (attempt.Some? ==> st.lastAttempt == attempt.value))
      && (plan != [] ==>
            && |plan| == 1 && plan[0].next.status == Running && plan[0].next.leaseOwner == ""
            && plan[0].next.sandboxId == sandboxId && plan[0].next.pid == pid
            && SameBlame(st, plan[0].next) && SameJob(st, plan[0].next) && SameEnding(st, plan[0].next))
  {
  }

  /** A request is put off exactly by the worker that holds its lease, and waits without one. */
  lemma DefersExactlyWhen(st: Record, worker: string, dimension: string)
    ensures var plan := DeferQueued(st, worker, dimension);
      && (plan != [] <==> st.status == Queued && st.leaseOwner == worker)
      && (plan != [] ==>
            && |plan| == 1 && plan[0].next.status == Queued && plan[0].next.leaseOwner == "" && plan[0].next.retryScheduled
            && plan[0].next.lastError == Capacity(dimension) && plan[0].next.lastErrorRetryable
            && SameBlame(st, plan[0].next) && SameSandbox(st, plan[0].next) && SameJob(st, plan[0].next))
    ensures var plan := DeferCreating(st, worker);
      && (plan != [] <==> st.status == Creating && st.leaseOwner == worker && st.sandboxId == "")
      && (plan != [] ==>
            && |plan| == 1 && plan[0].next.status == Queued && plan[0].next.leaseOwner == "" && plan[0].next.retryScheduled
            && SameError(st, plan[0].next) && SameBlame(st, plan[0].next) && SameSandbox(st, plan[0].next) && SameJob(st, plan[0].next)
            && plan[0].next.runnerVersion == "")
  {
  }

  /** What a job-status answer says about the wait it causes; a stale answer counts as waiting. */
  function WaitFor(stale: bool, lookup: Lookup): JobWait {
    match lookup
    case LookupError(limited) => if stale then WaitingJob else if limited then LookupRateLimited else Unavailable
    case JobUnrecognized => if stale then WaitingJob else UnknownStatus
    case _ => WaitingJob
  }

  /**
   The job-status check writes only for the attempt it was made for, and then leaves a queued answer alone unless the
   record waited for it; a completed job ends the request; anything else makes it wait, and only a failed request blames the check.
   */
  lemma JobCheckSays(max: int, st: Record, worker: string, sameAttempt: bool, stale: bool, lookup: Lookup)
    ensures var plan := EnsureStillQueued(max, st, worker, sameAttempt, stale, lookup);
      && (plan != [] <==>
            && st.status == Creating && st.leaseOwner == worker && NoSandbox(st) && sameAttempt
            && (!stale && lookup.JobQueued? ==> st.lastError.JobWait?))
      && (plan != [] ==> |plan| == 1 && JobCheckLeaves(st, plan[0].next, stale, lookup))
  {
  }

  predicate JobCheckLeaves(st: Record, n: Record, stale: bool, lookup: Lookup) {
    if !stale && lookup.JobQueued? then n.status == Creating && Quiet(n) && Blameless(n) && n.leaseOwner == st.leaseOwner && SameJob(st, n)
    else if !stale && lookup.JobCompleted? then
      && n.status == Completed && Blameless(n) && n.leaseOwner == "" && !n.retryScheduled
      && (if lookup.job.id == 0 then SameJob(st, n) else n.assignedJobId == lookup.job.id && n.assignedJobName == lookup.job.name)
    else
      && n.leaseOwner == "" && n.lastError == LastError.JobWait(WaitFor(stale, lookup)) && n.lastErrorRetryable && SameJob(st, n)
      && (n.status == Queued ==> Blameless(n) && n.retryScheduled)
      && (n.status != Queued ==> n.status == Status.Failed && !n.retryScheduled && n.stage == JobStatus && n.reason == JobLookup(WaitFor(stale, lookup)))
  }

  // --------------------------------------------------------------- assignment

  /** Only the assignment changes, exactly for a job that is news to a request not over, or for its first sign of a job. */
  lemma MarksExactlyWhen(st: Record, job: Job)
    ensures var plan := MarkInProgress(st, job);
      && (plan != [] <==>
            && st.status !in {Completed, Stopping} && job.id != 0
            && (st.assignedJobId, st.assignedJobName) != (job.id, job.name))
      && (plan != [] ==>
            && |plan| == 1 && (plan[0].next.assignedJobId, plan[0].next.assignedJobName) == (job.id, job.name)
            && plan[0].next.(assignedJobId := 0, assignedJobName := "") == st.(assignedJobId := 0, assignedJobName := ""))
    ensures var plan := MarkJobStarted(st);
      && (plan != [] <==> st.status !in {Completed, Stopping} && st.assignedJobId == 0 && st.assignedJobName != "__runner_job_started__")
      && (plan != [] ==>
            && |plan| == 1 && plan[0].next.assignedJobName == "__runner_job_started__"
            && plan[0].next.(assignedJobName := "") == st.(assignedJobName := ""))
  {
  }

  // -------------------------------------------------------------------- exits

  /** A callback is for the runner on record exactly when it gives both its sandbox and its process. */
  lemma MatchesMeans(a: Identity, st: Record)
    ensures Matches(a, st) <==> !Blank(a.sandboxId) && a.pid != 0 && st.sandboxId == a.sandboxId && st.pid == a.pid
    ensures Specified(a) <==> !(Blank(a.sandboxId) && a.pid == 0)
  {
  }

  /** The runner on record is up. */
  predicate Up(st: Record) { st.status in {Creating, Running} }

  /** An exit that came late has something to add: a version or an exit code the record has not got. */
  predicate Adds(st: Record, exit: Exit) {
    st.status in {Stopping, Completed, Status.Failed} && ((st.runnerVersion == "" && exit.version != "") || (!exit.error && st.exitCode.None?))
  }

  /** When an exit callback writes, at each of its three turns, and whether it then ends the runner. */
  lemma ExitsActExactlyWhen(max: int, st: Record, a: Identity, exit: Exit, busy: Busy, stop: StopResult, cleanup: CleanupResult)
    ensures var plan := ExitFirst(max, st, a, exit, stop, cleanup);
      && (|plan| == 2 <==> (Specified(a) ==> Matches(a, st)) && Up(st) && !exit.error && exit.code == 0)
      && (|plan| == 1 <==> Matches(a, st) && Adds(st, exit))
      && |plan| <= 2
    ensures var plan := ExitChecked(max, st, a, exit, busy, stop, cleanup);
      && (|plan| == 2 <==> Matches(a, st) && Up(st) && !busy.BusyNow?)
      && (|plan| == 1 <==> Matches(a, st) && (Adds(st, exit) || (Up(st) && busy.BusyNow?)))
      && |plan| <= 2
    ensures var plan := ExitConflicted(max, st, a, exit, stop, cleanup);
      && (plan != [] <==> Matches(a, st) && Up(st))
      && (plan != [] ==> |plan| == 2)
  {
    hide Matches, Specified, ExitEnd, Exited;
  }

  /** Late evidence is all a late exit adds: it decides nothing. */
  lemma LateExitAddsEvidence(st: Record, a: Identity, exit: Exit)
    ensures var plan := LateEvidence(st, a, exit);
      plan != [] ==>
        && |plan| == 1
        && plan[0].next.runnerVersion == (if st.runnerVersion == "" then exit.version else st.runnerVersion)
        && plan[0].next.exitCode == (if !exit.error && st.exitCode.None? then Some(exit.code) else st.exitCode)
        && plan[0].next.(runnerVersion := "", exitCode := None) == st.(runnerVersion := "", exitCode := None)
  {
    hide Matches;
  }

  /** Before cleanup begins, an exit marks the runner stopping and records how it ended; a clean one blames nothing new. */
  lemma ExitRecordsHow(max: int, st: Record, exit: Exit, stop: StopResult, cleanup: CleanupResult)
    ensures var plan := ExitTail(max, st, exit, stop, cleanup);
      && |plan| == 2 && plan[0].next.status == Stopping && SameSandbox(st, plan[0].next) && SameJob(st, plan[0].next)
      && plan[0].next.terminationSource == (if st.terminationSource == "" then "process_exit" else st.terminationSource)
      && plan[0].next.exitCode == (if exit.error then st.exitCode else Some(exit.code))
      && (if exit.error then (plan[0].next.stage, plan[0].next.reason) == (RunnerExit, ProcessError)
          else if exit.code != 0 then (plan[0].next.stage, plan[0].next.reason) == (RunnerExit, ExitedWith(exit.code))
          else SameBlame(st, plan[0].next))
      && plan[1] == ExitEnd(max, plan[0].next, exit, stop, cleanup)
  {
    hide ExitEnd;
  }

  /** The runner never accepted a job though the request is for one. */
  predicate NeverAccepted(st: Record) { st.workflowJobId != 0 && NoJob(st) }

  /** The sandbox is still there. */
  predicate Lingers(stopping: Record, stop: StopResult) { stopping.sandboxId != "" && stop.StopError? }

  predicate CleanupGranted(max: int, st: Record, cleanup: CleanupResult) {
    cleanup.CleanupError? && cleanup.error.retryable && (cleanup.error.busyCleanup || st.retryCount < max)
  }

  /** A failed exit, a sandbox that would not stop or a runner that stays registered for good. */
  predicate EndsBadly(stopping: Record, exit: Exit, stop: StopResult, cleanup: CleanupResult) {
    exit.error || exit.code != 0 || Lingers(stopping, stop) || cleanup.CleanupError?
  }

  /**
   How an exit ends: it waits for another deregistration if that is granted; otherwise a runner whose sandbox is gone,
   that is deregistered and that never accepted a job, is retried, and any other completes exactly if nothing went wrong.
   A sandbox is forgotten only with that retry.
   */
  lemma ExitEndDecides(max: int, stopping: Record, exit: Exit, stop: StopResult, cleanup: CleanupResult)
    requires exit.error || exit.code != 0 ==> stopping.stage == RunnerExit
    ensures var n := ExitEnd(max, stopping, exit, stop, cleanup).next;
      && (CleanupGranted(max, stopping, cleanup) ==> n.status == Stopping && n.retryScheduled && SameSandbox(stopping, n))
      && (!CleanupGranted(max, stopping, cleanup) && !(NeverAccepted(stopping) && cleanup.Deregistered? && !Lingers(stopping, stop)) ==>
            && n.status == (if EndsBadly(stopping, exit, stop, cleanup) then Status.Failed else Completed)
            && SameSandbox(stopping, n) && SameEnding(stopping, n)
            && (cleanup.CleanupError? && !exit.error ==> (n.stage, n.reason) == (Cleanup, CleanupFailed))
            && (cleanup.Deregistered? || exit.error ==> SameBlame(stopping, n)))
      && (NeverAccepted(stopping) && cleanup.Deregistered? && !Lingers(stopping, stop) ==>
            && n.status == (if stopping.retryCount < max then Queued else Status.Failed)
            && (n.stage, n.reason) == (RunnerExit, Classified(ExitedWithoutJob)) && NoSandbox(n))
  {
    hide ApplyFailure;
    if NeverAccepted(stopping) && cleanup.Deregistered? && !Lingers(stopping, stop) {
      WithoutJobIsRetried(max, stopping, if exit.error || exit.code != 0 then Status.Failed else Completed);
    }
  }

  lemma WithoutJobIsRetried(max: int, stopping: Record, status: Status)
    requires NeverAccepted(stopping)
    ensures var n := RetryWithoutJob(max, stopping.(status := status)).next;
      && n.status == (if stopping.retryCount < max then Queued else Status.Failed)
      && (n.stage, n.reason) == (RunnerExit, Classified(ExitedWithoutJob)) && NoSandbox(n)
  {
  }

  // -------------------------------------------------------------------- stops

  /** A stop whose sandbox is gone and whose runner is deregistered, by the job it was for and by what had gone wrong before. */
  lemma CleanStopDecides(max: int, stopping: Record, job: Job, originalQueued: bool)
    ensures var plan := StopCleaned(stopping, job, originalQueued);
      var other := job.id != 0 && stopping.workflowJobId != 0 && job.id != stopping.workflowJobId;
      && |plan| > 0
      && var n := plan[|plan| - 1].next;
      if other then
        && (originalQueued ==>
              && n.status == Queued && NoSandbox(n) && Quiet(n) && n.leaseOwner == ""
              && n.terminationSource == "" && n.exitCode == None && n.runnerVersion == "")
        && (!originalQueued ==> |plan| == 2 && n.status == Completed && SameSandbox(stopping, n) && Quiet(n))
        && NoJob(n) && Blameless(n) && forall i :: 0 <= i < |plan| ==> NoJob(plan[i].next)
      else if stopping.reason == JitCleanupPending then
        if stopping.workflowJobId == 0 then |plan| == 1 && n.status == Status.Failed && n.stage == Registration && n.reason == JitCleanupPending && Quiet(n)
        else if originalQueued then |plan| == 1 && n.status == Queued && NoSandbox(n) && Blameless(n) && Quiet(n) && n.leaseOwner == ""
        else |plan| == 1 && n.status == Completed && Blameless(n) && Quiet(n) && SameSandbox(stopping, n)
      else
        && |plan| == 1 && Quiet(n) && SameSandbox(stopping, n) && SameJob(stopping, n) && SameEnding(stopping, n)
        && (if stopping.stage == NoStage || stopping.stage == Cleanup then n.status == Completed && Blameless(n)
            else n.status == Status.Failed && SameBlame(stopping, n))
  {
  }

  /** A stop that finds the request completed only adds its job, if that is news; a result that is news is stored with it. */
  lemma LateStopAddsItsJob(max: int, st: Record, job: Job, changed: bool, source: string, stop: StopResult, cleanup: CleanupResult, q: bool)
    requires st.status == Completed && (job.id == 0 || st.assignedJobId in {0, job.id}) && st.assignedJobName != JOB_STARTED
    ensures var plan := StopRunner(max, st, job, changed, source, stop, cleanup, q);
      && (plan != [] <==> changed || (job.id != 0 && (st.assignedJobId, st.assignedJobName) != (job.id, job.name)))
      && (plan != [] ==>
            && |plan| == 1 && plan[0].next.(assignedJobId := 0, assignedJobName := "") == st.(assignedJobId := 0, assignedJobName := "")
            && (if job.id == 0 then SameJob(st, plan[0].next) else (plan[0].next.assignedJobId, plan[0].next.assignedJobName) == (job.id, job.name)))
  {
    hide TrimSpace;
  }

  /** A stop that cannot finish is tried again while that is granted, and then fails the request under its own stage. */
  lemma UnfinishedStopDecides(max: int, stopping: Record, job: Job, stop: StopResult, cleanup: CleanupResult, originalQueued: bool)
    requires Lingers(stopping, stop) || cleanup.CleanupError?
    ensures var plan := StopEnd(max, stopping, job, stop, cleanup, originalQueued);
      && |plan| == 1 && SameSandbox(stopping, plan[0].next) && SameJob(stopping, plan[0].next)
      && var n := plan[0].next;
      if Lingers(stopping, stop) then
        if stop.error.retryable && stopping.retryCount < max then n.status == Stopping && n.retryScheduled && n.stage == StopStage
        else n.status == Status.Failed && (n.stage, n.reason) == (StopStage, StopFailed)
      else
        if CleanupGranted(max, stopping, cleanup) then
          n.status == Stopping && n.retryScheduled && n.stage == (if stopping.stage == NoStage then Cleanup else stopping.stage)
        else n.status == Status.Failed && (n.stage, n.reason) == (Cleanup, CleanupFailed)
  {
  }

  /** A forced stop is carried out exactly on a request that is not over and, if a version is expected, still at it. */
  lemma ForcedStopDecides(max: int, st: Record, expected: nat, stage: Stage, reason: Reason, stop: StopResult, cleanup: CleanupResult)
    ensures var plan := FailAndStop(max, st, expected, stage, reason, stop, cleanup);
      && (plan != [] <==> st.status !in {Completed, Status.Failed} && (expected == 0 || st.version == expected))
      && (plan != [] ==> |plan| == 2 && Forced(max, st, stage, reason, stop, cleanup, plan[0].next, plan[1].next))
  {
  }

  predicate Forced(max: int, st: Record, stage: Stage, reason: Reason, stop: StopResult, cleanup: CleanupResult, first: Record, last: Record) {
    && first.status == Stopping && (first.stage, first.reason) == (stage, reason) && SameSandbox(st, first) && SameJob(st, first)
    && first.terminationSource == (if st.terminationSource == "" then "failure_cleanup" else st.terminationSource)
    && SameSandbox(st, last) && SameJob(st, last) && SameEnding(first, last)
    && (if Lingers(st, stop) then last.status == Status.Failed && (last.stage, last.reason) == (StopStage, StopFailed)
        else if CleanupGranted(max, st, cleanup) then
          last.status == Stopping && last.retryScheduled && last.stage == (if stage == NoStage then Cleanup else stage)
        else
          && last.status == Status.Failed && last.leaseOwner == ""
          && (last.stage, last.reason) == if cleanup.CleanupError? then (Cleanup, CleanupFailed) else (stage, reason))
  }

  /** A registration that is left over is kept for cleanup, unless the request is under way again. */
  lemma RetainsExactlyWhen(st: Record)
    ensures var plan := RetainJitCleanup(st);
      && (plan != [] <==> st.status != Creating && !(st.status == Running && st.sandboxId != ""))
      && (plan != [] ==> |plan| == 1 && LeftOver(st, plan[0].next))
  {
  }

  predicate LeftOver(st: Record, n: Record) {
    && n.status == Stopping && (n.stage, n.reason) == (Cleanup, JitCleanupPending) && n.retryScheduled && n.leaseOwner == ""
    && SameSandbox(st, n) && SameJob(st, n) && n.terminationSource == (if st.terminationSource == "" then "failure_cleanup" else st.terminationSource)
  }

  // ------------------------------------------------------ recovery and repair

  /** Recovery frees a queued request's lease, reconnects a runner that is still up, and requeues an interrupted start. */
  lemma RecoveryActsExactlyWhen(st: Record, expected: nat, sandboxId: string, pid: nat, jitCleanupFailed: bool)
    ensures var plan := RecoverQueued(st);
      && (plan != [] <==> st.status == Queued)
      && (plan != [] ==> |plan| == 1 && plan[0].next.leaseOwner == "" && SameButLease(plan[0].next, st))
    ensures var plan := Reconnect(st, expected, sandboxId, pid);
      && (plan != [] <==> st.version == expected && Up(st))
      && (plan != [] ==>
            && |plan| == 1 && plan[0].next.status == Running && (plan[0].next.sandboxId, plan[0].next.pid) == (sandboxId, pid)
            && Blameless(plan[0].next) && plan[0].next.lastError == NoError && !plan[0].next.lastErrorRetryable
            && plan[0].next.leaseOwner == "" && SameJob(st, plan[0].next) && SameEnding(st, plan[0].next))
    ensures var plan := RequeueInterrupted(st, expected, jitCleanupFailed);
      && (plan != [] <==> st.version == expected && st.status == Creating)
      && (plan != [] ==>
            && |plan| == 1
            && (if jitCleanupFailed then LeftOver(st, plan[0].next)
                else
                  && plan[0].next.status == Queued && NoSandbox(plan[0].next) && plan[0].next.leaseOwner == ""
                  && Blameless(plan[0].next) && Quiet(plan[0].next) && SameJob(st, plan[0].next) && plan[0].next.runnerVersion == ""))
  {
  }

  /** A delivery wakes exactly the request that waits for that job, and only makes it due. */
  lemma WakesExactlyWhen(st: Record, jobId: int)
    ensures var plan := WakeWaiting(st, jobId);
      && (plan != [] <==>
            && jobId != 0 && st.workflowJobId == jobId && st.status == Queued && st.lastError == LastError.JobWait(WaitingJob)
            && st.leaseOwner == "" && NoSandbox(st) && st.retryScheduled)
      && (plan != [] ==> |plan| == 1 && !plan[0].next.retryScheduled && plan[0].next.(retryScheduled := true) == st)
  {
  }

  /**
   The repairs: a completed request that never ran is queued afresh, a completed one whose runner took another job gives
   that job up, and is queued again while its own still waits, and a request that only its recovery or cleanup failed is completed with its job.
   */
  lemma RepairsActExactlyWhen(st: Record, evidence: bool, workflowJobId: int, assignedJobId: int, queued: bool, expected: nat)
    ensures var plan := RetryHistorical(st, evidence);
      && (plan != [] <==>
            st.status == Completed && st.workflowJobId != 0 && NoSandbox(st) && st.terminationSource == "" && st.exitCode.None? && evidence)
      && (plan != [] ==>
            && |plan| == 1 && plan[0].next.status == Queued && plan[0].next.retryCount == 0 && plan[0].budget == Reset
            && Blameless(plan[0].next) && Quiet(plan[0].next) && NoJob(plan[0].next) && NoSandbox(plan[0].next) && plan[0].next.leaseOwner == ""
            && plan[0].next.runnerVersion == "")
    ensures var plan := ReconcileMismatched(st, workflowJobId, assignedJobId, queued);
      && (plan != [] <==>
            && st.status == Completed && workflowJobId != 0 && assignedJobId != 0 && workflowJobId != assignedJobId
            && st.workflowJobId == workflowJobId && st.assignedJobId == assignedJobId)
      && (plan != [] ==>
            && |plan| == 1 && NoJob(plan[0].next)
            && (if queued then
                  && plan[0].next.status == Queued && NoSandbox(plan[0].next) && Blameless(plan[0].next) && Quiet(plan[0].next)
                  && plan[0].next.terminationSource == "" && plan[0].next.exitCode == None && plan[0].next.leaseOwner == ""
                  && plan[0].next.runnerVersion == ""
                else plan[0].next.status == Completed && SameSandbox(st, plan[0].next) && SameBlame(st, plan[0].next) && SameEnding(st, plan[0].next)))
    ensures var plan := CompleteIfJobCompleted(st, expected, workflowJobId);
      && (plan != [] <==>
            && st.version == expected && workflowJobId != 0 && st.workflowJobId == workflowJobId && st.status == Status.Failed
            && st.stage in {Recovery, Cleanup})
      && (plan != [] ==>
            && |plan| == 1 && plan[0].next.status == Completed && Blameless(plan[0].next) && Quiet(plan[0].next) && NoJob(plan[0].next)
            && SameSandbox(st, plan[0].next) && SameEnding(st, plan[0].next))
  {
  }
}
