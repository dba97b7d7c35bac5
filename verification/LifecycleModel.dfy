/**
 The record of one runner request and the writes each lifecycle operation makes to it.

 Every operation reads the record, edits its own copy and writes it back, once or several
 times, each write succeeding only while the stored version is the one it read or last wrote.
 `Plan` gives the writes of an operation in order, from the copy it read and from what GitHub
 and the sandbox service answered it.
 */
module LifecycleModel {
  import opened Basics
  import opened Text

  datatype Status = Queued | Creating | Running | Stopping | Completed | Failed

  /** Where a failure was recorded; `NoStage` is the empty string. */
  datatype Stage =
    | NoStage | Admission | ProfileLookup | ProfileValidation | JobStatus | RunnerGroup | SandboxConfig
    | TemplateResolution | RunnerDownloads | Registration | SandboxStart | RunnerUrl
    | CreateTimeout | SandboxTimeout | Recovery | RunnerExit | StopStage | Cleanup

  /** How an error was classified. */
  datatype Code =
    | SandboxCapacity | RateLimited | SecondaryRateLimit
    | RunnerBusy | ExitedWithoutJob | Timeout | RetryableStatus | ServerError | NetworkError
    | Permanent(text: string)

  datatype Reason =
    | NoReason | Classified(code: Code) | ProcessError | ExitedWith(exit: int) | Forced(name: string)
    | StopFailed | CleanupFailed | JitCleanupPending | Rejected | JobLookup(lookup: JobWait)

  datatype JobWait = WaitingJob | UnknownStatus | Unavailable | LookupRateLimited

  datatype LastError = NoError | Failure(code: Code) | JobWait(wait: JobWait) | Capacity(dimension: string) | ExitBusy

  datatype Record = Record(
    version: nat,
    status: Status,
    sandboxId: string,
    pid: nat,
    retryCount: int,
    stage: Stage,
    reason: Reason,
    lastError: LastError,
    lastErrorRetryable: bool,
    retryScheduled: bool,
    leaseOwner: string,
    workflowJobId: int,
    assignedJobId: int,
    assignedJobName: string,
    runnerName: string,
    terminationSource: string,
    exitCode: Option<int>,
    runnerVersion: string,
    lastAttempt: nat)

  datatype Job = Job(id: int, name: string, runnerName: string)

  const NO_JOB := Job(0, "", "")
  const JOB_STARTED := "__runner_job_started__"

  datatype Error = Error(code: Code, retryable: bool, busyCleanup: bool)

  /** What stopping a sandbox answered; `Stopped` includes a sandbox already gone. */
  datatype StopResult = Stopped | StopError(error: Error)

  datatype CleanupResult = Deregistered | CleanupError(error: Error)

  datatype Busy = Idle | BusyNow | BusyUnknown

  /** `JobWaiting` is a recognized status that is neither queued nor completed. */
  datatype Lookup = LookupError(rateLimited: bool) | JobQueued | JobCompleted(job: Job) | JobWaiting | JobUnrecognized

  datatype Identity = Identity(sandboxId: string, pid: nat)

  datatype Exit = Exit(error: bool, code: int, version: string)

  /** What a write means for the retry budget. */
  datatype Budget = Plain | Deferred | Budgeted | Reset

  datatype Write = Write(next: Record, budget: Budget)

  // ------------------------------------------------------- failure and retry

  predicate Defers(code: Code) {
    code in {SandboxCapacity, RateLimited, SecondaryRateLimit}
  }

  function Saturated(max: int, count: int): int {
    if count < max then count + 1 else count
  }

  function ApplyFailure(max: int, st: Record, stage: Stage, e: Error): Write {
    var failed := st.(stage := stage, reason := Classified(e.code), lastError := Failure(e.code),
                      lastErrorRetryable := e.retryable, leaseOwner := "", sandboxId := "", pid := 0);
    if e.retryable && Defers(e.code) then
      Write(failed.(status := Queued, runnerVersion := "", retryCount := Saturated(max, st.retryCount), retryScheduled := true), Deferred)
    else if e.retryable && st.retryCount < max then
      Write(failed.(status := Queued, runnerVersion := "", retryCount := st.retryCount + 1, retryScheduled := true), Budgeted)
    else
      Write(failed.(status := Status.Failed, retryScheduled := false), Plain)
  }

  function ScheduleStopRetry(max: int, st: Record, e: Error): Option<Write> {
    if !e.retryable || st.retryCount >= max then None
    else
      Some(Write(st.(retryCount := st.retryCount + 1, status := Stopping, stage := StopStage, reason := Classified(e.code),
                     lastError := Failure(e.code), lastErrorRetryable := true, retryScheduled := true), Budgeted))
  }

  function ScheduleCleanupRetry(max: int, st: Record, e: Error): Option<Write> {
    if !e.retryable || (!e.busyCleanup && st.retryCount >= max) then None
    else
      var kept := if st.stage == NoStage then st.(stage := Cleanup, reason := Classified(e.code)) else st;
      Some(Write(kept.(retryCount := Saturated(max, st.retryCount), status := Stopping,
                       lastError := Failure(e.code), lastErrorRetryable := true, retryScheduled := true),
                 if e.busyCleanup then Deferred else Budgeted))
  }

  function NoLastError(st: Record): Record {
    st.(lastError := NoError, lastErrorRetryable := false, retryScheduled := false)
  }

  function NoFailure(st: Record): Record { st.(stage := NoStage, reason := NoReason) }

  function Unassigned(st: Record): Record { st.(assignedJobId := 0, assignedJobName := "") }

  function Sourced(st: Record, source: string): Record {
    if st.terminationSource != "" then st else st.(terminationSource := source)
  }

  // ---------------------------------------------------------------- starting

  /** The stamp of a Windows attempt begun at `now`: later than every attempt before it. */
  function AttemptAt(st: Record, now: nat): nat {
    if now > st.lastAttempt then now else st.lastAttempt + 1
  }

  /** `windows` is the time of a Windows start, which stamps its attempt. */
  function BeginCreating(st: Record, worker: string, windows: Option<nat>): seq<Write> {
    if st.status != Queued then []
    else
      var cleared := if st.lastError.Capacity? then NoLastError(st) else st;
      var stamped := if windows.Some? then cleared.(lastAttempt := AttemptAt(st, windows.value)) else cleared;
      [Write(stamped.(status := Creating, leaseOwner := worker), Plain)]
  }

  function CompleteWithoutSandbox(st: Record, job: Job): seq<Write> {
    if st.status in {Completed, Stopping, Running} then []
    else [Write(NoFailure(Assigned(st, job)).(status := Completed, leaseOwner := "", retryScheduled := false), Plain)]
  }

  /** The job-status check of a creating request, after its lookup returned. */
  function EnsureStillQueued(max: int, st: Record, worker: string, sameAttempt: bool, stale: bool, lookup: Lookup): seq<Write> {
    if st.status != Creating || st.leaseOwner != worker || st.sandboxId != "" || st.pid != 0 || !sameAttempt then []
    else if !stale && lookup.JobQueued? then
      if st.lastError.JobWait? then [Write(NoLastError(NoFailure(st)), Plain)] else []
    else if !stale && lookup.JobCompleted? then CompleteWithoutSandbox(st, lookup.job)
    else
      var known := stale || lookup.JobWaiting?;
      var rateLimited := !known && lookup.LookupError? && lookup.rateLimited;
      var wait :=
        if known then WaitingJob
        else if rateLimited then LookupRateLimited
        else if lookup.LookupError? then Unavailable
        else UnknownStatus;
      var queued := NoFailure(st).(leaseOwner := "", status := Queued, lastError := JobWait(wait), lastErrorRetryable := true);
      if known then [Write(queued.(retryScheduled := true), Plain)]
      else if !rateLimited && st.retryCount >= max then
        [Write(queued.(status := Status.Failed, stage := JobStatus, reason := JobLookup(wait), retryScheduled := false), Plain)]
      else
        [Write(queued.(retryCount := Saturated(max, st.retryCount), retryScheduled := true),
               if rateLimited then Deferred else Budgeted)]
  }

  /** A Windows start carries its attempt's stamp and touches only a creating record with that stamp. */
  predicate AnotherAttempt(st: Record, attempt: Option<nat>) {
    attempt.Some? && (st.lastAttempt != attempt.value || st.status != Creating)
  }

  function Adopt(st: Record, sandboxId: string, pid: nat, attempt: Option<nat>): seq<Write> {
    if st.status != Creating || AnotherAttempt(st, attempt) then []
    else [Write(st.(status := Running, sandboxId := sandboxId, pid := pid, leaseOwner := ""), Plain)]
  }

  function FailStart(max: int, st: Record, stage: Stage, e: Error, attempt: Option<nat>): seq<Write> {
    if AnotherAttempt(st, attempt) || st.status in {Completed, Stopping} then [] else [ApplyFailure(max, st, stage, e)]
  }

  function RetryOrFail(max: int, st: Record, stage: Stage, e: Error): seq<Write> {
    if st.status in {Completed, Status.Failed} then [] else [ApplyFailure(max, st, stage, e)]
  }

  function DeferQueued(st: Record, worker: string, dimension: string): seq<Write> {
    if st.status != Queued || st.leaseOwner != worker then []
    else [Write(st.(lastError := Capacity(dimension), lastErrorRetryable := true, leaseOwner := "", retryScheduled := true), Plain)]
  }

  function DeferCreating(st: Record, worker: string): seq<Write> {
    if st.status != Creating || st.leaseOwner != worker || st.sandboxId != "" then []
    else [Write(st.(status := Queued, leaseOwner := "", retryScheduled := true, runnerVersion := ""), Plain)]
  }

  // -------------------------------------------------------------- assignment

  predicate ShouldRecord(st: Record, job: Job) {
    job.id != 0 && (st.assignedJobId != job.id || st.assignedJobName != job.name)
  }

  predicate Mismatch(st: Record, job: Job) {
    st.workflowJobId != 0 && job.id != 0 && st.workflowJobId != job.id
  }

  predicate StopConflicts(st: Record, job: Job) {
    && job.id != 0
    && !(TrimSpace(job.runnerName) != "" && TrimSpace(job.runnerName) == TrimSpace(st.runnerName))
    && (if st.assignedJobId != 0 then st.assignedJobId != job.id
        else st.assignedJobName == JOB_STARTED && st.workflowJobId == job.id)
  }

  function Assigned(st: Record, job: Job): Record {
    if ShouldRecord(st, job) then st.(assignedJobId := job.id, assignedJobName := job.name) else st
  }

  function MarkInProgress(st: Record, job: Job): seq<Write> {
    if st.status in {Completed, Stopping} || !ShouldRecord(st, job) then [] else [Write(Assigned(st, job), Plain)]
  }

  function MarkJobStarted(st: Record): seq<Write> {
    if st.assignedJobId != 0 || st.assignedJobName == JOB_STARTED || st.status in {Completed, Stopping} then []
    else [Write(st.(assignedJobName := JOB_STARTED), Plain)]
  }

  // ------------------------------------------------------------ runner exits

  predicate Specified(a: Identity) { !Blank(a.sandboxId) || a.pid != 0 }

  predicate Matches(a: Identity, st: Record) {
    !Blank(a.sandboxId) && a.pid != 0 && a.sandboxId == st.sandboxId && a.pid == st.pid
  }

  predicate NeedsBusyCheck(exit: Exit) { exit.error || exit.code != 0 }

  function Versioned(st: Record, exit: Exit): Record {
    if st.runnerVersion == "" then st.(runnerVersion := exit.version) else st
  }

  function LateEvidence(st: Record, a: Identity, exit: Exit): seq<Write> {
    if !Matches(a, st) || st.status !in {Stopping, Completed, Status.Failed} then []
    else
      var versioned := Versioned(st, exit);
      if exit.error || st.exitCode.Some? then if versioned == st then [] else [Write(versioned, Plain)]
      else [Write(versioned.(exitCode := Some(exit.code)), Plain)]
  }

  /** A runner that ended before it accepted any job is requeued within the retry budget. */
  function RetryWithoutJob(max: int, st: Record): Write {
    if st.workflowJobId == 0 || st.assignedJobId != 0 || st.assignedJobName != "" then Write(st, Plain)
    else
      var w := ApplyFailure(max, st, RunnerExit, Error(ExitedWithoutJob, true, false));
      if w.next.status == Queued then w.(next := w.next.(terminationSource := "", exitCode := None)) else w
  }

  /** The copy whose cleanup starts: it names the failure, if the runner failed. */
  function Exited(st: Record, exit: Exit): Record {
    var sourced := Sourced(st, "process_exit");
    if exit.error then sourced.(stage := RunnerExit, reason := ProcessError)
    else if exit.code != 0 then sourced.(exitCode := Some(exit.code), stage := RunnerExit, reason := ExitedWith(exit.code))
    else sourced.(exitCode := Some(0))
  }

  function ExitEnd(max: int, stopping: Record, exit: Exit, stop: StopResult, cleanup: CleanupResult): Write {
    var sandboxFailed := stopping.sandboxId != "" && stop.StopError?;
    var failed := sandboxFailed || NeedsBusyCheck(exit);
    var ended := stopping.(status := if failed then Status.Failed else Completed);
    var retry := if cleanup.CleanupError? then ScheduleCleanupRetry(max, ended, cleanup.error) else None;
    if retry.Some? then retry.value
    else if exit.error then
      if sandboxFailed || cleanup.CleanupError? then Write(ended, Plain) else RetryWithoutJob(max, ended)
    else
      var cleaned := if cleanup.CleanupError? then ended.(status := Status.Failed, stage := Cleanup, reason := CleanupFailed) else ended;
      if cleaned.status == Completed || (!sandboxFailed && cleaned.stage == RunnerExit) then RetryWithoutJob(max, cleaned)
      else Write(cleaned, Plain)
  }

  function ExitTail(max: int, st: Record, exit: Exit, stop: StopResult, cleanup: CleanupResult): seq<Write> {
    var stopping := Exited(st, exit).(status := Stopping);
    [Write(stopping, Plain), ExitEnd(max, stopping, exit, stop, cleanup)]
  }

  /** The exit callback up to the point where it lets go of the lock to ask GitHub. */
  function ExitFirst(max: int, st: Record, a: Identity, exit: Exit, stop: StopResult, cleanup: CleanupResult): seq<Write> {
    if Specified(a) && !Matches(a, st) then []
    else if st.status !in {Creating, Running} then LateEvidence(st, a, exit)
    else if NeedsBusyCheck(exit) then []
    else ExitTail(max, Versioned(st, exit), exit, stop, cleanup)
  }

  /** The exit callback after the busy check, on a fresh copy. */
  function ExitChecked(max: int, st: Record, a: Identity, exit: Exit, busy: Busy, stop: StopResult, cleanup: CleanupResult): seq<Write> {
    if !Matches(a, st) then []
    else if st.status !in {Creating, Running} then LateEvidence(st, a, exit)
    else
      var versioned := Versioned(st, exit);
      if busy.BusyNow? then
        [Write(versioned.(status := Running, lastError := ExitBusy, lastErrorRetryable := true,
                          assignedJobName := if st.assignedJobName == "" then JOB_STARTED else st.assignedJobName), Plain)]
      else ExitTail(max, versioned, exit, stop, cleanup)
  }

  /** The exit callback after its busy write met a newer version, on a fresh copy. */
  function ExitConflicted(max: int, st: Record, a: Identity, exit: Exit, stop: StopResult, cleanup: CleanupResult): seq<Write> {
    if !Matches(a, st) || st.status !in {Creating, Running} then [] else ExitTail(max, st, exit, stop, cleanup)
  }

  // ---------------------------------------------------------------- stopping

  function Requeued(st: Record): Record {
    NoLastError(NoFailure(Unassigned(st))).(status := Queued, sandboxId := "", pid := 0, terminationSource := "",
                                            exitCode := None, leaseOwner := "", runnerVersion := "")
  }

  function RequeueMismatched(st: Record, queued: bool): Write {
    Write(if queued then Requeued(st) else Unassigned(st), Plain)
  }

  /** How a stop ends once the sandbox is stopped and the runner deregistered. */
  function Verdict(st: Record): Record {
    NoLastError(if st.stage in {NoStage, Cleanup} then NoFailure(st).(status := Completed) else st.(status := Status.Failed))
  }

  function StopCleaned(stopping: Record, job: Job, originalQueued: bool): seq<Write> {
    if Mismatch(stopping, job) then
      var requeue := RequeueMismatched(stopping, originalQueued);
      if originalQueued then [requeue]
      else [requeue, Write(NoLastError(NoFailure(requeue.next)).(status := Completed), Plain)]
    else if stopping.reason == JitCleanupPending then
      if stopping.workflowJobId == 0 then
        [Write(NoLastError(stopping).(status := Status.Failed, stage := Registration), Plain)]
      else if originalQueued then
        [Write(NoLastError(NoFailure(stopping)).(status := Queued, sandboxId := "", pid := 0, leaseOwner := ""), Plain)]
      else [Write(Verdict(NoFailure(stopping)), Plain)]
    else [Write(Verdict(stopping), Plain)]
  }

  function StopEnd(max: int, stopping: Record, job: Job, stop: StopResult, cleanup: CleanupResult, originalQueued: bool): seq<Write> {
    if stopping.sandboxId != "" && stop.StopError? then
      var retry := ScheduleStopRetry(max, stopping, stop.error);
      [if retry.Some? then retry.value else Write(stopping.(status := Status.Failed, stage := StopStage, reason := StopFailed), Plain)]
    else if cleanup.CleanupError? then
      var retry := ScheduleCleanupRetry(max, stopping, cleanup.error);
      [if retry.Some? then retry.value else Write(stopping.(status := Status.Failed, stage := Cleanup, reason := CleanupFailed), Plain)]
    else StopCleaned(stopping, job, originalQueued)
  }

  function StopRunner(max: int, st: Record, job: Job, resultChanged: bool, source: string,
                      stop: StopResult, cleanup: CleanupResult, originalQueued: bool): seq<Write> {
    if StopConflicts(st, job) then if resultChanged then [Write(st, Plain)] else []
    else if st.status == Completed then
      if resultChanged || ShouldRecord(st, job) then [Write(Assigned(st, job), Plain)] else []
    else
      var stopping := Sourced(Assigned(st, job), source).(status := Stopping);
      [Write(stopping, Plain)] + StopEnd(max, stopping, job, stop, cleanup, originalQueued)
  }

  function FailAndStopEnd(max: int, stopping: Record, stop: StopResult, cleanup: CleanupResult): Write {
    if stopping.sandboxId != "" && stop.StopError? then
      Write(stopping.(status := Status.Failed, stage := StopStage, reason := StopFailed), Plain)
    else
      var retry := if cleanup.CleanupError? then ScheduleCleanupRetry(max, stopping, cleanup.error) else None;
      if retry.Some? then retry.value
      else
        var ended := if cleanup.CleanupError? then stopping.(stage := Cleanup, reason := CleanupFailed) else stopping;
        Write(ended.(status := Status.Failed, leaseOwner := ""), Plain)
  }

  /** `expected` is the version the caller saw, or 0 for any. */
  function FailAndStop(max: int, st: Record, expected: nat, stage: Stage, reason: Reason,
                       stop: StopResult, cleanup: CleanupResult): seq<Write> {
    if (expected != 0 && st.version != expected) || st.status in {Completed, Status.Failed} then []
    else
      var stopping := Sourced(st, "failure_cleanup").(status := Stopping, stage := stage, reason := reason);
      [Write(stopping, Plain), FailAndStopEnd(max, stopping, stop, cleanup)]
  }

  function JitPending(st: Record): Write {
    Write(Sourced(st, "failure_cleanup").(status := Stopping, stage := Cleanup, reason := JitCleanupPending,
                                          leaseOwner := "", retryScheduled := true), Plain)
  }

  function RetainJitCleanup(st: Record): seq<Write> {
    if st.status == Creating || (st.status == Running && st.sandboxId != "") then [] else [JitPending(st)]
  }

  // -------------------------------------------------- recovery and reconcile

  function RecoverQueued(st: Record): seq<Write> {
    if st.status != Queued then [] else [Write(st.(leaseOwner := ""), Plain)]
  }

  function Reconnect(st: Record, expected: nat, sandboxId: string, pid: nat): seq<Write> {
    if st.version != expected || st.status !in {Creating, Running} then []
    else
      [Write(NoFailure(st).(status := Running, sandboxId := sandboxId, pid := pid, leaseOwner := "",
                            lastError := NoError, lastErrorRetryable := false), Plain)]
  }

  function RequeueInterrupted(st: Record, expected: nat, jitCleanupFailed: bool): seq<Write> {
    if st.version != expected || st.status != Creating then []
    else if jitCleanupFailed then [JitPending(st)]
    else
      [Write(NoLastError(NoFailure(st)).(status := Queued, sandboxId := "", pid := 0, leaseOwner := "", runnerVersion := ""), Plain)]
  }

  function WakeWaiting(st: Record, jobId: int): seq<Write> {
    if jobId == 0 || st.status != Queued || st.lastError != JobWait(WaitingJob) || st.leaseOwner != "" || st.sandboxId != ""
       || st.pid != 0 || st.workflowJobId != jobId || !st.retryScheduled then []
    else [Write(st.(retryScheduled := false), Plain)]
  }

  /** An administrator's repair of a request that an older version wrongly completed. */
  function RetryHistorical(st: Record, evidence: bool): seq<Write> {
    if st.status != Completed || st.workflowJobId == 0 || st.sandboxId != "" || st.pid != 0
       || st.terminationSource != "" || st.exitCode.Some? || !evidence then []
    else
      [Write(NoLastError(NoFailure(Unassigned(st))).(status := Queued, leaseOwner := "", retryCount := 0, runnerVersion := ""), Reset)]
  }

  function ReconcileMismatched(st: Record, workflowJobId: int, assignedJobId: int, queued: bool): seq<Write> {
    if st.status != Completed || workflowJobId == 0 || assignedJobId == 0 || workflowJobId == assignedJobId
       || st.workflowJobId != workflowJobId || st.assignedJobId != assignedJobId then []
    else [RequeueMismatched(st, queued)]
  }

  function CompleteIfJobCompleted(st: Record, expected: nat, workflowJobId: int): seq<Write> {
    if st.version != expected || workflowJobId == 0 || st.workflowJobId != workflowJobId || st.status != Status.Failed
       || st.stage !in {Recovery, Cleanup} then []
    else [Write(NoLastError(NoFailure(Unassigned(st))).(status := Completed, leaseOwner := ""), Plain)]
  }

  // --------------------------------------------------------------- operations

  datatype Op =
    | OpBeginCreating(worker: string, windows: Option<nat>)
    | OpEnsureStillQueued(worker: string, sameAttempt: bool, stale: bool, lookup: Lookup)
    | OpAdopt(sandboxId: string, pid: nat, attempt: Option<nat>)
    | OpFailStart(stage: Stage, error: Error, attempt: Option<nat>)
    | OpRetryOrFail(stage: Stage, error: Error)
    | OpDeferQueued(worker: string, dimension: string)
    | OpDeferCreating(worker: string)
    | OpMarkInProgress(job: Job)
    | OpMarkJobStarted
    | OpExitFirst(a: Identity, exit: Exit, stop: StopResult, cleanup: CleanupResult)
    | OpExitChecked(a: Identity, exit: Exit, busy: Busy, stop: StopResult, cleanup: CleanupResult)
    | OpExitConflicted(a: Identity, exit: Exit, stop: StopResult, cleanup: CleanupResult)
    | OpStop(job: Job, resultChanged: bool, source: string, stop: StopResult, cleanup: CleanupResult, originalQueued: bool)
    | OpFailAndStop(expected: nat, stage: Stage, reason: Reason, stop: StopResult, cleanup: CleanupResult)
    | OpRetainJitCleanup
    | OpRecoverQueued
    | OpReconnect(expected: nat, sandboxId: string, pid: nat)
    | OpRequeueInterrupted(expected: nat, jitCleanupFailed: bool)
    | OpWakeWaiting(jobId: int)
    | OpRetryHistorical(evidence: bool)
    | OpReconcileMismatched(workflowJobId: int, assignedJobId: int, queued: bool)
    | OpCompleteIfJobCompleted(expected: nat, workflowJobId: int)
    | OpTouch

  predicate IsExit(op: Op) { op.OpExitFirst? || op.OpExitChecked? || op.OpExitConflicted? }

  function Plan(max: int, op: Op, st: Record): seq<Write> {
    match op
    case OpBeginCreating(worker, windows) => BeginCreating(st, worker, windows)
    case OpEnsureStillQueued(worker, sameAttempt, stale, lookup) => EnsureStillQueued(max, st, worker, sameAttempt, stale, lookup)
    case OpAdopt(sandboxId, pid, attempt) => Adopt(st, sandboxId, pid, attempt)
    case OpFailStart(stage, e, attempt) => FailStart(max, st, stage, e, attempt)
    case OpRetryOrFail(stage, e) => RetryOrFail(max, st, stage, e)
    case OpDeferQueued(worker, dimension) => DeferQueued(st, worker, dimension)
    case OpDeferCreating(worker) => DeferCreating(st, worker)
    case OpMarkInProgress(job) => MarkInProgress(st, job)
    case OpMarkJobStarted => MarkJobStarted(st)
    case OpExitFirst(a, exit, stop, cleanup) => ExitFirst(max, st, a, exit, stop, cleanup)
    case OpExitChecked(a, exit, busy, stop, cleanup) => ExitChecked(max, st, a, exit, busy, stop, cleanup)
    case OpExitConflicted(a, exit, stop, cleanup) => ExitConflicted(max, st, a, exit, stop, cleanup)
    case OpStop(job, changed, source, stop, cleanup, queued) => StopRunner(max, st, job, changed, source, stop, cleanup, queued)
    case OpFailAndStop(expected, stage, reason, stop, cleanup) => FailAndStop(max, st, expected, stage, reason, stop, cleanup)
    case OpRetainJitCleanup => RetainJitCleanup(st)
    case OpRecoverQueued => RecoverQueued(st)
    case OpReconnect(expected, sandboxId, pid) => Reconnect(st, expected, sandboxId, pid)
    case OpRequeueInterrupted(expected, failed) => RequeueInterrupted(st, expected, failed)
    case OpWakeWaiting(jobId) => WakeWaiting(st, jobId)
    case OpRetryHistorical(evidence) => RetryHistorical(st, evidence)
    case OpReconcileMismatched(workflowJobId, assignedJobId, queued) => ReconcileMismatched(st, workflowJobId, assignedJobId, queued)
    case OpCompleteIfJobCompleted(expected, workflowJobId) => CompleteIfJobCompleted(st, expected, workflowJobId)
    case OpTouch => [Write(st, Plain)]
  }
}
