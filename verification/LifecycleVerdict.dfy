/**
 The verdict of a request whose GitHub deregistration had to be retried.

 The runner accepted its own job, stopping its sandbox reports stopped or gone, and no
 one-time registration is left to clean up. A first pass whose deregistration fails leaves the
 request stopping; it is then stopped again, by sweeps with no job or by webhooks with its own,
 until deregistration succeeds.
 */
module LifecycleVerdict {
  import opened Basics
  import opened LifecycleModel
  import opened LifecycleRuns

  datatype Entry =
    | ByExit(exit: Exit)
    | ByStop(job: Job, source: string)
    | ByFailure(stage: Stage, reason: Reason)

  /** The first pass: an exit, a requested stop, or a forced stop. */
  function FirstPass(max: int, st: Record, entry: Entry, cleanup: CleanupResult): seq<Write> {
    match entry
    case ByExit(exit) => ExitTail(max, st, exit, Stopped, cleanup)
    case ByStop(job, source) => StopRunner(max, st, job, false, source, Stopped, cleanup, false)
    case ByFailure(stage, reason) => FailAndStop(max, st, 0, stage, reason, Stopped, cleanup)
  }

  /** A later pass: a sweep's, with no job, or a webhook's, with the request's own. */
  function Again(max: int, st: Record, job: Job, source: string, cleanup: CleanupResult): seq<Write> {
    StopRunner(max, st, job, false, source, Stopped, cleanup, false)
  }

  predicate OwnJob(st: Record, job: Job) { !Mismatch(st, job) && !StopConflicts(st, job) }

  /** A later pass whose deregistration failed. */
  datatype Pass = Pass(job: Job, source: string, error: Error)

  function Last(st: Record, plan: seq<Write>): Record { Before(st, plan, |plan|) }

  /** The pass meets a request that is under way and that the entry may end. */
  predicate Applies(st: Record, entry: Entry) {
    && st.reason != JitCleanupPending
    && (st.assignedJobId != 0 || st.assignedJobName != "")
    && match entry
       case ByExit(_) => st.status == Running
       case ByStop(job, _) => st.status in {Running, Stopping} && OwnJob(st, job)
       case ByFailure(_, reason) => st.status in {Running, Stopping} && reason != JitCleanupPending
  }

  /** Another pass is granted a retry at this count. */
  predicate Granted(max: int, st: Record, e: Error) {
    e.retryable && (e.busyCleanup || st.retryCount < max)
  }

  function Passed(max: int, st: Record, pass: Pass): Record {
    Last(st, Again(max, st, pass.job, pass.source, CleanupError(pass.error)))
  }

  /** The request after failed passes, each of which was granted a retry. */
  function Retried(max: int, st: Record, passes: seq<Pass>): Record
    decreases |passes|
  {
    if passes == [] then st else Retried(max, Passed(max, st, passes[0]), passes[1..])
  }

  predicate AllGranted(max: int, st: Record, passes: seq<Pass>)
    decreases |passes|
  {
    passes == [] ||
    (Granted(max, st, passes[0].error) && OwnJob(st, passes[0].job) && AllGranted(max, Passed(max, st, passes[0]), passes[1..]))
  }

  /** The request is stopping and waits for its next pass. */
  predicate Pending(st: Record) {
    st.status == Stopping && st.reason != JitCleanupPending
  }

  predicate Blames(stage: Stage) { stage !in {NoStage, Cleanup} }

  /** A stop with the request's own job marks it stopping and goes on to its end. */
  lemma StopGoesOn(max: int, st: Record, job: Job, source: string, cleanup: CleanupResult)
    requires st.status != Completed && OwnJob(st, job)
    ensures var stopping := Sourced(Assigned(st, job), source).(status := Stopping);
      && StopRunner(max, st, job, false, source, Stopped, cleanup, false)
         == [Write(stopping, Plain)] + StopEnd(max, stopping, job, Stopped, cleanup, false)
      && !Mismatch(stopping, job) && stopping.stage == st.stage && stopping.reason == st.reason && stopping.retryCount == st.retryCount
  {
    hide StopConflicts, StopEnd;
  }

  lemma CleanEnd(max: int, stopping: Record, job: Job)
    requires !Mismatch(stopping, job) && stopping.reason != JitCleanupPending
    ensures StopEnd(max, stopping, job, Stopped, Deregistered, false) == [Write(Verdict(stopping), Plain)]
  {
  }

  lemma FailedEnd(max: int, stopping: Record, job: Job, e: Error)
    requires Granted(max, stopping, e)
    ensures var w := ScheduleCleanupRetry(max, stopping, e);
      w.Some? && StopEnd(max, stopping, job, Stopped, CleanupError(e), false) == [w.value]
  {
  }

  lemma FailedPassKeepsBlame(max: int, st: Record, pass: Pass)
    requires Pending(st) && Granted(max, st, pass.error) && OwnJob(st, pass.job)
    ensures Pending(Passed(max, st, pass)) && (Blames(Passed(max, st, pass).stage) <==> Blames(st.stage))
  {
    hide StopRunner, StopEnd, OwnJob;
    StopGoesOn(max, st, pass.job, pass.source, CleanupError(pass.error));
    FailedEnd(max, Sourced(Assigned(st, pass.job), pass.source).(status := Stopping), pass.job, pass.error);
  }

  lemma CleanPassGivesVerdict(max: int, st: Record, job: Job, source: string)
    requires Pending(st) && OwnJob(st, job)
    ensures Last(st, Again(max, st, job, source, Deregistered)).status == if Blames(st.stage) then Status.Failed else Completed
  {
    hide StopRunner, StopEnd, OwnJob, Mismatch;
    StopGoesOn(max, st, job, source, Deregistered);
    CleanEnd(max, Sourced(Assigned(st, job), source).(status := Stopping), job);
  }

  lemma {:induction false} RetriesKeepBlame(max: int, st: Record, passes: seq<Pass>)
    requires Pending(st) && AllGranted(max, st, passes)
    ensures Pending(Retried(max, st, passes)) && (Blames(Retried(max, st, passes).stage) <==> Blames(st.stage))
    decreases |passes|
  {
    hide Passed, Granted, OwnJob;
    if passes != [] {
      FailedPassKeepsBlame(max, st, passes[0]);
      RetriesKeepBlame(max, Passed(max, st, passes[0]), passes[1..]);
    }
  }

  /** When the first pass and the retries agree: always for a stop, and otherwise as the stage on record allows. */
  predicate StageAgrees(st: Record, entry: Entry) {
    match entry
    case ByExit(exit) => NeedsBusyCheck(exit) || !Blames(st.stage)
    case ByStop(_, _) => true
    case ByFailure(stage, _) => Blames(stage)
  }

  lemma ExitLeavesBlame(max: int, st: Record, entry: Entry, e: Error)
    requires entry.ByExit? && Applies(st, entry) && Granted(max, st, e)
    ensures var left := Last(st, FirstPass(max, st, entry, CleanupError(e)));
      Pending(left) && (Blames(left.stage) <==> NeedsBusyCheck(entry.exit) || Blames(st.stage))
  {
  }

  /** The stage the first pass leaves on a request it could not deregister decides its later verdict. */
  lemma FirstPassLeavesBlame(max: int, st: Record, entry: Entry, e: Error)
    requires Applies(st, entry) && Granted(max, st, e)
    ensures var left := Last(st, FirstPass(max, st, entry, CleanupError(e)));
      && Pending(left)
      && (Blames(left.stage) <==>
          match entry
          case ByExit(exit) => NeedsBusyCheck(exit) || Blames(st.stage)
          case ByStop(_, _) => Blames(st.stage)
          case ByFailure(stage, _) => Blames(stage))
  {
    hide ExitTail, StopConflicts;
    if entry.ByExit? {
      ExitLeavesBlame(max, st, entry, e);
    }
  }

  lemma ExitVerdict(max: int, st: Record, entry: Entry)
    requires entry.ByExit? && Applies(st, entry)
    ensures Last(st, FirstPass(max, st, entry, Deregistered)).status ==
      if NeedsBusyCheck(entry.exit) then Status.Failed else Completed
  {
  }

  lemma StopVerdict(max: int, st: Record, entry: Entry)
    requires entry.ByStop? && Applies(st, entry)
    ensures Last(st, FirstPass(max, st, entry, Deregistered)).status == if Blames(st.stage) then Status.Failed else Completed
  {
    hide ExitTail, FailAndStop, StopRunner, StopEnd, OwnJob, Mismatch;
    StopGoesOn(max, st, entry.job, entry.source, Deregistered);
    CleanEnd(max, Sourced(Assigned(st, entry.job), entry.source).(status := Stopping), entry.job);
  }

  lemma FirstPassVerdict(max: int, st: Record, entry: Entry)
    requires Applies(st, entry)
    ensures Last(st, FirstPass(max, st, entry, Deregistered)).status ==
      match entry
      case ByExit(exit) => if NeedsBusyCheck(exit) then Status.Failed else Completed
      case ByStop(_, _) => if Blames(st.stage) then Status.Failed else Completed
      case ByFailure(_, _) => Status.Failed
  {
    hide ExitTail, StopRunner, OwnJob;
    if entry.ByExit? {
      ExitVerdict(max, st, entry);
    } else if entry.ByStop? {
      StopVerdict(max, st, entry);
    }
  }

  /**
   Deregistration retries, however many the budget grants, leave the verdict of a first pass
   that deregistered at once exactly when the stage on record agrees with it.
   */
  lemma RetriesKeepVerdictExactlyWhen(max: int, st: Record, entry: Entry, e: Error, passes: seq<Pass>, job: Job, source: string)
    requires Applies(st, entry) && Granted(max, st, e)
    requires AllGranted(max, Last(st, FirstPass(max, st, entry, CleanupError(e))), passes)
    requires OwnJob(Retried(max, Last(st, FirstPass(max, st, entry, CleanupError(e))), passes), job)
    ensures var atOnce := Last(st, FirstPass(max, st, entry, Deregistered)).status;
      var waiting := Retried(max, Last(st, FirstPass(max, st, entry, CleanupError(e))), passes);
      var later := Last(waiting, Again(max, waiting, job, source, Deregistered)).status;
      && later in {Completed, Status.Failed}
      && (atOnce == later <==> StageAgrees(st, entry))
  {
    hide FirstPass, Again, OwnJob, Granted;
    FirstPassVerdict(max, st, entry);
    FirstPassLeavesBlame(max, st, entry, e);
    var left := Last(st, FirstPass(max, st, entry, CleanupError(e)));
    RetriesKeepBlame(max, left, passes);
    CleanPassGivesVerdict(max, Retried(max, left, passes), job, source);
  }

  /** A sweep's pass is always such a pass. */
  lemma NoJobIsOwn(st: Record)
    ensures OwnJob(st, NO_JOB)
  {
  }

  predicate Disagrees(max: int, st: Record, e: Error) {
    var clean := ByExit(Exit(false, 0, ""));
    Applies(st, clean) && Granted(max, st, e) && !StageAgrees(st, clean)
  }

  /**
   A run into the disagreement: a start that failed once and was retried leaves its stage on the
   running record, so a clean exit completes the request, unless deregistration needs a retry.
   */
  lemma StaleStageFailsCleanExit(max: nat, e: Error)
    requires max >= 2 && e.retryable
    ensures exists steps ::
      ValidRun(max, Created(1, "e2b-1", false), steps) && Disagrees(max, After(max, Created(1, "e2b-1", false), steps).record, e)
  {
    hide ValidRun, After, Scripted;
    var start := Created(1, "e2b-1", false);
    var begin, fail := OpBeginCreating("w", None), OpFailStart(SandboxStart, Error(NetworkError, true, false), None);
    var again := [begin] + ([OpAdopt("sandbox", 7, None)] + ([OpMarkJobStarted] + []));
    var creating := start.record.(version := 1, status := Creating, leaseOwner := "w");
    var queued := ApplyFailure(max, creating, SandboxStart, fail.error).next.(version := 2);
    ScriptedStep(max, start.record, begin, [fail] + again);
    ScriptedStep(max, creating, fail, again);
    RestartKeepsStage(max, queued);
    var steps := ScriptIsARun(max, start, [begin] + ([fail] + again), 0);
    assert Disagrees(max, After(max, start, steps).record, e);
  }

  lemma RestartKeepsStage(max: int, queued: Record)
    requires queued.status == Queued && !queued.lastError.Capacity? && queued.assignedJobId == 0 && queued.assignedJobName == ""
    ensures Scripted(max, queued, [OpBeginCreating("w", None)] + ([OpAdopt("sandbox", 7, None)] + ([OpMarkJobStarted] + []))) ==
      Some(queued.(version := queued.version + 3, status := Running, sandboxId := "sandbox", pid := 7, leaseOwner := "",
                   assignedJobName := JOB_STARTED))
  {
    hide Scripted;
    var begin, adopt := OpBeginCreating("w", None), OpAdopt("sandbox", 7, None);
    var creating := queued.(version := queued.version + 1, status := Creating, leaseOwner := "w");
    var running := creating.(version := queued.version + 2, status := Running, sandboxId := "sandbox", pid := 7, leaseOwner := "");
    ScriptedStep(max, queued, begin, [adopt] + ([OpMarkJobStarted] + []));
    ScriptedStep(max, creating, adopt, [OpMarkJobStarted] + []);
    ScriptedStep(max, running, OpMarkJobStarted, []);
    ScriptedEnds(max, running.(version := queued.version + 3, assignedJobName := JOB_STARTED));
  }

  // ------------------------------------------------------------ other verdicts

  /** The check found the creating attempt it was made for. */
  predicate Checks(st: Record, worker: string) {
    st.status == Creating && st.leaseOwner == worker && st.sandboxId == "" && st.pid == 0
  }

  /** The lookup gave no usable answer, and not for a rate limit. */
  predicate Unusable(stale: bool, lookup: Lookup) {
    !stale && (lookup.JobUnrecognized? || (lookup.LookupError? && !lookup.rateLimited))
  }

  /**
   The job-status check lets the start go on, completes the request, fails it or sends it back
   to wait; waiting neither spends nor resets the retry budget.
   */
  lemma JobCheckDecides(max: int, st: Record, worker: string, stale: bool, lookup: Lookup)
    requires Checks(st, worker)
    ensures var next := Last(st, EnsureStillQueued(max, st, worker, true, stale, lookup));
      && (next.status == Creating <==> !stale && lookup.JobQueued?)
      && (next.status == Completed <==> !stale && lookup.JobCompleted?)
      && (next.status == Status.Failed <==> Unusable(stale, lookup) && st.retryCount >= max)
      && (next.status in {Creating, Completed, Status.Failed} || (next.status == Queued && next.retryScheduled && next.leaseOwner == ""))
      && (stale || lookup.JobWaiting? ==> next.retryCount == st.retryCount)
      && (Unusable(stale, lookup) && st.retryCount < max ==> next.retryCount == st.retryCount + 1)
  {
  }

  /** While GitHub reports the runner busy, the end of its output stream stops nothing. */
  lemma BusyRunnerIsKept(max: int, st: Record, a: Identity, exit: Exit, stop: StopResult, cleanup: CleanupResult)
    requires Matches(a, st) && st.status in {Creating, Running}
    ensures var plan := ExitChecked(max, st, a, exit, BusyNow, stop, cleanup);
      && |plan| == 1
      && var next := plan[0].next;
      && next.status == Running && Matches(a, next) && next.retryCount == st.retryCount
      && (next.assignedJobId, next.stage, next.reason) == (st.assignedJobId, st.stage, st.reason)
      && next.assignedJobName == (if st.assignedJobName == "" then JOB_STARTED else st.assignedJobName)
      && next.lastError == ExitBusy && next.lastErrorRetryable && next.retryScheduled == st.retryScheduled
  {
  }

  lemma CleanedExitRetries(max: int, stopping: Record, exit: Exit)
    requires exit.code != 0 || exit.error ==> stopping.stage == RunnerExit
    ensures ExitEnd(max, stopping, exit, Stopped, Deregistered) ==
      RetryWithoutJob(max, stopping.(status := if NeedsBusyCheck(exit) then Status.Failed else Completed))
  {
    hide RetryWithoutJob;
  }

  /** A runner that ended without a job is requeued while the budget lasts and fails after, its sandbox forgotten once stopped. */
  lemma RunnerWithoutJobIsRequeued(max: int, st: Record, exit: Exit)
    requires st.status == Running && st.workflowJobId != 0 && st.assignedJobId == 0 && st.assignedJobName == ""
    ensures var end := Last(st, ExitTail(max, st, exit, Stopped, Deregistered));
      && end.sandboxId == "" && end.pid == 0
      && end.status == (if st.retryCount < max then Queued else Status.Failed)
      && end.retryCount == Saturated(max, st.retryCount)
      && (end.status == Queued ==> end.terminationSource == "" && end.exitCode == None)
  {
    hide ExitEnd, RetryWithoutJob, Saturated;
    var stopping := Exited(st, exit).(status := Stopping);
    CleanedExitRetries(max, stopping, exit);
    WithoutJobEnds(max, stopping.(status := if NeedsBusyCheck(exit) then Status.Failed else Completed));
  }

  lemma WithoutJobEnds(max: int, ended: Record)
    requires ended.workflowJobId != 0 && ended.assignedJobId == 0 && ended.assignedJobName == ""
    ensures var end := RetryWithoutJob(max, ended).next;
      && end.sandboxId == "" && end.pid == 0
      && end.status == (if ended.retryCount < max then Queued else Status.Failed)
      && end.retryCount == Saturated(max, ended.retryCount)
      && (end.status == Queued ==> end.terminationSource == "" && end.exitCode == None)
  {
  }
}
