/**
 Which operation may change which field of a record, write by write, and what that gives in
 every run: a request keeps its job and its runner's name, and names only sandboxes and jobs
 that somebody reported.
 */
module LifecycleFields {
  import opened Basics
  import opened Text
  import opened LifecycleModel
  import opened LifecycleRuns

  /** The sandbox an operation reports, if it reports one. */
  predicate Reports(op: Op, sandboxId: string, pid: nat) {
    (op.OpAdopt? || op.OpReconnect?) && op.sandboxId == sandboxId && op.pid == pid
  }

  /** The job an operation reports: one that GitHub delivered, or completed meanwhile. */
  predicate ReportsJob(op: Op, id: int, name: string) {
    || ((op.OpStop? || op.OpMarkInProgress?) && id != 0 && op.job.id == id && op.job.name == name)
    || (op.OpEnsureStillQueued? && id != 0 && op.lookup.JobCompleted? && op.lookup.job.id == id && op.lookup.job.name == name)
  }

  /** A sandbox is named by the operation that reports it, and forgotten together with its process. */
  predicate SandboxRule(op: Op, b: Record, n: Record) {
    || (n.sandboxId == b.sandboxId && n.pid == b.pid)
    || (n.sandboxId == "" && n.pid == 0)
    || Reports(op, n.sandboxId, n.pid)
  }

  /** An assignment is what the operation reports, a mark that some job started, or cleared by a repair or a mismatch. */
  predicate AssignmentRule(op: Op, b: Record, n: Record) {
    || (n.assignedJobId == b.assignedJobId && n.assignedJobName == b.assignedJobName)
    || ReportsJob(op, n.assignedJobId, n.assignedJobName)
    || (&& n.assignedJobId == b.assignedJobId && n.assignedJobName == "__runner_job_started__"
        && ((op.OpMarkJobStarted? && b.assignedJobId == 0) || (op.OpExitChecked? && op.busy.BusyNow? && b.assignedJobName == "")))
    || (&& n.assignedJobId == 0 && n.assignedJobName == ""
        && (|| (op.OpStop? && op.job.id != 0 && b.workflowJobId != 0 && op.job.id != b.workflowJobId)
            || op.OpRetryHistorical? || op.OpReconcileMismatched? || op.OpCompleteIfJobCompleted?))
  }

  function SourceOf(op: Op): string {
    if op.OpStop? then op.source else if IsExit(op) then "process_exit" else "failure_cleanup"
  }

  /** Whoever ends a runner first is named until the request is queued again; so is its exit code. */
  predicate EndingRule(op: Op, b: Record, n: Record) {
    && (|| n.terminationSource == b.terminationSource
        || (b.terminationSource == "" && n.terminationSource == SourceOf(op) && n.status == Stopping)
        || (n.terminationSource == "" && n.status == Queued))
    && (|| n.exitCode == b.exitCode
        || (IsExit(op) && !op.exit.error && n.exitCode == Some(op.exit.code))
        || (n.exitCode == None && n.status == Queued))
    && (|| n.runnerVersion == b.runnerVersion
        || (IsExit(op) && b.runnerVersion == "" && n.runnerVersion == op.exit.version)
        || (n.runnerVersion == "" && n.status == Queued))
  }

  /** A lease is taken by the start that begins, and given up by others; a Windows attempt is later than any before. */
  predicate LeaseRule(op: Op, b: Record, n: Record) {
    && (n.leaseOwner == b.leaseOwner || n.leaseOwner == "" || (op.OpBeginCreating? && n.leaseOwner == op.worker))
    && (n.lastAttempt == b.lastAttempt || (op.OpBeginCreating? && op.windows.Some? && n.lastAttempt > b.lastAttempt))
  }

  predicate SameIdentity(b: Record, n: Record) { n.workflowJobId == b.workflowJobId && n.runnerName == b.runnerName }

  predicate Rules(op: Op, b: Record, n: Record) {
    SameIdentity(b, n) && SandboxRule(op, b, n) && AssignmentRule(op, b, n) && EndingRule(op, b, n) && LeaseRule(op, b, n)
  }

  ghost predicate AllRules(op: Op, st: Record, plan: seq<Write>) {
    forall i :: 0 <= i < |plan| ==> Rules(op, Before(st, plan, i), plan[i].next)
  }

  lemma RulesCons(op: Op, st: Record, w: Write, rest: seq<Write>)
    requires Rules(op, st, w.next) && AllRules(op, w.next, rest)
    ensures AllRules(op, st, [w] + rest)
  {
    hide Rules;
    var plan := [w] + rest;
    forall i | 0 <= i < |plan| ensures Rules(op, Before(st, plan, i), plan[i].next) {
      if i > 0 {
        assert Before(st, plan, i) == Before(w.next, rest, i - 1);
      }
    }
  }

  lemma FailureRules(max: int, op: Op, st: Record, stage: Stage, e: Error)
    ensures Rules(op, st, ApplyFailure(max, st, stage, e).next)
  {
  }

  lemma StartRules(max: int, op: Op, st: Record)
    requires op.OpBeginCreating? || op.OpAdopt? || op.OpFailStart? || op.OpRetryOrFail? || op.OpDeferQueued? || op.OpDeferCreating?
    ensures AllRules(op, st, Plan(max, op, st))
  {
    hide ApplyFailure;
    if op.OpFailStart? || op.OpRetryOrFail? {
      FailureRules(max, op, st, op.stage, op.error);
    }
  }

  lemma JobCheckRules(max: int, op: Op, st: Record)
    requires op.OpEnsureStillQueued?
    ensures AllRules(op, st, Plan(max, op, st))
  {
    if !op.stale && op.lookup.JobCompleted? {
      hide Reports;
    } else {
      hide Reports, ReportsJob, CompleteWithoutSandbox;
    }
  }

  lemma WithoutJobRules(max: int, op: Op, st: Record)
    ensures Rules(op, st, RetryWithoutJob(max, st).next)
  {
  }

  lemma ExitEndRules(max: int, op: Op, stopping: Record, exit: Exit, stop: StopResult, cleanup: CleanupResult)
    ensures Rules(op, stopping, ExitEnd(max, stopping, exit, stop, cleanup).next)
  {
    hide RetryWithoutJob, Rules;
    var ended := stopping.(status := if (stopping.sandboxId != "" && stop.StopError?) || NeedsBusyCheck(exit) then Status.Failed else Completed);
    var cleaned := ended.(status := Status.Failed, stage := Cleanup, reason := CleanupFailed);
    WithoutJobRules(max, op, ended);
    WithoutJobRules(max, op, cleaned);
    AlikeRules(op, ended, stopping, RetryWithoutJob(max, ended).next);
    AlikeRules(op, cleaned, stopping, RetryWithoutJob(max, cleaned).next);
    KeptRules(op, stopping, ended);
    KeptRules(op, stopping, cleaned);
    if cleanup.CleanupError? {
      CleanupRetryRules(max, op, ended, cleanup.error);
      var w := ScheduleCleanupRetry(max, ended, cleanup.error);
      if w.Some? {
        AlikeRules(op, ended, stopping, w.value.next);
      }
    }
  }

  /** Copies that agree on every field the rules are about. */
  predicate Alike(a: Record, b: Record) {
    && SameIdentity(a, b) && (a.sandboxId, a.pid) == (b.sandboxId, b.pid)
    && (a.assignedJobId, a.assignedJobName) == (b.assignedJobId, b.assignedJobName)
    && (a.terminationSource, a.exitCode, a.runnerVersion) == (b.terminationSource, b.exitCode, b.runnerVersion)
    && (a.leaseOwner, a.lastAttempt) == (b.leaseOwner, b.lastAttempt)
  }

  lemma AlikeRules(op: Op, a: Record, b: Record, n: Record)
    requires Alike(a, b) && Rules(op, a, n)
    ensures Rules(op, b, n)
  {
  }

  lemma KeptRules(op: Op, b: Record, n: Record)
    requires Alike(b, n)
    ensures Rules(op, b, n)
  {
  }

  lemma CleanupRetryRules(max: int, op: Op, st: Record, e: Error)
    ensures var w := ScheduleCleanupRetry(max, st, e); w.Some? ==> Rules(op, st, w.value.next)
  {
  }

  lemma ExitedRules(op: Op, st: Record, versioned: Record)
    requires IsExit(op) && (versioned == st || versioned == Versioned(st, op.exit))
    ensures Rules(op, st, Exited(versioned, op.exit).(status := Stopping))
  {
    hide Exited, Reports, ReportsJob;
    ExitedFields(versioned, op.exit);
  }

  lemma ExitedFields(st: Record, exit: Exit)
    ensures var n := Exited(st, exit);
      && SameIdentity(st, n) && (n.sandboxId, n.pid) == (st.sandboxId, st.pid)
      && (n.assignedJobId, n.assignedJobName) == (st.assignedJobId, st.assignedJobName)
      && (n.terminationSource == if st.terminationSource == "" then "process_exit" else st.terminationSource)
      && (n.exitCode == if exit.error then st.exitCode else Some(exit.code))
      && (n.runnerVersion, n.leaseOwner, n.lastAttempt) == (st.runnerVersion, st.leaseOwner, st.lastAttempt)
  {
  }

  lemma ExitTailRules(max: int, op: Op, st: Record, versioned: Record)
    requires IsExit(op) && (versioned == st || versioned == Versioned(st, op.exit))
    ensures AllRules(op, st, ExitTail(max, versioned, op.exit, op.stop, op.cleanup))
  {
    hide ExitEnd, Exited, Rules;
    var stopping := Exited(versioned, op.exit).(status := Stopping);
    ExitedRules(op, st, versioned);
    ExitEndRules(max, op, stopping, op.exit, op.stop, op.cleanup);
  }

  lemma LateRules(op: Op, st: Record)
    requires IsExit(op)
    ensures AllRules(op, st, LateEvidence(st, op.a, op.exit))
  {
  }

  lemma ExitRules(max: int, op: Op, st: Record)
    requires op.OpExitFirst? || op.OpExitChecked? || op.OpExitConflicted?
    ensures AllRules(op, st, Plan(max, op, st))
  {
    hide ExitTail, LateEvidence, Blank;
    ExitTailRules(max, op, st, st);
    ExitTailRules(max, op, st, Versioned(st, op.exit));
    LateRules(op, st);
  }

  lemma CleanedRules(op: Op, stopping: Record)
    requires op.OpStop?
    ensures AllRules(op, stopping, StopCleaned(stopping, op.job, op.originalQueued))
  {
  }

  lemma StopEndRules(max: int, op: Op, stopping: Record)
    requires op.OpStop?
    ensures AllRules(op, stopping, StopEnd(max, stopping, op.job, op.stop, op.cleanup, op.originalQueued))
  {
    hide StopCleaned, ScheduleCleanupRetry;
    CleanedRules(op, stopping);
    if op.cleanup.CleanupError? {
      CleanupRetryRules(max, op, stopping, op.cleanup.error);
    }
  }

  lemma StopRules(max: int, op: Op, st: Record)
    requires op.OpStop?
    ensures AllRules(op, st, Plan(max, op, st))
  {
    hide StopEnd, StopConflicts;
    var stopping := Sourced(Assigned(st, op.job), op.source).(status := Stopping);
    StopEndRules(max, op, stopping);
    RulesCons(op, st, Write(stopping, Plain), StopEnd(max, stopping, op.job, op.stop, op.cleanup, op.originalQueued));
  }

  lemma FailAndStopRules(max: int, op: Op, st: Record)
    requires op.OpFailAndStop?
    ensures AllRules(op, st, Plan(max, op, st))
  {
    hide ScheduleCleanupRetry;
    var stopping := Sourced(st, "failure_cleanup").(status := Stopping, stage := op.stage, reason := op.reason);
    if op.cleanup.CleanupError? {
      CleanupRetryRules(max, op, stopping, op.cleanup.error);
    }
  }

  lemma AssignmentRules(max: int, op: Op, st: Record)
    requires op.OpMarkInProgress? || op.OpMarkJobStarted? || op.OpTouch? || op.OpRetainJitCleanup?
    ensures AllRules(op, st, Plan(max, op, st))
  {
  }

  lemma RecoveryRules(max: int, op: Op, st: Record)
    requires op.OpRecoverQueued? || op.OpWakeWaiting?
    ensures AllRules(op, st, Plan(max, op, st))
  {
  }

  lemma ReconnectRules(max: int, op: Op, st: Record)
    requires op.OpReconnect?
    ensures AllRules(op, st, Plan(max, op, st))
  {
  }

  lemma InterruptedRules(max: int, op: Op, st: Record)
    requires op.OpRequeueInterrupted?
    ensures AllRules(op, st, Plan(max, op, st))
  {
  }

  lemma HistoricalRules(max: int, op: Op, st: Record)
    requires op.OpRetryHistorical?
    ensures AllRules(op, st, Plan(max, op, st))
  {
  }

  lemma CompletionRules(max: int, op: Op, st: Record)
    requires op.OpCompleteIfJobCompleted?
    ensures AllRules(op, st, Plan(max, op, st))
  {
  }

  lemma MismatchedRules(max: int, op: Op, st: Record)
    requires op.OpReconcileMismatched?
    ensures AllRules(op, st, Plan(max, op, st))
  {
  }

  /** Every write of every operation keeps to the rules. */
  lemma EveryPlanKeepsRules(max: int, op: Op, st: Record)
    ensures AllRules(op, st, Plan(max, op, st))
  {
    hide *;
    match op
    case OpEnsureStillQueued(_, _, _, _) => JobCheckRules(max, op, st);
    case OpExitFirst(_, _, _, _) => ExitRules(max, op, st);
    case OpExitChecked(_, _, _, _, _) => ExitRules(max, op, st);
    case OpExitConflicted(_, _, _, _) => ExitRules(max, op, st);
    case OpStop(_, _, _, _, _, _) => StopRules(max, op, st);
    case OpFailAndStop(_, _, _, _, _) => FailAndStopRules(max, op, st);
    case OpMarkInProgress(_) => AssignmentRules(max, op, st);
    case OpMarkJobStarted => AssignmentRules(max, op, st);
    case OpTouch => AssignmentRules(max, op, st);
    case OpRetainJitCleanup => AssignmentRules(max, op, st);
    case OpRecoverQueued => RecoveryRules(max, op, st);
    case OpReconnect(_, _, _) => ReconnectRules(max, op, st);
    case OpRequeueInterrupted(_, _) => InterruptedRules(max, op, st);
    case OpWakeWaiting(_) => RecoveryRules(max, op, st);
    case OpRetryHistorical(_) => HistoricalRules(max, op, st);
    case OpReconcileMismatched(_, _, _) => MismatchedRules(max, op, st);
    case OpCompleteIfJobCompleted(_, _) => CompletionRules(max, op, st);
    case _ => StartRules(max, op, st);
  }

  // ------------------------------------------------------------------- in runs

  /** Some operation begun among `steps` reported the sandbox. */
  ghost predicate SandboxReported(steps: seq<Step>, sandboxId: string, pid: nat) {
    exists i :: 0 <= i < |steps| && steps[i].Begin? && Reports(steps[i].op, sandboxId, pid)
  }

  ghost predicate JobReported(steps: seq<Step>, id: int) {
    exists i, name :: 0 <= i < |steps| && steps[i].Begin? && ReportsJob(steps[i].op, id, name)
  }

  /** Every agent is an operation begun among `steps`. */
  ghost predicate Begun(steps: seq<Step>, st: State) {
    forall a :: a in st.agents ==> exists i :: 0 <= i < |steps| && steps[i] == Begin(a, st.agents[a].op)
  }

  ghost predicate Reported(jobId: int, runnerName: string, steps: seq<Step>, st: State) {
    && st.record.workflowJobId == jobId && st.record.runnerName == runnerName
    && (st.record.sandboxId == "" || SandboxReported(steps, st.record.sandboxId, st.record.pid))
    && (st.record.assignedJobId == 0 || JobReported(steps, st.record.assignedJobId))
    && Begun(steps, st)
  }

  lemma BegunMore(steps: seq<Step>, more: seq<Step>, st: State)
    requires Begun(steps, st)
    ensures Begun(steps + more, st)
  {
    forall a | a in st.agents ensures exists i :: 0 <= i < |steps + more| && (steps + more)[i] == Begin(a, st.agents[a].op) {
      var i :| 0 <= i < |steps| && steps[i] == Begin(a, st.agents[a].op);
      assert (steps + more)[i] == steps[i];
    }
  }

  lemma ReportedMore(steps: seq<Step>, more: seq<Step>, sandboxId: string, pid: nat, id: int)
    ensures SandboxReported(steps, sandboxId, pid) ==> SandboxReported(steps + more, sandboxId, pid)
    ensures JobReported(steps, id) ==> JobReported(steps + more, id)
  {
    hide Reports, ReportsJob;
    if SandboxReported(steps, sandboxId, pid) {
      var i :| 0 <= i < |steps| && steps[i].Begin? && Reports(steps[i].op, sandboxId, pid);
      assert (steps + more)[i] == steps[i];
    }
    if JobReported(steps, id) {
      var i, name :| 0 <= i < |steps| && steps[i].Begin? && ReportsJob(steps[i].op, id, name);
      assert (steps + more)[i] == steps[i];
    }
  }

  /** A write that passes its version check keeps to the rules on the record as it is. */
  lemma WriteKeepsRules(max: int, st: State, agent: nat)
    requires Valid(max, st) && Enabled(st, WriteNext(agent)) && Current(st, agent)
    ensures var a := st.agents[agent];
      var n := a.plan[a.done].next;
      SameIdentity(st.record, n) && SandboxRule(a.op, st.record, n) && AssignmentRule(a.op, st.record, n) && EndingRule(a.op, st.record, n)
  {
    hide Plan;
    var a := st.agents[agent];
    assert AgentValid(max, st.record, a);
    EveryPlanKeepsRules(max, a.op, a.base);
    assert Rules(a.op, Before(a.base, a.plan, a.done), a.plan[a.done].next);
  }

  lemma StepKeepsBegun(max: int, st: State, step: Step, steps: seq<Step>)
    requires Enabled(st, step) && Begun(steps, st)
    ensures Begun(steps + [step], Apply(max, st, step))
  {
    hide Plan;
    BegunMore(steps, [step], st);
    var after := Apply(max, st, step);
    forall a | a in after.agents ensures exists i :: 0 <= i < |steps + [step]| && (steps + [step])[i] == Begin(a, after.agents[a].op) {
      if step.Begin? && step.agent == a {
        assert (steps + [step])[|steps|] == Begin(a, after.agents[a].op);
      } else {
        assert a in st.agents && after.agents[a].op == st.agents[a].op;
      }
    }
  }

  lemma StepKeepsReported(max: int, jobId: int, runnerName: string, steps: seq<Step>, st: State, step: Step)
    requires Valid(max, st) && Enabled(st, step) && Reported(jobId, runnerName, steps, st)
    ensures Reported(jobId, runnerName, steps + [step], Apply(max, st, step))
  {
    hide Plan, Begun, SandboxReported, JobReported, Reports, ReportsJob, EndingRule, AgentValid;
    StepKeepsBegun(max, st, step, steps);
    BegunMore(steps, [step], st);
    var more := steps + [step];
    ReportedMore(steps, [step], st.record.sandboxId, st.record.pid, st.record.assignedJobId);
    if step.WriteNext? && Current(st, step.agent) {
      WriteKeepsRules(max, st, step.agent);
      WriterReports(st, step.agent, more, Apply(max, st, step).record);
    }
  }

  lemma WriterReports(st: State, agent: nat, more: seq<Step>, n: Record)
    requires agent in st.agents && Begun(more, st)
    ensures Reports(st.agents[agent].op, n.sandboxId, n.pid) ==> SandboxReported(more, n.sandboxId, n.pid)
    ensures ReportsJob(st.agents[agent].op, n.assignedJobId, n.assignedJobName) ==> JobReported(more, n.assignedJobId)
  {
    hide Reports, ReportsJob;
    var i :| 0 <= i < |more| && more[i] == Begin(agent, st.agents[agent].op);
  }

  lemma {:induction false} RunKeepsReported(max: int, jobId: int, runnerName: string, before: seq<Step>, st: State, steps: seq<Step>)
    requires Valid(max, st) && ValidRun(max, st, steps) && Reported(jobId, runnerName, before, st)
    ensures Reported(jobId, runnerName, before + steps, After(max, st, steps))
    decreases |steps|
  {
    hide Apply, Enabled, Valid, Reported;
    if steps == [] {
      assert before + steps == before;
    } else {
      StepKeepsValid(max, st, steps[0]);
      StepKeepsReported(max, jobId, runnerName, before, st, steps[0]);
      RunKeepsReported(max, jobId, runnerName, before + [steps[0]], Apply(max, st, steps[0]), steps[1..]);
      assert before + [steps[0]] + steps[1..] == before + steps;
    }
  }

  /**
   In every run a request keeps its job and its runner's name, a sandbox it names was reported by a start or a
   reconnect of the run, and a job it is assigned was reported by GitHub in the run.
   */
  lemma RecordNamesOnlyWhatWasReported(max: nat, jobId: int, runnerName: string, rejected: bool, steps: seq<Step>)
    requires ValidRun(max, Created(jobId, runnerName, rejected), steps)
    ensures var record := After(max, Created(jobId, runnerName, rejected), steps).record;
      && record.workflowJobId == jobId && record.runnerName == runnerName
      && (record.sandboxId != "" ==> SandboxReported(steps, record.sandboxId, record.pid))
      && (record.assignedJobId != 0 ==> JobReported(steps, record.assignedJobId))
  {
    hide Apply, Enabled, SandboxReported, JobReported;
    var start := Created(jobId, runnerName, rejected);
    RunKeepsReported(max, jobId, runnerName, [], start, steps);
    assert [] + steps == steps;
  }

  /** In every run whoever ended a runner first stays named, with its exit code, until the request is queued again. */
  lemma EndingIsKeptUntilRequeued(max: nat, jobId: int, runnerName: string, rejected: bool, steps: seq<Step>, agent: nat)
    requires ValidRun(max, Created(jobId, runnerName, rejected), steps)
    requires Enabled(After(max, Created(jobId, runnerName, rejected), steps), WriteNext(agent))
    ensures var st := After(max, Created(jobId, runnerName, rejected), steps);
      var op, next := st.agents[agent].op, Apply(max, st, WriteNext(agent)).record;
      next.status != Queued ==>
        && (st.record.terminationSource != "" ==> next.terminationSource == st.record.terminationSource)
        && (st.record.exitCode.Some? && !IsExit(op) ==> next.exitCode == st.record.exitCode)
        && (st.record.runnerVersion != "" ==> next.runnerVersion == st.record.runnerVersion)
  {
    hide Plan, AgentValid;
    RunKeepsValid(max, Created(jobId, runnerName, rejected), steps);
    var st := After(max, Created(jobId, runnerName, rejected), steps);
    if Current(st, agent) {
      WriteKeepsRules(max, st, agent);
    }
  }
}
