/**
 Runs of a request: any number of operations, each working from the copy it read while
 others write, with the Store's own claim, lease release and administrator retry.

 Nothing here relies on the per-request lock: an operation may read at any time, and a write
 that meets a newer version is lost together with the rest of its operation.
 */
module LifecycleRuns {
  import opened Basics
  import opened LifecycleModel

  /** An operation under way: the copy it read, its writes, and how many are done. */
  datatype Agent = Agent(op: Op, base: Record, plan: seq<Write>, done: nat)

  /** `spent` counts the budgeted retries written since the last reset. */
  datatype State = State(record: Record, agents: map<nat, Agent>, spent: nat)

  datatype Step =
    | Begin(agent: nat, op: Op)
    | WriteNext(agent: nat)
    | Abandon(agent: nat)
    | AdminRetry
    | Claim(worker: string, now: nat)
    | ReleaseLease(worker: string)

  predicate Enabled(st: State, step: Step) {
    match step
    case Begin(agent, _) => agent !in st.agents
    case WriteNext(agent) => agent in st.agents && st.agents[agent].done < |st.agents[agent].plan|
    case Abandon(agent) => agent in st.agents
    case AdminRetry =>
      || st.record.status == Status.Failed
      || (st.record.status == Queued && st.record.retryScheduled && st.record.lastErrorRetryable)
    case Claim(_, _) => st.record.status == Queued
    case ReleaseLease(_) => true
  }

  /** The version check of a write. */
  predicate Current(st: State, agent: nat)
    requires agent in st.agents
  {
    st.record.version == st.agents[agent].base.version + st.agents[agent].done
  }

  function Spent(spent: nat, budget: Budget): nat {
    match budget
    case Budgeted => spent + 1
    case Reset => 0
    case _ => spent
  }

  function Apply(max: int, st: State, step: Step): State
    requires Enabled(st, step)
  {
    match step
    case Begin(agent, op) => st.(agents := st.agents[agent := Agent(op, st.record, Plan(max, op, st.record), 0)])
    case WriteNext(agent) =>
      var a := st.agents[agent];
      if Current(st, agent) then
        State(a.plan[a.done].next.(version := st.record.version + 1), st.agents[agent := a.(done := a.done + 1)],
              Spent(st.spent, a.plan[a.done].budget))
      else st.(agents := st.agents - {agent})
    case Abandon(agent) => st.(agents := st.agents - {agent})
    case AdminRetry => st.(record := Requeued(st.record).(version := st.record.version + 1))
    case Claim(worker, now) =>
      st.(record := st.record.(leaseOwner := worker, lastAttempt := now, version := st.record.version + 1))
    case ReleaseLease(worker) =>
      if st.record.leaseOwner == worker then st.(record := st.record.(leaseOwner := "")) else st
  }

  predicate ValidRun(max: int, st: State, steps: seq<Step>)
    decreases |steps|
  {
    steps == [] || (Enabled(st, steps[0]) && ValidRun(max, Apply(max, st, steps[0]), steps[1..]))
  }

  function After(max: int, st: State, steps: seq<Step>): State
    requires ValidRun(max, st, steps)
    decreases |steps|
  {
    if steps == [] then st else After(max, Apply(max, st, steps[0]), steps[1..])
  }

  lemma {:induction false} RunsJoin(max: int, st: State, first: seq<Step>, second: seq<Step>)
    requires ValidRun(max, st, first) && ValidRun(max, After(max, st, first), second)
    ensures ValidRun(max, st, first + second)
    ensures After(max, st, first + second) == After(max, After(max, st, first), second)
    decreases |first|
  {
    hide Apply, Enabled;
    if first == [] {
      assert first + second == second;
    } else {
      assert (first + second)[1..] == first[1..] + second;
      RunsJoin(max, Apply(max, st, first[0]), first[1..], second);
    }
  }

  /** Agent `agent` performs `op` with nobody in between, for an operation of one write. */
  function Alone(agent: nat, op: Op): seq<Step> { [Begin(agent, op), WriteNext(agent)] }

  lemma AloneWrites(max: int, st: State, agent: nat, op: Op)
    requires agent !in st.agents && |Plan(max, op, st.record)| == 1
    ensures var w := Plan(max, op, st.record)[0];
      && ValidRun(max, st, Alone(agent, op))
      && var after := After(max, st, Alone(agent, op));
      && after.record == w.next.(version := st.record.version + 1)
      && after.agents.Keys == st.agents.Keys + {agent}
  {
    hide Plan;
    var begun := Apply(max, st, Begin(agent, op));
    assert Enabled(begun, WriteNext(agent)) && Current(begun, agent);
    var written := Apply(max, begun, WriteNext(agent));
    assert Alone(agent, op)[1..] == [WriteNext(agent)];
    assert [WriteNext(agent)][1..] == [];
    assert ValidRun(max, written, []) && ValidRun(max, begun, [WriteNext(agent)]);
    assert After(max, begun, [WriteNext(agent)]) == written;
  }

  /** The record after performing the operations of one write each, one after the other. */
  function Scripted(max: int, st: Record, ops: seq<Op>): Option<Record>
    decreases |ops|
  {
    if ops == [] then Some(st)
    else
      var plan := Plan(max, ops[0], st);
      if |plan| != 1 then None else Scripted(max, plan[0].next.(version := st.version + 1), ops[1..])
  }

  lemma ScriptedStep(max: int, st: Record, op: Op, rest: seq<Op>)
    requires |Plan(max, op, st)| == 1
    ensures Scripted(max, st, [op] + rest) == Scripted(max, Plan(max, op, st)[0].next.(version := st.version + 1), rest)
  {
    hide Plan;
    assert ([op] + rest)[1..] == rest;
  }

  lemma ScriptedEnds(max: int, st: Record)
    ensures Scripted(max, st, []) == Some(st)
  {
  }

  /** Every such script is a run. */
  lemma {:induction false} ScriptIsARun(max: int, st: State, ops: seq<Op>, agent: nat) returns (steps: seq<Step>)
    requires Scripted(max, st.record, ops).Some? && forall a :: a in st.agents ==> a < agent
    ensures ValidRun(max, st, steps) && After(max, st, steps).record == Scripted(max, st.record, ops).value
    ensures forall a :: a in After(max, st, steps).agents ==> a < agent + |ops|
    decreases |ops|
  {
    hide Plan, Apply, Enabled;
    if ops == [] {
      steps := [];
    } else {
      AloneWrites(max, st, agent, ops[0]);
      var next := After(max, st, Alone(agent, ops[0]));
      var rest := ScriptIsARun(max, next, ops[1..], agent + 1);
      steps := Alone(agent, ops[0]) + rest;
      RunsJoin(max, st, Alone(agent, ops[0]), rest);
    }
  }

  /** A request as the Store creates it: queued, or failed when admission rejected it. */
  function Created(jobId: int, runnerName: string, rejected: bool): State {
    State(Record(0, if rejected then Status.Failed else Queued, "", 0, 0,
                 if rejected then Admission else NoStage, if rejected then Rejected else NoReason,
                 NoError, false, false, "", jobId, 0, "", runnerName, "", None, "", 0), map[], 0)
  }

  // ----------------------------------------------------- what one write does

  /** A request that has no sandbox yet names none. */
  predicate Clean(st: Record) {
    st.status in {Queued, Creating} ==> st.sandboxId == "" && st.pid == 0
  }

  /** The status changes any operation makes. */
  predicate Edge(a: Status, b: Status) {
    match a
    case Queued => b in {Queued, Creating, Stopping, Status.Failed}
    case Creating => true
    case Running => b in {Running, Stopping, Queued, Status.Failed}
    case Stopping => b in {Stopping, Completed, Status.Failed, Queued}
    case Completed => b in {Completed, Queued, Stopping}
    case Failed => b in {Status.Failed, Stopping, Completed, Queued}
  }

  predicate Counts(max: int, before: Record, w: Write) {
    match w.budget
    case Plain => w.next.retryCount == before.retryCount
    case Deferred => w.next.retryCount == Saturated(max, before.retryCount)
    case Budgeted => w.next.retryCount == before.retryCount + 1 <= max
    case Reset => w.next.retryCount == 0
  }

  /** A write that puts a request back in the queue leaves no lease that would hold up its next claim. */
  predicate Claimable(before: Record, next: Record) {
    next.status == Queued && before.status != Queued ==> next.leaseOwner == ""
  }

  predicate Follows(max: int, before: Record, w: Write) {
    && (Clean(before) ==> Clean(w.next))
    && Claimable(before, w.next)
    && Edge(before.status, w.next.status)
    && Counts(max, before, w)
  }

  function Before(st: Record, plan: seq<Write>, i: nat): Record
    requires i <= |plan|
  {
    if i == 0 then st else plan[i - 1].next
  }

  ghost predicate Chain(max: int, st: Record, plan: seq<Write>) {
    forall i :: 0 <= i < |plan| ==> Follows(max, Before(st, plan, i), plan[i])
  }

  lemma ChainCons(max: int, st: Record, w: Write, rest: seq<Write>)
    requires Follows(max, st, w) && Chain(max, w.next, rest)
    ensures Chain(max, st, [w] + rest)
  {
    hide Follows;
    var plan := [w] + rest;
    forall i | 0 <= i < |plan| ensures Follows(max, Before(st, plan, i), plan[i]) {
      if i > 0 {
        assert Before(st, plan, i) == Before(w.next, rest, i - 1);
      }
    }
  }

  lemma FailureFollows(max: int, st: Record, stage: Stage, e: Error)
    requires st.status != Completed
    ensures Follows(max, st, ApplyFailure(max, st, stage, e))
  {
  }

  lemma StartChains(max: int, op: Op, st: Record)
    requires op.OpBeginCreating? || op.OpAdopt? || op.OpFailStart? || op.OpRetryOrFail? || op.OpDeferQueued? || op.OpDeferCreating?
    ensures Chain(max, st, Plan(max, op, st))
  {
    hide ApplyFailure;
    if (op.OpFailStart? || op.OpRetryOrFail?) && st.status != Completed {
      FailureFollows(max, st, op.stage, op.error);
    }
  }

  lemma JobCheckChains(max: int, op: Op, st: Record)
    requires op.OpEnsureStillQueued?
    ensures Chain(max, st, Plan(max, op, st))
  {
  }

  /** A scheduled retry follows the stopping copy, whatever status the caller had set meanwhile. */
  lemma CleanupRetryFollows(max: int, stopping: Record, ended: Record, e: Error)
    requires stopping.status == Stopping && ended.retryCount == stopping.retryCount
    ensures var w := ScheduleCleanupRetry(max, ended, e); w.Some? ==> Follows(max, stopping, w.value)
  {
  }

  lemma WithoutJobFollows(max: int, stopping: Record, ended: Record)
    requires stopping.status == Stopping && ended.retryCount == stopping.retryCount && ended.status in {Completed, Status.Failed}
    ensures Follows(max, stopping, RetryWithoutJob(max, ended))
  {
  }

  lemma ExitEndFollows(max: int, stopping: Record, exit: Exit, stop: StopResult, cleanup: CleanupResult)
    requires stopping.status == Stopping
    ensures Follows(max, stopping, ExitEnd(max, stopping, exit, stop, cleanup))
  {
    hide RetryWithoutJob, ScheduleCleanupRetry;
    var ended := stopping.(status := if (stopping.sandboxId != "" && stop.StopError?) || NeedsBusyCheck(exit) then Status.Failed else Completed);
    if cleanup.CleanupError? {
      CleanupRetryFollows(max, stopping, ended, cleanup.error);
    }
    WithoutJobFollows(max, stopping, ended);
    WithoutJobFollows(max, stopping, ended.(status := Status.Failed, stage := Cleanup, reason := CleanupFailed));
  }

  lemma ExitTailChains(max: int, st: Record, exit: Exit, stop: StopResult, cleanup: CleanupResult)
    requires st.status in {Creating, Running}
    ensures Chain(max, st, ExitTail(max, st, exit, stop, cleanup))
  {
    hide ExitEnd;
    var stopping := Exited(st, exit).(status := Stopping);
    ExitEndFollows(max, stopping, exit, stop, cleanup);
  }

  lemma ExitChains(max: int, op: Op, st: Record)
    requires op.OpExitFirst? || op.OpExitChecked? || op.OpExitConflicted?
    ensures Chain(max, st, Plan(max, op, st))
  {
    hide ExitTail;
    if st.status in {Creating, Running} {
      ExitTailChains(max, st, op.exit, op.stop, op.cleanup);
      var versioned := Versioned(st, op.exit);
      ExitTailChains(max, versioned, op.exit, op.stop, op.cleanup);
      SameStart(max, st, versioned, ExitTail(max, versioned, op.exit, op.stop, op.cleanup));
    }
  }

  /** A chain from one copy is a chain from another that agrees on what the chain reads. */
  lemma SameStart(max: int, st: Record, other: Record, plan: seq<Write>)
    requires Chain(max, other, plan)
    requires st.status == other.status && st.sandboxId == other.sandboxId && st.pid == other.pid && st.retryCount == other.retryCount
    ensures Chain(max, st, plan)
  {
    forall i | 0 <= i < |plan| ensures Follows(max, Before(st, plan, i), plan[i]) {
      assert Follows(max, Before(other, plan, i), plan[i]);
    }
  }

  lemma CleanedChains(max: int, stopping: Record, job: Job, originalQueued: bool)
    requires stopping.status == Stopping
    ensures Chain(max, stopping, StopCleaned(stopping, job, originalQueued))
  {
  }

  lemma StopEndChains(max: int, stopping: Record, job: Job, stop: StopResult, cleanup: CleanupResult, originalQueued: bool)
    requires stopping.status == Stopping
    ensures Chain(max, stopping, StopEnd(max, stopping, job, stop, cleanup, originalQueued))
  {
    hide StopCleaned, ScheduleCleanupRetry;
    CleanedChains(max, stopping, job, originalQueued);
    if cleanup.CleanupError? {
      CleanupRetryFollows(max, stopping, stopping, cleanup.error);
    }
  }

  lemma StopChains(max: int, op: Op, st: Record)
    requires op.OpStop?
    ensures Chain(max, st, Plan(max, op, st))
  {
    hide StopEnd, StopConflicts;
    var stopping := Sourced(Assigned(st, op.job), op.source).(status := Stopping);
    var rest := StopEnd(max, stopping, op.job, op.stop, op.cleanup, op.originalQueued);
    StopEndChains(max, stopping, op.job, op.stop, op.cleanup, op.originalQueued);
    if st.status != Completed {
      ChainCons(max, st, Write(stopping, Plain), rest);
    }
  }

  lemma FailAndStopChains(max: int, op: Op, st: Record)
    requires op.OpFailAndStop?
    ensures Chain(max, st, Plan(max, op, st))
  {
    hide ScheduleCleanupRetry;
    var stopping := Sourced(st, "failure_cleanup").(status := Stopping, stage := op.stage, reason := op.reason);
    if op.cleanup.CleanupError? {
      CleanupRetryFollows(max, stopping, stopping, op.cleanup.error);
    }
  }

  lemma AssignmentChains(max: int, op: Op, st: Record)
    requires op.OpMarkInProgress? || op.OpMarkJobStarted? || op.OpTouch? || op.OpRetainJitCleanup?
    ensures Chain(max, st, Plan(max, op, st))
  {
  }

  lemma RecoveryChains(max: int, op: Op, st: Record)
    requires op.OpRecoverQueued? || op.OpReconnect? || op.OpWakeWaiting?
    ensures Chain(max, st, Plan(max, op, st))
  {
  }

  lemma InterruptedChains(max: int, op: Op, st: Record)
    requires op.OpRequeueInterrupted?
    ensures Chain(max, st, Plan(max, op, st))
  {
  }

  lemma HistoricalChains(max: int, op: Op, st: Record)
    requires op.OpRetryHistorical? || op.OpCompleteIfJobCompleted?
    ensures Chain(max, st, Plan(max, op, st))
  {
  }

  lemma MismatchedChains(max: int, op: Op, st: Record)
    requires op.OpReconcileMismatched?
    ensures Chain(max, st, Plan(max, op, st))
  {
  }

  /** Every write of every operation keeps the record clean, follows the status graph and counts its retry. */
  lemma EveryPlanChains(max: int, op: Op, st: Record)
    ensures Chain(max, st, Plan(max, op, st))
  {
    hide *;
    match op
    case OpEnsureStillQueued(_, _, _, _) => JobCheckChains(max, op, st);
    case OpExitFirst(_, _, _, _) => ExitChains(max, op, st);
    case OpExitChecked(_, _, _, _, _) => ExitChains(max, op, st);
    case OpExitConflicted(_, _, _, _) => ExitChains(max, op, st);
    case OpStop(_, _, _, _, _, _) => StopChains(max, op, st);
    case OpFailAndStop(_, _, _, _, _) => FailAndStopChains(max, op, st);
    case OpMarkInProgress(_) => AssignmentChains(max, op, st);
    case OpMarkJobStarted => AssignmentChains(max, op, st);
    case OpTouch => AssignmentChains(max, op, st);
    case OpRetainJitCleanup => AssignmentChains(max, op, st);
    case OpRecoverQueued => RecoveryChains(max, op, st);
    case OpReconnect(_, _, _) => RecoveryChains(max, op, st);
    case OpRequeueInterrupted(_, _) => InterruptedChains(max, op, st);
    case OpWakeWaiting(_) => RecoveryChains(max, op, st);
    case OpRetryHistorical(_) => HistoricalChains(max, op, st);
    case OpReconcileMismatched(_, _, _) => MismatchedChains(max, op, st);
    case OpCompleteIfJobCompleted(_, _) => HistoricalChains(max, op, st);
    case _ => StartChains(max, op, st);
  }

  // --------------------------------------------------------------- invariant

  /** Two copies that differ in nothing but the lease. */
  predicate SameButLease(a: Record, b: Record) {
    a.(leaseOwner := "") == b.(leaseOwner := "")
  }

  /** What the store holds if nobody else wrote since this agent's last write. */
  function Expected(a: Agent): Record
    requires a.done <= |a.plan|
  {
    Before(a.base, a.plan, a.done).(version := a.base.version + a.done)
  }

  ghost predicate AgentValid(max: int, record: Record, a: Agent) {
    && a.plan == Plan(max, a.op, a.base) && a.done <= |a.plan|
    && a.base.version + a.done <= record.version
    && (a.base.version + a.done == record.version ==> SameButLease(record, Expected(a)))
  }

  ghost predicate Valid(max: int, st: State) {
    && Clean(st.record)
    && st.spent <= st.record.retryCount <= max
    && forall a :: a in st.agents ==> AgentValid(max, st.record, st.agents[a])
  }

  /** A write that passes its version check is a step from the record as it is, not as it was read. */
  lemma WriteFollowsRecord(max: int, st: State, agent: nat)
    requires Valid(max, st) && Enabled(st, WriteNext(agent)) && Current(st, agent)
    ensures var a := st.agents[agent]; Follows(max, st.record, a.plan[a.done])
  {
    hide Plan;
    var a := st.agents[agent];
    assert AgentValid(max, st.record, a);
    EveryPlanChains(max, a.op, a.base);
    assert Follows(max, Before(a.base, a.plan, a.done), a.plan[a.done]);
  }

  lemma StepKeepsRecord(max: int, st: State, step: Step)
    requires Valid(max, st) && Enabled(st, step)
    ensures var after := Apply(max, st, step); Clean(after.record) && after.spent <= after.record.retryCount <= max
  {
    hide Plan, AgentValid;
    if step.WriteNext? && Current(st, step.agent) {
      WriteFollowsRecord(max, st, step.agent);
    }
  }

  lemma StepKeepsAgent(max: int, st: State, step: Step, agent: nat)
    requires Valid(max, st) && Enabled(st, step) && agent in Apply(max, st, step).agents
    ensures AgentValid(max, Apply(max, st, step).record, Apply(max, st, step).agents[agent])
  {
    hide Plan, Clean;
    if agent in st.agents {
      assert AgentValid(max, st.record, st.agents[agent]);
    }
  }

  lemma StepKeepsValid(max: int, st: State, step: Step)
    requires Valid(max, st) && Enabled(st, step)
    ensures Valid(max, Apply(max, st, step))
  {
    hide Apply, Enabled, AgentValid, Clean;
    StepKeepsRecord(max, st, step);
    forall agent | agent in Apply(max, st, step).agents
      ensures AgentValid(max, Apply(max, st, step).record, Apply(max, st, step).agents[agent])
    {
      StepKeepsAgent(max, st, step, agent);
    }
  }

  lemma {:induction false} RunKeepsValid(max: int, st: State, steps: seq<Step>)
    requires Valid(max, st) && ValidRun(max, st, steps)
    ensures Valid(max, After(max, st, steps))
    decreases |steps|
  {
    hide Apply, Enabled, Valid;
    if steps != [] {
      StepKeepsValid(max, st, steps[0]);
      RunKeepsValid(max, Apply(max, st, steps[0]), steps[1..]);
    }
  }

  // ---------------------------------------------------------------- theorems

  /** In every run a queued or creating request names no sandbox and no process. */
  lemma QueuedAndCreatingNameNoSandbox(max: nat, jobId: int, runnerName: string, rejected: bool, steps: seq<Step>)
    requires ValidRun(max, Created(jobId, runnerName, rejected), steps)
    ensures var record := After(max, Created(jobId, runnerName, rejected), steps).record;
      record.status in {Queued, Creating} ==> record.sandboxId == "" && record.pid == 0
  {
    hide Apply, Enabled;
    RunKeepsValid(max, Created(jobId, runnerName, rejected), steps);
  }

  /** Between resets a run schedules no more budgeted retries than its count shows, and never more than the limit. */
  lemma RetriesStayWithinBudget(max: nat, jobId: int, runnerName: string, rejected: bool, steps: seq<Step>)
    requires ValidRun(max, Created(jobId, runnerName, rejected), steps)
    ensures var st := After(max, Created(jobId, runnerName, rejected), steps);
      st.spent <= st.record.retryCount <= max
  {
    hide Apply, Enabled;
    RunKeepsValid(max, Created(jobId, runnerName, rejected), steps);
  }

  /** In every run a write that puts a request back in the queue leaves it without a lease. */
  lemma RequeuedRequestsAreClaimable(max: nat, jobId: int, runnerName: string, rejected: bool, steps: seq<Step>, agent: nat)
    requires ValidRun(max, Created(jobId, runnerName, rejected), steps)
    requires Enabled(After(max, Created(jobId, runnerName, rejected), steps), WriteNext(agent))
    ensures var st := After(max, Created(jobId, runnerName, rejected), steps);
      var next := Apply(max, st, WriteNext(agent));
      && Edge(st.record.status, next.record.status)
      && (next.record.status == Queued && st.record.status != Queued ==> next.record.leaseOwner == "")
  {
    hide Plan, AgentValid;
    RunKeepsValid(max, Created(jobId, runnerName, rejected), steps);
    var st := After(max, Created(jobId, runnerName, rejected), steps);
    if Current(st, agent) {
      WriteFollowsRecord(max, st, agent);
    }
  }
}
