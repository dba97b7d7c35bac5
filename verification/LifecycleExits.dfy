/**
 Who may change a request: an exit callback only while the record names its own sandbox and
 process, and an operation that forgets a sandbox only in the cases listed here.
 */
module LifecycleExits {
  import opened Basics
  import opened LifecycleModel
  import opened LifecycleRuns

  lemma TailKeepsIdentity(max: int, st: Record, exit: Exit, stop: StopResult, cleanup: CleanupResult)
    ensures var plan := ExitTail(max, st, exit, stop, cleanup);
      |plan| == 2 && plan[0].next.sandboxId == st.sandboxId && plan[0].next.pid == st.pid
  {
    hide ExitEnd;
  }

  /** Whenever an exit callback for a given runner writes, the copy it extends names that runner. */
  lemma ExitPlanOwnsItsCopies(max: int, op: Op, st: Record, i: nat)
    requires IsExit(op) && Specified(op.a) && i < |Plan(max, op, st)|
    ensures Matches(op.a, Before(st, Plan(max, op, st), i))
  {
    hide ExitTail;
    TailKeepsIdentity(max, st, op.exit, op.stop, op.cleanup);
    TailKeepsIdentity(max, Versioned(st, op.exit), op.exit, op.stop, op.cleanup);
  }

  /**
   In every run, also across the check made without the lock, a write of an exit callback
   succeeds only on a record that still names the callback's sandbox and process.
   */
  lemma ExitWritesOnlyItsOwnAttempt(max: nat, jobId: int, runnerName: string, rejected: bool, steps: seq<Step>, agent: nat)
    requires ValidRun(max, Created(jobId, runnerName, rejected), steps)
    requires Enabled(After(max, Created(jobId, runnerName, rejected), steps), WriteNext(agent))
    requires var a := After(max, Created(jobId, runnerName, rejected), steps).agents[agent]; IsExit(a.op) && Specified(a.op.a)
    ensures var st := After(max, Created(jobId, runnerName, rejected), steps);
      var op := st.agents[agent].op;
      && (Current(st, agent) ==> Matches(op.a, st.record) && st.record.status !in {Queued, Creating})
      && (!Current(st, agent) ==> Apply(max, st, WriteNext(agent)).record == st.record)
  {
    hide Plan;
    var st := After(max, Created(jobId, runnerName, rejected), steps);
    RunKeepsValid(max, Created(jobId, runnerName, rejected), steps);
    var a := st.agents[agent];
    assert AgentValid(max, st.record, a);
    ExitPlanOwnsItsCopies(max, a.op, a.base, a.done);
  }

  function RunningRecord(sandboxId: string, pid: nat): Record {
    Created(1, "e2b-1", false).record.(status := Running, sandboxId := sandboxId, pid := pid)
  }

  /**
   The callback leaves every other runner's record alone exactly when it is given an identity:
   without one, a clean exit would end whatever runner the record names.
   */
  lemma ExitGuardIsExact(max: int, a: Identity)
    ensures Specified(a) <==>
      forall st, exit, stop, cleanup :: ExitFirst(max, st, a, exit, stop, cleanup) != [] ==> Matches(a, st)
  {
    if Specified(a) {
      forall st, exit, stop, cleanup | ExitFirst(max, st, a, exit, stop, cleanup) != [] ensures Matches(a, st) {
      }
    } else {
      var other := RunningRecord("sandbox", 1);
      assert ExitFirst(max, other, a, Exit(false, 0, ""), Stopped, Deregistered) != [];
      assert !Matches(a, other);
    }
  }

  /** Such a record: a clean exit without an identity completes a request whose own runner accepted a job and runs on. */
  lemma ExitWithoutIdentityEndsAnyRunner(max: int)
    ensures var other := RunningRecord("sandbox", 1).(assignedJobName := JOB_STARTED);
      var plan := ExitFirst(max, other, Identity("", 0), Exit(false, 0, ""), Stopped, Deregistered);
      !Matches(Identity("", 0), other) && |plan| == 2 && plan[1].next.status == Completed
  {
  }

  // -------------------------------------------------------- forgotten sandboxes

  predicate Forgets(before: Record, next: Record) { before.sandboxId != "" && next.sandboxId == "" }

  /** The sweep's retry forgets a sandbox it never stopped exactly when the record is not terminal and names one. */
  lemma RetryForgetsSandboxExactlyWhen(max: int, st: Record, stage: Stage, e: Error)
    ensures SomeForgets(st, RetryOrFail(max, st, stage, e)) <==> st.sandboxId != "" && st.status !in {Completed, Status.Failed}
  {
    if st.sandboxId != "" && st.status !in {Completed, Status.Failed} {
      assert Forgets(st, RetryOrFail(max, st, stage, e)[0].next);
    }
  }

  ghost predicate SomeForgets(st: Record, plan: seq<Write>) {
    exists i :: 0 <= i < |plan| && Forgets(st, plan[i].next)
  }

  /**
   A start that fails late does the same to any record that is neither completed nor stopping, unless the
   start is a Windows one and the record is not its own attempt's; so no Windows start does it to a clean record.
   */
  lemma FailedStartForgetsSandboxExactlyWhen(max: int, st: Record, stage: Stage, e: Error, attempt: Option<nat>)
    ensures SomeForgets(st, FailStart(max, st, stage, e, attempt)) <==>
      st.sandboxId != "" && st.status !in {Completed, Stopping} && !AnotherAttempt(st, attempt)
    ensures Clean(st) ==>
      (SomeForgets(st, FailStart(max, st, stage, e, attempt)) <==>
       st.sandboxId != "" && st.status !in {Completed, Stopping} && attempt.None?)
  {
    if st.sandboxId != "" && st.status !in {Completed, Stopping} && !AnotherAttempt(st, attempt) {
      assert Forgets(st, FailStart(max, st, stage, e, attempt)[0].next);
    }
  }

  /** The sandbox of the copy was stopped by the operation itself. */
  predicate StoppedHere(op: Op) {
    (IsExit(op) || op.OpStop? || op.OpFailAndStop?) && op.stop.Stopped?
  }

  lemma ExitEndForgets(max: int, stopping: Record, exit: Exit, stop: StopResult, cleanup: CleanupResult)
    ensures Forgets(stopping, ExitEnd(max, stopping, exit, stop, cleanup).next) ==> stop.Stopped?
  {
  }

  lemma StopEndForgets(max: int, stopping: Record, job: Job, stop: StopResult, cleanup: CleanupResult, queued: bool, i: nat)
    requires i < |StopEnd(max, stopping, job, stop, cleanup, queued)|
    ensures var plan := StopEnd(max, stopping, job, stop, cleanup, queued);
      && (Forgets(stopping, plan[i].next) ==> stop.Stopped?)
      && (i > 0 ==> plan[i].next.sandboxId == stopping.sandboxId == plan[i - 1].next.sandboxId)
  {
  }

  lemma TailForgets(max: int, st: Record, exit: Exit, stop: StopResult, cleanup: CleanupResult)
    ensures var plan := ExitTail(max, st, exit, stop, cleanup);
      && |plan| == 2 && plan[0].next.sandboxId == st.sandboxId
      && (Forgets(plan[0].next, plan[1].next) ==> stop.Stopped?)
  {
    hide ExitEnd;
    ExitEndForgets(max, Exited(st, exit).(status := Stopping), exit, stop, cleanup);
  }

  lemma ExitForgetsOnlyStopped(max: int, op: Op, st: Record, i: nat)
    requires IsExit(op) && i < |Plan(max, op, st)|
    ensures Forgets(Before(st, Plan(max, op, st), i), Plan(max, op, st)[i].next) ==> StoppedHere(op)
  {
    hide ExitTail;
    TailForgets(max, st, op.exit, op.stop, op.cleanup);
    TailForgets(max, Versioned(st, op.exit), op.exit, op.stop, op.cleanup);
  }

  lemma StopForgetsOnlyStopped(max: int, op: Op, st: Record, i: nat)
    requires (op.OpStop? || op.OpFailAndStop?) && i < |Plan(max, op, st)|
    ensures Forgets(Before(st, Plan(max, op, st), i), Plan(max, op, st)[i].next) ==> StoppedHere(op)
  {
    hide StopEnd, StopConflicts;
    if op.OpStop? && i > 0 {
      var stopping := Sourced(Assigned(st, op.job), op.source).(status := Stopping);
      StopEndForgets(max, stopping, op.job, op.stop, op.cleanup, op.originalQueued, i - 1);
    }
  }

  /**
   Besides those two, an operation forgets a sandbox only after stopping it, or by moving a
   completed request on, or by reconnecting to a runner that has none.
   */
  lemma OthersForgetOnlyStoppedSandboxes(max: int, op: Op, st: Record, i: nat)
    requires Clean(st) && i < |Plan(max, op, st)| && !op.OpRetryOrFail? && !op.OpFailStart?
    requires Forgets(Before(st, Plan(max, op, st), i), Plan(max, op, st)[i].next)
    ensures StoppedHere(op) || Before(st, Plan(max, op, st), i).status == Completed || op.OpReconnect?
  {
    hide ExitFirst, ExitChecked, ExitConflicted, StopRunner, FailAndStop;
    if IsExit(op) {
      ExitForgetsOnlyStopped(max, op, st, i);
    } else if op.OpStop? || op.OpFailAndStop? {
      StopForgetsOnlyStopped(max, op, st, i);
    }
  }

  /** Such a run: the sweep saw the request creating, the start adopted its sandbox, the sweep then wrote. */
  lemma SweepForgetsRunningSandbox(max: nat) returns (adopted: seq<Step>, swept: seq<Step>)
    requires max >= 1
    ensures ValidRun(max, Created(1, "e2b-1", false), adopted)
    ensures var running := After(max, Created(1, "e2b-1", false), adopted);
      && running.record.status == Running && running.record.sandboxId == "sandbox"
      && ValidRun(max, running, swept)
      && After(max, running, swept).record.status == Queued
      && After(max, running, swept).record.sandboxId == ""
  {
    hide ValidRun, After;
    var start := Created(1, "e2b-1", false);
    var ops := [OpBeginCreating("w", None), OpAdopt("sandbox", 7, None)];
    var creating := start.record.(version := 1, status := Creating, leaseOwner := "w");
    assert ops[1..] == [OpAdopt("sandbox", 7, None)];
    assert Scripted(max, start.record, ops) == Scripted(max, creating, [OpAdopt("sandbox", 7, None)]);
    adopted := ScriptIsARun(max, start, ops, 0);
    var running := After(max, start, adopted);
    swept := ScriptIsARun(max, running, [OpRetryOrFail(CreateTimeout, Error(NetworkError, true, false))], 2);
  }

  /**
   And such a run for a late start failure: while the first start waits for its sandbox, a sweep requeues
   the request and a second start adopts another sandbox; then the first start fails and writes.
   */
  lemma LateStartFailureForgetsRunningSandbox(max: nat) returns (adopted: seq<Step>, failed: seq<Step>)
    requires max >= 2
    ensures ValidRun(max, Created(1, "e2b-1", false), adopted)
    ensures var running := After(max, Created(1, "e2b-1", false), adopted);
      && running.record.status == Running && running.record.sandboxId == "second"
      && ValidRun(max, running, failed)
      && After(max, running, failed).record.status == Queued
      && After(max, running, failed).record.sandboxId == ""
  {
    hide ValidRun, After, Scripted;
    var start := Created(1, "e2b-1", false);
    var ops := SecondAdoption(max, start.record);
    adopted := ScriptIsARun(max, start, ops, 0);
    var fail := OpFailStart(SandboxStart, Error(NetworkError, true, false), None);
    var running := After(max, start, adopted);
    ScriptedStep(max, running.record, fail, []);
    ScriptedEnds(max, Plan(max, fail, running.record)[0].next.(version := running.record.version + 1));
    failed := ScriptIsARun(max, running, [fail] + [], 4);
  }

  lemma SecondAdoption(max: nat, st: Record) returns (ops: seq<Op>)
    requires max >= 2 && st == Created(1, "e2b-1", false).record
    ensures |ops| == 4 && Scripted(max, st, ops).Some?
    ensures var end := Scripted(max, st, ops).value; end.status == Running && end.sandboxId == "second" && end.retryCount == 1
  {
    hide Scripted;
    var e := Error(NetworkError, true, false);
    var begin, sweep, adopt := OpBeginCreating("w", None), OpRetryOrFail(CreateTimeout, e), OpAdopt("second", 9, None);
    ops := [begin] + ([sweep] + ([begin] + ([adopt] + [])));
    var creating := st.(version := 1, status := Creating, leaseOwner := "w");
    var queued := ApplyFailure(max, creating, CreateTimeout, e).next.(version := 2);
    var again := queued.(version := 3, status := Creating, leaseOwner := "w");
    ScriptedStep(max, st, begin, [sweep] + ([begin] + ([adopt] + [])));
    ScriptedStep(max, creating, sweep, [begin] + ([adopt] + []));
    ScriptedStep(max, queued, begin, [adopt] + []);
    ScriptedStep(max, again, adopt, []);
    ScriptedEnds(max, again.(version := 4, status := Running, sandboxId := "second", pid := 9, leaseOwner := ""));
  }

  // --------------------------------------------------------------- completion

  lemma ExitKeepsCompleted(max: int, op: Op, st: Record, i: nat)
    requires IsExit(op) && i < |Plan(max, op, st)|
    ensures Before(st, Plan(max, op, st), i).status == Completed ==> Plan(max, op, st)[i].next.status == Completed
  {
    hide ExitEnd, Exited, Matches;
  }

  lemma StopEndKeepsStopping(max: int, stopping: Record, job: Job, stop: StopResult, cleanup: CleanupResult, queued: bool, i: nat)
    requires stopping.status == Stopping && 0 < i < |StopEnd(max, stopping, job, stop, cleanup, queued)|
    ensures StopEnd(max, stopping, job, stop, cleanup, queued)[i - 1].next.status == Stopping
  {
  }

  lemma StopKeepsCompleted(max: int, op: Op, st: Record, i: nat)
    requires (op.OpStop? || op.OpFailAndStop?) && i < |Plan(max, op, st)|
    ensures Before(st, Plan(max, op, st), i).status == Completed ==> Plan(max, op, st)[i].next.status == Completed
  {
    hide StopEnd, StopConflicts, FailAndStopEnd;
    if op.OpStop? && i > 1 {
      var stopping := Sourced(Assigned(st, op.job), op.source).(status := Stopping);
      StopEndKeepsStopping(max, stopping, op.job, op.stop, op.cleanup, op.originalQueued, i - 1);
    }
  }

  /** A completed request is moved on only by the two repairs and by a retained registration cleanup. */
  lemma CompletedIsLeftOnlyByRepairs(max: int, op: Op, st: Record, i: nat)
    requires i < |Plan(max, op, st)| && Before(st, Plan(max, op, st), i).status == Completed
    requires Plan(max, op, st)[i].next.status != Completed
    ensures op.OpRetryHistorical? || op.OpReconcileMismatched? || op.OpRetainJitCleanup?
  {
    hide ExitFirst, ExitChecked, ExitConflicted, StopRunner, FailAndStop, ApplyFailure;
    if IsExit(op) {
      ExitKeepsCompleted(max, op, st, i);
    } else if op.OpStop? || op.OpFailAndStop? {
      StopKeepsCompleted(max, op, st, i);
    }
  }

  /** What exempts a retry from the budget. */
  predicate Exempt(op: Op) {
    || ((op.OpFailStart? || op.OpRetryOrFail?) && Defers(op.error.code))
    || (op.OpEnsureStillQueued? && op.lookup.LookupError? && op.lookup.rateLimited)
    || ((IsExit(op) || op.OpStop? || op.OpFailAndStop?) && op.cleanup.CleanupError? && op.cleanup.error.busyCleanup)
  }

  predicate BusyCleanup(cleanup: CleanupResult) { cleanup.CleanupError? && cleanup.error.busyCleanup }

  lemma ExitEndBudget(max: int, stopping: Record, exit: Exit, stop: StopResult, cleanup: CleanupResult)
    ensures var b := ExitEnd(max, stopping, exit, stop, cleanup).budget; (b.Deferred? ==> BusyCleanup(cleanup)) && !b.Reset?
  {
  }

  lemma StopEndBudget(max: int, stopping: Record, job: Job, stop: StopResult, cleanup: CleanupResult, queued: bool, i: nat)
    requires i < |StopEnd(max, stopping, job, stop, cleanup, queued)|
    ensures var b := StopEnd(max, stopping, job, stop, cleanup, queued)[i].budget; (b.Deferred? ==> BusyCleanup(cleanup)) && !b.Reset?
  {
  }

  lemma ExitBudget(max: int, op: Op, st: Record, i: nat)
    requires IsExit(op) && i < |Plan(max, op, st)|
    ensures var b := Plan(max, op, st)[i].budget; (b.Deferred? ==> BusyCleanup(op.cleanup)) && !b.Reset?
  {
    hide ExitEnd, Exited, Matches, Specified;
    ExitEndBudget(max, Exited(Versioned(st, op.exit), op.exit).(status := Stopping), op.exit, op.stop, op.cleanup);
    ExitEndBudget(max, Exited(st, op.exit).(status := Stopping), op.exit, op.stop, op.cleanup);
  }

  lemma StopBudget(max: int, op: Op, st: Record, i: nat)
    requires (op.OpStop? || op.OpFailAndStop?) && i < |Plan(max, op, st)|
    ensures var b := Plan(max, op, st)[i].budget; (b.Deferred? ==> BusyCleanup(op.cleanup)) && !b.Reset?
  {
    hide StopEnd, StopConflicts;
    if op.OpStop? && i > 0 {
      var stopping := Sourced(Assigned(st, op.job), op.source).(status := Stopping);
      StopEndBudget(max, stopping, op.job, op.stop, op.cleanup, op.originalQueued, i - 1);
    }
  }

  /** Only exempt failures retry outside the budget, and only the historical repair resets it. */
  lemma RetriesOutsideTheBudget(max: int, op: Op, st: Record, i: nat)
    requires i < |Plan(max, op, st)|
    ensures Plan(max, op, st)[i].budget.Deferred? ==> Exempt(op)
    ensures Plan(max, op, st)[i].budget.Reset? ==> op.OpRetryHistorical?
  {
    hide ExitFirst, ExitChecked, ExitConflicted, StopRunner, FailAndStop;
    if IsExit(op) {
      ExitBudget(max, op, st, i);
    } else if op.OpStop? || op.OpFailAndStop? {
      StopBudget(max, op, st, i);
    }
  }
}
