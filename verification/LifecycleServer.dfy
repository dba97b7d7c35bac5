/**
 The lifecycle operations as the server performs them, field by field on its own copy of the
 record, with other writers between any two of its steps and a write that may fail at every
 turn. Each is proved to be an agent of `LifecycleRuns`: what it does to the store is its
 reading of the record and then, one by one, the writes planned for it.
 */
module LifecycleServer {
  import M = LifecycleModel
  import opened Basics
  import opened LifecycleModel
  import opened LifecycleRuns
  import D = LifecycleDecisions

  /** One request's record. `trace` is history: the steps that led from `start` to the present. */
  class Store {
    const max: int
    ghost const start: State
    var record: Record
    ghost var world: State
    ghost var trace: seq<Step>

    ghost predicate Valid()
      reads this
    {
      record == world.record && ValidRun(max, start, trace) && world == After(max, start, trace)
    }

    /** The agent has read `base` for `op`; `rest` of its writes are left, the next one over `version`. */
    ghost predicate Ready(agent: nat, op: Op, base: Record, rest: seq<Write>, version: nat)
      reads this
    {
      && agent in world.agents
      && var a := world.agents[agent];
      && a.op == op && a.base == base && a.plan == Plan(max, op, base)
      && a.done <= |a.plan| && a.plan[a.done..] == rest && base.version + a.done == version
    }

    /** The agent has made every write of its plan. */
    ghost predicate Finished(agent: nat, op: Op, base: Record)
      reads this
    {
      agent in world.agents && world.agents[agent] == Agent(op, base, Plan(max, op, base), |Plan(max, op, base)|)
    }

    constructor (max: int, record: Record)
      ensures Valid() && this.max == max && this.record == record && world == State(record, map[], 0) && trace == []
    {
      this.max, this.record, start, world, trace := max, record, State(record, map[], 0), State(record, map[], 0), [];
    }

    ghost method Follow(step: Step)
      requires ValidRun(max, start, trace) && world == After(max, start, trace) && Enabled(world, step)
      modifies `world, `trace
      ensures ValidRun(max, start, trace) && world == After(max, start, trace)
      ensures trace == old(trace) + [step] && world == Apply(max, old(world), step)
    {
      hide Apply, Enabled;
      OneStep(max, world, step);
      RunsJoin(max, start, trace, [step]);
      world := Apply(max, world, step);
      trace := trace + [step];
    }

    /**
     Whatever others do meanwhile: any steps of a run but those of the given agent. Callers know no
     more than that; the body names one such step, a worker's claim.
     */
    method Others(ghost agent: nat)
      requires Valid()
      modifies this
      ensures Valid() && old(trace) <= trace
      ensures agent in world.agents <==> agent in old(world.agents)
      ensures agent in world.agents ==> world.agents[agent] == old(world.agents[agent])
    {
      var claimed: bool := *;
      if claimed && record.status == Queued {
        var worker: string := *;
        var now: nat := *;
        record := record.(leaseOwner := worker, lastAttempt := now, version := record.version + 1);
        Follow(Claim(worker, now));
      }
    }

    /** Reads the record for an operation. */
    method ReadState(ghost agent: nat, ghost op: Op) returns (st: Record)
      requires Valid() && agent !in world.agents
      modifies this
      ensures Valid() && old(trace) <= trace && Ready(agent, op, st, Plan(max, op, st), st.version)
    {
      hide Plan;
      Others(agent);
      st := record;
      Follow(Begin(agent, op));
    }

    /**
     Writes a copy only over `version`, the one its owner read or last wrote; the database may fail too.
     The owner keeps that version beside its copy.
     */
    method WriteState(ghost agent: nat, ghost op: Op, ghost base: Record, ghost rest: seq<Write>, st: Record, version: nat)
      returns (ok: bool)
      requires Valid() && Ready(agent, op, base, rest, version) && rest != [] && rest[0].next == st
      modifies this
      ensures Valid() && old(trace) <= trace
      ensures ok ==> record == st.(version := version + 1) && Ready(agent, op, base, rest[1..], version + 1)
      ensures !ok ==> agent !in world.agents
    {
      hide Plan;
      Others(agent);
      var reachable: bool := *;
      ok := reachable && record.version == version;
      ghost var a := world.agents[agent];
      assert a.plan[a.done] == rest[0] && a.plan[a.done + 1..] == rest[1..];
      if ok {
        record := st.(version := version + 1);
      }
      Follow(if ok || record.version != version then WriteNext(agent) else Abandon(agent));
    }
  }

  lemma OneStep(max: int, st: State, step: Step)
    requires Enabled(st, step)
    ensures ValidRun(max, st, [step]) && After(max, st, [step]) == Apply(max, st, step)
  {
    hide Apply, Enabled;
    assert [step][1..] == [];
    assert ValidRun(max, Apply(max, st, step), []);
  }

  /** The one-place channel that tells an exit watcher which runner it watches. */
  class ExitGate {
    var sent: seq<Identity>

    constructor ()
      ensures sent == []
    {
      sent := [];
    }

    method Send(a: Identity)
      requires sent == []
      modifies this
      ensures sent == [a]
    {
      sent := [a];
    }
  }

  class Server {
    const store: Store

    constructor (store: Store)
      ensures this.store == store
    {
      this.store := store;
    }

    method ApplyFailure(copy: Record, stage: Stage, e: Error) returns (st: Record)
      ensures st == M.ApplyFailure(store.max, copy, stage, e).next
      ensures st.status == Queued <==>
        e.retryable && (e.code in {SandboxCapacity, RateLimited, SecondaryRateLimit} || copy.retryCount < store.max)
      ensures st.status != Queued ==> st.status == Status.Failed && st.retryCount == copy.retryCount && !st.retryScheduled
      ensures st.stage == stage && st.reason == Classified(e.code) && st.sandboxId == "" && st.pid == 0
    {
      st := copy.(stage := stage, reason := Classified(e.code), lastError := Failure(e.code), lastErrorRetryable := e.retryable);
      st := st.(leaseOwner := "", sandboxId := "", pid := 0);
      if e.retryable && Defers(e.code) {
        st := st.(status := Queued, runnerVersion := "");
        if st.retryCount < store.max {
          st := st.(retryCount := st.retryCount + 1);
        }
        st := st.(retryScheduled := true);
        return;
      }
      if e.retryable && st.retryCount < store.max {
        st := st.(status := Queued, runnerVersion := "", retryCount := st.retryCount + 1, retryScheduled := true);
        return;
      }
      st := st.(status := Status.Failed, retryScheduled := false);
    }

    method ScheduleStopRetry(copy: Record, e: Error) returns (scheduled: bool, st: Record)
      ensures var w := M.ScheduleStopRetry(store.max, copy, e); scheduled == w.Some? && st == if w.Some? then w.value.next else copy
    {
      st := copy;
      if !e.retryable || st.retryCount >= store.max {
        return false, st;
      }
      st := st.(retryCount := st.retryCount + 1, status := Stopping, stage := StopStage, reason := Classified(e.code));
      st := st.(lastError := Failure(e.code), lastErrorRetryable := true, retryScheduled := true);
      scheduled := true;
    }

    method ScheduleCleanupRetry(copy: Record, e: Error) returns (scheduled: bool, st: Record)
      ensures var w := M.ScheduleCleanupRetry(store.max, copy, e); scheduled == w.Some? && st == if w.Some? then w.value.next else copy
    {
      st := copy;
      if !e.retryable {
        return false, st;
      }
      if e.busyCleanup {
        if st.retryCount < store.max {
          st := st.(retryCount := st.retryCount + 1);
        }
      } else {
        if st.retryCount >= store.max {
          return false, st;
        }
        st := st.(retryCount := st.retryCount + 1);
      }
      st := st.(status := Stopping);
      if st.stage == NoStage {
        st := st.(stage := Cleanup, reason := Classified(e.code));
      }
      st := st.(lastError := Failure(e.code), lastErrorRetryable := true, retryScheduled := true);
      scheduled := true;
    }

    method MarkStopping(copy: Record, job: Job, source: string) returns (st: Record)
      ensures st == Sourced(Assigned(copy, job), source).(status := Stopping)
    {
      st := copy;
      if ShouldRecord(st, job) {
        st := st.(assignedJobId := job.id, assignedJobName := job.name);
      }
      if st.terminationSource == "" {
        st := st.(terminationSource := source);
      }
      st := st.(status := Stopping);
    }

    method MarkExited(copy: Record, exit: Exit) returns (st: Record)
      ensures st == Exited(copy, exit).(status := Stopping)
    {
      st := copy;
      if st.terminationSource == "" {
        st := st.(terminationSource := "process_exit");
      }
      if exit.error {
        st := st.(stage := RunnerExit, reason := ProcessError);
      } else {
        st := st.(exitCode := Some(exit.code));
        if exit.code != 0 {
          st := st.(stage := RunnerExit, reason := ExitedWith(exit.code));
        }
      }
      st := st.(status := Stopping);
    }

    method ExitVerdict(stopping: Record, exit: Exit, stop: StopResult, cleanup: CleanupResult) returns (st: Record)
      ensures st == ExitEnd(store.max, stopping, exit, stop, cleanup).next
    {
      hide M.ApplyFailure;
      st := stopping;
      var sandboxFailed := st.sandboxId != "" && stop.StopError?;
      st := st.(status := if exit.error || sandboxFailed || exit.code != 0 then Status.Failed else Completed);
      if cleanup.CleanupError? {
        var scheduled;
        scheduled, st := ScheduleCleanupRetry(st, cleanup.error);
        if scheduled {
          return;
        }
        if !exit.error {
          st := st.(status := Status.Failed, stage := Cleanup, reason := CleanupFailed);
        }
      }
      var retry := if exit.error then !sandboxFailed && cleanup.Deregistered?
                   else st.status == Completed || (!sandboxFailed && st.stage == RunnerExit);
      if retry && st.workflowJobId != 0 && st.assignedJobId == 0 && st.assignedJobName == "" {
        st := ApplyFailure(st, RunnerExit, Error(ExitedWithoutJob, true, false));
        if st.status == Queued {
          st := st.(terminationSource := "", exitCode := None);
        }
      }
    }

    method ForcedVerdict(stopping: Record, stop: StopResult, cleanup: CleanupResult) returns (st: Record)
      ensures st == FailAndStopEnd(store.max, stopping, stop, cleanup).next
    {
      hide M.ScheduleCleanupRetry;
      st := stopping;
      if st.sandboxId != "" && stop.StopError? {
        st := st.(status := Status.Failed, stage := StopStage, reason := StopFailed);
        return;
      }
      if cleanup.CleanupError? {
        var scheduled;
        scheduled, st := ScheduleCleanupRetry(st, cleanup.error);
        if scheduled {
          return;
        }
        st := st.(stage := Cleanup, reason := CleanupFailed);
      }
      st := st.(status := Status.Failed, leaseOwner := "");
    }

    /** The last write of an operation. */
    method WriteLast(ghost agent: nat, ghost op: Op, ghost base: Record, st: Record, version: nat, ghost budget: Budget)
      returns (ok: bool)
      requires store.Valid() && store.Ready(agent, op, base, [Write(st, budget)], version)
      modifies store
      ensures store.Valid() && old(store.trace) <= store.trace
      ensures ok ==> store.record == st.(version := version + 1) && store.Finished(agent, op, base)
      ensures !ok ==> agent !in store.world.agents
    {
      hide Plan;
      ok := store.WriteState(agent, op, base, [Write(st, budget)], st, version);
      if ok {
        AllWritten(store.world.agents[agent]);
      }
    }

    /** What a stop writes once the sandbox is stopped and the runner deregistered. */
    method FinishStop(ghost agent: nat, ghost op: Op, ghost base: Record, copy: Record, version: nat, job: Job, originalQueued: bool)
      returns (ok: bool)
      requires store.Valid() && store.Ready(agent, op, base, StopCleaned(copy, job, originalQueued), version)
      modifies store
      ensures store.Valid() && old(store.trace) <= store.trace
      ensures if ok then store.Finished(agent, op, base) else agent !in store.world.agents
    {
      hide Plan;
      var st := copy;
      if Mismatch(st, job) {
        ok := FinishMismatched(agent, op, base, st, version, job, originalQueued);
        return;
      }
      if st.reason == JitCleanupPending {
        if st.workflowJobId == 0 {
          st := NoLastError(st.(stage := Registration, status := Status.Failed));
          ok := WriteLast(agent, op, base, st, version, Plain);
          return;
        }
        if originalQueued {
          st := NoLastError(NoFailure(st.(status := Queued, sandboxId := "", pid := 0, leaseOwner := "")));
          ok := WriteLast(agent, op, base, st, version, Plain);
          return;
        }
        st := NoFailure(st);
      }
      if st.stage != NoStage && st.stage != Cleanup {
        st := st.(status := Status.Failed);
      } else {
        st := NoFailure(st.(status := Completed));
      }
      st := NoLastError(st);
      ok := WriteLast(agent, op, base, st, version, Plain);
    }

    /** The ending of a stop whose runner had taken another job. */
    method FinishMismatched(ghost agent: nat, ghost op: Op, ghost base: Record, copy: Record, version: nat, job: Job, originalQueued: bool)
      returns (ok: bool)
      requires Mismatch(copy, job)
      requires store.Valid() && store.Ready(agent, op, base, StopCleaned(copy, job, originalQueued), version)
      modifies store
      ensures store.Valid() && old(store.trace) <= store.trace
      ensures if ok then store.Finished(agent, op, base) else agent !in store.world.agents
    {
      hide Plan;
      var st := RequeueMismatched(copy, originalQueued).next;
      ghost var plan := StopCleaned(copy, job, originalQueued);
      ok := store.WriteState(agent, op, base, plan, st, version);
      if !ok {
        return;
      }
      if originalQueued {
        AllWritten(store.world.agents[agent]);
        return;
      }
      st := NoLastError(NoFailure(st.(status := Completed)));
      assert plan[1..] == [Write(st, Plain)];
      ok := WriteLast(agent, op, base, st, version + 1, Plain);
    }

    /** A stop from the copy it has already marked stopping, up to its end. */
    method EndStop(ghost agent: nat, ghost op: Op, ghost base: Record, copy: Record, version: nat, job: Job,
                   stop: StopResult, cleanup: CleanupResult, originalQueued: bool)
      returns (ok: bool)
      requires store.Valid()
      requires store.Ready(agent, op, base, StopEnd(store.max, copy, job, stop, cleanup, originalQueued), version)
      modifies store
      ensures store.Valid() && old(store.trace) <= store.trace
      ensures if ok then store.Finished(agent, op, base) else agent !in store.world.agents
    {
      hide Plan, StopCleaned;
      var st := copy;
      if st.sandboxId != "" && stop.StopError? {
        var scheduled;
        scheduled, st := ScheduleStopRetry(st, stop.error);
        if !scheduled {
          st := st.(status := Status.Failed, stage := StopStage, reason := StopFailed);
        }
        ok := WriteLast(agent, op, base, st, version, if scheduled then Budgeted else Plain);
        return;
      }
      if cleanup.CleanupError? {
        var scheduled;
        scheduled, st := ScheduleCleanupRetry(st, cleanup.error);
        if !scheduled {
          st := st.(status := Status.Failed, stage := Cleanup, reason := CleanupFailed);
        }
        ok := WriteLast(agent, op, base, st, version,
                        if !scheduled then Plain else if cleanup.error.busyCleanup then Deferred else Budgeted);
        return;
      }
      ok := FinishStop(agent, op, base, st, version, job, originalQueued);
    }

    /**
     A stop requested for a job, or for none. It is agent `agent` of the run: it ends with its whole plan
     written, or with a write refused and the rest of its plan lost.
     */
    method StopRunner(ghost agent: nat, job: Job, resultChanged: bool, source: string, stop: StopResult, cleanup: CleanupResult,
                      originalQueued: bool)
      returns (ok: bool, ghost base: Record)
      requires store.Valid() && agent !in store.world.agents
      modifies store
      ensures store.Valid() && old(store.trace) <= store.trace
      ensures if ok then store.Finished(agent, OpStop(job, resultChanged, source, stop, cleanup, originalQueued), base)
              else agent !in store.world.agents
      ensures ok ==>
        var writes := store.world.agents[agent].plan;
        && (|writes| >= 2 <==>
              && base.status != Completed
              && (|| job.id == 0 || D.RanHere(base, job) || base.assignedJobId == job.id
                  || (base.assignedJobId == 0 && !(base.assignedJobName == JOB_STARTED && base.workflowJobId == job.id))))
        && (|writes| >= 2 ==> D.Marked(base, writes[0].next, job, source))
    {
      hide Plan, StopEnd, StopConflicts, ShouldRecord, Sourced, D.RanHere, D.Marked;
      ghost var op := OpStop(job, resultChanged, source, stop, cleanup, originalQueued);
      var st := store.ReadState(agent, op);
      var version := st.version;
      base := st;
      D.StopTakesEffectExactlyWhen(store.max, st, job, resultChanged, source, stop, cleanup, originalQueued);
      StopIsPlanned(store.max, st, job, resultChanged, source, stop, cleanup, originalQueued);
      if StopConflicts(st, job) || st.status == Completed {
        var changed := resultChanged;
        if !StopConflicts(st, job) && ShouldRecord(st, job) {
          st := st.(assignedJobId := job.id, assignedJobName := job.name);
          changed := true;
        }
        ok := true;
        if changed {
          ok := WriteLast(agent, op, base, st, version, Plain);
        } else {
          AllWritten(store.world.agents[agent]);
        }
        return;
      }
      st := MarkStopping(st, job, source);
      ghost var rest := StopEnd(store.max, st, job, stop, cleanup, originalQueued);
      ok := store.WriteState(agent, op, base, [Write(st, Plain)] + rest, st, version);
      if ok {
        assert ([Write(st, Plain)] + rest)[1..] == rest;
        ok := EndStop(agent, op, base, st, version + 1, job, stop, cleanup, originalQueued);
      }
    }

    /** The end of an exit callback, from the copy whose runner it found gone. */
    method EndExit(ghost agent: nat, ghost op: Op, ghost base: Record, copy: Record, version: nat,
                   exit: Exit, stop: StopResult, cleanup: CleanupResult)
      returns (ok: bool)
      requires store.Valid() && store.Ready(agent, op, base, ExitTail(store.max, copy, exit, stop, cleanup), version)
      modifies store
      ensures store.Valid() && old(store.trace) <= store.trace
      ensures if ok then store.Finished(agent, op, base) else agent !in store.world.agents
    {
      hide Plan, ExitEnd, Exited;
      ghost var plan := ExitTail(store.max, copy, exit, stop, cleanup);
      var st := MarkExited(copy, exit);
      ok := store.WriteState(agent, op, base, plan, st, version);
      if ok {
        st := ExitVerdict(st, exit, stop, cleanup);
        assert plan[1..] == [Write(st, plan[1].budget)];
        ok := WriteLast(agent, op, base, st, version + 1, plan[1].budget);
      }
    }

    /** An exit seen only after cleanup began adds its evidence to the record and decides nothing. */
    method RecordLate(ghost agent: nat, ghost op: Op, ghost base: Record, copy: Record, a: Identity, exit: Exit) returns (ok: bool)
      requires store.Valid() && store.Ready(agent, op, base, LateEvidence(copy, a, exit), copy.version)
      modifies store
      ensures store.Valid() && old(store.trace) <= store.trace
      ensures if ok then store.Finished(agent, op, base) else agent !in store.world.agents
    {
      hide Plan, Matches;
      var st := copy;
      if !Matches(a, st) || (st.status != Stopping && st.status != Completed && st.status != Status.Failed) {
        AllWritten(store.world.agents[agent]);
        return true;
      }
      var changed := false;
      if st.runnerVersion == "" && exit.version != "" {
        st := st.(runnerVersion := exit.version);
        changed := true;
      }
      if !exit.error && st.exitCode.None? {
        st := st.(exitCode := Some(exit.code));
        changed := true;
      }
      if changed {
        ok := WriteLast(agent, op, base, st, copy.version, Plain);
      } else {
        AllWritten(store.world.agents[agent]);
        ok := true;
      }
    }

    /** The exit callback up to where it lets go of the record; `check` says it must ask GitHub first. */
    method ExitedFirst(ghost agent: nat, a: Identity, exit: Exit, stop: StopResult, cleanup: CleanupResult)
      returns (ok: bool, check: bool, ghost base: Record)
      requires store.Valid() && agent !in store.world.agents
      modifies store
      ensures store.Valid() && old(store.trace) <= store.trace
      ensures if ok then store.Finished(agent, OpExitFirst(a, exit, stop, cleanup), base) else agent !in store.world.agents
      ensures check ==> ok && NeedsBusyCheck(exit) && base.status in {Creating, Running} && (Specified(a) ==> Matches(a, base))
    {
      hide ExitTail, LateEvidence, Matches, Specified;
      ghost var op := OpExitFirst(a, exit, stop, cleanup);
      var st := store.ReadState(agent, op);
      base, check := st, false;
      if Specified(a) && !Matches(a, st) {
        AllWritten(store.world.agents[agent]);
        ok := true;
      } else if st.status != Creating && st.status != Running {
        ok := RecordLate(agent, op, base, st, a, exit);
      } else if NeedsBusyCheck(exit) {
        AllWritten(store.world.agents[agent]);
        ok, check := true, true;
      } else {
        ok := EndExit(agent, op, base, Versioned(st, exit), st.version, exit, stop, cleanup);
      }
    }

    /** The exit callback after GitHub answered; `conflicted` says its busy write was refused. */
    method ExitedChecked(ghost agent: nat, a: Identity, exit: Exit, busy: Busy, stop: StopResult, cleanup: CleanupResult)
      returns (ok: bool, conflicted: bool, ghost base: Record)
      requires store.Valid() && agent !in store.world.agents
      modifies store
      ensures store.Valid() && old(store.trace) <= store.trace
      ensures if ok then store.Finished(agent, OpExitChecked(a, exit, busy, stop, cleanup), base) else agent !in store.world.agents
      ensures conflicted ==> !ok && busy.BusyNow?
    {
      hide ExitTail, LateEvidence, Matches;
      ghost var op := OpExitChecked(a, exit, busy, stop, cleanup);
      var st := store.ReadState(agent, op);
      base, conflicted := st, false;
      if !Matches(a, st) {
        AllWritten(store.world.agents[agent]);
        ok := true;
      } else if st.status != Creating && st.status != Running {
        ok := RecordLate(agent, op, base, st, a, exit);
      } else if busy.BusyNow? {
        st := Versioned(st, exit).(status := Running, lastError := ExitBusy, lastErrorRetryable := true);
        if st.assignedJobName == "" {
          st := st.(assignedJobName := JOB_STARTED);
        }
        ok := WriteLast(agent, op, base, st, st.version, Plain);
        conflicted := !ok;
      } else {
        ok := EndExit(agent, op, base, Versioned(st, exit), st.version, exit, stop, cleanup);
      }
    }

    /** The exit callback after its busy write was refused. */
    method ExitedConflicted(ghost agent: nat, a: Identity, exit: Exit, stop: StopResult, cleanup: CleanupResult)
      returns (ok: bool, ghost base: Record)
      requires store.Valid() && agent !in store.world.agents
      modifies store
      ensures store.Valid() && old(store.trace) <= store.trace
      ensures if ok then store.Finished(agent, OpExitConflicted(a, exit, stop, cleanup), base) else agent !in store.world.agents
    {
      hide ExitTail, Matches;
      ghost var op := OpExitConflicted(a, exit, stop, cleanup);
      var st := store.ReadState(agent, op);
      base := st;
      if !Matches(a, st) || (st.status != Creating && st.status != Running) {
        AllWritten(store.world.agents[agent]);
        ok := true;
      } else {
        ok := EndExit(agent, op, base, st, st.version, exit, stop, cleanup);
      }
    }

    /** A forced stop, if the record is still at `expected`, or at any version when that is 0. */
    method FailAndStop(ghost agent: nat, expected: nat, stage: Stage, reason: Reason, stop: StopResult, cleanup: CleanupResult)
      returns (ok: bool, ghost base: Record)
      requires store.Valid() && agent !in store.world.agents
      modifies store
      ensures store.Valid() && old(store.trace) <= store.trace
      ensures if ok then store.Finished(agent, OpFailAndStop(expected, stage, reason, stop, cleanup), base)
              else agent !in store.world.agents
    {
      hide FailAndStopEnd;
      ghost var op := OpFailAndStop(expected, stage, reason, stop, cleanup);
      var st := store.ReadState(agent, op);
      var version := st.version;
      base := st;
      if (expected != 0 && version != expected) || st.status == Completed || st.status == Status.Failed {
        AllWritten(store.world.agents[agent]);
        return true, base;
      }
      if st.terminationSource == "" {
        st := st.(terminationSource := "failure_cleanup");
      }
      st := st.(status := Stopping, stage := stage, reason := reason);
      ghost var plan := Plan(store.max, op, base);
      hide Plan;
      ok := store.WriteState(agent, op, base, plan, st, version);
      if ok {
        st := ForcedVerdict(st, stop, cleanup);
        assert plan[1..] == [Write(st, plan[1].budget)];
        ok := WriteLast(agent, op, base, st, version + 1, plan[1].budget);
      }
    }

    /**
     A start after its sandbox service answered. The watcher is told one identity, once: the
     runner's if the record adopted it, and the empty one on every other path.
     */
    method AdoptStarted(ghost agent: nat, gate: ExitGate, started: Option<Identity>, readable: bool, attempt: Option<nat>)
      returns (adopted: bool, ghost base: Record)
      requires store.Valid() && agent !in store.world.agents && gate.sent == []
      modifies store, gate
      ensures store.Valid() && old(store.trace) <= store.trace && |gate.sent| == 1
      ensures adopted ==>
        && started.Some? && gate.sent[0] == started.value && base.status == Creating
        && store.Finished(agent, OpAdopt(started.value.sandboxId, started.value.pid, attempt), base)
        && store.record.status == Running && store.record.sandboxId == started.value.sandboxId && store.record.pid == started.value.pid
      ensures !adopted ==>
        gate.sent[0] == Identity("", 0) && (agent in store.world.agents ==> store.world.agents[agent].plan == [])
    {
      if started.None? || !readable {
        gate.Send(Identity("", 0));
        base := store.record;
        return false, base;
      }
      ghost var op := OpAdopt(started.value.sandboxId, started.value.pid, attempt);
      var st := store.ReadState(agent, op);
      base := st;
      if st.status != Creating || (attempt.Some? && st.lastAttempt != attempt.value) {
        gate.Send(Identity("", 0));
        return false, base;
      }
      st := st.(status := Running, sandboxId := started.value.sandboxId, pid := started.value.pid, leaseOwner := "");
      adopted := WriteLast(agent, op, base, st, st.version, Plain);
      gate.Send(if adopted then started.value else Identity("", 0));
    }

    /** A reconnect after the sandbox service answered, under the version it was decided on. */
    method AcceptReconnect(ghost agent: nat, gate: ExitGate, expected: nat, found: Option<Identity>, readable: bool)
      returns (adopted: bool, ghost base: Record)
      requires store.Valid() && agent !in store.world.agents && gate.sent == []
      modifies store, gate
      ensures store.Valid() && old(store.trace) <= store.trace && |gate.sent| == 1
      ensures adopted ==>
        && found.Some? && gate.sent[0] == found.value && base.version == expected && base.status in {Creating, Running}
        && store.Finished(agent, OpReconnect(expected, found.value.sandboxId, found.value.pid), base)
        && store.record.status == Running && store.record.sandboxId == found.value.sandboxId && store.record.pid == found.value.pid
      ensures !adopted ==>
        gate.sent[0] == Identity("", 0) && (agent in store.world.agents ==> store.world.agents[agent].plan == [])
    {
      var accept := Identity("", 0);
      adopted, base := false, store.record;
      if found.Some? && readable {
        ghost var op := OpReconnect(expected, found.value.sandboxId, found.value.pid);
        var st := store.ReadState(agent, op);
        base := st;
        if st.version == expected && (st.status == Creating || st.status == Running) {
          st := NoFailure(st.(status := Running, sandboxId := found.value.sandboxId, pid := found.value.pid, leaseOwner := ""));
          st := st.(lastError := NoError, lastErrorRetryable := false);
          adopted := WriteLast(agent, op, base, st, expected, Plain);
          if adopted {
            accept := found.value;
          }
        }
      }
      gate.Send(accept);
    }
  }

  lemma AllWritten(a: Agent)
    requires a.done <= |a.plan| && a.plan[a.done..] == []
    ensures a.done == |a.plan|
  {
    assert |a.plan[a.done..]| == |a.plan| - a.done;
  }

  lemma StopIsPlanned(max: int, st: Record, job: Job, resultChanged: bool, source: string, stop: StopResult, cleanup: CleanupResult, q: bool)
    ensures Plan(max, OpStop(job, resultChanged, source, stop, cleanup, q), st) == M.StopRunner(max, st, job, resultChanged, source, stop, cleanup, q)
  {
  }

  /** Whatever these operations and all others do to a request, what every run keeps holds of its record. */
  lemma ServedRecordKeepsPromises(store: Store, jobId: int, runnerName: string, rejected: bool)
    requires store.Valid() && store.max >= 0 && store.start == Created(jobId, runnerName, rejected)
    ensures store.record.status in {Queued, Creating} ==> store.record.sandboxId == "" && store.record.pid == 0
    ensures store.world.spent <= store.record.retryCount <= store.max
  {
    hide ValidRun, After;
    QueuedAndCreatingNameNoSandbox(store.max, jobId, runnerName, rejected, store.trace);
    RetriesStayWithinBudget(store.max, jobId, runnerName, rejected, store.trace);
  }
}
