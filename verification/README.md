# Verified model of the CI runner control plane

The control plane turns GitHub jobs into sandboxes. This project models its concurrent cores in Dafny and proves
what they guarantee. `dafny verify dfyconfig.toml` checks everything.

Concurrency is modelled by step relations: a state, the steps any party may take next, and lemmas over every finite run
of steps. What the server updates in place is also given as classes and methods, proved against the same functions the
runs are built from. Answers of GitHub, the sandbox service and the database are values passed in; clocks are explicit.

| modules | what they cover |
|---|---|
| `AdmissionLedger`, `AdmissionProtocol`, `CapacityCounters` | runner admission under overlapping attempts, and its reference-counted counters |
| `LifecycleModel`, `LifecycleRuns`, `LifecycleExits`, `LifecycleVerdict`, `LifecycleDecisions`, `LifecycleOperations`, `LifecycleFields`, `LifecycleServer`, `Backoff` | the life of a runner request: every write any operation makes, under versioned writes |
| `TerminalTail`, `TerminalSession`, `TerminalHub`, `TerminalReplay`, `TerminalBaseline`, `TerminalIdle` | terminal replay, wake-ups, resume by `Last-Event-ID` (section 9.2.4 of the WHATWG HTML Living Standard), idle closing |
| `RecoveryBudget` | the recovery time budget shared by a worker pool |
| `EpochCache`, `AccessCache`, `LockMap` | epoch-guarded caches with shared loads, and the reference-counted lock map |
| `RunnerVersion`, `VersionCapture` | picking a runner's version out of its output stream |
| `CacheScopes`, `CachePolicy`, `CacheGrants`, `CacheIsolation` | cache scopes, the credential policy, and the object keys it reaches |
| `Basics`, `Sets`, `Text` | shared types, finite set sizes, string helpers |

## What was found

Some statements one would expect of the code are false. Each has a concrete witness and an exact condition.

- The comment that only creating transitions increase in-flight capacity does not hold of the Store's own count: stopping a
  queued or failed request moves it to `stopping`, which is counted (`AdmissionProtocol.StopOfQueuedRequestPassesLimit`,
  `AdmissionProtocol.StoreLoadGrowsExactlyWhen`).
- Deregistration retries can change a verdict. Adopting a sandbox clears the error text of an earlier failed start but not its
  stage, so after a clean exit the request completes if deregistration succeeds at once and fails if it needs a retry
  (`LifecycleVerdict.StaleStageFailsCleanExit`, `LifecycleVerdict.RetriesKeepVerdictExactlyWhen`).
- The sweep's retry and a late start failure can forget a sandbox that is running, the latter only on starts that are not
  Windows ones (`LifecycleExits.SweepForgetsRunningSandbox`, `LifecycleExits.LateStartFailureForgetsRunningSandbox`,
  `LifecycleExits.RetryForgetsSandboxExactlyWhen`, `LifecycleExits.FailedStartForgetsSandboxExactlyWhen`).
- The read and write prefixes told to a runner can differ from its policy's resources. White space and slashes at the ends of the
  configured prefix are stripped when it is kept and again when it is used, but a prefix such as `/ / foo` is kept as
  ` / foo` and used as ` foo`, whose leading blank the policy drops and the runner is told. It happens exactly for kept
  prefixes with white space, slashes and again white space in front of their first word, and for repository names that
  end in white space (`CacheGrants.NestedPrefixIsToldButNotGranted`, `CacheGrants.InjectedPrefixesAreGrantedExactlyWhen`).
  The write prefix differs in the same cases (`CacheIsolation.NestedWritePrefixIsNotGranted`) and for a repository name that is
  empty or ends in a slash (`CacheIsolation.ToldWritePrefixIsGrantedExactlyWhen`).
- The retry delay is not always the base doubled up to the limit: the configuration multiplies seconds into 64-bit nanoseconds and
  the loop doubles them, both unchecked, so a base of 4611686019 and a limit of 4611686020 seconds schedule the second retry in the
  past (`Backoff.OverflowingDelayIsNegative`, `Backoff.ConfiguredDelaysAreExactExactlyWhen`).
- The exit callback's own guard is complete only for a given identity; its callers always give one
  (`LifecycleExits.ExitWithoutIdentityEndsAnyRunner`, `LifecycleExits.ExitGuardIsExact`).

## Model

| member | source | states |
|---|---|---|
| `AdmissionLedger.OperationsKeepConsistent` | internal/server/server_runner_capacity.go:74-208 | observing, reserving and finishing keep the ledger consistent: every live observation knows every reservation held, as pending at its start or as admitted since |
| `AdmissionLedger.AssumedCountsOverlapOnce` | internal/server/server_runner_capacity.go:127-139 | what an attempt assumes beyond the count is one for each reservation that overlapped it, and no more |
| `AdmissionLedger.OperationsKeepApart` | internal/server/server_runner_capacity.go:74-208 | no operation lets an attempt be counted both as pending at an observation and as admitted after it |
| `AdmissionProtocol.CountIsCovered` | internal/server/server_runner_capacity.go:213-275 | a count read from the Store at any moment after observing covers, with the observation, all that is in flight or reserved |
| `AdmissionProtocol.StepKeepsValid` | internal/server/server_runner_capacity.go:74-208 | every step of every attempt and every request end keeps the protocol's invariant |
| `AdmissionProtocol.AssumedCoversLoad` | internal/server/server_runner_capacity.go:141-176 | the load an attempt assumes, stale count plus pending at observe plus started since, is never below the real load |
| `AdmissionProtocol.StepRaisesLoadOnlyToLimit` | internal/server/server_runner_capacity.go:141-176 | a step raises a dimension's load only by admitting one attempt, and then to at most the limit |
| `AdmissionProtocol.AdmissionNeverExceedsLimit` | internal/server/server_runner_capacity.go:74-208 | in every interleaving counted plus reserved-but-unwritten requests stay within the global, profile, account and repository limits, or within what was in flight at the start |
| `AdmissionProtocol.StoreLoadIsLoadPlusStray` | internal/state/runner_requests.go:765-815 | the Store's count exceeds the protocol's by exactly the requests stopped without a creating transition |
| `AdmissionProtocol.StoreLoadGrowsExactlyWhen` | internal/server/server_runner_capacity.go:42-45 | the Store's figure rises exactly on an admission or on a stop of a request that was not in flight |
| `AdmissionProtocol.StopOfQueuedRequestPassesLimit` | internal/server/server_runner_lifecycle.go:1587-1592 | a concrete stop of a queued request that takes the Store's count over the limit |
| `CapacityCounters.CountersGiveAssumed` | internal/server/server_runner_capacity.go:141-176 | snapshot and shared counter of a key compute exactly the load the ledger assumes for it |
| `CapacityCounters.CountersGiveTotal` | internal/server/server_runner_capacity.go:141-149 | the global totals compute exactly the load the ledger assumes for all runners |
| `CapacityCounters.LastReader` | internal/server/server_runner_capacity.go:192-207 | a counter that is deleted has no other live reader |
| `CapacityCounters.QuietCountersAreEmpty` | internal/server/server_runner_capacity.go:178-208 | when no observation is live nothing is pending and no counter is left |
| `CapacityCounters.OverlapOnlyRefuses` | internal/server/server_runner_capacity.go:213-275 | attempts pending at the observation or admitted since only make the check stricter, and an observation that saw neither is decided by the plain comparison of counts with limits |
| `CapacityCounters.VerdictIsTheProtocolsRule` | internal/server/server_runner_capacity.go:141-161 | the decision is the protocol's rule: admitted exactly when every limited dimension that covers the observation has an assumed load below its limit |
| `CapacityCounters.SimpleCheckDecides` | internal/server/server_runner_capacity.go:213-275 | the plain check admits exactly when the global count, and that of every named key with a positive limit, was read and is below its limit; which unread count or reached limit ends an attempt, in order |
| `CapacityCounters.VerdictAsked` | internal/server/server_runner_capacity.go:227-275 | reading the counts and deciding admits exactly when in every dimension whose limit applies the count was read and the assumed load is below the limit |
| `CapacityCounters.CounterTable.Join` | internal/server/server_runner_capacity.go:91-125 | a key's counter is created on demand and otherwise shared, with one reader more |
| `CapacityCounters.CounterTable.Admit` | internal/server/server_runner_capacity.go:162-176 | an admission is counted whether or not the key is limited |
| `CapacityCounters.CounterTable.Leave` | internal/server/server_runner_capacity.go:192-207 | one reader less, the reservation given back, and the entry deleted with its last reader |
| `CapacityCounters.AdmissionCapacity.Observe` | internal/server/server_runner_capacity.go:74-125 | a fresh observation recorded in the ledger, the counters still representing it |
| `CapacityCounters.AdmissionCapacity.AssumedFromCounters` | internal/server/server_runner_capacity.go:127-139 | count plus pending at observe plus started since, read from the counter object the observation holds |
| `CapacityCounters.AdmissionCapacity.Decide` | internal/server/server_runner_capacity.go:141-161 | the first limit that the assumed load reaches, or none |
| `CapacityCounters.AdmissionCapacity.Reserve` | internal/server/server_runner_capacity.go:141-176 | reserves exactly when no limit is reached, and changes nothing otherwise |
| `CapacityCounters.AdmissionCapacity.Grant` | internal/server/server_runner_capacity.go:162-176 | the admission enters the totals and every counter of the observation |
| `CapacityCounters.AdmissionCapacity.Finish` | internal/server/server_runner_capacity.go:178-208 | the observation leaves the ledger and the counters it was the last reader of disappear |
| `CapacityCounters.AdmissionCapacity.ReserveRunnerCapacity` | internal/server/server_runner_capacity.go:213-275 | an admitted attempt found the global count, and that of every named profile, account and repository with a positive limit, read and below its limit; with no other attempt live that is also enough, and the refusing stage is the first limit reached; a count that cannot be read ends the attempt at its stage; every path that does not admit finishes its observation |
| `CapacityCounters.AdmissionCapacity.ReserveObserved` | internal/server/server_runner_capacity.go:227-275 | whatever other attempts did since the observation, the attempt is admitted exactly when every count that applies was read and the load it must assume is below the limit, and otherwise its observation is finished |
| `CapacityCounters.AdmissionCapacity.StartWithCapacity` | internal/server/server_runner_lifecycle.go:417-458 | a start finishes its observation exactly once on every path, refused, written or with its creating write failed; it goes on to create only with room under every limit that applies, and with no other attempt live exactly then, leaving no counter and nothing pending |
| `LifecycleRuns.FailureFollows` | internal/server/server_runner_lifecycle.go:1918-1970 | a recorded failure leaves no sandbox on a requeued record and spends the budget once, saturates it, or fails; `LifecycleDecisions.FailureDecides` says which |
| `LifecycleDecisions.FailureDecides` | internal/server/server_runner_lifecycle.go:1918-1970 | a failure is retried exactly when its error is retryable and either the queue's or within the budget; any other fails the request, which keeps its count and has no retry due; both carry the given stage and code and change nothing else of the request |
| `LifecycleDecisions.FailedStartDecides` | internal/server/server_runner_lifecycle.go:892-922 | when a start's failure and the sweep's retry write at all, and that they then requeue or fail by the same rule |
| `LifecycleDecisions.PermanentErrorsNeverRequeue` | internal/server/server_runner_lifecycle.go:2125-2146 | in every run a start's failure requeues the request exactly when it is one to retry on the record as it then is; a permanent error never does |
| `LifecycleDecisions.StopRetryDecides` | internal/server/server_runner_lifecycle.go:2205-2220 | a stop is tried again exactly when its error is retryable and a retry is left, keeps the sandbox and blames the stop |
| `LifecycleDecisions.CleanupRetryDecides` | internal/server/server_runner_lifecycle.go:2222-2248 | a deregistration is tried again exactly when its error is retryable and a retry is left or the runner is busy, and keeps the stage blamed first |
| `LifecycleDecisions.StopTakesEffectExactlyWhen` | internal/server/server_runner_lifecycle.go:2097-2112 | a stop takes effect exactly on a request that is not completed, for no job, for a job that ran on this runner, for the job assigned, or, on an unassigned runner, for one it cannot have taken unnoticed; it marks the request stopping with that job, and names who stopped it first |
| `LifecycleDecisions.StopSparesOtherJobs` | internal/server/server_runner_lifecycle.go:2097-2112 | a completion of another job, not known to have run here, changes nothing of a runner that is assigned a job |
| `LifecycleDecisions.StopSparesUnknownJobs` | internal/server/server_runner_lifecycle.go:2097-2112 | nor does the completion of the request's own job while the runner has started one that is not known yet |
| `LifecycleDecisions.StopsNeverEndAnotherJob` | internal/server/server_runner_lifecycle.go:1518-1762 | in every run, whoever writes meanwhile, a stop for a job leaves a runner that is assigned another one as it was, unless GitHub names the runner |
| `LifecycleRuns.JobCheckChains` | internal/server/server_workflow_job_queue.go:30-143 | every outcome of the job-status check keeps the record clean, follows the status graph and counts its retry |
| `LifecycleRuns.CleanupRetryFollows` | internal/server/server_runner_lifecycle.go:2222-2248 | a scheduled deregistration retry returns to stopping and counts within the budget, or saturates when the runner is busy |
| `LifecycleRuns.ExitTailChains` | internal/server/server_runner_lifecycle.go:1015-1107 | the same for both writes of an exit callback |
| `LifecycleRuns.StopEndChains` | internal/server/server_runner_lifecycle.go:1593-1762 | the same for every ending of a stop |
| `LifecycleRuns.FailAndStopChains` | internal/server/server_runner_lifecycle.go:1768-1836 | the same for a forced stop |
| `LifecycleRuns.RecoveryChains` | internal/server/server_runner_lifecycle.go:1378-1431 | the same for lease clearing and reconnecting after a restart, and for waking a waiting job |
| `LifecycleRuns.InterruptedChains` | internal/server/server_runner_lifecycle.go:1458-1506 | the same for requeueing an interrupted creation |
| `LifecycleRuns.HistoricalChains` | internal/server/server_workflow_job_queue.go:169-217 | the same for the administrator's historical repair and for completing a failed request whose job completed |
| `LifecycleRuns.MismatchedChains` | internal/server/server_loops.go:306-360 | the same for requeueing a request whose runner took another job |
| `LifecycleRuns.EveryPlanChains` | internal/server/server_runner_lifecycle.go:352-2248 | every write of every operation keeps queued and creating records clean, follows the status graph, and accounts for its retry |
| `LifecycleRuns.WriteFollowsRecord` | internal/state/runner_requests.go:220-294 | a write that passes the version check is a step from the record as it is now, whatever happened since it was read |
| `LifecycleRuns.QueuedAndCreatingNameNoSandbox` | internal/server/server_runner_lifecycle.go:1458-1506 | in every run a queued or creating request has no sandbox id and no process id |
| `LifecycleRuns.RetriesStayWithinBudget` | internal/server/server_runner_lifecycle.go:1918-1970 | in every run the retry count stays within the limit and bounds the budgeted retries written since the last reset, over start, stop, cleanup and job-status paths |
| `LifecycleRuns.RequeuedRequestsAreClaimable` | internal/state/runner_requests.go:825-885 | in every run each successful write follows the status graph, and one that requeues the request leaves no lease to hold up its next claim |
| `LifecycleExits.RetriesOutsideTheBudget` | internal/server/server_runner_lifecycle.go:1932-1963 | only queue-deferring, rate-limited and busy-cleanup failures retry outside the budget, and only the historical repair resets it |
| `LifecycleExits.ExitPlanOwnsItsCopies` | internal/server/server_runner_lifecycle.go:924-1014 | each copy an exit callback extends names the callback's sandbox and process |
| `LifecycleExits.ExitWritesOnlyItsOwnAttempt` | internal/server/server_runner_lifecycle.go:924-1014 | in every run, also across the unlocked busy check, an exit callback changes only a record that still names its sandbox and process, never a queued or creating one |
| `LifecycleExits.ExitGuardIsExact` | internal/server/server_runner_lifecycle.go:933-948 | the callback's first guard protects other runners exactly when it is given an identity |
| `LifecycleExits.ExitWithoutIdentityEndsAnyRunner` | internal/server/server_runner_lifecycle.go:933-948 | a concrete record that a clean exit without an identity would complete under its running runner |
| `LifecycleExits.RetryForgetsSandboxExactlyWhen` | internal/server/server_runner_lifecycle.go:2125-2146 | the sweep's retry forgets an unstopped sandbox exactly when the record names one and is neither completed nor failed |
| `LifecycleExits.FailedStartForgetsSandboxExactlyWhen` | internal/server/server_runner_lifecycle.go:892-922 | a start failure forgets an unstopped sandbox exactly when the record names one, is neither completed nor stopping, and is not closed to a Windows start by its attempt; on every reachable record that means a start that is not a Windows one |
| `LifecycleExits.OthersForgetOnlyStoppedSandboxes` | internal/server/server_runner_lifecycle.go:924-1762 | every other operation forgets a sandbox only after stopping it, by moving a completed request on, or by reconnecting |
| `LifecycleExits.SweepForgetsRunningSandbox` | internal/server/server_loops.go:138-144 | a concrete run in which a create-timeout sweep requeues a request whose sandbox has just been adopted |
| `LifecycleExits.LateStartFailureForgetsRunningSandbox` | internal/server/server_runner_lifecycle.go:892-922 | a concrete run in which a first start fails after a sweep and a second start, and requeues the second one's running sandbox |
| `LifecycleExits.CompletedIsLeftOnlyByRepairs` | internal/server/server_loops.go:253-304 | a completed request is moved on only by the mismatch requeue, the historical repair or a retained registration cleanup |
| `LifecycleFields.EveryPlanKeepsRules` | internal/server/server_runner_lifecycle.go:352-2248 | of every write of every operation: job and runner name never change, a sandbox or an assignment is only what the operation reports or is cleared, who ended a runner, its exit code and version stay until it is queued again, and a lease is taken only by a start |
| `LifecycleFields.RecordNamesOnlyWhatWasReported` | internal/server/server_runner_lifecycle.go:352-2248 | in every run a request keeps its job and runner name, and names only a sandbox that a start or reconnect of the run reported and a job that GitHub reported in it |
| `LifecycleFields.EndingIsKeptUntilRequeued` | internal/server/server_runner_lifecycle.go:1838-1843 | in every run whoever ended a runner first stays named, with exit code and version, until the request is queued again |
| `LifecycleOperations.BeginsExactlyWhen` | internal/server/server_runner_lifecycle.go:432-458 | exactly a queued request begins; its wait for capacity is forgotten and its earlier failure is not; a Windows attempt is later than any before |
| `LifecycleOperations.AdoptsExactlyWhen` | internal/server/server_runner_lifecycle.go:679-708 | exactly a creating request adopts its sandbox, a Windows one only in its own attempt, and what was blamed before stays |
| `LifecycleOperations.DefersExactlyWhen` | internal/server/server_runner_lifecycle.go:2148-2203 | a request is put off exactly by the worker that holds its lease, and then waits without one |
| `LifecycleOperations.JobCheckSays` | internal/server/server_workflow_job_queue.go:50-121 | the job-status check writes exactly for the attempt it was made for; what the record then says of the wait, and that only a failed request blames the check |
| `LifecycleOperations.MarksExactlyWhen` | internal/server/server_runner_lifecycle.go:768-888 | a job in progress or a first sign of one is recorded exactly when it is news to a request that is not over, and changes nothing else |
| `LifecycleOperations.ExitsActExactlyWhen` | internal/server/server_runner_lifecycle.go:924-1014 | when an exit callback writes at each of its three turns, and when it ends the runner |
| `LifecycleOperations.LateExitAddsEvidence` | internal/server/server_runner_lifecycle.go:1133-1165 | a late exit adds a missing version or exit code and decides nothing |
| `LifecycleOperations.ExitRecordsHow` | internal/server/server_runner_lifecycle.go:1015-1077 | before cleanup an exit marks the runner stopping and records how it ended; a clean one blames nothing new |
| `LifecycleOperations.ExitEndDecides` | internal/server/server_runner_lifecycle.go:1027-1131 | for every answer of sandbox and GitHub, whether an exit waits, requeues the request, completes or fails it, and that a sandbox is forgotten only with the requeue |
| `LifecycleOperations.CleanStopDecides` | internal/server/server_runner_lifecycle.go:1652-1762 | how a finished stop ends, by the job it was for, a pending registration cleanup and what was blamed before |
| `LifecycleOperations.LateStopAddsItsJob` | internal/server/server_runner_lifecycle.go:1555-1575 | a stop that finds the request completed only adds its job or result, exactly when that is news |
| `LifecycleOperations.UnfinishedStopDecides` | internal/server/server_runner_lifecycle.go:1593-1651 | a stop that cannot finish is tried again exactly while that is granted, and then fails under its own stage with its sandbox kept |
| `LifecycleOperations.ForcedStopDecides` | internal/server/server_runner_lifecycle.go:1768-1836 | a forced stop is carried out exactly on a request that is not over and still at the expected version, and how it ends for every answer |
| `LifecycleOperations.RetainsExactlyWhen` | internal/server/server_runner_lifecycle.go:2492-2520 | a left-over registration is kept for cleanup exactly when the request is not under way again |
| `LifecycleOperations.RecoveryActsExactlyWhen` | internal/server/server_runner_lifecycle.go:1378-1506 | when recovery frees a lease, reconnects a runner or requeues an interrupted start, and what each leaves on the record |
| `LifecycleOperations.WakesExactlyWhen` | internal/server/server_workflow_job_queue.go:145-167 | a delivery wakes exactly the request that waits for that job, and only makes it due |
| `LifecycleOperations.RepairsActExactlyWhen` | internal/server/server_loops.go:253-430 | when each repair of a completed or failed request applies, and what it leaves on the record |
| `LifecycleVerdict.FirstPassVerdict` | internal/server/server_runner_lifecycle.go:1019-1098 | the status each way of ending a request gives when deregistration succeeds at once |
| `LifecycleVerdict.FirstPassLeavesBlame` | internal/server/server_runner_lifecycle.go:2222-2248 | the stage each way leaves on a request whose deregistration must be retried |
| `LifecycleVerdict.RetriesKeepBlame` | internal/server/server_runner_lifecycle.go:1630-1651 | any number of granted deregistration retries, by sweeps or by webhooks with the request's own job, keeps the request stopping and its blame unchanged |
| `LifecycleVerdict.CleanPassGivesVerdict` | internal/server/server_runner_lifecycle.go:1733-1749 | the pass that deregisters, with no job or the request's own, fails a blamed request and completes any other |
| `LifecycleVerdict.RetriesKeepVerdictExactlyWhen` | internal/server/server_runner_lifecycle.go:1630-1749 | the verdict after any number of retries equals that of an immediate success exactly when the stage on record agrees: always for a stop, for a failed exit and for a forced stop with a blaming stage, and for a clean exit if the record blames nothing |
| `LifecycleVerdict.StaleStageFailsCleanExit` | internal/server/server_runner_lifecycle.go:686-705 | a run that reaches a clean exit with the stage of an earlier failed start still on record |
| `LifecycleVerdict.JobCheckDecides` | internal/server/server_workflow_job_queue.go:30-143 | when the check lets a start go on, completes, fails or requeues the request; waiting leaves the retry count alone and an unusable answer spends one retry |
| `LifecycleVerdict.BusyRunnerIsKept` | internal/server/server_runner_lifecycle.go:976-1012 | while GitHub reports the runner busy, the end of its stream keeps sandbox, process, assignment and retry count, notes the busy runner and marks a job as accepted if none was |
| `LifecycleVerdict.RunnerWithoutJobIsRequeued` | internal/server/server_runner_lifecycle.go:1116-1131 | a runner that ended without a job is requeued while the budget lasts and fails after |
| `LifecycleServer.Store.WriteState` | internal/state/runner_requests.go:220-294 | with any steps of others before it, a copy is stored only over the version it was made from, as the agent's next planned write; a refused write ends the agent |
| `LifecycleServer.Store.Others` | internal/server/server_loops.go:85-110 | what callers may assume of other parties: they take some steps of a run and leave this agent alone |
| `LifecycleServer.Store.ReadState` | internal/server/server_runner_lifecycle.go:1518-1531 | reading the record begins the operation's agent with the writes planned from what was read |
| `LifecycleServer.Server.ApplyFailure` | internal/server/server_runner_lifecycle.go:1918-1970 | the field-by-field edit is the planned failure: requeued exactly for a retryable error that is the queue's or within the budget, failed with its count kept otherwise |
| `LifecycleServer.Server.ScheduleStopRetry` | internal/server/server_runner_lifecycle.go:2205-2220 | schedules exactly when the error is retryable and the budget is not spent, and leaves the copy alone otherwise |
| `LifecycleServer.Server.ScheduleCleanupRetry` | internal/server/server_runner_lifecycle.go:2222-2248 | schedules exactly when the error is retryable and the runner is busy or the budget is not spent; an earlier stage is kept |
| `LifecycleServer.Server.FinishStop` | internal/server/server_runner_lifecycle.go:1652-1762 | makes the writes planned after a successful cleanup, or loses them to a newer version |
| `LifecycleServer.Server.EndStop` | internal/server/server_runner_lifecycle.go:1593-1651 | the same from the stopping write on, with sandbox and deregistration errors |
| `LifecycleServer.Server.StopRunner` | internal/server/server_runner_lifecycle.go:1518-1762 | a whole stop, with other writers between its steps, is an agent of the lifecycle runs: it ends with every write of its plan made or with one refused and the rest lost; it stops the runner it read exactly when the job is none, ran here, is the one assigned, or cannot be one the runner took unnoticed |
| `LifecycleServer.Server.EndExit` | internal/server/server_runner_lifecycle.go:1015-1107 | the same for the end of an exit callback |
| `LifecycleServer.Server.RecordLate` | internal/server/server_runner_lifecycle.go:1133-1165 | an exit seen after cleanup began makes exactly the planned evidence write, or none |
| `LifecycleServer.Server.ExitedFirst` | internal/server/server_runner_lifecycle.go:924-955 | the exit callback up to its unlocked busy check is an agent of the runs, and asks GitHub only about an active record that is its own |
| `LifecycleServer.Server.ExitedChecked` | internal/server/server_runner_lifecycle.go:956-1014 | the exit callback after the check, on a fresh copy, is an agent of the runs; a refused busy write sends it on |
| `LifecycleServer.Server.ExitedConflicted` | internal/server/server_runner_lifecycle.go:996-1010 | the exit callback after a refused busy write is an agent of the runs |
| `LifecycleServer.Server.ExitVerdict` | internal/server/server_runner_lifecycle.go:1027-1107 | the last copy of an exit: status, stage, scheduled retry or requeue without a job |
| `LifecycleServer.Server.FailAndStop` | internal/server/server_runner_lifecycle.go:1768-1836 | the same for a forced stop |
| `LifecycleServer.Server.AdoptStarted` | internal/server/server_runner_lifecycle.go:656-717 | a start sends its exit watcher exactly one identity, the runner's if and only if the record adopted it; a Windows start adopts only into its own attempt |
| `LifecycleServer.Server.AcceptReconnect` | internal/server/server_runner_lifecycle.go:1331-1423 | a reconnect sends exactly one identity, the runner's if and only if the record was still the one decided on and took it |
| `LifecycleServer.ServedRecordKeepsPromises` | internal/server/server_runner_lifecycle.go:352-2248 | whatever these methods and all others do, a queued or creating record names no sandbox and the retry count bounds the retries spent |
| `Backoff.NextRetryDelay` | internal/server/server_runner_lifecycle.go:1972-1985 | for all inputs the loop computes the doublings of its 64-bit width, and never more than the limit |
| `Backoff.ConfiguredDelaysAreExactExactlyWhen` | internal/server/server_runner_lifecycle.go:1972-1985 | for every configured number of seconds, the delay is for all retry counts the smaller of the base doubled once per earlier retry and the limit exactly when the limit fits the 64-bit range, the base is below half of it and no doubling of the base reaches half the range while still below the limit, or a base beyond the range wraps to a duration below half the range and no less than the limit |
| `Backoff.BoundedSecondsAreSafe` | internal/config/config.go:229-230 | a base and a limit of at most 4611686018 seconds, 146 years, meet that condition; so does the default that replaces a number that is not positive |
| `Backoff.OverflowingDelayIsNegative` | internal/config/config.go:461-466 | a base of 4611686019 and a limit of 4611686020 seconds schedule the second retry in the past |
| `Backoff.DelayGrows` | internal/server/server_runner_lifecycle.go:1972-1985 | the delay grows with the retry count and never passes the limit |
| `Backoff.WaitingDelay` | internal/server/server_workflow_job_queue.go:104-113 | for all inputs the loop ends at or below the limit; the wait takes the fewest doublings that pass the queue age or reach the limit exactly when none of them overflows, and is negative otherwise |
| `Backoff.UncappedWaitDoublesAge` | internal/server/server_workflow_job_queue.go:104-113 | after a wait below the limit the age has more than doubled |
| `Backoff.UncappedPollsAreLogarithmic` | internal/server/server_workflow_job_queue.go:104-113 | the base doubled once per full wait stays below the limit, so such waits are logarithmically many, also when deliveries wake the request in between |
| `TerminalTail.AppendRetains` | internal/server/server_terminal.go:200-210 | after any append the buffer is a suffix of the whole output: all of it or at least 64 KiB; it is cut, to exactly 64 KiB, only when it would pass 128 KiB |
| `TerminalTail.ReadServesExactly` | internal/server/server_terminal.go:251-271 | a read serves exactly the output after its cursor or baseline, or nothing |
| `TerminalTail.ReadEndsAtPresent` | internal/server/server_terminal.go:251-271 | what a read serves ends at the offset it reports and starts at the cursor |
| `TerminalTail.RecentCursorIsServed` | internal/server/server_terminal.go:200-210 | a cursor at most 64 KiB behind an open session is always served |
| `TerminalTail.ReadFailsExactlyWhen` | internal/server/server_terminal.go:251-271 | a read fails exactly when the session is closed or its cursor, or without one the baseline, is not retained |
| `TerminalSession.Session.Append` | internal/server/server_terminal.go:200-218 | the tail keeps a suffix and every watcher's channel gets one wake-up unless it is full |
| `TerminalSession.Session.Subscribe` | internal/server/server_terminal.go:220-234 | hands out the retained tail, fixes the replay baseline once and registers a fresh channel, closed if the session is |
| `TerminalSession.Session.Cancel` | internal/server/server_terminal.go:235-246 | leaving closes the channel once and stamps idleness with the last watcher |
| `TerminalSession.Session.OutputAfter` | internal/server/server_terminal.go:251-271 | returns the output after the cursor or baseline and the present offset |
| `TerminalSession.Session.CloseWatchers` | internal/server/server_terminal.go:273-285 | closes every channel and the session, once |
| `TerminalHub.Hub.Add` | internal/server/server_terminal.go:97-111 | a new session enters the hub open and unwatched |
| `TerminalHub.Hub.CloseSession` | internal/server/server_terminal.go:120-132 | takes the session out, closes all its channels and closes its shell once |
| `TerminalHub.Hub.CloseSessionIfIdle` | internal/server/server_terminal.go:156-174 | takes a session out and closes its shell exactly when it is open, unwatched and idle since the baseline |
| `TerminalBaseline.ClientsShareOneBaseline` | internal/server/server_terminal.go:648-739 | in every run what a client accepted, over evictions, lost writes and resumes, is the whole output from the one baseline all clients share up to its resume id, with no gap or repeat |
| `TerminalReplay.NoWakeupIsLost` | internal/server/server_terminal.go:667-737 | in every run a blocked writer with output beyond its cursor has a queued wake-up or a closed channel |
| `TerminalReplay.WriteServesOrTells` | internal/server/server_terminal.go:672-700 | a writer's read, with a cursor or without, brings the cursor to the present or tells the client the terminal closed, the latter exactly when its starting point cannot be served |
| `TerminalReplay.FailedWritesEndTheStream` | internal/server/server_terminal.go:684-700 | a write that fails ends its stream, whether or not the client got the event |
| `TerminalReplay.HeartbeatsCarryTheCursor` | internal/server/server_terminal.go:702-720 | a heartbeat carries the cursor as its id and no output, and ends the stream only if it fails |
| `TerminalReplay.ClosedTerminalsAreTold` | internal/server/server_terminal.go:721-729 | a writer that finds its channel closed says so and ends, and its client takes nothing of that for output |
| `TerminalReplay.WakeupsAreUsedOneByOne` | internal/server/server_terminal.go:720-735 | each wake-up is used for one read of everything beyond the cursor |
| `TerminalBaseline.BaselineIsFixedOnce` | internal/server/server_terminal.go:220-271 | the baseline is fixed by the first subscription or read, at the oldest output retained, and never moves |
| `TerminalIdle.ShellClosedAtMostOnce` | internal/server/server_terminal.go:97-198 | in every run each shell is closed at most once and only after its session left the hub |
| `TerminalIdle.IdleCloseSawNobody` | internal/server/server_terminal.go:134-174 | a timer closes a session only if every subscription ended before the timer's baseline |
| `TerminalIdle.IdleSessionsAreAttended` | internal/server/server_terminal.go:134-174 | a session in the hub that nobody watches has a timer that would close it, or someone about to set one |
| `RecoveryBudget.EveryRequestGetsItsShare` | internal/server/server.go:407-434 | however long recoveries take within their timeouts, every request gets at least its share of the initial budget and at most thirty seconds, and none starts at or after the deadline |
| `RecoveryBudget.TimeoutIsTheCappedPart` | internal/server/server.go:407-434 | any timeout is positive and at most thirty seconds, and with budget left it is the smaller of thirty seconds and the largest time that all waves still ahead can each have; when there is none |
| `RecoveryBudget.WavesAreEnough` | internal/server/server.go:425-425 | the waves take in every request, and one fewer would not |
| `RecoveryBudget.AvailableIsTheLeast` | internal/server/server.go:411-418 | the time available is within the deadline and the configured total, whichever there are, and is one of them |
| `RecoveryBudget.Dispatch` | internal/server/server.go:343-385 | handing jobs to the first free worker yields a schedule in which each job runs until it is done or its own timeout cuts it off |
| `RecoveryBudget.Recover` | internal/server/server.go:336-385 | refuses exactly when the budget is spent before dispatch; otherwise, on at most four workers, every request starts in time with its share, and takes what it wants or its timeout of at most thirty seconds |
| `EpochCache.ReadsAreFresh` | internal/server/server_user_authorization.go:44-86 | no read returns a load begun before an invalidation that preceded the call; a rechecking read, none that preceded its return |
| `EpochCache.RoundsArePaidByInvalidations` | internal/server/server_user_authorization.go:54-86 | every round after a read's first is matched by an invalidation since that first round |
| `EpochCache.CacheHoldsNothingInvalidated` | internal/server/server_user_authorization.go:205-274 | a cached load began after every invalidation of its account, and the access cache holds at most 512 accounts |
| `EpochCache.WaitersHaveAFlight` | internal/server/server_public_templates.go:29-75 | a waiting reader has a shared load under way, for an epoch that knows every invalidation before its call |
| `EpochCache.StepKeepsReader` | internal/server/server_public_templates.go:29-82 | every step of either cache keeps what each reader may claim about its load |
| `EpochCache.StoredSize` | internal/server/server_user_authorization.go:213-219 | evicting one entry exactly when a new one meets a full cache keeps the bound |
| `EpochCache.CurrentLoadsAreCached` | internal/server/server_user_authorization.go:205-225 | a load is cached exactly when it ends in the epoch it was started for, at the cost of one account of a full cache only; a template load outrun by an invalidation is discarded and its waiters start another round |
| `EpochCache.ReadsLookInTheCache` | internal/server/server_user_authorization.go:44-66 | a read answers from the cache when it can, and its round is otherwise for the current epoch |
| `EpochCache.HandedLoadsAreReturned` | internal/server/server_user_authorization.go:66-86 | a shared load is returned unless the reader rechecks and finds its account invalidated, which starts another round |
| `EpochCache.WaitersShareTheLoad` | internal/server/server_public_templates.go:39-75 | everyone who waits on a load is handed that load, and nobody else is touched |
| `EpochCache.ReadersJoinTheLoadUnderWay` | internal/server/server_public_templates.go:39-75 | a reader joins the load under way for its epoch or starts the only one |
| `EpochCache.RejectedLoadsInvalidate` | internal/server/server_user_authorization.go:263-274 | a load that GitHub rejects invalidates its account exactly while the account is still in the load's epoch; no other failure does |
| `AccessCache.UserAccess.Lookup` | internal/server/server_user_authorization.go:165-183 | answers only unexpired entries, drops an expired one, and tells exactly one caller to refresh an entry that is due |
| `AccessCache.UserAccess.StoreIfCurrent` | internal/server/server_user_authorization.go:205-225 | stores exactly when the epoch is current, evicting one entry exactly when a new one meets a full cache |
| `AccessCache.UserAccess.FinishRefresh` | internal/server/server_user_authorization.go:227-244 | a failed refresh keeps the entry and allows the next one no later than the expiry |
| `AccessCache.UserAccess.Invalidate` | internal/server/server_user_authorization.go:253-261 | forgets the account's entry, raises its epoch by one and touches no other account |
| `AccessCache.UserAccess.InvalidateIfCurrent` | internal/server/server_user_authorization.go:263-274 | the same exactly when the epoch is the expected one |
| `LockMap.OneHolderPerRequest` | internal/server/server_runner_lifecycle.go:2406-2436 | in every run at most one thread holds a request's lock although entries are deleted and recreated |
| `LockMap.EntriesAreExactlyTheRequestsInUse` | internal/server/server_runner_lifecycle.go:2406-2436 | an entry exists exactly while some thread waits for, holds or gives back its lock |
| `LockMap.OnlyTheSameRequestBlocks` | internal/server/server_runner_lifecycle.go:2406-2436 | a waiting thread is blocked only by a holder of the same request |
| `LockMap.StepKeepsCount` | internal/server/server_runner_lifecycle.go:2410-2436 | a lock's reference count is the number of threads that use it |
| `LockMap.StepKeepsShared` | internal/server/server_runner_lifecycle.go:2410-2436 | all threads of a request share the lock object in the map, and requests never share one |
| `LockMap.Locks.EnterRequest` | internal/server/server_runner_lifecycle.go:2410-2421 | finds or makes the entry and takes a reference, as the protocol's step does |
| `LockMap.Locks.AcquireLock` | internal/server/server_runner_lifecycle.go:2423-2423 | a waiting thread takes the free mutex |
| `LockMap.Locks.UnlockLock` | internal/server/server_runner_lifecycle.go:2425-2427 | a holder frees the mutex before it gives its reference back |
| `LockMap.Locks.LeaveRequest` | internal/server/server_runner_lifecycle.go:2428-2433 | gives the reference back and removes the entry with the last one |
| `RunnerVersion.ScanRecognizesVersions` | internal/sandboxrunner/runner.go:309-309 | a left-to-right scan accepts exactly three dotted numbers with an optional suffix |
| `RunnerVersion.ParseFindsVersions` | internal/sandboxrunner/runner.go:737-750 | a line's content gives a version exactly when it is short enough and a version stands between white space |
| `RunnerVersion.TrimSpaceIsInner` | internal/sandboxrunner/runner.go:741-741 | trimming drops white space and nothing else at both ends, and leaves a stretch that begins and ends without any |
| `RunnerVersion.SpacesAreEncodedCharacters` | internal/sandboxrunner/runner.go:741-741 | the bytes trimmed are exactly the UTF-8 encodings of the characters that are white space |
| `RunnerVersion.SuffixesAreSpelled` | internal/sandboxrunner/runner.go:309-309 | a suffix is a dot or dash and at least one more letter, digit, dot or dash |
| `VersionCapture.ChunksDoNotMatter` | internal/sandboxrunner/runner.go:759-789 | feeding two pieces is feeding their concatenation |
| `VersionCapture.AnySplitGivesTheSame` | internal/sandboxrunner/runner.go:759-789 | feeding output in any split gives the same state as one call |
| `VersionCapture.FeedTakesLines` | internal/sandboxrunner/runner.go:766-788 | feeding bytes is taking their complete lines, lines too long to be control lines dropped |
| `VersionCapture.VersionIsTheFirstBeforeTheJob` | internal/sandboxrunner/runner.go:759-804 | the captured version is that of the first valid version line of allowed length before a job-started line, and capture closes exactly on such a line |
| `VersionCapture.VersionLinesGiveTheirVersion` | internal/sandboxrunner/runner.go:791-804 | a line of the marker and a version of up to 256 bytes, white space around it included, gives that version |
| `VersionCapture.CarriageReturnEndsALine` | internal/sandboxrunner/runner.go:766-770 | a carriage return before the line break changes neither what a line says nor its version, and lines over 289 bytes say nothing |
| `VersionCapture.FirstVersionIsUnique` | internal/sandboxrunner/runner.go:791-804 | at most one version fits that description |
| `VersionCapture.LaterBytesKeepTheVersion` | internal/sandboxrunner/runner.go:796-798 | later bytes cannot change a captured version |
| `VersionCapture.FeedClosed` | internal/sandboxrunner/runner.go:763-765 | once a job started nothing changes any more |
| `VersionCapture.EffectiveVersion.Observe` | internal/sandboxrunner/runner.go:759-789 | the loop's new state is the state after feeding the bytes one by one |
| `VersionCapture.EffectiveVersion.ObserveLineLocked` | internal/sandboxrunner/runner.go:791-804 | one line closes the capture, sets the version if none is set, or changes nothing |
| `CacheScopes.UniqueCacheScopes` | internal/server/server_runner_lifecycle.go:208-223 | the loop lists the normalized scopes once each, in order |
| `CacheScopes.UniqueListsEachOnce` | internal/server/server_runner_lifecycle.go:208-223 | no scope is listed twice and exactly the normalized non-blank ones are listed |
| `CacheScopes.UniqueKeepsOrder` | internal/server/server_runner_lifecycle.go:208-223 | scopes are listed in the order they first appear |
| `CacheScopes.WriteScopeIsFirstReadScope` | internal/server/server_runner_lifecycle.go:101-197 | whatever GitHub answers, a write scope is the first read scope |
| `CacheScopes.PullRequestsWriteOnlyTheirOwnScope` | internal/server/server_runner_lifecycle.go:157-179 | a pull request's run writes its own pull request's scope or nothing |
| `CacheScopes.OnlyTrustedRunsWrite` | internal/server/server_runner_lifecycle.go:180-206 | besides pull requests only a trusted event of the repository itself may write; which scope, `CacheScopes.BranchRunsWriteTheirBranch` says |
| `CacheScopes.BranchRunsWriteTheirBranch` | internal/server/server_runner_lifecycle.go:180-206 | a run that is no pull request's writes its own head branch's scope exactly when it is one of the seven trusted events of the repository itself on a named branch, and then reads that scope and, if different, the default branch's; every other one only reads the default branch's |
| `CacheScopes.PullRequestRunsWriteTheirPull` | internal/server/server_runner_lifecycle.go:157-179 | a pull request's run writes the pull request's scope exactly when GitHub describes the pull request in full as the run's own and the repository's, and then reads it, the base branch's and the default branch's, in that order and each once; otherwise it only reads the last |
| `CacheScopes.UnknownRunsReadTheDefault` | internal/server/server_runner_lifecycle.go:125-148 | without a run to ask about, a request only reads the default branch's scope |
| `CacheScopes.NoDefaultBranchNoCache` | internal/server/server_runner_lifecycle.go:108-155 | where no default branch is known from the run or the repository itself, caching is off |
| `CacheScopes.BranchScopesAreTheBranches` | internal/server/cache_sts.go:65-73 | a branch has one scope by name or by reference, and different ones where the digest tells names apart |
| `CachePolicy.ValidateCachePrefix` | internal/server/cache_sts.go:268-281 | accepts exactly the non-empty prefixes whose components are all named and free of wildcards |
| `CachePolicy.ValidPrefixIsLiteral` | internal/server/cache_sts.go:268-281 | an accepted prefix holds no wildcard and has no slash at either end |
| `CachePolicy.ValidPrefixesAreWordsBetweenSlashes` | internal/server/cache_sts.go:268-281 | a prefix is valid exactly when it is one word, not empty, not a dot or two, without wildcards, or two valid ones with a slash between |
| `CachePolicy.ValidBucketsAreWords` | internal/server/cache_sts.go:82-88 | a bucket's name is a valid prefix of one word without a backslash |
| `CachePolicy.CollectReads` | internal/server/cache_sts.go:117-141 | fails exactly when some named scope is invalid, and otherwise lists one resource and one list pattern per distinct scope, in order |
| `CachePolicy.BuildPolicy` | internal/server/cache_sts.go:103-181 | grants exactly when bucket, prefix and scopes are valid and some scope is readable; resources in order and the write resource if any |
| `CacheGrants.ResourceReachesScope` | internal/server/cache_sts.go:117-141 | a granted resource reaches exactly the object keys below its scope |
| `CacheGrants.PolicyReachesItsScopes` | internal/server/cache_sts.go:103-181 | a granted policy lets a run read exactly the keys below its read scopes, and write exactly those below its own scope, if it has one |
| `CacheGrants.ListsWhatItReads` | internal/server/cache_sts.go:117-156 | the names a run may list are exactly those of the keys it may read, scope by scope |
| `CacheGrants.PullRequestsShareNoKey` | internal/server/cache_sts.go:75-80 | the patterns of two different pull requests match no common object key |
| `CacheGrants.PullRequestAndBranchShareNoKey` | internal/server/cache_sts.go:65-80 | the patterns of a pull request and a branch match no common object key |
| `CacheGrants.PullRequestRunsAreIsolated` | internal/server/cache_sts.go:103-181 | whatever GitHub answers for two workflows, no object key matches both the writable resource of a pull request's policy and a readable resource of the policy of anything but that pull request |
| `CacheIsolation.RepositoriesAreIsolated` | internal/server/cache_sts.go:103-181 | for repositories named owner/name without trailing white space, no object key is granted, to read or to write, by policies of two different ones, even of one storage and bucket |
| `CacheIsolation.HeadIsShared` | internal/server/server_runner_lifecycle.go:627-632 | the policies of one storage put the same text before every such repository's name, whatever prefix was kept |
| `CacheScopes.DecisionsReadTheirOwn` | internal/server/server_runner_lifecycle.go:101-197 | a decision reads its own pull request's scope and scopes of branches, nothing else |
| `CacheGrants.WriteResourceIsFirstReadResource` | internal/server/cache_sts.go:163-181 | the resource a workflow may write is the first one it may read |
| `CacheGrants.CacheScopePrefixes` | internal/server/server_runner_lifecycle.go:225-235 | the loop lists one prefix per distinct scope, in order |
| `CacheGrants.InjectedPrefixesAreGrantedExactlyWhen` | internal/server/server_runner_lifecycle.go:627-636 | for every configured prefix and repository name, the prefixes told to the runner are those of the policy's read resources in order exactly when the kept prefix is not misread and the name does not end in white space |
| `CacheGrants.MisreadLeavesSpace` | internal/server/cache_service.go:40-43 | the storage's prefix begins with white space exactly when the kept prefix is misread |
| `CacheGrants.NestedPrefixIsToldButNotGranted` | internal/server/server_user_handlers.go:456-465 | a configured prefix that is accepted and kept, and whose told prefixes no resource of the policy names |
| `CacheIsolation.ToldWritePrefixIsGrantedExactlyWhen` | internal/server/server_runner_lifecycle.go:636-648 | the write prefix told to the runner is the one its write resource names exactly when the read prefixes agree and the repository's name is neither empty nor ends in a slash |
| `CacheIsolation.NestedWritePrefixIsNotGranted` | internal/server/server_runner_lifecycle.go:636-648 | for the same accepted prefix, the write prefix told to the runner is not the one its write resource names |
| `CacheGrants.BaseAgreesExactlyWhenTidy` | internal/server/server_runner_lifecycle.go:225-235 | for any base at all, told and granted prefixes agree exactly when it has no surrounding white space and no leading slash |

## Left out

- HTTP handlers, routing, JSON, cookies, OAuth, webhook signatures, metrics, logging, audit and the user interface: easy members only.
- The GitHub and sandbox clients: their answers are parameters.
- Closing the whole terminal hub at shutdown: it is a step of `TerminalIdle`, not a method of the hub class.
- SQL: the Store is modelled as one versioned record with linearizable reads, writes, claims and counts.
- Counter widths: admission counters, offsets, epochs, versions and reference counts are unbounded; `Backoff` models the 64-bit duration.
- Admission keys: trimming and lower-casing of repository and profile names; the three counter maps are one map with tagged keys.
- Classification of error texts: an error arrives as a class, retryable or not, and as a busy-runner refusal or not.
- Request fields that decide nothing modelled: timestamps, messages, sandbox configuration and retained job results. Where a timestamp
  or a retained result guards a write, its outcome is a parameter of the operation.
- The per-request lock inside lifecycle runs: operations interleave at every read and write, which allows more than the lock does.
- Windows one-time registration and fork sponsorship: only the attempt stamps and the write that leaves a registration cleanup pending are modelled.
- The encoding of terminal output in events: bytes that are not valid UTF-8 are replaced in JSON, which the model does not show.
- SHA-256: the branch digest is any function to 32 hexadecimal characters, so two branches may share a scope.
- `EpochCache.ReadsAreFresh`: for public templates a value may predate an invalidation made after the call began, since readers of that cache do not recheck.
