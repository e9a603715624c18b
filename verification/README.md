# kube-phoenix: a verified model

kube-phoenix puts Kubernetes workloads to sleep on a schedule and wakes them again. This project models
its Go backend, and one TypeScript file that must agree with it, in Dafny, and proves what the system
promises. `dafny verify dfyconfig.toml` checks all of it.

| files | what they model |
|---|---|
| `Coordination` | the claim machine and the sleep/wake machine together |
| `SnapshotProtocol`, `SnapshotSafety`, `SnapshotTheorems` | the durable sleep/wake protocol as a machine of single store and cluster calls; the invariant; the results |
| `RunSelection`, `PolicyRunner`, `Counting` | what a run selects; the code of sleep, wake, enforce-sleep and emergency scale, whose every execution is a run of that machine |
| `SchedulerClaims`, `SchedulerTicks`, `Scheduler` | how executions claim a policy; bounded convergence; the scheduler's methods, whose state is always a reachable state of the claim machine |
| `SleepWindows`, `NextTransition`, `WeeklyMinutes`, `CronMigration`, `CronText`, `Sorting`, `Text`, `TextLaws`, `Options` | the window calculus and its helpers |
| `LogStream`, `LogBroker` | live log streaming as a machine, and the ring, broker and drain loop |
| `NodeCordons` | cordons that are owned by a marker, with version-checked updates |
| `Targeting`, `WorkPool`, `WorkerPool` | exceptions and scopes of a run; priority order and waves; the pool of workers |
| `ScheduledExceptions`, `PolicyScopes` | the life cycle of exceptions and the two overlap guards |
| `OverviewStream`, `RateLimiter` | the cluster cache signal with the overview memo; the rate limiter |

A machine is a state, a set of steps with guards, and a function for the next state. A run is any sequence
of enabled steps, so a result about runs covers every interleaving. A store or cluster call is one step and
can be done, not done, or done and still reported as failed; a crash forgets what is only in memory. The
classes follow the code statement by statement. `PolicyRunner.Runner` and `Scheduler.PolicyScheduler` carry
the machine state as a ghost field that is always reachable, so every result about runs holds of them too.

The parts support each other. The sleep/wake machine takes for granted that a policy has no second run in
flight; `Coordination` runs it together with the claim machine and proves that it never has. `Targeting`
decides for each worker of `PolicyRunner` whether it may touch its workload. The results on several policies
hold for any overlap of what they select. `PolicyScopes.PolicyStore.DisjointSelections` says when there is
none: the guard keeps stored apply-mode policies apart, but a manual trigger with the mode override `apply`
(`backend/internal/api/policies.go:280-298`) runs a stored plan-mode policy without asking it.

## What the code does not quite do

Where a promise turned out not to hold in general, the model keeps the code as it is, shows where it fails,
and states the condition under which it holds.

- A policy does not always converge. If the final state write fails, or a claim is made but reported as
  failed, the store says transitioning while the cache does not, and every later claim is refused until the
  cache is reloaded or the process restarts (`SchedulerClaims.FailedFinalWrite`). A reset that was decided on
  a copy of the policy taken during one execution, aged because the timeout was lowered meanwhile, and that
  is written during the next execution leaves the cache showing the intended state and the store unknown
  without any failure (`SchedulerClaims.CrossingReset`). Claims succeed then, but nothing makes one until a
  tick finds drift, the intended state changes or the cache is reloaded. Whatever the ticks find, convergence
  holds exactly when cache and store do not contradict each other (`SchedulerTicks.ConvergesExactly`), and
  apart from these causes and an emergency scale that the cache has not seen they never do
  (`SchedulerClaims.SettledAgrees`). Which contradictions heal, and when, is `SchedulerTicks.SettlesExactly`.
- A node that was unschedulable before a drain can become schedulable: it carries a marker left over from an
  earlier drain, its drain succeeds and its deletion fails (`NodeCordons.Client.DrainAndDeleteNode`).
- The order of exceptions matters exactly when a malformed exception and a force_sleep exception for the same
  workload are active together (`Targeting.OrderMatters`).
- The live log repeats the lines that were saved between subscribing and reading the database
  (`LogStream.NothingMissed`), and a client that subscribes after the close of the broker and does not see the
  final status when it checks again is never told that the execution is over (`LogStream.LiveForever`).
- The guard against overlapping exceptions treats windows as half-open, the query for active ones as closed,
  so both types can be active at a shared end (`ScheduledExceptions.TouchingWindows`), and only there
  (`ScheduledExceptions.BothListedOnlyAtEnds`).
- A window may start and end at the same minute if the two texts differ by a sign
  (`SleepWindows.DistinctTextsSameMinute`, `SleepWindows.SameMinuteExactly`), and the cron migration refuses some daytime pairs that a window
  could stand for (`CronMigration.RefusedInVain`).
- The overview memo is keyed by a fetch time, so two rebuilds in a row at one reading of the clock, and only those, can
  leave a subscriber with an old payload (`OverviewStream.SameReading`).
- Counts add up to the number of items only if every worker reports something (`WorkerPool.ProcessedOnce`).

## Model

| member | source | states |
|---|---|---|
| `SnapshotTheorems.NoBaselineLost` | backend/internal/scaler/workloads.go:44-66 | Over every run of sleep, wake, enforce-sleep, emergency and retention steps, with a crash, a failed call or a call that is done but reports failure anywhere: a workload whose last replica write was our scaling to zero is at zero and has an open row with a positive saved count, which the restorable query finds. |
| `SnapshotTheorems.ZeroedIsLastWrite` | backend/internal/scaler/workloads.go:53-59 | What `zeroed` means: each landed scale-to-zero of ours puts the workload in and nothing else does; each other landed replica write, ours or somebody else's, takes it out and nothing else does; replica counts change by such writes only. |
| `SnapshotTheorems.OneOpenRow` | backend/internal/scaler/policy_scaler.go:180-187 | In every reachable state a policy has at most one open row per kind, namespace and name. |
| `SnapshotTheorems.StepKeepsBaselines` | backend/internal/scaler/workloads.go:31-49 | No step changes the saved count, the already-zero flag, the key or the owner of an open row, and an open row is closed by nothing but a wake or emergency call for that very row. |
| `SnapshotTheorems.ClosedStaysClosed` | backend/internal/store/snapshots.go:72-88 | A closed row never opens again. |
| `SnapshotTheorems.NewRowPrepared` | backend/internal/scaler/workloads.go:31-49 | A row begins as a prepared, open row with the count that its worker had seen, by a landed create call and nothing else. |
| `SnapshotTheorems.AppliedByMark` | backend/internal/store/snapshots.go:25-28 | An open row becomes applied by every landed mark of its own worker, which changes nothing else, and by nothing else. |
| `SnapshotTheorems.AppliedMeansZero` | backend/internal/scaler/workloads.go:53-66 | Over every run: a row that says applied tells the truth, its workload has been at zero since the run began. |
| `SnapshotTheorems.FullWakeRestores` | backend/internal/scaler/policy_scaler.go:267-326 | After any run of failed, crashed and repeated sleeps, wakes and enforce-sleeps of any number of policies, overlapping or not, in which nobody else writes the workload, one finished full wake without errors leaves every workload that no other policy still has to bring back at its original count, and its policy without an open row. |
| `SnapshotTheorems.AwayOnlyAtZero` | backend/internal/scaler/policy_scaler.go:164-326 | At any moment of such a run the workload is at its original count, or at zero with an open row that holds the original count. |
| `SnapshotTheorems.NothingOwed` | backend/internal/scaler/policy_scaler.go:164-326 | When no open row holds a count for it any more, the workload is as it was, whatever policies have slept and woken it at once. |
| `SnapshotTheorems.WakeClosesAll` | backend/internal/scaler/workloads.go:81-151 | A wake that read all open rows and whose workers returned without an error, none held back, has closed every row of its policy. |
| `SnapshotTheorems.PlanWritesNothing` | backend/internal/scaler/workloads.go:40-43 | A worker of a plan-mode run makes no step that changes the cluster or the rows. |
| `SnapshotTheorems.RunCalm` | backend/internal/scaler/policy_scaler.go:164-326 | Such runs keep, for one workload: every open row, of whatever policy, holds its original count or says that it was found at zero, and it differs from its original count only while our last write put it to zero. |
| `SnapshotSafety.StepKeeps` | backend/internal/scaler/workloads.go:26-151 | Every step of the protocol keeps the invariant over rows, the zeroed workloads and all workers in flight. |
| `SnapshotSafety.CallOk` | backend/internal/scaler/workloads.go:44-66 | Each single store or cluster call of a worker keeps the table invariant, for all three answers it can get. |
| `SnapshotSafety.RetainKeeps` | backend/internal/store/executions.go:104-113 | Retention, which deletes executions and their rows, keeps the invariant because it spares executions with open rows. |
| `Coordination.Refines` | backend/internal/scheduler/execution.go:36-104 | The claim machine and the sleep/wake machine run together, with executions that begin while their attempt executes and return before it goes on; every joint run is a run of each, although no run of a policy is checked for when another begins. |
| `Coordination.OneRunPerPolicy` | backend/internal/scheduler/execution.go:36-50 | An execution never begins while another run of its policy is in flight. |
| `Coordination.BaselinesKept` | backend/internal/scheduler/execution.go:36-161 | Over every joint run of ticks, triggers, resets, reloads, emergencies, failing calls and crashes: one open row at most per policy and workload, and each zeroed workload has one that brings it back. |
| `PolicyRunner.Runner.SleepWorkload` | backend/internal/scaler/workloads.go:26-68 | Its calls are a run of the protocol; without error the workload is at zero with its row open and applied, or was already at zero with a prepared row; a new row holds policy, execution and count; when it fails there is no new row, a prepared one, or an applied one of a workload at zero; plan mode changes nothing and reports what it would do. |
| `PolicyRunner.Runner.WakeWorkload` | backend/internal/scaler/workloads.go:81-151 | Its calls are a run of the protocol; a workload that its filter does not let through keeps its replicas; a scaled one has its saved count and its row closed with that count, a skipped one its row closed, marked deleted or, held back, untouched. |
| `PolicyRunner.Runner.HandleExternallyScaled` | backend/internal/scaler/workloads.go:157-184 | A workload that somebody scaled up has its row flagged if that call lands, and is only closed, with the target as restored count, when it is at its target already; otherwise the caller restores it. |
| `PolicyRunner.Runner.ReconcileSnapshotSleep` | backend/internal/scaler/policy_scaler.go:410-475 | Enforce-sleep for one row: gone, held back, down already (then a prepared row becomes applied), or scaled back to zero under the existing row, which is flagged as drifted if that call lands and otherwise unchanged; a workload that its filter does not let through keeps its replicas. |
| `PolicyRunner.Runner.EmergencyScaleWorkload` | backend/internal/api/admin.go:227-259 | One replica first, then the row is closed with one restored replica; a workload whose row cannot be closed counts as scaled and as failed; a row whose workload is gone is marked deleted. |
| `PolicyRunner.Runner.RunPolicySleep` | backend/internal/scaler/policy_scaler.go:164-260 | Only listed workloads in the policy's namespaces that are not protected and that boundary, scope and exceptions let the run touch change replicas; when no error is counted each of them is at zero and recoverable, or was found at zero at first, and has an open row that says so; node actions follow exactly if the filter held nothing back, nothing failed, the run is not narrowed and every unfinished sleep of the policy is selected; counts add up. It stops without a change exactly when the selection cannot be decided, and counts no error of its own when every call succeeds. |
| `PolicyRunner.Runner.RunPolicyWake` | backend/internal/scaler/policy_scaler.go:267-326 | A workload whose row is not chosen, or that an active exception protects when its worker asks, keeps its replicas; when no error is counted every other chosen one is at its saved count; and when all open rows were read and none was held back the policy has no open row left. When every call succeeds and every filter decides, no error is counted. |
| `PolicyRunner.Runner.RunPolicySleepReconcile` | backend/internal/scaler/policy_scaler.go:375-406 | A workload in a protected namespace, or that an active exception holds awake, keeps its replicas; when no error is counted every other one that the policy put to sleep is at zero or gone. |
| `PolicyRunner.Runner.WakeAll` | backend/internal/scaler/policy_scaler.go:286-326 | The loop over the chosen snapshots: exactly their workloads got a worker, those that their worker's filter does not let through and all others keep their replicas, and the counts are the tally of what became of each. |
| `PolicyRunner.Runner.ZeroedRecoverable` | backend/internal/scaler/workloads.go:44-66 | In every valid state of the runner each zeroed workload has an open row with a positive count. |
| `PolicyRunner.Runner.CreateWorkloadSnapshot` | backend/internal/store/snapshots.go:21-23 | The new row, under a fresh id, is in the table unless the call had no effect, also when it reported an error; on success the worker goes on with that id. |
| `PolicyRunner.Runner.MarkSnapshotApplied` | backend/internal/store/snapshots.go:25-28 | The open row that it marks has the phase applied afterwards and is otherwise unchanged, unless the call had no effect; what the worker reports after it. |
| `PolicyRunner.Runner.CloseSnapshot` | backend/internal/store/snapshots.go:72-80 | On success the row is closed by this execution with the restored count; an error leaves open whether it is; the cluster is unchanged. |
| `PolicyRunner.Runner.MarkSnapshotDeletedAtWake` | backend/internal/store/snapshots.go:83-88 | On success the row is marked deleted by this execution and the worker reports a skip; an error leaves open whether it is. |
| `PolicyRunner.Runner.ChooseSnapshots` | backend/internal/scaler/policy_scaler.go:276-296 | A wake takes up exactly the rows in the policy's namespaces whose workload it may touch, or is gone in a wake that is not narrowed to an exception; all of them when no exception is active; each once. |
| `RunSelection.SelectEntries` | backend/internal/scaler/policy_scaler.go:212-219 | A sleep takes up exactly the listed workloads in the policy's namespaces that are not protected and that it may touch, each once, in whatever order; the rest is counted as skipped or held back. |
| `SchedulerClaims.OneExecutionPerPolicy` | backend/internal/scheduler/execution.go:36-50 | However ticks, triggers, exceptions, recovery, resets, reloads and crashes interleave, two executions in flight are for different policies, and a policy is in flight exactly while it has one. |
| `SchedulerClaims.WorkingStore` | backend/internal/store/policies.go:80-95 | With store writes that work no idle policy is left transitioning, and the compare-and-set never refuses an attempt that got into the set in flight. |
| `SchedulerClaims.IdleIsNotTransitioning` | backend/internal/scheduler/execution.go:61-74 | An idle policy is stored as transitioning only if a state write of its last execution failed or its claim was reported as failed although it was made. |
| `SchedulerClaims.EveryExitLeaves` | backend/internal/scheduler/execution.go:36-104 | Claim refused, create failed, success, failure, panic: within seven steps of its own the attempt is out of flight whatever the store answers, and with a working store the policy is not left transitioning. |
| `SchedulerClaims.FinalState` | backend/internal/scheduler/execution.go:108-161 | What an execution leaves in store and cache when the store works: its direction's state if it is ordinary and succeeds, the state it found if it is narrowed and succeeds, unknown if it fails, is interrupted or panics. |
| `SchedulerClaims.FailedFinalWrite` | backend/internal/scheduler/execution.go:277-289 | A failed final write leaves the claim in the store while the cache shows the outcome, and every later claim is refused. |
| `SchedulerClaims.SettledAgrees` | backend/internal/scheduler/execution.go:263-290 | In every reachable state, a policy with no execution, no reset under way, no failed write, no reset that crossed its last execution and no emergency write that the cache has not seen is not stored as transitioning, and its cache shows the stored state or unknown. |
| `SchedulerClaims.CrossingReset` | backend/internal/scheduler/policy_scheduler.go:650-672 | With store writes that all work, a reset that was decided on an aged copy taken during one execution and is written during the next leaves the cache sleeping and the store unknown with nothing under way; the next claim would be accepted. |
| `SchedulerClaims.StepKeeps` | backend/internal/scheduler/execution.go:18-104 | Each lock section and each store call keeps: the set in flight is the policies of the attempts, each once, and a stored claim is held by an attempt or owed. |
| `SchedulerTicks.ConvergesExactly` | backend/internal/scheduler/policy_scheduler.go:438-464 | From an idle policy with a fixed intended state and runs that succeed: past stuck timeout + one tick it is at every tick in its intended state or in an execution that ends in it, whatever drift the ticks find, if and only if cache and store do not contradict each other to begin with. |
| `SchedulerTicks.Converges` | backend/internal/scheduler/policy_scheduler.go:438-464 | The bound for every schedule of ticks and durations and everything the ticks may find, with all corrections of drift and retries of targeted exceptions. |
| `SchedulerTicks.OnlyDriftDisturbs` | backend/internal/scheduler/policy_scheduler.go:470-595 | Once the first transition is over (stuck timeout + two ticks + one execution), the policy is in its intended state, unless a tick less than one execution ago asked for a correction. |
| `SchedulerTicks.SettlesExactly` | backend/internal/scheduler/policy_scheduler.go:438-595 | For given findings, the policy settles down if and only if cache and store are consistent to begin with, or it is not stored as transitioning and some tick asks for a correction. |
| `SchedulerTicks.ConvergesSoon` | backend/internal/scheduler/policy_scheduler.go:613-618 | If the cached state is not transitioning, five minutes of backoff are enough. |
| `SchedulerTicks.RetriesAfterFailure` | backend/internal/scheduler/policy_scheduler.go:613-618 | An ordinary execution that failed is tried again by the first tick that comes five minutes after its end or later, and by none before, whatever the ticks find. |
| `SchedulerTicks.RecoversFromFailures` | backend/internal/scheduler/policy_scheduler.go:438-464 | Executions may fail and panic as long as they like: once those that start succeed, the policy settles down within the last failure, five minutes, and the stuck timeout with one tick. |
| `SchedulerTicks.NotWoken` | backend/internal/scheduler/policy_scheduler.go:676-683 | Without automatic waking a policy that should be awake is never woken by a tick. |
| `SchedulerTicks.StaysUntouched` | backend/internal/scheduler/policy_scheduler.go:470-480 | In its intended state a policy is left alone for as long as no targeted exception is active and there is no drift, its query fails, or the setting for it is off. |
| `SchedulerTicks.DriftCorrected` | backend/internal/scheduler/policy_scheduler.go:521-595 | With the setting on, five minutes after the last correction and no targeted exception due, drift or rows left to restore start an execution, narrowed when an exception keeps the policy awake against its windows. |
| `SchedulerTicks.ExceptionRetried` | backend/internal/scheduler/policy_scheduler.go:484-512 | The first targeted exception in the list that has not been tried for five minutes is tried, before any drift is looked at. |
| `Scheduler.PolicyScheduler.ConvergesWhenSettled` | backend/internal/scheduler/policy_scheduler.go:438-464 | From every valid state of the scheduler a settled policy is, past the bound, at every tick in its intended state or in an execution that ends in it, without any assumption on its states, clocks and drift. |
| `SchedulerTicks.Starves` | backend/internal/scheduler/policy_scheduler.go:453-463 | A contradiction between cache and store lasts at every tick if the store says transitioning, since every claim is refused, or as long as no tick asks for a correction, since nothing is started. |
| `SchedulerClaims.StuckTimeout` | backend/internal/scheduler/policy_scheduler.go:635-646 | At least 15 minutes, and longer than the execution timeout of the policy. |
| `Scheduler.PolicyScheduler.ClaimTransition` | backend/internal/scheduler/execution.go:18-34 | Claims exactly a policy that is not transitioning; on success store and cache say transitioning; on failure the cache is as before. |
| `Scheduler.PolicyScheduler.Run` | backend/internal/scheduler/execution.go:36-104 | Which of in flight, refused, create failed and started happens, and the whole new state for each. |
| `Scheduler.PolicyScheduler.ExecuteAndFinalize` | backend/internal/scheduler/execution.go:108-161 | Unknown in the cache after a failure, an interruption or a panic, and otherwise the state of the direction, or the baseline of a narrowed execution; the same in the store if that write lands; backoff recorded or cleared; out of flight. |
| `Scheduler.PolicyScheduler.CreateOrRollBack` | backend/internal/scheduler/execution.go:60-76 | A failed create stores and caches unknown and leaves the set in flight. |
| `Scheduler.PolicyScheduler.ResetStuckTransition` | backend/internal/scheduler/policy_scheduler.go:650-672 | Resets exactly a claim without execution that is older than the stuck timeout. |
| `Scheduler.PolicyScheduler.EvaluatePolicy` | backend/internal/scheduler/policy_scheduler.go:438-464 | It acts as decided, with the reconciliation of targeted exceptions and drift; with working calls one evaluation is one tick of the timed model. |
| `Scheduler.PolicyScheduler.ReconcilePolicy` | backend/internal/scheduler/policy_scheduler.go:470-595 | Which correction is due for a policy in its intended state: the first targeted exception past its backoff, then restorable rows while awake or drift while asleep, with the settings and the backoff; the attempt is recorded. |
| `Scheduler.PolicyScheduler.FollowPlan` | backend/internal/scheduler/policy_scheduler.go:402-464 | Ticks at any times with executions that end at any times: the methods, one after another, leave exactly the view that the timed model computes. |
| `Scheduler.PolicyScheduler.RecoverInterruptedState` | backend/internal/store/ownership.go:47-65 | After startup recovery no policy is transitioning and the others are unchanged. |
| `Scheduler.PolicyScheduler.IdlePolicies` | backend/internal/scheduler/policy_scheduler.go:650-672 | In every valid state of the scheduler an idle policy that owes nothing is not transitioning. |
| `NextTransition.NextTransition` | backend/internal/policy/evaluator.go:102-123 | A returned time is after now, has the other state, and no earlier instant differs from now; no result means that the state never changes. |
| `NextTransition.NextChange` | backend/internal/policy/evaluator.go:102-123 | The same on local times, by the search over the boundary list. |
| `NextTransition.CollectBoundaries` | backend/internal/policy/evaluator.go:132-187 | The list is ascending and holds exactly the boundaries of the days looked at. |
| `NextTransition.ChangeInList` | backend/internal/policy/evaluator.go:132-187 | Every change of state up to the end of the last day looked at is in the list. |
| `NextTransition.SpanChange` | backend/internal/policy/evaluator.go:58-84 | A window opens or closes only at a boundary that it contributes for that day, or at midnight for the day before. |
| `NextTransition.NoneDifferent` | backend/internal/policy/evaluator.go:109-122 | Eight calendar days reach a full week ahead, and what holds for a week holds forever. |
| `NextTransition.ConstantWeek` | backend/internal/policy/evaluator.go:108-110 | A state that does not change for a week never changes. |
| `SleepWindows.ValidateWindow` | backend/internal/policy/windows.go:46-74 | Accepts exactly the valid windows, and for each error the exact condition under which it is the one reported. |
| `SleepWindows.DistinctTextsSameMinute` | backend/internal/policy/windows.go:70-92 | Two different texts can be the same minute: `+5:00` and `05:00` pass validation as start and end, and the window is then read as a full day. |
| `SleepWindows.SameMinuteExactly` | backend/internal/policy/windows.go:70-92 | Two valid texts are the same minute if and only if they are equal up to a sign read as a zero; texts without a sign if and only if they are equal. |
| `SleepWindows.PlainFormSameMinute` | backend/internal/policy/windows.go:76-101 | Every valid text has a plain form of the same minute, which is another text exactly if it has a sign. |
| `SleepWindows.AtoiExactly` | backend/internal/policy/windows.go:76-92 | Which texts are numbers: digits with or without a sign, within 64 bits, and nothing else. |
| `SleepWindows.Evaluate` | backend/internal/policy/evaluator.go:37-54 | Sleeping exactly when some window covers the local time. |
| `SleepWindows.LocalClock` | backend/internal/policy/evaluator.go:37-54 | Days, minutes and days of the week of a local time, which follow one another, from known dates. |
| `WeeklyMinutes.WeeklySleepMinutes` | frontend/src/lib/windowUtils.ts:102-136 | The sorted merge equals the number of pairs of day and minute that the evaluator calls sleeping, for all sets of windows. |
| `WeeklyMinutes.MergeDay` | frontend/src/lib/windowUtils.ts:119-134 | One day's sweep counts the minutes covered by any of its intervals. |
| `WeeklyMinutes.AddWindow` | frontend/src/lib/windowUtils.ts:104-117 | The intervals added for a window cover, on each day, exactly the minutes in which the evaluator finds it. |
| `CronMigration.MigrationKeepsMeaning` | backend/internal/policy/windows.go:108-161 | For fields in range and different times, the returned window is valid and the evaluator finds a minute inside it exactly when the most recent cron event was a sleep event. |
| `CronMigration.SameMeaning` | backend/internal/policy/windows.go:125-153 | The candidate window means the same as the pair if and only if every sleep event is followed by its wake event. |
| `CronMigration.Refused` | backend/internal/policy/windows.go:125-153 | Overnight no pair is refused that a window could stand for; during the day only an extra wake day can cause such a refusal. |
| `CronMigration.RefusedInVain` | backend/internal/policy/windows.go:137-150 | Such a pair exists. |
| `CronMigration.CronsToWindows` | backend/internal/policy/windows.go:108-161 | Returns the window exactly when both texts are of the simple form and the pair is accepted. |
| `CronMigration.ParseDow` | backend/internal/policy/windows.go:192-225 | The distinct days that the field names, in ascending order, or failure exactly when an element is no number. |
| `CronMigration.ParseSingleCron` | backend/internal/policy/windows.go:169-190 | Reads exactly the five-field expressions with two stars. |
| `CronText.CronRoundTrip` | backend/internal/policy/windows.go:169-225 | A printed expression with a list of days and ranges is read to exactly its minute, its hour and these days. |
| `CronText.FieldRoundTrip` | backend/internal/policy/windows.go:192-225 | A printed list of days and ranges is well formed and names exactly the days of its elements, the ends of a range included. |
| `CronText.ListNames` | backend/internal/policy/windows.go:194-220 | A comma-separated field names what either part names, and is well formed if both are. |
| `CronText.StarRoundTrip` | backend/internal/policy/windows.go:192-194 | A star is read as all seven days. |
| `CronMigration.TimeRoundTrip` | backend/internal/policy/windows.go:96-101 | Reading a printed time gives back hour and minute, in range or not. |
| `CronMigration.DaysMatch` | backend/internal/policy/windows.go:126-152 | The day comparison decides acceptance. |
| `LogStream.BacklogComplete` | backend/internal/api/policy_executions.go:188-208 | A client subscribes at one step of any interleaving and reads the database at a later one, also after the end of the execution; if every batch was saved and the database then held at most 5000 lines, what it gets begins with all lines up to the later of the two moments, in order, without gap or repeat. |
| `LogStream.NothingMissed` | backend/internal/api/policy_executions.go:188-217 | If moreover no line is published while its channel is full, database, replay and live lines together miss no published line, and repeat exactly those saved between subscribing and reading. |
| `LogStream.BacklogExact` | backend/internal/api/ws.go:72-86 | Exactly when the backlog is complete in terms of lines read, lines published, the limit of 5000 and the 256 replay slots. |
| `LogStream.LiveClientEnds` | backend/internal/scheduler/broker.go:125-133 | After the execution a live client sees its channel closed exactly if the broker had not closed the execution when it subscribed; otherwise nothing happens to it any more. |
| `LogStream.ClientFinishes` | backend/internal/api/policy_executions.go:188-217 | Once the execution is over, a client that subscribed in time comes to the end by steps of its own, with nothing left in its channel. |
| `LogStream.HistoryIs` | backend/internal/scheduler/execution.go:181-212 | Over every run the history is the published messages in order, numbered from 1, and in the end the database holds all of it if every batch was saved. |
| `LogStream.LateClientServed` | backend/internal/api/policy_executions.go:172-181 | A client that finds the execution over and reads the database gets its lines from the first one on, up to the limit, if every batch was saved, and nothing more can happen to either. |
| `LogStream.LiveForever` | backend/internal/api/policy_executions.go:210-217 | A run in which a client streams forever: it checks the status while the execution runs, subscribes after the close, and checks again before the status is final. |
| `LogStream.StepKeeps` | backend/internal/scheduler/execution.go:181-212 | Every step keeps: at most one batch is unsaved, the database is a prefix, the replay reaches back to what was saved at subscription, also for a client that subscribes after the execution has ended. |
| `LogBroker.DrainLogChannel` | backend/internal/scheduler/execution.go:181-212 | Publishes all lines numbered from 1 and is a run of the protocol; with successful flushes the database has all of them. |
| `LogBroker.ReplayRing.Push` | backend/internal/scheduler/broker.go:37-43 | The ring represents the history with the line appended. |
| `LogBroker.ReplayRing.Snapshot` | backend/internal/scheduler/broker.go:45-52 | The last 256 lines of the history, oldest first. |
| `LogBroker.Broker.Publish` | backend/internal/scheduler/broker.go:105-121 | Every channel that is not full gets the line, and the replay history grows by it. |
| `LogBroker.Broker.Subscribe` | backend/internal/scheduler/broker.go:66-80 | A new empty channel and the replay lines, up to 50 subscribers. |
| `LogBroker.SendReplayAfterDb` | backend/internal/api/ws.go:72-86 | The replay lines newer than the highest database line, in order. |
| `NodeCordons.Client.UndoesOwnCordons` | backend/internal/k8s/cordon.go:36-56 | In every state that the operations can leave behind, whatever other actors do: each write by which the program made a node schedulable followed one of its own that had made the same node unschedulable, with the marker now removed, when the node was schedulable. |
| `NodeCordons.Client.CordonForDrain` | backend/internal/k8s/cordon.go:14-34 | Without faults a schedulable node becomes unschedulable with a fresh marker; no write to a node that is unschedulable; otherwise at most one, with a fresh marker, which is returned also with an error. |
| `NodeCordons.Client.RecoverCordon` | backend/internal/k8s/cordon.go:36-56 | At most removes the given marker; success means that the node does not carry it; it succeeds against up to three conflicts and gives up after four, and retries after nothing else. |
| `NodeCordons.Client.RecoverNodeCordon` | backend/internal/k8s/cordon.go:59-68 | It removes at most the marker that it read, and success means that the node is gone or carries no marker, whatever others did meanwhile. |
| `NodeCordons.Client.DrainNode` | backend/internal/k8s/nodes.go:93-126 | Succeeds without faults and leaves the node unschedulable; writes only its own marker on and off; with one fault anywhere its cleanup succeeds, and a failed drain whose cleanup succeeds leaves the node as schedulable as before. |
| `NodeCordons.Client.DrainAndDeleteNode` | backend/internal/scaler/nodes.go:159-184 | Without faults the node is drained and gone; with one fault anywhere its cleanup succeeds. A node that stays is as schedulable as before, except that an unschedulable node with a leftover marker becomes schedulable when only its deletion fails; the exact condition, a script in which it happens, and what can be left when the process dies at any call. |
| `NodeCordons.Client.RecoverOwnedCordons` | backend/internal/k8s/cordon.go:72-85 | Succeeds without faults; on success no listed node keeps the marker it was listed with, whatever others did; without interference exactly the marked nodes became schedulable. |
| `NodeCordons.Client.DrainAndTakeOver` | backend/internal/k8s/cordon.go:71-85 | A drain and deletion that dies at any call, followed by a new process whose recovery succeeds: without leftover markers and interference every remaining node is as schedulable as before and carries no marker. |
| `NodeCordons.Client.DeleteNode` | backend/internal/k8s/nodes.go:208-219 | Without faults the node is gone; success means that it is; an error may mean it too. |
| `Targeting.KeptExactly` | backend/internal/scaler/targeting.go:11-41 | The filter keeps exactly the offered workloads inside boundary and scope that no exception protects: ordinary sleep spares stay_awake, wake spares force_sleep. |
| `Targeting.OrderMatters` | backend/internal/scaler/targeting.go:45-63 | The effective exception is independent of the order if and only if no malformed exception meets a force_sleep exception for the workload. |
| `Targeting.FilterOrderFree` | backend/internal/scaler/targeting.go:11-41 | Without malformed exceptions reordering changes no result of the filter. |
| `Targeting.EffectiveExceptionType` | backend/internal/scaler/targeting.go:45-63 | force_sleep before stay_awake; an error exactly when a malformed exception comes before every matching force_sleep. |
| `Targeting.FilterEntries` | backend/internal/scaler/targeting.go:11-41 | Returns the kept workloads in order, or an error exactly when the exceptions cannot be read or some workload cannot be decided. |
| `Targeting.FilterWakeSnapshots` | backend/internal/scaler/targeting.go:65-96 | All snapshots without scope and exceptions; otherwise by the live workload and the exceptions read for it, where a deleted workload is closed by a full wake only. |
| `Targeting.KeptSnapshotsExactly` | backend/internal/scaler/targeting.go:65-96 | The snapshots kept are exactly those whose workload the wake may touch, or is gone in a wake that is not narrowed to an exception. |
| `Targeting.DecidesRight` | backend/internal/store/targeting.go:29-68 | The decision for one workload is the conjunction of boundary, scope and protection. |
| `Targeting.MatchesExactly` | backend/internal/store/targeting.go:29-68 | When an exception matches a workload, by what its namespaces and its targets each narrow, and when it is malformed. |
| `TextLaws.CsvSetLaw` | backend/internal/stringutil/stringutil.go:8-34 | A comma-separated list names its elements without the white space around them, and nothing for an empty one. |
| `WorkPool.SortByPriority` | backend/internal/scaler/scaler.go:225-240 | Buckets and rest together are the stable sort by rank. |
| `WorkPool.SortByPriorityNamespaces` | backend/internal/scaler/scaler.go:243-249 | A permutation in which nothing comes after something that the list names later or not at all, and the items of one namespace, and those of namespaces not listed, keep their order; unchanged when the list names nothing. |
| `WorkPool.ParsePriorityList` | backend/internal/scaler/scaler.go:200-220 | Maps each namespace of the list to the place of its first occurrence. |
| `WorkPool.ChunkSnapshots` | backend/internal/scaler/waves.go:46-59 | The waves together are the snapshots, and all but the last are full. |
| `WorkerPool.Bounded` | backend/internal/scaler/policy_scaler.go:109-157 | With slots, wait group, workers and reports as separate steps: at most `concurrency` workers run, and nothing of a wave is taken up before the whole wave before has left. |
| `WorkerPool.Ends` | backend/internal/scaler/policy_scaler.go:109-157 | Every run over the items ends after at most six steps for each item and two more, and until then something can go on: no deadlock on slots, wait group or cancellation. |
| `WorkerPool.AllCanBeProcessed` | backend/internal/scaler/policy_scaler.go:109-157 | There is a run of the pool that processes every item, for all numbers of items, wave sizes and limits. |
| `WorkerPool.ProcessedOnce` | backend/internal/scaler/policy_scaler.go:109-157 | When a run that was not cancelled is over, the worker of each item has begun exactly once; the three counts are the items that erred or panicked, that changed and that were passed over, and add up to all items if and only if every worker reported something. |
| `WorkerPool.WholeWake` | backend/internal/scaler/waves.go:17-44 | Priority order, waves and pool together, at every moment: what is under way belongs to one wave of the ordered snapshots, all waves before it have left, and nothing has been taken up while something of an earlier place in the priority list has not. |
| `Sorting.StableUnique` | backend/internal/scaler/scaler.go:225-240 | Two ascending arrangements that agree on every key are equal: what makes bucket order and stable sort the same. |
| `ScheduledExceptions.NeverConflicting` | backend/internal/store/exceptions.go:31-44 | Over every sequence of create, edit, import, tick, rollback, cancel and emergency cancel, no instant lies in the half-open windows of two open exceptions of opposite type on one policy. |
| `ScheduledExceptions.ClosedStaysClosed` | backend/internal/store/exceptions.go:117-151 | Completed and cancelled rows never change again. |
| `ScheduledExceptions.CancelBeatsRollback` | backend/internal/scheduler/exceptions.go:43-60 | A cancel between an activation and its rollback wins, whatever happens before it, in between and later. |
| `ScheduledExceptions.BothListedOnlyAtEnds` | backend/internal/store/exceptions.go:99-106 | Two active exceptions of opposite type are both found at an instant if and only if the later of them begins and the earlier of them ends at it. |
| `ScheduledExceptions.TouchingWindows` | backend/internal/store/exceptions.go:101-104 | It happens: the guard is half-open, the query closed. |
| `ScheduledExceptions.PrecedenceOnlyAtEnds` | backend/internal/scheduler/policy_engine.go:53-68 | Away from ends of windows the precedence of force_sleep decides nothing. |
| `ScheduledExceptions.IntendedExactly` | backend/internal/scheduler/policy_engine.go:45-76 | When the intended state is sleeping, awake or unknown, by the listed exceptions and, without any, the windows. |
| `ScheduledExceptions.ExceptionStore.HasOverlappingException` | backend/internal/store/exceptions.go:31-44 | True exactly when such a row exists. |
| `ScheduledExceptions.OverlapExactly` | backend/internal/store/exceptions.go:31-44 | For windows that are not empty an overlap is an open exception of the other type on the policy and an instant that lies in both windows. |
| `ScheduledExceptions.ExceptionStore.CreateException` | backend/internal/api/exceptions.go:72-119 | Conflict exactly on overlap; otherwise one pending row more; keeps the invariant. |
| `ScheduledExceptions.ExceptionStore.UpdateException` | backend/internal/api/exceptions.go:121-193 | Only pending rows, checked with the edited type and window; keeps the invariant. |
| `ScheduledExceptions.ExceptionStore.UpdateStatus` | backend/internal/store/exceptions.go:117-132 | Compare-and-set on the status. |
| `ScheduledExceptions.ExceptionStore.CancelException` | backend/internal/store/exceptions.go:136-151 | Cancels exactly an open row. |
| `ScheduledExceptions.ExceptionStore.CancelAllOpenExceptions` | backend/internal/store/exceptions.go:14-24 | No row is open afterwards, closed ones are unchanged. |
| `ScheduledExceptions.ExceptionStore.TickExceptions` | backend/internal/scheduler/exceptions.go:17-82 | Each listed exception becomes exactly what its status and times ask for and no other row changes; with a complete list every exception that has begun and can be started is active afterwards and none stays active past its end. |
| `PolicyScopes.PolicyStore.HasApplyPolicyOverlap` | backend/internal/store/policies.go:135-162 | True exactly when another apply-mode policy overlaps. |
| `PolicyScopes.OverlapExactly` | backend/internal/store/policies.go:135-174 | Filters share a namespace if and only if the guard calls them overlapping and both select something. |
| `PolicyScopes.PolicyStore.CreatePolicy` | backend/internal/api/policies.go:101-136 | Keeps scopes of apply-mode policies disjoint; conflict exactly on overlap. |
| `PolicyScopes.PolicyStore.UpdatePolicy` | backend/internal/api/policies_validation.go:83-103 | The same with the final mode and filter of the update. |
| `PolicyScopes.PolicyStore.ImportPolicy` | backend/internal/api/import.go:493-512 | Imports land in plan mode and keep scopes disjoint. |
| `PolicyScopes.PolicyStore.OverwritePolicy` | backend/internal/api/import.go:516-536 | An overwrite takes apply mode away and keeps scopes disjoint. |
| `PolicyScopes.PolicyStore.NamespacesOverlap` | backend/internal/store/policies.go:164-174 | True exactly when the sets intersect. |
| `PolicyScopes.CollectFilteredEntries` | backend/internal/scaler/scaler.go:156-183 | The workloads in scope and not skipped, in order; the rest is counted. |
| `PolicyScopes.PolicyStore.DisjointSelections` | backend/internal/scaler/scaler.go:156-183 | In every state that the operations can leave behind, two stored apply-mode policies never select the same workload. |
| `OverviewStream.NoLostRefresh` | backend/internal/api/overview.go:112-148 | Whenever a subscriber waits with an empty channel and no rebuild is between publish and notify, the last overview it sent was built from a snapshot with the current fetch time, hence from the current snapshot when the clock had moved since the one before. |
| `OverviewStream.SameReading` | backend/internal/api/overview.go:66-68 | For any fetch times, every waiting subscriber has sent the current overview if and only if the last two differ. |
| `OverviewStream.NeverOlderThanMarker` | backend/internal/api/overview.go:61-78 | The memo never hands a caller a payload fetched before the snapshot whose time it read. |
| `OverviewStream.ClusterCache.RebuildSnapshot` | backend/internal/k8s/cache.go:178-192 | Publishes the refreshed snapshot and leaves a signal in every subscriber's channel and in no other. |
| `OverviewStream.ClusterCache.BuildSnapshotFromListers` | backend/internal/k8s/cache.go:196-218 | A failing list keeps its previous value, the fetch time moves unless all lists fail, and if the clock has moved it tells snapshots apart. |
| `OverviewStream.ClusterCache.Notify` | backend/internal/k8s/cache.go:220-229 | Exactly the subscribers' channels hold a signal more. |
| `OverviewStream.ClusterCache.Unsubscribe` | backend/internal/k8s/cache.go:153-162 | Exactly this channel is removed. |
| `OverviewStream.OverviewMemo.OverviewBytes` | backend/internal/api/overview.go:61-78 | Hit or rebuild, the payload is at least as new as the marker that was read. |
| `RateLimiter.Limiter.Allow` | backend/internal/auth/ratelimit.go:32-59 | Refused exactly when the full history has `limit` allowed events in the window that ends now; no interval of that length ever holds more. |
| `RateLimiter.PruneOk` | backend/internal/auth/ratelimit.go:39-45 | What pruning leaves is exactly what the window holds. |
| `RateLimiter.Limiter.Reset` | backend/internal/auth/ratelimit.go:62-66 | Forgets one key and no other. |

## Left out

- SnapshotTheorems.NoBaselineLost: policy deletion and database reset are not steps, because both discard snapshots on purpose; calls are atomic, so a write that a dead process still has under way is not modelled.
- SnapshotTheorems.FullWakeRestores: no emergency scale takes up the workload, because it restores to one replica by design, and no active exception holds a row back in the final wake.
- PolicyRunner.Runner.EmergencyScaleWorkload: the loop over several policies and its per-policy counts are not modelled; emergency scale runs while the scheduler is stopped, and a restart of the scheduler by a settings change meanwhile is not modelled.
- PolicyRunner.Runner.RunPolicySleep: workers of one run take turns in this method, their interleavings are the runs of the protocol; the node actions themselves are modelled with the cordons, here only whether they follow.
- PolicyRunner.Runner.RunPolicyWake: the waves and the concurrency of its workers are the subject of the worker pool; cancellation is the protocol step that aborts a worker.
- Scheduler.PolicyScheduler.EvaluatePolicy: it evaluates a fresh copy of the policy, while the claim machine also covers stale copies; what its queries find is a parameter.
- SchedulerTicks.ConvergesExactly: here an execution that starts succeeds (those that fail are the subject of `SchedulerTicks.RecoversFromFailures`), and nobody triggers or reloads in between.
- NextTransition.NextTransition: the zone has a fixed offset; daylight saving and the zone database are not modelled, nor are fractions of a second.
- CronMigration.ParseDow: a range that ends at the largest 64-bit integer never ends in the source; here it does.
- LogStream.NothingMissed: one client at a time, without the limit of subscribers; sending to the client never fails.
- NodeCordons.Client.DrainPods: listing, evicting and waiting for pods is one call with an outcome.
- NodeCordons.Client.RecoverCordon: other actors do not write the marker annotation; waiting between attempts is not modelled.
- Targeting.FilterWakeSnapshots: the labels of a workload are the same in every read of one run; the exceptions may differ from read to read.
- Targeting.EffectiveExceptionType: selector syntax, selector matching and name syntax are parameters.
- WorkerPool.Bounded: waiting for pods to become ready between waves is not modelled.
- ScheduledExceptions.NeverConflicting: each API handler is one step, as is each store statement; deletion of a policy with its exceptions is not modelled.
- PolicyScopes.PolicyStore.UpdatePolicy: each handler is one step, and label selectors are ignored, as the guard does.
- Coordination.Refines: an emergency scale begins only when nothing is in flight, and no attempt begins before it has ended; all workers of a run have returned before its execution does.
- OverviewStream.NoLostRefresh: the clock does not run backwards; what an overview contains is not modelled.
- HTTP, WebSocket and JSON plumbing, authentication apart from the rate limiter, users, audit log, metrics and dashboards: no state of interest here.
- Node classification, protection of nodes, `computeTimeRangeBlocks` and text formatting of windows: they would add only easy members.
- The scheduler's ownership lock and its lost latch: one process at a time is taken for granted, and a crash ends it.
