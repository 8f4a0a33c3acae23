# lxcup: a Dafny model of its guarded state machines

lxcup is a control plane that changes machines only through guarded state machines. This project models the
parts of it whose correctness is about whole runs, and proves what those runs guarantee. Every result is stated
for all inputs, all call sequences or all reachable states; the few natural claims that turn out false are kept
as such, with the exact condition under which they hold and a concrete input or run that breaks them.

| Area | Modules | Main results |
|---|---|---|
| Worker protocol | `Jobs`, `WorkerProtocol`, `WorkerInvariants`, `WorkerLinks`, `WorkerPlaybooks`, `WorkerSafety`, `WorkerTheorems`, `WorkerOutcome`, `WorkerProgress`, `WorkerTimeouts`, `WorkerResolution`, `WorkerOverlap`, `WorkerWitness`, `Recovery` | no blind re-apply, package updates applied at most once, exactly what is stored at the end of a run, exactly which jobs can still succeed, exactly when a running Apply is stored as Applying, exactly when two Applies can overlap, exactly which unresolved jobs can be resolved, per-target locks, recovery passes agree |
| Recap reading | `Text`, `Numbers`, `Recap`, `RecapWitness` | exactly which outputs, character by character, give each of the three decisions |
| Job coordinator | `Requests`, `Coordinator`, `CoordinatorIntegrity`, `CoordinatorExclusion`, `CoordinatorWitness`, `CoordinatorLog`, `CoordinatorAnswers`, `CoordinatorOnce` | index integrity, the exact guard for mutual exclusion, log replay, final jobs, exactly which answer each call gives, exactly how a failed package update can be applied again |
| Plans and executions | `Sorting`, `Orders`, `Plans`, `Planner`, `Executions`, `ExecutionSafety`, `ExecutionAnswers`, `ExecutionOutcome` | content equality is multiset equality, reviewed plans only, at most one launch per key, repeated starts are answered with the first execution, the first verdict decides |
| Time series | `Clock`, `Alerts`, `AlertOrder`, `Telemetry`, `Schedule` | alert characterisation and bounds, exactly when input order matters, buffer refinement, drift-free slots |
| Secrets | `Secrets`, `SecretLaws`, `SecretRefinement`, `SecretDamage`, `SecretRotation`, `SecretLifecycle` | a run's calls determine each secret, directory stores refine the in-memory store, through any number of master keys |
| Parsing | `Apt`, `AptRoundTrip`, `AptText`, `AptParser`, `EventStream` | printer/parser round trip, said on the characters of the listing; the last line of a key decides; streaming equals batch |

Objects that the source changes in place are classes (`AnsibleJobCoordinator`, `ExecutionCoordinator`,
`TelemetryBuffer`, `JobSchedule`, the secret stores, the job table); each method is proved to compute a pure
function of the old state, and the theorems are about that function. Generated ids, clocks, nonces and what the
outside world answers (playbook output, executor outcome, listing order, acknowledgement of a database write) are
parameters. The worker is a step system: every database write is one step, the process may crash between any two
steps, and a write may be acknowledged, lost, or stored without the worker learning of it. A playbook is a process
that may outlive its run and the worker.

## Findings about the code

- The worker waits 900 seconds for a playbook and never kills it (crates/lxcup-ansible-worker/src/main.rs:266-287 drops
  the future of `Command::output()`, and nothing sets `kill_on_drop`). After a timeout or a crash an Apply runs on while
  its job is stored as unresolved (`WorkerWitness.ApplyRunsUnresolved`); `WorkerTimeouts.ApplyingExactly` gives the exact
  condition. After a failed verdict and a retry a second Apply of the same job can run beside it
  (`WorkerWitness.AppliesOverlap`); `WorkerOverlap.TargetOverlapExactly` says exactly when an Apply that was given up
  can be overtaken on its own target, and `WorkerOverlap.OverlapExactly` when two Applies can run at all.
- A job can be reconciled only once: the table allows one row per target and idempotency key
  (crates/lxcup-persistence/migrations/0006_ansible_jobs.sql:11), the key names the source job alone, and the route
  answers with the row that already holds it (crates/lxcup-server/src/workflows/jobs.rs:486-493). A retried job whose
  second Apply is uncertain too stays unresolved and blocks its target for ever
  (`WorkerWitness.SecondUncertaintyGetsStuck`).
- A `ConfigureTarget` Apply is accepted and stored as `Applying`, but it has no playbook and cannot be reconciled, so it
  ends the same way (`WorkerWitness.ConfigureTargetGetsStuck`, `WorkerResolution.ConfigureTargetNeverEnds`).
  `WorkerResolution.ResolvableExactly` says exactly which unresolved jobs can be resolved.
- The recap total is a `u32` sum and the worker is built with `--release` (deploy/worker.Dockerfile:4), so it wraps:
  two hosts that each report 2147483648 remaining changes settle a job as completed
  (`RecapWitness.WrapAroundHidesChanges`). `Recap.WrongVerdictExactly` states exactly when the verdict is wrong.
- The coordinator does not keep targets exclusive by itself: planning straight from the queue, ending a job while
  another one holds the lock, reconciling through the route for persisted jobs, and reconciling from a stale snapshot
  each lead to two executing jobs (`CoordinatorWitness`). `CoordinatorExclusion.ExclusionKeptExactly` gives the guard a
  caller has to check, and shows that it is exact.
- `retry` refuses a package update that was to be applied (crates/lxcup-ansible/src/lib.rs:653-658), but `transition`
  lets every Failed job back into the queue (lib.rs:96-113 and 594-626), so that a package update can enter Applying
  twice (`CoordinatorOnce.RunAppliesTwice`). No caller in the repository does this. `CoordinatorOnce.FailedStepExactly`
  shows that, short of removing the target, it is the only way, and `CoordinatorOnce.AppliedOnce` that two entries have
  one of the two between them. The worker's own table has no such way (`WorkerTheorems.PackageUpdateAppliedOnce`).
- A carriage return cut from its line feed by a chunk boundary survives normalisation, so a frame end is missed
  (`EventStream.CutPairDiffers`); the exact condition is `EventStream.StreamingIsBatchExactly`.
- Samples that share a timestamp can make alerts depend on input order (`Alerts.TiesAreOrderSensitive`); they do not
  exactly when the two extreme ways of breaking the ties agree (`AlertOrder.OrderFreeExactly`).

## Model

| member | source | states |
|---|---|---|
| Jobs.KeyNamesItsSource | crates/lxcup-ansible/src/lib.rs:20-30 | the source id read from a reconciliation key is `s` if and only if the key is the one made for `s` |
| Jobs.EnteredExactly | crates/lxcup-ansible/src/lib.rs:96-113 | the transition table read by the status that is entered: abortable until Applying, failing once started, succeeding from the plan on, unresolved only from Applying |
| Jobs.OfferedExactly | frontend/workflow-modes.json:1-9 | the mode table read by mode: which operations each of the four is offered for |
| WorkerProtocol.ModeArgsExactly | crates/lxcup-ansible-worker/src/main.rs:309-345 | arguments exist exactly for supported modes and dedicated reconciliations; every other run than an Apply is a dry run, except reading operations and package updates; plans and reconciliations show differences, and there are no other arguments |
| WorkerInvariants.RowMoves | crates/lxcup-ansible-worker/src/main.rs:64-110 | every step, crashes included, writes at most a new queued row or one status move of an existing row, along one of the listed moves; what the end of a run stores is `WorkerOutcome.EndExactly` |
| WorkerInvariants.StepWrites | crates/lxcup-ansible-worker/src/main.rs:147-203 | after any step the table is unchanged or holds exactly the step's one row |
| WorkerInvariants.StepKeepsBase | crates/lxcup-ansible-worker/src/main.rs:147-288 | how far the worker's copy may be ahead of the stored row is kept by every step, and no failed assertion is reached |
| WorkerSafety.StepKeepsTrace | crates/lxcup-ansible-worker/src/execution_support.rs:9-29 | every step keeps the history legal: an Apply start follows no unsettled start, a restart failure follows no start of its attempt |
| WorkerTheorems.StepKeepsRows | crates/lxcup-ansible-worker/src/main.rs:147-203 | no step drops a row, changes more of a job than its status, or rewrites the history |
| WorkerTheorems.RunKeepsInvariant | crates/lxcup-ansible-worker/src/main.rs:64-307 | all invariants hold after every run with crashes and lost writes anywhere |
| WorkerTheorems.NoBlindReapply | crates/lxcup-ansible-worker/src/main.rs:250-307 | between two Apply starts of one job lies a finished reconciliation of that job |
| WorkerTheorems.PackageUpdateAppliedOnce | crates/lxcup-persistence/src/repositories/ansible_jobs.rs:85-143 | the Apply of a package update starts at most once ever |
| WorkerTheorems.ApplyStartsUnderApplying | crates/lxcup-ansible-worker/src/execution_support.rs:9-29 | an Apply playbook starts only while its stored status is Applying |
| WorkerTimeouts.LiveApplyIsApplyingOrGivenUp | crates/lxcup-ansible-worker/src/main.rs:266-287 | an Apply that still runs is waited for and stored as Applying, or the worker gave it up by a timeout, another failure or a crash |
| WorkerOverlap.TargetOverlapExactly | crates/lxcup-ansible-worker/src/main.rs:266-287 | while the worker rests, an Apply that it has given up can still be running when a later Apply runs on the same target, with nothing further given up, if and only if no job of that target is stuck |
| WorkerOverlap.OverlapExactly | crates/lxcup-ansible-worker/src/main.rs:266-287 | as long as nothing further is given up, at most one Apply runs, now and later, if and only if no running Apply has been given up |
| WorkerTimeouts.ApplyingExactly | crates/lxcup-ansible-worker/src/main.rs:266-287 | as long as nothing further is given up, every running Apply is and stays stored as Applying if and only if none of them has been given up |
| WorkerWitness.ApplyRunsUnresolved | crates/lxcup-ansible-worker/src/main.rs:266-287 | a run after which an Apply runs on although its job is stored as unresolved |
| WorkerWitness.AppliesOverlap | crates/lxcup-ansible-worker/src/main.rs:266-287 | a run in which two Apply playbooks of one job run at the same time |
| WorkerTheorems.NoExpectFails | crates/lxcup-ansible-worker/src/main.rs:64-203 | none of the asserted status transitions can fail in any run |
| WorkerTheorems.RestartFailsOnlyUnstarted | crates/lxcup-ansible-worker/src/main.rs:64-110 | a job failed by a restart had not started its Apply since its last claim |
| WorkerTheorems.RecoveryLeavesNothingExecuting | crates/lxcup-ansible-worker/src/main.rs:64-110 | when a recovery completes no stored job is in an executing status |
| WorkerTheorems.TargetsStayLocked | crates/lxcup-persistence/src/repositories/ansible_jobs.rs:167-246 | per target at most one executing and one unresolved job, and beside an unresolved job only its own reconciliation executes |
| WorkerTheorems.StartBesideUnresolved | crates/lxcup-ansible-worker/src/output.rs:115-140 | in every run, a playbook that starts on the target of an unresolved job belongs to a reconciliation whose key names that job and whose loaded source is that job |
| WorkerTheorems.OnlySettlingResolves | crates/lxcup-ansible-worker/src/output.rs:141-174 | an unresolved job changes only by the stored verdict of its own reconciliation, and that verdict enters the history |
| WorkerTheorems.ResolvedMeansClean | crates/lxcup-ansible-worker/src/output.rs:91-106 | below the wrap-around, an unresolved job becomes Succeeded if and only if the recap is undisturbed and all its change counts are zero |
| WorkerTheorems.FailedRunSettlesNothing | crates/lxcup-ansible-worker/src/execution_support.rs:119-139 | after a reconciliation run that failed, its source stays as it is over every continuation that starts no other playbook |
| WorkerOutcome.RunKeepsOutcome | crates/lxcup-ansible-worker/src/main.rs:250-307 | in every run the worker ends an attempt as successful if and only if its playbook exited successfully, its output was logged and a reconciliation stored and logged its verdict |
| WorkerOutcome.EndExactly | crates/lxcup-ansible-worker/src/main.rs:158-203 | the end of a run stores Succeeded exactly in that case; otherwise ReconcileRequired exactly for an Apply that went to Applying, which every Apply stored as Applying has, and Failed for the rest; only a lost write leaves the row |
| WorkerOutcome.SucceedsExactly | crates/lxcup-ansible-worker/src/main.rs:158-203 | in every run a row becomes Succeeded exactly by the good end of its own run or by the completed verdict of its reconciliation |
| WorkerOutcome.EverySuccessIsEarned | crates/lxcup-ansible-worker/src/main.rs:288-307 | in every run each stored success has that exit or that verdict in its history |
| WorkerProgress.ReadyRuns | crates/lxcup-ansible-worker/src/main.rs:147-307 | whenever the worker is idle, every claimable ordinary job of a host with a playbook has an undisturbed run: one claim, one start, one exit, and the end that the exit deserves; no other row changes |
| WorkerProgress.CanSucceedExactly | crates/lxcup-ansible-worker/src/main.rs:250-307 | in every reachable state with an idle worker and a free target, a queued or failed job can still succeed if and only if its target is a host, its operation has a playbook and it is not a failed package-update Apply |
| WorkerProgress.RequestSucceeds | crates/lxcup-ansible/src/lib.rs:299-369 | every supported request for a host, under a key that its target has not seen, can be enqueued and succeed |
| WorkerProgress.GivenUpForever | crates/lxcup-persistence/src/repositories/ansible_jobs.rs:85-143 | a failed package-update Apply stays failed in every continuation |
| WorkerProgress.StartsAreConfirmed | crates/lxcup-ansible-worker/src/execution_support.rs:9-29 | in every run a playbook starts only after every write of its attempt was acknowledged and logged |
| WorkerProgress.RecoveryStopsExactly | crates/lxcup-ansible-worker/src/main.rs:64-110 | recovery goes on to the next row exactly if it had nothing to store or its write and log entry were acknowledged; otherwise the process ends |
| WorkerProgress.FindExactly | crates/lxcup-ansible-worker/src/output.rs:115-140 | the source of a reconciliation is found exactly if it is stored, unresolved, and the job that the reconciliation was made for |
| WorkerProgress.SourceFoundExactly | crates/lxcup-ansible-worker/src/output.rs:115-140 | in every run a reconciliation finds its source exactly while that is unresolved; all else that is compared always agrees |
| WorkerResolution.ResolvableExactly | crates/lxcup-server/src/workflows/jobs.rs:477-523 | some continuation of the run resolves an unresolved job if and only if its operation can be reconciled and its reconciliation key is not spent |
| WorkerResolution.FirstUncertaintyIsResolvable | crates/lxcup-ansible/src/lib.rs:56-62 | while no row holds its reconciliation key, the operation alone decides |
| WorkerResolution.StuckForever | crates/lxcup-persistence/src/repositories/ansible_jobs.rs:167-246 | every other unresolved job keeps its row for ever, and no playbook ever starts on its target again |
| WorkerResolution.ConfigureTargetNeverEnds | crates/lxcup-ansible-worker/src/main.rs:581-606 | a ConfigureTarget job that applies is Applying or unresolved in every continuation |
| WorkerWitness.ConfigureTargetGetsStuck | crates/lxcup-ansible-worker/src/main.rs:250-266 | a run that leaves a ConfigureTarget job unresolved for ever |
| WorkerWitness.SecondUncertaintyGetsStuck | crates/lxcup-persistence/migrations/0006_ansible_jobs.sql:1-12 | a run that leaves a reconcilable job unresolved for ever, because its only reconciliation is spent |
| Recovery.RowAfter | crates/lxcup-ansible-worker/src/main.rs:64-110 | the row-by-row pass changes exactly the visited rows, each to its recovered status |
| Recovery.CutPassIsHarmless | crates/lxcup-ansible-worker/src/main.rs:64-110 | a pass cut short anywhere does not change where a complete pass ends |
| Recovery.FullPassRecovers | crates/lxcup-ansible-worker/src/main.rs:64-110 | a pass over a full listing, in any order, recovers exactly the interrupted rows |
| Recovery.PassesAgree | crates/lxcup-ansible-worker/src/main.rs:64-110 | any number of interrupted passes followed by a complete one equals one complete pass on the original table |
| Recovery.RecoveryEndsRecovered | crates/lxcup-ansible-worker/src/main.rs:64-110 | in the step system, any crashes, restarts, lost and unacknowledged writes that end in a completed recovery leave exactly the recovered table |
| Recovery.RecoveryBesideApi | crates/lxcup-ansible-worker/src/main.rs:64-110 | the same with the API enqueueing and retrying in between: every old row ends recovered, or queued again by a retry, and every new row waits |
| Recovery.RecoveryRuns | crates/lxcup-ansible-worker/src/main.rs:37-63 | from every state the worker can crash, restart and recover everything, leaving the playbooks that run as they are |
| Recovery.JobTable.Visit | crates/lxcup-ansible-worker/src/main.rs:67-105 | one turn of the loop; both asserted transitions are legal |
| Recovery.JobTable.RecoverInterruptedJobs | crates/lxcup-ansible-worker/src/main.rs:64-110 | the loop, dying after any number of rows, leaves the table of the recovery function, and the complete loop recovers everything |
| Recap.OccursInSomeLine | crates/lxcup-ansible-worker/src/output.rs:91-97 | a pattern without line breaks is in the text if and only if it is in one of its lines |
| Recap.GuardsRead | crates/lxcup-ansible-worker/src/output.rs:55-101 | the guards of the decision hold exactly for a text with a recap line, behind it no run of visible characters `failed=` or `unreachable=` with anything but `0` and no `skipped=` with a 32-bit number that has a digit other than zero, and nowhere a line whose first visible text is `skipping:` |
| Text.WordsAreRuns | crates/lxcup-ansible-worker/src/output.rs:60-83 | the fields of a line are exactly its longest stretches without white space |
| Numbers.ParseExactly | crates/lxcup-ansible-worker/src/output.rs:70-83 | a text is read as `n` exactly if it is an optional plus sign and digits whose place values add up to `n`, not above 4294967295 when compared digit by digit |
| Recap.SkipExactly | crates/lxcup-ansible-worker/src/output.rs:70-83 | a field reports a skip exactly if it is `skipped=` and such a number with a digit other than zero |
| Recap.FailureExactly | crates/lxcup-ansible-worker/src/output.rs:55-68 | a field reports a failure exactly if it starts with `failed=` or `unreachable=` and is not that followed by `0` |
| Recap.FlaggedIsManual | crates/lxcup-ansible-worker/src/output.rs:91-101 | one such field on a line behind the header is enough for manual review |
| Recap.CountsAre | crates/lxcup-ansible-worker/src/output.rs:193-206 | `n` is among the counts that are summed exactly if some field from the header line on is `changed=` and a number with the value `n` |
| Recap.CompletedExactly | crates/lxcup-ansible-worker/src/output.rs:91-106 | completion is decided exactly on undisturbed recaps with at least one count and a total of zero modulo 2^32 |
| Recap.ChangesRemainExactly | crates/lxcup-ansible-worker/src/output.rs:91-106 | remaining changes are decided exactly on undisturbed recaps whose total is not zero modulo 2^32 |
| Recap.ManualReviewExactly | crates/lxcup-ansible-worker/src/output.rs:91-106 | manual review is decided exactly on disturbed recaps and on those without a readable count |
| Recap.CompletedMeansNothingLeft | crates/lxcup-ansible-worker/src/output.rs:91-106 | for totals below 2^32 completion means that some count is readable and all are zero |
| Recap.WrongVerdictExactly | crates/lxcup-ansible-worker/src/output.rs:193-206 | completion is decided although changes are left if and only if the recap is undisturbed and its positive total is a multiple of 2^32 |
| RecapWitness.WrapAroundHidesChanges | crates/lxcup-ansible-worker/src/output.rs:193-206 | the output of two hosts with 2^31 remaining changes each is decided as completed |
| Requests.AcceptedApplyIsConfirmed | crates/lxcup-ansible/src/lib.rs:299-369 | an accepted request keeps its fields, and an accepted Apply is confirmed, from an operator, with secrets, on an enabled target |
| Requests.AcceptedExactly | crates/lxcup-ansible/src/lib.rs:299-369 | a request is accepted exactly if it meets every demand, and the queued job has its operation, mode, target, parameters, secret references and key |
| Requests.ParametersExactly | crates/lxcup-ansible/src/lib.rs:141-171 | parameters are valid exactly if versions have at most 50 bytes, there are one to a hundred packages or the one wildcard, and names and host names are neither blank nor too long |
| Requests.RefusedExactly | crates/lxcup-ansible/src/lib.rs:299-369 | each of the six errors is given exactly if its demand is the first that is not met |
| Coordinator.AnsibleJobCoordinator.constructor | crates/lxcup-ansible/src/lib.rs:439-460 | starts with four empty maps |
| Coordinator.AnsibleJobCoordinator.RecordInternal | crates/lxcup-ansible/src/lib.rs:674-683 | appends one numbered entry to one log and nothing else |
| Coordinator.AnsibleJobCoordinator.SubmitJob | crates/lxcup-ansible/src/lib.rs:499-516 | new state and answer are those of `Submit` |
| Coordinator.AnsibleJobCoordinator.SubmitReconciliationWithLock | crates/lxcup-ansible/src/lib.rs:518-572 | new state and answer are those of `SubmitReconciliation` |
| Coordinator.AnsibleJobCoordinator.MoveJob | crates/lxcup-ansible/src/lib.rs:594-626 | new state and answer are those of `Transition`, locks included |
| Coordinator.AnsibleJobCoordinator.RecordJobEvent | crates/lxcup-ansible/src/lib.rs:628-642 | new state and answer are those of `RecordEvent` |
| Coordinator.AnsibleJobCoordinator.RetryJob | crates/lxcup-ansible/src/lib.rs:644-672 | new state and answer are those of `Retry`, which `CoordinatorAnswers.RetryExactly` characterises |
| Coordinator.AnsibleJobCoordinator.RemoveTarget | crates/lxcup-ansible/src/lib.rs:461-497 | new state and answer are those of `RemoveTargetJobs` |
| CoordinatorIntegrity.StepKeepsIntegrity | crates/lxcup-ansible/src/lib.rs:461-683 | every call keeps index and jobs inverse, locks on stored jobs of their target, and logs and jobs in step |
| CoordinatorIntegrity.RunsKeepIntegrity | crates/lxcup-ansible/src/lib.rs:461-683 | the same for every sequence of calls |
| CoordinatorIntegrity.HitsNeverDangle | crates/lxcup-ansible/src/lib.rs:499-572 | behind an index hit the job is always there: the NotFound branches are unreachable |
| CoordinatorIntegrity.SubmitIsIdempotent | crates/lxcup-ansible/src/lib.rs:499-516 | submitting again returns the job of the first submission and changes nothing |
| CoordinatorIntegrity.RemovalLeavesNothing | crates/lxcup-ansible/src/lib.rs:478-497 | removing a target leaves no job, key, lock or log of it, and everything of other targets |
| CoordinatorExclusion.CoverKeptExactly | crates/lxcup-ansible/src/lib.rs:594-626 | from a state where executing jobs hold their locks, a call keeps that if and only if it is guarded |
| CoordinatorExclusion.ExclusionKeptExactly | crates/lxcup-ansible/src/lib.rs:518-672 | from such a state a call is guarded if and only if no guarded continuation leads to two executing jobs of one target |
| CoordinatorExclusion.DisciplineGuards | crates/lxcup-ansible/src/lib.rs:518-626 | entering through Checking, ending only without a foreign lock and reconciling current snapshots imply the guard |
| CoordinatorExclusion.GuardedRunsAreExclusive | crates/lxcup-ansible/src/lib.rs:518-672 | every state of a guarded run has at most one executing job per target |
| CoordinatorExclusion.DisciplinedRunsAreExclusive | crates/lxcup-ansible/src/lib.rs:518-672 | the same for runs that follow the discipline |
| CoordinatorWitness.RunWithoutEntryBreaks | crates/lxcup-ansible/src/lib.rs:96-113 | a run from the empty coordinator that plans from the queue and ends with two executing jobs |
| CoordinatorWitness.RunWithoutLockCheckBreaks | crates/lxcup-ansible/src/lib.rs:594-626 | the same for ending another job while one holds the lock |
| CoordinatorWitness.RunWithPersistedReconciliationBreaks | crates/lxcup-ansible/src/lib.rs:528-572 | the same for a persisted source that the coordinator does not hold |
| CoordinatorWitness.RunWithStaleReconciliationBreaks | crates/lxcup-ansible/src/lib.rs:518-572 | the same for a snapshot of the job itself, taken when it was unresolved and used after it failed, was retried and executes again |
| CoordinatorLog.StepKeepsNumbering | crates/lxcup-ansible/src/lib.rs:674-683 | every log is numbered from one without gaps, carries its job's id and starts with the queueing |
| CoordinatorLog.ReplayKeptExactly | crates/lxcup-ansible/src/lib.rs:594-682 | a call keeps the logs replaying to the current statuses if and only if it does not record a status change by hand |
| CoordinatorLog.RunsKeepLogs | crates/lxcup-ansible/src/lib.rs:499-682 | both for every run |
| CoordinatorLog.FinalStep | crates/lxcup-ansible/src/lib.rs:594-672 | only removing its own target touches a succeeded or aborted job |
| CoordinatorLog.FinalForever | crates/lxcup-ansible/src/lib.rs:594-672 | once succeeded or aborted, job and log never change until the target is removed |
| CoordinatorAnswers.RetryExactly | crates/lxcup-ansible/src/lib.rs:644-672 | a retry succeeds exactly for a stored Failed job that is no package-update Apply and whose target no other job has locked; each error has its own cause and changes nothing; the answer is the job, queued, with one more log entry |
| CoordinatorAnswers.TransitionExactly | crates/lxcup-ansible/src/lib.rs:594-626 | a transition succeeds exactly if the job is there, the step is legal and, for Checking, no other job has the lock; job, lock and log move and nothing else |
| CoordinatorAnswers.RecordExactly | crates/lxcup-ansible/src/lib.rs:628-642 | an event is recorded exactly for a stored job that has not ended |
| CoordinatorAnswers.SubmitExactly | crates/lxcup-ansible/src/lib.rs:499-516 | a target and key that a stored job has are answered with that job; otherwise the judgement on the request decides, and an accepted job enters index, map and log |
| CoordinatorAnswers.ReconcileExactly | crates/lxcup-ansible/src/lib.rs:528-572 | a reconciliation is refused exactly for what a read-only run cannot settle and, on the in-memory route, while another job has the lock; else it is the known one or a new job with the work of its source |
| CoordinatorAnswers.RemoveExactly | crates/lxcup-ansible/src/lib.rs:461-497 | a target is removed exactly while its lock is free and each of its jobs waits or has ended |
| CoordinatorOnce.FailedStepExactly | crates/lxcup-ansible/src/lib.rs:594-672 | a failed package-update Apply changes exactly by a plain transition to Queued or by the removal of its target |
| CoordinatorOnce.FailedForever | crates/lxcup-ansible/src/lib.rs:644-672 | in every run it and its log stay as they are until one of the two happens |
| CoordinatorOnce.AppliedOnce | crates/lxcup-ansible/src/lib.rs:594-672 | in every run, between two entries of one package-update Apply into Applying it was put back by a plain transition or removed |
| CoordinatorOnce.FailedIsAppliedAgain | crates/lxcup-ansible/src/lib.rs:594-626 | from every state with a failed package-update Apply three transitions take it into Applying again |
| CoordinatorOnce.RunAppliesTwice | crates/lxcup-ansible/src/lib.rs:594-626 | a run from the empty coordinator in which a package update enters Applying twice |
| Sorting.SortByIsSorted | crates/lxcup-core/src/telemetry_alerts.rs:113-114 | sorting gives a sorted permutation |
| Sorting.SortByIsStable | crates/lxcup-core/src/telemetry_alerts.rs:113-114 | elements ranked equal keep their order |
| Sorting.SortedUnique | crates/lxcup-core/src/plan.rs:152-169 | without ties there is one sorted arrangement, so an unstable sort gives it too |
| Sorting.SortForgetsOrder | crates/lxcup-core/src/plan.rs:152-169 | without ties two inputs sort alike if and only if they are permutations |
| Orders.TextEqual | crates/lxcup-core/src/plan.rs:68-82 | comparing texts gives Equal exactly for equal texts, and swapping them reverses the answer |
| Orders.TextOrder | crates/lxcup-core/src/plan.rs:152-157 | the text order is total, transitive and antisymmetric |
| Plans.ChangeEqual | crates/lxcup-core/src/plan.rs:68-82 | two changes have equal sort keys if and only if they are equal |
| Plans.ChangeOrder | crates/lxcup-core/src/plan.rs:68-82 | the sort key orders changes totally, without ties |
| Plans.CanonicalExactly | crates/lxcup-core/src/plan.rs:151-176 | canonical forms are equal if and only if container and both multisets are |
| Plans.SameContentExactly | crates/lxcup-core/src/plan.rs:130-149 | with an injective digest, equal hashes mean equal container, packages and changes as multisets, and conversely |
| Plans.ReorderingKeepsHash | crates/lxcup-core/src/plan.rs:130-176 | with any digest, reordering packages or changes keeps the hash |
| Plans.PlanEnteredExactly | crates/lxcup-core/src/plan.rs:24-32 | a plan is confirmed only from Ready, judged only as a draft, redrafted only when blocked, and can be invalidated once |
| Planner.CollectFirstError | crates/lxcup-planner/src/lib.rs:51-60 | the error reported is that of the first element that fails |
| Planner.NameExactly | crates/lxcup-core/src/update.rs:10-22 | a package name is accepted exactly when it is not empty and has no white space, and is kept as it is |
| Planner.NormalizeExactly | crates/lxcup-planner/src/lib.rs:90-104 | a dry-run change is accepted exactly when not held, authenticated and well named and versioned |
| Planner.ChangeFaults | crates/lxcup-planner/src/lib.rs:90-104 | each error of a change is given exactly if its fault is the first: hold, missing signature, name, versions |
| Planner.BuildExactly | crates/lxcup-planner/src/lib.rs:50-71 | a plan is built exactly from acceptable input, Blocked exactly if unsafe, with the hash of its own content |
| Planner.BadNameFails | crates/lxcup-planner/src/lib.rs:50-60 | the first bad requested name decides the error before any change is looked at |
| Planner.BadChangeFails | crates/lxcup-planner/src/lib.rs:50-60 | then the first change that may not be planned decides it |
| Planner.NothingRequestedFails | crates/lxcup-planner/src/lib.rs:50-71 | an empty request is refused last |
| Planner.RevalidateExactly | crates/lxcup-planner/src/lib.rs:74-87 | a plan survives exactly when an acceptable fresh dry run reproduces it; otherwise it is invalidated or left alone on an error |
| Executions.ExecutionCoordinator.constructor | crates/lxcup-execution/src/lib.rs:109-117 | starts empty |
| Executions.ExecutionCoordinator.AppendEvent | crates/lxcup-execution/src/lib.rs:336-345 | appends one numbered event to one log |
| Executions.ExecutionCoordinator.StartRequest | crates/lxcup-execution/src/lib.rs:120-153 | new state and answer are those of `StartExecution`, which `ExecutionSafety.StartExactly` characterises |
| Executions.ExecutionCoordinator.BeginExecution | crates/lxcup-execution/src/lib.rs:229-245 | new state and answer are those of `Begin` |
| Executions.ExecutionCoordinator.FinishExecution | crates/lxcup-execution/src/lib.rs:181-208 | new state and answer are those of `Finish` |
| Executions.ExecutionCoordinator.RunExecution | crates/lxcup-execution/src/lib.rs:155-179 | new state and answer are those of `RunPlan` |
| Executions.ExecutionCoordinator.AbortExecution | crates/lxcup-execution/src/lib.rs:210-223 | new state and answer are those of `Abort` |
| Executions.ExecutionCoordinator.LoseConnection | crates/lxcup-execution/src/lib.rs:251-278 | new state and answer are those of `MarkConnectionLost` |
| Executions.ExecutionCoordinator.ReconcileExecution | crates/lxcup-execution/src/lib.rs:280-326 | new state and answer are those of `Reconcile` |
| ExecutionSafety.RunsKeepInvariant | crates/lxcup-execution/src/lib.rs:119-345 | every run keeps keys and executions in bijection, one audit record each, and logs that replay legally to status and times |
| ExecutionSafety.CallIsMoves | crates/lxcup-execution/src/lib.rs:155-326 | every call but a start is a series of at most two status moves of its execution |
| ExecutionSafety.PathIsShort | crates/lxcup-core/src/execution.rs:20-37 | a legal path is no longer than its last status is far along |
| ExecutionSafety.LogsAreShortReplays | crates/lxcup-execution/src/lib.rs:336-345 | every log is numbered, has one to four events and replays to the status; the finish time is set exactly in final states |
| ExecutionSafety.StartExactly | crates/lxcup-execution/src/lib.rs:120-153 | an execution is created exactly for an identified request with a new key and a confirmed plan that the dry run reproduces; PlanChanged exactly if an acceptable dry run differs; Duplicate(i) exactly if the identified request's key is indexed with i; MissingRequestIdentity, PlanNotConfirmed and planner errors each exactly in their case |
| ExecutionSafety.StartChangesOnlyOnCreation | crates/lxcup-execution/src/lib.rs:120-153 | an error or duplicate leaves the coordinator unchanged; a creation stores the plan, key and queued execution and audits actor, execution, plan and hash |
| ExecutionSafety.EveryPlanWasReviewed | crates/lxcup-execution/src/lib.rs:119-345 | in every run the stored plan of an execution was confirmed and reproduced by the dry run of its own start call |
| ExecutionSafety.AtMostOneLaunch | crates/lxcup-execution/src/lib.rs:155-246 | over every run a key launches the executor at most once, exactly when its execution has a start time |
| ExecutionSafety.KeyIsForever | crates/lxcup-execution/src/lib.rs:120-126 | a key stays with the execution that it first created |
| ExecutionAnswers.LaterStartsRepeat | crates/lxcup-execution/src/lib.rs:120-126 | in every run, after a start created an execution every later identified start with its key is answered with Duplicate of that execution and changes nothing |
| ExecutionAnswers.BeginExactly | crates/lxcup-execution/src/lib.rs:229-245 | an execution begins exactly from the queue; the stored plan is handed on and the start time set |
| ExecutionAnswers.BegunPlanWasReviewed | crates/lxcup-execution/src/lib.rs:229-245 | in every run the plan that is handed on was confirmed and reproduced by the dry run of its own start |
| ExecutionAnswers.FinishExactly | crates/lxcup-execution/src/lib.rs:181-208 | an exit is accepted exactly while the execution runs or is unknown; it succeeds exactly for exit code zero |
| ExecutionAnswers.AbortExactly | crates/lxcup-execution/src/lib.rs:210-223 | everything that has not ended can be aborted, and nothing else |
| ExecutionAnswers.LostExactly | crates/lxcup-execution/src/lib.rs:251-278 | a lost connection makes exactly a running execution unknown |
| ExecutionAnswers.ReconcileExactly | crates/lxcup-execution/src/lib.rs:280-326 | each of the four actions is given exactly for the statuses and observations that lead to it; only the two that mark an end change anything |
| ExecutionOutcome.FinalForever | crates/lxcup-core/src/execution.rs:60-76 | a finished execution, its plan and its log never change again, whatever is called |
| ExecutionOutcome.FirstVerdictDecides | crates/lxcup-execution/src/lib.rs:181-326 | for a begun execution the first finish, abort or observed end alone decides final status and time; without one it is unknown exactly if the connection was lost |
| ExecutionOutcome.RunReachesItsEnd | crates/lxcup-execution/src/lib.rs:155-179 | running a queued execution always records its end: the discarded finish result is never an error |
| ExecutionOutcome.RunRefused | crates/lxcup-execution/src/lib.rs:155-179 | in any other status the run is refused and nothing changes |
| Alerts.SustainedStart | crates/lxcup-core/src/telemetry_alerts.rs:158-178 | returns the start of the longest streak that ends with the latest sample, or nothing exactly if there is no streak |
| Alerts.StreaksAreTails | crates/lxcup-core/src/telemetry_alerts.rs:158-178 | the streaks are exactly the suffixes that start no earlier than the longest one |
| Alerts.AlertsExactly | crates/lxcup-core/src/telemetry_alerts.rs:110-156 | Critical if and only if the critical load is sustained, else Warning if and only if the warning load is; reading, threshold and times as the longest streak gives them, triggered no later than observed |
| Alerts.LevelsExactly | crates/lxcup-core/src/telemetry_alerts.rs:70-106 | critical exactly at 98 % processor or 95 % memory for two minutes or 95 % storage for five; warning, unless critical, exactly at 90 % for five minutes or 85 % storage for ten |
| Alerts.ReportExactly | crates/lxcup-core/src/telemetry_alerts.rs:110-123 | the report holds exactly the alert of each metric that has one, in the order processor, memory, storage |
| Alerts.OrderIsIrrelevant | crates/lxcup-core/src/telemetry_alerts.rs:113-114 | with one sample per timestamp any permutation of the input gives the same report |
| AlertOrder.StartIsExtreme | crates/lxcup-core/src/telemetry_alerts.rs:158-178 | whatever the order of tied samples, the streak starts when it does with ascending or when it does with descending ties |
| AlertOrder.OrderFreeExactly | crates/lxcup-core/src/telemetry_alerts.rs:110-156 | no permutation of the input changes a metric's alert if and only if ascending and descending ties give the same alert |
| AlertOrder.ReportOrderFreeExactly | crates/lxcup-core/src/telemetry_alerts.rs:110-123 | the same for the whole report |
| Alerts.TiesAreOrderSensitive | crates/lxcup-core/src/telemetry_alerts.rs:113-114 | two samples with one timestamp whose order decides whether there is an alert |
| Alerts.SustainedNeeds | crates/lxcup-core/src/telemetry_alerts.rs:158-178 | a sustained load takes at least ceil(duration / 7 s) + 1 samples |
| Alerts.AlertNeedsSamples | crates/lxcup-core/src/telemetry_alerts.rs:70-106 | 19 samples for two minutes, 44 for five, 87 for ten |
| Alerts.BoundIsTight | crates/lxcup-core/src/telemetry_alerts.rs:70-106 | for every metric and severity, that many readings at the threshold, seven seconds apart, raise the alert and one fewer does not |
| Alerts.SeverityIsMonotone | crates/lxcup-core/src/telemetry_alerts.rs:125-178 | raising present readings never lowers a metric's severity |
| Telemetry.TelemetryBuffer.RemoveExpired | crates/lxcup-agent/src/lib.rs:282-291 | pops exactly the expired front |
| Telemetry.TelemetryBuffer.Record | crates/lxcup-agent/src/lib.rs:265-271 | keeps the last 32 samples with the new one, then drops the expired front |
| Telemetry.TelemetryBuffer.Window | crates/lxcup-agent/src/lib.rs:272-281 | returns the buffer without its expired front, partial exactly if some sample lacks a reading |
| Telemetry.PoppingIsFilteringExactly | crates/lxcup-agent/src/lib.rs:282-291 | popping equals filtering if and only if no expired sample stands behind an unexpired one |
| Telemetry.WindowIsRecentHistory | crates/lxcup-agent/src/lib.rs:257-292 | with ordered samples and clock a window is exactly the last 32 samples of the history that are not older than 60 s |
| Telemetry.NothingEvictedEarly | crates/lxcup-agent/src/lib.rs:257-292 | samples two seconds apart are never evicted before they expire |
| Telemetry.DeliveredBy | crates/lxcup-agent/src/lib.rs:272-281 | every window taken within 60 s of a sample holds it |
| Telemetry.DeliveredTwice | crates/lxcup-agent/src/main.rs:508-522 | with heartbeats at most 30 s apart a sample recorded when collected is in the next two windows |
| Schedule.JobSchedule.AdvanceAfterRun | crates/lxcup-core/src/schedule.rs:50-59 | the loop ends at the first slot after both the old slot and now |
| Schedule.JobSchedule.Poll | crates/lxcup-server/src/lib.rs:336-364 | a poll runs exactly a due schedule that need not wait for the worker, and moves its slot as `Polled` does |
| Schedule.Interval | crates/lxcup-core/src/schedule.rs:17-21 | the interval is the given number of minutes, and one minute for none |
| Schedule.NextSlotIsAfter | crates/lxcup-core/src/schedule.rs:50-59 | that slot is on the grid, strictly after now, and at most one interval away if the old one was due |
| Schedule.NextSlotIsFirst | crates/lxcup-core/src/schedule.rs:50-59 | no earlier slot of the grid qualifies |
| Schedule.SlotsAdvance | crates/lxcup-core/src/schedule.rs:43-59 | over any polls slots stay on the grid of the first one and each run moves on by at least one interval |
| Schedule.RunsAreBounded | crates/lxcup-core/src/schedule.rs:43-59 | over any polls up to T there are at most floor((T - first) / interval) + 1 runs, and none before the first slot |
| Secrets.InMemorySecretStore.Perform | crates/lxcup-secrets/src/lib.rs:82-175 | records and answer are those of `MemStep` |
| Secrets.InMemorySecretStore.Replace | crates/lxcup-secrets/src/lib.rs:138-154 | records and answer are those of `MemUpdate` |
| Secrets.DirectorySecretStore.Create | crates/lxcup-secrets/src/lib.rs:232-245 | files and answer are those of `DirCreate` |
| Secrets.DirectorySecretStore.Read | crates/lxcup-secrets/src/lib.rs:247-254 | the answer is that of `DirRead`, error cases included |
| Secrets.DirectorySecretStore.Update | crates/lxcup-secrets/src/lib.rs:260-272 | files and answer are those of `DirUpdate` |
| Secrets.DirectorySecretStore.Revoke | crates/lxcup-secrets/src/lib.rs:274-279 | files and answer are those of `DirRevoke` |
| Secrets.DirectorySecretStore.Delete | crates/lxcup-secrets/src/lib.rs:281-285 | files and answer are those of `DirDelete` |
| Secrets.DirectorySecretStore.ListMetadata | crates/lxcup-secrets/src/lib.rs:218-230 | for any order of the directory entries the loop returns `DirList`, or the first undecodable entry's error |
| Secrets.DirectorySecretStore.RewrapValue | crates/lxcup-secrets/src/lib.rs:404-407 | files and answer are those of `Rewrap` |
| Secrets.DecryptPayload | crates/lxcup-secrets/src/lib.rs:383-401 | the loop over the keys gives the answer of the first key that opens the payload |
| SecretRefinement.StepAgrees | crates/lxcup-secrets/src/lib.rs:217-286 | every call on a directory store answers as the in-memory store and leaves the directory representing its records |
| SecretRefinement.RunsAgree | crates/lxcup-secrets/src/lib.rs:82-286 | every call sequence gives the same answers |
| SecretRefinement.ListingsAgree | crates/lxcup-secrets/src/lib.rs:83-94 | whatever order map and directory yield, listings hold the same entries and the same names in the same order |
| SecretLaws.RunMatches | crates/lxcup-secrets/src/lib.rs:82-175 | after every run a secret is there exactly if its creation was followed by no deletion or other creation; its name, kind, scope and birth are those of that call, its value that of the last write before a revocation, and it is active exactly if there was none |
| SecretLaws.ReadExactly | crates/lxcup-secrets/src/lib.rs:117-127 | after every run a read answers Missing, Denied or the last value written, each exactly when the calls say so |
| SecretDamage.ReadOnAnyDirectory | crates/lxcup-secrets/src/lib.rs:247-254 | on any files: missing and damaged metadata, revoked secrets and missing values each have their answer |
| SecretDamage.RefusalsOnAnyDirectory | crates/lxcup-secrets/src/lib.rs:260-285 | on any files each writing call is accepted exactly for the metadata that it needs, and a refusal leaves every file as it was |
| SecretDamage.FirstKeyDecides | crates/lxcup-secrets/src/lib.rs:383-401 | the first key that opens a ciphertext decides, whatever later keys would say |
| SecretDamage.PayloadExactly | crates/lxcup-secrets/src/lib.rs:383-401 | a payload is Invalid if it does not start as one, and Denied exactly if no key opens it |
| SecretRotation.DecryptExactly | crates/lxcup-secrets/src/lib.rs:371-401 | a sealed value is read exactly by stores that hold its key; all others answer Denied |
| SecretRotation.StoresAgree | crates/lxcup-secrets/src/lib.rs:335-478 | the plain and the encrypted store, from empty directories, answer every run as the in-memory store |
| SecretRotation.RewrapAgrees | crates/lxcup-secrets/src/lib.rs:404-407 | rewrapping answers as a read does and changes no record |
| SecretRotation.RotationRetiresOldKeys | crates/lxcup-secrets/src/lib.rs:404-407 | after every active secret was rewrapped, the directory represents the same records to the new key alone |
| SecretRotation.RotationKeepsAnswers | crates/lxcup-secrets/src/lib.rs:383-478 | a store with the new key alone answers every read, revoked and missing ids included, and every later run as before |
| SecretRotation.SkippedIsDenied | crates/lxcup-secrets/src/lib.rs:383-401 | an active secret that was skipped and is sealed with an old key is denied to the new key alone |
| SecretLifecycle.RunSeals | crates/lxcup-secrets/src/lib.rs:371-381 | a run leaves every active value sealed with the current key or with the key that sealed it before |
| SecretLifecycle.Reopens | crates/lxcup-secrets/src/lib.rs:336-351 | a directory represents the same records to any keys among which are those that its active values are sealed with |
| SecretLifecycle.RotationExactly | crates/lxcup-secrets/src/lib.rs:383-407 | after a rewrapping the new key alone holds the same secrets if and only if every active one was rewrapped or sealed with the new key before |
| SecretLifecycle.LifeAgrees | crates/lxcup-secrets/src/lib.rs:335-478 | from an empty directory through any number of master keys, each opened beside the one before it, used, rewrapped and then used alone, every call is answered as by one in-memory store |
| Apt.ReadBlock | crates/lxcup-apt/src/lib.rs:111-156 | the loop over a block's lines gives the record or error of `ParseBlock` |
| Apt.ReadBlocks | crates/lxcup-apt/src/lib.rs:106-159 | the loop over the blocks gives all records in order or the first error |
| Apt.ParseOutput | crates/lxcup-apt/src/lib.rs:106-159 | the parser computes `Parsed` |
| AptRoundTrip.RoundTrip | crates/lxcup-agent/src/parsers.rs:408-426 | parsing any printed listing gives one record per entry read from its lines in order, or the missing field of the first incomplete one; `AptText.ListingExactly` says it without naming the reader |
| AptRoundTrip.RoundTripExactly | crates/lxcup-apt/src/lib.rs:106-167 | it succeeds if and only if every entry has a package and an installed version, and then returns those fields trimmed, the class, not held, authenticated |
| AptText.ReadLineExactly | crates/lxcup-agent/src/parsers.rs:411-424 | a line is dropped exactly if its trimmed text starts with `Listing`, has no slash or no marker; otherwise package, candidate and installed version are the text before the first slash, the second word, and the text between the first marker and the next or the end without closing brackets, and it is a security update exactly if `security` occurs in it |
| AptText.ListingExactly | crates/lxcup-apt/src/lib.rs:106-159 | parsing the printed listing gives, in order, the record of each line that is not dropped, said on its characters, or the missing part of the first line that lacks one |
| AptText.ListingSucceedsExactly | crates/lxcup-apt/src/lib.rs:106-159 | it succeeds exactly if no kept line lacks a package or an installed version, with one record for each |
| AptText.OneLineListing | crates/lxcup-agent/src/parsers.rs:408-426 | a listing of one kept and whole line comes back as its one record |
| AptParser.BoolExactly | crates/lxcup-apt/src/lib.rs:161-167 | a switch is on or off exactly for the six words in any mix of ASCII case |
| AptParser.RecordExactly | crates/lxcup-apt/src/lib.rs:111-156 | any block becomes a record exactly if each line has a colon and a readable switch and a package and an installed version are given; the last line of each key decides every field |
| AptParser.FirstFaultDecides | crates/lxcup-apt/src/lib.rs:111-137 | the first line that cannot be read decides the error of its block |
| EventStream.ConsumeEventFrames | frontend/src/api.ts:451-466 | the loop hands on the frames of `Consume` and leaves its rest |
| EventStream.ReadChunks | frontend/src/api.ts:325-333 | the read loop gives the frames and leftover of `Streamed` |
| EventStream.ConsumeAppends | frontend/src/api.ts:451-466 | reading on from the leftover equals reading both parts at once |
| EventStream.RebuiltIsText | frontend/src/api.ts:451-466 | frames and leftover determine the text that was read |
| EventStream.ConsumeExactly | frontend/src/api.ts:451-466 | frames and leftover are the only ones that give the text back with every frame ending at its first boundary and none left over |
| EventStream.NormalizedExactly | frontend/src/api.ts:325-333 | normalising is taking the chunk apart at its pairs and joining the pieces with line feeds |
| EventStream.StreamingIsBatchExactly | frontend/src/api.ts:325-333 | chunked reading equals one read of the whole text if and only if no chunk boundary separates a carriage return from its line feed |
| EventStream.StreamingIsBatch | frontend/src/api.ts:325-333 | in particular for every text without carriage returns and every way of cutting it |
| EventStream.CutPairDiffers | frontend/src/api.ts:325-333 | a cut pair for which the two differ |

## Left out

- HTTP routes, API errors and data transfer objects of crates/lxcup-server, and all user interface code: plumbing.
- SQL: the job table is a map with atomic single-row updates; the claim and retry statements are modelled by their conditions, not their text.
- More than one worker process, and the claim path of the Windows agent: the protocol has one worker; target deletion, which removes job rows, does not happen during its runs.
- Windows targets: the claim query leaves them to their agents, so the worker's playbook table is that of the other targets.
- Busy checks of the API's submission routes: the model also lets a job be enqueued where they would refuse it, so its runs include the real ones.
- Event appends of the worker: they appear only as a flag saying whether the append after a write succeeded, not as log contents.
- Playbook, version, parameter hash and timestamps of a job record: they are copied and decide nothing in the modelled code.
- Inventory and variable files, secret redaction, artifact probing and the summary texts of the worker: input/output and wording.
- Cryptography, SHA-256, JSON, UTF-8 and UUID text: the cipher (section 2.8 of RFC 8439) is ideal among the keys of one key ring, the digest is injective, the encodings invert, ids are their text and freshly drawn ids are unused.
- Input/output failures of the secret stores, file permissions, `from_hex`, `from_env` and the Docker secret store.
- `UpdatePlan`, `Execution` and job records are values held in the coordinators' maps, as the source clones them; their transitions are functions.
- Event messages and audit details of the execution coordinator: the event type and the audited execution, plan and hash are kept, the wording is not.
- `ValidatedAptExecutor` and the Docker image update pipeline: straight chains of guards over an external command.
- `DockerTelemetryBuffer`: its expiry is already a filter, so only the capacity bound would remain.
- Reading the fields of a server-sent event frame and dispatching it: the frames and the leftover buffer are modelled, their contents are text.
- Schedule thresholds, time zones, policy windows, retry delays and the small status enums (scan, enrollment, environment, target, container): easy on their own.
- That confirmed plans contain no removals or downgrades: the code does not promise it, because a blocked plan may return to Draft and then become Ready.
- Jobs.KeyNamesItsSource: an id is its canonical text; that parsing a UUID also accepts other spellings of it is not modelled, because the worker reads only keys that the controller has formatted.
