# Porty: verified models of the durable state machines

Porty is a control plane for Docker Compose stacks. Almost everything it promises rests on state machines whose
steps are single SQLite transactions over one connection, or critical sections under one mutex. This project models
those machines in Dafny, with the tables and in-memory structures as maps and sequences, every transaction as one
atomic step, and crashes, lost goroutines and failing transactions as steps of their own. It then proves what holds
after every run, for every interleaving and every input.

Each module has the same two halves. A transaction or critical section is a function from state to state; its laws
are lemmas over all states and all runs. Beside it stands a class whose methods do the work as the source does it,
with fields, loops and early returns, and whose contracts tie the new state to that function.

| module | what it models |
|---|---|
| `UpdateTables`, `UpdateProtocol`, `UpdateSteps`, `UpdateGuarantees`, `UpdateRecovery`, `UpdateStore` | automatic updates: policies, runs, executions, operations, deployments and image selections; the worker protocol, what its steps keep and its runs guarantee; crash recovery; the store and its loops |
| `UpdateExample` | one whole update, step by step, and one torn by a lost commit |
| `UpdateOutcomes`, `UpdateEffects` | what a start-up makes of every row; what each step does to the rows, what blocks a stack and what lets it in again |
| `UpdateInspection`, `UpdateVerification` | the inspection of containers, the changes prepared from it, and the polling loop that decides whether an applied update is verified |
| `OnDemandGroups`, `OnDemandStore`, `OnDemandEffects` | on-demand groups: phases, holds, pauses, manual interlocks, memberships, the endpoint allocator; what each transaction does to the rows |
| `DependencyOrder` | the three-colour search for a dependency order, and the start and stop sequences it drives |
| `IdleTracker`, `WakeLatch` | the decision to sleep, and the latch that wakes |
| `OperationLocks` | the stack and repository lock, its hand-over to operations, the bounded list of finished ones |
| `MonitoringDelta`, `MonitoringService`, `MonitoringSlots` | monitoring history, cursor and delta responses, the dashboard's merge; source slots and their goroutines |
| `Hub` | the websocket hub's replay buffer and live subscriptions |
| `RefreshFamilies`, `AlertLedger`, `AlertBatches`, `AlertPriming`, `AlertRepeats`, `AlertFilters` | refresh-token families; alert episodes, revisions and occurrences; batches of changes, ledgers that runs prime for them, when a batch repeats and when filtering one suffices |
| `PerfEvent`, `Environment` | the perf-event bit scatter; the environment serializer and the digest preimage |
| `Wrappers`, `Sets` | the option type; sizes of subsets |

## What the main results say

- **Updates.** In every run of the protocol, with any policy edits, crashes, and failing or lost commits in between, a
  stack has at most one unfinished run, and a run enters mutation only with the policy enabled, not paused and
  unedited since the run was admitted. A run is marked updated only when the stored results confirm every stored
  change. A run and its execution are in the same phase, unless the commit into applying took effect and was reported
  as failed (`ALostCommitTearsTheRun` shows how).
- **Recovery.** From every reachable state, lost commits included, a crash and a start-up end with no unfinished run,
  execution or operation. Exactly the stacks with a mutating execution are paused, by one revision for each, and get a
  failed deployment for each; without a lost commit there is at most one. Recovery can stop after any transaction and
  be started again, can work in any order, and can come before or after the failing of interrupted operations; the
  final tables are the same. Run again it changes nothing. No operation comes out as succeeded that was not; one that
  had been stored as succeeded stays so if and only if no execution is pending for it, and a lost commit can leave one
  (`ASuccessMayBeTakenBack`).
- **What blocks, and what lets in again.** From the moment a stack is archived, or its policy disabled or paused, no run of
  it is admitted or enters mutation until a step that ends that very cause takes effect. After a resume the next due
  time gets a queued run. The same holds of on-demand groups: suspended until a resume, and in force after it.
- **Verification.** The reported success covers every prepared change: preparation makes changes only of services
  with containers, and an accepted inspection shows as many containers as each scale asks for, so "targets running"
  is never true of nothing.
- **Locks.** Release closures are not idempotent. Anybody may call one at any time in the model; a call keeps the lock
  in order if and only if it was owed or names nothing that is held (`CallKeepsExactly`). Callers and jobs that call
  only what they owe call every closure exactly once, and `CheckAndUpdate` does on each of its paths.
- **Idle groups.** Sleep is decided if and only if an evaluation compares counters, the runtime clock was not restarted
  within the minimum runtime, and nothing was activity within the idle time. The tracker itself does not remember that
  it asked for a pause. The epoch was the same throughout the minimum runtime if and only if no evaluation in it was
  answered with a pause for the epoch.
- **`FinishRun`** is total in the source. It keeps run and execution in lock-step if and only if the run is not
  mutating (`FinishKeepsLockStep`); every call site, in a worker whose commits are reported or in recovery, meets that
  (`FinishIsCalledBeforeMutation`).
- **Wake latch.** The code is sharper than the natural bound of twice the threshold less one: `max(T, 2T-2)` attempts
  inside one window always suffice, and `2T-3` can fail for every threshold above two.
- **Alerts.** A successful batch repeats if and only if its result has nothing left to do for any of its changes. What
  a caller can check beforehand is that no recovery is followed by another report's failure of its key. That always
  suffices; it is also necessary, over the ledgers of all runs, for valid changes with distinct reports whose
  recoveries expect alerts older than the batch is long. For younger alerts and for shared reports it is not
  (`EarlyRelapseRepeats`, `SharedReportRepeats`). The filter against conflicts has an exact condition without such
  limits: over the ledgers of all runs, a filtered valid batch never conflicts if and only if it undercuts none of its
  recoveries. Distinct keys meet both conditions.
- **Monitoring.** A response holds the longest newest stretch of what is due that fits its budget and limit, so a poll
  that has room leaves the dashboard with the whole history. A slot closes its source once. A source object can be closed again, by a discovery that ends after
  the stop and returns a source whose slot is already gone (`ASourceMayBeClosedAgain`).
- **Refresh cleanup** compares expiry texts, and RFC 3339 texts with trimmed fractions do not sort like times inside
  one second. The model lets a cleanup take any set of expiries, so the laws hold whatever the text order does.

## How the source is read

- Times are integers in milliseconds. Random ids are parameters; where the source relies on their freshness, a
  repeated id is refused as the primary key would, or the step is not taken.
- A transaction of a worker is rolled back for reasons outside the tables, takes effect, or takes effect and is
  reported as failed (`Commit`).
- Registry, Docker, clock and network answers are parameters: booleans, result lists, or functions from the number of
  the poll. Iteration over Go maps is a choice, so the laws hold for every order.
- `Operation.owner` in `UpdateTables` names the run whose job created the operation. The table has no such column;
  the job's closure holds that fact in the source.
- Deployments are keyed by operation id, which the schema makes unique
  (`internal/sqlite/migrations/00001_initial.sql`, line 81); their own ids are taken to be distinct.
- In `UpdateProtocol` recovery steps may run whenever no worker exists, which includes every start-up.
- A fingerprint in `UpdateVerification` is a multiset of identities; the source joins the same entries, sorted, into
  one text, which says the same because container ids contain neither separator.
- Machine words in `PerfEvent` are sets of bit positions below 64.

## Model

| member | source | states |
|---|---|---|
| `UpdateTables.SelectedRows` | internal/sqlite/update_execution_store.go:156-171 | After the upserts of a completed update each named service holds its last change; every other image row is as before. |
| `UpdateSteps.StepKeeps` | internal/sqlite/auto_update_store.go:99-278 | Every transaction, worker step, policy edit, lost commit, crash and recovery step keeps runs, executions, operations, deployments and worker positions coherent. |
| `UpdateSteps.EveryRunIsCoherent` | internal/control/auto_update.go:115-223 | After every interleaving of scheduler, jobs, edits, lost commits, crashes and recovery the tables are coherent: in lock-step, but for the runs a lost commit has torn. |
| `UpdateSteps.RowKept` | internal/sqlite/update_execution_store.go:16-82 | A step keeps what a run was admitted with, never changes a run finished with its execution, enters mutation only when permitted, and adds an unfinished run only to a stack without one. |
| `UpdateSteps.Frames` | internal/sqlite/update_execution_store.go:47-82 | A step writes no run or execution but its own, and never loses a stack, a policy or an operation. |
| `UpdateGuarantees.AtMostOneUnfinishedRun` | internal/sqlite/auto_update_store.go:129-138 | Two unfinished runs of one stack are the same run, in every reachable state. |
| `UpdateGuarantees.TornOnlyByLostCommit` | internal/control/auto_update.go:178-183 | A run gets out of step with its execution only when its commit into applying took effect and was reported as failed. |
| `UpdateGuarantees.RunAndExecutionAgree` | internal/sqlite/update_execution_store.go:30-82 | Unless torn, an unfinished execution and its run are in the same phase, and a prepared or mutating run has an execution. |
| `UpdateGuarantees.OutOfStepExactly` | internal/control/auto_update.go:178-183 | In every reachable state a run is out of step with its execution if and only if it is torn and finished while the execution is still applying. |
| `UpdateGuarantees.UpdatedMeansVerified` | internal/sqlite/update_execution_store.go:149-186 | The outcome updated is stored only with a verified result for every stored change, showing its own image. |
| `UpdateGuarantees.FinishKeepsLockStep` | internal/sqlite/auto_update_store.go:215-243 | Finishing a run leaves it in lock-step with its execution if and only if it was not applying or verifying. |
| `UpdateGuarantees.FinishIsCalledBeforeMutation` | internal/autoupdate/scheduler.go:139-158 | Whenever a worker whose commits are reported is about to finish its run, or recovery finds a run left over, that run is not mutating. |
| `UpdateGuarantees.PoliciesAdvance` | internal/sqlite/auto_update_store.go:41-79 | Along every run a policy stays, and no setting of it changes without a higher revision. |
| `UpdateGuarantees.RunsStay` | internal/sqlite/auto_update_store.go:215-243 | A run keeps its stack and admitted revision for ever, and one finished together with its execution never changes again. |
| `UpdateGuarantees.NoEditBeforeMutation` | internal/sqlite/update_execution_store.go:47-68 | From admission to entering mutation the policy was enabled, not paused and at the admitted revision at every step, and the stack is not archived. |
| `UpdateEffects.BlockedUntilLifted` | internal/sqlite/auto_update_store.go:99-115 | From the moment a stack is archived, or its policy disabled or paused, until a step that ends that very cause takes effect, no run of it is admitted and none enters mutation. |
| `UpdateEffects.SlotsAreUsedOnce` | internal/sqlite/auto_update_store.go:139-149 | In every run of the protocol no two runs of a stack have the same scheduled time. |
| `UpdateEffects.EditIsExact` | internal/sqlite/auto_update_store.go:41-79 | An edit is accepted exactly on an active stack at its expected revision; then the submitted flag, expression and next time are stored, a pause stays and the revision moves by one. |
| `UpdateEffects.PauseIsExact` | internal/sqlite/auto_update_store.go:244-247 | A pause moves the revision, so that earlier readers are refused, and keeps every other setting. |
| `UpdateEffects.ResetIsExact` | internal/sqlite/auto_update_store.go:151-185 | Start-up gives every policy the next time of its own expression, or changes none. |
| `UpdateEffects.AdmissionIsExact` | internal/sqlite/auto_update_store.go:99-150 | A policy still due as listed moves on; a free slot gets a run of that revision and time, queued with a worker unless an unfinished run makes it an overlap. |
| `UpdateEffects.ResumeIsExact` | internal/sqlite/update_execution_store.go:278-323 | A resume is accepted exactly for a paused policy at its revision and distinct services; the pause is gone, and the images of the stack are those given and no others. |
| `UpdateEffects.ResumeLetsIn` | internal/sqlite/update_execution_store.go:278-323 | After a resume, an enabled policy of an active stack gets a queued run once its time has come. |
| `UpdateEffects.CommitsAreTransactions` | internal/control/auto_update.go:165-189 | In every worker step a refused transaction writes nothing, and a lost commit has written what a reported one writes. |
| `UpdateEffects.GuardsAreExact` | internal/sqlite/update_execution_store.go:16-68 | On any tables, checking starts only from the queue, an intent is saved only once and before mutation, and mutation is entered only from a saved intent at the admitted revision. |
| `UpdateEffects.VerifyingIsExact` | internal/sqlite/update_execution_store.go:69-82 | On any tables, run and execution go on to verification from applying only. |
| `UpdateEffects.FinishingIsExact` | internal/sqlite/auto_update_store.go:215-243 | On any tables, an unfinished run ends as told, and with it an execution that is no more than an intent. |
| `UpdateEffects.BeginIsExact` | internal/sqlite/auto_update_store.go:257-278 | A queued run in time starts checking if and only if its stack is active and the policy enabled, not paused and unedited. |
| `UpdateEffects.GiveUpIsExact` | internal/sqlite/auto_update_store.go:215-243 | Giving up ends the run with the outcome decided on together with its saved intent, and leaves a finished run alone. |
| `UpdateEffects.CompletionIsExact` | internal/sqlite/update_execution_store.go:126-186 | A completion is refused unless it is of this operation, stack and mutating execution, and as a success unless every change is shown verified with its own image; only a success selects images, and only a pause moves the policy. |
| `UpdateEffects.CompletionCountsOnce` | internal/sqlite/update_execution_store.go:131-137 | A completion that comes again saves the operation's status and nothing else. |
| `UpdateEffects.PruneIsExact` | internal/sqlite/update_execution_store.go:188-220 | A selection of the stack survives a prune if and only if it was made for the source its service has now; no other row changes. |
| `UpdateExample.AnUpdateCanSucceed` | internal/control/auto_update.go:115-210 | For any changes and confirming results, the protocol has a run from a new stack to an updated one, with exactly the rows it leaves. |
| `UpdateExample.ALostCommitTearsTheRun` | internal/control/auto_update.go:178-183 | A run of the protocol in which a lost commit makes the job finish as skipped a run whose execution is applying. |
| `UpdateRecovery.OkIsRecoverable` | internal/control/update_recovery.go:17-28 | Every reachable state, lost commits included, meets what recovery needs of the tables. |
| `UpdateRecovery.RecoverStep` | internal/sqlite/update_execution_store.go:222-276 | Recovering one more execution never fails and yields the next state of the order-free closed form. |
| `UpdateRecovery.LeftoverStep` | internal/control/update_recovery.go:55-59 | Finishing one more run without an execution to recover yields the next state of the closed form. |
| `UpdateRecovery.AfterIsRecoverable` | internal/control/update_recovery.go:29-59 | Recovery that stopped after any set of runs leaves tables it can go on with. |
| `UpdateRecovery.RecoveryResumes` | internal/control/update_recovery.go:12-62 | Recovery cut off anywhere and started again ends where one recovery would have, each run with what was found when it was recovered. |
| `UpdateRecovery.StartupIsQuiescent` | internal/sqlite/operation_store.go:108-148 | After reconciliation and the failing of interrupted operations, every run, execution and operation is finished. |
| `UpdateRecovery.StartupIsIdempotent` | internal/control/update_recovery.go:12-62 | A second start-up changes nothing. |
| `UpdateRecovery.SuspendsExactlyTheMutated` | internal/sqlite/update_execution_store.go:250-275 | A policy changes exactly if its stack has mutating executions, then to the interruption pause, by one revision for each; new deployments are failed and belong exactly to those executions. |
| `UpdateRecovery.AtMostOneMutated` | internal/sqlite/update_execution_store.go:47-68 | A stack without a torn run has at most one mutating execution, so its policy moves by one revision at most. |
| `UpdateRecovery.MutatedIsPaused` | internal/control/update_recovery.go:12-62 | From every reachable state, after a lost commit too, start-up pauses the stack of every mutating execution and records its failed deployment. |
| `UpdateRecovery.FailingFirstIsTheSame` | internal/sqlite/operation_store.go:142-147 | Failing interrupted operations before reconciliation ends in the same tables as after it. |
| `UpdateRecovery.AwaitedIsConcerned` | internal/sqlite/operation_store.go:114-143 | The operations spared as awaiting recovery are exactly those recovery will close. |
| `UpdateRecovery.EveryCrashIsRecovered` | internal/app/app.go:140-147 | From every reachable state, lost commits included, a crash followed by start-up ends at rest. |
| `UpdateOutcomes.EveryRowEnds` | internal/sqlite/operation_store.go:108-148 | From every reachable state, a crash and a start-up end each row as it should: cut-off operations fail, or are cancelled if nothing was changed for them; runs and executions end by whether the runtime may have been changed; policies are paused exactly for those; finished rows for which nothing is pending stay. |
| `UpdateOutcomes.StartupIsReached` | internal/app/app.go:140-147 | The start-up after any crash is itself a run of the protocol's recovery steps. |
| `UpdateOutcomes.FailingIsExact` | internal/sqlite/operation_store.go:114-143 | Whenever it is done, failing the interrupted operations fails exactly those cut off for which no execution is pending. |
| `UpdateOutcomes.NothingSucceedsAfterwards` | internal/sqlite/operation_store.go:142-147 | Recovery makes no operation succeed, and a succeeded one stays so if and only if no execution was pending for it. |
| `UpdateOutcomes.ASuccessMayBeTakenBack` | internal/control/auto_update.go:178-183 | That condition is needed: after a lost commit the job ends without an error, its operation is stored as succeeded, and start-up makes it failed. |
| `UpdateStore.Store.EditPolicy` | internal/sqlite/auto_update_store.go:41-79 | A policy is created at revision zero or edited at its expected revision on an active stack; otherwise nothing changes. |
| `UpdateStore.Store.Reset` | internal/sqlite/auto_update_store.go:151-185 | Every policy is rescheduled, or none if one expression fails. |
| `UpdateStore.Store.AdmitRun` | internal/sqlite/auto_update_store.go:99-150 | A due policy that did not change since it was listed is moved on and gets a queued run, a skipped one if another is unfinished, none if the slot was taken. |
| `UpdateStore.Store.Confirm` | internal/sqlite/update_execution_store.go:156-171 | The nested loops select the images of all changes exactly if every change has a verified result with its image. |
| `UpdateStore.Store.CompleteOwn` | internal/sqlite/update_execution_store.go:126-186 | A completion writes deployment, images, pause, execution and run together or nothing at all. |
| `UpdateStore.Store.Complete` | internal/sqlite/operation_store.go:162-191 | The operation's status is saved with its update completion, or neither is. |
| `UpdateStore.Store.PruneRows` | internal/sqlite/update_execution_store.go:188-220 | Exactly the selections made for another source reference are removed. |
| `UpdateStore.Store.Insert` | internal/sqlite/update_execution_store.go:310-314 | The images of a resumed stack are inserted exactly if no service repeats. |
| `UpdateStore.Store.ResumeUpdates` | internal/sqlite/update_execution_store.go:278-323 | A paused policy at the expected revision is resumed with its operation, deployment and image rows, or nothing changes. |
| `UpdateStore.Store.RecoverOne` | internal/sqlite/update_execution_store.go:222-276 | One execution is discarded if prepared, failed with a pause if mutating, left alone if finished. |
| `UpdateStore.Store.FailOperations` | internal/sqlite/operation_store.go:108-148 | Exactly the unfinished operations that no pending execution awaits become failed. |
| `UpdateStore.Store.RecoverAll` | internal/control/update_recovery.go:29-54 | The loop over executions advances the closed form by exactly the runs it takes out of the pending map, and only a store failure stops it. |
| `UpdateStore.Store.FinishAll` | internal/control/update_recovery.go:55-59 | The loop over the runs left over completes the closed form unless the store stops answering. |
| `UpdateStore.Store.Reconcile` | internal/control/update_recovery.go:12-62 | Reconciliation is complete if and only if it reports no error, is partial but exact otherwise, and unblocks updates only when complete. |
| `UpdateStore.Store.EnterMutation` | internal/control/auto_update.go:169-183 | The job may change the runtime if and only if the policy permits the run and the stack is active; otherwise the run is skipped and nothing else changes. |
| `UpdateStore.Store.Conclude` | internal/control/auto_update.go:184-210 | A failed or unverified mutation pauses the policy with a failed deployment; a verified one is stored as updated with its images, and refused exactly when a confirmation is missing; the operation's status says which. |
| `UpdateStore.ReadyPrepares` | internal/control/auto_update.go:169-177 | For a job about to save its intent, nothing but the policy can refuse it. |
| `UpdateStore.ObservedCompletes` | internal/control/auto_update.go:192-210 | Nothing but a missing confirmation can refuse the completion of a job's own mutation. |
| `UpdateVerification.VerifyUpdate` | internal/compose/update_verify.go:31-115 | The loop ends, and succeeds if and only if some poll settles after nothing but sound polls: an accepted inspection with every service at its scale, all its updated containers on target, other containers exactly the original ones, identities without health constant over 30 s. Then every prepared change is reported with its own image. |
| `UpdateVerification.Turn` | internal/compose/update_verify.go:56-110 | One turn fails exactly if the poll is not sound and settles exactly if it is sound and settled. |
| `UpdateVerification.Examine` | internal/compose/update_verify.go:71-99 | The row loop accepts exactly inspections on target whose other containers are the expected ones, and collects pending health, missing health and the fingerprint. |
| `UpdateVerification.Observe` | internal/compose/update_verify.go:61-67 | Each result shows the image last seen for its service, or what it showed before. |
| `UpdateVerification.AgeDecides` | internal/compose/update_verify.go:98-104 | The loop's stability timer passes if and only if some earlier poll was stamped 30 s before and the fingerprint was constant ever since. |
| `UpdateVerification.ReportedIsDelivered` | internal/compose/update_snapshot.go:133-143 | An accepted inspection shows a container, on its new image, of every changed service whose scale is not zero. |
| `UpdateVerification.DeliveredIsAchieved` | internal/compose/update_images.go:29-130 | Every change that preparation makes of an accepted snapshot is of such a service. |
| `UpdateVerification.VerifiedIsConfirmed` | internal/sqlite/update_execution_store.go:156-165 | A verified update carries all confirmations its completion asks for. |
| `UpdateInspection.Inspect` | internal/compose/update_snapshot.go:55-145 | The loops accept exactly listings whose rows are all in order, with one image per service and as many containers as every scale asks for; a failure shows the rows read before it. |
| `UpdateInspection.PrepareUpdate` | internal/compose/update_images.go:29-130 | The changes name exactly the considered services whose looked-up image is not the one they run, each once and with a container; one failed lookup yields no list. |
| `UpdateInspection.OutdatedExactly` | internal/compose/update_images.go:29-130 | A service is looked up if and only if it is not excluded and has a container, and outdated if and only if the image found is not that of its first container. |
| `OnDemandGroups.PhasesStep` | internal/sqlite/on_demand_store.go:99-273 | Every transaction keeps: an operation is set exactly while starting or stopping, then enabled and neither held nor paused; unknown is paused. |
| `OnDemandGroups.OnlyResumeClears` | internal/sqlite/on_demand_store.go:221-253 | No transaction but a resume of the group clears its hold or pause. |
| `OnDemandGroups.StaysSuspended` | internal/sqlite/on_demand_completion.go:12-45 | A suspended group stays suspended under every step but its own resume. |
| `OnDemandGroups.SuspendedUntilResumed` | internal/sqlite/on_demand_interlock.go:13-43 | Over every run without a resume of it, a suspended group starts no automatic transition. |
| `OnDemandGroups.ManualSuspends` | internal/sqlite/on_demand_interlock.go:13-43 | An accepted manual action pauses every affected group without a running transition; a stop also holds it. |
| `OnDemandGroups.RecoveryIsExact` | internal/sqlite/on_demand_store.go:270-273 | Recovery pauses exactly the groups cut off in a transition and leaves the others as they were. |
| `OnDemandStore.EveryRunIsOk` | internal/sqlite/on_demand_store.go:99-273 | In every run phases, memberships and endpoint allocation are all in order. |
| `OnDemandStore.ManualActionSuspends` | internal/sqlite/on_demand_interlock.go:13-43 | In every run, from an accepted manual action on, no automatic transition of an affected group begins before a resume of it. |
| `OnDemandEffects.ConcernedIsSuspended` | internal/sqlite/on_demand_interlock.go:13-43 | The same by what the action names: the stack, or one of the members in the group's policy. |
| `OnDemandEffects.ManualIsExact` | internal/sqlite/on_demand_interlock.go:13-43 | A manual action pauses, and for a stop holds, exactly the groups at rest whose stack or member it names, and moves their revision. |
| `OnDemandEffects.ResumeIsExact` | internal/sqlite/on_demand_store.go:221-253 | A resume is accepted exactly from an up-to-date writer with complete evidence whose endpoints fit; hold and pause are cleared, phase and evidence taken over. |
| `OnDemandEffects.ResumeLetsIn` | internal/sqlite/on_demand_store.go:221-269 | After an accepted resume the group is suspended no more, and if its policy is enabled the transition that fits its phase begins. |
| `OnDemandEffects.BeginIsExact` | internal/sqlite/on_demand_store.go:254-269 | A wake begins exactly from sleeping, a sleep from running, for an enabled group that is neither held nor paused, seen at its latest revision on an active stack. |
| `OnDemandEffects.CompleteIsExact` | internal/sqlite/on_demand_completion.go:12-45 | The end of a transition is taken from its own operation only: a success ends in the phase aimed at, and everything else in an unknown phase with a reason. |
| `OnDemandEffects.SaveIsExact` | internal/sqlite/on_demand_store.go:99-159 | A group is saved exactly if policy and evidence are valid, the writer is up to date, no other group of the stack has one of the members, and all endpoints fit; an edit keeps phase, hold and pause. |
| `OnDemandEffects.DeleteIsExact` | internal/sqlite/on_demand_store.go:203-206 | A deleted group takes its memberships with it, and nobody else's. |
| `OnDemandEffects.GroupsMove` | internal/sqlite/on_demand_store.go:99-273 | Every transaction moves every group along the edges of the phase machine; revisions never fall, and policy, evidence and hold change with a higher one only. |
| `OnDemandEffects.EveryGroupIsValid` | internal/sqlite/on_demand_store.go:67-85 | In every run every group has one to eight distinct members, one container for each, and up to 256 endpoints. |
| `OnDemandEffects.BoundsAreExact` | internal/sqlite/on_demand_store.go:160-202 | The bounds check passes if and only if active stacks have at most 64 groups and 256 endpoints, of which no two collide. |
| `OnDemandEffects.NoSharedEndpoint` | internal/sqlite/on_demand_store.go:160-202 | In every run two endpoints of active stacks on one network and port have different addresses, neither of them unspecified. |
| `OnDemandStore.MirroredStep` | internal/sqlite/on_demand_store.go:136-150 | Every transaction keeps the membership table equal to what the policies list. |
| `OnDemandStore.MembershipIsExclusive` | internal/sqlite/on_demand_store.go:139-150 | No service of a stack belongs to two groups. |
| `OnDemandStore.AllocatedStep` | internal/sqlite/on_demand_store.go:99-253 | Saving, resuming, deleting and archiving keep endpoints of active stacks disjoint and within 64 groups and 256 endpoints. |
| `OnDemandStore.AllocatedShrinks` | internal/sqlite/on_demand_store.go:203-206 | Dropping groups or stacks cannot break an allocation. |
| `OnDemandStore.CheckBounds` | internal/sqlite/on_demand_store.go:160-202 | The loop accepts if and only if all endpoints are disjoint and within the bounds, for every order of rows. |
| `OnDemandStore.CollectGroup` | internal/sqlite/on_demand_store.go:178-196 | The bindings of one group are added one by one, or an overlap refutes the allocation. |
| `OnDemandStore.Clashes` | internal/sqlite/on_demand_store.go:183-194 | A clash is reported exactly if some collected binding overlaps. |
| `OnDemandStore.GroupStore.InsertMembers` | internal/sqlite/on_demand_store.go:139-150 | Membership rows are inserted one at a time, exactly if none is taken. |
| `OnDemandStore.GroupStore.SaveGroup` | internal/sqlite/on_demand_store.go:99-159 | A group is created or edited with its memberships, or everything is rolled back. |
| `OnDemandStore.GroupStore.ResumeGroup` | internal/sqlite/on_demand_store.go:221-253 | A resume clears hold and pause with new evidence, or changes nothing. |
| `OnDemandStore.GroupStore.BeginTransition` | internal/sqlite/on_demand_store.go:254-269 | A transition begins exactly on an enabled, unsuspended group in the right phase and revision. |
| `OnDemandStore.GroupStore.CompleteOnDemand` | internal/sqlite/on_demand_completion.go:12-45 | A transition is completed only by its own operation, in its own phase, to a phase its outcome allows. |
| `DependencyOrder.Search.Run` | internal/compose/on_demand.go:232-271 | The search fails if and only if the selected services contain a cycle; otherwise it lists each once, after its dependencies. |
| `DependencyOrder.Search.Visit` | internal/compose/on_demand.go:236-259 | A visit ends with the service listed after its dependencies, or with a cycle. |
| `DependencyOrder.TopologicalExcludesCycles` | internal/compose/on_demand.go:232-271 | No graph with a complete order has a cycle. |
| `DependencyOrder.BackEdge` | internal/compose/on_demand.go:237-239 | A dependency that is still being visited closes a cycle. |
| `DependencyOrder.AwaitReady` | internal/compose/on_demand_lifecycle.go:39-53 | Polling succeeds exactly if readiness is seen before anything worse than not yet. |
| `DependencyOrder.StartOnDemand` | internal/compose/on_demand_lifecycle.go:16-56 | At every point, mid-way failures included, a running service has all its selected dependencies ready; it succeeds exactly if every container starts and comes up, and otherwise leaves running what came before the first that did not, with that one if its start took effect. |
| `DependencyOrder.StopOnDemand` | internal/compose/on_demand_lifecycle.go:60-87 | At every point the services still running are closed under dependencies; it succeeds exactly if every container stops, and otherwise leaves running what the first that did not needs, with that one unless the failed call stopped it. |
| `IdleTracker.SleepMeansIdle` | internal/ondemand/policy.go:65-127 | Whenever sleep is decided, nothing in the last idle period was activity and every compared sample equals the deciding one. |
| `IdleTracker.SleepMeansSettled` | internal/ondemand/policy.go:65-127 | Whenever sleep is decided, revision and phase have been constant for the minimum runtime, and every compared sample since carried the deciding epoch. |
| `IdleTracker.SleepsExactly` | internal/ondemand/policy.go:66-127 | Both ways, over every run: an evaluation is answered with sleep if and only if it compares counters, the clock was not restarted within the minimum runtime, and nothing was activity within the idle time. |
| `IdleTracker.AnswersExactly` | internal/ondemand/policy.go:75-97 | A group is woken if and only if an attempt is pending, its automation is in force and a current sample shows it asleep as recorded; likewise exactly when a look is unavailable or its phase a reason to pause. |
| `IdleTracker.MembershipExactly` | internal/ondemand/policy.go:106-114 | A pause for the membership is answered exactly if the same runtime shows other containers than the last look. |
| `IdleTracker.ForgettingStartsOver` | internal/ondemand/policy.go:65-82 | After an invalidation, a stale look or a suspended group the next look is a new baseline, never answered with sleep. |
| `IdleTracker.EpochSettledExactly` | internal/ondemand/policy.go:98-100 | At a sleep decision, every evaluation since the last reset that got to the comparison of epochs carried the deciding one, if and only if none was answered with a pause for it. |
| `IdleTracker.EpochMayDifferBetween` | internal/ondemand/policy.go:98-100 | If such a pause is ignored, sleep can be decided although a current sample in between showed another epoch. |
| `IdleTracker.EveryRun` | internal/ondemand/policy.go:65-127 | After every run with an ordered clock, the tracker's two times bound real quiet and constant stretches. |
| `IdleTracker.ActivityAfter` | internal/ondemand/policy.go:65-127 | The time of last activity moves exactly on an invalidation, a new baseline or a changed counter. |
| `IdleTracker.ClockAfter` | internal/ondemand/policy.go:66-73 | An evaluation keeps the runtime clock and epoch unless revision or phase changed. |
| `IdleTracker.Tracker.Forget` | internal/ondemand/policy.go:65-65 | An invalidation restarts the idle period and drops the counters. |
| `IdleTracker.Tracker.Decide` | internal/ondemand/policy.go:66-127 | The tracker's fields and decision follow the specified evaluation. |
| `IdleTracker.Differs` | internal/ondemand/policy.go:106-118 | The comparison loop finds changed membership and changed values exactly. |
| `WakeLatch.EveryRunIsSound` | internal/traffic/listener.go:164-186 | In every run the window count is the number of attempts in the current window and reaches the threshold exactly when latched. |
| `WakeLatch.PendingNeedsThreshold` | internal/traffic/listener.go:164-186 | The latch is set only by threshold attempts inside one window. |
| `WakeLatch.SendNeverBlocks` | internal/traffic/listener.go:180-185 | When the event is sent its channel is open and empty, and it is the first. |
| `WakeLatch.SentOnce` | internal/traffic/listener.go:167-169 | After the event no step sends another. |
| `WakeLatch.EndedCountsNothing` | internal/traffic/listener.go:164-169 | Once closed, failed or latched, a listener counts and sends nothing more in any run. |
| `WakeLatch.AttemptsSuffice` | internal/traffic/listener.go:170-179 | On an open, healthy listener max(T, 2T-2) attempts within a window latch it, whatever came before. |
| `WakeLatch.BoundIsSharp` | internal/traffic/listener.go:170-179 | For every threshold above two, 2T-3 such attempts can fail. |
| `OperationLocks.EveryProperRun` | internal/operation/operation.go:93-218 | In every interleaving in which closures are called and passed on by those who owe the call, holds exclude each other, the lock mirrors them, and a closure has been called exactly if nobody owes it any more. |
| `OperationLocks.EveryRunIsListed` | internal/operation/operation.go:132-142 | In every interleaving the list of finished jobs is bounded and everything unfinished is tracked. |
| `OperationLocks.CallKeepsExactly` | internal/operation/deployment.go:131-138 | A call of a closure, by anyone at any time, keeps the lock in order if and only if the caller owed it or nothing its hold names is held. |
| `OperationLocks.ExtraCallIsHarmlessExactly` | internal/operation/deployment.go:131-138 | A call that is not owed leaves the lock mirroring the holds if and only if nothing it names is held. |
| `OperationLocks.ExtraCallLetsIn` | internal/operation/deployment.go:111-138 | Where a held stack is freed by such a call, anybody gets that stack beside its holder. |
| `OperationLocks.DutiesAreLocal` | internal/operation/operation.go:91-93 | No other party's step touches a closure that its caller still owes. |
| `OperationLocks.TryIsExact` | internal/operation/deployment.go:111-130 | A hold that names something is granted if and only if it collides with none that is held. |
| `OperationLocks.NoTwoHolders` | internal/operation/deployment.go:111-139 | No two holders share a stack, and none holds a stack beside a repository-wide hold. |
| `OperationLocks.ReleasedExactlyOnce` | internal/operation/operation.go:146-218 | The closure of a finished operation has been called exactly once; before the store took or refused the completion it has not been called, and its hold stands. |
| `OperationLocks.UnfinishedIsTracked` | internal/operation/operation.go:229-242 | Only finished jobs are evicted, so waiting finds every unfinished one. |
| `OperationLocks.StartIsExact` | internal/operation/operation.go:93-145 | A start is accepted exactly while the service runs, the store takes the row and the id is new; the job then owes the closure that the caller owed. |
| `OperationLocks.NothingStartsAfterShutdown` | internal/operation/operation.go:107-111 | In every run, after a shutdown no operation is accepted. |
| `OperationLocks.StagesAreExact` | internal/operation/operation.go:146-218 | An operation runs or not, its completion is stored or not, then its closure is called, then it is finished; no step is skipped. |
| `OperationLocks.NewestAreListed` | internal/operation/operation.go:136-142 | The last operation to finish is listed, and only the oldest leaves the list. |
| `OperationLocks.TryKeeps` | internal/operation/deployment.go:111-130 | A granted hold collides with no other, and the lock records it. |
| `OperationLocks.ReleaseKeeps` | internal/operation/deployment.go:131-138 | A holder's release removes exactly its hold. |
| `OperationLocks.Coordinator.Acquire` | internal/operation/deployment.go:111-130 | A hold is granted exactly if nothing collides, and a refusal changes nothing. |
| `OperationLocks.Coordinator.Free` | internal/operation/deployment.go:131-138 | The release frees what its hold names. |
| `OperationLocks.Service.StartOperation` | internal/operation/operation.go:93-144 | Acceptance makes the job owe the call of the closure; a rejection leaves it with the caller. |
| `OperationLocks.Service.RunReleaseClosure` | internal/operation/operation.go:146-149 | The deferred release calls the captured closure for exactly this job. |
| `OperationLocks.Service.Close` | internal/operation/operation.go:132-142 | The finished job joins the bounded list, evicting the oldest finished one. |
| `OperationLocks.Service.Execute` | internal/operation/operation.go:128-218 | Whatever the store answers, the job ends finished, with its closure called once, after the answer. |
| `OperationLocks.Service.CheckAndUpdate` | internal/control/auto_update.go:125-214 | On every path of an update check both closures are called exactly once, but for one an accepted operation has taken over. |
| `OperationLocks.Service.StartUpdate` | internal/control/auto_update.go:148-214 | The second closure is called once on each return before acceptance, and not after it. |
| `MonitoringDelta.PollRefreshes` | internal/monitoring/history.go:74-162 | Every answered poll leaves the client with the newest part of the history, and counts as complete if and only if all that was due fitted, now and ever since it started over; then it holds the whole history. |
| `MonitoringDelta.EveryPollRefreshes` | web/src/features/dashboard/monitoringState.ts:2-35 | The same over every run of ticks, polls, restarts and reloads; a new dashboard gets the whole history if it fits. |
| `MonitoringDelta.StepKeeps` | internal/monitoring/history.go:51-162 | Every step keeps the client's samples an unbroken stretch of the server's log ending at its cursor. |
| `MonitoringDelta.NoResetMeansCovered` | internal/monitoring/history.go:79-95 | A cursor that causes no reset has everything after it still in the history. |
| `MonitoringDelta.AnswerFirst` | internal/monitoring/history.go:115-161 | A response holds the newest due samples without a break and is marked trimmed exactly if some are missing. |
| `MonitoringDelta.TrimmedExactly` | internal/monitoring/history.go:108-161 | A response holds the longest newest stretch of what is due that fits both budget and limit, and is trimmed if and only if not all of it does. |
| `MonitoringDelta.NewestIsGreatest` | internal/monitoring/history.go:115-130 | What the walk takes fits the budget, and if it stopped short, one sample more would not have fitted. |
| `MonitoringDelta.ShrinkIsLeast` | internal/monitoring/history.go:144-161 | Samples are dropped only while the encoding is over the limit. |
| `MonitoringDelta.RefusedOnlyIfNothingFits` | internal/monitoring/history.go:152-154 | No response is given only if not even one without samples fits. |
| `MonitoringDelta.ResetExactly` | internal/monitoring/history.go:79-95 | A delta is answered if and only if the cursor is of this generation and every number given out since belongs to the stored history. |
| `MonitoringDelta.PruneIsLeast` | internal/monitoring/history.go:51-57 | Pruning drops no sample with which the history would be within count, window and bytes. |
| `MonitoringDelta.RecordIsExact` | internal/monitoring/history.go:58-72 | A tick takes the next number and stores its sample under it with its time, or skips the number. |
| `MonitoringDelta.PrunedByAge` | internal/monitoring/history.go:51-57 | A history within its bounds loses only samples older than the window. |
| `MonitoringDelta.RecordKeepsServer` | internal/monitoring/history.go:58-72 | Recording keeps sequence and time ascending and the history within count and size. |
| `MonitoringDelta.MergeDelta` | web/src/features/dashboard/monitoringState.ts:13-33 | An untrimmed delta extends what the client holds and drops exactly what the server dropped. |
| `MonitoringDelta.MergeTrimmed` | web/src/features/dashboard/monitoringState.ts:13-33 | A trimmed delta leaves exactly the samples sent. |
| `MonitoringDelta.MergeAfterReset` | web/src/features/dashboard/monitoringState.ts:6-33 | A reset leaves exactly the samples sent. |
| `MonitoringService.Service.Prune` | internal/monitoring/history.go:51-57 | The loop drops what the specification drops and keeps the byte count equal to the stored sizes plus 64 each. |
| `MonitoringService.Service.Record` | internal/monitoring/history.go:58-72 | A tick stores its sample, keeps the byte count exact and prunes. |
| `MonitoringService.Service.FindFirst` | internal/monitoring/history.go:115-130 | Walking back finds the newest samples that fit the budget. |
| `MonitoringService.Service.Fit` | internal/monitoring/history.go:144-161 | Samples are dropped from the front until the response fits. |
| `MonitoringService.Service.MustReset` | internal/monitoring/history.go:79-95 | A reset is due exactly as specified. |
| `MonitoringService.Service.Snapshot` | internal/monitoring/history.go:74-162 | The response is the specified answer to the pruned history. |
| `MonitoringService.MergeMonitoring` | web/src/features/dashboard/monitoringState.ts:2-35 | The map, sort and slice give the specified merge. |
| `MonitoringService.Retain` | web/src/features/dashboard/monitoringState.ts:13-24 | The map holds each offered sample at or after the cutoff once. |
| `MonitoringService.Ordered` | web/src/features/dashboard/monitoringState.ts:25-32 | Sorting the map's values gives the one list ascending in sequence. |
| `MonitoringService.OfferedInOrder` | web/src/features/dashboard/monitoringState.ts:18-21 | Kept and received samples together ascend strictly, so the sort changes nothing. |
| `MonitoringSlots.EveryRunIsOk` | internal/monitoring/service.go:101-221 | In every interleaving each slot has at most one collector and at most one closer, and closes only when retired and idle. |
| `MonitoringSlots.NeverCollectsFromAClosedSlot` | internal/monitoring/service.go:101-129 | For every slot, no collection overlaps or follows its close and it closes at most once; there are never more than 512 slots. |
| `MonitoringSlots.DrainedMeansClosed` | internal/monitoring/service.go:192-221 | With no goroutine left every retired slot was closed exactly once and is gone; after a stop no slot is left. |
| `MonitoringSlots.ASourceMayBeClosedAgain` | internal/monitoring/service.go:141-152 | For sources that is no law: a discovery that ends after the stop closes a source again whose slot has been closed and removed. |
| `MonitoringSlots.StraysHaveNoSlot` | internal/monitoring/service.go:145-150 | A discovery that ends after the stop, failed or not, closes exactly the sources it returns that have no slot. |
| `MonitoringSlots.FindStrays` | internal/monitoring/service.go:145-150 | The loop finds exactly those sources. |
| `MonitoringSlots.ReplaceServes` | internal/monitoring/service.go:159-191 | A discovery retires what is gone, leaves what stays and gives a new source, and no other, an idle slot unless the table is full, which it reports. |
| `MonitoringSlots.AddAllCounts` | internal/monitoring/service.go:180-189 | Each new source that gets no slot is counted as omitted, once. |
| `MonitoringSlots.ScheduleIsExact` | internal/monitoring/service.go:101-114 | While the service runs, a schedule starts a collection in exactly the slots that are idle and not retired. |
| `MonitoringSlots.StopIsExact` | internal/monitoring/service.go:200-221 | A stop retires every slot and sends a closer to exactly the idle ones. |
| `MonitoringSlots.DiscoveryIsExact` | internal/monitoring/service.go:131-158 | A discovery begins only before the stop; a failed one changes no slot, and one that ends after the stop closes strays only. |
| `MonitoringSlots.StoppedStartsNothing` | internal/monitoring/service.go:101-158 | In every run, after the stop no collection starts, no source is added and no discovery begins. |
| `MonitoringSlots.KeepIsBounded` | internal/monitoring/service.go:160-171 | At most 512 sources are kept, and a valid one is left out only if the omission is counted. |
| `MonitoringSlots.KeepIsExact` | internal/monitoring/service.go:160-171 | Only valid sources are kept, and all of them if none is counted as omitted. |
| `MonitoringSlots.OmittedIsCounted` | internal/monitoring/service.go:160-171 | The count is that of the valid entries met when 512 sources were kept. |
| `MonitoringSlots.KeepSources` | internal/monitoring/service.go:160-171 | The loop keeps and counts as specified. |
| `MonitoringSlots.Slots.ScheduleAll` | internal/monitoring/service.go:101-129 | Exactly the idle, unretired slots start collecting. |
| `MonitoringSlots.Slots.RetireAll` | internal/monitoring/service.go:172-177 | Exactly the slots of sources not kept are retired, and the idle ones get a closer. |
| `MonitoringSlots.Slots.AddSources` | internal/monitoring/service.go:180-189 | New sources get slots up to the bound, and the rest is counted. |
| `MonitoringSlots.Slots.ReplaceSources` | internal/monitoring/service.go:159-191 | A discovery is retirement of the others followed by the additions. |
| `MonitoringSlots.Slots.Collected` | internal/monitoring/service.go:115-127 | A collector that comes back closes the slot exactly if it was retired meanwhile. |
| `MonitoringSlots.Slots.StopAll` | internal/monitoring/service.go:210-221 | A stop retires every slot. |
| `Hub.EveryRunIsConsistent` | internal/websocket/hub.go:91-143 | In every run the replay buffer is the newest part of a contiguously numbered log, and a subscription without a gap is handed exactly its events, in order, until it ends. |
| `Hub.GapIsExact` | internal/websocket/hub.go:126-128 | The gap flag is clear if and only if the position exists and every later event is still buffered. |
| `Hub.ReplaySuffices` | internal/websocket/hub.go:129-133 | Without a gap the buffer yields every matching event of the whole log. |
| `Hub.PublishKeeps` | internal/websocket/hub.go:91-112 | Publishing keeps every subscription faithful, dropping full ones. |
| `Hub.SubscribeKeeps` | internal/websocket/hub.go:114-143 | A new subscription is faithful from the start. |
| `Hub.EndedStaysEnded` | internal/websocket/hub.go:104-141 | A cancelled or dropped subscription is never offered anything again. |
| `Hub.ServedExactly` | internal/websocket/hub.go:91-143 | In every run a live subscription without a gap has been handed, in order and once each, exactly the events of its topic after its position. |
| `Hub.BufferIsFull` | internal/websocket/hub.go:51-57 | In every run the buffer holds the newest events, as many as it has room for. |
| `Hub.PublishIsExact` | internal/websocket/hub.go:91-112 | A live subscriber of the topic with room gets the event, one without is dropped, and nobody else is touched. |
| `Hub.ReadersAreExact` | internal/websocket/hub.go:134-141 | A reader takes the oldest event of its channel, an ended one included; cancelling keeps what the channel holds. |
| `Hub.Broker.Announce` | internal/websocket/hub.go:91-112 | Publishing numbers the event, trims the buffer and offers it to all. |
| `Hub.Broker.Fan` | internal/websocket/hub.go:100-111 | Each subscriber of the topic gets the event or is dropped. |
| `Hub.Broker.Join` | internal/websocket/hub.go:114-133 | Subscribing registers the channel with its gap flag and replay. |
| `Hub.Broker.Leave` | internal/websocket/hub.go:134-141 | Cancelling ends a live subscription and is harmless afterwards. |
| `RefreshFamilies.EveryRunIsCoherent` | internal/sqlite/auth_store.go:96-247 | In every run tokens of a family share owner, login, expiry and revocation, and at most one is live. |
| `RefreshFamilies.ExchangeConserves` | internal/sqlite/auth_store.go:118-186 | A successful exchange turns the one live token of its family into one other. |
| `RefreshFamilies.ExchangeIsExact` | internal/sqlite/auth_store.go:118-186 | An exchange succeeds if and only if the token is known, in time, neither used nor revoked, and presented with its own CSRF secret; other refusals than a replay change nothing. |
| `RefreshFamilies.RegisterIsExact` | internal/sqlite/auth_store.go:33-59 | Only the first user registers. |
| `RefreshFamilies.OneUser` | internal/sqlite/auth_store.go:33-59 | In every run there is one user at most. |
| `RefreshFamilies.LoginIsExact` | internal/sqlite/auth_store.go:104-117 | A login of a known user adds one unused token and removes the lapsed ones, and nothing else. |
| `RefreshFamilies.RevocationsAreExact` | internal/sqlite/auth_store.go:187-247 | A logout by the owner revokes exactly the family, a password change exactly the families of the user. |
| `RefreshFamilies.ExchangeLeavesOthers` | internal/sqlite/auth_store.go:118-186 | An exchange alters no row of another family. |
| `RefreshFamilies.CleanupIsWhole` | internal/sqlite/auth_store.go:100-103 | Cleanup removes a family as a whole or not at all. |
| `RefreshFamilies.ReplaySpendsFamily` | internal/sqlite/auth_store.go:141-149 | Presenting a consumed token ends its family. |
| `RefreshFamilies.LogoutSpendsFamily` | internal/sqlite/auth_store.go:187-208 | Logging out ends the family. |
| `RefreshFamilies.ChangePasswordSpendsFamilies` | internal/sqlite/auth_store.go:209-247 | A password change ends every family of the user. |
| `RefreshFamilies.SpentForever` | internal/sqlite/auth_store.go:118-186 | In an ended family no exchange ever succeeds again. |
| `RefreshFamilies.AuthStore.CreateRefresh` | internal/sqlite/auth_store.go:104-117 | A login starts a family with one live token, or changes nothing. |
| `RefreshFamilies.AuthStore.ExchangeRefresh` | internal/sqlite/auth_store.go:118-186 | A success leaves at most the new token live in its family; a token seen before is refused and ends the family. |
| `RefreshFamilies.AuthStore.RevokeRefreshFamily` | internal/sqlite/auth_store.go:187-208 | A logout ends the family of the token. |
| `RefreshFamilies.AuthStore.UpdatePasswordAndRevoke` | internal/sqlite/auth_store.go:209-247 | A password change ends every family of the user. |
| `AlertLedger.EveryRunBalances` | internal/sqlite/alert_store.go:92-169 | In every run revision counts events, count counts the episode's failures, occurrences count reports, times are in order, and a resolved alert is past its first revision. |
| `AlertLedger.ApplyOneBalanced` | internal/sqlite/alert_store.go:94-167 | One change keeps all books. |
| `AlertLedger.MutateBalanced` | internal/sqlite/alert_store.go:248-292 | Acknowledging or resolving keeps all books. |
| `AlertLedger.FailureIsExact` | internal/sqlite/alert_store.go:94-152 | A failure that is not recorded opens its alert, adds to its episode, or starts the next one of a resolved alert, unacknowledged; what it says replaces what was said. |
| `AlertLedger.RecoveryIsExact` | internal/sqlite/alert_store.go:124-152 | A recovery that is not recorded resolves an open alert at the expected revision, conflicts at another, and has nothing to do without an open alert. |
| `AlertLedger.OperatorIsExact` | internal/sqlite/alert_store.go:248-292 | Acknowledging and resolving need the latest revision and a reason to act, and each leaves the other's mark as it was. |
| `AlertLedger.CurrentIsExact` | internal/sqlite/alert_store.go:323-342 | Filtering works on each change by itself, keeps the order, and leaves out exactly the recoveries whose alert is gone or has moved on. |
| `AlertBatches.BatchSettles` | internal/sqlite/alert_store.go:92-169 | A batch leaves the ledger as it is if and only if each of its changes alone does. |
| `AlertBatches.RepeatsExactly` | internal/sqlite/alert_store.go:92-169 | A successful batch applied to its own result returns that result if and only if every change is settled in it. |
| `AlertBatches.BatchIsIdempotent` | internal/sqlite/alert_store.go:92-169 | A successful batch in which no recovery is followed by another report's failure of its key, applied twice, equals once. |
| `AlertBatches.DistinctKeysRepeat` | internal/sqlite/alert_store.go:92-169 | In particular one with pairwise distinct keys. |
| `AlertRepeats.IdempotentExactly` | internal/sqlite/alert_store.go:92-169 | For valid changes with distinct reports, whose recoveries expect alerts older than the batch is long, a batch repeats on the ledger of every run if and only if no recovery is followed by a failure of its key. |
| `AlertRepeats.RelapseDoesNotRepeat` | internal/sqlite/alert_store.go:124-152 | The witness: a run whose ledger makes the recovery do nothing, the failure reopen the alert, and the repeated recovery conflict. |
| `AlertPriming.Prime` | internal/sqlite/alert_store.go:92-169 | Some run leaves an alert at any wanted revision, open or resolved, with chosen reports of a batch taken and the others not, provided that it is older than the batch is long or that none of its own reports is wanted. |
| `AlertRepeats.SharedReportRepeats` | internal/sqlite/alert_store.go:113-122 | Where reports are shared the condition is not necessary: a later failure with the recovery's own report makes it harmless. |
| `AlertRepeats.EarlyRelapseRepeats` | internal/sqlite/alert_store.go:92-169 | For younger alerts that condition is not necessary: a batch with such a recovery that repeats on the ledger of every run. |
| `AlertRepeats.RepeatedKeyIsNotIdempotent` | internal/sqlite/alert_store.go:103-122 | A concrete batch that does not repeat on the empty ledger. |
| `AlertFilters.FilteredNeverConflicts` | internal/sqlite/alert_store.go:323-342 | A batch that undercuts none of its recoveries, filtered in its transaction, ends in a conflict on the ledger of no run. An undercut is an earlier change of the key, a failure or a recovery expecting the same revision, unless an earlier failure carries the recovery's report, or an equal recovery at the first revision comes before all failures. |
| `AlertFilters.FilteringSufficesExactly` | internal/sqlite/alert_store.go:323-342 | For all valid changes that condition is exact: without it the ledger of some run makes the filtered batch conflict. |
| `AlertFilters.UndercutConflicts` | internal/sqlite/alert_store.go:125-127 | The witness: for every undercut, a run whose ledger lets the filter pass the batch and the loop refuse it. |
| `AlertFilters.DistinctKeysNeverConflict` | internal/sqlite/alert_store.go:323-342 | A batch with pairwise distinct keys, filtered, conflicts on the ledger of no run. |
| `AlertBatches.SettledMeans` | internal/sqlite/alert_store.go:103-130 | A change changes nothing exactly if it is a recovery of nothing, already recorded, or a recovery of a resolved alert. |
| `AlertLedger.AlertStore.Apply` | internal/sqlite/alert_store.go:171-185 | The batch is applied as a whole or not at all. |
| `AlertLedger.AlertStore.Mutate` | internal/sqlite/alert_store.go:248-292 | An operator's action is applied at the expected revision or refused. |
| `AlertLedger.AlertStore.CurrentChanges` | internal/sqlite/alert_store.go:323-342 | Exactly the recoveries whose alert moved on or is gone are left out. |
| `PerfEvent.EncodePerfEvent` | internal/monitoring/gpu_intel_linux.go:192-242 | Encoding succeeds exactly if every term is well formed and fields are disjoint; then each field reads back its value and no other bit is set. |
| `PerfEvent.EncodeTerm` | internal/monitoring/gpu_intel_linux.go:195-239 | A term is accepted exactly if its field names no bit twice and holds the value, which it then reads back. |
| `PerfEvent.PlaceValue` | internal/monitoring/gpu_intel_linux.go:211-234 | The range loops place the value's bits on the listed positions in order. |
| `PerfEvent.PlaceRange` | internal/monitoring/gpu_intel_linux.go:226-233 | One range is placed exactly if it repeats no position. |
| `PerfEvent.EncodingIsInjective` | internal/monitoring/gpu_intel_linux.go:192-242 | Of two encoded events with the same keys the registers are equal if and only if the values are. |
| `PerfEvent.Overlap` | internal/monitoring/gpu_intel_linux.go:235-237 | Overlapping fields rule out any encoding. |
| `Environment.SerializeEnvironment` | internal/filesystem/environment.go:15-35 | The text exists exactly for valid keys and values, and lists the keys sorted. |
| `Environment.SerializedRoundTrip` | internal/filesystem/environment.go:25-33 | An explicit parser recovers the environment from the text. |
| `Environment.KeysAreExact` | internal/filesystem/environment.go:18-20 | A key is a letter or underscore followed by letters, digits and underscores. |
| `Environment.EscapeIsExact` | internal/filesystem/environment.go:28-28 | Exactly backslash, quote, newline, carriage return and tab are escaped, each by itself. |
| `Environment.SerializedIsOrderIndependent` | internal/filesystem/environment.go:16-23 | Every iteration order gives the same text. |
| `Environment.PreimageSplits` | internal/compose/project.go:91-94 | The last NUL splits the preimage into its two parts. |
| `Environment.PreimageIsInjective` | internal/compose/project.go:79-96 | Equal preimages mean equal project encodings and equal environments. |

## Left out

- HTTP routes, UI components, logging, Git, registry access and the Docker calls themselves; what they answer is a parameter.
- Purging a stack and the rows that cascade with it; with it a pending recovery could lose its stack row.
- The flag that blocks updates after a failed commit; the laws hold without it, so a torn stack is paused once for each mutating execution.
- The eligibility evidence of an update (Git head, digests, snapshots); it only decides when a worker gives up.
- The control plane's sequencing of on-demand transitions; the store guards modelled here hold for every order of calls.
- Alert rows written together with operations; such a batch holds failures, which never conflict, and recoveries filtered first, one change per key (`AlertFilters.DistinctKeysNeverConflict`).
- IdempotentExactly: takes the reports of one key to be distinct and the recoveries to expect revisions above the length of the batch; otherwise the condition stays sufficient, and `SharedReportRepeats` and `EarlyRelapseRepeats` show that it is not necessary.
- Which identity object stands behind a monitoring source id; slots and ids are modelled, objects are not.
- The order of containers in an accepted inspection, and the rules that forbid a selection of services.
- Which due policies are listed first, and the column that orders them.
- Text of cron expressions, cursors, formats, addresses and JSON; each is a value or a parse failure.
- Reasons for a refused on-demand write are merged where they cannot change the tables.
- Redaction of secrets, float metrics, device limits and label sanitising.
- SHA-256, HMAC and Argon2; the statements are about preimages and token identities.
