# Verification of the MAP reference server

A Dafny model of the hard parts of the MAP reference server and its TypeScript client, with
proofs of what they promise over whole runs:

- **The async task queue** (`QueueModel`, `QueueProofs`, `QueueInvariant`, `QueueGuarantees`,
  `QueueTermination`, `QueueExactness`, `QueueSteps`, `QueueDrift`, class `AsyncTaskQueue`): a scheduler with bounded depth,
  global and per-tenant limits, leases, retries and an exactly-once guard. Its steps are what
  runs without giving up the event loop. Ghost maps record which jobs really run, wait for a
  retry, and have ended.
- **The task lifecycle** (`OrchestratorModel`, `OrchestratorProofs`, `Outcomes`, `Approvals`,
  class `OrchestratorRuntime`, over `TaskStore`): dispatch, approve, cancelTask, queued runs and
  dead-letter callbacks, split at their awaits and interleaved in any order.
- **Both together** (`JointModel`, `JointProofs`, `JointGuarantees`): the queue decides when the
  orchestrator's queued runs start, and how they end decides what the queue does next.
- **Receipts** (`Receipts`, `ReceiptPaging`): the append-only log and cursor paging over it
  while it grows.
- **Canonical signing** (`Jcs`, `JcsProofs`, `JsonReader`, `Signing`) and **one-time token use**
  (`TokenReplay`): the RFC 8785 serializer, compact signatures, and the replay map.
- **Two algorithms**: version selection (`Versions`) and the event-stream parser
  (`EventStream`, over `Splitting`).

Code that changes fields step by step is a class whose methods are proved equal to a function
of the old state; the properties are lemmas about those functions. In the queue and the
orchestrator a ghost field `model` joins to the real fields what the event loop holds, and every
method keeps the invariant that the run-long theorems rest on. The scheduler's mutual recursion
is taken apart once (`QueueProofs.SchedulerKeeps`): all it does is a chain of five small moves.

Check everything with `dafny verify dfyconfig.toml`.

## Where the code does less than it says

Each of these is a lemma with a concrete run or input, or with every input of the failing kind,
and next to it the exact condition under which the promise does hold.

- **The concurrency counters can fall behind.** A job skipped as a duplicate is finished twice
  (async-queue.ts:391 and :486), and a reaped lease lowers `inflight` while its run goes on
  (:309). A counter is right in every state of a run exactly when neither happened while it was
  above zero (`CountersExactIff`). Real concurrency exceeds a limit by at most the number of such
  events (`ConcurrencyWithinDrift`), and reaches that bound, for the global limit and for a
  tenant's quota (`DuplicateEffectBreaksTheLimit`, `ReapedLeaseBreaksTheLimit`). If no effect is
  accepted twice and no lease is reaped, the limits hold (`AccountingIsExact`).
- **A delegation token can be used twice** for one task in two ways. Its use is remembered
  under a key made of signature text and task id, so a call that gets to the replay check passes
  exactly when no earlier use under its key is still valid as it cleans up (`PassesIff`). The
  same text passes again exactly when its token expires between a call's two readings of the clock (micro-agent.ts:46 and :111):
  `SecondPassIff`, `StraddlingCallReplays`. And verification compares decoded bytes
  (signing.ts:686-689), so another spelling of the signature passes (`SpellingVerifiesIff`,
  `RespelledTokenReplays`, `RespelledTokenExists`). Clock readings near the expiry aside, one-time use holds over all
  runs exactly when each token has one spelling that verifies (`GrantsPassOnceIff`), as it would
  if signatures were compared as texts (`ExactComparisonMeansOneSpelling`).
- **An approval may execute what the policy denies.** The policy answers the intent made from an
  envelope at the dispatch. An approval is compared with the stored record by task id, capability,
  agent and reference only, and the policy is not asked again (orchestrator.ts:439-473). After any
  run, the policy then in force is certain not to deny what an approval executes exactly when it
  was asked about that very intent in this run and did not deny it (`ApprovalRespectsPolicyIff`).
  For one dispatch, any policy swaps and its approval, that is exactly when the approval makes the
  same intent and the policy in force is the one that answered (`ApprovedDispatchIsSafeIff`).
- **Overlapping approvals of one task both execute** (`OverlappingApprovalsBothRun`). A further
  one calls the executor exactly while the record still awaits approval under the same reference
  (`ApprovalRepeatsIff`), and none does after that (`ApprovalClosesForGood`).
- **A revoked task's queued job still executes**, after anything else, exactly when the executor's
  policy of that moment allows the intent and the adapter takes it (`RevokedJobRunsIff`,
  `CancelledJobStaysQueued`); its outcome is then refused.
- **A queued run that the policy no longer allows does not deny its task.** The store refuses
  that step for a running task, so the run rejects, is retried, and at last fails the task
  (`DisallowedRunRejects`, `LastRejectionFailsTask`).
- **`save` overwrites a terminal record** under the same status with another result
  (task-store.ts:64), although terminal states are described as immutable:
  `SaveOverwritesTerminal`. It leaves the outcome alone exactly when it throws or brings the
  stored result and receipt (`SaveFreezesTerminalIff`). The orchestrator never does so, and its
  records are frozen (`TerminalRecordsAreFrozen`).
- The comment above the transition table (task-store.ts:37-39) lists fewer successors of
  `accepted` and `awaiting_approval` than the table; the model follows the table.
- Saving a key under the empty task id, or a task under another key, breaks the idempotency
  index: `SaveKeepsAgreementIff`, `SaveKeepsExactIff`.
- An empty receipt id as cursor restarts the paging: `CursorResumesIff`, `EmptyIdRestarts`.
- A key id used twice can break the signing round trip: `FreshSignatureVerifiesIff`,
  `DuplicateKidBreaksRoundTrip`.
- A version component that is not a number makes the order intransitive
  (`NaNBreaksTransitivity`): versions of numbers are ordered transitively through a version
  exactly when it is one too (`ChainsThroughIff`).
- Infinities and NaN are printed as `null`, where section 3.2.2.3 of RFC 8785 asks for an error; so
  `JsonEqual` counts them as null.

## Model

| member | source | states |
|---|---|---|
| QueueGuarantees.NoLostWakeUp | src/control-plane/async-queue.ts:266-293 | in every reachable state a non-empty queue has a scheduler pass pending or a job really running, whatever duplicates and expired leases there were |
| QueueGuarantees.ConcurrencyWithinDrift | src/control-plane/async-queue.ts:278-313 | both counters never exceed the truth; real concurrency exceeds the global limit, or a tenant's highest quota, by at most the times that a reaped lease or a second finish lowered that counter |
| QueueGuarantees.AccountingIsExact | src/control-plane/async-queue.ts:492-527 | with no effect accepted twice and no lease reaped, both counters equal the running jobs and the limits hold, for tenants whose quota was never lowered |
| QueueExactness.CountersExactIff | src/control-plane/async-queue.ts:307-310 | in every state of a run the global counter, or a tenant's, is the number of running jobs exactly when no reap and no second finish lowered it from above zero |
| QueueExactness.StepKeepsBalance | src/control-plane/async-queue.ts:492-503 | a step from an exact state makes the counter fall behind by exactly the times it was so lowered |
| QueueGuarantees.DistinctEffectsNeverSkip | src/control-plane/async-queue.ts:386-393 | in a run that accepts or marks no effect twice no job is ever skipped, retries and repeated refused enqueues included |
| QueueGuarantees.EffectsHappenOnce | src/control-plane/async-queue.ts:384-416 | runs of one effect never overlap, at most one of them succeeds, and none runs after a success |
| QueueGuarantees.JobsAreConserved | src/control-plane/async-queue.ts:373-490 | every accepted job is in exactly one of queued, running, waiting, settled; pendingRetry counts the waiting; the queue is never too long |
| QueueGuarantees.AttemptsAreBounded | src/control-plane/async-queue.ts:408-448 | a job's run is called at most maxAttempts times, in any run of the queue |
| QueueTermination.InternalStepsLowerPotential | src/control-plane/async-queue.ts:395-448 | every microtask, completion, failure and timer strictly lowers a measure of the work left |
| QueueTermination.InternalRunsAreBounded | src/control-plane/async-queue.ts:274-293 | without enqueues the event loop takes only boundedly many steps, in whatever order |
| QueueTermination.QueueDrains | src/control-plane/async-queue.ts:408-503 | when no such step is left the queue is empty, nothing runs, and every accepted job is settled, except those parked by stop |
| QueueDrift.DuplicateEffectBreaksTheLimit | src/control-plane/async-queue.ts:389-392 | a run of the queue with global limit and tenant quota one in which two jobs of one tenant run at once after one duplicate: both bounds are reached |
| QueueDrift.ReapedLeaseBreaksTheLimit | src/control-plane/async-queue.ts:307-310 | a run with limit two in which three jobs run at once after one lease was reaped |
| QueueProofs.SchedulerKeeps | src/control-plane/async-queue.ts:274-314 | a property kept by reaping, settling, starting, skipping and the second finish is kept by the whole recursive scheduler |
| QueueProofs.CoreKeptByMove | src/control-plane/async-queue.ts:373-396 | each of those moves keeps the counters within drift, the job ledger, the effect marks and the attempt counts |
| QueueInvariant.LaunchStopsOnlyWhenStuck | src/control-plane/async-queue.ts:278-288 | the launch loop ends only at the global limit or when every queued job's tenant has as many jobs counted as its quota |
| QueueSteps.PassLeavesNothingStartable | src/control-plane/async-queue.ts:274-293 | after a scheduler pass the global limit is reached, or every job left queued has a tenant at its quota |
| QueueSteps.PassTakesInTurn | src/control-plane/async-queue.ts:506-527 | a pass keeps the order of the jobs it leaves and takes each tenant's jobs first come, first served |
| QueueSteps.PassPutsFlagDownIff | src/control-plane/async-queue.ts:290-313 | a pass puts the processing flag down exactly when it leaves nothing queued and nothing counted in flight |
| QueueSteps.EnqueueAppendsIff | src/control-plane/async-queue.ts:149-169 | an enqueue with room is appended as a first attempt, with a pass due; without room it changes nothing |
| QueueSteps.ResolvedRunCompletes | src/control-plane/async-queue.ts:395-407 | a run that resolves ends its job as completed, for good through the pass that follows, and its effect is the next to have succeeded |
| QueueSteps.RejectedRunRetriesIff | src/control-plane/async-queue.ts:408-483 | a run that rejects is retried exactly while it has attempts left: its job waits under a timer; else it is dead-lettered |
| QueueSteps.TimerRequeuesIff | src/control-plane/async-queue.ts:425-449 | a timer appends its job as the next attempt, dead-letters it if the queue is full, and leaves it if the queue was stopped |
| QueueSteps.QuotaIsTheLastSet | src/control-plane/async-queue.ts:204-207 | after any run a tenant's quota is the last one set for it, at least one, or else the configured one, or else ten |
| QueueSteps.ActiveUntilStopped | src/control-plane/async-queue.ts:241-243 | over any run the queue is active exactly until it is first stopped |
| QueueSteps.TenantsListedAreBusy | src/control-plane/async-queue.ts:492-499 | over any run the tenants listed in flight are those with a count above zero |
| QueueSteps.ReapDropsOldLeases | src/control-plane/async-queue.ts:299-310 | a reap drops exactly the leases older than 30 seconds |
| QueueSteps.StartTakesLease | src/control-plane/async-queue.ts:373-395 | starting a fresh job leases its task as of that clock reading and starts its run |
| QueueSteps.ReleaseDropsLease | src/control-plane/async-queue.ts:500-502 | finishing drops a named task's lease and no other |
| QueueInvariant.SchedulerLeavesAwake | src/control-plane/async-queue.ts:290-292 | after a pass, queued work or a set processing flag means that a job is running |
| QueueInvariant.StepKeepsInv | src/control-plane/async-queue.ts:149-327 | every step of the event loop keeps the whole invariant |
| QueueInvariant.EveryRunKeepsInv | src/control-plane/async-queue.ts:149-527 | so does every run, of any length and order |
| AsyncQueue.AsyncTaskQueue.constructor | src/control-plane/async-queue.ts:128-147 | limits default as in the source and are at least one; the queue starts empty with the invariant |
| AsyncQueue.AsyncTaskQueue.Enqueue | src/control-plane/async-queue.ts:149-169 | the whole new state is that of the enqueue step; a full queue refuses and changes nothing |
| AsyncQueue.AsyncTaskQueue.HasCapacity | src/control-plane/async-queue.ts:171-173 | the answer counts in-flight, queued and really waiting jobs against depth and concurrency |
| AsyncQueue.AsyncTaskQueue.SetTenantQuota | src/control-plane/async-queue.ts:204-207 | sets the tenant's quota, at least one, and keeps the invariant |
| AsyncQueue.AsyncTaskQueue.Stop | src/control-plane/async-queue.ts:241-243 | later timers leave their jobs parked; the invariant is kept |
| AsyncQueue.AsyncTaskQueue.Kickoff | src/control-plane/async-queue.ts:266-272 | schedules one microtask unless the processing flag is set |
| AsyncQueue.AsyncTaskQueue.MicrotaskFires | src/control-plane/async-queue.ts:271 | a scheduled pass takes the queue to the state of the microtask step, keeping the invariant |
| AsyncQueue.AsyncTaskQueue.MaybeRunJobs | src/control-plane/async-queue.ts:274-293 | the loop over mutable fields refines the recursive scheduler function, and leaves inflight at the limit or every queued job's tenant at its quota, in the fields' own terms |
| AsyncQueue.AsyncTaskQueue.ReapExpiredLeases | src/control-plane/async-queue.ts:299-314 | drops exactly the leases older than the timeout, lowers inflight for each down to zero, and no tenant's count |
| AsyncQueue.AsyncTaskQueue.MarkEffectComplete | src/control-plane/async-queue.ts:320-326 | true exactly for an unmarked effect, which is then marked |
| AsyncQueue.AsyncTaskQueue.StartJob | src/control-plane/async-queue.ts:373-396 | takes a slot and a lease, then runs the job, or skips a duplicate and finishes it twice |
| AsyncQueue.AsyncTaskQueue.RunSucceeds | src/control-plane/async-queue.ts:395-407 | the completion step: the job is settled, its slot and lease given back, and the scheduler run |
| AsyncQueue.AsyncTaskQueue.RunThrows | src/control-plane/async-queue.ts:408-489 | the failure step: unmark, give back, schedule, then count as pending; or, exactly on the last attempt, the dead-letter callback with task, tenant and attempts |
| AsyncQueue.AsyncTaskQueue.TimerFires | src/control-plane/async-queue.ts:425-449 | the retry step: requeued with the next attempt, dead-lettered as that attempt exactly if the queue is full, parked if stopped |
| AsyncQueue.AsyncTaskQueue.FinishJob | src/control-plane/async-queue.ts:492-504 | both counters fall by one but not below zero, the lease goes, the scheduler runs |
| AsyncQueue.AsyncTaskQueue.FindRunnableJobIndex | src/control-plane/async-queue.ts:506-527 | the first queued job whose tenant has fewer in flight than its quota, the common one or ten; -1 if there is none |
| QueueModel.FindRunnableFrom | src/control-plane/async-queue.ts:506-527 | the first queued job whose tenant's count is below its quota: all before it are not; -1 means none is |
| OrchestratorProofs.TerminalRecordsAreFrozen | src/control-plane/orchestrator.ts:371-394 | in every interleaving a completed, failed, denied or revoked task keeps status, result and receipt for ever, and no task vanishes or changes owner, key, capability or agent |
| OrchestratorProofs.SynchronousAtMostOnce | src/control-plane/orchestrator.ts:101-154 | in every interleaving the synchronous path calls the executor at most once per task id and at most once per idempotency key |
| OrchestratorProofs.KnownDispatchOnlyAnswers | src/control-plane/orchestrator.ts:101-154 | a dispatch whose id or key has a record stores and executes nothing: it returns that record's outcome, waits for an accepted one, or fails |
| OrchestratorProofs.PolicyGate | src/control-plane/orchestrator.ts:165-174 | over every run with policy swaps, each synchronous or queued execution follows a dispatch of that very envelope answered allow; each approved one follows a dispatch of the task answered require_approval and then a matching approval of that very envelope |
| Approvals.ExecutedMeansAllowed | src/core/execution/index.ts:46-56 | in every run each synchronous or queued execution is of an intent that the policy then in force, the executor's on the queued path, allows |
| Approvals.SameRun | src/control-plane/orchestrator.ts:575-588 | a run depends on the policy evaluator only through the decisions it has logged: an evaluator that agrees with those takes the same run |
| Approvals.ApprovalRespectsPolicyIff | src/control-plane/orchestrator.ts:439-473 | after any run, an approval that matches executes under the policy in force, and every evaluator under which the run goes the same way lets it, exactly when that policy was asked about that intent in the run and did not deny it |
| Approvals.ApprovedDispatchIsSafeIff | src/control-plane/orchestrator.ts:439-473 | a dispatch, any policy swaps and its approval execute nothing denied, under every evaluator that asks for approval, exactly when the approval makes the dispatched intent and the policy in force is the one that answered |
| Approvals.ApprovedViewWasAnswered | src/control-plane/orchestrator.ts:439-473 | for any view of envelopes, such as the intent or the whole envelope: over every run in which each task is dispatched and approved with one view, every approved execution is of an envelope whose view was answered require_approval |
| Approvals.ApprovalRepeatsIff | src/control-plane/orchestrator.ts:439-473 | after a matched approval and any further steps, another request for the task calls the executor exactly when the record still awaits approval under its reference and it names the same capability and agent; the adapter executes exactly when it takes the request |
| Approvals.OverlappingApprovalsBothRun | src/control-plane/orchestrator.ts:439-473 | from the empty store, whatever is dispatched and answered require_approval reaches an adapter that takes it twice, when approved twice before the first outcome |
| Approvals.RevokedJobRunsIff | src/control-plane/orchestrator.ts:287-299 | after any run in which a queued job's task is revoked or otherwise terminal, and any further steps, policy swaps included, the record stays and the job still executes exactly when the executor's policy of that moment allows it and the adapter takes it |
| Approvals.CancelledJobStaysQueued | src/control-plane/orchestrator.ts:505-573 | every dispatch that is allowed and queued, then cancelled, leaves a revoked task whose job is still queued |
| JointGuarantees.JointRunIsBoth | src/control-plane/orchestrator.ts:283-333 | every run of the whole system is a run of the queue and a run of the orchestrator, so each one's guarantees hold in it |
| JointGuarantees.TaskCallsAreBounded | src/control-plane/orchestrator.ts:283-306 | in every run of the whole system the queued path calls the adapter at most maxAttempts times for one task |
| JointGuarantees.DispatchIsQueuedIff | src/control-plane/orchestrator.ts:243-338 | an allowed asynchronous dispatch is queued exactly when the queue has a place and jobs in flight, queued and waiting leave room; otherwise store and queue are as before |
| JointGuarantees.LastRejectionFailsTask | src/control-plane/orchestrator.ts:307-326 | a run that rejects on its last attempt leaves its job dead-lettered and its running task failed |
| JointGuarantees.DroppedRetryFailsTask | src/control-plane/async-queue.ts:425-446 | so does a retry that finds the queue full; a stopped queue leaves the task alone |
| JointProofs.AdapterCallsAreBounded | src/control-plane/async-queue.ts:395-448 | and at most maxAttempts times for one queued job |
| JointProofs.TokensResolveOnce | src/control-plane/async-queue.ts:384-416 | in every run of the whole system, of all queued runs with one idempotency token at most one resolves |
| JointProofs.SuspendedMeansRunning | src/control-plane/orchestrator.ts:287-306 | in every reachable state the suspended queued runs are exactly the jobs the queue has really running, one for each |
| JointProofs.StepKeepsCoupling | src/control-plane/orchestrator.ts:283-339 | every joint step keeps jobs, runs, effects and log of the two halves in agreement |
| JointGuarantees.PassIsPossible | src/control-plane/async-queue.ts:274-293 | a scheduler pass that is due can always start its runs on the orchestrator's side |
| JointGuarantees.EndIsPossible | src/control-plane/async-queue.ts:395-488 | a suspended queued run can always end, with any outcome, and start the runs its pass brings |
| Approvals.ApprovalClosesForGood | src/control-plane/orchestrator.ts:444-446 | once a task no longer awaits approval, no approval of it matches, after any further steps |
| OrchestratorProofs.DeniedDispatchStoresNothing | src/control-plane/orchestrator.ts:101-172 | a dispatch that the policy denies, new or known, stores, queues and executes nothing, and answers only if its task or key has a record |
| OrchestratorProofs.ApprovalIsNeverReached | src/control-plane/task-store.ts:46-58 | the table leads to awaiting_approval only from proposed, a status that is never stored |
| OrchestratorProofs.StepIsGood | src/control-plane/orchestrator.ts:71-573 | every step, in any order, keeps the lifecycle invariant and what is stored |
| OrchestratorProofs.RunIsGood | src/control-plane/orchestrator.ts:71-573 | so does every run |
| OrchestratorProofs.ReachableLookupEqualsScan | src/control-plane/orchestrator.ts:371-380 | in every reachable state the index is exact: a lookup by key finds a record exactly when a scan of all records does |
| OrchestratorProofs.SaveThenDelete | src/control-plane/orchestrator.ts:335-338 | taking a refused job's record back out restores the whole store, index included |
| Orchestrator.OrchestratorRuntime.constructor | src/control-plane/orchestrator.ts:39-53 | starts with the runtime's policy and an executor with its own, an empty store, and the invariant |
| Orchestrator.OrchestratorRuntime.SetPolicy | src/control-plane/orchestrator.ts:59-62 | swaps the policy of dispatch and of the executor together |
| Orchestrator.OrchestratorRuntime.Dispatch | src/control-plane/orchestrator.ts:71-382 | reply and whole new state, up to the first await, are those of the dispatch step; the invariant is kept |
| Orchestrator.OrchestratorRuntime.SaveForApproval | src/control-plane/orchestrator.ts:174-233 | the require_approval branch stores an awaiting record and its reference, or throws |
| Orchestrator.OrchestratorRuntime.SaveAndEnqueue | src/control-plane/orchestrator.ts:243-341 | the asynchronous branch, with its capacity check and its removal of a refused record |
| Orchestrator.OrchestratorRuntime.SaveAndExecute | src/control-plane/orchestrator.ts:343-382 | the synchronous branch: the accepted record is stored before the executor is called |
| Orchestrator.OrchestratorRuntime.Approve | src/control-plane/orchestrator.ts:405-473 | reply and state are those of the approval step up to its await |
| Orchestrator.OrchestratorRuntime.Resume | src/control-plane/orchestrator.ts:382-402 | reply and state are those of the resuming step, whose meaning AdapterOutcome and ReceiptOutcome state |
| Outcomes.AdapterOutcome | src/control-plane/orchestrator.ts:734-740 | a suspended call that gets an adapter's result completes the task if the adapter succeeded and fails it if not, with the adapter's content in result and receipt, and returns them; refused exactly when the task is proposed or has ended otherwise |
| Outcomes.ReceiptOutcome | src/control-plane/orchestrator.ts:686-731 | a core receipt completes, denies or defers the task; exactly when each is refused |
| Outcomes.RejectedOutcome | src/control-plane/orchestrator.ts:382-402 | a rejected execution throws and leaves the store as it was |
| Outcomes.QueuedRunResolvesIff | src/control-plane/orchestrator.ts:287-306 | a queued run resolves exactly when its call returns |
| Outcomes.KnownDispatchOutcome | src/control-plane/orchestrator.ts:101-154 | a dispatch whose key or else whose id has a record is answered from it exactly when the request is the record's own: its outcome, or a wait while it is accepted; otherwise it throws |
| Outcomes.ApprovalDispatchOutcome | src/control-plane/orchestrator.ts:174-233 | a first dispatch that needs approval stores an awaiting record with its fields and the reference approval:id |
| Outcomes.AllowedDispatchOutcome | src/control-plane/orchestrator.ts:236-382 | a first dispatch that is allowed stores a running record and a job, or neither if the queue refuses, or an accepted record and a call of the executor |
| Outcomes.WaitOutcome | src/control-plane/orchestrator.ts:803-816 | a waiting dispatch returns the stored outcome once the record is no longer accepted, or throws after 200 looks |
| Outcomes.ApproveOutcome | src/control-plane/orchestrator.ts:405-473 | an approval executes exactly when the request is in order and the stored record awaits it under its reference; otherwise it throws and changes nothing |
| Outcomes.CancelOutcome | src/control-plane/orchestrator.ts:505-573 | a task is revoked exactly when it is stored, is the given tenant's if one is given, and has not ended; otherwise nothing changes |
| Outcomes.DeadLetterOutcome | src/control-plane/orchestrator.ts:307-332 | a dead letter fails a task that has not ended and leaves one that has |
| Outcomes.DisallowedRunRejects | src/core/execution/index.ts:46-54 | a queued run that the executor's policy does not allow always rejects, and leaves its running task as it is |
| Orchestrator.OrchestratorRuntime.Poll | src/control-plane/orchestrator.ts:803-816 | a wake-up of a waiting dispatch: one more look, or the timeout after 200 |
| Orchestrator.OrchestratorRuntime.Look | src/control-plane/orchestrator.ts:804-811 | one look at the store, the first of them inside the dispatch: an outcome is returned only once the record is no longer accepted |
| Orchestrator.OrchestratorRuntime.RunJob | src/core/execution/index.ts:38-57 | a queued run is decided by the policy of that moment; the adapter executes only on allow |
| Orchestrator.OrchestratorRuntime.OnDeadLetter | src/control-plane/orchestrator.ts:307-332 | a dead letter marks the task failed unless the store refuses |
| Orchestrator.OrchestratorRuntime.CancelTask | src/control-plane/orchestrator.ts:505-573 | revokes a task that the tenant owns and that is in a cancellable status, otherwise throws and changes nothing |
| TaskStore.Tasks.Save | src/control-plane/task-store.ts:123-165 | exactly when it throws, and the whole new store otherwise |
| TaskStore.Tasks.Update | src/control-plane/task-store.ts:192-214 | exactly when it finds and when it throws; a refused update changes nothing |
| TaskStore.Tasks.Delete | src/control-plane/task-store.ts:255-266 | removes the record and its index entry |
| TaskStore.TransitionsGoForward | src/control-plane/task-store.ts:46-76 | statuses are ranked, transitions only go forward, and all steps forward are allowed but four |
| TaskStore.SaveRefusedIff | src/control-plane/task-store.ts:133-144 | a save is refused exactly for a forbidden transition or a key that leads to another task |
| TaskStore.SavedIsReadBack | src/control-plane/task-store.ts:146-162 | what was saved is read back by id and by key, and every other task is as it was |
| TaskStore.UpdateAcceptedIff | src/control-plane/task-store.ts:420-504 | an update is accepted exactly when it is consistent with the record and keeps the status, and a terminal outcome, or takes an allowed step with result and receipt |
| TaskStore.UpdateIsReadBack | src/control-plane/task-store.ts:203-211 | an update changes the fields it gives among context, status, result and receipt, and nothing else |
| TaskStore.UpdatesFreezeTerminal | src/control-plane/task-store.ts:478-494 | no update, whatever it carries, changes a terminal outcome |
| TaskStore.OtherOperationsFreezeTerminal | src/control-plane/task-store.ts:123-266 | nor does any operation except a save or delete of that id |
| TaskStore.SaveOverwritesTerminal | src/control-plane/task-store.ts:64-66 | a completed task saved again as completed with another result: the outcome changes |
| TaskStore.SaveFreezesTerminalIff | src/control-plane/task-store.ts:133-162 | a save of a terminal record's id leaves its outcome alone exactly when it throws or brings the stored result and receipt |
| TaskStore.SaveKeepsAgreementIff | src/control-plane/task-store.ts:137-162 | a successful save keeps keys unique and found exactly when it puts no key on the empty id |
| TaskStore.RunsKeepAgreement | src/control-plane/task-store.ts:123-266 | over any run of saves, updates and deletes, lookup by a stored task's key gives that task |
| TaskStore.AgreementMeansUniqueKeys | src/control-plane/task-store.ts:137-144 | no two stored tasks share a key |
| TaskStore.LookupEqualsScan | src/control-plane/task-store.ts:232-238 | with an exact index, a lookup finds a record exactly when a scan of all records does |
| TaskStore.SaveKeepsExactIff | src/control-plane/task-store.ts:137-162 | a successful save keeps the index exact exactly when it replaces no key of the task and puts none on the empty id |
| TaskStore.RunsKeepExact | src/control-plane/task-store.ts:123-266 | over any run of saves, updates and deletes in which each task id is saved under one key, the index stays exact |
| TaskStore.LookupEqualsScanInRuns | src/control-plane/task-store.ts:232-238 | after every such run from the empty store a lookup finds a record exactly when a scan does |
| TaskStore.DeleteKeepsExact | src/control-plane/task-store.ts:255-266 | a delete keeps the index exact |
| TaskStore.UpdateKeepsExact | src/control-plane/task-store.ts:425-432 | an update keeps the index exact, since keys cannot change |
| Receipts.ReceiptStore.Append | src/control-plane/receipt-store.ts:53-67 | refuses exactly an id stored with other content, else the receipt is stored, once, at the end |
| Receipts.AppendsExtend | src/control-plane/receipt-store.ts:53-67 | any sequence of appends, conflicts included, keeps map and order in agreement and everything earlier in place |
| Receipts.ListGrowsAtTheEnd | src/control-plane/receipt-store.ts:88-99 | every earlier list is a prefix of every later one, per tenant |
| Receipts.ListIsFaithful | src/control-plane/receipt-store.ts:88-99 | a list holds exactly the tenant's receipts, each once |
| Receipts.GetAgreesWithList | src/control-plane/receipt-store.ts:69-99 | get finds a receipt for a tenant exactly when that tenant's list contains it |
| Receipts.TenantsAreApart | src/control-plane/receipt-store.ts:83-99 | no receipt is visible under two different tenants |
| Receipts.OwnReceiptsAreListed | src/control-plane/receipt-store.ts:88-99 | a tenant's list holds a stored receipt exactly when it is the tenant's own; unnamed ones are the tenant default's; no name asks for all |
| Receipts.AppendAgain | src/control-plane/receipt-store.ts:53-62 | the same receipt again changes nothing, another text under its id is refused |
| ReceiptPaging.CursorResumesIff | src/server/read-routes.ts:927-939 | on a grown log a page's cursor resumes right after that page exactly when it is not empty |
| ReceiptPaging.PageMeans | src/server/read-routes.ts:927-939 | a page is the receipts after the cursor's, or from the beginning if it names none, as many as the limit or all that are left; then there is no next cursor |
| ReceiptPaging.Limit | src/server/read-routes.ts:917-923 | 100 if none is asked for, else the number asked for, brought into 1 to 500 |
| ReceiptPaging.EmptyIdRestarts | src/server/read-routes.ts:927-933 | with a first receipt of empty id, read one at a time, the cursor leads back to the same page |
| ReceiptPaging.TwoPageWalk | src/server/read-routes.ts:914-951 | walks exist: two pages over a log that grows in between |
| ReceiptPaging.WalkReadsEverythingOnce | src/server/read-routes.ts:914-951 | a walk to the last page, with appends and other limits in between, over a list without an empty id, reads every receipt present at that page once and in order, in no more pages than receipts |
| ReceiptPaging.WalkStands | src/server/read-routes.ts:924-939 | at every page of a walk, what was read is a prefix of the list and ends at the cursor |
| JcsProofs.SerializeIsCanonical | src/security/signing.ts:480-512 | two values print alike exactly when they are equal JSON values, member order aside |
| JsonReader.CanonicalTextReads | src/security/signing.ts:480-512 | a JSON reader that knows nothing of the serializer reads a value's canonical text, to its end, as an equal value |
| JsonReader.SerializedReads | src/security/signing.ts:480-512 | likewise inside a larger text, where the reader stops at the value's end |
| JsonReader.EscapedTextReads | src/security/signing.ts:493-495 | unescaping by the JSON escape table undoes escaping, for every string |
| JsonReader.EscapeIsMinimal | src/security/signing.ts:493-495 | only what must be is escaped, in the short form where there is one, else with lower-case hexadecimal digits |
| JcsProofs.TextIsReadBack | src/security/signing.ts:480-512 | no value's text is a proper prefix of another's where a value may end: text and what follows it determine the value |
| JcsProofs.EqualValuesSameText | src/security/signing.ts:502-509 | equal values print alike whatever the insertion order of members at any depth |
| JcsProofs.IntegerIsReadBack | src/security/signing.ts:424-437 | the decimal text of an integer determines it |
| JcsProofs.EscapeIsReadBack | src/security/signing.ts:493-495 | an escaped string up to its closing quote determines the string, surrogates included |
| JcsProofs.SortIsRight | src/security/signing.ts:503 | sorting puts distinct keys in code unit order and keeps all members |
| JcsProofs.BeforeIsCodeUnitOrder | src/security/signing.ts:503 | that order is by the smaller unit at the first difference, with prefixes first |
| JcsProofs.SortedIsUnique | src/security/signing.ts:503 | that order is the only one, so insertion order cannot show |
| JcsProofs.SerializeIsPaired | src/security/signing.ts:493-509 | a printed text has no unpaired surrogate, so encoding it as UTF-8 loses nothing |
| Signing.KeyByKid | src/security/signing.ts:359-361 | the first key with that id, and none exactly when no key has it |
| Signing.ActiveSigningKey | src/security/signing.ts:363-377 | the configured id's first bearer unless revoked; with no configured id the first key not revoked; none exactly when all are revoked |
| Signing.FreshSignatureVerifiesIff | src/security/signing.ts:547-720 | a fresh signature verifies exactly when the first key that bears the signer's id is usable and accepts the bytes |
| Signing.SignsIff | src/security/signing.ts:547-614 | signing succeeds exactly when a key is found, is not revoked, lists the scope, is for RS256 unless the profile is open, and has its private part; the error names the first to fail, and the signature is of header and payload |
| Signing.VerifiesIff | src/security/signing.ts:635-720 | a text verifies exactly when it is a header, the payload and a signature joined by dots, and the first key of the header's id is not revoked, is for its algorithm, lists the scope and accepts the signature |
| Signing.HeaderReads | src/security/signing.ts:587-592 | a header's text reads as its JSON object |
| Signing.HeaderSpells | src/security/signing.ts:587-591 | that object says the algorithm's name, the key id and the type MAPSIG |
| Signing.SignThenVerify | src/security/signing.ts:616-732 | with unique key ids and an unchanged key set every signature made verifies for its payload and scope |
| Signing.DuplicateKidBreaksRoundTrip | src/security/signing.ts:359-361 | with one id on a revoked and an active key, a fresh signature does not verify |
| Signing.SignatureBindsPayload | src/security/signing.ts:673-677 | a signature that verifies for two payloads, under any key sets and scopes, shows that they are the same JSON value |
| Signing.EqualPayloadsVerifyAlike | src/security/signing.ts:722-732 | equal payloads verify alike |
| Signing.SpellingVerifiesIff | src/security/signing.ts:679-704 | where one spelling of the last part of a signature verifies, another does exactly when the key accepts its bytes |
| Signing.ExactSignatureIsUnique | src/security/signing.ts:680-691 | with shared secrets and signatures compared as texts, a header and a payload would have one signature |
| Signing.SoundIsPossible | src/security/signing.ts:592-613 | the facts assumed of the library functions can all hold together |
| Signing.ExampleIsSound | src/security/signing.ts:592-613 | also with any reflexive comparison of signatures |
| TokenReplay.SeenTokenUses.Cleanup | src/runtime/micro-agent.ts:110-117 | removes exactly the entries that have expired, whatever the order of the loop |
| TokenReplay.SeenTokenUses.AssertAuthorized | src/runtime/micro-agent.ts:34-87 | outcome and new map are those of the specification's check |
| TokenReplay.VerifiedTokensBind | src/security/signing.ts:792-873 | two tokens that verify with one signature expire at the same time |
| TokenReplay.PassIsRemembered | src/runtime/micro-agent.ts:50-55 | after a use its entry stays until the token has expired |
| TokenReplay.PassesIff | src/runtime/micro-agent.ts:45-55 | in any run a call passes exactly when it gets to the replay check with a token not yet expired and no earlier use under the same key, of signature text and task id, is still valid as it cleans up |
| TokenReplay.OutcomesIff | src/runtime/micro-agent.ts:34-87 | in any run, exactly when a call is authorized, rejected by the binding checks after it has used the token, a replay, expired or refused |
| TokenReplay.KeysNamePairs | src/runtime/micro-agent.ts:50 | keys of colon-free signatures are equal exactly for the same signature and task |
| TokenReplay.OtherTaskPasses | src/runtime/micro-agent.ts:50-55 | using a token for one task does not use it for another |
| TokenReplay.TokenVerifiesIff | src/security/signing.ts:864-873 | a token verifies exactly when its signature is one of its payload under a key for delegation tokens |
| TokenReplay.EachPairPassesOnce | src/runtime/micro-agent.ts:45-55 | if no call's token expires between its two clock readings, each pair of signature text and task passes at most once in any run |
| TokenReplay.SecondPassIff | src/runtime/micro-agent.ts:45-55 | a used pair of signature text and task passes again exactly when the token is in order and expires between the two readings |
| TokenReplay.GrantsPassOnceIff | src/runtime/micro-agent.ts:50-55 | per header, payload and task, one-time use holds in all runs without such an expiry exactly when no grant verifies with two spellings of its signature |
| TokenReplay.RespelledTokenReplays | src/runtime/micro-agent.ts:50-55 | every token that verifies with a second accepted spelling is authorized twice for one task |
| TokenReplay.RespelledTokenExists | src/security/signing.ts:685-691 | there are such tokens, under library functions of which all the assumed facts hold |
| TokenReplay.ExactComparisonMeansOneSpelling | src/security/signing.ts:685-691 | with shared secrets and signatures compared as texts, each grant has one spelling |
| TokenReplay.StraddlingCallReplays | src/runtime/micro-agent.ts:46-51 | any token that verifies is authorized twice for one task when the second call reads the clock just before and at its expiry |
| Versions.CompareVersions | src/protocol/map-types.ts:507-519 | the loop computes the specified comparison |
| Versions.CompareIsAPreorder | src/protocol/map-types.ts:507-519 | antisymmetric up to sign, and transitive, under zero padding, for versions of numbers |
| Versions.CompareMeans | src/protocol/map-types.ts:507-519 | for versions of numbers comparison says which is newer: greater at the first difference, missing components being zero |
| Versions.CompatibleMeans | src/protocol/map-types.ts:521-543 | same major version and, backward, a server not newer than the client; forward, a client not newer than the server |
| Versions.ParsesParts | src/protocol/map-types.ts:508-509 | a version's components are what its parts between dots convert to |
| Versions.FirstDifferenceDecides | src/protocol/map-types.ts:512-518 | the first differing component decides the comparison |
| Versions.NaNBreaksTransitivity | src/protocol/map-types.ts:508-518 | with a component that is not a number the comparison is not transitive |
| Versions.ChainsThroughIff | src/protocol/map-types.ts:507-519 | all versions of numbers compare transitively through a given one exactly when it has no component that is not a number |
| Versions.SelectVersion | src/protocol/map-types.ts:545-567 | null exactly when no pair is compatible, else a compatible server version, and for versions of numbers a greatest one over all compatible pairs |
| Versions.FirstPairIsBest | src/protocol/map-types.ts:559-565 | the first hit of the nested search over descending lists is not below any compatible pair's server version |
| Versions.SortIsDescending | src/protocol/map-types.ts:552-557 | sorting with the reversed comparison gives a descending list |
| EventStream.Parser.ParseSSE | packages/typescript/src/client.ts:545-582 | events and new buffer are those of the specified feed |
| EventStream.BlockData | packages/typescript/src/client.ts:553-562 | the data of a block is its last data line, trimmed, and empty if it has none |
| EventStream.LastDataLine | packages/typescript/src/client.ts:556-562 | reading lines leaves the last data line, trimmed |
| EventStream.LastEventLine | packages/typescript/src/client.ts:557-558 | and the last event line, trimmed |
| EventStream.TrimMeans | packages/typescript/src/client.ts:558-560 | trimming takes away the white space at both ends, all of it, and nothing else |
| EventStream.FeedTwice | packages/typescript/src/client.ts:547-550 | feeding two chunks gives the events and buffer of feeding their concatenation |
| EventStream.ChunkingDoesNotMatter | packages/typescript/src/client.ts:545-582 | so does feeding any number of chunks, however the text is cut |
| EventStream.ServerEventsArrive | src/server/read-routes.ts:1174-1198 | however the server's stream is cut, the client reports exactly the events written, in order, and heartbeats add none |
| EventStream.BlockReadsBack | src/server/read-routes.ts:1174-1177 | one written frame is read back as its event |
| Splitting.SplitInTwo | packages/typescript/src/client.ts:547-550 | splitting a text that arrives in two parts leaves only the last piece of the first part open |
| Splitting.JoinOfSplit | packages/typescript/src/client.ts:549 | splitting loses nothing |
| Splitting.SplitOfJoin | src/protocol/map-types.ts:508 | pieces without the separator come back from their join |

## Left out

- Versions.SelectVersion: optimality is stated for versions made of numbers; with NaN the library sort's result is implementation-defined, so nothing can be said beyond the first three clauses. Infinite components are not modelled.
- QueueGuarantees.AccountingIsExact: says nothing of a lowered quota, because a tenant with more jobs running than its new quota stays over it until they end.
- At-most-once execution is not claimed of approvals or queued runs: overlapping approvals both execute, and the queue may retry a run.
- Filling free slots at once: `kickoff` does nothing while processing, so a new job may wait for a running one; `NoLostWakeUp` is the promise kept.
- Job runs that throw before their first await, or that call back into the queue synchronously, and dead-letter callbacks that throw.
- Fractional, NaN and infinite limits and quotas; retry delays and their jitter (a timer may fire at any time).
- The dead-letter list (only the callback's arguments are modelled, without error text and time), outbox, quarantine list, statistics, logging and the unused requeue.
- The orchestrator's own guarantees take the queue at its weakest: an accepted job may run or be dead-lettered any number of times, at any time. `JointModel` joins it to the real queue.
- The policy evaluator, the making of intents and the adapters are uninterpreted. Envelope, schema, negotiation and intent validation, and whether the receipt store takes a receipt, are inputs of a step.
- The context id that is made up when a request names none. Updates that pass an explicit undefined, record timestamps, negotiation details, history lengths.
- Persistence: files, SQLite and hydration (I/O). Only the state in memory is modelled.
- HMAC, RSA, base64url, UTF-8 and JSON parsing: functions with the facts listed in `Signing.Sound`. Which spellings base64url decodes to the same bytes is not modelled; `sameBytes` may accept any.
- Numbers that are not integers or reach 1e21, and undefined members, in canonical JSON.
- Signature metrics, the nonce cache, and the separate key-use check by artifact type.
- The order and contents of the binding checks after the replay check: one input says whether they all pass.
- HTTP, headers, ETags, webhooks and notifiers; decoding, reconnecting and polling around the stream parser; its second parse of text that did not parse.
- Schema validation, generated types, conformance programs, demos and the Go client.
