# Verification of the Nexus cluster runtime

Dafny models of the parts of Nexus that have to be right under concurrency, crashes and
partial information, with machine-checked proofs of what they guarantee. Check everything with
`dafny verify dfyconfig.toml`.

## What is modelled

**Distributed task execution.** `TaskOwnership` is the generation-fenced ownership registry and
`TaskCompletion` the status machine of completion records. `ClusterExecution` composes runtimes,
one cluster backend and one dispatcher into an interleaved step system: any number of `run` calls,
each with its own program counter, one step per lock-protected method, membership and leadership
changing between any two steps, executor bodies overlapping freely. `ClusterSafety` proves what
every interleaving keeps, `ClusterAuthority` when the in-flight authority check answers rightly,
`ClusterSteps` when an attempt fails and what each step writes, `ClusterOutcomes` which delivered
values are stored and which records an ended run leaves, `ClusterScenario` states in which these
fail, and `ClusterObjects` ties the same steps to the objects with their fields. `TaskWorker` is
the second consumer of the completion records. `CrashConsistency` is the runtime with its durable
store, crashed and restarted at any point, and `AnswerDurability` says which of its answers survive.

**The durable log.** `HashChain` and `HashChainStore`: append with rotation, validation across two
files, checkpoint, export and application of deltas. SHA-256 is a parameter; only the equal-tips
theorem asks anything of it, and only about the logs compared.

**Protocols and control loops.** `FailoverOrchestrator` (failover observation and its timeline),
`HubAdmission` (bounded admission under concurrent workers), `HarnessVerdict` and `HarnessFailover`
(what the verdicts of the validation harness mean), `ReplayProtection` (the purging replay cache),
`ClusterMode` and `Leadership` (quorum configuration, promotion and reconciliation of the MASTER
role), `Framing` (length-prefixed messages), `Percentiles`, `CampaignRuns` (run records and campaign
totals, and their agreement with the orchestrator) and `TokenBucket`.

Code that updates state in place is a class or a method with loops, proved against a function of
its inputs or old state; the theorems are about those functions and about all runs of them.

## What the proofs found

- The in-flight authority check is keyed by (task, node), not by generation, although its
  docstring speaks of the active execution generation (nexus/compute/dispatcher.py:254-279). A
  superseded execution can pass it when the task was claimed again for the same node, and the
  current owner can be refused: because the superseded execution leaves and takes the entry with
  it (`ClusterScenario.SupersededExecutionMayPassTheCheck`), or because it recorded its own entry
  late (`ClusterScenario.LateAuthorityRefusesTheOwner`). The exact condition is
  `ClusterAuthority.CurrentExecutionIsAcceptedExactlyWhen`, and for any asker
  `ClusterAuthority.AcceptsExactlyWhenBacked`. Results and failures stay consistent regardless.
- A claim refused because the task is already owned is published as the task's failure while the
  owner still executes, and then shuts out the owner's value
  (`ClusterScenario.RefusedClaimMayShutOutTheOwner`). A delivered value becomes the stored outcome
  if and only if nothing was published before (`ClusterOutcomes.DeliveredValueIsStoredExactlyWhen`).
- When the owner's result is published first, publishing the refused run's failure raises inside
  the failure handling, and its record stays running for good although the run has ended
  (`ClusterScenario.RecordMayStayRunning`; exact condition in `ClusterOutcomes.RecordAtTheEnd`).
- A worker looks its task up before starting it, so a record created and cancelled after that
  lookup does not keep the handler from running (`TaskWorker.LateCancellationDoesNotStopTheHandler`);
  a record that exists when it is cancelled always does, for every worker not yet inside the
  handler (`TaskWorker.CancelledTaskNeverReachesItsHandler`).
- `blocks_from_height` skips every block whose payload is the rotation anchor, so a follower
  catches up completely if and only if no missing block has that payload (`HashChain.CatchUp`).
- Log rotation is not crash-atomic: of its four stop points exactly the one between rename and
  anchor breaks the chain at the next append (`HashChain.AppendAfterStop`), and removing `.1` or
  writing the anchor can leave a checkpoint that no longer fits (`HashChain.ValidationAtStop`), as
  can any stop between blocks and checkpoint; the next append restores it
  (`HashChain.ValidationBeforeCheckpoint`, `HashChain.AppendRestoresTheCheckpoint`).
- A log that validates from genesis need not be the whole history: it can be the end of a longer
  one, only if it begins with an anchor (`HashChain.EqualTipsShareHistory`), and every anchor of a
  valid log is such a beginning (`HashChain.CutAtAnchorValidates`).
- A MASTER that yields to a greater one can be promoted again in the same poll when that MASTER
  does not answer: it is no candidate, yet it counts towards the majority
  (`Leadership.YieldingNodeMayLeadAgain`, with the exact condition in
  `Leadership.PromotesExactlyWhen`). Reconciliation keeps the greatest master exactly when its own
  view claims no greater one (`Leadership.OnlyTheGreatestRemains`); otherwise nobody may remain
  (`Leadership.NobodyMayRemain`).
- `validate_run` accepts a record classified valid that says it did not converge
  (`CampaignRuns.ValidNeedNotHaveConverged`): acceptance ignores that field altogether
  (`CampaignRuns.AcceptanceIgnoresOutcome`). Records made by the orchestrator never say so
  (`CampaignRuns.OrchestratedRunsValidate`).
- An idempotent `run` returns a completed record even when the save after completing it failed
  (`AnswerDurability.IdempotentAnswerMayBeLost`). An answer is durable if and only if some save
  succeeded after the step that completed its record, which a successful `persist` always secures
  (`AnswerDurability.AnswerIsDurableExactlyWhenSaved`, `AnswerDurability.PersistSecuresTheAnswer`).

## Assumptions

- Identifiers are stripped and non-empty inside the step systems; the registries' own methods
  normalise them, on ASCII white space.
- Time is real-valued and, where a theorem needs it, non-decreasing; arithmetic is exact.
- Crash properties take one atomic replacement per save and no `cleanup` during the run.
- Log payloads are told apart by `str(payload)`, as the hash does; payloads reload unchanged.
- Harness samples are sorted by time and lie inside the window; node ids are distinct.
- What code outside these parts does (executors, handlers, sockets, probes, the hub's listing, the
  scheduler's choice) is an arbitrary parameter.

## Model

| member | source | states |
|---|---|---|
| `TaskOwnership.TokenNeverReturns` | nexus/compute/task_ownership.py:52-228 | a (task, node, generation) token that was current and stopped being current is never current again, whatever claims, releases and reclaims follow |
| `TaskOwnership.GenerationsAreConsecutive` | nexus/compute/task_ownership.py:52-86 | over any run the successful claims of a task are handed 1, 2, 3, ... with no gap and no repeat |
| `TaskOwnership.OwnershipIsConserved` | nexus/compute/task_ownership.py:52-181 | claims granted = releases accepted + ownerships reclaimed + ownerships live, after any run |
| `TaskOwnership.TaskOwnershipRegistry.Claim` | nexus/compute/task_ownership.py:52-86 | new state and answer of `claim`: blank ids and owned tasks refused, otherwise the next generation |
| `TaskOwnership.TaskOwnershipRegistry.Release` | nexus/compute/task_ownership.py:111-157 | only the current token releases; every refusal leaves the registry as it was |
| `TaskOwnership.TaskOwnershipRegistry.AssertCurrent` | nexus/compute/task_ownership.py:183-228 | accepts if and only if the normalised token is the current one; otherwise names the first check that fails |
| `TaskOwnership.TaskOwnershipRegistry.ReclaimOrphaned` | nexus/compute/task_ownership.py:159-181 | drops exactly the ownerships of nodes not online, returns exactly those, keeps all generations |
| `ClusterSafety.OutcomesAreWriteOnce` | nexus/compute/cluster.py:107-159 | in every interleaving, a published result or failure is never changed or withdrawn |
| `ClusterSafety.AtMostOneOutcome` | nexus/compute/cluster.py:107-159 | at no two instants does a task have a result and a failure; a stale-ownership error is never the published failure |
| `ClusterSafety.ReturnedIsAuthoritative` | nexus/compute/cluster.py:161-235 | what a returned run saw is the one stored result, then and for ever after |
| `ClusterSafety.AllReturnsAgree` | nexus/compute/runtime.py:178-267 | any two runs of any runtimes that return for a task return the same result |
| `ClusterSafety.CompletedRecordsAgree` | nexus/compute/runtime.py:178-267 | two runtimes that both record a task as completed record the same result |
| `ClusterSafety.NoReturnAroundAFailure` | nexus/compute/cluster.py:107-235 | a task with a published failure has no returned run, before or after |
| `ClusterSafety.DeliveryMeansHeldThroughout` | nexus/compute/dispatcher.py:281-316 | a dispatch that hands over its executor's value or own error, an own stale-ownership error included, held its generation at every instant from claim to release, and no other dispatch claimed the task in between |
| `ClusterSafety.DeliveringDispatchesAreDisjoint` | nexus/compute/dispatcher.py:281-316 | the claim-to-release intervals of delivering dispatches of one task are pairwise disjoint although executor bodies overlap |
| `ClusterSafety.SupersededSurfacesAsStale` | nexus/compute/dispatcher.py:281-316 | in every behavior a dispatch that lost its generation at any instant after its claim ends as a stale-ownership error, whatever its executor did, and takes nothing from the registry |
| `ClusterAuthority.CurrentExecutionIsAcceptedExactlyWhen` | nexus/compute/dispatcher.py:254-316 | in every behavior an execution whose token is current passes the check if and only if no other run of its task wrote or removed the authority of that node since its own write |
| `ClusterAuthority.AcceptsExactlyWhenBacked` | nexus/compute/dispatcher.py:254-316 | in every behavior the check accepts (task, node) if and only if some run of the task is in its body on that node with the current token and was left alone since its own write |
| `ClusterAuthority.SupersededPassesExactlyWhen` | nexus/compute/dispatcher.py:254-316 | a superseded execution passes if and only if another run of its task is so backed on its node |
| `ClusterOutcomes.DeliveredValueIsStoredExactlyWhen` | nexus/compute/cluster.py:107-125 | in every behavior a delivered value is accepted if and only if no failure was published before, and becomes the stored result, with its own task, output and time, for good if and only if nothing was |
| `ClusterOutcomes.StoredWasPublished` | nexus/compute/cluster.py:107-159 | an outcome is stored if and only if some earlier step published it |
| `ClusterOutcomes.RecordAtTheEnd` | nexus/compute/runtime.py:178-267 | in every behavior a run that ended after starting its record leaves the kept record running if and only if nobody else ended it and its last failure was refused or its error text was blank; otherwise it is terminal |
| `ClusterOutcomes.FailureIsRefusedExactlyWhen` | nexus/compute/runtime.py:214-250 | a run ends with its failure refused if and only if its last failure would be published and a result already was |
| `ClusterOutcomes.FailedRunRecords` | nexus/compute/runtime.py:214-257 | in every behavior a run that ends after a failure leaves its live record failed with exactly the text of the failure stored for the task, when its last failure was publishable, and otherwise with its own error text |
| `ClusterOutcomes.ReturnedRunRecords` | nexus/compute/runtime.py:254-267 | in every behavior a run that returns after computing leaves its record completed with the result it returns |
| `ClusterOutcomes.RepeatedRunAnswers` | nexus/compute/runtime.py:155-176 | a run that returns at once answers the completed record it found, asked idempotently, and writes nothing |
| `ClusterOutcomes.FailedRecordsAgree` | nexus/compute/runtime.py:214-250 | two runtimes whose last failures were published record the same error text, whenever they end |
| `ClusterOutcomes.AttemptsAreBounded` | nexus/compute/runtime.py:178-246 | no run is ever past its attempt limit |
| `ClusterSteps.AttemptFailsExactlyWhen` | nexus/compute/dispatcher.py:191-368 | in which states a step fails an attempt, with which error, and that only a failure to select counts as one without a backend |
| `ClusterSteps.RegistryIsWritten` | nexus/compute/dispatcher.py:281-368 | what each step does to the ownerships: the reclaim even for a leader found stale, the claim, the release of the current token, and no other |
| `ClusterSteps.OutcomesAreWritten` | nexus/compute/cluster.py:107-159 | what each step does to the published outcomes: the first result or failure only, and only publishable last failures |
| `ClusterOutcomes.RecordWhileRunning` | nexus/compute/runtime.py:178-267 | before its run ends, a kept record is terminal if and only if somebody else ended it |
| `ClusterAuthority.AuthorityCheckIsPerNode` | nexus/compute/dispatcher.py:254-279 | in every reachable state acceptance guarantees that the node owns the task, and speaks for an execution if and only if its generation is the newest handed out for the task |
| `ClusterAuthority.HeldApartHolds` | nexus/compute/dispatcher.py:281-316 | no two runs of a task ever hold the same generation |
| `ClusterScenario.SupersededExecutionMayPassTheCheck` | nexus/compute/dispatcher.py:281-316 | a reachable state in which a superseded execution passes the authority check, after which its exit removes the authority of the current owner |
| `ClusterScenario.LateAuthorityRefusesTheOwner` | nexus/compute/dispatcher.py:287-299 | a reachable state in which the current owner is refused though nobody has left, because a superseded run recorded its authority late |
| `ClusterScenario.RecordMayStayRunning` | nexus/compute/runtime.py:222-257 | a reachable state in which a run has ended and its record is still running |
| `ClusterScenario.RefusedClaimMayShutOutTheOwner` | nexus/compute/runtime.py:222-246 | a reachable state in which a refused claim was published as the failure while the owner executed, and one later in which the owner's value is shut out |
| `ClusterObjects.ClusterBackend.PublishTerminalResult` | nexus/compute/cluster.py:107-125 | new state and answer; refused exactly after a published failure, and otherwise the stored result is answered |
| `ClusterObjects.ClusterBackend.PublishTerminalFailure` | nexus/compute/cluster.py:136-159 | new state and answer; refused exactly after a published result, and otherwise the stored failure's text is answered |
| `ClusterObjects.ClusterBackend.Run` | nexus/compute/cluster.py:161-235 | one call alone: exactly when it returns, which error it raises, what it stores, and which of the counters move |
| `ClusterObjects.ClusterDispatcher.Enter` | nexus/compute/dispatcher.py:281-299 | claims and records the generation as the authority, or changes nothing |
| `ClusterObjects.ClusterDispatcher.Leave` | nexus/compute/dispatcher.py:307-316 | drops the authority of (task, node) and releases; the executor's outcome survives if and only if the token was still current |
| `ClusterObjects.ClusterDispatcher.AssertExecutionCurrent` | nexus/compute/dispatcher.py:254-279 | accepts if and only if an authority is recorded for (task, node) and that token is current |
| `TaskCompletion.RunsStayTimed` | nexus/compute/task_completion.py:209-364 | over any run of operations finish times exist exactly for terminal records, and start times for every running one |
| `TaskCompletion.StatusOnlyAdvances` | nexus/compute/task_completion.py:209-364 | a kept record goes from pending, perhaps through running, to one terminal state that never changes |
| `TaskCompletion.RecordsAppearPendingAndLeaveTerminal` | nexus/compute/task_completion.py:615-655 | records appear only as pending and disappear only when terminal |
| `TaskCompletion.RestoreInvertsExport` | nexus/compute/task_completion.py:487-582 | restoring any export gives back every record with its status, result and error, running ones as failed with the interruption text |
| `TaskCompletion.RestoresExactly` | nexus/compute/task_completion.py:500-582 | every list of well-formed entries with different ids is accepted; the ids are the entries' stripped ids, and each entry comes back with its own status, result or error, a running one as failed with the interruption text |
| `TaskCompletion.RefusesForTheFirst` | nexus/compute/task_completion.py:500-582 | any other list is refused for its first bad entry, with the error that entry's own fault names |
| `TaskCompletion.RecoveryIsIdempotent` | nexus/compute/task_completion.py:500-582 | recovering twice is recovering once, and nothing recovered is running |
| `TaskCompletion.RestoreState` | nexus/compute/task_completion.py:500-582 | for any input, well formed or not: the restored records, or the first error by the source's precedence |
| `TaskCompletion.RestoredIsClean` | nexus/compute/task_completion.py:500-582 | whatever is restored has stripped ids and error texts where needed, and nothing is running |
| `TaskCompletion.CountRecords` | nexus/compute/task_completion.py:584-613 | the counting loop's five counts are the numbers of records in each state and sum to the total |
| `TaskCompletion.TaskCompletionRegistry.Create` | nexus/compute/task_completion.py:209-226 | new state and refusal of `create`, keeping timestamps consistent |
| `TaskCompletion.TaskCompletionRegistry.Start` | nexus/compute/task_completion.py:237-264 | new state and refusal of `start`: only a pending record becomes running |
| `TaskCompletion.TaskCompletionRegistry.Complete` | nexus/compute/task_completion.py:266-298 | new state and refusal of `complete`: any record not yet terminal |
| `TaskCompletion.TaskCompletionRegistry.Fail` | nexus/compute/task_completion.py:300-332 | new state and refusal of `fail`, a blank error text included |
| `TaskCompletion.TaskCompletionRegistry.Cancel` | nexus/compute/task_completion.py:334-364 | new state and refusal of `cancel` |
| `TaskCompletion.TaskCompletionRegistry.Cleanup` | nexus/compute/task_completion.py:615-655 | removes exactly the records finished at least max_age ago, with their times, and counts them |
| `TaskCompletion.TaskCompletionRegistry.TakeSnapshot` | nexus/compute/task_completion.py:584-613 | each count is the number of records in that state; the five sum to the total |
| `TaskCompletion.TaskCompletionRegistry.ExecutionObservability` | nexus/compute/task_completion.py:438-485 | running equals the snapshot's running count, the long-running count is exact, and the maximum elapsed time is an upper bound that is attained |
| `TaskCompletion.TaskCompletionRegistry.ExportState` | nexus/compute/task_completion.py:487-498 | lists every record exactly once |
| `TaskWorker.WorkersKeepRecordsTimed` | nexus/compute/task_worker.py:40-101 | with any number of interleaved workers, timestamps stay consistent with statuses |
| `TaskWorker.KeptRecordsOnlyAdvance` | nexus/compute/task_worker.py:40-101 | with any number of interleaved workers, a kept record only advances and a terminal one never changes |
| `TaskWorker.CancelledTaskNeverReachesItsHandler` | nexus/compute/task_worker.py:40-73 | in every interleaving, wherever each worker stands at the cancellation, no worker that is not already inside the handler is found there while the record is kept |
| `TaskWorker.HandlerEntry` | nexus/compute/task_worker.py:40-73 | exactly when a worker enters a handler |
| `TaskWorker.HandlerExit` | nexus/compute/task_worker.py:73-101 | a handler's outcome is reported exactly when its record is still there and not cancelled |
| `TaskWorker.StepsAloneConsume` | nexus/compute/task_worker.py:40-101 | the interleaved steps of a worker that is left alone add up to one `run_once` on the head of the queue |
| `TaskWorker.LateCancellationDoesNotStopTheHandler` | nexus/compute/task_worker.py:40-73 | a run in which a record created and cancelled after the lookup does not stop the handler |
| `TaskWorker.ConsumeSettlesTheRecord` | nexus/compute/task_worker.py:40-101 | what one consumed task leaves in its record, for every status it may have and every handler outcome |
| `TaskWorker.TaskWorker.RunOnce` | nexus/compute/task_worker.py:40-101 | one task leaves the queue; records, answer and handler invocations are exactly those of the specification |
| `TaskWorker.ConsumeAllFollowsTheQueue` | nexus/compute/task_worker.py:103-111 | results are the handlers' values in queue order, and what was raised belongs to the next task |
| `TaskWorker.TaskWorker.RunUntilEmpty` | nexus/compute/task_worker.py:103-111 | records, results and what was raised are those of consuming the queue task by task up to the first that raises, and the queue keeps the rest |
| `CrashConsistency.CrashConsistency` | nexus/compute/runtime.py:155-267 | at every crash point of every run: an id whose backend was entered is recovered, never as pending or running; as completed only with an output the backend returned for it; everything acknowledged is recovered as completed with that output |
| `CrashConsistency.AtMostOneCallEnters` | nexus/compute/runtime.py:178-267 | across all restarts at most one `run` call enters the backend for an id, at most max_attempts times |
| `CrashConsistency.RecoveryIsStable` | nexus/compute/completion_store.py:19-79 | recovering, saving and recovering again gives the same records |
| `CrashConsistency.RecoversTheFile` | nexus/compute/completion_store.py:61-79 | after any actions, what a restart recovers are the ids of the durable file, each with its durable status, error and output, a running one as failed with the interruption text |
| `CrashConsistency.SavedComesBack` | nexus/compute/completion_store.py:19-79 | after a successful save in any state, a crash recovers every record in memory with its status, error and output, running ones as interrupted |
| `AnswerDurability.AnswerIsDurableExactlyWhenSaved` | nexus/compute/runtime.py:155-267 | after any actions, the answer of any call is recovered as completed if and only if some save succeeded after the step that completed its record |
| `AnswerDurability.DurableExactlyWhenSaved` | nexus/compute/runtime.py:254-267 | the same for any record completed in memory, answered or not |
| `AnswerDurability.PersistSecuresTheAnswer` | nexus/compute/runtime.py:73-83 | a successful `persist` makes every completed record durable for good |
| `AnswerDurability.DurableForever` | nexus/compute/completion_store.py:19-79 | what is recovered as completed once is so after any later actions and crashes |
| `AnswerDurability.IdempotentAnswerMayBeLost` | nexus/compute/runtime.py:155-176 | a reachable state in which a repeated idempotent call has returned a result that recovery would report as failed |
| `CrashConsistency.ReachedIsConsistent` | nexus/compute/runtime.py:133-267 | everything proved of action sequences holds of each state the runtime object mirrors, so at each of its intermediate points |
| `CrashConsistency.ComputeRuntime.Load` | nexus/compute/completion_store.py:61-79 | a new process holds the ids of the durable file, each with its durable status unless that was running, and then as failed with the interruption text |
| `CrashConsistency.ComputeRuntime.Run` | nexus/compute/runtime.py:147-267 | records, durable file and answer for a known id, and for a new one by the first attempt that yields or the last one allowed, for every pattern of failing saves |
| `CrashConsistency.NewCallLeaves` | nexus/compute/runtime.py:178-267 | a new call with working saves records, saves and answers the output of the first attempt that yields, and records the error of the last attempt if none does |
| `CrashConsistency.ComputeRuntime.Cancel` | nexus/compute/runtime.py:133-145 | cancels exactly a live record, and saves |
| `CrashConsistency.ComputeRuntime.Attempts` | nexus/compute/runtime.py:178-267 | the attempt loop records the deciding attempt and answers its output only if the last save succeeded |
| `HashChain.EveryRunStaysValid` | persistence.py:20-297 | any run of append with rotation, apply and reopen keeps whole-chain validation succeeding across both files, `last_hash` the last stored hash and the checkpoint current |
| `HashChain.RunsFromFresh` | persistence.py:281-297 | for runs from an empty store: validation answers the tip, reopening changes nothing, the checkpoint holds height and tip |
| `HashChain.AppendAfterStop` | persistence.py:33-57 | for every point at which a rotation may stop: after reopening, the next append leaves a valid chain if and only if the stop is not the one between rename and anchor, or the tip was the all-zero digest |
| `HashChain.ValidationAtStop` | persistence.py:281-297 | what `validate_chain` answers at every such point before that append: the checkpoint no longer fits once blocks it counts are gone or the tip moved |
| `HashChain.ValidationBeforeCheckpoint` | persistence.py:59-81 | what `validate_chain` answers after a block of an append, or any prefix of a delta, was written and the checkpoint was not: the chain is sound, the checkpoint fits only in the cases named |
| `HashChain.ValidationAfterRotatedBlock` | persistence.py:59-81 | the same for an append that rotated first |
| `HashChain.AppendRestoresTheCheckpoint` | persistence.py:181-231 | after any prefix of a delta without its checkpoint, the next append leaves a valid store |
| `HashChain.CrashInsideRotationBreaksTheChain` | persistence.py:33-57 | at the stop after the rename the next append leaves a chain reported as broken |
| `HashChain.EqualTipsShareHistory` | persistence.py:83-129 | of two valid logs with equal tips the shorter is the end of the longer; a strictly longer one exists only if the shorter begins with an anchor, and histories are equal if and only if the lengths are, unless the hash collides on them or yields the all-zero digest |
| `HashChain.EqualTipsMeanEqualHistory` | persistence.py:16-18 | unrotated valid logs with equal tips have equal length, hashes and timestamp-plus-payload texts, under the same condition |
| `HashChain.CutAtAnchorValidates` | persistence.py:83-129 | cut before any of its anchors, a valid log still validates from genesis and keeps its tip |
| `HashChain.AnchorFirstHidesHistory` | persistence.py:83-129 | a file that begins with an anchor validates from genesis and ends in the same hash as the longer log |
| `HashChain.CatchUp` | persistence.py:153-231 | a follower holding a prefix of the leader's log catches up completely if and only if no missing block has the anchor payload |
| `HashChain.ForeignDeltaIsRefused` | persistence.py:181-231 | a non-empty delta that does not extend the tip changes nothing |
| `HashChain.AppendedIsKept` | persistence.py:59-81 | a run of appends without rotation leaves the old blocks and then, in order, one block for each append with its payload and stamp |
| `HashChain.AppendedIsReadBack` | persistence.py:153-179 | read from the height before such a run, the transactions appended come back in order |
| `HashChain.NewestAreRead` | persistence.py:33-81 | with any rotations, what is read is always the newest part of all transactions ever appended, in order and unchanged, the last one included |
| `HashChain.ValidatesExactlyWhen` | persistence.py:83-129 | a file validates if and only if each block has its right hash and follows the one before, and the first one begins or continues a chain |
| `HashChain.FirstMisfitNamesTheError` | persistence.py:83-129 | otherwise the error is the one of the first block that does not fit |
| `HashChain.ChainIsValidExactlyWhen` | persistence.py:254-297 | the store validates if and only if both files together are one chain and the checkpoint, where there is one, has their height and their last hash |
| `HashChainStore.ValidateFileChain` | persistence.py:83-129 | the one-pass loop answers the last hash or the first error of the file |
| `HashChainStore.CollectFrom` | persistence.py:153-179 | the reading loop over one file counts the non-anchor blocks and collects those from the start height on |
| `HashChainStore.NexusPersistence.AppendTransaction` | persistence.py:59-81 | the active file is the old one, or after a rotation the anchor, plus one block with the given payload and stamp, linked to the tip before it and hashed over exactly these; the rotated file, tip and checkpoint; a valid store stays valid |
| `HashChainStore.NexusPersistence.ApplyBlocks` | persistence.py:181-231 | on any store, all of the blocks appended if each has its right hash and follows the one before or the tip, otherwise none and nothing changes; a valid store stays valid |
| `HashChainStore.NexusPersistence.BlocksFromHeight` | persistence.py:153-179 | exactly the non-anchor blocks above the height, over both files |
| `HashChainStore.NexusPersistence.ValidateWholeChain` | persistence.py:281-297 | the verdict over both files and the checkpoint; a valid store always passes unchanged |
| `ReplayProtection.PurgingForgetsNothingThatMatters` | nexus_protocol.py:16-60 | with one ttl and a non-decreasing clock the purging cache decides every call of every run like a cache that never forgets |
| `ReplayProtection.NeverAcceptedTwice` | nexus_protocol.py:124-184 | no envelope is accepted twice in any run |
| `ReplayProtection.AcceptedExactlyWhen` | nexus_protocol.py:124-184 | in every run an envelope is accepted if and only if it is complete, of version 1, within its window and authentic, and no envelope accepted before it with its id, or its sender and nonce, is at most ttl old |
| `ReplayProtection.RefusesExactly` | nexus_protocol.py:124-160 | each refusal before the cache is consulted, in the order of the checks |
| `ReplayProtection.RejectedArrivalsDoNotMatter` | nexus_protocol.py:124-184 | deleting any rejected arrival from any run leaves every other decision as it was |
| `ReplayProtection.RejectionLeavesNothingBehind` | nexus_protocol.py:124-184 | a rejected envelope adds nothing to the cache; at most expired entries are gone |
| `ReplayProtection.VerifyDecides` | nexus_protocol.py:124-184 | an in-window envelope is a replay if and only if an accepted one with its id, or its sender and nonce, is still within ttl |
| `ReplayProtection.CreatedIsAccepted` | nexus_protocol.py:99-122 | a created envelope is accepted exactly within its window and while neither its id nor its sender's nonce is remembered |
| `ReplayProtection.ChangedIsRefused` | nexus_protocol.py:165-176 | a changed signed field under the old signature is refused unless the signatures coincide |
| `ReplayProtection.DeleteStale` | nexus_protocol.py:21-36 | the deletion loop keeps exactly the unexpired entries |
| `ReplayProtection.NexusProtocol.VerifyEnvelope` | nexus_protocol.py:124-184 | decision and new cache of one verification, purge included |
| `HubAdmission.AccountingHolds` | validation/hub-hardening/experimental_hub.py:395-474 | in every interleaving of accepts, workers and janitor passes every counter equals the connections holding it, the semaphore is never over-released and nobody is cut twice |
| `HubAdmission.LimitsAreRespected` | validation/hub-hardening/experimental_hub.py:395-474 | slots in use and each client's connections stay within their limits |
| `HubAdmission.NextPhase` | validation/hub-hardening/experimental_hub.py:395-454 | where each step of a connection leads: admitted below its client's limit, given a slot while one is free, and let go of in turn |
| `HubAdmission.JanitorCutsTheLate` | validation/hub-hardening/experimental_hub.py:460-474 | in any state a janitor pass cuts and marks exactly the tracked connections stamped before its limit |
| `HubAdmission.IdleMeansEmpty` | validation/hub-hardening/experimental_hub.py:395-454 | once all connections are gone every counter is back at its start |
| `HubAdmission.EndUndoesAdmission` | validation/hub-hardening/experimental_hub.py:440-454 | a worker's end returns exactly what the admission took, whatever the janitor marked |
| `HubAdmission.HardenedHub.ProcessRequest` | validation/hub-hardening/experimental_hub.py:395-432 | exactly when a connection is admitted; every rejection leaves the hub as it was |
| `HubAdmission.HardenedHub.WorkerEnds` | validation/hub-hardening/experimental_hub.py:440-454 | the resources a worker's `finally` blocks return |
| `HubAdmission.HardenedHub.ReleaseClient` | validation/hub-hardening/experimental_hub.py:434-438 | one count fewer, and no entry left at zero |
| `HubAdmission.HardenedHub.JanitorPass` | validation/hub-hardening/experimental_hub.py:460-474 | marks and cuts exactly the connections past their deadline, and none of them again |
| `FailoverOrchestrator.OrchestrateFailover` | validation/statistical-resilience/physical_runner.py:1070-1331 | for arbitrary lines, peers and clock: the recorder never refuses; the run ends at the first round in which the promotion is recorded and the peers listed are as expected, or the first past the deadline; t4 exists exactly when it converged; the node promoted is the only master of the view that decided, or of the latest that converged; valid, or the first reason against it; at most timeout / interval + 1 rounds when sleeps advance the clock |
| `FailoverOrchestrator.ConvergesExactlyWhen` | validation/statistical-resilience/physical_runner.py:453-544 | a view is refused if and only if a peer is unreadable, and converges if and only if besides no peer is the failed node, exactly one is master, they are as many as expected, and the expected ones where ids are given; that master is the node promoted |
| `FailoverOrchestrator.RecordedExactlyWhen` | validation/statistical-resilience/physical_runner.py:1127-1155 | t1, t2 or t3 is recorded if and only if some earlier line carried its marker alone when it was due, at the time that line was read |
| `FailoverOrchestrator.LineGives` | validation/statistical-resilience/physical_runner.py:547-571 | a line is refused exactly when it carries two markers, and otherwise gives the event whose marker it carries |
| `FailoverOrchestrator.RecordedStaysUnderway` | validation/statistical-resilience/physical_runner.py:1127-1155 | the timeline always holds a prefix of t0 .. t3 at non-decreasing times |
| `FailoverOrchestrator.RoundsAreBounded` | validation/statistical-resilience/physical_runner.py:1070-1331 | if every sleep advances the clock by the poll interval and the last of n rounds was begun in time, n is at most timeout / interval + 1 |
| `FailoverOrchestrator.PollRounds` | validation/statistical-resilience/physical_runner.py:1127-1241 | the polling loop ends at the first round that raises, times out or decides |
| `FailoverOrchestrator.TimelineRecorder.RecordEvent` | validation/statistical-resilience/physical_runner.py:231-273 | the loop over earlier events refuses exactly a recorded event, a negative time, or a time before an earlier event, in this order |
| `FailoverOrchestrator.ReadLines` | validation/statistical-resilience/physical_runner.py:1127-1155 | the lines of a round extend the timeline event by event, each only after its predecessor |
| `FailoverOrchestrator.NoteEvidence` | validation/statistical-resilience/physical_runner.py:1157-1215 | the split-brain flag and the inconclusive flag after a round, with and without an observer |
| `FailoverOrchestrator.PromotedIsNamed` | validation/statistical-resilience/physical_runner.py:453-544 | the only master of a readable view has a usable name |
| `HarnessVerdict.JointVerdict` | validation/s1-s5-harness/s1s5_harness.py:965-987 | PASS of joined reasons needs both parts, one FAIL is enough, observation problems alone never FAIL |
| `HarnessVerdict.Dedupe` | validation/s1-s5-harness/s1s5_harness.py:990-995 | the same reasons, each once |
| `HarnessVerdict.ExpectedCandidate` | validation/s1-s5-harness/s1s5_harness.py:998-1001 | the greatest surviving id, and an error exactly when nobody survives |
| `HarnessVerdict.GapIsSilence` | validation/s1-s5-harness/s1s5_harness.py:1004-1014 | the measured gap exceeds g if and only if some longer stretch of the window holds no answer |
| `HarnessVerdict.ObservedMeans` | validation/s1-s5-harness/s1s5_harness.py:1004-1014 | a node counts as observed if and only if it answered often enough and in every stretch longer than the allowed gap |
| `HarnessVerdict.RoleReasons` | validation/s1-s5-harness/s1s5_harness.py:1017-1084 | the loop over samples gives each role reason exactly when some sample shows it |
| `HarnessVerdict.RoleReasonsMean` | validation/s1-s5-harness/s1s5_harness.py:1017-1084 | which fault in which sample gives which role reason, in terms of the answers themselves |
| `HarnessVerdict.HubReasons` | validation/s1-s5-harness/s1s5_harness.py:1086-1100 | divergence exactly when some hub answer shows a wrong role, unobservable exactly below the share |
| `HarnessVerdict.ProbeReasons` | validation/s1-s5-harness/s1s5_harness.py:1026-1039 | at most one probe result reason, by precedence, and the corroboration reason |
| `HarnessVerdict.ClassifyStableMaster` | validation/s1-s5-harness/s1s5_harness.py:1042-1134 | each reason exactly when its condition holds, none twice, and the verdict for them |
| `HarnessVerdict.StablePassIsExact` | validation/s1-s5-harness/s1s5_harness.py:1042-1134 | PASS if and only if: own names, only the designated node ever MASTER, hub right and reachable, logs and probes clean, no node silent for longer than the gap; FAIL if and only if a name, a role, a hub listing, a log or a probe is wrong |
| `HarnessFailover.ClassifyFailover` | validation/s1-s5-harness/s1s5_harness.py:1150-1260 | each reason exactly when its condition holds, none twice; an error exactly when nobody survives |
| `HarnessFailover.FailoverPassIsExact` | validation/s1-s5-harness/s1s5_harness.py:1150-1260 | in terms of answers, roles and times: PASS only if the failover did what it should, and for distinct node ids PASS exactly then and FAIL exactly for a violation that is not about observation |
| `HarnessFailover.PassedFailoverIsSound` | validation/s1-s5-harness/s1s5_harness.py:1150-1260 | the verdict PASS means: only the greatest survivor is ever MASTER, first within the allowed delay; final roles kept for the hold time to the last sample; no survivor silent for longer than the gap |
| `HarnessFailover.PromotionReasons` | validation/s1-s5-harness/s1s5_harness.py:1200-1236 | each promotion reason exactly when its condition holds |
| `HarnessFailover.SurvivorReasonsMean` | validation/s1-s5-harness/s1s5_harness.py:1150-1199 | which fault in which sample gives which survivor reason |
| `HarnessFailover.FindSettled` | validation/s1-s5-harness/s1s5_harness.py:1219-1223 | the first sample from which all roles are final, and none earlier |
| `HarnessFailover.LongestIsLongest` | validation/s1-s5-harness/s1s5_harness.py:1137-1147 | no run of consecutive samples lasts longer than the answer |
| `HarnessFailover.LongestIsReached` | validation/s1-s5-harness/s1s5_harness.py:1137-1147 | the answer is the length of some run, or zero |
| `HarnessFailover.LongestRun` | validation/s1-s5-harness/s1s5_harness.py:1137-1147 | the loop computes that longest run |
| `ClusterMode.ResolvedIsSound` | nexus_cluster_mode.py:88-120 | a majority exists exactly outside the unconfigured mode, single means size 1, distributed at least 2, and twice the majority exceeds the size by at most two |
| `ClusterMode.ResolvesExactly` | nexus_cluster_mode.py:88-120 | what every mode answers for every absent or good size, and when the mode is unknown |
| `ClusterMode.SizeIsRefused` | nexus_cluster_mode.py:70-86 | exactly which sizes are refused, and why |
| `ClusterMode.EverySizeResolves` | nexus_cluster_mode.py:66-98 | the decimal text of every positive size is accepted, and alone selects unconfigured or distributed |
| `Leadership.OnlyTheGreatestRemains` | nexus_distributed_core.py:35-70 | after every true master reconciled on a view listing all of them, at most the greatest remains, and it remains if and only if its own view claims no greater MASTER |
| `Leadership.TruthfulListingsKeepTheGreatest` | nexus_distributed_core.py:35-70 | with views that claim true masters only, exactly the greatest remains |
| `Leadership.NobodyMayRemain` | nexus_distributed_core.py:35-70 | views that list every true master and one false claim, after which nobody remains |
| `Leadership.PromotesExactlyWhen` | nexus_distributed_core.py:1019-1218 | the exact condition under which a poll promotes, in terms of the records listed |
| `Leadership.FirstMasterAnswers` | nexus_distributed_core.py:1069-1077 | the node probed is the first other record spelled exactly MASTER, none exactly when there is none, and the poll fails exactly when a record that is no mapping comes before |
| `Leadership.AnsweringMasterIsFollowed` | nexus_distributed_core.py:1069-1106 | a registered follower whose first listed MASTER has a name and answers its probe ends the poll acknowledged, its clock set to now, and never promotes |
| `Leadership.AcknowledgesExactlyWhen` | nexus_distributed_core.py:1069-1106 | the exact condition under which a poll ends acknowledged |
| `Leadership.OtherEnds` | nexus_distributed_core.py:1019-1111 | the exact condition of every other end before promotion is judged, and when the role and the registration are kept |
| `Leadership.MastersArePromoted` | nexus_distributed_core.py:1019-1218 | a node that ends a poll as MASTER was promoted in it or was MASTER and not dominated, unless the poll was cut short |
| `Leadership.OneFollowerPromotes` | nexus_distributed_core.py:1112-1150 | of the nodes a common view lists as FOLLOWER at most one promotes: the greatest |
| `Leadership.PromotionsShareAMember` | nexus_distributed_core.py:1146-1204 | two promotions in a cluster of the configured size share a visible member |
| `Leadership.NoPromotionWhileMasterAnswers` | nexus_distributed_core.py:1081-1106 | no poll of any run promotes within 15 seconds of the start or of an acknowledged probe |
| `Leadership.UnconfiguredNeverLeads` | nexus_distributed_core.py:1160-1184 | an unconfigured follower never becomes MASTER in any run |
| `Leadership.YieldingNodeMayLeadAgain` | nexus_distributed_core.py:1057-1209 | a poll in which a MASTER yields to a greater one and is promoted again at once |
| `Leadership.NexusNode.ReconcileMasterRole` | nexus_distributed_core.py:35-70 | yields exactly when the listing has a dominating record |
| `Leadership.NexusNode.TryPromote` | nexus_distributed_core.py:1112-1209 | promotion or the reason against it, and the role it leaves |
| `Leadership.NexusNode.PollOnce` | nexus_distributed_core.py:1019-1218 | state and exit of one polling iteration for every answer of the environment |
| `Framing.RecvExact` | nexus_transport.py:41-55 | exactly the next n bytes however they are fragmented, or a connection error at the end of the stream |
| `Framing.RecvMessage` | nexus_transport.py:62-72 | answer and unread rest depend on the bytes only |
| `Framing.StreamRoundTrip` | nexus_transport.py:10-72 | any list of encodable messages is received as sent, then the connection is closed |
| `Framing.CutStreamYieldsWholeMessages` | nexus_transport.py:41-72 | a stream cut anywhere yields exactly its complete messages and then a connection error |
| `Framing.WholeIsGreatest` | nexus_transport.py:41-72 | the complete messages are as many frames as fit |
| `Framing.StreamsDiffer` | nexus_transport.py:10-26 | no two message lists share a byte stream |
| `Framing.SizesAgree` | nexus_transport.py:10-26 | a payload can be sent if and only if its length passes the receiver's checks, and which error it is refused with |
| `Framing.TakesExactly` | nexus_transport.py:41-72 | the answer to any header and any bytes behind it, and where the next message starts |
| `Framing.UnpackInvertsPack` | nexus_transport.py:26 | the big-endian length survives packing and unpacking |
| `Framing.PackInvertsUnpack` | nexus_transport.py:63-64 | every header is the packing of the length it carries |
| `Percentiles.PercentileGrows` | validation/statistical-resilience/statistical_resilience.py:35-66 | percentiles are monotone in the percentile |
| `Percentiles.PercentileIgnoresOrder` | validation/statistical-resilience/statistical_resilience.py:35-66 | percentiles do not depend on the order of the values |
| `Percentiles.PercentileIsBetween` | validation/statistical-resilience/statistical_resilience.py:35-66 | every percentile lies between minimum and maximum, which are the 0th and the 100th |
| `Percentiles.PercentileHitsValues` | validation/statistical-resilience/statistical_resilience.py:35-66 | the k-th of n sorted values is the percentile 100 k / (n - 1) |
| `Percentiles.PercentileInterpolates` | validation/statistical-resilience/statistical_resilience.py:35-66 | between two ranks a percentile lies on the straight line between their values in the ordered samples |
| `Percentiles.SummaryFields` | validation/statistical-resilience/statistical_resilience.py:69-99 | the errors of a summary, and what each of its fields is |
| `Percentiles.HalfIsMedian` | validation/statistical-resilience/statistical_resilience.py:69-99 | the 50th percentile is the median for every sample count |
| `Percentiles.SummaryIsOrdered` | validation/statistical-resilience/statistical_resilience.py:69-99 | 0 <= min <= p50 = median <= p90 <= p95 <= p99 <= max in every summary |
| `Percentiles.MeanIsBetween` | validation/statistical-resilience/statistical_resilience.py:69-99 | the mean lies between minimum and maximum |
| `Percentiles.SummaryIgnoresOrder` | validation/statistical-resilience/statistical_resilience.py:69-99 | a summary does not depend on the order of the samples |
| `CampaignRuns.OrchestratedRunsValidate` | validation/statistical-resilience/statistical_resilience.py:128-286 | whatever the orchestrator reports is a record `validate_run` accepts, classified alike; a valid one converged and saw no split brain |
| `CampaignRuns.ValidatedIsNormal` | validation/statistical-resilience/statistical_resilience.py:128-286 | an accepted record is normal: stripped non-empty names, no negative timing, a reason exactly when invalid, a promoted node and all four timings when valid |
| `CampaignRuns.AcceptedExactlyWhen` | validation/statistical-resilience/statistical_resilience.py:128-286 | exactly which records are accepted |
| `CampaignRuns.AcceptedBecomes` | validation/statistical-resilience/statistical_resilience.py:128-286 | every field of an accepted record after normalisation |
| `CampaignRuns.NormalIsAccepted` | validation/statistical-resilience/statistical_resilience.py:128-286 | validation is idempotent: a normal record is accepted as it is |
| `CampaignRuns.PhasesAddUp` | validation/statistical-resilience/physical_runner.py:305-342 | before rounding, each timing is the difference of its two events in milliseconds, and the three phases add up to the total of every converged record |
| `CampaignRuns.RecordCarriesTheRun` | validation/statistical-resilience/physical_runner.py:305-342 | the record of a finished run carries its names, outcome, promoted node, reason and total time |
| `CampaignRuns.AcceptanceIgnoresOutcome` | validation/statistical-resilience/statistical_resilience.py:199-207 | acceptance does not depend on the convergence and split-brain fields, which are passed on as they are |
| `CampaignRuns.ValidNeedNotHaveConverged` | validation/statistical-resilience/statistical_resilience.py:128-286 | a record accepted as valid that says it did not converge and saw a split brain |
| `CampaignRuns.NormaliseTiming` | validation/statistical-resilience/statistical_resilience.py:172-198 | the timing loop keeps the fields present, and the first bad or missing one decides the error |
| `CampaignRuns.SummarizeCampaign` | validation/statistical-resilience/statistical_resilience.py:288-383 | every error by precedence; the shared experiment; totals, valid, invalid, converged and split-brain counts of the records that say so; every timing summary over exactly the valid runs; promoted nodes with their exact counts |
| `CampaignRuns.RefusesExactly` | validation/statistical-resilience/statistical_resilience.py:288-332 | each refusal of a campaign, in terms of its records, in the order of the checks |
| `CampaignRuns.CountPromotions` | validation/statistical-resilience/statistical_resilience.py:354-361 | the loop holds every promoted node with the number of its promotions |
| `CampaignRuns.FillTable` | validation/statistical-resilience/statistical_resilience.py:334-340 | the loop fills an entry for every timing field |
| `CampaignRuns.FieldSummary` | validation/statistical-resilience/statistical_resilience.py:334-340 | valid runs always have samples to summarise, one each |
| `CampaignRuns.EveryPromotionIsCounted` | validation/statistical-resilience/statistical_resilience.py:354-361 | the promotion counts of all nodes add up to the valid runs |
| `TokenBucket.WindowBound` | rate_limiter.py:17-29 | the calls of any window are granted at most capacity + rate * elapsed |
| `TokenBucket.GrantsExactlyWithinEveryWindow` | rate_limiter.py:17-29 | a limiter that began full grants a request if and only if no window ending with it would exceed that bound |
| `TokenBucket.TokensStayBounded` | rate_limiter.py:17-29 | the stored tokens stay between 0 and the capacity |
| `TokenBucket.TokenBucketLimiter.Consume` | rate_limiter.py:17-29 | new tokens, new time and answer of one call |

## Left out

- ClusterExecution: `_resolve_target` and its load ranking appear only as an arbitrary online node or a failure, which the safety properties do not need to narrow.
- ClusterExecution: runs through backends other than `cluster`, and the scheduler's automatic choice among them.
- ClusterExecution: the backend's health check is an arbitrary answer, since it reads leader and members at several moments.
- ClusterObjects: duration totals and the health text of the backend; the dispatcher's `leader` and eligibility checks.
- CrashConsistency: `cleanup` during a run, several threads inside one runtime object and the temporary file behind the atomic replacement.
- TaskWorker.TaskWorker.RunOnce: the object runs alone; interleaving with other threads is the step system's matter, and the background loop with its stop event is not modelled.
- TaskCompletion: `wait`, `running_over`, `execution_elapsed`, and the JSON text of an export.
- HashChain: `recover_state`, the second checkpoint copy at `anchor_path`, torn or malformed lines, and log synchronisation across rotations.
- ReplayProtection: JSON and HMAC (section 2 of RFC 2104) are a signing function; a ttl that changes between calls is not covered.
- HubAdmission: rejection replies, drain of unread bodies, the reaper, shutdown and statistics.
- FailoverOrchestrator: the hub-overlap diagnostics, evidence formatting, UTC stamps and rounding of durations.
- FailoverOrchestrator.OrchestrateFailover: runs are observed up to a horizon of rounds, since without advancing sleeps the loop need not end; with them a horizon above timeout / interval + 1 is never reached.
- HarnessVerdict: warnings, metrics and the order in which reasons are listed.
- Leadership: the listing as anything but a dictionary, roles other than the two, the shell intake thread a promotion starts, and the pause between polls.
- Framing: JSON and UTF-8 are a codec; only the round trips assume that it reloads the messages sent.
- Percentiles: standard deviation, infinities and rounding.
- CampaignRuns: the wording of errors, schema tags, and the contents of environment and provenance.
- TokenBucket: negative requests and clocks that go back.
- Command line tools, web panels, logging, hardware detection, configuration files, the queue and node registries: plumbing, or maps and counters whose properties are immediate.
