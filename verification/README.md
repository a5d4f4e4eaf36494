# Verified model of the distributed task queue

A Dafny 4.11 model of the parts of the task queue on which its promises rest, with proofs that hold
for every input, every run and every interleaving.

* **The delivery protocol.** Redis (fence counter, leases, stream with pending entries, scheduled
  set, DLQ), Postgres (tasks, attempts, effects with their unique keys) and any number of worker
  activities form one transition system. A step is one Redis command or script, one transaction
  boundary, or one statement that others can race with; the SELECT, the INSERT and the COMMIT of
  `commit_effect` are three steps. Workers crash, calls raise, transactions apply without being
  reported, leases expire and messages are reclaimed at any point. Proved over all runs: no task is
  lost, every effect is written exactly once, fences and leases behave, attempts are bounded, rows
  have the provenance they claim, work terminates, crashes can always be recovered from by reclaims,
  and retries and backoff are bounded exactly under the retry policies named below.
* **The code of one delivery** (`execute`, `_process_message`) is written out as imperative methods
  that run under arbitrary interference, with any call raising, do their database work through
  repository sessions, and are shown to take steps of that transition system. What a delivery comes to
  when nobody interferes is stated case by case, down to the rows it leaves.
* **The workflow engine.** `validate_dag` is Kahn's algorithm with its counters updated in loops,
  proved exactly correct, including the set of steps it reports on a cycle. `advance` is proved safe
  over any run of calls, on top of the delivery protocol itself, and live for validated specs.
* **Satellites:** the lease scripts with owner strings and clocks, the heartbeat bound, the promotion
  script, the backoff sum and the permit count.

Files, bottom up: `Envelopes`, `Backoff`, `OwnerStrings`, `Leases` (scripts and the clocked store),
`Heartbeats`, `Promotion`, `Store`; `Protocol` (the transition system), `Fencing`, `Effects`,
`Deliveries`, `Provenance`, `Progress`, `RetryCounts` (its invariants and theorems), `Zombies`,
`Departures` and `SharedKeys` (where the code does less than its documents), `Workers` (the imperative
form), `Permits`; `Graphs`, `Dag`, `Workflows`, `WorkflowRuns` (safety), `WorkflowRounds` (progress),
`StepRounds`, `StepNames` and `StepPairs` (what step names must satisfy), `QueueRuns` (the workflow on
top of the protocol).
`dafny verify dfyconfig.toml` checks all of them.

## Where code and documents disagree

The model follows the code.

* The repository's design document (its section on mid-task crash recovery) says a zombie can never
  commit once a reclaimer has a higher fence. The code compares fences only with an effect row that
  exists, so a zombie that commits first wins (`Zombies.ZombieCanCommit`); whether a commit goes
  through depends on the row alone (`Zombies.CommitsIffNoRow`). After a row with a higher fence is in,
  the zombie fails for good (`Zombies.ZombieNeverSucceeds`), by an exception and not by the `False`
  that tests/chaos/test_crash_recovery.py:157-164 expects.
* The same section says adoption closes the previous attempt as `lease_lost`. The reclaimer closes the
  row one number too low: no row of the reclaimed message is touched, and the outcome of an older
  attempt is overwritten (`Departures.ReclaimClosesAnOlderRow`, `Departures.OldOutcomeOverwritten`,
  `Departures.LostAttemptStaysOpen`).
* Task states are not absorbing: a redelivery sets LEASED again, the already-committed branch does not
  restore SUCCEEDED, and nothing later does (`Departures.SucceededStaysIff`,
  `Departures.CommittedTaskStaysLeased`). A workflow with such a step never completes, and such
  workflows exist (`QueueRuns.OverwrittenNeverCompletes`, `QueueRuns.StuckWorkflow`).
* `max_attempts` does not bound retries. A reclaim sets a second copy of the task going, and a copy
  that finds the lease taken or cannot record its attempt is retried under a number already used, which
  puts one more copy into the stream. It bounds them exactly for policies that would not retry
  `LeaseAcquireError` or `StoreError` as attempt 2 (`RetryCounts.RetryBoundIff`). The default policy
  retries both, so under it neither the retries nor the time spent waiting for them has a bound
  (`RetryCounts.BackoffBoundIff`). Without reclaims of the task, and under those policies, the
  documented bound holds (`RetryCounts.TotalBackoffBound`).
* Tasks are unique per queue and dedup key, effects per dedup key or task id alone. Two tasks of
  different queues with one key, or of one queue where the key of one is the id of the other, share one
  effect row, and the later one acks as a success without an effect of its own
  (`SharedKeys.SharedKeyTakesEffect`); a key nobody else uses gives every success its own row
  (`SharedKeys.OwnEffectIfUnshared`).
* Lua prints a fence of 10^14 or more with an exponent while the broker compares with plain decimals,
  so from there on no lease can be released or extended; a release never hits a foreign lease at any
  fence (`OwnerStrings.OwnerMatchesExactly`, `Fencing.ReleaseOnlyOwn`).
* The request schema accepts steps named "" and steps that share a name. A step named "" is launched
  again by every advance once it is ready, and steps of one name that can get ready together are
  launched together in some run (`StepNames.EmptyNameLaunchesTwice`, `StepNames.TogetherLaunchesTwice`).
  One task per step holds exactly for distinct, non-empty names, among the validated specs whose equally
  named steps have the same dependencies (`StepNames.OneTaskPerStepIff`); with a single name shared by
  two steps of any dependencies it holds exactly if the two cannot get ready together
  (`StepPairs.PairIff`).

## Model

| member | source | states |
|---|---|---|
| Deliveries.NoTaskLost | dtq/worker/loop.py:159-215 | After any run, every task ever published or scheduled has an unacked stream entry, a scheduled entry, a DLQ entry, or a committed effect under its key |
| Deliveries.AckKeepsSafe | dtq/worker/loop.py:165-206 | An ack endangers no task: its own is safe beyond the acked entry or has its effect, and any other activity relying on that entry is covered too |
| Deliveries.HandedOn | dtq/worker/loop.py:175-193 | A failed delivery parks its task in the scheduled set or the DLQ before it may ack |
| Deliveries.PromoteKeepsSafe | dtq/broker/scripts/promote_scheduled.lua:12-16 | A promoted envelope reappears behind every existing entry, so nobody's cover is lost by promotion |
| Deliveries.EnvelopeStep | dtq/worker/loop.py:174-182 | Every envelope in stream, scheduled set, DLQ and activities stays a published one with only the attempt number changed, below max_attempts where stored and at most max_attempts in flight |
| Deliveries.ShelvesAreSound | dtq/broker/redis_broker.py:143-163 | In every reachable state no envelope is scheduled twice, and every DLQ entry is the envelope of a delivery that gave up, attempt number included |
| Deliveries.DelayedUntilPromoted | dtq/broker/redis_broker.py:143-158 | A delayed submission stays in the scheduled set, out of the stream and of every worker's hands, until it is promoted |
| Effects.WrittenExactlyOnce | dtq/store/repository.py:149-189 | Over any run a key's row is written once if it is new at the end and never otherwise, and an existing row never changes |
| Effects.StepRefinesWriteOnce | dtq/store/repository.py:166-189 | Every interleaved SELECT, INSERT, COMMIT step refines an atomic write-once map: it puts one fresh key or changes nothing, and only the commit of a flushed insert puts |
| Effects.LateCommitTurnedAway | dtq/store/repository.py:171-178 | With a row in place, a SELECT below its fence is rejected, at or above it finds "already committed", a late INSERT hits the primary key, and the row is unchanged |
| Zombies.ZombieNeverSucceeds | dtq/worker/executor.py:186-196 | From every reachable state: wherever a worker stands when a row with a higher fence than its own is in, it never gets a row in and never reports success in any continuation, and the row stays |
| Zombies.ZombieCanCommit | dtq/store/repository.py:166-189 | For every task, workers and result there is a reachable state where a worker whose lease expired and was superseded by fence 2 has committed under fence 1 |
| Zombies.CommitsIffNoRow | dtq/store/repository.py:166-189 | Run undisturbed to its end: without a row a commit writes one whatever the fences; with a row of no higher fence it reports success and writes nothing; with a higher one it fails |
| Departures.ReclaimClosesAnOlderRow | dtq/worker/loop.py:255-271 | In every reachable state, closing the lost attempt leaves the row of every delivery of that message, and every other row but one, as it was; the one, number `attempt` of the stored envelope, becomes lease_lost whatever it said |
| Departures.OldOutcomeOverwritten | dtq/worker/loop.py:259-263 | For every task with a retry, a reachable state where reclaiming the retry turns the closed outcome of the failed first attempt into lease_lost |
| Departures.LostAttemptStaysOpen | dtq/worker/loop.py:259-263 | A reachable state where a lost first attempt is still unfinished after the reclaim |
| Departures.SucceededStaysIff | dtq/worker/executor.py:93-94 | A succeeded task is still succeeded after a run if and only if no step of the run recorded an attempt for it or marked it dead |
| Departures.NeverSucceedsAgain | dtq/worker/executor.py:170-175 | A task whose effect is in and whose row does not say succeeded never says it again, in any continuation |
| Departures.CommittedTaskStaysLeased | dtq/worker/executor.py:170-184 | A reachable state where the effect is committed, every delivery reported success, the task row says leased, and no continuation makes it say succeeded |
| Departures.StateIsLastWritten | dtq/store/repository.py:82-90 | Over any run a task row ends in the state written last: leased by a recorded attempt, succeeded by a fresh effect, dead by a dead letter |
| Departures.DeadLetteredIsDead | dtq/worker/loop.py:195-198 | After a dead-lettered delivery has marked its task, the row says dead for as long as no attempt is recorded and no fresh effect is committed for it |
| Departures.OutcomeIsLastWritten | dtq/store/repository.py:120-137 | Over any run an attempt row keeps worker and fence and ends with the outcome written last |
| SharedKeys.OwnEffectIfUnshared | dtq/worker/executor.py:63 | A delivery that reports success belongs to a task with an effect, and with its own effect row if no other published task has its key |
| SharedKeys.KeylessOwnsItsRow | dtq/worker/executor.py:63 | A successful delivery of a task without a dedup key finds the task's own row under the task's id, if no other task has that id as dedup key |
| SharedKeys.KeyedOwnsItsRow | dtq/worker/executor.py:63 | A successful delivery of a task with a dedup key finds the task's own row under that key, if no other task has the key and no keyless task has it as id |
| SharedKeys.SharedKeyTakesEffect | dtq/store/tables.py:62-105 | For any two tasks with the same dedup key in different queues, or of which one has the other's id as dedup key, there is a run where both report success, the one row is the first one's, and the second never gets one |
| Fencing.CounterCountsGrants | dtq/broker/scripts/acquire_lease.lua:9-17 | In every reachable state the counter equals the number of leases granted, despite the DECR, and no two activities share a fence |
| Fencing.LaterFenceIsLarger | dtq/broker/scripts/acquire_lease.lua:9-12 | Whoever acquires later, on any task, gets a strictly larger fence than anyone had |
| Fencing.ReleaseOnlyOwn | dtq/broker/scripts/release_lease.lua:8-14 | A release deletes the lease exactly when it is the caller's own grant and its fence is below 10^14 |
| Fencing.LostForGood | dtq/broker/redis_broker.py:206-222 | A lease once lost is never owned again under that worker and fence, so all its later releases, and extends at any clock, are no-ops |
| Fencing.FenceStep | dtq/broker/scripts/acquire_lease.lua:9-17 | Every step keeps: counter equals grants, each live lease is a granted owner string, each activity's fence was granted for its task and worker, fences distinct |
| Provenance.AttemptBound | dtq/store/tables.py:90-93 | A task has at most max_attempts + 1 attempt rows (two if max_attempts is below 1), stored envelopes stay below max_attempts, no two attempt rows share a fence |
| Provenance.EffectsHaveAttempts | dtq/worker/executor.py:80-94 | Every effect row has an attempt row of the same task and fence, that fence was granted for the task, and the key is the task's key |
| Provenance.SuccessIsBacked | dtq/worker/executor.py:155-177 | A task in state succeeded has an effect row naming it, and an attempt closed as succeeded has an effect under its key |
| Provenance.InvStep | dtq/worker/executor.py:54-203 | The joint invariant of leases, effects, envelopes, cover, attempts and rows is kept by every step |
| Progress.WorkIsFinite | dtq/worker/loop.py:159-206 | In any run, with crashes, expiry and failures anywhere, the number of work steps is at most a rank of the start state plus what each submission and each reclaim adds |
| Progress.AtRestAllSettled | dtq/worker/loop.py:159-206 | A crash-free run with nothing left to do has every published task's effect committed or the task in the DLQ |
| Progress.RestIsReachable | dtq/worker/loop.py:159-206 | From any such state some continuation by work alone comes to rest |
| Progress.CrashesAreRecovered | dtq/worker/loop.py:233-284 | From every reachable state, whatever crashed, some continuation of reclaims and work alone leaves every published task with its effect committed or in the DLQ |
| Progress.DeliveredAtMostMaxAttempts | dtq/core/backoff.py:34-40 | A task that is never reclaimed is delivered at most max_attempts times in any run |
| Progress.RankStep | dtq/worker/loop.py:174-206 | Every delivery, promotion and statement of an activity decreases the rank; only submissions and reclaims increase it, by what they add |
| RetryCounts.RetryBoundIff | dtq/core/backoff.py:23-40 | In every run a task is scheduled at most max_attempts - 1 times, counting all calls or only those made while no retry of it is waiting, if and only if its policy would not retry, as attempt 2, a lease that is taken or an attempt that cannot be recorded |
| RetryCounts.TotalBackoffBound | dtq/core/backoff.py:18-20 | All backoff of one task in a run is at most min(base (2^(N-1) - 1), (N-1) cap), with at most N - 1 retries, for every jitter, if the task is never reclaimed or its policy is of that kind |
| RetryCounts.UnreclaimedInOrder | dtq/worker/loop.py:175-182 | The retries of a task that is never reclaimed are numbered 1, 2, 3, ... in order |
| RetryCounts.RetriesPerReclaim | dtq/worker/loop.py:269-271 | In any run a task is retried at most N - 1 times plus N - 2 times per reclaim of it |
| RetryCounts.RetriesWithoutBound | dtq/broker/redis_broker.py:143-147 | Under any other policy, for every k, some run schedules the task k times as attempt 2, each time while no retry of it is waiting, and k more copies reach the stream |
| RetryCounts.BackoffBoundIff | dtq/core/backoff.py:18-20 | The time a task spends waiting for retries that follow one another has a bound over all runs and all jitter if and only if its policy is of the first kind or its base or cap is not positive |
| Protocol.ErrorType | dtq/worker/loop.py:170-172 | The error type is the part of the error text before its first colon |
| Protocol.BatchPromotion | dtq/broker/scripts/promote_scheduled.lua:10-17 | Promoting a batch at once is a run of single promotions with the same result |
| Workers.System.Execute | dtq/worker/executor.py:54-203 | Under any interference and with any call failing or raising, the call is a run of the transition system that ends with its result or, on an exception, without an ack; success means the effect is committed; left alone, it ends exactly as `ExecuteAlone` says |
| Workers.System.CommitEffect | dtq/store/repository.py:149-189 | Leaves a transaction open only after its own INSERT or on a row of no higher fence; otherwise ends without success |
| Workers.System.RecordAttempt | dtq/worker/executor.py:81-99 | Succeeds exactly when the task has its row, the attempt number is free and the transaction applies and is reported; then the attempt row names this worker and fence and the task is leased under the number, and nothing else changes |
| Workers.System.WriteSession | dtq/worker/executor.py:151-184 | The repository statements of the second session together write what the commit step of the transition system writes |
| Workers.EndsHow | dtq/worker/executor.py:72-203 | A call of execute left alone, case by case: lease taken, attempt refused, effect written, effect found at or above or below the fence, handler failed, transaction broken, each with its result, error text, rows and lease |
| Workers.UndisturbedSuccess | dtq/worker/loop.py:163-167 | A delivery that can succeed does: one new effect row with this task, the granted fence and the result, under the dedup key or else the task id; task succeeded, attempt closed as succeeded, message acked |
| Workers.UndisturbedFailure | dtq/worker/loop.py:168-206 | A delivery whose handler fails closes its attempt as failed, is scheduled under the next number or goes to the DLQ as it is with the task marked dead, and is acked |
| Workers.UndisturbedReclaim | dtq/worker/loop.py:255-284 | A reclaim leaves the attempt named by the stored envelope closed as lost, whatever the delivery comes to |
| Workers.System.MarkTaskDead | dtq/worker/loop.py:195-198 | If it does not raise, the task row says dead, if there is one, and nothing else changes |
| Workers.System.ProcessMessage | dtq/worker/loop.py:159-215 | Ends acked, with the task safe beyond this message, or by an exception without its own ack, with the task still safe; success means the effect is committed; left alone, a failure is retried under the next number or dead-lettered and marked dead before the ack |
| Workers.System.PollMessage | dtq/worker/loop.py:145-152 | A waiting message, delivered and processed, ends acked and safe beyond it, or unacked by an exception and still safe; success means its effect is committed |
| Workers.System.ReclaimMessage | dtq/worker/loop.py:254-284 | A pending message, adopted and processed under the next attempt number, ends likewise, also when the loop drops it because no session opens |
| Workers.System.Await | dtq/worker/executor.py:72-75 | At an await the others take every step of theirs that is possible at its turn; the waiting activity is where it was and the history is a valid run |
| Store.TaskRepository.CommitEffect | dtq/store/repository.py:149-189 | Undisturbed, inserts exactly when the key has no row, else reports rejection or repetition by fence; no existing row changes |
| Store.TaskRepository.CreateTask | dtq/store/repository.py:30-73 | Keeps (queue, dedup_key) unique; a known non-empty key returns the existing task and inserts nothing; an empty key can only clash |
| Store.TaskRepository.UpdateTaskState | dtq/store/repository.py:82-90 | Sets the state, and the attempt if one is given, of the matching row; no other field, row or table changes |
| OwnerStrings.OwnerMatchesExactly | dtq/broker/scripts/acquire_lease.lua:10 | A stored owner string equals an expected one if and only if worker and fence agree and the fence is below 10^14, for all worker ids |
| OwnerStrings.DecimalReadsBack | dtq/broker/redis_broker.py:206-222 | A fence printed in plain decimals reads back as itself, without leading zeros |
| LeaseStores.ApplyRefinesScripts | dtq/broker/scripts/extend_lease.lua:8-14 | Each clocked operation is the clockless script on the live leases; extending changes no owner and time only removes leases |
| LeaseStores.LeaseStore.AcquireLease | dtq/broker/scripts/acquire_lease.lua:9-17 | INCR, SET NX PX, DECR on failure: grants the next fence exactly when the key is free or expired, for exactly the TTL asked for, and touches no other key |
| LeaseStores.LeaseStore.ReleaseLease | dtq/broker/scripts/release_lease.lua:8-14 | Deletes the key exactly when it is live and holds the expected owner, and changes nothing else |
| LeaseStores.LeaseStore.ExtendLease | dtq/broker/scripts/extend_lease.lua:8-14 | Sets the expiry to exactly the TTL from now when the key is live and holds the expected owner, and changes nothing else |
| Heartbeats.LeaseNeverLapses | dtq/worker/executor.py:205-223 | If setup + lease/3 + 2 delay < lease, the holder's lease is live at every point of every interleaving, for any number of rounds |
| Heartbeats.AcquiredLeaseNeverLapses | dtq/worker/executor.py:73-105 | From the acquire of a free key on, with nothing assumed about the expiry, the holder that keeps its rounds holds the lease at every point |
| Heartbeats.AbandonedLeaseLapses | dtq/broker/scripts/acquire_lease.lua:10 | A holder that does not extend has lost the lease once the time it acquired it for has passed, whatever others do |
| Heartbeats.ExtendedLeaseLapses | dtq/broker/scripts/extend_lease.lua:9-11 | The same after its last extend |
| Heartbeats.HeartbeatLoop | dtq/worker/executor.py:210-223 | Under that bound the loop completes every round and ends with a full lease ahead |
| Heartbeats.ForeignStep | dtq/broker/scripts/extend_lease.lua:8-14 | Nobody else's operation touches a lease that has time left |
| Promotion.ScheduledQueue.PromoteScheduled | dtq/broker/scripts/promote_scheduled.lua:10-17 | Moves exactly the first due members up to the limit to the stream in order; nothing else moves, nothing is lost or duplicated |
| Promotion.TickConserves | dtq/broker/scripts/promote_scheduled.lua:10-17 | What there was is what stays plus what left; what left was due; below the limit nothing due stays |
| Promotion.TicksDrain | dtq/broker/redis_broker.py:149-158 | n due entries drain in ceil(n/limit) ticks at a fixed time and no sooner |
| Promotion.AddKeepsOthers | dtq/broker/redis_broker.py:143-147 | Scheduling keeps the sorted set ordered and without repetition and changes one member's score and nothing else |
| Backoff.CeilingGrowsToCap | dtq/core/backoff.py:18-19 | The ceiling never shrinks, never exceeds the cap, and stays at the cap once reached |
| Backoff.DelayExact | dtq/core/backoff.py:18-20 | What may be drawn is exactly everything between 0 and the smaller of base * 2^(attempt-1) and the cap |
| Backoff.DistinctRetriesBound | dtq/core/backoff.py:18-20 | Retries with different numbers wait at most min(base (2^n - 1), n cap) in all, in any order |
| Permits.PermitsConserved | dtq/worker/loop.py:127-152 | Free permits plus unreleased handlers equal the concurrency in every interleaving of both loops, with handlers that raise and reclaim batches dropped half way, so at most that many work at once and all come back |
| Permits.MessagesAccounted | dtq/worker/loop.py:145-152 | Every message read by either loop gets a handler, still waits for a permit, or was dropped with its batch |
| Permits.PollNeverWaits | dtq/worker/loop.py:126-146 | The poll loop reads no more than it has permits for, so its messages wait only if the reclaim loop took permits in between |
| Dag.ValidateDag | dtq/workflow/dag.py:14-63 | Unknown exactly if some dependency is unknown; else an order exactly if acyclic, listing each name once, dependencies first; else exactly the steps on or downstream of a cycle |
| Dag.Kahn | dtq/workflow/dag.py:41-54 | The order is repetition-free with dependencies first, and every node left over waits for another node left over |
| Dag.CloseEdges | dtq/workflow/dag.py:51-54 | One decrement per outgoing edge, repeated ones included; a node is queued once, when its counter reaches 0 |
| Dag.BuildGraph | dtq/workflow/dag.py:19-32 | Adjacency lists and in-degrees count every listed dependency; the names are those mentioned |
| Dag.FindUnknown | dtq/workflow/dag.py:34-39 | Reports an unknown dependency with its step, or there is none |
| Dag.InitialQueue | dtq/workflow/dag.py:42-45 | For every iteration order of the name set, lists exactly the nodes of in-degree 0 once |
| Dag.EdgesAreDependencies | dtq/workflow/dag.py:24-32 | An edge exists exactly if some step of that name lists that dependency |
| Dag.GetReadySteps | dtq/workflow/dag.py:66-78 | Returns, in order, exactly the steps not completed whose dependencies all are |
| Graphs.StuckMeansTainted | dtq/workflow/dag.py:56-61 | A node in a set whose members all wait for members is on a cycle or downstream of one |
| Graphs.OrderedMeansUntainted | dtq/workflow/dag.py:47-54 | Nothing listed after all its dependencies is on a cycle or downstream of one |
| Workflows.WorkflowEngine.AdvanceWorkflow | dtq/workflow/engine.py:56-193 | The loops over task rows and ready steps compute the advance function |
| Workflows.WorkflowEngine.Submit | dtq/workflow/engine.py:35-54 | Starts and advances exactly the specs with known, acyclic dependencies; otherwise leaves nothing behind |
| WorkflowRuns.WorkflowSafety | dtq/workflow/engine.py:58-193 | Over any run: one task and one envelope per step at most, every transitive ancestor of a started step has its effect, completed means every step has |
| QueueRuns.SafetyOverProtocol | dtq/workflow/engine.py:58-193 | Over any run of the delivery protocol with calls of advance in between: one task per step at most, the task of every transitive ancestor of a started step has its own row in the effects table, completed means every step's task has |
| QueueRuns.StepsAreSubmitted | dtq/workflow/engine.py:161-191 | Over any run every launched step was submitted with its spec's handler, payload and max_attempts, as a first attempt in the default queue without a dedup key and with default backoff, and its task row agrees |
| QueueRuns.DeadStepFails | dtq/workflow/engine.py:83-96 | In any run, if a step's row says dead, the next call fails the running workflow and launches nothing |
| QueueRuns.DeadLetterFailsWorkflow | dtq/worker/loop.py:190-198 | A launched step that is dead-lettered, with nothing touching its row since, fails the workflow at the next call |
| QueueRuns.ProtocolStepAllowed | dtq/worker/executor.py:151-184 | Every protocol step keeps a task's effect, shows succeeded only with it, and never shows succeeded again after an overwrite |
| QueueRuns.RefinesWorkflow | dtq/workflow/engine.py:64-78 | Every run of protocol and workflow together, seen through the task rows, is a run of the workflow machine |
| QueueRuns.OverwrittenNeverCompletes | dtq/workflow/engine.py:98-104 | If a step's row does not say succeeded after its effect is in, the workflow never completes |
| QueueRuns.StuckWorkflow | dtq/workflow/engine.py:70-104 | For every one-step workflow there is a run after which the effect is in, both deliveries report success, the row says leased, and no continuation completes the workflow |
| QueueRuns.CompletesOverProtocol | dtq/workflow/engine.py:56-193 | Over any run of the protocol in which all rows say succeeded at each call, the (longest chain + 1)-th call completes the workflow |
| WorkflowRuns.EndedIsFinal | dtq/workflow/engine.py:60-62 | After failed or completed the status stays and nothing is launched or published |
| WorkflowRuns.AdvanceVerdict | dtq/workflow/engine.py:80-104 | Fails exactly if a task is dead, completes exactly if none is and every step succeeded, and launches nothing in either case |
| WorkflowRuns.LaunchExact | dtq/workflow/engine.py:106-113 | Launches exactly the steps without a task whose dependencies have all succeeded, each once |
| WorkflowRuns.LastRowWins | dtq/workflow/engine.py:68-72 | With any repetitions among the rows, a named step is read as in the state of its last row |
| WorkflowRuns.AdvanceLaunches | dtq/workflow/engine.py:106-191 | If everything launched succeeded and some step has no task, advance on an acyclic spec launches at least one |
| WorkflowRounds.CompletesAfterLongestChain | dtq/workflow/engine.py:56-193 | In any run whose calls of advance come when all launched tasks have succeeded, the (longest chain + 1)-th call completes the workflow for good |
| WorkflowRounds.ValidatedSpecCompletes | dtq/workflow/engine.py:35-54 | In such a run a validated spec, the empty one included, is completed by the call that follows one call per step |
| StepNames.OneTaskPerStepIff | dtq/workflow/engine.py:70-113 | For validated specs whose equally named steps wait for the same steps: every step gets at most one task in every run if and only if the names are distinct and none is empty |
| StepNames.EmptyNameLaunchesTwice | dtq/workflow/engine.py:70-72 | Every validated spec with a step named "" launches it twice in some run |
| StepNames.SharedNameLaunchesTwice | dtq/workflow/engine.py:110-113 | Every validated spec that gives one name to several steps, all with the same dependencies, launches that name twice in some run |
| StepNames.TogetherLaunchesTwice | dtq/workflow/engine.py:106-113 | In every validated spec, two steps of one name are launched together in some run if both wait for nothing or every step of the name waits for something that is no strict ancestor of their joint dependencies |
| StepPairs.PairIff | dtq/workflow/engine.py:106-113 | In a validated spec where just two steps share a name: every step gets at most one task in every run if and only if those two do not meet that condition |

## Left out

- Kafka and RabbitMQ adapters: their recovery happens inside client libraries and servers; only the Redis broker is modelled.
- HTTP, gRPC, events, tracing, metrics, logging, web console, migrations, load generator: plumbing.
- DLQ requeue: it publishes a used task id again with attempt 0 and no dedup key, so it is not part of the transition system.
- Task cancellation: it changes only the task row, and the executor never reads it.
- Workflow fan-out and fan-in: siblings are stored as `step[i]` and never mapped back; specs in the model have no `fan_out`.
- Concurrent or crashing calls of `advance`: calls are taken one at a time, with task rows changing arbitrarily in between.
- The window between creating a task row and publishing it: the two are separate steps and the no-loss property starts at publishing.
- JSON, clocks and floats: envelopes are values, wake times and lease expiry are left to the environment in the protocol, and times are real numbers in the heartbeat and backoff.
- Data loss in Redis or Postgres, and Redis integers beyond 2^53, where Lua numbers lose digits.
- Order of delivery: any waiting entry may be delivered next, which includes the order of the stream.
- Graceful shutdown, the worker presence key and batching of reads: they add no behaviour to the protocol.
- WorkflowRuns.WorkflowSafety: requires distinct, non-empty step names, because the claim is false without (`StepNames.OneTaskPerStepIff`).
- StepNames.OneTaskPerStepIff: covers specs whose equally named steps have the same dependencies, and `StepPairs.PairIff` a single name shared by two steps of any dependencies; for several shared names, or three steps of one name, with different dependencies only the sufficient condition for a clash is proved (`StepNames.TogetherLaunchesTwice`), since there a clash also depends on which task rows are overwritten in between.
- Interleaving inside one call of `advance`: the rows and envelopes of a call appear together, before the queue goes on.
