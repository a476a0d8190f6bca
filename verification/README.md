# CAPSuleRT: a verified model

A Dafny 4.11 model of the runtime's core, with proofs over every run of it. `dafny verify dfyconfig.toml`
checks the whole project.

* **Scheduler.** `SchedulerModel` is the DAG scheduler as a state machine: queue, records, counters, workers
  (awake, waiting, executing, finishing, exited) and the event log; executor and verifier are functions of the
  agent ID. `SchedulerInvariants` and `SchedulerPreservation` hold the inductive invariant,
  `SchedulerProgress` deadlock freedom, wakeups and termination, `SchedulerOutcomes` schedule independence,
  gate safety and trace order. `Scheduler` is the imperative class: each method is one critical section and
  its contract says which steps of the state machine it takes. `Policy` has the two dispatch policies over
  real numbers, `Starvation` runs that pass one entry over any number of times.
* **Transactional output.** `OutputTree` is the file system as a map from paths to nodes, `Outputs` says what
  may be published and what is accepted, `OutputManager` is the store with Begin, Commit, Abort and Verify,
  `OutputRuns` the interleaving of many transactions, one operation a step. `OutputCalls` takes Commit and Abort
  apart into system calls, which goroutines interleave without a lock; `OutputRefinement` shows that whole operations
  are nevertheless what happens, `OutputOverlap` what follows, and what two calls on one transaction can do.
  `OutputExecutor` is the control block around a transaction, `OutputExamples` has small stores that misbehave.
  Hash and manifest coding are parameters.
* **Contexts.** `ContextStore` normalises references and keeps the warm registry, `ContextFS` is the
  content-addressed store with garbage collection.
* **Telemetry.** `EventBus` is the bus as a state machine of concurrent publishers, Close and the consumer,
  `EventPages` the bounded sink, the page function and the watch cursor.

`EndToEnd` runs scheduler and store side by side: what a dependency's verifier accepted still verifies when a
dependent agent is dispatched, and ever after. `WatchedTrace` follows the scheduler's log through the bus and a sink
to a watcher.

What turned out not to hold as one would expect, and what holds instead:

* CAPS does not always choose the minimum, not even among candidates in submission order:
  `Policy.InOrderMayMissMinimum`. `Policy.MinimumThreshold` says exactly for which scores it does,
  `Policy.PickNearMinimum`, `Policy.PickDrift` and `Policy.DriftIsTight` how far it can be off.
* Ageing does not prevent starvation: `Starvation.PassedOverForever` passes a ready entry over any number of times,
  at low pressure too, so that there is no bound on overtakers. `Policy.OvertakingThreshold` says exactly at which
  pressure a fresh job can overtake. Submission times need not follow sequence numbers, because Submit reads the
  clock before it takes the lock; where they do, `Policy.OvertakingInTimeThreshold` applies.
* A committed output need not verify: the scan records paths as they are, the coding of the manifest replaces what
  is not UTF-8, the verifier trims, and the manifest has a size cap only when read.
  `OutputExamples.SpaceIsNotVerified`, `OutputExamples.OddByteIsNotVerified` and
  `OutputExamples.LargeManifestIsNotVerified` are such outputs, `OutputRoundTrip.CommitVerifies` is the exact condition.
* Should a generated identifier repeat, a transaction can be staged and committed at once, because Begin looks
  only at the staging directory: `OutputExamples.ReusedIdentifier` is such a run,
  `OutputRuns.ExclusionNeedsFreshIds` the exact condition, `OutputRuns.ReuseNeedsSameStamp` what it takes.
* Commit and Abort of one transaction must not overlap: the manifest's MkdirAll can bring an aborted directory back,
  as in `OutputOverlap.AbortDuringCommit`. The executor never does that; `OutputOverlap.OnePlaceAtEveryMoment`.
* Context totals are 64-bit sums: `ContextStore.AffinityBoundExact` says exactly for which requests
  affinity is at most 1 in every registry, `ContextStore.AddIsMonotoneExact` for which Add never lowers it.
* Jobs accepted by a scheduler that is stopped before it is started never run, and Wait never returns:
  `SchedulerProgress.CanEndIff`, `SchedulerProgress.RestMeansDone`.
* A reference file is called after the digest of its name, so two names whose digests collide share one, and
  binding one replaces the other: `ContextFS.BindDisturbsOnlyCollisions` says that nothing else is disturbed.
* `delivered` can run ahead of `published` in mid-run: `EventBus.DeliveredMayLead` shows a case,
  `EventBus.DeliveredBalance` says exactly when.
* Concurrent publishers can be queued out of number order: `EventBus.ConcurrentOrder` shows a case,
  `EventBus.OrderThreshold` says exactly for which callers, `EventBus.OrderBreaksIff` from which states.
* A publication that times out is lost, and a watcher can then see a trace without its beginning:
  `WatchedTrace.TimeoutBreaksTrace`; without one, `WatchedTrace.WatcherSeesTrace`.
* The watch cursor loses events when a sink's history is out of number order: `EventPages.CursorLosesIff` is
  exact for one history, `EventPages.WatchThreshold` for the bus with its sinks and watchers.

## Model

| member | source | states |
|---|---|---|
| `Scheduler.NewScheduler` | internal/scheduler/scheduler.go:172-230 | a scheduler is built exactly for a given executor and positive worker count and queue size, in the initial state; otherwise the error of the first check that fails |
| `Scheduler.Scheduler.constructor` | internal/scheduler/scheduler.go:207-230 | a new scheduler is in the initial state of the state machine |
| `Scheduler.Scheduler.StartWorkers` | internal/scheduler/scheduler.go:233-251 | starts all workers once, and does nothing when already started or stopped |
| `Scheduler.Scheduler.StopWorkers` | internal/scheduler/scheduler.go:363-372 | sets the stop flag once and wakes every waiting worker |
| `Scheduler.Scheduler.Prepare` | internal/scheduler/scheduler.go:255-301 | the checks of Submit before the lock: which of ID, timeout, demand, contexts and dependencies is reported, exactly, in that order |
| `Scheduler.Scheduler.Admit` | internal/scheduler/scheduler.go:303-325 | refuses exactly the submissions that meet a stopped scheduler, a known ID, an unknown dependency or a full queue |
| `Scheduler.Scheduler.Enqueue` | internal/scheduler/scheduler.go:327-355 | the state after an accepted submission, including whom Signal wakes |
| `Scheduler.Scheduler.SubmitJob` | internal/scheduler/scheduler.go:254-355 | succeeds exactly under the listed conditions, with the whole new state: record, queue, counters, event and wakeup; else an error and no change |
| `Scheduler.Scheduler.DependencyStatus` | internal/scheduler/dependency.go:56-163 | the scan stops at the first dependency that is queued, running or permanently bad, else collects every dependency's output |
| `Scheduler.Scheduler.BlockEntry` | internal/scheduler/dependency.go:184-208 | cuts one entry out of the queue, ends its record as BLOCKED, logs it and broadcasts |
| `Scheduler.Scheduler.BlockUnrunnable` | internal/scheduler/dependency.go:165-182 | blocks the first permanently blocked entry, or reports that there is none |
| `Scheduler.Scheduler.BlockAll` | internal/scheduler/scheduler.go:410-412 | failure propagation runs to its fixpoint: afterwards no queued entry is permanently blocked |
| `Scheduler.Scheduler.CollectReady` | internal/scheduler/scheduler.go:423-435 | exactly the indexes of the ready entries, ascending |
| `Scheduler.Scheduler.BuildCandidates` | internal/scheduler/scheduler.go:456-485 | the candidates offered to the policy are the ready entries with their context figures, in queue order |
| `Scheduler.Scheduler.Choose` | internal/scheduler/scheduler.go:487-503 | the policy's answer, or the first ready entry when the answer is out of range |
| `Scheduler.Scheduler.Launch` | internal/scheduler/scheduler.go:502-556 | the chosen entry is dispatched with its dependency outputs, or blocked when these cannot be encoded |
| `Scheduler.Scheduler.Rest` | internal/scheduler/scheduler.go:414-441 | with nothing to dispatch the worker waits, or returns when the scheduler is stopped and the queue empty |
| `Scheduler.Scheduler.TakeRound` | internal/scheduler/scheduler.go:410-556 | one turn of the loop of take: it ends take, or continues it with a shorter queue after a refused choice |
| `Scheduler.Scheduler.Take` | internal/scheduler/scheduler.go:405-558 | one call under the lock is a run of state-machine steps ending in the policy's choice, a wait or the worker's return |
| `Scheduler.Scheduler.SettleReport` | internal/scheduler/scheduler.go:571-609 | error-free committed output is verified, a rejection fails the run, and success with committed output means verified |
| `Scheduler.Scheduler.EmitFinished` | internal/scheduler/events.go:67-97 | appends committed, verified or verification_failed as the record says, then finished |
| `Scheduler.Scheduler.EnterOutcome` | internal/scheduler/scheduler.go:619-678 | record, events and broadcast together are the state after a Finish step |
| `Scheduler.Scheduler.FinishEntry` | internal/scheduler/scheduler.go:611-678 | the end of an execution is one Finish step: record, log and broadcast |
| `Scheduler.Scheduler.PendingDone` | internal/scheduler/scheduler.go:560-561 | the deferred decrement of the pending counter |
| `SchedulerPreservation.StepInv` | internal/scheduler/scheduler.go:254-678 | every step of every goroutine keeps the invariant of queue, records, workers, counters, wakeups and log |
| `SchedulerPreservation.ReachableInv` | internal/scheduler/scheduler.go:254-678 | the invariant holds in every state of every run |
| `SchedulerProgress.NoDeadlock` | internal/scheduler/scheduler.go:405-441 | in every reachable started state with an unfinished job some worker executes or is awake |
| `SchedulerProgress.NoLostWakeups` | internal/scheduler/scheduler.go:348-372 | while any worker waits there are no more ready or blockable entries than awake workers; a worker has exited only after stop with an empty queue |
| `SchedulerProgress.AliveMoves` | internal/scheduler/scheduler.go:405-558 | every worker that is not waiting or gone has a step it can take |
| `SchedulerProgress.RestMeansDone` | internal/scheduler/scheduler.go:358-372 | when no worker can move, all jobs have ended exactly if the scheduler was started (or has none): then queue and pending are empty, else every accepted job still waits |
| `SchedulerProgress.CanEndIff` | internal/scheduler/scheduler.go:232-251 | from a reachable state all accepted jobs can end exactly when the scheduler has been started, or not yet stopped, or has none |
| `SchedulerProgress.StepLowersRank` | internal/scheduler/scheduler.go:405-678 | every step but a submission strictly lowers (2 queued + running, then how busy the workers are) |
| `SchedulerProgress.SubmitRaisesRank` | internal/scheduler/scheduler.go:323-348 | an accepted submission raises the rank by at most 4 workers + 3 |
| `SchedulerProgress.RunsAreBounded` | internal/scheduler/scheduler.go:254-678 | a run with k accepted jobs and w workers has at most 4w + 2 + k(4w + 4) steps |
| `SchedulerOutcomes.ReferenceUnfolds` | internal/scheduler/dependency.go:56-182 | the sequential reference execution satisfies the recursive equation of gate and outcome |
| `SchedulerOutcomes.ReferenceEnds` | internal/scheduler/dependency.go:56-182 | the reference execution ends every job |
| `SchedulerOutcomes.ReferenceMeaning` | internal/scheduler/dependency.go:72-156 | BLOCKED if some dependency is not SUCCEEDED with committed verified output (or outputs cannot be encoded), else the job's own outcome |
| `SchedulerOutcomes.MatchesReference` | internal/scheduler/scheduler.go:405-678 | in every reachable state every ended record is the reference's record |
| `SchedulerOutcomes.ScheduleIndependence` | internal/scheduler/scheduler.go:405-678 | any two complete runs of the same submissions and outcomes end alike, whatever the policy, worker count or interleaving |
| `SchedulerOutcomes.TerminalForever` | internal/scheduler/scheduler.go:611-678 | ended records are never rewritten |
| `SchedulerOutcomes.GateSafety` | internal/scheduler/dependency.go:73-156 | a record that ever ran has all dependencies good now and later, and its injected outputs equal theirs in every later state |
| `SchedulerOutcomes.IntegrityBranchesUnreachable` | internal/scheduler/dependency.go:73-127 | succeeded committed output is always verified; no record is ever blocked for an unknown or unverified dependency |
| `SchedulerOutcomes.BlockedHasCulprit` | internal/scheduler/dependency.go:88-127 | a BLOCKED job was never dispatched and has a dependency chain to a failed or uncommitted agent (or an unencodable input) |
| `SchedulerOutcomes.TraceOrder` | internal/scheduler/events.go:22-97 | each agent's events are always a prefix of a legal trace, and the whole trace once the job has ended |
| `SchedulerOutcomes.FinalEvents` | internal/scheduler/events.go:67-97 | of an agent that ran: committed is logged iff its record says committed, verified iff verified, verification_failed iff unverified with an error |
| `SchedulerOutcomes.EventsTell` | internal/scheduler/events.go:67-97 | so the agent's events tell what the executor committed and what the verifier said of it |
| `SchedulerOutcomes.EndedRecord` | internal/scheduler/scheduler.go:571-678 | a job that ran SUCCEEDED iff it reported no error and the verifier accepted what it committed; its record has the executor's output and the verifier's words, field by field |
| `SchedulerOutcomes.HandedOutputSays` | internal/scheduler/dependency.go:210-253 | what a dispatched agent is told of a dependency: that agent's own commit, place, counts and verdict, field by field |
| `SchedulerOutcomes.BlockReasonHolds` | internal/scheduler/dependency.go:56-208 | a BLOCKED record names the first dependency that is no good and says truly why; else all are good and their outputs not encodable |
| `SchedulerOutcomes.VerifiedBeforeDispatch` | internal/scheduler/events.go:31-97 | each dispatched event comes after the verified event of every dependency |
| `SchedulerBookkeeping.BooksBalance` | internal/scheduler/scheduler.go:323-347 | the queue is the QUEUED records in submission order, running jobs fit the workers, pending counts unfinished and unreported jobs |
| `SchedulerBookkeeping.RunAccepts` | internal/scheduler/scheduler.go:323-347 | over any run the accepted jobs are the submitted requests with all their fields and contexts, in order, numbered one by one |
| `SchedulerBookkeeping.QueuedAsSubmitted` | internal/scheduler/scheduler.go:323-347 | every queued or executing entry is the request with its number, as submitted |
| `SchedulerBookkeeping.FallbackIsFirst` | internal/scheduler/scheduler.go:487-503 | under a policy that answers outside the list the entry submitted first is dispatched |
| `SchedulerBookkeeping.WaitMeansDone` | internal/scheduler/scheduler.go:358-361 | Wait returns only when every accepted job has ended |
| `SchedulerBookkeeping.OfferedInOrder` | internal/scheduler/scheduler.go:456-503 | candidates are in strict sequence order, so the out-of-range fallback is the FIFO choice |
| `SchedulerBookkeeping.CapsDispatchIsNearBest` | internal/scheduler/scheduler.go:410-503 | the entry that take dispatches under CAPS, by the clock and pressure of the round that chose it: no ready entry scores better by more than the tolerance, every ready one submitted earlier scores strictly worse |
| `SchedulerBookkeeping.OfferedNormalized` | internal/scheduler/scheduler.go:267-273 | in every reachable state the policy is offered demands in range, not zero, and affinities in [0, 1], unless context sizes wrap |
| `SchedulerBookkeeping.CapsDispatchRespectsAge` | internal/scheduler/scheduler.go:410-503 | take dispatches past an earlier ready entry with the full age bonus only what has by then earned a bonus above 3 - affinityWeight - levels |
| `Starvation.PassedOverForever` | internal/scheduler/scheduler.go:410-558 | for every n some run dispatches n others past a ready entry that has its full age bonus each time, and leaves it queued: fresh ones under full pressure, aged ones under any pressure, also none |
| `SchedulerBookkeeping.Status` | internal/scheduler/query.go:17-36 | the reported counts are the sizes of the phases |
| `SchedulerBookkeeping.StatusAddsUp` | internal/scheduler/query.go:17-36 | queue depth plus the other phases add up to the total, which is the sequence counter |
| `Dependencies.Normalize` | internal/scheduler/dependency.go:13-54 | sorted, repeat-free, trimmed, without the agent itself; the first faulty dependency decides the error |
| `Dependencies.NormalizedUnique` | internal/scheduler/dependency.go:13-54 | the result depends only on which dependencies are mentioned |
| `Policy.Level` | internal/scheduler/policy.go:217-235 | a pressure level always lies in [0, 1] |
| `Policy.LevelMeaning` | internal/scheduler/policy.go:217-235 | 100 levels are the partial stalls plus fullWeight times the full ones, cut off at 0 and 100 |
| `Policy.PressureMovesLevel` | internal/scheduler/policy.go:153-155 | each resource's level comes from that resource's averages alone |
| `Policy.Evaluate` | internal/scheduler/policy.go:157-183 | the score of one candidate; what it makes of levels, warmth and waiting is said below |
| `Policy.LevelMovesScore` | internal/scheduler/policy.go:167-170 | changing one level changes a score by that change times what the candidate wants of that very resource |
| `Policy.AffinityMovesScore` | internal/scheduler/policy.go:172-182 | warm context lowers a score by its share times the affinity weight |
| `Policy.WaitingMovesScore` | internal/scheduler/policy.go:162-182 | waiting lowers a score by rate times seconds, at most 3, and never before the submission time |
| `Policy.PressureShiftsChoice` | internal/scheduler/policy.go:129-215 | more pressure on one resource does not move the choice to a job that wants more of it, but for two tolerances |
| `Policy.SelectCAPS` | internal/scheduler/policy.go:129-215 | the pass returns the last entry that displaced its predecessor under the tolerance rule |
| `Policy.PickInOrder` | internal/scheduler/policy.go:182-191 | in submission order every earlier candidate scores strictly worse than the chosen one, every later at best the tolerance better |
| `Policy.PickNearMinimum` | internal/scheduler/policy.go:182-191 | in submission order the chosen score is at most the minimum plus 1e-9 |
| `Policy.InOrderMayMissMinimum` | internal/scheduler/policy.go:129-191 | two candidates in submission order, wanting 2e-9 and 1e-9 of a fully pressed processor, of which the worse is chosen, by exactly 1e-9 |
| `Policy.MinimumThreshold` | internal/scheduler/policy.go:182-191 | given the scores, every submission order has the least one chosen exactly when no other lies within 1e-9 above it |
| `Policy.PickDrift` | internal/scheduler/policy.go:182-191 | in any order it is at most the minimum plus (n - 1) times 1e-9 |
| `Policy.DriftIsTight` | internal/scheduler/policy.go:182-191 | for every n some list, not in submission order, reaches that drift |
| `Policy.ScoreBounds` | internal/scheduler/policy.go:157-183 | without the age bonus a score lies between minus the affinity weight and the sum of the levels |
| `Policy.BoundedOvertaking` | internal/scheduler/policy.go:157-191 | a later job is chosen over a saturated one only if its own age bonus exceeds 3 - affinityWeight - levels |
| `Policy.FreshNeverOvertakes` | internal/scheduler/policy.go:157-191 | with levels summing to at most 3 - affinityWeight a fresh job never overtakes a saturated one |
| `Policy.OvertakingThreshold` | internal/scheduler/policy.go:157-191 | a fresh job can overtake a saturated one exactly when the levels sum to more than 3 - affinityWeight |
| `Policy.OvertakingInTimeThreshold` | internal/scheduler/policy.go:157-191 | among candidates whose submission times follow their numbers it takes 1e-9 more |
| `Policy.AgeingDoesNotPreventStarvation` | internal/scheduler/policy.go:157-191 | under full pressure a job that wants everything loses to a light, warm, fresh one however long it has waited |
| `Policy.AgedLightOvertakes` | internal/scheduler/policy.go:157-191 | at every pressure such a job loses to a light, warm one that has its full age bonus too |
| `Policy.SelectFIFO` | internal/scheduler/policy.go:86-104 | the first candidate with the smallest sequence number |
| `ContextStore.EnterRef` | internal/contextstore/registry.go:83-128 | one reference is rejected with its first fault, or merged into the entry of its identity |
| `ContextStore.NormalizeRefs` | internal/contextstore/registry.go:79-144 | the normal form of valid references, else the first fault |
| `ContextStore.NormalFormMeaning` | internal/contextstore/registry.go:79-144 | one reference per identity in strict identity order, with the largest size and the least non-empty key |
| `ContextStore.NormalFormIgnoresOrder` | internal/contextstore/registry.go:79-144 | order and repetition of the references do not matter |
| `ContextStore.NormalFormIdempotent` | internal/contextstore/registry.go:79-144 | normalising twice is normalising once |
| `ContextStore.SameObjectIff` | internal/contextstore/registry.go:27-39 | two references are of one object iff they have the same digest, or neither has one and they have the same name |
| `ContextStore.FaultMeaning` | internal/contextstore/registry.go:83-128 | which of the three faults a reference has, exactly |
| `ContextStore.RequestedBytes` | internal/contextstore/registry.go:251-265 | the 64-bit total of the normal form, 0 for invalid input |
| `ContextStore.ReusableBytes` | internal/contextstore/registry.go:267-292 | the 64-bit total of the warm part of the normal form |
| `ContextStore.Affinity` | internal/contextstore/registry.go:294-303 | reusable over requested, 0 when nothing is requested |
| `ContextStore.Registry.Add` | internal/contextstore/registry.go:159-201 | the entries after warming the normal form; invalid input changes nothing |
| `ContextStore.Registry.Touch` | internal/contextstore/registry.go:203-229 | hits and use times of the entries present; invalid input changes nothing |
| `ContextStore.AddMeaning` | internal/contextstore/registry.go:159-201 | Add enters exactly the objects named, each with the largest size and the first name and digest known of it, and leaves the others alone |
| `ContextStore.TouchMeaning` | internal/contextstore/registry.go:203-229 | Touch counts one more use, at this time, of exactly the entries named, and changes nothing else |
| `ContextStore.AffinityMeaning` | internal/contextstore/registry.go:294-303 | affinity times requested is reusable, and 0 when nothing is requested |
| `ContextStore.AffinityInUnitInterval` | internal/contextstore/registry.go:251-303 | without wrap, reusable is at most requested and affinity lies in [0, 1] |
| `ContextStore.AffinityBoundExact` | internal/contextstore/registry.go:251-303 | reusable is at most requested for every registry exactly when the request's total does not wrap, or wraps to the largest value |
| `ContextStore.WrapBreaksAffinity` | internal/contextstore/registry.go:251-303 | a request whose total wraps to 1 byte finds 2^64 - 1 bytes warm |
| `ContextStore.AddIsMonotone` | internal/contextstore/registry.go:159-201 | Add never lowers what a request whose total does not wrap can reuse |
| `ContextStore.AddIsMonotoneExact` | internal/contextstore/registry.go:159-201 | Add never lowers what a request can reuse, in any registry, exactly when the request's total does not wrap |
| `ContextStore.AddMakesReusable` | internal/contextstore/registry.go:159-201 | after Add the whole request is reusable |
| `ContextStore.TouchIsNeutral` | internal/contextstore/registry.go:203-229 | Touch changes no request's reusable bytes |
| `Paths.ValidatedNames` | internal/outputtxn/verify.go:438-472 | an accepted artifact path is a non-empty list of proper names no longer than the text |
| `Paths.ValidatedLetters` | internal/outputtxn/verify.go:438-472 | an accepted artifact path has no characters but those of the text it was read from |
| `Paths.AcceptedDepth` | internal/outputtxn/verify.go:438-472 | accepted are exactly the relative paths that end below their start and never climb above it; the result has as many names as the path is deep |
| `Paths.SameArtifactPath` | internal/outputtxn/verify.go:438-472 | texts that differ by an empty component, a dot, or a name followed by two dots are the same artifact or get the same error |
| `Paths.ValidateOwnPath` | internal/outputtxn/verify.go:438-472 | the path of an existing file is read back as itself exactly when trimming leaves it alone; otherwise as a strictly shorter path |
| `OutputTree.ModeRoundTrip` | internal/outputtxn/verify.go:278-300 | the recorded mode text parses back to the published mode |
| `OutputTree.PermissionDigits` | internal/outputtxn/manager.go:494-512 | executable and writable in terms of the three octal digits of a mode |
| `OutputTree.SizeOfAdd` | internal/outputtxn/manager.go:485-527 | the total size does not depend on the order of the walk |
| `OutputManager.TransactionIDSafe` | internal/outputtxn/manager.go:155-184 | a generated identifier is a single directory name without outer white space |
| `OutputManager.TransactionIDUnique` | internal/outputtxn/manager.go:163-176 | two generated identifiers are equal only if agent, clock reading and random suffix all are |
| `OutputManager.Open` | internal/outputtxn/manager.go:93-137 | refused exactly for a blank root or where the root or one of the two directories cannot be made; else both exist and limits fall back to the defaults |
| `OutputManager.Manager.Begin` | internal/outputtxn/manager.go:155-209 | the first of 16 generated identifiers without a staging directory, which is created; error exactly for a bad agent ID or 16 collisions |
| `OutputManager.Manager.CheckTransaction` | internal/outputtxn/manager.go:346-408 | passes exactly the transactions of this store whose staging directory exists |
| `OutputManager.ValidMeaning` | internal/outputtxn/manager.go:346-408 | the transactions that pass: a non-empty identifier, a directory directly below staging, a target directly below the agent's committed directory |
| `OutputManager.Manager.Examine` | internal/outputtxn/manager.go:434-492 | the checks on one entry of the walk; the byte limit is tested without underflow |
| `OutputManager.Manager.Scan` | internal/outputtxn/manager.go:410-550 | succeeds exactly on a publishable tree, then lists every artifact once in path order and makes it read-only; else only modes changed and the error tells the truth |
| `OutputManager.LimitsAreOrderless` | internal/outputtxn/manager.go:478-492 | a limit hit in one walking order is exceeded by the tree itself |
| `OutputManager.Manager.Publish` | internal/outputtxn/manager.go:278-309 | parents are made, an existing target or a target inside the source is refused, the rest is one rename |
| `OutputManager.Manager.Commit` | internal/outputtxn/manager.go:212-328 | succeeds exactly when the transaction can be committed and then leaves the published tree; else the error tells the truth and nothing outside staging is lost or changed |
| `OutputManager.CommitSucceedsIff` | internal/outputtxn/manager.go:212-550 | a begun transaction can be committed iff it holds only files and directories, no reserved name, is within limits, is non-empty where that is asked, and its place is free |
| `OutputManager.ListedFile` | internal/outputtxn/manager.go:485-527 | the record of each artifact: path, digest, size and the mode it is published with |
| `OutputManager.CommittedManifest` | internal/outputtxn/manager.go:225-309 | the manifest read back from a commit: whose it is, both times, counts and total, in strict path order, mode 0444 |
| `OutputManager.Manager.Abort` | internal/outputtxn/manager.go:331-344 | removes the staging directory of a valid transaction and nothing else |
| `OutputManager.Manager.NoSymlinkPath` | internal/outputtxn/verify.go:487-563 | no component down to the directory is missing or a link |
| `OutputManager.Manager.CheckRecord` | internal/outputtxn/verify.go:214-327 | accepts a record exactly if it is true of the tree and names a path not listed before |
| `OutputManager.Manager.CheckRecords` | internal/outputtxn/verify.go:200-331 | accepts exactly the lists whose records all hold; else names the first bad record; the byte total is modulo 2^64 |
| `OutputManager.Manager.CheckTree` | internal/outputtxn/verify.go:341-413 | accepts exactly if every entry is accounted for, and counts the artifacts; else names a stray entry |
| `OutputManager.Manager.CheckHeader` | internal/outputtxn/verify.go:150-198 | the identity check on the decoded manifest passes exactly if version, both identifiers, both times and all counts fit |
| `OutputManager.Manager.Verify` | internal/outputtxn/verify.go:23-436 | succeeds exactly when the tree is accepted, with the manifest's identity, times and counts spelled out and the manifest's digest as answer; every error tells the truth, naming the first bad record or a stray entry |
| `OutputIntegrity.AcceptedManifest` | internal/outputtxn/verify.go:110-198 | the manifest of accepted output has version 1, the output's agent and transaction, both times, the output's counts and its number of records, and at most 16 MiB |
| `OutputIntegrity.ManifestBelongsToOne` | internal/outputtxn/verify.go:23-198 | the same manifest bytes are accepted for one output only |
| `OutputIntegrity.AcceptedPlace` | internal/outputtxn/verify.go:27-108 | accepted output lies in the committed directory of its own agent and transaction, with no link on the way |
| `OutputIntegrity.AcceptedRecord` | internal/outputtxn/verify.go:214-327 | each recorded file is there, read-only, with the recorded size, digest and mode; a digest is 64 hexadecimal digits |
| `OutputIntegrity.ArtifactsAreTargets` | internal/outputtxn/verify.go:200-427 | the artifacts are exactly the listed files, as many as listed and of the listed total size |
| `OutputIntegrity.AcceptedTree` | internal/outputtxn/verify.go:200-427 | an accepted directory holds exactly the manifest's files, read-only, of the recorded count and size, and no links or special files |
| `OutputIntegrity.SameManifestSameFiles` | internal/outputtxn/verify.go:200-427 | two accepted trees with the same manifest bytes agree in every artifact's bytes and mode unless digests collide |
| `OutputIntegrity.TamperEvident` | internal/outputtxn/verify.go:189-436 | with the manifest left alone a tree is accepted again exactly when the way to it is plain and no artifact was edited, added, deleted, replaced or given another mode |
| `OutputIntegrity.LinksRejected` | internal/outputtxn/verify.go:376-397 | a link or special file anywhere below the directory is rejected |
| `OutputIntegrity.AcceptanceIsLocal` | internal/outputtxn/verify.go:23-436 | acceptance depends only on the directory, what is below it and what is above it |
| `OutputRoundTrip.PublishedMoved` | internal/outputtxn/manager.go:253-309 | after publishing each staged entry lies at the same place below the final directory, artifacts read-only, with the manifest |
| `OutputRoundTrip.PublishedElsewhere` | internal/outputtxn/manager.go:278-309 | away from the two directories publishing only creates missing parents |
| `OutputRoundTrip.CommitVerifies` | internal/outputtxn/manager.go:212-328 | what was committed verifies exactly if the manifest fits 16 MiB and no artifact path has outer white space or is not UTF-8 |
| `OutputShape.PublishedWellFormed` | internal/outputtxn/manager.go:278-309 | publishing leaves a well-formed tree |
| `OutputRuns.StepInv` | internal/outputtxn/manager.go:155-344 | every begin, write, commit and abort of any transaction keeps the store's invariant |
| `OutputRuns.PublishedForever` | internal/outputtxn/manager.go:287-309 | a committed directory never changes and never disappears, in any interleaving |
| `OutputRuns.VerifiedForever` | internal/outputtxn/verify.go:23-436 | an output verifies later exactly if it verified when committed |
| `OutputRuns.CommittedVerifiesForever` | internal/outputtxn/manager.go:212-328 | what a commit published verifies in every later state exactly under the round-trip condition |
| `OutputRuns.StagingIsPrivate` | internal/outputtxn/manager.go:176-192 | steps of other transactions never show in a staging directory |
| `OutputRuns.ExactlyOnePlace` | internal/outputtxn/manager.go:155-344 | with fresh identifiers each transaction is in exactly one of staging, committed and gone |
| `OutputRuns.EndsOnce` | internal/outputtxn/manager.go:346-408 | after a commit or an abort every further commit or abort fails |
| `OutputRuns.ReuseBreaksExclusion` | internal/outputtxn/manager.go:163-192 | beginning with any identifier used before ends the one-place property, whatever became of the earlier transaction |
| `OutputRuns.ExclusionNeedsFreshIds` | internal/outputtxn/manager.go:163-192 | in a run every transaction is where its history says throughout exactly when no identifier is given out twice |
| `OutputRuns.BegunAgain` | internal/outputtxn/manager.go:163-192 | every run can go on by beginning a committed transaction's identifier again, and it is then staged and committed at once |
| `OutputRuns.ReuseNeedsSameStamp` | internal/outputtxn/manager.go:163-192 | begun transactions with one identifier have the same agent, clock reading and random suffix, hence the same two directories |
| `OutputRefinement.MoveFollows` | internal/outputtxn/manager.go:212-344 | each system call of a commit or abort keeps the store in step with whole operations, and completes at most one of them |
| `OutputRefinement.Refines` | internal/outputtxn/manager.go:212-344 | however the system calls of different transactions interleave, the store follows a run of whole operations in which a commit happens at its rename, an abort with its last removal |
| `OutputOverlap.RestIsWhole` | internal/outputtxn/manager.go:212-344 | when no call is under way, tree and history are exactly those of whole operations |
| `OutputOverlap.PublishedStays` | internal/outputtxn/manager.go:287-309 | during whatever calls, a committed directory stays, unchanged and within the limits |
| `OutputOverlap.RenamedVerifies` | internal/outputtxn/manager.go:246-309 | what a rename published verifies at every later moment exactly under the round-trip condition |
| `OutputOverlap.OnePlaceAtEveryMoment` | internal/outputtxn/manager.go:155-344 | every transaction is where its history says at every moment, also in the middle of calls, exactly when no identifier is given out twice |
| `OutputOverlap.OverlapBreaksPlaces` | internal/outputtxn/manager.go:635-681 | from every state with a commit between scan and manifest, an abort of the same transaction leaves it aborted and in staging again |
| `OutputOverlap.AbortDuringCommit` | internal/outputtxn/manager.go:635-681 | such a run from the empty store: begin, write, and an abort between the scan and the manifest of the commit |
| `OutputExamples.ReusedIdentifier` | internal/outputtxn/manager.go:163-192 | such a run from the empty store, with an identifier that Begin generates: begin, write, commit, begin |
| `OutputExamples.SpaceIsNotVerified` | internal/outputtxn/verify.go:438-472 | a file named space-a is committed and then refused by the verifier |
| `OutputExamples.OddByteIsNotVerified` | internal/outputtxn/manager.go:225-239 | a file whose name is one byte that is not UTF-8 is committed and then refused |
| `OutputExamples.LargeManifestIsNotVerified` | internal/outputtxn/verify.go:110-128 | with any coding that writes every path out, 65794 files with names of 255 characters are committed and then refused |
| `OutputRuns.PublishedWithinLimits` | internal/outputtxn/manager.go:478-527 | whatever is published is within MaxFiles and MaxBytes at any time, and not empty unless that is allowed |
| `OutputExecutor.Executor.Start` | internal/runtime/output_executor.go:83-102 | all output fields of the control block are reset and the two variables set, the rest of the environment kept |
| `OutputExecutor.Executor.FinishFailure` | internal/runtime/output_executor.go:142-173 | failed output is retained or removed as configured; a staging directory that cannot be removed is reported besides the cause |
| `OutputExecutor.Executor.Conclude` | internal/runtime/output_executor.go:104-140 | succeeds exactly if the agent did and its output can be committed; committed holds exactly in state COMMITTED |
| `OutputExecutor.Executor.Run` | internal/runtime/output_executor.go:67-140 | a whole run: committed and exported, or failed with nothing outside its staging directory lost or changed |
| `OutputExecutor.RunOutputVerifies` | internal/scheduler/dependency.go:242-253 | the output described by the control block verifies exactly under the round-trip condition |
| `EndToEnd.GoodRecordsStand` | internal/scheduler/scheduler.go:571-678 | at every moment every dependency the gate accepts has the output its agent reported, committed and verifying in the store |
| `EndToEnd.DispatchedOutputsVerify` | internal/scheduler/dependency.go:210-253 | an agent is dispatched with the output each dependency reported, and that output verifies then and at every later moment |
| `WatchedTrace.SentIsPrefix` | internal/scheduler/events.go:117-143 | published one after the other and none timed out, the events reach the queue as a prefix of the scheduler's log |
| `WatchedTrace.SinkKeepsTrace` | internal/scheduler/events.go:117-143 | what a sink holds of one agent then begins a complete trace, at every moment |
| `WatchedTrace.BeginsReads` | internal/telemetry/event.go:12-22 | the texts of a complete trace, written out: what begins one is the beginning of such a list |
| `WatchedTrace.WatcherSeesTrace` | cmd/aegisctl/main.go:303-364 | and so does what a watcher of that agent has printed, over any polls |
| `WatchedTrace.TimeoutBreaksTrace` | internal/scheduler/events.go:136-142 | a run in which one publication times out and a sink holds a trace without its beginning |
| `ContextFS.Store.EnsureMetadata` | internal/contextfs/store.go:629-688 | good metadata is kept, missing or wrong metadata is written again |
| `ContextFS.MetadataIsRepaired` | internal/contextfs/store.go:629-688 | after a use an object's metadata is right: as it was if it was right, else written from the object file; others are left alone |
| `ContextFS.Store.Put` | internal/contextfs/store.go:143-261 | stores under the content's digest, deduplicates, and fails exactly when a blob of another size is already there |
| `ContextFS.Store.Resolve` | internal/contextfs/store.go:264-273 | succeeds exactly for the digest of an existing blob |
| `ContextFS.Store.Bind` | internal/contextfs/store.go:296-346 | succeeds exactly for a non-blank name and an existing object, and the name then resolves to it |
| `ContextFS.BindMeaning` | internal/contextfs/store.go:296-346 | a bind makes the name resolve to that digest with its object's size, or changes nothing; no other reference file changes |
| `ContextFS.Store.ResolveRef` | internal/contextfs/store.go:349-381 | the lookup; under the invariant it never finds a corrupt reference or a missing object |
| `ContextFS.Store.Release` | internal/contextfs/store.go:385-425 | removes exactly the named reference file, blobs and metadata unchanged; a missing one is no error |
| `ContextFS.ReleaseMeaning` | internal/contextfs/store.go:385-425 | a successful release makes the name unknown and removes its reference file alone; any other changes nothing |
| `ContextFS.ReleaseDisturbsNoOther` | internal/contextfs/store.go:385-425 | every other name resolves as before |
| `ContextFS.ReleasedIsCollected` | internal/contextfs/store.go:385-596 | in every run the object of a released name survives the next collection exactly if another reference points to it |
| `ContextFS.Store.ListEntries` | internal/contextfs/store.go:690-719 | every reference once, in name order, or an error if one is unreadable |
| `ContextFS.Store.RefCount` | internal/contextfs/store.go:436-458 | the number of references to the digest, 0 exactly when it is not live |
| `ContextFS.Store.Statistics` | internal/contextfs/store.go:461-512 | the numbers of objects, bytes and references |
| `ContextFS.Store.Collect` | internal/contextfs/store.go:515-596 | removes exactly the garbage with its metadata and reports it |
| `ContextFS.RunInv` | internal/contextfs/store.go:193-425 | in every interleaving each blob lies under its own digest and each reference points to an existing blob |
| `ContextFS.CollectionIsExact` | internal/contextfs/store.go:515-596 | collection removes exactly the unreferenced blobs and changes no lookup |
| `ContextFS.CollectionIdempotent` | internal/contextfs/store.go:515-596 | collecting twice is collecting once |
| `ContextFS.ReportAddsUp` | internal/contextfs/store.go:530-595 | removed + retained = objects before, the bytes add up, a second pass removes nothing |
| `ContextFS.BoundSurvives` | internal/contextfs/store.go:296-596 | a bound object survives any run that does not rebind or release its name |
| `ContextFS.BindDisturbsOnlyCollisions` | internal/contextfs/store.go:334-369 | binding a name changes how another resolves exactly if both share a reference file |
| `ContextFS.PutThenRead` | internal/contextfs/store.go:193-261 | what was put is read back unless another content already lies under its digest |
| `ContextFS.UnboundIsCollected` | internal/contextfs/store.go:515-596 | an object put and collected remains exactly if it is referenced |
| `EventBus.NewBus` | internal/telemetry/bus.go:65-91 | refused exactly for a nil sink, naming the first; else an open, empty bus |
| `EventBus.Bus.constructor` | internal/telemetry/bus.go:77-90 | an open bus with an empty queue; a non-positive buffer becomes 1024 |
| `EventBus.Bus.Enter` | internal/telemetry/bus.go:102-112 | refused exactly when closed, else numbered with the next sequence number |
| `EventBus.Bus.Send` | internal/telemetry/bus.go:123-126 | the send happens on an open queue |
| `EventBus.Bus.Leave` | internal/telemetry/bus.go:124-130 | the counter after a send, or the cancelled return |
| `EventBus.Bus.CloseQueue` | internal/telemetry/bus.go:159-169 | the first Close sets the flag and closes the queue with no publisher inside; later ones change nothing |
| `EventBus.Bus.DeliverOne` | internal/telemetry/bus.go:183-194 | one event goes from the queue to the end of every sink's log |
| `EventBus.Bus.Drain` | internal/telemetry/bus.go:180-194 | after Close the queue is emptied into every sink: delivered = published |
| `EventBus.StepInv` | internal/telemetry/bus.go:94-194 | every step of publishers, Close and the consumer keeps counters, pipeline and numbering consistent |
| `EventBus.NoSendOnClosedQueue` | internal/telemetry/bus.go:102-131 | no reachable state lets a publisher send on the closed queue |
| `EventBus.AcceptedOnce` | internal/telemetry/bus.go:109-126 | accepted events have different numbers and occur once in the queue's history, with their own payload |
| `EventBus.SinksFollowQueue` | internal/telemetry/bus.go:183-194 | every sink always holds a prefix of the queue's history, one event apart at most |
| `EventBus.Conservation` | internal/telemetry/bus.go:159-194 | once drained: delivered = published = allocated - cancelled, and every sink has every accepted event |
| `EventBus.DeliveredBalance` | internal/telemetry/bus.go:123-194 | at every moment delivered + queued + being written = published + sent and not yet counted; so exactly when delivered exceeds published |
| `EventBus.DeliveredMayLead` | internal/telemetry/bus.go:123-126 | delivered can exceed published in mid-run |
| `EventBus.SerialOrder` | internal/telemetry/bus.go:109-126 | with one publisher at a time every sink sees increasing numbers |
| `EventBus.ConcurrentOrder` | internal/telemetry/bus.go:109-126 | with two publishers the queue can hold number 2 before number 1 |
| `EventBus.OrderBreaksIff` | internal/telemetry/bus.go:109-126 | from any reachable state some continuation queues events out of number order exactly when two calls have yet to send on the open bus, or one has been overtaken |
| `EventBus.OrderThreshold` | internal/telemetry/bus.go:65-126 | seen before the run: queue and sinks keep number order in every run exactly when there is at most one call (or no room, or no sink) |
| `EventBus.Drains` | internal/telemetry/bus.go:159-194 | after Close each consumer step brings the end one step nearer and publishers change nothing |
| `EventBus.DrainNeverStuck` | internal/telemetry/bus.go:180-194 | after Close the consumer can always step until it has stopped |
| `EventBus.EverybodyCanFinish` | internal/telemetry/bus.go:94-194 | from every reachable state some continuation has every open call accepted, the bus closed and its consumer stopped |
| `EventPages.MemorySink.DropFirst` | internal/telemetry/memory.go:37-47 | the in-place shift keeps exactly the later events |
| `EventPages.MemorySink.WriteEvent` | internal/telemetry/memory.go:25-51 | the sink is always the last maxEvents of its history |
| `EventPages.MemorySink.Snapshot` | internal/telemetry/memory.go:54-65 | the retained events |
| `EventPages.MemorySink.Since` | internal/telemetry/memory.go:68-88 | the retained events with a larger number |
| `EventPages.ParseLimit` | internal/controlapi/api.go:376-398 | 200 when absent, else accepted exactly from 1 to 1000 |
| `EventPages.HandleEvents` | internal/controlapi/api.go:270-374 | which error is answered for another method, a malformed since or a bad limit; else the retained events that satisfy each filter, stated field by field, at most limit of them, with their exact number |
| `EventPages.PageIsAsked` | internal/controlapi/api.go:305-372 | a page holds the first of the retained events that satisfy kind, agent, phase and since, in the sink's order, with their exact number as total |
| `EventPages.PagedItems` | internal/controlapi/api.go:305-347 | filter by filter of each item: its kind is the trimmed kind asked for, its agent the agent, its phase the upper-cased phase, its number past since |
| `EventPages.PageMeaning` | internal/controlapi/api.go:317-361 | a page holds exactly the matching retained events between the two cursors, in order |
| `EventPages.ClientFiltersSurvive` | cmd/aegisctl/main.go:367-407 | the server reads the client's cleaned filters as the flags themselves |
| `EventPages.Watch` | cmd/aegisctl/main.go:303-364 | what the loop prints and its cursor, over any polls, failed ones included |
| `EventPages.PrintedInOrder` | cmd/aegisctl/main.go:303-364 | everything printed matches, comes once and in order |
| `EventPages.PrintedOrEvicted` | cmd/aegisctl/main.go:303-364 | up to the cursor a matching event was printed exactly if it had not been evicted before its poll |
| `EventPages.PagesConcatenate` | cmd/aegisctl/main.go:303-364 | with nothing evicted the pages are exactly the matching events after the start |
| `EventPages.DisorderLoses` | cmd/aegisctl/main.go:303-364 | in any history with a larger number before a smaller one some single poll loses the later event |
| `EventPages.CursorLosesIff` | cmd/aegisctl/main.go:303-364 | polls of an unbounded sink can lose an event exactly when its history is out of number order |
| `EventPages.WatchThreshold` | cmd/aegisctl/main.go:303-364 | no watcher of an unbounded sink can lose an event in any run exactly when there is at most one Publish call (or nothing can be delivered) |
| `EventPages.PollMakesProgress` | cmd/aegisctl/main.go:303-364 | a served poll with something left to print prints and advances |
| `EventPages.BusFeedsCursor` | internal/telemetry/bus.go:94-131 | what serialised publishers send reaches every sink as a history the cursor can follow |

## Left out

- Process launching, cgroups, the pressure-file reader, HTTP routing, the client, the rest of the command line,
  workspace materialisation, demos and workers: plumbing around the modelled core.
- OutputManager.Manager.Commit: when several faults apply it is not stated which is reported, because that depends
  on the order of the walk.
- Scheduler.Scheduler.StopWorkers: Stop's wait for the worker goroutines is not in the contract of this one
  critical section; that they all return, and what then holds, is `SchedulerProgress.RestMeansDone`.
- EventBus.Bus.CloseQueue: the wait of Close for the consumer, and its return on a cancelled context.
- ContextFS.Store.Bind: reference names are valid UTF-8. The program binds another name under its own digest and stores
  it rewritten, so that it neither resolves nor can be released.
- EventBus.Conservation: a write that a sink answers with an error counts as delivered, as in the program; the
  error counter and whether the sink kept the event are not modelled.
- SHA-256 and JSON: functions given as parameters; decoding is assumed to invert encoding up to the replacement of
  what is not UTF-8, and digests to be 64 hexadecimal digits. A name is a sequence of characters, some of which stand
  for bytes that are not UTF-8; where those sort among others is not modelled. Collision freedom is assumed only
  between the two contents compared.
- Failing system calls: fsync (also after the publishing rename, where files are published but an error is
  returned), reads and walks that fail half way, and a file that changes while it is hashed.
- Context cancellation in scans, hashing and copying.
- Rounding, infinities and NaN: scores and levels are real numbers. Times are integers, and the clock may jump.
- Wrap-around of the scheduler's and the bus's 64-bit sequence numbers and of ContextFS byte totals. The
  manifest's byte total and the registry's totals do wrap in the model.
- The temporary file that the manifest is written to: in `OutputCalls` the manifest appears in one step. `EndToEnd` and
  `OutputExecutor` take the store's operations as whole steps, which `OutputRefinement.Refines` justifies.
- The order in which a directory walk or a map range visits its entries: any order is allowed.
- Symbolic links on the way to an artifact or as the staging directory: below a link the tree has no entries, so
  the verifier reports a missing file where the program reports the link later; both reject. A link as the
  agent's committed directory is treated as blocking the commit.
- Transaction identifiers that climb above the store root and come back by its own name.
- Agents write only below their own staging directory or remove it, and the wrapped executor keeps the agent's ID and leaves
  the output fields alone.
- The scheduler's record fields for exit code, resource statistics, dispatch figures and timestamps, the catalog
  calls for touched and added contexts, and the human-readable reason texts beyond what blocked a job.
- Failures of the event publisher, and the payloads of events.
- MemorySink: cloning of payloads is not modelled, events are values.
- Letters outside a-z in the case folding of the phase filter.
