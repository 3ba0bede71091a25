# uncworks: verified models of its controllers and stores

This project models, in Dafny, the parts of uncworks whose correctness is not
visible from one function at a time, and proves what they promise.

- **Chains.** `ValidateChainDAG` decides whether a list of steps is a DAG, by
  Kahn's algorithm (`ChainValidation.dfy`, over the graph theory in
  `ChainGraph.dfy`). The ChainRun reconciler advances a chain one pass at a
  time: it syncs running steps, starts ready ones, skips to a fixpoint and
  decides the outcome. `ChainExecutor.dfy` states one pass on values,
  `ChainReconciler.dfy` is the reconciler with its loops over a working copy,
  `ChainRuns.dfy`, `ChainProgress.dfy` and `ChainOutcomes.dfy` are about whole
  runs.
- **The citation lockfile.** `LockStore.dfy` is the store as a state machine
  over a small filesystem with any number of processes, readers and crashes;
  `LockStoreInvariant.dfy` and `LockStoreRuns.dfy` prove what holds in every
  interleaving, `LockStoreProgress.dfy` when it can go on. `CiteRecords.dfy` is the document and its upsert, `Citelock.dfy`
  is capture and the offline gate, `CiteScanner.dfy` the `[cite: id]` scanner.
- **The rate limiter.** `RateLimiter.dfy`: the per-IP token bucket and its sweep.
- **Schedules.** `Schedule.dfy`: firing on cron ticks, and the concurrency policy.
- **AgentRuns.** `AgentRunLifecycle.dfy`: the bridge to the workflow engine, with
  failing calls.
- **Chunking.** `Chunker.dfy`: the two greedy chunkers of the embedder;
  `ChunkEstimates.dfy`: how many tokens their chunks are estimated at.
- **The gate.** `TierGate.dfy`: the tier of a diff.

`Basics.dfy`, `Text.dfy` and `Paths.dfy` hold what they share.

Whatever comes from outside is an input of a pass or a step: AgentRun phases,
templates, creates, reads and writes that fail, clocks, fetched bytes, the live
check. Map iteration order is arbitrary. Whole-run theorems quantify over every
sequence of such inputs. SHA-256, the JSON encoders and the cron expression are
function parameters with the laws they are used for (`Citelock.Sound`,
`LockStore.Faithful`, `Schedule.Sound`).

What the code does not do, and exactly when it does:

- A step gets a second AgentRun exactly when a start of it loses its status
  write and another start follows (`ChainProgress.RunCountIs`,
  `ChainProgress.AtMostOneRunIff`); in any reachable state the next pass that
  can start it does (`ChainProgress.LostWriteStartsTwice`).
- An empty chain is accepted and never completes; it ends only when a pass does
  not find it (`ChainProgress.EmptyChainEndsIff`). Every other validated chain
  ends if enough helpful passes come (`ChainProgress.HelpfulRunsEnd`).
- A ChainRun that cannot be read while the AgentRun lookup answers "not found"
  is dropped from a schedule's active list although it is alive. That is the
  only way to lose one (`Schedule.PruneDropsLiveIff`), and exactly what makes a
  Forbid schedule overlap (`Schedule.OverlapIff`, with an input in
  `Schedule.FailedReadOverlaps`).
- A Replace schedule forgets its active run whether or not it could delete it
  (`Schedule.ReplaceLeavesAliveIff`, with an input in
  `Schedule.FailedDeleteOverlaps`).
- A lockfile without a records array passes the gate, and no capture can add to
  it (`Citelock.Verify`, `Citelock.LockDir.Capture`).
- A capture whose live check fails, or which cannot take the lock or read the
  lockfile, has already replaced the snapshot of an earlier capture; the earlier
  record then passes iff the new bytes have its hash and still hold its quote
  (`Citelock.FailedCaptureBreaks`, with an input in
  `Citelock.RecaptureBreaksRecord`). The comment on `Capture` only promises that
  nothing is written when the quote does not anchor, and that holds.
- With the lock directory at the filesystem root, the gate refuses every record
  (`Citelock.RootRefusesAll`).
- A holder that crashes, or fails to remove its lock directory, stops all
  publishing for good (`LockStoreRuns.CrashedHolderFreezesStore`); nothing else
  does (`LockStoreRuns.OrphanedIff`, `LockStoreProgress.CanPublishIff`).
- An AgentRun archived or deleted before it ended never ends; every other one
  can (`AgentRunLifecycle.CanEndIff`).
- The comment on `ChunkText` says each chunk is at most maxTokens estimated
  tokens. The loop adds up rounded estimates, so 512 one-word paragraphs with
  the defaults make one chunk estimated at 682
  (`ChunkEstimates.OneWordParagraphsOverrun`). When a chunk keeps the promise is
  an inequality on word counts (`ChunkEstimates.WithinLimitIff`). With
  paragraphs that leave room for the overlap, every chunk is within a budget
  whatever the content iff 4 * maxTokens <= 3 * budget + 2
  (`ChunkEstimates.BudgetIff`); with the budget equal to maxTokens that is a
  limit of at most 2.

`dafny verify dfyconfig.toml` checks the whole project.

## Model

| member | source | states |
|---|---|---|
| ChainGraph.NoSinkMeansCycle | api/v1alpha1/chain_validation.go:67-82 | A non-empty set of steps, each depending on a member of the set, holds a dependency cycle inside the set |
| ChainValidation.ValidateChainDAG | api/v1alpha1/chain_validation.go:18-84 | Accepts iff names are unique, references defined and no non-empty dependency path returns to its start, repeated entries included; the visits are then a topological order; each rejection happens exactly for its own cause, names the first offender, and a cycle rejection has a cycle among the unvisited steps; whatever the map order |
| ChainValidation.CollectNames | api/v1alpha1/chain_validation.go:20-26 | Reports a duplicate iff one exists, at the first position that repeats an earlier name |
| ChainValidation.CheckReferences | api/v1alpha1/chain_validation.go:29-45 | Accepts iff every dependsOn, contextFrom and branchFrom names a step; otherwise points at the first undefined reference in reading order |
| ChainValidation.BuildDegrees | api/v1alpha1/chain_validation.go:48-58 | The in-degree counts a step's dependency entries and the adjacency lists hold each step as often as its list repeats the dependency |
| ChainValidation.InitialQueue | api/v1alpha1/chain_validation.go:60-65 | The queue holds each name of degree zero once, in any order |
| ChainValidation.Relax | api/v1alpha1/chain_validation.go:72-77 | Degrees fall by the edges from the visited node, and exactly the nodes that reach zero are queued, once each |
| ChainValidation.VisitKeepsKahnState | api/v1alpha1/chain_validation.go:68-78 | Between visits a degree is the number of unvisited dependency entries, and the steps visited or queued are those of degree zero |
| ChainValidation.StuckMeansCycle | api/v1alpha1/chain_validation.go:80-82 | If the queue runs dry before all steps are visited, the unvisited ones contain a cycle |
| ChainValidation.TopologicalMeansAcyclic | api/v1alpha1/chain_validation.go:80-83 | A complete visit order with dependencies first rules out every cycle |
| ChainReconciler.WorkingCopy.SyncRunning | internal/controller/chain_controller.go:137-168 | The loop changes exactly the running steps whose AgentRun ended, cancelled counting as failed, and sets the updated flag if anything changed |
| ChainReconciler.WorkingCopy.StartStep | internal/controller/chain_controller.go:171-282 | A pending step with all dependencies succeeded is started, or failed when its template or its create fails; the created run starts from the inherited branch; any other step is left alone |
| ChainReconciler.WorkingCopy.StartReady | internal/controller/chain_controller.go:170-290 | The in-place loop equals starting every step that was ready before it began: starting one step never makes another ready |
| ChainReconciler.WorkingCopy.PropagateSkips | internal/controller/chain_controller.go:292-316 | The sweep-until-stable loop ends, and skips exactly the pending steps from which a path through pending steps leads to a failed or skipped one, a set that does not mention any order |
| ChainReconciler.FixpointIsSkip | internal/controller/chain_controller.go:294-316 | Any partial skipping with nothing left to skip is the full set of doomed steps |
| ChainReconciler.WorkingCopy.Complete | internal/controller/chain_controller.go:318-341 | The chain ends iff no step is pending or running, failed iff some step failed |
| ChainReconciler.Reconciler.Reconcile | internal/controller/chain_controller.go:74-354 | The stored ChainRun after a pass: finalizer first, terminal runs untouched, missing or invalid chain fails, initialisation, or the advanced steps, with created runs kept even when the status write is lost |
| ChainRuns.AdvanceSettles | internal/controller/chain_controller.go:137-316 | A pass keeps "tried steps have all dependencies succeeded" and "skipped steps have a bad dependency", and leaves no pending step that is ready or waits in vain |
| ChainRuns.NoDeadlock | internal/controller/chain_controller.go:170-328 | In a settled state of an acyclic chain with nothing running, nothing is pending |
| ChainRuns.DeadlockFreedom | internal/controller/chain_controller.go:170-341 | In every run, a pass that reaches the steps and whose write lands leaves an AgentRun in flight or ends the chain in that same pass |
| ChainRuns.RunClosedForm | internal/controller/chain_controller.go:181-316 | In every reachable state a step is skipped iff some transitive dependency failed, and a running, succeeded or failed step has all transitive dependencies succeeded |
| ChainRuns.OutcomeIsRight | internal/controller/chain_controller.go:318-341 | Although it never looks at skipped steps, the completion check says succeeded iff every step succeeded |
| ChainRuns.VerdictIsRight | internal/controller/chain_controller.go:318-341 | In every reachable state the chain is marked succeeded iff every step succeeded, and failed when all steps ended and one did not succeed |
| ChainProgress.PassMovesLegally | internal/controller/chain_controller.go:137-316 | A pass moves a step only from pending to running, failed or skipped and from running to succeeded or failed, and never changes the run ID of a step that left pending |
| ChainProgress.TerminalIsFinal | internal/controller/chain_controller.go:82-316 | Over any continuation a terminal step keeps its phase, and a terminal chain keeps everything |
| ChainProgress.AtMostTwoChangesPerStep | internal/controller/chain_controller.go:137-316 | All passes of a run together make at most 2n step phase changes |
| ChainProgress.EndedRunMoves | internal/controller/chain_controller.go:137-168 | A pass that sees the run of a running step ended leaves the step succeeded if the run succeeded and failed if it failed or was cancelled |
| ChainOutcomes.PassDecidesSteps | internal/controller/chain_controller.go:137-316 | In every reachable state a landed pass that finds the chain runs each pending step whose dependencies succeeded, under the name its create returned, or fails it for want of its template or create; leaves other pending steps pending or skipped; and makes each running step what its run reads as |
| ChainOutcomes.OutcomesComeFromRuns | internal/controller/chain_controller.go:137-316 | In every reachable state a succeeded step's own run was seen succeeded; a failed step's was seen failed or cancelled, or a pass that was to start the step lacked its template or create; pending and skipped steps have no run |
| ChainOutcomes.RunsCarryTemplates | internal/controller/chain_controller.go:195-269 | Every AgentRun was made by some pass, under the name its create returned and with the repositories of the template that pass read, the first one's branch aside when the step has a branchFrom |
| ChainOutcomes.RefusedChainFails | internal/controller/chain_controller.go:87-107 | In every reachable state a landed pass that does not find the chain, or finds it invalid, fails the run and changes nothing else |
| ChainOutcomes.InvalidChainFailsIff | internal/controller/chain_controller.go:98-107 | A chain the validator rejects never gets a step or an AgentRun, and its run has failed iff two writes landed |
| ChainProgress.HelpfulRunsEnd | internal/controller/chain_controller.go:137-354 | A validated non-empty chain of n steps has ended once 2n + 2 of its passes found the chain, landed their write and, when runs were in flight, saw one ended, whatever other passes came in between |
| ChainProgress.EmptyChainEndsIff | internal/controller/chain_controller.go:74-123 | The empty chain is valid and never succeeds; its run ends iff a pass whose write lands, after one that stored the finalizer, does not find the chain |
| ChainProgress.RunCountIs | internal/controller/chain_controller.go:170-347 | In every run the AgentRuns of a step number the starts of it whose write was lost, plus one if the write of a start landed |
| ChainProgress.AtMostOneRunIff | internal/controller/chain_controller.go:170-347 | A step has at most one AgentRun iff no start of it lost its write, or one did and no start landed |
| ChainProgress.NoLossNoDuplicate | internal/controller/chain_controller.go:269-347 | With every write landing, no step gets a second AgentRun |
| ChainProgress.LostStartsRepeat | internal/controller/chain_controller.go:269-347 | In any reachable state, n passes that start a step and lose their write add exactly n runs of it and change nothing else |
| ChainProgress.LostWriteStartsTwice | internal/controller/chain_controller.go:269-347 | In any reachable state, for any step: after a start whose write was lost, the next pass that finds the chain, reads the ended runs again and can create the run starts it a second time |
| ChainProgress.RootsStart | internal/controller/chain_controller.go:109-192 | Such states are reached: two passes after creation every root of a valid chain is about to start |
| ChainProgress.BranchInheritance | internal/controller/chain_controller.go:230-278 | When branchFrom names a transitive dependency, the new run's first repository is on aot/ plus that step's non-empty run ID; with no lost write that step succeeded and its run was created for it |
| CiteRecords.UpsertRecords | internal/citelock/citelock.go:636-651 | The loop drops the elements that read as the same id, keeps all others in order and appends the record |
| CiteRecords.UpsertProperties | internal/citelock/citelock.go:604-651 | An upsert keeps ids unique, makes the new record the only element of its id and leaves other ids' elements as they were |
| CiteRecords.UpsertOrder | internal/citelock/citelock.go:636-651 | Where one element has the id, the others stay in order and the record comes last; where none has, the record is appended |
| LockStoreInvariant.StepKeepsInv | internal/citelock/store.go:40-116 | Every system call of every process, reader or crash keeps the invariant of lock, files and log |
| LockStoreInvariant.RenameKeepsFiles | internal/citelock/store.go:95-115 | The rename links a complete encoding of the next document, and no open file changes under its reader |
| LockStoreRuns.MutualExclusion | internal/citelock/store.go:40-62 | In every interleaving at most one process is between taking and removing the lock |
| LockStoreRuns.OnlyTheHolderUnlocks | internal/citelock/store.go:47-54 | Only the holder's own remove frees the lock directory, and a second call of the release function changes nothing |
| LockStoreRuns.GivesUpIff | internal/citelock/store.go:44-62 | Over any interleaving, finding the lock taken ends an upsert with an error exactly the fiftieth time |
| LockStoreRuns.DocumentIsReplay | internal/citelock/citelock.go:621-657 | At every step the document on disk is the first one with the published upserts applied in lock-acquisition order; success means published, an error means not; a malformed document is never replaced |
| LockStoreRuns.PublishesOnce | internal/citelock/citelock.go:605-658 | No upsert is published twice |
| LockStoreRuns.NoTornRead | internal/citelock/citelock.go:156-166 | A lock-free reader that reads to the end has, byte for byte, the first document if that was current when it opened the file, and otherwise parses the whole document after the upserts published by then |
| LockStoreRuns.ReplayContents | internal/citelock/citelock.go:604-658 | No lost update: an element is in the document iff it was there or upserted and nothing later wrote its id |
| LockStoreRuns.IdsStayUnique | internal/citelock/citelock.go:604-658 | If ids are unique in the first document they are in the document on disk at every step of every interleaving |
| LockStoreRuns.CrashedHolderFreezesStore | internal/citelock/store.go:44-62 | Once a holder is gone without removing its lock, no continuation publishes anything |
| LockStoreRuns.OrphanedIff | internal/citelock/store.go:44-62 | The lock becomes orphaned exactly by a crash of its holder or a remove that fails |
| LockStoreProgress.CanPublishIff | internal/citelock/store.go:40-116 | From a reachable state some continuation publishes a given record iff the lock is not orphaned and the first document can be read |
| Citelock.Resolve | internal/citelock/citelock.go:290-303 | A resolved snapshot path lies in the lock directory |
| Citelock.OutsideIsRefused | internal/citelock/citelock.go:290-303 | A path through the parent directory resolves only if it leads back in, and an absolute one never does |
| Citelock.SnapshotResolves | internal/citelock/citelock.go:462-463 | The path capture stores resolves to the file it wrote, unless the lock directory is the root |
| Citelock.Verify | internal/citelock/citelock.go:173-201 | Passes iff there is no lockfile, or it has no records array, or every record passes; otherwise counts exactly the failing records; an unparseable lockfile is an error |
| Citelock.AcceptedIsAnchored | internal/citelock/citelock.go:203-269 | Whatever files are there, an accepted record has a snapshot in the lock directory whose bytes have the recorded hash and hold the quote verbatim, beside a sidecar with that hash |
| Citelock.AcceptedIff | internal/citelock/citelock.go:203-287 | A record is accepted iff its fields are there, snapshot, sidecar and quote agree with it, and it is a paper or its date reads and its class's 30, 90 or 180 days since then have not passed |
| Citelock.PinnedPasses | internal/citelock/citelock.go:203-287 | A record as capture leaves it passes exactly until its class's window has passed, and for ever when the class has none |
| Citelock.LockDir.Capture | internal/citelock/citelock.go:434-506 | The outcome and the whole directory after a capture, file by file; refused captures write nothing |
| Citelock.CaptureRecords | internal/citelock/citelock.go:434-506 | Succeeds iff id, quote, class, URL, body, live check, lock and lockfile are good; then snapshot, sidecar and the one record of the id hold the source, class, quote, doi, hash and the day of the capture's clock; a refused capture changes nothing |
| Citelock.OthersUndisturbed | internal/citelock/citelock.go:462-503 | Whatever its outcome, capturing one id leaves every other id's snapshot, sidecar and record alone |
| Citelock.CaptureAndVerifyAgree | internal/citelock/citelock.go:203-506 | After any sequence of captures that succeeded or were refused, ids are unique and the gate accepts each record exactly until its window has passed |
| Citelock.LockfileIsLastCaptures | internal/citelock/citelock.go:434-506 | Over any captures into a new directory, whatever their outcomes, the lockfile holds the record of the last successful capture of each id and nothing else |
| Citelock.AcceptedSinceCapture | internal/citelock/citelock.go:203-506 | Over any clean run, the gate accepts an id's record at t iff its class never goes stale or t is within the class's window from the day of the last successful capture of the id |
| Citelock.FailedCaptureBreaks | internal/citelock/citelock.go:467-503 | After a capture whose live check failed, or which could not take the lock or read the lockfile, the earlier record passes iff it passed before and the new bytes match its hash and hold its quote |
| Citelock.RecaptureBreaksRecord | internal/citelock/citelock.go:467-503 | A page captured, changed and captured again with a failing live check or a taken lock: the record of the first capture passed and never passes again |
| Citelock.RootRefusesAll | internal/citelock/citelock.go:298-301 | With the root as lock directory no captured record passes |
| CiteScanner.CitedIDs | internal/citelock/citelock.go:661-680 | The loop ends on every text and returns the scan of it |
| CiteScanner.ScanReadsBack | internal/citelock/citelock.go:660-680 | Printing any trimmed, non-empty ids without a closing bracket between texts free of the marker, and scanning, returns exactly those ids in order |
| CiteScanner.ScanPrintScan | internal/citelock/citelock.go:660-680 | Printing what any text cites and scanning again finds the same ids |
| RateLimiter.Limiter.Handle | internal/bff/middleware.go:119-145 | Refill, cap, refuse below one token, else take one; only this IP's bucket changes; which requests that refuses is `RateLimiter.RefusedIff` |
| RateLimiter.Limiter.Sweep | internal/bff/middleware.go:101-111 | Exactly the buckets idle for more than the TTL go, and the pass is a sequence of the sweep events of the trace theorems, one for each key |
| RateLimiter.EvictionInvisible | internal/bff/middleware.go:95-134 | On every ordered trace, for every configured rate, the limiter with the sweep gives the same answers as one that never evicts |
| RateLimiter.RateBound | internal/bff/middleware.go:115-147 | In any window the requests of one IP that are admitted number at most rate + rate * (t2 - t1), sweeps included |
| RateLimiter.RefusedIff | internal/bff/middleware.go:115-147 | On every ordered trace with sweeps, for every configured rate, a request is refused iff in some window ending with it the admitted requests of its IP and this one number more than rate + rate * length |
| RateLimiter.AnswersMatchRequests | internal/bff/middleware.go:115-147 | There is one answer for each request, in order |
| RateLimiter.TokensInRange | internal/bff/middleware.go:127-144 | Tokens stay within 0 and the rate in every state of a trace |
| RateLimiter.PatientNeverRefused | internal/bff/middleware.go:126-144 | With a rate of at least one, a client whose requests are 1/rate apart is never refused |
| Schedule.Reconciler.PruneActiveList | internal/controller/schedule_controller.go:214-251 | Keeps the ids that read as alive or whose AgentRun cannot be read, in order, and reports a change if any went |
| Schedule.PruneKeepsUnfinished | internal/controller/schedule_controller.go:214-251 | Pruning keeps exactly the ids whose ChainRun reads as unfinished, or does not read while the AgentRun is unfinished or its read failed, in order and as often as they occur |
| Schedule.Reconciler.Reconcile | internal/controller/schedule_controller.go:40-210 | The world after a pass: prune, due check, policy, deletions, create, and the status it stores, truncated to seconds |
| Schedule.PassFireHistory | internal/controller/schedule_controller.go:73-206 | A pass adds one fire, for the first tick after the last scheduled time, exactly when it is due, allowed and created; otherwise neither the fires nor the last scheduled time change |
| Schedule.FiresIff | internal/controller/schedule_controller.go:40-206 | Over any run a pass fires iff it is not suspended, has something to create and can, a tick has come since the last fire, and under Forbid every active run reads as finished or absent |
| Schedule.FireAdds | internal/controller/schedule_controller.go:106-206 | A fire creates one unfinished run of the schedule's kind, makes it active after those that stay active, or alone under Replace, and stores the time in whole seconds |
| Schedule.NoFireAddsNothing | internal/controller/schedule_controller.go:40-127 | A pass that does not fire creates nothing, prunes unless suspended, and deletes only when a Replace is due |
| Schedule.FiresInjectIntoTicks | internal/controller/schedule_controller.go:73-206 | Over any run each fire answers the first tick after the previous fire's stored time, not after now, and its stored time covers every tick up to now; fires never exceed ticks since creation |
| Schedule.MissedTicksCollapse | internal/controller/schedule_controller.go:73-206 | Over any run every tick from creation to the last fire's clock is covered by exactly one fire |
| Schedule.ActiveAtMostOne | internal/controller/schedule_controller.go:99-203 | Under Forbid and Replace, whatever fails, Active never holds more than one id |
| Schedule.PruneDropsLiveIff | internal/controller/schedule_controller.go:222-247 | A live run of the schedule is dropped from Active iff its ChainRun read failed and its AgentRun read did not |
| Schedule.NoOverlap | internal/controller/schedule_controller.go:50-203 | Under Forbid, if in every pass that prunes the reads of live runs tell absent from unreadable, no two runs of the schedule are alive at once and a live one is in Active |
| Schedule.FireOverlapsIff | internal/controller/schedule_controller.go:99-203 | Under Forbid, from any state without an overlap, a pass makes one iff it fires while a run of the schedule is alive |
| Schedule.OverlapIff | internal/controller/schedule_controller.go:50-247 | Over any such run, the next pass makes the first overlap iff it is due, not suspended, its create works, and a live ChainRun of the schedule cannot be read while the AgentRun of that name reads as absent |
| Schedule.FailedReadOverlaps | internal/controller/schedule_controller.go:222-242 | Two passes over an empty namespace, the second with one failed read, end with two live runs, whatever the cron |
| Schedule.ReplaceLeavesAliveIff | internal/controller/schedule_controller.go:106-127 | A firing Replace pass leaves the new run as the only active one; a live run that was active stays alive iff the prune lost it, or it could not be read for replacing, or its delete failed |
| Schedule.FailedDeleteOverlaps | internal/controller/schedule_controller.go:106-127 | Two passes of a Replace schedule over an empty namespace, the second with one failed delete, end with two live runs and only the new one active, whatever the cron |
| AgentRunLifecycle.Reconciler.Reconcile | internal/controller/agentrun_controller.go:101-184 | What a pass stores, for every combination of failing calls |
| AgentRunLifecycle.Reconciler.StartWorkflow | internal/controller/agentrun_controller.go:193-317 | What is stored after each way the start can fail; the order of annotation and status is an invariant of `AgentRunLifecycle.LifecycleHolds` |
| AgentRunLifecycle.Reconciler.SyncWorkflowState | internal/controller/agentrun_controller.go:320-430 | Phase, times and condition written in one update, from the query or else the description |
| AgentRunLifecycle.Reconciler.SyncFromDescription | internal/controller/agentrun_controller.go:434-497 | A closed execution ends the run at its close time, an open one changes nothing |
| AgentRunLifecycle.CompletedCondition | internal/controller/agentrun_controller.go:394-403 | The Completed condition of a terminal phase is true iff the phase is succeeded |
| AgentRunLifecycle.Advance | internal/controller/agentrun_controller.go:350-413 | The updated flag is unset only if nothing changed; a start time is recovered when missing, and a completion time is kept when present |
| AgentRunLifecycle.MapPhase | internal/controller/agentrun_controller.go:516-533 | The result is terminal iff the workflow phase is Succeeded, Failed, Cancelled or Cancelling, and is Succeeded, Failed, Running or WaitingForInput exactly for the phase of that name |
| AgentRunLifecycle.LifecycleHolds | internal/controller/agentrun_controller.go:115-497 | In every reachable state CompletedAt is set iff the phase is terminal, the Completed condition agrees with it, a phase or a start time is there only after the annotation, and a workflow was asked for only under the finalizer |
| AgentRunLifecycle.StoresReported | internal/controller/agentrun_controller.go:320-497 | In every reachable state a pass that looks at the workflow and lands its write stores exactly the phase the query answered, or else the description said, with the start and completion times |
| AgentRunLifecycle.EndingsAreReported | internal/controller/agentrun_controller.go:320-497 | In every reachable state a stored Succeeded, Failed or Cancelled is one that some pass's query answered or description said |
| AgentRunLifecycle.StartIsStored | internal/controller/agentrun_controller.go:193-317 | What a pass stores of a start it asked for: a failure condition, the annotation, the running phase with its time, depending on which call failed |
| AgentRunLifecycle.GoneOnRequest | internal/controller/agentrun_controller.go:101-135 | In every reachable state the object is gone only when its deletion was requested, and cleaned up only when its archiving was |
| AgentRunLifecycle.HousekeepingIff | internal/controller/agentrun_controller.go:101-167 | Exactly when a pass lets the object go, stores the finalizer, and marks the object cleaned up |
| AgentRunLifecycle.EndingIsFinal | internal/controller/agentrun_controller.go:169-430 | Over any continuation a stored terminal phase, its CompletedAt and its condition never change and no workflow is started |
| AgentRunLifecycle.StartIsFinal | internal/controller/agentrun_controller.go:285-387 | Over any continuation a stored start time is never rewritten |
| AgentRunLifecycle.HelpfulPassesEnd | internal/controller/agentrun_controller.go:101-497 | A run that is not deleted, being deleted or archived has ended once in three of its passes every call worked and the workflow had ended, whatever other passes came in between |
| AgentRunLifecycle.CanEndIff | internal/controller/agentrun_controller.go:101-184 | Some continuation ends a reachable run iff it has ended or is neither deleted, being deleted nor archived |
| AgentRunLifecycle.StartsUnderFinalizer | internal/controller/agentrun_controller.go:115-292 | A pass asks for a workflow, whatever the answer, only if an earlier pass stored the finalizer and no annotation is there yet |
| AgentRunLifecycle.StartCountIs | internal/controller/agentrun_controller.go:193-292 | In every run a workflow was asked for once for each start that failed or whose annotation was lost, and once more if the annotation is stored |
| AgentRunLifecycle.AtMostOneStartIff | internal/controller/agentrun_controller.go:193-292 | A workflow was asked for at most once iff every start was recorded, or one was not and no annotation is stored |
| Chunker.ChunkCode | internal/embeddings/embedder.go:183-222 | The chunks are the joined groups of a greedy packing of the trimmed non-blank blocks: all of them, once, in order, each chunk one block or at most 512, none able to take the next block |
| Chunker.GreedyIsUnique | internal/embeddings/embedder.go:189-211 | There is exactly one such packing |
| ChunkEstimates.CodeChunkHolds512 | internal/embeddings/embedder.go:183-222 | One-word blocks fit one code chunk iff there are at most 512 |
| Chunker.FieldsOfJoin | internal/embeddings/embedder.go:303-310 | Joining words with spaces and splitting into fields gives the words back |
| Chunker.OverlapFits | internal/embeddings/embedder.go:293-310 | The overlap is estimated at no more than the overlap asked for |
| Chunker.ChunkText | internal/embeddings/embedder.go:131-172 | The chunks are the trimmed builder texts of a packing of all paragraphs in order, each after the first beginning with the overlap of the one before; a chunk closes only when the next paragraph does not fit |
| Chunker.TextPackingIsUnique | internal/embeddings/embedder.go:144-165 | There is exactly one such packing for a paragraph list, limit and overlap, so ChunkText's contract determines its result |
| Chunker.RunningBound | internal/embeddings/embedder.go:129-172 | Every chunk's running count is at most the limit, or the overlap plus its last paragraph |
| ChunkEstimates.ChunkWords | internal/embeddings/embedder.go:144-172 | The words of a chunk are the last overlap * 3 / 4 words of everything before it, followed by its own paragraphs' words |
| ChunkEstimates.WithinLimitIff | internal/embeddings/embedder.go:129-172 | A chunk is estimated at no more than the limit iff four times its word count, overlap included, is at most three times the limit plus two |
| ChunkEstimates.OneWordParagraphsOverrun | internal/embeddings/embedder.go:144-172 | As many one-word paragraphs as the limit make one chunk, within the limit by its running count and estimated at a third more |
| ChunkEstimates.BudgetIff | internal/embeddings/embedder.go:129-172 | For an overlap below the limit, a limit keeps every chunk of every content whose paragraphs leave room for the overlap within a budget iff four times the limit is at most three times the budget plus two |
| ChunkEstimates.BlocksOfJoin | internal/embeddings/embedder.go:139-148 | Paragraphs joined by empty lines are the paragraphs the chunkers see |
| Chunker.ShortParagraphsFit | internal/embeddings/embedder.go:129-165 | If every paragraph leaves room for the overlap, every running count is within the limit |
| Chunker.SplitJoins | internal/embeddings/embedder.go:139-139 | Joining the pieces with the separator gives the content back |
| TierGate.ClassifyTier | internal/gate/gate.go:166-224 | The tier is a function of the set of changed paths: order and repetition do not matter |
| TierGate.TierIsMonotone | internal/gate/gate.go:166-224 | Touching more paths never lowers the tier, in the order T1, T2, T3, amendment |
| TierGate.T2Iff | internal/gate/gate.go:166-224 | T2 iff no spec and no public surface is touched, there is a code path, and all code paths belong to one capability |
| TierGate.OtherTiersIff | internal/gate/gate.go:166-224 | Amendment iff a spec is touched; T1 iff neither a spec nor code is; T3 iff no spec is and a public surface or two capabilities are |
| TierGate.CodeIff | internal/gate/gate.go:132-246 | The prefixes and suffixes that keep a path from counting as code |
| TierGate.PackageCapability | internal/gate/gate.go:258-279 | A path below a directory of internal, cmd or packages belongs to that directory |
| TierGate.WebCapability | internal/gate/gate.go:267-268 | A path below web/src belongs to web |
| TierGate.DirectoryCapability | internal/gate/gate.go:258-279 | Any other path belongs to its directory |
| TierGate.CapabilityOf | internal/gate/gate.go:258-279 | Every path has a capability, so the last return of the classifier is never reached |

## Left out

- The chain's prompt: context injection from `contextFrom`, labels, messages, owner references and template usage counts do not affect the properties.
- Deletion of a ChainRun and its children, and an externally set cancelled phase, only add easy members.
- A Chain edited while it runs: the reconciler is modelled for a fixed chain, so statuses and steps always match.
- A `branchFrom` that names a step outside the transitive dependencies: nothing is claimed about its branch.
- ChainReconciler.Reconciler.Reconcile: the create and the status write of a pass are one event whose write may be lost; a crash between them is such a loss.
- LockStoreInvariant.StepKeepsInv: the store's methods are modelled as one step per system call rather than as methods, because the point is their interleaving; a machine crash that loses synced data and a symbolic link at the path are not modelled.
- Citelock.LockDir.Capture: writing the snapshot and the sidecar succeeds, and two captures do not interleave; days are 86400 seconds long.
- URL safety, DNS, fetching, Crossref and `Recheck` are inputs or not part of this model.
- RateLimiter.EvictionInvisible: one request and one sweep of one bucket are atomic, so the window between a sweep's check and its delete is not modelled; arithmetic is over reals.
- Schedule.Reconciler.Reconcile: status writes succeed and the policy does not change; cron parsing and time zones are the parameter `Cron`, which always has a next tick.
- AgentRunLifecycle.Reconciler.Reconcile: project defaults, labels, messages, pod and deployment names, metrics, events and the retention clean-up are not modelled; other writers only ask for deletion or archiving.
- Chunker.ChunkCode: the node type of a chunk and its keyword heuristics.
- TierGate.ClassifyTier: the text of the reason; the other verdicts of the gate need packages that are not part of this model.
- HTTP handlers, sessions, the CLI, the TUI, the web and macOS apps, generated code and build orchestration.
