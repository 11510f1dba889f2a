# Soma: a verified model

Soma runs repository and remote operations on behalf of agents. This project models the parts whose
correctness depends on several functions, threads or processes at once, and proves what they guarantee
for every input, every interleaving and every crash point.

| files | what is modelled |
|---|---|
| `GenerationPool`, `HermesService`, `HermesInvariant`, `HermesPreservation`, `HermesTheorems`, `HermesProgress`, `HermesWitness`, `HermesCancel`, `HermesOutcomes` | the shared Hermes service: generation pools, request ownership, cancellation, reload, worker replacement and close, as one state machine with one step per lock region |
| `RunStore`, `RunProtocol`, `RunSafety`, `RunTheorems`, `WorkerRelease`, `RunOutcomes` | the durable run row and its repository lock, with launcher, workers, cancellers and restart reconcilers working from stale snapshots over guarded updates |
| `ToolConcurrency` | capacity and rate limits, acquired in a fixed order with rollback |
| `Supervisor`, `SupervisorRuns`, `WorkerStderr` | worker id issue and replacement passes; the bounded stderr buffer |
| `GitStatus`, `GitDiff`, `DiffTrimming` | the porcelain parser and stage-path selection; the diff parser; the loop that trims a diff response |
| `GitEvidence`, `Backfill`, `BackfillEvidence`, `BackfillRun` | the split of commit evidence into compact record and body, and the crash-tolerant migration built on it |
| `GitCommit` | the isolated-index commit and the commit through the real index |
| `Basics`, `Traces` | shared types; sequences of steps of any of the state machines |

## How the models are built

**Hermes service.** `HermesService.Step` has one case per region that the service holds a lock for: admission
under the state lock, registration, one pass of the lease loop, publishing the slot, the two locked regions of the
worker's `dispatch`, removal from the active map, slot release, reference release, the two regions of `cancel`, and
the regions of reload, replace and close. An execution carries a program counter; any number of executions, cancels
and one administrative call at a time (reload, replace and close share the administration lock) interleave freely. A worker may die at any moment; one that was handed over is closed at any later moment. `PoolObject` is the mutable pool; its
methods are proved equal to the pool functions the state machine uses. History that the program does not keep
(which execution was dispatched, which worker a slot was leased from, which workers were handed over for closing) is
recorded in the state.

**Durable runs.** Each action is one read or one SQL transaction. `Database` performs the transactions in place and
is proved equal to the functions of `RunStore`. Lease tokens are fresh, as `uuid4` makes them. Process probes,
termination reports and remote evidence are arbitrary.

**Where the code breaks its own promises.** The model keeps the code as it is, gives the input, and proves the
exact condition.

- The launcher releases the repository lock of a live run when `create_run` commits but its read-back raises
  (`RunTheorems.UnreadCreateLosesLock`). No other explicit release of the launcher, a reconciler or a canceller
  does (`RunTheorems.ManagerReleaseIsSafe`).
- The worker's own final release keeps the lock only for a run it reads as "cancellation pending". A run contained as
  "recovery pending" loses its lock, and so does a running one whose result update was lost to a concurrent event
  (`WorkerRelease.ContainedRunLosesLock`, `WorkerRelease.RunningRunLosesLock`). Looking and releasing with nothing in
  between frees a live run's lock exactly when the status read is neither terminal nor "cancellation pending"
  (`WorkerRelease.LookThenRelease`); with other actors in between, a release after a terminal look is always safe, and
  one after a live look is harmless only if somebody ends the run in the meantime
  (`WorkerRelease.WorkerReleaseNeedsEnd`). These and the unread create are the only ways a live run loses its lock
  (`WorkerRelease.LiveRunLosesLockOnlyBy`).
- `cancel` can end another session's request. It gives up the active-request lock before it asks the worker, and the
  worker compares request ids only. If the request it found returns first and its id is used again on the same worker, the
  answer is True and the worker is terminated under the other session (`HermesCancel.CancelHitsOtherSession`). A confirmed
  cancel hits the execution it had found if and only if that execution is still inside the worker exchange, and always
  does when the id is in use once (`HermesCancel.ConfirmationHitsTargetIff`). The check of session and run does not
  protect against this.
- A file that changes its type is printed by Git as two blocks of one path. Their hunks get the same ids, the text of the
  first can no longer be looked up, and trimming leaves the two hunk lists in disagreement
  (`GitDiff.TypeChangeRepeatsId`, `DiffTrimming.TypeChangeBreaksAgreement`); the conditions are
  `GitDiff.IdsAreDistinctIff`, `GitDiff.TextsAreFoundIff` and `DiffTrimming.ParsedStaysAlignedIff`.
- The backfill rewrites the artifact of a row whose evidence is partly inline and partly only in the artifact, and what
  only the artifact held is gone (`BackfillEvidence.MixedRowLosesEvidence`). All evidence of a row survives every run
  if and only if the row is not of that kind, or is never taken on (`BackfillEvidence.EvidenceSurvivesIffNotAtRisk`).
  Rows of that kind are written by soma/job_worker.py:2446-2464 after soma/job_worker.py:734-752 has compacted the
  commit result.
- `finalize_explicit_changes` moves HEAD and then reports a failure when a staged path is in neither the real index nor
  the worktree, as the old path of a staged rename is (`GitCommit.FinalizeStagedRename`); the contract of
  `GitCommit.Repository.FinalizeExplicit` says when.
- The guard of `commit_selected_files` does not see the old path of a staged rename (`GitCommit.HiddenRenameSource`,
  `GitCommit.SelectedIsIsolatedIffNoRename`).

**Parameters.** Path classification, regular expressions, hashing, JSON encoding, encoded sizes and the public
projection appear as function parameters, so every theorem holds for all of them; where a hash must be
collision-free that is a stated precondition. Identifiers that the code only compares are natural numbers. Time is
`real`.

## Model

| member | source | states |
|---|---|---|
| `GenerationPool.ValidateCandidates` | soma/hermes_service.py:363-400 | the constructor's loop accepts exactly the non-empty worker lists of one registry identity, all ready, with no id or process twice |
| `GenerationPool.ReplacementIsSafe` | soma/hermes_service.py:461-525 | a successful replacement changes one slot, whose worker was dead and unleased, and keeps slot count, distinct ids, distinct processes and the registry identity |
| `GenerationPool.PoolObject.RetainReference` | soma/hermes_service.py:407-413 | the pool after a retain, refused exactly when the pool is closed |
| `GenerationPool.PoolObject.DropReference` | soma/hermes_service.py:415-424 | the pool after a reference is dropped, and the workers handed over exactly when this closes it |
| `GenerationPool.PoolObject.TryLease` | soma/hermes_service.py:426-446 | one pass of the lease loop takes the first free ready slot, or none is available, or the pool is closed |
| `GenerationPool.PoolObject.ReleaseSlot` | soma/hermes_service.py:448-459 | the pool after a slot is released, drift refused, workers handed over exactly when this closes it |
| `GenerationPool.PoolObject.SwapWorker` | soma/hermes_service.py:461-525 | the loops of the replacement checks refine the pool function and return the outgoing worker |
| `GenerationPool.PoolObject.StartDraining` | soma/hermes_service.py:527-532 | draining closes the pool at once exactly when nothing holds it |
| `GenerationPool.PoolObject.AbandonCandidate` | soma/hermes_service.py:534-545 | an unpublished pool is closed once; a used one is refused |
| `GenerationPool.PoolObject.CollectCloseableLocked` | soma/hermes_service.py:587-599 | closes and hands over all workers exactly when draining, unreferenced, unleased and still open |
| `HermesPreservation.StepKeeps` | soma/hermes_service.py:642-882 | every lock region of execute, cancel, reload, replace and close keeps the whole invariant |
| `HermesTheorems.RunKeepsInvariant` | soma/hermes_service.py:614-882 | the invariant holds at every point of every interleaving from construction |
| `HermesTheorems.CountsAreExact` | soma/hermes_service.py:407-459 | reference count = executions pinned, active count = leased slots; underflow, lease drift, closed generation and lost ownership never reach an execution |
| `HermesTheorems.LeasesAreExclusive` | soma/hermes_service.py:642-715 | every leased slot belongs to exactly one execution and carries its request id |
| `HermesTheorems.RequestIdMayRepeat` | soma/hermes_service.py:707-714 | whenever an execution has left the active map with its slot not yet back, leasing to another one of the same id gives two slots that id |
| `HermesWitness.TwoSlotsOneId` | soma/hermes_service.py:707-714 | a run from every fresh service with two workers reaches two slots with one request id, held by two executions |
| `HermesTheorems.PinnedGenerationIsOpen` | soma/hermes_service.py:649-656 | an admitted execution never meets a closed generation, whatever reloads or close ran since |
| `HermesTheorems.ClosingNeverHurts` | soma/hermes_service.py:587-611 | a worker handed over for closing belongs to no generation that a running execution is pinned to |
| `HermesTheorems.DrainedIsClosed` | soma/hermes_service.py:527-545 | at every step boundary a draining pool without references and leases is closed, and workers are handed over exactly once |
| `HermesTheorems.QuiescentIsClosed` | soma/hermes_service.py:779-815 | once all executions are done and no administrator is active, every generation but the current one is closed |
| `HermesProgress.OwnStepAdvances` | soma/hermes_service.py:642-715 | each region of an execution brings it closer to its end, whichever branch it takes |
| `HermesProgress.OwnStep` | soma/hermes_service.py:657-714 | a running execution always has a region of its own it can take next; only inside a worker exchange does it depend on that exchange ending |
| `HermesProgress.ExecutionsFinish` | soma/hermes_service.py:642-715 | from every reachable state all running executions can finish, provided worker exchanges end |
| `HermesProgress.RetiredGenerationsCanClose` | soma/hermes_service.py:779-815 | from every state of every run a continuation closes every retired generation |
| `HermesTheorems.RunMovesForward` | soma/hermes_service.py:642-748 | generations, dispatch marks, cancel answers, and the outcomes of returned or finished executions are never taken back |
| `HermesTheorems.CancelTrueIsFinal` | soma/hermes_service.py:717-748 | after True the execution the cancel found is never dispatched, or the worker once leased to it confirmed termination while serving the cancelled id, for the rest of the run |
| `HermesCancel.CancelTrueMeans` | soma/hermes_service.py:717-748 | execution by execution: True means never dispatched, or a step at which the worker ended exactly one execution of the id, the one found if and only if it was still inside the exchange |
| `HermesCancel.ConfirmationHitsTargetIff` | soma/hermes_service_process.py:291-304 | a confirmed cancel ends the execution it had found if and only if that one is still inside the worker exchange; always when no other execution carries the id |
| `HermesCancel.CancelHitsOtherSession` | soma/hermes_service.py:733-748 | a run from every fresh service in which session A's cancel answers True after A returned and terminates the worker under session B |
| `HermesTheorems.TerminationHitsTheRequest` | soma/hermes_service_process.py:291-304 | a confirmed termination hits a live worker that serves exactly the cancelled id, for an execution waiting on it |
| `HermesTheorems.WrongOwnerChangesNothing` | soma/hermes_service.py:717-748 | the region that refuses a cancel with the wrong session or run changes no service state |
| `HermesCancel.RefusedCancelStaysRefused` | soma/hermes_service.py:717-748 | a cancel refused for its owner stays refused for the rest of the run, changes only its own record and never reaches a worker |
| `HermesTheorems.LateCancelIsLost` | soma/hermes_service.py:681-690 | a cancel between slot publication and the worker's registration answers False and the request is dispatched |
| `HermesTheorems.GenerationsIncrease` | soma/hermes_service.py:797-809 | current generations strictly increase whenever they change; retired ones are older |
| `HermesTheorems.ResultsAreExpected` | soma/hermes_service.py:885-935 | a returned result names the generation and schema hash the caller expected, and so does a response marked ok, for ever |
| `HermesTheorems.CurrentPoolIsSound` | soma/hermes_service.py:363-400 | the current pool keeps distinct ids and processes and one registry identity through reloads and replacements |
| `HermesOutcomes.AdmissionAnswer` | soma/hermes_service.py:649-656 | a call is admitted if and only if the service is ready and its current generation and schema hash are the expected ones; otherwise which error, and nothing else changes |
| `HermesOutcomes.RegistrationAnswer` | soma/hermes_service.py:657-668 | a request whose id is not in use is registered under it |
| `HermesOutcomes.DuplicateAnswer` | soma/hermes_service.py:657-668 | a request whose id is in use ends as a duplicate and drops its reference |
| `HermesOutcomes.GiveUpAnswer` | soma/hermes_service.py:426-446 | a request times out only when no slot is available |
| `HermesOutcomes.PublicationAnswer` | soma/hermes_service.py:670-687 | a cancelled request stops before dispatch; any other goes on |
| `HermesOutcomes.DispatchAnswer` | soma/hermes_service_process.py:262-289 | the leased worker takes the request if and only if it is alive and open |
| `HermesOutcomes.FinishAnswer` | soma/hermes_service.py:905-935 | the response is returned as it is if and only if it is not marked ok or names the operation, generation and hash of the request; drift and a failed exchange otherwise |
| `HermesOutcomes.PopAnswer` | soma/hermes_service.py:707-714 | the id leaves the active map |
| `HermesOutcomes.GiveBackAnswer` | soma/hermes_service.py:707-714 | exactly the leased slot is freed |
| `HermesOutcomes.DropAnswer` | soma/hermes_service.py:707-714 | the reference is dropped and the call ends |
| `HermesOutcomes.UnknownCancelAnswer` | soma/hermes_service.py:717-748 | a cancel of an unused id answers False |
| `HermesOutcomes.CancelAnswers` | soma/hermes_service.py:717-748 | mismatch for the wrong owner; True at once if and only if the slot is not visible yet; otherwise the leased worker is asked |
| `HermesOutcomes.WorkerAnswers` | soma/hermes_service_process.py:291-304 | a worker confirms if and only if it is alive, open, serves that id and its termination is reported; when it counts as closed |
| `HermesOutcomes.BuildAnswer` | soma/hermes_service.py:785-796 | a candidate is set up if and only if its workers are acceptable together; otherwise all are handed over |
| `HermesOutcomes.ReloadAnswer` | soma/hermes_service.py:797-815 | a candidate becomes current, and the old generation retired and left to drain, if and only if the service is ready and the candidate newer; otherwise no pool changes |
| `HermesOutcomes.ReplaceAnswer` | soma/hermes_service.py:461-525 | a replacement goes through if and only if the slot is replaceable, stated on its fields |
| `HermesOutcomes.ReplaceDeadAnswer` | soma/hermes_service.py:750-777 | on the service: the new worker takes the replaceable slot and the old one is handed over, or the new one is and no pool changes |
| `HermesOutcomes.CloseAnswer` | soma/hermes_service.py:871-882 | closing ends readiness and leaves every generation to drain |
| `HermesOutcomes.HealthAnswer` | soma/hermes_service.py:828-869 | exactly the closed retired generations are forgotten |
| `HermesOutcomes.ClosedRefuses` | soma/hermes_service.py:649-656 | after close every later call of the run is refused as not ready |
| `HermesOutcomes.RequestIsAnswered` | soma/hermes_service.py:642-715 | a run from every fresh service: a request meant for it gets its worker's fitting response and everything is given back |
| `HermesOutcomes.ReloadPublishes` | soma/hermes_service.py:779-815 | a run from every fresh service: any acceptable workers of a newer generation become current and the old generation closes |
| `RunStore.Database.ConditionalUpdate` | soma/run_store.py:1096-1173 | the row changes exactly when every named guard field matches |
| `RunStore.Database.BindRunOwnership` | soma/operation_locks.py:83-143 | binds the addressed lock, bumping the run's version on the first binding only |
| `RunStore.Database.ReleaseLock` | soma/operation_locks.py:296-316 | frees the lock exactly when token and generation address it |
| `RunStore.Database.ReserveNextLaunch` | soma/operation_locks.py:318-409 | run row and lock row move to the next lease together, or neither does |
| `RunStore.UpdateIsLater` | soma/run_store.py:1096-1173 | an admissible guarded update keeps the row sound and only moves it forward |
| `RunStore.ReserveIsLater` | soma/operation_locks.py:318-409 | a reservation keeps lease agreement and the bound of two launches |
| `RunStore.LockStatements` | soma/operation_locks.py:75-316 | binding, change of owner and release: the new rows, each raising the version by one |
| `RunProtocol.TerminateAll` | soma/job_manager.py:3190-3206 | one report per distinct recorded process, in the order child, worker, launcher |
| `RunSafety.StepKeeps` | soma/job_manager.py:2243-2359 | every read and transaction of launcher, worker, canceller and reconciler keeps the invariant and moves the row forward |
| `RunTheorems.TerminalStatusIsFinal` | soma/job_manager.py:3025-3079 | a finished run keeps the status it finished with |
| `RunTheorems.AtMostOneTerminalTransition` | soma/job_manager.py:665-1015 | at most one step of any interleaving ends the run |
| `RunTheorems.AtMostOneClaim` | soma/run_store.py:1470-1510 | whatever restarts and relaunches happen, at most one worker ever claims the run |
| `RunTheorems.VersionIdentifiesState` | soma/run_store.py:1096-1173 | versions never fall, and equal versions mean equal status, lease, processes and attempts |
| `RunTheorems.LeaseIsConsistent` | soma/job_manager.py:711-1015 | lock and row agree on token and generation; recorded launch attempts stay at most two |
| `RunTheorems.ReservationFencesOldLease` | soma/job_manager.py:921-1015 | after a relaunch reservation no guarded write, reservation or lock operation with the old lease ever succeeds |
| `RunTheorems.ManagerReleaseIsSafe` | soma/job_manager.py:2319-2359 | an explicit release that frees the run's lock frees a live run's lock if and only if it is the launcher's after an unread create and the run has not ended |
| `RunTheorems.UnreadCreateLosesLock` | soma/job_manager.py:2243-2359 | a create that commits but cannot be read back leaves a live run without lock |
| `WorkerRelease.LookThenRelease` | soma/job_worker.py:1048-1055 | looking and then releasing frees a live run's lock if and only if the status read is neither terminal nor "cancellation pending" |
| `WorkerRelease.WorkerReleaseNeedsEnd` | soma/job_worker.py:1048-1055 | in every run each worker release follows its own look; after a look that read a terminal status the run is finished, and a release that meets a live run had read a live status |
| `WorkerRelease.LiveRunLosesLockOnlyBy` | soma/job_manager.py:2243-2359 | in every run a live run loses its lock only to the launcher after an unread create or to a worker whose look read a live status other than "cancellation pending" |
| `WorkerRelease.RunningRunLosesLock` | soma/job_worker.py:836-915 | a run from the start, with one event noted between the worker's read and its update, that ends running and without lock |
| `WorkerRelease.ContainedRunLosesLock` | soma/job_worker.py:836-915 | a run from the start, with a reconciler containing the run, that ends "recovery pending" and without lock |
| `RunTheorems.CancelNeedsProof` | soma/job_manager.py:2936-3248 | `cancel_run` makes a run cancelled only when every recorded process was reported terminated and, if none was recorded, it was not running; or, for remote runs with a process, when the identified remote end was terminated under a contract with its completion persisted and a live local child is dead |
| `RunTheorems.UnprovenCancelStaysPending` | soma/job_manager.py:3104-3240 | without that proof status, lease, version and lock stay as they are |
| `RunTheorems.UnprovenCancelEnds` | soma/job_manager.py:3104-3240 | for the rest of the run that canceller neither cancels nor releases, the run stays frozen and no other process or lease is recorded |
| `RunTheorems.ConfirmedIffSuffices` | soma/job_manager.py:3104-3217 | the decision of `cancel_run` is exactly that every recorded process is reported terminated, or none is recorded and the run was not running, or the remote facts hold |
| `RunOutcomes.CancellationBegins` | soma/job_manager.py:2942-2974 | a cancellation starts from the row unless the run has ended or is being cancelled |
| `RunOutcomes.CancellationMarks` | soma/job_manager.py:2975-3005 | the run is marked if and only if it is still as read |
| `RunOutcomes.CancellerGoesOnIff` | soma/job_manager.py:3207-3248 | a canceller goes on to finish if and only if its evidence suffices |
| `RunOutcomes.CancellationCompletes` | soma/job_manager.py:3025-3079 | with sufficient evidence and nothing in between the run ends cancelled with its lock free |
| `RunOutcomes.LostCancellationLooks` | soma/job_manager.py:3050-3079 | a canceller that lost frees the lock if and only if the run has ended and is published |
| `RunOutcomes.RunningRunIsCancelled` | soma/job_manager.py:2936-3248 | a run from the start in which a working local run is cancelled and unlocked |
| `RunOutcomes.VerifiedIsAdopted` | soma/job_manager.py:711-757 | with a verified worker status, lease, processes and lock are unchanged; the heartbeat is renewed if nothing changed since |
| `RunOutcomes.AdoptedOwnsLock` | soma/job_manager.py:729-757 | an adopted worker becomes owner of the lock, or its run is to be contained |
| `RunOutcomes.HopelessIsFailed` | soma/job_manager.py:665-694 | a run is failed, and its lock to be freed, if nobody is left to finish it, it may not be launched again and nothing has changed since |
| `RunOutcomes.HopelessRunEnds` | soma/job_manager.py:665-694 | and then its lock is freed |
| `RunOutcomes.UncertainIsContained` | soma/job_manager.py:838-920 | a run whose state is uncertain becomes "recovery pending", its lock kept |
| `RunOutcomes.RemoteEndIsTaken` | soma/job_manager.py:759-843 | a remote run that is over takes the reported end, or fails |
| `RunOutcomes.StrandedIsReserved` | soma/job_manager.py:921-945 | a stranded launch is reserved under the next lease if and only if row and lock still carry the old one |
| `RunOutcomes.RelaunchIsRecorded` | soma/job_manager.py:946-990 | a reserved launch is spawned under the new lease and recorded |
| `RunOutcomes.RelaunchFailureAnswer` | soma/job_manager.py:990-1008 | a relaunch that raises fails the run only while it is the reserved one and unchanged |
| `RunOutcomes.RestIsLeftAlone` | soma/job_manager.py:696-1042 | in every remaining case the run is left alone |
| `RunOutcomes.DecisionsExclude` | soma/job_manager.py:696-1042 | the conditions exclude one another |
| `RunOutcomes.ClaimAnswer` | soma/run_store.py:1470-1510 | a worker takes the run if and only if it is still to be started, under its lease and as just read |
| `RunOutcomes.BeatAnswer` | soma/run_store.py:1540-1588 | heartbeat and child reach the row if and only if it is this worker's and running |
| `RunOutcomes.ProgressAnswer` | soma/run_store.py:1512-1538 | so does progress, and the version moves exactly on a new phase |
| `RunOutcomes.UnlockedWorkerAnswer` | soma/job_worker.py:754-800 | a worker that finds its lock gone contains the run |
| `RunOutcomes.ResultIsStored` | soma/job_worker.py:836-880 | the row gets the worker's own result if and only if it is as last read and still the worker's |
| `RunOutcomes.RunCompletes` | soma/job_worker.py:754-1055 | a run from the start reaches every end its worker may report, with the lock free |
| `RunOutcomes.LaunchIsRefusedIff` | soma/job_manager.py:2215-2241 | a launch is refused if and only if the required lock is taken, and then touches nothing |
| `RunOutcomes.LaunchIsRecorded` | soma/job_manager.py:2243-2318 | a run from the start: queued, one attempt, the launcher's process recorded, the lock held |
| `RunOutcomes.FailedLaunchEnds` | soma/job_manager.py:2319-2357 | a launch that fails after creation ends failed with the lock free |
| `ToolConcurrency.Matching` | soma/hermes_concurrency.py:165-171 | the matching rules, each once, in declaration order |
| `ToolConcurrency.LimitsAreKept` | soma/hermes_concurrency.py:190-223 | under every schedule active = number of holders and never above the limit |
| `ToolConcurrency.EntersIff` | soma/hermes_concurrency.py:190-223 | a waiting caller may enter if and only if fewer than the limit hold the rule and a full interval has passed since its last start; otherwise it may time out |
| `ToolConcurrency.EnteringHolds` | soma/hermes_concurrency.py:190-223 | entering records the start and adds one holder of that rule alone |
| `ToolConcurrency.GoneHoldsNothing` | soma/hermes_concurrency.py:173-187 | a caller that timed out or ended holds no rule once gone |
| `ToolConcurrency.LeavingFinishes` | soma/hermes_concurrency.py:173-187 | a leaving caller is gone after exactly one give-back region per rule held plus one, all enabled; each held rule goes down by one and nothing else changes |
| `ToolConcurrency.NoCircularWait` | soma/hermes_concurrency.py:173-223 | no chain of callers waiting for one another ever closes into a cycle |
| `ToolConcurrency.StartsInWindow` | soma/hermes_concurrency.py:190-223 | recorded starts are at least the interval apart, which bounds the starts in any time window |
| `ToolConcurrency.RuleObject.TryEnter` | soma/hermes_concurrency.py:190-223 | one pass of the wait loop enters exactly when capacity and interval allow |
| `ToolConcurrency.GiveAllBack` | soma/hermes_concurrency.py:183-187 | the finally loop lowers exactly the acquired rules by one |
| `WorkerStderr.KeptIsLongest` | soma/hermes_service_process.py:430-443 | dropping from the front keeps the longest suffix of whole chunks that fits |
| `WorkerStderr.TrimAsYouGo` | soma/hermes_service_process.py:430-443 | trimming after each append keeps what trimming once at the end would |
| `WorkerStderr.StderrBuffer.Append` | soma/hermes_service_process.py:430-443 | the buffer is the longest fitting suffix of everything appended, size is its total, and the partial trim is dead code |
| `Supervisor.RenderIsInjective` | soma/hermes_service_supervisor.py:123-127 | start, reload and replacement ids never coincide as strings |
| `Supervisor.SupervisorObject.Start` | soma/hermes_service_supervisor.py:115-166 | issues the numbered ids, or leaves the supervisor as it was: already started, a failed launch, inconsistent registry identities or a refusing runtime |
| `Supervisor.SupervisorObject.ReloadRegistry` | soma/hermes_service_supervisor.py:204-240 | one new serial, as many ids as workers, no id issued before |
| `Supervisor.SupervisorObject.RestoreCapacity` | soma/hermes_service_supervisor.py:267-316 | replaces the first dead unleased slots in order with ids never issued before, all of them unless eight is reached or a replacement fails |
| `Supervisor.DeadMeans` | soma/hermes_service_supervisor.py:276-281 | those slots are exactly the ones neither ready nor leased, in order |
| `Supervisor.SupervisorObject.Issue` | soma/hermes_service_supervisor.py:267-316 | the replacement id is base, hash sign and serial, and is new |
| `SupervisorRuns.IdsNeverRepeat` | soma/hermes_service_supervisor.py:204-316 | however reloads, replacements, failures, closes and restarts of all threads interleave, no id is handed to the factory twice in one lifetime |
| `SupervisorRuns.StepKeeps` | soma/hermes_service_supervisor.py:204-316 | every serial taken and every id handed over keeps serials apart and issued ids distinct |
| `GitStatus.ParseEntries` | soma/git_tools.py:167-202 | the index loop refines the recursive parser |
| `GitStatus.RoundTrip` | soma/git_tools.py:167-202 | any printed status is parsed back to the same entries |
| `GitStatus.FinalizeStagePaths` | soma/git_tools.py:1233-1250 | both ends of every touched entry, no duplicate, nothing only untouched entries mention |
| `GitDiff.ParseSnapshot` | soma/git_tools.py:804-897 | the parsing loop and the status loop refine the line-by-line fold; a file is added, or deleted, if and only if it has lines of that one kind only |
| `GitDiff.HunksHoldTheirLines` | soma/git_tools.py:815-862 | each hunk's text is exactly the lines owned by its header, in order, and its totals count them |
| `GitDiff.OwnerIsUnique` | soma/git_tools.py:815-862 | no line belongs to two hunks |
| `GitDiff.HeadIsUnowned` | soma/git_tools.py:815-862 | the header part is exactly the lines no hunk owns, dropped malformed markers aside |
| `GitDiff.HunkIsItsStretch` | soma/git_tools.py:829-862 | with well-formed headers a hunk is the raw text up to the next boundary |
| `GitDiff.TextIsConserved` | soma/git_tools.py:815-862 | header part and hunks add up to the whole diff if and only if every hunk header after the first file line is well-formed |
| `GitDiff.FilesAgree` | soma/git_tools.py:815-862 | the flat list is the per-file lists concatenated; file totals equal hunk totals |
| `GitDiff.FilesAreTheirLines` | soma/git_tools.py:816-828 | one file per file line, with the path of that line |
| `GitDiff.SnapshotTotals` | soma/git_tools.py:894-895 | the snapshot's totals, summed over files, are those of all hunks counted once |
| `GitDiff.IdsAreDistinctIff` | soma/git_tools.py:836-839 | with a collision-free hash hunk ids are distinct if and only if no path has hunks in two file blocks |
| `GitDiff.TextsAreFoundIff` | soma/git_tools.py:891 | every hunk's text can be looked up by id if and only if no two hunks of one id differ in text |
| `GitDiff.TypeChangeRepeatsId` | soma/git_tools.py:836-839 | a parsed diff of a type change: two hunks with one id, the first text lost |
| `DiffTrimming.BoundedResult` | soma/git_tools.py:900-921 | terminates at the first response in trimming order that fits, or with both lists empty |
| `DiffTrimming.RemoveFromFiles` | soma/git_tools.py:907-913 | the inner loop filters every file's list by id and changes nothing else |
| `DiffTrimming.HunksStayAligned` | soma/git_tools.py:906-913 | with distinct ids the flat list stays a prefix and equals the concatenated per-file lists |
| `DiffTrimming.FilesAreShortened` | soma/git_tools.py:906-913 | every file stays, its hunks a prefix of its own |
| `DiffTrimming.FilesGoFromTheEnd` | soma/git_tools.py:914-919 | files are dropped from the end, only after all hunks |
| `DiffTrimming.AlignedThroughoutIffDistinct` | soma/git_tools.py:906-913 | the lists agree all through trimming if and only if no id repeats |
| `DiffTrimming.TypeChangeBreaksAgreement` | soma/git_tools.py:906-913 | a parsed diff of a type change: aligned at first, after one turn the lists disagree |
| `DiffTrimming.ParsedIsAligned` | soma/git_tools.py:868-881 | every parsed snapshot enters trimming with the two lists in agreement |
| `DiffTrimming.ParsedStaysAlignedIff` | soma/git_tools.py:906-913 | a parsed snapshot stays in agreement all through trimming if and only if no path has hunks in two file blocks |
| `GitEvidence.CompactPathList` | soma/git_tools.py:459-487 | counts balance, the listing is a prefix of the retained paths, root-group counts sum to the tool-owned count |
| `GitEvidence.PathListBalances` | soma/git_tools.py:479-487 | the recorded summary's counts are those of the list: total = tool-owned + retained = listed + omitted |
| `GitEvidence.PathListPaths` | soma/git_tools.py:479-487 | the recorded paths are the first of those not tool-owned |
| `GitEvidence.PathListGroups` | soma/git_tools.py:472-478 | the recorded groups are the counts per root |
| `GitEvidence.ManifestIdempotent` | soma/git_tools.py:490-539 | compacting a manifest again, under any limit, changes nothing |
| `GitEvidence.ManifestKeepsTheRest` | soma/git_tools.py:490-539 | every field that is neither bulky nor a marker stays exact |
| `GitEvidence.ManifestDropsBulk` | soma/git_tools.py:504-508 | status text and tool-owned list are gone |
| `GitEvidence.ManifestBalances` | soma/git_tools.py:509-534 | listed files are a prefix of the retained ones and the file counts balance |
| `GitEvidence.ManifestIsReduced` | soma/git_tools.py:490-539 | a manifest not compacted yet loses status text and tool-owned list and lists at most the limit |
| `GitEvidence.CompactCommitResult` | soma/git_tools.py:542-580 | the loop over the bulky fields refines the fieldwise definition |
| `GitEvidence.BodyIsExact` | soma/git_tools.py:542-580 | the body holds every bulky field unchanged and nothing else |
| `GitEvidence.CompactIsReduced` | soma/git_tools.py:559-575 | the compact record holds a line count for the status text and summaries for dirty list and manifests |
| `GitEvidence.CompactKeepsTheRest` | soma/git_tools.py:559-580 | every other field is as it was, and the markers are set |
| `GitEvidence.LosslessIffNoMarker` | soma/git_tools.py:542-580 | overlaying the body and dropping the markers restores the record, exactly when it used no marker's name |
| `GitEvidence.MarkerFieldIsLost` | soma/git_tools.py:576-580 | a record with its own false `compacted` field comes back without it |
| `GitEvidence.CompactIdempotent` | soma/git_tools.py:551-557 | a second pass removes nothing |
| `GitCommit.AddAll` | soma/git_tools.py:1333-1338 | the named paths take the worktree's state, all others stay |
| `GitCommit.Repository.FinalizeExplicit` | soma/git_tools.py:1253-1430 | a reported commit changes HEAD on the staged paths only, where HEAD, index and worktree agree; the real index is untouched elsewhere; failures before the commit change nothing; without faults and with a change HEAD moves, reported as a commit if and only if every staged path is in the real index or the worktree |
| `GitCommit.FinalizeStagedRename` | soma/git_tools.py:1366-1377 | finalizing a staged rename moves HEAD and is reported as a failure |
| `GitCommit.Repository.CommitSelected` | soma/git_tools.py:1473-1548 | refused exactly on empty, unchanged or unrelated staged paths; commits the index plus the selection if and only if it is not refused, no Git command fails, every path matches and there is a change; puts the index back on failure |
| `GitCommit.SelectedIsIsolatedIffNoRename` | soma/git_tools.py:1215-1230 | past the guard both operations give the same tree for the same paths if and only if no staged rename comes from outside the selection |
| `GitCommit.HiddenRenameSource` | soma/git_tools.py:1215-1230 | a staged rename passes the guard and takes its unselected old path out of the commit |
| `GitCommit.StagesTheSelection` | soma/git_tools.py:1233-1250 | without touched renames a changed selection is staged exactly |
| `GitCommit.CommitBothWays` | soma/git_tools.py:1473-1509 | both operations, from one repository state and with no rename or copy among the touched entries, commit the same tree, and do commit when nothing stands in the way |
| `Backfill.MigratedIsEmpty` | soma/evidence_backfill.py:123-138 | a migrated row has nothing left to externalize, whatever it held |
| `Backfill.MigratedRefers` | soma/evidence_backfill.py:239-247 | a migrated row names hash, size and fields of its artifact; its other fields are the compacted or the original ones |
| `Backfill.InlineCondition` | soma/evidence_backfill.py:123-138 | exactly when a row still carries something inline |
| `Backfill.RowIsRestoredIffNoMarker` | soma/evidence_backfill.py:123-138 | a migrated row and its body give back the original row, exactly when it used no marker's name |
| `Backfill.StepKeeps` | soma/evidence_backfill.py:163-277 | every step, stop and restart keeps the safety invariant |
| `Backfill.RunKeepsInvariant` | soma/evidence_backfill.py:163-325 | at every point of every sequence of interrupted backfills each row is as it was or what it carried inline is complete in its artifact under the recorded hash |
| `BackfillEvidence.NothingIsLost` | soma/evidence_backfill.py:163-325 | at every point of every sequence of interrupted backfills all evidence of a row not at risk can still be recovered from row and artifact |
| `BackfillEvidence.MixedRowLosesEvidence` | soma/evidence_backfill.py:123-138 | a run in which every write succeeds costs a row at risk every field that only its artifact held |
| `BackfillEvidence.EvidenceSurvivesIffNotAtRisk` | soma/evidence_backfill.py:163-325 | all evidence of a row survives every run if and only if the row is not at risk: mixed, not recorded as done, and through the projection gate |
| `BackfillEvidence.MixedCondition` | soma/evidence_backfill.py:123-138 | which rows are mixed: a compact commit result beside an inline preserved list, or the reverse, with the summarised part in the artifact |
| `BackfillEvidence.SafeKeepsEvidence` | soma/evidence_backfill.py:123-277 | the safety invariant keeps all evidence of rows that are not mixed |
| `Backfill.CompactRowIsFinal` | soma/evidence_backfill.py:163-325 | a row with nothing inline is never externalized again and its artifact never rewritten |
| `BackfillRun.ProcessIsSteps` | soma/evidence_backfill.py:163-277 | handling one candidate without interruption takes only steps of the crash-tolerant machine |
| `BackfillRun.ProcessIsLocal` | soma/evidence_backfill.py:254-260 | only the candidate's own row can change, exactly when an applying pass reports it migrated |
| `BackfillRun.JudgeMeans` | soma/evidence_backfill.py:183-236 | what each verdict means, on row, directory, projection, hash and length |
| `BackfillRun.MigrationSucceeds` | soma/evidence_backfill.py:232-277 | a row that passes every gate is migrated: artifact, row and progress |
| `BackfillRun.Archive.WriteVerified` | soma/evidence_backfill.py:81-114 | succeeds exactly when what is on disk agrees in hash and length with the encoded body |
| `BackfillRun.Archive.ProcessCandidate` | soma/evidence_backfill.py:163-277 | the new rows, artifacts and progress, and the verdict, for every branch |
| `BackfillRun.Archive.RunBackfill` | soma/evidence_backfill.py:280-342 | every row stays safe, rows that are not mixed keep all evidence, a dry pass changes nothing; the summary counts exactly the candidates reached before the limit and not done already, and exactly those reported migrated change |

## Left out

- Identity and request field checks (`_opaque_id`, `_sha256_identity` and the dataclass validators): single-function checks.
- Process launch, termination and identity probing, pipes, JSON, SQLite and file-system calls: nondeterministic outcomes or atomic steps.
- Workers handed to a reload or a replacement are taken to be newly launched (soma/hermes_service_supervisor.py:219-229); a factory that returns the same worker object twice is not part of this model.
- The order in which waiting threads wake up, and fairness between them.
- Adoption of workers from a persisted supervisor state file, and agreement of the supervisor's worker map with the pool under a concurrent restore and reload.
- Administration, credential and resource locks (soma/hermes_concurrency.py:24-113, 226-256): plain mutual exclusion.
- The gateway in front of the service.
- `recover_stale` and the takeover of a lock whose run row never existed; parallel groups; result publication and run events.
- The launcher's check after recording a launch is modelled as an arbitrary exception at that point, which allows more behaviours than the code has.
- Supervisor.SupervisorObject.RestoreCapacity: one uninterrupted pass over a snapshot; interleaving is in SupervisorRuns.IdsNeverRepeat, the swap in GenerationPool.ReplacementIsSafe.
- Supervisor.SupervisorObject.ReloadRegistry: one uninterrupted call that launches all its workers; interleaving and failure are in SupervisorRuns.IdsNeverRepeat.
- HermesProgress.OwnStep: a worker exchange blocks without a timeout in soma/hermes_service_process.py:339-377; that it ends is assumed, not shown.
- GitDiff.ParseSnapshot: the header text and line numbers of a hunk are dropped, the two regular expressions are parameters, and line splitting is taken as given.
- DiffTrimming.BoundedResult: the encoded size of a response is an arbitrary function, so no particular byte budget is shown to suffice.
- GitEvidence.CompactPathList: a value that Python cannot iterate raises in the source; here the list of its elements is a parameter.
- Real Git beyond the map model: directory pathspecs, ignore rules, hooks that edit the tree, conflicts, path quoting in the line-based status, and timeouts.
- Backfill under a concurrent writer of the rows or a second backfill process: the progress record is written even when the guarded row update matches nothing, so no claim is made that progress implies a compacted row.
- The constant fields of the evidence reference and the byte totals of the backfill summary.
- Redirected artifact directories, and Soma's remote, Docker and Cloudflare operations.
