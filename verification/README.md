# Verified core of the knowledge platform

This project models the parts of the platform in which several functions, processes or threads have to
agree, and proves what they agree on. To check it as a whole, run `dafny verify dfyconfig.toml`.

**The LLM task queue** (`TaskTable`, `TaskProtocol`, `EveryInterleaving`, `SoundLeases`, `SoundRuns`,
`ClaimLedger`, `AttemptNumbers`, `RetriedTasks`, `LateWorkers`, `UndoneSuccess`, `ManagerSteps`, `Executor`,
`EmbeddingCheck`, `ResultFold`). A table of tasks is shared by workers that claim, execute, complete and fail
them, by lease recovery, by the API (cancel, retry), by cleanup and by restarts. Every SQL statement is one step, `fail` is a read and a later write, and a run is
any interleaving of steps. `EveryInterleaving` proves what holds in all of them. `SoundLeases` adds one
assumption: a lease expires only after its worker has stopped acting, `retry` looks and writes in one
step, cleanup deletes finished tasks only, and a restart stops all workers and recovery before it requeues.
`ManagerSteps` shows that every call of the task manager is a run of the protocol, `Executor` that every path
through the executors takes protocol steps and closes its task once.

**Idempotent submit** (`Idempotency`) and **retention cleanup** (`Cleanup`), each against everything that
may happen to the tables at the same time.

**The streaming pipeline** (`StreamingPipeline`, `PipelinePlaces`, `PipelineShutdown`, `PipelineTermination`,
`PipelineRuns`, `PipelineMeaning`): queues, worker threads and sentinels, under every schedule.

**Reranking** (`RerankBatches`, `RerankMerge`, `RerankPositions`, `Rerank`): packing documents into calls,
merging answers, finding each answer's document again by its text.

**Access records** (`Json`, `Sanitizer`, `SanitizerLaws`, `SanitizerExact`, `SensitiveKeys`, `CapturedKeys`,
`RedactionPaths`, `JsonText`, `JsonSize`, `BoundedJson`, `UploadTickets`): redaction under budgets, cutting a payload to a number of bytes, and the
counting of uploads by ticket.

**Chapter restoration** (`OnenetPaths`, `OnenetRestore`, `OnenetTree`, `OnenetSelect`, `OnenetFetch`):
paths, files, the chapter tree, subtree selection, and the fetching and checking of slices.

**The DDL splitter** (`DdlSplit`). `Common`, `Text`, `StableSort` and `Grouping` hold what several of these share.

## Where a promise does not hold as it stands

The model follows the code. Each of these is a lemma with the exact condition; some also have a run or an
input that shows the case.

- `retry` sets the attempt count to zero but keeps the attempt rows, and numbers are unique per task. A
  task dead-lettered by failed attempts has used them all and can never succeed again
  (`RetriedTasks.RetriedCanSucceedIff`, `RetriedTasks.ExhaustedTaskIsLost`).
- Neither `complete` nor `fail` looks at the status. When a lease runs out under a live worker, a
  succeeded task can be queued again, exactly as long as that worker or lease recovery has not let go of it
  (`UndoneSuccess.CanBeUndoneIff`, `LateWorkers.SuccessCanBeUndone`).
- When `complete` takes effect and then raises, because its event cannot be written, the handler fails
  the task as well. A task is closed twice exactly when a closing call raises like that and a later one
  takes effect (`Executor.ClosedAtMostOnceIff`, `Executor.LateRaiseClosesTwice`, `Executor.CloseTwice`).
- The idempotency lookup misses a task behind fifty newer ones of its key and status
  (`Idempotency.LookupMissesIff`), and a submit then duplicates it (`Idempotency.SubmitMakesTwinIff`).
- The select endpoint tests files by string and slices by segments. They agree only for subtrees spelled
  canonically (`OnenetPaths.FileHitIff`).
- Verification tells a missing id from the text None and the count of matched ids does not
  (`OnenetSelect.SelectionCounts`, `OnenetFetch.MissingClashesWithNone`).
- Part files of an earlier run overlap those of a later one when the source has grown and the last
  segment was not full (`OnenetFetch.GrownSourceOverlapsIff`).
- An upload group can become terminal exactly when every upload brings a ticket of its own
  (`UploadTickets.NewGroupCanFinishIff`, `UploadTickets.CanFinishIff`), and finishing a group can take a
  reused ticket away from another one (`UploadTickets.SiblingsAreOwnIff`).
- Rerank answers that give some positions and omit others can repeat a position:
  exactly when one is given twice, or given after answers of the same text that had to take it
  (`RerankPositions.PositionsDifferIff`, `RerankMerge.MixedPositionsMayCollide`).
- The sanitizer asks for a byte to be left before each list item, even one that needs none. It truncates
  a payload of exactly the budget if and only if a list item comes last (`SanitizerExact.TruncatedIff`).
- A pipeline with documents and a stage without workers never returns
  (`PipelineRuns.UnstaffedNeverReturns`).

## Model

| member | source | states |
|---|---|---|
| `TaskTable.TaskManager.Submit` | llm_service/runtime/task_manager.py:60-92 | adds one queued row with no attempts, claimable exactly from now on, and one event |
| `TaskTable.TaskManager.Claim` | llm_service/runtime/task_manager.py:94-116 | returns nothing exactly when no queued row is available, else the first by priority and age, now running under a lease; no other row changes |
| `TaskTable.TaskManager.Complete` | llm_service/runtime/task_manager.py:118-124 | one more attempt and succeeded, whatever the status was |
| `TaskTable.TaskManager.Fail` | llm_service/runtime/task_manager.py:126-153 | one more attempt; while attempts are left the row is claimable again exactly from now plus the capped power of the base on, otherwise it is dead-lettered and never claimable; a missing row is left alone |
| `TaskTable.TaskManager.Cancel` | llm_service/runtime/task_manager.py:155-165 | succeeds exactly on queued rows |
| `TaskTable.TaskManager.Retry` | llm_service/api/tasks.py:152-176 | reopens failed, dead-lettered and cancelled rows, claimable exactly from now on with the count back at zero, and reports every other case |
| `TaskTable.TaskManager.BatchCancel` | llm_service/api/tasks.py:184-200 | cancels the queued ones among the ids and counts exactly those |
| `TaskTable.TaskManager.RequeueRunning` | llm_service/main.py:90-103 | afterwards nothing is running and every other row is as before |
| `TaskTable.LineHasFirst` | llm_service/runtime/task_manager.py:106-109 | priority descending, then age ascending, always has a first row |
| `TaskTable.BackoffGrows` | llm_service/runtime/task_manager.py:135-136 | waiting never shrinks as failures mount up and never exceeds the ceiling |
| `TaskTable.PowerAdds` | llm_service/runtime/task_manager.py:135 | the power that grows so is exponentiation |
| `ManagerSteps.Submit` | llm_service/runtime/task_manager.py:60-92 | a submit to the manager is a run of the task protocol on its table |
| `ManagerSteps.Claim` | llm_service/runtime/task_manager.py:94-116 | so is a claim, which leaves the worker holding exactly the task it was given |
| `ManagerSteps.Complete` | llm_service/runtime/task_manager.py:118-124 | so is `complete`, which leaves the worker idle |
| `ManagerSteps.Fail` | llm_service/runtime/task_manager.py:126-153 | so is `fail`, as its two statements |
| `ManagerSteps.Recover` | llm_service/runtime/worker.py:458-486 | so is the `fail` that recovery calls for the next row of its scan |
| `ManagerSteps.Cancel` | llm_service/runtime/task_manager.py:155-165 | so is a cancellation, which takes a step exactly if it is not refused |
| `ManagerSteps.Retry` | llm_service/api/tasks.py:152-176 | so is a retry, which takes a step exactly if it is not refused |
| `ManagerSteps.RequeueRunning` | llm_service/main.py:90-103 | so is the statement of startup and shutdown |
| `ManagerSteps.CancelRuns` | llm_service/api/tasks.py:184-200 | cancelling many rows in one statement is a run of single cancellations |
| `EveryInterleaving.FailureFits` | llm_service/runtime/task_manager.py:133-153 | writing counts read earlier keeps live rows below their limit and dead-lettered ones at it, even if the row changed in between |
| `EveryInterleaving.NextInv` | llm_service/runtime/worker.py:98-148 | every step of workers, recovery, the API, cleanup and restart, in any order, keeps counts, limits and pending reads consistent |
| `EveryInterleaving.CountsAlwaysFit` | llm_service/runtime/task_manager.py:94-153 | in every reachable state of every interleaving, late workers included: queued and running tasks have attempts left, dead-lettered ones have none |
| `EveryInterleaving.ExhaustedBranchIsDead` | llm_service/runtime/worker.py:458-486 | so lease recovery never meets an exhausted row |
| `SoundLeases.OwnershipKept` | llm_service/runtime/worker.py:98-148 | with sound leases every step keeps one owner per running task, its reads still true of the row |
| `SoundLeases.LimitsKept` | llm_service/runtime/task_manager.py:118-153 | and no count passes its limit, not even at the last failure |
| `SoundLeases.AfterSound` | llm_service/runtime/worker.py:458-486 | the whole invariant survives every sound move, restarts included |
| `SoundRuns.OneOwner` | llm_service/runtime/worker.py:98-114 | in every sound run at most one worker owns a task; it is running, and recovery leaves it alone |
| `SoundRuns.FinishedRowsStay` | llm_service/runtime/task_manager.py:118-165 | a finished row changes only by cleanup, or by retry if it did not succeed |
| `SoundRuns.SuccessIsFinal` | llm_service/runtime/task_manager.py:118-124 | over a whole run a succeeded row stays exactly as it is until cleanup removes it |
| `TaskProtocol.SyncIsFinished` | llm_service/runtime/service.py:596-640 | the synchronous path writes a finished task with its one attempt and result, and touches no other |
| `ClaimLedger.RunningIffOpen` | llm_service/runtime/task_manager.py:94-153 | a task is running exactly while its last claim is neither closed nor dropped by a restart |
| `ClaimLedger.ClaimsAlternate` | llm_service/runtime/worker.py:98-148 | claims and closings alternate: no double claim, no closing without an open claim |
| `ClaimLedger.ClaimsBalance` | llm_service/runtime/worker.py:98-148 | every claim is closed once, dropped by a restart, or still open: the numbers add up in every state |
| `ClaimLedger.AttemptCountIsClosedClaims` | llm_service/runtime/task_manager.py:118-153 | the attempt count is the number of claims closed since submit or the last retry, and never exceeds the limit |
| `LateWorkers.Recovered` | llm_service/runtime/worker.py:458-486 | recovery queues a task again under a worker that is still acting, once its lease has run out |
| `LateWorkers.LateFail` | llm_service/runtime/task_manager.py:126-153 | a late `fail` takes a succeeded task out of success |
| `LateWorkers.SuccessCanBeUndone` | llm_service/runtime/task_manager.py:118-153 | the case arises: from an empty table, for every limit of two or more, a run in which a task succeeds and is then queued again or dead-lettered |
| `UndoneSuccess.WorkerCanUndo` | llm_service/runtime/task_manager.py:126-153 | a worker that has not left a task can take it out of success |
| `UndoneSuccess.RecoveryCanUndo` | llm_service/runtime/worker.py:458-486 | so can lease recovery while the task is on its list |
| `UndoneSuccess.CanBeUndoneIff` | llm_service/runtime/task_manager.py:118-153 | in every state, a succeeded task can leave success without manual retry or cleanup if and only if a worker has not left it or recovery has it on its list |
| `UndoneSuccess.SoundUpToSuccess` | llm_service/runtime/task_manager.py:118-153 | so if leases were sound up to the success, no continuation whatever undoes it |
| `AttemptNumbers.NumbersKept` | llm_service/runtime/service.py:198-296 | with sound leases, no retry and no restart, every step keeps attempt numbers unused until they are inserted and results tied to their attempts |
| `AttemptNumbers.AttemptsNeverCollide` | llm_service/runtime/service.py:222-237 | no attempt insertion ever meets its own number |
| `AttemptNumbers.ResultIsTheCompletingOne` | llm_service/runtime/service.py:730-747 | the result of a succeeded task is the good row of the attempt that completed it |
| `AttemptNumbers.ResultIgnoresOrder` | llm_service/runtime/service.py:730-747 | and does not depend on the order of the rows |
| `AttemptNumbers.LaterQueryAgrees` | llm_service/runtime/service.py:774-825 | between the queries of a batch the result of a succeeded task stays the same row, or is gone with its task |
| `RetriedTasks.SpentForGood` | llm_service/api/tasks.py:165-174 | once every number within the limit is used and none is under way, no sound continuation makes the task succeed, however often it is retried |
| `RetriedTasks.FreeNumberSucceeds` | llm_service/api/tasks.py:165-174 | while a number above the count is free, some continuation makes it succeed |
| `RetriedTasks.RetriedCanSucceedIff` | databases/agent_llm_runtime/schemas/002_agent_llm_runtime_postgresql.sql:118 | a retried task can succeed if and only if some attempt number within its limit was never used |
| `RetriedTasks.ExhaustedTaskIsLost` | llm_service/api/tasks.py:152-174 | for every limit: a task dead-lettered by failed attempts cannot succeed after retry |
| `Executor.Execution.ChatTry` | llm_service/runtime/service.py:221-294 | with any call free to raise: attempt, answer, check, result, closing in this order; it closes the task and stops, or raises with the task still open |
| `Executor.Execution.ChatAttempt` | llm_service/runtime/service.py:198-316 | what the chat attempt raises leaves the task open; a `complete` that raises is followed by a `fail` |
| `Executor.Execution.ExecuteChat` | llm_service/runtime/worker.py:154-178 | the same for the chat executor, a missing request included |
| `Executor.Execution.ModelTry` | llm_service/runtime/worker.py:217-256 | the guarded part of the embedding and rerank executors |
| `Executor.Execution.ExecuteModel` | llm_service/runtime/worker.py:184-268 | the embedding and rerank executors; they leave the task open only when its row has vanished |
| `Executor.Execution.ExecuteTask` | llm_service/runtime/worker.py:116-148 | on every path the calls come in order, no attempt is made without request, provider and task row, nothing follows a closing that worked, `complete` comes only with the attempt marked succeeded and `fail` only with it marked failed, and the last call closes the task unless its row vanished under an embedding or rerank; if nothing is missing and nothing raises it is `complete` |
| `Executor.ClosedExactlyOnce` | llm_service/runtime/worker.py:116-148 | if `complete` and `fail` do not fault, every execution closes its task by exactly one call, the vanished row excepted |
| `Executor.ClosedAtMostOnceIff` | llm_service/runtime/worker.py:116-148 | even if they fault, at most one closing takes effect, if and only if no closing call takes effect and raises with a later one taking effect too |
| `Executor.LateRaiseClosesTwice` | llm_service/runtime/service.py:274-312 | an execution whose last call closed its task has closed it before if and only if an earlier closing took effect and raised |
| `Executor.CloseTwice` | llm_service/runtime/service.py:274-312 | the case arises: an execution in which only the success event cannot be written, and which closes its task twice |
| `Executor.OpenExecutionRuns` | llm_service/runtime/service.py:221-272 | an execution that has not closed its task is a run of the task protocol by its worker, at the matching place |
| `Executor.ClosedExecutionRuns` | llm_service/runtime/task_manager.py:118-153 | one that has is a run that leaves the worker idle and the row as `complete` or `fail` writes it |
| `EmbeddingCheck.ValidateEmbeddingResult` | llm_service/runtime/worker.py:360-415 | accepts exactly results with one vector per text, one dimension (the requested one), and indices in range, each once |
| `EmbeddingCheck.EveryTextHasItsVector` | llm_service/runtime/worker.py:360-415 | an accepted result gives every text exactly one vector, not empty and of the length asked for: the check for missing indices cannot fire |
| `EmbeddingCheck.CompleteIsAccepted` | llm_service/runtime/worker.py:360-415 | and any result with as many vectors as texts, all of one positive length, the one asked for, and an item for every text is accepted |
| `ResultFold.LatestIsFirstMaximum` | llm_service/runtime/service.py:737-747 | the fold picks the first row with the greatest attempt number |
| `ResultFold.LatestIgnoresOrder` | llm_service/runtime/service.py:730-747 | with distinct numbers every order of the rows gives the same answer |
| `ResultFold.FoldLatest` | llm_service/runtime/service.py:793-803 | one grouping pass gives for every task what its own query would |
| `ResultFold.BuildEntries` | llm_service/runtime/service.py:822-840 | the loop builds, for each id in the order first asked, the answer it would get alone |
| `ResultFold.EntryTells` | llm_service/runtime/service.py:822-840 | an answer is the row, the newest result if the task succeeded and results are asked for, and the newest failed attempt if it has failed for good |
| `ResultFold.GetTasksBatch` | llm_service/runtime/service.py:757-844 | fails exactly on an empty request, else returns those answers and the ids that were not found, in request order |
| `ResultFold.BatchAnswersEach` | llm_service/runtime/service.py:757-844 | nothing asked for is lost or invented: one answer per existing id, none for others, and found plus missing make up the request |
| `ResultFold.FirstSeenOnce` | llm_service/runtime/service.py:771 | duplicates are dropped and nothing else |
| `Idempotency.ProbeThenRescan` | llm_service/runtime/idempotency.py:71-92 | probing the newest and rescanning equals the first match among the newest fifty |
| `Idempotency.FindExistingTask` | llm_service/runtime/idempotency.py:53-93 | the lookup equals the simple scan: succeeded, then running, then queued |
| `Idempotency.LookupMissesIff` | llm_service/runtime/idempotency.py:53-93 | the lookup finds nothing if and only if every match has fifty newer tasks of its key and status |
| `Idempotency.LookupIsMatch` | llm_service/runtime/idempotency.py:53-93 | what it finds is a reusable task of the key with the same request |
| `Idempotency.LookupIsBest` | llm_service/runtime/idempotency.py:53-93 | of the matches in sight it is one of the worthiest status, and of these the newest |
| `Idempotency.KeyAloneDecides` | llm_service/runtime/idempotency.py:53-93 | without a fingerprint it is the newest task of the key in the worthiest status, and nothing exactly if none can be reused |
| `Idempotency.SubmitTwice` | llm_service/runtime/service.py:339-394 | submitting the same request again returns the same task and adds no row |
| `Idempotency.SubmitMakesTwinIff` | llm_service/runtime/service.py:339-394 | a submit makes a second live task for a key and request if and only if a match exists and every match is out of sight |
| `Idempotency.NoTwinsKept` | llm_service/runtime/service.py:339-394 | submits, status changes and deletions keep at most one live task per key and request |
| `Idempotency.AtMostOneLiveTask` | llm_service/runtime/service.py:339-394 | so does every run whose submits can see their matches |
| `Idempotency.FiftyAreFew` | llm_service/runtime/idempotency.py:10 | which holds while a key has at most fifty tasks in each status |
| `Idempotency.ProtocolMovesStatusesSo` | llm_service/runtime/task_manager.py:94-165 | the status changes assumed are those of the task protocol with sound leases |
| `Cleanup.ProtocolInterferes` | llm_service/runtime/cleanup.py:44-54 | no protocol step after the cutoff makes a row eligible or touches one that stays eligible, late workers included |
| `Cleanup.WrittenIsEligibleIff` | llm_service/runtime/cleanup.py:44-54 | a row that a protocol step has just written can be cleaned up if and only if the task is over, the cutoff is later than the step and the domain is in scope |
| `Cleanup.ChildrenGone` | llm_service/runtime/cleanup.py:204-208 | deleting the children of locked tasks counts the rows that were there when the batch began |
| `Cleanup.BatchProgress` | llm_service/runtime/cleanup.py:183-216 | a batch removes whole tasks that were eligible, with all their rows, and nothing else |
| `Cleanup.BareDeleteStripsIff` | llm_service/runtime/cleanup.py:183-192 | without looking again, a surviving task would lose rows if and only if a proposed task was revived |
| `Cleanup.CleanupRun.BatchDeleteTxn` | llm_service/runtime/cleanup.py:183-216 | with others at work between its statements, a batch deletes exactly the proposed tasks still eligible when locked, and counts them and their rows |
| `Cleanup.CleanupRun.TaskBatch` | llm_service/runtime/cleanup.py:119-139 | a counted batch takes as many tasks out of the eligible set as there are, up to 1000, whatever others do; undisturbed it takes exactly those and counts them |
| `Cleanup.CleanupRun.DeleteTasks` | llm_service/runtime/cleanup.py:119-139 | the task loop stops drained, out of batches or out of time, with exact counts; of n eligible tasks at most n less 1000 a batch are left, and exactly so if undisturbed |
| `Cleanup.CleanupRun.DeleteCalls` | llm_service/runtime/cleanup.py:141-160 | the model-call loop likewise, with 5000 a batch; every call it deletes was eligible and every other one survives |
| `Cleanup.CleanupRun.CountAll` | llm_service/runtime/cleanup.py:219-244 | all zero means nothing eligible is left; otherwise something was when counting began |
| `Cleanup.CleanupRun.RunCleanup` | llm_service/runtime/cleanup.py:78-180 | deletes only tasks finished before the cutoff and in scope, whole; orphans nothing; the eligible sets never grow and shrink by 1000 tasks or 5000 calls a batch while there are that many; undisturbed, what is deleted and what is left make up what was eligible; `truncated` is reported if and only if eligible rows remained when it last looked, and only after 500 batches or 90 seconds |
| `Cleanup.DrainedMeans` | llm_service/runtime/cleanup.py:44-54 | nothing is left exactly if no finished task in scope was over before the cutoff and no call in scope is older |
| `Cleanup.ShrinksOnly` | llm_service/runtime/cleanup.py:119-160 | what others do between batches never makes a row eligible |
| `Cleanup.TallyGrows` | llm_service/runtime/cleanup.py:136-138 | the reported counts are the numbers of rows deleted |
| `PipelinePlaces.NextCopies` | knowledge_mining/mining/pipeline.py:255-385 | every step keeps each document in exactly one place: a queue, a hand or the results |
| `PipelineShutdown.NextPhased` | knowledge_mining/mining/pipeline.py:373-380 | every step keeps items before sentinels and as many sentinels to come as workers alive |
| `PipelineShutdown.NoDeadlock` | knowledge_mining/mining/pipeline.py:368-385 | with a worker in every stage, some step is always possible until the call returns |
| `PipelineTermination.NextStepsLeft` | knowledge_mining/mining/pipeline.py:255-385 | every step uses up exactly one of the steps left |
| `PipelineRuns.ReturnsExpected` | knowledge_mining/mining/pipeline.py:368-385 | under every schedule the result at position k is document k after all stages in order, errors and skips included |
| `PipelineMeaning.ReturnsEndOfPassage` | knowledge_mining/mining/pipeline.py:280-322 | which is the end of its one passage: a stage runs on what it is handed, an exception leaves the document with the first 500 characters of the message as its error, and a tracked document with an error is passed on |
| `PipelineMeaning.NoFailure` | knowledge_mining/mining/pipeline.py:297-322 | without exceptions and errors position k holds the plain composition of the stages on document k |
| `PipelineMeaning.FirstException` | knowledge_mining/mining/pipeline.py:297-309 | after the first exception a tracked document comes back as it was handed to that stage, with the error; an untracked one, or one with an empty message, goes through the later stages in that state |
| `PipelineMeaning.PassedOverIsFinal` | knowledge_mining/mining/pipeline.py:280-285 | a tracked document that carries an error comes back as it is |
| `PipelineRuns.RunsAreBounded` | knowledge_mining/mining/pipeline.py:368-385 | no schedule is longer than a bound computed from items, stages and workers |
| `PipelineRuns.StuckMeansFinished` | knowledge_mining/mining/pipeline.py:368-385 | a schedule that cannot go on has returned the sequential answer |
| `PipelineRuns.UnstaffedNeverReturns` | knowledge_mining/mining/pipeline.py:340-366 | given documents, the call returns under no schedule if a stage has no worker |
| `PipelineRuns.SortedIsExpected` | knowledge_mining/mining/pipeline.py:385 | sorting by sequence id restores the input order |
| `PipelineMeaning.ProcessAll` | knowledge_mining/mining/pipeline.py:368-385 | under any scheduler that picks enabled steps the call terminates, and returns at each position the end of that passage |
| `RerankBatches.SplitBatches` | llm_service/providers/bigmodel_models.py:243-275 | a cut of the documents into consecutive batches within both limits, each closed only when the next document would not fit |
| `RerankBatches.CharsAreText` | llm_service/providers/bigmodel_models.py:262-265 | the characters that are counted are those of all the texts of a batch |
| `RerankBatches.GreedyIsOptimal` | llm_service/providers/bigmodel_models.py:243-275 | no other cut under the same rule makes fewer calls |
| `RerankBatches.GreedyIsUnique` | llm_service/providers/bigmodel_models.py:243-275 | only one cut closes that late |
| `RerankMerge.RebuildIndices` | llm_service/providers/bigmodel_models.py:278-308 | the in-place pass gives every answer the first unused position of its text, or -1 |
| `RerankMerge.PlacedByRank` | llm_service/providers/bigmodel_models.py:278-308 | an answer gets -1 if and only if its text was already answered as often as it occurs |
| `RerankMerge.PlacesAreDistinct` | llm_service/providers/bigmodel_models.py:278-308 | positions found by text never repeat |
| `RerankMerge.MixedPositionsMayCollide` | llm_service/providers/bigmodel_models.py:295-307 | the case of a repeated position arises: two answers, one document |
| `RerankPositions.UsedWhileInTime` | llm_service/providers/bigmodel_models.py:278-308 | which documents are taken: those given, and of the others with a text the first ones, as many as there were answers with this text and no position |
| `RerankPositions.PositionsDifferIff` | llm_service/providers/bigmodel_models.py:278-308 | for every mixture of given and missing positions, no two answers name one document if and only if each given position is given once and lies beyond the documents its earlier answers of that text have to take |
| `Rerank.MergeBatches` | llm_service/providers/bigmodel_models.py:181-208 | one call per batch, merged by score, is the best n texts of all documents; an error is some call's error |
| `Rerank.MergeIsTop` | llm_service/providers/bigmodel_models.py:205-208 | the merged and cut answers are the best n texts, each no more often than it occurs |
| `Rerank.RebuiltOwnPlaces` | llm_service/providers/bigmodel_models.py:210-216 | every answer then names a document of its own that reads like it: no position is missing or repeated |
| `Rerank.RestoredIsGlobal` | llm_service/providers/bigmodel_models.py:217-220 | with the original texts restored these are the best n documents, by the score of what was sent of each |
| `Rerank.RestoreOriginals` | llm_service/providers/bigmodel_models.py:176-179 | exactly the answers with a valid position get the untruncated text |
| `Rerank.Rerank` | llm_service/providers/bigmodel_models.py:132-223 | with a provider that scores and echoes each document once, in calls of at most 128 documents within the character limit and of texts of at most 4096 characters, the request returns the best n by the score of each document's first 4096 characters, with distinct right positions, in one batch or many |
| `DdlSplit.SplitDdl` | llm_service/pg_schema.py:113-144 | the index loop computes the cut after each semicolon outside `$$` |
| `DdlSplit.SplitIsWellCut` | llm_service/pg_schema.py:113-144 | every statement but possibly the last ends in its only semicolon outside `$$`, and no `$$` region is cut |
| `DdlSplit.OnlyWhiteSpaceIsLost` | llm_service/pg_schema.py:113-144 | only white space at the ends of statements is lost |
| `DdlSplit.SplitAgain` | llm_service/pg_schema.py:113-144 | splitting the statements put end to end gives the same list |
| `Sanitizer.SanitizeBudget.Enter` | mcp_server/access_records.py:127-132 | refuses and marks truncation exactly when no node is left |
| `Sanitizer.SanitizeBudget.Consume` | mcp_server/access_records.py:134-143 | charges exactly the size, or refuses and marks truncation |
| `Sanitizer.SanitizeJson` | mcp_server/access_records.py:150-222 | the recursion that updates the shared budget computes the traversal below |
| `Sanitizer.SanitizeDict` | mcp_server/access_records.py:163-188 | the loop over a dictionary |
| `Sanitizer.SanitizeList` | mcp_server/access_records.py:189-206 | the loop over a list |
| `SanitizerLaws.BudgetNeverNegative` | mcp_server/access_records.py:120-143 | for every tree neither budget rises or falls below zero, and truncation sticks |
| `SanitizerLaws.NoSensitiveKeySurvives` | mcp_server/access_records.py:150-222 | no sensitive key is left at any depth, whatever is truncated |
| `SanitizerLaws.DepthIsBounded` | mcp_server/access_records.py:157-159 | nothing below depth 64 is visited, so the output is at most that deep, markers included |
| `SanitizerExact.UntruncatedIsRedacted` | mcp_server/access_records.py:150-222 | if truncation is not marked: the input without its sensitive keys, all of them reported in order, and a budget down by exactly the cost |
| `SanitizerExact.EnoughIsEnough` | mcp_server/access_records.py:150-222 | a tree whose cost the budget covers, with a byte to spare if a list item comes last, is never truncated |
| `SanitizerExact.TruncatedIff` | mcp_server/access_records.py:120-222 | truncation is marked if and only if the bytes, nodes or levels of the tree exceed the limits, or its last byte is used up before a list item |
| `SanitizerExact.TruncationIsMarked` | mcp_server/access_records.py:225-232 | a call that marks truncation leaves a marker in what it returns |
| `SanitizerExact.CutOnlyWhenNeeded` | mcp_server/access_records.py:150-232 | a capture is the redacted payload exactly if it is within all limits, and otherwise carries a marker |
| `RedactionPaths.ReportedIff` | mcp_server/access_records.py:163-170 | an untruncated capture reports exactly the written-out ways to the keys it removed, through keys that it kept |
| `RedactionPaths.ChargeIsText` | mcp_server/access_records.py:134-143 | a scalar is charged the UTF-8 bytes of its text |
| `RedactionPaths.MarkersTell` | mcp_server/access_records.py:157-222 | what stands in the place of a value that was not taken names the reason; for a text also its size and the part that fits |
| `RedactionPaths.CutDictTells` | mcp_server/access_records.py:171-175 | a dictionary cut at a key says so among its members, with the number left out |
| `RedactionPaths.CutListTells` | mcp_server/access_records.py:191-203 | a cut list ends in an item that says why and how many are left out |
| `SensitiveKeys.SeparatorsDoNotHide` | mcp_server/access_records.py:115-117 | separators put into a key do not hide it |
| `SensitiveKeys.OwnNamesArePlain` | mcp_server/access_records.py:146-147 | none of the names the sanitizer writes is sensitive |
| `SensitiveKeys.SensitiveIffMarked` | mcp_server/access_records.py:115-117 | a key is flagged if and only if one of the twelve markers is spelled in it once casefolded, other characters but letters and digits put in between |
| `SensitiveKeys.WrittenOutIsSensitive` | mcp_server/access_records.py:40-43 | in terms of the key itself: any text, a marker in letters of either case with separators anywhere, any text |
| `CapturedKeys.NoMarkedKeyIsCaptured` | mcp_server/access_records.py:109-222 | at no depth does a capture hold a key in which a marker is spelled |
| `CapturedKeys.CapturedKeysIff` | mcp_server/access_records.py:163-188 | an untruncated capture holds exactly the keys in which none is spelled and that stand below none in which one is |
| `Json.PreviewIsLongest` | mcp_server/access_records.py:214-216 | decoding a cut byte string with errors ignored keeps the longest prefix of characters that fits |
| `JsonText.ObjBytes` | mcp_server/access_records.py:109-112 | the size of an object does not depend on the order of its keys |
| `JsonText.SortedByKey` | mcp_server/access_records.py:109-112 | the members of an object are written in the order of their keys, each once |
| `JsonText.KeyLessIff` | mcp_server/access_records.py:109-112 | that order is by code points, a beginning before what it begins |
| `JsonText.UnescapeEscape` | mcp_server/access_records.py:109-112 | an escaped text reads back as it was |
| `JsonText.PrefixIsSmaller` | mcp_server/access_records.py:284-294 | a longer prefix of a list never takes less space |
| `JsonText.PutBytes` | mcp_server/access_records.py:281 | replacing a value changes the size by the difference of the values |
| `JsonText.EscapedAtLeast` | mcp_server/access_records.py:258-261 | every character takes at least a byte under the escapes of section 7 of RFC 8259 |
| `JsonSize.EncodedSize` | mcp_server/access_records.py:109-112 | the size of an encoding is a sum over the value: quotes, separators, UTF-8 bytes and two or six bytes for an escape |
| `BoundedJson.EnvelopeBytes` | mcp_server/access_records.py:245-262 | an envelope takes 141 bytes, the digits of the size, 35 more if the sanitizer cut, and its escaped preview |
| `BoundedJson.TruncationEnvelope` | mcp_server/access_records.py:245-262 | the shrinking loop runs at most once and leaves an envelope that fits or has no preview; the preview is all that the limit leaves, less a character for each byte too many |
| `BoundedJson.EnvelopeFitsIff` | mcp_server/access_records.py:245-262 | the envelope fits if and only if its fixed part does |
| `BoundedJson.CutsGrow` | mcp_server/access_records.py:284-294 | keeping more items never takes less space; keeping all is the payload |
| `BoundedJson.LongestPrefix` | mcp_server/access_records.py:284-291 | the binary search finds the longest prefix of the collection that fits, never the whole |
| `BoundedJson.CutKeyIsFirst` | mcp_server/access_records.py:275-283 | the collection that is cut is the first of the seven keys whose list has items and without them leaves room |
| `BoundedJson.CutMeans` | mcp_server/access_records.py:281-292 | a cut payload has the first items of that collection and is otherwise unchanged |
| `BoundedJson.BoundJson` | mcp_server/access_records.py:265-302 | stores the payload if it fits, else cuts the first collection that leaves room as little as possible, else an envelope; with 512 bytes or more it never exceeds the limit |
| `UploadTickets.Registry.Sweep` | mcp_server/access_records.py:567-578 | removes exactly the tickets of expired groups |
| `UploadTickets.Registry.Register` | mcp_server/access_records.py:450-473 | one group for the uploads, its tickets taken over from earlier groups |
| `UploadTickets.Registry.Complete` | mcp_server/access_records.py:476-551 | counts a live ticket once and returns its payload, nothing for any other |
| `UploadTickets.RegisterKeeps` | mcp_server/access_records.py:450-473 | registering keeps every group within bounds: completed plus waiting at most its tickets, at most its uploads |
| `UploadTickets.CompleteKeeps` | mcp_server/access_records.py:476-551 | so does completing, terminal or not |
| `UploadTickets.CountersAreAnswers` | mcp_server/access_records.py:485-490 | in every run the counters of a group are what the run answered for it, failures included, never more than its uploads |
| `UploadTickets.TicketCountsOnce` | mcp_server/access_records.py:484 | in every run a ticket counts at most once in a group |
| `UploadTickets.OneTerminalAnswer` | mcp_server/access_records.py:488-551 | in every run a group answers terminally at most once, when its last upload completes, and then has no ticket left |
| `UploadTickets.PayloadTells` | mcp_server/access_records.py:488-536 | every payload accounts for the uploads completed so far, is pending until all are, and then says failed if and only if one failed, with the error brought or a general one |
| `UploadTickets.TicketOfPath` | mcp_server/access_records.py:468-471 | the ticket is what follows the last slash of the path |
| `UploadTickets.TtlIsLeast` | mcp_server/access_records.py:554-564 | a group lives as long as the shortest lifetime asked for, between one second and ten minutes |
| `UploadTickets.RegisteredIsAlive` | mcp_server/access_records.py:450-473 | the tickets of a new group are its own and alive exactly until it expires |
| `UploadTickets.CanFinishIff` | mcp_server/access_records.py:476-551 | in every state, a group can still become terminal if and only if what is counted and the tickets it waits for, none after its expiry, make up its uploads |
| `UploadTickets.RunCanFinishIff` | mcp_server/access_records.py:476-551 | the same after any run, in terms of the answers given; such a group has as many tickets as uploads |
| `UploadTickets.NewGroupCanFinishIff` | mcp_server/access_records.py:450-473 | a group just registered can become terminal if and only if every upload brought a ticket and no two the same |
| `UploadTickets.ExpiredIsGone` | mcp_server/access_records.py:567-578 | after a sweep nothing of an expired group is left and nothing is answered for it |
| `UploadTickets.SiblingsAreOwnIff` | mcp_server/access_records.py:544-546 | removing the siblings of a finished group takes nothing from other groups if and only if none of its tickets is in use there |
| `OnenetPaths.SplitPathOfJoin` | onenet_query/app.py:321-322 | splitting undoes joining for trimmed, non-empty segments without the separator |
| `OnenetPaths.SplitPathSegments` | onenet_query/app.py:321-322 | splitting any path yields only such segments |
| `OnenetPaths.CanonicalPath` | onenet_query/app.py:321-322 | joining what was split keeps the segments, and doing it again changes nothing |
| `OnenetPaths.SplitArrowOfJoin` | onenet_query/app.py:400-401 | splitting on the separator string gives the same segments |
| `OnenetPaths.FileHitIff` | onenet_query/app.py:686-694 | the string test of the endpoint equals the segment prefix test exactly on canonical subtrees; any other spelling never matches |
| `OnenetSelect.MatchesPath` | onenet_query/app.py:433-443 | true exactly when no subtree is given or the own segments start with those of one |
| `OnenetSelect.MatchedFileSlicesMatch` | onenet_query/app.py:682-694 | every slice of a matched file satisfies `matches_path` |
| `OnenetSelect.MatchedIffInSubtree` | onenet_query/app.py:686-694 | for canonical subtrees a file is matched if and only if its segments lie in one of them |
| `OnenetSelect.RejoinedFile` | onenet_query/app.py:687-688 | the endpoint's split and join of a file path changes nothing |
| `OnenetSelect.VerifyKeyTells` | onenet_query/app.py:456 | verification compares nothing for a missing id, a zero and an empty text, and the text of the id for any other |
| `OnenetSelect.TextCount` | onenet_query/app.py:682-683 | in a verified workspace the distinct id texts are as many as the slices, one fewer if two clash |
| `OnenetSelect.MatchedCounts` | onenet_query/app.py:686-695 | the counts of the matched files add up to the slices in them |
| `OnenetSelect.SelectionCounts` | onenet_query/app.py:682-701 | matched slices are at most matched ids, if and only if no two selected ids clash or some selected slice lies in a file that is not matched |
| `OnenetSelect.SelectChapters` | onenet_query/app.py:667-704 | the endpoint returns those files, their total and the number of distinct ids |
| `OnenetRestore.RestoreFiles` | onenet_query/app.py:377-414 | the files in the order of their first parts, each with its rows, and the slices without a path |
| `OnenetRestore.FileOfPath` | onenet_query/app.py:384-390 | the file of a slice is its path without package and heading, as far as these leave something |
| `OnenetRestore.InfoMeans` | onenet_query/app.py:397-410 | a file is described by its last segment, the heading of its first row, the number of its rows, and their least and greatest part |
| `OnenetRestore.LastSortIsIdle` | onenet_query/app.py:411 | the final sort by least part changes nothing |
| `OnenetRestore.RestorationConserves` | onenet_query/app.py:377-414 | the file counts add up to the slices with a path; with the unassigned they make up all |
| `OnenetRestore.PreviewIsTheGroup` | onenet_query/app.py:650-661 | the preview's filter selects exactly the rows of the file, in the restored order |
| `Grouping.CountsAddUp` | onenet_query/app.py:382-395 | every row is in exactly one group or has none |
| `Grouping.GroupsAscend` | onenet_query/app.py:382-395 | groups come in the order of the parts of their first rows |
| `OnenetTree.PathTree.Insert` | onenet_query/app.py:335-341 | walking one path down turns the tree of the paths so far into the tree with it |
| `OnenetTree.BuildPathTree` | onenet_query/app.py:325-342 | each node counts the slices strictly below it, carries its joined path and depth, and lists its children in order of first appearance |
| `OnenetTree.CountsFlowDown` | onenet_query/app.py:325-342 | each node counts exactly the slices that end at one of its children and those counted there |
| `OnenetTree.TreeAgreesWithRestoration` | onenet_query/app.py:325-414 | the root count, the restored slice count and the sum over the files are the same number |
| `OnenetFetch.FetchSegments` | onenet_query/app.py:511-522 | the loop computes the cut into consecutive segments |
| `OnenetFetch.CutIsExact` | onenet_query/app.py:511-522 | the segments cover exactly the range, each part once, none wider than 10000 and all but the last exactly so |
| `OnenetFetch.GrownSourceOverlapsIff` | onenet_query/app.py:514-527 | files kept from a run before the source grew repeat no part if and only if their last segment was a full one |
| `OnenetFetch.VerifySlices` | onenet_query/app.py:450-478 | accepts if and only if ids are distinct and, unless part numbers repeat, none up to the greatest is missing; a rejection counts the repeated ids and the missing numbers |
| `OnenetFetch.MissingClashesWithNone` | onenet_query/app.py:453-461 | the case arises: verification accepts a missing id beside the text None, and ticking their file gives two matched slices and one matched id |
| `OnenetFetch.AcceptedPartsArePermutation` | onenet_query/app.py:450-478 | accepted positive part numbers that do not repeat are exactly 1 to n |

## Left out

- TaskTable.TaskManager.Claim: no row is locked by another transaction while it picks; with SKIP LOCKED a locked first row would be passed over. In `TaskProtocol` any available row may be claimed, so nothing proved there depends on the order.
- TaskTable.TaskManager.Retry: its read and its write are one step; `TaskProtocol` also allows the write without the check, so what `EveryInterleaving` and `UndoneSuccess` prove does not depend on it.
- ManagerSteps.Fail: the call is not interrupted between its statements; `TaskProtocol` allows any step there.
- UndoneSuccess.CanBeUndoneIff: says that a continuation exists; how likely the schedule is depends on lease and provider times, which are left out.
- RerankPositions.PositionsDifferIff: a position the provider gives is kept as it is, right or wrong; only repetition is characterised.
- EveryInterleaving.CountsAlwaysFit: limits are at least one, which the request models enforce.
- SoundRuns.OneOwner: assumes sound leases as described above; without them it fails, as `LateWorkers` shows.
- Executor.ClosedExactlyOnce: cancellation of a worker task is a restart of the protocol, not an exception here; JSON decoding of the request is part of reading it.
- Executor.ClosedExecutionRuns: one worker alone with its task, whose next attempt number is free; sound leases give it both.
- EmbeddingCheck.ValidateEmbeddingResult: all rejections carry the same error type; their messages are left out.
- ResultFold.GetTasksBatch: the three queries may see the tables at different moments; the answer is compared with that of single queries that see each table at the same moment as they do. `AttemptNumbers.LaterQueryAgrees` relates the moments for results, nothing does for errors. The mapping of rows to response dictionaries is left out.
- Idempotency.FindExistingTask: one snapshot, in which equal creation times come in one fixed order; the canonical form of a request is its fingerprint.
- Idempotency.AtMostOneLiveTask: runs without manual retry and without the synchronous path, which writes rows without a lookup; the lookup is atomic under the submit lock of one process.
- Cleanup.CleanupRun.RunCleanup: one cleanup at a time, rows written during a run finish after the cutoff, and the dry run with its table sizes is left out.
- Rerank.Rerank: for documents that are present; an answer for a missing one reads as an empty text, and `RerankMerge.PlacedByRank` says when such an answer is not found. Usage totals are left out.
- PipelineRuns.ReturnsExpected: stage functions are parameters that keep the sequence id; stage events, summaries and exceptions that are not `Exception` are left out, and a pipeline is used once.
- SanitizerLaws.NoSensitiveKeySurvives: string-keyed JSON only, so dates and foreign values, which become strings, are left out; text is Unicode scalar values, so lone surrogates do not occur.
- SensitiveKeys.SensitiveIffMarked: case folding is exact on ASCII and a parameter elsewhere.
- BoundedJson.BoundJson: the digest is a parameter; the size bound is for payloads of fewer than 10 to the 336 bytes.
- UploadTickets.OneTerminalAnswer: each operation is atomic under the lock; the captured payload and the sanitized result it accumulates are left out, and a URL is its path.
- OnenetRestore.RestoreFiles: the sorted list of folders and the rendered markdown are left out.
- OnenetSelect.SelectChapters: the payload written to disk is left out.
- OnenetFetch.FetchSegments: what the service returns for a segment, and retries, are left out; part files are whole or absent.
- Event rows, latencies, token usage and logs are left out everywhere.
- PostgreSQL, psycopg, asyncio and threads appear only as atomic statements, a logical clock and interleaved steps.
- Providers, output parsing, schema validation and hashing are parameters or free choices.
- HTTP routing, authentication, configuration, supervision, the user interface, export and import scripts, the mining stages and the MCP tool handlers are left out.
