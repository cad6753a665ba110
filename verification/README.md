# Seahorse: verified models of its schedulers, breakers, retrieval and bookkeeping

This project models the stateful core of Seahorse in Dafny and proves what that core is
meant to guarantee. Each file is one module.

| files | what they model |
|---|---|
| `DependencyGraph`, `DependencyLevels`, `Orchestrator`, `OrchestratorRuns`, `OrchestratorStops`, `Critic` | the hybrid planner: subtask graph, ready batches, trials, verdicts and resets, why a run stops, and the critic's rules |
| `GlobalBreaker`, `BreakerProgress`, `BreakerResets` | the lock-free global circuit breaker: one packed 64-bit word, racing compare-and-swap loops |
| `Text`, `KnowledgeBase` | splitting a file into paragraphs while it is read, and cutting paragraphs into bounded chunks |
| `Correlation` | the Pearson coefficient from running sums |
| `AgentMemory`, `MemoryGuarantees` | over-fetching nearest-neighbour search with penalties, and when it is right |
| `RankFusion` | reciprocal rank fusion of result lists |
| `AgentWorker`, `WorkerTermination`, `WorkerAnswers`, `WorkerLoop` | task queue, worker loop, supervisor and response channels |
| `Executor`, `ExecutorRuns`, `ExecutorEnds`, `ReActLoop` | the ReAct step loop with its per-request breaker, loop guard and observation budget |
| `Feedback` | consensus penalties over a sliding history |
| `Pruning`, `MessageCleaning` | context pruning and history normalisation |
| `Ledger`, `LedgerSales`, `LedgerRun` | the data generator's inventory, purchase-order and revenue books |
| `Options`, `Sequences` | values that may be absent; lists up to order |

The pattern is the same throughout. Code that changes state is an imperative method or class
whose postcondition ties the new state to a specification function; the theorems are proved
about that function, or stated in terms that do not mention it. Concurrency (the global
breaker, the worker) is a transition system over single atomic steps, and its theorems hold in
every interleaving. Whatever the outside world decides is an input: model replies, tool
results, subtask outcomes, critic verdicts, clocks, random draws, index answers, and where
reads, timeouts and disconnects fall.

Where the code and its own words differ, the model follows the code:

- `memory/mod.rs` says that search "returns the true Top K". `SearchMisses` gives a memory and
  distances for which it does not. `AlwaysTopKIff` says exactly which memories are safe whatever
  the distances: those with at most 5k points, or with at most 4k points that are removed or
  carry more than the least penalty. `GuaranteedIff` says what an answer already obtained
  guarantees.
- An id that is inserted again, even after its removal, has two points, and its old embedding
  answers for the new document (`EveryPointAnswers`). `NeverTwiceIff` says that this is exactly
  when a search can return a document twice.
- A targeted replan (`hybrid_orchestrator.py:392`) resets the named subtasks and not their
  dependents, so a done subtask can be left with a dependency that is not done.
  `ReplanKeepsDoneClosedIff` says exactly when that happens, and `ReplanBreaksDoneClosed` is a
  run in which it does. `PartialDeadlocksNextIff` says exactly when the trial after a partial
  verdict stops in a deadlock, and `PartialDeadlockHappens` is such a run. The verdicts of both
  runs are ones that the critic's own rules leave to its model.
- A reset of the global breaker uses compare-and-swap "to avoid losing a concurrent failure
  record" (`circuit_breaker.rs:62`). The word can return to the value that was loaded:
  `LaterFailuresLost` is a run in which a reset discards 30 failures recorded after its load,
  though no clock ever falls. `ResetSucceedsIff` says exactly when a reset takes place, and
  `ResetKeepsLaterFailures` that it discards nothing later while the count is not saturated and
  failures are logged in the order of their clock readings.
- A call that records a failure on the global breaker can be beaten again and again.
  `CallsReturn` bounds its steps by the events that beat it.
- Cleaning a history raises a `KeyError` on some user or system messages that carry only a tool
  id. `KeyErrorIff` says exactly on which, and `KeyErrorHappens` is one.
- Pruning a history can keep a tool message and cut off the message that called the tool.
  `PairedIff` says for which histories and budgets it does not, and `OrphanHappens` is a history
  where it does, with the default budget.

## Model

| member | source | states |
|---|---|---|
| `DependencyGraph.ReadyUpTo` | python/seahorse_ai/planner/hybrid_schemas.py:49-56 | the ready list holds exactly the pending subtasks whose dependencies are all done, in list order, each once |
| `DependencyGraph.ScheduleReachesLeastFixedPoint` | python/seahorse_ai/planner/hybrid_orchestrator.py:150-175 | any order of running ready subtasks, once nothing is ready, ends with the done set the least fixed point of "succeeds and all dependencies done"; left pending is exactly what depends on something outside it |
| `DependencyGraph.SchedulesAgree` | python/seahorse_ai/planner/hybrid_orchestrator.py:150-175 | two exhaustive schedules, parallel or one at a time, end in the same statuses |
| `DependencyGraph.BatchesAreStages` | python/seahorse_ai/planner/hybrid_orchestrator.py:143-175 | batch b runs exactly what is ready after b batches; the loop terminates, and stops when nothing is ready |
| `DependencyGraph.TrialReachesLeastFixedPoint` | python/seahorse_ai/planner/hybrid_orchestrator.py:143-175 | the batch loop of a trial ends in the least fixed point, in the same statuses as every other exhaustive schedule |
| `DependencyGraph.StartsWithDepsDone` | python/seahorse_ai/planner/hybrid_orchestrator.py:164-167 | a subtask starts only while pending and with every dependency done |
| `DependencyGraph.StartsOnce` | python/seahorse_ai/planner/hybrid_orchestrator.py:150-175 | a trial runs a subtask at most once |
| `DependencyGraph.NeverAlongsideDependency` | python/seahorse_ai/planner/hybrid_orchestrator.py:164-167 | with unique ids a subtask never shares a batch with one of its dependencies |
| `DependencyGraph.TrialRunsAtMostPending` | python/seahorse_ai/planner/hybrid_orchestrator.py:150-175 | a trial runs at most as many subtasks as stop being pending |
| `DependencyLevels.BatchIsLevel` | python/seahorse_ai/planner/hybrid_schemas.py:49-56 | in a fresh trial with unique ids, existing dependencies and no failure, batch b is exactly the subtasks whose longest dependency chain has length b |
| `DependencyLevels.LongestChainIsBatchCount` | python/seahorse_ai/planner/hybrid_schemas.py:49-59 | then, if chains are bounded, the loop needs exactly as many batches as the longest chain has subtasks, and all is done |
| `DependencyLevels.RankBoundsChains` | python/seahorse_ai/planner/hybrid_schemas.py:49-56 | with unique ids a ranking of the subtasks bounds every dependency chain, so acyclic graphs have bounded chains |
| `DependencyLevels.SchedulableRunsByLevel` | python/seahorse_ai/planner/hybrid_schemas.py:49-59 | with unique ids and no failure a fresh trial on a schedulable graph runs level b in batch b, needs as many batches as the longest chain has subtasks, and finishes everything |
| `DependencyLevels.CompletesIffSchedulable` | python/seahorse_ai/planner/hybrid_schemas.py:49-59 | without failures a fresh trial finishes everything if and only if the graph can be ranked: no cycle and no missing dependency |
| `DependencyLevels.RankedHasReady` | python/seahorse_ai/planner/hybrid_schemas.py:49-56 | in such a graph with only done and pending subtasks something is ready unless all is done |
| `Orchestrator.RunConcurrently` | python/seahorse_ai/planner/hybrid_orchestrator.py:151-167 | a batch's results do not depend on the order in which its subtasks complete |
| `Orchestrator.StoreOutcomes` | python/seahorse_ai/planner/hybrid_orchestrator.py:169-171 | each result sets the status and the summary of its own node and of no other |
| `Orchestrator.RunBatch` | python/seahorse_ai/planner/hybrid_orchestrator.py:151-173 | one batch moves exactly the ready nodes to done or failed |
| `Orchestrator.RunTrial` | python/seahorse_ai/planner/hybrid_orchestrator.py:143-175 | the imperative batch loop ends in the statuses, results and step count the specification gives |
| `Orchestrator.TargetedReplan` | python/seahorse_ai/planner/hybrid_orchestrator.py:392-399 | exactly the nodes whose ids are named become pending and lose their summary |
| `Orchestrator.RetryUndone` | python/seahorse_ai/planner/hybrid_orchestrator.py:211-214 | exactly the nodes that are not done become pending |
| `Orchestrator.OuterStep` | python/seahorse_ai/planner/hybrid_orchestrator.py:136-214 | one trial: timeout and deadlock exits, running, recording, and the reset its verdict asks for |
| `Orchestrator.RunTrials` | python/seahorse_ai/planner/hybrid_orchestrator.py:132-214 | the outer loop over the nodes in place computes the specified run: statuses, recorded trials, step total and reason to stop |
| `OrchestratorRuns.StepsAreConserved` | python/seahorse_ai/planner/hybrid_orchestrator.py:169-185 | over a whole run total_steps is the sum of the steps of all recorded results, and each trial record carries the sum so far |
| `OrchestratorRuns.OneResultPerExecution` | python/seahorse_ai/planner/hybrid_orchestrator.py:169-173 | a trial returns one result per subtask it executed |
| `OrchestratorRuns.ResultsAreExecutions` | python/seahorse_ai/planner/hybrid_orchestrator.py:150-173 | a trial's results are, in order, those of the subtasks of its batches |
| `OrchestratorRuns.RunStartsWithDepsDone` | python/seahorse_ai/planner/hybrid_orchestrator.py:132-214 | every recorded trial of every run, whatever the verdicts, began in the state the run was then in, and in it a subtask starts only with its dependencies done |
| `OrchestratorRuns.ExecutionsBounded` | python/seahorse_ai/planner/hybrid_orchestrator.py:136-175 | a run executes at most max_trials times the number of nodes |
| `OrchestratorRuns.TrialKeepsDoneClosed` | python/seahorse_ai/planner/hybrid_orchestrator.py:150-175 | a trial keeps "every dependency of a done subtask is done" and never undoes a done subtask |
| `OrchestratorRuns.ReplanKeepsDoneClosedIff` | python/seahorse_ai/planner/hybrid_orchestrator.py:392-399 | a targeted replan keeps that property if and only if no done subtask outside the named ones depends on a named one |
| `OrchestratorRuns.ReplanProgressIff` | python/seahorse_ai/planner/hybrid_orchestrator.py:209-210 | after a partial verdict something is ready if and only if it names a subtask all of whose dependencies stay done |
| `OrchestratorRuns.PartialDeadlocksNextIff` | python/seahorse_ai/planner/hybrid_orchestrator.py:143-146 | the exact condition under which the trial after a partial verdict takes the deadlock exit |
| `OrchestratorRuns.RejectNeverDeadlocks` | python/seahorse_ai/planner/hybrid_orchestrator.py:211-214 | on a schedulable graph the trial after a reject is never a deadlock |
| `OrchestratorRuns.WithoutPartialNoDeadlock` | python/seahorse_ai/planner/hybrid_orchestrator.py:132-214 | a run on a schedulable graph without partial verdicts never stops in a deadlock |
| `OrchestratorRuns.WithoutPartialDoneStays` | python/seahorse_ai/planner/hybrid_orchestrator.py:203-214 | without partial verdicts a done subtask stays done for the rest of the run |
| `OrchestratorStops.TrialExits` | python/seahorse_ai/planner/hybrid_orchestrator.py:136-214 | each exit of a trial with its condition: timeout, deadlock, pass; any other verdict resets the statuses as it asks and the run goes on |
| `OrchestratorStops.RunStops` | python/seahorse_ai/planner/hybrid_orchestrator.py:132-214 | a run stops as passed if and only if its last executed trial was passed, and no earlier one was; else every executed trial is followed by another unless the trials are used up, the time is up, or nothing is ready and something is neither done nor skipped |
| `Critic.MaySayPartialIff` | python/seahorse_ai/planner/critic.py:64-129 | a partial verdict is possible if and only if some subtask was not terminated, and some was or brought at most ten characters, or there were more than two |
| `Critic.RulesDecideIff` | python/seahorse_ai/planner/critic.py:97-129 | the rules reject if and only if no result is finished, and pass if and only if there are one or two, all finished and of more than ten characters |
| `Critic.AllFailedGoesOn` | python/seahorse_ai/planner/critic.py:110-116 | a trial in which every subtask was terminated is rejected, so on a schedulable graph the next one is not a deadlock |
| `Critic.PartialDeadlockHappens` | python/seahorse_ai/planner/hybrid_orchestrator.py:143-146 | of two independent subtasks one succeeds and one is terminated; the rules leave the verdict open, and a partial one that names nothing ends the run in a deadlock at the second trial |
| `Critic.ReplanBreaksDoneClosed` | python/seahorse_ai/planner/hybrid_orchestrator.py:209-210 | a subtask and its dependent succeed with short answers; the rules leave the verdict open, and a partial one that names the first leaves a done subtask on a pending dependency |
| `GlobalBreaker.UnpackPackIff` | crates/seahorse-ffi/src/circuit_breaker.rs:13-21 | unpacking gives back the packed timestamp and count if and only if the timestamp fits in 32 bits |
| `GlobalBreaker.PackUnpack` | crates/seahorse-ffi/src/circuit_breaker.rs:13-21 | every word is the packing of what it unpacks to |
| `GlobalBreaker.BitsRoundTrip` | crates/seahorse-ffi/src/circuit_breaker.rs:13-21 | the shift-and-or expressions themselves, on 64-bit vectors, invert each other for 32-bit parts |
| `GlobalBreaker.FoldIsStreak` | crates/seahorse-ffi/src/circuit_breaker.rs:36-41 | the sequential count is the saturated length of the longest run of failures, since a reset, with no gap over 60 seconds |
| `GlobalBreaker.WordIsFold` | crates/seahorse-ffi/src/circuit_breaker.rs:31-49 | in every interleaving, with stale clock readings and spurious failures, the word is the sequential fold of the successful swaps, and its count that streak |
| `GlobalBreaker.NoFailureLostOrRepeated` | crates/seahorse-ffi/src/circuit_breaker.rs:31-49 | in every interleaving each call of each thread is in that fold exactly once, in the thread's order |
| `GlobalBreaker.UnhealthyIffStreak` | crates/seahorse-ffi/src/circuit_breaker.rs:52-67 | a health check answers false if and only if at its load the streak had at least 30 failures, the latest under 60 seconds old by its clock |
| `GlobalBreaker.ResetsAreJustified` | crates/seahorse-ffi/src/circuit_breaker.rs:61-65 | a reset only ever discards a streak of at least 30 whose latest failure is at least 60 seconds old by the resetting thread's clock |
| `BreakerProgress.SwapEnabledIff` | crates/seahorse-ffi/src/circuit_breaker.rs:34-48 | in every interleaving, from its load or its last failed swap on, a call's next swap can succeed if and only if the tally is the one it then read |
| `BreakerProgress.FailsOnlyWhenBeaten` | crates/seahorse-ffi/src/circuit_breaker.rs:44-47 | so a swap that cannot succeed was beaten: an event was logged since |
| `BreakerProgress.CallsReturn` | crates/seahorse-ffi/src/circuit_breaker.rs:31-49 | while a call has not returned, its thread has taken at most two steps, and one more for each event logged meanwhile and each spurious failure |
| `BreakerProgress.ChecksReturn` | crates/seahorse-ffi/src/circuit_breaker.rs:52-67 | a health check takes at most two steps, and its swap ends it whether it succeeds or not |
| `BreakerProgress.LoggedAsBegun` | crates/seahorse-ffi/src/circuit_breaker.rs:31-49 | every call that began is logged once, with the clock reading it began with, in the thread's order; only the current one may be missing |
| `BreakerProgress.AnswersAsBegun` | crates/seahorse-ffi/src/circuit_breaker.rs:52-67 | a health check gives one answer, at its load and by the clock reading it began with |
| `BreakerResets.ResetSucceedsIff` | crates/seahorse-ffi/src/circuit_breaker.rs:54-63 | in every interleaving a reset takes place if and only if the tally of last failure and count is at its swap what it was at its load |
| `BreakerResets.ResetKeepsLaterFailures` | crates/seahorse-ffi/src/circuit_breaker.rs:61-65 | with an unsaturated count at the load and clock readings that fit in 32 bits and never fall in log order, a reset takes place if and only if nothing was logged since its load |
| `BreakerResets.LaterFailuresLost` | crates/seahorse-ffi/src/circuit_breaker.rs:61-65 | a run, with clock readings that never fall as they are taken, in which a reset discards 30 failures logged after its load |
| `Text.SplitIsSplit` | python/seahorse_ai/engines/knowledge.py:160 | splitting cuts at the leftmost separators: joining gives the text back and no part contains one |
| `Text.SplitUnique` | python/seahorse_ai/engines/knowledge.py:160 | no other list of parts does |
| `Text.SplitResumes` | python/seahorse_ai/engines/knowledge.py:159-163 | a split may go on from its last unfinished part when more text arrives |
| `Text.StripIs` | python/seahorse_ai/engines/knowledge.py:166-171 | stripping takes off white space at both ends, and all of it |
| `KnowledgeBase.StreamingIsWholeFile` | python/seahorse_ai/engines/knowledge.py:147-171 | however the reads fall, in the middle of a separator too, the stream is that of the whole text split at once |
| `KnowledgeBase.ParagraphsEndAtEmptyLine` | python/seahorse_ai/engines/knowledge.py:147-171 | a text without an empty line is one paragraph, and after an empty line another begins |
| `KnowledgeBase.ShortParagraph` | python/seahorse_ai/engines/knowledge.py:147-171 | a paragraph that fits is one chunk, stripped, and a blank one none |
| `KnowledgeBase.StreamText` | python/seahorse_ai/engines/knowledge.py:147-171 | the buffered read loop yields the whole-file chunks |
| `KnowledgeBase.Chunk` | python/seahorse_ai/engines/knowledge.py:179-217 | the chunking loops terminate for a positive bound and yield the specified chunks |
| `KnowledgeBase.ChunksBounded` | python/seahorse_ai/engines/knowledge.py:179-217 | every chunk has at most max_chars characters |
| `KnowledgeBase.ChunksPacked` | python/seahorse_ai/engines/knowledge.py:185-217 | a text too long for one chunk is cut into groups, each stripped to a chunk, that joined give the text with its newlines as spaces and one final separator, and of which no two neighbours would have fitted together |
| `KnowledgeBase.ChunksKeepText` | python/seahorse_ai/engines/knowledge.py:179-217 | white space apart, the chunks are the text in order, plus one final full stop when it was split |
| `KnowledgeBase.FittingSentenceUncut` | python/seahorse_ai/engines/knowledge.py:194-214 | a sentence that fits with its separator lies whole in one chunk, white space at its ends aside |
| `KnowledgeBase.StreamKeepsText` | python/seahorse_ai/engines/knowledge.py:165-171 | a streamed file loses only white space and gains one full stop for each paragraph that was cut |
| `Correlation.CovFromSums` | python/seahorse_ai/planner/handlers/polars.py:169-177 | the formula on running sums is the sum over all pairs of points of the products of their differences |
| `Correlation.CauchySchwarz` | python/seahorse_ai/planner/handlers/polars.py:176-177 | num squared is at most the product of the two variance terms, with equality exactly on a line |
| `Correlation.ArgumentNonNegative` | python/seahorse_ai/planner/handlers/polars.py:177 | the square root is only taken of a non-negative number |
| `Correlation.CoefficientBounds` | python/seahorse_ai/planner/handlers/polars.py:176-178 | the coefficient is between -1 and 1, the denominator vanishes exactly when an axis is constant, and the bounds are reached exactly on a line |
| `Correlation.CoefficientInvariant` | python/seahorse_ai/planner/handlers/polars.py:176-178 | a positive affine change of either axis leaves the coefficient alone |
| `Correlation.Accumulate` | python/seahorse_ai/planner/handlers/polars.py:169-175 | the loop computes the five sums |
| `Correlation.ParsedAre` | python/seahorse_ai/planner/handlers/polars.py:158-179 | the points are, in order, exactly the rows that parse |
| `Correlation.Scatter` | python/seahorse_ai/planner/handlers/polars.py:158-179 | rows that do not parse are skipped; with at least two points the coefficient is the covariance over the root of the variances, or 0, and between -1 and 1 |
| `AgentMemory.SearchShape` | crates/seahorse-core/src/memory/mod.rs:85-111 | the result is ascending, at most k long, and holds only live documents at their own distance plus their own penalty |
| `AgentMemory.SearchIsTopK` | crates/seahorse-core/src/memory/mod.rs:81-111 | with non-negative penalties: when everything was fetched, or the k-th result is no farther than the last raw distance fetched, the result is the true top k of all candidates |
| `MemoryGuarantees.GuaranteedIff` | crates/seahorse-core/src/memory/mod.rs:66-111 | an answer of at most 5k neighbours guarantees the true top k, for every memory with non-negative penalties and every exact index it could have come from, if and only if it has fewer than 5k or that check passes |
| `MemoryGuarantees.Missed` | crates/seahorse-core/src/memory/mod.rs:66-111 | on a full answer that fails the check, a memory and an exact index with one more point for which the search is wrong |
| `MemoryGuarantees.AlwaysTopKIff` | crates/seahorse-core/src/memory/mod.rs:66-111 | for any penalties: the search is the true top k for all distances if and only if k is 0, nothing is live, there are at most 5k points, or at most 4k points are removed or penalised above the least penalty |
| `MemoryGuarantees.AlwaysTopKIffFewPenalised` | crates/seahorse-core/src/memory/mod.rs:66-111 | with non-negative penalties and a live document that has none, that is at most 5k points, or at most 4k removed or penalised |
| `MemoryGuarantees.SearchMisses` | crates/seahorse-core/src/memory/mod.rs:81-111 | k = 1 and six documents: five penalised ones hide the one that should be returned |
| `MemoryGuarantees.SearchFindsTopK` | crates/seahorse-core/src/memory/mod.rs:70-112 | over an exact index a memory that passes that check before the search gets the true top k of all candidates |
| `MemoryGuarantees.OneCandidateEach` | crates/seahorse-core/src/memory/mod.rs:85-103 | when every live document has exactly one point, the candidates are the live documents, each once |
| `MemoryGuarantees.SearchFindsDocuments` | crates/seahorse-core/src/memory/mod.rs:70-112 | then the search returns the k nearest live documents by distance plus penalty, each once, all of them if there are no more than k |
| `MemoryGuarantees.MemoryFindsDocuments` | crates/seahorse-core/src/memory/mod.rs:70-112 | the same for a valid memory object |
| `MemoryGuarantees.NeverTwiceIff` | crates/seahorse-core/src/memory/mod.rs:60-61 | no search returns a document twice if and only if no live document has two points |
| `MemoryGuarantees.EveryPointAnswers` | crates/seahorse-core/src/memory/mod.rs:114-118 | every point of a live id is a candidate, those from before a removal too |
| `AgentMemory.Memory.Search` | crates/seahorse-core/src/memory/mod.rs:70-112 | a dimension mismatch is an error; otherwise filter, penalise, sort and truncate give the specified result |
| `AgentMemory.Memory.Insert` | crates/seahorse-core/src/memory/mod.rs:48-64 | a dimension mismatch changes nothing; otherwise the point and its document are added, and every live document has one point afterwards if and only if it had before and the id is new |
| `AgentMemory.Memory.Remove` | crates/seahorse-core/src/memory/mod.rs:116-118 | a soft delete: only the document goes, and it is returned; the points stay |
| `AgentMemory.Memory.UpdateMetadata` | crates/seahorse-core/src/memory/mod.rs:123-149 | two objects are merged with the new fields winning, anything else is overwritten, and a missing document is left missing |
| `AgentMemory.MergedFields` | crates/seahorse-core/src/memory/mod.rs:123-149 | after an update with an object a document has that object's fields and, of its own object's, those it does not name |
| `AgentMemory.StoredPenaltyCounts` | crates/seahorse-core/src/memory/mod.rs:123-149 | the penalty an update stores is the one search adds, until another is stored; without a number there is none |
| `RankFusion.ScoreOrderIndependent` | python/seahorse_ai/hindsight/recaller.py:221-260 | a record's score does not depend on the order of the lists |
| `RankFusion.ListScoreAt` | python/seahorse_ai/hindsight/recaller.py:260 | in a list of distinct ids a record gets the reciprocal of the constant plus its one rank, counted from 1 |
| `RankFusion.KeptIsRichest` | python/seahorse_ai/hindsight/recaller.py:262-287 | the merged record has the first longest text of its id, and the graph flag exactly if one record of that id has it |
| `RankFusion.FuseIsTopK` | python/seahorse_ai/hindsight/recaller.py:322-332 | as many distinct ids as were asked for and the lists have, each with its score, in non-increasing order; nothing omitted scores above a returned record |
| `RankFusion.FusedIsRichest` | python/seahorse_ai/hindsight/recaller.py:262-287 | every returned record carries that text and flag of its id |
| `RankFusion.TiesKeepOrder` | python/seahorse_ai/hindsight/recaller.py:322-332 | of two returned records with equal scores the one whose id appeared first comes first |
| `RankFusion.Dominance` | python/seahorse_ai/hindsight/recaller.py:214-332 | with distinct ids in each list, a record ranked ahead of another wherever the other appears precedes it in the result |
| `RankFusion.RrfFuse` | python/seahorse_ai/hindsight/recaller.py:214-332 | the loops over the two dictionaries compute the specified fusion |
| `AgentWorker.ServedInOrder` | crates/seahorse-core/src/worker/task_loop.rs:20-73 | in every interleaving accepted tasks are served first in first out, each once, and at most one, the current one, is tracked |
| `AgentWorker.StreamIsComplete` | crates/seahorse-core/src/worker/task_loop.rs:42-70 | a finished task's stream is the runner's tokens, or those before the timeout, and exactly one terminal message; a waiting caller still gets all of it, in order |
| `AgentWorker.Progress` | crates/seahorse-core/src/worker/task_loop.rs:20-73 | while an accepted task is unserved the worker can step, or the caller it waits for can take a message |
| `WorkerTermination.StepLeavesLess` | crates/seahorse-core/src/worker/task_loop.rs:20-73 | every step but a submission leaves less to send, take, track and answer |
| `WorkerTermination.FinitelyManySteps` | crates/seahorse-core/src/worker/task_loop.rs:20-75 | after the last submission every interleaving is finite, within a bound on its steps |
| `WorkerTermination.AtRestAllServed` | crates/seahorse-core/src/worker/task_loop.rs:20-75 | an interleaving that cannot go on has finished every accepted task, tracks none, and has left no caller waiting |
| `AgentWorker.Receive` | crates/seahorse-router/src/handlers.rs:65-75 | the receive loop gives the first error, or else the last message that is not metadata |
| `AgentWorker.FullResponseIff` | crates/seahorse-router/src/handlers.rs:65-81 | the handler returns the runner's full response if and only if no token and not the response starts with [ERROR] and the response does not start with [DONE] |
| `AgentWorker.AnswerIsHandlersAnswer` | crates/seahorse-router/src/handlers.rs:60-81 | in every interleaving a caller's answer is the handler's on the whole stream, even if it stopped at an error |
| `AgentWorker.SuccessIsFullResponse` | crates/seahorse-router/src/handlers.rs:60-81 | a successful answer means that the runner completed and all its messages were tried, and is its full response if and only if that does not start with [DONE] |
| `AgentWorker.RunAgentIs` | crates/seahorse-router/src/handlers.rs:65-81 | the handler answers with the first error if there is one, else with the last message that is not metadata, and with nothing if all are |
| `WorkerAnswers.AnswersAre` | crates/seahorse-router/src/handlers.rs:60-81 | in every interleaving, when no token looks like an error, an answer is the timeout's text, or the runner's failure with its reason, or what the runner responded |
| `WorkerAnswers.AtRestAllAnswered` | crates/seahorse-core/src/worker/task_loop.rs:20-75 | at rest every caller that has not hung up has been answered |
| `WorkerAnswers.WaitsIff` | crates/seahorse-core/src/scheduler.rs:39-63 | a submission waits exactly while 256 tasks are queued, a message exactly while its listening caller has 128 before it |
| `WorkerLoop.HeartbeatSupervisor.Track` | crates/seahorse-core/src/worker/supervisor.rs:53-55 | the task is active from now, no other entry changes |
| `WorkerLoop.HeartbeatSupervisor.Untrack` | crates/seahorse-core/src/worker/supervisor.rs:57-59 | the task is no longer active, no other entry changes |
| `WorkerLoop.Worker.Submit` | crates/seahorse-core/src/scheduler.rs:39-63 | one poll of a submission: refused when the worker is gone, waiting while the queue is full, else the system's step: a new empty channel, the task last in the queue |
| `WorkerLoop.Worker.ServeTask` | crates/seahorse-core/src/worker/task_loop.rs:22-72 | one turn of the loop, with any submissions, reads and disconnects in between, is a sequence of enabled steps that finishes exactly the first queued task |
| `WorkerLoop.Worker.Serve` | crates/seahorse-core/src/worker/task_loop.rs:20-75 | any number of turns so interleaved serve as many tasks or all that were queued, in order, leave nothing tracked, and every finished channel carries one whole stream and is closed |
| `WorkerLoop.PathInvariants` | crates/seahorse-core/src/worker/task_loop.rs:20-75 | every sequence of enabled steps keeps order, tracking and stream invariants |
| `Executor.TrailingRunIsMaximal` | python/seahorse_ai/planner/executor.py:179-186 | what the loop guard counts is the longest run of equal signatures at the end of all calls since construction |
| `Executor.GuardCalls` | python/seahorse_ai/planner/executor.py:173-193 | within a step the guard stops at the first call that completes three equal signatures, and at no other |
| `Executor.GuardStep` | python/seahorse_ai/planner/executor.py:178-193 | a step ends with infinite_loop if and only if some call in it makes three equal signatures in a row, counted across steps and runs |
| `Executor.BreakerStep` | python/seahorse_ai/planner/executor.py:112-245 | every step keeps: the breaker's count is the errors and timeouts recorded since the last step that reset it |
| `ExecutorRuns.BlockPaired` | python/seahorse_ai/planner/executor.py:149-225 | the messages a step appends have every call answered, in order, if and only if the loop guard did not end it |
| `ExecutorRuns.InvStep` | python/seahorse_ai/planner/executor.py:96-284 | a step keeps the breaker count, guard count, pairing and observation accounting together |
| `ExecutorRuns.RunKeepsInv` | python/seahorse_ai/planner/executor.py:82-292 | so does a whole run, whatever the model, the tools and the clock do |
| `ExecutorRuns.BeginInv` | python/seahorse_ai/planner/executor.py:91-94 | a first run starts with all of it, and so does a later one unless the count or the guard was left tripped |
| `ExecutorRuns.CountIsErrorsSinceSuccess` | python/seahorse_ai/planner/executor.py:195-245 | read off the inputs alone: after every continuing step the count is the tool errors and timeouts since the last step with a successful call, and is below 3 |
| `ExecutorRuns.BreakerEndsAtFirstReach` | python/seahorse_ai/planner/executor.py:112-245 | the breaker ends a run if and only if this step takes that count to 3 and neither the loop guard nor a crash ended it first |
| `ExecutorRuns.ToolStepExits` | python/seahorse_ai/planner/executor.py:173-253 | the exact exit of every step with tool calls, read off its input and messages: loop guard, then crash, then three errors since the last success, then the hard observation limit, else it continues |
| `ExecutorRuns.ResultsFollowCallsIff` | python/seahorse_ai/planner/executor.py:149-255 | in a first run every assistant message is followed by exactly its tool results, same ids and order, if and only if the guard has not tripped; the observation total is the length of the tool messages and is within the hard limit while the run goes on |
| `ExecutorEnds.StepEnds` | python/seahorse_ai/planner/executor.py:97-284 | every exit of every step, with its reason, if and only if its input and the accounts of the run say so; in particular an answer if and only if the reply has no tool calls and is not empty |
| `ExecutorEnds.RunEnds` | python/seahorse_ai/planner/executor.py:82-292 | a run ends for a reason if and only if some step is reached and ends it for that reason |
| `ExecutorEnds.RunAnswersIff` | python/seahorse_ai/planner/executor.py:270-284 | a run answers if and only if a step it reaches is a reply without tool calls that is not empty |
| `ExecutorEnds.RunReachesLimitIff` | python/seahorse_ai/planner/executor.py:82-292 | a run reaches the step limit if and only if no step ends it for any reason |
| `ExecutorEnds.ToolStepTells` | python/seahorse_ai/planner/executor.py:149-255 | a step with tool calls appends the reply, one message for each result the guard let through, and a reminder exactly when it goes on above the warning limit; an error is passed on as it is, with advice from the tool's second failure on, anything else cleaned and cut only beyond 4000 characters |
| `ExecutorEnds.OtherStepTells` | python/seahorse_ai/planner/executor.py:97-148 | what any other step appends |
| `ExecutorEnds.LaterRunsCountOn` | python/seahorse_ai/planner/executor.py:82-94 | a later run forgets what was observed, but not the errors in a row, each tool's failures or the calls made |
| `ExecutorEnds.CleanRemoves` | python/seahorse_ai/planner/executor.py:206-212 | one occurrence of each of the three phrases is taken out of a successful result |
| `ExecutorEnds.SignaturesEqualIff` | python/seahorse_ai/planner/executor.py:179 | calls of one tool have equal signatures if and only if their arguments are equal; so have any two calls, names included, whose names have no colon |
| `ReActLoop.CircuitBreaker.RecordError` | python/seahorse_ai/planner/circuit_breaker.py:31-35 | the consecutive count and exactly the named tool's count grow by one |
| `ReActLoop.CircuitBreaker.RecordSuccess` | python/seahorse_ai/planner/circuit_breaker.py:27-29 | only the consecutive count is reset |
| `ReActLoop.ReActExecutor.HandleResults` | python/seahorse_ai/planner/executor.py:170-225 | the loop over tool results updates breaker, guard, budget and messages as specified |
| `ReActLoop.ReActExecutor.RunStep` | python/seahorse_ai/planner/executor.py:97-284 | one step, all exits, on the executor, its breaker and the caller's message list |
| `ReActLoop.ReActExecutor.Run` | python/seahorse_ai/planner/executor.py:82-292 | the run ends where the specified run ends, with its reason and the reported number of steps, max_steps when nothing else ended it |
| `Feedback.HearAllHears` | python/seahorse_ai/tools/internal/memory.py:120-125 | the opinions dictionary holds exactly the named roles of the history, each with the penalty of its latest entry |
| `Feedback.SumOrderIndependent` | python/seahorse_ai/tools/internal/memory.py:140 | the sum of opinions does not depend on the order of the dictionary |
| `Feedback.StoredIsWindow` | python/seahorse_ai/tools/internal/memory.py:102-153 | after any sequence of calls the stored history is the last 20 entries, and penalty and quorum depend on the last 21 only |
| `Feedback.QuorumIsStored` | python/seahorse_ai/tools/internal/memory.py:127-128 | the stored quorum is the number of distinct named roles among them |
| `Feedback.PenaltyIsMeanOfLatest` | python/seahorse_ai/tools/internal/memory.py:139-148 | the stored penalty is the rounded, clamped mean of each named role's latest opinion among the last 21 entries; without one, the clamped penalty of the call |
| `Feedback.PenaltyIsNearestMean` | python/seahorse_ai/tools/internal/memory.py:131-148 | that is, the mean itself when it lies in [0, cap] and else the nearer end, with caps 0.4, 0.7 and 1 for one, two and more roles; without one the call's penalty, up to 0.2 |
| `Feedback.TwoRolesReach` | python/seahorse_ai/tools/internal/memory.py:131-144 | two roles reach 0.7 |
| `Feedback.RolesFoldCase` | python/seahorse_ai/tools/internal/memory.py:98-125 | names are one role if and only if they are equal up to case; a missing or empty one, or "unknown", is none |
| `Feedback.PenaltyWithinCap` | python/seahorse_ai/tools/internal/memory.py:130-148 | it stays in [0, cap] for the cap of its quorum, rounding included, and within 0.2 without a named role |
| `Feedback.StrongPenaltyNeedsQuorum` | python/seahorse_ai/tools/internal/memory.py:118-136 | over 0.2, 0.4 and 0.7 take one, two and three distinct named roles among the last 21 calls |
| `Feedback.OneRoleRepeated` | python/seahorse_ai/tools/internal/memory.py:118-148 | one role filling the window has its last word clamped to 0.4, and all other opinions are forgotten |
| `Feedback.Round4Within` | python/seahorse_ai/tools/internal/memory.py:148 | rounding to four digits does not leave an interval whose ends have four digits |
| `Feedback.Record.MemoryFeedback` | python/seahorse_ai/tools/internal/memory.py:98-156 | one call on a record computes the specified history, penalty and quorum |
| `Pruning.PruneMessages` | python/seahorse_ai/core/nodes.py:55-98 | the result is all system messages, the first other one, and the longest suffix of the rest that fits, or its last message alone |
| `Pruning.EstimateTokens` | python/seahorse_ai/core/nodes.py:46-52 | two tokens for every seven characters, rounded down, and at least one |
| `Pruning.PrunedUnique` | python/seahorse_ai/core/nodes.py:55-98 | that description determines the result |
| `Pruning.PruneIdempotent` | python/seahorse_ai/core/nodes.py:55-98 | pruning a pruned history changes nothing |
| `Pruning.FitsIff` | python/seahorse_ai/core/nodes.py:90-98 | the result is within the budget if and only if what is always kept is |
| `Pruning.PairedIff` | python/seahorse_ai/core/nodes.py:78-98 | a history in which tool results follow their calls stays so if and only if the message its cut falls on, found from the history and the budget alone, is not a tool message, unless that answers the first message |
| `Pruning.OrphanHappens` | python/seahorse_ai/core/nodes.py:90-98 | with the budget of the only call, a history of which a tool result is kept without its call |
| `MessageCleaning.CleanMessages` | python/seahorse_ai/core/llm.py:190-217 | the loop that extends the last entry in place computes the specified result, or raises |
| `MessageCleaning.CleanIsMergedRuns` | python/seahorse_ai/core/llm.py:190-217 | for every history: unless it raises, the result is the non-empty messages cut into maximal runs of joinable neighbours, each run joined in order |
| `MessageCleaning.RunsUnique` | python/seahorse_ai/core/llm.py:207-212 | there is only one way to cut a history into such runs |
| `MessageCleaning.CleanJoinsRuns` | python/seahorse_ai/core/llm.py:207-217 | so any such cut gives the result |
| `MessageCleaning.KeyErrorIff` | python/seahorse_ai/core/llm.py:207-214 | it raises if and only if a message without content is followed, empty ones aside, by one that would be joined to it |
| `MessageCleaning.KeyErrorHappens` | python/seahorse_ai/core/llm.py:207-214 | two messages on which it raises |
| `MessageCleaning.OrdinaryNeverRaises` | python/seahorse_ai/core/llm.py:190-217 | it never raises when user and system messages carry no tool fields |
| `MessageCleaning.CleanIdempotent` | python/seahorse_ai/core/llm.py:190-217 | no joinable neighbours remain, and cleaning again changes nothing |
| `MessageCleaning.KeptIsWhatSays` | python/seahorse_ai/core/llm.py:198-205 | what is kept is, in order, exactly the messages with a text, a call or a tool id |
| `MessageCleaning.NothingLost` | python/seahorse_ai/core/llm.py:190-217 | each of those is carried by one of the results, with its role, calls, tool id and whole text; one that is neither a user's nor a system's, or has calls, as it was |
| `MessageCleaning.NoNeighboursAlike` | python/seahorse_ai/core/llm.py:190-217 | no two neighbours are left that are both a user's or both a system's and carry no calls, the second no tool id |
| `MessageCleaning.TwoBecomeOne` | python/seahorse_ai/core/llm.py:207-214 | two texts of a user become one, with an empty line between |
| `Ledger.StockIsInitialPlusLogs` | scripts/shabu_data_gen.py:519-613 | after any number of days every stock is its initial value plus the sum of its logged changes |
| `Ledger.RestockFills` | scripts/shabu_data_gen.py:567-575 | a restock brings exactly the items under 150 to 500; each such item gets exactly one log row, with the missing amount, and no other row or stock is touched |
| `Ledger.OrdersAreRestocks` | scripts/shabu_data_gen.py:567-580 | with non-negative costs a branch's purchase orders of a day amount to what it restocked that day at cost, none if it restocked nothing |
| `Ledger.BillsAreSalesSinceMonthEnd` | scripts/shabu_data_gen.py:602-629 | every branch gets a utilities and a marketing bill at every month end and no other day, both on its order totals since the month end before; what its revenue holds is its sales since the last one |
| `LedgerSales.OrderSells` | scripts/shabu_data_gen.py:594-613 | an order writes one SALE row for each line with minus its quantity, one sales row, lowers the branch's stock by the quantities and raises its revenue by the total |
| `LedgerSales.TotalIs` | scripts/shabu_data_gen.py:596-602 | the total is the lines' amount less the discount, and never negative |
| `LedgerSales.RawIsSum` | scripts/shabu_data_gen.py:596 | that amount is price times quantity, summed |
| `LedgerSales.RunSells` | scripts/shabu_data_gen.py:532-613 | over any number of days every ordered line is one SALE row and every order one sales row, in order, and there are no others |
| `LedgerSales.BranchDayLogs` | scripts/shabu_data_gen.py:560-613 | a branch's day logs, on Mondays only, one row for each low item, and then the rows of its orders |
| `LedgerSales.BillAmounts` | scripts/shabu_data_gen.py:616-629 | utilities are 50 for each square metre and 3 per cent of those sales, marketing the day's rate of them |
| `LedgerRun.Books.WeeklyRestock` | scripts/shabu_data_gen.py:566-580 | the restock loop keeps stock, logs and purchase order as specified |
| `LedgerRun.Books.TakeOrder` | scripts/shabu_data_gen.py:594-613 | an order's total, revenue, stock deductions and log rows are as specified |
| `LedgerRun.Books.MonthEnd` | scripts/shabu_data_gen.py:616-629 | both variable costs use the same revenue, which is then reset |
| `LedgerRun.Books.RunDay` | scripts/shabu_data_gen.py:537-682 | the day's lists start empty and end in the tables, nothing lost |
| `LedgerRun.Books.GenerateData` | scripts/shabu_data_gen.py:532-696 | over all days the stock written back is the initial stock plus the log table, and the purchase orders match the restocks |

## Left out

- Model, embedding, database, browser, broker and HTTP calls: their results are inputs.
- The approximate-nearest-neighbour index: `raw` is what it returns; the top-k theorems assume it returns the nearest 5k points, in ascending order.
- Floating-point rounding in scores, distances, correlations and money: exact reals are used; only the four-digit rounding of penalties is modelled. Not-a-number values do not occur.
- Correlate: the library's square root is a parameter, taken to be exact on non-negative numbers; formatting the coefficient to four digits is not modelled.
- RrfFuse: normalised ids are inputs, and the vector score and hop decay of a record (recaller.py:289-320) are not modelled; of a record only text and graph flag are.
- AgentWorker.ServedInOrder: task ids are taken to be fresh (they are random UUIDs), the worker is taken to live as long as its submitters, and a runner sends only while it runs.
- WorkerLoop.Worker.Serve: concurrency is the transition system of AgentWorker; the loop is interrupted at fixed points where a plan says what the others do, and when a channel stays full its caller reads.
- WorkerLoop.Worker.Submit: the order in which several waiting submitters are admitted is the channel's.
- The supervisor's periodic health check and warnings: they only log.
- The streaming handler (handlers.rs:84 onwards) and the fast path: they forward messages or answer without the queue.
- Orchestrator: a node reference is its position in the list; merging trial results and the final synthesis only produce text. An exception that escapes a subtask ends the run and is not modelled.
- Critic: what its model says when the rules are not conclusive is an input, as are the verdicts it falls back on when the model fails or is switched off.
- RunTrials: the outer clock check is one input bit per trial.
- Executor: the evidence list, image paths, step callback and timings are not modelled; a failing model call ends the run with an exception; the quoting of tool names in advice is plain quotes; tools of one step run concurrently, but their results are handled in call order, which is what is modelled.
- KnowledgeBase: Markdown and JSON-lines loaders, encodings and read errors.
- Feedback: upper-casing is modelled for ASCII letters; the reason and time of an entry are not kept; a pipeline without update_metadata stores nothing and is not modelled.
- MessageCleaning: a message's tool calls are opaque.
- Pruning: of tool calls only their ids are modelled.
- Ledger: rent and salary rows, customer counts, tables, payment methods, times within a day and the sales detail rows: they are functions of the inputs and feed back into nothing.
- LedgerRun.Books.GenerateData: the calendar (Monday, last day of the month) is an input for each day.
- Small members such as token budgets, caches, knowledge-graph look-ups, intent keywords, chart rendering, authentication and telemetry.
