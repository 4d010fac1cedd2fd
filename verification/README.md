# Verified model of the pull-request review backend

The backend receives GitHub webhooks, lets four agents review the diff, merges and gates what they
report, and keeps reviews, findings and human decisions in a database. This project models the parts
of it that compute or keep state, in the form in which the code has them (loops as methods, objects as
classes, concurrent handlers as a step system), and proves what they promise. `dafny verify
dfyconfig.toml` checks all of it.

| file | what it models |
|---|---|
| `Common.dfy` | sums, lists, permutations and counting, used by the others |
| `Judge.dfy` | scoring reported findings against golden ones: greedy matching, precision, recall, F1 |
| `Chunker.dfy` | splitting a file into chunks |
| `Ingest.dfy` | freshness-tracked ingestion, statement by statement |
| `ConcurrentIngest.dfy` | several ingest runs at once, interleaved statement by statement |
| `Gate.dfy` | merging the agents' findings and routing the review |
| `AgentOrder.dfy` | what the order of the agent results can change |
| `Pipeline.dfy` | one pipeline run, the tables it leaves behind, and the human queue |
| `Worker.dfy` | the queue's job around a pipeline run |
| `Webhook.dfy` | the webhook endpoint as interleaved handlers |
| `System.dfy` | webhook, job queue, workers, manual runs and humans together |
| `Reliability.dfy` | retry, circuit breaker, and the GitHub client that nests them |
| `BreakerOverlap.dfy` | the circuit breaker under overlapping calls |
| `RateLimiter.dfy` | the token bucket of the sample repository |
| `Fusion.dfy` | reciprocal rank fusion of two retrieval lanes |
| `Tokenizer.dfy` | the deterministic embedder's tokenizer and shingle hashing |
| `Tracing.dfy` | span events and their parent links |

## Main results

- The greedy pass of the scorer collects at least a third of what any one-to-one assignment collects,
  and a third is tight. All six numbers of a score are characterised; F1 is 1 exactly when the findings of
  both sides can be paired off and there are any.
- `chunk_file` loses nothing and uses the fewest chunks that its two limits allow.
- An ingest run may stop after any statement: running it again over the same tree gives the tables of
  an undisturbed run. A run over another tree brings index and chunks back into agreement exactly when
  it re-indexes the one damaged file. Any number of runs over the same tree may interleave: once all are
  through, the tables are those of one run.
- The verdict is known exactly for any results and errors; it escalates exactly when some location's
  first most confident finding is CRITICAL. The order in which the agent results are concatenated can
  change it exactly when some result leads a location with a CRITICAL finding and all results can
  nevertheless be placed one by one without such a lead at a location not yet settled.
- A complete pipeline run leaves exactly the findings, status, HITL row, post and events that its verdict
  calls for. The first human decision on a row is the one that stays.
- Every webhook handler that does not crash and gets its turns answers; a recorded delivery is answered as a duplicate.
- In every interleaving of handlers, workers, manual runs and humans, a delivery has one review, and the
  tables count exactly what its runs got through: a verdict for each completed run, an error event for
  each job that raised and could say so, and a HITL row for each run past its enqueueing. A claimed
  review can always be finished by hand.
- The breaker is a function of its history, and bounds the requests of a client during an outage; with m
  overlapping calls it lets up to m through for every timeout, and no smaller bound holds.
- The two numbers of a token bucket decide as a rule over all windows of the history does, and no
  policy within the limit is more generous; any window admits at most capacity + rate * length.
- The fused ranking puts chunks of both lanes first while `top_k` does not exceed `rrf_k`, the tokens
  are the maximal word runs, and parent links rebuild the span trees of every context, whether it was
  copied from another one or not.

## Where code and documentation disagree

The model follows the code.

- `backend/evaluation/judge.py:8-9` says that each golden entry goes to the finding that scores highest
  against it. The loop gives each finding, in order, the best entry still unclaimed.
- `README.md:12` and `backend/orchestrator/nodes.py:162` say that any CRITICAL finding escalates. The
  merge at `backend/orchestrator/nodes.py:146` can drop it first (`Gate.ShadowedCriticalIsPosted`); the
  exact condition is `Gate.EscalatesExactly`.
- `backend/evaluation/regression_gate.py:133-134` says that the self-check must always pass. It fails
  on a pull request without golden findings (`Judge.SelfCheckPasses`).
- `backend/data/ingestion.py:45` speaks of splitting on blank lines. The code splits on every newline
  and gives blank lines no special part.
- `backend/job_queue/arq_worker.py:42` says that a job never raises. It does if and only if its run
  raised and the error event could not be written (`Worker.JobWorker.PipelineJob`).

## Gaps that the proofs show

- A file that reverts after an ingest run stopped behind its delete is skipped, with its chunks missing
  (`Ingest.RevertedFileIsLost`).
- A handler that dies behind its claim leaves a review that no redelivery revives
  (`Webhook.DeadClaimBlocksDelivery`). Unless its job was published, it stays pending until a run by hand
  (`System.DeadClaimWaitsForAManualRun`), and such a run finishes it (`System.ClaimedReviewCanBeFinished`).
- A second ingest run that is killed, or that has read another content, can leave a file with missing or
  wrong chunks under a current hash (`ConcurrentIngest.KilledRivalLosesChunks`, `RivalContentsMixUp`).
- A lost acknowledgement of the queue makes the endpoint deny a job that is queued
  (`Webhook.LostAckLeavesBoth`).
- A run killed between its status update and its HITL row leaves a queued review that no human sees
  (`System.KilledRunStrandsItsReview`).
- Workers and `POST /reviews/{id}/run` never reach the status `posted`, because neither passes a GitHub
  client (`backend/job_queue/arq_worker.py:63-66`, `backend/main.py:184-191`;
  `System.TablesCountRuns`).

## Modelling choices

- Confidences, scores and times are exact reals; matching points are counted in halves.
- The content hash is an injective function. Review ids, span ids and HITL ids are fresh: row numbers,
  or pairs of a context and a serial number.
- Every SQL statement commits by itself (`backend/database/postgres.py:31`), so each is one atomic step.
- The clock is an argument of each call that reads it, and does not run backwards where a bound needs it.
- What agents, GitHub and the queue answer is an argument, or a choice of the step system.
- The `if not chunks: continue` of `backend/data/ingestion.py:154-155` cannot be reached: there is
  always at least one chunk (`Chunker.ChunkingIsLossless`).

## Model

| member | source | states |
|---|---|---|
| `Judge.Points` | backend/evaluation/judge.py:77-83 | two half-points exactly for equal keys, none at different locations, otherwise one for each of category and severity that agrees |
| `Judge.Best` | backend/evaluation/judge.py:72-86 | the inner loop settles on an unclaimed golden entry with the most points, the first of those, and on none exactly when all unclaimed entries score zero |
| `Judge.ChargingStep` | backend/evaluation/judge.py:71-89 | one report: whatever a rival assignment gives it is paid for by its own claim or by one new charge on a claimed entry |
| `Judge.ChargingArgument` | backend/evaluation/judge.py:71-89 | over the rest of the pass: a rival assignment is worth at most the points still collected plus two half-points for each claimed entry |
| `Judge.GreedyIsWithinAThird` | backend/evaluation/judge.py:71-89 | no one-to-one assignment at equal locations is worth more than three times what the greedy pass collects |
| `Judge.AThirdIsTight` | backend/evaluation/judge.py:71-89 | two golden and two reported findings on which the factor three is reached, so the bound cannot be improved |
| `Judge.FullMarksClaimReports` | backend/evaluation/judge.py:71-89 | if every report earns full marks, the keys the pass claims are the reported keys, with multiplicity |
| `Judge.CoveredReportsScoreFully` | backend/evaluation/judge.py:71-89 | if the unclaimed golden keys cover the reports, every report earns full marks, in any order |
| `Judge.FullMarks` | backend/evaluation/judge.py:71-89 | full marks on both sides hold if and only if the two lists are the same multiset of keys |
| `Judge.MatchedBound` | backend/evaluation/judge.py:87-93 | the matched points exceed neither the number of reports nor the number of golden findings |
| `Judge.SummaryIsDice` | backend/evaluation/judge.py:91-95 | the F1 of precision and recall times (actual + expected) is 2 * matched and lies in [0, 1]; it is 1 exactly when everything on both, non-empty, sides matches |
| `Judge.F1Laws` | backend/evaluation/judge.py:59-103 | for any case mapping: F1 is 2 * matched / (actual + expected), and is 1 if and only if the golden list is non-empty and both lists are the same multiset of (location, lower-case category, upper-case severity) |
| `Judge.MatchedIsWithinAThird` | backend/evaluation/judge.py:59-103 | the approximation bound on the findings themselves, in the units of the reported score |
| `Judge.SelfCheckPasses` | backend/evaluation/regression_gate.py:131-137 | a reordering of a golden list scores 1, and 0 if the list is empty; so the self-check that must always pass does so, at a positive threshold up to 1, if and only if the list is non-empty |
| `Judge.PickBest` | backend/evaluation/judge.py:72-86 | the inner loop returns the entry and points of `Best` |
| `Judge.CollectPoints` | backend/evaluation/judge.py:67-89 | the two nested loops collect exactly the points of the greedy pass |
| `Judge.ScoreFindings` | backend/evaluation/judge.py:59-103 | the whole scorer returns the score that `ScoreIsExact` and the other laws describe |
| `Judge.PointsOfFindings` | backend/evaluation/judge.py:59-86 | on the findings themselves: nothing at different locations, and half a point for each of category and severity that agrees up to case; keys are equal exactly for findings that agree in all |
| `Judge.SameKeysPairOff` | backend/evaluation/judge.py:71-89 | two lists have the same keys if and only if their findings can be paired off one to one, each pair agreeing |
| `Judge.ScoreIsExact` | backend/evaluation/judge.py:59-103 | all six numbers: precision and recall are the matched points over the reports and over the golden findings, 0 without reports and 1 without golden findings, and 1 exactly when their side is matched in full; F1 is 1 exactly when the lists can be paired off and are not empty |
| `Chunker.JoinAfterSplit` | backend/data/ingestion.py:48 | joining what `split` returns gives the content back |
| `Chunker.SplitAfterJoin` | backend/data/ingestion.py:48 | splitting joined lines gives the lines back |
| `Chunker.BlocksPartition` | backend/data/ingestion.py:54-68 | the blocks of the loop are legal and concatenate to the lines |
| `Chunker.PieceOfLegal` | backend/data/ingestion.py:36-38 | every contiguous piece of a legal block is legal |
| `Chunker.FirstBlockIsNoLonger` | backend/data/ingestion.py:54-68 | where the loop closes a block, any legal partition has closed one too |
| `Chunker.GreedyIsFewest` | backend/data/ingestion.py:54-68 | from any point of the loop, no legal partition of the rest needs fewer blocks |
| `Chunker.ChunkFile` | backend/data/ingestion.py:41-70 | the loop over the lines returns exactly the numbered chunks of the greedy partition |
| `Chunker.ChunkingIsLossless` | backend/data/ingestion.py:41-70 | at least one chunk; the texts joined by newlines are the content; indices count from 0; each chunk is one line, or at most 50 lines and 1999 characters |
| `Chunker.ChunkingIsMinimal` | backend/data/ingestion.py:41-70 | no way of cutting the lines into runs of one line, or of at most 50 lines and 1999 characters, gives fewer chunks |
| `Ingest.AfterReindex` | backend/data/ingestion.py:149-168 | the two tables after any number of the statements that re-index a file |
| `Ingest.RunTouchesOnlyItsTree` | backend/data/ingestion.py:138-168 | however far a run gets, paths outside its tree and other repositories keep their rows |
| `Ingest.ReindexRecovers` | backend/data/ingestion.py:143-168 | re-indexing a file after an attempt that stopped anywhere gives what an undisturbed attempt gives |
| `Ingest.InterruptionIsHarmless` | backend/data/ingestion.py:138-168 | stopping a run after any statement and running again over the same tree reaches exactly the tables of one uninterrupted run, from any tables whatever |
| `Ingest.RunIndexesTree` | backend/data/ingestion.py:138-168 | a completed run leaves the current hash indexed for every file of its tree |
| `Ingest.ConsistentAfterRun` | backend/data/ingestion.py:138-168 | after a completed run a file has the right chunks if and only if it had them before or the run re-indexed it |
| `Ingest.RunKeepsConsistent` | backend/data/ingestion.py:138-168 | completed runs keep index and chunks in agreement, and give every file of the tree the chunks of its current content |
| `Ingest.RerunDoesNothing` | backend/data/ingestion.py:143-145 | running again at once executes no statement, so nothing is embedded |
| `Ingest.AtMostOneVictim` | backend/data/ingestion.py:138-168 | a run stopped anywhere leaves at most one file without its right chunks |
| `Ingest.RepairedExactlyWhenReindexed` | backend/data/ingestion.py:138-168 | a later run over any tree restores agreement if and only if it re-indexes every damaged file |
| `Ingest.RecoveryOnAnotherTree` | backend/data/ingestion.py:138-168 | after one stopped run that condition is about a single file |
| `Ingest.RevertedFileIsLost` | backend/data/ingestion.py:143-150 | a file that reverts to its indexed content after a run stopped behind its delete is skipped, and its chunks stay missing |
| `Ingest.Store.IsFileChanged` | backend/data/freshness.py:26-40 | true exactly when no hash, or another one, is stored |
| `Ingest.Store.DeleteStaleChunks` | backend/data/freshness.py:72-78 | removes all chunks of the file and nothing else |
| `Ingest.Store.UpsertChunk` | backend/data/ingestion.py:176-199 | sets one row under its unique key |
| `Ingest.Store.UpdateFileIndex` | backend/data/freshness.py:43-55 | sets the stored hash of one file |
| `Ingest.Store.ReindexFile` | backend/data/ingestion.py:149-168 | executes the delete, one upsert for every chunk, then the index update, and counts the chunks |
| `Ingest.Store.IngestRepo` | backend/data/ingestion.py:102-173 | executes exactly the planned statements in order; the five statistics agree with them |
| `ConcurrentIngest.StatementKeeps` | backend/data/ingestion.py:149-168 | a statement of any run keeps what holds of its file: whatever is not right yet, some run is still going to put right |
| `ConcurrentIngest.StepKeepsInv` | backend/data/ingestion.py:138-168 | every check and every statement of every run keeps this for all files of the tree, and leaves all others alone |
| `ConcurrentIngest.OneRunSettles` | backend/data/ingestion.py:138-168 | a single run re-indexes exactly the files that were stale at its start and leaves the rows of the others as they were |
| `ConcurrentIngest.InterleavedRunsConverge` | backend/data/ingestion.py:138-168 | any number of runs over the same tree, interleaved statement by statement in any way, leave exactly the tables of one run once all are through |
| `ConcurrentIngest.KilledRivalLosesChunks` | backend/data/ingestion.py:143-168 | if one of two such runs is killed behind its delete, the other may have indexed the hash already: the chunks are missing and no later run over the tree repairs it |
| `ConcurrentIngest.RivalContentsMixUp` | backend/data/ingestion.py:138-168 | two runs that have read different contents can leave the later hash over the earlier chunks, and runs over the later content skip the file |
| `ConcurrentIngest.StepLeavesLess` | backend/data/ingestion.py:138-168 | each step of a run that is not through leaves it less to do |
| `ConcurrentIngest.RunGetsThrough` | backend/data/ingestion.py:138-168 | so a run that gets its turns is through after finitely many of them |
| `RateLimiting.RefilledIsLeastBudget` | fixtures/sample_repo/src/rate_limiter.py:21-33 | the refilled bucket is the least budget over all windows of the history: at least `need` if and only if every window has `need` left |
| `RateLimiting.WindowBound` | fixtures/sample_repo/src/rate_limiter.py:21-33 | a window between two calls admits at most capacity + rate * length |
| `RateLimiting.BucketConforms` | fixtures/sample_repo/src/rate_limiter.py:21-33 | every window of any history admits at most capacity + rate * length |
| `RateLimiting.RefusalIsForced` | fixtures/sample_repo/src/rate_limiter.py:21-33 | where the bucket refuses, a conforming rival that admits has admitted fewer calls before |
| `RateLimiting.BucketIsMostGenerous` | fixtures/sample_repo/src/rate_limiter.py:21-33 | no other policy within the limit admits more of any prefix of the calls |
| `RateLimiting.TokenBucket.constructor` | fixtures/sample_repo/src/rate_limiter.py:15-19 | a full bucket with an empty history |
| `RateLimiting.TokenBucket.Refill` | fixtures/sample_repo/src/rate_limiter.py:21-25 | tokens become the refilled amount, and time moves on |
| `RateLimiting.TokenBucket.Allow` | fixtures/sample_repo/src/rate_limiter.py:27-33 | two numbers of state admit a call if and only if every window, from the creation or from an earlier call, has capacity + rate * elapsed time - admissions >= 1, and so is the capacity |
| `RateLimiting.ClientsAreIsolated` | fixtures/sample_repo/src/rate_limiter.py:36-48 | the answers to a client are those it would get if it were alone |
| `RateLimiting.ServedIsDecided` | fixtures/sample_repo/src/rate_limiter.py:36-48 | each client history that the limiter builds up is decided by the all-windows rule |
| `RateLimiting.ServedIsMonotone` | fixtures/sample_repo/src/rate_limiter.py:36-48 | a clock that does not run backwards over all requests gives each client a monotone history |
| `RateLimiting.EveryClientConforms` | fixtures/sample_repo/src/rate_limiter.py:36-48 | under such a clock every window of the calls of one client admits at most capacity + rate * length of them, whatever the others do |
| `RateLimiting.RateLimiter.constructor` | fixtures/sample_repo/src/rate_limiter.py:39-44 | no buckets yet |
| `RateLimiting.RateLimiter.Check` | fixtures/sample_repo/src/rate_limiter.py:46-48 | one call extends the history of its client, with that answer, and no other history |
| `RateLimiting.AdmissibleMeans` | fixtures/sample_repo/src/rate_limiter.py:21-33 | the rule in plain terms: a call is admitted if and only if, from the creation and from every earlier call on, capacity + rate * elapsed time - admissions since is at least 1, and so is the capacity |
| `RateLimiting.BucketStaysWithinLimit` | fixtures/sample_repo/src/rate_limiter.py:21-33 | counting calls one by one, a window from one call to another admits at most capacity + rate * (its length) |
| `RateLimiting.HistoryOfRequests` | fixtures/sample_repo/src/rate_limiter.py:36-48 | a client has a call for each of its requests, in order, from a bucket made at the first, each answered by the rule in plain terms |
| `Gate.LocationsInOrder` | backend/orchestrator/nodes.py:130-137 | merged findings come in the order in which their locations are first reported |
| `Gate.MergedIsWinner` | backend/orchestrator/nodes.py:136-153 | each merged entry is the first of the most confident findings at its location; the agreement is the number of distinct agents there, listed in alphabetical order, and only recorded for two findings or more |
| `Gate.EscalatesExactly` | backend/orchestrator/nodes.py:117-203 | the composition escalates if and only if at some location the first most confident finding of an agent without error is CRITICAL |
| `Gate.ShadowedCriticalIsPosted` | backend/orchestrator/nodes.py:144-184 | "any CRITICAL finding escalates" is false: one that a more confident finding outranks at its location is posted automatically |
| `Gate.ConfidenceBounds` | backend/orchestrator/nodes.py:186-203 | without escalation the confidence lies between the mean m of the location maxima and min(1, m + 0.06 * locations), and the review is posted exactly from 0.8 on |
| `Gate.BoostIsExact` | backend/orchestrator/nodes.py:186-196 | the overall confidence is min(1, m + 0.02 * (distinct (location, agent) pairs - locations)) |
| `Gate.LoneWeakLocationIsNotPosted` | backend/orchestrator/nodes.py:186-203 | a single location topping below 0.74 is never posted automatically |
| `Gate.PermutationKeepsScores` | backend/orchestrator/nodes.py:117-155 | locations, their top confidences and agreement counts do not depend on the order of the findings |
| `Gate.OverallFromScores` | backend/orchestrator/nodes.py:186-196 | neither does the overall confidence |
| `Gate.EscalationBetween` | backend/orchestrator/nodes.py:117-184 | in any order: a location with only CRITICAL findings at the top forces escalation, and escalation needs a CRITICAL finding at the top of some location |
| `Gate.OrderOnlyEscalates` | backend/orchestrator/nodes.py:117-203 | apart from escalating or not, the order of the findings makes no difference to the verdict |
| `Gate.PermutationKeepsVerdict` | backend/orchestrator/nodes.py:117-203 | the verdict does not depend on the order of the findings, provided that a CRITICAL finding at some top means a location with nothing else at its top |
| `Gate.OrderDecides` | backend/orchestrator/nodes.py:117-203 | for lists of findings: where the proviso fails, one order of the same findings escalates and another does not |
| `Gate.OrderMattersExactly` | backend/orchestrator/nodes.py:117-203 | for lists of findings: escalation is the same for all orders if and only if the proviso holds |
| `Gate.CollectedOfPermutation` | backend/orchestrator/state.py:19-21 | agent results arriving in another order are the same findings |
| `Gate.AgentOrderKeepsVerdict` | backend/orchestrator/nodes.py:117-203 | under the proviso the verdict does not depend on the order of the agent results; the exact condition for results is `AgentOrder.ResultOrderMattersExactly` |
| `Gate.GroupByLocation` | backend/orchestrator/nodes.py:130-134 | the grouping loop builds every location once, in first-report order, each with its findings in order |
| `Gate.Aggregate` | backend/orchestrator/nodes.py:117-155 | the aggregate node returns the merged list that the lemmas above describe |
| `Gate.DecideNode` | backend/orchestrator/nodes.py:158-203 | the decide node returns the verdict that `VerdictIsExact` and the other lemmas describe |
| `Gate.CollectedIsReported` | backend/orchestrator/nodes.py:124-128 | the findings considered are those of the results whose error is absent or empty, in order |
| `Gate.VerdictIsExact` | backend/orchestrator/nodes.py:158-203 | the exact verdict on any results and errors: without findings, posted with confidence 1 or, after errors, queued with confidence 0; with a CRITICAL finding at a top, escalated with confidence 0; else the mean of the top confidences, lifted by 0.02 for each further agent at a location and at most 1, posted from 0.8 on and queued below |
| `AgentOrder.EscalatesUnlessMild` | backend/orchestrator/nodes.py:117-184 | results concatenated in an order escalate if and only if, in that order, some result has its first top finding at a location not yet settled, and that finding is CRITICAL |
| `AgentOrder.GreedyFindsOrder` | backend/orchestrator/nodes.py:117-184 | if any order of the results stays mild, placing harmless results as they come never gets stuck |
| `AgentOrder.GreedyOrder` | backend/orchestrator/nodes.py:117-184 | if placing harmless results gets to the end, the order of placing stays mild |
| `AgentOrder.SomeOrderEscalates` | backend/orchestrator/state.py:19-21 | some order of the agent results escalates if and only if some result leads a location with a CRITICAL finding |
| `AgentOrder.SomeOrderStaysMild` | backend/orchestrator/state.py:19-21 | some order of the agent results does not escalate if and only if harmless results can be placed to the end |
| `AgentOrder.ResultOrderMattersExactly` | backend/orchestrator/nodes.py:117-203 | the verdict is the same for all orders of the agent results if and only if not both hold |
| `AgentOrder.TwoAgentsDisagree` | backend/orchestrator/nodes.py:144-184 | two results whose two orders give different verdicts |
| `AgentOrder.OneAgentAgreesWithItself` | backend/orchestrator/nodes.py:144-184 | where one agent reports both kinds the proviso on findings fails and still no order of the results matters |
| `Reliability.RetryCall` | backend/reliability/retry.py:28-40 | stops at the first success or at an exception outside the list, retries the others up to the limit, and sleeps the backoff between attempts; a limit below one makes no attempt and ends in the failed assertion |
| `Reliability.SleepBound` | backend/reliability/retry.py:36-38 | n sleeps take at most n * max_delay and at most base * (2^n - 1) |
| `Reliability.CircuitBreaker.constructor` | backend/reliability/circuit_breaker.py:28-39 | a closed breaker with an empty history |
| `Reliability.CircuitBreaker.State` | backend/reliability/circuit_breaker.py:41-46 | the state read at any time is a function of the history of calls that do not overlap: closed below the threshold of failures since the last success or reset, then open until the timeout after the last failure, then half-open; with overlapping calls, the lazy step to half-open |
| `Reliability.CircuitBreaker.OnSuccess` | backend/reliability/circuit_breaker.py:70-73 | appends a success to the history, does to the fields what the overlap model says, and keeps fields and history in agreement unless the breaker is open |
| `Reliability.CircuitBreaker.OnFailure` | backend/reliability/circuit_breaker.py:75-81 | appends a failure to the history, does to the fields what the overlap model says, and keeps fields and history in agreement unless the breaker is open |
| `Reliability.CircuitBreaker.Reset` | backend/reliability/circuit_breaker.py:83-86 | appends a reset to the history, closes the breaker from any state, and keeps fields and history in agreement |
| `Reliability.TrippedBound` | backend/reliability/circuit_breaker.py:41-81 | a tripped breaker lets failing calls through at most once in every timeout |
| `Reliability.FailureBound` | backend/reliability/circuit_breaker.py:41-81 | whatever came before, a stretch of length D in which every call that is let through fails lets at most threshold + floor(D / timeout) calls through |
| `Reliability.GitHubClient.constructor` | backend/integrations/github_client.py:33-37 | a fresh client has a closed breaker and has sent nothing |
| `Reliability.GitHubClient.Send` | backend/integrations/github_client.py:61-97 | retry inside the breaker: the history and the number of requests advance as specified, and it sleeps between the requests of a call; the answer is circuit-open exactly when the breaker is open, done exactly when a success is recorded and its reply can be read, an error exactly when a failure is recorded or a successful reply cannot be read |
| `Reliability.FailingVisitsSendThreeEach` | backend/integrations/github_client.py:67-75 | each failing call that gets through sends three requests |
| `Reliability.OutageTraffic` | backend/integrations/github_client.py:33-97 | a client all of whose requests fail sends at most 3 * (3 + floor(D / 60)) requests in calls within D seconds |
| `Reliability.DelaysDouble` | backend/reliability/retry.py:36-38 | the delays begin with the base delay, double, and stay at the maximum once they reach it |
| `Reliability.SleepIsExact` | backend/reliability/retry.py:36-38 | n sleeps take base * (2^m - 1) + (n - m) * max_delay, where m delays come before the maximum |
| `Reliability.FailsMeans` | backend/reliability/circuit_breaker.py:70-81 | the failures counted are those since the last success or reset |
| `Reliability.ModeMeans` | backend/reliability/circuit_breaker.py:41-81 | closed if and only if there is no such failure or fewer than the threshold; then half-open if and only if the timeout has passed since the last event, which is a failure |
| `Reliability.FailingVisitSleeps` | backend/integrations/github_client.py:67-75 | a failing call sleeps three seconds between its three requests |
| `Reliability.ThreeCallsThenSilence` | backend/integrations/github_client.py:33-97 | a fresh client sends three requests in each of three failing calls, nothing for sixty seconds, and then tries again |
| `BreakerOverlap.RunStaysSound` | backend/reliability/circuit_breaker.py:41-86 | in any interleaving of overlapping calls a closed breaker has fewer failures than trip it |
| `BreakerOverlap.StretchPays` | backend/reliability/circuit_breaker.py:41-81 | while no call succeeds, every call let through and not abandoned is paid for: threshold - 1 while closed, m for each time the breaker has been open, a timeout apart |
| `BreakerOverlap.OverlapBound` | backend/reliability/circuit_breaker.py:48-81 | whatever came before, with at most m calls under way, a stretch of length D in which no call succeeds and nobody resets lets at most threshold - 1 + m * (1 + floor(D / timeout)) calls through, not counting calls abandoned by an exception that the breaker does not catch |
| `BreakerOverlap.OverlapIsReached` | backend/reliability/circuit_breaker.py:48-81 | the bound is the best possible: for every m and every number of timeouts a legal stretch lets exactly that many calls through |
| `BreakerOverlap.EveryCallIsAProbe` | backend/reliability/circuit_breaker.py:41-58 | once the timeout is over, all calls that come before the first answer are let through as probes |
| `BreakerOverlap.AbandonedCallsAreUnlimited` | backend/reliability/circuit_breaker.py:61-65 | abandoned calls have to be left out: a closed breaker lets any number of them through at once, one at a time |
| `BreakerOverlap.OneAtATimeFollowsHistory` | backend/reliability/circuit_breaker.py:41-86 | calls that do not overlap, abandoned ones and resets included, leave the fields and the mode that the history of events determines |
| `Webhook.StepKeepsInv` | backend/webhook_receiver/router.py:94-149 | every atomic step of every handler keeps the invariant: unique keys, claims and rows one to one, truthful duplicates, exact counts of jobs and error events |
| `Webhook.ReachableInv` | backend/webhook_receiver/router.py:94-149 | the invariant holds in every interleaving of any number of handlers |
| `Webhook.OneRecordOneAcceptance` | scripts/migrations/2026-06-tiger-init.sql:209 | a delivery key has at most one record and at most one handler that answers accepted |
| `Webhook.DuplicateHasOriginal` | backend/reliability/idempotency.py:19-43 | behind every duplicate answer stands a handler that claimed the delivery |
| `Webhook.ExactlyOneAccepts` | backend/webhook_receiver/router.py:94-149 | once all handlers of a delivery have answered, exactly one accepted and all others said duplicate |
| `Webhook.PhaseFitsOutcome` | backend/webhook_receiver/router.py:121-137 | along any trace the phase of a living handler tells the outcome of its publish step |
| `Webhook.AcceptedLeavesATrace` | backend/webhook_receiver/router.py:113-149 | an accepted review has a job unless the queue was unreachable and an error event unless it acknowledged; so it has exactly one of them if and only if the acknowledgement of its publish step was not lost |
| `Webhook.LostAckLeavesBoth` | backend/webhook_receiver/router.py:122-137 | with a lost acknowledgement of the queue there are both a job and an error event, and the answer denies the job |
| `Webhook.NothingIsLost` | backend/webhook_receiver/router.py:103-137 | records, jobs and error events are only ever added, and an answer is final |
| `Webhook.DeadClaimBlocksDelivery` | backend/webhook_receiver/router.py:94-111 | if a handler dies behind its claim, no redelivery is ever accepted and the review gets no further job or error event |
| `Webhook.RecordedMeansDuplicate` | backend/webhook_receiver/router.py:97-111 | for a delivery with a row the check and the insertion both answer duplicate and leave all tables alone; without one the check goes on, and the insertion makes the row and claims it |
| `Webhook.DeadOnlyByCrash` | backend/webhook_receiver/router.py:94-149 | along any trace a handler is dead only if a crash of it took effect |
| `Webhook.CrashKeepsTheClaim` | backend/webhook_receiver/router.py:113-137 | a crash ends a handler that has not answered, and leaves its claim, its row and its job |
| `Webhook.UncrashedHandlerAnswers` | backend/webhook_receiver/router.py:94-149 | a handler that does not crash and gets its check, insertion, publication and report in this order has answered, whatever others do in between |
| `Pipeline.PlanAdds` | backend/webhook_receiver/router.py:194-260 | the rows that one complete run adds, table by table, and none for other reviews; a post is attempted only on an auto_post verdict |
| `Pipeline.RowsAfterHistory` | backend/webhook_receiver/router.py:194-260 | after any complete runs, reruns and human decisions: one HITL row for every run ending in approval_queue or escalate, one finding row for every merged finding, one verdict for every run, one event for every failed post |
| `Pipeline.StoppedRunAddsNoVerdict` | backend/webhook_receiver/router.py:247-260 | a run that stops early adds no verdict event, and no more findings or HITL rows than a complete one |
| `Pipeline.VerdictsCountCompleteRuns` | backend/webhook_receiver/router.py:247-260 | wherever runs stop, verdict events count the complete ones |
| `Pipeline.DecidedRowsStay` | backend/hitl/queue.py:109-148 | a decided HITL row never changes again, and no HITL row disappears |
| `Pipeline.StatusAfterRun` | backend/database/repository.py:41-69 | after a run the review row holds its status and confidence, a GitHub id only replaces an older one, and other reviews keep their rows |
| `Pipeline.CriticalWinnerReachesAHuman` | backend/webhook_receiver/router.py:194-245 | a review with a CRITICAL winner is never sent to GitHub, and a complete run queues it for a human |
| `Pipeline.Database.PostReview` | backend/webhook_receiver/router.py:196-201 | one call of the client is made, and an id comes back exactly on success |
| `Pipeline.Database.InsertFinding` | backend/database/repository.py:99-135 | adds one finding row |
| `Pipeline.Database.UpdateReviewStatus` | backend/database/repository.py:41-69 | updates the row of the review, if there is one, and keeps its GitHub id unless given another |
| `Pipeline.Database.Enqueue` | backend/hitl/queue.py:17-40 | adds one waiting HITL row |
| `Pipeline.Database.Approve` | backend/hitl/queue.py:109-127 | approves a row only if it is still waiting, and keeps the assignee unless given another |
| `Pipeline.Database.Reject` | backend/hitl/queue.py:130-148 | rejects a row only if it is still waiting, and keeps the assignee unless given another |
| `Pipeline.Database.Post` | backend/webhook_receiver/router.py:194-210 | posts exactly on an auto_post verdict with a client, and a refused post turns into the approval queue |
| `Pipeline.Database.InsertFindings` | backend/webhook_receiver/router.py:219-220 | one row for every merged finding, in order |
| `Pipeline.Database.FileReview` | backend/webhook_receiver/router.py:222-245 | the status update and, unless the decision is auto_post, the HITL row with its reason |
| `Pipeline.Database.RunReviewPipeline` | backend/webhook_receiver/router.py:152-268 | a run executes exactly the planned statements, in order; `RunLeavesExactly` says what they leave |
| `Pipeline.RunLeavesExactly` | backend/webhook_receiver/router.py:194-260 | all five tables after a complete run: one finding row for each merged finding in order, the review row with status, confidence and GitHub id, the HITL row with its reason, the attempted post, and the events, the last of them the verdict with its outcome, final decision and confidence |
| `Pipeline.RunKeepsItsOrder` | backend/webhook_receiver/router.py:194-260 | wherever a run stops: no finding is stored before its post is over, nothing is queued before all findings are stored, and no verdict is given before everything else is done |
| `Pipeline.FirstDecisionStays` | backend/hitl/queue.py:109-148 | the first decision on a waiting row, approval or rejection, is the one that stays, whatever runs and decisions come around it |
| `Pipeline.UndecidedRowWaits` | backend/hitl/queue.py:109-148 | a row that nobody decides stays as it was enqueued |
| `Worker.OneEventUnlessItRaises` | backend/job_queue/arq_worker.py:52-73 | a job leaves exactly one verdict or error event if and only if it does not raise |
| `Worker.JobWorker.RunUntil` | backend/webhook_receiver/router.py:194-260 | a run that raises has executed the statements before |
| `Worker.JobWorker.PipelineJob` | backend/job_queue/arq_worker.py:34-73 | a job raises if and only if its run raised and the error event could not be written; it reports if the run raised and the event could be written, and else finishes the whole plan |
| `System.StepKeepsInv` | backend/job_queue/arq_worker.py:34-73 | webhook steps, workers taking jobs, manual runs, single statements of runs, exceptions, kills and human decisions, in any interleaving, keep the invariant of the whole system |
| `System.WebIsReachable` | backend/webhook_receiver/router.py:94-149 | the webhook inside the system is in a state that it reaches alone, so everything proved of it holds here |
| `System.TablesCountRuns` | backend/job_queue/arq_worker.py:52-73 | in every reachable state the tables count exactly what the runs of a review got through: its findings inserted, a HITL row for each run past its enqueueing, a verdict for each completed run, an error event for each job that raised and whose event could be written; killed runs and manual runs that raise leave no event, nothing is posted, and an unclaimed review has no rows |
| `System.CompletedRunsAddUp` | backend/webhook_receiver/router.py:212-260 | once all runs of a review have completed, its rows are the sum of what the runs are worth, however their statements were interleaved |
| `System.StatusIsTruthful` | backend/webhook_receiver/router.py:222-245 | a claimed review is pending exactly until a run updates its status, and has a HITL row if and only if a run has got past its enqueueing; if the status says that a human must decide, the row is missing if and only if every run that said so stands exactly between the two statements |
| `System.KilledRunStrandsItsReview` | backend/webhook_receiver/router.py:236-240 | the exception is real: a reachable state with a queued review, no HITL row and no run under way |
| `System.OneRowPerHumanRun` | backend/webhook_receiver/router.py:236-245 | the HITL rows of a review are one for each completed run that needs a human, and one for each run that lacks only its verdict |
| `System.OneReviewPerDelivery` | scripts/migrations/2026-06-tiger-init.sql:209 | all runs for one delivery are runs of one review, which one handler claimed |
| `System.DecisionsAreFinal` | backend/hitl/queue.py:109-148 | what a human has decided stays decided whatever happens next |
| `System.DeadClaimWaitsForAManualRun` | backend/webhook_receiver/router.py:113-137 | a review whose handler died before its job was published is pending exactly until a run started by hand updates its status |
| `System.ClaimedReviewCanBeFinished` | backend/webhook_receiver/router.py:113-116 | from any reachable state, a run by hand that is left alone gives a claimed review its final status, one verdict more, its findings, and a HITL row if it needs a human |
| `System.PublishedJobCanBeFinished` | backend/job_queue/arq_worker.py:52-66 | from any reachable state a worker that takes a published job and is left alone executes its whole plan |
| `System.RaisingLeavesOneEvent` | backend/job_queue/arq_worker.py:68-73 | a run that raises stops where it is; only a worker leaves an event, and only if it can be written |
| `System.JudgeDecides` | backend/hitl/queue.py:109-148 | a human decision in the system is that of the human queue and changes nothing else |
| `Fusion.OrderIsUnion` | backend/memory/context_retriever.py:193-223 | the merge map holds every chunk of either lane exactly once |
| `Fusion.SortedLaws` | backend/memory/context_retriever.py:226 | the sort keeps every result, orders by falling score, and is stable |
| `Fusion.FusedIsRanking` | backend/memory/context_retriever.py:192-227 | no chunk twice, falling scores, the smaller of top_k and the union in number, each with its ranks and the sum of its reciprocal ranks |
| `Fusion.DroppedScoresNoHigher` | backend/memory/context_retriever.py:226-227 | nothing dropped scores above anything kept |
| `Fusion.HigherComesFirst` | backend/memory/context_retriever.py:226-227 | a chunk that scores higher than a kept one is kept and comes before it |
| `Fusion.TiesKeepMergeOrder` | backend/memory/context_retriever.py:226-227 | equal scores stay in the order in which the merge map was filled |
| `Fusion.OrderStartsWithVector` | backend/memory/context_retriever.py:195-206 | that order begins with the vector lane, by rank |
| `Fusion.BothLanesOutscoreOne` | backend/memory/context_retriever.py:195-223 | with lanes no longer than rrf_k, a chunk in both lanes outscores every chunk in one |
| `Fusion.BothLanesComeFirst` | backend/memory/context_retriever.py:186-227 | if top_k <= rrf_k, every two-lane chunk precedes every kept one-lane chunk |
| `Fusion.LongerLanesTie` | backend/memory/context_retriever.py:192-227 | for every rrf_k: with lanes of rrf_k + 1 chunks a two-lane chunk may only tie with the best one-lane chunk, which then heads the answer |
| `Fusion.DominatingChunkComesFirst` | backend/memory/context_retriever.py:192-227 | a chunk at least as good in both lanes and better in one comes first |
| `Fusion.FillFromVector` | backend/memory/context_retriever.py:193-206 | the first loop fills the map with the vector lane |
| `Fusion.Merge` | backend/memory/context_retriever.py:193-223 | the second loop adds to entries or appends them; the map then holds the summed score and both ranks of every chunk |
| `Fusion.RetrieveHybrid` | backend/memory/context_retriever.py:192-227 | merge, sort and cut return the fused list |
| `Fusion.EntryMeans` | backend/memory/context_retriever.py:192-223 | the entry of a chunk: its rank in each lane, 1 / (rrf_k + rank) summed over them, and the content of the vector lane if it is there |
| `Fusion.OrderEndsWithText` | backend/memory/context_retriever.py:208-223 | behind the vector lane come the chunks that only the full-text lane has, by their rank there |
| `Tokenizer.Tokenize` | backend/memory/embedder.py:112-125 | the character loop returns the tokens of the lowered text |
| `Tokenizer.TokensAreMaximalRuns` | backend/memory/embedder.py:112-125 | the tokens are exactly the maximal runs of word characters, in order |
| `Tokenizer.TokensAfterJoin` | backend/memory/embedder.py:112-125 | tokenising space-joined tokens gives the same list |
| `Tokenizer.JoinedTextHasSameTokens` | backend/memory/embedder.py:112-125 | for a case mapping that leaves lowered characters alone, text and its space-joined tokens have the same tokens |
| `Tokenizer.JoinedTextHasSameVector` | backend/memory/embedder.py:87-125 | and so the same vector |
| `Tokenizer.HashedSize` | backend/memory/embedder.py:94-102 | before normalisation the L1 size of the vector is at most the number of shingles and has its parity |
| `Tokenizer.VectorSize` | backend/memory/embedder.py:87-102 | for n tokens that number is 0, 1 or 3n - 3 |
| `Tokenizer.HashInto` | backend/memory/embedder.py:128-134 | adds one to or takes one from one entry, in place |
| `Tokenizer.Embed` | backend/memory/embedder.py:87-102 | the vector has 256 entries and holds the hashes of all tokens, pairs and triples |
| `Tokenizer.EntriesCountHits` | backend/memory/embedder.py:128-134 | each entry is the number of shingles that hit it with plus less the number that hit it with minus |
| `Tokenizer.ShinglesAreWindows` | backend/memory/embedder.py:93-102 | the shingles are the windows of one, two and three tokens, in this order |
| `Tracing.Tracer.EmitEvent` | backend/observability/events.py:82-90 | an event inside a span gets a new id and no parent |
| `Tracing.Tracer.constructor` | backend/observability/tracing.py:20-23 | a new context begins with a copy of the span stack it was started in |
| `Tracing.Tracer.EmitSpan` | backend/observability/events.py:190-227 | logs a start under the enclosing span, the body, and an end, and puts the span stack back, also when an exception leaves the body |
| `Tracing.Tracer.RunBody` | backend/observability/tracing.py:40-64 | any nesting of spans, calls and exceptions restores the stack and logs exactly what was executed |
| `Tracing.LogIsBracketed` | backend/observability/events.py:207-227 | starts and ends are well bracketed, and every parent is the innermost open span |
| `Tracing.LogKnows` | backend/observability/events.py:207-227 | in a log that holds the events of a forest among others, the spans started under each span of the forest are its children, in order |
| `Tracing.ChildrenOfContext` | backend/observability/tracing.py:20-37 | whatever is logged in between, the children that a context has started under any span are found in its own events |
| `Tracing.RebuildOwn` | backend/observability/events.py:207-217 | following the links of the whole log, and then looking at one context, gives back the spans that its own events know |
| `Tracing.ForksHangWhereTheyStarted` | backend/observability/tracing.py:20-37 | what a context executed hangs in the whole log below the span it was copied in, in order, and below no other span from outside it |
| `Tracing.LinksRebuildEveryTree` | backend/observability/events.py:190-227 | from the interleaved log of any number of contexts, independent or copied while a span was open, the links alone rebuild exactly the span trees that each context executed; the length of the log is depth enough |
| `Tracing.CallsAreInvisibleToLinks` | backend/observability/events.py:85-90 | an event that is no span changes nothing in what the links rebuild |
| `Tracing.ExecuteConcat` | backend/observability/events.py:190-227 | actions after an exception do not run, and without one they run after the others |
| `Tracing.ExecuteSingle` | backend/observability/events.py:190-227 | a block leaves a span with what has run inside, also when an exception leaves it, and lets the exception through unless it is caught |
| `Tracing.CaughtExceptionSkipsTheRest` | backend/observability/events.py:190-227 | an exception skips what follows it in its block, up to the block that catches it, and nothing else |
| `Tracing.IdsAreFresh` | backend/observability/events.py:190-205 | spans and other events get ids of their own, taken one after the other |

## Left out

- Judge.ScoreFindings: the LLM verdict beside the score, the events and the command line of the gate are not modelled.
- Ingest.Store.IngestRepo: embedding vectors, timestamps, the file walk and decoding are not modelled; each path is taken to come once.
- Ingest.Store.UpsertChunk: the embedding and timestamp columns are not modelled; the embedding is a function of the text.
- Ingest.Store.UpdateFileIndex: the time of indexing is not modelled.
- Ingest.InterruptionIsHarmless: hash collisions are not modelled.
- RateLimiting.TokenBucket.Allow: floating-point rounding is not modelled, here or in the other real-valued parts.
- RateLimiting.BucketConforms: stated for a clock that does not run backwards and a capacity and rate that are not negative; the exact decision rule needs neither.
- Gate.MergedIsWinner: findings are those of the four agents with a confidence and a known severity; defaults for absent dictionary fields are not modelled.
- Gate.DecideNode: the column that stores the confidence rounds it to three digits; the model keeps it exact.
- Reliability.RetryCall: delays are taken to be non-negative; the default list of exceptions is modelled as "retried", everything outside it as fatal.
- BreakerOverlap.OverlapBound: reading the state, recording an answer and resetting are one step each; a lost update between two unlocked increments is not modelled.
- Reliability.OutageTraffic: one client and its calls one after another; each queue job builds a client of its own (`backend/job_queue/arq_worker.py:60`), so this bounds no group of jobs.
- Webhook.StepKeepsInv: signature check and parsing (before `backend/webhook_receiver/router.py:94`) are not modelled; a database error, like a crash, ends the handler.
- Pipeline.Database.RunReviewPipeline: the diff, the review text, timestamps and the returned dictionary are not modelled; the review row is taken to exist, as the manual endpoint checks first.
- Pipeline.Database.UpdateReviewStatus: the time of posting and the rounding of the stored confidence are not modelled.
- Pipeline.Database.Approve: the time of the decision is not modelled.
- Pipeline.Database.Reject: the time of the decision is not modelled.
- Pipeline.Database.PostReview: which requests the client sends, and whether its circuit is open, is the subject of `Reliability.GitHubClient.Send`; here a call returns an id or raises.
- Pipeline.Database.Enqueue: rows are values in a list and ids are positions in it; the queries that only read rows are not modelled.
- Worker.JobWorker.PipelineJob: fetching the diff and the job's time limit are not modelled; a cancelled job is a killed run of `System`.
- System.StepKeepsInv: fetching the diff before a job's run and the agents' own events are not modelled; the queue may deliver a job any number of times, and never has to.
- Fusion.Merge: chunk results are values in a map; updating the shared object in place is not modelled.
- Fusion.RetrieveHybrid: the lanes are given, each without repeated chunks; `rrf_k` is positive and `top_k` not negative, as in every call. Repository, path and index of a chunk are carried along like its content.
- Tokenizer.JoinedTextHasSameTokens: the case mapping is any function that leaves lowered characters and spaces alone; the Unicode tables are not modelled.
- Tokenizer.Embed: L2 normalisation is not modelled, and one method serves the three loops over tokens, pairs and triples.
- Tracing.Tracer.EmitSpan: an event that cannot be written, and explicit span ids or parents, are not modelled.
- Regular expressions (injection guard, secret masking), prompts, agents and LLM parsing, LangGraph, the database and queue drivers, vector and full-text ranking, authentication, the frontend and deployment.
- Budget guard, drift detection, routing advisor, capability scopes and the dependency checker: lookups and short arithmetic.
