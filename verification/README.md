# Batching machinery: a verified model

This project models the asynchronous batching machinery of the sentiment-analysis service and the arithmetic
and scheduling loops behind it, and proves what those parts are there to guarantee.

Every component is described twice. A *model* module gives its operations as functions on a value of its
state (for the scaler, the two-pass definition of its statistics), and states and proves the properties that
span operations: invariants of every step, theorems over every run, and characterisations of the state by the
history alone. A second module gives the component with the source's fields and loops, as a class where the
source has one, and proves each method against the model.

| component | model | methods |
|---|---|---|
| stream processor | `StreamModel` | `StreamProcessor` |
| online scaler | `Moments` | `OnlineNormalization` |
| batch jobs and their counters | `JobModel` | `BatchJobManager` |
| result cache | `CacheModel` | `ResultCacheManager` |
| chunked processing and pages | `Chunking`, `ResultPages` | `JobBatches` |
| batch service (queues, workers, clients) | `ProcessModel`, `ServiceModel`, `ServiceTheorems`, `ServiceRuns` | `PriorityQueueManager`, `AsyncBatchService` |
| GPU distribution | `GpuModel` | `GpuBatchOptimizer` |
| filtering and merging of batches | `Text`, `GatherScatter` | `BatchPrediction` |
| circuit breaker | `BreakerModel` | `CircuitBreaker` |
| Kafka retries and duplicates | `KafkaModel` | `KafkaConsumer` |
| data-lake writer | `LakeModel` | `DataLakeWriter` |

Conventions:

- A coroutine is cut into steps at its suspension points, and the steps of different coroutines interleave
  freely. In the stream processor an acquisition of the lock is such a point, because a loop task sleeps with
  the lock held. The locks of the batch service and the cache are never held across a suspension, so taking
  them does not suspend and is part of a step.
- `_process_job` suspends nowhere once it runs, because `predict_async_batch` does not; `asyncio.wait_for` runs
  `queue.get` in a task of its own, so a job that left its queue and the look at it are two steps.
- Nothing else runs during a step, but the clock does. Processing a job takes a reading for every look, every
  time-out test and every time stamp, in the order of the code; reading results, sweeping and the circuit
  breaker also read it as often as the code does. Where a single check also stamps the time, both use one
  reading. Only theorems that say so need a clock that never goes back.
- Floats are real numbers, and time is a real number passed to each operation. The square root is a
  parameter. Job ids are fresh by requirement, as uuids are.
- `model.predict_batch` is a parameter: it may return any list or raise. Where a theorem needs a predictor
  that answers every text on its own, it says so.
- A future, a task, a flush or a timer loop is named by its position in a sequence that only grows, a job by its id.

Where the code does not do what its documentation or the plain reading of it promises, the model follows the
code, a lemma shows a concrete run, and another gives the exact condition or amount:

- A request accepted while `shutdown` waits for the task it cancelled can stay queued for ever, although
  `shutdown` says that remaining requests are processed (`StrandedDuringShutdown`; `NeverStrandedIff`).
- A job whose deadline passes during its last prediction is expired, completed all the same, and expired again:
  one job then counts as two failed and one completed, and `active_jobs` falls by two
  (`CompletedAfterExpiring`; `ExpiredByTheDeadline` for the job, `ActiveAfterProcess` for the counter).
- A job looked at exactly on its deadline is still valid but already timed out, and `active_jobs` goes on
  counting it (`ExpiredOnTheDeadline`; the same two lemmas).
- A finished job is expired by the first look after its deadline: its results stay stored, and perhaps cached, but
  no client is given them again (`ReadableUntilTheDeadline`; `AnsweredUntilTheDeadline`, `WithheldForGood`).
- The sweep counts differently from the lazy expiry (`SweptCancellationGoesNegative`). `LedgerHolds` says by how
  much each counter parts from the jobs along all the moves the code makes, `LedgerOfService` that the operations
  of the service, which make no other moves, leave exactly the counters and the tally of that ledger.
- Reading the metrics sets `queue_size` to the length of the queues, which is not the number of pending jobs
  (`QueueSizeWhenRead` says how they differ).
- A negative configured batch size drops every text (`NegativeSizeDropsTexts`; `DistributionKeepsTexts`), and an
  empty list makes the distribution raise, unless the size is negative (`EmptyListRaises`).
- Memory almost full, which is to make batches smaller, makes them larger if fewer than eight are configured
  (`HighUseRaisesSize`; `MemoryMovesSize`).
- A batch that fails on its GPU stays in that GPU's load for good (`FailureStaysInLoad`; `LoadsSettle`).
- Stopping the data-lake writer can cancel an upload and lose its records (`StopCanLose`;
  `SettledMeansUploaded`), and leaves the timer loop running if a write that filled the buffer took its place as
  the background task (`TimerOutlivesStop`; `StopEndsTimersIff`).

## Model

| member | source | states |
|---|---|---|
| StreamModel.ExactlyOnce | app/services/stream_processor.py:185-286 | in every state of every interleaving each accepted request either left the queue, in order of acceptance and in a non-empty batch within the limit, and has its one answer, or is queued exactly once and open; the statistics, unless reset, count exactly the requests, batches and hits |
| StreamModel.EachGetsItsOwn | app/services/stream_processor.py:284-337 | in every reachable state request `j` of a call, unless its client gave up, holds result `j` of that call, the length mismatch if there are fewer results, or the exception the call raised |
| StreamModel.HitsAreCounted | app/services/stream_processor.py:332-333 | the hits counted are exactly the results of returned calls that came from a cache |
| StreamModel.ReturnedAreCounted | app/services/stream_processor.py:326-326 | the batches counted are exactly the calls that returned |
| StreamModel.StatsCountSinceReset | app/services/stream_processor.py:385-393 | after a reset the statistics count exactly what was accepted and served since, whatever was waiting at the time |
| StreamModel.AnswersAreSettled | app/services/stream_processor.py:273-337 | result `j` of a call answers request `j` of its batch; a request without a result, and every request of a call that raised, gets an exception, never nothing |
| StreamModel.SettledNeverChanges | app/services/stream_processor.py:284-337 | a future once settled keeps its value through every continuation, and no accepted request is forgotten |
| StreamModel.StepKeepsInv | app/services/stream_processor.py:185-426 | order, answers, batch bounds, counters and the use of the lock survive every step of submitters, overlapping loop tasks, abandoning clients and shutdown |
| StreamModel.NobodyStranded | app/services/stream_processor.py:185-217 | while requests are queued some loop task is scheduled or alive, and a raised flag means a started task, even when tasks overwrite the flag, in every run of a new processor that submits nothing while shutdown awaits the cancelled task |
| StreamModel.StepStrandsIff | app/services/stream_processor.py:185-217 | one step leaves requests queued without any task exactly if it delivers the cancellation to the last unfinished task over a non-empty queue |
| StreamModel.NeverStrandedIff | app/services/stream_processor.py:402-426 | over a whole run nobody is ever stranded if and only if no step is such a cancellation |
| StreamModel.StrandedDuringShutdown | app/services/stream_processor.py:189-426 | a run that ends with shutdown complete, a request queued and every task finished |
| StreamModel.LoopEndsOnEmptyQueue | app/services/stream_processor.py:211-217 | a task ends only by seeing the queue empty after its long sleep, with the lock held throughout, or by being cancelled |
| StreamModel.ShutdownLeavesNobodyPending | app/services/stream_processor.py:402-411 | when the draining loop has ended, every request accepted so far is settled |
| StreamModel.BoundedOvertaking | app/services/stream_processor.py:241-254 | after enough batches to cover its place in the queue a request has been served; nothing overtakes it |
| StreamModel.EnoughAttemptsSettle | app/services/stream_processor.py:205-256 | progress in every interleaving: once loop tasks have tried to pop often enough, at times when the request and all before it are due, for full batches to reach its place, it is settled |
| StreamModel.ScheduleSettles | app/services/stream_processor.py:202-256 | from every state with an unfinished task, that task's own steps alone settle a request as soon as it and all before it are due, within two steps for each full batch ahead of it and two more, whatever the model does |
| StreamModel.NoDeadlock | app/services/stream_processor.py:181-256 | so in every run of a new processor that submits nothing while shutdown awaits the cancelled task, each waiting request always has such a schedule |
| StreamModel.OverdueIsServed | app/services/stream_processor.py:237-254 | a pop attempt that finds the oldest request overdue serves it |
| StreamModel.TakeServesUnlessTooEarly | app/services/stream_processor.py:233-256 | a pop attempt serves nobody if and only if the limit is not positive, the queue is empty, or it holds fewer than the limit, the oldest is younger than the maximal wait, and there are too few for the minimum or the oldest is younger than half that wait; otherwise it serves the oldest requests, up to the limit |
| StreamModel.SmallBatchesHaveWaited | app/services/stream_processor.py:241-254 | a batch below the limit had waited at least half the maximal wait, and one below the minimum all of it |
| StreamModel.DrainServes | app/services/stream_processor.py:402-409 | a round of the draining loop serves the oldest requests without waiting, up to the limit |
| StreamProcessor.StreamProcessor.PredictAsync | app/services/stream_processor.py:181-190 | is the submission step: appends the request and starts a loop task exactly if the flag is down |
| StreamProcessor.StreamProcessor.ShouldProcessBatch | app/services/stream_processor.py:233-256 | pops exactly the oldest requests up to the limit if one of the three triggers fires, and nothing otherwise |
| StreamProcessor.StreamProcessor.ProcessSingleBatch | app/services/stream_processor.py:258-286 | settles every open future of the batch with its own answer, whatever the model did, and no other future |
| StreamProcessor.StreamProcessor.FinalizeBatchProcessing | app/services/stream_processor.py:325-337 | counts the batch and its hits and resolves futures pairwise up to the shorter list |
| StreamProcessor.StreamProcessor.LoopTake | app/services/stream_processor.py:205-209 | is the pop-and-serve step of a loop task |
| StreamProcessor.StreamProcessor.LoopCheck | app/services/stream_processor.py:211-213 | is the look under the lock, which is kept while sleeping over an empty queue |
| StreamProcessor.StreamProcessor.LoopWake | app/services/stream_processor.py:214-217 | is the second look, after which the task goes on or ends and lowers the flag |
| StreamProcessor.StreamProcessor.ResetStats | app/services/stream_processor.py:385-393 | is the reset of the statistics, which needs no lock |
| StreamProcessor.StreamProcessor.ShutdownDrain | app/services/stream_processor.py:402-409 | is one round of the draining loop |
| StreamProcessor.StreamProcessor.ShutdownCancel | app/services/stream_processor.py:411-426 | is the cancellation of the last task started, or the end of shutdown if there is none |
| StreamProcessor.StreamProcessor.LoopCancelled | app/services/stream_processor.py:202-217 | is the delivery of the cancellation: the lock is released, and a started loop lowers the flag |
| OnlineNormalization.OnlineStandardScaler.PartialFit | app/features/online_normalization.py:63-85 | after any sequence of calls the arrays hold, per feature, the exact mean and sum of squared deviations of all rows accepted; an empty batch and one of another width change nothing |
| OnlineNormalization.OnlineStandardScaler.Absorb | app/features/online_normalization.py:78-83 | one row of Welford's recurrence keeps the two-pass definition for every feature |
| OnlineNormalization.OnlineStandardScaler.FitTransform | app/features/online_normalization.py:120-132 | fits, then transforms with the updated statistics, and raises exactly for an unfitted scaler given no rows or for a wrong width |
| Moments.WelfordStep | app/features/online_normalization.py:79-83 | the update of mean and spread by the product of the two deltas equals recomputing both from all rows |
| OnlineNormalization.OrderDoesNotMatter | app/features/online_normalization.py:45-85 | scalers fed the same rows, in any order and split into any batches, hold the same count, means and spreads |
| OnlineNormalization.SpreadOfConstant | app/features/online_normalization.py:83-83 | the spread is never negative and is zero exactly for a constant feature |
| OnlineNormalization.TransformCenters | app/features/online_normalization.py:114-118 | transforming all rows ever fitted gives every feature the sum zero |
| OnlineNormalization.TransformStandardizes | app/features/online_normalization.py:114-118 | and squares summing to the number of rows less one, unless the feature is constant, when all its values are zero |
| OnlineNormalization.TransformScores | app/features/online_normalization.py:101-118 | for any matrix of the fitted width every entry becomes its standard score by all rows ever fitted: of the sign of its distance from the mean, its square that distance squared over the sample variance, and the distance itself for a constant feature |
| OnlineNormalization.Scale | app/features/online_normalization.py:114-115 | the replaced deviation is never zero, so nothing is divided by zero |
| JobModel.OpKeepsLedger | app/services/batch_job_manager.py:140-386 | every operation, on whichever path it moves the counters, keeps the exact ledger of all five, updates that complete or fail a job after it expired included |
| JobModel.LedgerHolds | app/services/batch_job_manager.py:140-386 | after every run, `active_jobs`, `queue_size`, `total_jobs`, `completed_jobs` and `failed_jobs` equal the numbers of jobs in those states plus or minus exactly the jobs the sweep, the time-out path and the updates of expired jobs counted differently, and the shift of the last read of the metrics |
| JobModel.RunFixesTally | app/services/batch_job_manager.py:140-386 | the operations alone determine the state they lead to and what is tallied |
| JobModel.SweptCancellationGoesNegative | app/services/batch_job_manager.py:310-386 | create, cancel, sweep: `active_jobs` is -1 with no job active |
| JobModel.SweepExpires | app/services/batch_job_manager.py:367-386 | the sweep expires exactly the pending, processing and cancelled jobs whose deadline the clock read for them has passed, and changes no other |
| JobModel.LookExpires | app/services/batch_job_manager.py:170-180 | a look expires a job if and only if it comes after the deadline and the job is not expired already |
| JobModel.CheckExpires | app/services/batch_job_manager.py:277-292 | so does the validity check, which spares cancelled jobs; valid are exactly the jobs not closed and not past their deadline |
| JobModel.CancelCancels | app/services/batch_job_manager.py:310-327 | a cancellation reaches exactly pending and processing jobs |
| JobModel.UpdateWrites | app/services/batch_job_manager.py:211-232 | an update writes the status and the fields given, and leaves the others |
| JobModel.LimitIs | app/services/batch_job_manager.py:118-125 | a limit that is missing or zero is the configured default, a positive one is itself, and none ends below one |
| BatchJobManager.BatchJobManager.CreateJob | app/services/batch_job_manager.py:115-152 | rejects an empty list unchanged, otherwise stores a pending job with both limits at least one |
| BatchJobManager.BatchJobManager.GetJob | app/services/batch_job_manager.py:163-181 | returns the job as it now is, after expiring it lazily; a returned job past its deadline is expired |
| BatchJobManager.BatchJobManager.UpdateJobStatus | app/services/batch_job_manager.py:211-254 | writes the status unconditionally and exactly the fields given, and moves the counters by old and new status |
| BatchJobManager.BatchJobManager.IsJobValid | app/services/batch_job_manager.py:277-292 | true exactly for a job neither closed nor past its deadline; expires it otherwise |
| BatchJobManager.BatchJobManager.CancelJob | app/services/batch_job_manager.py:303-327 | cancels exactly pending and processing jobs |
| BatchJobManager.BatchJobManager.CleanupExpiredJobs | app/services/batch_job_manager.py:367-386 | one round of the sweep expires exactly the selected jobs and counts each once |
| CacheModel.SizeAfterWrite | app/services/result_cache_manager.py:74-90 | a write leaves at most max(1, limit) entries |
| CacheModel.EnforceSize | app/services/result_cache_manager.py:144-154 | eviction leaves exactly one place free, or nothing to remove |
| CacheModel.EvictsOldest | app/services/result_cache_manager.py:150-154 | everything evicted for size is at least as old as everything kept |
| CacheModel.WriteKeepsFresh | app/services/result_cache_manager.py:74-90 | a write keeps fresh entries only, unchanged, and all of them if they leave room; else just enough go, none younger than one kept; the id written is then held |
| CacheModel.FreshStaysAHit | app/services/result_cache_manager.py:74-124 | a fresh entry is still a hit after another id was written while there was room |
| CacheModel.TraceIsBounded | app/services/result_cache_manager.py:74-154 | through every run the cache stays a dictionary within the limit |
| CacheModel.Provenance | app/services/result_cache_manager.py:81-90 | every payload held was stored by a write that found no entry of its id left, and was never changed since, later writes of its id notwithstanding |
| CacheModel.HitIsFresh | app/services/result_cache_manager.py:109-124 | a hit returns the payload first stored for its id since the id was last removed, younger than the time to live |
| ResultCacheManager.ResultCacheManager.CacheResult | app/services/result_cache_manager.py:59-90 | clean up, make room, insert unless present |
| ResultCacheManager.ResultCacheManager.GetCachedResult | app/services/result_cache_manager.py:109-124 | answers a fresh entry and deletes a stale one |
| ResultCacheManager.ResultCacheManager.ClearCache | app/services/result_cache_manager.py:166-170 | empties the cache |
| ResultCacheManager.ResultCacheManager.CleanupExpiredCache | app/services/result_cache_manager.py:126-139 | removes exactly the stale entries |
| ResultCacheManager.ResultCacheManager.EnforceCacheSizeLimit | app/services/result_cache_manager.py:144-154 | removes exactly the oldest entries, ties by order of insertion |
| Chunking.ChunksPartition | app/services/async_batch_service.py:427-440 | the slices of `range(0, n, size)` put together are the list |
| Chunking.ChunksBounded | app/services/async_batch_service.py:424-440 | no slice is empty or longer than the size |
| Chunking.ChunksFull | app/services/async_batch_service.py:427-440 | every slice but the last has exactly the size |
| JobBatches.ChunkSizeIs | app/services/async_batch_service.py:424-425 | the size is the job's limit, but no more than its texts, and at least one |
| JobBatches.ErrorsAreCounted | app/services/async_batch_service.py:460-461 | the errors counted are exactly the results labelled ERROR |
| JobBatches.ProcessJobBatches | app/services/async_batch_service.py:418-477 | whatever the checkpoints see, the results are the predictions of exactly the chunks before the first one that stops the loop; only a time-out discards them; the reports are those after each chunk |
| JobBatches.CountFailures | app/services/async_batch_service.py:460-461 | counts the results labelled ERROR |
| JobBatches.ChunkingIsTransparent | app/services/async_batch_service.py:424-462 | for a pointwise model the results are the pointwise predictions in text order, for every `max_batch_size` |
| JobBatches.FailuresStayInTheirChunk | app/services/async_batch_service.py:443-462 | a call that raises turns exactly the texts of its chunk into error results; every other position keeps its own prediction |
| JobBatches.OneResultPerText | app/services/async_batch_service.py:443-462 | there is one result per text, even when calls raise |
| JobBatches.ProgressIsMonotone | app/services/async_batch_service.py:464-475 | reported progress lies in [0, 1], never falls, and ends at 1 |
| ProcessModel.FinalJobIs | app/services/async_batch_service.py:333-416 | processing a valid job ends in the status its clock readings determine, and the job has results exactly if all its chunks went through, even when it is found expired afterwards |
| ProcessModel.FinalShows | app/services/async_batch_service.py:346-416 | the start time, progress, counts, end time and error a processed job shows: those of the chunks done before it stopped, or of all results and full progress exactly if all chunks went through |
| ProcessModel.ShownAfterChunks | app/services/async_batch_service.py:464-475 | after each chunk the job shows the number of results so far, the errors among them, and their share of its texts |
| ProcessModel.StopByDeadline | app/services/async_batch_service.py:427-440 | under a clock that never goes back, whether the loop is stopped by time depends on the test of the last chunk it can reach alone |
| ProcessModel.ProcessIsAllowed | app/services/async_batch_service.py:333-416 | every update of `_process_job` makes one of the moves the ledger knows, whatever the clock does meanwhile |
| ProcessModel.ProcessDrops | app/services/batch_job_manager.py:170-246 | processing lowers `active_jobs` once for a first look after the deadline, and at its end once, twice or not at all, as the readings say |
| ProcessModel.CollectedPredictions | app/services/async_batch_service.py:443-462 | the results collected after each chunk are the predictions for the chunks so far |
| ResultPages.PageInRange | app/services/async_batch_service.py:502-542 | a page in range holds its slice under its own number |
| ResultPages.PagePastEnd | app/services/async_batch_service.py:509-515 | any page past the end is the last page under its true number |
| ResultPages.PagesPartition | app/services/async_batch_service.py:502-515 | pages 1 to ceil(n / size), put together, are the results |
| ResultPages.HasMoreEndsAtLastPage | app/services/async_batch_service.py:514-540 | `has_more` is true exactly before the last page, for every page and page size asked for |
| ResultPages.SummaryCounts | app/services/async_batch_service.py:523-532 | successes and failures add up to the total exactly if every result has a label |
| ResultPages.PageSummary | app/services/async_batch_service.py:502-542 | every page shows its size, the total, and as summary the numbers of results labelled ERROR and labelled otherwise |
| ResultPages.PageByNumber | app/services/async_batch_service.py:502-515 | whatever page is asked for, each entry of the one served is the result its number and size say |
| ServiceModel.StepKeepsInv | app/services/async_batch_service.py:187-477 | submissions, workers, reads, cancellations, sweeps and clearing the cache each keep queues, jobs and cache consistent, whatever the clock reads while a job is processed |
| ServiceModel.SanitizedAway | app/services/async_batch_service.py:555-563 | a submission is rejected for its texts exactly if all are blank |
| ServiceModel.SanitizedIsClean | app/services/async_batch_service.py:560-560 | what is kept is non-empty and stripped, so that cleaning again changes nothing |
| ServiceModel.SanitizedInOrder | app/services/async_batch_service.py:555-563 | every text that is not blank is kept, stripped, once for each time it was submitted, in order |
| ServiceModel.SanitizedInParts | app/services/async_batch_service.py:555-563 | cleaning two lists together is cleaning one after the other |
| ServiceModel.SanitizedOne | app/services/async_batch_service.py:560-560 | a single text is kept, stripped, unless it is blank |
| Text.StripSplits | app/services/async_batch_service.py:560-560 | a text is blanks, then its stripped form, then blanks |
| ServiceTheorems.CacheIsInvisible | app/services/async_batch_service.py:245-266 | in every reachable state, for every job and page and whatever the clock reads at each look, the answer with the cache equals the answer from the job |
| ServiceTheorems.ResultsNeverChange | app/services/async_batch_service.py:351-373 | a job's texts and priority are fixed, and its results are written at most once |
| ServiceTheorems.AnsweredUntilTheDeadline | app/services/batch_job_manager.py:163-181 | in every reachable state a client is given a page if and only if the job is completed and the look at it comes no later than its deadline, cached results or not |
| ServiceTheorems.WithheldForGood | app/services/async_batch_service.py:245-266 | once a finished job was expired, no client is given its results in any later state, though they stay stored |
| ServiceTheorems.CachedIfCompleted | app/services/async_batch_service.py:366-381 | in every reachable state processing leaves a job's results in the cache if and only if it is completed then, and they are a hit until their time to live is over |
| ServiceTheorems.SweepSparesUntilTheDeadline | app/services/batch_job_manager.py:367-386 | in every reachable state the sweep expires a pending or cancelled job if and only if its clock has passed the deadline, and changes no other job |
| ServiceTheorems.ReadsExpire | app/services/async_batch_service.py:220-266 | reading status or results expires the job exactly if a look at it comes after the deadline, and changes no other job |
| ServiceTheorems.AcceptedIfRoom | app/services/async_batch_service.py:187-218 | a submission is stored if and only if some text is not blank, and is then pending at the end of its queue if and only if that has no positive limit or fewer jobs |
| ServiceTheorems.AnswersAgree | app/services/async_batch_service.py:231-266 | two answers for the same page, at any two moments of a run, are equal |
| ServiceTheorems.ClientsReadPredictions | app/services/async_batch_service.py:187-477 | end to end: with a pointwise model a client who is given a page is given that page of the predictions for the texts it submitted: entry by entry, for the text that is not blank at that place among all that are not, however often it was submitted |
| ServiceTheorems.PendingWaitsOnce | app/services/async_batch_service.py:191-203 | a pending job waits exactly once, in the queue of its own priority or in its worker's hand, and in no other lane |
| ServiceTheorems.QueueSizeWhenRead | app/services/async_batch_service.py:279-304 | in every reachable state the queues' total plus the pending jobs in workers' hands is the pending jobs plus the closed jobs still queued, so reading the metrics sets `queue_size` to the pending jobs less the former plus the latter |
| ServiceTheorems.LanesAreFifo | app/services/priority_queue_manager.py:97-130 | what was handed over followed by what is queued is what was enqueued, each id once, and a queue with a positive limit stays within it |
| ServiceTheorems.HistoryGrows | app/services/priority_queue_manager.py:97-130 | what was enqueued or handed over once stays so, in the same order |
| ServiceTheorems.ServedInOrder | app/services/priority_queue_manager.py:227-240 | of two jobs in one lane the one enqueued first is let go first |
| ServiceTheorems.LetGoIsSettled | app/services/priority_queue_manager.py:227-240 | a job its worker has let go of is no longer pending |
| ServiceTheorems.RejectedStaysFailed | app/services/async_batch_service.py:202-216 | a job rejected by a full queue is failed at once with that error, is never queued, and later is failed or expired |
| ServiceTheorems.ExpiredByTheDeadline | app/services/async_batch_service.py:323-416 | in every reachable state, processing leaves a job found valid expired if and only if its deadline has come by the time-out test of the last chunk it reaches or, if it gets through all, has passed at its last look; it has results if and only if it got through all chunks in time |
| ServiceTheorems.ActiveAfterProcess | app/services/batch_job_manager.py:170-246 | in every reachable state, by how much processing lowers `active_jobs`, as a function of the readings |
| ServiceRuns.CompletedAfterExpiring | app/services/async_batch_service.py:346-373 | a reachable state with one job, expired and with results, counted as two failed, one completed and -1 active |
| ServiceRuns.ExpiredOnTheDeadline | app/services/async_batch_service.py:479-483 | a reachable state with one job, expired on its deadline, that `active_jobs` still counts |
| ServiceRuns.ReadableUntilTheDeadline | app/services/async_batch_service.py:245-266 | a reachable state in which a client is answered at one moment and no longer at a later one, with the results still stored and cached |
| ServiceTheorems.StepIsRun | app/services/async_batch_service.py:187-477 | each step of the service is a run of manager operations along the allowed status moves, even when a deadline passes while a job is processed |
| ServiceTheorems.LedgerOfService | app/services/batch_job_manager.py:140-386 | the counters of every reachable state of the service are those of its own operations, step by step in order, and differ from the numbers of jobs by exactly the tally of these operations |
| PriorityQueueManager.PriorityQueueManager.EnqueueJob | app/services/priority_queue_manager.py:94-110 | appends unless the queue of that priority has a positive limit and is at it |
| PriorityQueueManager.PriorityQueueManager.DequeueJob | app/services/priority_queue_manager.py:122-130 | hands over the oldest id, or nothing exactly if the queue is empty |
| AsyncBatchService.AsyncBatchService.SubmitBatchJob | app/services/async_batch_service.py:187-218 | is the submission step, and succeeds exactly if some text is not blank and the queue is not full |
| AsyncBatchService.AsyncBatchService.GetJobResults | app/services/async_batch_service.py:245-266 | answers from the cache or the job, checking the status either way, each look at its own reading of the clock, and is the read step |
| AsyncBatchService.AsyncBatchService.CancelJob | app/services/async_batch_service.py:268-277 | is the cancellation step |
| AsyncBatchService.AsyncBatchService.GetBatchMetrics | app/services/async_batch_service.py:279-304 | overwrites `queue_size` with the total length of the queues, and is the step that reads the counters |
| AsyncBatchService.AsyncBatchService.WorkerTakes | app/services/priority_queue_manager.py:227-233 | is the dequeue step, enabled exactly if something is queued |
| AsyncBatchService.AsyncBatchService.WorkerProcesses | app/services/priority_queue_manager.py:235-240 | is the processing step, with the model's answers to the job's chunks and the clock read as the code goes on |
| AsyncBatchService.AsyncBatchService.ProcessJob | app/services/async_batch_service.py:333-381 | performs exactly the operations the model lists, and caches the results if the job is still completed at its last look |
| AsyncBatchService.AsyncBatchService.ProcessJobBatches | app/services/async_batch_service.py:420-477 | looks at the job, tests its time, predicts and reports, chunk by chunk, and stops exactly at the first chunk whose test comes after the deadline |
| AsyncBatchService.LoopsAgree | app/services/async_batch_service.py:418-477 | this loop ends exactly as `JobBatches.ProcessJobBatches` does when its checkpoints find what the looks and time-out tests find |
| AsyncBatchService.ReportsAgree | app/services/async_batch_service.py:464-475 | and makes the same reports |
| AsyncBatchService.AsyncBatchService.FinishJob | app/services/async_batch_service.py:347-404 | looks again, records the results or the time-out, and caches results only of a job still completed |
| AsyncBatchService.SanitizeTexts | app/services/async_batch_service.py:555-563 | strips the texts and keeps the non-blank ones in order |
| GpuModel.ArgMin | app/services/gpu_batch_optimizer.py:189-189 | the first GPU, by id, with the least load |
| GpuModel.DistributionKeepsTexts | app/services/gpu_batch_optimizer.py:225-246 | the batches in order are the texts if and only if the size is positive and a GPU can be selected or, for no texts, the size is not zero |
| GpuModel.EmptyListRaises | app/services/gpu_batch_optimizer.py:142-238 | an empty list makes the distribution raise if and only if the size wanted before the cut is not negative |
| GpuModel.NegativeSizeDropsTexts | app/services/gpu_batch_optimizer.py:236-246 | with batch size -1 a text is dropped without an error |
| GpuModel.MemoryMovesSize | app/services/gpu_batch_optimizer.py:154-165 | memory use above 0.85 halves the size but not below eight, and raises it if and only if fewer than eight are configured; use below 0.5 adds half up to the maximum, and lowers it if and only if more than the maximum, or less than -1, is configured |
| GpuModel.HighUseRaisesSize | app/services/gpu_batch_optimizer.py:154-158 | with four configured, memory almost full makes batches of eight |
| GpuModel.SizeIsCut | app/services/gpu_batch_optimizer.py:142-170 | the size is cut to the number of texts, and without a successful probe it is the one configured |
| GpuModel.DistributionSizes | app/services/gpu_batch_optimizer.py:225-246 | all batches but the last have exactly the size; with a single GPU all go to GPU 0 and no load changes |
| GpuModel.UtilizationFollows | app/services/gpu_batch_optimizer.py:191-208 | by utilization each batch goes to the GPU found to have most memory then |
| GpuModel.SpreadAfterDistribution | app/services/gpu_batch_optimizer.py:187-246 | least loaded: the largest difference of loads never exceeds the larger of what it was and the batch size |
| GpuModel.DistributionRaisesTotal | app/services/gpu_batch_optimizer.py:238-244 | under every strategy the total load rises by exactly the number of texts |
| GpuModel.RoundRobinIsFair | app/services/gpu_batch_optimizer.py:182-246 | round robin: within one call the numbers of batches of any two GPUs differ by at most one |
| GpuModel.LoadsSettle | app/services/gpu_batch_optimizer.py:244-294 | however calls overlap, the clamp at zero never takes effect, and once all batches are done a GPU's load is the texts of the batches that failed on it |
| GpuModel.FailureStaysInLoad | app/services/gpu_batch_optimizer.py:276-294 | a run after which nothing waits and a failed batch is still in its GPU's load |
| GpuModel.DealIsDealOut | app/services/gpu_batch_optimizer.py:238-244 | dealing raises the load table by exactly what its batches hold |
| GpuBatchOptimizer.ParallelIsTransparent | app/services/gpu_batch_optimizer.py:269-306 | whichever GPUs are chosen and fail, a pointwise predictor's results come back in text order |
| GpuBatchOptimizer.RaisesIfBothFail | app/services/gpu_batch_optimizer.py:276-306 | a call raises if and only if some batch fails on its GPU and on the CPU, and then what the first such batch raised |
| GpuBatchOptimizer.CallRestoresLoads | app/services/gpu_batch_optimizer.py:244-289 | after a call of its own a GPU's load is what it was plus what failed on it |
| GpuBatchOptimizer.GpuBatchOptimizer.SelectGpu | app/services/gpu_batch_optimizer.py:179-213 | selects by strategy, advancing the index for round robin and for its fallback only |
| GpuBatchOptimizer.GpuBatchOptimizer.GetOptimalBatchSize | app/services/gpu_batch_optimizer.py:142-170 | the size by memory in use, selecting a GPU to probe |
| GpuBatchOptimizer.GpuBatchOptimizer.DistributeBatches | app/services/gpu_batch_optimizer.py:225-246 | slices the texts and deals the slices, updating the load table for several GPUs only |
| GpuBatchOptimizer.GpuBatchOptimizer.ProcessBatchParallel | app/services/gpu_batch_optimizer.py:265-306 | distributes, runs every batch with the CPU as fallback, lowers loads, and reassembles in order or raises |
| GatherScatter.ScatterOfGather | app/models/base.py:352-376 | merging the filtered entries back puts each into its own place and the placeholder everywhere else |
| GatherScatter.GatherOfScatter | app/services/prediction.py:158-165 | filtering a merged list again gives back the answers used, in order |
| GatherScatter.GatheredInOrder | app/models/base.py:323-332 | what is filtered stands, in order, at exactly the flagged positions |
| GatherScatter.PassedOnInOrder | app/services/prediction.py:149-155 | the service passes on exactly the texts neither blank nor too long, stripped, in order |
| GatherScatter.PassedOnIsValid | app/services/prediction.py:149-155 | among the texts the service passes on, the model's layer finds nothing to filter out and nothing to cut |
| GatherScatter.AnswersUnlessInferenceFails | app/services/prediction.py:145-165 | the service answers if and only if the model is ready and infers at least one result per text passed on, and then one entry per text; its own iterator never runs out |
| GatherScatter.TwoLayersArePointwise | app/services/prediction.py:145-165 | for a pointwise model, position `i` holds the prediction for the stripped text `i` if it is non-blank and within the length limit, and the placeholder otherwise |
| GatherScatter.ModelLayerIsPointwise | app/models/base.py:323-376 | the model's layer alone answers a text that is not blank with the prediction for it stripped and cut, and a blank one with the placeholder |
| Text.TruncateIsPrefix | app/models/base.py:330-330 | cutting keeps the beginning, as many characters as allowed |
| BatchPrediction.IndicesRecoverFlags | app/models/base.py:358-358 | the test for membership in the index list finds exactly the valid positions |
| BatchPrediction.SentimentModel.PreprocessBatchTexts | app/models/base.py:323-332 | the non-blank texts, stripped and cut, with their indices |
| BatchPrediction.SentimentModel.BuildBatchResults | app/models/base.py:352-376 | hands the raw results to the listed positions in order, and raises exactly if there are too few |
| BatchPrediction.SentimentModel.PredictBatch | app/models/onnx_sentiment.py:439-501 | the model's layer, which asks for nothing if no text is valid and counts its predictions |
| BatchPrediction.PredictionService.PredictBatch | app/services/prediction.py:145-165 | the service's layer on top of it |
| BreakerModel.ClosedCountsFailures | app/services/load_balancer.py:174-201 | over every history, while closed the count is the failures since the last success or reset, and below the limit |
| BreakerModel.ConsecutiveAre | app/services/load_balancer.py:174-201 | consecutive failures are the failures after the last success or reset |
| BreakerModel.LastFailureIs | app/services/load_balancer.py:185-187 | the last failure is the one after which there was neither another nor a reset |
| BreakerModel.OpensAtLimit | app/services/load_balancer.py:188-201 | a closed breaker opens exactly at the failure that completes max(1, threshold) in a row |
| BreakerModel.OpenRunsAfterTimeout | app/services/load_balancer.py:148-164 | an open breaker runs a call if and only if the timeout has passed since the last failure and that failure's clock was not zero |
| BreakerModel.ClosesAfterTwoSuccesses | app/services/load_balancer.py:174-183 | calls close the breaker again only by the second success since it opened half, with no failure between |
| BreakerModel.SecondSuccessCloses | app/services/load_balancer.py:174-196 | while half-open nothing is rejected, and the breaker closes exactly at that success or a reset and opens exactly at a failure |
| CircuitBreaker.CircuitBreaker.Call | app/services/load_balancer.py:148-172 | rejects, or runs the function and records how it ended |
| CircuitBreaker.CircuitBreaker.Reset | app/services/load_balancer.py:211-220 | returns to the fresh state |
| KafkaModel.RetriesAreDivision | app/services/kafka_consumer.py:349-361 | after any failures each id's tracker value is its failures modulo max(1, limit), absent when zero, and its dispatches are its failures divided by it, none without a dead-letter queue |
| KafkaModel.RetryArithmetic | app/services/kafka_consumer.py:349-361 | and the dispatches are, in order, exactly the failures that complete a round for their id, each with the limit as retry count |
| KafkaModel.ExhaustedInOrder | app/services/kafka_consumer.py:349-361 | the failures dispatched are, in order and with their own message, exactly those that are a multiple of the limit for their id |
| KafkaModel.FailuresAre | app/services/kafka_consumer.py:345-352 | the failures handled are, in order, exactly those of the paired messages and results, a missing id being "unknown" |
| KafkaModel.OccurrencesAre | app/services/kafka_consumer.py:349-361 | an id's failures are the failures with that id |
| KafkaModel.BatchesDoNotMatter | app/services/kafka_consumer.py:329-361 | handling batch after batch is handling their failures in sequence, ids repeated inside a batch included |
| KafkaModel.WindowIsRecentHistory | app/services/kafka_consumer.py:388-394 | a partition's window is always the last accepted offsets of that partition, whatever happens on others |
| KafkaModel.DuplicateIffRecent | app/services/kafka_consumer.py:388-394 | an offset is reported as duplicate exactly if it is among the last N accepted of its partition |
| KafkaModel.AcceptedIs | app/services/kafka_consumer.py:388-394 | an offset is accepted unless it is one of the last N accepted before it |
| KafkaModel.OffersAre | app/services/kafka_consumer.py:388-391 | a partition sees exactly the offsets offered to it, in order |
| KafkaModel.WindowIsDistinct | app/services/kafka_consumer.py:389-393 | the window never holds an offset twice nor more than N |
| KafkaConsumer.KafkaConsumer.ExecuteBatch | app/services/kafka_consumer.py:273-322 | consumed stays processed plus failed, whether the model answers or an exception comes before or after the counters; one result per message or per prediction |
| KafkaConsumer.KafkaConsumer.HandleBatchResults | app/services/kafka_consumer.py:349-361 | retries or gives up each failure among the paired results, in order |
| KafkaConsumer.KafkaConsumer.ProcessBatch | app/services/kafka_consumer.py:333-337 | a batch that raises costs each of its messages exactly one retry, one that does not costs none |
| KafkaConsumer.KafkaConsumer.IsDuplicateMessage | app/services/kafka_consumer.py:388-394 | answers from the partition's window and slides it |
| LakeModel.RunConserves | app/services/data_writer.py:160-233 | in every interleaving of writes, flushes, failed uploads and cancellations each record is buffered, held by a flush, uploaded or lost, as often as it was accepted |
| LakeModel.LossIffCancelled | app/services/data_writer.py:137-145 | records are lost exactly when `stop` cancels a flush that holds some and whose upload does not go through |
| LakeModel.SettledMeansUploaded | app/services/data_writer.py:210-233 | with all flushes over and the buffer empty, every record has been uploaded exactly once per acceptance if and only if no such cancellation happened |
| LakeModel.StopEndsTimersIff | app/services/data_writer.py:128-165 | however often the writer is started, `stop` ends every timer loop if and only if no write that filled the buffer took the place of a timer still running |
| LakeModel.TimerOutlivesStop | app/services/data_writer.py:128-165 | a run in which it does not: start, one write, stop |
| LakeModel.StopCanLose | app/services/data_writer.py:139-165 | a run in which the only record is lost |
| DataLakeWriter.DataLakeWriter.Start | app/services/data_writer.py:128-135 | creates a timer loop and makes it the task, unless the task is still at work |
| DataLakeWriter.DataLakeWriter.TimerFires | app/services/data_writer.py:235-239 | a timer loop that wakes up calls `flush` and is inside it until it is over |
| DataLakeWriter.DataLakeWriter.WritePrediction | app/services/data_writer.py:154-165 | appends, and starts a flush that becomes the task exactly at the batch size |
| DataLakeWriter.DataLakeWriter.BeginFlush | app/services/data_writer.py:215-221 | takes the whole buffer and leaves it empty |
| DataLakeWriter.DataLakeWriter.EndUpload | app/services/data_writer.py:223-229 | records the upload, or keeps the records of a failed one |
| DataLakeWriter.DataLakeWriter.RetryLater | app/services/data_writer.py:231-233 | puts them back behind those that arrived meanwhile |
| DataLakeWriter.DataLakeWriter.CancelTask | app/services/data_writer.py:139-142 | is the cancellation step of `stop`: nothing if the task is done, else the flush it is in is interrupted and a timer ends |

## Left out

- StreamModel.NobodyStranded: assumes that nothing is submitted while shutdown awaits the cancelled task; `NeverStrandedIff` gives the exact condition on the steps.
- StreamModel.ExactlyOnce: one shutdown coroutine; calling `shutdown` twice at once is not modelled, nor are the running averages of batch size and time.
- OnlineNormalization.OnlineStandardScaler.PartialFit: over the reals, without rounding; a one-dimensional input is a matrix of one column; saving and loading the state are not part of this model.
- JobModel.LedgerHolds: for status updates along the moves the service makes, since `update_job_status` checks nothing; `LedgerOfService` shows that the service makes no others.
- ServiceModel.StepKeepsInv: starting, stopping and restarting of workers is not modelled, nor are the running averages.
- ServiceTheorems.LedgerOfService: its line for `queue_size` is relative to the last call of `get_batch_metrics`, which overwrites that counter; `QueueSizeWhenRead` says with what.
- BatchJobManager.BatchJobManager.UpdateJobStatus: jobs are values in the manager's map, so a client that holds a job object does not see it change; the worker holds ids instead.
- AsyncBatchService.AsyncBatchService.SubmitBatchJob: a text that is not a string and a priority that is not one of the three are excluded by the types; the source drops the former and reads the latter as medium.
- AsyncBatchService.AsyncBatchService.ProcessJob: the cancellation checkpoints find nothing, because nothing else runs meanwhile; `JobBatches.ProcessJobBatches` treats them in general. An exception out of the loop is a case of the step system (`Run`), but not of this method, whose predictor turns every exception into results; one after the job was completed is not modelled.
- GpuModel.LoadsSettle: for more than one GPU; with one GPU loads are lowered but never raised and stay at zero. The free memory that the utilisation strategy compares is a parameter.
- BatchPrediction.SentimentModel.PredictBatch: tokenizer, session and softmax are one parameter that may return anything or raise; inference times are left out.
- BatchPrediction.PredictionService.PredictBatch: every text is a string; the source treats `None` like a blank text.
- BreakerModel.OpensAtLimit: calls do not nest, and there is one thread.
- KafkaModel.RetriesAreDivision: counts calls of `send_to_dlq`, whose own retries and network errors are not part of this model; throughput and time metrics are left out.
- LakeModel.RunConserves: an upload that raises has stored nothing; building and naming the Parquet file is not modelled.
- Drift detection, feature extraction, explainability, the prediction cache of single predictions, HTTP routes, settings, metrics export and tracing are not part of this model.
- The anomaly buffer, the health score and the load metrics are not part of this model.
