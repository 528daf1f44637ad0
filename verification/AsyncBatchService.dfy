/** The service's methods over its three managers, each proved to be one step of `ServiceModel`. */
module AsyncBatchService {
  import opened Basics
  import opened Text
  import opened Chunking
  import opened JobModel
  import opened CacheModel
  import opened JobBatches
  import opened ProcessModel
  import opened ResultPages
  import opened ServiceModel
  import J = BatchJobManager
  import Q = PriorityQueueManager
  import C = ResultCacheManager

  class AsyncBatchService {
    const jobManager: J.BatchJobManager
    const queueManager: Q.PriorityQueueManager
    const cacheManager: C.ResultCacheManager

    ghost function Cfg(): Config
    {
      Config(queueManager.Limit, jobManager.defaultBatchSize, jobManager.defaultTimeout,
             cacheManager.ttl, cacheManager.maxSize)
    }

    ghost predicate Valid()
      reads queueManager, cacheManager
    {
      queueManager.Valid() && IsDictionary(cacheManager.View())
    }

    ghost function View(): System
      reads jobManager, queueManager, cacheManager
    {
      System(jobManager.View(), queueManager.lanes, cacheManager.View())
    }

    constructor (jobManager: J.BatchJobManager, queueManager: Q.PriorityQueueManager,
                 cacheManager: C.ResultCacheManager)
      ensures this.jobManager == jobManager && this.queueManager == queueManager && this.cacheManager == cacheManager
    {
      this.jobManager, this.queueManager, this.cacheManager := jobManager, queueManager, cacheManager;
    }

    /** `submit_batch_job`: `id` is the fresh uuid of the job. */
    method SubmitBatchJob(id: string, texts: seq<string>, priority: Priority, maxBatchSize: Option<int>,
                          timeoutSeconds: Option<int>, now: real) returns (r: Result<Job>)
      requires Valid() && id !in jobManager.jobs
      modifies jobManager, queueManager
      ensures Valid()
      ensures View() == Next(Cfg(), old(View()), Submit(id, texts, priority, maxBatchSize, timeoutSeconds, now))
      ensures r.Ok? <==> Sanitize(texts) != [] && !IsFull(old(View()).lanes[priority], queueManager.Limit(priority))
      ensures var limit := queueManager.Limit(priority);
        r.Ok? <==> (exists k :: 0 <= k < |texts| && !IsBlank(texts[k])) &&
                   (limit <= 0 || |old(queueManager.queues)[priority]| < limit)
      ensures r.Ok? ==> r.value.texts == Sanitize(texts)
      ensures r.Ok? ==> exists places :: KeepsInOrder(texts, r.value.texts, places)
    {
      var cleaned := SanitizeTexts(texts);
      SanitizedAway(texts);
      if cleaned == [] {
        return Error("texts must contain at least one non-empty string");
      }
      r := jobManager.CreateJob(id, cleaned, priority, maxBatchSize, timeoutSeconds, now);
      var queued := queueManager.EnqueueJob(id, priority);
      if !queued {
        var _ := jobManager.UpdateJobStatus(id, SetStatus(Failed).(error := Some(QueueFull(priority))));
        r := Error(QueueFull(priority));
      }
    }

    method GetJobStatus(id: string, now: real) returns (job: Option<Job>)
      requires Valid()
      modifies jobManager
      ensures Valid() && View() == Next(Cfg(), old(View()), ReadStatus(id, now))
      ensures job == if id in jobManager.jobs then Some(jobManager.jobs[id]) else None
      ensures job.Some? && now > Deadline(job.value) ==> job.value.status == Expired
    {
      job := jobManager.GetJob(id, now);
    }

    /** `get_job_results`: the cache is asked first, the job's status is checked either way. */
    method GetJobResults(id: string, page: int, size: int, asked: real, now: real, again: real)
      returns (r: Option<Page>)
      requires Valid()
      modifies jobManager, cacheManager
      ensures Valid() && View() == Next(Cfg(), old(View()), ReadResults(id, asked, now, again))
      ensures r == Answer(Cfg(), old(View()), id, asked, now, again, page, size)
    {
      hide Paginate, IsDictionary, Lookup, AfterLookup, IsExpired;
      LookupKeepsDictionary(cacheManager.View(), id, asked, cacheManager.ttl);
      var cached := cacheManager.GetCachedResult(id, asked);
      if cached.Some? {
        var found := jobManager.GetJob(id, now);
        if found.Some? && found.value.status == Completed {
          return Some(Paginate(cached.value, page, size));
        }
        r := AnswerOf(id, again, page, size);
      } else {
        r := AnswerOf(id, now, page, size);
      }
    }

    /** The second half of `get_job_results`. */
    method AnswerOf(id: string, now: real, page: int, size: int) returns (r: Option<Page>)
      modifies jobManager
      ensures jobManager.View() == Get(old(jobManager.View()), id, now)
      ensures r == AnswerFrom(jobManager.View(), id, page, size)
    {
      var job := jobManager.GetJob(id, now);
      if job.None? || job.value.status != Completed || job.value.results.None? {
        return None;
      }
      r := Some(Paginate(job.value.results.value, page, size));
    }

    method CancelJob(id: string, now: real) returns (cancelled: bool)
      requires Valid()
      modifies jobManager
      ensures Valid() && View() == Next(Cfg(), old(View()), ServiceModel.CancelJob(id, now))
      ensures cancelled == Cancellable(old(View()).mgr, id)
      ensures var before := old(jobManager.jobs);
        && (cancelled <==> id in before && (before[id].status == Pending || before[id].status == Processing))
        && (cancelled ==> id in jobManager.jobs && jobManager.jobs == before[id := jobManager.jobs[id]])
        && (cancelled ==> jobManager.jobs[id].status == Cancelled)
    {
      cancelled := jobManager.CancelJob(id, now);
    }

    /** `get_batch_metrics`, as far as it writes. */
    method GetBatchMetrics() returns (queueSize: int)
      requires Valid()
      modifies jobManager
      ensures Valid() && View() == Next(Cfg(), old(View()), ReadCounters)
      ensures queueSize == TotalQueued(View()) == jobManager.queueSize
    {
      queueSize := |queueManager.queues[High]| + |queueManager.queues[Medium]| + |queueManager.queues[Low]|;
      jobManager.SetQueueSize(queueSize);
    }

    /** One round of a worker's loop up to the validity check: the first of its two suspension points. */
    method WorkerTakes(p: Priority) returns (taken: bool)
      requires Valid() && queueManager.hands[p] == None
      modifies queueManager
      ensures Valid()
      ensures taken <==> Enabled(old(View()), Dequeue(p))
      ensures View() == if taken then Next(Cfg(), old(View()), Dequeue(p)) else old(View())
    {
      var id := queueManager.DequeueJob(p);
      taken := id.Some?;
    }

    /** The rest of the round: check the job, process it, and forget it. */
    method WorkerProcesses(p: Priority, model: seq<string> -> ModelOutcome, clock: Clock) returns (ghost run: Run)
      requires Valid() && queueManager.hands[p].Some? && queueManager.hands[p].value in jobManager.jobs
      requires var job := jobManager.jobs[queueManager.hands[p].value]; job.status == Pending || IsClosed(job)
      modifies jobManager, queueManager, cacheManager
      ensures Valid()
      ensures View() == Next(Cfg(), old(View()), Process(p, clock, run))
      ensures run == Predicted(model, old(jobManager.jobs)[old(queueManager.hands)[p].value])
    {
      var id := queueManager.hands[p].value;
      run := Predicted(model, jobManager.jobs[id]);
      queueManager.LetGo(p);
      var valid := jobManager.IsJobValid(id, clock(0));
      assert View() == Checked(old(View()), p, clock(0));
      if valid {
        ProcessJob(id, model, clock);
      }
    }

    /** `_process_job` on a valid job; the clock is read as the code goes on. */
    method ProcessJob(id: string, model: seq<string> -> ModelOutcome, clock: Clock)
      requires Valid() && id in jobManager.jobs && jobManager.jobs[id].status == Pending
      modifies jobManager, cacheManager
      ensures Valid()
      ensures View() == AfterProcess(Cfg(), old(View()), id, clock, Predicted(model, old(jobManager.jobs)[id]))
    {
      hide ChunkOps, EndOps, Collected, CountErrors, Chunks, IsDictionary;
      ghost var start, job := jobManager.View(), jobManager.jobs[id];
      Opened(start, id, clock);
      var current := jobManager.GetJob(id, clock(2));
      if current.Some? && current.value.status != Cancelled {
        var _ := jobManager.UpdateJobStatus(id, StartUpdate(clock(1)));
        ghost var started := jobManager.View();
        var r, k := ProcessJobBatches(id, model, clock, job);
        Closed(start, started, id, clock, model, r, k);
        FinishJob(id, r, k, clock);
      }
    }

    /**
      `_process_job_batches` on the job being processed: before each chunk the job is looked at and its
      time tested, after each chunk its progress is reported.
     */
    method ProcessJobBatches(id: string, model: seq<string> -> ModelOutcome, clock: Clock, ghost job: Job)
      returns (r: BatchesOutcome, k: nat)
      requires id in jobManager.jobs && Underway(job, jobManager.jobs[id])
      modifies jobManager
      ensures LoopEnded(job, model, clock, r, k)
      ensures jobManager.View() == AfterLoop(old(jobManager.View()), id, job, clock, Predicted(model, job), k)
      ensures id in jobManager.jobs && InLoop(job, jobManager.jobs[id])
    {
      hide Predicted, Predictions, Reports, CountErrors, ReportsOf, Chunks;
      var texts := jobManager.jobs[id].texts;
      var size := ChunkSize(|texts|, jobManager.jobs[id].maxBatchSize);
      ghost var started, run, done: seq<seq<string>> := jobManager.View(), Predicted(model, job), [];
      var all: seq<Prediction>, failedCount, reports, i := [], 0, [], 0;
      k := 0;
      NothingGathered(model);
      while i < |texts|
        invariant k == |done| && i <= |texts|
        invariant AtChunk(texts, size, i, done) && InTime(job, clock, k)
        invariant Gathered(model, done, all, failedCount, reports)
        invariant jobManager.View() == ApplyAll(started, ChunkOps(id, clock, ReportsOf(run, |texts|), k))
        invariant id in jobManager.jobs && Underway(job, jobManager.jobs[id])
      {
        var seen := Look(id, clock, k, job);
        if seen == TimeoutSeen {
          StopHere(texts, size, i, done);
          StoppedByTime(job, model, clock, k);
          return TimedOut, k;
        }
        if seen != GoOn {
          break;
        }
        var end := Min(i + size, |texts|);
        ghost var u := OneMoreTurn(job, model, texts, size, i, end, done);
        InTimeAgain(job, clock, k);
        OneMorePair(started, id, clock, ReportsOf(run, |texts|), k);
        all, failedCount, reports :=
          ServeChunk(id, model, texts[i..end], all, failedCount, reports, |texts|, done, job, u);
        done := done + [texts[i..end]];
        i, k := end, k + 1;
      }
      StopAtEnd(texts, size, done);
      LoopIsDone(job, model, clock, done);
      r := Finished(all, failedCount);
    }

    /** The checkpoint before chunk `k`. */
    method Look(id: string, clock: Clock, k: nat, ghost job: Job) returns (seen: Checkpoint)
      requires id in jobManager.jobs && InLoop(job, jobManager.jobs[id])
      modifies jobManager
      ensures jobManager.View() == Apply(old(jobManager.View()), GetOp(id, clock(LookAt(k))))
      ensures id in jobManager.jobs && InLoop(job, jobManager.jobs[id])
      ensures seen == if HasTimedOut(job, clock(TestAt(k))) then TimeoutSeen else GoOn
    {
      var current := jobManager.GetJob(id, clock(LookAt(k)));
      seen := Missing;
      if current.Some? {
        seen := if current.value.status == Cancelled then CancelSeen
                else if HasTimedOut(current.value, clock(TestAt(k))) then TimeoutSeen
                else GoOn;
      }
    }

    /** The body of the loop past the checkpoint: predict, count, collect and report. */
    method ServeChunk(id: string, model: seq<string> -> ModelOutcome, batch: seq<string>, all: seq<Prediction>,
                      failedCount: nat, reports: seq<Report>, total: nat,
                      ghost done: seq<seq<string>>, ghost job: Job, ghost u: Update)
      returns (all': seq<Prediction>, failedCount': nat, reports': seq<Report>)
      requires Gathered(model, done, all, failedCount, reports)
      requires id in jobManager.jobs && InLoop(job, jobManager.jobs[id])
      requires Tells(u, model, done + [batch], total)
      modifies jobManager
      ensures id in jobManager.jobs && Underway(job, jobManager.jobs[id])
      ensures Gathered(model, done + [batch], all', failedCount', reports')
      ensures jobManager.View() == Apply(old(jobManager.View()), UpdateOp(id, u))
    {
      all', failedCount', reports' := Extend(model, batch, all, failedCount, reports, done);
      var _ := jobManager.UpdateJobStatus(id, ReportUpdate(Report(|all'|, failedCount'), total));
    }

    /** The end of `_process_job`: look, record the outcome, look again and cache. */
    method FinishJob(id: string, r: BatchesOutcome, k: nat, clock: Clock)
      requires IsDictionary(cacheManager.View()) && id in jobManager.jobs && jobManager.jobs[id].status != Cancelled
      modifies jobManager, cacheManager
      ensures IsDictionary(cacheManager.View())
      ensures jobManager.View() == Recorded(old(jobManager.View()), id, r, k, clock)
      ensures cacheManager.View() ==
        if r.Finished? && IsCompleted(jobManager.View(), id)
        then Write(old(cacheManager.View()), id, r.results, clock(CacheAt(k)), cacheManager.ttl, cacheManager.maxSize)
        else old(cacheManager.View())
    {
      match r {
        case TimedOut =>
          var current := jobManager.GetJob(id, clock(RecheckAt(k)));
          if current.Some? && current.value.status != Cancelled {
            var _ := jobManager.UpdateJobStatus(id, TimeoutUpdate(clock(FailedAt(k))));
          }
        case Finished(results, failedCount) =>
          var current := jobManager.GetJob(id, clock(CheckAt(k)));
          if current.Some? && current.value.status != Cancelled {
            var _ := jobManager.UpdateJobStatus(id, FinishedUpdate(results, failedCount, clock(CompletedAt(k))));
            var refreshed := jobManager.GetJob(id, clock(RefreshAt(k)));
            if refreshed.Some? && refreshed.value.status == Completed {
              cacheManager.CacheResult(id, results, clock(CacheAt(k)));
            }
          }
      }
    }
  }

  function FinishedUpdate(results: seq<Prediction>, failedCount: nat, now: real): Update
  {
    Update(Completed, None, Some(results), None, Some(now), Some(1.0), Some(|results|), Some(failedCount))
  }

  /** How the loop ends: at the first chunk that does not go through, or with all results. */
  ghost predicate LoopEnded(job: Job, model: seq<string> -> ModelOutcome, clock: Clock, r: BatchesOutcome, k: nat)
  {
    var n, run := ChunkCount(job), Predicted(model, job);
    && k == Stop(job, clock, run)
    && r == if k < n then TimedOut else Finished(Collected(run, n), CountErrors(Collected(run, n)))
  }

  /** The manager after the first `k` chunks and, if there are more, the look before the next. */
  function AfterLoop(m: Manager, id: string, job: Job, clock: Clock, run: Run, k: nat): Manager
  {
    var looped := ApplyAll(m, ChunkOps(id, clock, ReportsOf(run, |job.texts|), k));
    if k < ChunkCount(job) then Apply(looped, GetOp(id, clock(LookAt(k)))) else looped
  }

  /** The manager after the operations that end processing. */
  function Recorded(m: Manager, id: string, r: BatchesOutcome, k: nat, clock: Clock): Manager
  {
    match r
    case TimedOut => Apply(Apply(m, GetOp(id, clock(RecheckAt(k)))), UpdateOp(id, TimeoutUpdate(clock(FailedAt(k)))))
    case Finished(results, failedCount) =>
      Apply(Apply(Apply(m, GetOp(id, clock(CheckAt(k)))),
                  UpdateOp(id, FinishedUpdate(results, failedCount, clock(CompletedAt(k))))),
            GetOp(id, clock(RefreshAt(k))))
  }

  lemma Opened(m: Manager, id: string, clock: Clock)
    requires id in m.jobs && m.jobs[id].status == Pending
    ensures var m' := UpdateStatus(Get(m, id, clock(2)), id, StartUpdate(clock(1)));
      && ApplyAll(m, StartOps(id, clock)) == m'
      && id in m'.jobs && Underway(m.jobs[id], m'.jobs[id])
  {
    ApplyTwo(m, GetOp(id, clock(2)), UpdateOp(id, StartUpdate(clock(1))));
  }

  /** When every chunk is done, nothing stopped the loop and all results are collected. */
  lemma LoopIsDone(job: Job, model: seq<string> -> ModelOutcome, clock: Clock, done: seq<seq<string>>)
    requires InTime(job, clock, |done|) && |done| == ChunkCount(job)
    requires done == Chunks(job.texts, ChunkSize(|job.texts|, job.maxBatchSize))[..|done|]
    ensures |done| == Stop(job, clock, Predicted(model, job))
    ensures Collected(Predicted(model, job), |done|) == Predictions(model, done)
  {
    var run := Predicted(model, job);
    assert forall j :: 0 <= j < |done| ==> Passes(job, clock, run, j);
    CollectedPredictions(model, job, |done|);
  }

  /** What the checkpoints of this class find: nothing else runs meanwhile, so only time can stop the loop. */
  function TimeSeen(job: Job, clock: Clock): nat -> Checkpoint
  {
    (k: nat) => if HasTimedOut(job, clock(TestAt(k))) then TimeoutSeen else GoOn
  }

  function ChunksOf(job: Job): seq<seq<string>>
  {
    Chunks(job.texts, ChunkSize(|job.texts|, job.maxBatchSize))
  }

  /** What `JobBatches.ProcessJobBatches` promises for a loop that stops after `k` chunks at `stop`. */
  ghost predicate LoopReturns(job: Job, model: seq<string> -> ModelOutcome, seen: nat -> Checkpoint,
                              r: BatchesOutcome, k: nat, stop: Checkpoint)
  {
    var chunks := ChunksOf(job);
    StopsAfter(seen, |chunks|, k, stop) && r == OutcomeOf(model, chunks[..k], stop)
  }

  lemma StopIsWhereSeen(job: Job, model: seq<string> -> ModelOutcome, clock: Clock, k: nat)
    requires k <= ChunkCount(job)
    ensures k == Stop(job, clock, Predicted(model, job)) <==>
      exists stop :: StopsAfter(TimeSeen(job, clock), ChunkCount(job), k, stop)
  {
    var seen, n, run := TimeSeen(job, clock), ChunkCount(job), Predicted(model, job);
    var s := Stop(job, clock, run);
    assert forall j: nat :: Passes(job, clock, run, j) <==> seen(j) == GoOn;
    hide Stop, ChunkCount, Predicted;
    if k == s {
      assert StopsAfter(seen, n, k, if k < n then seen(k) else GoOn);
    }
  }

  lemma {:induction false} ReportsByChunk(model: seq<string> -> ModelOutcome, chunks: seq<seq<string>>, j: nat)
    requires j < |chunks|
    ensures |Reports(model, chunks)| == |chunks|
    ensures Reports(model, chunks)[j] == ReportOf(Predictions(model, chunks[..j + 1]))
    decreases |chunks|
  {
    hide Predictions, ReportOf;
    var n := |chunks| - 1;
    if j < n {
      ReportsByChunk(model, chunks[..n], j);
      assert chunks[..n][..j + 1] == chunks[..j + 1];
    } else {
      assert chunks[..j + 1] == chunks;
      if n > 0 {
        ReportsByChunk(model, chunks[..n], 0);
      }
    }
  }

  /** The reports of this class's loop over `k` chunks are those of the loop over arbitrary checkpoints. */
  lemma ReportsAgree(job: Job, model: seq<string> -> ModelOutcome, k: nat, j: nat)
    requires j < k <= ChunkCount(job)
    ensures |Reports(model, ChunksOf(job)[..k])| == k
    ensures ReportsOf(Predicted(model, job), |job.texts|)(j)
      == ReportUpdate(Reports(model, ChunksOf(job)[..k])[j], |job.texts|)
  {
    hide Chunks, ChunkSize, Predicted, ReportUpdate, ReportOf, Predictions, Reports;
    var done := ChunksOf(job)[..j + 1];
    ReportIs(model, job, done, j);
    ReportsByChunk(model, ChunksOf(job)[..k], j);
    assert ChunksOf(job)[..k][..j + 1] == done;
  }

  lemma OutcomesAgree(job: Job, model: seq<string> -> ModelOutcome, seen: nat -> Checkpoint, k: nat, stop: Checkpoint)
    requires StopsAfter(seen, ChunkCount(job), k, stop) && (stop == GoOn || stop == TimeoutSeen)
    ensures OutcomeOf(model, ChunksOf(job)[..k], stop) ==
      var n, run := ChunkCount(job), Predicted(model, job);
      if k < n then TimedOut else Finished(Collected(run, n), CountErrors(Collected(run, n)))
  {
    hide CountErrors, Predictions, Collected, Predicted;
    CollectedPredictions(model, job, k);
  }

  /**
    The loop of this class ends exactly as the loop over arbitrary checkpoints does when these find what the
    job's looks and time-out tests find.
   */
  lemma LoopsAgree(job: Job, model: seq<string> -> ModelOutcome, clock: Clock, r: BatchesOutcome, k: nat)
    requires k <= ChunkCount(job)
    ensures LoopEnded(job, model, clock, r, k) <==>
      exists stop :: LoopReturns(job, model, TimeSeen(job, clock), r, k, stop)
  {
    var seen := TimeSeen(job, clock);
    StopIsWhereSeen(job, model, clock, k);
    hide Stop, Predicted, OutcomeOf, Collected, CountErrors;
    forall stop | StopsAfter(seen, ChunkCount(job), k, stop)
      ensures LoopEnded(job, model, clock, r, k) <==> LoopReturns(job, model, seen, r, k, stop)
    {
      OutcomesAgree(job, model, seen, k, stop);
    }
  }

  /** The time-out tests of the first `k` chunks pass. */
  ghost predicate InTime(job: Job, clock: Clock, k: nat)
  {
    forall j :: 0 <= j < k ==> !HasTimedOut(job, clock(TestAt(j)))
  }

  lemma InTimeAgain(job: Job, clock: Clock, k: nat)
    requires InTime(job, clock, k) && !HasTimedOut(job, clock(TestAt(k)))
    ensures InTime(job, clock, k + 1)
  {
  }

  /** The report on the results of the chunks done. */
  ghost predicate Tells(u: Update, model: seq<string> -> ModelOutcome, done: seq<seq<string>>, total: nat)
  {
    u == ReportUpdate(ReportOf(Predictions(model, done)), total)
  }

  /** One more turn of the loop, and the report it makes. */
  lemma OneMoreTurn(job: Job, model: seq<string> -> ModelOutcome, texts: seq<string>, size: nat, i: nat, end: nat,
                    done: seq<seq<string>>)
    returns (u: Update)
    requires texts == job.texts && size == ChunkSize(|texts|, job.maxBatchSize)
    requires i < |texts| && end == Min(i + size, |texts|) && AtChunk(texts, size, i, done)
    ensures AtChunk(texts, size, end, done + [texts[i..end]])
    ensures Tells(u, model, done + [texts[i..end]], |texts|)
    ensures u == ReportsOf(Predicted(model, job), |texts|)(|done|)
  {
    StepOver(texts, size, i, end, done);
    FirstChunks(texts, size, end, done + [texts[i..end]]);
    ReportIs(model, job, done + [texts[i..end]], |done|);
    u := ReportsOf(Predicted(model, job), |texts|)(|done|);
  }

  lemma FirstChunks(texts: seq<string>, size: nat, i: nat, done: seq<seq<string>>)
    requires size > 0 && i <= |texts| && AtChunk(texts, size, i, done)
    ensures |done| <= |Chunks(texts, size)| && done == Chunks(texts, size)[..|done|]
  {
  }

  lemma StoppedByTime(job: Job, model: seq<string> -> ModelOutcome, clock: Clock, k: nat)
    requires k < ChunkCount(job) && InTime(job, clock, k) && HasTimedOut(job, clock(TestAt(k)))
    ensures k == Stop(job, clock, Predicted(model, job))
  {
    var run := Predicted(model, job);
    assert forall j :: 0 <= j < k ==> Passes(job, clock, run, j);
    assert !Passes(job, clock, run, k);
  }

  /** One more look and report, as the operations list them. */
  lemma OneMorePair(m: Manager, id: string, clock: Clock, reports: ReportSource, k: nat)
    ensures ApplyAll(m, ChunkOps(id, clock, reports, k + 1)) ==
      Apply(Apply(ApplyAll(m, ChunkOps(id, clock, reports, k)), GetOp(id, clock(LookAt(k)))), UpdateOp(id, reports(k)))
  {
    var before := ChunkOps(id, clock, reports, k);
    ApplyInParts(m, before, ChunkPair(id, clock, reports, k));
    ApplyTwo(ApplyAll(m, before), GetOp(id, clock(LookAt(k))), UpdateOp(id, reports(k)));
  }

  /** The report the loop makes after chunk `k` is the one the operations list. */
  lemma ReportIs(model: seq<string> -> ModelOutcome, job: Job, done: seq<seq<string>>, k: nat)
    requires k + 1 == |done| <= ChunkCount(job)
    requires done == Chunks(job.texts, ChunkSize(|job.texts|, job.maxBatchSize))[..k + 1]
    ensures Tells(ReportsOf(Predicted(model, job), |job.texts|)(k), model, done, |job.texts|)
  {
    hide Predictions, Collected, Chunks, ChunkSize, Predicted, ReportUpdate, ReportOf;
    CollectedPredictions(model, job, k + 1);
  }

  /** What is recorded after the loop completes the operations of `_process_job`. */
  lemma Closed(start: Manager, started: Manager, id: string, clock: Clock, model: seq<string> -> ModelOutcome,
               r: BatchesOutcome, k: nat)
    requires id in start.jobs && started == ApplyAll(start, StartOps(id, clock))
    requires LoopEnded(start.jobs[id], model, clock, r, k)
    ensures var job, run := start.jobs[id], Predicted(model, start.jobs[id]);
      && var m := Recorded(AfterLoop(started, id, job, clock, run, k), id, r, k, clock);
      && m == ApplyAll(start, ProcessOps(job, id, clock, run))
      && (r.Finished? && IsCompleted(m, id) <==> FinalStatus(job, clock, run) == Completed)
  {
    var job, run := start.jobs[id], Predicted(model, start.jobs[id]);
    var chunks, end := ChunkOps(id, clock, ReportsOf(run, |job.texts|), k), EndOps(job, id, clock, run);
    var looped := ApplyAll(started, chunks);
    ApplyInParts(start, StartOps(id, clock), chunks);
    ApplyInParts(start, StartOps(id, clock) + chunks, end);
    ApplyThree(looped, end[0], end[1], end[2]);
    assert end == [end[0], end[1], end[2]];
    ProcessOpsConcern(job, id, clock, run);
    ApplyAllTouchesOne(start, id, ProcessOps(job, id, clock, run));
    FinalJobIs(job, id, clock, run);
  }

  /** `_sanitize_texts` */
  method SanitizeTexts(texts: seq<string>) returns (cleaned: seq<string>)
    ensures cleaned == Sanitize(texts)
    ensures exists places :: KeepsInOrder(texts, cleaned, places)
  {
    cleaned := [];
    for k := 0 to |texts|
      invariant cleaned == Sanitize(texts[..k])
    {
      assert texts[..k + 1][..k] == texts[..k];
      if Strip(texts[k]) != [] {
        cleaned := cleaned + [Strip(texts[k])];
      }
    }
    assert texts[..|texts|] == texts;
    ghost var places := SanitizedInOrder(texts);
    assert KeepsInOrder(texts, cleaned, places);
  }
}
