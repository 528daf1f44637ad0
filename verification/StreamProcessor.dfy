/** The stream processor's own methods, proved against the step system of `StreamModel`. */
module StreamProcessor {
  import opened Basics
  import opened StreamModel

  class StreamProcessor {
    const config: Config
    var queue: seq<Request>
    var processing: bool
    var lock: Option<nat>
    var batchTask: Option<nat>
    var totalRequests: nat
    var totalBatches: nat
    var cacheHits: nat

    // The event loop's part: the futures handed out and where each task is suspended.
    var futures: seq<Future>
    var tasks: seq<TaskPc>
    var phase: Phase

    // What has been accepted and served so far.
    ghost var accepted: seq<Request>
    ghost var calls: seq<Call>
    ghost var since: Mark

    ghost function View(): State
      reads this
    {
      State(queue, futures, processing, lock, tasks, batchTask, phase,
            totalRequests, totalBatches, cacheHits, accepted, calls, since)
    }

    ghost predicate Valid()
      reads this
    {
      Inv(config, View())
    }

    /** What the methods below rely on; `InvShapes` derives it from the invariant of every run. */
    ghost predicate Shape()
      reads this
    {
      && |queue| <= |futures| == |accepted|
      && (forall j :: 0 <= j < |queue| ==> queue[j].ticket == |futures| - |queue| + j)
      && (batchTask.Some? ==> batchTask.value < |tasks|)
    }

    lemma InvShapes()
      requires Valid()
      ensures Shape()
    {
      var s := View();
      forall j | 0 <= j < |s.queue|
        ensures s.queue[j].ticket == |s.futures| - |s.queue| + j
      {
        assert s.queue[j] == s.accepted[|Popped(s.calls)| + j];
      }
    }

    constructor (config: Config)
      ensures this.config == config && View() == INIT && Valid()
    {
      this.config := config;
      queue, futures, processing, lock, tasks := [], [], false, None, [];
      batchTask, phase, totalRequests, totalBatches, cacheHits := None, Running, 0, 0, 0;
      accepted, calls, since := [], [], Mark(0, 0);
    }

    /** The part of `predict_async` under the lock: enqueue, and start a loop unless one is flagged. */
    method PredictAsync(text: string, timestamp: real) returns (ticket: nat)
      requires Shape() && Enabled(View(), Submit(text, timestamp))
      modifies this
      ensures View() == Next(config, old(View()), Submit(text, timestamp))
      ensures ticket == old(|futures|) && futures[ticket] == Pending
      ensures queue == old(queue) + [Request(ticket, text, timestamp)] && totalRequests == old(totalRequests) + 1
      ensures tasks == if old(processing) then old(tasks) else old(tasks) + [Scheduled]
    {
      ticket := |futures|;
      var request := Request(ticket, text, timestamp);
      futures := futures + [Pending];
      queue := queue + [request];
      totalRequests := totalRequests + 1;
      accepted := accepted + [request];
      if !processing {
        batchTask := Some(|tasks|);
        tasks := tasks + [Scheduled];
      }
    }

    /** The decision of `_should_process_batch` and its popping comprehension. */
    method ShouldProcessBatch(now: real) returns (should: bool, batch: seq<Request>)
      modifies `queue
      ensures should == ShouldProcess(config, old(queue), now)
      ensures old(queue) == batch + queue
      ensures |batch| == if should then BatchSize(config, old(queue)) else 0
      ensures old(queue) == [] ==> !should
      ensures old(queue) != [] ==>
        var n, waited := |old(queue)|, (now - old(queue)[0].timestamp) * 1000.0;
        (should <==> n >= config.maxBatch || waited >= config.maxWaitMs ||
                     (n >= config.minBatch && waited >= config.maxWaitMs * 0.5))
      ensures |batch| == if should then Max(0, Min(|old(queue)|, config.maxBatch)) else 0
    {
      batch := [];
      if queue == [] {
        return false, [];
      }
      var waitMs := (now - queue[0].timestamp) * 1000.0;
      var size := Min(|queue|, config.maxBatch);
      var sizeTrigger := size >= config.maxBatch;
      var timeoutTrigger := waitMs >= config.maxWaitMs;
      var minSizeTrigger := size >= config.minBatch;
      should := sizeTrigger || timeoutTrigger || (minSizeTrigger && waitMs >= config.maxWaitMs * 0.5);
      if should {
        batch := PopBatch(size);
      }
    }

    /** `[queue.popleft() for _ in range(size) if queue]` */
    method PopBatch(size: int) returns (batch: seq<Request>)
      modifies `queue
      ensures old(queue) == batch + queue
      ensures |batch| == Max(0, Min(size, old(|queue|)))
    {
      batch := [];
      var i := 0;
      while i < size
        invariant 0 <= i && (i <= size || i == 0)
        invariant old(queue) == batch + queue
        invariant |batch| == Min(i, old(|queue|))
      {
        if queue != [] {
          batch := batch + [queue[0]];
          queue := queue[1..];
        }
        i := i + 1;
      }
    }

    /**
      `_process_single_batch`: whatever the model does, every future of the batch that is still open is
      settled, with the result of the same position if there is one.
     */
    method ProcessSingleBatch(batch: seq<Request>, outcome: ModelOutcome)
      requires batch != [] && batch[0].ticket + |batch| <= |futures|
      requires forall j :: 0 <= j < |batch| ==> batch[j].ticket == batch[0].ticket + j
      modifies `futures, `totalBatches, `cacheHits, `calls
      ensures futures == Settle(old(futures), batch[0].ticket, BatchAnswers(Call(batch, outcome)))
      ensures |futures| == old(|futures|)
      ensures forall j :: 0 <= j < |batch| ==>
        futures[batch[j].ticket] ==
          if old(futures)[batch[j].ticket] != Pending then old(futures)[batch[j].ticket]
          else if outcome.Raised? then Failed(outcome.error)
          else if j < |outcome.results| then Resolved(outcome.results[j])
          else Failed(LENGTH_MISMATCH)
      ensures forall i :: 0 <= i < |futures| && !(batch[0].ticket <= i < batch[0].ticket + |batch|) ==>
        futures[i] == old(futures)[i]
      ensures totalBatches == old(totalBatches) + (if outcome.Returned? then 1 else 0)
      ensures cacheHits == old(cacheHits) + CacheHits(outcome)
      ensures calls == old(calls) + [Call(batch, outcome)]
    {
      calls := calls + [Call(batch, outcome)];
      SettledPairwise(futures, batch, outcome);
      SettleBatch(batch, outcome);
    }

    /** The try and except branches of `_process_single_batch`. */
    method SettleBatch(batch: seq<Request>, outcome: ModelOutcome)
      requires batch != [] && batch[0].ticket + |batch| <= |futures|
      requires forall j :: 0 <= j < |batch| ==> batch[j].ticket == batch[0].ticket + j
      modifies `futures, `totalBatches, `cacheHits
      ensures futures == Settle(old(futures), batch[0].ticket, BatchAnswers(Call(batch, outcome)))
      ensures totalBatches == old(totalBatches) + (if outcome.Returned? then 1 else 0)
      ensures cacheHits == old(cacheHits) + CacheHits(outcome)
    {
      if outcome.Raised? {
        FailOpenFutures(batch, outcome.error);
      } else {
        FinalizeBatchProcessing(batch, outcome.results);
        if |outcome.results| != |batch| {
          FailOpenFutures(batch, LENGTH_MISMATCH);
        }
      }
      assert futures == Settle(old(futures), batch[0].ticket, BatchAnswers(Call(batch, outcome)));
    }

    /** The statistics and the zip loop of `_finalize_batch_processing`, up to where zip may raise. */
    method FinalizeBatchProcessing(batch: seq<Request>, results: seq<Prediction>)
      requires batch != [] && batch[0].ticket + |batch| <= |futures|
      requires forall j :: 0 <= j < |batch| ==> batch[j].ticket == batch[0].ticket + j
      modifies `futures, `totalBatches, `cacheHits
      ensures totalBatches == old(totalBatches) + 1
      ensures cacheHits == old(cacheHits) + CountCached(results)
      ensures |futures| == old(|futures|)
      ensures forall i :: 0 <= i < |futures| ==>
        var j := i - batch[0].ticket;
        futures[i] == if 0 <= j < Min(|batch|, |results|) then Fill(old(futures)[i], Resolved(results[j]))
          else old(futures)[i]
    {
      totalBatches := totalBatches + 1;
      var hits := 0;
      for k := 0 to |results|
        invariant hits == CountCached(results[..k])
      {
        assert results[..k + 1][..k] == results[..k];
        hits := hits + if results[k].cached then 1 else 0;
      }
      assert results[..|results|] == results;
      cacheHits := cacheHits + hits;

      var first := batch[0].ticket;
      for k := 0 to Min(|batch|, |results|)
        invariant totalBatches == old(totalBatches) + 1 && cacheHits == old(cacheHits) + CountCached(results)
        invariant |futures| == old(|futures|)
        invariant forall i :: 0 <= i < |futures| ==>
          futures[i] == if first <= i < first + k then Fill(old(futures)[i], Resolved(results[i - first]))
            else old(futures)[i]
      {
        if futures[batch[k].ticket] == Pending {
          futures := futures[batch[k].ticket := Resolved(results[k])];
        }
      }
    }

    /** The except branch: every future of the batch that is not done receives the exception. */
    method FailOpenFutures(batch: seq<Request>, error: string)
      requires batch != [] && batch[0].ticket + |batch| <= |futures|
      requires forall j :: 0 <= j < |batch| ==> batch[j].ticket == batch[0].ticket + j
      modifies `futures
      ensures |futures| == old(|futures|)
      ensures forall i :: 0 <= i < |futures| ==>
        futures[i] == if batch[0].ticket <= i < batch[0].ticket + |batch| then Fill(old(futures)[i], Failed(error))
          else old(futures)[i]
    {
      var first := batch[0].ticket;
      for k := 0 to |batch|
        invariant |futures| == old(|futures|)
        invariant forall i :: 0 <= i < |futures| ==>
          futures[i] == if first <= i < first + k then Fill(old(futures)[i], Failed(error)) else old(futures)[i]
      {
        if futures[batch[k].ticket] == Pending {
          futures := futures[batch[k].ticket := Failed(error)];
        }
      }
    }

    /** Answer the batch that has just been popped. */
    method ServePopped(ghost before: seq<Request>, batch: seq<Request>, outcome: ModelOutcome)
      requires before == batch + queue && |before| <= |futures|
      requires forall j :: 0 <= j < |before| ==> before[j].ticket == |futures| - |before| + j
      modifies this
      ensures View() == ServeBatch(old(View()).(queue := before), |batch|, outcome)
    {
      assert batch == before[..|batch|] && queue == before[|batch|..];
      if batch != [] {
        assert batch[0] == before[0];
        ProcessSingleBatch(batch, outcome);
      }
    }

    /** One turn of `_process_batches` from its short sleep: pop and answer at most one batch. */
    method LoopTake(t: nat, now: real, outcome: ModelOutcome)
      requires Shape() && Enabled(View(), Take(t, now, outcome))
      modifies this
      ensures View() == Next(config, old(View()), Take(t, now, outcome))
    {
      var should, batch := ShouldProcessBatch(now);
      ServePopped(old(queue), batch, outcome);
      tasks := tasks[t := Checking];
    }

    /** The look at the queue under the lock, which keeps the lock while it sleeps over an empty queue. */
    method LoopCheck(t: nat)
      requires Enabled(View(), Check(t))
      modifies this
      ensures View() == Next(config, old(View()), Check(t))
      ensures queue == [] ==> lock == Some(t) && tasks[t] == Idling
      ensures queue != [] ==> lock == old(lock) && tasks[t] == Napping
    {
      if |queue| == 0 {
        lock := Some(t);
        tasks := tasks[t := Idling];
      } else {
        tasks := tasks[t := Napping];
      }
    }

    method LoopStart(t: nat)
      requires Enabled(View(), Start(t))
      modifies this
      ensures View() == Next(config, old(View()), Start(t))
      ensures processing && tasks[t] == Napping
    {
      processing := true;
      tasks := tasks[t := Napping];
    }

    /** The second look after the long sleep; `break` runs the `finally` clause. */
    method LoopWake(t: nat)
      requires Enabled(View(), Wake(t))
      modifies this
      ensures View() == Next(config, old(View()), Wake(t))
      ensures lock == None
      ensures queue == [] ==> !processing && tasks[t] == Finished
      ensures queue != [] ==> processing == old(processing) && tasks[t] == Napping
    {
      lock := None;
      if |queue| == 0 {
        processing := false;
        tasks := tasks[t := Finished];
      } else {
        tasks := tasks[t := Napping];
      }
    }

    /** `reset_stats`, which takes no lock. */
    method ResetStats()
      modifies `totalRequests, `totalBatches, `cacheHits, `since
      ensures View() == Next(config, old(View()), StreamModel.ResetStats)
      ensures totalRequests == totalBatches == cacheHits == 0
    {
      totalRequests, totalBatches, cacheHits := 0, 0, 0;
      since := Mark(|accepted|, |calls|);
    }

    /** One turn of the draining loop of `shutdown`. */
    method ShutdownDrain(outcome: ModelOutcome)
      requires Shape() && Enabled(View(), Drain(outcome))
      modifies this
      ensures View() == Next(config, old(View()), Drain(outcome))
      ensures queue == old(queue)[Max(0, Min(|old(queue)|, config.maxBatch))..]
    {
      var batch := PopBatch(Min(|queue|, config.maxBatch));
      ServePopped(old(queue), batch, outcome);
    }

    /** The end of `shutdown`: cancel the last task started, or finish at once. */
    method ShutdownCancel()
      requires Shape() && Enabled(View(), CancelTask)
      modifies this
      ensures View() == Next(config, old(View()), CancelTask)
      ensures phase ==
        if batchTask.Some? && tasks[batchTask.value] != Finished then Awaiting(batchTask.value) else Stopped
    {
      if batchTask.Some? && tasks[batchTask.value] != Finished {
        phase := Awaiting(batchTask.value);
      } else {
        processing := false;
        phase := Stopped;
      }
    }

    /** The cancellation reaches task `t`: the lock, if held, is released and a started loop lowers the flag. */
    method LoopCancelled(t: nat)
      requires Enabled(View(), Unwind(t))
      modifies this
      ensures View() == Next(config, old(View()), Unwind(t))
      ensures lock != Some(t) && tasks[t] == Finished && (old(tasks)[t] != Scheduled ==> !processing)
    {
      if lock == Some(t) {
        lock := None;
      }
      if tasks[t] != Scheduled {
        processing := false;
      }
      tasks := tasks[t := Finished];
    }

    /** `shutdown` resumes after the cancelled task has ended. */
    method ShutdownEnd()
      requires Enabled(View(), EndShutdown)
      modifies this
      ensures View() == Next(config, old(View()), EndShutdown)
    {
      batchTask := None;
      processing := false;
      phase := Stopped;
    }
  }
}
