/**
  The stream processor's batching protocol as an interleaved step system.

  A step is the code one coroutine runs between two suspension points; every lock acquisition
  counts as a suspension point. A request is named by its ticket, its position in the order of
  acceptance, which also names its future.
 */
module StreamModel {
  import opened Basics

  datatype Config = Config(maxBatch: int, minBatch: int, maxWaitMs: real)

  datatype Request = Request(ticket: nat, text: string, timestamp: real)

  /** `Abandoned` is a future its own client cancelled, for example through a time limit. */
  datatype Future = Pending | Resolved(value: Prediction) | Failed(error: string) | Abandoned

  /**
    Where a batch-loop task is suspended: not yet started, in the short sleep (or waiting to pop a
    batch), waiting to look at the queue, asleep with the lock held, or done.
   */
  datatype TaskPc = Scheduled | Napping | Checking | Idling | Finished

  datatype Phase = Running | Draining | Awaiting(task: nat) | Stopped

  datatype Call = Call(batch: seq<Request>, outcome: ModelOutcome)

  /** How many requests had been accepted, and how many batches served, when the statistics were last reset. */
  datatype Mark = Mark(accepted: nat, calls: nat)

  /** `accepted`, `calls` and `since` record the history; the other fields are the processor's own. */
  datatype State = State(
    queue: seq<Request>,
    futures: seq<Future>,
    processing: bool,
    lock: Option<nat>,
    tasks: seq<TaskPc>,
    batchTask: Option<nat>,
    phase: Phase,
    totalRequests: nat,
    totalBatches: nat,
    cacheHits: nat,
    accepted: seq<Request>,
    calls: seq<Call>,
    since: Mark)

  datatype Step =
    | Submit(text: string, timestamp: real)
    | Abandon(ticket: nat)
    | Start(task: nat)
    | Take(task: nat, now: real, outcome: ModelOutcome)
    | Check(task: nat)
    | Wake(task: nat)
    | BeginShutdown
    | Drain(outcome: ModelOutcome)
    | CancelTask
    | Unwind(task: nat)
    | EndShutdown
    | ResetStats

  const INIT: State := State([], [], false, None, [], None, Running, 0, 0, 0, [], [], Mark(0, 0))

  const LENGTH_MISMATCH := "zip() argument 2 is shorter than argument 1"

  // ---------------------------------------------------------------- the code's own decisions

  /** The number of requests `range(min(len(queue), max_batch_size))` pops. */
  function BatchSize(cfg: Config, queue: seq<Request>): nat
  {
    Max(0, Min(|queue|, cfg.maxBatch))
  }

  predicate ShouldProcess(cfg: Config, queue: seq<Request>, now: real)
  {
    queue != [] &&
    var waitMs := (now - queue[0].timestamp) * 1000.0;
    var size := Min(|queue|, cfg.maxBatch);
    || size >= cfg.maxBatch
    || waitMs >= cfg.maxWaitMs
    || (size >= cfg.minBatch && waitMs >= cfg.maxWaitMs * 0.5)
  }

  /** What position `j` of a batch is answered with when the model does `outcome`. */
  function Answer(outcome: ModelOutcome, j: nat): Future
  {
    match outcome
    case Raised(e) => Failed(e)
    case Returned(rs) => if j < |rs| then Resolved(rs[j]) else Failed(LENGTH_MISMATCH)
  }

  function BatchAnswers(call: Call): seq<Future>
  {
    seq(|call.batch|, j requires 0 <= j < |call.batch| => Answer(call.outcome, j))
  }

  /** A future that is already done is left alone. */
  function Fill(f: Future, answer: Future): Future
  {
    if f == Pending then answer else f
  }

  function Settle(futures: seq<Future>, first: nat, answers: seq<Future>): seq<Future>
  {
    seq(|futures|, i requires 0 <= i < |futures| =>
      if first <= i < first + |answers| then Fill(futures[i], answers[i - first]) else futures[i])
  }

  /** The futures of consecutive tickets are settled pairwise with the results, and no other. */
  lemma SettledPairwise(futures: seq<Future>, batch: seq<Request>, outcome: ModelOutcome)
    requires batch != [] && batch[0].ticket + |batch| <= |futures|
    requires forall j :: 0 <= j < |batch| ==> batch[j].ticket == batch[0].ticket + j
    ensures var after := Settle(futures, batch[0].ticket, BatchAnswers(Call(batch, outcome)));
      && |after| == |futures|
      && (forall j :: 0 <= j < |batch| ==>
            after[batch[j].ticket] ==
              if futures[batch[j].ticket] != Pending then futures[batch[j].ticket]
              else if outcome.Raised? then Failed(outcome.error)
              else if j < |outcome.results| then Resolved(outcome.results[j])
              else Failed(LENGTH_MISMATCH))
      && forall i :: 0 <= i < |futures| && !(batch[0].ticket <= i < batch[0].ticket + |batch|) ==>
           after[i] == futures[i]
  {
    hide Settle, BatchAnswers;
    var first, answers := batch[0].ticket, BatchAnswers(Call(batch, outcome));
    AnswersOf(batch, outcome);
    SettledAt(futures, first, answers, first);
    forall i | 0 <= i < |futures|
      ensures |Settle(futures, first, answers)| == |futures|
      ensures Settle(futures, first, answers)[i] ==
        if first <= i < first + |batch| && futures[i] == Pending then answers[i - first] else futures[i]
    {
      SettledAt(futures, first, answers, i);
    }
  }

  lemma SettledAt(futures: seq<Future>, first: nat, answers: seq<Future>, i: nat)
    requires i < |futures|
    ensures |Settle(futures, first, answers)| == |futures|
    ensures Settle(futures, first, answers)[i] ==
      if first <= i < first + |answers| && futures[i] == Pending then answers[i - first] else futures[i]
  {
  }

  lemma AnswersOf(batch: seq<Request>, outcome: ModelOutcome)
    ensures |BatchAnswers(Call(batch, outcome))| == |batch|
    ensures forall j :: 0 <= j < |batch| ==>
      BatchAnswers(Call(batch, outcome))[j] ==
        if outcome.Raised? then Failed(outcome.error)
        else if j < |outcome.results| then Resolved(outcome.results[j])
        else Failed(LENGTH_MISMATCH)
  {
  }

  function CacheHits(outcome: ModelOutcome): nat
  {
    if outcome.Returned? then CountCached(outcome.results) else 0
  }

  function CountCached(rs: seq<Prediction>): nat
  {
    if rs == [] then 0 else CountCached(rs[..|rs| - 1]) + (if rs[|rs| - 1].cached then 1 else 0)
  }

  /** Pop `n` requests and answer them; nothing happens for an empty batch. */
  function ServeBatch(s: State, n: nat, outcome: ModelOutcome): State
    requires n <= |s.queue|
  {
    if n == 0 then s else
    var call := Call(s.queue[..n], outcome);
    s.(queue := s.queue[n..],
       futures := Settle(s.futures, s.queue[0].ticket, BatchAnswers(call)),
       totalBatches := s.totalBatches + (if outcome.Returned? then 1 else 0),
       cacheHits := s.cacheHits + CacheHits(outcome),
       calls := s.calls + [call])
  }

  // ---------------------------------------------------------------- steps

  /** Task `t` is suspended at `pc`, and its next step is not the delivery of a cancellation. */
  predicate At(s: State, t: nat, pc: TaskPc)
  {
    t < |s.tasks| && s.tasks[t] == pc && s.phase != Awaiting(t)
  }

  predicate Enabled(s: State, step: Step)
  {
    match step
    case Submit(_, _) => s.lock == None
    case Abandon(i) => i < |s.futures| && s.futures[i] == Pending
    case Start(t) => At(s, t, Scheduled)
    case Take(t, _, _) => At(s, t, Napping) && s.lock == None
    case Check(t) => At(s, t, Checking) && s.lock == None
    case Wake(t) => At(s, t, Idling)
    case BeginShutdown => s.phase == Running
    case Drain(_) => s.phase == Draining && s.lock == None && s.queue != []
    case CancelTask => s.phase == Draining && s.queue == []
    case Unwind(t) => s.phase == Awaiting(t) && t < |s.tasks| && s.tasks[t] != Finished
    case EndShutdown => s.phase.Awaiting? && s.phase.task < |s.tasks| && s.tasks[s.phase.task] == Finished
    case ResetStats => true
  }

  function Next(cfg: Config, s: State, step: Step): State
    requires Enabled(s, step)
  {
    match step
    case Submit(text, timestamp) =>
      var request := Request(|s.accepted|, text, timestamp);
      s.(queue := s.queue + [request],
         futures := s.futures + [Pending],
         totalRequests := s.totalRequests + 1,
         accepted := s.accepted + [request],
         tasks := if s.processing then s.tasks else s.tasks + [Scheduled],
         batchTask := if s.processing then s.batchTask else Some(|s.tasks|))
    case Abandon(i) => s.(futures := s.futures[i := Abandoned])
    case Start(t) => s.(processing := true, tasks := s.tasks[t := Napping])
    case Take(t, now, outcome) =>
      var n := if ShouldProcess(cfg, s.queue, now) then BatchSize(cfg, s.queue) else 0;
      ServeBatch(s, n, outcome).(tasks := s.tasks[t := Checking])
    case Check(t) =>
      if s.queue == [] then s.(lock := Some(t), tasks := s.tasks[t := Idling])
      else s.(tasks := s.tasks[t := Napping])
    case Wake(t) =>
      if s.queue == [] then s.(lock := None, processing := false, tasks := s.tasks[t := Finished])
      else s.(lock := None, tasks := s.tasks[t := Napping])
    case BeginShutdown => s.(phase := Draining)
    case Drain(outcome) => ServeBatch(s, BatchSize(cfg, s.queue), outcome)
    case CancelTask =>
      if s.batchTask.Some? && s.batchTask.value < |s.tasks| && s.tasks[s.batchTask.value] != Finished
      then s.(phase := Awaiting(s.batchTask.value))
      else s.(phase := Stopped, processing := false)
    case Unwind(t) =>
      s.(lock := if s.lock == Some(t) then None else s.lock,
         processing := if s.tasks[t] == Scheduled then s.processing else false,
         tasks := s.tasks[t := Finished])
    case EndShutdown => s.(phase := Stopped, processing := false, batchTask := None)
    case ResetStats =>
      s.(totalRequests := 0, totalBatches := 0, cacheHits := 0, since := Mark(|s.accepted|, |s.calls|))
  }

  /** `steps` is a run of the system from `s` to `t`. */
  predicate Reaches(cfg: Config, s: State, steps: seq<Step>, t: State)
    decreases |steps|
  {
    if steps == [] then s == t
    else Enabled(s, steps[0]) && Reaches(cfg, Next(cfg, s, steps[0]), steps[1..], t)
  }

  // ---------------------------------------------------------------- history

  /** All requests that left the queue, in the order they left. */
  function Popped(calls: seq<Call>): seq<Request>
  {
    if calls == [] then [] else Popped(calls[..|calls| - 1]) + calls[|calls| - 1].batch
  }

  /** The answers given to `Popped(calls)`, position by position. */
  function Answers(calls: seq<Call>): (r: seq<Future>)
    ensures |r| == |Popped(calls)|
  {
    if calls == [] then [] else Answers(calls[..|calls| - 1]) + BatchAnswers(calls[|calls| - 1])
  }

  function ReturnedCalls(calls: seq<Call>): nat
  {
    if calls == [] then 0
    else ReturnedCalls(calls[..|calls| - 1]) + (if calls[|calls| - 1].outcome.Returned? then 1 else 0)
  }

  function TotalHits(calls: seq<Call>): nat
  {
    if calls == [] then 0 else TotalHits(calls[..|calls| - 1]) + CacheHits(calls[|calls| - 1].outcome)
  }

  lemma {:induction false} CachedAreCounted(rs: seq<Prediction>)
    ensures CountCached(rs) == |set i | 0 <= i < |rs| && rs[i].cached|
  {
    if rs != [] {
      var n := |rs| - 1;
      CachedAreCounted(rs[..n]);
      var before, after := set i | 0 <= i < n && rs[..n][i].cached, set i | 0 <= i < |rs| && rs[i].cached;
      MaybeOneMore(before, n, rs[n].cached, after);
    }
  }

  lemma {:induction false} ReturnedAreCounted(calls: seq<Call>)
    ensures ReturnedCalls(calls) == |set k | 0 <= k < |calls| && calls[k].outcome.Returned?|
  {
    if calls != [] {
      var n := |calls| - 1;
      ReturnedAreCounted(calls[..n]);
      var before := set k | 0 <= k < n && calls[..n][k].outcome.Returned?;
      var after := set k | 0 <= k < |calls| && calls[k].outcome.Returned?;
      MaybeOneMore(before, n, calls[n].outcome.Returned?, after);
    }
  }

  /** Result `j` of call `k` came from a cache. */
  predicate IsHit(calls: seq<Call>, k: int, j: int)
  {
    && 0 <= k < |calls| && calls[k].outcome.Returned?
    && 0 <= j < |calls[k].outcome.results| && calls[k].outcome.results[j].cached
  }

  function Hits(calls: seq<Call>): set<(int, int)>
  {
    set k, j | 0 <= k < |calls| && calls[k].outcome.Returned? && 0 <= j < |calls[k].outcome.results| &&
               IsHit(calls, k, j)
      :: (k, j)
  }

  lemma HitsOneMore(calls: seq<Call>)
    requires calls != []
    ensures var n := |calls| - 1;
      |Hits(calls)| == |Hits(calls[..n])| + CacheHits(calls[n].outcome)
  {
    var n := |calls| - 1;
    var outcome := calls[n].outcome;
    var js := if outcome.Raised? then {} else set j | 0 <= j < |outcome.results| && outcome.results[j].cached;
    var paired := set j | j in js :: (n, j);
    forall k, j
      ensures (k, j) in Hits(calls) <==> (k, j) in Hits(calls[..n]) + paired
    {
      assert (k, j) in Hits(calls) <==> IsHit(calls, k, j);
      assert (k, j) in Hits(calls[..n]) <==> IsHit(calls[..n], k, j);
    }
    assert Hits(calls) == Hits(calls[..n]) + paired;
    PairedCount(n, js);
    if outcome.Returned? {
      CachedAreCounted(outcome.results);
    }
  }

  lemma {:induction false} HitsAreCounted(calls: seq<Call>)
    ensures TotalHits(calls) == |Hits(calls)|
  {
    hide Hits, CacheHits;
    if calls != [] {
      HitsAreCounted(calls[..|calls| - 1]);
      HitsOneMore(calls);
    } else {
      NoHits();
    }
  }

  lemma NoHits()
    ensures Hits([]) == {}
  {
  }

  // ---------------------------------------------------------------- invariants

  /** Every accepted request left in order through a batch or is still queued, once. */
  ghost predicate Fifo(s: State)
  {
    && s.accepted == Popped(s.calls) + s.queue
    && |s.futures| == |s.accepted|
    && forall i :: 0 <= i < |s.accepted| ==> s.accepted[i].ticket == i
  }

  /** A future of a popped request holds its answer, one of a queued request is open. */
  ghost predicate Answered(s: State)
    requires |s.futures| >= |Popped(s.calls)|
  {
    forall i :: 0 <= i < |s.futures| ==>
      || s.futures[i] == Abandoned
      || s.futures[i] == (if i < |Popped(s.calls)| then Answers(s.calls)[i] else Pending)
  }

  ghost predicate BatchesBounded(cfg: Config, calls: seq<Call>)
  {
    forall k :: 0 <= k < |calls| ==> 0 < |calls[k].batch| <= cfg.maxBatch
  }

  /** The statistics count what happened since they were last reset. */
  ghost predicate Counted(s: State)
  {
    && s.since.accepted <= |s.accepted| && s.since.calls <= |s.calls|
    && s.totalRequests == |s.accepted| - s.since.accepted
    && s.totalBatches == ReturnedCalls(s.calls[s.since.calls..])
    && s.cacheHits == TotalHits(s.calls[s.since.calls..])
  }

  /** Only a task asleep at the end of its loop holds the lock across a suspension, over an empty queue. */
  ghost predicate LockGuardsEmptyQueue(s: State)
  {
    && (forall t :: 0 <= t < |s.tasks| ==> (s.tasks[t] == Idling <==> s.lock == Some(t)))
    && (s.lock.Some? ==> s.lock.value < |s.tasks| && s.queue == [])
  }

  predicate Started(pc: TaskPc) { pc != Scheduled && pc != Finished }

  ghost predicate SomeStarted(s: State)
  {
    exists t :: 0 <= t < |s.tasks| && Started(s.tasks[t])
  }

  ghost predicate SomeLive(s: State)
  {
    exists t :: 0 <= t < |s.tasks| && s.tasks[t] != Finished
  }

  ghost predicate Inv(cfg: Config, s: State)
  {
    && Fifo(s)
    && Answered(s)
    && BatchesBounded(cfg, s.calls)
    && Counted(s)
    && LockGuardsEmptyQueue(s)
    && (s.batchTask.Some? ==> s.batchTask.value < |s.tasks|)
    && (s.processing ==> SomeStarted(s))
  }

  /** Nobody waits in a queue that no task will look at. */
  ghost predicate Served(s: State)
  {
    && (s.queue != [] ==> SomeLive(s))
    && (s.phase.Awaiting? ==> s.queue == [])
  }

  lemma PoppedAndAnswersGrow(calls: seq<Call>, call: Call)
    ensures Popped(calls + [call]) == Popped(calls) + call.batch
    ensures Answers(calls + [call]) == Answers(calls) + BatchAnswers(call)
    ensures ReturnedCalls(calls + [call]) == ReturnedCalls(calls) + (if call.outcome.Returned? then 1 else 0)
    ensures TotalHits(calls + [call]) == TotalHits(calls) + CacheHits(call.outcome)
  {
    var more := calls + [call];
    assert more[..|more| - 1] == calls && more[|more| - 1] == call;
  }

  lemma SplitQueue<T>(left: seq<T>, queue: seq<T>, n: nat)
    requires n <= |queue|
    ensures left + queue == (left + queue[..n]) + queue[n..]
  {
  }

  lemma ServeBatchKeepsFifo(s: State, n: nat, outcome: ModelOutcome)
    requires Fifo(s) && 0 < n <= |s.queue|
    ensures Fifo(ServeBatch(s, n, outcome))
    ensures s.queue[0].ticket == |Popped(s.calls)|
  {
    var p, call := Popped(s.calls), Call(s.queue[..n], outcome);
    assert s.accepted[|p|] == s.queue[0];
    SplitQueue(p, s.queue, n);
    PoppedAndAnswersGrow(s.calls, call);
    var s' := ServeBatch(s, n, outcome);
    assert s'.accepted == s.accepted && |s'.futures| == |s.futures|;
    assert Popped(s'.calls) + s'.queue == (p + s.queue[..n]) + s.queue[n..];
  }

  lemma ServeBatchKeepsAnswered(s: State, n: nat, outcome: ModelOutcome)
    requires Fifo(s) && Answered(s) && 0 < n <= |s.queue|
    ensures |ServeBatch(s, n, outcome).futures| >= |Popped(ServeBatch(s, n, outcome).calls)|
    ensures Answered(ServeBatch(s, n, outcome))
  {
    var call := Call(s.queue[..n], outcome);
    ServeBatchKeepsFifo(s, n, outcome);
    PoppedAndAnswersGrow(s.calls, call);
    var s' := ServeBatch(s, n, outcome);
    var p := |Popped(s.calls)|;
    forall i | 0 <= i < |s'.futures|
      ensures
        || s'.futures[i] == Abandoned
        || s'.futures[i] == (if i < |Popped(s'.calls)| then Answers(s'.calls)[i] else Pending)
    {
      assert s'.futures[i] == if p <= i < p + n then Fill(s.futures[i], BatchAnswers(call)[i - p]) else s.futures[i];
    }
  }

  lemma ServeBatchKeepsCounts(cfg: Config, s: State, n: nat, outcome: ModelOutcome)
    requires BatchesBounded(cfg, s.calls) && Counted(s) && 0 < n <= |s.queue| && n <= cfg.maxBatch
    ensures BatchesBounded(cfg, ServeBatch(s, n, outcome).calls) && Counted(ServeBatch(s, n, outcome))
  {
    hide Popped, Answers, Settle, BatchAnswers, ReturnedCalls, TotalHits, CacheHits;
    var call := Call(s.queue[..n], outcome);
    PoppedAndAnswersGrow(s.calls[s.since.calls..], call);
    assert (s.calls + [call])[s.since.calls..] == s.calls[s.since.calls..] + [call];
  }

  /** Serving a batch touches neither tasks nor lock nor flag. */
  lemma ServeBatchKeepsTasks(s: State, n: nat, outcome: ModelOutcome)
    requires LockGuardsEmptyQueue(s) && n <= |s.queue| && s.lock == None
    ensures var s' := ServeBatch(s, n, outcome);
      && LockGuardsEmptyQueue(s') && s'.tasks == s.tasks && s'.batchTask == s.batchTask && s'.processing == s.processing
  {
  }

  lemma ServeBatchKeepsInv(cfg: Config, s: State, n: nat, outcome: ModelOutcome)
    requires Inv(cfg, s) && n <= |s.queue| && n <= Max(0, cfg.maxBatch) && s.lock == None
    ensures Inv(cfg, ServeBatch(s, n, outcome))
  {
    if n > 0 {
      ServeBatchKeepsFifo(s, n, outcome);
      ServeBatchKeepsAnswered(s, n, outcome);
      ServeBatchKeepsCounts(cfg, s, n, outcome);
      ServeBatchKeepsTasks(s, n, outcome);
    }
  }

  /** Moving task `t` to another place of its loop keeps everything but the liveness part. */
  lemma MoveKeepsInv(cfg: Config, s: State, t: nat, pc: TaskPc)
    requires Inv(cfg, s) && t < |s.tasks| && s.lock == None && Started(pc) && pc != Idling
    ensures Inv(cfg, s.(tasks := s.tasks[t := pc]))
  {
    assert Started(s.tasks[t := pc][t]);
  }

  lemma SubmitKeepsInv(cfg: Config, s: State, text: string, timestamp: real)
    requires Inv(cfg, s) && s.lock == None
    ensures Inv(cfg, Next(cfg, s, Submit(text, timestamp)))
  {
    var s' := Next(cfg, s, Submit(text, timestamp));
    assert s'.accepted == Popped(s.calls) + s'.queue;
    if s'.processing {
      var t :| 0 <= t < |s.tasks| && Started(s.tasks[t]);
      assert Started(s'.tasks[t]);
    }
  }

  lemma UnwindKeepsInv(cfg: Config, s: State, t: nat)
    requires Inv(cfg, s) && Enabled(s, Unwind(t))
    ensures Inv(cfg, Next(cfg, s, Unwind(t)))
  {
    var s' := Next(cfg, s, Unwind(t));
    if s'.processing {
      var u :| 0 <= u < |s.tasks| && Started(s.tasks[u]);
      assert Started(s'.tasks[u]);
    }
  }

  lemma LoopStepKeepsInv(cfg: Config, s: State, step: Step)
    requires Inv(cfg, s) && Enabled(s, step) && (step.Start? || step.Check? || step.Wake?)
    ensures Inv(cfg, Next(cfg, s, step))
  {
    var t := step.task;
    assert Started(s.tasks[t := Napping][t]) && Started(s.tasks[t := Idling][t]);
  }

  lemma TakeKeepsInv(cfg: Config, s: State, step: Step)
    requires Inv(cfg, s) && Enabled(s, step) && step.Take?
    ensures Inv(cfg, Next(cfg, s, step))
  {
    var n := if ShouldProcess(cfg, s.queue, step.now) then BatchSize(cfg, s.queue) else 0;
    ServeBatchKeepsInv(cfg, s, n, step.outcome);
    MoveKeepsInv(cfg, ServeBatch(s, n, step.outcome), step.task, Checking);
  }

  lemma OtherStepKeepsInv(cfg: Config, s: State, step: Step)
    requires Inv(cfg, s) && Enabled(s, step)
    requires step.Abandon? || step.BeginShutdown? || step.CancelTask? || step.EndShutdown?
    ensures Inv(cfg, Next(cfg, s, step))
  {
    hide ServeBatch, Popped, Answers, ReturnedCalls, TotalHits, ShouldProcess, BatchesBounded;
  }

  lemma ResetKeepsInv(cfg: Config, s: State)
    requires Inv(cfg, s)
    ensures Inv(cfg, Next(cfg, s, ResetStats))
  {
    hide Popped, Answers, BatchesBounded;
    assert s.calls[|s.calls|..] == [];
  }

  /** Every step of every coroutine keeps the invariant. */
  lemma StepKeepsInv(cfg: Config, s: State, step: Step)
    requires Inv(cfg, s) && Enabled(s, step)
    ensures Inv(cfg, Next(cfg, s, step))
  {
    match step {
      case Submit(text, timestamp) => SubmitKeepsInv(cfg, s, text, timestamp);
      case Start(_) => LoopStepKeepsInv(cfg, s, step);
      case Check(_) => LoopStepKeepsInv(cfg, s, step);
      case Wake(_) => LoopStepKeepsInv(cfg, s, step);
      case Take(_, _, _) => TakeKeepsInv(cfg, s, step);
      case Drain(outcome) => ServeBatchKeepsInv(cfg, s, BatchSize(cfg, s.queue), outcome);
      case Unwind(t) => UnwindKeepsInv(cfg, s, t);
      case ResetStats => ResetKeepsInv(cfg, s);
      case _ => OtherStepKeepsInv(cfg, s, step);
    }
  }

  lemma {:induction false} RunKeepsInv(cfg: Config, s: State, steps: seq<Step>, t: State)
    requires Inv(cfg, s) && Reaches(cfg, s, steps, t)
    ensures Inv(cfg, t)
    decreases |steps|
  {
    if steps != [] {
      StepKeepsInv(cfg, s, steps[0]);
      RunKeepsInv(cfg, Next(cfg, s, steps[0]), steps[1..], t);
    }
  }

  // ---------------------------------------------------------------- theorems over all runs

  lemma {:induction false} MarkStays(cfg: Config, s: State, steps: seq<Step>, t: State)
    requires Reaches(cfg, s, steps, t) && ResetStats !in steps
    ensures t.since == s.since
    decreases |steps|
  {
    if steps != [] {
      MarkStays(cfg, Next(cfg, s, steps[0]), steps[1..], t);
    }
  }

  /** The statistics count exactly what was accepted and served since they were last reset. */
  lemma StatsCountSinceReset(cfg: Config, before: seq<Step>, s: State, after: seq<Step>, t: State)
    requires Reaches(cfg, INIT, before, s) && Reaches(cfg, Next(cfg, s, ResetStats), after, t) && ResetStats !in after
    ensures |s.accepted| <= |t.accepted| && |s.calls| <= |t.calls|
    ensures t.totalRequests == |t.accepted| - |s.accepted|
    ensures t.totalBatches == ReturnedCalls(t.calls[|s.calls|..]) && t.cacheHits == TotalHits(t.calls[|s.calls|..])
  {
    hide Reaches, LockGuardsEmptyQueue, SomeStarted, BatchAnswers, CacheHits, BatchesBounded, Fifo, Answered;
    var s' := Next(cfg, s, ResetStats);
    InitServed(cfg);
    RunKeepsInv(cfg, INIT, before, s);
    StepKeepsInv(cfg, s, ResetStats);
    RunKeepsInv(cfg, s', after, t);
    MarkStays(cfg, s', after, t);
  }

  /**
    In every state of every interleaving the requests that left the queue are exactly the oldest ones,
    in order, in batches that are non-empty and within the limit; each of them has its answer (unless
    its client gave up first), and each of the others waits in the queue, once and unanswered. Unless they
    were reset, the statistics count exactly the requests, the batches and the hits.
   */
  lemma ExactlyOnce(cfg: Config, steps: seq<Step>, s: State)
    requires Reaches(cfg, INIT, steps, s)
    ensures |s.futures| == |s.accepted| == |Popped(s.calls)| + |s.queue|
    ensures forall k :: 0 <= k < |s.calls| ==> 0 < |s.calls[k].batch| <= cfg.maxBatch
    ensures forall i :: 0 <= i < |s.accepted| ==>
      if i < |Popped(s.calls)|
      then Popped(s.calls)[i] == s.accepted[i] && (s.futures[i] == Answers(s.calls)[i] || s.futures[i] == Abandoned)
      else s.queue[i - |Popped(s.calls)|] == s.accepted[i] && (s.futures[i] == Pending || s.futures[i] == Abandoned)
    ensures ResetStats !in steps ==>
      && s.totalRequests == |s.accepted| && s.totalBatches == ReturnedCalls(s.calls)
      && s.cacheHits == TotalHits(s.calls)
  {
    hide Reaches, LockGuardsEmptyQueue, SomeStarted, BatchAnswers, CacheHits;
    InitServed(cfg);
    RunKeepsInv(cfg, INIT, steps, s);
    if ResetStats !in steps {
      MarkStays(cfg, INIT, steps, s);
      assert s.calls[0..] == s.calls;
    }
    var p := |Popped(s.calls)|;
    forall i | p <= i < |s.accepted|
      ensures s.queue[i - p] == s.accepted[i]
    {
      assert s.accepted == Popped(s.calls) + s.queue;
    }
  }

  /** No answer is open: a request that left the queue is settled, whatever the model did. */
  lemma {:induction false} AnswersAreSettled(calls: seq<Call>, k: nat, j: nat)
    requires k < |calls| && j < |calls[k].batch|
    ensures |Popped(calls[..k])| + j < |Popped(calls)|
    ensures Popped(calls)[|Popped(calls[..k])| + j] == calls[k].batch[j]
    ensures Answers(calls)[|Popped(calls[..k])| + j] == Answer(calls[k].outcome, j) != Pending
    ensures Answers(calls)[|Popped(calls[..k])| + j] ==
      if calls[k].outcome.Raised? then Failed(calls[k].outcome.error)
      else if j < |calls[k].outcome.results| then Resolved(calls[k].outcome.results[j])
      else Failed(LENGTH_MISMATCH)
    decreases |calls|
  {
    var init := calls[..|calls| - 1];
    if k == |calls| - 1 {
    } else {
      AnswersAreSettled(init, k, j);
      assert init[..k] == calls[..k];
    }
  }

  /**
    Each request gets its own answer, in every reachable state: unless its client gave up, request `j` of a
    call holds result `j` if the call returned that many, and an exception otherwise.
   */
  lemma EachGetsItsOwn(cfg: Config, steps: seq<Step>, s: State, k: nat, j: nat)
    requires Reaches(cfg, INIT, steps, s) && k < |s.calls| && j < |s.calls[k].batch|
    ensures var p, outcome := |Popped(s.calls[..k])| + j, s.calls[k].outcome;
      && p < |s.futures| == |s.accepted| && s.accepted[p] == s.calls[k].batch[j]
      && (|| s.futures[p] == Abandoned
          || s.futures[p] == match outcome
                             case Raised(error) => Failed(error)
                             case Returned(results) =>
                               if j < |results| then Resolved(results[j]) else Failed(LENGTH_MISMATCH))
  {
    hide Reaches, LockGuardsEmptyQueue, SomeStarted, BatchesBounded, Counted, Popped, Answers;
    InitServed(cfg);
    RunKeepsInv(cfg, INIT, steps, s);
    AnswersAreSettled(s.calls, k, j);
  }

  lemma {:induction false} NoAnswerIsPending(calls: seq<Call>)
    ensures forall i :: 0 <= i < |Answers(calls)| ==> Answers(calls)[i] != Pending
  {
    if calls != [] {
      NoAnswerIsPending(calls[..|calls| - 1]);
    }
  }

  /** When shutdown has drained the queue, every request accepted so far is settled. */
  lemma ShutdownLeavesNobodyPending(cfg: Config, steps: seq<Step>, s: State)
    requires Reaches(cfg, INIT, steps, s) && Enabled(s, CancelTask)
    ensures forall i :: 0 <= i < |s.futures| ==> s.futures[i] != Pending
  {
    RunKeepsInv(cfg, INIT, steps, s);
    NoAnswerIsPending(s.calls);
  }

  ghost predicate SettledStays(s: State, t: State)
  {
    && |s.futures| <= |t.futures|
    && s.accepted <= t.accepted
    && forall i :: 0 <= i < |s.futures| && s.futures[i] != Pending ==> t.futures[i] == s.futures[i]
  }

  /** A settled future is never settled again, and no accepted request is forgotten. */
  lemma {:induction false} SettledNeverChanges(cfg: Config, s: State, steps: seq<Step>, t: State)
    requires Reaches(cfg, s, steps, t)
    ensures SettledStays(s, t)
    decreases |steps|
  {
    if steps != [] {
      var s' := Next(cfg, s, steps[0]);
      StepSettles(cfg, s, steps[0]);
      SettledNeverChanges(cfg, s', steps[1..], t);
      assert SettledStays(s, t) by {
        hide Next, Enabled, Reaches;
      }
    }
  }

  lemma StepSettles(cfg: Config, s: State, step: Step)
    requires Enabled(s, step)
    ensures SettledStays(s, Next(cfg, s, step))
  {
    hide ShouldProcess, CacheHits, Popped, Answers;
  }

  /** `steps` submits nothing while shutdown waits for the task it cancelled. */
  ghost predicate QuietAwait(cfg: Config, s: State, steps: seq<Step>)
    decreases |steps|
  {
    steps == [] ||
    (Enabled(s, steps[0]) && !(steps[0].Submit? && s.phase.Awaiting?) &&
     QuietAwait(cfg, Next(cfg, s, steps[0]), steps[1..]))
  }

  lemma StepKeepsServed(cfg: Config, s: State, step: Step)
    requires Inv(cfg, s) && Served(s) && Enabled(s, step)
    requires !(step.Submit? && s.phase.Awaiting?)
    ensures Served(Next(cfg, s, step))
  {
    var s' := Next(cfg, s, step);
    if step.Submit? && !s.processing {
      assert s'.tasks[|s.tasks|] != Finished;
    } else if s'.queue != [] {
      var t :| 0 <= t < |s.tasks| && s.tasks[t] != Finished;
      assert s'.tasks[t] != Finished;
    }
  }

  lemma {:induction false} QuietRunKeepsServed(cfg: Config, s: State, steps: seq<Step>, t: State)
    requires Inv(cfg, s) && Served(s) && Reaches(cfg, s, steps, t) && QuietAwait(cfg, s, steps)
    ensures Inv(cfg, t) && Served(t)
    decreases |steps|
  {
    if steps != [] {
      StepKeepsInv(cfg, s, steps[0]);
      StepKeepsServed(cfg, s, steps[0]);
      QuietRunKeepsServed(cfg, Next(cfg, s, steps[0]), steps[1..], t);
    }
  }

  /** A new processor has nobody waiting and satisfies the invariant. */
  lemma InitServed(cfg: Config)
    ensures Inv(cfg, INIT) && Served(INIT) && !Stranded(INIT)
  {
  }

  /**
    Nobody is stranded: while requests are queued some task is scheduled or running its loop, even when
    several tasks overlap and overwrite the flag. This holds up to, through and after a shutdown, for
    every run that submits nothing while shutdown waits for the task it cancelled.
   */
  lemma NobodyStranded(cfg: Config, steps: seq<Step>, t: State)
    requires Reaches(cfg, INIT, steps, t) && QuietAwait(cfg, INIT, steps)
    ensures t.queue != [] ==> SomeLive(t)
    ensures t.processing ==> SomeStarted(t)
  {
    InitServed(cfg);
    QuietRunKeepsServed(cfg, INIT, steps, t);
  }

  ghost predicate Stranded(s: State)
  {
    s.queue != [] && !SomeLive(s)
  }

  /** The cancellation of the only task left, with requests in the queue. */
  ghost predicate CancelsLastTask(s: State, step: Step)
  {
    step.Unwind? && s.queue != [] && forall u :: 0 <= u < |s.tasks| && u != step.task ==> s.tasks[u] == Finished
  }

  /** One step strands requests exactly if it is such a cancellation. */
  lemma StepStrandsIff(cfg: Config, s: State, step: Step)
    requires Inv(cfg, s) && !Stranded(s) && Enabled(s, step)
    ensures Stranded(Next(cfg, s, step)) <==> CancelsLastTask(s, step)
  {
    var s' := Next(cfg, s, step);
    if step.Unwind? {
      if !CancelsLastTask(s, step) && s.queue != [] {
        var u :| 0 <= u < |s.tasks| && u != step.task && s.tasks[u] != Finished;
        assert s'.tasks[u] != Finished;
      }
    } else if step.Submit? && !s.processing {
      assert s'.tasks[|s.tasks|] != Finished;
    } else if s'.queue != [] {
      var t :| 0 <= t < |s.tasks| && s.tasks[t] != Finished;
      assert s'.tasks[t] != Finished;
    }
  }

  ghost predicate NeverStranded(cfg: Config, s: State, steps: seq<Step>)
    decreases |steps|
  {
    !Stranded(s) && (steps != [] ==> Enabled(s, steps[0]) && NeverStranded(cfg, Next(cfg, s, steps[0]), steps[1..]))
  }

  ghost predicate CancelsNoLastTask(cfg: Config, s: State, steps: seq<Step>)
    decreases |steps|
  {
    steps != [] ==>
      && Enabled(s, steps[0]) && !CancelsLastTask(s, steps[0])
      && CancelsNoLastTask(cfg, Next(cfg, s, steps[0]), steps[1..])
  }

  lemma {:induction false} NeverStrandedFrom(cfg: Config, s: State, steps: seq<Step>, t: State)
    requires Inv(cfg, s) && !Stranded(s) && Reaches(cfg, s, steps, t)
    ensures NeverStranded(cfg, s, steps) <==> CancelsNoLastTask(cfg, s, steps)
    decreases |steps|
  {
    if steps != [] {
      var s' := Next(cfg, s, steps[0]);
      StepKeepsInv(cfg, s, steps[0]);
      StepStrandsIff(cfg, s, steps[0]);
      if !Stranded(s') {
        NeverStrandedFrom(cfg, s', steps[1..], t);
      }
    }
  }

  /**
    Exactly when nobody is ever stranded, over all runs: when no cancellation takes away the last task while
    requests are queued.
   */
  lemma NeverStrandedIff(cfg: Config, steps: seq<Step>, t: State)
    requires Reaches(cfg, INIT, steps, t)
    ensures NeverStranded(cfg, INIT, steps) <==> CancelsNoLastTask(cfg, INIT, steps)
  {
    InitServed(cfg);
    NeverStrandedFrom(cfg, INIT, steps, t);
  }

  /**
    A task ends its loop only over an empty queue, unless shutdown cancels it: the queue it saw empty
    before the long sleep is still empty after it, so the second look never sends it round again.
   */
  lemma LoopEndsOnEmptyQueue(cfg: Config, steps: seq<Step>, s: State, step: Step, u: nat)
    requires Reaches(cfg, INIT, steps, s) && Enabled(s, step)
    requires u < |s.tasks| && s.tasks[u] != Finished
    ensures Next(cfg, s, step).tasks[u] == Finished <==> step == Wake(u) || step == Unwind(u)
    ensures step == Wake(u) ==> s.queue == [] && s.lock == Some(u)
  {
    hide Reaches, Fifo, Answered, BatchesBounded, Counted, SomeStarted, ShouldProcess, Settle, BatchAnswers, CacheHits;
    InitServed(cfg);
    RunKeepsInv(cfg, INIT, steps, s);
  }

  /** In numbers: nothing is served, or one batch of the full size, or one up to the last request. */
  predicate Takes(cfg: Config, accepted: nat, calls: nat, popped: nat, accepted': nat, calls': nat, popped': nat)
  {
    && accepted <= accepted'
    && ((calls' == calls && popped' == popped) ||
        (calls' == calls + 1 && popped <= popped' && (popped' == popped + cfg.maxBatch || popped' == accepted)))
  }

  ghost predicate TakesAllItCan(cfg: Config, s: State, s': State)
  {
    Takes(cfg, |s.accepted|, |s.calls|, |Popped(s.calls)|, |s'.accepted|, |s'.calls|, |Popped(s'.calls)|)
  }

  lemma PoppedGrows(calls: seq<Call>, call: Call)
    ensures Popped(calls + [call]) == Popped(calls) + call.batch
  {
    assert (calls + [call])[..|calls|] == calls;
  }

  lemma ServeTakes(cfg: Config, s: State, n: nat, outcome: ModelOutcome)
    requires Fifo(s) && n <= |s.queue| && (n == 0 || n == cfg.maxBatch || n == |s.queue|)
    ensures TakesAllItCan(cfg, s, ServeBatch(s, n, outcome))
  {
    hide Settle, BatchAnswers, CacheHits, Popped;
    if n > 0 {
      PoppedGrows(s.calls, Call(s.queue[..n], outcome));
    }
  }

  /** A step serves at most one batch, of the full size or of the whole queue, and accepts at the end. */
  lemma CallTakesAllItCan(cfg: Config, s: State, step: Step)
    requires Fifo(s) && Enabled(s, step)
    ensures TakesAllItCan(cfg, s, Next(cfg, s, step))
  {
    if step.Take? || step.Drain? {
      hide Fifo, ShouldProcess, Settle, BatchAnswers, CacheHits, Popped;
      var n := if step.Drain? || ShouldProcess(cfg, s.queue, step.now) then BatchSize(cfg, s.queue) else 0;
      ServeTakes(cfg, s, n, step.outcome);
    } else {
      hide Fifo, ShouldProcess, ServeBatch, Popped;
    }
  }

  lemma InvTakesAllItCan(cfg: Config, s: State, step: Step)
    requires Inv(cfg, s) && Enabled(s, step)
    ensures TakesAllItCan(cfg, s, Next(cfg, s, step)) && |s.accepted| <= |Next(cfg, s, step).accepted|
  {
    hide Fifo, Enabled, Next, Popped;
    CallTakesAllItCan(cfg, s, step);
  }

  function Times(k: nat, m: int): int
  {
    if k == 0 then 0 else Times(k - 1, m) + m
  }

  lemma {:induction false} TimesIsProduct(k: nat, m: int)
    ensures Times(k, m) == k * m
  {
    if k > 0 {
      TimesIsProduct(k - 1, m);
      assert k * m == (k - 1) * m + m;
    }
  }

  /** From `s` to `t` request `i` was served, or every batch served took its full size. */
  ghost predicate Caught(cfg: Config, s: State, t: State, i: nat)
  {
    && |s.calls| <= |t.calls| && |Popped(s.calls)| <= |Popped(t.calls)|
    && (i < |Popped(t.calls)| || |Popped(t.calls)| >= |Popped(s.calls)| + Times(|t.calls| - |s.calls|, cfg.maxBatch))
  }

  lemma CaughtBefore(cfg: Config, s: State, s': State, t: State, i: nat)
    requires TakesAllItCan(cfg, s, s') && i < |s.accepted| && Caught(cfg, s', t, i)
    ensures Caught(cfg, s, t, i)
  {
    hide Popped, Times, Takes;
    Catches(cfg, i, |s.accepted|, |s.calls|, |Popped(s.calls)|, |s'.accepted|, |s'.calls|, |Popped(s'.calls)|,
      |t.calls|, |Popped(t.calls)|);
  }

  lemma {:induction false} CatchesUp(cfg: Config, s: State, steps: seq<Step>, t: State, i: nat)
    requires Inv(cfg, s) && Reaches(cfg, s, steps, t) && i < |s.accepted|
    ensures Caught(cfg, s, t, i)
    decreases |steps|
  {
    hide Inv, Enabled, Next, TakesAllItCan;
    if steps != [] {
      hide Caught;
      var s' := Next(cfg, s, steps[0]);
      StepKeepsInv(cfg, s, steps[0]);
      InvTakesAllItCan(cfg, s, steps[0]);
      CatchesUp(cfg, s', steps[1..], t, i);
      CaughtBefore(cfg, s, s', t, i);
    }
  }

  lemma Catches(cfg: Config, i: nat, accepted: nat, calls: nat, popped: nat, accepted': nat, calls': nat, popped': nat,
                endCalls: nat, endPopped: nat)
    requires i < accepted && Takes(cfg, accepted, calls, popped, accepted', calls', popped')
    requires calls' <= endCalls && popped' <= endPopped
    requires i < endPopped || endPopped >= popped' + Times(endCalls - calls', cfg.maxBatch)
    ensures calls <= endCalls && popped <= endPopped
    ensures i < endPopped || endPopped >= popped + Times(endCalls - calls, cfg.maxBatch)
  {
  }

  /**
    Bounded waiting: once as many batches as `i`'s place in the queue can need have been served, `i` has
    been served; later arrivals never overtake.
   */
  lemma BoundedOvertaking(cfg: Config, s: State, steps: seq<Step>, t: State, i: nat)
    requires Inv(cfg, s) && Reaches(cfg, s, steps, t) && i < |s.accepted|
    ensures |s.calls| <= |t.calls|
    ensures i < |Popped(t.calls)| || |Popped(t.calls)| >= |Popped(s.calls)| + (|t.calls| - |s.calls|) * cfg.maxBatch
  {
    hide Inv, Reaches, Popped, Times;
    CatchesUp(cfg, s, steps, t, i);
    TimesIsProduct(|t.calls| - |s.calls|, cfg.maxBatch);
  }

  /**
    A pop attempt serves nobody exactly if the limit is not positive, the queue is empty, or it is too short
    and too young for any of the three triggers; otherwise it serves the oldest requests, up to the limit.
   */
  lemma TakeServesUnlessTooEarly(cfg: Config, s: State, take: Step)
    requires Enabled(s, take) && take.Take?
    ensures var s', n := Next(cfg, s, take), Min(|s.queue|, cfg.maxBatch);
      var waited := if s.queue == [] then 0.0 else (take.now - s.queue[0].timestamp) * 1000.0;
      var tooEarly := |s.queue| < cfg.maxBatch && waited < cfg.maxWaitMs &&
                      (|s.queue| < cfg.minBatch || waited < cfg.maxWaitMs * 0.5);
      if cfg.maxBatch < 1 || s.queue == [] || tooEarly then s'.queue == s.queue && s'.calls == s.calls
      else n > 0 && s'.queue == s.queue[n..] && s'.calls == s.calls + [Call(s.queue[..n], take.outcome)]
  {
    hide Settle, BatchAnswers, CacheHits;
  }

  /** A batch below the limit had waited half the time at least, and one below the minimum the whole time. */
  lemma SmallBatchesHaveWaited(cfg: Config, s: State, take: Step)
    requires Enabled(s, take) && take.Take? && Next(cfg, s, take).calls != s.calls
    ensures var size := |s.queue| - |Next(cfg, s, take).queue|;
      && 0 < size && size <= |s.queue|
      && var waited := (take.now - s.queue[0].timestamp) * 1000.0;
      (size < cfg.maxBatch ==> waited >= cfg.maxWaitMs || (size >= cfg.minBatch && waited >= cfg.maxWaitMs * 0.5))
  {
    TakeServesUnlessTooEarly(cfg, s, take);
    hide Next, Enabled;
  }

  /** A round of the draining loop serves the oldest requests without waiting, as many as the limit allows. */
  lemma DrainServes(cfg: Config, s: State, outcome: ModelOutcome)
    requires Enabled(s, Drain(outcome)) && cfg.maxBatch >= 1
    ensures var s', n := Next(cfg, s, Drain(outcome)), Min(|s.queue|, cfg.maxBatch);
      n > 0 && s'.queue == s.queue[n..] && s'.calls == s.calls + [Call(s.queue[..n], outcome)]
  {
    hide Settle, BatchAnswers, CacheHits;
  }

  /** With a positive batch limit, a pop attempt finding the oldest request overdue serves it. */
  lemma OverdueIsServed(cfg: Config, s: State, step: Step)
    requires Inv(cfg, s) && Enabled(s, step) && step.Take? && cfg.maxBatch >= 1 && s.queue != []
    requires (step.now - s.queue[0].timestamp) * 1000.0 >= cfg.maxWaitMs
    ensures |Popped(Next(cfg, s, step).calls)| > s.queue[0].ticket
  {
    ServeBatchKeepsFifo(s, BatchSize(cfg, s.queue), step.outcome);
    PoppedAndAnswersGrow(s.calls, Call(s.queue[..BatchSize(cfg, s.queue)], step.outcome));
  }

  // ---------------------------------------------------------------- progress

  /** All of these requests have waited their full time at `now`. */
  predicate AllDue(cfg: Config, requests: seq<Request>, now: real)
  {
    forall k :: 0 <= k < |requests| ==> (now - requests[k].timestamp) * 1000.0 >= cfg.maxWaitMs
  }

  /** The pop attempts among `steps` at which all of these requests are due. */
  function DueTakes(cfg: Config, requests: seq<Request>, steps: seq<Step>): nat
  {
    if steps == [] then 0 else
    (if steps[0].Take? && AllDue(cfg, requests, steps[0].now) then 1 else 0) + DueTakes(cfg, requests, steps[1..])
  }

  lemma DueTakeServes(cfg: Config, s: State, step: Step, i: nat)
    requires Inv(cfg, s) && Enabled(s, step) && step.Take? && cfg.maxBatch >= 1
    requires |Popped(s.calls)| <= i < |s.accepted| && AllDue(cfg, s.accepted[|Popped(s.calls)|..i + 1], step.now)
    ensures |Next(cfg, s, step).calls| == |s.calls| + 1
    ensures |Popped(Next(cfg, s, step).calls)| == |Popped(s.calls)| + BatchSize(cfg, s.queue)
  {
    hide Answered, LockGuardsEmptyQueue, SomeStarted, Settle, BatchAnswers, CacheHits, Popped, Counted;
    var p := |Popped(s.calls)|;
    assert s.queue[0] == s.accepted[p] == s.accepted[p..i + 1][0];
    PoppedGrows(s.calls, Call(s.queue[..BatchSize(cfg, s.queue)], step.outcome));
  }

  /** Each such attempt serves a batch, as long as the last of these requests waits. */
  lemma {:induction false} DueTakesServe(cfg: Config, s: State, steps: seq<Step>, t: State, i: nat)
    requires Inv(cfg, s) && Reaches(cfg, s, steps, t) && cfg.maxBatch >= 1 && i < |s.accepted|
    ensures |Popped(t.calls)| >= |Popped(s.calls)|
    ensures i < |Popped(t.calls)| || |t.calls| - |s.calls| >= DueTakes(cfg, s.accepted[..i + 1], steps)
    decreases |steps|
  {
    hide Inv, Enabled, Next, Popped, AllDue;
    CatchesUp(cfg, s, steps, t, i);
    if steps != [] {
      var s' := Next(cfg, s, steps[0]);
      StepKeepsInv(cfg, s, steps[0]);
      InvTakesAllItCan(cfg, s, steps[0]);
      StepSettles(cfg, s, steps[0]);
      assert s'.accepted[..i + 1] == s.accepted[..i + 1];
      DueTakesServe(cfg, s', steps[1..], t, i);
      if steps[0].Take? && AllDue(cfg, s.accepted[..i + 1], steps[0].now) && i >= |Popped(s.calls)| {
        DueSuffix(cfg, s.accepted[..i + 1], |Popped(s.calls)|, steps[0].now);
        assert s.accepted[..i + 1][|Popped(s.calls)|..] == s.accepted[|Popped(s.calls)|..i + 1];
        DueTakeServes(cfg, s, steps[0], i);
      }
    }
  }

  lemma DueSuffix(cfg: Config, requests: seq<Request>, p: nat, now: real)
    requires AllDue(cfg, requests, now) && p <= |requests|
    ensures AllDue(cfg, requests[p..], now)
  {
  }

  lemma SettledOncePopped(cfg: Config, s: State, i: nat)
    requires Inv(cfg, s) && i < |Popped(s.calls)|
    ensures i < |s.futures| && s.futures[i] != Pending
  {
    hide BatchesBounded, LockGuardsEmptyQueue, SomeStarted, Counted;
    NoAnswerIsPending(s.calls);
  }

  lemma EnoughBatches(i: nat, popped: nat, endPopped: nat, batches: int, attempts: nat, m: nat)
    requires batches >= attempts && attempts * m > i - popped
    requires i < endPopped || endPopped >= popped + batches * m
    ensures i < endPopped
  {
    Monotone(attempts, batches, m);
  }

  /**
    Progress: however the coroutines interleave, request `i` is settled once loop tasks have tried to pop
    often enough, after it and all before it became due, for full batches to reach its place in the queue.
   */
  lemma EnoughAttemptsSettle(cfg: Config, s: State, steps: seq<Step>, t: State, i: nat)
    requires Inv(cfg, s) && Reaches(cfg, s, steps, t) && cfg.maxBatch >= 1 && i < |s.accepted|
    requires DueTakes(cfg, s.accepted[..i + 1], steps) * cfg.maxBatch > i - |Popped(s.calls)|
    ensures i < |Popped(t.calls)| && i < |t.futures| && t.futures[i] != Pending
  {
    hide Inv, Reaches, Popped, DueTakes;
    RunKeepsInv(cfg, s, steps, t);
    BoundedOvertaking(cfg, s, steps, t, i);
    DueTakesServe(cfg, s, steps, t, i);
    if i >= |Popped(t.calls)| {
      EnoughBatches(i, |Popped(s.calls)|, |Popped(t.calls)|, |t.calls| - |s.calls|,
                    DueTakes(cfg, s.accepted[..i + 1], steps), cfg.maxBatch);
    }
    SettledOncePopped(cfg, t, i);
  }

  /** What the model does with each batch, by the number of batches before it. */
  type Outcomes = nat -> ModelOutcome

  /** A step of task `t`, which reads the clock at `now`. */
  predicate IsOwn(s: State, step: Step, t: nat, now: real, outcomes: Outcomes)
  {
    step == Start(t) || step == Check(t) || step == Take(t, now, outcomes(|s.calls|))
  }

  /** A run of task `t` alone. */
  ghost predicate OwnRun(cfg: Config, s: State, steps: seq<Step>, t: nat, now: real, outcomes: Outcomes)
    decreases |steps|
  {
    steps == [] ||
    (&& Enabled(s, steps[0]) && IsOwn(s, steps[0], t, now, outcomes)
     && OwnRun(cfg, Next(cfg, s, steps[0]), steps[1..], t, now, outcomes))
  }

  /** Task `t` is scheduled or alive, and nobody cancels it. */
  predicate MayRun(s: State, t: nat)
  {
    t < |s.tasks| && s.tasks[t] != Finished && s.phase != Awaiting(t)
  }

  /** Request `i` waits, and it and all that wait before it are due. */
  ghost predicate DueUpTo(cfg: Config, s: State, i: nat, now: real)
  {
    |Popped(s.calls)| <= i < |s.accepted| && AllDue(cfg, s.accepted[|Popped(s.calls)|..i + 1], now)
  }

  /** Whatever a task is at, while requests wait, at most one step takes it to where it pops. */
  lemma GetReady(cfg: Config, s: State, t: nat, now: real, outcomes: Outcomes) returns (steps: seq<Step>, s': State)
    requires Inv(cfg, s) && MayRun(s, t) && s.queue != []
    ensures Reaches(cfg, s, steps, s') && |steps| <= 1 && OwnRun(cfg, s, steps, t, now, outcomes)
    ensures At(s', t, Napping) && s'.lock == None
    ensures s'.calls == s.calls && s'.accepted == s.accepted && s'.phase == s.phase && s'.queue == s.queue
  {
    hide Fifo, Answered, BatchesBounded, Counted, SomeStarted;
    assert s.lock == None && s.tasks[t] != Idling;
    if s.tasks[t] == Napping {
      steps, s' := [], s;
    } else {
      var step := if s.tasks[t] == Scheduled then Start(t) else Check(t);
      steps, s' := [step], Next(cfg, s, step);
      OneStepRun(cfg, s, step, t, now, outcomes);
    }
  }

  lemma OneStepRun(cfg: Config, s: State, step: Step, t: nat, now: real, outcomes: Outcomes)
    requires Enabled(s, step) && IsOwn(s, step, t, now, outcomes)
    ensures Reaches(cfg, s, [step], Next(cfg, s, step)) && OwnRun(cfg, s, [step], t, now, outcomes)
  {
    hide Enabled, Next, IsOwn;
    assert [step][1..] == [];
    assert Reaches(cfg, Next(cfg, s, step), [], Next(cfg, s, step));
    assert OwnRun(cfg, Next(cfg, s, step), [], t, now, outcomes);
  }

  lemma {:induction false} OwnRunsJoin(cfg: Config, s: State, steps: seq<Step>, u: State, more: seq<Step>, s': State,
                                       t: nat, now: real, outcomes: Outcomes)
    requires Reaches(cfg, s, steps, u) && OwnRun(cfg, s, steps, t, now, outcomes)
    requires Reaches(cfg, u, more, s') && OwnRun(cfg, u, more, t, now, outcomes)
    ensures Reaches(cfg, s, steps + more, s') && OwnRun(cfg, s, steps + more, t, now, outcomes)
    decreases |steps|
  {
    hide Enabled, Next, IsOwn;
    if steps == [] {
      assert steps + more == more;
    } else {
      OwnRunsJoin(cfg, Next(cfg, s, steps[0]), steps[1..], u, more, s', t, now, outcomes);
      assert (steps + more)[1..] == steps[1..] + more;
    }
  }

  lemma WaitingIsQueued(cfg: Config, s: State, i: nat, now: real)
    requires Inv(cfg, s) && DueUpTo(cfg, s, i, now)
    ensures s.queue != []
  {
    assert |s.accepted| == |Popped(s.calls)| + |s.queue|;
  }

  lemma DueAlike(cfg: Config, s: State, u: State, i: nat, now: real)
    requires DueUpTo(cfg, s, i, now) && u.calls == s.calls && u.accepted == s.accepted
    ensures DueUpTo(cfg, u, i, now)
  {
  }

  /** The pop of such a turn. */
  lemma TurnTakes(cfg: Config, s: State, take: Step, i: nat)
    requires Inv(cfg, s) && take.Take? && At(s, take.task, Napping) && s.lock == None
    requires cfg.maxBatch >= 1 && DueUpTo(cfg, s, i, take.now)
    ensures Enabled(s, take)
    ensures var s' := Next(cfg, s, take);
      && Inv(cfg, s') && MayRun(s', take.task) && s'.accepted == s.accepted
      && (|Popped(s'.calls)| > i || |Popped(s'.calls)| == |Popped(s.calls)| + cfg.maxBatch)
  {
    hide Popped, AllDue, Answered, BatchesBounded, Counted, LockGuardsEmptyQueue, SomeStarted;
    hide ShouldProcess, Settle, BatchAnswers, CacheHits;
    assert |s.accepted| == |Popped(s.calls)| + |s.queue|;
    DueTakeServes(cfg, s, take, i);
    StepKeepsInv(cfg, s, take);
  }

  /** One turn of a task's loop with the head of the queue due: at most two steps, and a batch is served. */
  lemma OneTurn(cfg: Config, s: State, t: nat, i: nat, now: real, outcomes: Outcomes)
    returns (steps: seq<Step>, s': State)
    requires Inv(cfg, s) && MayRun(s, t) && cfg.maxBatch >= 1 && DueUpTo(cfg, s, i, now)
    ensures Reaches(cfg, s, steps, s') && |steps| <= 2 && OwnRun(cfg, s, steps, t, now, outcomes)
    ensures Inv(cfg, s') && MayRun(s', t) && s'.accepted == s.accepted
    ensures |Popped(s'.calls)| > i || |Popped(s'.calls)| == |Popped(s.calls)| + cfg.maxBatch
  {
    WaitingIsQueued(cfg, s, i, now);
    hide Inv, Popped, DueUpTo, Enabled, Reaches;
    var ready, u := GetReady(cfg, s, t, now, outcomes);
    RunKeepsInv(cfg, s, ready, u);
    DueAlike(cfg, s, u, i, now);
    var take := Take(t, now, outcomes(|u.calls|));
    TurnTakes(cfg, u, take, i);
    steps, s' := ready + [take], Next(cfg, u, take);
    OneStepRun(cfg, u, take, t, now, outcomes);
    OwnRunsJoin(cfg, s, ready, u, [take], s', t, now, outcomes);
  }

  /** Two steps for each full batch ahead of a place in the queue, and two for the batch with that place. */
  function StepsToServe(place: int, maxBatch: int): int
    requires maxBatch >= 1
  {
    2 * (place / maxBatch + 1)
  }

  lemma BoundOfOne(distance: nat, m: nat)
    requires m >= 1
    ensures 2 <= StepsToServe(distance, m)
  {
    assert distance / m >= 0;
  }

  lemma OneTurnLess(distance: nat, m: nat)
    requires 1 <= m <= distance
    ensures StepsToServe(distance - m, m) == StepsToServe(distance, m) - 2
  {
    var q, r := distance / m, distance % m;
    assert distance - m == (q - 1) * m + r by {
      assert distance == q * m + r;
      assert (q - 1) * m == q * m - m;
    }
    QuotientIs(distance - m, m, q - 1, r);
  }

  lemma StillDue(cfg: Config, s: State, u: State, i: nat, now: real)
    requires DueUpTo(cfg, s, i, now) && u.accepted == s.accepted && cfg.maxBatch >= 1
    requires |Popped(u.calls)| == |Popped(s.calls)| + cfg.maxBatch <= i
    ensures DueUpTo(cfg, u, i, now)
  {
    hide AllDue, Popped;
    var requests := s.accepted[|Popped(s.calls)|..i + 1];
    DueSuffix(cfg, requests, cfg.maxBatch, now);
    assert requests[cfg.maxBatch..] == u.accepted[|Popped(u.calls)|..i + 1];
  }

  /** Request `i` and all before it are due, and task `t` can serve them. */
  ghost predicate Servable(cfg: Config, s: State, t: nat, i: nat, now: real)
  {
    Inv(cfg, s) && MayRun(s, t) && cfg.maxBatch >= 1 && DueUpTo(cfg, s, i, now)
  }

  ghost predicate ServedBy(cfg: Config, s: State, steps: seq<Step>, s': State, t: nat, i: nat, now: real,
                           outcomes: Outcomes)
  {
    && Reaches(cfg, s, steps, s') && OwnRun(cfg, s, steps, t, now, outcomes)
    && Inv(cfg, s') && i < |Popped(s'.calls)|
  }

  /** A turn either serves request `i`, or comes a full batch closer to it. */
  lemma TurnTowards(cfg: Config, s: State, t: nat, i: nat, now: real, outcomes: Outcomes)
    returns (steps: seq<Step>, u: State)
    requires Servable(cfg, s, t, i, now)
    ensures Reaches(cfg, s, steps, u) && |steps| <= 2 && OwnRun(cfg, s, steps, t, now, outcomes)
    ensures u.accepted == s.accepted
    ensures ServedBy(cfg, s, steps, u, t, i, now, outcomes) ||
      (Servable(cfg, u, t, i, now) && |Popped(u.calls)| == |Popped(s.calls)| + cfg.maxBatch <= i)
  {
    steps, u := OneTurn(cfg, s, t, i, now, outcomes);
    hide Inv, Reaches, Popped, MayRun, OwnRun, AllDue;
    if |Popped(u.calls)| <= i {
      StillDue(cfg, s, u, i, now);
    }
  }

  lemma ServedLater(cfg: Config, s: State, steps: seq<Step>, u: State, more: seq<Step>, s': State,
                    t: nat, i: nat, now: real, outcomes: Outcomes)
    requires Reaches(cfg, s, steps, u) && OwnRun(cfg, s, steps, t, now, outcomes)
    requires ServedBy(cfg, u, more, s', t, i, now, outcomes)
    ensures ServedBy(cfg, s, steps + more, s', t, i, now, outcomes)
  {
    hide Inv, Reaches, Popped, OwnRun;
    OwnRunsJoin(cfg, s, steps, u, more, s', t, now, outcomes);
  }

  lemma {:induction false} ScheduleFrom(cfg: Config, s: State, t: nat, i: nat, now: real, outcomes: Outcomes)
    returns (steps: seq<Step>, s': State)
    requires Servable(cfg, s, t, i, now)
    ensures ServedBy(cfg, s, steps, s', t, i, now, outcomes)
    ensures |steps| <= StepsToServe(i - |Popped(s.calls)|, cfg.maxBatch)
    decreases |s.accepted| - |Popped(s.calls)|
  {
    var place := i - |Popped(s.calls)|;
    assert place >= 0 && cfg.maxBatch >= 1;
    hide Servable, ServedBy, Reaches, Popped, OwnRun, StepsToServe;
    var u;
    steps, u := TurnTowards(cfg, s, t, i, now, outcomes);
    BoundOfOne(place, cfg.maxBatch);
    s' := u;
    if !ServedBy(cfg, s, steps, u, t, i, now, outcomes) {
      var more;
      more, s' := ScheduleFrom(cfg, u, t, i, now, outcomes);
      ServedLater(cfg, s, steps, u, more, s', t, i, now, outcomes);
      OneTurnLess(place, cfg.maxBatch);
      steps := steps + more;
    }
  }

  /**
    A schedule that serves request `i`: from any state in which it and all before it are due, some steps of
    any one unfinished task alone settle it, two for each full batch up to its place and two for its own.
   */
  lemma ScheduleSettles(cfg: Config, s: State, t: nat, i: nat, now: real, outcomes: Outcomes)
    returns (steps: seq<Step>, s': State)
    requires Inv(cfg, s) && MayRun(s, t) && cfg.maxBatch >= 1 && DueUpTo(cfg, s, i, now)
    ensures Reaches(cfg, s, steps, s') && OwnRun(cfg, s, steps, t, now, outcomes)
    ensures i < |s'.futures| && s'.futures[i] != Pending
    ensures |steps| <= StepsToServe(i - |Popped(s.calls)|, cfg.maxBatch)
  {
    hide Inv, Reaches, Popped, MayRun, OwnRun, DueUpTo, StepsToServe;
    steps, s' := ScheduleFrom(cfg, s, t, i, now, outcomes);
    SettledOncePopped(cfg, s', i);
  }

  /**
    No deadlock: as long as nothing was submitted while shutdown awaited its task, every waiting request can
    be settled by the steps of one task alone, as soon as it and all before it are due.
   */
  lemma NoDeadlock(cfg: Config, before: seq<Step>, s: State, i: nat, now: real, outcomes: Outcomes)
    returns (t: nat, steps: seq<Step>, s': State)
    requires Reaches(cfg, INIT, before, s) && QuietAwait(cfg, INIT, before)
    requires cfg.maxBatch >= 1 && DueUpTo(cfg, s, i, now)
    ensures MayRun(s, t) && Reaches(cfg, s, steps, s') && OwnRun(cfg, s, steps, t, now, outcomes)
    ensures i < |s'.futures| && s'.futures[i] != Pending
    ensures |steps| <= StepsToServe(i - |Popped(s.calls)|, cfg.maxBatch)
  {
    InitServed(cfg);
    QuietRunKeepsServed(cfg, INIT, before, s);
    assert s.queue != [];
    t :| 0 <= t < |s.tasks| && s.tasks[t] != Finished;
    hide Inv, Reaches, Popped, StepsToServe;
    steps, s' := ScheduleSettles(cfg, s, t, i, now, outcomes);
  }

  // ---------------------------------------------------------------- a request left behind

  lemma {:induction false} RunsExtend(cfg: Config, s: State, steps: seq<Step>, t: State, step: Step)
    requires Reaches(cfg, s, steps, t) && Enabled(t, step)
    ensures Reaches(cfg, s, steps + [step], Next(cfg, t, step))
    decreases |steps|
  {
    var more := steps + [step];
    if steps == [] {
      assert more[1..] == [];
    } else {
      RunsExtend(cfg, Next(cfg, s, steps[0]), steps[1..], t, step);
      assert more[1..] == steps[1..] + [step];
    }
  }

  /** One request is served by one task, which then still has to look at the queue. */
  lemma OneServedRun(cfg: Config) returns (steps: seq<Step>, s: State)
    requires cfg.maxBatch >= 1 && cfg.maxWaitMs >= 0.0
    ensures Reaches(cfg, INIT, steps, s)
    ensures s.queue == [] && s.tasks == [Checking] && s.processing && s.batchTask == Some(0)
    ensures s.phase == Running && s.lock == None
  {
    steps, s := [], INIT;
    assert Reaches(cfg, INIT, steps, s);
    var path := [Submit("a", 0.0), Start(0), Take(0, cfg.maxWaitMs, Raised("x"))];
    RunsExtend(cfg, INIT, steps, s, path[0]);
    steps, s := steps + [path[0]], Next(cfg, s, path[0]);
    RunsExtend(cfg, INIT, steps, s, path[1]);
    steps, s := steps + [path[1]], Next(cfg, s, path[1]);
    RunsExtend(cfg, INIT, steps, s, path[2]);
    steps, s := steps + [path[2]], Next(cfg, s, path[2]);
  }

  /** Shutdown then cancels that task, and a second request arrives before the cancellation is delivered. */
  lemma LateRequestRun(cfg: Config) returns (steps: seq<Step>, s: State)
    requires cfg.maxBatch >= 1 && cfg.maxWaitMs >= 0.0
    ensures Reaches(cfg, INIT, steps, s)
    ensures s.queue != [] && s.tasks == [Checking] && s.phase == Awaiting(0)
  {
    steps, s := OneServedRun(cfg);
    RunsExtend(cfg, INIT, steps, s, BeginShutdown);
    steps, s := steps + [BeginShutdown], Next(cfg, s, BeginShutdown);
    RunsExtend(cfg, INIT, steps, s, CancelTask);
    steps, s := steps + [CancelTask], Next(cfg, s, CancelTask);
    RunsExtend(cfg, INIT, steps, s, Submit("b", 0.0));
    steps, s := steps + [Submit("b", 0.0)], Next(cfg, s, Submit("b", 0.0));
  }

  /**
    The exception in `NobodyStranded` is real: a request accepted while shutdown waits for the cancelled
    task sees the flag still up, starts no task, and is left in the queue with every task finished.
   */
  lemma StrandedDuringShutdown(cfg: Config)
    requires cfg.maxBatch >= 1 && cfg.maxWaitMs >= 0.0
    ensures exists steps, s :: Reaches(cfg, INIT, steps, s) && s.phase == Stopped && s.queue != [] && !SomeLive(s)
  {
    var steps, s := LateRequestRun(cfg);
    RunsExtend(cfg, INIT, steps, s, Unwind(0));
    steps, s := steps + [Unwind(0)], Next(cfg, s, Unwind(0));
    RunsExtend(cfg, INIT, steps, s, EndShutdown);
    steps, s := steps + [EndShutdown], Next(cfg, s, EndShutdown);
    assert s.tasks == [Finished];
  }
}
