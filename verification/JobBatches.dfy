/** A job's chunked processing loop. */
module JobBatches {
  import opened Basics
  import opened Chunking

  const ERROR_RESULT: Prediction := Prediction(Some("ERROR"), 0.0, false)

  predicate IsErrorResult(p: Prediction) { p.sentiment == Some("ERROR") }

  function CountErrors(rs: seq<Prediction>): nat
  {
    if rs == [] then 0 else CountErrors(rs[..|rs| - 1]) + (if IsErrorResult(rs[|rs| - 1]) then 1 else 0)
  }

  lemma {:induction false} ErrorsAreCounted(rs: seq<Prediction>)
    ensures CountErrors(rs) == |set i | 0 <= i < |rs| && rs[i].sentiment == Some("ERROR")|
  {
    if rs != [] {
      var n := |rs| - 1;
      ErrorsAreCounted(rs[..n]);
      var before := set i | 0 <= i < n && rs[..n][i].sentiment == Some("ERROR");
      var after := set i | 0 <= i < |rs| && rs[i].sentiment == Some("ERROR");
      MaybeOneMore(before, n, rs[n].sentiment == Some("ERROR"), after);
    }
  }

  /** `predict_async_batch`: a model that raises yields one error result per text. */
  function PredictAsyncBatch(model: seq<string> -> ModelOutcome, texts: seq<string>): seq<Prediction>
  {
    match model(texts)
    case Returned(rs) => rs
    case Raised(_) => seq(|texts|, _ => ERROR_RESULT)
  }

  /** What the checkpoint before a chunk finds. */
  datatype Checkpoint = Missing | CancelSeen | TimeoutSeen | GoOn

  datatype BatchesOutcome = Finished(results: seq<Prediction>, failedCount: nat) | TimedOut

  /** `max(1, min(total or 1, max_batch_size or total or 1))` */
  function ChunkSize(total: nat, maxBatchSize: int): (size: nat)
    ensures size > 0
  {
    var totalOrOne := if total == 0 then 1 else total;
    Max(1, Min(totalOrOne, if maxBatchSize == 0 then totalOrOne else maxBatchSize))
  }

  /** The size of the chunks: the limit of the job, but no more than its texts, and at least one. */
  lemma ChunkSizeIs(total: nat, maxBatchSize: int)
    requires total > 0
    ensures ChunkSize(total, maxBatchSize) ==
      if maxBatchSize == 0 || maxBatchSize > total then total else if maxBatchSize < 0 then 1 else maxBatchSize
  {
  }

  function Predictions(model: seq<string> -> ModelOutcome, chunks: seq<seq<string>>): seq<Prediction>
  {
    if chunks == [] then [] else
    Predictions(model, chunks[..|chunks| - 1]) + PredictAsyncBatch(model, chunks[|chunks| - 1])
  }

  /** One progress report: the counts of results and of errors, which give the fraction done. */
  datatype Report = Report(processedCount: nat, failedCount: nat)

  function ReportOf(results: seq<Prediction>): Report
  {
    Report(|results|, CountErrors(results))
  }

  /** `processed_count / total_texts if total_texts > 0 else 1.0` */
  function Progress(report: Report, total: nat): real
  {
    if total > 0 then (report.processedCount as real) / (total as real) else 1.0
  }

  /** The reports after each of the chunks. */
  function Reports(model: seq<string> -> ModelOutcome, chunks: seq<seq<string>>): seq<Report>
  {
    if chunks == [] then [] else
    Reports(model, chunks[..|chunks| - 1]) + [ReportOf(Predictions(model, chunks))]
  }

  /** What the loop returns when it has done the chunks `done` and the next checkpoint says `stop`. */
  function OutcomeOf(model: seq<string> -> ModelOutcome, done: seq<seq<string>>, stop: Checkpoint): BatchesOutcome
  {
    if stop == TimeoutSeen then TimedOut else Finished(Predictions(model, done), CountErrors(Predictions(model, done)))
  }

  /** The checkpoints let exactly the first `k` of `n` chunks through; `stop` is what the next one says. */
  ghost predicate StopsAfter(seen: nat -> Checkpoint, n: nat, k: nat, stop: Checkpoint)
  {
    && k <= n
    && (forall j :: 0 <= j < k ==> seen(j) == GoOn)
    && (if k < n then stop == seen(k) != GoOn else stop == GoOn)
  }

  /**
    `_process_job_batches`. Whatever the checkpoints see, the results are those of the chunks before the
    first one that stops the loop; only a time-out discards them.
   */
  method ProcessJobBatches(model: seq<string> -> ModelOutcome, texts: seq<string>, maxBatchSize: int,
                           seen: nat -> Checkpoint)
    returns (r: BatchesOutcome, reports: seq<Report>, k: nat, stop: Checkpoint)
    ensures var chunks := Chunks(texts, ChunkSize(|texts|, maxBatchSize));
      && StopsAfter(seen, |chunks|, k, stop)
      && r == OutcomeOf(model, chunks[..k], stop)
      && reports == Reports(model, chunks[..k])
      && (r == TimedOut <==> stop == TimeoutSeen)
      && (r.Finished? ==> r.results == Predictions(model, chunks[..k]) && r.failedCount == CountErrors(r.results))
  {
    hide Predictions, Reports, Chunks, CountErrors, ChunkSize;
    var size := ChunkSize(|texts|, maxBatchSize);
    ghost var done: seq<seq<string>> := [];
    var all: seq<Prediction>, failedCount, i := [], 0, 0;
    reports, k, stop := [], 0, GoOn;
    NothingGathered(model);
    while i < |texts|
      invariant 0 <= i <= |texts| && k == |done|
      invariant AtChunk(texts, size, i, done)
      invariant Gathered(model, done, all, failedCount, reports)
      invariant forall j :: 0 <= j < k ==> seen(j) == GoOn
    {
      stop := seen(k);
      if stop != GoOn {
        LoopStops(model, texts, size, i, done, seen, stop, all, reports);
        r := if stop == TimeoutSeen then TimedOut else Finished(all, failedCount);
        return;
      }
      var end := Min(i + size, |texts|);
      StepOver(texts, size, i, end, done);
      all, failedCount, reports := Extend(model, texts[i..end], all, failedCount, reports, done);
      done := done + [texts[i..end]];
      i, k := end, k + 1;
    }
    LoopStops(model, texts, size, i, done, seen, GoOn, all, reports);
    r, stop := Finished(all, failedCount), GoOn;
  }

  /** What the loop has when it stops at index `i`, at a checkpoint or at the end. */
  lemma LoopStops(model: seq<string> -> ModelOutcome, texts: seq<string>, size: nat, i: nat, done: seq<seq<string>>,
                  seen: nat -> Checkpoint, stop: Checkpoint, all: seq<Prediction>, reports: seq<Report>)
    requires size > 0 && i <= |texts| && AtChunk(texts, size, i, done)
    requires forall j :: 0 <= j < |done| ==> seen(j) == GoOn
    requires if i < |texts| then stop == seen(|done|) != GoOn else stop == GoOn
    requires all == Predictions(model, done) && reports == Reports(model, done)
    ensures var chunks := Chunks(texts, size);
      && |done| <= |chunks| && StopsAfter(seen, |chunks|, |done|, stop)
      && all == Predictions(model, chunks[..|done|]) && reports == Reports(model, chunks[..|done|])
  {
    hide Predictions, Reports;
    if i < |texts| {
      StopHere(texts, size, i, done);
    } else {
      StopAtEnd(texts, size, done);
    }
  }

  /** The chunks `done` end at index `i`, and the remaining texts give the remaining chunks. */
  ghost predicate AtChunk(texts: seq<string>, size: nat, i: nat, done: seq<seq<string>>)
    requires size > 0 && i <= |texts|
  {
    Chunks(texts, size) == done + Chunks(texts[i..], size)
  }

  ghost predicate Gathered(model: seq<string> -> ModelOutcome, done: seq<seq<string>>, all: seq<Prediction>,
                           failedCount: nat, reports: seq<Report>)
  {
    all == Predictions(model, done) && failedCount == CountErrors(all) && reports == Reports(model, done)
  }

  lemma NothingGathered(model: seq<string> -> ModelOutcome)
    ensures Gathered(model, [], [], 0, [])
  {
  }

  /** The body of the loop for one chunk: predict, count, collect and report. */
  method Extend(model: seq<string> -> ModelOutcome, batch: seq<string>, all: seq<Prediction>, failedCount: nat,
                reports: seq<Report>, ghost done: seq<seq<string>>)
    returns (all': seq<Prediction>, failedCount': nat, reports': seq<Report>)
    requires Gathered(model, done, all, failedCount, reports)
    ensures Gathered(model, done + [batch], all', failedCount', reports')
  {
    var results := PredictAsyncBatch(model, batch);
    var failures := CountFailures(results);
    ErrorsAdd(all, results);
    OneMoreChunk(model, done, batch);
    all', failedCount' := all + results, failedCount + failures;
    reports' := reports + [Report(|all'|, failedCount')];
  }

  lemma OneMoreChunk(model: seq<string> -> ModelOutcome, done: seq<seq<string>>, chunk: seq<string>)
    ensures Predictions(model, done + [chunk]) == Predictions(model, done) + PredictAsyncBatch(model, chunk)
    ensures Reports(model, done + [chunk])
         == Reports(model, done) + [ReportOf(Predictions(model, done + [chunk]))]
  {
    assert (done + [chunk])[..|done|] == done;
  }

  lemma StopHere(texts: seq<string>, size: nat, i: nat, done: seq<seq<string>>)
    requires size > 0 && i < |texts| && AtChunk(texts, size, i, done)
    ensures |done| < |Chunks(texts, size)| && Chunks(texts, size)[..|done|] == done
  {
  }

  lemma StopAtEnd(texts: seq<string>, size: nat, done: seq<seq<string>>)
    requires size > 0 && AtChunk(texts, size, |texts|, done)
    ensures |done| == |Chunks(texts, size)| && Chunks(texts, size)[..|done|] == done
  {
  }

  lemma StepOver(texts: seq<string>, size: nat, i: nat, end: nat, done: seq<seq<string>>)
    requires size > 0 && i < |texts| && end == Min(i + size, |texts|) && AtChunk(texts, size, i, done)
    ensures AtChunk(texts, size, end, done + [texts[i..end]])
  {
    NextChunk(texts, size, i, done);
  }

  /** `sum(1 for r in batch_results if self._is_error_result(r))` */
  method CountFailures(rs: seq<Prediction>) returns (n: nat)
    ensures n == CountErrors(rs)
    ensures n == |set i | 0 <= i < |rs| && rs[i].sentiment == Some("ERROR")|
  {
    ErrorsAreCounted(rs);
    n := 0;
    for k := 0 to |rs|
      invariant n == CountErrors(rs[..k])
    {
      assert rs[..k + 1][..k] == rs[..k];
      if IsErrorResult(rs[k]) {
        n := n + 1;
      }
    }
    assert rs[..|rs|] == rs;
  }

  lemma {:induction false} ErrorsAdd(xs: seq<Prediction>, ys: seq<Prediction>)
    ensures CountErrors(xs + ys) == CountErrors(xs) + CountErrors(ys)
    decreases |ys|
  {
    if ys == [] {
      assert xs + ys == xs;
    } else {
      ErrorsAdd(xs, ys[..|ys| - 1]);
      assert (xs + ys)[..|xs + ys| - 1] == xs + ys[..|ys| - 1];
    }
  }

  // ---------------------------------------------------------------- transparency

  /** A predictor that answers every text on its own, but may raise for a whole chunk. */
  ghost predicate AnswersPointwise(model: seq<string> -> ModelOutcome, f: string -> Prediction)
  {
    forall ts :: model(ts).Raised? || model(ts) == Returned(MapTexts(f, ts))
  }

  /** The answer each text of a chunk gets: its own prediction, or an error if its chunk raised. */
  function ChunkAnswer(model: seq<string> -> ModelOutcome, f: string -> Prediction, chunk: seq<string>,
                       text: string): Prediction
  {
    if model(chunk).Raised? then ERROR_RESULT else f(text)
  }

  /**
    Results stay in text order, and a chunk that raises spoils its own texts only: position `j` of chunk `k`
    holds the answer to that text.
   */
  lemma {:induction false} FailuresStayInTheirChunk(model: seq<string> -> ModelOutcome, f: string -> Prediction,
                                                    chunks: seq<seq<string>>, k: nat, j: nat)
    requires AnswersPointwise(model, f) && k < |chunks| && j < |chunks[k]|
    ensures |Predictions(model, chunks)| == |Flatten(chunks)|
    ensures |Flatten(chunks[..k])| + j < |Flatten(chunks)|
    ensures Flatten(chunks)[|Flatten(chunks[..k])| + j] == chunks[k][j]
    ensures Predictions(model, chunks)[|Flatten(chunks[..k])| + j] == ChunkAnswer(model, f, chunks[k], chunks[k][j])
    decreases |chunks|
  {
    var init, last := chunks[..|chunks| - 1], chunks[|chunks| - 1];
    OneResultPerText(model, f, init);
    OneResultPerText(model, f, chunks);
    if k < |init| {
      FailuresStayInTheirChunk(model, f, init, k, j);
      assert init[..k] == chunks[..k];
    } else {
      assert chunks[..k] == init;
    }
  }

  lemma {:induction false} OneResultPerText(model: seq<string> -> ModelOutcome, f: string -> Prediction,
                                            chunks: seq<seq<string>>)
    requires AnswersPointwise(model, f)
    ensures |Predictions(model, chunks)| == |Flatten(chunks)|
  {
    if chunks != [] {
      OneResultPerText(model, f, chunks[..|chunks| - 1]);
    }
  }

  lemma {:induction false} PredictionsOfPointwise(model: seq<string> -> ModelOutcome, f: string -> Prediction,
                                                  chunks: seq<seq<string>>)
    requires forall ts :: model(ts) == Returned(MapTexts(f, ts))
    ensures Predictions(model, chunks) == MapTexts(f, Flatten(chunks))
  {
    if chunks != [] {
      PredictionsOfPointwise(model, f, chunks[..|chunks| - 1]);
    }
  }

  /** Chunking is transparent: the pointwise predictions in text order, for every batch size. */
  lemma ChunkingIsTransparent(model: seq<string> -> ModelOutcome, f: string -> Prediction, texts: seq<string>,
                              maxBatchSize: int)
    requires forall ts :: model(ts) == Returned(MapTexts(f, ts))
    ensures Predictions(model, Chunks(texts, ChunkSize(|texts|, maxBatchSize))) == MapTexts(f, texts)
  {
    ChunksPartition(texts, ChunkSize(|texts|, maxBatchSize));
    PredictionsOfPointwise(model, f, Chunks(texts, ChunkSize(|texts|, maxBatchSize)));
  }

  lemma {:induction false} PrefixOfFlatten<T>(xss: seq<seq<T>>, k: nat)
    requires k <= |xss|
    ensures |Flatten(xss[..k])| <= |Flatten(xss)|
  {
    FlattenConcat(xss[..k], xss[k..]);
    assert xss[..k] + xss[k..] == xss;
  }

  lemma FractionBounds(a: real, b: real, n: real)
    requires 0.0 <= a <= b <= n && n > 0.0
    ensures 0.0 <= a / n <= b / n <= 1.0 && n / n == 1.0
  {
  }

  /** Reported progress stays within [0, 1], never falls, and ends at 1 when no checkpoint stops the loop. */
  lemma ProgressIsMonotone(model: seq<string> -> ModelOutcome, f: string -> Prediction, texts: seq<string>, size: nat,
                           j: nat, k: nat)
    requires AnswersPointwise(model, f) && size > 0 && texts != []
    requires j <= k <= |Chunks(texts, size)|
    ensures var chunks := Chunks(texts, size);
      && 0.0 <= Progress(ReportOf(Predictions(model, chunks[..j])), |texts|)
             <= Progress(ReportOf(Predictions(model, chunks[..k])), |texts|) <= 1.0
      && Progress(ReportOf(Predictions(model, chunks)), |texts|) == 1.0
  {
    var chunks := Chunks(texts, size);
    ChunksPartition(texts, size);
    OneResultPerText(model, f, chunks[..j]);
    OneResultPerText(model, f, chunks[..k]);
    OneResultPerText(model, f, chunks);
    PrefixOfFlatten(chunks[..k], j);
    assert chunks[..k][..j] == chunks[..j];
    PrefixOfFlatten(chunks, k);
    FractionBounds(|Predictions(model, chunks[..j])| as real, |Predictions(model, chunks[..k])| as real,
      |texts| as real);
  }
}
