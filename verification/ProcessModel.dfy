/**
  Processing one job: the manager operations `_process_job` performs, each at its own reading of the clock,
  and what they make of the job.
 */
module ProcessModel {
  import opened Basics
  import opened Chunking
  import opened JobModel
  import opened JobBatches

  /**
    The readings of the clock in the order they are taken: the validity check (0), the start (1), the first
    look (2), a look and a time-out test for each chunk, and those after the loop.
   */
  type Clock = nat -> real

  ghost predicate NeverGoesBack(clock: Clock)
  {
    forall i: nat, j: nat :: i <= j ==> clock(i) <= clock(j)
  }

  function LookAt(k: nat): nat { 3 + 2 * k }

  function TestAt(k: nat): nat { 4 + 2 * k }

  /** After the last of `n` chunks: `completed_at`, the status check, the look before caching, the write. */
  function CompletedAt(n: nat): nat { 3 + 2 * n }

  function CheckAt(n: nat): nat { 4 + 2 * n }

  function RefreshAt(n: nat): nat { 5 + 2 * n }

  function CacheAt(n: nat): nat { 6 + 2 * n }

  /** After an exception out of chunk `k`: `failed_at`, and the status check. */
  function FailedAt(k: nat): nat { 5 + 2 * k }

  function RecheckAt(k: nat): nat { 6 + 2 * k }

  /** What becomes of each chunk: its results, or an exception that leaves the loop. */
  datatype Run = Run(answers: nat -> Option<seq<Prediction>>, error: string)

  function ChunkCount(job: Job): nat
  {
    |Chunks(job.texts, ChunkSize(|job.texts|, job.maxBatchSize))|
  }

  /** The results of the first `k` chunks. */
  function Collected(run: Run, k: nat): seq<Prediction>
  {
    if k == 0 then [] else Collected(run, k - 1) + OrElse(run.answers(k - 1), [])
  }

  /** The run in which the chunks are answered by `predict_async_batch`, which never raises. */
  function Predicted(model: seq<string> -> ModelOutcome, job: Job): Run
  {
    var chunks := Chunks(job.texts, ChunkSize(|job.texts|, job.maxBatchSize));
    Run((k: nat) => Some(if k < |chunks| then PredictAsyncBatch(model, chunks[k]) else []), "")
  }

  /** `_has_job_timed_out`, stricter than the expiry test by the exact deadline. */
  predicate HasTimedOut(job: Job, now: real)
  {
    job.timeoutSeconds > 0 && now - job.createdAt >= job.timeoutSeconds as real
  }

  const TIMED_OUT := "Job timed out during processing"

  function StartUpdate(now: real): Update { SetStatus(Processing).(startedAt := Some(now)) }

  function TimeoutUpdate(now: real): Update
  {
    SetStatus(Expired).(error := Some(TIMED_OUT), completedAt := Some(now))
  }

  function DoneUpdate(results: seq<Prediction>, now: real): Update
  {
    Update(Completed, None, Some(results), None, Some(now), Some(1.0), Some(|results|), Some(CountErrors(results)))
  }

  function ReportUpdate(report: Report, total: nat): Update
  {
    Update(Processing, None, None, None, None,
           Some(Progress(report, total)), Some(report.processedCount), Some(report.failedCount))
  }

  function CrashUpdate(error: string, now: real): Update
  {
    SetStatus(Failed).(error := Some(error), completedAt := Some(now))
  }

  /** Chunk `k` goes through: the time-out test passes and no exception leaves the loop. */
  predicate Passes(job: Job, clock: Clock, run: Run, k: nat)
  {
    !HasTimedOut(job, clock(TestAt(k))) && run.answers(k).Some?
  }

  /** From chunk `k` on, the first of `n` that does not go through, or `n`. */
  function StopFrom(job: Job, clock: Clock, run: Run, n: nat, k: nat): (stop: nat)
    requires k <= n
    ensures k <= stop <= n
    ensures forall j :: k <= j < stop ==> Passes(job, clock, run, j)
    ensures stop < n ==> !Passes(job, clock, run, stop)
    decreases n - k
  {
    if k < n && Passes(job, clock, run, k) then StopFrom(job, clock, run, n, k + 1) else k
  }

  function Stop(job: Job, clock: Clock, run: Run): nat
  {
    StopFrom(job, clock, run, ChunkCount(job), 0)
  }

  // ---------------------------------------------------------------- the operations

  function StartOps(id: string, clock: Clock): seq<Op>
  {
    [GetOp(id, clock(2)), UpdateOp(id, StartUpdate(clock(1)))]
  }

  /** The progress report after each chunk. */
  type ReportSource = nat -> Update

  function ReportsOf(run: Run, total: nat): ReportSource
  {
    (k: nat) => ReportUpdate(ReportOf(Collected(run, k + 1)), total)
  }

  predicate IsReport(u: Update) { u.status == Processing && u.results == None }

  ghost predicate AreReports(reports: ReportSource)
  {
    forall k: nat :: IsReport(reports(k))
  }

  lemma ReportsAre(run: Run, total: nat)
    ensures AreReports(ReportsOf(run, total))
  {
  }

  /** The look before chunk `k` and the report after it. */
  function ChunkPair(id: string, clock: Clock, reports: ReportSource, k: nat): seq<Op>
  {
    [GetOp(id, clock(LookAt(k))), UpdateOp(id, reports(k))]
  }

  /** Those of the first `k` chunks. */
  function ChunkOps(id: string, clock: Clock, reports: ReportSource, k: nat): seq<Op>
  {
    if k == 0 then [] else ChunkOps(id, clock, reports, k - 1) + ChunkPair(id, clock, reports, k - 1)
  }

  /** After all `n` chunks: look, complete, and look again. */
  function DoneOps(id: string, clock: Clock, run: Run, n: nat): seq<Op>
  {
    [GetOp(id, clock(CheckAt(n))),
     UpdateOp(id, DoneUpdate(Collected(run, n), clock(CompletedAt(n)))),
     GetOp(id, clock(RefreshAt(n)))]
  }

  /** When chunk `k` does not go through: its look, another in the handler, and the handler's update. */
  function StopOps(id: string, clock: Clock, k: nat, u: Update): seq<Op>
  {
    [GetOp(id, clock(LookAt(k))), GetOp(id, clock(RecheckAt(k))), UpdateOp(id, u)]
  }

  function EndOps(job: Job, id: string, clock: Clock, run: Run): seq<Op>
  {
    var n, k := ChunkCount(job), Stop(job, clock, run);
    if k == n then DoneOps(id, clock, run, n)
    else if HasTimedOut(job, clock(TestAt(k))) then StopOps(id, clock, k, TimeoutUpdate(clock(FailedAt(k))))
    else StopOps(id, clock, k, CrashUpdate(run.error, clock(FailedAt(k))))
  }

  /** `_process_job` on a job that passed the validity check. */
  function ProcessOps(job: Job, id: string, clock: Clock, run: Run): seq<Op>
  {
    StartOps(id, clock) + ChunkOps(id, clock, ReportsOf(run, |job.texts|), Stop(job, clock, run)) +
      EndOps(job, id, clock, run)
  }

  // ---------------------------------------------------------------- one job under operations

  predicate Concerns(op: Op, id: string)
  {
    (op.GetOp? || op.UpdateOp?) && op.id == id
  }

  ghost predicate ConcernAll(ops: seq<Op>, id: string)
  {
    forall k :: 0 <= k < |ops| ==> Concerns(ops[k], id)
  }

  function Looked(job: Job, now: real): Job
  {
    if IsExpired(job, now) && job.status != Expired then Expire(job, now) else job
  }

  function JobAfter(job: Job, op: Op): Job
  {
    match op
    case GetOp(_, now) => Looked(job, now)
    case UpdateOp(_, u) => Updated(job, u)
    case _ => job
  }

  function JobAfterAll(job: Job, ops: seq<Op>): Job
  {
    if ops == [] then job else JobAfter(JobAfterAll(job, ops[..|ops| - 1]), ops[|ops| - 1])
  }

  lemma JobAfterOneMore(job: Job, ops: seq<Op>, op: Op)
    ensures JobAfterAll(job, ops + [op]) == JobAfter(JobAfterAll(job, ops), op)
  {
    assert (ops + [op])[..|ops|] == ops;
  }

  lemma {:induction false} JobAfterParts(job: Job, ops: seq<Op>, more: seq<Op>)
    ensures JobAfterAll(job, ops + more) == JobAfterAll(JobAfterAll(job, ops), more)
    decreases |more|
  {
    if more == [] {
      assert ops + more == ops;
    } else {
      var init, last := more[..|more| - 1], more[|more| - 1];
      JobAfterParts(job, ops, init);
      JobAfterOneMore(job, ops + init, last);
      assert ops + more == (ops + init) + [last];
    }
  }

  lemma ApplyTouchesOne(m: Manager, id: string, op: Op)
    requires id in m.jobs && Concerns(op, id)
    ensures Apply(m, op).jobs == m.jobs[id := JobAfter(m.jobs[id], op)]
  {
  }

  /** Operations that concern one job change that job alone. */
  lemma {:induction false} ApplyAllTouchesOne(m: Manager, id: string, ops: seq<Op>)
    requires id in m.jobs && ConcernAll(ops, id)
    ensures ApplyAll(m, ops).jobs == m.jobs[id := JobAfterAll(m.jobs[id], ops)]
  {
    if ops == [] {
      assert m.jobs[id := m.jobs[id]] == m.jobs;
    } else {
      var init, last := ops[..|ops| - 1], ops[|ops| - 1];
      assert forall k :: 0 <= k < |init| ==> init[k] == ops[k];
      ApplyAllTouchesOne(m, id, init);
      ApplyTouchesOne(ApplyAll(m, init), id, last);
    }
  }

  /** Looks and progress reports only. */
  ghost predicate Looping(ops: seq<Op>)
  {
    forall k :: 0 <= k < |ops| ==> ops[k].GetOp? || (ops[k].UpdateOp? && IsReport(ops[k].update))
  }

  predicate EndsInReport(ops: seq<Op>)
  {
    ops == [] || ops[|ops| - 1].UpdateOp?
  }

  ghost predicate LooksBefore(ops: seq<Op>, job: Job)
  {
    forall k :: 0 <= k < |ops| && ops[k].GetOp? ==> !IsExpired(job, ops[k].now)
  }

  lemma {:induction false} ChunkOpsAre(job: Job, id: string, clock: Clock, reports: ReportSource, k: nat)
    requires AreReports(reports)
    ensures var ops := ChunkOps(id, clock, reports, k);
      && ConcernAll(ops, id) && Looping(ops) && EndsInReport(ops)
      && ((forall i :: 0 <= i < k ==> !IsExpired(job, clock(LookAt(i)))) ==> LooksBefore(ops, job))
  {
    if k > 0 {
      ChunkOpsAre(job, id, clock, reports, k - 1);
    }
  }

  lemma EndOpsConcern(job: Job, id: string, clock: Clock, run: Run)
    ensures ConcernAll(EndOps(job, id, clock, run), id) && ConcernAll(StartOps(id, clock), id)
  {
    hide ChunkCount, Stop, HasTimedOut, DoneUpdate, TimeoutUpdate, CrashUpdate, StartUpdate;
  }

  lemma ProcessOpsConcern(job: Job, id: string, clock: Clock, run: Run)
    ensures ConcernAll(ProcessOps(job, id, clock, run), id)
  {
    hide StartOps, EndOps, ChunkOps, Stop, ReportsOf;
    ReportsAre(run, |job.texts|);
    ChunkOpsAre(job, id, clock, ReportsOf(run, |job.texts|), Stop(job, clock, run));
    EndOpsConcern(job, id, clock, run);
  }

  // ---------------------------------------------------------------- what becomes of the job

  /** What no operation on a job changes, and its results as long as it is not done. */
  predicate SameTask(a: Job, b: Job)
  {
    && b.texts == a.texts && b.priority == a.priority && b.createdAt == a.createdAt
    && b.maxBatchSize == a.maxBatchSize && b.timeoutSeconds == a.timeoutSeconds
  }

  predicate Underway(a: Job, b: Job)
  {
    SameTask(a, b) && b.results == a.results && b.status == Processing
  }

  lemma JobAfterTwo(j: Job, a: Op, b: Op)
    ensures JobAfterAll(j, [a, b]) == JobAfter(JobAfter(j, a), b)
  {
    JobAfterOneMore(j, [], a);
    JobAfterOneMore(j, [a], b);
    assert [] + [a] == [a] && [a] + [b] == [a, b];
  }

  /** A job in the loop: underway, or found expired by a look whose report is still to come. */
  predicate InLoop(a: Job, b: Job)
  {
    SameTask(a, b) && b.results == a.results && (b.status == Processing || b.status == Expired)
  }

  lemma {:induction false} LoopKeepsJob(job: Job, j: Job, ops: seq<Op>)
    requires Underway(job, j) && Looping(ops)
    ensures InLoop(job, JobAfterAll(j, ops))
    ensures EndsInReport(ops) ==> Underway(job, JobAfterAll(j, ops))
  {
    if ops != [] {
      var init := ops[..|ops| - 1];
      assert forall k :: 0 <= k < |init| ==> init[k] == ops[k];
      LoopKeepsJob(job, j, init);
    }
  }

  lemma ChunksKeepUnderway(job: Job, j: Job, id: string, clock: Clock, run: Run, k: nat)
    requires Underway(job, j)
    ensures Underway(job, JobAfterAll(j, ChunkOps(id, clock, ReportsOf(run, |job.texts|), k)))
  {
    ReportsAre(run, |job.texts|);
    ChunkOpsAre(job, id, clock, ReportsOf(run, |job.texts|), k);
    LoopKeepsJob(job, j, ChunkOps(id, clock, ReportsOf(run, |job.texts|), k));
  }

  lemma JobAfterThree(j: Job, a: Op, b: Op, c: Op)
    ensures JobAfterAll(j, [a, b, c]) == JobAfter(JobAfter(JobAfter(j, a), b), c)
  {
    JobAfterTwo(j, a, b);
    JobAfterOneMore(j, [a, b], c);
    assert [a, b] + [c] == [a, b, c];
  }

  /** The job as `_process_job` leaves it. */
  function FinalJob(job: Job, id: string, clock: Clock, run: Run): Job
  {
    JobAfterAll(job, ProcessOps(job, id, clock, run))
  }

  /** The status in which processing leaves a job. */
  function FinalStatus(job: Job, clock: Clock, run: Run): Status
  {
    var n, k := ChunkCount(job), Stop(job, clock, run);
    if k == n then if IsExpired(job, clock(RefreshAt(n))) then Expired else Completed
    else if HasTimedOut(job, clock(TestAt(k))) then Expired
    else Failed
  }

  lemma StartedJob(job: Job, id: string, clock: Clock)
    ensures Underway(job, JobAfterAll(job, StartOps(id, clock)))
  {
    JobAfterTwo(job, GetOp(id, clock(2)), UpdateOp(id, StartUpdate(clock(1))));
  }

  /** The job when its loop ends. */
  function JobAtEnd(job: Job, id: string, clock: Clock, run: Run): Job
  {
    JobAfterAll(JobAfterAll(job, StartOps(id, clock)),
                ChunkOps(id, clock, ReportsOf(run, |job.texts|), Stop(job, clock, run)))
  }

  lemma FinalFromEnd(job: Job, id: string, clock: Clock, run: Run)
    ensures FinalJob(job, id, clock, run) == JobAfterAll(JobAtEnd(job, id, clock, run), EndOps(job, id, clock, run))
    ensures Underway(job, JobAtEnd(job, id, clock, run))
  {
    var start, chunks := StartOps(id, clock), ChunkOps(id, clock, ReportsOf(run, |job.texts|), Stop(job, clock, run));
    JobAfterParts(job, start, chunks);
    JobAfterParts(job, start + chunks, EndOps(job, id, clock, run));
    StartedJob(job, id, clock);
    ChunksKeepUnderway(job, JobAfterAll(job, start), id, clock, run, Stop(job, clock, run));
  }

  /**
    Processing ends in the status the readings determine; a job gets its results exactly if all its chunks
    went through, even when it is found expired afterwards.
   */
  lemma FinalJobIs(job: Job, id: string, clock: Clock, run: Run)
    ensures var f := FinalJob(job, id, clock, run);
      && SameTask(job, f)
      && f.status == FinalStatus(job, clock, run)
      && f.results ==
           if Stop(job, clock, run) == ChunkCount(job) then Some(Collected(run, ChunkCount(job))) else job.results
  {
    var n, k, j := ChunkCount(job), Stop(job, clock, run), JobAtEnd(job, id, clock, run);
    hide FinalJob, JobAtEnd, JobAfterAll, Stop, ChunkCount;
    FinalFromEnd(job, id, clock, run);
    if k == n {
      DoneJob(job, j, id, clock, run, n);
    } else {
      StoppedJob(job, j, id, clock, k, TimeoutUpdate(clock(FailedAt(k))));
      StoppedJob(job, j, id, clock, k, CrashUpdate(run.error, clock(FailedAt(k))));
    }
  }

  lemma DoneJob(job: Job, j: Job, id: string, clock: Clock, run: Run, n: nat)
    requires Underway(job, j)
    ensures var f := JobAfterAll(j, DoneOps(id, clock, run, n));
      && SameTask(job, f) && f.results == Some(Collected(run, n))
      && f.status == if IsExpired(job, clock(RefreshAt(n))) then Expired else Completed
  {
    JobAfterThree(j, GetOp(id, clock(CheckAt(n))), UpdateOp(id, DoneUpdate(Collected(run, n), clock(CompletedAt(n)))),
                  GetOp(id, clock(RefreshAt(n))));
  }

  lemma StoppedJob(job: Job, j: Job, id: string, clock: Clock, k: nat, u: Update)
    requires Underway(job, j) && u.results == None
    ensures var f := JobAfterAll(j, StopOps(id, clock, k, u));
      SameTask(job, f) && f.results == job.results && f.status == u.status
  {
    JobAfterThree(j, GetOp(id, clock(LookAt(k))), GetOp(id, clock(RecheckAt(k))), UpdateOp(id, u));
  }

  // ---------------------------------------------------------------- what a processed job shows

  /** The progress and the counts of `job` are those of `rs` out of `total` texts. */
  ghost predicate Shows(job: Job, rs: seq<Prediction>, total: nat)
  {
    && job.processedCount == |rs|
    && job.failedCount == |set i | 0 <= i < |rs| && rs[i].sentiment == Some("ERROR")|
    && (total > 0 ==> job.progress * (total as real) == |rs| as real)
  }

  /** Progress and counts are the same. */
  predicate ShowsSame(a: Job, b: Job)
  {
    b.progress == a.progress && b.processedCount == a.processedCount && b.failedCount == a.failedCount
  }

  lemma ReportShows(j: Job, rs: seq<Prediction>, total: nat)
    ensures Shows(Updated(j, ReportUpdate(ReportOf(rs), total)), rs, total)
  {
    ErrorsAreCounted(rs);
  }

  /** The report after chunk `k - 1`. */
  lemma PairShows(before: Job, id: string, clock: Clock, run: Run, total: nat, k: nat)
    requires k > 0
    ensures var f := JobAfterAll(before, ChunkPair(id, clock, ReportsOf(run, total), k - 1));
      f.startedAt == before.startedAt && Shows(f, Collected(run, k), total)
  {
    var look, u := GetOp(id, clock(LookAt(k - 1))), ReportUpdate(ReportOf(Collected(run, k)), total);
    assert ReportsOf(run, total)(k - 1) == u;
    hide Collected, Shows, ReportUpdate, ReportOf, JobAfterAll, ReportsOf;
    JobAfterTwo(before, look, UpdateOp(id, u));
    ReportShows(Looked(before, look.now), Collected(run, k), total);
    ReportKeepsStart(before, look.now, ReportOf(Collected(run, k)), total);
  }

  lemma ReportKeepsStart(j: Job, now: real, report: Report, total: nat)
    ensures Updated(Looked(j, now), ReportUpdate(report, total)).startedAt == j.startedAt
  {
  }

  /** After each chunk a job shows what has been collected so far. */
  lemma {:induction false} ShownAfterChunks(job: Job, j: Job, id: string, clock: Clock, run: Run, k: nat)
    ensures var f := JobAfterAll(j, ChunkOps(id, clock, ReportsOf(run, |job.texts|), k));
      && f.startedAt == j.startedAt
      && if k == 0 then f == j else Shows(f, Collected(run, k), |job.texts|)
  {
    assert JobAfterAll(j, []) == j;
    hide Collected, Shows, ChunkPair, ReportsOf, JobAfterAll;
    var reports := ReportsOf(run, |job.texts|);
    if k > 0 {
      ShownAfterChunks(job, j, id, clock, run, k - 1);
      JobAfterParts(j, ChunkOps(id, clock, reports, k - 1), ChunkPair(id, clock, reports, k - 1));
      PairShows(JobAfterAll(j, ChunkOps(id, clock, reports, k - 1)), id, clock, run, |job.texts|, k);
    }
  }

  /**
    What a processed job shows: when it was started, and the counts and the share of its texts done, as
    collected up to where its loop stopped; all of them exactly if all chunks went through.
   */
  lemma FinalShows(job: Job, id: string, clock: Clock, run: Run)
    ensures var f, k, n := FinalJob(job, id, clock, run), Stop(job, clock, run), ChunkCount(job);
      && f.startedAt == Some(clock(1))
      && (k == n ==>
            var rs := Collected(run, n);
            && f.progress == 1.0 && f.processedCount == |rs|
            && f.failedCount == |set i | 0 <= i < |rs| && rs[i].sentiment == Some("ERROR")|
            && (f.status == Completed ==> f.completedAt == Some(clock(CompletedAt(n)))))
      && (k < n ==>
            && f.completedAt == Some(clock(FailedAt(k)))
            && f.error == Some(if HasTimedOut(job, clock(TestAt(k))) then TIMED_OUT else run.error)
            && if k == 0 then ShowsSame(job, f) else Shows(f, Collected(run, k), |job.texts|))
  {
    var k, n, j := Stop(job, clock, run), ChunkCount(job), JobAtEnd(job, id, clock, run);
    ShownAtEnd(job, id, clock, run);
    hide FinalJob, JobAtEnd, JobAfterAll, Stop, ChunkCount, Collected;
    FinalFromEnd(job, id, clock, run);
    if k == n {
      DoneShows(j, id, clock, run, n);
    } else {
      StopShows(j, id, clock, k, TimeoutUpdate(clock(FailedAt(k))));
      StopShows(j, id, clock, k, CrashUpdate(run.error, clock(FailedAt(k))));
    }
  }

  lemma ShownAtEnd(job: Job, id: string, clock: Clock, run: Run)
    ensures var j, k := JobAtEnd(job, id, clock, run), Stop(job, clock, run);
      j.startedAt == Some(clock(1)) && if k == 0 then ShowsSame(job, j) else Shows(j, Collected(run, k), |job.texts|)
  {
    hide Stop, Collected, Shows, ChunkOps;
    JobAfterTwo(job, GetOp(id, clock(2)), UpdateOp(id, StartUpdate(clock(1))));
    ShownAfterChunks(job, JobAfterAll(job, StartOps(id, clock)), id, clock, run, Stop(job, clock, run));
  }

  lemma DoneShows(j: Job, id: string, clock: Clock, run: Run, n: nat)
    requires j.status == Processing
    ensures var f, rs := JobAfterAll(j, DoneOps(id, clock, run, n)), Collected(run, n);
      && f.startedAt == j.startedAt && f.progress == 1.0 && f.processedCount == |rs|
      && f.failedCount == |set i | 0 <= i < |rs| && rs[i].sentiment == Some("ERROR")|
      && (f.status == Completed ==> f.completedAt == Some(clock(CompletedAt(n))))
  {
    hide Collected;
    ErrorsAreCounted(Collected(run, n));
    JobAfterThree(j, GetOp(id, clock(CheckAt(n))), UpdateOp(id, DoneUpdate(Collected(run, n), clock(CompletedAt(n)))),
                  GetOp(id, clock(RefreshAt(n))));
  }

  lemma StopShows(j: Job, id: string, clock: Clock, k: nat, u: Update)
    requires u == TimeoutUpdate(clock(FailedAt(k))) || exists error :: u == CrashUpdate(error, clock(FailedAt(k)))
    ensures var f := JobAfterAll(j, StopOps(id, clock, k, u));
      ShowsSame(j, f) && f.startedAt == j.startedAt && f.completedAt == Some(clock(FailedAt(k))) && f.error == u.error
  {
    JobAfterThree(j, GetOp(id, clock(LookAt(k))), GetOp(id, clock(RecheckAt(k))), UpdateOp(id, u));
  }

  lemma PredictedAnswers(model: seq<string> -> ModelOutcome, job: Job, k: nat)
    requires k < ChunkCount(job)
    ensures Predicted(model, job).answers(k)
         == Some(PredictAsyncBatch(model, Chunks(job.texts, ChunkSize(|job.texts|, job.maxBatchSize))[k]))
  {
    hide Chunks, PredictAsyncBatch, ChunkSize;
  }

  /** After `k` chunks the loop has collected the predictions for those chunks. */
  lemma {:induction false} CollectedPredictions(model: seq<string> -> ModelOutcome, job: Job, k: nat)
    requires k <= ChunkCount(job)
    ensures Collected(Predicted(model, job), k)
         == Predictions(model, Chunks(job.texts, ChunkSize(|job.texts|, job.maxBatchSize))[..k])
  {
    hide Chunks, PredictAsyncBatch, ChunkSize, Predicted;
    if k > 0 {
      var chunks := Chunks(job.texts, ChunkSize(|job.texts|, job.maxBatchSize));
      CollectedPredictions(model, job, k - 1);
      PredictedAnswers(model, job, k - 1);
      assert chunks[..k][..k - 1] == chunks[..k - 1] && chunks[..k][k - 1] == chunks[k - 1];
    }
  }

  // ---------------------------------------------------------------- the allowed moves

  predicate JobAllows(job: Job, op: Op)
  {
    op.UpdateOp? ==> AllowedMove(job.status, op.update.status)
  }

  ghost predicate JobAllowsAll(job: Job, ops: seq<Op>)
  {
    forall k :: 0 <= k < |ops| ==> JobAllows(JobAfterAll(job, ops[..k]), ops[k])
  }

  lemma AllowsParts(job: Job, ops: seq<Op>, more: seq<Op>)
    requires JobAllowsAll(job, ops) && JobAllowsAll(JobAfterAll(job, ops), more)
    ensures JobAllowsAll(job, ops + more)
  {
    hide JobAfterAll, JobAllows;
    forall k | 0 <= k < |ops + more|
      ensures JobAllows(JobAfterAll(job, (ops + more)[..k]), (ops + more)[k])
    {
      if k < |ops| {
        assert (ops + more)[..k] == ops[..k];
      } else {
        JobAfterParts(job, ops, more[..k - |ops|]);
        assert (ops + more)[..k] == ops + more[..k - |ops|] && (ops + more)[k] == more[k - |ops|];
      }
    }
  }

  lemma AllowsOne(job: Job, op: Op)
    requires JobAllows(job, op)
    ensures JobAllowsAll(job, [op])
  {
  }

  /** A look, then an update allowed on a job underway, whether the look expired it or not. */
  lemma AllowsLookThenUpdate(job: Job, a: Op, b: Op)
    requires a.GetOp? && b.UpdateOp? && (job.status == Pending || job.status == Processing || job.status == Expired)
    requires AllowedMove(job.status, b.update.status) && AllowedMove(Expired, b.update.status)
    ensures JobAllowsAll(job, [a, b])
  {
    AllowsOne(job, a);
    assert [a][..0] == [];
    assert JobAfterAll(job, [a]) == JobAfter(job, a);
    AllowsOne(JobAfterAll(job, [a]), b);
    AllowsParts(job, [a], [b]);
    assert [a] + [b] == [a, b];
  }

  lemma LoopIsAllowed(job: Job, j: Job, ops: seq<Op>)
    requires Underway(job, j) && Looping(ops)
    ensures JobAllowsAll(j, ops)
  {
    forall k | 0 <= k < |ops|
      ensures JobAllows(JobAfterAll(j, ops[..k]), ops[k])
    {
      assert forall i :: 0 <= i < k ==> ops[..k][i] == ops[i];
      LoopKeepsJob(job, j, ops[..k]);
    }
  }

  lemma EndIsAllowed(job: Job, j: Job, id: string, clock: Clock, run: Run)
    requires Underway(job, j)
    ensures JobAllowsAll(j, EndOps(job, id, clock, run))
  {
    var n, k := ChunkCount(job), Stop(job, clock, run);
    if k == n {
      var a, b := GetOp(id, clock(CheckAt(n))), UpdateOp(id, DoneUpdate(Collected(run, n), clock(CompletedAt(n))));
      var c := GetOp(id, clock(RefreshAt(n)));
      AllowsLookThenUpdate(j, a, b);
      AllowsOne(JobAfterAll(j, [a, b]), c);
      AllowsParts(j, [a, b], [c]);
      assert [a, b] + [c] == DoneOps(id, clock, run, n);
    } else {
      var u := if HasTimedOut(job, clock(TestAt(k))) then TimeoutUpdate(clock(FailedAt(k)))
               else CrashUpdate(run.error, clock(FailedAt(k)));
      var a, b, c := GetOp(id, clock(LookAt(k))), GetOp(id, clock(RecheckAt(k))), UpdateOp(id, u);
      AllowsOne(j, a);
      assert [a][..0] == [];
      assert JobAfterAll(j, [a]) == JobAfter(j, a);
      AllowsLookThenUpdate(JobAfterAll(j, [a]), b, c);
      AllowsParts(j, [a], [b, c]);
      assert [a] + [b, c] == StopOps(id, clock, k, u);
    }
  }

  /** Every update of `_process_job` makes one of the allowed moves, whatever the clock does meanwhile. */
  lemma ProcessIsAllowed(job: Job, id: string, clock: Clock, run: Run)
    requires job.status == Pending
    ensures JobAllowsAll(job, ProcessOps(job, id, clock, run))
  {
    var start, chunks := StartOps(id, clock), ChunkOps(id, clock, ReportsOf(run, |job.texts|), Stop(job, clock, run));
    AllowsLookThenUpdate(job, start[0], start[1]);
    assert start == [start[0], start[1]];
    StartedJob(job, id, clock);
    ReportsAre(run, |job.texts|);
    ChunkOpsAre(job, id, clock, ReportsOf(run, |job.texts|), Stop(job, clock, run));
    LoopIsAllowed(job, JobAfterAll(job, start), chunks);
    AllowsParts(job, start, chunks);
    FinalFromEnd(job, id, clock, run);
    EndIsAllowed(job, JobAtEnd(job, id, clock, run), id, clock, run);
    JobAfterParts(job, start, chunks);
    AllowsParts(job, start + chunks, EndOps(job, id, clock, run));
  }

  /** Allowed operations on one job are a run of the manager. */
  lemma {:induction false} AllowedOpsAreRun(m: Manager, t: Tally, id: string, ops: seq<Op>) returns (t': Tally)
    requires id in m.jobs && ConcernAll(ops, id) && JobAllowsAll(m.jobs[id], ops)
    ensures IsRun(m, t, ops, ApplyAll(m, ops), t')
  {
    if ops == [] {
      t' := t;
    } else {
      var init, last := ops[..|ops| - 1], ops[|ops| - 1];
      assert forall k :: 0 <= k < |init| ==> init[k] == ops[k] && init[..k] == ops[..k];
      var u := AllowedOpsAreRun(m, t, id, init);
      ApplyAllTouchesOne(m, id, init);
      var before := ApplyAll(m, init);
      assert JobAllows(before.jobs[id], last);
      RunOfOne(before, u, last);
      RunsCompose(m, t, init, before, u, [last], Apply(before, last), Count(before, u, last));
      assert ops == init + [last];
      t' := Count(before, u, last);
    }
  }

  // ---------------------------------------------------------------- the deadline

  /** The exception of the run, if one leaves the loop, comes out of chunk `q`; `q == n` stands for none. */
  ghost predicate CrashesAt(run: Run, n: nat, q: nat)
  {
    q <= n && (forall j :: 0 <= j < q ==> run.answers(j).Some?) && (q < n ==> run.answers(q).None?)
  }

  /** Where the loop stops under a clock that never goes back: only the test of the last chunk it could reach counts. */
  lemma StopByDeadline(job: Job, clock: Clock, run: Run, q: nat)
    requires NeverGoesBack(clock) && ChunkCount(job) > 0 && CrashesAt(run, ChunkCount(job), q)
    ensures var n, k := ChunkCount(job), Stop(job, clock, run);
      && (q < n ==> k < n && (HasTimedOut(job, clock(TestAt(k))) <==> HasTimedOut(job, clock(TestAt(q)))))
      && (q == n ==> (k == n <==> !HasTimedOut(job, clock(TestAt(n - 1)))))
      && (q == n && k < n ==> HasTimedOut(job, clock(TestAt(k))))
  {
    var n, k := ChunkCount(job), Stop(job, clock, run);
    assert q < k ==> Passes(job, clock, run, q);
    if k < n {
      var last := if q < n then q else n - 1;
      assert k <= last;
      assert clock(TestAt(k)) <= clock(TestAt(last));
    } else {
      assert Passes(job, clock, run, n - 1);
    }
  }

  /** Processing leaves a job expired exactly if its deadline has passed by the last test or the last look. */
  lemma ExpiredByDeadline(job: Job, clock: Clock, run: Run, q: nat)
    requires NeverGoesBack(clock) && ChunkCount(job) > 0 && CrashesAt(run, ChunkCount(job), q)
    ensures var n := ChunkCount(job);
      FinalStatus(job, clock, run) == Expired <==>
        if q < n then HasTimedOut(job, clock(TestAt(q)))
        else HasTimedOut(job, clock(TestAt(n - 1))) || IsExpired(job, clock(RefreshAt(n)))
  {
    StopByDeadline(job, clock, run, q);
  }

  // ---------------------------------------------------------------- how often a job leaves the active ones

  /** By how much an operation lowers `active_jobs`. */
  function Drop(job: Job, op: Op): nat
  {
    match op
    case GetOp(_, now) => One(IsExpired(job, now) && (job.status == Pending || job.status == Processing))
    case UpdateOp(_, u) =>
      One(((u.status == Completed || u.status == Failed) && job.status != Cancelled) ||
          (u.status == Cancelled && job.status == Pending))
    case _ => 0
  }

  function DropAll(job: Job, ops: seq<Op>): nat
  {
    if ops == [] then 0 else
    DropAll(job, ops[..|ops| - 1]) + Drop(JobAfterAll(job, ops[..|ops| - 1]), ops[|ops| - 1])
  }

  lemma DropOneMore(job: Job, ops: seq<Op>, op: Op)
    ensures DropAll(job, ops + [op]) == DropAll(job, ops) + Drop(JobAfterAll(job, ops), op)
  {
    assert (ops + [op])[..|ops|] == ops;
  }

  lemma {:induction false} DropParts(job: Job, ops: seq<Op>, more: seq<Op>)
    ensures DropAll(job, ops + more) == DropAll(job, ops) + DropAll(JobAfterAll(job, ops), more)
    decreases |more|
  {
    if more == [] {
      assert ops + more == ops;
    } else {
      var init, last := more[..|more| - 1], more[|more| - 1];
      DropParts(job, ops, init);
      JobAfterParts(job, ops, init);
      DropOneMore(job, ops + init, last);
      assert ops + more == (ops + init) + [last];
    }
  }

  lemma DropTwo(j: Job, a: Op, b: Op)
    ensures DropAll(j, [a, b]) == Drop(j, a) + Drop(JobAfter(j, a), b)
  {
    DropOneMore(j, [], a);
    DropOneMore(j, [a], b);
    JobAfterOneMore(j, [], a);
    assert [] + [a] == [a] && [a] + [b] == [a, b];
  }

  lemma DropThree(j: Job, a: Op, b: Op, c: Op)
    ensures DropAll(j, [a, b, c]) == Drop(j, a) + Drop(JobAfter(j, a), b) + Drop(JobAfter(JobAfter(j, a), b), c)
  {
    DropTwo(j, a, b);
    DropOneMore(j, [a, b], c);
    JobAfterTwo(j, a, b);
    assert [a, b] + [c] == [a, b, c];
  }

  lemma ApplyDrops(m: Manager, id: string, op: Op)
    requires id in m.jobs && Concerns(op, id)
    ensures Apply(m, op).activeJobs == m.activeJobs - Drop(m.jobs[id], op)
  {
  }

  lemma {:induction false} ApplyAllDrops(m: Manager, id: string, ops: seq<Op>)
    requires id in m.jobs && ConcernAll(ops, id)
    ensures ApplyAll(m, ops).activeJobs == m.activeJobs - DropAll(m.jobs[id], ops)
  {
    if ops != [] {
      var init, last := ops[..|ops| - 1], ops[|ops| - 1];
      assert forall k :: 0 <= k < |init| ==> init[k] == ops[k];
      ApplyAllDrops(m, id, init);
      ApplyAllTouchesOne(m, id, init);
      ApplyDrops(ApplyAll(m, init), id, last);
    }
  }

  lemma StartDrops(job: Job, id: string, clock: Clock)
    requires job.status == Pending
    ensures DropAll(job, StartOps(id, clock)) == One(IsExpired(job, clock(2)))
  {
    DropTwo(job, GetOp(id, clock(2)), UpdateOp(id, StartUpdate(clock(1))));
  }

  /** A loop whose looks come before the deadline leaves the job active. */
  lemma {:induction false} LoopDropsNothing(job: Job, j: Job, ops: seq<Op>)
    requires Underway(job, j) && Looping(ops) && LooksBefore(ops, job)
    ensures DropAll(j, ops) == 0 && Underway(job, JobAfterAll(j, ops))
  {
    if ops != [] {
      var init := ops[..|ops| - 1];
      assert forall k :: 0 <= k < |init| ==> init[k] == ops[k];
      LoopDropsNothing(job, j, init);
    }
  }

  /** How often the end of processing lowers `active_jobs`. */
  function EndDrop(job: Job, clock: Clock, run: Run): nat
  {
    var n, k := ChunkCount(job), Stop(job, clock, run);
    if k == n then One(IsExpired(job, clock(CheckAt(n)))) + 1
    else One(IsExpired(job, clock(RecheckAt(k)))) + (if HasTimedOut(job, clock(TestAt(k))) then 0 else 1)
  }

  lemma DoneDrops(job: Job, j: Job, id: string, clock: Clock, run: Run, n: nat)
    requires Underway(job, j)
    ensures DropAll(j, DoneOps(id, clock, run, n)) == One(IsExpired(job, clock(CheckAt(n)))) + 1
  {
    DropThree(j, GetOp(id, clock(CheckAt(n))), UpdateOp(id, DoneUpdate(Collected(run, n), clock(CompletedAt(n)))),
              GetOp(id, clock(RefreshAt(n))));
  }

  lemma StopDrops(job: Job, j: Job, id: string, clock: Clock, k: nat, u: Update)
    requires Underway(job, j) && clock(LookAt(k)) <= clock(RecheckAt(k)) && (u.status == Expired || u.status == Failed)
    ensures DropAll(j, StopOps(id, clock, k, u)) == One(IsExpired(job, clock(RecheckAt(k)))) + One(u.status == Failed)
  {
    DropThree(j, GetOp(id, clock(LookAt(k))), GetOp(id, clock(RecheckAt(k))), UpdateOp(id, u));
  }

  lemma EndDrops(job: Job, j: Job, id: string, clock: Clock, run: Run)
    requires NeverGoesBack(clock) && Underway(job, j)
    ensures DropAll(j, EndOps(job, id, clock, run)) == EndDrop(job, clock, run)
  {
    var n, k := ChunkCount(job), Stop(job, clock, run);
    if k == n {
      DoneDrops(job, j, id, clock, run, n);
    } else {
      assert clock(LookAt(k)) <= clock(RecheckAt(k));
      StopDrops(job, j, id, clock, k, TimeoutUpdate(clock(FailedAt(k))));
      StopDrops(job, j, id, clock, k, CrashUpdate(run.error, clock(FailedAt(k))));
    }
  }

  /**
    Processing lowers `active_jobs` once for a first look after the deadline, and at its end once or, when the
    job is found expired and then completed or failed all the same, twice, or not at all.
   */
  lemma ProcessDrops(job: Job, id: string, clock: Clock, run: Run)
    requires NeverGoesBack(clock) && job.status == Pending && job.timeoutSeconds >= 1
    ensures DropAll(job, ProcessOps(job, id, clock, run)) == One(IsExpired(job, clock(2))) + EndDrop(job, clock, run)
  {
    var k := Stop(job, clock, run);
    var start, chunks := StartOps(id, clock), ChunkOps(id, clock, ReportsOf(run, |job.texts|), k);
    StartDrops(job, id, clock);
    StartedJob(job, id, clock);
    forall i | 0 <= i < k
      ensures !IsExpired(job, clock(LookAt(i)))
    {
      assert Passes(job, clock, run, i) && clock(LookAt(i)) <= clock(TestAt(i));
    }
    ReportsAre(run, |job.texts|);
    ChunkOpsAre(job, id, clock, ReportsOf(run, |job.texts|), k);
    LoopDropsNothing(job, JobAfterAll(job, start), chunks);
    DropParts(job, start, chunks);
    DropParts(job, start + chunks, EndOps(job, id, clock, run));
    JobAfterParts(job, start, chunks);
    FinalFromEnd(job, id, clock, run);
    EndDrops(job, JobAtEnd(job, id, clock, run), id, clock, run);
  }
}
