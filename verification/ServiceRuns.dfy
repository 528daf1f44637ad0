/** Runs of the batch service in which its counters part from its jobs. */
module ServiceRuns {
  import opened Basics
  import opened Chunking
  import opened JobModel
  import opened CacheModel
  import opened JobBatches
  import opened ProcessModel
  import opened ServiceModel
  import opened ServiceTheorems

  const SAMPLE_JOB: Job := NewJob(["t"], High, 1, 10, 0.0)

  /** A job of one text, with ten seconds to live, is submitted and taken by its worker. */
  lemma HeldRun(cfg: Config) returns (steps: seq<Step>, s: System)
    ensures Reaches(cfg, INIT, steps, s)
    ensures s.mgr == Store(NO_JOBS, "j", SAMPLE_JOB) && High in s.lanes && s.lanes[High].hand == Some("j")
    ensures s.cache == EMPTY_CACHE
  {
    var submit := Submit("j", ["t"], High, Some(1), Some(10), 0.0);
    steps, s := [], INIT;
    assert Reaches(cfg, INIT, steps, s);
    assert ["t"][..0] == [] && Sanitize(["t"]) == ["t"];
    ReachesExtends(cfg, INIT, steps, s, submit);
    steps, s := steps + [submit], Next(cfg, s, submit);
    assert s.lanes[High].queue == ["j"];
    ReachesExtends(cfg, INIT, steps, s, Dequeue(High));
    steps, s := steps + [Dequeue(High)], Next(cfg, s, Dequeue(High));
  }

  lemma SampleChunks()
    ensures ChunkCount(SAMPLE_JOB) == 1
  {
    assert Rest(["t"], 1) == [];
  }

  /** The predictor of the runs below gives one result and never raises. */
  function SampleRun(): Run { Run((k: nat) => Some([ERROR_RESULT]), "") }

  /** The job is then processed under a clock that lets it pass the validity check. */
  lemma ProcessedRun(cfg: Config, clock: Clock) returns (steps: seq<Step>, t: System)
    requires NeverGoesBack(clock) && clock(0) <= 10.0
    ensures Reaches(cfg, INIT, steps, t)
    ensures var m := Store(NO_JOBS, "j", SAMPLE_JOB);
      && t.mgr == ApplyAll(m, ProcessOps(SAMPLE_JOB, "j", clock, SampleRun()))
      && t.mgr.jobs == m.jobs["j" := FinalJob(SAMPLE_JOB, "j", clock, SampleRun())]
      && t.mgr.activeJobs == 1 - One(clock(2) > 10.0) - EndDrop(SAMPLE_JOB, clock, SampleRun())
    ensures FinalStatus(SAMPLE_JOB, clock, SampleRun()) == Completed ==>
      var n := ChunkCount(SAMPLE_JOB);
      t.cache == Write(EMPTY_CACHE, "j", Collected(SampleRun(), n), clock(CacheAt(n)), cfg.ttl, cfg.maxCacheSize)
  {
    var before, s := HeldRun(cfg);
    var step := Process(High, clock, SampleRun());
    ReachesExtends(cfg, INIT, before, s, step);
    ActiveAfterProcess(cfg, before, s, High, clock, SampleRun());
    ProcessedJobs(cfg, s, High, clock, SampleRun());
    steps, t := before + [step], Next(cfg, s, step);
  }

  /**
    The clock stands on the deadline throughout: the job is found valid and then expired by its time-out
    test, and `active_jobs` goes on counting it.
   */
  lemma ExpiredOnTheDeadline(cfg: Config)
    ensures exists steps, s ::
      && Reaches(cfg, INIT, steps, s)
      && s.mgr.activeJobs == 1 && s.mgr.jobs.Keys == {"j"} && s.mgr.jobs["j"].status == Expired
  {
    hide Reaches, FinalJob, ProcessOps, ApplyAll, Stop, ChunkCount, Collected, EndDrop;
    var steps, s := ProcessedRun(cfg, DeadlineClock());
    SampleChunks();
    DeadlineStop();
    assert Reaches(cfg, INIT, steps, s);
  }

  function DeadlineClock(): Clock { (_: nat) => 10.0 }

  lemma DeadlineStop()
    requires ChunkCount(SAMPLE_JOB) == 1
    ensures FinalJob(SAMPLE_JOB, "j", DeadlineClock(), SampleRun()).status == Expired
    ensures EndDrop(SAMPLE_JOB, DeadlineClock(), SampleRun()) == 0
  {
    hide FinalJob, Collected, ChunkCount;
    assert !Passes(SAMPLE_JOB, DeadlineClock(), SampleRun(), 0);
    assert Stop(SAMPLE_JOB, DeadlineClock(), SampleRun()) == 0;
    FinalJobIs(SAMPLE_JOB, "j", DeadlineClock(), SampleRun());
  }

  /** Between `early` and `late` the answer for the job's results is withdrawn, although nothing happened. */
  ghost predicate Withdrawn(cfg: Config, s: System, early: real, late: real)
  {
    && "j" in s.mgr.jobs && s.mgr.jobs["j"].results.Some?
    && (cfg.ttl > late ==> Lookup(s.cache, "j", late, cfg.ttl).Some?)
    && AnswerAt(cfg, s, "j", Moment(early, early, early), 1, 10).Some?
    && AnswerAt(cfg, s, "j", Moment(late, late, late), 1, 10).None?
  }

  lemma CachedAtFive(cfg: Config, results: seq<Prediction>)
    ensures cfg.ttl > 20.0 ==>
      Lookup(Write(EMPTY_CACHE, "j", results, 5.0, cfg.ttl, cfg.maxCacheSize), "j", 20.0, cfg.ttl).Some?
  {
  }

  /** A job completed in time is readable at its fifth second and no longer at its twentieth. */
  lemma ReadableUntilTheDeadline(cfg: Config)
    ensures exists steps, s :: Reaches(cfg, INIT, steps, s) && Withdrawn(cfg, s, 5.0, 20.0)
  {
    var clock: Clock := (_: nat) => 5.0;
    var steps, s := ProcessedRun(cfg, clock);
    SampleChunks();
    assert Passes(SAMPLE_JOB, clock, SampleRun(), 0);
    assert Stop(SAMPLE_JOB, clock, SampleRun()) == 1;
    FinalJobIs(SAMPLE_JOB, "j", clock, SampleRun());
    hide Write, Reaches, Answer, Stop, ChunkCount;
    CachedAtFive(cfg, Collected(SampleRun(), 1));
    AnsweredUntilTheDeadline(cfg, steps, s, "j", Moment(5.0, 5.0, 5.0), 1, 10);
    AnsweredUntilTheDeadline(cfg, steps, s, "j", Moment(20.0, 20.0, 20.0), 1, 10);
    assert Withdrawn(cfg, s, 5.0, 20.0);
  }

  /** Before the deadline up to the time-out test of the first chunk, after it from then on. */
  function LateClock(): Clock { (i: nat) => if i <= 5 then 5.0 else 20.0 }

  /**
    The deadline passes during the prediction: the job is expired, completed all the same, and expired again.
    One job then counts as two failed and one completed, and `active_jobs` is below zero.
   */
  lemma CompletedAfterExpiring(cfg: Config)
    ensures exists steps, s ::
      && Reaches(cfg, INIT, steps, s)
      && s.mgr.activeJobs == -1 && s.mgr.failedJobs == 2 && s.mgr.completedJobs == 1
      && s.mgr.jobs.Keys == {"j"} && s.mgr.jobs["j"].status == Expired && s.mgr.jobs["j"].results.Some?
  {
    hide Reaches, FinalJob, ProcessOps, ApplyAll, Stop, ChunkCount, Collected, EndDrop;
    var steps, s := ProcessedRun(cfg, LateClock());
    LateStop();
    LateJob();
    LateCounters();
    LateDrop();
    assert Reaches(cfg, INIT, steps, s);
  }

  lemma LateDrop()
    requires Stop(SAMPLE_JOB, LateClock(), SampleRun()) == ChunkCount(SAMPLE_JOB) == 1
    ensures EndDrop(SAMPLE_JOB, LateClock(), SampleRun()) == 2 && LateClock()(2) <= 10.0
  {
    hide Stop, ChunkCount;
  }

  lemma LateJob()
    requires Stop(SAMPLE_JOB, LateClock(), SampleRun()) == ChunkCount(SAMPLE_JOB) == 1
    ensures var job := FinalJob(SAMPLE_JOB, "j", LateClock(), SampleRun());
      job.status == Expired && job.results.Some?
  {
    hide FinalJob, Stop, ChunkCount, Collected;
    FinalJobIs(SAMPLE_JOB, "j", LateClock(), SampleRun());
  }

  lemma LateStop()
    ensures Stop(SAMPLE_JOB, LateClock(), SampleRun()) == ChunkCount(SAMPLE_JOB) == 1
  {
    SampleChunks();
    assert Passes(SAMPLE_JOB, LateClock(), SampleRun(), 0);
  }

  /** The sample job's status and the two counters. */
  predicate Shows(m: Manager, status: Status, failed: int, completed: int)
  {
    && "j" in m.jobs && m.jobs["j"].status == status
    && m.jobs["j"].createdAt == 0.0 && m.jobs["j"].timeoutSeconds == 10
    && m.failedJobs == failed && m.completedJobs == completed
  }

  lemma LookEarly(m: Manager, status: Status, failed: int, completed: int)
    requires Shows(m, status, failed, completed)
    ensures Apply(m, GetOp("j", 5.0)) == m
  {
  }

  lemma LookLate(m: Manager, status: Status, failed: int, completed: int)
    requires Shows(m, status, failed, completed) && status != Expired
    ensures Shows(Apply(m, GetOp("j", 20.0)), Expired, failed + 1, completed)
  {
  }

  lemma Proceed(m: Manager, status: Status, failed: int, completed: int, u: Update)
    requires Shows(m, status, failed, completed) && status != Cancelled
    requires u.status == Processing || u.status == Completed
    ensures Shows(Apply(m, UpdateOp("j", u)), u.status, failed, completed + (if u.status == Completed then 1 else 0))
  {
  }

  /** An early look, and an update that goes on. */
  ghost predicate EarlyPair(ops: seq<Op>)
  {
    && |ops| == 2 && ops[0] == GetOp("j", 5.0)
    && ops[1].UpdateOp? && ops[1].id == "j" && ops[1].update.status == Processing
  }

  /** A late look, the completion, and another late look. */
  ghost predicate LateTriple(ops: seq<Op>)
  {
    && |ops| == 3 && ops[0] == ops[2] == GetOp("j", 20.0)
    && ops[1].UpdateOp? && ops[1].id == "j" && ops[1].update.status == Completed
  }

  lemma EarlyPart(m: Manager, ops: seq<Op>)
    requires (Shows(m, Pending, 0, 0) || Shows(m, Processing, 0, 0)) && EarlyPair(ops)
    ensures Shows(ApplyAll(m, ops), Processing, 0, 0)
  {
    assert ops == [ops[0], ops[1]];
    ApplyTwo(m, ops[0], ops[1]);
    LookEarly(m, m.jobs["j"].status, 0, 0);
    Proceed(m, m.jobs["j"].status, 0, 0, ops[1].update);
  }

  lemma LatePart(m: Manager, ops: seq<Op>)
    requires Shows(m, Processing, 0, 0) && LateTriple(ops)
    ensures Shows(ApplyAll(m, ops), Expired, 2, 1)
  {
    assert ops == [ops[0], ops[1], ops[2]];
    ApplyThree(m, ops[0], ops[1], ops[2]);
    LookLate(m, Processing, 0, 0);
    Proceed(Apply(m, ops[0]), Expired, 1, 0, ops[1].update);
    LookLate(Apply(Apply(m, ops[0]), ops[1]), Completed, 1, 1);
  }

  lemma AllParts(m: Manager, start: seq<Op>, chunk: seq<Op>, done: seq<Op>)
    requires Shows(m, Pending, 0, 0) && EarlyPair(start) && EarlyPair(chunk) && LateTriple(done)
    ensures Shows(ApplyAll(m, start + chunk + done), Expired, 2, 1)
  {
    EarlyPart(m, start);
    EarlyPart(ApplyAll(m, start), chunk);
    LatePart(ApplyAll(ApplyAll(m, start), chunk), done);
    ApplyInParts(m, start, chunk);
    ApplyInParts(m, start + chunk, done);
  }

  lemma LateOps() returns (start: seq<Op>, chunk: seq<Op>, done: seq<Op>)
    requires Stop(SAMPLE_JOB, LateClock(), SampleRun()) == ChunkCount(SAMPLE_JOB) == 1
    ensures ProcessOps(SAMPLE_JOB, "j", LateClock(), SampleRun()) == start + chunk + done
    ensures EarlyPair(start) && EarlyPair(chunk) && LateTriple(done)
  {
    var clock, run := LateClock(), SampleRun();
    var reports := ReportsOf(run, 1);
    ReportsAre(run, 1);
    start, chunk, done := StartOps("j", clock), ChunkPair("j", clock, reports, 0), DoneOps("j", clock, run, 1);
    assert ChunkOps("j", clock, reports, 1) == [] + chunk == chunk;
  }

  /** The counters of that run, through the seven operations on its job. */
  lemma LateCounters()
    requires Stop(SAMPLE_JOB, LateClock(), SampleRun()) == ChunkCount(SAMPLE_JOB) == 1
    ensures var ops := ProcessOps(SAMPLE_JOB, "j", LateClock(), SampleRun());
      Shows(ApplyAll(Store(NO_JOBS, "j", SAMPLE_JOB), ops), Expired, 2, 1)
  {
    var start, chunk, done := LateOps();
    AllParts(Store(NO_JOBS, "j", SAMPLE_JOB), start, chunk, done);
  }
}
