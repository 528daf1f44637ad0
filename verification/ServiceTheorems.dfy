/** What holds in every reachable state, and between any two states of a run, of the batch service. */
module ServiceTheorems {
  import opened Basics
  import opened Text
  import opened JobModel
  import opened CacheModel
  import opened Chunking
  import opened JobBatches
  import opened ProcessModel
  import opened ResultPages
  import opened ServiceModel

  lemma InitIsOk(cfg: Config)
    ensures Inv(cfg, INIT)
  {
    assert forall p :: p in INIT.lanes ==> LaneOk(cfg, p, INIT.lanes[p], INIT.mgr.jobs);
  }

  lemma InitKeepsInv(cfg: Config, steps: seq<Step>, s: System)
    requires Reaches(cfg, INIT, steps, s)
    ensures Inv(cfg, s)
  {
    hide Inv;
    InitIsOk(cfg);
    RunKeepsInv(cfg, INIT, steps, s);
  }

  // ---------------------------------------------------------------- the cache

  /** Looking at a job again never completes it. */
  lemma LooksDoNotComplete(m: Manager, id: string, again: real, page: int, size: int)
    requires !IsCompleted(m, id)
    ensures AnswerFrom(Get(m, id, again), id, page, size) == AnswerFrom(m, id, page, size)
  {
  }

  lemma InvisibleIn(cfg: Config, s: System, id: string, asked: real, now: real, again: real, page: int, size: int)
    requires Inv(cfg, s)
    ensures Answer(cfg, s, id, asked, now, again, page, size) == AnswerFromJob(s, id, now, page, size)
  {
    hide LanesOk, JobsOk, Paginate;
    var m := Get(s.mgr, id, now);
    if !IsCompleted(m, id) {
      LooksDoNotComplete(m, id, again, page, size);
    }
  }

  /**
    Clients cannot tell whether an answer came from the cache, whatever the clock reads when the cache is
    asked and at each look at the job.
   */
  lemma CacheIsInvisible(cfg: Config, steps: seq<Step>, s: System, id: string, asked: real, now: real, again: real,
                         page: int, size: int)
    requires Reaches(cfg, INIT, steps, s)
    ensures Answer(cfg, s, id, asked, now, again, page, size) == AnswerFromJob(s, id, now, page, size)
  {
    InitKeepsInv(cfg, steps, s);
    InvisibleIn(cfg, s, id, asked, now, again, page, size);
  }

  /** What no step changes about a job: its texts, its priority, and its results once it has some. */
  predicate SameJob(a: Job, b: Job)
  {
    b.texts == a.texts && b.priority == a.priority && (a.results.Some? ==> b.results == a.results)
  }

  ghost predicate KeepsJobs(m: Manager, m': Manager)
  {
    forall id :: id in m.jobs ==> id in m'.jobs && SameJob(m.jobs[id], m'.jobs[id])
  }

  lemma ReplaceKeepsJobs(m: Manager, id: string, m': Manager, job: Job)
    requires m'.jobs == m.jobs[id := job] && (id in m.jobs ==> SameJob(m.jobs[id], job))
    ensures KeepsJobs(m, m')
  {
  }

  lemma ClosingKeepsJobs(m: Manager, m': Manager)
    requires OnlyCloses(m, m')
    ensures KeepsJobs(m, m')
  {
  }

  lemma ProcessKeepsJobs(cfg: Config, s: System, p: Priority, clock: Clock, run: Run)
    requires Inv(cfg, s) && Enabled(s, Process(p, clock, run))
    ensures KeepsJobs(s.mgr, Next(cfg, s, Process(p, clock, run)).mgr)
  {
    var id := s.lanes[p].hand.value;
    HeldJob(cfg, s, p);
    ProcessedJobs(cfg, s, p, clock, run);
    LookedAtIs(s.mgr.jobs[id], id, clock, run);
    ReplaceKeepsJobs(s.mgr, id, Next(cfg, s, Process(p, clock, run)).mgr, LookedAt(s.mgr.jobs[id], id, clock, run));
  }

  lemma SubmitKeepsOthers(cfg: Config, s: System, submit: Step)
    requires submit.Submit? && Enabled(s, submit)
    ensures KeepsJobs(s.mgr, Next(cfg, s, submit).mgr)
  {
    if Sanitize(submit.texts) != [] {
      SubmittedJob(cfg, s, submit.id, SubmittedAs(cfg, submit));
    }
  }

  /** The job a submission creates. */
  function SubmittedAs(cfg: Config, submit: Step): Job
    requires submit.Submit?
  {
    NewJob(Sanitize(submit.texts), submit.priority, AtLeastOne(submit.maxBatchSize, cfg.defaultBatchSize),
           AtLeastOne(submit.timeout, cfg.defaultTimeout), submit.now)
  }

  /** The steps that at most close jobs: reads, cancellations, sweeps, and clearing the cache. */
  predicate Closing(step: Step)
  {
    !step.Submit? && !step.Dequeue? && !step.Process?
  }

  lemma ClosingStepCloses(cfg: Config, s: System, step: Step)
    requires Closing(step) && Enabled(s, step)
    ensures OnlyCloses(s.mgr, Next(cfg, s, step).mgr) && Next(cfg, s, step).lanes == s.lanes
  {
    match step {
      case ReadStatus(id, now) => ClosingSteps(s.mgr, id, now);
      case ReadResults(id, asked, now, again) =>
        ReadCloses(s.mgr, id, Lookup(s.cache, id, asked, cfg.ttl).Some?, now, again);
      case CancelJob(id, now) => ClosingSteps(s.mgr, id, now);
      case SweepJobs(jobClock) => ClosingMany(s.mgr, jobClock);
      case ReadCounters => ClosingOne(s.mgr, "", ReadMetrics(s.mgr, TotalQueued(s)));
      case ClearCache => ClosingOne(s.mgr, "", s.mgr);
    }
  }

  lemma StepKeepsJobs(cfg: Config, s: System, step: Step)
    requires Inv(cfg, s) && Enabled(s, step)
    ensures KeepsJobs(s.mgr, Next(cfg, s, step).mgr)
  {
    if step.Submit? {
      SubmitKeepsOthers(cfg, s, step);
    } else if step.Process? {
      ProcessKeepsJobs(cfg, s, step.priority, step.clock, step.run);
    } else if Closing(step) {
      ClosingStepCloses(cfg, s, step);
      ClosingKeepsJobs(s.mgr, Next(cfg, s, step).mgr);
    }
  }

  /** A job's texts and priority are fixed, and its results are written at most once. */
  lemma {:induction false} ResultsNeverChange(cfg: Config, s: System, steps: seq<Step>, t: System, id: string)
    requires Inv(cfg, s) && Reaches(cfg, s, steps, t) && id in s.mgr.jobs
    ensures id in t.mgr.jobs && SameJob(s.mgr.jobs[id], t.mgr.jobs[id])
    decreases |steps|
  {
    if steps != [] {
      StepKeepsInv(cfg, s, steps[0]);
      StepKeepsJobs(cfg, s, steps[0]);
      ResultsNeverChange(cfg, Next(cfg, s, steps[0]), steps[1..], t, id);
    }
  }

  lemma AnsweredJob(s: System, id: string, now: real, page: int, size: int)
    requires AnswerFromJob(s, id, now, page, size).Some?
    ensures id in s.mgr.jobs && s.mgr.jobs[id].results.Some?
    ensures AnswerFromJob(s, id, now, page, size) == Some(Paginate(s.mgr.jobs[id].results.value, page, size))
  {
  }

  /** When a client asks: the readings of the clock for the cache and for up to two looks at the job. */
  datatype Moment = Moment(asked: real, now: real, again: real)

  function AnswerAt(cfg: Config, s: System, id: string, at: Moment, page: int, size: int): Option<Page>
  {
    Answer(cfg, s, id, at.asked, at.now, at.again, page, size)
  }

  /** Two answers a client gets for the same page, however far apart, are the same page. */
  lemma AnswersAgree(cfg: Config, before: seq<Step>, s: System, after: seq<Step>, t: System,
                     id: string, early: Moment, late: Moment, page: int, size: int)
    requires Reaches(cfg, INIT, before, s) && Reaches(cfg, s, after, t)
    requires AnswerAt(cfg, s, id, early, page, size).Some? && AnswerAt(cfg, t, id, late, page, size).Some?
    ensures AnswerAt(cfg, s, id, early, page, size) == AnswerAt(cfg, t, id, late, page, size)
  {
    hide Answer, AnswerFromJob, Paginate, Inv;
    InitKeepsInv(cfg, before, s);
    RunKeepsInv(cfg, s, after, t);
    InvisibleIn(cfg, s, id, early.asked, early.now, early.again, page, size);
    InvisibleIn(cfg, t, id, late.asked, late.now, late.again, page, size);
    AnsweredJob(s, id, early.now, page, size);
    AnsweredJob(t, id, late.now, page, size);
    ResultsNeverChange(cfg, s, after, t, id);
  }

  // ---------------------------------------------------------------- until when clients can read

  /**
    In every reachable state a client is given a page exactly if the job is completed and the client's look
    at it comes no later than its deadline, even if its results are cached.
   */
  lemma AnsweredUntilTheDeadline(cfg: Config, steps: seq<Step>, s: System, id: string, at: Moment, page: int, size: int)
    requires Reaches(cfg, INIT, steps, s)
    ensures AnswerAt(cfg, s, id, at, page, size).Some? <==>
      IsCompleted(s.mgr, id) && at.now <= Deadline(s.mgr.jobs[id])
  {
    hide Answer, Paginate, LanesOk, CacheOk;
    InitKeepsInv(cfg, steps, s);
    InvisibleIn(cfg, s, id, at.asked, at.now, at.again, page, size);
    if id in s.mgr.jobs {
      assert JobOk(s, id);
    }
  }

  /**
    Reading a job's status or its results expires it exactly if the first look comes after its deadline, or a
    second one does, which is taken of a job not completed on a hit; no other job changes.
   */
  lemma ReadsExpire(cfg: Config, s: System, id: string, at: Moment)
    requires id in s.mgr.jobs
    ensures var job, m := s.mgr.jobs[id], Next(cfg, s, ReadStatus(id, at.now)).mgr;
      OthersKept(s.mgr, m, id) &&
      if at.now > Deadline(job) && job.status != Expired then ExpiredAt(job, m.jobs[id], at.now) else m.jobs[id] == job
    ensures var job, m := s.mgr.jobs[id], Next(cfg, s, ReadResults(id, at.asked, at.now, at.again)).mgr;
      var twice := Lookup(s.cache, id, at.asked, cfg.ttl).Some? && job.status != Completed && at.again > Deadline(job);
      OthersKept(s.mgr, m, id) &&
      if job.status == Expired then m.jobs[id] == job
      else if at.now > Deadline(job) then ExpiredAt(job, m.jobs[id], at.now)
      else if twice then ExpiredAt(job, m.jobs[id], at.again)
      else m.jobs[id] == job
  {
    LookExpires(s.mgr, id, at.now);
    LookExpires(Get(s.mgr, id, at.now), id, at.again);
  }

  /** A job whose results are stored although it was expired. */
  predicate Withheld(m: Manager, id: string)
  {
    id in m.jobs && m.jobs[id].results.Some? && m.jobs[id].status == Expired
  }

  lemma StepWithholds(cfg: Config, s: System, step: Step, id: string)
    requires Inv(cfg, s) && Enabled(s, step) && Withheld(s.mgr, id)
    ensures Withheld(Next(cfg, s, step).mgr, id)
  {
    hide LanesOk, CacheOk;
    if step.Submit? {
      if Sanitize(step.texts) != [] {
        SubmittedJob(cfg, s, step.id, SubmittedAs(cfg, step));
      }
    } else if step.Process? {
      HeldJob(cfg, s, step.priority);
      ProcessedJobs(cfg, s, step.priority, step.clock, step.run);
    } else if Closing(step) {
      ClosingStepCloses(cfg, s, step);
    }
  }

  lemma {:induction false} RunWithholds(cfg: Config, s: System, steps: seq<Step>, t: System, id: string)
    requires Inv(cfg, s) && Reaches(cfg, s, steps, t) && Withheld(s.mgr, id)
    ensures Withheld(t.mgr, id)
    decreases |steps|
  {
    if steps != [] {
      StepKeepsInv(cfg, s, steps[0]);
      StepWithholds(cfg, s, steps[0], id);
      RunWithholds(cfg, Next(cfg, s, steps[0]), steps[1..], t, id);
    }
  }

  /** Once a look has expired it, no client is ever given a finished job's results again, though they stay stored. */
  lemma WithheldForGood(cfg: Config, before: seq<Step>, s: System, after: seq<Step>, t: System,
                        id: string, at: Moment, page: int, size: int)
    requires Reaches(cfg, INIT, before, s) && Reaches(cfg, s, after, t) && Withheld(s.mgr, id)
    ensures id in t.mgr.jobs && t.mgr.jobs[id].results == s.mgr.jobs[id].results
    ensures AnswerAt(cfg, t, id, at, page, size) == None
  {
    hide Answer, Paginate, Inv;
    InitKeepsInv(cfg, before, s);
    RunKeepsInv(cfg, s, after, t);
    RunWithholds(cfg, s, after, t, id);
    ResultsNeverChange(cfg, s, after, t, id);
    InvisibleIn(cfg, t, id, at.asked, at.now, at.again, page, size);
  }

  /**
    In every reachable state processing a job leaves its results in the cache if and only if it is completed
    then, and they are a hit from then on until their time to live is over.
   */
  lemma CachedIfCompleted(cfg: Config, steps: seq<Step>, s: System, p: Priority, clock: Clock, run: Run, asked: real)
    requires Reaches(cfg, INIT, steps, s) && Enabled(s, Process(p, clock, run))
    ensures var id, s' := s.lanes[p].hand.value, Next(cfg, s, Process(p, clock, run));
      && id in s'.mgr.jobs
      && (id in s'.cache.entries <==> s'.mgr.jobs[id].status == Completed)
      && (s'.mgr.jobs[id].status == Completed ==>
            var cachedAt := clock(CacheAt(ChunkCount(s.mgr.jobs[id])));
            Lookup(s'.cache, id, asked, cfg.ttl) ==
              if asked - cachedAt < cfg.ttl then s'.mgr.jobs[id].results else None)
  {
    var id := s.lanes[p].hand.value;
    var job := s.mgr.jobs[id];
    InitKeepsInv(cfg, steps, s);
    HeldJob(cfg, s, p);
    hide Inv, Reaches, Next, Write, LookedAt, FinalStatus, Collected, ChunkCount;
    CacheAfter(cfg, s, p, clock, run);
    ProcessedJobs(cfg, s, p, clock, run);
    LookedAtStatus(job, id, clock, run);
    var n := ChunkCount(job);
    WriteStores(s.cache, id, Collected(run, n), clock(CacheAt(n)), cfg.ttl, cfg.maxCacheSize);
  }

  lemma WriteStores(c: Cache, id: string, results: seq<Prediction>, now: real, ttl: real, maxSize: int)
    requires id !in c.entries
    ensures id in Write(c, id, results, now, ttl, maxSize).entries
    ensures Write(c, id, results, now, ttl, maxSize).entries[id] == Entry(results, now)
  {
  }

  lemma LookedAtStatus(job: Job, id: string, clock: Clock, run: Run)
    requires job.status == Pending || IsClosed(job)
    ensures LookedAt(job, id, clock, run).status == Completed <==>
      IsValid(job, clock(0)) && FinalStatus(job, clock, run) == Completed
    ensures LookedAt(job, id, clock, run).status == Completed ==>
      LookedAt(job, id, clock, run).results == Some(Collected(run, ChunkCount(job)))
  {
    hide FinalJob, Collected, ChunkCount, Stop;
    FinalJobIs(job, id, clock, run);
  }

  // ---------------------------------------------------------------- what the sweep spares

  lemma NeverFoundProcessing(cfg: Config, steps: seq<Step>, s: System, id: string)
    requires Reaches(cfg, INIT, steps, s) && id in s.mgr.jobs
    ensures s.mgr.jobs[id].status != Processing
  {
    InitKeepsInv(cfg, steps, s);
    assert JobOk(s, id);
  }

  lemma SweepStep(cfg: Config, s: System, jobClock: JobClock)
    ensures Next(cfg, s, SweepJobs(jobClock)).mgr == Sweep(s.mgr, jobClock)
  {
    hide Sweep;
  }

  /**
    In every reachable state the sweep expires a pending or a cancelled job if and only if the clock it reads
    for it has passed the deadline, and changes no other job.
   */
  lemma SweepSparesUntilTheDeadline(cfg: Config, steps: seq<Step>, s: System, jobClock: JobClock, id: string)
    requires Reaches(cfg, INIT, steps, s) && id in s.mgr.jobs
    ensures var job, m := s.mgr.jobs[id], Next(cfg, s, SweepJobs(jobClock)).mgr;
      && id in m.jobs
      && if jobClock(id) > Deadline(job) && (job.status == Pending || job.status == Cancelled)
         then m.jobs[id].status == Expired && m.jobs[id].results == job.results else m.jobs[id] == job
  {
    hide Sweep, Inv, Reaches, JobOk, Next;
    NeverFoundProcessing(cfg, steps, s, id);
    SweepStep(cfg, s, jobClock);
    SweepExpires(s.mgr, jobClock, id);
  }

  // ---------------------------------------------------------------- who is accepted

  /** A submission is stored exactly if a text is not blank, and then pending exactly if its queue has room. */
  lemma AcceptedIfRoom(cfg: Config, s: System, submit: Step)
    requires submit.Submit? && Enabled(s, submit)
    ensures var s', limit, before := Next(cfg, s, submit), cfg.limit(submit.priority), s.lanes[submit.priority].queue;
      && (submit.id in s'.mgr.jobs <==> exists k :: 0 <= k < |submit.texts| && !IsBlank(submit.texts[k]))
      && (submit.id in s'.mgr.jobs ==>
            if limit <= 0 || |before| < limit
            then s'.mgr.jobs[submit.id].status == Pending && s'.lanes[submit.priority].queue == before + [submit.id]
            else s'.mgr.jobs[submit.id].status == Failed && s'.lanes == s.lanes)
      && forall id :: id in s.mgr.jobs ==> id in s'.mgr.jobs && s'.mgr.jobs[id] == s.mgr.jobs[id]
  {
    SanitizedAway(submit.texts);
    if Sanitize(submit.texts) != [] {
      SubmittedJob(cfg, s, submit.id, SubmittedAs(cfg, submit));
    }
  }

  // ---------------------------------------------------------------- what clients read

  ghost predicate UsesModel(model: seq<string> -> ModelOutcome, s: System, step: Step)
    requires Enabled(s, step)
  {
    step.Process? ==> step.run == Predicted(model, s.mgr.jobs[s.lanes[step.priority].hand.value])
  }

  /** Every job processed during the run is processed with this model. */
  ghost predicate PredictedBy(cfg: Config, model: seq<string> -> ModelOutcome, s: System, steps: seq<Step>)
    decreases |steps|
  {
    steps == [] ||
    (&& Enabled(s, steps[0])
     && UsesModel(model, s, steps[0])
     && PredictedBy(cfg, model, Next(cfg, s, steps[0]), steps[1..]))
  }

  /** A job whose results, if any, are the pointwise predictions for its texts. */
  predicate Answered(f: string -> Prediction, job: Job)
  {
    job.results.Some? ==> job.results.value == MapTexts(f, job.texts)
  }

  lemma ClosingAnswers(m: Manager, m': Manager, f: string -> Prediction, id: string)
    requires OnlyCloses(m, m') && id in m.jobs && Answered(f, m.jobs[id])
    ensures id in m'.jobs && Answered(f, m'.jobs[id])
  {
  }

  lemma StepAnswers(cfg: Config, model: seq<string> -> ModelOutcome, f: string -> Prediction, s: System, step: Step,
                    id: string)
    requires forall ts :: model(ts) == Returned(MapTexts(f, ts))
    requires Inv(cfg, s) && Enabled(s, step) && UsesModel(model, s, step)
    requires id in s.mgr.jobs && Answered(f, s.mgr.jobs[id])
    ensures id in Next(cfg, s, step).mgr.jobs && Answered(f, Next(cfg, s, step).mgr.jobs[id])
  {
    if step.Submit? {
      SubmitAnswers(cfg, f, s, step, id);
    } else if step.Process? {
      ProcessAnswers(cfg, model, f, s, step.priority, step.clock, id);
    } else if Closing(step) {
      ClosingStepCloses(cfg, s, step);
      ClosingAnswers(s.mgr, Next(cfg, s, step).mgr, f, id);
    }
  }

  lemma SubmitAnswers(cfg: Config, f: string -> Prediction, s: System, submit: Step, id: string)
    requires submit.Submit? && Enabled(s, submit) && id in s.mgr.jobs && Answered(f, s.mgr.jobs[id])
    ensures id in Next(cfg, s, submit).mgr.jobs && Answered(f, Next(cfg, s, submit).mgr.jobs[id])
  {
    if Sanitize(submit.texts) != [] {
      SubmittedJob(cfg, s, submit.id, SubmittedAs(cfg, submit));
    }
  }

  lemma ProcessAnswers(cfg: Config, model: seq<string> -> ModelOutcome, f: string -> Prediction, s: System, p: Priority,
                       clock: Clock, id: string)
    requires forall ts :: model(ts) == Returned(MapTexts(f, ts))
    requires Inv(cfg, s) && p in s.lanes && s.lanes[p].hand.Some? && id in s.mgr.jobs && Answered(f, s.mgr.jobs[id])
    requires s.lanes[p].hand.value in s.mgr.jobs
    ensures var s' := Next(cfg, s, Process(p, clock, Predicted(model, s.mgr.jobs[s.lanes[p].hand.value])));
      id in s'.mgr.jobs && Answered(f, s'.mgr.jobs[id])
  {
    var held := s.lanes[p].hand.value;
    var job := s.mgr.jobs[held];
    HeldJob(cfg, s, p);
    ProcessedJobs(cfg, s, p, clock, Predicted(model, job));
    LookedAtIs(job, held, clock, Predicted(model, job));
    PredictedIsPointwise(model, f, job);
  }

  lemma PredictedIsPointwise(model: seq<string> -> ModelOutcome, f: string -> Prediction, job: Job)
    requires forall ts :: model(ts) == Returned(MapTexts(f, ts))
    ensures Collected(Predicted(model, job), ChunkCount(job)) == MapTexts(f, job.texts)
  {
    var chunks := Chunks(job.texts, ChunkSize(|job.texts|, job.maxBatchSize));
    CollectedPredictions(model, job, |chunks|);
    assert chunks[..|chunks|] == chunks;
    ChunkingIsTransparent(model, f, job.texts, job.maxBatchSize);
  }

  lemma {:induction false} RunAnswers(cfg: Config, model: seq<string> -> ModelOutcome, f: string -> Prediction,
                                      s: System, steps: seq<Step>, t: System, id: string)
    requires forall ts :: model(ts) == Returned(MapTexts(f, ts))
    requires Inv(cfg, s) && Reaches(cfg, s, steps, t) && PredictedBy(cfg, model, s, steps)
    requires id in s.mgr.jobs && Answered(f, s.mgr.jobs[id])
    ensures id in t.mgr.jobs && Answered(f, t.mgr.jobs[id])
    decreases |steps|
  {
    if steps != [] {
      StepKeepsInv(cfg, s, steps[0]);
      StepAnswers(cfg, model, f, s, steps[0], id);
      RunAnswers(cfg, model, f, Next(cfg, s, steps[0]), steps[1..], t, id);
    }
  }

  lemma SubmitStores(cfg: Config, s: System, submit: Step)
    requires submit.Submit? && Enabled(s, submit) && Sanitize(submit.texts) != []
    ensures var s' := Next(cfg, s, submit);
      && submit.id in s'.mgr.jobs && s'.mgr.jobs[submit.id].texts == Sanitize(submit.texts)
      && s'.mgr.jobs[submit.id].results == None
  {
  }

  lemma OnePredictionEach(f: string -> Prediction, texts: seq<string>, places: seq<nat>)
    requires KeepsInOrder(texts, Sanitize(texts), places)
    ensures |MapTexts(f, Sanitize(texts))| == |places|
  {
  }

  lemma PredictionAt(f: string -> Prediction, texts: seq<string>, places: seq<nat>, n: nat)
    requires KeepsInOrder(texts, Sanitize(texts), places) && n < |places|
    ensures |MapTexts(f, Sanitize(texts))| == |places| && places[n] < |texts|
    ensures MapTexts(f, Sanitize(texts))[n] == f(Strip(texts[places[n]]))
  {
  }

  /** Entry `i` of a page of predictions is that for the text at the place its number and size say. */
  lemma PageOfPredictions(f: string -> Prediction, texts: seq<string>, places: seq<nat>, page: int, size: int, i: nat)
    requires KeepsInOrder(texts, Sanitize(texts), places)
    requires i < |Paginate(MapTexts(f, Sanitize(texts)), page, size).items|
    ensures var p := Paginate(MapTexts(f, Sanitize(texts)), page, size);
      && 0 <= PlaceOf(p, i) < |places| && places[PlaceOf(p, i)] < |texts|
      && p.items[i] == f(Strip(texts[places[PlaceOf(p, i)]]))
  {
    var results := MapTexts(f, Sanitize(texts));
    OnePredictionEach(f, texts, places);
    hide Paginate, PlaceOf, Sanitize, KeepsInOrder, Strip, MapTexts;
    PageByNumber(results, page, size, i);
    PredictionAt(f, texts, places, PlaceOf(Paginate(results, page, size), i));
  }

  /**
    End to end: whatever else happens, whatever batch size the job was given, and whether the answer comes
    from the cache or not, a client who is given a page is given the page of the pointwise predictions for
    the texts it submitted, in their order: of all that are not blank, one each, at the place of the text
    among these.
   */
  lemma ClientsReadPredictions(cfg: Config, model: seq<string> -> ModelOutcome, f: string -> Prediction,
                               before: seq<Step>, s: System, submit: Step, after: seq<Step>, t: System,
                               at: Moment, page: int, size: int) returns (places: seq<nat>)
    requires forall ts :: model(ts) == Returned(MapTexts(f, ts))
    requires Reaches(cfg, INIT, before, s) && submit.Submit? && Enabled(s, submit) && Sanitize(submit.texts) != []
    requires Reaches(cfg, Next(cfg, s, submit), after, t) && PredictedBy(cfg, model, Next(cfg, s, submit), after)
    requires AnswerAt(cfg, t, submit.id, at, page, size).Some?
    ensures AnswerAt(cfg, t, submit.id, at, page, size)
      == Some(Paginate(MapTexts(f, Sanitize(submit.texts)), page, size))
    ensures Increasing(places)
    ensures forall k: nat :: k in places <==> k < |submit.texts| && !IsBlank(submit.texts[k])
    ensures var p := AnswerAt(cfg, t, submit.id, at, page, size).value;
      && p.total == |places|
      && forall i :: 0 <= i < |p.items| ==>
           && 0 <= PlaceOf(p, i) < |places| && places[PlaceOf(p, i)] < |submit.texts|
           && p.items[i] == f(Strip(submit.texts[places[PlaceOf(p, i)]]))
  {
    hide AnswerAt, PlaceOf, Paginate, Inv, Next, Enabled, Reaches, MapTexts, Strip, IsBlank, Sanitize;
    PageIsOfPredictions(cfg, model, f, before, s, submit, after, t, at, page, size);
    places := SanitizedInOrder(submit.texts);
    OnePredictionEach(f, submit.texts, places);
    var p := AnswerAt(cfg, t, submit.id, at, page, size).value;
    PageSummary(MapTexts(f, Sanitize(submit.texts)), page, size);
    forall i: nat | i < |p.items|
      ensures 0 <= PlaceOf(p, i) < |places| && places[PlaceOf(p, i)] < |submit.texts|
      ensures p.items[i] == f(Strip(submit.texts[places[PlaceOf(p, i)]]))
    {
      PageOfPredictions(f, submit.texts, places, page, size, i);
    }
  }

  lemma PageIsOfPredictions(cfg: Config, model: seq<string> -> ModelOutcome, f: string -> Prediction,
                            before: seq<Step>, s: System, submit: Step, after: seq<Step>, t: System,
                            at: Moment, page: int, size: int)
    requires forall ts :: model(ts) == Returned(MapTexts(f, ts))
    requires Reaches(cfg, INIT, before, s) && submit.Submit? && Enabled(s, submit) && Sanitize(submit.texts) != []
    requires Reaches(cfg, Next(cfg, s, submit), after, t) && PredictedBy(cfg, model, Next(cfg, s, submit), after)
    requires AnswerAt(cfg, t, submit.id, at, page, size).Some?
    ensures AnswerAt(cfg, t, submit.id, at, page, size)
      == Some(Paginate(MapTexts(f, Sanitize(submit.texts)), page, size))
  {
    var s' := Next(cfg, s, submit);
    InitKeepsInv(cfg, before, s);
    StepKeepsInv(cfg, s, submit);
    SubmitStores(cfg, s, submit);
    hide Answer, AnswerFromJob, Paginate, Inv, Next, Enabled;
    RunKeepsInv(cfg, s', after, t);
    InvisibleIn(cfg, t, submit.id, at.asked, at.now, at.again, page, size);
    ResultsNeverChange(cfg, s', after, t, submit.id);
    RunAnswers(cfg, model, f, s', after, t, submit.id);
    AnsweredJob(t, submit.id, at.now, page, size);
  }

  // ---------------------------------------------------------------- the queues

  lemma NoDuplicatesCount(ids: seq<string>, id: string)
    requires NoDuplicates(ids)
    ensures multiset(ids)[id] == One(id in ids)
  {
    DuplicatesShowInMultiset(ids);
    assert id in ids <==> id in multiset(ids);
  }

  lemma QueueHasNoDuplicates(cfg: Config, p: Priority, lane: Lane, jobs: map<string, Job>)
    requires LaneOk(cfg, p, lane, jobs)
    ensures NoDuplicates(lane.queue) && NoDuplicates(lane.handed)
  {
    var n := |lane.handed|;
    assert forall i :: 0 <= i < |lane.queue| ==> lane.queue[i] == lane.enqueued[n + i];
    assert forall i :: 0 <= i < n ==> lane.handed[i] == lane.enqueued[i];
  }

  /** A pending job waits exactly once, in the lane of its own priority, and in no other. */
  lemma PendingWaitsOnce(cfg: Config, steps: seq<Step>, s: System, id: string)
    requires Reaches(cfg, INIT, steps, s) && id in s.mgr.jobs && s.mgr.jobs[id].status == Pending
    ensures var own := s.mgr.jobs[id].priority;
      && own in s.lanes
      && multiset(s.lanes[own].queue)[id] + One(s.lanes[own].hand == Some(id)) == 1
      && forall p :: p in s.lanes && p != own ==> !Waits(s.lanes[p], id)
  {
    InitKeepsInv(cfg, steps, s);
    var own := s.mgr.jobs[id].priority;
    assert JobOk(s, id);
    assert LaneOk(cfg, own, s.lanes[own], s.mgr.jobs);
    QueueHasNoDuplicates(cfg, own, s.lanes[own], s.mgr.jobs);
    NoDuplicatesCount(s.lanes[own].queue, id);
    if s.lanes[own].hand == Some(id) {
      HeldIsNotQueued(cfg, own, s.lanes[own], s.mgr.jobs);
    }
    forall p | p in s.lanes && p != own
      ensures !Waits(s.lanes[p], id)
    {
      assert LaneOk(cfg, p, s.lanes[p], s.mgr.jobs);
      NotEnqueuedDoesNotWait(cfg, p, s.lanes[p], s.mgr.jobs, id);
    }
  }

  /** Each lane is a bounded first-in-first-out queue through which every id passes at most once. */
  lemma LanesAreFifo(cfg: Config, steps: seq<Step>, s: System, p: Priority)
    requires Reaches(cfg, INIT, steps, s)
    ensures p in s.lanes
    ensures var lane := s.lanes[p];
      && lane.enqueued == lane.handed + lane.queue
      && NoDuplicates(lane.enqueued)
      && (cfg.limit(p) > 0 ==> |lane.queue| <= cfg.limit(p))
  {
    InitKeepsInv(cfg, steps, s);
    assert p in {High, Medium, Low};
    assert LaneOk(cfg, p, s.lanes[p], s.mgr.jobs);
  }

  // ---------------------------------------------------------------- how many are queued

  /** The jobs queued, those a worker has taken and not yet looked at, and those queued although closed. */
  function QueuedIds(s: System): set<string>
  {
    set id | id in s.mgr.jobs && s.mgr.jobs[id].priority in s.lanes && id in s.lanes[s.mgr.jobs[id].priority].queue
  }

  function PendingInHand(s: System): set<string>
  {
    set id | id in s.mgr.jobs && s.mgr.jobs[id].status == Pending &&
             s.mgr.jobs[id].priority in s.lanes && s.lanes[s.mgr.jobs[id].priority].hand == Some(id)
  }

  function ClosedInQueue(s: System): set<string>
  {
    set id | id in QueuedIds(s) && IsClosed(s.mgr.jobs[id])
  }

  lemma QueueElements(cfg: Config, s: System, p: Priority)
    requires LanesOk(cfg, s) && p in s.lanes
    ensures |Elements(s.lanes[p].queue)| == QueuedIn(s, p)
    ensures forall id :: id in Elements(s.lanes[p].queue) ==> id in QueuedIds(s) && s.mgr.jobs[id].priority == p
    ensures forall id :: id in QueuedIds(s) && s.mgr.jobs[id].priority == p ==> id in Elements(s.lanes[p].queue)
  {
    QueueHasNoDuplicates(cfg, p, s.lanes[p], s.mgr.jobs);
    CountOfNoDuplicates(s.lanes[p].queue);
    assert LaneOk(cfg, p, s.lanes[p], s.mgr.jobs);
    assert forall id :: id in s.lanes[p].queue ==> id in s.lanes[p].enqueued;
  }

  lemma UnionOfThree<T>(all: set<T>, a: set<T>, b: set<T>, c: set<T>)
    requires a !! b && a + b !! c && forall x :: x in all <==> x in a || x in b || x in c
    ensures |all| == |a| + |b| + |c|
  {
    assert all == a + b + c;
    assert |a + b + c| == |a + b| + |c| && |a + b| == |a| + |b|;
  }

  lemma TotalIsQueued(cfg: Config, s: System)
    requires LanesOk(cfg, s)
    ensures TotalQueued(s) == |QueuedIds(s)|
  {
    assert s.lanes.Keys == {High, Medium, Low};
    hide LanesOk, QueuedIn, QueuedIds, Elements;
    QueueElements(cfg, s, High);
    QueueElements(cfg, s, Medium);
    QueueElements(cfg, s, Low);
    UnionOfThree(QueuedIds(s), Elements(s.lanes[High].queue), Elements(s.lanes[Medium].queue),
      Elements(s.lanes[Low].queue));
  }

  /** Pending jobs wait in their queue or in their worker's hand, and what is queued is pending or closed. */
  lemma WaitingSets(cfg: Config, s: System)
    requires Inv(cfg, s)
    ensures QueuedIds(s) + PendingInHand(s) == IdsIn(s.mgr.jobs, {Pending}) + ClosedInQueue(s)
    ensures QueuedIds(s) !! PendingInHand(s) && IdsIn(s.mgr.jobs, {Pending}) !! ClosedInQueue(s)
  {
    forall id | id in s.mgr.jobs
      ensures id in QueuedIds(s) || id in PendingInHand(s) <==>
        s.mgr.jobs[id].status == Pending || id in ClosedInQueue(s)
      ensures !(id in QueuedIds(s) && id in PendingInHand(s))
    {
      var p := s.mgr.jobs[id].priority;
      assert JobOk(s, id);
      assert LaneOk(cfg, p, s.lanes[p], s.mgr.jobs);
      if s.lanes[p].hand == Some(id) {
        HeldIsNotQueued(cfg, p, s.lanes[p], s.mgr.jobs);
      }
    }
  }

  lemma DisjointSums<T>(a: set<T>, b: set<T>, c: set<T>, d: set<T>)
    requires a + b == c + d && a !! b && c !! d
    ensures |a| + |b| == |c| + |d|
  {
    assert |a + b| == |a| + |b| && |c + d| == |c| + |d|;
  }

  lemma QueuesBalance(cfg: Config, s: System)
    requires Inv(cfg, s)
    ensures TotalQueued(s) + |PendingInHand(s)| == NumIn(s.mgr.jobs, {Pending}) + |ClosedInQueue(s)|
  {
    hide LanesOk, JobsOk, CacheOk, QueuedIds, PendingInHand, ClosedInQueue, IdsIn, TotalQueued;
    TotalIsQueued(cfg, s);
    WaitingSets(cfg, s);
    DisjointSums(QueuedIds(s), PendingInHand(s), IdsIn(s.mgr.jobs, {Pending}), ClosedInQueue(s));
  }

  /**
    What `queue_size` shows when the metrics are read: the queues' total, which differs from the number of
    pending jobs by those in workers' hands and by closed jobs still queued.
   */
  lemma QueueSizeWhenRead(cfg: Config, steps: seq<Step>, s: System)
    requires Reaches(cfg, INIT, steps, s)
    ensures TotalQueued(s) + |PendingInHand(s)| == NumIn(s.mgr.jobs, {Pending}) + |ClosedInQueue(s)|
    ensures Next(cfg, s, ReadCounters).mgr.queueSize
         == NumIn(s.mgr.jobs, {Pending}) - |PendingInHand(s)| + |ClosedInQueue(s)|
  {
    hide Inv, PendingInHand, ClosedInQueue, NumIn, TotalQueued, Reaches;
    InitKeepsInv(cfg, steps, s);
    QueuesBalance(cfg, s);
  }

  // ---------------------------------------------------------------- order of service

  predicate LaneGrows(a: Lane, b: Lane)
  {
    a.enqueued <= b.enqueued && a.handed <= b.handed
  }

  lemma SubmitGrows(cfg: Config, s: System, submit: Step, p: Priority)
    requires submit.Submit? && Enabled(s, submit) && p in s.lanes
    ensures p in Next(cfg, s, submit).lanes && LaneGrows(s.lanes[p], Next(cfg, s, submit).lanes[p])
  {
    if Sanitize(submit.texts) != [] {
      SubmittedJob(cfg, s, submit.id, SubmittedAs(cfg, submit));
    }
  }

  lemma StepGrows(cfg: Config, s: System, step: Step, p: Priority)
    requires Enabled(s, step) && p in s.lanes
    ensures p in Next(cfg, s, step).lanes && LaneGrows(s.lanes[p], Next(cfg, s, step).lanes[p])
  {
    if step.Submit? {
      SubmitGrows(cfg, s, step, p);
    } else if step.Process? {
      ProcessedShape(cfg, s, step.priority, step.clock, step.run);
    } else if Closing(step) {
      ClosingStepCloses(cfg, s, step);
    }
  }

  /** Histories only grow: what was enqueued or handed over stays so, in the same order. */
  lemma {:induction false} HistoryGrows(cfg: Config, s: System, steps: seq<Step>, t: System, p: Priority)
    requires Reaches(cfg, s, steps, t) && p in s.lanes
    ensures p in t.lanes && LaneGrows(s.lanes[p], t.lanes[p])
    decreases |steps|
  {
    if steps != [] {
      StepGrows(cfg, s, steps[0], p);
      HistoryGrows(cfg, Next(cfg, s, steps[0]), steps[1..], t, p);
    }
  }

  /** An id waits exactly if it was enqueued and not yet let go. */
  lemma WaitsByPosition(cfg: Config, p: Priority, lane: Lane, jobs: map<string, Job>, i: nat)
    requires LaneOk(cfg, p, lane, jobs) && i < |lane.enqueued|
    ensures Waits(lane, lane.enqueued[i]) <==> i >= |lane.handed| || (i == |lane.handed| - 1 && lane.hand.Some?)
  {
    var h, id := |lane.handed|, lane.enqueued[i];
    assert forall k :: 0 <= k < |lane.queue| ==> lane.queue[k] == lane.enqueued[h + k];
    if i >= h {
      assert lane.queue[i - h] == id;
    } else if lane.hand.Some? {
      assert lane.hand.value == lane.enqueued[h - 1];
    }
  }

  /** Of two jobs in one lane, the one enqueued first is let go first. */
  lemma ServedInOrder(cfg: Config, steps: seq<Step>, s: System, p: Priority, i: nat, j: nat)
    requires Reaches(cfg, INIT, steps, s) && p in s.lanes && i < j < |s.lanes[p].enqueued|
    requires !Waits(s.lanes[p], s.lanes[p].enqueued[j])
    ensures !Waits(s.lanes[p], s.lanes[p].enqueued[i])
  {
    InitKeepsInv(cfg, steps, s);
    assert LaneOk(cfg, p, s.lanes[p], s.mgr.jobs);
    WaitsByPosition(cfg, p, s.lanes[p], s.mgr.jobs, i);
    WaitsByPosition(cfg, p, s.lanes[p], s.mgr.jobs, j);
  }

  /** What its worker let go of is no longer pending. */
  lemma LetGoIsSettled(cfg: Config, steps: seq<Step>, s: System, p: Priority, id: string)
    requires Reaches(cfg, INIT, steps, s) && p in s.lanes && id in s.lanes[p].enqueued && !Waits(s.lanes[p], id)
    ensures id in s.mgr.jobs && s.mgr.jobs[id].priority == p && s.mgr.jobs[id].status != Pending
  {
    InitKeepsInv(cfg, steps, s);
    assert LaneOk(cfg, p, s.lanes[p], s.mgr.jobs);
    assert JobOk(s, id);
  }

  // ---------------------------------------------------------------- rejected submissions

  lemma SubmitEnqueuesOnlyNew(cfg: Config, s: System, submit: Step, id: string, p: Priority)
    requires submit.Submit? && Enabled(s, submit) && id in s.mgr.jobs && p in s.lanes && id !in s.lanes[p].enqueued
    ensures p in Next(cfg, s, submit).lanes && id !in Next(cfg, s, submit).lanes[p].enqueued
  {
    if Sanitize(submit.texts) != [] {
      SubmittedJob(cfg, s, submit.id, SubmittedAs(cfg, submit));
    }
  }

  lemma StepEnqueuesOnlyNew(cfg: Config, s: System, step: Step, id: string, p: Priority)
    requires Enabled(s, step) && id in s.mgr.jobs && p in s.lanes && id !in s.lanes[p].enqueued
    ensures p in Next(cfg, s, step).lanes && id !in Next(cfg, s, step).lanes[p].enqueued
  {
    if step.Submit? {
      SubmitEnqueuesOnlyNew(cfg, s, step, id, p);
    } else if step.Process? {
      ProcessedShape(cfg, s, step.priority, step.clock, step.run);
    } else if Closing(step) {
      ClosingStepCloses(cfg, s, step);
    }
  }

  /** An id that exists without having been enqueued is never enqueued. */
  lemma {:induction false} NeverEnqueuedLater(cfg: Config, s: System, steps: seq<Step>, t: System, id: string,
                                              p: Priority)
    requires Inv(cfg, s) && Reaches(cfg, s, steps, t) && id in s.mgr.jobs && p in s.lanes && id !in s.lanes[p].enqueued
    ensures p in t.lanes && id !in t.lanes[p].enqueued
    decreases |steps|
  {
    if steps != [] {
      StepKeepsInv(cfg, s, steps[0]);
      StepKeepsJobs(cfg, s, steps[0]);
      StepEnqueuesOnlyNew(cfg, s, steps[0], id, p);
      NeverEnqueuedLater(cfg, Next(cfg, s, steps[0]), steps[1..], t, id, p);
    }
  }

  /** A job rejected by a full queue is failed at once, and is never queued or processed afterwards. */
  lemma RejectedStaysFailed(cfg: Config, before: seq<Step>, s: System, submit: Step, after: seq<Step>, t: System)
    requires Reaches(cfg, INIT, before, s) && submit.Submit? && Enabled(s, submit) && Sanitize(submit.texts) != []
    requires IsFull(s.lanes[submit.priority], cfg.limit(submit.priority))
    requires Reaches(cfg, Next(cfg, s, submit), after, t)
    ensures var id, s' := submit.id, Next(cfg, s, submit);
      && s'.lanes == s.lanes
      && id in s'.mgr.jobs && s'.mgr.jobs[id].status == Failed
      && s'.mgr.jobs[id].error == Some(QueueFull(submit.priority))
      && id in t.mgr.jobs && (t.mgr.jobs[id].status == Failed || t.mgr.jobs[id].status == Expired)
      && forall p :: p in t.lanes ==> id !in t.lanes[p].enqueued
  {
    var id, s' := submit.id, Next(cfg, s, submit);
    InitKeepsInv(cfg, before, s);
    StepKeepsInv(cfg, s, submit);
    RunKeepsInv(cfg, s', after, t);
    forall p | p in s'.lanes
      ensures p in t.lanes && id !in t.lanes[p].enqueued
    {
      assert LaneOk(cfg, p, s.lanes[p], s.mgr.jobs);
      NeverEnqueuedLater(cfg, s', after, t, id, p);
    }
    ResultsNeverChange(cfg, s', after, t, id);
    assert JobOk(t, id);
  }

  // ---------------------------------------------------------------- the deadline

  /** The worker of `p` holds a job it finds valid, and starts to process it. */
  ghost predicate Starts(s: System, p: Priority, clock: Clock, run: Run)
  {
    Enabled(s, Process(p, clock, run)) && IsValid(s.mgr.jobs[s.lanes[p].hand.value], clock(0))
  }

  lemma SomeChunk(job: Job)
    requires job.texts != []
    ensures ChunkCount(job) > 0
  {
  }

  /**
    In every reachable state, processing leaves a job found valid expired exactly if its deadline has come
    by the test of the last chunk it reaches or, if it gets through them all, has passed when it is looked
    at a last time; a job that got through all its chunks has its results even then.
   */
  lemma ExpiredByTheDeadline(cfg: Config, steps: seq<Step>, s: System, p: Priority, clock: Clock, run: Run, q: nat)
    requires Reaches(cfg, INIT, steps, s) && Starts(s, p, clock, run) && NeverGoesBack(clock)
    requires CrashesAt(run, ChunkCount(s.mgr.jobs[s.lanes[p].hand.value]), q)
    ensures var id, m := s.lanes[p].hand.value, Next(cfg, s, Process(p, clock, run)).mgr;
      var n, d := ChunkCount(s.mgr.jobs[id]), Deadline(s.mgr.jobs[id]);
      && n > 0 && id in m.jobs
      && (m.jobs[id].status == Expired <==>
            if q < n then clock(TestAt(q)) >= d else clock(TestAt(n - 1)) >= d || clock(RefreshAt(n)) > d)
      && (m.jobs[id].results.Some? <==> q == n && clock(TestAt(n - 1)) < d)
  {
    var id := s.lanes[p].hand.value;
    InitKeepsInv(cfg, steps, s);
    HeldJob(cfg, s, p);
    SomeChunk(s.mgr.jobs[id]);
    ProcessedJobs(cfg, s, p, clock, run);
    FinalByDeadline(s.mgr.jobs[id], id, clock, run, q);
  }

  lemma FinalByDeadline(job: Job, id: string, clock: Clock, run: Run, q: nat)
    requires Workable(job) && job.results == None && NeverGoesBack(clock)
    requires ChunkCount(job) > 0 && CrashesAt(run, ChunkCount(job), q)
    ensures var f, n, d := FinalJob(job, id, clock, run), ChunkCount(job), Deadline(job);
      && (f.status == Expired <==>
            if q < n then clock(TestAt(q)) >= d else clock(TestAt(n - 1)) >= d || clock(RefreshAt(n)) > d)
      && (f.results.Some? <==> q == n && clock(TestAt(n - 1)) < d)
  {
    FinalJobIs(job, id, clock, run);
    StopByDeadline(job, clock, run, q);
    ExpiredByDeadline(job, clock, run, q);
  }

  /**
    How often processing takes a job off `active_jobs`: once for a first look after the deadline, and at the
    end as `EndDrop` says, so that it is once in all only if no look expires a job that goes on.
   */
  lemma ActiveAfterProcess(cfg: Config, steps: seq<Step>, s: System, p: Priority, clock: Clock, run: Run)
    requires Reaches(cfg, INIT, steps, s) && Starts(s, p, clock, run) && NeverGoesBack(clock)
    ensures var job, m := s.mgr.jobs[s.lanes[p].hand.value], Next(cfg, s, Process(p, clock, run)).mgr;
      m.activeJobs == s.mgr.activeJobs - One(clock(2) > Deadline(job)) - EndDrop(job, clock, run)
  {
    var id := s.lanes[p].hand.value;
    var job := s.mgr.jobs[id];
    InitKeepsInv(cfg, steps, s);
    HeldJob(cfg, s, p);
    ProcessOpsConcern(job, id, clock, run);
    ApplyAllDrops(s.mgr, id, ProcessOps(job, id, clock, run));
    ProcessDrops(job, id, clock, run);
  }

  lemma {:induction false} ReachesExtends(cfg: Config, s: System, steps: seq<Step>, t: System, step: Step)
    requires Reaches(cfg, s, steps, t) && Enabled(t, step)
    ensures Reaches(cfg, s, steps + [step], Next(cfg, t, step))
    decreases |steps|
  {
    var more := steps + [step];
    if steps == [] {
      assert more[1..] == [];
    } else {
      ReachesExtends(cfg, Next(cfg, s, steps[0]), steps[1..], t, step);
      assert more[1..] == steps[1..] + [step];
    }
  }

  // ---------------------------------------------------------------- the counters

  /** The manager operations a service step performs. */
  function OpsOf(cfg: Config, s: System, step: Step): seq<Op>
    requires Enabled(s, step)
  {
    match step
    case Submit(id, texts, p, _, _, _) =>
      if Sanitize(texts) == [] then []
      else [CreateOp(id, SubmittedAs(cfg, step))] +
           (if IsFull(s.lanes[p], cfg.limit(p)) then [UpdateOp(id, SetStatus(Failed).(error := Some(QueueFull(p))))]
             else [])
    case Dequeue(_) => []
    case Process(p, clock, run) =>
      var id := s.lanes[p].hand.value;
      [ValidateOp(id, clock(0))] +
      (if IsValid(s.mgr.jobs[id], clock(0)) then ProcessOps(s.mgr.jobs[id], id, clock, run) else [])
    case ReadStatus(id, now) => [GetOp(id, now)]
    case ReadResults(id, asked, now, again) =>
      [GetOp(id, now)] +
      (if Lookup(s.cache, id, asked, cfg.ttl).Some? && !IsCompleted(Get(s.mgr, id, now), id) then [GetOp(id, again)]
        else [])
    case CancelJob(id, now) => [CancelOp(id, now)]
    case SweepJobs(jobClock) => [SweepOp(jobClock)]
    case ReadCounters => [MetricsOp(TotalQueued(s))]
    case ClearCache => []
  }

  lemma RunOfTwo(m: Manager, t: Tally, a: Op, b: Op)
    requires Allowed(m, a) && Allowed(Apply(m, a), b)
    ensures IsRun(m, t, [a, b], Apply(Apply(m, a), b), Count(Apply(m, a), Count(m, t, a), b))
  {
    RunOfOne(m, t, a);
    RunOfOne(Apply(m, a), Count(m, t, a), b);
    RunsCompose(m, t, [a], Apply(m, a), Count(m, t, a), [b], Apply(Apply(m, a), b),
      Count(Apply(m, a), Count(m, t, a), b));
    assert [a] + [b] == [a, b];
  }

  lemma ProcessIsRun(cfg: Config, s: System, p: Priority, clock: Clock, run: Run, t: Tally) returns (t': Tally)
    requires Inv(cfg, s) && Enabled(s, Process(p, clock, run))
    ensures IsRun(s.mgr, t, OpsOf(cfg, s, Process(p, clock, run)), Next(cfg, s, Process(p, clock, run)).mgr, t')
  {
    var id := s.lanes[p].hand.value;
    var job, look := s.mgr.jobs[id], ValidateOp(id, clock(0));
    HeldJob(cfg, s, p);
    RunOfOne(s.mgr, t, look);
    if IsValid(job, clock(0)) {
      var ops := ProcessOps(job, id, clock, run);
      ProcessOpsConcern(job, id, clock, run);
      ProcessIsAllowed(job, id, clock, run);
      t' := AllowedOpsAreRun(s.mgr, t, id, ops);
      RunsCompose(s.mgr, t, [look], s.mgr, t, ops, ApplyAll(s.mgr, ops), t');
    } else {
      t' := Count(s.mgr, t, look);
      assert [look] + [] == [look];
    }
  }

  lemma SubmitIsRun(cfg: Config, s: System, step: Step, t: Tally)
    requires step.Submit? && Enabled(s, step)
    ensures IsRun(s.mgr, t, OpsOf(cfg, s, step), Next(cfg, s, step).mgr, t)
  {
    var ops := OpsOf(cfg, s, step);
    if |ops| == 1 {
      RunOfOne(s.mgr, t, ops[0]);
    } else if |ops| == 2 {
      RunOfTwo(s.mgr, t, ops[0], ops[1]);
    }
  }

  lemma ReadIsRun(cfg: Config, s: System, step: Step, t: Tally) returns (t': Tally)
    requires step.ReadResults? && Enabled(s, step)
    ensures IsRun(s.mgr, t, OpsOf(cfg, s, step), Next(cfg, s, step).mgr, t')
  {
    var ops := OpsOf(cfg, s, step);
    var once, u := Apply(s.mgr, ops[0]), Count(s.mgr, t, ops[0]);
    if |ops| == 1 {
      RunOfOne(s.mgr, t, ops[0]);
      t' := u;
    } else {
      RunOfTwo(s.mgr, t, ops[0], ops[1]);
      t' := Count(once, u, ops[1]);
    }
  }

  /**
    Every step of the service moves the manager by operations its ledger allows, even when a deadline passes
    while a job is processed.
   */
  lemma StepIsRun(cfg: Config, s: System, step: Step, t: Tally) returns (t': Tally)
    requires Inv(cfg, s) && Enabled(s, step)
    ensures IsRun(s.mgr, t, OpsOf(cfg, s, step), Next(cfg, s, step).mgr, t')
  {
    match step {
      case Submit(_, _, _, _, _, _) =>
        SubmitIsRun(cfg, s, step, t);
        t' := t;
      case Dequeue(_) =>
        t' := t;
      case ClearCache =>
        t' := t;
      case Process(p, clock, run) =>
        t' := ProcessIsRun(cfg, s, p, clock, run, t);
      case ReadResults(_, _, _, _) =>
        t' := ReadIsRun(cfg, s, step, t);
      case _ =>
        RunOfOne(s.mgr, t, OpsOf(cfg, s, step)[0]);
        t' := Count(s.mgr, t, OpsOf(cfg, s, step)[0]);
    }
  }

  /** The manager operations of a run of the service, those of its steps one after the other. */
  ghost function RunOps(cfg: Config, s: System, steps: seq<Step>, s': System): seq<Op>
    requires Reaches(cfg, s, steps, s')
    decreases |steps|
  {
    if steps == [] then [] else OpsOf(cfg, s, steps[0]) + RunOps(cfg, Next(cfg, s, steps[0]), steps[1..], s')
  }

  /** A run of the service is the run of exactly its own operations. */
  lemma {:induction false} ServiceRunIsRun(cfg: Config, s: System, steps: seq<Step>, s': System, t: Tally)
    returns (t': Tally)
    requires Inv(cfg, s) && Reaches(cfg, s, steps, s')
    ensures IsRun(s.mgr, t, RunOps(cfg, s, steps, s'), s'.mgr, t')
    decreases |steps|
  {
    if steps == [] {
      t' := t;
    } else {
      var u := StepIsRun(cfg, s, steps[0], t);
      StepKeepsInv(cfg, s, steps[0]);
      var next := Next(cfg, s, steps[0]);
      t' := ServiceRunIsRun(cfg, next, steps[1..], s', u);
      hide OpsOf, Next, Inv;
      RunsCompose(s.mgr, t, OpsOf(cfg, s, steps[0]), next.mgr, u, RunOps(cfg, next, steps[1..], s'), s'.mgr, t');
    }
  }

  /**
    The counters of every reachable state are those of the service's own operations, in order, and these
    never move a job in a way that escapes the ledger; `RunFixesTally` says that the tally is theirs alone.
   */
  lemma LedgerOfService(cfg: Config, steps: seq<Step>, s: System) returns (t: Tally)
    requires Reaches(cfg, INIT, steps, s)
    ensures IsRun(NO_JOBS, NO_TALLY, RunOps(cfg, INIT, steps, s), s.mgr, t) && Ledger(s.mgr, t)
  {
    hide Inv, Reaches, IsRun, RunOps, Ledger;
    InitIsOk(cfg);
    t := ServiceRunIsRun(cfg, INIT, steps, s, NO_TALLY);
    LedgerAtStart();
    LedgerHolds(NO_JOBS, NO_TALLY, RunOps(cfg, INIT, steps, s), s.mgr, t);
  }
}
