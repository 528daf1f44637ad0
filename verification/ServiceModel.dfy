/**
  The asynchronous batch service as a step system: submissions, per-priority workers, cancellations,
  status and result reads, and the expiry sweep, over the job manager, the queues and the result cache.

  A step is the code between two suspension points. Processing a job contains no suspension, but may take
  long: it reads the clock again and again, and other steps read it as often as the code does. Taking a job
  from its queue is a step of its own.
 */
module ServiceModel {
  import opened Basics
  import opened Text
  import opened JobModel
  import opened CacheModel
  import opened ProcessModel
  import opened ResultPages

  datatype Config = Config(
    limit: Priority -> int,
    defaultBatchSize: int,
    defaultTimeout: int,
    ttl: real,
    maxCacheSize: int)

  /**
    One priority's queue, the job its worker has taken and not yet looked at, and the history: the ids ever
    enqueued and those handed to the worker.
   */
  datatype Lane = Lane(queue: seq<string>, hand: Option<string>, enqueued: seq<string>, handed: seq<string>)

  const EMPTY_LANE: Lane := Lane([], None, [], [])

  datatype System = System(mgr: Manager, lanes: map<Priority, Lane>, cache: Cache)

  const INIT: System := System(NO_JOBS, map[High := EMPTY_LANE, Medium := EMPTY_LANE, Low := EMPTY_LANE], EMPTY_CACHE)

  datatype Step =
    | Submit(id: string, texts: seq<string>, priority: Priority, maxBatchSize: Option<int>, timeout: Option<int>,
             now: real)
    | Dequeue(priority: Priority)
    | Process(priority: Priority, clock: Clock, run: Run)
    | ReadStatus(id: string, now: real)
    | ReadResults(id: string, asked: real, now: real, again: real)
    | CancelJob(id: string, now: real)
    | SweepJobs(jobClock: JobClock)
    | ReadCounters
    | ClearCache

  // ---------------------------------------------------------------- steps

  /** `_sanitize_texts` */
  function Sanitize(texts: seq<string>): seq<string>
  {
    if texts == [] then [] else
    Sanitize(texts[..|texts| - 1]) + (if Strip(texts[|texts| - 1]) != [] then [Strip(texts[|texts| - 1])] else [])
  }

  /** Nothing is left exactly if every text is blank. */
  lemma {:induction false} SanitizedAway(texts: seq<string>)
    ensures Sanitize(texts) == [] <==> forall i :: 0 <= i < |texts| ==> IsBlank(texts[i])
  {
    if texts != [] {
      var init, last := texts[..|texts| - 1], texts[|texts| - 1];
      SanitizedAway(init);
      StripResult(last);
      assert forall i :: 0 <= i < |init| ==> texts[i] == init[i];
    }
  }

  /** `places` are the positions of the texts that are not blank, and `kept` holds these texts, stripped. */
  ghost predicate KeepsInOrder(texts: seq<string>, kept: seq<string>, places: seq<nat>)
  {
    && |kept| == |places| && Increasing(places)
    && (forall k: nat :: k in places <==> k < |texts| && !IsBlank(texts[k]))
    && forall i :: 0 <= i < |places| ==> places[i] < |texts| && kept[i] == Strip(texts[places[i]])
  }

  lemma KeepOneMore(texts: seq<string>, kept: seq<string>, places: seq<nat>, text: string)
    requires KeepsInOrder(texts, kept, places)
    ensures IsBlank(text) ==> KeepsInOrder(texts + [text], kept, places)
    ensures !IsBlank(text) ==> KeepsInOrder(texts + [text], kept + [Strip(text)], places + [|texts|])
  {
    var more := texts + [text];
    assert forall i :: 0 <= i < |places| ==> places[i] in places;
    assert forall k :: 0 <= k < |texts| ==> more[k] == texts[k];
  }

  /** Every text that is not blank is kept, stripped, once for each time it was submitted, in order. */
  lemma {:induction false} SanitizedInOrder(texts: seq<string>) returns (places: seq<nat>)
    ensures KeepsInOrder(texts, Sanitize(texts), places)
  {
    if texts == [] {
      places := [];
    } else {
      var init, last := texts[..|texts| - 1], texts[|texts| - 1];
      places := SanitizedInOrder(init);
      KeepOneMore(init, Sanitize(init), places, last);
      StripResult(last);
      assert texts == init + [last];
      if !IsBlank(last) {
        places := places + [|init|];
      }
    }
  }

  /** A single text is kept, stripped, unless it is blank. */
  lemma SanitizedOne(text: string)
    ensures Sanitize([text]) == if IsBlank(text) then [] else [Strip(text)]
  {
    StripResult(text);
    assert [text][..0] == [];
  }

  /** Submitting two lists of texts together keeps what submitting them one after the other keeps. */
  lemma {:induction false} SanitizedInParts(xs: seq<string>, ys: seq<string>)
    ensures Sanitize(xs + ys) == Sanitize(xs) + Sanitize(ys)
    decreases |ys|
  {
    if ys == [] {
      assert xs + ys == xs;
    } else {
      SanitizedInParts(xs, ys[..|ys| - 1]);
      assert (xs + ys)[..|xs + ys| - 1] == xs + ys[..|ys| - 1];
    }
  }

  ghost predicate Clean(text: string) { text != [] && Strip(text) == text }

  /** What is left is clean, so that cleaning it again changes nothing. */
  lemma {:induction false} SanitizedIsClean(texts: seq<string>)
    ensures forall i :: 0 <= i < |Sanitize(texts)| ==> Clean(Sanitize(texts)[i])
    ensures Sanitize(Sanitize(texts)) == Sanitize(texts)
  {
    if texts != [] {
      var init, last := texts[..|texts| - 1], texts[|texts| - 1];
      SanitizedIsClean(init);
      StripResult(last);
      if Strip(last) != [] {
        assert Sanitize(texts)[..|Sanitize(texts)| - 1] == Sanitize(init);
      } else {
        assert Sanitize(texts) == Sanitize(init);
      }
    }
  }

  /** A queue with a positive limit is full when it has that many entries. */
  predicate IsFull(lane: Lane, limit: int) { 0 < limit <= |lane.queue| }

  function Enqueued(lane: Lane, id: string): Lane
  {
    lane.(queue := lane.queue + [id], enqueued := lane.enqueued + [id])
  }

  /** Popping the head into the worker's hand. */
  function Popped(lane: Lane): Lane
    requires lane.queue != []
  {
    lane.(queue := lane.queue[1..], hand := Some(lane.queue[0]), handed := lane.handed + [lane.queue[0]])
  }

  function QueueFull(p: Priority): string
  {
    "Queue full for priority " + match p case High => "high" case Medium => "medium" case Low => "low"
  }

  /** `submit_batch_job` after the texts were accepted: the job is stored, then queued or failed. */
  function AfterSubmit(cfg: Config, s: System, id: string, job: Job): System
    requires job.priority in s.lanes
  {
    var stored := Store(s.mgr, id, job);
    var lane := s.lanes[job.priority];
    if IsFull(lane, cfg.limit(job.priority)) then
      s.(mgr := UpdateStatus(stored, id, SetStatus(Failed).(error := Some(QueueFull(job.priority)))))
    else
      s.(mgr := stored, lanes := s.lanes[job.priority := Enqueued(lane, id)])
  }

  /** `_process_job` on a valid job: its operations on the manager, and the results cached if it is still completed. */
  function AfterProcess(cfg: Config, s: System, id: string, clock: Clock, run: Run): System
    requires id in s.mgr.jobs
  {
    var job := s.mgr.jobs[id];
    var n := ChunkCount(job);
    s.(mgr := ApplyAll(s.mgr, ProcessOps(job, id, clock, run)),
       cache := if FinalStatus(job, clock, run) == Completed
                then Write(s.cache, id, Collected(run, n), clock(CacheAt(n)), cfg.ttl, cfg.maxCacheSize) else s.cache)
  }

  function QueuedIn(s: System, p: Priority): nat
  {
    if p in s.lanes then |s.lanes[p].queue| else 0
  }

  /** `queue_status["total"]` */
  function TotalQueued(s: System): nat
  {
    QueuedIn(s, High) + QueuedIn(s, Medium) + QueuedIn(s, Low)
  }

  /** The worker lets go of the job it holds, which nothing else keeps waiting. */
  function Released(s: System, p: Priority): System
    requires p in s.lanes
  {
    s.(lanes := s.lanes[p := s.lanes[p].(hand := None)])
  }

  /** The state after a worker let go of its job and checked whether it is still valid. */
  function Checked(s: System, p: Priority, now: real): System
    requires p in s.lanes && s.lanes[p].hand.Some? && s.lanes[p].hand.value in s.mgr.jobs
  {
    Released(s, p).(mgr := Validate(s.mgr, s.lanes[p].hand.value, now))
  }

  predicate IsCompleted(m: Manager, id: string)
  {
    id in m.jobs && m.jobs[id].status == Completed
  }

  /** The looks `get_job_results` takes at the job: a hit on a job not completed takes a second one. */
  function AfterRead(m: Manager, id: string, hit: bool, now: real, again: real): Manager
  {
    var once := Get(m, id, now);
    if hit && !IsCompleted(once, id) then Get(once, id, again) else once
  }

  predicate Enabled(s: System, step: Step)
  {
    match step
    case Submit(id, _, p, _, _, _) => id !in s.mgr.jobs && p in s.lanes
    case Dequeue(p) => p in s.lanes && s.lanes[p].queue != [] && s.lanes[p].hand == None
    case Process(p, _, _) => p in s.lanes && s.lanes[p].hand.Some? && s.lanes[p].hand.value in s.mgr.jobs
    case _ => true
  }

  function Next(cfg: Config, s: System, step: Step): System
    requires Enabled(s, step)
  {
    match step
    case Submit(id, texts, p, maxBatchSize, timeout, now) =>
      if Sanitize(texts) == [] then s
      else AfterSubmit(cfg, s, id, NewJob(Sanitize(texts), p, AtLeastOne(maxBatchSize, cfg.defaultBatchSize),
                                          AtLeastOne(timeout, cfg.defaultTimeout), now))
    case Dequeue(p) => s.(lanes := s.lanes[p := Popped(s.lanes[p])])
    case Process(p, clock, run) =>
      var id := s.lanes[p].hand.value;
      if IsValid(s.mgr.jobs[id], clock(0)) then AfterProcess(cfg, Checked(s, p, clock(0)), id, clock, run)
      else Checked(s, p, clock(0))
    case ReadStatus(id, now) => s.(mgr := Get(s.mgr, id, now))
    case ReadResults(id, asked, now, again) =>
      s.(mgr := AfterRead(s.mgr, id, Lookup(s.cache, id, asked, cfg.ttl).Some?, now, again),
         cache := AfterLookup(s.cache, id, asked, cfg.ttl))
    case CancelJob(id, now) => s.(mgr := Cancel(s.mgr, id, now))
    case SweepJobs(jobClock) => s.(mgr := Sweep(s.mgr, jobClock))
    case ReadCounters => s.(mgr := ReadMetrics(s.mgr, TotalQueued(s)))
    case ClearCache => s.(cache := EMPTY_CACHE)
  }

  ghost predicate Reaches(cfg: Config, s: System, steps: seq<Step>, t: System)
    decreases |steps|
  {
    if steps == [] then s == t
    else Enabled(s, steps[0]) && Reaches(cfg, Next(cfg, s, steps[0]), steps[1..], t)
  }

  // ---------------------------------------------------------------- what a client reads

  /** `get_job_results` without its first half. */
  function AnswerFromJob(s: System, id: string, now: real, page: int, size: int): Option<Page>
  {
    AnswerFrom(Get(s.mgr, id, now), id, page, size)
  }

  function AnswerFrom(m: Manager, id: string, page: int, size: int): Option<Page>
  {
    if IsCompleted(m, id) && m.jobs[id].results.Some? then Some(Paginate(m.jobs[id].results.value, page, size))
    else None
  }

  /**
    `get_job_results`: the payload cached at `asked`, if there is one and the job is completed at `now`; else
    the job's own results, for which a hit has the job looked at `again`.
   */
  function Answer(cfg: Config, s: System, id: string, asked: real, now: real, again: real,
                  page: int, size: int): Option<Page>
  {
    var cached, m := Lookup(s.cache, id, asked, cfg.ttl), Get(s.mgr, id, now);
    if cached.None? then AnswerFrom(m, id, page, size)
    else if IsCompleted(m, id) then Some(Paginate(cached.value, page, size))
    else AnswerFrom(Get(m, id, again), id, page, size)
  }

  // ---------------------------------------------------------------- invariants

  /** History of one lane: first in, first out, each id once, and only jobs of this priority. */
  ghost predicate LaneOk(cfg: Config, p: Priority, lane: Lane, jobs: map<string, Job>)
  {
    && lane.enqueued == lane.handed + lane.queue
    && NoDuplicates(lane.enqueued)
    && (cfg.limit(p) > 0 ==> |lane.queue| <= cfg.limit(p))
    && (lane.hand.Some? ==> lane.handed != [] && lane.hand.value == lane.handed[|lane.handed| - 1])
    && forall id :: id in lane.enqueued ==> id in jobs && jobs[id].priority == p
  }

  /** A job waits in its lane: queued, or taken and not yet looked at. */
  predicate Waits(lane: Lane, id: string)
  {
    id in lane.queue || lane.hand == Some(id)
  }

  /** A job that waits has no results, and one that does not wait is no longer pending. */
  ghost predicate JobOk(s: System, id: string)
    requires id in s.mgr.jobs
  {
    var job := s.mgr.jobs[id];
    && job.priority in s.lanes
    && (job.status == Pending ==> Waits(s.lanes[job.priority], id))
    && (Waits(s.lanes[job.priority], id) ==> job.results == None && (job.status == Pending || IsClosed(job)))
    && (job.status == Completed ==> job.results.Some?)
    && (id !in s.lanes[job.priority].enqueued ==> job.status == Failed || job.status == Expired)
    && job.status != Processing
    && Workable(job)
  }

  /** What submission makes sure of. */
  predicate Workable(job: Job)
  {
    job.texts != [] && job.timeoutSeconds >= 1
  }

  ghost predicate LanesOk(cfg: Config, s: System)
  {
    s.lanes.Keys == {High, Medium, Low} && forall p :: p in s.lanes ==> LaneOk(cfg, p, s.lanes[p], s.mgr.jobs)
  }

  ghost predicate JobsOk(s: System)
  {
    forall id :: id in s.mgr.jobs ==> JobOk(s, id)
  }

  /** Whatever is cached for a job is what the job holds. */
  ghost predicate CacheOk(s: System)
  {
    forall id :: id in s.cache.entries ==>
      id in s.mgr.jobs && s.mgr.jobs[id].results == Some(s.cache.entries[id].results)
  }

  ghost predicate Inv(cfg: Config, s: System)
  {
    LanesOk(cfg, s) && JobsOk(s) && CacheOk(s)
  }

  // ---------------------------------------------------------------- steps that only close jobs

  /** `m'` differs from `m` only in jobs that became cancelled or expired. */
  ghost predicate OnlyCloses(m: Manager, m': Manager)
  {
    && m'.jobs.Keys == m.jobs.Keys
    && forall id :: id in m.jobs ==> Closes(m.jobs[id], m'.jobs[id])
  }

  predicate Closes(a: Job, b: Job)
  {
    && b.texts == a.texts && b.timeoutSeconds == a.timeoutSeconds && b.priority == a.priority && b.results == a.results
    && (b.status == a.status || IsClosed(b))
    && (b.status == Cancelled ==> a.status == Cancelled || a.status == Pending || a.status == Processing)
  }

  lemma ClosingKeepsInv(cfg: Config, s: System, m': Manager)
    requires Inv(cfg, s) && OnlyCloses(s.mgr, m')
    ensures Inv(cfg, s.(mgr := m'))
  {
    var s' := s.(mgr := m');
    forall id | id in s'.mgr.jobs
      ensures JobOk(s', id)
    {
      assert JobOk(s, id);
    }
    forall p | p in s'.lanes
      ensures LaneOk(cfg, p, s'.lanes[p], s'.mgr.jobs)
    {
      assert LaneOk(cfg, p, s.lanes[p], s.mgr.jobs);
    }
  }

  lemma ClosingOne(m: Manager, id: string, m': Manager)
    requires m'.jobs == m.jobs ||
      (id in m.jobs && id in m'.jobs && m'.jobs == m.jobs[id := m'.jobs[id]] && Closes(m.jobs[id], m'.jobs[id]))
    ensures OnlyCloses(m, m')
  {
  }

  lemma ClosingMany(m: Manager, jobClock: JobClock)
    ensures OnlyCloses(m, Sweep(m, jobClock))
  {
  }

  lemma ClosingSteps(m: Manager, id: string, now: real)
    ensures OnlyCloses(m, Get(m, id, now)) && OnlyCloses(m, Cancel(m, id, now))
    ensures id in m.jobs ==> OnlyCloses(m, Validate(m, id, now))
  {
    ClosingOne(m, id, Get(m, id, now));
    ClosingOne(m, id, Cancel(m, id, now));
    if id in m.jobs {
      ClosingOne(m, id, Validate(m, id, now));
    }
  }

  lemma ClosingTwice(m: Manager, m': Manager, m'': Manager)
    requires OnlyCloses(m, m') && OnlyCloses(m', m'')
    ensures OnlyCloses(m, m'')
  {
    forall id | id in m.jobs
      ensures Closes(m.jobs[id], m''.jobs[id])
    {
      assert Closes(m.jobs[id], m'.jobs[id]) && Closes(m'.jobs[id], m''.jobs[id]);
    }
  }

  lemma ReadCloses(m: Manager, id: string, hit: bool, now: real, again: real)
    ensures OnlyCloses(m, AfterRead(m, id, hit, now, again))
  {
    var once := Get(m, id, now);
    ClosingSteps(m, id, now);
    ClosingSteps(once, id, again);
    ClosingTwice(m, once, Get(once, id, again));
  }

  // ---------------------------------------------------------------- submission

  /** The job `submit_batch_job` leaves behind. */
  lemma SubmittedJob(cfg: Config, s: System, id: string, job: Job)
    requires job.priority in s.lanes && id !in s.mgr.jobs && job.status == Pending
    ensures var s' := AfterSubmit(cfg, s, id, job);
      var failed := Updated(job, SetStatus(Failed).(error := Some(QueueFull(job.priority))));
      && s'.cache == s.cache
      && if IsFull(s.lanes[job.priority], cfg.limit(job.priority))
         then s'.mgr.jobs == s.mgr.jobs[id := failed] && s'.lanes == s.lanes
         else s'.mgr.jobs == s.mgr.jobs[id := job] &&
              s'.lanes == s.lanes[job.priority := Enqueued(s.lanes[job.priority], id)]
  {
    assert s.mgr.jobs[id := job][id := Updated(job, SetStatus(Failed).(error := Some(QueueFull(job.priority))))]
        == s.mgr.jobs[id := Updated(job, SetStatus(Failed).(error := Some(QueueFull(job.priority))))];
  }

  lemma SubmitKeepsLanes(cfg: Config, s: System, id: string, job: Job)
    requires LanesOk(cfg, s) && job.priority in s.lanes && id !in s.mgr.jobs && job.status == Pending
    ensures LanesOk(cfg, AfterSubmit(cfg, s, id, job))
  {
    SubmittedJob(cfg, s, id, job);
    var s' := AfterSubmit(cfg, s, id, job);
    forall p | p in s'.lanes
      ensures LaneOk(cfg, p, s'.lanes[p], s'.mgr.jobs)
    {
      assert LaneOk(cfg, p, s.lanes[p], s.mgr.jobs);
    }
  }

  lemma SubmitKeepsJobs(cfg: Config, s: System, id: string, job: Job)
    requires Inv(cfg, s) && job.priority in s.lanes && id !in s.mgr.jobs
    requires job.status == Pending && job.results == None && Workable(job)
    ensures JobsOk(AfterSubmit(cfg, s, id, job)) && CacheOk(AfterSubmit(cfg, s, id, job))
  {
    SubmittedJob(cfg, s, id, job);
    var s' := AfterSubmit(cfg, s, id, job);
    forall k | k in s'.mgr.jobs
      ensures JobOk(s', k)
    {
      if k == id {
        assert LaneOk(cfg, job.priority, s.lanes[job.priority], s.mgr.jobs);
        NotEnqueuedDoesNotWait(cfg, job.priority, s.lanes[job.priority], s.mgr.jobs, id);
      } else {
        assert JobOk(s, k);
      }
    }
  }

  /** An id that never entered the queue is neither queued nor held. */
  lemma NotEnqueuedDoesNotWait(cfg: Config, p: Priority, lane: Lane, jobs: map<string, Job>, id: string)
    requires LaneOk(cfg, p, lane, jobs) && id !in lane.enqueued
    ensures !Waits(lane, id)
  {
    assert forall x :: x in lane.queue ==> x in lane.enqueued;
    assert forall x :: x in lane.handed ==> x in lane.enqueued;
  }

  // ---------------------------------------------------------------- the worker

  lemma PoppedLane(cfg: Config, p: Priority, lane: Lane, jobs: map<string, Job>)
    requires LaneOk(cfg, p, lane, jobs) && lane.queue != [] && lane.hand == None
    ensures LaneOk(cfg, p, Popped(lane), jobs)
    ensures forall id :: Waits(Popped(lane), id) <==> Waits(lane, id)
  {
    assert lane.queue == [lane.queue[0]] + lane.queue[1..];
    assert lane.enqueued == (lane.handed + [lane.queue[0]]) + lane.queue[1..];
    assert forall id :: id in lane.queue <==> id == lane.queue[0] || id in lane.queue[1..];
  }

  /** Jobs see of a lane only who waits in it and who ever entered it. */
  lemma LaneSwapKeepsJob(s: System, p: Priority, lane: Lane, id: string)
    requires p in s.lanes && id in s.mgr.jobs && JobOk(s, id)
    requires lane.enqueued == s.lanes[p].enqueued && (Waits(lane, id) <==> Waits(s.lanes[p], id))
    ensures JobOk(s.(lanes := s.lanes[p := lane]), id)
  {
  }

  lemma DequeueKeepsInv(cfg: Config, s: System, p: Priority)
    requires Inv(cfg, s) && Enabled(s, Dequeue(p))
    ensures Inv(cfg, Next(cfg, s, Dequeue(p)))
  {
    var s' := Next(cfg, s, Dequeue(p));
    assert LaneOk(cfg, p, s.lanes[p], s.mgr.jobs);
    PoppedLane(cfg, p, s.lanes[p], s.mgr.jobs);
    forall q | q in s'.lanes
      ensures LaneOk(cfg, q, s'.lanes[q], s'.mgr.jobs)
    {
      assert LaneOk(cfg, q, s.lanes[q], s.mgr.jobs);
    }
    forall id | id in s'.mgr.jobs
      ensures JobOk(s', id)
    {
      LaneSwapKeepsJob(s, p, Popped(s.lanes[p]), id);
    }
  }

  lemma HeldIsNotQueued(cfg: Config, p: Priority, lane: Lane, jobs: map<string, Job>)
    requires LaneOk(cfg, p, lane, jobs) && lane.hand.Some?
    ensures lane.hand.value !in lane.queue && lane.hand.value in lane.enqueued
  {
    var h := |lane.handed| - 1;
    assert lane.enqueued[h] == lane.hand.value;
    assert forall i :: 0 <= i < |lane.queue| ==> lane.queue[i] == lane.enqueued[h + 1 + i];
  }

  lemma FinishKeepsLanes(cfg: Config, s: System, p: Priority, m: Manager, job: Job)
    requires LanesOk(cfg, s) && p in s.lanes && s.lanes[p].hand.Some? && s.lanes[p].hand.value in s.mgr.jobs
    requires m.jobs == s.mgr.jobs[s.lanes[p].hand.value := job]
    requires job.priority == s.mgr.jobs[s.lanes[p].hand.value].priority
    ensures LanesOk(cfg, Released(s, p).(mgr := m))
  {
    forall q | q in s.lanes
      ensures LaneOk(cfg, q, Released(s, p).lanes[q], m.jobs)
    {
      assert LaneOk(cfg, q, s.lanes[q], s.mgr.jobs);
    }
  }

  lemma FinishKeepsJob(s: System, p: Priority, m: Manager, job: Job, k: string)
    requires p in s.lanes && s.lanes[p].hand.Some? && s.lanes[p].hand.value in s.mgr.jobs
    requires m.jobs == s.mgr.jobs[s.lanes[p].hand.value := job] && job.priority == p
    requires s.lanes[p].hand.value !in s.lanes[p].queue && s.lanes[p].hand.value in s.lanes[p].enqueued
    requires job.status == Completed || job.status == Failed || IsClosed(job)
    requires Workable(job) && (job.status == Completed ==> job.results.Some?)
    requires k in s.mgr.jobs && JobOk(s, k)
    ensures JobOk(Released(s, p).(mgr := m), k)
  {
  }

  /** A cache holds what another held for other ids, and for `id`, if anything, these results. */
  ghost predicate AddsOnly(before: Cache, after: Cache, id: string, results: Option<seq<Prediction>>)
  {
    forall k :: k in after.entries ==>
      (k in before.entries && k != id && after.entries[k] == before.entries[k]) ||
      (k == id && results == Some(after.entries[k].results))
  }

  /**
    After the worker released the job it held and gave it a final state, the invariant holds again, whatever
    that state is among the four the processing can produce.
   */
  lemma FinishKeepsInv(cfg: Config, s: System, p: Priority, m: Manager, job: Job, cache: Cache)
    requires Inv(cfg, s) && p in s.lanes && s.lanes[p].hand.Some?
    requires s.lanes[p].hand.value in s.mgr.jobs && s.mgr.jobs[s.lanes[p].hand.value].priority == job.priority == p
    requires m.jobs == s.mgr.jobs[s.lanes[p].hand.value := job]
    requires job.status == Completed || job.status == Failed || IsClosed(job)
    requires Workable(job) && (job.status == Completed ==> job.results.Some?)
    requires AddsOnly(s.cache, cache, s.lanes[p].hand.value, job.results)
    ensures Inv(cfg, Released(s, p).(mgr := m, cache := cache))
  {
    var s', s'' := Released(s, p).(mgr := m), Released(s, p).(mgr := m, cache := cache);
    FinishKeepsLanes(cfg, s, p, m, job);
    assert LaneOk(cfg, p, s.lanes[p], s.mgr.jobs);
    HeldIsNotQueued(cfg, p, s.lanes[p], s.mgr.jobs);
    forall k | k in s''.mgr.jobs
      ensures JobOk(s'', k)
    {
      assert JobOk(s, k);
      FinishKeepsJob(s, p, m, job, k);
      assert JobOk(s', k);
    }
  }

  /** What the worker finds in its hand: a job of its own priority, without results and not in the cache. */
  lemma HeldJob(cfg: Config, s: System, p: Priority)
    requires Inv(cfg, s) && p in s.lanes && s.lanes[p].hand.Some?
    ensures var id := s.lanes[p].hand.value;
      && id in s.mgr.jobs && s.mgr.jobs[id].priority == p && s.mgr.jobs[id].results == None
      && id !in s.cache.entries && Workable(s.mgr.jobs[id])
      && (s.mgr.jobs[id].status == Pending || IsClosed(s.mgr.jobs[id]))
  {
    HeldIsNotQueued(cfg, p, s.lanes[p], s.mgr.jobs);
    assert JobOk(s, s.lanes[p].hand.value);
  }

  lemma WriteAddsOnly(c: Cache, id: string, results: seq<Prediction>, now: real, ttl: real, maxSize: int)
    requires id !in c.entries
    ensures AddsOnly(c, Write(c, id, results, now, ttl, maxSize), id, Some(results))
  {
  }

  /** The job after its worker looked at it: untouched if closed, expired if too late, processed otherwise. */
  function LookedAt(job: Job, id: string, clock: Clock, run: Run): Job
  {
    if IsValid(job, clock(0)) then FinalJob(job, id, clock, run)
    else if IsClosed(job) then job
    else Expire(job, clock(0))
  }

  lemma ProcessedJobs(cfg: Config, s: System, p: Priority, clock: Clock, run: Run)
    requires Enabled(s, Process(p, clock, run))
    ensures var id := s.lanes[p].hand.value;
      Next(cfg, s, Process(p, clock, run)).mgr.jobs == s.mgr.jobs[id := LookedAt(s.mgr.jobs[id], id, clock, run)]
  {
    var id := s.lanes[p].hand.value;
    if IsValid(s.mgr.jobs[id], clock(0)) {
      ProcessOpsConcern(s.mgr.jobs[id], id, clock, run);
      ApplyAllTouchesOne(s.mgr, id, ProcessOps(s.mgr.jobs[id], id, clock, run));
    }
  }

  /** What a look makes of a job without results. */
  lemma LookedAtIs(job: Job, id: string, clock: Clock, run: Run)
    requires job.results == None && (job.status == Pending || IsClosed(job))
    ensures var f := LookedAt(job, id, clock, run);
      && SameTask(job, f)
      && (f.status == Completed || f.status == Failed || IsClosed(f))
      && (f.status == Completed ==> f.results.Some?)
      && (f.results.Some? ==> f.results.value == Collected(run, ChunkCount(job)))
  {
    FinalJobIs(job, id, clock, run);
  }

  lemma CacheAfter(cfg: Config, s: System, p: Priority, clock: Clock, run: Run)
    requires Enabled(s, Process(p, clock, run))
    ensures var id := s.lanes[p].hand.value;
      var job := s.mgr.jobs[id];
      var n := ChunkCount(job);
      Next(cfg, s, Process(p, clock, run)).cache ==
        if IsValid(job, clock(0)) && FinalStatus(job, clock, run) == Completed
        then Write(s.cache, id, Collected(run, n), clock(CacheAt(n)), cfg.ttl, cfg.maxCacheSize) else s.cache
  {
    hide Write, ApplyAll, ProcessOps, FinalStatus, Collected, ChunkCount;
  }

  lemma CompletedResults(job: Job, id: string, clock: Clock, run: Run)
    requires IsValid(job, clock(0)) && FinalStatus(job, clock, run) == Completed
    ensures LookedAt(job, id, clock, run).results == Some(Collected(run, ChunkCount(job)))
  {
    hide FinalJob, Collected, ChunkCount, Stop;
    FinalJobIs(job, id, clock, run);
  }

  /** Only a completed job's results enter the cache. */
  lemma ProcessedCache(cfg: Config, s: System, p: Priority, clock: Clock, run: Run)
    requires Enabled(s, Process(p, clock, run)) && s.lanes[p].hand.value !in s.cache.entries
    ensures AddsOnly(s.cache, Next(cfg, s, Process(p, clock, run)).cache, s.lanes[p].hand.value,
                     LookedAt(s.mgr.jobs[s.lanes[p].hand.value], s.lanes[p].hand.value, clock, run).results)
  {
    var id := s.lanes[p].hand.value;
    var job := s.mgr.jobs[id];
    var n := ChunkCount(job);
    hide Write, Next, LookedAt, FinalStatus, Collected, ChunkCount;
    CacheAfter(cfg, s, p, clock, run);
    if IsValid(job, clock(0)) && FinalStatus(job, clock, run) == Completed {
      CompletedResults(job, id, clock, run);
      WriteAddsOnly(s.cache, id, Collected(run, n), clock(CacheAt(n)), cfg.ttl, cfg.maxCacheSize);
    }
  }

  lemma ProcessedShape(cfg: Config, s: System, p: Priority, clock: Clock, run: Run)
    requires Enabled(s, Process(p, clock, run))
    ensures var s' := Next(cfg, s, Process(p, clock, run)); s' == Released(s, p).(mgr := s'.mgr, cache := s'.cache)
  {
  }

  lemma ProcessKeepsInv(cfg: Config, s: System, p: Priority, clock: Clock, run: Run)
    requires Inv(cfg, s) && Enabled(s, Process(p, clock, run))
    ensures Inv(cfg, Next(cfg, s, Process(p, clock, run)))
  {
    var id, s' := s.lanes[p].hand.value, Next(cfg, s, Process(p, clock, run));
    HeldJob(cfg, s, p);
    ProcessedJobs(cfg, s, p, clock, run);
    LookedAtIs(s.mgr.jobs[id], id, clock, run);
    ProcessedCache(cfg, s, p, clock, run);
    ProcessedShape(cfg, s, p, clock, run);
    FinishKeepsInv(cfg, s, p, s'.mgr, LookedAt(s.mgr.jobs[id], id, clock, run), s'.cache);
  }

  // ---------------------------------------------------------------- runs

  lemma LookupKeepsInv(cfg: Config, s: System, id: string, now: real)
    requires Inv(cfg, s)
    ensures Inv(cfg, s.(cache := AfterLookup(s.cache, id, now, cfg.ttl)))
  {
    var s' := s.(cache := AfterLookup(s.cache, id, now, cfg.ttl));
    forall k | k in s'.mgr.jobs
      ensures JobOk(s', k)
    {
      assert JobOk(s, k);
    }
  }

  lemma ClearKeepsInv(cfg: Config, s: System)
    requires Inv(cfg, s)
    ensures Inv(cfg, s.(cache := EMPTY_CACHE))
  {
    forall id | id in s.mgr.jobs
      ensures JobOk(s.(cache := EMPTY_CACHE), id)
    {
      assert JobOk(s, id);
    }
  }

  /** Every step of every client, worker and background task keeps the invariant. */
  lemma StepKeepsInv(cfg: Config, s: System, step: Step)
    requires Inv(cfg, s) && Enabled(s, step)
    ensures Inv(cfg, Next(cfg, s, step))
  {
    match step {
      case Submit(id, texts, p, maxBatchSize, timeout, now) =>
        if Sanitize(texts) != [] {
          var job := NewJob(Sanitize(texts), p, AtLeastOne(maxBatchSize, cfg.defaultBatchSize),
                            AtLeastOne(timeout, cfg.defaultTimeout), now);
          SubmitKeepsLanes(cfg, s, id, job);
          SubmitKeepsJobs(cfg, s, id, job);
        }
      case Dequeue(p) => DequeueKeepsInv(cfg, s, p);
      case Process(p, clock, run) => ProcessKeepsInv(cfg, s, p, clock, run);
      case ReadStatus(id, now) =>
        ClosingSteps(s.mgr, id, now);
        ClosingKeepsInv(cfg, s, Get(s.mgr, id, now));
      case ReadResults(id, asked, now, again) =>
        var m := AfterRead(s.mgr, id, Lookup(s.cache, id, asked, cfg.ttl).Some?, now, again);
        ReadCloses(s.mgr, id, Lookup(s.cache, id, asked, cfg.ttl).Some?, now, again);
        ClosingKeepsInv(cfg, s, m);
        LookupKeepsInv(cfg, s.(mgr := m), id, asked);
      case CancelJob(id, now) =>
        ClosingSteps(s.mgr, id, now);
        ClosingKeepsInv(cfg, s, Cancel(s.mgr, id, now));
      case SweepJobs(jobClock) =>
        ClosingMany(s.mgr, jobClock);
        ClosingKeepsInv(cfg, s, Sweep(s.mgr, jobClock));
      case ReadCounters =>
        ClosingOne(s.mgr, "", ReadMetrics(s.mgr, TotalQueued(s)));
        ClosingKeepsInv(cfg, s, ReadMetrics(s.mgr, TotalQueued(s)));
      case ClearCache => ClearKeepsInv(cfg, s);
    }
  }

  lemma {:induction false} RunKeepsInv(cfg: Config, s: System, steps: seq<Step>, t: System)
    requires Inv(cfg, s) && Reaches(cfg, s, steps, t)
    ensures Inv(cfg, t)
    decreases |steps|
  {
    if steps != [] {
      StepKeepsInv(cfg, s, steps[0]);
      RunKeepsInv(cfg, Next(cfg, s, steps[0]), steps[1..], t);
    }
  }
}
