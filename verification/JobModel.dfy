/** Batch jobs, the manager's operations on them as functions of its state, and its counters' ledger. */
module JobModel {
  import opened Basics

  datatype Status = Pending | Processing | Completed | Failed | Cancelled | Expired

  datatype Priority = High | Medium | Low

  datatype Job = Job(
    texts: seq<string>,
    priority: Priority,
    status: Status,
    results: Option<seq<Prediction>>,
    createdAt: real,
    startedAt: Option<real>,
    completedAt: Option<real>,
    error: Option<string>,
    progress: real,
    processedCount: nat,
    failedCount: nat,
    maxBatchSize: int,
    timeoutSeconds: int)

  datatype Manager = Manager(
    jobs: map<string, Job>,
    totalJobs: int,
    activeJobs: int,
    completedJobs: int,
    failedJobs: int,
    queueSize: int)

  const NO_JOBS: Manager := Manager(map[], 0, 0, 0, 0, 0)

  const TIMEOUT_ERROR := "Job expired due to timeout"
  const CANCEL_ERROR := "Job cancelled by user"

  // ---------------------------------------------------------------- operations

  /** Python's `value or default`, then at least one. */
  function AtLeastOne(value: Option<int>, default: int): int
  {
    Max(1, if value.Some? && value.value != 0 then value.value else default)
  }

  function NewJob(texts: seq<string>, priority: Priority, maxBatchSize: int, timeoutSeconds: int, now: real): Job
  {
    Job(texts, priority, Pending, None, now, None, None, None, 0.0, 0, 0, maxBatchSize, timeoutSeconds)
  }

  function Store(m: Manager, id: string, job: Job): Manager
  {
    m.(jobs := m.jobs[id := job],
       totalJobs := m.totalJobs + 1, activeJobs := m.activeJobs + 1, queueSize := m.queueSize + 1)
  }

  predicate IsExpired(job: Job, now: real)
  {
    now - job.createdAt > job.timeoutSeconds as real
  }

  function Expire(job: Job, now: real): Job
  {
    job.(status := Expired, error := Some(TIMEOUT_ERROR), completedAt := Some(now))
  }

  /** The lazy expiry shared by `get_job` and `is_job_valid`. */
  function ExpireLazily(m: Manager, id: string, now: real): Manager
    requires id in m.jobs
  {
    var was := m.jobs[id].status;
    m.(jobs := m.jobs[id := Expire(m.jobs[id], now)],
       queueSize := m.queueSize - (if was == Pending then 1 else 0),
       activeJobs := m.activeJobs - (if was == Pending || was == Processing then 1 else 0),
       failedJobs := m.failedJobs + 1)
  }

  function Get(m: Manager, id: string, now: real): Manager
  {
    if id in m.jobs && IsExpired(m.jobs[id], now) && m.jobs[id].status != Expired then ExpireLazily(m, id, now) else m
  }

  predicate IsClosed(job: Job) { job.status == Cancelled || job.status == Expired }

  predicate IsValid(job: Job, now: real) { !IsClosed(job) && !IsExpired(job, now) }

  function Validate(m: Manager, id: string, now: real): Manager
    requires id in m.jobs
  {
    if !IsClosed(m.jobs[id]) && IsExpired(m.jobs[id], now) then ExpireLazily(m, id, now) else m
  }

  predicate Cancellable(m: Manager, id: string)
  {
    id in m.jobs && (m.jobs[id].status == Pending || m.jobs[id].status == Processing)
  }

  function Cancel(m: Manager, id: string, now: real): Manager
  {
    if !Cancellable(m, id) then m else
    m.(jobs := m.jobs[id := m.jobs[id].(status := Cancelled, error := Some(CANCEL_ERROR), completedAt := Some(now))],
       activeJobs := m.activeJobs - 1,
       queueSize := m.queueSize - (if m.jobs[id].status == Pending then 1 else 0))
  }

  /** The optional fields of `update_job_status`. */
  datatype Update = Update(
    status: Status,
    error: Option<string>,
    results: Option<seq<Prediction>>,
    startedAt: Option<real>,
    completedAt: Option<real>,
    progress: Option<real>,
    processedCount: Option<nat>,
    failedCount: Option<nat>)

  /** An update of the status alone. */
  function SetStatus(status: Status): Update
  {
    Update(status, None, None, None, None, None, None, None)
  }

  function OrElse<T>(value: Option<T>, default: T): T
  {
    if value.Some? then value.value else default
  }

  function Updated(job: Job, u: Update): Job
  {
    job.(status := u.status,
         error := if u.error.Some? then u.error else job.error,
         results := if u.results.Some? then u.results else job.results,
         startedAt := if u.startedAt.Some? then u.startedAt else job.startedAt,
         completedAt := if u.completedAt.Some? then u.completedAt else job.completedAt,
         progress := OrElse(u.progress, job.progress),
         processedCount := OrElse(u.processedCount, job.processedCount),
         failedCount := OrElse(u.failedCount, job.failedCount))
  }

  function UpdateStatus(m: Manager, id: string, u: Update): Manager
  {
    if id !in m.jobs then m else
    var was := m.jobs[id].status;
    var m' := m.(jobs := m.jobs[id := Updated(m.jobs[id], u)]);
    if was == Pending && u.status == Processing then m'.(queueSize := m.queueSize - 1)
    else if u.status == Completed then
      if was == Cancelled then m' else m'.(activeJobs := m.activeJobs - 1, completedJobs := m.completedJobs + 1)
    else if u.status == Failed then
      if was == Cancelled then m'
      else m'.(activeJobs := m.activeJobs - 1, failedJobs := m.failedJobs + 1,
               queueSize := m.queueSize - (if was == Pending then 1 else 0))
    else if u.status == Cancelled && was == Pending then
      m'.(activeJobs := m.activeJobs - 1, queueSize := m.queueSize - 1)
    else m'
  }

  /** What the background sweep picks: cancelled jobs are picked again. */
  predicate Sweepable(job: Job, now: real)
  {
    IsExpired(job, now) && job.status != Completed && job.status != Failed && job.status != Expired
  }

  /** The sweep reads the clock for each job. */
  type JobClock = string -> real

  function SweptIds(jobs: map<string, Job>, clock: JobClock): set<string>
  {
    set id | id in jobs && Sweepable(jobs[id], clock(id))
  }

  function ExpireAll(jobs: map<string, Job>, ids: set<string>, clock: JobClock): map<string, Job>
  {
    map id | id in jobs :: if id in ids then Expire(jobs[id], clock(id)) else jobs[id]
  }

  function Sweep(m: Manager, clock: JobClock): Manager
  {
    var ids := SweptIds(m.jobs, clock);
    m.(jobs := ExpireAll(m.jobs, ids, clock), activeJobs := m.activeJobs - |ids|, failedJobs := m.failedJobs + |ids|)
  }

  // ---------------------------------------------------------------- what the operations do to jobs

  function Deadline(job: Job): real { job.createdAt + job.timeoutSeconds as real }

  /** The job was expired at `now`, and nothing else about it has changed. */
  predicate ExpiredAt(a: Job, b: Job, now: real)
  {
    b == a.(status := Expired, error := Some(TIMEOUT_ERROR), completedAt := Some(now))
  }

  /** Only job `id` may differ. */
  ghost predicate OthersKept(m: Manager, m': Manager, id: string)
  {
    m'.jobs.Keys == m.jobs.Keys && forall k :: k in m.jobs && k != id ==> m'.jobs[k] == m.jobs[k]
  }

  /** A look expires a job exactly if it comes after the deadline and the job is not expired already. */
  lemma LookExpires(m: Manager, id: string, now: real)
    requires id in m.jobs
    ensures OthersKept(m, Get(m, id, now), id)
    ensures var job, after := m.jobs[id], Get(m, id, now).jobs[id];
      if now > Deadline(job) && job.status != Expired then ExpiredAt(job, after, now) else after == job
  {
  }

  /** So does the check for validity, which leaves cancelled jobs alone; valid are those not closed and in time. */
  lemma CheckExpires(m: Manager, id: string, now: real)
    requires id in m.jobs
    ensures OthersKept(m, Validate(m, id, now), id)
    ensures var job, after := m.jobs[id], Validate(m, id, now).jobs[id];
      if now > Deadline(job) && job.status != Expired && job.status != Cancelled then ExpiredAt(job, after, now)
      else after == job
    ensures IsValid(m.jobs[id], now) <==>
      m.jobs[id].status != Expired && m.jobs[id].status != Cancelled && now <= Deadline(m.jobs[id])
  {
  }

  /** A cancellation reaches pending and processing jobs, and changes nothing else. */
  lemma CancelCancels(m: Manager, id: string, now: real)
    ensures OthersKept(m, Cancel(m, id, now), id)
    ensures id in m.jobs ==>
      var job, after := m.jobs[id], Cancel(m, id, now).jobs[id];
      if job.status == Pending || job.status == Processing
      then after == job.(status := Cancelled, error := Some(CANCEL_ERROR), completedAt := Some(now))
      else after == job
  {
  }

  /** The sweep expires exactly the pending, processing and cancelled jobs whose deadline has passed. */
  lemma SweepExpires(m: Manager, clock: JobClock, id: string)
    requires id in m.jobs
    ensures Sweep(m, clock).jobs.Keys == m.jobs.Keys
    ensures var job, after := m.jobs[id], Sweep(m, clock).jobs[id];
      if clock(id) > Deadline(job) && (job.status == Pending || job.status == Processing || job.status == Cancelled)
      then ExpiredAt(job, after, clock(id)) else after == job
  {
  }

  /** An update writes the status and the fields it is given, and leaves the others. */
  lemma UpdateWrites(m: Manager, id: string, u: Update)
    requires id in m.jobs
    ensures OthersKept(m, UpdateStatus(m, id, u), id)
    ensures var job, after := m.jobs[id], UpdateStatus(m, id, u).jobs[id];
      && after.status == u.status
      && after.error == (if u.error.Some? then u.error else job.error)
      && after.results == (if u.results.Some? then u.results else job.results)
      && after.startedAt == (if u.startedAt.Some? then u.startedAt else job.startedAt)
      && after.completedAt == (if u.completedAt.Some? then u.completedAt else job.completedAt)
      && Some(after.progress) == (if u.progress.Some? then u.progress else Some(job.progress))
      && Some(after.processedCount) == (if u.processedCount.Some? then u.processedCount else Some(job.processedCount))
      && Some(after.failedCount) == (if u.failedCount.Some? then u.failedCount else Some(job.failedCount))
      && after == job.(status := after.status, error := after.error, results := after.results,
                       startedAt := after.startedAt, completedAt := after.completedAt, progress := after.progress,
                       processedCount := after.processedCount, failedCount := after.failedCount)
  {
  }

  /** A limit that is missing or zero is the default, a positive one is itself, and none ends below one. */
  lemma LimitIs(value: Option<int>, default: int)
    ensures value == None || value == Some(0) ==> AtLeastOne(value, default) == if default >= 1 then default else 1
    ensures value.Some? && value.value > 0 ==> AtLeastOne(value, default) == value.value
    ensures value.Some? && value.value < 0 ==> AtLeastOne(value, default) == 1
  {
  }

  /** `get_batch_metrics` overwrites the counter of the metrics it reads. */
  function ReadMetrics(m: Manager, queued: int): Manager
  {
    m.(queueSize := queued)
  }

  // ---------------------------------------------------------------- runs

  datatype Op =
    | CreateOp(id: string, job: Job)
    | GetOp(id: string, now: real)
    | ValidateOp(id: string, now: real)
    | CancelOp(id: string, now: real)
    | UpdateOp(id: string, update: Update)
    | SweepOp(clock: JobClock)
    | MetricsOp(queued: int)

  /** The moves the service makes through `update_job_status`, which itself checks nothing. */
  predicate AllowedMove(was: Status, status: Status)
  {
    match was
    case Pending => status == Processing || status == Failed
    case Processing => status == Processing || status == Completed || status == Failed || status == Expired
    case Expired => status == Expired || status == Processing || status == Completed || status == Failed
    case _ => false
  }

  predicate Allowed(m: Manager, op: Op)
  {
    match op
    case CreateOp(id, job) => id !in m.jobs && job.status == Pending
    case ValidateOp(id, _) => id in m.jobs
    case UpdateOp(id, u) => id in m.jobs ==> AllowedMove(m.jobs[id].status, u.status)
    case _ => true
  }

  function Apply(m: Manager, op: Op): Manager
  {
    match op
    case CreateOp(id, job) => Store(m, id, job)
    case GetOp(id, now) => Get(m, id, now)
    case ValidateOp(id, now) => if id in m.jobs then Validate(m, id, now) else m
    case CancelOp(id, now) => Cancel(m, id, now)
    case UpdateOp(id, u) => UpdateStatus(m, id, u)
    case SweepOp(clock) => Sweep(m, clock)
    case MetricsOp(queued) => ReadMetrics(m, queued)
  }

  /**
    How often the counters were moved differently from the jobs: pending and cancelled jobs the sweep expired,
    processing jobs `update_job_status` expired, expired jobs it made something else, completed and failed
    jobs that expired later; and by how much the last read of the metrics shifted `queue_size`.
   */
  datatype Tally = Tally(sweptPending: nat, sweptCancelled: nat, timedOut: nat, late: nat, completedExpired: nat,
                         failedExpired: nat, queueShift: int)

  const NO_TALLY: Tally := Tally(0, 0, 0, 0, 0, 0, 0)

  function IdsIn(jobs: map<string, Job>, statuses: set<Status>): set<string>
  {
    set id | id in jobs && jobs[id].status in statuses
  }

  /** How many jobs are in one of these states, and how many of those a sweep picks. */
  function NumIn(jobs: map<string, Job>, statuses: set<Status>): nat
  {
    |IdsIn(jobs, statuses)|
  }

  function SweptIn(jobs: map<string, Job>, clock: JobClock, statuses: set<Status>): nat
  {
    |SweptIds(jobs, clock) * IdsIn(jobs, statuses)|
  }

  function TallyLazy(m: Manager, t: Tally, id: string): Tally
    requires id in m.jobs
  {
    match m.jobs[id].status
    case Completed => t.(completedExpired := t.completedExpired + 1)
    case Failed => t.(failedExpired := t.failedExpired + 1)
    case _ => t
  }

  function Count(m: Manager, t: Tally, op: Op): Tally
    requires Allowed(m, op)
  {
    match op
    case GetOp(id, now) =>
      if Get(m, id, now) != m then TallyLazy(m, t, id) else t
    case ValidateOp(id, now) =>
      if Validate(m, id, now) != m then TallyLazy(m, t, id) else t
    case UpdateOp(id, u) =>
      if id !in m.jobs then t
      else if m.jobs[id].status == Processing && u.status == Expired then t.(timedOut := t.timedOut + 1)
      else if m.jobs[id].status == Expired && u.status != Expired then t.(late := t.late + 1)
      else t
    case SweepOp(clock) =>
      t.(sweptPending := t.sweptPending + SweptIn(m.jobs, clock, {Pending}),
         sweptCancelled := t.sweptCancelled + SweptIn(m.jobs, clock, {Cancelled}))
    case MetricsOp(queued) => t.(queueShift := queued - NumIn(m.jobs, {Pending}) - t.sweptPending)
    case _ => t
  }

  ghost predicate IsRun(m: Manager, t: Tally, ops: seq<Op>, m': Manager, t': Tally)
    decreases |ops|
  {
    if ops == [] then m == m' && t == t'
    else Allowed(m, ops[0]) && IsRun(Apply(m, ops[0]), Count(m, t, ops[0]), ops[1..], m', t')
  }

  /** The operations alone determine where the counters end and what is tallied. */
  lemma {:induction false} RunFixesTally(m: Manager, t: Tally, ops: seq<Op>, m': Manager, t': Tally, m'': Manager,
                                         t'': Tally)
    requires IsRun(m, t, ops, m', t') && IsRun(m, t, ops, m'', t'')
    ensures m' == m'' && t' == t''
    decreases |ops|
  {
    if ops != [] {
      RunFixesTally(Apply(m, ops[0]), Count(m, t, ops[0]), ops[1..], m', t', m'', t'');
    }
  }

  /** One operation after the other. */
  function ApplyAll(m: Manager, ops: seq<Op>): Manager
  {
    if ops == [] then m else Apply(ApplyAll(m, ops[..|ops| - 1]), ops[|ops| - 1])
  }

  lemma ApplyOneMore(m: Manager, ops: seq<Op>, op: Op)
    ensures ApplyAll(m, ops + [op]) == Apply(ApplyAll(m, ops), op)
  {
    assert (ops + [op])[..|ops|] == ops;
  }

  lemma ApplyTwo(m: Manager, a: Op, b: Op)
    ensures ApplyAll(m, [a, b]) == Apply(Apply(m, a), b)
  {
    ApplyOneMore(m, [], a);
    ApplyOneMore(m, [a], b);
    assert [] + [a] == [a] && [a] + [b] == [a, b];
  }

  lemma ApplyThree(m: Manager, a: Op, b: Op, c: Op)
    ensures ApplyAll(m, [a, b, c]) == Apply(Apply(Apply(m, a), b), c)
  {
    ApplyTwo(m, a, b);
    ApplyOneMore(m, [a, b], c);
    assert [a, b] + [c] == [a, b, c];
  }

  lemma {:induction false} ApplyInParts(m: Manager, ops: seq<Op>, more: seq<Op>)
    ensures ApplyAll(m, ops + more) == ApplyAll(ApplyAll(m, ops), more)
    decreases |more|
  {
    if more == [] {
      assert ops + more == ops;
    } else {
      var init, last := more[..|more| - 1], more[|more| - 1];
      ApplyInParts(m, ops, init);
      ApplyOneMore(m, ops + init, last);
      assert ops + more == (ops + init) + [last];
    }
  }

  lemma RunOfOne(m: Manager, t: Tally, op: Op)
    requires Allowed(m, op)
    ensures IsRun(m, t, [op], Apply(m, op), Count(m, t, op))
  {
    assert [op][1..] == [];
    assert IsRun(Apply(m, op), Count(m, t, op), [], Apply(m, op), Count(m, t, op));
  }

  lemma {:induction false} RunsCompose(m: Manager, t: Tally, ops: seq<Op>, m': Manager, t': Tally, more: seq<Op>,
                                       m'': Manager, t'': Tally)
    requires IsRun(m, t, ops, m', t') && IsRun(m', t', more, m'', t'')
    ensures IsRun(m, t, ops + more, m'', t'')
    decreases |ops|
  {
    if ops == [] {
      assert ops + more == more;
    } else {
      var next, u := Apply(m, ops[0]), Count(m, t, ops[0]);
      RunsCompose(next, u, ops[1..], m', t', more, m'', t'');
      assert (ops + more)[1..] == ops[1..] + more && (ops + more)[0] == ops[0];
    }
  }

  /** What each counter equals, exactly. */
  ghost predicate Ledger(m: Manager, t: Tally)
  {
    && m.totalJobs == |m.jobs|
    && m.activeJobs == NumIn(m.jobs, {Pending, Processing}) - t.sweptCancelled + t.timedOut - t.late
    && m.queueSize == NumIn(m.jobs, {Pending}) + t.sweptPending + t.queueShift
    && m.completedJobs == NumIn(m.jobs, {Completed}) + t.completedExpired
    && m.failedJobs == NumIn(m.jobs, {Failed, Expired}) + t.failedExpired - t.timedOut + t.late
  }

  /** Replacing one job moves each count by the difference in membership. */
  lemma ReplaceMovesCount(jobs: map<string, Job>, id: string, job: Job, statuses: set<Status>)
    ensures NumIn(jobs[id := job], statuses)
         == NumIn(jobs, statuses) - (if id in jobs && jobs[id].status in statuses then 1 else 0)
            + (if job.status in statuses then 1 else 0)
  {
    var before, after := IdsIn(jobs, statuses), IdsIn(jobs[id := job], statuses);
    assert after == if job.status in statuses then before - {id} + {id} else before - {id};
  }

  function One(b: bool): nat { if b then 1 else 0 }

  predicate IsIn(jobs: map<string, Job>, id: string, statuses: set<Status>)
  {
    id in jobs && jobs[id].status in statuses
  }

  lemma ReplaceMovesCounts(jobs: map<string, Job>, id: string, job: Job)
    ensures var jobs' := jobs[id := job];
      && |jobs'| == |jobs| + One(id !in jobs)
      && NumIn(jobs', {Pending, Processing}) == NumIn(jobs, {Pending, Processing})
           - One(IsIn(jobs, id, {Pending, Processing})) + One(job.status == Pending || job.status == Processing)
      && NumIn(jobs', {Pending}) == NumIn(jobs, {Pending}) - One(IsIn(jobs, id, {Pending})) + One(job.status == Pending)
      && NumIn(jobs', {Completed}) == NumIn(jobs, {Completed})
           - One(IsIn(jobs, id, {Completed})) + One(job.status == Completed)
      && NumIn(jobs', {Failed, Expired}) == NumIn(jobs, {Failed, Expired})
           - One(IsIn(jobs, id, {Failed, Expired})) + One(job.status == Failed || job.status == Expired)
  {
    ReplaceMovesCount(jobs, id, job, {Pending, Processing});
    ReplaceMovesCount(jobs, id, job, {Pending});
    ReplaceMovesCount(jobs, id, job, {Completed});
    ReplaceMovesCount(jobs, id, job, {Failed, Expired});
    ReplaceSize(jobs, id, job);
  }

  lemma ReplaceSize(jobs: map<string, Job>, id: string, job: Job)
    ensures |jobs[id := job]| == |jobs| + One(id !in jobs)
  {
    assert jobs[id := job].Keys == jobs.Keys + {id};
    assert |jobs| == |jobs.Keys| && |jobs[id := job]| == |jobs[id := job].Keys|;
  }

  lemma LazyExpiryKeepsLedger(m: Manager, t: Tally, id: string, now: real)
    requires Ledger(m, t) && id in m.jobs && m.jobs[id].status != Expired
    ensures Ledger(ExpireLazily(m, id, now), TallyLazy(m, t, id))
  {
    hide NumIn;
    ReplaceMovesCounts(m.jobs, id, Expire(m.jobs[id], now));
  }

  lemma UpdateKeepsLedger(m: Manager, t: Tally, id: string, u: Update)
    requires Ledger(m, t) && Allowed(m, UpdateOp(id, u)) && id in m.jobs
    ensures Ledger(UpdateStatus(m, id, u), Count(m, t, UpdateOp(id, u)))
  {
    hide NumIn;
    ReplaceMovesCounts(m.jobs, id, Updated(m.jobs[id], u));
  }

  lemma CancelKeepsLedger(m: Manager, t: Tally, id: string, now: real)
    requires Ledger(m, t)
    ensures Ledger(Cancel(m, id, now), t)
  {
    hide NumIn;
    if Cancellable(m, id) {
      ReplaceMovesCounts(m.jobs, id, Cancel(m, id, now).jobs[id]);
    }
  }

  lemma StoreKeepsLedger(m: Manager, t: Tally, id: string, job: Job)
    requires Ledger(m, t) && id !in m.jobs && job.status == Pending
    ensures Ledger(Store(m, id, job), t)
  {
    hide NumIn;
    ReplaceMovesCounts(m.jobs, id, job);
  }

  lemma SplitCardinality<T>(a: set<T>, b: set<T>)
    ensures |a| == |a * b| + |a - b|
  {
    assert a == (a * b) + (a - b);
  }

  lemma SweepRemoves(jobs: map<string, Job>, clock: JobClock, statuses: set<Status>)
    requires Expired !in statuses
    ensures NumIn(ExpireAll(jobs, SweptIds(jobs, clock), clock), statuses)
      == NumIn(jobs, statuses) - SweptIn(jobs, clock, statuses)
  {
    var ids := SweptIds(jobs, clock);
    assert IdsIn(ExpireAll(jobs, ids, clock), statuses) == IdsIn(jobs, statuses) - ids;
    SplitCardinality(IdsIn(jobs, statuses), ids);
    assert IdsIn(jobs, statuses) * ids == ids * IdsIn(jobs, statuses);
  }

  lemma SweepSplits(jobs: map<string, Job>, clock: JobClock)
    ensures |SweptIds(jobs, clock)| == SweptIn(jobs, clock, {Pending, Processing}) + SweptIn(jobs, clock, {Cancelled})
    ensures SweptIn(jobs, clock, {Completed}) == 0
  {
    var ids := SweptIds(jobs, clock);
    var active, cancelled := ids * IdsIn(jobs, {Pending, Processing}), ids * IdsIn(jobs, {Cancelled});
    assert ids == active + cancelled && active !! cancelled;
    assert ids * IdsIn(jobs, {Completed}) == {};
  }

  lemma SweepFails(jobs: map<string, Job>, clock: JobClock)
    ensures var ids := SweptIds(jobs, clock);
      NumIn(ExpireAll(jobs, ids, clock), {Failed, Expired}) == NumIn(jobs, {Failed, Expired}) + |ids|
  {
    var ids := SweptIds(jobs, clock);
    assert IdsIn(ExpireAll(jobs, ids, clock), {Failed, Expired}) == IdsIn(jobs, {Failed, Expired}) + ids;
    assert IdsIn(jobs, {Failed, Expired}) !! ids;
  }

  lemma SweepSize(jobs: map<string, Job>, ids: set<string>, clock: JobClock)
    ensures |ExpireAll(jobs, ids, clock)| == |jobs|
  {
    assert ExpireAll(jobs, ids, clock).Keys == jobs.Keys;
    assert |jobs| == |jobs.Keys| && |ExpireAll(jobs, ids, clock)| == |ExpireAll(jobs, ids, clock).Keys|;
  }

  lemma SweepKeepsLedger(m: Manager, t: Tally, clock: JobClock)
    requires Ledger(m, t)
    ensures Ledger(Sweep(m, clock), Count(m, t, SweepOp(clock)))
  {
    hide NumIn, SweptIn, SweptIds, ExpireAll;
    SweepRemoves(m.jobs, clock, {Pending, Processing});
    SweepRemoves(m.jobs, clock, {Pending});
    SweepRemoves(m.jobs, clock, {Completed});
    SweepSplits(m.jobs, clock);
    SweepFails(m.jobs, clock);
    SweepSize(m.jobs, SweptIds(m.jobs, clock), clock);
  }

  /** Every operation, by whichever path it changes the counters, keeps the ledger. */
  lemma OpKeepsLedger(m: Manager, t: Tally, op: Op)
    requires Ledger(m, t) && Allowed(m, op)
    ensures Ledger(Apply(m, op), Count(m, t, op))
  {
    match op {
      case CreateOp(id, job) => StoreKeepsLedger(m, t, id, job);
      case GetOp(id, now) => if Get(m, id, now) != m { LazyExpiryKeepsLedger(m, t, id, now); }
      case ValidateOp(id, now) => if Validate(m, id, now) != m { LazyExpiryKeepsLedger(m, t, id, now); }
      case CancelOp(id, now) => CancelKeepsLedger(m, t, id, now);
      case UpdateOp(id, u) => if id in m.jobs { UpdateKeepsLedger(m, t, id, u); }
      case SweepOp(clock) => SweepKeepsLedger(m, t, clock);
      case MetricsOp(_) =>
    }
  }

  /** The ledger holds after every run of the manager. */
  lemma {:induction false} LedgerHolds(m: Manager, t: Tally, ops: seq<Op>, m': Manager, t': Tally)
    requires Ledger(m, t) && IsRun(m, t, ops, m', t')
    ensures Ledger(m', t')
    decreases |ops|
  {
    if ops != [] {
      OpKeepsLedger(m, t, ops[0]);
      LedgerHolds(Apply(m, ops[0]), Count(m, t, ops[0]), ops[1..], m', t');
    }
  }

  lemma LedgerAtStart()
    ensures Ledger(NO_JOBS, NO_TALLY)
  {
  }

  /**
    The plain reading of the counters fails: a cancelled job that the sweep expires is subtracted twice, and
    `active_jobs` drops below zero with no job active.
   */
  lemma SweptCancellationGoesNegative(id: string, job: Job, now: real)
    requires job.status == Pending && IsExpired(job, now)
    ensures var ops := [CreateOp(id, job), CancelOp(id, now), SweepOp(_ => now)];
      exists m', t' :: IsRun(NO_JOBS, NO_TALLY, ops, m', t') && m'.activeJobs == -1 && t'.sweptCancelled == 1
  {
    var ops := [CreateOp(id, job), CancelOp(id, now), SweepOp(_ => now)];
    var m1 := Apply(NO_JOBS, ops[0]);
    var m2 := Apply(m1, ops[1]);
    assert SweptIds(m2.jobs, _ => now) == {id};
    assert {id} * IdsIn(m2.jobs, {Cancelled}) == {id};
    var m3 := Apply(m2, ops[2]);
    var t3 := Count(m2, NO_TALLY, ops[2]);
    assert ops[2..][1..] == [] && ops[1..][1..] == ops[2..];
    assert IsRun(m3, t3, [], m3, t3);
    assert IsRun(m2, NO_TALLY, ops[2..], m3, t3);
    assert IsRun(m1, NO_TALLY, ops[1..], m3, t3);
    assert IsRun(NO_JOBS, NO_TALLY, ops, m3, t3);
  }
}
