/** The batch job manager's own methods, proved against the functions of `JobModel`. */
module BatchJobManager {
  import opened Basics
  import opened JobModel

  class BatchJobManager {
    const defaultBatchSize: int
    const defaultTimeout: int
    var jobs: map<string, Job>
    var totalJobs: int
    var activeJobs: int
    var completedJobs: int
    var failedJobs: int
    var queueSize: int

    ghost function View(): Manager
      reads this
    {
      Manager(jobs, totalJobs, activeJobs, completedJobs, failedJobs, queueSize)
    }

    constructor (defaultBatchSize: int, defaultTimeout: int)
      ensures View() == NO_JOBS
      ensures this.defaultBatchSize == defaultBatchSize && this.defaultTimeout == defaultTimeout
    {
      this.defaultBatchSize, this.defaultTimeout := defaultBatchSize, defaultTimeout;
      jobs, totalJobs, activeJobs, completedJobs, failedJobs, queueSize := map[], 0, 0, 0, 0, 0;
    }

    /** `id` is the fresh uuid the source draws. */
    method CreateJob(id: string, texts: seq<string>, priority: Priority, maxBatchSize: Option<int>,
                     timeoutSeconds: Option<int>, now: real) returns (r: Result<Job>)
      requires id !in jobs
      modifies this
      ensures r.Error? <==> texts == []
      ensures r.Error? ==> View() == old(View())
      ensures r.Ok? ==> r.value == NewJob(texts, priority, AtLeastOne(maxBatchSize, defaultBatchSize),
                                         AtLeastOne(timeoutSeconds, defaultTimeout), now)
      ensures r.Ok? ==> View() == Store(old(View()), id, r.value)
      ensures r.Ok? ==> jobs == old(jobs)[id := r.value]
      ensures r.Ok? ==>
        && r.value.texts == texts && r.value.priority == priority && r.value.status == Pending
        && r.value.createdAt == now && r.value.results == None && r.value.progress == 0.0
        && r.value.maxBatchSize >= 1 && r.value.timeoutSeconds >= 1
        && (timeoutSeconds == None ==> r.value.timeoutSeconds == Max(1, defaultTimeout))
        && (maxBatchSize == None ==> r.value.maxBatchSize == Max(1, defaultBatchSize))
    {
      if |texts| == 0 {
        return Error("Texts list cannot be empty");
      }
      var batchSize := if maxBatchSize.Some? && maxBatchSize.value != 0 then maxBatchSize.value else defaultBatchSize;
      var timeout := if timeoutSeconds.Some? && timeoutSeconds.value != 0 then timeoutSeconds.value else defaultTimeout;
      var job := Job(texts, priority, Pending, None, now, None, None, None, 0.0, 0, 0,
                     Max(1, batchSize), Max(1, timeout));
      jobs := jobs[id := job];
      totalJobs := totalJobs + 1;
      activeJobs := activeJobs + 1;
      queueSize := queueSize + 1;
      r := Ok(job);
    }

    method GetJob(id: string, now: real) returns (job: Option<Job>)
      modifies this
      ensures View() == Get(old(View()), id, now)
      ensures job == if id in jobs then Some(jobs[id]) else None
      ensures job.Some? && now > job.value.createdAt + job.value.timeoutSeconds as real ==> job.value.status == Expired
      ensures job.Some? && now <= job.value.createdAt + job.value.timeoutSeconds as real ==> jobs == old(jobs)
    {
      if id !in jobs {
        return None;
      }
      if IsExpired(jobs[id], now) && jobs[id].status != Expired {
        var previous := jobs[id].status;
        jobs := jobs[id := jobs[id].(status := Expired, error := Some(TIMEOUT_ERROR), completedAt := Some(now))];
        if previous == Pending {
          queueSize := queueSize - 1;
        }
        if previous in {Pending, Processing} {
          activeJobs := activeJobs - 1;
        }
        failedJobs := failedJobs + 1;
      }
      job := Some(jobs[id]);
    }

    method UpdateJobStatus(id: string, u: Update) returns (found: bool)
      modifies this
      ensures View() == UpdateStatus(old(View()), id, u)
      ensures found == (id in old(jobs))
    {
      if id !in jobs {
        return false;
      }
      var was, status := jobs[id].status, u.status;
      jobs := jobs[id := Updated(jobs[id], u)];
      if was == Pending && status == Processing {
        queueSize := queueSize - 1;
      } else if status == Completed {
        if was != Cancelled {
          activeJobs := activeJobs - 1;
          completedJobs := completedJobs + 1;
        }
      } else if status == Failed {
        if was != Cancelled {
          activeJobs := activeJobs - 1;
          failedJobs := failedJobs + 1;
          if was == Pending {
            queueSize := queueSize - 1;
          }
        }
      } else if status == Cancelled && was == Pending {
        activeJobs := activeJobs - 1;
        queueSize := queueSize - 1;
      }
      found := true;
    }

    method IsJobValid(id: string, now: real) returns (valid: bool)
      requires id in jobs
      modifies this
      ensures View() == Validate(old(View()), id, now)
      ensures valid == IsValid(old(jobs)[id], now)
      ensures var job := old(jobs)[id];
        valid <==> job.status != Cancelled && job.status != Expired &&
                   now <= job.createdAt + job.timeoutSeconds as real
    {
      if jobs[id].status in {Cancelled, Expired} {
        return false;
      }
      if IsExpired(jobs[id], now) {
        var previous := jobs[id].status;
        jobs := jobs[id := jobs[id].(status := Expired, error := Some(TIMEOUT_ERROR), completedAt := Some(now))];
        if previous == Pending {
          queueSize := queueSize - 1;
        }
        if previous in {Pending, Processing} {
          activeJobs := activeJobs - 1;
        }
        failedJobs := failedJobs + 1;
        return false;
      }
      valid := true;
    }

    method CancelJob(id: string, now: real) returns (cancelled: bool)
      modifies this
      ensures View() == Cancel(old(View()), id, now)
      ensures cancelled == Cancellable(old(View()), id)
      ensures cancelled <==> id in old(jobs) && (old(jobs)[id].status == Pending || old(jobs)[id].status == Processing)
      ensures cancelled ==> jobs[id].status == Cancelled && jobs == old(jobs)[id := jobs[id]]
    {
      if id !in jobs || jobs[id].status !in {Pending, Processing} {
        return false;
      }
      var wasPending := jobs[id].status == Pending;
      jobs := jobs[id := jobs[id].(status := Cancelled, error := Some(CANCEL_ERROR), completedAt := Some(now))];
      activeJobs := activeJobs - 1;
      if wasPending {
        queueSize := queueSize - 1;
      }
      cancelled := true;
    }

    /** The write `get_batch_metrics` makes to the metrics object it was given. */
    method SetQueueSize(queued: int)
      modifies `queueSize
      ensures View() == ReadMetrics(old(View()), queued)
    {
      queueSize := queued;
    }

    /** One round of `_cleanup_expired_jobs`: select first, then expire one job after the other. */
    method CleanupExpiredJobs(clock: JobClock)
      modifies this
      ensures View() == Sweep(old(View()), clock)
      ensures jobs.Keys == old(jobs).Keys
      ensures forall id :: id in old(jobs) ==>
        var job := old(jobs)[id];
        if clock(id) > job.createdAt + job.timeoutSeconds as real && job.status in {Pending, Processing, Cancelled}
        then jobs[id] == job.(status := Expired, error := Some(TIMEOUT_ERROR), completedAt := Some(clock(id)))
        else jobs[id] == job
    {
      var expired := set id | id in jobs && Sweepable(jobs[id], clock(id));
      ExpireSelected(expired, clock);
    }

    method ExpireSelected(expired: set<string>, clock: JobClock)
      requires expired <= jobs.Keys
      modifies `jobs, `activeJobs, `failedJobs
      ensures jobs == ExpireAll(old(jobs), expired, clock)
      ensures activeJobs == old(activeJobs) - |expired| && failedJobs == old(failedJobs) + |expired|
    {
      var todo := expired;
      while todo != {}
        invariant todo <= expired
        invariant jobs.Keys == old(jobs).Keys
        invariant forall id :: id in jobs ==>
          jobs[id] == if id in expired && id !in todo then Expire(old(jobs)[id], clock(id)) else old(jobs)[id]
        invariant activeJobs == old(activeJobs) - |expired| + |todo|
        invariant failedJobs == old(failedJobs) + |expired| - |todo|
        decreases |todo|
      {
        var id :| id in todo;
        jobs := jobs[id := jobs[id].(status := Expired, error := Some(TIMEOUT_ERROR), completedAt := Some(clock(id)))];
        activeJobs := activeJobs - 1;
        failedJobs := failedJobs + 1;
        todo := todo - {id};
      }
    }
  }
}
