/** The data-lake writer's own methods, each proved to be one step of `LakeModel`. */
module DataLakeWriter {
  import opened Basics
  import opened LakeModel

  /** `flushes` are the running `flush` coroutines, each with its local variable `data_to_write`. */
  class DataLakeWriter {
    const batchSize: int
    const enabled: bool
    var buffer: seq<Record>
    var flushes: seq<Flush>
    var timers: seq<Timer>
    var batchTask: Task
    ghost var accepted: seq<Record>
    ghost var uploaded: seq<Record>
    ghost var lost: seq<Record>

    ghost function View(): Lake
      reads this
    {
      Lake(buffer, flushes, timers, batchTask, accepted, uploaded, lost)
    }

    constructor (batchSize: int, enabled: bool)
      ensures this.batchSize == batchSize && this.enabled == enabled && View() == EMPTY
    {
      this.batchSize, this.enabled, buffer, flushes, timers, batchTask := batchSize, enabled, [], [], [], NoTask;
      accepted, uploaded, lost := [], [], [];
    }

    /** `batch_task is None or batch_task.done()` */
    predicate Done()
      reads this
      ensures Done() == IsDone(View())
    {
      match batchTask
      case NoTask => true
      case FlushTask(k) => k < |flushes| ==> flushes[k] == Over
      case TimerTask(l) => l < |timers| ==> timers[l] == Ended
    }

    /** `start`: a new timer loop, unless the task is still at work. */
    method Start()
      modifies this
      ensures View() == if enabled then Next(batchSize, old(View()), LakeModel.Start) else old(View())
    {
      if enabled && Done() {
        batchTask := TimerTask(|timers|);
        timers := timers + [Alive(None)];
      }
    }

    /** `write_prediction`, with the record already enriched. */
    method WritePrediction(record: Record)
      modifies this
      ensures View() == if enabled then Next(batchSize, old(View()), Write(record)) else old(View())
      ensures enabled ==> buffer == old(buffer) + [record]
      ensures enabled && |buffer| >= batchSize ==>
        flushes == old(flushes) + [Called] && batchTask == FlushTask(|old(flushes)|)
      ensures enabled && |buffer| < batchSize ==> flushes == old(flushes) && batchTask == old(batchTask)
    {
      if !enabled {
        return;
      }
      buffer := buffer + [record];
      accepted := accepted + [record];
      if |buffer| >= batchSize {
        batchTask := FlushTask(|flushes|);
        flushes := flushes + [Called];
      }
    }

    /** A caller, `stop` for example, calls `flush`. */
    method CallFlush()
      modifies this
      ensures View() == if enabled then Next(batchSize, old(View()), LakeModel.CallFlush) else old(View())
    {
      if enabled {
        flushes := flushes + [Called];
      }
    }

    /** A timer loop wakes up and calls `flush`; only an enabled writer has timers. */
    method TimerFires(l: nat)
      requires enabled && Enabled(View(), LakeModel.TimerFires(l))
      modifies this
      ensures View() == Next(batchSize, old(View()), LakeModel.TimerFires(l))
    {
      timers := timers[l := Alive(Some(|flushes|))];
      flushes := flushes + [Called];
    }

    /** `flush` up to its upload: copy the buffer and clear it, under the lock. */
    method BeginFlush(k: nat)
      requires Enabled(View(), Take(k))
      modifies this
      ensures View() == Next(batchSize, old(View()), Take(k))
      ensures buffer == []
      ensures flushes == old(flushes)[k := if old(buffer) == [] then Over else Uploading(old(buffer))]
    {
      if buffer == [] {
        flushes := flushes[k := Over];
        return;
      }
      var dataToWrite := buffer;
      buffer := [];
      flushes := flushes[k := Uploading(dataToWrite)];
    }

    /** The upload returns or raises; one that raises stored nothing. */
    method EndUpload(k: nat, ok: bool)
      requires Enabled(View(), UploadDone(k))
      modifies this
      ensures View() == Next(batchSize, old(View()), if ok then UploadDone(k) else UploadFails(k))
      ensures uploaded == if ok then old(uploaded) + DataOf(old(flushes)[k]) else old(uploaded)
      ensures DataOf(flushes[k]) == if ok then [] else DataOf(old(flushes)[k])
    {
      var data := flushes[k].data;
      if ok {
        uploaded := uploaded + data;
        flushes := flushes[k := Over];
      } else {
        flushes := flushes[k := Failing(data)];
      }
    }

    /** The rest of a failed flush: its records go back behind those that arrived meanwhile. */
    method RetryLater(k: nat)
      requires Enabled(View(), PutBack(k))
      modifies this
      ensures View() == Next(batchSize, old(View()), PutBack(k))
      ensures buffer == old(buffer) + DataOf(old(flushes)[k]) && flushes[k] == Over
    {
      buffer := buffer + flushes[k].data;
      flushes := flushes[k := Over];
    }

    /** The first half of `stop`; the second half is a flush of its own. */
    method CancelTask(stored: bool)
      modifies this
      ensures View() == Next(batchSize, old(View()), StopCancels(stored))
      ensures batchTask.FlushTask? && batchTask.flush < |flushes| ==> flushes[batchTask.flush] == Over
      ensures batchTask.TimerTask? && batchTask.timer < |timers| ==> timers[batchTask.timer] == Ended
      ensures buffer == old(buffer)
    {
      if Done() {
        return;
      }
      match batchTask {
        case FlushTask(k) =>
          CancelFlush(k, stored);
        case TimerTask(l) =>
          var called := timers[l].called;
          timers := timers[l := Ended];
          if called.Some? && called.value < |flushes| {
            CancelFlush(called.value, stored);
          }
      }
    }

    /** The cancellation reaches flush `k`, whose local variable is gone. */
    method CancelFlush(k: nat, stored: bool)
      requires k < |flushes|
      modifies this
      ensures View() == Interrupted(old(View()), k, stored)
    {
      if flushes[k].Uploading? && stored {
        uploaded := uploaded + flushes[k].data;
      } else {
        lost := lost + DataOf(flushes[k]);
      }
      flushes := flushes[k := Over];
    }
  }
}
