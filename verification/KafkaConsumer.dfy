/** The Kafka consumer's own methods, proved against the functions of `KafkaModel`. */
module KafkaConsumer {
  import opened Basics
  import opened KafkaModel

  /** What running the model on a batch does; an exception may still come after the counters were raised. */
  datatype Attempt = Predicted(results: nat) | RaisedEarly | RaisedLate

  class KafkaConsumer {
    const maxRetries: int
    const hasDlq: bool
    const maxOffsetHistory: int
    var tracker: map<string, int>
    var sent: seq<Sent>
    var recentOffsets: map<Partition, seq<int>>
    var consumed: int
    var processed: int
    var failed: int

    ghost function Retries(): Retries
      reads this
    {
      KafkaModel.Retries(tracker, sent)
    }

    ghost predicate Balanced()
      reads this
    {
      consumed == processed + failed
    }

    constructor (maxRetries: int, hasDlq: bool, maxOffsetHistory: int)
      ensures this.maxRetries == maxRetries && this.hasDlq == hasDlq && this.maxOffsetHistory == maxOffsetHistory
      ensures Retries() == NO_RETRIES && recentOffsets == map[] && Balanced()
    {
      this.maxRetries, this.hasDlq, this.maxOffsetHistory := maxRetries, hasDlq, maxOffsetHistory;
      tracker, sent, recentOffsets, consumed, processed, failed := map[], [], map[], 0, 0, 0;
    }

    /** `_execute_batch`: whatever happens, what is counted as consumed is counted as processed or failed too. */
    method ExecuteBatch(texts: seq<string>, ids: seq<string>, attempt: Attempt) returns (results: seq<Outcome>)
      modifies `consumed, `processed, `failed
      ensures old(Balanced()) ==> Balanced()
      ensures processed == old(processed) + (if attempt.RaisedEarly? then 0 else |texts|)
      ensures failed == old(failed) + (if attempt.Predicted? then 0 else |texts|)
      ensures consumed - old(consumed) == (processed - old(processed)) + (failed - old(failed))
      ensures |results| == if attempt.Predicted? then Min(|ids|, attempt.results) else |ids|
      ensures forall k :: 0 <= k < |results| ==> results[k] == Outcome(attempt.Predicted?, Some(ids[k]))
    {
      if !attempt.RaisedEarly? {
        consumed := consumed + |texts|;
        processed := processed + |texts|;
      }
      if attempt.Predicted? {
        results := seq(Min(|ids|, attempt.results), k requires 0 <= k < |ids| => Outcome(true, Some(ids[k])));
      } else {
        consumed := consumed + |texts|;
        failed := failed + |texts|;
        results := seq(|ids|, k requires 0 <= k < |ids| => Outcome(false, Some(ids[k])));
      }
    }

    /** `_handle_batch_results` */
    method HandleBatchResults(messages: seq<string>, results: seq<Outcome>)
      modifies `tracker, `sent
      ensures Retries() == RetryAll(old(Retries()), Failures(messages, results), maxRetries, hasDlq)
    {
      ghost var start, fs := Retries(), [];
      for k := 0 to Min(|messages|, |results|)
        invariant fs == FailuresUpTo(messages, results, k)
        invariant Retries() == RetryAll(start, fs, maxRetries, hasDlq)
      {
        OneMorePair(messages, results, k);
        if !results[k].success {
          ghost var f := Failure(messages[k], IdOf(results[k]));
          RetryOneMore(start, fs, f, maxRetries, hasDlq);
          HandleFailure(messages[k], IdOf(results[k]));
          fs := fs + [f];
        }
      }
    }

    method HandleFailure(message: string, id: string)
      modifies `tracker, `sent
      ensures Retries() == Retry(old(Retries()), Failure(message, id), maxRetries, hasDlq)
    {
      var retryCount := Tracked(tracker, id) + 1;
      if retryCount >= maxRetries {
        if hasDlq {
          sent := sent + [Sent(message, id, retryCount)];
        }
        tracker := tracker - {id};
      } else {
        tracker := tracker[id := retryCount];
      }
    }

    /** One batch of `_process_ready_batches`: a batch that raises costs every message one retry. */
    method ProcessBatch(messages: seq<string>, texts: seq<string>, ids: seq<string>, attempt: Attempt)
      requires |messages| == |texts| == |ids|
      modifies `tracker, `sent, `consumed, `processed, `failed
      ensures old(Balanced()) ==> Balanced()
      ensures var all := seq(|ids|, k requires 0 <= k < |ids| => Failure(messages[k], ids[k]));
        Retries() == if attempt.Predicted? then old(Retries()) else RetryAll(old(Retries()), all, maxRetries, hasDlq)
    {
      var results := ExecuteBatch(texts, ids, attempt);
      if attempt.Predicted? {
        NoFailures(messages, results, Min(|messages|, |results|));
      } else {
        AllFailures(messages, results, ids, |ids|);
      }
      HandleBatchResults(messages, results);
    }

    /** `_is_duplicate_message` */
    method IsDuplicateMessage(p: Partition, offset: int) returns (duplicate: bool)
      modifies `recentOffsets
      ensures duplicate <==> offset in WindowOf(old(recentOffsets), p)
      ensures p in recentOffsets && forall q :: q != p ==> WindowOf(recentOffsets, q) == WindowOf(old(recentOffsets), q)
      ensures recentOffsets == Offer(old(recentOffsets), p, offset, maxOffsetHistory)
    {
      if p !in recentOffsets {
        recentOffsets := recentOffsets[p := []];
      }
      if offset in recentOffsets[p] {
        return true;
      }
      recentOffsets := recentOffsets[p := recentOffsets[p] + [offset]];
      if |recentOffsets[p]| > maxOffsetHistory {
        recentOffsets := recentOffsets[p := recentOffsets[p][1..]];
      }
      duplicate := false;
    }
  }

  lemma {:induction false} NoFailures(messages: seq<string>, results: seq<Outcome>, n: nat)
    requires n <= |messages| && n <= |results| && forall k :: 0 <= k < |results| ==> results[k].success
    ensures FailuresUpTo(messages, results, n) == []
  {
    if n > 0 {
      NoFailures(messages, results, n - 1);
    }
  }

  lemma {:induction false} AllFailures(messages: seq<string>, results: seq<Outcome>, ids: seq<string>, n: nat)
    requires |messages| == |results| == |ids| && n <= |ids|
    requires forall k :: 0 <= k < |results| ==> results[k] == Outcome(false, Some(ids[k]))
    ensures FailuresUpTo(messages, results, n) == seq(n, k requires 0 <= k < n => Failure(messages[k], ids[k]))
  {
    if n > 0 {
      AllFailures(messages, results, ids, n - 1);
    }
  }
}
