/** Retry counting and duplicate detection as functions of the history. */
module KafkaModel {
  import opened Basics
  import opened Chunking

  // ---------------------------------------------------------------- retries

  datatype Failure = Failure(message: string, id: string)

  datatype Sent = Sent(message: string, id: string, retries: int)

  datatype Retries = Retries(tracker: map<string, int>, sent: seq<Sent>)

  const NO_RETRIES: Retries := Retries(map[], [])

  datatype Outcome = Outcome(success: bool, id: Option<string>)

  function IdOf(o: Outcome): string
  {
    if o.id.Some? then o.id.value else "unknown"
  }

  /** The failures among the first `n` pairs of messages and results. */
  function FailuresUpTo(messages: seq<string>, results: seq<Outcome>, n: nat): seq<Failure>
    requires n <= |messages| && n <= |results|
  {
    if n == 0 then [] else
    FailuresUpTo(messages, results, n - 1) +
      (if results[n - 1].success then [] else [Failure(messages[n - 1], IdOf(results[n - 1]))])
  }

  lemma OneMorePair(messages: seq<string>, results: seq<Outcome>, n: nat)
    requires n < |messages| && n < |results|
    ensures FailuresUpTo(messages, results, n + 1) ==
      if results[n].success then FailuresUpTo(messages, results, n)
      else FailuresUpTo(messages, results, n) + [Failure(messages[n], IdOf(results[n]))]
  {
  }

  /** `zip` stops at the shorter list. */
  function Failures(messages: seq<string>, results: seq<Outcome>): seq<Failure>
  {
    FailuresUpTo(messages, results, Min(|messages|, |results|))
  }

  function Failed(results: seq<Outcome>, n: nat): seq<bool>
    requires n <= |results|
  {
    seq(n, k requires 0 <= k < n => !results[k].success)
  }

  function Paired(messages: seq<string>, results: seq<Outcome>, n: nat): seq<Failure>
    requires n <= |messages| && n <= |results|
  {
    seq(n, k requires 0 <= k < n =>
      Failure(messages[k], if results[k].id.Some? then results[k].id.value else "unknown"))
  }

  lemma {:induction false} FailuresArePicked(messages: seq<string>, results: seq<Outcome>, n: nat)
    returns (places: seq<nat>)
    requires n <= |messages| && n <= |results|
    ensures Picks(Failed(results, n), Paired(messages, results, n), FailuresUpTo(messages, results, n), places)
  {
    if n == 0 {
      places := [];
    } else {
      var flags, pairs := Failed(results, n - 1), Paired(messages, results, n - 1);
      places := FailuresArePicked(messages, results, n - 1);
      hide Picks;
      PickOneMore(flags, pairs, FailuresUpTo(messages, results, n - 1), places, Failed(results, n)[n - 1],
                  Paired(messages, results, n)[n - 1]);
      assert Failed(results, n) == flags + [Failed(results, n)[n - 1]];
      assert Paired(messages, results, n) == pairs + [Paired(messages, results, n)[n - 1]];
      if Failed(results, n)[n - 1] {
        places := places + [n - 1];
      }
    }
  }

  /** The failures stand, in order, at exactly the pairs whose result is one, an id missing being "unknown". */
  lemma FailuresAre(messages: seq<string>, results: seq<Outcome>, n: nat) returns (places: seq<nat>)
    requires n <= |messages| && n <= |results|
    ensures |FailuresUpTo(messages, results, n)| == |places| && Increasing(places)
    ensures forall k: nat :: k in places <==> k < n && !results[k].success
    ensures forall i :: 0 <= i < |places| ==>
      && places[i] < n
      && FailuresUpTo(messages, results, n)[i] ==
           Failure(messages[places[i]], if results[places[i]].id.Some? then results[places[i]].id.value else "unknown")
  {
    hide FailuresUpTo, Increasing;
    places := FailuresArePicked(messages, results, n);
  }

  function Tracked(tracker: map<string, int>, id: string): int
  {
    if id in tracker then tracker[id] else 0
  }

  /** One failed result: give up at the limit, else remember. */
  function Retry(s: Retries, f: Failure, maxRetries: int, dlq: bool): Retries
  {
    var count := Tracked(s.tracker, f.id) + 1;
    if count >= maxRetries then
      Retries(s.tracker - {f.id}, if dlq then s.sent + [Sent(f.message, f.id, count)] else s.sent)
    else
      s.(tracker := s.tracker[f.id := count])
  }

  function RetryAll(s: Retries, fs: seq<Failure>, maxRetries: int, dlq: bool): Retries
  {
    if fs == [] then s else Retry(RetryAll(s, fs[..|fs| - 1], maxRetries, dlq), fs[|fs| - 1], maxRetries, dlq)
  }

  lemma RetryOneMore(s: Retries, fs: seq<Failure>, f: Failure, maxRetries: int, dlq: bool)
    ensures RetryAll(s, fs + [f], maxRetries, dlq) == Retry(RetryAll(s, fs, maxRetries, dlq), f, maxRetries, dlq)
  {
    assert (fs + [f])[..|fs|] == fs;
  }

  function Occurrences(fs: seq<Failure>, id: string): nat
  {
    if fs == [] then 0 else Occurrences(fs[..|fs| - 1], id) + (if fs[|fs| - 1].id == id then 1 else 0)
  }

  lemma {:induction false} OccurrencesAre(fs: seq<Failure>, id: string)
    ensures Occurrences(fs, id) == |set k | 0 <= k < |fs| && fs[k].id == id|
  {
    if fs != [] {
      var n := |fs| - 1;
      OccurrencesAre(fs[..n], id);
      var before, after := set k | 0 <= k < n && fs[..n][k].id == id, set k | 0 <= k < |fs| && fs[k].id == id;
      MaybeOneMore(before, n, fs[n].id == id, after);
    }
  }

  /** A limit below one acts as one. */
  function Limit(maxRetries: int): (m: nat)
    ensures m > 0
  {
    Max(1, maxRetries)
  }

  /** How many full rounds of `m` there are in `c`, and how many are left. */
  function Rounds(c: nat, m: nat): nat
    requires m > 0
  {
    c / m
  }

  function Left(c: nat, m: nat): nat
    requires m > 0
  {
    c % m
  }

  /** The failures that complete a multiple of the limit for their id, in order. */
  function Exhausted(fs: seq<Failure>, m: nat): seq<Sent>
    requires m > 0
  {
    if fs == [] then [] else
    var f := fs[|fs| - 1];
    Exhausted(fs[..|fs| - 1], m) + (if Left(Occurrences(fs, f.id), m) == 0 then [Sent(f.message, f.id, m)] else [])
  }

  function SentFor(sent: seq<Sent>, id: string): nat
  {
    if sent == [] then 0 else SentFor(sent[..|sent| - 1], id) + (if sent[|sent| - 1].id == id then 1 else 0)
  }

  /** Failure `k` is, counted for its own id up to there, a multiple of the limit. */
  predicate Completes(fs: seq<Failure>, m: nat, k: nat)
    requires m > 0 && k < |fs|
  {
    Occurrences(fs[..k + 1], fs[k].id) % m == 0
  }

  function Complete(fs: seq<Failure>, m: nat): seq<bool>
    requires m > 0
  {
    seq(|fs|, k requires 0 <= k < |fs| => Completes(fs, m, k))
  }

  function Dispatched(fs: seq<Failure>, m: nat): seq<Sent>
  {
    seq(|fs|, k requires 0 <= k < |fs| => Sent(fs[k].message, fs[k].id, m))
  }

  lemma CompletesAlike(fs: seq<Failure>, m: nat, k: nat)
    requires m > 0 && k < |fs| - 1
    ensures Completes(fs[..|fs| - 1], m, k) == Completes(fs, m, k)
  {
    assert fs[..|fs| - 1][..k + 1] == fs[..k + 1];
  }

  lemma CompleteOneMore(fs: seq<Failure>, m: nat)
    requires m > 0 && fs != []
    ensures Complete(fs, m) == Complete(fs[..|fs| - 1], m) + [Completes(fs, m, |fs| - 1)]
  {
    hide Completes;
    var n := |fs| - 1;
    var longer := Complete(fs[..n], m) + [Completes(fs, m, n)];
    forall k: nat | k < |fs|
      ensures Complete(fs, m)[k] == longer[k]
    {
      if k < n {
        CompletesAlike(fs, m, k);
      }
    }
  }

  lemma DispatchedOneMore(fs: seq<Failure>, m: nat)
    requires fs != []
    ensures var n := |fs| - 1;
      && |Dispatched(fs[..n], m)| == n
      && Dispatched(fs, m) == Dispatched(fs[..n], m) + [Sent(fs[n].message, fs[n].id, m)]
  {
  }

  /** The dispatches are, in order, exactly those for the failures that complete a round for their id. */
  lemma {:induction false} ExhaustedInOrder(fs: seq<Failure>, m: nat) returns (places: seq<nat>)
    requires m > 0
    ensures Picks(Complete(fs, m), Dispatched(fs, m), Exhausted(fs, m), places)
  {
    hide Occurrences;
    if fs == [] {
      places := [];
    } else {
      var n := |fs| - 1;
      places := ExhaustedInOrder(fs[..n], m);
      assert fs[..n + 1] == fs;
      assert Completes(fs, m, n) == (Left(Occurrences(fs, fs[n].id), m) == 0);
      hide Picks, Complete, Dispatched, Completes, Left;
      var completes, sent := Completes(fs, m, n), Sent(fs[n].message, fs[n].id, m);
      DispatchedOneMore(fs, m);
      PickOneMore(Complete(fs[..n], m), Dispatched(fs[..n], m), Exhausted(fs[..n], m), places, completes, sent);
      CompleteOneMore(fs, m);
      if completes {
        places := places + [n];
      }
    }
  }

  lemma {:induction false} SentForAre(sent: seq<Sent>, id: string)
    ensures SentFor(sent, id) == |set k | 0 <= k < |sent| && sent[k].id == id|
  {
    if sent != [] {
      var n := |sent| - 1;
      SentForAre(sent[..n], id);
      var before, after := set k | 0 <= k < n && sent[..n][k].id == id, set k | 0 <= k < |sent| && sent[k].id == id;
      MaybeOneMore(before, n, sent[n].id == id, after);
    }
  }

  lemma NextMultiple(c: nat, m: nat)
    requires m > 0
    ensures Left(c, m) < m
    ensures Left(c, m) + 1 == m ==> Left(c + 1, m) == 0 && Rounds(c + 1, m) == Rounds(c, m) + 1
    ensures Left(c, m) + 1 < m ==> Left(c + 1, m) == Left(c, m) + 1 && Rounds(c + 1, m) == Rounds(c, m)
  {
    var q, r := c / m, c % m;
    assert c == q * m + r;
    if r + 1 == m {
      assert (q + 1) * m == q * m + m;
      QuotientIs(c + 1, m, q + 1, 0);
    } else {
      QuotientIs(c + 1, m, q, r + 1);
    }
  }

  /** The tracker holds each id's failures modulo the limit, and nothing for a multiple of it. */
  ghost predicate CountsModulo(tracker: map<string, int>, fs: seq<Failure>, m: nat)
    requires m > 0
  {
    forall id: string ::
      && Tracked(tracker, id) == Left(Occurrences(fs, id), m)
      && (id in tracker <==> Left(Occurrences(fs, id), m) != 0)
  }

  lemma NoneAtStart(m: nat)
    requires m > 0
    ensures Left(0, m) == 0 && Rounds(0, m) == 0
  {
    QuotientIs(0, m, 0, 0);
  }

  lemma OccursOnceMore(fs: seq<Failure>, f: Failure, id: string)
    ensures Occurrences(fs + [f], id) == Occurrences(fs, id) + (if f.id == id then 1 else 0)
  {
    assert (fs + [f])[..|fs|] == fs;
  }

  /** One failure moves its id's count to the next remainder, and leaves the others. */
  lemma RetryCounts(s: Retries, fs: seq<Failure>, f: Failure, maxRetries: int, dlq: bool)
    requires CountsModulo(s.tracker, fs, Limit(maxRetries))
    ensures CountsModulo(Retry(s, f, maxRetries, dlq).tracker, fs + [f], Limit(maxRetries))
  {
    hide Occurrences, Left, Rounds;
    var m, s' := Limit(maxRetries), Retry(s, f, maxRetries, dlq);
    NextMultiple(Occurrences(fs, f.id), m);
    assert Tracked(s.tracker, f.id) == Left(Occurrences(fs, f.id), m);
    forall id: string
      ensures && Tracked(s'.tracker, id) == Left(Occurrences(fs + [f], id), m)
              && (id in s'.tracker <==> Left(Occurrences(fs + [f], id), m) != 0)
    {
      OccursOnceMore(fs, f, id);
      assert Tracked(s.tracker, id) == Left(Occurrences(fs, id), m) &&
             (id in s.tracker <==> Left(Occurrences(fs, id), m) != 0);
    }
  }

  /** It is sent exactly if it completes a round. */
  lemma RetrySends(s: Retries, fs: seq<Failure>, f: Failure, maxRetries: int, dlq: bool)
    requires CountsModulo(s.tracker, fs, Limit(maxRetries))
    requires s.sent == if dlq then Exhausted(fs, Limit(maxRetries)) else []
    ensures Retry(s, f, maxRetries, dlq).sent == if dlq then Exhausted(fs + [f], Limit(maxRetries)) else []
  {
    var m := Limit(maxRetries);
    assert (fs + [f])[..|fs|] == fs;
    hide Left, Rounds;
    NextMultiple(Occurrences(fs, f.id), m);
    OccursOnceMore(fs, f, f.id);
    assert Tracked(s.tracker, f.id) == Left(Occurrences(fs, f.id), m);
  }

  lemma {:induction false} RetryArithmetic(fs: seq<Failure>, maxRetries: int, dlq: bool)
    ensures var s := RetryAll(NO_RETRIES, fs, maxRetries, dlq);
      && CountsModulo(s.tracker, fs, Limit(maxRetries))
      && s.sent == if dlq then Exhausted(fs, Limit(maxRetries)) else []
  {
    if fs == [] {
      NoneAtStart(Limit(maxRetries));
    } else {
      hide Retry, CountsModulo, Exhausted, Limit;
      var init, f := fs[..|fs| - 1], fs[|fs| - 1];
      var s := RetryAll(NO_RETRIES, init, maxRetries, dlq);
      assert fs == init + [f];
      RetryArithmetic(init, maxRetries, dlq);
      RetryCounts(s, init, f, maxRetries, dlq);
      RetrySends(s, init, f, maxRetries, dlq);
    }
  }

  lemma NoneExhausted(m: nat, id: string)
    requires m > 0
    ensures SentFor(Exhausted([], m), id) == Rounds(Occurrences([], id), m)
  {
    NoneAtStart(m);
  }

  /** An id is given up once for every full round of failures. */
  lemma {:induction false} ExhaustedCounts(fs: seq<Failure>, m: nat, id: string)
    requires m > 0
    ensures SentFor(Exhausted(fs, m), id) == Rounds(Occurrences(fs, id), m)
  {
    hide Exhausted, Occurrences, SentFor, Rounds, Left;
    if fs == [] {
      NoneExhausted(m, id);
    } else {
      var init, f := fs[..|fs| - 1], fs[|fs| - 1];
      ExhaustedCounts(init, m, id);
      OccursOnceMore(init, f, id);
      ExhaustedOneMore(init, f, m, id);
      if f.id == id {
        NextMultiple(Occurrences(init, id), m);
      }
      assert fs == init + [f];
    }
  }

  lemma ExhaustedOneMore(fs: seq<Failure>, f: Failure, m: nat, id: string)
    requires m > 0
    ensures SentFor(Exhausted(fs + [f], m), id)
         == SentFor(Exhausted(fs, m), id) + (if f.id == id && Left(Occurrences(fs, f.id) + 1, m) == 0 then 1 else 0)
  {
    hide Left;
    var before, sent := Exhausted(fs, m), Sent(f.message, f.id, m);
    assert (fs + [f])[..|fs|] == fs;
    OccursOnceMore(fs, f, f.id);
    assert (before + [sent])[..|before|] == before;
    assert Exhausted(fs + [f], m) == if Left(Occurrences(fs, f.id) + 1, m) == 0 then before + [sent] else before;
  }

  /** After any failures: the count is the total modulo the limit, and the dispatches the total divided by it. */
  lemma RetriesAreDivision(fs: seq<Failure>, maxRetries: int, dlq: bool, id: string)
    ensures var s, m := RetryAll(NO_RETRIES, fs, maxRetries, dlq), Max(1, maxRetries);
      && (id in s.tracker <==> Occurrences(fs, id) % m != 0)
      && (id in s.tracker ==> s.tracker[id] == Occurrences(fs, id) % m)
      && SentFor(s.sent, id) == if dlq then Occurrences(fs, id) / m else 0
  {
    RetryArithmetic(fs, maxRetries, dlq);
    ExhaustedCounts(fs, Limit(maxRetries), id);
    hide RetryAll, Exhausted, Occurrences, SentFor;
  }

  lemma {:induction false} RetryInParts(s: Retries, fs: seq<Failure>, gs: seq<Failure>, maxRetries: int, dlq: bool)
    ensures RetryAll(s, fs + gs, maxRetries, dlq) == RetryAll(RetryAll(s, fs, maxRetries, dlq), gs, maxRetries, dlq)
    decreases |gs|
  {
    if gs == [] {
      assert fs + gs == fs;
    } else {
      RetryInParts(s, fs, gs[..|gs| - 1], maxRetries, dlq);
      assert (fs + gs)[..|fs + gs| - 1] == fs + gs[..|gs| - 1];
    }
  }

  function HandleAll(s: Retries, batches: seq<seq<Failure>>, maxRetries: int, dlq: bool): Retries
  {
    if batches == [] then s
    else RetryAll(HandleAll(s, batches[..|batches| - 1], maxRetries, dlq), batches[|batches| - 1], maxRetries, dlq)
  }

  /** Batches do not matter: handling one after the other is handling their failures in sequence. */
  lemma {:induction false} BatchesDoNotMatter(s: Retries, batches: seq<seq<Failure>>, maxRetries: int, dlq: bool)
    ensures HandleAll(s, batches, maxRetries, dlq) == RetryAll(s, Flatten(batches), maxRetries, dlq)
  {
    if batches != [] {
      BatchesDoNotMatter(s, batches[..|batches| - 1], maxRetries, dlq);
      RetryInParts(s, Flatten(batches[..|batches| - 1]), batches[|batches| - 1], maxRetries, dlq);
    }
  }

  // ---------------------------------------------------------------- duplicates

  type Partition = (string, int)

  function WindowOf(windows: map<Partition, seq<int>>, p: Partition): seq<int>
  {
    if p in windows then windows[p] else []
  }

  /** A new offset enters the window, and the oldest leaves one that is too long. */
  function Push(window: seq<int>, offset: int, limit: int): seq<int>
  {
    var longer := window + [offset];
    if |longer| > limit then longer[1..] else longer
  }

  function Offer(windows: map<Partition, seq<int>>, p: Partition, offset: int, limit: int): map<Partition, seq<int>>
  {
    var window := WindowOf(windows, p);
    windows[p := if offset in window then window else Push(window, offset, limit)]
  }

  function OfferAll(offers: seq<(Partition, int)>, limit: int): map<Partition, seq<int>>
  {
    if offers == [] then map[] else
    var (p, offset) := offers[|offers| - 1];
    Offer(OfferAll(offers[..|offers| - 1], limit), p, offset, limit)
  }

  /** The offsets offered to one partition. */
  function OffersTo(offers: seq<(Partition, int)>, p: Partition): seq<int>
  {
    if offers == [] then [] else
    OffersTo(offers[..|offers| - 1], p) + (if offers[|offers| - 1].0 == p then [offers[|offers| - 1].1] else [])
  }

  function LastOf(xs: seq<int>, limit: int): seq<int>
  {
    xs[|xs| - Min(Max(0, limit), |xs|)..]
  }

  /** Of the offsets offered to a partition those that were new: not among the last `limit` accepted before. */
  function Accepted(offsets: seq<int>, limit: int): seq<int>
  {
    if offsets == [] then [] else
    var before, o := Accepted(offsets[..|offsets| - 1], limit), offsets[|offsets| - 1];
    if o in LastOf(before, limit) then before else before + [o]
  }

  /** An offset is accepted unless it is one of the last `limit` accepted before it. */
  lemma AcceptedIs(offsets: seq<int>, o: int, limit: int)
    ensures Accepted([], limit) == []
    ensures var before := Accepted(offsets, limit);
      Accepted(offsets + [o], limit) ==
        if exists k :: 0 <= k < |before| && |before| - limit <= k && before[k] == o then before else before + [o]
  {
    var before := Accepted(offsets, limit);
    assert (offsets + [o])[..|offsets|] == offsets;
    LastOfIs(before, limit, o);
  }

  lemma LastOfIs(xs: seq<int>, limit: int, o: int)
    ensures o in LastOf(xs, limit) <==> exists k :: 0 <= k < |xs| && |xs| - limit <= k && xs[k] == o
  {
    var from := |xs| - Min(Max(0, limit), |xs|);
    assert forall k :: from <= k < |xs| ==> xs[k] == LastOf(xs, limit)[k - from];
  }

  /** The offsets offered to a partition are all those offered, without the other partitions', in order. */
  lemma {:induction false} OffersAre(offers: seq<(Partition, int)>, p: Partition) returns (places: seq<nat>)
    ensures Picks(seq(|offers|, k requires 0 <= k < |offers| => offers[k].0 == p),
                  seq(|offers|, k requires 0 <= k < |offers| => offers[k].1), OffersTo(offers, p), places)
  {
    if offers == [] {
      places := [];
    } else {
      var n := |offers| - 1;
      var init := offers[..n];
      var flags := seq(n, k requires 0 <= k < n => init[k].0 == p);
      var offsets := seq(n, k requires 0 <= k < n => init[k].1);
      places := OffersAre(init, p);
      assert flags == seq(|init|, k requires 0 <= k < |init| => init[k].0 == p);
      assert offsets == seq(|init|, k requires 0 <= k < |init| => init[k].1);
      hide Picks;
      PickOneMore(flags, offsets, OffersTo(init, p), places, offers[n].0 == p, offers[n].1);
      assert seq(|offers|, k requires 0 <= k < |offers| => offers[k].0 == p) == flags + [offers[n].0 == p];
      assert seq(|offers|, k requires 0 <= k < |offers| => offers[k].1) == offsets + [offers[n].1];
      if offers[n].0 == p {
        places := places + [n];
      }
    }
  }

  lemma PushIsLast(accepted: seq<int>, o: int, limit: int)
    ensures Push(LastOf(accepted, limit), o, limit) == LastOf(accepted + [o], limit)
  {
  }

  lemma AcceptOne(before: seq<int>, o: int, limit: int)
    ensures var window := LastOf(Accepted(before, limit), limit);
      LastOf(Accepted(before + [o], limit), limit) == if o in window then window else Push(window, o, limit)
  {
    assert (before + [o])[..|before|] == before;
    PushIsLast(Accepted(before, limit), o, limit);
  }

  lemma OfferChangesOne(windows: map<Partition, seq<int>>, q: Partition, o: int, limit: int, p: Partition)
    ensures var window := WindowOf(windows, p);
      WindowOf(Offer(windows, q, o, limit), p) == if q == p && o !in window then Push(window, o, limit) else window
  {
  }

  /**
    Whatever is offered to which partition, each partition's window is the last offsets that partition
    accepted, independently of the others.
   */
  lemma {:induction false} WindowIsRecentHistory(offers: seq<(Partition, int)>, limit: int, p: Partition)
    ensures WindowOf(OfferAll(offers, limit), p) == LastOf(Accepted(OffersTo(offers, p), limit), limit)
  {
    if offers != [] {
      var init, last := offers[..|offers| - 1], offers[|offers| - 1];
      WindowIsRecentHistory(init, limit, p);
      OfferChangesOne(OfferAll(init, limit), last.0, last.1, limit, p);
      assert OfferAll(offers, limit) == Offer(OfferAll(init, limit), last.0, last.1, limit);
      if last.0 == p {
        assert OffersTo(offers, p) == OffersTo(init, p) + [last.1];
        AcceptOne(OffersTo(init, p), last.1, limit);
      } else {
        assert OffersTo(offers, p) == OffersTo(init, p);
      }
    }
  }

  /** The window never holds an offset twice, nor more than the limit. */
  lemma {:induction false} WindowIsDistinct(offers: seq<(Partition, int)>, limit: int, p: Partition)
    ensures NoDuplicates(WindowOf(OfferAll(offers, limit), p))
    ensures |WindowOf(OfferAll(offers, limit), p)| <= Max(0, limit)
  {
    if offers != [] {
      WindowIsDistinct(offers[..|offers| - 1], limit, p);
    }
  }

  /** The next offset counts as a duplicate exactly if it is among the last accepted ones of its partition. */
  lemma DuplicateIffRecent(offers: seq<(Partition, int)>, limit: int, p: Partition, offset: int)
    ensures var accepted := Accepted(OffersTo(offers, p), limit);
      offset in WindowOf(OfferAll(offers, limit), p) <==>
        exists k :: 0 <= k < |accepted| && |accepted| - limit <= k && accepted[k] == offset
    ensures offset in WindowOf(OfferAll(offers, limit), p) <==>
      Accepted(OffersTo(offers + [(p, offset)], p), limit) == Accepted(OffersTo(offers, p), limit)
  {
    WindowIsRecentHistory(offers, limit, p);
    var before := OffersTo(offers, p);
    LastOfIs(Accepted(before, limit), limit, offset);
    assert (offers + [(p, offset)])[..|offers|] == offers;
    assert OffersTo(offers + [(p, offset)], p) == before + [offset];
    assert (before + [offset])[..|before|] == before;
  }
}
