/** The circuit breaker as a function of what its callers observe. */
module BreakerModel {
  import opened Basics

  datatype State = Closed | Open | HalfOpen

  datatype Config = Config(threshold: int, recoveryTimeout: int)

  datatype Breaker = Breaker(state: State, failures: int, successes: int, lastFailure: Option<real>)

  const FRESH: Breaker := Breaker(Closed, 0, 0, None)

  /**
    What one use of the breaker shows: a rejected call, a call whose function ran and returned, raised an
    `Exception` at time `end`, or left through some other `BaseException`, or a reset.
   */
  datatype Observation =
    | Rejected(now: real)
    | Succeeded(now: real)
    | Failed(now: real, end: real)
    | Aborted(now: real)
    | WasReset

  predicate Ran(o: Observation) { o.Succeeded? || o.Failed? || o.Aborted? }

  /** An open breaker lets a call through once the timeout has passed since a failure at a non-zero time. */
  predicate Rejects(cfg: Config, b: Breaker, now: real)
  {
    b.state == Open &&
    !(b.lastFailure.Some? && b.lastFailure.value != 0.0 && now - b.lastFailure.value >= cfg.recoveryTimeout as real)
  }

  predicate Possible(cfg: Config, b: Breaker, o: Observation)
  {
    if o.WasReset? then true else o.Rejected? <==> Rejects(cfg, b, o.now)
  }

  function HalfOpened(b: Breaker): Breaker
  {
    if b.state == Open then b.(state := HalfOpen, successes := 0) else b
  }

  function OnSuccess(b: Breaker): Breaker
  {
    match b.state
    case HalfOpen =>
      if b.successes + 1 >= 2 then b.(state := Closed, failures := 0, successes := 0)
      else b.(successes := b.successes + 1)
    case Closed => b.(failures := 0)
    case Open => b
  }

  function OnFailure(cfg: Config, b: Breaker, end: real): Breaker
  {
    var b' := b.(failures := b.failures + 1, lastFailure := Some(end));
    match b.state
    case HalfOpen => b'.(state := Open, successes := 0)
    case Closed => if b'.failures >= cfg.threshold then b'.(state := Open) else b'
    case Open => b'
  }

  function After(cfg: Config, b: Breaker, o: Observation): Breaker
  {
    match o
    case Rejected(_) => b
    case Succeeded(_) => OnSuccess(HalfOpened(b))
    case Failed(_, end) => OnFailure(cfg, HalfOpened(b), end)
    case Aborted(_) => HalfOpened(b)
    case WasReset => FRESH
  }

  /** `trace` lists the states of a breaker, from the fresh one, around the observations of `log`. */
  ghost predicate IsTrace(cfg: Config, trace: seq<Breaker>, log: seq<Observation>)
  {
    && |trace| == |log| + 1
    && trace[0] == FRESH
    && forall k :: 0 <= k < |log| ==> Possible(cfg, trace[k], log[k]) && trace[k + 1] == After(cfg, trace[k], log[k])
  }

  // ---------------------------------------------------------------- what the log alone says

  /** The failures since the last success or reset. */
  function ConsecutiveFailures(log: seq<Observation>): nat
  {
    if log == [] then 0 else
    match log[|log| - 1]
    case Failed(_, _) => ConsecutiveFailures(log[..|log| - 1]) + 1
    case Succeeded(_) => 0
    case WasReset => 0
    case _ => ConsecutiveFailures(log[..|log| - 1])
  }

  /** When the last failure since the last reset happened. */
  function LastFailure(log: seq<Observation>): Option<real>
  {
    if log == [] then None else
    match log[|log| - 1]
    case Failed(_, end) => Some(end)
    case WasReset => None
    case _ => LastFailure(log[..|log| - 1])
  }

  function Successes(log: seq<Observation>): nat
  {
    if log == [] then 0 else Successes(log[..|log| - 1]) + (if log[|log| - 1].Succeeded? then 1 else 0)
  }

  /** How many failures it takes: a threshold below one acts as one. */
  function Limit(cfg: Config): int { Max(1, cfg.threshold) }

  /** They are the failures after the last success or reset. */
  lemma {:induction false} ConsecutiveAre(log: seq<Observation>) returns (e: nat)
    ensures e <= |log| && (e > 0 ==> log[e - 1].Succeeded? || log[e - 1].WasReset?)
    ensures forall k :: e <= k < |log| ==> !log[k].Succeeded? && !log[k].WasReset?
    ensures ConsecutiveFailures(log) == |set k | e <= k < |log| && log[k].Failed?|
  {
    var n := |log| - 1;
    if log == [] || log[n].Succeeded? || log[n].WasReset? {
      e := |log|;
      assert ConsecutiveFailures(log) == 0;
    } else {
      e := ConsecutiveAre(log[..n]);
      assert ConsecutiveFailures(log) == ConsecutiveFailures(log[..n]) + (if log[n].Failed? then 1 else 0);
    }
    hide ConsecutiveFailures;
    var since := set k | e <= k < |log| && log[k].Failed?;
    if e == |log| {
      assert since == {};
    } else {
      FailedSince(log, e);
    }
  }

  lemma FailedSince(log: seq<Observation>, e: nat)
    requires e < |log|
    ensures var n := |log| - 1;
      |set k | e <= k < |log| && log[k].Failed?|
        == |set k | e <= k < n && log[..n][k].Failed?| + (if log[n].Failed? then 1 else 0)
  {
    var n := |log| - 1;
    var before, since := set k | e <= k < n && log[..n][k].Failed?, set k | e <= k < |log| && log[k].Failed?;
    assert since == if log[n].Failed? then before + {n} else before;
  }

  /** The last failure is one after which there was neither another nor a reset. */
  lemma {:induction false} LastFailureIs(log: seq<Observation>, at: real)
    ensures LastFailure(log) == Some(at) <==>
      exists k :: 0 <= k < |log| && log[k].Failed? && log[k].end == at &&
                  forall j :: k < j < |log| ==> !log[j].Failed? && !log[j].WasReset?
  {
    if log != [] {
      var n := |log| - 1;
      LastFailureIs(log[..n], at);
      assert forall j :: 0 <= j < n ==> log[..n][j] == log[j];
      if !log[n].Failed? && !log[n].WasReset? && LastFailure(log[..n]) == Some(at) {
        var k :| 0 <= k < n && log[..n][k].Failed? && log[..n][k].end == at &&
                 forall j :: k < j < n ==> !log[..n][j].Failed? && !log[..n][j].WasReset?;
        assert log[k].Failed? && forall j :: k < j < |log| ==> !log[j].Failed? && !log[j].WasReset?;
      }
    }
  }

  lemma {:induction false} SuccessesAre(log: seq<Observation>)
    ensures Successes(log) == |set k | 0 <= k < |log| && log[k].Succeeded?|
  {
    if log != [] {
      var n := |log| - 1;
      SuccessesAre(log[..n]);
      var before, after := set k | 0 <= k < n && log[..n][k].Succeeded?, set k | 0 <= k < |log| && log[k].Succeeded?;
      MaybeOneMore(before, n, log[n].Succeeded?, after);
    }
  }

  // ---------------------------------------------------------------- the breaker and its log

  /** The fields, read off the log. */
  ghost predicate Explains(cfg: Config, b: Breaker, log: seq<Observation>)
  {
    && b.lastFailure == LastFailure(log)
    && (b.state == Closed ==> b.failures == ConsecutiveFailures(log) < Limit(cfg))
    && (b.state != Closed ==> b.lastFailure.Some?)
    && (b.state == HalfOpen ==> 0 <= b.successes <= 1)
  }

  lemma StepExplains(cfg: Config, b: Breaker, log: seq<Observation>, o: Observation)
    requires Explains(cfg, b, log) && Possible(cfg, b, o)
    ensures Explains(cfg, After(cfg, b, o), log + [o])
  {
    assert (log + [o])[..|log|] == log;
  }

  lemma {:induction false} TraceExplains(cfg: Config, trace: seq<Breaker>, log: seq<Observation>, n: nat)
    requires IsTrace(cfg, trace, log) && n <= |log|
    ensures Explains(cfg, trace[n], log[..n])
    decreases n
  {
    if n > 0 {
      TraceExplains(cfg, trace, log, n - 1);
      StepExplains(cfg, trace[n - 1], log[..n - 1], log[n - 1]);
      assert log[..n - 1] + [log[n - 1]] == log[..n];
    }
  }

  /** While closed, the count is the consecutive failures, which are fewer than the limit. */
  lemma ClosedCountsFailures(cfg: Config, trace: seq<Breaker>, log: seq<Observation>, n: nat)
    requires IsTrace(cfg, trace, log) && n <= |log| && trace[n].state == Closed
    ensures trace[n].failures == ConsecutiveFailures(log[..n]) < Max(1, cfg.threshold)
  {
    TraceExplains(cfg, trace, log, n);
  }

  /** A closed breaker opens exactly at the failure that completes the limit. */
  lemma OpensAtLimit(cfg: Config, trace: seq<Breaker>, log: seq<Observation>, n: nat)
    requires IsTrace(cfg, trace, log) && n < |log| && trace[n].state == Closed
    ensures trace[n + 1].state == Open <==> log[n].Failed? && ConsecutiveFailures(log[..n + 1]) == Max(1, cfg.threshold)
    ensures trace[n + 1].state != HalfOpen && !log[n].Rejected?
  {
    TraceExplains(cfg, trace, log, n);
    assert log[..n + 1][..n] == log[..n];
  }

  /** An open breaker runs a call exactly when the timeout has passed since a last failure at a clock not zero. */
  lemma OpenRunsAfterTimeout(cfg: Config, trace: seq<Breaker>, log: seq<Observation>, n: nat)
    requires IsTrace(cfg, trace, log) && n < |log| && trace[n].state == Open
    ensures LastFailure(log[..n]).Some?
    ensures var last := LastFailure(log[..n]).value;
      !log[n].WasReset? ==> (Ran(log[n]) <==> last != 0.0 && log[n].now >= last + cfg.recoveryTimeout as real)
  {
    TraceExplains(cfg, trace, log, n);
  }

  /**
    A half-open breaker was opened half by some call `e`, has run every call since without a failure, and has
    counted the successes among them.
   */
  ghost predicate Recovering(trace: seq<Breaker>, log: seq<Observation>, e: nat, n: nat)
    requires |trace| == |log| + 1 && n <= |log|
  {
    && e < n
    && trace[e].state == Open
    && (forall j :: e < j <= n ==> trace[j].state == HalfOpen)
    && (forall j :: e <= j < n ==> log[j].Succeeded? || log[j].Aborted?)
    && trace[n].successes == Successes(log[e..n])
  }

  lemma {:induction false} HalfOpenHistory(cfg: Config, trace: seq<Breaker>, log: seq<Observation>, n: nat)
    returns (e: nat)
    requires IsTrace(cfg, trace, log) && n <= |log| && trace[n].state == HalfOpen
    ensures Recovering(trace, log, e, n)
    decreases n
  {
    assert n > 0;
    if trace[n - 1].state == Open {
      e := n - 1;
      assert log[e..n] == [log[e]];
      assert [log[e]][..0] == [];
    } else {
      e := HalfOpenHistory(cfg, trace, log, n - 1);
      assert log[e..n][..n - 1 - e] == log[e..n - 1];
    }
  }

  /**
    Calls close the breaker again only through two successes with no failure between: the closing call is the
    second success since the call that opened it half, and all others since then were aborted.
   */
  lemma ClosesAfterTwoSuccesses(cfg: Config, trace: seq<Breaker>, log: seq<Observation>, n: nat) returns (e: nat)
    requires IsTrace(cfg, trace, log) && n < |log| && trace[n].state != Closed && trace[n + 1].state == Closed
    requires !log[n].WasReset?
    ensures Recovering(trace, log, e, n) && log[n].Succeeded? && Successes(log[e..n]) == 1
  {
    TraceExplains(cfg, trace, log, n);
    e := HalfOpenHistory(cfg, trace, log, n);
  }

  /** And the second success does close it, while a failure before that opens it again. */
  lemma SecondSuccessCloses(cfg: Config, trace: seq<Breaker>, log: seq<Observation>, e: nat, n: nat)
    requires IsTrace(cfg, trace, log) && n < |log| && Recovering(trace, log, e, n)
    ensures trace[n + 1].state == Closed <==> log[n].WasReset? || (log[n].Succeeded? && Successes(log[e..n]) == 1)
    ensures trace[n + 1].state == Open <==> log[n].Failed?
    ensures !log[n].Rejected?
  {
    TraceExplains(cfg, trace, log, n);
  }
}
