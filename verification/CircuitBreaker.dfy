/** The circuit breaker's own methods, proved against the functions of `BreakerModel`. */
module CircuitBreaker {
  import opened Basics
  import opened BreakerModel

  /** What the protected function does. */
  datatype Outcome = Returns | Raises | Escapes

  class CircuitBreaker {
    const cfg: Config
    var state: State
    var failures: int
    var successes: int
    var lastFailure: Option<real>

    ghost function View(): Breaker
      reads this
    {
      Breaker(state, failures, successes, lastFailure)
    }

    constructor (cfg: Config)
      ensures this.cfg == cfg && View() == FRESH
    {
      this.cfg, state, failures, successes, lastFailure := cfg, Closed, 0, 0, None;
    }

    /** The clock reads `now` on entry and, should the function fail, `end` afterwards. */
    method Call(outcome: Outcome, now: real, end: real) returns (o: Observation)
      modifies this
      ensures Possible(cfg, old(View()), o) && View() == After(cfg, old(View()), o)
      ensures o == if Rejects(cfg, old(View()), now) then Rejected(now)
                   else match outcome
                        case Returns => Succeeded(now)
                        case Raises => Failed(now, end)
                        case Escapes => Aborted(now)
    {
      if state == Open {
        if lastFailure.Some? && lastFailure.value != 0.0 && now - lastFailure.value >= cfg.recoveryTimeout as real {
          state, successes := HalfOpen, 0;
        } else {
          return Rejected(now);
        }
      }
      match outcome {
        case Returns =>
          Succeed();
          o := Succeeded(now);
        case Raises =>
          Fail(end);
          o := Failed(now, end);
        case Escapes =>
          o := Aborted(now);
      }
    }

    /** `_on_success` */
    method Succeed()
      modifies this
      ensures View() == OnSuccess(old(View()))
    {
      if state == HalfOpen {
        successes := successes + 1;
        if successes >= 2 {
          state, failures, successes := Closed, 0, 0;
        }
      } else if state == Closed {
        failures := 0;
      }
    }

    /** `_on_failure` */
    method Fail(end: real)
      modifies this
      ensures View() == OnFailure(cfg, old(View()), end)
    {
      failures := failures + 1;
      lastFailure := Some(end);
      if state == HalfOpen {
        state, successes := Open, 0;
      } else if state == Closed && failures >= cfg.threshold {
        state := Open;
      }
    }

    method Reset()
      modifies this
      ensures View() == After(cfg, old(View()), WasReset)
      ensures state == Closed && failures == successes == 0 && lastFailure == None
    {
      state, failures, successes, lastFailure := Closed, 0, 0, None;
    }
  }
}
