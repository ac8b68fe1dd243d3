/** The circuit breaker: its fields as a value, the value-level transitions, and
    the class whose methods update the fields under the lock. */
module Breaker {
  datatype State = Closed | HalfOpen | Open

  datatype Config = Config(failureThreshold: int, resetTimeout: int, halfOpenMaxCalls: int)

  /** The mutable fields of a breaker. Times are nanoseconds on a monotone clock. */
  datatype View = View(state: State, failures: int, lastFailureTime: int, halfOpenCalls: int)

  const FRESH := View(Closed, 0, 0, 0)

  function ToClosed(v: View): View {
    v.(state := Closed, failures := 0, halfOpenCalls := 0)
  }

  function ToOpen(v: View): View {
    v.(state := Open, halfOpenCalls := 0)
  }

  function ToHalfOpen(v: View): View {
    v.(state := HalfOpen, halfOpenCalls := 0)
  }

  /** One admission decision at time `now`: the fields afterwards and the answer. */
  function Admit(cfg: Config, v: View, now: int): (View, bool) {
    match v.state
    case Closed => (v, true)
    case Open =>
      if now - v.lastFailureTime > cfg.resetTimeout then (ToHalfOpen(v), true) else (v, false)
    case HalfOpen =>
      if v.halfOpenCalls < cfg.halfOpenMaxCalls
      then (v.(halfOpenCalls := v.halfOpenCalls + 1), true)
      else (v, false)
  }

  function Failure(cfg: Config, v: View, now: int): View {
    var v' := v.(failures := v.failures + 1, lastFailureTime := now);
    match v.state
    case Closed => if v'.failures >= cfg.failureThreshold then ToOpen(v') else v'
    case HalfOpen => ToOpen(v')
    case Open => v'
  }

  function Success(cfg: Config, v: View): View {
    match v.state
    case HalfOpen => if v.halfOpenCalls >= cfg.halfOpenMaxCalls then ToClosed(v) else v
    case Closed => v.(failures := 0)
    case Open => v
  }

  /** The recording of one call's result at time `now`. */
  function Record(cfg: Config, v: View, ok: bool, now: int): View {
    if ok then Success(cfg, v) else Failure(cfg, v, now)
  }

  class CircuitBreaker {
    const config: Config
    var state: State
    var failures: int
    var lastFailureTime: int
    var halfOpenCalls: int

    function Fields(): View
      reads this
    {
      View(state, failures, lastFailureTime, halfOpenCalls)
    }

    constructor (config: Config)
      ensures this.config == config && Fields() == FRESH
    {
      this.config := config;
      state, failures, lastFailureTime, halfOpenCalls := Closed, 0, 0, 0;
    }

    method AllowCall(now: int) returns (allowed: bool)
      modifies this
      ensures (Fields(), allowed) == Admit(config, old(Fields()), now)
    {
      match state {
        case Closed =>
          allowed := true;
        case Open =>
          if now - lastFailureTime > config.resetTimeout {
            TransitionToHalfOpen();
            allowed := true;
          } else {
            allowed := false;
          }
        case HalfOpen =>
          if halfOpenCalls < config.halfOpenMaxCalls {
            halfOpenCalls := halfOpenCalls + 1;
            allowed := true;
          } else {
            allowed := false;
          }
      }
    }

    method RecordResult(ok: bool, now: int)
      modifies this
      ensures Fields() == Record(config, old(Fields()), ok, now)
    {
      if ok {
        RecordSuccess();
      } else {
        RecordFailure(now);
      }
    }

    method RecordFailure(now: int)
      modifies this
      ensures Fields() == Failure(config, old(Fields()), now)
    {
      failures := failures + 1;
      lastFailureTime := now;
      match state {
        case Closed =>
          if failures >= config.failureThreshold {
            TransitionToOpen();
          }
        case HalfOpen =>
          TransitionToOpen();
        case Open =>
      }
    }

    method RecordSuccess()
      modifies this
      ensures Fields() == Success(config, old(Fields()))
    {
      match state {
        case HalfOpen =>
          if halfOpenCalls >= config.halfOpenMaxCalls {
            TransitionToClosed();
          }
        case Closed =>
          failures := 0;
        case Open =>
      }
    }

    method TransitionToClosed()
      modifies this
      ensures Fields() == ToClosed(old(Fields()))
    {
      state, failures, halfOpenCalls := Closed, 0, 0;
    }

    method TransitionToOpen()
      modifies this
      ensures Fields() == ToOpen(old(Fields()))
    {
      state, halfOpenCalls := Open, 0;
    }

    method TransitionToHalfOpen()
      modifies this
      ensures Fields() == ToHalfOpen(old(Fields()))
    {
      state, halfOpenCalls := HalfOpen, 0;
    }

    method Reset()
      modifies this
      ensures Fields() == ToClosed(old(Fields()))
    {
      TransitionToClosed();
    }
  }
}
