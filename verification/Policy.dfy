/** The retry loop composed with an optional circuit breaker. */
module Policy {
  import opened Common
  import opened Breaker

  datatype Kind =
    | NotFound | InvalidSpec | Transient | Unauthorized | NotSupported
    | RateLimit | Unavailable | Timeout | QuotaExceeded | Conflict

  /** What a call returns: nil, a categorized provider error, the context's error, or any
      other error. */
  datatype Error = Nil | Provider(kind: Kind, retryable: bool) | ContextDone | Foreign

  const BREAKER_OPEN := Provider(Unavailable, true)

  predicate IsRetryable(e: Error) {
    e.Provider? && (e.retryable || e.kind in {Transient, Unavailable, Timeout, RateLimit})
  }

  /** The error that the provider's constructor for each kind makes. */
  function Made(kind: Kind): Error {
    match kind
    case Transient => Provider(kind, true)
    case RateLimit => Provider(kind, true)
    case Unavailable => Provider(kind, true)
    case Timeout => Provider(kind, true)
    case _ => Provider(kind, false)
  }

  /** Kind and flag agree in every error a constructor makes, so it is retried if and only if
      it is marked; any other error is retried if it is marked or its kind always is. */
  lemma {:induction false} RetriesWhatIsMarked(e: Error)
    ensures e.Provider? ==> (IsRetryable(Made(e.kind)) <==> Made(e.kind).retryable)
    ensures IsRetryable(e) <==> e.Provider? && (e.retryable || Made(e.kind).retryable)
  {
  }

  /** The surroundings of one execution: the result of the function's n-th invocation, the
      clock when attempt n is admitted and recorded, whether the context is done in the wait
      that follows attempt n, and what other callers do to the breaker before attempt n is
      admitted and while its call is in flight. */
  datatype Env = Env(
    fn: nat -> Error, admitAt: nat -> int, recordAt: nat -> int, cancelled: nat -> bool,
    before: (nat, View) -> View, during: (nat, View) -> View)

  /** `history` lists what each attempt returned; `invoked` counts calls of the function. */
  datatype Report = Report(err: Error, invoked: nat, history: seq<Error>, view: Option<View>)

  /** Call: guarded by the breaker when there is one. */
  function Attempt(cfg: Config, env: Env, v: Option<View>, attempt: nat, invoked: nat): (Error, nat, Option<View>) {
    if v.None? then (env.fn(invoked), invoked + 1, None) else
      var (v1, allowed) := Admit(cfg, env.before(attempt, v.value), env.admitAt(attempt));
      if !allowed then (BREAKER_OPEN, invoked, Some(v1)) else
        var err := env.fn(invoked);
        (err, invoked + 1, Some(Record(cfg, env.during(attempt, v1), err.Nil?, env.recordAt(attempt))))
  }

  /** The attempts from number |history| on. */
  function Attempts(cfg: Config, max: int, env: Env, v: Option<View>, invoked: nat, history: seq<Error>, lastErr: Error): Report
    decreases max - |history|
  {
    if |history| >= max then Report(lastErr, invoked, history, v) else
      var (err, invoked', v') := Attempt(cfg, env, v, |history|, invoked);
      var history' := history + [err];
      if err.Nil? || !IsRetryable(err) || |history'| == max then Report(err, invoked', history', v')
      else if env.cancelled(|history|) then Report(ContextDone, invoked', history', v')
      else Attempts(cfg, max, env, v', invoked', history', err)
  }

  class ResiliencePolicy {
    const config: Config
    const maxAttempts: int
    const breaker: CircuitBreaker?

    function BreakerView(): Option<View>
      reads breaker
    {
      if breaker == null then None else Some(breaker.Fields())
    }

    constructor (config: Config, maxAttempts: int, breaker: CircuitBreaker?)
      requires breaker != null ==> breaker.config == config
      ensures this.config == config && this.maxAttempts == maxAttempts && this.breaker == breaker
    {
      this.config, this.maxAttempts, this.breaker := config, maxAttempts, breaker;
    }

    /** Other callers run until the breaker's fields are `v`. */
    method Interfere(v: View)
      requires breaker != null
      modifies breaker
      ensures breaker.Fields() == v
    {
      breaker.state, breaker.failures := v.state, v.failures;
      breaker.lastFailureTime, breaker.halfOpenCalls := v.lastFailureTime, v.halfOpenCalls;
    }

    method Call(env: Env, attempt: nat, invoked: nat) returns (err: Error, invoked': nat)
      requires breaker != null ==> breaker.config == config
      modifies breaker
      ensures (err, invoked', BreakerView()) == Attempt(config, env, old(BreakerView()), attempt, invoked)
    {
      if breaker == null {
        return env.fn(invoked), invoked + 1;
      }
      Interfere(env.before(attempt, breaker.Fields()));
      var allowed := breaker.AllowCall(env.admitAt(attempt));
      if !allowed {
        return BREAKER_OPEN, invoked;
      }
      err, invoked' := env.fn(invoked), invoked + 1;
      Interfere(env.during(attempt, breaker.Fields()));
      breaker.RecordResult(err.Nil?, env.recordAt(attempt));
    }

    method Execute(env: Env) returns (err: Error, invoked: nat, history: seq<Error>)
      requires breaker != null ==> breaker.config == config
      modifies breaker
      ensures Report(err, invoked, history, BreakerView())
           == Attempts(config, maxAttempts, env, old(BreakerView()), 0, [], Nil)
    {
      var lastErr := Nil;
      invoked, history := 0, [];
      while |history| < maxAttempts
        invariant Attempts(config, maxAttempts, env, BreakerView(), invoked, history, lastErr)
               == Attempts(config, maxAttempts, env, old(BreakerView()), 0, [], Nil)
        decreases maxAttempts - |history|
      {
        var attempt := |history|;
        err, invoked := Call(env, attempt, invoked);
        history := history + [err];
        if err.Nil? {
          return;
        }
        lastErr := err;
        if !IsRetryable(err) {
          return;
        }
        if attempt == maxAttempts - 1 {
          return;
        }
        if env.cancelled(attempt) {
          err := ContextDone;
          return;
        }
      }
      err := lastErr;
    }
  }

  /** How an execution that has made the attempts `history` and returned `err` must look. */
  ghost predicate Faithful(max: int, env: Env, r: Report) {
    var n := |r.history|;
    && 1 <= n <= max
    && r.invoked <= n
    && (forall i :: 0 <= i < n - 1 ==> IsRetryable(r.history[i]) && !env.cancelled(i))
    && (r.err.Nil? <==> r.history[n-1].Nil?)
    && (r.err.Nil? ==> r.invoked > 0 && env.fn(r.invoked - 1).Nil?)
    && (r.err == r.history[n-1] || (r.err.ContextDone? && n < max && env.cancelled(n-1)))
    && (n < max && IsRetryable(r.history[n-1]) ==> env.cancelled(n-1))
  }

  lemma {:induction false} AttemptsFaithful(cfg: Config, max: int, env: Env, v: Option<View>, invoked: nat, history: seq<Error>, lastErr: Error)
    requires |history| < max && invoked <= |history|
    requires forall i :: 0 <= i < |history| ==> IsRetryable(history[i]) && !env.cancelled(i)
    ensures Faithful(max, env, Attempts(cfg, max, env, v, invoked, history, lastErr))
    decreases max - |history|
  {
    var (err, invoked', v') := Attempt(cfg, env, v, |history|, invoked);
    var history' := history + [err];
    if !(err.Nil? || !IsRetryable(err) || |history'| == max || env.cancelled(|history|)) {
      AttemptsFaithful(cfg, max, env, v', invoked', history', err);
    }
  }

  /** With at least one attempt allowed, and whatever other callers do to the breaker: the
      function runs at most that often, the loop stops exactly when an attempt succeeds,
      fails for good or is cancelled, and the result is nil exactly when the last attempt
      succeeded. */
  lemma {:induction false} ExecuteIsFaithful(cfg: Config, max: int, env: Env, v: Option<View>)
    requires max >= 1
    ensures Faithful(max, env, Attempts(cfg, max, env, v, 0, [], Nil))
  {
    AttemptsFaithful(cfg, max, env, v, 0, [], Nil);
  }

  /** A nil result means that some invocation succeeded. */
  ghost predicate NilMeansSuccess(env: Env, r: Report) {
    r.err.Nil? ==> exists n: nat :: n < r.invoked && env.fn(n).Nil?
  }

  /** That holds in all surroundings if and only if at least one attempt is allowed; with
      none the result is nil and nothing was invoked. */
  lemma {:induction false} NilMeansSuccessIff(cfg: Config, max: int)
    ensures (forall env, v :: NilMeansSuccess(env, Attempts(cfg, max, env, v, 0, [], Nil))) <==> max >= 1
    ensures max < 1 ==> forall env, v :: Attempts(cfg, max, env, v, 0, [], Nil) == Report(Nil, 0, [], v)
  {
    if max >= 1 {
      forall env, v ensures NilMeansSuccess(env, Attempts(cfg, max, env, v, 0, [], Nil)) {
        ExecuteIsFaithful(cfg, max, env, v);
      }
    } else {
      var env := Env(_ => Foreign, _ => 0, _ => 0, _ => false, (_, v) => v, (_, v) => v);
      assert !NilMeansSuccess(env, Attempts(cfg, max, env, None, 0, [], Nil));
    }
  }

  /** The number of consecutive failures that opens a closed breaker holding v.failures. */
  function FailuresToOpen(cfg: Config, v: View): int {
    Max(1, cfg.failureThreshold - v.failures)
  }

  /** Nothing interrupts the loop, nobody else uses the breaker, every invocation fails
      retryably, and every attempt after the opening one comes within the reset timeout. */
  ghost predicate FailsFast(cfg: Config, env: Env, opening: int) {
    && (forall n: nat :: IsRetryable(env.fn(n)))
    && (forall n: nat :: !env.cancelled(n))
    && (forall n: nat, v :: env.before(n, v) == v == env.during(n, v))
    && (0 <= opening ==> forall n: nat :: opening < n ==> env.admitAt(n) - env.recordAt(opening) <= cfg.resetTimeout)
  }

  lemma {:induction false} OpenBreakerSwallowsTheRest(cfg: Config, max: int, env: Env, v: View, invoked: nat, history: seq<Error>, lastErr: Error, opening: nat)
    requires v.state.Open? && opening < |history| && FailsFast(cfg, env, opening)
    requires v.lastFailureTime == env.recordAt(opening)
    requires IsRetryable(lastErr)
    ensures var r := Attempts(cfg, max, env, Some(v), invoked, history, lastErr);
            r.invoked == invoked && IsRetryable(r.err)
    decreases max - |history|
  {
    if |history| < max {
      OpenBreakerSwallowsTheRest(cfg, max, env, v, invoked, history + [BREAKER_OPEN], BREAKER_OPEN, opening);
    }
  }

  lemma {:induction false} InvocationsFromClosed(cfg: Config, max: int, env: Env, v: View, history: seq<Error>, lastErr: Error)
    requires v.state.Closed? && |history| <= max
    requires FailsFast(cfg, env, |history| + FailuresToOpen(cfg, v) - 1)
    requires history != [] ==> IsRetryable(lastErr)
    ensures var r := Attempts(cfg, max, env, Some(v), |history|, history, lastErr);
            && r.invoked == Min(max, |history| + FailuresToOpen(cfg, v))
            && (max >= 1 ==> IsRetryable(r.err))
    decreases max - |history|
  {
    if |history| < max {
      var n := |history|;
      var (err, n', v') := Attempt(cfg, env, Some(v), n, n);
      if v'.value.state.Closed? {
        InvocationsFromClosed(cfg, max, env, v'.value, history + [err], err);
      } else {
        OpenBreakerSwallowsTheRest(cfg, max, env, v'.value, n', history + [err], err, n);
      }
    }
  }

  /** A function that always fails retryably is invoked exactly as often as it takes to
      open the breaker, or as often as attempts are allowed if that is fewer. */
  lemma {:induction false} ExactInvocations(cfg: Config, max: int, env: Env, v: View)
    requires v.state.Closed? && FailsFast(cfg, env, FailuresToOpen(cfg, v) - 1)
    ensures Attempts(cfg, max, env, Some(v), 0, [], Nil).invoked == Min(Max(0, max), FailuresToOpen(cfg, v))
  {
    if max >= 0 {
      InvocationsFromClosed(cfg, max, env, v, [], Nil);
    }
  }

  /** Without a breaker it is invoked on every allowed attempt. */
  lemma {:induction false} ExactInvocationsUnguarded(cfg: Config, max: int, env: Env, history: seq<Error>, lastErr: Error)
    requires |history| <= max && forall n: nat :: IsRetryable(env.fn(n)) && !env.cancelled(n)
    ensures Attempts(cfg, max, env, None, |history|, history, lastErr).invoked == max
    decreases max - |history|
  {
    if |history| < max {
      var err := env.fn(|history|);
      ExactInvocationsUnguarded(cfg, max, env, history + [err], err);
    }
  }
}
