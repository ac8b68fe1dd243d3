/** An execution of the retry loop as a run of the breaker's events. */
module PolicyRuns {
  import opened Common
  import opened Breaker
  import opened BreakerRuns
  import P = Policy

  /** Nobody else uses the breaker. */
  ghost predicate Alone(env: P.Env) {
    forall n: nat, v :: env.before(n, v) == v == env.during(n, v)
  }

  /** The clock does not run backwards from `start` on. */
  ghost predicate Timed(env: P.Env, start: int) {
    && start <= env.admitAt(0)
    && forall n: nat {:trigger env.recordAt(n)} :: env.admitAt(n) <= env.recordAt(n) <= env.admitAt(n + 1)
  }

  /** The events of some attempts after which the breaker is in `state`, what each attempt
      returned, and how often the function ran. */
  datatype Story = Story(events: seq<Event>, state: System, history: seq<P.Error>, invoked: nat)

  /** One more attempt: it asks to be admitted; if it is, the function runs and whether it
      returned nil is recorded, else the breaker's own error is returned. */
  function Continue(cfg: Config, env: P.Env, s: Story, n: nat): Story {
    var ask := Allow(env.admitAt(n));
    var asked := Step(cfg, s.state, ask);
    if asked.admitted == s.state.admitted
    then Story(s.events + [ask], asked, s.history + [P.BREAKER_OPEN], s.invoked)
    else
      var err := env.fn(s.invoked);
      var done := Done(s.state.admitted, err.Nil?, env.recordAt(n));
      Story(s.events + [ask] + [done], Step(cfg, asked, done), s.history + [err], s.invoked + 1)
  }

  /** The first n attempts on a breaker that has seen the events `past`. */
  function Tell(cfg: Config, env: P.Env, past: seq<Event>, n: nat): Story {
    if n == 0 then Story(past, After(cfg, past), [], 0) else Continue(cfg, env, Tell(cfg, env, past, n - 1), n - 1)
  }

  lemma {:induction false} AttemptTold(cfg: Config, env: P.Env, s: Story, n: nat)
    requires Alone(env)
    ensures var t := Continue(cfg, env, s, n);
            var (err, invoked, v) := P.Attempt(cfg, env, Some(s.state.view), n, s.invoked);
            t.history == s.history + [err] && t.invoked == invoked && Some(t.state.view) == v
  {
  }

  lemma {:induction false} ToldLength(cfg: Config, env: P.Env, past: seq<Event>, n: nat)
    ensures |Tell(cfg, env, past, n).history| == n
  {
    if n > 0 {
      ToldLength(cfg, env, past, n - 1);
      assert |Continue(cfg, env, Tell(cfg, env, past, n - 1), n - 1).history| == |Tell(cfg, env, past, n - 1).history| + 1;
    }
  }

  /** The report and the story agree. */
  predicate Agree(r: P.Report, t: Story) {
    r.history == t.history && r.invoked == t.invoked && r.view == Some(t.state.view)
  }

  /** An execution that has come as far as the story either ends with the next attempt or goes
      on from there. */
  lemma {:induction false} OneAttempt(cfg: Config, max: int, env: P.Env, s: Story, n: nat, lastErr: P.Error)
    requires Alone(env) && n == |s.history| < max
    ensures var t := Continue(cfg, env, s, n);
            var r := P.Attempts(cfg, max, env, Some(s.state.view), s.invoked, s.history, lastErr);
            |t.history| == n + 1
            && (Agree(r, t) || r == P.Attempts(cfg, max, env, Some(t.state.view), t.invoked, t.history, t.history[n]))
  {
    AttemptTold(cfg, env, s, n);
  }

  lemma {:induction false} AttemptsTold(cfg: Config, max: int, env: P.Env, past: seq<Event>, n: nat, s: Story, lastErr: P.Error)
    requires Alone(env) && n <= max && s == Tell(cfg, env, past, n)
    ensures var r := P.Attempts(cfg, max, env, Some(s.state.view), s.invoked, s.history, lastErr);
            Agree(r, Tell(cfg, env, past, |r.history|))
    decreases max - n
  {
    ToldLength(cfg, env, past, n);
    if n < max {
      OneAttempt(cfg, max, env, s, n, lastErr);
      var t := Continue(cfg, env, s, n);
      assert t == Tell(cfg, env, past, n + 1);
      AttemptsTold(cfg, max, env, past, n + 1, t, t.history[n]);
    }
  }

  lemma {:induction false} StepIsAfter(cfg: Config, evs: seq<Event>, e: Event)
    ensures After(cfg, evs + [e]) == Step(cfg, After(cfg, evs), e)
  {
    assert (evs + [e])[..|evs|] == evs;
  }

  lemma {:induction false} ContinueRuns(cfg: Config, env: P.Env, s: Story, n: nat)
    requires s.state == After(cfg, s.events)
    ensures Continue(cfg, env, s, n).state == After(cfg, Continue(cfg, env, s, n).events)
  {
    var ask := Allow(env.admitAt(n));
    StepIsAfter(cfg, s.events, ask);
    StepIsAfter(cfg, s.events + [ask], Done(s.state.admitted, env.fn(s.invoked).Nil?, env.recordAt(n)));
  }

  lemma {:induction false} ToldRuns(cfg: Config, env: P.Env, past: seq<Event>, n: nat)
    ensures Tell(cfg, env, past, n).state == After(cfg, Tell(cfg, env, past, n).events)
  {
    if n > 0 {
      ToldRuns(cfg, env, past, n - 1);
      ContinueRuns(cfg, env, Tell(cfg, env, past, n - 1), n - 1);
    }
  }

  lemma {:induction false} ContinueIsLegal(cfg: Config, env: P.Env, s: Story, n: nat)
    requires s.state == After(cfg, s.events) && Legal(cfg, s.events)
    requires s.state.clock <= env.admitAt(n) <= env.recordAt(n)
    ensures var t := Continue(cfg, env, s, n);
            Legal(cfg, t.events) && t.state.clock <= env.recordAt(n)
  {
    var ask := Allow(env.admitAt(n));
    OneMore(cfg, s.events, ask);
    var asked := Step(cfg, s.state, ask);
    if asked.admitted != s.state.admitted {
      var done := Done(s.state.admitted, env.fn(s.invoked).Nil?, env.recordAt(n));
      assert Enabled(asked, done);
      OneMore(cfg, s.events + [ask], done);
    }
  }

  lemma {:induction false} TimedAt(env: P.Env, start: int, n: nat)
    requires Timed(env, start)
    ensures env.admitAt(n) <= env.recordAt(n) <= env.admitAt(n + 1)
  {
  }

  lemma {:induction false} ToldIsLegal(cfg: Config, env: P.Env, past: seq<Event>, start: int, n: nat)
    requires Legal(cfg, past) && After(cfg, past).clock == start && Timed(env, start)
    ensures Legal(cfg, Tell(cfg, env, past, n).events)
    ensures Tell(cfg, env, past, n).state.clock <= env.admitAt(n)
  {
    if n > 0 {
      var m: nat := n - 1;
      ToldIsLegal(cfg, env, past, start, m);
      ToldRuns(cfg, env, past, m);
      TimedAt(env, start, m);
      var s := Tell(cfg, env, past, m);
      ContinueIsLegal(cfg, env, s, m);
      assert Tell(cfg, env, past, n) == Continue(cfg, env, s, m);
    }
  }

  /** An execution on a breaker that has seen the events `past` and that nobody else uses is
      told by its attempts: it returns their results, runs the function as often, and leaves
      the breaker as their events do. These make a legal run, so that all that holds of runs
      holds of it. */
  lemma {:induction false} ExecutionIsTold(cfg: Config, max: int, env: P.Env, past: seq<Event>)
    requires Alone(env)
    ensures var r := P.Attempts(cfg, max, env, Some(After(cfg, past).view), 0, [], P.Nil);
            var t := Tell(cfg, env, past, |r.history|);
            && Agree(r, t) && t.state == After(cfg, t.events)
            && (Legal(cfg, past) && Timed(env, After(cfg, past).clock) ==> Legal(cfg, t.events))
  {
    var r := P.Attempts(cfg, max, env, Some(After(cfg, past).view), 0, [], P.Nil);
    if max >= 0 {
      AttemptsTold(cfg, max, env, past, 0, Tell(cfg, env, past, 0), P.Nil);
    }
    ToldRuns(cfg, env, past, |r.history|);
    if Legal(cfg, past) && Timed(env, After(cfg, past).clock) {
      ToldIsLegal(cfg, env, past, After(cfg, past).clock, |r.history|);
    }
  }

  /** Every error counts, whether it can be retried or not: one failed attempt adds one to a
      closed breaker's failures, and opens it exactly when that reaches the threshold. */
  lemma {:induction false} OneErrorCounts(cfg: Config, env: P.Env, v: View)
    requires Alone(env) && v.state.Closed? && !env.fn(0).Nil?
    ensures var r := P.Attempts(cfg, 1, env, Some(v), 0, [], P.Nil);
            && r.err == env.fn(0) && r.invoked == 1 && r.view.Some?
            && r.view.value.failures == v.failures + 1 && r.view.value.lastFailureTime == env.recordAt(0)
            && r.view.value.state == if v.failures + 1 >= cfg.failureThreshold then Open else Closed
  {
    assert env.before(0, v) == v && env.during(0, v) == v;
  }
}
