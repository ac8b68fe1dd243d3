/** Every interleaving of a breaker's critical sections. Admission and recording are
    separate critical sections, so any number of admitted calls can be in flight
    between them; `Reset` can run at any time. */
module BreakerRuns {
  import opened Common
  import opened Breaker

  datatype Event =
    | Allow(now: int)
    | Done(id: nat, ok: bool, now: int)
    | Reset(now: int)

  /** `admitted` counts the calls let through so far; a call's id is its position
      among them. `inFlight` holds the admitted calls whose result is unrecorded. */
  datatype System = System(view: View, clock: int, admitted: nat, inFlight: set<nat>)

  const START := System(FRESH, 0, 0, {})

  ghost predicate Enabled(s: System, e: Event) {
    s.clock <= e.now && (e.Done? ==> e.id in s.inFlight)
  }

  function Step(cfg: Config, s: System, e: Event): System {
    match e
    case Allow(now) =>
      var (v, ok) := Admit(cfg, s.view, now);
      if ok then System(v, now, s.admitted + 1, s.inFlight + {s.admitted})
      else s.(view := v, clock := now)
    case Done(id, ok, now) =>
      s.(view := Record(cfg, s.view, ok, now), clock := now, inFlight := s.inFlight - {id})
    case Reset(now) =>
      s.(view := ToClosed(s.view), clock := now)
  }

  function After(cfg: Config, evs: seq<Event>): System {
    if evs == [] then START else Step(cfg, After(cfg, evs[..|evs|-1]), evs[|evs|-1])
  }

  ghost predicate Legal(cfg: Config, evs: seq<Event>) {
    evs == [] ||
    (Legal(cfg, evs[..|evs|-1]) && Enabled(After(cfg, evs[..|evs|-1]), evs[|evs|-1]))
  }

  // ---------- Never stuck half-open ----------

  ghost predicate Sane(cfg: Config, s: System) {
    && (s.view.state.HalfOpen? && s.view.halfOpenCalls >= cfg.halfOpenMaxCalls ==>
          s.admitted > 0 && s.admitted - 1 in s.inFlight)
    && (s.view.state.HalfOpen? ==> 0 <= s.view.halfOpenCalls <= Max(0, cfg.halfOpenMaxCalls))
    && (!s.view.state.HalfOpen? ==> s.view.halfOpenCalls == 0)
    && (s.view.state.Closed? ==> 0 <= s.view.failures < Max(1, cfg.failureThreshold))
    && s.view.lastFailureTime <= s.clock
  }

  lemma {:induction false} RunsAreSane(cfg: Config, evs: seq<Event>)
    requires Legal(cfg, evs)
    ensures Sane(cfg, After(cfg, evs))
  {
    if evs != [] {
      RunsAreSane(cfg, evs[..|evs|-1]);
    }
  }

  /** A half-open breaker that turns calls away still has its newest call in flight;
      so once every admitted call has returned, the next call is let through. */
  lemma {:induction false} NeverStuckHalfOpen(cfg: Config, evs: seq<Event>, now: int)
    requires Legal(cfg, evs)
    requires After(cfg, evs).view.state.HalfOpen?
    ensures var s := After(cfg, evs);
            && (!Admit(cfg, s.view, now).1 ==> s.admitted > 0 && s.admitted - 1 in s.inFlight)
            && (s.inFlight == {} ==> Admit(cfg, s.view, now).1)
  {
    RunsAreSane(cfg, evs);
  }

  /** Whatever result comes back first ends the episode of a breaker that turns calls away. */
  lemma {:induction false} SaturatedEpisodeEndsOnNextResult(cfg: Config, evs: seq<Event>, e: Event)
    requires Legal(cfg, evs + [e]) && e.Done?
    requires After(cfg, evs).view.state.HalfOpen? && !Admit(cfg, After(cfg, evs).view, e.now).1
    ensures After(cfg, evs + [e]).view.state == if e.ok then Closed else Open
  {
    assert (evs + [e])[..|evs|] == evs;
  }

  // ---------- Size of a half-open episode ----------

  /** Calls admitted in the half-open episode the run is in, the one that opened it included. */
  function EpisodeAdmissions(cfg: Config, evs: seq<Event>): nat {
    if evs == [] || !After(cfg, evs).view.state.HalfOpen? then 0 else
      var before := evs[..|evs|-1];
      EpisodeAdmissions(cfg, before) + After(cfg, evs).admitted - After(cfg, before).admitted
  }

  lemma {:induction false} EpisodeCount(cfg: Config, evs: seq<Event>)
    requires Legal(cfg, evs)
    ensures After(cfg, evs).view.state.HalfOpen? ==>
              EpisodeAdmissions(cfg, evs) == After(cfg, evs).view.halfOpenCalls + 1
  {
    if evs != [] {
      EpisodeCount(cfg, evs[..|evs|-1]);
    }
  }

  /** In any interleaving an episode admits at most the configured calls and one more. */
  lemma {:induction false} EpisodeBound(cfg: Config, evs: seq<Event>)
    requires Legal(cfg, evs)
    ensures EpisodeAdmissions(cfg, evs) <= Max(0, cfg.halfOpenMaxCalls) + 1
  {
    EpisodeCount(cfg, evs);
    RunsAreSane(cfg, evs);
  }

  // ---------- The bound is attained ----------

  lemma {:induction false} OneMore(cfg: Config, evs: seq<Event>, e: Event)
    requires Legal(cfg, evs) && Enabled(After(cfg, evs), e)
    ensures Legal(cfg, evs + [e]) && After(cfg, evs + [e]) == Step(cfg, After(cfg, evs), e)
  {
    assert (evs + [e])[..|evs|] == evs;
  }

  /** Failures one after the other open the breaker. */
  lemma {:induction false} Opened(cfg: Config) returns (evs: seq<Event>)
    ensures Legal(cfg, evs) && After(cfg, evs).view.state.Open?
    ensures After(cfg, evs).view.lastFailureTime == 0 == After(cfg, evs).clock
  {
    evs := [];
    while After(cfg, evs).view.state.Closed?
      invariant Legal(cfg, evs) && After(cfg, evs).clock == 0 && After(cfg, evs).view.lastFailureTime == 0
      invariant !After(cfg, evs).view.state.HalfOpen?
      decreases After(cfg, evs).view.state.Closed?, cfg.failureThreshold - After(cfg, evs).view.failures
    {
      OneMore(cfg, evs, Allow(0));
      var id := After(cfg, evs).admitted;
      OneMore(cfg, evs + [Allow(0)], Done(id, false, 0));
      evs := evs + [Allow(0)] + [Done(id, false, 0)];
    }
  }

  /** Some run admits as many calls in one episode as EpisodeBound allows. */
  lemma {:induction false} EpisodeBoundAttained(cfg: Config) returns (evs: seq<Event>)
    ensures Legal(cfg, evs) && EpisodeAdmissions(cfg, evs) == Max(0, cfg.halfOpenMaxCalls) + 1
  {
    evs := Opened(cfg);
    var now := Max(0, cfg.resetTimeout + 1);
    OneMore(cfg, evs, Allow(now));
    evs := evs + [Allow(now)];
    EpisodeCount(cfg, evs);
    for n := 0 to Max(0, cfg.halfOpenMaxCalls)
      invariant Legal(cfg, evs) && After(cfg, evs).clock == now
      invariant After(cfg, evs).view.state.HalfOpen? && After(cfg, evs).view.halfOpenCalls == n
    {
      OneMore(cfg, evs, Allow(now));
      evs := evs + [Allow(now)];
    }
    EpisodeCount(cfg, evs);
  }

  /** One call that does not overlap any other and succeeds. */
  function CallOk(cfg: Config, v: View, now: int): View {
    var (v', ok) := Admit(cfg, v, now);
    if ok then Success(cfg, v') else v'
  }

  function CallsOk(cfg: Config, v: View, times: seq<int>): View {
    if times == [] then v
    else CallOk(cfg, CallsOk(cfg, v, times[..|times|-1]), times[|times|-1])
  }

  /** Without overlap, an open breaker whose timeout has passed closes on exactly the
      (halfOpenMaxCalls + 1)-th consecutive success, and is half-open until then. */
  lemma {:induction false} ClosesAfterExactlyOneMoreThanTheLimit(cfg: Config, v: View, times: seq<int>)
    requires v.state.Open? && times != [] && times[0] - v.lastFailureTime > cfg.resetTimeout
    requires |times| <= Max(0, cfg.halfOpenMaxCalls) + 1
    ensures var w := CallsOk(cfg, v, times);
            if |times| == Max(0, cfg.halfOpenMaxCalls) + 1
            then w.state.Closed? && w.failures == 0
            else w.state.HalfOpen? && w.halfOpenCalls == |times| - 1
  {
    if |times| == 1 {
      assert times[..0] == [];
      assert CallsOk(cfg, v, []) == v;
    } else {
      ClosesAfterExactlyOneMoreThanTheLimit(cfg, v, times[..|times|-1]);
    }
  }

  // ---------- The counter against the event log ----------

  /** Failures recorded after the last recorded success and the last Reset. */
  function FailuresSince(evs: seq<Event>): nat {
    if evs == [] then 0 else
      match evs[|evs|-1]
      case Reset(_) => 0
      case Done(_, ok, _) => if ok then 0 else FailuresSince(evs[..|evs|-1]) + 1
      case Allow(_) => FailuresSince(evs[..|evs|-1])
  }

  /** A closed breaker counts exactly the failures in the log since the last success or
      Reset, which are the only events that close it, and stays below the threshold. */
  lemma {:induction false} ClosedCountsTheLog(cfg: Config, evs: seq<Event>)
    requires Legal(cfg, evs) && After(cfg, evs).view.state.Closed?
    ensures After(cfg, evs).view.failures == FailuresSince(evs) < Max(1, cfg.failureThreshold)
    ensures evs != [] && !After(cfg, evs[..|evs|-1]).view.state.Closed? ==>
              evs[|evs|-1].Reset? || (evs[|evs|-1].Done? && evs[|evs|-1].ok)
  {
    RunsAreSane(cfg, evs);
    if evs != [] {
      var before := evs[..|evs|-1];
      if After(cfg, before).view.state.Closed? {
        ClosedCountsTheLog(cfg, before);
      }
    }
  }

  ghost predicate IsFailure(e: Event) {
    e.Done? && !e.ok
  }

  /** An open breaker has recorded a failure, and remembers the time of the newest one. */
  lemma {:induction false} LastFailure(cfg: Config, evs: seq<Event>)
    requires Legal(cfg, evs)
    ensures forall i :: 0 <= i < |evs| && IsFailure(evs[i]) ==> evs[i].now <= After(cfg, evs).view.lastFailureTime
    ensures After(cfg, evs).view.lastFailureTime <= After(cfg, evs).clock
    ensures (exists i :: 0 <= i < |evs| && IsFailure(evs[i])) ==>
              exists i :: 0 <= i < |evs| && IsFailure(evs[i]) && evs[i].now == After(cfg, evs).view.lastFailureTime
    ensures After(cfg, evs).view.state.Open? ==> exists i :: 0 <= i < |evs| && IsFailure(evs[i])
  {
    if evs != [] {
      var before, e := evs[..|evs|-1], evs[|evs|-1];
      LastFailure(cfg, before);
      assert forall i :: 0 <= i < |before| ==> evs[i] == before[i];
      if IsFailure(e) {
        assert IsFailure(evs[|evs|-1]) && e.now == After(cfg, evs).view.lastFailureTime;
      }
    }
  }

  /** An open breaker lets a call through if and only if more than the reset timeout has
      passed since every failure recorded so far. */
  lemma {:induction false} OpenAdmitsOnlyAfterTimeout(cfg: Config, evs: seq<Event>, now: int)
    requires Legal(cfg, evs) && After(cfg, evs).view.state.Open?
    ensures Admit(cfg, After(cfg, evs).view, now).1 <==>
              forall i :: 0 <= i < |evs| && IsFailure(evs[i]) ==> now - evs[i].now > cfg.resetTimeout
  {
    LastFailure(cfg, evs);
  }

  ghost predicate TooEarly(cfg: Config, evs: seq<Event>, now: int) {
    exists i :: 0 <= i < |evs| && IsFailure(evs[i]) && now - evs[i].now <= cfg.resetTimeout
  }

  /** From the moment the breaker opens, and as long as Reset does not run, attempts that
      come within the timeout of some recorded failure are all turned away and leave it open. */
  lemma {:induction false} OpenStaysOpen(cfg: Config, evs: seq<Event>, more: seq<Event>)
    requires Legal(cfg, evs + more) && After(cfg, evs).view.state.Open?
    requires forall i :: 0 <= i < |more| ==> !more[i].Reset?
    requires forall i :: 0 <= i < |more| && more[i].Allow? ==> TooEarly(cfg, evs + more[..i], more[i].now)
    ensures After(cfg, evs + more).view.state.Open?
    ensures After(cfg, evs + more).admitted == After(cfg, evs).admitted
  {
    if more == [] {
      assert evs + more == evs;
    } else {
      var n := |more| - 1;
      var all, sofar := evs + more, evs + more[..n];
      assert all[..|all|-1] == sofar && all[|all|-1] == more[n];
      forall i | 0 <= i < n && more[..n][i].Allow?
        ensures TooEarly(cfg, evs + more[..n][..i], more[..n][i].now)
      {
        assert more[..n][..i] == more[..i];
      }
      OpenStaysOpen(cfg, evs, more[..n]);
      if more[n].Allow? {
        OpenAdmitsOnlyAfterTimeout(cfg, sofar, more[n].now);
      }
    }
  }
}
