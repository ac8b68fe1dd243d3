/** How long a migration can run: a measure that every stored phase change lowers, the
    bound it gives on whole runs, and a run that attains the bound. */
module MigrationProgress {
  import opened Common
  import opened MigrationModel
  import opened MigrationRuns

  /** The number of phases of an attempt, the failure that ends it not counted. */
  function Stages(spec: Spec): nat {
    if spec.createSnapshot then 7 else 6
  }

  /** The phases that can still follow in an attempt. */
  function Rank(spec: Spec, p: Phase): nat {
    match p
    case Unset => Stages(spec) + 1
    case Pending => Stages(spec)
    case Validating => Stages(spec) - 1
    case Snapshotting => 5
    case Exporting => 4
    case Transferring => 4
    case Converting => 4
    case Importing => 3
    case Creating => 2
    case ValidatingTarget => 1
    case Ready => 0
    case Failed => 0
  }

  /** The phase changes of n attempts that are retried. */
  function Retried(spec: Spec, n: int): int {
    if spec.createSnapshot then 8 * n else 7 * n
  }

  ghost predicate LexLess(spec: Spec, st': Status, st: Status) {
    var left, left' := RetryBudget(spec) - st.retryCount, RetryBudget(spec) - st'.retryCount;
    0 <= left' <= left && (left' == left ==> Rank(spec, st'.phase) < Rank(spec, st.phase))
  }

  lemma {:induction false} MoveLowers(spec: Spec, st: Status, eff: Effect)
    requires st.retryCount <= RetryBudget(spec) && Move(spec, st, eff)
    ensures eff.stored.phase != st.phase ==> LexLess(spec, eff.stored, st)
    ensures eff.stored.phase == st.phase ==> eff.stored.retryCount == st.retryCount
    ensures st.phase == Ready ==> eff.stored.phase == Ready
  {
    if eff.stored == st || eff.stored == st.(phase := Failed) {
    } else if st.phase == Failed {
      assert RetryMove(spec, st, eff.stored);
    }
  }

  /** (retries left, phase rank) as one number. */
  function Measure(spec: Spec, st: Status): int {
    Retried(spec, RetryBudget(spec) - st.retryCount) + Rank(spec, st.phase)
  }

  function PhaseChanges(spec: Spec, w: World, ins: seq<Input>): nat {
    if ins == [] then 0 else
      var before := ins[..|ins|-1];
      PhaseChanges(spec, w, before)
      + if Run(spec, w, before).status.phase != Run(spec, w, ins).status.phase then 1 else 0
  }

  lemma {:induction false} NextLowers(spec: Spec, w: World, i: Input)
    requires Inv(spec, w.status, w.log)
    ensures var w' := Next(spec, w, i);
            Measure(spec, w'.status) + (if w'.status.phase != w.status.phase then 1 else 0) <= Measure(spec, w.status)
  {
    if w.present && i.Reconcile? && !w.deleting && w.finalizer {
      DispatchMoves(spec, w.status, i.answers);
      MoveLowers(spec, w.status, Dispatch(spec, w.status, i.answers));
    }
  }

  /** From any reachable state the phase changes still to come are paid for by the measure. */
  lemma {:induction false} ChangesArePaid(spec: Spec, start: seq<Input>, ins: seq<Input>)
    ensures var w := Run(spec, CREATED, start);
            0 <= PhaseChanges(spec, w, ins) <= Measure(spec, w.status) - Measure(spec, Run(spec, w, ins).status)
  {
    if ins != [] {
      var before := ins[..|ins|-1];
      ChangesArePaid(spec, start, before);
      var w := Run(spec, CREATED, start);
      RunConcat(spec, CREATED, start, before);
      Reachable(spec, start + before);
      NextLowers(spec, Run(spec, w, before), ins[|ins|-1]);
    }
  }

  /** A run from a Pending state changes phase at most 8 * maxRetries + 7 times, one less for
      each attempt if no snapshot is taken; without a retry policy at most seven times. */
  lemma {:induction false} PhaseChangesBounded(spec: Spec, start: seq<Input>, ins: seq<Input>)
    requires Run(spec, CREATED, start).status.phase == Pending
    ensures PhaseChanges(spec, Run(spec, CREATED, start), ins) <= Retried(spec, RetryBudget(spec)) + Stages(spec)
    ensures PhaseChanges(spec, Run(spec, CREATED, start), ins) <= 8 * RetryBudget(spec) + 7
    ensures Policy(spec).None? ==> PhaseChanges(spec, Run(spec, CREATED, start), ins) <= 7
  {
    ChangesArePaid(spec, start, ins);
    RunConcat(spec, CREATED, start, ins);
    Reachable(spec, start + ins);
  }

  /** Ready never ends. */
  lemma {:induction false} ReadyAbsorbs(spec: Spec, w: World, ins: seq<Input>)
    requires w.status.phase == Ready
    ensures Run(spec, w, ins).status.phase == Ready
  {
    if ins != [] {
      ReadyAbsorbs(spec, w, ins[..|ins|-1]);
      var w', i := Run(spec, w, ins[..|ins|-1]), ins[|ins|-1];
      if i.Reconcile? {
        DispatchMoves(spec, w'.status, i.answers);
      }
    }
  }

  /** Failed with no retries left never ends either, and makes no further call unless the
      migration is deleted. */
  lemma {:induction false} ExhaustedAbsorbs(spec: Spec, w: World, ins: seq<Input>)
    requires w.status.phase == Failed && Exhausted(spec, w.status)
    ensures Run(spec, w, ins).status == w.status
    ensures !Run(spec, w, ins).deleting ==> Run(spec, w, ins).log == w.log
  {
    if ins != [] {
      ExhaustedAbsorbs(spec, w, ins[..|ins|-1]);
    }
  }

  // ---------- The bound is attained ----------

  /** Answers under which every phase succeeds at once. */
  function AllGood(now: int, target: Target): Answers {
    Answers(now, Provisioned("vm"), true, true, true, true, true, PvcFound, true, true,
            Some(SnapshotResponse("snap", None)), Some(DiskResponse("export", "sum", None)), Some(DiskResponse("disk", "sum", None)),
            TaskOk, target, true, true, true, true, true, true, true, true)
  }

  function Good(now: int): Input {
    Reconcile(AllGood(now, Found(Some("id"), true, false, false)))
  }

  function TargetLost(now: int): Input {
    Reconcile(AllGood(now, LookupError))
  }

  function Successor(spec: Spec, p: Phase): Phase {
    match p
    case Pending => Validating
    case Validating => if spec.createSnapshot then Snapshotting else Exporting
    case Snapshotting => Exporting
    case Exporting => Importing
    case Importing => Creating
    case Creating => ValidatingTarget
    case ValidatingTarget => Ready
    case _ => p
  }

  /** The phases such a run goes through. */
  predicate Touring(p: Phase) {
    p.Pending? || p.Validating? || p.Snapshotting? || p.Exporting? || p.Importing? || p.Creating? || p.ValidatingTarget? || p.Ready?
  }

  /** A live migration between two reconciles of such a run. */
  ghost predicate OnTour(spec: Spec, w: World) {
    && Stored(spec)
    && w.present && w.finalizer && !w.deleting
    && w.status.taskRef.None? && !w.status.cleanedUp
    && (w.status.phase.Pending? || w.status.phase.Validating? || w.status.storagePVC.Some?)
  }

  lemma {:induction false} GoodStep(spec: Spec, w: World, now: int)
    requires OnTour(spec, w) && Successor(spec, w.status.phase) != w.status.phase
    ensures var w' := Next(spec, w, Good(now));
            && OnTour(spec, w') && w'.status.phase == Successor(spec, w.status.phase)
            && w'.status.retryCount == w.status.retryCount && w'.status.lastRetryTime == w.status.lastRetryTime
  {
  }

  lemma {:induction false} OneMore(spec: Spec, w: World, ins: seq<Input>, i: Input)
    ensures Run(spec, w, ins + [i]) == Next(spec, Run(spec, w, ins), i)
    ensures PhaseChanges(spec, w, ins + [i])
         == PhaseChanges(spec, w, ins) + if Run(spec, w, ins).status.phase != Next(spec, Run(spec, w, ins), i).status.phase then 1 else 0
  {
    assert (ins + [i])[..|ins|] == ins;
  }

  lemma {:induction false} SuccessorRank(spec: Spec, p: Phase)
    requires Touring(p) && p != Ready && (p == Snapshotting ==> spec.createSnapshot)
    ensures var q := Successor(spec, p);
            Touring(q) && Rank(spec, q) == Rank(spec, p) - 1 && (q == Snapshotting ==> spec.createSnapshot)
  {
  }

  /** On to ValidatingTarget, one phase after the other. */
  lemma {:induction false} ToValidatingTarget(spec: Spec, w: World, before: seq<Input>, now: int) returns (ins: seq<Input>)
    requires var w0 := Run(spec, w, before);
             && OnTour(spec, w0) && Touring(w0.status.phase) && w0.status.phase != Ready
             && (w0.status.phase == Snapshotting ==> spec.createSnapshot)
    ensures var w0, w' := Run(spec, w, before), Run(spec, w, ins);
            && OnTour(spec, w') && w'.status.phase == ValidatingTarget
            && w'.status.retryCount == w0.status.retryCount && w'.status.lastRetryTime == w0.status.lastRetryTime
            && PhaseChanges(spec, w, ins) == PhaseChanges(spec, w, before) + Rank(spec, w0.status.phase) - 1
    decreases Rank(spec, Run(spec, w, before).status.phase)
  {
    ins := before;
    if Run(spec, w, before).status.phase != ValidatingTarget {
      SuccessorRank(spec, Run(spec, w, before).status.phase);
      GoodStep(spec, Run(spec, w, before), now);
      OneMore(spec, w, before, Good(now));
      ins := ToValidatingTarget(spec, w, before + [Good(now)], now);
    }
  }

  lemma {:induction false} LostStep(spec: Spec, w: World, now: int)
    requires OnTour(spec, w) && w.status.phase == ValidatingTarget
    ensures var w' := Next(spec, w, TargetLost(now));
            OnTour(spec, w') && w'.status == w.status.(phase := Failed)
  {
  }

  /** From Pending through every phase, to Ready or, with a target VM that is lost at the
      end, to Failed. */
  lemma {:induction false} Attempt(spec: Spec, w: World, before: seq<Input>, now: int, lost: bool) returns (ins: seq<Input>)
    requires OnTour(spec, Run(spec, w, before)) && Run(spec, w, before).status.phase == Pending
    ensures var st, w' := Run(spec, w, before).status, Run(spec, w, ins);
            && OnTour(spec, w') && w'.status.phase == (if lost then Failed else Ready)
            && w'.status.retryCount == st.retryCount && w'.status.lastRetryTime == st.lastRetryTime
    ensures PhaseChanges(spec, w, ins) == PhaseChanges(spec, w, before) + Stages(spec)
  {
    ins := ToValidatingTarget(spec, w, before, now);
    var last := if lost then TargetLost(now) else Good(now);
    if lost {
      LostStep(spec, Run(spec, w, ins), now);
    } else {
      GoodStep(spec, Run(spec, w, ins), now);
    }
    OneMore(spec, w, ins, last);
    ins := ins + [last];
  }

  /** A failed attempt that is retried as soon as it may be. */
  lemma {:induction false} RetryStep(spec: Spec, w: World) returns (retry: Input)
    requires OnTour(spec, w) && w.status.phase == Failed && w.status.retryCount < RetryBudget(spec) && w.status.storagePVC.Some?
    ensures var w' := Next(spec, w, retry);
            OnTour(spec, w') && w'.status.phase == Pending && w'.status.retryCount == w.status.retryCount + 1
  {
    var now := if w.status.lastRetryTime.None? then 0 else
                 w.status.lastRetryTime.value + RetryDelay(Policy(spec).value, w.status.retryCount);
    retry := Good(now);
  }

  /** From Pending, the attempts that are left can all be used up and all be full ones:
      the bound is attained, and the last attempt ends in Ready. */
  lemma {:induction false} LongestRun(spec: Spec, w: World, before: seq<Input>) returns (ins: seq<Input>)
    requires OnTour(spec, Run(spec, w, before)) && Run(spec, w, before).status.phase == Pending
    requires Run(spec, w, before).status.retryCount <= RetryBudget(spec)
    ensures PhaseChanges(spec, w, ins)
         == PhaseChanges(spec, w, before) + Retried(spec, RetryBudget(spec) - Run(spec, w, before).status.retryCount) + Stages(spec)
    ensures Run(spec, w, ins).status.phase == Ready
    decreases RetryBudget(spec) - Run(spec, w, before).status.retryCount
  {
    if Run(spec, w, before).status.retryCount == RetryBudget(spec) {
      ins := Attempt(spec, w, before, 0, false);
    } else {
      var failed := Attempt(spec, w, before, 0, true);
      var retry := RetryStep(spec, Run(spec, w, failed));
      OneMore(spec, w, failed, retry);
      ins := LongestRun(spec, w, failed + [retry]);
    }
  }

  /** A migration with usable storage can be created, use up every retry with full attempts,
      and still become Ready. */
  lemma {:induction false} FullRun(spec: Spec) returns (ins: seq<Input>)
    requires Stored(spec)
    ensures PhaseChanges(spec, CREATED, ins) == Retried(spec, RetryBudget(spec)) + Stages(spec) + 1
    ensures Run(spec, CREATED, ins).status.phase == Ready
  {
    OneMore(spec, CREATED, [], Good(0));
    OneMore(spec, CREATED, [] + [Good(0)], Good(0));
    ins := LongestRun(spec, CREATED, [] + [Good(0)] + [Good(0)]);
  }
}
