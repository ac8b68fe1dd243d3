/** Counting calls over whole runs: how often a snapshot is taken, an export or an import
    started, and how often the migration waits for its PVC to be mounted. */
module MigrationLedger {
  import opened Common
  import opened MigrationModel
  import opened MigrationRuns
  import opened MigrationSafety
  import opened MigrationProgress
  import opened MigrationWaits

  function One(b: bool): nat {
    if b then 1 else 0
  }

  function Count(p: Event -> bool, log: seq<Event>): nat {
    if log == [] then 0 else Count(p, log[..|log|-1]) + One(p(log[|log|-1]))
  }

  lemma {:induction false} CountConcat(p: Event -> bool, log: seq<Event>, calls: seq<Event>)
    ensures Count(p, log + calls) == Count(p, log) + Count(p, calls)
  {
    if calls == [] {
      assert log + calls == log;
    } else {
      var all := log + calls;
      assert all[..|all|-1] == log + calls[..|calls|-1];
      CountConcat(p, log, calls[..|calls|-1]);
    }
  }

  lemma {:induction false} CountZero(p: Event -> bool, log: seq<Event>)
    ensures Count(p, log) == 0 <==> forall e :: e in log ==> !p(e)
  {
    if log != [] {
      var n := |log| - 1;
      CountZero(p, log[..n]);
      assert log == log[..n] + [log[n]];
    }
  }

  lemma {:induction false} CountSingle(p: Event -> bool, e: Event)
    ensures Count(p, [e]) == One(p(e))
  {
    assert [e][..0] == [];
  }

  /** The reconcile of a live migration dispatches on its phase. */
  predicate Live(w: World) {
    w.present && w.finalizer && !w.deleting
  }

  // ---------- Snapshots, exports and imports ----------

  /** A successful call of the kind that belongs to the phase. */
  predicate Succeeded(k: Phase, e: Event) {
    match k
    case Snapshotting => e.SnapshotCreate? && e.created.Some?
    case Exporting => e.ExportDisk? && e.resp.Some?
    case Importing => e.ImportDisk? && e.resp.Some?
    case _ => false
  }

  function Successes(k: Phase, log: seq<Event>): nat {
    Count(e => Succeeded(k, e), log)
  }

  function RecordedId(k: Phase, st: Status): Option<string> {
    match k
    case Snapshotting => st.snapshotID
    case Exporting => st.exportID
    case _ => st.importID
  }

  predicate Kind(spec: Spec, k: Phase) {
    k == Exporting || k == Importing || (k == Snapshotting && spec.snapshotRef.None?)
  }

  /** The reconcile makes such a call and its status write is lost. */
  predicate LosesWrite(spec: Spec, k: Phase, w: World, i: Input) {
    i.Reconcile? && Live(w) && !i.answers.saved && Successes(k, Dispatch(spec, w.status, i.answers).calls) > 0
  }

  /** How many reconciles of the run do that. */
  function LostWrites(spec: Spec, k: Phase, ins: seq<Input>): nat {
    if ins == [] then 0 else
      LostWrites(spec, k, ins[..|ins|-1]) + One(LosesWrite(spec, k, Run(spec, CREATED, ins[..|ins|-1]), ins[|ins|-1]))
  }

  lemma {:induction false} NoOtherSuccess(spec: Spec, k: Phase, st: Status, a: Answers)
    requires Kind(spec, k) && st.phase != k
    ensures Successes(k, Dispatch(spec, st, a).calls) == 0
  {
    forall e | e in Dispatch(spec, st, a).calls ensures !Succeeded(k, e) {
      CallKinds(spec, st, a, e);
    }
    CountZero(e => Succeeded(k, e), Dispatch(spec, st, a).calls);
  }

  lemma {:induction false} IdKept(spec: Spec, k: Phase, st: Status, a: Answers)
    requires Kind(spec, k) && st.phase != k
    ensures RecordedId(k, Dispatch(spec, st, a).stored) == RecordedId(k, st)
  {
    DispatchMoves(spec, st, a);
  }

  lemma {:induction false} OwnPhase(spec: Spec, k: Phase, st: Status, a: Answers)
    requires Kind(spec, k) && st.phase == k
    ensures var eff := Dispatch(spec, st, a);
            var n := Successes(k, eff.calls);
            n + One(RecordedId(k, st).Some?) == One(RecordedId(k, eff.stored).Some?) + One(!a.saved && n > 0)
  {
    var calls := Dispatch(spec, st, a).calls;
    assert |calls| <= 1;
    if |calls| == 1 {
      assert calls == [calls[0]];
      CountSingle(e => Succeeded(k, e), calls[0]);
    }
  }

  lemma {:induction false} StepLedger(spec: Spec, k: Phase, st: Status, a: Answers)
    requires Kind(spec, k)
    ensures var eff := Dispatch(spec, st, a);
            var n := Successes(k, eff.calls);
            n + One(RecordedId(k, st).Some?) == One(RecordedId(k, eff.stored).Some?) + One(!a.saved && n > 0)
  {
    if st.phase == k {
      OwnPhase(spec, k, st, a);
    } else {
      NoOtherSuccess(spec, k, st, a);
      IdKept(spec, k, st, a);
    }
  }

  lemma {:induction false} DeletionSucceedsNothing(spec: Spec, k: Phase, st: Status, a: Answers)
    ensures Successes(k, DeletionCalls(spec, st, a)) == 0
  {
    forall e | e in DeletionCalls(spec, st, a) ensures !Succeeded(k, e) {
      DeletionMakes(spec, st, a, e);
    }
    CountZero(e => Succeeded(k, e), DeletionCalls(spec, st, a));
  }

  lemma {:induction false} NextLedger(spec: Spec, k: Phase, w: World, i: Input)
    requires Kind(spec, k)
    ensures var w' := Next(spec, w, i);
            Successes(k, w'.log) + One(RecordedId(k, w.status).Some?)
            == Successes(k, w.log) + One(RecordedId(k, w'.status).Some?) + One(LosesWrite(spec, k, w, i))
  {
    if w.present && i.Reconcile? {
      if w.deleting {
        CountConcat(e => Succeeded(k, e), w.log, DeletionCalls(spec, w.status, i.answers));
        DeletionSucceedsNothing(spec, k, w.status, i.answers);
      } else if w.finalizer {
        CountConcat(e => Succeeded(k, e), w.log, Dispatch(spec, w.status, i.answers).calls);
        StepLedger(spec, k, w.status, i.answers);
      }
    }
  }

  /** In every run the successful snapshots, exports and imports are the recorded one and one
      for each lost write of its identifier. */
  lemma {:induction false} SuccessesConserved(spec: Spec, k: Phase, ins: seq<Input>)
    requires Kind(spec, k)
    ensures var w := Run(spec, CREATED, ins);
            Successes(k, w.log) == One(RecordedId(k, w.status).Some?) + LostWrites(spec, k, ins)
  {
    if ins != [] {
      SuccessesConserved(spec, k, ins[..|ins|-1]);
      NextLedger(spec, k, Run(spec, CREATED, ins[..|ins|-1]), ins[|ins|-1]);
    }
  }

  /** A migration that is given a snapshot takes none. */
  lemma {:induction false} GivenSnapshotIsUsed(spec: Spec, ins: seq<Input>, e: Event)
    requires spec.snapshotRef.Some? && e in Run(spec, CREATED, ins).log
    ensures !e.SnapshotCreate?
  {
    if ins != [] {
      var w, i := Run(spec, CREATED, ins[..|ins|-1]), ins[|ins|-1];
      if e in w.log {
        GivenSnapshotIsUsed(spec, ins[..|ins|-1], e);
      } else if w.deleting {
        DeletionMakes(spec, w.status, i.answers, e);
      } else {
        CallKinds(spec, w.status, i.answers, e);
      }
    }
  }

  // ---------- The wait for the PVC ----------

  predicate IsMountWait(e: Event) {
    e.MountWait?
  }

  function MountWaits(log: seq<Event>): nat {
    Count(IsMountWait, log)
  }

  /** A reconcile in Validating waits if and only if it stores the PVC name. */
  lemma {:induction false} WaitsWhenStored(spec: Spec, st: Status, a: Answers)
    ensures var eff := ValidatingPhase(spec, st, a);
            if st.storagePVC.None? && eff.stored.storagePVC.Some?
            then EnsurePvc(spec, a).Some? && eff.calls == EnsurePvc(spec, a).value + [MountWait(a.providersMounted)]
            else eff.stored.storagePVC == st.storagePVC && forall e :: e in eff.calls ==> !e.MountWait?
  {
  }

  lemma {:induction false} OneWaitAfter(calls: seq<Event>, mounted: bool)
    requires forall e :: e in calls ==> !e.MountWait?
    ensures MountWaits(calls + [MountWait(mounted)]) == 1
  {
    CountConcat(IsMountWait, calls, [MountWait(mounted)]);
    CountSingle(IsMountWait, MountWait(mounted));
    CountZero(IsMountWait, calls);
  }

  lemma {:induction false} ValidatingWaits(spec: Spec, st: Status, a: Answers)
    ensures MountWaits(ValidatingPhase(spec, st, a).calls) + One(st.storagePVC.Some?)
         == One(ValidatingPhase(spec, st, a).stored.storagePVC.Some?)
  {
    WaitsWhenStored(spec, st, a);
    if st.storagePVC.None? && ValidatingPhase(spec, st, a).stored.storagePVC.Some? {
      OneWaitAfter(EnsurePvc(spec, a).value, a.providersMounted);
    } else {
      CountZero(IsMountWait, ValidatingPhase(spec, st, a).calls);
    }
  }

  lemma {:induction false} StepWaits(spec: Spec, st: Status, a: Answers)
    ensures MountWaits(Dispatch(spec, st, a).calls) + One(st.storagePVC.Some?) == One(Dispatch(spec, st, a).stored.storagePVC.Some?)
  {
    if st.phase == Validating {
      ValidatingWaits(spec, st, a);
    } else {
      DispatchMoves(spec, st, a);
      forall e | e in Dispatch(spec, st, a).calls ensures !e.MountWait? {
        CallKinds(spec, st, a, e);
      }
      CountZero(IsMountWait, Dispatch(spec, st, a).calls);
    }
  }

  lemma {:induction false} DeletionWaitsNot(spec: Spec, st: Status, a: Answers)
    ensures MountWaits(DeletionCalls(spec, st, a)) == 0
  {
    forall e | e in DeletionCalls(spec, st, a) ensures !e.MountWait? {
      DeletionMakes(spec, st, a, e);
    }
    CountZero(IsMountWait, DeletionCalls(spec, st, a));
  }

  /** In every run the migration waits once, when it stores the PVC name, and never again. */
  lemma {:induction false} WaitsOnce(spec: Spec, ins: seq<Input>)
    ensures MountWaits(Run(spec, CREATED, ins).log) == One(Run(spec, CREATED, ins).status.storagePVC.Some?)
  {
    if ins != [] {
      var w, i := Run(spec, CREATED, ins[..|ins|-1]), ins[|ins|-1];
      WaitsOnce(spec, ins[..|ins|-1]);
      if w.present && i.Reconcile? {
        if w.deleting {
          CountConcat(IsMountWait, w.log, DeletionCalls(spec, w.status, i.answers));
          DeletionWaitsNot(spec, w.status, i.answers);
        } else if w.finalizer {
          CountConcat(IsMountWait, w.log, Dispatch(spec, w.status, i.answers).calls);
          StepWaits(spec, w.status, i.answers);
        }
      }
    }
  }

  /** Past Validating, the providers were seen to have mounted the PVC. */
  ghost predicate MountSeen(w: World) {
    Touring(w.status.phase) && !BeforeSnapshot(w.status.phase) && w.status.storagePVC.Some? ==> MountWait(true) in w.log
  }

  /** The wait fails and the transition to Failed is lost. */
  function NotMounted(): Input {
    Reconcile(AllGood(0, Missing).(providersMounted := false, saved := false))
  }

  /** The PVC name is stored, the failed wait logged, and nothing else changed. */
  lemma {:induction false} WaitFails(spec: Spec, w: World)
    requires OnTour(spec, w) && w.status.phase == Validating && w.status.storagePVC.None?
    ensures var w' := Next(spec, w, NotMounted());
            w'.status == w.status.(storagePVC := Some(PvcName(spec))) && w'.log == w.log + [MountWait(false)] && OnTour(spec, w')
  {
  }

  lemma {:induction false} WaitsNoMore(spec: Spec, w: World)
    requires OnTour(spec, w) && w.status.phase == Validating && w.status.storagePVC.Some?
    ensures var w' := Next(spec, w, Good(0));
            w'.status == w.status.(phase := if spec.createSnapshot then Snapshotting else Exporting) && w'.log == w.log
  {
    assert Dispatch(spec, w.status, Good(0).answers).calls == [];
  }

  /** In its first attempt the migration goes on although the wait failed. */
  lemma {:induction false} FailedWaitIsSkipped(spec: Spec) returns (ins: seq<Input>)
    requires Stored(spec)
    ensures var w := Run(spec, CREATED, ins);
            && w.status.phase == (if spec.createSnapshot then Snapshotting else Exporting)
            && w.status.retryCount == 0 && w.log == [MountWait(false)] && !MountSeen(w)
  {
    var one := Begun(spec);
    GoodStep(spec, Run(spec, CREATED, one), 0);
    OneMore(spec, CREATED, one, Good(0));
    var two := one + [Good(0)];
    assert Run(spec, CREATED, two).status == NEW_STATUS.(phase := Validating) && Run(spec, CREATED, two).log == [];
    WaitFails(spec, Run(spec, CREATED, two));
    OneMore(spec, CREATED, two, NotMounted());
    var three := two + [NotMounted()];
    WaitsNoMore(spec, Run(spec, CREATED, three));
    OneMore(spec, CREATED, three, Good(0));
    ins := three + [Good(0)];
  }

  /** In every run the migration goes past Validating only once the PVC was seen mounted, if
      and only if it has no usable storage. */
  lemma {:induction false} MountSeenIff(spec: Spec)
    ensures (forall ins :: MountSeen(Run(spec, CREATED, ins))) <==> !Stored(spec)
  {
    if Stored(spec) {
      var ins := FailedWaitIsSkipped(spec);
      assert !MountSeen(Run(spec, CREATED, ins));
    } else {
      forall ins ensures MountSeen(Run(spec, CREATED, ins)) {
        NeedsStorage(spec, ins);
      }
    }
  }
}
