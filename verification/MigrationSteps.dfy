/** Exactly when a reconcile takes a migration to its next phase, when it fails it, and when
    it leaves it where it is. */
module MigrationSteps {
  import opened Common
  import opened MigrationModel
  import opened MigrationRuns
  import opened MigrationSafety
  import opened MigrationWaits
  import opened MigrationCleanup

  /** The PVC is there, or was missing and could be made because the user names none. */
  predicate PvcInPlace(spec: Spec, a: Answers)
    requires spec.storage.Some? && spec.storage.value.pvc.Some?
  {
    a.pvc.PvcFound? || (spec.storage.value.pvc.value.name == "" && a.pvc.PvcAbsent? && a.pvc.creatable)
  }

  /** The storage is usable, its PVC in place and, if that is news, mounted by the providers. */
  predicate StorageInPlace(spec: Spec, st: Status, a: Answers)
    requires spec.storage.Some?
  {
    Usable(spec.storage.value) && PvcInPlace(spec, a) && (st.storagePVC.Some? || a.providersMounted)
  }

  /** The migration knows where its exported disk is. */
  predicate HasUrl(spec: Spec, st: Status) {
    st.storagePVC.Some? && spec.storage.Some? && (spec.storage.value.kind == "" || spec.storage.value.kind == "pvc")
  }

  predicate TaskSucceeded(st: Status, a: Answers) {
    st.taskRef.Some? ==> a.poll == TaskOk
  }

  predicate TaskFailed(st: Status, a: Answers) {
    st.taskRef.Some? && (a.poll == StatusError || a.poll == TaskError)
  }

  /** What the phase was there for is done. */
  predicate GoesOn(spec: Spec, st: Status, a: Answers) {
    match st.phase
    case Validating =>
      && a.sourceVM.Provisioned? && a.sourceProvider && a.targetProvider && a.sourceReady && a.targetReady
      && (spec.storage.Some? ==> StorageInPlace(spec, st, a))
    case Snapshotting =>
      && !a.sourceVM.Unreadable?
      && (spec.snapshotRef.None? ==>
            && a.sourceProvider && a.instance
            && (st.snapshotID.Some? || (a.snapshot.Some? && a.snapshot.value.task.None?)))
    case Exporting =>
      && !a.sourceVM.Unreadable? && a.sourceProvider && a.instance
      && if st.exportID.Some? then TaskSucceeded(st, a)
         else HasUrl(spec, st) && a.exported.Some? && a.exported.value.task.None?
    case Importing =>
      && a.targetProvider && a.instance
      && if st.importID.Some? then TaskSucceeded(st, a)
         else HasUrl(spec, st) && a.imported.Some? && a.imported.value.task.None?
    case Creating => a.target.Found? && a.target.ready && a.target.id.Some?
    case ValidatingTarget => a.target.Found? && a.target.ready
    case _ => true
  }

  /** Something the phase needs is missing, or what it started has failed. */
  predicate Fails(spec: Spec, st: Status, a: Answers) {
    match st.phase
    case Validating =>
      || a.sourceVM.Unreadable?
      || (a.sourceVM.Provisioned? && (!a.sourceProvider || !a.targetProvider))
      || (&& a.sourceVM.Provisioned? && a.sourceReady && a.targetReady
          && spec.storage.Some? && !StorageInPlace(spec, st, a))
    case Snapshotting =>
      || a.sourceVM.Unreadable?
      || (spec.snapshotRef.None? && (!a.sourceProvider || !a.instance || (st.snapshotID.None? && a.snapshot.None?)))
    case Exporting =>
      || a.sourceVM.Unreadable? || !a.sourceProvider || !a.instance
      || if st.exportID.Some? then TaskFailed(st, a) else !HasUrl(spec, st) || a.exported.None?
    case Importing =>
      || !a.targetProvider || !a.instance
      || if st.importID.Some? then TaskFailed(st, a) else !HasUrl(spec, st) || a.imported.None?
    case Creating => a.target.LookupError? || (a.target.Missing? && st.diskInfo.Some? && !a.targetCreated)
    case ValidatingTarget => !a.target.Found?
    case _ => false
  }

  function NextPhase(spec: Spec, p: Phase): Phase {
    match p
    case Unset => Pending
    case Pending => Validating
    case Validating => if spec.createSnapshot then Snapshotting else Exporting
    case Snapshotting => Exporting
    case Exporting => Importing
    case Importing => Creating
    case Creating => ValidatingTarget
    case ValidatingTarget => Ready
    case _ => Importing
  }

  predicate Working(p: Phase) {
    !p.Ready? && !p.Failed?
  }

  predicate Exact(spec: Spec, st: Status, a: Answers, p: Phase) {
    p == if GoesOn(spec, st, a) then NextPhase(spec, st.phase) else if Fails(spec, st, a) then Failed else st.phase
  }

  lemma {:induction false} ValidatingExact(spec: Spec, st: Status, a: Answers)
    requires st.phase == Validating && a.saved && a.pvcSaved
    ensures Exact(spec, st, a, ValidatingPhase(spec, st, a).stored.phase)
  {
  }

  lemma {:induction false} SnapshottingExact(spec: Spec, st: Status, a: Answers)
    requires st.phase == Snapshotting && a.saved
    ensures Exact(spec, st, a, SnapshottingPhase(spec, st, a).stored.phase)
  {
  }

  lemma {:induction false} ExportingExact(spec: Spec, st: Status, a: Answers)
    requires st.phase == Exporting && a.saved
    ensures Exact(spec, st, a, ExportingPhase(spec, st, a).stored.phase)
  {
  }

  lemma {:induction false} ImportingExact(spec: Spec, st: Status, a: Answers)
    requires st.phase == Importing && a.saved
    ensures Exact(spec, st, a, ImportingPhase(spec, st, a).stored.phase)
  {
  }

  /** With its writes stored, a reconcile goes on to the next phase exactly if the phase's work
      is done, fails exactly if it cannot be, and else leaves the phase as it is. */
  lemma {:induction false} StepIsExact(spec: Spec, st: Status, a: Answers)
    requires Working(st.phase) && a.saved && a.pvcSaved
    ensures !(GoesOn(spec, st, a) && Fails(spec, st, a))
    ensures Exact(spec, st, a, Dispatch(spec, st, a).stored.phase)
  {
    match st.phase {
      case Validating => ValidatingExact(spec, st, a);
      case Snapshotting => SnapshottingExact(spec, st, a);
      case Exporting => ExportingExact(spec, st, a);
      case Importing => ImportingExact(spec, st, a);
      case _ =>
    }
  }

  /** Without them it leaves everything, but for a PVC name that was stored first. */
  lemma {:induction false} LostWriteKeeps(spec: Spec, st: Status, a: Answers)
    requires !a.saved
    ensures Dispatch(spec, st, a).stored == st.(storagePVC := Dispatch(spec, st, a).stored.storagePVC)
    ensures !a.pvcSaved ==> Dispatch(spec, st, a).stored == st
  {
  }

  /** The PVC name is stored exactly if the storage is usable and its PVC in place, once the
      source VM and both providers are. */
  lemma {:induction false} PvcStoredIff(spec: Spec, st: Status, a: Answers)
    requires st.phase == Validating && st.storagePVC.None? && a.pvcSaved
    ensures Dispatch(spec, st, a).stored.storagePVC.Some?
            <==> && a.sourceVM.Provisioned? && a.sourceProvider && a.targetProvider && a.sourceReady && a.targetReady
                 && spec.storage.Some? && Usable(spec.storage.value) && PvcInPlace(spec, a)
  {
  }

  /** A reconcile in Validating creates the PVC exactly if it gets that far, none is there, the
      user names none and one can be made; it has the generated name. */
  lemma {:induction false} PvcCreatedIff(spec: Spec, st: Status, a: Answers)
    requires st.phase == Validating
    ensures (exists name :: CreatePvc(name) in Dispatch(spec, st, a).calls)
            <==> && a.sourceVM.Provisioned? && a.sourceProvider && a.targetProvider && a.sourceReady && a.targetReady
                 && spec.storage.Some? && Usable(spec.storage.value)
                 && a.pvc.PvcAbsent? && a.pvc.creatable && spec.storage.value.pvc.value.name == ""
    ensures forall name :: CreatePvc(name) in Dispatch(spec, st, a).calls ==> name == spec.name + "-storage"
  {
    if EnsurePvc(spec, a).Some? && EnsurePvc(spec, a).value != [] {
      assert EnsurePvc(spec, a).value[0] == CreatePvc(PvcName(spec));
    }
  }

  /** The target's Ready condition counts as read exactly if a VM was found with it, and the
      completion marker is written exactly once the target is validated. */
  lemma {:induction false} TargetIsRead(spec: Spec, st: Status, a: Answers)
    ensures (exists key :: TargetReady(key) in Dispatch(spec, st, a).calls)
            <==> (st.phase == Creating || st.phase == ValidatingTarget) && a.target.Found? && a.target.ready
    ensures (exists key, stored :: MarkCompleted(key, stored) in Dispatch(spec, st, a).calls)
            <==> st.phase == ValidatingTarget && a.target.Found? && a.target.ready
    ensures forall key :: TargetReady(key) in Dispatch(spec, st, a).calls ==> key == TargetKey(spec)
    ensures forall key, stored :: MarkCompleted(key, stored) in Dispatch(spec, st, a).calls ==> key == TargetKey(spec) && stored == a.marked
  {
    TargetCalls(spec, st, a);
  }

  lemma {:induction false} TargetCalls(spec: Spec, st: Status, a: Answers)
    ensures var calls := Dispatch(spec, st, a).calls;
            if st.phase == Creating && a.target.Found? && a.target.ready then calls == [TargetReady(TargetKey(spec))]
            else if st.phase == ValidatingTarget && a.target.Found? && a.target.ready
            then calls == [TargetReady(TargetKey(spec)), MarkCompleted(TargetKey(spec), a.marked)]
            else forall e :: e in calls ==> !e.TargetReady? && !e.MarkCompleted?
  {
    forall e | e in Dispatch(spec, st, a).calls && (e.TargetReady? || e.MarkCompleted?)
      ensures (st.phase == Creating || st.phase == ValidatingTarget) && a.target.Found? && a.target.ready
    {
      if st.phase == Ready {
        ReadyCalls(spec, st, a, e);
      } else if st.phase == Validating {
        ValidatingCalls(spec, st, a, e);
      } else if st.phase == Importing {
        ImportingCalls(spec, st, a, e);
      }
    }
  }

  /** A target VM is asked for exactly if there is none and the disk record is there. */
  lemma {:induction false} TargetAskedIff(spec: Spec, st: Status, a: Answers)
    requires st.phase == Creating
    ensures (exists e :: e in Dispatch(spec, st, a).calls && e.CreateVM?) <==> a.target.Missing? && st.diskInfo.Some?
  {
    if a.target.Missing? && st.diskInfo.Some? {
      assert Dispatch(spec, st, a).calls[0].CreateVM?;
    }
  }

  /** The ID stored with the target is the one last read; a transfer that is done leaves no
      task behind; a snapshot that was given or taken is recorded. */
  lemma {:induction false} DoneIsRecorded(spec: Spec, st: Status, a: Answers)
    requires a.saved && GoesOn(spec, st, a)
    ensures var st' := Dispatch(spec, st, a).stored;
            && (st.phase == Creating || st.phase == ValidatingTarget ==> st'.targetVMID == a.target.id)
            && (st.phase == Exporting || st.phase == Importing ==> st'.taskRef.None?)
            && (st.phase == Snapshotting ==>
                  st'.snapshotID == if spec.snapshotRef.Some? then spec.snapshotRef
                                    else if st.snapshotID.Some? then st.snapshotID
                                    else Some(a.snapshot.value.id))
  {
  }

  /** The format recorded for an export, and for an import, is the one asked for. */
  predicate FormatsRecorded(spec: Spec, st: Status) {
    && (st.exportID.Some? ==> st.diskInfo.Some? && FormatIs(spec, st.diskInfo.value.sourceFormat))
    && (st.importID.Some? ==> st.diskInfo.Some? && FormatIs(spec, st.diskInfo.value.targetFormat))
  }

  lemma {:induction false} MoveRecordsFormats(spec: Spec, st: Status, eff: Effect)
    requires Shape(spec, st) && FormatsRecorded(spec, st) && Move(spec, st, eff)
    ensures FormatsRecorded(spec, eff.stored)
  {
  }

  /** In every run that holds of the stored record. */
  lemma {:induction false} FormatsAreRecorded(spec: Spec, ins: seq<Input>)
    ensures FormatsRecorded(spec, Run(spec, CREATED, ins).status)
  {
    if ins != [] {
      var w, i := Run(spec, CREATED, ins[..|ins|-1]), ins[|ins|-1];
      FormatsAreRecorded(spec, ins[..|ins|-1]);
      Reachable(spec, ins[..|ins|-1]);
      if i.Reconcile? {
        DispatchMoves(spec, w.status, i.answers);
        MoveRecordsFormats(spec, w.status, Dispatch(spec, w.status, i.answers));
      }
    }
  }

  // ---------- The finalizer ----------

  /** In every run nothing is called and no status stored before the finalizer is, and a
      migration that had it is gone only after its deletion was asked for. */
  lemma {:induction false} FinalizerFirst(spec: Spec, ins: seq<Input>)
    ensures var w := Run(spec, CREATED, ins);
            && (!w.finalizer ==> w.log == [] && w.status == NEW_STATUS && !w.deleting)
            && (w.finalizer && !w.present ==> w.deleting)
  {
    if ins != [] {
      FinalizerFirst(spec, ins[..|ins|-1]);
    }
  }

  /** From the request on deletion changes no status; each reconcile makes its calls until the
      finalizer is removed, and then the migration is gone and nothing more happens. */
  lemma {:induction false} DeletionIsFinal(spec: Spec, w: World, ins: seq<Input>)
    requires w.deleting || !w.present
    ensures Run(spec, w, ins).status == w.status && Run(spec, w, ins).deleting == w.deleting
    ensures !w.present ==> Run(spec, w, ins) == w
    ensures ins != [] && ins[|ins|-1].Reconcile? && Run(spec, w, ins[..|ins|-1]).present ==>
              && Run(spec, w, ins).log == Run(spec, w, ins[..|ins|-1]).log + DeletionCalls(spec, w.status, ins[|ins|-1].answers)
              && (Run(spec, w, ins).present <==> !ins[|ins|-1].answers.finalizerSaved)
  {
    if ins != [] {
      DeletionIsFinal(spec, w, ins[..|ins|-1]);
    }
  }
}
