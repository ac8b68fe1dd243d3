/** Whole runs of a migration: any sequence of reconciles with any answers, status writes
    that are stored or lost, retries, and a deletion request at any time. Reconciles of one
    migration are serial and read the status last stored. */
module MigrationRuns {
  import opened Common
  import opened MigrationModel

  /** The migration object in the API server, and every call made so far on its behalf. */
  datatype World = World(present: bool, finalizer: bool, deleting: bool, status: Status, log: seq<Event>)

  const CREATED := World(true, false, false, NEW_STATUS, [])

  datatype Input = RequestDeletion | Reconcile(answers: Answers)

  function Next(spec: Spec, w: World, i: Input): World {
    if !w.present then w else
      match i
      case RequestDeletion => if w.finalizer then w.(deleting := true) else w.(present := false)
      case Reconcile(a) =>
        if w.deleting then w.(log := w.log + DeletionCalls(spec, w.status, a), present := !a.finalizerSaved)
        else if !w.finalizer then w.(finalizer := a.finalizerSaved)
        else
          var eff := Dispatch(spec, w.status, a);
          w.(status := eff.stored, log := w.log + eff.calls)
  }

  function Run(spec: Spec, w: World, ins: seq<Input>): World {
    if ins == [] then w else Next(spec, Run(spec, w, ins[..|ins|-1]), ins[|ins|-1])
  }

  lemma {:induction false} RunConcat(spec: Spec, w: World, ins: seq<Input>, more: seq<Input>)
    ensures Run(spec, w, ins + more) == Run(spec, Run(spec, w, ins), more)
  {
    if more == [] {
      assert ins + more == ins;
    } else {
      var all := ins + more;
      assert all[..|all|-1] == ins + more[..|more|-1];
      RunConcat(spec, w, ins, more[..|more|-1]);
    }
  }

  // ---------- What every stored status satisfies ----------

  predicate AfterExport(p: Phase) {
    p.Importing? || AfterImport(p)
  }

  predicate AfterImport(p: Phase) {
    p.Creating? || p.ValidatingTarget? || p.Ready?
  }

  predicate BeforeSnapshot(p: Phase) {
    p.Unset? || p.Pending? || p.Validating?
  }

  predicate MakesSnapshot(spec: Spec) {
    spec.createSnapshot && spec.snapshotRef.None?
  }

  function RetryBudget(spec: Spec): nat {
    if Policy(spec).None? then 0 else Max(0, MaxRetries(Policy(spec).value))
  }

  ghost predicate Shape(spec: Spec, st: Status) {
    && st.phase != Transferring && st.phase != Converting
    && (st.phase == Snapshotting ==> spec.createSnapshot)
    && (st.storagePVC.Some? ==> st.storagePVC == Some(PvcName(spec)) && StorageUrl(spec, st).Some?)
    && (st.exportID.Some? ==> st.storagePVC.Some? && st.diskInfo.Some?)
    && (st.importID.Some? ==> st.exportID.Some?)
    && (AfterExport(st.phase) ==> st.exportID.Some?)
    && (AfterImport(st.phase) ==> st.importID.Some?)
    && (MakesSnapshot(spec) && (st.phase == Exporting || st.exportID.Some?) ==> st.snapshotID.Some?)
    && (spec.snapshotRef.Some? ==> st.snapshotID.None? || st.snapshotID == spec.snapshotRef)
    && (spec.createSnapshot && spec.snapshotRef.Some? && st.phase == Exporting ==> st.snapshotID == spec.snapshotRef)
  }

  ghost predicate TaskShape(st: Status) {
    && (BeforeSnapshot(st.phase) || AfterImport(st.phase) ==> st.taskRef.None?)
    && (st.phase == Snapshotting && st.exportID.Some? ==> st.taskRef.None?)
    && (st.phase == Importing && st.importID.None? ==> st.taskRef.None?)
  }

  ghost predicate RetryShape(spec: Spec, st: Status) {
    && st.retryCount <= RetryBudget(spec)
    && (st.retryCount > 0 <==> st.lastRetryTime.Some?)
    && (st.retryCount == 0 ==>
          && (BeforeSnapshot(st.phase) || st.phase.Snapshotting? ==> st.exportID.None?)
          && (st.phase == Exporting ==> st.importID.None? && (st.exportID.Some? ==> st.taskRef.Some?))
          && (st.phase == Importing && st.importID.Some? ==> st.taskRef.Some?))
  }

  ghost predicate Shapes(spec: Spec, st: Status) {
    Shape(spec, st) && TaskShape(st) && RetryShape(spec, st)
  }

  // ---------- The stored identifiers against the log ----------

  /** The transfer ended: it had no task, or its task was seen complete without error. */
  ghost predicate Finished(log: seq<Event>, phase: Phase, r: DiskResponse) {
    r.task.None? || PollTask(phase, r.id, r.task.value, TaskOk) in log
  }

  /** `e` is the export whose answer the status records. */
  ghost predicate RecordedExport(spec: Spec, st: Status, log: seq<Event>, e: Event) {
    && e.ExportDisk? && e.resp.Some? && Some(e.resp.value.id) == st.exportID
    && Some(e.url) == StorageUrl(spec, st) && e.format == DiskFormat(spec)
    && st.diskInfo.Some? && st.diskInfo.value.sourceChecksum == e.resp.value.checksum
    && (st.phase == Exporting && st.taskRef.Some? ==> e.resp.value.task == st.taskRef)
    && (st.retryCount == 0 && AfterExport(st.phase) ==> Finished(log, Exporting, e.resp.value))
  }

  ghost predicate ExportRecorded(spec: Spec, st: Status, log: seq<Event>) {
    exists e :: e in log && RecordedExport(spec, st, log, e)
  }

  /** `e` is the import whose answer the status records. */
  ghost predicate RecordedImport(spec: Spec, st: Status, log: seq<Event>, e: Event) {
    && e.ImportDisk? && e.resp.Some? && Some(e.resp.value.id) == st.importID
    && st.diskInfo.Some? && st.diskInfo.value.targetDiskID == st.importID
    && st.diskInfo.value.targetFormat == e.format
    && st.diskInfo.value.targetChecksum == e.resp.value.checksum
    && (st.phase == Importing && st.taskRef.Some? ==> e.resp.value.task == st.taskRef)
    && (st.retryCount == 0 && AfterImport(st.phase) ==> Finished(log, Importing, e.resp.value))
  }

  ghost predicate ImportRecorded(spec: Spec, st: Status, log: seq<Event>) {
    exists e :: e in log && RecordedImport(spec, st, log, e)
  }

  ghost predicate SnapshotCreated(log: seq<Event>, id: string) {
    exists e :: e in log && e.SnapshotCreate? && e.created.Some? && e.created.value.id == id
  }

  ghost predicate Inv(spec: Spec, st: Status, log: seq<Event>) {
    && Shapes(spec, st)
    && (st.exportID.Some? ==> ExportRecorded(spec, st, log))
    && (st.importID.Some? ==> ImportRecorded(spec, st, log))
    && (st.snapshotID.Some? && spec.snapshotRef.None? ==> SnapshotCreated(log, st.snapshotID.value))
    && (st.phase == Ready ==> TargetReady(TargetKey(spec)) in log)
  }

  // ---------- The moves a reconcile can make ----------

  lemma {:induction false} KeepExport(spec: Spec, st: Status, log: seq<Event>, st': Status, calls: seq<Event>)
    requires ExportRecorded(spec, st, log)
    requires st'.exportID == st.exportID && StorageUrl(spec, st') == StorageUrl(spec, st)
    requires st.diskInfo.Some? && st'.diskInfo.Some?
    requires st'.diskInfo.value.sourceChecksum == st.diskInfo.value.sourceChecksum
    requires st'.phase == Exporting && st'.taskRef.Some? ==> st.phase == Exporting && st'.taskRef == st.taskRef
    requires st'.retryCount == 0 && AfterExport(st'.phase) ==>
               (st.retryCount == 0 && AfterExport(st.phase))
               || (st.phase == Exporting && st.exportID.Some? && st.taskRef.Some? && PollTask(Exporting, st.exportID.value, st.taskRef.value, TaskOk) in calls)
    ensures ExportRecorded(spec, st', log + calls)
  {
    var e :| e in log && RecordedExport(spec, st, log, e);
    assert RecordedExport(spec, st', log + calls, e);
  }

  lemma {:induction false} KeepImport(spec: Spec, st: Status, log: seq<Event>, st': Status, calls: seq<Event>)
    requires ImportRecorded(spec, st, log)
    requires st'.importID == st.importID && st'.diskInfo == st.diskInfo
    requires st'.phase == Importing && st'.taskRef.Some? ==> st.phase == Importing && st'.taskRef == st.taskRef
    requires st'.retryCount == 0 && AfterImport(st'.phase) ==>
               (st.retryCount == 0 && AfterImport(st.phase))
               || (st.phase == Importing && st.importID.Some? && st.taskRef.Some? && PollTask(Importing, st.importID.value, st.taskRef.value, TaskOk) in calls)
    ensures ImportRecorded(spec, st', log + calls)
  {
    var e :| e in log && RecordedImport(spec, st, log, e);
    assert RecordedImport(spec, st', log + calls, e);
  }

  lemma {:induction false} KeepSnapshot(log: seq<Event>, id: string, calls: seq<Event>)
    requires SnapshotCreated(log, id)
    ensures SnapshotCreated(log + calls, id)
  {
    var e :| e in log && e.SnapshotCreate? && e.created.Some? && e.created.value.id == id;
    assert e in log + calls;
  }

  /** A move that touches neither the identifiers nor the disk records, to a phase that
      claims nothing new about them. */
  ghost predicate Tame(st: Status, st': Status) {
    && st'.exportID == st.exportID && st'.importID == st.importID && st'.diskInfo == st.diskInfo
    && (st.storagePVC.Some? ==> st'.storagePVC == st.storagePVC)
    && (st'.taskRef == st.taskRef || st'.taskRef.None?)
    && (st'.phase == Exporting && st'.taskRef.Some? && st.exportID.Some? ==> st.phase == Exporting)
    && (st'.phase == Importing && st'.taskRef.Some? ==> st.phase == Importing)
    && (st'.retryCount == 0 ==> st.retryCount == 0)
    && (AfterExport(st'.phase) ==> AfterExport(st.phase))
    && (AfterImport(st'.phase) ==> AfterImport(st.phase))
  }

  lemma {:induction false} TameMove(spec: Spec, st: Status, log: seq<Event>, st': Status, calls: seq<Event>)
    requires Inv(spec, st, log) && Shapes(spec, st') && Tame(st, st')
    requires st'.snapshotID == st.snapshotID || spec.snapshotRef.Some?
    requires st'.phase == Ready ==> TargetReady(TargetKey(spec)) in log + calls
    ensures Inv(spec, st', log + calls)
  {
    if st.exportID.Some? {
      KeepExport(spec, st, log, st', calls);
    }
    if st.importID.Some? {
      KeepImport(spec, st, log, st', calls);
    }
    if st.snapshotID.Some? && spec.snapshotRef.None? {
      KeepSnapshot(log, st.snapshotID.value, calls);
    }
  }

  lemma {:induction false} Stay(spec: Spec, st: Status, log: seq<Event>, calls: seq<Event>)
    requires Inv(spec, st, log)
    ensures Inv(spec, st, log + calls)
  {
    TameMove(spec, st, log, st, calls);
  }

  lemma {:induction false} ToFailed(spec: Spec, st: Status, log: seq<Event>, calls: seq<Event>)
    requires Inv(spec, st, log)
    ensures Inv(spec, st.(phase := Failed), log + calls)
  {
    TameMove(spec, st, log, st.(phase := Failed), calls);
  }

  lemma {:induction false} SnapshotTaken(spec: Spec, st: Status, log: seq<Event>, r: SnapshotResponse)
    requires Inv(spec, st, log) && st.phase == Snapshotting && spec.snapshotRef.None? && st.snapshotID.None?
    ensures var st' := st.(snapshotID := Some(r.id));
            var log' := log + [SnapshotCreate(Some(r))];
            && Inv(spec, st'.(taskRef := r.task), log')
            && Inv(spec, st'.(phase := Exporting, taskRef := None), log')
  {
    assert SnapshotCreate(Some(r)) in log + [SnapshotCreate(Some(r))];
  }

  lemma {:induction false} ExportStarted(spec: Spec, st: Status, log: seq<Event>, e: Event)
    requires Inv(spec, st, log) && st.phase == Exporting && st.exportID.None?
    requires e.ExportDisk? && e.resp.Some? && Some(e.url) == StorageUrl(spec, st) && e.format == DiskFormat(spec)
    ensures Inv(spec, ExportStart(spec, st, e.resp.value), log + [e])
  {
    var st' := ExportStart(spec, st, e.resp.value);
    assert e in log + [e] && RecordedExport(spec, st', log + [e], e);
    if st.snapshotID.Some? && spec.snapshotRef.None? {
      KeepSnapshot(log, st.snapshotID.value, [e]);
    }
  }

  lemma {:induction false} ExportFinished(spec: Spec, st: Status, log: seq<Event>, calls: seq<Event>)
    requires Inv(spec, st, log) && st.phase == Exporting && st.exportID.Some?
    requires st.taskRef.Some? ==> PollTask(Exporting, st.exportID.value, st.taskRef.value, TaskOk) in calls
    ensures Inv(spec, st.(phase := Importing, taskRef := None), log + calls)
  {
    var st' := st.(phase := Importing, taskRef := None);
    KeepExport(spec, st, log, st', calls);
    if st.importID.Some? {
      KeepImport(spec, st, log, st', calls);
    }
    if st.snapshotID.Some? && spec.snapshotRef.None? {
      KeepSnapshot(log, st.snapshotID.value, calls);
    }
  }

  lemma {:induction false} ImportStarted(spec: Spec, st: Status, log: seq<Event>, e: Event)
    requires Inv(spec, st, log) && st.phase == Importing && st.importID.None?
    requires e.ImportDisk? && e.resp.Some? && e.format == DiskFormat(spec)
    ensures Inv(spec, ImportStart(spec, st, e.resp.value), log + [e])
  {
    var st' := ImportStart(spec, st, e.resp.value);
    KeepExport(spec, st, log, st', [e]);
    assert e in log + [e] && RecordedImport(spec, st', log + [e], e);
    if st.snapshotID.Some? && spec.snapshotRef.None? {
      KeepSnapshot(log, st.snapshotID.value, [e]);
    }
  }

  lemma {:induction false} ImportFinished(spec: Spec, st: Status, log: seq<Event>, calls: seq<Event>)
    requires Inv(spec, st, log) && st.phase == Importing && st.importID.Some?
    requires st.taskRef.Some? ==> PollTask(Importing, st.importID.value, st.taskRef.value, TaskOk) in calls
    ensures Inv(spec, st.(phase := Creating, taskRef := None), log + calls)
  {
    var st' := st.(phase := Creating, taskRef := None);
    KeepExport(spec, st, log, st', calls);
    KeepImport(spec, st, log, st', calls);
    if st.snapshotID.Some? && spec.snapshotRef.None? {
      KeepSnapshot(log, st.snapshotID.value, calls);
    }
  }

  // ---------- Every reconcile makes one of these moves ----------

  ghost predicate ValidatingMove(spec: Spec, st: Status, st': Status) {
    && st' == st.(storagePVC := st'.storagePVC, phase := st'.phase)
    && (st'.phase == Validating || st'.phase == Failed || st'.phase == if spec.createSnapshot then Snapshotting else Exporting)
    && (st'.storagePVC == st.storagePVC
        || (st.storagePVC.None? && st'.storagePVC == Some(PvcName(spec)) && spec.storage.Some? && SupportedKind(spec.storage.value)))
  }

  ghost predicate SnapshottingMove(spec: Spec, st: Status, eff: Effect) {
    var st' := eff.stored;
    || (spec.snapshotRef.Some? && st' == st.(snapshotID := spec.snapshotRef, phase := Exporting))
    || (spec.snapshotRef.None? && st.snapshotID.Some? && st' == st.(phase := Exporting))
    || (&& spec.snapshotRef.None? && st.snapshotID.None?
        && |eff.calls| == 1 && eff.calls[0].SnapshotCreate? && eff.calls[0].created.Some?
        && var r := eff.calls[0].created.value;
           st' == if r.task.Some? then st.(snapshotID := Some(r.id), taskRef := r.task)
                  else st.(snapshotID := Some(r.id), phase := Exporting, taskRef := None))
  }

  ghost predicate ExportingMove(spec: Spec, st: Status, eff: Effect) {
    var st' := eff.stored;
    || (&& st.exportID.Some? && st' == st.(phase := Importing, taskRef := None)
        && (st.taskRef.Some? ==> eff.calls == [PollTask(Exporting, st.exportID.value, st.taskRef.value, TaskOk)]))
    || (&& st.exportID.None?
        && |eff.calls| == 1 && eff.calls[0].ExportDisk? && eff.calls[0].resp.Some?
        && Some(eff.calls[0].url) == StorageUrl(spec, st) && eff.calls[0].format == DiskFormat(spec)
        && st' == ExportStart(spec, st, eff.calls[0].resp.value))
  }

  ghost predicate ImportingMove(spec: Spec, st: Status, eff: Effect) {
    var st' := eff.stored;
    || (&& st.importID.Some? && st' == st.(phase := Creating, taskRef := None)
        && (st.taskRef.Some? ==> eff.calls == [PollTask(Importing, st.importID.value, st.taskRef.value, TaskOk)]))
    || (&& st.importID.None?
        && |eff.calls| == 1 && eff.calls[0].ImportDisk? && eff.calls[0].resp.Some?
        && eff.calls[0].format == DiskFormat(spec)
        && st' == ImportStart(spec, st, eff.calls[0].resp.value))
  }

  ghost predicate RetryMove(spec: Spec, st: Status, st': Status) {
    && !Exhausted(spec, st)
    && st'.lastRetryTime.Some?
    && st' == st.(retryCount := st.retryCount + 1, lastRetryTime := st'.lastRetryTime, phase := Pending, taskRef := None)
    && (st.lastRetryTime.Some? ==>
          st'.lastRetryTime.value - st.lastRetryTime.value >= RetryDelay(Policy(spec).value, st.retryCount))
  }

  /** The status stays, becomes Failed, or makes its phase's own move. */
  ghost predicate Move(spec: Spec, st: Status, eff: Effect) {
    var st' := eff.stored;
    || st' == st
    || (st' == st.(phase := Failed) && st.phase != Ready)
    || match st.phase
       case Unset => st' == st.(phase := Pending)
       case Pending => st' == st.(phase := Validating)
       case Validating => ValidatingMove(spec, st, st')
       case Snapshotting => SnapshottingMove(spec, st, eff)
       case Exporting => ExportingMove(spec, st, eff)
       case Transferring => st' == st.(phase := Importing)
       case Converting => st' == st.(phase := Importing)
       case Importing => ImportingMove(spec, st, eff)
       case Creating => st' == st.(targetVMID := st'.targetVMID, phase := ValidatingTarget)
       case ValidatingTarget => st' == st.(targetVMID := st'.targetVMID, phase := Ready) && TargetReady(TargetKey(spec)) in eff.calls
       case Ready => st' == st.(cleanedUp := true)
       case Failed => RetryMove(spec, st, st')
  }

  lemma {:induction false} ValidatingMoves(spec: Spec, st: Status, a: Answers)
    requires st.phase == Validating
    ensures Move(spec, st, ValidatingPhase(spec, st, a))
  {
  }

  lemma {:induction false} SnapshottingMoves(spec: Spec, st: Status, a: Answers)
    requires st.phase == Snapshotting
    ensures Move(spec, st, SnapshottingPhase(spec, st, a))
  {
  }

  lemma {:induction false} ExportingMoves(spec: Spec, st: Status, a: Answers)
    requires st.phase == Exporting
    ensures Move(spec, st, ExportingPhase(spec, st, a))
  {
  }

  lemma {:induction false} ImportingMoves(spec: Spec, st: Status, a: Answers)
    requires st.phase == Importing
    ensures Move(spec, st, ImportingPhase(spec, st, a))
  {
  }

  lemma {:induction false} DispatchMoves(spec: Spec, st: Status, a: Answers)
    ensures Move(spec, st, Dispatch(spec, st, a))
  {
    match st.phase {
      case Validating => ValidatingMoves(spec, st, a);
      case Snapshotting => SnapshottingMoves(spec, st, a);
      case Exporting => ExportingMoves(spec, st, a);
      case Importing => ImportingMoves(spec, st, a);
      case _ =>
    }
  }

  // ---------- Every move keeps the invariant ----------

  lemma {:induction false} SnapshottingKeeps(spec: Spec, st: Status, log: seq<Event>, eff: Effect)
    requires Inv(spec, st, log) && st.phase == Snapshotting && SnapshottingMove(spec, st, eff)
    ensures Inv(spec, eff.stored, log + eff.calls)
  {
    if spec.snapshotRef.Some? || st.snapshotID.Some? {
      TameMove(spec, st, log, eff.stored, eff.calls);
    } else {
      SnapshotTaken(spec, st, log, eff.calls[0].created.value);
      assert eff.calls == [SnapshotCreate(Some(eff.calls[0].created.value))];
    }
  }

  lemma {:induction false} ExportingKeeps(spec: Spec, st: Status, log: seq<Event>, eff: Effect)
    requires Inv(spec, st, log) && st.phase == Exporting && ExportingMove(spec, st, eff)
    ensures Inv(spec, eff.stored, log + eff.calls)
  {
    if st.exportID.Some? {
      ExportFinished(spec, st, log, eff.calls);
    } else {
      ExportStarted(spec, st, log, eff.calls[0]);
      assert eff.calls == [eff.calls[0]];
    }
  }

  lemma {:induction false} ImportingKeeps(spec: Spec, st: Status, log: seq<Event>, eff: Effect)
    requires Inv(spec, st, log) && st.phase == Importing && ImportingMove(spec, st, eff)
    ensures Inv(spec, eff.stored, log + eff.calls)
  {
    if st.importID.Some? {
      ImportFinished(spec, st, log, eff.calls);
    } else {
      ImportStarted(spec, st, log, eff.calls[0]);
      assert eff.calls == [eff.calls[0]];
    }
  }

  lemma {:induction false} ValidatingKeeps(spec: Spec, st: Status, log: seq<Event>, st': Status, calls: seq<Event>)
    requires Inv(spec, st, log) && st.phase == Validating && ValidatingMove(spec, st, st')
    ensures Inv(spec, st', log + calls)
  {
    TameMove(spec, st, log, st', calls);
  }

  lemma {:induction false} RetryKeeps(spec: Spec, st: Status, log: seq<Event>, st': Status, calls: seq<Event>)
    requires Inv(spec, st, log) && st.phase == Failed && RetryMove(spec, st, st')
    ensures Inv(spec, st', log + calls)
  {
    TameMove(spec, st, log, st', calls);
  }

  lemma {:induction false} PlainKeeps(spec: Spec, st: Status, log: seq<Event>, eff: Effect)
    requires Inv(spec, st, log) && Move(spec, st, eff) && eff.stored != st && eff.stored.phase != Failed
    requires st.phase.Unset? || st.phase.Pending? || AfterImport(st.phase)
    ensures Inv(spec, eff.stored, log + eff.calls)
  {
    TameMove(spec, st, log, eff.stored, eff.calls);
  }

  lemma {:induction false} MoveKeeps(spec: Spec, st: Status, log: seq<Event>, eff: Effect)
    requires Inv(spec, st, log) && Move(spec, st, eff)
    ensures Inv(spec, eff.stored, log + eff.calls)
  {
    if eff.stored == st {
      Stay(spec, st, log, eff.calls);
    } else if eff.stored == st.(phase := Failed) {
      ToFailed(spec, st, log, eff.calls);
    } else {
      match st.phase {
        case Validating => ValidatingKeeps(spec, st, log, eff.stored, eff.calls);
        case Snapshotting => SnapshottingKeeps(spec, st, log, eff);
        case Exporting => ExportingKeeps(spec, st, log, eff);
        case Importing => ImportingKeeps(spec, st, log, eff);
        case Failed => RetryKeeps(spec, st, log, eff.stored, eff.calls);
        case _ => PlainKeeps(spec, st, log, eff);
      }
    }
  }

  lemma {:induction false} NextKeeps(spec: Spec, w: World, i: Input)
    requires Inv(spec, w.status, w.log)
    ensures Inv(spec, Next(spec, w, i).status, Next(spec, w, i).log)
  {
    var w' := Next(spec, w, i);
    if w.present && i.Reconcile? {
      if w.deleting {
        Stay(spec, w.status, w.log, DeletionCalls(spec, w.status, i.answers));
      } else if w.finalizer {
        DispatchMoves(spec, w.status, i.answers);
        MoveKeeps(spec, w.status, w.log, Dispatch(spec, w.status, i.answers));
      }
    }
  }

  /** Every state reached from a freshly created migration satisfies the invariant. */
  lemma {:induction false} Reachable(spec: Spec, ins: seq<Input>)
    ensures Inv(spec, Run(spec, CREATED, ins).status, Run(spec, CREATED, ins).log)
  {
    if ins != [] {
      Reachable(spec, ins[..|ins|-1]);
      NextKeeps(spec, Run(spec, CREATED, ins[..|ins|-1]), ins[|ins|-1]);
    }
  }
}
