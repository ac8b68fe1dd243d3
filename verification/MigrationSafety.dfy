/** Safety of whole migration runs. */
module MigrationSafety {
  import opened Common
  import opened MigrationModel
  import opened MigrationRuns
  import Backoff

  // ---------- Every call is justified by the calls before it ----------

  ghost predicate ExportedBefore(before: seq<Event>, id: string, task: string) {
    exists x :: x in before && x.ExportDisk? && x.resp.Some? && x.resp.value.id == id && x.resp.value.task == Some(task)
  }

  ghost predicate ImportedBefore(before: seq<Event>, id: string, task: string) {
    exists x :: x in before && x.ImportDisk? && x.resp.Some? && x.resp.value.id == id && x.resp.value.task == Some(task)
  }

  ghost predicate ExportOf(before: seq<Event>, url: string, format: string, checksum: string) {
    exists x :: x in before && x.ExportDisk? && x.resp.Some? && x.url == url && x.format == format && x.resp.value.checksum == checksum
  }

  ghost predicate ImportOf(before: seq<Event>, disk: Option<string>, format: string, checksum: string) {
    exists x :: x in before && x.ImportDisk? && x.resp.Some? && Some(x.resp.value.id) == disk && x.format == format && x.resp.value.checksum == checksum
  }

  ghost predicate Justified(spec: Spec, before: seq<Event>, e: Event) {
    match e
    case PollTask(phase, id, task, _) =>
      if phase == Exporting then ExportedBefore(before, id, task)
      else phase == Importing && ImportedBefore(before, id, task)
    case ExportDisk(_, snapshot, _, _, _, _) =>
      spec.createSnapshot ==>
        if spec.snapshotRef.Some? then snapshot == spec.snapshotRef
        else snapshot.Some? && SnapshotCreated(before, snapshot.value)
    case ImportDisk(url, format, _, checksum, _) => ExportOf(before, url, format, checksum)
    case CreateVM(_, disk, format, checksum) => ImportOf(before, disk, format, checksum)
    case SnapshotDelete(id) => spec.snapshotRef.None? && SnapshotCreated(before, id)
    case DeleteVM(key) => key == SourceKey(spec) != TargetKey(spec) ==> TargetReady(TargetKey(spec)) in before
    case _ => true
  }

  ghost predicate AllJustified(spec: Spec, before: seq<Event>, calls: seq<Event>) {
    forall e :: e in calls ==> Justified(spec, before, e)
  }

  ghost predicate Sound(spec: Spec, log: seq<Event>) {
    forall i :: 0 <= i < |log| ==> Justified(spec, log[..i], log[i])
  }

  lemma {:induction false} JustifiedLater(spec: Spec, before: seq<Event>, more: seq<Event>, e: Event)
    requires Justified(spec, before, e)
    ensures Justified(spec, before + more, e)
  {
    assert forall x :: x in before ==> x in before + more;
  }

  lemma {:induction false} Extend(spec: Spec, log: seq<Event>, calls: seq<Event>)
    requires Sound(spec, log) && AllJustified(spec, log, calls)
    ensures Sound(spec, log + calls)
  {
    var all := log + calls;
    forall i | 0 <= i < |all| ensures Justified(spec, all[..i], all[i]) {
      if i < |log| {
        assert all[..i] == log[..i];
      } else {
        assert all[i] == calls[i - |log|] && all[..i] == log + calls[..i - |log|];
        JustifiedLater(spec, log, calls[..i - |log|], all[i]);
      }
    }
  }

  lemma {:induction false} ExportEvidence(spec: Spec, st: Status, log: seq<Event>)
    requires Inv(spec, st, log) && st.exportID.Some?
    ensures StorageUrl(spec, st).Some?
    ensures ExportOf(log, StorageUrl(spec, st).value, DiskFormat(spec), st.diskInfo.value.sourceChecksum)
    ensures st.phase == Exporting && st.taskRef.Some? ==> ExportedBefore(log, st.exportID.value, st.taskRef.value)
  {
    var x :| x in log && RecordedExport(spec, st, log, x);
    assert x.ExportDisk?;
  }

  lemma {:induction false} ImportEvidence(spec: Spec, st: Status, log: seq<Event>)
    requires Inv(spec, st, log) && st.importID.Some?
    ensures st.diskInfo.Some? && st.diskInfo.value.targetDiskID == st.importID
    ensures ImportOf(log, st.importID, st.diskInfo.value.targetFormat, st.diskInfo.value.targetChecksum)
    ensures st.phase == Importing && st.taskRef.Some? ==> ImportedBefore(log, st.importID.value, st.taskRef.value)
  {
    var x :| x in log && RecordedImport(spec, st, log, x);
    assert x.ImportDisk?;
  }

  lemma {:induction false} ExportingJustified(spec: Spec, st: Status, log: seq<Event>, a: Answers)
    requires Inv(spec, st, log) && st.phase == Exporting
    ensures AllJustified(spec, log, ExportingPhase(spec, st, a).calls)
  {
    if st.exportID.Some? {
      ExportEvidence(spec, st, log);
    }
  }

  lemma {:induction false} ImportingCalls(spec: Spec, st: Status, a: Answers, e: Event)
    requires st.phase == Importing && e in ImportingPhase(spec, st, a).calls
    ensures || (&& st.importID.Some? && st.taskRef.Some?
                && e == PollTask(Importing, st.importID.value, st.taskRef.value, a.poll))
            || (&& e.ImportDisk? && Some(e.url) == StorageUrl(spec, st) && e.format == DiskFormat(spec)
                && e.checksum == (if st.diskInfo.Some? then st.diskInfo.value.sourceChecksum else ""))
  {
  }

  lemma {:induction false} ImportingJustified(spec: Spec, st: Status, log: seq<Event>, a: Answers)
    requires Inv(spec, st, log) && st.phase == Importing
    ensures AllJustified(spec, log, ImportingPhase(spec, st, a).calls)
  {
    forall e | e in ImportingPhase(spec, st, a).calls ensures Justified(spec, log, e) {
      ImportingCalls(spec, st, a, e);
      if e.ImportDisk? {
        ExportEvidence(spec, st, log);
      } else {
        ImportEvidence(spec, st, log);
      }
    }
  }

  lemma {:induction false} CreatingJustified(spec: Spec, st: Status, log: seq<Event>, a: Answers)
    requires Inv(spec, st, log) && st.phase == Creating
    ensures AllJustified(spec, log, CreatingPhase(spec, st, a).calls)
  {
    ImportEvidence(spec, st, log);
  }

  lemma {:induction false} ReadyCalls(spec: Spec, st: Status, a: Answers, e: Event)
    requires e in ReadyPhase(spec, st, a).calls
    ensures || e.DeleteFile?
            || (OwnsSnapshot(spec, st) && e == SnapshotDelete(st.snapshotID.value))
            || (spec.deleteAfterMigration && e == DeleteVM(SourceKey(spec)))
  {
  }

  lemma {:induction false} ReadyJustified(spec: Spec, st: Status, log: seq<Event>, a: Answers)
    requires Inv(spec, st, log) && st.phase == Ready
    ensures AllJustified(spec, log, ReadyPhase(spec, st, a).calls)
  {
    forall e | e in ReadyPhase(spec, st, a).calls ensures Justified(spec, log, e) {
      ReadyCalls(spec, st, a, e);
    }
  }

  lemma {:induction false} DeletionMakes(spec: Spec, st: Status, a: Answers, e: Event)
    requires e in DeletionCalls(spec, st, a)
    ensures || e.DeleteFile? || e.DeletePvc?
            || (OwnsSnapshot(spec, st) && e == SnapshotDelete(st.snapshotID.value))
            || (&& e == DeleteVM(TargetKey(spec)) && (st.phase == Failed || st.phase == Creating)
                && a.target.Found? && a.target.ours && !a.target.completed)
  {
  }

  lemma {:induction false} DeletionJustified(spec: Spec, st: Status, log: seq<Event>, a: Answers)
    requires Inv(spec, st, log)
    ensures AllJustified(spec, log, DeletionCalls(spec, st, a))
  {
    forall e | e in DeletionCalls(spec, st, a) ensures Justified(spec, log, e) {
      DeletionMakes(spec, st, a, e);
    }
  }

  lemma {:induction false} ValidatingCalls(spec: Spec, st: Status, a: Answers, e: Event)
    requires e in ValidatingPhase(spec, st, a).calls
    ensures e.CreatePvc? || e.MountWait?
  {
  }

  /** Each kind of call is made in one phase only. */
  lemma {:induction false} CallKinds(spec: Spec, st: Status, a: Answers, e: Event)
    requires e in Dispatch(spec, st, a).calls
    ensures e.CreatePvc? || e.MountWait? ==> st.phase == Validating
    ensures e.SnapshotCreate? ==> st.phase == Snapshotting
    ensures e.ExportDisk? ==> st.phase == Exporting
    ensures e.ImportDisk? ==> st.phase == Importing
    ensures e.CreateVM? ==> st.phase == Creating
    ensures e.MarkCompleted? ==> st.phase == ValidatingTarget
    ensures e.PollTask? ==> st.phase == Exporting || st.phase == Importing
    ensures e.SnapshotDelete? || e.DeleteVM? || e.DeleteFile? ==> st.phase == Ready
    ensures !e.DeletePvc?
  {
    match st.phase {
      case Validating => ValidatingCalls(spec, st, a, e);
      case Ready => ReadyCalls(spec, st, a, e);
      case Importing => ImportingCalls(spec, st, a, e);
      case _ =>
    }
  }

  lemma {:induction false} OthersJustified(spec: Spec, st: Status, log: seq<Event>, a: Answers)
    requires !(st.phase.Exporting? || st.phase.Importing? || st.phase.Creating? || st.phase.Ready?)
    ensures AllJustified(spec, log, Dispatch(spec, st, a).calls)
  {
    forall e | e in Dispatch(spec, st, a).calls ensures Justified(spec, log, e) {
      CallKinds(spec, st, a, e);
    }
  }

  lemma {:induction false} DispatchJustified(spec: Spec, st: Status, log: seq<Event>, a: Answers)
    requires Inv(spec, st, log)
    ensures AllJustified(spec, log, Dispatch(spec, st, a).calls)
  {
    match st.phase {
      case Exporting => ExportingJustified(spec, st, log, a);
      case Importing => ImportingJustified(spec, st, log, a);
      case Creating => CreatingJustified(spec, st, log, a);
      case Ready => ReadyJustified(spec, st, log, a);
      case _ => OthersJustified(spec, st, log, a);
    }
  }

  /** In every run each call is justified by the calls made before it. */
  lemma {:induction false} RunsAreSound(spec: Spec, ins: seq<Input>)
    ensures Sound(spec, Run(spec, CREATED, ins).log)
  {
    if ins != [] {
      var before, i := ins[..|ins|-1], ins[|ins|-1];
      var w := Run(spec, CREATED, before);
      RunsAreSound(spec, before);
      Reachable(spec, before);
      if w.present && i.Reconcile? {
        if w.deleting {
          DeletionJustified(spec, w.status, w.log, i.answers);
          Extend(spec, w.log, DeletionCalls(spec, w.status, i.answers));
        } else if w.finalizer {
          DispatchJustified(spec, w.status, w.log, i.answers);
          Extend(spec, w.log, Dispatch(spec, w.status, i.answers).calls);
        }
      }
    }
  }

  /** A task polled while exporting was returned by an earlier ExportDisk of this
      migration, for the export being waited for; while importing, by an ImportDisk. */
  lemma {:induction false} TaskAttribution(spec: Spec, ins: seq<Input>, i: nat)
    requires i < |Run(spec, CREATED, ins).log| && Run(spec, CREATED, ins).log[i].PollTask?
    ensures var log := Run(spec, CREATED, ins).log;
            var p := log[i];
            || (p.phase == Exporting &&
                exists j :: (0 <= j < i && log[j].ExportDisk? && log[j].resp.Some?
                             && log[j].resp.value.id == p.id && log[j].resp.value.task == Some(p.task)))
            || (p.phase == Importing &&
                exists j :: (0 <= j < i && log[j].ImportDisk? && log[j].resp.Some?
                             && log[j].resp.value.id == p.id && log[j].resp.value.task == Some(p.task)))
  {
    RunsAreSound(spec, ins);
    var log := Run(spec, CREATED, ins).log;
    assert Justified(spec, log[..i], log[i]);
    var x :| x in log[..i] && (if log[i].phase == Exporting then x.ExportDisk? else x.ImportDisk?) && x.resp.Some?
          && x.resp.value.id == log[i].id && x.resp.value.task == Some(log[i].task);
    var j :| 0 <= j < i && log[..i][j] == x;
    assert log[j] == x;
  }

  /** Every snapshot the migration deletes was created by it earlier in the run, and a
      migration given a snapshot deletes none. */
  lemma {:induction false} SnapshotOwnership(spec: Spec, ins: seq<Input>, i: nat)
    requires i < |Run(spec, CREATED, ins).log| && Run(spec, CREATED, ins).log[i].SnapshotDelete?
    ensures spec.snapshotRef.None?
    ensures var log := Run(spec, CREATED, ins).log;
            exists j :: 0 <= j < i && log[j].SnapshotCreate? && log[j].created.Some? && log[j].created.value.id == log[i].id
  {
    RunsAreSound(spec, ins);
    var log := Run(spec, CREATED, ins).log;
    assert Justified(spec, log[..i], log[i]);
    var x :| x in log[..i] && x.SnapshotCreate? && x.created.Some? && x.created.value.id == log[i].id;
    var j :| 0 <= j < i && log[..i][j] == x;
    assert log[j] == x;
  }

  lemma {:induction false} ImportRequest(spec: Spec, st: Status, a: Answers, e: Event)
    requires e.ImportDisk? && e in Dispatch(spec, st, a).calls
    ensures st.phase == Importing && Some(e.url) == StorageUrl(spec, st) && e.format == DiskFormat(spec)
    ensures st.diskInfo.Some? ==> e.checksum == st.diskInfo.value.sourceChecksum
  {
    CallKinds(spec, st, a, e);
    ImportingCalls(spec, st, a, e);
  }

  /** Every import request names the URL, the format and the checksum of the one export
      the status records. */
  lemma {:induction false} ImportCarriesRecordedExport(spec: Spec, ins: seq<Input>, a: Answers, e: Event)
    requires e.ImportDisk? && e in Dispatch(spec, Run(spec, CREATED, ins).status, a).calls
    ensures var w := Run(spec, CREATED, ins);
            exists x :: x in w.log && RecordedExport(spec, w.status, w.log, x)
                     && e.url == x.url && e.format == x.format && e.checksum == x.resp.value.checksum
  {
    var w := Run(spec, CREATED, ins);
    Reachable(spec, ins);
    ImportRequest(spec, w.status, a, e);
    var x :| x in w.log && RecordedExport(spec, w.status, w.log, x);
    assert e.url == x.url;
  }

  lemma {:induction false} PanicsIff(spec: Spec, st: Status, a: Answers)
    ensures Dispatch(spec, st, a).panicked <==> st.phase == Creating && a.target.Missing? && st.diskInfo.None?
  {
  }

  /** Creating always finds the disk record of the recorded import, so no reconcile of a
      reachable state dereferences a missing one. */
  lemma {:induction false} NeverPanics(spec: Spec, ins: seq<Input>, a: Answers)
    ensures var st := Run(spec, CREATED, ins).status;
            && (st.phase == Creating ==> st.importID.Some? && st.diskInfo.Some? && st.diskInfo.value.targetDiskID == st.importID)
            && !Dispatch(spec, st, a).panicked
  {
    var w := Run(spec, CREATED, ins);
    PanicsIff(spec, w.status, a);
    Reachable(spec, ins);
    if w.status.phase == Creating {
      ImportEvidence(spec, w.status, w.log);
    }
  }

  // ---------- Identifiers are written once ----------

  ghost predicate Extends(st: Status, st': Status) {
    && (st.exportID.Some? ==> st'.exportID == st.exportID)
    && (st.importID.Some? ==> st'.importID == st.importID)
    && (st.storagePVC.Some? ==> st'.storagePVC == st.storagePVC)
    && (st.snapshotID.Some? ==> st'.snapshotID == st.snapshotID)
  }

  lemma {:induction false} MoveExtends(spec: Spec, st: Status, eff: Effect)
    requires Shapes(spec, st) && Move(spec, st, eff)
    ensures Extends(st, eff.stored)
  {
  }

  /** Once stored, an identifier never changes again, whatever is retried or lost. */
  lemma {:induction false} WrittenOnce(spec: Spec, ins: seq<Input>, more: seq<Input>)
    ensures Extends(Run(spec, CREATED, ins).status, Run(spec, CREATED, ins + more).status)
  {
    if more == [] {
      assert ins + more == ins;
    } else {
      var all := ins + more;
      var before := all[..|all|-1];
      assert before == ins + more[..|more|-1];
      WrittenOnce(spec, ins, more[..|more|-1]);
      Reachable(spec, before);
      var w, i := Run(spec, CREATED, before), all[|all|-1];
      if w.present && i.Reconcile? && !w.deleting && w.finalizer {
        DispatchMoves(spec, w.status, i.answers);
        MoveExtends(spec, w.status, Dispatch(spec, w.status, i.answers));
      }
    }
  }

  // ---------- Was the transfer seen to finish? ----------

  /** Before the first retry, an import is only started once the recorded export is known
      to have finished, and a target VM only created once the recorded import is. */
  lemma {:induction false} FirstAttemptWaits(spec: Spec, ins: seq<Input>)
    requires Run(spec, CREATED, ins).status.retryCount == 0
    ensures var w := Run(spec, CREATED, ins);
            && (AfterExport(w.status.phase) ==>
                  exists e :: e in w.log && e.ExportDisk? && e.resp.Some? && Some(e.resp.value.id) == w.status.exportID
                           && Finished(w.log, Exporting, e.resp.value))
            && (AfterImport(w.status.phase) ==>
                  exists e :: e in w.log && e.ImportDisk? && e.resp.Some? && Some(e.resp.value.id) == w.status.importID
                           && Finished(w.log, Importing, e.resp.value))
  {
    Reachable(spec, ins);
    var w := Run(spec, CREATED, ins);
    if AfterExport(w.status.phase) {
      var e :| e in w.log && RecordedExport(spec, w.status, w.log, e);
      assert Finished(w.log, Exporting, e.resp.value);
    }
    if AfterImport(w.status.phase) {
      var e :| e in w.log && RecordedImport(spec, w.status, w.log, e);
      assert Finished(w.log, Importing, e.resp.value);
    }
  }

  /** Leaving Exporting for an export started earlier: its task is seen complete in this
      very reconcile if and only if the status still holds the task, and it can only have
      been dropped by a retry. */
  lemma {:induction false} ExportCheckedIff(spec: Spec, ins: seq<Input>, a: Answers)
    requires var st := Run(spec, CREATED, ins).status;
             st.phase == Exporting && st.exportID.Some? && Dispatch(spec, st, a).stored.phase == Importing
    ensures var st := Run(spec, CREATED, ins).status;
            && ((exists t :: Dispatch(spec, st, a).calls == [PollTask(Exporting, st.exportID.value, t, TaskOk)]) <==> st.taskRef.Some?)
            && (st.taskRef.None? ==> st.retryCount > 0 && Dispatch(spec, st, a).calls == [])
  {
    Reachable(spec, ins);
    var st := Run(spec, CREATED, ins).status;
    if st.taskRef.Some? {
      assert Dispatch(spec, st, a).calls == [PollTask(Exporting, st.exportID.value, st.taskRef.value, TaskOk)];
    }
  }

  // ---------- Retries ----------

  lemma {:induction false} MoveRetries(spec: Spec, st: Status, eff: Effect)
    requires RetryShape(spec, st) && Move(spec, st, eff)
    ensures st.retryCount <= eff.stored.retryCount <= st.retryCount + 1
    ensures 1 <= st.retryCount < eff.stored.retryCount ==> Policy(spec).Some? && RetryMove(spec, st, eff.stored)
  {
  }

  /** The retry count stays within the policy, and between two retries at least the
      computed delay passes. */
  lemma {:induction false} RetriesAreSpaced(spec: Spec, ins: seq<Input>, i: Input)
    ensures var st, st' := Run(spec, CREATED, ins).status, Run(spec, CREATED, ins + [i]).status;
            && st.retryCount <= st'.retryCount <= RetryBudget(spec)
            && (1 <= st.retryCount < st'.retryCount ==>
                  && Policy(spec).Some? && st.lastRetryTime.Some? && st'.lastRetryTime.Some?
                  && st'.retryCount == st.retryCount + 1
                  && st'.lastRetryTime.value - st.lastRetryTime.value >= RetryDelay(Policy(spec).value, st.retryCount))
  {
    assert (ins + [i])[..|ins|] == ins;
    Reachable(spec, ins);
    Reachable(spec, ins + [i]);
    var w := Run(spec, CREATED, ins);
    if w.present && i.Reconcile? && !w.deleting && w.finalizer {
      DispatchMoves(spec, w.status, i.answers);
      MoveRetries(spec, w.status, Dispatch(spec, w.status, i.answers));
    }
  }

  /** Within the limits of DelayWithinLimits that delay is the ideal one. */
  lemma {:induction false} RetriesWaitTheIdealDelay(spec: Spec, ins: seq<Input>, i: Input)
    requires Policy(spec).Some? && MaxRetries(Policy(spec).value) <= 10
    requires 0 <= BaseDelay(Policy(spec).value) <= Backoff.CAP && 1 <= Multiplier(Policy(spec).value) <= 5
    requires 1 <= Run(spec, CREATED, ins).status.retryCount < Run(spec, CREATED, ins + [i]).status.retryCount
    ensures var st, st' := Run(spec, CREATED, ins).status, Run(spec, CREATED, ins + [i]).status;
            && st.lastRetryTime.Some? && st'.lastRetryTime.Some?
            && st'.lastRetryTime.value - st.lastRetryTime.value
               >= Backoff.Ideal(BaseDelay(Policy(spec).value), Multiplier(Policy(spec).value), st.retryCount)
  {
    RetriesAreSpaced(spec, ins, i);
    Backoff.DelayWithinLimits(BaseDelay(Policy(spec).value), Multiplier(Policy(spec).value), Run(spec, CREATED, ins).status.retryCount);
  }

  /** Up to maxRetries retries, by default 3, and none without a policy. */
  predicate WithinPolicy(spec: Spec, retries: int) {
    retries <= if spec.options.None? || spec.options.value.retryPolicy.None? then 0
               else if spec.options.value.retryPolicy.value.maxRetries.None? then 3
               else Max(0, spec.options.value.retryPolicy.value.maxRetries.value)
  }

  /** The wait before a retry: retryDelay, by default 5 minutes, multiplied for each earlier
      retry by the multiplier, by default 2. */
  function PolicyDelay(p: RetryPolicy, retries: nat): int {
    Backoff.Delay(if p.retryDelay.None? then 300_000_000_000 else p.retryDelay.value,
                  if p.backoffMultiplier.None? then 2 else p.backoffMultiplier.value, retries)
  }

  /** In every run the retries follow the policy. */
  lemma {:induction false} RetriesFollowPolicy(spec: Spec, ins: seq<Input>, i: Input)
    ensures WithinPolicy(spec, Run(spec, CREATED, ins).status.retryCount)
    ensures var st, st' := Run(spec, CREATED, ins).status, Run(spec, CREATED, ins + [i]).status;
            1 <= st.retryCount < st'.retryCount ==>
              && spec.options.Some? && spec.options.value.retryPolicy.Some? && st.lastRetryTime.Some? && st'.lastRetryTime.Some?
              && st'.lastRetryTime.value - st.lastRetryTime.value >= PolicyDelay(spec.options.value.retryPolicy.value, st.retryCount)
  {
    Reachable(spec, ins);
    RetriesAreSpaced(spec, ins, i);
  }

  /** Conversely, a failed migration that has retries left is retried as soon as that is due. */
  lemma {:induction false} RetryWhenDue(spec: Spec, st: Status, a: Answers)
    requires st.phase == Failed && a.saved && spec.options.Some? && spec.options.value.retryPolicy.Some?
    requires WithinPolicy(spec, st.retryCount + 1)
    requires st.lastRetryTime.None? || a.now - st.lastRetryTime.value >= PolicyDelay(spec.options.value.retryPolicy.value, st.retryCount)
    ensures Dispatch(spec, st, a).stored
         == st.(phase := Pending, taskRef := None, retryCount := st.retryCount + 1, lastRetryTime := Some(a.now))
  {
  }
}
