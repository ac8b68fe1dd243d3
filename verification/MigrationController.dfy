/** The VMMigration reconciler in the source's own form: handlers that update the working
    copy of the status in place and then write it back. Each handler is proved to store
    and to call exactly what the function of the same name in MigrationModel says. */
module MigrationController {
  import opened Common
  import opened MigrationModel
  import Backoff

  /** One write of the status; a conflict is followed by a refresh that may fail. */
  datatype Write = Accepted | Conflict(refreshed: bool) | Refused

  const MAX_WRITES := 3

  /** Some write is accepted, and every one before it met a conflict that was refreshed. */
  predicate Accepts(writes: nat -> Write) {
    exists n: nat | n < MAX_WRITES :: writes(n).Accepted? && forall m: nat | m < n :: writes(m) == Conflict(true)
  }

  /** Writes that all end in the same way. */
  function Always(accepted: bool): nat -> Write {
    (n: nat) => if accepted then Accepted else Refused
  }

  lemma {:induction false} AcceptsAlways(accepted: bool)
    ensures Accepts(Always(accepted)) <==> accepted
  {
    if accepted {
      assert Always(accepted)(0).Accepted?;
    }
  }

  class Reconciler {
    const spec: Spec
    var status: Status      // the working copy, migration.Status
    var stored: Status      // the status held by the API server
    var calls: seq<Event>   // calls made in this reconcile
    var panicked: bool

    constructor (spec: Spec, stored: Status)
      ensures this.spec == spec && this.stored == stored && status == stored && calls == [] && !panicked
    {
      this.spec, this.stored, this.status, this.calls, this.panicked := spec, stored, stored, [], false;
    }

    ghost predicate Fetched()
      reads this
    {
      status == stored && calls == [] && !panicked
    }

    /** A configured delay is a 64-bit duration. */
    ghost predicate DelayFits() {
      Policy(spec).Some? ==> Backoff.Wrap64(BaseDelay(Policy(spec).value)) == BaseDelay(Policy(spec).value)
    }

    ghost function Outcome(): Effect
      reads this
    {
      Effect(stored, calls, panicked)
    }

    method WriteStatus(writes: nat -> Write) returns (ok: bool)
      modifies this`stored
      ensures ok == Accepts(writes)
      ensures stored == if ok then status else old(stored)
    {
      var attempt := 0;
      while attempt < MAX_WRITES
        invariant attempt <= MAX_WRITES && stored == old(stored)
        invariant forall m: nat | m < attempt :: writes(m) == Conflict(true)
      {
        if writes(attempt).Accepted? {
          stored := status;
          return true;
        }
        if !(writes(attempt).Conflict? && attempt < MAX_WRITES - 1) {
          return false;
        }
        if !writes(attempt).refreshed {
          return false;
        }
        attempt := attempt + 1;
      }
      return false;
    }

    /** WriteStatus where only its outcome matters, as it does to every handler. */
    method UpdateStatus(accepted: bool) returns (ok: bool)
      modifies this`stored
      ensures ok == accepted
      ensures stored == if accepted then status else old(stored)
    {
      AcceptsAlways(accepted);
      ok := WriteStatus(Always(accepted));
    }

    method TransitionToFailed(a: Answers)
      modifies this`status, this`stored
      ensures stored == if a.saved then old(status).(phase := Failed) else old(stored)
    {
      status := status.(phase := Failed);
      var _ := UpdateStatus(a.saved);
    }

    /** Reconcile after the fetch, the deletion test and the finalizer test. */
    method Reconcile(a: Answers)
      requires Fetched() && DelayFits()
      modifies this
      ensures Outcome() == Dispatch(spec, old(stored), a)
    {
      match status.phase {
        case Unset =>
          status := status.(phase := Pending);
          var _ := UpdateStatus(a.saved);
        case Pending =>
          status := status.(phase := Validating);
          var _ := UpdateStatus(a.saved);
        case Validating => HandleValidating(a);
        case Snapshotting => HandleSnapshotting(a);
        case Exporting => HandleExporting(a);
        case Transferring =>
          status := status.(phase := Importing);
          var _ := UpdateStatus(a.saved);
        case Converting =>
          status := status.(phase := Importing);
          var _ := UpdateStatus(a.saved);
        case Importing => HandleImporting(a);
        case Creating => HandleCreating(a);
        case ValidatingTarget => HandleValidatingTarget(a);
        case Ready => HandleReady(a);
        case Failed =>
          if !Exhausted(spec, status) {
            HandleFailed(a);
          }
      }
    }

    method EnsureMigrationPVC(a: Answers) returns (ok: bool)
      requires spec.storage.Some? && spec.storage.value.pvc.Some?
      modifies this`calls
      ensures ok == EnsurePvc(spec, a).Some?
      ensures calls == old(calls) + if ok then EnsurePvc(spec, a).value else []
    {
      if spec.storage.value.pvc.value.name != "" {
        return a.pvc.PvcFound?;
      }
      if a.pvc.PvcFound? {
        return true;
      }
      if !a.pvc.PvcAbsent? || !a.pvc.creatable {
        return false;
      }
      calls := calls + [CreatePvc(spec.name + "-storage")];
      return true;
    }

    method HandleValidating(a: Answers)
      requires Fetched()
      modifies this
      ensures Outcome() == ValidatingPhase(spec, old(stored), a)
    {
      if a.sourceVM.Unreadable? {
        TransitionToFailed(a);
        return;
      }
      if a.sourceVM.Unprovisioned? {
        var _ := UpdateStatus(a.saved);
        return;
      }
      if !a.sourceProvider || !a.targetProvider {
        TransitionToFailed(a);
        return;
      }
      if !a.sourceReady || !a.targetReady {
        var _ := UpdateStatus(a.saved);
        return;
      }
      if spec.storage.Some? {
        if !ValidStorage(spec.storage.value) {
          TransitionToFailed(a);
          return;
        }
        var ensured := EnsureMigrationPVC(a);
        if !ensured {
          TransitionToFailed(a);
          return;
        }
        if status.storagePVC.None? {
          status := status.(storagePVC := Some(PvcName(spec)));
          var ok := UpdateStatus(a.pvcSaved);
          if !ok {
            return;
          }
          calls := calls + [MountWait(a.providersMounted)];
          if !a.providersMounted {
            TransitionToFailed(a);
            return;
          }
        }
      }
      status := status.(phase := if spec.createSnapshot then Snapshotting else Exporting);
      var _ := UpdateStatus(a.saved);
    }

    method HandleSnapshotting(a: Answers)
      requires Fetched()
      modifies this
      ensures Outcome() == SnapshottingPhase(spec, old(stored), a)
    {
      if a.sourceVM.Unreadable? {
        TransitionToFailed(a);
        return;
      }
      if spec.snapshotRef.Some? {
        status := status.(snapshotID := spec.snapshotRef);
        status := status.(phase := Exporting);
        var _ := UpdateStatus(a.saved);
        return;
      }
      if !a.sourceProvider || !a.instance {
        TransitionToFailed(a);
        return;
      }
      if status.snapshotID.Some? {
        status := status.(phase := Exporting);
        var _ := UpdateStatus(a.saved);
        return;
      }
      calls := calls + [SnapshotCreate(a.snapshot)];
      if a.snapshot.None? {
        TransitionToFailed(a);
        return;
      }
      status := status.(snapshotID := Some(a.snapshot.value.id));
      if a.snapshot.value.task.Some? {
        status := status.(taskRef := a.snapshot.value.task);
        var _ := UpdateStatus(a.saved);
        return;
      }
      status := status.(phase := Exporting);
      status := status.(taskRef := None);
      var _ := UpdateStatus(a.saved);
    }

    /** True when the handler must return: the task is unfinished or has failed. */
    method AwaitTask(a: Answers, id: string) returns (stop: bool)
      modifies this
      ensures calls == old(calls) + if old(status).taskRef.None? then [] else
                                      [PollTask(old(status).phase, id, old(status).taskRef.value, a.poll)]
      ensures stop == (old(status).taskRef.Some? && a.poll != TaskOk)
      ensures panicked == old(panicked)
      ensures !stop ==> status == old(status) && stored == old(stored)
      ensures stop ==> stored == if a.saved && (a.poll == StatusError || a.poll == TaskError)
                                 then old(status).(phase := Failed) else old(stored)
    {
      if status.taskRef.None? {
        return false;
      }
      calls := calls + [PollTask(status.phase, id, status.taskRef.value, a.poll)];
      if a.poll == CheckError || a.poll == Running {
        return true;
      }
      if a.poll == StatusError || a.poll == TaskError {
        TransitionToFailed(a);
        return true;
      }
      return false;
    }

    method HandleExporting(a: Answers)
      requires Fetched() && status.phase == Exporting
      modifies this
      ensures Outcome() == ExportingPhase(spec, old(stored), a)
    {
      if a.sourceVM.Unreadable? || !a.sourceProvider || !a.instance {
        TransitionToFailed(a);
        return;
      }
      if status.exportID.Some? {
        var stop := AwaitTask(a, status.exportID.value);
        if stop {
          return;
        }
        status := status.(phase := Importing);
        status := status.(taskRef := None);
        var _ := UpdateStatus(a.saved);
        return;
      }
      var url := StorageUrl(spec, status);
      if url.None? {
        TransitionToFailed(a);
        return;
      }
      calls := calls + [ExportDisk(VmId(a.sourceVM), status.snapshotID, url.value, DiskFormat(spec), Compress(spec), a.exported)];
      if a.exported.None? {
        TransitionToFailed(a);
        return;
      }
      status := status.(exportID := Some(a.exported.value.id));
      if status.diskInfo.None? {
        status := status.(diskInfo := Some(NO_DISK));
      }
      status := status.(diskInfo := Some(status.diskInfo.value.(sourceFormat := DiskFormat(spec))));
      status := status.(diskInfo := Some(status.diskInfo.value.(sourceChecksum := a.exported.value.checksum)));
      if a.exported.value.task.Some? {
        status := status.(taskRef := a.exported.value.task);
        var _ := UpdateStatus(a.saved);
        return;
      }
      status := status.(phase := Importing);
      status := status.(taskRef := None);
      var _ := UpdateStatus(a.saved);
    }

    method HandleImporting(a: Answers)
      requires Fetched() && status.phase == Importing
      modifies this
      ensures Outcome() == ImportingPhase(spec, old(stored), a)
    {
      if !a.targetProvider || !a.instance {
        TransitionToFailed(a);
        return;
      }
      if status.importID.Some? {
        var stop := AwaitTask(a, status.importID.value);
        if stop {
          return;
        }
        status := status.(phase := Creating);
        status := status.(taskRef := None);
        var _ := UpdateStatus(a.saved);
        return;
      }
      var url := StorageUrl(spec, status);
      if url.None? {
        TransitionToFailed(a);
        return;
      }
      var expected := "";
      if status.diskInfo.Some? && status.diskInfo.value.sourceChecksum != "" {
        expected := status.diskInfo.value.sourceChecksum;
      }
      calls := calls + [ImportDisk(url.value, DiskFormat(spec), VerifyChecksums(spec), expected, a.imported)];
      if a.imported.None? {
        TransitionToFailed(a);
        return;
      }
      status := status.(importID := Some(a.imported.value.id));
      if status.diskInfo.None? {
        status := status.(diskInfo := Some(NO_DISK));
      }
      status := status.(diskInfo := Some(status.diskInfo.value.(targetDiskID := Some(a.imported.value.id))));
      status := status.(diskInfo := Some(status.diskInfo.value.(targetFormat := DiskFormat(spec))));
      status := status.(diskInfo := Some(status.diskInfo.value.(targetChecksum := a.imported.value.checksum)));
      if a.imported.value.task.Some? {
        status := status.(taskRef := a.imported.value.task);
        var _ := UpdateStatus(a.saved);
        return;
      }
      status := status.(phase := Creating);
      status := status.(taskRef := None);
      var _ := UpdateStatus(a.saved);
    }

    method HandleCreating(a: Answers)
      requires Fetched()
      modifies this
      ensures Outcome() == CreatingPhase(spec, old(stored), a)
    {
      if a.target.Found? {
        if a.target.ready {
          calls := calls + [TargetReady(TargetKey(spec))];
        }
        if a.target.id.Some? && a.target.ready {
          status := status.(targetVMID := a.target.id);
          status := status.(phase := ValidatingTarget);
          var _ := UpdateStatus(a.saved);
        }
        return;
      }
      if a.target.LookupError? {
        TransitionToFailed(a);
        return;
      }
      if status.diskInfo.None? {
        panicked := true;
        return;
      }
      calls := calls + [CreateVM(TargetKey(spec), status.importID, status.diskInfo.value.targetFormat, status.diskInfo.value.targetChecksum)];
      if !a.targetCreated {
        TransitionToFailed(a);
        return;
      }
      var _ := UpdateStatus(a.saved);
    }

    method HandleValidatingTarget(a: Answers)
      requires Fetched()
      modifies this
      ensures Outcome() == ValidatingTargetPhase(spec, old(stored), a)
    {
      if !a.target.Found? {
        TransitionToFailed(a);
        return;
      }
      if !a.target.ready {
        var _ := UpdateStatus(a.saved);
        return;
      }
      calls := calls + [TargetReady(TargetKey(spec))];
      status := status.(targetVMID := a.target.id);
      status := status.(phase := Ready);
      calls := calls + [MarkCompleted(TargetKey(spec), a.marked)];
      var _ := UpdateStatus(a.saved);
    }

    method CleanupIntermediateStorage(a: Answers) returns (ok: bool)
      modifies this`calls
      ensures ok == CleanupStorage(spec, status, a).Some?
      ensures calls == old(calls) + if ok then CleanupStorage(spec, status, a).value else []
    {
      if !a.storageClient {
        return false;
      }
      var url := StorageUrl(spec, status);
      if url.Some? {
        calls := calls + [DeleteFile(url.value)];
      }
      return true;
    }

    method DeleteSourceSnapshot(a: Answers) returns (ok: bool)
      requires status.snapshotID.Some?
      modifies this`calls
      ensures ok == DeleteSnapshot(status, a).1
      ensures calls == old(calls) + DeleteSnapshot(status, a).0
    {
      if a.sourceVM.Unreadable? || !a.sourceProvider || !a.instance {
        return false;
      }
      calls := calls + [SnapshotDelete(status.snapshotID.value)];
      return a.snapshotDeleted;
    }

    method HandleReady(a: Answers)
      requires Fetched()
      modifies this
      ensures Outcome() == ReadyPhase(spec, old(stored), a)
    {
      if status.cleanedUp {
        return;
      }
      var cleanupPerformed := false;
      if spec.storage.Some? {
        var ok := CleanupIntermediateStorage(a);
        if !ok {
          return;
        }
        cleanupPerformed := true;
      }
      if OwnsSnapshot(spec, status) {
        var ok := DeleteSourceSnapshot(a);
        if !ok {
          return;
        }
        cleanupPerformed := true;
      }
      if spec.deleteAfterMigration {
        if a.sourceVM.Unreadable? {
          return;
        }
        calls := calls + [DeleteVM(SourceKey(spec))];
        if !a.sourceDeleted {
          return;
        }
        cleanupPerformed := true;
      }
      if cleanupPerformed {
        status := status.(cleanedUp := true);
        var _ := UpdateStatus(a.saved);
      }
    }

    method HandleFailed(a: Answers)
      requires Fetched() && DelayFits()
      modifies this
      ensures Outcome() == FailedPhase(spec, old(stored), a)
    {
      if Exhausted(spec, status) {
        return;
      }
      var policy := Policy(spec).value;
      var delay := Backoff.RetryDelay(BaseDelay(policy), Multiplier(policy), status.retryCount);
      if status.lastRetryTime.Some? {
        if a.now - status.lastRetryTime.value < delay {
          return;
        }
      }
      status := status.(retryCount := status.retryCount + 1);
      status := status.(lastRetryTime := Some(a.now));
      status := status.(phase := Pending);
      status := status.(taskRef := None);
      var _ := UpdateStatus(a.saved);
    }

    method HandleDeletion(a: Answers)
      requires Fetched()
      modifies this`calls
      ensures calls == DeletionCalls(spec, stored, a)
    {
      if spec.storage.Some? && !status.cleanedUp {
        var _ := CleanupIntermediateStorage(a);
      }
      if status.storagePVC.Some? && a.pvcFound {
        calls := calls + [DeletePvc(status.storagePVC.value)];
      }
      if OwnsSnapshot(spec, status) {
        var _ := DeleteSourceSnapshot(a);
      }
      if status.phase == Failed || status.phase == Creating {
        if a.target.Found? && !a.target.completed && a.target.ours {
          calls := calls + [DeleteVM(TargetKey(spec))];
        }
      }
    }
  }
}
