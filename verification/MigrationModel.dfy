/** One reconcile of a VMMigration: what it does to the stored status and which calls it
    makes, as a function of the stored status and of the answers of the API server and
    the providers. */
module MigrationModel {
  import opened Common
  import Backoff
  import StorageUrls

  // ---------- Objects ----------

  datatype RetryPolicy = RetryPolicy(maxRetries: Option<int>, retryDelay: Option<int>, backoffMultiplier: Option<int>)

  datatype Options = Options(diskFormat: string, compress: bool, verifyChecksums: bool, retryPolicy: Option<RetryPolicy>)

  datatype PvcConfig = PvcConfig(name: string, storageClass: string, size: string, accessMode: string)

  datatype Storage = Storage(kind: string, pvc: Option<PvcConfig>)

  datatype Spec = Spec(
    ns: string, name: string,
    sourceVM: string, snapshotRef: Option<string>, createSnapshot: bool, deleteAfterMigration: bool,
    targetName: string, targetNs: string,
    options: Option<Options>, storage: Option<Storage>)

  datatype Phase =
    | Unset | Pending | Validating | Snapshotting | Exporting | Transferring | Converting
    | Importing | Creating | ValidatingTarget | Ready | Failed

  datatype DiskInfo = DiskInfo(
    sourceFormat: string, sourceChecksum: string,
    targetDiskID: Option<string>, targetFormat: string, targetChecksum: string)

  const NO_DISK := DiskInfo("", "", None, "", "")

  /** The part of the status that steers the reconciler. An identifier the source keeps as
      an empty string is None here. */
  datatype Status = Status(
    phase: Phase, snapshotID: Option<string>, exportID: Option<string>, importID: Option<string>,
    taskRef: Option<string>, targetVMID: Option<string>, storagePVC: Option<string>,
    diskInfo: Option<DiskInfo>, cleanedUp: bool, retryCount: nat, lastRetryTime: Option<int>)

  const NEW_STATUS := Status(Unset, None, None, None, None, None, None, None, false, 0, None)

  datatype Key = Key(ns: string, name: string)

  // ---------- Answers and calls ----------

  datatype SnapshotResponse = SnapshotResponse(id: string, task: Option<string>)
  datatype DiskResponse = DiskResponse(id: string, checksum: string, task: Option<string>)

  datatype SourceVM = Unreadable | Unprovisioned | Provisioned(id: string)

  /** What a read of the target VM answers: `ready` is its Ready condition, `completed` the
      migration-completed marker, `ours` whether its migration annotation names this migration. */
  datatype Target = Missing | LookupError | Found(id: Option<string>, ready: bool, completed: bool, ours: bool)

  /** The outcome of asking about a task and, once it is done, about its status. */
  datatype Poll = CheckError | Running | StatusError | TaskError | TaskOk

  /** What a read of the PVC answers and, if there is none, whether one can be created. */
  datatype PvcLookup = PvcFound | PvcAbsent(creatable: bool) | PvcUnknown

  datatype Answers = Answers(
    now: int,
    sourceVM: SourceVM,
    sourceProvider: bool, targetProvider: bool, instance: bool,
    sourceReady: bool, targetReady: bool,
    pvc: PvcLookup, pvcSaved: bool, providersMounted: bool,
    snapshot: Option<SnapshotResponse>,
    exported: Option<DiskResponse>,
    imported: Option<DiskResponse>,
    poll: Poll,
    target: Target, targetCreated: bool, marked: bool,
    storageClient: bool, snapshotDeleted: bool, sourceDeleted: bool,
    pvcFound: bool,
    finalizerSaved: bool,
    saved: bool)                  // the status write that ends the reconcile is stored

  datatype Event =
    | SnapshotCreate(created: Option<SnapshotResponse>)
    | ExportDisk(vm: Option<string>, snapshot: Option<string>, url: string, format: string, compress: bool, resp: Option<DiskResponse>)
    | ImportDisk(url: string, format: string, verify: bool, checksum: string, resp: Option<DiskResponse>)
    | PollTask(phase: Phase, id: string, task: string, answer: Poll)
    | CreateVM(key: Key, disk: Option<string>, format: string, checksum: string)
    | TargetReady(key: Key)       // the target's Ready condition was read as True
    | MarkCompleted(key: Key, stored: bool)
    | DeleteFile(url: string)
    | CreatePvc(name: string)
    | MountWait(mounted: bool)    // the wait for the providers to mount the PVC ended
    | DeletePvc(name: string)
    | SnapshotDelete(id: string)
    | DeleteVM(key: Key)

  /** The status stored after a reconcile, the calls it made in order, and whether it
      dereferenced a missing DiskInfo. */
  datatype Effect = Effect(stored: Status, calls: seq<Event>, panicked: bool)

  // ---------- Derived values ----------

  function SourceKey(spec: Spec): Key {
    Key(spec.ns, spec.sourceVM)
  }

  function TargetKey(spec: Spec): Key {
    Key(if spec.targetNs == "" then spec.ns else spec.targetNs,
        if spec.targetName == "" then spec.sourceVM + "-migrated" else spec.targetName)
  }

  function DiskFormat(spec: Spec): string {
    if spec.options.Some? && spec.options.value.diskFormat != "" then spec.options.value.diskFormat else "qcow2"
  }

  predicate Compress(spec: Spec) {
    spec.options.Some? && spec.options.value.compress
  }

  predicate VerifyChecksums(spec: Spec) {
    spec.options.None? || spec.options.value.verifyChecksums
  }

  function Policy(spec: Spec): Option<RetryPolicy> {
    if spec.options.None? then None else spec.options.value.retryPolicy
  }

  function MaxRetries(p: RetryPolicy): int {
    if p.maxRetries.Some? then p.maxRetries.value else 3
  }

  predicate Exhausted(spec: Spec, st: Status) {
    Policy(spec).None? || st.retryCount >= MaxRetries(Policy(spec).value)
  }

  function BaseDelay(p: RetryPolicy): int {
    if p.retryDelay.Some? then p.retryDelay.value else 5 * Backoff.MINUTE
  }

  function Multiplier(p: RetryPolicy): int {
    if p.backoffMultiplier.Some? then p.backoffMultiplier.value else 2
  }

  function RetryDelay(p: RetryPolicy, retries: nat): int {
    Backoff.Delay(BaseDelay(p), Multiplier(p), retries)
  }

  predicate SupportedKind(s: Storage) {
    s.kind == "pvc" || s.kind == ""
  }

  predicate ValidStorage(s: Storage) {
    && SupportedKind(s)
    && s.pvc.Some?
    && (s.pvc.value.name != "" ||
        (&& s.pvc.value.storageClass != ""
         && s.pvc.value.size != ""
         && s.pvc.value.accessMode in ["", "ReadWriteOnce", "ReadWriteMany", "ReadOnlyMany"]))
  }

  /** The migration has storage it can use. */
  predicate Stored(spec: Spec) {
    spec.storage.Some? && ValidStorage(spec.storage.value)
  }

  /** The user names the PVC to use. */
  predicate NamesPvc(spec: Spec) {
    spec.storage.Some? && spec.storage.value.pvc.Some? && spec.storage.value.pvc.value.name != ""
  }

  function PvcName(spec: Spec): string {
    if NamesPvc(spec) then spec.storage.value.pvc.value.name
    else spec.name + "-storage"
  }

  /** The URL of the exported disk, None where the source reports an error. */
  function StorageUrl(spec: Spec, st: Status): Option<string> {
    if spec.storage.None? then None
    else if !SupportedKind(spec.storage.value) then None
    else if st.storagePVC.None? then None
    else Some(StorageUrls.Build(st.storagePVC.value, spec.ns, spec.name, "export"))
  }

  function VmId(vm: SourceVM): Option<string> {
    if vm.Provisioned? then Some(vm.id) else None
  }

  function DiskInfoOf(st: Status): DiskInfo {
    if st.diskInfo.Some? then st.diskInfo.value else NO_DISK
  }

  // ---------- The handlers ----------

  function Quiet(st: Status, calls: seq<Event>): Effect {
    Effect(st, calls, false)
  }

  function Save(a: Answers, st: Status, updated: Status, calls: seq<Event>): Effect {
    Effect(if a.saved then updated else st, calls, false)
  }

  function Fail(a: Answers, st: Status, calls: seq<Event>): Effect {
    Save(a, st, st.(phase := Failed), calls)
  }

  /** The calls that leave the PVC in place, None where it cannot be used. A PVC that is
      found is used whoever made it; only one without a configured name is created. */
  function EnsurePvc(spec: Spec, a: Answers): Option<seq<Event>> {
    if a.pvc.PvcFound? then Some([])
    else if !NamesPvc(spec) && a.pvc == PvcAbsent(true) then Some([CreatePvc(PvcName(spec))])
    else None
  }

  function ValidatingPhase(spec: Spec, st: Status, a: Answers): Effect {
    var next := if spec.createSnapshot then Snapshotting else Exporting;
    if a.sourceVM.Unreadable? then Fail(a, st, [])
    else if a.sourceVM.Unprovisioned? then Quiet(st, [])
    else if !a.sourceProvider || !a.targetProvider then Fail(a, st, [])
    else if !a.sourceReady || !a.targetReady then Quiet(st, [])
    else if spec.storage.None? then Save(a, st, st.(phase := next), [])
    else if !ValidStorage(spec.storage.value) || EnsurePvc(spec, a).None? then Fail(a, st, [])
    else
      var calls := EnsurePvc(spec, a).value;
      if st.storagePVC.Some? then Save(a, st, st.(phase := next), calls)
      else if !a.pvcSaved then Quiet(st, calls)
      else
        var named := st.(storagePVC := Some(PvcName(spec)));
        var waited := calls + [MountWait(a.providersMounted)];
        if !a.providersMounted then Fail(a, named, waited) else Save(a, named, named.(phase := next), waited)
  }

  function SnapshottingPhase(spec: Spec, st: Status, a: Answers): Effect {
    if a.sourceVM.Unreadable? then Fail(a, st, [])
    else if spec.snapshotRef.Some? then
      Save(a, st, st.(snapshotID := spec.snapshotRef, phase := Exporting), [])
    else if !a.sourceProvider || !a.instance then Fail(a, st, [])
    else if st.snapshotID.Some? then Save(a, st, st.(phase := Exporting), [])
    else
      var calls := [SnapshotCreate(a.snapshot)];
      if a.snapshot.None? then Fail(a, st, calls)
      else
        var st' := st.(snapshotID := Some(a.snapshot.value.id));
        if a.snapshot.value.task.Some? then Save(a, st, st'.(taskRef := a.snapshot.value.task), calls)
        else Save(a, st, st'.(phase := Exporting, taskRef := None), calls)
  }

  function ExportingPhase(spec: Spec, st: Status, a: Answers): Effect {
    if a.sourceVM.Unreadable? || !a.sourceProvider || !a.instance then Fail(a, st, [])
    else if st.exportID.Some? then FinishTransfer(st, a, st.exportID.value, Importing)
    else
      var url := StorageUrl(spec, st);
      if url.None? then Fail(a, st, [])
      else
        var calls := [ExportDisk(VmId(a.sourceVM), st.snapshotID, url.value, DiskFormat(spec), Compress(spec), a.exported)];
        if a.exported.None? then Fail(a, st, calls)
        else Save(a, st, ExportStart(spec, st, a.exported.value), calls)
  }

  /** The status after a successful answer of ExportDisk. */
  function ExportStart(spec: Spec, st: Status, r: DiskResponse): Status {
    var disk := DiskInfoOf(st).(sourceFormat := DiskFormat(spec), sourceChecksum := r.checksum);
    var st' := st.(exportID := Some(r.id), diskInfo := Some(disk));
    if r.task.Some? then st'.(taskRef := r.task) else st'.(phase := Importing, taskRef := None)
  }

  /** An export or import that has been started: ask about its task, if any, and move on. */
  function FinishTransfer(st: Status, a: Answers, id: string, next: Phase): Effect {
    var calls := if st.taskRef.None? then [] else [PollTask(st.phase, id, st.taskRef.value, a.poll)];
    if st.taskRef.Some? && (a.poll == CheckError || a.poll == Running) then Quiet(st, calls)
    else if st.taskRef.Some? && (a.poll == StatusError || a.poll == TaskError) then Fail(a, st, calls)
    else Save(a, st, st.(phase := next, taskRef := None), calls)
  }

  function ImportingPhase(spec: Spec, st: Status, a: Answers): Effect {
    if !a.targetProvider || !a.instance then Fail(a, st, [])
    else if st.importID.Some? then FinishTransfer(st, a, st.importID.value, Creating)
    else
      var url := StorageUrl(spec, st);
      if url.None? then Fail(a, st, [])
      else
        var checksum := if st.diskInfo.Some? then st.diskInfo.value.sourceChecksum else "";
        var calls := [ImportDisk(url.value, DiskFormat(spec), VerifyChecksums(spec), checksum, a.imported)];
        if a.imported.None? then Fail(a, st, calls)
        else Save(a, st, ImportStart(spec, st, a.imported.value), calls)
  }

  /** The status after a successful answer of ImportDisk. */
  function ImportStart(spec: Spec, st: Status, r: DiskResponse): Status {
    var disk := DiskInfoOf(st).(targetDiskID := Some(r.id), targetFormat := DiskFormat(spec), targetChecksum := r.checksum);
    var st' := st.(importID := Some(r.id), diskInfo := Some(disk));
    if r.task.Some? then st'.(taskRef := r.task) else st'.(phase := Creating, taskRef := None)
  }

  function CreatingPhase(spec: Spec, st: Status, a: Answers): Effect {
    match a.target
    case Found(id, ready, _, _) =>
      var calls := if ready then [TargetReady(TargetKey(spec))] else [];
      if id.Some? && ready then Save(a, st, st.(targetVMID := id, phase := ValidatingTarget), calls)
      else Quiet(st, calls)
    case LookupError => Fail(a, st, [])
    case Missing =>
      if st.diskInfo.None? then Effect(st, [], true)
      else
        var calls := [CreateVM(TargetKey(spec), st.importID, st.diskInfo.value.targetFormat, st.diskInfo.value.targetChecksum)];
        if a.targetCreated then Quiet(st, calls) else Fail(a, st, calls)
  }

  function ValidatingTargetPhase(spec: Spec, st: Status, a: Answers): Effect {
    if !a.target.Found? then Fail(a, st, [])
    else if !a.target.ready then Quiet(st, [])
    else Save(a, st, st.(targetVMID := a.target.id, phase := Ready),
              [TargetReady(TargetKey(spec)), MarkCompleted(TargetKey(spec), a.marked)])
  }

  /** Deletion of the exported file; None when the storage client cannot be created. */
  function CleanupStorage(spec: Spec, st: Status, a: Answers): Option<seq<Event>> {
    if !a.storageClient then None
    else if StorageUrl(spec, st).None? then Some([])
    else Some([DeleteFile(StorageUrl(spec, st).value)])
  }

  /** The calls of the snapshot deletion and whether it succeeded. */
  function DeleteSnapshot(st: Status, a: Answers): (seq<Event>, bool)
    requires st.snapshotID.Some?
  {
    if a.sourceVM.Unreadable? || !a.sourceProvider || !a.instance then ([], false)
    else ([SnapshotDelete(st.snapshotID.value)], a.snapshotDeleted)
  }

  predicate OwnsSnapshot(spec: Spec, st: Status) {
    st.snapshotID.Some? && spec.snapshotRef.None?
  }

  function ReadyPhase(spec: Spec, st: Status, a: Answers): Effect {
    if st.cleanedUp then Quiet(st, []) else
      var files := if spec.storage.Some? then CleanupStorage(spec, st, a) else Some([]);
      if files.None? then Quiet(st, []) else
        var (snaps, snapsOk) := if OwnsSnapshot(spec, st) then DeleteSnapshot(st, a) else ([], true);
        if !snapsOk then Quiet(st, files.value + snaps) else
          var vms := if spec.deleteAfterMigration && !a.sourceVM.Unreadable? then [DeleteVM(SourceKey(spec))] else [];
          var calls := files.value + snaps + vms;
          if spec.deleteAfterMigration && (a.sourceVM.Unreadable? || !a.sourceDeleted) then Quiet(st, calls)
          else if spec.storage.Some? || OwnsSnapshot(spec, st) || spec.deleteAfterMigration
          then Save(a, st, st.(cleanedUp := true), calls)
          else Quiet(st, calls)
  }

  function FailedPhase(spec: Spec, st: Status, a: Answers): Effect {
    if Exhausted(spec, st) then Quiet(st, [])
    else if st.lastRetryTime.Some?
            && a.now - st.lastRetryTime.value < RetryDelay(Policy(spec).value, st.retryCount) then Quiet(st, [])
    else Save(a, st, st.(retryCount := st.retryCount + 1, lastRetryTime := Some(a.now), phase := Pending, taskRef := None), [])
  }

  /** The reconcile of a migration that carries the finalizer and is not being deleted. */
  function Dispatch(spec: Spec, st: Status, a: Answers): Effect {
    match st.phase
    case Unset => Save(a, st, st.(phase := Pending), [])
    case Pending => Save(a, st, st.(phase := Validating), [])
    case Validating => ValidatingPhase(spec, st, a)
    case Snapshotting => SnapshottingPhase(spec, st, a)
    case Exporting => ExportingPhase(spec, st, a)
    case Transferring => Save(a, st, st.(phase := Importing), [])
    case Converting => Save(a, st, st.(phase := Importing), [])
    case Importing => ImportingPhase(spec, st, a)
    case Creating => CreatingPhase(spec, st, a)
    case ValidatingTarget => ValidatingTargetPhase(spec, st, a)
    case Ready => ReadyPhase(spec, st, a)
    case Failed => FailedPhase(spec, st, a)
  }

  /** The calls made while the migration is being deleted. */
  function DeletionCalls(spec: Spec, st: Status, a: Answers): seq<Event> {
    var files := if spec.storage.Some? && !st.cleanedUp && CleanupStorage(spec, st, a).Some?
                 then CleanupStorage(spec, st, a).value else [];
    var pvcs := if st.storagePVC.Some? && a.pvcFound then files + [DeletePvc(st.storagePVC.value)] else files;
    var snaps := if OwnsSnapshot(spec, st) then pvcs + DeleteSnapshot(st, a).0 else pvcs;
    if DeletesTarget(st, a) then snaps + [DeleteVM(TargetKey(spec))] else snaps
  }

  /** Deletion takes the target VM along only while it is unfinished and this migration's own. */
  predicate DeletesTarget(st: Status, a: Answers) {
    (st.phase.Failed? || st.phase.Creating?) && a.target.Found? && !a.target.completed && a.target.ours
  }
}
