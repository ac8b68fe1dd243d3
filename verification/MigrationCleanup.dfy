/** What the calls of a migration are made of, and what its cleanup and its deletion remove. */
module MigrationCleanup {
  import opened Common
  import opened MigrationModel
  import opened MigrationRuns
  import opened MigrationSafety
  import opened MigrationProgress
  import opened MigrationWaits
  import StorageUrls

  // ---------- Storage ----------

  /** The storage is a PVC, by default or by name, that the user either names or gives a
      storage class and a size, with one of the three access modes or none. */
  predicate Usable(s: Storage) {
    && (s.kind == "" || s.kind == "pvc")
    && s.pvc.Some?
    && (var c := s.pvc.value;
        c.name == "" ==>
          && c.storageClass != "" && c.size != ""
          && (c.accessMode == "" || c.accessMode == "ReadWriteOnce" || c.accessMode == "ReadWriteMany" || c.accessMode == "ReadOnlyMany"))
  }

  /** A migration can become Ready if and only if its storage is usable; its PVC is the one
      the user names, and else is called after the migration. */
  lemma {:induction false} ReadyNeedsUsableStorage(spec: Spec)
    ensures (exists ins :: Run(spec, CREATED, ins).status.phase == Ready) <==> spec.storage.Some? && Usable(spec.storage.value)
    ensures spec.storage.Some? && Usable(spec.storage.value) ==>
              PvcName(spec) == if spec.storage.value.pvc.value.name != "" then spec.storage.value.pvc.value.name else spec.name + "-storage"
  {
    ReadyReachableIff(spec);
  }

  // ---------- Requests ----------

  /** The disk format asked for, qcow2 if none is. */
  predicate FormatIs(spec: Spec, format: string) {
    format == if spec.options.None? || spec.options.value.diskFormat == "" then "qcow2" else spec.options.value.diskFormat
  }

  /** The URL of the migration's export in its PVC. */
  predicate UrlIs(spec: Spec, url: string) {
    url == StorageUrls.Build(PvcName(spec), spec.ns, spec.name, "export")
  }

  /** A call as the spec asks for it: disks go through the export URL in the format asked
      for; an export is compressed if asked for; an import is verified unless switched off;
      a VM is made in the target's namespace, by default the migration's own, under the
      target's name, by default one made from the source's. */
  predicate FollowsSpec(spec: Spec, e: Event) {
    match e
    case ExportDisk(_, _, url, format, compress, _) =>
      UrlIs(spec, url) && FormatIs(spec, format) && (compress <==> spec.options.Some? && spec.options.value.compress)
    case ImportDisk(url, format, verify, _, _) =>
      UrlIs(spec, url) && FormatIs(spec, format) && (verify <==> !(spec.options.Some? && !spec.options.value.verifyChecksums))
    case CreateVM(key, _, _, _) =>
      && key.ns == (if spec.targetNs != "" then spec.targetNs else spec.ns)
      && key.name == (if spec.targetName != "" then spec.targetName else spec.sourceVM + "-migrated")
    case DeleteFile(url) => UrlIs(spec, url)
    case DeleteVM(key) => key == TargetKey(spec) || (key.ns == spec.ns && key.name == spec.sourceVM)
    case _ => true
  }

  lemma {:induction false} UrlOf(spec: Spec, st: Status)
    requires Shape(spec, st) && StorageUrl(spec, st).Some?
    ensures UrlIs(spec, StorageUrl(spec, st).value)
  {
  }

  lemma {:induction false} ExportingCalls(spec: Spec, st: Status, a: Answers, e: Event)
    requires e in ExportingPhase(spec, st, a).calls && e.ExportDisk?
    ensures Some(e.url) == StorageUrl(spec, st) && e.snapshot == st.snapshotID
    ensures e.vm == if a.sourceVM.Provisioned? then Some(a.sourceVM.id) else None
    ensures FormatIs(spec, e.format) && (e.compress <==> spec.options.Some? && spec.options.value.compress)
  {
  }

  lemma {:induction false} ReadyFiles(spec: Spec, st: Status, a: Answers, url: string)
    requires DeleteFile(url) in ReadyPhase(spec, st, a).calls
    ensures StorageUrl(spec, st) == Some(url)
  {
  }

  lemma {:induction false} DeletionFiles(spec: Spec, st: Status, a: Answers, url: string)
    requires DeleteFile(url) in DeletionCalls(spec, st, a)
    ensures StorageUrl(spec, st) == Some(url)
  {
  }

  lemma {:induction false} DispatchFollows(spec: Spec, st: Status, a: Answers, e: Event)
    requires Shape(spec, st) && e in Dispatch(spec, st, a).calls
    ensures FollowsSpec(spec, e)
  {
    CallKinds(spec, st, a, e);
    match e {
      case ExportDisk(_, _, _, _, _, _) => ExportingCalls(spec, st, a, e); UrlOf(spec, st);
      case ImportDisk(_, _, _, _, _) => ImportingFollows(spec, st, a, e);
      case DeleteFile(url) => ReadyFiles(spec, st, a, url); UrlOf(spec, st);
      case DeleteVM(_) => ReadyCalls(spec, st, a, e);
      case CreateVM(_, _, _, _) => assert e in CreatingPhase(spec, st, a).calls;
      case _ =>
    }
  }

  lemma {:induction false} ImportingFollows(spec: Spec, st: Status, a: Answers, e: Event)
    requires Shape(spec, st) && e in ImportingPhase(spec, st, a).calls && e.ImportDisk?
    ensures FollowsSpec(spec, e)
  {
    assert Some(e.url) == StorageUrl(spec, st);
    UrlOf(spec, st);
  }

  lemma {:induction false} DeletionFollows(spec: Spec, st: Status, a: Answers, e: Event)
    requires Shape(spec, st) && e in DeletionCalls(spec, st, a)
    ensures FollowsSpec(spec, e)
  {
    DeletionMakes(spec, st, a, e);
    if e.DeleteFile? {
      DeletionFiles(spec, st, a, e.url);
      UrlOf(spec, st);
    }
  }

  /** Every call of every run is as the spec asks for it. */
  lemma {:induction false} CallsFollowSpec(spec: Spec, ins: seq<Input>, e: Event)
    requires e in Run(spec, CREATED, ins).log
    ensures FollowsSpec(spec, e)
  {
    if ins != [] {
      var w, i := Run(spec, CREATED, ins[..|ins|-1]), ins[|ins|-1];
      if e in w.log {
        CallsFollowSpec(spec, ins[..|ins|-1], e);
      } else {
        Reachable(spec, ins[..|ins|-1]);
        if w.deleting {
          DeletionFollows(spec, w.status, i.answers, e);
        } else {
          DispatchFollows(spec, w.status, i.answers, e);
        }
      }
    }
  }

  // ---------- Cleanup ----------

  /** The exported file, a snapshot of its own and, if asked for, the source VM are deleted. */
  ghost predicate CleanedUp(spec: Spec, st: Status, log: seq<Event>) {
    && (exists url :: UrlIs(spec, url) && DeleteFile(url) in log)
    && (spec.snapshotRef.None? && st.snapshotID.Some? ==> SnapshotDelete(st.snapshotID.value) in log)
    && (spec.deleteAfterMigration ==> DeleteVM(Key(spec.ns, spec.sourceVM)) in log)
  }

  lemma {:induction false} CleanupStep(spec: Spec, st: Status, a: Answers)
    requires st.phase == Ready && !st.cleanedUp && Shape(spec, st)
    ensures var eff := ReadyPhase(spec, st, a);
            eff.stored == st || (eff.stored == st.(cleanedUp := true) && CleanedUp(spec, st, eff.calls))
  {
    if ReadyPhase(spec, st, a).stored != st {
      UrlOf(spec, st);
      var files := [DeleteFile(StorageUrl(spec, st).value)];
      assert CleanupStorage(spec, st, a) == Some(files);
      assert files[0] in ReadyPhase(spec, st, a).calls;
    }
  }

  lemma {:induction false} CleanedUpStays(spec: Spec, st: Status, log: seq<Event>, calls: seq<Event>)
    requires CleanedUp(spec, st, log) || CleanedUp(spec, st, calls)
    ensures CleanedUp(spec, st, log + calls)
  {
    assert forall e :: e in log || e in calls ==> e in log + calls;
  }

  lemma {:induction false} OnlyReadyCleansUp(spec: Spec, st: Status, a: Answers)
    requires st.phase != Ready
    ensures Dispatch(spec, st, a).stored.cleanedUp == st.cleanedUp
  {
    DispatchMoves(spec, st, a);
  }

  lemma {:induction false} CleanedUpAtReady(spec: Spec, ins: seq<Input>)
    ensures Run(spec, CREATED, ins).status.cleanedUp ==> Run(spec, CREATED, ins).status.phase == Ready
  {
    if ins != [] {
      var w, i := Run(spec, CREATED, ins[..|ins|-1]), ins[|ins|-1];
      CleanedUpAtReady(spec, ins[..|ins|-1]);
      if i.Reconcile? {
        if w.status.phase != Ready {
          OnlyReadyCleansUp(spec, w.status, i.answers);
        } else {
          DispatchMoves(spec, w.status, i.answers);
        }
      }
    }
  }

  /** A cleaned-up migration stays so, and what it has deleted stays in the log. */
  lemma {:induction false} StaysCleanedUp(spec: Spec, w: World, i: Input)
    requires w.status.cleanedUp && w.status.phase == Ready && CleanedUp(spec, w.status, w.log)
    ensures CleanedUp(spec, Next(spec, w, i).status, Next(spec, w, i).log)
  {
    if w.present && i.Reconcile? && w.deleting {
      CleanedUpStays(spec, w.status, w.log, DeletionCalls(spec, w.status, i.answers));
    } else if w.present && i.Reconcile? && w.finalizer {
      CleanedUpStays(spec, w.status, w.log, []);
    }
  }

  lemma {:induction false} BecomesCleanedUp(spec: Spec, w: World, i: Input)
    requires Shape(spec, w.status) && !w.status.cleanedUp && Next(spec, w, i).status.cleanedUp
    ensures CleanedUp(spec, Next(spec, w, i).status, Next(spec, w, i).log)
  {
    if w.status.phase != Ready {
      OnlyReadyCleansUp(spec, w.status, i.answers);
    }
    CleanupStep(spec, w.status, i.answers);
    CleanedUpStays(spec, w.status, w.log, ReadyPhase(spec, w.status, i.answers).calls);
  }

  /** In every run a migration that is stored as cleaned up has deleted its exported file, its
      own snapshot and, if asked for, the source VM. */
  lemma {:induction false} CleanupIsDone(spec: Spec, ins: seq<Input>)
    requires Run(spec, CREATED, ins).status.cleanedUp
    ensures CleanedUp(spec, Run(spec, CREATED, ins).status, Run(spec, CREATED, ins).log)
  {
    if ins != [] {
      var before, i := ins[..|ins|-1], ins[|ins|-1];
      var w := Run(spec, CREATED, before);
      if w.status.cleanedUp {
        CleanedUpAtReady(spec, before);
        CleanupIsDone(spec, before);
        StaysCleanedUp(spec, w, i);
      } else {
        Reachable(spec, before);
        BecomesCleanedUp(spec, w, i);
      }
    }
  }

  /** One favourable reconcile of a finished migration cleans up. */
  lemma {:induction false} FavourableCleanup(spec: Spec, w: World)
    requires OnTour(spec, w) && w.status.phase == Ready
    ensures Next(spec, w, Good(0)).status == w.status.(cleanedUp := true)
  {
  }

  // ---------- Deletion ----------

  /** Deletion removes the file unless it was cleaned up, the PVC that is still there, a
      snapshot of its own whose provider can be reached, and an unfinished target VM of its
      own, and nothing else. */
  lemma {:induction false} DeletionRemovesIff(spec: Spec, ins: seq<Input>, a: Answers)
    ensures var st := Run(spec, CREATED, ins).status;
            var calls := DeletionCalls(spec, st, a);
            && ((exists url :: DeleteFile(url) in calls) <==> st.storagePVC.Some? && !st.cleanedUp && a.storageClient)
            && (DeletePvc(PvcName(spec)) in calls <==> st.storagePVC.Some? && a.pvcFound)
            && ((exists id :: SnapshotDelete(id) in calls)
                <==> spec.snapshotRef.None? && st.snapshotID.Some? && !a.sourceVM.Unreadable? && a.sourceProvider && a.instance)
            && (DeleteVM(TargetKey(spec)) in calls
                <==> (st.phase == Failed || st.phase == Creating) && a.target.Found? && a.target.ours && !a.target.completed)
  {
    Reachable(spec, ins);
    NeedsStorage(spec, ins);
    DeletionParts(spec, Run(spec, CREATED, ins).status, a);
  }

  lemma {:induction false} DeletionParts(spec: Spec, st: Status, a: Answers)
    requires Shape(spec, st) && (st.storagePVC.Some? ==> Stored(spec))
    ensures var calls := DeletionCalls(spec, st, a);
            && ((exists url :: DeleteFile(url) in calls) <==> st.storagePVC.Some? && !st.cleanedUp && a.storageClient)
            && (DeletePvc(PvcName(spec)) in calls <==> st.storagePVC.Some? && a.pvcFound)
            && ((exists id :: SnapshotDelete(id) in calls)
                <==> spec.snapshotRef.None? && st.snapshotID.Some? && !a.sourceVM.Unreadable? && a.sourceProvider && a.instance)
            && (DeleteVM(TargetKey(spec)) in calls
                <==> (st.phase == Failed || st.phase == Creating) && a.target.Found? && a.target.ours && !a.target.completed)
  {
    var calls := DeletionCalls(spec, st, a);
    if st.storagePVC.Some? && !st.cleanedUp && a.storageClient {
      assert calls[0] == DeleteFile(StorageUrl(spec, st).value);
    }
  }
}
