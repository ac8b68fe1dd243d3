/** Which PVC a migration deletes, and whether it was the migration that created it. */
module MigrationPvc {
  import opened Common
  import opened MigrationModel
  import opened MigrationRuns
  import opened MigrationSafety
  import opened MigrationProgress
  import opened MigrationWaits

  lemma {:induction false} DeletedPvc(spec: Spec, st: Status, a: Answers, e: Event)
    requires e in DeletionCalls(spec, st, a)
    ensures e.DeletePvc? ==> st.storagePVC == Some(e.name)
    ensures !e.CreatePvc?
  {
  }

  /** Every PVC the migration deletes is the one it is configured to use. */
  lemma {:induction false} DeletesOnlyItsPvc(spec: Spec, ins: seq<Input>, e: Event)
    requires e in Run(spec, CREATED, ins).log && e.DeletePvc?
    ensures e.name == PvcName(spec)
  {
    if ins != [] {
      var before, i := ins[..|ins|-1], ins[|ins|-1];
      var w := Run(spec, CREATED, before);
      if e in w.log {
        DeletesOnlyItsPvc(spec, before, e);
      } else if w.deleting {
        Reachable(spec, before);
        DeletedPvc(spec, w.status, i.answers, e);
      } else {
        CallKinds(spec, w.status, i.answers, e);
      }
    }
  }

  // ---------- Created by this migration ----------

  /** Each PVC that is deleted was created earlier in the run. */
  ghost predicate OwnsPvcs(log: seq<Event>) {
    forall i :: 0 <= i < |log| && log[i].DeletePvc? ==> CreatePvc(log[i].name) in log[..i]
  }

  /** If nobody else makes a PVC of that name, a reconcile finds one only after the migration
      created it; `foreign` if somebody does. */
  ghost predicate Truthful(spec: Spec, foreign: bool, ins: seq<Input>) {
    forall i :: 0 <= i < |ins| && ins[i].Reconcile? && ins[i].answers.pvc.PvcFound? ==>
                  foreign || CreatePvc(PvcName(spec)) in Run(spec, CREATED, ins[..i]).log
  }

  lemma {:induction false} PvcStoredWith(spec: Spec, st: Status, a: Answers)
    requires st.storagePVC.None? && Dispatch(spec, st, a).stored.storagePVC.Some?
    ensures a.pvc.PvcFound? || CreatePvc(PvcName(spec)) in Dispatch(spec, st, a).calls
  {
    if st.phase != Validating {
      DispatchMoves(spec, st, a);
    }
  }

  lemma {:induction false} TruthfulPrefix(spec: Spec, foreign: bool, ins: seq<Input>)
    requires ins != [] && Truthful(spec, foreign, ins)
    ensures Truthful(spec, foreign, ins[..|ins|-1])
  {
    var before := ins[..|ins|-1];
    assert forall i :: 0 <= i < |before| ==> before[i] == ins[i] && before[..i] == ins[..i];
  }

  /** A stored PVC name was created by the migration. */
  lemma {:induction false} StoredPvcCreated(spec: Spec, ins: seq<Input>)
    requires Truthful(spec, false, ins) && Run(spec, CREATED, ins).status.storagePVC.Some?
    ensures CreatePvc(PvcName(spec)) in Run(spec, CREATED, ins).log
  {
    if ins != [] {
      var before, i := ins[..|ins|-1], ins[|ins|-1];
      var w := Run(spec, CREATED, before);
      TruthfulPrefix(spec, false, ins);
      if w.status.storagePVC.Some? {
        StoredPvcCreated(spec, before);
      } else {
        PvcStoredWith(spec, w.status, i.answers);
        assert i.answers.pvc.PvcFound? ==> CreatePvc(PvcName(spec)) in w.log;
      }
    }
  }

  lemma {:induction false} ExtendOwned(log: seq<Event>, calls: seq<Event>)
    requires OwnsPvcs(log)
    requires forall e :: e in calls && e.DeletePvc? ==> CreatePvc(e.name) in log
    ensures OwnsPvcs(log + calls)
  {
    var all := log + calls;
    forall i | 0 <= i < |all| && all[i].DeletePvc? ensures CreatePvc(all[i].name) in all[..i] {
      if i < |log| {
        assert all[..i] == log[..i];
      } else {
        assert all[i] in calls && all[..i] == log + calls[..i - |log|];
      }
    }
  }

  lemma {:induction false} OwnsWhenNotForeign(spec: Spec, ins: seq<Input>)
    requires Truthful(spec, false, ins)
    ensures OwnsPvcs(Run(spec, CREATED, ins).log)
  {
    if ins != [] {
      var before, i := ins[..|ins|-1], ins[|ins|-1];
      var w := Run(spec, CREATED, before);
      TruthfulPrefix(spec, false, ins);
      OwnsWhenNotForeign(spec, before);
      if w.present && i.Reconcile? && (w.deleting || w.finalizer) {
        var calls := if w.deleting then DeletionCalls(spec, w.status, i.answers) else Dispatch(spec, w.status, i.answers).calls;
        forall e | e in calls && e.DeletePvc? ensures CreatePvc(e.name) in w.log {
          if w.deleting {
            DeletedPvc(spec, w.status, i.answers, e);
            Reachable(spec, before);
            StoredPvcCreated(spec, before);
          } else {
            CallKinds(spec, w.status, i.answers, e);
          }
        }
        ExtendOwned(w.log, calls);
      }
    }
  }

  lemma {:induction false} NoStorageNoPvc(spec: Spec, ins: seq<Input>)
    requires !Stored(spec)
    ensures forall e :: e in Run(spec, CREATED, ins).log ==> !e.DeletePvc?
  {
    if ins != [] {
      var before, i := ins[..|ins|-1], ins[|ins|-1];
      var w := Run(spec, CREATED, before);
      NoStorageNoPvc(spec, before);
      NeedsStorage(spec, before);
      forall e | e in Run(spec, CREATED, ins).log && e !in w.log ensures !e.DeletePvc? {
        if w.deleting {
          DeletedPvc(spec, w.status, i.answers, e);
        } else {
          CallKinds(spec, w.status, i.answers, e);
        }
      }
    }
  }

  /** A migration with usable storage that finds its PVC in place and is then deleted deletes
      that PVC, although it never created one. */
  lemma {:induction false} FoundPvcIsDeleted(spec: Spec) returns (ins: seq<Input>)
    requires Stored(spec)
    ensures Truthful(spec, true, ins)
    ensures DeletePvc(PvcName(spec)) in Run(spec, CREATED, ins).log
    ensures forall e :: e in Run(spec, CREATED, ins).log ==> !e.CreatePvc?
  {
    ins := Begun(spec);
    var w0 := Run(spec, CREATED, ins);
    var w1 := Next(spec, w0, Good(0));
    var w2 := Next(spec, w1, Good(0));
    assert w2.status.storagePVC == Some(PvcName(spec)) && w2.log == [MountWait(true)];
    OneMore(spec, CREATED, ins, Good(0));
    OneMore(spec, CREATED, ins + [Good(0)], Good(0));
    OneMore(spec, CREATED, ins + [Good(0)] + [Good(0)], RequestDeletion);
    ins := ins + [Good(0)] + [Good(0)] + [RequestDeletion];
    OneMore(spec, CREATED, ins, Good(0));
    ins := ins + [Good(0)];
    DeletionOf(spec, w2.status, Good(0).answers);
  }

  lemma {:induction false} DeletionOf(spec: Spec, st: Status, a: Answers)
    requires st.storagePVC.Some? && a.pvcFound
    ensures DeletePvc(st.storagePVC.value) in DeletionCalls(spec, st, a)
    ensures forall e :: e in DeletionCalls(spec, st, a) ==> !e.CreatePvc?
  {
    forall e | e in DeletionCalls(spec, st, a) ensures !e.CreatePvc? {
      DeletedPvc(spec, st, a, e);
    }
  }

  /** In every run each PVC that the migration deletes is one it created, if and only if it
      has no usable storage or nobody else makes a PVC of that name. */
  lemma {:induction false} OwnsPvcsIff(spec: Spec, foreign: bool)
    ensures (forall ins :: Truthful(spec, foreign, ins) ==> OwnsPvcs(Run(spec, CREATED, ins).log))
            <==> !Stored(spec) || !foreign
  {
    if Stored(spec) && foreign {
      var ins := FoundPvcIsDeleted(spec);
      NotOwned(Run(spec, CREATED, ins).log, PvcName(spec));
      assert !OwnsPvcs(Run(spec, CREATED, ins).log);
    } else {
      forall ins | Truthful(spec, foreign, ins) ensures OwnsPvcs(Run(spec, CREATED, ins).log) {
        if foreign {
          NoStorageNoPvc(spec, ins);
        } else {
          OwnsWhenNotForeign(spec, ins);
        }
      }
    }
  }

  /** The PVC the user named is such a one, */
  lemma {:induction false} UserPvcCanBeDeleted(spec: Spec) returns (ins: seq<Input>)
    requires Stored(spec) && NamesPvc(spec)
    ensures DeletePvc(spec.storage.value.pvc.value.name) in Run(spec, CREATED, ins).log
    ensures !OwnsPvcs(Run(spec, CREATED, ins).log)
  {
    ins := FoundPvcIsDeleted(spec);
    NotOwned(Run(spec, CREATED, ins).log, PvcName(spec));
  }

  /** and so is a PVC that only happens to have the name the migration would give its own. */
  lemma {:induction false} ReusedPvcCanBeDeleted(spec: Spec) returns (ins: seq<Input>)
    requires Stored(spec) && !NamesPvc(spec)
    ensures DeletePvc(spec.name + "-storage") in Run(spec, CREATED, ins).log
    ensures !OwnsPvcs(Run(spec, CREATED, ins).log)
  {
    ins := FoundPvcIsDeleted(spec);
    NotOwned(Run(spec, CREATED, ins).log, PvcName(spec));
  }

  lemma {:induction false} NotOwned(log: seq<Event>, name: string)
    requires DeletePvc(name) in log && forall e :: e in log ==> !e.CreatePvc?
    ensures !OwnsPvcs(log)
  {
    var i :| 0 <= i < |log| && log[i] == DeletePvc(name);
    assert forall e :: e in log[..i] ==> e in log;
  }
}
