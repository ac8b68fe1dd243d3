/** Whether the target VM of a finished migration is one the migration asked for. */
module MigrationTarget {
  import opened Common
  import opened MigrationModel
  import opened MigrationRuns
  import opened MigrationSafety
  import opened MigrationProgress
  import opened MigrationWaits

  ghost predicate Asked(spec: Spec, log: seq<Event>) {
    exists e :: e in log && e.CreateVM? && e.key == TargetKey(spec)
  }

  /** A finished migration has asked for its target VM. */
  ghost predicate OwnsTarget(spec: Spec, w: World) {
    w.status.phase == Ready ==> Asked(spec, w.log)
  }

  /** If nobody else makes a VM of the target's name, a reconcile finds one only after the
      migration asked for it; `foreign` if somebody does. */
  ghost predicate Truthful(spec: Spec, foreign: bool, ins: seq<Input>) {
    forall i :: 0 <= i < |ins| && ins[i].Reconcile? && ins[i].answers.target.Found? ==>
                  foreign || Asked(spec, Run(spec, CREATED, ins[..i]).log)
  }

  predicate HasTarget(p: Phase) {
    p.ValidatingTarget? || p.Ready?
  }

  lemma {:induction false} TargetStep(spec: Spec, st: Status, a: Answers)
    ensures HasTarget(Dispatch(spec, st, a).stored.phase) ==> HasTarget(st.phase) || a.target.Found?
  {
    DispatchMoves(spec, st, a);
  }

  lemma {:induction false} TargetAskedFor(spec: Spec, ins: seq<Input>)
    requires Truthful(spec, false, ins) && HasTarget(Run(spec, CREATED, ins).status.phase)
    ensures Asked(spec, Run(spec, CREATED, ins).log)
  {
    if ins != [] {
      var before, i := ins[..|ins|-1], ins[|ins|-1];
      var w := Run(spec, CREATED, before);
      assert forall j :: 0 <= j < |before| ==> before[j] == ins[j] && before[..j] == ins[..j];
      if i.Reconcile? {
        TargetStep(spec, w.status, i.answers);
      }
      if HasTarget(w.status.phase) {
        TargetAskedFor(spec, before);
      }
      assert Asked(spec, w.log);
      var e :| e in w.log && e.CreateVM? && e.key == TargetKey(spec);
      assert e in Run(spec, CREATED, ins).log;
    }
  }

  lemma {:induction false} GoodAsksNot(spec: Spec, w: World)
    requires OnTour(spec, w) && Touring(w.status.phase) && w.status.phase != Ready && !Asked(spec, w.log)
    ensures !Asked(spec, Next(spec, w, Good(0)).log)
  {
    forall e | e in Dispatch(spec, w.status, Good(0).answers).calls ensures !e.CreateVM? {
      CallKinds(spec, w.status, Good(0).answers, e);
    }
  }

  ghost predicate Marked(spec: Spec, log: seq<Event>) {
    MarkCompleted(TargetKey(spec), true) in log
  }

  /** A VM found says that it is this migration's only if the migration asked for it, and
      that it is complete if it was marked so. */
  ghost predicate TellsTruth(spec: Spec, log: seq<Event>, t: Target) {
    t.Found? ==> (t.ours ==> Asked(spec, log)) && (Marked(spec, log) ==> t.completed)
  }

  ghost predicate Annotated(spec: Spec, ins: seq<Input>) {
    forall i :: 0 <= i < |ins| && ins[i].Reconcile? ==> TellsTruth(spec, Run(spec, CREATED, ins[..i]).log, ins[i].answers.target)
  }

  lemma {:induction false} AnnotatedMore(spec: Spec, ins: seq<Input>, i: Input)
    ensures Annotated(spec, ins + [i])
            <==> Annotated(spec, ins) && (i.Reconcile? ==> TellsTruth(spec, Run(spec, CREATED, ins).log, i.answers.target))
  {
    var all := ins + [i];
    assert all[..|ins|] == ins && all[|ins|] == i;
    assert forall j :: 0 <= j < |ins| ==> all[j] == ins[j] && all[..j] == ins[..j];
  }

  lemma {:induction false} GoodMarksNot(spec: Spec, w: World)
    requires OnTour(spec, w) && Touring(w.status.phase) && w.status.phase != Ready && !Marked(spec, w.log)
    ensures w.status.phase != ValidatingTarget ==> !Marked(spec, Next(spec, w, Good(0)).log)
  {
    forall e | e in Dispatch(spec, w.status, Good(0).answers).calls ensures e.MarkCompleted? ==> w.status.phase == ValidatingTarget {
      CallKinds(spec, w.status, Good(0).answers, e);
    }
  }

  /** A VM of the target's name is found at every step, and none is asked for. */
  lemma {:induction false} FoundTargetIsTaken(spec: Spec, before: seq<Input>) returns (ins: seq<Input>)
    requires var w := Run(spec, CREATED, before);
             && OnTour(spec, w) && Touring(w.status.phase) && !Asked(spec, w.log)
             && (w.status.phase != Ready ==> !Marked(spec, w.log)) && Annotated(spec, before)
    ensures var w := Run(spec, CREATED, ins);
            OnTour(spec, w) && w.status.phase == Ready && !Asked(spec, w.log) && Annotated(spec, ins)
    decreases Rank(spec, Run(spec, CREATED, before).status.phase)
  {
    var w := Run(spec, CREATED, before);
    ins := before;
    if w.status.phase != Ready {
      GoodStep(spec, w, 0);
      GoodAsksNot(spec, w);
      GoodMarksNot(spec, w);
      AnnotatedMore(spec, before, Good(0));
      OneMore(spec, CREATED, before, Good(0));
      ins := FoundTargetIsTaken(spec, before + [Good(0)]);
    }
  }

  lemma {:induction false} TakenRun(spec: Spec) returns (ins: seq<Input>)
    requires Stored(spec)
    ensures var w := Run(spec, CREATED, ins);
            OnTour(spec, w) && w.status.phase == Ready && !Asked(spec, w.log) && Annotated(spec, ins)
  {
    AnnotatedMore(spec, [], Good(0));
    AnnotatedMore(spec, [] + [Good(0)], Good(0));
    OneMore(spec, CREATED, [], Good(0));
    OneMore(spec, CREATED, [] + [Good(0)], Good(0));
    ins := FoundTargetIsTaken(spec, [] + [Good(0)] + [Good(0)]);
  }

  /** In every run a finished migration has asked for its target VM, if and only if it has no
      usable storage, and so never finishes, or nobody else makes a VM of that name. */
  lemma {:induction false} OwnsTargetIff(spec: Spec, foreign: bool)
    ensures (forall ins :: Truthful(spec, foreign, ins) ==> OwnsTarget(spec, Run(spec, CREATED, ins)))
            <==> !Stored(spec) || !foreign
  {
    if Stored(spec) && foreign {
      var ins := TakenRun(spec);
      assert Truthful(spec, foreign, ins) && !OwnsTarget(spec, Run(spec, CREATED, ins));
    } else {
      forall ins | Truthful(spec, foreign, ins) ensures OwnsTarget(spec, Run(spec, CREATED, ins)) {
        NeedsStorage(spec, ins);
        if !foreign && Run(spec, CREATED, ins).status.phase == Ready {
          TargetAskedFor(spec, ins);
        }
      }
    }
  }

  // ---------- Deleting the target VM ----------

  /** The target VM is deleted only if this migration asked for it and has not marked it
      complete. */
  ghost predicate SparesOthers(spec: Spec, log: seq<Event>) {
    forall i :: 0 <= i < |log| && log[i] == DeleteVM(TargetKey(spec)) ==> Asked(spec, log[..i]) && !Marked(spec, log[..i])
  }

  lemma {:induction false} ExtendSpares(spec: Spec, log: seq<Event>, calls: seq<Event>)
    requires SparesOthers(spec, log)
    requires DeleteVM(TargetKey(spec)) in calls ==> Asked(spec, log) && !Marked(spec, log + calls)
    ensures SparesOthers(spec, log + calls)
  {
    var all := log + calls;
    forall i | 0 <= i < |all| && all[i] == DeleteVM(TargetKey(spec)) ensures Asked(spec, all[..i]) && !Marked(spec, all[..i]) {
      if i < |log| {
        assert all[..i] == log[..i];
      } else {
        assert all[i] in calls;
        var j :| 0 <= j < |log| && log[j].CreateVM? && log[j].key == TargetKey(spec);
        assert all[..i][j] == log[j] && forall x :: x in all[..i] ==> x in all;
      }
    }
  }

  /** A finished migration does not delete the VM it made. */
  predicate TwoVms(spec: Spec) {
    SourceKey(spec) != TargetKey(spec) || !spec.deleteAfterMigration || !Stored(spec)
  }

  lemma {:induction false} SparesStep(spec: Spec, before: seq<Input>, i: Input)
    requires TwoVms(spec) && SparesOthers(spec, Run(spec, CREATED, before).log)
    requires i.Reconcile? ==> TellsTruth(spec, Run(spec, CREATED, before).log, i.answers.target)
    ensures SparesOthers(spec, Next(spec, Run(spec, CREATED, before), i).log)
  {
    var w := Run(spec, CREATED, before);
    if w.present && i.Reconcile? {
      if w.deleting {
        var calls := DeletionCalls(spec, w.status, i.answers);
        forall e | e in calls ensures !e.MarkCompleted? {
          DeletionMakes(spec, w.status, i.answers, e);
        }
        if DeleteVM(TargetKey(spec)) in calls {
          DeletionMakes(spec, w.status, i.answers, DeleteVM(TargetKey(spec)));
        }
        ExtendSpares(spec, w.log, calls);
      } else if w.finalizer {
        var calls := Dispatch(spec, w.status, i.answers).calls;
        NeedsStorage(spec, before);
        if DeleteVM(TargetKey(spec)) in calls {
          CallKinds(spec, w.status, i.answers, DeleteVM(TargetKey(spec)));
          ReadyCalls(spec, w.status, i.answers, DeleteVM(TargetKey(spec)));
        }
        ExtendSpares(spec, w.log, calls);
      }
    }
  }

  lemma {:induction false} SparesWhenTwo(spec: Spec, ins: seq<Input>)
    requires TwoVms(spec) && Annotated(spec, ins)
    ensures SparesOthers(spec, Run(spec, CREATED, ins).log)
  {
    if ins != [] {
      var before, i := ins[..|ins|-1], ins[|ins|-1];
      assert ins == before + [i];
      AnnotatedMore(spec, before, i);
      SparesWhenTwo(spec, before);
      SparesStep(spec, before, i);
    }
  }

  /** A reconcile that finds the target VM complete. */
  function Complete(): Input {
    Reconcile(AllGood(0, Found(Some("id"), true, true, false)))
  }

  lemma {:induction false} OneVmIsDeleted(spec: Spec) returns (ins: seq<Input>)
    requires !TwoVms(spec)
    ensures Annotated(spec, ins) && !SparesOthers(spec, Run(spec, CREATED, ins).log)
  {
    var before := TakenRun(spec);
    var w := Run(spec, CREATED, before);
    AnnotatedMore(spec, before, Complete());
    OneMore(spec, CREATED, before, Complete());
    ins := before + [Complete()];
    ReadyDeletesSource(spec, w, Complete().answers);
    var log := Run(spec, CREATED, ins).log;
    var n := |log| - 1;
    forall e | e in Dispatch(spec, w.status, Complete().answers).calls ensures !e.CreateVM? {
      CallKinds(spec, w.status, Complete().answers, e);
    }
    assert forall e :: e in log[..n] ==> e in log;
    assert log[n] == DeleteVM(TargetKey(spec)) && !Asked(spec, log[..n]);
  }

  lemma {:induction false} ReadyDeletesSource(spec: Spec, w: World, a: Answers)
    requires OnTour(spec, w) && w.status.phase == Ready && spec.deleteAfterMigration
    requires a.storageClient && a.sourceVM.Provisioned? && a.sourceProvider && a.instance && a.snapshotDeleted
    ensures var calls := Dispatch(spec, w.status, a).calls;
            |calls| > 0 && calls[|calls|-1] == DeleteVM(SourceKey(spec))
  {
  }

  /** In every run the target VM is deleted only if this migration asked for it and has not
      marked it complete, if and only if the target is not itself the source that a finished
      migration is to delete. */
  lemma {:induction false} SparesOthersIff(spec: Spec)
    ensures (forall ins :: Annotated(spec, ins) ==> SparesOthers(spec, Run(spec, CREATED, ins).log)) <==> TwoVms(spec)
  {
    if TwoVms(spec) {
      forall ins | Annotated(spec, ins) ensures SparesOthers(spec, Run(spec, CREATED, ins).log) {
        SparesWhenTwo(spec, ins);
      }
    } else {
      var ins := OneVmIsDeleted(spec);
      assert Annotated(spec, ins) && !SparesOthers(spec, Run(spec, CREATED, ins).log);
    }
  }
}
