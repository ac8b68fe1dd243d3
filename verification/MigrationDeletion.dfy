/** When a migration deletes the source VM and the target VM. */
module MigrationDeletion {
  import opened Common
  import opened MigrationModel
  import opened MigrationRuns
  import opened MigrationSafety
  import opened MigrationProgress
  import opened MigrationWaits

  // ---------- The source VM ----------

  /** The source VM is deleted only after the target's Ready condition was read as True. */
  ghost predicate SourceKept(spec: Spec, log: seq<Event>) {
    forall i :: 0 <= i < |log| && log[i] == DeleteVM(SourceKey(spec)) ==> TargetReady(TargetKey(spec)) in log[..i]
  }

  /** Answers of a reconcile that cannot read the source VM. */
  function SourceLost(): Input {
    Reconcile(AllGood(0, Found(Some("id"), true, false, true)).(sourceVM := Unreadable))
  }

  /** Answers of a reconcile that finds an unfinished target VM of this migration. */
  function OwnTarget(): Input {
    Reconcile(AllGood(0, Found(Some("id"), true, false, true)))
  }

  lemma {:induction false} SourceDeletedEarly(spec: Spec) returns (ins: seq<Input>)
    requires SourceKey(spec) == TargetKey(spec)
    ensures !SourceKept(spec, Run(spec, CREATED, ins).log)
  {
    ins := [Good(0), Good(0), Good(0), SourceLost(), RequestDeletion, OwnTarget()];
    var w1 := Next(spec, CREATED, Good(0));
    var w2 := Next(spec, w1, Good(0));
    var w3 := Next(spec, w2, Good(0));
    var w4 := Next(spec, w3, SourceLost());
    var w5 := Next(spec, w4, RequestDeletion);
    var w6 := Next(spec, w5, OwnTarget());
    assert w4.status.phase == Failed && w4.log == [];
    assert Run(spec, CREATED, ins) == w6 by {
      Unfold(spec, CREATED, ins, [CREATED, w1, w2, w3, w4, w5, w6]);
    }
    var last := DeleteVM(TargetKey(spec));
    assert w6.log == [last] by {
      assert w5.status.storagePVC.None? && w5.status.snapshotID.None?;
      assert DeletesTarget(w5.status, OwnTarget().answers);
    }
    assert w6.log[0] == last && w6.log[..0] == [];
  }

  /** `ws` lists the states a run passes through. */
  lemma {:induction false} Unfold(spec: Spec, w: World, ins: seq<Input>, ws: seq<World>)
    requires |ws| == |ins| + 1 && ws[0] == w
    requires forall k :: 0 <= k < |ins| ==> ws[k+1] == Next(spec, ws[k], ins[k])
    ensures Run(spec, w, ins) == ws[|ins|]
  {
    if ins != [] {
      Unfold(spec, w, ins[..|ins|-1], ws[..|ins|]);
    }
  }

  /** That holds in every run if and only if the source and the target are different VMs. */
  lemma {:induction false} SourceKeptIff(spec: Spec)
    ensures (forall ins :: SourceKept(spec, Run(spec, CREATED, ins).log)) <==> SourceKey(spec) != TargetKey(spec)
  {
    if SourceKey(spec) == TargetKey(spec) {
      var ins := SourceDeletedEarly(spec);
      assert !SourceKept(spec, Run(spec, CREATED, ins).log);
    } else {
      forall ins ensures SourceKept(spec, Run(spec, CREATED, ins).log) {
        RunsAreSound(spec, ins);
        var log := Run(spec, CREATED, ins).log;
        forall i | 0 <= i < |log| && log[i] == DeleteVM(SourceKey(spec)) ensures TargetReady(TargetKey(spec)) in log[..i] {
          assert Justified(spec, log[..i], log[i]);
        }
      }
    }
  }

  // ---------- The target VM of a finished migration ----------

  /** From `w` on, nothing in the run deletes the target VM. */
  ghost predicate TargetKept(spec: Spec, w: World, ins: seq<Input>) {
    var log := Run(spec, w, ins).log;
    && |w.log| <= |log|
    && forall i :: |w.log| <= i < |log| ==> log[i] != DeleteVM(TargetKey(spec))
  }

  lemma {:induction false} ReadyKeepsTarget(spec: Spec, w: World, ins: seq<Input>)
    requires w.status.phase == Ready && (SourceKey(spec) != TargetKey(spec) || !spec.deleteAfterMigration)
    ensures TargetKept(spec, w, ins)
  {
    if ins != [] {
      var before, i := ins[..|ins|-1], ins[|ins|-1];
      ReadyKeepsTarget(spec, w, before);
      ReadyAbsorbs(spec, w, before);
      var w' := Run(spec, w, before);
      var log := Run(spec, w, ins).log;
      forall k | |w'.log| <= k < |log| ensures log[k] != DeleteVM(TargetKey(spec)) {
        if w'.deleting {
          DeletionMakes(spec, w'.status, i.answers, log[k]);
        } else {
          ReadyCalls(spec, w'.status, i.answers, log[k]);
        }
      }
    }
  }

  /** A run that stores Ready and in which the next reconcile deletes the target VM. */
  lemma {:induction false} TargetDeleted(spec: Spec) returns (start: seq<Input>)
    requires Stored(spec) && spec.deleteAfterMigration && SourceKey(spec) == TargetKey(spec)
    ensures Run(spec, CREATED, start).status.phase == Ready
    ensures !TargetKept(spec, Run(spec, CREATED, start), [Good(0)])
  {
    start := Begun(spec);
    start := FinishTour(spec, start);
    var w := Run(spec, CREATED, start);
    assert Run(spec, w, [Good(0)]) == Next(spec, w, Good(0)) by {
      OneMore(spec, w, [], Good(0));
      assert [] + [Good(0)] == [Good(0)];
    }
    DeletesSource(spec, w);
  }

  lemma {:induction false} DeletesSource(spec: Spec, w: World)
    requires OnTour(spec, w) && w.status.phase == Ready && spec.deleteAfterMigration
    ensures var log := Next(spec, w, Good(0)).log;
            |log| > |w.log| && log[|log|-1] == DeleteVM(SourceKey(spec))
  {
    var calls := Dispatch(spec, w.status, Good(0).answers).calls;
    assert calls[|calls|-1] == DeleteVM(SourceKey(spec));
  }

  /** Once a run has stored Ready no later reconcile, deletion of the migration included and
      whether or not the completion marker was written, deletes the target VM - exactly when
      the source is another VM, or is not to be deleted, or Ready cannot be reached. */
  lemma {:induction false} ReadyKeepsTargetIff(spec: Spec)
    ensures (forall start, ins :: Run(spec, CREATED, start).status.phase == Ready ==> TargetKept(spec, Run(spec, CREATED, start), ins))
            <==> SourceKey(spec) != TargetKey(spec) || !spec.deleteAfterMigration || !Stored(spec)
  {
    if SourceKey(spec) == TargetKey(spec) && spec.deleteAfterMigration && Stored(spec) {
      var start := TargetDeleted(spec);
      assert !TargetKept(spec, Run(spec, CREATED, start), [Good(0)]);
    } else {
      forall start, ins | Run(spec, CREATED, start).status.phase == Ready
        ensures TargetKept(spec, Run(spec, CREATED, start), ins)
      {
        NeedsStorage(spec, start);
        ReadyKeepsTarget(spec, Run(spec, CREATED, start), ins);
      }
    }
  }
}
