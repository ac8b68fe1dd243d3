/** Whether the export, and the import, that a migration goes on with was seen to finish:
    exactly the migrations for which every run waits for it, and runs of the others that do
    not. */
module MigrationWaits {
  import opened Common
  import opened MigrationModel
  import opened MigrationRuns
  import opened MigrationSafety
  import opened MigrationProgress

  // ---------- Storage comes first ----------

  lemma {:induction false} PvcStep(spec: Spec, st: Status, a: Answers)
    requires st.storagePVC.Some? ==> Stored(spec)
    ensures Dispatch(spec, st, a).stored.storagePVC.Some? ==> Stored(spec)
  {
    if st.phase != Validating {
      DispatchMoves(spec, st, a);
    }
  }

  /** Only a migration with usable storage ever gets a PVC, and so past Exporting. */
  lemma {:induction false} NeedsStorage(spec: Spec, ins: seq<Input>)
    ensures var st := Run(spec, CREATED, ins).status;
            st.storagePVC.Some? || AfterExport(st.phase) ==> Stored(spec)
  {
    Reachable(spec, ins);
    if ins != [] {
      var before, i := ins[..|ins|-1], ins[|ins|-1];
      NeedsStorage(spec, before);
      if i.Reconcile? {
        PvcStep(spec, Run(spec, CREATED, before).status, i.answers);
      }
    }
  }

  // ---------- The property ----------

  /** The phase that follows the transfer has been reached. */
  predicate Past(k: Phase, p: Phase) {
    if k == Exporting then AfterExport(p) else AfterImport(p)
  }

  predicate IsTransfer(k: Phase, e: Event) {
    (if k == Exporting then e.ExportDisk? else e.ImportDisk?) && e.resp.Some?
  }

  function TransferId(k: Phase, st: Status): Option<string> {
    if k == Exporting then st.exportID else st.importID
  }

  /** The transfer the status records was seen to finish. */
  ghost predicate SeenFinished(k: Phase, w: World) {
    exists e :: e in w.log && IsTransfer(k, e) && Some(e.resp.value.id) == TransferId(k, w.status)
             && Finished(w.log, k, e.resp.value)
  }

  ghost predicate Waits(k: Phase, w: World) {
    Past(k, w.status.phase) ==> SeenFinished(k, w)
  }

  lemma {:induction false} FirstAttemptSees(spec: Spec, ins: seq<Input>, k: Phase)
    requires k == Exporting || k == Importing
    requires Run(spec, CREATED, ins).status.retryCount == 0
    ensures Waits(k, Run(spec, CREATED, ins))
  {
    FirstAttemptWaits(spec, ins);
    var w := Run(spec, CREATED, ins);
    if Past(k, w.status.phase) {
      var e :| e in w.log && IsTransfer(k, e) && Some(e.resp.value.id) == TransferId(k, w.status)
            && Finished(w.log, k, e.resp.value);
    }
  }

  // ---------- Runs that do not wait ----------

  /** The answer to a transfer that is started as a task. */
  const STARTED := DiskResponse("disk", "sum", Some("task"))

  /** Every transfer of this kind was started as STARTED, and no task was seen to succeed. */
  ghost predicate NoneSucceeded(k: Phase, log: seq<Event>) {
    forall e :: e in log ==> (IsTransfer(k, e) ==> e.resp == Some(STARTED)) && (e.PollTask? ==> e.answer != TaskOk)
  }

  lemma {:induction false} NotSeen(k: Phase, w: World)
    requires NoneSucceeded(k, w.log)
    ensures !SeenFinished(k, w)
  {
  }

  /** The transfer is not about to be started: it has been, or the phase is another. */
  predicate Skips(k: Phase, st: Status) {
    st.phase == k ==> TransferId(k, st).Some?
  }

  lemma {:induction false} GoodCalls(spec: Spec, w: World, k: Phase)
    requires OnTour(spec, w) && Touring(w.status.phase) && w.status.phase != Ready && Skips(k, w.status)
    requires (k == Exporting || k == Importing) && NoneSucceeded(k, w.log)
    ensures NoneSucceeded(k, Next(spec, w, Good(0)).log)
    ensures w.log <= Next(spec, w, Good(0)).log
  {
    var calls := Dispatch(spec, w.status, Good(0).answers).calls;
    assert forall e :: e in calls ==> !IsTransfer(k, e) && !e.PollTask?;
  }

  lemma {:induction false} GoodIds(spec: Spec, w: World, k: Phase)
    requires OnTour(spec, w) && Touring(w.status.phase) && w.status.phase != Ready && Skips(k, w.status)
    requires k == Exporting || k == Importing
    ensures TransferId(k, Next(spec, w, Good(0)).status) == TransferId(k, w.status)
  {
  }

  /** Favourable reconciles lead on to `goal`, the transfer of kind `k` not being started. */
  lemma {:induction false} Advance(spec: Spec, before: seq<Input>, goal: Phase, k: Phase) returns (ins: seq<Input>)
    requires goal == Exporting || goal == Importing || goal == Creating
    requires var w := Run(spec, CREATED, before);
             && OnTour(spec, w) && Touring(w.status.phase) && Rank(spec, w.status.phase) >= Rank(spec, goal)
             && (k == Exporting || k == Importing) && NoneSucceeded(k, w.log)
             && (TransferId(k, w.status).Some? || Rank(spec, goal) >= Rank(spec, k))
    ensures var w, w' := Run(spec, CREATED, before), Run(spec, CREATED, ins);
            && OnTour(spec, w') && w'.status.phase == goal && NoneSucceeded(k, w'.log) && w.log <= w'.log
            && w'.status.retryCount == w.status.retryCount && w'.status.lastRetryTime == w.status.lastRetryTime
            && TransferId(k, w'.status) == TransferId(k, w.status)
    decreases Rank(spec, Run(spec, CREATED, before).status.phase)
  {
    var w := Run(spec, CREATED, before);
    if w.status.phase == goal {
      ins := before;
    } else {
      GoodStep(spec, w, 0);
      GoodCalls(spec, w, k);
      GoodIds(spec, w, k);
      OneMore(spec, CREATED, before, Good(0));
      ins := Advance(spec, before + [Good(0)], goal, k);
    }
  }

  /** A reconcile in which every transfer is started as a task, and a task polled is `poll`. */
  function WithTask(poll: Poll): Input {
    Reconcile(AllGood(0, Missing).(exported := Some(STARTED), imported := Some(STARTED), poll := poll))
  }

  lemma {:induction false} StartTransfer(spec: Spec, w: World, k: Phase)
    requires OnTour(spec, w) && w.status.phase == k && (k == Exporting || k == Importing)
    requires TransferId(k, w.status).None? && NoneSucceeded(k, w.log)
    ensures var w' := Next(spec, w, WithTask(Running));
            && OnTour(spec, w'.(status := w'.status.(taskRef := None))) && w'.status.phase == k && w'.status.taskRef == STARTED.task
            && TransferId(k, w'.status) == Some(STARTED.id) && NoneSucceeded(k, w'.log)
            && w'.status.retryCount == w.status.retryCount && w'.status.lastRetryTime == w.status.lastRetryTime
  {
    var calls := Dispatch(spec, w.status, WithTask(Running).answers).calls;
    assert |calls| == 1 && IsTransfer(k, calls[0]) && calls[0].resp == Some(STARTED);
  }

  lemma {:induction false} FailTransfer(spec: Spec, w: World, k: Phase)
    requires OnTour(spec, w.(status := w.status.(taskRef := None))) && w.status.phase == k && (k == Exporting || k == Importing)
    requires w.status.taskRef == STARTED.task && TransferId(k, w.status) == Some(STARTED.id) && NoneSucceeded(k, w.log)
    ensures var w' := Next(spec, w, WithTask(TaskError));
            && w'.status == w.status.(phase := Failed) && w'.present && w'.finalizer && !w'.deleting
            && w'.log == w.log + [PollTask(k, "disk", "task", TaskError)] && NoneSucceeded(k, w'.log)
  {
    assert Dispatch(spec, w.status, WithTask(TaskError).answers).calls == [PollTask(k, "disk", "task", TaskError)];
  }

  lemma {:induction false} Retry(spec: Spec, w: World)
    requires Stored(spec) && w.present && w.finalizer && !w.deleting && !w.status.cleanedUp
    requires w.status.phase == Failed && w.status.retryCount < RetryBudget(spec) && w.status.lastRetryTime.None?
    ensures var w' := Next(spec, w, Good(0));
            && OnTour(spec, w') && w'.log == w.log
            && w'.status == w.status.(phase := Pending, taskRef := None, retryCount := w.status.retryCount + 1, lastRetryTime := Some(0))
  {
  }

  /** The transfer is started, its task is seen to fail, and the migration is retried. */
  lemma {:induction false} FailAndRetry(spec: Spec, before: seq<Input>, k: Phase) returns (ins: seq<Input>)
    requires RetryBudget(spec) >= 1 && (k == Exporting || k == Importing)
    requires var w := Run(spec, CREATED, before);
             && OnTour(spec, w) && w.status.phase == k && TransferId(k, w.status).None? && NoneSucceeded(k, w.log)
             && w.status.retryCount == 0 && w.status.lastRetryTime.None?
    ensures var w := Run(spec, CREATED, ins);
            && OnTour(spec, w) && w.status.phase == Pending && TransferId(k, w.status) == Some(STARTED.id)
            && NoneSucceeded(k, w.log) && PollTask(k, "disk", "task", TaskError) in w.log && w.status.retryCount == 1
  {
    StartTransfer(spec, Run(spec, CREATED, before), k);
    OneMore(spec, CREATED, before, WithTask(Running));
    var one := before + [WithTask(Running)];
    FailTransfer(spec, Run(spec, CREATED, one), k);
    OneMore(spec, CREATED, one, WithTask(TaskError));
    var two := one + [WithTask(TaskError)];
    Retry(spec, Run(spec, CREATED, two));
    OneMore(spec, CREATED, two, Good(0));
    ins := two + [Good(0)];
  }

  /** A new migration after its first two reconciles. */
  lemma {:induction false} Begun(spec: Spec) returns (ins: seq<Input>)
    requires Stored(spec)
    ensures Run(spec, CREATED, ins) == World(true, true, false, NEW_STATUS.(phase := Pending), [])
    ensures OnTour(spec, Run(spec, CREATED, ins))
  {
    OneMore(spec, CREATED, [], Good(0));
    OneMore(spec, CREATED, [] + [Good(0)], Good(0));
    ins := [] + [Good(0)] + [Good(0)];
  }

  /** Whatever else the migration asks for: the only transfer of kind `k` is seen to fail,
      the migration is retried, and it goes on as if the transfer had succeeded. */
  lemma {:induction false} FailedTransferCounts(spec: Spec, k: Phase) returns (ins: seq<Input>)
    requires Stored(spec) && RetryBudget(spec) >= 1 && (k == Exporting || k == Importing)
    ensures var w := Run(spec, CREATED, ins);
            && w.status.phase == (if k == Exporting then Importing else Creating) && w.status.retryCount == 1
            && TransferId(k, w.status) == Some("disk") && PollTask(k, "disk", "task", TaskError) in w.log
            && NoneSucceeded(k, w.log) && !SeenFinished(k, w)
  {
    ins := Begun(spec);
    ins := Advance(spec, ins, k, k);
    ins := FailAndRetry(spec, ins, k);
    ins := Advance(spec, ins, if k == Exporting then Importing else Creating, k);
    NotSeen(k, Run(spec, CREATED, ins));
  }

  // ---------- Exactly when every run waits ----------

  lemma {:induction false} WaitsWhen(spec: Spec, ins: seq<Input>, k: Phase)
    requires k == Exporting || k == Importing
    requires RetryBudget(spec) == 0 || !Stored(spec)
    ensures Waits(k, Run(spec, CREATED, ins))
  {
    NeedsStorage(spec, ins);
    Reachable(spec, ins);
    if RetryBudget(spec) == 0 {
      FirstAttemptSees(spec, ins, k);
    }
  }

  /** In every run the migration goes past Exporting, or past Importing, only once the
      transfer it recorded was seen to finish, if and only if it cannot be retried or has no
      storage to transfer through. */
  lemma {:induction false} WaitsIff(spec: Spec, k: Phase)
    requires k == Exporting || k == Importing
    ensures (forall ins :: Waits(k, Run(spec, CREATED, ins))) <==> RetryBudget(spec) == 0 || !Stored(spec)
  {
    if RetryBudget(spec) == 0 || !Stored(spec) {
      forall ins ensures Waits(k, Run(spec, CREATED, ins)) {
        WaitsWhen(spec, ins, k);
      }
    } else {
      var ins := FailedTransferCounts(spec, k);
      assert !Waits(k, Run(spec, CREATED, ins));
    }
  }

  // ---------- Ready can be reached ----------

  lemma {:induction false} FinishTour(spec: Spec, before: seq<Input>) returns (ins: seq<Input>)
    requires var w := Run(spec, CREATED, before);
             OnTour(spec, w) && Touring(w.status.phase)
    ensures OnTour(spec, Run(spec, CREATED, ins)) && Run(spec, CREATED, ins).status.phase == Ready
    decreases Rank(spec, Run(spec, CREATED, before).status.phase)
  {
    var w := Run(spec, CREATED, before);
    if w.status.phase == Ready {
      ins := before;
    } else {
      GoodStep(spec, w, 0);
      OneMore(spec, CREATED, before, Good(0));
      ins := FinishTour(spec, before + [Good(0)]);
    }
  }

  /** Exactly the migrations with usable storage can become Ready. */
  lemma {:induction false} ReadyReachableIff(spec: Spec)
    ensures (exists ins :: Run(spec, CREATED, ins).status.phase == Ready) <==> Stored(spec)
  {
    if Stored(spec) {
      var ins := Begun(spec);
      ins := FinishTour(spec, ins);
      assert Run(spec, CREATED, ins).status.phase == Ready;
    } else {
      forall ins ensures Run(spec, CREATED, ins).status.phase != Ready {
        NeedsStorage(spec, ins);
      }
    }
  }
}
