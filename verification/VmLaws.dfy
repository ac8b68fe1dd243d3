/** What a reconcile of a VirtualMachine reports, stores and withdraws, and that no task it
    started is ever lost sight of. */
module VmLaws {
  import opened Common
  import opened VmModel
  import opened VmRuns

  // ---------- The record of a reconcile is true ----------

  /** A call is recorded as successful if and only if it was answered so; Describe is recorded
      with its answer; a task is recorded as complete only if the provider said so. */
  lemma {:induction false} RecordIsTrue(d: Desired, a: Answers, stored: Status)
    ensures var eff := Reconcile(d, a, stored);
            && (eff.seen.Some? ==> a.described.Some? && eff.seen.value == a.described.value.present)
            && (eff.act.Some? ==>
                  match eff.act.value
                  case Create(ok) => ok <==> a.created.Some?
                  case SetPower(_, ok) => ok <==> a.powered.Accepted?
                  case Reconfigure(ok) => ok <==> a.reconfigured.Accepted?)
            && (stored.lastTask.Some? && (eff.reports != [] || eff.seen.Some? || eff.act.Some?) ==> a.lastPoll == Done)
            && (stored.reconfigureTask.Some? && (eff.seen.Some? || eff.act.Some?) ==> a.reconfigurePoll == Done)
  {
  }

  /** Without a task outstanding no answer about tasks matters. */
  lemma {:induction false} NoNeedlessWait(d: Desired, a: Answers, stored: Status, last: Poll, reconfigure: Poll)
    requires stored.lastTask.None? && stored.reconfigureTask.None?
    ensures Reconcile(d, a.(lastPoll := last, reconfigurePoll := reconfigure), stored) == Reconcile(d, a, stored)
  {
  }

  // ---------- What is stored ----------

  /** The reconcile ends in a status write that is accepted: it has a power operation to ask
      for and can build the request it needs. */
  predicate Writes(d: Desired, a: Answers) {
    a.saved && a.built && (d.power.Some? ==> !d.power.value.Other?)
  }

  /** The identifier stored is that of the VM: a new one's if one was made, none once the old
      one was reported gone, and else the one before. */
  lemma {:induction false} IdIsTracked(d: Desired, a: Answers, stored: Status)
    requires a.saved
    ensures var eff := Reconcile(d, a, stored);
            && (eff.act == Some(Create(true)) ==> eff.stored.id == Some(a.created.value.id))
            && (eff.act != Some(Create(true)) && eff.seen == Some(false) ==> eff.stored.id.None?)
            && (eff.act != Some(Create(true)) && eff.seen != Some(false) ==> eff.stored.id == stored.id)
  {
  }

  /** The power state stored is the one last described. */
  lemma {:induction false} PowerIsTracked(d: Desired, a: Answers, stored: Status)
    requires Writes(d, a)
    ensures var eff := Reconcile(d, a, stored);
            eff.stored.power == if eff.seen == Some(true) then Some(a.described.value.power) else stored.power
  {
  }

  /** Ready is withdrawn when the dependencies, the provider, Describe or a power call fail. */
  lemma {:induction false} ReadyIsWithdrawn(d: Desired, a: Answers, stored: Status)
    requires Writes(d, a) && Reconcile(d, a, stored).stored.ready
    ensures a.dependencies && a.instance && a.valid
    ensures stored.lastTask.None? && stored.reconfigureTask.None? && stored.id.Some? ==> a.described.Some?
    ensures Reconcile(d, a, stored).act.Some? && Reconcile(d, a, stored).act.value.SetPower? ==> a.powered.Accepted?
  {
  }

  /** A reconfiguration that needs no task leaves the VM ready with its new resources. */
  lemma {:induction false} ReconfiguredAtOnce(d: Desired, a: Answers, stored: Status)
    requires Writes(d, a) && Reconcile(d, a, stored).act == Some(Reconfigure(true)) && a.reconfigured.task.None?
    ensures Reconcile(d, a, stored).stored.ready && ResourcesMatch(d, Reconcile(d, a, stored).stored)
  {
  }

  // ---------- Tasks ----------

  /** The task that the call started. */
  function Started(a: Answers, act: Option<Act>): Option<string> {
    match act
    case Some(Create(true)) => if a.created.Some? then a.created.value.task else None
    case Some(SetPower(_, true)) => if a.powered.Accepted? then a.powered.task else None
    case Some(Reconfigure(true)) => if a.reconfigured.Accepted? then a.reconfigured.task else None
    case _ => None
  }

  predicate Holds(st: Status, task: string) {
    st.lastTask == Some(task) || st.reconfigureTask == Some(task)
  }

  /** From a status without tasks: the task that is started is stored, and no other. */
  lemma {:induction false} ConvergeTasks(d: Desired, a: Answers, st: Status)
    requires st.lastTask.None? && st.reconfigureTask.None?
    ensures var (st', _, act) := Converge(d, a, st);
            && (Started(a, act).Some? ==> st'.Some? && Holds(st'.value, Started(a, act).value))
            && (st'.Some? ==> st'.value.lastTask.None? || st'.value.lastTask == Started(a, act))
            && (st'.Some? ==> st'.value.reconfigureTask.None? || st'.value.reconfigureTask == Started(a, act))
  {
  }

  /** A reconcile that gets past the stored tasks converges from a status without any. */
  lemma {:induction false} PastTasks(d: Desired, a: Answers, stored: Status)
    requires a.dependencies && a.instance && a.valid
    requires (stored.lastTask.Some? ==> a.lastPoll == Done) && (stored.reconfigureTask.Some? ==> a.reconfigurePoll == Done)
    ensures var st := Cleared(d, stored);
            var (st', seen, act) := Converge(d, a, st);
            && st.lastTask.None? && st.reconfigureTask.None?
            && Reconcile(d, a, stored) == Effect(if st'.Some? && a.saved then st'.value else stored, Reports(stored), seen, act)
  {
  }

  /** A task that was started is stored. */
  lemma {:induction false} StartedIsStored(d: Desired, a: Answers, stored: Status)
    requires a.saved && Started(a, Reconcile(d, a, stored).act).Some?
    ensures Holds(Reconcile(d, a, stored).stored, Started(a, Reconcile(d, a, stored).act).value)
  {
    RecordIsTrue(d, a, stored);
    PastTasks(d, a, stored);
    ConvergeTasks(d, a, Cleared(d, stored));
  }

  /** Tasks that were reported complete are not stored any more. */
  lemma {:induction false} ReportedIsDropped(d: Desired, a: Answers, stored: Status)
    requires Writes(d, a) && a.dependencies && a.instance && a.valid
    requires (stored.lastTask.Some? ==> a.lastPoll == Done) && (stored.reconfigureTask.Some? ==> a.reconfigurePoll == Done)
    ensures var eff := Reconcile(d, a, stored);
            && (eff.stored.lastTask.None? || eff.stored.lastTask == Started(a, eff.act))
            && (eff.stored.reconfigureTask.None? || eff.stored.reconfigureTask == Started(a, eff.act))
  {
    PastTasks(d, a, stored);
    ConvergeTasks(d, a, Cleared(d, stored));
    ConvergeWrites(d, a, Cleared(d, stored));
  }

  lemma {:induction false} ConvergeWrites(d: Desired, a: Answers, st: Status)
    requires Writes(d, a)
    ensures Converge(d, a, st).0.Some?
  {
  }

  /** The first of two stored tasks is dropped while the second still runs. */
  lemma {:induction false} FirstTaskIsDropped(d: Desired, a: Answers, stored: Status)
    requires a.saved && a.dependencies && a.instance && a.valid
    requires stored.lastTask.Some? && a.lastPoll == Done && stored.reconfigureTask.Some? && a.reconfigurePoll != Done
    ensures Reconcile(d, a, stored).stored == stored.(lastTask := None)
    ensures Reconcile(d, a, stored).act.None?
  {
  }

  /** A stored task is dropped only once it is reported complete, whatever is answered or lost. */
  lemma {:induction false} DroppedWhenReported(d: Desired, a: Answers, stored: Status, task: string)
    requires Holds(stored, task) && !Holds(Reconcile(d, a, stored).stored, task)
    ensures TaskComplete(task) in Reconcile(d, a, stored).reports
  {
  }

  /** The status after some reconciles. */
  function From(st: Status, ins: seq<Input>): Status {
    if ins == [] then st
    else Reconcile(ins[|ins|-1].desired, ins[|ins|-1].answers, From(st, ins[..|ins|-1])).stored
  }

  /** Some reconcile of the run reported the task complete. */
  ghost predicate Reported(st: Status, ins: seq<Input>, task: string) {
    exists k :: 0 <= k < |ins| && TaskComplete(task) in Reconcile(ins[k].desired, ins[k].answers, From(st, ins[..k])).reports
  }

  lemma {:induction false} HeldUntilReported(st: Status, ins: seq<Input>, task: string)
    requires Holds(st, task)
    ensures Holds(From(st, ins), task) || Reported(st, ins, task)
  {
    if ins != [] {
      var n := |ins| - 1;
      HeldUntilReported(st, ins[..n], task);
      if Reported(st, ins[..n], task) {
        var k :| 0 <= k < n && TaskComplete(task) in Reconcile(ins[..n][k].desired, ins[..n][k].answers, From(st, ins[..n][..k])).reports;
        assert ins[..n][..k] == ins[..k];
      } else if !Holds(From(st, ins), task) {
        DroppedWhenReported(ins[n].desired, ins[n].answers, From(st, ins[..n]), task);
      }
    }
  }

  /** A task that was started and stored is followed until it is reported complete: after any
      further reconciles, with any answers and lost writes, it is still stored or was reported. */
  lemma {:induction false} StartedTaskIsFollowed(d: Desired, a: Answers, stored: Status, ins: seq<Input>, task: string)
    requires a.saved && Started(a, Reconcile(d, a, stored).act) == Some(task)
    ensures var st := Reconcile(d, a, stored).stored;
            Holds(From(st, ins), task) || Reported(st, ins, task)
  {
    StartedIsStored(d, a, stored);
    HeldUntilReported(Reconcile(d, a, stored).stored, ins, task);
  }
}
