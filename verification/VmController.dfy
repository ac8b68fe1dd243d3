/** The VirtualMachine reconciler in the source's own form, proved against VmModel. */
module VmController {
  import opened Common
  import opened VmModel

  class VmReconciler {
    const desired: Desired
    var status: Status      // the working copy, vm.Status
    var stored: Status      // the status held by the API server
    var calls: seq<Event>

    constructor (desired: Desired, stored: Status)
      ensures this.desired == desired && this.stored == stored && status == stored && calls == []
    {
      this.desired, this.stored, this.status, this.calls := desired, stored, stored, [];
    }

    /** A failed status write is logged and swallowed. */
    method UpdateStatus(a: Answers)
      modifies this`stored
      ensures stored == Written(a, old(stored), status)
    {
      if a.saved {
        stored := status;
      }
    }

    method UpdateCurrentResources()
      modifies this`status
      ensures status == old(status).(current := Some(DesiredResources(desired)))
    {
      var cpu, memory := desired.vmClass.cpu, desired.vmClass.memoryMiB;
      if desired.cpuOverride.Some? {
        cpu := desired.cpuOverride.value;
      }
      if desired.memoryOverride.Some? {
        memory := desired.memoryOverride.value;
      }
      status := status.(current := Some(Resources(cpu, memory)));
    }

    method ReconcileVM(a: Answers)
      requires status == stored && calls == []
      modifies this
      ensures stored == Reconcile(desired, a, old(stored)).stored
      ensures calls == Calls(Reconcile(desired, a, old(stored)))
    {
      if !a.dependencies || !a.instance || !a.valid {
        status := status.(ready := false);
        UpdateStatus(a);
        return;
      }
      if status.lastTask.Some? {
        if a.lastPoll != Done {
          UpdateStatus(a);
          return;
        }
        calls := calls + [TaskComplete(status.lastTask.value)];
        status := status.(lastTask := None);
      }
      if status.reconfigureTask.Some? {
        if a.reconfigurePoll != Done {
          UpdateStatus(a);
          return;
        }
        calls := calls + [TaskComplete(status.reconfigureTask.value)];
        UpdateCurrentResources();
        status := status.(reconfigureTask := None);
      }
      assert status == Cleared(desired, old(stored)) && calls == Reports(old(stored));
      EnsureState(a);
    }

    /** The part of ReconcileVM that runs once no task is pending. */
    method EnsureState(a: Answers)
      modifies this
      ensures var (st, seen, act) := Converge(desired, a, old(status));
              && stored == (if st.Some? then Written(a, old(stored), st.value) else old(stored))
              && calls == old(calls) + (if seen.Some? then [Described(seen.value)] else [])
                                     + (if act.Some? then [Acted(act.value)] else [])
    {
      if status.id.None? {
        DoCreate(a);
        return;
      }
      if a.described.None? {
        status := status.(ready := false);
        UpdateStatus(a);
        return;
      }
      var desc := a.described.value;
      calls := calls + [Described(desc.present)];
      if !desc.present {
        status := status.(id := None);
        DoCreate(a);
        return;
      }
      status := status.(power := Some(desc.power));
      if desc.power != DesiredPower(desired) {
        var op := PowerOp(DesiredPower(desired));
        if op.Some? {
          DoPower(op.value, a);
        }
        return;
      }
      if NeedsReconfigure(desired, status) {
        if a.built {
          DoReconfigure(a);
        }
        return;
      }
      status := status.(ready := true);
      UpdateStatus(a);
    }

    method DoCreate(a: Answers)
      modifies this
      ensures var (st, act) := CreateVM(desired, a, old(status));
              && stored == Written(a, old(stored), st)
              && calls == old(calls) + if act.Some? then [Acted(act.value)] else []
    {
      if desired.hasImage == desired.hasDisk {
        UpdateStatus(a);
        return;
      }
      if !a.built {
        UpdateStatus(a);
        return;
      }
      calls := calls + [Acted(Create(a.created.Some?))];
      if a.created.None? {
        UpdateStatus(a);
        return;
      }
      status := status.(id := Some(a.created.value.id));
      UpdateCurrentResources();
      if a.created.value.task.Some? {
        status := status.(lastTask := a.created.value.task);
      }
      UpdateStatus(a);
    }

    method DoPower(op: Op, a: Answers)
      modifies this
      ensures var (st, act) := AdjustPower(op, a, old(status));
              && stored == Written(a, old(stored), st)
              && calls == old(calls) + if act.Some? then [Acted(act.value)] else []
    {
      calls := calls + [Acted(SetPower(op, !a.powered.CallFailed?))];
      if a.powered.CallFailed? {
        status := status.(ready := false);
        UpdateStatus(a);
        return;
      }
      if a.powered.task.Some? {
        status := status.(lastTask := a.powered.task);
      }
      UpdateStatus(a);
    }

    method DoReconfigure(a: Answers)
      modifies this
      ensures var (st, act) := ReconfigureVM(desired, a, old(status));
              && stored == Written(a, old(stored), st)
              && calls == old(calls) + if act.Some? then [Acted(act.value)] else []
    {
      calls := calls + [Acted(Reconfigure(!a.reconfigured.CallFailed?))];
      if a.reconfigured.CallFailed? {
        UpdateStatus(a);
        return;
      }
      if a.reconfigured.task.Some? {
        status := status.(reconfigureTask := a.reconfigured.task);
      } else {
        UpdateCurrentResources();
        status := status.(ready := true);
      }
      UpdateStatus(a);
    }
  }
}
