/** One reconcile of a VirtualMachine as a function of the stored status and of the answers
    of the API server and the provider. */
module VmModel {
  import opened Common

  /** A power state string; `Other` stands for any string but these three. */
  datatype Power = On | Off | OffGraceful | Other(name: string)

  datatype Op = PowerOn | PowerOff | ShutdownGraceful

  datatype Resources = Resources(cpu: int, memoryMiB: int)

  /** The desired state: the VM's spec and the resources of its class. */
  datatype Desired = Desired(
    hasImage: bool, hasDisk: bool, power: Option<Power>,
    cpuOverride: Option<int>, memoryOverride: Option<int>,
    vmClass: Resources)

  /** An identifier the source keeps as an empty string is None. */
  datatype Status = Status(
    id: Option<string>, power: Option<Power>, lastTask: Option<string>, reconfigureTask: Option<string>,
    current: Option<Resources>, ready: bool)

  const NEW_STATUS := Status(None, None, None, None, None, false)

  datatype Poll = CheckError | Running | Done

  datatype Created = Created(id: string, task: Option<string>)

  datatype Description = Description(present: bool, power: Power)

  /** A provider call that may fail and may return a task. */
  datatype Reply = CallFailed | Accepted(task: Option<string>)

  datatype Answers = Answers(
    dependencies: bool, instance: bool, valid: bool,
    lastPoll: Poll, reconfigurePoll: Poll,
    described: Option<Description>,
    built: bool, created: Option<Created>, powered: Reply, reconfigured: Reply,
    saved: bool)

  /** A mutating provider call and whether it succeeded. */
  datatype Act =
    | Create(ok: bool)
    | SetPower(op: Op, ok: bool)
    | Reconfigure(ok: bool)

  /** A reconcile: the status stored, the tasks reported complete, the answer of Describe if
      it was asked and answered, and the mutating call if one was made. */
  datatype Effect = Effect(stored: Status, reports: seq<Event>, seen: Option<bool>, act: Option<Act>)

  datatype Event = TaskComplete(task: string) | Described(present: bool) | Acted(act: Act)

  /** The calls of a reconcile in the order they are made. */
  function Calls(eff: Effect): seq<Event> {
    eff.reports
    + (if eff.seen.Some? then [Described(eff.seen.value)] else [])
    + (if eff.act.Some? then [Acted(eff.act.value)] else [])
  }

  function DesiredPower(d: Desired): Power {
    if d.power.Some? then d.power.value else On
  }

  function DesiredResources(d: Desired): Resources {
    Resources(if d.cpuOverride.Some? then d.cpuOverride.value else d.vmClass.cpu,
              if d.memoryOverride.Some? then d.memoryOverride.value else d.vmClass.memoryMiB)
  }

  function CurrentResources(st: Status): Resources {
    if st.current.Some? then st.current.value else Resources(0, 0)
  }

  predicate NeedsReconfigure(d: Desired, st: Status) {
    CurrentResources(st) != Resources(0, 0) && CurrentResources(st) != DesiredResources(d)
  }

  function PowerOp(p: Power): Option<Op> {
    match p
    case On => Some(PowerOn)
    case Off => Some(PowerOff)
    case OffGraceful => Some(ShutdownGraceful)
    case Other(_) => None
  }

  /** The status after a write: `stored` is the one in the API server, `st` the working copy. */
  function Written(a: Answers, stored: Status, st: Status): Status {
    if a.saved then st else stored
  }

  /** What createVM leaves in the working copy, and its call. */
  function CreateVM(d: Desired, a: Answers, st: Status): (Status, Option<Act>) {
    if d.hasImage == d.hasDisk || !a.built then (st, None)
    else if a.created.None? then (st, Some(Create(false)))
    else
      var st' := st.(id := Some(a.created.value.id), current := Some(DesiredResources(d)));
      (if a.created.value.task.Some? then st'.(lastTask := a.created.value.task) else st', Some(Create(true)))
  }

  /** adjustPowerState, for a supported power state. */
  function AdjustPower(op: Op, a: Answers, st: Status): (Status, Option<Act>) {
    if a.powered.CallFailed? then (st.(ready := false), Some(SetPower(op, false)))
    else (if a.powered.task.Some? then st.(lastTask := a.powered.task) else st, Some(SetPower(op, true)))
  }

  /** reconfigureVM, once the request is built. */
  function ReconfigureVM(d: Desired, a: Answers, st: Status): (Status, Option<Act>) {
    if a.reconfigured.CallFailed? then (st, Some(Reconfigure(false)))
    else (if a.reconfigured.task.Some? then st.(reconfigureTask := a.reconfigured.task)
          else st.(current := Some(DesiredResources(d)), ready := true), Some(Reconfigure(true)))
  }

  /** The reconcile once no stored task is left: the working copy to write, None where the
      handler returns without writing, the answer of Describe, and the mutating call. */
  function Converge(d: Desired, a: Answers, st: Status): (Option<Status>, Option<bool>, Option<Act>) {
    if st.id.None? then
      var (st', act) := CreateVM(d, a, st);
      (Some(st'), None, act)
    else if a.described.None? then (Some(st.(ready := false)), None, None)
    else
      var desc := a.described.value;
      if !desc.present then
        var (st', act) := CreateVM(d, a, st.(id := None));
        (Some(st'), Some(false), act)
      else
        var st' := st.(power := Some(desc.power));
        if desc.power != DesiredPower(d) then
          if PowerOp(DesiredPower(d)).None? then (None, Some(true), None)
          else
            var (st'', act) := AdjustPower(PowerOp(DesiredPower(d)).value, a, st');
            (Some(st''), Some(true), act)
        else if NeedsReconfigure(d, st') then
          if !a.built then (None, Some(true), None)
          else
            var (st'', act) := ReconfigureVM(d, a, st');
            (Some(st''), Some(true), act)
        else (Some(st'.(ready := true)), Some(true), None)
  }

  /** The completion reports of the stored tasks, in the order they are asked for. */
  function LastReport(stored: Status): seq<Event> {
    if stored.lastTask.Some? then [TaskComplete(stored.lastTask.value)] else []
  }

  function Reports(stored: Status): seq<Event> {
    if stored.reconfigureTask.Some? then LastReport(stored) + [TaskComplete(stored.reconfigureTask.value)] else LastReport(stored)
  }

  /** The working copy once the stored tasks are complete. */
  function Cleared(d: Desired, stored: Status): Status {
    if stored.reconfigureTask.Some?
    then stored.(lastTask := None, reconfigureTask := None, current := Some(DesiredResources(d)))
    else stored.(lastTask := None)
  }

  function Reconcile(d: Desired, a: Answers, stored: Status): Effect {
    if !a.dependencies || !a.instance || !a.valid then Effect(Written(a, stored, stored.(ready := false)), [], None, None)
    else if stored.lastTask.Some? && a.lastPoll != Done then Effect(stored, [], None, None)
    else if stored.reconfigureTask.Some? && a.reconfigurePoll != Done then
      Effect(Written(a, stored, stored.(lastTask := None)), LastReport(stored), None, None)
    else
      var (st, seen, act) := Converge(d, a, Cleared(d, stored));
      Effect(if st.Some? then Written(a, stored, st.value) else stored, Reports(stored), seen, act)
  }
}
