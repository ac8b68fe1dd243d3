/** Whole runs of the VirtualMachine reconciler. */
module VmRuns {
  import opened Common
  import opened VmModel

  function One(b: bool): nat {
    if b then 1 else 0
  }

  // ---------- Any desired state, any answers, lost writes ----------

  /** The desired state may change between reconciles. */
  datatype Input = Input(desired: Desired, answers: Answers)

  /** The stored status, the successful creations, the times Describe reported the VM gone,
      and the status writes lost in a reconcile that created a VM. */
  datatype World = World(status: Status, created: nat, gone: nat, lost: nat)

  const CREATED := World(NEW_STATUS, 0, 0, 0)

  function Next(w: World, i: Input): World {
    var eff := Reconcile(i.desired, i.answers, w.status);
    World(eff.stored,
          w.created + One(eff.act == Some(Create(true))),
          w.gone + One(eff.seen == Some(false)),
          w.lost + One(eff.act == Some(Create(true)) && !i.answers.saved))
  }

  function Run(ins: seq<Input>): World {
    if ins == [] then CREATED else Next(Run(ins[..|ins|-1]), ins[|ins|-1])
  }

  lemma {:induction false} NextBalance(w: World, i: Input)
    ensures var w' := Next(w, i);
            w'.created - w.created + One(w'.status.id.None?) <= One(w.status.id.None?) + w'.gone - w.gone + w'.lost - w.lost
  {
  }

  /** A VM is created at most once, once more for every time the provider reports it gone,
      and once more for every lost write of its identifier. */
  lemma {:induction false} CreationIsConserved(ins: seq<Input>)
    ensures var w := Run(ins);
            w.created + One(w.status.id.None?) <= 1 + w.gone + w.lost
  {
    if ins != [] {
      CreationIsConserved(ins[..|ins|-1]);
      NextBalance(Run(ins[..|ins|-1]), ins[|ins|-1]);
    }
  }

  lemma {:induction false} TaskReplaced(d: Desired, a: Answers, stored: Status)
    requires stored.lastTask.None? || stored.reconfigureTask.None?
    ensures var st := Reconcile(d, a, stored).stored;
            st.lastTask.None? || st.reconfigureTask.None?
  {
  }

  /** At most one task is ever outstanding. */
  lemma {:induction false} OneTaskAtATime(ins: seq<Input>)
    ensures Run(ins).status.lastTask.None? || Run(ins).status.reconfigureTask.None?
  {
    if ins != [] {
      OneTaskAtATime(ins[..|ins|-1]);
      TaskReplaced(ins[|ins|-1].desired, ins[|ins|-1].answers, Run(ins[..|ins|-1]).status);
    }
  }

  /** A mutating call comes last in its reconcile, and every task that was stored has been
      reported complete before it. */
  lemma {:induction false} MutationsWait(d: Desired, a: Answers, stored: Status)
    requires Reconcile(d, a, stored).act.Some?
    ensures var calls := Calls(Reconcile(d, a, stored));
            && calls[|calls|-1] == Acted(Reconcile(d, a, stored).act.value)
            && (stored.lastTask.Some? ==> TaskComplete(stored.lastTask.value) in calls[..|calls|-1])
            && (stored.reconfigureTask.Some? ==> TaskComplete(stored.reconfigureTask.value) in calls[..|calls|-1])
            && (forall k :: 0 <= k < |calls| - 1 ==> !calls[k].Acted?)
  {
    var eff := Reconcile(d, a, stored);
    var calls := Calls(eff);
    assert eff.reports == Reports(stored);
    if stored.lastTask.Some? {
      assert calls[0] == TaskComplete(stored.lastTask.value);
    }
    if stored.reconfigureTask.Some? {
      assert calls[|eff.reports| - 1] == TaskComplete(stored.reconfigureTask.value);
    }
  }

  // ---------- A provider that does what it is told ----------

  /** The VM as the provider holds it. `pending` is a power change whose task still runs. */
  datatype Machine = Machine(present: bool, power: Power, pending: Option<(string, Power)>)

  /** The stored status, the machine, and the successful mutating calls so far. */
  datatype Site = Site(status: Status, machine: Machine, creates: nat, powers: nat, reconfigures: nat)

  /** What the provider answers in one reconcile; a new VM comes up in power state `born`. */
  datatype Turn = Turn(answers: Answers, born: Power)

  /** The machine after a finished task of the last power change. */
  function AfterPolls(a: Answers, s: Site): Machine {
    var m := s.machine;
    if a.dependencies && a.instance && a.valid
       && m.pending.Some? && s.status.lastTask == Some(m.pending.value.0) && a.lastPoll == Done
    then m.(power := m.pending.value.1, pending := None) else m
  }

  /** The power state a finished power operation leaves. */
  function Reached(op: Op): Power {
    if op.PowerOn? then On else Off
  }

  function AfterAct(t: Turn, m: Machine, act: Option<Act>): Machine {
    match act
    case Some(Create(ok)) => if ok then Machine(true, t.born, None) else m
    case Some(SetPower(op, ok)) =>
      if !ok || t.answers.powered.CallFailed? then m
      else if t.answers.powered.task.Some? then m.(pending := Some((t.answers.powered.task.value, Reached(op))))
      else m.(power := Reached(op))
    case _ => m
  }

  function SiteNext(d: Desired, s: Site, t: Turn): Site {
    var eff := Reconcile(d, t.answers, s.status);
    Site(eff.stored, AfterAct(t, AfterPolls(t.answers, s), eff.act),
         s.creates + One(eff.act == Some(Create(true))),
         s.powers + One(eff.act.Some? && eff.act.value.SetPower? && eff.act.value.ok),
         s.reconfigures + One(eff.act == Some(Reconfigure(true))))
  }

  /** Every write is stored, and Describe, when it answers, tells the truth. */
  ghost predicate Honest(s: Site, t: Turn) {
    && t.answers.saved
    && (t.answers.described.Some? ==>
          t.answers.described.value == Description(AfterPolls(t.answers, s).present, AfterPolls(t.answers, s).power))
  }

  function SiteRun(d: Desired, s: Site, ts: seq<Turn>): Site {
    if ts == [] then s else SiteNext(d, SiteRun(d, s, ts[..|ts|-1]), ts[|ts|-1])
  }

  ghost predicate HonestRun(d: Desired, s: Site, ts: seq<Turn>) {
    ts == [] || (HonestRun(d, s, ts[..|ts|-1]) && Honest(SiteRun(d, s, ts[..|ts|-1]), ts[|ts|-1]))
  }

  predicate OnOrOff(d: Desired) {
    DesiredPower(d).On? || DesiredPower(d).Off?
  }

  /** Status and machine agree, and the desired power state is one a machine can report. */
  ghost predicate Consistent(d: Desired, s: Site) {
    && OnOrOff(d)
    && (s.status.id.Some? <==> s.machine.present)
    && (s.status.lastTask.None? || s.status.reconfigureTask.None?)
    && (s.machine.pending.Some? ==>
          s.machine.present && s.status.lastTask == Some(s.machine.pending.value.0) && s.machine.pending.value.1 == DesiredPower(d))
  }

  /** What is left to do once the outstanding task is complete. */
  predicate CreateLeft(s: Site) {
    s.status.id.None?
  }

  predicate PowerLeft(d: Desired, s: Site) {
    !s.machine.present || (s.machine.pending.None? && s.machine.power != DesiredPower(d))
  }

  predicate ReconfigureLeft(d: Desired, s: Site) {
    s.status.reconfigureTask.None? && NeedsReconfigure(d, s.status)
  }

  /** Each kind of call is paid for by something that was left to do. */
  ghost predicate Paid(d: Desired, s: Site, s': Site) {
    && s'.creates + One(CreateLeft(s')) <= s.creates + One(CreateLeft(s))
    && s'.powers + One(PowerLeft(d, s')) <= s.powers + One(PowerLeft(d, s))
    && s'.reconfigures + One(ReconfigureLeft(d, s')) <= s.reconfigures + One(ReconfigureLeft(d, s))
  }

  lemma {:induction false} StepPresence(d: Desired, s: Site, t: Turn)
    requires Consistent(d, s) && Honest(s, t)
    ensures var s' := SiteNext(d, s, t);
            s'.status.id.Some? <==> s'.machine.present
  {
  }

  lemma {:induction false} StepPending(d: Desired, s: Site, t: Turn)
    requires Consistent(d, s) && Honest(s, t)
    ensures var s' := SiteNext(d, s, t);
            s'.machine.pending.Some? ==>
              s'.machine.present && s'.status.lastTask == Some(s'.machine.pending.value.0) && s'.machine.pending.value.1 == DesiredPower(d)
  {
  }

  lemma {:induction false} StepConsistent(d: Desired, s: Site, t: Turn)
    requires Consistent(d, s) && Honest(s, t)
    ensures Consistent(d, SiteNext(d, s, t))
  {
    StepPresence(d, s, t);
    TaskReplaced(d, t.answers, s.status);
    StepPending(d, s, t);
  }

  lemma {:induction false} PowerPaid(d: Desired, s: Site, t: Turn)
    requires Consistent(d, s) && Honest(s, t)
    ensures var s' := SiteNext(d, s, t);
            s'.powers + One(PowerLeft(d, s')) <= s.powers + One(PowerLeft(d, s))
  {
  }

  lemma {:induction false} CreatePaid(d: Desired, s: Site, t: Turn)
    requires Consistent(d, s) && Honest(s, t)
    ensures var s' := SiteNext(d, s, t);
            s'.creates + One(CreateLeft(s')) <= s.creates + One(CreateLeft(s))
  {
  }

  lemma {:induction false} ReconfigurePaid(d: Desired, s: Site, t: Turn)
    requires Consistent(d, s) && Honest(s, t)
    ensures var s' := SiteNext(d, s, t);
            s'.reconfigures + One(ReconfigureLeft(d, s')) <= s.reconfigures + One(ReconfigureLeft(d, s))
  {
  }

  /** With a fixed desired state and a provider that does what it is told, a run makes at
      most one successful Create, one Power and one Reconfigure. */
  lemma {:induction false} CallsAreBounded(d: Desired, s: Site, ts: seq<Turn>)
    requires Consistent(d, s) && HonestRun(d, s, ts)
    ensures Consistent(d, SiteRun(d, s, ts)) && Paid(d, s, SiteRun(d, s, ts))
    ensures SiteRun(d, s, ts).creates <= s.creates + 1
    ensures SiteRun(d, s, ts).powers <= s.powers + 1
    ensures SiteRun(d, s, ts).reconfigures <= s.reconfigures + 1
  {
    if ts != [] {
      CallsAreBounded(d, s, ts[..|ts|-1]);
      var s', t := SiteRun(d, s, ts[..|ts|-1]), ts[|ts|-1];
      StepConsistent(d, s', t);
      PowerPaid(d, s', t);
      CreatePaid(d, s', t);
      ReconfigurePaid(d, s', t);
    }
  }

  ghost predicate Settled(d: Desired, s: Site) {
    !CreateLeft(s) && !PowerLeft(d, s) && !ReconfigureLeft(d, s)
  }

  /** The spec names exactly one of an image and an imported disk. */
  predicate Creatable(d: Desired) {
    d.hasImage != d.hasDisk
  }

  /** Every call of the reconcile is answered favourably. */
  ghost predicate Succeeds(a: Answers) {
    && a.dependencies && a.instance && a.valid && a.lastPoll == Done && a.reconfigurePoll == Done
    && a.described.Some? && a.built && a.created.Some? && !a.powered.CallFailed? && !a.reconfigured.CallFailed?
  }

  lemma {:induction false} SettledStep(d: Desired, s: Site, t: Turn)
    requires Consistent(d, s) && Honest(s, t) && Settled(d, s)
    ensures Settled(d, SiteNext(d, s, t))
    ensures Reconcile(d, t.answers, s.status).act.None?
    ensures Succeeds(t.answers) ==> SiteNext(d, s, t).status.ready
  {
  }

  /** The tracked resources are the ones the spec overrides, and else those of the class; a
      VM for which none are tracked is left alone. */
  predicate ResourcesMatch(d: Desired, st: Status) {
    || st.current.None? || st.current == Some(Resources(0, 0))
    || (&& st.current.value.cpu == (if d.cpuOverride.Some? then d.cpuOverride.value else d.vmClass.cpu)
        && st.current.value.memoryMiB == (if d.memoryOverride.Some? then d.memoryOverride.value else d.vmClass.memoryMiB))
  }

  /** The VM is there, in the power state asked for or else on, and with its resources. */
  predicate Delivered(d: Desired, s: Site) {
    && s.machine.present && s.machine.pending.None?
    && s.machine.power == (if d.power.Some? then d.power.value else On)
    && ResourcesMatch(d, s.status)
  }

  /** Where nothing is left to reconfigure the resources match, and conversely. */
  lemma {:induction false} ReconfigureLeftIff(d: Desired, s: Site)
    requires s.status.reconfigureTask.None?
    ensures !ReconfigureLeft(d, s) <==> ResourcesMatch(d, s.status)
  {
  }

  lemma {:induction false} SettledDelivers(d: Desired, s: Site, t: Turn)
    requires Consistent(d, s) && Honest(s, t) && Settled(d, s) && Succeeds(t.answers)
    ensures Delivered(d, SiteNext(d, s, t))
  {
  }

  /** Ready is only ever set on a VM that is as asked for. */
  lemma {:induction false} ReadyIsDelivered(d: Desired, s: Site, t: Turn)
    requires Consistent(d, s) && Honest(s, t)
    requires !s.status.ready && SiteNext(d, s, t).status.ready
    ensures Delivered(d, SiteNext(d, s, t))
  {
  }

  /** The power operation requested is the one asked for: on, off, or a graceful shutdown. */
  lemma {:induction false} PowerRequest(d: Desired, a: Answers, stored: Status)
    requires Reconcile(d, a, stored).act.Some? && Reconcile(d, a, stored).act.value.SetPower?
    ensures Reconcile(d, a, stored).act.value.op
         == match d.power
            case None => PowerOn
            case Some(On) => PowerOn
            case Some(Off) => PowerOff
            case Some(_) => ShutdownGraceful
    ensures d.power.Some? ==> !d.power.value.Other?
  {
  }

  /** No reconcile of the run makes a mutating call. */
  ghost predicate Quiet(d: Desired, s: Site, ts: seq<Turn>) {
    ts == [] ||
    (Quiet(d, s, ts[..|ts|-1]) && Reconcile(d, ts[|ts|-1].answers, SiteRun(d, s, ts[..|ts|-1]).status).act.None?)
  }

  /** Once nothing is left to do, no later reconcile makes a mutating call, and each one
      that is answered favourably stores Ready=True. */
  lemma {:induction false} SettledForever(d: Desired, s: Site, ts: seq<Turn>)
    requires Consistent(d, s) && Settled(d, s) && HonestRun(d, s, ts)
    ensures Settled(d, SiteRun(d, s, ts))
    ensures Quiet(d, s, ts)
    ensures ts != [] && Succeeds(ts[|ts|-1].answers) ==> SiteRun(d, s, ts).status.ready
  {
    if ts != [] {
      var n := |ts| - 1;
      SettledForever(d, s, ts[..n]);
      CallsAreBounded(d, s, ts[..n]);
      SettledStep(d, SiteRun(d, s, ts[..n]), ts[n]);
    }
  }

  function Distance(d: Desired, s: Site): nat {
    if CreateLeft(s) then 3 else if PowerLeft(d, s) then 2 else if ReconfigureLeft(d, s) then 1 else 0
  }

  lemma {:induction false} FavourableStep(d: Desired, s: Site, t: Turn)
    requires Consistent(d, s) && Honest(s, t) && Succeeds(t.answers) && (CreateLeft(s) ==> Creatable(d))
    ensures Distance(d, SiteNext(d, s, t)) <= Max(0, Distance(d, s) - 1)
  {
    if Settled(d, s) {
      SettledStep(d, s, t);
    }
  }

  /** Favourable reconciles reach the desired state: after three at most nothing is left to
      do, and the next one finds the VM as asked for and stores Ready=True. */
  lemma {:induction false} Converges(d: Desired, s: Site, ts: seq<Turn>)
    requires Consistent(d, s) && HonestRun(d, s, ts) && (CreateLeft(s) ==> Creatable(d))
    requires forall k :: 0 <= k < |ts| ==> Succeeds(ts[k].answers)
    ensures Distance(d, SiteRun(d, s, ts)) <= Max(0, 3 - |ts|)
    ensures |ts| >= 4 ==> SiteRun(d, s, ts).status.ready && Delivered(d, SiteRun(d, s, ts))
  {
    if ts != [] {
      var n := |ts| - 1;
      Converges(d, s, ts[..n]);
      CallsAreBounded(d, s, ts[..n]);
      FavourableStep(d, SiteRun(d, s, ts[..n]), ts[n]);
      if n >= 3 {
        SettledStep(d, SiteRun(d, s, ts[..n]), ts[n]);
        SettledDelivers(d, SiteRun(d, s, ts[..n]), ts[n]);
      }
    }
  }

  // ---------- When a VM can become ready ----------

  /** What Describe can report of a VM's power. */
  predicate Reportable(p: Power) {
    p.On? || p.Off?
  }

  /** A graceful shutdown is asked for by every favourable reconcile of the VM, also of one
      that is off. */
  lemma {:induction false} GracefulShutdownRepeats(d: Desired, s: Site, t: Turn)
    requires DesiredPower(d).OffGraceful? && Honest(s, t) && Succeeds(t.answers)
    requires Reportable(AfterPolls(t.answers, s).power) && s.machine.present && s.status.id.Some?
    ensures Reconcile(d, t.answers, s.status).act == Some(SetPower(ShutdownGraceful, true))
  {
  }

  ghost predicate Plausible(a: Answers) {
    a.described.Some? ==> Reportable(a.described.value.power)
  }

  /** A VM that is to have a power state no machine reports is not made ready. */
  lemma {:induction false} OtherPowerStep(d: Desired, a: Answers, stored: Status)
    requires !OnOrOff(d) && Plausible(a)
    ensures Reconcile(d, a, stored).stored.ready ==> stored.ready
  {
  }

  /** However the answers fall and writes are lost, and however the desired state changes
      among such states, the VM never becomes ready. */
  lemma {:induction false} OtherPowerNeverReady(ins: seq<Input>)
    requires forall k :: 0 <= k < |ins| ==> !OnOrOff(ins[k].desired) && Plausible(ins[k].answers)
    ensures !Run(ins).status.ready
  {
    if ins != [] {
      var n := |ins| - 1;
      OtherPowerNeverReady(ins[..n]);
      OtherPowerStep(ins[n].desired, ins[n].answers, Run(ins[..n]).status);
    }
  }

  lemma {:induction false} RefusedStep(d: Desired, a: Answers, stored: Status)
    requires !Creatable(d) && stored.id.None? && !stored.ready
    ensures Reconcile(d, a, stored).stored.id.None? && !Reconcile(d, a, stored).stored.ready
  {
  }

  /** A VM whose spec names neither or both of image and disk is never created. */
  lemma {:induction false} RefusedNeverCreated(ins: seq<Input>)
    requires forall k :: 0 <= k < |ins| ==> !Creatable(ins[k].desired)
    ensures Run(ins).status.id.None? && !Run(ins).status.ready && Run(ins).created == 0
  {
    if ins != [] {
      var n := |ins| - 1;
      RefusedNeverCreated(ins[..n]);
      RefusedStep(ins[n].desired, ins[n].answers, Run(ins[..n]).status);
    }
  }

  /** Favourable answers without tasks; the VM is described in the desired power state. */
  function Favourable(d: Desired): Answers {
    Answers(true, true, true, Done, Done, Some(Description(true, DesiredPower(d))),
            true, Some(Created("id", None)), Accepted(None), Accepted(None), true)
  }

  lemma {:induction false} BecomesReady(d: Desired) returns (ins: seq<Input>)
    requires OnOrOff(d) && Creatable(d)
    ensures forall k :: 0 <= k < |ins| ==> ins[k].desired == d && Plausible(ins[k].answers)
    ensures Run(ins).status.ready
  {
    var i := Input(d, Favourable(d));
    ins := [i, i];
    assert ins[..1] == [i] && [i][..0] == [];
    assert Run([i]) == Next(CREATED, i);
    assert Run([i]).status == NEW_STATUS.(id := Some("id"), current := Some(DesiredResources(d)));
  }

  /** The VM has this desired state throughout the run, and only reportable power states. */
  ghost predicate Wants(d: Desired, ins: seq<Input>) {
    forall k :: 0 <= k < |ins| ==> ins[k].desired == d && Plausible(ins[k].answers)
  }

  /** A new VM can become ready if and only if it is to be On or Off and its spec names
      exactly one of an image and an imported disk. */
  lemma {:induction false} ReadyReachableIff(d: Desired)
    ensures (exists ins :: Wants(d, ins) && Run(ins).status.ready) <==> OnOrOff(d) && Creatable(d)
  {
    if OnOrOff(d) && Creatable(d) {
      var ins := BecomesReady(d);
      assert Wants(d, ins) && Run(ins).status.ready;
    } else {
      forall ins | Wants(d, ins) ensures !Run(ins).status.ready {
        if !OnOrOff(d) {
          OtherPowerNeverReady(ins);
        } else {
          RefusedNeverCreated(ins);
        }
      }
    }
  }
}
