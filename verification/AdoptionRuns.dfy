/** The adopt loop over a store of VirtualMachine resources, and what repeated passes reach. */
module AdoptionRuns {
  import opened Common
  import opened Adoption

  /** What the API server answers while one VM is adopted: whether the lookup, the VM class,
      the creation and the separate status write succeed. */
  datatype Answer = Answer(get: bool, vmClass: bool, create: bool, status: bool)

  type Answers = nat -> Answer

  /** The adopt loop so far. */
  datatype Tally = Tally(vms: map<Key, Vm>, adopted: nat, failed: nat)

  function AdoptName(lib: Lib, vm: VmInfo): string {
    var name := Sanitize(lib.lower, vm.name);
    if name == "" then "vm-" + vm.id else name
  }

  function KeyOf(lib: Lib, p: Provider, vm: VmInfo): Key {
    Key(p.ns, AdoptName(lib, vm))
  }

  function Adopted(p: Provider, id: Option<string>): Vm {
    Vm(true, p.name, Some(p.ns), id)
  }

  /** The store after one adoption, and whether it reports success. A creation does not store
      the status: a failed status write leaves a resource without an ID. */
  function Adopt(lib: Lib, p: Provider, vms: map<Key, Vm>, vm: VmInfo, a: Answer): (map<Key, Vm>, bool) {
    var k := KeyOf(lib, p, vm);
    if !a.get then (vms, false)
    else if k in vms then
      if Unfinished(vms[k]) then
        if a.status then (vms[k := vms[k].(id := Some(vm.id))], true) else (vms, false)
      else (vms, true)
    else if !a.vmClass || !a.create then (vms, false)
    else (vms[k := Adopted(p, if a.status then Some(vm.id) else None)], a.status)
  }

  function AdoptAll(lib: Lib, p: Provider, vms: map<Key, Vm>, us: seq<VmInfo>, a: Answers): Tally {
    if us == [] then Tally(vms, 0, 0)
    else
      var n := |us| - 1;
      var t := AdoptAll(lib, p, vms, us[..n], a);
      var (vms', ok) := Adopt(lib, p, t.vms, us[n], a(n));
      if ok then Tally(vms', t.adopted + 1, t.failed) else Tally(vms', t.adopted, t.failed + 1)
  }

  /** A site: its provider, the adoption filter and what the hypervisor lists. */
  datatype Site = Site(lib: Lib, provider: Provider, filter: Option<Filter>, all: seq<VmInfo>) {
    function Discovered(vms: map<Key, Vm>): seq<VmInfo> {
      Unmanaged(lib, Managed(provider, vms), filter, all)
    }

    function Pass(vms: map<Key, Vm>, a: Answers): Tally {
      AdoptAll(lib, provider, vms, Discovered(vms), a)
    }

    function Passes(vms: map<Key, Vm>, answers: seq<Answers>): map<Key, Vm> {
      if answers == [] then vms
      else Pass(Passes(vms, answers[..|answers|-1]), answers[|answers|-1]).vms
    }
  }

  class AdoptionReconciler {
    var vms: map<Key, Vm>

    constructor (initial: map<Key, Vm>)
      ensures vms == initial
    {
      vms := initial;
    }

    method AdoptVM(lib: Lib, p: Provider, vm: VmInfo, a: Answer) returns (ok: bool)
      modifies this
      ensures (vms, ok) == Adopt(lib, p, old(vms), vm, a)
    {
      var name := SanitizeVMName(lib.lower, vm.name);
      if name == "" {
        name := "vm-" + vm.id;
      }
      var k := Key(p.ns, name);
      if !a.get {
        return false;
      }
      if k in vms {
        if vms[k].adopted {
          if vms[k].id.None? {
            if !a.status {
              return false;
            }
            vms := vms[k := vms[k].(id := Some(vm.id))];
            return true;
          }
          return true;
        }
        return true;
      }
      if !a.vmClass || !a.create {
        return false;
      }
      vms := vms[k := Adopted(p, None)];
      if !a.status {
        return false;
      }
      vms := vms[k := vms[k].(id := Some(vm.id))];
      assert vms == old(vms)[k := Adopted(p, Some(vm.id))];
      return true;
    }

    /** Discovery followed by the adopt loop; `items` lists the resources. */
    method Reconcile(site: Site, items: seq<Key>, a: Answers) returns (discovered: nat, adopted: nat, failed: nat)
      requires forall k :: k in items <==> k in vms
      modifies this
      ensures Tally(vms, adopted, failed) == site.Pass(old(vms), a)
      ensures discovered == |site.Discovered(old(vms))| == adopted + failed
    {
      var us := Discover(site.lib, site.provider, vms, items, site.filter, site.all);
      discovered := |us|;
      adopted, failed := 0, 0;
      for i := 0 to |us|
        invariant Tally(vms, adopted, failed) == AdoptAll(site.lib, site.provider, old(vms), us[..i], a)
        invariant adopted + failed == i
      {
        assert us[..i+1][..i] == us[..i];
        var ok := AdoptVM(site.lib, site.provider, us[i], a(i));
        if ok {
          adopted := adopted + 1;
        } else {
          failed := failed + 1;
        }
      }
      assert us[..|us|] == us;
    }
  }

  // ---------- What one VM's resource can be ----------

  /** An adopted resource that still lacks its ID, whichever provider it names. */
  predicate Unfinished(vm: Vm) {
    vm.adopted && vm.id.None?
  }

  /** The VM's resource is missing, or is an unfinished one of this provider. */
  predicate Open(lib: Lib, p: Provider, vms: map<Key, Vm>, u: VmInfo) {
    var k := KeyOf(lib, p, u);
    k in vms ==> Unfinished(vms[k]) && ManagedBy(p, k, vms[k])
  }

  predicate Done(lib: Lib, p: Provider, vms: map<Key, Vm>, u: VmInfo) {
    var k := KeyOf(lib, p, u);
    k in vms && vms[k].id == Some(u.id) && ManagedBy(p, k, vms[k])
  }

  predicate AllOpen(lib: Lib, p: Provider, vms: map<Key, Vm>, us: seq<VmInfo>) {
    forall u <- us :: Open(lib, p, vms, u)
  }

  predicate NamesDistinct(lib: Lib, us: seq<VmInfo>) {
    forall u, v | u in us && v in us :: AdoptName(lib, u) == AdoptName(lib, v) ==> u == v
  }

  predicate IdsDistinct(us: seq<VmInfo>) {
    forall u, v | u in us && v in us :: u.id == v.id ==> u == v
  }

  /** No VM of the list has for its ID the resource name of another. */
  predicate NoAlias(lib: Lib, us: seq<VmInfo>) {
    forall x, u | x in us && u in us :: x.id == AdoptName(lib, u) ==> x == u
  }

  /** `k` is the key of some VM in the list. */
  predicate Touched(lib: Lib, p: Provider, us: seq<VmInfo>, k: Key) {
    exists u <- us :: k == KeyOf(lib, p, u)
  }

  predicate SameAt(vms: map<Key, Vm>, vms': map<Key, Vm>, k: Key) {
    (k in vms' <==> k in vms) && (k in vms ==> vms'[k] == vms[k])
  }

  /** Each VM is either still open or done. */
  predicate Settling(lib: Lib, p: Provider, vms: map<Key, Vm>, us: seq<VmInfo>) {
    forall u <- us :: Open(lib, p, vms, u) || Done(lib, p, vms, u)
  }

  // ---------- One adoption and one loop ----------

  /** A VM whose name has nothing to keep is named by its ID, so that two of them never clash;
      no resource name is empty. */
  lemma {:induction false} NamesFromIds(lib: Lib, u: VmInfo, v: VmInfo)
    ensures AdoptName(lib, u) != ""
    ensures Sanitize(lib.lower, u.name) != "" ==> AdoptName(lib, u) == Sanitize(lib.lower, u.name)
    ensures Sanitize(lib.lower, u.name) == "" ==> AdoptName(lib, u)[..3] == "vm-" && AdoptName(lib, u)[3..] == u.id
    ensures Sanitize(lib.lower, u.name) == Sanitize(lib.lower, v.name) == "" && u.id != v.id ==> AdoptName(lib, u) != AdoptName(lib, v)
  {
    if Sanitize(lib.lower, u.name) == Sanitize(lib.lower, v.name) == "" {
      assert AdoptName(lib, u)[3..] == u.id && AdoptName(lib, v)[3..] == v.id;
    }
  }

  /** An adoption reports success exactly if the resource could be read and either needed
      nothing, or got its ID, a new one after its class and itself were created; a resource
      appears exactly if it was missing and those two succeeded. */
  lemma {:induction false} AdoptSucceedsIff(lib: Lib, p: Provider, vms: map<Key, Vm>, u: VmInfo, a: Answer)
    ensures var k := KeyOf(lib, p, u);
            var (vms', ok) := Adopt(lib, p, vms, u, a);
            && (ok <==> a.get && (if k in vms then vms[k].adopted && vms[k].id.None? ==> a.status else a.vmClass && a.create && a.status))
            && (k in vms' <==> k in vms || (a.get && a.vmClass && a.create))
  {
  }

  /** Every VM of a loop is counted once, as adopted or as failed. */
  lemma {:induction false} CountsAddUp(lib: Lib, p: Provider, vms: map<Key, Vm>, us: seq<VmInfo>, a: Answers)
    ensures var t := AdoptAll(lib, p, vms, us, a);
            t.adopted + t.failed == |us|
  {
    if us != [] {
      CountsAddUp(lib, p, vms, us[..|us|-1], a);
    }
  }

  lemma {:induction false} StepOutcome(lib: Lib, p: Provider, vms: map<Key, Vm>, u: VmInfo, a: Answer)
    ensures var (vms', ok) := Adopt(lib, p, vms, u, a);
            && (Open(lib, p, vms, u) ==> if ok then Done(lib, p, vms', u) else Open(lib, p, vms', u))
            && (forall k :: k != KeyOf(lib, p, u) ==> SameAt(vms, vms', k))
            && (forall k :: k in vms && !Unfinished(vms[k]) ==> SameAt(vms, vms', k))
  {
  }

  /** The loop leaves every other resource alone. */
  lemma {:induction false} LoopFrame(lib: Lib, p: Provider, vms: map<Key, Vm>, us: seq<VmInfo>, a: Answers, k: Key)
    requires !Touched(lib, p, us, k)
    ensures SameAt(vms, AdoptAll(lib, p, vms, us, a).vms, k)
  {
    if us != [] {
      var n := |us| - 1;
      assert forall u :: u in us[..n] ==> u in us;
      LoopFrame(lib, p, vms, us[..n], a, k);
      assert us[n] in us;
      StepOutcome(lib, p, AdoptAll(lib, p, vms, us[..n], a).vms, us[n], a(n));
    }
  }

  lemma {:induction false} StepSettles(lib: Lib, p: Provider, vms: map<Key, Vm>, u: VmInfo, a: Answer, group: seq<VmInfo>)
    requires NamesDistinct(lib, group) && Settling(lib, p, vms, group) && u in group
    ensures var (vms', ok) := Adopt(lib, p, vms, u, a);
            && Settling(lib, p, vms', group)
            && (forall v <- group :: Done(lib, p, vms, v) ==> Done(lib, p, vms', v))
            && (ok ==> Done(lib, p, vms', u))
  {
    StepOutcome(lib, p, vms, u, a);
    var vms' := Adopt(lib, p, vms, u, a).0;
    forall v <- group
      ensures Open(lib, p, vms', v) || Done(lib, p, vms', v)
      ensures Done(lib, p, vms, v) ==> Done(lib, p, vms', v)
    {
      if v != u {
        assert KeyOf(lib, p, v) != KeyOf(lib, p, u);
        assert SameAt(vms, vms', KeyOf(lib, p, v));
      }
    }
  }

  /** Whatever fails, a loop over VMs with distinct names leaves each VM open or done, and
      undoes none. */
  lemma {:induction false} LoopSettles(lib: Lib, p: Provider, vms: map<Key, Vm>, us: seq<VmInfo>, a: Answers, group: seq<VmInfo>)
    requires NamesDistinct(lib, group) && Settling(lib, p, vms, group)
    requires forall u <- us :: u in group
    ensures var t := AdoptAll(lib, p, vms, us, a);
            && Settling(lib, p, t.vms, group)
            && (forall u <- group :: Done(lib, p, vms, u) ==> Done(lib, p, t.vms, u))
  {
    if us != [] {
      var n := |us| - 1;
      assert forall u :: u in us[..n] ==> u in us;
      LoopSettles(lib, p, vms, us[..n], a, group);
      assert us[n] in us;
      StepSettles(lib, p, AdoptAll(lib, p, vms, us[..n], a).vms, us[n], a(n), group);
    }
  }

  /** Without failures it finishes each VM it is given. */
  lemma {:induction false} LoopFinishes(lib: Lib, p: Provider, vms: map<Key, Vm>, us: seq<VmInfo>, a: Answers, group: seq<VmInfo>, j: nat)
    requires NamesDistinct(lib, group) && Settling(lib, p, vms, group)
    requires (forall u <- us :: u in group) && j < |us|
    requires AdoptAll(lib, p, vms, us, a).failed == 0
    ensures Done(lib, p, AdoptAll(lib, p, vms, us, a).vms, us[j])
  {
    var n := |us| - 1;
    assert forall u :: u in us[..n] ==> u in us;
    LoopSettles(lib, p, vms, us[..n], a, group);
    assert us[n] in us && us[j] in us;
    StepSettles(lib, p, AdoptAll(lib, p, vms, us[..n], a).vms, us[n], a(n), group);
    if j < n {
      LoopFinishes(lib, p, vms, us[..n], a, group, j);
    }
  }

  /** A resource that is not unfinished is never changed. */
  lemma {:induction false} LoopHolds(lib: Lib, p: Provider, vms: map<Key, Vm>, us: seq<VmInfo>, a: Answers, k: Key)
    requires k in vms && !Unfinished(vms[k])
    ensures SameAt(vms, AdoptAll(lib, p, vms, us, a).vms, k)
  {
    if us != [] {
      var n := |us| - 1;
      LoopHolds(lib, p, vms, us[..n], a, k);
      StepOutcome(lib, p, AdoptAll(lib, p, vms, us[..n], a).vms, us[n], a(n));
    }
  }

  predicate IsFirst(lib: Lib, us: seq<VmInfo>, j: nat)
    requires j < |us|
  {
    forall i :: 0 <= i < j ==> AdoptName(lib, us[i]) != AdoptName(lib, us[j])
  }

  lemma {:induction false} FirstOf(lib: Lib, us: seq<VmInfo>, j: nat) returns (f: nat)
    requires j < |us|
    ensures f <= j && IsFirst(lib, us, f) && AdoptName(lib, us[f]) == AdoptName(lib, us[j])
  {
    f := j;
    if !IsFirst(lib, us, j) {
      var i :| 0 <= i < j && AdoptName(lib, us[i]) == AdoptName(lib, us[j]);
      f := FirstOf(lib, us, i);
    }
  }

  /** What a successful adoption leaves under a key. */
  function Recorded(p: Provider, vms: map<Key, Vm>, k: Key, u: VmInfo): Vm {
    if k !in vms then Adopted(p, Some(u.id))
    else if Unfinished(vms[k]) then vms[k].(id := Some(u.id))
    else vms[k]
  }

  lemma {:induction false} StepRecords(lib: Lib, p: Provider, vms: map<Key, Vm>, u: VmInfo, a: Answer)
    requires Adopt(lib, p, vms, u, a).1
    ensures var k := KeyOf(lib, p, u);
            k in Adopt(lib, p, vms, u, a).0 && Adopt(lib, p, vms, u, a).0[k] == Recorded(p, vms, k, u)
  {
  }

  /** A loop without failures leaves under each key what the first VM of that name makes of it. */
  lemma {:induction false} FirstRecorded(lib: Lib, p: Provider, vms: map<Key, Vm>, us: seq<VmInfo>, a: Answers, j: nat)
    requires j < |us| && IsFirst(lib, us, j)
    requires AdoptAll(lib, p, vms, us, a).failed == 0
    ensures var k, vms' := KeyOf(lib, p, us[j]), AdoptAll(lib, p, vms, us, a).vms;
            k in vms' && vms'[k] == Recorded(p, vms, k, us[j])
  {
    var n := |us| - 1;
    var init, t := us[..n], AdoptAll(lib, p, vms, us[..n], a);
    var k := KeyOf(lib, p, us[j]);
    if j == n {
      assert forall v <- init :: AdoptName(lib, v) != AdoptName(lib, us[n]);
      LoopFrame(lib, p, vms, init, a, k);
      StepRecords(lib, p, t.vms, us[n], a(n));
    } else {
      FirstRecorded(lib, p, vms, init, a, j);
      StepOutcome(lib, p, t.vms, us[n], a(n));
      assert SameAt(t.vms, Adopt(lib, p, t.vms, us[n], a(n)).0, k);
    }
  }

  lemma {:induction false} DoneIsManaged(lib: Lib, p: Provider, vms: map<Key, Vm>, u: VmInfo)
    requires Done(lib, p, vms, u)
    ensures u.id in Managed(p, vms)
  {
    var k := KeyOf(lib, p, u);
    assert k in vms && ManagedBy(p, k, vms[k]) && ManagedId(k, vms[k]) == u.id;
  }
}
