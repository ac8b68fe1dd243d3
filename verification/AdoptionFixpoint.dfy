/** What passes of discovery and adoption reach, and exactly when: one pass, and any number
    of passes with failures before it. */
module AdoptionFixpoint {
  import opened Common
  import opened Adoption
  import opened AdoptionRuns

  // ---------- One pass ----------

  /** The resources that adopting these VMs cannot change. */
  function Kept(lib: Lib, p: Provider, vms: map<Key, Vm>, us: seq<VmInfo>): map<Key, Vm> {
    map k | k in vms && !(Unfinished(vms[k]) && Touched(lib, p, us, k)) :: vms[k]
  }

  /** The VM is the first of its name in the list, and its resource can be given its ID. */
  predicate Winner(lib: Lib, p: Provider, vms: map<Key, Vm>, us: seq<VmInfo>, j: nat) {
    j < |us| && IsFirst(lib, us, j) && Open(lib, p, vms, us[j])
  }

  predicate Wins(lib: Lib, p: Provider, vms: map<Key, Vm>, us: seq<VmInfo>, id: string) {
    exists j: nat | j < |us| :: Winner(lib, p, vms, us, j) && us[j].id == id
  }

  lemma {:induction false} KeptStaysManaged(lib: Lib, p: Provider, vms: map<Key, Vm>, us: seq<VmInfo>, a: Answers, id: string)
    requires id in Managed(p, Kept(lib, p, vms, us))
    ensures id in Managed(p, AdoptAll(lib, p, vms, us, a).vms) && id in Managed(p, vms)
  {
    var kept, vms' := Kept(lib, p, vms, us), AdoptAll(lib, p, vms, us, a).vms;
    var k :| k in kept && ManagedBy(p, k, kept[k]) && ManagedId(k, kept[k]) == id;
    if Unfinished(vms[k]) {
      LoopFrame(lib, p, vms, us, a, k);
    } else {
      LoopHolds(lib, p, vms, us, a, k);
    }
    assert k in vms' && ManagedBy(p, k, vms'[k]) && ManagedId(k, vms'[k]) == id;
    assert k in vms && ManagedBy(p, k, vms[k]) && ManagedId(k, vms[k]) == id;
  }

  lemma {:induction false} ManagedComesFrom(lib: Lib, p: Provider, vms: map<Key, Vm>, us: seq<VmInfo>, a: Answers, id: string)
    requires AdoptAll(lib, p, vms, us, a).failed == 0
    requires id in Managed(p, AdoptAll(lib, p, vms, us, a).vms)
    ensures id in Managed(p, Kept(lib, p, vms, us)) || Wins(lib, p, vms, us, id)
  {
    var kept, vms' := Kept(lib, p, vms, us), AdoptAll(lib, p, vms, us, a).vms;
    var k :| k in vms' && ManagedBy(p, k, vms'[k]) && ManagedId(k, vms'[k]) == id;
    if Touched(lib, p, us, k) {
      var u :| u in us && k == KeyOf(lib, p, u);
      var i :| 0 <= i < |us| && us[i] == u;
      var j := FirstOf(lib, us, i);
      FirstRecorded(lib, p, vms, us, a, j);
      if Open(lib, p, vms, us[j]) {
        assert Winner(lib, p, vms, us, j) && us[j].id == id;
      } else {
        assert k in kept && ManagedBy(p, k, kept[k]) && ManagedId(k, kept[k]) == id;
      }
    } else {
      LoopFrame(lib, p, vms, us, a, k);
      assert SameAt(vms, vms', k);
      assert k in kept && ManagedBy(p, k, kept[k]) && ManagedId(k, kept[k]) == id;
    }
  }

  /** The IDs managed after a loop without failures: those of resources it cannot change, and
      those of the VMs that are first of their name with an open resource. */
  lemma {:induction false} ManagedAfter(lib: Lib, p: Provider, vms: map<Key, Vm>, us: seq<VmInfo>, a: Answers, id: string)
    requires AdoptAll(lib, p, vms, us, a).failed == 0
    ensures id in Managed(p, AdoptAll(lib, p, vms, us, a).vms)
            <==> id in Managed(p, Kept(lib, p, vms, us)) || Wins(lib, p, vms, us, id)
  {
    if id in Managed(p, Kept(lib, p, vms, us)) {
      KeptStaysManaged(lib, p, vms, us, a, id);
    } else if Wins(lib, p, vms, us, id) {
      var j: nat :| j < |us| && Winner(lib, p, vms, us, j) && us[j].id == id;
      FirstRecorded(lib, p, vms, us, a, j);
      DoneIsManaged(lib, p, AdoptAll(lib, p, vms, us, a).vms, us[j]);
    } else if id in Managed(p, AdoptAll(lib, p, vms, us, a).vms) {
      ManagedComesFrom(lib, p, vms, us, a, id);
    }
  }

  /** No listed VM counts as managed only through the name of an unfinished resource that
      the pass is about to give another ID. */
  predicate NoneReleased(site: Site, vms: map<Key, Vm>) {
    forall x <- site.all ::
      Passes(site.lib, site.filter, x) && x.id in Managed(site.provider, vms) ==>
        x.id in Managed(site.provider, Kept(site.lib, site.provider, vms, site.Discovered(vms)))
  }

  lemma {:induction false} DistinctWin(lib: Lib, p: Provider, vms: map<Key, Vm>, us: seq<VmInfo>, u: VmInfo)
    requires NamesDistinct(lib, us) && AllOpen(lib, p, vms, us) && u in us
    ensures Wins(lib, p, vms, us, u.id)
  {
    var i :| 0 <= i < |us| && us[i] == u;
    var j := FirstOf(lib, us, i);
    assert us[j] in us && us[j] == u;
    assert Winner(lib, p, vms, us, j);
  }

  lemma {:induction false} OnePassSuffices(site: Site, vms: map<Key, Vm>, a: Answers)
    requires NamesDistinct(site.lib, site.Discovered(vms))
    requires AllOpen(site.lib, site.provider, vms, site.Discovered(vms))
    requires NoneReleased(site, vms)
    requires site.Pass(vms, a).failed == 0
    ensures site.Discovered(site.Pass(vms, a).vms) == []
  {
    var us, t := site.Discovered(vms), site.Pass(vms, a);
    UnmanagedMembers(site.lib, Managed(site.provider, vms), site.filter, site.all);
    forall x <- site.all | Passes(site.lib, site.filter, x)
      ensures x.id in Managed(site.provider, t.vms)
    {
      ManagedAfter(site.lib, site.provider, vms, us, a, x.id);
      if x in us {
        DistinctWin(site.lib, site.provider, vms, us, x);
      }
    }
    NothingSelected(site.lib, Managed(site.provider, t.vms), site.filter, site.all);
  }

  /** A pass without failures over VMs with distinct resource names that no resource has yet
      leaves nothing to discover. */
  lemma {:induction false} UnusedNamesSuffice(site: Site, vms: map<Key, Vm>, a: Answers)
    requires NamesDistinct(site.lib, site.Discovered(vms))
    requires forall u <- site.Discovered(vms) :: KeyOf(site.lib, site.provider, u) !in vms
    requires site.Pass(vms, a).failed == 0
    ensures site.Discovered(site.Pass(vms, a).vms) == []
  {
    assert Kept(site.lib, site.provider, vms, site.Discovered(vms)) == vms;
    OnePassSuffices(site, vms, a);
  }

  lemma {:induction false} NothingLeft(site: Site, vms: map<Key, Vm>, x: VmInfo)
    requires site.Discovered(vms) == [] && x in site.all && Passes(site.lib, site.filter, x)
    ensures x.id in Managed(site.provider, vms)
  {
    UnmanagedMembers(site.lib, Managed(site.provider, vms), site.filter, site.all);
    assert x !in site.Discovered(vms);
  }

  /** A VM that was not managed before and is managed after is a winner. */
  lemma {:induction false} NewlyManaged(site: Site, vms: map<Key, Vm>, a: Answers, x: VmInfo) returns (j: nat)
    requires site.Pass(vms, a).failed == 0 && site.Discovered(site.Pass(vms, a).vms) == []
    requires x in site.Discovered(vms) && IdsDistinct(site.Discovered(vms))
    ensures Winner(site.lib, site.provider, vms, site.Discovered(vms), j) && site.Discovered(vms)[j] == x
  {
    var us := site.Discovered(vms);
    UnmanagedMembers(site.lib, Managed(site.provider, vms), site.filter, site.all);
    NothingLeft(site, site.Pass(vms, a).vms, x);
    ManagedAfter(site.lib, site.provider, vms, us, a, x.id);
    if x.id in Managed(site.provider, Kept(site.lib, site.provider, vms, us)) {
      KeptStaysManaged(site.lib, site.provider, vms, us, a, x.id);
    }
    j :| j < |us| && Winner(site.lib, site.provider, vms, us, j) && us[j].id == x.id;
    assert us[j] in us;
  }

  lemma {:induction false} OnePassNeeds(site: Site, vms: map<Key, Vm>, a: Answers)
    requires IdsDistinct(site.Discovered(vms))
    requires site.Pass(vms, a).failed == 0 && site.Discovered(site.Pass(vms, a).vms) == []
    ensures NamesDistinct(site.lib, site.Discovered(vms))
    ensures AllOpen(site.lib, site.provider, vms, site.Discovered(vms))
    ensures NoneReleased(site, vms)
  {
    var us := site.Discovered(vms);
    forall u, v | u in us && v in us && AdoptName(site.lib, u) == AdoptName(site.lib, v) ensures u == v {
      var i := NewlyManaged(site, vms, a, u);
      var j := NewlyManaged(site, vms, a, v);
      assert i == j;
    }
    forall u <- us ensures Open(site.lib, site.provider, vms, u) {
      var j := NewlyManaged(site, vms, a, u);
    }
    UnmanagedMembers(site.lib, Managed(site.provider, vms), site.filter, site.all);
    forall x <- site.all | Passes(site.lib, site.filter, x) && x.id in Managed(site.provider, vms)
      ensures x.id in Managed(site.provider, Kept(site.lib, site.provider, vms, us))
    {
      NothingLeft(site, site.Pass(vms, a).vms, x);
      ManagedAfter(site.lib, site.provider, vms, us, a, x.id);
      assert forall j :: 0 <= j < |us| ==> us[j] in us;
    }
  }

  /** One pass without failures leaves nothing to discover exactly when no two discovered VMs
      have the same resource name, no name is held by another resource, and no VM was hidden
      behind the name of an unfinished resource. */
  lemma {:induction false} OnePassSufficesIff(site: Site, vms: map<Key, Vm>, a: Answers)
    requires IdsDistinct(site.Discovered(vms))
    requires site.Pass(vms, a).failed == 0
    ensures site.Discovered(site.Pass(vms, a).vms) == []
            <==> NamesDistinct(site.lib, site.Discovered(vms))
                 && AllOpen(site.lib, site.provider, vms, site.Discovered(vms))
                 && NoneReleased(site, vms)
  {
    if site.Discovered(site.Pass(vms, a).vms) == [] {
      OnePassNeeds(site, vms, a);
    } else if NamesDistinct(site.lib, site.Discovered(vms)) && AllOpen(site.lib, site.provider, vms, site.Discovered(vms))
              && NoneReleased(site, vms) {
      OnePassSuffices(site, vms, a);
    }
  }

  // ---------- Any number of passes ----------

  /** The ID is managed through a resource that belongs to none of these VMs. */
  predicate ManagedOutside(lib: Lib, p: Provider, vms: map<Key, Vm>, group: seq<VmInfo>, id: string) {
    exists k :: k in vms && !Touched(lib, p, group, k) && ManagedBy(p, k, vms[k]) && ManagedId(k, vms[k]) == id
  }

  /** Each VM the site lists is filtered out, managed outside the group, or in it, and each
      VM of the group is open or done. */
  predicate Covered(site: Site, vms: map<Key, Vm>, group: seq<VmInfo>) {
    && NamesDistinct(site.lib, group) && NoAlias(site.lib, group)
    && Settling(site.lib, site.provider, vms, group)
    && forall x <- site.all :: Passes(site.lib, site.filter, x) ==> x in group || ManagedOutside(site.lib, site.provider, vms, group, x.id)
  }

  lemma {:induction false} OutsideIsManaged(lib: Lib, p: Provider, vms: map<Key, Vm>, group: seq<VmInfo>, id: string)
    requires ManagedOutside(lib, p, vms, group, id)
    ensures id in Managed(p, vms)
  {
    var k :| k in vms && !Touched(lib, p, group, k) && ManagedBy(p, k, vms[k]) && ManagedId(k, vms[k]) == id;
    assert ManagedId(k, vms[k]) in Managed(p, vms);
  }

  lemma {:induction false} OutsideStays(lib: Lib, p: Provider, vms: map<Key, Vm>, us: seq<VmInfo>, a: Answers, group: seq<VmInfo>, id: string)
    requires forall u <- us :: u in group
    requires ManagedOutside(lib, p, vms, group, id)
    ensures ManagedOutside(lib, p, AdoptAll(lib, p, vms, us, a).vms, group, id)
  {
    var vms' := AdoptAll(lib, p, vms, us, a).vms;
    var k :| k in vms && !Touched(lib, p, group, k) && ManagedBy(p, k, vms[k]) && ManagedId(k, vms[k]) == id;
    LoopFrame(lib, p, vms, us, a, k);
    assert k in vms' && ManagedBy(p, k, vms'[k]) && ManagedId(k, vms'[k]) == id;
  }

  /** A VM of the group that was managed before the loop, and is not in it, stays managed. */
  lemma {:induction false} StaysManaged(lib: Lib, p: Provider, vms: map<Key, Vm>, us: seq<VmInfo>, a: Answers, group: seq<VmInfo>, x: VmInfo)
    requires NamesDistinct(lib, group) && NoAlias(lib, group) && Settling(lib, p, vms, group)
    requires forall u <- us :: u in group
    requires x in group && x !in us && x.id in Managed(p, vms)
    ensures x.id in Managed(p, AdoptAll(lib, p, vms, us, a).vms)
  {
    var t := AdoptAll(lib, p, vms, us, a);
    var k :| k in vms && ManagedBy(p, k, vms[k]) && ManagedId(k, vms[k]) == x.id;
    if Touched(lib, p, us, k) {
      var u :| u in us && k == KeyOf(lib, p, u);
      LoopSettles(lib, p, vms, us, a, group);
      assert Done(lib, p, vms, u);
      assert Done(lib, p, t.vms, u);
    } else {
      LoopFrame(lib, p, vms, us, a, k);
      assert SameAt(vms, t.vms, k);
    }
    assert k in t.vms && ManagedBy(p, k, t.vms[k]) && ManagedId(k, t.vms[k]) == x.id;
  }

  lemma {:induction false} DiscoveredInGroup(site: Site, vms: map<Key, Vm>, group: seq<VmInfo>)
    requires Covered(site, vms, group)
    ensures forall u <- site.Discovered(vms) :: u in group
  {
    UnmanagedMembers(site.lib, Managed(site.provider, vms), site.filter, site.all);
    forall u <- site.Discovered(vms) ensures u in group {
      if ManagedOutside(site.lib, site.provider, vms, group, u.id) {
        OutsideIsManaged(site.lib, site.provider, vms, group, u.id);
      }
    }
  }

  lemma {:induction false} PassCovers(site: Site, vms: map<Key, Vm>, a: Answers, group: seq<VmInfo>)
    requires Covered(site, vms, group)
    ensures Covered(site, site.Pass(vms, a).vms, group)
  {
    DiscoveredInGroup(site, vms, group);
    LoopSettles(site.lib, site.provider, vms, site.Discovered(vms), a, group);
    forall x <- site.all | Passes(site.lib, site.filter, x) && x !in group
      ensures ManagedOutside(site.lib, site.provider, site.Pass(vms, a).vms, group, x.id)
    {
      OutsideStays(site.lib, site.provider, vms, site.Discovered(vms), a, group, x.id);
    }
  }

  lemma {:induction false} GoodPassFinishes(site: Site, vms: map<Key, Vm>, a: Answers, group: seq<VmInfo>)
    requires Covered(site, vms, group) && site.Pass(vms, a).failed == 0
    ensures site.Discovered(site.Pass(vms, a).vms) == []
  {
    var us, t := site.Discovered(vms), site.Pass(vms, a);
    DiscoveredInGroup(site, vms, group);
    UnmanagedMembers(site.lib, Managed(site.provider, vms), site.filter, site.all);
    forall x <- site.all | Passes(site.lib, site.filter, x)
      ensures x.id in Managed(site.provider, t.vms)
    {
      if x in us {
        var j :| 0 <= j < |us| && us[j] == x;
        LoopFinishes(site.lib, site.provider, vms, us, a, group, j);
        DoneIsManaged(site.lib, site.provider, t.vms, x);
      } else if x in group {
        StaysManaged(site.lib, site.provider, vms, us, a, group, x);
      } else {
        OutsideStays(site.lib, site.provider, vms, us, a, group, x.id);
        OutsideIsManaged(site.lib, site.provider, t.vms, group, x.id);
      }
    }
    NothingSelected(site.lib, Managed(site.provider, t.vms), site.filter, site.all);
  }

  lemma {:induction false} PassesCover(site: Site, vms: map<Key, Vm>, answers: seq<Answers>, group: seq<VmInfo>)
    requires Covered(site, vms, group)
    ensures Covered(site, site.Passes(vms, answers), group)
  {
    if answers != [] {
      var n := |answers| - 1;
      PassesCover(site, vms, answers[..n], group);
      PassCovers(site, site.Passes(vms, answers[..n]), answers[n], group);
    }
  }

  lemma {:induction false} StartCovered(site: Site, vms: map<Key, Vm>)
    requires NamesDistinct(site.lib, site.Discovered(vms)) && NoAlias(site.lib, site.Discovered(vms))
    requires AllOpen(site.lib, site.provider, vms, site.Discovered(vms)) && NoneReleased(site, vms)
    ensures Covered(site, vms, site.Discovered(vms))
  {
    var lib, p, us := site.lib, site.provider, site.Discovered(vms);
    UnmanagedMembers(lib, Managed(p, vms), site.filter, site.all);
    forall x <- site.all | Passes(lib, site.filter, x) && x !in us
      ensures ManagedOutside(lib, p, vms, us, x.id)
    {
      var kept := Kept(lib, p, vms, us);
      var k :| k in kept && ManagedBy(p, k, kept[k]) && ManagedId(k, kept[k]) == x.id;
      assert k in vms && !Touched(lib, p, us, k) && ManagedBy(p, k, vms[k]) && ManagedId(k, vms[k]) == x.id;
    }
  }

  /** After any number of passes with any failures, one pass without failures leaves nothing
      to discover. */
  lemma {:induction false} AdoptionConverges(site: Site, vms: map<Key, Vm>, answers: seq<Answers>, a: Answers)
    requires NamesDistinct(site.lib, site.Discovered(vms)) && NoAlias(site.lib, site.Discovered(vms))
    requires AllOpen(site.lib, site.provider, vms, site.Discovered(vms)) && NoneReleased(site, vms)
    requires site.Pass(site.Passes(vms, answers), a).failed == 0
    ensures site.Discovered(site.Pass(site.Passes(vms, answers), a).vms) == []
  {
    var group := site.Discovered(vms);
    StartCovered(site, vms);
    PassesCover(site, vms, answers, group);
    GoodPassFinishes(site, site.Passes(vms, answers), a, group);
  }

  /** Answers under which every adoption succeeds. */
  function Good(n: nat): Answer {
    Answer(true, true, true, true)
  }

  lemma {:induction false} GoodNeverFails(lib: Lib, p: Provider, vms: map<Key, Vm>, us: seq<VmInfo>)
    ensures AdoptAll(lib, p, vms, us, Good).failed == 0
  {
    if us != [] {
      GoodNeverFails(lib, p, vms, us[..|us|-1]);
    }
  }

  /** Only this VM gets as far as a resource, and its status write fails. */
  function Interrupted(us: seq<VmInfo>, u: VmInfo): Answers {
    (n: nat) => Answer(n < |us| && us[n] == u, true, true, false)
  }

  lemma {:induction false} LeftUnfinished(lib: Lib, p: Provider, vms: map<Key, Vm>, us: seq<VmInfo>, n: nat, u: VmInfo)
    requires n <= |us| && KeyOf(lib, p, u) !in vms
    ensures AdoptAll(lib, p, vms, us[..n], Interrupted(us, u)).vms
         == if u in us[..n] then vms[KeyOf(lib, p, u) := Adopted(p, None)] else vms
  {
    if n > 0 {
      LeftUnfinished(lib, p, vms, us, n - 1, u);
      assert us[..n][..n-1] == us[..n-1] && us[..n] == us[..n-1] + [us[n-1]];
    }
  }

  lemma {:induction false} InterruptedPass(site: Site, vms: map<Key, Vm>, u: VmInfo)
    requires u in site.Discovered(vms) && KeyOf(site.lib, site.provider, u) !in vms
    ensures site.Passes(vms, [Interrupted(site.Discovered(vms), u)])
         == vms[KeyOf(site.lib, site.provider, u) := Adopted(site.provider, None)]
  {
    var us := site.Discovered(vms);
    var answers := [Interrupted(us, u)];
    assert answers[..0] == [] && site.Passes(vms, []) == vms;
    LeftUnfinished(site.lib, site.provider, vms, us, |us|, u);
    assert us[..|us|] == us;
  }

  /** What is managed while the new resource of `u` has no ID, and once it is given one. */
  lemma {:induction false} ManagedByName(lib: Lib, p: Provider, vms: map<Key, Vm>, u: VmInfo, us: seq<VmInfo>)
    requires KeyOf(lib, p, u) !in vms
    ensures var vms1 := vms[KeyOf(lib, p, u) := Adopted(p, None)];
            && Managed(p, vms1) == Managed(p, vms) + {AdoptName(lib, u)}
            && (u in us ==> Managed(p, Kept(lib, p, vms1, us)) <= Managed(p, vms))
  {
    var k := KeyOf(lib, p, u);
    var vms1 := vms[k := Adopted(p, None)];
    assert ManagedBy(p, k, vms1[k]) && ManagedId(k, vms1[k]) == AdoptName(lib, u);
    assert forall j :: j in vms ==> j in vms1 && vms1[j] == vms[j];
  }

  /** While `u` is unfinished its name hides the VM `x`, and finishing `u` shows it again. */
  lemma {:induction false} HiddenThenShown(site: Site, vms: map<Key, Vm>, u: VmInfo, x: VmInfo)
    requires u in site.Discovered(vms) && x in site.Discovered(vms) && IdsDistinct(site.Discovered(vms))
    requires u != x && x.id == AdoptName(site.lib, u) && KeyOf(site.lib, site.provider, u) !in vms
    ensures var vms1 := vms[KeyOf(site.lib, site.provider, u) := Adopted(site.provider, None)];
            x in site.Discovered(site.Pass(vms1, Good).vms)
  {
    var lib, p := site.lib, site.provider;
    var vms1 := vms[KeyOf(lib, p, u) := Adopted(p, None)];
    var us := site.Discovered(vms1);
    UnmanagedMembers(lib, Managed(p, vms), site.filter, site.all);
    UnmanagedMembers(lib, Managed(p, vms1), site.filter, site.all);
    ManagedByName(lib, p, vms, u, us);
    GoodNeverFails(lib, p, vms1, us);
    ManagedAfter(lib, p, vms1, us, Good, x.id);
    assert forall j :: 0 <= j < |us| ==> us[j] in us;
    UnmanagedMembers(lib, Managed(p, site.Pass(vms1, Good).vms), site.filter, site.all);
  }

  lemma {:induction false} NoAliasNeeded(site: Site, vms: map<Key, Vm>)
    requires IdsDistinct(site.Discovered(vms)) && AllOpen(site.lib, site.provider, vms, site.Discovered(vms))
    requires !NoAlias(site.lib, site.Discovered(vms))
    ensures exists answers :: site.Pass(site.Passes(vms, answers), Good).failed == 0
                           && site.Discovered(site.Pass(site.Passes(vms, answers), Good).vms) != []
  {
    var lib, p, us := site.lib, site.provider, site.Discovered(vms);
    var x, u :| x in us && u in us && x.id == AdoptName(lib, u) && x != u;
    var k := KeyOf(lib, p, u);
    UnmanagedMembers(lib, Managed(p, vms), site.filter, site.all);
    assert k !in vms || ManagedId(k, vms[k]) in Managed(p, vms);
    var answers := [Interrupted(us, u)];
    InterruptedPass(site, vms, u);
    HiddenThenShown(site, vms, u, x);
    GoodNeverFails(lib, p, site.Passes(vms, answers), site.Discovered(site.Passes(vms, answers)));
  }

  /** However the passes before it went, a pass without failures leaves nothing to discover. */
  ghost predicate AlwaysConverges(site: Site, vms: map<Key, Vm>) {
    forall answers, a :: site.Pass(site.Passes(vms, answers), a).failed == 0 ==>
                           site.Discovered(site.Pass(site.Passes(vms, answers), a).vms) == []
  }

  /** Exactly when that holds. */
  lemma {:induction false} AdoptionConvergesIff(site: Site, vms: map<Key, Vm>)
    requires IdsDistinct(site.Discovered(vms))
    ensures AlwaysConverges(site, vms)
            <==> NamesDistinct(site.lib, site.Discovered(vms)) && NoAlias(site.lib, site.Discovered(vms))
                 && AllOpen(site.lib, site.provider, vms, site.Discovered(vms)) && NoneReleased(site, vms)
  {
    var us := site.Discovered(vms);
    if AlwaysConverges(site, vms) {
      assert site.Passes(vms, []) == vms;
      GoodNeverFails(site.lib, site.provider, vms, us);
      OnePassNeeds(site, vms, Good);
      if !NoAlias(site.lib, us) {
        NoAliasNeeded(site, vms);
      }
    } else if NamesDistinct(site.lib, us) && NoAlias(site.lib, us)
              && AllOpen(site.lib, site.provider, vms, us) && NoneReleased(site, vms) {
      var answers, a :| site.Pass(site.Passes(vms, answers), a).failed == 0
                     && site.Discovered(site.Pass(site.Passes(vms, answers), a).vms) != [];
      AdoptionConverges(site, vms, answers, a);
    }
  }

  // ---------- Names that are taken ----------

  /** The VM's name is held by a resource that adoption cannot change. */
  predicate Held(lib: Lib, p: Provider, vms: map<Key, Vm>, u: VmInfo) {
    KeyOf(lib, p, u) in vms && !Unfinished(vms[KeyOf(lib, p, u)])
  }

  /** No other VM has this VM's ID. */
  predicate OwnId(all: seq<VmInfo>, u: VmInfo) {
    forall x <- all :: x.id == u.id ==> x == u
  }

  /** Adopting this VM makes no new resource whose name is the ID. */
  predicate CannotHide(lib: Lib, p: Provider, vms: map<Key, Vm>, v: VmInfo, id: string) {
    AdoptName(lib, v) == id ==> KeyOf(lib, p, v) in vms
  }

  lemma {:induction false} StepKeepsUnmanaged(lib: Lib, p: Provider, vms: map<Key, Vm>, u: VmInfo, v: VmInfo, a: Answer)
    requires Held(lib, p, vms, u) && u.id !in Managed(p, vms)
    requires (v.id == u.id ==> v == u) && CannotHide(lib, p, vms, v, u.id)
    ensures u.id !in Managed(p, Adopt(lib, p, vms, v, a).0)
  {
    var vms' := Adopt(lib, p, vms, v, a).0;
    StepOutcome(lib, p, vms, v, a);
    forall k | k in vms' && ManagedBy(p, k, vms'[k]) ensures ManagedId(k, vms'[k]) != u.id {
      if k != KeyOf(lib, p, v) {
        assert SameAt(vms, vms', k);
      }
      if k in vms && vms'[k] == vms[k] {
        assert ManagedId(k, vms[k]) in Managed(p, vms);
      }
    }
  }

  lemma {:induction false} LoopKeepsUnmanaged(lib: Lib, p: Provider, vms: map<Key, Vm>, us: seq<VmInfo>, a: Answers, u: VmInfo)
    requires Held(lib, p, vms, u) && u.id !in Managed(p, vms)
    requires OwnId(us, u) && forall v <- us :: CannotHide(lib, p, vms, v, u.id)
    ensures var vms' := AdoptAll(lib, p, vms, us, a).vms;
            Held(lib, p, vms', u) && u.id !in Managed(p, vms') && vms.Keys <= vms'.Keys
  {
    if us != [] {
      var n := |us| - 1;
      assert forall v :: v in us[..n] ==> v in us;
      LoopKeepsUnmanaged(lib, p, vms, us[..n], a, u);
      assert us[n] in us;
      StepKeepsUnmanaged(lib, p, AdoptAll(lib, p, vms, us[..n], a).vms, u, us[n], a(n));
      StepOutcome(lib, p, AdoptAll(lib, p, vms, us[..n], a).vms, us[n], a(n));
      assert SameAt(AdoptAll(lib, p, vms, us[..n], a).vms, AdoptAll(lib, p, vms, us, a).vms, KeyOf(lib, p, u));
    }
  }

  /** Everything discovered is in the group. */
  predicate Within(site: Site, vms: map<Key, Vm>, group: seq<VmInfo>) {
    forall v <- site.Discovered(vms) :: v in group
  }

  lemma {:induction false} PassesKeepUnmanaged(site: Site, vms: map<Key, Vm>, answers: seq<Answers>, group: seq<VmInfo>, u: VmInfo)
    requires Held(site.lib, site.provider, vms, u) && u.id !in Managed(site.provider, vms) && OwnId(site.all, u)
    requires forall v <- group :: CannotHide(site.lib, site.provider, vms, v, u.id)
    requires forall m :: 0 <= m <= |answers| ==> Within(site, site.Passes(vms, answers[..m]), group)
    ensures var vms' := site.Passes(vms, answers);
            Held(site.lib, site.provider, vms', u) && u.id !in Managed(site.provider, vms') && vms.Keys <= vms'.Keys
  {
    if answers != [] {
      var n := |answers| - 1;
      assert forall m :: 0 <= m <= n ==> answers[..n][..m] == answers[..m];
      PassesKeepUnmanaged(site, vms, answers[..n], group, u);
      var vms' := site.Passes(vms, answers[..n]);
      UnmanagedMembers(site.lib, Managed(site.provider, vms'), site.filter, site.all);
      assert Within(site, vms', group);
      LoopKeepsUnmanaged(site.lib, site.provider, vms', site.Discovered(vms'), answers[n], u);
    }
  }

  /** The listed VMs that pass the filter, managed or not. */
  function Candidates(site: Site): seq<VmInfo> {
    Unmanaged(site.lib, {}, site.filter, site.all)
  }

  /** A discovered VM whose name is held is discovered again after any number of passes with
      any answers, if no listed VM can make a resource whose name is its ID. */
  lemma {:induction false} TakenNameForever(site: Site, vms: map<Key, Vm>, answers: seq<Answers>, u: VmInfo)
    requires u in site.Discovered(vms) && Held(site.lib, site.provider, vms, u) && OwnId(site.all, u)
    requires forall v <- Candidates(site) :: CannotHide(site.lib, site.provider, vms, v, u.id)
    ensures u in site.Discovered(site.Passes(vms, answers))
  {
    UnmanagedMembers(site.lib, Managed(site.provider, vms), site.filter, site.all);
    UnmanagedMembers(site.lib, {}, site.filter, site.all);
    forall m | 0 <= m <= |answers| ensures Within(site, site.Passes(vms, answers[..m]), Candidates(site)) {
      UnmanagedMembers(site.lib, Managed(site.provider, site.Passes(vms, answers[..m])), site.filter, site.all);
    }
    PassesKeepUnmanaged(site, vms, answers, Candidates(site), u);
    UnmanagedMembers(site.lib, Managed(site.provider, site.Passes(vms, answers)), site.filter, site.all);
  }

  /** If a discovered VM can make one, a pass in which only its status write fails hides it. */
  lemma {:induction false} TakenNameHidden(site: Site, vms: map<Key, Vm>, u: VmInfo, v: VmInfo)
    requires v in site.Discovered(vms) && !CannotHide(site.lib, site.provider, vms, v, u.id)
    ensures u !in site.Discovered(site.Passes(vms, [Interrupted(site.Discovered(vms), v)]))
  {
    var lib, p, us := site.lib, site.provider, site.Discovered(vms);
    var answers := [Interrupted(us, v)];
    InterruptedPass(site, vms, v);
    ManagedByName(lib, p, vms, v, us);
    assert u.id in Managed(p, site.Passes(vms, answers));
    UnmanagedMembers(lib, Managed(p, site.Passes(vms, answers)), site.filter, site.all);
  }

  /** What adoption cannot change stays through all passes, so that they discover nothing new. */
  lemma {:induction false} PassesDiscoverNothingNew(site: Site, vms: map<Key, Vm>, answers: seq<Answers>)
    requires NoneReleased(site, vms)
    ensures var vms' := site.Passes(vms, answers);
            && (forall k <- Kept(site.lib, site.provider, vms, site.Discovered(vms)).Keys :: SameAt(vms, vms', k))
            && (forall x <- site.Discovered(vms') :: x in site.Discovered(vms))
  {
    var lib, p, us, vms' := site.lib, site.provider, site.Discovered(vms), site.Passes(vms, answers);
    var kept := Kept(lib, p, vms, us);
    if answers != [] {
      var n := |answers| - 1;
      PassesDiscoverNothingNew(site, vms, answers[..n]);
      var before := site.Passes(vms, answers[..n]);
      forall k <- kept.Keys ensures SameAt(vms, vms', k) {
        assert SameAt(vms, before, k);
        if Unfinished(vms[k]) {
          LoopFrame(lib, p, before, site.Discovered(before), answers[n], k);
        } else {
          LoopHolds(lib, p, before, site.Discovered(before), answers[n], k);
        }
      }
    }
    UnmanagedMembers(lib, Managed(p, vms), site.filter, site.all);
    UnmanagedMembers(lib, Managed(p, vms'), site.filter, site.all);
  }

  /** One that a pass cannot hide stays discovered through passes that discover no others. */
  lemma {:induction false} TakenNameAmong(site: Site, vms: map<Key, Vm>, answers: seq<Answers>, u: VmInfo)
    requires NoneReleased(site, vms) && u in site.Discovered(vms)
    requires Held(site.lib, site.provider, vms, u) && OwnId(site.all, u)
    requires forall v <- site.Discovered(vms) :: CannotHide(site.lib, site.provider, vms, v, u.id)
    ensures u in site.Discovered(site.Passes(vms, answers))
  {
    UnmanagedMembers(site.lib, Managed(site.provider, vms), site.filter, site.all);
    forall m | 0 <= m <= |answers| ensures Within(site, site.Passes(vms, answers[..m]), site.Discovered(vms)) {
      PassesDiscoverNothingNew(site, vms, answers[..m]);
    }
    PassesKeepUnmanaged(site, vms, answers, site.Discovered(vms), u);
    UnmanagedMembers(site.lib, Managed(site.provider, site.Passes(vms, answers)), site.filter, site.all);
  }

  /** Where no listed VM is hidden behind a resource without an ID: a discovered VM whose name
      is held is discovered for ever, whatever is answered, exactly when no discovered VM is
      to have its ID for a new name. */
  lemma {:induction false} TakenNameForeverIff(site: Site, vms: map<Key, Vm>, u: VmInfo)
    requires NoneReleased(site, vms) && u in site.Discovered(vms)
    requires Held(site.lib, site.provider, vms, u) && OwnId(site.all, u)
    ensures (forall answers :: u in site.Discovered(site.Passes(vms, answers)))
            <==> forall v <- site.Discovered(vms) :: CannotHide(site.lib, site.provider, vms, v, u.id)
  {
    if forall v <- site.Discovered(vms) :: CannotHide(site.lib, site.provider, vms, v, u.id) {
      forall answers ensures u in site.Discovered(site.Passes(vms, answers)) {
        TakenNameAmong(site, vms, answers, u);
      }
    } else {
      var v :| v in site.Discovered(vms) && !CannotHide(site.lib, site.provider, vms, v, u.id);
      TakenNameHidden(site, vms, u, v);
    }
  }

  /** In every loop such a VM is counted as adopted if its resource can be read, and nothing
      is changed. */
  lemma {:induction false} TakenNameCounts(lib: Lib, p: Provider, vms: map<Key, Vm>, us: seq<VmInfo>, a: Answers, j: nat)
    requires j < |us| && Held(lib, p, vms, us[j])
    ensures var t, t' := AdoptAll(lib, p, vms, us[..j], a), AdoptAll(lib, p, vms, us[..j+1], a);
            t' == if a(j).get then Tally(t.vms, t.adopted + 1, t.failed) else Tally(t.vms, t.adopted, t.failed + 1)
  {
    assert us[..j+1][..j] == us[..j];
    LoopHolds(lib, p, vms, us[..j], a, KeyOf(lib, p, us[j]));
  }

  /** After a pass without failures, a VM that was not the first of its name is discovered for
      ever, if no listed VM can make a resource whose name is its ID. */
  lemma {:induction false} LoserForever(site: Site, vms: map<Key, Vm>, a: Answers, f: nat, w: VmInfo, answers: seq<Answers>)
    requires site.Pass(vms, a).failed == 0
    requires f < |site.Discovered(vms)| && IsFirst(site.lib, site.Discovered(vms), f)
    requires w in site.Discovered(vms) && OwnId(site.all, w)
    requires w != site.Discovered(vms)[f] && AdoptName(site.lib, w) == AdoptName(site.lib, site.Discovered(vms)[f])
    requires forall v <- Candidates(site) :: CannotHide(site.lib, site.provider, site.Pass(vms, a).vms, v, w.id)
    ensures w in site.Discovered(site.Passes(site.Pass(vms, a).vms, answers))
  {
    var lib, p, us, vms' := site.lib, site.provider, site.Discovered(vms), site.Pass(vms, a).vms;
    UnmanagedMembers(lib, Managed(p, vms), site.filter, site.all);
    UnmanagedMembers(lib, Managed(p, vms'), site.filter, site.all);
    FirstRecorded(lib, p, vms, us, a, f);
    ManagedAfter(lib, p, vms, us, a, w.id);
    if w.id in Managed(p, Kept(lib, p, vms, us)) {
      KeptStaysManaged(lib, p, vms, us, a, w.id);
    }
    assert forall j :: 0 <= j < |us| ==> us[j] in us;
    assert forall j: nat :: j < |us| && us[j] == w && IsFirst(lib, us, j) ==> j == f;
    TakenNameForever(site, vms', answers, w);
  }

  // ---------- Resources of other providers ----------

  /** Every resource that names another provider is as before. */
  ghost predicate OthersUnchanged(p: Provider, vms: map<Key, Vm>, vms': map<Key, Vm>) {
    forall k | k in vms && !ManagedBy(p, k, vms[k]) :: SameAt(vms, vms', k)
  }

  /** No unfinished resource of another provider has the name of one of these VMs. */
  predicate NoneMistaken(lib: Lib, p: Provider, vms: map<Key, Vm>, us: seq<VmInfo>) {
    forall u <- us :: var k := KeyOf(lib, p, u); k in vms && Unfinished(vms[k]) ==> ManagedBy(p, k, vms[k])
  }

  lemma {:induction false} NoneMistakenSuffices(lib: Lib, p: Provider, vms: map<Key, Vm>, us: seq<VmInfo>, a: Answers)
    requires NoneMistaken(lib, p, vms, us)
    ensures OthersUnchanged(p, vms, AdoptAll(lib, p, vms, us, a).vms)
  {
    forall k | k in vms && !ManagedBy(p, k, vms[k]) ensures SameAt(vms, AdoptAll(lib, p, vms, us, a).vms, k) {
      if Unfinished(vms[k]) {
        LoopFrame(lib, p, vms, us, a, k);
      } else {
        LoopHolds(lib, p, vms, us, a, k);
      }
    }
  }

  lemma {:induction false} MistakenChanges(lib: Lib, p: Provider, vms: map<Key, Vm>, us: seq<VmInfo>)
    requires !NoneMistaken(lib, p, vms, us)
    ensures !OthersUnchanged(p, vms, AdoptAll(lib, p, vms, us, Good).vms)
  {
    var u :| u in us && KeyOf(lib, p, u) in vms && Unfinished(vms[KeyOf(lib, p, u)]) && !ManagedBy(p, KeyOf(lib, p, u), vms[KeyOf(lib, p, u)]);
    var i :| 0 <= i < |us| && us[i] == u;
    var j := FirstOf(lib, us, i);
    GoodNeverFails(lib, p, vms, us);
    FirstRecorded(lib, p, vms, us, Good, j);
    assert !SameAt(vms, AdoptAll(lib, p, vms, us, Good).vms, KeyOf(lib, p, u));
  }

  /** A pass leaves the other providers' resources alone, whatever is answered, exactly when
      none of them is unfinished under the name of a discovered VM. */
  lemma {:induction false} OthersUnchangedIff(site: Site, vms: map<Key, Vm>)
    ensures (forall a :: OthersUnchanged(site.provider, vms, site.Pass(vms, a).vms))
            <==> NoneMistaken(site.lib, site.provider, vms, site.Discovered(vms))
  {
    if NoneMistaken(site.lib, site.provider, vms, site.Discovered(vms)) {
      forall a ensures OthersUnchanged(site.provider, vms, site.Pass(vms, a).vms) {
        NoneMistakenSuffices(site.lib, site.provider, vms, site.Discovered(vms), a);
      }
    } else {
      MistakenChanges(site.lib, site.provider, vms, site.Discovered(vms));
      assert !OthersUnchanged(site.provider, vms, site.Pass(vms, Good).vms);
    }
  }

  // ---------- Names that collide ----------

  const DOTTED := VmInfo("1", "a.b", "", 0, 0)
  const SCORED := VmInfo("2", "a_b", "", 0, 0)

  lemma {:induction false} SameName(lib: Lib)
    requires lib.lower('a') == 'a' && lib.lower('b') == 'b' && lib.lower('.') == '.' && lib.lower('_') == '_'
    ensures AdoptName(lib, DOTTED) == "a-b" == AdoptName(lib, SCORED)
  {
    var d, u := DOTTED.name, SCORED.name;
    assert d[..2] == "a." && d[..2][..1] == "a" && "a"[..0] == "";
    assert u[..2] == "a_" && u[..2][..1] == "a";
    assert Filtered(lib.lower, "a") == "a";
    assert Filtered(lib.lower, d[..2]) == "a-" == Filtered(lib.lower, u[..2]);
    assert Filtered(lib.lower, d) == "a-b" == Filtered(lib.lower, u);
  }

  lemma {:induction false} DiscoversBoth(lib: Lib, p: Provider, x: VmInfo, y: VmInfo)
    ensures Site(lib, p, None, [x, y]).Discovered(map[]) == [x, y]
  {
    var none: map<Key, Vm> := map[];
    assert Managed(p, none) == {};
    assert [x, y][..1] == [x] && [x][..0] == [];
    assert Unmanaged(lib, {}, None, [x]) == [x];
  }

  /** Two VMs whose names differ only in a replaced character: the pass reports no failure
      and leaves one of them out. */
  lemma {:induction false} CollidingNames(lib: Lib, p: Provider)
    requires lib.lower('a') == 'a' && lib.lower('b') == 'b' && lib.lower('.') == '.' && lib.lower('_') == '_'
    ensures var site := Site(lib, p, None, [DOTTED, SCORED]);
            site.Pass(map[], Good).failed == 0 && site.Discovered(site.Pass(map[], Good).vms) != []
  {
    var site := Site(lib, p, None, [DOTTED, SCORED]);
    SameName(lib);
    DiscoversBoth(lib, p, DOTTED, SCORED);
    GoodNeverFails(lib, p, map[], [DOTTED, SCORED]);
    OnePassSufficesIff(site, map[], Good);
    assert DOTTED in [DOTTED, SCORED] && SCORED in [DOTTED, SCORED];
  }
}
