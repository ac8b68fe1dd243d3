/** Adoption of existing VMs: the resource name made from a VM's name, the discovery of
    unmanaged VMs, and the adopt loop. */
module Adoption {
  import opened Common

  // ---------- Names ----------

  predicate Alphanumeric(c: char) {
    'a' <= c <= 'z' || '0' <= c <= '9'
  }

  predicate Allowed(c: char) {
    Alphanumeric(c) || c == '-'
  }

  /** The lower-case mapping of characters; all that matters is that it leaves lower-case
      letters, digits and the hyphen alone. */
  ghost predicate IsLower(lower: char -> char) {
    forall c: char :: Allowed(c) ==> lower(c) == c
  }

  /** A character after lower-casing and the three replacements. */
  function Folded(lower: char -> char, c: char): char {
    var l := lower(c);
    if l == '_' || l == '.' || l == ' ' then '-' else l
  }

  function Filtered(lower: char -> char, name: string): string {
    if name == "" then ""
    else
      var rest := Filtered(lower, name[..|name|-1]);
      var c := Folded(lower, name[|name|-1]);
      if Allowed(c) then rest + [c] else rest
  }

  function TrimHyphens(s: string): string {
    if s == "" then s
    else if s[0] == '-' then TrimHyphens(s[1..])
    else if s[|s|-1] == '-' then TrimHyphens(s[..|s|-1])
    else s
  }

  function Sanitize(lower: char -> char, name: string): string {
    var t := TrimHyphens(Filtered(lower, name));
    if |t| > 63 then TrimHyphens(t[..63]) else t
  }

  /** sanitizeVMName, with its filter loop. */
  method SanitizeVMName(lower: char -> char, name: string) returns (r: string)
    ensures r == Sanitize(lower, name)
  {
    r := "";
    for i := 0 to |name|
      invariant r == Filtered(lower, name[..i])
    {
      assert name[..i+1][..i] == name[..i];
      var c := Folded(lower, name[i]);
      if Allowed(c) {
        r := r + [c];
      }
    }
    assert name[..|name|] == name;
    r := TrimHyphens(r);
    if |r| > 63 {
      r := r[..63];
      r := TrimHyphens(r);
    }
  }

  predicate AllAllowed(s: string) {
    forall i :: 0 <= i < |s| ==> Allowed(s[i])
  }

  /** A label of section 2.1 of RFC 1123, in lower case. */
  predicate IsLabel(s: string) {
    1 <= |s| <= 63 && AllAllowed(s) && Alphanumeric(s[0]) && Alphanumeric(s[|s|-1])
  }

  lemma {:induction false} FilteredAllowed(lower: char -> char, name: string)
    ensures AllAllowed(Filtered(lower, name))
    ensures (exists i :: 0 <= i < |Filtered(lower, name)| && Alphanumeric(Filtered(lower, name)[i]))
            <==> (exists i :: 0 <= i < |name| && Alphanumeric(Folded(lower, name[i])))
  {
    if name != "" {
      var init := name[..|name|-1];
      FilteredAllowed(lower, init);
      var f, fi := Filtered(lower, name), Filtered(lower, init);
      var c := Folded(lower, name[|name|-1]);
      assert forall i :: 0 <= i < |fi| ==> f[i] == fi[i];
      assert forall i :: 0 <= i < |init| ==> name[i] == init[i];
      if Alphanumeric(c) {
        assert f[|f|-1] == c;
      } else if exists i :: 0 <= i < |f| && Alphanumeric(f[i]) {
        var i :| 0 <= i < |f| && Alphanumeric(f[i]);
        assert i < |fi| && Alphanumeric(fi[i]);
      }
    }
  }

  lemma {:induction false} FilteredFixed(lower: char -> char, s: string)
    requires IsLower(lower) && AllAllowed(s)
    ensures Filtered(lower, s) == s
  {
    if s != "" {
      FilteredFixed(lower, s[..|s|-1]);
      assert s == s[..|s|-1] + [s[|s|-1]];
    }
  }

  lemma {:induction false} Trimmed(s: string)
    requires AllAllowed(s)
    ensures var t := TrimHyphens(s);
            && AllAllowed(t) && |t| <= |s|
            && (t != "" ==> Alphanumeric(t[0]) && Alphanumeric(t[|t|-1]))
            && (t != "" <==> exists i :: 0 <= i < |s| && Alphanumeric(s[i]))
  {
    if s == "" {
    } else if s[0] == '-' {
      Trimmed(s[1..]);
      assert forall i :: 0 <= i < |s| - 1 ==> s[1..][i] == s[i+1];
      if exists i :: 0 <= i < |s| && Alphanumeric(s[i]) {
        var i :| 0 <= i < |s| && Alphanumeric(s[i]);
        assert s[1..][i-1] == s[i];
      }
    } else if s[|s|-1] == '-' {
      Trimmed(s[..|s|-1]);
      assert forall i :: 0 <= i < |s| - 1 ==> s[..|s|-1][i] == s[i];
      assert s[..|s|-1][0] == s[0];
    } else {
      assert Alphanumeric(s[0]);
    }
  }

  /** Any name becomes a valid label or nothing, and nothing exactly when it has no
      character that folds to a letter or a digit. */
  lemma {:induction false} SanitizeYieldsLabel(lower: char -> char, name: string)
    ensures Sanitize(lower, name) == "" || IsLabel(Sanitize(lower, name))
    ensures Sanitize(lower, name) != "" <==> exists i :: 0 <= i < |name| && Alphanumeric(Folded(lower, name[i]))
  {
    FilteredAllowed(lower, name);
    var f := Filtered(lower, name);
    Trimmed(f);
    var t := TrimHyphens(f);
    if |t| > 63 {
      Trimmed(t[..63]);
      assert Alphanumeric(t[..63][0]);
    }
  }

  /** A label is left as it is, so sanitizing twice is sanitizing once. */
  lemma {:induction false} SanitizeIdempotent(lower: char -> char, name: string)
    requires IsLower(lower)
    ensures IsLabel(name) ==> Sanitize(lower, name) == name
    ensures Sanitize(lower, Sanitize(lower, name)) == Sanitize(lower, name)
  {
    if IsLabel(name) {
      FilteredFixed(lower, name);
    }
    var r := Sanitize(lower, name);
    SanitizeYieldsLabel(lower, name);
    FilteredFixed(lower, r);
  }

  lemma {:induction false} FilteredConcat(lower: char -> char, a: string, b: string)
    ensures Filtered(lower, a + b) == Filtered(lower, a) + Filtered(lower, b)
  {
    if b == "" {
      assert a + b == a;
    } else {
      assert (a + b)[..|a + b|-1] == a + b[..|b|-1];
      FilteredConcat(lower, a, b[..|b|-1]);
    }
  }

  /** What becomes of one character: an underscore, a dot and a space become a hyphen, a
      letter or digit is put in lower case, a hyphen stays, and anything else goes. */
  function Sanitized(lower: char -> char, c: char): string {
    if lower(c) in "_. -" then "-"
    else if lower(c) in "abcdefghijklm" || lower(c) in "nopqrstuvwxyz" || lower(c) in "0123456789" then [lower(c)]
    else ""
  }

  lemma {:induction false} LettersAndDigits(c: char)
    ensures Alphanumeric(c) <==> c in "abcdefghijklm" || c in "nopqrstuvwxyz" || c in "0123456789"
  {
  }

  /** Inside a name that is otherwise a label, each character is sanitized by itself. */
  lemma {:induction false} EachCharacter(lower: char -> char, x: string, c: char, y: string)
    requires IsLower(lower) && IsLabel(x) && IsLabel(y) && |x| + 1 + |y| <= 63
    ensures Sanitize(lower, x + [c] + y) == x + Sanitized(lower, c) + y
  {
    LettersAndDigits(lower(c));
    FilteredFixed(lower, x);
    FilteredFixed(lower, y);
    assert [c][..0] == "";
    assert Filtered(lower, [c]) == Sanitized(lower, c);
    FilteredConcat(lower, x, [c]);
    FilteredConcat(lower, x + [c], y);
    var s := x + Sanitized(lower, c) + y;
    assert s[0] == x[0] && s[|s|-1] == y[|y|-1];
  }

  // ---------- Discovery ----------

  datatype VmInfo = VmInfo(id: string, name: string, power: string, cpu: int, memoryMiB: int)

  datatype Filter = Filter(namePattern: string, power: string, minCPU: int, maxCPU: int, minMemoryMiB: int, maxMemoryMiB: int)

  /** Library functions: the regular-expression match, the trimmed lower-case form of a
      power state, and the lower-case mapping. */
  datatype Lib = Lib(matches: (string, string) -> bool, normal: string -> string, lower: char -> char)

  datatype Provider = Provider(ns: string, name: string)

  datatype Key = Key(ns: string, name: string)

  /** A VirtualMachine resource; an empty provider namespace or status ID is None. */
  datatype Vm = Vm(adopted: bool, providerName: string, providerNs: Option<string>, id: Option<string>)

  predicate MatchesFilter(lib: Lib, vm: VmInfo, f: Filter) {
    && (f.namePattern != "" ==> lib.matches(f.namePattern, vm.name))
    && (f.power != "" ==> lib.normal(vm.power) == lib.normal(f.power))
    && (f.minCPU > 0 ==> vm.cpu >= f.minCPU)
    && (f.maxCPU > 0 ==> vm.cpu <= f.maxCPU)
    && (f.minMemoryMiB > 0 ==> vm.memoryMiB >= f.minMemoryMiB)
    && (f.maxMemoryMiB > 0 ==> vm.memoryMiB <= f.maxMemoryMiB)
  }

  predicate Passes(lib: Lib, filter: Option<Filter>, vm: VmInfo) {
    filter.None? || MatchesFilter(lib, vm, filter.value)
  }

  predicate ManagedBy(p: Provider, k: Key, vm: Vm) {
    vm.providerName == p.name && (if vm.providerNs.Some? then vm.providerNs.value else k.ns) == p.ns
  }

  function ManagedId(k: Key, vm: Vm): string {
    if vm.id.Some? then vm.id.value else k.name
  }

  function Managed(p: Provider, vms: map<Key, Vm>): set<string> {
    set k | k in vms && ManagedBy(p, k, vms[k]) :: ManagedId(k, vms[k])
  }

  predicate Selected(lib: Lib, managed: set<string>, filter: Option<Filter>, vm: VmInfo) {
    vm.id !in managed && Passes(lib, filter, vm)
  }

  function Unmanaged(lib: Lib, managed: set<string>, filter: Option<Filter>, all: seq<VmInfo>): seq<VmInfo> {
    if all == [] then []
    else
      var rest := Unmanaged(lib, managed, filter, all[..|all|-1]);
      if Selected(lib, managed, filter, all[|all|-1]) then rest + [all[|all|-1]] else rest
  }

  /** discoverUnmanagedVMs: `items` lists the VirtualMachine resources in any order. */
  method Discover(lib: Lib, p: Provider, vms: map<Key, Vm>, items: seq<Key>, filter: Option<Filter>, all: seq<VmInfo>)
    returns (unmanaged: seq<VmInfo>)
    requires forall k :: k in items <==> k in vms
    ensures unmanaged == Unmanaged(lib, Managed(p, vms), filter, all)
  {
    var managed: set<string> := {};
    for i := 0 to |items|
      invariant managed == set j | 0 <= j < i && ManagedBy(p, items[j], vms[items[j]]) :: ManagedId(items[j], vms[items[j]])
    {
      if ManagedBy(p, items[i], vms[items[i]]) {
        managed := managed + {ManagedId(items[i], vms[items[i]])};
      }
    }
    assert managed == Managed(p, vms);
    unmanaged := [];
    for i := 0 to |all|
      invariant unmanaged == Unmanaged(lib, managed, filter, all[..i])
    {
      assert all[..i+1][..i] == all[..i];
      if all[i].id !in managed && Passes(lib, filter, all[i]) {
        unmanaged := unmanaged + [all[i]];
      }
    }
    assert all[..|all|] == all;
  }

  /** Discovery is exactly the sublist, in order, of the VMs that are unmanaged and pass the
      filter: `at` gives the places it takes them from. */
  lemma {:induction false} DiscoveryIsSublist(lib: Lib, managed: set<string>, filter: Option<Filter>, all: seq<VmInfo>)
    returns (at: seq<nat>)
    ensures var u := Unmanaged(lib, managed, filter, all);
            && |at| == |u|
            && (forall k :: 0 <= k < |at| ==> at[k] < |all| && u[k] == all[at[k]])
            && (forall j, k :: 0 <= j < k < |at| ==> at[j] < at[k])
            && (forall i :: 0 <= i < |all| ==> (i in at <==> Selected(lib, managed, filter, all[i])))
  {
    if all == [] {
      at := [];
    } else {
      var n := |all| - 1;
      at := DiscoveryIsSublist(lib, managed, filter, all[..n]);
      assert n !in at;
      if Selected(lib, managed, filter, all[n]) {
        at := at + [n];
      }
    }
  }

  lemma {:induction false} UnmanagedMembers(lib: Lib, managed: set<string>, filter: Option<Filter>, all: seq<VmInfo>)
    ensures forall x :: x in Unmanaged(lib, managed, filter, all) <==> x in all && Selected(lib, managed, filter, x)
  {
    if all != [] {
      UnmanagedMembers(lib, managed, filter, all[..|all|-1]);
      assert all == all[..|all|-1] + [all[|all|-1]];
    }
  }

  // ---------- What is discovered, field by field ----------

  /** A resource of this provider, named with or without its namespace, that has the ID or,
      while it has none, is called by it. */
  predicate Manages(p: Provider, k: Key, vm: Vm, id: string) {
    && vm.providerName == p.name
    && (vm.providerNs == Some(p.ns) || (vm.providerNs.None? && k.ns == p.ns))
    && (vm.id == Some(id) || (vm.id.None? && k.name == id))
  }

  /** Pattern and power state match where given, and every positive bound is kept. */
  predicate Admits(lib: Lib, f: Filter, x: VmInfo) {
    && (f.namePattern == "" || lib.matches(f.namePattern, x.name))
    && (f.power == "" || lib.normal(f.power) == lib.normal(x.power))
    && (0 < f.minCPU ==> f.minCPU <= x.cpu)
    && (0 < f.maxCPU ==> x.cpu <= f.maxCPU)
    && (0 < f.minMemoryMiB ==> f.minMemoryMiB <= x.memoryMiB)
    && (0 < f.maxMemoryMiB ==> x.memoryMiB <= f.maxMemoryMiB)
  }

  /** A VM is discovered if and only if it is listed, no resource of the provider manages it,
      and the filter, if there is one, admits it. */
  lemma {:induction false} DiscoveredIff(lib: Lib, p: Provider, vms: map<Key, Vm>, filter: Option<Filter>, all: seq<VmInfo>, x: VmInfo)
    ensures x in Unmanaged(lib, Managed(p, vms), filter, all)
            <==> x in all && (forall k :: k in vms ==> !Manages(p, k, vms[k], x.id)) && (filter.None? || Admits(lib, filter.value, x))
  {
    UnmanagedMembers(lib, Managed(p, vms), filter, all);
    assert x.id in Managed(p, vms) <==> exists k :: k in vms && Manages(p, k, vms[k], x.id) by {
      if k :| k in vms && Manages(p, k, vms[k], x.id) {
        assert ManagedBy(p, k, vms[k]) && ManagedId(k, vms[k]) == x.id;
      }
      if x.id in Managed(p, vms) {
        var k :| k in vms && ManagedBy(p, k, vms[k]) && ManagedId(k, vms[k]) == x.id;
        assert Manages(p, k, vms[k], x.id);
      }
    }
  }

  lemma {:induction false} SameSelection(lib: Lib, managed: set<string>, f: Option<Filter>, g: Option<Filter>, all: seq<VmInfo>)
    requires forall x <- all :: Selected(lib, managed, f, x) <==> Selected(lib, managed, g, x)
    ensures Unmanaged(lib, managed, f, all) == Unmanaged(lib, managed, g, all)
  {
    if all != [] {
      var n := |all| - 1;
      assert forall x :: x in all[..n] ==> x in all;
      SameSelection(lib, managed, f, g, all[..n]);
      assert all[n] in all;
    }
  }

  /** A filter with nothing set discovers what no filter does. */
  lemma {:induction false} EmptyFilterIsNone(lib: Lib, managed: set<string>, f: Filter, all: seq<VmInfo>)
    requires f.namePattern == "" && f.power == "" && f.minCPU <= 0 && f.maxCPU <= 0 && f.minMemoryMiB <= 0 && f.maxMemoryMiB <= 0
    ensures Unmanaged(lib, managed, Some(f), all) == Unmanaged(lib, managed, None, all)
  {
    SameSelection(lib, managed, Some(f), None, all);
  }

  /** The bound is at least as strict: a maximum of zero or less is no bound. */
  predicate Lower(m: int, n: int) {
    n <= 0 || 0 < m <= n
  }

  /** Raising a minimum or lowering a maximum only takes VMs out, and keeps the others in
      order. */
  lemma {:induction false} StricterFindsLess(lib: Lib, managed: set<string>, f: Filter, g: Filter, all: seq<VmInfo>)
    requires g.namePattern == f.namePattern && g.power == f.power
    requires f.minCPU <= g.minCPU && f.minMemoryMiB <= g.minMemoryMiB
    requires Lower(g.maxCPU, f.maxCPU) && Lower(g.maxMemoryMiB, f.maxMemoryMiB)
    ensures Unmanaged(lib, managed, Some(g), Unmanaged(lib, managed, Some(f), all)) == Unmanaged(lib, managed, Some(g), all)
  {
    if all != [] {
      var n := |all| - 1;
      StricterFindsLess(lib, managed, f, g, all[..n]);
      var found := Unmanaged(lib, managed, Some(f), all[..n]);
      assert (found + [all[n]])[..|found|] == found;
    }
  }

  lemma {:induction false} NothingSelected(lib: Lib, managed: set<string>, filter: Option<Filter>, all: seq<VmInfo>)
    requires forall x <- all :: !Selected(lib, managed, filter, x)
    ensures Unmanaged(lib, managed, filter, all) == []
  {
    if all != [] {
      var n := |all| - 1;
      assert forall x :: x in all[..n] ==> x in all;
      NothingSelected(lib, managed, filter, all[..n]);
      assert all[n] in all;
    }
  }
}
