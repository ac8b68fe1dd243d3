/** The URLs of exported disks: how the migration controller builds them, how a provider
    reads the PVC name back, and how PVC storage turns them into a path below its mount. */
module StorageUrls {
  import opened Common
  import opened Text

  const SCHEME := "pvc://"
  const DIR := "vmmigrations"

  function Slashed(a: string, b: string, c: string, d: string): string {
    a + "/" + (b + "/" + (c + "/" + d))
  }

  /** vmmigrations/<ns>/<name>/<stage>.qcow2 */
  function FilePath(ns: string, name: string, stage: string): string {
    Slashed(DIR, ns, name, stage + ".qcow2")
  }

  /** pvc://<pvc>/vmmigrations/<ns>/<name>/<stage>.qcow2 */
  function Build(pvc: string, ns: string, name: string, stage: string): string {
    SCHEME + (pvc + "/" + FilePath(ns, name, stage))
  }

  // ---------- strings and filepath ----------

  function TrimPrefix(s: string, prefix: string): string {
    if prefix <= s then s[|prefix|..] else s
  }

  predicate IsSpace(c: char) {
    || c == ' ' || '\t' <= c <= '\r' || c == '\U{85}' || c == '\U{A0}' || c == '\U{1680}'
    || c == '\U{2028}' || c == '\U{2029}' || c == '\U{202F}' || c == '\U{205F}' || c == '\U{3000}'
    || '\U{2000}' <= c <= '\U{200A}'
  }

  function TrimSpace(s: string): string {
    if s == "" then s
    else if IsSpace(s[0]) then TrimSpace(s[1..])
    else if IsSpace(s[|s|-1]) then TrimSpace(s[..|s|-1])
    else s
  }

  predicate ContainsDotDot(s: string) {
    exists i :: 0 <= i < |s| - 1 && s[i] == '.' && s[i+1] == '.'
  }

  function Elements(path: string): seq<string> {
    Split(path, '/')
  }

  /** The elements kept once `e` has been read after `kept`. */
  function Push(rooted: bool, kept: seq<string>, e: string): seq<string> {
    if e == "" || e == "." then kept
    else if e != ".." then kept + [e]
    else if kept != [] && kept[|kept|-1] != ".." then kept[..|kept|-1]
    else if rooted then kept
    else kept + [".."]
  }

  /** The elements that remain of `elems` after `kept` when a path is cleaned. */
  function Cleaned(rooted: bool, kept: seq<string>, elems: seq<string>): seq<string>
    decreases elems
  {
    if elems == [] then kept
    else
      Cleaned(rooted, Push(rooted, kept, elems[0]), elems[1..])
  }

  function Render(rooted: bool, elems: seq<string>): string {
    if rooted then "/" + Unsplit(elems, '/')
    else if elems == [] then "."
    else Unsplit(elems, '/')
  }

  /** filepath.Clean */
  function Clean(path: string): string {
    var rooted := path != "" && path[0] == '/';
    Render(rooted, Cleaned(rooted, [], Elements(path)))
  }

  /** filepath.Join of two elements, the first not empty */
  function Join(dir: string, file: string): string {
    if file == "" then Clean(dir) else Clean(dir + "/" + file)
  }

  // ---------- the two readers ----------

  function ExtractPvcName(url: string): Result<string> {
    var rest := TrimPrefix(url, SCHEME);
    var name := rest[..Index(rest, '/')];
    if name == "" then Err else Ok(name)
  }

  function ParsePath(mount: string, url: string): Result<string> {
    var rest := TrimPrefix(TrimSpace(url), SCHEME);
    if ContainsDotDot(rest) || Index(rest, '/') == |rest| then Err
    else Ok(Join(mount, rest[Index(rest, '/')+1..]))
  }

  // ---------- proofs ----------

  ghost predicate Plain(e: string) {
    e != "" && e != "." && e != ".." && '/' !in e
  }

  lemma {:induction false} CleanedConcat(rooted: bool, kept: seq<string>, a: seq<string>, b: seq<string>)
    ensures Cleaned(rooted, kept, a + b) == Cleaned(rooted, Cleaned(rooted, kept, a), b)
    decreases a
  {
    if a == [] {
      assert a + b == b;
    } else {
      assert (a + b)[1..] == a[1..] + b;
      CleanedConcat(rooted, Push(rooted, kept, a[0]), a[1..], b);
    }
  }

  lemma {:induction false} CleanedPlain(rooted: bool, kept: seq<string>, elems: seq<string>)
    requires forall i :: 0 <= i < |elems| ==> Plain(elems[i])
    ensures Cleaned(rooted, kept, elems) == kept + elems
    decreases elems
  {
    if elems == [] {
      assert kept + elems == kept;
    } else {
      CleanedPlain(rooted, kept + [elems[0]], elems[1..]);
      assert kept + [elems[0]] + elems[1..] == kept + elems;
    }
  }

  /** What a cleaned path looks like: no empty or "." element, and ".." only at the front of
      a path that is not rooted. */
  ghost predicate Normal(rooted: bool, elems: seq<string>) {
    && Free(elems, '/')
    && (forall i :: 0 <= i < |elems| ==> elems[i] != "" && elems[i] != ".")
    && (forall i :: 0 <= i < |elems| && elems[i] == ".." ==> !rooted && (i > 0 ==> elems[i-1] == ".."))
  }

  lemma {:induction false} CleanedIsNormal(rooted: bool, kept: seq<string>, elems: seq<string>)
    requires Normal(rooted, kept) && Free(elems, '/')
    ensures Normal(rooted, Cleaned(rooted, kept, elems))
    decreases elems
  {
    if elems != [] {
      CleanedIsNormal(rooted, Push(rooted, kept, elems[0]), elems[1..]);
    }
  }

  lemma {:induction false} NormalIsClean(rooted: bool, kept: seq<string>, elems: seq<string>)
    requires Normal(rooted, kept + elems)
    ensures Cleaned(rooted, kept, elems) == kept + elems
    decreases elems
  {
    if elems == [] {
      assert kept + elems == kept;
    } else {
      var e := elems[0];
      assert (kept + elems)[|kept|] == e;
      if kept != [] {
        assert (kept + elems)[|kept|-1] == kept[|kept|-1];
      }
      assert (kept + [e]) + elems[1..] == kept + elems;
      NormalIsClean(rooted, kept + [e], elems[1..]);
    }
  }

  /** The elements of a printed path, but for empty ones and ".". */
  lemma {:induction false} RenderedElements(rooted: bool, elems: seq<string>)
    requires Normal(rooted, elems)
    ensures var s := Render(rooted, elems);
            && s != "" && (s[0] == '/' <==> rooted)
            && Cleaned(rooted, [], Elements(s)) == elems
  {
    NormalIsClean(rooted, [], elems);
    assert [] + elems == elems;
    if elems == [] {
      SplitNone("", '/');
      SplitNone(".", '/');
      SplitFirst("", '/', "");
      assert "/" + "" == "" + "/" + "";
      RootElements(rooted);
    } else {
      SplitUnsplit(elems, '/');
      var text := Unsplit(elems, '/');
      TextStart(elems);
      if rooted {
        SplitFirst("", '/', text);
        assert "/" + text == "" + "/" + text;
        assert ([""] + elems)[1..] == elems;
      }
    }
  }

  lemma {:induction false} RootElements(rooted: bool)
    ensures Cleaned(rooted, [], [""] + [""]) == [] && Cleaned(rooted, [], ["."]) == []
  {
    assert ([""] + [""])[1..] == [""] && [""][1..] == [] && ["."][1..] == [];
  }

  lemma {:induction false} TextStart(elems: seq<string>)
    requires elems != [] && elems[0] != "" && '/' !in elems[0]
    ensures Unsplit(elems, '/') != "" && Unsplit(elems, '/')[0] != '/'
  {
  }

  /** Cleaning a mount path first changes no path below it. */
  lemma {:induction false} CleanMountSamePath(mount: string, file: string)
    requires mount != ""
    ensures Join(Clean(mount), file) == Join(mount, file)
  {
    var rooted := mount[0] == '/';
    var kept := Cleaned(rooted, [], Elements(mount));
    SplitIsFree(mount, '/');
    CleanedIsNormal(rooted, [], Elements(mount));
    RenderedElements(rooted, kept);
    var cleaned := Clean(mount);
    assert cleaned == Render(rooted, kept);
    if file != "" {
      SplitConcat(mount, '/', file);
      SplitConcat(cleaned, '/', file);
      CleanedConcat(rooted, [], Elements(mount), Elements(file));
      CleanedConcat(rooted, [], Elements(cleaned), Elements(file));
      assert (mount + "/" + file)[0] == mount[0] && (cleaned + "/" + file)[0] == cleaned[0];
    }
  }

  lemma {:induction false} CleanMountSameUrl(mount: string, url: string)
    requires mount != ""
    ensures ParsePath(Clean(mount), url) == ParsePath(mount, url)
  {
    var rest := TrimPrefix(TrimSpace(url), SCHEME);
    if Index(rest, '/') != |rest| {
      CleanMountSamePath(mount, rest[Index(rest, '/')+1..]);
    }
  }

  lemma {:induction false} SlashedElements(a: string, b: string, c: string, d: string)
    requires '/' !in a && '/' !in b && '/' !in c && '/' !in d
    ensures Elements(Slashed(a, b, c, d)) == [a, b, c, d]
  {
    var tail := c + "/" + d;
    SplitNone(d, '/');
    SplitFirst(c, '/', d);
    SplitFirst(b, '/', tail);
    SplitFirst(a, '/', b + "/" + tail);
  }

  lemma {:induction false} DotDotConcat(a: string, b: string)
    ensures ContainsDotDot(a + "/" + b) <==> ContainsDotDot(a) || ContainsDotDot(b)
  {
    var s := a + "/" + b;
    if ContainsDotDot(a) {
      var i :| 0 <= i < |a| - 1 && a[i] == '.' && a[i+1] == '.';
      assert s[i] == '.' && s[i+1] == '.';
    }
    if ContainsDotDot(b) {
      var i :| 0 <= i < |b| - 1 && b[i] == '.' && b[i+1] == '.';
      var j := |a| + 1 + i;
      assert s[j] == '.' && s[j+1] == '.';
    }
    if ContainsDotDot(s) {
      var i :| 0 <= i < |s| - 1 && s[i] == '.' && s[i+1] == '.';
      if i < |a| {
        assert i + 1 < |a| && a[i] == '.' && a[i+1] == '.';
      } else {
        var j := i - |a| - 1;
        assert b[j] == '.' && b[j+1] == '.';
      }
    }
  }

  /** The prefix goes exactly if it is there. */
  lemma {:induction false} PrefixTrimmed(s: string, prefix: string)
    ensures TrimPrefix(prefix + s, prefix) == s
    ensures |s| < |prefix| || s[..|prefix|] != prefix ==> TrimPrefix(s, prefix) == s
  {
  }

  /** Exactly the spaces at the two ends go: those before `i` and from `j` on. */
  lemma {:induction false} SpaceTrimmed(s: string) returns (i: nat, j: nat)
    ensures i <= j <= |s| && TrimSpace(s) == s[i..j]
    ensures forall k :: 0 <= k < i || j <= k < |s| ==> IsSpace(s[k])
    ensures i < j ==> !IsSpace(s[i]) && !IsSpace(s[j-1])
  {
    i, j := 0, |s|;
    if s != "" {
      if IsSpace(s[0]) {
        var i', j' := SpaceTrimmed(s[1..]);
        assert s[1..][i'..j'] == s[i'+1..j'+1];
        assert forall k :: 1 <= k < |s| ==> s[k] == s[1..][k-1];
        i, j := i' + 1, j' + 1;
      } else if IsSpace(s[|s|-1]) {
        i, j := SpaceTrimmed(s[..|s|-1]);
        assert s[..|s|-1][i..j] == s[i..j];
      }
    }
  }

  lemma {:induction false} BuiltParts(pvc: string, ns: string, name: string, stage: string)
    ensures var url := Build(pvc, ns, name, stage);
            TrimSpace(url) == url && TrimPrefix(url, SCHEME) == pvc + "/" + FilePath(ns, name, stage)
  {
    var url := Build(pvc, ns, name, stage);
    assert url[0] == 'p';
    assert url[|url|-1] == '2';
  }

  /** A provider reads back the PVC name of a built URL if and only if the name is not empty
      and has no slash. */
  lemma {:induction false} PvcNameRoundTrip(pvc: string, ns: string, name: string, stage: string)
    ensures ExtractPvcName(Build(pvc, ns, name, stage)) == Ok(pvc) <==> pvc != "" && '/' !in pvc
  {
    BuiltParts(pvc, ns, name, stage);
    var rest := pvc + "/" + FilePath(ns, name, stage);
    if '/' !in pvc {
      IndexAt(pvc, '/', FilePath(ns, name, stage));
    } else {
      var k :| 0 <= k < |pvc| && pvc[k] == '/';
      assert rest[k] == '/';
      assert forall i :: 0 <= i < Index(rest, '/') ==> rest[..Index(rest, '/')][i] == rest[i];
    }
  }

  lemma {:induction false} DotDotSlashed(a: string, b: string, c: string, d: string)
    ensures ContainsDotDot(Slashed(a, b, c, d))
            <==> ContainsDotDot(a) || ContainsDotDot(b) || ContainsDotDot(c) || ContainsDotDot(d)
  {
    DotDotConcat(a, b + "/" + (c + "/" + d));
    DotDotConcat(b, c + "/" + d);
    DotDotConcat(c, d);
  }

  const EXPORT := "export" + ".qcow2"

  lemma {:induction false} FixedNames()
    ensures Plain(DIR) && Plain(EXPORT) && !ContainsDotDot(DIR) && !ContainsDotDot(EXPORT)
  {
  }

  /** PVC storage accepts a built URL if and only if none of its names contains "..". */
  lemma {:induction false} BuiltUrlParsesIff(mount: string, pvc: string, ns: string, name: string)
    ensures ParsePath(mount, Build(pvc, ns, name, "export")).Ok?
            <==> !ContainsDotDot(pvc) && !ContainsDotDot(ns) && !ContainsDotDot(name)
  {
    var path := FilePath(ns, name, "export");
    BuiltParts(pvc, ns, name, "export");
    assert (pvc + "/" + path)[|pvc|] == '/';
    DotDotConcat(pvc, path);
    DotDotSlashed(DIR, ns, name, EXPORT);
    FixedNames();
  }

  lemma {:induction false} MountElements(mount: string, rooted: bool)
    ensures Free(Cleaned(rooted, [], Elements(mount)), '/')
  {
    SplitIsFree(mount, '/');
    CleanedIsNormal(rooted, [], Elements(mount));
  }

  /** A path of four plain elements below a mount: the mount's own elements, then the four. */
  lemma {:induction false} JoinedPath(mount: string, a: string, b: string, c: string, d: string)
    requires mount != "" && Plain(a) && Plain(b) && Plain(c) && Plain(d)
    ensures var rooted := mount[0] == '/';
            Join(mount, Slashed(a, b, c, d)) == Render(rooted, Cleaned(rooted, [], Elements(mount)) + [a, b, c, d])
  {
    var rooted := mount[0] == '/';
    var file, four := Slashed(a, b, c, d), [a, b, c, d];
    var kept := Cleaned(rooted, [], Elements(mount));
    var path := mount + "/" + file;
    assert path[0] == mount[0];
    assert Elements(path) == Elements(mount) + four by {
      SlashedElements(a, b, c, d);
      SplitConcat(mount, '/', file);
    }
    assert Cleaned(rooted, [], Elements(mount) + four) == kept + four by {
      CleanedConcat(rooted, [], Elements(mount), four);
      CleanedPlain(rooted, kept, four);
    }
  }

  /** The elements that say something. */
  function Telling(elems: seq<string>): seq<string> {
    if elems == [] then []
    else if elems[0] == "" || elems[0] == "." then Telling(elems[1..])
    else [elems[0]] + Telling(elems[1..])
  }

  lemma {:induction false} CleanedWithoutDotDot(rooted: bool, kept: seq<string>, elems: seq<string>)
    requires ".." !in elems
    ensures Cleaned(rooted, kept, elems) == kept + Telling(elems) && ".." !in Telling(elems)
    decreases elems
  {
    if elems == [] {
      assert kept + [] == kept;
    } else {
      assert forall e :: e in elems[1..] ==> e in elems;
      CleanedWithoutDotDot(rooted, Push(rooted, kept, elems[0]), elems[1..]);
      assert elems[0] in elems;
      assert kept + [elems[0]] + Telling(elems[1..]) == kept + ([elems[0]] + Telling(elems[1..]));
    }
  }

  lemma {:induction false} ElementsWithoutDotDot(s: string)
    requires !ContainsDotDot(s)
    ensures ".." !in Elements(s)
  {
    var i := Index(s, '/');
    if i == |s| {
      SplitNone(s, '/');
    } else {
      var first, rest := s[..i], s[i+1..];
      assert s == first + "/" + rest;
      DotDotConcat(first, rest);
      ElementsWithoutDotDot(rest);
      SplitFirst(first, '/', rest);
      assert |first| > 1 ==> !(first[0] == '.' && first[1] == '.');
    }
  }

  /** Every URL that is accepted names a path below the mount: the mount's own elements come
      first, and no ".." follows. */
  lemma {:induction false} PathBelowMount(mount: string, url: string) returns (tail: seq<string>)
    requires mount != "" && ParsePath(mount, url).Ok?
    ensures var rooted := mount[0] == '/';
            && ParsePath(mount, url).value == Render(rooted, Cleaned(rooted, [], Elements(mount)) + tail)
            && ".." !in tail
  {
    var rooted := mount[0] == '/';
    var kept := Cleaned(rooted, [], Elements(mount));
    var rest := TrimPrefix(TrimSpace(url), SCHEME);
    var i := Index(rest, '/');
    var file := rest[i+1..];
    if file == "" {
      tail := [];
      assert kept + tail == kept;
    } else {
      assert rest == rest[..i] + "/" + file;
      DotDotConcat(rest[..i], file);
      ElementsWithoutDotDot(file);
      tail := Telling(Elements(file));
      CleanedWithoutDotDot(rooted, kept, Elements(file));
      SplitConcat(mount, '/', file);
      CleanedConcat(rooted, [], Elements(mount), Elements(file));
      assert (mount + "/" + file)[0] == mount[0];
    }
  }

  lemma {:induction false} RenderInjective(rooted: bool, e1: seq<string>, e2: seq<string>)
    requires e1 != [] && e2 != [] && Free(e1, '/') && Free(e2, '/')
    requires Render(rooted, e1) == Render(rooted, e2)
    ensures e1 == e2
  {
    SplitUnsplit(e1, '/');
    SplitUnsplit(e2, '/');
    if rooted {
      assert Unsplit(e1, '/') == Render(rooted, e1)[1..] && Unsplit(e2, '/') == Render(rooted, e2)[1..];
    }
  }

  lemma {:induction false} SameTail(kept: seq<string>, f1: seq<string>, f2: seq<string>)
    requires kept + f1 == kept + f2
    ensures f1 == f2
  {
    assert (kept + f1)[|kept|..] == f1 && (kept + f2)[|kept|..] == f2;
  }

  /** Such paths are equal only if their elements are. */
  lemma {:induction false} JoinedPathsEqual(mount: string, a: string, b1: string, c1: string, b2: string, c2: string, d: string)
    requires mount != "" && Plain(a) && Plain(b1) && Plain(c1) && Plain(b2) && Plain(c2) && Plain(d)
    requires Join(mount, Slashed(a, b1, c1, d)) == Join(mount, Slashed(a, b2, c2, d))
    ensures b1 == b2 && c1 == c2
  {
    var rooted := mount[0] == '/';
    var kept := Cleaned(rooted, [], Elements(mount));
    var f1, f2 := [a, b1, c1, d], [a, b2, c2, d];
    JoinedPath(mount, a, b1, c1, d);
    JoinedPath(mount, a, b2, c2, d);
    MountElements(mount, rooted);
    RenderInjective(rooted, kept + f1, kept + f2);
    SameTail(kept, f1, f2);
    assert f1[1] == f2[1] && f1[2] == f2[2];
  }

  /** What Kubernetes guarantees of the names, and what keeps the path inside the mount. */
  ghost predicate Named(pvc: string, ns: string, name: string) {
    && '/' !in pvc && !ContainsDotDot(pvc)
    && Plain(ns) && !ContainsDotDot(ns)
    && Plain(name) && !ContainsDotDot(name)
  }

  lemma {:induction false} ParsedPath(mount: string, pvc: string, ns: string, name: string)
    requires Named(pvc, ns, name)
    ensures ParsePath(mount, Build(pvc, ns, name, "export")) == Ok(Join(mount, FilePath(ns, name, "export")))
  {
    BuiltParts(pvc, ns, name, "export");
    IndexAt(pvc, '/', FilePath(ns, name, "export"));
    BuiltUrlParsesIff(mount, pvc, ns, name);
  }

  /** Under one mount, two migrations share a file if and only if they have the same
      namespace and name, whatever PVC their URLs mention. */
  lemma {:induction false} DistinctMigrationsDistinctFiles(mount: string, pvc1: string, ns1: string, name1: string, pvc2: string, ns2: string, name2: string)
    requires mount != "" && Named(pvc1, ns1, name1) && Named(pvc2, ns2, name2)
    ensures var path1 := ParsePath(mount, Build(pvc1, ns1, name1, "export"));
            var path2 := ParsePath(mount, Build(pvc2, ns2, name2, "export"));
            path1.Ok? && path2.Ok? && (path1 == path2 <==> ns1 == ns2 && name1 == name2)
  {
    ParsedPath(mount, pvc1, ns1, name1);
    ParsedPath(mount, pvc2, ns2, name2);
    FixedNames();
    if Join(mount, FilePath(ns1, name1, "export")) == Join(mount, FilePath(ns2, name2, "export")) {
      JoinedPathsEqual(mount, DIR, ns1, name1, ns2, name2, EXPORT);
    }
  }
}
