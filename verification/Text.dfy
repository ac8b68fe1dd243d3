/** Splitting text at a separator and putting it back together. */
module Text {
  /** The index of the first `c`, the length if there is none. */
  function Index(s: string, c: char): (k: nat)
    ensures k <= |s| && c !in s[..k] && (k < |s| ==> s[k] == c)
  {
    if s == "" || s[0] == c then 0
    else
      var k := Index(s[1..], c) + 1;
      assert s[..k] == [s[0]] + s[1..][..k-1];
      k
  }

  function Split(s: string, c: char): (parts: seq<string>)
    ensures parts != []
  {
    var k := Index(s, c);
    if k == |s| then [s] else [s[..k]] + Split(s[k+1..], c)
  }

  function Unsplit(parts: seq<string>, c: char): string {
    if parts == [] then ""
    else if |parts| == 1 then parts[0]
    else parts[0] + [c] + Unsplit(parts[1..], c)
  }

  ghost predicate Free(parts: seq<string>, c: char) {
    forall i :: 0 <= i < |parts| ==> c !in parts[i]
  }

  lemma {:induction false} IndexAt(a: string, c: char, b: string)
    requires c !in a
    ensures Index(a + [c] + b, c) == |a|
    ensures (a + [c] + b)[..|a|] == a && (a + [c] + b)[|a|+1..] == b
  {
    var s := a + [c] + b;
    assert s[|a|] == c && forall i :: 0 <= i < |a| ==> s[i] == a[i];
    assert forall i :: 0 <= i < Index(s, c) ==> s[..Index(s, c)][i] == s[i];
  }

  lemma {:induction false} SplitFirst(a: string, c: char, b: string)
    requires c !in a
    ensures Split(a + [c] + b, c) == [a] + Split(b, c)
  {
    IndexAt(a, c, b);
  }

  lemma {:induction false} SplitNone(a: string, c: char)
    requires c !in a
    ensures Split(a, c) == [a]
  {
  }

  lemma {:induction false} SplitCut(s: string, c: char)
    requires Index(s, c) < |s|
    ensures var k := Index(s, c);
            s == s[..k] + [c] + s[k+1..] && Split(s, c) == [s[..k]] + Split(s[k+1..], c)
  {
  }

  lemma {:induction false} Reassociate(head: string, c: char, tail: string, b: string)
    ensures head + [c] + tail + [c] + b == head + [c] + (tail + [c] + b)
  {
  }

  lemma {:induction false} SplitConcat(a: string, c: char, b: string)
    ensures Split(a + [c] + b, c) == Split(a, c) + Split(b, c)
    decreases |a|
  {
    var k := Index(a, c);
    if k == |a| {
      assert a == a[..k];
      SplitFirst(a, c, b);
      SplitNone(a, c);
    } else {
      var head, tail := a[..k], a[k+1..];
      SplitCut(a, c);
      Reassociate(head, c, tail, b);
      SplitFirst(head, c, tail + [c] + b);
      SplitConcat(tail, c, b);
    }
  }

  lemma {:induction false} SplitIsFree(s: string, c: char)
    ensures Free(Split(s, c), c)
    decreases |s|
  {
    var k := Index(s, c);
    if k < |s| {
      SplitIsFree(s[k+1..], c);
    } else {
      assert s[..k] == s;
    }
  }

  /** Parts free of the separator can be read back. */
  lemma {:induction false} SplitUnsplit(parts: seq<string>, c: char)
    requires parts != [] && Free(parts, c)
    ensures Split(Unsplit(parts, c), c) == parts
  {
    if |parts| == 1 {
      SplitNone(parts[0], c);
    } else {
      SplitFirst(parts[0], c, Unsplit(parts[1..], c));
      SplitUnsplit(parts[1..], c);
    }
  }

  lemma {:induction false} UnsplitSplit(s: string, c: char)
    ensures Unsplit(Split(s, c), c) == s
    decreases |s|
  {
    var k := Index(s, c);
    if k < |s| {
      SplitCut(s, c);
      UnsplitSplit(s[k+1..], c);
      assert Split(s, c)[1..] == Split(s[k+1..], c);
    }
  }
}
