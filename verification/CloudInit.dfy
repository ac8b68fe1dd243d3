/** The multipart document that merges several cloud-config parts, and a reader of such
    documents after section 5.1.1 of RFC 2046, with LF line ends. */
module CloudInit {
  import opened Common
  import opened Text

  /** The fixed lines of a multipart document. */
  datatype Format = Format(delimiter: string, close: string, docType: string, version: string, partType: string)

  const BOUNDARY := "VIRTRIGAUD_CLOUD_" + "INIT_BOUNDARY"
  const TYPE_KEY := "Content-Type: "
  const MIXED := "multipart/mixed; " + "boundary="
  const CLOUD_CONFIG := "text/cloud-config; " + "charset="

  /** The lines the source prints. */
  const SOURCE := Format(
    "--" + BOUNDARY,
    "--" + BOUNDARY + "--",
    TYPE_KEY + MIXED + "\"" + BOUNDARY + "\"",
    "MIME-Version: 1.0",
    TYPE_KEY + CLOUD_CONFIG + "\"utf-8\"")

  // ---------- Writing ----------

  function Line(text: string, rest: string): string {
    text + "\n" + rest
  }

  function PartText(f: Format, part: string, rest: string): string {
    Line("", Line(f.delimiter, Line(f.partType, Line("", Line(part, rest)))))
  }

  function Body(f: Format, parts: seq<string>): string {
    if parts == [] then Line("", Line(f.close, "")) else PartText(f, parts[0], Body(f, parts[1..]))
  }

  function Merged(f: Format, parts: seq<string>): string {
    Line(f.docType, Line(f.version, Body(f, parts)))
  }

  lemma {:induction false} LineAppended(doc: string, text: string, rest: string)
    ensures doc + (text + "\n") + rest == doc + Line(text, rest)
  {
  }

  lemma {:induction false} PartAppended(f: Format, doc: string, part: string, rest: string)
    ensures doc + ("" + "\n") + (f.delimiter + "\n") + (f.partType + "\n") + ("" + "\n") + (part + "\n") + rest
         == doc + PartText(f, part, rest)
  {
    var d1 := doc + ("" + "\n");
    var d2 := d1 + (f.delimiter + "\n");
    var d3 := d2 + (f.partType + "\n");
    var d4 := d3 + ("" + "\n");
    LineAppended(d4, part, rest);
    LineAppended(d3, "", Line(part, rest));
    LineAppended(d2, f.partType, Line("", Line(part, rest)));
    LineAppended(d1, f.delimiter, Line(f.partType, Line("", Line(part, rest))));
    LineAppended(doc, "", Line(f.delimiter, Line(f.partType, Line("", Line(part, rest)))));
  }

  /** mergeCloudConfigParts: the parts are appended to a builder line by line. */
  method Merge(f: Format, parts: seq<string>) returns (doc: string)
    ensures doc == Merged(f, parts)
  {
    doc := "";
    LineAppended(doc, f.docType, Line(f.version, Body(f, parts)));
    LineAppended(doc + (f.docType + "\n"), f.version, Body(f, parts));
    doc := doc + (f.docType + "\n");
    doc := doc + (f.version + "\n");
    assert parts[0..] == parts;
    for i := 0 to |parts|
      invariant doc + Body(f, parts[i..]) == Merged(f, parts)
    {
      assert parts[i..][0] == parts[i] && parts[i..][1..] == parts[i+1..];
      PartAppended(f, doc, parts[i], Body(f, parts[i+1..]));
      doc := doc + ("" + "\n");
      doc := doc + (f.delimiter + "\n");
      doc := doc + (f.partType + "\n");
      doc := doc + ("" + "\n");
      doc := doc + (parts[i] + "\n");
    }
    LineAppended(doc, "", Line(f.close, ""));
    LineAppended(doc + ("" + "\n"), f.close, "");
    doc := doc + ("" + "\n");
    doc := doc + (f.close + "\n");
  }

  // ---------- Reading ----------

  /** A line that begins with the delimiter is a boundary, whatever follows on it. */
  predicate IsBoundary(f: Format, line: string) {
    f.delimiter <= line
  }

  predicate IsClose(f: Format, line: string) {
    f.close <= line
  }

  /** The index of the first boundary line, the number of lines if there is none. */
  function NextBoundary(f: Format, lines: seq<string>): (k: nat)
    ensures k <= |lines|
    ensures forall i :: 0 <= i < k ==> !IsBoundary(f, lines[i])
    ensures k < |lines| ==> IsBoundary(f, lines[k])
  {
    if lines == [] || IsBoundary(f, lines[0]) then 0 else NextBoundary(f, lines[1..]) + 1
  }

  /** What follows the first empty line of a body part, that is, its body. */
  function AfterHeader(lines: seq<string>): seq<string> {
    if lines == [] then [] else if lines[0] == "" then lines[1..] else AfterHeader(lines[1..])
  }

  /** The bodies of the parts, from a boundary line on; None if the text ends without a
      closing boundary. The newline before a boundary belongs to the boundary. */
  function Bodies(f: Format, lines: seq<string>): Option<seq<string>>
    decreases |lines|
  {
    if lines == [] then None
    else if IsClose(f, lines[0]) then Some([])
    else
      var rest := lines[1..];
      var j := NextBoundary(f, rest);
      var more := Bodies(f, rest[j..]);
      if more.None? then None else Some([Unsplit(AfterHeader(rest[..j]), '\n')] + more.value)
  }

  /** Text before the first boundary is ignored. */
  function Read(f: Format, doc: string): Option<seq<string>> {
    var lines := Split(doc, '\n');
    Bodies(f, lines[NextBoundary(f, lines)..])
  }

  const HEADER := TYPE_KEY + MIXED + "\""

  /** The boundary that a Content-Type line announces. */
  function Announced(line: string): Option<string> {
    if HEADER <= line && |HEADER| < |line| && line[|line|-1] == '\"' then Some(line[|HEADER|..|line|-1]) else None
  }

  /** The delimiter and closing lines that go with a boundary. */
  function Delimited(boundary: string): Format {
    SOURCE.(delimiter := "--" + boundary, close := "--" + boundary + "--")
  }

  /** A reader that takes the boundary from the first line of the document. */
  function ReadDocument(doc: string): Option<seq<string>> {
    var boundary := Announced(doc[..Index(doc, '\n')]);
    if boundary.None? then None else Read(Delimited(boundary.value), doc)
  }

  // ---------- Round trip ----------

  ghost predicate Clean(f: Format, part: string) {
    forall i :: 0 <= i < |Split(part, '\n')| ==> !IsBoundary(f, Split(part, '\n')[i])
  }

  ghost predicate AllClean(f: Format, parts: seq<string>) {
    forall i :: 0 <= i < |parts| ==> Clean(f, parts[i])
  }

  /** The parts as they come back: each followed by one newline. */
  function Ended(parts: seq<string>): seq<string> {
    if parts == [] then [] else [parts[0] + "\n"] + Ended(parts[1..])
  }

  /** What the round trip needs of the fixed lines. */
  ghost predicate Proper(f: Format) {
    && '\n' !in f.delimiter && '\n' !in f.close && '\n' !in f.docType && '\n' !in f.version && '\n' !in f.partType
    && f.delimiter <= f.close && !(f.close <= f.delimiter)
    && f.delimiter != "" && f.partType != ""
    && !(f.delimiter <= f.partType) && !(f.delimiter <= f.docType) && !(f.delimiter <= f.version)
  }

  lemma {:induction false} PiecesHaveNoNewlines()
    ensures '\n' !in BOUNDARY && '\n' !in TYPE_KEY && '\n' !in MIXED
  {
  }

  lemma {:induction false} CloudConfigHasNoNewline()
    ensures '\n' !in CLOUD_CONFIG
  {
  }

  lemma {:induction false} NoNewlineConcat(a: string, b: string)
    requires '\n' !in a && '\n' !in b
    ensures '\n' !in a + b
  {
  }

  lemma {:induction false} SourceHasNoNewlines()
    ensures '\n' !in SOURCE.delimiter && '\n' !in SOURCE.close && '\n' !in SOURCE.version
    ensures '\n' !in SOURCE.docType && '\n' !in SOURCE.partType
  {
    PiecesHaveNoNewlines();
    CloudConfigHasNoNewline();
    NoNewlineConcat("--", BOUNDARY);
    NoNewlineConcat("--" + BOUNDARY, "--");
    NoNewlineConcat(TYPE_KEY, MIXED);
    NoNewlineConcat(TYPE_KEY + MIXED, "\"");
    NoNewlineConcat(TYPE_KEY + MIXED + "\"", BOUNDARY);
    NoNewlineConcat(TYPE_KEY + MIXED + "\"" + BOUNDARY, "\"");
    NoNewlineConcat(TYPE_KEY, CLOUD_CONFIG);
    NoNewlineConcat(TYPE_KEY + CLOUD_CONFIG, "\"utf-8\"");
  }

  lemma {:induction false} SourceIsProper()
    ensures Proper(SOURCE)
  {
    SourceHasNoNewlines();
    assert SOURCE.delimiter[0] == '-' && SOURCE.partType[0] == 'C' && SOURCE.docType[0] == 'C' && SOURCE.version[0] == 'M';
  }

  /** The lines of a merged document from its first boundary on. */
  function BoundaryLines(f: Format, parts: seq<string>): seq<string> {
    if parts == [] then [f.close] + [""]
    else [f.delimiter] + ([f.partType] + ([""] + (Split(parts[0], '\n') + ([""] + BoundaryLines(f, parts[1..])))))
  }

  lemma {:induction false} PartLines(f: Format, part: string, rest: string)
    requires Proper(f)
    ensures Split(PartText(f, part, rest), '\n')
         == [""] + ([f.delimiter] + ([f.partType] + ([""] + (Split(part, '\n') + Split(rest, '\n')))))
  {
    var l1 := Line(part, rest);
    var l2 := Line("", l1);
    var l3 := Line(f.partType, l2);
    var l4 := Line(f.delimiter, l3);
    SplitConcat(part, '\n', rest);
    SplitFirst("", '\n', l1);
    SplitFirst(f.partType, '\n', l2);
    SplitFirst(f.delimiter, '\n', l3);
    SplitFirst("", '\n', l4);
  }

  lemma {:induction false} BodyLines(f: Format, parts: seq<string>)
    requires Proper(f)
    ensures Split(Body(f, parts), '\n') == [""] + BoundaryLines(f, parts)
  {
    if parts == [] {
      SplitFirst("", '\n', Line(f.close, ""));
      SplitFirst(f.close, '\n', "");
      SplitNone("", '\n');
    } else {
      BodyLines(f, parts[1..]);
      PartLines(f, parts[0], Body(f, parts[1..]));
    }
  }

  lemma {:induction false} DocumentLines(f: Format, parts: seq<string>)
    requires Proper(f)
    ensures Split(Merged(f, parts), '\n') == [f.docType] + ([f.version] + ([""] + BoundaryLines(f, parts)))
  {
    var body := Body(f, parts);
    BodyLines(f, parts);
    SplitFirst(f.version, '\n', body);
    SplitFirst(f.docType, '\n', Line(f.version, body));
  }

  lemma {:induction false} NextAfter(f: Format, before: seq<string>, lines: seq<string>)
    requires forall i :: 0 <= i < |before| ==> !IsBoundary(f, before[i])
    ensures NextBoundary(f, before + lines) == |before| + NextBoundary(f, lines)
  {
    if before == [] {
      assert before + lines == lines;
    } else {
      assert (before + lines)[1..] == before[1..] + lines;
      NextAfter(f, before[1..], lines);
    }
  }

  lemma {:induction false} BoundaryStep(f: Format, rest: seq<string>)
    requires Proper(f)
    ensures var more := Bodies(f, rest[NextBoundary(f, rest)..]);
            Bodies(f, [f.delimiter] + rest)
            == if more.None? then None else Some([Unsplit(AfterHeader(rest[..NextBoundary(f, rest)]), '\n')] + more.value)
  {
    assert ([f.delimiter] + rest)[0] == f.delimiter && ([f.delimiter] + rest)[1..] == rest;
  }

  lemma {:induction false} HeaderLines(f: Format, lines: seq<string>, j: nat)
    requires j <= |lines|
    ensures var rest := [f.partType] + ([""] + lines);
            && rest == [f.partType, ""] + lines
            && rest[j+2..] == lines[j..]
            && rest[..j+2] == [f.partType] + ([""] + lines[..j])
  {
  }

  lemma {:induction false} Headed(f: Format, lines: seq<string>, j: nat)
    requires Proper(f) && j <= |lines|
    ensures var rest := [f.partType] + ([""] + lines);
            && NextBoundary(f, rest) == NextBoundary(f, lines) + 2
            && rest[j+2..] == lines[j..]
            && rest[..j+2] == [f.partType] + ([""] + lines[..j])
  {
    HeaderLines(f, lines, j);
    NextAfter(f, [f.partType, ""], lines);
  }

  lemma {:induction false} HeaderSkipped(f: Format, lines: seq<string>)
    requires Proper(f)
    ensures AfterHeader([f.partType] + ([""] + lines)) == lines
  {
    var rest := [""] + lines;
    assert ([f.partType] + rest)[0] == f.partType && ([f.partType] + rest)[1..] == rest;
    assert rest[0] == "" && rest[1..] == lines;
  }

  /** One part with the printed header: its body are the lines up to the next boundary. */
  lemma {:induction false} OnePart(f: Format, lines: seq<string>)
    requires Proper(f)
    ensures var more := Bodies(f, lines[NextBoundary(f, lines)..]);
            Bodies(f, [f.delimiter] + ([f.partType] + ([""] + lines)))
            == if more.None? then None else Some([Unsplit(lines[..NextBoundary(f, lines)], '\n')] + more.value)
  {
    var j := NextBoundary(f, lines);
    var rest := [f.partType] + ([""] + lines);
    Headed(f, lines, j);
    assert NextBoundary(f, rest) == j + 2;
    assert Bodies(f, rest[NextBoundary(f, rest)..]) == Bodies(f, lines[j..]);
    assert AfterHeader(rest[..NextBoundary(f, rest)]) == lines[..j] by {
      HeaderSkipped(f, lines[..j]);
    }
    BoundaryStep(f, rest);
  }

  lemma {:induction false} EndedPart(part: string)
    ensures Unsplit(Split(part, '\n') + [""], '\n') == part + "\n"
    ensures Split(part + "\n", '\n') == Split(part, '\n') + [""]
  {
    SplitConcat(part, '\n', "");
    SplitNone("", '\n');
    assert part + "\n" + "" == part + "\n";
    UnsplitSplit(part + "\n", '\n');
  }

  /** The body read for a part that contains a boundary line is cut short. */
  lemma {:induction false} CutShort(part: string, i: nat)
    requires i < |Split(part, '\n')|
    ensures Unsplit(Split(part, '\n')[..i], '\n') != part + "\n"
  {
    EndedPart(part);
    SplitIsFree(part, '\n');
    if i > 0 {
      SplitUnsplit(Split(part, '\n')[..i], '\n');
    }
  }

  lemma {:induction false} ReadCleanPart(f: Format, part: string, parts: seq<string>)
    requires Proper(f) && Clean(f, part)
    ensures var more := Bodies(f, BoundaryLines(f, parts));
            Bodies(f, BoundaryLines(f, [part] + parts)) == if more.None? then None else Some([part + "\n"] + more.value)
  {
    var body := Split(part, '\n') + [""];
    var tail := BoundaryLines(f, parts);
    var lines := Split(part, '\n') + ([""] + tail);
    assert lines == body + tail;
    NextAfter(f, body, tail);
    assert ([part] + parts)[1..] == parts;
    assert lines[|body|..] == tail && lines[..|body|] == body;
    OnePart(f, lines);
    EndedPart(part);
  }

  lemma {:induction false} ReadUncleanPart(f: Format, part: string, parts: seq<string>)
    requires Proper(f) && !Clean(f, part)
    ensures var all := Bodies(f, BoundaryLines(f, [part] + parts));
            all.Some? ==> all.value != [] && all.value[0] != part + "\n"
  {
    var own := Split(part, '\n');
    var rest := [""] + BoundaryLines(f, parts);
    var i := NextBoundary(f, own);
    assert i < |own|;
    assert own[..i] + (own[i..] + rest) == own + rest;
    NextAfter(f, own[..i], own[i..] + rest);
    assert (own[i..] + rest)[0] == own[i];
    assert ([part] + parts)[1..] == parts;
    OnePart(f, own + rest);
    assert (own + rest)[..i] == own[..i];
    CutShort(part, i);
  }

  lemma {:induction false} BodiesIff(f: Format, parts: seq<string>)
    requires Proper(f)
    ensures Bodies(f, BoundaryLines(f, parts)) == Some(Ended(parts)) <==> AllClean(f, parts)
  {
    if parts != [] {
      var part, more := parts[0], parts[1..];
      assert parts == [part] + more;
      BodiesIff(f, more);
      if Clean(f, part) {
        ReadCleanPart(f, part, more);
        assert AllClean(f, parts) <==> AllClean(f, more) by {
          assert forall i :: 0 <= i < |more| ==> parts[i+1] == more[i];
        }
        if Bodies(f, BoundaryLines(f, more)).Some? {
          assert ([part + "\n"] + Bodies(f, BoundaryLines(f, more)).value)[1..] == Bodies(f, BoundaryLines(f, more)).value;
          assert Ended(parts)[1..] == Ended(more);
        }
      } else {
        ReadUncleanPart(f, part, more);
        assert Ended(parts)[0] == part + "\n";
      }
    }
  }

  lemma {:induction false} Preamble(f: Format, lines: seq<string>)
    requires Proper(f) && NextBoundary(f, lines) == 0
    ensures var all := [f.docType] + ([f.version] + ([""] + lines));
            all[NextBoundary(f, all)..] == lines
  {
    var top := [f.docType, f.version, ""];
    assert [f.docType] + ([f.version] + ([""] + lines)) == top + lines;
    NextAfter(f, top, lines);
  }

  /** Reading a merged document gives back the parts in order, each followed by one newline,
      if and only if no part has a line that begins with the boundary delimiter. */
  lemma {:induction false} MergeRoundTripIff(f: Format, parts: seq<string>)
    requires Proper(f)
    ensures Read(f, Merged(f, parts)) == Some(Ended(parts)) <==> AllClean(f, parts)
  {
    DocumentLines(f, parts);
    Preamble(f, BoundaryLines(f, parts));
    BodiesIff(f, parts);
  }

  lemma {:induction false} EndedInjective(a: seq<string>, b: seq<string>)
    requires Ended(a) == Ended(b)
    ensures a == b
  {
    if a != [] && b != [] {
      assert Ended(a)[1..] == Ended(a[1..]) && Ended(b)[1..] == Ended(b[1..]);
      EndedInjective(a[1..], b[1..]);
      assert Ended(a)[0] == a[0] + "\n" && Ended(b)[0] == b[0] + "\n";
      assert (a[0] + "\n")[..|a[0]|] == a[0] && (b[0] + "\n")[..|b[0]|] == b[0];
      assert a == [a[0]] + a[1..] && b == [b[0]] + b[1..];
    }
  }

  lemma {:induction false} AnnouncedIn(header: string, boundary: string)
    ensures var line := header + boundary + "\"";
            header <= line && line[|line|-1] == '\"' && line[|header|..|line|-1] == boundary
  {
  }

  /** The first line of a merged document announces the boundary its parts are set off by. */
  lemma {:induction false} HeaderAnnounces(parts: seq<string>)
    ensures var doc := Merged(SOURCE, parts);
            doc[..Index(doc, '\n')] == SOURCE.docType && Announced(SOURCE.docType) == Some(BOUNDARY)
  {
    AnnouncedIn(HEADER, BOUNDARY);
    SourceHasNoNewlines();
    IndexAt(SOURCE.docType, '\n', Line(SOURCE.version, Body(SOURCE, parts)));
  }

  /** The media type of each part, as the first header line of the part gives it. */
  function Types(f: Format, lines: seq<string>): seq<string>
    decreases |lines|
  {
    if lines == [] || IsClose(f, lines[0]) || |lines| == 1 then []
    else
      var rest := lines[1..];
      [rest[0]] + Types(f, rest[NextBoundary(f, rest)..])
  }

  lemma {:induction false} TypesStep(f: Format, part: string, parts: seq<string>)
    requires Proper(f) && Clean(f, part)
    ensures Types(f, BoundaryLines(f, [part] + parts)) == [f.partType] + Types(f, BoundaryLines(f, parts))
  {
    var body := Split(part, '\n') + [""];
    var tail := BoundaryLines(f, parts);
    var lines := Split(part, '\n') + ([""] + tail);
    assert ([part] + parts)[1..] == parts;
    assert lines == body + tail;
    NextAfter(f, body, tail);
    assert lines[|body|..] == tail;
    Headed(f, lines, |body|);
    var rest := [f.partType] + ([""] + lines);
    assert ([f.delimiter] + rest)[1..] == rest && rest[0] == f.partType;
    assert rest[NextBoundary(f, rest)..] == tail;
  }

  lemma {:induction false} PartTypes(f: Format, parts: seq<string>)
    requires Proper(f) && AllClean(f, parts)
    ensures var types := Types(f, BoundaryLines(f, parts));
            |types| == |parts| && forall i :: 0 <= i < |types| ==> types[i] == f.partType
  {
    if parts != [] {
      assert parts == [parts[0]] + parts[1..];
      assert forall i :: 0 <= i < |parts[1..]| ==> parts[1..][i] == parts[i+1];
      PartTypes(f, parts[1..]);
      TypesStep(f, parts[0], parts[1..]);
    }
  }

  /** Every part of a merged document is announced as cloud-config text in UTF-8. */
  lemma {:induction false} PartsAreCloudConfig(parts: seq<string>)
    requires AllClean(SOURCE, parts)
    ensures var types := Types(SOURCE, BoundaryLines(SOURCE, parts));
            |types| == |parts|
            && forall i :: 0 <= i < |types| ==> types[i] == "Content-Type: " + ("text/cloud-config; " + "charset=") + "\"utf-8\""
  {
    SourceIsProper();
    PartTypes(SOURCE, parts);
  }

  /** A reader that knows nothing but the document gives back the parts in order, each
      followed by one newline, if and only if no part has a line that begins with the
      boundary delimiter. */
  lemma {:induction false} DocumentRoundTripIff(parts: seq<string>)
    ensures ReadDocument(Merged(SOURCE, parts)) == Some(Ended(parts)) <==> AllClean(SOURCE, parts)
  {
    HeaderAnnounces(parts);
    SourceIsProper();
    MergeRoundTripIff(SOURCE, parts);
    assert Delimited(BOUNDARY) == SOURCE;
  }

  /** So merging loses nothing of clean parts. */
  lemma {:induction false} MergeInjective(a: seq<string>, b: seq<string>)
    requires AllClean(SOURCE, a) && AllClean(SOURCE, b) && Merged(SOURCE, a) == Merged(SOURCE, b)
    ensures a == b
  {
    SourceIsProper();
    MergeRoundTripIff(SOURCE, a);
    MergeRoundTripIff(SOURCE, b);
    EndedInjective(a, b);
  }

  // ---------- Resolving user data ----------

  /** resolveCloudInitUserData: inline content if not empty, then the secret if one is
      referenced; its lookup may fail. */
  method ResolveUserData(inlineData: string, secret: Option<Result<string>>) returns (r: Result<string>)
    ensures r.Err? <==> secret == Some(Err)
    ensures secret.None? ==> r == Ok(inlineData)
    ensures inlineData == "" && r.Ok? && secret.Some? ==> r == secret.value
    ensures inlineData != "" && r.Ok? && secret.Some? ==>
              var parts := [inlineData, secret.value.value];
              && r == Ok(Merged(SOURCE, parts))
              && (ReadDocument(r.value) == Some(Ended(parts)) <==> AllClean(SOURCE, parts))
  {
    var parts: seq<string> := [];
    if inlineData != "" {
      parts := parts + [inlineData];
    }
    if secret.Some? {
      if secret.value.Err? {
        return Err;
      }
      parts := parts + [secret.value.value];
    }
    if |parts| == 0 {
      return Ok("");
    }
    if |parts| == 1 {
      return Ok(parts[0]);
    }
    var doc := Merge(SOURCE, parts);
    DocumentRoundTripIff(parts);
    r := Ok(doc);
  }
}
