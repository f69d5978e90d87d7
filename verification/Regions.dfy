/** Rewriting marked regions of a source file: splicing at byte positions does what a line
    editor would (cmd/kumacore/internal/initcmd/write.go, render.go). */
module Regions {
  import opened Wrappers
  import opened Text

  datatype RegionError = MissingMarker(marker: string) | DuplicateMarker(marker: string) | InvalidOrder(marker: string)

  /** Where the one marker stands. */
  function MarkerIndex(source: string, marker: string): (index: Result<nat, RegionError>)
    requires marker != ""
    ensures index.Ok? ==> index.value + |marker| <= |source|
  {
    var index := Index(source, marker);
    if index == -1 then Err(MissingMarker(marker))
    else if Index(source[index + |marker|..], marker) != -1 then Err(DuplicateMarker(marker))
    else Ok(index)
  }

  /** `replaceMarkedRegion`. */
  function ReplaceMarkedRegion(source: string, begin: string, end: string, content: string)
    : Result<string, RegionError>
    requires begin != "" && end != ""
  {
    match MarkerIndex(source, begin)
    case Err(e) => Err(e)
    case Ok(beginIndex) =>
      match MarkerIndex(source, end)
      case Err(e) => Err(e)
      case Ok(endIndex) =>
        if endIndex < beginIndex then Err(InvalidOrder(begin))
        else Ok(source[..beginIndex + |begin|] + "\n" + content + source[endIndex..])
  }

  /** The marker occurs in the text, and not again after its first occurrence. */
  predicate HoldsOnce(text: string, m: string) {
    Contains(text, m) && !Contains(text[Index(text, m) + |m|..], m)
  }

  /** The marker first occurs at `i`, and any other occurrence overlaps that one. */
  ghost predicate SoleAt(source: string, marker: string, i: int) {
    && OccursAt(source, marker, i)
    && (forall k :: OccursAt(source, marker, k) ==> i <= k < i + |marker|)
  }

  lemma SoleOccurrence(source: string, marker: string)
    requires marker != "" && Contains(source, marker)
    ensures HoldsOnce(source, marker) <==> SoleAt(source, marker, Index(source, marker))
  {
    var n := Index(source, marker) + |marker|;
    if Contains(source[n..], marker) {
      FoundAfter(source, n, marker);
    } else {
      NoneAfter(source, n, marker);
    }
  }

  lemma FoundAfter(source: string, n: nat, m: string)
    requires n <= |source| && Contains(source[n..], m)
    ensures exists k :: n <= k && OccursAt(source, m, k)
  {
    var k := n + Index(source[n..], m);
    OccursAfter(source, n, m, k);
  }

  lemma NoneAfter(source: string, n: nat, m: string)
    requires n <= |source| && !Contains(source[n..], m)
    ensures forall k :: OccursAt(source, m, k) ==> k < n
  {
    forall k | OccursAt(source, m, k) && n <= k
      ensures false
    {
      OccursAfter(source, n, m, k);
    }
  }

  /** An occurrence past a place is one in the text from that place. */
  lemma OccursAfter(source: string, n: nat, m: string, k: nat)
    requires n <= |source| && n <= k
    ensures OccursAt(source, m, k) <==> OccursAt(source[n..], m, k - n)
  {
    if k + |m| <= |source| {
      assert source[k..k + |m|] == source[n..][k - n..k - n + |m|];
    }
  }

  lemma SoleIsFound(source: string, marker: string, i: int)
    requires marker != "" && SoleAt(source, marker, i)
    ensures Index(source, marker) == i && HoldsOnce(source, marker)
  {
    SoleOccurrence(source, marker);
  }

  lemma ReplacementNeedsBoth(source: string, begin: string, end: string, content: string)
    requires begin != "" && end != ""
    ensures ReplaceMarkedRegion(source, begin, end, content).Ok? <==>
      HoldsOnce(source, begin) && HoldsOnce(source, end) && Index(source, begin) <= Index(source, end)
  {
  }

  /** The splice succeeds exactly when each marker stands in one place, the end marker not
      before the begin marker. */
  lemma ReplacementSucceedsExactly(source: string, begin: string, end: string, content: string)
    requires begin != "" && end != ""
    ensures ReplaceMarkedRegion(source, begin, end, content).Ok? <==>
      exists i, j :: SoleAt(source, begin, i) && SoleAt(source, end, j) && i <= j
  {
    ReplacementNeedsBoth(source, begin, end, content);
    SpansAreSole(source, begin, end);
  }

  lemma SpansAreSole(source: string, begin: string, end: string)
    requires begin != "" && end != ""
    ensures HoldsOnce(source, begin) && HoldsOnce(source, end) && Index(source, begin) <= Index(source, end) <==>
      exists i, j :: SoleAt(source, begin, i) && SoleAt(source, end, j) && i <= j
  {
    if HoldsOnce(source, begin) && HoldsOnce(source, end) {
      SoleOccurrence(source, begin);
      SoleOccurrence(source, end);
    }
    if i, j :| SoleAt(source, begin, i) && SoleAt(source, end, j) && i <= j {
      SoleIsFound(source, begin, i);
      SoleIsFound(source, end, j);
    }
  }

  ghost predicate Occurs(source: string, marker: string) {
    exists k :: OccursAt(source, marker, k)
  }

  /** All occurrences of the marker overlap the first. */
  ghost predicate Sole(source: string, marker: string) {
    exists i :: SoleAt(source, marker, i)
  }

  lemma MarkerIndexExactly(source: string, marker: string)
    requires marker != ""
    ensures var found := MarkerIndex(source, marker);
      && (found == Err(MissingMarker(marker)) <==> !Occurs(source, marker))
      && (found == Err(DuplicateMarker(marker)) <==> Occurs(source, marker) && !Sole(source, marker))
      && (found.Ok? <==> Sole(source, marker))
      && (found.Ok? ==> SoleAt(source, marker, found.value))
  {
    if Contains(source, marker) {
      SoleOccurrence(source, marker);
      assert Occurs(source, marker);
    }
    if i :| SoleAt(source, marker, i) {
      SoleIsFound(source, marker, i);
    }
  }

  /** Which error, in the order of the checks. */
  lemma ReplacementFailsExactly(source: string, begin: string, end: string, content: string)
    requires begin != "" && end != ""
    ensures var result := ReplaceMarkedRegion(source, begin, end, content);
      if !Occurs(source, begin) then result == Err(MissingMarker(begin))
      else if !Sole(source, begin) then result == Err(DuplicateMarker(begin))
      else if !Occurs(source, end) then result == Err(MissingMarker(end))
      else if !Sole(source, end) then result == Err(DuplicateMarker(end))
      else result.Ok? || result == Err(InvalidOrder(begin))
  {
    MarkerIndexExactly(source, begin);
    MarkerIndexExactly(source, end);
  }

  lemma SoleIsIndex(source: string, marker: string, i: int)
    requires marker != "" && SoleAt(source, marker, i)
    ensures MarkerIndex(source, marker) == Ok(i)
  {
    SoleIsFound(source, marker, i);
  }

  /** What the splice gives when each marker stands in one place. */
  lemma ReplacementAt(source: string, begin: string, end: string, content: string, i: int, j: int)
    requires begin != "" && end != "" && SoleAt(source, begin, i) && SoleAt(source, end, j)
    ensures ReplaceMarkedRegion(source, begin, end, content) ==
      if j < i then Err(InvalidOrder(begin)) else Ok(source[..i + |begin|] + "\n" + content + source[j..])
  {
    SoleIsIndex(source, begin, i);
    SoleIsIndex(source, end, j);
  }

  predicate IsMarkerLine(line: string) {
    HasPrefix(TrimSpace(line), "// kumacore:begin ") || HasPrefix(TrimSpace(line), "// kumacore:end ")
  }

  function DropMarkers(lines: seq<string>): seq<string> {
    if lines == [] then []
    else
      var n := |lines| - 1;
      DropMarkers(lines[..n]) + (if IsMarkerLine(lines[n]) then [] else [lines[n]])
  }

  lemma {:induction false} DropMarkersConcat(a: seq<string>, b: seq<string>)
    ensures DropMarkers(a + b) == DropMarkers(a) + DropMarkers(b)
    decreases |b|
  {
    if b == [] {
      assert a + b == a;
    } else {
      var n := |b| - 1;
      assert (a + b)[..|a + b| - 1] == a + b[..n];
      DropMarkersConcat(a, b[..n]);
    }
  }

  /** A marker line is white space, the marker's lead, and some text. */
  lemma MarkerLineExactly(line: string)
    ensures IsMarkerLine(line) <==> LedBy(line, "// kumacore:begin ") || LedBy(line, "// kumacore:end ")
  {
    if HasPrefix(TrimSpace(line), "// kumacore:begin ") {
      LedFromTrimmed(line, "// kumacore:begin ");
    }
    if HasPrefix(TrimSpace(line), "// kumacore:end ") {
      LedFromTrimmed(line, "// kumacore:end ");
    }
    if LedBy(line, "// kumacore:begin ") {
      TrimmedFromLed(line, "// kumacore:begin ");
    }
    if LedBy(line, "// kumacore:end ") {
      TrimmedFromLed(line, "// kumacore:end ");
    }
  }

  /** Each line goes or stays by itself: the marker lines go, and the others keep their order. */
  lemma {:induction false} DropMarkersExactly(a: seq<string>, line: string, b: seq<string>)
    ensures DropMarkers([]) == []
    ensures DropMarkers(a + [line] + b) == DropMarkers(a)
      + (if LedBy(line, "// kumacore:begin ") || LedBy(line, "// kumacore:end ") then [] else [line])
      + DropMarkers(b)
  {
    MarkerLineExactly(line);
    DropMarkersConcat(a + [line], b);
    DropMarkersConcat(a, [line]);
    assert [line][..0] == [];
    assert DropMarkers([line]) == if IsMarkerLine(line) then [] else [line];
  }

  method StripScaffoldMarkers(source: string) returns (stripped: string)
    ensures stripped == Join(DropMarkers(Split(source)))
  {
    var lines := Split(source);
    var filtered: seq<string> := [];
    for i := 0 to |lines|
      invariant filtered == DropMarkers(lines[..i])
    {
      assert lines[..i + 1][..i] == lines[..i];
      if IsMarkerLine(lines[i]) {
        continue;
      }
      filtered := filtered + [lines[i]];
    }
    assert lines[..|lines|] == lines;
    stripped := Join(filtered);
  }

  /** `joinSectionLines`: empty, or ending in a newline. */
  function JoinSectionLines(lines: seq<string>): string {
    if lines == [] then "" else Join(lines) + "\n"
  }

  lemma {:induction false} SectionLinesAreTerminated(lines: seq<string>)
    ensures JoinSectionLines(lines) == Unlines(lines)
    decreases |lines|
  {
    if |lines| > 1 {
      SectionLinesAreTerminated(lines[1..]);
    } else if |lines| == 1 {
      assert lines[1..] == [];
    }
  }

  /** One region to rewrite. */
  datatype Section = Section(begin: string, end: string, content: seq<string>)

  /** The replacements in order. */
  function ReplaceAll(source: string, sections: seq<Section>): Result<string, RegionError>
    requires forall i :: 0 <= i < |sections| ==> sections[i].begin != "" && sections[i].end != ""
  {
    if sections == [] then Ok(source)
    else
      var n := |sections| - 1;
      match ReplaceAll(source, sections[..n])
      case Err(e) => Err(e)
      case Ok(text) =>
        ReplaceMarkedRegion(text, sections[n].begin, sections[n].end, JoinSectionLines(sections[n].content))
  }

  lemma {:induction false} ErrorStays(source: string, sections: seq<Section>, n: nat)
    requires forall i :: 0 <= i < |sections| ==> sections[i].begin != "" && sections[i].end != ""
    requires n <= |sections| && ReplaceAll(source, sections[..n]).Err?
    ensures ReplaceAll(source, sections) == ReplaceAll(source, sections[..n])
    decreases |sections| - n
  {
    if n == |sections| {
      assert sections[..n] == sections;
    } else {
      assert sections[..n + 1][..n] == sections[..n];
      ErrorStays(source, sections, n + 1);
    }
  }

  /** All regions replaced, then the marker lines dropped. */
  function Rewritten(source: string, sections: seq<Section>): Result<string, RegionError>
    requires forall i :: 0 <= i < |sections| ==> sections[i].begin != "" && sections[i].end != ""
  {
    match ReplaceAll(source, sections)
    case Err(e) => Err(e)
    case Ok(text) => Ok(Join(DropMarkers(Split(text))))
  }

  /** `rewriteMarkedSource`; `rename` is the final pass over import paths. */
  method RewriteMarkedSource(source: string, sections: seq<Section>, rename: string -> string)
    returns (result: Result<string, RegionError>)
    requires forall i :: 0 <= i < |sections| ==> sections[i].begin != "" && sections[i].end != ""
    ensures result ==
      match Rewritten(source, sections)
      case Err(e) => Err(e)
      case Ok(text) => Ok(rename(text))
  {
    var text := source;
    for i := 0 to |sections|
      invariant ReplaceAll(source, sections[..i]) == Ok(text)
    {
      var section := sections[i];
      assert sections[..i + 1][..i] == sections[..i];
      var next := ReplaceMarkedRegion(text, section.begin, section.end, JoinSectionLines(section.content));
      if next.Err? {
        ErrorStays(source, sections, i + 1);
        return Err(next.error);
      }
      text := next.value;
    }
    assert sections[..|sections|] == sections;
    text := StripScaffoldMarkers(text);
    result := Ok(rename(text));
  }

  // ---------- one region, as lines ----------

  function UpTo(line: string, m: string): string
    requires Contains(line, m)
  {
    line[..Index(line, m) + |m|]
  }

  function From(line: string, m: string): string
    requires Contains(line, m)
  {
    line[Index(line, m)..]
  }

  /** Line `line` of a document is the only one with the marker. */
  predicate OnlyHere(a: seq<string>, line: string, b: seq<string>, m: string) {
    NoneContains(a, m) && HoldsOnce(line, m) && NoneContains(b, m)
  }

  /** What follows a line in a joined document. */
  function Following(b: seq<string>): string {
    if b == [] then "" else "\n" + Join(b)
  }

  lemma JoinHead(line: string, b: seq<string>)
    ensures Join([line] + b) == line + Following(b)
  {
    if b == [] {
      assert [line] + b == [line];
    } else {
      assert ([line] + b)[1..] == b;
    }
  }

  lemma FollowingContainsNone(after: string, b: seq<string>, m: string)
    requires OneLine(after) && AllOneLine(b) && OneLine(m) && m != ""
    requires !Contains(after, m) && NoneContains(b, m)
    ensures !Contains(after + Following(b), m)
  {
    if b == [] {
      assert after + Following(b) == after;
    } else {
      JoinContainsNone(b, m);
      IndexSkipsLine(after, Join(b), m);
      assert after + Following(b) == after + "\n" + Join(b);
    }
  }

  /** Cutting a text at a place inside the middle one of its three parts. */
  lemma CutAt(source: string, before: string, line: string, after: string, i: nat, k: nat, n: nat)
    requires source == before + line + after && i == |before| + k && k + n <= |line|
    ensures i + n <= |source|
    ensures source[..i + n] == before + line[..k + n]
    ensures source[i..] == line[k..] + after
    ensures source[i + n..] == line[k + n..] + after
  {
    TailAt(source, before, line, after, k);
    TailAt(source, before, line, after, k + n);
    assert source[..i + n] == before + line[..k + n];
  }

  lemma TailAt(source: string, before: string, line: string, after: string, k: nat)
    requires source == before + line + after && k <= |line|
    ensures source[|before| + k..] == line[k..] + after
  {
  }

  /** The marker stands at `k` in the middle one of three parts, and not in what follows. */
  lemma MarkerInText(source: string, before: string, line: string, after: string, m: string, i: nat, k: nat)
    requires source == before + line + after && i == |before| + k && k + |m| <= |line|
    requires !Contains(line[k + |m|..] + after, m)
    ensures i + |m| <= |source| && !Contains(source[i + |m|..], m)
    ensures source[..i + |m|] == before + line[..k + |m|]
    ensures source[i..] == line[k..] + after
  {
    CutAt(source, before, line, after, i, k, |m|);
    SameText(source[i + |m|..], line[k + |m|..] + after, m);
  }

  lemma SameText(a: string, b: string, m: string)
    requires a == b
    ensures Contains(a, m) <==> Contains(b, m)
  {
  }

  lemma IndexFits(s: string, m: string)
    requires Contains(s, m)
    ensures Index(s, m) + |m| <= |s|
  {
    assert OccursAt(s, m, Index(s, m));
  }

  lemma MarkerInLine(source: string, before: string, line: string, after: string, m: string, i: nat)
    requires source == before + line + after && Contains(line, m) && i == |before| + Index(line, m)
    requires Index(line, m) + |m| <= |line| && !Contains(line[Index(line, m) + |m|..] + after, m)
    ensures i + |m| <= |source| && !Contains(source[i + |m|..], m)
    ensures source[..i + |m|] == before + UpTo(line, m)
    ensures source[i..] == From(line, m) + after
  {
    MarkerInText(source, before, line, after, m, i, Index(line, m));
  }

  lemma LineInText(a: seq<string>, line: string, b: seq<string>, m: string, source: string)
    requires AllOneLine(a) && OneLine(line) && AllOneLine(b) && OneLine(m) && m != "" && OnlyHere(a, line, b, m)
    requires source == Join(a + [line] + b)
    ensures source == Unlines(a) + line + Following(b)
    ensures Index(source, m) == |Unlines(a)| + Index(line, m)
    ensures Index(line, m) + |m| <= |line| && !Contains(line[Index(line, m) + |m|..] + Following(b), m)
  {
    IndexInDocument(a, line, b, m);
    JoinHead(line, b);
    IndexFits(line, m);
    FollowingContainsNone(line[Index(line, m) + |m|..], b, m);
    assert Unlines(a) + (line + Following(b)) == Unlines(a) + line + Following(b);
  }

  /** The search for a marker finds it in its line, and the search after it finds no other. */
  lemma MarkerFound(a: seq<string>, line: string, b: seq<string>, m: string, source: string) returns (i: nat)
    requires AllOneLine(a) && OneLine(line) && AllOneLine(b) && OneLine(m) && m != "" && OnlyHere(a, line, b, m)
    requires source == Join(a + [line] + b)
    ensures source == Unlines(a) + line + Following(b)
    ensures i == Index(source, m) == |Unlines(a)| + Index(line, m) && i + |m| <= |source|
    ensures !Contains(source[i + |m|..], m)
    ensures source[..i + |m|] == Unlines(a) + UpTo(line, m)
    ensures source[i..] == From(line, m) + Following(b)
  {
    LineInText(a, line, b, m, source);
    i := Index(source, m);
    MarkerInLine(source, Unlines(a), line, Following(b), m, i);
  }

  lemma UnlinesThree(a: seq<string>, line: string, c: seq<string>)
    ensures Unlines(a + [line] + c) == Unlines(a) + line + "\n" + Unlines(c)
  {
    UnlinesAppend(a + [line], c);
    UnlinesAppend(a, [line]);
    assert [line][1..] == [];
    assert Unlines([line]) == line + "\n";
  }

  lemma MarkerIsAt(source: string, m: string, i: nat)
    requires m != "" && i == Index(source, m) && i + |m| <= |source| && !Contains(source[i + |m|..], m)
    ensures MarkerIndex(source, m) == Ok(i)
  {
  }

  lemma SpliceResult(
    source: string, begin: string, end: string, content: string, i: nat, j: nat, first: string, last: string)
    requires begin != "" && end != ""
    requires i == Index(source, begin) && i + |begin| <= |source| && !Contains(source[i + |begin|..], begin)
    requires j == Index(source, end) && j + |end| <= |source| && !Contains(source[j + |end|..], end)
    requires i <= j && source[..i + |begin|] == first && source[j..] == last
    ensures ReplaceMarkedRegion(source, begin, end, content) == Ok(first + "\n" + content + last)
  {
    MarkerIsAt(source, begin, i);
    MarkerIsAt(source, end, j);
  }

  lemma JoinedRegion(a: seq<string>, open: string, body: seq<string>, close: string, b: seq<string>)
    ensures Join(a + [open] + body + [close] + b)
      == Unlines(a) + open + "\n" + Unlines(body) + (close + Following(b))
  {
    assert (a + [open] + body) + ([close] + b) == a + [open] + body + [close] + b;
    JoinAppend(a + [open] + body, [close] + b);
    UnlinesThree(a, open, body);
    JoinHead(close, b);
  }

  /** Both markers of a region, in its text. */
  lemma MarkersFound(
    a: seq<string>, open: string, body: seq<string>, close: string, b: seq<string>,
    begin: string, end: string, source: string) returns (i: nat, j: nat)
    requires AllOneLine(a) && OneLine(open) && AllOneLine(body) && OneLine(close) && AllOneLine(b)
    requires OneLine(begin) && OneLine(end) && begin != "" && end != ""
    requires OnlyHere(a, open, body + [close] + b, begin)
    requires OnlyHere(a + [open] + body, close, b, end)
    requires source == Join(a + [open] + body + [close] + b)
    ensures i == Index(source, begin) && i + |begin| <= |source| && !Contains(source[i + |begin|..], begin)
    ensures j == Index(source, end) && j + |end| <= |source| && !Contains(source[j + |end|..], end)
    ensures i <= j && source[..i + |begin|] == Unlines(a) + UpTo(open, begin)
    ensures source[j..] == From(close, end) + Following(b)
  {
    var rest := body + [close] + b;
    assert a + [open] + rest == a + [open] + body + [close] + b;
    assert AllOneLine(rest) && AllOneLine(a + [open] + body);
    i := MarkerFound(a, open, rest, begin, source);
    j := MarkerFound(a + [open] + body, close, b, end, source);
    UnlinesThree(a, open, body);
  }

  /** The splice keeps the lines before the region, cuts its first line after the begin
      marker and its last before the end marker, and puts the content between them. */
  lemma SpliceEditsLines(
    a: seq<string>, open: string, body: seq<string>, close: string, b: seq<string>,
    begin: string, end: string, content: seq<string>)
    requires AllOneLine(a) && OneLine(open) && AllOneLine(body) && OneLine(close) && AllOneLine(b)
    requires OneLine(begin) && OneLine(end) && begin != "" && end != ""
    requires OnlyHere(a, open, body + [close] + b, begin)
    requires OnlyHere(a + [open] + body, close, b, end)
    ensures ReplaceMarkedRegion(Join(a + [open] + body + [close] + b), begin, end, Unlines(content))
      == Ok(Join(a + [UpTo(open, begin)] + content + [From(close, end)] + b))
  {
    var source := Join(a + [open] + body + [close] + b);
    var first, last := Unlines(a) + UpTo(open, begin), From(close, end) + Following(b);
    var i, j := MarkersFound(a, open, body, close, b, begin, end, source);
    SpliceResult(source, begin, end, Unlines(content), i, j, first, last);
    JoinedRegion(a, UpTo(open, begin), content, From(close, end), b);
  }
}
