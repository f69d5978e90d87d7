/** What rewriting does to a file seen as lines, some of them grouped in marked regions
    (cmd/kumacore/internal/initcmd/write.go). */
module Documents {
  import opened Wrappers
  import opened Text
  import opened Regions

  /** Lines that stay, or a region between the line `open` with a begin marker and the line
      `close` with its end marker. */
  datatype Piece = Block(lines: seq<string>) | Region(open: string, body: seq<string>, close: string)

  type Document = seq<Piece>

  function PieceLines(piece: Piece): seq<string> {
    match piece
    case Block(lines) => lines
    case Region(open, body, close) => [open] + body + [close]
  }

  function Lines(doc: Document): seq<string> {
    if doc == [] then [] else PieceLines(doc[0]) + Lines(doc[1..])
  }

  lemma {:induction false} LinesConcat(a: Document, b: Document)
    ensures Lines(a + b) == Lines(a) + Lines(b)
    decreases |a|
  {
    if a == [] {
      assert a + b == b;
    } else {
      assert (a + b)[1..] == a[1..] + b;
      LinesConcat(a[1..], b);
    }
  }

  lemma {:induction false} LinesAround(doc: Document, p: nat)
    requires p < |doc|
    ensures Lines(doc) == Lines(doc[..p]) + PieceLines(doc[p]) + Lines(doc[p + 1..])
  {
    var before, here, after := doc[..p], doc[p..], doc[p + 1..];
    assert doc == before + here;
    LinesConcat(before, here);
    assert here[0] == doc[p] && here[1..] == after;
    assert Lines(here) == PieceLines(doc[p]) + Lines(after);
  }

  predicate Tidy(doc: Document) {
    forall i :: 0 <= i < |doc| ==> AllOneLine(PieceLines(doc[i]))
  }

  predicate Free(doc: Document, m: string) {
    forall i :: 0 <= i < |doc| ==> NoneContains(PieceLines(doc[i]), m)
  }

  lemma {:induction false} LinesOf(doc: Document, m: string)
    ensures Tidy(doc) ==> AllOneLine(Lines(doc))
    ensures Free(doc, m) ==> NoneContains(Lines(doc), m)
    decreases |doc|
  {
    if doc != [] {
      var rest := doc[1..];
      LinesOf(rest, m);
      assert forall i :: 0 <= i < |rest| ==> rest[i] == doc[i + 1];
    }
  }

  // ---------- sections and their regions ----------

  /** The shape of the scaffolder's markers: a fixed prefix and a name that does not end in
      white space. */
  predicate ScaffoldSection(section: Section) {
    && HasPrefix(section.begin, "// kumacore:begin ") && OneLine(section.begin)
    && !IsSpace(section.begin[|section.begin| - 1])
    && HasPrefix(section.end, "// kumacore:end ") && OneLine(section.end)
    && !IsSpace(section.end[|section.end| - 1])
    && AllOneLine(section.content)
  }

  predicate MarkerFree(lines: seq<string>, section: Section) {
    NoneContains(lines, section.begin) && NoneContains(lines, section.end)
  }

  /** The begin marker stands first in the line, once. */
  predicate Opens(open: string, section: Section) {
    && HoldsOnce(open, section.begin) && !Contains(open, section.end)
    && AllSpace(open[..Index(open, section.begin)])
  }

  /** The end marker is in the line once. */
  predicate Closes(close: string, section: Section) {
    HoldsOnce(close, section.end) && !Contains(close, section.begin)
  }

  /** The piece is the section's region: its begin marker stands first in the opening line,
      and each marker occurs once in its own line and not between. */
  predicate Hosts(piece: Piece, section: Section) {
    piece.Region? && Opens(piece.open, section) && Closes(piece.close, section) && MarkerFree(piece.body, section)
  }

  /** The section's region is piece `p`, and its markers occur nowhere else. */
  predicate Placed(doc: Document, p: nat, section: Section) {
    && p < |doc| && Hosts(doc[p], section)
    && forall q :: 0 <= q < |doc| && q != p ==> MarkerFree(PieceLines(doc[q]), section)
  }

  /** The region with its content replaced, its two lines cut at the markers. */
  function Filled(piece: Piece, section: Section): Piece {
    if piece.Region? && Contains(piece.open, section.begin) && Contains(piece.close, section.end)
    then Region(UpTo(piece.open, section.begin), section.content, From(piece.close, section.end))
    else piece
  }

  function Fill(doc: Document, p: nat, section: Section): Document
    requires p < |doc|
  {
    doc[p := Filled(doc[p], section)]
  }

  lemma PieceIsTidy(piece: Piece)
    requires piece.Region? && AllOneLine(PieceLines(piece))
    ensures OneLine(piece.open) && AllOneLine(piece.body) && OneLine(piece.close)
  {
    var lines := PieceLines(piece);
    assert lines[0] == piece.open && lines[|lines| - 1] == piece.close;
    assert forall i :: 0 <= i < |piece.body| ==> piece.body[i] == lines[i + 1];
  }

  lemma {:induction false} RegionLines(doc: Document, p: nat)
    requires p < |doc| && doc[p].Region?
    ensures Lines(doc) ==
      Lines(doc[..p]) + [doc[p].open] + doc[p].body + [doc[p].close] + Lines(doc[p + 1..])
  {
    LinesAround(doc, p);
    FiveParts(Lines(doc[..p]), [doc[p].open], doc[p].body, [doc[p].close], Lines(doc[p + 1..]));
  }

  lemma FiveParts(a: seq<string>, b: seq<string>, c: seq<string>, d: seq<string>, e: seq<string>)
    ensures a + (b + c + d) + e == a + b + c + d + e
  {
  }

  lemma FreeAround(doc: Document, p: nat, m: string)
    requires Tidy(doc) && p < |doc|
    requires forall q :: 0 <= q < |doc| && q != p ==> NoneContains(PieceLines(doc[q]), m)
    ensures AllOneLine(Lines(doc[..p])) && NoneContains(Lines(doc[..p]), m)
    ensures AllOneLine(Lines(doc[p + 1..])) && NoneContains(Lines(doc[p + 1..]), m)
  {
    var before, after := doc[..p], doc[p + 1..];
    forall i | 0 <= i < |after|
      ensures AllOneLine(PieceLines(after[i])) && NoneContains(PieceLines(after[i]), m)
    {
      assert after[i] == doc[p + 1 + i];
    }
    LinesOf(before, m);
    LinesOf(after, m);
  }

  /** The lines around a placed region meet the conditions of the splice. */
  lemma PlacedInLines(
    a: seq<string>, piece: Piece, b: seq<string>, section: Section)
    requires Hosts(piece, section) && MarkerFree(a, section) && MarkerFree(b, section)
    ensures OnlyHere(a, piece.open, piece.body + [piece.close] + b, section.begin)
    ensures OnlyHere(a + [piece.open] + piece.body, piece.close, b, section.end)
  {
  }

  /** Splicing the text fills the region. */
  lemma SpliceFills(doc: Document, p: nat, section: Section)
    requires Tidy(doc) && ScaffoldSection(section) && Placed(doc, p, section)
    ensures ReplaceMarkedRegion(Join(Lines(doc)), section.begin, section.end, JoinSectionLines(section.content))
      == Ok(Join(Lines(Fill(doc, p, section))))
  {
    var piece := doc[p];
    var a, b := Lines(doc[..p]), Lines(doc[p + 1..]);
    FreeAround(doc, p, section.begin);
    FreeAround(doc, p, section.end);
    PieceIsTidy(piece);
    PlacedInLines(a, piece, b, section);
    SectionLinesAreTerminated(section.content);
    SpliceEditsLines(a, piece.open, piece.body, piece.close, b, section.begin, section.end, section.content);
    RegionLines(doc, p);
    FilledLines(doc, p, section);
  }

  lemma FilledLines(doc: Document, p: nat, section: Section)
    requires p < |doc| && doc[p].Region?
    requires Contains(doc[p].open, section.begin) && Contains(doc[p].close, section.end)
    ensures Lines(Fill(doc, p, section)) ==
      Lines(doc[..p]) + [UpTo(doc[p].open, section.begin)] + section.content
        + [From(doc[p].close, section.end)] + Lines(doc[p + 1..])
  {
    var doc' := Fill(doc, p, section);
    RegionLines(doc', p);
    assert doc'[..p] == doc[..p] && doc'[p + 1..] == doc[p + 1..];
  }

  // ---------- filling one region leaves the others in place ----------

  lemma PartsContainNone(line: string, i: nat, m: string)
    requires i <= |line| && !Contains(line, m)
    ensures !Contains(line[..i], m) && !Contains(line[i..], m)
  {
    assert "" + line[..i] + line[i..] == line && line[..i] + line[i..] + "" == line;
    OccursInPart("", line[..i], line[i..], m, Index(line[..i], m));
    OccursInPart(line[..i], line[i..], "", m, Index(line[i..], m));
  }

  lemma CutsContainNone(line: string, m: string, other: string)
    requires Contains(line, m) && !Contains(line, other)
    ensures !Contains(UpTo(line, m), other) && !Contains(From(line, m), other)
  {
    PartsContainNone(line, Index(line, m) + |m|, other);
    PartsContainNone(line, Index(line, m), other);
  }

  /** Another section's markers are in no line of a filled region. */
  lemma FilledIsFree(piece: Piece, section: Section, other: Section)
    requires MarkerFree(PieceLines(piece), other) && MarkerFree(section.content, other)
    ensures MarkerFree(PieceLines(Filled(piece, section)), other)
  {
    if piece.Region? && Contains(piece.open, section.begin) && Contains(piece.close, section.end) {
      var lines := PieceLines(piece);
      assert lines[0] == piece.open && lines[|lines| - 1] == piece.close;
      CutsContainNone(piece.open, section.begin, other.begin);
      CutsContainNone(piece.open, section.begin, other.end);
      CutsContainNone(piece.close, section.end, other.begin);
      CutsContainNone(piece.close, section.end, other.end);
    }
  }

  lemma OthersStayPlaced(doc: Document, p: nat, section: Section, q: nat, other: Section)
    requires p < |doc| && q != p && Placed(doc, q, other) && MarkerFree(section.content, other)
    ensures Placed(Fill(doc, p, section), q, other)
  {
    FilledIsFree(doc[p], section, other);
  }

  /** Cutting a line at its marker twice is cutting it once. */
  lemma CutTwice(line: string, m: string)
    requires HoldsOnce(line, m) && m != ""
    ensures HoldsOnce(UpTo(line, m), m) && UpTo(UpTo(line, m), m) == UpTo(line, m)
    ensures Index(UpTo(line, m), m) == Index(line, m)
    ensures UpTo(line, m)[..Index(line, m)] == line[..Index(line, m)]
    ensures HoldsOnce(From(line, m), m) && From(From(line, m), m) == From(line, m)
  {
    var k := Index(line, m);
    var first, last := line[..k + |m|], line[k..];
    assert first[k..k + |m|] == m && OccursAt(first, m, k);
    assert first + line[k + |m|..] == line;
    IndexThenText(first, line[k + |m|..], m);
    assert first[k + |m|..] == "";
    assert last[0..0 + |m|] == m && OccursAt(last, m, 0);
    assert last[0 + |m|..] == line[k + |m|..];
  }

  lemma CutOpens(open: string, section: Section)
    requires section.begin != "" && Opens(open, section)
    ensures Opens(UpTo(open, section.begin), section)
    ensures UpTo(UpTo(open, section.begin), section.begin) == UpTo(open, section.begin)
  {
    CutTwice(open, section.begin);
    CutsContainNone(open, section.begin, section.end);
  }

  lemma CutCloses(close: string, section: Section)
    requires section.end != "" && Closes(close, section)
    ensures Closes(From(close, section.end), section)
    ensures From(From(close, section.end), section.end) == From(close, section.end)
  {
    CutTwice(close, section.end);
    CutsContainNone(close, section.end, section.begin);
  }

  lemma OwnStaysHosted(piece: Piece, section: Section)
    requires section.begin != "" && section.end != ""
    requires Hosts(piece, section) && MarkerFree(section.content, section)
    ensures Hosts(Filled(piece, section), section)
    ensures Filled(Filled(piece, section), section) == Filled(piece, section)
  {
    CutOpens(piece.open, section);
    CutCloses(piece.close, section);
  }

  lemma OwnStaysPlaced(doc: Document, p: nat, section: Section)
    requires ScaffoldSection(section) && Placed(doc, p, section) && MarkerFree(section.content, section)
    ensures Placed(Fill(doc, p, section), p, section)
    ensures Fill(Fill(doc, p, section), p, section) == Fill(doc, p, section)
  {
    OwnStaysHosted(doc[p], section);
  }

  lemma FilledStaysTidy(doc: Document, p: nat, section: Section)
    requires Tidy(doc) && p < |doc| && AllOneLine(section.content)
    ensures Tidy(Fill(doc, p, section))
  {
    var piece := doc[p];
    if piece.Region? {
      PieceIsTidy(piece);
    }
  }

  lemma FillsCommute(doc: Document, p: nat, first: Section, q: nat, second: Section)
    requires p < |doc| && q < |doc| && p != q
    ensures Fill(Fill(doc, p, first), q, second) == Fill(Fill(doc, q, second), p, first)
  {
    var a, b := Filled(doc[p], first), Filled(doc[q], second);
    assert doc[p := a][q := b] == doc[q := b][p := a];
  }

  /** Replacing two regions gives the same text in either order. */
  lemma ReplacementsCommute(doc: Document, p: nat, first: Section, q: nat, second: Section)
    requires Tidy(doc) && ScaffoldSection(first) && ScaffoldSection(second) && p != q
    requires Placed(doc, p, first) && Placed(doc, q, second)
    requires MarkerFree(first.content, second) && MarkerFree(second.content, first)
    ensures var source := Join(Lines(doc));
      var one := ReplaceMarkedRegion(source, first.begin, first.end, JoinSectionLines(first.content));
      var two := ReplaceMarkedRegion(source, second.begin, second.end, JoinSectionLines(second.content));
      && one.Ok? && two.Ok?
      && ReplaceMarkedRegion(one.value, second.begin, second.end, JoinSectionLines(second.content)).Ok?
      && ReplaceMarkedRegion(one.value, second.begin, second.end, JoinSectionLines(second.content))
         == ReplaceMarkedRegion(two.value, first.begin, first.end, JoinSectionLines(first.content))
  {
    SpliceFills(doc, p, first);
    SpliceFills(doc, q, second);
    OthersStayPlaced(doc, p, first, q, second);
    OthersStayPlaced(doc, q, second, p, first);
    FilledStaysTidy(doc, p, first);
    FilledStaysTidy(doc, q, second);
    SpliceFills(Fill(doc, p, first), q, second);
    SpliceFills(Fill(doc, q, second), p, first);
    FillsCommute(doc, p, first, q, second);
  }

  /** Replacing a region again with the same content changes nothing. */
  lemma ReplacementIsIdempotent(doc: Document, p: nat, section: Section)
    requires Tidy(doc) && ScaffoldSection(section) && Placed(doc, p, section)
    requires MarkerFree(section.content, section)
    ensures var content := JoinSectionLines(section.content);
      var once := ReplaceMarkedRegion(Join(Lines(doc)), section.begin, section.end, content);
      once.Ok? && ReplaceMarkedRegion(once.value, section.begin, section.end, content) == once
  {
    SpliceFills(doc, p, section);
    OwnStaysPlaced(doc, p, section);
    FilledStaysTidy(doc, p, section);
    SpliceFills(Fill(doc, p, section), p, section);
  }

  // ---------- the whole rewriting ----------

  ghost predicate Apart(at: seq<nat>) {
    forall i, j :: 0 <= i < j < |at| ==> at[i] != at[j]
  }

  /** Each section has its own region, and no content holds any section's marker. */
  ghost predicate Marked(doc: Document, at: seq<nat>, sections: seq<Section>) {
    && |at| == |sections|
    && Apart(at)
    && (forall i :: 0 <= i < |at| ==> ScaffoldSection(sections[i]) && Placed(doc, at[i], sections[i]))
    && (forall i, j :: 0 <= i < |at| && 0 <= j < |at| ==> MarkerFree(sections[i].content, sections[j]))
  }

  /** The document with the first `n` regions filled. */
  function FillFirst(doc: Document, at: seq<nat>, sections: seq<Section>, n: nat): (r: Document)
    requires n <= |at| == |sections| && forall i :: 0 <= i < |at| ==> at[i] < |doc|
    ensures |r| == |doc|
  {
    if n == 0 then doc else Fill(FillFirst(doc, at, sections, n - 1), at[n - 1], sections[n - 1])
  }

  lemma {:induction false} FillFirstAt(doc: Document, at: seq<nat>, sections: seq<Section>, n: nat, q: nat)
    requires n <= |at| == |sections| && forall i :: 0 <= i < |at| ==> at[i] < |doc|
    requires q < |doc| && q !in at[..n]
    ensures FillFirst(doc, at, sections, n)[q] == doc[q]
    decreases n
  {
    if n > 0 {
      assert at[n - 1] == at[..n][n - 1] && at[..n][..n - 1] == at[..n - 1];
      FillFirstAt(doc, at, sections, n - 1, q);
    }
  }

  lemma {:induction false} FillFirstFilled(doc: Document, at: seq<nat>, sections: seq<Section>, n: nat, k: nat)
    requires n <= |at| == |sections| && forall i :: 0 <= i < |at| ==> at[i] < |doc|
    requires k < n && Apart(at)
    ensures FillFirst(doc, at, sections, n)[at[k]] == Filled(doc[at[k]], sections[k])
    decreases n
  {
    if k < n - 1 {
      FillFirstFilled(doc, at, sections, n - 1, k);
    } else {
      FillFirstAt(doc, at, sections, n - 1, at[k]);
    }
  }

  lemma MarkedAt(doc: Document, at: seq<nat>, sections: seq<Section>, k: nat)
    requires Marked(doc, at, sections) && k < |at|
    ensures Placed(doc, at[k], sections[k]) && ScaffoldSection(sections[k])
  {
  }

  lemma {:induction false} FillFirstTidy(doc: Document, at: seq<nat>, sections: seq<Section>, n: nat)
    requires n <= |at| == |sections| && forall i :: 0 <= i < |at| ==> at[i] < |doc| && AllOneLine(sections[i].content)
    requires Tidy(doc)
    ensures Tidy(FillFirst(doc, at, sections, n))
    decreases n
  {
    if n > 0 {
      FillFirstTidy(doc, at, sections, n - 1);
      FilledStaysTidy(FillFirst(doc, at, sections, n - 1), at[n - 1], sections[n - 1]);
    }
  }

  lemma {:induction false} FillFirstPlaced(doc: Document, at: seq<nat>, sections: seq<Section>, n: nat, k: nat)
    requires n <= |at| == |sections| && forall i :: 0 <= i < |at| ==> at[i] < |doc|
    requires n <= k < |at| && Apart(at) && Placed(doc, at[k], sections[k])
    requires forall i :: 0 <= i < n ==> MarkerFree(sections[i].content, sections[k])
    ensures Placed(FillFirst(doc, at, sections, n), at[k], sections[k])
    decreases n
  {
    if n > 0 {
      FillFirstPlaced(doc, at, sections, n - 1, k);
      OthersStayPlaced(FillFirst(doc, at, sections, n - 1), at[n - 1], sections[n - 1], at[k], sections[k]);
    }
  }

  /** The document with `n` regions filled is ready for the next. */
  lemma FillFirstReady(doc: Document, at: seq<nat>, sections: seq<Section>, n: nat)
    requires Tidy(doc) && Marked(doc, at, sections) && n < |at|
    ensures Tidy(FillFirst(doc, at, sections, n)) && ScaffoldSection(sections[n])
    ensures Placed(FillFirst(doc, at, sections, n), at[n], sections[n])
  {
    FillFirstTidy(doc, at, sections, n);
    FillFirstPlaced(doc, at, sections, n, n);
  }

  /** One more replacement. */
  lemma {:induction false} ReplaceAllNext(source: string, sections: seq<Section>, n: nat, text: string)
    requires forall i :: 0 <= i < |sections| ==> sections[i].begin != "" && sections[i].end != ""
    requires n < |sections| && ReplaceAll(source, sections[..n]) == Ok(text)
    ensures ReplaceAll(source, sections[..n + 1]) == ReplaceMarkedRegion(
      text, sections[n].begin, sections[n].end, JoinSectionLines(sections[n].content))
  {
    assert sections[..n + 1][..n] == sections[..n];
  }

  lemma {:induction false} ReplaceAllSplices(
    doc: Document, p: nat, sections: seq<Section>, n: nat, source: string, text: string)
    requires forall i :: 0 <= i < |sections| ==> sections[i].begin != "" && sections[i].end != ""
    requires n < |sections| && Tidy(doc) && ScaffoldSection(sections[n]) && Placed(doc, p, sections[n])
    requires text == Join(Lines(doc)) && ReplaceAll(source, sections[..n]) == Ok(text)
    ensures ReplaceAll(source, sections[..n + 1]) == Ok(Join(Lines(Fill(doc, p, sections[n]))))
  {
    ReplaceAllNext(source, sections, n, text);
    SpliceFills(doc, p, sections[n]);
  }

  lemma {:induction false} ReplaceAllFillsNext(
    doc: Document, at: seq<nat>, sections: seq<Section>, n: nat, source: string)
    requires n < |at| == |sections| && forall i :: 0 <= i < |at| ==> at[i] < |doc|
    requires forall i :: 0 <= i < |sections| ==> sections[i].begin != "" && sections[i].end != ""
    requires Tidy(doc) && Marked(doc, at, sections)
    requires ReplaceAll(source, sections[..n]) == Ok(Join(Lines(FillFirst(doc, at, sections, n))))
    ensures ReplaceAll(source, sections[..n + 1]) == Ok(Join(Lines(FillFirst(doc, at, sections, n + 1))))
  {
    var before := FillFirst(doc, at, sections, n);
    FillFirstReady(doc, at, sections, n);
    ReplaceAllSplices(before, at[n], sections, n, source, Join(Lines(before)));
  }

  lemma {:induction false} ReplaceAllFills(doc: Document, at: seq<nat>, sections: seq<Section>)
    requires Tidy(doc) && Marked(doc, at, sections)
    ensures ReplaceAll(Join(Lines(doc)), sections) == Ok(Join(Lines(FillFirst(doc, at, sections, |at|))))
  {
    var source := Join(Lines(doc));
    assert sections[..0] == [] && sections[..|at|] == sections;
    for n := 0 to |at|
      invariant ReplaceAll(source, sections[..n]) == Ok(Join(Lines(FillFirst(doc, at, sections, n))))
    {
      ReplaceAllFillsNext(doc, at, sections, n, source);
    }
  }

  /** The line-level specification: each region becomes its section's content, the rest stays. */
  function Edited(doc: Document, at: seq<nat>, sections: seq<Section>, p: nat): Piece
    requires |at| == |sections| && p < |doc|
  {
    EditedBy(doc[p], at, sections, p, |at|)
  }

  function EditedBy(piece: Piece, at: seq<nat>, sections: seq<Section>, p: nat, n: nat): Piece
    requires n <= |at| == |sections|
  {
    if n == 0 then piece
    else if at[n - 1] == p then Block(sections[n - 1].content)
    else EditedBy(piece, at, sections, p, n - 1)
  }

  function EditedDocument(doc: Document, at: seq<nat>, sections: seq<Section>): Document
    requires |at| == |sections|
  {
    seq(|doc|, p requires 0 <= p < |doc| => Edited(doc, at, sections, p))
  }

  lemma {:induction false} EditedByFinds(piece: Piece, at: seq<nat>, sections: seq<Section>, p: nat, n: nat)
    requires n <= |at| == |sections| && Apart(at)
    ensures forall k :: 0 <= k < n && at[k] == p ==> EditedBy(piece, at, sections, p, n) == Block(sections[k].content)
    ensures p !in at[..n] ==> EditedBy(piece, at, sections, p, n) == piece
    decreases n
  {
    if n > 0 {
      EditedByFinds(piece, at, sections, p, n - 1);
      assert at[..n] == at[..n - 1] + [at[n - 1]];
    }
  }

  lemma HeadAndTailDrop(open: string, content: seq<string>, close: string)
    requires IsMarkerLine(open) && IsMarkerLine(close)
    ensures DropMarkers([open] + content + [close]) == DropMarkers(content)
  {
    DropMarkersConcat([open] + content, [close]);
    DropMarkersConcat([open], content);
    assert [open][..0] == [] && [close][..0] == [];
    assert DropMarkers([open]) == [] && DropMarkers([close]) == [];
  }

  lemma {:induction false} SameAfterDrop(a: Document, b: Document)
    requires |a| == |b|
    requires forall i :: 0 <= i < |a| ==> DropMarkers(PieceLines(a[i])) == DropMarkers(PieceLines(b[i]))
    ensures DropMarkers(Lines(a)) == DropMarkers(Lines(b))
    decreases |a|
  {
    if a != [] {
      SameAfterDrop(a[1..], b[1..]);
      DropMarkersConcat(PieceLines(a[0]), Lines(a[1..]));
      DropMarkersConcat(PieceLines(b[0]), Lines(b[1..]));
    }
  }

  /** A line that, after white space, starts with a text not ending in white space keeps
      that start when trimmed. */
  lemma TrimKeepsStart(line: string, space: string, text: string, tail: string)
    requires AllSpace(space) && text != "" && !IsSpace(text[0]) && !IsSpace(text[|text| - 1])
    requires line == space + text + tail
    ensures HasPrefix(TrimSpace(line), text)
  {
    assert line == space + (text + tail);
    TrimLeftDropsSpace(space, text + tail);
    TrimRightKeeps(text, tail);
  }

  lemma PrefixOfPrefix(s: string, long: string, short: string)
    requires HasPrefix(s, long) && HasPrefix(long, short)
    ensures HasPrefix(s, short)
  {
    assert s[..|long|][..|short|] == s[..|short|];
  }

  lemma StartsWithPrefix(s: string, prefix: string)
    requires prefix != "" && HasPrefix(s, prefix)
    ensures s != "" && s[0] == prefix[0]
  {
  }

  lemma OpenIsMarker(open: string, section: Section)
    requires ScaffoldSection(section) && Opens(open, section)
    ensures IsMarkerLine(UpTo(open, section.begin))
  {
    var i := Index(open, section.begin);
    StartsWithPrefix(section.begin, "// kumacore:begin ");
    TrimKeepsStart(UpTo(open, section.begin), open[..i], section.begin, "");
    PrefixOfPrefix(TrimSpace(UpTo(open, section.begin)), section.begin, "// kumacore:begin ");
  }

  lemma CloseIsMarker(close: string, section: Section)
    requires ScaffoldSection(section) && Closes(close, section)
    ensures IsMarkerLine(From(close, section.end))
  {
    var j := Index(close, section.end);
    StartsWithPrefix(section.end, "// kumacore:end ");
    TrimKeepsStart(From(close, section.end), "", section.end, close[j + |section.end|..]);
    PrefixOfPrefix(TrimSpace(From(close, section.end)), section.end, "// kumacore:end ");
  }

  lemma FilledKeepsContent(piece: Piece, section: Section)
    requires ScaffoldSection(section) && Hosts(piece, section)
    ensures DropMarkers(PieceLines(Filled(piece, section))) == DropMarkers(section.content)
  {
    OpenIsMarker(piece.open, section);
    CloseIsMarker(piece.close, section);
    HeadAndTailDrop(UpTo(piece.open, section.begin), section.content, From(piece.close, section.end));
  }

  /** A filled piece and an edited one differ in marker lines only. */
  lemma FilledLooksEdited(doc: Document, at: seq<nat>, sections: seq<Section>, q: nat)
    requires Marked(doc, at, sections) && q < |doc|
    ensures DropMarkers(PieceLines(FillFirst(doc, at, sections, |at|)[q]))
      == DropMarkers(PieceLines(Edited(doc, at, sections, q)))
  {
    assert at[..|at|] == at;
    EditedByFinds(doc[q], at, sections, q, |at|);
    if q in at {
      var k :| 0 <= k < |at| && at[k] == q;
      FillFirstFilled(doc, at, sections, |at|, k);
      MarkedAt(doc, at, sections, k);
      FilledKeepsContent(doc[q], sections[k]);
    } else {
      FillFirstAt(doc, at, sections, |at|, q);
    }
  }

  lemma FilledHasLines(doc: Document, at: seq<nat>, sections: seq<Section>)
    requires Lines(doc) != [] && Marked(doc, at, sections)
    ensures Lines(FillFirst(doc, at, sections, |at|)) != []
  {
    if at != [] {
      var filled := FillFirst(doc, at, sections, |at|);
      FillFirstFilled(doc, at, sections, |at|, 0);
      MarkedAt(doc, at, sections, 0);
      assert filled[at[0]].Region?;
      LinesAround(filled, at[0]);
    }
  }

  /** Rewriting the text is editing the lines: the lines outside the regions in order, each
      region's lines replaced by its content, and the marker lines gone. */
  lemma RewritingRefinesLineEditing(doc: Document, at: seq<nat>, sections: seq<Section>)
    requires Tidy(doc) && Lines(doc) != [] && Marked(doc, at, sections)
    ensures Rewritten(Join(Lines(doc)), sections)
      == Ok(Join(DropMarkers(Lines(EditedDocument(doc, at, sections)))))
  {
    var filled, edited := FillFirst(doc, at, sections, |at|), EditedDocument(doc, at, sections);
    ReplaceAllFills(doc, at, sections);
    forall q | 0 <= q < |doc|
      ensures DropMarkers(PieceLines(filled[q])) == DropMarkers(PieceLines(edited[q]))
    {
      FilledLooksEdited(doc, at, sections, q);
    }
    SameAfterDrop(filled, edited);
    FillFirstTidy(doc, at, sections, |at|);
    LinesOf(filled, "");
    FilledHasLines(doc, at, sections);
    SplitJoin(Lines(filled));
  }
}
