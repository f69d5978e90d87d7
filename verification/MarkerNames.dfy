/** Markers that stand alone on their lines, as the scaffolded sources have them
    (cmd/kumacore/internal/initcmd/write.go), meet the conditions of Documents. */
module MarkerNames {
  import opened Documents
  import opened Regions
  import opened Text
  import opened Wrappers

  const LEAD := "// kumacore:"

  /** A section by its name. */
  function Named(name: string, content: seq<string>): Section {
    Section("// kumacore:begin " + name, "// kumacore:end " + name, content)
  }

  predicate PlainName(name: string) {
    name != "" && '/' !in name && OneLine(name) && !IsSpace(name[|name| - 1])
  }

  /** Nothing but white space precedes the marker, and nothing follows it. */
  predicate StandsAlone(line: string, marker: string) {
    |line| >= |marker| && line[|line| - |marker|..] == marker && AllSpace(line[..|line| - |marker|])
  }

  /** The lines hold no marker at all. */
  predicate Bare(lines: seq<string>) { NoneContains(lines, LEAD) }

  // ---------- searching for markers ----------

  lemma ContainsPrefix(s: string, m: string, prefix: string)
    requires HasPrefix(m, prefix) && Contains(s, m)
    ensures Contains(s, prefix)
  {
    var i := Index(s, m);
    assert s[i..i + |prefix|] == s[i..i + |m|][..|prefix|];
    assert OccursAt(s, prefix, i);
  }

  lemma NamedHasLead(name: string, content: seq<string>)
    ensures HasPrefix(Named(name, content).begin, LEAD) && HasPrefix(Named(name, content).end, LEAD)
    ensures Named(name, content).begin == LEAD + ("begin " + name)
    ensures Named(name, content).end == LEAD + ("end " + name)
  {
    assert "// kumacore:begin " == LEAD + "begin " && "// kumacore:end " == LEAD + "end ";
  }

  lemma BareIsFree(lines: seq<string>, name: string, content: seq<string>)
    requires Bare(lines)
    ensures MarkerFree(lines, Named(name, content))
  {
    NamedHasLead(name, content);
    forall i | 0 <= i < |lines|
      ensures !Contains(lines[i], Named(name, content).begin) && !Contains(lines[i], Named(name, content).end)
    {
      if Contains(lines[i], Named(name, content).begin) {
        ContainsPrefix(lines[i], Named(name, content).begin, LEAD);
      }
      if Contains(lines[i], Named(name, content).end) {
        ContainsPrefix(lines[i], Named(name, content).end, LEAD);
      }
    }
  }

  /** In a line that is white space and one marker, another marker can only begin where that
      one does. */
  lemma MatchesAtMarker(line: string, tail: string, other: string, j: int)
    requires StandsAlone(line, LEAD + tail) && '/' !in tail && OccursAt(line, LEAD + other, j)
    ensures j == |line| - |LEAD + tail| && HasPrefix(tail, other)
  {
    var k := |line| - |LEAD + tail|;
    var found := line[j..j + |LEAD + other|];
    assert found[0] == '/' && found[1] == '/' && line[j] == '/' && line[j + 1] == '/';
    assert forall i :: 0 <= i < k ==> line[i] == line[..k][i];
    assert forall i :: k <= i < |line| ==> line[i] == (LEAD + tail)[i - k];
    assert LEAD[2] == ' ';
    assert j == k;
    assert found == (LEAD + tail)[..|LEAD + other|];
    assert found[|LEAD|..] == other && (LEAD + tail)[..|LEAD + other|][|LEAD|..] == tail[..|other|];
  }

  lemma AloneHoldsOnce(line: string, tail: string)
    requires StandsAlone(line, LEAD + tail) && '/' !in tail
    ensures HoldsOnce(line, LEAD + tail) && Index(line, LEAD + tail) == |line| - |LEAD + tail|
  {
    var k := |line| - |LEAD + tail|;
    assert OccursAt(line, LEAD + tail, k);
    MatchesAtMarker(line, tail, tail, Index(line, LEAD + tail));
    assert line[k + |LEAD + tail|..] == "";
  }

  lemma AloneHoldsNoOther(line: string, tail: string, other: string)
    requires StandsAlone(line, LEAD + tail) && '/' !in tail && !HasPrefix(tail, other)
    ensures !Contains(line, LEAD + other)
  {
    if Contains(line, LEAD + other) {
      MatchesAtMarker(line, tail, other, Index(line, LEAD + other));
    }
  }

  // ---------- regions whose markers stand alone ----------

  predicate AloneRegion(piece: Piece, name: string) {
    && piece.Region? && Bare(piece.body)
    && StandsAlone(piece.open, Named(name, []).begin) && StandsAlone(piece.close, Named(name, []).end)
  }

  lemma KindsDiffer(name: string, other: string)
    ensures !HasPrefix("begin " + name, "end " + other) && !HasPrefix("end " + other, "begin " + name)
  {
    assert ("begin " + name)[0] == 'b' && ("end " + other)[0] == 'e';
  }

  lemma PrefixUnder(lead: string, name: string, other: string)
    ensures HasPrefix(lead + name, lead + other) <==> HasPrefix(name, other)
  {
    if |name| >= |other| {
      assert (lead + name)[..|lead + other|] == lead + name[..|other|];
      assert (lead + name[..|other|])[|lead|..] == name[..|other|] && (lead + other)[|lead|..] == other;
    }
  }

  /** An opening line holds neither marker of a section whose name is no prefix of its own. */
  lemma OpenHoldsNoOther(line: string, name: string, other: string)
    requires StandsAlone(line, Named(name, []).begin) && '/' !in name && !HasPrefix(name, other)
    ensures !Contains(line, Named(other, []).begin) && !Contains(line, Named(other, []).end)
  {
    NamedHasLead(name, []);
    NamedHasLead(other, []);
    KindsDiffer(name, other);
    PrefixUnder("begin ", name, other);
    AloneHoldsNoOther(line, "begin " + name, "begin " + other);
    AloneHoldsNoOther(line, "begin " + name, "end " + other);
  }

  lemma CloseHoldsNoOther(line: string, name: string, other: string)
    requires StandsAlone(line, Named(name, []).end) && '/' !in name && !HasPrefix(name, other)
    ensures !Contains(line, Named(other, []).begin) && !Contains(line, Named(other, []).end)
  {
    NamedHasLead(name, []);
    NamedHasLead(other, []);
    KindsDiffer(other, name);
    PrefixUnder("end ", name, other);
    AloneHoldsNoOther(line, "end " + name, "begin " + other);
    AloneHoldsNoOther(line, "end " + name, "end " + other);
  }

  lemma AloneOpens(line: string, name: string)
    requires StandsAlone(line, Named(name, []).begin) && '/' !in name
    ensures Opens(line, Named(name, []))
  {
    NamedHasLead(name, []);
    KindsDiffer(name, name);
    AloneHoldsOnce(line, "begin " + name);
    AloneHoldsNoOther(line, "begin " + name, "end " + name);
  }

  lemma AloneCloses(line: string, name: string)
    requires StandsAlone(line, Named(name, []).end) && '/' !in name
    ensures Closes(line, Named(name, []))
  {
    NamedHasLead(name, []);
    KindsDiffer(name, name);
    AloneHoldsOnce(line, "end " + name);
    AloneHoldsNoOther(line, "end " + name, "begin " + name);
  }

  /** A region between markers that stand alone is the section's. */
  lemma AloneIsHosted(piece: Piece, name: string, content: seq<string>)
    requires AloneRegion(piece, name) && '/' !in name
    ensures Hosts(piece, Named(name, content))
  {
    AloneOpens(piece.open, name);
    AloneCloses(piece.close, name);
    BareIsFree(piece.body, name, content);
  }

  lemma ThreePartsContainNone(open: string, body: seq<string>, close: string, m: string)
    requires !Contains(open, m) && NoneContains(body, m) && !Contains(close, m)
    ensures NoneContains([open] + body + [close], m)
  {
  }

  lemma AloneIsFree(piece: Piece, name: string, other: string, content: seq<string>)
    requires AloneRegion(piece, name) && '/' !in name && !HasPrefix(name, other)
    ensures MarkerFree(PieceLines(piece), Named(other, content))
  {
    OpenHoldsNoOther(piece.open, name, other);
    CloseHoldsNoOther(piece.close, name, other);
    BareIsFree(piece.body, other, content);
    ThreePartsContainNone(piece.open, piece.body, piece.close, Named(other, content).begin);
    ThreePartsContainNone(piece.open, piece.body, piece.close, Named(other, content).end);
  }

  lemma PlainNameFits(name: string, content: seq<string>)
    requires PlainName(name) && AllOneLine(content)
    ensures ScaffoldSection(Named(name, content))
  {
    LastOfTwo("// kumacore:begin ", name);
    LastOfTwo("// kumacore:end ", name);
  }

  lemma LastOfTwo(lead: string, name: string)
    requires name != "" && OneLine(lead) && OneLine(name)
    ensures (lead + name)[|lead + name| - 1] == name[|name| - 1]
    ensures HasPrefix(lead + name, lead) && OneLine(lead + name)
  {
  }

  // ---------- documents ----------

  /** The document's regions are those of the names, in the places `at`, with markers that
      stand alone; everywhere else, and in the contents, there is no marker. */
  ghost predicate Scaffolded(doc: Document, at: seq<nat>, names: seq<string>, contents: seq<seq<string>>) {
    && |at| == |names| == |contents| && Apart(at)
    && (forall i :: 0 <= i < |at| ==> PlainName(names[i]) && AllOneLine(contents[i]) && Bare(contents[i]))
    && (forall i, j :: 0 <= i < |at| && 0 <= j < |at| && i != j ==> !HasPrefix(names[i], names[j]))
    && (forall i :: 0 <= i < |at| ==> at[i] < |doc| && AloneRegion(doc[at[i]], names[i]))
    && (forall q :: 0 <= q < |doc| && q !in at ==> Bare(PieceLines(doc[q])))
  }

  function Sections(names: seq<string>, contents: seq<seq<string>>): (sections: seq<Section>)
    requires |names| == |contents|
    ensures |sections| == |names|
    ensures forall i :: 0 <= i < |names| ==> sections[i] == Named(names[i], contents[i])
  {
    seq(|names|, i requires 0 <= i < |names| => Named(names[i], contents[i]))
  }

  lemma ScaffoldedIsPlaced(doc: Document, at: seq<nat>, names: seq<string>, contents: seq<seq<string>>, i: nat)
    requires Scaffolded(doc, at, names, contents) && i < |at|
    ensures Placed(doc, at[i], Named(names[i], contents[i]))
  {
    AloneIsHosted(doc[at[i]], names[i], contents[i]);
    forall q | 0 <= q < |doc| && q != at[i]
      ensures MarkerFree(PieceLines(doc[q]), Named(names[i], contents[i]))
    {
      if q in at {
        var j :| 0 <= j < |at| && at[j] == q;
        AloneIsFree(doc[q], names[j], names[i], contents[i]);
      } else {
        BareIsFree(PieceLines(doc[q]), names[i], contents[i]);
      }
    }
  }

  /** A scaffolded document meets the conditions under which rewriting is line editing. */
  lemma ScaffoldedIsMarked(doc: Document, at: seq<nat>, names: seq<string>, contents: seq<seq<string>>)
    requires Scaffolded(doc, at, names, contents)
    ensures Marked(doc, at, Sections(names, contents))
  {
    var sections := Sections(names, contents);
    forall i | 0 <= i < |at|
      ensures ScaffoldSection(sections[i]) && Placed(doc, at[i], sections[i])
    {
      PlainNameFits(names[i], contents[i]);
      ScaffoldedIsPlaced(doc, at, names, contents, i);
    }
    forall i, j | 0 <= i < |at| && 0 <= j < |at|
      ensures MarkerFree(sections[i].content, sections[j])
    {
      BareIsFree(contents[i], names[j], contents[j]);
    }
  }

  // ---------- what is left ----------

  lemma BareIsNoMarkerLine(line: string)
    requires !Contains(line, LEAD)
    ensures !IsMarkerLine(line)
  {
    NamedHasLead("", []);
    assert "// kumacore:begin " + "" == "// kumacore:begin " && "// kumacore:end " + "" == "// kumacore:end ";
    if HasPrefix(TrimSpace(line), "// kumacore:begin ") {
      TrimmedStartOccurs(line, "// kumacore:begin ");
      ContainsPrefix(line, "// kumacore:begin ", LEAD);
    }
    if HasPrefix(TrimSpace(line), "// kumacore:end ") {
      TrimmedStartOccurs(line, "// kumacore:end ");
      ContainsPrefix(line, "// kumacore:end ", LEAD);
    }
  }

  lemma {:induction false} BareIsKept(lines: seq<string>)
    requires Bare(lines)
    ensures DropMarkers(lines) == lines
    decreases |lines|
  {
    if lines != [] {
      var n := |lines| - 1;
      BareIsKept(lines[..n]);
      BareIsNoMarkerLine(lines[n]);
      assert lines == lines[..n] + [lines[n]];
    }
  }

  lemma EditedIsBare(doc: Document, at: seq<nat>, names: seq<string>, contents: seq<seq<string>>)
    requires Scaffolded(doc, at, names, contents)
    ensures Free(EditedDocument(doc, at, Sections(names, contents)), LEAD)
  {
    var sections := Sections(names, contents);
    assert at[..|at|] == at;
    forall q | 0 <= q < |doc|
      ensures NoneContains(PieceLines(Edited(doc, at, sections, q)), LEAD)
    {
      EditedByFinds(doc[q], at, sections, q, |at|);
      if q in at {
        var k :| 0 <= k < |at| && at[k] == q;
        assert Bare(contents[k]);
      }
    }
  }

  /** The pieces of a text's lines are tidy: a split leaves no newline. */
  lemma SplitIsTidy(source: string, doc: Document)
    requires Split(source) == Lines(doc)
    ensures Tidy(doc) && Lines(doc) != [] && Join(Lines(doc)) == source
  {
    JoinSplit(source);
    forall i | 0 <= i < |doc|
      ensures AllOneLine(PieceLines(doc[i]))
    {
      LinesAround(doc, i);
      MiddleIsOneLine(Lines(doc[..i]), PieceLines(doc[i]), Lines(doc[i + 1..]));
    }
  }

  lemma MiddleIsOneLine(before: seq<string>, lines: seq<string>, after: seq<string>)
    requires AllOneLine(before + lines + after)
    ensures AllOneLine(lines)
  {
    assert forall i :: 0 <= i < |lines| ==> lines[i] == (before + lines + after)[|before| + i];
  }

  /** Any source whose lines are a scaffolded document: rewriting gives the lines outside the
      regions, in order, with each region's lines replaced by its content. */
  lemma ScaffoldedRewriting(
    source: string, doc: Document, at: seq<nat>, names: seq<string>, contents: seq<seq<string>>)
    requires Split(source) == Lines(doc) && Scaffolded(doc, at, names, contents)
    ensures Rewritten(source, Sections(names, contents))
      == Ok(Join(Lines(EditedDocument(doc, at, Sections(names, contents)))))
  {
    var sections := Sections(names, contents);
    var edited := EditedDocument(doc, at, sections);
    SplitIsTidy(source, doc);
    ScaffoldedIsMarked(doc, at, names, contents);
    RewritingRefinesLineEditing(doc, at, sections);
    EditedIsBare(doc, at, names, contents);
    LinesOf(edited, LEAD);
    BareIsKept(Lines(edited));
  }
}
