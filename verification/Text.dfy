/** The string functions the scaffolder uses, with the facts that relate text and lines. */
module Text {

  predicate OccursAt(s: string, m: string, i: int) {
    0 <= i && i + |m| <= |s| && s[i..i + |m|] == m
  }

  /** Go's `strings.Index`: the first place `m` occurs, or -1. */
  function Index(s: string, m: string): (r: int)
    ensures -1 <= r
    ensures r == -1 || OccursAt(s, m, r)
    ensures forall j :: OccursAt(s, m, j) ==> 0 <= r <= j
  {
    IndexFrom(s, m, 0)
  }

  function IndexFrom(s: string, m: string, i: nat): (r: int)
    ensures -1 <= r
    ensures r == -1 || OccursAt(s, m, r)
    ensures forall j :: j >= i && OccursAt(s, m, j) ==> 0 <= r <= j
    decreases |s| - i
  {
    if i + |m| > |s| then -1
    else if s[i..i + |m|] == m then i
    else IndexFrom(s, m, i + 1)
  }

  predicate Contains(s: string, m: string) { Index(s, m) >= 0 }

  /** Go's `strings.Join` with a newline. */
  function Join(lines: seq<string>): string {
    if lines == [] then ""
    else if |lines| == 1 then lines[0]
    else lines[0] + "\n" + Join(lines[1..])
  }

  /** Go's `strings.Split` at newlines: one more line than there are newlines. */
  function Split(s: string): (lines: seq<string>)
    ensures lines != []
  {
    if s == "" then [""]
    else
      var rest := Split(s[1..]);
      if s[0] == '\n' then [""] + rest else [[s[0]] + rest[0]] + rest[1..]
  }

  /** The lines, each with a newline after it. */
  function Unlines(lines: seq<string>): string {
    if lines == [] then "" else lines[0] + "\n" + Unlines(lines[1..])
  }

  predicate OneLine(s: string) { '\n' !in s }

  predicate AllOneLine(lines: seq<string>) {
    forall i :: 0 <= i < |lines| ==> OneLine(lines[i])
  }

  predicate NoneContains(lines: seq<string>, m: string) {
    forall i :: 0 <= i < |lines| ==> !Contains(lines[i], m)
  }

  // ---------- lines and text ----------

  lemma {:induction false} SplitLine(line: string, tail: string)
    requires OneLine(line)
    ensures Split(line) == [line]
    ensures Split(line + "\n" + tail) == [line] + Split(tail)
    decreases |line|
  {
    var s := line + "\n" + tail;
    if line == "" {
      assert s[1..] == tail;
    } else {
      SplitLine(line[1..], tail);
      assert s[1..] == line[1..] + "\n" + tail;
      assert [line[0]] + line[1..] == line;
    }
  }

  lemma {:induction false} SplitJoin(lines: seq<string>)
    requires lines != [] && AllOneLine(lines)
    ensures Split(Join(lines)) == lines
    decreases |lines|
  {
    if |lines| == 1 {
      SplitLine(lines[0], "");
    } else {
      SplitJoin(lines[1..]);
      SplitLine(lines[0], Join(lines[1..]));
    }
  }

  lemma {:induction false} JoinSplit(s: string)
    ensures Join(Split(s)) == s && AllOneLine(Split(s))
    decreases |s|
  {
    if s != "" {
      JoinSplit(s[1..]);
      var rest := Split(s[1..]);
      var lines := Split(s);
      if s[0] == '\n' {
        assert lines[1..] == rest;
      } else {
        assert lines[1..] == rest[1..];
      }
      assert s == [s[0]] + s[1..];
    }
  }

  /** Text before a line ends in a newline. */
  lemma {:induction false} JoinAppend(a: seq<string>, b: seq<string>)
    requires b != []
    ensures Join(a + b) == Unlines(a) + Join(b)
    decreases |a|
  {
    if a == [] {
      assert a + b == b;
    } else {
      assert (a + b)[1..] == a[1..] + b;
      JoinAppend(a[1..], b);
    }
  }

  lemma {:induction false} UnlinesAppend(a: seq<string>, b: seq<string>)
    ensures Unlines(a + b) == Unlines(a) + Unlines(b)
    decreases |a|
  {
    if a == [] {
      assert a + b == b;
    } else {
      assert (a + b)[1..] == a[1..] + b;
      UnlinesAppend(a[1..], b);
    }
  }

  // ---------- searching ----------

  /** An occurrence in a part is one in the whole. */
  lemma OccursInPart(before: string, part: string, after: string, m: string, i: int)
    ensures 0 <= i && i + |m| <= |part| ==>
      (OccursAt(part, m, i) <==> OccursAt(before + part + after, m, |before| + i))
  {
    if 0 <= i && i + |m| <= |part| {
      assert (before + part + after)[|before| + i..|before| + i + |m|] == part[i..i + |m|];
    }
  }

  /** Text put after an occurrence does not move the first one. */
  lemma IndexThenText(s: string, after: string, m: string)
    requires Contains(s, m)
    ensures Index(s + after, m) == Index(s, m)
  {
    assert "" + s + after == s + after;
    OccursInPart("", s, after, m, Index(s, m));
    OccursInPart("", s, after, m, Index(s + after, m));
  }

  /** A newline-free text does not occur across the newline after a line. */
  lemma NewlineStopsMatch(line: string, rest: string, m: string, j: int)
    requires OneLine(m) && 0 <= j <= |line| < j + |m|
    ensures !OccursAt(line + "\n" + rest, m, j)
  {
    var s := line + "\n" + rest;
    if j + |m| <= |s| {
      assert s[j..j + |m|][|line| - j] == '\n';
    }
  }

  /** An occurrence of a newline-free text lies within one line. */
  lemma IndexSkipsLine(line: string, rest: string, m: string)
    requires OneLine(m) && !Contains(line, m)
    ensures Index(line + "\n" + rest, m) == if Contains(rest, m) then |line| + 1 + Index(rest, m) else -1
  {
    var s := line + "\n" + rest;
    var r := Index(s, m);
    assert "" + line + ("\n" + rest) == s && (line + "\n") + rest + "" == s;
    if r >= 0 {
      if r <= |line| < r + |m| {
        NewlineStopsMatch(line, rest, m, r);
      }
      OccursInPart("", line, "\n" + rest, m, r);
      OccursInPart(line + "\n", rest, "", m, r - |line| - 1);
    }
    OccursInPart(line + "\n", rest, "", m, Index(rest, m));
  }

  lemma {:induction false} IndexSkipsLines(lines: seq<string>, rest: string, m: string)
    requires OneLine(m) && NoneContains(lines, m)
    ensures Index(Unlines(lines) + rest, m) == if Contains(rest, m) then |Unlines(lines)| + Index(rest, m) else -1
    decreases |lines|
  {
    if lines == [] {
      assert Unlines(lines) + rest == rest;
    } else {
      IndexSkipsLines(lines[1..], rest, m);
      assert Unlines(lines) + rest == lines[0] + "\n" + (Unlines(lines[1..]) + rest);
      IndexSkipsLine(lines[0], Unlines(lines[1..]) + rest, m);
    }
  }

  lemma {:induction false} JoinContainsNone(lines: seq<string>, m: string)
    requires m != "" && OneLine(m) && NoneContains(lines, m)
    ensures !Contains(Join(lines), m)
    decreases |lines|
  {
    if |lines| > 1 {
      JoinContainsNone(lines[1..], m);
      IndexSkipsLine(lines[0], Join(lines[1..]), m);
    }
  }

  /** Some text in the line `line` of a document, and none before it. */
  lemma IndexInDocument(a: seq<string>, line: string, b: seq<string>, m: string)
    requires OneLine(m) && NoneContains(a, m) && Contains(line, m)
    ensures Index(Join(a + [line] + b), m) == |Unlines(a)| + Index(line, m)
    ensures Join(a + [line] + b) == Unlines(a) + Join([line] + b)
  {
    assert a + [line] + b == a + ([line] + b);
    JoinAppend(a, [line] + b);
    if b == [] {
      assert [line] + b == [line];
    } else {
      assert ([line] + b)[1..] == b;
      assert Join([line] + b) == line + ("\n" + Join(b));
      IndexThenText(line, "\n" + Join(b), m);
    }
    IndexSkipsLines(a, Join([line] + b), m);
  }

  // ---------- white space ----------

  /** Go's `unicode.IsSpace`. */
  predicate IsSpace(c: char) {
    var n := c as int;
    || 0x09 <= n <= 0x0D || n == 0x20 || n == 0x85 || n == 0xA0 || n == 0x1680
    || 0x2000 <= n <= 0x200A || n == 0x2028 || n == 0x2029 || n == 0x202F || n == 0x205F || n == 0x3000
  }

  function TrimLeft(s: string): string {
    if s != "" && IsSpace(s[0]) then TrimLeft(s[1..]) else s
  }

  function TrimRight(s: string): string {
    if s != "" && IsSpace(s[|s| - 1]) then TrimRight(s[..|s| - 1]) else s
  }

  /** Go's `strings.TrimSpace`. */
  function TrimSpace(s: string): string { TrimRight(TrimLeft(s)) }

  predicate HasPrefix(s: string, prefix: string) {
    |s| >= |prefix| && s[..|prefix|] == prefix
  }

  predicate AllSpace(s: string) {
    forall i :: 0 <= i < |s| ==> IsSpace(s[i])
  }

  lemma {:induction false} TrimLeftDropsSpace(space: string, s: string)
    requires AllSpace(space) && s != "" && !IsSpace(s[0])
    ensures TrimLeft(space + s) == s
    decreases |space|
  {
    if space == "" {
      assert space + s == s;
    } else {
      assert (space + s)[1..] == space[1..] + s;
      TrimLeftDropsSpace(space[1..], s);
    }
  }

  lemma {:induction false} TrimRightKeeps(s: string, tail: string)
    requires s != "" && !IsSpace(s[|s| - 1])
    ensures HasPrefix(TrimRight(s + tail), s)
    decreases |tail|
  {
    var t := s + tail;
    if tail == "" {
      assert t == s;
    } else if IsSpace(t[|t| - 1]) {
      assert t[..|t| - 1] == s + tail[..|tail| - 1];
      TrimRightKeeps(s, tail[..|tail| - 1]);
    }
  }

  lemma {:induction false} TrimLeftIsSuffix(s: string)
    ensures |TrimLeft(s)| <= |s| && TrimLeft(s) == s[|s| - |TrimLeft(s)|..]
    decreases |s|
  {
    if s != "" && IsSpace(s[0]) {
      TrimLeftIsSuffix(s[1..]);
    }
  }

  lemma {:induction false} TrimRightIsPrefix(s: string)
    ensures HasPrefix(s, TrimRight(s))
    decreases |s|
  {
    if s != "" && IsSpace(s[|s| - 1]) {
      var front := s[..|s| - 1];
      TrimRightIsPrefix(front);
      assert s[..|TrimRight(front)|] == front[..|TrimRight(front)|];
    }
  }

  lemma {:induction false} TrimLeftDropsOnlySpace(s: string)
    ensures |TrimLeft(s)| <= |s| && AllSpace(s[..|s| - |TrimLeft(s)|])
    decreases |s|
  {
    if s != "" && IsSpace(s[0]) {
      TrimLeftDropsOnlySpace(s[1..]);
      var k := |s| - |TrimLeft(s)|;
      assert s[..k] == [s[0]] + s[1..][..k - 1];
    }
  }

  lemma {:induction false} TrimRightEndsInText(s: string)
    ensures TrimRight(s) != "" ==> !IsSpace(TrimRight(s)[|TrimRight(s)| - 1])
    decreases |s|
  {
    if s != "" && IsSpace(s[|s| - 1]) {
      TrimRightEndsInText(s[..|s| - 1]);
    }
  }

  /** White space, the lead, and then some text that is not all white space. */
  ghost predicate LedBy(line: string, lead: string) {
    exists space, rest :: line == space + lead + rest && AllSpace(space) && !AllSpace(rest)
  }

  /** What a text begins with once trimmed at its end, it begins with; if that ends in white
      space, something follows. */
  lemma TrimmedEnd(text: string, lead: string) returns (rest: string)
    requires lead != "" && IsSpace(lead[|lead| - 1]) && HasPrefix(TrimRight(text), lead)
    ensures text == lead + rest && !AllSpace(rest)
  {
    var kept := TrimRight(text);
    TrimRightIsPrefix(text);
    TrimRightEndsInText(text);
    rest := text[|lead|..];
    assert text[..|lead|] == kept[..|lead|];
    var last := |kept| - 1;
    assert kept[last] == text[last] && kept[|lead| - 1] == lead[|lead| - 1];
    assert rest[last - |lead|] == text[last];
  }

  lemma LedFromTrimmed(line: string, lead: string)
    requires lead != "" && IsSpace(lead[|lead| - 1]) && HasPrefix(TrimSpace(line), lead)
    ensures LedBy(line, lead)
  {
    var left := TrimLeft(line);
    TrimLeftIsSuffix(line);
    TrimLeftDropsOnlySpace(line);
    var space := line[..|line| - |left|];
    var rest := TrimmedEnd(left, lead);
    assert line == space + left;
    assert line == space + lead + rest;
  }

  /** Text that is not all white space ends, up to white space, in some other character. */
  lemma {:induction false} LastText(rest: string) returns (front: string, tail: string)
    requires !AllSpace(rest)
    ensures rest == front + tail && front != "" && !IsSpace(front[|front| - 1])
    decreases |rest|
  {
    var n := |rest| - 1;
    if IsSpace(rest[n]) {
      assert !AllSpace(rest[..n]) by {
        var i :| 0 <= i < |rest| && !IsSpace(rest[i]);
        assert rest[..n][i] == rest[i];
      }
      front, tail := LastText(rest[..n]);
      tail := tail + [rest[n]];
    } else {
      front, tail := rest, "";
    }
  }

  lemma StartIsKept(lead: string, front: string, tail: string)
    requires front != "" && !IsSpace(front[|front| - 1])
    ensures HasPrefix(TrimRight(lead + front + tail), lead)
  {
    TrimRightKeeps(lead + front, tail);
    var kept := TrimRight(lead + front + tail);
    assert kept[..|lead + front|][..|lead|] == kept[..|lead|];
  }

  lemma TrimmedFromLed(line: string, lead: string)
    requires lead != "" && !IsSpace(lead[0]) && LedBy(line, lead)
    ensures HasPrefix(TrimSpace(line), lead)
  {
    var space, rest :| line == space + lead + rest && AllSpace(space) && !AllSpace(rest);
    var front, tail := LastText(rest);
    StartIsKept(lead, front, tail);
    assert line == space + (lead + rest);
    TrimLeftDropsSpace(space, lead + rest);
    assert lead + rest == lead + front + tail;
  }

  /** What a trimmed line starts with is in the line. */
  lemma TrimmedStartOccurs(line: string, m: string)
    requires HasPrefix(TrimSpace(line), m)
    ensures Contains(line, m)
  {
    var left := TrimLeft(line);
    TrimLeftIsSuffix(line);
    TrimRightIsPrefix(left);
    var k := |line| - |left|;
    assert left[..|m|] == m;
    assert line[k..k + |m|] == left[..|m|];
    assert OccursAt(line, m, k);
  }
}
