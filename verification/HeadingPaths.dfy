// The chunks of a document and the heading paths they carry, read off its lines.
module HeadingPaths {
  import opened InvertedIndexes
  import opened MarkdownChunker
  import opened ChunkerTheorems
  import opened Outlines

  // --- where chunks end ---------------------------------------------------------------------

  // The lines below the last heading.
  function SectionOf(lines: seq<string>): string {
    if lines == [] then ""
    else
      var last := lines[|lines| - 1];
      if HeadingLevel(last) > 0 then "" else SectionOf(lines[..|lines| - 1]) + last + "\n"
  }

  // The text a chunk that ends here takes up: its section, and for the first heading also
  // what stands above it.
  function TextAt(lines: seq<string>): string {
    if |HeadingsOf(lines)| <= 1 then BodyOf(lines) else SectionOf(lines)
  }

  predicate HasText(lines: seq<string>) {
    HeadingsOf(lines) != [] && NoSpaces(TextAt(lines)) != ""
  }

  // The heading lines that end a chunk.
  function EndsBefore(lines: seq<string>): (ends: seq<nat>)
    ensures InRange(ends, |lines|)
  {
    if lines == [] then []
    else
      var (n, before) := (|lines| - 1, lines[..|lines| - 1]);
      EndsBefore(before) + if HeadingLevel(lines[n]) > 0 && HasText(before) then [n] else []
  }

  // And the end of the document.
  function Ends(lines: seq<string>): (ends: seq<nat>)
    ensures InRange(ends, |lines| + 1)
  {
    EndsBefore(lines) + if HasText(lines) then [|lines|] else []
  }

  // --- the stack ----------------------------------------------------------------------------

  lemma PushedTexts(hs: seq<Heading>, h: Heading)
    requires h.level > 0
    ensures TextsAt(hs + [h], Stack(hs + [h])) == PushHeading(TextsAt(hs, Stack(hs)), h.level, h.text)
  {
    var all := hs + [h];
    assert all[..|hs|] == hs && all[|hs|] == h;
    var (open, kept) := (Stack(hs), Kept(|Stack(hs)|, h.level));
    assert Stack(all) == open[..kept] + [|hs|];
    hide Stack;
    assert TextsAt(all, open[..kept]) == TextsAt(hs, open)[..kept];
  }

  lemma StepHeadings(src: Source, s: State, line: string)
    ensures Step(src, s, line).headings ==
      if HeadingLevel(line) > 0 then PushHeading(s.headings, HeadingLevel(line), HeadingText(line)) else s.headings
  {
    FlushKeepsHeadings(src, s);
    hide Flush, HeadingLevel, HeadingText;
  }

  lemma HeadingsSnoc(before: seq<string>, last: string)
    ensures HeadingsOf(before + [last]) ==
      if HeadingLevel(last) > 0 then HeadingsOf(before) + [Heading(HeadingLevel(last), HeadingText(last))]
      else HeadingsOf(before)
  {
    hide HeadingLevel, HeadingText;
    assert (before + [last])[..|before|] == before;
  }

  lemma NothingStacked()
    ensures TextsAt([], Stack([])) == []
  {
  }

  // The chunker's heading list is the stack.
  lemma {:induction false} StepsKeepStack(src: Source, lines: seq<string>)
    ensures Steps(src, lines).headings == TextsAt(HeadingsOf(lines), Stack(HeadingsOf(lines)))
  {
    if lines == [] {
      NothingStacked();
    } else {
      hide Step, HeadingLevel, HeadingText, Stack, PushHeading, TextsAt, HeadingsOf;
      var (before, last) := (lines[..|lines| - 1], lines[|lines| - 1]);
      assert lines == before + [last];
      StepsKeepStack(src, before);
      StepHeadings(src, Steps(src, before), last);
      HeadingsSnoc(before, last);
      if HeadingLevel(last) > 0 {
        PushedTexts(HeadingsOf(before), Heading(HeadingLevel(last), HeadingText(last)));
      }
    }
  }

  lemma {:induction false} StackNotEmpty(hs: seq<Heading>)
    ensures Stack(hs) == [] <==> hs == []
  {
  }

  lemma StackedIffHeaded(src: Source, lines: seq<string>)
    ensures Steps(src, lines).headings == [] <==> HeadingsOf(lines) == []
  {
    StepsKeepStack(src, lines);
    StackNotEmpty(HeadingsOf(lines));
    hide Stack, Steps, HeadingsOf;
  }

  // --- the body -----------------------------------------------------------------------------

  lemma {:induction false} TrimRightEnds(s: string)
    ensures TrimRight(s) == "" || !IsSpace(TrimRight(s)[|TrimRight(s)| - 1])
  {
    if s != "" && IsSpace(s[|s| - 1]) {
      TrimRightEnds(s[..|s| - 1]);
    }
  }

  lemma TrimmedAway(s: string)
    ensures Trim(s) == "" <==> NoSpaces(s) == ""
  {
    TrimKeepsText(s);
    TrimRightEnds(TrimLeft(s));
  }

  lemma SectionSnoc(before: seq<string>, last: string)
    ensures SectionOf(before + [last]) == if HeadingLevel(last) > 0 then "" else SectionOf(before) + last + "\n"
  {
    hide HeadingLevel;
    assert (before + [last])[..|before|] == before;
  }

  lemma TextSnoc(before: seq<string>, last: string)
    ensures TextAt(before + [last]) ==
      if HeadingLevel(last) == 0 then TextAt(before) + (last + "\n")
      else if HeadingsOf(before) == [] then TextAt(before)
      else ""
  {
    HeadingsSnoc(before, last);
    SectionSnoc(before, last);
    BodyOfSnoc(before, last);
    hide HeadingsOf, SectionOf, BodyOf, HeadingLevel, HeadingText;
    assert SectionOf(before) + last + "\n" == SectionOf(before) + (last + "\n");
  }

  lemma BodyAfterFlush(src: Source, s: State)
    ensures NoSpaces(Flush(src, s).body) == if s.headings == [] then NoSpaces(s.body) else ""
  {
    TrimKeepsText(s.body);
    FlushKeepsText(src, s);
    assert NoSpaces("") == "";
  }

  lemma LineAdds(body: string, text: string, line: string)
    requires NoSpaces(body) == NoSpaces(text)
    ensures NoSpaces(body + line + "\n") == NoSpaces(text + (line + "\n"))
  {
    hide NoSpaces;
    assert body + line + "\n" == body + (line + "\n");
    NoSpacesJoins(body, line + "\n");
    NoSpacesJoins(text, line + "\n");
  }

  // Up to white space the buffer holds the text a chunk would take up.
  lemma {:induction false} StepsKeepBody(src: Source, lines: seq<string>)
    ensures NoSpaces(Steps(src, lines).body) == NoSpaces(TextAt(lines))
  {
    if lines != [] {
      hide NoSpaces, TextAt, Step, Flush, HeadingLevel, HeadingsOf;
      var (before, last) := (lines[..|lines| - 1], lines[|lines| - 1]);
      assert lines == before + [last];
      StepsKeepBody(src, before);
      var s := Steps(src, before);
      StepText(src, s, last);
      BodyAfterFlush(src, s);
      StackedIffHeaded(src, before);
      TextSnoc(before, last);
      LineAdds(s.body, TextAt(before), last);
    }
  }

  // --- the title ----------------------------------------------------------------------------

  // The text of the last heading of level 1, or nothing when there is none.
  ghost predicate IsTitle(hs: seq<Heading>, title: string) {
    || (title == "" && forall j :: 0 <= j < |hs| ==> hs[j].level != 1)
    || exists i :: 0 <= i < |hs| && hs[i].level == 1 && hs[i].text == title && forall j :: i < j < |hs| ==> hs[j].level != 1
  }

  lemma TitleSnoc(hs: seq<Heading>, h: Heading, title: string)
    requires IsTitle(hs, title)
    ensures IsTitle(hs + [h], if h.level == 1 then h.text else title)
  {
    var all := hs + [h];
    if h.level == 1 {
      assert all[|hs|] == h;
    } else if i :| 0 <= i < |hs| && hs[i].level == 1 && hs[i].text == title && forall j :: i < j < |hs| ==> hs[j].level != 1 {
      assert all[i] == hs[i];
    }
  }

  lemma StepTitle(src: Source, s: State, line: string)
    ensures Step(src, s, line).title == if HeadingLevel(line) == 1 then HeadingText(line) else s.title
  {
    hide HeadingLevel, HeadingText, Trim, JoinHeadings;
  }

  lemma {:induction false} StepsKeepTitle(src: Source, lines: seq<string>)
    ensures IsTitle(HeadingsOf(lines), Steps(src, lines).title)
  {
    if lines != [] {
      hide Step, HeadingLevel, HeadingText, HeadingsOf, IsTitle;
      var (before, last) := (lines[..|lines| - 1], lines[|lines| - 1]);
      assert lines == before + [last];
      StepsKeepTitle(src, before);
      StepTitle(src, Steps(src, before), last);
      HeadingsSnoc(before, last);
      if HeadingLevel(last) > 0 {
        TitleSnoc(HeadingsOf(before), Heading(HeadingLevel(last), HeadingText(last)), Steps(src, before).title);
      }
    }
  }

  // --- chunks -------------------------------------------------------------------------------

  // A chunk that ends at line n: its path is that of the headings above, its title the last
  // of them on level 1, its text that of its section.
  ghost predicate ChunkAt(chunk: DocumentChunk, lines: seq<string>, n: nat)
    requires n <= |lines|
  {
    && chunk.headingPath == CodePath(HeadingsOf(lines[..n]))
    && IsTitle(HeadingsOf(lines[..n]), chunk.title)
    && NoSpaces(chunk.rawText) == NoSpaces(TextAt(lines[..n]))
  }

  ghost predicate ChunksAt(chunks: seq<DocumentChunk>, lines: seq<string>, ends: seq<nat>) {
    && |chunks| == |ends| && InRange(ends, |lines| + 1)
    && forall i :: 0 <= i < |chunks| ==> ChunkAt(chunks[i], lines, ends[i])
  }

  lemma FlushedChunk(src: Source, lines: seq<string>)
    ensures var (s, f) := (Steps(src, lines), Flush(src, Steps(src, lines)));
      if HasText(lines) then |f.chunks| == |s.chunks| + 1 && f.chunks[..|s.chunks|] == s.chunks
        && ChunkAt(f.chunks[|s.chunks|], lines, |lines|)
      else f.chunks == s.chunks
  {
    var s := Steps(src, lines);
    StepsKeepStack(src, lines);
    StepsKeepTitle(src, lines);
    StackedIffHeaded(src, lines);
    StepsKeepBody(src, lines);
    TrimmedAway(s.body);
    TrimKeepsText(s.body);
    assert lines[..|lines|] == lines;
    hide Steps, NoSpaces, Trim, TextAt, HeadingsOf, Stack, TextsAt, JoinHeadings, IsTitle;
  }

  lemma ChunkAtOfMore(chunk: DocumentChunk, before: seq<string>, last: string, n: nat)
    requires n <= |before| && ChunkAt(chunk, before, n)
    ensures ChunkAt(chunk, before + [last], n)
  {
    hide CodePath, HeadingsOf, TextAt, NoSpaces, IsTitle;
    assert (before + [last])[..n] == before[..n];
  }

  lemma ChunksAtOfMore(chunks: seq<DocumentChunk>, before: seq<string>, last: string, ends: seq<nat>)
    requires ChunksAt(chunks, before, ends)
    ensures ChunksAt(chunks, before + [last], ends)
  {
    hide ChunkAt;
    forall i | 0 <= i < |chunks| ensures ChunkAt(chunks[i], before + [last], ends[i]) {
      ChunkAtOfMore(chunks[i], before, last, ends[i]);
    }
  }

  lemma OneMoreChunk(chunks: seq<DocumentChunk>, chunk: DocumentChunk, lines: seq<string>, ends: seq<nat>, n: nat)
    requires ChunksAt(chunks, lines, ends) && n <= |lines| && ChunkAt(chunk, lines, n)
    ensures ChunksAt(chunks + [chunk], lines, ends + [n])
  {
    hide ChunkAt;
  }

  lemma EndsSnoc(before: seq<string>, last: string)
    ensures EndsBefore(before + [last]) ==
      if HeadingLevel(last) > 0 && HasText(before) then EndsBefore(before) + [|before|] else EndsBefore(before)
  {
    hide HeadingLevel, HasText;
    assert (before + [last])[..|before|] == before;
  }

  lemma FlushedAt(src: Source, lines: seq<string>)
    requires ChunksAt(Steps(src, lines).chunks, lines, EndsBefore(lines))
    ensures ChunksAt(Flush(src, Steps(src, lines)).chunks, lines, Ends(lines))
  {
    FlushedChunk(src, lines);
    hide Steps, Flush, ChunkAt, HasText, EndsBefore, ChunksAt;
    var (s, f) := (Steps(src, lines), Flush(src, Steps(src, lines)));
    if HasText(lines) {
      OneMoreChunk(s.chunks, f.chunks[|s.chunks|], lines, EndsBefore(lines), |lines|);
      assert f.chunks == s.chunks + [f.chunks[|s.chunks|]];
    } else {
      assert EndsBefore(lines) + [] == EndsBefore(lines);
    }
  }

  lemma {:induction false} StepsMakeChunks(src: Source, lines: seq<string>)
    ensures ChunksAt(Steps(src, lines).chunks, lines, EndsBefore(lines))
  {
    if lines != [] {
      hide Step, Flush, ChunksAt, EndsBefore, HasText, HeadingLevel;
      var (before, last) := (lines[..|lines| - 1], lines[|lines| - 1]);
      assert lines == before + [last];
      StepsMakeChunks(src, before);
      StepText(src, Steps(src, before), last);
      FlushedAt(src, before);
      EndsSnoc(before, last);
      ChunksAtOfMore(Steps(src, before).chunks, before, last, EndsBefore(before));
      ChunksAtOfMore(Flush(src, Steps(src, before)).chunks, before, last, Ends(before));
    }
  }

  // The chunks of a document with headings, one by one: where each ends, what it takes up,
  // and the heading path it carries. A document without headings has its title for a path.
  lemma ChunkPaths(src: Source, content: string)
    ensures var (lines, chunks) := (Lines(content), Chunks(src, content));
      if HeadingsOf(lines) != [] then ChunksAt(chunks, lines, Ends(lines))
      else |chunks| <= 1 && forall chunk <- chunks :: chunk.headingPath == chunk.title == PlainTextTitle(src.path)
  {
    var lines := Lines(content);
    var s := Steps(src, lines);
    StepsMakeChunks(src, lines);
    FlushedAt(src, lines);
    StackedIffHeaded(src, lines);
    StepsNumberChunks(src, lines);
    FlushKeepsHeadings(src, s);
    hide Lines, Steps, ChunksAt, HeadingsOf, Trim, PlainTextTitle, HasText;
  }

  // --- filed right --------------------------------------------------------------------------

  ghost predicate FiledRight(chunks: seq<DocumentChunk>, lines: seq<string>)
    requires ChunksAt(chunks, lines, Ends(lines))
  {
    forall i :: 0 <= i < |chunks| ==> chunks[i].headingPath == OutlinePath(HeadingsOf(lines[..Ends(lines)[i]]))
  }

  // Every chunk carries the path of the headings that enclose it exactly when each section
  // with text is filed, which the levels of the headings decide, and whether they have text.
  lemma ChunksFiledExactly(src: Source, content: string)
    requires HeadingsOf(Lines(content)) != []
    ensures var lines := Lines(content);
      && ChunksAt(Chunks(src, content), lines, Ends(lines))
      && (FiledRight(Chunks(src, content), lines) <==> forall n <- Ends(lines) :: Filed(HeadingsOf(lines[..n])))
  {
    ChunkPaths(src, content);
    var (lines, chunks) := (Lines(content), Chunks(src, content));
    var ends := Ends(lines);
    hide Lines, Chunks, Ends, HeadingsOf, CodePath, OutlinePath, Filed, TextAt, NoSpaces;
    forall i | 0 <= i < |chunks|
      ensures chunks[i].headingPath == OutlinePath(HeadingsOf(lines[..ends[i]])) <==> Filed(HeadingsOf(lines[..ends[i]]))
    {
      assert ChunkAt(chunks[i], lines, ends[i]);
      HeadingsHaveLevels(lines[..ends[i]]);
      PathExactly(HeadingsOf(lines[..ends[i]]));
    }
    forall n | n in ends ensures exists i :: 0 <= i < |chunks| && ends[i] == n {
    }
  }

  lemma {:induction false} HeadingsOfFront(lines: seq<string>, n: nat)
    requires n <= |lines|
    ensures HeadingsOf(lines[..n]) <= HeadingsOf(lines)
    decreases |lines|
  {
    if n == |lines| {
      assert lines[..n] == lines;
    } else {
      var (before, last) := (lines[..|lines| - 1], lines[|lines| - 1]);
      HeadingsOfFront(before, n);
      assert before[..n] == lines[..n] && lines == before + [last];
      HeadingsSnoc(before, last);
      hide HeadingsOf, HeadingLevel, HeadingText;
    }
  }

  // In particular when the levels fit, or when no level is skipped.
  lemma FittingLevelsFile(src: Source, content: string)
    requires HeadingsOf(Lines(content)) != []
    requires LevelsFit(HeadingsOf(Lines(content))) || NoSkips(HeadingsOf(Lines(content)))
    ensures ChunksAt(Chunks(src, content), Lines(content), Ends(Lines(content)))
    ensures FiledRight(Chunks(src, content), Lines(content))
  {
    var lines := Lines(content);
    ChunksFiledExactly(src, content);
    HeadingsHaveLevels(lines);
    hide Lines, Chunks, Ends, HeadingsOf, LevelsPositive, LevelsFit, NoSkips, Filed, FiledRight, ChunksAt;
    forall n | n in Ends(lines) ensures Filed(HeadingsOf(lines[..n])) {
      assert n <= |lines|;
      HeadingsOfFront(lines, n);
      FrontIsFiled(HeadingsOf(lines), HeadingsOf(lines[..n]));
    }
  }

  lemma FrontIsFiled(hs: seq<Heading>, front: seq<Heading>)
    requires front <= hs && (NoSkips(hs) || (LevelsFit(hs) && LevelsPositive(hs)))
    ensures Filed(front)
  {
    assert front == hs[..|front|];
    hide Filed, LevelsFit, NoSkips;
    if NoSkips(hs) {
      NoSkipsBefore(hs, |front|);
      NoSkipsFiles(front);
    } else {
      FitSoAgree(hs, |front|);
      PositiveBefore(hs, |front|);
      PathExactly(front);
      hide Stack, Outline;
    }
  }

  // --- a misfiled section -------------------------------------------------------------------

  function Unlines(lines: seq<string>): string {
    if lines == [] then "" else if |lines| == 1 then lines[0] else lines[0] + "\n" + Unlines(lines[1..])
  }

  lemma LineEndAt(s: string, from: nat, end: nat)
    requires from <= end <= |s| && (end < |s| ==> s[end] == '\n') && forall i :: from <= i < end ==> s[i] != '\n'
    ensures LineEnd(s, from) == end
  {
  }

  // A document is read line by line, as it was written.
  lemma {:induction false} LinesRead(above: string, lines: seq<string>)
    requires (forall line <- lines :: '\n' !in line) && (lines != [] ==> lines[|lines| - 1] != "")
    ensures LinesFrom(above + Unlines(lines), |above|) == lines
    decreases |lines|
  {
    hide LineEnd, LinesFrom;
    var s := above + Unlines(lines);
    if lines != [] {
      assert '\n' !in lines[0] && forall i :: |above| <= i < |above| + |lines[0]| ==> s[i] == lines[0][i - |above|];
    }
    if lines == [] {
      NoLine(s);
    } else if |lines| == 1 {
      LineEndAt(s, |above|, |s|);
      NextLine(s, |above|);
      NoLine(s);
      assert s[|above|..|s|] == lines[0] && [lines[0]] + [] == lines;
    } else {
      var (line, rest) := (lines[0], Unlines(lines[1..]));
      var end := |above| + |line|;
      assert s == above + line + "\n" + rest;
      LineEndAt(s, |above|, end);
      NextLine(s, |above|);
      LinesRead(above + line + "\n", lines[1..]);
      assert s[|above|..end] == line && |above + line + "\n"| == end + 1;
      assert lines == [line] + lines[1..];
    }
  }

  // Three headings, the last two on one level that skips another, and a line of text.
  ghost predicate IsMisfiled(a: string, b: string, c: string, d: string) {
    && HeadingLevel(a) == 1 && HeadingLevel(b) == HeadingLevel(c) == 3 && HeadingLevel(d) == 0
    && HeadingText(a) != "" && HeadingText(b) != "" && HeadingText(c) != "" && NoSpaces(d) != ""
    && '\n' !in a && '\n' !in b && '\n' !in c && '\n' !in d
  }

  lemma ThreeHeadings(a: string, b: string, c: string, d: string)
    requires IsMisfiled(a, b, c, d)
    ensures HeadingsOf([a]) == [Heading(1, HeadingText(a))]
    ensures HeadingsOf([a, b]) == [Heading(1, HeadingText(a)), Heading(3, HeadingText(b))]
    ensures HeadingsOf([a, b, c]) == HeadingsOf([a, b, c, d]) ==
      [Heading(1, HeadingText(a)), Heading(3, HeadingText(b)), Heading(3, HeadingText(c))]
  {
    hide HeadingLevel, HeadingText;
    HeadingsSnoc([], a);
    HeadingsSnoc([a], b);
    HeadingsSnoc([a, b], c);
    HeadingsSnoc([a, b, c], d);
    assert HeadingsOf([]) == [];
    hide HeadingsOf;
    assert [] + [a] == [a] && [a] + [b] == [a, b] && [a, b] + [c] == [a, b, c] && [a, b, c] + [d] == [a, b, c, d];
  }

  lemma Prefixes(a: string, b: string, c: string, d: string)
    ensures [] + [a] == [a] && [a] + [b] == [a, b] && [a, b] + [c] == [a, b, c] && [a, b, c] + [d] == [a, b, c, d]
  {
  }

  lemma TextsThere(a: string, b: string, c: string, d: string)
    requires IsMisfiled(a, b, c, d)
    ensures TextAt([a]) == "" && TextAt([a, b]) == "" && TextAt([a, b, c]) == "" && TextAt([a, b, c, d]) == "" + (d + "\n")
  {
    ThreeHeadings(a, b, c, d);
    NothingYet();
    hide HeadingLevel, HeadingText, HeadingsOf, TextAt, NoSpaces;
    Prefixes(a, b, c, d);
    TextSnoc([], a);
    TextSnoc([a], b);
    TextSnoc([a, b], c);
    TextSnoc([a, b, c], d);
  }

  lemma NothingYet()
    ensures EndsBefore([]) == [] && TextAt([]) == "" && HeadingsOf([]) == [] && NoSpaces("") == ""
  {
  }

  lemma TextlessSoNone(lines: seq<string>)
    ensures TextAt(lines) == "" ==> !HasText(lines)
    ensures HeadingsOf(lines) != [] && NoSpaces(TextAt(lines)) != "" ==> HasText(lines)
  {
  }

  lemma OneEnd(a: string, b: string, c: string, d: string)
    requires IsMisfiled(a, b, c, d)
    ensures Ends([a, b, c, d]) == [4]
  {
    ThreeHeadings(a, b, c, d);
    TextsThere(a, b, c, d);
    NothingYet();
    TextlessSoNone([]);
    TextlessSoNone([a]);
    TextlessSoNone([a, b]);
    TextlessSoNone([a, b, c, d]);
    LineHasText(d);
    hide HeadingLevel, HeadingText, HeadingsOf, TextAt, EndsBefore, NoSpaces, HasText;
    Prefixes(a, b, c, d);
    EndsSnoc([], a);
    EndsSnoc([a], b);
    EndsSnoc([a, b], c);
    EndsSnoc([a, b, c], d);
  }

  lemma LineHasText(line: string)
    requires NoSpaces(line) != ""
    ensures NoSpaces("" + (line + "\n")) != ""
  {
    NoSpacesJoins(line, "\n");
    hide NoSpaces;
    assert "" + (line + "\n") == line + "\n";
  }

  lemma StackSnoc(hs: seq<Heading>, h: Heading)
    ensures Stack(hs + [h]) == Stack(hs)[..Kept(|Stack(hs)|, h.level)] + [|hs|]
  {
    assert (hs + [h])[..|hs|] == hs;
  }

  lemma OutlineSnoc(hs: seq<Heading>, h: Heading, n: nat)
    requires n <= |Outline(hs)| && (n < |Outline(hs)| ==> hs[Outline(hs)[n]].level >= h.level)
    requires forall j :: 0 <= j < n ==> hs[Outline(hs)[j]].level < h.level
    ensures Outline(hs + [h]) == Outline(hs)[..n] + [|hs|]
  {
    var (all, open) := (hs + [h], Outline(hs));
    assert all[..|hs|] == hs && all[|hs|] == h;
    assert forall j :: 0 <= j < |open| ==> all[open[j]] == hs[open[j]];
    hide Outline;
    assert Enclosing(all, open, h.level) == n by { hide Enclosing; }
  }

  lemma StacksOfOne(x: Heading)
    requires x.level == 1
    ensures Stack([x]) == [0] && Outline([x]) == [0]
  {
    assert [x][..0] == [];
  }

  lemma StacksOfTwo(x: Heading, y: Heading)
    requires x.level == 1 && y.level == 3
    ensures Stack([x, y]) == [0, 1] && Outline([x, y]) == [0, 1]
  {
    StacksOfOne(x);
    hide Stack, Outline;
    StackSnoc([x], y);
    OutlineSnoc([x], y, 1);
    assert [x] + [y] == [x, y];
  }

  lemma StackOfThree(x: Heading, y: Heading, z: Heading)
    requires x.level == 1 && y.level == z.level == 3
    ensures Stack([x, y, z]) == [0, 1, 2]
  {
    StacksOfTwo(x, y);
    hide Stack, Outline;
    StackSnoc([x, y], z);
    assert [x, y] + [z] == [x, y, z];
  }

  lemma OutlineOfThree(x: Heading, y: Heading, z: Heading)
    requires x.level == 1 && y.level == z.level == 3
    ensures Outline([x, y, z]) == [0, 2]
  {
    StacksOfTwo(x, y);
    hide Stack, Outline;
    OutlineSnoc([x, y], z, 1);
    assert [x, y] + [z] == [x, y, z];
  }

  lemma JoinOfTwo(a: string, b: string)
    requires a != "" && b != ""
    ensures JoinHeadings([a, b]) == a + " > " + b
  {
    NoTexts();
    hide JoinHeadings;
    JoinSnoc([], a);
    assert [] + [a] == [a];
    JoinSnoc([a], b);
    assert [a] + [b] == [a, b];
  }

  lemma JoinOfThree(a: string, b: string, c: string)
    requires a != "" && b != "" && c != ""
    ensures JoinHeadings([a, b, c]) == a + " > " + b + " > " + c
  {
    JoinOfTwo(a, b);
    hide JoinHeadings;
    JoinSnoc([a, b], c);
    assert [a, b] + [c] == [a, b, c];
  }

  lemma TwoPaths(x: Heading, y: Heading, z: Heading)
    requires x.level == 1 && y.level == z.level == 3 && x.text != "" && y.text != "" && z.text != ""
    ensures CodePath([x, y, z]) == x.text + " > " + y.text + " > " + z.text
    ensures OutlinePath([x, y, z]) == x.text + " > " + z.text
  {
    var hs := [x, y, z];
    hide Stack, Outline, JoinHeadings;
    StackOfThree(x, y, z);
    OutlineOfThree(x, y, z);
    assert TextsAt(hs, [0, 1, 2]) == [x.text, y.text, z.text] && TextsAt(hs, [0, 2]) == [x.text, z.text];
    hide TextsAt;
    JoinOfThree(x.text, y.text, z.text);
    JoinOfTwo(x.text, z.text);
  }

  // The one chunk of such a document is filed under all three headings, although the second
  // was closed by the third.
  lemma MisfiledChunk(src: Source, a: string, b: string, c: string, d: string)
    requires IsMisfiled(a, b, c, d)
    ensures var (content, chunks) := (Unlines([a, b, c, d]), Chunks(src, Unlines([a, b, c, d])));
      && Lines(content) == [a, b, c, d] && |chunks| == 1
      && chunks[0].headingPath == HeadingText(a) + " > " + HeadingText(b) + " > " + HeadingText(c)
      && OutlinePath(HeadingsOf(Lines(content))) == HeadingText(a) + " > " + HeadingText(c)
  {
    var lines := [a, b, c, d];
    assert d != "" by { assert NoSpaces("") == ""; }
    LinesRead("", lines);
    assert "" + Unlines(lines) == Unlines(lines);
    ThreeHeadings(a, b, c, d);
    OneEnd(a, b, c, d);
    ChunkPaths(src, Unlines(lines));
    hide LinesFrom, Chunks, HeadingsOf, HeadingLevel, HeadingText, Ends, CodePath, OutlinePath, NoSpaces, TextAt, Unlines;
    TwoPaths(Heading(1, HeadingText(a)), Heading(3, HeadingText(b)), Heading(3, HeadingText(c)));
    assert lines[..4] == lines;
    assert ChunkAt(Chunks(src, Unlines(lines))[0], lines, 4);
  }

  lemma LevelOf(line: string, level: nat, text: string)
    requires 0 < level <= 6 && |line| == level + 2 && line[level] == ' ' && (forall i :: 0 <= i < level ==> line[i] == '#')
    requires !IsSpace(line[level + 1]) && text == [line[level + 1]]
    ensures HeadingLevel(line) == level && HeadingText(line) == text
  {
    HashesOf(line, level);
    assert line[level + 1..] == text;
  }

  lemma {:induction false} HashesOf(line: string, level: nat)
    requires level < |line| && line[level] != '#' && forall i :: 0 <= i < level ==> line[i] == '#'
    ensures HashCount(line) == level
  {
    if level > 0 {
      HashesOf(line[1..], level - 1);
    }
  }

  const MISFILED_DOCUMENT := Unlines(["# A", "### B", "### C", "c"])

  lemma MisfiledDocument(src: Source)
    ensures |Chunks(src, MISFILED_DOCUMENT)| == 1
    ensures Chunks(src, MISFILED_DOCUMENT)[0].headingPath == "A" + " > " + "B" + " > " + "C"
    ensures OutlinePath(HeadingsOf(Lines(MISFILED_DOCUMENT))) == "A" + " > " + "C"
  {
    LevelOf("# A", 1, "A");
    LevelOf("### B", 3, "B");
    LevelOf("### C", 3, "C");
    assert HeadingLevel("c") == 0 && NoSpaces("c") == "c" by { assert NoSpaces("") + "c" == "c" && "c"[..0] == ""; }
    hide HeadingLevel, HeadingText, NoSpaces, Chunks, Lines, HeadingsOf, OutlinePath, Unlines;
    MisfiledChunk(src, "# A", "### B", "### C", "c");
  }
}
