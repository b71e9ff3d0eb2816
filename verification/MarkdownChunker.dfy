// src/search/MarkdownChunker.cpp: a line-driven machine with a stack of headings.
module MarkdownChunker {
  import opened Tokenizer
  import opened InvertedIndexes

  predicate IsSpace(c: char) {
    c == ' ' || c == '\t' || c == '\n' || c == '\r' || c == 11 as char || c == 12 as char
  }

  // --- lines and headings -----------------------------------------------------------------

  // Index of the first newline at or after `from`, or the length.
  function LineEnd(s: string, from: nat): (end: nat)
    requires from <= |s|
    ensures from <= end <= |s|
    ensures end < |s| ==> s[end] == '\n'
    ensures forall i :: from <= i < end ==> s[i] != '\n'
    decreases |s| - from
  {
    if from == |s| || s[from] == '\n' then from else LineEnd(s, from + 1)
  }

  // What repeated std::getline delivers: no line after a final newline.
  function LinesFrom(s: string, from: nat): seq<string>
    requires from <= |s|
    decreases |s| - from
  {
    if from == |s| then []
    else
      var end := LineEnd(s, from);
      [s[from..end]] + if end == |s| then [] else LinesFrom(s, end + 1)
  }

  function Lines(s: string): seq<string> {
    LinesFrom(s, 0)
  }

  function HashCount(line: string): (n: nat)
    ensures n <= |line| && (forall i :: 0 <= i < n ==> line[i] == '#') && (n < |line| ==> line[n] != '#')
  {
    if line == "" || line[0] != '#' then 0 else 1 + HashCount(line[1..])
  }

  // 1 to 6 for a heading line, 0 for any other.
  function HeadingLevel(line: string): (level: nat)
    ensures level <= 6
    ensures level > 0 ==> |line| > level && line[level] == ' '
  {
    var level := HashCount(line);
    if level == 0 || level > 6 || level == |line| || line[level] != ' ' then 0 else level
  }

  method ComputeHeadingLevel(line: string) returns (level: nat)
    ensures level == HeadingLevel(line)
  {
    level := 0;
    while level < |line| && line[level] == '#'
      invariant level <= |line| && HashCount(line) == level + HashCount(line[level..])
    {
      level := level + 1;
    }
    if level == 0 || level > 6 || level == |line| || line[level] != ' ' {
      return 0;
    }
  }

  function TrimLeft(s: string): string {
    if s == "" || !IsSpace(s[0]) then s else TrimLeft(s[1..])
  }

  function TrimRight(s: string): string {
    if s == "" || !IsSpace(s[|s| - 1]) then s else TrimRight(s[..|s| - 1])
  }

  function Trim(s: string): string {
    TrimRight(TrimLeft(s))
  }

  method ComputeTrim(value: string) returns (trimmed: string)
    ensures trimmed == Trim(value)
  {
    var begin := 0;
    while begin < |value| && IsSpace(value[begin])
      invariant begin <= |value| && TrimLeft(value[begin..]) == TrimLeft(value)
    {
      begin := begin + 1;
    }
    var end := |value|;
    assert value[begin..end] == value[begin..];
    while end > begin && IsSpace(value[end - 1])
      invariant begin <= end <= |value| && TrimRight(value[begin..end]) == Trim(value)
    {
      assert value[begin..end][..end - begin - 1] == value[begin..end - 1];
      end := end - 1;
    }
    return value[begin..end];
  }

  // Non-empty headings joined with " > ".
  function JoinHeadings(headings: seq<string>): string {
    if headings == [] then ""
    else
      var (path, last) := (JoinHeadings(headings[..|headings| - 1]), headings[|headings| - 1]);
      if last == "" then path else if path == "" then last else path + " > " + last
  }

  method ComputeJoinHeadings(headings: seq<string>) returns (path: string)
    ensures path == JoinHeadings(headings)
  {
    path := "";
    for i := 0 to |headings|
      invariant path == JoinHeadings(headings[..i])
    {
      assert headings[..i + 1][..i] == headings[..i];
      if headings[i] == "" {
        continue;
      }
      if path != "" {
        path := path + " > ";
      }
      path := path + headings[i];
    }
    assert headings[..|headings|] == headings;
  }

  // Position just behind the last occurrence of a character, or 0.
  function AfterLast(s: string, c: char): (end: nat)
    ensures end <= |s| && (end > 0 ==> s[end - 1] == c) && forall i :: end <= i < |s| ==> s[i] != c
  {
    if s == "" then 0 else if s[|s| - 1] == c then |s| else AfterLast(s[..|s| - 1], c)
  }

  // The file name without directory and extension.
  function PlainTextTitle(sourcePath: string): string {
    var begin := AfterLast(sourcePath, '/');
    var dot := AfterLast(sourcePath, '.');
    var end := if dot == 0 || dot - 1 < begin then |sourcePath| else dot - 1;
    sourcePath[begin..end]
  }

  // --- the machine --------------------------------------------------------------------------

  datatype Source = Source(path: string, category: string, firstChunkId: nat)

  datatype State = State(chunks: seq<DocumentChunk>, title: string, headings: seq<string>, body: string)

  // flushCurrent: without an open heading the trimmed text stays in the buffer.
  function Flush(src: Source, s: State): State {
    var body := Trim(s.body);
    if body == "" || s.headings == [] then s.(body := body)
    else
      var chunk := DocumentChunk(src.firstChunkId + |s.chunks|, src.path, src.category, s.title, JoinHeadings(s.headings), body);
      s.(chunks := s.chunks + [chunk], body := "")
  }

  function PushHeading(headings: seq<string>, level: nat, heading: string): seq<string>
    requires level > 0
  {
    (if |headings| >= level then headings[..level - 1] else headings) + [heading]
  }

  function HeadingText(line: string): string
    requires HeadingLevel(line) > 0
  {
    Trim(line[HeadingLevel(line) + 1..])
  }

  function Step(src: Source, s: State, line: string): State {
    var level := HeadingLevel(line);
    if level == 0 then s.(body := s.body + line + "\n")
    else
      var f := Flush(src, s);
      var heading := HeadingText(line);
      f.(headings := PushHeading(f.headings, level, heading), title := if level == 1 then heading else f.title)
  }

  function Steps(src: Source, lines: seq<string>): State {
    if lines == [] then State([], "", [], "") else Step(src, Steps(src, lines[..|lines| - 1]), lines[|lines| - 1])
  }

  function Chunks(src: Source, content: string): seq<DocumentChunk> {
    var s := Flush(src, Steps(src, Lines(content)));
    if s.headings == [] && Trim(s.body) != "" then
      var title := PlainTextTitle(src.path);
      s.chunks + [DocumentChunk(src.firstChunkId, src.path, src.category, title, title, Trim(s.body))]
    else s.chunks
  }

  method FlushCurrent(src: Source, s: State) returns (s': State)
    ensures s' == Flush(src, s)
  {
    var body := ComputeTrim(s.body);
    if body == "" || s.headings == [] {
      return s.(body := body);
    }
    var path := ComputeJoinHeadings(s.headings);
    var chunk := DocumentChunk(src.firstChunkId + |s.chunks|, src.path, src.category, s.title, path, body);
    return s.(chunks := s.chunks + [chunk], body := "");
  }

  // The loop body: one line.
  method TakeLine(src: Source, before: State, line: string) returns (s: State)
    ensures s == Step(src, before, line)
  {
    s := before;
    var level := ComputeHeadingLevel(line);
    if level == 0 {
      return s.(body := s.body + line + "\n");
    }
    s := FlushCurrent(src, s);
    var heading := ComputeTrim(line[level + 1..]);
    if |s.headings| >= level {
      s := s.(headings := s.headings[..level - 1]);
    }
    s := s.(headings := s.headings + [heading]);
    if level == 1 {
      s := s.(title := heading);
    }
  }

  lemma StepsNone(src: Source)
    ensures Steps(src, []) == State([], "", [], "")
  {
  }

  lemma StepsSnoc(src: Source, lines: seq<string>, line: string)
    ensures Steps(src, lines + [line]) == Step(src, Steps(src, lines), line)
  {
    assert (lines + [line])[..|lines|] == lines;
  }

  lemma NextLine(s: string, from: nat)
    requires from < |s|
    ensures var end := LineEnd(s, from);
      LinesFrom(s, from) == [s[from..end]] + LinesFrom(s, if end == |s| then end else end + 1)
  {
  }

  lemma NoLine(s: string)
    ensures LinesFrom(s, |s|) == []
  {
  }

  method ChunkMarkdown(src: Source, content: string) returns (chunks: seq<DocumentChunk>)
    ensures chunks == Chunks(src, content)
  {
    hide Steps, Step, Flush, Trim, LineEnd, PlainTextTitle, LinesFrom;
    StepsNone(src);
    var s := State([], "", [], "");
    var cursor := 0;
    ghost var read: seq<string> := [];
    while cursor < |content|
      invariant cursor <= |content| && read + LinesFrom(content, cursor) == Lines(content)
      invariant s == Steps(src, read)
    {
      var end := LineEnd(content, cursor);
      var line := content[cursor..end];
      s := TakeLine(src, s, line);
      StepsSnoc(src, read, line);
      NextLine(content, cursor);
      read := read + [line];
      cursor := if end == |content| then end else end + 1;
    }
    NoLine(content);
    assert read == Lines(content);
    s := FlushCurrent(src, s);
    chunks := s.chunks;
    if s.headings == [] {
      var body := ComputeTrim(s.body);
      if body != "" {
        var title := PlainTextTitle(src.path);
        chunks := chunks + [DocumentChunk(src.firstChunkId, src.path, src.category, title, title, body)];
      }
    }
  }
}
