// What chunking keeps: all text, consecutive ids, a bounded heading stack; and exactly when
// it also keeps the words. Outline.dfy has the heading paths.
module ChunkerTheorems {
  import opened Tokenizer
  import opened InvertedIndexes
  import opened MarkdownChunker

  // --- text --------------------------------------------------------------------------------

  function NoSpaces(s: string): string {
    if s == "" then ""
    else NoSpaces(s[..|s| - 1]) + (if IsSpace(s[|s| - 1]) then "" else [s[|s| - 1]])
  }

  lemma {:induction false} NoSpacesJoins(a: string, b: string)
    ensures NoSpaces(a + b) == NoSpaces(a) + NoSpaces(b)
  {
    if b == "" {
      assert a + b == a;
    } else {
      assert (a + b)[..|a + b| - 1] == a + b[..|b| - 1];
      NoSpacesJoins(a, b[..|b| - 1]);
    }
  }

  lemma {:induction false} TrimLeftKeepsText(s: string)
    ensures NoSpaces(TrimLeft(s)) == NoSpaces(s)
  {
    if s != "" && IsSpace(s[0]) {
      TrimLeftKeepsText(s[1..]);
      assert s == s[..1] + s[1..];
      NoSpacesJoins(s[..1], s[1..]);
      assert NoSpaces(s[..1]) == "";
    }
  }

  lemma {:induction false} TrimRightKeepsText(s: string)
    ensures NoSpaces(TrimRight(s)) == NoSpaces(s)
  {
    if s != "" && IsSpace(s[|s| - 1]) {
      TrimRightKeepsText(s[..|s| - 1]);
    }
  }

  lemma TrimKeepsText(s: string)
    ensures NoSpaces(Trim(s)) == NoSpaces(s)
  {
    TrimLeftKeepsText(s);
    TrimRightKeepsText(TrimLeft(s));
  }

  function TextOf(chunks: seq<DocumentChunk>): string {
    if chunks == [] then "" else TextOf(chunks[..|chunks| - 1]) + chunks[|chunks| - 1].rawText
  }

  // The lines that are not headings, each with its newline.
  function BodyOf(lines: seq<string>): string {
    if lines == [] then ""
    else
      var last := lines[|lines| - 1];
      BodyOf(lines[..|lines| - 1]) + (if HeadingLevel(last) > 0 then "" else last + "\n")
  }

  lemma TextOfSnoc(chunks: seq<DocumentChunk>, chunk: DocumentChunk)
    ensures TextOf(chunks + [chunk]) == TextOf(chunks) + chunk.rawText
  {
    assert (chunks + [chunk])[..|chunks|] == chunks;
  }

  lemma FlushKeepsText(src: Source, s: State)
    ensures NoSpaces(TextOf(Flush(src, s).chunks) + Flush(src, s).body) == NoSpaces(TextOf(s.chunks) + s.body)
    ensures s.headings != [] ==> Flush(src, s).body == ""
  {
    var f := Flush(src, s);
    TrimKeepsText(s.body);
    NoSpacesJoins(TextOf(s.chunks), s.body);
    NoSpacesJoins(TextOf(s.chunks), Trim(s.body));
    if f.chunks != s.chunks {
      TextOfSnoc(s.chunks, f.chunks[|s.chunks|]);
      assert TextOf(f.chunks) + f.body == TextOf(s.chunks) + Trim(s.body);
    }
  }

  lemma BodyOfSnoc(lines: seq<string>, line: string)
    ensures BodyOf(lines + [line]) == if HeadingLevel(line) > 0 then BodyOf(lines) else BodyOf(lines) + (line + "\n")
  {
    assert (lines + [line])[..|lines|] == lines;
    assert BodyOf(lines) + "" == BodyOf(lines);
  }

  lemma LineKeepsText(text: string, body: string, line: string, kept: string)
    requires NoSpaces(text + body) == NoSpaces(kept)
    ensures NoSpaces(text + (body + line + "\n")) == NoSpaces(kept + (line + "\n"))
  {
    hide NoSpaces;
    assert text + (body + line + "\n") == text + body + (line + "\n");
    NoSpacesJoins(text + body, line + "\n");
    NoSpacesJoins(kept, line + "\n");
  }

  lemma StepText(src: Source, s: State, line: string)
    ensures var (f, s') := (Flush(src, s), Step(src, s, line));
      if HeadingLevel(line) > 0 then s'.chunks == f.chunks && s'.body == f.body && s'.headings != []
      else s'.chunks == s.chunks && s'.body == s.body + line + "\n" && s'.headings == s.headings
  {
    hide Flush, HeadingLevel, HeadingText;
  }

  lemma {:induction false} StepsKeepText(src: Source, lines: seq<string>)
    ensures var s := Steps(src, lines);
      && NoSpaces(TextOf(s.chunks) + s.body) == NoSpaces(BodyOf(lines))
      && (s.headings == [] ==> s.chunks == [])
  {
    if lines != [] {
      hide NoSpaces, TextOf, Flush, BodyOf, HeadingLevel, Step;
      var (before, last) := (lines[..|lines| - 1], lines[|lines| - 1]);
      assert lines == before + [last];
      StepsKeepText(src, before);
      var s := Steps(src, before);
      FlushKeepsText(src, s);
      BodyOfSnoc(before, last);
      StepText(src, s, last);
      LineKeepsText(TextOf(s.chunks), s.body, last, BodyOf(before));
    }
  }

  lemma FlushWithoutHeadings(src: Source, s: State)
    ensures Flush(src, s).headings == s.headings && (s.headings == [] ==> Flush(src, s).chunks == s.chunks)
  {
    hide Trim, JoinHeadings;
  }

  // No text is lost, duplicated or reordered: up to white space the chunks hold exactly the
  // lines that are not headings.
  lemma ChunksKeepText(src: Source, content: string)
    ensures NoSpaces(TextOf(Chunks(src, content))) == NoSpaces(BodyOf(Lines(content)))
  {
    hide NoSpaces, Flush, Steps, BodyOf, Lines, PlainTextTitle, Trim;
    var s := Steps(src, Lines(content));
    var f := Flush(src, s);
    var chunks := Chunks(src, content);
    FlushWithoutHeadings(src, s);
    StepsKeepText(src, Lines(content));
    FlushKeepsText(src, s);
    if f.headings == [] {
      TrimKeepsText(f.body);
      assert TextOf(f.chunks) + f.body == f.body;
      assert TextOf(f.chunks) == "" && (Trim(f.body) == "" ==> NoSpaces("") == NoSpaces(f.body));
      if chunks != f.chunks {
        TextOfSnoc([], chunks[0]);
        assert "" + chunks[0].rawText == chunks[0].rawText;
        assert [] + [chunks[0]] == chunks;
      }
    } else {
      assert TextOf(f.chunks) + "" == TextOf(f.chunks);
    }
  }

  // --- ids and depth ------------------------------------------------------------------------

  ghost predicate Numbered(chunks: seq<DocumentChunk>, first: nat) {
    forall i :: 0 <= i < |chunks| ==> chunks[i].id == first + i
  }

  lemma {:induction false} StepsNumberChunks(src: Source, lines: seq<string>)
    ensures var s := Steps(src, lines);
      && Numbered(s.chunks, src.firstChunkId)
      && (forall chunk <- s.chunks :: chunk.rawText != "")
      && |s.headings| <= 6
      && (lines != [] && HeadingLevel(lines[|lines| - 1]) > 0 ==> |s.headings| <= HeadingLevel(lines[|lines| - 1]))
      && (s.headings == [] ==> s.chunks == [])
  {
    if lines != [] {
      StepsNumberChunks(src, lines[..|lines| - 1]);
    }
  }

  // Ids are first_chunk_id, first_chunk_id + 1, ..., and no chunk is empty.
  lemma ChunksAreNumbered(src: Source, content: string)
    ensures Numbered(Chunks(src, content), src.firstChunkId)
    ensures forall chunk <- Chunks(src, content) :: chunk.rawText != ""
  {
    StepsNumberChunks(src, Lines(content));
  }

  // --- where chunks come from ---------------------------------------------------------------

  ghost predicate AllFrom(chunks: seq<DocumentChunk>, path: string, category: string) {
    forall chunk <- chunks :: chunk.sourcePath == path && chunk.category == category
  }

  lemma FlushKeepsSource(src: Source, s: State)
    requires AllFrom(s.chunks, src.path, src.category)
    ensures AllFrom(Flush(src, s).chunks, src.path, src.category)
  {
    hide Trim, JoinHeadings;
  }

  lemma {:induction false} StepsKeepSource(src: Source, lines: seq<string>)
    ensures AllFrom(Steps(src, lines).chunks, src.path, src.category)
  {
    hide AllFrom, Flush, HeadingLevel, HeadingText;
    if lines != [] {
      StepsKeepSource(src, lines[..|lines| - 1]);
      FlushKeepsSource(src, Steps(src, lines[..|lines| - 1]));
    } else {
      assert AllFrom([], src.path, src.category) by { NothingFrom(src.path, src.category); }
    }
  }

  lemma NothingFrom(path: string, category: string)
    ensures AllFrom([], path, category)
  {
  }

  // Every chunk of a document names the file it was cut from, and its category.
  lemma ChunksKeepSource(src: Source, content: string)
    ensures AllFrom(Chunks(src, content), src.path, src.category)
  {
    StepsKeepSource(src, Lines(content));
    FlushKeepsSource(src, Steps(src, Lines(content)));
    hide Steps, Flush, Lines, Trim, PlainTextTitle;
  }

  // loadDocuments: each file continues where the last one stopped, so ids are positions and
  // therefore distinct.
  datatype File = File(path: string, category: string, content: string)

  function Load(files: seq<File>): seq<DocumentChunk> {
    if files == [] then []
    else
      var (before, file) := (Load(files[..|files| - 1]), files[|files| - 1]);
      if file.content == "" then before
      else before + Chunks(Source(file.path, file.category, |before|), file.content)
  }

  method LoadDocuments(files: seq<File>) returns (chunks: seq<DocumentChunk>)
    ensures chunks == Load(files) && Numbered(chunks, 0) && DistinctIds(chunks)
  {
    chunks := [];
    var nextChunkId := 0;
    for i := 0 to |files|
      invariant chunks == Load(files[..i]) && nextChunkId == |chunks| && Numbered(chunks, 0)
    {
      assert files[..i + 1][..i] == files[..i];
      if files[i].content == "" {
        continue;
      }
      var src := Source(files[i].path, files[i].category, nextChunkId);
      var documentChunks := ChunkMarkdown(src, files[i].content);
      ChunksAreNumbered(src, files[i].content);
      nextChunkId := nextChunkId + |documentChunks|;
      chunks := chunks + documentChunks;
    }
    assert files[..|files|] == files;
  }

  // How many chunks the first n files have.
  function LoadedBefore(files: seq<File>, n: nat): nat
    requires n <= |files|
  {
    |Load(files[..n])|
  }

  // The chunks of file n stand behind those of the files before it, are cut from its content,
  // and name its path and category.
  ghost predicate IsLoaded(files: seq<File>, n: nat, chunks: seq<DocumentChunk>)
    requires n < |files|
  {
    var (from, to) := (LoadedBefore(files, n), LoadedBefore(files, n + 1));
    && from <= to <= |chunks|
    && chunks[from..to] ==
         (if files[n].content == "" then [] else Chunks(Source(files[n].path, files[n].category, from), files[n].content))
    && AllFrom(chunks[from..to], files[n].path, files[n].category)
  }

  lemma LoadSnoc(before: seq<File>, file: File)
    ensures Load(before + [file]) == Load(before)
      + if file.content == "" then [] else Chunks(Source(file.path, file.category, |Load(before)|), file.content)
  {
    hide Chunks;
    assert (before + [file])[..|before|] == before;
  }

  lemma LoadedBehind(files: seq<File>, n: nat, front: seq<DocumentChunk>, own: seq<DocumentChunk>)
    requires n < |files| && front == Load(files[..n]) && front + own == Load(files[..n + 1])
    requires own == if files[n].content == "" then [] else Chunks(Source(files[n].path, files[n].category, |front|), files[n].content)
    requires AllFrom(own, files[n].path, files[n].category)
    ensures IsLoaded(files, n, front + own)
  {
    hide Load, Chunks, AllFrom;
    assert (front + own)[|front|..|front + own|] == own;
  }

  lemma OwnFrom(src: Source, content: string)
    ensures AllFrom(if content == "" then [] else Chunks(src, content), src.path, src.category)
  {
    ChunksKeepSource(src, content);
    NothingFrom(src.path, src.category);
    hide Chunks, AllFrom;
  }

  lemma LastLoaded(before: seq<File>, last: File)
    ensures IsLoaded(before + [last], |before|, Load(before + [last]))
  {
    hide *;
    var (files, front, src) := (before + [last], Load(before), Source(last.path, last.category, |Load(before)|));
    LoadSnoc(before, last);
    OwnFrom(src, last.content);
    assert files[..|before|] == before && files[..|before| + 1] == files && files[|before|] == last;
    LoadedBehind(files, |before|, front, if last.content == "" then [] else Chunks(src, last.content));
  }

  lemma LoadedOfMore(before: seq<File>, last: File, n: nat)
    requires n < |before| && IsLoaded(before, n, Load(before))
    ensures IsLoaded(before + [last], n, Load(before + [last]))
  {
    var files := before + [last];
    LoadSnoc(before, last);
    hide Load, Chunks, AllFrom;
    assert before[..n] == files[..n] && before[..n + 1] == files[..n + 1];
    var (from, to) := (LoadedBefore(files, n), LoadedBefore(files, n + 1));
    assert Load(files)[from..to] == Load(before)[from..to];
  }

  lemma {:induction false} LoadTraces(files: seq<File>, n: nat)
    requires n < |files|
    ensures IsLoaded(files, n, Load(files))
    decreases |files|
  {
    hide Load, IsLoaded;
    var (before, last) := (files[..|files| - 1], files[|files| - 1]);
    assert files == before + [last];
    if n < |before| {
      LoadTraces(before, n);
      LoadedOfMore(before, last, n);
    } else {
      LastLoaded(before, last);
    }
  }

  lemma FlushKeepsHeadings(src: Source, s: State)
    ensures Flush(src, s).headings == s.headings
  {
  }

  // --- words --------------------------------------------------------------------------------

  predicate EndsInWord(s: string) {
    s != "" && IsTokenCharacter(s[|s| - 1])
  }

  predicate StartsInWord(s: string) {
    s != "" && IsTokenCharacter(s[0])
  }

  lemma {:induction false} RunOfAll(a: string, b: string)
    requires RunLength(a) == |a|
    ensures RunLength(a + b) == |a| + RunLength(b)
  {
    if a == "" {
      assert a + b == b;
    } else {
      assert (a + b)[1..] == a[1..] + b;
      RunOfAll(a[1..], b);
    }
  }

  lemma {:induction false} RunInside(a: string, b: string)
    requires RunLength(a) < |a|
    ensures RunLength(a + b) == RunLength(a)
  {
    if IsTokenCharacter(a[0]) {
      assert (a + b)[1..] == a[1..] + b;
      RunInside(a[1..], b);
    }
  }

  ghost predicate JoinsWords(a: string, b: string) {
    if EndsInWord(a) && StartsInWord(b) then |Tokens(a + b)| == |Tokens(a)| + |Tokens(b)| - 1
    else Tokens(a + b) == Tokens(a) + Tokens(b)
  }

  lemma JoinAfterSeparator(a: string, b: string)
    requires a != "" && !IsTokenCharacter(a[0]) && JoinsWords(a[1..], b)
    ensures JoinsWords(a, b)
  {
    assert (a + b)[1..] == a[1..] + b;
    assert a[1..] != "" ==> a[1..][|a| - 2] == a[|a| - 1];
    assert Tokens(a) == Tokens(a[1..]) && Tokens(a + b) == Tokens(a[1..] + b);
    hide Tokens;
  }

  lemma FirstWord(text: string, n: nat)
    requires text != "" && IsTokenCharacter(text[0]) && RunLength(text) == n
    ensures n <= |text| && Tokens(text) == [Lower(text[..n])] + Tokens(text[n..])
  {
  }

  lemma JoinAfterWord(a: string, b: string)
    requires a != "" && IsTokenCharacter(a[0]) && RunLength(a) < |a| && JoinsWords(a[RunLength(a)..], b)
    ensures JoinsWords(a, b)
  {
    hide Tokens, RunLength, Lower;
    var n := RunLength(a);
    RunInside(a, b);
    FirstWord(a, n);
    FirstWord(a + b, n);
    assert (a + b)[..n] == a[..n] && (a + b)[n..] == a[n..] + b;
    assert a[n..][|a| - n - 1] == a[|a| - 1];
    var word := [Lower(a[..n])];
    assert word + (Tokens(a[n..]) + Tokens(b)) == word + Tokens(a[n..]) + Tokens(b);
  }

  lemma OneWord(a: string)
    requires a != "" && RunLength(a) == |a|
    ensures IsTokenCharacter(a[0]) && EndsInWord(a) && Tokens(a) == [Lower(a)]
  {
    assert a[|a|..] == "" && a[..|a|] == a && Tokens("") == [];
  }

  lemma TwoHalves(a: string, b: string)
    requires a != "" && RunLength(a) == |a|
    ensures StartsInWord(b) ==> |Tokens(a + b)| == |Tokens(b)|
  {
    RunOfAll(a, b);
    var m := RunLength(b);
    assert (a + b)[0] == a[0] && IsTokenCharacter(a[0]);
    FirstWord(a + b, |a| + m);
    assert (a + b)[|a| + m..] == b[m..];
    hide Tokens, RunLength, Lower;
    if StartsInWord(b) {
      FirstWord(b, m);
    }
  }

  lemma WordAndRest(a: string, b: string)
    requires a != "" && RunLength(a) == |a| && !StartsInWord(b)
    ensures Tokens(a + b) == [Lower(a)] + Tokens(b)
  {
    RunOfAll(a, b);
    assert RunLength(b) == 0;
    assert (a + b)[0] == a[0] && IsTokenCharacter(a[0]);
    FirstWord(a + b, |a|);
    assert (a + b)[..|a|] == a && (a + b)[|a|..] == b;
  }

  lemma JoinInWord(a: string, b: string)
    requires a != "" && RunLength(a) == |a|
    ensures JoinsWords(a, b)
  {
    hide Tokens, RunLength, Lower;
    OneWord(a);
    TwoHalves(a, b);
    if !StartsInWord(b) {
      WordAndRest(a, b);
    }
  }

  // Joining two texts joins their words, except that two halves of a word become one.
  lemma {:induction false} TokensOfJoin(a: string, b: string)
    ensures JoinsWords(a, b)
    decreases |a|
  {
    if a == "" {
      assert a + b == b && Tokens("") + Tokens(b) == Tokens(b);
    } else if !IsTokenCharacter(a[0]) {
      TokensOfJoin(a[1..], b);
      JoinAfterSeparator(a, b);
    } else if RunLength(a) < |a| {
      TokensOfJoin(a[RunLength(a)..], b);
      JoinAfterWord(a, b);
    } else {
      JoinInWord(a, b);
    }
  }

  lemma {:induction false} TrimLeftKeepsWords(s: string)
    ensures Tokens(TrimLeft(s)) == Tokens(s)
  {
    if s != "" && IsSpace(s[0]) {
      TrimLeftKeepsWords(s[1..]);
    }
  }

  lemma {:induction false} TrimRightKeepsWords(s: string)
    ensures Tokens(TrimRight(s)) == Tokens(s)
  {
    if s != "" && IsSpace(s[|s| - 1]) {
      var (front, last) := (s[..|s| - 1], s[|s| - 1]);
      TrimRightKeepsWords(front);
      TokensAcrossSeparator(front, last, "");
      assert s == front + [last] + "";
    }
  }

  lemma TrimKeepsWords(s: string)
    ensures Tokens(Trim(s)) == Tokens(s)
  {
    TrimLeftKeepsWords(s);
    TrimRightKeepsWords(TrimLeft(s));
  }

  function WordsOf(chunks: seq<DocumentChunk>): seq<string> {
    if chunks == [] then [] else WordsOf(chunks[..|chunks| - 1]) + Tokens(chunks[|chunks| - 1].rawText)
  }

  function WordsOfLines(lines: seq<string>): seq<string> {
    if lines == [] then []
    else
      var last := lines[|lines| - 1];
      WordsOfLines(lines[..|lines| - 1]) + (if HeadingLevel(last) > 0 then [] else Tokens(last))
  }

  function WordsIn(s: State): seq<string> {
    WordsOf(s.chunks) + Tokens(s.body)
  }

  lemma WordsOfSnoc(chunks: seq<DocumentChunk>, chunk: DocumentChunk)
    ensures WordsOf(chunks + [chunk]) == WordsOf(chunks) + Tokens(chunk.rawText)
  {
    assert (chunks + [chunk])[..|chunks|] == chunks;
  }

  lemma FlushKeepsWords(src: Source, s: State)
    ensures WordsIn(Flush(src, s)) == WordsIn(s)
  {
    TrimKeepsWords(s.body);
    var f := Flush(src, s);
    if f.chunks != s.chunks {
      WordsOfSnoc(s.chunks, f.chunks[|s.chunks|]);
      assert Tokens("") == [];
    }
  }

  lemma LineKeepsWords(s: State, line: string)
    ensures var s' := s.(body := s.body + line + "\n");
      && (!(EndsInWord(s.body) && StartsInWord(line)) ==> WordsIn(s') == WordsIn(s) + Tokens(line))
      && (EndsInWord(s.body) && StartsInWord(line) ==> |WordsIn(s')| == |WordsIn(s)| + |Tokens(line)| - 1)
  {
    TokensAcrossSeparator(s.body + line, '\n', "");
    assert s.body + line + ['\n'] + "" == s.body + line + "\n";
    TokensOfJoin(s.body, line);
    assert Tokens("") == [] && Tokens(s.body + line) + [] == Tokens(s.body + line);
    hide Tokens, WordsOf;
  }

  ghost predicate NoHeading(lines: seq<string>) {
    forall line <- lines :: HeadingLevel(line) == 0
  }

  // Text stands before the first heading, and its last word runs into the first word of the
  // line right below that heading.
  ghost predicate Glues(lines: seq<string>, n: int) {
    && 0 < n < |lines|
    && NoHeading(lines[..n - 1]) && HeadingLevel(lines[n - 1]) > 0
    && EndsInWord(Trim(BodyOf(lines[..n - 1])))
    && HeadingLevel(lines[n]) == 0 && StartsInWord(lines[n])
  }

  // The buffer ends in the middle of a word only right below the first heading.
  lemma {:induction false} LooseBuffer(src: Source, lines: seq<string>)
    ensures var s := Steps(src, lines);
      && (s.headings == [] <==> NoHeading(lines))
      && (s.headings == [] ==> s.body == BodyOf(lines))
      && (EndsInWord(s.body) <==>
            && lines != [] && HeadingLevel(lines[|lines| - 1]) > 0 && NoHeading(lines[..|lines| - 1])
            && EndsInWord(Trim(BodyOf(lines[..|lines| - 1]))))
  {
    hide Trim, HeadingLevel, HeadingText;
    if lines != [] {
      var (before, last) := (lines[..|lines| - 1], lines[|lines| - 1]);
      LooseBuffer(src, before);
      assert lines == before + [last];
      assert NoHeading(lines) <==> NoHeading(before) && HeadingLevel(last) == 0;
    }
  }

  lemma {:induction false} StepsKeepWords(src: Source, lines: seq<string>)
    ensures WordsKept(WordsIn(Steps(src, lines)), WordsOfLines(lines), exists n :: Glues(lines, n))
  {
    if lines == [] {
      assert WordsIn(Steps(src, [])) == [];
    } else {
      var (before, last) := (lines[..|lines| - 1], lines[|lines| - 1]);
      var s := Steps(src, before);
      StepsKeepWords(src, before);
      assert lines == before + [last];
      hide Glues, WordsIn, Flush, Step, HeadingLevel, EndsInWord, StartsInWord;
      FlushKeepsWords(src, s);
      LineKeepsWords(s, last);
      GluesNow(src, before, last);
      StepWords(src, s, last);
    }
  }

  // Gluing loses one word; nothing else changes any.
  ghost predicate WordsKept(found: seq<string>, wanted: seq<string>, glued: bool) {
    if glued then |found| < |wanted| else found == wanted
  }

  lemma GluesNow(src: Source, before: seq<string>, last: string)
    ensures (exists n :: Glues(before + [last], n)) <==>
      (exists n :: Glues(before, n))
      || (HeadingLevel(last) == 0 && EndsInWord(Steps(src, before).body) && StartsInWord(last))
  {
    LooseBuffer(src, before);
    GluesOfMore(before, last);
    hide Glues, Steps, NoHeading, HeadingLevel, EndsInWord, Trim, BodyOf, StartsInWord;
    if n :| Glues(before + [last], n) {
    }
    if n :| Glues(before, n) {
      assert Glues(before + [last], n);
    }
    if HeadingLevel(last) == 0 && EndsInWord(Steps(src, before).body) && StartsInWord(last) {
      assert Glues(before + [last], |before|);
    }
  }

  lemma StepWords(src: Source, s: State, line: string)
    ensures WordsIn(Step(src, s, line)) ==
      if HeadingLevel(line) > 0 then WordsIn(Flush(src, s)) else WordsIn(s.(body := s.body + line + "\n"))
  {
    hide Flush, HeadingLevel, HeadingText;
  }

  lemma GluesOfMore(before: seq<string>, last: string)
    ensures forall n :: Glues(before + [last], n) <==>
      Glues(before, n)
      || (n == |before| > 0 && NoHeading(before[..n - 1]) && HeadingLevel(before[n - 1]) > 0
          && EndsInWord(Trim(BodyOf(before[..n - 1]))) && HeadingLevel(last) == 0 && StartsInWord(last))
  {
    hide NoHeading, HeadingLevel, EndsInWord, Trim, BodyOf, StartsInWord;
    forall n | 0 < n <= |before| ensures Glues(before + [last], n) <==>
      && NoHeading(before[..n - 1]) && HeadingLevel(before[n - 1]) > 0 && EndsInWord(Trim(BodyOf(before[..n - 1])))
      && HeadingLevel((before + [last])[n]) == 0 && StartsInWord((before + [last])[n])
    {
      assert (before + [last])[..n - 1] == before[..n - 1];
    }
  }

  // A search for the words of a document finds them in its chunks, except in exactly one
  // situation, where two words have become one.
  lemma WordsKeptExactly(src: Source, content: string)
    ensures WordsOf(Chunks(src, content)) == WordsOfLines(Lines(content)) <==>
      forall n :: !Glues(Lines(content), n)
  {
    var lines := Lines(content);
    var s := Steps(src, lines);
    StepsKeepWords(src, lines);
    FlushKeepsWords(src, s);
    ChunksWords(src, content);
    hide Glues, WordsIn, WordsOf, Chunks, WordsOfLines, Steps, Flush;
  }

  lemma ChunksWords(src: Source, content: string)
    ensures WordsOf(Chunks(src, content)) == WordsIn(Flush(src, Steps(src, Lines(content))))
  {
    var s := Steps(src, Lines(content));
    StepsNumberChunks(src, Lines(content));
    FlushKeepsText(src, s);
    FlushKeepsHeadings(src, s);
    var f := Flush(src, s);
    var chunks := Chunks(src, content);
    assert s.headings == [] ==> f.chunks == [];
    assert Tokens("") == [];
    if s.headings != [] {
      assert chunks == f.chunks && f.body == "";
      assert WordsOf(chunks) + [] == WordsOf(chunks);
    } else {
      TrimKeepsWords(f.body);
      assert WordsOf([]) == [] && [] + Tokens(f.body) == Tokens(f.body);
      if Trim(f.body) == "" {
        assert chunks == [];
      } else {
        assert |chunks| == 1 && chunks[0].rawText == Trim(f.body);
        hide *;
        WordsOfOne(chunks[0]);
        assert chunks == [chunks[0]];
        WordsOfNothingBut(f);
      }
    }
  }

  lemma WordsOfOne(chunk: DocumentChunk)
    ensures WordsOf([chunk]) == Tokens(chunk.rawText)
  {
    assert [chunk][..0] == [];
  }

  lemma WordsOfNothingBut(s: State)
    ensures s.chunks == [] ==> WordsIn(s) == Tokens(s.body)
  {
  }

  lemma GluedLines()
    ensures Lines("a\n# T\nb") == ["a", "# T", "b"]
  {
    var content := "a\n# T\nb";
    assert LineEnd(content, 0) == 1 && LineEnd(content, 2) == 5 && LineEnd(content, 6) == 7;
    assert content[0..1] == "a" && content[2..5] == "# T" && content[6..7] == "b";
    hide LineEnd;
    NextLine(content, 0);
    NextLine(content, 2);
    NextLine(content, 6);
    NoLine(content);
  }

  lemma GluedHeadings()
    ensures HeadingLevel("a") == 0 && HeadingLevel("# T") == 1 && HeadingLevel("b") == 0
    ensures StartsInWord("b") && EndsInWord("a")
  {
    assert "# T"[1..] == " T";
  }

  lemma GluedBody()
    ensures BodyOf(["a"]) == "a\n" && Trim("a\n") == "a"
  {
    GluedHeadings();
    hide HeadingLevel;
    assert ["a"][..0] == [] && BodyOf([]) == "" && "" + ("a" + "\n") == "a\n";
    assert "a\n"[..1] == "a";
  }

  // The situation: "a" and "b" are indexed as "ab".
  lemma GluedExample(src: Source)
    ensures Glues(Lines("a\n# T\nb"), 2)
    ensures |WordsOf(Chunks(src, "a\n# T\nb"))| < |WordsOfLines(Lines("a\n# T\nb"))|
  {
    var content := "a\n# T\nb";
    GluedLines();
    GluedHeadings();
    GluedBody();
    var lines := Lines(content);
    hide BodyOf, Trim, HeadingLevel, StartsInWord, EndsInWord, Lines, LinesFrom;
    assert lines[..1] == ["a"];
    assert Glues(lines, 2);
    hide *;
    StepsKeepWords(src, lines);
    FlushKeepsWords(src, Steps(src, lines));
    ChunksWords(src, content);
    FewerWords(WordsIn(Steps(src, lines)), WordsOfLines(lines), exists n :: Glues(lines, n));
  }

  lemma FewerWords(found: seq<string>, wanted: seq<string>, glued: bool)
    requires WordsKept(found, wanted, glued)
    ensures glued ==> |found| < |wanted|
  {
  }
}
