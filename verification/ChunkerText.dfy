// What the text functions of src/search/MarkdownChunker.cpp compute, without their loops.
module ChunkerText {
  import opened MarkdownChunker

  predicate AllSpaces(s: string) {
    forall i :: 0 <= i < |s| ==> IsSpace(s[i])
  }

  // Neither end is white space.
  predicate IsTight(s: string) {
    s != "" ==> !IsSpace(s[0]) && !IsSpace(s[|s| - 1])
  }

  lemma {:induction false} TrimLeftOf(before: string, s: string)
    requires AllSpaces(before) && (s != "" ==> !IsSpace(s[0]))
    ensures TrimLeft(before + s) == s
  {
    if before == "" {
      assert before + s == s;
    } else {
      TrimLeftOf(before[1..], s);
      assert (before + s)[1..] == before[1..] + s;
    }
  }

  lemma {:induction false} TrimRightOf(s: string, after: string)
    requires AllSpaces(after) && (s != "" ==> !IsSpace(s[|s| - 1]))
    ensures TrimRight(s + after) == s
    decreases |after|
  {
    if after == "" {
      assert s + after == s;
    } else {
      var shorter := after[..|after| - 1];
      TrimRightOf(s, shorter);
      assert (s + after)[..|s + after| - 1] == s + shorter;
    }
  }

  lemma {:induction false} TrimLeftOfSpaces(s: string)
    requires AllSpaces(s)
    ensures TrimLeft(s) == ""
  {
    if s != "" {
      TrimLeftOfSpaces(s[1..]);
    }
  }

  // Trimming takes away the white space at both ends, and nothing else.
  lemma TrimMeaning(before: string, text: string, after: string)
    requires AllSpaces(before) && AllSpaces(after) && IsTight(text)
    ensures Trim(before + text + after) == text
  {
    if text == "" {
      TrimLeftOfSpaces(before + text + after);
    } else {
      TrimLeftOf(before, text + after);
      assert before + text + after == before + (text + after);
      TrimRightOf(text, after);
    }
  }

  // Every text has such a middle.
  lemma {:induction false} HasMiddle(s: string) returns (before: string, text: string, after: string)
    ensures s == before + text + after && AllSpaces(before) && AllSpaces(after) && IsTight(text)
    decreases |s|
  {
    if s != "" && IsSpace(s[0]) {
      before, text, after := HasMiddle(s[1..]);
      before := [s[0]] + before;
    } else if s != "" && IsSpace(s[|s| - 1]) {
      before, text, after := HasMiddle(s[..|s| - 1]);
      after := after + [s[|s| - 1]];
      assert s == before + text + after;
    } else {
      before, text, after := "", s, "";
    }
  }

  lemma {:induction false} HashesCounted(line: string, n: nat)
    requires n <= |line| && (forall i :: 0 <= i < n ==> line[i] == '#') && (n < |line| ==> line[n] != '#')
    ensures HashCount(line) == n
  {
    if n > 0 {
      HashesCounted(line[1..], n - 1);
    }
  }

  // A heading line is one to six hash signs and a blank; anything else is text.
  lemma HeadingLevelExactly(line: string, level: nat)
    requires level > 0
    ensures HeadingLevel(line) == level <==>
      level <= 6 && level < |line| && line[level] == ' ' && forall i :: 0 <= i < level ==> line[i] == '#'
  {
    if level < |line| && line[level] == ' ' && forall i :: 0 <= i < level ==> line[i] == '#' {
      HashesCounted(line, level);
    }
  }

  lemma LastIsBefore(front: string, rest: string, c: char)
    requires c !in rest
    ensures AfterLast(front + rest, c) <= |front|
  {
    hide AfterLast;
    forall i | |front| <= i < |front + rest| ensures (front + rest)[i] != c {
      assert (front + rest)[i] == rest[i - |front|];
    }
  }

  lemma LastIsAt(front: string, rest: string, c: char)
    requires (front == "" || front[|front| - 1] == c) && c !in rest
    ensures AfterLast(front + rest, c) == |front|
  {
    LastIsBefore(front, rest, c);
    hide AfterLast;
    assert front != "" ==> (front + rest)[|front| - 1] == c;
  }

  // A document without headings is named after its file, without directory and extension.
  lemma TitleOfFile(directory: string, name: string, extension: string)
    requires directory == "" || directory[|directory| - 1] == '/'
    requires '/' !in name && '/' !in extension && '.' !in extension
    ensures PlainTextTitle(directory + name + "." + extension) == name
  {
    var path := directory + name + "." + extension;
    assert path == directory + (name + "." + extension);
    LastIsAt(directory, name + "." + extension, '/');
    LastIsAt(directory + name + ".", extension, '.');
    hide AfterLast;
    assert path[|directory|..|directory| + |name|] == name;
  }

  lemma TitleWithoutExtension(directory: string, name: string)
    requires directory == "" || directory[|directory| - 1] == '/'
    requires '/' !in name && '.' !in name
    ensures PlainTextTitle(directory + name) == name
  {
    LastIsAt(directory, name, '/');
    LastIsBefore(directory, name, '.');
    hide AfterLast;
    assert (directory + name)[|directory|..] == name;
  }
}
