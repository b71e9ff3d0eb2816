// src/search/Tokenizer.cpp in the C locale.
module Tokenizer {

  predicate IsTokenCharacter(c: char) {
    'a' <= c <= 'z' || 'A' <= c <= 'Z' || '0' <= c <= '9' || c == '+' || c == '_'
  }

  function ToLower(c: char): (lower: char)
    ensures IsTokenCharacter(lower) == IsTokenCharacter(c)
    ensures !('A' <= lower <= 'Z')
  {
    if 'A' <= c <= 'Z' then ((c as int) + 32) as char else c
  }

  function Lower(s: string): (lower: string)
    ensures |lower| == |s|
  {
    seq(|s|, i requires 0 <= i < |s| => ToLower(s[i]))
  }

  // Length of the longest prefix of token characters.
  function RunLength(text: string): (n: nat)
    ensures n <= |text|
    ensures forall i :: 0 <= i < n ==> IsTokenCharacter(text[i])
    ensures n < |text| ==> !IsTokenCharacter(text[n])
  {
    if text == "" || !IsTokenCharacter(text[0]) then 0 else 1 + RunLength(text[1..])
  }

  // Reference meaning: the maximal runs of token characters, left to right, in lower case.
  function Tokens(text: string): seq<string>
    decreases |text|
  {
    if text == "" then []
    else if !IsTokenCharacter(text[0]) then Tokens(text[1..])
    else [Lower(text[..RunLength(text)])] + Tokens(text[RunLength(text)..])
  }

  // A token under construction, followed by the rest of the text.
  ghost function Continue(current: string, rest: string): seq<string> {
    var n := RunLength(rest);
    if current == "" then Tokens(rest) else [current + Lower(rest[..n])] + Tokens(rest[n..])
  }

  lemma LowerJoins(a: string, b: string)
    ensures Lower(a + b) == Lower(a) + Lower(b)
  {
  }

  lemma ContinueWithTokenCharacter(current: string, c: char, rest: string)
    requires IsTokenCharacter(c)
    ensures Continue(current, [c] + rest) == Continue(current + [ToLower(c)], rest)
  {
    var text := [c] + rest;
    var n := RunLength(rest);
    assert text[1..] == rest && RunLength(text) == 1 + n;
    assert text[..1 + n] == [c] + rest[..n] && text[1 + n..] == rest[n..];
    LowerJoins([c], rest[..n]);
    assert Lower([c]) == [ToLower(c)];
    var run := Lower(text[..1 + n]);
    assert run == [ToLower(c)] + Lower(rest[..n]);
    assert current + run == current + [ToLower(c)] + Lower(rest[..n]);
    assert Tokens(text) == [run] + Tokens(rest[n..]);
    assert current == "" ==> current + [ToLower(c)] + Lower(rest[..n]) == run;
  }

  lemma ContinueWithSeparator(current: string, c: char, rest: string)
    requires !IsTokenCharacter(c)
    ensures Continue(current, [c] + rest) == (if current == "" then [] else [current]) + Tokens(rest)
  {
    var text := [c] + rest;
    assert text[1..] == rest && RunLength(text) == 0 && text[..0] == "" && text[0..] == text;
    assert current + Lower("") == current;
  }

  method Tokenize(text: string) returns (tokens: seq<string>)
    ensures tokens == Tokens(text)
  {
    tokens := [];
    var currentToken := "";
    for i := 0 to |text|
      invariant tokens + Continue(currentToken, text[i..]) == Tokens(text)
    {
      var character := text[i];
      assert text[i..] == [character] + text[i + 1..];
      if IsTokenCharacter(character) {
        ContinueWithTokenCharacter(currentToken, character, text[i + 1..]);
        currentToken := currentToken + [ToLower(character)];
        continue;
      }
      ContinueWithSeparator(currentToken, character, text[i + 1..]);
      if currentToken != "" {
        tokens := tokens + [currentToken];
        currentToken := "";
      }
    }
    if currentToken != "" {
      assert currentToken + Lower("") == currentToken;
      tokens := tokens + [currentToken];
    }
  }

  const STOP_WORDS: set<string> := {
    "a", "an", "and", "are", "as", "at", "be", "by", "for", "from",
    "in", "is", "of", "on", "or", "the", "to", "uses", "with"
  }

  function WithoutStopWords(tokens: seq<string>): (terms: seq<string>)
    ensures forall t <- terms :: t !in STOP_WORDS
  {
    if tokens == [] then []
    else
      var last := tokens[|tokens| - 1];
      WithoutStopWords(tokens[..|tokens| - 1]) + (if last in STOP_WORDS then [] else [last])
  }

  function Terms(text: string): seq<string> {
    WithoutStopWords(Tokens(text))
  }

  method AnalyzeTerms(text: string) returns (terms: seq<string>)
    ensures terms == Terms(text)
  {
    var tokens := Tokenize(text);
    terms := [];
    for i := 0 to |tokens|
      invariant terms == WithoutStopWords(tokens[..i])
    {
      assert tokens[..i + 1][..i] == tokens[..i];
      if tokens[i] !in STOP_WORDS {
        terms := terms + [tokens[i]];
      }
    }
    assert tokens[..|tokens|] == tokens;
  }

  // --- what tokens depend on ------------------------------------------------------------

  // A separator splits the work: no token reaches across it.
  lemma {:induction false} TokensAcrossSeparator(a: string, c: char, b: string)
    requires !IsTokenCharacter(c)
    ensures Tokens(a + [c] + b) == Tokens(a) + Tokens(b)
    decreases |a|
  {
    var text := a + [c] + b;
    if a == "" {
      assert text[1..] == b;
    } else if !IsTokenCharacter(a[0]) {
      assert text[1..] == a[1..] + [c] + b;
      TokensAcrossSeparator(a[1..], c, b);
    } else {
      RunStopsAt(a, c, b);
      var n := RunLength(a);
      assert text[..n] == a[..n] && text[n..] == a[n..] + [c] + b;
      TokensAcrossSeparator(a[n..], c, b);
    }
  }

  lemma {:induction false} RunStopsAt(a: string, c: char, b: string)
    requires !IsTokenCharacter(c)
    ensures RunLength(a + [c] + b) == RunLength(a)
  {
    if a != "" && IsTokenCharacter(a[0]) {
      assert (a + [c] + b)[1..] == a[1..] + [c] + b;
      RunStopsAt(a[1..], c, b);
    }
  }

  // Queries and documents match regardless of case.
  lemma {:induction false} TokensIgnoreCase(text: string)
    ensures Tokens(Lower(text)) == Tokens(text)
    decreases |text|
  {
    if text != "" {
      if !IsTokenCharacter(text[0]) {
        assert Lower(text)[1..] == Lower(text[1..]);
        TokensIgnoreCase(text[1..]);
      } else {
        var n := RunLength(text);
        RunIgnoresCase(text);
        assert Lower(text)[..n] == Lower(text[..n]) && Lower(text)[n..] == Lower(text[n..]);
        assert Lower(Lower(text[..n])) == Lower(text[..n]);
        TokensIgnoreCase(text[n..]);
      }
    }
  }

  lemma {:induction false} RunIgnoresCase(text: string)
    ensures RunLength(Lower(text)) == RunLength(text)
  {
    if text != "" {
      assert Lower(text)[1..] == Lower(text[1..]);
      RunIgnoresCase(text[1..]);
    }
  }

  // --- words ------------------------------------------------------------------------------

  // Digits, letters of both cases, '+' and '_' make up words, by their codes.
  lemma TokenCharacters(c: char)
    ensures IsTokenCharacter(c) <==>
      48 <= c as int <= 57 || 65 <= c as int <= 90 || 97 <= c as int <= 122 || c as int == 43 || c as int == 95
  {
  }

  predicate IsWord(text: string) {
    text != "" && forall i :: 0 <= i < |text| ==> IsTokenCharacter(text[i])
  }

  lemma {:induction false} RunOfWord(text: string)
    requires forall i :: 0 <= i < |text| ==> IsTokenCharacter(text[i])
    ensures RunLength(text) == |text|
  {
    if text != "" {
      RunOfWord(text[1..]);
    }
  }

  lemma TokensOfWord(word: string)
    requires IsWord(word)
    ensures Tokens(word) == [Lower(word)]
  {
    RunOfWord(word);
    assert word[..|word|] == word && word[|word|..] == "";
  }

  // A word and what stands behind the next separator.
  lemma TokensOfWords(word: string, c: char, rest: string)
    requires IsWord(word) && !IsTokenCharacter(c)
    ensures Tokens(word + [c] + rest) == [Lower(word)] + Tokens(rest)
  {
    TokensAcrossSeparator(word, c, rest);
    TokensOfWord(word);
  }

  // Terms are the tokens but for nineteen words, as often as they occur.
  lemma {:induction false} StopWordsVanish(tokens: seq<string>, term: string)
    ensures multiset(WithoutStopWords(tokens))[term] ==
      if term in ["a", "an", "and", "are", "as", "at", "be", "by", "for", "from",
                  "in", "is", "of", "on", "or", "the", "to", "uses", "with"] then 0
      else multiset(tokens)[term]
  {
    StopWord(term);
    hide STOP_WORDS;
    if tokens != [] {
      var (before, last) := (tokens[..|tokens| - 1], tokens[|tokens| - 1]);
      assert tokens == before + [last];
      StopWordsVanish(before, term);
    }
  }

  lemma StopWord(term: string)
    ensures term in STOP_WORDS <==>
      term in ["a", "an", "and", "are", "as", "at", "be", "by", "for", "from",
               "in", "is", "of", "on", "or", "the", "to", "uses", "with"]
  {
  }
}
