// src/search/InvertedIndex.cpp: postings with term frequencies.
module InvertedIndexes {
  import opened Tokenizer

  datatype DocumentChunk = DocumentChunk(
    id: nat, sourcePath: string, category: string, title: string, headingPath: string, rawText: string)

  datatype Posting = Posting(chunkId: nat, termFrequency: nat)

  // How often a term occurs.
  function Count(terms: seq<string>, term: string): nat {
    if terms == [] then 0
    else Count(terms[..|terms| - 1], term) + (if terms[|terms| - 1] == term then 1 else 0)
  }

  function Frequency(chunk: DocumentChunk, term: string): nat {
    Count(Terms(chunk.rawText), term)
  }

  // What the index must answer: one posting for each containing chunk, in the order the
  // chunks were added, with the exact frequency.
  function PostingsOf(chunks: seq<DocumentChunk>, term: string): seq<Posting> {
    if chunks == [] then []
    else
      var (before, last) := (chunks[..|chunks| - 1], chunks[|chunks| - 1]);
      PostingsOf(before, term)
        + (if Frequency(last, term) > 0 then [Posting(last.id, Frequency(last, term))] else [])
  }

  function Listed(postings: map<string, seq<Posting>>, term: string): seq<Posting> {
    if term in postings then postings[term] else []
  }

  ghost predicate Indexes(postings: map<string, seq<Posting>>, chunks: seq<DocumentChunk>) {
    forall term :: PostingsOf(chunks, term) == Listed(postings, term)
  }

  // The postings of one more chunk have been added, except for the terms that are left.
  ghost predicate PartlyAdded(
    postings: map<string, seq<Posting>>, chunks: seq<DocumentChunk>, id: nat, frequencies: map<string, nat>, left: set<string>)
  {
    forall term :: Listed(postings, term) ==
      PostingsOf(chunks, term) + OwnPosting(id, frequencies, left, term)
  }

  function OwnPosting(id: nat, frequencies: map<string, nat>, left: set<string>, term: string): seq<Posting> {
    if term in frequencies && term !in left then [Posting(id, frequencies[term])] else []
  }

  lemma AllAdded(postings: map<string, seq<Posting>>, chunks: seq<DocumentChunk>, chunk: DocumentChunk, frequencies: map<string, nat>)
    requires PartlyAdded(postings, chunks, chunk.id, frequencies, {})
    requires Counts(frequencies, Terms(chunk.rawText)) && forall term <- frequencies :: frequencies[term] > 0
    ensures Indexes(postings, chunks + [chunk])
  {
    hide Count, Terms;
    var all := chunks + [chunk];
    assert all[..|all| - 1] == chunks && all[|all| - 1] == chunk;
    forall term ensures PostingsOf(all, term) == Listed(postings, term) {
      assert Listed(postings, term) == PostingsOf(chunks, term) + OwnPosting(chunk.id, frequencies, {}, term);
      assert Frequency(chunk, term) == if term in frequencies then frequencies[term] else 0;
    }
  }

  ghost predicate Counts(frequencies: map<string, nat>, terms: seq<string>) {
    forall term :: Count(terms, term) == if term in frequencies then frequencies[term] else 0
  }

  class InvertedIndex {
    var postingsByTerm: map<string, seq<Posting>>
    ghost var chunks: seq<DocumentChunk>

    ghost predicate Valid()
      reads this
    {
      && Indexes(postingsByTerm, chunks)
      && forall term <- postingsByTerm :: postingsByTerm[term] != []
    }

    constructor ()
      ensures Valid() && chunks == []
    {
      postingsByTerm, chunks := map[], [];
    }

    // The second loop walks a hash map, in any order.
    method AddChunk(chunk: DocumentChunk)
      requires Valid()
      modifies this
      ensures Valid() && chunks == old(chunks) + [chunk]
    {
      hide PostingsOf, Terms, Count, Indexes;
      var frequencies := CountTerms(chunk);
      var left := frequencies.Keys;
      assert PartlyAdded(postingsByTerm, chunks, chunk.id, frequencies, left) by { IndexesSo(postingsByTerm, chunks); }
      while left != {}
        invariant left <= frequencies.Keys
        invariant PartlyAdded(postingsByTerm, chunks, chunk.id, frequencies, left)
        invariant forall term <- postingsByTerm :: postingsByTerm[term] != []
        invariant chunks == old(chunks)
        decreases left
      {
        var term :| term in left;
        assert Listed(postingsByTerm, term) == PostingsOf(chunks, term) + OwnPosting(chunk.id, frequencies, left, term);
        postingsByTerm :=
          postingsByTerm[term := Listed(postingsByTerm, term) + [Posting(chunk.id, frequencies[term])]];
        left := left - {term};
      }
      AllAdded(postingsByTerm, chunks, chunk, frequencies);
      chunks := chunks + [chunk];
    }

    method CountTerms(chunk: DocumentChunk) returns (frequencies: map<string, nat>)
      ensures Counts(frequencies, Terms(chunk.rawText))
      ensures forall term <- frequencies :: frequencies[term] > 0
    {
      var tokens := AnalyzeTerms(chunk.rawText);
      frequencies := map[];
      for i := 0 to |tokens|
        invariant Counts(frequencies, tokens[..i])
        invariant forall term <- frequencies :: frequencies[term] > 0
      {
        assert tokens[..i + 1][..i] == tokens[..i];
        var before := if tokens[i] in frequencies then frequencies[tokens[i]] else 0;
        frequencies := frequencies[tokens[i] := before + 1];
      }
      assert tokens[..|tokens|] == tokens;
    }

    // A null pointer becomes the empty list; the index never holds an empty one.
    method FindTerm(term: string) returns (found: bool, postings: seq<Posting>)
      requires Valid()
      ensures postings == PostingsOf(chunks, term)
      ensures found <==> exists chunk <- chunks :: Frequency(chunk, term) > 0
    {
      PostingsExist(chunks, term);
      if term !in postingsByTerm {
        return false, [];
      }
      return true, postingsByTerm[term];
    }
  }

  lemma IndexesSo(postings: map<string, seq<Posting>>, chunks: seq<DocumentChunk>)
    requires Indexes(postings, chunks)
    ensures forall term :: PostingsOf(chunks, term) == Listed(postings, term)
  {
  }

  lemma {:induction false} PostingsExist(chunks: seq<DocumentChunk>, term: string)
    ensures PostingsOf(chunks, term) != [] <==> exists chunk <- chunks :: Frequency(chunk, term) > 0
  {
    if chunks != [] {
      var (before, last) := (chunks[..|chunks| - 1], chunks[|chunks| - 1]);
      PostingsExist(before, term);
      assert forall chunk :: chunk in chunks <==> chunk in before || chunk == last;
    }
  }

  ghost predicate DistinctIds(chunks: seq<DocumentChunk>) {
    forall i, j :: 0 <= i < j < |chunks| ==> chunks[i].id != chunks[j].id
  }

  // Posting lists are exact: every entry stems from a chunk that contains the term, every
  // such chunk has its entry, and with distinct ids no chunk has two.
  lemma {:induction false} PostingsAreExact(chunks: seq<DocumentChunk>, term: string)
    ensures forall p <- PostingsOf(chunks, term) ::
      p.termFrequency > 0 &&
      exists chunk <- chunks :: p == Posting(chunk.id, Frequency(chunk, term))
    ensures forall chunk <- chunks :: Frequency(chunk, term) > 0 ==>
      Posting(chunk.id, Frequency(chunk, term)) in PostingsOf(chunks, term)
    ensures DistinctIds(chunks) ==>
      forall i, j :: 0 <= i < j < |PostingsOf(chunks, term)| ==>
        PostingsOf(chunks, term)[i].chunkId != PostingsOf(chunks, term)[j].chunkId
  {
    hide Frequency;
    if chunks != [] {
      var (before, last) := (chunks[..|chunks| - 1], chunks[|chunks| - 1]);
      PostingsAreExact(before, term);
      assert chunks == before + [last];
    }
  }

  lemma {:induction false} CountIsMultiplicity(terms: seq<string>, term: string)
    ensures Count(terms, term) == multiset(terms)[term]
  {
    if terms != [] {
      CountIsMultiplicity(terms[..|terms| - 1], term);
      assert terms == terms[..|terms| - 1] + [terms[|terms| - 1]];
    }
  }
}
