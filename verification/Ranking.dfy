// What the score of src/search/SearchService.cpp rewards: occurrences in the chunk, and
// terms that few chunks contain.
module Ranking {
  import opened Tokenizer
  import opened InvertedIndexes
  import opened SearchServices

  function Containing(chunks: seq<DocumentChunk>, term: string): set<DocumentChunk> {
    set chunk | chunk in chunks && term in Terms(chunk.rawText)
  }

  lemma FrequencyMeaning(chunk: DocumentChunk, term: string)
    ensures Frequency(chunk, term) == multiset(Terms(chunk.rawText))[term]
    ensures Frequency(chunk, term) > 0 <==> term in Terms(chunk.rawText)
  {
    CountIsMultiplicity(Terms(chunk.rawText), term);
  }

  lemma {:induction false} PostingsCount(chunks: seq<DocumentChunk>, term: string)
    requires DistinctIds(chunks)
    ensures |PostingsOf(chunks, term)| == |Containing(chunks, term)|
  {
    hide Frequency, Terms;
    if chunks != [] {
      var (before, last) := (chunks[..|chunks| - 1], chunks[|chunks| - 1]);
      assert chunks == before + [last];
      PostingsCount(before, term);
      FrequencyMeaning(last, term);
      assert last !in before;
      assert Containing(chunks, term) ==
        Containing(before, term) + if term in Terms(last.rawText) then {last} else {};
    }
  }

  // A term is weighed by its occurrences in the chunk, the number of chunks that contain it
  // and the number of all chunks.
  lemma TermScoreMeaning(chunks: seq<DocumentChunk>, chunk: DocumentChunk, term: string, w: Weight)
    requires DistinctIds(chunks)
    ensures TermScore(term, chunk, chunks, w) ==
      w(multiset(Terms(chunk.rawText))[term], |Containing(chunks, term)|, |chunks|)
  {
    FrequencyMeaning(chunk, term);
    PostingsCount(chunks, term);
    hide Frequency, Terms, PostingsOf, Containing;
  }

  lemma MatchedMeaning(terms: set<string>, chunk: DocumentChunk)
    ensures Matched(terms, chunk) == set t | t in terms && t in Terms(chunk.rawText)
  {
    hide Frequency, Terms;
    forall t ensures Frequency(chunk, t) > 0 <==> t in Terms(chunk.rawText) {
      FrequencyMeaning(chunk, t);
    }
  }

  // --- the weight the source uses -----------------------------------------------------------

  function Rarity(ln: real -> real, containing: nat, corpus: nat): real {
    ln((corpus as real + 1.0) / (containing as real + 1.0)) + 1.0
  }

  // log1p(frequency) * (log((corpus + 1) / (containing + 1)) + 1), for a given logarithm.
  function TfIdf(ln: real -> real): Weight {
    (frequency: nat, containing: nat, corpus: nat) => ln(1.0 + frequency as real) * Rarity(ln, containing, corpus)
  }

  ghost predicate IsLogarithm(ln: real -> real) {
    ln(1.0) == 0.0 && forall x, y :: 0.0 < x < y ==> ln(x) < ln(y)
  }

  lemma QuotientFalls(n: real, a: real, b: real)
    requires 0.0 < a < b <= n
    ensures n / a > n / b >= 1.0
  {
    assert n / a * a == n == n / b * b;
  }

  lemma ProductRises(a: real, b: real, c: real)
    requires a < b && c > 0.0
    ensures a * c < b * c && c * a < c * b
  {
  }

  // The rarity of a term counts at least one, and the more the fewer chunks contain it.
  lemma RarityMeaning(ln: real -> real, containing: nat, more: nat, corpus: nat)
    requires IsLogarithm(ln) && containing <= more <= corpus
    ensures Rarity(ln, more, corpus) >= 1.0
    ensures containing < more ==> Rarity(ln, containing, corpus) > Rarity(ln, more, corpus)
  {
    var (n, a, b) := (corpus as real + 1.0, containing as real + 1.0, more as real + 1.0);
    if more == corpus {
      assert n / b == 1.0;
    } else {
      QuotientFalls(n, b, n);
    }
    if a < b {
      QuotientFalls(n, a, b);
    }
  }

  lemma MoreOccurrencesWeighMore(ln: real -> real, frequency: nat, more: nat, containing: nat, corpus: nat)
    requires IsLogarithm(ln) && frequency < more && containing <= corpus
    ensures TfIdf(ln)(frequency, containing, corpus) < TfIdf(ln)(more, containing, corpus)
  {
    RarityMeaning(ln, containing, containing, corpus);
    hide Rarity;
    assert ln(1.0 + frequency as real) < ln(1.0 + more as real);
    ProductRises(ln(1.0 + frequency as real), ln(1.0 + more as real), Rarity(ln, containing, corpus));
  }

  lemma RarerTermsWeighMore(ln: real -> real, frequency: nat, containing: nat, more: nat, corpus: nat)
    requires IsLogarithm(ln) && 0 < frequency && containing < more <= corpus
    ensures TfIdf(ln)(frequency, containing, corpus) > TfIdf(ln)(frequency, more, corpus)
  {
    RarityMeaning(ln, containing, more, corpus);
    hide Rarity;
    var l := ln(1.0 + frequency as real);
    assert ln(1.0) < l;
    ProductRises(Rarity(ln, more, corpus), Rarity(ln, containing, corpus), l);
  }

  // --- queries of one term --------------------------------------------------------------------

  lemma ScoreOfOne(chunks: seq<DocumentChunk>, chunk: DocumentChunk, term: string, w: Weight)
    ensures ScoreOf({term}, chunk, chunks, w) == TermScore(term, chunk, chunks, w)
  {
    ScorePick({term}, term, chunk, chunks, w);
    EmptyScore(chunk, chunks, w);
    hide TermScore, ScoreOf;
    assert {term} - {term} == {};
  }

  lemma HitOfOneTerm(chunks: seq<DocumentChunk>, term: string, w: Weight, r: SearchResult)
    requires DistinctIds(chunks) && IsHit(chunks, {term}, w, r)
    ensures r.matchedTerms == 1
    ensures r.score == w(multiset(Terms(r.chunk.rawText))[term], |Containing(chunks, term)|, |chunks|)
  {
    MatchedMeaning({term}, r.chunk);
    TermScoreMeaning(chunks, r.chunk, term, w);
    ScoreOfOne(chunks, r.chunk, term, w);
    hide ScoreOf, TermScore, Matched, Terms, Containing;
    assert Matched({term}, r.chunk) == {term};
  }

  lemma {:induction false} AtMostAll(chunks: seq<DocumentChunk>, term: string)
    ensures |Containing(chunks, term)| <= |chunks|
  {
    hide Terms;
    if chunks != [] {
      var (before, last) := (chunks[..|chunks| - 1], chunks[|chunks| - 1]);
      assert chunks == before + [last];
      AtMostAll(before, term);
      assert Containing(chunks, term) <= Containing(before, term) + {last};
      SubsetSize(Containing(chunks, term), Containing(before, term) + {last});
    }
  }

  lemma {:induction false} SubsetSize<T>(a: set<T>, b: set<T>)
    requires a <= b
    ensures |a| <= |b|
  {
    assert b == a + (b - a);
  }

  // A query of one term finds the chunks that contain it, those with more occurrences first
  // and earlier chunks before later ones with as many; one is left out only when k others
  // come before it.
  lemma OneTermQuery(chunks: seq<DocumentChunk>, query: string, term: string, ln: real -> real, k: nat)
    requires DistinctIds(chunks) && IsLogarithm(ln) && ToSet(Terms(query)) == {term}
    ensures var results := BruteForce(chunks, query, TfIdf(ln), k);
      && (forall r <- results :: r.chunk in chunks && term in Terms(r.chunk.rawText))
      && (forall i, j :: 0 <= i < j < |results| ==> Before(results[i].chunk, results[j].chunk, term))
      && (forall chunk <- chunks :: term in Terms(chunk.rawText) ==>
            || (exists r <- results :: r.chunk == chunk)
            || (|results| == k && forall r <- results :: Before(r.chunk, chunk, term)))
  {
    var (w, results) := (TfIdf(ln), BruteForce(chunks, query, TfIdf(ln), k));
    BruteForceIsBestFirst(chunks, query, w, k);
    hide Terms, BruteForce, TfIdf, IsHit;
    forall r | IsHit(chunks, {term}, w, r) ensures r.chunk in chunks && term in Terms(r.chunk.rawText) {
      HitContains(chunks, term, w, r);
    }
    forall a, b | IsHit(chunks, {term}, w, a) && IsHit(chunks, {term}, w, b) && InOrder(a, b)
      ensures Before(a.chunk, b.chunk, term)
    {
      InOrderOfOneTerm(chunks, term, ln, a, b);
    }
    forall chunk | chunk in chunks && term in Terms(chunk.rawText)
      ensures || (exists r <- results :: r.chunk == chunk)
              || (|results| == k && forall r <- results :: Before(r.chunk, chunk, term))
    {
      var r := ResultOf(chunks, {term}, chunk, w);
      ContainingIsHit(chunks, term, w, chunk);
    }
  }

  predicate Before(a: DocumentChunk, b: DocumentChunk, term: string) {
    var (m, n) := (multiset(Terms(a.rawText))[term], multiset(Terms(b.rawText))[term]);
    m > n || (m == n && a.id < b.id)
  }

  lemma HitContains(chunks: seq<DocumentChunk>, term: string, w: Weight, r: SearchResult)
    requires IsHit(chunks, {term}, w, r)
    ensures r.chunk in chunks && term in Terms(r.chunk.rawText)
  {
    MatchedMeaning({term}, r.chunk);
    hide Terms, Matched;
  }

  lemma ContainingIsHit(chunks: seq<DocumentChunk>, term: string, w: Weight, chunk: DocumentChunk)
    requires chunk in chunks && term in Terms(chunk.rawText)
    ensures IsHit(chunks, {term}, w, ResultOf(chunks, {term}, chunk, w))
    ensures ResultOf(chunks, {term}, chunk, w).chunk == chunk
  {
    MatchedMeaning({term}, chunk);
    hide Terms, Matched;
    assert term in Matched({term}, chunk);
  }

  lemma InOrderOfOneTerm(chunks: seq<DocumentChunk>, term: string, ln: real -> real, a: SearchResult, b: SearchResult)
    requires DistinctIds(chunks) && IsLogarithm(ln)
    requires IsHit(chunks, {term}, TfIdf(ln), a) && IsHit(chunks, {term}, TfIdf(ln), b) && InOrder(a, b)
    ensures Before(a.chunk, b.chunk, term)
  {
    hide Terms, TfIdf, IsHit, Containing;
    HitOfOneTerm(chunks, term, TfIdf(ln), a);
    HitOfOneTerm(chunks, term, TfIdf(ln), b);
    AtMostAll(chunks, term);
    var (m, n) := (multiset(Terms(a.chunk.rawText))[term], multiset(Terms(b.chunk.rawText))[term]);
    if m < n {
      MoreOccurrencesWeighMore(ln, m, n, |Containing(chunks, term)|, |chunks|);
    }
  }
}
