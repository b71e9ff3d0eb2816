// src/search/SearchService.cpp: candidates from the inverted index, aggregated in a hash
// map and ranked, against a scan of every chunk. Scores are reals; the weight of a term in
// a chunk is any function of its frequency, its posting count and the corpus size.
module SearchServices {
  import opened Tokenizer
  import opened InvertedIndexes

  type Weight = (nat, nat, nat) -> real

  datatype SearchResult = SearchResult(chunk: DocumentChunk, matchedTerms: nat, score: real)

  datatype Candidate = Candidate(matchedTerms: nat, score: real)

  predicate RanksHigher(left: SearchResult, right: SearchResult) {
    if left.matchedTerms != right.matchedTerms then left.matchedTerms > right.matchedTerms
    else if left.score != right.score then left.score > right.score
    else left.chunk.id < right.chunk.id
  }

  // A strict total order on results of different chunks.
  lemma RanksHigherIsStrictTotal(a: SearchResult, b: SearchResult, c: SearchResult)
    ensures !RanksHigher(a, a)
    ensures RanksHigher(a, b) && RanksHigher(b, c) ==> RanksHigher(a, c)
    ensures a.chunk.id != b.chunk.id ==> RanksHigher(a, b) != RanksHigher(b, a)
  {
  }

  // The order of an answer: more matched terms first, then the higher score, then the lower id.
  predicate InOrder(first: SearchResult, second: SearchResult) {
    && first.matchedTerms >= second.matchedTerms
    && (first.matchedTerms == second.matchedTerms ==> first.score >= second.score)
    && (first.matchedTerms == second.matchedTerms && first.score == second.score ==> first.chunk.id < second.chunk.id)
  }

  lemma RanksHigherInOrder(a: SearchResult, b: SearchResult)
    ensures RanksHigher(a, b) ==> InOrder(a, b)
  {
  }

  function ToSet<T(==)>(s: seq<T>): set<T> {
    set x | x in s
  }

  // --- the brute-force answer -----------------------------------------------------------

  ghost function Matched(terms: set<string>, chunk: DocumentChunk): set<string> {
    set t <- terms | Frequency(chunk, t) > 0
  }

  function TermScore(term: string, chunk: DocumentChunk, chunks: seq<DocumentChunk>, w: Weight): real {
    w(Frequency(chunk, term), |PostingsOf(chunks, term)|, |chunks|)
  }

  // The sum of the term scores, in no particular order.
  ghost function ScoreOf(terms: set<string>, chunk: DocumentChunk, chunks: seq<DocumentChunk>, w: Weight): real {
    if terms == {} then 0.0
    else var t :| t in terms; TermScore(t, chunk, chunks, w) + ScoreOf(terms - {t}, chunk, chunks, w)
  }

  lemma {:induction false} ScorePick(terms: set<string>, x: string, chunk: DocumentChunk, chunks: seq<DocumentChunk>, w: Weight)
    requires x in terms
    ensures ScoreOf(terms, chunk, chunks, w) == TermScore(x, chunk, chunks, w) + ScoreOf(terms - {x}, chunk, chunks, w)
    decreases |terms|
  {
    hide TermScore;
    var t :| t in terms && ScoreOf(terms, chunk, chunks, w)
      == TermScore(t, chunk, chunks, w) + ScoreOf(terms - {t}, chunk, chunks, w);
    if t != x {
      ScorePick(terms - {t}, x, chunk, chunks, w);
      ScorePick(terms - {x}, t, chunk, chunks, w);
      assert terms - {t} - {x} == terms - {x} - {t};
    }
  }

  ghost function ResultOf(chunks: seq<DocumentChunk>, terms: set<string>, chunk: DocumentChunk, w: Weight): SearchResult {
    SearchResult(chunk, |Matched(terms, chunk)|, ScoreOf(Matched(terms, chunk), chunk, chunks, w))
  }

  ghost predicate IsHit(chunks: seq<DocumentChunk>, terms: set<string>, w: Weight, r: SearchResult) {
    r.chunk in chunks && Matched(terms, r.chunk) != {} && r == ResultOf(chunks, terms, r.chunk, w)
  }

  function Insert(ranked: seq<SearchResult>, r: SearchResult): seq<SearchResult> {
    if ranked == [] || RanksHigher(r, ranked[0]) then [r] + ranked else [ranked[0]] + Insert(ranked[1..], r)
  }

  // Scan the chunks one by one and insert each that shares a term with the query.
  ghost function Ranking(
    scanned: seq<DocumentChunk>, chunks: seq<DocumentChunk>, terms: set<string>, w: Weight): seq<SearchResult>
  {
    if scanned == [] then []
    else
      var (before, last) := (scanned[..|scanned| - 1], scanned[|scanned| - 1]);
      var ranked := Ranking(before, chunks, terms, w);
      if Matched(terms, last) == {} then ranked else Insert(ranked, ResultOf(chunks, terms, last, w))
  }

  ghost function BruteForce(chunks: seq<DocumentChunk>, query: string, w: Weight, topK: nat): seq<SearchResult> {
    var ranked := Ranking(chunks, chunks, ToSet(Terms(query)), w);
    if |ranked| <= topK then ranked else ranked[..topK]
  }

  // At most k chunks that share a term with the query, in order; one is left out only when k
  // others come before it.
  ghost predicate BestFirst(chunks: seq<DocumentChunk>, query: string, w: Weight, k: nat, results: seq<SearchResult>) {
    && |results| <= k
    && (forall r <- results :: IsHit(chunks, ToSet(Terms(query)), w, r))
    && (forall i, j :: 0 <= i < j < |results| ==> InOrder(results[i], results[j]))
    && (forall r :: IsHit(chunks, ToSet(Terms(query)), w, r) && r !in results ==>
          |results| == k && forall t <- results :: InOrder(t, r))
  }

  // --- what sorting must deliver ----------------------------------------------------------

  ghost predicate DifferentChunks(all: set<SearchResult>) {
    forall a, b :: a in all && b in all && a != b ==> a.chunk.id != b.chunk.id
  }

  ghost predicate Ranked(top: seq<SearchResult>) {
    forall i, j :: 0 <= i < j < |top| ==> RanksHigher(top[i], top[j])
  }

  // The best min(k, n) of n results, best first.
  ghost predicate IsTop(all: set<SearchResult>, k: nat, top: seq<SearchResult>) {
    && |top| == (if |all| <= k then |all| else k)
    && (forall r <- top :: r in all)
    && Ranked(top)
    && (forall r <- all :: r in top || forall t <- top :: RanksHigher(t, r))
  }

  // There is only one such list, so neither the order in which a hash map is walked nor the
  // algorithm that sorts can be seen in the answer.
  lemma {:induction false} TopIsUnique(all: set<SearchResult>, k: nat, top: seq<SearchResult>, top': seq<SearchResult>)
    requires DifferentChunks(all) && IsTop(all, k, top) && IsTop(all, k, top')
    ensures top == top'
    decreases k
  {
    if top != [] {
      TopFirst(all, k, top);
      TopFirst(all, k, top');
      assert top[0] == top'[0];
      TopRest(all, k, top);
      TopRest(all, k, top');
      TopIsUnique(all - {top[0]}, k - 1, top[1..], top'[1..]);
      assert top == [top[0]] + top[1..] && top' == [top'[0]] + top'[1..];
    }
  }

  lemma TopFirst(all: set<SearchResult>, k: nat, top: seq<SearchResult>)
    requires IsTop(all, k, top) && top != []
    ensures top[0] in all && forall r <- all :: r == top[0] || RanksHigher(top[0], r)
  {
    hide RanksHigher;
    forall r | r in all ensures r == top[0] || RanksHigher(top[0], r) {
      if r in top {
        var i :| 0 <= i < |top| && top[i] == r;
      }
    }
  }

  lemma TopRest(all: set<SearchResult>, k: nat, top: seq<SearchResult>)
    requires IsTop(all, k, top) && top != []
    ensures k > 0 && IsTop(all - {top[0]}, k - 1, top[1..])
  {
    RanksHigherIsStrictTotal(top[0], top[0], top[0]);
    hide RanksHigher;
    forall r | r in top[1..] ensures r in all - {top[0]} {
      var i :| 0 <= i < |top[1..]| && top[1..][i] == r;
      assert RanksHigher(top[0], top[i + 1]);
    }
  }

  lemma {:induction false} BestExists(left: set<SearchResult>) returns (best: SearchResult)
    requires left != {} && DifferentChunks(left)
    ensures best in left && forall r <- left :: r == best || RanksHigher(best, r)
    decreases |left|
  {
    best :| best in left;
    if left != {best} {
      var other := BestExists(left - {best});
      RanksHigherIsStrictTotal(best, other, other);
      if RanksHigher(other, best) {
        best := other;
      } else {
        forall r | r in left ensures r == best || RanksHigher(best, r) {
          RanksHigherIsStrictTotal(best, other, r);
        }
      }
    }
  }

  // The contract of std::partial_sort and std::sort with ranksHigher.
  method SortTop(results: set<SearchResult>, topK: nat) returns (top: seq<SearchResult>)
    requires DifferentChunks(results)
    ensures IsTop(results, topK, top)
  {
    hide RanksHigher;
    top := [];
    var left := results;
    while left != {} && |top| < topK
      invariant left <= results && |top| <= topK && |top| + |left| == |results|
      invariant forall r <- results :: r in left || r in top
      invariant forall r <- top :: r in results
      invariant Ranked(top)
      invariant forall t <- top, r <- left :: RanksHigher(t, r)
      decreases left
    {
      ghost var witness' := BestExists(left);
      var best :| best in left && forall r <- left :: r == best || RanksHigher(best, r);
      top := top + [best];
      left := left - {best};
    }
  }

  // --- the brute-force list is the top list ---------------------------------------------

  lemma {:induction false} InsertKeepsRanked(ranked: seq<SearchResult>, r: SearchResult)
    requires Ranked(ranked) && forall x <- ranked :: x.chunk.id != r.chunk.id
    ensures Ranked(Insert(ranked, r)) && |Insert(ranked, r)| == |ranked| + 1
    ensures forall x :: x in Insert(ranked, r) <==> x in ranked || x == r
  {
    if ranked == [] {
    } else if RanksHigher(r, ranked[0]) {
      forall x | x in ranked ensures RanksHigher(r, x) {
        RanksHigherIsStrictTotal(r, ranked[0], x);
      }
    } else {
      InsertKeepsRanked(ranked[1..], r);
      RanksHigherIsStrictTotal(r, ranked[0], ranked[0]);
      var rest := Insert(ranked[1..], r);
      forall x | x in rest ensures RanksHigher(ranked[0], x) {
        assert x in ranked[1..] || x == r;
      }
      assert ranked == [ranked[0]] + ranked[1..];
    }
  }

  lemma {:induction false} RankingIsRanked(
    scanned: seq<DocumentChunk>, chunks: seq<DocumentChunk>, terms: set<string>, w: Weight)
    requires DistinctIds(scanned)
    ensures var ranked := Ranking(scanned, chunks, terms, w);
      && Ranked(ranked)
      && forall r :: r in ranked <==>
           r.chunk in scanned && Matched(terms, r.chunk) != {} && r == ResultOf(chunks, terms, r.chunk, w)
  {
    hide Matched, ResultOf, RanksHigher;
    if scanned != [] {
      var (before, last) := (scanned[..|scanned| - 1], scanned[|scanned| - 1]);
      assert scanned == before + [last];
      RankingIsRanked(before, chunks, terms, w);
      var ranked := Ranking(before, chunks, terms, w);
      ResultChunk(chunks, terms, last, w);
      if Matched(terms, last) != {} {
        InsertKeepsRanked(ranked, ResultOf(chunks, terms, last, w));
      }
    }
  }

  lemma ResultChunk(chunks: seq<DocumentChunk>, terms: set<string>, chunk: DocumentChunk, w: Weight)
    ensures ResultOf(chunks, terms, chunk, w).chunk == chunk
  {
  }

  lemma {:induction false} RankedIsDistinct(ranked: seq<SearchResult>)
    requires Ranked(ranked)
    ensures |ToSet(ranked)| == |ranked|
  {
    if ranked != [] {
      var (before, last) := (ranked[..|ranked| - 1], ranked[|ranked| - 1]);
      RankedIsDistinct(before);
      assert ToSet(ranked) == ToSet(before) + {last};
      forall r | r in before ensures r != last {
        RanksHigherIsStrictTotal(last, last, last);
      }
    }
  }

  lemma RankedPrefixIsTop(ranked: seq<SearchResult>, k: nat)
    requires Ranked(ranked)
    ensures IsTop(ToSet(ranked), k, if |ranked| <= k then ranked else ranked[..k])
  {
    RankedIsDistinct(ranked);
    hide RanksHigher;
    var top := if |ranked| <= k then ranked else ranked[..k];
    forall r | r in ranked && r !in top ensures forall t <- top :: RanksHigher(t, r) {
      var j :| 0 <= j < |ranked| && ranked[j] == r;
      assert forall i :: 0 <= i < |top| ==> top[i] == ranked[i];
    }
  }

  // --- aggregation ------------------------------------------------------------------------

  // The terms counted for a chunk so far: those done, and the current one if the chunk is
  // among the postings already walked.
  ghost function Counted(done: set<string>, term: string, walked: set<nat>, chunk: DocumentChunk): set<string> {
    Matched(done, chunk) + if chunk.id in walked then {term} else {}
  }

  ghost predicate CandidateOk(
    candidates: map<nat, Candidate>, chunks: seq<DocumentChunk>, w: Weight, chunk: DocumentChunk, terms: set<string>)
  {
    if terms == {} then chunk.id !in candidates
    else
      && chunk.id in candidates
      && candidates[chunk.id] == Candidate(|terms|, ScoreOf(terms, chunk, chunks, w))
  }

  ghost predicate CandidatesOk(
    candidates: map<nat, Candidate>, chunks: seq<DocumentChunk>, w: Weight,
    done: set<string>, term: string, walked: set<nat>)
  {
    && (forall chunk <- chunks :: CandidateOk(candidates, chunks, w, chunk, Counted(done, term, walked, chunk)))
    && (forall id <- candidates :: exists chunk <- chunks :: chunk.id == id)
  }

  function CountPosting(candidates: map<nat, Candidate>, posting: Posting, score: real): map<nat, Candidate> {
    var c := if posting.chunkId in candidates then candidates[posting.chunkId] else Candidate(0, 0.0);
    candidates[posting.chunkId := Candidate(c.matchedTerms + 1, c.score + score)]
  }

  lemma OneId(chunks: seq<DocumentChunk>, a: DocumentChunk, b: DocumentChunk)
    requires DistinctIds(chunks) && a in chunks && b in chunks && a.id == b.id
    ensures a == b
  {
  }

  lemma OwnCandidate(
    candidates: map<nat, Candidate>, chunks: seq<DocumentChunk>, w: Weight, chunk: DocumentChunk, before: set<string>, term: string)
    requires CandidateOk(candidates, chunks, w, chunk, before) && term !in before
    ensures var posting := Posting(chunk.id, Frequency(chunk, term));
      CandidateOk(CountPosting(candidates, posting, TermScore(term, chunk, chunks, w)), chunks, w, chunk, before + {term})
  {
    hide TermScore, Frequency;
    assert before + {term} - {term} == before;
    ScorePick(before + {term}, term, chunk, chunks, w);
    hide ScoreOf;
    assert before == {} ==> ScoreOf({}, chunk, chunks, w) == 0.0 by { EmptyScore(chunk, chunks, w); }
  }

  lemma EmptyScore(chunk: DocumentChunk, chunks: seq<DocumentChunk>, w: Weight)
    ensures ScoreOf({}, chunk, chunks, w) == 0.0
  {
  }

  lemma OtherCandidate(
    candidates: map<nat, Candidate>, chunks: seq<DocumentChunk>, w: Weight, posting: Posting, score: real,
    chunk: DocumentChunk, terms: set<string>)
    requires CandidateOk(candidates, chunks, w, chunk, terms) && posting.chunkId != chunk.id
    ensures CandidateOk(CountPosting(candidates, posting, score), chunks, w, chunk, terms)
  {
    hide ScoreOf;
  }

  lemma PostingCounted(
    candidates: map<nat, Candidate>, chunks: seq<DocumentChunk>, w: Weight,
    done: set<string>, term: string, walked: set<nat>, chunk: DocumentChunk)
    requires DistinctIds(chunks) && CandidatesOk(candidates, chunks, w, done, term, walked)
    requires term !in done && chunk in chunks && chunk.id !in walked
    ensures var posting := Posting(chunk.id, Frequency(chunk, term));
      CandidatesOk(CountPosting(candidates, posting, TermScore(term, chunk, chunks, w)), chunks, w, done, term, walked + {chunk.id})
  {
    hide TermScore, Frequency, CandidateOk;
    var posting := Posting(chunk.id, Frequency(chunk, term));
    var score := TermScore(term, chunk, chunks, w);
    var candidates' := CountPosting(candidates, posting, score);
    forall c | c in chunks ensures CandidateOk(candidates', chunks, w, c, Counted(done, term, walked + {chunk.id}, c)) {
      var before := Counted(done, term, walked, c);
      if c.id == chunk.id {
        OneId(chunks, c, chunk);
        OwnCandidate(candidates, chunks, w, chunk, before, term);
        assert Counted(done, term, walked + {chunk.id}, c) == before + {term};
      } else {
        OtherCandidate(candidates, chunks, w, posting, score, c, before);
        assert Counted(done, term, walked + {chunk.id}, c) == before;
      }
    }
  }

  // Walking the whole posting list counts the term for exactly the chunks that contain it.
  lemma TermDone(
    candidates: map<nat, Candidate>, chunks: seq<DocumentChunk>, w: Weight,
    done: set<string>, term: string, walked: set<nat>, next: string)
    requires DistinctIds(chunks) && CandidatesOk(candidates, chunks, w, done, term, walked)
    requires forall chunk <- chunks :: chunk.id in walked <==> Frequency(chunk, term) > 0
    ensures CandidatesOk(candidates, chunks, w, done + {term}, next, {})
  {
    hide CandidateOk, Frequency;
    forall c | c in chunks ensures CandidateOk(candidates, chunks, w, c, Counted(done + {term}, next, {}, c)) {
      assert Counted(done + {term}, next, {}, c) == Counted(done, term, walked, c);
    }
  }

  lemma NothingCounted(chunks: seq<DocumentChunk>, w: Weight, term: string)
    ensures CandidatesOk(map[], chunks, w, {}, term, {})
  {
  }

  lemma NextTerm(candidates: map<nat, Candidate>, chunks: seq<DocumentChunk>, w: Weight, done: set<string>, term: string, next: string)
    requires CandidatesOk(candidates, chunks, w, done, term, {})
    ensures CandidatesOk(candidates, chunks, w, done, next, {})
  {
    hide CandidateOk;
    forall c | c in chunks ensures Counted(done, next, {}, c) == Counted(done, term, {}, c) {
    }
  }

  // --- the service ------------------------------------------------------------------------

  class SearchService {
    const index: InvertedIndex
    const chunksById: map<nat, DocumentChunk>
    const documentCount: nat
    ghost const chunks: seq<DocumentChunk>

    // The service may be made before the index is filled; it searches once both agree.
    ghost predicate Valid()
      reads this, index
    {
      && index.Valid() && index.chunks == chunks && DistinctIds(chunks)
      && documentCount == |chunks|
      && (forall id <- chunksById :: chunksById[id] in chunks && chunksById[id].id == id)
      && (forall chunk <- chunks :: chunk.id in chunksById)
    }

    constructor (chunks: seq<DocumentChunk>, index: InvertedIndex)
      requires DistinctIds(chunks)
      ensures this.index == index && this.chunks == chunks && documentCount == |chunks|
      ensures forall id <- chunksById :: chunksById[id] in chunks && chunksById[id].id == id
      ensures forall chunk <- chunks :: chunk.id in chunksById
    {
      this.index, this.chunks, documentCount := index, chunks, |chunks|;
      var byId: map<nat, DocumentChunk> := map[];
      for i := 0 to |chunks|
        invariant forall id <- byId :: byId[id] in chunks && byId[id].id == id
        invariant forall chunk <- chunks[..i] :: chunk.id in byId
      {
        if chunks[i].id !in byId {  // emplace keeps the first
          byId := byId[chunks[i].id := chunks[i]];
        }
      }
      chunksById := byId;
    }

    method Aggregate(query: string, w: Weight) returns (candidates: map<nat, Candidate>)
      requires Valid()
      ensures CandidatesOk(candidates, chunks, w, ToSet(Terms(query)), "", {})
    {
      hide Terms, CandidatesOk, Frequency;
      var queryTokens := AnalyzeTerms(query);
      var uniqueTerms := ToSet(queryTokens);
      candidates := map[];
      NothingCounted(chunks, w, "");
      var left := uniqueTerms;
      assert uniqueTerms - left == {};
      while left != {}
        invariant left <= uniqueTerms
        invariant CandidatesOk(candidates, chunks, w, uniqueTerms - left, "", {})
        decreases left
      {
        var term :| term in left;
        NextTerm(candidates, chunks, w, uniqueTerms - left, "", term);
        candidates := CountTerm(candidates, term, w, uniqueTerms - left);
        assert uniqueTerms - left + {term} == uniqueTerms - (left - {term});
        left := left - {term};
      }
      assert uniqueTerms - left == uniqueTerms;
    }

    // One turn of the outer loop; a term without postings is skipped.
    method CountTerm(before: map<nat, Candidate>, term: string, w: Weight, ghost done: set<string>)
        returns (candidates: map<nat, Candidate>)
      requires Valid() && term !in done && CandidatesOk(before, chunks, w, done, term, {})
      ensures CandidatesOk(candidates, chunks, w, done + {term}, "", {})
    {
      hide CandidatesOk, Frequency, PostingsOf;
      candidates := before;
      var found, postings := index.FindTerm(term);
      PostingsAreExact(chunks, term);
      ghost var walked: set<nat> := {};
      for i := 0 to |postings|
        invariant walked == set j | 0 <= j < i :: postings[j].chunkId
        invariant CandidatesOk(candidates, chunks, w, done, term, walked)
      {
        var posting := postings[i];
        ghost var chunk :| chunk in chunks && posting == Posting(chunk.id, Frequency(chunk, term));
        PostingCounted(candidates, chunks, w, done, term, walked, chunk);
        candidates := CountPosting(candidates, posting, w(posting.termFrequency, |postings|, documentCount));
        walked := walked + {posting.chunkId};
      }
      WalkedAll(chunks, term, postings, walked);
      TermDone(candidates, chunks, w, done, term, walked, "");
    }

    // The candidates as results, taken from the hash map in any order.
    method Collect(candidates: map<nat, Candidate>) returns (results: set<SearchResult>)
      requires Valid()
      ensures forall r :: r in results <==>
        r.chunk in chunks && r.chunk.id in candidates
        && r == SearchResult(r.chunk, candidates[r.chunk.id].matchedTerms, candidates[r.chunk.id].score)
    {
      results := {};
      var left := candidates.Keys;
      while left != {}
        invariant left <= candidates.Keys
        invariant forall r :: r in results <==>
          r.chunk in chunks && r.chunk.id in candidates && r.chunk.id !in left
          && r == SearchResult(r.chunk, candidates[r.chunk.id].matchedTerms, candidates[r.chunk.id].score)
        decreases left
      {
        var id :| id in left;
        if id in chunksById {
          var result := SearchResult(chunksById[id], candidates[id].matchedTerms, candidates[id].score);
          assert forall chunk <- chunks :: chunk.id == id ==> chunk == chunksById[id];
          results := results + {result};
        }
        left := left - {id};
      }
    }

    method Search(query: string, topK: nat, w: Weight) returns (results: seq<SearchResult>)
      requires Valid()
      ensures results == BruteForce(chunks, query, w, topK)
      ensures BestFirst(chunks, query, w, topK, results)
    {
      BruteForceIsBestFirst(chunks, query, w, topK);
      hide Terms, PostingsOf, BestFirst;
      if topK == 0 || documentCount == 0 {
        NothingToFind(chunks, query, w, topK);
        return [];
      }
      var candidates := Aggregate(query, w);
      var found := Collect(candidates);
      CollectedAreHits(chunks, ToSet(Terms(query)), w, candidates, found);
      results := SortTop(found, topK);
      BruteForceIsTop(chunks, query, w, topK, found);
      TopIsUnique(found, topK, results, BruteForce(chunks, query, w, topK));
    }
  }

  lemma WalkedAll(chunks: seq<DocumentChunk>, term: string, postings: seq<Posting>, walked: set<nat>)
    requires DistinctIds(chunks) && postings == PostingsOf(chunks, term)
    requires walked == set j | 0 <= j < |postings| :: postings[j].chunkId
    ensures forall chunk <- chunks :: chunk.id in walked <==> Frequency(chunk, term) > 0
  {
    hide Frequency, PostingsOf;
    PostingsAreExact(chunks, term);
    forall chunk | chunk in chunks ensures chunk.id in walked <==> Frequency(chunk, term) > 0 {
      if Frequency(chunk, term) > 0 {
        var p := Posting(chunk.id, Frequency(chunk, term));
        var j :| 0 <= j < |postings| && postings[j] == p;
      }
      if chunk.id in walked {
        var j :| 0 <= j < |postings| && postings[j].chunkId == chunk.id;
        assert postings[j] in postings;
        var c :| c in chunks && postings[j] == Posting(c.id, Frequency(c, term));
        OneId(chunks, c, chunk);
      }
    }
  }

  lemma NothingToFind(chunks: seq<DocumentChunk>, query: string, w: Weight, topK: nat)
    requires topK == 0 || chunks == []
    ensures BruteForce(chunks, query, w, topK) == []
  {
  }

  lemma CollectedAreHits(
    chunks: seq<DocumentChunk>, terms: set<string>, w: Weight, candidates: map<nat, Candidate>, found: set<SearchResult>)
    requires DistinctIds(chunks) && CandidatesOk(candidates, chunks, w, terms, "", {})
    requires forall r :: r in found <==>
      r.chunk in chunks && r.chunk.id in candidates
      && r == SearchResult(r.chunk, candidates[r.chunk.id].matchedTerms, candidates[r.chunk.id].score)
    ensures forall r :: r in found <==> IsHit(chunks, terms, w, r)
    ensures DifferentChunks(found)
  {
    hide Matched, ScoreOf;
    forall r ensures r in found <==> IsHit(chunks, terms, w, r) {
      if r.chunk in chunks {
        assert CandidateOk(candidates, chunks, w, r.chunk, Counted(terms, "", {}, r.chunk));
        assert Counted(terms, "", {}, r.chunk) == Matched(terms, r.chunk);
      }
    }
    forall a, b | a in found && b in found && a != b ensures a.chunk.id != b.chunk.id {
      if a.chunk.id == b.chunk.id {
        OneId(chunks, a.chunk, b.chunk);
      }
    }
  }

  lemma BruteForceIsTop(chunks: seq<DocumentChunk>, query: string, w: Weight, topK: nat, found: set<SearchResult>)
    requires DistinctIds(chunks) && forall r :: r in found <==> IsHit(chunks, ToSet(Terms(query)), w, r)
    ensures IsTop(found, topK, BruteForce(chunks, query, w, topK))
  {
    hide Terms, Matched, ResultOf;
    var terms := ToSet(Terms(query));
    RankingIsRanked(chunks, chunks, terms, w);
    var ranked := Ranking(chunks, chunks, terms, w);
    assert ToSet(ranked) == found;
    RankedPrefixIsTop(ranked, topK);
  }

  lemma HitsOf(chunks: seq<DocumentChunk>, terms: set<string>, w: Weight) returns (found: set<SearchResult>)
    ensures forall r :: r in found <==> IsHit(chunks, terms, w, r)
  {
    hide Matched;
    found := set chunk | chunk in chunks && Matched(terms, chunk) != {} :: ResultOf(chunks, terms, chunk, w);
    assert forall chunk :: ResultOf(chunks, terms, chunk, w).chunk == chunk;
  }

  // What the brute-force answer is, in the fields of its results.
  lemma BruteForceIsBestFirst(chunks: seq<DocumentChunk>, query: string, w: Weight, topK: nat)
    requires DistinctIds(chunks)
    ensures BestFirst(chunks, query, w, topK, BruteForce(chunks, query, w, topK))
  {
    hide Terms, BruteForce, IsHit, RanksHigher, InOrder;
    var found := HitsOf(chunks, ToSet(Terms(query)), w);
    BruteForceIsTop(chunks, query, w, topK, found);
    TopIsInOrder(found, topK, BruteForce(chunks, query, w, topK));
  }

  lemma TopIsInOrder(all: set<SearchResult>, k: nat, top: seq<SearchResult>)
    requires IsTop(all, k, top)
    ensures forall i, j :: 0 <= i < j < |top| ==> InOrder(top[i], top[j])
    ensures forall r <- all :: r in top || forall t <- top :: InOrder(t, r)
    ensures |top| <= k && ((exists r <- all :: r !in top) ==> |top| == k)
  {
    hide RanksHigher, InOrder;
    forall a, b ensures RanksHigher(a, b) ==> InOrder(a, b) {
      RanksHigherInOrder(a, b);
    }
    if |all| <= k {
      assert ToSet(top) <= all;
      RankedIsDistinct(top);
      SameSize(ToSet(top), all);
    }
  }

  lemma SameSize<T>(part: set<T>, all: set<T>)
    requires part <= all && |part| == |all|
    ensures part == all
  {
    assert |all - part| == 0;
  }
}
