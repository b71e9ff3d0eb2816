// What a GET request is answered, by its path, its parameters and its headers, over the
// bytes a client writes.
module Routes {
  import opened TcpProtocol
  import opened Framing
  import opened UrlCodec
  import opened HttpRequests
  import opened HttpMessages
  import opened HttpResponses
  import opened InvertedIndexes
  import opened SearchServices
  import opened Json
  import opened SearchApplications

  // `raw` is a GET request for a path, with these parameters and headers.
  ghost predicate IsGet(raw: string, path: string, pairs: seq<Pair>, headers: seq<Header>) {
    && (forall f <- headers :: CleanHeader(f))
    && exists query :: CleanTarget("GET", path, query) && Says(query, pairs)
         && raw == Message(RequestLineOf("GET", TargetOf(path, query)), headers)
  }

  lemma GetParsed(raw: string, path: string, pairs: seq<Pair>, headers: seq<Header>)
    requires IsGet(raw, path, pairs, headers)
    ensures IsFrame(raw)
    ensures ParseRequest(raw) ==
      Accepted(HttpRequest("GET", path, FirstWins(map[], pairs), EmplaceAll(map[], headers)), |raw| - 2)
  {
    var query :| CleanTarget("GET", path, query) && Says(query, pairs)
      && raw == Message(RequestLineOf("GET", TargetOf(path, query)), headers);
    hide *;
    RequestRoundTrip("GET", path, query, pairs, headers);
  }

  // --- closing or keeping the connection ----------------------------------------------------

  ghost predicate Named(headers: seq<Header>, name: string, value: string) {
    exists f <- headers :: f.name == name && f.value == value
  }

  lemma {:induction false} EmplaceAllMeaning(found: map<string, string>, headers: seq<Header>, name: string)
    ensures name in EmplaceAll(found, headers) <==> name in found || exists f <- headers :: f.name == name
    ensures name in found ==> name in EmplaceAll(found, headers) && EmplaceAll(found, headers)[name] == found[name]
    ensures name !in found && name in EmplaceAll(found, headers) ==> Named(headers, name, EmplaceAll(found, headers)[name])
    decreases |headers|
  {
    if headers != [] {
      var (f, rest) := (headers[0], headers[1..]);
      var found' := EmplaceHeader(found, f.name, f.value);
      EmplaceAllMeaning(found', rest, name);
      assert headers == [f] + rest;
      var all := EmplaceAll(found, headers);
      if name !in found && name in all {
        if name == f.name {
          assert all[name] == f.value;
        } else {
          var g :| g in rest && g.name == name && g.value == all[name];
          assert g in headers;
        }
      }
    }
  }

  ghost predicate AsksToClose(headers: seq<Header>) {
    && (exists f <- headers :: IsConnection(f.name))
    && (forall f <- headers :: IsConnection(f.name) ==> IsClose(f.value))
  }

  ghost predicate NeverAsksToClose(headers: seq<Header>) {
    forall f <- headers :: IsConnection(f.name) ==> !IsClose(f.value)
  }

  // The name and the value in any case; a request that says nothing keeps the connection.
  lemma HeadersDecide(headers: seq<Header>, close: bool)
    requires MayClose(EmplaceAll(map[], headers), close)
    ensures AsksToClose(headers) ==> close
    ensures NeverAsksToClose(headers) ==> !close
  {
    var all := EmplaceAll(map[], headers);
    CloseMeaning(all);
    hide MayClose, EmplaceAll, IsConnection, IsClose;
    forall name: string ensures name in all ==> Named(headers, name, all[name]) {
      EmplaceAllMeaning(map[], headers, name);
    }
    forall f | f in headers ensures f.name in all {
      EmplaceAllMeaning(map[], headers, f.name);
    }
  }

  // --- answers ---------------------------------------------------------------------------------

  // The first "q" of the query is q.
  ghost predicate Asks(pairs: seq<Pair>, q: string) {
    exists i :: IsFirst(pairs, "q", i) && pairs[i].value == q
  }

  ghost predicate AsksNothing(pairs: seq<Pair>) {
    (forall pair <- pairs :: pair.key != "q") || Asks(pairs, "")
  }

  // The JSON of the ten best chunks at most.
  ghost predicate IsSearchAnswer(corpus: Corpus, q: string, body: string) {
    exists results :: BestFirst(corpus.chunks, q, corpus.weight, 10, results) && body == ToJson(q, results, corpus.score)
  }

  predicate IsText(r: Response, status: string, body: string) {
    r.status == status && r.contentType == "text/plain; charset=utf-8" && r.body == body
  }

  predicate IsJson(r: Response) {
    r.status == "200 OK" && r.contentType == "application/json; charset=utf-8"
  }

  ghost predicate IsRightAnswer(corpus: Corpus, path: string, pairs: seq<Pair>, headers: seq<Header>, r: Response) {
    && (AsksToClose(headers) ==> r.close)
    && (NeverAsksToClose(headers) ==> !r.close)
    && (path == "/" ==> IsText(r, "200 OK", "Hello CppSearchServer\n"))
    && (path == "/metrics" ==> IsJson(r))
    && (path == "/search" ==>
          && (AsksNothing(pairs) ==> IsText(r, "400 Bad Request", "The q query parameter is required\n"))
          && forall q :: Asks(pairs, q) && q != "" ==> IsJson(r) && IsSearchAnswer(corpus, q, r.body))
    && (path !in {"/", "/metrics", "/search"} ==> IsText(r, "404 Not Found", "Not Found\n"))
  }

  lemma JsonIsSearchAnswer(corpus: Corpus, q: string)
    requires DistinctIds(corpus.chunks)
    ensures IsSearchAnswer(corpus, q, JsonFor(corpus, q))
  {
    hide BruteForce, BestFirst, ToJson;
    BruteForceIsBestFirst(corpus.chunks, q, corpus.weight, 10);
  }

  // A query is the value of its first "q", and none counts like an empty one.
  lemma QueryAsked(path: string, pairs: seq<Pair>, headers: map<string, string>)
    ensures var request := HttpRequest("GET", path, FirstWins(map[], pairs), headers);
      && (AsksNothing(pairs) ==> SearchQuery(request) == None)
      && forall q :: Asks(pairs, q) && q != "" ==> SearchQuery(request) == if path == "/search" then Some(q) else None
  {
    var params := FirstWins(map[], pairs);
    FirstWinsMeaning(map[], pairs, "q");
    hide FirstWins;
    if forall pair <- pairs :: pair.key != "q" {
      assert "q" !in params;
    }
  }

  lemma OffTheSearchPath(request: HttpRequest)
    requires request.path != "/search"
    ensures SearchQuery(request) == None
  {
  }

  lemma PlainStatus(path: string, params: Params, headers: map<string, string>, close: bool)
    ensures var r := PlainAnswer(HttpRequest("GET", path, params, headers), close);
      if path == "/" then IsText(r, "200 OK", "Hello CppSearchServer\n")
      else if path == "/search" then IsText(r, "400 Bad Request", "The q query parameter is required\n")
      else IsText(r, "404 Not Found", "Not Found\n")
  {
  }

  // What the handler may answer an accepted GET request.
  lemma AnswerPermitted(corpus: Corpus, raw: string, request: HttpRequest, stoppedAt: nat, r: Response)
    requires Permitted(corpus, raw, r) && ParseRequest(raw) == Accepted(request, stoppedAt) && request.method_ == "GET"
    ensures MayClose(request.headers, r.close)
    ensures request.path == "/metrics" ==> IsJson(r)
    ensures request.path != "/metrics" ==>
      match SearchQuery(request)
      case Some(q) => r == OkJson(JsonFor(corpus, q), r.close)
      case None => r == PlainAnswer(request, r.close)
  {
    hide ParseRequest, MayClose, JsonFor, SearchQuery, PlainAnswer;
  }

  lemma SearchStatus(body: string, close: bool)
    ensures IsJson(OkJson(body, close)) && OkJson(body, close).body == body
  {
  }

  lemma RightAnswer(corpus: Corpus, raw: string, path: string, pairs: seq<Pair>, headers: seq<Header>, r: Response)
    requires DistinctIds(corpus.chunks) && IsGet(raw, path, pairs, headers) && Permitted(corpus, raw, r)
    ensures IsRightAnswer(corpus, path, pairs, headers, r)
  {
    var (params, found) := (FirstWins(map[], pairs), EmplaceAll(map[], headers));
    var request := HttpRequest("GET", path, params, found);
    GetParsed(raw, path, pairs, headers);
    hide *;
    AnswerPermitted(corpus, raw, request, |raw| - 2, r);
    QueryAsked(path, pairs, found);
    PlainStatus(path, params, found, r.close);
    HeadersDecide(headers, r.close);
    forall q: string
      ensures IsSearchAnswer(corpus, q, JsonFor(corpus, q))
      ensures IsJson(OkJson(JsonFor(corpus, q), r.close)) && OkJson(JsonFor(corpus, q), r.close).body == JsonFor(corpus, q)
    {
      JsonIsSearchAnswer(corpus, q);
      SearchStatus(JsonFor(corpus, q), r.close);
    }
    if path != "/search" {
      OffTheSearchPath(request);
    }
    IsRight(corpus, path, pairs, headers, r);
  }

  lemma IsRight(corpus: Corpus, path: string, pairs: seq<Pair>, headers: seq<Header>, r: Response)
    requires (AsksToClose(headers) ==> r.close) && (NeverAsksToClose(headers) ==> !r.close)
    requires path == "/" ==> IsText(r, "200 OK", "Hello CppSearchServer\n")
    requires path == "/metrics" ==> IsJson(r)
    requires path == "/search" && AsksNothing(pairs) ==> IsText(r, "400 Bad Request", "The q query parameter is required\n")
    requires path == "/search" ==> forall q :: Asks(pairs, q) && q != "" ==> IsJson(r) && IsSearchAnswer(corpus, q, r.body)
    requires path != "/" && path != "/metrics" && path != "/search" ==> IsText(r, "404 Not Found", "Not Found\n")
    ensures IsRightAnswer(corpus, path, pairs, headers, r)
  {
    hide Asks, AsksNothing, IsSearchAnswer, AsksToClose, NeverAsksToClose, IsText, IsJson;
  }

  // Everything else is refused, and the connection kept.
  lemma OthersRefused(corpus: Corpus, raw: string, r: Response)
    requires Permitted(corpus, raw, r)
    requires !ParseRequest(raw).Accepted? || ParseRequest(raw).request.method_ != "GET"
    ensures IsText(r, "400 Bad Request", "Only complete GET requests are supported\n") && !r.close
  {
    hide ParseRequest, JsonFor, MayClose;
  }

  predicate IsServerError(r: Response) {
    IsText(r, "500 Internal Server Error", "Internal Server Error\n") && r.close
  }

  lemma ServerError()
    ensures IsServerError(InternalServerError(true))
  {
  }
}
