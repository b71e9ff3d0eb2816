// src/search/SearchApplication.cpp: the answer to one request, with the caches of the thread
// that computes it, and the request handler of src/main.cpp around it.
module SearchApplications {
  import opened TcpProtocol
  import opened UrlCodec
  import opened HttpRequests
  import opened HttpResponses
  import opened Json
  import opened InvertedIndexes
  import opened SearchServices
  import opened LruSpec
  import opened SearchCaches
  import opened CacheRuns
  import opened ChunkerTheorems

  const SEARCH_TOP_K := 10

  // The documents served, the weight of terms and the way scores are printed.
  datatype Corpus = Corpus(chunks: seq<DocumentChunk>, weight: Weight, score: ScoreText)

  // The answer to a query, computed by brute force and without any cache.
  ghost function JsonFor(corpus: Corpus, query: string): string {
    ToJson(query, BruteForce(corpus.chunks, query, corpus.weight, SEARCH_TOP_K), corpus.score)
  }

  // The query of a search, if a request is one.
  function SearchQuery(request: HttpRequest): Option<string> {
    if request.path == "/search" && "q" in request.queryParams && request.queryParams["q"] != "" then
      Some(request.queryParams["q"])
    else None
  }

  // The response to an accepted GET request that is not a search.
  function PlainAnswer(request: HttpRequest, close: bool): Response {
    if request.path == "/" then OkText("Hello CppSearchServer\n", close)
    else if request.path != "/search" then NotFound(close)
    else BadRequest("The q query parameter is required\n", close)
  }

  // The response to an accepted GET request. Only the answer to a query is looked up.
  ghost function Answer(corpus: Corpus, request: HttpRequest, close: bool): Response {
    match SearchQuery(request)
    case Some(query) => OkJson(JsonFor(corpus, query), close)
    case None => PlainAnswer(request, close)
  }

  // What a request may be answered: one response, up to the order in which headers that
  // disagree about the connection are found.
  ghost predicate MayAnswer(corpus: Corpus, raw: string, r: Response) {
    var parsed := ParseRequest(raw);
    if !parsed.Accepted? || parsed.request.method_ != "GET" then
      r == BadRequest("Only complete GET requests are supported\n", false)
    else MayClose(parsed.request.headers, r.close) && r == Answer(corpus, parsed.request, r.close)
  }

  // Whatever is stored under the key of a query is the answer to that query.
  ghost predicate StoredOk(corpus: Corpus, key: string, value: string) {
    forall q :: key == MakeSearchCacheKey(q) ==> value == JsonFor(corpus, q)
  }

  ghost predicate RedisSound(corpus: Corpus, redis: map<string, string>) {
    forall key <- redis :: StoredOk(corpus, key, redis[key])
  }

  ghost predicate LocalSound(corpus: Corpus, local: Lru<string>) {
    forall item <- local.items :: StoredOk(corpus, item.key, item.value)
  }

  lemma NothingStored(corpus: Corpus)
    ensures LocalSound(corpus, Empty())
  {
  }

  lemma LookUpIsSound(corpus: Corpus, config: Config, local: Lru<string>, q: string, reply: Option<string>, now: int, later: int)
    requires AllPositive(config) && LocalSound(corpus, local)
    requires reply.Some? ==> StoredOk(corpus, MakeSearchCacheKey(q), reply.value)
    ensures var (local', found) := LookUp(config, local, MakeSearchCacheKey(q), reply, now, later);
      LocalSound(corpus, local') && (found.Some? ==> found.value == JsonFor(corpus, q))
  {
    hide JsonFor;
    var key := MakeSearchCacheKey(q);
    CacheRuns.GetKeeps(local, key, now);
    if reply.Some? {
      PutAdds(Get(local, key, now).0, config.localCapacity, config.localTtl, key, reply.value, later);
    }
    hide Get, Put;
  }

  lemma StoreIsSound(corpus: Corpus, config: Config, local: Lru<string>, q: string, now: int)
    requires AllPositive(config) && LocalSound(corpus, local)
    ensures LocalSound(corpus, Store(config, local, MakeSearchCacheKey(q), JsonFor(corpus, q), now))
    ensures StoredOk(corpus, MakeSearchCacheKey(q), JsonFor(corpus, q))
  {
    var (key, value) := (MakeSearchCacheKey(q), JsonFor(corpus, q));
    hide JsonFor;
    forall q' | key == MakeSearchCacheKey(q') ensures q' == q {
      KeysAreInjective(q, q');
    }
    PutAdds(local, config.localCapacity, config.localTtl, key, value, now);
    hide Put;
  }

  // What the environment does while one request is handled: clock readings of the cache
  // calls, and whether Redis answers the lookup and accepts the store.
  datatype Environment = Environment(lookedUpAt: int, refilledAt: int, storedAt: int, replies: bool, accepts: bool)

  class SearchApplication {
    const service: SearchService
    const cache: ThreadState
    const weight: Weight
    const score: ScoreText

    ghost function Served(): Corpus {
      Corpus(service.chunks, weight, score)
    }

    ghost predicate Valid()
      reads this, service, service.index, cache, cache.localCache, cache.localCache.lruKeys, cache.localCache.lruKeys.nodes
    {
      service.Valid() && cache.Valid() && LocalSound(Served(), cache.localCache.Value())
    }

    constructor (files: seq<File>, config: Config, weight: Weight, score: ScoreText)
      requires AllPositive(config)
      ensures Valid() && Served() == Corpus(Load(files), weight, score) && cache.config == config
      ensures fresh(cache.localCache) && fresh(cache.localCache.lruKeys)
    {
      hide Load, Indexes, JsonFor;
      var state := new ThreadState(config);
      var searchService := MakeService(files);
      service, cache, this.weight, this.score := searchService, state, weight, score;
      new;
      NothingStored(Served());
    }

    // The service is made over the empty index, which is then filled.
    static method MakeService(files: seq<File>) returns (service: SearchService)
      ensures service.Valid() && service.chunks == Load(files)
    {
      var chunks := LoadDocuments(files);
      hide Load, Indexes;
      var index := new InvertedIndex();
      service := new SearchService(chunks, index);
      FillIndex(index, chunks);
    }

    static method FillIndex(index: InvertedIndex, chunks: seq<DocumentChunk>)
      requires index.Valid() && index.chunks == []
      modifies index
      ensures index.Valid() && index.chunks == chunks
    {
      for i := 0 to |chunks|
        invariant index.Valid() && index.chunks == chunks[..i]
      {
        index.AddChunk(chunks[i]);
      }
      assert chunks[..|chunks|] == chunks;
    }

    // The caches stay sound, and what is answered is what would be answered without them.
    method HandleRequest(raw: string, redis: map<string, string>, env: Environment)
        returns (r: Response, redis': map<string, string>)
      requires Valid() && RedisSound(Served(), redis)
      modifies cache.localCache, cache.localCache.lruKeys, cache.localCache.lruKeys.nodes
      ensures Valid() && RedisSound(Served(), redis')
      ensures MayAnswer(Served(), raw, r)
    {
      hide JsonFor, ParseRequest, MayClose, LocalSound;
      redis' := redis;
      var parsed := ComputeParseRequest(raw);
      if !parsed.Accepted? || parsed.request.method_ != "GET" {
        return BadRequest("Only complete GET requests are supported\n", false), redis';
      }
      var request := parsed.request;
      var close := ShouldCloseConnection(request.headers);
      if request.path == "/" {
        return OkText("Hello CppSearchServer\n", close), redis';
      }
      if request.path != "/search" {
        return NotFound(close), redis';
      }
      if "q" !in request.queryParams || request.queryParams["q"] == "" {
        return BadRequest("The q query parameter is required\n", close), redis';
      }
      var json;
      json, redis' := AnswerQuery(request.queryParams["q"], redis, env);
      return OkJson(json, close), redis';
    }

    method AnswerQuery(query: string, redis: map<string, string>, env: Environment)
        returns (json: string, redis': map<string, string>)
      requires Valid() && RedisSound(Served(), redis)
      modifies cache.localCache, cache.localCache.lruKeys, cache.localCache.lruKeys.nodes
      ensures Valid() && RedisSound(Served(), redis')
      ensures json == JsonFor(Served(), query)
    {
      hide StoredOk, RedisSound, LocalSound, LookUp, JsonFor;
      var cacheKey := MakeSearchCacheKey(query);
      ghost var before := cache.localCache.Value();
      var reply := if env.replies && cacheKey in redis then Some(redis[cacheKey]) else None;
      RepliesAreSound(Served(), redis, cacheKey);
      var cachedJson := cache.Get(cacheKey, reply, env.lookedUpAt, env.refilledAt);
      LookUpIsSound(Served(), cache.config, before, query, reply, env.lookedUpAt, env.refilledAt);
      if cachedJson.Some? {
        return cachedJson.value, redis;
      }
      json, redis' := ComputeAndStore(query, redis, env);
    }

    method ComputeAndStore(query: string, redis: map<string, string>, env: Environment)
        returns (json: string, redis': map<string, string>)
      requires Valid() && RedisSound(Served(), redis)
      modifies cache.localCache, cache.localCache.lruKeys, cache.localCache.lruKeys.nodes
      ensures Valid() && RedisSound(Served(), redis')
      ensures json == JsonFor(Served(), query)
    {
      hide StoredOk, RedisSound, LocalSound, Store, BruteForce, ToJson;
      var results := service.Search(query, SEARCH_TOP_K, weight);
      json := ComputeToJson(query, results, score);
      hide JsonFor;
      var cacheKey := MakeSearchCacheKey(query);
      ghost var local := cache.localCache.Value();
      var setEx := cache.Put(cacheKey, json, env.storedAt);
      StoreIsSound(Served(), cache.config, local, query, env.storedAt);
      redis' := redis;
      if setEx.Some? && env.accepts {
        StoredInRedis(Served(), redis, cacheKey, json);
        redis' := redis[setEx.value.0 := setEx.value.1];
      }
    }
  }

  lemma RepliesAreSound(corpus: Corpus, redis: map<string, string>, key: string)
    requires RedisSound(corpus, redis)
    ensures key in redis ==> StoredOk(corpus, key, redis[key])
  {
    hide StoredOk;
  }

  lemma StoredInRedis(corpus: Corpus, redis: map<string, string>, key: string, value: string)
    requires RedisSound(corpus, redis) && StoredOk(corpus, key, value)
    ensures RedisSound(corpus, redis[key := value])
  {
    hide StoredOk;
  }

  // --- the handler ---------------------------------------------------------------------------

  predicate AsksForMetrics(parsed: Parsed) {
    parsed.Accepted? && parsed.request.method_ == "GET" && parsed.request.path == "/metrics"
  }

  // main.cpp answers /metrics itself, with any JSON body.
  ghost predicate IsMetrics(request: HttpRequest, r: Response) {
    r == OkJson(r.body, r.close) && MayClose(request.headers, r.close)
  }

  // What the handler may answer a request that it does not throw at.
  ghost predicate Permitted(corpus: Corpus, raw: string, r: Response) {
    if AsksForMetrics(ParseRequest(raw)) then IsMetrics(ParseRequest(raw).request, r) else MayAnswer(corpus, raw, r)
  }

  lemma PermittedIsClean(corpus: Corpus, raw: string, r: Response)
    requires Permitted(corpus, raw, r)
    ensures Clean(r)
  {
    hide Clean, ParseRequest, JsonFor, MayClose;
    ConstantsAreClean(r.body, r.close);
  }
}
