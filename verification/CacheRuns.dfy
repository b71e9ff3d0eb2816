// Any number of worker threads answering queries through their own L1 caches and a shared
// Redis, with other processes writing to the same Redis: what the caches may return.
module CacheRuns {
  import opened TcpProtocol
  import opened LruSpec
  import opened SearchCaches

  const KEY_PREFIX := "search-json:v1:top-k=10:q="

  function MakeSearchCacheKey(query: string): string {
    KEY_PREFIX + query
  }

  lemma KeysAreInjective(query: string, query': string)
    ensures MakeSearchCacheKey(query) == MakeSearchCacheKey(query') <==> query == query'
  {
    assert MakeSearchCacheKey(query)[|KEY_PREFIX|..] == query;
    assert MakeSearchCacheKey(query')[|KEY_PREFIX|..] == query';
  }

  // Cache instances of this process, the answer each computes without a cache, the longest
  // time to live any writer uses in Redis, the longest time from a put to the moment Redis
  // stores its value, and from a Redis reply to the clock reading of the L1 refill.
  datatype World = World(
    configs: map<nat, Config>, answer: (nat, string) -> string, redisTtl: int, storeLag: nat, refillLag: nat)

  // Instances that share a Redis serve the same documents.
  ghost predicate Sound(w: World) {
    && w.redisTtl > 0
    && (forall i <- w.configs :: AllPositive(w.configs[i]) && w.configs[i].redisTtl <= w.redisTtl)
    && (forall i, j, q :: i in w.configs && j in w.configs && w.configs[i].mode == w.configs[j].mode == LocalAndRedis ==>
          w.answer(i, q) == w.answer(j, q))
  }

  function Lag(w: World): nat {
    w.storeLag + w.refillLag
  }

  // A cached value with its history: when the put of it began, and for which query.
  datatype Copy = Copy(value: string, born: int, query: string)

  datatype Stored = Stored(value: string, born: int, expires: int)

  datatype Activity =
    | Idle
    | Asking(instance: nat, query: string)
    | AskingRedis(instance: nat, query: string)
    | Refilling(instance: nat, query: string, value: string, born: int, at: int)
    | Computing(instance: nat, query: string)
    | Storing(instance: nat, query: string, value: string, born: int)

  // What a caller got; `born` is set when it came out of a cache.
  datatype Reply = Reply(instance: nat, query: string, value: string, at: int, born: Option<int>)

  datatype Sys = Sys(
    threads: map<nat, Activity>,
    locals: map<(nat, nat), Lru<Copy>>,   // by thread and instance id, created on demand
    redis: map<string, Stored>,
    clock: int,
    replies: seq<Reply>
  )

  function Initial(): Sys {
    Sys(map[], map[], map[], 0, [])
  }

  datatype Label =
    | Begin(thread: nat, instance: nat, query: string)
    | AskLocal(thread: nat, now: int)
    | AskRedis(thread: nat, now: int, available: bool)
    | Refill(thread: nat, now: int)
    | Compute(thread: nat, now: int)
    | SetRedis(thread: nat, now: int, accepted: bool)
    | ForeignSet(key: string, value: string, ttl: int, born: int, now: int)

  function Doing(s: Sys, h: nat): Activity {
    if h in s.threads then s.threads[h] else Idle
  }

  function Local(s: Sys, h: nat, i: nat): Lru<Copy> {
    if (h, i) in s.locals then s.locals[(h, i)] else Empty()
  }

  ghost predicate Enabled(w: World, s: Sys, l: Label) {
    match l
    case Begin(h, i, _) => Doing(s, h).Idle? && i in w.configs
    case AskLocal(h, now) => Doing(s, h).Asking? && s.clock <= now && Doing(s, h).instance in w.configs
    case AskRedis(h, now, _) => Doing(s, h).AskingRedis? && s.clock <= now
    case Refill(h, now) =>
      && Doing(s, h).Refilling? && s.clock <= now <= Doing(s, h).at + w.refillLag
      && Doing(s, h).instance in w.configs && w.configs[Doing(s, h).instance].localCapacity > 0
    case Compute(h, now) =>
      && Doing(s, h).Computing? && s.clock <= now
      && Doing(s, h).instance in w.configs && w.configs[Doing(s, h).instance].localCapacity > 0
    case SetRedis(h, now, _) =>
      && Doing(s, h).Storing? && s.clock <= now <= Doing(s, h).born + w.storeLag
      && Doing(s, h).instance in w.configs
    case ForeignSet(key, value, ttl, born, now) =>
      && s.clock <= now <= born + w.storeLag && ttl <= w.redisTtl
      && forall q, i :: key == MakeSearchCacheKey(q) && i in w.configs && w.configs[i].mode == LocalAndRedis ==>
           value == w.answer(i, q)
  }

  function Answered(s: Sys, h: nat, reply: Reply): Sys {
    s.(threads := s.threads[h := Idle], replies := s.replies + [reply], clock := reply.at)
  }

  ghost function Apply(w: World, s: Sys, l: Label): Sys
    requires Enabled(w, s, l)
  {
    match l
    case Begin(h, i, q) => s.(threads := s.threads[h := Asking(i, q)])
    case AskLocal(h, now) =>
      var Asking(i, q) := Doing(s, h);
      if w.configs[i].mode == Disabled then s.(threads := s.threads[h := Computing(i, q)], clock := now)
      else
        var (local, hit) := Get(Local(s, h, i), MakeSearchCacheKey(q), now);
        var s' := s.(locals := s.locals[(h, i) := local]);
        if hit.Some? then Answered(s', h, Reply(i, q, hit.value.value, now, Some(hit.value.born)))
        else s'.(threads := s.threads[h := if w.configs[i].mode == LocalOnly then Computing(i, q) else AskingRedis(i, q)],
                 clock := now)
    case AskRedis(h, now, available) =>
      var AskingRedis(i, q) := Doing(s, h);
      var key := MakeSearchCacheKey(q);
      if available && key in s.redis && now < s.redis[key].expires then
        s.(threads := s.threads[h := Refilling(i, q, s.redis[key].value, s.redis[key].born, now)], clock := now)
      else s.(threads := s.threads[h := Computing(i, q)], clock := now)
    case Refill(h, now) =>
      var Refilling(i, q, value, born, at) := Doing(s, h);
      var local := Put(Local(s, h, i), w.configs[i].localCapacity, w.configs[i].localTtl,
                       MakeSearchCacheKey(q), Copy(value, born, q), now);
      Answered(s.(locals := s.locals[(h, i) := local]), h, Reply(i, q, value, now, Some(born)))
    case Compute(h, now) =>
      var Computing(i, q) := Doing(s, h);
      var value := w.answer(i, q);
      if w.configs[i].mode == Disabled then Answered(s, h, Reply(i, q, value, now, None))
      else
        var local := Put(Local(s, h, i), w.configs[i].localCapacity, w.configs[i].localTtl,
                         MakeSearchCacheKey(q), Copy(value, now, q), now);
        var s' := s.(locals := s.locals[(h, i) := local]);
        if w.configs[i].mode == LocalOnly then Answered(s', h, Reply(i, q, value, now, None))
        else s'.(threads := s.threads[h := Storing(i, q, value, now)], clock := now)
    case SetRedis(h, now, accepted) =>
      var Storing(i, q, value, born) := Doing(s, h);
      var redis := if accepted then s.redis[MakeSearchCacheKey(q) := Stored(value, born, now + w.configs[i].redisTtl)]
                   else s.redis;
      Answered(s.(redis := redis), h, Reply(i, q, value, now, None))
    case ForeignSet(key, value, ttl, born, now) =>
      s.(redis := s.redis[key := Stored(value, born, now + ttl)], clock := now)
  }

  // --- invariant ----------------------------------------------------------------------

  // Every copy in an L1 of instance i answers its own query, and dies early enough.
  ghost predicate CopyOk(w: World, i: nat, item: Item<Copy>) {
    && i in w.configs
    && item.key == MakeSearchCacheKey(item.value.query)
    && item.value.value == w.answer(i, item.value.query)
    && item.expires < item.value.born + w.redisTtl + Lag(w) + w.configs[i].localTtl
  }

  ghost predicate LocalsOk(w: World, s: Sys) {
    forall hi <- s.locals, item <- s.locals[hi].items :: CopyOk(w, hi.1, item)
  }

  ghost predicate RedisOk(w: World, s: Sys) {
    && (forall key <- s.redis :: s.redis[key].expires <= s.redis[key].born + w.redisTtl + w.storeLag)
    && (forall q, i :: MakeSearchCacheKey(q) in s.redis && i in w.configs && w.configs[i].mode == LocalAndRedis ==>
          s.redis[MakeSearchCacheKey(q)].value == w.answer(i, q))
  }

  ghost predicate ActivityOk(w: World, a: Activity) {
    match a
    case AskingRedis(i, _) => i in w.configs && w.configs[i].mode == LocalAndRedis
    case Refilling(i, q, value, born, at) => i in w.configs && value == w.answer(i, q) && at < born + w.redisTtl + w.storeLag
    case Storing(i, q, value, _) => i in w.configs && w.configs[i].mode == LocalAndRedis && value == w.answer(i, q)
    case _ => true
  }

  ghost predicate ReplyOk(w: World, r: Reply) {
    && r.instance in w.configs && r.value == w.answer(r.instance, r.query)
    && (r.born.Some? ==> r.at - r.born.value <= w.redisTtl + w.configs[r.instance].localTtl + Lag(w) - 2)
  }

  ghost predicate Inv(w: World, s: Sys) {
    && LocalsOk(w, s) && RedisOk(w, s)
    && (forall h <- s.threads :: ActivityOk(w, s.threads[h]))
    && (forall r <- s.replies :: ReplyOk(w, r))
  }

  lemma GetKeeps<V>(l: Lru<V>, key: string, now: int)
    ensures forall item <- Get(l, key, now).0.items :: item in l.items
    ensures Get(l, key, now).1.Some? ==>
      exists item <- l.items :: item.key == key && now < item.expires && Get(l, key, now).1 == Some(item.value)
  {
    var i := IndexOf(l.items, key);
    if i < |l.items| {
      assert l.items[i] in l.items;
    }
  }

  lemma PutAdds<V>(l: Lru<V>, capacity: nat, ttl: int, key: string, value: V, now: int)
    requires capacity > 0
    ensures forall item <- Put(l, capacity, ttl, key, value, now).items ::
      item in l.items || item == Item(key, value, now + ttl)
  {
  }

  lemma LocalItems(w: World, s: Sys, h: nat, i: nat)
    requires LocalsOk(w, s)
    ensures forall item <- Local(s, h, i).items :: CopyOk(w, i, item)
  {
    hide CopyOk;
    if (h, i) in s.locals {
      assert (h, i).1 == i;
    }
  }

  lemma LocalChanged(w: World, s: Sys, h: nat, i: nat, local: Lru<Copy>)
    requires LocalsOk(w, s) && forall item <- local.items :: CopyOk(w, i, item)
    ensures LocalsOk(w, s.(locals := s.locals[(h, i) := local]))
  {
    hide CopyOk;
  }

  lemma AskLocalKeeps(w: World, s: Sys, h: nat, now: int)
    requires Sound(w) && Inv(w, s) && Enabled(w, s, AskLocal(h, now))
    ensures Inv(w, Apply(w, s, AskLocal(h, now)))
  {
    var Asking(i, q) := Doing(s, h);
    if w.configs[i].mode != Disabled {
      var key := MakeSearchCacheKey(q);
      var (local, hit) := Get(Local(s, h, i), key, now);
      LocalItems(w, s, h, i);
      GetKeeps(Local(s, h, i), key, now);
      LocalChanged(w, s, h, i, local);
      if hit.Some? {
        var item :| item in Local(s, h, i).items && item.key == key && now < item.expires && hit == Some(item.value);
        assert CopyOk(w, i, item);
        KeysAreInjective(q, item.value.query);
      }
      hide CopyOk, Get, RedisOk;
    }
  }

  lemma RefillKeeps(w: World, s: Sys, h: nat, now: int)
    requires Sound(w) && Inv(w, s) && Enabled(w, s, Refill(h, now))
    ensures Inv(w, Apply(w, s, Refill(h, now)))
  {
    var Refilling(i, q, value, born, at) := Doing(s, h);
    var (capacity, ttl, key) := (w.configs[i].localCapacity, w.configs[i].localTtl, MakeSearchCacheKey(q));
    assert ActivityOk(w, s.threads[h]) && ttl > 0;
    var local := Put(Local(s, h, i), capacity, ttl, key, Copy(value, born, q), now);
    LocalItems(w, s, h, i);
    PutAdds(Local(s, h, i), capacity, ttl, key, Copy(value, born, q), now);
    assert CopyOk(w, i, Item(key, Copy(value, born, q), now + ttl));
    LocalChanged(w, s, h, i, local);
    hide CopyOk, Put, RedisOk, Sound;
  }

  lemma ComputeKeeps(w: World, s: Sys, h: nat, now: int)
    requires Sound(w) && Inv(w, s) && Enabled(w, s, Compute(h, now))
    ensures Inv(w, Apply(w, s, Compute(h, now)))
  {
    var Computing(i, q) := Doing(s, h);
    if w.configs[i].mode != Disabled {
      var (capacity, ttl, key) := (w.configs[i].localCapacity, w.configs[i].localTtl, MakeSearchCacheKey(q));
      var copy := Copy(w.answer(i, q), now, q);
      var local := Put(Local(s, h, i), capacity, ttl, key, copy, now);
      LocalItems(w, s, h, i);
      PutAdds(Local(s, h, i), capacity, ttl, key, copy, now);
      assert CopyOk(w, i, Item(key, copy, now + ttl));
      LocalChanged(w, s, h, i, local);
      hide CopyOk, Put, RedisOk, Sound;
    }
  }

  lemma SetRedisKeeps(w: World, s: Sys, h: nat, now: int, accepted: bool)
    requires Sound(w) && Inv(w, s) && Enabled(w, s, SetRedis(h, now, accepted))
    ensures Inv(w, Apply(w, s, SetRedis(h, now, accepted)))
  {
    hide CopyOk;
    var Storing(i, q, value, born) := Doing(s, h);
    assert ActivityOk(w, s.threads[h]);
    var s' := Apply(w, s, SetRedis(h, now, accepted));
    assert LocalsOk(w, s');
    forall q', j | MakeSearchCacheKey(q') in s'.redis && j in w.configs && w.configs[j].mode == LocalAndRedis
      ensures s'.redis[MakeSearchCacheKey(q')].value == w.answer(j, q')
    {
      KeysAreInjective(q, q');
    }
  }

  lemma StepKeepsInv(w: World, s: Sys, l: Label)
    requires Sound(w) && Inv(w, s) && Enabled(w, s, l)
    ensures Inv(w, Apply(w, s, l))
  {
    match l
    case AskLocal(h, now) => AskLocalKeeps(w, s, h, now);
    case Refill(h, now) => RefillKeeps(w, s, h, now);
    case Compute(h, now) => ComputeKeeps(w, s, h, now);
    case SetRedis(h, now, accepted) => SetRedisKeeps(w, s, h, now, accepted);
    case _ =>
      hide CopyOk, Sound;
  }

  ghost predicate IsRun(w: World, s: Sys, labels: seq<Label>)
    decreases |labels|
  {
    labels == [] || (Enabled(w, s, labels[0]) && IsRun(w, Apply(w, s, labels[0]), labels[1..]))
  }

  ghost function After(w: World, s: Sys, labels: seq<Label>): Sys
    requires IsRun(w, s, labels)
    decreases |labels|
  {
    if labels == [] then s else After(w, Apply(w, s, labels[0]), labels[1..])
  }

  lemma {:induction false} RunKeepsInv(w: World, s: Sys, labels: seq<Label>)
    requires Sound(w) && Inv(w, s) && IsRun(w, s, labels)
    ensures Inv(w, After(w, s, labels))
    decreases |labels|
  {
    if labels != [] {
      StepKeepsInv(w, s, labels[0]);
      RunKeepsInv(w, Apply(w, s, labels[0]), labels[1..]);
    }
  }

  // --- one lookup, one store ----------------------------------------------------------

  // What Redis would answer about a query.
  function RedisReply(s: Sys, q: string, now: int, available: bool): Option<Copy> {
    var key := MakeSearchCacheKey(q);
    if available && key in s.redis && now < s.redis[key].expires then
      Some(Copy(s.redis[key].value, s.redis[key].born, q))
    else None
  }

  // The steps of one thread from question to answer, or to the point where it has to compute.
  ghost predicate Looked(w: World, s: Sys, s': Sys, h: nat, now: int, asked: int, available: bool, later: int) {
    exists s1, s2 ::
      && Enabled(w, s, AskLocal(h, now)) && s1 == Apply(w, s, AskLocal(h, now))
      && (if Doing(s1, h).AskingRedis? then
            Enabled(w, s1, AskRedis(h, asked, available)) && s2 == Apply(w, s1, AskRedis(h, asked, available))
          else s2 == s1)
      && (if Doing(s2, h).Refilling? then Enabled(w, s2, Refill(h, later)) && s' == Apply(w, s2, Refill(h, later))
          else s' == s2)
  }

  // The three steps, one by one.
  lemma AskedLocal(w: World, s: Sys, h: nat, now: int)
    requires Sound(w) && Enabled(w, s, AskLocal(h, now))
    ensures var (Asking(i, q), s') := (Doing(s, h), Apply(w, s, AskLocal(h, now)));
      var (local, hit) := Get(Local(s, h, i), MakeSearchCacheKey(q), now);
      && s'.redis == s.redis
      && if w.configs[i].mode == Disabled then
           Doing(s', h) == Computing(i, q) && Local(s', h, i) == Local(s, h, i) && s'.replies == s.replies
         else
           && Local(s', h, i) == local
           && if hit.Some? then
                Doing(s', h) == Idle && s'.replies == s.replies + [Reply(i, q, hit.value.value, now, Some(hit.value.born))]
              else
                && s'.replies == s.replies
                && Doing(s', h) == if w.configs[i].mode == LocalOnly then Computing(i, q) else AskingRedis(i, q)
  {
    hide Get, MakeSearchCacheKey;
  }

  lemma AskedRedis(w: World, s: Sys, h: nat, now: int, available: bool)
    requires Enabled(w, s, AskRedis(h, now, available))
    ensures var (AskingRedis(i, q), s') := (Doing(s, h), Apply(w, s, AskRedis(h, now, available)));
      var reply := RedisReply(s, q, now, available);
      && s'.locals == s.locals && s'.replies == s.replies
      && Doing(s', h) == if reply == None then Computing(i, q) else Refilling(i, q, reply.value.value, reply.value.born, now)
  {
    hide MakeSearchCacheKey;
  }

  lemma Refilled(w: World, s: Sys, h: nat, now: int)
    requires Enabled(w, s, Refill(h, now))
    ensures var (Refilling(i, q, value, born, at), s') := (Doing(s, h), Apply(w, s, Refill(h, now)));
      && Local(s', h, i) == Put(Local(s, h, i), w.configs[i].localCapacity, w.configs[i].localTtl, MakeSearchCacheKey(q),
                                Copy(value, born, q), now)
      && Doing(s', h) == Idle && s'.replies == s.replies + [Reply(i, q, value, now, Some(born))]
  {
    hide Put, MakeSearchCacheKey;
  }

  lemma SameRedis(s: Sys, s': Sys, q: string, now: int, available: bool)
    requires s'.redis == s.redis
    ensures RedisReply(s', q, now, available) == RedisReply(s, q, now, available)
  {
  }

  // Split into its three steps, SearchCache::get still does to the L1 of the thread, and
  // returns, what LookUp says; the thread computes exactly when LookUp finds nothing.
  lemma StepsAreLookUp(w: World, s: Sys, s': Sys, h: nat, now: int, asked: int, available: bool, later: int)
    requires Sound(w) && Looked(w, s, s', h, now, asked, available, later)
    ensures var Asking(i, q) := Doing(s, h);
      var reply := RedisReply(s, q, asked, available);
      var (local, found) := LookUp(w.configs[i], Local(s, h, i), MakeSearchCacheKey(q), reply, now, later);
      && Local(s', h, i) == local
      && (if found.Some? then
            exists at :: Doing(s', h).Idle? && s'.replies == s.replies + [Reply(i, q, found.value.value, at, Some(found.value.born))]
          else Doing(s', h) == Computing(i, q) && s'.replies == s.replies)
  {
    var Asking(i, q) := Doing(s, h);
    AskedLocal(w, s, h, now);
    var s1 := Apply(w, s, AskLocal(h, now));
    hide Get, Put, MakeSearchCacheKey, Apply, Enabled, RedisReply, Doing, Local;
    SameRedis(s, s1, q, asked, available);
    if Doing(s1, h).AskingRedis? {
      AskedRedis(w, s1, h, asked, available);
      var s2 := Apply(w, s1, AskRedis(h, asked, available));
      LocalsOnly(s1, s2, h, i);
      if Doing(s2, h).Refilling? {
        Refilled(w, s2, h, later);
      }
    }
  }

  lemma LocalsOnly(s: Sys, s': Sys, h: nat, i: nat)
    requires s'.locals == s.locals
    ensures Local(s', h, i) == Local(s, h, i)
  {
  }

  lemma ComputeIsStore(w: World, s: Sys, h: nat, now: int)
    requires Sound(w) && Enabled(w, s, Compute(h, now))
    ensures var Computing(i, q) := Doing(s, h);
      var copy := Copy(w.answer(i, q), now, q);
      Local(Apply(w, s, Compute(h, now)), h, i) == Store(w.configs[i], Local(s, h, i), MakeSearchCacheKey(q), copy, now)
  {
  }

  // --- what callers get ---------------------------------------------------------------

  // Whatever the caches hit, miss, evict, expire or fail at, in every mode and on every
  // thread a caller receives exactly what its instance would have computed without a cache.
  lemma CachingIsTransparent(w: World, labels: seq<Label>)
    requires Sound(w) && IsRun(w, Initial(), labels)
    ensures forall r <- After(w, Initial(), labels).replies :: r.value == w.answer(r.instance, r.query)
  {
    RunKeepsInv(w, Initial(), labels);
  }

  // A value that comes out of a cache was put there less than the two times to live and the
  // two lags ago.
  lemma StalenessBound(w: World, labels: seq<Label>)
    requires Sound(w) && IsRun(w, Initial(), labels)
    ensures forall r <- After(w, Initial(), labels).replies :: r.instance in w.configs && r.born.Some? ==>
      r.at - r.born.value <= w.redisTtl + w.configs[r.instance].localTtl + Lag(w) - 2
  {
    RunKeepsInv(w, Initial(), labels);
  }

  lemma {:induction false} Extend(w: World, s: Sys, labels: seq<Label>, l: Label)
    requires IsRun(w, s, labels) && Enabled(w, After(w, s, labels), l)
    ensures IsRun(w, s, labels + [l]) && After(w, s, labels + [l]) == Apply(w, After(w, s, labels), l)
    decreases |labels|
  {
    hide Apply, Enabled;
    if labels == [] {
      assert labels + [l] == [l] && [l][1..] == [];
    } else {
      Extend(w, Apply(w, s, labels[0]), labels[1..], l);
      assert (labels + [l])[1..] == labels[1..] + [l];
    }
  }

  lemma SoleEntry<V>(item: Item<V>)
    ensures IndexOf([item], item.key) == 0 && Lookup([item], item.key) == Some(item) && Without([item], item.key) == []
  {
  }

  // Thread 0 computes an answer at time 0 and stores it on both levels, on Redis as late as it can.
  lemma StoredAtZero(w: World, i: nat, q: string) returns (labels: seq<Label>)
    requires Sound(w) && i in w.configs && w.configs[i].mode == LocalAndRedis
    ensures IsRun(w, Initial(), labels)
    ensures var s := After(w, Initial(), labels);
      && s.clock == w.storeLag && Doing(s, 1) == Idle && (1, i) !in s.locals
      && MakeSearchCacheKey(q) in s.redis
      && s.redis[MakeSearchCacheKey(q)] == Stored(w.answer(i, q), 0, w.storeLag + w.configs[i].redisTtl)
  {
    labels := [];
    Extend(w, Initial(), labels, Begin(0, i, q));
    labels := labels + [Begin(0, i, q)];
    Extend(w, Initial(), labels, AskLocal(0, 0));
    labels := labels + [AskLocal(0, 0)];
    Extend(w, Initial(), labels, AskRedis(0, 0, false));
    labels := labels + [AskRedis(0, 0, false)];
    Extend(w, Initial(), labels, Compute(0, 0));
    labels := labels + [Compute(0, 0)];
    Extend(w, Initial(), labels, SetRedis(0, w.storeLag, true));
    labels := labels + [SetRedis(0, w.storeLag, true)];
  }

  // Thread 1 fetches it at the last moment Redis has it, and refills its L1 as late as it can.
  lemma RefilledLate(w: World, i: nat, q: string) returns (labels: seq<Label>)
    requires Sound(w) && i in w.configs && w.configs[i].mode == LocalAndRedis && w.configs[i].redisTtl == w.redisTtl
    ensures IsRun(w, Initial(), labels)
    ensures var (s, refill) := (After(w, Initial(), labels), w.redisTtl - 1 + Lag(w));
      && s.clock == refill && Doing(s, 1) == Idle
      && Local(s, 1, i).items == [Item(MakeSearchCacheKey(q), Copy(w.answer(i, q), 0, q), refill + w.configs[i].localTtl)]
  {
    var fetch := w.storeLag + w.redisTtl - 1;
    labels := StoredAtZero(w, i, q);
    hide MakeSearchCacheKey;
    Extend(w, Initial(), labels, Begin(1, i, q));
    labels := labels + [Begin(1, i, q)];
    Extend(w, Initial(), labels, AskLocal(1, fetch));
    labels := labels + [AskLocal(1, fetch)];
    Extend(w, Initial(), labels, AskRedis(1, fetch, true));
    labels := labels + [AskRedis(1, fetch, true)];
    Extend(w, Initial(), labels, Refill(1, fetch + w.refillLag));
    labels := labels + [Refill(1, fetch + w.refillLag)];
  }

  // Then it hits its L1 at the last moment that has it.
  lemma BoundIsAttained(w: World, i: nat, q: string) returns (labels: seq<Label>)
    requires Sound(w) && i in w.configs && w.configs[i].mode == LocalAndRedis && w.configs[i].redisTtl == w.redisTtl
    ensures IsRun(w, Initial(), labels)
    ensures var age := w.redisTtl + w.configs[i].localTtl + Lag(w) - 2;
      Reply(i, q, w.answer(i, q), age, Some(0)) in After(w, Initial(), labels).replies
  {
    labels := RefilledLate(w, i, q);
    var refill := w.redisTtl - 1 + Lag(w);
    var hit := refill + w.configs[i].localTtl - 1;
    hide MakeSearchCacheKey;
    SoleEntry(Item(MakeSearchCacheKey(q), Copy(w.answer(i, q), 0, q), refill + w.configs[i].localTtl));
    Extend(w, Initial(), labels, Begin(1, i, q));
    labels := labels + [Begin(1, i, q)];
    Extend(w, Initial(), labels, AskLocal(1, hit));
    labels := labels + [AskLocal(1, hit)];
  }

  ghost predicate FresherThan(r: Reply, age: int) {
    r.born.Some? ==> r.at - r.born.value < age
  }

  // "Younger than the two times to live together" holds on every run exactly when the two lags
  // take no more than one tick together.
  lemma TwoTtlBoundExactly(w: World, i: nat)
    requires Sound(w) && i in w.configs && w.configs[i].mode == LocalAndRedis && w.configs[i].redisTtl == w.redisTtl
    ensures (forall labels | IsRun(w, Initial(), labels) ::
               forall r <- After(w, Initial(), labels).replies :: r.instance == i ==>
                 FresherThan(r, w.redisTtl + w.configs[i].localTtl))
            <==> Lag(w) <= 1
  {
    if Lag(w) <= 1 {
      forall labels | IsRun(w, Initial(), labels)
        ensures forall r <- After(w, Initial(), labels).replies :: r.instance == i ==>
          FresherThan(r, w.redisTtl + w.configs[i].localTtl)
      {
        StalenessBound(w, labels);
      }
    } else {
      var labels := BoundIsAttained(w, i, "");
      var age := w.redisTtl + w.configs[i].localTtl + Lag(w) - 2;
      var r := Reply(i, "", w.answer(i, ""), age, Some(0));
      assert r in After(w, Initial(), labels).replies && !FresherThan(r, w.redisTtl + w.configs[i].localTtl);
    }
  }
}
