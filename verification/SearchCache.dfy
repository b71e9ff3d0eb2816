// The two-level cache of src/search/SearchCache.cc: one LRU cache per thread and cache
// instance in front of a shared Redis that may miss or fail at any time.
module SearchCaches {
  import opened TcpProtocol
  import opened KeyLists
  import opened LruSpec
  import opened LruCaches

  datatype Mode = Disabled | LocalOnly | LocalAndRedis

  datatype Config = Config(mode: Mode, localCapacity: nat, localTtl: int, redisTtl: int)

  // What the constructor insists on.
  predicate AllPositive(config: Config) {
    config.localCapacity > 0 && config.localTtl > 0 && config.redisTtl > 0
  }

  // A lookup in one thread's L1 that may go on to Redis. `reply` is what Redis would answer,
  // `now` and `later` are the clock readings of the two L1 calls.
  function LookUp<V>(config: Config, local: Lru<V>, key: string, reply: Option<V>, now: int, later: int): (Lru<V>, Option<V>)
    requires AllPositive(config)
  {
    if config.mode == Disabled then (local, None)
    else
      var (local', hit) := Get(local, key, now);
      if hit.Some? then (local', hit)
      else if config.mode == LocalOnly || reply.None? then (local', None)
      else (Put(local', config.localCapacity, config.localTtl, key, reply.value, later), reply)
  }

  function Store<V>(config: Config, local: Lru<V>, key: string, value: V, now: int): Lru<V>
    requires AllPositive(config)
  {
    if config.mode == Disabled then local else Put(local, config.localCapacity, config.localTtl, key, value, now)
  }

  // The state one thread keeps for one cache instance, with get() and put() run on it. The
  // thread_local map that finds it is in CacheRuns.dfy.
  class ThreadState {
    const config: Config
    const localCache: LruCache

    ghost predicate Valid()
      reads this, localCache, localCache.lruKeys, localCache.lruKeys.nodes
    {
      && AllPositive(config) && localCache.Valid()
      && localCache.capacity == config.localCapacity && localCache.ttl == config.localTtl
    }

    constructor (config: Config)
      requires AllPositive(config)
      ensures Valid() && this.config == config && localCache.Value() == Empty()
      ensures fresh(localCache) && fresh(localCache.lruKeys)
    {
      this.config := config;
      localCache := new LruCache(config.localCapacity, config.localTtl);
    }

    method Get(key: string, reply: Option<string>, now: int, later: int) returns (value: Option<string>)
      requires Valid()
      modifies localCache, localCache.lruKeys, localCache.lruKeys.nodes
      ensures Valid()
      ensures (localCache.Value(), value) == LookUp(config, old(localCache.Value()), key, reply, now, later)
      ensures forall n <- localCache.lruKeys.nodes :: n in old(localCache.lruKeys.nodes) || fresh(n)
    {
      if config.mode == Disabled {
        return None;
      }
      value := localCache.Get(key, now);
      if value.Some? || config.mode == LocalOnly {
        return;
      }
      value := reply;
      if value.Some? {
        localCache.Put(key, value.value, later);
      }
    }

    // Besides its own L1, a put hands the pair to Redis with the time to live there.
    method Put(key: string, value: string, now: int) returns (setEx: Option<(string, string, int)>)
      requires Valid()
      modifies localCache, localCache.lruKeys, localCache.lruKeys.nodes
      ensures Valid() && localCache.Value() == Store(config, old(localCache.Value()), key, value, now)
      ensures setEx == if config.mode == LocalAndRedis then Some((key, value, config.redisTtl)) else None
    {
      if config.mode == Disabled {
        return None;
      }
      localCache.Put(key, value, now);
      setEx := if config.mode == LocalAndRedis then Some((key, value, config.redisTtl)) else None;
    }
  }

  lemma PutIsFirst<V>(l: Lru<V>, capacity: nat, ttl: int, key: string, value: V, now: int)
    requires capacity > 0
    ensures var items := LruSpec.Put(l, capacity, ttl, key, value, now).items;
      items != [] && items[0] == Item(key, value, now + ttl)
  {
  }

  lemma GetFirst<V>(l: Lru<V>, key: string, now: int)
    requires l.items != [] && l.items[0].key == key
    ensures LruSpec.Get(l, key, now).1 == if now < l.items[0].expires then Some(l.items[0].value) else None
  {
  }

  // What was just stored is found until its time to live is over, and then, where there is a
  // Redis, what that replies; a disabled cache finds nothing.
  lemma StoreThenLookUp<V>(
    config: Config, local: Lru<V>, key: string, value: V, stored: int, reply: Option<V>, now: int, later: int)
    requires AllPositive(config)
    ensures LookUp(config, Store(config, local, key, value, stored), key, reply, now, later).1 ==
      match config.mode
      case Disabled => None
      case LocalOnly => if now < stored + config.localTtl then Some(value) else None
      case LocalAndRedis => if now < stored + config.localTtl then Some(value) else reply
  {
    PutIsFirst(local, config.localCapacity, config.localTtl, key, value, stored);
    if config.mode != Disabled {
      GetFirst(Store(config, local, key, value, stored), key, now);
    }
    hide Get, Put;
  }

  // What Redis replied is found in L1 from then on, for the time to live there.
  lemma RefillThenLookUp<V>(config: Config, local: Lru<V>, key: string, value: V, now: int, later: int, again: int)
    requires AllPositive(config) && config.mode == LocalAndRedis && LruSpec.Get(local, key, now).1 == None
    ensures var (local', found) := LookUp(config, local, key, Some(value), now, later);
      && found == Some(value)
      && LookUp(config, local', key, None, again, again).1 == if again < later + config.localTtl then Some(value) else None
  {
    var missed := LruSpec.Get(local, key, now).0;
    PutIsFirst(missed, config.localCapacity, config.localTtl, key, value, later);
    GetFirst(LruSpec.Put(missed, config.localCapacity, config.localTtl, key, value, later), key, again);
    hide Get, Put;
  }
}
