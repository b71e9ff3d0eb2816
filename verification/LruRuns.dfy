// Whole runs of an LRU cache: any list of gets and puts at non-decreasing times.
module LruRuns {
  import opened TcpProtocol
  import opened LruSpec

  datatype Op<V> = DoGet(key: string, now: int) | DoPut(key: string, value: V, now: int)

  // State of a run: the cache, and history. `touches` lists the keys in the order they were
  // put or hit; `puts` remembers the last put of each key.
  datatype Run<V> = Run(
    cache: Lru<V>,
    clock: int,
    touches: seq<string>,
    puts: map<string, (V, int)>,
    gets: nat,
    inserts: nat
  )

  function Start<V>(start: int): Run<V> {
    Run(Empty(), start, [], map[], 0, 0)
  }

  function Step<V>(r: Run<V>, capacity: nat, ttl: int, op: Op<V>): Run<V>
    requires capacity > 0
  {
    match op
    case DoGet(key, now) =>
      var (cache, result) := Get(r.cache, key, now);
      r.(cache := cache, clock := now, gets := r.gets + 1,
         touches := if result.Some? then r.touches + [key] else r.touches)
    case DoPut(key, value, now) =>
      r.(cache := Put(r.cache, capacity, ttl, key, value, now), clock := now,
         touches := r.touches + [key],
         puts := r.puts[key := (value, now)],
         inserts := if Lookup(r.cache.items, key).Some? then r.inserts else r.inserts + 1)
  }

  ghost predicate InOrder<V>(start: int, ops: seq<Op<V>>) {
    && (forall i :: 0 <= i < |ops| ==> start <= ops[i].now)
    && (forall i, j :: 0 <= i < j < |ops| ==> ops[i].now <= ops[j].now)
  }

  function Steps<V>(capacity: nat, ttl: int, start: int, ops: seq<Op<V>>): Run<V>
    requires capacity > 0
  {
    if ops == [] then Start(start)
    else Step(Steps(capacity, ttl, start, ops[..|ops| - 1]), capacity, ttl, ops[|ops| - 1])
  }

  // Position of the last occurrence of a key among the touches, or -1.
  function LastTouch(touches: seq<string>, key: string): (i: int)
    ensures -1 <= i < |touches|
    ensures i >= 0 ==> touches[i] == key
    ensures forall j :: i < j < |touches| ==> touches[j] != key
  {
    if touches == [] then -1
    else if touches[|touches| - 1] == key then |touches| - 1
    else LastTouch(touches[..|touches| - 1], key)
  }

  // The distinct keys touched after the last touch of this one.
  ghost function TouchedSince(touches: seq<string>, key: string): set<string> {
    set i | LastTouch(touches, key) < i < |touches| :: touches[i]
  }

  // Most recently touched first.
  ghost predicate ByRecency<V>(items: seq<Item<V>>, touches: seq<string>) {
    && (forall item <- items :: LastTouch(touches, item.key) >= 0)
    && (forall i, j :: 0 <= i < j < |items| ==> LastTouch(touches, items[i].key) > LastTouch(touches, items[j].key))
  }

  // Every entry is the last put of its key, and expires one time to live after it.
  ghost predicate Latest<V>(items: seq<Item<V>>, puts: map<string, (V, int)>, ttl: int) {
    forall item <- items ::
      item.key in puts && item.value == puts[item.key].0 && item.expires == puts[item.key].1 + ttl
  }

  // A missing key was never put, has expired, or had to make room.
  ghost predicate Accounted<V>(r: Run<V>, capacity: nat, ttl: int) {
    forall key <- r.puts ::
      || Lookup(r.cache.items, key).Some?
      || r.puts[key].1 + ttl <= r.clock
      || |TouchedSince(r.touches, key)| >= capacity
  }

  ghost predicate Counted<V>(r: Run<V>) {
    var stats := r.cache.stats;
    && r.gets == stats.hits + stats.misses
    && r.inserts == |r.cache.items| + stats.evictions + stats.expirations
  }

  ghost predicate Inv<V>(r: Run<V>, capacity: nat, ttl: int) {
    && Unique(r.cache.items) && |r.cache.items| <= capacity
    && ByRecency(r.cache.items, r.touches)
    && Latest(r.cache.items, r.puts, ttl)
    && Accounted(r, capacity, ttl)
    && Counted(r)
    && (forall key <- r.puts :: LastTouch(r.touches, key) >= 0)
  }

  lemma LastTouchSnoc(touches: seq<string>, key: string, k: string)
    ensures LastTouch(touches + [key], k) == if k == key then |touches| else LastTouch(touches, k)
  {
    assert (touches + [key])[..|touches|] == touches;
  }

  lemma TouchedSinceSnoc(touches: seq<string>, key: string, k: string)
    requires k != key
    ensures TouchedSince(touches, k) <= TouchedSince(touches + [key], k)
    ensures |TouchedSince(touches, k)| <= |TouchedSince(touches + [key], k)|
  {
    LastTouchSnoc(touches, key, k);
    forall t | t in TouchedSince(touches, k) ensures t in TouchedSince(touches + [key], k) {
      var i :| LastTouch(touches, k) < i < |touches| && touches[i] == t;
      assert (touches + [key])[i] == t;
    }
    SubsetSize(TouchedSince(touches, k), TouchedSince(touches + [key], k));
  }

  lemma {:induction false} SubsetSize<T>(a: set<T>, b: set<T>)
    requires a <= b
    ensures |a| <= |b|
    decreases a
  {
    if a != {} {
      var x :| x in a;
      SubsetSize(a - {x}, b - {x});
    }
  }

  lemma AllTouched<V>(items: seq<Item<V>>, touches: seq<string>, key: string)
    requires forall item <- items :: LastTouch(touches, item.key) >= 0 && item.key != key
    ensures forall item <- items ::
      LastTouch(touches + [key], item.key) == LastTouch(touches, item.key) < LastTouch(touches + [key], key)
  {
    hide LastTouch;
    LastTouchSnoc(touches, key, key);
    forall item | item in items ensures LastTouch(touches + [key], item.key) == LastTouch(touches, item.key) {
      LastTouchSnoc(touches, key, item.key);
    }
  }

  lemma InFront<V>(item: Item<V>, others: seq<Item<V>>, touches: seq<string>)
    requires Unique(others) && ByRecency(others, touches) && forall other <- others :: other.key != item.key
    ensures Unique([item] + others) && ByRecency([item] + others, touches + [item.key])
  {
    AllTouched(others, touches, item.key);
    hide LastTouch;
    var moved := [item] + others;
    assert forall m :: m in moved <==> m == item || m in others;
    forall i, j | 0 <= i < j < |moved|
      ensures moved[i].key != moved[j].key
      ensures LastTouch(touches + [item.key], moved[i].key) > LastTouch(touches + [item.key], moved[j].key)
    {
      assert moved[j] == others[j - 1];
      if i > 0 { assert moved[i] == others[i - 1]; }
    }
  }

  // Moving a key to the front keeps the recency order of the others.
  lemma ToFront<V>(items: seq<Item<V>>, touches: seq<string>, item: Item<V>)
    requires Unique(items) && ByRecency(items, touches)
    ensures var moved := [item] + Without(items, item.key);
      Unique(moved) && ByRecency(moved, touches + [item.key])
  {
    WithoutKeepsOrder(items, touches, item.key);
    WithoutMembers(items, item.key);
    hide LastTouch, Without, Unique, ByRecency;
    InFront(item, Without(items, item.key), touches);
  }

  lemma WithoutAt<V>(items: seq<Item<V>>, key: string, i: nat)
    requires i < |Without(items, key)|
    ensures var j := if i < IndexOf(items, key) then i else i + 1;
      j < |items| && Without(items, key)[i] == items[j]
  {
    hide IndexOf;
  }

  lemma PairKeepsOrder<V>(items: seq<Item<V>>, touches: seq<string>, key: string, i: nat, j: nat)
    requires Unique(items) && ByRecency(items, touches) && i < j < |Without(items, key)|
    ensures var rest := Without(items, key);
      rest[i].key != rest[j].key && LastTouch(touches, rest[i].key) > LastTouch(touches, rest[j].key)
  {
    hide LastTouch, Without, IndexOf;
    WithoutAt(items, key, i);
    WithoutAt(items, key, j);
  }

  lemma WithoutKeepsOrder<V>(items: seq<Item<V>>, touches: seq<string>, key: string)
    requires Unique(items) && ByRecency(items, touches)
    ensures Unique(Without(items, key)) && ByRecency(Without(items, key), touches)
  {
    hide LastTouch, Without, IndexOf;
    var rest := Without(items, key);
    WithoutMembers(items, key);
    forall i, j | 0 <= i < j < |rest|
      ensures rest[i].key != rest[j].key && LastTouch(touches, rest[i].key) > LastTouch(touches, rest[j].key)
    {
      PairKeepsOrder(items, touches, key, i, j);
    }
  }

  lemma FoundIn<V>(items: seq<Item<V>>, item: Item<V>)
    requires item in items
    ensures Lookup(items, item.key).Some?
  {
  }

  lemma LookupFound<V>(items: seq<Item<V>>, key: string)
    requires Lookup(items, key).Some?
    ensures Lookup(items, key).value in items && Lookup(items, key).value.key == key
  {
  }

  // A touch by an operation on one key accounts for every other key as before, as long as
  // the cache still holds what it held of it.
  lemma OtherAccounted<V>(r: Run<V>, r': Run<V>, capacity: nat, ttl: int, key: string, k: string)
    requires Accounted(r, capacity, ttl) && k in r.puts && k != key
    requires k in r'.puts && r'.puts[k] == r.puts[k] && r.clock <= r'.clock
    requires r'.touches == r.touches || r'.touches == r.touches + [key]
    requires Lookup(r.cache.items, k).Some? ==> Lookup(r'.cache.items, k).Some? || |TouchedSince(r'.touches, k)| >= capacity
    ensures Lookup(r'.cache.items, k).Some? || r'.puts[k].1 + ttl <= r'.clock || |TouchedSince(r'.touches, k)| >= capacity
  {
    hide Lookup, TouchedSince;
    TouchedSinceSnoc(r.touches, key, k);
  }

  lemma GetItems<V>(r: Run<V>, capacity: nat, ttl: int, key: string, now: int)
    requires capacity > 0 && Inv(r, capacity, ttl) && r.clock <= now
    ensures var r' := Step(r, capacity, ttl, DoGet(key, now));
      && Unique(r'.cache.items) && |r'.cache.items| <= capacity
      && ByRecency(r'.cache.items, r'.touches) && Latest(r'.cache.items, r'.puts, ttl) && Counted(r')
  {
    hide Accounted, LastTouch, ByRecency;
    var items := r.cache.items;
    WithoutKeepsOrder(items, r.touches, key);
    WithoutMembers(items, key);
    var found := Lookup(items, key);
    if found.Some? {
      LookupFound(items, key);
      ToFront(items, r.touches, found.value);
    }
    hide Unique, ByRecency, Lookup, Without;
  }

  lemma GetFinds<V>(l: Lru<V>, key: string, now: int, k: string)
    requires k != key && Unique(l.items)
    ensures Lookup(l.items, k).Some? ==> Lookup(Get(l, key, now).0.items, k).Some?
  {
    if Lookup(l.items, k).Some? {
      LookupFound(l.items, k);
      WithoutMembers(l.items, key);
      FoundIn(Get(l, key, now).0.items, Lookup(l.items, k).value);
    }
  }

  // A get that misses its own key leaves it accounted for as expired or evicted.
  lemma GetAccounts<V>(r: Run<V>, capacity: nat, ttl: int, key: string, now: int)
    requires Inv(r, capacity, ttl) && key in r.puts && capacity > 0 && r.clock <= now
    ensures var r' := Step(r, capacity, ttl, DoGet(key, now));
      Lookup(r'.cache.items, key).Some? || r.puts[key].1 + ttl <= now || |TouchedSince(r'.touches, key)| >= capacity
  {
    hide Unique, ByRecency, Counted, TouchedSince, LastTouch, Without;
    var found := Lookup(r.cache.items, key);
    if found.Some? {
      LookupFound(r.cache.items, key);
      if now < found.value.expires {
        FoundIn([found.value] + Without(r.cache.items, key), found.value);
      }
    }
  }

  lemma GetKeepsKey<V>(r: Run<V>, capacity: nat, ttl: int, key: string, now: int, k: string)
    requires capacity > 0 && Inv(r, capacity, ttl) && r.clock <= now && k in r.puts
    ensures var r' := Step(r, capacity, ttl, DoGet(key, now));
      && LastTouch(r'.touches, k) >= 0
      && (Lookup(r'.cache.items, k).Some? || r'.puts[k].1 + ttl <= now || |TouchedSince(r'.touches, k)| >= capacity)
  {
    var r' := Step(r, capacity, ttl, DoGet(key, now));
    LastTouchSnoc(r.touches, key, k);
    assert Unique(r.cache.items) && Accounted(r, capacity, ttl) && LastTouch(r.touches, k) >= 0;
    hide Inv, Unique, ByRecency, Counted, Latest, TouchedSince, Get, Lookup, LastTouch;
    if k == key {
      GetAccounts(r, capacity, ttl, key, now);
    } else {
      GetFinds(r.cache, key, now, k);
      hide Accounted;
      OtherAccounted(r, r', capacity, ttl, key, k);
    }
  }

  lemma GetKeeps<V>(r: Run<V>, capacity: nat, ttl: int, key: string, now: int)
    requires capacity > 0 && Inv(r, capacity, ttl) && r.clock <= now
    ensures Inv(Step(r, capacity, ttl, DoGet(key, now)), capacity, ttl)
  {
    var r' := Step(r, capacity, ttl, DoGet(key, now));
    GetItems(r, capacity, ttl, key, now);
    assert r'.puts == r.puts && r'.clock == now;
    hide Step, Unique, ByRecency, Counted, Latest, TouchedSince, Get, Lookup, LastTouch;
    forall k | k in r'.puts
      ensures LastTouch(r'.touches, k) >= 0
      ensures Lookup(r'.cache.items, k).Some? || r'.puts[k].1 + ttl <= now || |TouchedSince(r'.touches, k)| >= capacity
    {
      GetKeepsKey(r, capacity, ttl, key, now, k);
    }
  }

  // Dropping the last entry of an over-full cache: everything else was touched later.
  lemma EvictedWasOldest<V>(items: seq<Item<V>>, touches: seq<string>, capacity: nat)
    requires Unique(items) && ByRecency(items, touches) && |items| == capacity + 1
    ensures |TouchedSince(touches, items[capacity].key)| >= capacity
  {
    var last := items[capacity].key;
    var kept := set i | 0 <= i < capacity :: items[i].key;
    KeysOf(items, capacity);
    forall k | k in kept ensures k in TouchedSince(touches, last) {
      var i :| 0 <= i < capacity && items[i].key == k;
      var at := LastTouch(touches, k);
      assert touches[at] == k;
    }
    SubsetSize(kept, TouchedSince(touches, last));
  }

  lemma {:induction false} KeysOf<V>(items: seq<Item<V>>, n: nat)
    requires Unique(items) && n <= |items|
    ensures |set i | 0 <= i < n :: items[i].key| == n
  {
    if n > 0 {
      KeysOf(items, n - 1);
      var fewer := set i | 0 <= i < n - 1 :: items[i].key;
      assert (set i | 0 <= i < n :: items[i].key) == fewer + {items[n - 1].key};
    }
  }

  lemma FrontKeeps<V>(items: seq<Item<V>>, touches: seq<string>, puts: map<string, (V, int)>, ttl: int, n: nat)
    requires Unique(items) && ByRecency(items, touches) && Latest(items, puts, ttl) && n <= |items|
    ensures Unique(items[..n]) && ByRecency(items[..n], touches) && Latest(items[..n], puts, ttl)
  {
    hide LastTouch;
    assert forall item <- items[..n] :: item in items;
  }

  lemma PutLatest<V>(items: seq<Item<V>>, others: seq<Item<V>>, puts: map<string, (V, int)>, ttl: int, key: string, value: V, now: int)
    requires Latest(items, puts, ttl) && forall item <- others :: item in items && item.key != key
    ensures Latest([Item(key, value, now + ttl)] + others, puts[key := (value, now)], ttl)
  {
  }

  // The entries before anything is evicted.
  lemma PutMoved<V>(r: Run<V>, capacity: nat, ttl: int, key: string, value: V, now: int)
    requires capacity > 0 && Inv(r, capacity, ttl)
    ensures var moved := [Item(key, value, now + ttl)] + Without(r.cache.items, key);
      && Unique(moved) && ByRecency(moved, r.touches + [key]) && Latest(moved, r.puts[key := (value, now)], ttl)
      && |moved| == |r.cache.items| + if Lookup(r.cache.items, key).Some? then 0 else 1
  {
    hide Accounted, LastTouch, Unique, ByRecency, Latest, Counted, Lookup, Without, IndexOf;
    WithoutMembers(r.cache.items, key);
    ToFront(r.cache.items, r.touches, Item(key, value, now + ttl));
    PutLatest(r.cache.items, Without(r.cache.items, key), r.puts, ttl, key, value, now);
  }

  // A put takes nothing away, or the last entry.
  lemma PutResult<V>(l: Lru<V>, capacity: nat, ttl: int, key: string, value: V, now: int)
    requires capacity > 0 && |l.items| <= capacity
    requires |Without(l.items, key)| == if Lookup(l.items, key).Some? then |l.items| - 1 else |l.items|
    ensures var moved := [Item(key, value, now + ttl)] + Without(l.items, key);
      var l' := Put(l, capacity, ttl, key, value, now);
      if |moved| <= capacity then l' == l.(items := moved)
      else |moved| == capacity + 1 && l' == Lru(moved[..capacity], l.stats.(evictions := l.stats.evictions + 1))
  {
    hide Lookup, Without;
  }

  lemma PutItems<V>(r: Run<V>, capacity: nat, ttl: int, key: string, value: V, now: int)
    requires capacity > 0 && Inv(r, capacity, ttl) && r.clock <= now
    ensures var r' := Step(r, capacity, ttl, DoPut(key, value, now));
      && Unique(r'.cache.items) && |r'.cache.items| <= capacity
      && ByRecency(r'.cache.items, r'.touches) && Latest(r'.cache.items, r'.puts, ttl) && Counted(r')
  {
    PutMoved(r, capacity, ttl, key, value, now);
    WithoutMembers(r.cache.items, key);
    PutResult(r.cache, capacity, ttl, key, value, now);
    hide Accounted, LastTouch, Unique, ByRecency, Lookup, Without, IndexOf, Latest, Put;
    var moved := [Item(key, value, now + ttl)] + Without(r.cache.items, key);
    if |moved| > capacity {
      FrontKeeps(moved, r.touches + [key], r.puts[key := (value, now)], ttl, capacity);
    }
  }

  lemma PutFinds<V>(r: Run<V>, capacity: nat, ttl: int, key: string, value: V, now: int, k: string)
    requires capacity > 0 && Inv(r, capacity, ttl) && k != key && Lookup(r.cache.items, k).Some?
    ensures var r' := Step(r, capacity, ttl, DoPut(key, value, now));
      Lookup(r'.cache.items, k).Some? || |TouchedSince(r'.touches, k)| >= capacity
  {
    var r' := Step(r, capacity, ttl, DoPut(key, value, now));
    var items := r.cache.items;
    var item := Item(key, value, now + ttl);
    var all := [item] + Without(items, key);
    ToFront(items, r.touches, item);
    WithoutMembers(items, key);
    LookupFound(items, k);
    var found := Lookup(items, k).value;
    assert found in all;
    hide Accounted, Latest, Counted, TouchedSince, ByRecency, Unique, LastTouch;
    if Lookup(items, key) == None && |all| > capacity {
      var i :| 0 <= i < |all| && all[i] == found;
      if i == capacity {
        EvictedWasOldest(all, r'.touches, capacity);
      } else {
        assert r'.cache.items[i] == found;
        FoundIn(r'.cache.items, found);
      }
    } else {
      FoundIn(r'.cache.items, found);
    }
  }

  lemma PutKeeps<V>(r: Run<V>, capacity: nat, ttl: int, key: string, value: V, now: int)
    requires capacity > 0 && Inv(r, capacity, ttl) && r.clock <= now
    ensures Inv(Step(r, capacity, ttl, DoPut(key, value, now)), capacity, ttl)
  {
    var r' := Step(r, capacity, ttl, DoPut(key, value, now));
    PutItems(r, capacity, ttl, key, value, now);
    assert r'.cache.items[0].key == key;
    assert Accounted(r, capacity, ttl);
    hide Unique, ByRecency, Counted, Without, TouchedSince, Latest;
    forall k | k in r'.puts
      ensures LastTouch(r'.touches, k) >= 0
      ensures Lookup(r'.cache.items, k).Some? || r'.puts[k].1 + ttl <= now || |TouchedSince(r'.touches, k)| >= capacity
    {
      LastTouchSnoc(r.touches, key, k);
      if k == key {
        FoundIn(r'.cache.items, r'.cache.items[0]);
      } else {
        if Lookup(r.cache.items, k).Some? { PutFinds(r, capacity, ttl, key, value, now, k); }
        OtherAccounted(r, r', capacity, ttl, key, k);
      }
    }
  }

  lemma {:induction false} RunKeepsInv<V>(capacity: nat, ttl: int, start: int, ops: seq<Op<V>>)
    requires capacity > 0 && InOrder(start, ops)
    ensures Inv(Steps(capacity, ttl, start, ops), capacity, ttl)
    ensures Steps(capacity, ttl, start, ops).clock == if ops == [] then start else ops[|ops| - 1].now
  {
    if ops != [] {
      var (before, op) := (ops[..|ops| - 1], ops[|ops| - 1]);
      RunKeepsInv(capacity, ttl, start, before);
      var r := Steps(capacity, ttl, start, before);
      match op
      case DoGet(key, now) => GetKeeps(r, capacity, ttl, key, now);
      case DoPut(key, value, now) => PutKeeps(r, capacity, ttl, key, value, now);
    }
  }

  // --- what callers rely on -----------------------------------------------------------

  // The last put of a key in a list of operations.
  ghost predicate LastPut<V>(ops: seq<Op<V>>, i: int, key: string) {
    && 0 <= i < |ops| && ops[i].DoPut? && ops[i].key == key
    && forall j :: i < j < |ops| ==> !(ops[j].DoPut? && ops[j].key == key)
  }

  // What the run remembers of the puts of a key.
  ghost predicate Remembers<V>(puts: map<string, (V, int)>, ops: seq<Op<V>>, key: string) {
    if key in puts then exists i :: LastPut(ops, i, key) && puts[key] == (ops[i].value, ops[i].now)
    else forall i :: 0 <= i < |ops| ==> !(ops[i].DoPut? && ops[i].key == key)
  }

  lemma RemembersSnoc<V>(puts: map<string, (V, int)>, ops: seq<Op<V>>, op: Op<V>, key: string)
    requires Remembers(puts, ops, key)
    ensures Remembers(if op.DoPut? then puts[op.key := (op.value, op.now)] else puts, ops + [op], key)
  {
    if op.DoPut? && op.key == key {
      assert LastPut(ops + [op], |ops|, key);
    } else if key in puts {
      var i :| LastPut(ops, i, key) && puts[key] == (ops[i].value, ops[i].now);
      assert LastPut(ops + [op], i, key);
    }
  }

  lemma {:induction false} PutsAreLast<V>(capacity: nat, ttl: int, start: int, ops: seq<Op<V>>, key: string)
    requires capacity > 0
    ensures Remembers(Steps(capacity, ttl, start, ops).puts, ops, key)
  {
    if ops != [] {
      var (before, op) := (ops[..|ops| - 1], ops[|ops| - 1]);
      PutsAreLast(capacity, ttl, start, before, key);
      RemembersSnoc(Steps(capacity, ttl, start, before).puts, before, op, key);
      assert before + [op] == ops;
      hide Remembers, Get, Put, Lookup;
    }
  }

  // A hit returns the value of the latest put of that key, and only while that put is
  // younger than the time to live, however often the key was hit in between.
  lemma HitIsLatestPut<V>(capacity: nat, ttl: int, start: int, ops: seq<Op<V>>, key: string, now: int)
    requires capacity > 0 && InOrder(start, ops)
    ensures var result := Get(Steps(capacity, ttl, start, ops).cache, key, now).1;
      result.Some? ==> exists i :: LastPut(ops, i, key) && ops[i].value == result.value && now < ops[i].now + ttl
  {
    RunKeepsInv(capacity, ttl, start, ops);
    PutsAreLast(capacity, ttl, start, ops, key);
  }

  // No value is lost early: a get misses a key whose latest put is young enough only if at
  // least `capacity` other keys have been touched since that key was.
  lemma YoungAndRecentHits<V>(capacity: nat, ttl: int, start: int, ops: seq<Op<V>>, key: string, i: nat, now: int)
    requires capacity > 0 && InOrder(start, ops) && LastPut(ops, i, key)
    requires ops[|ops| - 1].now <= now < ops[i].now + ttl
    requires |TouchedSince(Steps(capacity, ttl, start, ops).touches, key)| < capacity
    ensures Get(Steps(capacity, ttl, start, ops).cache, key, now).1 == Some(ops[i].value)
  {
    RunKeepsInv(capacity, ttl, start, ops);
    PutsAreLast(capacity, ttl, start, ops, key);
    var j :| LastPut(ops, j, key) && Steps(capacity, ttl, start, ops).puts[key] == (ops[j].value, ops[j].now);
    assert i == j;
  }

  // An eviction removes exactly the entry whose key was touched longest ago; the key just
  // put stays, and without an eviction every other entry stays.
  lemma EvictsLeastRecent<V>(capacity: nat, ttl: int, start: int, ops: seq<Op<V>>, key: string, value: V, now: int)
    requires capacity > 0 && InOrder(start, ops)
    ensures var r := Steps(capacity, ttl, start, ops);
      var (items, items') := (r.cache.items, Put(r.cache, capacity, ttl, key, value, now).items);
      && Lookup(items', key) == Some(Item(key, value, now + ttl))
      && (if Lookup(items, key) == None && |items| == capacity then
            && items'[1..] == items[..capacity - 1]
            && (forall item <- items[..capacity - 1] ::
                  LastTouch(r.touches, item.key) > LastTouch(r.touches, items[capacity - 1].key))
          else
            forall item <- items :: item.key != key ==> item in items')
  {
    RunKeepsInv(capacity, ttl, start, ops);
    var r := Steps(capacity, ttl, start, ops);
    var items := r.cache.items;
    assert Unique(items) && |items| <= capacity && ByRecency(items, r.touches);
    hide Steps, Inv, InOrder, LastTouch;
    PutEvicts(r.cache, capacity, ttl, key, value, now);
  }

  lemma PutEvicts<V>(l: Lru<V>, capacity: nat, ttl: int, key: string, value: V, now: int)
    requires capacity > 0 && Unique(l.items) && |l.items| <= capacity
    ensures var (items, items') := (l.items, Put(l, capacity, ttl, key, value, now).items);
      && |items'| > 0 && Lookup(items', key) == Some(Item(key, value, now + ttl))
      && (if Lookup(items, key) == None && |items| == capacity then items'[1..] == items[..capacity - 1]
          else forall item <- items :: item.key != key ==> item in items')
  {
    WithoutMembers(l.items, key);
    var all := [Item(key, value, now + ttl)] + Without(l.items, key);
    if Lookup(l.items, key) == None && |l.items| == capacity {
      assert all[..|all| - 1] == [all[0]] + l.items[..capacity - 1];
    }
  }

  // The counters account for every get and for every entry ever inserted.
  lemma StatsAddUp<V>(capacity: nat, ttl: int, start: int, ops: seq<Op<V>>)
    requires capacity > 0 && InOrder(start, ops)
    ensures var r := Steps(capacity, ttl, start, ops);
      && |r.cache.items| <= capacity
      && r.cache.stats.hits + r.cache.stats.misses == |Gets(ops)|
      && r.inserts == |r.cache.items| + r.cache.stats.evictions + r.cache.stats.expirations
  {
    RunKeepsInv(capacity, ttl, start, ops);
    GetsCounted(capacity, ttl, start, ops);
  }

  ghost function Gets<V>(ops: seq<Op<V>>): seq<Op<V>> {
    if ops == [] then []
    else Gets(ops[..|ops| - 1]) + (if ops[|ops| - 1].DoGet? then [ops[|ops| - 1]] else [])
  }

  lemma {:induction false} GetsCounted<V>(capacity: nat, ttl: int, start: int, ops: seq<Op<V>>)
    requires capacity > 0
    ensures Steps(capacity, ttl, start, ops).gets == |Gets(ops)|
  {
    if ops != [] {
      GetsCounted(capacity, ttl, start, ops[..|ops| - 1]);
    }
  }
}
