// What an LRU cache with a time to live is: a sequence of entries ordered by their last
// touch (put or hit), most recent first.
module LruSpec {
  import opened TcpProtocol

  datatype Item<V> = Item(key: string, value: V, expires: int)

  datatype Stats = Stats(hits: nat, misses: nat, expirations: nat, evictions: nat)

  datatype Lru<V> = Lru(items: seq<Item<V>>, stats: Stats)

  function Empty<V>(): Lru<V> {
    Lru([], Stats(0, 0, 0, 0))
  }

  ghost predicate Unique<V>(items: seq<Item<V>>) {
    forall i, j :: 0 <= i < j < |items| ==> items[i].key != items[j].key
  }

  // Position of the entry of a key, or the length when there is none.
  function IndexOf<V>(items: seq<Item<V>>, key: string): (i: nat)
    ensures i <= |items| && (i < |items| ==> items[i].key == key)
    ensures forall j :: 0 <= j < i ==> items[j].key != key
  {
    if items == [] || items[0].key == key then 0 else 1 + IndexOf(items[1..], key)
  }

  function Lookup<V>(items: seq<Item<V>>, key: string): Option<Item<V>> {
    var i := IndexOf(items, key);
    if i < |items| then Some(items[i]) else None
  }

  function Without<V>(items: seq<Item<V>>, key: string): seq<Item<V>> {
    var i := IndexOf(items, key);
    if i < |items| then items[..i] + items[i + 1..] else items
  }

  function Get<V>(l: Lru<V>, key: string, now: int): (Lru<V>, Option<V>) {
    match Lookup(l.items, key)
    case None => (l.(stats := l.stats.(misses := l.stats.misses + 1)), None)
    case Some(item) =>
      var others := Without(l.items, key);
      if now >= item.expires then
        (Lru(others, l.stats.(misses := l.stats.misses + 1, expirations := l.stats.expirations + 1)), None)
      else
        (Lru([item] + others, l.stats.(hits := l.stats.hits + 1)), Some(item.value))
  }

  function Put<V>(l: Lru<V>, capacity: nat, ttl: int, key: string, value: V, now: int): Lru<V>
    requires capacity > 0
  {
    var items := [Item(key, value, now + ttl)] + Without(l.items, key);
    if Lookup(l.items, key).Some? || |items| <= capacity then l.(items := items)
    else Lru(items[..|items| - 1], l.stats.(evictions := l.stats.evictions + 1))
  }

  lemma IndexOfAt<V>(items: seq<Item<V>>, i: nat)
    requires Unique(items) && i < |items|
    ensures IndexOf(items, items[i].key) == i
  {
  }

  // Without forgets the entry of that key and nothing else.
  lemma WithoutMembers<V>(items: seq<Item<V>>, key: string)
    requires Unique(items)
    ensures forall item <- Without(items, key) :: item in items && item.key != key
    ensures forall item <- items :: item.key != key ==> item in Without(items, key)
    ensures |Without(items, key)| == if Lookup(items, key).Some? then |items| - 1 else |items|
  {
    var i := IndexOf(items, key);
    var rest := Without(items, key);
    forall item | item in items && item.key != key ensures item in rest {
      var j :| 0 <= j < |items| && items[j] == item;
      if i < |items| {
        assert rest[if j < i then j else j - 1] == item;
      }
    }
  }
}
