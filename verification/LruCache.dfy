// The cache of src/search/LruCache.cc: a map from keys to entries that point into a linked
// list of keys, proved to be the recency sequence of LruSpec.dfy.
module LruCaches {
  import opened TcpProtocol
  import opened KeyLists
  import opened LruSpec

  datatype Entry = Entry(value: string, lruPosition: Node, expiresAt: int)

  // The abstract value: the listed keys, front to back, with what the map says of them.
  ghost function ItemsOf(nodes: seq<Node>, entries: map<string, Entry>): (items: seq<Item<string>>)
    requires forall n <- nodes :: n.key in entries
    ensures |items| == |nodes|
  {
    seq(|nodes|, i requires 0 <= i < |nodes| =>
      Item(nodes[i].key, entries[nodes[i].key].value, entries[nodes[i].key].expiresAt))
  }

  // List and map hold the same keys, each once, and each entry knows its node.
  ghost predicate Consistent(nodes: seq<Node>, entries: map<string, Entry>) {
    && (forall i :: 0 <= i < |nodes| ==> nodes[i].key in entries && entries[nodes[i].key].lruPosition == nodes[i])
    && (forall key <- entries :: entries[key].lruPosition in nodes && entries[key].lruPosition.key == key)
  }

  ghost predicate Distinct(nodes: seq<Node>) {
    forall i, j :: 0 <= i < j < |nodes| ==> nodes[i] != nodes[j]
  }

  class LruCache {
    const capacity: nat
    const ttl: int
    const lruKeys: KeyList
    var entries: map<string, Entry>
    var stats: Stats

    ghost predicate Valid()
      reads this, lruKeys, lruKeys.nodes
    {
      && capacity > 0 && ttl > 0
      && lruKeys.Valid()
      && Consistent(lruKeys.nodes, entries)
      && Distinct(lruKeys.nodes)
      && |entries| == |lruKeys.nodes| <= capacity
    }

    ghost function Value(): Lru<string>
      requires Valid()
      reads this, lruKeys, lruKeys.nodes
    {
      Lru(ItemsOf(lruKeys.nodes, entries), stats)
    }

    // The constructor throws unless both arguments are positive.
    constructor (capacity: nat, ttl: int)
      requires capacity > 0 && ttl > 0
      ensures Valid() && fresh(lruKeys) && Value() == Empty()
      ensures this.capacity == capacity && this.ttl == ttl
    {
      this.capacity, this.ttl := capacity, ttl;
      entries, stats := map[], Stats(0, 0, 0, 0);
      lruKeys := new KeyList();
    }

    method Get(key: string, now: int) returns (value: Option<string>)
      requires Valid()
      modifies this, lruKeys, lruKeys.nodes
      ensures Valid() && (Value(), value) == LruSpec.Get(old(Value()), key, now)
      ensures forall n <- lruKeys.nodes :: n in old(lruKeys.nodes)
    {
      hide Consistent, Distinct, ItemsOf, Lookup, Without, RemoveAt, Linked;
      ghost var before := lruKeys.nodes;
      if key !in entries {
        KeyMissing(before, entries, key);
        stats := stats.(misses := stats.misses + 1);
        return None;
      }
      var entry := entries[key];
      ghost var i := KeyAt(before, entries, key);
      if now >= entry.expiresAt {
        Expire(key, now);
        return None;
      }
      lruKeys.MoveToFront(entry.lruPosition, i);
      RemovedItems(before, entries, i);
      MovedItems(before, entries, i, entry);
      assert entries == entries[key := entry];
      stats := stats.(hits := stats.hits + 1);
      return Some(entry.value);
    }

    // get() of a key whose entry has expired.
    method Expire(key: string, now: int)
      requires Valid() && key in entries && now >= entries[key].expiresAt
      modifies this, lruKeys, lruKeys.nodes
      ensures Valid() && (Value(), None) == LruSpec.Get(old(Value()), key, now)
      ensures forall n <- lruKeys.nodes :: n in old(lruKeys.nodes)
    {
      hide Consistent, Distinct, ItemsOf, Lookup, Without, RemoveAt, Linked;
      ghost var before := lruKeys.nodes;
      ghost var i := KeyAt(before, entries, key);
      RemovedItems(before, entries, i);
      lruKeys.Erase(entries[key].lruPosition, i);
      entries := entries - {key};
      stats := stats.(misses := stats.misses + 1, expirations := stats.expirations + 1);
    }

    method Put(key: string, value: string, now: int)
      requires Valid()
      modifies this, lruKeys, lruKeys.nodes
      ensures Valid() && Value() == LruSpec.Put(old(Value()), capacity, ttl, key, value, now)
      ensures forall n <- lruKeys.nodes :: n in old(lruKeys.nodes) || fresh(n)
    {
      hide Consistent, Distinct, ItemsOf, Lookup, Without, RemoveAt, Linked;
      ghost var before := lruKeys.nodes;
      if key in entries {
        ghost var i := KeyAt(before, entries, key);
        var entry := Entry(value, entries[key].lruPosition, now + ttl);
        lruKeys.MoveToFront(entry.lruPosition, i);
        MovedItems(before, entries, i, entry);
        RemovedItems(before, entries, i);
        entries := entries[key := entry];
        return;
      }
      Insert(key, value, now);
    }

    // put() of a key that is not there.
    method Insert(key: string, value: string, now: int)
      requires Valid() && key !in entries
      modifies this, lruKeys, lruKeys.nodes
      ensures Valid() && Value() == LruSpec.Put(old(Value()), capacity, ttl, key, value, now)
      ensures forall n <- lruKeys.nodes :: n in old(lruKeys.nodes) || fresh(n)
    {
      hide Consistent, Distinct, ItemsOf, Lookup, Without, RemoveAt, Linked;
      ghost var before := lruKeys.nodes;
      KeyMissing(before, entries, key);
      var node := lruKeys.PushFront(key);
      AddedItems(before, entries, node, Entry(value, node, now + ttl));
      entries := entries[key := Entry(value, node, now + ttl)];
      if |entries| > capacity {
        EvictOldest();
      }
    }

    // The tail of put() for an over-full cache.
    method EvictOldest()
      requires lruKeys.Valid() && Consistent(lruKeys.nodes, entries) && Distinct(lruKeys.nodes)
      requires |entries| == |lruKeys.nodes| > 0
      modifies this, lruKeys, lruKeys.nodes
      ensures lruKeys.Valid() && Consistent(lruKeys.nodes, entries) && Distinct(lruKeys.nodes)
      ensures |entries| == |lruKeys.nodes| == |old(lruKeys.nodes)| - 1
      ensures var items := ItemsOf(old(lruKeys.nodes), old(entries));
        ItemsOf(lruKeys.nodes, entries) == items[..|items| - 1]
      ensures stats == old(stats).(evictions := old(stats).evictions + 1)
      ensures forall n <- lruKeys.nodes :: n in old(lruKeys.nodes)
    {
      hide Consistent, Distinct, ItemsOf, RemoveAt, Linked, Without;
      ghost var before := lruKeys.nodes;
      ghost var last := |before| - 1;
      AllKnown(before, entries);
      RemovedItems(before, entries, last);
      RemoveLast(before, ItemsOf(before, entries));
      var oldest := lruKeys.tail.key;
      lruKeys.PopBack();
      assert lruKeys.nodes == RemoveAt(before, last);
      entries := entries - {oldest};
      stats := stats.(evictions := stats.evictions + 1);
    }
  }

  lemma AllKnown(nodes: seq<Node>, entries: map<string, Entry>)
    requires Consistent(nodes, entries)
    ensures forall n <- nodes :: n.key in entries
  {
  }

  // --- list and map against the recency sequence ---------------------------------------

  lemma KeyMissing(nodes: seq<Node>, entries: map<string, Entry>, key: string)
    requires Consistent(nodes, entries) && key !in entries
    ensures Lookup(ItemsOf(nodes, entries), key) == None
    ensures Without(ItemsOf(nodes, entries), key) == ItemsOf(nodes, entries)
  {
  }

  lemma ItemsUnique(nodes: seq<Node>, entries: map<string, Entry>)
    requires Consistent(nodes, entries) && Distinct(nodes)
    ensures Unique(ItemsOf(nodes, entries))
  {
  }

  lemma KeyAt(nodes: seq<Node>, entries: map<string, Entry>, key: string) returns (i: nat)
    requires Consistent(nodes, entries) && Distinct(nodes) && key in entries
    ensures i < |nodes| && nodes[i] == entries[key].lruPosition && nodes[i].key == key
    ensures Lookup(ItemsOf(nodes, entries), key) == Some(Item(key, entries[key].value, entries[key].expiresAt))
    ensures IndexOf(ItemsOf(nodes, entries), key) == i
  {
    i :| 0 <= i < |nodes| && nodes[i] == entries[key].lruPosition;
    ItemsUnique(nodes, entries);
    IndexOfAt(ItemsOf(nodes, entries), i);
  }

  lemma RemovedConsistent(nodes: seq<Node>, entries: map<string, Entry>, i: nat)
    requires Consistent(nodes, entries) && Distinct(nodes) && i < |nodes|
    ensures Consistent(RemoveAt(nodes, i), entries - {nodes[i].key}) && Distinct(RemoveAt(nodes, i))
  {
    var rest := RemoveAt(nodes, i);
    var entries' := entries - {nodes[i].key};
    forall k | k in entries' ensures entries'[k].lruPosition in rest {
      var j :| 0 <= j < |nodes| && nodes[j] == entries[k].lruPosition;
      assert rest[if j < i then j else j - 1] == nodes[j];
    }
  }

  lemma RemovedItems(nodes: seq<Node>, entries: map<string, Entry>, i: nat)
    requires Consistent(nodes, entries) && Distinct(nodes) && i < |nodes|
    ensures |RemoveAt(nodes, i)| == |nodes| - 1
    ensures forall n <- RemoveAt(nodes, i) :: n in nodes
    ensures var (rest, entries') := (RemoveAt(nodes, i), entries - {nodes[i].key});
      && Consistent(rest, entries') && Distinct(rest)
      && ItemsOf(rest, entries') == Without(ItemsOf(nodes, entries), nodes[i].key)
      && Without(ItemsOf(nodes, entries), nodes[i].key) ==
           ItemsOf(nodes, entries)[..i] + ItemsOf(nodes, entries)[i + 1..]
  {
    RemovedConsistent(nodes, entries, i);
    ItemsUnique(nodes, entries);
    IndexOfAt(ItemsOf(nodes, entries), i);
    hide IndexOf, Unique;
  }

  lemma RemoveLast(nodes: seq<Node>, items: seq<Item<string>>)
    requires |nodes| == |items| > 0
    ensures RemoveAt(nodes, |nodes| - 1) == nodes[..|nodes| - 1]
    ensures items[..|items| - 1] + items[|items| - 1 + 1..] == items[..|items| - 1]
  {
  }

  lemma AddedItems(nodes: seq<Node>, entries: map<string, Entry>, node: Node, entry: Entry)
    requires Consistent(nodes, entries) && Distinct(nodes) && node !in nodes && node.key !in entries
    requires entry.lruPosition == node
    ensures var (nodes', entries') := ([node] + nodes, entries[node.key := entry]);
      && Consistent(nodes', entries') && Distinct(nodes')
      && ItemsOf(nodes', entries') == [Item(node.key, entry.value, entry.expiresAt)] + ItemsOf(nodes, entries)
  {
  }

  // Moving a node is removing it and adding it at the front.
  lemma MovedItems(nodes: seq<Node>, entries: map<string, Entry>, i: nat, entry: Entry)
    requires Consistent(nodes, entries) && Distinct(nodes) && i < |nodes| && entry.lruPosition == nodes[i]
    ensures var (moved, entries') := ([nodes[i]] + RemoveAt(nodes, i), entries[nodes[i].key := entry]);
      && Consistent(moved, entries') && Distinct(moved)
      && ItemsOf(moved, entries') ==
           [Item(nodes[i].key, entry.value, entry.expiresAt)] + Without(ItemsOf(nodes, entries), nodes[i].key)
  {
    var key := nodes[i].key;
    RemovedItems(nodes, entries, i);
    RemoveAtDistinct(nodes, i);
    assert (entries - {key})[key := entry] == entries[key := entry];
    hide *;
    AddedItems(RemoveAt(nodes, i), entries - {key}, nodes[i], entry);
  }
}
