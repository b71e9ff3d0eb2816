// The doubly linked list of keys behind the LRU cache, with O(1) moves of a known node.
module KeyLists {

  class Node {
    const key: string
    var prev: Node?
    var next: Node?

    constructor (key: string)
      ensures this.key == key && prev == null && next == null
    {
      this.key := key;
      prev, next := null, null;
    }
  }

  // The node before (or behind) position i, or null at the end of the list.
  ghost function At(nodes: seq<Node>, i: int): Node? {
    if 0 <= i < |nodes| then nodes[i] else null
  }

  // Each node knows its neighbours, and no node occurs twice.
  ghost predicate Linked(nodes: seq<Node>)
    reads nodes
  {
    && (forall i, j :: 0 <= i < j < |nodes| ==> nodes[i] != nodes[j])
    && (forall i {:trigger nodes[i].prev} {:trigger nodes[i].next} :: 0 <= i < |nodes| ==>
          nodes[i].prev == At(nodes, i - 1) && nodes[i].next == At(nodes, i + 1))
  }

  ghost function RemoveAt(nodes: seq<Node>, i: nat): (rest: seq<Node>)
    requires i < |nodes|
  {
    nodes[..i] + nodes[i + 1..]
  }

  // The neighbours of position i have been joined; everything else still is as it was.
  ghost predicate Skips(nodes: seq<Node>, i: int)
    reads nodes
  {
    forall k {:trigger nodes[k].prev} {:trigger nodes[k].next} :: 0 <= k < |nodes| && k != i ==>
      && nodes[k].prev == At(nodes, if k == i + 1 then i - 1 else k - 1)
      && nodes[k].next == At(nodes, if k == i - 1 then i + 1 else k + 1)
  }

  lemma RemoveAtMember(nodes: seq<Node>, i: nat, j: int)
    requires i < |nodes|
    ensures At(RemoveAt(nodes, i), j) == At(nodes, if j < i then j else j + 1)
  {
  }

  lemma RemoveAtDistinct(nodes: seq<Node>, i: nat)
    requires i < |nodes| && (forall j, k :: 0 <= j < k < |nodes| ==> nodes[j] != nodes[k])
    ensures var rest := RemoveAt(nodes, i);
      |rest| == |nodes| - 1 && nodes[i] !in rest && (forall j, k :: 0 <= j < k < |rest| ==> rest[j] != rest[k])
  {
  }

  lemma SkippedAt(nodes: seq<Node>, i: nat, j: nat)
    requires i < |nodes| && Skips(nodes, i) && |RemoveAt(nodes, i)| == |nodes| - 1 && j < |nodes| - 1
    ensures var rest := RemoveAt(nodes, i);
      rest[j].prev == At(rest, j - 1) && rest[j].next == At(rest, j + 1)
  {
    hide RemoveAt;
    RemoveAtMember(nodes, i, j);
    RemoveAtMember(nodes, i, j - 1);
    RemoveAtMember(nodes, i, j + 1);
    var k := if j < i then j else j + 1;
    assert At(RemoveAt(nodes, i), j) == At(nodes, k) == nodes[k];
  }

  lemma SkippedIsLinked(nodes: seq<Node>, i: nat)
    requires i < |nodes| && (forall j, k :: 0 <= j < k < |nodes| ==> nodes[j] != nodes[k]) && Skips(nodes, i)
    ensures Linked(RemoveAt(nodes, i)) && nodes[i] !in RemoveAt(nodes, i)
  {
    RemoveAtDistinct(nodes, i);
    hide RemoveAt, At, Skips;
    var rest := RemoveAt(nodes, i);
    forall j | 0 <= j < |rest|
      ensures rest[j].prev == At(rest, j - 1) && rest[j].next == At(rest, j + 1)
    {
      SkippedAt(nodes, i, j);
    }
  }

  class KeyList {
    var head: Node?
    var tail: Node?
    ghost var nodes: seq<Node>   // front to back

    ghost predicate Valid()
      reads this, nodes
    {
      && Linked(nodes)
      && head == At(nodes, 0) && tail == At(nodes, |nodes| - 1)
    }

    constructor ()
      ensures Valid() && nodes == []
    {
      head, tail, nodes := null, null, [];
    }

    method PushFront(key: string) returns (n: Node)
      requires Valid()
      modifies this, nodes
      ensures Valid() && fresh(n) && n.key == key && nodes == [n] + old(nodes)
    {
      n := new Node(key);
      LinkFront(n);
    }

    method LinkFront(n: Node)
      requires Valid() && n !in nodes
      modifies this, nodes, n
      ensures Valid() && nodes == [n] + old(nodes)
    {
      n.prev := null;
      n.next := head;
      if head == null {
        tail := n;
      } else {
        head.prev := n;
      }
      head := n;
      ghost var before := nodes;
      nodes := [n] + nodes;
      forall i | 0 <= i < |nodes|
        ensures nodes[i].prev == At(nodes, i - 1) && nodes[i].next == At(nodes, i + 1)
      {
        assert At(nodes, i + 1) == At(before, i);
        if i > 0 {
          assert nodes[i] == before[i - 1];
          assert i > 1 ==> At(nodes, i - 1) == At(before, i - 2);
        }
      }
    }

    // Join the neighbours of the node at position i, which only the proof needs to know.
    method Unlink(n: Node, ghost i: nat)
      requires Valid() && i < |nodes| && nodes[i] == n
      modifies this`head, this`tail, nodes
      ensures Skips(nodes, i)
      ensures head == At(nodes, if i == 0 then 1 else 0)
      ensures tail == At(nodes, if i == |nodes| - 1 then i - 1 else |nodes| - 1)
    {
      assert n.prev == At(nodes, i - 1) && n.next == At(nodes, i + 1);
      if n.prev == null {
        head := n.next;
      } else {
        n.prev.next := n.next;
      }
      if n.next == null {
        tail := n.prev;
      } else {
        n.next.prev := n.prev;
      }
    }

    method Erase(n: Node, ghost i: nat)
      requires Valid() && i < |nodes| && nodes[i] == n
      modifies this, nodes
      ensures Valid() && nodes == RemoveAt(old(nodes), i) && n !in nodes
    {
      hide RemoveAt, Skips;
      assert forall j, k :: 0 <= j < k < |nodes| ==> nodes[j] != nodes[k];
      Unlink(n, i);
      hide Linked;
      SkippedIsLinked(nodes, i);
      RemoveAtDistinct(nodes, i);
      RemoveAtMember(nodes, i, 0);
      RemoveAtMember(nodes, i, |nodes| - 2);
      nodes := RemoveAt(nodes, i);
    }

    // splice(begin(), *this, position)
    method MoveToFront(n: Node, ghost i: nat)
      requires Valid() && i < |nodes| && nodes[i] == n
      modifies this, nodes
      ensures Valid() && nodes == [n] + RemoveAt(old(nodes), i)
    {
      Erase(n, i);
      LinkFront(n);
    }

    method PopBack()
      requires Valid() && nodes != []
      modifies this, nodes
      ensures Valid() && nodes == old(nodes)[..|old(nodes)| - 1]
    {
      assert nodes[..|nodes| - 1] + nodes[|nodes|..] == nodes[..|nodes| - 1];
      Erase(tail, |nodes| - 1);
    }
  }
}
