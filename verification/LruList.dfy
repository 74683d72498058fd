/** The cache's doubly linked LRU lists (cache.c), relinked in place.  Each operation is one on the sequence of nodes
    from the LRU end to the MRU end. */
module LruLists {

  class Node {
    var next: Node?   // toward the MRU end
    var prev: Node?   // toward the LRU end

    constructor ()
      ensures next == null && prev == null
    {
      next, prev := null, null;
    }
  }

  /** At most once each. */
  ghost predicate Distinct(nodes: seq<Node>) {
    forall i, j :: 0 <= i < j < |nodes| ==> nodes[i] != nodes[j]
  }

  ghost function At(nodes: seq<Node>, i: int): Node? {
    if 0 <= i < |nodes| then nodes[i] else null
  }

  ghost predicate LinkedAt(nodes: seq<Node>, i: nat)
    requires i < |nodes|
    reads nodes[i]
  {
    nodes[i].next == At(nodes, i + 1) && nodes[i].prev == At(nodes, i - 1)
  }

  /** The nodes are linked in this order, both ways. */
  ghost predicate Linked(nodes: seq<Node>)
    reads nodes
  {
    forall i :: 0 <= i < |nodes| ==> LinkedAt(nodes, i)
  }

  /** The links once node i is taken out: those around it go past it. */
  ghost predicate Bypassed(nodes: seq<Node>, i: nat)
    reads set j | 0 <= j < |nodes| && j != i :: nodes[j]
  {
    forall j :: 0 <= j < |nodes| && j != i ==> BypassedAt(nodes, i, j)
  }

  ghost predicate BypassedAt(nodes: seq<Node>, i: nat, j: nat)
    requires j < |nodes|
    reads nodes[j]
  {
    && nodes[j].next == At(nodes, if j + 1 == i then i + 1 else j + 1)
    && nodes[j].prev == At(nodes, if j == i + 1 then i - 1 else j - 1)
  }

  lemma Spliced(nodes: seq<Node>, i: nat)
    requires Distinct(nodes) && i < |nodes| && Bypassed(nodes, i)
    ensures var rest := nodes[..i] + nodes[i + 1..];
      && Distinct(rest) && Linked(rest) && nodes[i] !in rest
      && At(rest, 0) == At(nodes, if i == 0 then 1 else 0)
      && At(rest, |rest| - 1) == At(nodes, if i == |nodes| - 1 then i - 1 else |nodes| - 1)
  {
    var rest := nodes[..i] + nodes[i + 1..];
    forall k | 0 <= k < |rest| ensures LinkedAt(rest, k) {
      var j := if k < i then k else k + 1;
      assert rest[k] == nodes[j] && BypassedAt(nodes, i, j);
      RestAt(nodes, i, k + 1);
      RestAt(nodes, i, k - 1);
    }
    RestAt(nodes, i, 0);
    RestAt(nodes, i, |rest| - 1);
  }

  lemma RestAt(nodes: seq<Node>, i: nat, k: int)
    requires i < |nodes|
    ensures At(nodes[..i] + nodes[i + 1..], k) == At(nodes, if k < i then k else k + 1)
  {
  }

  class List {
    var lru: Node?
    var mru: Node?
    ghost var nodes: seq<Node>

    ghost predicate Valid()
      reads this, nodes
    {
      && Distinct(nodes) && Linked(nodes)
      && lru == At(nodes, 0) && mru == At(nodes, |nodes| - 1)
    }

    constructor ()
      ensures Valid() && nodes == []
    {
      lru, mru, nodes := null, null, [];
    }

    /** delete_from_list: the rest keeps its order, and n is free to go on a list again. */
    method Delete(n: Node, ghost i: nat)
      requires Valid() && i < |nodes| && nodes[i] == n
      modifies this, nodes
      ensures Valid() && nodes == old(nodes[..i] + nodes[i + 1..])
      ensures n.next == null && n.prev == null && n !in nodes
    {
      ghost var was := nodes;
      assert LinkedAt(was, i);
      assert i + 1 < |was| ==> LinkedAt(was, i + 1);
      assert i > 0 ==> LinkedAt(was, i - 1);
      if n.next != null {
        n.next.prev := n.prev;
      }
      if n.prev != null {
        n.prev.next := n.next;
      }
      if lru == n {
        lru := n.next;
      }
      if mru == n {
        mru := n.prev;
      }
      n.next := null;
      n.prev := null;
      forall j | 0 <= j < |was| && j != i ensures BypassedAt(was, i, j) {
        assert old(LinkedAt(was, j));
      }
      Spliced(was, i);
      nodes := nodes[..i] + nodes[i + 1..];
    }

    /** add_to_head: to the MRU end. */
    method AddToHead(n: Node)
      requires Valid() && n !in nodes && n.next == null && n.prev == null
      modifies this, nodes, n
      ensures Valid() && nodes == old(nodes) + [n]
    {
      n.next := null;
      n.prev := mru;
      if mru != null {
        mru.next := n;
      }
      mru := n;
      if lru == null {
        lru := n;
      }
      ghost var was := nodes;
      nodes := nodes + [n];
      forall i | 0 <= i < |nodes| ensures LinkedAt(nodes, i) {
        assert i < |was| ==> old(LinkedAt(was, i));
      }
    }

    /** add_to_tail: to the LRU end. */
    method AddToTail(n: Node)
      requires Valid() && n !in nodes && n.next == null && n.prev == null
      modifies this, nodes, n
      ensures Valid() && nodes == [n] + old(nodes)
    {
      n.next := lru;
      n.prev := null;
      if lru != null {
        lru.prev := n;
      }
      lru := n;
      if mru == null {
        mru := n;
      }
      ghost var was := nodes;
      nodes := [n] + nodes;
      forall i | 0 <= i < |nodes| ensures LinkedAt(nodes, i) {
        assert i > 0 ==> old(LinkedAt(was, i - 1));
      }
    }
  }

  /** Following next from lru, or prev from mru, visits the nodes in order. */
  lemma {:induction false} Follow(l: List, i: nat, n: Node)
    requires l.Valid() && i < |l.nodes| && l.nodes[i] == n
    ensures n.next == null <==> i + 1 == |l.nodes|
    ensures n.next != null ==> n.next == l.nodes[i + 1] && n.next.prev == n
    ensures n.prev == null <==> i == 0
    ensures n.prev != null ==> n.prev == l.nodes[i - 1] && n.prev.next == n
  {
    assert LinkedAt(l.nodes, i);
    assert i + 1 < |l.nodes| ==> LinkedAt(l.nodes, i + 1);
    assert i > 0 ==> LinkedAt(l.nodes, i - 1);
  }

  /** Moving a node from one list to another, as the cache does when a lock count becomes zero or stops being so. */
  method Move(a: List, b: List, n: Node, ghost i: nat)
    requires a != b && a.Valid() && b.Valid() && i < |a.nodes| && a.nodes[i] == n
    requires forall m :: m in a.nodes ==> m !in b.nodes
    modifies a, a.nodes, b, b.nodes
    ensures a.Valid() && b.Valid()
    ensures a.nodes == old(a.nodes[..i] + a.nodes[i + 1..]) && b.nodes == old(b.nodes) + [n]
    ensures forall m :: m in a.nodes ==> m !in b.nodes
  {
    ghost var as0 := a.nodes;
    a.Delete(n, i);
    forall j | 0 <= j < |b.nodes| ensures LinkedAt(b.nodes, j) {
      assert old(LinkedAt(b.nodes, j)) && b.nodes[j] !in as0;
    }
    assert forall m :: m in a.nodes ==> m in as0;
    ghost var rest := a.nodes;
    label L:
    b.AddToHead(n);
    forall j | 0 <= j < |rest| ensures LinkedAt(rest, j) {
      assert old@L(LinkedAt(rest, j)) && rest[j] !in old(b.nodes);
    }
  }
}
