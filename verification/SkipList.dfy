/** The skip list of the vnode layer (sl.c): nodes linked at several levels through in-place forward pointers.
    Keys are integers under their usual order; the list is one that allows no duplicates. */
module SkipLists {

  const MAX_LEVELS: nat := 16

  class Node {
    const key: int
    var forward: seq<Node?>

    constructor (key: int, height: nat)
      ensures this.key == key && forward == seq(height, _ => null)
    {
      this.key := key;
      forward := seq(height, _ => null);
    }
  }

  /** What the function given to DoForSL answers for a key. */
  datatype Verdict = Verdict(delete: bool, quit: bool)

  /** The forward pointers of a set of nodes. */
  type Heap = map<Node, seq<Node?>>

  // ---- lists of nodes

  /** The node at position i, or null behind the end. */
  function At(s: seq<Node>, i: nat): Node?
    requires i <= |s|
  {
    if i < |s| then s[i] else null
  }

  function InsertAt(s: seq<Node>, i: nat, q: Node): seq<Node>
    requires i <= |s|
  {
    s[..i] + [q] + s[i..]
  }

  function RemoveAt(s: seq<Node>, i: nat): seq<Node>
    requires i < |s|
  {
    s[..i] + s[i + 1..]
  }

  /** The node in front of position i. */
  function Before(header: Node, s: seq<Node>, i: nat): Node
    requires i <= |s|
  {
    if i == 0 then header else s[i - 1]
  }

  ghost function KeysOf(s: seq<Node>): set<int> {
    set n | n in s :: n.key
  }

  ghost predicate Increasing(s: seq<Node>) {
    forall i, j :: 0 <= i < j < |s| ==> s[i].key < s[j].key
  }

  /** The keys in front of position i are below key, the others are not. */
  ghost predicate Splits(s: seq<Node>, key: int, i: nat) {
    && i <= |s|
    && (forall j :: 0 <= j < i ==> s[j].key < key)
    && (forall j :: i <= j < |s| ==> s[j].key >= key)
  }

  lemma SplitsAtGap(s: seq<Node>, key: int, i: nat)
    requires Increasing(s) && i <= |s|
    requires i > 0 ==> s[i - 1].key < key
    requires i < |s| ==> s[i].key >= key
    ensures Splits(s, key, i)
  {
  }

  lemma DistinctAt(s: seq<Node>, i: nat, j: nat)
    requires Increasing(s) && i < |s| && j < |s| && s[i] == s[j]
    ensures i == j
  {
  }

  /** A key is in an increasing list only at the position where it belongs. */
  lemma FoundAt(s: seq<Node>, key: int, i: nat)
    requires Increasing(s) && Splits(s, key, i)
    ensures i <= |s| && ((exists n: Node :: n in s && n.key == key) <==> i < |s| && s[i].key == key)
    ensures forall n: Node :: n in s && n.key == key ==> i < |s| && n == s[i]
  {
    forall n: Node | n in s && n.key == key ensures i < |s| && n == s[i] {
      var j :| 0 <= j < |s| && s[j] == n;
      assert i <= j;
    }
  }

  lemma InsertFacts(s: seq<Node>, i: nat, q: Node)
    requires Increasing(s) && Splits(s, q.key, i) && forall n: Node :: n in s ==> n.key != q.key
    ensures Increasing(InsertAt(s, i, q))
    ensures forall n: Node :: n in InsertAt(s, i, q) <==> n in s || n == q
  {
    var s' := InsertAt(s, i, q);
    assert s'[i] == q && forall j :: 0 <= j < |s| ==> s[j] == s'[if j < i then j else j + 1];
  }

  lemma RemoveFacts(s: seq<Node>, i: nat)
    requires Increasing(s) && i < |s|
    ensures Increasing(RemoveAt(s, i))
    ensures forall n: Node :: n in RemoveAt(s, i) <==> n in s && n != s[i]
  {
    var s' := RemoveAt(s, i);
    assert forall j :: 0 <= j < |s| && j != i ==> s[j] == s'[if j < i then j else j - 1];
  }

  // ---- linked levels

  /** From the header, level k leads through the nodes of s to null; their keys increase. */
  ghost predicate Chain(h: Heap, header: Node, s: seq<Node>, k: nat) {
    && header in h && k < |h[header]| && h[header][k] == At(s, 0)
    && (forall i :: 0 <= i < |s| ==> s[i] in h && s[i] != header && k < |h[s[i]]| && h[s[i]][k] == At(s, i + 1))
    && Increasing(s)
  }

  ghost predicate Chains(h: Heap, header: Node, levels: seq<seq<Node>>) {
    |levels| == MAX_LEVELS && forall k :: 0 <= k < MAX_LEVELS ==> Chain(h, header, levels[k], k)
  }

  /** Level k holds exactly the nodes of height above k. */
  ghost predicate Populated(h: Heap, header: Node, levels: seq<seq<Node>>) {
    && |levels| == MAX_LEVELS
    && (forall n: Node :: n in h && n != header ==> 1 <= |h[n]| <= MAX_LEVELS)
    && (forall k, n: Node :: 0 <= k < MAX_LEVELS && n in h && n != header ==> (k < |h[n]| <==> n in levels[k]))
  }

  /** The heap with pointer k of node n set to target. */
  function Point(h: Heap, n: Node, k: nat, target: Node?): Heap
    requires n in h && k < |h[n]|
  {
    h[n := h[n][k := target]]
  }

  /** Changing pointers of level k does not affect the other levels. */
  lemma PointElsewhere(h: Heap, header: Node, s: seq<Node>, j: nat, n: Node, k: nat, target: Node?)
    requires Chain(h, header, s, j) && n in h && k < |h[n]| && j != k
    ensures Chain(Point(h, n, k, target), header, s, j)
  {
  }

  /** Linking q in behind the node in front of position i. */
  lemma ChainInsert(h: Heap, header: Node, s: seq<Node>, k: nat, i: nat, q: Node)
    requires Chain(h, header, s, k) && q in h && q != header && k < |h[q]|
    requires Splits(s, q.key, i) && i <= |s| && forall n: Node :: n in s ==> n.key != q.key
    ensures Before(header, s, i) in h && k < |h[Before(header, s, i)]| && Before(header, s, i) != q
    ensures var p := Before(header, s, i);
            && h[p][k] == At(s, i)
            && Chain(Point(Point(h, q, k, At(s, i)), p, k, q), header, InsertAt(s, i, q), k)
  {
    hide Increasing, Splits;
    assert Before(header, s, i) != q;
    InsertFacts(s, i, q);
    hide InsertAt, Point;
    var s' := InsertAt(s, i, q);
    var h' := Point(Point(h, q, k, At(s, i)), Before(header, s, i), k, q);
    InsertedAtHead(h, header, s, k, i, q);
    forall j | 0 <= j < |s'| ensures s'[j] in h' && s'[j] != header && k < |h'[s'[j]]| && h'[s'[j]][k] == At(s', j + 1) {
      InsertedAt(h, header, s, k, i, q, j);
    }
  }

  /** The header's pointer of the level once q is linked in. */
  lemma InsertedAtHead(h: Heap, header: Node, s: seq<Node>, k: nat, i: nat, q: Node)
    requires Chain(h, header, s, k) && q in h && q != header && k < |h[q]| && i <= |s|
    requires forall n: Node :: n in s ==> n.key != q.key
    ensures Before(header, s, i) in h && k < |h[Before(header, s, i)]| && Before(header, s, i) != q
    ensures var h' := Point(Point(h, q, k, At(s, i)), Before(header, s, i), k, q);
            header in h' && k < |h'[header]| && h'[header][k] == At(InsertAt(s, i, q), 0)
  {
    hide Increasing;
    assert i > 0 ==> s[i - 1] in s;
  }

  /** And the pointer of the node at position j. */
  lemma InsertedAt(h: Heap, header: Node, s: seq<Node>, k: nat, i: nat, q: Node, j: nat)
    requires Chain(h, header, s, k) && q in h && q != header && k < |h[q]| && i <= |s| && j <= |s|
    requires forall n: Node :: n in s ==> n.key != q.key
    requires Before(header, s, i) in h && k < |h[Before(header, s, i)]| && Before(header, s, i) != q
    ensures var h', s' := Point(Point(h, q, k, At(s, i)), Before(header, s, i), k, q), InsertAt(s, i, q);
            && |s'| == |s| + 1 && s'[j] in h' && s'[j] != header && k < |h'[s'[j]]| && h'[s'[j]][k] == At(s', j + 1)
  {
    hide Increasing;
    if j != i {
      InsertedNext(h, header, s, k, i, q, if j < i then j else j - 1);
    }
  }

  /** Where the node at position m of s points after q has been linked in at position i. */
  lemma InsertedNext(h: Heap, header: Node, s: seq<Node>, k: nat, i: nat, q: Node, m: nat)
    requires Chain(h, header, s, k) && q in h && q != header && k < |h[q]| && i <= |s| && m < |s|
    requires forall n: Node :: n in s ==> n.key != q.key
    requires Before(header, s, i) in h && k < |h[Before(header, s, i)]|
    ensures var h' := Point(Point(h, q, k, At(s, i)), Before(header, s, i), k, q);
            && s[m] in h' && s[m] != header && k < |h'[s[m]]|
            && h'[s[m]][k] == if m == i - 1 then q else At(s, m + 1)
  {
    assert s[m] in s;
    if i > 0 && s[m] == s[i - 1] {
      DistinctAt(s, i - 1, m);
    }
  }

  /** Linking the node at position i out. */
  lemma ChainRemove(h: Heap, header: Node, s: seq<Node>, k: nat, i: nat)
    requires Chain(h, header, s, k) && i < |s|
    ensures var p := Before(header, s, i);
            && p in h && k < |h[p]| && h[p][k] == s[i] && h[s[i]][k] == At(s, i + 1)
            && Chain(Point(h, p, k, At(s, i + 1)), header, RemoveAt(s, i), k)
  {
    RemoveFacts(s, i);
    NotPrevious(s, i);
    hide Increasing, RemoveAt;
    var s' := RemoveAt(s, i);
    var h' := Point(h, Before(header, s, i), k, At(s, i + 1));
    RemovedSize(s, i);
    forall j | 0 <= j < |s'| ensures s'[j] in h' && s'[j] != header && k < |h'[s'[j]]| && h'[s'[j]][k] == At(s', j + 1) {
      RemovedAt(h, header, s, k, i, j);
    }
  }

  lemma NotPrevious(s: seq<Node>, i: nat)
    requires Increasing(s) && i < |s|
    ensures i > 0 ==> s[i - 1] != s[i]
  {
  }

  lemma RemovedSize(s: seq<Node>, i: nat)
    requires i < |s|
    ensures |RemoveAt(s, i)| == |s| - 1 && At(RemoveAt(s, i), 0) == if i == 0 then At(s, 1) else s[0]
  {
  }

  /** Where the node now at position j points after the one at position i has been linked out. */
  lemma RemovedAt(h: Heap, header: Node, s: seq<Node>, k: nat, i: nat, j: nat)
    requires Chain(h, header, s, k) && i < |s| && j < |s| - 1
    requires Before(header, s, i) in h && k < |h[Before(header, s, i)]|
    ensures var h', s' := Point(h, Before(header, s, i), k, At(s, i + 1)), RemoveAt(s, i);
            && |s'| == |s| - 1 && s'[j] in h' && s'[j] != header && k < |h'[s'[j]]| && h'[s'[j]][k] == At(s', j + 1)
  {
    hide Increasing;
    var m := if j < i then j else j + 1;
    assert RemoveAt(s, i)[j] == s[m];
    if i > 0 && s[m] == s[i - 1] {
      DistinctAt(s, i - 1, m);
    }
  }

  class SkipList {
    const header: Node
    var level: nat
    var count: nat
    /** The nodes of the list, and the nodes of each level in order. */
    ghost var nodes: set<Node>
    ghost var levels: seq<seq<Node>>

    ghost function Pointers(): Heap
      reads this`nodes, header, nodes
    {
      map n | n in nodes + {header} :: n.forward
    }

    /** Every level is a linked list with increasing keys, level k holds exactly the nodes of height above k,
        levels from `level` up are empty, and count is the number of nodes. */
    ghost predicate Valid()
      reads this, header, nodes
    {
      && header !in nodes && |header.forward| == MAX_LEVELS && |levels| == MAX_LEVELS
      && Chains(Pointers(), header, levels) && Populated(Pointers(), header, levels)
      && 1 <= level <= MAX_LEVELS && count == |levels[0]|
      && forall k :: level <= k < MAX_LEVELS ==> levels[k] == []
    }

    /** The top level in use is not empty. */
    ghost predicate Tight()
      reads this
    {
      level == 1 || (1 < level <= |levels| && levels[level - 1] != [])
    }

    ghost function Keys(): set<int>
      requires |levels| > 0
      reads this
    {
      KeysOf(levels[0])
    }

    constructor ()
      ensures Valid() && Tight() && Keys() == {} && fresh(header) && nodes == {}
    {
      header := new Node(0, MAX_LEVELS);
      level, count := 1, 0;
      levels := seq(MAX_LEVELS, _ => []);
      nodes := {};
    }

    /** update and pos give, for every level above k, the node in front of key and the position behind it. */
    ghost predicate Located(key: int, update: seq<Node>, pos: seq<nat>, k: int)
      requires |levels| == MAX_LEVELS && -1 <= k
      reads this
    {
      && |update| == |pos| == MAX_LEVELS
      && forall j :: k < j < MAX_LEVELS ==> Splits(levels[j], key, pos[j]) && update[j] == Before(header, levels[j], pos[j])
    }

    /** Where node n stands in level k. */
    ghost function IndexIn(k: nat, n: Node): (i: nat)
      requires k < |levels| && n in levels[k]
      reads this
      ensures i < |levels[k]| && levels[k][i] == n
    {
      var i :| 0 <= i < |levels[k]| && levels[k][i] == n; i
    }

    /** The walk along level k, from a node in front of key. */
    method Walk(k: nat, start: Node, key: int) returns (p: Node, q: Node?, ghost i: nat)
      requires Valid() && k < MAX_LEVELS
      requires start == header || (start in nodes && start.key < key && k < |start.forward|)
      ensures Splits(levels[k], key, i) && i <= |levels[k]| && p == Before(header, levels[k], i) && q == At(levels[k], i)
      ensures p == header || (p in nodes && p.key < key && k < |p.forward|)
    {
      hide Chain, Chains, Populated, Increasing, Splits;
      ghost var h, s := Pointers(), levels[k];
      IsIncreasing(h, header, levels, k);
      p := start;
      i := 0;
      if start != header {
        assert h[start] == start.forward;
        OnLevel(h, header, levels, k, start);
        i := IndexIn(k, start) + 1;
      }
      PointsTo(h, header, levels, k, i);
      assert h[p] == p.forward;
      q := p.forward[k];
      while q != null && q.key < key
        invariant i <= |s| && p == Before(header, s, i) && q == At(s, i)
        invariant i > 0 ==> s[i - 1].key < key
        invariant p == header || (p in nodes && k < |p.forward|)
        decreases |s| - i
      {
        InHeap(h, header, levels, k, i);
        p := q;
        i := i + 1;
        PointsTo(h, header, levels, k, i);
        assert h[p] == p.forward;
        q := p.forward[k];
      }
      SplitsAtGap(s, key, i);
    }

    /** The walk all operations start with: at every level the last node in front of key. */
    method FindUpdate(key: int) returns (update: seq<Node>, q: Node?, ghost pos: seq<nat>)
      requires Valid()
      ensures Located(key, update, pos, -1) && pos[0] <= |levels[0]| && q == At(levels[0], pos[0])
    {
      hide Chains, Populated;
      var p := header;
      var k: int := level - 1;
      update, pos := seq(MAX_LEVELS, _ => header), seq(MAX_LEVELS, _ => 0);
      q := null;
      while k >= 0
        invariant -1 <= k < level && Located(key, update, pos, k)
        invariant p == header || (p in nodes && p.key < key && k + 1 < |p.forward|)
        invariant k < level - 1 ==> q == At(levels[k + 1], pos[k + 1])
      {
        ghost var i;
        p, q, i := Walk(k, p, key);
        update, pos := update[k := p], pos[k := i];
        k := k - 1;
      }
    }

    /** SearchSL: is there a node with this key? */
    method Search(key: int) returns (found: bool)
      requires Valid()
      ensures found <==> key in Keys()
    {
      hide Increasing, Splits;
      var update, q, pos := FindUpdate(key);
      found := q != null && q.key == key;
      assert Chain(Pointers(), header, levels[0], 0);
      FoundAt(levels[0], key, pos[0]);
    }

    lemma KeyFacts(key: int, update: seq<Node>, pos: seq<nat>)
      requires Valid() && Located(key, update, pos, -1)
      ensures forall k :: 0 <= k < MAX_LEVELS ==> Splits(levels[k], key, pos[k]) && pos[k] <= |levels[k]|
      ensures key in Keys() <==> pos[0] < |levels[0]| && levels[0][pos[0]].key == key
      ensures key !in Keys() ==> forall k, n: Node :: 0 <= k < MAX_LEVELS && n in levels[k] ==> n.key != key
      ensures forall k, n: Node :: 0 <= k < MAX_LEVELS && n in levels[k] && n.key == key ==> pos[0] < |levels[0]| && n == levels[0][pos[0]]
    {
      assert Chain(Pointers(), header, levels[0], 0);
      FoundAt(levels[0], key, pos[0]);
      forall k, n: Node | 0 <= k < MAX_LEVELS && n in levels[k] ensures n in levels[0] {
        assert Chain(Pointers(), header, levels[k], k);
      }
    }

    /** Put q in behind p at level k. */
    method LinkLevel(q: Node, k: nat, p: Node, ghost i: nat)
      requires header !in nodes && k < MAX_LEVELS && Chains(Pointers(), header, levels) && |levels| == MAX_LEVELS
      requires q in nodes && k < |q.forward| && forall n: Node :: n in levels[k] ==> n.key != q.key
      requires Splits(levels[k], q.key, i) && i <= |levels[k]| && p == Before(header, levels[k], i)
      modifies q`forward, p`forward, this`levels
      ensures Chains(Pointers(), header, levels) && levels == old(levels)[k := InsertAt(old(levels[k]), i, q)]
      ensures SameHeights(old(Pointers()), Pointers())
    {
      hide Chain, Increasing, Splits;
      ghost var h := Pointers();
      ChainInsert(h, header, levels[k], k, i, q);
      q.forward := q.forward[k := p.forward[k]];
      p.forward := p.forward[k := q];
      ghost var h1 := Point(h, q, k, At(levels[k], i));
      assert Pointers() == Point(h1, p, k, q);
      forall j | 0 <= j < MAX_LEVELS && j != k ensures Chain(Pointers(), header, levels[j], j) {
        PointElsewhere(h, header, levels[j], j, q, k, At(levels[k], i));
        PointElsewhere(h1, header, levels[j], j, p, k, q);
      }
      assert Chain(Pointers(), header, InsertAt(levels[k], i, q), k);
      ghost var levels' := levels[k := InsertAt(levels[k], i, q)];
      assert Chains(Pointers(), header, levels');
      ghost var now := Pointers();
      levels := levels';
      assert Pointers() == now;
    }

    /** Take the node behind p, at position i, out of level k. */
    method UnlinkLevel(k: nat, p: Node, q: Node, ghost i: nat)
      requires header !in nodes && k < MAX_LEVELS && Chains(Pointers(), header, levels) && |levels| == MAX_LEVELS
      requires i < |levels[k]| && p == Before(header, levels[k], i) && q == levels[k][i] && q in nodes && k < |q.forward|
      requires (p == header || p in nodes) && k < |p.forward|
      modifies p`forward, this`levels
      ensures Chains(Pointers(), header, levels) && levels == old(levels)[k := RemoveAt(old(levels[k]), i)]
      ensures SameHeights(old(Pointers()), Pointers()) && k < |q.forward| && q.forward[k] == At(old(levels[k]), i + 1)
    {
      hide Chain, Increasing;
      ghost var h := Pointers();
      ChainRemove(h, header, levels[k], k, i);
      p.forward := p.forward[k := q.forward[k]];
      assert Pointers() == Point(h, p, k, At(levels[k], i + 1));
      forall j | 0 <= j < MAX_LEVELS && j != k ensures Chain(Pointers(), header, levels[j], j) {
        PointElsewhere(h, header, levels[j], j, p, k, At(levels[k], i + 1));
      }
      assert Chain(Pointers(), header, RemoveAt(levels[k], i), k);
      ghost var levels' := levels[k := RemoveAt(levels[k], i)];
      assert Chains(Pointers(), header, levels');
      ghost var now := Pointers();
      levels := levels';
      assert Pointers() == now;
    }

    /** The relinking loop of InsertSL: put n in at levels 0 .. top, from the top down. */
    method LinkIn(n: Node, top: nat, update: seq<Node>, ghost pos: seq<nat>)
      requires header !in nodes && Chains(Pointers(), header, levels) && |levels| == MAX_LEVELS && top < MAX_LEVELS
      requires n in nodes && |n.forward| == top + 1 && Located(n.key, update, pos, -1)
      requires forall k :: 0 <= k < MAX_LEVELS ==> pos[k] <= |levels[k]|
      requires forall k, m: Node :: 0 <= k < MAX_LEVELS && m in levels[k] ==> m.key != n.key
      modifies header, nodes, this`levels
      ensures Chains(Pointers(), header, levels) && SameHeights(old(Pointers()), Pointers()) && |levels| == MAX_LEVELS
      ensures forall k :: 0 <= k < MAX_LEVELS ==> levels[k] == if k <= top then InsertAt(old(levels[k]), pos[k], n) else old(levels[k])
    {
      hide Chain, Chains, Increasing, Splits;
      ghost var levels0, h0 := levels, Pointers();
      var j: int := top;
      while j >= 0
        invariant -1 <= j <= top && |levels| == MAX_LEVELS
        invariant Chains(Pointers(), header, levels) && SameHeights(h0, Pointers())
        invariant forall k :: 0 <= k < MAX_LEVELS ==> levels[k] == if j < k <= top then InsertAt(levels0[k], pos[k], n) else levels0[k]
      {
        InHeap(Pointers(), header, levels, j, pos[j]);
        assert Pointers()[n] == n.forward;
        LinkLevel(n, j, update[j], pos[j]);
        j := j - 1;
      }
    }

    /** The second half of InsertSL: make a node of the height drawn, at most one above the levels in use. */
    method AddNode(key: int, height: nat, update: seq<Node>, ghost pos: seq<nat>)
      requires Valid() && height < MAX_LEVELS && Located(key, update, pos, -1)
      requires forall k :: 0 <= k < MAX_LEVELS ==> Splits(levels[k], key, pos[k]) && pos[k] <= |levels[k]|
      requires forall k, n: Node :: 0 <= k < MAX_LEVELS && n in levels[k] ==> n.key != key
      modifies this, header, nodes
      ensures Valid() && (old(Tight()) ==> Tight())
      ensures Inserted(old(levels), old(level), levels, key, height)
      ensures count == old(count) + 1 && level == if height >= old(level) then old(level) + 1 else old(level)
    {
      TightMeans();
      hide Chain, Chains, Populated, Increasing, Splits, Inserted, KeysOf, Tight, InsertAt;
      ghost var h0, levels0, level0, tight := Pointers(), levels, level, Tight();
      assert h0[header] == header.forward;
      var k := height;
      if k >= level {
        k := level;
        level := level + 1;
      }
      var n := NewNode(key, k);
      LinkIn(n, k, update, pos);
      NodeAdded(h0, header, levels0, level0, n, pos, height, k, Pointers(), levels);
      TightMeans();
      assert Pointers()[header] == header.forward;
    }

    /** A node that is on no level yet. */
    method NewNode(key: int, k: nat) returns (n: Node)
      requires header !in nodes && Chains(Pointers(), header, levels)
      modifies this`nodes, this`count
      ensures fresh(n) && n.key == key && |n.forward| == k + 1 && nodes == old(nodes) + {n} && count == old(count) + 1
      ensures header !in nodes && n !in old(Pointers()) && Pointers() == old(Pointers())[n := n.forward]
      ensures Chains(Pointers(), header, levels)
    {
      hide Chain, Chains;
      ghost var h0 := Pointers();
      n := new Node(key, k + 1);
      count := count + 1;
      nodes := nodes + {n};
      assert Pointers() == h0[n := n.forward];
      ChainsExtend(h0, header, levels, n, n.forward);
    }

    lemma TightMeans()
      ensures Tight() <==> level == 1 || (1 < level <= |levels| && levels[level - 1] != [])
    {
    }

    /** InsertSL with a node height drawn at random: false when the key is there already. */
    method Insert(key: int, height: nat) returns (inserted: bool)
      requires Valid() && height < MAX_LEVELS
      modifies this, header, nodes
      ensures Valid() && (old(Tight()) ==> Tight())
      ensures inserted <==> key !in old(Keys())
      ensures |levels| == MAX_LEVELS && Keys() == old(Keys()) + {key}
      ensures inserted ==> Inserted(old(levels), old(level), levels, key, height)
      ensures inserted ==> count == old(count) + 1 && level == if height >= old(level) then old(level) + 1 else old(level)
      ensures !inserted ==> levels == old(levels) && count == old(count) && level == old(level)
    {
      hide Chain, Chains, Populated, Increasing, Splits, KeysOf, Tight;
      var update, q, pos := FindUpdate(key);
      KeyFacts(key, update, pos);
      if q != null && q.key == key {
        return false;
      }
      AddNode(key, height, update, pos);
      return true;
    }

    /** The relinking loop of DeleteSL: take q out of every level it is on, from the bottom up, stopping at the
        first level where it does not follow update[k]. */
    method LinkOut(q: Node, update: seq<Node>, ghost pos: seq<nat>)
      requires Valid() && q in nodes && Located(q.key, update, pos, -1)
      requires forall k :: 0 <= k < MAX_LEVELS ==> pos[k] <= |levels[k]|
      modifies header, nodes, this`levels
      ensures Chains(Pointers(), header, levels) && SameHeights(old(Pointers()), Pointers()) && |levels| == MAX_LEVELS
      ensures RemovedFrom(old(levels), levels, q, pos)
    {
      hide Chain, Chains, Populated, Increasing, Splits;
      ghost var levels0, h0 := levels, Pointers();
      var k := 0;
      while k < level
        invariant 0 <= k <= level && |levels| == MAX_LEVELS
        invariant Chains(Pointers(), header, levels) && SameHeights(h0, Pointers())
        invariant forall j :: 0 <= j < k ==> pos[j] < |levels0[j]| && levels0[j][pos[j]] == q && levels[j] == RemoveAt(levels0[j], pos[j])
        invariant forall j :: k <= j < MAX_LEVELS ==> levels[j] == levels0[j]
      {
        InHeap(Pointers(), header, levels, k, pos[k]);
        PointsTo(Pointers(), header, levels, k, pos[k]);
        var p := update[k];
        assert Pointers()[p] == p.forward && Pointers()[q] == q.forward;
        if p.forward[k] != q {
          break;
        }
        UnlinkLevel(k, p, q, pos[k]);
        k := k + 1;
      }
      RemovedAll(h0, header, levels0, levels, q, pos, k);
    }

    /** Unlink q, count it off and free it. */
    method TakeOut(q: Node, update: seq<Node>, ghost pos: seq<nat>)
      requires Valid() && q in nodes && Located(q.key, update, pos, -1)
      requires forall k :: 0 <= k < MAX_LEVELS ==> pos[k] <= |levels[k]|
      requires forall k, n: Node :: 0 <= k < MAX_LEVELS && n in levels[k] && n.key == q.key ==> n == q
      modifies header, nodes, this`levels, this`nodes, this`count
      ensures Valid() && count == old(count) - 1 && nodes == old(nodes) - {q}
      ensures forall k :: 0 <= k < MAX_LEVELS ==> KeysOf(levels[k]) == KeysOf(old(levels)[k]) - {q.key}
    {
      hide Chain, Chains, Populated, Increasing, Splits, RemovedFrom, KeysOf;
      ghost var h0, levels0 := Pointers(), levels;
      LinkOut(q, update, pos);
      RemovedFacts(h0, header, levels0, levels, q, pos, Pointers());
      count := count - 1;
      ForgetNode(Pointers(), header, levels, q);
      ghost var h1 := Pointers();
      nodes := nodes - {q};
      assert Pointers() == h1 - {q} && h0[header] == old(header.forward) && h1[header] == header.forward;
    }

    /** DeleteSL. */
    method Delete(key: int) returns (deleted: bool)
      requires Valid()
      modifies this, header, nodes
      ensures Valid() && (deleted ==> Tight())
      ensures deleted <==> key in old(Keys())
      ensures if deleted then count == old(count) - 1 && level <= old(level) else count == old(count) && level == old(level)
      ensures |levels| == MAX_LEVELS && forall k :: 0 <= k < MAX_LEVELS ==> KeysOf(levels[k]) == KeysOf(old(levels)[k]) - {key}
    {
      hide Chain, Chains, Populated, Increasing, Splits, Tight, KeysOf;
      var update, q, pos := FindUpdate(key);
      KeyFacts(key, update, pos);
      if q == null || q.key != key {
        AbsentKey(key);
        return false;
      }
      InHeap(Pointers(), header, levels, 0, pos[0]);
      TakeOut(q, update, pos);
      ghost var h := Pointers();
      LowerLevel();
      assert Pointers() == h;
      return true;
    }

    /** The end of DeleteSL: find the highest level in use. */
    method LowerLevel()
      requires header !in nodes && 1 <= level <= MAX_LEVELS && |levels| == MAX_LEVELS && Chains(Pointers(), header, levels)
      requires forall k :: level <= k < MAX_LEVELS ==> levels[k] == []
      modifies this`level
      ensures 1 <= level <= old(level) && Tight() && forall k :: level <= k < MAX_LEVELS ==> levels[k] == []
    {
      hide Chain, Chains;
      HeaderNull(Pointers(), header, levels, level - 1);
      assert Pointers()[header] == header.forward;
      var m := level - 1;
      HeaderLong(Pointers(), header, levels);
      while header.forward[m] == null && m > 0
        invariant 0 <= m < level == old(level)
        invariant forall k :: m < k < MAX_LEVELS ==> levels[k] == []
      {
        HeaderNull(Pointers(), header, levels, m);
        m := m - 1;
      }
      HeaderNull(Pointers(), header, levels, m);
      level := m + 1;
    }

    /** DoForSL stands in front of node p: per level, what it has saved as the next and the last node. */
    ghost predicate Cursor(p: Node?, save: seq<Node?>, who: seq<Node>, pos: seq<nat>)
      reads this
    {
      && |levels| == |save| == |who| == |pos| == MAX_LEVELS
      && (forall k :: 0 <= k < MAX_LEVELS ==>
            && pos[k] <= |levels[k]| && save[k] == At(levels[k], pos[k]) && who[k] == Before(header, levels[k], pos[k])
            && (if p == null then pos[k] == |levels[k]| else Splits(levels[k], p.key, pos[k])))
      && p == At(levels[0], pos[0])
    }

    /** The deletion loop of DoForSL. */
    method DropHere(p: Node, save: seq<Node?>, who: seq<Node>, ghost pos: seq<nat>) returns (save': seq<Node?>)
      requires Valid() && p in nodes && Cursor(p, save, who, pos)
      modifies header, nodes, this`levels
      ensures Chains(Pointers(), header, levels) && SameHeights(old(Pointers()), Pointers()) && |levels| == MAX_LEVELS
      ensures RemovedFrom(old(levels), levels, p, pos) && |save'| == MAX_LEVELS
      ensures forall k :: 0 <= k < MAX_LEVELS ==> pos[k] <= |levels[k]| && save'[k] == At(levels[k], pos[k])
    {
      hide Chain, Chains, Populated, Increasing, Splits;
      ghost var levels0, h0 := levels, Pointers();
      save' := save;
      var k := 0;
      while k < level && save'[k] == p
        invariant 0 <= k <= level && |levels| == |save'| == MAX_LEVELS
        invariant Chains(Pointers(), header, levels) && SameHeights(h0, Pointers())
        invariant forall j :: 0 <= j < k ==>
                    && pos[j] < |levels0[j]| && levels0[j][pos[j]] == p && levels[j] == RemoveAt(levels0[j], pos[j])
                    && save'[j] == At(levels[j], pos[j])
        invariant forall j :: k <= j < MAX_LEVELS ==> levels[j] == levels0[j] && save'[j] == save[j]
      {
        InHeap(Pointers(), header, levels, k, pos[k]);
        assert Pointers()[who[k]] == who[k].forward && Pointers()[p] == p.forward;
        UnlinkLevel(k, who[k], p, pos[k]);
        save' := save'[k := p.forward[k]];
        k := k + 1;
      }
      RemovedAll(h0, header, levels0, levels, p, pos, k);
    }

    /** The other loop of DoForSL: step over p at every level it is on. */
    method StepOver(p: Node, save: seq<Node?>, who: seq<Node>, ghost pos: seq<nat>)
      returns (save': seq<Node?>, who': seq<Node>, ghost pos': seq<nat>)
      requires Valid() && p in nodes && Cursor(p, save, who, pos)
      ensures |save'| == |who'| == |pos'| == MAX_LEVELS
      ensures forall k :: 0 <= k < MAX_LEVELS ==>
                && pos'[k] <= |levels[k]| && save'[k] == At(levels[k], pos'[k]) && who'[k] == Before(header, levels[k], pos'[k])
                && (if p in levels[k] then pos[k] < |levels[k]| && levels[k][pos[k]] == p && pos'[k] == pos[k] + 1 else pos'[k] == pos[k])
    {
      hide Chain, Chains, Populated, Increasing, Splits;
      save', who', pos' := save, who, pos;
      var k := 0;
      while k < level && save'[k] == p
        invariant 0 <= k <= level && |save'| == |who'| == |pos'| == MAX_LEVELS
        invariant forall j :: 0 <= j < k ==>
                    && pos[j] < |levels[j]| && levels[j][pos[j]] == p && pos'[j] == pos[j] + 1
                    && save'[j] == At(levels[j], pos'[j]) && who'[j] == p
        invariant forall j :: k <= j < MAX_LEVELS ==> save'[j] == save[j] && who'[j] == who[j] && pos'[j] == pos[j]
      {
        InHeap(Pointers(), header, levels, k, pos[k]);
        PointsTo(Pointers(), header, levels, k, pos[k] + 1);
        assert Pointers()[p] == p.forward;
        save', who', pos' := save'[k := p.forward[k]], who'[k := p], pos'[k := pos[k] + 1];
        k := k + 1;
      }
      OnLowLevels(Pointers(), header, levels, p, pos, k);
    }

    /** One node of DoForSL: delete it or step over it, as asked. */
    method Visit(p: Node, delete: bool, save: seq<Node?>, who: seq<Node>, ghost pos: seq<nat>)
      returns (save': seq<Node?>, who': seq<Node>, ghost pos': seq<nat>)
      requires Valid() && p in nodes && Cursor(p, save, who, pos) && |p.forward| > 0
      modifies header, nodes, this`levels, this`nodes, this`count
      ensures |save'| == |who'| == |pos'| == MAX_LEVELS
      ensures Valid() && nodes <= old(nodes) && |levels[0]| - pos'[0] == old(|levels[0]|) - pos[0] - 1
      ensures save'[0] == old(p.forward[0])
      ensures forall k, n: Node :: 0 <= k < MAX_LEVELS ==> (n in levels[k] <==> n in old(levels)[k] && !(delete && n == p))
      ensures forall k :: 0 <= k < MAX_LEVELS ==>
                && Splits(levels[k], p.key + 1, pos'[k]) && pos'[k] <= |levels[k]|
                && save'[k] == At(levels[k], pos'[k]) && who'[k] == Before(header, levels[k], pos'[k])
    {
      hide Chain, Chains, Populated, Increasing, Splits, RemovedFrom, KeysOf;
      ghost var h0, levels0 := Pointers(), levels;
      assert h0[p] == p.forward;
      AtCursor(h0, header, levels, p, pos);
      if delete {
        save' := DropHere(p, save, who, pos);
        who', pos' := who, pos;
        RemovedFacts(h0, header, levels0, levels, p, pos, Pointers());
        count := count - 1;
        ForgetNode(Pointers(), header, levels, p);
        ghost var h1 := Pointers();
        nodes := nodes - {p};
        assert Pointers() == h1 - {p} && h0[header] == old(header.forward) && h1[header] == header.forward;
        DropSplits(h0, header, levels0, levels, p, pos);
      } else {
        save', who', pos' := StepOver(p, save, who, pos);
        KeepSplits(h0, header, levels, p, pos, pos');
      }
    }

    /** What holds whenever DoForSL gets to a node: it has come to the first one from the limit on. */
    ghost predicate Walking(levels0: seq<seq<Node>>, f: int -> Verdict, limit: int, p: Node?, save: seq<Node?>, who: seq<Node>, pos: seq<nat>)
      reads this
    {
      && Cursor(p, save, who, pos) && FilteredBelow(levels0, levels, f, limit)
      && Nested(levels0) && NoQuitBelow(levels0[0], f, limit) && Ahead(levels0[0], limit, p)
    }

    /** The set-up of DoForSL. */
    method StartWalk(ghost f: int -> Verdict)
      returns (p: Node?, save: seq<Node?>, who: seq<Node>, ghost pos: seq<nat>, ghost limit: int)
      requires Valid()
      ensures |pos| == |levels| == MAX_LEVELS && Walking(levels, f, limit, p, save, who, pos)
    {
      save := FirstNodes();
      who, pos := seq(MAX_LEVELS, _ => header), seq(MAX_LEVELS, _ => 0);
      PointsTo(Pointers(), header, levels, 0, 0);
      assert Pointers()[header] == header.forward;
      p := header.forward[0];
      limit := if levels[0] == [] then 0 else levels[0][0].key;
      hide Chain, Chains, Populated, Increasing, Splits, Nested, FilteredBelow, NoQuitBelow, Ahead;
      LevelFacts(Pointers(), header, levels);
      StartSplits(Pointers(), header, levels, limit, pos);
      NextCursor(Pointers(), header, levels, limit, pos);
      StartFiltered(levels, f, limit);
      Unvisited(Pointers(), header, levels, levels, f, limit, 0);
    }

    method FirstNodes() returns (save: seq<Node?>)
      requires Valid()
      ensures |save| == |levels| == MAX_LEVELS && forall j :: 0 <= j < MAX_LEVELS ==> save[j] == At(levels[j], 0)
    {
      hide Chain, Chains, Populated;
      save := seq(MAX_LEVELS, _ => null);
      var k := 0;
      while k < level
        invariant 0 <= k <= level && |save| == MAX_LEVELS
        invariant forall j :: 0 <= j < k ==> save[j] == At(levels[j], 0)
        invariant forall j :: k <= j < MAX_LEVELS ==> save[j] == null
      {
        PointsTo(Pointers(), header, levels, k, 0);
        assert Pointers()[header] == header.forward;
        save := save[k := header.forward[k]];
        k := k + 1;
      }
    }

    /** One turn of DoForSL. */
    method WalkOn(f: int -> Verdict, p: Node, save: seq<Node?>, who: seq<Node>, ghost pos: seq<nat>,
                  ghost levels0: seq<seq<Node>>, ghost limit: int)
      returns (q: Node?, quit: bool, save': seq<Node?>, who': seq<Node>, ghost pos': seq<nat>)
      requires Valid() && |pos| == |levels| == MAX_LEVELS && Walking(levels0, f, limit, p, save, who, pos)
      modifies header, nodes, this`levels, this`nodes, this`count
      ensures Valid() && nodes <= old(nodes) && |pos'| == |levels| == MAX_LEVELS
      ensures 0 <= |levels[0]| - pos'[0] == old(|levels[0]|) - pos[0] - 1
      ensures if quit then Filtered(levels0, levels, f) else Walking(levels0, f, p.key + 1, q, save', who', pos')
    {
      hide Chain, Chains, Populated, Increasing, Splits, Nested, FilteredBelow, Filtered, NoQuitBelow, Ahead;
      InHeap(Pointers(), header, levels, 0, pos[0]);
      assert Pointers()[p] == p.forward;
      q := p.forward[0];
      var ret := f(p.key);
      ghost var levels1 := levels;
      save', who', pos' := Visit(p, ret.delete, save, who, pos);
      NextLimit(levels0, levels1, levels, f, limit, p);
      quit := ret.quit;
      if quit {
        QuitOutcome(levels0, levels, f, limit, p);
      } else {
        NextCursor(Pointers(), header, levels, p.key + 1, pos');
        Unvisited(Pointers(), header, levels0, levels, f, p.key + 1, pos'[0]);
      }
    }

    /** DoForSL: visit the nodes in order until the function asks to quit, deleting those it asks to delete.
        Every level loses exactly those nodes; the number of levels in use is not recomputed. */
    method DoFor(f: int -> Verdict)
      requires Valid()
      modifies this, header, nodes
      ensures Valid() && level == old(level)
      ensures Filtered(old(levels), levels, f)
    {
      hide Walking, Filtered, Chains, Populated;
      ghost var levels0 := levels;
      var p, save, who, pos, limit := StartWalk(f);
      while p != null
        invariant Valid() && level == old(level) && nodes <= old(nodes) && |pos| == |levels| == MAX_LEVELS
        invariant Walking(levels0, f, limit, p, save, who, pos)
        decreases |levels[0]| - pos[0]
      {
        var here := p;
        var quit;
        p, quit, save, who, pos := WalkOn(f, here, save, who, pos, levels0, limit);
        if quit {
          return;
        }
        limit := here.key + 1;
      }
      AllVisited(f, levels0, limit, save, who, pos);
    }

    lemma AllVisited(f: int -> Verdict, levels0: seq<seq<Node>>, limit: int, save: seq<Node?>, who: seq<Node>, pos: seq<nat>)
      requires Walking(levels0, f, limit, null, save, who, pos)
      ensures Filtered(levels0, levels, f)
    {
      hide FilteredBelow, Filtered, NoQuitBelow, Nested;
      DoneOutcome(levels0, levels, f, limit);
    }

    lemma AbsentKey(key: int)
      requires Valid() && key !in Keys()
      ensures forall k :: 0 <= k < MAX_LEVELS ==> key !in KeysOf(levels[k])
    {
      forall k, n: Node | 0 <= k < MAX_LEVELS && n in levels[k] ensures n in levels[0] {
        assert Chain(Pointers(), header, levels[k], k);
      }
    }
  }

  /** q has gone from exactly the levels it was on, where it stood at the given positions. */
  ghost predicate RemovedFrom(levels0: seq<seq<Node>>, levels: seq<seq<Node>>, q: Node, pos: seq<nat>) {
    && |levels0| == |levels| == |pos| == MAX_LEVELS
    && forall k :: 0 <= k < MAX_LEVELS ==>
         if q in levels0[k] then pos[k] < |levels0[k]| && levels0[k][pos[k]] == q && levels[k] == RemoveAt(levels0[k], pos[k])
         else levels[k] == levels0[k]
  }

  lemma IsIncreasing(h: Heap, header: Node, levels: seq<seq<Node>>, k: nat)
    requires Chains(h, header, levels) && k < MAX_LEVELS
    ensures Increasing(levels[k])
  {
    assert Chain(h, header, levels[k], k);
  }

  lemma OnLevel(h: Heap, header: Node, levels: seq<seq<Node>>, k: nat, n: Node)
    requires Populated(h, header, levels) && k < MAX_LEVELS && n in h && n != header && k < |h[n]|
    ensures n in levels[k]
  {
  }

  lemma PointsTo(h: Heap, header: Node, levels: seq<seq<Node>>, k: nat, i: nat)
    requires Chains(h, header, levels) && k < MAX_LEVELS && i <= |levels[k]|
    ensures Before(header, levels[k], i) in h && k < |h[Before(header, levels[k], i)]|
    ensures h[Before(header, levels[k], i)][k] == At(levels[k], i)
  {
    assert Chain(h, header, levels[k], k);
  }

  lemma HeaderLong(h: Heap, header: Node, levels: seq<seq<Node>>)
    requires Chains(h, header, levels)
    ensures header in h && |h[header]| >= MAX_LEVELS
  {
    assert Chain(h, header, levels[MAX_LEVELS - 1], MAX_LEVELS - 1);
  }

  lemma HeaderNull(h: Heap, header: Node, levels: seq<seq<Node>>, k: nat)
    requires Chains(h, header, levels) && k < MAX_LEVELS
    ensures header in h && k < |h[header]| && (h[header][k] == null <==> levels[k] == [])
  {
    assert Chain(h, header, levels[k], k);
  }

  /** The loop of DeleteSL, which stops at the first level q is not on, has found them all. */
  lemma RemovedAll(h: Heap, header: Node, levels0: seq<seq<Node>>, levels: seq<seq<Node>>, q: Node, pos: seq<nat>, k: nat)
    requires Chains(h, header, levels0) && Populated(h, header, levels0) && q in h && q != header
    requires |levels| == |pos| == MAX_LEVELS && k <= MAX_LEVELS
    requires forall j :: 0 <= j < MAX_LEVELS ==> Splits(levels0[j], q.key, pos[j]) && pos[j] <= |levels0[j]|
    requires forall j :: 0 <= j < k ==> pos[j] < |levels0[j]| && levels0[j][pos[j]] == q && levels[j] == RemoveAt(levels0[j], pos[j])
    requires forall j :: k <= j < MAX_LEVELS ==> levels[j] == levels0[j]
    requires k < MAX_LEVELS ==> At(levels0[k], pos[k]) != q
    ensures RemovedFrom(levels0, levels, q, pos)
  {
    if k < MAX_LEVELS {
      assert Chain(h, header, levels0[k], k);
      FoundAt(levels0[k], q.key, pos[k]);
      assert q !in levels0[k] && |h[q]| <= k;
    }
  }

  /** The first level a node is not on is above all levels it is on. */
  lemma OnLowLevels(h: Heap, header: Node, levels: seq<seq<Node>>, q: Node, pos: seq<nat>, k: nat)
    requires Chains(h, header, levels) && Populated(h, header, levels) && q in h && q != header
    requires |pos| == MAX_LEVELS && k <= MAX_LEVELS
    requires forall j :: 0 <= j < MAX_LEVELS ==> Splits(levels[j], q.key, pos[j]) && pos[j] <= |levels[j]|
    requires forall j :: 0 <= j < k ==> pos[j] < |levels[j]| && levels[j][pos[j]] == q
    requires k < MAX_LEVELS ==> At(levels[k], pos[k]) != q
    ensures forall j :: 0 <= j < MAX_LEVELS ==> (q in levels[j] <==> j < k)
  {
    if k < MAX_LEVELS {
      assert Chain(h, header, levels[k], k);
      FoundAt(levels[k], q.key, pos[k]);
      assert q !in levels[k] && |h[q]| <= k;
    }
  }

  /** DoForSL with function f leaves this key alone: it is not asked to delete it, or it quits before. */
  ghost predicate Stays(key: int, all: seq<Node>, f: int -> Verdict) {
    f(key).delete ==> exists n: Node :: n in all && n.key < key && f(n.key).quit
  }

  /** Nodes below the limit have been visited: those to be deleted are gone, from every level. */
  ghost predicate FilteredBelow(levels0: seq<seq<Node>>, levels: seq<seq<Node>>, f: int -> Verdict, limit: int) {
    && |levels0| == |levels| == MAX_LEVELS
    && (forall k, n: Node {:trigger n in levels[k]} :: 0 <= k < MAX_LEVELS && n in levels[k] ==> n in levels0[k] && !(n.key < limit && f(n.key).delete))
    && (forall k, n: Node {:trigger n in levels0[k]} :: 0 <= k < MAX_LEVELS && n in levels0[k] && !(n.key < limit && f(n.key).delete) ==> n in levels[k])
  }

  /** A node at the cursor is on exactly the levels where it stands at the saved position. */
  lemma AtCursor(h: Heap, header: Node, levels: seq<seq<Node>>, p: Node, pos: seq<nat>)
    requires Chains(h, header, levels) && Populated(h, header, levels) && p in h && p != header && |pos| == MAX_LEVELS
    requires forall k :: 0 <= k < MAX_LEVELS ==> Splits(levels[k], p.key, pos[k]) && pos[k] <= |levels[k]|
    ensures forall k, n: Node :: 0 <= k < MAX_LEVELS && n in levels[k] && n.key == p.key ==> n == p
    ensures forall k :: 0 <= k < MAX_LEVELS && p in levels[k] ==> pos[k] < |levels[k]| && levels[k][pos[k]] == p
    ensures p in levels[0] && h[p][0] == At(levels[0], pos[0] + 1)
  {
    assert 0 < |h[p]|;
    forall k, n: Node | 0 <= k < MAX_LEVELS && n in levels[k] && n.key == p.key ensures n == p && pos[k] < |levels[k]| && levels[k][pos[k]] == p {
      assert Chain(h, header, levels[k], k) && Chain(h, header, levels[0], 0);
      FoundAt(levels[k], p.key, pos[k]);
      FoundAt(levels[0], p.key, pos[0]);
      assert n in levels[0];
    }
    assert Chain(h, header, levels[0], 0);
  }

  lemma DropSplits(h: Heap, header: Node, levels0: seq<seq<Node>>, levels: seq<seq<Node>>, p: Node, pos: seq<nat>)
    requires Chains(h, header, levels0) && RemovedFrom(levels0, levels, p, pos)
    requires forall k :: 0 <= k < MAX_LEVELS ==> Splits(levels0[k], p.key, pos[k]) && pos[k] <= |levels0[k]|
    requires forall k, n: Node :: 0 <= k < MAX_LEVELS && n in levels0[k] && n.key == p.key ==> n == p
    ensures forall k :: 0 <= k < MAX_LEVELS ==> Splits(levels[k], p.key + 1, pos[k]) && forall n: Node :: n in levels[k] <==> n in levels0[k] && n != p
    ensures p in levels0[0] ==>
              |levels[0]| == |levels0[0]| - 1 && pos[0] < |levels0[0]| && pos[0] <= |levels[0]| && At(levels[0], pos[0]) == At(levels0[0], pos[0] + 1)
    ensures forall k :: 0 <= k < MAX_LEVELS ==> pos[k] <= |levels[k]| && Before(header, levels[k], pos[k]) == Before(header, levels0[k], pos[k])
  {
    forall k | 0 <= k < MAX_LEVELS
      ensures Splits(levels[k], p.key + 1, pos[k]) && pos[k] <= |levels[k]|
      ensures forall n: Node :: n in levels[k] <==> n in levels0[k] && n != p
    {
      assert Chain(h, header, levels0[k], k);
      if p in levels0[k] {
        RemoveFacts(levels0[k], pos[k]);
      } else {
        assert forall j :: 0 <= j < |levels0[k]| ==> levels0[k][j] in levels0[k];
      }
    }
  }

  lemma KeepSplits(h: Heap, header: Node, levels: seq<seq<Node>>, p: Node, pos: seq<nat>, pos': seq<nat>)
    requires Chains(h, header, levels) && |pos| == |pos'| == MAX_LEVELS
    requires forall k :: 0 <= k < MAX_LEVELS ==> Splits(levels[k], p.key, pos[k]) && pos[k] <= |levels[k]|
    requires forall k, n: Node :: 0 <= k < MAX_LEVELS && n in levels[k] && n.key == p.key ==> n == p
    requires forall k :: 0 <= k < MAX_LEVELS ==>
               if p in levels[k] then pos[k] < |levels[k]| && levels[k][pos[k]] == p && pos'[k] == pos[k] + 1 else pos'[k] == pos[k]
    ensures forall k :: 0 <= k < MAX_LEVELS ==> Splits(levels[k], p.key + 1, pos'[k])
  {
    forall k | 0 <= k < MAX_LEVELS ensures Splits(levels[k], p.key + 1, pos'[k]) {
      assert Chain(h, header, levels[k], k);
      KeepSplit(levels[k], p, pos[k]);
    }
  }

  lemma KeepSplit(s: seq<Node>, p: Node, i: nat)
    requires Increasing(s) && Splits(s, p.key, i) && forall n: Node :: n in s && n.key == p.key ==> n == p
    ensures if p in s then i < |s| ==> s[i] == p ==> Splits(s, p.key + 1, i + 1) else Splits(s, p.key + 1, i)
  {
    if p !in s {
      forall j | 0 <= j < |s| ensures s[j].key != p.key {
        assert s[j] in s;
      }
    }
  }

  lemma StartSplits(h: Heap, header: Node, levels: seq<seq<Node>>, limit: int, pos: seq<nat>)
    requires Chains(h, header, levels) && Populated(h, header, levels) && |pos| == MAX_LEVELS && forall k :: 0 <= k < MAX_LEVELS ==> pos[k] == 0
    requires levels[0] != [] ==> limit <= levels[0][0].key
    ensures forall k :: 0 <= k < MAX_LEVELS ==> Splits(levels[k], limit, pos[k])
    ensures forall k, n: Node :: 0 <= k < MAX_LEVELS && n in levels[k] ==> n.key >= limit
  {
    forall k, n: Node | 0 <= k < MAX_LEVELS && n in levels[k] ensures n.key >= limit {
      assert Chain(h, header, levels[k], k) && Chain(h, header, levels[0], 0);
      assert n in levels[0];
    }
    forall k | 0 <= k < MAX_LEVELS ensures Splits(levels[k], limit, pos[k]) {
      AllFrom(levels[k], limit);
    }
  }

  lemma AllFrom(s: seq<Node>, limit: int)
    requires forall n: Node :: n in s ==> n.key >= limit
    ensures Splits(s, limit, 0)
  {
    forall j | 0 <= j < |s| ensures s[j].key >= limit {
      assert s[j] in s;
    }
  }

  /** Positions that split every level at the limit are those of the next node to visit. */
  lemma NextCursor(h: Heap, header: Node, levels: seq<seq<Node>>, limit: int, pos: seq<nat>)
    requires Chains(h, header, levels) && Populated(h, header, levels) && |pos| == MAX_LEVELS
    requires forall k :: 0 <= k < MAX_LEVELS ==> Splits(levels[k], limit, pos[k]) && pos[k] <= |levels[k]|
    ensures var p := At(levels[0], pos[0]);
            forall k :: 0 <= k < MAX_LEVELS ==> pos[k] <= |levels[k]| && if p == null then pos[k] == |levels[k]| else Splits(levels[k], p.key, pos[k])
  {
    var p := At(levels[0], pos[0]);
    forall k | 0 <= k < MAX_LEVELS ensures if p == null then pos[k] == |levels[k]| else Splits(levels[k], p.key, pos[k]) {
      assert Chain(h, header, levels[k], k) && Chain(h, header, levels[0], 0);
      NextPosition(levels[0], levels[k], limit, pos[0], pos[k]);
    }
  }

  lemma NextPosition(all: seq<Node>, s: seq<Node>, limit: int, i: nat, j: nat)
    requires Increasing(all) && Splits(all, limit, i) && Splits(s, limit, j) && i <= |all| && j <= |s|
    requires forall n: Node :: n in s ==> n in all
    ensures if i == |all| then j == |s| else Splits(s, all[i].key, j)
  {
    forall m | j <= m < |s| ensures i < |all| && s[m].key >= all[i].key {
      NextNode(all, s, limit, i, j, m);
    }
    if j < |s| {
      NextNode(all, s, limit, i, j, j);
    }
  }

  lemma NextNode(all: seq<Node>, s: seq<Node>, limit: int, i: nat, j: nat, m: nat)
    requires Increasing(all) && Splits(all, limit, i) && Splits(s, limit, j) && j <= m < |s|
    requires forall n: Node :: n in s ==> n in all
    ensures i < |all| && s[m].key >= all[i].key
  {
    assert s[m] in s;
    var t :| 0 <= t < |all| && all[t] == s[m];
    assert i <= t;
  }

  lemma StartFiltered(levels: seq<seq<Node>>, f: int -> Verdict, limit: int)
    requires Nested(levels) && forall k, n: Node :: 0 <= k < MAX_LEVELS && n in levels[k] ==> n.key >= limit
    ensures FilteredBelow(levels, levels, f, limit) && NoQuitBelow(levels[0], f, limit)
  {
  }

  ghost predicate NoQuitBelow(all: seq<Node>, f: int -> Verdict, limit: int) {
    forall n: Node :: n in all && n.key < limit ==> !f(n.key).quit
  }

  /** The next node to visit is the first one from the limit on. */
  ghost predicate Ahead(all: seq<Node>, limit: int, p: Node?) {
    && (p != null ==> p.key >= limit)
    && forall n: Node :: n in all && n.key >= limit ==> p != null && n.key >= p.key
  }

  ghost predicate Nested(levels: seq<seq<Node>>) {
    && |levels| == MAX_LEVELS
    && (forall k, n: Node :: 0 <= k < MAX_LEVELS && n in levels[k] ==> n in levels[0])
    && (forall n: Node, m: Node :: n in levels[0] && m in levels[0] && n.key == m.key ==> n == m)
  }

  lemma LevelFacts(h: Heap, header: Node, levels: seq<seq<Node>>)
    requires Chains(h, header, levels) && Populated(h, header, levels)
    ensures Nested(levels)
  {
    assert Chain(h, header, levels[0], 0);
    forall k, n: Node | 0 <= k < MAX_LEVELS && n in levels[k] ensures n in levels[0] {
      assert Chain(h, header, levels[k], k);
    }
    forall n: Node, m: Node | n in levels[0] && m in levels[0] && n.key == m.key ensures n == m {
      var i :| 0 <= i < |levels[0]| && levels[0][i] == n;
      var j :| 0 <= j < |levels[0]| && levels[0][j] == m;
    }
  }

  lemma Unvisited(h: Heap, header: Node, levels0: seq<seq<Node>>, levels: seq<seq<Node>>, f: int -> Verdict, limit: int, i: nat)
    requires Chains(h, header, levels) && FilteredBelow(levels0, levels, f, limit)
    requires i <= |levels[0]| && Splits(levels[0], limit, i)
    ensures Ahead(levels0[0], limit, At(levels[0], i))
  {
    assert Chain(h, header, levels[0], 0);
    forall n: Node | n in levels0[0] && n.key >= limit ensures i < |levels[0]| && n.key >= levels[0][i].key {
      assert n in levels[0];
      var j :| 0 <= j < |levels[0]| && levels[0][j] == n;
      assert i <= j;
    }
  }

  lemma NextLimit(levels0: seq<seq<Node>>, levels1: seq<seq<Node>>, levels: seq<seq<Node>>, f: int -> Verdict, limit: int, p: Node)
    requires FilteredBelow(levels0, levels1, f, limit) && |levels| == MAX_LEVELS && p in levels1[0]
    requires Nested(levels0) && NoQuitBelow(levels0[0], f, limit) && Ahead(levels0[0], limit, p)
    requires forall k, n: Node :: 0 <= k < MAX_LEVELS ==> (n in levels[k] <==> n in levels1[k] && !(f(p.key).delete && n == p))
    ensures FilteredBelow(levels0, levels, f, p.key + 1) && p in levels0[0]
    ensures !f(p.key).quit ==> NoQuitBelow(levels0[0], f, p.key + 1)
  {
    assert p in levels0[0];
    forall k, n: Node | 0 <= k < MAX_LEVELS && n in levels0[k]
      ensures n in levels[k] <==> !(n.key < p.key + 1 && f(n.key).delete)
    {
      assert n in levels0[0];
      assert n in levels1[k] <==> !(n.key < limit && f(n.key).delete);
    }
    forall k, n: Node | 0 <= k < MAX_LEVELS && n in levels[k] ensures n in levels0[k] {
      assert n in levels1[k];
    }
  }

  /** Every level has lost exactly the nodes that were to be deleted. */
  ghost predicate Filtered(levels0: seq<seq<Node>>, levels: seq<seq<Node>>, f: int -> Verdict) {
    && |levels0| == |levels| == MAX_LEVELS
    && (forall k, n: Node {:trigger n in levels[k]} :: 0 <= k < MAX_LEVELS && n in levels[k] ==> n in levels0[k] && Stays(n.key, levels0[0], f))
    && (forall k, n: Node {:trigger n in levels0[k]} :: 0 <= k < MAX_LEVELS && n in levels0[k] && Stays(n.key, levels0[0], f) ==> n in levels[k])
  }

  lemma FilteredIf(levels0: seq<seq<Node>>, levels: seq<seq<Node>>, f: int -> Verdict, limit: int)
    requires Nested(levels0) && FilteredBelow(levels0, levels, f, limit)
    requires forall n: Node :: n in levels0[0] ==> (Stays(n.key, levels0[0], f) <==> !(n.key < limit && f(n.key).delete))
    ensures Filtered(levels0, levels, f)
  {
    forall k, n: Node | 0 <= k < MAX_LEVELS && n in levels0[k] ensures n in levels[k] <==> Stays(n.key, levels0[0], f) {
      assert n in levels0[0];
    }
    forall k, n: Node | 0 <= k < MAX_LEVELS && n in levels[k] ensures n in levels0[k] && Stays(n.key, levels0[0], f) {
      assert n in levels0[k];
    }
  }

  lemma QuitOutcome(levels0: seq<seq<Node>>, levels: seq<seq<Node>>, f: int -> Verdict, limit: int, p: Node)
    requires Nested(levels0) && FilteredBelow(levels0, levels, f, p.key + 1) && NoQuitBelow(levels0[0], f, limit) && Ahead(levels0[0], limit, p)
    requires p in levels0[0] && f(p.key).quit
    ensures Filtered(levels0, levels, f)
  {
    forall n: Node | n in levels0[0] ensures Stays(n.key, levels0[0], f) <==> !(n.key < p.key + 1 && f(n.key).delete) {
      if n.key >= p.key + 1 {
        assert p in levels0[0] && p.key < n.key && f(p.key).quit;
      }
    }
    FilteredIf(levels0, levels, f, p.key + 1);
  }

  lemma DoneOutcome(levels0: seq<seq<Node>>, levels: seq<seq<Node>>, f: int -> Verdict, limit: int)
    requires Nested(levels0) && FilteredBelow(levels0, levels, f, limit) && NoQuitBelow(levels0[0], f, limit) && Ahead(levels0[0], limit, null)
    ensures Filtered(levels0, levels, f)
  {
    forall n: Node | n in levels0[0] ensures Stays(n.key, levels0[0], f) <==> !(n.key < limit && f(n.key).delete) {
    }
    FilteredIf(levels0, levels, f, limit);
  }

  lemma RemovedFacts(h0: Heap, header: Node, levels0: seq<seq<Node>>, levels: seq<seq<Node>>, q: Node, pos: seq<nat>, h: Heap)
    requires Chains(h0, header, levels0) && Populated(h0, header, levels0) && q in h0 && q != header && header in h0
    requires RemovedFrom(levels0, levels, q, pos) && SameHeights(h0, h)
    requires forall k, n: Node :: 0 <= k < MAX_LEVELS && n in levels0[k] && n.key == q.key ==> n == q
    ensures forall k :: 0 <= k < MAX_LEVELS ==> KeysOf(levels[k]) == KeysOf(levels0[k]) - {q.key}
    ensures |levels[0]| == |levels0[0]| - 1
    ensures Populated(h - {q}, header, levels) && forall k :: 0 <= k < MAX_LEVELS ==> q !in levels[k]
    ensures forall k :: 0 <= k < MAX_LEVELS && levels0[k] == [] ==> levels[k] == []
  {
    forall k | 0 <= k < MAX_LEVELS
      ensures forall n: Node :: n in levels[k] <==> n in levels0[k] && n != q
      ensures KeysOf(levels[k]) == KeysOf(levels0[k]) - {q.key}
    {
      assert Chain(h0, header, levels0[k], k);
      if q in levels0[k] {
        RemoveFacts(levels0[k], pos[k]);
      }
      KeysRemove(levels0[k], levels[k], q);
    }
    assert 0 < |h0[q]| && q in levels0[0];
  }

  lemma KeysRemove(s: seq<Node>, s': seq<Node>, q: Node)
    requires forall n: Node :: n in s' <==> n in s && n != q
    requires forall n: Node :: n in s && n.key == q.key ==> n == q
    ensures KeysOf(s') == KeysOf(s) - {q.key}
  {
    forall n: Node | n in s && n.key != q.key ensures n in s' {
    }
  }

  /** A node that is on no level can leave the heap. */
  lemma ForgetNode(h: Heap, header: Node, levels: seq<seq<Node>>, q: Node)
    requires Chains(h, header, levels) && q != header && forall k :: 0 <= k < MAX_LEVELS ==> q !in levels[k]
    ensures Chains(h - {q}, header, levels)
  {
    forall k | 0 <= k < MAX_LEVELS ensures Chain(h - {q}, header, levels[k], k) {
      assert Chain(h, header, levels[k], k);
    }
  }

  /** Levels 0 .. height, as far as they or the first new level go, gain the key; the others do not change. */
  ghost predicate Inserted(levels0: seq<seq<Node>>, level0: nat, levels: seq<seq<Node>>, key: int, height: nat) {
    && |levels| == |levels0| == MAX_LEVELS
    && forall k :: 0 <= k < MAX_LEVELS ==>
         KeysOf(levels[k]) == if k <= height && k <= level0 then KeysOf(levels0[k]) + {key} else KeysOf(levels0[k])
  }

  lemma InsertedFacts(h0: Heap, header: Node, levels0: seq<seq<Node>>, level0: nat, n: Node, pos: seq<nat>, height: nat, levels: seq<seq<Node>>)
    requires Chains(h0, header, levels0) && |levels0| == |levels| == |pos| == MAX_LEVELS
    requires 1 <= level0 && height < MAX_LEVELS
    requires forall k :: 0 <= k < MAX_LEVELS ==> Splits(levels0[k], n.key, pos[k]) && pos[k] <= |levels0[k]|
    requires forall k, m: Node :: 0 <= k < MAX_LEVELS && m in levels0[k] ==> m.key != n.key
    requires forall k :: 0 <= k < MAX_LEVELS ==>
               levels[k] == if k <= (if height >= level0 then level0 else height) then InsertAt(levels0[k], pos[k], n) else levels0[k]
    ensures Inserted(levels0, level0, levels, n.key, height)
    ensures KeysOf(levels[0]) == KeysOf(levels0[0]) + {n.key}
    ensures |levels[0]| == |levels0[0]| + 1
    ensures forall k :: 0 <= k < MAX_LEVELS && (levels0[k] != [] || (k <= height && k <= level0)) ==> levels[k] != []
    ensures forall k :: 0 <= k < MAX_LEVELS && levels0[k] == [] && (k > height || k > level0) ==> levels[k] == []
  {
    forall k | 0 <= k < MAX_LEVELS
      ensures KeysOf(levels[k]) == if k <= height && k <= level0 then KeysOf(levels0[k]) + {n.key} else KeysOf(levels0[k])
    {
      LevelInserted(h0, header, levels0, k, pos[k], n);
    }
    LevelInserted(h0, header, levels0, 0, pos[0], n);
  }

  lemma InHeap(h: Heap, header: Node, levels: seq<seq<Node>>, k: nat, i: nat)
    requires Chains(h, header, levels) && k < MAX_LEVELS && i <= |levels[k]|
    ensures Before(header, levels[k], i) in h && k < |h[Before(header, levels[k], i)]|
    ensures i < |levels[k]| ==> levels[k][i] in h && levels[k][i] != header && k < |h[levels[k][i]]|
  {
    assert Chain(h, header, levels[k], k);
  }

  ghost predicate SameHeights(h: Heap, h': Heap) {
    h'.Keys == h.Keys && forall n: Node :: n in h ==> |h'[n]| == |h[n]|
  }

  /** A node that is on no list yet can join the heap. */
  lemma ChainsExtend(h: Heap, header: Node, levels: seq<seq<Node>>, n: Node, f: seq<Node?>)
    requires Chains(h, header, levels) && n !in h
    ensures Chains(h[n := f], header, levels)
  {
    forall k | 0 <= k < MAX_LEVELS ensures Chain(h[n := f], header, levels[k], k) {
      assert Chain(h, header, levels[k], k);
    }
  }

  lemma LevelInserted(h: Heap, header: Node, levels: seq<seq<Node>>, k: nat, i: nat, n: Node)
    requires Chains(h, header, levels) && k < MAX_LEVELS
    requires Splits(levels[k], n.key, i) && i <= |levels[k]| && forall m: Node :: m in levels[k] ==> m.key != n.key
    ensures forall m: Node :: m in InsertAt(levels[k], i, n) <==> m in levels[k] || m == n
    ensures KeysOf(InsertAt(levels[k], i, n)) == KeysOf(levels[k]) + {n.key}
    ensures |InsertAt(levels[k], i, n)| == |levels[k]| + 1
  {
    assert Chain(h, header, levels[k], k);
    InsertFacts(levels[k], i, n);
    KeysInsert(levels[k], InsertAt(levels[k], i, n), n);
  }

  lemma KeysInsert(s: seq<Node>, s': seq<Node>, n: Node)
    requires forall m: Node :: m in s' <==> m in s || m == n
    ensures KeysOf(s') == KeysOf(s) + {n.key}
  {
    assert n in s' && forall m: Node :: m in s ==> m in s';
  }

  /** All that follows from n having been linked in at levels 0 .. top. */
  lemma NodeAdded(h0: Heap, header: Node, levels0: seq<seq<Node>>, level0: nat, n: Node, pos: seq<nat>, height: nat, top: nat,
                  h: Heap, levels: seq<seq<Node>>)
    requires Chains(h0, header, levels0) && Populated(h0, header, levels0) && n !in h0 && header in h0 && top < MAX_LEVELS
    requires |pos| == MAX_LEVELS && |levels| == MAX_LEVELS && 1 <= level0 <= MAX_LEVELS && height < MAX_LEVELS
    requires top == if height >= level0 then level0 else height
    requires forall k :: 0 <= k < MAX_LEVELS ==> Splits(levels0[k], n.key, pos[k]) && pos[k] <= |levels0[k]|
    requires forall k, m: Node :: 0 <= k < MAX_LEVELS && m in levels0[k] ==> m.key != n.key
    requires forall k :: 0 <= k < MAX_LEVELS ==> levels[k] == if k <= top then InsertAt(levels0[k], pos[k], n) else levels0[k]
    requires h.Keys == h0.Keys + {n} && |h[n]| == top + 1 && forall m: Node :: m in h0 ==> |h[m]| == |h0[m]|
    ensures Populated(h, header, levels) && Inserted(levels0, level0, levels, n.key, height)
    ensures |levels[0]| == |levels0[0]| + 1
    ensures level0 == 1 || levels0[level0 - 1] != [] ==> levels[if height >= level0 then level0 else level0 - 1] != [] || level0 == 1
    ensures height >= level0 ==> levels[level0] != []
    ensures (forall k :: level0 <= k < MAX_LEVELS ==> levels0[k] == []) ==>
      forall k :: (if height >= level0 then level0 + 1 else level0) <= k < MAX_LEVELS ==> levels[k] == []
  {
    assert |levels0| == MAX_LEVELS;
    hide Chains, Populated, Inserted, Splits, InsertAt;
    PopulatedInsert(h0, header, levels0, n, pos, top, h, levels);
    InsertedFacts(h0, header, levels0, level0, n, pos, height, levels);
  }

  lemma PopulatedInsert(h0: Heap, header: Node, levels0: seq<seq<Node>>, n: Node, pos: seq<nat>, top: nat, h: Heap, levels: seq<seq<Node>>)
    requires Chains(h0, header, levels0) && Populated(h0, header, levels0) && n !in h0 && header in h0 && top < MAX_LEVELS
    requires |pos| == MAX_LEVELS && |levels| == MAX_LEVELS
    requires forall k :: 0 <= k < MAX_LEVELS ==> Splits(levels0[k], n.key, pos[k]) && pos[k] <= |levels0[k]|
    requires forall k, m: Node :: 0 <= k < MAX_LEVELS && m in levels0[k] ==> m.key != n.key
    requires forall k :: 0 <= k < MAX_LEVELS ==> levels[k] == if k <= top then InsertAt(levels0[k], pos[k], n) else levels0[k]
    requires h.Keys == h0.Keys + {n} && |h[n]| == top + 1 && forall m: Node :: m in h0 ==> |h[m]| == |h0[m]|
    ensures Populated(h, header, levels)
  {
    forall k, m: Node | 0 <= k < MAX_LEVELS && m in h && m != header
      ensures k < |h[m]| <==> m in levels[k]
    {
      LevelInserted(h0, header, levels0, k, pos[k], n);
      if m == n {
        assert n !in levels0[k];
      } else {
        assert m in h0 && (k < |h0[m]| <==> m in levels0[k]);
      }
    }
  }
}
