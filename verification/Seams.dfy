/** The cache's hash table under its eviction protocol: inserting and deleting one block after the other makes the hash
    table the protocol's steps ask for. */
module CacheIndexes {
  import opened Lists
  import opened CacheModel
  import HashTables
  import EP = EvictionProtocol

  /** The first n keys, each with the entry at its place. */
  function Pairs(keys: seq<Key>, ptrs: seq<Ptr>, n: nat): (m: map<Key, Ptr>)
    requires n <= |keys| == |ptrs|
    ensures forall k :: k in m <==> k in keys[..n]
  {
    if n == 0 then map[] else Pairs(keys, ptrs, n - 1)[keys[n - 1] := ptrs[n - 1]]
  }

  /** The insertions of a miss, all of new blocks. */
  method InsertAll(h: HashTables.HashTable, keys: seq<Key>, ptrs: seq<Ptr>)
    requires h.Valid() && |keys| == |ptrs| && Distinct(keys) && forall k :: k in keys ==> k !in h.contents
    modifies h, h.table
    ensures h.Valid() && h.contents == old(h.contents) + Pairs(keys, ptrs, |keys|)
  {
    ghost var was := h.contents;
    for i := 0 to |keys|
      invariant h.Valid() && (h.table == old(h.table) || fresh(h.table)) && h.contents == was + Pairs(keys, ptrs, i)
    {
      PairsNext(was, keys, ptrs, i);
      hide *;
      var ok := h.Insert(keys[i], ptrs[i]);
    }
  }

  lemma PairsNext(ht: map<Key, Ptr>, keys: seq<Key>, ptrs: seq<Ptr>, i: nat)
    requires |keys| == |ptrs| && Distinct(keys) && i < |keys| && forall k :: k in keys ==> k !in ht
    ensures keys[i] !in ht + Pairs(keys, ptrs, i)
    ensures (ht + Pairs(keys, ptrs, i))[keys[i] := ptrs[i]] == ht + Pairs(keys, ptrs, i + 1)
  {
    assert keys[i] in keys;
  }

  /** The deletions when the entries have their new blocks. */
  method DeleteAll(h: HashTables.HashTable, gone: seq<Key>)
    requires h.Valid()
    modifies h, h.table
    ensures h.Valid() && h.contents == old(h.contents) - Elems(gone)
  {
    ghost var was := h.contents;
    assert was == was - Elems(gone[..0]);
    for i := 0 to |gone|
      invariant h.Valid() && h.table == old(h.table) && h.contents == was - Elems(gone[..i])
    {
      TakenNext(was, gone, i);
      hide *;
      var p := h.Delete(gone[i]);
    }
    assert gone[..|gone|] == gone;
  }

  lemma TakenNext(ht: map<Key, Ptr>, gone: seq<Key>, i: nat)
    requires i < |gone|
    ensures ht - Elems(gone[..i]) - {gone[i]} == ht - Elems(gone[..i + 1])
  {
    assert gone[..i + 1] == gone[..i] + [gone[i]];
  }

  /** So the table of the protocol's state before becomes the one after, when a miss claims its entries ... */
  lemma ClaimIndex(s: EP.System, t: EP.Tid, keys: seq<Key>, ptrs: seq<Ptr>, s': EP.System)
    requires |keys| == |ptrs| && EP.ClaimStep(s, t, Pairs(keys, ptrs, |keys|), s')
    ensures s'.ht == s.ht + Pairs(keys, ptrs, |keys|) && forall k :: k in keys ==> k !in s.ht
  {
    assert keys[..|keys|] == keys;
  }

  /** ... and when it is done with them. */
  lemma FinishIndex(s: EP.System, t: EP.Tid, writes: map<Key, Block>, lock: bool, s': EP.System, gone: seq<Key>)
    requires EP.Inv(s) && EP.FinishStep(s, t, writes, lock, s')
    requires forall k :: k in gone <==> k in s.ht && s.ht[k] in s.ents && EP.Leaves(s, t, k)
    ensures s'.ht == s.ht - Elems(gone)
  {
    hide EP.Inv;
  }
}

/** The cache's linked LRU lists under BlockCache, which has them as sequences of entry numbers. */
module CacheLists {
  import opened Lists
  import LruLists
  import VnodeLinks

  /** The entries that the nodes are those of. */
  function Names(name: map<LruLists.Node, nat>, nodes: seq<LruLists.Node>): seq<nat>
    requires forall n :: n in nodes ==> n in name
  {
    seq(|nodes|, i requires 0 <= i < |nodes| => name[nodes[i]])
  }

  /** Each entry has its own node. */
  ghost predicate Named(name: map<LruLists.Node, nat>, nodes: seq<LruLists.Node>) {
    (forall n :: n in nodes ==> n in name) && forall m, n :: m in nodes && n in nodes && name[m] == name[n] ==> m == n
  }

  lemma NamesDistinct(name: map<LruLists.Node, nat>, nodes: seq<LruLists.Node>)
    requires Named(name, nodes) && LruLists.Distinct(nodes)
    ensures Distinct(Names(name, nodes))
  {
  }

  /** Bypassing node i is taking its entry out of the sequence. */
  lemma WithoutNode(name: map<LruLists.Node, nat>, nodes: seq<LruLists.Node>, i: nat)
    requires Named(name, nodes) && LruLists.Distinct(nodes) && i < |nodes|
    ensures Names(name, nodes[..i] + nodes[i + 1..]) == Without(Names(name, nodes), name[nodes[i]])
  {
    NamesDistinct(name, nodes);
    VnodeLinks.WithoutAt(Names(name, nodes), i);
  }

  /** Moving an entry's node between the cache's lists is Without on the one sequence and appending to the other. */
  method MoveEntry(a: LruLists.List, b: LruLists.List, n: LruLists.Node, ghost i: nat, ghost name: map<LruLists.Node, nat>)
    requires a != b && a.Valid() && b.Valid() && i < |a.nodes| && a.nodes[i] == n
    requires (forall m :: m in a.nodes ==> m !in b.nodes) && Named(name, a.nodes) && Named(name, b.nodes)
    modifies a, a.nodes, b, b.nodes
    ensures a.Valid() && b.Valid() && forall m :: m in a.nodes ==> m !in b.nodes
    ensures forall m :: m in a.nodes || m in b.nodes ==> m in name
    ensures Names(name, a.nodes) == Without(Names(name, old(a.nodes)), name[n])
    ensures Names(name, b.nodes) == Names(name, old(b.nodes)) + [name[n]]
  {
    WithoutNode(name, a.nodes, i);
    LruLists.Move(a, b, n, i);
  }
}

/** The skip list under VnodeModel, which has it as a map from names to vnodes. */
module VnodeIndexes {
  import opened VnodeModel
  import SkipLists

  /** compare_vnode. */
  function Compare(a: Id, b: Id): int {
    if a.vnid > b.vnid then 1 else if a.vnid < b.vnid then -1
    else if a.nsid > b.nsid then 1 else if a.nsid < b.nsid then -1 else 0
  }

  /** The order of names is total: exactly one of less, equal and greater holds, and it is transitive. */
  lemma CompareTotal(a: Id, b: Id, c: Id)
    ensures (Compare(a, b) == 0 <==> a == b) && Compare(b, a) == -Compare(a, b)
    ensures Compare(a, b) <= 0 && Compare(b, c) <= 0 ==> Compare(a, c) <= 0 && (Compare(a, c) == 0 ==> a == b == c)
  {
  }

  /** A number that orders names as compare_vnode does; nsid has 32 bits. */
  function Rank(id: Id): int {
    id.vnid * 0x1_0000_0000 + id.nsid
  }

  predicate InRange(id: Id) {
    -0x8000_0000 <= id.nsid < 0x8000_0000
  }

  lemma RankOrder(a: Id, b: Id)
    requires InRange(a) && InRange(b)
    ensures Rank(a) < Rank(b) <==> Compare(a, b) < 0
    ensures Rank(a) == Rank(b) <==> a == b
  {
  }

  /** The skip list has just the names of index. */
  ghost predicate Indexes(keys: set<int>, index: map<Id, Ptr>) {
    && (forall id :: id in index ==> InRange(id) && Rank(id) in keys)
    && (forall k :: k in keys ==> exists id :: id in index && Rank(id) == k)
  }

  lemma Present(keys: set<int>, index: map<Id, Ptr>, id: Id)
    requires Indexes(keys, index) && InRange(id)
    ensures Rank(id) in keys <==> id in index
  {
    if Rank(id) in keys {
      var j :| j in index && Rank(j) == Rank(id);
      RankOrder(id, j);
    }
  }

  /** SearchSL finds the vnodes that are in the index. */
  method SearchName(sl: SkipLists.SkipList, id: Id, ghost index: map<Id, Ptr>) returns (found: bool)
    requires sl.Valid() && Indexes(sl.Keys(), index) && InRange(id)
    ensures found <==> id in index
  {
    Present(sl.Keys(), index, id);
    found := sl.Search(Rank(id));
  }

  /** InsertSL adds a name that is new, as Table.Name does. */
  method InsertName(sl: SkipLists.SkipList, id: Id, ghost p: Ptr, height: nat, ghost index: map<Id, Ptr>)
    requires sl.Valid() && Indexes(sl.Keys(), index) && InRange(id) && height < SkipLists.MAX_LEVELS
    modifies sl, sl.header, sl.nodes
    ensures sl.Valid() && |sl.levels| > 0 && Indexes(sl.Keys(), if id in index then index else index[id := p])
  {
    Present(sl.Keys(), index, id);
    InsertedName(sl.Keys(), index, id, p);
    hide *;
    var inserted := sl.Insert(Rank(id), height);
  }

  lemma InsertedName(keys: set<int>, index: map<Id, Ptr>, id: Id, p: Ptr)
    requires Indexes(keys, index) && InRange(id)
    ensures Indexes(keys + {Rank(id)}, if id in index then index else index[id := p])
  {
    var index' := if id in index then index else index[id := p];
    forall k | k in keys + {Rank(id)} ensures exists j :: j in index' && Rank(j) == k {
      if k == Rank(id) {
        assert id in index';
      } else {
        var j :| j in index && Rank(j) == k;
        assert j in index';
      }
    }
  }

  /** DeleteSL takes a name out, as Table.Clear does. */
  method DeleteName(sl: SkipLists.SkipList, id: Id, ghost index: map<Id, Ptr>)
    requires sl.Valid() && Indexes(sl.Keys(), index) && InRange(id)
    modifies sl, sl.header, sl.nodes
    ensures sl.Valid() && |sl.levels| > 0 && Indexes(sl.Keys(), index - {id})
  {
    DeletedName(sl.Keys(), index, id);
    hide Indexes, InRange, Rank;
    var deleted := sl.Delete(Rank(id));
  }

  lemma DeletedName(keys: set<int>, index: map<Id, Ptr>, id: Id)
    requires Indexes(keys, index) && InRange(id)
    ensures Indexes(keys - {Rank(id)}, index - {id})
  {
    forall j | j in index && j != id ensures Rank(j) != Rank(id) {
      RankOrder(id, j);
    }
    forall k | k in keys - {Rank(id)} ensures exists j :: j in index - {id} && Rank(j) == k {
      var j :| j in index && Rank(j) == k;
      assert j in index - {id};
    }
  }
}
