/** The cache's hash table (cache.c): chains in a table that doubles.  It behaves as the map that the rest of the cache
    takes it for. */
module HashTables {
  import opened CacheModel

  const HT_DEFAULT_MAX := 128

  datatype HashEnt = HashEnt(key: Key, data: Ptr)

  /** HASH(dev, bnum) & mask.  The device only reaches the top six bits of the hash, which no table is large enough
      to use. */
  function Bucket(k: Key, max: nat): (b: nat)
    requires max > 0
    ensures b < max
  {
    k.bnum % max
  }

  /** Growing only ever doubles the table, so that max - 1 stays a mask. */
  predicate Doubled(max: nat) {
    max == HT_DEFAULT_MAX || (max > HT_DEFAULT_MAX && max % 2 == 0 && Doubled(max / 2))
  }

  /** The chains hold exactly the pairs of contents, each once and in its bucket. */
  ghost predicate Holding(chains: seq<seq<HashEnt>>, contents: map<Key, Ptr>) {
    && |chains| > 0 && OnlyContents(chains, contents) && AllContents(chains, contents)
    && (forall i :: 0 <= i < |chains| ==> Single(chains[i]))
  }

  ghost predicate OnlyContents(chains: seq<seq<HashEnt>>, contents: map<Key, Ptr>)
    requires |chains| > 0
  {
    forall i, e :: 0 <= i < |chains| && e in chains[i] ==>
      Bucket(e.key, |chains|) == i && e.key in contents && contents[e.key] == e.data
  }

  ghost predicate AllContents(chains: seq<seq<HashEnt>>, contents: map<Key, Ptr>)
    requires |chains| > 0
  {
    forall k :: k in contents ==> HashEnt(k, contents[k]) in chains[Bucket(k, |chains|)]
  }

  ghost predicate Single(chain: seq<HashEnt>) {
    forall i, j :: 0 <= i < j < |chain| ==> chain[i].key != chain[j].key
  }

  lemma StillDoubled(max: nat)
    requires Doubled(max)
    ensures Doubled(2 * max) && max >= HT_DEFAULT_MAX && max * 3 / 4 < 2 * max * 3 / 4
  {
    assert 2 * max / 2 == max;
  }

  lemma PushKeeps(chains: seq<seq<HashEnt>>, contents: map<Key, Ptr>, e: HashEnt)
    requires Holding(chains, contents) && e.key !in contents
    ensures var b := Bucket(e.key, |chains|);
      Holding(chains[b := [e] + chains[b]], contents[e.key := e.data])
  {
    var b := Bucket(e.key, |chains|);
    var chains' := chains[b := [e] + chains[b]];
    forall i | 0 <= i < |chains'| ensures Single(chains'[i]) {
      forall j | 0 <= j < |chains[b]| ensures chains[b][j].key != e.key {
        assert chains[b][j] in chains[b];
      }
    }
  }

  lemma RemoveKeeps(chains: seq<seq<HashEnt>>, contents: map<Key, Ptr>, b: nat, j: nat)
    requires Holding(chains, contents) && b < |chains| && j < |chains[b]|
    ensures Holding(chains[b := chains[b][..j] + chains[b][j + 1..]], contents - {chains[b][j].key})
  {
    var chain' := chains[b][..j] + chains[b][j + 1..];
    assert chains[b][j] in chains[b];
    Unchained(chains[b], j);
    RemovedOnly(chains, contents, b, chain', chains[b][j].key);
    RemovedAll(chains, contents, b, chain', chains[b][j].key);
    hide Single, OnlyContents, AllContents, Bucket;
  }

  lemma RemovedOnly(chains: seq<seq<HashEnt>>, contents: map<Key, Ptr>, b: nat, chain': seq<HashEnt>, k: Key)
    requires b < |chains| && OnlyContents(chains, contents) && Bucket(k, |chains|) == b
    requires forall x :: x in chain' <==> x in chains[b] && x.key != k
    ensures OnlyContents(chains[b := chain'], contents - {k})
  {
    hide Bucket;
  }

  lemma RemovedAll(chains: seq<seq<HashEnt>>, contents: map<Key, Ptr>, b: nat, chain': seq<HashEnt>, k: Key)
    requires b < |chains| && AllContents(chains, contents) && Bucket(k, |chains|) == b
    requires forall x :: x in chain' <==> x in chains[b] && x.key != k
    ensures AllContents(chains[b := chain'], contents - {k})
  {
    hide Bucket;
  }

  /** A chain without its j-th entry. */
  lemma Unchained(chain: seq<HashEnt>, j: nat)
    requires Single(chain) && j < |chain|
    ensures var rest := chain[..j] + chain[j + 1..];
      Single(rest) && forall x :: x in rest <==> x in chain && x.key != chain[j].key
  {
    var rest := chain[..j] + chain[j + 1..];
    forall x | x in rest ensures x in chain && x.key != chain[j].key {
    }
    forall x | x in chain && x.key != chain[j].key ensures x in rest {
      var i :| 0 <= i < |chain| && chain[i] == x;
      assert if i < j then rest[i] == x else i > j && rest[i - 1] == x;
    }
  }

  class HashTable {
    var table: array<seq<HashEnt>>
    var max: nat
    var numElements: nat
    ghost var contents: map<Key, Ptr>

    ghost predicate Valid()
      reads this, table
    {
      && table.Length == max > 0 && Holding(table[..], contents)
      && numElements == |contents| && numElements < max * 3 / 4 && Doubled(max)
    }

    constructor ()
      ensures Valid() && contents == map[] && fresh(table)
    {
      max, numElements, contents := HT_DEFAULT_MAX, 0, map[];
      table := new seq<HashEnt>[HT_DEFAULT_MAX](_ => []);
    }

    /** The place of k in its chain, or the chain's length. */
    method Find(k: Key) returns (i: nat)
      requires Valid()
      ensures i <= |table[Bucket(k, max)]|
      ensures if k in contents then i < |table[Bucket(k, max)]| && table[Bucket(k, max)][i] == HashEnt(k, contents[k])
              else i == |table[Bucket(k, max)]|
    {
      i := 0;
      var chain := table[Bucket(k, max)];
      assert chain == table[..][Bucket(k, max)];
      while i < |chain| && chain[i].key != k
        invariant i <= |chain| && forall j :: 0 <= j < i ==> chain[j].key != k
      {
        i := i + 1;
      }
      if i < |chain| {
        assert chain[i] in chain;
      }
    }

    method Lookup(k: Key) returns (r: Option<Ptr>)
      requires Valid()
      ensures r == if k in contents then Some(contents[k]) else None
    {
      var i := Find(k);
      r := if i < |table[Bucket(k, max)]| then Some(table[Bucket(k, max)][i].data) else None;
    }

    /** hash_insert refuses a block that is there already; otherwise the table may grow. */
    method Insert(k: Key, p: Ptr) returns (ok: bool)
      requires Valid()
      modifies this, table
      ensures Valid() && (table == old(table) || fresh(table))
      ensures ok <==> k !in old(contents)
      ensures contents == if ok then old(contents)[k := p] else old(contents)
      ensures numElements == old(numElements) + if ok then 1 else 0
      ensures max == if ok && old(numElements) + 1 >= old(max) * 3 / 4 then 2 * old(max) else old(max)
    {
      hide Holding, Single, Doubled, Bucket;
      var i := Find(k);
      if i < |table[Bucket(k, max)]| {
        return false;
      }
      Push(k, p);
      StillDoubled(max);
      if numElements >= max * 3 / 4 {
        Grow();
      }
      ok := true;
    }

    method Push(k: Key, p: Ptr)
      requires table.Length == max > 0 && Holding(table[..], contents) && numElements == |contents| && k !in contents
      modifies this`contents, this`numElements, table
      ensures Holding(table[..], contents) && numElements == |contents| == old(numElements) + 1
      ensures contents == old(contents)[k := p]
    {
      hide Holding;
      var b := Bucket(k, max);
      ghost var was := table[..];
      PushKeeps(was, contents, HashEnt(k, p));
      table[b] := [HashEnt(k, p)] + table[b];
      assert table[..] == was[b := [HashEnt(k, p)] + was[b]];
      contents := contents[k := p];
      numElements := numElements + 1;
    }

    /** grow_hash_table: twice the buckets, the same contents. */
    method Grow()
      requires table.Length == max > 0 && Holding(table[..], contents)
      modifies this`table, this`max
      ensures table.Length == max == 2 * old(max) && fresh(table) && Holding(table[..], contents)
    {
      hide *;
      var newTable := new seq<HashEnt>[2 * max](_ => []);
      ghost var moved: map<Key, Ptr> := map[];
      ghost var chains := table[..];
      NoneHeld(newTable[..]);
      for i := 0 to max
        invariant newTable.Length == 2 * max && Holding(newTable[..], moved)
        invariant fresh(newTable) && table == old(table) && max == old(max) && table[..] == chains
        invariant forall k :: k in moved <==> k in contents && Bucket(k, max) < i
        invariant forall k :: k in moved ==> moved[k] == contents[k]
      {
        ghost var before := moved;
        ChainOf(chains, contents, i);
        assert table[i] == chains[i];
        moved := MoveChain(table[i], newTable, moved);
        Rehashed(chains, contents, i, before, moved);
      }
      table := newTable;
      max := 2 * max;
      assert moved == contents;
    }

    static method MoveChain(chain: seq<HashEnt>, newTable: array<seq<HashEnt>>, ghost moved: map<Key, Ptr>)
      returns (ghost moved': map<Key, Ptr>)
      requires newTable.Length > 0 && Holding(newTable[..], moved) && Single(chain)
      requires forall e :: e in chain ==> e.key !in moved
      modifies newTable
      ensures Holding(newTable[..], moved')
      ensures forall k :: k in moved' && k !in moved ==> HashEnt(k, moved'[k]) in chain
      ensures forall k :: k in moved ==> k in moved' && moved'[k] == moved[k]
      ensures forall e :: e in chain ==> e.key in moved' && moved'[e.key] == e.data
    {
      hide Holding, Bucket;
      moved' := moved;
      for j := 0 to |chain|
        invariant Holding(newTable[..], moved')
        invariant forall k :: k in moved' && k !in moved ==> HashEnt(k, moved'[k]) in chain[..j]
        invariant forall k :: k in moved ==> k in moved' && moved'[k] == moved[k]
        invariant forall m :: 0 <= m < j ==> chain[m].key in moved' && moved'[chain[m].key] == chain[m].data
      {
        var e := chain[j];
        assert chain[..j + 1] == chain[..j] + [e];
        assert e in chain;
        assert e.key !in moved' by { FirstOfKey(chain, j); }
        PushKeeps(newTable[..], moved', e);
        var b := Bucket(e.key, newTable.Length);
        ghost var was := newTable[..];
        newTable[b] := [e] + newTable[b];
        assert newTable[..] == was[b := [e] + was[b]];
        moved' := moved'[e.key := e.data];
      }
    }

    static lemma FirstOfKey(chain: seq<HashEnt>, j: nat)
      requires Single(chain) && j < |chain|
      ensures forall e :: e in chain[..j] ==> e.key != chain[j].key
    {
    }

    static lemma NoneHeld(chains: seq<seq<HashEnt>>)
      requires |chains| > 0 && forall i :: 0 <= i < |chains| ==> chains[i] == []
      ensures Holding(chains, map[])
    {
    }

    static lemma ChainOf(chains: seq<seq<HashEnt>>, contents: map<Key, Ptr>, i: nat)
      requires Holding(chains, contents) && i < |chains|
      ensures Single(chains[i]) && forall e :: e in chains[i] ==> Bucket(e.key, |chains|) == i
    {
    }

    static lemma Rehashed(chains: seq<seq<HashEnt>>, contents: map<Key, Ptr>, i: nat, before: map<Key, Ptr>, after: map<Key, Ptr>)
      requires Holding(chains, contents) && i < |chains|
      requires forall k :: k in before <==> k in contents && Bucket(k, |chains|) < i
      requires forall k :: k in before ==> before[k] == contents[k]
      requires forall k :: k in after && k !in before ==> HashEnt(k, after[k]) in chains[i]
      requires forall k :: k in before ==> k in after && after[k] == before[k]
      requires forall e :: e in chains[i] ==> e.key in after && after[e.key] == e.data
      ensures forall k :: k in after <==> k in contents && Bucket(k, |chains|) < i + 1
      ensures forall k :: k in after ==> after[k] == contents[k]
    {
      forall k | k in contents && Bucket(k, |chains|) == i ensures k in after && after[k] == contents[k] {
        assert HashEnt(k, contents[k]) in chains[i];
      }
    }

    method Delete(k: Key) returns (r: Option<Ptr>)
      requires Valid()
      modifies this, table
      ensures Valid() && table == old(table)
      ensures r == if k in old(contents) then Some(old(contents)[k]) else None
      ensures contents == old(contents) - {k}
    {
      hide Holding;
      var i := Find(k);
      var b := Bucket(k, max);
      if i == |table[b]| {
        return None;
      }
      r := Some(table[b][i].data);
      ghost var was := table[..];
      RemoveKeeps(was, contents, b, i);
      table[b] := table[b][..i] + table[b][i + 1..];
      assert table[..] == was[b := was[b][..i] + was[b][i + 1..]];
      contents := contents - {k};
      numElements := numElements - 1;
    }
  }
}
