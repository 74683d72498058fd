/** The free-block map of a volume (bitmap.c): block allocation, freeing and checking on top of the bit
    vector, together with the superblock's count of used blocks. */
module Bitmaps {
  import opened Arithmetic
  import opened BitVectors

  datatype Exactness = Exact | Loose | TryHard

  datatype Error = Ok | Invalid | NoSpace

  /** The blocks marked used. */
  ghost function SetBits(c: seq<Chunk>, numbits: nat): set<nat>
    requires numbits <= BITS_IN_CHUNK * |c|
  {
    set p: nat | p < numbits && At(c, p)
  }

  predicate Within(p: nat, start: nat, len: nat) {
    start <= p < start + len
  }

  /** The len blocks from start on. */
  function Blocks(start: nat, len: nat): set<nat> {
    set p: nat | start <= p < start + len && Within(p, start, len)
  }

  lemma {:induction false} BlocksSize(start: nat, len: nat)
    ensures |Blocks(start, len)| == len
  {
    if len > 0 {
      BlocksSize(start, len - 1);
      assert Blocks(start, len) == Blocks(start, len - 1) + {start + len - 1};
    }
  }

  lemma SetBitsBound(c: seq<Chunk>, numbits: nat)
    requires numbits <= BITS_IN_CHUNK * |c|
    ensures |SetBits(c, numbits)| <= numbits
    ensures |SetBits(c, numbits)| == numbits <==> AllSet(c, numbits)
  {
    var all := Blocks(0, numbits);
    BlocksSize(0, numbits);
    var s := SetBits(c, numbits);
    assert s <= all;
    assert |all - s| == |all| - |s|;
    if |s| == numbits {
      assert all - s == {};
      forall p: nat | p < numbits ensures At(c, p) { assert p in all; }
    }
    if AllSet(c, numbits) {
      assert s == all;
    }
  }

  lemma RangeSetBits(c0: seq<Chunk>, c: seq<Chunk>, numbits: nat, start: nat, len: nat, v: bool)
    requires numbits <= BITS_IN_CHUNK * |c0| && start + len <= numbits && RangeSetTo(c0, c, start, len, v)
    ensures SetBits(c, numbits) == if v then SetBits(c0, numbits) + Blocks(start, len) else SetBits(c0, numbits) - Blocks(start, len)
  {
  }

  lemma RunIsFree(c: seq<Chunk>, numbits: nat, len: nat, b: nat, start: nat)
    requires 0 < numbits <= BITS_IN_CHUNK * |c| && SearchResult(c, numbits, len, b, start)
    ensures start + len <= numbits && Blocks(start, len) !! SetBits(c, numbits)
  {
    assert RunAt(c, numbits, len, start);
  }

  lemma OneFree(c: seq<Chunk>, numbits: nat)
    requires numbits <= BITS_IN_CHUNK * |c|
    ensures forall p: nat :: RunAt(c, numbits, 1, p) <==> p < numbits && !At(c, p)
  {
  }

  /** A search has one outcome: it finds a run or it does not. */
  lemma FoundOrNot(c: seq<Chunk>, numbits: nat, len: nat, b: nat, start: int)
    requires 0 < numbits <= BITS_IN_CHUNK * |c| && len > 0 && SearchResult(c, numbits, len, b, start)
    ensures start < 0 <==> SearchResult(c, numbits, len, b, -1)
  {
    if start >= 0 {
      assert RunAt(c, numbits, len, start);
    }
  }

  /** Whatever is too long to be found stays so when it gets longer. */
  lemma EmptyLonger(c: seq<Chunk>, numbits: nat, len: nat, more: nat, b: nat)
    requires 0 < numbits <= BITS_IN_CHUNK * |c| && 0 < len <= more && SearchResult(c, numbits, len, b, -1)
    ensures SearchResult(c, numbits, more, b, -1)
  {
    NoRunWeaken(c, numbits, len, more, BITS_IN_CHUNK * b, numbits);
    NoRunWeaken(c, numbits, len, more, WrapStart(c, numbits, b), numbits);
  }

  class Bitmap {
    const bv: BitVector
    const bits: array<Chunk>
    const blockSize: nat
    var usedBlocks: int

    ghost predicate Valid()
      reads this, bv, bits
    {
      bits == bv.bits && bv.Valid() && blockSize > 0
    }

    /** The superblock's count agrees with the bitmap. */
    ghost predicate Counted()
      requires Valid()
      reads this, bv, bits
    {
      usedBlocks == |Used()|
    }

    ghost function Used(): set<nat>
      requires Valid()
      reads this, bv, bits
    {
      SetBits(bits[..], bv.numbits)
    }

    /** A search for len blocks comes back empty. */
    ghost predicate Barren(len: nat)
      requires Valid()
      reads this, bv, bits
    {
      bv.isFull || bv.numbits == 0 || SearchResult(bits[..], bv.numbits, len, BaseChunk(bv.numbits, bv.nextFree), -1)
    }

    /** When looking for num blocks, a run of len is the longest to be had. */
    ghost predicate Longest(len: int, num: int)
      requires Valid() && 0 < len
      reads this, bv, bits
    {
      len == num || Barren(len + 1)
    }

    /** No len consecutive blocks are to be had: the count says so, or the search. */
    ghost predicate Exhausted(len: nat)
      requires Valid()
      reads this, bv, bits
    {
      len > bv.numbits - usedBlocks || Barren(len)
    }

    constructor (numBlocks: nat, bufferChunks: nat, bsize: nat)
      requires ChunkCount(numBlocks) <= bufferChunks && bsize > 0
      ensures Valid() && Counted() && Used() == {} && fresh(bv) && fresh(bits)
      ensures bv.numbits == numBlocks && blockSize == bsize && usedBlocks == 0
    {
      var v := new BitVector(numBlocks, bufferChunks);
      bv, bits, blockSize, usedBlocks := v, v.bits, bsize, 0;
    }

    /** While the map is not flagged full, one block is not to be had exactly if none is free, or the search jumps
        over chunk 0 and the free ones all lie there. */
    lemma LastBlock()
      requires Valid() && Counted() && bv.numbits > 0 && !bv.isFull
      ensures Exhausted(1) <==>
                || usedBlocks == bv.numbits
                || (var b := BaseChunk(bv.numbits, bv.nextFree);
                    && b > 0 && SkipsFirstChunk(bits[..], bv.numbits, b)
                    && forall p: nat :: p < bv.numbits && !At(bits[..], p) ==> p < BITS_IN_CHUNK)
    {
      var c, numbits, b := bits[..], bv.numbits, BaseChunk(bv.numbits, bv.nextFree);
      SetBitsBound(c, numbits);
      OneFree(c, numbits);
      hide At, SkipsFirstChunk, SetBits, AllSet;
      if usedBlocks < numbits && Barren(1) {
        SearchOverlooks(c, numbits, 1, b, -1);
      }
    }

    /** One search for len blocks; it takes them if it finds them.  sure: the map is not full and the search
        starts in chunk 0. */
    method Try(len: int, ghost sure: bool) returns (start: int, biggest: int)
      requires Valid() && 1 <= len <= bv.numbits
      requires sure ==> !bv.isFull && BaseChunk(bv.numbits, bv.nextFree) == 0 && |Used()| < bv.numbits
      modifies bits, bv`nextFree, bv`isFull
      ensures Valid() && start >= -1 && biggest < len
      ensures start < 0 <==> old(Barren(len))
      ensures start < 0 ==> Barren(len) && Barren(Longer(biggest))
      ensures start < 0 && biggest > 0 && Barren(biggest) ==> bv.isFull
      ensures old(bv.isFull) ==> start < 0 && bv.isFull
      ensures start < 0 ==> forall k: nat {:trigger Barren(k)} {:trigger old(Barren(k))} ::
                (old(Barren(k)) ==> Barren(k)) && (Barren(k) && !bv.isFull ==> old(Barren(k)))
      ensures start < 0 ==> bits[..] == old(bits[..]) && bv.nextFree == old(bv.nextFree)
      ensures start >= 0 ==>
                && start + len <= bv.numbits && Blocks(start, len) !! old(Used())
                && Used() == old(Used()) + Blocks(start, len) && |Used()| == |old(Used())| + len
                && RunAt(old(bits[..]), bv.numbits, len, start)
      ensures sure ==>
                && (start < 0 <==> forall p: nat :: !RunAt(old(bits[..]), bv.numbits, len, p))
                && (len == 1 ==> start >= 0)
                && (start < 0 ==> !bv.isFull)
                && (start < 0 && biggest > 0 ==> exists p: nat :: RunAt(bits[..], bv.numbits, biggest, p))
    {
      ghost var c, numbits := bits[..], bv.numbits;
      SetBitsBound(c, numbits);
      start, biggest := bv.GetFreeRangeOfBits(len);
      if !old(bv.isFull) {
        FoundOrNot(c, numbits, len, BaseChunk(numbits, old(bv.nextFree)), start);
      }
      if start >= 0 {
        RunIsFree(c, numbits, len, BaseChunk(numbits, old(bv.nextFree)), start);
        RangeSetBits(c, bits[..], numbits, start, len, true);
        BlocksSize(start, len);
      }
      if sure {
        SearchFromStart(c, numbits, len, start);
        FlagFromStart(c, numbits);
        if len == 1 {
          var p: nat :| p < numbits && !At(c, p);
          assert RunAt(c, numbits, 1, p);
        }
      }
    }

    lemma LongerBarren(len: int, more: int)
      requires Valid() && 0 < len <= more && Barren(len)
      ensures Barren(more)
    {
      if !bv.isFull && bv.numbits > 0 {
        EmptyLonger(bits[..], bv.numbits, len, more, BaseChunk(bv.numbits, bv.nextFree));
      }
    }

    /** What a failed search says of shorter ones. */
    lemma Shorter(len: int, num: int, biggest: int)
      requires Valid() && 0 < len <= num && biggest < len && Barren(len) && Barren(Longer(biggest))
      ensures Barren(num) && (bv.isFull ==> forall k: nat :: Barren(k))
      ensures forall k: nat :: biggest <= k && 0 < k < len ==> Longest(k, num)
      ensures biggest <= 0 ==> Barren(1)
    {
      LongerBarren(len, num);
      forall k: nat | biggest <= k && 0 < k < len ensures Longest(k, num) {
        LongerBarren(Longer(biggest), k + 1);
      }
    }

    /** One turn of the loop: search for len blocks, then perhaps for as many as have been seen in one run; or go on
        with fewer. */
    method Round(len: int, num: int, exact: Exactness, ghost sure: bool) returns (start: int, len': int)
      requires Valid() && 1 <= len <= num <= bv.numbits && Longest(len, num) && (exact == Exact ==> len == num)
      requires sure ==> !bv.isFull && BaseChunk(bv.numbits, bv.nextFree) == 0 && |Used()| < bv.numbits
      modifies bits, bv`nextFree, bv`isFull
      ensures Valid() && start >= -1 && 0 <= len' <= len
      ensures start < 0 ==> bits[..] == old(bits[..]) && bv.nextFree == old(bv.nextFree) && (old(bv.isFull) ==> bv.isFull)
      ensures start < 0 ==> old(Barren(num)) && Barren(len) && (exact != Exact ==> len' < len && if len' == 0 then Barren(1) else Longest(len', num))
      ensures start >= 0 ==>
                && 1 <= len' && start + len' <= bv.numbits && Blocks(start, len') !! old(Used())
                && Used() == old(Used()) + Blocks(start, len') && |Used()| == |old(Used())| + len'
                && !old(Barren(len')) && old(Longest(len', num)) && RunAt(old(bits[..]), bv.numbits, len', start)
      ensures exact == Exact ==> len' == len
      ensures sure && start < 0 ==> len' >= 1 && !bv.isFull && forall p: nat :: !RunAt(bits[..], bv.numbits, len, p)
    {
      hide Barren, RunAt, SearchResult, SkipsFirstChunk, AllSet, At;
      var maxFree, biggest := 1, 0;
      len' := len;
      if Barren(len) { LongerBarren(len, num); }
      start, biggest := Try(len, sure);
      if start != -1 {
        return;
      }
      Shorter(len, num, biggest);
      if biggest > maxFree {
        maxFree := biggest;
      }
      if exact == Loose && biggest > 0 && biggest >= len / 16 {
        len' := biggest;
        var junk;
        start, junk := Try(biggest, sure);
        if start != -1 {
          return;
        }
      }
      if exact == Exact {
        return;
      }
      if exact == TryHard && maxFree > 1 {
        if maxFree < len {
          len' := maxFree;
        }
        start, biggest := Try(len', sure);
        if start != -1 {
          return;
        }
      }
      if exact == Loose && len' > maxFree * 2 {
        len' := maxFree * 2;
      }
      len' := len' / 2;
    }

    /** The loop. */
    method Rounds(num: int, exact: Exactness, ghost sure: bool) returns (start: int, got: int)
      requires Valid() && 1 <= num <= bv.numbits
      requires sure ==> !bv.isFull && BaseChunk(bv.numbits, bv.nextFree) == 0 && |Used()| < bv.numbits
      modifies bits, bv`nextFree, bv`isFull
      ensures Valid() && start >= -1
      ensures start < 0 ==> got == 0 && bits[..] == old(bits[..]) && old(Barren(num)) && Barren(if exact == Exact then num else 1)
      ensures start < 0 && sure ==> exact == Exact && forall p: nat :: !RunAt(bits[..], bv.numbits, num, p)
      ensures start >= 0 ==>
                && 1 <= got <= num && (exact == Exact ==> got == num)
                && start + got <= bv.numbits && Blocks(start, got) !! old(Used())
                && Used() == old(Used()) + Blocks(start, got) && |Used()| == |old(Used())| + got
                && !old(Barren(got)) && old(Longest(got, num)) && RunAt(old(bits[..]), bv.numbits, got, start)
    {
      ghost var c := bits[..];
      hide SetBits, AllSet, RunAt, SearchResult, At, BaseChunk;
      got, start := num, -1;
      while got >= 1
        invariant 0 <= got <= num && start == -1 && Valid()
        invariant bits[..] == c && bv.nextFree == old(bv.nextFree) && (old(bv.isFull) ==> bv.isFull)
        invariant sure ==> !bv.isFull && got >= 1
        invariant if got == 0 then Barren(1) else Longest(got, num)
        invariant if got < num then exact != Exact && old(Barren(num)) else bv.isFull == old(bv.isFull)
        decreases got
      {
        start, got := Round(got, num, exact, sure);
        if start != -1 || exact == Exact {
          break;
        }
      }
      if start == -1 {
        got := 0;
      }
    }

    /** Allocate up to num consecutive blocks: exactly num, or the longest run to be had when the caller permits it. */
    method Allocate(num: int, exact: Exactness) returns (err: Error, start: int, got: int)
      requires Valid() && Counted()
      modifies this`usedBlocks, bits, bv`nextFree, bv`isFull
      ensures Valid() && Counted()
      ensures err == Invalid <==> num <= 0
      ensures err != Ok ==> bits[..] == old(bits[..]) && usedBlocks == old(usedBlocks)
      ensures err == Ok ==>
                && 1 <= got <= num && (exact == Exact ==> got == num)
                && 0 <= start && start + got <= bv.numbits
                && Blocks(start, got) !! old(Used())
                && Used() == old(Used()) + Blocks(start, got)
                && usedBlocks == old(usedBlocks) + got
                && (got < num ==> old(Barren(got + 1)))
      // a request fails only if there is no such run to be had; then it was exact, or not one block is to be had
      ensures err == NoSpace ==> old(Exhausted(num))
      ensures exact == Exact && num > 0 && old(Exhausted(num)) ==> err == NoSpace
      ensures err == NoSpace ==> num > bv.numbits - usedBlocks || Barren(if exact == Exact then num else 1)
      // with blocks to spare and a search from chunk 0, only an exact request can fail, for want of a run
      ensures 1 <= num <= bv.numbits - old(usedBlocks) && !old(bv.isFull) && BaseChunk(bv.numbits, old(bv.nextFree)) == 0 ==>
                (err == NoSpace <==> exact == Exact && forall p: nat :: !RunAt(old(bits[..]), bv.numbits, num, p))
    {
      ghost var c, numbits := bits[..], bv.numbits;
      if num <= 0 {
        return Invalid, -1, 0;
      }
      if num > bv.numbits - usedBlocks {
        return NoSpace, -1, 0;
      }
      SetBitsBound(c, numbits);
      ghost var sure := !bv.isFull && BaseChunk(numbits, bv.nextFree) == 0;
      hide SetBits, AllSet, RunAt, Barren, BaseChunk, At;
      start, got := Rounds(num, exact, sure);
      if start == -1 {
        return NoSpace, -1, 0;
      }
      usedBlocks := usedBlocks + got;
      err := Ok;
    }

    /** Free num blocks from start on. */
    method Free(start: int, num: int)
      requires Valid() && num >= 0
      modifies this`usedBlocks, bits, bv`nextFree, bv`isFull
      ensures Valid() && !bv.isFull
      ensures Used() == if 0 <= start && start + num <= bv.numbits then old(Used()) - Blocks(start, num) else old(Used())
      ensures usedBlocks == old(usedBlocks) - (num / 8 / blockSize + 1)
      // the count stays right exactly when as many blocks were in use as there are bitmap blocks to write
      ensures old(Counted()) ==> (Counted() <==> FreedUsed(old(Used()), start, num, bv.numbits) == num / 8 / blockSize + 1)
    {
      ghost var c := bits[..];
      var ok := bv.UnSetRange(start, num);
      bv.isFull := false;
      if ok {
        RangeSetBits(c, bits[..], bv.numbits, start, num, false);
      }
      var len := num / 8 / blockSize + 1;
      usedBlocks := usedBlocks - len;
    }

    predicate InUse(k: int)
      requires Valid()
      reads this, bv, bits
    {
      0 <= k < bv.numbits && At(bits[..], k)
    }

    /** Are all len blocks from start on in the given state (used or free)? */
    method Check(start: int, len: int, used: bool) returns (ok: bool)
      requires Valid()
      ensures ok <==> len >= 0 && forall k :: start <= k < start + len ==> InUse(k) == used
    {
      var i := 0;
      while i < len
        invariant 0 <= i && (len >= 0 ==> i <= len) && (len < 0 ==> i == 0)
        invariant forall k :: start <= k < start + i ==> InUse(k) == used
      {
        var b := bv.IsSet(start + i);
        assert InUse(start + i) == b;
        if used != b {
          break;
        }
        i := i + 1;
      }
      return i == len;
    }

    /** Recount the used blocks, whole chunks only, and put the superblock right. */
    method SanityCheck()
      requires Valid()
      modifies this`usedBlocks
      ensures usedBlocks == UsedBelow(bits[..], bv.numbits, bv.numbits / BITS_IN_CHUNK * BITS_IN_CHUNK)
      ensures Counted() <==> forall p: nat :: bv.numbits / BITS_IN_CHUNK * BITS_IN_CHUNK <= p < bv.numbits ==> !At(bits[..], p)
    {
      hide UsedBelow, SetBits, PaddingClear, At;
      ghost var c, numbits := bits[..], bv.numbits;
      CountWhole(c, numbits);
      var used, j := 0, 0;
      while j < bv.numbits / BITS_IN_CHUNK
        invariant 0 <= j <= numbits / BITS_IN_CHUNK && used == UsedBelow(c, numbits, j * BITS_IN_CHUNK)
      {
        var k := 0;
        while k < BITS_IN_CHUNK
          invariant 0 <= k <= BITS_IN_CHUNK && used == UsedBelow(c, numbits, j * BITS_IN_CHUNK + k)
        {
          CountBit(c, numbits, j, k);
          if bits[j][k] {
            used := used + 1;
          }
          k := k + 1;
        }
        j := j + 1;
      }
      if usedBlocks != used {
        usedBlocks := used;
      }
    }
  }

  /** Number of used blocks below p. */
  ghost function UsedBelow(c: seq<Chunk>, numbits: nat, p: nat): nat
    requires numbits <= BITS_IN_CHUNK * |c|
  {
    |SetBits(c, numbits) * Blocks(0, p)|
  }

  lemma CountBit(c: seq<Chunk>, numbits: nat, j: nat, k: nat)
    requires numbits <= BITS_IN_CHUNK * |c| && k < BITS_IN_CHUNK && BITS_IN_CHUNK * j + k < numbits
    ensures var p := j * BITS_IN_CHUNK + k;
            UsedBelow(c, numbits, p + 1) == UsedBelow(c, numbits, p) + if c[j][k] then 1 else 0
  {
    var p := j * BITS_IN_CHUNK + k;
    AtIs(c, j, k);
    var before, after := SetBits(c, numbits) * Blocks(0, p), SetBits(c, numbits) * Blocks(0, p + 1);
    assert after == if At(c, p) then before + {p} else before;
  }

  lemma CountWhole(c: seq<Chunk>, numbits: nat)
    requires numbits <= BITS_IN_CHUNK * |c|
    ensures var whole := numbits / BITS_IN_CHUNK * BITS_IN_CHUNK;
            UsedBelow(c, numbits, 0) == 0 && (UsedBelow(c, numbits, whole) == |SetBits(c, numbits)| <==> forall p: nat :: whole <= p < numbits ==> !At(c, p))
  {
    assert Blocks(0, 0) == {};
    CountBelow(c, numbits, numbits / BITS_IN_CHUNK * BITS_IN_CHUNK);
    hide SetBits, Blocks, At;
  }

  lemma CountBelow(c: seq<Chunk>, numbits: nat, p: nat)
    requires numbits <= BITS_IN_CHUNK * |c|
    ensures UsedBelow(c, numbits, p) == |SetBits(c, numbits)| <==> forall q: nat :: p <= q < numbits ==> !At(c, q)
  {
    var all, lo := SetBits(c, numbits), SetBits(c, numbits) * Blocks(0, p);
    assert forall q: nat :: q in all - lo <==> p <= q < numbits && At(c, q);
    hide SetBits, Blocks, At;
    assert |all - lo| == |all| - |lo|;
    if |lo| == |all| {
      assert all - lo == {};
    } else {
      var q :| q in all - lo;
    }
  }

  /** How many blocks in use a call Free(start, num) gives back. */
  ghost function FreedUsed(used: set<nat>, start: int, num: nat, numbits: nat): nat {
    if 0 <= start && start + num <= numbits then |used * Blocks(start, num)| else 0
  }

  /** Freeing one block that is in use always keeps the count right. */
  lemma FreeOneIsCounted(used: set<nat>, start: nat, numbits: nat, blockSize: nat)
    requires start in used && start < numbits && blockSize > 0
    ensures FreedUsed(used, start, 1, numbits) == 1 / 8 / blockSize + 1
  {
    assert used * Blocks(start, 1) == {start};
  }

  /** The bitmap blocks written back after touching blocks start .. start + len - 1. */
  function WrittenBack(start: nat, len: nat, blockSize: nat): set<nat>
    requires blockSize > 0
  {
    Blocks(start / 8 / blockSize + 1, len / 8 / blockSize + 1)
  }

  /** The bitmap block that holds the bit of block p; block 0 is the superblock. */
  function BitmapBlockOf(p: nat, blockSize: nat): nat
    requires blockSize > 0
  {
    p / 8 / blockSize + 1
  }

  /** Where the last of len things from start on lies, when they are grouped by d. */
  lemma LastPlace(start: nat, len: nat, d: nat)
    requires d > 0 && len > 0
    ensures var r, m := start % d, len % d;
            (start + len - 1) / d == start / d + len / d + if r + m == 0 then -1 else if r + m <= d then 0 else 1
  {
    SumPlace(start + len - 1, start / d, start % d, len / d, len % d, d);
  }

  lemma SumPlace(x: nat, a: nat, r: nat, q: nat, m: nat, d: nat)
    requires r < d && m < d && x == a * d + r + (q * d + m) - 1
    ensures x / d == a + q + if r + m == 0 then -1 else if r + m <= d then 0 else 1
  {
    if r + m == 0 {
      Distribute(a, q, -1, d);
      DivUnique(x, d, a + q - 1, d - 1);
    } else if r + m <= d {
      Distribute(a, q, 0, d);
      DivUnique(x, d, a + q, r + m - 1);
    } else {
      Distribute(a, q, 1, d);
      DivUnique(x, d, a + q + 1, r + m - 1 - d);
    }
  }

  lemma Distribute(a: int, q: int, e: int, d: int)
    ensures (a + q + e) * d == a * d + q * d + e * d
  {
  }

  /** The write-back reaches every bitmap block that changed, exactly when the run's offset in its bitmap
      block and its length modulo one bitmap block do not add up to more than a bitmap block. */
  lemma WriteBackCovers(start: nat, len: nat, blockSize: nat)
    requires blockSize > 0 && len > 0
    ensures var perBlock := 8 * blockSize;
            (forall p: nat :: start <= p < start + len ==> BitmapBlockOf(p, blockSize) in WrittenBack(start, len, blockSize))
            <==> start % perBlock + len % perBlock <= perBlock
  {
    var perBlock := 8 * blockSize;
    forall x: nat ensures x / 8 / blockSize == x / perBlock { DivDiv(x, 8, blockSize); }
    var a, r, q, m := start / perBlock, start % perBlock, len / perBlock, len % perBlock;
    var last := start + len - 1;
    LastPlace(start, len, perBlock);
    forall p: nat | start <= p < start + len ensures a <= p / perBlock <= last / perBlock {
      DivMono(start, p, perBlock);
      DivMono(p, last, perBlock);
    }
    if r + m > perBlock {
      assert BitmapBlockOf(last, blockSize) !in WrittenBack(start, len, blockSize);
    }
  }
}
