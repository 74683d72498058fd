/** The bit vector behind the free-block map (bitvector.c).

    A chunk is a 32-bit machine word, kept here as its 32 bits; `chunk == ~0` is
    "every bit is set".  Bit p of the vector is bit p % 32 of chunk p / 32. */
module BitVectors {
  import opened Arithmetic

  const BITS_IN_CHUNK: nat := 32

  type Chunk = s: seq<bool> | |s| == BITS_IN_CHUNK witness seq(BITS_IN_CHUNK, _ => false)

  const ALL_ONES: Chunk := seq(BITS_IN_CHUNK, _ => true)

  /** Number of chunks needed for `numbits` bits. */
  function ChunkCount(numbits: nat): nat {
    numbits / BITS_IN_CHUNK + if numbits % BITS_IN_CHUNK != 0 then 1 else 0
  }

  /** Bit p of the vector. */
  predicate At(c: seq<Chunk>, p: nat)
    requires p < BITS_IN_CHUNK * |c|
  {
    c[p / BITS_IN_CHUNK][p % BITS_IN_CHUNK]
  }

  lemma AtIs(c: seq<Chunk>, n: nat, j: nat)
    requires n < |c| && j < BITS_IN_CHUNK
    ensures At(c, BITS_IN_CHUNK * n + j) == c[n][j]
  {
    assert (BITS_IN_CHUNK * n + j) / BITS_IN_CHUNK == n && (BITS_IN_CHUNK * n + j) % BITS_IN_CHUNK == j;
  }

  /** The bits of c other than those in [lo, lo + len) are those of c0; the ones inside are v. */
  ghost predicate RangeSetTo(c0: seq<Chunk>, c: seq<Chunk>, lo: nat, len: nat, v: bool) {
    && |c| == |c0|
    && forall p: nat :: p < BITS_IN_CHUNK * |c| ==> At(c, p) == if lo <= p < lo + len then v else At(c0, p)
  }

  /** The bit behind a run just taken is remembered if it is free. */
  ghost predicate Remembers(c: seq<Chunk>, numbits: nat, end: nat, was: nat, now: nat)
    requires ChunkCount(numbits) <= |c|
  {
    now == if end < BITS_IN_CHUNK * ChunkCount(numbits) && !At(c, end) then end else was
  }

  /** The bits past the end of the vector are clear. */
  ghost predicate PaddingClear(c: seq<Chunk>, numbits: nat) {
    forall p: nat :: numbits <= p < BITS_IN_CHUNK * |c| ==> !At(c, p)
  }

  /** A free run of len bits starts at p and lies inside the vector. */
  ghost predicate RunAt(c: seq<Chunk>, numbits: nat, len: int, p: nat)
    requires numbits <= BITS_IN_CHUNK * |c|
  {
    p + len <= numbits && forall q: nat :: p <= q < p + len ==> !At(c, q)
  }

  /** No free run of len bits starts in [lo, hi). */
  ghost predicate NoRun(c: seq<Chunk>, numbits: nat, len: int, lo: nat, hi: nat)
    requires numbits <= BITS_IN_CHUNK * |c|
  {
    forall p: nat :: lo <= p < hi ==> !RunAt(c, numbits, len, p)
  }

  /** p is the lowest start, from lo on, of a free run of len bits. */
  ghost predicate LowestRun(c: seq<Chunk>, numbits: nat, len: int, lo: nat, p: nat)
    requires numbits <= BITS_IN_CHUNK * |c|
  {
    lo <= p && RunAt(c, numbits, len, p) && NoRun(c, numbits, len, lo, p)
  }

  /** A search that starts in chunk b jumps over chunk 0 when it wraps around.

      The jump taken when a run hits the end of the vector moves past the last chunk, except when the
      vector ends inside its last chunk and that final run began in an earlier one. */
  ghost predicate SkipsFirstChunk(c: seq<Chunk>, numbits: nat, b: nat)
    requires 0 < numbits <= BITS_IN_CHUNK * |c|
  {
    var last := ChunkCount(numbits) - 1;
    if numbits % BITS_IN_CHUNK == 0 then
      !At(c, numbits - 1)
    else
      !(b < last && forall q: nat :: BITS_IN_CHUNK * last - 1 <= q < numbits ==> !At(c, q))
  }

  /** The lowest bit examined after the search has wrapped around. */
  ghost function WrapStart(c: seq<Chunk>, numbits: nat, b: nat): nat
    requires 0 < numbits <= BITS_IN_CHUNK * |c|
  {
    if SkipsFirstChunk(c, numbits, b) then BITS_IN_CHUNK else 0
  }

  /** A search that starts in chunk b considers runs that start at bit p. */
  ghost predicate Visited(c: seq<Chunk>, numbits: nat, b: nat, p: nat)
    requires 0 < numbits <= BITS_IN_CHUNK * |c|
  {
    p >= BITS_IN_CHUNK * b || p >= WrapStart(c, numbits, b)
  }

  /** The outcome of a search for len bits that starts in chunk b: the lowest run from chunk b on,
      else the lowest run from the wrap-around start on, else -1. */
  ghost predicate SearchResult(c: seq<Chunk>, numbits: nat, len: int, b: nat, r: int)
    requires 0 < numbits <= BITS_IN_CHUNK * |c|
  {
    if r < 0 then
      && r == -1
      && NoRun(c, numbits, len, BITS_IN_CHUNK * b, numbits)
      && NoRun(c, numbits, len, WrapStart(c, numbits, b), numbits)
    else
      || LowestRun(c, numbits, len, BITS_IN_CHUNK * b, r)
      || (NoRun(c, numbits, len, BITS_IN_CHUNK * b, numbits) && LowestRun(c, numbits, len, WrapStart(c, numbits, b), r))
  }

  /** The chunk a search starts in. */
  function BaseChunk(numbits: nat, nextFree: nat): nat
    requires 0 < numbits
  {
    (nextFree / BITS_IN_CHUNK) % ChunkCount(numbits)
  }

  /** One more than the longest run seen so far, at least 1. */
  function Longer(maxFree: int): nat {
    if maxFree > 0 then maxFree + 1 else 1
  }

  /** What a failed search has established about its longest run. */
  ghost predicate LongestExamined(c: seq<Chunk>, numbits: nat, b: nat, biggest: int)
    requires 0 < numbits <= BITS_IN_CHUNK * |c|
  {
    && NoRun(c, numbits, Longer(biggest), BITS_IN_CHUNK * b, numbits)
    && NoRun(c, numbits, Longer(biggest), WrapStart(c, numbits, b), numbits)
    && (biggest > 0 ==> exists p: nat :: Visited(c, numbits, b, p) && RunAt(c, numbits, biggest, p))
  }

  /** Before the search wraps: it stands at bit v, right behind a set bit or at its very start. */
  ghost predicate Passed(c: seq<Chunk>, numbits: nat, len: nat, b: nat, v: nat)
    requires numbits <= BITS_IN_CHUNK * |c|
  {
    && BITS_IN_CHUNK * b <= v <= BITS_IN_CHUNK * |c|
    && NoRun(c, numbits, len, BITS_IN_CHUNK * b, v)
    && (v == BITS_IN_CHUNK * b || At(c, v - 1))
  }

  /** After the search has wrapped: it stands at bit v, right behind a set bit or at its very start.  It has gone
      on behind the chunks to visit only where a free run led it over the boundary. */
  ghost predicate Wrapped(c: seq<Chunk>, numbits: nat, len: nat, b: nat, v: nat)
    requires 0 < numbits <= BITS_IN_CHUNK * |c|
  {
    && NoRun(c, numbits, len, BITS_IN_CHUNK * b, numbits)
    && NoRun(c, numbits, len, WrapStart(c, numbits, b), v)
    && WrapStart(c, numbits, b) <= v <= BITS_IN_CHUNK * |c|
    && WrapStart(c, numbits, b) < BITS_IN_CHUNK * b
    && (v == WrapStart(c, numbits, b) || At(c, v - 1))
    && LedOver(c, b, v)
  }

  /** A free run led the search over each boundary between chunks from b on that it has passed. */
  ghost predicate LedOver(c: seq<Chunk>, b: nat, v: nat)
    requires v <= BITS_IN_CHUNK * |c|
  {
    forall m: nat {:trigger BITS_IN_CHUNK * m} :: b <= m && 0 < BITS_IN_CHUNK * m < v ==> !At(c, BITS_IN_CHUNK * m - 1)
  }

  ghost predicate AllSet(c: seq<Chunk>, v: nat)
    requires v <= BITS_IN_CHUNK * |c|
  {
    forall p: nat :: p < v ==> At(c, p)
  }

  /** The set bits in [lo, hi) that the search counts: not the one behind a free run, over which it steps with it. */
  ghost function Tallied(c: seq<Chunk>, lo: nat, hi: nat): nat
    requires hi <= BITS_IN_CHUNK * |c|
  {
    if hi <= lo then 0
    else Tallied(c, lo, hi - 1) + if At(c, hi - 1) && (hi - 1 == lo || At(c, hi - 2)) then 1 else 0
  }

  /** Where a search ends that has wrapped around and comes to the end of chunk m - 1: there, unless a free run leads
      on over the boundary. */
  ghost function RecountEnd(c: seq<Chunk>, numbits: nat, m: nat): (e: nat)
    requires 0 < m && numbits <= BITS_IN_CHUNK * |c|
    ensures e <= numbits
    decreases numbits - BITS_IN_CHUNK * m
  {
    if BITS_IN_CHUNK * m > numbits then numbits
    else if At(c, BITS_IN_CHUNK * m - 1) then BITS_IN_CHUNK * m
    else RecountEnd(c, numbits, m + 1)
  }

  /** What a search from chunk b has counted when it fails. */
  ghost function TotalTally(c: seq<Chunk>, numbits: nat, b: nat): nat
    requires 0 < numbits <= BITS_IN_CHUNK * |c|
  {
    Tallied(c, BITS_IN_CHUNK * b, numbits)
    + if WrapStart(c, numbits, b) < BITS_IN_CHUNK * b then Tallied(c, WrapStart(c, numbits, b), RecountEnd(c, numbits, b)) else 0
  }

  /** What it has counted when it stands at bit v. */
  ghost function TallyAt(c: seq<Chunk>, numbits: nat, b: nat, wrapped: bool, v: nat): nat
    requires 0 < numbits <= BITS_IN_CHUNK * |c| && v <= BITS_IN_CHUNK * |c|
  {
    if wrapped then Tallied(c, BITS_IN_CHUNK * b, numbits) + Tallied(c, WrapStart(c, numbits, b), v)
    else Tallied(c, BITS_IN_CHUNK * b, v)
  }

  /** The search stands at bit v with maxFree and nz computed so far, before or after wrapping. */
  ghost predicate Standing(c: seq<Chunk>, numbits: nat, b: nat, wrapped: bool, v: nat, maxFree: int, nz: int)
    requires 0 < numbits <= BITS_IN_CHUNK * |c|
  {
    && (maxFree > 0 ==> exists p: nat :: Visited(c, numbits, b, p) && RunAt(c, numbits, maxFree, p))
    && (if wrapped then Wrapped(c, numbits, Longer(maxFree), b, v) else Passed(c, numbits, Longer(maxFree), b, v))
    && nz == TallyAt(c, numbits, b, wrapped, v)
  }

  /** The search does not go into another chunk behind those to visit after it has wrapped. */
  ghost predicate Inside(b: nat, wrapped: bool, v: nat) {
    wrapped && v % BITS_IN_CHUNK == 0 ==> v < BITS_IN_CHUNK * b
  }

  /** The state of the search at the top of its loop over chunks, i chunks past chunk b. */
  ghost predicate AtChunk(c: seq<Chunk>, numbits: nat, b: nat, i: nat, maxFree: int, nz: int)
    requires 0 < numbits <= BITS_IN_CHUNK * |c|
  {
    var count := ChunkCount(numbits);
    if b + i < count then
      Standing(c, numbits, b, false, BITS_IN_CHUNK * (b + i), maxFree, nz)
    else if i < count then
      && (b + i == count ==> !SkipsFirstChunk(c, numbits, b))
      && Standing(c, numbits, b, true, BITS_IN_CHUNK * (b + i - count), maxFree, nz)
    else
      LongestExamined(c, numbits, b, maxFree) && nz == TotalTally(c, numbits, b)
  }

  lemma {:induction false} TalliedBound(c: seq<Chunk>, lo: nat, hi: nat)
    requires lo <= hi <= BITS_IN_CHUNK * |c|
    ensures Tallied(c, lo, hi) <= hi - lo
    ensures Tallied(c, lo, hi) == hi - lo <==> forall p: nat :: lo <= p < hi ==> At(c, p)
  {
    hide At;
    if lo < hi {
      TalliedBound(c, lo, hi - 1);
    }
  }

  lemma {:induction false} TalliedFree(c: seq<Chunk>, lo: nat, s: nat, hi: nat)
    requires lo <= s <= hi <= BITS_IN_CHUNK * |c| && forall p: nat :: s <= p < hi ==> !At(c, p)
    ensures Tallied(c, lo, hi) == Tallied(c, lo, s)
  {
    hide At;
    if s < hi {
      TalliedFree(c, lo, s, hi - 1);
    }
  }

  lemma {:induction false} TalliedSet(c: seq<Chunk>, lo: nat, v: nat, hi: nat)
    requires lo <= v <= hi <= BITS_IN_CHUNK * |c| && forall p: nat :: v <= p < hi ==> At(c, p)
    requires v == lo || At(c, v - 1)
    ensures Tallied(c, lo, hi) == Tallied(c, lo, v) + (hi - v)
  {
    hide At;
    if v < hi {
      TalliedSet(c, lo, v, hi - 1);
    }
  }

  /** The first boundary from chunk m on that no free run leads over. */
  lemma {:induction false} RecountEndIs(c: seq<Chunk>, numbits: nat, m: nat, e: nat)
    requires 0 < m && numbits <= BITS_IN_CHUNK * |c| && e <= numbits
    requires forall k: nat {:trigger BITS_IN_CHUNK * k} :: m <= k && BITS_IN_CHUNK * k < e ==> !At(c, BITS_IN_CHUNK * k - 1)
    requires if e == numbits then forall k: nat {:trigger BITS_IN_CHUNK * k} :: m <= k && BITS_IN_CHUNK * k < numbits ==> !At(c, BITS_IN_CHUNK * k - 1)
             else exists k: nat {:trigger BITS_IN_CHUNK * k} :: m <= k && e == BITS_IN_CHUNK * k && At(c, e - 1)
    ensures RecountEnd(c, numbits, m) == e
    decreases numbits - BITS_IN_CHUNK * m
  {
    hide At;
    if BITS_IN_CHUNK * m < e {
      RecountEndIs(c, numbits, m + 1, e);
    }
  }

  lemma BeginIs(base: nat, i: nat, count: nat)
    requires i < count
    ensures var b := base % count; (base + i) % count == if b + i < count then b + i else b + i - count
  {
    var b := base % count;
    var q := base / count;
    assert base + i == q * count + (b + i);
    if b + i < count {
      DivUnique(base + i, count, q, b + i);
    } else {
      assert base + i == (q + 1) * count + (b + i - count);
      DivUnique(base + i, count, q + 1, b + i - count);
    }
  }

  lemma FullChunk(c: seq<Chunk>, n: nat)
    requires n < |c| && c[n] == ALL_ONES
    ensures forall p: nat :: BITS_IN_CHUNK * n <= p < BITS_IN_CHUNK * (n + 1) ==> At(c, p)
  {
  }

  /** A longer run contains a shorter one. */
  lemma NoRunWeaken(c: seq<Chunk>, numbits: nat, short: nat, long: nat, lo: nat, hi: nat)
    requires numbits <= BITS_IN_CHUNK * |c| && short <= long
    requires NoRun(c, numbits, short, lo, hi)
    ensures NoRun(c, numbits, long, lo, hi)
  {
    forall p: nat | lo <= p < hi ensures RunAt(c, numbits, long, p) ==> RunAt(c, numbits, short, p) {
    }
  }

  /** The free run that starts at s is k bits long: no longer run starts in it, nor at the bit that ends it. */
  lemma RunEnds(c: seq<Chunk>, numbits: nat, len: nat, s: nat, k: nat)
    requires numbits <= BITS_IN_CHUNK * |c| && k < len
    requires s + k >= numbits || At(c, s + k)
    ensures NoRun(c, numbits, len, s, s + k + 1)
    ensures s + k >= numbits ==> forall hi: nat {:trigger NoRun(c, numbits, len, s, hi)} :: NoRun(c, numbits, len, s, hi)
  {
    forall p: nat | s <= p <= s + k ensures !RunAt(c, numbits, len, p) {
      if p + len <= numbits && s + k < numbits {
        var q := s + k;
        assert p <= q < p + len && At(c, q);
      }
    }
    if s + k >= numbits {
      forall hi: nat ensures NoRun(c, numbits, len, s, hi) {
      }
    }
  }

  /** Where the search goes when, before wrapping, the free run from bit s on reaches the end of the vector. */
  lemma JumpAtEnd(c: seq<Chunk>, numbits: nat, len: nat, b: nat, s: nat, n: nat)
    requires 0 < numbits <= BITS_IN_CHUNK * |c| && b < ChunkCount(numbits)
    requires Passed(c, numbits, len, b, s) && s < BITS_IN_CHUNK * ChunkCount(numbits)
    requires PaddingClear(c, numbits)
    requires forall p: nat :: s <= p < numbits ==> !At(c, p)
    requires n == if s < numbits then numbits / BITS_IN_CHUNK else s / BITS_IN_CHUNK
    ensures n > s / BITS_IN_CHUNK ==>
              && ChunkCount(numbits) - 1 <= n <= ChunkCount(numbits)
              && (n == ChunkCount(numbits) <==> SkipsFirstChunk(c, numbits, b))
    ensures n <= s / BITS_IN_CHUNK ==>
              n == s / BITS_IN_CHUNK == ChunkCount(numbits) - 1 && SkipsFirstChunk(c, numbits, b)
  {
    var count := ChunkCount(numbits);
    if numbits % BITS_IN_CHUNK == 0 {
      assert s < numbits && !At(c, numbits - 1);
    } else if n > s / BITS_IN_CHUNK {
      assert s <= BITS_IN_CHUNK * (count - 1) - 1;
    } else {
      if b < count - 1 {
        assert At(c, s - 1);
        assert s > BITS_IN_CHUNK * (count - 1) - 1;
      }
    }
  }

  lemma SearchStarts(c: seq<Chunk>, numbits: nat, b: nat)
    requires 0 < numbits <= BITS_IN_CHUNK * |c| && b < ChunkCount(numbits) && ChunkCount(numbits) <= |c|
    ensures AtChunk(c, numbits, b, 0, -1, 0)
  {
  }

  lemma ChunkStarts(c: seq<Chunk>, numbits: nat, b: nat, i: nat, maxFree: int, nz: int)
    requires 0 < numbits <= BITS_IN_CHUNK * |c| && i < ChunkCount(numbits)
    requires AtChunk(c, numbits, b, i, maxFree, nz)
    ensures var wrapped := b + i >= ChunkCount(numbits);
            Standing(c, numbits, b, wrapped, BITS_IN_CHUNK * if wrapped then b + i - ChunkCount(numbits) else b + i, maxFree, nz)
  {
  }

  lemma LedFurther(c: seq<Chunk>, b: nat, v: nat, v': nat)
    requires v < v' <= BITS_IN_CHUNK * |c| && LedOver(c, b, v) && Inside(b, true, v)
    requires forall p: nat :: v <= p < v' - 1 ==> !At(c, p)
    ensures LedOver(c, b, v')
  {
    forall m: nat {:trigger BITS_IN_CHUNK * m} | b <= m && 0 < BITS_IN_CHUNK * m < v' ensures !At(c, BITS_IN_CHUNK * m - 1) {
      assert (BITS_IN_CHUNK * m) % BITS_IN_CHUNK == 0;
    }
  }

  /** The search steps over a set bit. */
  lemma StepOverSetBit(c: seq<Chunk>, numbits: nat, b: nat, wrapped: bool, v: nat, maxFree: int, nz: int)
    requires 0 < numbits <= BITS_IN_CHUNK * |c| && PaddingClear(c, numbits)
    requires v < BITS_IN_CHUNK * |c| && At(c, v)
    requires Standing(c, numbits, b, wrapped, v, maxFree, nz) && Inside(b, wrapped, v)
    ensures Standing(c, numbits, b, wrapped, v + 1, maxFree, nz + 1)
  {
    RunEnds(c, numbits, Longer(maxFree), v, 0);
    hide At, WrapStart, LedOver, RunAt, PaddingClear;
    if wrapped {
      LedFurther(c, b, v, v + 1);
    }
  }

  /** The search steps over a free run of k bits, which a set bit ends. */
  lemma StepOverRun(c: seq<Chunk>, numbits: nat, b: nat, wrapped: bool, s: nat, k: nat, maxFree: int, nz: int)
    requires 0 < numbits <= BITS_IN_CHUNK * |c| && 0 < k
    requires Standing(c, numbits, b, wrapped, s, maxFree, nz) && Inside(b, wrapped, s)
    requires RunAt(c, numbits, k, s) && s + k < numbits && At(c, s + k)
    ensures Standing(c, numbits, b, wrapped, s + k + 1, if k > maxFree then k else maxFree, nz)
  {
    var m := if k > maxFree then k else maxFree;
    assert Visited(c, numbits, b, s);
    WeakenStanding(c, numbits, b, wrapped, s, maxFree, nz, m);
    RunEnds(c, numbits, Longer(m), s, k);
    TalliedFree(c, if wrapped then WrapStart(c, numbits, b) else BITS_IN_CHUNK * b, s, s + k);
    assert !At(c, s + k - 1);
    if wrapped {
      LedFurther(c, b, s, s + k + 1);
    }
    hide At, WrapStart, LedOver, RunAt, Visited;
  }

  lemma WeakenStanding(c: seq<Chunk>, numbits: nat, b: nat, wrapped: bool, s: nat, maxFree: int, nz: int, m: int)
    requires 0 < numbits <= BITS_IN_CHUNK * |c| && maxFree <= m
    requires Standing(c, numbits, b, wrapped, s, maxFree, nz)
    requires m > 0 ==> exists p: nat :: Visited(c, numbits, b, p) && RunAt(c, numbits, m, p)
    ensures Standing(c, numbits, b, wrapped, s, m, nz)
  {
    hide At, WrapStart, LedOver, RunAt, Visited, TallyAt, NoRun;
    var lo := if wrapped then WrapStart(c, numbits, b) else BITS_IN_CHUNK * b;
    NoRunWeaken(c, numbits, Longer(maxFree), Longer(m), lo, s);
    if wrapped {
      NoRunWeaken(c, numbits, Longer(maxFree), Longer(m), BITS_IN_CHUNK * b, numbits);
    }
  }

  /** The free run of k bits at bit s reaches the end of the vector; n is the chunk of the position reached. */
  lemma RunHitsEnd(c: seq<Chunk>, numbits: nat, b: nat, wrapped: bool, i: nat, s: nat, k: nat, n: nat, maxFree: int, nz: int)
    requires 0 < numbits <= BITS_IN_CHUNK * |c| && b < ChunkCount(numbits) <= |c|
    requires PaddingClear(c, numbits)
    requires Standing(c, numbits, b, wrapped, s, maxFree, nz) && s < BITS_IN_CHUNK * ChunkCount(numbits) && Inside(b, wrapped, s)
    requires s / BITS_IN_CHUNK == if wrapped then b + i - ChunkCount(numbits) else b + i
    requires (k > 0 ==> RunAt(c, numbits, k, s)) && s + k >= numbits && !At(c, s)
    requires n == (s + k) / BITS_IN_CHUNK && (s >= numbits ==> k == 0)
    ensures AtChunk(c, numbits, b, 1 + if n > s / BITS_IN_CHUNK then i + (n - s / BITS_IN_CHUNK) else i + 1,
                    if k > maxFree then k else maxFree, nz)
  {
    var m := if k > maxFree then k else maxFree;
    assert Visited(c, numbits, b, s);
    WeakenStanding(c, numbits, b, wrapped, s, maxFree, nz, m);
    RunEnds(c, numbits, Longer(m), s, k);
    assert NoRun(c, numbits, Longer(m), s, numbits);
    TallyToEnd(c, numbits, b, wrapped, s, maxFree, nz);
    hide TallyAt, TotalTally, LedOver, Tallied, RecountEnd, RunAt, At, Visited;
    if wrapped {
      WrappedEnds(c, numbits, b, i, s, k, n);
    } else {
      JumpsOn(c, numbits, Longer(m), b, i, s, k, n);
    }
  }

  lemma WrappedEnds(c: seq<Chunk>, numbits: nat, b: nat, i: nat, s: nat, k: nat, n: nat)
    requires 0 < numbits && b < ChunkCount(numbits) && s < BITS_IN_CHUNK * ChunkCount(numbits) && s + k >= numbits
    requires s / BITS_IN_CHUNK == b + i - ChunkCount(numbits) && n == (s + k) / BITS_IN_CHUNK
    ensures 1 + (if n > s / BITS_IN_CHUNK then i + (n - s / BITS_IN_CHUNK) else i + 1) >= ChunkCount(numbits)
  {
  }

  /** Before wrapping, the search goes on in chunk 0, or in chunk 1 if it skips that, unless it has begun there. */
  lemma JumpsOn(c: seq<Chunk>, numbits: nat, len: nat, b: nat, i: nat, s: nat, k: nat, n: nat)
    requires 0 < numbits <= BITS_IN_CHUNK * |c| && b < ChunkCount(numbits) && PaddingClear(c, numbits)
    requires Passed(c, numbits, len, b, s) && s < BITS_IN_CHUNK * ChunkCount(numbits) && s / BITS_IN_CHUNK == b + i
    requires (k > 0 ==> RunAt(c, numbits, k, s)) && s + k >= numbits && n == (s + k) / BITS_IN_CHUNK && (s >= numbits ==> k == 0)
    ensures var i' := 1 + if n > s / BITS_IN_CHUNK then i + (n - s / BITS_IN_CHUNK) else i + 1;
      && b + i' == (if SkipsFirstChunk(c, numbits, b) then ChunkCount(numbits) + 1 else ChunkCount(numbits))
      && (i' >= ChunkCount(numbits) <==> WrapStart(c, numbits, b) >= BITS_IN_CHUNK * b)
      && (i' < ChunkCount(numbits) ==> BITS_IN_CHUNK * (b + i' - ChunkCount(numbits)) == WrapStart(c, numbits, b))
  {
    JumpAtEnd(c, numbits, len, b, s, n);
    hide SkipsFirstChunk, NoRun;
  }

  /** Nothing more is counted up to the end of the vector. */
  lemma TallyToEnd(c: seq<Chunk>, numbits: nat, b: nat, wrapped: bool, s: nat, maxFree: int, nz: int)
    requires 0 < numbits <= BITS_IN_CHUNK * |c| && PaddingClear(c, numbits)
    requires Standing(c, numbits, b, wrapped, s, maxFree, nz) && Inside(b, wrapped, s)
    requires forall p: nat :: s <= p < numbits ==> !At(c, p)
    ensures wrapped ==> nz == TotalTally(c, numbits, b)
    ensures !wrapped && WrapStart(c, numbits, b) >= BITS_IN_CHUNK * b ==> nz == TotalTally(c, numbits, b)
    ensures !wrapped && WrapStart(c, numbits, b) < BITS_IN_CHUNK * b ==> nz == TallyAt(c, numbits, b, true, WrapStart(c, numbits, b))
  {
    var lo := if wrapped then WrapStart(c, numbits, b) else BITS_IN_CHUNK * b;
    Overshoot(c, numbits, lo, s);
    if wrapped {
      assert s > numbits ==> !At(c, s - 1);
      forall k: nat {:trigger BITS_IN_CHUNK * k} | b <= k && BITS_IN_CHUNK * k < numbits ensures !At(c, BITS_IN_CHUNK * k - 1) {
        WholeChunks(k);
      }
      RecountEndIs(c, numbits, b, numbits);
    }
  }

  lemma WholeChunks(k: nat)
    ensures BITS_IN_CHUNK * k % BITS_IN_CHUNK == 0
  {
  }

  /** Behind the end of the vector, nothing is set. */
  lemma Overshoot(c: seq<Chunk>, numbits: nat, lo: nat, s: nat)
    requires numbits <= BITS_IN_CHUNK * |c| && s <= BITS_IN_CHUNK * |c| && PaddingClear(c, numbits)
    requires forall p: nat :: s <= p < numbits ==> !At(c, p)
    ensures Tallied(c, lo, s) == Tallied(c, lo, numbits)
  {
    if lo <= s <= numbits {
      TalliedFree(c, lo, s, numbits);
    } else if lo <= numbits < s {
      TalliedFree(c, lo, numbits, s);
    } else if s < lo <= numbits {
      TalliedFree(c, lo, lo, numbits);
    } else if numbits < lo <= s {
      TalliedFree(c, lo, lo, s);
    }
  }

  /** The search runs off the end of chunk b + i (modulo the wrap). */
  lemma NextChunk(c: seq<Chunk>, numbits: nat, b: nat, wrapped: bool, i: nat, maxFree: int, nz: int)
    requires 0 < numbits <= BITS_IN_CHUNK * |c| && b < ChunkCount(numbits)
    requires PaddingClear(c, numbits)
    requires wrapped ==> b + i >= ChunkCount(numbits)
    requires !wrapped ==> b + i < ChunkCount(numbits)
    requires var v := BITS_IN_CHUNK * (1 + if wrapped then b + i - ChunkCount(numbits) else b + i);
      Standing(c, numbits, b, wrapped, v, maxFree, nz) && At(c, v - 1)
    ensures AtChunk(c, numbits, b, i + 1, maxFree, nz)
  {
    var count := ChunkCount(numbits);
    var v := BITS_IN_CHUNK * (1 + if wrapped then b + i - count else b + i);
    assert v <= numbits;
    if !wrapped && b + i + 1 == count {
      assert v == numbits;
      if b > 0 {
        hide NoRun, LedOver, RunAt;
        WrapsToStart(c, numbits, b, maxFree, nz);
      }
    } else if wrapped && i + 1 >= count {
      RecountEndIs(c, numbits, b, v);
    }
  }

  lemma WrapsToStart(c: seq<Chunk>, numbits: nat, b: nat, maxFree: int, nz: int)
    requires 0 < numbits <= BITS_IN_CHUNK * |c| && 0 < b < ChunkCount(numbits) && numbits % BITS_IN_CHUNK == 0 && At(c, numbits - 1)
    requires Standing(c, numbits, b, false, numbits, maxFree, nz)
    ensures !SkipsFirstChunk(c, numbits, b) && Standing(c, numbits, b, true, 0, maxFree, nz)
  {
  }

  /** Every bit of a full chunk is set. */
  lemma StepOverChunk(c: seq<Chunk>, numbits: nat, b: nat, wrapped: bool, n: nat, maxFree: int, nz: int)
    requires 0 < numbits <= BITS_IN_CHUNK * |c| && n < |c| && c[n] == ALL_ONES
    requires PaddingClear(c, numbits)
    requires Standing(c, numbits, b, wrapped, BITS_IN_CHUNK * n, maxFree, nz) && Inside(b, wrapped, BITS_IN_CHUNK * n)
    ensures Standing(c, numbits, b, wrapped, BITS_IN_CHUNK * (n + 1), maxFree, nz + BITS_IN_CHUNK)
    ensures At(c, BITS_IN_CHUNK * (n + 1) - 1)
  {
    ChunkFacts(c, numbits, b, wrapped, n, Longer(maxFree));
    hide At, TallyAt, WrapStart, LedOver, RunAt, PaddingClear, Tallied, Longer;
  }

  lemma ChunkFacts(c: seq<Chunk>, numbits: nat, b: nat, wrapped: bool, n: nat, len: nat)
    requires 0 < numbits <= BITS_IN_CHUNK * |c| && n < |c| && c[n] == ALL_ONES && len > 0
    requires var v, lo := BITS_IN_CHUNK * n, if wrapped then WrapStart(c, numbits, b) else BITS_IN_CHUNK * b;
      lo <= v && (v == lo || At(c, v - 1)) && (wrapped ==> v < BITS_IN_CHUNK * b && LedOver(c, b, v))
    ensures var v, end := BITS_IN_CHUNK * n, BITS_IN_CHUNK * (n + 1);
      && At(c, end - 1) && NoRun(c, numbits, len, v, end) && (wrapped ==> LedOver(c, b, end))
      && TallyAt(c, numbits, b, wrapped, end) == TallyAt(c, numbits, b, wrapped, v) + BITS_IN_CHUNK
  {
    FullChunk(c, n);
    var v, end := BITS_IN_CHUNK * n, BITS_IN_CHUNK * (n + 1);
    TalliedSet(c, if wrapped then WrapStart(c, numbits, b) else BITS_IN_CHUNK * b, v, end);
    hide Tallied, WrapStart;
    forall p: nat | v <= p < end ensures !RunAt(c, numbits, len, p) {
      assert At(c, p);
    }
  }

  /** A run of len bits found where the search stands is the result of the search. */
  lemma FoundHere(c: seq<Chunk>, numbits: nat, b: nat, wrapped: bool, s: nat, len: nat, maxFree: int, nz: int)
    requires 0 < numbits <= BITS_IN_CHUNK * |c| && maxFree < len && 0 < len
    requires Standing(c, numbits, b, wrapped, s, maxFree, nz) && RunAt(c, numbits, len, s)
    ensures SearchResult(c, numbits, len, b, s) && s + len <= numbits
  {
    if wrapped {
      NoRunWeaken(c, numbits, Longer(maxFree), len, WrapStart(c, numbits, b), s);
      NoRunWeaken(c, numbits, Longer(maxFree), len, BITS_IN_CHUNK * b, numbits);
    } else {
      NoRunWeaken(c, numbits, Longer(maxFree), len, BITS_IN_CHUNK * b, s);
    }
  }

  /** The search has examined every chunk it visits and found no run of len bits. */
  lemma SearchFailed(c: seq<Chunk>, numbits: nat, b: nat, i: nat, len: nat, maxFree: int, nz: int)
    requires 0 < numbits <= BITS_IN_CHUNK * |c| && b < ChunkCount(numbits) <= i && maxFree < len && 0 < len
    requires AtChunk(c, numbits, b, i, maxFree, nz)
    ensures SearchResult(c, numbits, len, b, -1) && LongestExamined(c, numbits, b, maxFree)
    ensures nz == TotalTally(c, numbits, b)
  {
    NoRunWeaken(c, numbits, Longer(maxFree), len, BITS_IN_CHUNK * b, numbits);
    NoRunWeaken(c, numbits, Longer(maxFree), len, WrapStart(c, numbits, b), numbits);
  }

  /** Exactly when a search overlooks free runs: it started past chunk 0, jumped over it on wrapping around,
      and every run of the wanted length starts there. */
  lemma SearchOverlooks(c: seq<Chunk>, numbits: nat, len: nat, b: nat, r: int)
    requires 0 < numbits <= BITS_IN_CHUNK * |c| && 0 < len
    requires SearchResult(c, numbits, len, b, r)
    ensures (r < 0 && exists p: nat :: RunAt(c, numbits, len, p)) <==>
            && (exists p: nat :: RunAt(c, numbits, len, p))
            && b > 0 && SkipsFirstChunk(c, numbits, b)
            && forall p: nat :: RunAt(c, numbits, len, p) ==> p < BITS_IN_CHUNK
  {
    forall p: nat | RunAt(c, numbits, len, p) ensures p < numbits {
    }
  }

  /** Where a search looks first, in terms of next_free: if a run of len free bits starts at or behind the first bit of
      the 32 that next_free is among, the lowest such run is the result; if not, the lowest in front of them, with or without those in the first 32. */
  ghost predicate FromNextFree(c: seq<Chunk>, numbits: nat, len: int, nextFree: nat, r: int)
    requires numbits <= 32 * |c|
  {
    var first := nextFree / 32 * 32;
    if exists p: nat :: first <= p && RunAt(c, numbits, len, p) then
      first <= r && RunAt(c, numbits, len, r) && forall p: nat :: first <= p < r ==> !RunAt(c, numbits, len, p)
    else
      r >= 0 ==> r < first && RunAt(c, numbits, len, r) && forall p: nat :: 32 <= p < r ==> !RunAt(c, numbits, len, p)
  }

  lemma BaseIs(numbits: nat, nextFree: nat)
    requires 0 < numbits && nextFree < (numbits + 31) / 32 * 32
    ensures nextFree / 32 < ChunkCount(numbits) && BaseChunk(numbits, nextFree) == nextFree / 32
  {
    assert nextFree / 32 < ChunkCount(numbits);
    DivUnique(nextFree / 32, ChunkCount(numbits), 0, nextFree / 32);
  }

  lemma SearchesFromNextFree(c: seq<Chunk>, numbits: nat, len: int, nextFree: nat, r: int)
    requires 0 < numbits <= BITS_IN_CHUNK * |c| && 0 < len && nextFree < (numbits + 31) / 32 * 32
    requires SearchResult(c, numbits, len, BaseChunk(numbits, nextFree), r)
    ensures FromNextFree(c, numbits, len, nextFree, r)
  {
    BaseIs(numbits, nextFree);
    forall p: nat | RunAt(c, numbits, len, p) ensures p < numbits {
    }
    hide BaseChunk, At, RunAt, SkipsFirstChunk;
  }

  /** On an empty vector the first bits are taken first. */
  lemma FirstOfEmpty(c: seq<Chunk>, numbits: nat, len: int, r: int)
    requires 0 < len <= numbits <= BITS_IN_CHUNK * |c| && (forall p: nat :: p < numbits ==> !At(c, p))
    requires FromNextFree(c, numbits, len, 0, r)
    ensures r == 0
  {
    assert RunAt(c, numbits, len, 0);
  }

  /** In a vector of whole chunks whose last bit is in use, no search overlooks a run. */
  lemma NothingOverlooked(c: seq<Chunk>, numbits: nat, len: int, b: nat, r: int)
    requires 0 < numbits <= BITS_IN_CHUNK * |c| && 0 < len && SearchResult(c, numbits, len, b, r)
    requires numbits % 32 == 0 && At(c, numbits - 1)
    ensures r < 0 <==> forall p: nat :: !RunAt(c, numbits, len, p)
  {
    assert WrapStart(c, numbits, b) == 0;
    forall p: nat | RunAt(c, numbits, len, p) ensures p < numbits {
    }
    hide At;
  }

  /** A search from chunk 0 returns the lowest run there is, and fails only if there is none. */
  lemma SearchFromStart(c: seq<Chunk>, numbits: nat, len: nat, r: int)
    requires 0 < numbits <= BITS_IN_CHUNK * |c| && 0 < len
    requires SearchResult(c, numbits, len, 0, r)
    ensures r < 0 <==> forall p: nat :: !RunAt(c, numbits, len, p)
    ensures r >= 0 ==> LowestRun(c, numbits, len, 0, r)
  {
    forall p: nat | RunAt(c, numbits, len, p) ensures p < numbits {
    }
  }

  /** 32 free bits followed by 32 bits of which the last is free: a search from chunk 1 overlooks the 32-bit run. */
  lemma OverlooksAFreeChunk()
    ensures var c: seq<Chunk> := [seq(BITS_IN_CHUNK, _ => false), seq(BITS_IN_CHUNK, i => i != BITS_IN_CHUNK - 1)];
            SearchResult(c, 64, 32, 1, -1) && RunAt(c, 64, 32, 0)
  {
    var c: seq<Chunk> := [seq(BITS_IN_CHUNK, _ => false), seq(BITS_IN_CHUNK, i => i != BITS_IN_CHUNK - 1)];
    assert !At(c, 63) && SkipsFirstChunk(c, 64, 1);
    forall p: nat | 32 <= p ensures !RunAt(c, 64, 32, p) {
      assert At(c, 32);
    }
  }

  // ---- when a failed search flags the vector as full

  /** A search from chunk 0 flags it just if it is full. */
  lemma FlagFromStart(c: seq<Chunk>, numbits: nat)
    requires 0 < numbits <= BITS_IN_CHUNK * |c|
    ensures TotalTally(c, numbits, 0) >= numbits <==> AllSet(c, numbits)
  {
    TalliedBound(c, 0, numbits);
  }

  /** So does one from another chunk b, unless it skips chunk 0 or a free run may lead it over the boundary in front
      of chunk b: then it may count set bits of chunk b and those after it once more. */
  lemma FlagFromLater(c: seq<Chunk>, numbits: nat, b: nat)
    requires 0 < numbits <= BITS_IN_CHUNK * |c| && 0 < b < ChunkCount(numbits)
    requires At(c, BITS_IN_CHUNK * b - 1) || WrapStart(c, numbits, b) >= BITS_IN_CHUNK * b
    ensures TotalTally(c, numbits, b) >= numbits <==> AllSet(c, numbits) && !SkipsFirstChunk(c, numbits, b)
  {
    var lo, w := BITS_IN_CHUNK * b, WrapStart(c, numbits, b);
    TalliedBound(c, lo, numbits);
    if w < lo {
      assert RecountEnd(c, numbits, b) == lo;
      TalliedBound(c, w, lo);
    }
  }

  /** The set bits it counts once more. */
  ghost function Recounted(c: seq<Chunk>, numbits: nat, b: nat): int
    requires 0 < b < ChunkCount(numbits) && 0 < numbits <= BITS_IN_CHUNK * |c|
  {
    var lo, w := BITS_IN_CHUNK * b, WrapStart(c, numbits, b);
    if w >= lo then 0 else Tallied(c, w, RecountEnd(c, numbits, b)) - Tallied(c, w, lo)
  }

  /** The bits it does not count the first time. */
  ghost function Uncounted(c: seq<Chunk>, numbits: nat, b: nat): int
    requires 0 < b < ChunkCount(numbits) && 0 < numbits <= BITS_IN_CHUNK * |c|
  {
    var lo, w := BITS_IN_CHUNK * b, WrapStart(c, numbits, b);
    numbits - Tallied(c, lo, numbits) - if w >= lo then 0 else Tallied(c, w, lo)
  }

  /** Exactly when a vector with free bits is flagged as full: a free run leads the search over the boundary in front
      of the chunk it began with, and what it counts once more outweighs what it has not counted. */
  lemma FlagWrong(c: seq<Chunk>, numbits: nat, b: nat)
    requires 0 < numbits <= BITS_IN_CHUNK * |c| && b < ChunkCount(numbits)
    ensures TotalTally(c, numbits, b) >= numbits && !AllSet(c, numbits) <==>
              && b > 0 && WrapStart(c, numbits, b) < BITS_IN_CHUNK * b && !At(c, BITS_IN_CHUNK * b - 1)
              && Recounted(c, numbits, b) >= Uncounted(c, numbits, b)
  {
    if b == 0 {
      FlagFromStart(c, numbits);
    } else if At(c, BITS_IN_CHUNK * b - 1) || WrapStart(c, numbits, b) >= BITS_IN_CHUNK * b {
      FlagFromLater(c, numbits, b);
    }
  }

  /** 96 bits with bits 31 and 32 free, the others set. */
  function TwoFree(): seq<Chunk> {
    [seq(BITS_IN_CHUNK, i => i != 31), seq(BITS_IN_CHUNK, i => i != 0), seq(BITS_IN_CHUNK, _ => true)]
  }

  /** A search for 3 bits from chunk 1 fails and flags the vector as full, with two bits free: it has counted 123. */
  lemma FullWithTwoFree()
    ensures SearchResult(TwoFree(), 96, 3, 1, -1) && TotalTally(TwoFree(), 96, 1) == 123
    ensures !At(TwoFree(), 31) && !At(TwoFree(), 32)
  {
    var c := TwoFree();
    TwoFreeIs();
    hide TwoFree, At, WrapStart;
    forall p: nat | p + 3 <= 96 ensures !RunAt(c, 96, 3, p) {
      assert At(c, p) || At(c, p + 2);
    }
    TwoFreeCounted();
  }

  lemma TwoFreeIs()
    ensures |TwoFree()| == 3 && forall p: nat :: p < 96 ==> (At(TwoFree(), p) <==> p != 31 && p != 32)
    ensures WrapStart(TwoFree(), 96, 1) == 0
  {
    assert At(TwoFree(), 95);
  }

  lemma TwoFreeCounted()
    ensures |TwoFree()| == 3 && Tallied(TwoFree(), 32, 96) == 62 && RecountEnd(TwoFree(), 96, 1) == 64 && Tallied(TwoFree(), 0, 64) == 61
  {
    var c := TwoFree();
    TwoFreeIs();
    hide TwoFree, At;
    assert RecountEnd(c, 96, 2) == 64;
    assert Tallied(c, 32, 32) == 0;
    TalliedFree(c, 32, 32, 33);
    assert Tallied(c, 32, 34) == Tallied(c, 32, 33);
    TalliedSet(c, 32, 34, 96);
    TalliedSet(c, 0, 0, 31);
    TalliedFree(c, 0, 31, 33);
    assert Tallied(c, 0, 34) == Tallied(c, 0, 33);
    TalliedSet(c, 0, 34, 64);
  }

  class BitVector {
    const numbits: nat
    const bits: array<Chunk>
    var nextFree: nat
    var isFull: bool

    /** The buffer covers the vector, and its bits past the end are clear. */
    ghost predicate Valid()
      reads this, bits
    {
      && ChunkCount(numbits) <= bits.Length
      && PaddingClear(bits[..], numbits)
    }

    constructor (n: nat, size: nat)
      requires ChunkCount(n) <= size
      ensures Valid() && fresh(bits) && numbits == n && bits.Length == size
      ensures nextFree == 0 && !isFull
      ensures forall p: nat :: p < BITS_IN_CHUNK * size ==> !At(bits[..], p)
    {
      numbits := n;
      bits := new Chunk[size](_ => seq(BITS_IN_CHUNK, _ => false));
      nextFree, isFull := 0, false;
    }

    /** Assign bit j of chunk i. */
    method Put(i: nat, j: nat, v: bool)
      requires i < bits.Length && j < BITS_IN_CHUNK
      modifies bits
      ensures RangeSetTo(old(bits[..]), bits[..], BITS_IN_CHUNK * i + j, 1, v)
    {
      bits[i] := bits[i][j := v];
      forall p: nat | p < BITS_IN_CHUNK * bits.Length
        ensures At(bits[..], p) == if p == BITS_IN_CHUNK * i + j then v else At(old(bits[..]), p)
      {
        var a, b := p / BITS_IN_CHUNK, p % BITS_IN_CHUNK;
        assert bits[..][a] == bits[a] && old(bits[..])[a] == old(bits[a]);
      }
    }

    method Set(which: int) returns (ok: bool)
      requires Valid()
      modifies bits
      ensures Valid() && ok == (0 <= which < numbits)
      ensures if ok then RangeSetTo(old(bits[..]), bits[..], which, 1, true) else bits[..] == old(bits[..])
    {
      if which >= numbits || which < 0 {
        return false;
      }
      Put(which / BITS_IN_CHUNK, which % BITS_IN_CHUNK, true);
      return true;
    }

    method UnSet(which: int) returns (ok: bool)
      requires Valid()
      modifies bits, this`nextFree
      ensures Valid() && ok == (0 <= which < numbits)
      ensures if ok then RangeSetTo(old(bits[..]), bits[..], which, 1, false) && nextFree == which
              else bits[..] == old(bits[..]) && nextFree == old(nextFree)
    {
      if which >= numbits || which < 0 {
        return false;
      }
      Put(which / BITS_IN_CHUNK, which % BITS_IN_CHUNK, false);
      nextFree := which;
      return true;
    }

    method UnSetRange(start: int, len: int) returns (ok: bool)
      requires Valid()
      modifies bits, this`nextFree
      ensures Valid() && ok == (0 <= start && 0 <= len && start + len <= numbits)
      ensures if ok then RangeSetTo(old(bits[..]), bits[..], start, len, false) && nextFree == start
              else bits[..] == old(bits[..]) && nextFree == old(nextFree)
    {
      if start < 0 || len < 0 || start + len > numbits {
        return false;
      }
      nextFree := start;
      var k := start;
      while k < start + len
        invariant start <= k <= start + len && nextFree == start
        invariant RangeSetTo(old(bits[..]), bits[..], start, k - start, false)
      {
        Put(k / BITS_IN_CHUNK, k % BITS_IN_CHUNK, false);
        k := k + 1;
      }
      return true;
    }

    method IsSet(which: int) returns (b: bool)
      requires Valid()
      ensures b == (0 <= which < numbits && At(bits[..], which))
    {
      if which >= numbits || which < 0 {
        return false;
      }
      return bits[which / BITS_IN_CHUNK][which % BITS_IN_CHUNK];
    }

    /** Measure the free run that starts at bit j of chunk begin, up to len bits, across chunks. */
    method ScanRun(begin: nat, j: nat, len: nat, ghost start: nat) returns (k: nat, n: nat, bit: nat)
      requires Valid() && begin < ChunkCount(numbits) && j < BITS_IN_CHUNK && !bits[begin][j]
      requires start == BITS_IN_CHUNK * begin + j
      ensures k <= len && bit < BITS_IN_CHUNK && BITS_IN_CHUNK * n + bit == start + k
      ensures k == 0 || RunAt(bits[..], numbits, k, start)
      ensures k == len || start + k >= numbits || At(bits[..], start + k)
      ensures !At(bits[..], start) && (start >= numbits ==> k == 0)
    {
      k, n := 0, begin;
      var b: int := j;
      while k < len && n * BITS_IN_CHUNK + b < numbits
        invariant k <= len && 0 <= b < BITS_IN_CHUNK && BITS_IN_CHUNK * n + b == start + k
        invariant (k == 0 || start + k <= numbits) && forall q: nat :: start <= q < start + k ==> !At(bits[..], q)
        decreases len - k
      {
        AtIs(bits[..], n, b);
        if bits[n][b] {
          break;
        }
        if b + 1 == BITS_IN_CHUNK {
          n := n + 1;
          b := -1;
        }
        k, b := k + 1, b + 1;
      }
      bit := b;
    }

    /** Set len bits from bit j of chunk begin on; returns the position reached. */
    method SetRun(begin: nat, j: nat, len: nat) returns (n: nat, bit: nat)
      requires Valid() && j < BITS_IN_CHUNK && BITS_IN_CHUNK * begin + j + len <= numbits
      modifies bits
      ensures Valid() && RangeSetTo(old(bits[..]), bits[..], BITS_IN_CHUNK * begin + j, len, true)
      ensures bit < BITS_IN_CHUNK && BITS_IN_CHUNK * n + bit == BITS_IN_CHUNK * begin + j + len
    {
      n := begin;
      var b: int, k := j, 0;
      while k < len
        invariant 0 <= k <= len && 0 <= b < BITS_IN_CHUNK && BITS_IN_CHUNK * n + b == BITS_IN_CHUNK * begin + j + k
        invariant RangeSetTo(old(bits[..]), bits[..], BITS_IN_CHUNK * begin + j, k, true)
      {
        Put(n, b, true);
        if b + 1 == BITS_IN_CHUNK {
          n := n + 1;
          b := -1;
        }
        k, b := k + 1, b + 1;
      }
      bit := b;
    }

    /** Set the run found at bit start and remember the bit behind it if that one is free. */
    method Take(begin: nat, j: nat, len: nat, start: nat)
      requires Valid() && j < BITS_IN_CHUNK && start == BITS_IN_CHUNK * begin + j && start + len <= numbits
      modifies bits, this`nextFree
      ensures Valid() && RangeSetTo(old(bits[..]), bits[..], start, len, true)
      ensures Remembers(bits[..], numbits, start + len, old(nextFree), nextFree)
    {
      var n, bit := SetRun(begin, j, len);
      if n < ChunkCount(numbits) && !bits[n][bit] {
        nextFree := start + len;
      }
    }

    /** Examine the free run at bit j of chunk begin: long enough (found), cut short by the end of the
        vector (ended, with i' the next chunk), or by a set bit, behind which the scan goes on. */
    method Examine(begin: nat, j: nat, i: nat, len: nat, maxFree: int, ghost nz: int, ghost b: nat, ghost wrapped: bool)
      returns (found: bool, ended: bool, begin': nat, j': nat, i': nat, maxFree': int)
      requires Valid() && 0 < len <= numbits && b < ChunkCount(numbits) && begin < ChunkCount(numbits)
      requires j < BITS_IN_CHUNK && !bits[begin][j] && Inside(b, wrapped, BITS_IN_CHUNK * begin + j)
      requires begin == if wrapped then b + i - ChunkCount(numbits) else b + i
      requires -1 <= maxFree < len && Standing(bits[..], numbits, b, wrapped, BITS_IN_CHUNK * begin + j, maxFree, nz)
      ensures found ==> SearchResult(bits[..], numbits, len, b, BITS_IN_CHUNK * begin + j) && BITS_IN_CHUNK * begin + j + len <= numbits
      ensures i <= i' && -1 <= maxFree' < len
      ensures !found && ended ==> AtChunk(bits[..], numbits, b, i' + 1, maxFree', nz)
      ensures !found && !ended ==>
                && begin' < ChunkCount(numbits) && 0 < j' <= BITS_IN_CHUNK && At(bits[..], BITS_IN_CHUNK * begin' + j' - 1)
                && BITS_IN_CHUNK * begin + j < BITS_IN_CHUNK * begin' + j'
                && begin' == (if wrapped then b + i' - ChunkCount(numbits) else b + i')
                && Standing(bits[..], numbits, b, wrapped, BITS_IN_CHUNK * begin' + j', maxFree', nz)
    {
      hide NoRun, RunAt, Standing, AtChunk, LowestRun, SearchResult, WrapStart, SkipsFirstChunk, Visited, PaddingClear, At, TotalTally;
      var start := begin * BITS_IN_CHUNK + j;
      var k, n, bit := ScanRun(begin, j, len, start);
      found, ended, begin', j', i', maxFree' := false, false, n, bit + 1, i, maxFree;
      if n * BITS_IN_CHUNK + bit >= numbits && k < len {
        RunHitsEnd(bits[..], numbits, b, wrapped, i, start, k, n, maxFree, nz);
        maxFree' := if k > maxFree then k else maxFree;
        i' := if n > begin then i + (n - begin) else i + 1;
        ended := true;
      } else if k < len {
        StepOverRun(bits[..], numbits, b, wrapped, start, k, maxFree, nz);
        maxFree' := if k > maxFree then k else maxFree;
        i' := i + (n - begin);
      } else {
        FoundHere(bits[..], numbits, b, wrapped, start, len, maxFree, nz);
        found := true;
      }
    }

    /** The body of the loop over chunks: scan chunk begin for a run of len bits and set the first one
        found (found >= 0), or say which chunk comes next. */
    method ScanChunk(begin: nat, i: nat, len: nat, maxFree: int, nonZero: int, ghost b: nat)
      returns (found: int, i': nat, maxFree': int, nonZero': int)
      requires Valid() && 0 < len <= numbits && b < ChunkCount(numbits) && i < ChunkCount(numbits)
      requires begin == if b + i < ChunkCount(numbits) then b + i else b + i - ChunkCount(numbits)
      requires -1 <= maxFree < len && AtChunk(bits[..], numbits, b, i, maxFree, nonZero)
      modifies bits, this`nextFree
      ensures Valid() && i < i' && -1 <= maxFree' < len
      ensures found < 0 ==>
                && bits[..] == old(bits[..]) && nextFree == old(nextFree)
                && AtChunk(bits[..], numbits, b, i', maxFree', nonZero')
      ensures found >= 0 ==>
                && found + len <= numbits
                && SearchResult(old(bits[..]), numbits, len, b, found)
                && RangeSetTo(old(bits[..]), bits[..], found, len, true)
                && Remembers(bits[..], numbits, found + len, old(nextFree), nextFree)
    {
      hide NoRun, RunAt, Standing, AtChunk, LowestRun, SearchResult, WrapStart, LongestExamined, SkipsFirstChunk, Visited, RangeSetTo, PaddingClear, At, TotalTally, Remembers;
      var count := ChunkCount(numbits);
      var begin, j := begin, 0;
      ghost var c := bits[..];
      ghost var wrapped := b + i >= count;
      i', maxFree', nonZero' := i, maxFree, nonZero;
      ChunkStarts(c, numbits, b, i, maxFree, nonZero);
      while j < BITS_IN_CHUNK
        modifies {}
        invariant 0 <= j <= BITS_IN_CHUNK && begin < count && i <= i' && bits[..] == c
        invariant begin == if wrapped then b + i' - count else b + i'
        invariant -1 <= maxFree' < len
        invariant (wrapped && j == 0 ==> begin < b) && (j > 0 ==> At(c, BITS_IN_CHUNK * begin + j - 1))
        invariant Standing(c, numbits, b, wrapped, BITS_IN_CHUNK * begin + j, maxFree', nonZero')
        decreases BITS_IN_CHUNK * (count - begin) - j
      {
        if bits[begin][j] {
          AtIs(c, begin, j);
          StepOverSetBit(c, numbits, b, wrapped, BITS_IN_CHUNK * begin + j, maxFree', nonZero');
          nonZero' := nonZero' + 1;
          j := j + 1;
          continue;
        }
        var hit, ended, n, bit;
        hit, ended, n, bit, i', maxFree' := Examine(begin, j, i', len, maxFree', nonZero', b, wrapped);
        if hit {
          break;
        }
        if ended {
          return -1, i' + 1, maxFree', nonZero';
        }
        begin, j := n, bit;
      }
      if j < BITS_IN_CHUNK {
        found := begin * BITS_IN_CHUNK + j;
        Take(begin, j, len, found);
      } else {
        NextChunk(c, numbits, b, wrapped, i', maxFree', nonZero');
        found := -1;
      }
      i' := i' + 1;
    }

    lemma NextFreeFirst(c: seq<Chunk>, len: int, next: nat, r: int)
      requires 0 < len && 0 < numbits <= BITS_IN_CHUNK * |c| && SearchResult(c, numbits, len, BaseChunk(numbits, next), r)
      ensures next < (numbits + 31) / 32 * 32 ==> FromNextFree(c, numbits, len, next, r)
    {
      hide SearchResult, FromNextFree, BaseChunk;
      if next < (numbits + 31) / 32 * 32 {
        SearchesFromNextFree(c, numbits, len, next, r);
      }
    }

    /** Find and set len consecutive clear bits: the lowest run from the chunk of nextFree on, else the
        lowest one after wrapping around, as SearchResult says.  On failure biggest is the length of the
        longest run examined (0 or -1 when there was none). */
    method GetFreeRangeOfBits(len: int) returns (r: int, biggest: int)
      requires Valid()
      modifies this`nextFree, this`isFull, bits
      ensures Valid() && -1 <= biggest
      ensures len <= 0 || len > numbits || old(isFull) ==>
                r == -1 && biggest == -1 && bits[..] == old(bits[..]) && nextFree == old(nextFree) && isFull == old(isFull)
      ensures 0 < len <= numbits && !old(isFull) ==>
                SearchResult(old(bits[..]), numbits, len, BaseChunk(numbits, old(nextFree)), r)
      ensures 0 < len <= numbits && !old(isFull) && old(nextFree) < (numbits + 31) / 32 * 32 ==>
                FromNextFree(old(bits[..]), numbits, len, old(nextFree), r)
      ensures r >= 0 ==>
                && 0 < len && r + len <= numbits && !isFull && biggest == -1
                && RangeSetTo(old(bits[..]), bits[..], r, len, true)
                && Remembers(bits[..], numbits, r + len, old(nextFree), nextFree)
      ensures r < 0 ==> bits[..] == old(bits[..]) && nextFree == old(nextFree)
      ensures r < 0 && 0 < len <= numbits && !old(isFull) ==>
                && LongestExamined(bits[..], numbits, BaseChunk(numbits, nextFree), biggest)
                && biggest < len
                && (isFull <==> TotalTally(bits[..], numbits, BaseChunk(numbits, nextFree)) >= numbits)
    {
      hide NoRun, RunAt, AtChunk, LowestRun, SearchResult, WrapStart, Standing, LongestExamined, SkipsFirstChunk, Visited, RangeSetTo, PaddingClear, At, AllSet, TotalTally, FromNextFree, Remembers;
      var maxFree := -1;
      var nonZero := 0;
      if len <= 0 || len > numbits || isFull {
        return -1, -1;
      }
      var count := numbits / BITS_IN_CHUNK;
      if numbits % BITS_IN_CHUNK != 0 {
        count := count + 1;
      }
      var base := nextFree / BITS_IN_CHUNK;
      ghost var b := base % count;
      ghost var c := bits[..];
      var i, realCount := 0, 0;
      SearchStarts(c, numbits, b);
      while i < count
        invariant 0 <= realCount <= i
        invariant bits[..] == c && Valid() && nextFree == old(nextFree) && !isFull && -1 <= maxFree < len
        invariant AtChunk(c, numbits, b, i, maxFree, nonZero)
        decreases count - i
      {
        assert realCount <= count;
        var begin := (base + i) % count;
        BeginIs(base, i, count);
        if bits[begin] == ALL_ONES {
          ChunkStarts(c, numbits, b, i, maxFree, nonZero);
          StepOverChunk(c, numbits, b, b + i >= count, begin, maxFree, nonZero);
          NextChunk(c, numbits, b, b + i >= count, i, maxFree, nonZero + BITS_IN_CHUNK);
          nonZero := nonZero + BITS_IN_CHUNK;
          i, realCount := i + 1, realCount + 1;
          continue;
        }
        var found;
        found, i, maxFree, nonZero := ScanChunk(begin, i, len, maxFree, nonZero, b);
        if found >= 0 {
          NextFreeFirst(c, len, old(nextFree), found);
          return found, -1;
        }
        realCount := realCount + 1;
      }
      SearchFailed(c, numbits, b, i, len, maxFree, nonZero);
      NextFreeFirst(c, len, nextFree, -1);
      if nonZero >= numbits {
        isFull := true;
      }
      return -1, maxFree;
    }
  }
}
