/** The state of a volume that dstream.c works on, as values: the blocks of the device (as the block cache
    presents them), the data streams of the files, and who owns each block that is in use. */
module VolumeModel {
  import opened Arithmetic
  import opened Lists

  type byte = x: int | 0 <= x < 256

  type Block = seq<byte>

  const NUM_DIRECT: nat := 6
  const POINTER_SIZE: nat := 8
  const MAX_ADDRESS: int := 0x8000_0000

  /** data_stream without its double-indirect pointer, which nothing ever sets. */
  datatype Stream = Stream(direct: seq<nat>, indirect: nat, size: nat)

  datatype Owner = Meta | Data(f: int, i: nat) | Index(f: int)

  datatype State = State(bsize: nat, disk: seq<Block>, files: map<int, Stream>, owner: map<nat, Owner>, meta: set<nat>)

  // ---- block pointers in an index block: fs_off_t values, eight bytes each

  function Decode(bs: seq<byte>): nat {
    if bs == [] then 0 else bs[0] + 256 * Decode(bs[1..])
  }

  function Encode(v: nat, n: nat): (bs: seq<byte>)
    ensures |bs| == n
  {
    if n == 0 then [] else [v % 256] + Encode(v / 256, n - 1)
  }

  function Power256(n: nat): nat {
    if n == 0 then 1 else 256 * Power256(n - 1)
  }

  lemma {:induction false} DecodeEncode(v: nat, n: nat)
    requires v < Power256(n)
    ensures Decode(Encode(v, n)) == v
  {
    if n > 0 {
      DecodeEncode(v / 256, n - 1);
      assert Encode(v, n)[1..] == Encode(v / 256, n - 1);
    }
  }

  /** The lowest byte comes first. */
  lemma {:induction false} DecodeByte(bs: seq<byte>, i: nat)
    requires i < |bs|
    ensures Power256(i) > 0 && Decode(bs) / Power256(i) % 256 == bs[i]
  {
    if i > 0 {
      DecodeByte(bs[1..], i - 1);
      DivDiv(Decode(bs), 256, Power256(i - 1));
      DivUnique(Decode(bs), 256, Decode(bs[1..]), bs[0]);
    }
  }

  function Zeros(n: nat): Block {
    seq(n, _ => 0)
  }

  lemma {:induction false} DecodeZeros(n: nat)
    ensures Decode(Zeros(n)) == 0
  {
    if n > 0 {
      DecodeZeros(n - 1);
      assert Zeros(n)[1..] == Zeros(n - 1);
    }
  }

  function Pointer(b: Block, i: nat): nat
    requires POINTER_SIZE * (i + 1) <= |b|
  {
    Decode(b[POINTER_SIZE * i..POINTER_SIZE * (i + 1)])
  }

  function PutPointer(b: Block, i: nat, v: nat): (b': Block)
    requires POINTER_SIZE * (i + 1) <= |b|
    ensures |b'| == |b|
  {
    b[..POINTER_SIZE * i] + Encode(v, POINTER_SIZE) + b[POINTER_SIZE * (i + 1)..]
  }

  lemma PutPointerAt(b: Block, i: nat, v: nat, j: nat)
    requires POINTER_SIZE * (i + 1) <= |b| && POINTER_SIZE * (j + 1) <= |b| && v < MAX_ADDRESS
    ensures Pointer(PutPointer(b, i, v), j) == if i == j then v else Pointer(b, j)
  {
    var b' := PutPointer(b, i, v);
    if i == j {
      assert b'[POINTER_SIZE * i..POINTER_SIZE * (i + 1)] == Encode(v, POINTER_SIZE);
      assert Power256(8) == 256 * (256 * (256 * (256 * (256 * (256 * (256 * (256 * Power256(0))))))));
      DecodeEncode(v, POINTER_SIZE);
    } else {
      assert b'[POINTER_SIZE * j..POINTER_SIZE * (j + 1)] == b[POINTER_SIZE * j..POINTER_SIZE * (j + 1)];
    }
  }

  lemma ZerosPointer(n: nat, i: nat)
    requires POINTER_SIZE * (i + 1) <= n
    ensures Pointer(Zeros(n), i) == 0
  {
    DecodeZeros(POINTER_SIZE);
    assert Zeros(n)[POINTER_SIZE * i..POINTER_SIZE * (i + 1)] == Zeros(POINTER_SIZE);
  }

  // ---- streams

  /** Number of blocks a file of the given size occupies. */
  function BlockCount(size: nat, bsize: nat): nat
    requires bsize > 0
  {
    (size + bsize - 1) / bsize
  }

  /** Number of block pointers an index block holds. */
  function PerIndex(bsize: nat): nat {
    bsize / POINTER_SIZE
  }

  predicate DiskOk(bsize: nat, disk: seq<Block>) {
    && bsize >= POINTER_SIZE && bsize % POINTER_SIZE == 0
    && 0 < |disk| <= MAX_ADDRESS
    && forall b :: 0 <= b < |disk| ==> |disk[b]| == bsize
  }

  predicate StreamShape(s: Stream, bsize: nat, disk: seq<Block>)
    requires DiskOk(bsize, disk)
  {
    && |s.direct| == NUM_DIRECT && s.indirect < |disk|
    && BlockCount(s.size, bsize) <= NUM_DIRECT + PerIndex(bsize)
    && (BlockCount(s.size, bsize) > NUM_DIRECT ==> s.indirect != 0)
  }

  /** Where block i of the file lives. */
  function Addr(s: Stream, bsize: nat, disk: seq<Block>, i: nat): nat
    requires DiskOk(bsize, disk) && StreamShape(s, bsize, disk) && i < NUM_DIRECT + PerIndex(bsize)
  {
    if i < NUM_DIRECT then s.direct[i] else Pointer(disk[s.indirect], i - NUM_DIRECT)
  }

  /** Block i of file f is a block of the device that belongs to exactly that place. */
  predicate BlockOwned(s: Stream, f: int, bsize: nat, disk: seq<Block>, owner: map<nat, Owner>, i: nat)
    requires DiskOk(bsize, disk) && StreamShape(s, bsize, disk) && i < NUM_DIRECT + PerIndex(bsize)
  {
    var a := Addr(s, bsize, disk, i);
    0 <= a < |disk| && a in owner && owner[a] == Data(f, i)
  }

  ghost predicate StreamOk(s: Stream, f: int, bsize: nat, disk: seq<Block>, owner: map<nat, Owner>)
    requires DiskOk(bsize, disk)
  {
    && StreamShape(s, bsize, disk)
    && (forall i: nat :: i < BlockCount(s.size, bsize) ==> BlockOwned(s, f, bsize, disk, owner, i))
    && (forall i: nat :: BlockCount(s.size, bsize) <= i < NUM_DIRECT ==> s.direct[i] == 0)
    && (s.indirect != 0 ==> s.indirect in owner && owner[s.indirect] == Index(f))
    && EntriesInside(s, bsize, disk)
  }

  /** All entries of the index block, used or not, are addresses of blocks. */
  ghost predicate EntriesInside(s: Stream, bsize: nat, disk: seq<Block>)
    requires DiskOk(bsize, disk) && StreamShape(s, bsize, disk)
  {
    s.indirect != 0 ==> forall i: nat :: NUM_DIRECT <= i < NUM_DIRECT + PerIndex(bsize) ==> Addr(s, bsize, disk, i) < |disk|
  }

  /** ... and stay so while the index block does. */
  lemma SameEntries(s: Stream, s': Stream, bsize: nat, disk: seq<Block>, disk': seq<Block>)
    requires DiskOk(bsize, disk) && StreamShape(s, bsize, disk) && DiskOk(bsize, disk') && StreamShape(s', bsize, disk')
    requires s'.indirect == 0 || (s'.indirect == s.indirect && disk'[s.indirect] == disk[s.indirect] && |disk'| == |disk|)
    ensures EntriesInside(s, bsize, disk) ==> EntriesInside(s', bsize, disk')
  {
    if EntriesInside(s, bsize, disk) {
      forall i: nat | NUM_DIRECT <= i < NUM_DIRECT + PerIndex(bsize) && s'.indirect != 0
        ensures Addr(s', bsize, disk', i) < |disk'|
      {
        assert Addr(s, bsize, disk, i) < |disk|;
      }
    }
  }

  /** The entries of the index block behind the file's last block are zero. */
  ghost predicate TailClear(s: Stream, bsize: nat, disk: seq<Block>)
    requires DiskOk(bsize, disk) && StreamShape(s, bsize, disk)
  {
    s.indirect != 0 ==>
      forall i: nat :: BlockCount(s.size, bsize) <= i < NUM_DIRECT + PerIndex(bsize) && NUM_DIRECT <= i ==> Addr(s, bsize, disk, i) == 0
  }

  /** The owner of block b really uses it. */
  predicate OwnerOk(b: nat, st: State)
    requires DiskOk(st.bsize, st.disk) && b in st.owner
    requires forall f :: f in st.files ==> StreamShape(st.files[f], st.bsize, st.disk)
  {
    && 0 <= b < |st.disk|
    && match st.owner[b]
       case Meta => true
       case Data(f, i) =>
         && f in st.files && i < BlockCount(st.files[f].size, st.bsize)
         && Addr(st.files[f], st.bsize, st.disk, i) == b
       case Index(f) => f in st.files && st.files[f].indirect == b
  }

  /** Every block that is in use has exactly one owner, which uses it; block 0, the superblock, is metadata.
      The entries of an index block behind the file's last block may name any block: a cut leaves them behind. */
  ghost predicate Conserved(st: State) {
    && DiskOk(st.bsize, st.disk)
    && (forall f :: f in st.files ==> StreamOk(st.files[f], f, st.bsize, st.disk, st.owner))
    && (forall b :: b in st.owner ==> OwnerOk(b, st))
    && 0 in st.owner && st.owner[0] == Meta
    && (forall b :: b in st.meta <==> b in st.owner && st.owner[b] == Meta)
  }

  /** What a block in use is used for. */
  lemma OwnerIs(st: State, b: nat)
    requires Conserved(st) && b in st.owner
    ensures b < |st.disk| && DiskOk(st.bsize, st.disk)
    ensures match st.owner[b]
            case Meta => true
            case Data(f, i) =>
              && f in st.files && StreamShape(st.files[f], st.bsize, st.disk)
              && i < BlockCount(st.files[f].size, st.bsize) && Addr(st.files[f], st.bsize, st.disk, i) == b
            case Index(f) => f in st.files && st.files[f].indirect == b
  {
    assert OwnerOk(b, st);
    forall f | f in st.files ensures StreamShape(st.files[f], st.bsize, st.disk) {
      assert StreamOk(st.files[f], f, st.bsize, st.disk, st.owner);
    }
  }

  ghost predicate TailsClear(st: State)
    requires Conserved(st)
  {
    forall f :: f in st.files ==> TailClear(st.files[f], st.bsize, st.disk)
  }

  /** A step that leaves no stale entries behind. */
  ghost predicate TailsKept(st: State, st': State)
    requires Conserved(st) && Conserved(st')
  {
    TailsClear(st) ==> TailsClear(st')
  }

  /** The blocks of the file lie on the device. */
  ghost predicate Mapped(s: Stream, bsize: nat, disk: seq<Block>) {
    && DiskOk(bsize, disk) && StreamShape(s, bsize, disk)
    && forall i: nat :: i < BlockCount(s.size, bsize) ==> Addr(s, bsize, disk, i) < |disk|
  }

  /** The byte of the file at position p. */
  ghost function ByteAt(s: Stream, bsize: nat, disk: seq<Block>, p: nat): byte
    requires Mapped(s, bsize, disk) && p < s.size
  {
    InFile(s.size, bsize, p);
    disk[Addr(s, bsize, disk, p / bsize)][p % bsize]
  }

  /** The contents of a stream. */
  ghost function ContentOf(s: Stream, bsize: nat, disk: seq<Block>): (c: seq<byte>)
    requires Mapped(s, bsize, disk)
    ensures |c| == s.size
  {
    seq(s.size, p requires 0 <= p < s.size => ByteAt(s, bsize, disk, p))
  }

  lemma MappedIfOk(st: State, f: int)
    requires Conserved(st) && f in st.files
    ensures Mapped(st.files[f], st.bsize, st.disk)
  {
    forall i: nat | i < BlockCount(st.files[f].size, st.bsize) ensures Addr(st.files[f], st.bsize, st.disk, i) < |st.disk| {
      assert BlockOwned(st.files[f], f, st.bsize, st.disk, st.owner, i);
    }
  }

  /** The contents of a file. */
  ghost function Content(st: State, f: int): (c: seq<byte>)
    requires Conserved(st) && f in st.files
    ensures |c| == st.files[f].size
  {
    MappedIfOk(st, f);
    ContentOf(st.files[f], st.bsize, st.disk)
  }

  /** Block i is where it was and holds what it held. */
  ghost predicate SameBlock(s: Stream, s': Stream, bsize: nat, disk: seq<Block>, disk': seq<Block>, i: nat)
    requires Mapped(s, bsize, disk) && Mapped(s', bsize, disk')
    requires i < BlockCount(s.size, bsize) && i < BlockCount(s'.size, bsize)
  {
    var a, a' := Addr(s, bsize, disk, i), Addr(s', bsize, disk', i);
    a == a' && disk[a] == disk'[a']
  }

  lemma SameByte(s: Stream, s': Stream, bsize: nat, disk: seq<Block>, disk': seq<Block>, p: nat)
    requires Mapped(s, bsize, disk) && Mapped(s', bsize, disk') && p < s.size && p < s'.size
    requires p / bsize < BlockCount(s.size, bsize) && p / bsize < BlockCount(s'.size, bsize)
    requires SameBlock(s, s', bsize, disk, disk', p / bsize)
    ensures ByteAt(s', bsize, disk', p) == ByteAt(s, bsize, disk, p)
  {
  }

  lemma SamePrefix(s: Stream, s': Stream, bsize: nat, disk: seq<Block>, disk': seq<Block>, n: nat)
    requires Mapped(s, bsize, disk) && Mapped(s', bsize, disk')
    requires n <= s.size && n <= s'.size
    requires forall i: nat :: i < BlockCount(s.size, bsize) && i < BlockCount(s'.size, bsize) ==> SameBlock(s, s', bsize, disk, disk', i)
    ensures ContentOf(s', bsize, disk')[..n] == ContentOf(s, bsize, disk)[..n]
  {
    hide SameBlock, ByteAt, Addr, BlockCount, StreamShape;
    forall p: nat | p < n ensures ByteAt(s', bsize, disk', p) == ByteAt(s, bsize, disk, p) {
      InFile(s.size, bsize, p);
      InFile(s'.size, bsize, p);
      SameByte(s, s', bsize, disk, disk', p);
    }
  }

  lemma InFile(size: nat, bsize: nat, p: nat)
    requires bsize > 0 && p < size
    ensures 0 <= p / bsize < BlockCount(size, bsize)
  {
    DivLess(p, size + bsize - 1, bsize);
  }

  /** Nothing changed for the files other than f: their streams, and the blocks they own. */
  ghost predicate OthersKept(st: State, st': State, f: int) {
    && st'.bsize == st.bsize && |st'.disk| == |st.disk| && st'.meta == st.meta
    && st'.files.Keys == st.files.Keys
    && (forall g :: g in st.files && g != f ==> st'.files[g] == st.files[g])
    && (forall b :: b in st.owner && st.owner[b] != Index(f) && !(st.owner[b].Data? && st.owner[b].f == f) ==>
          b in st'.owner && st'.owner[b] == st.owner[b] && 0 <= b < |st.disk| && st'.disk[b] == st.disk[b])
  }

  /** ... hence their contents did not change. */
  lemma OtherContent(st: State, st': State, f: int, g: int)
    requires Conserved(st) && Conserved(st') && OthersKept(st, st', f) && g in st.files && g != f
    ensures Content(st', g) == Content(st, g)
  {
    var s := st.files[g];
    MappedIfOk(st, g);
    MappedIfOk(st', g);
    forall i: nat | i < BlockCount(s.size, st.bsize) ensures SameBlock(s, s, st.bsize, st.disk, st'.disk, i) {
      OtherAddr(st, st', f, g, i);
      assert BlockOwned(s, g, st.bsize, st.disk, st.owner, i);
    }
    SamePrefix(s, s, st.bsize, st.disk, st'.disk, s.size);
  }

  lemma OtherAddr(st: State, st': State, f: int, g: int, i: nat)
    requires Conserved(st) && OthersKept(st, st', f) && g in st.files && g != f && DiskOk(st'.bsize, st'.disk)
    requires i < NUM_DIRECT + PerIndex(st.bsize)
    ensures StreamShape(st'.files[g], st'.bsize, st'.disk)
    ensures i < NUM_DIRECT || st.files[g].indirect != 0 ==>
              Addr(st'.files[g], st'.bsize, st'.disk, i) == Addr(st.files[g], st.bsize, st.disk, i)
  {
    var s := st.files[g];
    assert StreamOk(s, g, st.bsize, st.disk, st.owner);
  }

  /** The stream and the tail of another file stay in order. */
  lemma OtherStream(st: State, st': State, f: int, g: int)
    requires Conserved(st) && OthersKept(st, st', f) && g in st.files && g != f && DiskOk(st'.bsize, st'.disk)
    ensures StreamOk(st'.files[g], g, st'.bsize, st'.disk, st'.owner)
    ensures TailClear(st.files[g], st.bsize, st.disk) ==> TailClear(st'.files[g], st'.bsize, st'.disk)
  {
    hide EntriesInside;
    var s := st.files[g];
    assert StreamOk(s, g, st.bsize, st.disk, st.owner);
    SameEntries(s, s, st.bsize, st.disk, st'.disk);
    forall i: nat | i < BlockCount(s.size, st.bsize) ensures BlockOwned(s, g, st'.bsize, st'.disk, st'.owner, i) {
      assert BlockOwned(s, g, st.bsize, st.disk, st.owner, i);
      OtherAddr(st, st', f, g, i);
    }
    if TailClear(s, st.bsize, st.disk) && s.indirect != 0 {
      forall i: nat | BlockCount(s.size, st.bsize) <= i < NUM_DIRECT + PerIndex(st.bsize) && NUM_DIRECT <= i
        ensures Addr(s, st'.bsize, st'.disk, i) == 0
      {
        OtherAddr(st, st', f, g, i);
        assert Addr(s, st.bsize, st.disk, i) == 0;
      }
    }
  }

  ghost predicate OwnedBy(o: Owner, f: int) {
    o == Index(f) || (o.Data? && o.f == f)
  }

  /** A step on file f keeps the volume in order if it leaves the other files alone and f itself in order. */
  lemma Rebuild(st: State, st': State, f: int)
    requires Conserved(st) && OthersKept(st, st', f) && f in st.files && DiskOk(st'.bsize, st'.disk)
    requires StreamOk(st'.files[f], f, st'.bsize, st'.disk, st'.owner)
    requires forall b :: b in st'.owner && !OwnedBy(st'.owner[b], f) ==> b in st.owner && st.owner[b] == st'.owner[b]
    requires forall b :: b in st'.owner && OwnedBy(st'.owner[b], f) ==>
               && 0 <= b < |st'.disk|
               && match st'.owner[b]
                  case Data(_, i) => i < BlockCount(st'.files[f].size, st'.bsize) && Addr(st'.files[f], st'.bsize, st'.disk, i) == b
                  case Index(_) => st'.files[f].indirect == b
                  case Meta => true
    ensures Conserved(st')
    ensures TailsClear(st) && TailClear(st'.files[f], st'.bsize, st'.disk) ==> TailsClear(st')
  {
    forall g | g in st'.files && g != f
      ensures StreamOk(st'.files[g], g, st'.bsize, st'.disk, st'.owner)
      ensures TailsClear(st) ==> TailClear(st'.files[g], st'.bsize, st'.disk)
    {
      OtherStream(st, st', f, g);
    }
    forall b | b in st'.owner ensures OwnerOk(b, st') {
      if !OwnedBy(st'.owner[b], f) {
        assert OwnerOk(b, st);
        if st.owner[b].Data? {
          var g, i := st.owner[b].f, st.owner[b].i;
          assert StreamOk(st.files[g], g, st.bsize, st.disk, st.owner);
          OtherAddr(st, st', f, g, i);
        }
      }
    }
  }

  lemma BlockCountOf(k: nat, bsize: nat)
    requires bsize > 0
    ensures BlockCount(k * bsize, bsize) == k
  {
    DivUnique(k * bsize + bsize - 1, bsize, k, bsize - 1);
  }

  // ---- the steps of growing a file whose size is k whole blocks

  ghost predicate Whole(st: State, f: int, k: nat) {
    Conserved(st) && f in st.files && st.files[f].size == k * st.bsize
  }

  ghost predicate Unowned(st: State, a: nat) {
    a < |st.disk| && a !in st.owner
  }

  /** The stream s' is s with one more block, at address a. */
  ghost predicate Extends(s: Stream, s': Stream, f: int, bsize: nat, disk: seq<Block>, disk': seq<Block>, k: nat, a: nat)
    requires DiskOk(bsize, disk) && StreamShape(s, bsize, disk) && DiskOk(bsize, disk')
  {
    && s.size == k * bsize && s'.size == (k + 1) * bsize && |disk'| == |disk| && a < |disk|
    && StreamShape(s', bsize, disk') && k < NUM_DIRECT + PerIndex(bsize) && s'.indirect == s.indirect
    && (forall i: nat :: i < NUM_DIRECT + PerIndex(bsize) && (i < NUM_DIRECT || s.indirect != 0) ==>
          Addr(s', bsize, disk', i) == if i == k then a else Addr(s, bsize, disk, i))
    && (forall b: nat :: b < |disk| && (b != s.indirect || b == 0) ==> disk'[b] == disk[b])
  }

  lemma ExtendEntries(s: Stream, s': Stream, f: int, bsize: nat, disk: seq<Block>, disk': seq<Block>, k: nat, a: nat)
    requires DiskOk(bsize, disk) && StreamShape(s, bsize, disk) && DiskOk(bsize, disk')
    requires Extends(s, s', f, bsize, disk, disk', k, a) && EntriesInside(s, bsize, disk)
    ensures EntriesInside(s', bsize, disk')
  {
    forall i: nat | NUM_DIRECT <= i < NUM_DIRECT + PerIndex(bsize) && s'.indirect != 0
      ensures Addr(s', bsize, disk', i) < |disk'|
    {
      assert i != k ==> Addr(s, bsize, disk, i) < |disk|;
    }
  }

  lemma ExtendStream(st: State, f: int, s': Stream, disk': seq<Block>, owner': map<nat, Owner>, k: nat, a: nat)
    requires Whole(st, f, k) && Unowned(st, a)
    requires DiskOk(st.bsize, disk') && StreamOk(st.files[f], f, st.bsize, st.disk, st.owner)
    requires Extends(st.files[f], s', f, st.bsize, st.disk, disk', k, a)
    requires k < NUM_DIRECT || st.files[f].indirect != 0
    requires owner' == st.owner[a := Data(f, k)]
    ensures StreamOk(s', f, st.bsize, disk', owner')
    ensures TailClear(st.files[f], st.bsize, st.disk) ==> TailClear(s', st.bsize, disk')
  {
    hide EntriesInside, OwnerOk;
    var s := st.files[f];
    BlockCountOf(k, st.bsize);
    BlockCountOf(k + 1, st.bsize);
    ExtendEntries(s, s', f, st.bsize, st.disk, disk', k, a);
    forall i: nat | i < k + 1 ensures BlockOwned(s', f, st.bsize, disk', owner', i) {
      if i < k { assert BlockOwned(s, f, st.bsize, st.disk, st.owner, i); }
    }
    forall i: nat | k + 1 <= i < NUM_DIRECT ensures s'.direct[i] == 0 {
      assert Addr(s', st.bsize, disk', i) == Addr(s, st.bsize, st.disk, i);
    }
    if TailClear(s, st.bsize, st.disk) {
      forall i: nat | k + 1 <= i < NUM_DIRECT + PerIndex(st.bsize) && NUM_DIRECT <= i && s'.indirect != 0
        ensures Addr(s', st.bsize, disk', i) == 0
      {
        assert Addr(s, st.bsize, st.disk, i) == 0;
      }
    }
  }

  ghost predicate Extended(st: State, st': State, f: int, k: nat, a: nat) {
    && Whole(st, f, k) && Unowned(st, a) && f in st'.files
    && st'.bsize == st.bsize && st'.meta == st.meta && DiskOk(st.bsize, st'.disk) && StreamOk(st.files[f], f, st.bsize, st.disk, st.owner)
    && Extends(st.files[f], st'.files[f], f, st.bsize, st.disk, st'.disk, k, a)
    && (k < NUM_DIRECT || st.files[f].indirect != 0)
    && st'.files == st.files[f := st'.files[f]] && st'.owner == st.owner[a := Data(f, k)]
  }

  lemma ExtendOthers(st: State, st': State, f: int, k: nat, a: nat)
    requires Extended(st, st', f, k, a)
    ensures OthersKept(st, st', f)
  {
    hide EntriesInside, BlockOwned;
    forall b | b in st.owner && !OwnedBy(st.owner[b], f) ensures 0 <= b < |st.disk| && (b != st.files[f].indirect || b == 0) {
      assert OwnerOk(b, st);
    }
  }

  /** Attaching a free block behind the last one keeps the volume in order, and the file's bytes. */
  lemma ExtendSound(st: State, st': State, f: int, k: nat, a: nat)
    requires Extended(st, st', f, k, a)
    ensures Whole(st', f, k + 1) && OthersKept(st, st', f) && TailsKept(st, st')
    ensures Content(st', f)[..st.files[f].size] == Content(st, f)
  {
    hide EntriesInside, TailClear, StreamOk, OthersKept;
    var s, s' := st.files[f], st'.files[f];
    BlockCountOf(k, st.bsize);
    BlockCountOf(k + 1, st.bsize);
    ExtendOthers(st, st', f, k, a);
    ExtendStream(st, f, s', st'.disk, st'.owner, k, a);
    forall b | b in st'.owner && OwnedBy(st'.owner[b], f)
      ensures 0 <= b < |st'.disk|
      ensures match st'.owner[b]
              case Data(_, i) => i < k + 1 && Addr(s', st.bsize, st'.disk, i) == b
              case Index(_) => s'.indirect == b
              case Meta => true
    {
      if b != a { OwnerIs(st, b); }
    }
    Rebuild(st, st', f);
    ExtendKeeps(st, st', f, k, a);
  }

  lemma ExtendKeeps(st: State, st': State, f: int, k: nat, a: nat)
    requires Extended(st, st', f, k, a) && Conserved(st')
    ensures Content(st', f)[..st.files[f].size] == Content(st, f)
  {
    hide EntriesInside, OwnerOk;
    var s, s' := st.files[f], st'.files[f];
    BlockCountOf(k, st.bsize);
    MappedIfOk(st, f);
    MappedIfOk(st', f);
    forall i: nat | i < k ensures Addr(s, st.bsize, st.disk, i) != s.indirect || s.indirect == 0 {
      assert BlockOwned(s, f, st.bsize, st.disk, st.owner, i);
    }
    ExtendContent(s, s', f, st.bsize, st.disk, st'.disk, k, a);
  }

  lemma ExtendContent(s: Stream, s': Stream, f: int, bsize: nat, disk: seq<Block>, disk': seq<Block>, k: nat, a: nat)
    requires Mapped(s, bsize, disk) && Mapped(s', bsize, disk') && Extends(s, s', f, bsize, disk, disk', k, a)
    requires k <= NUM_DIRECT || s.indirect != 0
    requires forall i: nat :: i < k ==> Addr(s, bsize, disk, i) != s.indirect || s.indirect == 0
    ensures ContentOf(s', bsize, disk')[..s.size] == ContentOf(s, bsize, disk)
  {
    BlockCountOf(k, bsize);
    forall i: nat | i < k && i < BlockCount(s'.size, bsize) ensures SameBlock(s, s', bsize, disk, disk', i) {
    }
    SamePrefix(s, s', bsize, disk, disk', s.size);
  }

  /** Storing address a in entry k - NUM_DIRECT of the index block extends the stream. */
  lemma PutPointerExtends(s: Stream, f: int, bsize: nat, disk: seq<Block>, k: nat, a: nat)
    requires DiskOk(bsize, disk) && StreamShape(s, bsize, disk) && s.size == k * bsize
    requires NUM_DIRECT <= k < NUM_DIRECT + PerIndex(bsize) && s.indirect != 0 && a < |disk|
    ensures var disk' := disk[s.indirect := PutPointer(disk[s.indirect], k - NUM_DIRECT, a)];
            DiskOk(bsize, disk') && Extends(s, s.(size := s.size + bsize), f, bsize, disk, disk', k, a)
  {
    var s' := s.(size := s.size + bsize);
    var disk' := disk[s.indirect := PutPointer(disk[s.indirect], k - NUM_DIRECT, a)];
    BlockCountOf(k + 1, bsize);
    assert s'.size == (k + 1) * bsize;
    forall i: nat | i < NUM_DIRECT + PerIndex(bsize)
      ensures Addr(s', bsize, disk', i) == if i == k then a else Addr(s, bsize, disk, i)
    {
      if i >= NUM_DIRECT {
        PutPointerAt(disk[s.indirect], k - NUM_DIRECT, a, i - NUM_DIRECT);
      }
    }
  }

  /** Attach block a, filled with zeros, as the index block. */
  ghost function AddIndex(st: State, f: int, a: nat): State
    requires Conserved(st) && f in st.files && Unowned(st, a)
  {
    st.(disk := st.disk[a := Zeros(st.bsize)],
        files := st.files[f := st.files[f].(indirect := a)],
        owner := st.owner[a := Index(f)])
  }

  lemma AddIndexSound(st: State, f: int, k: nat, a: nat)
    requires Whole(st, f, k) && Unowned(st, a) && st.files[f].indirect == 0
    ensures Whole(AddIndex(st, f, a), f, k) && OthersKept(st, AddIndex(st, f, a), f) && TailsKept(st, AddIndex(st, f, a))
    ensures Content(AddIndex(st, f, a), f) == Content(st, f)
  {
    var st', s := AddIndex(st, f, a), st.files[f];
    var s' := st'.files[f];
    assert StreamOk(s, f, st.bsize, st.disk, st.owner);
    BlockCountOf(k, st.bsize);
    forall i: nat | i < k ensures BlockOwned(s', f, st.bsize, st'.disk, st'.owner, i) {
      assert BlockOwned(s, f, st.bsize, st.disk, st.owner, i);
    }
    forall i: nat | NUM_DIRECT <= i < NUM_DIRECT + PerIndex(st.bsize) ensures Addr(s', st.bsize, st'.disk, i) == 0 {
      ZerosPointer(st.bsize, i - NUM_DIRECT);
    }
    forall b | b in st'.owner && OwnedBy(st'.owner[b], f) && b != a ensures OwnerOk(b, st) {
    }
    Rebuild(st, st', f);
    AddIndexContent(st, st', f, k, a);
  }

  lemma AddIndexContent(st: State, st': State, f: int, k: nat, a: nat)
    requires Whole(st, f, k) && Unowned(st, a) && st.files[f].indirect == 0 && st' == AddIndex(st, f, a) && Conserved(st')
    ensures Content(st', f) == Content(st, f)
  {
    var s, s' := st.files[f], st'.files[f];
    assert StreamOk(s, f, st.bsize, st.disk, st.owner);
    BlockCountOf(k, st.bsize);
    MappedIfOk(st, f);
    MappedIfOk(st', f);
    forall i: nat | i < k ensures SameBlock(s, s', st.bsize, st.disk, st'.disk, i) {
      assert BlockOwned(s, f, st.bsize, st.disk, st.owner, i);
    }
    SamePrefix(s, s', st.bsize, st.disk, st'.disk, s.size);
    assert Content(st', f)[..s.size] == Content(st', f) && Content(st, f)[..s.size] == Content(st, f);
  }

  /** Give the file another size that needs as many blocks. */
  ghost function Resize(st: State, f: int, size: nat): State
    requires f in st.files
  {
    st.(files := st.files[f := st.files[f].(size := size)])
  }

  lemma ResizeSound(st: State, f: int, size: nat)
    requires Conserved(st) && f in st.files && BlockCount(size, st.bsize) == BlockCount(st.files[f].size, st.bsize)
    ensures Conserved(Resize(st, f, size)) && OthersKept(st, Resize(st, f, size), f) && TailsKept(st, Resize(st, f, size))
    ensures var n := if size < st.files[f].size then size else st.files[f].size;
            Content(Resize(st, f, size), f)[..n] == Content(st, f)[..n]
  {
    var st', s := Resize(st, f, size), st.files[f];
    hide EntriesInside;
    var s' := st'.files[f];
    assert StreamOk(s, f, st.bsize, st.disk, st.owner);
    SameEntries(s, s', st.bsize, st.disk, st'.disk);
    forall i: nat | i < BlockCount(size, st.bsize) ensures BlockOwned(s', f, st.bsize, st'.disk, st'.owner, i) {
      assert BlockOwned(s, f, st.bsize, st.disk, st.owner, i);
    }
    forall b | b in st'.owner ensures OwnerOk(b, st) {
    }
    SameTail(s, s', st.bsize, st.disk, st'.disk);
    hide TailClear, BlockOwned, Addr;
    Rebuild(st, st', f);
    ResizeContent(st, st', f, size);
  }

  /** What is behind the file's last block is as clear as it was. */
  lemma SameTail(s: Stream, s': Stream, bsize: nat, disk: seq<Block>, disk': seq<Block>)
    requires DiskOk(bsize, disk) && StreamShape(s, bsize, disk) && DiskOk(bsize, disk') && StreamShape(s', bsize, disk')
    requires BlockCount(s'.size, bsize) == BlockCount(s.size, bsize) && s'.indirect == s.indirect
    requires forall i: nat :: NUM_DIRECT <= i < NUM_DIRECT + PerIndex(bsize) && s.indirect != 0 ==> Addr(s', bsize, disk', i) == Addr(s, bsize, disk, i)
    ensures TailClear(s, bsize, disk) ==> TailClear(s', bsize, disk')
  {
    if TailClear(s, bsize, disk) {
      forall i: nat | BlockCount(s'.size, bsize) <= i < NUM_DIRECT + PerIndex(bsize) && NUM_DIRECT <= i && s'.indirect != 0
        ensures Addr(s', bsize, disk', i) == 0
      {
        assert Addr(s, bsize, disk, i) == 0;
      }
    }
  }

  lemma ResizeContent(st: State, st': State, f: int, size: nat)
    requires Conserved(st) && Conserved(st') && f in st.files && st' == Resize(st, f, size)
    requires BlockCount(size, st.bsize) == BlockCount(st.files[f].size, st.bsize)
    ensures var n := if size < st.files[f].size then size else st.files[f].size; Content(st', f)[..n] == Content(st, f)[..n]
  {
    hide Conserved;
    var s, s' := st.files[f], st'.files[f];
    MappedIfOk(st, f);
    MappedIfOk(st', f);
    SamePrefix(s, s', st.bsize, st.disk, st'.disk, if size < s.size then size else s.size);
  }

  // ---- overwriting part of a data block

  function Splice(b: seq<byte>, off: nat, bytes: seq<byte>): (b': seq<byte>)
    requires off + |bytes| <= |b|
    ensures |b'| == |b|
    ensures forall j :: 0 <= j < |b| ==> b'[j] == if off <= j < off + |bytes| then bytes[j - off] else b[j]
  {
    b[..off] + bytes + b[off + |bytes|..]
  }

  lemma SpliceAfter(b: seq<byte>, off: nat, x: seq<byte>, y: seq<byte>)
    requires off + |x| + |y| <= |b|
    ensures Splice(Splice(b, off, x), off + |x|, y) == Splice(b, off, x + y)
  {
  }

  /** Overwrite bytes of block i of the file, from offset off on. */
  ghost function Poke(st: State, f: int, i: nat, off: nat, bytes: seq<byte>): State
    requires Conserved(st) && f in st.files && i < BlockCount(st.files[f].size, st.bsize) && off + |bytes| <= st.bsize
  {
    assert StreamOk(st.files[f], f, st.bsize, st.disk, st.owner);
    assert BlockOwned(st.files[f], f, st.bsize, st.disk, st.owner, i);
    var a := Addr(st.files[f], st.bsize, st.disk, i);
    st.(disk := st.disk[a := Splice(st.disk[a], off, bytes)])
  }

  lemma PokeSound(st: State, f: int, i: nat, off: nat, bytes: seq<byte>)
    requires Conserved(st) && f in st.files && i < BlockCount(st.files[f].size, st.bsize) && off + |bytes| <= st.bsize
    ensures Conserved(Poke(st, f, i, off, bytes)) && OthersKept(st, Poke(st, f, i, off, bytes), f)
    ensures TailsKept(st, Poke(st, f, i, off, bytes))
    ensures forall j: nat :: j < NUM_DIRECT + PerIndex(st.bsize) && (j < NUM_DIRECT || st.files[f].indirect != 0) ==>
              Addr(st.files[f], st.bsize, Poke(st, f, i, off, bytes).disk, j) == Addr(st.files[f], st.bsize, st.disk, j)
  {
    var st', s := Poke(st, f, i, off, bytes), st.files[f];
    assert StreamOk(s, f, st.bsize, st.disk, st.owner);
    assert BlockOwned(s, f, st.bsize, st.disk, st.owner, i);
    var a := Addr(s, st.bsize, st.disk, i);
    assert a != s.indirect || s.indirect == 0;
    hide EntriesInside;
    SameEntries(s, s, st.bsize, st.disk, st'.disk);
    forall j: nat | j < BlockCount(s.size, st.bsize) ensures BlockOwned(s, f, st.bsize, st'.disk, st'.owner, j) {
      assert BlockOwned(s, f, st.bsize, st.disk, st.owner, j);
    }
    forall b | b in st'.owner ensures OwnerOk(b, st) {
    }
    SameTail(s, s, st.bsize, st.disk, st'.disk);
    hide TailClear, BlockOwned;
    Rebuild(st, st', f);
  }

  /** Its effect on the file is to overwrite the same bytes of the contents. */
  lemma PokeContent(st: State, f: int, i: nat, off: nat, bytes: seq<byte>)
    requires Conserved(st) && f in st.files && i < BlockCount(st.files[f].size, st.bsize) && off + |bytes| <= st.bsize
    requires i * st.bsize + off + |bytes| <= st.files[f].size
    requires Conserved(Poke(st, f, i, off, bytes))
    ensures Content(Poke(st, f, i, off, bytes), f) == Splice(Content(st, f), i * st.bsize + off, bytes)
  {
    var st', s := Poke(st, f, i, off, bytes), st.files[f];
    PokeSound(st, f, i, off, bytes);
    MappedIfOk(st, f);
    MappedIfOk(st', f);
    forall p: nat | p < s.size
      ensures ByteAt(s, st.bsize, st'.disk, p) == Splice(Content(st, f), i * st.bsize + off, bytes)[p]
    {
      PokeByte(st, f, i, off, bytes, p);
    }
  }

  lemma PokeByte(st: State, f: int, i: nat, off: nat, bytes: seq<byte>, p: nat)
    requires Conserved(st) && f in st.files && i < BlockCount(st.files[f].size, st.bsize) && off + |bytes| <= st.bsize
    requires Conserved(Poke(st, f, i, off, bytes)) && p < st.files[f].size
    requires Mapped(st.files[f], st.bsize, st.disk) && Mapped(st.files[f], st.bsize, Poke(st, f, i, off, bytes).disk)
    ensures ByteAt(st.files[f], st.bsize, Poke(st, f, i, off, bytes).disk, p) ==
            var q := i * st.bsize + off; if q <= p < q + |bytes| then bytes[p - q] else ByteAt(st.files[f], st.bsize, st.disk, p)
  {
    hide Conserved, TailsKept, StreamOk;
    var st', s := Poke(st, f, i, off, bytes), st.files[f];
    PokeSound(st, f, i, off, bytes);
    InFile(s.size, st.bsize, p);
    PositionInBlock(p, i, off, |bytes|, st.bsize);
    PokeBlock(st, f, i, off, bytes, p / st.bsize, st');
  }

  /** Block j after the overwrite. */
  lemma PokeBlock(st: State, f: int, i: nat, off: nat, bytes: seq<byte>, j: nat, st': State)
    requires Conserved(st) && f in st.files && i < BlockCount(st.files[f].size, st.bsize) && off + |bytes| <= st.bsize
    requires j < BlockCount(st.files[f].size, st.bsize) && st' == Poke(st, f, i, off, bytes)
    ensures DiskOk(st.bsize, st.disk) && StreamShape(st.files[f], st.bsize, st.disk) && |st'.disk| == |st.disk|
    ensures Addr(st.files[f], st.bsize, st.disk, j) < |st.disk| && |st.disk[Addr(st.files[f], st.bsize, st.disk, j)]| == st.bsize
    ensures var a := Addr(st.files[f], st.bsize, st.disk, j);
            st'.disk[a] == if i == j then Splice(st.disk[a], off, bytes) else st.disk[a]
  {
    var s := st.files[f];
    assert StreamOk(s, f, st.bsize, st.disk, st.owner);
    assert BlockOwned(s, f, st.bsize, st.disk, st.owner, i) && BlockOwned(s, f, st.bsize, st.disk, st.owner, j);
  }

  lemma PositionInBlock(p: nat, i: nat, off: nat, len: nat, bsize: nat)
    requires bsize > 0 && off + len <= bsize
    ensures i * bsize + off <= p < i * bsize + off + len <==> p / bsize == i && off <= p % bsize < off + len
    ensures i * bsize + off <= p < i * bsize + off + len ==> p - (i * bsize + off) == p % bsize - off
  {
    var j, r := p / bsize, p % bsize;
    assert p == j * bsize + r;
    if j < i {
      MulMono(j + 1, i, bsize);
    } else if j > i {
      MulMono(i + 1, j, bsize);
    }
  }

  lemma OthersTransitive(st: State, st': State, st'': State, f: int)
    requires OthersKept(st, st', f) && OthersKept(st', st'', f)
    ensures OthersKept(st, st'', f)
  {
  }

  // ---- shrinking

  /** The blocks shrink_dstream keeps for a file of the given new size: it rounds new size - 1 up. */
  function KeptBlocks(size: nat, bsize: nat): nat
    requires bsize >= 2
  {
    (size + bsize - 2) / bsize
  }

  /** It keeps one block too few exactly when the last block would hold a single byte. */
  lemma KeptBlocksIs(size: nat, bsize: nat)
    requires bsize >= 2
    ensures KeptBlocks(size, bsize) == BlockCount(size, bsize) - if size % bsize == 1 then 1 else 0
  {
    var q, r := size / bsize, size % bsize;
    assert size == q * bsize + r;
    if r == 0 {
      DivUnique(size + bsize - 1, bsize, q, bsize - 1);
      DivUnique(size + bsize - 2, bsize, q, bsize - 2);
    } else {
      assert (q + 1) * bsize == q * bsize + bsize;
      DivUnique(size + bsize - 1, bsize, q + 1, r - 1);
      if r == 1 {
        DivUnique(size + bsize - 2, bsize, q, bsize - 1);
      } else {
        DivUnique(size + bsize - 2, bsize, q + 1, r - 2);
      }
    }
  }

  lemma BlockCountMono(m: nat, n: nat, bsize: nat)
    requires m <= n && bsize > 0
    ensures BlockCount(m, bsize) <= BlockCount(n, bsize)
  {
    DivMono(m + bsize - 1, n + bsize - 1, bsize);
  }

  // ---- shrinking: the blocks it frees

  /** What a loop over addresses that stops at the first zero goes through. */
  function NonZero(s: seq<nat>): seq<nat> {
    if s == [] || s[0] == 0 then [] else [s[0]] + NonZero(s[1..])
  }

  lemma {:induction false} NonZeroIs(s: seq<nat>, n: nat)
    requires n <= |s| && forall j :: 0 <= j < n ==> s[j] != 0
    ensures n <= |NonZero(s)| <= |s| && NonZero(s)[..n] == s[..n]
    ensures n == |s| || s[n] == 0 ==> NonZero(s) == s[..n]
    ensures n < |s| && s[n] != 0 ==> n < |NonZero(s)| && NonZero(s)[n] == s[n]
  {
    if n > 0 {
      NonZeroIs(s[1..], n - 1);
      assert s[..n] == [s[0]] + s[1..][..n - 1];
    } else if s != [] && s[0] != 0 {
      NonZeroIs(s[1..], 0);
    }
  }

  /** The entries of an index block. */
  function Table(b: Block): (t: seq<nat>)
    ensures |t| == PerIndex(|b|)
  {
    seq(PerIndex(|b|), i requires 0 <= i < PerIndex(|b|) => Pointer(b, i))
  }

  /** The blocks that trimming the index block frees, one after the other, entries that were left behind by an
      earlier cut included. */
  ghost function IndexFreed(s: Stream, bsize: nat, disk: seq<Block>, kept: nat): seq<nat>
    requires DiskOk(bsize, disk) && StreamShape(s, bsize, disk) && kept <= NUM_DIRECT + PerIndex(bsize)
  {
    if s.indirect == 0 then []
    else if kept <= NUM_DIRECT then NonZero(Table(disk[s.indirect])) + [s.indirect]
    else NonZero(Table(disk[s.indirect])[kept - NUM_DIRECT..])
  }

  /** The blocks that shrink_dstream frees, one after the other. */
  ghost function FreedBlocks(st: State, f: int, size: nat): seq<nat>
    requires Conserved(st) && f in st.files && size <= st.files[f].size
  {
    var s, kept := st.files[f], KeptBlocks(size, st.bsize);
    assert StreamOk(s, f, st.bsize, st.disk, st.owner);
    KeptAtMost(size, s.size, st.bsize);
    if BlockCount(s.size, st.bsize) == kept then []
    else IndexFreed(s, st.bsize, st.disk, kept) + if kept < NUM_DIRECT then NonZero(s.direct[kept..]) else []
  }

  lemma KeptAtMost(size: nat, old': nat, bsize: nat)
    requires bsize >= 2 && size <= old'
    ensures KeptBlocks(size, bsize) <= BlockCount(size, bsize) <= BlockCount(old', bsize)
  {
    KeptBlocksIs(size, bsize);
    BlockCountMono(size, old', bsize);
  }

  /** The outcome of shrink_dstream. */
  ghost function ShrinkTo(st: State, f: int, size: nat): State
    requires Conserved(st) && f in st.files && size <= st.files[f].size
  {
    var s, kept, freed := st.files[f], KeptBlocks(size, st.bsize), FreedBlocks(st, f, size);
    assert StreamOk(s, f, st.bsize, st.disk, st.owner);
    var s' := if BlockCount(s.size, st.bsize) == kept then s.(size := size)
              else Stream(seq(NUM_DIRECT, i requires 0 <= i < NUM_DIRECT => if i < kept then s.direct[i] else 0),
                          if kept <= NUM_DIRECT then 0 else s.indirect, size);
    st.(files := st.files[f := s'], owner := map b | b in st.owner && b !in freed :: st.owner[b])
  }

  /** Each block freed is in use until then: so the count of used blocks stays right. */
  ghost predicate FreesOnce(st: State, f: int, size: nat)
    requires Conserved(st) && f in st.files && size <= st.files[f].size
  {
    var l := FreedBlocks(st, f, size);
    Distinct(l) && forall b :: b in l ==> b in st.owner
  }

  /** The number of blocks freed is the number of blocks no longer in use just if each was in use once. */
  lemma FreesCounted(st: State, f: int, size: nat)
    requires Conserved(st) && f in st.files && size <= st.files[f].size
    ensures |ShrinkTo(st, f, size).owner.Keys| == |st.owner.Keys| - |FreedBlocks(st, f, size)| <==> FreesOnce(st, f, size)
  {
    hide Conserved, FreedBlocks;
    assert ShrinkTo(st, f, size).owner.Keys == st.owner.Keys - Elems(FreedBlocks(st, f, size));
    RemovedOnce(FreedBlocks(st, f, size), st.owner.Keys);
  }

  // ---- shrinking: when it is in order

  /** The new last block has more than one byte, and if blocks are dropped, the entry of the index block behind
      the file's last block is zero, or there is none. */
  ghost predicate ShrinkFits(st: State, f: int, size: nat)
    requires Conserved(st) && f in st.files
  {
    var s := st.files[f];
    assert StreamOk(s, f, st.bsize, st.disk, st.owner);
    size % st.bsize != 1 && (BlockCount(size, st.bsize) == BlockCount(s.size, st.bsize) || EndOfTable(s, st.bsize, st.disk))
  }

  ghost predicate EndOfTable(s: Stream, bsize: nat, disk: seq<Block>)
    requires DiskOk(bsize, disk) && StreamShape(s, bsize, disk)
  {
    var e := BehindLast(s, bsize);
    s.indirect == 0 || e == PerIndex(bsize) || Pointer(disk[s.indirect], e) == 0
  }

  /** The entry of the index block behind the file's last block. */
  function BehindLast(s: Stream, bsize: nat): nat
    requires bsize > 0
  {
    if BlockCount(s.size, bsize) > NUM_DIRECT then BlockCount(s.size, bsize) - NUM_DIRECT else 0
  }

  /** What the loop over the index block, from entry i0 on, meets: the file's blocks, and then perhaps others. */
  lemma IndexRun(st: State, f: int, i0: nat)
    requires Conserved(st) && f in st.files && st.files[f].indirect != 0 && i0 <= BehindLast(st.files[f], st.bsize)
    ensures DiskOk(st.bsize, st.disk) && StreamShape(st.files[f], st.bsize, st.disk)
    ensures var s := st.files[f]; var t, e := Table(st.disk[s.indirect]), BehindLast(s, st.bsize);
      && i0 <= e <= |t| == PerIndex(st.bsize)
      && (forall j :: 0 <= j < e ==> t[j] in st.owner && st.owner[t[j]] == Data(f, j + NUM_DIRECT) && t[j] == Addr(s, st.bsize, st.disk, j + NUM_DIRECT))
      && var l := NonZero(t[i0..]);
         && e - i0 <= |l| && l[..e - i0] == t[i0..e]
         && (EndOfTable(s, st.bsize, st.disk) ==> l == t[i0..e])
         && (!EndOfTable(s, st.bsize, st.disk) ==> e < |t| && e - i0 < |l| && l[e - i0] == t[e])
  {
    hide OwnerOk;
    var s := st.files[f];
    assert StreamOk(s, f, st.bsize, st.disk, st.owner);
    var t, e := Table(st.disk[s.indirect]), BehindLast(s, st.bsize);
    forall j | 0 <= j < e ensures t[j] != 0 && t[j] in st.owner && st.owner[t[j]] == Data(f, j + NUM_DIRECT) {
      assert BlockOwned(s, f, st.bsize, st.disk, st.owner, j + NUM_DIRECT);
    }
    NonZeroIs(t[i0..], e - i0);
    assert t[i0..][..e - i0] == t[i0..e];
  }

  /** Likewise for the direct blocks, behind which there is nothing. */
  lemma DirectRun(st: State, f: int, i0: nat)
    requires Conserved(st) && f in st.files && i0 < NUM_DIRECT && i0 <= BlockCount(st.files[f].size, st.bsize)
    ensures var s, n := st.files[f], BlockCount(st.files[f].size, st.bsize); var e := if n < NUM_DIRECT then n else NUM_DIRECT;
      && |s.direct| == NUM_DIRECT && NonZero(s.direct[i0..]) == s.direct[i0..e]
      && (forall j :: 0 <= j < e ==> s.direct[j] in st.owner && st.owner[s.direct[j]] == Data(f, j))
  {
    hide OwnerOk;
    var s, n := st.files[f], BlockCount(st.files[f].size, st.bsize);
    var e := if n < NUM_DIRECT then n else NUM_DIRECT;
    assert StreamOk(s, f, st.bsize, st.disk, st.owner);
    forall j | 0 <= j < e ensures s.direct[j] != 0 && s.direct[j] in st.owner && st.owner[s.direct[j]] == Data(f, j) {
      assert BlockOwned(s, f, st.bsize, st.disk, st.owner, j);
    }
    NonZeroIs(s.direct[i0..], e - i0);
    assert s.direct[i0..][..e - i0] == s.direct[i0..e];
  }

  /** A block of file f that a cut down to `kept` blocks gives back. */
  predicate Dropped(o: Owner, f: int, kept: nat) {
    (o.Data? && o.f == f && o.i >= kept) || (o == Index(f) && kept <= NUM_DIRECT)
  }

  /** Who owns the blocks that are freed, in that order, if only the file's own are. */
  ghost function FreedFrom(f: int, n: nat, indexed: bool, kept: nat): seq<Owner> {
    IndexFrom(f, n, indexed, kept) + (if kept < NUM_DIRECT then DataFrom(f, kept, if n < NUM_DIRECT then n else NUM_DIRECT) else [])
  }

  ghost function IndexFrom(f: int, n: nat, indexed: bool, kept: nat): seq<Owner> {
    (if n > NUM_DIRECT then DataFrom(f, if kept > NUM_DIRECT then kept else NUM_DIRECT, n) else [])
    + (if indexed && kept <= NUM_DIRECT then [Index(f)] else [])
  }

  ghost function DataFrom(f: int, lo: nat, hi: nat): seq<Owner> {
    if lo > hi then [] else seq(hi - lo, i requires 0 <= i < hi - lo => Data(f, lo + i))
  }

  lemma FreedFromIs(f: int, n: nat, indexed: bool, kept: nat)
    requires kept <= n && (n > NUM_DIRECT ==> indexed)
    ensures Distinct(FreedFrom(f, n, indexed, kept))
    ensures forall o :: o in FreedFrom(f, n, indexed, kept) <==>
              (o.Data? && o.f == f && kept <= o.i < n) || (o == Index(f) && indexed && kept <= NUM_DIRECT)
  {
    var l := FreedFrom(f, n, indexed, kept);
    var a := if n > NUM_DIRECT then DataFrom(f, if kept > NUM_DIRECT then kept else NUM_DIRECT, n) else [];
    var b := if indexed && kept <= NUM_DIRECT then [Index(f)] else [];
    var m := if n < NUM_DIRECT then n else NUM_DIRECT;
    var c := if kept < NUM_DIRECT then DataFrom(f, kept, m) else [];
    assert l == a + b + c;
    forall i: nat | kept <= i < n ensures Data(f, i) in l {
      if i >= NUM_DIRECT {
        assert a[i - if kept > NUM_DIRECT then kept else NUM_DIRECT] == Data(f, i);
        assert Data(f, i) in a;
      } else {
        assert c[i - kept] == Data(f, i);
        assert Data(f, i) in c;
      }
    }
  }

  /** A cut that fits frees exactly the file's blocks behind the new end, each once. */
  lemma FitsFrees(st: State, f: int, size: nat)
    requires Conserved(st) && f in st.files && size <= st.files[f].size && ShrinkFits(st, f, size)
    ensures FreesOnce(st, f, size)
    ensures forall b :: b in st.owner ==> (b in FreedBlocks(st, f, size) <==>
              Dropped(st.owner[b], f, KeptBlocks(size, st.bsize)) && KeptBlocks(size, st.bsize) < BlockCount(st.files[f].size, st.bsize))
  {
    KeptBlocksIs(size, st.bsize);
    KeptAtMost(size, st.files[f].size, st.bsize);
    if KeptBlocks(size, st.bsize) < BlockCount(st.files[f].size, st.bsize) {
      FreedOwners(st, f, size);
      OwnersFree(st, f, FreedBlocks(st, f, size), KeptBlocks(size, st.bsize));
    }
  }

  lemma FreedOwners(st: State, f: int, size: nat)
    requires Conserved(st) && f in st.files && size <= st.files[f].size && ShrinkFits(st, f, size)
    requires KeptBlocks(size, st.bsize) == BlockCount(size, st.bsize) < BlockCount(st.files[f].size, st.bsize)
    ensures st.bsize > 0 && FreedAre(st, f, FreedBlocks(st, f, size), KeptBlocks(size, st.bsize))
  {
    StreamIs(st, f);
    hide EntriesInside, Addr, BlockOwned, NonZero, IndexFreed, EndOfTable, DataFrom, IndexFrom;
    var s, kept, n := st.files[f], KeptBlocks(size, st.bsize), BlockCount(st.files[f].size, st.bsize);
    var m := if n < NUM_DIRECT then n else NUM_DIRECT;
    var a := IndexFrom(f, n, s.indirect != 0, kept);
    var b := if kept < NUM_DIRECT then DataFrom(f, kept, m) else [];
    IndexOwners(st, f, kept);
    if kept < NUM_DIRECT {
      DirectRun(st, f, kept);
      DirectOwners(st, f, kept, m);
    }
    hide Conserved;
    OwnersJoin(st, IndexFreed(s, st.bsize, st.disk, kept), a, if kept < NUM_DIRECT then NonZero(s.direct[kept..]) else [], b);
  }

  /** What IndexOwners says of a stream. */
  ghost predicate IndexOwned(st: State, f: int, kept: nat)
    requires f in st.files && DiskOk(st.bsize, st.disk) && StreamShape(st.files[f], st.bsize, st.disk)
    requires kept <= NUM_DIRECT + PerIndex(st.bsize)
  {
    var s := st.files[f];
    OwnersAre(st, IndexFreed(s, st.bsize, st.disk, kept), IndexFrom(f, BlockCount(s.size, st.bsize), s.indirect != 0, kept))
  }

  lemma IndexOwners(st: State, f: int, kept: nat)
    requires Conserved(st) && f in st.files && DiskOk(st.bsize, st.disk) && StreamShape(st.files[f], st.bsize, st.disk)
    requires kept < BlockCount(st.files[f].size, st.bsize) && EndOfTable(st.files[f], st.bsize, st.disk)
    ensures IndexOwned(st, f, kept)
  {
    hide IndexOwned;
    if st.files[f].indirect == 0 {
      NoIndexOwners(st, f, kept);
    } else if kept <= NUM_DIRECT {
      IndexOwnersLow(st, f, kept);
    } else {
      IndexOwnersHigh(st, f, kept);
    }
  }

  lemma NoIndexOwners(st: State, f: int, kept: nat)
    requires f in st.files && DiskOk(st.bsize, st.disk) && StreamShape(st.files[f], st.bsize, st.disk)
    requires kept < BlockCount(st.files[f].size, st.bsize) && st.files[f].indirect == 0
    ensures IndexOwned(st, f, kept)
  {
  }

  lemma IndexOwnersLow(st: State, f: int, kept: nat)
    requires Conserved(st) && f in st.files && DiskOk(st.bsize, st.disk) && StreamShape(st.files[f], st.bsize, st.disk)
    requires kept < BlockCount(st.files[f].size, st.bsize) && EndOfTable(st.files[f], st.bsize, st.disk)
    requires st.files[f].indirect != 0 && kept <= NUM_DIRECT
    ensures IndexOwned(st, f, kept)
  {
    var s := st.files[f];
    var t, e := Table(st.disk[s.indirect]), BehindLast(s, st.bsize);
    IndexRunOwners(st, f, 0);
    IndexIsOwned(st, f);
    hide Conserved, EndOfTable, DataFrom, OwnersAre, NonZero, Table;
    NoneFrom(f, NUM_DIRECT);
    assert t[0..] == t;
    var l, o := t[0..e], DataFrom(f, NUM_DIRECT, e + NUM_DIRECT);
    assert IndexFreed(s, st.bsize, st.disk, kept) == l + [s.indirect];
    assert IndexFrom(f, BlockCount(s.size, st.bsize), true, kept) == o + [Index(f)];
    OneOwner(st, s.indirect);
    OwnersJoin(st, l, o, [s.indirect], [Index(f)]);
  }

  lemma IndexIsOwned(st: State, f: int)
    requires Conserved(st) && f in st.files && st.files[f].indirect != 0
    ensures st.files[f].indirect in st.owner && st.owner[st.files[f].indirect] == Index(f)
  {
    StreamIs(st, f);
  }

  lemma IndexOwnersHigh(st: State, f: int, kept: nat)
    requires Conserved(st) && f in st.files && DiskOk(st.bsize, st.disk) && StreamShape(st.files[f], st.bsize, st.disk)
    requires kept < BlockCount(st.files[f].size, st.bsize) && EndOfTable(st.files[f], st.bsize, st.disk)
    requires st.files[f].indirect != 0 && kept > NUM_DIRECT
    ensures IndexOwned(st, f, kept)
  {
    var s := st.files[f];
    var t, e, i0 := Table(st.disk[s.indirect]), BehindLast(s, st.bsize), kept - NUM_DIRECT;
    IndexRunOwners(st, f, i0);
    hide Conserved, EndOfTable, DataFrom, OwnersAre, NonZero, Table;
    assert IndexFreed(s, st.bsize, st.disk, kept) == t[i0..e];
    var o := DataFrom(f, kept, e + NUM_DIRECT);
    assert IndexFrom(f, BlockCount(s.size, st.bsize), true, kept) == o + [] == o;
  }

  lemma IndexRunOwners(st: State, f: int, i0: nat)
    requires Conserved(st) && f in st.files && st.files[f].indirect != 0 && i0 <= BehindLast(st.files[f], st.bsize)
    requires DiskOk(st.bsize, st.disk) && StreamShape(st.files[f], st.bsize, st.disk) && EndOfTable(st.files[f], st.bsize, st.disk)
    ensures var s := st.files[f]; var t, e := Table(st.disk[s.indirect]), BehindLast(s, st.bsize);
      && i0 <= e <= |t| && NonZero(t[i0..]) == t[i0..e] && OwnersAre(st, t[i0..e], DataFrom(f, i0 + NUM_DIRECT, e + NUM_DIRECT))
  {
    hide OwnersAre, DataFrom;
    IndexRun(st, f, i0);
    var s := st.files[f];
    hide Conserved;
    TableOwners(st, f, Table(st.disk[s.indirect]), i0, BehindLast(s, st.bsize));
  }

  lemma NoneFrom(f: int, n: nat)
    ensures DataFrom(f, n, n) == []
  {
  }

  lemma OneOwner(st: State, b: nat)
    requires b in st.owner
    ensures OwnersAre(st, [b], [st.owner[b]])
  {
  }

  lemma TableOwners(st: State, f: int, t: seq<nat>, i0: nat, e: nat)
    requires i0 <= e <= |t| && forall j :: 0 <= j < e ==> t[j] in st.owner && st.owner[t[j]] == Data(f, j + NUM_DIRECT)
    ensures OwnersAre(st, t[i0..e], DataFrom(f, i0 + NUM_DIRECT, e + NUM_DIRECT))
  {
  }

  lemma DirectOwners(st: State, f: int, kept: nat, m: nat)
    requires f in st.files && kept <= m <= NUM_DIRECT == |st.files[f].direct|
    requires forall j :: kept <= j < m ==> st.files[f].direct[j] in st.owner && st.owner[st.files[f].direct[j]] == Data(f, j)
    ensures OwnersAre(st, st.files[f].direct[kept..m], DataFrom(f, kept, m))
  {
  }

  ghost predicate OwnersAre(st: State, l: seq<nat>, o: seq<Owner>) {
    |l| == |o| && forall i :: 0 <= i < |l| ==> l[i] in st.owner && st.owner[l[i]] == o[i]
  }

  lemma OwnersJoin(st: State, l1: seq<nat>, o1: seq<Owner>, l2: seq<nat>, o2: seq<Owner>)
    requires OwnersAre(st, l1, o1) && OwnersAre(st, l2, o2)
    ensures OwnersAre(st, l1 + l2, o1 + o2)
  {
  }

  lemma StreamIs(st: State, f: int)
    requires Conserved(st) && f in st.files
    ensures DiskOk(st.bsize, st.disk) && StreamShape(st.files[f], st.bsize, st.disk)
    ensures StreamOk(st.files[f], f, st.bsize, st.disk, st.owner)
  {
  }

  /** The blocks in l belong to the file's places behind the cut, one to each. */
  ghost predicate FreedAre(st: State, f: int, l: seq<nat>, kept: nat)
    requires st.bsize > 0 && f in st.files
  {
    OwnersAre(st, l, FreedFrom(f, BlockCount(st.files[f].size, st.bsize), st.files[f].indirect != 0, kept))
  }

  lemma OwnersFree(st: State, f: int, l: seq<nat>, kept: nat)
    requires Conserved(st) && f in st.files && kept < BlockCount(st.files[f].size, st.bsize) && FreedAre(st, f, l, kept)
    ensures Distinct(l) && (forall b :: b in l ==> b in st.owner)
    ensures forall b :: b in st.owner ==> (b in l <==> Dropped(st.owner[b], f, kept))
  {
    var s, n := st.files[f], BlockCount(st.files[f].size, st.bsize);
    StreamIs(st, f);
    hide StreamOk;
    var o := FreedFrom(f, n, s.indirect != 0, kept);
    FreedFromIs(f, n, s.indirect != 0, kept);
    hide FreedFrom;
    forall b | b in st.owner ensures b in l <==> Dropped(st.owner[b], f, kept) {
      OwnerIs(st, b);
      if Dropped(st.owner[b], f, kept) {
        assert st.owner[b] in o;
        var i :| 0 <= i < |o| && o[i] == st.owner[b];
        OwnerOnce(st, b, l[i]);
      }
    }
  }

  /** No two blocks are in the same place. */
  lemma OwnerOnce(st: State, a: nat, b: nat)
    requires Conserved(st) && a in st.owner && b in st.owner && st.owner[a] == st.owner[b] != Meta
    ensures a == b
  {
    OwnerIs(st, a);
    OwnerIs(st, b);
  }

  /** st' is st with file f cut down to the blocks it needs for the given size. */
  ghost predicate Cut(st: State, st': State, f: int, size: nat)
    requires Conserved(st) && f in st.files
  {
    var s, kept := st.files[f], BlockCount(size, st.bsize);
    && f in st'.files && st' == st.(files := st.files[f := st'.files[f]], owner := st'.owner)
    && kept <= BlockCount(s.size, st.bsize)
    && (kept == BlockCount(s.size, st.bsize) ==> st' == Resize(st, f, size))
    && (kept < BlockCount(s.size, st.bsize) ==>
        var s' := st'.files[f];
        && |s'.direct| == |s.direct| && (forall i :: 0 <= i < |s.direct| ==> s'.direct[i] == if i < kept then s.direct[i] else 0)
        && s'.indirect == (if kept <= NUM_DIRECT then 0 else s.indirect) && s'.size == size
        && st'.owner == map b | b in st.owner && !Dropped(st.owner[b], f, kept) :: st.owner[b])
  }

  lemma IsCut(st: State, f: int, size: nat)
    requires Conserved(st) && f in st.files && size <= st.files[f].size && ShrinkFits(st, f, size)
    ensures Cut(st, ShrinkTo(st, f, size), f, size)
  {
    StreamIs(st, f);
    FitsFrees(st, f, size);
    KeptBlocksIs(size, st.bsize);
    KeptAtMost(size, st.files[f].size, st.bsize);
  }

  lemma CutOrder(st: State, st': State, f: int, size: nat)
    requires Conserved(st) && f in st.files && Cut(st, st', f, size)
    requires BlockCount(size, st.bsize) < BlockCount(st.files[f].size, st.bsize)
    ensures Conserved(st') && OthersKept(st, st', f)
  {
    StreamIs(st, f);
    hide Conserved, EntriesInside, OwnerOk, StreamOk;
    var s, s', kept := st.files[f], st'.files[f], BlockCount(size, st.bsize);
    forall b | b in st.owner ensures b < |st.disk| {
      OwnerIs(st, b);
    }
    CutStream(st, st', f, size);
    forall b | b in st'.owner && OwnedBy(st'.owner[b], f)
      ensures match st'.owner[b]
              case Data(_, i) => i < kept && Addr(s', st.bsize, st'.disk, i) == b
              case Index(_) => s'.indirect == b
              case Meta => true
    {
      OwnerIs(st, b);
    }
    Rebuild(st, st', f);
  }

  lemma CutStream(st: State, st': State, f: int, size: nat)
    requires Conserved(st) && f in st.files && Cut(st, st', f, size)
    requires BlockCount(size, st.bsize) < BlockCount(st.files[f].size, st.bsize)
    ensures DiskOk(st'.bsize, st'.disk) && StreamOk(st'.files[f], f, st'.bsize, st'.disk, st'.owner)
  {
    hide EntriesInside, OwnerOk;
    var s, s', kept := st.files[f], st'.files[f], BlockCount(size, st.bsize);
    StreamIs(st, f);
    hide Conserved;
    SameEntries(s, s', st.bsize, st.disk, st'.disk);
    forall i: nat | i < kept ensures BlockOwned(s', f, st.bsize, st'.disk, st'.owner, i) {
      assert BlockOwned(s, f, st.bsize, st.disk, st.owner, i);
    }
  }

  lemma CutContent(st: State, st': State, f: int, size: nat)
    requires Conserved(st) && f in st.files && Cut(st, st', f, size) && Conserved(st') && size <= st.files[f].size
    ensures Content(st', f) == Content(st, f)[..size]
  {
    hide Conserved;
    var s, s' := st.files[f], st'.files[f];
    MappedIfOk(st, f);
    MappedIfOk(st', f);
    SamePrefix(s, s', st.bsize, st.disk, st'.disk, size);
  }

  /** Stale entries are left behind exactly by cuts that end in the indirect range. */
  lemma CutTail(st: State, st': State, f: int, size: nat)
    requires Conserved(st) && f in st.files && Cut(st, st', f, size) && Conserved(st')
    ensures DiskOk(st.bsize, st.disk) && StreamShape(st.files[f], st.bsize, st.disk)
    ensures f in st'.files && DiskOk(st'.bsize, st'.disk) && StreamShape(st'.files[f], st'.bsize, st'.disk)
    ensures TailClear(st'.files[f], st'.bsize, st'.disk) <==>
              if BlockCount(size, st.bsize) == BlockCount(st.files[f].size, st.bsize) then TailClear(st.files[f], st.bsize, st.disk)
              else BlockCount(size, st.bsize) <= NUM_DIRECT
  {
    var s, s', kept := st.files[f], st'.files[f], BlockCount(size, st.bsize);
    StreamIs(st, f);
    StreamIs(st', f);
    hide Conserved;
    if NUM_DIRECT < kept < BlockCount(s.size, st.bsize) {
      assert BlockOwned(s, f, st.bsize, st.disk, st.owner, kept);
      assert Addr(s', st.bsize, st'.disk, kept) == Addr(s, st.bsize, st.disk, kept);
      ZeroIsMeta(st);
    } else if kept == BlockCount(s.size, st.bsize) {
      assert forall i: nat :: NUM_DIRECT <= i < NUM_DIRECT + PerIndex(st.bsize) ==>
        Addr(s', st.bsize, st'.disk, i) == Addr(s, st.bsize, st.disk, i);
    }
  }

  lemma OwnedAt(st: State, f: int, i: nat)
    requires Conserved(st) && f in st.files && st.bsize > 0 && i < BlockCount(st.files[f].size, st.bsize)
    ensures DiskOk(st.bsize, st.disk) && StreamShape(st.files[f], st.bsize, st.disk)
    ensures BlockOwned(st.files[f], f, st.bsize, st.disk, st.owner, i)
  {
    StreamIs(st, f);
  }

  lemma ZeroIsMeta(st: State)
    requires Conserved(st)
    ensures 0 in st.owner && st.owner[0] == Meta
  {
  }

  /** A cut that fits keeps the file's first bytes, and every block in use exactly one owner. */
  lemma ShrinkConserves(st: State, f: int, size: nat)
    requires Conserved(st) && f in st.files && size <= st.files[f].size && ShrinkFits(st, f, size)
    ensures FreesOnce(st, f, size) && Conserved(ShrinkTo(st, f, size)) && OthersKept(st, ShrinkTo(st, f, size), f)
    ensures Content(ShrinkTo(st, f, size), f) == Content(st, f)[..size]
    ensures Cut(st, ShrinkTo(st, f, size), f, size)
  {
    hide *;
    var st' := ShrinkTo(st, f, size);
    FitsFrees(st, f, size);
    IsCut(st, f, size);
    CutNothing(st, st', f, size);
    if BlockCount(size, st.bsize) < BlockCount(st.files[f].size, st.bsize) {
      CutOrder(st, st', f, size);
    } else {
      ResizeSound(st, f, size);
    }
    CutContent(st, st', f, size);
  }

  lemma CutNothing(st: State, st': State, f: int, size: nat)
    requires Conserved(st) && f in st.files && Cut(st, st', f, size)
    ensures st.bsize > 0 && BlockCount(size, st.bsize) <= BlockCount(st.files[f].size, st.bsize)
    ensures BlockCount(size, st.bsize) == BlockCount(st.files[f].size, st.bsize) ==> st' == Resize(st, f, size)
  {
  }

  /** When the new last block would hold a single byte, that block is given back although the file still needs
      it: no assignment of owners to the blocks in use makes sense of the volume any more. */
  lemma ShrinkLosesBlock(st: State, f: int, size: nat, owner: map<nat, Owner>)
    requires Conserved(st) && f in st.files && size <= st.files[f].size && size % st.bsize == 1
    requires owner.Keys == ShrinkTo(st, f, size).owner.Keys
    ensures !Conserved(ShrinkTo(st, f, size).(owner := owner))
  {
    hide OwnerOk, EntriesInside, FreedBlocks;
    var st', s := ShrinkTo(st, f, size).(owner := owner), st.files[f];
    var kept := KeptBlocks(size, st.bsize);
    StreamIs(st, f);
    KeptBlocksIs(size, st.bsize);
    KeptAtMost(size, s.size, st.bsize);
    if kept > NUM_DIRECT {
      FreesKept(st, f, size);
    }
    if Conserved(st') {
      if kept == NUM_DIRECT {
        StreamIs(st', f);
      } else {
        ZeroIsMeta(st');
        OwnedAt(st', f, kept);
      }
    }
  }

  /** In the indirect range, the first block freed is the one behind those kept. */
  lemma FreesKept(st: State, f: int, size: nat)
    requires Conserved(st) && f in st.files && size <= st.files[f].size
    requires NUM_DIRECT < KeptBlocks(size, st.bsize) < BlockCount(st.files[f].size, st.bsize)
    ensures DiskOk(st.bsize, st.disk) && StreamShape(st.files[f], st.bsize, st.disk)
    ensures Addr(st.files[f], st.bsize, st.disk, KeptBlocks(size, st.bsize)) in FreedBlocks(st, f, size)
  {
    StreamIs(st, f);
    hide Conserved;
    var s, kept := st.files[f], KeptBlocks(size, st.bsize);
    IndexRun(st, f, kept - NUM_DIRECT);
    var l := NonZero(Table(st.disk[s.indirect])[kept - NUM_DIRECT..]);
    assert l[..BehindLast(s, st.bsize) - (kept - NUM_DIRECT)][0] == l[0];
  }

  // ---- shrinking: what goes wrong otherwise

  /** a is in l at another place than x. */
  ghost predicate Elsewhere(l: seq<nat>, x: nat, a: nat) {
    exists y: nat :: y != x && y < |l| && l[y] == a
  }

  lemma OnlyOnce(l: seq<nat>, x: nat)
    requires Distinct(l) && x < |l|
    ensures !Elsewhere(l, x, l[x])
  {
  }

  lemma PlacedLeft(l: seq<nat>, r: seq<nat>, x: nat, y: nat)
    requires y < |l| && y != x
    ensures Elsewhere(l + r, x, l[y])
  {
    assert (l + r)[y] == l[y];
  }

  lemma PlacedRight(l: seq<nat>, r: seq<nat>, x: nat, y: nat)
    requires x < |l| && y < |r|
    ensures Elsewhere(l + r, x, r[y])
  {
    assert (l + r)[|l| + y] == r[y];
  }

  /** The stale entry is freed, and every other block behind the new end at another place of the list. */
  lemma StalePlaces(st: State, f: int, size: nat) returns (x: nat)
    requires Conserved(st) && f in st.files && size <= st.files[f].size && size % st.bsize != 1
    requires DiskOk(st.bsize, st.disk) && StreamShape(st.files[f], st.bsize, st.disk) && !EndOfTable(st.files[f], st.bsize, st.disk)
    requires BlockCount(size, st.bsize) < BlockCount(st.files[f].size, st.bsize)
    ensures x < |FreedBlocks(st, f, size)| && Placed(st, f, FreedBlocks(st, f, size), BlockCount(size, st.bsize), x)
  {
    var s, kept, n := st.files[f], BlockCount(size, st.bsize), BlockCount(st.files[f].size, st.bsize);
    KeptBlocksIs(size, st.bsize);
    var d := if kept < NUM_DIRECT then NonZero(s.direct[kept..]) else [];
    var l := IndexFreed(s, st.bsize, st.disk, kept);
    var freed := FreedBlocks(st, f, size);
    assert freed == l + d;
    hide FreedBlocks, IndexFreed, EndOfTable, Conserved;
    x := StaleInIndex(st, f, kept);
    if kept < NUM_DIRECT {
      DirectRun(st, f, kept);
    }
    hide NonZero, StreamOk;
    forall i: nat | kept <= i < n ensures Elsewhere(freed, x, Addr(s, st.bsize, st.disk, i)) {
      if i >= NUM_DIRECT {
        var y: nat :| y != x && y < |l| && l[y] == Addr(s, st.bsize, st.disk, i);
        PlacedLeft(l, d, x, y);
      } else {
        assert d[i - kept] == s.direct[i];
        PlacedRight(l, d, x, i - kept);
      }
    }
    if kept <= NUM_DIRECT {
      var y: nat :| y != x && y < |l| && l[y] == s.indirect;
      PlacedLeft(l, d, x, y);
    }
  }

  ghost predicate Placed(st: State, f: int, freed: seq<nat>, kept: nat, x: nat)
    requires f in st.files && DiskOk(st.bsize, st.disk) && StreamShape(st.files[f], st.bsize, st.disk)
  {
    && (forall i: nat :: kept <= i < BlockCount(st.files[f].size, st.bsize) ==>
          Elsewhere(freed, x, Addr(st.files[f], st.bsize, st.disk, i)))
    && (kept <= NUM_DIRECT ==> Elsewhere(freed, x, st.files[f].indirect))
  }

  lemma StaleInIndex(st: State, f: int, kept: nat) returns (x: nat)
    requires Conserved(st) && f in st.files && DiskOk(st.bsize, st.disk) && StreamShape(st.files[f], st.bsize, st.disk)
    requires !EndOfTable(st.files[f], st.bsize, st.disk) && kept < BlockCount(st.files[f].size, st.bsize)
    ensures var s := st.files[f]; var l := IndexFreed(s, st.bsize, st.disk, kept);
      && x < |l|
      && (forall i: nat :: kept <= i < BlockCount(s.size, st.bsize) && i >= NUM_DIRECT ==> Elsewhere(l, x, Addr(s, st.bsize, st.disk, i)))
      && (kept <= NUM_DIRECT ==> Elsewhere(l, x, s.indirect))
  {
    hide Conserved, EntriesInside, NonZero;
    var s := st.files[f];
    var i0 := if kept > NUM_DIRECT then kept - NUM_DIRECT else 0;
    var t, e := Table(st.disk[s.indirect]), BehindLast(s, st.bsize);
    IndexRun(st, f, i0);
    assert t[0..] == t;
    var l := NonZero(t[i0..]);
    var r := if kept <= NUM_DIRECT then [s.indirect] else [];
    x := e - i0;
    assert IndexFreed(s, st.bsize, st.disk, kept) == l + r;
    hide Conserved, NonZero, EndOfTable, Table, IndexFreed;
    forall i: nat | kept <= i < BlockCount(s.size, st.bsize) && i >= NUM_DIRECT
      ensures Elsewhere(l + r, x, Addr(s, st.bsize, st.disk, i))
    {
      var y := i - NUM_DIRECT - i0;
      assert l[..x][y] == t[i0..e][y] == t[i - NUM_DIRECT];
      PlacedLeft(l, r, x, y);
    }
    if kept <= NUM_DIRECT {
      PlacedRight(l, r, x, 0);
    }
  }

  /** When there is a stale entry, the block it names is freed although it is not in use, or in use elsewhere, or
      freed twice. */
  lemma StaleEntryBad(st: State, f: int, size: nat, owner: map<nat, Owner>)
    requires Conserved(st) && f in st.files && size <= st.files[f].size && size % st.bsize != 1 && !ShrinkFits(st, f, size)
    requires owner.Keys == ShrinkTo(st, f, size).owner.Keys && FreesOnce(st, f, size)
    ensures !Conserved(ShrinkTo(st, f, size).(owner := owner))
  {
    StreamIs(st, f);
    KeptAtMost(size, st.files[f].size, st.bsize);
    var x := StalePlaces(st, f, size);
    var st', a := ShrinkTo(st, f, size).(owner := owner), FreedBlocks(st, f, size)[x];
    if Conserved(st') {
      StaleOwned(st, st', f, size, x, a);
    }
  }

  /** All that st' says about the places of st that are still needed. */
  ghost predicate Remains(st: State, st': State, f: int, size: nat)
    requires f in st.files && DiskOk(st.bsize, st.disk) && StreamShape(st.files[f], st.bsize, st.disk)
  {
    var kept := BlockCount(size, st.bsize);
    && st'.bsize == st.bsize && st'.disk == st.disk && st'.meta == st.meta && f in st'.files && st'.files[f].size == size
    && st'.files == st.files[f := st'.files[f]] && |st'.files[f].direct| == NUM_DIRECT
    && (forall i :: 0 <= i < NUM_DIRECT && i < kept ==> st'.files[f].direct[i] == st.files[f].direct[i])
    && (kept > NUM_DIRECT ==> st'.files[f].indirect == st.files[f].indirect)
  }

  lemma ShrinkRemains(st: State, f: int, size: nat, owner: map<nat, Owner>)
    requires Conserved(st) && f in st.files && size <= st.files[f].size && size % st.bsize != 1
    requires DiskOk(st.bsize, st.disk) && StreamShape(st.files[f], st.bsize, st.disk)
    requires BlockCount(size, st.bsize) < BlockCount(st.files[f].size, st.bsize)
    ensures Remains(st, ShrinkTo(st, f, size).(owner := owner), f, size)
  {
    KeptBlocksIs(size, st.bsize);
  }

  /** A place that is still needed still has its owner. */
  lemma RemainsOwned(st: State, st': State, f: int, size: nat, a: nat)
    requires Conserved(st) && f in st.files && DiskOk(st.bsize, st.disk) && StreamShape(st.files[f], st.bsize, st.disk)
    requires Remains(st, st', f, size) && Conserved(st') && a in st.owner && !Dropped(st.owner[a], f, BlockCount(size, st.bsize))
    ensures a in st'.owner
  {
    hide OwnerOk, EntriesInside;
    OwnerIs(st, a);
    ZeroIsMeta(st);
    if st.owner[a].Data? {
      hide Conserved;
      OwnedAt(st', st.owner[a].f, st.owner[a].i);
    } else if st.owner[a].Index? {
      StreamIs(st', st.owner[a].f);
      IndexNotZero(st, a);
    }
  }

  lemma IndexNotZero(st: State, a: nat)
    requires Conserved(st) && a in st.owner && st.owner[a].Index?
    ensures a != 0
  {
  }

  lemma StaleOwned(st: State, st': State, f: int, size: nat, x: nat, a: nat)
    requires Conserved(st) && f in st.files && size <= st.files[f].size && size % st.bsize != 1
    requires DiskOk(st.bsize, st.disk) && StreamShape(st.files[f], st.bsize, st.disk)
    requires BlockCount(size, st.bsize) < BlockCount(st.files[f].size, st.bsize)
    requires var freed := FreedBlocks(st, f, size); x < |freed| && freed[x] == a && Placed(st, f, freed, BlockCount(size, st.bsize), x)
    requires FreesOnce(st, f, size) && st' == ShrinkTo(st, f, size).(owner := st'.owner)
    requires st'.owner.Keys == ShrinkTo(st, f, size).owner.Keys
    ensures !Conserved(st')
  {
    ShrinkRemains(st, f, size, st'.owner);
    assert a in st.owner && a !in st'.owner;
    OnlyOnce(FreedBlocks(st, f, size), x);
    OwnerIs(st, a);
    hide Conserved, ShrinkTo, FreedBlocks, FreesOnce, Elsewhere, Remains;
    if Conserved(st') {
      RemainsOwned(st, st', f, size, a);
    }
  }

  /** Cutting a file keeps the volume in order, with the count of used blocks right, exactly if the cut fits;
      otherwise no assignment of owners helps. */
  lemma ShrinkExact(st: State, f: int, size: nat)
    requires Conserved(st) && f in st.files && size <= st.files[f].size
    ensures FreesOnce(st, f, size) && Conserved(ShrinkTo(st, f, size)) <==> ShrinkFits(st, f, size)
    ensures forall owner: map<nat, Owner> :: owner.Keys == ShrinkTo(st, f, size).owner.Keys && !ShrinkFits(st, f, size) ==>
              !(FreesOnce(st, f, size) && Conserved(ShrinkTo(st, f, size).(owner := owner)))
  {
    hide *;
    var st' := ShrinkTo(st, f, size);
    BlockSize(st);
    if ShrinkFits(st, f, size) {
      ShrinkConserves(st, f, size);
    } else {
      forall owner: map<nat, Owner> | owner.Keys == st'.owner.Keys
        ensures !(FreesOnce(st, f, size) && Conserved(st'.(owner := owner)))
      {
        if size % st.bsize == 1 {
          ShrinkLosesBlock(st, f, size, owner);
        } else if FreesOnce(st, f, size) {
          StaleEntryBad(st, f, size, owner);
        }
      }
      assert st'.(owner := st'.owner) == st';
    }
  }

  lemma BlockSize(st: State)
    requires Conserved(st)
    ensures st.bsize >= 2
  {
  }

  /** Freeing a whole file leaves it empty and gives back everything it owned. */
  lemma ShrinkToNothing(st: State, f: int)
    requires Conserved(st) && f in st.files && st.files[f].size > 0 && ShrinkFits(st, f, 0)
    ensures Conserved(ShrinkTo(st, f, 0)) && OthersKept(st, ShrinkTo(st, f, 0), f)
    ensures forall b :: b in ShrinkTo(st, f, 0).owner <==> b in st.owner && !OwnedBy(st.owner[b], f)
  {
    ShrinkConserves(st, f, 0);
    BlockSize(st);
    BlockCountOf(0, st.bsize);
    InFile(st.files[f].size, st.bsize, 0);
  }

  // ---- shrinking: two inputs

  /** A file of two blocks of 8 bytes. */
  function TwoBlocks(): State {
    State(8, [Zeros(8), Zeros(8), Zeros(8)], map[7 := Stream([1, 2, 0, 0, 0, 0], 0, 16)],
          map[0 := Meta, 1 := Data(7, 0), 2 := Data(7, 1)], {0})
  }

  lemma TwoBlocksInOrder()
    ensures Conserved(TwoBlocks())
  {
    var st := TwoBlocks();
    assert BlockCount(16, 8) == 2 && PerIndex(8) == 1;
    assert StreamOk(st.files[7], 7, 8, st.disk, st.owner) by {
      assert BlockOwned(st.files[7], 7, 8, st.disk, st.owner, 0) && BlockOwned(st.files[7], 7, 8, st.disk, st.owner, 1);
    }
  }

  /** Cut to 9 bytes, it keeps only its first block. */
  lemma NinthByteLost()
    ensures Conserved(TwoBlocks()) && TwoBlocks().files[7].size == 16
    ensures FreedBlocks(TwoBlocks(), 7, 9) == [2] && !Conserved(ShrinkTo(TwoBlocks(), 7, 9))
  {
    TwoBlocksInOrder();
    hide Conserved;
    DirectRun(TwoBlocks(), 7, 1);
    ShrinkLosesBlock(TwoBlocks(), 7, 9, ShrinkTo(TwoBlocks(), 7, 9).owner);
    var st' := ShrinkTo(TwoBlocks(), 7, 9);
    assert st'.(owner := st'.owner) == st';
  }

  /** An index block of 16 bytes, with blocks 8 and 9. */
  function IndexOf89(): Block {
    PutPointer(PutPointer(Zeros(16), 0, 8), 1, 9)
  }

  function EightDisk(): seq<Block> {
    seq(10, b => if b == 7 then IndexOf89() else Zeros(16))
  }

  /** Who has block b of that disk, if file 3 has it. */
  function Place(b: nat): Owner {
    if b == 0 then Meta else if b <= 6 then Data(3, b - 1) else if b == 7 then Index(3) else Data(3, b - 2)
  }

  function EightStream(n: nat): Stream {
    Stream(seq(NUM_DIRECT, i requires 0 <= i => i + 1), 7, n * 16)
  }

  /** File 3 with its first n blocks of 16 bytes, n being 7 or 8. */
  function EightBlocks(n: nat): State {
    State(16, EightDisk(), map[3 := EightStream(n)], map b: nat | b < n + 2 :: Place(b), {0})
  }

  /** ... and with block 9 being the only block of file 5. */
  function SharedNine(): State {
    EightBlocks(7).(files := EightBlocks(7).files[5 := Stream([9, 0, 0, 0, 0, 0], 0, 16)],
                    owner := EightBlocks(7).owner[9 := Data(5, 0)])
  }

  lemma IndexOf89Is()
    ensures |IndexOf89()| == 16 && Pointer(IndexOf89(), 0) == 8 && Pointer(IndexOf89(), 1) == 9
    ensures Table(IndexOf89()) == [8, 9] && NonZero([8, 9]) == [8, 9] && NonZero([9]) == [9]
  {
    PutPointerAt(Zeros(16), 0, 8, 0);
    PutPointerAt(PutPointer(Zeros(16), 0, 8), 1, 9, 0);
    PutPointerAt(PutPointer(Zeros(16), 0, 8), 1, 9, 1);
    assert [8, 9][1..] == [9] && [9][1..] == [];
  }

  lemma EightStreamIs(n: nat)
    requires n == 7 || n == 8
    ensures DiskOk(16, EightDisk()) && StreamShape(EightStream(n), 16, EightDisk()) && BlockCount(n * 16, 16) == n && PerIndex(16) == 2
    ensures EntriesInside(EightStream(n), 16, EightDisk())
    ensures forall i: nat :: i < 8 ==> Addr(EightStream(n), 16, EightDisk(), i) == if i < 6 then i + 1 else i + 2
  {
    IndexOf89Is();
    hide IndexOf89, Pointer;
    BlockCountOf(n, 16);
    forall b | 0 <= b < 10 ensures |EightDisk()[b]| == 16 {
      if b != 7 { assert EightDisk()[b] == Zeros(16); }
    }
    assert DiskOk(16, EightDisk());
    forall i: nat | i < 8 ensures Addr(EightStream(n), 16, EightDisk(), i) == if i < 6 then i + 1 else i + 2 {
      if i >= 6 { assert i == 6 || i == 7; }
    }
  }

  lemma EightStreamOk(n: nat, owner: map<nat, Owner>)
    requires n == 7 || n == 8
    requires forall b: nat :: b < n + 2 ==> b in owner && owner[b] == Place(b)
    ensures DiskOk(16, EightDisk()) && StreamOk(EightStream(n), 3, 16, EightDisk(), owner)
  {
    EightStreamIs(n);
    forall i: nat | i < n ensures BlockOwned(EightStream(n), 3, 16, EightDisk(), owner, i) {
    }
  }

  lemma EightBlocksInOrder(n: nat)
    requires n == 7 || n == 8
    ensures Conserved(EightBlocks(n))
  {
    var st := EightBlocks(n);
    EightStreamIs(n);
    EightStreamOk(n, st.owner);
    hide EightDisk, StreamOk, DiskOk, StreamShape;
    forall b | b in st.owner ensures OwnerOk(b, st) {
    }
  }

  lemma SharedNineInOrder()
    ensures Conserved(SharedNine())
  {
    var st := SharedNine();
    EightStreamIs(7);
    EightStreamOk(7, st.owner);
    NineAlone(st.owner);
    hide EightDisk, StreamOk, DiskOk, StreamShape, EntriesInside;
    forall b | b in st.owner ensures OwnerOk(b, st) {
    }
  }

  lemma NineAlone(owner: map<nat, Owner>)
    requires 9 in owner && owner[9] == Data(5, 0)
    ensures var s := Stream([9, 0, 0, 0, 0, 0], 0, 16);
      && DiskOk(16, EightDisk()) && StreamShape(s, 16, EightDisk()) && BlockCount(16, 16) == 1
      && StreamOk(s, 5, 16, EightDisk(), owner)
  {
    NineShape();
    hide EightDisk, DiskOk, StreamShape;
    var s := Stream([9, 0, 0, 0, 0, 0], 0, 16);
    NoEntries(s, 16, EightDisk());
    assert Addr(s, 16, EightDisk(), 0) == 9;
  }

  lemma NineShape()
    ensures var s := Stream([9, 0, 0, 0, 0, 0], 0, 16);
      |EightDisk()| == 10 && DiskOk(16, EightDisk()) && StreamShape(s, 16, EightDisk()) && BlockCount(16, 16) == 1
  {
    EightStreamIs(7);
    BlockCountOf(1, 16);
    assert |EightDisk()| == 10;
    hide EightDisk, EntriesInside, Addr;
  }

  lemma NoEntries(s: Stream, bsize: nat, disk: seq<Block>)
    requires DiskOk(bsize, disk) && StreamShape(s, bsize, disk) && s.indirect == 0
    ensures EntriesInside(s, bsize, disk)
  {
  }

  lemma FreedOfSeven(st: State)
    requires Conserved(st) && 3 in st.files && st.files[3] == EightStream(7) && st.disk == EightDisk() && st.bsize == 16
    ensures FreedBlocks(st, 3, 96) == [8, 9, 7]
  {
    hide Conserved;
    EightStreamIs(7);
    IndexOf89Is();
    BlockCountOf(6, 16);
    KeptBlocksIs(96, 16);
    hide IndexOf89, NonZero, Table, StreamShape;
  }

  /** Eight blocks cut to seven, and then to six: the first cut is in order but leaves the name of block 9 behind,
      and the second frees it again. */
  lemma CutTwice()
    ensures Conserved(EightBlocks(8)) && EightBlocks(8).files[3].size == 128 && ShrinkFits(EightBlocks(8), 3, 112)
    ensures ShrinkTo(EightBlocks(8), 3, 112) == EightBlocks(7) && Conserved(EightBlocks(7)) && 9 !in EightBlocks(7).owner
    ensures FreedBlocks(EightBlocks(7), 3, 96) == [8, 9, 7] && !FreesOnce(EightBlocks(7), 3, 96)
  {
    EightBlocksInOrder(8);
    EightBlocksInOrder(7);
    FreedOfSeven(EightBlocks(7));
    FirstCut();
  }

  lemma FirstFits()
    requires Conserved(EightBlocks(8))
    ensures 112 % 16 != 1 && BlockCount(112, 16) == 7 && BlockCount(128, 16) == 8 && ShrinkFits(EightBlocks(8), 3, 112)
  {
    hide Conserved;
    EightStreamIs(8);
    EightStreamIs(7);
    hide StreamOk;
  }

  lemma FirstCut()
    requires Conserved(EightBlocks(8)) && EightBlocks(8).files[3].size == 128
    ensures ShrinkFits(EightBlocks(8), 3, 112) && ShrinkTo(EightBlocks(8), 3, 112) == EightBlocks(7)
  {
    var st := EightBlocks(8);
    FirstFits();
    hide Conserved, StreamOk, FreedBlocks, ShrinkTo, ShrinkFits, BlockCount, EightDisk, FreesOnce, OthersKept;
    ShrinkConserves(st, 3, 112);
    assert ShrinkTo(st, 3, 112).files[3] == EightStream(7);
    assert ShrinkTo(st, 3, 112).owner == EightBlocks(7).owner;
  }

  /** If block 9 belongs to another file by then, that file loses it. */
  lemma CutTakesFromAnother()
    ensures Conserved(SharedNine()) && SharedNine().files[3].size == 112 && SharedNine().owner[9] == Data(5, 0)
    ensures 9 in FreedBlocks(SharedNine(), 3, 96) && !Conserved(ShrinkTo(SharedNine(), 3, 96))
  {
    SharedNineInOrder();
    FreedOfSeven(SharedNine());
    var st' := ShrinkTo(SharedNine(), 3, 96);
    BlockCountOf(1, 16);
    if Conserved(st') {
      OwnedAt(st', 5, 0);
    }
  }

  // ---- no block belongs to two places

  /** The blocks of the device that a file uses: its data blocks and its index block. */
  ghost function BlocksOf(st: State, f: int): set<nat> {
    set b | b in st.owner && OwnedBy(st.owner[b], f)
  }

  /** What a file's pointers lead to: its i-th block, or its index block. */
  datatype Spot = BlockOf(f: int, i: nat) | IndexOf(f: int)

  predicate HasSpot(st: State, p: Spot) {
    && st.bsize > 0 && p.f in st.files
    && match p case BlockOf(f, i) => i < BlockCount(st.files[f].size, st.bsize) case IndexOf(f) => st.files[f].indirect != 0
  }

  ghost function BlockAt(st: State, p: Spot): nat
    requires Conserved(st) && HasSpot(st, p)
  {
    StreamIs(st, p.f);
    match p case BlockOf(f, i) => Addr(st.files[f], st.bsize, st.disk, i) case IndexOf(f) => st.files[f].indirect
  }

  /** Whenever the volume is in order, no two places of any files are the same block, and none of them is metadata. */
  lemma NoSharing(st: State, p: Spot, q: Spot)
    requires Conserved(st) && HasSpot(st, p) && HasSpot(st, q)
    ensures BlockAt(st, p) == BlockAt(st, q) ==> p == q
    ensures BlockAt(st, p) in st.owner && BlockAt(st, p) !in st.meta
  {
    SpotOwned(st, p);
    SpotOwned(st, q);
  }

  lemma SpotOwned(st: State, p: Spot)
    requires Conserved(st) && HasSpot(st, p)
    ensures BlockAt(st, p) in st.owner && st.owner[BlockAt(st, p)] == match p case BlockOf(f, i) => Data(f, i) case IndexOf(f) => Index(f)
  {
    StreamIs(st, p.f);
    if p.BlockOf? {
      assert BlockOwned(st.files[p.f], p.f, st.bsize, st.disk, st.owner, p.i);
    }
  }

  /** And no block in use is lost: it is metadata, or the place of some file. */
  lemma NoLeaks(st: State, b: nat)
    requires Conserved(st) && b in st.owner && b !in st.meta
    ensures exists p :: HasSpot(st, p) && BlockAt(st, p) == b
  {
    OwnerIs(st, b);
    match st.owner[b] {
      case Data(f, i) => assert HasSpot(st, BlockOf(f, i)) && BlockAt(st, BlockOf(f, i)) == b;
      case Index(f) => assert HasSpot(st, IndexOf(f)) && BlockAt(st, IndexOf(f)) == b;
      case Meta =>
    }
  }
}
