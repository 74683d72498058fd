/** Reading, writing, growing and shrinking the data stream of a file (dstream.c), on a volume whose blocks
    the cache presents as a plain array. */
module DataStreams {
  import opened Arithmetic
  import opened BitVectors
  import opened Bitmaps
  import opened Lists
  import opened VolumeModel

  datatype Status = Done | BadAddress | OutOfSpace | TooBig | Died

  class Volume {
    const bm: Bitmap
    const bv: BitVector
    const bits: array<Chunk>
    const bsize: nat
    var disk: seq<Block>
    var files: map<int, Stream>
    ghost var owner: map<nat, Owner>
    ghost const meta: set<nat>    // the blocks that are not files': they stay in use for good

    ghost predicate Tied()
      reads `disk, `owner, bm, bv, bits
    {
      && bv == bm.bv && bits == bm.bits && bm.Valid() && bv.numbits == |disk| && owner.Keys == bm.Used()
    }

    ghost predicate Linked()
      reads this, bm, bv, bits
    {
      Tied() && bm.Counted()
    }

    ghost function State(): VolumeModel.State
      reads this
    {
      VolumeModel.State(bsize, disk, files, owner, meta)
    }

    ghost predicate Valid()
      reads this, bm, bv, bits
    {
      Linked() && Conserved(State())
    }

    /** A volume without files, on which the blocks already in use are metadata. */
    constructor (map': Bitmap, blocks: seq<Block>, blockSize: nat)
      requires map'.Valid() && map'.Counted() && map'.bv.numbits == |blocks|
      requires DiskOk(blockSize, blocks) && 0 in map'.Used()
      ensures Valid() && bm == map' && files == map[] && disk == blocks && bsize == blockSize
    {
      bm, bv, bits, bsize, disk, files := map', map'.bv, map'.bits, blockSize, blocks, map[];
      owner := map b | b in map'.Used() :: Meta;
      meta := map'.Used();
    }

    /** A fresh inode: no blocks, size 0. */
    method Create(f: int)
      requires Valid() && f !in files
      modifies this`files
      ensures Valid() && files == old(files)[f := Stream(seq(NUM_DIRECT, _ => 0), 0, 0)]
      ensures Content(State(), f) == []
      ensures forall g :: g in old(files) ==> Content(State(), g) == Content(old(State()), g)
    {
      ghost var st := State();
      files := files[f := Stream(seq(NUM_DIRECT, _ => 0), 0, 0)];
      CreateSound(st, f);
    }

    /** Take one block: the map marks it used, and a block in use has an owner. */
    method AllocateOne() returns (err: Status, addr: int)
      requires Linked() && DiskOk(bsize, disk)
      modifies this`owner, bm`usedBlocks, bits, bv`nextFree, bv`isFull
      ensures bm.Valid() && bm.Counted() && (err == Done || err == OutOfSpace)
      ensures err == OutOfSpace ==> Linked() && owner == old(owner) && bm.Exhausted(1)
      ensures err == OutOfSpace <==> old(bm.Valid() && bm.Exhausted(1))
      ensures err == Done ==> 0 <= addr < |disk| && addr !in old(owner) && owner == old(owner) && bm.Used() == old(bm.Used()) + {addr}
    {
      hide Bitmap.Barren, SetBits, RunAt;
      var e, start, got := bm.Allocate(1, Exact);
      if e != Ok {
        return OutOfSpace, -1;
      }
      assert Blocks(start, 1) == {start};
      return Done, start;
    }

    /** Attach one new block behind the file's last one, directly or in the index block. */
    method Attach(f: int, k: nat, ghost st0: VolumeModel.State) returns (err: Status)
      requires Linked() && f in files && Whole(State(), f, k) && Grown(st0, State(), f)
      requires k < NUM_DIRECT || (k < NUM_DIRECT + PerIndex(bsize) && files[f].indirect != 0)
      modifies this`disk, this`files, this`owner, bm`usedBlocks, bits, bv`nextFree, bv`isFull
      ensures Linked() && Grown(st0, State(), f) && (err == Done || err == OutOfSpace)
      ensures err == Done ==> Whole(State(), f, k + 1) && files[f].indirect == old(files[f].indirect)
      ensures err != Done ==> State() == old(State())
      ensures f in files && (err == OutOfSpace ==> bm.Valid() && bm.Exhausted(1))
    {
      hide Conserved, TailsKept, OthersKept, Grown, StreamOk, StreamShape, Bitmap.Valid, Bitmap.Counted, Bitmap.Used, Bitmap.Exhausted;
      StreamFacts(State(), f);
      var addr;
      err, addr := AllocateOne();
      if err != Done {
        return;
      }
      ghost var st := State();
      var s := files[f];
      if k < NUM_DIRECT {
        files := files[f := s.(direct := s.direct[k := addr], size := s.size + bsize)];
      } else {
        PutPointerFits(bsize, k);
        disk := disk[s.indirect := PutPointer(disk[s.indirect], k - NUM_DIRECT, addr)];
        files := files[f := s.(size := s.size + bsize)];
      }
      owner := owner[addr := Data(f, k)];
      AttachSound(st, State(), f, k, addr);
      GrownStep(st0, st, State(), f);
    }

    /** Give the file an empty index block. */
    method AttachIndex(f: int, k: nat, ghost st0: VolumeModel.State) returns (err: Status)
      requires Linked() && Whole(State(), f, k) && Grown(st0, State(), f) && files[f].indirect == 0
      modifies this`disk, this`files, this`owner, bm`usedBlocks, bits, bv`nextFree, bv`isFull
      ensures Linked() && Grown(st0, State(), f) && Whole(State(), f, k) && (err == Done || err == OutOfSpace)
      ensures err == Done ==> files[f].indirect != 0
      ensures err == OutOfSpace ==> bm.Valid() && bm.Exhausted(1)
    {
      hide Conserved, TailsKept, OthersKept, Grown, StreamOk, StreamShape, Bitmap.Valid, Bitmap.Counted, Bitmap.Used, Bitmap.Exhausted;
      StreamFacts(State(), f);
      var addr;
      err, addr := AllocateOne();
      if err != Done {
        return;
      }
      ghost var st := State();
      disk := disk[addr := Zeros(bsize)];
      files := files[f := files[f].(indirect := addr)];
      owner := owner[addr := Index(f)];
      AddIndexSound(st, f, k, addr);
      GrownStep(st0, st, State(), f);
    }

    /** grow_dstream. */
    method Grow(f: int, newSize: nat) returns (err: Status)
      requires Valid() && f in files && newSize > files[f].size
      modifies this`disk, this`files, this`owner, bm`usedBlocks, bits, bv`nextFree, bv`isFull
      ensures Valid() && Grown(old(State()), State(), f)
      ensures err == Done ==> files[f].size == newSize && BlockCount(newSize, bsize) <= NUM_DIRECT + PerIndex(bsize)
      ensures err != Done ==> err == OutOfSpace || (err == TooBig && BlockCount(newSize, bsize) > NUM_DIRECT + PerIndex(bsize))
      ensures err == OutOfSpace ==> bm.Valid() && bm.Exhausted(1)
      // what has been attached by then stays with the file
      ensures err == OutOfSpace ==> exists k: nat {:trigger k * bsize} ::
                BlockCount(old(files[f].size), bsize) <= k < BlockCount(newSize, bsize) && files[f].size == k * bsize
      ensures err == TooBig ==> files[f].size == old(files[f].size) || files[f].size == (NUM_DIRECT + PerIndex(bsize)) * bsize
    {
      hide Conserved, TailsKept, OthersKept, Grown, StreamOk, StreamShape, Bitmap.Valid, Bitmap.Counted, Bitmap.Used, Bitmap.Exhausted;
      ghost var st0 := State();
      StreamFacts(st0, f);
      GrownStart(st0, f);
      var perIndex := PerIndex(bsize);
      if newSize > perIndex * (perIndex * bsize) + perIndex * bsize + NUM_DIRECT * bsize {
        BeyondIndirect(newSize, bsize);
        return TooBig;
      }
      var k, target := BlockCount(files[f].size, bsize), BlockCount(newSize, bsize);
      BlockCountMono(files[f].size, newSize, bsize);
      BlockCountBounds(files[f].size, bsize);
      BlockCountBounds(newSize, bsize);
      if k * bsize == target * bsize {
        SameFactor(k, target, bsize);
        SetSize(f, newSize, st0);
        return Done;
      }
      MulMono(k, target, bsize);
      BlockCountOf(k, bsize);
      SetSize(f, k * bsize, st0);
      err, k := AttachUpTo(f, k, if target < NUM_DIRECT then target else NUM_DIRECT, st0);
      if err == Done && k < target && k < NUM_DIRECT + perIndex {
        if files[f].indirect == 0 {
          err := AttachIndex(f, k, st0);
        }
        if err == Done {
          err, k := AttachUpTo(f, k, if target < NUM_DIRECT + perIndex then target else NUM_DIRECT + perIndex, st0);
        }
      }
      if err != Done {
        return;
      }
      if k == target {
        BlockCountOf(k, bsize);
        SetSize(f, newSize, st0);
        return Done;
      }
      return TooBig;
    }

    /** The loops of grow_dstream: attach blocks until the file has `last` of them or the volume is full. */
    method AttachUpTo(f: int, k: nat, last: nat, ghost st0: VolumeModel.State) returns (err: Status, k': nat)
      requires Linked() && f in files && Whole(State(), f, k) && Grown(st0, State(), f)
      requires last <= NUM_DIRECT || (files[f].indirect != 0 && last <= NUM_DIRECT + PerIndex(bsize))
      modifies this`disk, this`files, this`owner, bm`usedBlocks, bits, bv`nextFree, bv`isFull
      ensures f in files && Linked() && Grown(st0, State(), f) && Whole(State(), f, k') && (err == Done || err == OutOfSpace)
      ensures err == Done ==> k' == if k < last then last else k
      ensures err == OutOfSpace ==> k <= k' < last
      ensures err == OutOfSpace ==> bm.Valid() && bm.Exhausted(1)
    {
      hide Conserved, TailsKept, OthersKept, Grown, StreamOk, StreamShape, Linked, Whole, Bitmap.Valid, Bitmap.Counted, Bitmap.Used, Bitmap.Exhausted;
      k' := k;
      while k' < last
        invariant k <= k' && (k < last ==> k' <= last) && (k >= last ==> k' == k)
        invariant Linked() && Whole(State(), f, k') && Grown(st0, State(), f)
        invariant f in files && (last <= NUM_DIRECT || files[f].indirect != 0)
      {
        err := Attach(f, k', st0);
        if err != Done {
          return;
        }
        k' := k' + 1;
      }
      err := Done;
    }

    method SetSize(f: int, size: nat, ghost st0: VolumeModel.State)
      requires Valid() && f in files && Grown(st0, State(), f) && size >= st0.files[f].size
      requires BlockCount(size, bsize) == BlockCount(files[f].size, bsize)
      modifies this`files
      ensures Valid() && Grown(st0, State(), f) && files == old(files)[f := old(files[f]).(size := size)]
    {
      hide Conserved, TailsKept, OthersKept, Grown, StreamOk, StreamShape, Bitmap.Valid, Bitmap.Counted, Bitmap.Used, Bitmap.Exhausted;
      ghost var st := State();
      files := files[f := files[f].(size := size)];
      GrownResize(st0, st, f, size);
    }

    /** file_pos_to_disk_addr: -1 past the indirect range; the program dies on an address off the device. */
    method FilePosToDiskAddr(f: int, pos: nat) returns (addr: int, died: bool)
      requires Valid() && f in files
      ensures LookedUp(State(), f, pos, addr, died)
      ensures pos < files[f].size ==> !died && AddressOf(State(), f, pos, addr)
    {
      hide Conserved, TailsKept, StreamOk, Linked, Pointer, Bitmap.Valid, Bitmap.Counted, Bitmap.Used, Bitmap.Exhausted;
      ghost var st := State();
      StreamFacts(st, f);
      var s := files[f];
      PositionCases(pos, bsize);
      if pos < s.size {
        AddressFacts(st, f, pos);
      }
      if pos < NUM_DIRECT * bsize {
        var index := pos / bsize;
        addr := s.direct[index];
      } else if pos < PerIndex(bsize) * bsize + NUM_DIRECT * bsize {
        var index := (pos - NUM_DIRECT * bsize) / bsize;
        addr := Pointer(disk[s.indirect], index);
      } else {
        return -1, false;
      }
      died := addr > |disk|;
    }

    /** Bytes pos .. pos + amt - 1 of the file, which lie in one block. */
    method ReadChunk(f: int, pos: nat, amt: nat) returns (bytes: seq<byte>)
      requires Valid() && f in files && pos % bsize + amt <= bsize && pos + amt <= files[f].size && 0 < amt
      ensures bytes == Content(State(), f)[pos..pos + amt]
    {
      hide Conserved, TailsKept, StreamOk, Linked, Content, Bitmap.Valid, Bitmap.Counted, Bitmap.Used, Bitmap.Exhausted;
      var addr, died := FilePosToDiskAddr(f, pos);
      ChunkOfContent(State(), f, pos, amt, addr);
      bytes := disk[addr][pos % bsize..pos % bsize + amt];
    }

    /** myfs_read_data_stream: up to len bytes from position pos on.  At the very end of the file the block
        behind the last byte is looked up although nothing is read, which can fail. */
    method Read(f: int, pos: int, len: nat) returns (err: Status, buf: seq<byte>)
      requires Valid() && f in files
      ensures var start := if pos < 0 then 0 else pos; var size := files[f].size;
              && (len > 0 && start < size ==> err == Done && buf == Content(State(), f)[start..if start + len <= size then start + len else size])
              && (len == 0 || start > size ==> err == Done && buf == [])
              && (len > 0 && start == size ==> buf == [] && (err == Done <==> !EndUnmapped(State(), f)))
    {
      hide Conserved, TailsKept, StreamOk, Linked, Content, AddressOf, LookedUp, EndUnmapped, Bitmap.Valid, Bitmap.Counted, Bitmap.Used, Bitmap.Exhausted;
      ghost var st := State();
      StreamFacts(st, f);
      buf := [];
      if len == 0 {
        return Done, [];
      }
      var pos: nat, len := if pos < 0 then 0 else pos, len;
      if pos > files[f].size {
        return Done, [];
      }
      if pos + len > files[f].size {
        len := files[f].size - pos;
      }
      ghost var start: nat := pos;
      var addr, died := FilePosToDiskAddr(f, pos);
      if died || addr < 0 {
        if start < files[f].size {
          AddressInside(st, f, start, addr);
        } else {
          EndLookup(st, f, addr, died);
        }
        return if died then Died else BadAddress, [];
      }
      if start == files[f].size {
        EndLookup(st, f, addr, died);
      }
      if pos % bsize != 0 {
        var amt := if len < bsize - pos % bsize then len else bsize - pos % bsize;
        if amt > 0 {
          buf := ReadChunk(f, pos, amt);
        }
        NextAligned(pos, amt, bsize);
        pos := pos + amt;
      }
      var rest := ReadBlocks(f, pos, len - |buf|);
      assert Content(st, f)[start..pos] + Content(st, f)[pos..start + len] == Content(st, f)[start..start + len];
      return Done, buf + rest;
    }

    /** The main loop of myfs_read_data_stream: len bytes, block by block. */
    method ReadBlocks(f: int, start: nat, len: nat) returns (buf: seq<byte>)
      requires Valid() && f in files && start + len <= files[f].size && bsize > 0
      requires len > 0 ==> start % bsize == 0
      ensures buf == Content(State(), f)[start..start + len]
    {
      hide Conserved, TailsKept, StreamOk, Linked, Content, AddressOf, StreamShape, Bitmap.Valid, Bitmap.Counted, Bitmap.Used, Bitmap.Exhausted;
      ghost var c := Content(State(), f);
      var pos := start;
      buf := [];
      while |buf| < len
        invariant |buf| <= len && pos == start + |buf|
        invariant |buf| < len ==> pos % bsize == 0
        invariant buf == c[start..pos]
      {
        var amt := if len - |buf| < bsize then len - |buf| else bsize;
        var bytes := ReadChunk(f, pos, amt);
        NextAligned(pos, amt, bsize);
        assert c[start..pos] + c[pos..pos + amt] == c[start..pos + amt];
        buf := buf + bytes;
        pos := pos + amt;
      }
    }

    /** Overwrite bytes pos .. of the file, which lie in one block: get the block, copy, mark it dirty. */
    method WriteChunk(f: int, pos: nat, bytes: seq<byte>)
      requires Valid() && f in files && pos % bsize + |bytes| <= bsize && pos + |bytes| <= files[f].size && 0 < |bytes|
      modifies this`disk
      ensures Valid() && Overwrote(old(State()), State(), f, pos, bytes)
    {
      hide Conserved, TailsKept, EntriesInside, StreamOk, Content, StreamShape, OthersKept, AddressOf, LookedUp, Bitmap.Valid, Bitmap.Counted, Bitmap.Used, Bitmap.Exhausted;
      ghost var st := State();
      var addr, died := FilePosToDiskAddr(f, pos);
      AddressInside(st, f, pos, addr);
      disk := disk[addr := Splice(disk[addr], pos % bsize, bytes)];
      WriteStep(st, State(), f, pos, addr, bytes);
    }

    /** The two copying phases of myfs_write_data_stream, on a file that is already long enough. */
    method WriteBlocks(f: int, start: nat, buf: seq<byte>)
      requires Valid() && f in files && start + |buf| <= files[f].size && bsize > 0 && |buf| > 0
      modifies this`disk
      ensures Valid() && Overwrote(old(State()), State(), f, start, buf)
    {
      ghost var st0 := State();
      hide Conserved, Linked, Overwrote, Bitmap.Valid, Bitmap.Counted, Bitmap.Used, Bitmap.Exhausted;
      OverwroteNothing(st0, f, start);
      var pos, done := start, 0;
      if pos % bsize != 0 {
        done := if |buf| < bsize - pos % bsize then |buf| else bsize - pos % bsize;
        WriteChunk(f, pos, buf[..done]);
        NextAligned(pos, done, bsize);
        pos := pos + done;
      }
      while done < |buf|
        invariant done <= |buf| && pos == start + done && (done < |buf| ==> pos % bsize == 0)
        invariant Valid() && Overwrote(st0, State(), f, start, buf[..done])
      {
        ghost var st := State();
        var amt := if |buf| - done < bsize then |buf| - done else bsize;
        WriteChunk(f, pos, buf[done..done + amt]);
        OverwroteThen(st0, st, State(), f, start, buf[..done], buf[done..done + amt]);
        assert buf[..done] + buf[done..done + amt] == buf[..done + amt];
        NextAligned(pos, amt, bsize);
        pos, done := pos + amt, done + amt;
      }
      assert buf[..done] == buf;
    }

    /** myfs_write_data_stream: write buf at position pos, growing the file when it ends before pos + |buf|. */
    method Write(f: int, pos: int, buf: seq<byte>) returns (err: Status, n: nat)
      requires Valid() && f in files
      modifies this`disk, this`files, this`owner, bm`usedBlocks, bits, bv`nextFree, bv`isFull
      ensures Valid() && f in files && files.Keys == old(files.Keys)
      ensures forall g :: g in files && g != f ==> Content(State(), g) == Content(old(State()), g)
      ensures |buf| == 0 ==> err == Done && n == 0 && State() == old(State())
      ensures err == Done && |buf| > 0 ==> n == |buf| && Written(Content(old(State()), f), Content(State(), f), if pos < 0 then 0 else pos, buf)
      ensures err != Done ==>
                && Content(old(State()), f) <= Content(State(), f)
                && (err == OutOfSpace || (err == TooBig && BlockCount((if pos < 0 then 0 else pos) + |buf|, bsize) > NUM_DIRECT + PerIndex(bsize)))
      ensures err == OutOfSpace ==> bm.Valid() && bm.Exhausted(1)
    {
      hide Conserved, TailsKept, StreamOk, Content, StreamShape, OthersKept, Linked, Bitmap.Valid, Bitmap.Counted, Bitmap.Used, Bitmap.Exhausted;
      ghost var st0 := State();
      n := |buf|;
      if |buf| == 0 {
        return Done, n;
      }
      var pos: nat := if pos < 0 then 0 else pos;
      StreamFacts(st0, f);
      GrownStart(st0, f);
      if pos + |buf| > files[f].size {
        err := Grow(f, pos + |buf|);
        GrownFacts(st0, State(), f);
        if err != Done {
          return;
        }
      }
      GrownFacts(st0, State(), f);
      ghost var st1 := State();
      WriteBlocks(f, pos, buf);
      WrittenFacts(st0, st1, State(), f, pos, buf);
      return Done, n;
    }

    /** myfs_free_blocks(addr, 1): the block may or may not be in use. */
    method FreeOne(addr: nat)
      requires Tied() && addr < |disk|
      modifies this`owner, bm`usedBlocks, bits, bv`nextFree, bv`isFull
      ensures Tied() && owner == old(owner) - {addr} && bm.usedBlocks == old(bm.usedBlocks) - 1
    {
      OneDividesOut(bm.blockSize);
      bm.Free(addr, 1);
      assert Blocks(addr, 1) == {addr};
      owner := owner - {addr};
    }

    /** The loops of shrink_dstream over a list of addresses, up to the first zero. */
    method FreeEntries(f: int, i0: nat, ghost t: seq<nat>)
      requires Tied() && f in files && files[f].indirect < |disk| && |disk[files[f].indirect]| == bsize
      requires t == Table(disk[files[f].indirect]) && i0 <= |t| && forall j :: 0 <= j < |t| ==> t[j] < |disk|
      modifies this`owner, bm`usedBlocks, bits, bv`nextFree, bv`isFull
      ensures Tied() && owner == old(owner) - Elems(NonZero(t[i0..]))
      ensures bm.usedBlocks == old(bm.usedBlocks) - |NonZero(t[i0..])|
    {
      hide Tied, Bitmap.Valid, Bitmap.Used, Elems, Table, Pointer;
      var indirect := files[f].indirect;
      var i := i0;
      ghost var done: seq<nat> := [];
      FreedNothing(owner);
      while i < PerIndex(bsize)
        invariant i0 <= i <= |t| && Tied() && NonZero(t[i0..]) == done + NonZero(t[i..])
        invariant owner == old(owner) - Elems(done) && bm.usedBlocks == old(bm.usedBlocks) - |done|
      {
        var a := Pointer(disk[indirect], i);
        TableAt(disk[indirect], i);
        NonZeroStep(t, i);
        if a == 0 {
          break;
        }
        FreeOne(a);
        FreedMore(old(owner), done, a);
        assert done + ([a] + NonZero(t[i + 1..])) == (done + [a]) + NonZero(t[i + 1..]);
        done := done + [a];
        i := i + 1;
      }
      assert t[|t|..] == [] && NonZero([]) == [];
      assert done + [] == done;
    }

    /** The part of shrink_dstream that trims the index block, and frees it if no entry stays. */
    method TrimIndex(f: int, kept: nat)
      requires Tied() && DiskOk(bsize, disk) && f in files && StreamShape(files[f], bsize, disk) && files[f].indirect != 0
      requires EntriesInside(files[f], bsize, disk) && kept <= NUM_DIRECT + PerIndex(bsize)
      modifies this`files, this`owner, bm`usedBlocks, bits, bv`nextFree, bv`isFull
      ensures Tied() && owner == old(owner) - Elems(IndexFreed(old(files[f]), bsize, disk, kept))
      ensures bm.usedBlocks == old(bm.usedBlocks) - |IndexFreed(old(files[f]), bsize, disk, kept)|
      ensures files == if kept <= NUM_DIRECT then old(files)[f := old(files[f]).(indirect := 0)] else old(files)
    {
      hide Tied, Bitmap.Valid, Bitmap.Used, Elems, NonZero;
      ghost var t := Table(disk[files[f].indirect]);
      TableInside(files[f], bsize, disk);
      hide Table, EntriesInside;
      var i := if kept > NUM_DIRECT then kept - NUM_DIRECT else 0;
      assert t[0..] == t;
      FreeEntries(f, i, t);
      if i == 0 {
        FreedMore(old(owner), NonZero(t), files[f].indirect);
        FreeOne(files[f].indirect);
        files := files[f := files[f].(indirect := 0)];
      } else {
        assert IndexFreed(old(files[f]), bsize, disk, kept) == NonZero(t[i..]);
      }
    }

    /** The part of shrink_dstream that trims the direct blocks, from block kept on. */
    method TrimDirect(f: int, kept: nat)
      requires Tied() && f in files && |files[f].direct| == NUM_DIRECT && kept < NUM_DIRECT
      requires forall j :: 0 <= j < NUM_DIRECT ==> files[f].direct[j] < |disk|
      modifies this`files, this`owner, bm`usedBlocks, bits, bv`nextFree, bv`isFull
      ensures Tied() && owner == old(owner) - Elems(NonZero(old(files[f]).direct[kept..]))
      ensures bm.usedBlocks == old(bm.usedBlocks) - |NonZero(old(files[f]).direct[kept..])|
      ensures files == old(files)[f := old(files[f]).(direct := Trimmed(old(files[f]).direct, kept))]
    {
      hide Tied, Bitmap.Valid, Bitmap.Used, Elems, NonZero, ZeroRange;
      ghost var d := files[f].direct;
      ghost var done: seq<nat> := [];
      FreedNothing(owner);
      var s := files[f];
      var i := kept;
      TrimStart(d, kept);
      while i < NUM_DIRECT
        invariant kept <= i <= NUM_DIRECT && Tied() && Trimming(d, s.direct, kept, i, done)
        invariant owner == old(owner) - Elems(done) && bm.usedBlocks == old(bm.usedBlocks) - |done|
        invariant s == old(files[f]).(direct := s.direct) && files == old(files)[f := s]
      {
        TrimNext(d, s.direct, kept, i, done);
        if s.direct[i] == 0 {
          break;
        }
        FreeOne(s.direct[i]);
        FreedMore(old(owner), done, d[i]);
        done := done + [d[i]];
        s := s.(direct := s.direct[i := 0]);
        files := files[f := s];
        i := i + 1;
      }
      TrimEnd(d, s.direct, kept, i, done);
    }

    /** shrink_dstream, whatever earlier cuts have left behind: what it frees, and what the count becomes.  The
        volume stays in order exactly if the cut fits. */
    method Shrink(f: int, newSize: nat)
      requires Valid() && f in files && newSize <= files[f].size
      modifies this`files, this`owner, bm`usedBlocks, bits, bv`nextFree, bv`isFull
      ensures Tied() && State() == ShrinkTo(old(State()), f, newSize)
      ensures bm.usedBlocks == old(bm.usedBlocks) - |FreedBlocks(old(State()), f, newSize)|
      ensures Valid() <==> ShrinkFits(old(State()), f, newSize)
    {
      hide Conserved, StreamOk, Tied, Bitmap.Valid, Bitmap.Counted, Bitmap.Used, Bitmap.Exhausted, ShrinkTo, FreedBlocks, ShrinkFits, FreesOnce, IndexFreed, NonZero, Elems, EntriesInside;
      ghost var st := State();
      ShrinkStart(st, f, newSize);
      CountIs();
      if BlockCount(files[f].size, bsize) == KeptBlocks(newSize, bsize) {
        files := files[f := files[f].(size := newSize)];
        ShrinkInPlace(st, f, newSize);
      } else {
        DropBlocks(f, newSize);
      }
      Outcome(st, f, newSize);
    }

    method DropBlocks(f: int, newSize: nat)
      requires Tied() && Conserved(State()) && f in files && newSize <= files[f].size && bsize >= 2
      requires BlockCount(files[f].size, bsize) != KeptBlocks(newSize, bsize)
      modifies this`files, this`owner, bm`usedBlocks, bits, bv`nextFree, bv`isFull
      ensures Tied() && State() == ShrinkTo(old(State()), f, newSize)
      ensures bm.usedBlocks == old(bm.usedBlocks) - |FreedBlocks(old(State()), f, newSize)|
    {
      hide Conserved, StreamOk, Tied, Bitmap.Valid, Bitmap.Counted, Bitmap.Used, Bitmap.Exhausted, ShrinkTo, FreedBlocks, IndexFreed, NonZero, Elems, EntriesInside, Trimmed;
      ghost var st := State();
      ShrinkStart(st, f, newSize);
      var kept := KeptBlocks(newSize, bsize);
      IndexNone(files[f], bsize, disk, kept);
      ghost var s := files[f];
      if files[f].indirect != 0 {
        TrimIndex(f, kept);
      } else {
        FreedNothing(owner);
      }
      ghost var o1 := owner;
      if kept < NUM_DIRECT {
        TrimDirect(f, kept);
      } else {
        FreedNothing(owner);
      }
      files := files[f := files[f].(size := newSize)];
      ShrinkOutcome(st, f, newSize, State());
    }

    lemma CountIs()
      requires Linked()
      ensures Tied() && bm.usedBlocks == |owner.Keys|
    {
    }

    /** The count tells whether each block was freed once. */
    lemma Outcome(st: VolumeModel.State, f: int, newSize: nat)
      requires Conserved(st) && f in st.files && newSize <= st.files[f].size
      requires Tied() && State() == ShrinkTo(st, f, newSize)
      requires bm.usedBlocks == |st.owner.Keys| - |FreedBlocks(st, f, newSize)|
      ensures Valid() <==> ShrinkFits(st, f, newSize)
    {
      hide Conserved, ShrinkTo, FreedBlocks, ShrinkFits, FreesOnce;
      FreesCounted(st, f, newSize);
      ShrinkExact(st, f, newSize);
    }

    /** myfs_set_file_size. */
    method SetFileSize(f: int, newSize: nat) returns (err: Status)
      requires Valid() && f in files
      modifies this`disk, this`files, this`owner, bm`usedBlocks, bits, bv`nextFree, bv`isFull
      ensures Tied() && (Valid() <==> newSize < old(files[f].size) ==> ShrinkFits(old(State()), f, newSize))
      ensures newSize == old(files[f].size) ==> err == Done && State() == old(State())
      ensures newSize < old(files[f].size) ==> err == Done && State() == ShrinkTo(old(State()), f, newSize)
      ensures newSize > old(files[f].size) ==> Grown(old(State()), State(), f) && (err == Done ==> files[f].size == newSize)
      ensures err != Done ==>
                newSize > old(files[f].size) && ((err == OutOfSpace && bm.Valid() && bm.Exhausted(1))
                || (err == TooBig && BlockCount(newSize, bsize) > NUM_DIRECT + PerIndex(bsize)))
    {
      hide Conserved, Linked, ShrinkTo, ShrinkFits, Grown, Bitmap.Valid, Bitmap.Counted, Bitmap.Used, Bitmap.Exhausted;
      if newSize == files[f].size {
        Rests();
        return Done;
      }
      if newSize < files[f].size {
        Shrink(f, newSize);
        return Done;
      }
      err := Grow(f, newSize);
      Rests();
    }

    lemma Rests()
      requires Valid()
      ensures Tied()
    {
    }

    /** myfs_free_data_stream.  If no stale entry is in the way, the file owns no block afterwards, and no other
        file has changed; otherwise the volume is not in order any more. */
    method FreeDataStream(f: int)
      requires Valid() && f in files
      modifies this`files, this`owner, bm`usedBlocks, bits, bv`nextFree, bv`isFull
      ensures State() == ShrinkTo(old(State()), f, 0) && f in files && files[f].size == 0
      ensures Valid() <==> ShrinkFits(old(State()), f, 0)
      ensures Valid() ==> Freed(old(State()), State(), f)
    {
      hide Conserved, Linked, Tied, ShrinkTo, ShrinkFits, Freed, Bitmap.Valid, Bitmap.Counted, Bitmap.Used, Bitmap.Exhausted;
      ghost var st := State();
      Shrink(f, 0);
      FreedFacts(st, f);
    }
  }

  /** c' is c with buf written at pos: it ends behind both, and bytes of c outside buf are kept.  (Bytes between
      the end of c and pos are whatever the new blocks held.) */
  ghost predicate Written(c: seq<byte>, c': seq<byte>, pos: nat, buf: seq<byte>) {
    && |c'| == (if pos + |buf| > |c| then pos + |buf| else |c|)
    && c'[pos..pos + |buf|] == buf
    && forall p: nat :: p < |c| && !(pos <= p < pos + |buf|) ==> c'[p] == c[p]
  }

  lemma GrownFacts(st0: VolumeModel.State, st: VolumeModel.State, f: int)
    requires Grown(st0, st, f)
    ensures Conserved(st0) && Conserved(st) && f in st0.files && f in st.files && st.files.Keys == st0.files.Keys
    ensures forall g :: g in st0.files && g != f ==> Content(st, g) == Content(st0, g)
    ensures Content(st0, f) <= Content(st, f)
  {
    forall g | g in st0.files && g != f ensures Content(st, g) == Content(st0, g) {
      OtherContent(st0, st, f, g);
    }
  }

  lemma WrittenFacts(st0: VolumeModel.State, st1: VolumeModel.State, st2: VolumeModel.State, f: int, pos: nat, buf: seq<byte>)
    requires Grown(st0, st1, f) && Overwrote(st1, st2, f, pos, buf)
    requires st1.files[f].size == if pos + |buf| > st0.files[f].size then pos + |buf| else st0.files[f].size
    ensures Conserved(st0) && Conserved(st2) && f in st0.files && st2.files.Keys == st0.files.Keys
    ensures forall g :: g in st0.files && g != f ==> Content(st2, g) == Content(st0, g)
    ensures Written(Content(st0, f), Content(st2, f), pos, buf)
  {
    GrownFacts(st0, st1, f);
    forall g | g in st0.files && g != f ensures Content(st2, g) == Content(st0, g) {
      OtherContent(st1, st2, f, g);
    }
    var c, c1 := Content(st0, f), Content(st1, f);
    forall p: nat | p < |c| ensures c1[p] == c[p] {
      assert c1[..|c|] == c;
    }
  }

  lemma OneDividesOut(blockSize: nat)
    requires blockSize > 0
    ensures 1 / 8 / blockSize + 1 == 1
  {
  }

  lemma IndexNone(s: Stream, bsize: nat, disk: seq<Block>, kept: nat)
    requires DiskOk(bsize, disk) && StreamShape(s, bsize, disk) && kept <= NUM_DIRECT + PerIndex(bsize)
    ensures s.indirect == 0 ==> IndexFreed(s, bsize, disk, kept) == []
  {
  }

  lemma FreedNothing(o: map<nat, Owner>)
    ensures o - Elems([]) == o
  {
  }

  lemma FreedMore(o: map<nat, Owner>, done: seq<nat>, a: nat)
    ensures o - Elems(done) - {a} == o - Elems(done + [a])
  {
    assert Elems(done + [a]) == Elems(done) + {a};
  }

  lemma TableAt(b: Block, i: nat)
    requires i < PerIndex(|b|)
    ensures POINTER_SIZE * (i + 1) <= |b| && Table(b)[i] == Pointer(b, i)
  {
  }

  lemma TableInside(s: Stream, bsize: nat, disk: seq<Block>)
    requires DiskOk(bsize, disk) && StreamShape(s, bsize, disk) && EntriesInside(s, bsize, disk) && s.indirect != 0
    ensures var t := Table(disk[s.indirect]); |t| == PerIndex(bsize) && forall j :: 0 <= j < |t| ==> t[j] < |disk|
  {
    var t := Table(disk[s.indirect]);
    forall j | 0 <= j < |t| ensures t[j] < |disk| {
      assert Addr(s, bsize, disk, j + NUM_DIRECT) < |disk|;
    }
  }

  lemma NonZeroStep(t: seq<nat>, i: nat)
    requires i < |t|
    ensures NonZero(t[i..]) == if t[i] == 0 then [] else [t[i]] + NonZero(t[i + 1..])
  {
    assert t[i..][1..] == t[i + 1..];
  }

  ghost function ZeroRange(d: seq<nat>, lo: nat, hi: nat): seq<nat> {
    seq(|d|, i requires 0 <= i < |d| => if lo <= i < hi then 0 else d[i])
  }

  /** The loop over the direct entries has freed those in done, up to entry i, and zeroed them. */
  ghost predicate Trimming(d: seq<nat>, now: seq<nat>, lo: nat, i: nat, done: seq<nat>) {
    && lo <= i <= |d| && |done| == i - lo && NonZero(d[lo..]) == done + NonZero(d[i..])
    && now == ZeroRange(d, lo, i)
  }

  lemma TrimStart(d: seq<nat>, lo: nat)
    requires lo <= |d|
    ensures Trimming(d, d, lo, lo, [])
  {
  }

  lemma TrimNext(d: seq<nat>, now: seq<nat>, lo: nat, i: nat, done: seq<nat>)
    requires Trimming(d, now, lo, i, done) && i < |d|
    ensures |now| == |d| && now[i] == d[i]
    ensures d[i] != 0 ==> Trimming(d, now[i := 0], lo, i + 1, done + [d[i]])
  {
    NonZeroStep(d, i);
    assert done + ([d[i]] + NonZero(d[i + 1..])) == (done + [d[i]]) + NonZero(d[i + 1..]);
  }

  lemma TrimEnd(d: seq<nat>, now: seq<nat>, lo: nat, i: nat, done: seq<nat>)
    requires Trimming(d, now, lo, i, done) && (i < |d| ==> now[i] == 0)
    ensures done == NonZero(d[lo..]) && now == Trimmed(d, lo)
  {
    if i < |d| {
      NonZeroStep(d, i);
    } else {
      assert d[i..] == [];
    }
    assert done + [] == done;
  }

  /** The entries from lo on zeroed, up to the first one that is zero. */
  ghost function Trimmed(d: seq<nat>, lo: nat): seq<nat>
    requires lo <= |d|
  {
    ZeroRange(d, lo, lo + |NonZero(d[lo..])|)
  }

  lemma ShrinkStart(st: VolumeModel.State, f: int, size: nat)
    requires Conserved(st) && f in st.files && size <= st.files[f].size
    ensures DiskOk(st.bsize, st.disk) && StreamShape(st.files[f], st.bsize, st.disk) && EntriesInside(st.files[f], st.bsize, st.disk)
    ensures KeptBlocks(size, st.bsize) <= BlockCount(st.files[f].size, st.bsize) <= NUM_DIRECT + PerIndex(st.bsize)
    ensures forall j :: 0 <= j < NUM_DIRECT ==> st.files[f].direct[j] < |st.disk|
  {
    hide OwnerOk;
    var s := st.files[f];
    StreamIs(st, f);
    KeptAtMost(size, s.size, st.bsize);
    forall j | 0 <= j < NUM_DIRECT ensures s.direct[j] < |st.disk| {
      if j < BlockCount(s.size, st.bsize) {
        assert BlockOwned(s, f, st.bsize, st.disk, st.owner, j);
      }
    }
  }

  lemma ShrinkInPlace(st: VolumeModel.State, f: int, size: nat)
    requires Conserved(st) && f in st.files && size <= st.files[f].size && st.bsize >= 2
    requires BlockCount(st.files[f].size, st.bsize) == KeptBlocks(size, st.bsize)
    ensures FreedBlocks(st, f, size) == [] && ShrinkTo(st, f, size) == Resize(st, f, size)
  {
    hide Conserved;
    assert ShrinkTo(st, f, size).owner == st.owner;
  }

  /** Trimming the index block and the direct blocks leaves exactly what ShrinkTo says. */
  lemma ShrinkOutcome(st: VolumeModel.State, f: int, size: nat, st': VolumeModel.State)
    requires Conserved(st) && f in st.files && size <= st.files[f].size
    requires DiskOk(st.bsize, st.disk) && StreamShape(st.files[f], st.bsize, st.disk)
    requires var s, kept := st.files[f], KeptBlocks(size, st.bsize);
      && kept < BlockCount(s.size, st.bsize)
      && st' == st.(files := st'.files, owner := st'.owner)
      && st'.owner == st.owner - Elems(IndexFreed(s, st.bsize, st.disk, kept)) - Elems(if kept < NUM_DIRECT then NonZero(s.direct[kept..]) else [])
      && st'.files == st.files[f := Stream(if kept < NUM_DIRECT then Trimmed(s.direct, kept) else s.direct, if kept <= NUM_DIRECT then 0 else s.indirect, size)]
    ensures st' == ShrinkTo(st, f, size)
    ensures var s, kept := st.files[f], KeptBlocks(size, st.bsize);
      |FreedBlocks(st, f, size)| == |IndexFreed(s, st.bsize, st.disk, kept)| + |if kept < NUM_DIRECT then NonZero(s.direct[kept..]) else []|
  {
    var s, kept := st.files[f], KeptBlocks(size, st.bsize);
    var a, d := IndexFreed(s, st.bsize, st.disk, kept), if kept < NUM_DIRECT then NonZero(s.direct[kept..]) else [];
    FreedParts(st, f, size);
    if kept < NUM_DIRECT {
      TrimmedIs(st, f, kept);
    }
    hide IndexFreed, NonZero, Conserved, StreamOk, FreedBlocks, StreamShape, Trimmed, DiskOk;
    JoinedOut(st.owner, a, d);
    var t := ShrinkTo(st, f, size);
    LeftAre(st.owner, a + d);
    assert st'.files[f].direct == t.files[f].direct;
  }

  lemma FreedParts(st: VolumeModel.State, f: int, size: nat)
    requires Conserved(st) && f in st.files && size <= st.files[f].size
    requires DiskOk(st.bsize, st.disk) && StreamShape(st.files[f], st.bsize, st.disk)
    requires KeptBlocks(size, st.bsize) < BlockCount(st.files[f].size, st.bsize)
    ensures var s, kept := st.files[f], KeptBlocks(size, st.bsize);
      FreedBlocks(st, f, size) == IndexFreed(s, st.bsize, st.disk, kept) + if kept < NUM_DIRECT then NonZero(s.direct[kept..]) else []
  {
    hide Conserved, IndexFreed, NonZero;
  }

  lemma JoinedOut(o: map<nat, Owner>, a: seq<nat>, d: seq<nat>)
    ensures o - Elems(a) - Elems(d) == o - Elems(a + d)
  {
    assert Elems(a + d) == Elems(a) + Elems(d);
  }

  lemma LeftAre(o: map<nat, Owner>, l: seq<nat>)
    ensures o - Elems(l) == map b | b in o && b !in l :: o[b]
  {
  }

  /** The direct entries from kept on are all zero then. */
  lemma TrimmedIs(st: VolumeModel.State, f: int, kept: nat)
    requires Conserved(st) && f in st.files && st.bsize > 0 && kept < NUM_DIRECT && kept <= BlockCount(st.files[f].size, st.bsize)
    ensures |st.files[f].direct| == NUM_DIRECT
    ensures Trimmed(st.files[f].direct, kept) == seq(NUM_DIRECT, i requires 0 <= i < NUM_DIRECT => if i < kept then st.files[f].direct[i] else 0)
  {
    DirectRun(st, f, kept);
    StreamFacts(st, f);
    hide Conserved, NonZero;
  }

  /** The file owns nothing any more; its blocks are the ones given back; other files keep their contents. */
  ghost predicate Freed(st: VolumeModel.State, st': VolumeModel.State, f: int) {
    && Conserved(st) && Conserved(st') && st'.files.Keys == st.files.Keys && f in st.files
    && (st.files[f].size > 0 ==> BlocksOf(st', f) == {} && st'.owner.Keys == st.owner.Keys - BlocksOf(st, f))
    && forall g :: g in st.files && g != f ==> Content(st', g) == Content(st, g)
  }

  lemma FreedFacts(st: VolumeModel.State, f: int)
    requires Conserved(st) && f in st.files
    ensures f in ShrinkTo(st, f, 0).files && ShrinkTo(st, f, 0).files[f].size == 0
    ensures ShrinkFits(st, f, 0) ==> Freed(st, ShrinkTo(st, f, 0), f)
  {
    hide Conserved, FreedBlocks, ShrinkFits, FreesOnce;
    var st' := ShrinkTo(st, f, 0);
    if ShrinkFits(st, f, 0) {
      ShrinkConserves(st, f, 0);
      hide ShrinkTo;
      if st.files[f].size > 0 {
        ShrinkToNothing(st, f);
        assert st'.owner.Keys == st.owner.Keys - BlocksOf(st, f);
      }
      forall g | g in st.files && g != f ensures Content(st', g) == Content(st, g) {
        OtherContent(st, st', f, g);
      }
    }
  }

  lemma KeptByNothing(st: VolumeModel.State, f: int)
    requires Conserved(st)
    ensures OthersKept(st, st, f) && TailsKept(st, st)
  {
    forall b | b in st.owner ensures OwnerOk(b, st) {
    }
  }

  /** addr is where byte pos of the file lives. */
  ghost predicate AddressOf(st: VolumeModel.State, f: int, pos: nat, addr: int) {
    LookedUp(st, f, pos, addr, false) && addr >= 0 && pos < st.files[f].size && Conserved(st)
  }

  /** file_pos_to_disk_addr, whatever the position: the entry for the block pos lies in, even if it is not the
      file's; the program dies on an address off the device, and -1 means there is no such entry. */
  ghost predicate LookedUp(st: VolumeModel.State, f: int, pos: nat, addr: int, died: bool) {
    && f in st.files && DiskOk(st.bsize, st.disk) && StreamShape(st.files[f], st.bsize, st.disk)
    && if pos / st.bsize < NUM_DIRECT + PerIndex(st.bsize) then
         addr == Addr(st.files[f], st.bsize, st.disk, pos / st.bsize) && (died <==> addr > |st.disk|)
       else
         addr == -1 && !died
  }

  /** Nothing tells where the block behind the file's last byte is: the file has as many blocks as it can have, or
      fills its direct blocks and has no index block, so that block 0 is taken for it, and that begins with
      something that is no address. */
  ghost predicate EndUnmapped(st: VolumeModel.State, f: int)
    requires Conserved(st) && f in st.files
  {
    || st.files[f].size == (NUM_DIRECT + PerIndex(st.bsize)) * st.bsize
    || (st.files[f].size == NUM_DIRECT * st.bsize && st.files[f].indirect == 0 && Pointer(st.disk[0], 0) > |st.disk|)
  }

  /** Looking up the end of a file fails just in those cases. */
  lemma EndLookup(st: VolumeModel.State, f: int, addr: int, died: bool)
    requires Conserved(st) && f in st.files && LookedUp(st, f, st.files[f].size, addr, died)
    ensures died || addr < 0 <==> EndUnmapped(st, f)
  {
    var s := st.files[f];
    var i, n := s.size / st.bsize, NUM_DIRECT + PerIndex(st.bsize);
    assert StreamOk(s, f, st.bsize, st.disk, st.owner);
    EndBlock(s.size, st.bsize);
    WholeBlocks(s.size, n, st.bsize);
    WholeBlocks(s.size, NUM_DIRECT, st.bsize);
    if i < BlockCount(s.size, st.bsize) {
      assert BlockOwned(s, f, st.bsize, st.disk, st.owner, i);
    } else if s.indirect == 0 && NUM_DIRECT <= i < n {
      assert i == NUM_DIRECT;
    }
  }

  /** The block behind the last byte is the last block, or the one behind it. */
  lemma EndBlock(size: nat, bsize: nat)
    requires bsize > 0
    ensures size / bsize == BlockCount(size, bsize) - if size % bsize == 0 then 0 else 1
  {
    var q, r := size / bsize, size % bsize;
    assert size == q * bsize + r;
    if r == 0 {
      DivUnique(size + bsize - 1, bsize, q, bsize - 1);
    } else {
      assert (q + 1) * bsize == q * bsize + bsize;
      DivUnique(size + bsize - 1, bsize, q + 1, r - 1);
    }
  }

  lemma WholeBlocks(size: nat, n: nat, bsize: nat)
    requires bsize > 0
    ensures size == n * bsize <==> size / bsize == n && size % bsize == 0
  {
    if size == n * bsize {
      DivUnique(size, bsize, n, 0);
    }
  }

  /** Position pos lies in one of the file's blocks, on the device. */
  ghost predicate Located(st: VolumeModel.State, f: int, pos: nat)
    requires f in st.files
  {
    && DiskOk(st.bsize, st.disk) && StreamShape(st.files[f], st.bsize, st.disk)
    && pos / st.bsize < BlockCount(st.files[f].size, st.bsize)
    && Addr(st.files[f], st.bsize, st.disk, pos / st.bsize) < |st.disk|
  }

  lemma AddressFacts(st: VolumeModel.State, f: int, pos: nat)
    requires Conserved(st) && f in st.files && pos < st.files[f].size
    ensures Located(st, f, pos)
  {
    assert StreamOk(st.files[f], f, st.bsize, st.disk, st.owner);
    InFile(st.files[f].size, st.bsize, pos);
    assert BlockOwned(st.files[f], f, st.bsize, st.disk, st.owner, pos / st.bsize);
  }

  lemma AddressInside(st: VolumeModel.State, f: int, pos: nat, addr: int)
    requires AddressOf(st, f, pos, addr)
    ensures 0 <= addr < |st.disk| && |st.disk[addr]| == st.bsize > 0
  {
    AddressFacts(st, f, pos);
  }

  /** The bytes of file f at pos are overwritten, and nothing else. */
  ghost predicate Overwrote(st: VolumeModel.State, st': VolumeModel.State, f: int, pos: nat, bytes: seq<byte>) {
    && Conserved(st) && Conserved(st') && f in st.files && f in st'.files
    && OthersKept(st, st', f) && TailsKept(st, st')
    && pos + |bytes| <= |Content(st, f)| && Content(st', f) == Splice(Content(st, f), pos, bytes)
  }

  lemma OverwroteThen(st0: VolumeModel.State, st1: VolumeModel.State, st2: VolumeModel.State, f: int, pos: nat, x: seq<byte>, y: seq<byte>)
    requires Overwrote(st0, st1, f, pos, x) && Overwrote(st1, st2, f, pos + |x|, y)
    ensures Overwrote(st0, st2, f, pos, x + y)
  {
    hide Conserved, OthersKept, TailsKept, Content, Splice;
    SpliceAfter(Content(st0, f), pos, x, y);
    OthersTransitive(st0, st1, st2, f);
    TailsTransitive(st0, st1, st2);
  }

  lemma OverwroteNothing(st: VolumeModel.State, f: int, pos: nat)
    requires Conserved(st) && f in st.files && pos <= st.files[f].size
    ensures Overwrote(st, st, f, pos, [])
  {
    KeptByNothing(st, f);
    hide Conserved, OthersKept, TailsKept, Content;
  }

  lemma WriteStep(st: VolumeModel.State, st': VolumeModel.State, f: int, pos: nat, addr: int, bytes: seq<byte>)
    requires AddressOf(st, f, pos, addr) && 0 <= addr < |st.disk| && |st.disk[addr]| == st.bsize && 0 < |bytes|
    requires pos % st.bsize + |bytes| <= st.bsize && pos + |bytes| <= st.files[f].size
    requires st' == st.(disk := st.disk[addr := Splice(st.disk[addr], pos % st.bsize, bytes)])
    ensures Overwrote(st, st', f, pos, bytes)
  {
    hide Conserved, TailsKept, EntriesInside, StreamOk, Content, StreamShape, OthersKept, Splice;
    AddressFacts(st, f, pos);
    assert pos == pos / st.bsize * st.bsize + pos % st.bsize;
    PokeSound(st, f, pos / st.bsize, pos % st.bsize, bytes);
    PokeContent(st, f, pos / st.bsize, pos % st.bsize, bytes);
  }

  lemma ByteOfBlock(st: VolumeModel.State, f: int, p: nat, addr: int)
    requires AddressOf(st, f, p, addr)
    ensures 0 <= addr < |st.disk| && |st.disk[addr]| == st.bsize
    ensures st.disk[addr][p % st.bsize] == Content(st, f)[p]
  {
    AddressFacts(st, f, p);
    MappedIfOk(st, f);
  }

  /** Bytes of one block are bytes of the contents. */
  lemma ChunkOfContent(st: VolumeModel.State, f: int, pos: nat, amt: nat, addr: int)
    requires AddressOf(st, f, pos, addr) && pos % st.bsize + amt <= st.bsize && pos + amt <= st.files[f].size
    ensures 0 <= addr < |st.disk| && |st.disk[addr]| == st.bsize
    ensures st.disk[addr][pos % st.bsize..pos % st.bsize + amt] == Content(st, f)[pos..pos + amt]
  {
    hide Content, Conserved, StreamShape, Addr;
    AddressInside(st, f, pos, addr);
    var x, y := st.disk[addr][pos % st.bsize..pos % st.bsize + amt], Content(st, f)[pos..pos + amt];
    forall k | 0 <= k < amt ensures x[k] == y[k] {
      DivUnique(pos + k, st.bsize, pos / st.bsize, pos % st.bsize + k);
      ByteOfBlock(st, f, pos + k, addr);
    }
  }

  lemma NextAligned(pos: nat, amt: nat, bsize: nat)
    requires bsize > 0
    ensures pos % bsize + amt == bsize ==> (pos + amt) % bsize == 0
  {
    if pos % bsize + amt == bsize {
      DivUnique(pos + amt, bsize, pos / bsize + 1, 0);
    }
  }

  lemma FactorCompare(x: nat, n: nat, d: nat)
    requires d > 0
    ensures x < n * d <==> x / d < n
  {
    if x < n * d {
      if n <= x / d {
        MulMono(n, x / d, d);
      }
    } else {
      DivUnique(n * d, d, n, 0);
      DivMono(n * d, x, d);
    }
  }

  /** The comparisons of file_pos_to_disk_addr, in terms of the block number. */
  lemma PositionCases(pos: nat, bsize: nat)
    requires bsize > 0
    ensures pos / bsize >= 0
    ensures pos < NUM_DIRECT * bsize <==> pos / bsize < NUM_DIRECT
    ensures pos < PerIndex(bsize) * bsize + NUM_DIRECT * bsize <==> pos / bsize < NUM_DIRECT + PerIndex(bsize)
    ensures pos >= NUM_DIRECT * bsize ==> (pos - NUM_DIRECT * bsize) / bsize == pos / bsize - NUM_DIRECT
  {
    FactorCompare(pos, NUM_DIRECT, bsize);
    FactorCompare(pos, NUM_DIRECT + PerIndex(bsize), bsize);
    assert (NUM_DIRECT + PerIndex(bsize)) * bsize == NUM_DIRECT * bsize + PerIndex(bsize) * bsize;
    if pos >= NUM_DIRECT * bsize {
      var q := pos / bsize - NUM_DIRECT;
      assert pos - NUM_DIRECT * bsize == q * bsize + pos % bsize by {
        assert q * bsize == pos / bsize * bsize - NUM_DIRECT * bsize;
      }
      DivUnique(pos - NUM_DIRECT * bsize, bsize, q, pos % bsize);
    }
  }

  lemma TailsTransitive(st0: VolumeModel.State, st1: VolumeModel.State, st2: VolumeModel.State)
    requires Conserved(st0) && Conserved(st1) && Conserved(st2) && TailsKept(st0, st1) && TailsKept(st1, st2)
    ensures TailsKept(st0, st2)
  {
  }

  /** Growing: the file keeps its bytes, other files keep everything. */
  ghost predicate Grown(st0: VolumeModel.State, st: VolumeModel.State, f: int) {
    && Conserved(st0) && Conserved(st) && f in st0.files && f in st.files && OthersKept(st0, st, f) && TailsKept(st0, st)
    && st.files[f].size >= st0.files[f].size
    && Content(st, f)[..st0.files[f].size] == Content(st0, f)
  }

  lemma GrownStart(st: VolumeModel.State, f: int)
    requires Conserved(st) && f in st.files
    ensures Grown(st, st, f)
  {
    forall b | b in st.owner ensures OwnerOk(b, st) {
    }
  }

  lemma GrownStep(st0: VolumeModel.State, st: VolumeModel.State, st': VolumeModel.State, f: int)
    requires Grown(st0, st, f) && Conserved(st') && OthersKept(st, st', f) && TailsKept(st, st') && f in st'.files && st'.files[f].size >= st.files[f].size
    requires Content(st', f)[..st.files[f].size] == Content(st, f)
    ensures Grown(st0, st', f)
  {
    OthersTransitive(st0, st, st', f);
    var n := st0.files[f].size;
    assert Content(st', f)[..st.files[f].size][..n] == Content(st', f)[..n];
  }

  lemma GrownResize(st0: VolumeModel.State, st: VolumeModel.State, f: int, size: nat)
    requires Grown(st0, st, f) && size >= st0.files[f].size && BlockCount(size, st.bsize) == BlockCount(st.files[f].size, st.bsize)
    ensures Grown(st0, Resize(st, f, size), f)
  {
    ResizeSound(st, f, size);
    OthersTransitive(st0, st, Resize(st, f, size), f);
    var n, m := st0.files[f].size, if size < st.files[f].size then size else st.files[f].size;
    assert Content(Resize(st, f, size), f)[..m][..n] == Content(Resize(st, f, size), f)[..n];
    assert Content(st, f)[..m][..n] == Content(st, f)[..n];
  }

  /** What a sound volume says about the stream of a file. */
  lemma StreamFacts(st: VolumeModel.State, f: int)
    requires Conserved(st) && f in st.files
    ensures DiskOk(st.bsize, st.disk) && StreamShape(st.files[f], st.bsize, st.disk)
    ensures |st.files[f].direct| == NUM_DIRECT && st.files[f].indirect < |st.disk|
    ensures BlockCount(st.files[f].size, st.bsize) <= NUM_DIRECT + PerIndex(st.bsize)
    ensures 0 in st.owner
    ensures BlockCount(st.files[f].size, st.bsize) > NUM_DIRECT ==> st.files[f].indirect != 0
    ensures forall i: nat :: BlockCount(st.files[f].size, st.bsize) <= i < NUM_DIRECT ==> st.files[f].direct[i] == 0
  {
    assert StreamOk(st.files[f], f, st.bsize, st.disk, st.owner);
  }

  lemma PutPointerFits(bsize: nat, k: nat)
    requires bsize >= POINTER_SIZE && bsize % POINTER_SIZE == 0 && NUM_DIRECT <= k < NUM_DIRECT + PerIndex(bsize)
    ensures POINTER_SIZE * (k - NUM_DIRECT + 1) <= bsize
  {
  }

  lemma AttachSound(st: VolumeModel.State, st': VolumeModel.State, f: int, k: nat, a: nat)
    requires Whole(st, f, k) && Unowned(st, a) && f in st'.files && DiskOk(st.bsize, st.disk) && StreamShape(st.files[f], st.bsize, st.disk)
    requires k < NUM_DIRECT || (k < NUM_DIRECT + PerIndex(st.bsize) && st.files[f].indirect != 0)
    requires var s := st.files[f];
             if k < NUM_DIRECT then
               st' == st.(files := st.files[f := s.(direct := s.direct[k := a], size := s.size + st.bsize)], owner := st.owner[a := Data(f, k)])
             else
               st' == st.(disk := st.disk[s.indirect := PutPointer(st.disk[s.indirect], k - NUM_DIRECT, a)],
                          files := st.files[f := s.(size := s.size + st.bsize)], owner := st.owner[a := Data(f, k)])
    ensures Whole(st', f, k + 1) && OthersKept(st, st', f) && TailsKept(st, st')
    ensures Content(st', f)[..st.files[f].size] == Content(st, f)
  {
    hide Conserved, StreamOk, EntriesInside, TailsKept, OthersKept;
    AttachExtends(st, st', f, k, a);
    hide Extended;
    ExtendSound(st, st', f, k, a);
  }

  lemma AttachExtends(st: VolumeModel.State, st': VolumeModel.State, f: int, k: nat, a: nat)
    requires Whole(st, f, k) && Unowned(st, a) && f in st'.files && DiskOk(st.bsize, st.disk) && StreamShape(st.files[f], st.bsize, st.disk)
    requires k < NUM_DIRECT || (k < NUM_DIRECT + PerIndex(st.bsize) && st.files[f].indirect != 0)
    requires var s := st.files[f];
             if k < NUM_DIRECT then
               st' == st.(files := st.files[f := s.(direct := s.direct[k := a], size := s.size + st.bsize)], owner := st.owner[a := Data(f, k)])
             else
               st' == st.(disk := st.disk[s.indirect := PutPointer(st.disk[s.indirect], k - NUM_DIRECT, a)],
                          files := st.files[f := s.(size := s.size + st.bsize)], owner := st.owner[a := Data(f, k)])
    ensures Extended(st, st', f, k, a)
  {
    StreamIs(st, f);
    hide Conserved, StreamOk;
    BlockCountOf(k + 1, st.bsize);
    if k >= NUM_DIRECT {
      PutPointerExtends(st.files[f], f, st.bsize, st.disk, k, a);
    }
  }

  lemma BlockCountBounds(size: nat, bsize: nat)
    requires bsize > 0
    ensures size <= BlockCount(size, bsize) * bsize < size + bsize
  {
    var q := (size + bsize - 1) / bsize;
    assert size + bsize - 1 == q * bsize + (size + bsize - 1) % bsize;
  }

  lemma SameFactor(a: nat, b: nat, d: nat)
    requires d > 0 && a * d == b * d
    ensures a == b
  {
    DivUnique(a * d, d, a, 0);
    DivUnique(a * d, d, b, 0);
  }

  lemma BeyondIndirect(size: nat, bsize: nat)
    requires bsize >= POINTER_SIZE && size > PerIndex(bsize) * (PerIndex(bsize) * bsize) + PerIndex(bsize) * bsize + NUM_DIRECT * bsize
    ensures BlockCount(size, bsize) > NUM_DIRECT + PerIndex(bsize)
  {
    BlockCountBounds(size, bsize);
    assert (NUM_DIRECT + PerIndex(bsize)) * bsize == NUM_DIRECT * bsize + PerIndex(bsize) * bsize;
    assert PerIndex(bsize) * (PerIndex(bsize) * bsize) >= 0;
    if BlockCount(size, bsize) <= NUM_DIRECT + PerIndex(bsize) {
      MulMono(BlockCount(size, bsize), NUM_DIRECT + PerIndex(bsize), bsize);
    }
  }

  lemma CreateSound(st: VolumeModel.State, f: int)
    requires Conserved(st) && f !in st.files
    ensures var st' := st.(files := st.files[f := Stream(seq(NUM_DIRECT, _ => 0), 0, 0)]);
            Conserved(st') && Content(st', f) == [] && forall g :: g in st.files ==> Content(st', g) == Content(st, g)
  {
    var st' := st.(files := st.files[f := Stream(seq(NUM_DIRECT, _ => 0), 0, 0)]);
    BlockCountOf(0, st.bsize);
    forall g | g in st'.files ensures StreamOk(st'.files[g], g, st.bsize, st.disk, st.owner) {
      if g != f { assert StreamOk(st.files[g], g, st.bsize, st.disk, st.owner); }
    }
    forall b | b in st'.owner ensures OwnerOk(b, st') {
      assert OwnerOk(b, st);
    }
  }
}
