/** The block cache (cache.c): the flusher, the client operations and the cached block I/O, run by one thread at a
    time.  Device I/O succeeds. */
module BlockCache {
  import opened CacheModel
  import opened Lists
  import Arithmetic

  const NUM_FLUSH_BLOCKS := 64
  const READ_AHEAD_SIZE := 32 * 1024

  lemma ReadAheadFits(bsize: nat)
    requires bsize >= 512
    ensures READ_AHEAD_SIZE / bsize <= NUM_FLUSH_BLOCKS
  {
    var blocks := READ_AHEAD_SIZE / bsize;
    if blocks > NUM_FLUSH_BLOCKS {
      Arithmetic.MulMono(NUM_FLUSH_BLOCKS + 1, blocks, bsize);
    }
  }

  /** The most entries that a miss at block lo of the request asks for. */
  function Wanted(req: Request, lo: nat): (n: nat)
    requires req.Valid() && lo < req.num
    ensures 0 < n <= NUM_FLUSH_BLOCKS
  {
    var left := if req.num - lo < NUM_FLUSH_BLOCKS then req.num - lo else NUM_FLUSH_BLOCKS;
    if req.ahead && req.op.Read? && left < READ_AHEAD_SIZE / req.bsize then
      ReadAheadFits(req.bsize);
      READ_AHEAD_SIZE / req.bsize
    else
      left
  }

  /** Wherever the request misses, there are entries enough beside those locked, before or by the request itself. */
  ghost predicate Roomy(req: Request, nlocked: nat, maxBlocks: nat)
    requires req.Valid()
  {
    forall lo: nat :: lo < req.num ==> nlocked + (if req.lock then lo else 0) + Wanted(req, lo) <= maxBlocks
  }

  /** The C int a wider difference is cut down to. */
  function ToInt32(x: int): int {
    (x + 0x8000_0000) % 0x1_0000_0000 - 0x8000_0000
  }

  class Cache {
    const maxBlocks: nat
    const sizes: map<int, nat>    // max_device_blocks, for the devices in use
    var ents: map<Ptr, Ent>
    var ht: map<Key, Ptr>
    var normal: seq<Ptr>          // each list from its LRU end to its MRU end
    var locked: seq<Ptr>
    var curBlocks: nat
    var disk: map<Key, Block>
    var nextPtr: Ptr              // the next address to allocate
    var nextSnap: nat             // numbers the snapshots
    ghost var log: seq<Event>
    ghost var lawful: bool        // no write has gone past the journal so far
    ghost var touched: set<Key>

    // ---- writing

    /** One block goes to the device. */
    method WriteBlock(p: Ptr, ghost waiting: set<Ptr>)
      requires Sane(ents, ht, disk, log, nextSnap, lawful, touched, waiting)
      requires p in ents && p !in waiting && MayWrite(ents[p])
      modifies `disk, `log
      ensures Sane(ents, ht, disk, log, nextSnap, lawful, touched, waiting + {p})
      ensures disk == old(disk)[ents[p].key := Outgoing(ents[p])]
    {
      hide PhaseOf, Journaled;
      WriteInOrder(ents, ht, disk, log, nextSnap, lawful, waiting, p);
      log := log + [WriteOf(ents[p])];
      disk := disk[ents[p].key := Outgoing(ents[p])];
    }

    /** Its callback is made and the clone, or the dirty flag, goes. */
    method Report(p: Ptr, ghost waiting: set<Ptr>)
      requires Sane(ents, ht, disk, log, nextSnap, lawful, touched, waiting)
      requires p in waiting
      modifies `ents, `log
      ensures Sane(ents, ht, disk, log, nextSnap, lawful, touched, waiting - {p})
      ensures p in old(ents) && ents == old(ents)[p := WrittenOnce(old(ents[p]))]
    {
      hide Journaled;
      var e := ents[p];
      if e.clone.Some? {
        CallInOrder(ents, ht, disk, log, nextSnap, lawful, waiting, p, ents[p := WrittenOnce(e)]);
        log := log + [Called(e.key, e.clone.value.id)];
        ents := ents[p := e.(clone := None)];
      } else {
        CleanInOrder(ents, ht, log, nextSnap, lawful, waiting, p, ents[p := WrittenOnce(e)]);
        ents := ents[p := e.(dirty := false)];
      }
    }

    /** The device write of the consecutive blocks part. */
    method WriteAll(part: seq<Ptr>)
      requires Sane(ents, ht, disk, log, nextSnap, lawful, touched, {}) && Distinct(part)
      requires forall m :: 0 <= m < |part| ==> part[m] in ents && MayWrite(ents[part[m]])
      modifies `disk, `log
      ensures Sane(ents, ht, disk, log, nextSnap, lawful, touched, Elems(part)) && disk.Keys == old(disk).Keys
      ensures forall p :: p in ents && p in part ==> disk[ents[p].key] == Outgoing(ents[p])
      ensures forall p :: p in ents && p !in part ==> disk[ents[p].key] == old(disk)[ents[p].key]
      ensures forall k :: k in disk && !Holds(ents, ht, k) ==> disk[k] == old(disk)[k]
    {
      hide Journaled, Kept, MayWrite, Outgoing;
      ghost var waiting: set<Ptr> := {};
      for k := 0 to |part|
        invariant Sane(ents, ht, disk, log, nextSnap, lawful, touched, waiting) && waiting == Elems(part[..k])
        invariant disk.Keys == old(disk).Keys
        invariant forall p :: p in ents && p in part[..k] ==> disk[ents[p].key] == Outgoing(ents[p])
        invariant forall p :: p in ents && p !in part[..k] ==> disk[ents[p].key] == old(disk)[ents[p].key]
        invariant forall q :: q in disk && !Holds(ents, ht, q) ==> disk[q] == old(disk)[q]
      {
        WriteBlock(part[k], waiting);
        waiting := waiting + {part[k]};
        assert part[..k + 1] == part[..k] + [part[k]];
      }
      assert part[..|part|] == part && waiting == Elems(part);
    }

    method ReportAll(part: seq<Ptr>)
      requires Sane(ents, ht, disk, log, nextSnap, lawful, touched, Elems(part)) && Distinct(part)
      modifies `ents, `log
      ensures Sane(ents, ht, disk, log, nextSnap, lawful, touched, {}) && ents.Keys == old(ents).Keys
      ensures forall p :: p in ents ==> ents[p] == if p in part then WrittenOnce(old(ents)[p]) else old(ents)[p]
    {
      hide Journaled, Kept, WrittenOnce;
      ghost var waiting := Elems(part);
      for k := 0 to |part|
        invariant Sane(ents, ht, disk, log, nextSnap, lawful, touched, waiting) && waiting == Elems(part[k..])
        invariant ents.Keys == old(ents).Keys
        invariant forall p :: p in ents ==> ents[p] == if p in part[..k] then WrittenOnce(old(ents)[p]) else old(ents)[p]
      {
        assert part[k..] == [part[k]] + part[k + 1..];
        Report(part[k], waiting);
        waiting := waiting - {part[k]};
        assert part[..k + 1] == part[..k] + [part[k]];
      }
      assert part[..|part|] == part && waiting == {};
    }

    method WriteRun(part: seq<Ptr>)
      requires Sane(ents, ht, disk, log, nextSnap, lawful, touched, {}) && Distinct(part)
      requires forall m :: 0 <= m < |part| ==> part[m] in ents && MayWrite(ents[part[m]])
      modifies `ents, `disk, `log
      ensures Sane(ents, ht, disk, log, nextSnap, lawful, touched, {})
      ensures WroteSome(old(ents), old(disk), ht, part, ents, disk)
    {
      hide Journaled, Kept;
      WriteAll(part);
      ReportAll(part);
    }

    method WriteEnt(p: Ptr)
      requires Sane(ents, ht, disk, log, nextSnap, lawful, touched, {}) && p in ents && MayWrite(ents[p])
      modifies `ents, `disk, `log
      ensures Sane(ents, ht, disk, log, nextSnap, lawful, touched, {})
      ensures ents == old(ents)[p := WrittenOnce(old(ents)[p])]
      ensures disk == old(disk)[old(ents)[p].key := Outgoing(old(ents)[p])]
    {
      hide Sane, WrittenOnce, Outgoing;
      ghost var one := {} + {p};
      WriteBlock(p, {});
      Report(p, one);
      assert one - {p} == {};
    }

    /** flush_cache_ent: the clone goes first, then, if it may, the data. */
    method FlushCacheEnt(p: Ptr)
      requires Sane(ents, ht, disk, log, nextSnap, lawful, touched, {}) && p in ents
      modifies `ents, `disk, `log
      ensures Sane(ents, ht, disk, log, nextSnap, lawful, touched, {})
      ensures ents == old(ents)[p := Settled(old(ents)[p])]
      ensures disk == old(disk)[old(ents)[p].key := SettledBlock(old(ents)[p], old(disk)[old(ents)[p].key])]
    {
      hide *;
      SettledIs(p, ents[p]);
      if !ents[p].dirty && ents[p].clone == None { return; }
      if ents[p].clone == None && ents[p].lock != 0 { return; }
      var cloned := ents[p].clone.Some?;
      WriteEnt(p);
      if cloned && ents[p].lock == 0 && ents[p].dirty {
        WriteEnt(p);
      }
    }

    lemma SettledIs(p: Ptr, e: Ent)
      requires Sane(ents, ht, disk, log, nextSnap, lawful, touched, {}) && p in ents && e == ents[p]
      ensures e.key in disk && WrittenOnce(e).key == e.key && WrittenOnce(e).clone == None
      ensures WrittenOnce(e).lock == e.lock && (e.clone.Some? ==> WrittenOnce(e).dirty == e.dirty)
      ensures if e.clone.Some? || (e.dirty && e.lock == 0) then MayWrite(e)
              else Settled(e) == e && SettledBlock(e, disk[e.key]) == disk[e.key]
      ensures e.clone.Some? && e.dirty && e.lock == 0 ==>
        MayWrite(WrittenOnce(e)) && Settled(e) == WrittenOnce(WrittenOnce(e)) &&
        SettledBlock(e, disk[e.key]) == Outgoing(WrittenOnce(e))
      ensures MayWrite(e) && !(e.clone.Some? && e.dirty && e.lock == 0) && (e.dirty || e.clone.Some?) ==>
        Settled(e) == WrittenOnce(e) && SettledBlock(e, disk[e.key]) == Outgoing(e)
    {
    }

    /** Whether one pass of the flusher writes the entry. */
    predicate ToFlush(p: Ptr)
      reads `ents
    {
      p in ents && (ents[p].dirty || ents[p].clone.Some?) && MayWrite(ents[p])
    }

    /** The end of the run of consecutive blocks starting at batch[i]. */
    method RunEnd(batch: seq<Ptr>, i: nat) returns (j: nat)
      requires i < |batch| && ToFlush(batch[i])
      ensures i < j <= |batch| && j - i <= NUM_FLUSH_BLOCKS
      ensures forall m :: i <= m < j ==> batch[m] in ents && MayWrite(ents[batch[m]])
      ensures forall m :: i <= m < j ==>
        ents[batch[m]].key == Key(ents[batch[i]].key.dev, ents[batch[i]].key.bnum + m - i)
    {
      j := i + 1;
      while j < |batch| && j - i < NUM_FLUSH_BLOCKS && batch[j] in ents
            && ents[batch[j]].key == Key(ents[batch[i]].key.dev, ents[batch[i]].key.bnum + j - i)
            && MayWrite(ents[batch[j]])
        invariant i < j <= |batch| && j - i <= NUM_FLUSH_BLOCKS
        invariant forall m :: i <= m < j ==> batch[m] in ents && MayWrite(ents[batch[m]])
        invariant forall m :: i <= m < j ==>
          ents[batch[m]].key == Key(ents[batch[i]].key.dev, ents[batch[i]].key.bnum + m - i)
      {
        j := j + 1;
      }
    }

    /** Once through the batch, one run after the other. */
    method Pass(batch: seq<Ptr>, ghost ents0: map<Ptr, Ent>, ghost disk0: map<Key, Block>)
      requires Sane(ents, ht, disk, log, nextSnap, lawful, touched, {}) && Distinct(batch)
      requires Flushing(ents0, disk0, ht, batch, ents, disk)
      modifies `ents, `disk, `log
      ensures Sane(ents, ht, disk, log, nextSnap, lawful, touched, {})
      ensures Flushing(ents0, disk0, ht, batch, ents, disk)
      ensures forall p :: p in ents && p in batch ==> p in old(ents) && Passed(old(ents)[p], ents[p])
    {
      hide Journaled, Kept, Flushing, Settled, WrittenOnce, Passed, Indexed;
      ghost var was := ents;
      var i := 0;
      while i < |batch|
        invariant i <= |batch| && Sane(ents, ht, disk, log, nextSnap, lawful, touched, {})
        invariant Flushing(ents0, disk0, ht, batch, ents, disk) && ents.Keys == was.Keys
        invariant forall m :: 0 <= m < i && batch[m] in ents ==> Passed(was[batch[m]], ents[batch[m]])
        invariant forall m :: i <= m < |batch| && batch[m] in ents ==> ents[batch[m]] == was[batch[m]]
      {
        i := PassRun(batch, i, ents0, disk0, was);
      }
    }

    method PassRun(batch: seq<Ptr>, i: nat, ghost ents0: map<Ptr, Ent>, ghost disk0: map<Key, Block>,
                   ghost was: map<Ptr, Ent>) returns (j: nat)
      requires Sane(ents, ht, disk, log, nextSnap, lawful, touched, {}) && Distinct(batch) && i < |batch|
      requires Flushing(ents0, disk0, ht, batch, ents, disk) && ents.Keys == was.Keys
      requires forall m :: i <= m < |batch| && batch[m] in ents ==> ents[batch[m]] == was[batch[m]]
      modifies `ents, `disk, `log
      ensures Sane(ents, ht, disk, log, nextSnap, lawful, touched, {}) && i < j <= |batch|
      ensures Flushing(ents0, disk0, ht, batch, ents, disk) && ents.Keys == was.Keys
      ensures forall m :: 0 <= m < |batch| && !(i <= m < j) && batch[m] in ents ==> ents[batch[m]] == old(ents)[batch[m]]
      ensures forall m :: i <= m < j && batch[m] in ents ==> Passed(was[batch[m]], ents[batch[m]])
    {
      hide Journaled, Kept, Flushing, Indexed, Holds, Outgoing, SettledBlock;
      if !ToFlush(batch[i]) {
        return i + 1;
      }
      j := RunEnd(batch, i);
      ghost var ents1, disk1 := ents, disk;
      if j == i + 1 {
        FlushCacheEnt(batch[i]);
        SettleOne(ents0, disk0, ht, touched, batch, ents1, disk1, batch[i], ents, disk);
      } else {
        var part := batch[i..j];
        WriteRun(part);
        WriteSome(ents0, disk0, ht, touched, batch, ents1, disk1, part, ents, disk);
        forall m | 0 <= m < |batch| && !(i <= m < j) ensures batch[m] !in part {
        }
        forall m | i <= m < j ensures batch[m] == part[m - i] {
        }
      }
    }

    /** Flush the entries of batch, whatever their order: the second pass is for data that was behind a clone. */
    method FlushEnts(batch: seq<Ptr>)
      requires Sane(ents, ht, disk, log, nextSnap, lawful, touched, {}) && Distinct(batch)
      modifies `ents, `disk, `log
      ensures Sane(ents, ht, disk, log, nextSnap, lawful, touched, {})
      ensures AllSettled(old(ents), old(disk), ht, Elems(batch), ents, disk)
    {
      hide Journaled, Kept, Flushing, Indexed, AllSettled;
      ghost var ents0, disk0 := ents, disk;
      FlushingStarts(ents, disk, ht, batch);
      Pass(batch, ents0, disk0);
      var again := false;
      for i := 0 to |batch|
        invariant !again ==> forall m :: 0 <= m < i && batch[m] in ents ==> !(ents[batch[m]].dirty && ents[batch[m]].lock == 0)
      {
        if batch[i] in ents && ents[batch[i]].dirty && ents[batch[i]].lock == 0 {
          again := true;
          break;
        }
      }
      if again {
        Pass(batch, ents0, disk0);
      }
      FlushingDone(ents0, disk0, ht, batch, ents, disk);
    }

    // ---- flushing a device

    /** The entries of the list that are for dev. */
    ghost function OnDevice(list: seq<Ptr>, dev: int): set<Ptr>
      reads `ents
    {
      set p | p in list && p in ents && ents[p].key.dev == dev
    }

    /** do_flush: the batch, on top of those flushed before. */
    method DoFlush(batch: seq<Ptr>, ghost ents0: map<Ptr, Ent>, ghost disk0: map<Key, Block>, ghost before: set<Ptr>)
      requires Sane(ents, ht, disk, log, nextSnap, lawful, touched, {}) && Distinct(batch)
      requires AllSettled(ents0, disk0, ht, before, ents, disk)
      modifies `ents, `disk, `log
      ensures Sane(ents, ht, disk, log, nextSnap, lawful, touched, {})
      ensures AllSettled(ents0, disk0, ht, before + Elems(batch), ents, disk)
    {
      hide Sane, AllSettled;
      ghost var ents1, disk1 := ents, disk;
      FlushEnts(batch);
      SettledBoth(ents0, disk0, ht, before, ents1, disk1, Elems(batch), ents, disk);
    }

    /** One of the two loops of flush_device: collect what there is to flush of dev, and start over from the LRU end
        whenever a batch is full. */
    method FlushList(dev: int, list: seq<Ptr>)
      requires Sane(ents, ht, disk, log, nextSnap, lawful, touched, {}) && Distinct(list) && forall p :: p in list ==> p in ents
      modifies `ents, `disk, `log
      ensures Sane(ents, ht, disk, log, nextSnap, lawful, touched, {})
      ensures AllSettled(old(ents), old(disk), ht, old(OnDevice(list, dev)), ents, disk)
    {
      hide Sane, AllSettled, Settled;
      ghost var ents0, disk0, target := ents, disk, OnDevice(list, dev);
      ghost var flushed: set<Ptr> := {};
      SettledNone(ents, disk, ht, log, nextSnap, lawful, touched);
      var i, cur := 0, [];
      while i < |list|
        invariant i <= |list| && |cur| < NUM_FLUSH_BLOCKS
        invariant Sane(ents, ht, disk, log, nextSnap, lawful, touched, {}) && AllSettled(ents0, disk0, ht, flushed, ents, disk)
        invariant ents.Keys == ents0.Keys && forall p :: p in ents ==> ents[p].key == ents0[p].key
        invariant flushed <= target && Distinct(cur)
        invariant forall p :: p in cur ==> p in list[..i] && p in target && ToFlush(p)
        invariant forall p :: p in flushed ==> !ToFlush(p)
        invariant forall p :: p in ents && p !in flushed ==> ents[p] == ents0[p]
        invariant forall m :: 0 <= m < i && ents[list[m]].key.dev == dev && ToFlush(list[m]) ==> list[m] in cur
        decreases target - flushed, |list| - i
      {
        var p := list[i];
        if ents[p].key.dev == dev && ToFlush(p) {
          assert p !in list[..i];
          cur := cur + [p];
          if |cur| >= NUM_FLUSH_BLOCKS {
            assert cur[0] in cur && cur[0] !in flushed;
            DoFlush(cur, ents0, disk0, flushed);
            flushed := flushed + Elems(cur);
            SettledClean(ents0, disk0, ht, flushed, ents, disk);
            i, cur := 0, [];
            continue;
          }
        }
        i := i + 1;
      }
      assert forall p :: p in target && p !in cur ==> !ToFlush(p);
      if |cur| != 0 {
        DoFlush(cur, ents0, disk0, flushed);
        flushed := flushed + Elems(cur);
        SettledClean(ents0, disk0, ht, flushed, ents, disk);
      }
      SettledAlready(ents0, disk0, ht, flushed, ents, disk, target);
    }

    // ---- the whole cache

    /** The invariant while the entries in held are on no list and the blocks in reserved are promised to some of
        them. */
    ghost predicate Mid(reserved: map<Key, Ptr>, held: set<Ptr>)
      reads this
    {
      && Sane(ents, ht, disk, log, nextSnap, lawful, touched, {})
      && Listed(ents, normal, locked, held, nextPtr)
      && Tabled(ents, ht, disk, reserved)
      && curBlocks == |normal| + |locked| + |held| <= maxBlocks
      && (forall k :: k in touched ==> Holds(ents, ht, k))
      && (forall k :: k in disk <==> k.dev in sizes && 0 <= k.bnum < sizes[k.dev])
      && (forall d :: d in sizes ==> d >= 0)
    }

    /** What holds whenever the cache is at rest. */
    ghost predicate Valid()
      reads this
    {
      Mid(map[], {})
    }

    /** The plain array of blocks the cache stands for. */
    ghost function View(k: Key): Block
      requires k in disk
      reads `ents, `ht, `disk
    {
      Seen(ents, ht, disk, k)
    }

    ghost function Now(): Snap
      reads `ents, `ht, `disk, `locked
    {
      Snap(ents, ht, disk, |locked|)
    }

    ghost function Pins(k: Key): nat
      reads `ents, `ht
    {
      if Holds(ents, ht, k) then ents[ht[k]].lock else 0
    }

    constructor (maxBlocks: nat, sizes: map<int, nat>, disk: map<Key, Block>)
      requires forall k :: k in disk <==> k.dev in sizes && 0 <= k.bnum < sizes[k.dev]
      requires forall d :: d in sizes ==> d >= 0
      ensures Valid() && this.maxBlocks == maxBlocks && this.sizes == sizes && this.disk == disk
      ensures forall k :: k in disk ==> View(k) == disk[k] && Pins(k) == 0
    {
      this.maxBlocks, this.sizes, this.disk := maxBlocks, sizes, disk;
      ents, ht, normal, locked, curBlocks, nextPtr, nextSnap := map[], map[], [], [], 0, 0, 0;
      log, lawful, touched := [], true, {};
    }

    /** Flushing keeps everything but dirty flags, clones and the device. */
    lemma FlushKeeps(ents0: map<Ptr, Ent>, disk0: map<Key, Block>, batch: set<Ptr>, reserved: map<Key, Ptr>, held: set<Ptr>)
      requires AllSettled(ents0, disk0, ht, batch, ents, disk)
      requires Listed(ents0, normal, locked, held, nextPtr) && Tabled(ents0, ht, disk0, reserved)
      ensures Listed(ents, normal, locked, held, nextPtr) && Tabled(ents, ht, disk, reserved)
      ensures ents.Keys == ents0.Keys && forall k :: k in disk <==> k in disk0
      ensures forall k :: Holds(ents, ht, k) <==> Holds(ents0, ht, k)
      ensures forall k :: k in disk ==> View(k) == Seen(ents0, ht, disk0, k)
      ensures forall k :: Pins(k) == if Holds(ents0, ht, k) then ents0[ht[k]].lock else 0
    {
      hide AllSettled;
      FlushUnseen(ents0, disk0, ht, batch, ents, disk);
      SettledClean(ents0, disk0, ht, batch, ents, disk);
    }

    /** After flush_device every block of the device that is not locked is on the device as clients see it. */
    method FlushDevice(dev: int)
      requires Valid()
      modifies `ents, `disk, `log
      ensures Valid()
      ensures forall k :: k in disk ==> View(k) == old(View(k))
      ensures forall k :: Pins(k) == old(Pins(k))
      ensures forall k :: k in disk && k.dev == dev && Pins(k) == 0 ==> disk[k] == View(k)
      ensures forall k :: k in disk && k.dev == dev && Pins(k) > 0 ==>
        disk[k] == (if old(ents[ht[k]]).clone.Some? then old(ents[ht[k]]).clone.value.data else old(disk[k]))
      ensures forall p :: p in ents && ents[p].key.dev == dev ==> ents[p].clone == None && (ents[p].dirty ==> ents[p].lock > 0)
      ensures forall k :: k in disk && k.dev != dev ==> disk[k] == old(disk[k])
    {
      hide AllSettled, Kept, Journaled, Seen, Tabled, Listed;
      ghost var ents0, disk0, all := ents, disk, OnDevice(normal, dev) + OnDevice(locked, dev);
      AllListed(dev);
      FlushBoth(dev);
      FlushKeeps(ents0, disk0, all, map[], {});
      DeviceSettled(ents0, disk0, ht, all, dev, ents, disk, touched);
    }

    lemma AllListed(dev: int)
      requires Listed(ents, normal, locked, {}, nextPtr)
      ensures forall p :: p in OnDevice(normal, dev) + OnDevice(locked, dev) <==> p in ents && ents[p].key.dev == dev
      ensures forall p :: p in normal + locked ==> p in ents
      ensures Distinct(normal) && Distinct(locked)
    {
    }

    method FlushBoth(dev: int)
      requires Sane(ents, ht, disk, log, nextSnap, lawful, touched, {}) && Distinct(normal) && Distinct(locked)
      requires forall p :: p in normal + locked ==> p in ents
      modifies `ents, `disk, `log
      ensures Sane(ents, ht, disk, log, nextSnap, lawful, touched, {})
      ensures AllSettled(old(ents), old(disk), ht, old(OnDevice(normal, dev) + OnDevice(locked, dev)), ents, disk)
    {
      hide AllSettled, Sane;
      ghost var ents0, disk0, first := ents, disk, OnDevice(normal, dev);
      FlushList(dev, normal);
      ghost var ents1, disk1, second := ents, disk, OnDevice(locked, dev);
      SettledClean(ents0, disk0, ht, first, ents, disk);
      FlushList(dev, locked);
      SettledBoth(ents0, disk0, ht, first, ents1, disk1, second, ents, disk);
      assert second == old(OnDevice(locked, dev));
    }

    // ---- what the clients do with a cached block

    method Replace(p: Ptr, e: Ent, ghost touched': set<Key>)
      requires Valid() && p in ents && e.key == ents[p].key && e.clone == ents[p].clone
      requires forall k :: k != e.key ==> (k in touched' <==> k in touched)
      requires Backed(e, disk[e.key], e.key in touched') && (e.key in touched' ==> e.lock > 0)
      modifies `ents, `normal, `locked, `touched
      ensures Valid() && ents == old(ents)[p := e] && touched == touched'
      ensures |locked| == old(|locked|) - (if old(ents[p]).lock > 0 then 1 else 0) + (if e.lock > 0 then 1 else 0)
    {
      hide Kept, Journaled, Backed, Listed, Tabled, Distinct, Without, Holds, Sane;
      ChangeEnt(ents, ht, disk, log, nextSnap, lawful, touched, p, e, touched');
      TabledStill(ents, ht, disk, map[], p, e);
      ToHead(p, e);
      ents, touched := ents[p := e], touched';
    }

    /** delete_from_list and add_to_head, to the list the entry belongs on as e. */
    method ToHead(p: Ptr, e: Ent)
      requires Listed(ents, normal, locked, {}, nextPtr) && p in ents
      modifies `normal, `locked
      ensures Listed(ents[p := e], normal, locked, {}, nextPtr) && |normal| + |locked| == old(|normal| + |locked|)
      ensures |locked| == old(|locked|) - (if ents[p].lock > 0 then 1 else 0) + (if e.lock > 0 then 1 else 0)
    {
      hide Listed, Distinct, Without;
      ghost var normal', locked' := Relist(ents, normal, locked, {}, nextPtr, p, e);
      NotOnBoth(p);
      if ents[p].lock > 0 {
        locked := Without(locked, p);
      } else {
        normal := Without(normal, p);
      }
      if e.lock > 0 {
        locked := locked + [p];
      } else {
        normal := normal + [p];
      }
    }

    lemma NotOnBoth(p: Ptr)
      requires Listed(ents, normal, locked, {}, nextPtr) && p in ents
      ensures if ents[p].lock > 0 then Without(normal, p) == normal else Without(locked, p) == locked
    {
      WithoutElems(normal, p);
      WithoutElems(locked, p);
    }

    /** Entry p becomes e, staying where it is. */
    method Update(p: Ptr, e: Ent, ghost touched': set<Key>)
      requires Valid() && p in ents && e.key == ents[p].key && e.clone == ents[p].clone && e.lock == ents[p].lock
      requires forall k :: k != e.key ==> (k in touched' <==> k in touched)
      requires Backed(e, disk[e.key], e.key in touched') && (e.key in touched' ==> e.lock > 0)
      modifies `ents, `touched
      ensures Valid() && ents == old(ents)[p := e] && touched == touched'
    {
      hide Kept, Journaled, Backed, Tabled, Distinct, Holds, Sane;
      ChangeEnt(ents, ht, disk, log, nextSnap, lawful, touched, p, e, touched');
      TabledStill(ents, ht, disk, map[], p, e);
      ents, touched := ents[p := e], touched';
    }

    /** A client changes a block it has pinned, through the pointer get_block gave it. */
    method Change(k: Key, data: Block)
      requires Valid() && Pins(k) > 0
      modifies `ents, `touched
      ensures Valid() && touched == old(touched) + {k}
      ensures forall j :: j in disk ==> View(j) == if j == k then data else old(View(j))
      ensures forall j :: Pins(j) == old(Pins(j))
    {
      hide Kept, Journaled, Listed;
      Update(ht[k], ents[ht[k]].(data := data), touched + {k});
    }

    /** Will the device get the bytes of block k, or has it got them, when its last pin goes? */
    ghost predicate Releasable(k: Key)
      requires Mid(map[], {})
      reads this
    {
      Holds(ents, ht, k) && k in disk && ents[ht[k]].lock == 1 ==> Backed(ents[ht[k]], disk[k], false)
    }

    /** release_block.  A client that has changed the block must have marked it dirty before it drops the last pin. */
    method ReleaseBlock(k: Key)
      requires Valid() && Pins(k) > 0
      modifies `ents, `normal, `locked, `touched
      ensures Valid() <==> old(Releasable(k))
      ensures touched == if old(Pins(k)) == 1 then old(touched) - {k} else old(touched)
      ensures forall j :: j in disk ==> View(j) == old(View(j))
      ensures forall j :: Pins(j) == old(Pins(j)) - (if j == k then 1 else 0)
    {
      hide Kept, Journaled, Listed;
      var p := ht[k];
      if ents[p].lock == 1 {
        ReleaseSane(ents, ht, disk, log, nextSnap, lawful, touched, p, ents[p].(lock := 0));
        LastUnpin(p);
      } else {
        Unpin(p, ents[p].(lock := ents[p].lock - 1));
      }
    }

    /** The entry goes to the normal list. */
    method LastUnpin(p: Ptr)
      requires Valid() && p in ents
      modifies `ents, `normal, `locked, `touched
      ensures ents == old(ents)[p := old(ents)[p].(lock := 0)] && touched == old(touched) - {old(ents)[p].key}
      ensures Valid() <==> Sane(ents, ht, disk, log, nextSnap, lawful, touched, {})
    {
      hide Listed, Tabled, Distinct, Without, Holds, Sane;
      TabledStill(ents, ht, disk, map[], p, ents[p].(lock := 0));
      ToHead(p, ents[p].(lock := 0));
      ents, touched := ents[p := ents[p].(lock := 0)], touched - {ents[p].key};
    }

    lemma BackedHere(p: Ptr)
      requires Sane(ents, ht, disk, log, nextSnap, lawful, touched, {}) && p in ents
      ensures Backed(ents[p], disk[ents[p].key], ents[p].key in touched)
      ensures ents[p].key in touched ==> ents[p].lock > 0
    {
      hide Journaled;
    }

    /** The lock count goes down but not to zero: the entry stays where it is on the locked list. */
    method Unpin(p: Ptr, e: Ent)
      requires Valid() && p in ents && ents[p].lock > 1 && e == ents[p].(lock := ents[p].lock - 1)
      modifies `ents
      ensures Valid() && ents == old(ents)[p := e]
    {
      hide Kept, Journaled, Tabled, Holds, Sane;
      BackedHere(p);
      ChangeEnt(ents, ht, disk, log, nextSnap, lawful, touched, p, e, touched);
      TabledStill(ents, ht, disk, map[], p, e);
      ents := ents[p := e];
    }

    method MarkBlocksDirty(dev: int, bnum: int, nblocks: nat) returns (ok: bool)
      requires Valid()
      modifies `ents, `touched
      ensures Valid()
      ensures forall j :: j in disk ==> View(j) == old(View(j))
      ensures forall j :: Pins(j) == old(Pins(j))
      ensures ok <==> forall i :: bnum <= i < bnum + nblocks ==> Holds(old(ents), ht, Key(dev, i))
      ensures forall j :: j in touched <==>
        j in old(touched) && !(j.dev == dev && bnum <= j.bnum < bnum + nblocks &&
                               forall i :: bnum <= i <= j.bnum ==> Holds(old(ents), ht, Key(dev, i)))
    {
      hide Kept, Journaled, Listed, Tabled, Sane, MarkedUpTo;
      ok := true;
      var n := 0;
      MarkedNone(ents, ht, touched, dev, bnum);
      while n < nblocks
        invariant n <= nblocks && ok && Valid() && MarkedUpTo(old(ents), ents, ht, old(touched), touched, dev, bnum, n)
      {
        var k := Key(dev, bnum + n);
        if k !in ht {
          ok := false;
          break;
        }
        InTable(k);
        BackedHere(ht[k]);
        MarkedOne(old(ents), ents, ht, old(touched), touched, dev, bnum, n);
        Update(ht[k], ents[ht[k]].(dirty := true), touched - {k});
        n := n + 1;
      }
      MarkedSeen(old(ents), ents, ht, disk, old(touched), touched, dev, bnum, n);
    }

    /** The entries of n blocks from bnum on are marked dirty. */
    static ghost predicate MarkedUpTo(ents0: map<Ptr, Ent>, ents: map<Ptr, Ent>, ht: map<Key, Ptr>, touched0: set<Key>, touched: set<Key>,
                                      dev: int, bnum: int, n: nat)
    {
      && ents.Keys == ents0.Keys
      && (forall p :: p in ents ==>
            ents[p].key == ents0[p].key && ents[p].lock == ents0[p].lock && ents[p].data == ents0[p].data)
      && (forall i :: bnum <= i < bnum + n ==> Holds(ents0, ht, Key(dev, i)))
      && (forall j :: j in touched <==> j in touched0 && !(j.dev == dev && bnum <= j.bnum < bnum + n))
    }

    static lemma MarkedNone(ents: map<Ptr, Ent>, ht: map<Key, Ptr>, touched: set<Key>, dev: int, bnum: int)
      ensures MarkedUpTo(ents, ents, ht, touched, touched, dev, bnum, 0)
    {
    }

    static lemma MarkedOne(ents0: map<Ptr, Ent>, ents: map<Ptr, Ent>, ht: map<Key, Ptr>, touched0: set<Key>, touched: set<Key>,
                           dev: int, bnum: int, n: nat)
      requires MarkedUpTo(ents0, ents, ht, touched0, touched, dev, bnum, n) && Holds(ents, ht, Key(dev, bnum + n))
      ensures var k := Key(dev, bnum + n);
        MarkedUpTo(ents0, ents[ht[k] := ents[ht[k]].(dirty := true)], ht, touched0, touched - {k}, dev, bnum, n + 1)
    {
    }

    /** Nobody sees a difference. */
    static lemma MarkedSeen(ents0: map<Ptr, Ent>, ents: map<Ptr, Ent>, ht: map<Key, Ptr>, disk: map<Key, Block>,
                            touched0: set<Key>, touched: set<Key>, dev: int, bnum: int, n: nat)
      requires MarkedUpTo(ents0, ents, ht, touched0, touched, dev, bnum, n)
      ensures forall j :: Holds(ents, ht, j) <==> Holds(ents0, ht, j)
      ensures forall j :: Holds(ents0, ht, j) ==> ents[ht[j]].data == ents0[ht[j]].data && ents[ht[j]].lock == ents0[ht[j]].lock
      ensures forall i :: bnum <= i < bnum + n ==> Holds(ents0, ht, Key(dev, i))
      ensures forall j :: j in touched <==> j in touched0 && !(j.dev == dev && bnum <= j.bnum < bnum + n)
    {
    }

    lemma InTable(k: Key)
      requires Valid() && k in ht
      ensures Holds(ents, ht, k)
    {
      hide Sane, Listed;
    }

    // ---- set_blocks_info

    /** Freeze the block's data in a clone, due for the device before anything newer, and drop one pin. */
    method Snapshot(p: Ptr)
      requires Valid() && p in ents && ents[p].clone == None && ents[p].lock > 0
      modifies `ents, `normal, `locked, `touched, `log, `nextSnap
      ensures Valid() && touched == old(touched) - {old(ents[p]).key} && nextSnap == old(nextSnap) + 1
      ensures log == old(log) + [Snapped(old(ents[p]).key, old(ents[p]).data, old(nextSnap))]
      ensures ents == old(ents)[p := Snapshotted(old(ents)[p], old(nextSnap))]
    {
      hide Kept, Journaled, Indexed, Listed, Tabled, Distinct, Without, Holds, PhaseOf, Legal;
      var k := ents[p].key;
      var e := Snapshotted(ents[p], nextSnap);
      SnapKept(ents, ht, disk, touched, p, e);
      SnapInOrder(ents, ht, disk, log, nextSnap, lawful, p, e);
      TabledStill(ents, ht, disk, map[], p, e);
      if e.lock == 0 {
        ghost var normal', locked' := Relist(ents, normal, locked, {}, nextPtr, p, e);
        NotOnBoth(p);
        locked := Without(locked, p);
        normal := normal + [p];
      } else {
        StillListed(p, e);
      }
      log := log + [Snapped(k, e.data, nextSnap)];
      nextSnap := nextSnap + 1;
      ents, touched := ents[p := e], touched - {k};
    }

    lemma StillListed(p: Ptr, e: Ent)
      requires Listed(ents, normal, locked, {}, nextPtr) && p in ents && (e.lock > 0 <==> ents[p].lock > 0)
      ensures Listed(ents[p := e], normal, locked, {}, nextPtr)
    {
    }

    /** The first loop of set_blocks_info: clones that are still pending go to the device.  list has the entries of
        the blocks. */
    method FlushClones(dev: int, blocks: seq<int>, ghost list: seq<Ptr>)
      requires Sane(ents, ht, disk, log, nextSnap, lawful, touched, {}) && Distinct(list)
      requires |list| == |blocks| &&
               forall i :: 0 <= i < |list| ==> Key(dev, blocks[i]) in ht && list[i] == ht[Key(dev, blocks[i])] && list[i] in ents
      requires forall p :: p in list ==> ents[p].lock > 0
      modifies `ents, `disk, `log
      ensures Sane(ents, ht, disk, log, nextSnap, lawful, touched, {})
      ensures AllSettled(old(ents), old(disk), ht, Elems(list), ents, disk)
    {
      ghost var ents0, disk0 := ents, disk;
      hide Sane, AllSettled, Settled;
      SettledNone(ents, disk, ht, log, nextSnap, lawful, touched);
      ghost var flushed: set<Ptr> := {};
      var i, cur := 0, [];
      while i < |blocks|
        invariant i <= |blocks| && |cur| < NUM_FLUSH_BLOCKS && Distinct(cur)
        invariant Sane(ents, ht, disk, log, nextSnap, lawful, touched, {}) && AllSettled(ents0, disk0, ht, flushed, ents, disk)
        invariant ents.Keys == ents0.Keys && forall p :: p in ents && p !in flushed ==> ents[p] == ents0[p]
        invariant forall p :: p in cur ==> p in list[..i]
        invariant forall p :: p in flushed ==> p in list[..i]
        invariant forall m :: 0 <= m < i ==> list[m] in flushed || list[m] in cur || ents0[list[m]].clone == None
      {
        var p := ht[Key(dev, blocks[i])];
        assert p == list[i] && p !in list[..i];
        i := i + 1;
        if ents[p].clone.Some? {
          cur := cur + [p];
          if |cur| >= NUM_FLUSH_BLOCKS {
            DoFlush(cur, ents0, disk0, flushed);
            flushed := flushed + Elems(cur);
            SettledClean(ents0, disk0, ht, flushed, ents, disk);
            cur := [];
          }
        }
      }
      if |cur| != 0 {
        DoFlush(cur, ents0, disk0, flushed);
        flushed := flushed + Elems(cur);
      }
      SettledClean(ents0, disk0, ht, flushed, ents, disk);
      SettledAlready(ents0, disk0, ht, flushed, ents, disk, Elems(list));
    }

    /** The second loop: each block gets its clone. */
    method SnapshotAll(dev: int, blocks: seq<int>, ghost list: seq<Ptr>)
      requires Valid() && AreFor(ents, list, dev, blocks)
      requires Cloneless(ents, list)
      requires Lead(ht, dev, blocks, list)
      modifies `ents, `normal, `locked, `touched, `log, `nextSnap
      ensures Valid() && AllSnapped(old(ents), list, old(nextSnap), ents)
      ensures forall k :: k in touched <==> k in old(touched) && !(k.dev == dev && k.bnum in blocks)
    {
      hide Mid, Snapshotted, Elems;
      for n := 0 to |blocks|
        invariant Valid() && ents.Keys == old(ents).Keys && nextSnap == old(nextSnap) + n
        invariant forall i :: 0 <= i < n ==> ents[list[i]] == Snapshotted(old(ents)[list[i]], old(nextSnap) + i)
        invariant forall p :: p in ents && p !in list[..n] ==> ents[p] == old(ents)[p]
        invariant forall k :: k in touched <==> k in old(touched) && !(k.dev == dev && k.bnum in blocks[..n])
      {
        var p := ht[Key(dev, blocks[n])];
        assert p == list[n] && p !in list[..n];
        Snapshot(p);
        assert blocks[..n + 1] == blocks[..n] + [blocks[n]];
      }
      assert blocks[..|blocks|] == blocks && list[..|list|] == list;
    }

    /** Freeze the blocks: what they hold now reaches the device, and is reported, before anything newer does. */
    method SetBlocksInfo(dev: int, blocks: seq<int>)
      requires Valid() && Ready(ents, ht, dev, blocks)
      requires forall b :: b in blocks ==> Key(dev, b) in ht
      modifies `ents, `disk, `log, `normal, `locked, `touched, `nextSnap
      ensures Valid()
      ensures forall k :: k in disk ==> View(k) == old(View(k))
      ensures forall k :: Pins(k) == old(Pins(k)) - (if k.dev == dev && k.bnum in blocks then 1 else 0)
      ensures Frozen(old(ents), old(disk), EntsOf(ht, dev, blocks), old(nextSnap), ents, disk)
      ensures forall k :: k in touched <==> k in old(touched) && !(k.dev == dev && k.bnum in blocks)
    {
      ghost var list := EntsOf(ht, dev, blocks);
      ghost var ents0, disk0 := ents, disk;
      ReadyEnts(ents, ht, dev, blocks);
      AtRest();
      hide Mid, AllSettled, Ready, Frozen, AreFor, Indexed, Seen;
      FreezeBlocks(dev, blocks, list);
    }

    method FreezeBlocks(dev: int, blocks: seq<int>, ghost list: seq<Ptr>)
      requires Valid() && AreFor(ents, list, dev, blocks)
      requires Lead(ht, dev, blocks, list)
      modifies `ents, `disk, `log, `normal, `locked, `touched, `nextSnap
      ensures Valid() && Frozen(old(ents), old(disk), list, old(nextSnap), ents, disk)
      ensures OnlyUnpinned(old(ents), old(disk), ht, dev, blocks, ents, disk)
      ensures forall k :: k in touched <==> k in old(touched) && !(k.dev == dev && k.bnum in blocks)
    {
      hide *;
      ghost var ents0, disk0, snap0 := ents, disk, nextSnap;
      AtRest();
      FlushPending(dev, blocks, list);
      ghost var ents1 := ents;
      ForSettled(ents0, disk0, ht, dev, blocks, list, ents, disk);
      SnapshotAll(dev, blocks, list);
      FreezeUnseen(ents0, disk0, ht, dev, blocks, list, snap0, ents1, ents, disk);
    }

    lemma AtRest()
      requires Valid()
      ensures Indexed(ents, ht, disk) && forall k :: k in ht ==> Holds(ents, ht, k)
    {
      hide Kept, Journaled, Listed, Indexed, Holds;
    }

    method FlushPending(dev: int, blocks: seq<int>, ghost list: seq<Ptr>)
      requires Valid() && AreFor(ents, list, dev, blocks)
      requires Lead(ht, dev, blocks, list)
      modifies `ents, `disk, `log
      ensures Valid() && AllSettled(old(ents), old(disk), ht, Elems(list), ents, disk)
      ensures disk.Keys == old(disk).Keys && ents.Keys == old(ents).Keys
    {
      hide Sane, Listed, Tabled, AllSettled, Seen, Holds;
      ghost var ents0, disk0 := ents, disk;
      FlushClones(dev, blocks, list);
      FlushKeeps(ents0, disk0, Elems(list), map[], {});
      SettledClean(ents0, disk0, ht, Elems(list), ents, disk);
    }

    // ---- reusing entries

    /** hash_insert of a block for an entry that is about to be reused. */
    method Reserve(p: Ptr, k: Key, ghost reserved: map<Key, Ptr>, ghost held: set<Ptr>)
      requires Mid(reserved, held) && k !in ht && k in disk && forall l :: l in reserved ==> reserved[l] != p
      modifies `ht
      ensures Mid(reserved[k := p], held) && ht == old(ht)[k := p]
      ensures forall l :: Holds(ents, ht, l) == Holds(ents, old(ht), l)
    {
      hide Sane, Listed, Tabled, Holds;
      ReserveSane(ents, ht, disk, log, nextSnap, lawful, touched, reserved, p, k);
      ht := ht[k := p];
    }

    /** delete_from_list of an entry that is about to be reused or flushed. */
    method Take(p: Ptr, ghost reserved: map<Key, Ptr>, ghost held: set<Ptr>)
      requires Mid(reserved, held) && p in normal
      modifies `normal
      ensures Mid(reserved, held + {p}) && forall q :: q in normal <==> q in old(normal) && q != p
    {
      hide Sane, Tabled, Holds, Without;
      WithoutElems(normal, p);
      normal := Without(normal, p);
    }

    /** The block an entry held leaves the cache. */
    method Drop(p: Ptr, ghost reserved: map<Key, Ptr>, ghost held: set<Ptr>)
      requires Mid(reserved, held) && p in held && p in ents && Clean(p)
      modifies `ents, `ht
      ensures Mid(reserved, held) && ents == old(ents) - {p} && Same(old(Now()), Now())
    {
      hide *;
      ghost var s := Now();
      DropHere(p, reserved, held);
      ht := ht - {ents[p].key};
      ents := ents - {p};
      NowIs();
      MidIs(reserved, held);
    }

    lemma NowIs()
      ensures Now() == Snap(ents, ht, disk, |locked|)
    {
    }

    /** The parts of Mid that are not about single entries. */
    ghost predicate Sized(held: set<Ptr>)
      reads `curBlocks, `normal, `locked, `disk
    {
      && curBlocks == |normal| + |locked| + |held| <= maxBlocks
      && (forall k :: k in disk <==> k.dev in sizes && 0 <= k.bnum < sizes[k.dev])
      && (forall d :: d in sizes ==> d >= 0)
    }

    lemma MidIs(reserved: map<Key, Ptr>, held: set<Ptr>)
      requires Sane(ents, ht, disk, log, nextSnap, lawful, touched, {}) && Listed(ents, normal, locked, held, nextPtr)
      requires Tabled(ents, ht, disk, reserved) && Sized(held) && forall k :: k in touched ==> Holds(ents, ht, k)
      ensures Mid(reserved, held)
    {
      hide Sane, Listed, Tabled, Holds;
    }

    lemma DropHere(p: Ptr, reserved: map<Key, Ptr>, held: set<Ptr>)
      requires Mid(reserved, held) && p in held && p in ents && Clean(p)
      ensures Sane(ents - {p}, ht - {ents[p].key}, disk, log, nextSnap, lawful, touched, {})
      ensures Listed(ents - {p}, normal, locked, held, nextPtr) && Tabled(ents - {p}, ht - {ents[p].key}, disk, reserved)
      ensures Sized(held) && forall k :: k in touched ==> Holds(ents - {p}, ht - {ents[p].key}, k)
      ensures Same(Now(), Snap(ents - {p}, ht - {ents[p].key}, disk, |locked|)) && Now() == Snap(ents, ht, disk, |locked|)
    {
      hide Sane, Tabled, Same;
      DropSane(ents, ht, disk, log, nextSnap, lawful, touched, reserved, p);
      DropSame(Now(), p);
    }

    /** An entry takes the block promised to it and goes to the head of its list. */
    method Adopt(p: Ptr, e: Ent, ghost reserved: map<Key, Ptr>, ghost held: set<Ptr>)
      requires Mid(reserved, held) && p in held && p !in ents && e.key in reserved && reserved[e.key] == p
      requires e.clone == None && (e.dirty || (e.key in disk && e.data == disk[e.key]))
      modifies `ents, `normal, `locked
      ensures Mid(reserved - {e.key}, held - {p}) && ents == old(ents)[p := e]
      ensures Brought(old(Now()), Now(), e.key, e.data, e.lock)
    {
      hide *;
      AdoptHere(p, e, reserved, held);
      ents := ents[p := e];
      if e.lock > 0 {
        locked := locked + [p];
      } else {
        normal := normal + [p];
      }
      NowIs();
      OneLess(p, held);
      MidIs(reserved - {e.key}, held - {p});
    }

    lemma OneLess(p: Ptr, held: set<Ptr>)
      requires p in held && curBlocks == |normal| + |locked| - 1 + |held| <= maxBlocks
      requires forall k :: k in disk <==> k.dev in sizes && 0 <= k.bnum < sizes[k.dev]
      requires forall d :: d in sizes ==> d >= 0
      ensures Sized(held - {p})
    {
    }

    lemma AdoptHere(p: Ptr, e: Ent, reserved: map<Key, Ptr>, held: set<Ptr>)
      requires Mid(reserved, held) && p in held && p !in ents && e.key in reserved && reserved[e.key] == p
      requires e.clone == None && (e.dirty || (e.key in disk && e.data == disk[e.key]))
      ensures Sane(ents[p := e], ht, disk, log, nextSnap, lawful, touched, {})
      ensures Listed(ents[p := e], if e.lock > 0 then normal else normal + [p], if e.lock > 0 then locked + [p] else locked,
                     held - {p}, nextPtr)
      ensures Tabled(ents[p := e], ht, disk, reserved - {e.key})
      ensures forall k :: k in touched ==> Holds(ents[p := e], ht, k)
      ensures curBlocks == |normal| + |locked| + |held| <= maxBlocks
      ensures forall k :: k in disk <==> k.dev in sizes && 0 <= k.bnum < sizes[k.dev]
      ensures forall d :: d in sizes ==> d >= 0
      ensures Now() == Snap(ents, ht, disk, |locked|)
      ensures Brought(Now(), Snap(ents[p := e], ht, disk, if e.lock > 0 then |locked| + 1 else |locked|), e.key, e.data, e.lock)
    {
      Promise(reserved, held, e.key);
      hide Sane, Tabled, Listed, Brought;
      AdoptSane(ents, ht, disk, log, nextSnap, lawful, touched, reserved, p, e);
      AdoptListed(ents, normal, locked, held, nextPtr, p, e);
      AdoptBrings(Now(), p, e, if e.lock > 0 then |locked| + 1 else |locked|);
    }

    lemma Promise(reserved: map<Key, Ptr>, held: set<Ptr>, k: Key)
      requires Mid(reserved, held) && k in reserved
      ensures !Holds(ents, ht, k) && k !in touched && k in disk
    {
      hide Sane, Listed;
    }

    /** An entry that was only flushed goes back, to the LRU end. */
    method PutBack(p: Ptr, ghost reserved: map<Key, Ptr>, ghost held: set<Ptr>)
      requires Mid(reserved, held) && p in held && p in ents
      modifies `normal
      ensures Mid(reserved, held - {p})
    {
      hide Sane, Tabled, Distinct, Holds;
      DistinctJoin(p, normal);
      normal := [p] + normal;
    }

    // ---- choosing entries to reuse

    /** A new entry, as long as the cache is not full. */
    method NewCacheEnt(ghost held: set<Ptr>) returns (p: Ptr)
      requires Mid(map[], held) && curBlocks < maxBlocks
      modifies `curBlocks, `nextPtr
      ensures Mid(map[], held + {p}) && p !in ents && p !in held && p !in normal && p !in locked
      ensures curBlocks == old(curBlocks) + 1
    {
      hide Sane, Tabled, Distinct;
      p := nextPtr;
      nextPtr := nextPtr + 1;
      curBlocks := curBlocks + 1;
    }

    predicate Clean(p: Ptr)
      reads `ents
    {
      p in ents ==> !ents[p].dirty && ents[p].clone == None
    }

    method AddNew(needed: nat) returns (got: seq<Ptr>)
      requires Valid()
      modifies `curBlocks, `nextPtr
      ensures Mid(map[], Elems(got)) && Distinct(got) && |got| <= needed
      ensures |got| < needed ==> curBlocks == maxBlocks
      ensures forall p :: p in got ==> p !in ents
    {
      hide Sane, Tabled;
      got := [];
      assert Elems(got) == {};
      while curBlocks < maxBlocks && |got| < needed
        invariant Mid(map[], Elems(got)) && Distinct(got) && |got| <= needed
        invariant forall p :: p in got ==> p !in ents
        decreases needed - |got|
      {
        var p := NewCacheEnt(Elems(got));
        assert Elems(got + [p]) == Elems(got) + {p};
        got := got + [p];
      }
    }

    /** get_ents: new entries while there is room, then entries from the LRU end of the normal list; when the last
        one has to be flushed, more of them, so that they are flushed together. */
    method GetEnts(needed: nat) returns (got: seq<Ptr>, added: seq<Ptr>, used: nat)
      requires Valid() && 0 < needed <= NUM_FLUSH_BLOCKS && |locked| + needed <= maxBlocks
      modifies `curBlocks, `nextPtr
      ensures Mid(map[], Elems(added)) && Distinct(added) && forall p :: p in added ==> p !in ents
      ensures used <= |normal| && got == added + normal[..used] && |added| <= needed
      ensures needed <= |got| <= NUM_FLUSH_BLOCKS
      ensures used > 0 ==> curBlocks == maxBlocks
      ensures |got| > needed ==> got[needed - 1] in ents && !Clean(got[needed - 1])
    {
      added := AddNew(needed);
      EnoughListed(added, needed);
      hide Mid;
      got, used := Pluck(added, needed);
    }

    method Pluck(added: seq<Ptr>, needed: nat) returns (got: seq<Ptr>, used: nat)
      requires 0 < needed <= NUM_FLUSH_BLOCKS && |added| <= needed <= |added| + |normal|
      requires forall p :: p in added ==> p !in ents
      ensures used <= |normal| && got == added + normal[..used]
      ensures needed <= |got| <= NUM_FLUSH_BLOCKS
      ensures used > 0 ==> |added| < needed
      ensures |got| > needed ==> got[needed - 1] in ents && !Clean(got[needed - 1])
    {
      got, used := added, 0;
      while |got| < needed
        invariant |got| <= needed && used <= |normal| && got == added + normal[..used]
        invariant used > 0 ==> |added| < needed
        decreases needed - |got|
      {
        got := got + [normal[used]];
        used := used + 1;
      }
      var last := got[needed - 1];
      if |got| < NUM_FLUSH_BLOCKS && last in ents && !Clean(last) {
        while used < |normal| && |got| < NUM_FLUSH_BLOCKS
          invariant needed <= |got| <= NUM_FLUSH_BLOCKS && used <= |normal|
          invariant got == added + normal[..used] && got[needed - 1] == last
          invariant used > 0 ==> |added| < needed
        {
          got := got + [normal[used]];
          used := used + 1;
        }
      }
    }

    lemma EnoughListed(added: seq<Ptr>, needed: nat)
      requires Mid(map[], Elems(added)) && Distinct(added) && |locked| + needed <= maxBlocks
      requires |added| < needed ==> curBlocks == maxBlocks
      ensures |added| < needed ==> needed - |added| <= |normal|
    {
      hide Sane, Listed, Tabled;
      DistinctCount(added);
    }

    /** cache_ent_cmp; a new entry has device and block number -1. */
    function Compare(p: Ptr, q: Ptr): int
      reads `ents
    {
      var a := if p in ents then ents[p].key else Key(-1, -1);
      var b := if q in ents then ents[q].key else Key(-1, -1);
      if a.dev == b.dev then ToInt32(a.bnum - b.bnum) else a.dev - b.dev
    }

    /** Entries without a block come first. */
    static ghost predicate NewFirst(b: seq<Ptr>, used: set<Ptr>) {
      forall i, j :: 0 <= i < j < |b| && b[j] !in used ==> b[i] !in used
    }

    /** qsort by cache_ent_cmp.  Block numbers far apart may compare the wrong way round; all that is used of the
        order is that new entries come first. */
    method SortEnts(a: seq<Ptr>) returns (b: seq<Ptr>)
      requires Distinct(a) && forall p :: p in ents ==> ents[p].key.dev >= 0
      ensures Distinct(b) && |b| == |a| && NewFirst(b, ents.Keys) && forall p :: p in b <==> p in a
    {
      b := [];
      for i := 0 to |a|
        invariant Distinct(b) && |b| == i && NewFirst(b, ents.Keys)
        invariant forall p :: p in b <==> p in a[..i]
      {
        var j := |b|;
        while j > 0 && Compare(b[j - 1], a[i]) > 0
          invariant 0 <= j <= |b|
          invariant a[i] in ents ==> forall m :: j <= m < |b| ==> b[m] in ents
        {
          j := j - 1;
        }
        InsertKeeps(b, j, a[i]);
        b := b[..j] + [a[i]] + b[j..];
        assert a[..i + 1] == a[..i] + [a[i]];
      }
      assert a[..|a|] == a;
    }

    lemma InsertKeeps(b: seq<Ptr>, j: nat, p: Ptr)
      requires Distinct(b) && j <= |b| && p !in b && NewFirst(b, ents.Keys)
      requires p in ents ==> forall m :: j <= m < |b| ==> b[m] in ents
      requires p !in ents && j > 0 ==> b[j - 1] !in ents
      ensures var c := b[..j] + [p] + b[j..]; Distinct(c) && NewFirst(c, ents.Keys) && forall q :: q in c <==> q in b || q == p
    {
      Between(b, j, p);
    }

    lemma Between(b: seq<Ptr>, j: nat, p: Ptr)
      requires Distinct(b) && j <= |b| && p !in b
      ensures var c := b[..j] + [p] + b[j..]; Distinct(c) && forall q :: q in c <==> q in b || q == p
    {
      assert b == b[..j] + b[j..];
    }

    /** The blocks bnum+lo.. up to bnum+a and bnum+b.. up to bnum+c, each promised to the entry at its place. */
    static ghost predicate Promised(reserved: map<Key, Ptr>, order: seq<Ptr>, dev: int, bnum: int,
                                    lo: nat, a: nat, b: nat, c: nat)
    {
      && (forall k :: k in reserved <==>
            k.dev == dev && (bnum + lo <= k.bnum < bnum + a || bnum + b <= k.bnum < bnum + c))
      && (forall k :: k in reserved ==> 0 <= k.bnum - bnum < |order| && reserved[k] == order[k.bnum - bnum])
    }

    method ClaimBlock(order: seq<Ptr>, cur: nat, needed: nat, dev: int, bnum: int,
                      ghost reserved: map<Key, Ptr>, ghost held: set<Ptr>) returns (ghost reserved': map<Key, Ptr>)
      requires Mid(reserved, held) && Distinct(order) && cur < needed <= |order|
      requires Promised(reserved, order, dev, bnum, 0, cur, needed, needed)
      requires Key(dev, bnum + cur) in disk && Key(dev, bnum + cur) !in ht
      modifies `ht
      ensures Mid(reserved', held) && Promised(reserved', order, dev, bnum, 0, cur + 1, needed, needed)
      ensures forall k :: k in ht <==> k in old(ht) || k == Key(dev, bnum + cur)
      ensures forall k :: k in reserved' <==> k in reserved || k == Key(dev, bnum + cur)
      ensures SameIndex(ents, old(ht), ht)
    {
      hide Mid, Holds;
      Reserve(order[cur], Key(dev, bnum + cur), reserved, held);
      reserved' := reserved[Key(dev, bnum + cur) := order[cur]];
      assert forall l :: Holds(ents, old(ht), l) ==> l in old(ht) by { HeldHere(old(ht)); }
    }

    lemma HeldHere(ht0: map<Key, Ptr>)
      ensures forall l :: Holds(ents, ht0, l) ==> l in ht0
    {
    }

    /** The entries up to cur are claimed. */
    ghost predicate Claiming(order: seq<Ptr>, cur: nat, needed: nat, dev: int, bnum: int, ht0: map<Key, Ptr>,
                             added: set<Ptr>, reserved: map<Key, Ptr>, held: set<Ptr>)
      requires cur <= |order|
      reads this
    {
      && Mid(reserved, held) && Distinct(order) && needed <= |order|
      && (forall p :: p in held <==> p in added || p in order[..cur])
      && Promised(reserved, order, dev, bnum, 0, if cur < needed then cur else needed, needed, needed)
      && (forall m :: cur <= m < |order| ==> order[m] in normal || order[m] in added)
      && (forall p :: p in order ==> p in ents || p in added)
      && (forall i :: bnum + cur <= i < bnum + needed ==> Key(dev, i) in disk && Key(dev, i) !in ht)
      && SameIndex(ents, ht0, ht)
    }

    method ClaimEnt(order: seq<Ptr>, cur: nat, needed: nat, dev: int, bnum: int, ghost ht0: map<Key, Ptr>,
                    ghost added: set<Ptr>, ghost reserved: map<Key, Ptr>, ghost held: set<Ptr>)
      returns (ghost reserved': map<Key, Ptr>, ghost held': set<Ptr>)
      requires cur < |order| && Claiming(order, cur, needed, dev, bnum, ht0, added, reserved, held)
      requires forall p :: p in added ==> p !in ents
      modifies `ht, `normal
      ensures Claiming(order, cur + 1, needed, dev, bnum, ht0, added, reserved', held')
    {
      hide Mid, Holds, SameIndex, Distinct;
      var p := order[cur];
      assert p !in order[..cur] && forall m :: cur < m < |order| ==> order[m] != p by { Alone(order, cur); }
      assert order[..cur + 1] == order[..cur] + [p];
      ghost var ht1 := ht;
      reserved', held' := reserved, held;
      if cur < needed {
        reserved' := ClaimBlock(order, cur, needed, dev, bnum, reserved, held);
      }
      SameIndexThen(ents, ht0, ht1, ht);
      if p in ents {
        Take(p, reserved', held);
        held' := held + {p};
      }
    }

    lemma Alone(order: seq<Ptr>, cur: nat)
      requires Distinct(order) && cur < |order|
      ensures order[cur] !in order[..cur] && forall m :: cur < m < |order| ==> order[m] != order[cur]
    {
    }

    /** Before the cache is unlocked for I/O: the new blocks are in the hash table, so that nobody else reads them in,
        and the entries are on no list. */
    method Claim(order: seq<Ptr>, needed: nat, dev: int, bnum: int, ghost added: set<Ptr>)
      returns (numDirty: nat, ghost reserved: map<Key, Ptr>)
      requires Mid(map[], added) && Distinct(order) && needed <= |order|
      requires forall p :: p in added ==> p in order && p !in ents
      requires forall p :: p in order && p !in added ==> p in normal
      requires forall i :: bnum <= i < bnum + needed ==> Key(dev, i) in disk && Key(dev, i) !in ht
      modifies `ht, `normal
      ensures Mid(reserved, Elems(order)) && Promised(reserved, order, dev, bnum, 0, needed, needed, needed)
      ensures Same(old(Now()), Now())
      ensures numDirty == 0 ==> forall p :: p in order ==> Clean(p)
    {
      hide *;
      ghost var ht0 := ht;
      NowIs();
      numDirty, reserved := 0, map[];
      ghost var held := added;
      ClaimStarts(order, needed, dev, bnum, added);
      for cur := 0 to |order|
        invariant Claiming(order, cur, needed, dev, bnum, ht0, added, reserved, held)
        invariant numDirty == 0 ==> forall p :: p in order[..cur] ==> Clean(p)
      {
        assert order[..cur + 1] == order[..cur] + [order[cur]];
        if !Clean(order[cur]) {
          numDirty := numDirty + 1;
        }
        reserved, held := ClaimEnt(order, cur, needed, dev, bnum, ht0, added, reserved, held);
      }
      Claimed(order, needed, dev, bnum, ht0, added, reserved, held);
      NowIs();
      IndexSame(old(Now()), ht);
    }

    lemma ClaimStarts(order: seq<Ptr>, needed: nat, dev: int, bnum: int, added: set<Ptr>)
      requires Mid(map[], added) && Distinct(order) && needed <= |order|
      requires forall p :: p in order && p !in added ==> p in normal
      requires forall i :: bnum <= i < bnum + needed ==> Key(dev, i) in disk && Key(dev, i) !in ht
      ensures Claiming(order, 0, needed, dev, bnum, ht, added, map[], added)
    {
      OnlyListed(added, order);
      hide Mid;
    }

    lemma Claimed(order: seq<Ptr>, needed: nat, dev: int, bnum: int, ht0: map<Key, Ptr>,
                  added: set<Ptr>, reserved: map<Key, Ptr>, held: set<Ptr>)
      requires Claiming(order, |order|, needed, dev, bnum, ht0, added, reserved, held)
      requires forall p :: p in added ==> p in order
      ensures Mid(reserved, Elems(order)) && Promised(reserved, order, dev, bnum, 0, needed, needed, needed)
      ensures SameIndex(ents, ht0, ht) && order[..|order|] == order
    {
      hide Mid, Holds, SameIndex;
      assert order[..|order|] == order && held == Elems(order);
    }

    lemma OnlyListed(added: set<Ptr>, order: seq<Ptr>)
      requires Mid(map[], added)
      requires forall p :: p in order && p !in added ==> p in normal
      ensures forall p :: p in order && p !in ents ==> p in added
    {
      hide Sane, Tabled;
    }

    // ---- filling the entries with their new blocks

    lemma HeldSettled(ents0: map<Ptr, Ent>, disk0: map<Key, Block>, order: seq<Ptr>)
      requires Listed(ents0, normal, locked, Elems(order), nextPtr)
      requires AllSettled(ents0, disk0, ht, Elems(order), ents, disk)
      ensures forall p :: p in order ==> Clean(p)
    {
      forall p | p in order && p in ents ensures Clean(p) {
        assert p in Elems(order) && ents0[p].lock == 0;
      }
    }

    /** What is dirty among the entries to be reused reaches the device first. */
    method FlushVictims(order: seq<Ptr>, numDirty: nat, ghost reserved: map<Key, Ptr>)
      requires Mid(reserved, Elems(order)) && Distinct(order)
      requires numDirty == 0 ==> forall p :: p in order ==> Clean(p)
      modifies `ents, `disk, `log
      ensures Mid(reserved, Elems(order)) && forall p :: p in order ==> Clean(p)
      ensures ents.Keys == old(ents).Keys && Same(old(Now()), Now())
    {
      Unchanged();
      hide Sane, Listed, Tabled, AllSettled, Clean, Same;
      if numDirty > 0 {
        ghost var ents0, disk0, s := ents, disk, Now();
        FlushEnts(order);
        FlushKeeps(ents0, disk0, Elems(order), reserved, Elems(order));
        HeldSettled(ents0, disk0, order);
        FlushSame(s, Elems(order), ents, disk);
        SettledClean(ents0, disk0, ht, Elems(order), ents, disk);
      }
    }

    /** The first cur of the entries to be reused have given up their blocks, and those of them beyond curBlocks have
        the blocks read ahead. */
    ghost predicate Vacating(order: seq<Ptr>, cur: nat, now: nat, needed: nat, dev: int, bnum: int,
                             reserved: map<Key, Ptr>, held: set<Ptr>)
      reads this
    {
      && cur <= needed <= |order| && now <= needed
      && Mid(reserved, held) && Distinct(order)
      && (forall p :: p in held <==> p in order[..now] || p in order[if cur < now then now else cur..])
      && Promised(reserved, order, dev, bnum, 0, now, if cur < now then now else cur, needed)
      && (forall m :: 0 <= m < cur && m < now ==> order[m] !in ents)
      && (forall m :: cur <= m < |order| ==> Clean(order[m]))
      && (forall m :: needed <= m < |order| ==> order[m] in ents)
    }

    method VacateOne(order: seq<Ptr>, cur: nat, now: nat, needed: nat, dev: int, bnum: int,
                     ghost reserved: map<Key, Ptr>, ghost held: set<Ptr>)
      returns (ghost reserved': map<Key, Ptr>, ghost held': set<Ptr>)
      requires Vacating(order, cur, now, needed, dev, bnum, reserved, held) && cur < needed
      modifies `ents, `ht, `normal, `locked
      ensures Vacating(order, cur + 1, now, needed, dev, bnum, reserved', held') && Same(old(Now()), Now())
    {
      hide Mid, Same, Brought, Holds, Distinct;
      var p := order[cur];
      Alone(order, cur);
      reserved', held' := reserved, held;
      ghost var s := Now();
      Unchanged();
      if p in ents {
        Drop(p, reserved, held);
      }
      if cur >= now {
        var k := Key(dev, bnum + cur);
        Promise(reserved, held, k);
        ghost var s1 := Now();
        Adopt(p, Ent(k, false, disk[k], None, 0), reserved, held);
        reserved', held' := reserved - {k}, held - {p};
        BroughtSame(s1, Now(), k);
        SameThen(s, s1, Now());
      }
    }

    lemma Unchanged()
      ensures Same(Now(), Now())
    {
    }

    method Vacate(order: seq<Ptr>, now: nat, needed: nat, dev: int, bnum: int, ghost reserved: map<Key, Ptr>,
                  ghost held: set<Ptr>)
      returns (ghost reserved': map<Key, Ptr>, ghost held': set<Ptr>)
      requires Vacating(order, 0, now, needed, dev, bnum, reserved, held)
      modifies `ents, `ht, `normal, `locked
      ensures Vacating(order, needed, now, needed, dev, bnum, reserved', held') && Same(old(Now()), Now())
    {
      hide *;
      reserved', held' := reserved, held;
      Unchanged();
      for cur := 0 to needed
        invariant Vacating(order, cur, now, needed, dev, bnum, reserved', held') && Same(old(Now()), Now())
      {
        ghost var s := Now();
        reserved', held' := VacateOne(order, cur, now, needed, dev, bnum, reserved', held');
        SameThen(old(Now()), s, Now());
      }
    }

    /** The entries that were only flushed are back on the normal list. */
    method PutBackAll(order: seq<Ptr>, now: nat, needed: nat, ghost reserved: map<Key, Ptr>, ghost held: set<Ptr>)
      requires Mid(reserved, held) && Distinct(order) && now <= needed <= |order|
      requires forall p :: p in held <==> p in order[..now] || p in order[needed..]
      requires forall m :: needed <= m < |order| ==> order[m] in ents
      modifies `normal
      ensures Mid(reserved, Elems(order[..now]))
    {
      hide Mid;
      ghost var rest := held;
      for cur := needed to |order|
        invariant Mid(reserved, rest)
        invariant forall p :: p in rest <==> p in order[..now] || p in order[cur..]
      {
        Alone(order, cur);
        PutBack(order[cur], reserved, rest);
        rest := rest - {order[cur]};
      }
      assert rest == Elems(order[..now]);
    }

    /** The first cur of the entries have their new blocks. */
    ghost predicate Adopting(order: seq<Ptr>, cur: nat, now: nat, dev: int, bnum: int, reserved: map<Key, Ptr>,
                             held: set<Ptr>)
      reads this
    {
      && cur <= now <= |order| && Mid(reserved, held) && Distinct(order)
      && (forall p :: p in held <==> p in order[cur..now])
      && Promised(reserved, order, dev, bnum, cur, now, now, now)
      && (forall m :: cur <= m < now ==> order[m] !in ents)
    }

    method AdoptNext(order: seq<Ptr>, cur: nat, now: nat, req: Request, lo: nat,
                     ghost reserved: map<Key, Ptr>, ghost held: set<Ptr>)
      returns (block: Block, ghost reserved': map<Key, Ptr>, ghost held': set<Ptr>)
      requires Adopting(order, cur, now, req.dev, req.bnum + lo, reserved, held) && cur < now && lo + now <= req.num
      requires req.Valid()
      modifies `ents, `normal, `locked
      ensures Adopting(order, cur + 1, now, req.dev, req.bnum + lo, reserved', held')
      ensures Served(req, lo + cur, old(Now()), Now(), block)
    {
      hide Mid, Distinct, Zeros, Served, Brought, Holds;
      var p, k := order[cur], req.Block(lo + cur);
      Alone(order, cur);
      Promise(reserved, held, k);
      ghost var s := Now();
      block := match req.op case Read => disk[k] case Write => req.data[lo + cur] case Noop => Zeros(req.bsize);
      assert forall m :: cur < m < now ==> order[m] in order[cur + 1..now];
      Adopt(p, Ent(k, !req.op.Read?, block, None, if req.lock then 1 else 0), reserved, held);
      BroughtServed(req, lo + cur, s, Now(), block);
      reserved', held' := reserved - {k}, held - {p};
    }

    lemma AllAdopted(order: seq<Ptr>, now: nat, dev: int, bnum: int, reserved: map<Key, Ptr>, held: set<Ptr>)
      requires Adopting(order, now, now, dev, bnum, reserved, held)
      ensures Valid()
    {
      hide Mid;
      assert held == {} && reserved == map[];
    }

    /** The entries for the request's blocks lo, lo + 1, .. get their data. */
    method AdoptAll(order: seq<Ptr>, now: nat, req: Request, lo: nat, ghost reserved: map<Key, Ptr>, ghost held: set<Ptr>,
                    ghost s0: Snap, done: seq<Block>)
      returns (out: seq<Block>)
      requires Adopting(order, 0, now, req.dev, req.bnum + lo, reserved, held) && lo + now <= req.num && req.Valid()
      requires Done(req, lo, s0, Now(), done)
      modifies `ents, `normal, `locked
      ensures Valid() && Done(req, lo + now, s0, Now(), out)
    {
      hide *;
      ghost var reserved', held' := reserved, held;
      out := done;
      for cur := 0 to now
        invariant Adopting(order, cur, now, req.dev, req.bnum + lo, reserved', held')
        invariant Done(req, lo + cur, s0, Now(), out)
      {
        ghost var s := Now();
        var block: Block;
        block, reserved', held' := AdoptNext(order, cur, now, req, lo, reserved', held');
        DoneNext(req, lo + cur, s0, s, Now(), out, block);
        out := out + [block];
      }
      AllAdopted(order, now, req.dev, req.bnum + lo, reserved', held');
    }

    /** How many blocks from bnum on are missing, of the num asked for, and how many to read with read-ahead. */
    method Misses(dev: int, bnum: int, num: nat, bsize: nat, ahead: bool) returns (now: nat, needed: nat)
      requires num > 0 && (ahead ==> bsize >= 512) && Key(dev, bnum) !in ht && Key(dev, bnum) in disk
      requires forall i :: bnum <= i < bnum + num ==> Key(dev, i) in disk
      requires dev in sizes && forall k: Key :: k.dev == dev && bnum <= k.bnum < sizes[dev] ==> k in disk
      ensures 1 <= now <= num && now <= needed <= NUM_FLUSH_BLOCKS
      ensures forall i :: bnum <= i < bnum + needed ==> Key(dev, i) in disk && Key(dev, i) !in ht
      ensures now <= NUM_FLUSH_BLOCKS && (needed == now || (ahead && needed <= READ_AHEAD_SIZE / bsize))
    {
      now := 1;
      while now < num && now < NUM_FLUSH_BLOCKS && Key(dev, bnum + now) !in ht
        invariant 1 <= now <= num && now <= NUM_FLUSH_BLOCKS
        invariant forall i :: bnum <= i < bnum + now ==> Key(dev, i) in disk && Key(dev, i) !in ht
      {
        now := now + 1;
      }
      needed := now;
      if ahead && now * bsize < READ_AHEAD_SIZE {
        ReadAheadFits(bsize);
        var limit := READ_AHEAD_SIZE / bsize;
        assert limit <= NUM_FLUSH_BLOCKS;
        while needed < limit && bnum + needed < sizes[dev] && Key(dev, bnum + needed) !in ht
          invariant now <= needed <= NUM_FLUSH_BLOCKS && (needed == now || needed <= limit)
          invariant forall i :: bnum <= i < bnum + needed ==> Key(dev, i) in disk && Key(dev, i) !in ht
        {
          assert Key(dev, bnum + needed) in disk;
          needed := needed + 1;
        }
      }
    }

    /** Entries beyond the first needed are in use if there are no more than needed new ones. */
    lemma NewAtFront(order: seq<Ptr>, added: seq<Ptr>, needed: nat)
      requires Distinct(order) && NewFirst(order, ents.Keys) && |added| <= needed
      requires forall p :: p in order && p !in ents ==> p in added
      ensures forall m :: needed <= m < |order| ==> order[m] in ents
    {
      forall m | needed <= m < |order| ensures order[m] in ents {
        if order[m] !in ents {
          DistinctCount(order[..m + 1]);
          forall p | p in Elems(order[..m + 1]) ensures p in Elems(added) {
            var j :| 0 <= j <= m && order[j] == p;
          }
          assert Elems(order[..m + 1]) <= Elems(added);
          SubsetCount(Elems(order[..m + 1]), Elems(added));
          CountBound(added);
        }
      }
    }

    /** Find entries for the missing blocks bnum.. , flush what they hold, and free them for the new blocks; read the
        blocks of read-ahead. */
    method Prepare(dev: int, bnum: int, now: nat, needed: nat)
      returns (order: seq<Ptr>, ghost reserved: map<Key, Ptr>, ghost held: set<Ptr>)
      requires Valid() && 0 < now <= needed <= NUM_FLUSH_BLOCKS && |locked| + needed <= maxBlocks
      requires forall i :: bnum <= i < bnum + needed ==> Key(dev, i) in disk && Key(dev, i) !in ht
      modifies `ents, `ht, `normal, `locked, `curBlocks, `nextPtr, `disk, `log
      ensures Adopting(order, 0, now, dev, bnum, reserved, held) && Same(old(Now()), Now())
    {
      hide *;
      var got, added, used := GetEnts(needed);
      Gathered(got, added, used);
      order := SortEnts(got);
      ghost var keys := ents.Keys;
      ClaimReady(got, added, used, order);
      ghost var s := Now();
      var numDirty: nat;
      numDirty, reserved := Claim(order, needed, dev, bnum, Elems(added));
      ghost var s1 := Now();
      FlushVictims(order, numDirty, reserved);
      SameThen(s, s1, Now());
      StartVacating(order, added, now, needed, dev, bnum, reserved, keys);
      ghost var s2 := Now();
      reserved, held := Vacate(order, now, needed, dev, bnum, reserved, Elems(order));
      SameThen(s, s2, Now());
      Vacated(order, now, needed, dev, bnum, reserved, held);
      PutBackAll(order, now, needed, reserved, held);
      held := Elems(order[..now]);
      StartAdopting(order, now, needed, dev, bnum, reserved);
    }

    lemma Gathered(got: seq<Ptr>, added: seq<Ptr>, used: nat)
      requires Mid(map[], Elems(added)) && Distinct(added) && used <= |normal| && got == added + normal[..used]
      requires forall p :: p in added ==> p !in ents
      ensures Distinct(got) && forall p :: p in ents ==> ents[p].key.dev >= 0
    {
      hide Kept, Journaled, Tabled;
      forall i, j | 0 <= i < j < |got| ensures got[i] != got[j] {
        assert j >= |added| ==> got[j] == normal[j - |added|];
        assert i >= |added| ==> got[i] == normal[i - |added|];
        assert i < |added| <= j ==> got[j] !in Elems(added) && got[i] in Elems(added);
      }
      forall p | p in ents ensures ents[p].key.dev >= 0 {
        assert ents[p].key in disk && ents[p].key.dev in sizes;
      }
    }

    lemma ClaimReady(got: seq<Ptr>, added: seq<Ptr>, used: nat, order: seq<Ptr>)
      requires used <= |normal| && got == added + normal[..used]
      requires forall p :: p in added ==> p !in ents
      requires forall p :: p in order <==> p in got
      requires Mid(map[], Elems(added))
      ensures forall p :: p in Elems(added) ==> p in order && p !in ents
      ensures forall p :: p in order && p !in Elems(added) ==> p in normal
      ensures forall p :: p in order && p !in ents ==> p in added
    {
      hide Sane, Tabled, Distinct;
    }

    lemma StartVacating(order: seq<Ptr>, added: seq<Ptr>, now: nat, needed: nat, dev: int, bnum: int,
                        reserved: map<Key, Ptr>, keys: set<Ptr>)
      requires Mid(reserved, Elems(order)) && Distinct(order) && now <= needed <= |order| && |added| <= needed
      requires Promised(reserved, order, dev, bnum, 0, needed, needed, needed)
      requires forall p :: p in order ==> Clean(p)
      requires NewFirst(order, ents.Keys) && forall p :: p in order && p !in ents ==> p in added
      ensures Vacating(order, 0, now, needed, dev, bnum, reserved, Elems(order))
    {
      hide Mid, Clean, Promised, NewFirst;
      NewAtFront(order, added, needed);
      PromisedSplit(reserved, order, dev, bnum, now, needed);
      ElemsSplit(order, now);
      hide Distinct, Elems;
    }

    static lemma ElemsSplit(order: seq<Ptr>, now: nat)
      requires now <= |order|
      ensures forall p :: p in Elems(order) <==> p in order[..now] || p in order[now..]
    {
      assert order[..now] + order[now..] == order;
    }

    static lemma PromisedSplit(reserved: map<Key, Ptr>, order: seq<Ptr>, dev: int, bnum: int, now: nat, needed: nat)
      requires Promised(reserved, order, dev, bnum, 0, needed, needed, needed) && now <= needed
      ensures Promised(reserved, order, dev, bnum, 0, now, now, needed)
    {
    }

    lemma Vacated(order: seq<Ptr>, now: nat, needed: nat, dev: int, bnum: int, reserved: map<Key, Ptr>, held: set<Ptr>)
      requires Vacating(order, needed, now, needed, dev, bnum, reserved, held)
      ensures Mid(reserved, held) && Distinct(order) && now <= needed <= |order|
      ensures forall p :: p in held <==> p in order[..now] || p in order[needed..]
      ensures forall m :: needed <= m < |order| ==> order[m] in ents
      ensures forall m :: 0 <= m < now ==> order[m] !in ents
      ensures Promised(reserved, order, dev, bnum, 0, now, needed, needed)
    {
      hide Mid;
    }

    lemma StartAdopting(order: seq<Ptr>, now: nat, needed: nat, dev: int, bnum: int, reserved: map<Key, Ptr>)
      requires Distinct(order) && now <= needed <= |order| && Mid(reserved, Elems(order[..now]))
      requires forall m :: 0 <= m < now ==> order[m] !in ents
      requires Promised(reserved, order, dev, bnum, 0, now, needed, needed)
      ensures Adopting(order, 0, now, dev, bnum, reserved, Elems(order[..now]))
    {
      hide Mid;
    }

    // ---- cache_block_io

    lemma RangeOnDevice(req: Request, lo: nat, s0: Snap, done: seq<Block>)
      requires Valid() && lo < req.num && Done(req, lo, s0, Now(), done)
      ensures req.Valid() && Key(req.dev, req.bnum + lo) in disk && (req.ahead ==> req.bsize >= 512)
      ensures forall i :: req.bnum + lo <= i < req.bnum + req.num ==> Key(req.dev, i) in disk
      ensures req.dev in sizes && forall k: Key :: k.dev == req.dev && req.bnum + lo <= k.bnum < sizes[req.dev] ==> k in disk
    {
      hide Sane, Listed, Tabled;
      assert forall i :: req.bnum + lo <= i < req.bnum + req.num ==> req.Covers(req.num, Key(req.dev, i));
      assert Key(req.dev, req.bnum + lo) in disk;
    }

    /** The block is not cached: it and the missing blocks after it come in together. */
    method Miss(req: Request, lo: nat, done: seq<Block>, ghost s0: Snap) returns (hi: nat, out: seq<Block>)
      requires Valid() && Done(req, lo, s0, Now(), done) && lo < req.num
      requires req.Valid() && Key(req.dev, req.bnum + lo) !in ht && |locked| + Wanted(req, lo) <= maxBlocks
      modifies `ents, `ht, `normal, `locked, `curBlocks, `nextPtr, `disk, `log
      ensures lo < hi <= req.num && Valid() && Done(req, hi, s0, Now(), out)
    {
      hide *;
      RangeOnDevice(req, lo, s0, done);
      var now, needed := Misses(req.dev, req.bnum + lo, req.num - lo, req.bsize, req.ahead && req.op.Read?);
      NeedsNoMore(req, lo, now, needed);
      ghost var s := Now();
      var order, reserved, held := Prepare(req.dev, req.bnum + lo, now, needed);
      DoneSame(req, lo, s0, s, Now(), done);
      out := AdoptAll(order, now, req, lo, reserved, held, s0, done);
      hi := lo + now;
    }

    static lemma NeedsNoMore(req: Request, lo: nat, now: nat, needed: nat)
      requires req.Valid() && lo < req.num && now <= req.num - lo && now <= NUM_FLUSH_BLOCKS
      requires needed == now || (req.ahead && req.op.Read? && needed <= READ_AHEAD_SIZE / req.bsize)
      ensures needed <= Wanted(req, lo)
    {
    }

    /** The block is cached. */
    method Hit(req: Request, lo: nat, done: seq<Block>, ghost s0: Snap) returns (out: seq<Block>)
      requires Valid() && Done(req, lo, s0, Now(), done) && lo < req.num
      requires Key(req.dev, req.bnum + lo) in ht
      modifies `ents, `normal, `locked, `touched
      ensures Valid() && Done(req, lo + 1, s0, Now(), out) && touched == old(touched)
    {
      assert req.Block(lo) == Key(req.dev, req.bnum + lo);
      hide *;
      RangeOnDevice(req, lo, s0, done);
      InTable(req.Block(lo));
      ghost var s := Now();
      var block := Serve(req, lo);
      DoneNext(req, lo, s0, s, Now(), done, block);
      out := done + [block];
    }

    /** One cached block of the request. */
    method Serve(req: Request, i: nat) returns (block: Block)
      requires Valid() && req.Valid() && i < req.num && Holds(ents, ht, req.Block(i))
      modifies `ents, `normal, `locked, `touched
      ensures Valid() && touched == old(touched) && Served(req, i, old(Now()), Now(), block)
    {
      hide *;
      ghost var s := Now();
      NowIs();
      ServeReady(req, i);
      var p := ht[req.Block(i)];
      var e := Renew(req, i, ents[p]);
      Replace(p, e, touched);
      block := e.data;
      NowIs();
      ServedHere(req, i, s, e, Now());
    }

    /** What serving block i does to its entry. */
    static function Renew(req: Request, i: nat, e: Ent): Ent
      requires req.Valid() && i < req.num
    {
      var e' := match req.op
        case Read => e
        case Write => e.(data := req.data[i], dirty := true)
        case Noop => e.(data := Zeros(req.bsize), dirty := true);
      if req.lock then e'.(lock := e'.lock + 1) else e'
    }

    lemma ServeReady(req: Request, i: nat)
      requires Valid() && req.Valid() && i < req.num && Holds(ents, ht, req.Block(i))
      ensures req.Block(i) in ht && req.Block(i) in disk
      ensures var p := ht[req.Block(i)];
        && p in ents && (forall j :: j in ht && ht[j] == p ==> j == req.Block(i))
        && var e := Renew(req, i, ents[p]);
           && e.key == ents[p].key == req.Block(i) && e.clone == ents[p].clone
           && Backed(e, disk[e.key], e.key in touched) && (e.key in touched ==> e.lock > 0)
           && e.lock == ents[p].lock + (if req.lock then 1 else 0)
           && e.data == req.After(i + 1, req.Block(i), ents[p].data)
    {
      HeldOnDisk(req.Block(i));
      BackedHere(ht[req.Block(i)]);
      hide Mid, Zeros;
    }

    lemma HeldOnDisk(k: Key)
      requires Valid() && Holds(ents, ht, k)
      ensures k in disk && forall p :: p in ents && ents[p].key == k ==> p == ht[k]
      ensures forall j :: j in ht && ht[j] == ht[k] ==> j == k
    {
      hide Kept, Journaled, Listed;
      assert forall j :: j in ht ==> Holds(ents, ht, j);
    }

    /** One request of less than 64 KB: block by block, misses together. */
    method SmallIo(req: Request) returns (out: seq<Block>)
      requires Valid() && req.Valid() && req.OnDisk(disk)
      requires Roomy(req, |locked|, maxBlocks)
      modifies `ents, `ht, `normal, `locked, `curBlocks, `nextPtr, `disk, `log, `touched
      ensures Valid() && Done(req, req.num, old(Now()), Now(), out)
    {
      assert forall n: nat :: n <= req.num ==> req.Block(n) == Key(req.dev, req.bnum + n);
      hide *;
      NowIs();
      ghost var s0 := Now();
      NothingDone(req, s0);
      out := [];
      var n := 0;
      while n < req.num
        invariant n <= req.num && Valid() && Done(req, n, s0, Now(), out)
        decreases req.num - n
      {
        Room(req, n, s0, out);
        if Key(req.dev, req.bnum + n) in ht {
          out := Hit(req, n, out, s0);
          n := n + 1;
        } else {
          n, out := Miss(req, n, out, s0);
        }
      }
    }

    lemma Room(req: Request, n: nat, s0: Snap, out: seq<Block>)
      requires req.Valid() && Done(req, n, s0, Now(), out) && n < req.num && Roomy(req, s0.nlocked, maxBlocks)
      ensures |locked| + Wanted(req, n) <= maxBlocks
    {
    }

    // ---- requests of 64 KB and more go straight to the device

    method ReadPhysBlocks(req: Request) returns (out: seq<Block>)
      requires forall i :: 0 <= i < req.num ==> req.Block(i) in disk
      ensures |out| == req.num && forall i :: 0 <= i < req.num ==> out[i] == disk[req.Block(i)]
    {
      out := [];
      for i := 0 to req.num
        invariant |out| == i && forall j :: 0 <= j < i ==> out[j] == disk[req.Block(j)]
      {
        out := out + [disk[req.Block(i)]];
      }
    }

    /** The device's blocks, replaced by the cached ones where there are any. */
    method BigRead(req: Request) returns (out: seq<Block>)
      requires Valid() && req.Valid() && req.op.Read? && req.OnDisk(disk)
      ensures |out| == req.num && forall i :: 0 <= i < req.num ==> req.Block(i) in disk && out[i] == View(req.Block(i))
    {
      AtRest();
      hide Mid;
      assert forall i :: 0 <= i < req.num ==> req.Covers(req.num, req.Block(i));
      out := ReadPhysBlocks(req);
      for i := 0 to req.num
        invariant |out| == req.num
        invariant forall j :: 0 <= j < i ==> out[j] == View(req.Block(j))
        invariant forall j :: i <= j < req.num ==> out[j] == disk[req.Block(j)]
      {
        var k := req.Block(i);
        if k in ht {
          out := out[i := ents[ht[k]].data];
        }
      }
    }

    /** flush_cache_ent of one entry changes nothing clients see. */
    method FlushOne(p: Ptr)
      requires Valid() && p in ents
      modifies `ents, `disk, `log
      ensures Valid() && Same(old(Now()), Now()) && ents == old(ents)[p := Settled(old(ents)[p])]
    {
      hide *;
      AtRest();
      Parts();
      ghost var ents0, disk0, s := ents, disk, Now();
      NowIs();
      FlushCacheEnt(p);
      OneSettled(ents0, disk0, ht, p, ents, disk);
      FlushSame(s, {p}, ents, disk);
      FlushKeeps(ents0, disk0, {p}, map[], {});
      NowIs();
      StillSized(disk0);
      MidIs(map[], {});
      MidAtRest();
    }

    lemma Parts()
      requires Valid()
      ensures Sane(ents, ht, disk, log, nextSnap, lawful, touched, {}) && Listed(ents, normal, locked, {}, nextPtr)
      ensures Tabled(ents, ht, disk, map[]) && Sized({}) && forall k :: k in touched ==> Holds(ents, ht, k)
    {
      hide Sane, Listed, Tabled, Holds;
    }

    twostate lemma StillSized(disk0: map<Key, Block>)
      requires old(Sized({})) && disk0 == old(disk) && unchanged(`curBlocks, `normal, `locked)
      requires forall k :: k in disk <==> k in disk0
      ensures Sized({})
    {
    }

    lemma MidAtRest()
      requires Mid(map[], {})
      ensures Valid()
    {
    }

    static predicate Cloned(ents: map<Ptr, Ent>, ht: map<Key, Ptr>, k: Key) {
      Holds(ents, ht, k) && ents[ht[k]].clone.Some?
    }

    /** The clones of the blocks about to be overwritten go to the device first. */
    method FlushClonesOf(req: Request)
      requires Valid()
      modifies `ents, `disk, `log
      ensures Valid() && Same(old(Now()), Now())
      ensures forall i :: 0 <= i < req.num ==> !Cloned(ents, ht, req.Block(i))
    {
      hide *;
      Unchanged();
      for i := 0 to req.num
        invariant Valid() && Same(old(Now()), Now())
        invariant forall j :: 0 <= j < i ==> !Cloned(ents, ht, req.Block(j))
      {
        var k := req.Block(i);
        if Cloned(ents, ht, k) {
          ghost var s := Now();
          CloneGone(k);
          FlushOne(ht[k]);
          SameThen(old(Now()), s, Now());
        }
      }
    }

    /** Without its clone, no block but k changes in that respect. */
    lemma CloneGone(k: Key)
      requires Valid() && Cloned(ents, ht, k)
      ensures k in ht && ht[k] in ents
      ensures forall j :: Cloned(ents[ht[k] := Settled(ents[ht[k]])], ht, j) ==> Cloned(ents, ht, j) && j != k
    {
      hide Sane, Listed, Tabled;
    }

    /** The entries once block i is written through. */
    static function Through(req: Request, i: nat, ents: map<Ptr, Ent>, ht: map<Key, Ptr>): map<Ptr, Ent>
      requires i < |req.data|
    {
      var k := req.Block(i);
      if Holds(ents, ht, k) then ents[ht[k] := ents[ht[k]].(data := req.data[i])] else ents
    }

    static lemma ThroughSane(req: Request, i: nat, s: Snap, log: seq<Event>, nextSnap: nat, lawful: bool, touched: set<Key>)
      requires Sane(s.ents, s.ht, s.disk, log, nextSnap, lawful, touched, {})
      requires i < |req.data| && req.Block(i) in s.disk && !Cloned(s.ents, s.ht, req.Block(i))
      ensures Sane(Through(req, i, s.ents, s.ht), s.ht, s.disk[req.Block(i) := req.data[i]],
                   log + [Wrote(req.Block(i), req.data[i], None, s.Pins(req.Block(i)))], nextSnap,
                   lawful && s.Pins(req.Block(i)) == 0, touched, {})
    {
      hide Sane;
      WriteThroughSane(s.ents, s.ht, s.disk, log, nextSnap, lawful, touched, req.Block(i), req.data[i],
                       s.Pins(req.Block(i)), Through(req, i, s.ents, s.ht));
    }

    static lemma ThroughListed(req: Request, i: nat, s: Snap, normal: seq<Ptr>, locked: seq<Ptr>, nextPtr: nat)
      requires Listed(s.ents, normal, locked, {}, nextPtr) && Tabled(s.ents, s.ht, s.disk, map[])
      requires i < |req.data| && req.Block(i) in s.disk
      ensures Listed(Through(req, i, s.ents, s.ht), normal, locked, {}, nextPtr)
      ensures Tabled(Through(req, i, s.ents, s.ht), s.ht, s.disk[req.Block(i) := req.data[i]], map[])
    {
    }

    lemma ThroughSeen(req: Request, i: nat)
      requires Valid() && req.LargeWrite(disk) && i < |req.data|
      ensures req.Block(i) in disk
      ensures Served(req, i, Now(), Snap(Through(req, i, ents, ht), ht, disk[req.Block(i) := req.data[i]], |locked|), req.data[i])
      ensures forall j :: Holds(Through(req, i, ents, ht), ht, j) <==> Holds(ents, ht, j)
      ensures forall j :: Cloned(Through(req, i, ents, ht), ht, j) ==> Cloned(ents, ht, j)
      ensures forall j :: j in disk[req.Block(i) := req.data[i]] <==> j in disk
    {
      HeldAlone(req.Block(i));
      hide Mid;
      assert req.Covers(req.num, req.Block(i));
      ThroughServed(req, i, Now());
      hide Served, Cloned;
    }

    /** One block of a large write, to the device and, where there is an entry, to the cache. */
    method WriteThrough(req: Request, i: nat)
      requires Valid() && req.LargeWrite(disk) && i < |req.data| && !Cloned(ents, ht, req.Block(i))
      modifies `ents, `disk, `log, `lawful
      ensures Valid() && Served(req, i, old(Now()), Now(), req.data[i])
      ensures forall j :: Cloned(ents, ht, j) ==> Cloned(old(ents), ht, j)
      ensures lawful <==> old(lawful) && old(Now()).Pins(req.Block(i)) == 0
    {
      hide *;
      NowIs();
      Parts();
      ghost var s := Now();
      ThroughSeen(req, i);
      ThroughSane(req, i, s, log, nextSnap, lawful, touched);
      ThroughListed(req, i, s, normal, locked, nextPtr);
      log := log + [Wrote(req.Block(i), req.data[i], None, s.Pins(req.Block(i)))];
      lawful := lawful && s.Pins(req.Block(i)) == 0;
      ents := Through(req, i, ents, ht);
      disk := disk[req.Block(i) := req.data[i]];
      NowIs();
      StillSized(s.disk);
      MidIs(map[], {});
      MidAtRest();
    }

    lemma HeldAlone(k: Key)
      requires Valid()
      ensures forall j :: k in ht && j in ht && ht[j] == ht[k] ==> j == k
    {
      hide Kept, Journaled, Listed;
      assert forall j :: j in ht ==> Holds(ents, ht, j);
    }

    static lemma ThroughServed(req: Request, i: nat, s: Snap)
      requires req.Valid() && req.op.Write? && !req.lock && i < req.num && req.Block(i) in s.disk
      requires forall j :: req.Block(i) in s.ht && j in s.ht && s.ht[j] == s.ht[req.Block(i)] ==> j == req.Block(i)
      ensures Served(req, i, s,
                     Snap(Through(req, i, s.ents, s.ht), s.ht, s.disk[req.Block(i) := req.data[i]], s.nlocked), req.data[i])
      ensures forall j :: Holds(Through(req, i, s.ents, s.ht), s.ht, j) <==> Holds(s.ents, s.ht, j)
      ensures forall j :: Cloned(Through(req, i, s.ents, s.ht), s.ht, j) ==> Cloned(s.ents, s.ht, j)
    {
    }

    /** The first i blocks are written and no clones are left among the request's blocks. */
    ghost predicate Writing(req: Request, i: nat, s0: Snap, lawful0: bool)
      reads this
    {
      && Valid() && i <= req.num && req.LargeWrite(disk) && Done(req, i, s0, Now(), req.data[..i])
      && (forall j :: 0 <= j < req.num ==> !Cloned(ents, ht, req.Block(j)))
      && (lawful <==> lawful0 && forall j :: 0 <= j < i ==> s0.Pins(req.Block(j)) == 0)
    }

    method WriteNext(req: Request, i: nat, ghost s0: Snap, ghost lawful0: bool)
      requires Writing(req, i, s0, lawful0) && i < req.num
      modifies `ents, `disk, `log, `lawful
      ensures Writing(req, i + 1, s0, lawful0)
    {
      Unwritten(req, i, s0, lawful0);
      hide *;
      ghost var s, ents0, lawful1 := Now(), ents, lawful;
      WriteThrough(req, i);
      DoneNext(req, i, s0, s, Now(), req.data[..i], req.data[i]);
      assert req.data[..i + 1] == req.data[..i] + [req.data[i]];
      NextWritten(req, i, s0, lawful0, lawful1, ents0);
    }

    lemma Unwritten(req: Request, i: nat, s0: Snap, lawful0: bool)
      requires Writing(req, i, s0, lawful0) && i < req.num
      ensures Valid() && req.LargeWrite(disk) && i < |req.data| && !Cloned(ents, ht, req.Block(i))
      ensures Done(req, i, s0, Now(), req.data[..i]) && Now().Pins(req.Block(i)) == s0.Pins(req.Block(i))
      ensures forall j :: 0 <= j < req.num ==> !Cloned(ents, ht, req.Block(j))
      ensures lawful <==> lawful0 && forall j :: 0 <= j < i ==> s0.Pins(req.Block(j)) == 0
    {
      hide Mid;
      assert !req.Covers(i, req.Block(i));
    }

    lemma NextWritten(req: Request, i: nat, s0: Snap, lawful0: bool, lawful1: bool, ents0: map<Ptr, Ent>)
      requires Valid() && i < req.num <= |req.data| && Done(req, i + 1, s0, Now(), req.data[..i + 1])
      requires req.op.Write? && !req.lock
      requires forall j :: 0 <= j < req.num ==> !Cloned(ents0, ht, req.Block(j))
      requires forall j :: Cloned(ents, ht, j) ==> Cloned(ents0, ht, j)
      requires lawful1 <==> lawful0 && forall j :: 0 <= j < i ==> s0.Pins(req.Block(j)) == 0
      requires lawful <==> lawful1 && s0.Pins(req.Block(i)) == 0
      ensures Writing(req, i + 1, s0, lawful0)
    {
      hide Mid, Cloned;
    }

    /** A large write: clones first, then the blocks.  It passes by the journal just if it hits a locked block. */
    method BigWrite(req: Request)
      requires Valid() && req.LargeWrite(disk)
      modifies `ents, `disk, `log, `lawful
      ensures Valid() && Done(req, req.num, old(Now()), Now(), req.data)
      ensures lawful <==> old(lawful) && req.Unpinned(old(Now()))
    {
      hide *;
      NothingYet(req);
      ghost var s0, lawful0 := Now(), lawful;
      FlushClonesOf(req);
      StartWriting(req, s0, lawful0);
      for i := 0 to req.num
        invariant Writing(req, i, s0, lawful0)
      {
        WriteNext(req, i, s0, lawful0);
      }
      AllWritten(req, s0, lawful0);
    }

    lemma NothingYet(req: Request)
      requires req.LargeWrite(disk)
      ensures Done(req, 0, Now(), Now(), []) && req.op.Write? && !req.lock
    {
      NothingDone(req, Now());
    }

    lemma StartWriting(req: Request, s0: Snap, lawful0: bool)
      requires Valid() && Done(req, 0, s0, s0, []) && Same(s0, Now()) && lawful == lawful0
      requires req.op.Write? && !req.lock
      requires forall i :: 0 <= i < req.num ==> !Cloned(ents, ht, req.Block(i))
      ensures Writing(req, 0, s0, lawful0)
    {
      DoneSame(req, 0, s0, s0, Now(), []);
      hide Mid, Cloned;
      assert req.data[..0] == [];
    }

    lemma AllWritten(req: Request, s0: Snap, lawful0: bool)
      requires Writing(req, req.num, s0, lawful0)
      ensures Valid() && Done(req, req.num, s0, Now(), req.data)
      ensures lawful <==> lawful0 && req.Unpinned(s0)
    {
      hide Mid, Done;
      assert req.data[..req.num] == req.data;
    }

    // ---- the entry point

    /** A request fits the device just if all of its blocks are on it. */
    lemma FitsOnDisk(req: Request)
      requires Valid() && req.Valid()
      ensures req.Fits(sizes) <==> req.OnDisk(disk)
    {
      hide Sane, Listed, Tabled;
      assert req.Covers(req.num, req.Block(req.num - 1)) && req.Block(req.num - 1).bnum == req.bnum + req.num - 1;
    }

    lemma AllRead(req: Request, out: seq<Block>)
      requires req.Valid() && req.op.Read? && !req.lock && req.OnDisk(disk) && |out| == req.num
      requires forall i :: 0 <= i < req.num ==> req.Block(i) in disk && out[i] == View(req.Block(i))
      ensures Done(req, req.num, Now(), Now(), out)
    {
      ReadDone(req, Now(), out);
    }

    /** cache_block_io: to its callers the cache is the array of blocks, whatever is cached.  Nothing but the
        request's own blocks changes, and only a large write to a locked block ever passes by the journal. */
    method CacheBlockIo(req: Request) returns (ok: bool, out: seq<Block>)
      requires Valid() && req.Valid() && (req.Large() ==> !req.lock)
      requires !req.Large() ==> Roomy(req, |locked|, maxBlocks)
      modifies `ents, `ht, `normal, `locked, `curBlocks, `nextPtr, `disk, `log, `touched, `lawful
      ensures Valid()
      // a request is refused if one of its blocks is not on the device, or if it is a no-op of 64 KB or more
      ensures ok <==> req.OnDisk(old(disk)) && !(req.num * req.bsize >= 65536 && req.op.Noop?)
      ensures if ok then Done(req, req.num, old(Now()), Now(), out) else Now() == old(Now())
      ensures lawful <==> old(lawful) && (ok && req.num * req.bsize >= 65536 && req.op.Write? ==> req.Unpinned(old(Now())))
    {
      FitsOnDisk(req);
      hide Valid, Done, Same, View, Now;
      out := [];
      if !req.Fits(sizes) {
        return false, [];
      }
      ok := true;
      if req.Large() {
        match req.op
        case Read =>
          out := BigRead(req);
          AllRead(req, out);
        case Write =>
          BigWrite(req);
          out := req.data;
        case Noop =>
          ok := false;
      } else {
        out := SmallIo(req);
      }
    }
  }

  lemma ServedHere(req: Request, i: nat, s: Snap, e: Ent, s': Snap)
    requires req.Valid() && i < req.num && Holds(s.ents, s.ht, req.Block(i)) && req.Block(i) in s.disk
    requires s' == Snap(s.ents[s.ht[req.Block(i)] := e], s.ht, s.disk, s'.nlocked)
    requires forall j :: j in s.ht && s.ht[j] == s.ht[req.Block(i)] ==> j == req.Block(i)
    requires e.key == req.Block(i) && e.lock == s.ents[s.ht[req.Block(i)]].lock + if req.lock then 1 else 0
    requires e.data == req.After(i + 1, req.Block(i), s.ents[s.ht[req.Block(i)]].data)
    requires s'.nlocked <= s.nlocked + if req.lock then 1 else 0
    ensures Served(req, i, s, s', e.data)
  {
  }

  lemma OneSettled(ents0: map<Ptr, Ent>, disk0: map<Key, Block>, ht: map<Key, Ptr>, p: Ptr,
                   ents: map<Ptr, Ent>, disk: map<Key, Block>)
    requires Indexed(ents0, ht, disk0) && p in ents0 && ents == ents0[p := Settled(ents0[p])]
    requires disk == disk0[ents0[p].key := SettledBlock(ents0[p], disk0[ents0[p].key])]
    ensures AllSettled(ents0, disk0, ht, {p}, ents, disk)
  {
  }
}
