/** The state of the block cache (cache.c) as values, seen from one caller at a time, and the single writes its
    flusher performs. */
module CacheModel {
  import opened Lists

  type Block = seq<int>

  datatype Key = Key(dev: int, bnum: int)

  datatype Option<T> = None | Some(value: T)

  /** A copy made by set_blocks_info, waiting to be written; id stands for the callback and its argument. */
  datatype Clone = Clone(data: Block, id: nat)

  /** A cache_ent. */
  datatype Ent = Ent(key: Key, dirty: bool, data: Block, clone: Option<Clone>, lock: nat)

  /** What the device and the journal see: a block written (with the id of the clone, if that is what was
      written, and the entry's lock count), a snapshot taken, a callback made. */
  datatype Event =
    | Wrote(k: Key, data: Block, snap: Option<nat>, lock: nat)
    | Snapped(k: Key, data: Block, id: nat)
    | Called(k: Key, id: nat)

  type Ptr = nat

  datatype State = State(
    ents: map<Ptr, Ent>,        // the entries, by address
    ht: map<Key, Ptr>,          // the hash table
    disk: map<Key, Block>,
    log: seq<Event>)

  // ---- the journal order

  /** Where the last snapshot of a block stands: nothing pending, to be written, or written but not reported. */
  datatype Phase = Idle | Armed(id: nat, data: Block) | Written(id: nat)

  function PhaseOf(log: seq<Event>, k: Key): Phase {
    if log == [] then Idle
    else
      var before := PhaseOf(log[..|log| - 1], k);
      var e := log[|log| - 1];
      if e.k != k then before
      else match e
        case Snapped(_, data, id) => Armed(id, data)
        case Wrote(_, _, snap, _) => if snap.Some? then Written(snap.value) else before
        case Called(_, _) => Idle
  }

  /** May e happen after log?  A snapshot only when none is pending, under a new id; then nothing but that
      snapshot may be written; its callback only once it is written; other data only while unlocked. */
  predicate MayFollow(log: seq<Event>, e: Event) {
    match e
    case Snapped(k, _, id) => PhaseOf(log, k) == Idle && forall i :: 0 <= i < |log| && log[i].Snapped? ==> log[i].id != id
    case Wrote(k, data, snap, lock) =>
      (match PhaseOf(log, k)
       case Idle => snap == None && lock == 0
       case Armed(id, d) => snap == Some(id) && data == d
       case Written(_) => false)
    case Called(k, id) => PhaseOf(log, k) == Written(id)
  }

  ghost predicate Legal(log: seq<Event>) {
    forall i :: 0 <= i < |log| ==> MayFollow(log[..i], log[i])
  }

  lemma LegalExtend(log: seq<Event>, e: Event)
    ensures Legal(log + [e]) <==> Legal(log) && MayFollow(log, e)
    ensures forall k :: PhaseOf(log + [e], k) ==
                        if e.k != k then PhaseOf(log, k)
                        else match e
                             case Snapped(_, data, id) => Armed(id, data)
                             case Wrote(_, _, snap, _) => if snap.Some? then Written(snap.value) else PhaseOf(log, k)
                             case Called(_, _) => Idle
  {
    var l := log + [e];
    assert l[..|log|] == log && l[|log|] == e;
    forall i | 0 <= i < |log| ensures l[..i] == log[..i] && l[i] == log[i] {
    }
    if Legal(log) && MayFollow(log, e) {
      forall i | 0 <= i < |l| ensures MayFollow(l[..i], l[i]) {
        if i < |log| { assert MayFollow(log[..i], log[i]); }
      }
    }
    if Legal(l) {
      assert MayFollow(l[..|log|], l[|log|]);
      forall i | 0 <= i < |log| ensures MayFollow(log[..i], log[i]) {
        assert MayFollow(l[..i], l[i]);
      }
    }
  }

  /** While the block is not written after a snapshot, the snapshot stays pending. */
  lemma {:induction false} StaysArmed(log: seq<Event>, i: nat, j: nat)
    requires Legal(log) && i < j <= |log| && log[i].Snapped?
    requires forall m :: i < m < j ==> !(log[m].Wrote? && log[m].k == log[i].k)
    ensures PhaseOf(log[..j], log[i].k) == Armed(log[i].id, log[i].data)
  {
    assert log[..j][..j - 1] == log[..j - 1];
    if j > i + 1 {
      StaysArmed(log, i, j - 1);
      assert MayFollow(log[..j - 1], log[j - 1]);
    }
  }

  /** In a legal log the first write of a block after a snapshot of it writes just that snapshot. */
  lemma SnapshotFirst(log: seq<Event>, i: nat, j: nat)
    requires Legal(log) && i < j < |log| && log[i].Snapped? && log[j].Wrote? && log[j].k == log[i].k
    requires forall m :: i < m < j ==> !(log[m].Wrote? && log[m].k == log[i].k)
    ensures log[j].snap == Some(log[i].id) && log[j].data == log[i].data
  {
    StaysArmed(log, i, j);
    assert MayFollow(log[..j], log[j]);
  }

  /** A phase other than Idle names an earlier snapshot of the block. */
  lemma {:induction false} PhaseSource(log: seq<Event>, k: Key) returns (i: nat)
    requires Legal(log) && PhaseOf(log, k) != Idle
    ensures i < |log| && log[i].Snapped? && log[i].k == k && log[i].id == PhaseOf(log, k).id
    ensures PhaseOf(log, k).Armed? ==> log[i].data == PhaseOf(log, k).data
    ensures PhaseOf(log, k).Written? ==> exists j :: i < j < |log| && log[j].Wrote? && log[j].k == k && log[j].snap == Some(log[i].id)
    ensures forall m :: i < m < |log| ==> !(log[m].Called? && log[m].k == k)
  {
    var n := |log| - 1;
    assert MayFollow(log[..n], log[n]);
    forall m | 0 <= m < n ensures log[..n][..m] == log[..m] && MayFollow(log[..m], log[m]) {
    }
    if log[n].k == k && log[n].Snapped? {
      i := n;
    } else {
      i := PhaseSource(log[..n], k);
      if log[n].k == k && log[n].Wrote? {
        assert log[n].snap == Some(log[i].id);
      }
    }
  }

  lemma LegalPrefix(log: seq<Event>, j: nat)
    requires Legal(log) && j <= |log|
    ensures Legal(log[..j])
  {
    forall m | 0 <= m < j ensures log[..j][..m] == log[..m] && MayFollow(log[..m], log[m]) {
    }
  }

  /** In a legal log the data of a locked block never reaches the device: what does is an earlier snapshot of it. */
  lemma LockedWritesAreClones(log: seq<Event>, j: nat) returns (i: nat)
    requires Legal(log) && j < |log| && log[j].Wrote? && log[j].lock > 0
    ensures i < j && log[i].Snapped? && log[i].k == log[j].k && log[i].data == log[j].data && log[j].snap == Some(log[i].id)
  {
    assert MayFollow(log[..j], log[j]);
    LegalPrefix(log, j);
    i := PhaseSource(log[..j], log[j].k);
  }

  /** A callback comes after the snapshot and after the write of that snapshot, with no other callback of the
      block in between. */
  lemma CallbackAfterWrite(log: seq<Event>, j: nat) returns (s: nat, w: nat)
    requires Legal(log) && j < |log| && log[j].Called?
    ensures s < w < j && log[s].Snapped? && log[s].k == log[j].k && log[s].id == log[j].id
    ensures log[w].Wrote? && log[w].k == log[j].k && log[w].snap == Some(log[j].id)
    ensures forall m :: s < m < j ==> !(log[m].Called? && log[m].k == log[j].k)
  {
    hide PhaseOf;
    assert MayFollow(log[..j], log[j]);
    LegalPrefix(log, j);
    s := PhaseSource(log[..j], log[j].k);
    w :| s < w < j && log[w].Wrote? && log[w].k == log[j].k && log[w].snap == Some(log[j].id);
  }

  lemma SnapshotNew(log: seq<Event>, i: nat, j: nat)
    requires Legal(log) && i < j < |log| && log[i].Snapped? && log[j].Snapped?
    ensures log[i].id != log[j].id
  {
    assert MayFollow(log[..j], log[j]);
    assert log[..j][i] == log[i];
  }

  /** No snapshot is reported twice. */
  lemma CallbackOnce(log: seq<Event>, i: nat, j: nat)
    requires Legal(log) && i < j < |log| && log[i].Called? && log[j].Called?
    ensures log[i].id != log[j].id
  {
    var s, w := CallbackAfterWrite(log, i);
    var s', w' := CallbackAfterWrite(log, j);
    if s < s' {
      SnapshotNew(log, s, s');
    } else if s' < s {
      SnapshotNew(log, s', s);
    }
  }

  // ---- what holds of the entries, the device and the journal between steps

  /** Does the hash table lead from k to the entry that holds k? */
  predicate Holds(ents: map<Ptr, Ent>, ht: map<Key, Ptr>, k: Key) {
    k in ht && ht[k] in ents && ents[ht[k]].key == k
  }

  /** A clean entry, unless a client is still changing it through a pinned pointer, is a copy of what the device
      has or of the clone the device will get. */
  predicate Backed(e: Ent, d: Block, pinned: bool) {
    !e.dirty && !pinned ==> e.data == if e.clone.Some? then e.clone.value.data else d
  }

  /** written: the clone is on the device and its callback has not been made yet. */
  function PhaseDue(e: Ent, written: bool): Phase {
    match e.clone
    case None => Idle
    case Some(c) => if written then Written(c.id) else Armed(c.id, c.data)
  }

  /** The hash table leads to every entry, and every entry is for a block of a device. */
  ghost predicate Indexed(ents: map<Ptr, Ent>, ht: map<Key, Ptr>, disk: map<Key, Block>) {
    forall p :: p in ents ==> ents[p].key in ht && ht[ents[p].key] == p && ents[p].key in disk
  }

  /** touched: the blocks a client has changed through a pointer without a mark_blocks_dirty since.
      waiting: the entries just written whose callbacks are still to be made. */
  ghost predicate Kept(ents: map<Ptr, Ent>, disk: map<Key, Block>, touched: set<Key>, waiting: set<Ptr>)
    requires forall p :: p in ents ==> ents[p].key in disk
  {
    && (forall p :: p in ents ==> Backed(ents[p], disk[ents[p].key], ents[p].key in touched))
    && (forall p :: p in ents && ents[p].key in touched ==> ents[p].lock > 0)
    && (forall p :: p in waiting ==> p in ents && MayWrite(ents[p]) && disk[ents[p].key] == Outgoing(ents[p]))
  }

  /** The journal is where the clones say it is. */
  ghost predicate Journaled(ents: map<Ptr, Ent>, ht: map<Key, Ptr>, log: seq<Event>, nextSnap: nat, lawful: bool,
                            waiting: set<Ptr>)
  {
    && (forall p :: p in ents ==> PhaseOf(log, ents[p].key) == PhaseDue(ents[p], p in waiting))
    && (forall k :: PhaseOf(log, k) != Idle ==> Holds(ents, ht, k))
    && (forall i :: 0 <= i < |log| && log[i].Snapped? ==> log[i].id < nextSnap)
    && (Legal(log) <==> lawful)
  }

  ghost predicate Sane(ents: map<Ptr, Ent>, ht: map<Key, Ptr>, disk: map<Key, Block>, log: seq<Event>,
                       nextSnap: nat, lawful: bool, touched: set<Key>, waiting: set<Ptr>)
  {
    Indexed(ents, ht, disk) && Kept(ents, disk, touched, waiting) && Journaled(ents, ht, log, nextSnap, lawful, waiting)
  }

  function WriteOf(e: Ent): Event {
    Wrote(e.key, Outgoing(e), if e.clone.Some? then Some(e.clone.value.id) else None, e.lock)
  }

  /** Writing an entry to the device is in order. */
  lemma WriteInOrder(ents: map<Ptr, Ent>, ht: map<Key, Ptr>, disk: map<Key, Block>, log: seq<Event>,
                     nextSnap: nat, lawful: bool, waiting: set<Ptr>, p: Ptr)
    requires Indexed(ents, ht, disk) && Journaled(ents, ht, log, nextSnap, lawful, waiting)
    requires p in ents && p !in waiting && MayWrite(ents[p])
    ensures Journaled(ents, ht, log + [WriteOf(ents[p])], nextSnap, lawful, waiting + {p})
  {
    hide PhaseOf, Legal;
    LegalExtend(log, WriteOf(ents[p]));
  }

  /** Making the callback of an entry just written is in order, and the entry may then lose its clone. */
  lemma CallInOrder(ents: map<Ptr, Ent>, ht: map<Key, Ptr>, disk: map<Key, Block>, log: seq<Event>,
                    nextSnap: nat, lawful: bool, waiting: set<Ptr>, p: Ptr, ents': map<Ptr, Ent>)
    requires Indexed(ents, ht, disk) && Journaled(ents, ht, log, nextSnap, lawful, waiting)
    requires p in waiting && p in ents && ents[p].clone.Some? && ents' == ents[p := WrittenOnce(ents[p])]
    ensures Journaled(ents', ht, log + [Called(ents[p].key, ents[p].clone.value.id)], nextSnap, lawful, waiting - {p})
  {
    hide PhaseOf, Legal;
    LegalExtend(log, Called(ents[p].key, ents[p].clone.value.id));
  }

  /** Without a clone only the dirty flag goes. */
  lemma CleanInOrder(ents: map<Ptr, Ent>, ht: map<Key, Ptr>, log: seq<Event>, nextSnap: nat, lawful: bool,
                     waiting: set<Ptr>, p: Ptr, ents': map<Ptr, Ent>)
    requires Journaled(ents, ht, log, nextSnap, lawful, waiting)
    requires p in ents && ents[p].clone == None && ents' == ents[p := WrittenOnce(ents[p])]
    ensures Journaled(ents', ht, log, nextSnap, lawful, waiting - {p})
  {
    hide PhaseOf, Legal;
  }

  /** The block as a client sees it: the cached data if there is an entry, else the device. */
  function Seen(ents: map<Ptr, Ent>, ht: map<Key, Ptr>, disk: map<Key, Block>, k: Key): Block
    requires k in disk
  {
    if Holds(ents, ht, k) then ents[ht[k]].data else disk[k]
  }

  // ---- flushing

  /** What one write of the entry puts on the device, and the entry afterwards. */
  function Outgoing(e: Ent): Block {
    if e.clone.Some? then e.clone.value.data else e.data
  }

  function WrittenOnce(e: Ent): Ent {
    if e.clone.Some? then e.(clone := None) else e.(dirty := false)
  }

  /** The entry and its block once there is nothing left that may be flushed. */
  function Settled(e: Ent): Ent {
    e.(clone := None, dirty := e.dirty && e.lock > 0)
  }

  function SettledBlock(e: Ent, d: Block): Block {
    if e.dirty && e.lock == 0 then e.data else if e.clone.Some? then e.clone.value.data else d
  }

  /** From (e0, d0), nothing is written yet, or the clone is, or all is settled. */
  predicate Partway(e0: Ent, d0: Block, e: Ent, d: Block) {
    || (e == e0 && d == d0)
    || (e == e0.(clone := None) && d == if e0.clone.Some? then e0.clone.value.data else d0)
    || (e == Settled(e0) && d == SettledBlock(e0, d0))
  }

  /** May the flusher write the entry at all? */
  predicate MayWrite(e: Ent) {
    e.clone.Some? || e.lock == 0
  }

  /** Another write of an entry never leaves the way from (e0, d0) to its settled state. */
  lemma StillPartway(e0: Ent, d0: Block, e: Ent, d: Block, pinned: bool)
    requires Partway(e0, d0, e, d) && MayWrite(e) && Backed(e, d, pinned) && (pinned ==> e.lock > 0)
    ensures Partway(e0, d0, WrittenOnce(e), Outgoing(e))
    ensures Backed(WrittenOnce(e), Outgoing(e), pinned)
  {
  }

  lemma PartwayDone(e0: Ent, d0: Block, e: Ent, d: Block)
    requires Partway(e0, d0, e, d) && e.clone == None && !(e.dirty && e.lock == 0)
    ensures e == Settled(e0) && d == SettledBlock(e0, d0)
  {
  }

  /** The entries of batch are on their way from (ents0, disk0) to their settled state, the others untouched. */
  ghost predicate Flushing(ents0: map<Ptr, Ent>, disk0: map<Key, Block>, ht: map<Key, Ptr>, batch: seq<Ptr>,
                           ents: map<Ptr, Ent>, disk: map<Key, Block>)
  {
    && ents.Keys == ents0.Keys && disk.Keys == disk0.Keys
    && (forall p :: p in ents0 ==> ents0[p].key in disk0)
    && (forall p :: p in ents0 && p in batch ==>
          Partway(ents0[p], disk0[ents0[p].key], ents[p], disk[ents0[p].key]))
    && (forall p :: p in ents0 && p !in batch ==> ents[p] == ents0[p] && disk[ents0[p].key] == disk0[ents0[p].key])
    && (forall k :: k in disk0 && !Holds(ents0, ht, k) ==> disk[k] == disk0[k])
  }

  /** Writing once each entry of part, all of them of batch, keeps them on their way. */
  lemma WriteSome(ents0: map<Ptr, Ent>, disk0: map<Key, Block>, ht: map<Key, Ptr>, touched: set<Key>, batch: seq<Ptr>,
                  ents: map<Ptr, Ent>, disk: map<Key, Block>, part: seq<Ptr>,
                  ents': map<Ptr, Ent>, disk': map<Key, Block>)
    requires Flushing(ents0, disk0, ht, batch, ents, disk)
    requires Indexed(ents, ht, disk) && Kept(ents, disk, touched, {})
    requires forall p :: p in part ==> p in batch && p in ents && MayWrite(ents[p])
    requires WroteSome(ents, disk, ht, part, ents', disk')
    ensures Flushing(ents0, disk0, ht, batch, ents', disk')
  {
    hide Partway, Outgoing, WrittenOnce, Backed, MayWrite, Kept;
    SameKeys(ents0, disk0, ht, batch, ents, disk);
    forall p | p in ents0 && p in part
      ensures Partway(ents0[p], disk0[ents0[p].key], ents'[p], disk'[ents0[p].key])
    {
      WritePartway(ents0[p], disk0[ents0[p].key], ents, disk, touched, p);
    }
    forall k | k in disk0 && !Holds(ents0, ht, k) ensures disk'[k] == disk0[k] {
      assert !Holds(ents, ht, k);
    }
  }

  lemma WritePartway(e0: Ent, d0: Block, ents: map<Ptr, Ent>, disk: map<Key, Block>, touched: set<Key>, p: Ptr)
    requires forall p :: p in ents ==> ents[p].key in disk
    requires Kept(ents, disk, touched, {}) && p in ents && MayWrite(ents[p])
    requires Partway(e0, d0, ents[p], disk[ents[p].key])
    ensures Partway(e0, d0, WrittenOnce(ents[p]), Outgoing(ents[p]))
  {
    StillPartway(e0, d0, ents[p], disk[ents[p].key], ents[p].key in touched);
  }

  lemma SettleOne(ents0: map<Ptr, Ent>, disk0: map<Key, Block>, ht: map<Key, Ptr>, touched: set<Key>, batch: seq<Ptr>,
                  ents: map<Ptr, Ent>, disk: map<Key, Block>, p: Ptr,
                  ents': map<Ptr, Ent>, disk': map<Key, Block>)
    requires Flushing(ents0, disk0, ht, batch, ents, disk)
    requires Indexed(ents, ht, disk) && Kept(ents, disk, touched, {})
    requires p in batch && p in ents
    requires ents' == ents[p := Settled(ents[p])]
    requires disk' == disk[ents[p].key := SettledBlock(ents[p], disk[ents[p].key])]
    ensures Flushing(ents0, disk0, ht, batch, ents', disk')
  {
    hide Partway, Settled, SettledBlock, Backed, MayWrite, Kept;
    SameKeys(ents0, disk0, ht, batch, ents, disk);
    SettlePartway(ents0[p], disk0[ents0[p].key], ents, disk, touched, p);
    forall k | k in disk0 && !Holds(ents0, ht, k) ensures disk'[k] == disk0[k] {
      assert !Holds(ents, ht, k);
    }
  }

  lemma SettlePartway(e0: Ent, d0: Block, ents: map<Ptr, Ent>, disk: map<Key, Block>, touched: set<Key>, p: Ptr)
    requires forall p :: p in ents ==> ents[p].key in disk
    requires Kept(ents, disk, touched, {}) && p in ents
    requires Partway(e0, d0, ents[p], disk[ents[p].key])
    ensures Partway(e0, d0, Settled(ents[p]), SettledBlock(ents[p], disk[ents[p].key]))
    ensures Settled(ents[p]).key == ents[p].key
  {
    assert Backed(ents[p], disk[ents[p].key], ents[p].key in touched);
  }

  /** A pass of the flusher leaves no clone behind, and no dirty data either where there was no clone before. */
  predicate Passed(before: Ent, after: Ent) {
    after.clone == None && (before.clone == None ==> !(after.dirty && after.lock == 0))
  }

  lemma FlushingDone(ents0: map<Ptr, Ent>, disk0: map<Key, Block>, ht: map<Key, Ptr>, batch: seq<Ptr>,
                     ents: map<Ptr, Ent>, disk: map<Key, Block>)
    requires Flushing(ents0, disk0, ht, batch, ents, disk)
    requires forall p :: p in ents && p in batch ==> ents[p].clone == None && !(ents[p].dirty && ents[p].lock == 0)
    ensures AllSettled(ents0, disk0, ht, Elems(batch), ents, disk)
  {
    hide Partway, Settled, SettledBlock;
    forall p | p in ents0 && p in batch
      ensures ents[p] == Settled(ents0[p]) && disk[ents0[p].key] == SettledBlock(ents0[p], disk0[ents0[p].key])
    {
      PartwayDone(ents0[p], disk0[ents0[p].key], ents[p], disk[ents0[p].key]);
    }
  }

  lemma FlushingStarts(ents: map<Ptr, Ent>, disk: map<Key, Block>, ht: map<Key, Ptr>, batch: seq<Ptr>)
    requires Indexed(ents, ht, disk)
    ensures Flushing(ents, disk, ht, batch, ents, disk)
  {
  }

  lemma SameKeys(ents0: map<Ptr, Ent>, disk0: map<Key, Block>, ht: map<Key, Ptr>, batch: seq<Ptr>,
                 ents: map<Ptr, Ent>, disk: map<Key, Block>)
    requires Flushing(ents0, disk0, ht, batch, ents, disk)
    ensures forall p :: p in ents0 ==> ents[p].key == ents0[p].key
    ensures forall k :: Holds(ents, ht, k) == Holds(ents0, ht, k)
  {
    forall p | p in ents0 ensures ents[p].key == ents0[p].key {
      assert p in batch || p !in batch;
    }
  }

  /** Exactly the entries of part are written once. */
  ghost predicate WroteSome(ents: map<Ptr, Ent>, disk: map<Key, Block>, ht: map<Key, Ptr>, part: seq<Ptr>,
                            ents': map<Ptr, Ent>, disk': map<Key, Block>)
  {
    && ents'.Keys == ents.Keys && disk'.Keys == disk.Keys
    && (forall p :: p in ents ==> ents[p].key in disk)
    && (forall p :: p in ents && p in part ==>
          ents'[p] == WrittenOnce(ents[p]) && disk'[ents[p].key] == Outgoing(ents[p]))
    && (forall p :: p in ents && p !in part ==> ents'[p] == ents[p] && disk'[ents[p].key] == disk[ents[p].key])
    && (forall k :: k in disk && !Holds(ents, ht, k) ==> disk'[k] == disk[k])
  }

  /** Exactly the entries of batch went from (ents0, disk0) to their settled state. */
  ghost predicate AllSettled(ents0: map<Ptr, Ent>, disk0: map<Key, Block>, ht: map<Key, Ptr>, batch: set<Ptr>,
                             ents: map<Ptr, Ent>, disk: map<Key, Block>)
  {
    && ents.Keys == ents0.Keys && disk.Keys == disk0.Keys
    && (forall p :: p in ents0 ==> ents0[p].key in disk0)
    && (forall p :: p in ents0 && p in batch ==>
          ents[p] == Settled(ents0[p]) && disk[ents0[p].key] == SettledBlock(ents0[p], disk0[ents0[p].key]))
    && (forall p :: p in ents0 && p !in batch ==> ents[p] == ents0[p] && disk[ents0[p].key] == disk0[ents0[p].key])
    && (forall k :: k in disk0 && !Holds(ents0, ht, k) ==> disk[k] == disk0[k])
  }

  /** Flushing changes no block as clients see it, and neither keys nor locks. */
  lemma FlushUnseen(ents0: map<Ptr, Ent>, disk0: map<Key, Block>, ht: map<Key, Ptr>, batch: set<Ptr>,
                    ents: map<Ptr, Ent>, disk: map<Key, Block>)
    requires AllSettled(ents0, disk0, ht, batch, ents, disk)
    ensures forall p :: p in ents0 ==> ents[p].key == ents0[p].key && ents[p].lock == ents0[p].lock
    ensures forall k :: Holds(ents, ht, k) == Holds(ents0, ht, k)
    ensures forall k :: k in disk0 ==> Seen(ents, ht, disk, k) == Seen(ents0, ht, disk0, k)
  {
    forall p | p in ents0
      ensures ents[p].key == ents0[p].key && ents[p].lock == ents0[p].lock && ents[p].data == ents0[p].data
    {
      assert p in batch || p !in batch;
    }
  }

  /** Flushing one set of entries and then another is flushing both. */
  lemma SettledBoth(ents0: map<Ptr, Ent>, disk0: map<Key, Block>, ht: map<Key, Ptr>, first: set<Ptr>,
                    ents: map<Ptr, Ent>, disk: map<Key, Block>, second: set<Ptr>,
                    ents': map<Ptr, Ent>, disk': map<Key, Block>)
    requires AllSettled(ents0, disk0, ht, first, ents, disk)
    requires AllSettled(ents, disk, ht, second, ents', disk')
    ensures AllSettled(ents0, disk0, ht, first + second, ents', disk')
  {
    FlushUnseen(ents0, disk0, ht, first, ents, disk);
  }

  /** An entry there is nothing to flush of may be counted as flushed. */
  lemma SettledAlready(ents0: map<Ptr, Ent>, disk0: map<Key, Block>, ht: map<Key, Ptr>, first: set<Ptr>,
                       ents: map<Ptr, Ent>, disk: map<Key, Block>, all: set<Ptr>)
    requires AllSettled(ents0, disk0, ht, first, ents, disk) && first <= all
    requires forall p :: p in all && p in ents ==> !((ents[p].dirty || ents[p].clone.Some?) && MayWrite(ents[p]))
    ensures AllSettled(ents0, disk0, ht, all, ents, disk)
  {
    hide Holds;
    forall p | p in ents0 && p in all
      ensures ents[p] == Settled(ents0[p]) && disk[ents0[p].key] == SettledBlock(ents0[p], disk0[ents0[p].key])
    {
      if p !in first {
        assert ents[p] == ents0[p] && ents[p].clone == None;
      }
    }
  }

  lemma SettledNone(ents: map<Ptr, Ent>, disk: map<Key, Block>, ht: map<Key, Ptr>, log: seq<Event>, nextSnap: nat, lawful: bool,
                    touched: set<Key>)
    requires Sane(ents, ht, disk, log, nextSnap, lawful, touched, {})
    ensures AllSettled(ents, disk, ht, {}, ents, disk)
  {
    hide Journaled, Kept;
  }

  lemma SettledClean(ents0: map<Ptr, Ent>, disk0: map<Key, Block>, ht: map<Key, Ptr>, batch: set<Ptr>,
                     ents: map<Ptr, Ent>, disk: map<Key, Block>)
    requires AllSettled(ents0, disk0, ht, batch, ents, disk)
    ensures ents.Keys == ents0.Keys && disk.Keys == disk0.Keys
    ensures forall p :: p in ents ==> ents[p].key == ents0[p].key && ents[p].lock == ents0[p].lock
    ensures forall p :: p in ents && p !in batch ==> ents[p] == ents0[p]
    ensures forall p :: p in ents && ents[p].lock > 0 ==> ents[p].dirty == ents0[p].dirty
    ensures forall p :: p in ents && p in batch ==> !((ents[p].dirty || ents[p].clone.Some?) && MayWrite(ents[p]))
  {
    forall p | p in ents ensures ents[p].key == ents0[p].key && ents[p].lock == ents0[p].lock {
      assert p in batch || p !in batch;
    }
  }

  /** Once all entries of a device are settled, the device has its unlocked blocks as clients see them, and of the
      locked ones the snapshots. */
  lemma DeviceSettled(ents0: map<Ptr, Ent>, disk0: map<Key, Block>, ht: map<Key, Ptr>, batch: set<Ptr>, dev: int,
                      ents: map<Ptr, Ent>, disk: map<Key, Block>, touched: set<Key>)
    requires AllSettled(ents0, disk0, ht, batch, ents, disk) && Indexed(ents, ht, disk) && Kept(ents, disk, touched, {})
    requires forall p :: p in batch <==> p in ents0 && ents0[p].key.dev == dev
    ensures forall k :: k in disk && k.dev == dev && !(Holds(ents, ht, k) && ents[ht[k]].lock > 0) ==>
      disk[k] == Seen(ents, ht, disk, k)
    ensures forall k :: k in disk && k.dev == dev && Holds(ents, ht, k) && ents[ht[k]].lock > 0 ==>
      disk[k] == if ents0[ht[k]].clone.Some? then ents0[ht[k]].clone.value.data else disk0[k]
    ensures forall p :: p in ents && ents[p].key.dev == dev ==> ents[p].clone == None && (ents[p].dirty ==> ents[p].lock > 0)
    ensures forall k :: k in disk && k.dev != dev ==> disk[k] == disk0[k]
  {
    SettledClean(ents0, disk0, ht, batch, ents, disk);
    FlushUnseen(ents0, disk0, ht, batch, ents, disk);
    forall k | k in disk && Holds(ents, ht, k) && k.dev == dev
      ensures ht[k] in batch
      ensures ents[ht[k]].lock == 0 ==> disk[k] == ents[ht[k]].data
    {
      assert Holds(ents0, ht, k);
      assert Backed(ents[ht[k]], disk[k], k in touched);
    }
    forall k | k in disk && k.dev != dev ensures disk[k] == disk0[k] {
      if Holds(ents0, ht, k) { assert ht[k] !in batch; }
    }
  }

  // ---- the two lists

  /** The entries are on two lists by lock count, but for those in held, which are being reused. */
  ghost predicate Listed(ents: map<Ptr, Ent>, normal: seq<Ptr>, locked: seq<Ptr>, held: set<Ptr>, nextPtr: nat) {
    && Distinct(normal) && Distinct(locked)
    && (forall p :: p in normal ==> p in ents && ents[p].lock == 0 && p !in held)
    && (forall p :: p in locked ==> p in ents && ents[p].lock > 0 && p !in held)
    && (forall p :: p in ents ==> if ents[p].lock > 0 then p in locked else p in normal || p in held)
    && (forall p :: p in ents || p in held ==> p < nextPtr)
  }

  /** The hash table holds the entries' blocks and the blocks some held entries are reserved for, nothing else. */
  ghost predicate Tabled(ents: map<Ptr, Ent>, ht: map<Key, Ptr>, disk: map<Key, Block>, reserved: map<Key, Ptr>) {
    && (forall k :: k in ht ==> Holds(ents, ht, k) || (k in reserved && reserved[k] == ht[k]))
    && (forall k :: k in reserved ==> k in ht && ht[k] == reserved[k] && !Holds(ents, ht, k) && k in disk)
    && (forall k, l :: k in reserved && l in reserved && reserved[k] == reserved[l] ==> k == l)
  }

  // ---- changing one entry

  /** The entry may change in anything but its key and clone, if it stays backed. */
  lemma ChangeEnt(ents: map<Ptr, Ent>, ht: map<Key, Ptr>, disk: map<Key, Block>, log: seq<Event>,
                  nextSnap: nat, lawful: bool, touched: set<Key>, p: Ptr, e: Ent, touched': set<Key>)
    requires Sane(ents, ht, disk, log, nextSnap, lawful, touched, {})
    requires p in ents && e.key == ents[p].key && e.clone == ents[p].clone
    requires forall k :: k != e.key ==> (k in touched' <==> k in touched)
    requires Backed(e, disk[e.key], e.key in touched') && (e.key in touched' ==> e.lock > 0)
    ensures Sane(ents[p := e], ht, disk, log, nextSnap, lawful, touched', {})
    ensures Holds(ents[p := e], ht, e.key)
  {
    hide PhaseOf, Legal;
  }

  /** When a block's last pin goes, all is in order just if the device has its bytes, or its entry is marked so that
      it will get them. */
  lemma ReleaseSane(ents: map<Ptr, Ent>, ht: map<Key, Ptr>, disk: map<Key, Block>, log: seq<Event>,
                    nextSnap: nat, lawful: bool, touched: set<Key>, p: Ptr, e: Ent)
    requires Sane(ents, ht, disk, log, nextSnap, lawful, touched, {}) && p in ents && e == ents[p].(lock := 0)
    ensures Sane(ents[p := e], ht, disk, log, nextSnap, lawful, touched - {e.key}, {}) <==> Backed(e, disk[e.key], false)
    ensures Holds(ents[p := e], ht, e.key)
  {
    if Backed(e, disk[e.key], false) {
      ChangeEnt(ents, ht, disk, log, nextSnap, lawful, touched, p, e, touched - {e.key});
    } else if Sane(ents[p := e], ht, disk, log, nextSnap, lawful, touched - {e.key}, {}) {
      ReleaseKept(ents, disk, touched, p, e);
    }
    hide Kept, Journaled, Backed;
  }

  lemma ReleaseKept(ents: map<Ptr, Ent>, disk: map<Key, Block>, touched: set<Key>, p: Ptr, e: Ent)
    requires (forall q :: q in ents ==> ents[q].key in disk) && p in ents && e.key == ents[p].key
    requires Kept(ents[p := e], disk, touched - {e.key}, {})
    ensures Backed(e, disk[e.key], false)
  {
    assert ents[p := e][p] == e;
  }

  /** Taking a snapshot of an entry without a clone is in order. */
  lemma SnapInOrder(ents: map<Ptr, Ent>, ht: map<Key, Ptr>, disk: map<Key, Block>, log: seq<Event>,
                    nextSnap: nat, lawful: bool, p: Ptr, e: Ent)
    requires Indexed(ents, ht, disk) && Journaled(ents, ht, log, nextSnap, lawful, {})
    requires p in ents && e.key == ents[p].key && ents[p].clone == None && e.clone == Some(Clone(e.data, nextSnap))
    ensures Journaled(ents[p := e], ht, log + [Snapped(e.key, e.data, nextSnap)], nextSnap + 1, lawful, {})
  {
    hide PhaseOf, Legal;
    LegalExtend(log, Snapped(e.key, e.data, nextSnap));
    assert MayFollow(log, Snapped(e.key, e.data, nextSnap));
  }

  /** Moving an entry to the head of the list it now belongs on. */
  lemma Relist(ents: map<Ptr, Ent>, normal: seq<Ptr>, locked: seq<Ptr>, held: set<Ptr>, nextPtr: nat, p: Ptr, e: Ent)
    returns (normal': seq<Ptr>, locked': seq<Ptr>)
    requires Listed(ents, normal, locked, held, nextPtr) && p in ents && p !in held
    ensures normal' == if e.lock == 0 then Without(normal, p) + [p] else Without(normal, p)
    ensures locked' == if e.lock > 0 then Without(locked, p) + [p] else Without(locked, p)
    ensures Listed(ents[p := e], normal', locked', held, nextPtr)
    ensures |normal'| + |locked'| == |normal| + |locked|
    ensures |locked'| == |locked| - (if ents[p].lock > 0 then 1 else 0) + (if e.lock > 0 then 1 else 0)
  {
    hide Distinct, Without;
    WithoutElems(normal, p);
    WithoutElems(locked, p);
    DistinctJoin(p, Without(normal, p));
    DistinctJoin(p, Without(locked, p));
    normal' := if e.lock == 0 then Without(normal, p) + [p] else Without(normal, p);
    locked' := if e.lock > 0 then Without(locked, p) + [p] else Without(locked, p);
  }

  /** The hash table does not care what an entry holds besides its key. */
  lemma TabledStill(ents: map<Ptr, Ent>, ht: map<Key, Ptr>, disk: map<Key, Block>, reserved: map<Key, Ptr>,
                    p: Ptr, e: Ent)
    requires Tabled(ents, ht, disk, reserved) && p in ents && e.key == ents[p].key
    ensures Tabled(ents[p := e], ht, disk, reserved)
    ensures forall k :: Holds(ents[p := e], ht, k) == Holds(ents, ht, k)
    ensures forall k :: k in disk ==>
      Seen(ents[p := e], ht, disk, k) ==
      if Holds(ents, ht, k) && ht[k] == p then e.data else Seen(ents, ht, disk, k)
  {
  }

  lemma SnapKept(ents: map<Ptr, Ent>, ht: map<Key, Ptr>, disk: map<Key, Block>, touched: set<Key>, p: Ptr, e: Ent)
    requires Indexed(ents, ht, disk) && Kept(ents, disk, touched, {})
    requires p in ents && e.key == ents[p].key && e.clone.Some? && e.clone.value.data == e.data
    ensures Indexed(ents[p := e], ht, disk) && Kept(ents[p := e], disk, touched - {e.key}, {})
  {
  }

  /** What settling does to a set of locked, dirty entries. */
  lemma LockedSettled(ents0: map<Ptr, Ent>, disk0: map<Key, Block>, ht: map<Key, Ptr>, batch: set<Ptr>,
                      ents: map<Ptr, Ent>, disk: map<Key, Block>, touched: set<Key>)
    requires AllSettled(ents0, disk0, ht, batch, ents, disk)
    requires forall p :: p in batch ==> p in ents0 && ents0[p].lock > 0 && ents0[p].dirty
    ensures forall p :: p in ents ==> ents[p] == if p in batch then ents0[p].(clone := None) else ents0[p]
    ensures forall k :: k in disk && Holds(ents0, ht, k) && ht[k] in batch && ents0[ht[k]].clone.Some? ==>
      disk[k] == ents0[ht[k]].clone.value.data
    ensures forall k :: k in disk && !(Holds(ents0, ht, k) && ht[k] in batch && ents0[ht[k]].clone.Some?) ==>
      disk[k] == disk0[k]
  {
    forall p | p in ents ensures ents[p] == if p in batch then ents0[p].(clone := None) else ents0[p] {
      assert p in batch || p !in batch;
    }
    forall k | k in disk && !(Holds(ents0, ht, k) && ht[k] in batch && ents0[ht[k]].clone.Some?)
      ensures disk[k] == disk0[k]
    {
      assert Holds(ents0, ht, k) ==> ht[k] in ents0 && (ht[k] in batch || ht[k] !in batch);
    }
  }

  // ---- set_blocks_info

  function Snapshotted(e: Ent, id: nat): Ent
    requires e.lock > 0
  {
    Ent(e.key, false, e.data, Some(Clone(e.data, id)), e.lock - 1)
  }

  function EntsOf(ht: map<Key, Ptr>, dev: int, blocks: seq<int>): seq<Ptr>
    requires forall b :: b in blocks ==> Key(dev, b) in ht
  {
    seq(|blocks|, i requires 0 <= i < |blocks| => ht[Key(dev, blocks[i])])
  }

  /** What set_blocks_info demands: each block cached, locked and dirty, and named once. */
  ghost predicate Ready(ents: map<Ptr, Ent>, ht: map<Key, Ptr>, dev: int, blocks: seq<int>) {
    && (forall i, j :: 0 <= i < j < |blocks| ==> blocks[i] != blocks[j])
    && (forall b :: b in blocks ==> Holds(ents, ht, Key(dev, b)) && ents[ht[Key(dev, b)]].lock > 0 && ents[ht[Key(dev, b)]].dirty)
  }

  /** list has the entries of the blocks. */
  ghost predicate AreFor(ents: map<Ptr, Ent>, list: seq<Ptr>, dev: int, blocks: seq<int>) {
    && Distinct(list) && |list| == |blocks|
    && forall i :: 0 <= i < |list| ==> list[i] in ents && ents[list[i]].key == Key(dev, blocks[i]) && ents[list[i]].lock > 0
  }

  lemma ReadyEnts(ents: map<Ptr, Ent>, ht: map<Key, Ptr>, dev: int, blocks: seq<int>)
    requires Ready(ents, ht, dev, blocks)
    ensures forall b :: b in blocks ==> Key(dev, b) in ht
    ensures AreFor(ents, EntsOf(ht, dev, blocks), dev, blocks)
    ensures forall p :: p in Elems(EntsOf(ht, dev, blocks)) ==> p in ents && ents[p].dirty && ents[p].lock > 0
  {
    var list := EntsOf(ht, dev, blocks);
    forall i | 0 <= i < |list|
      ensures Holds(ents, ht, Key(dev, blocks[i])) && ents[list[i]].dirty && ents[list[i]].lock > 0
    {
      assert blocks[i] in blocks;
    }
    forall i, j | 0 <= i < j < |list| ensures list[i] != list[j] {
      assert ents[list[i]].key != ents[list[j]].key;
    }
  }

  /** Exactly the entries of list have a new clone and one pin less. */
  ghost predicate AllSnapped(ents0: map<Ptr, Ent>, list: seq<Ptr>, firstId: nat, ents: map<Ptr, Ent>) {
    && ents.Keys == ents0.Keys
    && (forall i :: 0 <= i < |list| ==> list[i] in ents0 && ents0[list[i]].lock > 0)
    && (forall i :: 0 <= i < |list| ==> ents[list[i]] == Snapshotted(ents0[list[i]], firstId + i))
    && (forall p :: p in ents && p !in list ==> ents[p] == ents0[p])
  }

  /** The outcome: pending clones are on the device, and each block has a new clone of what it holds and one pin
      less. */
  ghost predicate Frozen(ents0: map<Ptr, Ent>, disk0: map<Key, Block>, list: seq<Ptr>, firstId: nat,
                         ents: map<Ptr, Ent>, disk: map<Key, Block>)
  {
    && ents.Keys == ents0.Keys && disk.Keys == disk0.Keys
    && (forall i :: 0 <= i < |list| ==> list[i] in ents0 && ents0[list[i]].lock > 0)
    && (forall i :: 0 <= i < |list| ==>
          var e := ents0[list[i]]; ents[list[i]] == Ent(e.key, false, e.data, Some(Clone(e.data, firstId + i)), e.lock - 1))
    && (forall p :: p in ents && p !in list ==> ents[p] == ents0[p])
    && (forall i :: 0 <= i < |list| && ents0[list[i]].key in disk ==>
          disk[ents0[list[i]].key] ==
          if ents0[list[i]].clone.Some? then ents0[list[i]].clone.value.data else disk0[ents0[list[i]].key])
    && (forall k :: k in disk && (forall i :: 0 <= i < |list| ==> ents0[list[i]].key != k) ==> disk[k] == disk0[k])
  }

  /** Taking snapshots changes no block as clients see it, and only the pins of the blocks given. */
  lemma FrozenUnseen(ents0: map<Ptr, Ent>, disk0: map<Key, Block>, ht: map<Key, Ptr>, dev: int, blocks: seq<int>,
                     list: seq<Ptr>, firstId: nat, ents: map<Ptr, Ent>, disk: map<Key, Block>)
    requires Frozen(ents0, disk0, list, firstId, ents, disk) && AreFor(ents0, list, dev, blocks)
    requires forall k :: k in ht ==> Holds(ents0, ht, k)
    requires Lead(ht, dev, blocks, list)
    ensures forall k :: k in disk ==> Seen(ents, ht, disk, k) == Seen(ents0, ht, disk0, k)
    ensures forall k :: Holds(ents, ht, k) <==> Holds(ents0, ht, k)
    ensures forall k :: Holds(ents, ht, k) ==>
      ents[ht[k]].lock == ents0[ht[k]].lock - (if k.dev == dev && k.bnum in blocks then 1 else 0)
  {
    forall p | p in ents
      ensures ents[p].key == ents0[p].key && ents[p].data == ents0[p].data
      ensures ents[p].lock == ents0[p].lock - (if p in list then 1 else 0)
    {
      if p in list { var i :| 0 <= i < |list| && list[i] == p; }
    }
    forall k | k in ht ensures ht[k] in list <==> k.dev == dev && k.bnum in blocks {
      if ht[k] in list { var i :| 0 <= i < |list| && list[i] == ht[k]; }
      if k.dev == dev && k.bnum in blocks { var i :| 0 <= i < |blocks| && blocks[i] == k.bnum; }
    }
    forall k | k in disk && k !in ht ensures disk[k] == disk0[k] {
    }
  }

  lemma ForSettled(ents0: map<Ptr, Ent>, disk0: map<Key, Block>, ht: map<Key, Ptr>, dev: int, blocks: seq<int>,
                   list: seq<Ptr>, ents: map<Ptr, Ent>, disk: map<Key, Block>)
    requires AreFor(ents0, list, dev, blocks) && AllSettled(ents0, disk0, ht, Elems(list), ents, disk)
    ensures AreFor(ents, list, dev, blocks) && Cloneless(ents, list)
  {
  }

  ghost predicate Cloneless(ents: map<Ptr, Ent>, list: seq<Ptr>) {
    forall p :: p in list ==> p in ents && ents[p].clone == None
  }

  ghost predicate Lead(ht: map<Key, Ptr>, dev: int, blocks: seq<int>, list: seq<Ptr>) {
    |list| == |blocks| && forall i :: 0 <= i < |list| ==> Key(dev, blocks[i]) in ht && ht[Key(dev, blocks[i])] == list[i]
  }

  lemma Freeze(ents0: map<Ptr, Ent>, disk0: map<Key, Block>, ht: map<Key, Ptr>, dev: int, blocks: seq<int>,
               list: seq<Ptr>, firstId: nat, ents1: map<Ptr, Ent>, ents: map<Ptr, Ent>, disk: map<Key, Block>)
    requires AreFor(ents0, list, dev, blocks) && AllSettled(ents0, disk0, ht, Elems(list), ents1, disk)
    requires Indexed(ents0, ht, disk0)
    requires AllSnapped(ents1, list, firstId, ents)
    ensures Frozen(ents0, disk0, list, firstId, ents, disk)
  {
    forall i | 0 <= i < |list|
      ensures ents1[list[i]] == Settled(ents0[list[i]])
      ensures disk[ents0[list[i]].key] == SettledBlock(ents0[list[i]], disk0[ents0[list[i]].key])
    {
      assert list[i] in Elems(list);
    }
    forall k | k in disk && (forall i :: 0 <= i < |list| ==> ents0[list[i]].key != k) ensures disk[k] == disk0[k] {
      if Holds(ents0, ht, k) { assert ht[k] !in list; }
    }
  }

  /** Clients see nothing but one pin less on each of the blocks. */
  ghost predicate OnlyUnpinned(ents0: map<Ptr, Ent>, disk0: map<Key, Block>, ht: map<Key, Ptr>, dev: int,
                               blocks: seq<int>, ents: map<Ptr, Ent>, disk: map<Key, Block>)
  {
    && disk.Keys == disk0.Keys
    && (forall k :: k in disk ==> Seen(ents, ht, disk, k) == Seen(ents0, ht, disk0, k))
    && (forall k :: Holds(ents, ht, k) <==> Holds(ents0, ht, k))
    && (forall k :: Holds(ents, ht, k) ==>
          ents[ht[k]].lock == ents0[ht[k]].lock - (if k.dev == dev && k.bnum in blocks then 1 else 0))
  }

  lemma FreezeUnseen(ents0: map<Ptr, Ent>, disk0: map<Key, Block>, ht: map<Key, Ptr>, dev: int, blocks: seq<int>,
                     list: seq<Ptr>, firstId: nat, ents1: map<Ptr, Ent>, ents: map<Ptr, Ent>, disk: map<Key, Block>)
    requires AreFor(ents0, list, dev, blocks) && AllSettled(ents0, disk0, ht, Elems(list), ents1, disk)
    requires Indexed(ents0, ht, disk0) && forall k :: k in ht ==> Holds(ents0, ht, k)
    requires Lead(ht, dev, blocks, list)
    requires AllSnapped(ents1, list, firstId, ents)
    ensures Frozen(ents0, disk0, list, firstId, ents, disk)
    ensures OnlyUnpinned(ents0, disk0, ht, dev, blocks, ents, disk)
  {
    Freeze(ents0, disk0, ht, dev, blocks, list, firstId, ents1, ents, disk);
    FrozenUnseen(ents0, disk0, ht, dev, blocks, list, firstId, ents, disk);
  }

  // ---- reusing an entry for another block

  /** A block may be promised to an entry that does not hold it yet. */
  lemma ReserveSane(ents: map<Ptr, Ent>, ht: map<Key, Ptr>, disk: map<Key, Block>, log: seq<Event>,
                    nextSnap: nat, lawful: bool, touched: set<Key>, reserved: map<Key, Ptr>, p: Ptr, k: Key)
    requires Sane(ents, ht, disk, log, nextSnap, lawful, touched, {}) && Tabled(ents, ht, disk, reserved)
    requires k !in ht && k in disk && forall l :: l in reserved ==> reserved[l] != p
    ensures Sane(ents, ht[k := p], disk, log, nextSnap, lawful, touched, {})
    ensures Tabled(ents, ht[k := p], disk, reserved[k := p])
    ensures forall l :: Holds(ents, ht[k := p], l) == Holds(ents, ht, l)
  {
    hide PhaseOf, Legal, Kept;
  }

  /** A settled, unlocked entry may give up its block: the device has it. */
  lemma DropSane(ents: map<Ptr, Ent>, ht: map<Key, Ptr>, disk: map<Key, Block>, log: seq<Event>,
                 nextSnap: nat, lawful: bool, touched: set<Key>, reserved: map<Key, Ptr>, p: Ptr)
    requires Sane(ents, ht, disk, log, nextSnap, lawful, touched, {}) && Tabled(ents, ht, disk, reserved)
    requires p in ents && ents[p].lock == 0 && !ents[p].dirty && ents[p].clone == None
    ensures Sane(ents - {p}, ht - {ents[p].key}, disk, log, nextSnap, lawful, touched, {})
    ensures Tabled(ents - {p}, ht - {ents[p].key}, disk, reserved)
    ensures ents[p].key in disk && ents[p].data == disk[ents[p].key] && ents[p].key !in touched
    ensures forall l :: Holds(ents - {p}, ht - {ents[p].key}, l) <==> Holds(ents, ht, l) && l != ents[p].key
    ensures Holds(ents, ht, ents[p].key) && ht[ents[p].key] == p
  {
    hide PhaseOf, Legal;
    assert Backed(ents[p], disk[ents[p].key], ents[p].key in touched);
  }

  lemma AdoptJournaled(ents: map<Ptr, Ent>, ht: map<Key, Ptr>, log: seq<Event>, nextSnap: nat, lawful: bool, p: Ptr, e: Ent)
    requires Journaled(ents, ht, log, nextSnap, lawful, {})
    requires p !in ents && e.key in ht && ht[e.key] == p && e.clone == None
    requires forall l :: Holds(ents, ht, l) ==> Holds(ents[p := e], ht, l)
    ensures Journaled(ents[p := e], ht, log, nextSnap, lawful, {})
  {
    hide PhaseOf, Legal;
    assert !Holds(ents, ht, e.key);
  }

  lemma AdoptTabled(ents: map<Ptr, Ent>, ht: map<Key, Ptr>, disk: map<Key, Block>, reserved: map<Key, Ptr>, p: Ptr, e: Ent)
    requires Tabled(ents, ht, disk, reserved)
    requires p !in ents && e.key in reserved && reserved[e.key] == p
    ensures Tabled(ents[p := e], ht, disk, reserved - {e.key})
    ensures forall l :: Holds(ents[p := e], ht, l) <==> Holds(ents, ht, l) || l == e.key
    ensures !Holds(ents, ht, e.key) && e.key in ht && ht[e.key] == p && e.key in disk
    ensures forall l :: Holds(ents, ht, l) ==> ht[l] != p
  {
  }

  /** An entry without a block may take the block promised to it. */
  lemma AdoptSane(ents: map<Ptr, Ent>, ht: map<Key, Ptr>, disk: map<Key, Block>, log: seq<Event>,
                  nextSnap: nat, lawful: bool, touched: set<Key>, reserved: map<Key, Ptr>, p: Ptr, e: Ent)
    requires Sane(ents, ht, disk, log, nextSnap, lawful, touched, {}) && Tabled(ents, ht, disk, reserved)
    requires p !in ents && e.key in reserved && reserved[e.key] == p && e.key !in touched
    requires e.clone == None && (e.dirty || (e.key in disk && e.data == disk[e.key]))
    ensures Sane(ents[p := e], ht, disk, log, nextSnap, lawful, touched, {})
    ensures Tabled(ents[p := e], ht, disk, reserved - {e.key})
    ensures forall l :: Holds(ents[p := e], ht, l) <==> Holds(ents, ht, l) || l == e.key
    ensures !Holds(ents, ht, e.key) && e.key in ht && ht[e.key] == p
    ensures forall l :: Holds(ents, ht, l) ==> ht[l] != p
  {
    hide Journaled, Tabled, Holds;
    AdoptTabled(ents, ht, disk, reserved, p, e);
    AdoptJournaled(ents, ht, log, nextSnap, lawful, p, e);
  }

  lemma AdoptListed(ents: map<Ptr, Ent>, normal: seq<Ptr>, locked: seq<Ptr>, held: set<Ptr>, nextPtr: nat, p: Ptr, e: Ent)
    requires Listed(ents, normal, locked, held, nextPtr) && p in held && p !in ents
    ensures Listed(ents[p := e], if e.lock > 0 then normal else normal + [p], if e.lock > 0 then locked + [p] else locked,
                   held - {p}, nextPtr)
  {
    DistinctJoin(p, normal);
    DistinctJoin(p, locked);
    hide Distinct;
  }

  /** Both hash tables lead to the same entries. */
  ghost predicate SameIndex(ents: map<Ptr, Ent>, ht: map<Key, Ptr>, ht': map<Key, Ptr>) {
    && (forall k :: Holds(ents, ht', k) <==> Holds(ents, ht, k))
    && (forall k :: Holds(ents, ht, k) ==> k in ht && k in ht' && ht'[k] == ht[k])
  }

  lemma SameIndexThen(ents: map<Ptr, Ent>, ht: map<Key, Ptr>, ht1: map<Key, Ptr>, ht2: map<Key, Ptr>)
    requires SameIndex(ents, ht, ht1) && (ht1 == ht2 || SameIndex(ents, ht1, ht2))
    ensures SameIndex(ents, ht, ht2)
  {
  }

  // ---- writing past the cache

  /** A block written to the device and to its entry, if any, in one go: in order unless the block is locked. */
  lemma WriteThroughSane(ents: map<Ptr, Ent>, ht: map<Key, Ptr>, disk: map<Key, Block>, log: seq<Event>,
                         nextSnap: nat, lawful: bool, touched: set<Key>, k: Key, d: Block, lock: nat,
                         ents': map<Ptr, Ent>)
    requires Sane(ents, ht, disk, log, nextSnap, lawful, touched, {}) && k in disk
    requires Holds(ents, ht, k) ==> ents[ht[k]].clone == None && lock == ents[ht[k]].lock
    requires !Holds(ents, ht, k) ==> lock == 0
    requires ents' == if Holds(ents, ht, k) then ents[ht[k] := ents[ht[k]].(data := d)] else ents
    ensures Sane(ents', ht, disk[k := d], log + [Wrote(k, d, None, lock)], nextSnap, lawful && lock == 0, touched, {})
  {
    hide PhaseOf, Legal;
    LegalExtend(log, Wrote(k, d, None, lock));
  }

  // ---- requests for blocks

  const LARGE_IO := 64 * 1024

  datatype Op = Read | Write | Noop

  function Zeros(bsize: nat): Block {
    seq(bsize, _ => 0)
  }

  /** The arguments of cache_block_io: data is what a write brings; lock and ahead stand for CACHE_LOCKED and
      CACHE_READ_AHEAD_OK. */
  datatype Request = Request(dev: int, bnum: int, num: nat, bsize: nat, op: Op, data: seq<Block>, lock: bool, ahead: bool)
  {
    predicate Valid() {
      num > 0 && bsize > 0 && bnum >= 0 && (op.Write? ==> |data| == num) && (ahead ==> bsize >= 512)
    }

    /** Block number i of the request. */
    function Block(i: nat): Key {
      Key(dev, bnum + i)
    }

    predicate Covers(hi: nat, k: Key) {
      k.dev == dev && bnum <= k.bnum < bnum + hi
    }

    /** Done past the cache. */
    predicate Large() {
      num * bsize >= LARGE_IO
    }

    /** Within the device, as init_cache_for_device was told its size? */
    predicate Fits(sizes: map<int, nat>) {
      dev in sizes && bnum + num <= sizes[dev]
    }

    ghost predicate OnDisk(disk: map<Key, Block>) {
      forall k :: Covers(num, k) ==> k in disk
    }

    ghost predicate LargeWrite(disk: map<Key, Block>) {
      Valid() && op.Write? && !lock && OnDisk(disk)
    }

    ghost predicate Unpinned(s: Snap) {
      forall i :: 0 <= i < num ==> s.Pins(Block(i)) == 0
    }

    /** What block k, which held was, holds once the first hi blocks of the request are done. */
    function After(hi: nat, k: Key, was: Block): Block
      requires Valid() && hi <= num
    {
      if !Covers(hi, k) then was
      else match op
        case Read => was
        case Write => data[k.bnum - bnum]
        case Noop => Zeros(bsize)
    }
  }

  /** All that clients see of a cache, and how many entries are locked. */
  datatype Snap = Snap(ents: map<Ptr, Ent>, ht: map<Key, Ptr>, disk: map<Key, Block>, nlocked: nat)
  {
    function View(k: Key): Block
      requires k in disk
    {
      Seen(ents, ht, disk, k)
    }

    function Pins(k: Key): nat {
      if Holds(ents, ht, k) then ents[ht[k]].lock else 0
    }
  }

  /** Nothing clients see has changed. */
  ghost predicate Same(s: Snap, s': Snap) {
    && s'.disk.Keys == s.disk.Keys && s'.nlocked == s.nlocked
    && (forall k :: k in s.disk ==> s'.View(k) == s.View(k))
    && (forall k :: s'.Pins(k) == s.Pins(k))
  }

  lemma SameThen(s: Snap, s1: Snap, s2: Snap)
    requires Same(s, s1) && Same(s1, s2)
    ensures Same(s, s2)
  {
  }

  /** Block k, which had no entry, has come into the cache holding data. */
  ghost predicate Brought(s: Snap, s': Snap, k: Key, data: Block, lock: nat) {
    && s'.disk == s.disk && s'.nlocked == s.nlocked + (if lock > 0 then 1 else 0)
    && k in s.disk && s.View(k) == s.disk[k] && s.Pins(k) == 0
    && (forall j :: j in s.disk ==> s'.View(j) == if j == k then data else s.View(j))
    && (forall j :: s'.Pins(j) == if j == k then lock else s.Pins(j))
  }

  /** Bringing a block in as it is on the device goes unseen. */
  lemma BroughtSame(s: Snap, s': Snap, k: Key)
    requires k in s.disk && Brought(s, s', k, s.disk[k], 0)
    ensures Same(s, s')
  {
  }

  lemma BroughtServed(req: Request, i: nat, s: Snap, s': Snap, data: Block)
    requires req.Valid() && i < req.num && req.Block(i) in s.disk
    requires Brought(s, s', req.Block(i), data, if req.lock then 1 else 0)
    requires data == match req.op case Read => s.disk[req.Block(i)] case Write => req.data[i] case Noop => Zeros(req.bsize)
    ensures Served(req, i, s, s', data)
  {
  }

  /** Just block i of the request has been served; block is what it holds now. */
  ghost predicate Served(req: Request, i: nat, s: Snap, s': Snap, block: Block) {
    && req.Valid() && i < req.num
    && s'.disk.Keys == s.disk.Keys && s'.nlocked <= s.nlocked + (if req.lock then 1 else 0)
    && (forall k :: k in s.disk ==> s'.View(k) == if k == req.Block(i) then block else s.View(k))
    && (forall k :: s'.Pins(k) == s.Pins(k) + if req.lock && k == req.Block(i) then 1 else 0)
    && req.Block(i) in s.disk && block == req.After(i + 1, req.Block(i), s.View(req.Block(i)))
  }

  /** From s0 to s the first hi blocks of the request have been served, and out has what they hold. */
  ghost predicate Done(req: Request, hi: nat, s0: Snap, s: Snap, out: seq<Block>) {
    && req.Valid() && hi <= req.num && |out| == hi
    && req.OnDisk(s0.disk)
    && s.disk.Keys == s0.disk.Keys && s.nlocked <= s0.nlocked + (if req.lock then hi else 0)
    && (forall k :: k in s0.disk ==> s.View(k) == req.After(hi, k, s0.View(k)))
    && (forall k :: s.Pins(k) == s0.Pins(k) + if req.lock && req.Covers(hi, k) then 1 else 0)
    && (forall k :: req.Covers(hi, k) && k in s.disk ==> out[k.bnum - req.bnum] == s.View(k))
  }

  /** What a request that has been served comes to, written out: the blocks asked for are as they were, or as given, or
      zero; all others are as they were; and just the blocks asked for have one pin more, if they are to be locked. */
  lemma DoneIs(req: Request, s0: Snap, s: Snap, out: seq<Block>)
    requires Done(req, req.num, s0, s, out)
    ensures |out| == req.num && s.disk.Keys == s0.disk.Keys
    ensures forall k: Key :: k.dev == req.dev && req.bnum <= k.bnum < req.bnum + req.num ==>
      && k in s0.disk && out[k.bnum - req.bnum] == s.View(k) && s.Pins(k) == s0.Pins(k) + (if req.lock then 1 else 0)
      && (req.op.Read? ==> s.View(k) == s0.View(k))
      && (req.op.Write? ==> s.View(k) == req.data[k.bnum - req.bnum])
      && (req.op.Noop? ==> s.View(k) == seq(req.bsize, _ => 0))
    ensures forall k :: k in s0.disk && !(k.dev == req.dev && req.bnum <= k.bnum < req.bnum + req.num) ==>
      s.View(k) == s0.View(k) && s.Pins(k) == s0.Pins(k)
  {
    hide Snap.View, Snap.Pins;
  }

  lemma NothingDone(req: Request, s: Snap)
    requires req.Valid() && req.OnDisk(s.disk)
    ensures Done(req, 0, s, s, [])
  {
  }

  /** A request that only reads is done when out has what is there. */
  lemma ReadDone(req: Request, s: Snap, out: seq<Block>)
    requires req.Valid() && req.op.Read? && !req.lock && req.OnDisk(s.disk) && |out| == req.num
    requires forall i :: 0 <= i < req.num ==> req.Block(i) in s.disk && out[i] == s.View(req.Block(i))
    ensures Done(req, req.num, s, s, out)
  {
    forall k | req.Covers(req.num, k) ensures out[k.bnum - req.bnum] == s.View(k) {
      assert req.Block(k.bnum - req.bnum) == k;
    }
  }

  lemma DoneSame(req: Request, hi: nat, s0: Snap, s: Snap, s': Snap, out: seq<Block>)
    requires Done(req, hi, s0, s, out) && Same(s, s')
    ensures Done(req, hi, s0, s', out)
  {
  }

  lemma DoneNext(req: Request, hi: nat, s0: Snap, s: Snap, s': Snap, out: seq<Block>, block: Block)
    requires Done(req, hi, s0, s, out) && Served(req, hi, s, s', block)
    ensures Done(req, hi + 1, s0, s', out + [block])
  {
    DoneViews(req, hi, s0, s, s', out, block);
    DonePins(req, hi, s0, s, s', out, block);
    DoneOut(req, hi, s0, s, s', out, block);
    hide Request.After, Request.Covers, Snap.View, Snap.Pins, Request.OnDisk, Request.Valid, Request.Block;
  }

  lemma DoneViews(req: Request, hi: nat, s0: Snap, s: Snap, s': Snap, out: seq<Block>, block: Block)
    requires Done(req, hi, s0, s, out) && Served(req, hi, s, s', block)
    ensures forall k :: k in s0.disk ==> k in s'.disk && s'.View(k) == req.After(hi + 1, k, s0.View(k))
  {
    hide Snap.View, Snap.Pins;
  }

  lemma DonePins(req: Request, hi: nat, s0: Snap, s: Snap, s': Snap, out: seq<Block>, block: Block)
    requires Done(req, hi, s0, s, out) && Served(req, hi, s, s', block)
    ensures forall k :: s'.Pins(k) == s0.Pins(k) + if req.lock && req.Covers(hi + 1, k) then 1 else 0
  {
    assert forall k :: req.Covers(hi + 1, k) <==> req.Covers(hi, k) || k == req.Block(hi);
    hide Snap.View, Snap.Pins, Request.After;
  }

  lemma DoneOut(req: Request, hi: nat, s0: Snap, s: Snap, s': Snap, out: seq<Block>, block: Block)
    requires Done(req, hi, s0, s, out) && Served(req, hi, s, s', block)
    ensures forall k :: req.Covers(hi + 1, k) && k in s'.disk ==> 0 <= k.bnum - req.bnum < hi + 1 && (out + [block])[k.bnum - req.bnum] == s'.View(k)
  {
    assert forall k :: req.Covers(hi + 1, k) <==> req.Covers(hi, k) || k == req.Block(hi);
    hide Snap.View, Snap.Pins, Request.After;
  }

  lemma AdoptBrings(s: Snap, p: Ptr, e: Ent, nlocked: nat)
    requires p !in s.ents && e.key in s.ht && s.ht[e.key] == p && e.key in s.disk
    requires forall l :: Holds(s.ents[p := e], s.ht, l) <==> Holds(s.ents, s.ht, l) || l == e.key
    requires nlocked == s.nlocked + if e.lock > 0 then 1 else 0
    ensures Brought(s, Snap(s.ents[p := e], s.ht, s.disk, nlocked), e.key, e.data, e.lock)
  {
  }

  lemma DropSame(s: Snap, p: Ptr)
    requires p in s.ents && s.ents[p].lock == 0 && s.ents[p].key in s.disk && s.ents[p].data == s.disk[s.ents[p].key]
    requires Holds(s.ents, s.ht, s.ents[p].key) && s.ht[s.ents[p].key] == p
    requires forall l :: Holds(s.ents - {p}, s.ht - {s.ents[p].key}, l) <==> Holds(s.ents, s.ht, l) && l != s.ents[p].key
    ensures Same(s, Snap(s.ents - {p}, s.ht - {s.ents[p].key}, s.disk, s.nlocked))
  {
  }

  lemma IndexSame(s: Snap, ht: map<Key, Ptr>)
    requires SameIndex(s.ents, s.ht, ht)
    ensures Same(s, s.(ht := ht))
  {
  }

  lemma FlushSame(s: Snap, batch: set<Ptr>, ents: map<Ptr, Ent>, disk: map<Key, Block>)
    requires AllSettled(s.ents, s.disk, s.ht, batch, ents, disk)
    ensures Same(s, Snap(ents, s.ht, disk, s.nlocked))
  {
    FlushUnseen(s.ents, s.disk, s.ht, batch, ents, disk);
  }

  /** Reads return the last write: after a write, a read gets what was written, and elsewhere what was there. */
  lemma ReadsLastWrite(w: Request, r: Request, s0: Snap, s1: Snap, s2: Snap, wrote: seq<Block>, out: seq<Block>)
    requires w.op.Write? && Done(w, w.num, s0, s1, wrote) && r.op.Read? && Done(r, r.num, s1, s2, out)
    ensures forall k :: r.Covers(r.num, k) && k in s0.disk ==>
      out[k.bnum - r.bnum] == if w.Covers(w.num, k) then w.data[k.bnum - w.bnum] else s0.View(k)
  {
  }
}
