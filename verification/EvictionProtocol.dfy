/** Eviction in the block cache (cache.c) with any number of threads.  A step is what one thread does while it holds
    bc.lock, or one of its device transfers in between, or a change a client makes to a block it has pinned; threads
    interleave freely.  Requests of 64 KB and more go past the cache, in two phases that other threads may come
    between.  Clones, which only concern the flusher and the locked blocks, are not part of this model. */
module EvictionProtocol {
  import opened CacheModel

  type Tid = nat

  /** Where a thread is in cache_block_io, or in one of the functions that flush. */
  datatype Phase =
    | Outside
    | Gathering   // in get_ents
    | Flushing    // its entries are in the hash table under their new blocks; flush_ents runs
    | Loading     // everything it took over is clean; read_into_ents runs
    | Cleaning    // in flush_ents for flush_device, flush_blocks, the background flusher, ...

  datatype List = Normal | Locked | Off

  /** A cache_ent.  owner is the thread that set the busy bit, newKey the block the entry is to hold next, content
      the block whose bytes are in the buffer. */
  datatype Entry = Entry(key: Option<Key>, newKey: Option<Key>, owner: Option<Tid>, dirty: bool, data: Block,
                         content: Option<Key>, lock: nat, list: List)

  /** A block of a large write that has been looked up, its device write outstanding; hit: it was in the cache. */
  datatype Pending = Pending(data: Block, hit: bool)

  /** A large request.  Writing: the blocks still to be looked up, and those still to be written to the device.
      Reading: the blocks still to be read from the device, and those read but not yet looked up. */
  datatype Direct =
    | Writing(todo: map<Key, Block>, dev: map<Key, Pending>)
    | Reading(from: set<Key>, buf: map<Key, Block>)

  /** touched has the blocks clients have changed through pointers and not marked dirty yet. */
  datatype System = System(ents: map<Ptr, Entry>, ht: map<Key, Ptr>, disk: map<Key, Block>, phase: map<Tid, Phase>,
                           direct: map<Tid, Direct>, touched: set<Key>)
  {
    function Phase(t: Tid): Phase {
      if t in phase then phase[t] else Outside
    }

    /** What clients see of block k. */
    function View(k: Key): Block
      requires k in disk
    {
      if Holding(k) then ents[ht[k]].data else disk[k]
    }

    predicate Owned(t: Tid, p: Ptr) {
      p in ents && ents[p].owner == Some(t)
    }

    /** Is a device write of block k outstanding? */
    predicate Outstanding(t: Tid, k: Key) {
      t in direct && direct[t].Writing? && k in direct[t].dev
    }

    /** The entry that holds block k. */
    predicate Holding(k: Key) {
      k in ht && ht[k] in ents && ents[ht[k]].key == Some(k) && ents[ht[k]].content == Some(k)
    }
  }

  /** The device is to get block k's bytes from its entry although that is not dirty: a client is changing them, or
      a large write has put them there. */
  ghost predicate Covered(s: System, k: Key) {
    k in s.touched || Due(s, k)
  }

  ghost predicate Due(s: System, k: Key) {
    exists t: Tid :: s.Outstanding(t, k) && s.direct[t].dev[k].hit
  }

  // ---- the invariant

  /** The entry by itself. */
  ghost predicate EntryInv(s: System, p: Ptr)
    requires p in s.ents
  {
    var e := s.ents[p];
    && (e.key.Some? ==> e.key.value in s.disk && e.key.value in s.ht && s.ht[e.key.value] == p)
    && (e.newKey.Some? ==> e.newKey.value in s.disk && e.newKey.value in s.ht && s.ht[e.newKey.value] == p)
    && (e.newKey.Some? ==> e.newKey != e.key && e.owner.Some?)
    && (e.dirty ==> e.key.Some? && e.content == e.key)
    && (e.key.Some? && e.content == e.key && !e.dirty ==> e.data == s.disk[e.key.value] || Covered(s, e.key.value))
    && (e.newKey.Some? && e.content == e.newKey ==> e.data == s.disk[e.newKey.value])
    && (e.list.Normal? ==> e.lock == 0 && e.key.Some?)
    && (e.list.Locked? <==> e.lock > 0)
    && (e.lock > 0 ==> e.key.Some?)
  }

  /** What a busy entry may look like depends on what its thread is doing. */
  ghost predicate OwnerInv(s: System, p: Ptr)
    requires p in s.ents
  {
    var e := s.ents[p];
    match e.owner
    case None => e.key.Some? && e.newKey == None && e.content == e.key && e.list != Off
    case Some(t) =>
      match s.Phase(t)
      case Outside => false
      case Gathering => e.newKey == None && e.content == e.key && e.lock == 0 && (e.list.Off? <==> e.key == None)
      case Cleaning => e.key.Some? && e.newKey == None && e.content == e.key && e.list != Off
      case Flushing => e.content == e.key && e.list.Off? && (e.newKey == None ==> e.key.Some?)
      case Loading => !e.dirty && e.list.Off? && (e.newKey == None ==> e.key.Some? && e.content == e.key)
  }

  ghost predicate EntriesInv(s: System) {
    forall p :: p in s.ents ==> EntryInv(s, p) && OwnerInv(s, p)
  }

  /** The hash table leads from k to an entry that holds it or is about to. */
  ghost predicate Indexed(s: System, k: Key)
    requires k in s.ht
  {
    s.ht[k] in s.ents && (s.ents[s.ht[k]].key == Some(k) || s.ents[s.ht[k]].newKey == Some(k))
  }

  ghost predicate TableInv(s: System) {
    forall k :: k in s.ht ==> Indexed(s, k)
  }

  /** Blocks being changed through pointers are pinned. */
  ghost predicate TouchedInv(s: System) {
    forall k :: k in s.touched ==> s.Holding(k) && s.ents[s.ht[k]].lock > 0
  }

  ghost predicate DirectInv(s: System) {
    forall t :: t in s.direct ==>
      match s.direct[t]
      case Writing(todo, dev) => todo.Keys <= s.disk.Keys && dev.Keys <= s.disk.Keys && todo.Keys !! dev.Keys
      case Reading(from, buf) => from <= s.disk.Keys && buf.Keys <= s.disk.Keys
  }

  ghost predicate Inv(s: System) {
    EntriesInv(s) && TableInv(s) && TouchedInv(s) && DirectInv(s)
  }

  // ---- the steps

  datatype Step =
    | Gather(t: Tid, p: Ptr)
    | NewEnt(t: Tid, p: Ptr)
    | Claim(t: Tid, add: map<Key, Ptr>)
    | WriteOut(t: Tid, p: Ptr)
    | Flushed(t: Tid)
    | Load(t: Tid, p: Ptr)
    | Finish(t: Tid, writes: map<Key, Block>, lock: bool)
    | CleanStart(t: Tid, batch: set<Ptr>)
    | CleanEnd(t: Tid)
    | HitRead(k: Key, data: Block)
    | HitWrite(k: Key, data: Block)
    | Pin(k: Key)
    | Unpin(k: Key)
    | Touch(k: Key, data: Block)
    | MarkDirty(k: Key)
    | DirectWrite(t: Tid, blocks: map<Key, Block>)
    | CopyIn(t: Tid, k: Key)
    | DevWrite(t: Tid, k: Key)
    | DirectRead(t: Tid, keys: set<Key>)
    | DevRead(t: Tid, k: Key)
    | LookUp(t: Tid, k: Key, data: Block)
    | DirectEnd(t: Tid)

  /** get_ents takes an entry of the normal list that is not busy. */
  predicate GatherStep(s: System, t: Tid, p: Ptr, s': System) {
    && s.Phase(t) in {Outside, Gathering}
    && p in s.ents && s.ents[p].owner == None && s.ents[p].list.Normal?
    && s' == s.(ents := s.ents[p := s.ents[p].(owner := Some(t))], phase := s.phase[t := Gathering])
  }

  /** get_ents allocates an entry. */
  ghost predicate NewEntStep(s: System, t: Tid, p: Ptr, s': System) {
    && s.Phase(t) in {Outside, Gathering} && p !in s.ents
    && exists junk ::
         s' == s.(ents := s.ents[p := Entry(None, None, Some(t), false, junk, None, 0, Off)], phase := s.phase[t := Gathering])
  }

  function Claimed(t: Tid, p: Ptr, e: Entry, k: Option<Key>): Entry {
    if e.owner == Some(t) then e.(newKey := k, list := Off) else e
  }

  /** The new block of entry p, if add has one for it. */
  ghost predicate NewKeyIs(add: map<Key, Ptr>, p: Ptr, k: Option<Key>) {
    match k
    case None => forall j :: j in add ==> add[j] != p
    case Some(j) => j in add && add[j] == p
  }

  /** Each new block, none of which may be in the hash table, is inserted for one of the thread's entries; all of
      them leave their lists.  Every entry that is new gets a block. */
  ghost predicate ClaimStep(s: System, t: Tid, add: map<Key, Ptr>, s': System) {
    && s.Phase(t) == Gathering
    && (forall k :: k in add ==> k in s.disk && k !in s.ht && s.Owned(t, add[k]))
    && (forall k, j :: k in add && j in add && add[k] == add[j] ==> k == j)
    && (forall p :: s.Owned(t, p) && s.ents[p].key == None ==> exists k :: k in add && add[k] == p)
    && s'.ht == s.ht + add && s'.disk == s.disk && s'.phase == s.phase[t := Flushing] && s'.direct == s.direct && s'.touched == s.touched
    && s'.ents.Keys == s.ents.Keys
    && (forall p :: p in s.ents ==> NewKeyIs(add, p, s'.ents[p].newKey) || s.ents[p].owner != Some(t))
    && (forall p :: p in s.ents ==> s'.ents[p] == Claimed(t, p, s.ents[p], s'.ents[p].newKey))
  }

  /** flush_ents writes one block; it leaves the data of locked blocks alone. */
  predicate WriteOutStep(s: System, t: Tid, p: Ptr, s': System) {
    && s.Phase(t) in {Flushing, Cleaning} && s.Owned(t, p)
    && s.ents[p].dirty && s.ents[p].lock == 0 && s.ents[p].key.Some?
    && s' == s.(disk := s.disk[s.ents[p].key.value := s.ents[p].data], ents := s.ents[p := s.ents[p].(dirty := false)])
  }

  /** flush_ents returns: none of the entries to be reused is dirty. */
  ghost predicate FlushedStep(s: System, t: Tid, s': System) {
    && s.Phase(t) == Flushing && (forall p :: s.Owned(t, p) ==> !s.ents[p].dirty)
    && s' == s.(phase := s.phase[t := Loading])
  }

  /** read_into_ents reads one block into the entry that is to hold it. */
  predicate LoadStep(s: System, t: Tid, p: Ptr, s': System) {
    && s.Phase(t) == Loading && s.Owned(t, p) && s.ents[p].newKey.Some? && s.ents[p].newKey.value in s.disk
    && s' == s.(ents := s.ents[p := s.ents[p].(data := s.disk[s.ents[p].newKey.value], content := s.ents[p].newKey)])
  }

  function Finished(t: Tid, e: Entry, writes: map<Key, Block>, lock: bool): Entry {
    if e.owner != Some(t) then e
    else if e.newKey == None then e.(owner := None, list := Normal)
    else
      var k := e.newKey.value;
      var pinned := lock && k in writes;
      Entry(Some(k), None, None, k in writes, if k in writes then writes[k] else e.data, Some(k),
            if pinned then 1 else 0, if pinned then Locked else Normal)
  }

  /** The old blocks leave the hash table and the entries are those of their new blocks: written by the caller, or
      read before. */
  ghost predicate FinishStep(s: System, t: Tid, writes: map<Key, Block>, lock: bool, s': System) {
    && s.Phase(t) == Loading
    && (forall p :: s.Owned(t, p) && s.ents[p].newKey.Some? ==>
          s.ents[p].newKey.value in writes || s.ents[p].content == s.ents[p].newKey)
    && (forall k :: k in writes ==> k in s.ht && s.Owned(t, s.ht[k]) && s.ents[s.ht[k]].newKey == Some(k))
    && s'.disk == s.disk && s'.phase == s.phase[t := Outside] && s'.direct == s.direct && s'.touched == s.touched
    && s'.ents == (map p | p in s.ents :: Finished(t, s.ents[p], writes, lock))
    && s'.ht == (map k | k in s.ht && (s.ht[k] in s.ents ==> !Leaves(s, t, k)) :: s.ht[k])
  }

  /** Is k the old block of an entry that thread t is done refilling? */
  predicate Leaves(s: System, t: Tid, k: Key)
    requires k in s.ht && s.ht[k] in s.ents
  {
    s.ents[s.ht[k]].owner == Some(t) && s.ents[s.ht[k]].newKey.Some? && s.ents[s.ht[k]].newKey != Some(k)
  }

  /** A flusher takes entries that are not busy, from either list. */
  ghost predicate CleanStartStep(s: System, t: Tid, batch: set<Ptr>, s': System) {
    && s.Phase(t) == Outside && (forall p :: p in batch ==> p in s.ents && s.ents[p].owner == None)
    && s'.ht == s.ht && s'.disk == s.disk && s'.phase == s.phase[t := Cleaning] && s'.direct == s.direct && s'.touched == s.touched
    && s'.ents == map p | p in s.ents :: if p in batch then s.ents[p].(owner := Some(t)) else s.ents[p]
  }

  ghost predicate CleanEndStep(s: System, t: Tid, s': System) {
    && s.Phase(t) == Cleaning
    && s'.ht == s.ht && s'.disk == s.disk && s'.phase == s.phase[t := Outside] && s'.direct == s.direct && s'.touched == s.touched
    && s'.ents == map p | p in s.ents :: if s.ents[p].owner == Some(t) then s.ents[p].(owner := None) else s.ents[p]
  }

  /** block_lookup gives an entry only once it is not busy. */
  predicate Found(s: System, k: Key) {
    k in s.ht && s.ht[k] in s.ents && s.ents[s.ht[k]].owner == None
  }

  function Repinned(e: Entry, lock: nat): Entry {
    e.(lock := lock, list := if lock > 0 then Locked else Normal)
  }

  /** A client changes a block through the pointer it has; the entry may be busy. */
  predicate TouchStep(s: System, k: Key, data: Block, s': System) {
    && s.Holding(k) && s.ents[s.ht[k]].lock > 0
    && s' == s.(ents := s.ents[s.ht[k] := s.ents[s.ht[k]].(data := data)], touched := s.touched + {k})
  }

  /** mark_blocks_dirty. */
  predicate MarkStep(s: System, k: Key, s': System) {
    Found(s, k) && s' == s.(ents := s.ents[s.ht[k] := s.ents[s.ht[k]].(dirty := true)], touched := s.touched - {k})
  }

  /** release_block; with its last pin a client gives up the pointer. */
  predicate UnpinStep(s: System, k: Key, s': System) {
    && Found(s, k) && s.ents[s.ht[k]].lock > 0
    && s' == s.(ents := s.ents[s.ht[k] := Repinned(s.ents[s.ht[k]], s.ents[s.ht[k]].lock - 1)],
                touched := if s.ents[s.ht[k]].lock == 1 then s.touched - {k} else s.touched)
  }

  /** A large request starts. */
  predicate StartStep(s: System, t: Tid, d: Direct, s': System) {
    s.Phase(t) == Outside && t !in s.direct && s' == s.(direct := s.direct[t := d])
  }

  /** The first phase of a large write, block by block: the bytes go into the block's entry, if it has one that is
      not busy; the dirty flag stays as it is. */
  predicate CopyInStep(s: System, t: Tid, k: Key, s': System) {
    && t in s.direct && s.direct[t].Writing? && k in s.direct[t].todo && (k in s.ht ==> Found(s, k))
    && var d := s.direct[t];
       s' == s.(ents := if k in s.ht then s.ents[s.ht[k] := s.ents[s.ht[k]].(data := d.todo[k])] else s.ents,
                direct := s.direct[t := Writing(d.todo - {k}, d.dev[k := Pending(d.todo[k], k in s.ht)])])
  }

  /** The second, without the lock. */
  predicate DevWriteStep(s: System, t: Tid, k: Key, s': System) {
    && s.Outstanding(t, k) && s.direct[t].todo == map[]
    && var d := s.direct[t];
       s' == s.(disk := s.disk[k := d.dev[k].data], direct := s.direct[t := Writing(map[], d.dev - {k})])
  }

  /** The first phase of a large read, without the lock. */
  predicate DevReadStep(s: System, t: Tid, k: Key, s': System) {
    && t in s.direct && s.direct[t].Reading? && k in s.direct[t].from && k in s.disk
    && var d := s.direct[t]; s' == s.(direct := s.direct[t := Reading(d.from - {k}, d.buf[k := s.disk[k]])])
  }

  /** The second: what an entry holds is taken instead. */
  predicate LookUpStep(s: System, t: Tid, k: Key, data: Block, s': System) {
    && t in s.direct && s.direct[t].Reading? && s.direct[t].from == {} && k in s.direct[t].buf && (k in s.ht ==> Found(s, k))
    && var d := s.direct[t];
       data == (if k in s.ht then s.ents[s.ht[k]].data else d.buf[k]) &&
       s' == s.(direct := s.direct[t := Reading({}, d.buf - {k})])
  }

  predicate EndStep(s: System, t: Tid, s': System) {
    && t in s.direct && (s.direct[t] == Writing(map[], map[]) || s.direct[t] == Reading({}, map[]))
    && s' == s.(direct := s.direct - {t})
  }

  ghost predicate Next(s: System, step: Step, s': System) {
    match step
    case Gather(t, p) => GatherStep(s, t, p, s')
    case NewEnt(t, p) => NewEntStep(s, t, p, s')
    case Claim(t, add) => ClaimStep(s, t, add, s')
    case WriteOut(t, p) => WriteOutStep(s, t, p, s')
    case Flushed(t) => FlushedStep(s, t, s')
    case Load(t, p) => LoadStep(s, t, p, s')
    case Finish(t, writes, lock) => FinishStep(s, t, writes, lock, s')
    case CleanStart(t, batch) => CleanStartStep(s, t, batch, s')
    case CleanEnd(t) => CleanEndStep(s, t, s')
    case HitRead(k, data) => Found(s, k) && data == s.ents[s.ht[k]].data && s' == s
    case HitWrite(k, data) =>
      Found(s, k) && s' == s.(ents := s.ents[s.ht[k] := s.ents[s.ht[k]].(data := data, dirty := true)])
    case Pin(k) =>
      Found(s, k) && s' == s.(ents := s.ents[s.ht[k] := Repinned(s.ents[s.ht[k]], s.ents[s.ht[k]].lock + 1)])
    case Unpin(k) => UnpinStep(s, k, s')
    case Touch(k, data) => TouchStep(s, k, data, s')
    case MarkDirty(k) => MarkStep(s, k, s')
    case DirectWrite(t, blocks) => blocks.Keys <= s.disk.Keys && StartStep(s, t, Writing(blocks, map[]), s')
    case CopyIn(t, k) => CopyInStep(s, t, k, s')
    case DevWrite(t, k) => DevWriteStep(s, t, k, s')
    case DirectRead(t, keys) => keys <= s.disk.Keys && StartStep(s, t, Reading(keys, map[]), s')
    case DevRead(t, k) => DevReadStep(s, t, k, s')
    case LookUp(t, k, data) => LookUpStep(s, t, k, data, s')
    case DirectEnd(t) => EndStep(s, t, s')
  }

  /** What the step writes, seen as a step of a plain array of blocks.  A large write writes a block when it puts the
      bytes into its entry or, if it has none, when it writes it to the device. */
  function Writes(s: System, step: Step): map<Key, Block> {
    match step
    case Finish(_, writes, _) => writes
    case HitWrite(k, data) => map[k := data]
    case Touch(k, data) => map[k := data]
    case CopyIn(t, k) =>
      if t in s.direct && s.direct[t].Writing? && k in s.direct[t].todo && k in s.ht then map[k := s.direct[t].todo[k]] else map[]
    case DevWrite(t, k) =>
      if s.Outstanding(t, k) && !s.direct[t].dev[k].hit then map[k := s.direct[t].dev[k].data] else map[]
    case _ => map[]
  }

  /** The plain array after the step. */
  ghost predicate Follows(s: System, step: Step, s': System) {
    && s'.disk.Keys == s.disk.Keys
    && (forall k :: k in s.disk ==> s'.View(k) == if k in Writes(s, step) then Writes(s, step)[k] else s.View(k))
  }

  // ---- when the cache follows the array

  /** The device has what the entry holds. */
  predicate Backed(s: System, p: Ptr)
    requires p in s.ents
  {
    var e := s.ents[p];
    e.key.Some? && e.content == e.key && e.key.value in s.disk ==> e.data == s.disk[e.key.value]
  }

  /** Another reason than thread t's write for the device to get block k's bytes. */
  ghost predicate CoveredBut(s: System, t: Tid, k: Key) {
    k in s.touched || exists u: Tid :: u != t && s.Outstanding(u, k) && s.direct[u].dev[k].hit
  }

  /** The device write of block k finds the cache as its first phase has left it, as far as it matters: an entry that
      holds other bytes must be dirty, or due for the device, and then only if there was one before. */
  ghost predicate Lands(s: System, t: Tid, k: Key)
    requires s.Outstanding(t, k) && k in s.disk
  {
    var w, hit := s.direct[t].dev[k].data, s.direct[t].dev[k].hit;
    if s.Holding(k) then
      s.ents[s.ht[k]].data == w || (hit && (s.ents[s.ht[k]].dirty || CoveredBut(s, t, k)))
    else
      && (hit ==> s.disk[k] == w)
      && (k in s.ht && s.ht[k] in s.ents && s.ents[s.ht[k]].newKey == Some(k) && s.ents[s.ht[k]].content == Some(k) ==>
            s.ents[s.ht[k]].data == w)
  }

  /** A client that lets go of a block it has changed must have marked it dirty, unless the device has its bytes or
      is to get them anyway. */
  ghost predicate Marked(s: System, k: Key)
    requires k in s.ht && s.ht[k] in s.ents
  {
    k in s.touched && s.ents[s.ht[k]].lock == 1 ==> s.ents[s.ht[k]].dirty || Backed(s, s.ht[k]) || Due(s, k)
  }

  /** The step neither loses bytes a large write or a client has put into an entry nor passes by bytes in the cache. */
  ghost predicate Safe(s: System, step: Step) {
    match step
    case Load(t, p) => p in s.ents ==> Backed(s, p)
    case Finish(t, _, _) => forall p :: s.Owned(t, p) && s.ents[p].newKey.Some? ==> Backed(s, p)
    case DevWrite(t, k) => s.Outstanding(t, k) && k in s.disk ==> Lands(s, t, k)
    case Unpin(k) => k in s.ht && s.ht[k] in s.ents ==> Marked(s, k)
    case _ => true
  }

  // ---- every step keeps the invariant and follows the array

  /** An entry that the step leaves alone, along with its blocks and its thread. */
  lemma Untouched(s: System, s': System, p: Ptr)
    requires p in s.ents && EntryInv(s, p) && OwnerInv(s, p)
    requires p in s'.ents && s'.ents[p] == s.ents[p]
    requires forall k :: s.ents[p].key == Some(k) || s.ents[p].newKey == Some(k) ==>
      k in s'.ht && s'.ht[k] == p && k in s'.disk && s'.disk[k] == s.disk[k]
    requires forall k :: s.ents[p].key == Some(k) && Covered(s, k) ==> Covered(s', k)
    requires s.ents[p].owner.Some? ==> s'.Phase(s.ents[p].owner.value) == s.Phase(s.ents[p].owner.value)
    ensures EntryInv(s', p) && OwnerInv(s', p)
  {
    hide Covered;
  }

  lemma CoverKept(s: System, s': System)
    requires s'.direct == s.direct && s'.touched == s.touched
    ensures forall k :: Covered(s', k) == Covered(s, k)
    ensures DirectInv(s) && s'.disk.Keys == s.disk.Keys ==> DirectInv(s')
  {
    forall k ensures Covered(s', k) == Covered(s, k) {
      if Covered(s, k) && k !in s.touched {
        var t: Tid :| s.Outstanding(t, k) && s.direct[t].dev[k].hit;
        assert s'.Outstanding(t, k);
      }
      if Covered(s', k) && k !in s.touched {
        var t: Tid :| s'.Outstanding(t, k) && s'.direct[t].dev[k].hit;
        assert s.Outstanding(t, k);
      }
    }
  }

  /** The entries of touched blocks stay what they are. */
  lemma TouchedKept(s: System, s': System)
    requires TouchedInv(s) && s'.touched <= s.touched
    requires forall k :: k in s'.touched && s.Holding(k) && s.ents[s.ht[k]].lock > 0 ==>
      && k in s'.ht && s'.ht[k] == s.ht[k] && s.ht[k] in s'.ents
      && s'.ents[s.ht[k]].key == Some(k) && s'.ents[s.ht[k]].content == Some(k) && s'.ents[s.ht[k]].lock > 0
    ensures TouchedInv(s')
  {
  }

  lemma EntryOf(s: System, p: Ptr)
    requires Inv(s) && p in s.ents
    ensures EntryInv(s, p) && OwnerInv(s, p)
  {
  }

  lemma TableOf(s: System, k: Key)
    requires Inv(s) && k in s.ht
    ensures Indexed(s, k)
  {
  }

  lemma KeyOf(s: System, p: Ptr)
    requires p in s.ents && EntryInv(s, p)
    ensures forall k :: s.ents[p].key == Some(k) || s.ents[p].newKey == Some(k) ==> k in s.ht && s.ht[k] == p && k in s.disk
  {
  }

  lemma OwnerBusy(s: System, p: Ptr)
    requires Inv(s) && p in s.ents && s.ents[p].owner.Some?
    ensures s.Phase(s.ents[p].owner.value) != Outside
  {
    EntryOf(s, p);
  }

  /** A step that leaves all entries but p alone, with their blocks and their threads. */
  ghost predicate Beside(s: System, p: Ptr, s': System) {
    && s'.direct == s.direct && s'.touched == s.touched && s'.ht == s.ht
    && p in s'.ents && s'.ents == s.ents[p := s'.ents[p]]
    && (p in s.ents ==>
          && s'.ents[p].key == s.ents[p].key && s'.ents[p].newKey == s.ents[p].newKey && s'.ents[p].lock == s.ents[p].lock
          && (s'.ents[p].content == s.ents[p].content || s.ents[p].lock == 0))
    && s'.disk.Keys == s.disk.Keys
    && (forall k :: k in s.disk && (p in s.ents ==> s.ents[p].key != Some(k)) ==> s'.disk[k] == s.disk[k])
    && (forall q :: q in s.ents && q != p && s.ents[q].owner.Some? ==> s'.Phase(s.ents[q].owner.value) == s.Phase(s.ents[q].owner.value))
  }

  lemma BesideKeeps(s: System, p: Ptr, s': System)
    requires Inv(s) && Beside(s, p, s') && EntryInv(s', p) && OwnerInv(s', p)
    ensures Inv(s')
  {
    hide EntryInv, OwnerInv, EntriesInv, Covered, DirectInv, TouchedInv, TableInv;
    forall q | q in s.ents && q != p ensures EntryInv(s', q) && OwnerInv(s', q) {
      BesideOther(s, p, s', q);
    }
    forall k | k in s'.ht ensures Indexed(s', k) {
      TableOf(s, k);
    }
    BesideTouched(s, p, s');
    hide Beside;
    Assemble(s');
  }

  lemma BesideOther(s: System, p: Ptr, s': System, q: Ptr)
    requires Inv(s) && Beside(s, p, s') && q in s.ents && q != p
    ensures EntryInv(s', q) && OwnerInv(s', q)
  {
    CoverKept(s, s');
    EntryOf(s, q);
    KeyOf(s, q);
    if p in s.ents {
      EntryOf(s, p);
      KeyOf(s, p);
    }
    hide Inv, EntryInv, OwnerInv, Covered, DirectInv;
    Untouched(s, s', q);
  }

  lemma BesideTouched(s: System, p: Ptr, s': System)
    requires Inv(s) && Beside(s, p, s')
    ensures TouchedInv(s') && DirectInv(s')
  {
    CoverKept(s, s');
    hide EntriesInv, TableInv, Covered, DirectInv;
    TouchedKept(s, s');
  }

  /** Entry p, if it is there, holds what it held. */
  lemma SameViews(s: System, p: Ptr, s': System)
    requires s'.ht == s.ht && s'.disk.Keys == s.disk.Keys && p in s'.ents && s'.ents == s.ents[p := s'.ents[p]]
    requires p in s.ents ==> s'.ents[p].key == s.ents[p].key && s'.ents[p].content == s.ents[p].content && s'.ents[p].data == s.ents[p].data
    requires p !in s.ents ==> s'.ents[p].key == None
    requires forall k :: k in s.disk && !s.Holding(k) ==> s'.disk[k] == s.disk[k]
    ensures forall k :: k in s.disk ==> s'.View(k) == s.View(k)
  {
  }

  /** A step that only changes who has which entries, or what threads are doing. */
  ghost predicate OnlyOwners(s: System, s': System) {
    && s'.ht == s.ht && s'.disk == s.disk && s'.direct == s.direct && s'.touched == s.touched && s'.ents.Keys == s.ents.Keys
    && (forall p :: p in s.ents ==> s'.ents[p] == s.ents[p].(owner := s'.ents[p].owner))
  }

  lemma OwnersKeep(s: System, s': System)
    requires Inv(s) && OnlyOwners(s, s') && forall p :: p in s.ents ==> OwnerInv(s', p)
    ensures Inv(s') && s'.disk == s.disk && forall k :: k in s.disk ==> s'.View(k) == s.View(k)
  {
    hide EntryInv, OwnerInv, EntriesInv, Covered, DirectInv, TableInv, TouchedInv;
    OwnersView(s, s');
    OwnersElse(s, s');
    forall p | p in s'.ents ensures EntryInv(s', p) && OwnerInv(s', p) {
      OwnersEntry(s, s', p);
    }
    forall k | k in s'.ht ensures Indexed(s', k) {
      TableOf(s, k);
    }
    hide Inv;
    Assemble(s');
  }

  lemma OwnersView(s: System, s': System)
    requires OnlyOwners(s, s')
    ensures s'.disk == s.disk && forall k :: k in s.disk ==> s'.View(k) == s.View(k)
  {
  }

  lemma OwnersElse(s: System, s': System)
    requires Inv(s) && OnlyOwners(s, s')
    ensures TouchedInv(s') && DirectInv(s')
  {
    hide EntriesInv, TableInv;
    CoverKept(s, s');
    TouchedKept(s, s');
  }

  lemma OwnersEntry(s: System, s': System, p: Ptr)
    requires Inv(s) && OnlyOwners(s, s') && p in s.ents && OwnerInv(s', p)
    ensures EntryInv(s', p)
  {
    CoverKept(s, s');
    EntryOf(s, p);
    hide Covered, Inv;
  }

  lemma GatherKeeps(s: System, t: Tid, p: Ptr, s': System)
    requires Inv(s) && GatherStep(s, t, p, s')
    ensures Inv(s') && Follows(s, Gather(t, p), s')
  {
    forall q | q in s.ents ensures OwnerInv(s', q) {
      GatherOwner(s, t, p, s', q);
    }
    assert OnlyOwners(s, s') by {
      hide Inv, OwnerInv;
    }
    hide Inv, OwnerInv, GatherStep, OnlyOwners;
    OwnersKeep(s, s');
  }

  lemma GatherOwner(s: System, t: Tid, p: Ptr, s': System, q: Ptr)
    requires Inv(s) && GatherStep(s, t, p, s') && q in s.ents
    ensures OwnerInv(s', q)
  {
    EntryOf(s, q);
    if q == p {
      hide Inv, Covered;
    } else {
      hide Inv, EntryInv;
    }
  }

  /** The thread's phase matters to no entry if it has none. */
  lemma PhasesKept(s: System, t: Tid, s': System, ph: Phase)
    requires Inv(s) && s'.phase == s.phase[t := ph] && s.Phase(t) in {Outside, ph}
    ensures forall q :: q in s.ents && s.ents[q].owner.Some? ==> s'.Phase(s.ents[q].owner.value) == s.Phase(s.ents[q].owner.value)
  {
    forall q | q in s.ents && s.ents[q].owner.Some? ensures s'.Phase(s.ents[q].owner.value) == s.Phase(s.ents[q].owner.value) {
      OwnerBusy(s, q);
    }
  }

  lemma NewEntKeeps(s: System, t: Tid, p: Ptr, s': System)
    requires Inv(s) && NewEntStep(s, t, p, s')
    ensures Inv(s') && Follows(s, NewEnt(t, p), s')
  {
    PhasesKept(s, t, s', Gathering);
    SameViews(s, p, s');
    hide Covered, Inv;
    assert EntryInv(s', p) && OwnerInv(s', p);
    hide EntryInv, OwnerInv;
    BesideKeeps(s, p, s');
  }

  lemma ClaimKeeps(s: System, t: Tid, add: map<Key, Ptr>, s': System)
    requires Inv(s) && ClaimStep(s, t, add, s')
    ensures Inv(s') && Follows(s, Claim(t, add), s')
  {
    hide EntryInv, OwnerInv, EntriesInv, ClaimStep, Covered, DirectInv;
    ClaimDisk(s, t, add, s');
    CoverKept(s, s');
    forall p | p in s'.ents ensures EntryInv(s', p) && OwnerInv(s', p) {
      ClaimEntry(s, t, add, s', p);
    }
    forall k | k in s'.ht ensures Indexed(s', k) {
      ClaimIndexed(s, t, add, s', k);
    }
    forall k | k in s.disk ensures k in s'.disk && s'.View(k) == s.View(k) {
      ClaimView(s, t, add, s', k);
    }
    ClaimTouched(s, t, add, s');
    Assemble(s');
  }

  lemma Assemble(s: System)
    requires forall p :: p in s.ents ==> EntryInv(s, p) && OwnerInv(s, p)
    requires forall k :: k in s.ht ==> Indexed(s, k)
    requires TouchedInv(s) && DirectInv(s)
    ensures Inv(s)
  {
  }

  lemma ClaimDisk(s: System, t: Tid, add: map<Key, Ptr>, s': System)
    requires ClaimStep(s, t, add, s')
    ensures s'.disk == s.disk && s'.ents.Keys == s.ents.Keys && s'.direct == s.direct && s'.touched == s.touched
  {
  }

  lemma ClaimTouched(s: System, t: Tid, add: map<Key, Ptr>, s': System)
    requires Inv(s) && ClaimStep(s, t, add, s')
    ensures TouchedInv(s')
  {
    hide EntryInv, Covered, DirectInv;
    forall k | k in s.touched && s.Holding(k) && s.ents[s.ht[k]].lock > 0 ensures s'.ents[s.ht[k]] == s.ents[s.ht[k]] {
      EntryOf(s, s.ht[k]);
    }
    TouchedKept(s, s');
  }

  lemma ClaimIndexed(s: System, t: Tid, add: map<Key, Ptr>, s': System, k: Key)
    requires Inv(s) && ClaimStep(s, t, add, s') && k in s'.ht
    ensures Indexed(s', k)
  {
    hide EntryInv, OwnerInv, EntriesInv;
    if k in add {
      assert NewKeyIs(add, add[k], s'.ents[add[k]].newKey);
    } else {
      assert Indexed(s, k);
      var p := s.ht[k];
      ClaimKey(s, t, add, s', p);
    }
  }

  lemma ClaimKey(s: System, t: Tid, add: map<Key, Ptr>, s': System, p: Ptr)
    requires Inv(s) && ClaimStep(s, t, add, s') && p in s.ents
    ensures s'.ents[p].key == s.ents[p].key && s'.ents[p].content == s.ents[p].content
    ensures s.ents[p].newKey.Some? ==> s'.ents[p].newKey == s.ents[p].newKey
    ensures s'.ents[p].data == s.ents[p].data
    ensures s'.ents[p].newKey.Some? && s'.ents[p].newKey != s.ents[p].newKey ==> s'.ents[p].newKey.value in add
  {
    EntryOf(s, p);
    hide Inv, EntryInv;
  }

  lemma NotYet(s: System, t: Tid, p: Ptr, k: Key)
    requires Inv(s) && p in s.ents && k !in s.ht
    ensures s.ents[p].key != Some(k) && s.ents[p].newKey != Some(k)
  {
    EntryOf(s, p);
    KeyOf(s, p);
  }

  lemma ClaimView(s: System, t: Tid, add: map<Key, Ptr>, s': System, k: Key)
    requires Inv(s) && ClaimStep(s, t, add, s') && k in s.disk
    ensures k in s'.disk && s'.View(k) == s.View(k)
  {
    hide EntryInv, OwnerInv, EntriesInv, TouchedInv, DirectInv;
    if k in s.ht {
      TableOf(s, k);
      ClaimKey(s, t, add, s', s.ht[k]);
    } else if k in add {
      ClaimKey(s, t, add, s', add[k]);
      NotYet(s, t, add[k], k);
    }
  }

  /** What becomes of one entry. */
  ghost predicate ClaimedOne(s: System, t: Tid, s': System, p: Ptr)
    requires p in s.ents
  {
    && s'.disk == s.disk && s'.direct == s.direct && s'.touched == s.touched && s'.phase == s.phase[t := Flushing]
    && p in s'.ents && (forall k :: k in s.ht ==> k in s'.ht && s'.ht[k] == s.ht[k])
    && s'.ents[p] == Claimed(t, p, s.ents[p], s'.ents[p].newKey)
    && (s.ents[p].owner == Some(t) ==>
          match s'.ents[p].newKey
          case None => s.ents[p].key.Some?
          case Some(k) => k in s.disk && k !in s.ht && k in s'.ht && s'.ht[k] == p)
  }

  lemma ClaimOne(s: System, t: Tid, add: map<Key, Ptr>, s': System, p: Ptr)
    requires ClaimStep(s, t, add, s') && p in s.ents
    ensures s.Phase(t) == Gathering && ClaimedOne(s, t, s', p)
  {
  }

  lemma ClaimEntry(s: System, t: Tid, add: map<Key, Ptr>, s': System, p: Ptr)
    requires Inv(s) && ClaimStep(s, t, add, s') && p in s.ents
    ensures EntryInv(s', p) && OwnerInv(s', p)
  {
    ClaimCover(s, t, add, s');
    EntryOf(s, p);
    ClaimOne(s, t, add, s', p);
    hide Covered, Inv, ClaimStep, EntryInv, OwnerInv;
    if s.ents[p].owner != Some(t) {
      KeyOf(s, p);
      Untouched(s, s', p);
    } else {
      hide ClaimedOne;
      ClaimOwn(s, t, s', p);
    }
  }

  lemma ClaimCover(s: System, t: Tid, add: map<Key, Ptr>, s': System)
    requires ClaimStep(s, t, add, s')
    ensures forall k :: Covered(s', k) == Covered(s, k)
  {
    ClaimDisk(s, t, add, s');
    CoverKept(s, s');
  }

  lemma ClaimOwn(s: System, t: Tid, s': System, p: Ptr)
    requires p in s.ents && EntryInv(s, p) && OwnerInv(s, p) && s.Phase(t) == Gathering && ClaimedOne(s, t, s', p)
    requires s.ents[p].owner == Some(t) && forall k :: Covered(s', k) == Covered(s, k)
    ensures EntryInv(s', p) && OwnerInv(s', p)
  {
    hide Covered;
  }

  lemma WriteOutKeeps(s: System, t: Tid, p: Ptr, s': System)
    requires Inv(s) && WriteOutStep(s, t, p, s')
    ensures Inv(s') && Follows(s, WriteOut(t, p), s')
  {
    WriteOutEntry(s, t, p, s');
    WriteOutBeside(s, t, p, s');
    hide *;
    BesideKeeps(s, p, s');
  }

  lemma WriteOutBeside(s: System, t: Tid, p: Ptr, s': System)
    requires WriteOutStep(s, t, p, s') && s.Holding(s.ents[p].key.value) && s.ents[p].key.value in s.disk && s.ht[s.ents[p].key.value] == p
    ensures Beside(s, p, s') && Follows(s, WriteOut(t, p), s')
  {
    SameViews(s, p, s');
  }

  lemma WriteOutEntry(s: System, t: Tid, p: Ptr, s': System)
    requires Inv(s) && WriteOutStep(s, t, p, s')
    ensures EntryInv(s', p) && OwnerInv(s', p)
    ensures s.Holding(s.ents[p].key.value) && s.ents[p].key.value in s.disk && s.ht[s.ents[p].key.value] == p
  {
    EntryOf(s, p);
    hide Covered, Inv;
  }

  lemma FlushedKeeps(s: System, t: Tid, s': System)
    requires Inv(s) && FlushedStep(s, t, s')
    ensures Inv(s') && Follows(s, Flushed(t), s')
  {
    forall p | p in s.ents ensures OwnerInv(s', p) {
      EntryOf(s, p);
    }
    hide Inv, OwnerInv;
    OwnersKeep(s, s');
  }

  lemma LoadKeeps(s: System, t: Tid, p: Ptr, s': System)
    requires Inv(s) && LoadStep(s, t, p, s')
    ensures Inv(s') && (Follows(s, Load(t, p), s') <==> Safe(s, Load(t, p)))
  {
    EntryOf(s, p);
    LoadEntry(s, t, p, s');
    LoadViews(s, t, p, s');
    hide EntryInv, OwnerInv, Inv, Covered;
    BesideKeeps(s, p, s');
  }

  lemma LoadEntry(s: System, t: Tid, p: Ptr, s': System)
    requires LoadStep(s, t, p, s') && EntryInv(s, p) && OwnerInv(s, p)
    ensures EntryInv(s', p) && OwnerInv(s', p) && s.ents[p].lock == 0
  {
    hide Covered;
  }

  lemma LoadViews(s: System, t: Tid, p: Ptr, s': System)
    requires Inv(s) && LoadStep(s, t, p, s')
    ensures (forall k :: k in s.disk ==> s'.View(k) == s.View(k)) <==> Backed(s, p)
  {
    EntryOf(s, p);
    KeyOf(s, p);
    hide Inv, OwnerInv;
    if s.ents[p].key.Some? && s.ents[p].content == s.ents[p].key {
      var k := s.ents[p].key.value;
      assert s.Holding(k) && !s'.Holding(k);
    }
  }

  lemma FinishKeeps(s: System, t: Tid, writes: map<Key, Block>, lock: bool, s': System)
    requires Inv(s) && FinishStep(s, t, writes, lock, s')
    ensures Inv(s') && (Follows(s, Finish(t, writes, lock), s') <==> Safe(s, Finish(t, writes, lock)))
  {
    hide *;
    FinishInv(s, t, writes, lock, s');
    FinishFollows(s, t, writes, lock, s');
  }

  lemma FinishInv(s: System, t: Tid, writes: map<Key, Block>, lock: bool, s': System)
    requires Inv(s) && FinishStep(s, t, writes, lock, s')
    ensures Inv(s')
  {
    hide EntryInv, OwnerInv, EntriesInv, Covered, DirectInv, TouchedInv, TableInv, FinishStep;
    FinishDisk(s, t, writes, lock, s');
    FinishCover(s, t, writes, lock, s');
    FinishTouched(s, t, writes, lock, s');
    assert TouchedInv(s') && DirectInv(s');
    hide Inv;
    forall p | p in s'.ents ensures EntryInv(s', p) && OwnerInv(s', p) {
      FinishEntry(s, t, writes, lock, s', p);
    }
    forall k | k in s'.ht ensures Indexed(s', k) {
      FinishIndexed(s, t, writes, lock, s', k);
    }
    Assemble(s');
  }

  lemma FinishIndexed(s: System, t: Tid, writes: map<Key, Block>, lock: bool, s': System, k: Key)
    requires Inv(s) && FinishStep(s, t, writes, lock, s') && k in s'.ht
    ensures Indexed(s', k)
  {
    FinishWrites(s, t, writes, lock, s', k);
    TableOf(s, k);
    FinishOne(s, t, writes, lock, s', s.ht[k]);
    hide Inv, FinishStep;
  }

  lemma FinishTouched(s: System, t: Tid, writes: map<Key, Block>, lock: bool, s': System)
    requires Inv(s) && FinishStep(s, t, writes, lock, s')
    ensures TouchedInv(s')
  {
    hide EntryInv, Covered, DirectInv;
    forall k | k in s.touched && s.Holding(k) && s.ents[s.ht[k]].lock > 0 ensures s.ents[s.ht[k]].owner != Some(t) {
      EntryOf(s, s.ht[k]);
      LockedOn(s, s.ht[k]);
    }
    TouchedKept(s, s');
  }

  lemma LockedOn(s: System, p: Ptr)
    requires p in s.ents && EntryInv(s, p) && s.ents[p].lock > 0
    ensures s.ents[p].list.Locked?
  {
  }

  lemma FinishFollows(s: System, t: Tid, writes: map<Key, Block>, lock: bool, s': System)
    requires Inv(s) && FinishStep(s, t, writes, lock, s')
    ensures Follows(s, Finish(t, writes, lock), s') <==> Safe(s, Finish(t, writes, lock))
  {
    hide Inv, EntryInv, OwnerInv, Covered, Backed, System.View, FinishStep;
    assert s'.disk == s.disk by { FinishDisk(s, t, writes, lock, s'); }
    if Safe(s, Finish(t, writes, lock)) {
      forall k | k in s.disk ensures s'.View(k) == if k in writes then writes[k] else s.View(k) {
        FinishView(s, t, writes, lock, s', k);
      }
    }
    if Follows(s, Finish(t, writes, lock), s') {
      forall p | s.Owned(t, p) && s.ents[p].newKey.Some? ensures Backed(s, p) {
        FinishBacked(s, t, writes, lock, s', p);
      }
    }
  }

  lemma FinishDisk(s: System, t: Tid, writes: map<Key, Block>, lock: bool, s': System)
    requires FinishStep(s, t, writes, lock, s')
    ensures s'.disk == s.disk && s'.direct == s.direct && s'.touched == s.touched && s'.ents.Keys == s.ents.Keys
  {
  }

  lemma FinishBacked(s: System, t: Tid, writes: map<Key, Block>, lock: bool, s': System, p: Ptr)
    requires Inv(s) && FinishStep(s, t, writes, lock, s') && s.Owned(t, p) && s.ents[p].newKey.Some?
    requires forall k :: k in s.disk ==> s'.View(k) == if k in writes then writes[k] else s.View(k)
    ensures Backed(s, p)
  {
    EntryOf(s, p);
    if s.ents[p].key.Some? {
      var k := s.ents[p].key.value;
      KeyOf(s, p);
      hide Inv;
      assert k !in s'.ht;
      assert k !in writes;
    }
  }

  /** What becomes of one entry. */
  ghost predicate FinishedOne(s: System, t: Tid, writes: map<Key, Block>, lock: bool, s': System, p: Ptr)
    requires p in s.ents
  {
    && s'.disk == s.disk && s'.direct == s.direct && s'.touched == s.touched && s'.phase == s.phase[t := Outside]
    && p in s'.ents && s'.ents[p] == Finished(t, s.ents[p], writes, lock)
    && (s.ents[p].owner == Some(t) && s.ents[p].newKey.Some? ==>
          s.ents[p].newKey.value in writes || s.ents[p].content == s.ents[p].newKey)
    && (forall k :: k in s.ht && s.ht[k] == p && (s.ents[p].owner == Some(t) && s.ents[p].newKey.Some? ==> s.ents[p].newKey == Some(k)) ==>
          k in s'.ht && s'.ht[k] == p)
  }

  lemma FinishOne(s: System, t: Tid, writes: map<Key, Block>, lock: bool, s': System, p: Ptr)
    requires FinishStep(s, t, writes, lock, s') && p in s.ents
    ensures s.Phase(t) == Loading && FinishedOne(s, t, writes, lock, s', p)
  {
  }

  lemma FinishEntry(s: System, t: Tid, writes: map<Key, Block>, lock: bool, s': System, p: Ptr)
    requires Inv(s) && FinishStep(s, t, writes, lock, s') && p in s.ents
    ensures EntryInv(s', p) && OwnerInv(s', p)
  {
    FinishCover(s, t, writes, lock, s');
    EntryOf(s, p);
    FinishOne(s, t, writes, lock, s', p);
    hide Covered, Inv, FinishStep, EntryInv, OwnerInv;
    if s.ents[p].owner != Some(t) {
      KeyOf(s, p);
      Untouched(s, s', p);
    } else {
      hide FinishedOne;
      FinishOwn(s, t, writes, lock, s', p);
    }
  }

  lemma FinishCover(s: System, t: Tid, writes: map<Key, Block>, lock: bool, s': System)
    requires FinishStep(s, t, writes, lock, s')
    ensures (forall k :: Covered(s', k) == Covered(s, k)) && (DirectInv(s) ==> DirectInv(s'))
  {
    FinishDisk(s, t, writes, lock, s');
    CoverKept(s, s');
  }

  lemma FinishOwn(s: System, t: Tid, writes: map<Key, Block>, lock: bool, s': System, p: Ptr)
    requires p in s.ents && EntryInv(s, p) && OwnerInv(s, p) && s.Phase(t) == Loading && FinishedOne(s, t, writes, lock, s', p)
    requires s.ents[p].owner == Some(t) && forall k :: Covered(s', k) == Covered(s, k)
    ensures EntryInv(s', p) && OwnerInv(s', p)
  {
    hide Covered;
  }

  lemma FinishView(s: System, t: Tid, writes: map<Key, Block>, lock: bool, s': System, k: Key)
    requires Inv(s) && FinishStep(s, t, writes, lock, s') && k in s.disk
    requires forall p :: s.Owned(t, p) && s.ents[p].newKey.Some? ==> Backed(s, p)
    ensures s'.View(k) == if k in writes then writes[k] else s.View(k)
  {
    FinishWrites(s, t, writes, lock, s', k);
    if k in s.ht {
      TableOf(s, k);
      EntryOf(s, s.ht[k]);
      KeyOf(s, s.ht[k]);
      FinishOne(s, t, writes, lock, s', s.ht[k]);
    }
    hide Inv, Covered, FinishStep;
  }

  /** A block is in the hash table afterwards if it was before, and does not leave; what is written belongs to the thread. */
  lemma FinishWrites(s: System, t: Tid, writes: map<Key, Block>, lock: bool, s': System, k: Key)
    requires FinishStep(s, t, writes, lock, s')
    ensures s'.disk == s.disk && (k in s'.ht ==> k in s.ht && s'.ht[k] == s.ht[k] && (s.ht[k] in s.ents ==> !Leaves(s, t, k)))
    ensures k in writes ==> k in s.ht && s.Owned(t, s.ht[k]) && s.ents[s.ht[k]].newKey == Some(k)
  {
  }

  lemma CleanKeeps(s: System, t: Tid, batch: set<Ptr>, s': System)
    requires Inv(s) && CleanStartStep(s, t, batch, s')
    ensures Inv(s') && Follows(s, CleanStart(t, batch), s')
  {
    forall p | p in s.ents ensures OwnerInv(s', p) {
      CleanOwner(s, t, batch, s', p);
    }
    CleanOwners(s, t, batch, s');
    hide Inv, OwnerInv, CleanStartStep, OnlyOwners;
    OwnersKeep(s, s');
  }

  lemma CleanOwners(s: System, t: Tid, batch: set<Ptr>, s': System)
    requires CleanStartStep(s, t, batch, s')
    ensures OnlyOwners(s, s')
  {
  }

  lemma CleanOwner(s: System, t: Tid, batch: set<Ptr>, s': System, p: Ptr)
    requires Inv(s) && CleanStartStep(s, t, batch, s') && p in s.ents
    ensures OwnerInv(s', p)
  {
    EntryOf(s, p);
    hide Inv, EntryInv;
  }

  lemma CleanEndKeeps(s: System, t: Tid, s': System)
    requires Inv(s) && CleanEndStep(s, t, s')
    ensures Inv(s') && Follows(s, CleanEnd(t), s')
  {
    forall p | p in s.ents ensures OwnerInv(s', p) {
      CleanEndOwner(s, t, s', p);
    }
    CleanEndOwners(s, t, s');
    hide Inv, OwnerInv, CleanEndStep, OnlyOwners;
    OwnersKeep(s, s');
  }

  lemma CleanEndOwners(s: System, t: Tid, s': System)
    requires CleanEndStep(s, t, s')
    ensures OnlyOwners(s, s')
  {
  }

  lemma CleanEndOwner(s: System, t: Tid, s': System, p: Ptr)
    requires Inv(s) && CleanEndStep(s, t, s') && p in s.ents
    ensures OwnerInv(s', p)
  {
    EntryOf(s, p);
    hide Inv, EntryInv;
  }

  /** A step that changes the entry of one block, but not its key. */
  ghost predicate Changes(s: System, k: Key, s': System) {
    && s.Holding(k) && s'.ht == s.ht && s'.disk == s.disk && s'.phase == s.phase && s.ht[k] in s'.ents
    && s'.ents == s.ents[s.ht[k] := s'.ents[s.ht[k]]] && s'.Holding(k)
    && s'.ents[s.ht[k]].newKey == s.ents[s.ht[k]].newKey
    && (forall j :: j != k && Covered(s, j) ==> Covered(s', j))
    && EntryInv(s', s.ht[k]) && OwnerInv(s', s.ht[k]) && TouchedInv(s') && DirectInv(s')
  }

  lemma ChangeKeeps(s: System, k: Key, s': System)
    requires Inv(s) && Changes(s, k, s')
    ensures Inv(s')
    ensures forall j :: j in s.disk ==> s'.View(j) == if j == k then s'.ents[s.ht[k]].data else s.View(j)
  {
    hide EntryInv, OwnerInv, EntriesInv, TouchedInv, DirectInv, Covered;
    forall q | q in s.ents && q != s.ht[k] ensures EntryInv(s', q) && OwnerInv(s', q) {
      ChangeOther(s, k, s', q);
    }
    forall j | j in s'.ht ensures Indexed(s', j) {
      TableOf(s, j);
    }
    hide Inv;
    assert EntryInv(s', s.ht[k]) && OwnerInv(s', s.ht[k]);
    Assemble(s');
  }

  lemma ChangeOther(s: System, k: Key, s': System, q: Ptr)
    requires Inv(s) && Changes(s, k, s') && q in s.ents && q != s.ht[k]
    ensures EntryInv(s', q) && OwnerInv(s', q)
  {
    hide EntryInv, OwnerInv, EntriesInv, TouchedInv, DirectInv, Covered, Inv;
    EntryOf(s, q);
    KeyOf(s, q);
    Untouched(s, s', q);
  }

  lemma HitKeeps(s: System, k: Key, e: Entry, s': System)
    requires Inv(s) && Found(s, k) && s' == s.(ents := s.ents[s.ht[k] := e])
    requires e == s.ents[s.ht[k]].(data := e.data, dirty := true) || (e == Repinned(s.ents[s.ht[k]], e.lock) && e.lock > 0)
    ensures Inv(s')
    ensures forall j :: j in s.disk ==> s'.View(j) == if j == k then e.data else s.View(j)
  {
    Looked(s, k);
    CoverKept(s, s');
    HitChanges(s, k, e, s');
    hide *;
    ChangeKeeps(s, k, s');
  }

  lemma HitChanges(s: System, k: Key, e: Entry, s': System)
    requires Inv(s) && Found(s, k) && s' == s.(ents := s.ents[s.ht[k] := e])
    requires e == s.ents[s.ht[k]].(data := e.data, dirty := true) || (e == Repinned(s.ents[s.ht[k]], e.lock) && e.lock > 0)
    ensures Changes(s, k, s')
  {
    Looked(s, k);
    CoverKept(s, s');
    EntryOf(s, s.ht[k]);
    hide Covered, DirectInv, EntriesInv, TableInv;
    TouchedKept(s, s');
  }

  lemma TouchKeeps(s: System, k: Key, data: Block, s': System)
    requires Inv(s) && TouchStep(s, k, data, s')
    ensures Inv(s') && Follows(s, Touch(k, data), s')
  {
    TouchChanges(s, k, data, s');
    hide Changes, Inv;
    ChangeKeeps(s, k, s');
  }

  lemma TouchChanges(s: System, k: Key, data: Block, s': System)
    requires Inv(s) && TouchStep(s, k, data, s')
    ensures Changes(s, k, s')
  {
    EntryOf(s, s.ht[k]);
    TouchCovers(s, k, s');
    TouchTouched(s, k, data, s');
    hide Covered, Inv, TouchedInv;
  }

  lemma TouchTouched(s: System, k: Key, data: Block, s': System)
    requires Inv(s) && TouchStep(s, k, data, s')
    ensures TouchedInv(s') && (DirectInv(s') ==> DirectInv(s))
  {
    hide EntriesInv, TableInv;
  }

  lemma TouchCovers(s: System, k: Key, s': System)
    requires s'.direct == s.direct && s'.touched == s.touched + {k} && s'.disk == s.disk
    ensures Covered(s', k) && (forall j :: Covered(s, j) ==> Covered(s', j)) && (DirectInv(s) ==> DirectInv(s'))
  {
    forall j | Covered(s, j) ensures Covered(s', j) {
      if j !in s.touched {
        var t: Tid :| s.Outstanding(t, j) && s.direct[t].dev[j].hit;
        assert s'.Outstanding(t, j);
      }
    }
  }

  lemma MarkKeeps(s: System, k: Key, s': System)
    requires Inv(s) && MarkStep(s, k, s')
    ensures Inv(s') && Follows(s, MarkDirty(k), s')
  {
    Looked(s, k);
    MarkChanges(s, k, s');
    hide Changes, Inv;
    ChangeKeeps(s, k, s');
  }

  lemma MarkChanges(s: System, k: Key, s': System)
    requires Inv(s) && MarkStep(s, k, s')
    ensures Changes(s, k, s')
  {
    Looked(s, k);
    EntryOf(s, s.ht[k]);
    MarkCovers(s, k, s');
    MarkTouched(s, k, s');
    hide Covered, Inv, TouchedInv, DirectInv;
  }

  lemma MarkTouched(s: System, k: Key, s': System)
    requires Inv(s) && MarkStep(s, k, s')
    ensures TouchedInv(s') && DirectInv(s')
  {
    Looked(s, k);
    hide EntriesInv, TableInv;
    TouchedKept(s, s');
  }

  lemma MarkCovers(s: System, k: Key, s': System)
    requires s'.direct == s.direct && s'.touched == s.touched - {k} && s'.disk == s.disk
    ensures (forall j :: j != k && Covered(s, j) ==> Covered(s', j)) && (DirectInv(s) ==> DirectInv(s'))
  {
    forall j | j != k && Covered(s, j) ensures Covered(s', j) {
      if j !in s.touched {
        var t: Tid :| s.Outstanding(t, j) && s.direct[t].dev[j].hit;
        assert s'.Outstanding(t, j);
      }
    }
  }

  // ---- large requests

  /** A step that only changes what a large request has still to do. */
  lemma OnlyDirect(s: System, s': System)
    requires Inv(s) && s' == s.(direct := s'.direct) && DirectInv(s') && forall k :: Covered(s, k) ==> Covered(s', k)
    ensures Inv(s') && forall k :: k in s.disk ==> s'.View(k) == s.View(k)
  {
    hide EntryInv, OwnerInv, Covered, DirectInv;
    forall q | q in s.ents ensures EntryInv(s', q) && OwnerInv(s', q) {
      EntryOf(s, q);
      KeyOf(s, q);
      Untouched(s, s', q);
    }
    forall k | k in s'.ht ensures Indexed(s', k) {
      TableOf(s, k);
    }
    TouchedKept(s, s');
    hide EntriesInv, TableInv;
    Assemble(s');
  }

  /** Device writes outstanding stay outstanding while thread t is not at them. */
  lemma DirectCovers(s: System, t: Tid, s': System)
    requires s'.touched == s.touched && forall u :: u != t ==> (u in s'.direct <==> u in s.direct) && (u in s.direct ==> s'.direct[u] == s.direct[u])
    requires forall k :: s.Outstanding(t, k) && s.direct[t].dev[k].hit ==> s'.Outstanding(t, k) && s'.direct[t].dev[k].hit
    ensures forall k :: Covered(s, k) ==> Covered(s', k)
  {
    forall k | Covered(s, k) ensures Covered(s', k) {
      if k !in s.touched {
        var u: Tid :| s.Outstanding(u, k) && s.direct[u].dev[k].hit;
        assert s'.Outstanding(u, k);
      }
    }
  }

  lemma StartKeeps(s: System, t: Tid, d: Direct, s': System)
    requires Inv(s) && StartStep(s, t, d, s')
    requires match d case Writing(todo, dev) => todo.Keys <= s.disk.Keys && dev == map[]
                     case Reading(from, buf) => from <= s.disk.Keys && buf == map[]
    ensures Inv(s') && s'.disk == s.disk && forall k :: k in s.disk ==> s'.View(k) == s.View(k)
  {
    hide EntriesInv, TableInv, TouchedInv, Covered;
    DirectCovers(s, t, s');
    OnlyDirect(s, s');
  }

  lemma CopyInKeeps(s: System, t: Tid, k: Key, s': System)
    requires Inv(s) && CopyInStep(s, t, k, s')
    ensures Inv(s') && Follows(s, CopyIn(t, k), s')
  {
    CopyInCovers(s, t, k, s');
    hide Covered;
    if k in s.ht {
      CopyInHit(s, t, k, s');
    } else {
      hide Inv, DirectInv;
      OnlyDirect(s, s');
    }
  }

  lemma CopyInHit(s: System, t: Tid, k: Key, s': System)
    requires Inv(s) && CopyInStep(s, t, k, s') && k in s.ht && DirectInv(s') && forall j :: Covered(s, j) ==> Covered(s', j)
    ensures Inv(s') && Follows(s, CopyIn(t, k), s')
  {
    Looked(s, k);
    CopyInChanges(s, t, k, s');
    hide Inv, Changes, Covered, DirectInv;
    ChangeKeeps(s, k, s');
  }

  lemma CopyInCovers(s: System, t: Tid, k: Key, s': System)
    requires Inv(s) && CopyInStep(s, t, k, s')
    ensures DirectInv(s') && forall j :: Covered(s, j) ==> Covered(s', j)
  {
    hide EntriesInv, TableInv, TouchedInv, Covered;
    DirectCovers(s, t, s');
  }

  lemma CopyInChanges(s: System, t: Tid, k: Key, s': System)
    requires Inv(s) && CopyInStep(s, t, k, s') && k in s.ht && DirectInv(s') && s.Holding(k)
    requires forall j :: Covered(s, j) ==> Covered(s', j)
    ensures Changes(s, k, s')
  {
    Looked(s, k);
    EntryOf(s, s.ht[k]);
    assert Covered(s', k) by { assert s'.Outstanding(t, k); }
    hide Covered, EntriesInv, TableInv;
    TouchedKept(s, s');
  }

  lemma ReadKeeps(s: System, t: Tid, s': System)
    requires Inv(s) && t in s.direct && !(s.direct[t].Writing? && s.direct[t].dev != map[]) && s' == s.(direct := s'.direct) && DirectInv(s')
    requires forall u :: u != t ==> (u in s'.direct <==> u in s.direct) && (u in s.direct ==> s'.direct[u] == s.direct[u])
    ensures Inv(s') && forall k :: k in s.disk ==> s'.View(k) == s.View(k)
  {
    hide EntriesInv, TableInv, TouchedInv, Covered;
    DirectCovers(s, t, s');
    OnlyDirect(s, s');
  }

  /** A device write keeps the invariant and follows the array exactly if it lands. */
  lemma DevWriteExact(s: System, t: Tid, k: Key, s': System)
    requires Inv(s) && DevWriteStep(s, t, k, s')
    ensures k in s.disk && (Inv(s') && Follows(s, DevWrite(t, k), s') <==> Lands(s, t, k))
  {
    DevWriteOn(s, t, k);
    if Lands(s, t, k) {
      DevWriteLands(s, t, k, s');
    }
    if Inv(s') && Follows(s, DevWrite(t, k), s') {
      DevWriteLanded(s, t, k, s');
    }
  }

  lemma DevWriteOn(s: System, t: Tid, k: Key)
    requires Inv(s) && s.Outstanding(t, k)
    ensures k in s.disk
  {
  }

  lemma DevWriteCovers(s: System, t: Tid, k: Key, s': System)
    requires DevWriteStep(s, t, k, s')
    ensures forall j :: j != k ==> (Covered(s', j) <==> Covered(s, j))
    ensures Covered(s', k) <==> CoveredBut(s, t, k)
  {
    forall j, u: Tid ensures s'.Outstanding(u, j) <==> s.Outstanding(u, j) && !(u == t && j == k) {
    }
    forall j, u: Tid | s'.Outstanding(u, j) ensures s'.direct[u].dev[j] == s.direct[u].dev[j] {
    }
  }

  lemma DevWriteLands(s: System, t: Tid, k: Key, s': System)
    requires Inv(s) && DevWriteStep(s, t, k, s') && k in s.disk && Lands(s, t, k)
    ensures Inv(s') && Follows(s, DevWrite(t, k), s')
  {
    DevWriteCovers(s, t, k, s');
    hide Covered, CoveredBut;
    forall q | q in s.ents ensures EntryInv(s', q) && OwnerInv(s', q) {
      DevWriteEntry(s, t, k, s', q);
    }
    hide EntryInv, OwnerInv, Lands;
    forall j | j in s'.ht ensures Indexed(s', j) {
      TableOf(s, j);
    }
    TouchedKept(s, s');
    assert DirectInv(s');
    hide EntriesInv, TableInv, DirectInv, TouchedInv;
    Assemble(s');
    DevWriteView(s, t, k, s');
  }

  lemma DevWriteView(s: System, t: Tid, k: Key, s': System)
    requires DevWriteStep(s, t, k, s') && k in s.disk && Lands(s, t, k)
    ensures Follows(s, DevWrite(t, k), s')
  {
    hide CoveredBut;
  }

  lemma DevWriteEntry(s: System, t: Tid, k: Key, s': System, q: Ptr)
    requires Inv(s) && DevWriteStep(s, t, k, s') && k in s.disk && Lands(s, t, k) && q in s.ents
    requires forall j :: j != k ==> (Covered(s', j) <==> Covered(s, j))
    requires Covered(s', k) <==> CoveredBut(s, t, k)
    ensures EntryInv(s', q) && OwnerInv(s', q)
  {
    EntryOf(s, q);
    hide Inv, Covered, CoveredBut;
  }

  lemma DevWriteLanded(s: System, t: Tid, k: Key, s': System)
    requires Inv(s) && DevWriteStep(s, t, k, s') && k in s.disk && Inv(s') && Follows(s, DevWrite(t, k), s')
    ensures Lands(s, t, k)
  {
    DevWriteCovers(s, t, k, s');
    if k in s.ht && s.ht[k] in s.ents {
      EntryOf(s', s.ht[k]);
    }
    hide Inv, Covered, CoveredBut;
    assert s'.View(k) == if k in Writes(s, DevWrite(t, k)) then Writes(s, DevWrite(t, k))[k] else s.View(k);
  }

  /** Whatever the threads do next, the invariant holds and the cache follows the plain array, exactly if the step is
      safe; and only steps of large writes, those that throw out what one has written, and clients that let go of what
      they have changed can be unsafe. */
  lemma StepKeeps(s: System, step: Step, s': System)
    requires Inv(s) && Next(s, step, s')
    ensures Inv(s') && Follows(s, step, s') <==> Safe(s, step)
  {
    hide Inv, System.View, Follows, Safe;
    if step.Load? || step.Finish? || step.DevWrite? || step.Unpin? {
      UnsafeStepKeeps(s, step, s');
    } else if step.HitRead? || step.HitWrite? || step.Pin? {
      HitStepKeeps(s, step, s');
    } else if step.Touch? || step.MarkDirty? || step.DirectWrite? || step.CopyIn? || step.DirectRead? || step.DevRead? || step.LookUp? || step.DirectEnd? {
      DirectStepKeeps(s, step, s');
    } else {
      LockStepKeeps(s, step, s');
    }
  }

  lemma UnsafeStepKeeps(s: System, step: Step, s': System)
    requires Inv(s) && Next(s, step, s') && (step.Load? || step.Finish? || step.DevWrite? || step.Unpin?)
    ensures Inv(s') && Follows(s, step, s') <==> Safe(s, step)
  {
    hide Inv, System.View, Follows, LoadStep, FinishStep, UnpinStep, Lands, Backed, Marked, Writes;
    match step
    case Load(t, p) => LoadKeeps(s, t, p, s');
    case Finish(t, writes, lock) => FinishKeeps(s, t, writes, lock, s');
    case DevWrite(t, k) => DevWriteExact(s, t, k, s');
    case Unpin(k) => UnpinExact(s, k, s');
  }

  lemma LockStepKeeps(s: System, step: Step, s': System)
    requires Inv(s) && Next(s, step, s')
    requires step.Gather? || step.NewEnt? || step.Claim? || step.WriteOut? || step.Flushed? || step.CleanStart? || step.CleanEnd?
    ensures Inv(s') && Follows(s, step, s') && Safe(s, step)
  {
    hide Inv, Follows, GatherStep, NewEntStep, ClaimStep, WriteOutStep, FlushedStep, CleanStartStep, CleanEndStep;
    match step
    case Gather(t, p) => GatherKeeps(s, t, p, s');
    case NewEnt(t, p) => NewEntKeeps(s, t, p, s');
    case Claim(t, add) => ClaimKeeps(s, t, add, s');
    case WriteOut(t, p) => WriteOutKeeps(s, t, p, s');
    case Flushed(t) => FlushedKeeps(s, t, s');
    case CleanStart(t, batch) => CleanKeeps(s, t, batch, s');
    case CleanEnd(t) => CleanEndKeeps(s, t, s');
  }

  lemma HitStepKeeps(s: System, step: Step, s': System)
    requires Inv(s) && Next(s, step, s') && (step.HitRead? || step.HitWrite? || step.Pin?)
    ensures Inv(s') && Follows(s, step, s') && Safe(s, step)
  {
    hide Inv, System.View;
    if !step.HitRead? {
      Looked(s, step.k);
      HitKeeps(s, step.k, s'.ents[s.ht[step.k]], s');
    }
  }

  /** Letting go of a block keeps the invariant exactly if it is marked. */
  lemma UnpinExact(s: System, k: Key, s': System)
    requires Inv(s) && UnpinStep(s, k, s')
    ensures k in s.ht && s.ht[k] in s.ents && Follows(s, Unpin(k), s') && (Inv(s') <==> Marked(s, k))
  {
    Looked(s, k);
    UnpinCovers(s, k, s');
    UnpinView(s, k, s');
    if Marked(s, k) {
      UnpinChanges(s, k, s');
      hide *;
      ChangeKeeps(s, k, s');
    } else if Inv(s') {
      EntryOf(s', s.ht[k]);
      hide Inv, Due;
    }
  }

  lemma UnpinView(s: System, k: Key, s': System)
    requires UnpinStep(s, k, s') && s.Holding(k)
    ensures Follows(s, Unpin(k), s')
  {
  }

  lemma UnpinChanges(s: System, k: Key, s': System)
    requires Inv(s) && UnpinStep(s, k, s') && s.Holding(k) && Marked(s, k)
    requires forall j :: Covered(s', j) <==> Due(s, j) || j in s'.touched
    ensures Changes(s, k, s')
  {
    Looked(s, k);
    EntryOf(s, s.ht[k]);
    UnpinTouched(s, k, s');
    hide Inv, Due, DirectInv, TouchedInv;
  }

  lemma UnpinTouched(s: System, k: Key, s': System)
    requires Inv(s) && UnpinStep(s, k, s')
    ensures TouchedInv(s') && DirectInv(s')
  {
    Looked(s, k);
    hide EntriesInv, TableInv;
    TouchedKept(s, s');
  }

  lemma UnpinCovers(s: System, k: Key, s': System)
    requires UnpinStep(s, k, s')
    ensures forall j :: Covered(s', j) <==> Due(s, j) || j in s'.touched
  {
    assert forall t: Tid, j :: s'.Outstanding(t, j) <==> s.Outstanding(t, j);
  }

  lemma DirectStepKeeps(s: System, step: Step, s': System)
    requires Inv(s) && Next(s, step, s')
    requires step.Touch? || step.MarkDirty? || step.DirectWrite? || step.CopyIn? || step.DirectRead? || step.DevRead? || step.LookUp? || step.DirectEnd?
    ensures Inv(s') && Follows(s, step, s') && Safe(s, step)
  {
    hide Inv, Follows, TouchStep, MarkStep, CopyInStep;
    match step
    case Touch(k, data) => TouchKeeps(s, k, data, s');
    case MarkDirty(k) => MarkKeeps(s, k, s');
    case CopyIn(t, k) => CopyInKeeps(s, t, k, s');
    case _ => OtherDirectKeeps(s, step, s');
  }

  lemma OtherDirectKeeps(s: System, step: Step, s': System)
    requires Inv(s) && Next(s, step, s') && (step.DirectWrite? || step.DirectRead? || step.DevRead? || step.LookUp? || step.DirectEnd?)
    ensures Inv(s') && Follows(s, step, s')
  {
    hide EntriesInv, TableInv, TouchedInv, System.View;
    if step.DirectWrite? {
      StartKeeps(s, step.t, Writing(step.blocks, map[]), s');
    } else if step.DirectRead? {
      StartKeeps(s, step.t, Reading(step.keys, map[]), s');
    } else {
      ReadStepKeeps(s, step, s');
    }
  }

  lemma ReadStepKeeps(s: System, step: Step, s': System)
    requires Inv(s) && Next(s, step, s') && (step.DevRead? || step.LookUp? || step.DirectEnd?)
    ensures Inv(s') && Follows(s, step, s')
  {
    hide EntriesInv, TableInv, TouchedInv, System.View;
    ReadKeeps(s, step.t, s');
  }

  // ---- what follows from the invariant

  /** No block has two entries, not even one that holds it and one that is to hold it. */
  lemma OneEntry(s: System, p: Ptr, q: Ptr, k: Key)
    requires Inv(s) && p in s.ents && q in s.ents
    requires s.ents[p].key == Some(k) || s.ents[p].newKey == Some(k)
    requires s.ents[q].key == Some(k) || s.ents[q].newKey == Some(k)
    ensures p == q
  {
    assert EntryInv(s, p) && EntryInv(s, q);
  }

  /** An entry being refilled is busy, and found under its old block and under its new one. */
  lemma InFlight(s: System, p: Ptr)
    requires Inv(s) && p in s.ents && s.ents[p].newKey.Some?
    ensures s.ents[p].owner.Some? && s.ents[p].newKey.value in s.ht && s.ht[s.ents[p].newKey.value] == p
    ensures s.ents[p].key.Some? ==> s.ents[p].key.value in s.ht && s.ht[s.ents[p].key.value] == p
  {
    assert EntryInv(s, p);
  }

  /** What a lookup returns is not busy, is the entry of the block asked for, and has its current bytes. */
  lemma Looked(s: System, k: Key)
    requires Inv(s) && Found(s, k)
    ensures k in s.disk && s.ents[s.ht[k]].owner == None && s.ents[s.ht[k]].newKey == None
    ensures s.Holding(k) && s.ents[s.ht[k]].data == s.View(k)
  {
    assert Indexed(s, k) && EntryInv(s, s.ht[k]) && OwnerInv(s, s.ht[k]);
  }

  /** A block is read from the device only while no entry holds it, so that what is read is current. */
  lemma NeverStale(s: System, t: Tid, p: Ptr, s': System)
    requires Inv(s) && LoadStep(s, t, p, s')
    ensures var k := s.ents[p].newKey.value;
      (forall q :: q in s.ents ==> s.ents[q].key != Some(k)) && s'.ents[p].data == s.View(k)
  {
    var k := s.ents[p].newKey.value;
    assert EntryInv(s, p);
    forall q | q in s.ents ensures s.ents[q].key != Some(k) {
      assert EntryInv(s, q);
    }
  }

  predicate Pinned(s: System, k: Key, p: Ptr) {
    k in s.ht && s.ht[k] == p && p in s.ents && s.ents[p].key == Some(k) && s.ents[p].lock > 0
  }

  lemma PinnedStays(s: System, step: Step, s': System, k: Key, p: Ptr)
    requires Inv(s) && Next(s, step, s') && Pinned(s, k, p)
    ensures Pinned(s', k, p)
      || (step == Unpin(k) && k in s'.ht && s'.ht[k] == p && p in s'.ents && s'.ents[p] == Repinned(s.ents[p], 0))
  {
    PinnedOwner(s, k, p);
    hide *;
    if step.Claim? || step.Finish? {
      PinnedEvict(s, step, s', k, p);
    } else if step.HitRead? || step.HitWrite? || step.Pin? || step.Unpin? {
      PinnedHit(s, step, s', k, p);
    } else {
      PinnedElse(s, step, s', k, p);
    }
  }

  lemma PinnedEvict(s: System, step: Step, s': System, k: Key, p: Ptr)
    requires Next(s, step, s') && Pinned(s, k, p) && p in s.ents && (step.Claim? || step.Finish?)
    requires s.ents[p].owner.Some? ==> s.Phase(s.ents[p].owner.value) == Cleaning
    ensures Pinned(s', k, p)
  {
    hide Pinned, ClaimStep, FinishStep;
    if step.Claim? {
      PinnedClaim(s, step.t, step.add, s', k, p);
    } else {
      PinnedFinish(s, step.t, step.writes, step.lock, s', k, p);
    }
  }

  lemma PinnedClaim(s: System, t: Tid, add: map<Key, Ptr>, s': System, k: Key, p: Ptr)
    requires ClaimStep(s, t, add, s') && Pinned(s, k, p)
    ensures Pinned(s', k, p)
  {
  }

  lemma PinnedFinish(s: System, t: Tid, writes: map<Key, Block>, lock: bool, s': System, k: Key, p: Ptr)
    requires FinishStep(s, t, writes, lock, s') && Pinned(s, k, p)
    requires s.ents[p].owner.Some? ==> s.Phase(s.ents[p].owner.value) == Cleaning
    ensures Pinned(s', k, p)
  {
  }

  lemma PinnedElse(s: System, step: Step, s': System, k: Key, p: Ptr)
    requires Next(s, step, s') && Pinned(s, k, p)
    requires !(step.Claim? || step.Finish? || step.HitRead? || step.HitWrite? || step.Pin? || step.Unpin?)
    ensures Pinned(s', k, p)
  {
    if step.Gather? || step.NewEnt? || step.WriteOut? || step.Flushed? || step.Load? || step.CleanStart? || step.CleanEnd? {
      PinnedLock(s, step, s', k, p);
    }
  }

  lemma PinnedLock(s: System, step: Step, s': System, k: Key, p: Ptr)
    requires Next(s, step, s') && Pinned(s, k, p)
    requires step.Gather? || step.NewEnt? || step.WriteOut? || step.Flushed? || step.Load? || step.CleanStart? || step.CleanEnd?
    ensures Pinned(s', k, p)
  {
  }

  lemma PinnedHit(s: System, step: Step, s': System, k: Key, p: Ptr)
    requires Inv(s) && Next(s, step, s') && Pinned(s, k, p) && (step.HitRead? || step.HitWrite? || step.Pin? || step.Unpin?)
    ensures Pinned(s', k, p)
      || (step == Unpin(k) && k in s'.ht && s'.ht[k] == p && p in s'.ents && s'.ents[p] == Repinned(s.ents[p], 0))
  {
    Looked(s, step.k);
    hide Inv, UnpinStep, Pinned;
    if step.Unpin? {
      PinnedUnpin(s, step.k, s', k, p);
    } else {
      PinnedOther(s, step, s', k, p);
    }
  }

  lemma PinnedUnpin(s: System, j: Key, s': System, k: Key, p: Ptr)
    requires UnpinStep(s, j, s') && Pinned(s, k, p) && s.Holding(j)
    ensures Pinned(s', k, p) || (j == k && k in s'.ht && s'.ht[k] == p && p in s'.ents && s'.ents[p] == Repinned(s.ents[p], 0))
  {
  }

  lemma PinnedOther(s: System, step: Step, s': System, k: Key, p: Ptr)
    requires Next(s, step, s') && Pinned(s, k, p) && (step.HitRead? || step.HitWrite? || step.Pin?) && s.Holding(step.k)
    ensures Pinned(s', k, p)
  {
  }

  /** A pinned entry is on the locked list, and if busy, only so that its clone can be written. */
  lemma PinnedOwner(s: System, k: Key, p: Ptr)
    requires Inv(s) && Pinned(s, k, p)
    ensures p in s.ents && s.ents[p].lock > 0 && s.ents[p].list.Locked? && s.ents[p].newKey == None
    ensures s.ents[p].owner.Some? ==> s.Phase(s.ents[p].owner.value) == Cleaning
  {
    assert EntryInv(s, p) && OwnerInv(s, p);
  }

  // ---- runs

  ghost predicate Init(s: System) {
    s.ents == map[] && s.ht == map[] && s.phase == map[] && s.direct == map[] && s.touched == {}
  }

  ghost predicate Run(ss: seq<System>, steps: seq<Step>) {
    && |ss| == |steps| + 1 && Init(ss[0])
    && forall i :: 0 <= i < |steps| ==> Next(ss[i], steps[i], ss[i + 1])
  }

  /** What block k of a plain array holds after the first n steps. */
  function Stored(ss: seq<System>, steps: seq<Step>, n: nat, k: Key): Block
    requires n <= |steps| < |ss| && k in ss[0].disk
  {
    if n == 0 then ss[0].disk[k]
    else
      var last := Writes(ss[n - 1], steps[n - 1]);
      if k in last then last[k] else Stored(ss, steps, n - 1, k)
  }

  /** Everything is in order after n steps, and clients see the array of last writes. */
  ghost predicate ArrayAt(ss: seq<System>, steps: seq<Step>, n: nat)
    requires n <= |steps| < |ss|
  {
    && Inv(ss[n]) && ss[n].disk.Keys == ss[0].disk.Keys
    && forall k :: k in ss[0].disk ==> ss[n].View(k) == Stored(ss, steps, n, k)
  }

  ghost predicate SafeUpTo(ss: seq<System>, steps: seq<Step>, n: nat)
    requires n <= |steps| < |ss|
  {
    forall i :: 0 <= i < n ==> Safe(ss[i], steps[i])
  }

  /** Over any interleaving, the cache follows the array of last writes as long as all steps are safe ... */
  lemma {:induction false} RunIsAnArray(ss: seq<System>, steps: seq<Step>, n: nat)
    requires Run(ss, steps) && n <= |steps| && SafeUpTo(ss, steps, n)
    ensures ArrayAt(ss, steps, n)
  {
    if n == 0 {
    } else {
      RunIsAnArray(ss, steps, n - 1);
      RunStep(ss, steps, n - 1);
      StepKeeps(ss[n - 1], steps[n - 1], ss[n]);
      hide Inv, Next, System.View, Run, Safe;
    }
  }

  /** ... and no longer. */
  lemma RunExact(ss: seq<System>, steps: seq<Step>)
    requires Run(ss, steps)
    ensures SafeUpTo(ss, steps, |steps|) <==> forall n :: 0 <= n <= |steps| ==> ArrayAt(ss, steps, n)
  {
    if SafeUpTo(ss, steps, |steps|) {
      forall n | 0 <= n <= |steps| ensures ArrayAt(ss, steps, n) {
        RunIsAnArray(ss, steps, n);
      }
    }
    if forall n :: 0 <= n <= |steps| ==> ArrayAt(ss, steps, n) {
      forall i | 0 <= i < |steps| ensures Safe(ss[i], steps[i]) {
        assert ArrayAt(ss, steps, i) && ArrayAt(ss, steps, i + 1);
        RunStep(ss, steps, i);
        hide Inv, Next, System.View, Run, Safe;
        StepKeeps(ss[i], steps[i], ss[i + 1]);
      }
    }
  }

  lemma RunStep(ss: seq<System>, steps: seq<Step>, i: nat)
    requires Run(ss, steps) && i < |steps|
    ensures Next(ss[i], steps[i], ss[i + 1])
  {
  }

  /** A hit reads the last write. */
  lemma HitsReadLastWrite(ss: seq<System>, steps: seq<Step>, i: nat)
    requires Run(ss, steps) && i < |steps| && SafeUpTo(ss, steps, i) && steps[i].HitRead?
    ensures steps[i].k in ss[0].disk && steps[i].data == Stored(ss, steps, i, steps[i].k)
  {
    RunStep(ss, steps, i);
    RunIsAnArray(ss, steps, i);
    Looked(ss[i], steps[i].k);
  }

  /** So does a miss: what is read from the device is the last write. */
  lemma MissesReadLastWrite(ss: seq<System>, steps: seq<Step>, i: nat)
    requires Run(ss, steps) && i < |steps| && SafeUpTo(ss, steps, i) && steps[i].Load?
    ensures var p := steps[i].p;
      && p in ss[i].ents && ss[i].ents[p].newKey.Some? && ss[i].ents[p].newKey.value in ss[0].disk
      && p in ss[i + 1].ents && ss[i + 1].ents[p].data == Stored(ss, steps, i, ss[i].ents[p].newKey.value)
  {
    RunStep(ss, steps, i);
    RunIsAnArray(ss, steps, i);
    NeverStale(ss[i], steps[i].t, steps[i].p, ss[i + 1]);
  }

  // ---- when all steps are safe

  /** Between the two phases of a large write nothing has happened to block k. */
  predicate InWindow(s: System, k: Key, d: Pending) {
    if d.hit then s.Holding(k) && s.ents[s.ht[k]].data == d.data else k !in s.ht
  }

  ghost predicate Windows(s: System) {
    forall t: Tid, k :: s.Outstanding(t, k) ==> InWindow(s, k, s.direct[t].dev[k])
  }

  /** The step brings block k into the cache, changes it there or takes it out. */
  ghost predicate Disturbs(s: System, step: Step, k: Key) {
    match step
    case Claim(_, add) => k in add
    case HitWrite(j, _) => j == k
    case Touch(j, _) => j == k
    case CopyIn(_, j) => j == k && k in s.ht
    case Load(_, p) => p in s.ents && s.ents[p].key == Some(k)
    case Finish(t, _, _) => k in s.ht && s.Owned(t, s.ht[k]) && s.ents[s.ht[k]].newKey.Some?
    case _ => false
  }

  /** No block whose device write is outstanding is disturbed, and clients mark what they have changed. */
  ghost predicate Quiet(s: System, step: Step) {
    && (forall t: Tid, k :: s.Outstanding(t, k) ==> !Disturbs(s, step, k))
    && (step.Unpin? && Found(s, step.k) ==> step.k in s.touched ==> s.ents[s.ht[step.k]].lock > 1)
  }

  lemma QuietIsSafe(s: System, step: Step, s': System)
    requires Inv(s) && Windows(s) && Next(s, step, s') && Quiet(s, step)
    ensures Safe(s, step)
  {
    hide Inv, FinishStep, LoadStep, Windows, Backed, Lands;
    if step.Load? {
      QuietLoad(s, step.t, step.p, s');
    } else if step.Finish? {
      QuietFinish(s, step.t, step.writes, step.lock, s');
    } else if step.DevWrite? {
      QuietDevWrite(s, step.t, step.k, s');
    }
  }

  lemma QuietDevWrite(s: System, t: Tid, k: Key, s': System)
    requires Inv(s) && Windows(s) && DevWriteStep(s, t, k, s')
    ensures k in s.disk && Lands(s, t, k)
  {
    DevWriteOn(s, t, k);
    hide Inv;
  }

  lemma QuietLoad(s: System, t: Tid, p: Ptr, s': System)
    requires Inv(s) && LoadStep(s, t, p, s') && Quiet(s, Load(t, p))
    ensures Backed(s, p)
  {
    EntryOf(s, p);
    if s.ents[p].key.Some? && s.ents[p].content == s.ents[p].key && Covered(s, s.ents[p].key.value) {
      NotTouched(s, p);
    }
    hide Inv;
  }

  /** What clients are changing is not being evicted. */
  lemma NotTouched(s: System, p: Ptr)
    requires Inv(s) && p in s.ents && s.ents[p].key.Some? && s.ents[p].owner.Some? && s.Phase(s.ents[p].owner.value) == Loading
    ensures s.ents[p].key.value !in s.touched
  {
    EntryOf(s, p);
    KeyOf(s, p);
  }

  lemma QuietFinish(s: System, t: Tid, writes: map<Key, Block>, lock: bool, s': System)
    requires Inv(s) && FinishStep(s, t, writes, lock, s') && Quiet(s, Finish(t, writes, lock))
    ensures Safe(s, Finish(t, writes, lock))
  {
    forall p | s.Owned(t, p) && s.ents[p].newKey.Some? ensures Backed(s, p) {
      EntryOf(s, p);
      KeyOf(s, p);
      if s.ents[p].key.Some? && s.ents[p].content == s.ents[p].key && Covered(s, s.ents[p].key.value) {
        NotTouched(s, p);
      }
    }
  }

  lemma WindowsStay(s: System, step: Step, s': System)
    requires Inv(s) && Windows(s) && Next(s, step, s') && Quiet(s, step)
    ensures Windows(s')
  {
    hide Next, Inv, InWindow, Disturbs;
    forall t: Tid, k | s'.Outstanding(t, k) ensures InWindow(s', k, s'.direct[t].dev[k]) {
      if s.Outstanding(t, k) {
        SamePending(s, step, s', t, k);
        WindowStays(s, step, s', k, s.direct[t].dev[k]);
      } else {
        NewWindow(s, step, s', t, k);
      }
    }
  }

  /** A step of a large request. */
  predicate OfDirect(step: Step) {
    step.DirectWrite? || step.CopyIn? || step.DevWrite? || step.DirectRead? || step.DevRead? || step.LookUp? || step.DirectEnd?
  }

  lemma DirectSame(s: System, step: Step, s': System)
    requires Next(s, step, s') && !OfDirect(step)
    ensures s'.direct == s.direct
  {
  }

  lemma SamePending(s: System, step: Step, s': System, t: Tid, k: Key)
    requires Inv(s) && Next(s, step, s') && s.Outstanding(t, k) && s'.Outstanding(t, k)
    ensures s'.direct[t].dev[k] == s.direct[t].dev[k]
  {
    if OfDirect(step) {
      hide EntriesInv, TableInv, TouchedInv;
    } else {
      hide Inv, Next;
      DirectSame(s, step, s');
    }
  }

  lemma NewWindow(s: System, step: Step, s': System, t: Tid, k: Key)
    requires Inv(s) && Next(s, step, s') && !s.Outstanding(t, k) && s'.Outstanding(t, k)
    ensures InWindow(s', k, s'.direct[t].dev[k])
  {
    if OfDirect(step) {
      hide Inv;
      OnlyCopyIn(s, step, s', t, k);
      CopyInWindow(s, t, k, s');
    } else {
      hide Inv, Next;
      DirectSame(s, step, s');
    }
  }

  lemma OnlyCopyIn(s: System, step: Step, s': System, t: Tid, k: Key)
    requires Next(s, step, s') && OfDirect(step) && !s.Outstanding(t, k) && s'.Outstanding(t, k)
    ensures step == CopyIn(t, k)
  {
  }

  lemma CopyInWindow(s: System, t: Tid, k: Key, s': System)
    requires Inv(s) && CopyInStep(s, t, k, s')
    ensures s'.Outstanding(t, k) && InWindow(s', k, s'.direct[t].dev[k])
  {
    if k in s.ht {
      Looked(s, k);
    }
    hide Inv;
  }

  lemma WindowStays(s: System, step: Step, s': System, k: Key, d: Pending)
    requires Inv(s) && Next(s, step, s') && InWindow(s, k, d) && !Disturbs(s, step, k)
    ensures InWindow(s', k, d)
  {
    hide Inv, InWindow, Next;
    if step.Claim? || step.Finish? {
      WindowEvict(s, step, s', k, d);
    } else if step.HitWrite? || step.CopyIn? || step.MarkDirty? || step.Pin? || step.Unpin? || step.Touch? {
      WindowHit(s, step, s', k, d);
    } else {
      WindowElse(s, step, s', k, d);
    }
  }

  lemma WindowEvict(s: System, step: Step, s': System, k: Key, d: Pending)
    requires Next(s, step, s') && InWindow(s, k, d) && !Disturbs(s, step, k) && (step.Claim? || step.Finish?)
    ensures InWindow(s', k, d)
  {
    hide InWindow, ClaimStep, FinishStep;
    if step.Claim? {
      WindowClaim(s, step.t, step.add, s', k, d);
    } else {
      WindowFinish(s, step.t, step.writes, step.lock, s', k, d);
    }
  }

  lemma WindowHit(s: System, step: Step, s': System, k: Key, d: Pending)
    requires Inv(s) && Next(s, step, s') && InWindow(s, k, d) && !Disturbs(s, step, k)
    requires step.HitWrite? || step.CopyIn? || step.MarkDirty? || step.Pin? || step.Unpin? || step.Touch?
    ensures InWindow(s', k, d)
  {
    hide Inv, Next, InWindow, Disturbs;
    if step.k in s.ht {
      HitEntry(s, step, s');
      WindowChanged(s, step, s', k, d);
    } else {
      WindowMiss(s, step, s', k, d);
    }
  }

  lemma WindowChanged(s: System, step: Step, s': System, k: Key, d: Pending)
    requires InWindow(s, k, d) && !Disturbs(s, step, k)
    requires step.HitWrite? || step.CopyIn? || step.MarkDirty? || step.Pin? || step.Unpin? || step.Touch?
    requires s'.ht == s.ht && s.Holding(step.k) && s.ht[step.k] in s'.ents && s'.ents == s.ents[s.ht[step.k] := s'.ents[s.ht[step.k]]]
    requires s'.Holding(step.k)
    requires step.MarkDirty? || step.Pin? || step.Unpin? ==> s'.ents[s.ht[step.k]].data == s.ents[s.ht[step.k]].data
    ensures InWindow(s', k, d)
  {
  }

  lemma WindowMiss(s: System, step: Step, s': System, k: Key, d: Pending)
    requires step.HitWrite? || step.CopyIn? || step.MarkDirty? || step.Pin? || step.Unpin? || step.Touch?
    requires Next(s, step, s') && InWindow(s, k, d) && step.k !in s.ht
    ensures InWindow(s', k, d)
  {
  }

  lemma HitEntry(s: System, step: Step, s': System)
    requires Inv(s) && Next(s, step, s') && (step.HitWrite? || step.CopyIn? || step.MarkDirty? || step.Pin? || step.Unpin? || step.Touch?)
    requires step.k in s.ht
    ensures s'.ht == s.ht && s.Holding(step.k) && s.ht[step.k] in s'.ents && s'.ents == s.ents[s.ht[step.k] := s'.ents[s.ht[step.k]]]
    ensures s'.Holding(step.k)
    ensures step.MarkDirty? || step.Pin? || step.Unpin? ==> s'.ents[s.ht[step.k]].data == s.ents[s.ht[step.k]].data
  {
    HitHolds(s, step, s');
    hide Inv, Next;
    if step.Pin? || step.Unpin? || step.MarkDirty? {
      PinEntry(s, step, s');
    } else {
      ChangedEntry(s, step, s');
    }
  }

  lemma HitHolds(s: System, step: Step, s': System)
    requires Inv(s) && Next(s, step, s') && (step.HitWrite? || step.CopyIn? || step.MarkDirty? || step.Pin? || step.Unpin? || step.Touch?)
    requires step.k in s.ht
    ensures s.Holding(step.k)
  {
    if !step.Touch? {
      HitFound(s, step, s');
      Looked(s, step.k);
    } else {
      hide Inv;
    }
  }

  lemma HitFound(s: System, step: Step, s': System)
    requires Next(s, step, s') && (step.HitWrite? || step.CopyIn? || step.MarkDirty? || step.Pin? || step.Unpin?) && step.k in s.ht
    ensures Found(s, step.k)
  {
  }

  lemma ChangedEntry(s: System, step: Step, s': System)
    requires Next(s, step, s') && (step.HitWrite? || step.CopyIn? || step.Touch?) && s.Holding(step.k)
    ensures s'.ht == s.ht && s.ht[step.k] in s'.ents && s'.ents == s.ents[s.ht[step.k] := s'.ents[s.ht[step.k]]]
    ensures s'.Holding(step.k)
  {
  }

  lemma PinEntry(s: System, step: Step, s': System)
    requires Next(s, step, s') && (step.Pin? || step.Unpin? || step.MarkDirty?) && s.Holding(step.k)
    ensures s'.ht == s.ht && s.ht[step.k] in s'.ents && s'.ents == s.ents[s.ht[step.k] := s'.ents[s.ht[step.k]]]
    ensures s'.Holding(step.k) && s'.ents[s.ht[step.k]].data == s.ents[s.ht[step.k]].data
  {
  }

  lemma WindowElse(s: System, step: Step, s': System, k: Key, d: Pending)
    requires Next(s, step, s') && InWindow(s, k, d) && !Disturbs(s, step, k)
    requires !(step.Claim? || step.Finish?)
    requires !(step.HitWrite? || step.CopyIn? || step.MarkDirty? || step.Pin? || step.Unpin? || step.Touch?)
    ensures InWindow(s', k, d)
  {
  }

  lemma WindowClaim(s: System, t: Tid, add: map<Key, Ptr>, s': System, k: Key, d: Pending)
    requires ClaimStep(s, t, add, s') && InWindow(s, k, d) && k !in add
    ensures InWindow(s', k, d)
  {
  }

  lemma WindowFinish(s: System, t: Tid, writes: map<Key, Block>, lock: bool, s': System, k: Key, d: Pending)
    requires FinishStep(s, t, writes, lock, s') && InWindow(s, k, d) && !Disturbs(s, Finish(t, writes, lock), k)
    ensures InWindow(s', k, d)
  {
  }

  ghost predicate QuietUpTo(ss: seq<System>, steps: seq<Step>, n: nat)
    requires n <= |steps| < |ss|
  {
    forall i :: 0 <= i < n ==> Quiet(ss[i], steps[i])
  }

  lemma InvAt(ss: seq<System>, steps: seq<Step>, n: nat)
    requires n <= |steps| < |ss| && ArrayAt(ss, steps, n)
    ensures Inv(ss[n])
  {
  }

  /** As long as no block is brought in, changed or thrown out between the two phases of a large write of it, the cache
      follows the array of last writes. */
  lemma {:induction false} QuietRuns(ss: seq<System>, steps: seq<Step>, n: nat)
    requires Run(ss, steps) && n <= |steps| && QuietUpTo(ss, steps, n)
    ensures SafeUpTo(ss, steps, n) && Windows(ss[n]) && ArrayAt(ss, steps, n)
  {
    if n == 0 {
    } else {
      hide Inv, Next, System.View, Run, Safe, Quiet, Windows, ArrayAt;
      QuietRuns(ss, steps, n - 1);
      RunStep(ss, steps, n - 1);
      RunIsAnArray(ss, steps, n - 1);
      InvAt(ss, steps, n - 1);
      QuietIsSafe(ss[n - 1], steps[n - 1], ss[n]);
      WindowsStay(ss[n - 1], steps[n - 1], ss[n]);
      RunIsAnArray(ss, steps, n);
    }
  }

  // ---- large reads

  /** In the second phase of a large read the cache has the last word: what an entry holds is the last write.  A block
      without an entry is taken as it was when the device was read, which was the last write then unless the cache held
      newer bytes, and still is unless the device has got others. */
  lemma LargeReadExact(ss: seq<System>, steps: seq<Step>, i: nat, j: nat)
    requires Run(ss, steps) && i < j < |steps| && SafeUpTo(ss, steps, j)
    requires steps[i].DevRead? && steps[j].LookUp? && steps[j].t == steps[i].t && steps[j].k == steps[i].k
    requires forall m :: i < m < j ==> !((steps[m].LookUp? || steps[m].DevRead? || steps[m].DirectEnd?) && steps[m].t == steps[i].t
                                        && (steps[m].DirectEnd? || steps[m].k == steps[i].k))
    ensures steps[i].k in ss[0].disk && steps[i].k in ss[i].disk && steps[i].k in ss[j].disk
    ensures steps[i].k in ss[j].ht ==> steps[j].data == Stored(ss, steps, j, steps[i].k)
    ensures steps[i].k !in ss[j].ht ==>
      && (steps[j].data == Stored(ss, steps, j, steps[i].k) <==> ss[j].disk[steps[i].k] == ss[i].disk[steps[i].k])
      && (steps[j].data == Stored(ss, steps, i, steps[i].k) <==>
            (ss[i].Holding(steps[i].k) ==> Backed(ss[i], ss[i].ht[steps[i].k])))
  {
    var t, k := steps[i].t, steps[i].k;
    RunIsAnArray(ss, steps, i);
    RunIsAnArray(ss, steps, j);
    RunStep(ss, steps, i);
    RunStep(ss, steps, j);
    ReadAhead(ss, steps, i, j);
    if k in ss[j].ht {
      Looked(ss[j], k);
    } else {
      hide Inv, Run, SafeUpTo, Stored;
    }
  }

  /** What has been read stays until it is looked up. */
  lemma {:induction false} ReadAhead(ss: seq<System>, steps: seq<Step>, i: nat, j: nat)
    requires Run(ss, steps) && i < j <= |steps| && steps[i].DevRead?
    requires forall m :: i < m < j ==> !((steps[m].LookUp? || steps[m].DevRead? || steps[m].DirectEnd?) && steps[m].t == steps[i].t
                                        && (steps[m].DirectEnd? || steps[m].k == steps[i].k))
    ensures var t, k := steps[i].t, steps[i].k;
      && t in ss[j].direct && ss[j].direct[t].Reading? && k in ss[j].direct[t].buf && k in ss[i].disk
      && ss[j].direct[t].buf[k] == ss[i].disk[k]
  {
    RunStep(ss, steps, i);
    if j > i + 1 {
      ReadAhead(ss, steps, i, j - 1);
      RunStep(ss, steps, j - 1);
      hide Run;
      BufStays(ss[j - 1], steps[j - 1], ss[j], steps[i].t, steps[i].k);
    }
  }

  lemma BufStays(s: System, step: Step, s': System, t: Tid, k: Key)
    requires Next(s, step, s') && t in s.direct && s.direct[t].Reading? && k in s.direct[t].buf
    requires !((step.LookUp? || step.DevRead? || step.DirectEnd?) && step.t == t && (step.DirectEnd? || step.k == k))
    ensures t in s'.direct && s'.direct[t].Reading? && k in s'.direct[t].buf && s'.direct[t].buf[k] == s.direct[t].buf[k]
  {
    if !OfDirect(step) {
      hide Next;
      DirectSame(s, step, s');
    }
  }

  // ---- two runs that do not follow the array

  /** A run leads to s, and the array of last writes is then a. */
  ghost predicate Reached(s: System, a: map<Key, Block>) {
    exists ss, steps :: Leads(ss, steps, s, a)
  }

  ghost predicate Leads(ss: seq<System>, steps: seq<Step>, s: System, a: map<Key, Block>) {
    && Run(ss, steps) && ss[|steps|] == s && a.Keys == ss[0].disk.Keys
    && forall k :: k in a ==> a[k] == Stored(ss, steps, |steps|, k)
  }

  lemma Start(disk: map<Key, Block>)
    ensures Reached(System(map[], map[], disk, map[], map[], {}), disk)
  {
    var s := System(map[], map[], disk, map[], map[], {});
    assert Leads([s], [], s, disk);
  }

  lemma Reach(s: System, a: map<Key, Block>, step: Step, s': System, a': map<Key, Block>)
    requires Reached(s, a) && Next(s, step, s') && a'.Keys == a.Keys
    requires forall k :: k in a ==> a'[k] == if k in Writes(s, step) then Writes(s, step)[k] else a[k]
    ensures Reached(s', a')
  {
    var ss, steps :| Leads(ss, steps, s, a);
    hide Next, Writes;
    forall k | k in a ensures a'[k] == Stored(ss + [s'], steps + [step], |steps| + 1, k) {
      StoredPrefix(ss, steps, ss + [s'], steps + [step], |steps|, k);
    }
    assert Leads(ss + [s'], steps + [step], s', a');
  }

  lemma {:induction false} StoredPrefix(ss: seq<System>, steps: seq<Step>, ts: seq<System>, more: seq<Step>, n: nat, k: Key)
    requires n <= |steps| < |ss| && ss <= ts && steps <= more && |more| < |ts| && k in ss[0].disk
    ensures Stored(ts, more, n, k) == Stored(ss, steps, n, k)
  {
    if n == 0 {
    } else {
      StoredPrefix(ss, steps, ts, more, n - 1, k);
    }
  }

  /** An entry that holds block k and is not in use. */
  function Resting(k: Key, data: Block, dirty: bool): Entry {
    Entry(Some(k), None, None, dirty, data, Some(k), 0, Normal)
  }

  /** Nothing but blocks that are not in use. */
  ghost predicate AtRest(s: System, k: Key, data: Block, dirty: bool) {
    s.ents == map[0 := Resting(k, data, dirty)] && s.ht == map[k := 0] && s.Phase(1) == Outside && k in s.disk
  }

  /** The device and the large requests are as before, and so is thread 0. */
  predicate SameBelow(s: System, s': System) {
    s'.disk == s.disk && s'.direct == s.direct && s'.touched == s.touched && s'.Phase(0) == s.Phase(0)
  }

  /** Thread 1 reads block k into a new entry of an empty cache. */
  lemma MissRun(s: System, a: map<Key, Block>, k: Key) returns (s': System)
    requires Reached(s, a) && s.ents == map[] && s.ht == map[] && s.Phase(1) == Outside && k in s.disk
    ensures Reached(s', a) && AtRest(s', k, s.disk[k], false) && SameBelow(s, s')
  {
    hide Reached;
    var e := Entry(None, None, Some(1), false, [], None, 0, Off);
    var s1 := s.(ents := s.ents[0 := e], phase := s.phase[1 := Gathering]);
    Reach(s, a, NewEnt(1, 0), s1, a);
    s' := RefillRun(s1, a, k, e);
  }

  /** Thread 1, having got hold of entry 0, reads block k into it. */
  lemma RefillRun(s: System, a: map<Key, Block>, k: Key, e: Entry) returns (s': System)
    requires Reached(s, a) && s.ents == map[0 := e] && s.Phase(1) == Gathering && k in s.disk && k !in s.ht
    requires e.owner == Some(1) && e.newKey == None && !e.dirty
    requires s.ht == match e.key case None => map[] case Some(j) => map[j := 0]
    ensures Reached(s', a) && AtRest(s', k, s.disk[k], false) && SameBelow(s, s')
  {
    hide Reached;
    var s2 := ClaimRun(s, a, k, e);
    var e2 := e.(newKey := Some(k), list := Off);
    var s3 := s2.(ents := s2.ents[0 := e2.(data := s.disk[k], content := Some(k))]);
    assert LoadStep(s2, 1, 0, s3);
    Reach(s2, a, Load(1, 0), s3, a);
    assert s3.ents == map[0 := e2.(data := s.disk[k], content := Some(k))];
    s' := FinishRun(s3, a, k, e2.(data := s.disk[k], content := Some(k)));
  }

  lemma ClaimRun(s: System, a: map<Key, Block>, k: Key, e: Entry) returns (s': System)
    requires Reached(s, a) && s.ents == map[0 := e] && s.Phase(1) == Gathering && k in s.disk && k !in s.ht
    requires e.owner == Some(1) && e.newKey == None && !e.dirty
    ensures Reached(s', a) && s'.ents == map[0 := e.(newKey := Some(k), list := Off)] && s'.ht == s.ht[k := 0] && s'.Phase(1) == Loading
    ensures SameBelow(s, s')
  {
    var s1 := s.(ents := map[0 := e.(newKey := Some(k), list := Off)], ht := s.ht[k := 0], phase := s.phase[1 := Flushing]);
    ClaimsRun(s, k, e, s1);
    s' := s1.(phase := s1.phase[1 := Loading]);
    assert Next(s1, Flushed(1), s');
    hide Reached, Next;
    Reach(s, a, Claim(1, map[k := 0]), s1, a);
    Reach(s1, a, Flushed(1), s', a);
  }

  lemma ClaimsRun(s: System, k: Key, e: Entry, s': System)
    requires s.ents == map[0 := e] && s.Phase(1) == Gathering && e.owner == Some(1) && e.newKey == None && k in s.disk && k !in s.ht
    requires s' == s.(ents := map[0 := e.(newKey := Some(k), list := Off)], ht := s.ht[k := 0], phase := s.phase[1 := Flushing])
    ensures Next(s, Claim(1, map[k := 0]), s')
  {
    var add := map[k := 0];
    assert add[k] == 0;
    assert s'.ht == s.ht + add;
    assert s'.ents[0] == Claimed(1, 0, e, Some(k)) && NewKeyIs(add, 0, Some(k));
  }

  lemma FinishRun(s: System, a: map<Key, Block>, k: Key, e: Entry) returns (s': System)
    requires Reached(s, a) && s.ents == map[0 := e] && s.Phase(1) == Loading && k in s.disk
    requires e.owner == Some(1) && e.newKey == Some(k) && e.content == Some(k)
    requires k in s.ht && s.ht[k] == 0 && forall j :: j in s.ht ==> s.ht[j] == 0
    ensures Reached(s', a) && AtRest(s', k, e.data, false) && SameBelow(s, s')
  {
    s' := s.(ents := map[0 := Resting(k, e.data, false)], ht := map[k := 0], phase := s.phase[1 := Outside]);
    FinishesRun(s, k, e, s');
    hide *;
    Reach(s, a, Finish(1, map[], false), s', a);
  }

  lemma FinishesRun(s: System, k: Key, e: Entry, s': System)
    requires s.ents == map[0 := e] && s.Phase(1) == Loading && e.owner == Some(1) && e.newKey == Some(k) && e.content == Some(k)
    requires k in s.ht && s.ht[k] == 0 && forall j :: j in s.ht ==> s.ht[j] == 0
    requires s' == s.(ents := map[0 := Resting(k, e.data, false)], ht := map[k := 0], phase := s.phase[1 := Outside])
    ensures Next(s, Finish(1, map[], false), s') && Writes(s, Finish(1, map[], false)) == map[]
    ensures k in s.disk ==> AtRest(s', k, e.data, false) && SameBelow(s, s')
  {
    assert s'.ents == map p | p in s.ents :: Finished(1, s.ents[p], map[], false);
  }

  lemma FlushRun(s: System, a: map<Key, Block>, k: Key, data: Block) returns (s': System)
    requires Reached(s, a) && AtRest(s, k, data, true)
    ensures Reached(s', a) && AtRest(s', k, data, false) && s'.direct == s.direct && s'.disk == s.disk[k := data]
  {
    hide Reached;
    var busy := Resting(k, data, true).(owner := Some(1));
    var s1 := s.(ents := map[0 := busy], phase := s.phase[1 := Cleaning]);
    assert CleanStartStep(s, 1, {0}, s1);
    Reach(s, a, CleanStart(1, {0}), s1, a);
    hide CleanStartStep;
    s' := WriteOutRun(s1, a, k, data);
  }

  lemma WriteOutRun(s: System, a: map<Key, Block>, k: Key, data: Block) returns (s': System)
    requires Reached(s, a) && s.ents == map[0 := Resting(k, data, true).(owner := Some(1))]
    requires s.ht == map[k := 0] && s.Phase(1) == Cleaning && k in s.disk
    ensures Reached(s', a) && AtRest(s', k, data, false) && s'.direct == s.direct && s'.disk == s.disk[k := data]
  {
    hide Reached;
    var done := Resting(k, data, false).(owner := Some(1));
    var s1 := s.(disk := s.disk[k := data], ents := s.ents[0 := done]);
    Reach(s, a, WriteOut(1, 0), s1, a);
    assert s1.ents == map[0 := done];
    s' := CleanEndRun(s1, a, k, data);
  }

  lemma CleanEndRun(s: System, a: map<Key, Block>, k: Key, data: Block) returns (s': System)
    requires Reached(s, a) && s.ents == map[0 := Resting(k, data, false).(owner := Some(1))]
    requires s.ht == map[k := 0] && s.Phase(1) == Cleaning && k in s.disk
    ensures Reached(s', a) && AtRest(s', k, data, false) && SameBelow(s, s')
  {
    hide Reached;
    s' := s.(ents := map[0 := Resting(k, data, false)], phase := s.phase[1 := Outside]);
    assert CleanEndStep(s, 1, s');
    Reach(s, a, CleanEnd(1), s', a);
  }

  /** Thread 1 reads block j into entry 0, which held block k. */
  lemma EvictRun(s: System, a: map<Key, Block>, k: Key, data: Block, j: Key) returns (s': System)
    requires Reached(s, a) && AtRest(s, k, data, false) && j in s.disk && j != k
    ensures Reached(s', a) && AtRest(s', j, s.disk[j], false) && SameBelow(s, s')
  {
    hide Reached;
    var e := Resting(k, data, false).(owner := Some(1));
    var s1 := s.(ents := s.ents[0 := e], phase := s.phase[1 := Gathering]);
    Reach(s, a, Gather(1, 0), s1, a);
    assert s1.ents == map[0 := e];
    s' := RefillRun(s1, a, j, e);
  }

  /** Thread 0 starts a large write of a block that is not cached, and gets through its first phase. */
  lemma LargeWriteRun(s: System, a: map<Key, Block>, k: Key, data: Block) returns (s': System)
    requires Reached(s, a) && s.direct == map[] && s.Phase(0) == Outside && k in s.disk && k !in s.ht
    ensures Reached(s', a) && s' == s.(direct := s'.direct) && s'.direct == map[0 := Writing(map[], map[k := Pending(data, false)])]
  {
    hide Reached;
    var s1 := s.(direct := s.direct[0 := Writing(map[k := data], map[])]);
    Reach(s, a, DirectWrite(0, map[k := data]), s1, a);
    var d := Writing(map[k := data] - {k}, map[][k := Pending(data, false)]);
    assert d == Writing(map[], map[k := Pending(data, false)]);
    s' := s1.(direct := s1.direct[0 := d]);
    assert CopyInStep(s1, 0, k, s');
    Reach(s1, a, CopyIn(0, k), s', a);
  }

  lemma DevWriteRun(s: System, a: map<Key, Block>, k: Key, data: Block) returns (s': System)
    requires Reached(s, a) && s.direct == map[0 := Writing(map[], map[k := Pending(data, false)])] && k in a && k in s.disk
    ensures Reached(s', a[k := data]) && s' == s.(disk := s'.disk, direct := map[])
  {
    hide *;
    var s1 := s.(disk := s.disk[k := data], direct := map[0 := Writing(map[], map[])]);
    DevWritesRun(s, k, data, s1);
    s' := s1.(direct := map[]);
    EndsRun(s1, s');
    Reach(s, a, DevWrite(0, k), s1, a[k := data]);
    Reach(s1, a[k := data], DirectEnd(0), s', a[k := data]);
  }

  lemma DevWritesRun(s: System, k: Key, data: Block, s': System)
    requires s.direct == map[0 := Writing(map[], map[k := Pending(data, false)])] && k in s.disk
    requires s' == s.(disk := s.disk[k := data], direct := map[0 := Writing(map[], map[])])
    ensures Next(s, DevWrite(0, k), s') && Writes(s, DevWrite(0, k)) == map[k := data]
  {
    assert map[k := Pending(data, false)] - {k} == map[];
  }

  lemma EndsRun(s: System, s': System)
    requires s.direct == map[0 := Writing(map[], map[])] && s' == s.(direct := map[])
    ensures Next(s, DirectEnd(0), s') && Writes(s, DirectEnd(0)) == map[]
  {
    assert s.direct - {0} == map[];
  }

  /** A large write of a block that is not cached; before its device write, another thread reads the block into the
      cache.  Every later hit reads the old bytes, although the write is over. */
  lemma StaleHit(k: Key, was: Block, now: Block)
    ensures exists s :: Reached(s, map[k := now]) && s.direct == map[] && Next(s, HitRead(k, was), s)
  {
    var a := map[k := was];
    Start(a);
    hide Reached;
    var s2 := LargeWriteRun(System(map[], map[], a, map[], map[], {}), a, k, now);
    var s3 := MissRun(s2, a, k);
    var s4 := DevWriteRun(s3, a, k, now);
    assert a[k := now] == map[k := now];
    assert Next(s4, HitRead(k, was), s4);
  }

  /** Thread 0 starts a large read of block k, and gets through its first phase. */
  lemma LargeReadRun(s: System, a: map<Key, Block>, k: Key) returns (s': System)
    requires Reached(s, a) && s.direct == map[] && s.Phase(0) == Outside && k in s.disk
    ensures Reached(s', a) && s' == s.(direct := s'.direct) && s'.direct == map[0 := Reading({}, map[k := s.disk[k]])]
  {
    hide Reached;
    var s1 := s.(direct := s.direct[0 := Reading({k}, map[])]);
    Reach(s, a, DirectRead(0, {k}), s1, a);
    var d := Reading({k} - {k}, map[][k := s.disk[k]]);
    assert d == Reading({}, map[k := s.disk[k]]);
    s' := s1.(direct := s1.direct[0 := d]);
    Reach(s1, a, DevRead(0, k), s', a);
  }

  /** A large read of a block whose bytes in the cache are newer than the device's; between its phases the block is
      flushed and evicted.  It returns the old bytes, although the write was over before it began. */
  lemma StaleRead(k: Key, was: Block, now: Block, j: Key, other: Block)
    requires j != k
    ensures exists s, s' :: Reached(s, map[k := now, j := other]) && Next(s, LookUp(0, k, was), s')
  {
    hide Reached;
    var b := map[k := now, j := other];
    var s2 := DirtyRun(k, was, now, j, other);
    var s4 := LargeReadRun(s2, b, k);
    var s5 := FlushRun(s4, b, k, now);
    var s6 := EvictRun(s5, b, k, now, j);
    var s7 := s6.(direct := s6.direct[0 := Reading({}, s6.direct[0].buf - {k})]);
    assert Next(s6, LookUp(0, k, was), s7);
  }

  /** Thread 1 reads block k in and writes to it. */
  lemma DirtyRun(k: Key, was: Block, now: Block, j: Key, other: Block) returns (s': System)
    requires j != k
    ensures Reached(s', map[k := now, j := other]) && AtRest(s', k, now, true)
    ensures s'.disk == map[k := was, j := other] && s'.direct == map[] && s'.Phase(0) == Outside
  {
    var a := map[k := was, j := other];
    Start(a);
    hide Reached;
    var s1 := MissRun(System(map[], map[], a, map[], map[], {}), a, k);
    s' := s1.(ents := s1.ents[0 := Resting(k, now, true)]);
    assert s'.ents == map[0 := Resting(k, now, true)];
    Reach(s1, a, HitWrite(k, now), s', map[k := now, j := other]);
  }
}
