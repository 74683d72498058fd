# A model of the file system, its cache and its vnode layer

This project models the hard core of a small file system kit — the block cache, the block allocator, file
data streams, the vnode layer, the skip list, the in-memory root file system, packed directory records and
the counted lock — and proves what each of them keeps.

The layers, bottom up:

- **Counted lock** (`CountedLock.dfy`): `LOCK` and `UNLOCK` as single steps of any number of threads.
- **Block cache**: `LruList.dfy` (doubly linked nodes on the heap), `HashTable.dfy` (chained buckets in an
  array that doubles), `CacheModel.dfy` (what a cache state means, the journal of device writes, snapshots and
  callbacks, and the lemmas about flushing), `BlockCache.dfy` (the cache itself, as a class whose methods follow
  `cache.c` loop by loop) and `EvictionProtocol.dfy` (the same cache between lock boundaries, with busy entries
  that are in the hash table twice, blocks changed through pinned pointers, and the two phases of the transfers of
  64 KB and more, as a state machine over any interleaving of threads).
- **Allocation and streams**: `BitVector.dfy`, `Bitmap.dfy`, `VolumeModel.dfy` (files as direct and indirect
  blocks, ownership of every block in use, contents as byte sequences) and `DataStream.dfy` (read, write, grow
  and shrink as methods).
- **Vnode layer**: `SkipList.dfy` (heap nodes with forward pointers), `VnodeModel.dfy` (the three lists, the
  index, the name spaces and the life of a vnode, over whole runs), `VnodeLink.dfy` (the links that run through the
  vnodes, and what relinking does to the lists), `VnodeUse.dfy` (what each section does for its users, name by name, and
  the references, marks and data that a run's requests and answers account for), `VnodeTable.dfy` (the code of
  `kernel.c` as methods that relink and refine the model) and `ParsePath.dfy`.
- **Directories**: `RootFs.dfy` (rename, create and unlink on a tree), `ReadDir.dfy` (scans) and
  `DirRecords.dfy` (records packed in bytes). `Names.dfy` has the order of names; `Lists.dfy` and
  `Arithmetic.dfy` hold general facts.

How the pieces meet: streams run on the plain array of blocks which `BlockCache.Cache` is proved to present
(`View`). `Seams.dfy` has the other seams: the hash table after the insertions and deletions of a miss is the one the
eviction protocol asks for, moving an entry's node between the linked lists is what `BlockCache` does to its two
sequences, and the skip list, its keys ordered as `compare_vnode` orders names, is the index of `VnodeModel`.

The cache's journal (`log`) is a ghost history of device writes, snapshots and callbacks. `lawful` says that
no large write has yet passed a locked block by; while it holds the history is `Legal`, and what that means is
the subject of `CacheModel.SnapshotFirst`, `LockedWritesAreClones`, `CallbackAfterWrite` and `CallbackOnce`.

## Where the code departs from its intent

Each departure is kept in the model and pinned down by an exact condition:

- A search for free bits that starts behind chunk 0 can overlook runs there: `BitVectors.SearchOverlooks` says
  exactly when, `OverlooksAFreeChunk` gives an input, and `SearchFromStart` shows that searches from chunk 0 are
  complete. `Bitmaps.Bitmap.LastBlock` says what that means for one block: when none is found although some are free.
- Such a search can also flag a vector as full that is not, after which every request fails until something is freed:
  `BitVectors.FlagWrong` says exactly when, `FullWithTwoFree` gives an input.
- Freeing blocks reduces `used_blocks` by the number of bitmap blocks written, not by the number of blocks freed:
  `Bitmaps.Bitmap.Free` has the exact condition for the count to stay right; freeing one block is such a case.
- Writing the bitmap back can miss a block that the run straddles: `Bitmaps.WriteBackCovers`.
- Mounting recounts whole chunks only: `Bitmaps.Bitmap.SanityCheck`.
- Shrinking a file to one byte past a block boundary gives back a block the file needs (`NinthByteLost`). Shrinking
  inside the indirect range leaves entries for freed blocks behind, and the next cut frees those again, whoever has
  them by then (`CutTwice`, `CutTakesFromAnother`). `VolumeModel.ShrinkExact` says exactly when a cut of any file,
  whatever earlier cuts have left behind, keeps the volume in order; `CutTail` when it leaves no such entries.
- Reading at the very end of a file can fail although nothing is read: `DataStreams.EndLookup`.
- The cache does not follow the array of last writes through transfers of 64 KB and more, which work on the device
  without the lock. A block read into the cache between the two phases of a large write stays stale there
  (`EvictionProtocol.StaleHit`), and a large read can return bytes older than a write that was over before it began
  (`StaleRead`). `StepKeeps` and `RunExact` say exactly which steps are to blame, `QuietRuns` that all is well while no
  block is brought in, changed or thrown out between the phases of a large write of it, and `LargeReadExact` what a
  large read returns.
- A client that changes a block and drops its last pin without marking it dirty may lose the change:
  `BlockCache.Cache.ReleaseBlock` and `EvictionProtocol.UnpinExact`.
- `new_vnode` with a name already in use, or an unknown name space, breaks the vnode table:
  `VnodeModel.NewKeeps`, `RenewedKeeps` and `NameKeeps`.
- `rename` refuses moves that would do no harm: `RootFs.RefusesHarmless` says exactly which.
- `rename` makes room for the new name before its last checks; refused by one of those, it leaves the entry with a name
  in storage that has been given back, exactly if the new name is longer: `RootFs.FileSystem.Rename` and, on an input,
  `NameLost`.
- An empty link target counts as an absolute one when it is followed by the rest of the path
  (`ParsePath.Absolute`): the text put together begins with a slash.
- A large write that hits a locked block writes data that the journal holds back: the last clause of
  `BlockCache.Cache.CacheBlockIo`.

## Model

| member | source | states |
|---|---|---|
| `CountedLock.StepKeepsInv` | lock.h:19-20 | every step of any thread keeps one permit in play: inside, in the semaphore or on its way |
| `CountedLock.RunKeepsInv` | lock.h:19-20 | so does every run of any number of threads from a new lock |
| `CountedLock.MutualExclusion` | lock.h:19-20 | at no point of any run are two threads inside |
| `CountedLock.NoLostWakeup` | lock.h:19-20 | while a thread waits, the semaphore is positive or some thread is inside or about to release it |
| `CountedLock.Progress` | lock.h:19-20 | a lock somebody waits for never gets stuck |
| `CountedLock.QuiescentIsInitial` | sysdep.c:257-265 | with nobody inside, waiting or releasing, counter and semaphore are as new_lock set them |
| `BitVectors.BitVector.GetFreeRangeOfBits` | bitvector.c:120-230 | success sets a run of len free bits and nothing else: the lowest that starts at or behind the first of the 32 bits next_free is among, or else the lowest in front of them, with or without those in the first chunk; failure changes no bit and reports a real free run shorter than len; it sets is_full exactly if the set bits it has counted, some perhaps twice, are as many as there are bits |
| `BitVectors.SearchesFromNextFree` | bitvector.c:136-145 | the chunk a search starts in is the one next_free is in, so a run that starts there or behind is preferred, the lowest first |
| `BitVectors.FirstOfEmpty` | bitvector.c:136-145 | on an empty vector the first bits are taken first |
| `BitVectors.NothingOverlooked` | bitvector.c:176-183 | if the vector is whole chunks and its last bit is in use, no search fails while there is a run |
| `BitVectors.BitVector.ScanChunk` | bitvector.c:151-216 | the loop over the bits of one chunk, with its jumps over what has been examined |
| `BitVectors.SearchFromStart` | bitvector.c:136-230 | a search from chunk 0 returns the lowest run there is and fails only if there is none |
| `BitVectors.SearchOverlooks` | bitvector.c:176-190 | a search misses all free runs exactly if it began behind chunk 0, jumped over chunk 0, and every run starts there |
| `BitVectors.OverlooksAFreeChunk` | bitvector.c:176-183 | 64 bits on which a search from chunk 1 overlooks 32 free ones |
| `BitVectors.JumpAtEnd` | bitvector.c:176-183 | where the search goes on when a free run reaches the end of the vector, and when that skips chunk 0 |
| `BitVectors.RunHitsEnd` | bitvector.c:172-183 | nothing is overlooked up to there but what the jump skips |
| `BitVectors.StepOverRun` | bitvector.c:185-190 | stepping over a run that is too short overlooks no longer one |
| `BitVectors.SearchFailed` | bitvector.c:219-230 | what a search that has gone through all chunks has established |
| `BitVectors.FlagFromStart` | bitvector.c:219-225 | a failed search from chunk 0 sets is_full exactly if all bits are set |
| `BitVectors.FlagFromLater` | bitvector.c:219-225 | so does one from another chunk, unless it skips chunk 0 or a free run can lead it back over the boundary it started at |
| `BitVectors.FlagWrong` | bitvector.c:176-225 | is_full is set with bits free exactly if a free run leads the search back over the boundary it started at and what it counts twice outweighs what it has not counted |
| `BitVectors.FullWithTwoFree` | bitvector.c:219-225 | 96 bits with two free that a search for three flags as full, having counted 123 |
| `BitVectors.BitVector.Set` | bitvector.c:26-40 | sets one bit, or refuses one out of range |
| `BitVectors.BitVector.UnSet` | bitvector.c:50-65 | clears one bit and remembers it |
| `BitVectors.BitVector.UnSetRange` | bitvector.c:68-86 | clears exactly the range, or nothing if it is out of range |
| `BitVectors.BitVector.IsSet` | bitvector.c:97-109 | reads one bit; false out of range |
| `Bitmaps.Bitmap.Try` | bitmap.c:215-218 | one search: it fails exactly if the map is barren for that length, else it takes free blocks |
| `Bitmaps.Bitmap.Allocate` | bitmap.c:191-291 | takes only free, consecutive blocks and counts them: all that were asked for, or else, unless the request is exact, as many as the longest run the search can see; an exact request fails exactly if the count or the search shows no such run, any other only if the count is too low or a search for one block comes back empty |
| `Bitmaps.Bitmap.Round` | bitmap.c:214-250 | one turn of the loop: what it takes is the longest run to be had, and what it goes on with is not shorter than that |
| `Bitmaps.Bitmap.LastBlock` | bitmap.c:209-218 | unless the map is flagged full, no block is found exactly if all are in use, or the search began behind chunk 0, jumps over chunk 0, and all free blocks lie there |
| `Bitmaps.Bitmap.Free` | bitmap.c:313-366 | clears exactly the blocks given; the exact condition for used_blocks to stay right |
| `Bitmaps.FreeOneIsCounted` | bitmap.c:339-359 | which holds for every free of one block in use |
| `Bitmaps.WriteBackCovers` | bitmap.c:333-351 | the bitmap blocks written back cover the bits changed exactly if offsets and lengths do not straddle |
| `Bitmaps.Bitmap.Check` | bitmap.c:370-393 | true just if every block of the range is in the given state |
| `Bitmaps.Bitmap.SanityCheck` | bitmap.c:396-417 | the recount; it agrees with the bitmap exactly if no used block lies behind the last whole chunk |
| `Bitmaps.CountWhole` | bitmap.c:406-410 | counting whole chunks counts all used blocks exactly if there are none behind them |
| `VolumeModel.DecodeByte` | dstream.c:57-59 | a pointer's bytes are its digits to the base 256, the lowest first |
| `VolumeModel.DecodeEncode` | dstream.c:57-59 | block pointers survive being stored as bytes |
| `VolumeModel.PutPointerAt` | dstream.c:258-262 | storing one entry of an index block changes that entry and no other |
| `VolumeModel.NoSharing` | dstream.c:170-283 | in a conserved volume no two places, data blocks or index blocks of any files, are the same block, and none is metadata |
| `VolumeModel.NoLeaks` | dstream.c:170-283 | and no block in use is lost: it is metadata or the place of some file |
| `VolumeModel.ExtendSound` | dstream.c:211-264 | attaching a free block keeps the volume sound, all bytes of the file, and other files |
| `VolumeModel.AddIndexSound` | dstream.c:235-246 | so does attaching an empty index block |
| `VolumeModel.ResizeSound` | dstream.c:190-194 | so does a new size that needs as many blocks |
| `VolumeModel.PokeContent` | dstream.c:464-511 | copying into one block overwrites exactly those bytes of the contents |
| `VolumeModel.OtherContent` | dstream.c:434-517 | what a step on one file leaves alone keeps every other file's contents |
| `VolumeModel.KeptBlocksIs` | dstream.c:362-363 | the rounding of shrink_dstream keeps one block too few exactly if the last would hold one byte |
| `VolumeModel.ShrinkConserves` | dstream.c:347-430 | a cut that fits keeps the first bytes of the file, all other files, and exactly one owner of every block in use, whatever earlier cuts have left in the index block |
| `VolumeModel.ShrinkLosesBlock` | dstream.c:362-430 | with one byte in the last block, no assignment of owners to the blocks in use fits any more |
| `VolumeModel.ShrinkExact` | dstream.c:362-430 | a cut keeps the volume in order and frees each block once, from any conserved state, exactly if the new size is not one past a block boundary and, unless no block is dropped, there is no index block or its entry behind the last block is absent or zero; otherwise no assignment of owners helps |
| `VolumeModel.NinthByteLost` | dstream.c:362-430 | a file of two blocks, cut to nine bytes of eight-byte blocks, loses its second block |
| `VolumeModel.CutTwice` | dstream.c:383-398 | a file of eight blocks cut to seven and then to six: the second cut frees the eighth block again |
| `VolumeModel.CutTakesFromAnother` | dstream.c:383-398 | and if another file has that block by then, it loses it |
| `VolumeModel.CutTail` | dstream.c:383-398 | a cut leaves no stale entries exactly if it drops no block, or ends outside the indirect range |
| `VolumeModel.ShrinkToNothing` | dstream.c:542-549 | freeing a whole file, when that fits, gives back exactly what it owned |
| `DataStreams.Volume.FilePosToDiskAddr` | dstream.c:38-91 | the block of every position, in the direct and indirect range, stale entries included; -1 beyond; dies on an address off the device |
| `DataStreams.EndLookup` | dstream.c:116-121 | looking up the end of a file fails exactly if it is as long as can be, or fills its direct blocks without an index block and block 0 begins with no address |
| `DataStreams.Volume.Read` | dstream.c:94-167 | returns exactly the slice asked for, clipped at the size, from any conserved volume; when reading at the very end fails |
| `DataStreams.Volume.ReadBlocks` | dstream.c:144-164 | the block loop of read returns the slice |
| `DataStreams.Volume.Write` | dstream.c:434-517 | from any conserved volume, a write changes exactly [pos, pos+len), keeps all other bytes and files, and sets the size to the larger of old and pos+len; a failure keeps all bytes and means that the allocator finds no block (see LastBlock) or the file would be too big |
| `DataStreams.Volume.WriteBlocks` | dstream.c:461-511 | the copying loops overwrite exactly the bytes given |
| `DataStreams.Volume.AllocateOne` | dstream.c:212-219 | one block nobody owns; fails exactly if the count or the search for one block comes back empty (see LastBlock) |
| `DataStreams.Volume.Attach` | dstream.c:211-223 | one more block, direct or indirect |
| `DataStreams.Volume.Grow` | dstream.c:170-283 | the file keeps its bytes, all files and the block map stay sound, success reaches the size; failure means the allocator finds no block, and then the whole blocks attached by then stay, fewer than needed, or that the indirect range is exceeded |
| `DataStreams.Volume.Shrink` | dstream.c:347-430 | the loops over index entries and direct blocks do exactly what ShrinkTo says, stale entries included, and leave the volume in order exactly if the cut fits |
| `DataStreams.Volume.FreeEntries` | dstream.c:383-398 | the loop frees the index entries up to the first zero, the file's or not |
| `DataStreams.Volume.SetFileSize` | dstream.c:519-540 | shrinks, grows or does nothing; in order afterwards exactly if a cut fits |
| `DataStreams.Volume.FreeDataStream` | dstream.c:542-549 | in order afterwards exactly if the cut to nothing fits; then the file owns nothing, what it owned is free, and other files are as before |
| `LruLists.List.Delete` | cache.c:688-704 | the rest keeps its order and stays linked both ways; the node is free |
| `LruLists.List.AddToHead` | cache.c:712-730 | at the MRU end |
| `LruLists.List.AddToTail` | cache.c:737-755 | at the LRU end |
| `LruLists.Move` | cache.c:1546-1549 | from one list to the other, the two staying disjoint and well formed |
| `LruLists.Spliced` | cache.c:691-703 | bypassing a node leaves a well-formed list of the others |
| `LruLists.Follow` | cache.c:1607-1616 | following next or prev visits the nodes in order |
| `HashTables.HashTable.Insert` | cache.c:272-304 | adds the pair, refuses a block already there, and doubles the table exactly when it becomes three quarters full |
| `HashTables.HashTable.Lookup` | cache.c:306-322 | finds just what was inserted |
| `HashTables.HashTable.Delete` | cache.c:325-359 | removes that block only, and returns its data |
| `HashTables.HashTable.Grow` | cache.c:231-268 | twice the buckets, the same contents, every entry in its new mask bucket |
| `HashTables.HashTable.MoveChain` | cache.c:252-258 | rehashing one chain adds exactly its entries |
| `HashTables.PushKeeps` | cache.c:290-297 | pushing an entry onto its bucket adds it to the contents |
| `HashTables.RemoveKeeps` | cache.c:346-356 | unlinking an entry takes just its block out of the contents |
| `CacheModel.SnapshotFirst` | cache.c:1240-1251 | the first write of a block after a snapshot of it writes just that snapshot |
| `CacheModel.LockedWritesAreClones` | cache.c:903-905 | what is written of a locked block is exactly the data of an earlier snapshot of it, under that snapshot's number |
| `CacheModel.CallbackAfterWrite` | cache.c:865-870 | a callback is made only after its snapshot is written |
| `CacheModel.CallbackOnce` | cache.c:867-870 | and for no snapshot twice |
| `CacheModel.StaysArmed` | cache.c:1240-1251 | a snapshot stays pending until the block is written |
| `CacheModel.PhaseSource` | cache.c:1240-1251 | what is pending for a block is an earlier snapshot of it |
| `CacheModel.WriteInOrder` | cache.c:858-865 | writing an entry continues a legal history |
| `CacheModel.CallInOrder` | cache.c:867-874 | and so does making its callback, after which the clone may go |
| `CacheModel.SnapInOrder` | cache.c:1240-1251 | and taking a snapshot of an entry without a clone |
| `CacheModel.StillPartway` | cache.c:857-880 | each write of an entry moves it on its way to being settled |
| `CacheModel.WriteSome` | cache.c:927-969 | so does writing a run of entries |
| `CacheModel.FlushingDone` | cache.c:975-999 | entries with no clone and nothing to flush are settled, on the device too |
| `CacheModel.FlushUnseen` | cache.c:886-1005 | flushing changes no block as clients see it, no key and no lock |
| `CacheModel.SettledBoth` | cache.c:1303-1324 | flushing one batch and then another is flushing both |
| `CacheModel.DeviceSettled` | cache.c:1292-1354 | then the device holds every unlocked block as clients see it, and of locked ones the clone, if there was one |
| `CacheModel.LockedSettled` | cache.c:1185-1215 | flushing locked entries writes their clones and keeps their data and dirty flags |
| `CacheModel.Freeze` | cache.c:1142-1268 | flushing old clones and then snapshotting leaves each block with one fresh clone and the older ones on the device |
| `CacheModel.FrozenUnseen` | cache.c:1142-1268 | clients see only one pin less on each of the blocks |
| `CacheModel.ReserveSane` | cache.c:1994-2006 | a new block number may lead to an entry that still holds its old block |
| `CacheModel.DropSane` | cache.c:2163-2173 | a settled, unlocked entry may give up its old block, which the device has |
| `CacheModel.AdoptSane` | cache.c:2234-2279 | and take the block promised to it |
| `CacheModel.WriteThroughSane` | cache.c:1800-1833 | writing past the cache, device and entry together, is in order unless the block is locked |
| `CacheModel.ReadsLastWrite` | cache.c:1713-2302 | a read after a write returns what was written where they overlap, and what was there elsewhere |
| `CacheModel.DoneNext` | cache.c:1845-2297 | serving one more block carries the request on |
| `CacheModel.DoneIs` | cache.c:1845-2297 | what a request served comes to, block by block: what was read, what was given or zeroes, and one pin more just if it locks; nothing else is seen to change |
| `BlockCache.Cache.constructor` | cache.c:388-419 | an empty cache shows the device |
| `BlockCache.Cache.FlushCacheEnt` | cache.c:844-883 | the clone goes first, then the data unless locked; the entry is settled |
| `BlockCache.Cache.WriteRun` | cache.c:927-969 | the device write and callbacks of a run of consecutive blocks write each of its entries once |
| `BlockCache.Cache.RunEnd` | cache.c:908-918 | a run is consecutive, writable and at most 64 blocks |
| `BlockCache.Cache.Pass` | cache.c:898-973 | one pass leaves no clone, and nothing dirty where there was none |
| `BlockCache.Cache.FlushEnts` | cache.c:886-1005 | two passes suffice: every entry given is settled, for any order and mix of clones and dirty data |
| `BlockCache.Cache.FlushList` | cache.c:1301-1324 | the walk that starts over after each batch of 64 ends, with all entries of the device settled |
| `BlockCache.Cache.FlushDevice` | cache.c:1292-1354 | every unlocked block of the device is on it as clients see it; other devices and all views are untouched |
| `BlockCache.Cache.ReleaseBlock` | cache.c:1523-1559 | one pin less on that block, nothing else seen; in order afterwards exactly if the last pin is not dropped, or the device has the bytes of the block or is to get them |
| `BlockCache.Cache.MarkBlocksDirty` | cache.c:1494-1519 | marks the blocks up to the first one not cached, and says whether that was all |
| `BlockCache.Cache.SetBlocksInfo` | cache.c:1142-1268 | freezes the blocks: older clones are on the device, each block has a fresh clone and one pin less, no view changes |
| `BlockCache.Cache.Snapshot` | cache.c:1228-1262 | one block's snapshot enters the history and its entry |
| `BlockCache.Cache.GetEnts` | cache.c:1588-1653 | new entries while there is room, then the LRU end of the normal list; more are taken only to flush with a dirty last one |
| `BlockCache.Cache.SortEnts` | cache.c:757-771 | the comparator puts new entries first, whatever the truncation of block numbers does |
| `BlockCache.Cache.NewAtFront` | cache.c:1966-1982 | hence entries to be given back after flushing are never new ones |
| `BlockCache.ReadAheadFits` | cache.c:1944-1946 | read-ahead never asks for more entries than fit the array |
| `BlockCache.Wanted` | cache.c:1923-1956 | a miss never asks for more than 64 entries |
| `BlockCache.Cache.Misses` | cache.c:1923-1956 | the blocks to be read with this one are missing, on the device and at most 64 |
| `BlockCache.Cache.Claim` | cache.c:1990-2020 | every needed block is promised to one entry, all entries are off their list, nothing is seen |
| `BlockCache.Cache.FlushVictims` | cache.c:2032-2042 | afterwards no entry to be reused has anything unwritten |
| `BlockCache.Cache.Drop` | cache.c:2163-2173 | an old block leaves the cache unseen |
| `BlockCache.Cache.Adopt` | cache.c:2248-2279 | an entry takes its promised block, at the head of its list |
| `BlockCache.Cache.PutBack` | cache.c:2184-2196 | an entry that was only flushed goes back, to the LRU end |
| `BlockCache.Cache.Prepare` | cache.c:1958-2196 | gathering, claiming, flushing, read-ahead and putting back change nothing clients see |
| `BlockCache.Cache.Miss` | cache.c:1914-2295 | the missing blocks are served as the request says, all else is as before |
| `BlockCache.Cache.Hit` | cache.c:1847-1913 | so is a cached block |
| `BlockCache.Cache.SmallIo` | cache.c:1844-2302 | a request below 64 KB reads, writes or zeroes exactly its blocks |
| `BlockCache.Cache.BigRead` | cache.c:1767-1799 | a large read returns what clients see, cached or not |
| `BlockCache.Cache.BigWrite` | cache.c:1800-1833 | a large write changes exactly its blocks, and keeps the journal's order exactly if none of them is locked |
| `BlockCache.Cache.CacheBlockIo` | cache.c:1713-2302 | succeeds exactly if all blocks of the request are on the device and it is no no-op of 64 KB or more; then exactly its blocks change as asked, read data is what was there, and pins are added |
| `BlockCache.Cache.FitsOnDisk` | cache.c:1747-1752 | the test against the device's size refuses a request exactly if one of its blocks is not on the device |
| `EvictionProtocol.StepKeeps` | cache.c:1713-2302 | whatever any thread or client does next, the invariant holds and the cache follows a plain array exactly if the step is safe; only the eviction of what a large write has put into an entry, the device write of a large write, and letting go of an unmarked change can be unsafe |
| `EvictionProtocol.RunIsAnArray` | cache.c:1713-2302 | over every interleaving, as long as the steps are safe clients see the array of last writes |
| `EvictionProtocol.RunExact` | cache.c:1713-2302 | a run keeps the invariant and follows the array at every point exactly if all its steps are safe |
| `EvictionProtocol.QuietRuns` | cache.c:1767-1833 | all steps are safe while no block is brought in, changed or evicted between the two phases of a large write of it and clients mark what they change |
| `EvictionProtocol.DevWriteExact` | cache.c:1829-1833 | the device write of a large write keeps the invariant and follows the array exactly if an entry of the block holds the same bytes, or newer ones that are due for the device, or there is none and there was none, or the device has the bytes |
| `EvictionProtocol.UnpinExact` | cache.c:1523-1559 | dropping a pin keeps the invariant exactly if it is not the last one on a changed block that is neither marked dirty, nor on the device, nor due for it |
| `EvictionProtocol.LargeReadExact` | cache.c:1767-1799 | a large read takes the last write of a block that has an entry in its second phase; of any other it takes what the device had, which is the last write exactly if that has not changed, and was it exactly if no entry then held other bytes |
| `EvictionProtocol.StaleHit` | cache.c:1800-1833 | a run after which a hit reads old bytes although the large write of the new ones is over |
| `EvictionProtocol.StaleRead` | cache.c:1767-1799 | a run in which a large read returns old bytes although the write of the new ones was over before it began |
| `EvictionProtocol.HitsReadLastWrite` | cache.c:1847-1880 | in a run of safe steps a hit reads the last write, large or small |
| `EvictionProtocol.MissesReadLastWrite` | cache.c:2137-2143 | so does a miss: what comes from the device is the last write |
| `EvictionProtocol.OneEntry` | cache.c:1994-2006 | no block has two entries, held or promised |
| `EvictionProtocol.InFlight` | cache.c:1991-2006 | an entry being refilled is busy and found under its old and its new block |
| `EvictionProtocol.Looked` | cache.c:1108-1138 | a lookup returns an entry that is not busy and has the block's current bytes |
| `EvictionProtocol.NeverStale` | cache.c:1994-2006 | a block is read from the device only while no entry holds it, so the bytes are current |
| `EvictionProtocol.PinnedStays` | cache.c:1607-1616 | a pinned block keeps its entry until its last pin goes, through large transfers too |
| `EvictionProtocol.GatherKeeps` | cache.c:1605-1624 | get_ents marking entries busy |
| `EvictionProtocol.ClaimKeeps` | cache.c:1990-2020 | the second hash entry and leaving the list |
| `EvictionProtocol.WriteOutKeeps` | cache.c:858-880 | writing a busy entry without the lock |
| `EvictionProtocol.LoadKeeps` | cache.c:2137-2143 | reading into a busy entry without the lock; follows the array exactly if the device has what the entry held |
| `EvictionProtocol.FinishKeeps` | cache.c:2163-2290 | old blocks leave, new ones arrive, entries become findable; follows the array exactly if the device has what the entries held |
| `EvictionProtocol.CleanKeeps` | cache.c:1272-1289 | a flusher marking entries busy |
| `EvictionProtocol.CleanEndKeeps` | cache.c:1286-1289 | and letting go of them |
| `EvictionProtocol.HitKeeps` | cache.c:1847-1913 | a hit that writes or pins changes only its entry's data, flag or pins |
| `EvictionProtocol.TouchKeeps` | dstream.c:464-511 | a client changing a pinned block through its pointer, without the lock and while the entry may be busy |
| `EvictionProtocol.MarkKeeps` | cache.c:1494-1519 | marking a block dirty |
| `EvictionProtocol.CopyInKeeps` | cache.c:1801-1827 | the first phase of a large write |
| `CacheIndexes.InsertAll` | cache.c:1990-2006 | the insertions of a miss, one after the other, add exactly its pairs to the hash table |
| `CacheIndexes.ClaimIndex` | cache.c:1990-2006 | which is the table the protocol's next state asks for |
| `CacheIndexes.DeleteAll` | cache.c:2163-2173 | the deletions take exactly the old blocks out |
| `CacheIndexes.FinishIndex` | cache.c:2163-2173 | which again is the table of the protocol's next state |
| `CacheLists.WithoutNode` | cache.c:688-704 | unlinking a node is taking its entry out of the sequence of entries |
| `CacheLists.MoveEntry` | cache.c:1546-1549 | moving a node between the lists is what BlockCache does to its two sequences |
| `SkipLists.SkipList.Insert` | sl.c:158-209 | adds the key to level 0 up to the drawn height, at most one above the levels in use, or refuses a duplicate; all levels stay sorted sublists |
| `SkipLists.SkipList.Delete` | sl.c:213-259 | removes the key from every level, lowers the level to the highest in use |
| `SkipLists.SkipList.Search` | sl.c:262-280 | true just if the key is there |
| `SkipLists.SkipList.DoFor` | sl.c:283-344 | leaves at every level exactly the nodes the function did not delete before quitting |
| `SkipLists.SkipList.FindUpdate` | sl.c:165-173 | at every level the last node in front of the key |
| `SkipLists.SkipList.LowerLevel` | sl.c:250-254 | stops at the highest level that is not empty |
| `SkipLists.SkipList.LinkLevel` | sl.c:201-206 | links the node in at one level, at its place, the other levels as they were |
| `SkipLists.SkipList.UnlinkLevel` | sl.c:237-240 | links it out |
| `SkipLists.ChainInsert` | sl.c:203-205 | the two pointer writes make the level's list with the node inserted |
| `SkipLists.ChainRemove` | sl.c:240 | the one pointer write makes the list without it |
| `SkipLists.OnLowLevels` | sl.c:234-241 | the first level a node is not on is above all levels it is on, so stopping there is right |
| `SkipLists.RemovedAll` | sl.c:234-241 | hence the deletion loop has taken the node out everywhere |
| `SkipLists.NodeAdded` | sl.c:182-206 | all that a new node changes: sizes, levels in use, heights |
| `VnodeIndexes.CompareTotal` | kernel.c:2344-2360 | the order of names is total and transitive, and equal means the same name |
| `VnodeIndexes.RankOrder` | kernel.c:2344-2360 | numbers ordered as compare_vnode orders names |
| `VnodeIndexes.InsertName` | kernel.c:2203-2204 | InsertSL keeps the skip list the index of the model, a duplicate staying as it was |
| `VnodeIndexes.DeleteName` | kernel.c:2179 | so does DeleteSL |
| `VnodeIndexes.SearchName` | kernel.c:2266-2276 | SearchSL finds exactly the names in the index |
| `VnodeModel.LoadKeeps` | kernel.c:2278-2342 | load_vnode up to a callback or its result keeps the table and the life cycle |
| `VnodeModel.ReadDoneKeeps` | kernel.c:2321-2341 | so does the end of read_vnode, success or error |
| `VnodeModel.FreedKeeps` | kernel.c:2160-2168 | and the end of release_vnode or remove_vnode |
| `VnodeModel.NewKeeps` | kernel.c:2042-2071 | new_vnode keeps them exactly if the name is new and the name space known |
| `VnodeModel.RenewedKeeps` | kernel.c:2057-2070 | likewise after it has flushed the vnode it takes over, whose own name may be used |
| `VnodeModel.FillKeeps` | kernel.c:2060-2070 | the last part of new_vnode keeps them exactly then |
| `VnodeModel.NameKeeps` | kernel.c:2200-2214 | naming a vnode keeps index and name spaces exactly if the name is new, since a duplicate counts as success |
| `VnodeModel.ClearKeeps` | kernel.c:2176-2198 | clearing takes exactly that vnode out of index and name space |
| `VnodeModel.MoveKeeps` | kernel.c:2216-2237 | moving keeps every vnode on just the list it says |
| `VnodeModel.EvictKeeps` | kernel.c:2251-2264 | the oldest unused vnode becomes busy and is released, having no references and no mark |
| `VnodeModel.DecKeeps` | kernel.c:2147-2174 | dropping a reference: removal exactly if marked at the last drop, else the used list and at most one release |
| `VnodeModel.IncKeeps` | kernel.c:2139-2145 | copying a reference |
| `VnodeModel.MarkKeeps` | kernel.c:2077-2111 | setting or clearing the remove mark |
| `VnodeModel.ApplyKeeps` | kernel.c:2042-2342 | every critical section keeps the table in order |
| `VnodeModel.RunKeeps` | kernel.c:2042-2342 | so does every run: lists, counts, index, name spaces, and a legal life of every vnode |
| `VnodeModel.Alternates` | kernel.c:2147-2174 | in a legal life, loads alternate strictly with exactly one release or removal |
| `VnodeModel.ListsAddUp` | kernel.c:2216-2237 | the three lists add up to all vnodes |
| `VnodeUses.LoadServes` | kernel.c:2278-2342 | load_vnode gives the vnode of that name one reference more, and takes it off the unused; or reads into a free vnode, or has the oldest unused one given back, or waits |
| `VnodeUses.HitIs` | kernel.c:2286-2331 | a vnode found is the one of that name, and nothing but its count and list changes |
| `VnodeUses.ReadDoneServes` | kernel.c:2321-2341 | a vnode that was read has one reference and the data read; one that was not is no longer there |
| `VnodeUses.FreedServes` | kernel.c:2160-2168 | a vnode given back or removed is no longer there |
| `VnodeUses.NewServes` | kernel.c:2042-2071 | new_vnode puts a vnode with one reference and the data given there, or has the oldest unused one given back |
| `VnodeUses.RenewedServes` | kernel.c:2057-2070 | and then takes it over |
| `VnodeUses.DecServes` | kernel.c:2147-2174 | one reference less; at the last, a marked vnode is removed, any other joins the unused, of which the oldest is given back if there are too many |
| `VnodeUses.IncServes` | kernel.c:2139-2145 | one reference more |
| `VnodeUses.MarkServes` | kernel.c:2077-2111 | the mark is set as asked, if the vnode is there and referred to |
| `VnodeUses.StepServes` | kernel.c:2042-2342 | every section does what it should for its users, and nothing to any other name |
| `VnodeUses.RunAccounts` | kernel.c:2042-2342 | over every run a vnode has just the references handed out and not dropped, is marked just if that was the last thing asked for in its life, and keeps the data last read or given; a name not there has no references |
| `VnodeLinks.MoveLinked` | kernel.c:2216-2237 | relinking a vnode from one list to the tail of another, with heads, tails and counts, is Move on the sequences; all other lists stay linked |
| `VnodeLinks.ClearLinked` | kernel.c:2176-2198 | so is linking it out of its name space, for Clear |
| `VnodeLinks.NameLinked` | kernel.c:2200-2214 | and linking it in at the head, for Name |
| `VnodeLinks.BypassChained` | kernel.c:2219-2227 | going past a vnode both ways leaves the chain of the others, head and tail included |
| `VnodeLinks.TailChained` | kernel.c:2229-2236 | the links at the tail make the chain with the vnode appended |
| `VnodeLinks.HeadChained` | kernel.c:2206-2212 | the links at the head make the chain with the vnode in front |
| `VnodeTables.VnodeTable.LoadVnode` | kernel.c:2278-2342 | one turn of the loop: what it answers and does for its users (`VnodeUses.Serves`), as the model says; links and table stay in order |
| `VnodeTables.VnodeTable.constructor` | kernel.c:463-488 | the loop that links all vnodes into the free list |
| `VnodeTables.VnodeTable.ReadOver` | kernel.c:2321-2341 | after read_vnode, likewise |
| `VnodeTables.VnodeTable.CallbackOver` | kernel.c:2160-2168 | after release_vnode or remove_vnode, likewise |
| `VnodeTables.VnodeTable.NewVnode` | kernel.c:2042-2071 | new_vnode, likewise; in order afterwards exactly for new names in known name spaces |
| `VnodeTables.VnodeTable.NewVnodeOver` | kernel.c:2057-2070 | the rest of new_vnode after a flush, likewise |
| `VnodeTables.VnodeTable.DecVnode` | kernel.c:2147-2174 | dec_vnode up to a callback, likewise |
| `VnodeTables.VnodeTable.IncVnode` | kernel.c:2139-2145 | inc_vnode, likewise |
| `VnodeTables.VnodeTable.MarkVnode` | kernel.c:2077-2111 | remove_vnode and unremove_vnode, likewise |
| `VnodeTables.VnodeTable.MoveVnode` | kernel.c:2216-2237 | the pointer writes of move_vnode do what Move says, and all lists stay linked, both ways, and counted |
| `VnodeTables.VnodeTable.StealVnode` | kernel.c:2239-2249 | takes the vnode the head of the list leads to, which is its first |
| `VnodeTables.VnodeTable.ClearVnode` | kernel.c:2176-2198 | the pointer writes of clear_vnode do what Clear says, and the lists of the name spaces stay linked |
| `VnodeTables.VnodeTable.SortVnode` | kernel.c:2200-2214 | so do those of sort_vnode, for Name: an entry already in the index stays, which counts as success |
| `ParsePath.Resolver.ParsePath` | kernel.c:1866-1996 | terminates with what following the components comes to; takes one reference on the base and returns one on the result, none on error |
| `ParsePath.Resolver.Advance` | kernel.c:1899-1989 | one turn: the answer, or less left to do with the same answer; references balance |
| `ParsePath.Resolver.Isolate` | kernel.c:1899-1906 | cuts off exactly the first component, and the slashes after it |
| `ParsePath.Resolver.Climb` | kernel.c:1912-1915 | '..' at the root of a mounted name space goes on from the mount point |
| `ParsePath.Resolver.Cross` | kernel.c:1984-1989 | a mount point leads to the mounted root |
| `ParsePath.Resolver.Splice` | kernel.c:1960-1977 | the link's components come before the rest; an absolute target starts over at the root |
| `ParsePath.JoinComponents` | kernel.c:2421-2432 | putting texts together with a slash puts their components together |
| `ParsePath.FollowPlain` | kernel.c:1908-1937 | without links a path leads from component to component, '..' at the root of what is mounted going on from the mount point, and mount points giving way to what is mounted there; and then on |
| `ParsePath.FollowAll` | kernel.c:1908-1937 | so such a path comes to where its last component leads |
| `ParsePath.LinkLeads` | kernel.c:1950-1977 | a link counts as its components, those of an absolute target from the root of all, others from where the link is |
| `ParsePath.LinkLimit` | kernel.c:1952-1957 | of links that lead to one another 16 are followed, and one more is an error |
| `ParsePath.ComponentsPlain` | kernel.c:1899-1906 | components are not empty and have no slash |
| `RootFs.FileSystem.Rename` | rootfs.c:303-460 | each error and success under its own condition on the entries (`RootFs.RenameSays`); on success only the moved and the replaced entry change; the tree stays a tree, and all names stay valid exactly unless it is refused by the last checks with a longer new name |
| `RootFs.RenameAnswers` | rootfs.c:311-405 | rename succeeds exactly if both are directories, the old name is an entry, neither name is a dot name, and it is the same entry already, or olddir is not above newdir and whatever has the new name is no directory with entries and can be got hold of; and when it gives which error |
| `RootFs.BeneathIs` | rootfs.c:370-377 | the test it makes is whether a chain of parents leads from newdir up to olddir |
| `RootFs.FileSystem.Relink` | rootfs.c:392-451 | unlinking what is replaced, unlinking the entry, and linking it in at its place |
| `RootFs.FileSystem.Above` | rootfs.c:370-377 | the walk up finds whether olddir is a proper ancestor of newdir |
| `RootFs.TestIsEnough` | rootfs.c:366-377 | that test is enough to keep an entry from moving below itself |
| `RootFs.RefusesHarmless` | rootfs.c:370-377 | a refusal is needless, the moved tree being one, exactly if olddir is above newdir but the entry is not |
| `RootFs.NameLost` | rootfs.c:379-405 | renaming a file to the longer name of a directory with entries is such a refusal that takes the file's name away |
| `RootFs.RenameReach` | rootfs.c:303-460 | the entries found from the root are the same but for the one replaced |
| `RootFs.RenameLost` | rootfs.c:392-405 | what is replaced is an entry of the new directory with no entries of its own |
| `RootFs.PutTree` | rootfs.c:433-448 | putting a loose entry into a directory not below it leaves a sorted tree |
| `RootFs.TakenTree` | rootfs.c:426-431 | taking an entry out leaves a tree |
| `RootFs.WithKidSorted` | rootfs.c:433-446 | the place found keeps the list strictly sorted, so without duplicates |
| `RootFs.FileSystem.Create` | rootfs.c:883-1001 | its error in every case; on success a new entry at its place and nothing else |
| `RootFs.FileSystem.Present` | rootfs.c:921-929 | the search that stops early finds a name just if it is there |
| `RootFs.CreateReach` | rootfs.c:883-1001 | a new entry is found just if its directory is, all others as before |
| `RootFs.FileSystem.Unlink` | rootfs.c:1003-1103 | its error in every case; on success that entry is gone and marked and nothing else changes |
| `RootFs.UnlinkReach` | rootfs.c:1003-1103 | exactly that entry is not found any more |
| `RootFs.FileSystem.Find` | rootfs.c:332-337 | the entry of that name, if any |
| `RootFs.FileSystem.PutIn` | rootfs.c:433-448 | linking an entry in at its place |
| `RootFs.FileSystem.TakeOut` | rootfs.c:426-431 | linking an entry out |
| `Names.LessIsBefore` | rootfs.c:435 | a name comes first exactly if it is a proper prefix of the other or has the smaller character at the first place where they differ |
| `Names.Total` | rootfs.c:435 | the order of names is total, so the sorted place of a name is unique |
| `ReadDirs.ReadDir` | rootfs.c:641-701 | reports the next pending entries in order, as many as asked for and fit, and moves the cursor past them |
| `ReadDirs.Resume` | rootfs.c:665-667 | the cursor's name leads to the entries behind it |
| `ReadDirs.PendingAre` | rootfs.c:648-667 | what a call has still to report: '.' and '..' unless reported, and exactly the entries whose names come behind the cursor's |
| `ReadDirs.RoomIs` | rootfs.c:676-690 | each record takes the room of its parts rounded up to eight bytes |
| `ReadDirs.ScanAllOnce` | rootfs.c:641-701 | however the directory changes between calls, an entry there throughout is reported exactly once by a complete scan |
| `ReadDirs.ScanNoneTwice` | rootfs.c:641-701 | no name is reported twice, and nothing that was never there |
| `ReadDirs.StepGood` | rootfs.c:662-696 | one call keeps what the scan has established |
| `ReadDirs.ListingSorted` | rootfs.c:968-981 | directories of the tree are sorted at all times, by prefix and first different character |
| `DirRecords.Directory.constructor` | dir.c:34-81 | a new directory's bytes are exactly the records '.' and '..' |
| `DirRecords.Directory.Lookup` | dir.c:125-148 | finds the number of the first record of that name, or says there is none |
| `DirRecords.Directory.Insert` | dir.c:151-188 | appends one record |
| `DirRecords.Directory.Delete` | dir.c:191-245 | removes the first record of that name, keeps the order of the rest, refuses '.' and '..' |
| `DirRecords.Directory.Search` | dir.c:212-222 | the walk from record to record stops at the first match, or exactly on the end |
| `DirRecords.Directory.SameName` | dir.c:141 | strcmp on the bytes of a record compares its name |
| `DirRecords.ParsesAt` | dir.c:21-23 | every record begins where the walk gets to, on a multiple of 8, and the walk lands on the end |
| `DirRecords.ParsesUnique` | dir.c:21-23 | the bytes determine the records |
| `DirRecords.ParsesJoin` | dir.c:180 | records put behind one another parse as both lists |
| `DirRecords.LayoutStarts` | dir.c:167-171 | the bytes laid out for a record parse as that record |
| `DirRecords.InsertThenFind` | dir.c:151-188 | after an insert the new name is found and every other as before |
| `DirRecords.DeleteThenFind` | dir.c:191-245 | after a delete no other name is found differently |
| `DirRecords.DeleteOnce` | dir.c:191-245 | and if names are unique the deleted one is gone |
| `DirRecords.InsertOnce` | dir.c:151-188 | names stay unique if the caller looks first |

## Left out

- Device I/O failures, running out of memory, panics and the cache's `handle_err` cleanup; the device is an array of blocks whose reads and writes succeed.
- Blocks of different sizes: a cached block is one value, so reallocating an entry's buffer for another block size is not modelled; each request has one block size.
- The callback of `set_blocks_info` is taken to be present (an `id` stands for function and argument), and the blocks named are distinct, which the code needs too.
- Busy entries and waiting are in `EvictionProtocol` only; `BlockCache` runs one request at a time. Clones and the journal are in `BlockCache` only.
- BlockCache.Cache.BigWrite: the clones of all blocks are flushed before the first copy, where the code alternates; the copies reach only memory, so the device sees the same order.
- BlockCache.Cache.SortEnts: states only that new entries come first, because the truncated difference is no order on wide block numbers.
- BlockCache.Cache.GetEnts: waiting for busy entries to come free is left to `EvictionProtocol`.
- BlockCache.Cache.CacheBlockIo: asks that a miss can find entries enough beside the locked ones, and that no large request is locked, because the code panics otherwise; read-ahead is for blocks of at least 512 bytes, since the array of entries holds 64.
- Strict LRU order, which the sorting of victims gives up.
- HashTables.HashTable.Insert: chains are sequences in an array, not linked cells, so pointer aliasing inside a chain is not captured.
- Cache entries, vnodes and root file system nodes are records in maps, found by number, not heap objects; the links of the vnodes are such records too. Nodes on the heap are those of the LRU lists and the skip list. The vnode table keeps its index as a map; `VnodeIndexes` shows the skip list to be that map.
- `EvictionProtocol` has no clones, so flushing a clone that a large write would overwrite is in `BlockCache` only.
- `flush_blocks`, `force_cache_flush`, the idle-time flusher and `remove_cached_device_blocks` with writes: further callers of `flush_ents` in the shape of `flush_device`; dropping a device's blocks without writing discards data on purpose.
- DataStreams.Volume.FilePosToDiskAddr: past the indirect range the code follows the unset double-indirect pointer through block 0 before it gives -1, and may die on what it finds there; the model gives -1 at once. Growing there is too big, as in the code.
- DataStreams.EndLookup: for the same reason it says -1 for the end of a file that fills the whole indirect range, where the code may die instead.
- DataStreams.Volume.Grow: when it fails in the indirect range the code leaves the index block pinned and does not mark it dirty (dstream.c:256-260); the model's blocks are those clients see, which have the new entries.
- Superblock checks, inode tables, `update_inode`, time stamps, modes, user and group ids.
- `DoForRangeSL`, `NextSL`-style access and freeing a whole skip list; keys compare as integers.
- SkipLists.SkipList.DoFor: the level is not lowered after deletions, as in the code, so an upper level may be empty until the next delete; its two save arrays are bounded by the 16 levels.
- Unmounting, the file descriptor table and the `sys_` calls; `get_vnode` and `put_vnode` are the load and drop of a reference that are modelled.
- VnodeTables.VnodeTable.LoadVnode: the loop around it, which waits or calls into a file system and starts over, is left to the caller.
- VnodeModel.LoadKeeps: waiting for a busy vnode is the outcome Retry; "out of vnodes", where the code panics, is an outcome that changes nothing.
- ParsePath.Resolver.ParsePath: the file systems' answers and the mount table are arbitrary functions of time, with references handed over as the callbacks promise; running out of memory is left out.
- Taking a copy of a path and checking its component lengths.
- RootFs.FileSystem.Rename: storage that is given back counts as gone at once, as realloc may move it; failing to get or mark the replaced vnode is one outcome, given as a parameter; the replaced vnode keeps its removed flag as in the code.
- RootFs.FileSystem.Create: the name's storage is always there; symbolic links are entries that are no directories.
- Vnodes of removed root file system entries are not deleted from the model: they stay, found from nowhere.
- `myfs_rmdir`'s test for emptiness by size, and opening and reading packed directories.
- DirRecords.Directory.Delete: the file is cut by plain slicing; what cutting a stream does to blocks and index entries is in `VolumeModel`.
- DirRecords.Directory.Insert: the stream write succeeds, and names have at most 255 bytes without a zero byte, as `name_len` and C strings require.
- Printing, debugging aids, `journal.c` (empty), user programs and drivers.
