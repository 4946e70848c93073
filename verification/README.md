# nbd-vram: a verified model of the compressed block store

nbd-vram serves a block device out of GPU memory. Every 4 KiB block is compressed, stored in a slot
of a fixed heap, and found through an index of 64-bit entries; readers take no lock. This project
models that store in Dafny and proves what it promises, in three layers that stand on each other:

1. **The heap** - a slab allocator with 64 size classes, bitmaps with a resume hint, intrusive lists
   and borrowing from larger classes. `HeapModel` gives every operation as a function on values and
   proves what it guarantees; `Allocator` is the imperative allocator on arrays, each method proved
   equal to its function. (`Bitmap`, `ExtentLists`, `Grains`, `HeapModel`, `Allocator`, `Capacity`,
   `SlotTotals`, `HeapRuns`, `Headroom`)
2. **One worker's store** - the index, the heap and the codec behave as a plain array of bytes that
   starts as zeros: for any offset and length, through read-modify-write edges, windows, batches,
   trims, a full heap and failing device copies. (`StoreModel`, `BlockStore`, `BlockOps`, `Worker`,
   `Disk`, `Ranges`, `Windows`, `Requests`, `ByteArray`, `Batch`, `BatchServing`)
3. **The concurrent index** - a transition system over any number of agents running reads, writes,
   partial writes and trims, where every access to shared memory is a step of its own and a device
   copy moves one byte per step, so a slot can be freed and reused in the middle of a copy. The
   invariant is proved by rely/guarantee: each step is one of a few effects on the shared state, and
   no effect of one agent can break what another knows. (`Protocol`, `ProtocolInv`,
   `ProtocolEffects`, `ProtocolSafety`, `ProtocolBooks`, `ProtocolTheorems`, `ProtocolDelivery`,
   `ProtocolReads`, `ProtocolStranding`, `ProtocolCensus`, `ProtocolCounts`, `ProtocolLiveness`,
   `ProtocolProgress`). `Coupled` runs it on the allocator of layer 1, so that every slot taken or returned
   is a call of that allocator.

`HalfApplied` and `Witnesses` exhibit the three things the code does that its users might not expect.
Beside them, `Locks` adds the allocator's mutex to the stripe locks and proves freedom from deadlock,
and `Drain` and `DrainEnds` model shutdown: nobody registered is cut off, and it completes.

Errors have causes. The store keeps a record of every call it makes to the allocator, and whether the
k-th device copy goes through is a parameter; its invariant says that the two failure counts are exactly
what that record and that parameter imply. So ENOSPC means that the heap, as it stood when it was asked,
had no room for a stored page (`Headroom`, `Worker.BlockWorker.PrepareOps`), never while there is room for
as many pages as the request touches, and EIO means that the device failed a copy
(`BlockStore.VramStore.WhyFailed`, `Ranges.StoreRange`, `Requests.HandleOne`,
`BatchServing.BatchWorker.FlushBatch`).

Conventions. The codec is a pair of functions; the one assumption made about it (`RoundTrips`) is
that decompressing undoes compressing. Any device copy may fail. A 64-bit bitmap word is a
run of 64 flags, and a list head is named by its number (0-63 the classes, 64 the free list). Packed
entries are natural numbers below 2^64 taken apart by division, which is what the shifts and masks
compute. `Mul` and `Quot` are product and quotient by repeated addition and subtraction, proved equal
to `*` and `/`.

Where the documentation and the code differ, the model follows the code. Three such places matter,
each with its exact condition and an exhibit:

- A failed copy of a whole-block write leaves its slot neither published nor freed. Nothing is leaked
  if and only if no such copy fails (`ProtocolStranding.LeakFreeIff`, `Witnesses.FailedUploadLeaks`).
- A failed copy can half-apply a batched write while a full heap cannot. A write stores all its blocks
  if and only if none of its own copies fails and it is not refused (`Batch.RequestLanded`,
  `HalfApplied.FailedCopyHalvesWrite`).
- With no codec, live blocks plus reservations (and stranded slots, if copies failed) fewer than the
  device's blocks do guarantee room for one worker (`BlockStore.VramStore.Reserve`), but not for several: slots displaced by a publish and not
  yet freed occupy the heap too. A page is refused if and only if all of these fill it
  (`Coupled.NeverRefusedUncompressed`, `Witnesses.RefusedWithRoom`).

`dafny verify dfyconfig.toml` checks the whole project.

## Model

| member | source | states |
|---|---|---|
| `Blocks.CodecRoundTrip` | nbd-vram.c:343-372 | storing a page and reading it back is the identity whether or not the codec shrank it; the verbatim case needs no assumption |
| `Blocks.StoredForm` | nbd-vram.c:343-358 | a page takes exactly as many bytes as the library returns for it when that is 1 to 4095, and then those bytes are what is stored; otherwise a whole page, verbatim |
| `Blocks.EntryRoundTrip` | nbd-vram.c:767-784 | grain, length and generation never bleed into each other and the entry fits 64 bits |
| `Blocks.EntryEquality` | nbd-vram.c:755-784 | two entries are the same word exactly when slot and length agree and generations agree modulo 2^21 |
| `Bitmap.ScanFromHint` | nbd-vram.c:920-937 | the hinted circular scan returns the lowest clear bit of the row, that is plain first fit; it cannot come back empty-handed |
| `Bitmap.ScanStopsEarly` | nbd-vram.c:925-938 | with a free slot left, the scan meets a word that is not full before it wraps, so the final failure return is unreachable |
| `Bitmap.TakeKeepsRow` | nbd-vram.c:928-933 | claiming the lowest clear bit keeps: words before the hint are full, the free count is the number of clear bits, bits past the last slot stay set |
| `Bitmap.ReleaseKeepsRow` | nbd-vram.c:992-995 | clearing a bit and pulling the hint back keeps the same three facts |
| `Bitmap.FillBitmap` | nbd-vram.c:913-916 | a fresh row has exactly its usable slots clear and its tail taken |
| `ExtentLists.PushLinked` | nbd-vram.c:874-880 | pushing keeps every list acyclic and doubly linked |
| `ExtentLists.RemoveLinked` | nbd-vram.c:882-888 | unlinking, from head or middle, keeps every list acyclic and doubly linked |
| `ExtentLists.WalkReaches` | nbd-vram.c:871-888 | following next links from a list head reaches every extent whose home is that list |
| `ExtentLists.WalkSpellsList` | nbd-vram.c:871-888 | the walk visits exactly the extents of the list, each once |
| `Grains.DecodeGrain` | nbd-vram.c:934-983 | extent and slot are recovered from the grain by the division and remainder the free path uses |
| `Grains.GrainsApart` | nbd-vram.c:933-935 | different slots of whatever extents and classes occupy disjoint byte ranges |
| `Grains.CarvedWhole` | nbd-vram.c:902-917 | an extent is carved completely: the slots of its class leave less than one slot over |
| `HeapModel.AllocFailsIffNoRoom` | nbd-vram.c:941-976 | an allocation fails exactly when every extent is committed and every extent of its class or larger is full, and then nothing changes |
| `HeapModel.AllocAddsOneSlot` | nbd-vram.c:941-976 | a successful allocation adds one slot, large enough, that was not outstanding, moves the byte total by its size, and keeps the allocator well formed |
| `HeapModel.AllocPlacement` | nbd-vram.c:947-966 | the slot comes from the tightest class that has one; an extent is committed only when the class has no partial one; borrowing happens only when none is left; the lowest free slot is taken |
| `HeapModel.FreeRemovesOneSlot` | nbd-vram.c:981-1007 | a free removes exactly that slot, resizes none, moves the byte total by its size, and keeps the allocator well formed |
| `HeapModel.FreeSound` | nbd-vram.c:981-1007 | a free leaves lists, bitmaps and counts in agreement and no committed extent empty |
| `HeapModel.LocateSlot` | nbd-vram.c:983-989 | the extent and slot computed from the grain are the ones it was issued for, borrowed slots included |
| `HeapModel.OutstandingDisjoint` | nbd-vram.c:902-1007 | all outstanding slots lie inside the heap and no two overlap by a byte |
| `HeapModel.FreeCountMeansClear` | nbd-vram.c:855-862 | for a committed extent the free count is positive exactly when a usable bit is clear, and equals the slot count exactly when all are |
| `HeapModel.ListsTellRoom` | nbd-vram.c:871-966 | the list heads decide whether a class can be served, and what each head says about its extent |
| `HeapModel.FreshHeapGood` | nbd-vram.c:1047-1055 | the heap as initialised satisfies the whole invariant with nothing outstanding |
| `Allocator.ExtentAllocator.LstPush` | nbd-vram.c:874-880 | the in-place push is the value-level push and keeps all lists well linked |
| `Allocator.ExtentAllocator.LstRemove` | nbd-vram.c:882-888 | the in-place unlink is the value-level unlink and keeps all lists well linked |
| `Allocator.ExtentAllocator.ExtInit` | nbd-vram.c:902-917 | the extent is handed to its class with every usable slot free |
| `Allocator.ExtentAllocator.ExtTake` | nbd-vram.c:920-939 | claims the lowest free slot, and delists the extent exactly when it became full |
| `Allocator.ExtentAllocator.SlotAlloc` | nbd-vram.c:941-976 | the in-place allocation computes the value-level one, keeps the invariant and the exact counters, and maintains the peak |
| `Allocator.ExtentAllocator.SlotFree` | nbd-vram.c:981-1007 | the in-place free computes the value-level one; size and position come from the grain alone; exactly that slot leaves |
| `Allocator.ExtentAllocator.constructor` | nbd-vram.c:1016-1055 | every extent free and listed in ascending order from the head, nothing outstanding, all counters zero |
| `HeapRuns.AnyHistory` | nbd-vram.c:871-1007 | after any sequence of allocations and frees: tables well formed, counters exact, slots disjoint and in the heap, no committed extent empty, and everything uncommitted once all slots are back |
| `HeapRuns.AllocIsFreshSlot` | nbd-vram.c:941-976 | what the concurrent model assumes of a new slot is exactly what the allocator delivers |
| `Capacity.OutstandingCount` | nbd-vram.c:968-1003 | the number of outstanding slots equals the bits taken, summed over extents |
| `Capacity.EmptyHeapIsUncommitted` | nbd-vram.c:997-1003 | nothing outstanding means every extent is back on the free list and both counters are zero |
| `Capacity.OutstandingBytes` | nbd-vram.c:968-1003 | g_slot_bytes is the sum of the sizes of the outstanding slots |
| `Capacity.RefusedMeansFull` | nbd-vram.c:941-976 | a request is refused exactly when no extent is uncommitted and every extent whose slots are big enough is covered by outstanding slots up to less than one slot of its class |
| `Headroom.HeadroomHolds` | nbd-vram.c:941-1007 | from a heap with k uncommitted extents - or, if nothing compresses, k pages left - any history of calls with at most k asks is granted in full |
| `Headroom.DenialsGrow` | nbd-vram.c:1190-1203 | over any history of calls the count of refusals goes up exactly when an ask finds the heap, as it then stands, without room |
| `Capacity.RawAllocSucceedsIff` | nbd-vram.c:941-976 | on an uncompressed heap a page is granted exactly while outstanding slots are fewer than the heap's pages |
| `Capacity.RawStaysRaw` | nbd-vram.c:343-358 | whole-page traffic never brings another class into the heap |
| `Capacity.ConfigureFits` | nbd-vram.c:2229-2273 | every size the daemon starts with gives addressable grains; without a codec the heap has at least as many pages as the device has blocks |
| `Capacity.ConfigureSizes` | nbd-vram.c:2229-2275 | the daemon starts exactly with 1024 up to 65535 MiB of VRAM and a device of at least 1 MiB; the extents make up all of the VRAM; the device is as large as asked, twice the VRAM if nothing was, and without a codec no larger than the VRAM |
| `StoreModel.PublishKeeps` | nbd-vram.c:1213-1222 | publishing a placed page makes its block read as that page and frees up exactly the displaced slot; every other block reads as before |
| `StoreModel.ReplaceKeeps` | nbd-vram.c:1213-1233 | publish and free together: one page changes, the reservation is spent, no other reservation is disturbed |
| `StoreModel.UploadKeeps` | nbd-vram.c:1317-1318 | filling a reserved slot changes what no block reads as |
| `StoreModel.NoSpareNoLeak` | nbd-vram.c:1185-1242 | with no reservation open, the outstanding slots are exactly those the index points at |
| `StoreModel.SlotCount` | nbd-vram.c:1185-1242 | the outstanding slots number exactly the live blocks plus the slots no entry points at |
| `BlockStore.VramStore.constructor` | nbd-vram.c:1016-1055 | a fresh store is a device of zeros |
| `BlockStore.VramStore.Reserve` | nbd-vram.c:1190-1203 | a new slot of the size asked, or a refusal exactly when the heap has no room; no block changes; never a refusal with an extent uncommitted, nor, without a codec, while live blocks and slots no entry points at number fewer than the blocks of a device that fits its heap |
| `BlockStore.VramStore.Attempt` | nbd-vram.c:1311-1326 | a copy fails exactly when the device fails it, and exactly that is counted |
| `BlockStore.VramStore.WhyFailed` | nbd-vram.c:1190-1203 | between any two moments the heap refused exactly when an ask found it without room - never with room for as many slots as were asked for - and a copy failed exactly when the device failed one |
| `BlockStore.VramStore.Publish` | nbd-vram.c:1213-1233 | exactly one block changes, to the page whose stored form is in place, and the displaced slot returns to the heap |
| `BlockStore.VramStore.ReadBlock` | nbd-vram.c:1278-1301 | the block's page, unless a copy fails: stored bytes always decompress |
| `BlockStore.VramStore.RmwBlock` | nbd-vram.c:1442-1496 | all of the patch or none of it, nothing outside it, no slot leaked even when the copy back fails; EIO exactly on a failed copy, ENOSPC exactly when none failed and the heap has no room for what the library makes of the patched page |
| `BlockStore.VramStore.TrimBlock` | nbd-vram.c:1566-1582 | the block reads as zeros and its slot is back; nothing else changes |
| `BlockStore.StartUncompressed` | nbd-vram.c:2229-2273 | the store set up without a codec stores pages whole and has a page of heap for every block, at every size the daemon accepts |
| `Worker.BlockWorker.WrPrepare` | nbd-vram.c:1190-1203 | a reservation holding nothing yet, or ENOSPC exactly when the heap has no room for what the library makes of the page; never while there is room as above |
| `Worker.BlockWorker.RdPrepare` | nbd-vram.c:1246-1252 | a snapshot of the entry, with a copy to issue exactly when the block is written |
| `Worker.BlockWorker.RdFinish` | nbd-vram.c:1256-1273 | asks for a retry exactly when the entry moved; otherwise the right page |
| `Worker.BlockWorker.PrepareOps` | nbd-vram.c:1728-1732 | reservations are new slots, pairwise different, one per write that got one; a write is refused exactly when the heap, as the writes before it left it, has no room for its stored page; no block changes |
| `Worker.BlockWorker.IssueCopies` | nbd-vram.c:1311-1326 | a failed copy fails only its own operation; copies into reserved slots disturb no read of the set |
| `Worker.BlockWorker.FinishReads` | nbd-vram.c:1330-1368 | after at most four re-check rounds and the locked path every read is answered correctly or failed by a copy |
| `Worker.BlockWorker.PublishWrites` | nbd-vram.c:1374-1378 | exactly the writes still holding a reservation are published, in order |
| `Worker.BlockWorker.DoBlocks` | nbd-vram.c:1307-1380 | every read of the set sees the store before any write of the set; writes apply in order; slots left behind are exactly those of failed writes |
| `BlockOps.StraysAreLost` | nbd-vram.c:1317-1323 | what a set reserved and did not publish is exactly the slots of its failed writes |
| `Ranges.RunOps` | nbd-vram.c:1307-1380 | a set from blank to finished: a write is refused exactly when the heap, as the writes before it left it, has no room for its stored page; what the store holds, and that the slots left behind are exactly those of the writes whose copy failed |
| `Ranges.StoreBlocks` | nbd-vram.c:1419-1436 | in windows of any size, whole-block writes change exactly their blocks; on errors each block is old or new; EIO exactly when the device failed a copy, ENOSPC exactly when none failed and an ask found no room, never with room for all the blocks; every block is tried whatever became of the others |
| `Ranges.LoadBlocks` | nbd-vram.c:1403-1417 | exactly the bytes of the run, or EIO exactly when the device failed a copy |
| `Ranges.StoreRange` | nbd-vram.c:1524-1548 | for every in-bounds offset and length: success changes exactly those bytes; on ENOSPC or EIO each block is entirely old or entirely new and all others are untouched; slots are lost only to failed copies; EIO exactly when the device failed a copy, ENOSPC exactly when none failed and the heap, as it stood when asked, had no room - never with room for as many blocks as the range touches; every block is tried whatever became of the others |
| `Ranges.LoadRange` | nbd-vram.c:1500-1522 | for every in-bounds offset and length exactly those bytes, or EIO exactly when the device failed a copy; the store is unchanged |
| `Ranges.TrimRange` | nbd-vram.c:1559-1584 | blocks wholly inside the range become zeros and give their slots back; partial ends and everything else are kept |
| `Ranges.WroteJoin` | nbd-vram.c:1524-1548 | two writes meeting on a block boundary, each whole or half-applied, are one write; EIO outranks ENOSPC |
| `Disk.OverwriteIsSplice` | nbd-vram.c:1403-1548 | writing pages is splicing the flat byte array |
| `Disk.WrittenJoin` | nbd-vram.c:1524-1548 | block-wise old-or-new composes across adjacent writes that meet on a block boundary |
| `Disk.ReadBack` | nbd-vram.c:1500-1548 | a written range reads back, and every disjoint range reads as before |
| `Windows.WindowLen` | nbd-vram.c:1612-1623 | a window is all that is left if that fits 256 KiB, else a full buffer less than one block short, ending on a block boundary |
| `Windows.CutDrainsExactly` | nbd-vram.c:1612-1631 | for every 64-bit offset, even one that wraps, exactly the request's bytes are taken off the wire |
| `Windows.CutTiles` | nbd-vram.c:1612-1662 | windows of an in-bounds request follow each other from its first byte to its last, each at most the buffer, every inner cut on a block boundary |
| `Windows.TilesCoverOnce` | nbd-vram.c:1612-1662 | every byte of the request is in exactly one window, and no other byte in any |
| `Windows.OnlyOuterEdgesPartial` | nbd-vram.c:1617-1623 | only the request's own first and last blocks can be partial |
| `Requests.HandleWrite` | nbd-vram.c:1612-1634 | out of bounds: EINVAL and nothing stored, payload drained; else the whole write or old-or-new per block; the windows before the first failed one are stored whole and nothing after it is touched; EIO and ENOSPC have the causes above |
| `Requests.HandleRead` | nbd-vram.c:1649-1663 | the bytes asked for; after a failed copy, what was already sent is still right |
| `Requests.HandleOne` | nbd-vram.c:1594-1665 | one reply with the request's own handle, EINVAL exactly when offset plus length exceed the device; the connection ends exactly on a failed copy or a cut payload; ENOSPC exactly when the heap had no room when asked, never with room for as many blocks as the request touches |
| `ByteArray.ServedRefines` | nbd-vram.c:1594-1665 | every request served on its own is a turn of the byte array, whatever its reply: writes whole or, only with an error, block by block old or new; reads their bytes; trims zeros |
| `ByteArray.BatchRefines` | nbd-vram.c:1724-1772 | every batch is a turn of the byte array, whichever copies failed: reads against the array before it, then the writes in request order, whole or - only if told EIO - block by block |
| `ByteArray.RefusedIsHarmless` | README.md:78-78 | EINVAL changes nothing; after ENOSPC every block is old or new and every byte outside the request is as it was |
| `ByteArray.SessionRefines` | nbd-vram.c:1594-1843 | in any session of single requests and batches, with refusals, a full heap and failing copies, every exchange is a turn of the plain byte array |
| `ByteArray.DefiniteSession` | nbd-vram.c:1594-1843 | a session without failed copies and without lone writes out of space has exactly one outcome, the array's; refused requests are the identity |
| `ByteArray.FreshIsZeros` | nbd-vram.c:1244-1258 | before the first write every byte reads as zero |
| `Batch.BatchMeaning` | nbd-vram.c:1374-1378 | publishing operation by operation is storing, request by request in request order, exactly the blocks each request published, whichever copies failed |
| `Batch.BatchedJoin` | nbd-vram.c:1690-1705 | an admitted request adds one contiguous run of at most 16 operations, one per block, none if out of bounds |
| `Batch.StagedAbort` | nbd-vram.c:1237-1242 | returning one reservation leaves every other operation ready for its copy |
| `Batch.EioReported` | nbd-vram.c:1746-1750 | some request is told EIO exactly when some copy failed |
| `Batch.FinalErrors` | nbd-vram.c:1734-1750 | EINVAL exactly for out-of-bounds requests, EIO exactly when one of the request's own copies failed, ENOSPC exactly when one of its own blocks found no slot |
| `Batch.RequestLanded` | nbd-vram.c:1734-1750 | a write answered with no error is stored whole, requests told EINVAL or ENOSPC and reads store nothing, one told EIO stores exactly the blocks whose own copy went through and never all of them |
| `Batch.BatchSpares` | nbd-vram.c:1374-1378 | a block no request of the batch published is as it was |
| `BatchServing.BatchWorker.constructor` | nbd-vram.c:1866-1898 | the tables' sizes for every depth from 1 to 256 |
| `BatchServing.BatchWorker.BatchAdmit` | nbd-vram.c:1674-1712 | takes exactly reads and writes of 1 to 65536 bytes aligned to 4096; the request keeps its handle, range and payload |
| `BatchServing.BatchWorker.Assemble` | nbd-vram.c:1817-1835 | neither the request table nor the operation table overflows, and each request's data fits its own 64 KiB staging slot; the batch is the longest admissible prefix of the queue up to its caps |
| `BatchServing.BatchWorker.AbortFailed` | nbd-vram.c:1738-1742 | afterwards a write holds a reservation exactly when its whole request is error-free |
| `BatchServing.BatchWorker.RunBatch` | nbd-vram.c:1724-1750 | whichever copies failed: reads see the pre-batch store, the store holds exactly what each request published in request order, and the slots left behind are exactly those of failed writes; a write is refused exactly when the heap, as the writes before it left it, has no room for its stored page |
| `BatchServing.CleanBatch` | nbd-vram.c:1734-1750 | with no failed copy the store is the pre-batch store with the error-free writes applied whole, in request order, and no slot is left behind |
| `BatchServing.ReadReply` | nbd-vram.c:1328-1368 | a read in a batch gets what the store held before the batch |
| `BatchServing.BatchWorker.FlushBatch` | nbd-vram.c:1724-1772 | one reply per request, in order, with its own handle, error and data; the store, the slots and the refusals as above; nobody is refused with room for all the batch's writes; the connection is kept exactly when the device failed no copy |
| `BatchServing.BatchWorker.ServeBatch` | nbd-vram.c:1774-1843 | the replies answer the first messages of the queue, one each, in order, and the store holds what they say, failed copies included; no ENOSPC with room for the batch's blocks, dropped exactly when the device failed a copy |
| `HalfApplied.FailedCopyHalvesWrite` | nbd-vram.c:1317-1323 | a two-block write worked through: its second copy failing, it is told EIO with one block new, one old, and one slot left behind |
| `ProtocolSafety.InvAlways` | nbd-vram.c:1205-1380 | in every state of every interleaving each entry decodes to its block's latest page out of a slot no one else owns, and every agent's knowledge holds |
| `ProtocolSafety.StepKeeps` | nbd-vram.c:1190-1584 | each step keeps the shared invariant and gives every other agent what it relies on |
| `ProtocolSafety.SameWordSameVersion` | nbd-vram.c:755-766 | an unchanged word means an unchanged block, unless 2^21 publishes went by |
| `ProtocolInv.AgentStable` | nbd-vram.c:1205-1380 | no step of another agent can break what an agent knows about its slots, its locked block or its copy in progress |
| `ProtocolTheorems.LockFreeReadIsAtomic` | nbd-vram.c:1246-1273 | a lock-free read that passes its re-check returns the page its block held at that instant, whatever slots were freed and reused meanwhile, given fewer than 2^21 publishes since its snapshot |
| `ProtocolTheorems.RecheckIsModular` | nbd-vram.c:1256-1264 | the re-check passes exactly when slot and length are back and the publishes in between are a multiple of 2^21 |
| `ProtocolTheorems.EveryReadIsAtomic` | nbd-vram.c:1246-1301 | every read, however it was served - unwritten block, lock-free copy, locked fallback - returns the page its block holds when it finishes, under the same bound |
| `ProtocolReads.EveryReadReturns` | nbd-vram.c:1246-1301 | a read that ends with no failed copy of its own has returned exactly one page, of its own block, no older than the block was when the read began, and exactly what the block held at that instant, under the same bound |
| `ProtocolReads.LockOnlyWhenContended` | nbd-vram.c:1330-1368 | a read asks for its stripe lock only after its block was published to four times since the read began, so a read nobody races with takes no lock |
| `ProtocolProgress.EveryOperationCanBeDone` | nbd-vram.c:1185-1584 | from the end of any run any read, write, partial write or trim can be started and brought to its end without a failure, a write as long as a page of heap is free |
| `ProtocolTheorems.OwnershipPartition` | nbd-vram.c:1185-1242 | in every reachable state each outstanding slot has exactly one claimant - an entry, a reservation, or a displaced slot not yet freed - and claims are on outstanding slots only |
| `ProtocolTheorems.CleanRunStrandsNothing` | nbd-vram.c:1317-1323 | in a run without failed whole-block uploads no slot is ever stranded |
| `ProtocolStranding.StrandedForever` | nbd-vram.c:1317-1323 | a stranded slot stays outstanding and stranded for the rest of the run |
| `ProtocolStranding.LeakFreeIff` | nbd-vram.c:1317-1323 | nothing is stranded if and only if no whole-block upload has failed |
| `Witnesses.FailedUploadLeaks` | nbd-vram.c:1317-1323 | on every fresh store one failed upload reaches a quiescent state with no live block and a slot outstanding that nothing owns |
| `ProtocolTheorems.QuiescentHeapIsIndexed` | nbd-vram.c:1185-1242 | once every operation has finished the outstanding slots are exactly the indexed ones; with every block trimmed there are none |
| `ProtocolCensus.QuiescentSlots` | nbd-vram.c:1185-1242 | once every operation has finished the outstanding slots are exactly the indexed and the stranded ones, in every run |
| `ProtocolCensus.SlotCensus` | nbd-vram.c:1185-1242 | in every reachable state the outstanding slots number the live blocks plus the reservations plus the displaced slots plus the stranded ones |
| `ProtocolTheorems.NoLostUpdate` | nbd-vram.c:1438-1496 | whatever writes, partial writes and trims race on a block, it reads as its published edits applied one at a time in publish order |
| `ProtocolDelivery.AckedEditLandsOnce` | nbd-vram.c:1180-1183 | an operation that ends with no failure of its own has published exactly its own edit, to its own block, exactly once - or was a trim of a blank block |
| `ProtocolDelivery.AckedWriteIsSeen` | nbd-vram.c:1180-1183 | every read of the block that finishes after that, by anyone, returns the block's edits replayed in order, that one among them |
| `ProtocolDelivery.FetchingAdvances` | nbd-vram.c:1450-1467 | a partial write is never dropped by the page it fetches: stored pages always decompress |
| `ProtocolTheorems.PublishesOwnEdit` | nbd-vram.c:1205-1222 | a step publishes at most one edit, the acting agent's own, to its own block |
| `ProtocolTheorems.LastWriterWins` | nbd-vram.c:1438-1467 | writes to disjoint parts of one block both survive: every byte is what the last published edit covering it supplied, whatever raced with it |
| `ProtocolCounts.CountedAlways` | nbd-vram.c:1224-1232 | at every instant each counter plus the changes still owed equals its recomputation |
| `ProtocolCounts.OwedIsTheDifference` | nbd-vram.c:1224-1232 | what a publish or trim owes the counters is exactly how far it moved their recomputation |
| `ProtocolCounts.QuiescentCountersAreExact` | nbd-vram.c:1483-1491 | once every operation has finished, live blocks, stored bytes, verbatim blocks and trims are exact |
| `ProtocolCounts.LivePlusTrimmedNeverDecreases` | nbdvramgapcheck.sh:21-26 | live plus trimmed blocks never goes down between quiescent states |
| `Coupled.MatchedAlways` | nbd-vram.c:941-1007 | with the real allocator under the concurrent index, the heap's outstanding slots are the index's in every state of every run |
| `Coupled.ReturnIsOutstanding` | nbd-vram.c:1224-1242 | a slot given back is always outstanding: nothing is freed twice |
| `Coupled.SlotBytesCoverCodecBytes` | nbd-vram.c:968-1003 | once every operation has finished, g_slot_bytes is at least g_codec_bytes |
| `Coupled.TrimmedStoreIsUncommitted` | nbd-vram.c:997-1003 | once all operations are over and every block is trimmed, no extent is committed and both heap counters read zero exactly if nothing is stranded |
| `Coupled.RefusedOnlyWhenFull` | nbd-vram.c:1190-1203 | with any codec and any number of agents a writer is refused exactly when no extent is uncommitted and every extent that could hold what the library makes of its page is covered by outstanding slots up to less than one slot |
| `Coupled.NeverRefusedUncompressed` | nbd-vram.c:941-976 | without a codec a page is refused exactly when live blocks, reservations, displaced and stranded slots together fill the heap |
| `Coupled.RoomForEveryBlock` | nbd-vram.c:2266-2272 | at every size the daemon accepts without a codec, that is never before they number the device's blocks |
| `Witnesses.RefusedWithRoom` | nbd-vram.c:1222-1225 | on every uncompressed device as large as its heap a state is reachable where live blocks plus reservations number fewer than the blocks and the next page is refused, because a displaced slot is not freed yet |
| `ProtocolLiveness.OwnStepsBounded` | nbd-vram.c:1330-1368 | whatever other agents do, an operation ends after a bounded number of its own steps; for a read, five lock-free attempts and one locked read at most |
| `ProtocolLiveness.OperationIsShort` | nbd-vram.c:1330-1368 | no operation takes more than 53277 steps of its own |
| `ProtocolLiveness.MovesOrWaitsForAMover` | nbd-vram.c:1278-1301 | a running agent can move, or waits for a stripe whose holder, at a block a multiple of 4096 away, can |
| `ProtocolLiveness.NoDeadlock` | nbd-vram.c:1442-1496 | in every reachable state with work left some unfinished operation can take a step |
| `ProtocolLiveness.EveryRunEnds` | nbd-vram.c:1330-1368 | once no new work arrives, every interleaving ends within a number of steps fixed in advance, with every agent idle |
| `Locks.StoreIsDisciplined` | nbd-vram.c:941-1007 | any sequence of block operations holds at most one stripe lock and takes the allocator's mutex only innermost; entries are used only under their stripe, the allocator's tables only under its mutex |
| `Locks.NoDeadlock` | nbd-vram.c:1442-1496 | with both kinds of lock, any number of workers and any schedule, someone can always go on |
| `Locks.StepsAreWork` | nbd-vram.c:1442-1496 | every step is progress, so every schedule finishes |
| `Locks.StripeHeldOnce` | nbd-vram.c:786-795 | no two workers hold one stripe |
| `Locks.AccessIsExclusive` | nbd-vram.c:786-795 | no two workers are at one stripe's entries, or at the allocator's tables, at the same time |
| `Locks.ScriptIsComplete` | nbd-vram.c:1205-1584 | every block operation makes all its uses of its stripe's entries and all its calls of the allocator |
| `Drain.ServedUntilItLeaves` | nbd-vram.c:698-729 | a client registered when termination is first requested keeps the daemon running until it leaves, under any signals and any schedule of the non-atomic scans |
| `Drain.FreedLast` | nbd-vram.c:2338-2352 | VRAM is freed only after every worker has left and no client is registered |
| `Drain.ExitedForGood` | nbd-vram.c:1942-1973 | a worker that has left never returns |
| `DrainEnds.DrainBudget` | nbd-vram.c:1942-1973 | from the moment termination is requested, steps taken plus steps left never exceed a fixed bound, plus a fixed number for every signal and every scan that meets a connected client |
| `DrainEnds.DrainEnds` | nbd-vram.c:1942-1973 | with nothing to hold it up the shutdown is over within that bound: a run that has used it up, or cannot go on, has stopped the daemon, seen every worker out and freed the memory |
| `DrainEnds.AlwaysAWayOn` | nbd-vram.c:1942-1973 | until the memory is freed there is always a step that nothing holds up |
| `DrainEnds.LeftBound` | nbd-vram.c:1942-1973 | with n workers and m signals so far the bound is n(n + 7) + m(n + 3) + n + 2 |
| `DrainEnds.StoppedForGood` | nbd-vram.c:1942-1949 | a stopped daemon stays stopped, and from then on no client holds the shutdown up |
| `DrainEnds.IdleSignalStops` | nbd-vram.c:704-729 | a signal with nobody connected has stopped the daemon by the time its handler returns |
| `DrainEnds.LastOneOutStops` | nbd-vram.c:1945-1949 | the worker that finds the last client gone stops the daemon for everyone |
| `DrainEnds.ClosedForGood` | nbd-vram.c:1945-1964 | once termination is requested a worker that has served, or was not yet waiting for a client, registers no other |
| `Drain.UnregisteredCanBeCut` | nbd-vram.c:1964-1970 | the guarantee needs registration: a client accepted but not yet registered can find its server stopped |

## Left out

- CUDA loading, streams, synchronisation failures and pinned memory: the device is an array of bytes, and which of its copies fail is a parameter.
- zstd and lz4 themselves, their contexts and the self-test: only the round-trip assumption is kept.
- Sockets, the NBD handshake and request parsing: requests start decoded, a payload may end early, replies are always delivered.
- Environment parsing, process setup and listening: only the size arithmetic is modelled (`Capacity.Configure`), on unbounded numbers.
- Time: sleeps and poll timeouts are steps like any other, so the drain is bounded in steps, not in seconds.
- Stats text, ratios, fullness buckets and rate limiting of messages: the integer counters are modelled, not their reports.
- The counters of the index in the one-worker store: they are modelled once, in the concurrent layer.
- Weak memory and `volatile` versus atomic accesses: memory is sequentially consistent.
- The retry rounds in the one-worker store verify as written, but with one worker no entry moves between snapshot and re-check; races are the concurrent layer's subject.
- Concurrent runs of whole batches: a batch is one worker's; in the concurrent layer each block operation is an agent of its own, which allows every order a batch could take.
- Retries after a failed VRAM allocation at startup: the sizes are taken from the attempt that succeeded.
- `handle_client`'s outer loop: `ServeBatch` is one turn of it, and the request that closes a batch goes to `HandleOne`.
- ProtocolTheorems.LockFreeReadIsAtomic: and `EveryReadIsAtomic` need fewer than 2^21 publishes to the block during the read, because the generation field is 21 bits wide.
- Drain.ServedUntilItLeaves: covers clients whose slot is set, not clients accepted and about to be registered.
- Compaction and fullness-ordered lists: not part of the program.
- Installers, power scripts, units, benchmarks and test scripts.
