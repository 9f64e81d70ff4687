# A model of MTDS's cache core

MTDS moves the key/value caches of language models between GPU memory, a host buffer, disk and remote
stores.  This project models the parts whose correctness spans many operations and proves what they keep.

- **Host memory** (`Alignment`, `Extents`, `MemoryManagement`): the first-fit allocator with its explicit
  free list, splitting, two-sided merging, batched forms and reference-counted objects, over a real byte
  array.  The free list and the live extents always partition the buffer; the list is a function of which
  objects are live, and with a power-of-two alignment everything starts and ends at a multiple of it.
- **Ownership** (`References`, `LocalCpuBackend`, `StorageManager`): the hot cache with its eviction pass,
  writes to disk in flight, and callers' handles.  An object's count is exactly the number of its holders, and
  over any run what an allocation evicts is the least recently used of what nothing else holds.
- **Keys and the engine** (`TokenDatabase`, `SegmentDatabase`, `CacheEngine`, `EngineRuns`): prefix-hash keys,
  splitting at separators, and storing, looking up and retrieving end to end.  What a retrieval writes is the KV
  of exactly the prefix it was asked for; what is stored with room for it is all retrieved, from the host cache or
  through files; and what a request's save schedule counts as saved is found.
- **The layer pipeline** (`GpuConnector`, `PagedMemory`): the double-buffered transfer refines the plain copy,
  layer by layer.
- **The legacy local backend** (`LocalBackend`): evictor, pool and two-step puts.
- **Scheduling** (`SaveSchedule`, `BatchRebuild`): the tokens and save ranges of every request over all steps, the
  batch rebuilt after a retrieval, and the context chunks of multi-head latent attention.
- **Codecs** (`CacheGen`, `Protocol`): byte gathering, quantisation, printed keys and packets.

Objects that the source updates in place are classes here, each method proved against a specification of its
new state; loops of the source are loops with invariants.  Every public call is one atomic step.  The main
state invariants are `TensorMemoryAllocator.Valid`, `LocalCPUBackend.Valid`, `StorageManager.Valid`,
`MTDSEngine.Valid`, `LMCLocalBackend.Kept` and `MTDSConnectorV1Impl.Valid`; every operation of the class
keeps them, except where the next section says otherwise, so they hold in every state reachable without those.

## Where the code does not keep what it seems to promise

- Rounding up to the alignment works for every size exactly when the alignment is a power of two
  (`Alignment.AlignedExactlyForPowersOfTwo`).
- An object of a batch has a raw view of whole aligned units, so its tensor view works exactly when the raw
  size is already aligned (`MemoryManagement.TilesAt`).
- Freeing a zero-size object leaves an empty block in the free list unless a free block ends exactly at its
  address (`Extents.EmptyGiveBack`).  Where such an object is allocated and freed at once, none does
  (`MemoryManagement.TensorMemoryAllocator.AllocateAndFreeEmpty`).
- The batched free seeds its running address from the first object of the list even if that object is
  invalid; memory is then lost exactly when the seed does not fit
  (`MemoryManagement.TensorMemoryAllocator.BatchedFree`, and a run in `UnfitBatch`).  A batch without a valid
  object raises.
- Eviction decrements an object twice: the first decrement takes its count to 0 and frees it, the second takes
  the detached object to -1 (`LocalCpuBackend.LocalCPUBackend.EvictOne`, `PopAll`).  An object whose last
  reference goes while it is pinned is never freed: no operation takes it off `leaked`, and what is there stays
  live (`LocalCpuBackend.LocalCPUBackend.LeakedIsLive`).
- `StorageManager.remove`, and with it clearing given tokens, raises when there is a disk, after the host
  cache has dropped the key.
- When partial chunks are saved and chunks have more than 16 tokens, keys do not separate prefixes, whatever the
  digest: token ids from 0x30303030 on can spell the characters of a digest.  In every other configuration they
  do, collisions aside, and in this one they do for smaller ids (`TokenDatabase.SafeConfigurations`,
  `TokenDatabase.LargeTokensConfuse`, `TokenDatabase.KeysDeterminePrefixes`).  So a lookup can report a sequence
  that was never stored (`EngineRuns.FalseHit`).
- Splitting at a separator restores every input exactly if the separator is not empty and does not overlap itself:
  an overlapping one loses tokens of some input, and with an empty one tokens are yielded twice
  (`SegmentDatabase.RestoresExactly`, `SegmentDatabase.EmptySeparatorRepeats`).  The ranges reported are then wrong
  as well (`SegmentDatabase.SpansRestore`).
- In the pipeline, positions in gaps between chunks carry whatever the buffer held before, and are written to
  their slots as well: rows the two buffers came with, and later what the consumer left of the layer two before, keys
  rotated once more (`GpuConnector.VLLMBufferLayerwiseGPUConnector.GapsAfterRun`, `GapsTravel`).
  `GpuConnector.Ready` therefore speaks of covered positions only.
- In the legacy backend a public `remove` does not tell the evictor.  A later put raises `StopIteration` exactly
  when nothing is stored but the count is full.  In the worker that exception, like the failed assertion on rows
  longer than a chunk, leaves `update_lock` held and ends the worker, so no later get and no later put returns
  (`LocalBackend.RemovalStalls`).  The blocking put raises `KeyError` exactly when the key it overwrites is the one
  to evict.
- Rebuilding a batch takes the right positions of a row exactly when what vLLM had computed of it is whole blocks.
  A step before the forward pass fails exactly when a decoding row wants more than one token, or the batch is rebuilt
  and all but the last token of some decoding row are not whole blocks (`BatchRebuild.RetrieveAndRebuild`, and runs in
  `MisalignedRow` and `DecodingRowFails`).  A recovered block table lacks the blocks vLLM had computed
  (`BatchRebuild.RecoveredTable`).
- When all rows are chunks of longer prefills, rows shorter than a cache chunk are never looked up, yet do not
  stop the forward pass from being skipped (`BatchRebuild.SkipIsRight`, `BatchRebuild.ShortChunkIsSkipped`).
- Quantisation keeps its promises exactly from 4 to 129 bins: with fewer it divides by zero or by a negative
  bound, with more the largest code no longer fits a signed byte (`CacheGen.QuantisesWellExactly`).
- A packet loses white space at the start of a key's first field and at the end of its last, and cannot be read
  back if a field holds the separator (`Protocol.MessageRoundTrip`).

## Model

| member | source | states |
|---|---|---|
| `Alignment.AlignedExactlyForPowersOfTwo` | MTDS/v1/memory_management.py:555-557 | Rounding up with the bit mask gives a multiple of the alignment for every size, if and only if the alignment is a power of two. |
| `Alignment.UnalignedSize` | MTDS/v1/memory_management.py:555-557 | For any alignment that is not a power of two, exhibits a positive size whose rounded form is no multiple of it. |
| `Alignment.AlignedSize` | MTDS/v1/memory_management.py:555-557 | The reserved size is never smaller than the size asked for. |
| `Extents.CanonicalUnique` | MTDS/v1/memory_management.py:559-595 | Two sorted lists of positive, pairwise non-touching extents that cover the same addresses are the same list. |
| `Extents.GiveBack` | MTDS/v1/memory_management.py:559-595 | Merging a returned extent with the neighbours it touches keeps the list sorted, positive and non-touching, and adds exactly its addresses and its size. |
| `Extents.AddAny` | MTDS/v1/memory_management.py:559-595 | The same merge adds exactly the addresses and size of any non-empty extent, even one the list should not get, and keeps the list sorted. |
| `Extents.EmptyGiveBack` | MTDS/v1/memory_management.py:734-758 | Giving back a zero-size extent keeps the list well formed if and only if a free extent ends at its address. |
| `Extents.EmptyAtFrontBreaks` | MTDS/v1/memory_management.py:617-638 | A zero-size extent taken from the front of the list, where first fit finds it, always breaks the list when it is given back. |
| `Extents.FirstFitIsLowest` | MTDS/v1/memory_management.py:617-638 | In a fully merged list the first block that is large enough starts the lowest free run of that length. |
| `Extents.NoFitNoRun` | MTDS/v1/memory_management.py:617-638 | If no block of a fully merged list is large enough, no run of that length is free anywhere. |
| `Extents.Carve` | MTDS/v1/memory_management.py:628-638 | Splitting a block removes exactly the addresses handed out and keeps the list well formed. |
| `Extents.SeedFitsExactly` | MTDS/v1/memory_management.py:760-806 | The running-start pass of the batched free covers exactly the batch if and only if its seed, the address of the first object of the list, fits. |
| `Extents.BadSeedLosesAddress` | MTDS/v1/memory_management.py:768-795 | With an unfit seed some address of the batch is in none of the merged runs. |
| `Extents.GoodRuns` | MTDS/v1/memory_management.py:768-795 | With a fitting seed the merged runs are pairwise disjoint and cover exactly the batch. |
| `Extents.RunsTotal` | MTDS/v1/memory_management.py:768-816 | The merged runs have the total size of the batch, whatever the seed. |
| `MemoryManagement.FreeListDetermined` | MTDS/v1/memory_management.py:559-816 | The free list is a function of the set of live objects: any two histories that leave the same objects live leave the same list. |
| `MemoryManagement.TensorMemoryAllocator.StateDetermined` | MTDS/v1/memory_management.py:559-816 | Between two states with the same live objects, list, active count and allocated total are the same; allocating and freeing again, or freeing in another order or in a batch, makes no difference. |
| `MemoryManagement.TensorMemoryAllocator.Coalesce` | MTDS/v1/memory_management.py:559-595 | The four branches edit the list into the canonical merge at the block's place, and report whether anything merged. |
| `MemoryManagement.TensorMemoryAllocator.BisectRight` | MTDS/v1/memory_management.py:741-745 | Finds the place of an address in the sorted list. |
| `MemoryManagement.TensorMemoryAllocator.Insert` | MTDS/v1/memory_management.py:738-750 | A block is merged or inserted; either way the list stays sorted and covers exactly its addresses more, and it stays fully merged if the block was in use. |
| `MemoryManagement.TensorMemoryAllocator.Free` | MTDS/v1/memory_management.py:734-758 | The object stops being live, its extent returns to the list exactly once, a second call changes nothing; the list and live extents partition the buffer. |
| `MemoryManagement.TensorMemoryAllocator.FirstFit` | MTDS/v1/memory_management.py:617-626 | Finds the first block that is large enough, or that none is. |
| `MemoryManagement.TensorMemoryAllocator.TakeFront` | MTDS/v1/memory_management.py:628-638 | The front of the block is handed out, the rest stays in its place. |
| `MemoryManagement.TensorMemoryAllocator.AllocateSized` | MTDS/v1/memory_management.py:617-654 | Succeeds exactly when a free run of the size exists, at the lowest address; nothing changes on failure. |
| `MemoryManagement.TensorMemoryAllocator.Allocate` | MTDS/v1/memory_management.py:597-654 | A fresh, unpinned object with one reference at the lowest address where the reserved size fits, or nothing if it fits nowhere; the reserved size is at least the raw size and less than one alignment more, and for a power-of-two alignment it and the address are multiples of it. |
| `MemoryManagement.TensorMemoryAllocator.BatchedAllocate` | MTDS/v1/memory_management.py:656-732 | The objects tile one run of the lowest address where the whole batch fits, or nothing changes because no such run exists; each unit is at least the raw size and less than one alignment more, and for a power-of-two alignment every unit starts at a multiple of it. |
| `MemoryManagement.TensorMemoryAllocator.RoundsExactly` | MTDS/v1/memory_management.py:555-557 | What an allocator reserves is a multiple of its alignment for every size if and only if the alignment is a power of two. |
| `MemoryManagement.TensorMemoryAllocator.FreeStartsOnGrid` | MTDS/v1/memory_management.py:559-654 | With a power-of-two alignment, in every state that operations reach every free extent starts at a multiple of it; that every live object starts and ends at one is part of the invariant. |
| `MemoryManagement.TilesAt` | MTDS/v1/memory_management.py:713-729 | The k-th object of a batch is at the k-th unit, owns one unit, and can hold its tensor exactly when the raw size is already aligned. |
| `MemoryManagement.TensorMemoryAllocator.Collect` | MTDS/v1/memory_management.py:766-795 | The pass over the batch retires each object once however often it is listed, and its runs are those of the seeded merge. |
| `MemoryManagement.TensorMemoryAllocator.InsertRuns` | MTDS/v1/memory_management.py:797-807 | Putting the runs back adds exactly their addresses and sizes, and restores the partition of the buffer if they stand for what was freed. |
| `MemoryManagement.TensorMemoryAllocator.BatchedFree` | MTDS/v1/memory_management.py:760-816 | Afterwards no object of the batch is valid, exactly the batch is no longer live, and counters and total sizes are right, for any batch; the list and the live objects partition the buffer if and only if the seed fits; fails, changing nothing, when no object of the batch is valid. |
| `MemoryManagement.UnfitSeedLeaks` | MTDS/v1/memory_management.py:760-807 | Any list that covers exactly the old one and the merged runs is a partition of what is left only if the seed fits: otherwise some address is neither free nor owned. |
| `MemoryManagement.TensorMemoryAllocator.UnfitBatch` | MTDS/v1/memory_management.py:768-807 | A run that loses memory: three objects end to end, the middle one freed, then all three freed as a batch that lists the dead one first. |
| `MemoryManagement.TensorMemoryAllocator.FreeEach` | MTDS/v1/memory_management.py:734-816 | Freeing one by one, repeats skipped, leaves the same objects live as the batched free, hence the same list and counters. |
| `MemoryManagement.TensorMemoryAllocator.AllocateAndFree` | MTDS/v1/memory_management.py:597-758 | Allocating an object and freeing it again restores list and counters exactly. |
| `MemoryManagement.TensorMemoryAllocator.AllocateAndFreeEmpty` | MTDS/v1/memory_management.py:617-750 | A zero-size allocation freed at once breaks the list in every state in which anything is free. |
| `MemoryManagement.FirstValidFits` | MTDS/v1/memory_management.py:768-795 | If the first object of the batch is valid the seed fits. |
| `MemoryManagement.TensorMemoryAllocator.MemCheck` | MTDS/v1/memory_management.py:818-847 | The check passes exactly when sizes add up and no neighbours touch; it always passes on a valid allocator. |
| `MemoryManagement.TensorMemoryAllocator.Write` | MTDS/v1/memory_management.py:646-653 | Writing into a live object changes no other live object's bytes. |
| `MemoryManagement.TensorMemoryObj.RefCountUp` | MTDS/v1/memory_management.py:324-326 | One more reference. |
| `MemoryManagement.TensorMemoryObj.RefCountDown` | MTDS/v1/memory_management.py:328-336 | One reference less; memory is freed exactly on reaching zero unpinned. |
| `References.DropReach` | MTDS/v1/memory_management.py:328-336 | Dropping one reference leaves an object reachable, frees it with the last one, or, if pinned, leaks it. |
| `References.GainReach` | MTDS/v1/memory_management.py:324-326 | One more reference to what is reachable, or a first one to what was not live, keeps live objects and reachable objects the same. |
| `LocalCpuBackend.LocalCPUBackend.SubmitPutTask` | MTDS/v1/storage_backend/local_cpu_backend.py:96-122 | The key moves to the end of the order with a new reference to the object, the replaced object loses one; with the cache switched off nothing changes. |
| `LocalCpuBackend.LocalCPUBackend.GetBlocking` | MTDS/v1/storage_backend/local_cpu_backend.py:130-143 | Returns the cached object with one more reference and moves its key to the end. |
| `LocalCpuBackend.LocalCPUBackend.Remove` | MTDS/v1/storage_backend/local_cpu_backend.py:178-197 | Drops the key and the cache's reference; memory is freed exactly if that was the last one and the object is not pinned. |
| `LocalCpuBackend.LocalCPUBackend.WriteBack` | MTDS/v1/storage_backend/local_cpu_backend.py:325-385 | Caches an object loaded elsewhere under its key unless the key is cached already. |
| `LocalCpuBackend.LocalCPUBackend.Pin` | MTDS/v1/storage_backend/local_cpu_backend.py:162-168 | Sets the pin of the cached object and nothing else. |
| `LocalCpuBackend.LocalCPUBackend.Unpin` | MTDS/v1/storage_backend/local_cpu_backend.py:170-176 | Clears the pin of the cached object and nothing else. |
| `LocalCpuBackend.LocalCPUBackend.EvictOne` | MTDS/v1/storage_backend/local_cpu_backend.py:233-237 | The eviction's own decrement takes the object's count from one to zero, which frees it unless pinned. |
| `LocalCpuBackend.LocalCPUBackend.PopDetached` | MTDS/v1/storage_backend/local_cpu_backend.py:242-243 | The removal from the map decrements the detached object a second time, from zero to minus one, where the guard of the decrement frees nothing. |
| `LocalCpuBackend.LocalCPUBackend.PopAll` | MTDS/v1/storage_backend/local_cpu_backend.py:242-243 | Every evicted key leaves the map, the others keep their order, and every evicted object ends with a count of minus one. |
| `LocalCpuBackend.LocalCPUBackend.EvictTurn` | MTDS/v1/storage_backend/local_cpu_backend.py:229-241 | One turn of the pass: a key in use is skipped, another is evicted and allocation tried again. |
| `LocalCpuBackend.LocalCPUBackend.EvictUntilFits` | MTDS/v1/storage_backend/local_cpu_backend.py:227-241 | Evicts keys in least-recently-used order and stops with the first one whose release lets the allocation succeed. |
| `LocalCpuBackend.LocalCPUBackend.Allocate` | MTDS/v1/storage_backend/local_cpu_backend.py:199-247 | Keeps the invariant; evicts exactly the shortest prefix, in order, of the entries only the cache refers to after which a run that fits is free; every evicted object ends with a count of minus one. |
| `LocalCpuBackend.AllocationExact` | MTDS/v1/storage_backend/local_cpu_backend.py:199-247 | An evicting allocation returns nothing if and only if no run fits even after releasing every entry only the cache refers to. |
| `LocalCpuBackend.RoomIsTaken` | MTDS/v1/storage_backend/local_cpu_backend.py:222-225 | Where a run that fits is free to begin with, nothing is evicted and the lowest such run is taken. |
| `LocalCpuBackend.FreedByMonotone` | MTDS/v1/storage_backend/local_cpu_backend.py:229-243 | Evicting a longer prefix frees at least as much. |
| `LocalCpuBackend.LeastRecentGo` | MTDS/v1/storage_backend/local_cpu_backend.py:199-247 | Whatever prefix of the candidates is evicted, each key that goes was last used before every key that stays and that nothing else holds. |
| `LocalCpuBackend.UsedGoesLast` | MTDS/v1/storage_backend/local_cpu_backend.py:96-143 | Moving a key to the end when it is used keeps the order that of the last uses. |
| `LocalCpuBackend.LocalCPUBackend.Clear` | MTDS/v1/storage_backend/local_cpu_backend.py:394-415 | Drops exactly the entries nothing else refers to, in order, reports how many, and leaves their objects at minus one; with the cache switched off nothing changes. |
| `LocalCpuBackend.LocalCPUBackend.HandleIsLive` | MTDS/v1/storage_backend/local_cpu_backend.py:96-143 | An object held outside the cache is live, valid and counts exactly its holders. |
| `LocalCpuBackend.LocalCPUBackend.HeldIsLive` | MTDS/v1/storage_backend/local_cpu_backend.py:96-143 | A cached object is live, valid and counts exactly its holders. |
| `LocalCpuBackend.LocalCPUBackend.LeakedIsLive` | MTDS/v1/memory_management.py:328-336 | What lost its last reference while pinned stays live with nothing referring to it; every operation keeps it so. |
| `StorageManagement.LocalDiskBackend.SubmitPutTask` | MTDS/v1/storage_backend/local_disk_backend.py:165-193 | A write in flight holds a reference of its own; a refused one changes nothing. |
| `StorageManagement.LocalDiskBackend.FinishPut` | MTDS/v1/storage_backend/local_disk_backend.py:259-285 | The file holds the object's bytes and the reference of the write goes. |
| `StorageManagement.LocalDiskBackend.GetBlocking` | MTDS/v1/storage_backend/local_disk_backend.py:221-244 | Loads the file's bytes into newly allocated memory owned by the caller, changing no other live bytes. |
| `StorageManagement.StorageManager.ReferencesAreExact` | MTDS/v1/memory_management.py:324-336 | Whatever a caller, the cache or a write in flight refers to is live, valid and counts exactly those references; whatever is live and not pinned is referred to. |
| `StorageManagement.StorageManager.SubmitEverywhere` | MTDS/v1/storage_backend/storage_manager.py:177-181 | Each backend takes its own reference; what the backends have afterwards is what they had, or the object's bytes under the key. |
| `StorageManagement.StorageManager.Put` | MTDS/v1/storage_backend/storage_manager.py:155-183 | Uses up the caller's reference in every case; stores nothing if some backend is still writing the key; otherwise the key is the last used of the hot cache and the object is in flight to the disk if the disk accepts it. |
| `StorageManagement.StorageManager.Release` | MTDS/v1/memory_management.py:328-336 | The caller's reference goes, no backend loses anything. |
| `StorageManagement.StorageManager.Get` | MTDS/v1/storage_backend/storage_manager.py:200-232 | What is returned has the bytes some backend had under the key before; the caller holds one reference more; nothing new appears in any backend; a key found becomes the last used, the others stay in the order of their last use, and what a load from disk evicts is the least recently used of what nothing else held. |
| `StorageManagement.StorageManager.GetFromDisk` | MTDS/v1/storage_backend/storage_manager.py:219-230 | A key found on disk is loaded, cached and handed out with one reference each, unless what the disk has fits nowhere. |
| `StorageManagement.StorageManager.Contains` | MTDS/v1/storage_backend/storage_manager.py:334-362 | True exactly when the cache or the disk has the key. |
| `StorageManagement.StorageManager.Allocate` | MTDS/v1/storage_backend/storage_manager.py:107-122 | The caller holds the only reference; exactly the shortest sufficient prefix of evictable entries leaves the cache, none if a run that fits is free, and over any run each was last put or got before everything kept that nothing else holds; nothing is returned only when no free run fits. |
| `StorageManagement.StorageManager.Fill` | MTDS/v1/storage_backend/storage_manager.py:107-122 | Filling an object only its caller refers to changes nothing any backend has. |
| `StorageManagement.StorageManager.ExclusiveIsNotStored` | MTDS/v1/storage_backend/storage_manager.py:155-183 | An object with a single reference held by a caller is in no cache and in no write. |
| `StorageManagement.StorageManager.FinishPut` | MTDS/v1/storage_backend/local_disk_backend.py:259-285 | A write completing between operations keeps the ownership balance and adds nothing new. |
| `StorageManagement.StorageManager.Remove` | MTDS/v1/storage_backend/storage_manager.py:364-391 | Without a disk reports whether the key was cached; with one the source raises after removing, because the disk returns nothing to add. |
| `StorageManagement.StorageManager.Clear` | MTDS/v1/storage_backend/storage_manager.py:413-441 | Exactly the entries only the cache refers to are gone and counted, none with the hot cache switched off; callers' references, files and writes stay. |
| `TokenDatabase.TokensBytesInjective` | MTDS/v1/token_database.py:91-101 | The bytes hashed for a chunk determine its tokens. |
| `TokenDatabase.FirstChunkIsApart` | MTDS/v1/token_database.py:91-131 | Bytes hashed for a first chunk of token ids below 0x30303030 never equal those of a later chunk. |
| `TokenDatabase.KeyCollision` | MTDS/v1/token_database.py:91-131 | Two different prefixes of small tokens, or whose last chunks cannot be spelled, with equal digests yield two different hashed inputs that collide. |
| `TokenDatabase.KeysDeterminePrefixes` | MTDS/v1/token_database.py:91-131 | Where the digest has no collision among the inputs hashed, two prefixes of small tokens, or whose last chunks cannot be spelled, have equal keys if and only if they are equal. |
| `TokenDatabase.KeysOfWorkers` | MTDS/v1/token_database.py:78-86 | Collisions aside, two databases with one digest and chunk size give equal keys exactly to the same prefix under the same format, model, world size and worker; each key carries its own database's. |
| `TokenDatabase.LargeTokensConfuse` | MTDS/v1/token_database.py:88-131 | For every digest and every prefix whose last chunk can be spelled, constructs a different single-chunk prefix with the same key for which nothing further is hashed. |
| `TokenDatabase.ChunkedTokenDatabase.KeyedExactly` | MTDS/v1/token_database.py:103-131 | A prefix gets a key exactly when one of its own chunks ends where it does: every prefix if partial chunks are saved, otherwise those of whole chunks. |
| `TokenDatabase.ChunkedTokenDatabase.SeparatesExactly` | MTDS/v1/token_database.py:91-131 | Over all prefixes that get a key, collisions aside, keys separate prefixes if and only if no keyed prefix has a last chunk that can be spelled. |
| `TokenDatabase.ChunkedTokenDatabase.SeparatesByConfiguration` | MTDS/v1/token_database.py:103-131 | For a digest that tells two chunks apart somewhere, keys separate prefixes if and only if only whole chunks are saved or chunks have at most 16 tokens. |
| `TokenDatabase.SafeConfigurations` | MTDS/v1/token_database.py:103-131 | For all digests at once: keys separate prefixes if and only if only whole chunks are saved or chunks have at most 16 tokens. |
| `TokenDatabase.ChunkedTokenDatabase.ProcessTokens` | MTDS/v1/token_database.py:160-183 | Reports an error exactly when the masked prefix is not whole chunks; otherwise the entries are the chunks after it, each keyed by the whole prefix it ends. |
| `TokenDatabase.ChunkedTokenDatabase.NextHash` | MTDS/v1/token_database.py:124-131 | Hashing a chunk after the running digest gives the digest of the prefix it ends. |
| `SegmentDatabase.FastSplit` | MTDS/v1/token_database.py:223-244 | The segments are what lies between consecutive matches of the separator; an empty separator first yields the whole input; an input shorter than the separator is yielded and then raises. |
| `SegmentDatabase.ProcessTokens` | MTDS/v1/token_database.py:246-298 | Each range ends where the segments up to it, joined with separators, end; reported are those that start at or after the masked prefix; raises exactly when the mask covers the tokens or they are shorter than the separator. |
| `SegmentDatabase.SpansExact` | MTDS/v1/token_database.py:275-298 | Where matches do not overlap, every reported range slices out exactly its segment, which holds no separator. |
| `SegmentDatabase.SpansRestore` | MTDS/v1/token_database.py:246-298 | Without a mask, joining the reported segments gives back the tokens, and every range slices out its segment, if and only if the separator is not empty and no two consecutive matches overlap. |
| `SegmentDatabase.SegmentsLackSep` | MTDS/v1/token_database.py:223-244 | No segment contains the separator. |
| `SegmentDatabase.JoinRestores` | MTDS/v1/token_database.py:223-244 | Joining the segments with the separator gives back the input if and only if no two consecutive matches overlap. |
| `SegmentDatabase.SelfOverlapFreeSpaced` | MTDS/v1/token_database.py:229-241 | A separator that does not overlap itself has no overlapping matches in any input. |
| `SegmentDatabase.OverlapLoses` | MTDS/v1/token_database.py:229-241 | For every separator that overlaps itself, an input that joining does not give back. |
| `SegmentDatabase.EmptySeparatorRepeats` | MTDS/v1/token_database.py:226-244 | With an empty separator what is yielded joins to more than the tokens, whatever they are. |
| `SegmentDatabase.RestoresExactly` | MTDS/v1/token_database.py:223-244 | Joining what is yielded gives back every input if and only if the separator is neither empty nor overlaps itself. |
| `CacheEngine.EntriesAreConsecutive` | MTDS/v1/token_database.py:169-183 | The entries of a sequence start where the masked prefix ends and follow one another without gap, each keyed by its whole prefix. |
| `CacheEngine.EntriesEnd` | MTDS/v1/token_database.py:160-183 | The entries from a boundary on cover exactly what chunks cover: everything, or the whole chunks. |
| `CacheEngine.MTDSEngine.FromGpu` | MTDS/v1/gpu_connector.py:396-456 | Gathers the rows of the positions of a chunk, in order. |
| `CacheEngine.MTDSEngine.StoreEntry` | MTDS/v1/cache_engine.py:269-282 | A chunk is stored with exactly the KV of its positions, is put under its key unless it is still being written: as the last used of the hot cache, and in flight to the disk if that accepts the key; the reference taken for it is given up; fails only when no free run holds it, and evicts the least recently used; where a run is free to begin with, nothing cached goes. |
| `CacheEngine.MTDSEngine.Store` | MTDS/v1/cache_engine.py:231-292 | Whatever any backend then has under any key is the KV of a prefix stored under that key; the chunks put are those, in order, that no backend had when their turn came, each handed to cache and disk, and it stops early only where no free run holds the next chunk; with the host cache alone and enough memory free in a row, every chunk is cached afterwards and nothing cached before is lost; no reference is left behind, paged memory is unchanged; raises exactly when the masked prefix is not whole chunks. |
| `CacheEngine.MTDSEngine.ContentsAreKv` | MTDS/v1/cache_engine.py:327-352 | What any backend has under an entry's key is the KV of the entry's own positions. |
| `CacheEngine.MTDSEngine.KeysAreNotConfused` | MTDS/v1/token_database.py:91-131 | A digest without collisions on what was hashed rules out confusion of keyed prefixes if only whole chunks are saved, chunks have at most 16 tokens, or all token ids concerned are small. |
| `CacheEngine.MTDSEngine.ToGpu` | MTDS/v1/gpu_connector.py:327-393 | Writes the rows of an object to the slots of its positions, skipping negative slots. |
| `CacheEngine.MTDSEngine.RetrieveNext` | MTDS/v1/cache_engine.py:327-358 | A chunk is written exactly when some backend yields it, with its own KV, and is then the last used; what a load evicts is the least recently used; without a disk, exactly when it is cached. |
| `CacheEngine.MTDSEngine.Retrieve` | MTDS/v1/cache_engine.py:294-370 | After any history of stores, evictions and writes, the mask marks one run of positions from the masked prefix on, their slots are written with exactly their KV and nothing else changes; it ends only at a chunk that is not cached and that the disk lacks or has no room to load; with the host cache alone, at the first chunk not cached; no reference is left behind. |
| `CacheEngine.ScatteredAt` | csrc/mem_kernels.cu:34-60 | With unshared slots each marked position's slot ends with the KV of the prefix ending there, and every other slot is as before. |
| `PagedMemory.ScatterTwice` | MTDS/v1/cache_engine.py:348-353 | Writing chunk after chunk is writing the whole range. |
| `CacheEngine.MTDSEngine.Lookup` | MTDS/v1/cache_engine.py:386-432 | Returns the end of the longest run of leading chunks that are cached. |
| `CacheEngine.MTDSEngine.StoreThenLookup` | MTDS/v1/cache_engine.py:231-432 | With the host cache alone and enough memory free in a row, a lookup after a store finds everything that chunks cover. |
| `CacheEngine.MTDSEngine.StoreThenRetrieve` | MTDS/v1/cache_engine.py:231-370 | The round trip: what is retrieved after such a store, into any other slots, is the KV of exactly the tokens that chunks cover. |
| `CacheEngine.SuffixReaches` | MTDS/v1/cache_engine.py:406-432 | The cached run seen from any chunk boundary within it ends at the same position. |
| `CacheEngine.RetrievalEndsWhereLookupDoes` | MTDS/v1/cache_engine.py:327-432 | With the same cached keys, a retrieval that starts within what a lookup found ends exactly where the lookup did. |
| `CacheEngine.MTDSEngine.Clear` | MTDS/v1/cache_engine.py:435-452 | Without tokens exactly the entries nothing else refers to are gone and counted, none with the hot cache switched off; for given tokens the cache loses exactly the keys of their chunks, as many as are counted; with a disk the latter raises at the first chunk. |
| `CacheEngine.MTDSEngine.FinishWrite` | MTDS/v1/storage_backend/local_disk_backend.py:259-285 | A disk write completing between engine operations keeps the agreement of contents and keys. |
| `GpuConnector.VLLMBufferLayerwiseGPUConnector.Load` | MTDS/v1/gpu_connector.py:636-654 | Each chunk's rows are copied to their places; old positions are noted on the first layer only; positions in gaps keep what the buffers held. |
| `GpuConnector.VLLMBufferLayerwiseGPUConnector.Turn` | MTDS/v1/gpu_connector.py:610-629 | The buffer mapped for a layer holds that layer, its keys rotated to the new positions, values as loaded. |
| `GpuConnector.VLLMBufferLayerwiseGPUConnector.PageOut` | MTDS/v1/gpu_connector.py:597-606 | The layer shown two passes ago goes to its own paged layer and leaves the mapping. |
| `GpuConnector.VLLMBufferLayerwiseGPUConnector.Suspend` | MTDS/v1/gpu_connector.py:633-657 | The consumer changes the mapped layer's buffer and no other. |
| `GpuConnector.VLLMBufferLayerwiseGPUConnector.BatchedToGpu` | MTDS/v1/gpu_connector.py:535-668 | For any number of layers: what is shown of each layer is its chunks in place and rotated, paged memory ends with what the consumer made of that, the mapping ends empty, and there are two suspensions more than layers; in gaps each layer is shown with what its buffer held before, keys rotated from position 0. |
| `GpuConnector.RotatedIsReady` | MTDS/v1/gpu_connector.py:620-627 | Rotating the whole buffer rotates every chunk's rows from their own old positions. |
| `GpuConnector.ReadyIsCopy` | MTDS/v1/gpu_connector.py:535-668 | Without gaps between chunks what is shown of a layer is exactly the plain copy of its chunks, whatever the buffers held before. |
| `PagedMemory.ScatterAt` | csrc/mem_kernels.cu:136-164 | With unshared slots each row reaches its slot and other slots keep theirs. |
| `GpuConnector.VLLMBufferLayerwiseGPUConnector.SlotsAfterRun` | MTDS/v1/gpu_connector.py:596-668 | Where the consumer leaves rows alone, each covered position's slot ends with its chunk's row, the key rotated. |
| `GpuConnector.VLLMBufferLayerwiseGPUConnector.SlotHolds` | MTDS/v1/gpu_connector.py:596-668 | Every position's slot, in a chunk or in a gap, ends with what the consumer left of that position's row; slots outside the range are as before. |
| `GpuConnector.VLLMBufferLayerwiseGPUConnector.GapsAfterRun` | MTDS/v1/gpu_connector.py:592-654 | The slot of a position in a gap is overwritten in every layer: in the first two with the row a buffer came with, later with what the consumer left of the layer two before, its key rotated from position 0. |
| `GpuConnector.VLLMBufferLayerwiseGPUConnector.GapsTravel` | MTDS/v1/gpu_connector.py:592-654 | Where the consumer leaves layers alone, a gap row of layer l is the row one buffer came with, its key rotated l / 2 + 1 times. |
| `LocalBackend.LRUEvictor.UpdateOnGet` | MTDS/storage_backend/evictor/lru_evictor.py:37-50 | The key moves to the end, the others keep their order; an absent key raises. |
| `LocalBackend.LRUEvictor.UpdateOnPut` | MTDS/storage_backend/evictor/lru_evictor.py:54-90 | Picks the shortest run of oldest keys that makes room and counts the new chunk; refuses exactly what is larger than the cache; raises exactly when evicting everything would not make room. |
| `LocalBackend.LocalPool.Allocate` | MTDS/storage_backend/mem_pool/local_pool.py:48-74 | Hands out the index freed last; raises exactly when there is none or the rows do not fit a chunk. |
| `LocalBackend.LocalPool.Free` | MTDS/storage_backend/mem_pool/local_pool.py:76-83 | The index becomes free again. |
| `LocalBackend.NoneIsLost` | MTDS/storage_backend/mem_pool/local_pool.py:48-83 | Every chunk index is free, cached or in flight. |
| `LocalBackend.LMCLocalBackend.CoveredCases` | MTDS/storage_backend/evictor/lru_evictor.py:75-83 | With equal sizes at most one eviction is needed, and the count stays whole chunks within the limit. |
| `LocalBackend.PoolIsNotDry` | MTDS/storage_backend/mem_pool/local_pool.py:39-74 | With one more chunk covered by the count the pool has at least two free chunks. |
| `LocalBackend.LMCLocalBackend.Choose` | MTDS/storage_backend/local_backend.py:145-150 | The evictor names nothing or the oldest key; it raises exactly when nothing is stored but the count is full. |
| `LocalBackend.LMCLocalBackend.PutStart` | MTDS/storage_backend/local_backend.py:142-162 | Makes room, drops what the key held and takes a chunk, never finding the pool empty; the keys that stay keep their order; fails exactly for rows longer than a chunk, after evicting, or when nothing is stored but the count is full; either leaves the lock held, and with the lock held it gets nowhere; after puts and gets of at most a chunk it never fails. |
| `LocalBackend.LMCLocalBackend.PutFinish` | MTDS/storage_backend/local_backend.py:167-181 | The rows are in place before the key becomes visible, as most recently used. |
| `LocalBackend.LMCLocalBackend.PutBlocking` | MTDS/storage_backend/local_backend.py:184-210 | Raises a key error exactly when the key is cached and is itself the one to evict, which loses the key; fails for rows longer than a chunk, after evicting; otherwise stores it as the last of the order; in every case the other keys that stay keep their order. |
| `LocalBackend.LMCLocalBackend.Remove` | MTDS/storage_backend/local_backend.py:115-127 | Frees the chunk without telling the evictor; the zero-count property survives exactly if something is still stored. |
| `LocalBackend.LMCLocalBackend.Get` | MTDS/storage_backend/local_backend.py:238-262 | Returns the rows stored last under the key and moves it to the end; does not return exactly when an exception has left the lock held. |
| `LocalBackend.LMCLocalBackend.Accounted` | MTDS/storage_backend/evictor/lru_evictor.py:68-90 | In every state the bytes stored are at most the count and the count at most the limit, every chunk is in one place, and a chunk is free. |
| `LocalBackend.RemovalStalls` | MTDS/storage_backend/local_backend.py:115-162 | A run with a public removal after which a put raises in the worker, and then neither a put nor a get ever returns. |
| `LocalBackend.OverwriteRaises` | MTDS/storage_backend/local_backend.py:184-200 | A run in which overwriting a key with the blocking put raises. |
| `SaveSchedule.FromRequestTracker` | MTDS/integration/vllm/vllm_v1_adapter.py:243-343 | The saved count never decreases and stays between the tokens rounded down to a chunk and the tokens; a meta is withheld exactly when there is nothing to load and saving is off or short of the next boundary; the meta carries the tokens up to where saving may go, marked for saving exactly when it advances, and the slots of their blocks. |
| `SaveSchedule.StepKeeps` | MTDS/integration/vllm/vllm_v1_adapter.py:268-293 | The arithmetic of one step for both settings of discarding partial chunks. |
| `SaveSchedule.StartsAligned` | MTDS/integration/vllm/vllm_v1_adapter.py:730-742 | Every range starts on a chunk boundary. |
| `SaveSchedule.NoGap` | MTDS/integration/vllm/vllm_v1_adapter.py:688-758 | Every position saved is in one of the ranges issued. |
| `SaveSchedule.ChainMore` | MTDS/integration/vllm/vllm_v1_adapter.py:730-758 | A further range starts at the last boundary not past what is saved and ends beyond it. |
| `SaveSchedule.SlotMapping` | MTDS/integration/vllm/vllm_v1_adapter.py:300-322 | The slots are those of the blocks in order, cut to the number of tokens or to what the blocks hold. |
| `SaveSchedule.SlotAt` | MTDS/integration/vllm/vllm_v1_adapter.py:316-322 | Position i is in block i / blockSize at offset i % blockSize. |
| `SaveSchedule.SlotsDistinct` | MTDS/integration/vllm/vllm_v1_adapter.py:316-322 | Different positions have different slots when no block is given twice. |
| `SaveSchedule.WaitForSave` | MTDS/integration/vllm/vllm_v1_adapter.py:688-758 | Issues, meta by meta, exactly the announced ranges; what precedes a range is masked out and is whole chunks, so the engine never rejects it. |
| `SaveSchedule.RequestTracker.Update` | MTDS/integration/vllm/vllm_v1_adapter.py:211-226 | New tokens and blocks are appended. |
| `SaveSchedule.MTDSConnectorV1Impl.AddNew` | MTDS/integration/vllm/vllm_v1_adapter.py:876-897 | A new request gets a fresh tracker with the first computed and scheduled tokens of its prompt and its blocks; a load pending for it always yields a meta, which carries it exactly if the scheduler has cleared it, and is pending no longer. |
| `SaveSchedule.MTDSConnectorV1Impl.AddCached` | MTDS/integration/vllm/vllm_v1_adapter.py:899-912 | A running request's tracker takes in the new tokens and blocks before its meta is made for all of them; nothing saved is forgotten. |
| `SaveSchedule.MTDSConnectorV1Impl.BuildConnectorMeta` | MTDS/integration/vllm/vllm_v1_adapter.py:856-914 | After every step each tracker is on track and has exactly the tokens and blocks the step brings, no request has fewer tokens saved, and each has announced exactly the ranges of the metas made, beyond what it had; each meta is made for what is known of its request, and pending loads of new requests, and no others, are passed on. |
| `SaveSchedule.NewRequestTokens` | MTDS/integration/vllm/vllm_v1_adapter.py:876-897 | A new request is known by the first computed and scheduled tokens of its prompt and by its blocks, followed in order by what the step continues it with. |
| `SaveSchedule.RunningRequestTokens` | MTDS/integration/vllm/vllm_v1_adapter.py:872-912 | Any other request is still known exactly if it was and has not finished, by its earlier tokens and blocks followed in order by what the step brings for it. |
| `SaveSchedule.MTDSConnectorV1Impl.Run` | MTDS/integration/vllm/vllm_v1_adapter.py:856-914 | Over any run of steps: unless the connector only consumes, the whole chunks of all tokens scheduled so far for a request are counted as saved, never more than those tokens, and the ranges announced lead up to that count. |
| `EngineRuns.CarriedIsStored` | MTDS/integration/vllm/vllm_v1_adapter.py:730-758 | What the worker carries for a meta over a prefix of a request's tokens is a store over one of its ranges. |
| `EngineRuns.EntriesJoin` | MTDS/v1/token_database.py:160-183 | A chunk of a longer prefix lies beyond the last boundary of a shorter one or is a chunk of that. |
| `EngineRuns.StoreSchedule` | MTDS/integration/vllm/vllm_v1_adapter.py:688-758 | With room for them, the stores of a request's schedule leave every chunk of what is saved cached, partial chunks stored again as they grow. |
| `EngineRuns.SavedIsFound` | MTDS/integration/vllm/vllm_v1_adapter.py:688-758 | After the last step a lookup finds what the tracker counts as saved: all of it if partial chunks are stored or held back, and never less than the whole chunks of the request's tokens. |
| `EngineRuns.EnoughRoom` | MTDS/v1/memory_management.py:597-640 | A row and one alignment of free memory for every token are room enough for all chunks. |
| `EngineRuns.FreshRoundTrip` | MTDS/v1/cache_engine.py:231-370 | From nothing: a new engine with a row and an alignment per token stores the KV of any tokens and writes it back to other slots, exactly as far as chunks cover, and nothing else changes. |
| `EngineRuns.StoredReachesDisk` | MTDS/v1/cache_engine.py:269-282 | After the puts of a store under a disk that accepts them, every chunk of the tokens is on disk or in flight to it. |
| `EngineRuns.FinishAll` | MTDS/v1/storage_backend/local_disk_backend.py:259-285 | Completing all writes leaves nothing in flight and a file for every key that was written or on disk before. |
| `EngineRuns.StoreOnDisk` | MTDS/v1/cache_engine.py:231-292 | With the hot cache off and room for the tokens: a store followed by its writes leaves every chunk of the tokens in a file. |
| `EngineRuns.DiskRoundTrip` | MTDS/v1/cache_engine.py:231-432 | With the hot cache off and room for the tokens: store, finish all writes, look up and retrieve reach everything that chunks cover, and write exactly its KV. |
| `EngineRuns.FreshDiskRoundTrip` | MTDS/v1/cache_engine.py:231-432 | The same from nothing, for any tokens and any disk that accepts their keys. |
| `EngineRuns.OnlySpelled` | MTDS/v1/token_database.py:91-131 | Of the chunks before the last of a prefix and the tokens that spell its last chunk, only the latter have the prefix's key. |
| `EngineRuns.FalseHit` | MTDS/v1/cache_engine.py:386-432 | Wherever the last chunk of a keyed prefix can be spelled, a run without any collision in which a lookup reports the whole prefix though it was never stored, and what is fetched for its last chunk is the KV of other tokens. |
| `BatchRebuild.RetrievedBeyond` | MTDS/integration/vllm/vllm_adapter.py:744-799 | The cache contributes exactly the retrieved positions beyond what was computed, and at least one token is always left. |
| `BatchRebuild.RetrieveKv` | MTDS/integration/vllm/vllm_adapter.py:691-850 | Per row the computed counts, and the decision: skip the forward pass, rebuild, or keep the batch. |
| `BatchRebuild.SkipIsRight` | MTDS/integration/vllm/vllm_adapter.py:734-833 | Skipping leaves nothing uncomputed exactly when no row is shorter than a chunk. |
| `BatchRebuild.ShortChunkIsSkipped` | MTDS/integration/vllm/vllm_adapter.py:734-833 | Run on one short prefill chunk, the loop skips the forward pass with nothing of the row computed. |
| `BatchRebuild.BlocksLineUp` | MTDS/integration/vllm/vllm_adapter.py:899-915 | The two roundings to blocks agree exactly when what vLLM had computed is whole blocks. |
| `BatchRebuild.TakesTheSuffix` | MTDS/integration/vllm/vllm_adapter.py:899-930 | For whole blocks a rebuilt row takes exactly the positions and slots left to compute. |
| `BatchRebuild.TakesTheSuffixOnlyThen` | MTDS/integration/vllm/vllm_adapter.py:899-919 | The positions taken are those left to compute if and only if what vLLM had computed is whole blocks. |
| `BatchRebuild.DecodePasses` | MTDS/integration/vllm/vllm_adapter.py:912-925 | A decoding row passes the assertion exactly when all but its last token are whole blocks. |
| `BatchRebuild.BuildPartialPrefillInput` | MTDS/integration/vllm/vllm_adapter.py:855-951 | Fails exactly when some decoding row has more than one token left; otherwise rows, lengths, contexts and totals of the rebuilt batch, and each table as given or recovered. |
| `BatchRebuild.RowsInPlace` | MTDS/integration/vllm/vllm_adapter.py:911-934 | Start locations strictly increase, end at the total, and enclose exactly each row's remaining tokens. |
| `BatchRebuild.SelectedAreLast` | MTDS/integration/vllm/vllm_adapter.py:948-951 | The indices selected for sampling are exactly those of the sampling rows' last tokens. |
| `BatchRebuild.RecoveredTable` | MTDS/integration/vllm/vllm_adapter.py:937-946 | Where vLLM's computed part is whole blocks and slots are laid out block by block, the recovered table is the row's blocks beyond that part, so the row's own blocks if and only if vLLM had computed nothing. |
| `BatchRebuild.RowGoesOn` | MTDS/integration/vllm/vllm_adapter.py:691-951 | In terms of the request: its row goes on from the last whole block of what is computed; its positions are right if and only if what vLLM had computed is whole blocks, and then its slots and its recovered table are as well. |
| `BatchRebuild.RetrieveAndRebuild` | MTDS/integration/vllm/vllm_adapter.py:620-951 | Retrieval and rebuild as one, for every batch of requests: fails exactly when a decoding row wants more than one token or, in a batch that is rebuilt, has a partial block before its last; skips, keeps or rebuilds exactly as the requests say; in the new batch every row goes on as above, the rows lie one after the other, exactly the last tokens of the requests with no more prompt to follow are sampled, in ascending order, and the prefills and their tokens are those of the requests that are not decoding. |
| `BatchRebuild.MisalignedRow` | MTDS/integration/vllm/vllm_adapter.py:911-919 | A run in which a row is rebuilt with positions that are not its own. |
| `BatchRebuild.DecodingRowFails` | MTDS/integration/vllm/vllm_adapter.py:921-925 | A run in which a decoding row fails the assertion. |
| `BatchRebuild.ChunkTotal` | MTDS/integration/vllm/vllm_adapter.py:1079-1094 | A chunk takes at most the chunk size of each row that has context. |
| `BatchRebuild.ChunksAddUp` | MTDS/integration/vllm/vllm_adapter.py:1077-1089 | The first n chunks take a context up to n chunk sizes. |
| `BatchRebuild.RunningTotals` | MTDS/integration/vllm/vllm_adapter.py:1089-1094 | A chunk's running totals start at 0, step by each row's part and end at the chunk's total. |
| `BatchRebuild.PartsTile` | MTDS/integration/vllm/vllm_adapter.py:1079-1094 | Every position of a context lies, counted from its chunk's start, in the part of exactly one chunk, and no part goes beyond its context. |
| `BatchRebuild.LongestPart` | MTDS/integration/vllm/vllm_adapter.py:1079-1094 | The maximum given for a chunk is the length of its longest part. |
| `BatchRebuild.MlaConfig.Workspace` | MTDS/integration/vllm/vllm_adapter.py:1040-1056 | The workspace is at least eight times the longest sequence and four blocks for every sequence unless that is more than 128K positions, and never more than needed. |
| `BatchRebuild.ChunkingIsRight` | MTDS/integration/vllm/vllm_adapter.py:1028-1095 | The only assertion that can fail is the first, exactly when the workspace is less than a block for each prefill with context; otherwise every total is within the workspace and each prefill's parts add up to its context. |
| `CacheGen.IndexOf` | MTDS/storage_backend/serde/cachegen_encoder.py:250-258 | The t-th gathered index is the flat index of the t-th used byte. |
| `CacheGen.CollectedIsUsed` | MTDS/storage_backend/serde/cachegen_encoder.py:246-258 | Gathering gives the used prefix of every row, one after the other, and nothing else. |
| `CacheGen.RoundTrip` | MTDS/storage_backend/serde/cachegen_decoder.py:58-66 | Scattering what was gathered recovers every row's used prefix, for any rows and lengths with a byte in total. |
| `CacheGen.CodeAndError` | MTDS/storage_backend/serde/cachegen_encoder.py:59-82 | Codes lie between 0 and twice the bound, and dequantising errs by at most half a step. |
| `CacheGen.Requantise` | MTDS/storage_backend/serde/cachegen_decoder.py:44-54 | A code quantises back to itself. |
| `CacheGen.RowRoundTrip` | MTDS/storage_backend/serde/cachegen_decoder.py:44-54 | For every row that is not all zero and 4 to 129 bins: codes in range, errors of at most half a step, and quantising the dequantised row gives the same codes and maximum. |
| `CacheGen.ErrorIsSmall` | MTDS/storage_backend/serde/cachegen_decoder.py:37-54 | With 4 to 129 bins every code is between 0 and twice half the bins less one, and every element comes back changed by at most the row's maximum divided by that. |
| `CacheGen.TooManyBins` | MTDS/storage_backend/serde/cachegen_encoder.py:71-82 | With more than 129 bins the largest element of a row, whatever it is, comes back wrong by more than half a step. |
| `CacheGen.QuantisesWellExactly` | MTDS/storage_backend/serde/cachegen_encoder.py:59-82 | All of this holds for every row that is not all zero if and only if there are 4 to 129 bins. |
| `Protocol.IntParses` | MTDS/utils.py:91-95 | Printed integers read back as themselves. |
| `Protocol.KeyRoundTrip` | MTDS/utils.py:91-132 | A printed key reads back as itself exactly when no text field contains the separator; otherwise it does not read back. |
| `Protocol.KeysPrintApart` | MTDS/utils.py:91-95 | Different keys without separators in their fields print differently. |
| `Protocol.PackedAt` | MTDS/v1/protocol.py:144-155 | Each packed 32-bit integer reads back from its place. |
| `Protocol.SerializesExactly` | MTDS/v1/protocol.py:133-155 | A message is packed exactly when its printed key has at most 150 characters, its shape four dimensions and every integer fits 32 bits. |
| `Protocol.MessageRoundTrip` | MTDS/v1/protocol.py:133-174 | A packet of an ASCII message has exactly the announced 182 bytes and reads back as the message with its key trimmed, or not at all if a text field of the key holds the separator; hence as itself exactly when none does and the key has no outer white space. |

## Left out

- Sockets, message queues, Redis, RDMA, threads, locks and CUDA streams: every public call is atomic, and a disk
  write is a start step and an end step.  File contents are byte sequences.
- Usage counters, metrics, logging, configuration parsing and API servers: easy members or I/O.
- `LocalCPUBackend.batched_allocate` with eviction, and the prefetch callback: they free or hold objects outside
  the reference discipline.
- `DistributedStorageManager`, `LayerwiseMTDSEngine`, remote backends, peer-to-peer lookups and controllers.
- `MixedMemoryAllocator`, paged and ad-hoc allocators, `BytesBufferMemoryObj`: wrappers around, or simpler than,
  what is modelled.  Objects are created with their allocator as parent, as the wrapper does.
- The CUDA branch of `write_back`: a copy followed by what is modelled.
- The `update_stats` flag of the batched free, which only skips the counters.
- MemoryManagement.TensorMemoryAllocator.Allocate: positive sizes only; a zero-size object breaks the list when
  freed, as `Extents.EmptyGiveBack` and `MemoryManagement.TensorMemoryAllocator.AllocateAndFreeEmpty` say.
- MemoryManagement.TensorMemoryAllocator.AllocateSized: positive sizes only, for the same reason.
- MemoryManagement.TensorMemoryAllocator.BatchedAllocate: positive sizes only, for the same reason.
- MemoryManagement.TensorMemoryAllocator.AllocateAndFree: positive sizes only; it is false for size zero.
- LocalCpuBackend.LocalCPUBackend.Allocate: positive sizes only, for the same reason.
- StorageManagement.StorageManager.Allocate: positive sizes only, for the same reason.
- MemoryManagement.TensorMemoryAllocator.BatchedFree: the runs it accumulates are extent values rather than block
  objects.
- StorageManagement.LocalDiskBackend.SubmitPutTask: the disk's evictor is not part of this model; which keys it
  drops, and whether it refuses the object, are parameters.
- TokenDatabase.KeysDeterminePrefixes: SHA-256 is a parameter and no function onto 64 characters is injective;
  the absence of collisions is assumed only on the finite set of inputs actually hashed.
- CacheEngine.MTDSEngine.Store: a chunk's memory holds its rows token after token; the layout by layer and by key
  and value is left out.  Storing requires that the slots of the unmasked positions hold the KV of their prefixes.
- CacheEngine.MTDSEngine.Retrieve: unpinning after a hit is left out; lookups do not pin.
- EngineRuns.FalseHit: ends with the object fetched under the false key; it has 16 rows more than there are positions,
  and which of its bytes a slot then gets depends on the layout by layer, which is left out.
- EngineRuns.DiskRoundTrip: the hot cache is off, nothing is pinned, and the disk accepts every key of the tokens.
- SaveSchedule.MTDSConnectorV1Impl.BuildConnectorMeta: a step has distinct and scheduled new requests and continues only
  requests that are new or running (`Step.Ok`); anything else is an error of the scheduler, for which the source raises
  or replaces a tracker.
- EngineRuns.SavedIsFound: paged memory holds the KV of all tokens from the first store on.
- SegmentDatabase.FastSplit: a generator in the source; here what it yields and whether it then raises.  Digests
  of segments are left out.
- GpuConnector.VLLMBufferLayerwiseGPUConnector.BatchedToGpu: the generator is one method whose suspensions call the
  consumer, an arbitrary function of the layer and its buffer; failing to get a buffer is left out, and every
  layer is sent one object per chunk.
- LocalBackend.LMCLocalBackend.PutStart: one worker, as in the source; the queue before the worker is left out, so
  a put that the worker never gets to is reported as blocked.  The byte count is an integer; the source's float is
  exact below 2^53.
- BatchRebuild.BuildPartialPrefillInput: tensors stay lists of rows; padding block tables, devices and the fields
  copied unchanged are left out.
- BatchRebuild.RetrieveKv: the engine's answer is a parameter, at most the positions it may mark.
- CacheGen.RowRoundTrip: arithmetic over real numbers, so floating-point rounding is not modelled, and a row of
  zeros, which divides by zero, is excluded.  The arithmetic coder is left out.
- Protocol.MessageRoundTrip: ASCII keys only; `RemoteMetadata` and `ServerMetaMessage`, the same packing without a
  key, are left out.
