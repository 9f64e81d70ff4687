/** Whole runs of an engine: over host memory alone, from an empty engine to KV back in paged memory; through
    files, with the hot cache off; the stores that a request's schedule asks for; and a sequence that is found though it
    was never stored. */
module EngineRuns {
  import opened Arithmetic
  import opened Wrappers
  import opened CacheKeys
  import opened TokenDatabase
  import opened MemoryManagement
  import opened References
  import opened StorageManagement
  import opened CacheEngine
  import LocalCpuBackend
  import SaveSchedule

  // ---------------------------------------------------------------- an empty engine

  /** Only the host cache, and room bytes of it free in a row. */
  ghost predicate HostOnly(engine: MTDSEngine, room: nat)
    reads engine.storage, engine.storage.cpu, engine.storage.cpu.allocator
  {
    && engine.storage.disk == null && engine.storage.cpu.useHot
    && engine.Roomy(engine.storage.cpu.allocator.live, room)
  }

  method NewEngine(db: ChunkedTokenDatabase, rowBytes: Chunk, ghost kv: KvModel, size: nat, align: Positive)
    returns (engine: MTDSEngine)
    requires 0 < size && RowsOf(kv, rowBytes)
    ensures engine.Valid() && engine.stored == {} && HostOnly(engine, size)
    ensures engine.db == db && engine.rowBytes == rowBytes && engine.kv == kv
    ensures engine.storage.cpu.allocator.alignBytes == align
    ensures fresh(engine) && fresh(engine.storage.Frame()) && fresh(engine.storage.cpu.allocator.buffer)
  {
    hide TensorMemoryAllocator.Valid, LocalCpuBackend.LocalCPUBackend.Valid, StorageManager.Valid, NoRun;
    var allocator := new TensorMemoryAllocator(size, align);
    var cpu := new LocalCpuBackend.LocalCPUBackend(allocator, true);
    var storage := new StorageManager(cpu, null);
    engine := new MTDSEngine(storage, db, rowBytes, kv);
    AllFree(size);
  }

  lemma AllFree(size: nat)
    ensures !NoRun({}, size, size)
  {
    assert RunFree({}, size, 0, size);
  }

  // ---------------------------------------------------------------- how much room is enough

  /** The bytes that are enough for the KV of n tokens: a row and one alignment for each. */
  function Enough(n: nat, rowBytes: nat, align: nat): nat { n * (rowBytes + align) }

  lemma EnoughAdds(m: nat, n: nat, d: nat, a: nat)
    ensures Enough(m, d, a) + Enough(n, d, a) == Enough(m + n, d, a)
    ensures 0 < n ==> n * d + a <= Enough(n, d, a)
  {
    assert n * (d + a) == n * d + n * a && (0 < n ==> a <= n * a);
    assert (m + n) * (d + a) == m * (d + a) + n * (d + a);
  }

  function EnoughFor(engine: MTDSEngine, n: nat): nat {
    Enough(n, engine.rowBytes, engine.storage.cpu.allocator.alignBytes)
  }

  lemma EntryIsBounded(engine: MTDSEngine, e: Entry)
    requires e.start < e.end
    ensures engine.SizeOf(e) <= EnoughFor(engine, e.end - e.start)
  {
    hide TensorMemoryAllocator.SizeFor, Enough;
    engine.storage.cpu.allocator.SizeForIsClose(engine.RawSize(e));
    EnoughAdds(0, e.end - e.start, engine.rowBytes, engine.storage.cpu.allocator.alignBytes);
  }

  lemma {:induction false} NeedIsBounded(engine: MTDSEngine, tokens: seq<Token>, s: nat, es: seq<Entry>, i: nat)
    requires EntriesFrom(engine.db, tokens, s, es) && Ranges(es) && i <= |es|
    ensures EndOf(es, s, i) <= EndOf(es, s, |es|)
    ensures engine.Need(es, i) <= EnoughFor(engine, EndOf(es, s, |es|) - EndOf(es, s, i))
    decreases |es| - i
  {
    hide LastStart, PrefixHash, ChunkedTokenDatabase.Keyed, Enough, MTDSEngine.SizeOf, Aligned;
    if i < |es| {
      NeedIsBounded(engine, tokens, s, es, i + 1);
      EntryIsBounded(engine, es[i]);
      assert es[i].start == EndOf(es, s, i);
      EnoughAdds(es[i].end - es[i].start, EndOf(es, s, |es|) - es[i].end, engine.rowBytes,
          engine.storage.cpu.allocator.alignBytes);
    }
  }

  /** A row and an alignment for every token from a boundary on are room enough for its chunks. */
  lemma EnoughForAll(engine: MTDSEngine, tokens: seq<Token>, f: nat, spare: nat, room: nat)
    requires f <= |tokens| && Aligned(f, engine.db.chunkSize)
    requires engine.Roomy(engine.storage.cpu.allocator.live, room)
    requires EnoughFor(engine, |tokens| - f) + spare <= room
    ensures var es := engine.db.Entries(tokens, f);
            Ranges(es) && engine.Roomy(engine.storage.cpu.allocator.live, engine.Need(es, 0) + spare)
  {
    hide MTDSEngine.Roomy, Enough, Aligned, ChunkedTokenDatabase.Entries, Ranges, EntriesFrom, MTDSEngine.Need;
    var es := engine.db.Entries(tokens, f);
    EntriesAreConsecutive(engine.db, tokens, f);
    EntriesAreRanges(engine.db, tokens, f, es);
    EntriesEnd(engine.db, tokens, f);
    NeedIsBounded(engine, tokens, f, es, 0);
    var end := EndOf(es, f, |es|);
    EnoughAdds(end - f, |tokens| - end, engine.rowBytes, engine.storage.cpu.allocator.alignBytes);
    engine.LessRoom(engine.storage.cpu.allocator.live, room, room - engine.Need(es, 0) - spare);
  }

  lemma EnoughRoom(engine: MTDSEngine, tokens: seq<Token>, f: nat, spare: nat, room: nat)
    requires f <= |tokens| && Aligned(f, engine.db.chunkSize)
    requires HostOnly(engine, room) && EnoughFor(engine, |tokens| - f) + spare <= room
    ensures engine.RoomFor(tokens, f, spare)
  {
    hide MTDSEngine.Roomy, EnoughFor, Aligned, ChunkedTokenDatabase.Entries, Ranges, MTDSEngine.Need;
    EnoughForAll(engine, tokens, f, spare, room);
  }

  // ---------------------------------------------------------------- from nothing to paged memory

  /** Paged memory that holds the KV of some tokens, position after position. */
  method Prefill(engine: MTDSEngine, kv: KvModel, tokens: seq<Token>) returns (gpu: array<Bytes>, slots: seq<int>)
    requires engine.kv == kv
    ensures fresh(gpu) && |slots| == |tokens| && engine.Resident(gpu[..], tokens, slots, 0, |tokens|)
  {
    gpu := new Bytes[|tokens|](p requires 0 <= p < |tokens| => kv(tokens[..p + 1]));
    slots := seq(|tokens|, p => p);
  }

  /** No collision among what is hashed for some tokens. */
  ghost predicate OwnCollisionFree(db: ChunkedTokenDatabase, tokens: seq<Token>) {
    forall p, n :: p <= tokens && p != [] && 0 < n <= |tokens| && db.Keyed(tokens[..n]) ==>
                     db.NoCollision(p, tokens[..n])
  }

  /** Before anything is stored, only the tokens themselves matter. */
  lemma NothingElse(engine: MTDSEngine, tokens: seq<Token>)
    requires engine.stored == {} && OwnCollisionFree(engine.db, tokens)
    requires !engine.db.saveUnfullChunk || engine.db.chunkSize <= 16 || SmallTokens(tokens)
    ensures engine.NoCollisions(tokens) && engine.NothingSpelled(tokens)
  {
    hide ChunkedTokenDatabase.NoCollision, ChunkedTokenDatabase.Keyed;
  }

  /** A new engine stores the KV of some tokens and writes it back to other slots: all that chunks cover
      comes back, and nothing else changes. */
  method FreshRoundTrip(db: ChunkedTokenDatabase, rowBytes: Chunk, kv: KvModel, align: Positive, tokens: seq<Token>,
      policy: CacheEngineKey -> DiskPolicy, out: array<Bytes>, outSlots: seq<int>)
    returns (mask: seq<bool>)
    requires RowsOf(kv, rowBytes) && HexDigests(db.hash) && OwnCollisionFree(db, tokens)
    requires !db.saveUnfullChunk || db.chunkSize <= 16 || SmallTokens(tokens)
    requires |outSlots| == |tokens| && forall p :: 0 <= p < |outSlots| ==> outSlots[p] < out.Length
    modifies out
    ensures db.Limit(|tokens|) <= |tokens| && mask == Marks(|tokens|, 0, db.Limit(|tokens|))
    ensures out[..] == Scattered(kv, tokens, outSlots, 0, db.Limit(|tokens|), old(out[..]))
  {
    hide MTDSEngine.Valid, MTDSEngine.Roomy, Enough, ChunkedTokenDatabase.Keyed, Scattered, Marks, Aligned, HexDigests;
    hide MTDSEngine.Resident, MTDSEngine.RoomFor, OwnCollisionFree, MTDSEngine.NoCollisions, MTDSEngine.NothingSpelled;
    hide RowsOf, StorageManager.Frame, ChunkedTokenDatabase.Limit;
    var engine := NewEngine(db, rowBytes, kv, Enough(|tokens|, rowBytes, align) + 1, align);
    ZeroIsMultiple(db.chunkSize);
    EnoughRoom(engine, tokens, 0, 0, Enough(|tokens|, rowBytes, align) + 1);
    NothingElse(engine, tokens);
    var gpu, slots := Prefill(engine, kv, tokens);
    mask := engine.StoreThenRetrieve(tokens, gpu, slots, policy, out, outSlots);
  }

  // ---------------------------------------------------------------- a request's schedule

  /** All chunks of some tokens are cached. */
  ghost predicate AllCached(engine: MTDSEngine, tokens: seq<Token>)
    reads engine.storage, engine.storage.cpu
  {
    forall e :: e in engine.db.Entries(tokens, 0) ==> e.key in engine.storage.cpu.hot
  }

  /** How many tokens the stores from the i-th on are over. */
  ghost function Handed(ranges: seq<SaveSchedule.Range>, i: nat): nat
    requires i <= |ranges|
    decreases |ranges| - i
  {
    if i == |ranges| then 0
    else (if ranges[i].start <= ranges[i].end then ranges[i].end - ranges[i].start else 0) + Handed(ranges, i + 1)
  }

  /** A store of the worker over one range of a request's tokens. */
  ghost predicate StoresRange(s: SaveSchedule.Store, tokens: seq<Token>, slots: seq<int>, range: SaveSchedule.Range) {
    && range.start < range.end <= |tokens| == |slots|
    && s.tokenIds == tokens[..range.end] && s.slotMapping == slots[..range.end] && NumFalses(s.mask) == range.start
  }

  /** What the worker carries for a meta over a prefix of the tokens is such a store. */
  lemma CarriedIsStored(s: SaveSchedule.Store, m: SaveSchedule.ReqMeta, range: SaveSchedule.Range, c: Chunk,
      tokens: seq<Token>, slots: seq<int>)
    requires SaveSchedule.Carries(s, m, range, c) && range.start < range.end && |tokens| == |slots|
    requires m.tokenIds <= tokens && m.slotMapping <= slots && |m.slotMapping| == |m.tokenIds|
    ensures StoresRange(s, tokens, slots, range)
  {
  }

  /** A chunk of a longer prefix lies beyond the last boundary of a shorter one or is a chunk of that. */
  lemma {:induction false} EntriesJoin(db: ChunkedTokenDatabase, tokens: seq<Token>, m: nat, n: nat, s: nat, e: Entry)
    requires Aligned(s, db.chunkSize) && s <= Floor(m, db.chunkSize) && m <= n <= |tokens|
    requires e in db.Entries(tokens[..n], s)
    ensures e in db.Entries(tokens[..n], Floor(m, db.chunkSize)) || e in db.Entries(tokens[..m], s)
    decreases n - s
  {
    hide Aligned, PrefixHash;
    var f, next := Floor(m, db.chunkSize), s + db.chunkSize;
    if s < f {
      ApartByPeriod(s, f, db.chunkSize);
      NextMultiple(s, db.chunkSize);
      FloorMonotone(m, n, db.chunkSize);
      assert tokens[..n][..next] == tokens[..m][..next];
      if e in db.Entries(tokens[..n], next) { EntriesJoin(db, tokens, m, n, next, e); }
    }
  }

  /** With the chunks beyond the last boundary of what was cached, everything is cached. */
  lemma JoinCached(engine: MTDSEngine, tokens: seq<Token>, m: nat, n: nat, was: set<CacheEngineKey>)
    requires m <= n <= |tokens| && was <= engine.storage.cpu.hot.Keys
    requires forall e :: e in engine.db.Entries(tokens[..m], 0) ==> e.key in was
    requires forall e :: e in engine.db.Entries(tokens[..n], Floor(m, engine.db.chunkSize)) ==>
                           e.key in engine.storage.cpu.hot
    ensures AllCached(engine, tokens[..n])
  {
    hide ChunkedTokenDatabase.Entries, Floor;
    ZeroIsMultiple(engine.db.chunkSize);
    forall e | e in engine.db.Entries(tokens[..n], 0) ensures e.key in engine.storage.cpu.hot {
      EntriesJoin(engine.db, tokens, m, n, 0, e);
    }
  }

  lemma ResidentPrefix(engine: MTDSEngine, g: seq<Bytes>, tokens: seq<Token>, slots: seq<int>, s: nat, n: nat)
    requires n <= |tokens| == |slots| && s <= n && engine.Resident(g, tokens, slots, 0, |tokens|)
    ensures engine.Resident(g, tokens[..n], slots[..n], s, n)
  {
    forall p | s <= p < n ensures 0 <= slots[p] < |g| && g[slots[p]] == engine.kv(tokens[..n][..p + 1]) {
      assert tokens[..n][..p + 1] == tokens[..p + 1];
    }
  }

  /** One store of the schedule: what was cached up to m is then cached up to the end of the range. */
  method StoreRange(engine: MTDSEngine, s: SaveSchedule.Store, gpu: array<Bytes>, policy: CacheEngineKey -> DiskPolicy,
      ghost tokens: seq<Token>, ghost slots: seq<int>, ghost range: SaveSchedule.Range, ghost m: nat, ghost spare: nat)
    requires engine.Valid() && StoresRange(s, tokens, slots, range)
    requires engine.Resident(gpu[..], tokens, slots, 0, |tokens|)
    requires m <= range.end && range.start == Floor(m, engine.db.chunkSize) && AllCached(engine, tokens[..m])
    requires HostOnly(engine, EnoughFor(engine, range.end - range.start) + spare)
    modifies engine`stored, engine.storage.Frame(), engine.storage.cpu.allocator.buffer
    ensures engine.Valid() && gpu[..] == old(gpu[..])
    ensures AllCached(engine, tokens[..range.end]) && HostOnly(engine, spare)
    ensures fresh(engine.storage.cpu.allocator.live - old(engine.storage.cpu.allocator.live))
    ensures fresh(engine.storage.cpu.allocator.blocks - old(engine.storage.cpu.allocator.blocks))
  {
    hide MTDSEngine.Valid, MTDSEngine.Resident, MTDSEngine.Roomy, MTDSEngine.RoomFor, EnoughFor, Aligned, Floor;
    hide ChunkedTokenDatabase.Entries, NumFalses, EndsEntry;
    ghost var was := engine.storage.cpu.hot.Keys;
    ResidentPrefix(engine, gpu[..], tokens, slots, range.start, range.end);
    EnoughRoom(engine, s.tokenIds, range.start, spare, EnoughFor(engine, range.end - range.start) + spare);
    engine.StoreFitting(s.tokenIds, s.mask, gpu, s.slotMapping, policy, spare);
    JoinCached(engine, tokens, m, range.end, was);
  }

  /** Where the first i ranges end. */
  ghost function SavedBefore(ranges: seq<SaveSchedule.Range>, i: nat): nat
    requires i <= |ranges|
  {
    if i == 0 then 0 else ranges[i - 1].end
  }

  lemma RangeFollows(ranges: seq<SaveSchedule.Range>, saved: nat, c: Chunk, i: nat)
    requires SaveSchedule.Chained(ranges, saved, c) && i < |ranges|
    ensures ranges[i].start == Floor(SavedBefore(ranges, i), c) && SavedBefore(ranges, i) < ranges[i].end
    ensures Handed(ranges, i) == ranges[i].end - ranges[i].start + Handed(ranges, i + 1)
  {
    if i == 0 {
      ZeroIsMultiple(c);
      FloorUnique(0, c, 0);
    }
  }

  /** The stores of a request's schedule, step after step. */
  method StoreSchedule(engine: MTDSEngine, stores: seq<SaveSchedule.Store>, gpu: array<Bytes>,
      policy: CacheEngineKey -> DiskPolicy, ghost tokens: seq<Token>, ghost slots: seq<int>,
      ghost ranges: seq<SaveSchedule.Range>, ghost saved: nat)
    requires engine.Valid() && SaveSchedule.Chained(ranges, saved, engine.db.chunkSize) && |stores| == |ranges|
    requires forall i :: 0 <= i < |stores| ==> StoresRange(stores[i], tokens, slots, ranges[i])
    requires saved <= |tokens| == |slots| && engine.Resident(gpu[..], tokens, slots, 0, |tokens|)
    requires HostOnly(engine, EnoughFor(engine, Handed(ranges, 0)))
    modifies engine`stored, engine.storage.Frame(), engine.storage.cpu.allocator.buffer
    ensures engine.Valid() && AllCached(engine, tokens[..saved]) && engine.storage.disk == null
    ensures fresh(engine.storage.cpu.allocator.live - old(engine.storage.cpu.allocator.live))
    ensures fresh(engine.storage.cpu.allocator.blocks - old(engine.storage.cpu.allocator.blocks))
  {
    hide MTDSEngine.Valid, MTDSEngine.Resident, MTDSEngine.Roomy, EnoughFor, Floor, AllCached, StoresRange;
    hide SaveSchedule.Chained, Handed;
    NothingCached(engine, tokens);
    ghost var live0, blocks0 := engine.storage.cpu.allocator.live, engine.storage.cpu.allocator.blocks;
    for i := 0 to |stores|
      invariant engine.Valid() && gpu[..] == old(gpu[..])
      invariant SavedBefore(ranges, i) <= |tokens| && AllCached(engine, tokens[..SavedBefore(ranges, i)])
      invariant HostOnly(engine, EnoughFor(engine, Handed(ranges, i)))
      invariant fresh(engine.storage.cpu.allocator.live - live0)
      invariant fresh(engine.storage.cpu.allocator.blocks - blocks0)
    {
      RangeFollows(ranges, saved, engine.db.chunkSize, i);
      EndsWithin(stores[i], tokens, slots, ranges[i]);
      EnoughForBoth(engine, ranges[i].end - ranges[i].start, Handed(ranges, i + 1));
      StoreRange(engine, stores[i], gpu, policy, tokens, slots, ranges[i], SavedBefore(ranges, i),
          EnoughFor(engine, Handed(ranges, i + 1)));
    }
    SavedLast(ranges, saved, engine.db.chunkSize);
  }

  lemma NothingCached(engine: MTDSEngine, tokens: seq<Token>)
    ensures AllCached(engine, tokens[..0])
  {
  }

  lemma EndsWithin(s: SaveSchedule.Store, tokens: seq<Token>, slots: seq<int>, range: SaveSchedule.Range)
    requires StoresRange(s, tokens, slots, range)
    ensures range.start < range.end <= |tokens|
  {
  }

  lemma EnoughForBoth(engine: MTDSEngine, m: nat, n: nat)
    ensures EnoughFor(engine, m) + EnoughFor(engine, n) == EnoughFor(engine, m + n)
  {
    EnoughAdds(m, n, engine.rowBytes, engine.storage.cpu.allocator.alignBytes);
  }

  lemma SavedLast(ranges: seq<SaveSchedule.Range>, saved: nat, c: Chunk)
    requires SaveSchedule.Chained(ranges, saved, c)
    ensures SavedBefore(ranges, |ranges|) == saved
  {
  }

  /** A lookup of tokens all of whose chunks are cached finds all that chunks cover. */
  lemma LookedUp(engine: MTDSEngine, tokens: seq<Token>, n: nat)
    requires AllCached(engine, tokens) && engine.storage.disk == null
    requires exists i :: Reaches(engine.db.Entries(tokens, 0), 0,
                             engine.storage.cpu.hot.Keys + engine.storage.Files().Keys, i, n)
    ensures n == engine.db.Limit(|tokens|)
  {
    hide Reaches, ChunkedTokenDatabase.Entries;
    var cached := engine.storage.cpu.hot.Keys + engine.storage.Files().Keys;
    var i :| Reaches(engine.db.Entries(tokens, 0), 0, cached, i, n);
    AllReached(engine.db, tokens, cached, i, n);
  }

  /** After the last step of a request's schedule a lookup finds what its tracker counts as saved: all of it
      if partial chunks are stored or were held back, and never less than the whole chunks of its tokens. */
  method SavedIsFound(engine: MTDSEngine, tracker: SaveSchedule.RequestTracker, discard: bool,
      stores: seq<SaveSchedule.Store>, gpu: array<Bytes>, ghost slots: seq<int>, policy: CacheEngineKey -> DiskPolicy)
    returns (n: nat)
    requires engine.Valid() && tracker.Valid(engine.db.chunkSize, discard) && |stores| == |tracker.ranges|
    requires forall i :: 0 <= i < |stores| ==> StoresRange(stores[i], tracker.tokenIds, slots, tracker.ranges[i])
    requires |tracker.tokenIds| == |slots|
    requires engine.Resident(gpu[..], tracker.tokenIds, slots, 0, |tracker.tokenIds|)
    requires HostOnly(engine, EnoughFor(engine, Handed(tracker.ranges, 0)))
    modifies engine`stored, engine.storage.Frame(), engine.storage.cpu.allocator.buffer
    ensures engine.Valid() && n == engine.db.Limit(tracker.numSavedTokens)
    ensures discard || engine.db.saveUnfullChunk ==> n == tracker.numSavedTokens
    ensures Floor(|tracker.tokenIds|, engine.db.chunkSize) <= n
  {
    hide MTDSEngine.Valid, MTDSEngine.Resident, MTDSEngine.Roomy, EnoughFor, StoresRange, Reaches, AllCached;
    hide SaveSchedule.Chained, Handed, ChunkedTokenDatabase.Entries, Aligned, Floor;
    var saved := tracker.numSavedTokens;
    WholeChunks(|tracker.tokenIds|, saved, engine.db, discard);
    StoreSchedule(engine, stores, gpu, policy, tracker.tokenIds, slots, tracker.ranges, saved);
    n := engine.Lookup(tracker.tokenIds[..saved]);
    LookedUp(engine, tracker.tokenIds[..saved], n);
  }

  lemma WholeChunks(len: nat, saved: nat, db: ChunkedTokenDatabase, discard: bool)
    requires SaveSchedule.OnTrack(len, saved, db.chunkSize, discard)
    ensures saved <= len && Floor(len, db.chunkSize) <= db.Limit(saved)
    ensures discard || db.saveUnfullChunk ==> db.Limit(saved) == saved
  {
    if discard { FloorUnique(saved, db.chunkSize, saved); }
    FloorMonotone(Floor(len, db.chunkSize), saved, db.chunkSize);
    FloorUnique(Floor(len, db.chunkSize), db.chunkSize, Floor(len, db.chunkSize));
  }

  // ---------------------------------------------------------------- a disk and no host cache

  /** Some write to disk completes. */
  method FinishOne(engine: MTDSEngine)
    requires engine.Valid() && engine.storage.disk != null && engine.storage.disk.putTasks != map[]
    modifies engine.storage.Frame()
    ensures engine.Valid() && engine.storage.handles == old(engine.storage.handles)
    ensures engine.stored == old(engine.stored) && engine.storage.cpu.hot == old(engine.storage.cpu.hot)
    ensures |engine.storage.disk.putTasks| < |old(engine.storage.disk.putTasks)|
    ensures engine.storage.disk.dict.Keys + engine.storage.disk.putTasks.Keys ==
            old(engine.storage.disk.dict).Keys + old(engine.storage.disk.putTasks).Keys
    ensures old(engine.storage.cpu.Unpinned()) ==> engine.storage.cpu.Unpinned()
    ensures engine.storage.cpu.allocator.live <= old(engine.storage.cpu.allocator.live)
    ensures fresh(engine.storage.cpu.allocator.blocks - old(engine.storage.cpu.allocator.blocks))
  {
    hide *;
    engine.OnDisk();
    var key :| key in engine.storage.disk.putTasks;
    ghost var files, tasks := engine.storage.disk.dict, engine.storage.disk.putTasks;
    engine.FinishWrite(key);
    engine.OnDisk();
    OneTaskLess(files, tasks, key, engine.storage.disk.dict, engine.storage.disk.putTasks);
  }

  /** All writes to disk complete, in whatever order. */
  method FinishAll(engine: MTDSEngine)
    requires engine.Valid() && engine.storage.disk != null
    modifies engine.storage.Frame()
    ensures engine.Valid() && engine.storage.handles == old(engine.storage.handles)
    ensures engine.stored == old(engine.stored) && engine.storage.cpu.hot == old(engine.storage.cpu.hot)
    ensures engine.storage.Tasks() == map[]
    ensures engine.storage.Files().Keys == old(engine.storage.Files()).Keys + old(engine.storage.Tasks()).Keys
    ensures old(engine.storage.cpu.Unpinned()) ==> engine.storage.cpu.Unpinned()
    ensures engine.storage.cpu.allocator.live <= old(engine.storage.cpu.allocator.live)
    ensures fresh(engine.storage.cpu.allocator.blocks - old(engine.storage.cpu.allocator.blocks))
    decreases |engine.storage.disk.putTasks|
  {
    hide *;
    engine.storage.FrameIs();
    engine.OnDisk();
    if engine.storage.disk.putTasks != map[] {
      FinishOne(engine);
      engine.storage.FrameIs();
      engine.OnDisk();
      FinishAll(engine);
    }
  }

  lemma OneTaskLess<V, W>(files: map<CacheEngineKey, V>, tasks: map<CacheEngineKey, W>, key: CacheEngineKey,
      files': map<CacheEngineKey, V>, tasks': map<CacheEngineKey, W>)
    requires key in tasks && tasks' == tasks - {key} && files'.Keys == files.Keys + {key}
    ensures |tasks'| < |tasks| && files'.Keys + tasks'.Keys == files.Keys + tasks.Keys
  {
    assert tasks'.Keys == tasks.Keys - {key} && tasks.Keys == tasks'.Keys + {key};
    assert |tasks.Keys| == |tasks'.Keys| + 1;
  }

  /** What the puts of a store leave on disk or on its way there, if the disk takes them all and drops none of the
      keys concerned. */
  lemma {:induction false} PutsReachDisk(engine: MTDSEngine, b: Books, tokens: seq<Token>, es: seq<Entry>,
      put: seq<nat>, policy: CacheEngineKey -> DiskPolicy, key: CacheEngineKey)
    requires engine.storage.disk != null && forall i :: 0 <= i < |put| ==> put[i] < |es|
    requires forall e :: e in es ==> policy(e.key).legal && key !in policy(e.key).evictKeys
    requires key in b.files || key in b.flying || key in MTDSEngine.KeysAt(es, put)
    ensures var a := engine.AfterPuts(b, tokens, es, put, policy);
            key in a.files || key in a.flying
    decreases |put|
  {
    hide MTDSEngine.KvOf;
    if put != [] {
      var init, e := put[..|put| - 1], es[put[|put| - 1]];
      assert e in es;
      if key != e.key {
        if key in MTDSEngine.KeysAt(es, put) {
          var i :| 0 <= i < |put| && key == es[put[i]].key;
          assert init[i] == put[i];
        }
        PutsReachDisk(engine, b, tokens, es, init, policy, key);
      }
    }
  }

  /** The disk takes every chunk of some tokens and drops no file of theirs. */
  ghost predicate DiskTakes(db: ChunkedTokenDatabase, tokens: seq<Token>, policy: CacheEngineKey -> DiskPolicy) {
    forall e, f :: e in db.Entries(tokens, 0) && f in db.Entries(tokens, 0) ==>
                     policy(e.key).legal && f.key !in policy(e.key).evictKeys
  }

  /** Every chunk of some tokens has a file. */
  ghost predicate Filed(db: ChunkedTokenDatabase, tokens: seq<Token>, files: map<CacheEngineKey, Bytes>) {
    forall e :: e in db.Entries(tokens, 0) ==> e.key in files
  }

  /** With the host cache off, a store for which there is room leaves every chunk on disk or on its way there. */
  lemma StoredReachesDisk(engine: MTDSEngine, tokens: seq<Token>, b0: Books, had: set<CacheEngineKey>, b: Books,
      now: set<CacheEngineKey>, put: seq<nat>, policy: CacheEngineKey -> DiskPolicy, e: Entry)
    requires engine.storage.disk != null && DiskTakes(engine.db, tokens, policy) && e in engine.db.Entries(tokens, 0)
    requires had == b0.files.Keys + b0.flying.Keys
    requires engine.Putting(b0, had, b, now, tokens, engine.db.Entries(tokens, 0), |engine.db.Entries(tokens, 0)|, put,
                 policy)
    ensures e.key in b.files || e.key in b.flying
  {
    hide MTDSEngine.AfterPuts, ChunkedTokenDatabase.Entries;
    var es := engine.db.Entries(tokens, 0);
    var j :| 0 <= j < |es| && es[j] == e;
    if j in put {
      var i :| 0 <= i < |put| && put[i] == j;
      assert e.key == es[put[i]].key;
    }
    PutsReachDisk(engine, b0, tokens, es, put, policy, e.key);
  }

  lemma OffKeys(engine: MTDSEngine)
    requires engine.Valid() && !engine.storage.cpu.useHot
    ensures engine.storage.cpu.hot == map[]
    ensures engine.storage.Now().Keys() == engine.storage.BooksNow().files.Keys + engine.storage.BooksNow().flying.Keys
    ensures engine.storage.BooksNow().files == engine.storage.Files()
    ensures engine.storage.BooksNow().flying.Keys == engine.storage.Tasks().Keys
  {
    hide Window;
    engine.storage.CacheIsOff();
  }

  /** Stores some tokens on disk, the host cache being off, and completes the writes. */
  method StoreOnDisk(engine: MTDSEngine, tokens: seq<Token>, gpu: array<Bytes>, slots: seq<int>,
      policy: CacheEngineKey -> DiskPolicy)
    requires engine.Valid() && engine.storage.disk != null && !engine.storage.cpu.useHot
    requires |slots| == |tokens| && engine.Resident(gpu[..], tokens, slots, 0, |tokens|)
    requires Ranges(engine.db.Entries(tokens, 0)) && DiskTakes(engine.db, tokens, policy)
    requires engine.Roomy(engine.storage.cpu.allocator.live, engine.Need(engine.db.Entries(tokens, 0), 0))
    modifies engine`stored, engine.storage.Frame(), engine.storage.cpu.allocator.buffer
    ensures engine.Valid() && engine.storage.handles == old(engine.storage.handles)
    ensures Filed(engine.db, tokens, engine.storage.Files()) && engine.storage.Tasks() == map[]
    ensures forall p :: p in engine.stored && p !in old(engine.stored) ==> p <= tokens
    ensures old(engine.storage.cpu.Unpinned()) ==> engine.storage.cpu.Unpinned()
    ensures fresh(engine.storage.cpu.allocator.live - old(engine.storage.cpu.allocator.live))
    ensures fresh(engine.storage.cpu.allocator.blocks - old(engine.storage.cpu.allocator.blocks))
  {
    hide *;
    engine.storage.FrameIs();
    ZeroIsMultiple(engine.db.chunkSize);
    NoMask();
    OffKeys(engine);
    ghost var es, b0 := engine.db.Entries(tokens, 0), engine.storage.BooksNow();
    ghost var had, hot0 := engine.storage.Now().Keys(), engine.storage.cpu.hot.Keys;
    ghost var i, put;
    var r;
    r, i, put := engine.Store(tokens, [], gpu, slots, policy, 0);
    engine.FitOk(es, i, r.value, hot0, 0);
    OffKeys(engine);
    forall e | e in es ensures e.key in engine.storage.Files().Keys + engine.storage.Tasks().Keys {
      StoredReachesDisk(engine, tokens, b0, had, engine.storage.BooksNow(), engine.storage.Now().Keys(), put, policy,
          e);
    }
    engine.storage.FrameIs();
    FinishAll(engine);
    AreFiled(engine.db, tokens, engine.storage.Files());
  }

  lemma NoMask()
    ensures NumFalses([]) == 0
  {
  }

  lemma AreFiled(db: ChunkedTokenDatabase, tokens: seq<Token>, files: map<CacheEngineKey, Bytes>)
    requires forall e :: e in db.Entries(tokens, 0) ==> e.key in files.Keys
    ensures Filed(db, tokens, files)
  {
  }

  /** The objects callers hold. */
  ghost function Held(handles: Refs): set<TensorMemoryObj> { set o | o in handles }

  /** With nothing pinned, cached or being written, only what callers hold is live. */
  lemma OnlyHeldIsLive(engine: MTDSEngine)
    requires engine.Valid() && engine.storage.cpu.Unpinned()
    requires engine.storage.cpu.hot == map[] && engine.storage.Tasks() == map[]
    ensures engine.storage.cpu.allocator.live <= Held(engine.storage.handles)
  {
    hide StorageManager.Valid, MTDSEngine.SoundIn;
    forall o | o in engine.storage.cpu.allocator.live ensures o in Held(engine.storage.handles) {
      engine.storage.ReferencesAreExact(o);
      NoValues(o);
    }
  }

  lemma NoneLeft<V>(m: map<CacheEngineKey, V>)
    ensures m.Keys == {} <==> m == map[]
  {
  }

  lemma NoValues(o: TensorMemoryObj)
    ensures ValuesOf(map[])[o] == 0
  {
  }

  /** What a file of some tokens' chunk holds has the size of the chunk's KV. */
  lemma FileFits(engine: MTDSEngine, tokens: seq<Token>, e: Entry)
    requires engine.Valid() && engine.NoConfusion(tokens) && IsEntry(engine.db, tokens, e)
    requires e.key in engine.storage.Files()
    ensures engine.SizeOf(e) == engine.storage.cpu.allocator.SizeFor(|engine.storage.Files()[e.key]|)
  {
    hide StorageManager.Valid, MTDSEngine.SoundIn, RowsOf, MTDSEngine.NoConfusion, Rows, MTDSEngine.RawSize;
    hide TensorMemoryAllocator.SizeFor, PrefixHash, LastStart, MTDSEngine.IsChunkOf;
    engine.EntryRows(tokens, e);
    engine.ContentsAreKv(engine.storage.Now(), tokens, e, engine.storage.Files()[e.key]);
  }

  /** Where only callers' objects are live and there is room besides those, no file of some tokens lacks room. */
  lemma NothingMissing(engine: MTDSEngine, tokens: seq<Token>, es: seq<Entry>, i: nat, live0: set<TensorMemoryObj>)
    requires engine.Valid() && engine.NoConfusion(tokens) && Filed(engine.db, tokens, engine.storage.Files())
    requires es == engine.db.Entries(tokens, 0) && i < |es| && Ranges(es)
    requires engine.storage.cpu.allocator.live <= live0 && engine.Roomy(live0, engine.Need(es, 0))
    ensures !engine.Missing(es[i].key)
  {
    hide MTDSEngine.Valid, MTDSEngine.NoConfusion, ChunkedTokenDatabase.Entries, MTDSEngine.Need, MTDSEngine.SizeOf;
    hide NoRun, LastStart, PrefixHash, ChunkedTokenDatabase.Keyed;
    ZeroIsMultiple(engine.db.chunkSize);
    EntriesAreConsecutive(engine.db, tokens, 0);
    FileFits(engine, tokens, es[i]);
    NeedsEach(engine, es, 0, i);
    engine.StillRoomy(live0, engine.storage.cpu.allocator.live, engine.Need(es, 0));
    engine.LessRoom(engine.storage.cpu.allocator.live, engine.Need(es, 0), engine.Need(es, 0) - engine.SizeOf(es[i]));
  }

  lemma {:induction false} NeedsEach(engine: MTDSEngine, es: seq<Entry>, k: nat, i: nat)
    requires Ranges(es) && k <= i < |es|
    ensures engine.SizeOf(es[i]) <= engine.Need(es, k)
    decreases i - k
  {
    hide MTDSEngine.SizeOf;
    if k < i { NeedsEach(engine, es, k + 1, i); }
  }

  lemma HeldStaysLive(engine: MTDSEngine)
    requires engine.Valid()
    ensures Held(engine.storage.handles) <= engine.storage.cpu.allocator.live
  {
    hide StorageManager.Valid;
    engine.storage.ReachableIsLive();
  }

  lemma FiledIsFound(engine: MTDSEngine, tokens: seq<Token>, n: nat)
    requires Filed(engine.db, tokens, engine.storage.Files())
    requires exists i :: Reaches(engine.db.Entries(tokens, 0), 0,
                             engine.storage.cpu.hot.Keys + engine.storage.Files().Keys, i, n)
    ensures n == engine.db.Limit(|tokens|)
  {
    hide Reaches, ChunkedTokenDatabase.Entries;
    var cached := engine.storage.cpu.hot.Keys + engine.storage.Files().Keys;
    var i :| Reaches(engine.db.Entries(tokens, 0), 0, cached, i, n);
    AllReached(engine.db, tokens, cached, i, n);
  }

  /** Getting chunks changes neither files nor writes in flight. */
  lemma {:induction false} GotKeeps(b: Books, es: seq<Entry>, i: nat)
    requires i <= |es|
    ensures MTDSEngine.GotAll(b, es, i).files == b.files && MTDSEngine.GotAll(b, es, i).flying == b.flying
  {
    if i > 0 { GotKeeps(b, es, i - 1); }
  }

  /** Where a retrieval stopped when nothing was missing. */
  lemma StoppedAtEnd(engine: MTDSEngine, tokens: seq<Token>, i: nat, n: nat, live0: set<TensorMemoryObj>)
    requires engine.Valid() && engine.NoConfusion(tokens) && Filed(engine.db, tokens, engine.storage.Files())
    requires Ranges(engine.db.Entries(tokens, 0)) && engine.StopsAt(engine.db.Entries(tokens, 0), 0, i, n)
    requires engine.storage.cpu.allocator.live <= live0
    requires engine.Roomy(live0, engine.Need(engine.db.Entries(tokens, 0), 0))
    ensures n == engine.db.Limit(|tokens|)
  {
    hide MTDSEngine.Valid, MTDSEngine.NoConfusion, ChunkedTokenDatabase.Entries, MTDSEngine.Need, MTDSEngine.Missing;
    hide NoRun, Filed, ChunkedTokenDatabase.Limit, MTDSEngine.Roomy, Ranges;
    var es := engine.db.Entries(tokens, 0);
    if i < |es| { NothingMissing(engine, tokens, es, i, live0); }
    ZeroIsMultiple(engine.db.chunkSize);
    EntriesEnd(engine.db, tokens, 0);
  }

  method RetrieveFiled(engine: MTDSEngine, tokens: seq<Token>, out: array<Bytes>, outSlots: seq<int>,
      ghost live0: set<TensorMemoryObj>) returns (mask: seq<bool>)
    requires engine.Valid() && engine.storage.disk != null && !engine.storage.cpu.useHot
    requires engine.NoConfusion(tokens) && Filed(engine.db, tokens, engine.storage.Files())
    requires engine.storage.Tasks() == map[]
    requires engine.storage.cpu.Unpinned() && Held(engine.storage.handles) <= live0
    requires Ranges(engine.db.Entries(tokens, 0))
    requires engine.Roomy(live0, engine.Need(engine.db.Entries(tokens, 0), 0))
    requires |outSlots| == |tokens| && forall p :: 0 <= p < |outSlots| ==> outSlots[p] < out.Length
    modifies engine.storage.Frame(), engine.storage.cpu.allocator.buffer, out
    ensures engine.Valid() && engine.db.Limit(|tokens|) <= |tokens|
    ensures mask == Marks(|tokens|, 0, engine.db.Limit(|tokens|))
    ensures out[..] == Scattered(engine.kv, tokens, outSlots, 0, engine.db.Limit(|tokens|), old(out[..]))
  {
    hide *;
    engine.Apart();
    ZeroIsMultiple(engine.db.chunkSize);
    NoMask();
    OffKeys(engine);
    ghost var es, b := engine.db.Entries(tokens, 0), engine.storage.BooksNow();
    var r;
    ghost var i, n;
    r, i, n := engine.Retrieve(tokens, [], out, outSlots);
    mask := r.value;
    engine.StopsWithin(es, 0, i, n);
    GotKeeps(b, es, i);
    OffKeys(engine);
    NoneLeft(engine.storage.Tasks());
    OnlyHeldIsLive(engine);
    StoppedAtEnd(engine, tokens, i, n, live0);
  }

  /** The disk alone: what is stored with room for it, all writes being completed, is found and comes back from
      disk, as far as chunks cover the tokens. */
  method DiskRoundTrip(engine: MTDSEngine, tokens: seq<Token>, gpu: array<Bytes>, slots: seq<int>,
      policy: CacheEngineKey -> DiskPolicy, out: array<Bytes>, outSlots: seq<int>) returns (n: nat, mask: seq<bool>)
    requires engine.Valid() && engine.storage.disk != null && !engine.storage.cpu.useHot
    requires engine.storage.cpu.Unpinned()
    requires |slots| == |tokens| && engine.Resident(gpu[..], tokens, slots, 0, |tokens|)
    requires Ranges(engine.db.Entries(tokens, 0)) && DiskTakes(engine.db, tokens, policy)
    requires engine.Roomy(engine.storage.cpu.allocator.live, engine.Need(engine.db.Entries(tokens, 0), 0))
    requires HexDigests(engine.db.hash) && engine.NoCollisions(tokens) && engine.NothingSpelled(tokens)
    requires |outSlots| == |tokens| && forall p :: 0 <= p < |outSlots| ==> outSlots[p] < out.Length
    modifies engine`stored, engine.storage.Frame(), engine.storage.cpu.allocator.buffer, out
    ensures engine.Valid() && n == engine.db.Limit(|tokens|) <= |tokens|
    ensures mask == Marks(|tokens|, 0, engine.db.Limit(|tokens|))
    ensures out[..] == Scattered(engine.kv, tokens, outSlots, 0, engine.db.Limit(|tokens|), old(out[..]))
  {
    hide MTDSEngine.Valid, MTDSEngine.Resident, MTDSEngine.Roomy, MTDSEngine.Need, Ranges, DiskTakes, Filed, Held;
    hide ChunkedTokenDatabase.Entries, ChunkedTokenDatabase.Limit, HexDigests, SmallTokens, MTDSEngine.NoConfusion;
    hide MTDSEngine.NoCollisionsIn, MTDSEngine.CollisionFree, LocalCpuBackend.LocalCPUBackend.Unpinned, Scattered;
    hide Marks, StorageManager.Frame, Reaches;
    engine.storage.FrameIs();
    engine.GpuIsApart(out);
    HeldStaysLive(engine);
    ghost var st, live0, es := engine.stored, engine.storage.cpu.allocator.live, engine.db.Entries(tokens, 0);
    StoreOnDisk(engine, tokens, gpu, slots, policy);
    engine.StillCollisionFree(st, tokens);
    engine.StillNothingSpelled(st, tokens);
    engine.KeysAreNotConfused(tokens);
    OffKeys(engine);
    n := engine.Lookup(tokens);
    FiledIsFound(engine, tokens, n);
    engine.storage.FrameIs();
    mask := RetrieveFiled(engine, tokens, out, outSlots, live0);
  }

  /** A new engine over a disk, with the host cache off. */
  method NewDiskEngine(db: ChunkedTokenDatabase, rowBytes: Chunk, ghost kv: KvModel, size: nat, align: Positive)
    returns (engine: MTDSEngine)
    requires 0 < size && RowsOf(kv, rowBytes)
    ensures engine.Valid() && engine.stored == {} && engine.storage.disk != null && !engine.storage.cpu.useHot
    ensures engine.storage.cpu.Unpinned() && engine.Roomy(engine.storage.cpu.allocator.live, size)
    ensures engine.db == db && engine.rowBytes == rowBytes && engine.kv == kv
    ensures engine.storage.cpu.allocator.alignBytes == align
    ensures fresh(engine) && fresh(engine.storage.Frame()) && fresh(engine.storage.cpu.allocator.buffer)
  {
    hide TensorMemoryAllocator.Valid, LocalCpuBackend.LocalCPUBackend.Valid, StorageManager.Valid, NoRun;
    var allocator := new TensorMemoryAllocator(size, align);
    var cpu := new LocalCpuBackend.LocalCPUBackend(allocator, false);
    var disk := new LocalDiskBackend(cpu);
    var storage := new StorageManager(cpu, disk);
    engine := new MTDSEngine(storage, db, rowBytes, kv);
    AllFree(size);
  }

  /** From nothing, through the disk alone. */
  method FreshDiskRoundTrip(db: ChunkedTokenDatabase, rowBytes: Chunk, kv: KvModel, align: Positive,
      tokens: seq<Token>, policy: CacheEngineKey -> DiskPolicy, out: array<Bytes>, outSlots: seq<int>)
    returns (n: nat, mask: seq<bool>)
    requires RowsOf(kv, rowBytes) && HexDigests(db.hash) && OwnCollisionFree(db, tokens)
    requires !db.saveUnfullChunk || db.chunkSize <= 16 || SmallTokens(tokens)
    requires DiskTakes(db, tokens, policy)
    requires |outSlots| == |tokens| && forall p :: 0 <= p < |outSlots| ==> outSlots[p] < out.Length
    modifies out
    ensures n == db.Limit(|tokens|) <= |tokens| && mask == Marks(|tokens|, 0, db.Limit(|tokens|))
    ensures out[..] == Scattered(kv, tokens, outSlots, 0, db.Limit(|tokens|), old(out[..]))
  {
    hide MTDSEngine.Valid, MTDSEngine.Roomy, Enough, ChunkedTokenDatabase.Keyed, Scattered, Marks, Aligned, HexDigests;
    hide MTDSEngine.Resident, OwnCollisionFree, MTDSEngine.NoCollisions, MTDSEngine.NothingSpelled, DiskTakes, Ranges;
    hide RowsOf, StorageManager.Frame, ChunkedTokenDatabase.Limit, MTDSEngine.Need, ChunkedTokenDatabase.Entries;
    hide LocalCpuBackend.LocalCPUBackend.Unpinned;
    var engine := NewDiskEngine(db, rowBytes, kv, Enough(|tokens|, rowBytes, align) + 1, align);
    ZeroIsMultiple(db.chunkSize);
    EnoughForAll(engine, tokens, 0, 0, Enough(|tokens|, rowBytes, align) + 1);
    NothingElse(engine, tokens);
    var gpu, slots := Prefill(engine, kv, tokens);
    n, mask := DiskRoundTrip(engine, tokens, gpu, slots, policy, out, outSlots);
  }

  // ---------------------------------------------------------------- a false hit

  lemma SingleEntry(db: ChunkedTokenDatabase, p: seq<Token>)
    requires db.saveUnfullChunk && 0 < |p| <= db.chunkSize
    ensures db.Entries(p, 0) == [Entry(0, |p|, db.Key(p))]
  {
    hide PrefixHash;
    assert p[..|p|] == p;
    NoEntries(db, p, db.chunkSize);
  }

  lemma {:induction false} WholeEntryEnds(db: ChunkedTokenDatabase, tokens: seq<Token>, s: nat, e: Entry)
    requires Aligned(s, db.chunkSize) && Aligned(|tokens|, db.chunkSize) && e in db.Entries(tokens, s)
    ensures Aligned(e.end, db.chunkSize) && 0 < e.end
    decreases |tokens| - s
  {
    hide Aligned, PrefixHash;
    ApartByPeriod(s, |tokens|, db.chunkSize);
    NextMultiple(s, db.chunkSize);
    if e in db.Entries(tokens, s + db.chunkSize) { WholeEntryEnds(db, tokens, s + db.chunkSize, e); }
  }

  /** What is stored after the chunks of q before its last and the tokens that spell its last chunk. */
  ghost predicate OnlyThese(st: set<seq<Token>>, db: ChunkedTokenDatabase, q: seq<Token>, s: nat, p: seq<Token>)
    requires s <= |q|
  {
    forall x :: x in st ==> EndsEntry(q[..s], db.Entries(q[..s], 0), x) || EndsEntry(p, db.Entries(p, 0), x)
  }

  /** Of all that is stored, only p has the key of q. */
  lemma OnlySpelled(db: ChunkedTokenDatabase, q: seq<Token>, p: seq<Token>, x: seq<Token>)
    requires HexDigests(db.hash) && db.Keyed(q) && Spellable(db.chunkSize, q) && db.NoCollision(q, q)
    requires p == Spelled(db.hash, db.chunkSize, q) && x != [] && db.Key(x) == db.Key(q)
    requires OnlyThese({x}, db, q, LastStart(db.chunkSize, |q|), p)
    ensures x == p
  {
    hide HexDigests, Aligned, PrefixHash, Inputs, CollisionFreeOn, Floor, Spellable, Spelled, EndsEntry;
    hide ChunkedTokenDatabase.Entries;
    var s := LastStart(db.chunkSize, |q|);
    var confuser := db.Confuser(q);
    if EndsEntry(p, db.Entries(p, 0), x) {
      SingleEnds(db, p, x);
    } else {
      WholeEnds(db, q, s, x);
      FirstNotSpellable(db.chunkSize, p);
      FewerInputs(db, q, x, p);
      KeysDeterminePrefixes(db.hash, db.chunkSize, x, p);
    }
  }

  lemma SingleEnds(db: ChunkedTokenDatabase, p: seq<Token>, x: seq<Token>)
    requires db.saveUnfullChunk && 0 < |p| <= db.chunkSize && EndsEntry(p, db.Entries(p, 0), x)
    ensures x == p
  {
    hide ChunkedTokenDatabase.Entries, PrefixHash;
    SingleEntry(db, p);
    assert p[..|p|] == p;
  }

  lemma WholeEnds(db: ChunkedTokenDatabase, q: seq<Token>, s: nat, x: seq<Token>)
    requires s <= |q| && Aligned(s, db.chunkSize) && EndsEntry(q[..s], db.Entries(q[..s], 0), x)
    ensures x != [] && !Spellable(db.chunkSize, x)
    ensures Inputs(db.hash, db.chunkSize, x) <= if q == [] then {} else Inputs(db.hash, db.chunkSize, q)
  {
    hide ChunkedTokenDatabase.Entries, PrefixHash, Inputs, Aligned, Spellable;
    var e :| e in db.Entries(q[..s], 0) && e.end <= s && x == q[..s][..e.end];
    ZeroIsMultiple(db.chunkSize);
    WholeEntryEnds(db, q[..s], 0, e);
    assert x == q[..e.end];
    InputsOfWhole(db.hash, db.chunkSize, q, e.end);
    NotSpellable(db.chunkSize, x);
  }

  lemma FewerInputs(db: ChunkedTokenDatabase, q: seq<Token>, x: seq<Token>, p: seq<Token>)
    requires q != [] && x != [] && p != [] && db.NoCollision(q, q)
    requires Inputs(db.hash, db.chunkSize, x) <= Inputs(db.hash, db.chunkSize, q)
    requires Inputs(db.hash, db.chunkSize, p) <= Inputs(db.hash, db.chunkSize, q)
    ensures CollisionFreeOn(db.hash, Inputs(db.hash, db.chunkSize, x) + Inputs(db.hash, db.chunkSize, p))
  {
    hide Inputs;
  }

  lemma FirstNotSpellable(c: Chunk, p: seq<Token>)
    requires 0 < |p| <= c
    ensures !Spellable(c, p)
  {
    ZeroIsMultiple(c);
    FloorUnique(|p| - 1, c, 0);
  }

  /** With the chunks before the last of q and the tokens that spell the last cached, all of q is. */
  lemma SpelledCached(engine: MTDSEngine, q: seq<Token>, p: seq<Token>)
    requires HexDigests(engine.db.hash) && engine.db.Keyed(q) && Spellable(engine.db.chunkSize, q)
    requires engine.db.NoCollision(q, q) && p == Spelled(engine.db.hash, engine.db.chunkSize, q) && p != []
    requires AllCached(engine, q[..LastStart(engine.db.chunkSize, |q|)]) && AllCached(engine, p)
    ensures AllCached(engine, q) && engine.db.Limit(|q|) == |q| && engine.db.Key(q) in engine.storage.cpu.hot
  {
    hide HexDigests, Aligned, PrefixHash, Inputs, CollisionFreeOn, Spellable, Spelled;
    hide ChunkedTokenDatabase.Entries;
    var db, s := engine.db, LastStart(engine.db.chunkSize, |q|);
    var confuser := db.Confuser(q);
    SingleEntry(db, p);
    assert db.Entries(p, 0)[0] in db.Entries(p, 0);
    LastChunkAlone(db, q, s);
    FloorUnique(s, db.chunkSize, s);
    assert q[..|q|] == q;
    JoinCached(engine, q, s, |q|, engine.storage.cpu.hot.Keys);
  }

  lemma LastChunkAlone(db: ChunkedTokenDatabase, q: seq<Token>, s: nat)
    requires db.saveUnfullChunk && s < |q| <= s + db.chunkSize
    ensures db.Entries(q, s) == [Entry(s, |q|, db.Key(q))]
  {
    hide PrefixHash;
    assert q[..|q|] == q;
    NoEntries(db, q, s + db.chunkSize);
  }

  /** Computes the KV of some tokens and stores it, where there is room for it. */
  method StoreNew(engine: MTDSEngine, kv: KvModel, tokens: seq<Token>, policy: CacheEngineKey -> DiskPolicy,
      ghost room: nat, ghost spare: nat)
    requires engine.Valid() && engine.kv == kv
    requires HostOnly(engine, room) && EnoughFor(engine, |tokens|) + spare <= room
    modifies engine`stored, engine.storage.Frame(), engine.storage.cpu.allocator.buffer
    ensures engine.Valid() && AllCached(engine, tokens) && HostOnly(engine, spare)
    ensures old(engine.storage.cpu.hot).Keys <= engine.storage.cpu.hot.Keys
    ensures forall x :: x in engine.stored && x !in old(engine.stored) ==>
                          EndsEntry(tokens, engine.db.Entries(tokens, 0), x)
    ensures fresh(engine.storage.cpu.allocator.live - old(engine.storage.cpu.allocator.live))
    ensures fresh(engine.storage.cpu.allocator.blocks - old(engine.storage.cpu.allocator.blocks))
  {
    hide MTDSEngine.Valid, MTDSEngine.Resident, MTDSEngine.Roomy, MTDSEngine.RoomFor, Enough, Aligned;
    hide ChunkedTokenDatabase.Entries, EndsEntry;
    ZeroIsMultiple(engine.db.chunkSize);
    EnoughRoom(engine, tokens, 0, spare, room);
    var gpu, slots := Prefill(engine, kv, tokens);
    engine.StoreFitting(tokens, [], gpu, slots, policy, spare);
  }

  /** A new engine stores a prefix q up to its last chunk, and the tokens that spell the last chunk. */
  method StoreSpelled(db: ChunkedTokenDatabase, rowBytes: Chunk, kv: KvModel, align: Positive, q: seq<Token>,
      p: seq<Token>, policy: CacheEngineKey -> DiskPolicy) returns (engine: MTDSEngine)
    requires RowsOf(kv, rowBytes) && q != []
    ensures engine.Valid() && engine.db == db && engine.kv == kv && engine.storage.disk == null
    ensures AllCached(engine, q[..LastStart(db.chunkSize, |q|)]) && AllCached(engine, p)
    ensures OnlyThese(engine.stored, db, q, LastStart(db.chunkSize, |q|), p)
    ensures fresh(engine) && fresh(engine.storage.Frame()) && fresh(engine.storage.cpu.allocator.buffer)
  {
    hide MTDSEngine.Valid, MTDSEngine.Roomy, Enough, Aligned, ChunkedTokenDatabase.Entries, EndsEntry, RowsOf;
    var s := LastStart(db.chunkSize, |q|);
    ghost var spare := Enough(|p|, rowBytes, align);
    engine := NewEngine(db, rowBytes, kv, Enough(s, rowBytes, align) + Enough(|p|, rowBytes, align) + 1, align);
    StoreNew(engine, kv, q[..s], policy, Enough(s, rowBytes, align) + spare + 1, spare);
    StoreNew(engine, kv, p, policy, spare, 0);
  }

  lemma NotStored(engine: MTDSEngine, q: seq<Token>, p: seq<Token>)
    requires HexDigests(engine.db.hash) && q != [] && Spellable(engine.db.chunkSize, q) && |p| <= engine.db.chunkSize
    requires OnlyThese(engine.stored, engine.db, q, LastStart(engine.db.chunkSize, |q|), p)
    ensures q !in engine.stored
  {
    hide HexDigests, PrefixHash, ChunkedTokenDatabase.Entries, Aligned;
    ZeroIsMultiple(engine.db.chunkSize);
    ApartByPeriod(0, LastStart(engine.db.chunkSize, |q|), engine.db.chunkSize);
  }

  /** So all there is under the key of q is the KV of the tokens that spell its last chunk. */
  lemma OnlySpelledIsThere(engine: MTDSEngine, q: seq<Token>, p: seq<Token>)
    requires engine.Valid() && HexDigests(engine.db.hash) && engine.db.Keyed(q) && Spellable(engine.db.chunkSize, q)
    requires engine.db.NoCollision(q, q) && p == Spelled(engine.db.hash, engine.db.chunkSize, q) && p != []
    requires OnlyThese(engine.stored, engine.db, q, LastStart(engine.db.chunkSize, |q|), p)
    ensures forall b :: engine.storage.Now().Has(engine.db.Key(q), b) ==>
                          b == ChunkBytes(engine.kv, engine.db.chunkSize, p)
  {
    hide StorageManager.Valid, Contents.Has, HexDigests, PrefixHash, Inputs, CollisionFreeOn, Spellable, Spelled;
    hide ChunkedTokenDatabase.Entries, EndsEntry, ChunkBytes, LastStart, ChunkedTokenDatabase.Keyed, Aligned;
    var key := engine.db.Key(q);
    forall b | engine.storage.Now().Has(key, b) ensures b == ChunkBytes(engine.kv, engine.db.chunkSize, p) {
      var x :| x in engine.stored && engine.IsChunkOf(x, key, b);
      OnlySpelled(engine.db, q, p, x);
    }
  }

  /** Wherever the last chunk of a prefix can be spelled, a new engine can be brought to report all of the prefix as
      cached although it was never stored, and no digest collides: what it fetches for the last chunk is the KV
      of the tokens that spell it. */
  method FalseHit(db: ChunkedTokenDatabase, rowBytes: Chunk, kv: KvModel, align: Positive, q: seq<Token>,
      policy: CacheEngineKey -> DiskPolicy)
    returns (engine: MTDSEngine, n: nat, found: Option<TensorMemoryObj>)
    requires RowsOf(kv, rowBytes) && HexDigests(db.hash) && db.Keyed(q) && Spellable(db.chunkSize, q)
    requires db.NoCollision(q, q)
    ensures engine.Valid() && engine.db == db && engine.kv == kv && q !in engine.stored
    ensures n == |q| && found.Some?
    ensures var p := Spelled(db.hash, db.chunkSize, q);
            p != [] && p != q && engine.storage.cpu.allocator.Read(found.value) == ChunkBytes(kv, db.chunkSize, p)
  {
    hide MTDSEngine.Valid, HexDigests, Aligned, PrefixHash, Inputs, CollisionFreeOn, Spelled, Floor;
    hide ChunkedTokenDatabase.Entries, AllCached, OnlyThese, RowsOf, StorageManager.Frame, Reaches, ChunkBytes;
    ghost var confuser := db.Confuser(q);
    var p := Spelled(db.hash, db.chunkSize, q);
    engine := StoreSpelled(db, rowBytes, kv, align, q, p, policy);
    NotStored(engine, q, p);
    SpelledCached(engine, q, p);
    n := engine.Lookup(q);
    LookedUp(engine, q, n);
    OnlySpelledIsThere(engine, q, p);
    found := engine.Fetch(db.Key(q));
  }
}
