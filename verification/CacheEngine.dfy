/** Storing, looking up and retrieving the KV cache of token sequences, end to end: what a retrieval
    writes into paged memory is the KV of exactly the prefix it was asked for. */
module CacheEngine {
  import opened Wrappers
  import opened Arithmetic
  import opened CacheKeys
  import opened TokenDatabase
  import opened MemoryManagement
  import opened References
  import opened LocalCpuBackend
  import opened StorageManagement
  import opened PagedMemory

  /** The KV of one token, all layers, as a function of the prefix that ends in it. */
  type KvModel = seq<Token> -> Bytes

  /** What the disk backend is told to do with a put. */
  datatype DiskPolicy = DiskPolicy(legal: bool, evictKeys: set<CacheEngineKey>)

  // ---------------------------------------------------------------- chunk contents

  ghost predicate RowsOf(kv: KvModel, d: Chunk) {
    forall p :: |kv(p)| == d
  }

  /** The KV of positions s to |p| of a prefix, row after row. */
  ghost function Rows(kv: KvModel, p: seq<Token>, s: nat): Bytes
    decreases |p| - s
  {
    if s >= |p| then [] else kv(p[..s + 1]) + Rows(kv, p, s + 1)
  }

  lemma {:induction false} RowsLength(kv: KvModel, d: Chunk, p: seq<Token>, s: nat)
    requires RowsOf(kv, d) && s <= |p|
    ensures |Rows(kv, p, s)| == (|p| - s) * d
    decreases |p| - s
  {
    if s < |p| {
      RowsLength(kv, d, p, s + 1);
      assert (|p| - s) * d == (|p| - (s + 1)) * d + d;
    }
  }

  lemma NextRow(kv: KvModel, tokens: seq<Token>, end: nat, p: nat)
    requires p < end <= |tokens|
    ensures Rows(kv, tokens[..end], p) == kv(tokens[..p + 1]) + Rows(kv, tokens[..end], p + 1)
  {
    assert tokens[..end][..p + 1] == tokens[..p + 1];
  }

  lemma LastRow(kv: KvModel, tokens: seq<Token>, end: nat)
    requires end <= |tokens|
    ensures Rows(kv, tokens[..end], end) == []
  {
  }

  lemma Regroup(a: Bytes, b: Bytes, c: Bytes)
    ensures a + (b + c) == a + b + c
  {
  }

  /** What a chunk's memory has to hold: the KV of its positions. */
  ghost function ChunkBytes(kv: KvModel, c: Chunk, p: seq<Token>): Bytes
    requires p != []
  {
    Rows(kv, p, LastStart(c, |p|))
  }

  // ---------------------------------------------------------------- entries

  /** An entry of a token sequence: a chunk starting at a multiple of the chunk size, keyed by its prefix. */
  ghost predicate IsEntry(db: ChunkedTokenDatabase, tokens: seq<Token>, e: Entry) {
    && e.start < e.end <= |tokens| && e.start == LastStart(db.chunkSize, e.end)
    && db.Keyed(tokens[..e.end]) && e.key == db.Key(tokens[..e.end])
  }

  /** Where the first i of some consecutive entries from position s end. */
  ghost function EndOf(es: seq<Entry>, s: nat, i: nat): nat
    requires i <= |es|
  {
    if i == 0 then s else es[i - 1].end
  }

  /** p is what of the tokens some entry ends. */
  ghost predicate EndsEntry(tokens: seq<Token>, es: seq<Entry>, p: seq<Token>) {
    exists e :: e in es && e.end <= |tokens| && p == tokens[..e.end]
  }

  ghost predicate Ranges(es: seq<Entry>) { forall i :: 0 <= i < |es| ==> es[i].start <= es[i].end }

  /** Consecutive entries from position s. */
  ghost predicate EntriesFrom(db: ChunkedTokenDatabase, tokens: seq<Token>, s: nat, es: seq<Entry>) {
    && (forall i :: 0 <= i < |es| ==> IsEntry(db, tokens, es[i]))
    && (es != [] ==> es[0].start == s)
    && (forall i, j :: 0 <= i && j == i + 1 && j < |es| ==> es[j].start == es[i].end)
  }

  lemma {:induction false} EntriesAreConsecutive(db: ChunkedTokenDatabase, tokens: seq<Token>, s: nat)
    requires Aligned(s, db.chunkSize)
    ensures EntriesFrom(db, tokens, s, db.Entries(tokens, s))
    decreases |tokens| - s
  {
    if s < db.Limit(|tokens|) {
      var e, es := db.ChunkEnd(s, |tokens|), db.Entries(tokens, s + db.chunkSize);
      FloorUnique(e - 1, db.chunkSize, s);
      NextMultiple(s, db.chunkSize);
      EntriesAreConsecutive(db, tokens, s + db.chunkSize);
      assert db.Entries(tokens, s) == [Entry(s, e, db.Key(tokens[..e]))] + es;
      db.EntryIsKeyed(tokens, s, Entry(s, e, db.Key(tokens[..e])));
      if es != [] {
        assert s + db.chunkSize < |tokens| && e == s + db.chunkSize;
      }
    }
  }

  lemma EntriesAreRanges(db: ChunkedTokenDatabase, tokens: seq<Token>, s: nat, es: seq<Entry>)
    requires EntriesFrom(db, tokens, s, es)
    ensures Ranges(es)
  {
  }

  /** The entries from a boundary on cover everything that chunks cover. */
  lemma {:induction false} EntriesEnd(db: ChunkedTokenDatabase, tokens: seq<Token>, s: nat)
    requires Aligned(s, db.chunkSize)
    ensures var es := db.Entries(tokens, s);
            EndOf(es, s, |es|) == if s < db.Limit(|tokens|) then db.Limit(|tokens|) else s
    decreases |tokens| - s
  {
    hide Aligned, Floor, PrefixHash;
    var n := db.Limit(|tokens|);
    if s < n {
      var e, rest := db.ChunkEnd(s, |tokens|), db.Entries(tokens, s + db.chunkSize);
      NextMultiple(s, db.chunkSize);
      if !db.saveUnfullChunk { ApartByPeriod(s, n, db.chunkSize); }
      EntriesEnd(db, tokens, s + db.chunkSize);
      assert db.Entries(tokens, s) == [Entry(s, e, db.Key(tokens[..e]))] + rest;
      if n <= s + db.chunkSize { NoEntries(db, tokens, s + db.chunkSize); }
    }
  }

  lemma NoEntries(db: ChunkedTokenDatabase, tokens: seq<Token>, s: nat)
    requires db.Limit(|tokens|) <= s
    ensures db.Entries(tokens, s) == []
  {
  }

  // ---------------------------------------------------------------- how far a cached prefix reaches

  /** n is where the run of cached entries from position s ends: the first i entries are cached, the
      next one, if any, is not. */
  ghost predicate Reaches(es: seq<Entry>, s: nat, cached: set<CacheEngineKey>, i: nat, n: nat) {
    && i <= |es| && n == EndOf(es, s, i)
    && (forall j :: 0 <= j < i ==> es[j].key in cached)
    && (i < |es| ==> es[i].key !in cached)
  }

  /** Past a first entry that is cached, the run goes on from where that entry ends. */
  lemma ReachesRest(e: Entry, rest: seq<Entry>, s: nat, m: nat, cached: set<CacheEngineKey>, i: nat, n: nat)
    requires Reaches([e] + rest, s, cached, i, n) && 0 < i && (e.end == m || (rest == [] && n == m))
    ensures Reaches(rest, m, cached, i - 1, n)
  {
    var es := [e] + rest;
    assert forall k :: 0 <= k < |rest| ==> rest[k] == es[k + 1];
  }

  lemma {:induction false} SuffixReaches(db: ChunkedTokenDatabase, tokens: seq<Token>, s: nat, f: nat,
                                         cached: set<CacheEngineKey>, i: nat, n: nat) returns (j: nat)
    requires Aligned(s, db.chunkSize) && Aligned(f, db.chunkSize) && s <= f <= n
    requires Reaches(db.Entries(tokens, s), s, cached, i, n)
    ensures Reaches(db.Entries(tokens, f), f, cached, j, n)
    decreases f - s
  {
    if s == f {
      j := i;
    } else {
      hide Aligned, Floor, PrefixHash;
      var e, rest := db.Entries(tokens, s)[0], db.Entries(tokens, s + db.chunkSize);
      ApartByPeriod(s, f, db.chunkSize);
      NextMultiple(s, db.chunkSize);
      assert db.Entries(tokens, s) == [e] + rest;
      ReachesRest(e, rest, s, s + db.chunkSize, cached, i, n);
      j := SuffixReaches(db, tokens, s + db.chunkSize, f, cached, i - 1, n);
    }
  }

  lemma ReachIsUnique(es: seq<Entry>, s: nat, cached: set<CacheEngineKey>, i: nat, n: nat, j: nat, m: nat)
    requires Reaches(es, s, cached, i, n) && Reaches(es, s, cached, j, m)
    ensures i == j && n == m
  {
  }

  /** Where everything is cached, the run is all of the entries. */
  lemma AllReached(db: ChunkedTokenDatabase, tokens: seq<Token>, cached: set<CacheEngineKey>, i: nat, n: nat)
    requires forall e :: e in db.Entries(tokens, 0) ==> e.key in cached
    requires Reaches(db.Entries(tokens, 0), 0, cached, i, n)
    ensures n == db.Limit(|tokens|)
  {
    hide ChunkedTokenDatabase.Entries, ChunkedTokenDatabase.Limit;
    var es := db.Entries(tokens, 0);
    ZeroIsMultiple(db.chunkSize);
    EntriesEnd(db, tokens, 0);
    assert Reaches(es, 0, cached, |es|, EndOf(es, 0, |es|));
    ReachIsUnique(es, 0, cached, i, n, |es|, EndOf(es, 0, |es|));
  }

  /** A lookup and a retrieval that starts within what the lookup found end at the same position. */
  lemma RetrievalEndsWhereLookupDoes(db: ChunkedTokenDatabase, tokens: seq<Token>, f: nat, cached: set<CacheEngineKey>,
                                     i: nat, n: nat, j: nat, m: nat)
    requires Aligned(f, db.chunkSize) && f <= n
    requires Reaches(db.Entries(tokens, 0), 0, cached, i, n) && Reaches(db.Entries(tokens, f), f, cached, j, m)
    ensures m == n
  {
    ZeroIsMultiple(db.chunkSize);
    var k := SuffixReaches(db, tokens, 0, f, cached, i, n);
    ReachIsUnique(db.Entries(tokens, f), f, cached, j, m, k, n);
  }

  // ---------------------------------------------------------------- paged memory

  /** The KV of every position. */
  ghost function KvRows(kv: KvModel, tokens: seq<Token>): (r: seq<Bytes>)
    ensures |r| == |tokens|
  {
    seq(|tokens|, p requires 0 <= p < |tokens| => kv(tokens[..p + 1]))
  }

  /** Paged memory after the KV of positions s to e has been written to their slots. */
  ghost function Scattered(kv: KvModel, tokens: seq<Token>, slots: seq<int>, s: nat, e: nat,
      g: seq<Bytes>): (r: seq<Bytes>)
    requires e <= |tokens| == |slots|
    ensures |r| == |g|
  {
    Scatter(KvRows(kv, tokens), slots, s, e, g)
  }

  /** When slots are not shared, each position's slot ends with the KV of the prefix ending there, and
      every other slot is as before. */
  lemma ScatteredAt(kv: KvModel, tokens: seq<Token>, slots: seq<int>, s: nat, e: nat, g: seq<Bytes>)
    requires e <= |tokens| == |slots| && SlotsApart(slots, s, e)
    ensures var r := Scattered(kv, tokens, slots, s, e, g);
            && (forall p :: s <= p < e && 0 <= slots[p] < |g| ==> r[slots[p]] == kv(tokens[..p + 1]))
            && (forall x :: 0 <= x < |g| && (forall p :: s <= p < e ==> slots[p] != x) ==> r[x] == g[x])
  {
    ScatterAt(KvRows(kv, tokens), slots, s, e, g);
  }

  lemma ScatteredTwice(kv: KvModel, tokens: seq<Token>, slots: seq<int>, s: nat, m: nat, e: nat, g: seq<Bytes>)
    requires s <= m <= e <= |tokens| == |slots|
    ensures Scattered(kv, tokens, slots, m, e, Scattered(kv, tokens, slots, s, m, g))
            == Scattered(kv, tokens, slots, s, e, g)
  {
    ScatterTwice(KvRows(kv, tokens), slots, s, m, e, g);
  }

  /** A mask of length n marking positions s to e. */
  ghost function Marks(n: nat, s: nat, e: nat): seq<bool> { seq(n, p => s <= p < e) }

  lemma MarkMore(n: nat, s: nat, m: nat, e: nat)
    requires s <= m <= e <= n
    ensures |Marks(n, s, m)| == n
    ensures Marks(n, s, m)[..m] + seq(e - m, _ => true) + Marks(n, s, m)[e..] == Marks(n, s, e)
  {
  }

  lemma {:induction false} MaskPrefixFits(mask: seq<bool>)
    ensures NumFalses(mask) <= |mask|
  {
    if mask != [] { MaskPrefixFits(mask[..|mask| - 1]); }
  }

  lemma EntriesMeet(db: ChunkedTokenDatabase, tokens: seq<Token>, f: nat, es: seq<Entry>, i: nat)
    requires EntriesFrom(db, tokens, f, es) && f <= |tokens| && i <= |es|
    ensures EndOf(es, f, i) <= |tokens| && (i < |es| ==> IsEntry(db, tokens, es[i]) && es[i].start == EndOf(es, f, i))
  {
  }

  // ---------------------------------------------------------------- the engine

  class MTDSEngine {
    const storage: StorageManager
    const db: ChunkedTokenDatabase
    /** Bytes of KV per token over all layers. */
    const rowBytes: Chunk
    ghost const kv: KvModel
    /** Every prefix some chunk was stored for. */
    ghost var stored: set<seq<Token>>

    ghost predicate IsChunkOf(p: seq<Token>, k: CacheEngineKey, b: Bytes) {
      p != [] && k == db.Key(p) && b == ChunkBytes(kv, db.chunkSize, p)
    }

    ghost predicate Sound()
      reads this, storage, storage.disk, storage.cpu, storage.cpu.allocator.buffer
    {
      SoundIn(storage.Now(), stored)
    }

    ghost predicate SoundIn(s: Contents, st: set<seq<Token>>) {
      forall k, b :: s.Has(k, b) ==> exists p :: p in st && IsChunkOf(p, k, b)
    }

    /** Only prefixes that get a key were stored. */
    ghost predicate AllKeyed()
      reads this`stored
    {
      forall p :: p in stored ==> db.Keyed(p)
    }

    /** Whatever any backend has under any key is the KV of a prefix that was stored under that key. */
    ghost predicate Valid()
      reads this, storage, storage.disk, storage.cpu, storage.cpu.allocator, storage.cpu.allocator.buffer
      reads storage.cpu.allocator.blocks, storage.cpu.allocator.live
    {
      storage.Valid() && Sound() && AllKeyed() && RowsOf(kv, rowBytes)
    }

    constructor (storage: StorageManager, db: ChunkedTokenDatabase, rowBytes: Chunk, ghost kv: KvModel)
      requires storage.Valid() && RowsOf(kv, rowBytes) && storage.cpu.hot == map[]
      requires storage.Files() == map[] && storage.Tasks() == map[]
      ensures Valid() && this.storage == storage && this.db == db && stored == {}
      ensures this.rowBytes == rowBytes && this.kv == kv
    {
      this.storage, this.db, this.rowBytes, this.kv, stored := storage, db, rowBytes, kv, {};
    }

    /** No run of free memory holds the KV of an entry. */
    ghost predicate NoRoom(e: Entry)
      requires e.start <= e.end
      reads storage, storage.cpu, storage.cpu.allocator
    {
      !Roomy(storage.cpu.allocator.live, SizeOf(e))
    }

    /** Some stored prefix has the given key. */
    ghost predicate Known(st: set<seq<Token>>, k: CacheEngineKey) {
      exists p :: p in st && p != [] && db.Key(p) == k
    }

    ghost predicate AllKnown(st: set<seq<Token>>, es: seq<Entry>, n: nat)
      requires n <= |es|
    {
      forall j :: 0 <= j < n ==> Known(st, es[j].key)
    }

    lemma MoreKnown(st: set<seq<Token>>, st': set<seq<Token>>, es: seq<Entry>, n: nat)
      requires st <= st' && n <= |es| && AllKnown(st, es, n)
      ensures AllKnown(st', es, n) && (n < |es| && Known(st', es[n].key) ==> AllKnown(st', es, n + 1))
    {
      forall j | 0 <= j < n ensures Known(st', es[j].key) {
        assert Known(st, es[j].key);
      }
    }

    /** A key that the cache or the disk has was stored. */
    lemma FoundIsKnown(key: CacheEngineKey, b: Bytes)
      requires Sound() && storage.Has(key, b)
      ensures Known(stored, key)
    {
      hide Contents.Has;
      var p :| p in stored && IsChunkOf(p, key, b);
    }

    /** The slots of positions s to e of paged memory hold the KV of their prefixes. */
    ghost predicate Resident(g: seq<Bytes>, tokens: seq<Token>, slots: seq<int>, s: nat, e: nat)
      requires e <= |tokens| == |slots|
    {
      forall p :: s <= p < e ==> 0 <= slots[p] < |g| && g[slots[p]] == kv(tokens[..p + 1])
    }

    // -------------------------------------------------------------- store

    /** Gathers the rows of positions start to end from paged memory. */
    method FromGpu(gpu: array<Bytes>, slots: seq<int>, start: nat, end: nat, ghost tokens: seq<Token>)
        returns (bytes: Bytes)
      requires start <= end <= |tokens| == |slots|
      requires Resident(gpu[..], tokens, slots, start, end)
      ensures bytes == Rows(kv, tokens[..end], start)
    {
      hide Rows;
      bytes := [];
      for p := start to end
        invariant bytes + Rows(kv, tokens[..end], p) == Rows(kv, tokens[..end], start)
      {
        NextRow(kv, tokens, end, p);
        Regroup(bytes, kv(tokens[..p + 1]), Rows(kv, tokens[..end], p + 1));
        bytes := bytes + gpu[slots[p]];
      }
      LastRow(kv, tokens, end);
    }

    lemma SoundWith(s: Contents, st: set<seq<Token>>, s': Contents, p: seq<Token>, key: CacheEngineKey, bytes: Bytes)
      requires SoundIn(s, st) && IsChunkOf(p, key, bytes)
      requires s'.WithinOr(s, key, bytes)
      ensures SoundIn(s', st + {p})
    {
      hide IsChunkOf, Contents.Has;
    }

    lemma SoundWithin(s: Contents, st: set<seq<Token>>, s': Contents)
      requires SoundIn(s, st) && s'.Within(s)
      ensures SoundIn(s', st)
    {
      hide IsChunkOf, Contents.Has;
    }

    lemma Apart()
      ensures this !in storage.Frame()
    {
    }

    lemma BufferIsApart()
      ensures (storage.cpu.allocator as object) != storage.cpu.allocator.buffer
      ensures (storage.cpu as object) != storage.cpu.allocator.buffer
      ensures (storage as object) != storage.cpu.allocator.buffer && (this as object) != storage.cpu.allocator.buffer
      ensures storage.disk != null ==> (storage.disk as object) != storage.cpu.allocator.buffer
    {
    }

    lemma GpuIsApart(gpu: array<Bytes>)
      ensures gpu !in storage.Frame() && (gpu as object) != storage.cpu.allocator.buffer
    {
    }

    /** Fills newly allocated memory with the rows of an entry's positions. */
    method FillChunk(o: TensorMemoryObj, e: Entry, gpu: array<Bytes>, slots: seq<int>, ghost tokens: seq<Token>)
      requires Valid() && o in storage.handles && storage.cpu.refs[o] == 1
      requires e.start <= e.end <= |tokens| == |slots| && Resident(gpu[..], tokens, slots, e.start, e.end)
      requires |Rows(kv, tokens[..e.end], e.start)| == o.rawLen
      modifies storage.cpu.allocator.buffer
      ensures Valid() && storage.cpu.allocator.Read(o) == Rows(kv, tokens[..e.end], e.start)
      ensures storage.BooksNow() == old(storage.BooksNow())
    {
      hide StorageManager.Valid, Contents.Has, Contents.Within, RowsOf, SoundIn, AllKeyed, Resident, Rows;
      hide Contents.Flying;
      BufferIsApart();
      ghost var s := storage.Now();
      Apart();
      var bytes := FromGpu(gpu, slots, e.start, e.end, tokens);
      storage.Fill(o, bytes);
      SoundWithin(s, stored, storage.Now());
    }

    /** The KV of an entry's positions. */
    ghost function KvOf(tokens: seq<Token>, e: Entry): Bytes {
      if e.end <= |tokens| then Rows(kv, tokens[..e.end], e.start) else []
    }

    /** A put, as the disk is told to take it. */
    ghost function Booked(b: Books, key: CacheEngineKey, bytes: Bytes, policy: DiskPolicy): Books {
      b.Put(key, bytes, storage.disk != null && policy.legal, policy.evictKeys)
    }

    /** Hands a filled object to the storage. */
    method PutChunk(o: TensorMemoryObj, ghost p: seq<Token>, key: CacheEngineKey, policy: DiskPolicy)
      requires Valid() && o in storage.handles && db.Keyed(p) && IsChunkOf(p, key, storage.cpu.allocator.Read(o))
      modifies this`stored, storage.Frame()
      ensures Valid() && storage.handles == old(storage.handles) - multiset{o} && stored == old(stored) + {p}
      ensures storage.cpu.useHot && key !in old(storage.Tasks()) ==> key in storage.cpu.hot
      ensures old(storage.cpu.hot).Keys <= storage.cpu.hot.Keys
      ensures storage.cpu.allocator.live <= old(storage.cpu.allocator.live)
      ensures fresh(storage.cpu.allocator.blocks - old(storage.cpu.allocator.blocks))
      ensures old(storage.cpu.leaked) <= storage.cpu.leaked
      ensures storage.BooksNow() == if key in old(storage.Tasks()) then old(storage.BooksNow())
          else Booked(old(storage.BooksNow()), key, old(storage.cpu.allocator.Read(o)), policy)
      ensures storage.cpu.hot.Keys <= old(storage.cpu.hot).Keys + {key}
      ensures old(storage.cpu.Unpinned()) ==> storage.cpu.Unpinned()
      ensures storage.Files().Keys <= old(storage.Files()).Keys
      ensures storage.Tasks().Keys <= old(storage.Tasks()).Keys + {key}
    {
      hide StorageManager.Valid, Contents.Has, Contents.WithinOr, RowsOf, IsChunkOf, SoundIn;
      hide ChunkedTokenDatabase.Keyed;
      ghost var s, st, bytes := storage.Now(), stored, storage.cpu.allocator.Read(o);
      Apart();
      storage.Put(key, o, policy.legal, policy.evictKeys);
      stored := stored + {p};
      SoundWith(s, st, storage.Now(), p, key, bytes);
    }

    /** room bytes are free in a row. */
    ghost predicate Roomy(live: set<TensorMemoryObj>, room: nat) {
      !NoRun(live, storage.cpu.allocator.buffer.Length, room)
    }

    /** The bytes of an entry's KV, and the memory they take. */
    function RawSize(e: Entry): (r: nat)
      requires e.start <= e.end
      ensures e.start < e.end ==> 0 < r
    {
      (e.end - e.start) * rowBytes
    }

    ghost function SizeOf(e: Entry): nat
      requires e.start <= e.end
    {
      storage.cpu.allocator.SizeFor(RawSize(e))
    }

    lemma RoomLeft(before: set<TensorMemoryObj>, room: nat, rawSize: nat, r: Option<TensorMemoryObj>)
      requires Roomy(before, room) && 0 < rawSize && storage.cpu.allocator.SizeFor(rawSize) <= room
      ensures Roomy(before, storage.cpu.allocator.SizeFor(rawSize))
      ensures storage.TakenDirectly(before, r, storage.cpu.allocator.SizeFor(rawSize)) ==>
                r.Some? && Roomy(storage.cpu.allocator.live, room - storage.cpu.allocator.SizeFor(rawSize))
    {
      hide NoRun, LowestFree;
      var n, size := storage.cpu.allocator.buffer.Length, storage.cpu.allocator.SizeFor(rawSize);
      RunKept(before, before, n, room, size);
      if storage.TakenDirectly(before, r, size) {
        storage.cpu.allocator.SizeForIsClose(rawSize);
        RunLeft(before, n, room, size, r.value);
      }
    }

    /** Takes memory for a chunk; where there is room for it, nothing is evicted. */
    method TakeMemory(e: Entry, ghost room: nat) returns (r: Option<TensorMemoryObj>)
      requires Valid() && e.start < e.end
      modifies storage.Frame()
      ensures Valid()
      ensures r.None? ==> storage.handles == old(storage.handles)
      ensures r.Some? ==> storage.handles == old(storage.handles) + multiset{r.value}
      ensures r.Some? ==> storage.cpu.refs[r.value] == 1 && r.value.rawLen == RawSize(e)
      ensures r.None? ==> NoRoom(e)
      ensures storage.Tasks() == old(storage.Tasks()) && stored == old(stored)
      ensures Roomy(old(storage.cpu.allocator.live), room) && SizeOf(e) <= room ==>
                && r.Some? && storage.cpu.hot == old(storage.cpu.hot)
                && Roomy(storage.cpu.allocator.live, room - SizeOf(e))
      ensures fresh(storage.cpu.allocator.live - old(storage.cpu.allocator.live))
      ensures fresh(storage.cpu.allocator.blocks - old(storage.cpu.allocator.blocks))
      ensures old(storage.cpu.leaked) <= storage.cpu.leaked
      ensures storage.BooksNow() == old(storage.BooksNow()) && storage.Files() == old(storage.Files())
      ensures storage.cpu.hot.Keys <= old(storage.cpu.hot).Keys
      ensures LeastRecent(old(storage.cpu.hot), old(storage.cpu.refs), storage.cpu.hot, old(storage.uses))
      ensures old(storage.cpu.Unpinned()) ==> storage.cpu.Unpinned()
    {
      hide StorageManager.Valid, Contents.Has, Contents.Within, RowsOf, IsChunkOf, SoundIn, LocalCPUBackend.Allocated;
      hide NoRun, StorageManager.TakenDirectly, KeySet, Cands, RawSize, LeastRecent, Contents.Flying, ByUse;
      hide LocalCPUBackend.Unpinned;
      ghost var s, live := storage.Now(), storage.cpu.allocator.live;
      ghost var evicted;
      r, evicted := storage.Allocate(RawSize(e));
      SoundWithin(s, stored, storage.Now());
      NoneEvicted(s.hot);
      if Roomy(live, room) && SizeOf(e) <= room {
        RoomLeft(live, room, RawSize(e), r);
      }
    }

    static lemma NoneEvicted(hot: Hot)
      ensures hot - KeySet([]) == hot
    {
    }

    /** Fills newly allocated memory and hands it to the storage; handles are what remains to the callers, and
        room what there is room for besides. */
    method StoreInto(o: TensorMemoryObj, tokens: seq<Token>, e: Entry, gpu: array<Bytes>, slots: seq<int>,
        policy: DiskPolicy, ghost handles: Refs, ghost room: nat)
      requires Valid() && storage.handles == handles + multiset{o} && storage.cpu.refs[o] == 1
      requires IsEntry(db, tokens, e) && |slots| == |tokens| && Resident(gpu[..], tokens, slots, e.start, e.end)
      requires o.rawLen == RawSize(e)
      modifies this`stored, storage.Frame(), storage.cpu.allocator.buffer
      ensures Valid() && storage.handles == handles && stored == old(stored) + {tokens[..e.end]}
      ensures storage.cpu.useHot && e.key !in old(storage.Tasks()) ==> e.key in storage.cpu.hot
      ensures old(storage.cpu.hot).Keys <= storage.cpu.hot.Keys
      ensures storage.cpu.allocator.live <= old(storage.cpu.allocator.live)
      ensures Roomy(old(storage.cpu.allocator.live), room) ==> Roomy(storage.cpu.allocator.live, room)
      ensures fresh(storage.cpu.allocator.blocks - old(storage.cpu.allocator.blocks))
      ensures old(storage.cpu.leaked) <= storage.cpu.leaked
      ensures storage.BooksNow() == if e.key in old(storage.Tasks()) then old(storage.BooksNow())
          else Booked(old(storage.BooksNow()), e.key, KvOf(tokens, e), policy)
      ensures storage.cpu.hot.Keys <= old(storage.cpu.hot).Keys + {e.key}
      ensures old(storage.cpu.Unpinned()) ==> storage.cpu.Unpinned()
      ensures storage.Files().Keys <= old(storage.Files()).Keys
      ensures storage.Tasks().Keys <= old(storage.Tasks()).Keys + {e.key}
    {
      hide Valid, IsChunkOf, ChunkedTokenDatabase.Keyed, Resident, LastStart, PrefixHash, Aligned, Rows, Roomy;
      hide RawSize, StorageManager.BooksNow, Booked;
      Apart();
      BufferIsApart();
      TakeAndGive(handles, o);
      ghost var live := storage.cpu.allocator.live;
      EntryRows(tokens, e);
      FillChunk(o, e, gpu, slots, tokens);
      PutChunk(o, tokens[..e.end], e.key, policy);
      StillRoomy(live, storage.cpu.allocator.live, room);
    }

    /** Stores one chunk that is not cached yet; fails if no memory can be had.  Where there is room for the
        chunk, it is stored and nothing that was cached goes. */
    method StoreEntry(tokens: seq<Token>, e: Entry, gpu: array<Bytes>, slots: seq<int>, policy: DiskPolicy,
        ghost room: nat) returns (ok: bool)
      requires Valid() && IsEntry(db, tokens, e) && |slots| == |tokens|
      requires Resident(gpu[..], tokens, slots, e.start, e.end)
      modifies this`stored, storage.Frame(), storage.cpu.allocator.buffer
      ensures Valid() && storage.handles == old(storage.handles)
      ensures stored == if ok then old(stored) + {tokens[..e.end]} else old(stored)
      ensures ok && storage.cpu.useHot && e.key !in old(storage.Tasks()) ==> e.key in storage.cpu.hot
      ensures !ok ==> NoRoom(e)
      ensures Roomy(old(storage.cpu.allocator.live), room) && SizeOf(e) <= room ==>
                && ok && old(storage.cpu.hot).Keys <= storage.cpu.hot.Keys
                && Roomy(storage.cpu.allocator.live, room - SizeOf(e))
      ensures fresh(storage.cpu.allocator.live - old(storage.cpu.allocator.live))
      ensures fresh(storage.cpu.allocator.blocks - old(storage.cpu.allocator.blocks))
      ensures old(storage.cpu.leaked) <= storage.cpu.leaked
      ensures storage.BooksNow() == if !ok || e.key in old(storage.Tasks()) then old(storage.BooksNow())
          else Booked(old(storage.BooksNow()), e.key, KvOf(tokens, e), policy)
      ensures storage.cpu.hot.Keys <= old(storage.cpu.hot).Keys + if ok then {e.key} else {}
      ensures e.key !in old(storage.cpu.hot) ==>
                LeastRecent(old(storage.cpu.hot), old(storage.cpu.refs), storage.cpu.hot, old(storage.uses))
      ensures old(storage.cpu.Unpinned()) ==> storage.cpu.Unpinned()
      ensures storage.Files().Keys <= old(storage.Files()).Keys
      ensures storage.Tasks().Keys <= old(storage.Tasks()).Keys + if ok then {e.key} else {}
    {
      hide *;
      EntryIsRange(tokens, e);
      BufferIsApart();
      storage.FrameIs();
      ghost var handles, g := storage.handles, gpu[..];
      ghost var hot0, refs0, uses0 := storage.cpu.hot, storage.cpu.refs, storage.uses;
      GpuIsApart(gpu);
      var r := TakeMemory(e, room);
      ok := r.Some?;
      if ok {
        assert gpu[..] == g;
        storage.FrameIs();
        ghost var blocks, hot := storage.cpu.allocator.blocks, storage.cpu.hot;
        StoreInto(r.value, tokens, e, gpu, slots, policy, handles, if SizeOf(e) <= room then room - SizeOf(e) else 0);
        assert fresh(storage.cpu.allocator.blocks - blocks);
        if e.key !in hot0 { StillLeastRecent(hot0, refs0, hot, uses0, e.key, storage.cpu.hot); }
      }
    }

    lemma EntryIsRange(tokens: seq<Token>, e: Entry)
      requires IsEntry(db, tokens, e)
      ensures e.start < e.end <= |tokens|
    {
    }

    lemma StillRoomy(before: set<TensorMemoryObj>, live: set<TensorMemoryObj>, room: nat)
      requires live <= before
      ensures Roomy(before, room) ==> Roomy(live, room)
    {
      hide NoRun;
      if Roomy(before, room) { RunKept(live, before, storage.cpu.allocator.buffer.Length, room, room); }
    }

    static lemma TakeAndGive(refs: Refs, o: TensorMemoryObj)
      ensures refs + multiset{o} - multiset{o} == refs
    {
    }

    lemma EntryRows(tokens: seq<Token>, e: Entry)
      requires Valid() && IsEntry(db, tokens, e)
      ensures |Rows(kv, tokens[..e.end], e.start)| == RawSize(e)
      ensures IsChunkOf(tokens[..e.end], e.key, Rows(kv, tokens[..e.end], e.start))
    {
      hide StorageManager.Valid, Contents.Has, PrefixHash, Rows;
      RowsLength(kv, rowBytes, tokens[..e.end], e.start);
    }

    lemma CachedIsKnown(key: CacheEngineKey)
      requires Valid() && storage.Contains(key)
      ensures Known(stored, key)
    {
      hide StorageManager.Valid, Contents.Has, SoundIn, RowsOf, Known;
      storage.ContainedHas(key);
      var b :| storage.Has(key, b);
      FoundIsKnown(key, b);
    }

    lemma StoredIsKnown(p: seq<Token>)
      requires p in stored && p != []
      ensures Known(stored, db.Key(p))
    {
    }

    /** One step of a store: a chunk that is cached already is skipped. */
    method StoreNext(tokens: seq<Token>, e: Entry, gpu: array<Bytes>, slots: seq<int>, policy: DiskPolicy,
        ghost room: nat) returns (ok: bool)
      requires Valid() && IsEntry(db, tokens, e) && |slots| == |tokens|
      requires Resident(gpu[..], tokens, slots, e.start, e.end)
      modifies this`stored, storage.Frame(), storage.cpu.allocator.buffer
      ensures Valid() && storage.handles == old(storage.handles) && gpu[..] == old(gpu[..])
      ensures old(stored) <= stored <= old(stored) + {tokens[..e.end]}
      ensures ok ==> Known(stored, e.key)
      ensures ok && storage.cpu.useHot && e.key !in old(storage.Tasks()) ==>
                e.key in storage.cpu.hot || e.key in storage.Files()
      ensures !ok ==> NoRoom(e)
      ensures Roomy(old(storage.cpu.allocator.live), room) && SizeOf(e) <= room ==>
                && ok && old(storage.cpu.hot).Keys <= storage.cpu.hot.Keys
                && Roomy(storage.cpu.allocator.live, room - SizeOf(e))
      ensures fresh(storage.cpu.allocator.live - old(storage.cpu.allocator.live))
      ensures fresh(storage.cpu.allocator.blocks - old(storage.cpu.allocator.blocks))
      ensures old(storage.cpu.leaked) <= storage.cpu.leaked
      ensures storage.BooksNow() == if !ok || e.key in old(storage.Now().Keys()) then old(storage.BooksNow())
          else Booked(old(storage.BooksNow()), e.key, KvOf(tokens, e), policy)
      ensures storage.Now().Keys() <= old(storage.Now().Keys()) + if ok then {e.key} else {}
      ensures LeastRecent(old(storage.cpu.hot), old(storage.cpu.refs), storage.cpu.hot, old(storage.uses))
      ensures old(storage.cpu.Unpinned()) ==> storage.cpu.Unpinned()
    {
      hide Valid, Resident, PrefixHash, LastStart, Known, Roomy, Aligned, Contents.Keys, Booked, LeastRecent, Rows;
      hide StorageManager.BooksNow;
      ghost var s := storage.Now();
      KeysIn(s, e.key);
      KeysGrow(s, s, {});
      if SizeOf(e) <= room { LessRoom(storage.cpu.allocator.live, room, SizeOf(e)); }
      var found := storage.Contains(e.key);
      ok := true;
      if found {
        CachedIsKnown(e.key);
        NoneGone(storage.cpu.hot, storage.cpu.refs, storage.cpu.hot, storage.uses);
      } else {
        GpuIsApart(gpu);
        ok := StoreEntry(tokens, e, gpu, slots, policy, room);
        KeysGrow(s, storage.Now(), if ok then {e.key} else {});
        if ok { StoredIsKnown(tokens[..e.end]); }
      }
    }

    lemma LessRoom(live: set<TensorMemoryObj>, room: nat, less: nat)
      requires less <= room
      ensures Roomy(live, room) ==> Roomy(live, room - less)
    {
      hide NoRun;
      if Roomy(live, room) { RunKept(live, live, storage.cpu.allocator.buffer.Length, room, room - less); }
    }

    /** How far a store has got: every chunk dealt with was handed to the storage under its key at some time;
        if not ok, the last one found no room. */
    ghost predicate StoredSoFar(es: seq<Entry>, i: nat, ok: bool)
      reads this, storage, storage.cpu, storage.cpu.allocator
    {
      && i <= |es|
      && (ok ==> AllKnown(stored, es, i))
      && (ok && i > 0 && storage.cpu.useHot && storage.disk == null ==> es[i - 1].key in storage.cpu.hot)
      && (!ok ==> i > 0 && AllKnown(stored, es, i - 1)
                  && es[i - 1].start <= es[i - 1].end && NoRoom(es[i - 1]))
    }

    /** The memory the entries from the i-th on take, laid end to end. */
    ghost function Need(es: seq<Entry>, i: nat): nat
      requires i <= |es| && Ranges(es)
      decreases |es| - i
    {
      if i == |es| then 0 else SizeOf(es[i]) + Need(es, i + 1)
    }

    /** A store that had room for everything and for spare bytes besides: nothing is lost, and with the host
        cache alone every chunk dealt with is cached. */
    ghost predicate AllFit(es: seq<Entry>, i: nat, ok: bool, hot0: set<CacheEngineKey>, spare: nat)
      requires Ranges(es)
      reads storage, storage.cpu, storage.cpu.allocator
    {
      && i <= |es| && ok && hot0 <= storage.cpu.hot.Keys && Roomy(storage.cpu.allocator.live, Need(es, i) + spare)
      && (storage.cpu.useHot && storage.disk == null ==> forall j :: 0 <= j < i ==> es[j].key in storage.cpu.hot)
    }

    lemma SoFarStep(before: set<seq<Token>>, es: seq<Entry>, i: nat, ok: bool)
      requires i < |es| && AllKnown(before, es, i) && before <= stored && es[i].start <= es[i].end
      requires ok ==> Known(stored, es[i].key)
      requires ok && storage.cpu.useHot && storage.disk == null ==> es[i].key in storage.cpu.hot
      requires !ok ==> NoRoom(es[i])
      ensures StoredSoFar(es, i + 1, ok)
    {
      hide Known, NoRun;
      MoreKnown(before, stored, es, i);
    }

    lemma FitStep(es: seq<Entry>, i: nat, ok: bool, before: set<CacheEngineKey>, hot0: set<CacheEngineKey>,
        spare: nat)
      requires Ranges(es) && i < |es| && hot0 <= before <= storage.cpu.hot.Keys && ok
      requires storage.cpu.useHot && storage.disk == null ==>
                 es[i].key in storage.cpu.hot && forall j :: 0 <= j < i ==> es[j].key in before
      requires Roomy(storage.cpu.allocator.live, Need(es, i) + spare - SizeOf(es[i]))
      ensures AllFit(es, i + 1, ok, hot0, spare)
    {
      hide Roomy;
    }

    lemma Fits(es: seq<Entry>, i: nat, ok: bool, hot0: set<CacheEngineKey>, spare: nat)
      requires Ranges(es) && AllFit(es, i, ok, hot0, spare) && i < |es|
      ensures Roomy(storage.cpu.allocator.live, Need(es, i) + spare) && SizeOf(es[i]) <= Need(es, i)
      ensures hot0 <= storage.cpu.hot.Keys
      ensures storage.cpu.useHot && storage.disk == null ==> forall j :: 0 <= j < i ==> es[j].key in storage.cpu.hot
    {
      hide Roomy;
    }

    lemma FitStart(es: seq<Entry>, spare: nat)
      requires Ranges(es) && Roomy(storage.cpu.allocator.live, Need(es, 0) + spare)
      ensures AllFit(es, 0, true, storage.cpu.hot.Keys, spare)
    {
      hide Roomy;
    }

    static ghost function KeysAt(es: seq<Entry>, put: seq<nat>): set<CacheEngineKey>
      requires forall i :: 0 <= i < |put| ==> put[i] < |es|
    {
      set i | 0 <= i < |put| :: es[put[i]].key
    }

    static ghost predicate Ascending(put: seq<nat>, n: nat) {
      (forall i :: 0 <= i < |put| ==> put[i] < n) && forall i, j :: 0 <= i < j < |put| ==> put[i] < put[j]
    }

    /** The books after putting some of the entries, one after the other. */
    ghost function AfterPuts(b: Books, tokens: seq<Token>, es: seq<Entry>, put: seq<nat>,
        policy: CacheEngineKey -> DiskPolicy): Books
      requires forall i :: 0 <= i < |put| ==> put[i] < |es|
    {
      if put == [] then b
      else
        var init, e := put[..|put| - 1], es[put[|put| - 1]];
        Booked(AfterPuts(b, tokens, es, init, policy), e.key, KvOf(tokens, e), policy(e.key))
    }

    /** Of the first n entries exactly those at put were put; the others had been put already, or were there or being
        written to begin with. */
    ghost predicate Putting(b0: Books, had: set<CacheEngineKey>, b: Books, now: set<CacheEngineKey>, tokens: seq<Token>,
        es: seq<Entry>, n: nat, put: seq<nat>, policy: CacheEngineKey -> DiskPolicy)
      requires n <= |es|
    {
      && Ascending(put, n) && b == AfterPuts(b0, tokens, es, put, policy)
      && now <= had + KeysAt(es, put)
      && forall j :: 0 <= j < n ==> j in put || es[j].key in had + KeysAt(es, put)
    }

    lemma NonePut(b0: Books, had: set<CacheEngineKey>, tokens: seq<Token>, es: seq<Entry>,
        policy: CacheEngineKey -> DiskPolicy)
      ensures Putting(b0, had, b0, had, tokens, es, 0, [], policy)
    {
    }

    lemma PutMore(b0: Books, had: set<CacheEngineKey>, b: Books, now: set<CacheEngineKey>, tokens: seq<Token>,
        es: seq<Entry>, n: nat, put: seq<nat>, policy: CacheEngineKey -> DiskPolicy, now': set<CacheEngineKey>)
      requires n < |es| && Putting(b0, had, b, now, tokens, es, n, put, policy) && now' <= now + {es[n].key}
      ensures es[n].key in now ==> Putting(b0, had, b, now', tokens, es, n + 1, put, policy)
      ensures es[n].key !in now ==> Putting(b0, had, Booked(b, es[n].key, KvOf(tokens, es[n]), policy(es[n].key)), now',
          tokens, es, n + 1, put + [n], policy)
    {
      hide Booked, KvOf, KeysAt, AfterPuts, Ascending;
      InRange(put, n, |es|);
      AscendingMore(put, n);
      InRange(put + [n], n + 1, |es|);
      OneMoreKey(es, put, n);
      AfterOneMore(b0, tokens, es, put, n, policy);
    }

    static lemma InRange(put: seq<nat>, n: nat, m: nat)
      requires Ascending(put, n) && n <= m
      ensures forall i :: 0 <= i < |put| ==> put[i] < m
    {
    }

    static lemma AscendingMore(put: seq<nat>, n: nat)
      requires Ascending(put, n)
      ensures Ascending(put, n + 1) && Ascending(put + [n], n + 1)
    {
    }

    lemma AfterOneMore(b: Books, tokens: seq<Token>, es: seq<Entry>, put: seq<nat>, n: nat,
        policy: CacheEngineKey -> DiskPolicy)
      requires n < |es| && forall i :: 0 <= i < |put| ==> put[i] < |es|
      ensures AfterPuts(b, tokens, es, put + [n], policy) ==
              Booked(AfterPuts(b, tokens, es, put, policy), es[n].key, KvOf(tokens, es[n]), policy(es[n].key))
    {
      hide Booked, KvOf;
      assert (put + [n])[..|put|] == put;
    }

    static lemma OneMoreKey(es: seq<Entry>, put: seq<nat>, n: nat)
      requires n < |es| && forall i :: 0 <= i < |put| ==> put[i] < |es|
      ensures forall j :: j in put + [n] <==> j in put || j == n
      ensures KeysAt(es, put + [n]) == KeysAt(es, put) + {es[n].key}
    {
      var more := put + [n];
      assert more[|put|] == n && forall i :: 0 <= i < |put| ==> more[i] == put[i];
      forall k | k in KeysAt(es, put) ensures k in KeysAt(es, more) {
        var i :| 0 <= i < |put| && k == es[put[i]].key;
        assert k == es[more[i]].key;
      }
      assert es[more[|put|]].key == es[n].key;
    }

    /** What one more step does. */
    lemma PutStep(b0: Books, had: set<CacheEngineKey>, b: Books, now: set<CacheEngineKey>, tokens: seq<Token>,
        es: seq<Entry>, n: nat, put: seq<nat>, policy: CacheEngineKey -> DiskPolicy, ok: bool, b': Books,
        now': set<CacheEngineKey>)
      requires n < |es| && Putting(b0, had, b, now, tokens, es, n, put, policy)
      requires now' <= now + if ok then {es[n].key} else {}
      requires b' == if !ok || es[n].key in now then b else Booked(b, es[n].key, KvOf(tokens, es[n]), policy(es[n].key))
      ensures Putting(b0, had, b', now', tokens, es, if ok then n + 1 else n,
                  if ok && es[n].key !in now then put + [n] else put, policy)
    {
      hide Booked, KvOf, AfterPuts;
      if ok { PutMore(b0, had, b, now, tokens, es, n, put, policy, now'); }
    }

    /** The k-th step of a store. */
    method StoreStep(tokens: seq<Token>, es: seq<Entry>, k: nat, ghost f: nat, gpu: array<Bytes>, slots: seq<int>,
                     policy: CacheEngineKey -> DiskPolicy, ghost hot0: set<CacheEngineKey>, ghost room: bool,
                     ghost spare: nat, ghost b0: Books, ghost had: set<CacheEngineKey>, ghost put: seq<nat>)
      returns (ok: bool, ghost put': seq<nat>)
      requires Valid() && EntriesFrom(db, tokens, f, es) && Ranges(es) && k < |es|
      requires |slots| == |tokens| && Resident(gpu[..], tokens, slots, f, |tokens|)
      requires Putting(b0, had, storage.BooksNow(), storage.Now().Keys(), tokens, es, k, put, policy)
      requires StoredSoFar(es, k, true) && (room ==> AllFit(es, k, true, hot0, spare))
      modifies this`stored, storage.Frame(), storage.cpu.allocator.buffer
      ensures Valid() && storage.handles == old(storage.handles) && gpu[..] == old(gpu[..])
      ensures StoredSoFar(es, k + 1, ok) && (room ==> AllFit(es, k + 1, ok, hot0, spare))
      ensures es[k].end <= |tokens| && EndsEntry(tokens, es, tokens[..es[k].end])
      ensures old(stored) <= stored <= old(stored) + {tokens[..es[k].end]}
      ensures fresh(storage.cpu.allocator.live - old(storage.cpu.allocator.live))
      ensures fresh(storage.cpu.allocator.blocks - old(storage.cpu.allocator.blocks))
      ensures old(storage.cpu.leaked) <= storage.cpu.leaked
      ensures Putting(b0, had, storage.BooksNow(), storage.Now().Keys(), tokens, es, if ok then k + 1 else k, put',
                  policy)
      ensures old(storage.cpu.Unpinned()) ==> storage.cpu.Unpinned()
    {
      hide *;
      EntryIsResident(gpu[..], tokens, slots, f, es, k);
      EntryIsRange(tokens, es[k]);
      EndsOwn(tokens, es, k);
      SoFar(es, k);
      if room { Fits(es, k, true, hot0, spare); }
      ghost var before, hot := stored, storage.cpu.hot.Keys;
      ghost var b, now := storage.BooksNow(), storage.Now().Keys();
      NoTasks();
      ok := StoreNext(tokens, es[k], gpu, slots, policy(es[k].key), Need(es, k) + spare);
      NoTasks();
      PutStep(b0, had, b, now, tokens, es, k, put, policy, ok, storage.BooksNow(), storage.Now().Keys());
      put' := if ok && es[k].key !in now then put + [k] else put;
      SoFarStep(before, es, k, ok);
      if room { FitStep(es, k, ok, hot, hot0, spare); }
    }

    static lemma EndsOwn(tokens: seq<Token>, es: seq<Entry>, k: nat)
      requires k < |es| && es[k].end <= |tokens|
      ensures EndsEntry(tokens, es, tokens[..es[k].end])
    {
    }

    /** Stores chunk after chunk, stopping when no memory can be had; put says which chunks were put, the others
        that were dealt with having been there or on their way. */
    method StoreAll(tokens: seq<Token>, es: seq<Entry>, ghost f: nat, gpu: array<Bytes>, slots: seq<int>,
                    policy: CacheEngineKey -> DiskPolicy, ghost spare: nat)
      returns (ok: bool, ghost i: nat, ghost put: seq<nat>)
      requires Valid() && EntriesFrom(db, tokens, f, es) && Ranges(es)
      requires |slots| == |tokens| && Resident(gpu[..], tokens, slots, f, |tokens|)
      modifies this`stored, storage.Frame(), storage.cpu.allocator.buffer
      ensures Valid() && storage.handles == old(storage.handles) && gpu[..] == old(gpu[..])
      ensures StoredSoFar(es, i, ok) && i <= |es| && (ok ==> i == |es|) && (!ok ==> 0 < i) && old(stored) <= stored
      ensures Roomy(old(storage.cpu.allocator.live), Need(es, 0) + spare) ==>
                i == |es| && AllFit(es, i, ok, old(storage.cpu.hot).Keys, spare)
      ensures forall p :: p in stored && p !in old(stored) ==> p <= tokens && EndsEntry(tokens, es, p)
      ensures fresh(storage.cpu.allocator.live - old(storage.cpu.allocator.live))
      ensures fresh(storage.cpu.allocator.blocks - old(storage.cpu.allocator.blocks))
      ensures old(storage.cpu.leaked) <= storage.cpu.leaked
      ensures old(storage.cpu.Unpinned()) ==> storage.cpu.Unpinned()
      ensures Putting(old(storage.BooksNow()), old(storage.Now().Keys()), storage.BooksNow(), storage.Now().Keys(),
          tokens, es, if ok then i else i - 1, put, policy)
    {
      hide *;
      ghost var live0, blocks0 := storage.cpu.allocator.live, storage.cpu.allocator.blocks;
      ghost var hot0, room := storage.cpu.hot.Keys, Roomy(storage.cpu.allocator.live, Need(es, 0) + spare);
      ghost var b0, had := storage.BooksNow(), storage.Now().Keys();
      ok, put := true, [];
      var k: nat := 0;
      NoneKnown(es);
      NonePut(b0, had, tokens, es, policy);
      storage.FrameIs();
      if room { FitStart(es, spare); }
      while k < |es| && ok
        invariant k <= |es| && StoredSoFar(es, k, ok) && (room ==> AllFit(es, k, ok, hot0, spare)) && (!ok ==> 0 < k)
        invariant old(storage.cpu.leaked) <= storage.cpu.leaked
        invariant Valid() && storage.handles == old(storage.handles) && gpu[..] == old(gpu[..])
        invariant old(stored) <= stored
        invariant forall p :: p in stored && p !in old(stored) ==> p <= tokens && EndsEntry(tokens, es, p)
        invariant fresh(storage.cpu.allocator.live - live0) && fresh(storage.cpu.allocator.blocks - blocks0)
        invariant old(storage.cpu.Unpinned()) ==> storage.cpu.Unpinned()
        invariant Putting(b0, had, storage.BooksNow(), storage.Now().Keys(), tokens, es, if ok then k else k - 1, put,
                      policy)
      {
        storage.FrameIs();
        ok, put := StoreStep(tokens, es, k, f, gpu, slots, policy, hot0, room, spare, b0, had, put);
        k := k + 1;
      }
      if room { FitOk(es, k, ok, hot0, spare); }
      i := k;
    }

    lemma FitOk(es: seq<Entry>, i: nat, ok: bool, hot0: set<CacheEngineKey>, spare: nat)
      requires Ranges(es) && AllFit(es, i, ok, hot0, spare)
      ensures ok
    {
    }

    lemma SoFar(es: seq<Entry>, i: nat)
      requires StoredSoFar(es, i, true)
      ensures i <= |es| && AllKnown(stored, es, i)
    {
    }

    lemma NoTasks()
      ensures storage.disk == null ==> storage.Tasks() == map[] && storage.Files() == map[]
    {
    }

    /** Stores the KV of a sequence, chunk by chunk, stopping when no memory can be had.  Reports None if
        the masked prefix is not whole chunks, else whether every chunk was dealt with.  Where enough memory
        is free in a row every chunk is, nothing that was cached goes, and what was free besides still is. */
    method Store(tokens: seq<Token>, mask: seq<bool>, gpu: array<Bytes>, slots: seq<int>,
        policy: CacheEngineKey -> DiskPolicy, ghost spare: nat)
      returns (r: Option<bool>, ghost i: nat, ghost put: seq<nat>)
      requires Valid() && |slots| == |tokens| && Resident(gpu[..], tokens, slots, NumFalses(mask), |tokens|)
      modifies this`stored, storage.Frame(), storage.cpu.allocator.buffer
      ensures Valid() && storage.handles == old(storage.handles) && gpu[..] == old(gpu[..])
      ensures r.None? <==> !Aligned(NumFalses(mask), db.chunkSize)
      ensures var es := db.Entries(tokens, NumFalses(mask));
              r.Some? ==> StoredSoFar(es, i, r.value) && (r.value ==> i == |es|)
      ensures var es := db.Entries(tokens, NumFalses(mask));
              r.Some? ==> Ranges(es) && (Roomy(old(storage.cpu.allocator.live), Need(es, 0) + spare) ==>
                i == |es| && AllFit(es, i, r.value, old(storage.cpu.hot).Keys, spare))
      ensures old(stored) <= stored
      ensures forall p :: p in stored && p !in old(stored) ==>
                            p <= tokens && EndsEntry(tokens, db.Entries(tokens, NumFalses(mask)), p)
      ensures fresh(storage.cpu.allocator.live - old(storage.cpu.allocator.live))
      ensures fresh(storage.cpu.allocator.blocks - old(storage.cpu.allocator.blocks))
      ensures old(storage.cpu.leaked) <= storage.cpu.leaked
      ensures old(storage.cpu.Unpinned()) ==> storage.cpu.Unpinned()
      ensures r.None? ==> storage.BooksNow() == old(storage.BooksNow())
      ensures var es := db.Entries(tokens, NumFalses(mask));
              r.Some? ==> i <= |es| && (r.value || 0 < i)
      ensures var es := db.Entries(tokens, NumFalses(mask));
              r.Some? ==> Putting(old(storage.BooksNow()), old(storage.Now().Keys()), storage.BooksNow(),
                storage.Now().Keys(), tokens, es, if r.value then i else i - 1, put, policy)
    {
      hide *;
      storage.FrameIs();
      var entries := db.ProcessTokens(tokens, mask);
      r, i, put := None, 0, [];
      if entries.Some? {
        EntriesAreConsecutive(db, tokens, NumFalses(mask));
        EntriesAreRanges(db, tokens, NumFalses(mask), entries.value);
        var ok;
        ok, i, put := StoreAll(tokens, entries.value, NumFalses(mask), gpu, slots, policy, spare);
        r := Some(ok);
      }
    }

    lemma NoneKnown(es: seq<Entry>)
      ensures StoredSoFar(es, 0, true)
    {
    }

    lemma {:induction false} EntryIsResident(g: seq<Bytes>, tokens: seq<Token>, slots: seq<int>, f: nat,
        es: seq<Entry>, i: nat)
      requires |slots| == |tokens| && Resident(g, tokens, slots, f, |tokens|)
      requires EntriesFrom(db, tokens, f, es) && i < |es|
      ensures IsEntry(db, tokens, es[i]) && f <= es[i].start <= es[i].end
      ensures Resident(g, tokens, slots, es[i].start, es[i].end)
    {
      if i > 0 {
        EntryIsResident(g, tokens, slots, f, es, i - 1);
        assert es[i].start == es[i - 1].end;
      }
    }

    // -------------------------------------------------------------- retrieve

    /** No stored prefix other than its own has the key of a keyed prefix of these tokens. */
    ghost predicate NoConfusion(tokens: seq<Token>)
      reads this
    {
      forall p, n :: p in stored && p != [] && 0 < n <= |tokens| && db.Keyed(tokens[..n]) ==>
                       db.Key(p) == db.Key(tokens[..n]) ==> p == tokens[..n]
    }

    /** All hashed inputs behind the stored prefixes and the keyed prefixes of these tokens. */
    ghost predicate CollisionFree(tokens: seq<Token>)
      reads this
    {
      forall p, n :: p in stored && p != [] && 0 < n <= |tokens| && db.Keyed(tokens[..n]) ==>
                       db.NoCollision(p, tokens[..n])
    }

    /** Only whole chunks are stored, or chunks are short, or all token ids concerned are small. */
    ghost predicate NothingSpelled(tokens: seq<Token>)
      reads this
    {
      !db.saveUnfullChunk || db.chunkSize <= 16 || (SmallTokens(tokens) && forall p :: p in stored ==> SmallTokens(p))
    }

    /** What it takes besides a digest without collisions on what was hashed. */
    lemma KeysAreNotConfused(tokens: seq<Token>)
      requires Valid() && HexDigests(db.hash) && CollisionFree(tokens) && NothingSpelled(tokens)
      ensures NoConfusion(tokens)
    {
      hide StorageManager.Valid, SoundIn, RowsOf, HexDigests;
      forall p, n | && p in stored && p != [] && 0 < n <= |tokens|
                    && db.Keyed(tokens[..n]) && db.Key(p) == db.Key(tokens[..n])
        ensures p == tokens[..n]
      {
        PrefixesApart(p, tokens, n);
        KeysDeterminePrefixes(db.hash, db.chunkSize, p, tokens[..n]);
      }
    }

    lemma PrefixesApart(p: seq<Token>, tokens: seq<Token>, n: nat)
      requires AllKeyed() && NothingSpelled(tokens) && p in stored && 0 < n <= |tokens| && db.Keyed(tokens[..n])
      ensures TokenDatabase.Apart(db.chunkSize, p, tokens[..n])
    {
      if !db.saveUnfullChunk || db.chunkSize <= 16 {
        NotSpellable(db.chunkSize, p);
        NotSpellable(db.chunkSize, tokens[..n]);
      }
    }

    /** What any backend has under an entry's key is the KV of the entry's own positions. */
    lemma ContentsAreKv(s: Contents, tokens: seq<Token>, e: Entry, b: Bytes)
      requires SoundIn(s, stored) && NoConfusion(tokens) && IsEntry(db, tokens, e) && s.Has(e.key, b)
      ensures b == Rows(kv, tokens[..e.end], e.start)
    {
      hide Contents.Has, Rows, PrefixHash;
      var p :| p in stored && IsChunkOf(p, e.key, b);
      assert p == tokens[..e.end];
    }

    /** Writes consecutive rows to the slots of positions start to end. */
    method ToGpu(gpu: array<Bytes>, slots: seq<int>, start: nat, end: nat, bytes: Bytes, ghost tokens: seq<Token>)
      requires start <= end <= |tokens| == |slots| && RowsOf(kv, rowBytes) && bytes == Rows(kv, tokens[..end], start)
      requires forall p :: 0 <= p < |slots| ==> slots[p] < gpu.Length
      modifies gpu
      ensures gpu[..] == Scattered(kv, tokens, slots, start, end, old(gpu[..]))
    {
      var rest := bytes;
      for p := start to end
        invariant rest == Rows(kv, tokens[..end], p)
        invariant gpu[..] == Scattered(kv, tokens, slots, start, p, old(gpu[..]))
      {
        assert tokens[..end][..p + 1] == tokens[..p + 1];
        var row := rest[..rowBytes];
        rest := rest[rowBytes..];
        if slots[p] >= 0 {
          gpu[slots[p]] := row;
        }
      }
    }

    /** The key is not cached, and the disk does not have it or what it has fits nowhere in memory. */
    ghost predicate Missing(key: CacheEngineKey)
      reads storage, storage.disk, storage.cpu, storage.cpu.allocator
    {
      key !in storage.cpu.hot && storage.NoRoomFor(key)
    }

    /** Takes a reference to whatever some backend has under a key. */
    method Fetch(key: CacheEngineKey) returns (r: Option<TensorMemoryObj>)
      requires Valid()
      modifies storage.Frame(), storage.cpu.allocator.buffer
      ensures Valid() && stored == old(stored)
      ensures storage.handles == if r.Some? then old(storage.handles) + multiset{r.value} else old(storage.handles)
      ensures r.Some? ==> old(storage.Now()).Has(key, storage.cpu.allocator.Read(r.value))
      ensures storage.disk == null ==> storage.cpu.hot == old(storage.cpu.hot) && (r.Some? <==> key in storage.cpu.hot)
      ensures r.None? ==> Missing(key)
      ensures fresh(storage.cpu.allocator.live - old(storage.cpu.allocator.live))
      ensures fresh(storage.cpu.allocator.blocks - old(storage.cpu.allocator.blocks))
      ensures old(storage.cpu.leaked) <= storage.cpu.leaked
      ensures storage.BooksNow() == if r.Some? then old(storage.BooksNow()).Got(key) else old(storage.BooksNow())
      ensures LeastRecent(old(storage.cpu.hot), old(storage.cpu.refs), storage.cpu.hot, old(storage.uses))
      ensures old(storage.cpu.Unpinned()) ==> storage.cpu.Unpinned()
    {
      hide Contents.Flying, LeastRecent, LocalCPUBackend.Unpinned, ByUse;
      hide StorageManager.Valid, StorageManager.NoRoomFor, Contents.Has, Contents.Within, SoundIn, RowsOf;
      Apart();
      ghost var s, st := storage.Now(), stored;
      r := storage.Get(key);
      SoundWithin(s, st, storage.Now());
    }

    /** Copies an object to its slots and gives up the reference to it. */
    method WriteOut(o: TensorMemoryObj, start: nat, end: nat, gpu: array<Bytes>, slots: seq<int>,
        ghost tokens: seq<Token>)
      requires Valid() && o in storage.handles && start <= end <= |tokens| == |slots|
      requires storage.cpu.allocator.Read(o) == Rows(kv, tokens[..end], start)
      requires forall p :: 0 <= p < |slots| ==> slots[p] < gpu.Length
      modifies storage.Frame(), gpu
      ensures Valid() && storage.handles == old(storage.handles) - multiset{o} && stored == old(stored)
      ensures gpu[..] == Scattered(kv, tokens, slots, start, end, old(gpu[..]))
      ensures storage.cpu.hot == old(storage.cpu.hot) && storage.cpu.allocator.live <= old(storage.cpu.allocator.live)
      ensures fresh(storage.cpu.allocator.blocks - old(storage.cpu.allocator.blocks))
      ensures old(storage.cpu.leaked) <= storage.cpu.leaked
      ensures storage.BooksNow() == old(storage.BooksNow())
      ensures old(storage.cpu.Unpinned()) ==> storage.cpu.Unpinned()
    {
      hide Contents.Flying, LocalCPUBackend.Unpinned;
      hide StorageManager.Valid, Contents.Has, SoundIn, RowsOf, Rows, Scattered;
      var bytes := storage.Copy(o);
      ToGpu(gpu, slots, start, end, bytes, tokens);
      GpuIsApart(gpu);
      Apart();
      storage.Release(o);
    }

    /** One step of a retrieval: a chunk that is found is written to its slots. */
    method RetrieveNext(tokens: seq<Token>, e: Entry, gpu: array<Bytes>, slots: seq<int>) returns (hit: bool)
      requires Valid() && NoConfusion(tokens) && IsEntry(db, tokens, e) && |slots| == |tokens|
      requires forall p :: 0 <= p < |slots| ==> slots[p] < gpu.Length
      modifies storage.Frame(), storage.cpu.allocator.buffer, gpu
      ensures Valid() && storage.handles == old(storage.handles) && stored == old(stored)
      ensures gpu[..] == if hit then Scattered(kv, tokens, slots, e.start, e.end, old(gpu[..])) else old(gpu[..])
      ensures storage.disk == null ==> storage.cpu.hot == old(storage.cpu.hot) && (hit <==> e.key in storage.cpu.hot)
      ensures !hit ==> Missing(e.key)
      ensures fresh(storage.cpu.allocator.live - old(storage.cpu.allocator.live))
      ensures fresh(storage.cpu.allocator.blocks - old(storage.cpu.allocator.blocks))
      ensures old(storage.cpu.leaked) <= storage.cpu.leaked
      ensures storage.BooksNow() == if hit then old(storage.BooksNow()).Got(e.key) else old(storage.BooksNow())
      ensures LeastRecent(old(storage.cpu.hot), old(storage.cpu.refs), storage.cpu.hot, old(storage.uses))
      ensures old(storage.cpu.Unpinned()) ==> storage.cpu.Unpinned()
    {
      hide StorageManager.BooksNow, Books.Got, LeastRecent, LocalCPUBackend.Unpinned;
      hide StorageManager.Valid, Contents.Has, SoundIn, RowsOf, Rows, Scattered, PrefixHash, LastStart, NoConfusion;
      hide Missing;
      GpuIsApart(gpu);
      ghost var s, handles := storage.Now(), storage.handles;
      var r := Fetch(e.key);
      hit := r.Some?;
      if hit {
        ContentsAreKv(s, tokens, e, storage.cpu.allocator.Read(r.value));
        TakeAndGive(handles, r.value);
        WriteOut(r.value, e.start, e.end, gpu, slots, tokens);
      }
    }

    /** The books after getting the first i entries, one after the other. */
    static ghost function GotAll(b: Books, es: seq<Entry>, i: nat): Books
      requires i <= |es|
    {
      if i == 0 then b else GotAll(b, es, i - 1).Got(es[i - 1].key)
    }

    lemma StopsWithin(es: seq<Entry>, f: nat, i: nat, n: nat)
      requires StopsAt(es, f, i, n)
      ensures i <= |es|
    {
    }

    lemma OnDisk()
      requires storage.disk != null
      ensures storage.Tasks() == storage.disk.putTasks && storage.Files() == storage.disk.dict
    {
    }

    /** Where a retrieval stopped: at the end, or at a chunk that is missing; with the host cache alone,
        exactly where the run of cached chunks ends. */
    ghost predicate StopsAt(es: seq<Entry>, f: nat, i: nat, n: nat)
      reads storage, storage.disk, storage.cpu, storage.cpu.allocator
    {
      && i <= |es| && n == EndOf(es, f, i)
      && (i < |es| ==> Missing(es[i].key))
      && (storage.disk == null ==> Reaches(es, f, storage.cpu.hot.Keys, i, n))
    }

    /** One step of a retrieval from position f that has got to n, the start of the next chunk. */
    method RetrieveStep(tokens: seq<Token>, e: Entry, ghost f: nat, ghost n: nat, ret: seq<bool>, gpu: array<Bytes>,
        slots: seq<int>, ghost g: seq<Bytes>) returns (more: bool, ret': seq<bool>, ghost n': nat)
      requires Valid() && NoConfusion(tokens) && IsEntry(db, tokens, e) && |slots| == |tokens|
      requires forall p :: 0 <= p < |slots| ==> slots[p] < gpu.Length
      requires f <= n == e.start && n <= |tokens| && ret == Marks(|tokens|, f, n)
      requires gpu[..] == Scattered(kv, tokens, slots, f, n, g)
      modifies storage.Frame(), storage.cpu.allocator.buffer, gpu
      ensures Valid() && storage.handles == old(storage.handles) && stored == old(stored)
      ensures n' == (if more then e.end else n) && f <= n' <= |tokens| && ret' == Marks(|tokens|, f, n')
      ensures gpu[..] == Scattered(kv, tokens, slots, f, n', g)
      ensures storage.disk == null ==> storage.cpu.hot == old(storage.cpu.hot) && (more <==> e.key in storage.cpu.hot)
      ensures !more ==> Missing(e.key)
      ensures fresh(storage.cpu.allocator.live - old(storage.cpu.allocator.live))
      ensures fresh(storage.cpu.allocator.blocks - old(storage.cpu.allocator.blocks))
      ensures old(storage.cpu.leaked) <= storage.cpu.leaked
      ensures storage.BooksNow() == if more then old(storage.BooksNow()).Got(e.key) else old(storage.BooksNow())
      ensures old(storage.cpu.Unpinned()) ==> storage.cpu.Unpinned()
    {
      hide StorageManager.BooksNow, Books.Got, LeastRecent, LocalCPUBackend.Unpinned;
      hide Valid, NoConfusion, LastStart, Scattered, Marks, PrefixHash, Missing, Aligned;
      more := RetrieveNext(tokens, e, gpu, slots);
      ret', n' := ret, n;
      MarkMore(|tokens|, f, n, e.end);
      if more {
        ScatteredTwice(kv, tokens, slots, f, n, e.end, g);
        ret' := ret[..e.start] + seq(e.end - e.start, _ => true) + ret[e.end..];
        n' := e.end;
      }
    }

    static lemma GotMore(b: Books, es: seq<Entry>, k: nat)
      requires k <= |es|
      ensures GotAll(b, es, k) == if k == 0 then b else GotAll(b, es, k - 1).Got(es[k - 1].key)
    {
    }

    /** Retrieves chunk after chunk up to the first that is missing, marking what was retrieved. */
    method RetrieveAll(tokens: seq<Token>, es: seq<Entry>, f: nat, gpu: array<Bytes>, slots: seq<int>)
      returns (ret: seq<bool>, ghost i: nat, ghost n: nat)
      requires Valid() && NoConfusion(tokens) && EntriesFrom(db, tokens, f, es) && f <= |tokens| == |slots|
      requires forall p :: 0 <= p < |slots| ==> slots[p] < gpu.Length
      modifies storage.Frame(), storage.cpu.allocator.buffer, gpu
      ensures Valid() && storage.handles == old(storage.handles) && stored == old(stored)
      ensures f <= n <= |tokens| && ret == Marks(|tokens|, f, n)
      ensures gpu[..] == Scattered(kv, tokens, slots, f, n, old(gpu[..]))
      ensures StopsAt(es, f, i, n) && (storage.disk == null ==> storage.cpu.hot == old(storage.cpu.hot))
      ensures fresh(storage.cpu.allocator.live - old(storage.cpu.allocator.live))
      ensures fresh(storage.cpu.allocator.blocks - old(storage.cpu.allocator.blocks))
      ensures old(storage.cpu.leaked) <= storage.cpu.leaked
      ensures storage.BooksNow() == GotAll(old(storage.BooksNow()), es, i)
      ensures old(storage.cpu.Unpinned()) ==> storage.cpu.Unpinned()
    {
      hide StorageManager.BooksNow, Books.Got, GotAll, LocalCPUBackend.Unpinned;
      hide Valid, NoConfusion, EntriesFrom, IsEntry, LastStart, Scattered, Marks, Reached, Reaches, PrefixHash, Missing;
      ghost var hot, live0, blocks0 := storage.cpu.hot, storage.cpu.allocator.live, storage.cpu.allocator.blocks;
      ghost var b0 := storage.BooksNow();
      GotMore(b0, es, 0);
      var k, more := 0, true;
      ret, n := seq(|tokens|, _ => false), f;
      NothingYet(kv, tokens, slots, f, gpu[..]);
      ReachedEnd(es, f, 0, true, hot);
      while k < |es| && more
        invariant k <= |es| && f <= n == EndOf(es, f, k) && n <= |tokens| && ret == Marks(|tokens|, f, n)
        invariant old(storage.cpu.Unpinned()) ==> storage.cpu.Unpinned()
        invariant storage.BooksNow() == GotAll(b0, es, k)
        invariant old(storage.cpu.leaked) <= storage.cpu.leaked
        invariant Valid() && storage.handles == old(storage.handles) && stored == old(stored)
        invariant gpu[..] == Scattered(kv, tokens, slots, f, n, old(gpu[..]))
        invariant !more ==> k < |es| && Missing(es[k].key)
        invariant storage.disk == null ==> storage.cpu.hot == hot && Reached(es, k, more, hot)
        invariant fresh(storage.cpu.allocator.live - live0) && fresh(storage.cpu.allocator.blocks - blocks0)
        decreases |es| - k, more
      {
        EntriesMeet(db, tokens, f, es, k);
        if storage.disk == null { ReachedMore(es, k, hot); }
        more, ret, n := RetrieveStep(tokens, es[k], f, n, ret, gpu, slots, old(gpu[..]));
        if more {
          GotMore(b0, es, k + 1);
          k := k + 1;
        }
      }
      ReachedEnd(es, f, k, more, hot);
      i := k;
    }

    /** Retrieves the KV of a sequence into paged memory, chunk by chunk, up to the first chunk that no
        backend yields; returns the mask of the positions retrieved.  Reports None if the masked prefix is
        not whole chunks.  The positions retrieved are those from the end of the masked prefix to n,
        their slots hold exactly their KV, and nothing else in paged memory changes. */
    method Retrieve(tokens: seq<Token>, mask: seq<bool>, gpu: array<Bytes>, slots: seq<int>)
      returns (r: Option<seq<bool>>, ghost i: nat, ghost n: nat)
      requires Valid() && NoConfusion(tokens) && |slots| == |tokens| && (mask == [] || |mask| == |tokens|)
      requires forall p :: 0 <= p < |slots| ==> slots[p] < gpu.Length
      modifies storage.Frame(), storage.cpu.allocator.buffer, gpu
      ensures Valid() && storage.handles == old(storage.handles) && stored == old(stored)
      ensures r.None? <==> !Aligned(NumFalses(mask), db.chunkSize)
      ensures r.None? ==> gpu[..] == old(gpu[..])
      ensures r.Some? ==> NumFalses(mask) <= n <= |tokens| && r.value == Marks(|tokens|, NumFalses(mask), n)
      ensures r.Some? ==> gpu[..] == Scattered(kv, tokens, slots, NumFalses(mask), n, old(gpu[..]))
      ensures r.Some? ==> StopsAt(db.Entries(tokens, NumFalses(mask)), NumFalses(mask), i, n)
      ensures storage.disk == null ==> storage.cpu.hot == old(storage.cpu.hot)
      ensures fresh(storage.cpu.allocator.live - old(storage.cpu.allocator.live))
      ensures fresh(storage.cpu.allocator.blocks - old(storage.cpu.allocator.blocks))
      ensures old(storage.cpu.leaked) <= storage.cpu.leaked
      ensures r.None? ==> storage.BooksNow() == old(storage.BooksNow())
      ensures r.Some? ==> storage.BooksNow() == GotAll(old(storage.BooksNow()), db.Entries(tokens, NumFalses(mask)), i)
      ensures old(storage.cpu.Unpinned()) ==> storage.cpu.Unpinned()
    {
      hide StorageManager.BooksNow, GotAll, LocalCPUBackend.Unpinned;
      hide Valid, NoConfusion, Aligned, EntriesFrom, IsEntry, NumFalses, LastStart, ChunkedTokenDatabase.Entries;
      hide Scattered, Marks, StopsAt;
      var entries := db.ProcessTokens(tokens, mask);
      r, i, n := None, 0, 0;
      if entries.Some? {
        MaskPrefixFits(mask);
        EntriesAreConsecutive(db, tokens, NumFalses(mask));
        var ret;
        ret, i, n := RetrieveAll(tokens, entries.value, NumFalses(mask), gpu, slots);
        r := Some(ret);
      }
    }

    static lemma NothingYet(kv: KvModel, tokens: seq<Token>, slots: seq<int>, s: nat, g: seq<Bytes>)
      requires s <= |tokens| == |slots|
      ensures seq(|tokens|, _ => false) == Marks(|tokens|, s, s) && Scattered(kv, tokens, slots, s, s, g) == g
    {
    }

    static lemma ReachedMore(es: seq<Entry>, k: nat, hot: Hot)
      requires k < |es| && Reached(es, k, true, hot)
      ensures if es[k].key in hot then Reached(es, k + 1, true, hot) else Reached(es, k, false, hot)
    {
    }

    static lemma ReachedEnd(es: seq<Entry>, f: nat, k: nat, more: bool, hot: Hot)
      requires k <= |es|
      ensures Reached(es, 0, true, hot)
      ensures Reached(es, k, more, hot) && (k == |es| || !more) ==> Reaches(es, f, hot.Keys, k, EndOf(es, f, k))
    {
    }

    static ghost predicate Reached(es: seq<Entry>, k: nat, more: bool, hot: Hot)
      requires k <= |es|
    {
      && (forall j :: 0 <= j < k ==> es[j].key in hot)
      && (!more ==> k < |es| && es[k].key !in hot)
    }

    // -------------------------------------------------------------- lookup and clear

    /** How many leading tokens are cached: the end of the longest run of leading chunks that the hot
        cache or the disk has. */
    method Lookup(tokens: seq<Token>) returns (n: nat)
      requires Valid()
      ensures exists i :: Reaches(db.Entries(tokens, 0), 0, storage.cpu.hot.Keys + storage.Files().Keys, i, n)
    {
      hide StorageManager.Valid, Contents.Has, SoundIn, RowsOf, PrefixHash, LastStart, ChunkedTokenDatabase.Entries;
      ZeroIsMultiple(db.chunkSize);
      EntriesAreConsecutive(db, tokens, 0);
      var entries := db.ProcessTokens(tokens, []);
      var es, found := entries.value, true;
      n := 0;
      var k := 0;
      while k < |es| && found
        invariant k <= |es| && n == EndOf(es, 0, k)
        invariant forall j :: 0 <= j < k ==> es[j].key in storage.cpu.hot.Keys + storage.Files().Keys
        invariant !found ==> k < |es| && es[k].key !in storage.cpu.hot.Keys + storage.Files().Keys
        decreases |es| - k, found
      {
        EntriesMeet(db, tokens, 0, es, k);
        found := storage.Contains(es[k].key);
        if found {
          n, k := es[k].end, k + 1;
        } else {
          n := es[k].start;
        }
      }
      assert Reaches(es, 0, storage.cpu.hot.Keys + storage.Files().Keys, k, n);
    }

    // -------------------------------------------------------------- round trips

    /** The host cache is the only backend, and enough memory is free in a row for all chunks from position
        f on and spare bytes besides. */
    ghost predicate RoomFor(tokens: seq<Token>, f: nat, spare: nat)
      reads storage, storage.cpu, storage.cpu.allocator
    {
      && storage.disk == null && storage.cpu.useHot && Ranges(db.Entries(tokens, f))
      && Roomy(storage.cpu.allocator.live, Need(db.Entries(tokens, f), 0) + spare)
    }

    lemma AllFitCached(es: seq<Entry>, ok: bool, hot0: set<CacheEngineKey>, spare: nat)
      requires Ranges(es) && AllFit(es, |es|, ok, hot0, spare) && storage.disk == null && storage.cpu.useHot
      ensures ok && forall e :: e in es ==> e.key in storage.cpu.hot
      ensures hot0 <= storage.cpu.hot.Keys && Roomy(storage.cpu.allocator.live, spare)
    {
      hide Roomy;
    }

    /** Stores the KV of a sequence, beyond a masked prefix of whole chunks, for which there is room. */
    method StoreFitting(tokens: seq<Token>, mask: seq<bool>, gpu: array<Bytes>, slots: seq<int>,
        policy: CacheEngineKey -> DiskPolicy, ghost spare: nat)
      requires Valid() && |slots| == |tokens| && Resident(gpu[..], tokens, slots, NumFalses(mask), |tokens|)
      requires Aligned(NumFalses(mask), db.chunkSize) && RoomFor(tokens, NumFalses(mask), spare)
      modifies this`stored, storage.Frame(), storage.cpu.allocator.buffer
      ensures Valid() && storage.handles == old(storage.handles) && gpu[..] == old(gpu[..])
      ensures forall e :: e in db.Entries(tokens, NumFalses(mask)) ==> e.key in storage.cpu.hot
      ensures old(storage.cpu.hot).Keys <= storage.cpu.hot.Keys && Roomy(storage.cpu.allocator.live, spare)
      ensures old(stored) <= stored
      ensures forall p :: p in stored && p !in old(stored) ==>
                            p <= tokens && EndsEntry(tokens, db.Entries(tokens, NumFalses(mask)), p)
      ensures fresh(storage.cpu.allocator.live - old(storage.cpu.allocator.live))
      ensures fresh(storage.cpu.allocator.blocks - old(storage.cpu.allocator.blocks))
      ensures old(storage.cpu.leaked) <= storage.cpu.leaked
    {
      hide Valid, Resident, Aligned, ChunkedTokenDatabase.Entries, StoredSoFar, AllFit, Roomy, Ranges, NumFalses;
      hide EndsEntry;
      ghost var hot0 := storage.cpu.hot.Keys;
      ghost var i, put;
      var r;
      r, i, put := Store(tokens, mask, gpu, slots, policy, spare);
      AllFitCached(db.Entries(tokens, NumFalses(mask)), r.value, hot0, spare);
    }

    /** What was stored with room for all of it is found again: as far as chunks cover the tokens. */
    method StoreThenLookup(tokens: seq<Token>, gpu: array<Bytes>, slots: seq<int>,
        policy: CacheEngineKey -> DiskPolicy) returns (n: nat)
      requires Valid() && |slots| == |tokens| && Resident(gpu[..], tokens, slots, 0, |tokens|) && RoomFor(tokens, 0, 0)
      modifies this`stored, storage.Frame(), storage.cpu.allocator.buffer
      ensures Valid() && n == db.Limit(|tokens|)
      ensures old(storage.cpu.leaked) <= storage.cpu.leaked
    {
      hide Valid, Resident, ChunkedTokenDatabase.Entries, Roomy, Ranges, Reaches, EndsEntry;
      ZeroIsMultiple(db.chunkSize);
      StoreFitting(tokens, [], gpu, slots, policy, 0);
      n := Lookup(tokens);
      ghost var cached := storage.cpu.hot.Keys + storage.Files().Keys;
      ghost var i :| Reaches(db.Entries(tokens, 0), 0, cached, i, n);
      AllReached(db, tokens, cached, i, n);
    }

    /** No collision among what is hashed for the stored prefixes and for these tokens' own. */
    ghost predicate NoCollisions(tokens: seq<Token>)
      reads this
    {
      NoCollisionsIn(stored, tokens)
    }

    ghost predicate NoCollisionsIn(st: set<seq<Token>>, tokens: seq<Token>) {
      forall p, n :: (p in st || p <= tokens) && p != [] && 0 < n <= |tokens| && db.Keyed(tokens[..n]) ==>
                       db.NoCollision(p, tokens[..n])
    }

    /** And retrieved into other slots it is the KV of exactly the tokens that chunks cover. */
    method StoreThenRetrieve(tokens: seq<Token>, gpu: array<Bytes>, slots: seq<int>,
        policy: CacheEngineKey -> DiskPolicy, out: array<Bytes>, outSlots: seq<int>)
      returns (mask: seq<bool>)
      requires Valid() && |slots| == |tokens| && Resident(gpu[..], tokens, slots, 0, |tokens|) && RoomFor(tokens, 0, 0)
      requires HexDigests(db.hash) && NoCollisions(tokens) && NothingSpelled(tokens)
      requires |outSlots| == |tokens| && forall p :: 0 <= p < |outSlots| ==> outSlots[p] < out.Length
      modifies this`stored, storage.Frame(), storage.cpu.allocator.buffer, out
      ensures Valid() && db.Limit(|tokens|) <= |tokens| && mask == Marks(|tokens|, 0, db.Limit(|tokens|))
      ensures out[..] == Scattered(kv, tokens, outSlots, 0, db.Limit(|tokens|), old(out[..]))
      ensures old(storage.cpu.leaked) <= storage.cpu.leaked
    {
      hide Valid, Resident, Aligned, ChunkedTokenDatabase.Entries, Roomy, Ranges, Reaches, Scattered, Marks, StopsAt;
      hide HexDigests, SmallTokens, NoConfusion, NoCollisionsIn, CollisionFree, EndsEntry;
      ghost var st := stored;
      GpuIsApart(out);
      ZeroIsMultiple(db.chunkSize);
      StoreFitting(tokens, [], gpu, slots, policy, 0);
      StillCollisionFree(st, tokens);
      StillNothingSpelled(st, tokens);
      KeysAreNotConfused(tokens);
      var r;
      ghost var i, n;
      r, i, n := Retrieve(tokens, [], out, outSlots);
      mask := r.value;
      StopIsReach(db.Entries(tokens, 0), 0, i, n);
      AllReached(db, tokens, storage.cpu.hot.Keys, i, n);
    }

    lemma StopIsReach(es: seq<Entry>, f: nat, i: nat, n: nat)
      requires StopsAt(es, f, i, n) && storage.disk == null
      ensures Reaches(es, f, storage.cpu.hot.Keys, i, n)
    {
    }

    /** Storing prefixes of these tokens brings no collision that was not there before. */
    lemma StillCollisionFree(before: set<seq<Token>>, tokens: seq<Token>)
      requires forall p :: p in stored && p !in before ==> p <= tokens
      requires NoCollisionsIn(before, tokens)
      ensures CollisionFree(tokens)
    {
      hide ChunkedTokenDatabase.Keyed, ChunkedTokenDatabase.NoCollision;
    }

    /** Nor does it bring a spelling. */
    lemma StillNothingSpelled(before: set<seq<Token>>, tokens: seq<Token>)
      requires forall p :: p in stored && p !in before ==> p <= tokens
      requires !db.saveUnfullChunk || db.chunkSize <= 16
               || (SmallTokens(tokens) && forall p :: p in before ==> SmallTokens(p))
      ensures NothingSpelled(tokens)
    {
      forall p | p in stored && SmallTokens(tokens) && (p in before ==> SmallTokens(p)) ensures SmallTokens(p) {
        if p !in before { assert p <= tokens; }
      }
    }

    /** Clears everything that nothing else holds, or just the chunks of some tokens.  With a disk the
        latter raises at the first chunk, reported as None. */
    method Clear(tokens: seq<Token>) returns (r: Option<nat>)
      requires Valid()
      modifies storage.Frame()
      ensures Valid() && storage.handles == old(storage.handles) && stored == old(stored)
      ensures Subset(storage.cpu.hot, old(storage.cpu.hot))
      ensures r.None? <==> storage.disk != null && db.Entries(tokens, 0) != []
      ensures tokens == [] && storage.cpu.useHot ==>
                Cleared(old(storage.cpu.hot), old(storage.cpu.order), old(storage.cpu.refs), r)
      ensures tokens == [] && !storage.cpu.useHot ==> r == Some(0) && storage.cpu.hot == old(storage.cpu.hot)
      ensures tokens != [] && r.Some? ==> r.value == |old(storage.cpu.hot)| - |storage.cpu.hot|
      ensures tokens != [] ==> Lost(db.Entries(tokens, 0), old(storage.cpu.hot), storage.cpu.hot, r)
      ensures storage.uses == old(storage.uses)
      ensures old(storage.cpu.leaked) <= storage.cpu.leaked
    {
      hide Valid, Subset, Cleared, ChunkedTokenDatabase.Entries;
      if tokens == [] {
        NoTokensNoEntries();
        var count := ClearAll();
        r := Some(count);
      } else {
        ZeroIsMultiple(db.chunkSize);
        var entries := db.ProcessTokens(tokens, []);
        r := RemoveAll(entries.value);
      }
    }

    method RemoveAll(es: seq<Entry>) returns (r: Option<nat>)
      requires Valid()
      modifies storage.Frame()
      ensures Valid() && storage.handles == old(storage.handles) && stored == old(stored)
      ensures Subset(storage.cpu.hot, old(storage.cpu.hot))
      ensures r.None? <==> storage.disk != null && es != []
      ensures r.Some? ==> r.value == |old(storage.cpu.hot)| - |storage.cpu.hot|
      ensures Lost(es, old(storage.cpu.hot), storage.cpu.hot, r) && storage.uses == old(storage.uses)
      ensures old(storage.cpu.leaked) <= storage.cpu.leaked
    {
      hide *;
      storage.FrameIs();
      ghost var hot0 := storage.cpu.hot;
      NoneLost(es, hot0);
      var i: nat := 0;
      r := Some(0);
      while i < |es| && r.Some?
        invariant i <= |es| && (r.None? <==> storage.disk != null && i > 0)
        invariant old(storage.cpu.leaked) <= storage.cpu.leaked
        invariant Valid() && storage.handles == old(storage.handles) && stored == old(stored)
        invariant r.Some? ==> r.value == |hot0| - |storage.cpu.hot|
        invariant Losing(es, i, hot0, storage.cpu.hot) && storage.uses == old(storage.uses)
        invariant r.None? ==> i == 1
        invariant fresh(storage.cpu.allocator.live - old(storage.cpu.allocator.live))
        invariant fresh(storage.cpu.allocator.blocks - old(storage.cpu.allocator.blocks))
      {
        storage.FrameIs();
        ghost var hot := storage.cpu.hot;
        var removed := RemoveKey(es[i].key);
        LostStep(es, i, hot0, hot, es[i].key, storage.cpu.hot);
        r := if removed.Some? then Some(r.value + removed.value) else None;
        i := i + 1;
      }
      AllLost(es, i, hot0, storage.cpu.hot, r);
    }

    static ghost predicate Subset(hot: Hot, was: Hot) {
      forall k :: k in hot ==> k in was && hot[k] == was[k]
    }

    static ghost function EntryKeys(es: seq<Entry>, n: nat): set<CacheEngineKey>
      requires n <= |es|
    {
      set j | 0 <= j < n :: es[j].key
    }

    /** What clearing some chunks takes out of the cache: exactly their keys, or, where it raises, the first key. */
    static ghost predicate Lost(es: seq<Entry>, was: Hot, hot: Hot, r: Option<nat>) {
      && (r.Some? ==> hot == was - EntryKeys(es, |es|))
      && (r.None? ==> es != [] && hot == was - {es[0].key})
    }

    static ghost predicate Losing(es: seq<Entry>, n: nat, was: Hot, hot: Hot)
      requires n <= |es|
    {
      hot == was - EntryKeys(es, n)
    }

    static lemma NoneLost(es: seq<Entry>, was: Hot)
      ensures Losing(es, 0, was, was)
    {
    }

    static lemma LostStep(es: seq<Entry>, n: nat, was: Hot, hot: Hot, key: CacheEngineKey, hot': Hot)
      requires n < |es| && Losing(es, n, was, hot) && key == es[n].key && hot' == hot - {key}
      ensures Losing(es, n + 1, was, hot')
    {
      assert EntryKeys(es, n + 1) == EntryKeys(es, n) + {es[n].key} by {
        forall k | k in EntryKeys(es, n) + {es[n].key} ensures k in EntryKeys(es, n + 1) {
          if k != es[n].key {
            var j :| 0 <= j < n && k == es[j].key;
            assert 0 <= j < n + 1;
          } else {
            assert es[n].key == k && 0 <= n < n + 1;
          }
        }
      }
    }

    static lemma AllLost(es: seq<Entry>, n: nat, was: Hot, hot: Hot, r: Option<nat>)
      requires n <= |es| && Losing(es, n, was, hot) && (if r.Some? then n == |es| else n == 1)
      ensures Lost(es, was, hot, r) && Subset(hot, was)
    {
      if r.None? { assert EntryKeys(es, 1) == {es[0].key} by { assert es[0].key in EntryKeys(es, 1); } }
    }

    lemma NoTokensNoEntries()
      ensures db.Entries([], 0) == []
    {
    }

    /** Exactly the entries nothing else referred to are gone, and they are what is reported. */
    ghost predicate Cleared(hot: Hot, order: seq<CacheEngineKey>, refs: Refs, r: Option<nat>)
      reads storage, storage.cpu
    {
      var keys := Cands(order, hot, refs);
      r == Some(|keys|) && storage.cpu.hot == hot - KeySet(keys)
    }

    method ClearAll() returns (count: nat)
      requires Valid()
      modifies storage.Frame()
      ensures Valid() && storage.handles == old(storage.handles) && stored == old(stored)
      ensures Subset(storage.cpu.hot, old(storage.cpu.hot))
      ensures storage.cpu.useHot ==>
                Cleared(old(storage.cpu.hot), old(storage.cpu.order), old(storage.cpu.refs), Some(count))
      ensures !storage.cpu.useHot ==> count == 0 && storage.cpu.hot == old(storage.cpu.hot)
      ensures old(storage.cpu.leaked) <= storage.cpu.leaked
      ensures storage.uses == old(storage.uses)
    {
      hide StorageManager.Valid, Contents.Has, Contents.Within, SoundIn, RowsOf, Cands;
      Apart();
      ghost var s, st := storage.Now(), stored;
      count := storage.Clear();
      SoundWithin(s, st, storage.Now());
    }

    method RemoveKey(key: CacheEngineKey) returns (r: Option<nat>)
      requires Valid()
      modifies storage.Frame()
      ensures Valid() && storage.handles == old(storage.handles) && stored == old(stored)
      ensures storage.cpu.hot == old(storage.cpu.hot) - {key} && (r.None? <==> storage.disk != null)
      ensures r.Some? ==> r.value == |old(storage.cpu.hot)| - |storage.cpu.hot|
      ensures storage.cpu.allocator.live <= old(storage.cpu.allocator.live)
      ensures fresh(storage.cpu.allocator.blocks - old(storage.cpu.allocator.blocks))
      ensures old(storage.cpu.leaked) <= storage.cpu.leaked
      ensures storage.uses == old(storage.uses)
    {
      hide StorageManager.Valid, Contents.Has, Contents.Within, SoundIn, RowsOf;
      Apart();
      ghost var s, st, hot := storage.Now(), stored, storage.cpu.hot;
      r := storage.Remove(key);
      SoundWithin(s, st, storage.Now());
      OneLess(hot, key);
    }

    static lemma OneLess(hot: Hot, key: CacheEngineKey)
      ensures |hot - {key}| == if key in hot then |hot| - 1 else |hot|
    {
      assert (hot - {key}).Keys == hot.Keys - {key};
      assert key !in hot ==> hot - {key} == hot;
    }

    /** A write to disk completes at any moment between the engine's operations. */
    method FinishWrite(key: CacheEngineKey)
      requires Valid() && storage.disk != null && key in storage.disk.putTasks
      modifies storage.Frame()
      ensures Valid() && storage.handles == old(storage.handles) && stored == old(stored)
      ensures storage.Tasks() == old(storage.Tasks()) - {key} && storage.cpu.hot == old(storage.cpu.hot)
      ensures storage.Files() ==
              old(storage.Files())[key := storage.cpu.allocator.Read(old(storage.disk.putTasks)[key])]
      ensures old(storage.cpu.leaked) <= storage.cpu.leaked
      ensures storage.BooksNow() == old(storage.BooksNow()).Finish(key)
      ensures storage.cpu.allocator.live <= old(storage.cpu.allocator.live)
      ensures fresh(storage.cpu.allocator.blocks - old(storage.cpu.allocator.blocks))
      ensures old(storage.cpu.Unpinned()) ==> storage.cpu.Unpinned()
    {
      hide StorageManager.Valid, Contents.Has, Contents.Within, SoundIn, RowsOf;
      Apart();
      ghost var s, st := storage.Now(), stored;
      storage.FinishPut(key);
      SoundWithin(s, st, storage.Now());
    }
  }
}
