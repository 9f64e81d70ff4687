/** The legacy local backend: a pool of equal chunks, an LRU evictor that keeps its own byte count, and
    one worker that stores chunks in two steps. */
module LocalBackend {
  import opened Wrappers
  import opened Arithmetic
  import opened CacheKeys
  import opened LocalCpuBackend
  import opened Sequences

  type Row = int

  datatype KVObj = KVObj(chunkIdx: nat, size: nat, numTok: nat)

  type Cached = map<CacheEngineKey, KVObj>

  /** How a put ends: stored, refused as too large, with one of three exceptions, or never, because the lock
      is held. */
  datatype PutStatus = Legal | Illegal | StopIteration | KeyError | AssertionError | Blocked

  // ---------------------------------------------------------------- the evictor

  /** Bytes of the first n keys. */
  ghost function SizeOf(order: seq<CacheEngineKey>, dict: Cached, n: nat): nat
    requires n <= |order|
  {
    if n == 0 then 0 else SizeOf(order, dict, n - 1) + if order[n - 1] in dict then dict[order[n - 1]].size else 0
  }

  ghost predicate AllOfSize(dict: Cached, size: nat) {
    forall k :: k in dict ==> dict[k].size == size
  }

  lemma {:induction false} EqualSizes(order: seq<CacheEngineKey>, dict: Cached, size: nat, n: nat)
    requires n <= |order| && AllOfSize(dict, size) && forall k :: k in order ==> k in dict
    ensures SizeOf(order, dict, n) == n * size
  {
    if n > 0 {
      EqualSizes(order, dict, size, n - 1);
      assert order[n - 1] in dict;
      assert n * size == (n - 1) * size + size;
    }
  }

  class LRUEvictor {
    const maxCacheSize: nat
    var currentCacheSize: int

    constructor (maxCacheSize: nat)
      ensures this.maxCacheSize == maxCacheSize && currentCacheSize == 0
    {
      this.maxCacheSize, currentCacheSize := maxCacheSize, 0;
    }

    /** The bytes counted once the first n keys are evicted and the new chunk is in. */
    ghost function CountAfter(order: seq<CacheEngineKey>, dict: Cached, cacheSize: nat, n: nat): int
      requires n <= |order|
      reads this
    {
      currentCacheSize + cacheSize - SizeOf(order, dict, n)
    }

    /** Marks a key as most recently used; fails if it is absent. */
    method UpdateOnGet(key: CacheEngineKey, order: seq<CacheEngineKey>) returns (r: Option<seq<CacheEngineKey>>)
      requires Distinct(order)
      ensures r.Some? <==> key in order
      ensures r.Some? ==> Distinct(r.value) && r.value == Without(order, key) + [key]
      ensures r.Some? ==> forall k :: k in r.value <==> k in order
    {
      r := None;
      if key in order {
        WithoutDistinct(order, key);
        r := Some(Without(order, key) + [key]);
        assert key !in Without(order, key);
      }
    }

    /** Chooses the shortest run of oldest keys whose eviction makes room, and counts the new chunk.  A
        chunk larger than the cache is refused; running out of keys raises, with the count already
        lowered. */
    method UpdateOnPut(order: seq<CacheEngineKey>, dict: Cached, cacheSize: nat)
      returns (evictKeys: seq<CacheEngineKey>, status: PutStatus)
      requires forall k :: k in order ==> k in dict
      modifies this
      ensures evictKeys <= order
      ensures status == Illegal <==> cacheSize > maxCacheSize
      ensures status == Illegal ==> evictKeys == [] && currentCacheSize == old(currentCacheSize)
      ensures status == StopIteration <==>
                cacheSize <= maxCacheSize && forall n :: 0 <= n <= |order| ==>
                    old(CountAfter(order, dict, cacheSize, n)) > maxCacheSize
      ensures status == StopIteration ==> currentCacheSize == old(currentCacheSize) - SizeOf(order, dict, |order|)
      ensures status == Legal ==>
                currentCacheSize == old(CountAfter(order, dict, cacheSize, |evictKeys|)) <= maxCacheSize
      ensures status == Legal ==>
                forall n :: 0 <= n < |evictKeys| ==> old(CountAfter(order, dict, cacheSize, n)) > maxCacheSize
      ensures status == Legal || status == Illegal || status == StopIteration
    {
      evictKeys, status := [], Legal;
      if cacheSize > maxCacheSize {
        status := Illegal;
      } else {
        while cacheSize + currentCacheSize > maxCacheSize && status == Legal
          invariant |evictKeys| <= |order| && evictKeys == order[..|evictKeys|]
          invariant status == Legal || status == StopIteration
          invariant currentCacheSize == old(currentCacheSize) - SizeOf(order, dict, |evictKeys|)
          invariant forall n :: 0 <= n < |evictKeys| ==> old(CountAfter(order, dict, cacheSize, n)) > maxCacheSize
          invariant status == StopIteration ==> |evictKeys| == |order| && cacheSize + currentCacheSize > maxCacheSize
          decreases |order| - |evictKeys|, status == Legal
        {
          if |evictKeys| == |order| {
            status := StopIteration;
          } else {
            var evictKey := order[|evictKeys|];
            assert evictKey in order;
            currentCacheSize := currentCacheSize - dict[evictKey].size;
            evictKeys := evictKeys + [evictKey];
          }
        }
        assert old(CountAfter(order, dict, cacheSize, |evictKeys|)) == currentCacheSize + cacheSize;
        if status == Legal {
          currentCacheSize := currentCacheSize + cacheSize;
        }
      }
    }
  }

  // ---------------------------------------------------------------- the pool

  function MaxChunkNum(maxLocalCacheSize: nat, sizePerChunk: nat): nat
    requires 0 < sizePerChunk
  {
    maxLocalCacheSize / sizePerChunk + 1
  }

  class LocalPool {
    const chunkSize: nat
    const sizePerChunk: nat
    const maxChunkNum: nat
    /** The chunks' memory, row by row, and the indices of the free ones. */
    var memPool: seq<seq<Row>>
    var freePool: seq<nat>

    constructor (chunkSize: nat, sizePerChunk: nat, maxLocalCacheSize: nat, junk: seq<Row>)
      requires 0 < sizePerChunk && |junk| == chunkSize
      ensures this.chunkSize == chunkSize && this.sizePerChunk == sizePerChunk
      ensures maxChunkNum == MaxChunkNum(maxLocalCacheSize, sizePerChunk)
      ensures memPool == seq(maxChunkNum, _ => junk) && freePool == seq(maxChunkNum, i => i)
    {
      this.chunkSize, this.sizePerChunk := chunkSize, sizePerChunk;
      maxChunkNum := MaxChunkNum(maxLocalCacheSize, sizePerChunk);
      memPool := seq(MaxChunkNum(maxLocalCacheSize, sizePerChunk), _ => junk);
      freePool := seq(MaxChunkNum(maxLocalCacheSize, sizePerChunk), i => i);
    }

    /** Hands out the chunk freed last; fails if there is none, or if the rows do not fit a chunk. */
    method Allocate(numTok: nat) returns (r: Option<KVObj>)
      modifies this`freePool
      ensures r.Some? <==> numTok <= chunkSize && old(freePool) != []
      ensures r.None? ==> freePool == old(freePool)
      ensures r.Some? ==> r.value == KVObj(old(freePool)[|old(freePool)| - 1], sizePerChunk, numTok)
      ensures r.Some? ==> old(freePool) == freePool + [r.value.chunkIdx]
    {
      r := None;
      if numTok <= chunkSize && freePool != [] {
        r := Some(KVObj(freePool[|freePool| - 1], sizePerChunk, numTok));
        freePool := freePool[..|freePool| - 1];
      }
    }

    method Free(o: KVObj)
      modifies this`freePool
      ensures freePool == old(freePool) + [o.chunkIdx]
    {
      freePool := freePool + [o.chunkIdx];
    }

    /** The rows an object refers to. */
    ghost function Data(o: KVObj): seq<Row>
      reads this
    {
      DataIn(memPool, o)
    }

    method Fill(o: KVObj, rows: seq<Row>)
      requires o.chunkIdx < |memPool| && |rows| == o.numTok <= |memPool[o.chunkIdx]|
      modifies this`memPool
      ensures Data(o) == rows && |memPool| == |old(memPool)| && |memPool[o.chunkIdx]| == |old(memPool)[o.chunkIdx]|
      ensures forall i :: 0 <= i < |memPool| && i != o.chunkIdx ==> memPool[i] == old(memPool)[i]
    {
      memPool := memPool[o.chunkIdx := rows + memPool[o.chunkIdx][o.numTok..]];
    }
  }

  ghost function DataIn(memPool: seq<seq<Row>>, o: KVObj): seq<Row> {
    if o.chunkIdx < |memPool| && o.numTok <= |memPool[o.chunkIdx]| then memPool[o.chunkIdx][..o.numTok] else []
  }

  // ---------------------------------------------------------------- chunk indices

  /** A chunk taken from the pool whose rows are still on their way. */
  datatype InFlight = InFlight(key: CacheEngineKey, obj: KVObj, rows: seq<Row>)

  /** Every index is in exactly one place: free, cached under one key, or in flight. */
  ghost predicate Chunks(free: seq<nat>, dict: Cached, flying: Option<InFlight>, n: nat) {
    && (forall i :: 0 <= i < |free| ==> free[i] < n)
    && Distinct(free)
    && (forall k :: k in dict ==> dict[k].chunkIdx < n && dict[k].chunkIdx !in free)
    && (forall j, k :: j in dict && k in dict && j != k ==> dict[j].chunkIdx != dict[k].chunkIdx)
    && (flying.Some? ==> flying.value.obj.chunkIdx < n && flying.value.obj.chunkIdx !in free)
    && (flying.Some? ==> forall k :: k in dict ==> dict[k].chunkIdx != flying.value.obj.chunkIdx)
    && |free| + |dict| + (if flying.Some? then 1 else 0) == n
  }

  ghost function IndicesOf(dict: Cached): set<nat> { set k | k in dict :: dict[k].chunkIdx }

  lemma {:induction false} IndexCount(dict: Cached)
    requires forall j, k :: j in dict && k in dict && j != k ==> dict[j].chunkIdx != dict[k].chunkIdx
    ensures |IndicesOf(dict)| == |dict|
    decreases |dict|
  {
    hide IndicesOf;
    if dict == map[] {
      NoIndices();
    } else {
      var k :| k in dict;
      IndicesStep(dict, k);
      FewerKeys(dict, k);
      IndexCount(dict - {k});
    }
  }

  lemma NoIndices()
    ensures IndicesOf(map[]) == {}
  {
  }

  lemma IndicesStep(dict: Cached, k: CacheEngineKey)
    requires k in dict && forall j :: j in dict && j != k ==> dict[j].chunkIdx != dict[k].chunkIdx
    ensures IndicesOf(dict) == IndicesOf(dict - {k}) + {dict[k].chunkIdx}
    ensures dict[k].chunkIdx !in IndicesOf(dict - {k})
  {
    var rest := dict - {k};
    forall i | i in IndicesOf(dict) ensures i in IndicesOf(rest) + {dict[k].chunkIdx} {
      var j :| j in dict && dict[j].chunkIdx == i;
      assert j == k || (j in rest && rest[j] == dict[j]);
    }
  }

  ghost function ElemsOf(free: seq<nat>): (r: set<nat>)
    ensures forall i :: i in r <==> i in free
    ensures Distinct(free) ==> |r| == |free|
  {
    if free == [] then {}
    else
      var init, last := free[..|free| - 1], free[|free| - 1];
      assert free == init + [last] && (Distinct(free) ==> last !in init);
      ElemsOf(init) + {last}
  }

  ghost function Below(n: nat): (r: set<nat>)
    ensures |r| == n && forall i :: i in r <==> 0 <= i < n
  {
    if n == 0 then {} else Below(n - 1) + {n - 1}
  }

  lemma SubsetOfSameSize(a: set<nat>, b: set<nat>)
    requires a <= b && |a| == |b|
    ensures a == b
  {
    assert b == a + (b - a);
  }

  ghost function Taken(flying: Option<InFlight>): set<nat> {
    if flying.Some? then {flying.value.obj.chunkIdx} else {}
  }

  lemma SizesAdd(a: set<nat>, b: set<nat>, c: set<nat>)
    requires a !! b && (a + b) !! c
    ensures |a + b + c| == |a| + |b| + |c|
  {
  }

  lemma PlacesApart(free: seq<nat>, dict: Cached, flying: Option<InFlight>, n: nat)
    requires Chunks(free, dict, flying, n)
    ensures ElemsOf(free) !! IndicesOf(dict) && (ElemsOf(free) + IndicesOf(dict)) !! Taken(flying)
    ensures ElemsOf(free) + IndicesOf(dict) + Taken(flying) <= Below(n)
  {
  }

  lemma PlacesFill(free: seq<nat>, dict: Cached, flying: Option<InFlight>, n: nat)
    requires Chunks(free, dict, flying, n)
    ensures |ElemsOf(free)| + |IndicesOf(dict)| + |Taken(flying)| == n
  {
    IndexCount(dict);
  }

  /** No index is lost. */
  lemma NoneIsLost(free: seq<nat>, dict: Cached, flying: Option<InFlight>, n: nat, i: nat)
    requires Chunks(free, dict, flying, n) && i < n
    ensures i in free || (exists k :: k in dict && dict[k].chunkIdx == i) || i in Taken(flying)
  {
    hide Chunks;
    var a, b, c := ElemsOf(free), IndicesOf(dict), Taken(flying);
    PlacesApart(free, dict, flying, n);
    PlacesFill(free, dict, flying, n);
    SizesAdd(a, b, c);
    SubsetOfSameSize(a + b + c, Below(n));
    assert i in a + b + c;
  }

  lemma Take(free: seq<nat>, dict: Cached, n: nat, f: InFlight)
    requires Chunks(free, dict, None, n) && free != [] && f.obj.chunkIdx == free[|free| - 1]
    ensures Chunks(free[..|free| - 1], dict, Some(f), n)
  {
  }

  lemma Land(free: seq<nat>, dict: Cached, n: nat, f: InFlight)
    requires Chunks(free, dict, Some(f), n) && f.key !in dict
    ensures Chunks(free, dict[f.key := f.obj], None, n)
  {
    assert dict[f.key := f.obj].Keys == dict.Keys + {f.key};
  }

  lemma GiveBack(free: seq<nat>, dict: Cached, flying: Option<InFlight>, n: nat, key: CacheEngineKey)
    requires Chunks(free, dict, flying, n) && key in dict
    ensures Chunks(free + [dict[key].chunkIdx], dict - {key}, flying, n)
  {
    FewerKeys(dict, key);
  }

  lemma FewerKeys(dict: Cached, key: CacheEngineKey)
    requires key in dict
    ensures |dict - {key}| == |dict| - 1
  {
    assert dict.Keys == (dict - {key}).Keys + {key};
  }

  // ---------------------------------------------------------------- the count

  /** The evictor's count is whole chunks within the limit and covers everything stored and on its way. */
  ghost predicate Covered(count: int, used: nat, size: nat, max: nat) {
    0 < size && 0 <= count <= max && Aligned(count, size) && used * size <= count
  }

  lemma Fewer(count: int, used: nat, less: nat, size: nat, max: nat)
    requires Covered(count, used, size, max) && less <= used
    ensures Covered(count, less, size, max)
  {
    assert less * size <= used * size;
  }

  lemma UsedIsCounted(count: int, used: nat, size: nat, max: nat)
    requires Covered(count, used, size, max) && 0 < used
    ensures count >= size > 0
  {
    assert used * size >= size;
  }

  /** Counting one more chunk, when there is room. */
  lemma OneMore(count: int, used: nat, size: nat, max: nat)
    requires Covered(count, used, size, max) && count + size <= max
    ensures Covered(count + size, used + 1, size, max)
  {
    NextMultiple(count, size);
    assert (used + 1) * size == used * size + size;
  }

  /** When there is no room but a chunk fits at all, at least one chunk is counted. */
  lemma SomethingIsCounted(count: int, used: nat, size: nat, max: nat)
    requires Covered(count, used, size, max) && size <= max < count + size
    ensures count >= size
  {
    ZeroIsMultiple(size);
    if 0 < count { ApartByPeriod(0, count, size); }
  }

  /** With one more chunk covered, the pool has a free chunk for it, and even a spare one. */
  lemma PoolIsNotDry(free: seq<nat>, dict: Cached, n: nat, count: int, size: nat, max: nat)
    requires Chunks(free, dict, None, n) && 0 < size && n == MaxChunkNum(max, size)
    requires Covered(count, |dict| + 1, size, max)
    ensures |free| >= 2
  {
    Fits(|dict| + 1, size, max);
    assert |free| + |dict| == n;
  }

  lemma Fits(used: nat, size: nat, max: nat)
    requires 0 < size && used * size <= max
    ensures used <= max / size
  {
    var q := max / size;
    FloorBounds(max, size);
    assert (q + 1) * size == q * size + size;
    assert used >= q + 1 ==> used * size >= (q + 1) * size;
  }

  // ---------------------------------------------------------------- the backend

  ghost predicate Ordered(order: seq<CacheEngineKey>, dict: Cached) {
    Distinct(order) && forall k :: k in order <==> k in dict
  }

  lemma OrderedWithout(order: seq<CacheEngineKey>, dict: Cached, key: CacheEngineKey)
    requires Ordered(order, dict)
    ensures Ordered(Without(order, key), dict - {key})
  {
    WithoutDistinct(order, key);
  }

  /** Every cached object holds the rows stored last under its key. */
  ghost predicate Fresh(dict: Cached, memPool: seq<seq<Row>>, last: map<CacheEngineKey, seq<Row>>, chunkSize: nat) {
    forall k :: k in dict ==> k in last && dict[k].numTok <= chunkSize && DataIn(memPool, dict[k]) == last[k]
  }

  lemma StillFresh(dict: Cached, memPool: seq<seq<Row>>, last: map<CacheEngineKey, seq<Row>>, chunkSize: nat, size: nat,
                   key: CacheEngineKey)
    ensures Fresh(dict, memPool, last, chunkSize) ==> Fresh(dict - {key}, memPool, last, chunkSize)
    ensures AllOfSize(dict, size) ==> AllOfSize(dict - {key}, size)
  {
    hide DataIn;
  }

  class LMCLocalBackend {
    const evictor: LRUEvictor
    const mpool: LocalPool
    var order: seq<CacheEngineKey>
    var dict: Cached
    /** What the worker is storing. */
    var inFlight: Option<InFlight>
    /** Whether an exception in the worker has left the lock held. */
    var updateLock: bool
    /** The rows stored last under each key. */
    ghost var last: map<CacheEngineKey, seq<Row>>

    constructor (chunkSize: nat, sizePerChunk: nat, maxCacheSize: nat, junk: seq<Row>)
      requires 0 < sizePerChunk && |junk| == chunkSize
      ensures Valid() && dict == map[] && inFlight == None && !updateLock && fresh(evictor) && fresh(mpool)
      ensures mpool.chunkSize == chunkSize && mpool.sizePerChunk == sizePerChunk && evictor.maxCacheSize == maxCacheSize
    {
      evictor := new LRUEvictor(maxCacheSize);
      mpool := new LocalPool(chunkSize, sizePerChunk, maxCacheSize, junk);
      order, dict, inFlight, updateLock, last := [], map[], None, false, map[];
      new;
      ZeroIsMultiple(sizePerChunk);
      assert Covered(0, 0, sizePerChunk, maxCacheSize);
    }

    ghost function Used(): nat
      reads this
    {
      |dict| + if inFlight.Some? then 1 else 0
    }

    /** What every operation keeps, public removals included. */
    ghost predicate Kept()
      reads this, evictor, mpool
    {
      && 0 < mpool.sizePerChunk && mpool.maxChunkNum == MaxChunkNum(evictor.maxCacheSize, mpool.sizePerChunk)
      && |mpool.memPool| == mpool.maxChunkNum && (forall i :: 0 <= i < |mpool.memPool| ==>
        |mpool.memPool[i]| == mpool.chunkSize)
      && Ordered(order, dict) && AllOfSize(dict, mpool.sizePerChunk)
      && Chunks(mpool.freePool, dict, inFlight, mpool.maxChunkNum)
      && Fresh(dict, mpool.memPool, last, mpool.chunkSize)
      && (inFlight.Some? ==> inFlight.value.key !in dict && inFlight.value.obj.size == mpool.sizePerChunk)
      && (inFlight.Some? ==> |inFlight.value.rows| == inFlight.value.obj.numTok <= mpool.chunkSize)
      && Covered(evictor.currentCacheSize, Used(), mpool.sizePerChunk, evictor.maxCacheSize)
    }

    /** What puts and gets keep: besides, nothing is counted when nothing is stored. */
    ghost predicate Valid()
      reads this, evictor, mpool
    {
      Kept() && (Used() == 0 ==> evictor.currentCacheSize == 0)
    }

    /** Removes a key and frees its chunk; the evictor is not told.  Fails if the key is absent. */
    method Remove(key: CacheEngineKey) returns (ok: bool)
      requires Kept()
      modifies this`order, this`dict, mpool`freePool
      ensures Kept() && (ok <==> key in old(dict))
      ensures dict == old(dict) - {key} && order == Without(old(order), key)
      ensures old(Valid()) && ok ==> (Valid() <==> Used() > 0)
    {
      hide Ordered, Chunks, Fresh, Covered, AllOfSize, MaxChunkNum, Without;
      ok := key in dict;
      if ok {
        RemoveKeeps(key);
        mpool.Free(dict[key]);
        dict := dict - {key};
        order := Without(order, key);
      } else {
        AbsentStays(key);
      }
    }

    lemma AbsentStays(key: CacheEngineKey)
      requires Ordered(order, dict) && key !in dict
      ensures Without(order, key) == order && dict - {key} == dict
    {
      WithoutAbsent(order, key);
    }

    lemma RemoveKeeps(key: CacheEngineKey)
      requires Kept() && key in dict
      ensures Chunks(mpool.freePool + [dict[key].chunkIdx], dict - {key}, inFlight, mpool.maxChunkNum)
      ensures Ordered(Without(order, key), dict - {key}) && AllOfSize(dict - {key}, mpool.sizePerChunk)
      ensures Fresh(dict - {key}, mpool.memPool, last, mpool.chunkSize) && |dict - {key}| == |dict| - 1
      ensures Covered(evictor.currentCacheSize, Used() - 1, mpool.sizePerChunk, evictor.maxCacheSize)
      ensures evictor.currentCacheSize > 0
    {
      hide Chunks, Covered, Ordered, Fresh, AllOfSize, MaxChunkNum;
      FewerKeys(dict, key);
      StillFresh(dict, mpool.memPool, last, mpool.chunkSize, mpool.sizePerChunk, key);
      GiveBack(mpool.freePool, dict, inFlight, mpool.maxChunkNum, key);
      OrderedWithout(order, dict, key);
      Fewer(evictor.currentCacheSize, Used(), Used() - 1, mpool.sizePerChunk, evictor.maxCacheSize);
      UsedIsCounted(evictor.currentCacheSize, Used(), mpool.sizePerChunk, evictor.maxCacheSize);
    }

    /** Looks a key up; a key that is found becomes the most recently used.  None is a call that never returns,
        because the lock is held. */
    method Get(key: CacheEngineKey) returns (r: Option<Option<seq<Row>>>)
      requires Kept()
      modifies this`order
      ensures Kept() && (old(Valid()) ==> Valid()) && (r.None? <==> updateLock)
      ensures r.Some? ==> r.value == if key in dict then Some(last[key]) else None
      ensures order == if r.Some? && key in dict then Without(old(order), key) + [key] else old(order)
    {
      hide Distinct, Covered, AllOfSize, Without;
      r := None;
      if !updateLock {
        r := Some(None);
        if key in dict {
          r := Some(Some(mpool.memPool[dict[key].chunkIdx][..dict[key].numTok]));
          var touched := evictor.UpdateOnGet(key, order);
          order := touched.value;
        }
      }
    }

    /** The key that one more chunk displaces, if any. */
    ghost function Displaced(): set<CacheEngineKey>
      reads this, evictor, mpool
    {
      if evictor.currentCacheSize + mpool.sizePerChunk > evictor.maxCacheSize && order != [] then {order[0]} else {}
    }

    /** The keys that stay, oldest first, when one more chunk is put. */
    ghost function Staying(): seq<CacheEngineKey>
      reads this, evictor, mpool
    {
      if Displaced() == {} then order else order[1..]
    }

    /** How a put of one more chunk starts: raises exactly when nothing is stored but the count is full,
        which takes earlier public removals. */
    ghost function StartStatus(): (status: PutStatus)
      reads this, evictor, mpool
      ensures status == Legal || status == Illegal || status == StopIteration
    {
      if mpool.sizePerChunk > evictor.maxCacheSize then Illegal
      else if dict == map[] && evictor.currentCacheSize + mpool.sizePerChunk > evictor.maxCacheSize then StopIteration
      else Legal
    }

    static ghost predicate Chosen(keys: seq<CacheEngineKey>, displaced: set<CacheEngineKey>) {
      KeySet(keys) == displaced
    }

    /** Asks the evictor which keys must go for one more chunk. */
    method Choose() returns (evictKeys: seq<CacheEngineKey>, status: PutStatus)
      requires Kept() && inFlight.None?
      modifies evictor
      ensures Kept()
      ensures status == old(StartStatus())
      ensures status != Legal ==> evictKeys == [] && evictor.currentCacheSize == old(evictor.currentCacheSize)
      ensures status == Legal ==> |evictKeys| <= 1 && Chosen(evictKeys, old(Displaced()))
      ensures status == Legal && evictKeys != [] ==> evictor.currentCacheSize == old(evictor.currentCacheSize)
      ensures status == Legal ==> WithoutAll(order, evictKeys) == old(Staying())
      ensures status == Legal ==> forall k :: k in evictKeys ==> k in dict
      ensures status == Legal ==>
                |evictKeys| <= |dict| && Covered(evictor.currentCacheSize, |dict| - |evictKeys| + 1,
                    mpool.sizePerChunk, evictor.maxCacheSize)
    {
      hide Distinct, Chunks, Fresh, Covered, LRUEvictor.CountAfter;
      ghost var count := evictor.currentCacheSize;
      CoveredCases(count, |dict|, mpool.sizePerChunk, evictor.maxCacheSize);
      FirstTwo();
      OldestIsStored();
      evictKeys, status := evictor.UpdateOnPut(order, dict, mpool.sizePerChunk);
      if |evictKeys| <= 1 { OldestLeave(order, evictKeys); }
    }

    static lemma OldestLeave(order: seq<CacheEngineKey>, keys: seq<CacheEngineKey>)
      requires Distinct(order) && keys <= order && |keys| <= 1
      ensures WithoutAll(order, keys) == order[|keys|..]
    {
      if keys != [] {
        WithoutAt(order, 0);
        assert keys == [order[0]] && keys[..0] == [];
      }
    }

    /** Evicting nothing, and evicting the oldest entry. */
    lemma FirstTwo()
      requires Kept()
      ensures order == [] <==> dict == map[]
      ensures evictor.CountAfter(order, dict, mpool.sizePerChunk, 0) == evictor.currentCacheSize + mpool.sizePerChunk
      ensures order != [] ==> evictor.CountAfter(order, dict, mpool.sizePerChunk, 1) == evictor.currentCacheSize
    {
      hide Distinct, Chunks, Fresh, Covered;
      if order != [] {
        assert order[0] in dict;
        EqualSizes(order, dict, mpool.sizePerChunk, 1);
      }
    }

    lemma CoveredCases(count: int, used: nat, size: nat, max: nat)
      requires Covered(count, used, size, max)
      ensures 0 <= count <= max && 0 < size
      ensures count + size <= max ==>
                Covered(count + size, used + 1, size, max) && Covered(count + size, used, size, max)
      ensures size <= max < count + size ==> count >= size
      ensures used > 0 ==> Covered(count, used - 1 + 1, size, max)
    {
      if count + size <= max {
        OneMore(count, used, size, max);
        Fewer(count + size, used + 1, used, size, max);
      } else if size <= max {
        SomethingIsCounted(count, used, size, max);
      }
    }

    /** Takes a chunk for new rows; the pool always has one, but rows that do not fit a chunk fail. */
    method TakeChunk(key: CacheEngineKey, rows: seq<Row>) returns (ok: bool)
      requires Kept() && inFlight.None? && key !in dict
      requires Covered(evictor.currentCacheSize, |dict| + 1, mpool.sizePerChunk, evictor.maxCacheSize)
      modifies this`inFlight, mpool`freePool
      ensures Kept() && (ok <==> |rows| <= mpool.chunkSize)
      ensures ok ==> Valid() && inFlight.Some? && inFlight.value.key == key && inFlight.value.rows == rows
      ensures !ok ==> inFlight.None? && (Valid() <==> dict != map[])
    {
      hide Distinct, Covered, Fresh, AllOfSize, Chunks, MaxChunkNum;
      PoolIsNotDry(mpool.freePool, dict, mpool.maxChunkNum, evictor.currentCacheSize, mpool.sizePerChunk,
          evictor.maxCacheSize);
      UsedIsCounted(evictor.currentCacheSize, |dict| + 1, mpool.sizePerChunk, evictor.maxCacheSize);
      ghost var free := mpool.freePool;
      var obj := mpool.Allocate(|rows|);
      ok := obj.Some?;
      if ok {
        inFlight := Some(InFlight(key, obj.value, rows));
        Take(free, dict, mpool.maxChunkNum, inFlight.value);
        assert free[..|free| - 1] == mpool.freePool;
      }
    }

    /** The worker's second step: the rows are in place and the key becomes visible. */
    method PutFinish()
      requires Kept() && inFlight.Some?
      modifies this`order, this`dict, this`inFlight, this`last, mpool`memPool
      ensures Valid() && inFlight.None?
      ensures var f := old(inFlight.value);
              dict == old(dict)[f.key := f.obj] && order == old(order) + [f.key] && last == old(last)[f.key := f.rows]
    {
      hide Distinct, Covered, Fresh, AllOfSize, Chunks, MaxChunkNum;
      var f := inFlight.value;
      LandingKeeps(f);
      ghost var before := mpool.memPool;
      mpool.Fill(f.obj, f.rows);
      StaysFresh(dict, before, mpool.memPool, last, mpool.chunkSize, f, mpool.freePool, mpool.maxChunkNum);
      order := order + [f.key];
      dict := dict[f.key := f.obj];
      last := last[f.key := f.rows];
      inFlight := None;
    }

    lemma LandingKeeps(f: InFlight)
      requires Kept() && inFlight == Some(f)
      ensures f.obj.chunkIdx < |mpool.memPool| && |mpool.memPool[f.obj.chunkIdx]| == mpool.chunkSize
      ensures Chunks(mpool.freePool, dict[f.key := f.obj], None, mpool.maxChunkNum)
      ensures Ordered(order + [f.key], dict[f.key := f.obj]) && AllOfSize(dict[f.key := f.obj], mpool.sizePerChunk)
      ensures |dict[f.key := f.obj]| == |dict| + 1
      ensures 0 < evictor.currentCacheSize
    {
      hide Covered, Fresh, MaxChunkNum;
      Land(mpool.freePool, dict, mpool.maxChunkNum, f);
      assert dict[f.key := f.obj].Keys == dict.Keys + {f.key};
      UsedIsCounted(evictor.currentCacheSize, Used(), mpool.sizePerChunk, evictor.maxCacheSize);
    }

    static lemma StaysFresh(dict: Cached, before: seq<seq<Row>>, after: seq<seq<Row>>,
                            last: map<CacheEngineKey, seq<Row>>,
                            chunkSize: nat, f: InFlight, free: seq<nat>, n: nat)
      requires Fresh(dict, before, last, chunkSize) && Chunks(free, dict, Some(f), n) && |before| == |after|
      requires f.key !in dict && f.obj.numTok <= chunkSize && DataIn(after, f.obj) == f.rows
      requires forall i :: 0 <= i < |after| && i != f.obj.chunkIdx ==> after[i] == before[i]
      ensures Fresh(dict[f.key := f.obj], after, last[f.key := f.rows], chunkSize)
    {
      hide Distinct;
    }

    method Drop(keys: seq<CacheEngineKey>) returns (ok: bool)
      requires Kept() && |keys| <= 1
      modifies this`order, this`dict, mpool`freePool
      ensures Kept() && (ok <==> KeySet(keys) <= old(dict).Keys)
      ensures dict == old(dict) - KeySet(keys) && order == WithoutAll(old(order), keys)
      ensures |dict| == if ok then |old(dict)| - |keys| else |old(dict)|
    {
      hide Kept;
      ghost var before := dict;
      SizeAfter(before, keys);
      ok := true;
      var i := 0;
      while i < |keys| && ok
        invariant i <= |keys| && Kept() && (i == 0 ==> ok && dict == before && order == old(order))
        invariant i == 1 ==> (ok <==> keys[0] in before) && dict == before - {keys[0]}
        invariant i == 1 ==> order == Without(old(order), keys[0])
      {
        ok := Remove(keys[i]);
        i := i + 1;
      }
    }

    static lemma SizeAfter(dict: Cached, keys: seq<CacheEngineKey>)
      requires |keys| <= 1
      ensures KeySet(keys) == if keys == [] then {} else {keys[0]}
      ensures |dict - KeySet(keys)| == if keys != [] && keys[0] in dict then |dict| - 1 else |dict|
      ensures keys == [] || keys[0] !in dict ==> dict - KeySet(keys) == dict
    {
      if keys != [] && keys[0] in dict {
        assert KeySet(keys) == {keys[0]};
        FewerKeys(dict, keys[0]);
      } else {
        assert dict - KeySet(keys) == dict;
      }
    }

    /** Drops what a key holds, if anything. */
    method DropOwn(key: CacheEngineKey)
      requires Kept()
      modifies this`order, this`dict, mpool`freePool
      ensures Kept() && dict == old(dict) - {key} && |old(dict)| - 1 <= |dict| <= |old(dict)|
      ensures order == Without(old(order), key)
    {
      hide Kept;
      SizeAfter(dict, [key]);
      if key in dict {
        var _ := Remove(key);
      } else {
        NotOrdered(key);
      }
    }

    lemma NotOrdered(key: CacheEngineKey)
      requires Kept() && key !in dict
      ensures Without(order, key) == order
    {
      AbsentStays(key);
    }

    /** The worker's first step: makes room, drops what the key held, takes a chunk.  An exception on the way
        leaves the lock held, and then no further put gets anywhere. */
    method PutStart(key: CacheEngineKey, rows: seq<Row>) returns (status: PutStatus)
      requires Kept() && inFlight.None?
      modifies this`order, this`dict, this`inFlight, this`updateLock, mpool`freePool, evictor
      ensures status == if old(updateLock) then Blocked
                        else if old(StartStatus()) == Legal && |rows| > mpool.chunkSize then AssertionError
                        else old(StartStatus())
      ensures Kept() && (old(Valid()) ==> status != StopIteration)
      ensures updateLock <==> status == Blocked || status == StopIteration || status == AssertionError
      ensures status != Legal ==> inFlight.None?
      ensures status != Legal && status != AssertionError ==> dict == old(dict) && order == old(order)
      ensures status != Legal && status != AssertionError ==>
                evictor.currentCacheSize == old(evictor.currentCacheSize)
      ensures status == Legal ==> Valid() && inFlight.Some? && inFlight.value.key == key && inFlight.value.rows == rows
      ensures status == Legal || status == AssertionError ==> dict == old(dict) - old(Displaced()) - {key}
      ensures status == Legal || status == AssertionError ==> order == Without(old(Staying()), key)
      ensures status == AssertionError ==> (Valid() <==> dict != map[])
    {
      hide Kept, Covered, Valid, StartStatus, Displaced, KeySet, Without, WithoutAll, Staying;
      status := Blocked;
      if !updateLock {
        RoomWhenValid();
        var evictKeys;
        evictKeys, status := Choose();
        if status == Legal {
          var ok := StartWith(key, rows, evictKeys);
          if !ok { status := AssertionError; }
        }
        HoldLock(status == StopIteration || status == AssertionError);
      }
    }

    /** What the worker does with the evictor's answer. */
    method StartWith(key: CacheEngineKey, rows: seq<Row>, evictKeys: seq<CacheEngineKey>) returns (ok: bool)
      requires Kept() && inFlight.None? && |evictKeys| <= 1
      requires (forall k :: k in evictKeys ==> k in dict) && |evictKeys| <= |dict|
      requires Covered(evictor.currentCacheSize, |dict| - |evictKeys| + 1, mpool.sizePerChunk, evictor.maxCacheSize)
      modifies this`order, this`dict, this`inFlight, mpool`freePool
      ensures Kept() && (ok <==> |rows| <= mpool.chunkSize) && dict == old(dict) - KeySet(evictKeys) - {key}
      ensures order == Without(WithoutAll(old(order), evictKeys), key)
      ensures ok ==> Valid() && inFlight.Some? && inFlight.value.key == key && inFlight.value.rows == rows
      ensures !ok ==> inFlight.None? && (Valid() <==> dict != map[])
    {
      hide Kept, Covered, Valid, KeySet, Without, WithoutAll;
      ghost var count := |dict| - |evictKeys| + 1;
      ChosenAreStored(evictKeys);
      var dropped := Drop(evictKeys);
      DropOwn(key);
      FewerThan(count, |dict| + 1);
      ok := TakeChunk(key, rows);
    }

    /** Nothing but the lock changes. */
    method HoldLock(held: bool)
      requires Kept()
      modifies this`updateLock
      ensures Kept() && updateLock == held && (Valid() <==> old(Valid()))
    {
      hide Distinct, Covered, Fresh, AllOfSize, Chunks, Ordered;
      updateLock := held;
    }

    lemma ChosenAreStored(keys: seq<CacheEngineKey>)
      requires forall k :: k in keys ==> k in dict
      ensures KeySet(keys) <= dict.Keys
    {
    }

    lemma RoomWhenValid()
      requires Kept() && inFlight.None?
      ensures Valid() ==> StartStatus() != StopIteration
    {
    }

    lemma OldestIsStored()
      requires Kept()
      ensures order != [] ==> order[0] in dict
    {
      assert order != [] ==> order[0] in order;
    }

    lemma FewerThan(used: int, less: nat)
      requires Kept() && 0 <= less <= used
      requires Covered(evictor.currentCacheSize, used, mpool.sizePerChunk, evictor.maxCacheSize)
      ensures Covered(evictor.currentCacheSize, less, mpool.sizePerChunk, evictor.maxCacheSize)
    {
      Fewer(evictor.currentCacheSize, used, less, mpool.sizePerChunk, evictor.maxCacheSize);
    }

    /** Makes room in the order of the blocking put: what the key held goes first, then the key to evict. */
    method MakeRoom(key: CacheEngineKey) returns (status: PutStatus)
      requires Kept() && inFlight.None?
      modifies this`order, this`dict, mpool`freePool, evictor
      ensures Kept()
      ensures status == if old(StartStatus()) == Legal && key in old(dict) && key in old(Displaced()) then KeyError
                        else old(StartStatus())
      ensures status == Legal ==> dict == old(dict) - {key} - old(Displaced()) && order == Without(old(Staying()), key)
      ensures status == Legal ==>
                Covered(evictor.currentCacheSize, |dict| + 1, mpool.sizePerChunk, evictor.maxCacheSize)
      ensures status == KeyError ==>
                dict == old(dict) - {key} && evictor.currentCacheSize == old(evictor.currentCacheSize)
      ensures status == KeyError ==> order == Without(old(order), key) && (Valid() <==> dict != map[])
      ensures status == Illegal || status == StopIteration ==> dict == old(dict) && order == old(order)
    {
      hide *;
      CountWhenFull();
      ghost var displaced := Displaced();
      var evictKeys;
      evictKeys, status := Choose();
      if status == Legal {
        var ok := DropBoth(key, evictKeys, displaced);
        ValidWhenStored();
        if !ok { status := KeyError; }
      }
    }

    /** Drops what the key held and then the key to evict, which fails when it is the same key. */
    method DropBoth(key: CacheEngineKey, evictKeys: seq<CacheEngineKey>, ghost displaced: set<CacheEngineKey>)
      returns (ok: bool)
      requires Kept() && inFlight.None? && |evictKeys| <= 1 && Chosen(evictKeys, displaced)
      requires (forall k :: k in evictKeys ==> k in dict) && |evictKeys| <= |dict|
      requires Covered(evictor.currentCacheSize, |dict| - |evictKeys| + 1, mpool.sizePerChunk, evictor.maxCacheSize)
      modifies this`order, this`dict, mpool`freePool
      ensures Kept() && (ok <==> key !in displaced)
      ensures ok ==> dict == old(dict) - {key} - displaced && order == Without(WithoutAll(old(order), evictKeys), key)
      ensures !ok ==> order == Without(old(order), key)
      ensures ok ==> Covered(evictor.currentCacheSize, |dict| + 1, mpool.sizePerChunk, evictor.maxCacheSize)
      ensures !ok ==> dict == old(dict) - {key} && key in old(dict) && evictKeys != []
    {
      hide Kept, Covered, KeySet, Without, WithoutAll;
      ghost var before, count := dict, |dict| - |evictKeys| + 1;
      ChosenAreStored(evictKeys);
      SwapWithout(order, key, evictKeys);
      DropOwn(key);
      OneChosen(evictKeys, key, before);
      ok := Drop(evictKeys);
      if ok { FewerThan(count, |dict| + 1); }
    }

    static lemma SwapWithout(order: seq<CacheEngineKey>, key: CacheEngineKey, keys: seq<CacheEngineKey>)
      requires |keys| <= 1
      ensures WithoutAll(Without(order, key), keys) == Without(WithoutAll(order, keys), key)
      ensures key in keys ==> WithoutAll(Without(order, key), keys) == Without(order, key)
    {
      if keys != [] {
        assert keys[..0] == [];
        WithoutBoth(order, key, keys[0]);
        if key == keys[0] { WithoutAbsent(Without(order, key), key); }
      }
    }

    static lemma {:induction false} WithoutBoth(order: seq<CacheEngineKey>, j: CacheEngineKey, k: CacheEngineKey)
      ensures Without(Without(order, j), k) == Without(Without(order, k), j)
    {
      if order != [] {
        var init, last := order[..|order| - 1], order[|order| - 1];
        WithoutBoth(init, j, k);
        var a, b := Without(init, j), Without(init, k);
        assert (a + [last])[..|a|] == a && (b + [last])[..|b|] == b;
      }
    }

    /** After the key itself is dropped, the key to evict is still stored unless it is the same. */
    static lemma OneChosen(keys: seq<CacheEngineKey>, key: CacheEngineKey, before: Cached)
      requires |keys| <= 1 && KeySet(keys) <= before.Keys
      ensures KeySet(keys) <= (before - {key}).Keys <==> key !in KeySet(keys)
      ensures key in KeySet(keys) ==> key in before && before - {key} - KeySet(keys) == before - {key} && key in keys
    {
      if key in KeySet(keys) { assert before - {key} - KeySet(keys) == before - {key}; }
    }

    /** The blocking put, which does not take the lock, drops what the key held before it evicts.  So it raises
        when the key to evict is the key itself: the key is then gone, its chunk is free, and the count stays.
        Rows that do not fit a chunk are found out last. */
    method PutBlocking(key: CacheEngineKey, rows: seq<Row>) returns (status: PutStatus)
      requires Kept() && inFlight.None?
      modifies this`order, this`dict, this`inFlight, this`last, mpool`freePool, mpool`memPool, evictor
      ensures Kept() && inFlight.None?
      ensures status == if old(StartStatus()) == Legal && key in old(dict) && key in old(Displaced()) then KeyError
                        else if old(StartStatus()) == Legal && |rows| > mpool.chunkSize then AssertionError
                        else old(StartStatus())
      ensures status == Legal ==> Valid() && last == old(last)[key := rows] && key in dict
      ensures status == Legal ==> dict == (old(dict) - {key} - old(Displaced()))[key := dict[key]]
      ensures status == Legal ==> order == Without(old(Staying()), key) + [key]
      ensures status == AssertionError ==> order == Without(old(Staying()), key)
      ensures status == KeyError ==> dict == old(dict) - {key} && last == old(last) && order == Without(old(order), key)
      ensures status == KeyError ==> evictor.currentCacheSize == old(evictor.currentCacheSize)
      ensures status == AssertionError ==> dict == old(dict) - {key} - old(Displaced()) && last == old(last)
      ensures status == KeyError || status == AssertionError ==> (Valid() <==> dict != map[])
      ensures status == Illegal || status == StopIteration ==>
                dict == old(dict) && last == old(last) && order == old(order)
    {
      hide *;
      status := MakeRoom(key);
      if status == Legal {
        var ok := StoreRows(key, rows);
        if !ok { status := AssertionError; }
      }
    }

    /** Takes a chunk and fills it. */
    method StoreRows(key: CacheEngineKey, rows: seq<Row>) returns (ok: bool)
      requires Kept() && inFlight.None? && key !in dict
      requires Covered(evictor.currentCacheSize, |dict| + 1, mpool.sizePerChunk, evictor.maxCacheSize)
      modifies this`order, this`dict, this`inFlight, this`last, mpool`freePool, mpool`memPool
      ensures Kept() && inFlight.None? && (ok <==> |rows| <= mpool.chunkSize)
      ensures ok ==> Valid() && last == old(last)[key := rows] && key in dict && dict == old(dict)[key := dict[key]]
      ensures order == if ok then old(order) + [key] else old(order)
      ensures !ok ==> dict == old(dict) && last == old(last) && (Valid() <==> dict != map[])
    {
      hide Kept, Covered, Valid;
      ok := TakeChunk(key, rows);
      if ok {
        PutFinish();
        ValidIsKept();
      }
    }

    lemma ValidIsKept()
      requires Valid()
      ensures Kept()
    {
    }

    lemma FirstPut()
      requires Valid() && dict == map[] && inFlight.None?
      ensures Kept() && order == [] && Displaced() == {}
      ensures StartStatus() == if mpool.sizePerChunk > evictor.maxCacheSize then Illegal else Legal
    {
      if order != [] { OldestIsStored(); }
    }

    lemma StoredIsCounted()
      requires Valid() && dict != map[]
      ensures Kept() && evictor.currentCacheSize >= mpool.sizePerChunk
    {
      hide Ordered, Chunks, Fresh, AllOfSize;
      UsedIsCounted(evictor.currentCacheSize, Used(), mpool.sizePerChunk, evictor.maxCacheSize);
    }

    lemma OrderIsNotEmpty()
      requires Kept() && dict != map[]
      ensures order != []
    {
      var k :| k in dict;
      assert k in order;
    }

    lemma CountWhenFull()
      requires Kept()
      ensures StartStatus() == Legal && Displaced() != {} ==> evictor.currentCacheSize > 0
    {
    }

    lemma ValidWhenStored()
      requires Kept() && inFlight.None?
      ensures Valid() <==> dict != map[] || evictor.currentCacheSize == 0
    {
    }

    /** In every state between operations the count is at least the bytes stored and at most the limit,
        every chunk is in one place, and some chunk is free. */
    lemma Accounted(i: nat)
      requires Kept() && i < mpool.maxChunkNum
      ensures SizeOf(order, dict, |order|) == |dict| * mpool.sizePerChunk
      ensures |dict| * mpool.sizePerChunk <= evictor.currentCacheSize <= evictor.maxCacheSize
      ensures i in mpool.freePool || (exists k :: k in dict && dict[k].chunkIdx == i) || i in Taken(inFlight)
      ensures mpool.freePool != []
    {
      hide Distinct, Fresh;
      NoneIsLost(mpool.freePool, dict, inFlight, mpool.maxChunkNum, i);
      EqualSizes(order, dict, mpool.sizePerChunk, |order|);
      OrderCounts(order, dict);
      Fewer(evictor.currentCacheSize, Used(), |dict|, mpool.sizePerChunk, evictor.maxCacheSize);
      Fits(Used(), mpool.sizePerChunk, evictor.maxCacheSize);
    }

    static lemma {:induction false} OrderCounts(order: seq<CacheEngineKey>, dict: Cached)
      requires Ordered(order, dict)
      ensures |order| == |dict|
      decreases |order|
    {
      if order == [] {
        assert dict.Keys == {};
      } else {
        var last := order[|order| - 1];
        assert last in order;
        WithoutAt(order, |order| - 1);
        OrderedWithout(order, dict, last);
        FewerKeys(dict, last);
        OrderCounts(Without(order, last), dict - {last});
      }
    }
  }
  // ---------------------------------------------------------------- failing runs

  /** Putting a key and removing it: with room for one chunk nothing is stored but the count is full. */
  method PutAndRemove(key: CacheEngineKey, row: Row) returns (b: LMCLocalBackend)
    ensures fresh(b) && fresh(b.evictor) && fresh(b.mpool) && b.Kept() && b.inFlight.None? && !b.updateLock
    ensures b.dict == map[] && b.StartStatus() == StopIteration
  {
    hide LMCLocalBackend.Kept, LMCLocalBackend.Valid, LMCLocalBackend.Displaced, Without;
    b := new LMCLocalBackend(1, 1, 1, [row]);
    b.FirstPut();
    var _ := b.PutStart(key, [row]);
    b.PutFinish();
    b.StoredIsCounted();
    var removed := b.Remove(key);
    assert b.dict == map[];
  }

  /** The next put raises in the worker, which leaves the lock held, so that neither a further put nor a lookup
      ever returns. */
  method RemovalStalls(key: CacheEngineKey, row: Row)
    returns (b: LMCLocalBackend, second: PutStatus, third: PutStatus, found: Option<Option<seq<Row>>>)
    ensures b.Kept() && b.dict == map[] && second == StopIteration && third == Blocked && found == None
  {
    b := PutAndRemove(key, row);
    second := b.PutStart(key, [row]);
    third := b.PutStart(key, [row]);
    found := b.Get(key);
  }

  /** Putting a key twice with the blocking put: with room for one chunk the second put raises. */
  method OverwriteRaises(key: CacheEngineKey, row: Row) returns (b: LMCLocalBackend, second: PutStatus)
    ensures second == KeyError && b.dict == map[]
  {
    hide LMCLocalBackend.Kept, LMCLocalBackend.Valid, Without;
    b := new LMCLocalBackend(1, 1, 1, [row]);
    b.FirstPut();
    var first := b.PutBlocking(key, [row]);
    b.StoredIsCounted();
    b.OldestIsStored();
    b.OrderIsNotEmpty();
    second := b.PutBlocking(key, [row]);
  }
}
