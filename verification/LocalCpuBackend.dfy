/** The hot cache in host memory: an ordered map from keys to reference-counted memory objects, with
    eviction in least-recently-used order when the allocator runs out of room. */
module LocalCpuBackend {
  import opened Wrappers
  import opened CacheKeys
  import opened MemoryManagement
  import opened References
  import opened Sequences
  import Alignment

  type Hot = map<CacheEngineKey, TensorMemoryObj>

  /** The keys of the map, each once, from least to most recently used. */
  ghost predicate OrderOk(order: seq<CacheEngineKey>, hot: Hot) {
    && (forall k :: k in order <==> k in hot)
    && Distinct(order)
  }

  function Without(order: seq<CacheEngineKey>, key: CacheEngineKey): (r: seq<CacheEngineKey>)
    ensures forall k :: k in r <==> k in order && k != key
  {
    if order == [] then []
    else
      var init, last := Without(order[..|order| - 1], key), order[|order| - 1];
      assert order == order[..|order| - 1] + [last];
      if last == key then init else init + [last]
  }

  lemma {:induction false} WithoutDistinct(order: seq<CacheEngineKey>, key: CacheEngineKey)
    requires Distinct(order)
    ensures Distinct(Without(order, key))
    decreases |order|
  {
    if order != [] {
      var init, last := order[..|order| - 1], order[|order| - 1];
      WithoutDistinct(init, key);
      assert last !in init;
      assert last !in Without(init, key);
    }
  }

  lemma {:induction false} WithoutAbsent(order: seq<CacheEngineKey>, key: CacheEngineKey)
    requires key !in order
    ensures Without(order, key) == order
    decreases |order|
  {
    if order != [] {
      WithoutAbsent(order[..|order| - 1], key);
      assert order == order[..|order| - 1] + [order[|order| - 1]];
    }
  }

  ghost function KeySet(keys: seq<CacheEngineKey>): set<CacheEngineKey> { set k | k in keys }

  /** The order without any of the given keys. */
  function WithoutAll(order: seq<CacheEngineKey>, keys: seq<CacheEngineKey>): seq<CacheEngineKey> {
    if keys == [] then order else Without(WithoutAll(order, keys[..|keys| - 1]), keys[|keys| - 1])
  }

  lemma KeysSplit(keys: seq<CacheEngineKey>, i: nat)
    requires Distinct(keys) && i < |keys|
    ensures keys[i] in KeySet(keys[i..]) && KeySet(keys[i + 1..]) == KeySet(keys[i..]) - {keys[i]}
    ensures KeySet(keys[..i + 1]) == KeySet(keys[..i]) + {keys[i]}
    ensures keys[..i + 1][..i] == keys[..i] && keys[..i + 1][i] == keys[i]
  {
    assert keys[i..][0] == keys[i];
    assert keys[i..] == [keys[i]] + keys[i + 1..];
    assert keys[..i + 1] == keys[..i] + [keys[i]];
    assert keys[i] !in keys[i + 1..];
  }

  /** Without takes out one key and keeps the order of the others. */
  lemma {:induction false} WithoutAt(order: seq<CacheEngineKey>, i: nat)
    requires Distinct(order) && i < |order|
    ensures Without(order, order[i]) == order[..i] + order[i + 1..]
    decreases |order|
  {
    var init := order[..|order| - 1];
    if i == |order| - 1 {
      assert order[i] !in init;
      WithoutAbsent(init, order[i]);
    } else {
      WithoutAt(init, i);
      assert order[..i] + order[i + 1..] == init[..i] + init[i + 1..] + [order[|order| - 1]];
    }
  }

  lemma PopKeepsOrder(order: seq<CacheEngineKey>, hot: Hot, key: CacheEngineKey)
    requires OrderOk(order, hot)
    ensures OrderOk(Without(order, key), hot - {key})
  {
    WithoutDistinct(order, key);
  }

  lemma PushKeepsOrder(order: seq<CacheEngineKey>, hot: Hot, key: CacheEngineKey, o: TensorMemoryObj)
    requires OrderOk(order, hot) && key !in hot
    ensures OrderOk(order + [key], hot[key := o])
  {
  }

  lemma TouchKeepsOrder(order: seq<CacheEngineKey>, hot: Hot, key: CacheEngineKey)
    requires OrderOk(order, hot) && key in hot
    ensures OrderOk(Without(order, key) + [key], hot)
  {
    PopKeepsOrder(order, hot, key);
    PushKeepsOrder(Without(order, key), hot - {key}, key, hot[key]);
    assert (hot - {key})[key := hot[key]] == hot;
  }

  // ---------------------------------------------------------------- recency

  /** When a key was last used, as a position in the sequence of uses; -1 if never. */
  ghost function LastUse(uses: seq<CacheEngineKey>, key: CacheEngineKey): (n: int)
    ensures -1 <= n < |uses|
  {
    if uses == [] then -1
    else if uses[|uses| - 1] == key then |uses| - 1 else LastUse(uses[..|uses| - 1], key)
  }

  /** The keys are in the order of their last use. */
  ghost predicate ByUse(order: seq<CacheEngineKey>, uses: seq<CacheEngineKey>) {
    forall i, j :: 0 <= i < j < |order| ==> LastUse(uses, order[i]) < LastUse(uses, order[j])
  }

  lemma UsedLast(uses: seq<CacheEngineKey>, key: CacheEngineKey)
    ensures LastUse(uses + [key], key) == |uses|
    ensures forall k :: k != key ==> LastUse(uses + [key], k) == LastUse(uses, k)
  {
    assert (uses + [key])[..|uses|] == uses;
  }

  /** A key that is used goes to the end. */
  lemma UsedGoesLast(order: seq<CacheEngineKey>, uses: seq<CacheEngineKey>, key: CacheEngineKey)
    requires ByUse(order, uses) && key !in order
    ensures ByUse(order + [key], uses + [key])
  {
    UsedLast(uses, key);
    var all := order + [key];
    forall i, j | 0 <= i < j < |all| ensures LastUse(uses + [key], all[i]) < LastUse(uses + [key], all[j]) {
      assert all[i] in order;
      if j < |order| { assert all[j] in order; }
    }
  }

  lemma {:induction false} ByUseWithout(order: seq<CacheEngineKey>, uses: seq<CacheEngineKey>, key: CacheEngineKey)
    requires ByUse(order, uses)
    ensures ByUse(Without(order, key), uses)
    decreases |order|
  {
    if order != [] {
      var init, last := order[..|order| - 1], order[|order| - 1];
      ByUseWithout(init, uses, key);
      var rest := Without(init, key);
      forall i | 0 <= i < |rest| ensures LastUse(uses, rest[i]) < LastUse(uses, last) {
        assert rest[i] in init;
        var j :| 0 <= j < |init| && init[j] == rest[i];
        assert order[j] == rest[i];
      }
    }
  }

  lemma {:induction false} ByUseWithoutAll(order: seq<CacheEngineKey>, uses: seq<CacheEngineKey>,
      keys: seq<CacheEngineKey>)
    requires ByUse(order, uses)
    ensures ByUse(WithoutAll(order, keys), uses)
    decreases |keys|
  {
    if keys != [] {
      ByUseWithoutAll(order, uses, keys[..|keys| - 1]);
      ByUseWithout(WithoutAll(order, keys[..|keys| - 1]), uses, keys[|keys| - 1]);
    }
  }

  lemma {:induction false} OwnUses(order: seq<CacheEngineKey>)
    requires Distinct(order)
    ensures ByUse(order, order)
    decreases |order|
  {
    if order != [] {
      var init, last := order[..|order| - 1], order[|order| - 1];
      OwnUses(init);
      UsedGoesLast(init, init, last);
      assert init + [last] == order;
    }
  }

  lemma {:induction false} CandsByUse(order: seq<CacheEngineKey>, hot: Hot, refs: Refs, uses: seq<CacheEngineKey>)
    requires ByUse(order, uses)
    ensures ByUse(Cands(order, hot, refs), uses)
    ensures forall k :: k in Cands(order, hot, refs) <==> k in order && k in hot && refs[hot[k]] <= 1
    decreases |order|
  {
    if order != [] {
      var init, last := order[..|order| - 1], order[|order| - 1];
      CandsByUse(init, hot, refs, uses);
      assert order == init + [last];
      var rest := Cands(init, hot, refs);
      forall i | 0 <= i < |rest| ensures LastUse(uses, rest[i]) < LastUse(uses, last) {
        assert rest[i] in init;
        var j :| 0 <= j < |init| && init[j] == rest[i];
        assert order[j] == rest[i];
      }
    }
  }

  /** Of what was cached, only what nothing else held is gone, and each key that is gone was last used before
      every key that is kept and that nothing else held either. */
  ghost predicate LeastRecent(hot0: Hot, refs: Refs, hot: Hot, uses: seq<CacheEngineKey>) {
    && (forall k :: k in hot0 && k !in hot ==> refs[hot0[k]] <= 1)
    && forall k, j :: k in hot0 && k !in hot && j in hot0 && j in hot && refs[hot0[j]] <= 1 ==>
         LastUse(uses, k) < LastUse(uses, j)
  }

  /** Keys evicted in order are the least recently used. */
  lemma LeastRecentGo(order: seq<CacheEngineKey>, hot: Hot, refs: Refs, uses: seq<CacheEngineKey>,
      evicted: seq<CacheEngineKey>)
    requires OrderOk(order, hot) && ByUse(order, uses) && evicted <= Cands(order, hot, refs)
    ensures LeastRecent(hot, refs, hot - KeySet(evicted), uses)
  {
    hide LastUse, Cands;
    CandsByUse(order, hot, refs, uses);
    var cands := Cands(order, hot, refs);
    forall k, j | k in evicted && j in hot && j !in evicted && refs[hot[j]] <= 1
      ensures LastUse(uses, k) < LastUse(uses, j)
    {
      var a, b :| 0 <= a < |evicted| && evicted[a] == k && 0 <= b < |cands| && cands[b] == j;
      assert b >= |evicted| && cands[a] == k;
    }
  }

  lemma NoneGone(hot0: Hot, refs: Refs, hot: Hot, uses: seq<CacheEngineKey>)
    requires hot0.Keys <= hot.Keys
    ensures LeastRecent(hot0, refs, hot, uses)
  {
  }

  /** Caching a key that was not cached changes nothing about what is gone. */
  lemma StillLeastRecent(hot0: Hot, refs: Refs, hot: Hot, uses: seq<CacheEngineKey>, key: CacheEngineKey, more: Hot)
    requires LeastRecent(hot0, refs, hot, uses) && key !in hot0 && hot.Keys <= more.Keys <= hot.Keys + {key}
    ensures LeastRecent(hot0, refs, more, uses)
  {
  }

  // ---------------------------------------------------------------- what an eviction pass does

  /** The state an eviction pass starts from. */
  datatype Start = Start(refs: Refs, ext: Refs, live: set<TensorMemoryObj>, pinned: set<TensorMemoryObj>)

  /** The keys, in order, whose object nothing but the cache refers to. */
  ghost function Cands(order: seq<CacheEngineKey>, hot: Hot, refs: Refs): seq<CacheEngineKey> {
    if order == [] then []
    else
      var cs, last := Cands(order[..|order| - 1], hot, refs), order[|order| - 1];
      if last in hot && refs[hot[last]] <= 1 then cs + [last] else cs
  }

  /** The objects whose memory is freed by evicting the given keys: a pinned object keeps its memory. */
  ghost function FreedBy(keys: seq<CacheEngineKey>, hot: Hot, pinned: set<TensorMemoryObj>): set<TensorMemoryObj> {
    if keys == [] then {}
    else
      var s, last := FreedBy(keys[..|keys| - 1], hot, pinned), keys[|keys| - 1];
      if last in hot && hot[last] !in pinned then s + {hot[last]} else s
  }

  /** After evicting fewer than m of the keys, no run of the given size is free. */
  ghost predicate NoFits(st: Start, keys: seq<CacheEngineKey>, hot: Hot, n: int, size: int, m: int) {
    forall j :: 0 <= j < m && j <= |keys| ==> NoRun(st.live - FreedBy(keys[..j], hot, st.pinned), n, size)
  }

  lemma EvictStep(st: Start, keys: seq<CacheEngineKey>, hot: Hot, n: int, size: int, key: CacheEngineKey)
    requires key in hot && key !in KeySet(keys)
    ensures FreedBy(keys + [key], hot, st.pinned) ==
            FreedBy(keys, hot, st.pinned) + if hot[key] !in st.pinned then {hot[key]} else {}
    ensures KeySet(keys + [key]) == KeySet(keys) + {key} && (Distinct(keys) ==> Distinct(keys + [key]))
    ensures forall m ::
              m <= |keys| + 1 && NoFits(st, keys, hot, n, size, m) ==> NoFits(st, keys + [key], hot, n, size, m)
    ensures NoFits(st, keys, hot, n, size, |keys| + 1) ==>
              NoRun(st.live - FreedBy(keys + [key], hot, st.pinned), n, size) ==>
                NoFits(st, keys + [key], hot, n, size, |keys| + 2)
  {
    hide FreedBy, NoRun;
    assert (keys + [key])[..|keys|] == keys;
    FreedByStep(keys, hot, st.pinned, key);
    assert forall j :: 0 <= j <= |keys| ==> (keys + [key])[..j] == keys[..j];
    assert (keys + [key])[..|keys| + 1] == keys + [key];
  }

  lemma FreedByStep(keys: seq<CacheEngineKey>, hot: Hot, pinned: set<TensorMemoryObj>, key: CacheEngineKey)
    requires key in hot
    ensures FreedBy(keys + [key], hot, pinned) == FreedBy(keys, hot, pinned) + if hot[key] !in pinned then {hot[key]}
        else {}
  {
    assert (keys + [key])[..|keys|] == keys;
  }

  lemma LastNoFit(st: Start, keys: seq<CacheEngineKey>, hot: Hot, n: int, size: int)
    requires NoFits(st, keys, hot, n, size, |keys|)
    ensures NoRun(st.live - FreedBy(keys, hot, st.pinned), n, size) ==> NoFits(st, keys, hot, n, size, |keys| + 1)
  {
    hide FreedBy, NoRun;
    assert keys[..|keys|] == keys;
  }

  lemma {:induction false} CandsPrefix(order: seq<CacheEngineKey>, hot: Hot, refs: Refs, i: nat)
    requires i <= |order|
    ensures Cands(order[..i], hot, refs) <= Cands(order, hot, refs)
    decreases |order|
  {
    if i < |order| {
      CandsPrefix(order[..|order| - 1], hot, refs, i);
      assert order[..|order| - 1][..i] == order[..i];
    } else {
      assert order[..i] == order;
    }
  }

  lemma {:induction false} CandsAreKeys(order: seq<CacheEngineKey>, hot: Hot, refs: Refs)
    ensures forall k :: k in Cands(order, hot, refs) ==> k in order
    ensures Distinct(order) ==> Distinct(Cands(order, hot, refs))
    decreases |order|
  {
    if order != [] {
      CandsAreKeys(order[..|order| - 1], hot, refs);
      assert order == order[..|order| - 1] + [order[|order| - 1]];
      assert Distinct(order) ==> order[|order| - 1] !in order[..|order| - 1];
    }
  }

  lemma NextKeyIsNew(order: seq<CacheEngineKey>, hot: Hot, refs: Refs, i: nat)
    requires OrderOk(order, hot) && i < |order|
    ensures order[i] in hot && order[i] !in KeySet(Cands(order[..i], hot, refs))
    ensures Cands(order[..i + 1], hot, refs) ==
            if refs[hot[order[i]]] <= 1 then Cands(order[..i], hot, refs) + [order[i]] else Cands(order[..i], hot, refs)
  {
    CandsAreKeys(order[..i], hot, refs);
    assert order[..i + 1][..i] == order[..i];
    assert order[i] in order;
  }

  lemma NothingGone(order: seq<CacheEngineKey>, hot: Hot)
    ensures hot - KeySet([]) == hot && WithoutAll(order, []) == order
  {
  }

  class LocalCPUBackend {
    const allocator: TensorMemoryAllocator
    const useHot: bool
    var order: seq<CacheEngineKey>
    var hot: Hot
    /** All references, those held outside the cache (by callers and by writes in flight), and the
        objects that lost their last reference while pinned. */
    ghost var refs: Refs
    ghost var ext: Refs
    ghost var leaked: set<TensorMemoryObj>

    ghost predicate Counts()
      reads this`refs, this`leaked, allocator, allocator.blocks, allocator.live
    {
      allocator.Valid() && Balanced(refs, allocator.live, leaked)
    }

    /** Every object reachable from the cache or held outside is live and counts exactly its holders;
        every other live object was leaked by a pin.  With the cache switched off nothing is cached. */
    ghost predicate Valid()
      reads this, allocator, allocator.blocks, allocator.live
    {
      Counts() && OrderOk(order, hot) && refs == ValuesOf(hot) + ext && (!useHot ==> hot == map[])
    }

    /** What lost its last reference while pinned stays live; no operation below takes anything off this set. */
    lemma LeakedIsLive(o: TensorMemoryObj)
      requires Valid() && o in leaked
      ensures o in allocator.live && o.isPin && o.refCount <= 0 && o !in refs
    {
    }

    /** No live object is pinned. */
    ghost predicate Unpinned()
      reads allocator, allocator.live
    {
      forall o :: o in allocator.live ==> !o.isPin
    }

    /** What is live after one reference to o goes: o's memory is freed with the last one, unless pinned. */
    ghost function LiveAfterDrop(o: TensorMemoryObj): set<TensorMemoryObj>
      reads this`refs, allocator`live, o`isPin
    {
      if refs[o] == 1 && !o.isPin then allocator.live - {o} else allocator.live
    }

    constructor (allocator: TensorMemoryAllocator, useHot: bool)
      requires allocator.Valid() && allocator.live == {}
      ensures Valid() && hot == map[] && ext == multiset{} && leaked == {}
      ensures this.allocator == allocator && this.useHot == useHot
    {
      this.allocator, this.useHot := allocator, useHot;
      order, hot, refs, ext, leaked := [], map[], multiset{}, multiset{}, {};
    }

    // -------------------------------------------------------------- reference counts

    method IncRef(o: TensorMemoryObj)
      requires Counts() && o in refs
      modifies this`refs, o`refCount
      ensures Counts() && refs == old(refs) + multiset{o}
    {
      hide Reach;
      GainReach(refs, allocator.live, leaked, o);
      o.RefCountUp();
      refs := refs + multiset{o};
    }

    method DecRef(o: TensorMemoryObj)
      requires Counts() && o in refs
      modifies this`refs, this`leaked, o`refCount, o`valid, allocator`explicitList, allocator`free, allocator`blocks
      modifies allocator`numActive, allocator`totalAllocated, allocator`live, allocator.blocks
      ensures Counts() && refs == old(refs) - multiset{o}
      ensures o.refCount == old(o.refCount) - 1 && allocator.Known(o)
      ensures allocator.blocks >= old(allocator.blocks) && fresh(allocator.blocks - old(allocator.blocks))
      ensures allocator.live == if old(refs)[o] == 1 && !o.isPin then old(allocator.live) - {o} else old(allocator.live)
      ensures leaked == if old(refs)[o] == 1 && o.isPin then old(leaked) + {o} else old(leaked)
    {
      hide Reach, TensorMemoryAllocator.Valid;
      DropReach(refs, allocator.live, leaked, o);
      allocator.LiveIsKnown(o);
      BlocksAreApart();
      o.RefCountDown();
      if o.refCount == 0 && o.isPin {
        leaked := leaked + {o};
      }
      refs := refs - multiset{o};
    }

    lemma BlocksAreApart()
      ensures allocator.live !! allocator.blocks
    {
    }

    // -------------------------------------------------------------- the hot cache

    /** Takes a key out of the cache and drops the cache's reference to its object. */
    method PopKey(key: CacheEngineKey)
      requires Valid() && key in hot
      modifies this`order, this`hot, this`refs, this`leaked, allocator.live`refCount, allocator.live`valid
      modifies allocator`explicitList, allocator`free, allocator`blocks, allocator`numActive
      modifies allocator`totalAllocated, allocator`live, allocator.blocks
      ensures Valid() && hot == old(hot) - {key} && order == Without(old(order), key)
      ensures allocator.blocks >= old(allocator.blocks) && fresh(allocator.blocks - old(allocator.blocks))
      ensures allocator.live == old(LiveAfterDrop(hot[key]))
      ensures old(leaked) <= leaked
    {
      hide Balanced, Reach, TensorMemoryAllocator.Valid, OrderOk, ValuesOf;
      var o := hot[key];
      HeldIsLive(key);
      PopKeepsOrder(order, hot, key);
      ValuesOfRemove(hot, key);
      order := Without(order, key);
      hot := hot - {key};
      DecRef(o);
    }

    /** Appends a key as most recently used, with a new reference to its object. */
    method PushKey(key: CacheEngineKey, o: TensorMemoryObj)
      requires Valid() && useHot && key !in hot && o in ext
      modifies this`order, this`hot, this`refs, o`refCount
      ensures Valid() && hot == old(hot)[key := o] && order == old(order) + [key]
    {
      hide Balanced, Reach, TensorMemoryAllocator.Valid, OrderOk, ValuesOf;
      PushKeepsOrder(order, hot, key, o);
      ValuesOfInsert(hot, key, o);
      order := order + [key];
      hot := hot[key := o];
      IncRef(o);
    }

    lemma HeldIsLive(key: CacheEngineKey)
      requires Valid() && key in hot
      ensures hot[key] in refs && hot[key] in allocator.live && hot[key] !in leaked
      ensures allocator.Known(hot[key]) && hot[key].valid && hot[key].parent == allocator
      ensures hot[key].refCount == refs[hot[key]]
    {
      ValuesOfHas(hot, key);
      allocator.LiveIsKnown(hot[key]);
    }

    lemma KeysInOrder()
      requires Valid()
      ensures OrderOk(order, hot) && (!useHot ==> hot == map[])
    {
    }

    lemma AllocatorIsValid()
      requires Valid()
      ensures allocator.Valid()
    {
    }

    lemma HandleIsLive(o: TensorMemoryObj)
      requires Valid() && o in ext
      ensures o in refs && o in allocator.live && o !in leaked && allocator.Known(o) && o.valid
      ensures o.parent == allocator && o.refCount == refs[o]
    {
      allocator.LiveIsKnown(o);
    }

    /** Puts an object the caller holds into the cache; an older object of that key is let go. */
    method SubmitPutTask(key: CacheEngineKey, o: TensorMemoryObj)
      requires Valid() && o in ext
      modifies this`order, this`hot, this`refs, this`leaked, allocator.live`refCount, allocator.live`valid
      modifies allocator`explicitList, allocator`free, allocator`blocks, allocator`numActive
      modifies allocator`totalAllocated, allocator`live, allocator.blocks
      ensures Valid() && allocator.live <= old(allocator.live)
      ensures allocator.blocks >= old(allocator.blocks) && fresh(allocator.blocks - old(allocator.blocks))
      ensures if useHot then hot == old(hot)[key := o] && order == Without(old(order), key) + [key]
              else hot == old(hot) && order == old(order) && allocator.live == old(allocator.live)
      ensures old(leaked) <= leaked
      ensures old(Unpinned()) ==> Unpinned()
    {
      hide Balanced, Reach, TensorMemoryAllocator.Valid, OrderOk, ValuesOf;
      HandleIsLive(o);
      if useHot {
        if key in hot {
          PopKey(key);
        } else {
          NotInOrder(key);
        }
        PushKey(key, o);
      }
    }

    lemma NotInOrder(key: CacheEngineKey)
      requires Valid() && key !in hot
      ensures Without(order, key) == order
    {
      WithoutAbsent(order, key);
    }

    /** Looks a key up; a hit becomes most recently used and the caller gets a reference. */
    method GetBlocking(key: CacheEngineKey) returns (r: Option<TensorMemoryObj>)
      requires Valid()
      modifies this`order, this`refs, this`ext, allocator.live`refCount
      ensures Valid()
      ensures r.None? <==> key !in hot
      ensures r.None? ==> ext == old(ext) && order == old(order) && refs == old(refs)
      ensures r.Some? ==> r.value == hot[key] && ext == old(ext) + multiset{r.value}
      ensures r.Some? ==> order == Without(old(order), key) + [key]
      ensures old(Unpinned()) ==> Unpinned()
    {
      hide Balanced, Reach, TensorMemoryAllocator.Valid, OrderOk, ValuesOf;
      r := None;
      if key in hot {
        var o := hot[key];
        HeldIsLive(key);
        TouchKeepsOrder(order, hot, key);
        IncRef(o);
        ext := ext + multiset{o};
        order := Without(order, key) + [key];
        r := Some(o);
      }
    }

    /** Removes a key from the cache; reports whether it was there. */
    method Remove(key: CacheEngineKey) returns (removed: bool)
      requires Valid()
      modifies this`order, this`hot, this`refs, this`leaked, allocator.live`refCount, allocator.live`valid
      modifies allocator`explicitList, allocator`free, allocator`blocks, allocator`numActive
      modifies allocator`totalAllocated, allocator`live, allocator.blocks
      ensures Valid() && allocator.live <= old(allocator.live)
      ensures allocator.blocks >= old(allocator.blocks) && fresh(allocator.blocks - old(allocator.blocks))
      ensures removed <==> key in old(hot)
      ensures if removed then allocator.live == old(LiveAfterDrop(hot[key])) else allocator.live == old(allocator.live)
      ensures hot == old(hot) - {key} && order == Without(old(order), key)
      ensures old(leaked) <= leaked
      ensures old(Unpinned()) ==> Unpinned()
    {
      hide Balanced, Reach, TensorMemoryAllocator.Valid, OrderOk, ValuesOf;
      removed := key in hot;
      if removed {
        PopKey(key);
      } else {
        NotInOrder(key);
      }
    }

    /** Caches an object the caller holds unless its key is cached already. */
    method WriteBack(key: CacheEngineKey, o: TensorMemoryObj)
      requires Valid() && o in ext
      modifies this`order, this`hot, this`refs, o`refCount
      ensures Valid()
      ensures if useHot && key !in old(hot) then hot == old(hot)[key := o] && order == old(order) + [key]
              else hot == old(hot) && order == old(order)
      ensures old(Unpinned()) ==> Unpinned()
    {
      if useHot && key !in hot {
        PushKey(key, o);
      }
    }

    /** A holder outside the cache drops its reference. */
    method Release(o: TensorMemoryObj)
      requires Valid() && o in ext
      modifies this`refs, this`ext, this`leaked, allocator.live`refCount, allocator.live`valid
      modifies allocator`explicitList, allocator`free, allocator`blocks, allocator`numActive
      modifies allocator`totalAllocated, allocator`live, allocator.blocks
      ensures Valid() && ext == old(ext) - multiset{o}
      ensures allocator.blocks >= old(allocator.blocks) && fresh(allocator.blocks - old(allocator.blocks))
      ensures allocator.live == old(LiveAfterDrop(o))
      ensures old(leaked) <= leaked
      ensures old(Unpinned()) ==> Unpinned()
    {
      hide Balanced, Reach, TensorMemoryAllocator.Valid, OrderOk, ValuesOf;
      HandleIsLive(o);
      BlocksAreApart();
      DecRef(o);
      ext := ext - multiset{o};
    }

    /** Another holder outside the cache takes a reference to an object that is already held. */
    method Acquire(o: TensorMemoryObj)
      requires Valid() && o in ext
      modifies this`refs, this`ext, o`refCount
      ensures Valid() && ext == old(ext) + multiset{o}
      ensures old(Unpinned()) ==> Unpinned()
    {
      hide Balanced, Reach, TensorMemoryAllocator.Valid, OrderOk, ValuesOf;
      IncRef(o);
      ext := ext + multiset{o};
    }

    /** Marks a cached object so that losing its last reference does not free it. */
    method Pin(key: CacheEngineKey) returns (found: bool)
      requires Valid()
      modifies allocator.live`isPin
      ensures Valid() && (found <==> key in hot)
      ensures forall o :: o in allocator.live ==> o.isPin == (old(o.isPin) || (found && o == hot[key]))
    {
      found := key in hot;
      if found {
        HeldIsLive(key);
        hot[key].isPin := true;
      }
    }

    method Unpin(key: CacheEngineKey) returns (found: bool)
      requires Valid()
      modifies allocator.live`isPin
      ensures Valid() && (found <==> key in hot)
      ensures forall o :: o in allocator.live ==> o.isPin == (old(o.isPin) && !(found && o == hot[key]))
    {
      found := key in hot;
      if found {
        HeldIsLive(key);
        hot[key].isPin := false;
      }
    }

    // -------------------------------------------------------------- eviction

    /** Mid-eviction: the keys in gone are still in the map, but their objects, each under one key only,
        have lost their last reference: their count is zero. */
    ghost predicate Evicting(gone: set<CacheEngineKey>)
      reads this, allocator, allocator.blocks, allocator.live, hot.Values
    {
      && Counts() && OrderOk(order, hot) && (!useHot ==> hot == map[])
      && gone <= hot.Keys && refs == ValuesOf(hot - gone) + ext
      && (forall k :: k in gone ==> hot[k] !in refs && hot[k].refCount == 0 && allocator.Known(hot[k]))
      && forall k, l :: k in gone && l in gone && k != l ==> hot[k] != hot[l]
    }

    method EvictOne(key: CacheEngineKey, ghost gone: set<CacheEngineKey>)
      requires Evicting(gone) && key in hot && key !in gone && hot[key].refCount <= 1
      modifies this`refs, this`leaked, allocator.live`refCount, allocator.live`valid
      modifies allocator`explicitList, allocator`free, allocator`blocks, allocator`numActive
      modifies allocator`totalAllocated, allocator`live, allocator.blocks
      ensures Evicting(gone + {key}) && refs == old(refs) - multiset{hot[key]}
      ensures old(refs)[hot[key]] == 1 && hot[key].refCount == 0
      ensures allocator.live == old(LiveAfterDrop(hot[key]))
      ensures allocator.blocks >= old(allocator.blocks) && fresh(allocator.blocks - old(allocator.blocks))
      ensures old(leaked) <= leaked
      ensures old(Unpinned()) ==> Unpinned()
    {
      hide Balanced, Reach, TensorMemoryAllocator.Valid, OrderOk, ValuesOf;
      EvictableKey(key, gone);
      BlocksAreApart();
      DecRef(hot[key]);
    }

    lemma EvictableKey(key: CacheEngineKey, gone: set<CacheEngineKey>)
      requires Evicting(gone) && key in hot && key !in gone
      ensures hot[key] in refs && hot[key] in allocator.live && hot[key] !in leaked
      ensures hot[key].refCount == refs[hot[key]] && hot[key].parent == allocator
      ensures ValuesOf(hot - gone) == ValuesOf(hot - (gone + {key})) + multiset{hot[key]}
    {
      hide ValuesOf, TensorMemoryAllocator.Valid;
      ValuesOfHas(hot - gone, key);
      ValuesOfRemove(hot - gone, key);
      assert hot - gone - {key} == hot - (gone + {key});
      allocator.LiveIsKnown(hot[key]);
    }

    /** Dropping a reference that nothing holds any more: the count goes below zero, so the guard that frees at
        zero fails, and memory stays as it is. */
    method DropDetached(o: TensorMemoryObj)
      requires Counts() && allocator.Known(o) && o !in refs && o.refCount == 0
      modifies o`refCount, o`valid, allocator`explicitList, allocator`free, allocator`blocks, allocator`numActive
      modifies allocator`totalAllocated, allocator`live, allocator.blocks
      ensures Counts() && o.refCount == old(o.refCount) - 1 == -1 && allocator.Known(o)
      ensures allocator.live == old(allocator.live)
      ensures allocator.blocks >= old(allocator.blocks) && fresh(allocator.blocks - old(allocator.blocks))
      ensures old(Unpinned()) ==> Unpinned()
    {
      hide Reach, TensorMemoryAllocator.Valid;
      DetachedIsLeaked(o);
      BlocksAreApart();
      o.RefCountDown();
    }

    lemma DetachedIsLeaked(o: TensorMemoryObj)
      requires Counts() && o !in refs
      ensures o in allocator.live ==> o in leaked
    {
    }

    /** The second decrement: the key leaves the map, and its object, whose count was zero already, goes
        to minus one. */
    method PopDetached(key: CacheEngineKey, o: TensorMemoryObj, ghost gone: set<CacheEngineKey>)
      requires Evicting(gone) && key in gone && o == hot[key]
      modifies this`order, this`hot, o`refCount, o`valid, allocator`explicitList, allocator`free, allocator`blocks
      modifies allocator`numActive, allocator`totalAllocated, allocator`live, allocator.blocks
      ensures Evicting(gone - {key}) && hot == old(hot) - {key} && order == Without(old(order), key)
      ensures o.refCount == old(o.refCount) - 1 == -1 && allocator.live == old(allocator.live)
      ensures allocator.blocks >= old(allocator.blocks) && fresh(allocator.blocks - old(allocator.blocks))
      ensures old(Unpinned()) ==> Unpinned()
    {
      hide Unpinned, Counts, OrderOk, ValuesOf;
      PopKeepsOrder(order, hot, key);
      assert hot - {key} - (gone - {key}) == hot - gone;
      order := Without(order, key);
      hot := hot - {key};
      DropDetached(o);
    }

    /** The given keys' objects, detached from the map they were in, have a count of minus one. */
    ghost predicate Detached(keys: seq<CacheEngineKey>, hot0: Hot)
      reads hot0.Values
    {
      forall k :: k in keys ==> k in hot0 && hot0[k].refCount == -1
    }

    /** Where the removal of evicted keys stands: the first i are gone. */
    ghost predicate Popped(keys: seq<CacheEngineKey>, i: nat, hot0: Hot, order0: seq<CacheEngineKey>)
      reads this, allocator, allocator.blocks, allocator.live, hot.Values, hot0.Values
    {
      && i <= |keys| && Evicting(KeySet(keys[i..])) && Detached(keys[..i], hot0)
      && hot == hot0 - KeySet(keys[..i]) && order == WithoutAll(order0, keys[..i])
    }

    lemma PopNextKey(keys: seq<CacheEngineKey>, i: nat, hot0: Hot, order0: seq<CacheEngineKey>)
      requires Popped(keys, i, hot0, order0) && i < |keys|
      ensures keys[i] in hot && hot[keys[i]] in hot0.Values
    {
      hide Evicting, Detached, WithoutAll;
      assert keys[i..][0] == keys[i];
      EvictedAreCached(KeySet(keys[i..]));
    }

    lemma EvictedAreCached(gone: set<CacheEngineKey>)
      requires Evicting(gone)
      ensures gone <= hot.Keys
    {
    }

    method PopNext(ghost keys: seq<CacheEngineKey>, ghost i: nat, key: CacheEngineKey, o: TensorMemoryObj,
        ghost hot0: Hot, ghost order0: seq<CacheEngineKey>)
      requires Popped(keys, i, hot0, order0) && i < |keys| && Distinct(keys)
      requires key == keys[i] && key in hot && o == hot[key]
      modifies this`order, this`hot, o`refCount, o`valid, allocator`explicitList, allocator`free, allocator`blocks
      modifies allocator`numActive, allocator`totalAllocated, allocator`live, allocator.blocks
      ensures Popped(keys, i + 1, hot0, order0) && allocator.live == old(allocator.live)
      ensures allocator.blocks >= old(allocator.blocks) && fresh(allocator.blocks - old(allocator.blocks))
      ensures old(Unpinned()) ==> Unpinned()
    {
      hide Unpinned, Evicting, Distinct, KeySet, WithoutAll;
      ValuesAreApart(hot0);
      WithoutNext(order0, keys, i);
      KeysSplit(keys, i);
      EvictedCount(KeySet(keys[i..]), key);
      PopDetached(key, o, KeySet(keys[i..]));
      assert hot0 - KeySet(keys[..i]) - {key} == hot0 - KeySet(keys[..i + 1]);
      assert keys[..i + 1] == keys[..i] + [key];
    }

    lemma ValuesAreApart(hot0: Hot)
      ensures hot0.Values !! allocator.blocks
    {
    }

    static lemma WithoutNext(order: seq<CacheEngineKey>, keys: seq<CacheEngineKey>, i: nat)
      requires i < |keys|
      ensures WithoutAll(order, keys[..i + 1]) == Without(WithoutAll(order, keys[..i]), keys[i])
    {
      assert keys[..i + 1][..i] == keys[..i];
    }

    lemma EvictedCount(gone: set<CacheEngineKey>, key: CacheEngineKey)
      requires Evicting(gone) && key in gone
      ensures key in hot && hot[key].refCount == 0
    {
    }

    /** Removes the evicted keys from the map; each of their objects ends with a count of minus one. */
    method PopAll(keys: seq<CacheEngineKey>, ghost gone: set<CacheEngineKey>)
      requires Evicting(gone) && gone == KeySet(keys) && Distinct(keys)
      modifies this`order, this`hot, hot.Values`refCount, hot.Values`valid, allocator`explicitList, allocator`free
      modifies allocator`blocks, allocator`numActive, allocator`totalAllocated, allocator`live, allocator.blocks
      ensures Valid() && hot == old(hot) - KeySet(keys) && order == WithoutAll(old(order), keys)
      ensures Detached(keys, old(hot)) && allocator.live == old(allocator.live)
      ensures allocator.blocks >= old(allocator.blocks) && fresh(allocator.blocks - old(allocator.blocks))
      ensures old(Unpinned()) ==> Unpinned()
    {
      hide Unpinned, Popped, Distinct, Evicting;
      ghost var hot0, order0 := hot, order;
      PopStart(keys);
      for i := 0 to |keys|
        invariant Popped(keys, i, hot0, order0) && allocator.live == old(allocator.live)
        invariant old(Unpinned()) ==> Unpinned()
        invariant allocator.blocks >= old(allocator.blocks) && fresh(allocator.blocks - old(allocator.blocks))
      {
        PopNextKey(keys, i, hot0, order0);
        PopNext(keys, i, keys[i], hot[keys[i]], hot0, order0);
      }
      PopEnd(keys, hot0, order0);
    }

    lemma PopStart(keys: seq<CacheEngineKey>)
      requires Evicting(KeySet(keys))
      ensures Popped(keys, 0, hot, order)
    {
      hide Evicting;
      assert keys[0..] == keys && keys[..0] == [];
      NothingGone(order, hot);
    }

    lemma PopEnd(keys: seq<CacheEngineKey>, hot0: Hot, order0: seq<CacheEngineKey>)
      requires Popped(keys, |keys|, hot0, order0)
      ensures Valid() && hot == hot0 - KeySet(keys) && order == WithoutAll(order0, keys) && Detached(keys, hot0)
    {
      hide Evicting, WithoutAll, Detached, Valid;
      assert keys[..|keys|] == keys && keys[|keys|..] == [] && KeySet(keys[|keys|..]) == {};
      NothingEvicted();
    }

    /** Allocates, counting the new object's single reference. */
    method AllocateCounted(rawSize: nat) returns (r: Option<TensorMemoryObj>)
      requires Counts() && 0 < rawSize
      modifies this`refs, allocator`explicitList, allocator`free, allocator`blocks, allocator`numActive
      modifies allocator`totalAllocated, allocator`live
      ensures Counts()
      ensures allocator.blocks >= old(allocator.blocks) && fresh(allocator.blocks - old(allocator.blocks))
      ensures r.None? ==> refs == old(refs) && allocator.live == old(allocator.live)
      ensures r.None? ==> NoRun(allocator.live, allocator.buffer.Length, allocator.SizeFor(rawSize))
      ensures r.Some? ==> fresh(r.value) && !r.value.isPin && r.value.rawLen == rawSize && r.value.TensorFits()
      ensures r.Some? ==> r.value.phySize == allocator.SizeFor(rawSize)
      ensures r.Some? ==> refs == old(refs) + multiset{r.value} && allocator.live == old(allocator.live) + {r.value}
      ensures r.Some? ==> LowestFree(old(allocator.live), allocator.buffer.Length, r.value.address,
          allocator.SizeFor(rawSize))
    {
      hide TensorMemoryAllocator.Valid, LowestFree, NoRun, Reach, Alignment.AlignedSize, TensorMemoryObj.TensorFits;
      ghost var before := allocator.live;
      r := allocator.Allocate(rawSize);
      if r.Some? {
        GainReach(refs, before, leaked, r.value);
        NotYet(before, r.value);
        refs := refs + multiset{r.value};
      }
    }

    lemma NotYet(before: set<TensorMemoryObj>, o: TensorMemoryObj)
      requires Reach(refs, before, leaked) && o !in before
      ensures refs[o] == 0
    {
    }

    /** One attempt to allocate; the caller of a successful attempt holds the new object. */
    method TryAllocate(rawSize: nat, ghost gone: set<CacheEngineKey>) returns (r: Option<TensorMemoryObj>)
      requires Evicting(gone) && 0 < rawSize
      modifies this`refs, this`ext
      modifies allocator`explicitList, allocator`free, allocator`blocks, allocator`numActive
      modifies allocator`totalAllocated, allocator`live
      ensures Evicting(gone)
      ensures allocator.blocks >= old(allocator.blocks) && fresh(allocator.blocks - old(allocator.blocks))
      ensures r.None? ==> refs == old(refs) && ext == old(ext) && allocator.live == old(allocator.live)
      ensures r.None? ==> NoRun(allocator.live, allocator.buffer.Length, allocator.SizeFor(rawSize))
      ensures r.Some? ==> fresh(r.value) && !r.value.isPin && r.value.rawLen == rawSize && r.value.TensorFits()
      ensures r.Some? ==> r.value.phySize == allocator.SizeFor(rawSize)
      ensures r.Some? ==> ext == old(ext) + multiset{r.value} && allocator.live == old(allocator.live) + {r.value}
      ensures r.Some? ==> LowestFree(old(allocator.live), allocator.buffer.Length, r.value.address,
          allocator.SizeFor(rawSize))
      ensures old(Unpinned()) ==> Unpinned()
    {
      hide Counts, OrderOk, ValuesOf, LowestFree, NoRun, Alignment.AlignedSize, TensorMemoryObj.TensorFits;
      r := AllocateCounted(rawSize);
      if r.Some? {
        ext := ext + multiset{r.value};
      }
    }

    ghost function Pinned(): set<TensorMemoryObj>
      reads allocator`live, allocator.live`isPin
    {
      set o | o in allocator.live && o.isPin
    }

    /** Where an eviction pass stands: started at st, it has gone over the first i keys in order, has
        evicted keys, and failed to allocate after evicting fewer than m of them. */
    ghost predicate Progress(st: Start, keys: seq<CacheEngineKey>, i: nat, size: int, m: int)
      reads this, allocator, allocator.blocks, allocator.live, hot.Values, st.live
    {
      && Evicting(KeySet(keys)) && Distinct(keys)
      && i <= |order| && keys == Cands(order[..i], hot, st.refs)
      && ext == st.ext && (forall o :: o in refs ==> refs[o] == st.refs[o])
      && (forall o :: o in st.live ==> (o.isPin <==> o in st.pinned))
      && allocator.live == st.live - FreedBy(keys, hot, st.pinned)
      && NoFits(st, keys, hot, allocator.buffer.Length, size, m)
    }

    /** A key whose object is held elsewhere is passed over. */
    lemma SkipKey(st: Start, keys: seq<CacheEngineKey>, i: nat, size: int, m: int)
      requires Progress(st, keys, i, size, m) && i < |order| && hot[order[i]].refCount > 1
      ensures Progress(st, keys, i + 1, size, m)
    {
      hide NoFits, NoRun, Cands, FreedBy, Reach, TensorMemoryAllocator.Valid, ValuesOf;
      NextKeyIsNew(order, hot, st.refs, i);
      EvictableKey(order[i], KeySet(keys));
    }

    /** Evicts the next key in order, whose object nothing else holds. */
    method EvictNext(key: CacheEngineKey, ghost st: Start, ghost keys: seq<CacheEngineKey>, ghost i: nat,
        ghost size: int, ghost m: int)
      requires Progress(st, keys, i, size, m) && m <= |keys| + 1 && i < |order|
      requires key == order[i] && hot[key].refCount <= 1
      modifies this`refs, this`leaked, allocator.live`refCount, allocator.live`valid
      modifies allocator`explicitList, allocator`free, allocator`blocks, allocator`numActive
      modifies allocator`totalAllocated, allocator`live, allocator.blocks
      ensures allocator.blocks >= old(allocator.blocks) && fresh(allocator.blocks - old(allocator.blocks))
      ensures Progress(st, keys + [key], i + 1, size, m)
      ensures old(leaked) <= leaked
      ensures old(Unpinned()) ==> Unpinned()
    {
      hide Unpinned, Balanced, Reach, TensorMemoryAllocator.Valid, OrderOk, ValuesOf, NoFits, NoRun, LowestFree, Cands,
        FreedBy, Counts;
      NextKeyIsNew(order, hot, st.refs, i);
      EvictableKey(key, KeySet(keys));
      EvictStep(st, keys, hot, allocator.buffer.Length, size, key);
      BlocksAreApart();
      EvictOne(key, KeySet(keys));
    }

    /** An allocation that succeeded after evicting keys, and could not have succeeded earlier. */
    ghost predicate Fitted(st: Start, keys: seq<CacheEngineKey>, o: TensorMemoryObj, size: int)
      reads this`ext, this`hot, allocator`live
    {
      && o !in st.live && o.phySize == size && ext == st.ext + multiset{o}
      && allocator.live == st.live - FreedBy(keys, hot, st.pinned) + {o}
      && NoFits(st, keys, hot, allocator.buffer.Length, size, |keys|)
      && LowestFree(st.live - FreedBy(keys, hot, st.pinned), allocator.buffer.Length, o.address, size)
    }

    ghost predicate EvictedSoFar(st: Start, keys: seq<CacheEngineKey>, i: nat, r: Option<TensorMemoryObj>, size: int)
      reads this, allocator, allocator.blocks, allocator.live, hot.Values, st.live
    {
      && Evicting(KeySet(keys)) && Distinct(keys) && i <= |order| && keys == Cands(order[..i], hot, st.refs)
      && (r.None? ==> Progress(st, keys, i, size, |keys| + 1))
      && (r.Some? ==> Fitted(st, keys, r.value, size))
    }

    /** Without a result, how far the pass has got is its progress. */
    lemma NotFitted(st: Start, keys: seq<CacheEngineKey>, i: nat, size: int)
      requires Progress(st, keys, i, size, |keys| + 1)
      ensures EvictedSoFar(st, keys, i, None, size)
    {
      hide Evicting, NoFits, FreedBy;
    }

    method TryNext(rawSize: nat, ghost st: Start, ghost keys: seq<CacheEngineKey>, ghost i: nat)
      returns (r: Option<TensorMemoryObj>)
      requires 0 < rawSize && Progress(st, keys, i, allocator.SizeFor(rawSize), |keys|)
      requires forall o :: o in st.live ==> allocated(o)
      modifies this`refs, this`ext
      modifies allocator`explicitList, allocator`free, allocator`blocks, allocator`numActive
      modifies allocator`totalAllocated, allocator`live
      ensures allocator.blocks >= old(allocator.blocks) && fresh(allocator.blocks - old(allocator.blocks))
      ensures EvictedSoFar(st, keys, i, r, allocator.SizeFor(rawSize))
      ensures r.Some? ==> fresh(r.value) && !r.value.isPin && r.value.rawLen == rawSize && r.value.TensorFits()
      ensures old(Unpinned()) ==> Unpinned()
    {
      hide Unpinned, Balanced, Reach, TensorMemoryAllocator.Valid, OrderOk, ValuesOf, NoFits, NoRun, LowestFree, Cands,
        FreedBy, Counts;
      LastNoFit(st, keys, hot, allocator.buffer.Length, allocator.SizeFor(rawSize));
      r := TryAllocate(rawSize, KeySet(keys));
    }

    /** One turn of the eviction loop: the i-th key is passed over, or evicted and the allocation retried. */
    method EvictTurn(rawSize: nat, ghost st: Start, before: seq<CacheEngineKey>, i: nat)
      returns (r: Option<TensorMemoryObj>, keys: seq<CacheEngineKey>)
      requires 0 < rawSize && i < |order| && Progress(st, before, i, allocator.SizeFor(rawSize), |before| + 1)
      requires forall o :: o in st.live ==> allocated(o)
      modifies this`refs, this`ext, this`leaked, allocator.live`refCount, allocator.live`valid
      modifies allocator`explicitList, allocator`free, allocator`blocks, allocator`numActive
      modifies allocator`totalAllocated, allocator`live, allocator.blocks
      ensures allocator.blocks >= old(allocator.blocks) && fresh(allocator.blocks - old(allocator.blocks))
      ensures EvictedSoFar(st, keys, i + 1, r, allocator.SizeFor(rawSize))
      ensures r.Some? ==> fresh(r.value) && !r.value.isPin && r.value.rawLen == rawSize && r.value.TensorFits()
      ensures old(leaked) <= leaked
      ensures old(Unpinned()) ==> Unpinned()
    {
      hide Unpinned, Evicting, Progress, EvictedSoFar;
      ProgressKey(st, before, i, allocator.SizeFor(rawSize), |before| + 1);
      var key := order[i];
      r, keys := None, before;
      if hot[key].refCount > 1 {
        SkipKey(st, keys, i, allocator.SizeFor(rawSize), |keys| + 1);
        NotFitted(st, keys, i + 1, allocator.SizeFor(rawSize));
      } else {
        EvictNext(key, st, keys, i, allocator.SizeFor(rawSize), |before| + 1);
        keys := before + [key];
        r := TryNext(rawSize, st, keys, i + 1);
      }
    }

    lemma ProgressKey(st: Start, keys: seq<CacheEngineKey>, i: nat, size: int, m: int)
      requires Progress(st, keys, i, size, m) && i < |order|
      ensures order[i] in hot
    {
      NextKeyIsNew(order, hot, st.refs, i);
    }

    /** The eviction loop: least recently used keys go, one by one, until the allocation succeeds. */
    method EvictUntilFits(rawSize: nat, ghost st: Start)
      returns (r: Option<TensorMemoryObj>, keys: seq<CacheEngineKey>, ghost i: nat)
      requires 0 < rawSize && Progress(st, [], 0, allocator.SizeFor(rawSize), 1) && st.live == allocator.live
      modifies this`refs, this`ext, this`leaked, allocator.live`refCount, allocator.live`valid
      modifies allocator`explicitList, allocator`free, allocator`blocks, allocator`numActive
      modifies allocator`totalAllocated, allocator`live, allocator.blocks
      ensures allocator.blocks >= old(allocator.blocks) && fresh(allocator.blocks - old(allocator.blocks))
      ensures EvictedSoFar(st, keys, i, r, allocator.SizeFor(rawSize)) && (r.None? ==> i == |order|)
      ensures r.Some? ==> fresh(r.value) && !r.value.isPin && r.value.rawLen == rawSize && r.value.TensorFits()
      ensures old(leaked) <= leaked
      ensures old(Unpinned()) ==> Unpinned()
    {
      hide Unpinned, Evicting, NoFits, NoRun, LowestFree, FreedBy, Fitted;
      var turn := 0;
      r, keys := None, [];
      while turn < |order| && r.None?
        invariant turn <= |order| && EvictedSoFar(st, keys, turn, r, allocator.SizeFor(rawSize))
        invariant r.Some? ==> fresh(r.value) && !r.value.isPin && r.value.rawLen == rawSize && r.value.TensorFits()
        invariant allocator.blocks >= old(allocator.blocks) && fresh(allocator.blocks - old(allocator.blocks))
        invariant r.None? ==> allocator.live <= old(allocator.live)
        invariant old(Unpinned()) ==> Unpinned()
        invariant old(leaked) <= leaked
      {
        r, keys := EvictTurn(rawSize, st, keys, turn);
        turn := turn + 1;
      }
      i := turn;
    }

    ghost function StartNow(): Start
      reads this`refs, this`ext, allocator`live, allocator.live`isPin
    {
      Start(refs, ext, allocator.live, Pinned())
    }

    /** What an allocation does: evicted is the shortest prefix of the candidates, in order, whose
        eviction frees a long enough run; without such a prefix all candidates go and nothing is
        allocated.  Without the eviction flag the prefix is empty. */
    ghost predicate Allocated(st: Start, cands: seq<CacheEngineKey>, hot0: Hot, eviction: bool,
        evicted: seq<CacheEngineKey>,
                              r: Option<TensorMemoryObj>, size: int)
      reads this`ext, allocator`live
    {
      var n, left := allocator.buffer.Length, st.live - FreedBy(evicted, hot0, st.pinned);
      && evicted <= cands && (!eviction ==> evicted == [])
      && match r
         case None =>
           && ext == st.ext && allocator.live == left
           && NoFits(st, evicted, hot0, n, size, |evicted| + 1) && (eviction ==> evicted == cands)
         case Some(o) =>
           && o !in st.live && o.phySize == size && ext == st.ext + multiset{o} && allocator.live == left + {o}
           && NoFits(st, evicted, hot0, n, size, |evicted|) && LowestFree(left, n, o.address, size)
    }

    lemma NothingEvicted()
      ensures Valid() <==> Evicting({})
    {
      assert hot - {} == hot;
    }

    /** A failed first attempt starts an eviction pass. */
    lemma PassStarts(size: int)
      requires Valid() && NoRun(allocator.live, allocator.buffer.Length, size)
      ensures Progress(StartNow(), [], 0, size, 1)
    {
      hide NoRun;
      NothingEvicted();
      var st, none: seq<CacheEngineKey> := StartNow(), [];
      assert order[..0] == [] && none[..0] == [] && KeySet(none) == {};
      assert st.live - FreedBy(none, hot, st.pinned) == st.live;
    }

    lemma PassEnds(st: Start, keys: seq<CacheEngineKey>, i: nat, r: Option<TensorMemoryObj>, size: int)
      requires EvictedSoFar(st, keys, i, r, size) && (r.None? ==> i == |order|)
      ensures Allocated(st, Cands(order, hot, st.refs), hot, true, keys, r, size)
    {
      hide Evicting, NoFits, LowestFree, FreedBy;
      CandsPrefix(order, hot, st.refs, i);
      assert order[..|order|] == order;
    }

    lemma FirstTry(st: Start, eviction: bool, r: Option<TensorMemoryObj>, size: int)
      requires r.None? ==> !eviction && ext == st.ext && allocator.live == st.live
      requires r.None? ==> NoRun(st.live, allocator.buffer.Length, size)
      requires r.Some? ==>
                 r.value !in st.live && ext == st.ext + multiset{r.value} && allocator.live == st.live + {r.value}
      requires r.Some? ==> r.value.phySize == size
      requires r.Some? ==> LowestFree(st.live, allocator.buffer.Length, r.value.address, size)
      ensures Allocated(st, Cands(order, hot, st.refs), hot, eviction, [], r, size)
    {
      hide NoRun, LowestFree;
      var none: seq<CacheEngineKey> := [];
      assert none[..0] == [];
      assert st.live - FreedBy(none, hot, st.pinned) == st.live;
    }

    /** Allocates, evicting unreferenced entries in least-recently-used order if it has to. */
    method Allocate(rawSize: nat, eviction: bool)
      returns (r: Option<TensorMemoryObj>, ghost evicted: seq<CacheEngineKey>)
      requires Valid() && 0 < rawSize
      modifies this`order, this`hot, this`refs, this`ext, this`leaked, allocator.live`refCount, allocator.live`valid
      modifies allocator`explicitList, allocator`free, allocator`blocks, allocator`numActive
      modifies allocator`totalAllocated, allocator`live, allocator.blocks
      ensures Valid()
      ensures allocator.blocks >= old(allocator.blocks) && fresh(allocator.blocks - old(allocator.blocks))
      ensures hot == old(hot) - KeySet(evicted) && order == WithoutAll(old(order), evicted)
      ensures Allocated(old(StartNow()), Cands(old(order), old(hot), old(refs)), old(hot), eviction, evicted, r,
          allocator.SizeFor(rawSize))
      ensures Detached(evicted, old(hot))
      ensures r.Some? ==> fresh(r.value) && !r.value.isPin && r.value.rawLen == rawSize && r.value.TensorFits()
      ensures old(leaked) <= leaked
      ensures old(Unpinned()) ==> Unpinned()
    {
      hide Unpinned, Valid, Evicting, Progress, NoFits, NoRun, LowestFree, FreedBy, Cands, Allocated, EvictedSoFar;
      hide WithoutAll;
      NothingEvicted();
      ghost var st := StartNow();
      r := TryAllocate(rawSize, {});
      evicted := [];
      NothingEvicted();
      if r.None? && eviction {
        r, evicted := EvictToFit(rawSize, st);
      } else {
        FirstTry(st, eviction, r, allocator.SizeFor(rawSize));
        NothingGone(order, hot);
      }
    }

    /** The eviction branch of Allocate: the pass over the keys, then their removal from the map. */
    method EvictToFit(rawSize: nat, ghost st: Start) returns (r: Option<TensorMemoryObj>, keys: seq<CacheEngineKey>)
      requires Valid() && 0 < rawSize && st == StartNow() &&
          NoRun(allocator.live, allocator.buffer.Length, allocator.SizeFor(rawSize))
      modifies this`order, this`hot, this`refs, this`ext, this`leaked, allocator.live`refCount, allocator.live`valid
      modifies allocator`explicitList, allocator`free, allocator`blocks, allocator`numActive
      modifies allocator`totalAllocated, allocator`live, allocator.blocks
      ensures Valid()
      ensures allocator.blocks >= old(allocator.blocks) && fresh(allocator.blocks - old(allocator.blocks))
      ensures hot == old(hot) - KeySet(keys) && order == WithoutAll(old(order), keys)
      ensures Allocated(st, Cands(old(order), old(hot), st.refs), old(hot), true, keys, r, allocator.SizeFor(rawSize))
      ensures Detached(keys, old(hot))
      ensures r.Some? ==> fresh(r.value) && !r.value.isPin && r.value.rawLen == rawSize && r.value.TensorFits()
      ensures old(leaked) <= leaked
      ensures old(Unpinned()) ==> Unpinned()
    {
      hide Unpinned, Valid, Evicting, Fitted, Progress, NoFits, NoRun, LowestFree, FreedBy, Cands, Allocated;
      PassStarts(allocator.SizeFor(rawSize));
      ValuesAreLive();
      ghost var i;
      r, keys, i := EvictUntilFits(rawSize, st);
      PassEnds(st, keys, i, r, allocator.SizeFor(rawSize));
      PopAll(keys, KeySet(keys));
    }

    lemma OutcomeBasics(st: Start, cands: seq<CacheEngineKey>, hot0: Hot, eviction: bool, evicted: seq<CacheEngineKey>,
                        r: Option<TensorMemoryObj>, size: int)
      requires Valid() && Allocated(st, cands, hot0, eviction, evicted, r, size)
      ensures allocator.Valid() && evicted <= cands && (!eviction ==> evicted == [])
      ensures r.None? ==> ext == st.ext && allocator.live <= st.live
      ensures r.Some? ==> ext == st.ext + multiset{r.value} && r.value in allocator.live && r.value !in st.live
      ensures r.Some? ==> allocator.live <= st.live + {r.value}
      ensures r.None? ==> NoRun(allocator.live, allocator.buffer.Length, size)
    {
      hide NoRun, LowestFree, FreedBy, Balanced;
      assert evicted[..|evicted|] == evicted;
    }

    lemma ValuesAreLive()
      requires Valid()
      ensures hot.Values <= allocator.live
    {
      forall o | o in hot.Values ensures o in allocator.live {
        var k :| k in hot && hot[k] == o;
        HeldIsLive(k);
      }
    }

    /** Drops every entry that nothing else holds; reports how many. */
    method Clear() returns (count: nat)
      requires Valid()
      modifies this`order, this`hot, this`refs, this`ext, this`leaked, allocator.live`refCount, allocator.live`valid
      modifies allocator`explicitList, allocator`free, allocator`blocks, allocator`numActive
      modifies allocator`totalAllocated, allocator`live, allocator.blocks
      ensures Valid() && ext == old(ext)
      ensures allocator.blocks >= old(allocator.blocks) && fresh(allocator.blocks - old(allocator.blocks))
      ensures !useHot ==> count == 0 && hot == old(hot) && order == old(order) && allocator.live == old(allocator.live)
      ensures useHot ==> var keys := Cands(old(order), old(hot), old(refs));
                         && count == |keys| && hot == old(hot) - KeySet(keys) && order == WithoutAll(old(order), keys)
                         && allocator.live == old(allocator.live) - FreedBy(keys, old(hot), old(Pinned()))
                         && Detached(keys, old(hot))
      ensures old(leaked) <= leaked
      ensures old(Unpinned()) ==> Unpinned()
    {
      hide Valid, Evicting, Progress, NoFits, FreedBy, Cands;
      count := 0;
      if useHot {
        ghost var st := StartNow();
        ValuesAreLive();
        ClearStarts();
        var keys := DropAll(st);
        ClearEnds(st, keys);
        PopAll(keys, KeySet(keys));
        count := |keys|;
      }
    }

    lemma ClearStarts()
      requires Valid()
      ensures Progress(StartNow(), [], 0, 0, 0)
    {
      NothingEvicted();
      var st, none: seq<CacheEngineKey> := StartNow(), [];
      assert order[..0] == [] && KeySet(none) == {};
      assert st.live - FreedBy(none, hot, st.pinned) == st.live;
    }

    lemma ClearEnds(st: Start, keys: seq<CacheEngineKey>)
      requires Progress(st, keys, |order|, 0, 0)
      ensures keys == Cands(order, hot, st.refs) && ext == st.ext && Evicting(KeySet(keys)) && Distinct(keys)
      ensures allocator.live == st.live - FreedBy(keys, hot, st.pinned)
    {
      hide Evicting, NoFits, FreedBy, Cands;
      assert order[..|order|] == order;
    }

    method DropAll(ghost st: Start) returns (keys: seq<CacheEngineKey>)
      requires Progress(st, [], 0, 0, 0) && st.live == allocator.live
      modifies this`refs, this`ext, this`leaked, allocator.live`refCount, allocator.live`valid
      modifies allocator`explicitList, allocator`free, allocator`blocks, allocator`numActive
      modifies allocator`totalAllocated, allocator`live, allocator.blocks
      ensures allocator.blocks >= old(allocator.blocks) && fresh(allocator.blocks - old(allocator.blocks))
      ensures Progress(st, keys, |order|, 0, 0)
      ensures old(leaked) <= leaked
    {
      hide Evicting, NoFits, FreedBy, Cands;
      keys := [];
      for i := 0 to |order|
        invariant Progress(st, keys, i, 0, 0) && allocator.live <= old(allocator.live) && old(leaked) <= leaked
        invariant allocator.blocks >= old(allocator.blocks) && fresh(allocator.blocks - old(allocator.blocks))
      {
        ProgressKey(st, keys, i, 0, 0);
        if hot[order[i]].refCount > 1 {
          SkipKey(st, keys, i, 0, 0);
        } else {
          EvictNext(order[i], st, keys, i, 0, 0);
          keys := keys + [order[i]];
        }
      }
    }
  }

  lemma {:induction false} FreedByMonotone(keys: seq<CacheEngineKey>, all: seq<CacheEngineKey>, hot: Hot,
      pinned: set<TensorMemoryObj>)
    requires keys <= all
    ensures FreedBy(keys, hot, pinned) <= FreedBy(all, hot, pinned)
    decreases |all|
  {
    if |keys| < |all| {
      FreedByMonotone(keys, all[..|all| - 1], hot, pinned);
    } else {
      assert keys == all;
    }
  }

  /** Where a long enough run is free to begin with, nothing is evicted and the lowest such run is taken. */
  lemma RoomIsTaken(b: LocalCPUBackend, st: Start, cands: seq<CacheEngineKey>, hot: Hot, evicted: seq<CacheEngineKey>,
                    r: Option<TensorMemoryObj>, size: int)
    requires b.Allocated(st, cands, hot, true, evicted, r, size) && !NoRun(st.live, b.allocator.buffer.Length, size)
    ensures evicted == [] && r.Some? && r.value.phySize == size && b.allocator.live == st.live + {r.value}
    ensures LowestFree(st.live, b.allocator.buffer.Length, r.value.address, size)
  {
    hide NoRun, LowestFree;
    assert evicted[..0] == [] && FreedBy(evicted[..0], hot, st.pinned) == {};
    assert st.live - {} == st.live;
  }

  /** With eviction, allocation fails exactly when releasing every candidate leaves no long enough run. */
  lemma AllocationExact(b: LocalCPUBackend, st: Start, cands: seq<CacheEngineKey>, hot: Hot,
                        evicted: seq<CacheEngineKey>, r: Option<TensorMemoryObj>, size: int)
    requires b.Allocated(st, cands, hot, true, evicted, r, size)
    ensures r.None? <==> NoRun(st.live - FreedBy(cands, hot, st.pinned), b.allocator.buffer.Length, size)
  {
    assert evicted[..|evicted|] == evicted;
    if r.Some? {
      FreedByMonotone(evicted, cands, hot, st.pinned);
      var n, left, least := b.allocator.buffer.Length, st.live - FreedBy(evicted, hot, st.pinned),
        st.live - FreedBy(cands, hot, st.pinned);
      assert RunFree(left, n, r.value.address, size);
      forall x | r.value.address <= x < r.value.address + size ensures FreeAt(least, n, x) {
        assert FreeAt(left, n, x) && least <= left;
      }
      assert RunFree(least, n, r.value.address, size);
    }
  }
}
