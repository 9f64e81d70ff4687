/** The host-memory allocator: a first-fit explicit free list with splitting and two-sided
    coalescing, and the reference-counted objects it hands out. */
module MemoryManagement {
  import opened Extents
  import opened Sequences
  import opened Wrappers
  import opened Arithmetic
  import Alignment

  newtype Byte = x: int | 0 <= x < 256
  type Positive = x: int | 0 < x witness 1

  /** A block of the explicit free list; its fields change in place. */
  class FreeBlock {
    var start: int
    var size: int

    constructor (start: int, size: int)
      ensures this.start == start && this.size == size
    {
      this.start := start;
      this.size := size;
    }

    function Ext(): Extent
      reads this
    {
      Extent(start, size)
    }

    predicate CanBeCoalesced(succ: FreeBlock)
      reads this, succ
    {
      start + size == succ.start
    }
  }

  /** A reference-counted extent [address, address + phySize) of its allocator's buffer.  Its raw view
      is the first rawLen bytes; the tensor it is asked to hold needs shapeBytes. */
  class TensorMemoryObj {
    const parent: TensorMemoryAllocator
    const address: int
    const phySize: int
    const rawLen: int
    const shapeBytes: int
    var refCount: int
    var isPin: bool
    var valid: bool

    constructor (parent: TensorMemoryAllocator, address: int, phySize: int, rawLen: int, shapeBytes: int)
      ensures this.parent == parent && this.address == address && this.phySize == phySize
      ensures this.rawLen == rawLen && this.shapeBytes == shapeBytes
      ensures refCount == 1 && !isPin && valid
    {
      this.parent := parent;
      this.address, this.phySize, this.rawLen, this.shapeBytes := address, phySize, rawLen, shapeBytes;
      refCount, isPin, valid := 1, false, true;
    }

    function Ext(): Extent { Extent(address, phySize) }

    /** Whether the raw view can be reshaped into the tensor. */
    predicate TensorFits() { rawLen == shapeBytes }

    method RefCountUp()
      modifies this`refCount
      ensures refCount == old(refCount) + 1
    {
      refCount := refCount + 1;
    }

    /** Drops one reference; the drop that reaches zero frees an unpinned object. */
    method RefCountDown()
      requires parent.Valid() && parent.Known(this)
      modifies this`refCount, this`valid, parent`explicitList, parent`free, parent`blocks, parent`numActive
      modifies parent`totalAllocated, parent`live, parent.blocks
      ensures refCount == old(refCount) - 1
      ensures parent.Valid() && parent.Known(this)
      ensures parent.blocks >= old(parent.blocks) && fresh(parent.blocks - old(parent.blocks))
      ensures parent.live == if refCount == 0 && !isPin then old(parent.live) - {this} else old(parent.live)
    {
      hide Partition, SumSizes;
      refCount := refCount - 1;
      if refCount == 0 && !isPin {
        parent.Free(this);
      }
    }
  }

  // ---------------------------------------------------------------- live objects and free addresses

  /** The raw view of an object: the first rawLen bytes of its extent. */
  ghost function Window(bytes: seq<Byte>, o: TensorMemoryObj): seq<Byte> {
    if 0 <= o.address && 0 <= o.rawLen && o.address + o.rawLen <= |bytes| then
      bytes[o.address..o.address + o.rawLen]
    else []
  }

  /** x is an address of the buffer that no live object owns. */
  ghost predicate FreeAt(live: set<TensorMemoryObj>, n: int, x: int) {
    0 <= x < n && forall o :: o in live ==> !o.Ext().Has(x)
  }

  ghost predicate RunFree(live: set<TensorMemoryObj>, n: int, s: int, k: int) {
    forall x :: s <= x < s + k ==> FreeAt(live, n, x)
  }

  /** s is the lowest address from which k consecutive addresses are free. */
  ghost predicate LowestFree(live: set<TensorMemoryObj>, n: int, s: int, k: int) {
    RunFree(live, n, s, k) && forall t :: t < s ==> !RunFree(live, n, t, k)
  }

  /** No k consecutive addresses are free. */
  ghost predicate NoRun(live: set<TensorMemoryObj>, n: int, k: int) {
    forall s :: !RunFree(live, n, s, k)
  }

  ghost predicate LiveDisjoint(live: set<TensorMemoryObj>, n: int) {
    && (forall o :: o in live ==> 0 <= o.address && 0 < o.rawLen <= o.phySize && o.Ext().End() <= n)
    && (forall o, p :: o in live && p in live && o != p ==> o.Ext().End() <= p.address || p.Ext().End() <= o.address)
  }

  /** The free list, the hole and the live objects partition [0, n). */
  ghost predicate PartitionBut(fl: seq<Extent>, hole: Extent, live: set<TensorMemoryObj>, n: int) {
    && Canonical(fl, n)
    && LiveDisjoint(live, n)
    && (forall x :: FreeAt(live, n, x) <==> Covered(fl, x) || hole.Has(x))
    && (forall x :: hole.Has(x) ==> !Covered(fl, x))
  }

  /** The free list and the live objects partition [0, n). */
  ghost predicate Partition(fl: seq<Extent>, live: set<TensorMemoryObj>, n: int) {
    && Canonical(fl, n)
    && LiveDisjoint(live, n)
    && forall x :: FreeAt(live, n, x) <==> Covered(fl, x)
  }

  /** The free list is a function of the set of live objects: whatever order they were allocated or
      freed in, one by one or in batches, two states with the same live objects have the same list. */
  lemma FreeListDetermined(f: seq<Extent>, g: seq<Extent>, live: set<TensorMemoryObj>, n: int)
    requires Partition(f, live, n) && Partition(g, live, n)
    ensures f == g
  {
    CanonicalUnique(f, g, n);
  }

  ghost function SumSizes(live: set<TensorMemoryObj>): int {
    if live == {} then 0 else var o :| o in live; o.phySize + SumSizes(live - {o})
  }

  lemma {:induction false} SumSizesRemove(live: set<TensorMemoryObj>, o: TensorMemoryObj)
    requires o in live
    ensures SumSizes(live) == o.phySize + SumSizes(live - {o})
    decreases live
  {
    var p :| p in live && SumSizes(live) == p.phySize + SumSizes(live - {p});
    if p != o {
      SumSizesRemove(live - {p}, o);
      SumSizesRemove(live - {o}, p);
      assert live - {p} - {o} == live - {o} - {p};
    }
  }

  // ---------------------------------------------------------------- alignment

  ghost predicate Multiple(x: int, a: Positive) { x % a == 0 }

  ghost predicate AllMultiples(live: set<TensorMemoryObj>, a: Positive) {
    forall o :: o in live ==> Multiple(o.address, a) && Multiple(o.phySize, a)
  }

  lemma MultiplesAdd(x: int, y: int, a: Positive)
    requires Multiple(x, a) && Multiple(y, a)
    ensures Multiple(x + y, a)
  {
    assert x == x / a * a && y == y / a * a;
    assert x + y == (x / a + y / a) * a;
    RemainderUnique(x + y, a, x / a + y / a, 0);
  }

  /** An address whose predecessor is not free, while it is itself, is 0 or the end of a live object. */
  lemma FreeAfterLive(live: set<TensorMemoryObj>, n: int, x: int, a: Positive)
    requires LiveDisjoint(live, n) && AllMultiples(live, a) && FreeAt(live, n, x) && !FreeAt(live, n, x - 1)
    ensures Multiple(x, a)
  {
    if x > 0 {
      var o :| o in live && o.Ext().Has(x - 1);
      MultiplesAdd(o.address, o.phySize, a);
    }
  }

  /** So the lowest run of any length starts at a multiple. */
  lemma LowestIsMultiple(live: set<TensorMemoryObj>, n: int, x: int, k: int, a: Positive)
    requires LiveDisjoint(live, n) && AllMultiples(live, a) && 0 < k && LowestFree(live, n, x, k)
    ensures Multiple(x, a)
  {
    assert FreeAt(live, n, x);
    if FreeAt(live, n, x - 1) { assert RunFree(live, n, x - 1, k); }
    FreeAfterLive(live, n, x, a);
  }

  lemma MoreMultiples(live: set<TensorMemoryObj>, n: int, o: TensorMemoryObj, a: Positive)
    requires LiveDisjoint(live, n) && AllMultiples(live, a) && 0 < o.phySize
    requires LowestFree(live, n, o.address, o.phySize) && Multiple(o.phySize, a)
    ensures AllMultiples(live + {o}, a)
  {
    LowestIsMultiple(live, n, o.address, o.phySize, a);
  }

  // ---------------------------------------------------------------- allocator

  class TensorMemoryAllocator {
    const buffer: array<Byte>
    const alignBytes: Positive
    var explicitList: seq<FreeBlock>
    var numActive: int
    var totalAllocated: int
    /** The extents of explicitList, all blocks it ever held, and the objects that own memory now. */
    ghost var free: seq<Extent>
    ghost var blocks: set<FreeBlock>
    ghost var live: set<TensorMemoryObj>

    /** The blocks of explicitList are distinct objects whose fields spell out free. */
    ghost predicate Rep()
      reads this`explicitList, this`free, this`blocks, blocks
    {
      && Distinct(explicitList)
      && (forall i :: 0 <= i < |explicitList| ==> explicitList[i] in blocks)
      && |free| == |explicitList|
      && forall i :: 0 <= i < |free| ==> explicitList[i].Ext() == free[i]
    }

    ghost predicate LiveValid()
      reads this`live, live`valid
    {
      forall o :: o in live ==> o.parent == this && o.valid
    }

    /** An object of this allocator, dead or alive, whose flag tells which. */
    ghost predicate Known(o: TensorMemoryObj)
      reads this`live, o`valid
    {
      o.parent == this && (o.valid <==> o in live)
    }

    /** With a power of two as alignment, every live object starts at a multiple of it and takes a multiple of it. */
    ghost predicate OnGrid()
      reads this`live
    {
      Alignment.PowerOfTwo(alignBytes) ==> AllMultiples(live, alignBytes)
    }

    ghost predicate Counters()
      reads this`live, this`numActive, this`totalAllocated, this`free
    {
      && totalAllocated == SumSizes(live)
      && totalAllocated + Total(free) == buffer.Length
      && numActive == |live|
    }

    ghost predicate Valid()
      reads this, blocks, live`valid
    {
      Rep() && LiveValid() && OnGrid() && Counters() && Partition(free, live, buffer.Length)
    }

    /** Overwrites the fields of the block at index i. */
    method Resize(i: nat, start: int, size: int)
      requires Rep() && i < |explicitList|
      modifies this`free, explicitList[i]
      ensures Rep() && free == old(free)[i := Extent(start, size)]
    {
      explicitList[i].start := start;
      explicitList[i].size := size;
      free := free[i := Extent(start, size)];
    }

    method RemoveAt(i: nat)
      requires Rep() && i < |explicitList|
      modifies this`explicitList, this`free
      ensures Rep() && free == old(free)[..i] + old(free)[i + 1..]
      ensures explicitList == old(explicitList)[..i] + old(explicitList)[i + 1..]
    {
      explicitList := explicitList[..i] + explicitList[i + 1..];
      free := free[..i] + free[i + 1..];
    }

    method InsertAt(i: nat, b: FreeBlock)
      requires Rep() && i <= |explicitList| && b !in blocks
      modifies this`explicitList, this`free, this`blocks
      ensures Rep() && free == old(free)[..i] + [b.Ext()] + old(free)[i..]
      ensures explicitList == old(explicitList)[..i] + [b] + old(explicitList)[i..] && blocks == old(blocks) + {b}
    {
      explicitList := explicitList[..i] + [b] + explicitList[i..];
      free := free[..i] + [b.Ext()] + free[i..];
      blocks := blocks + {b};
    }

    /** Merges curr, whose place in the list is k, into the neighbours it touches. */
    method Coalesce(curr: FreeBlock, k: nat) returns (merged: bool)
      requires Rep() && curr !in blocks && k <= |explicitList|
      modifies this`explicitList, this`free, blocks
      ensures Rep() && curr.Ext() == old(curr.Ext())
      ensures merged <==> Lo(old(free), k, curr.Ext()) < Hi(old(free), k, curr.Ext())
      ensures if merged then free == Coalesced(old(free), k, curr.Ext())
              else free == old(free) && explicitList == old(explicitList)
    {
      var mergePrev := k > 0 && explicitList[k - 1].CanBeCoalesced(curr);
      var mergeSucc := k < |explicitList| && curr.CanBeCoalesced(explicitList[k]);
      if mergePrev && mergeSucc {
        MergeBoth(free, k, curr.Ext());
        var prev, succ := explicitList[k - 1], explicitList[k];
        Resize(k - 1, prev.start, prev.size + curr.size + succ.size);
        RemoveAt(k);
      } else if mergePrev {
        MergePrev(free, k, curr.Ext());
        var prev := explicitList[k - 1];
        Resize(k - 1, prev.start, prev.size + curr.size);
      } else if mergeSucc {
        MergeSucc(free, k, curr.Ext());
        var succ := explicitList[k];
        Resize(k, succ.start - curr.size, succ.size + curr.size);
      }
      merged := mergePrev || mergeSucc;
    }

    /** The number of blocks that start at or before the given address. */
    method BisectRight(start: int) returns (k: nat)
      requires Rep() && Sorted(free)
      ensures k <= |explicitList| && PlaceOf(free, k, start)
    {
      k := 0;
      while k < |explicitList| && explicitList[k].start <= start
        invariant k <= |explicitList|
        invariant forall i :: 0 <= i < k ==> free[i].start <= start
      {
        k := k + 1;
      }
    }

    /** Puts an extent in its place, merged with its neighbours where it touches them. */
    method Place(e: Extent) returns (ghost k: nat)
      requires Rep() && Sorted(free)
      modifies this`explicitList, this`free, this`blocks, blocks
      ensures Rep() && k <= |old(free)| && PlaceOf(old(free), k, e.start) && free == Coalesced(old(free), k, e)
      ensures blocks >= old(blocks) && fresh(blocks - old(blocks))
    {
      hide Sorted, PlaceOf, Coalesced;
      var block := new FreeBlock(e.start, e.size);
      var index := BisectRight(block.start);
      ghost var fl := free;
      var coalesced := Coalesce(block, index);
      if !coalesced {
        InsertAt(index, block);
        MergeNone(fl, index, e);
      }
      k := index;
    }

    /** Putting back an extent adds its addresses, and keeps the list merged if it should not have had them. */
    method Insert(e: Extent)
      requires Rep() && Sorted(free) && 0 < e.size
      modifies this`explicitList, this`free, this`blocks, blocks
      ensures Rep() && Added(old(free), free, e)
      ensures Canonical(old(free), buffer.Length) && Returnable(old(free), buffer.Length, e) ==>
                GaveBack(old(free), free, buffer.Length, e)
      ensures blocks >= old(blocks) && fresh(blocks - old(blocks))
    {
      hide Rep, Canonical, Sorted, Returnable, PlaceOf, Coalesced, GaveBack, Added;
      ghost var fl := free;
      ghost var k := Place(e);
      AddedAt(fl, buffer.Length, k, e);
    }

    static lemma AddedAt(fl: seq<Extent>, n: int, k: nat, e: Extent)
      requires Sorted(fl) && 0 < e.size && PlaceOf(fl, k, e.start)
      ensures Added(fl, Coalesced(fl, k, e), e)
      ensures Canonical(fl, n) && Returnable(fl, n, e) ==> GaveBack(fl, Coalesced(fl, k, e), n, e)
    {
      hide Canonical, Sorted, Returnable, Covered, Added;
      AddAny(fl, k, e);
      if Canonical(fl, n) && Returnable(fl, n, e) { GiveBack(fl, n, k, e); }
    }

    /** Marks an object as owning no memory any more. */
    method Invalidate(obj: TensorMemoryObj)
      requires LiveValid() && obj in live
      modifies this`live, obj`valid
      ensures LiveValid() && live == old(live) - {obj} && !obj.valid
      ensures |live| == |old(live)| - 1 && SumSizes(live) == SumSizes(old(live)) - obj.phySize
    {
      SumSizesRemove(live, obj);
      obj.valid := false;
      live := live - {obj};
    }

    /** Marks an object as owning no memory and takes it off the counters. */
    method Retire(obj: TensorMemoryObj)
      requires LiveValid() && obj in live && numActive == |live| && totalAllocated == SumSizes(live)
      modifies this`live, this`numActive, this`totalAllocated, obj`valid
      ensures LiveValid() && live == old(live) - {obj} && !obj.valid
      ensures numActive == |live| && totalAllocated == SumSizes(live) == old(totalAllocated) - obj.phySize
    {
      Invalidate(obj);
      totalAllocated := totalAllocated - obj.phySize;
      numActive := if numActive - 1 > 0 then numActive - 1 else 0;
    }

    /** Puts the extent of a live object back on the free list. */
    method Return(obj: TensorMemoryObj)
      requires Rep() && Partition(free, live, buffer.Length) && obj in live
      modifies this`explicitList, this`free, this`blocks, blocks
      ensures Rep() && blocks >= old(blocks) && fresh(blocks - old(blocks))
      ensures Partition(free, live - {obj}, buffer.Length) && Total(free) == Total(old(free)) + obj.phySize
    {
      FreedIsReturnable(free, live, buffer.Length, obj);
      CanonicalIsSorted(free, buffer.Length);
      ghost var v := free;
      Insert(obj.Ext());
      PartitionAfterFree(v, free, live, buffer.Length, obj);
    }

    /** Frees one object; a second call on the same object does nothing. */
    method Free(obj: TensorMemoryObj)
      requires Valid() && Known(obj)
      modifies this`explicitList, this`free, this`blocks, this`numActive, this`totalAllocated, this`live
      modifies blocks, obj`valid
      ensures Valid() && blocks >= old(blocks) && fresh(blocks - old(blocks))
      ensures live == old(live) - {obj} && !obj.valid
      ensures obj !in old(live) ==> free == old(free)
    {
      hide AllMultiples, Partition, SumSizes, Rep, Alignment.PowerOfTwo;
      if obj.valid {
        FewerMultiples(live, live - {obj});
        Return(obj);
        Retire(obj);
      }
    }

    lemma FewerMultiples(more: set<TensorMemoryObj>, less: set<TensorMemoryObj>)
      requires less <= more
      ensures AllMultiples(more, alignBytes) ==> AllMultiples(less, alignBytes)
    {
    }

    /** A size that keeps objects at multiples of the alignment. */
    ghost predicate Rounded(size: int) {
      Alignment.PowerOfTwo(alignBytes) ==> Multiple(size, alignBytes)
    }

    lemma OneMoreOnGrid(before: set<TensorMemoryObj>, o: TensorMemoryObj)
      requires LiveDisjoint(before, buffer.Length) && 0 < o.phySize && Rounded(o.phySize)
      requires LowestFree(before, buffer.Length, o.address, o.phySize)
      ensures Alignment.PowerOfTwo(alignBytes) && AllMultiples(before, alignBytes) ==>
                AllMultiples(before + {o}, alignBytes)
    {
      hide LiveDisjoint, LowestFree, AllMultiples, Multiple;
      if Alignment.PowerOfTwo(alignBytes) && AllMultiples(before, alignBytes) {
        MoreMultiples(before, buffer.Length, o, alignBytes);
      }
    }

    lemma TilesOnGrid(before: set<TensorMemoryObj>, objs: seq<TensorMemoryObj>, start: int, end: int, unit: int,
        rawSize: int, k: nat)
      requires LiveDisjoint(before, buffer.Length) && Tiles(objs, start, end, unit, rawSize) && Rounded(unit)
      requires 0 < unit && 0 < k && LowestFree(before, buffer.Length, start, unit * k)
      ensures Alignment.PowerOfTwo(alignBytes) && AllMultiples(before, alignBytes) ==>
                AllMultiples(before + Elems(objs), alignBytes)
    {
      hide LiveDisjoint, LowestFree, Multiple, Tiles, Elems;
      SpanIsProduct(unit, k);
      if Alignment.PowerOfTwo(alignBytes) && AllMultiples(before, alignBytes) {
        LowestIsMultiple(before, buffer.Length, start, unit * k, alignBytes);
        TileMultiples(objs, start, end, unit, rawSize, alignBytes);
      }
    }

    /** Free extents then start at multiples as well. */
    lemma FreeStartsOnGrid(i: nat)
      requires Valid() && Alignment.PowerOfTwo(alignBytes) && i < |free|
      ensures free[i].start % alignBytes == 0
    {
      hide AllMultiples, SumSizes, LiveDisjoint, FreeAt;
      FreeStart(free, live, buffer.Length, i);
      FreeAfterLive(live, buffer.Length, free[i].start, alignBytes);
    }

    // -------------------------------------------------------------- allocating

    /** The index of the first block of at least the given size, or the length of the list. */
    method FirstFit(size: int) returns (i: nat)
      requires Rep()
      ensures i <= |free| == |explicitList|
      ensures i < |free| ==> size <= free[i].size
      ensures forall j :: 0 <= j < i ==> free[j].size < size
    {
      i := 0;
      while i < |explicitList| && explicitList[i].size < size
        invariant i <= |explicitList|
        invariant forall j :: 0 <= j < i ==> free[j].size < size
      {
        i := i + 1;
      }
    }

    /** Takes size bytes off the front of block i; a remainder goes back as a new block. */
    method TakeFront(i: nat, size: int) returns (start: int)
      requires Rep() && i < |free| && 0 <= size <= free[i].size
      modifies this`explicitList, this`free, this`blocks
      ensures Rep() && blocks >= old(blocks) && fresh(blocks - old(blocks))
      ensures start == old(free)[i].start && free == Carved(old(free), i, size)
    {
      var block := explicitList[i];
      start := block.start;
      RemoveAt(i);
      if block.size > size {
        var rest := new FreeBlock(block.start + size, block.size - size);
        InsertAt(i, rest);
      }
    }

    /** Makes a fresh object the owner of the front of the hole. */
    method HandOut(ghost hole: Extent, address: int, phySize: int, rawLen: int, shapeBytes: int)
      returns (obj: TensorMemoryObj)
      requires LiveValid() && PartitionBut(free, hole, live, buffer.Length)
      requires numActive == |live| && totalAllocated == SumSizes(live)
      requires address == hole.start && 0 < rawLen <= phySize <= hole.size
      modifies this`live, this`totalAllocated, this`numActive
      ensures LiveValid() && fresh(obj) && obj.valid && obj.refCount == 1 && !obj.isPin
      ensures obj.Ext() == Extent(address, phySize) && obj.rawLen == rawLen && obj.shapeBytes == shapeBytes
      ensures live == old(live) + {obj}
      ensures numActive == |live| && totalAllocated == SumSizes(live) == old(totalAllocated) + phySize
      ensures PartitionBut(free, Extent(address + phySize, hole.size - phySize), live, buffer.Length)
      ensures hole.size == phySize ==> Partition(free, live, buffer.Length)
    {
      hide PartitionBut, Partition, SumSizes;
      obj := new TensorMemoryObj(this, address, phySize, rawLen, shapeBytes);
      OwnerOfHole(free, hole, live, buffer.Length, obj);
      SumSizesAdd(live, obj);
      live := live + {obj};
      totalAllocated := totalAllocated + phySize;
      numActive := numActive + 1;
    }

    /** Cuts size bytes out of the free list at the lowest address where they fit. */
    method Reserve(size: int) returns (r: Option<int>)
      requires Rep() && Partition(free, live, buffer.Length) && 0 < size
      modifies this`explicitList, this`free, this`blocks
      ensures Rep() && blocks >= old(blocks) && fresh(blocks - old(blocks))
      ensures r.None? ==> free == old(free) && NoRun(live, buffer.Length, size)
      ensures r.Some? ==> PartitionBut(free, Extent(r.value, size), live, buffer.Length)
      ensures r.Some? ==> Total(free) == Total(old(free)) - size && LowestFree(live, buffer.Length, r.value, size)
    {
      ghost var fl := free;
      var i := FirstFit(size);
      if i == |explicitList| {
        NoFitNoFreeRun(fl, live, buffer.Length, size);
        r := None;
      } else {
        LowestFitIsFree(fl, live, buffer.Length, i, size);
        var start := TakeFront(i, size);
        PartitionAfterCarve(fl, live, buffer.Length, i, size);
        r := Some(start);
      }
    }

    /** Allocates one object of the given size at the lowest address where it fits, or nothing if it
        fits nowhere. */
    method AllocateSized(size: int, rawSize: int) returns (r: Option<TensorMemoryObj>)
      requires Valid() && 0 < rawSize <= size && Rounded(size)
      modifies this`explicitList, this`free, this`blocks, this`numActive, this`totalAllocated, this`live
      ensures Valid() && blocks >= old(blocks) && fresh(blocks - old(blocks))
      ensures r.None? ==> live == old(live) && free == old(free)
      ensures r.None? ==> NoRun(old(live), buffer.Length, size)
      ensures r.Some? ==> fresh(r.value) && r.value.valid && r.value.refCount == 1 && !r.value.isPin
      ensures r.Some? ==> live == old(live) + {r.value}
      ensures r.Some? ==> r.value.phySize == size && r.value.rawLen == rawSize && r.value.TensorFits()
      ensures r.Some? ==> LowestFree(old(live), buffer.Length, r.value.address, size)
    {
      hide Partition, PartitionBut, LowestFree, NoRun, LiveValid, SumSizes, LiveDisjoint, AllMultiples;
      ghost var before := live;
      LiveApart(free, live, buffer.Length);
      var at := Reserve(size);
      r := None;
      if at.Some? {
        var obj := HandOut(Extent(at.value, size), at.value, size, rawSize, rawSize);
        OneMoreOnGrid(before, obj);
        r := Some(obj);
      }
    }

    /** Allocates batchSize objects of unit bytes each, tiling one run, or nothing if no run is long enough. */
    method BatchedAllocateSized(unit: int, rawSize: int, batchSize: nat) returns (r: Option<seq<TensorMemoryObj>>)
      requires Valid() && 0 < rawSize <= unit && 0 < batchSize && Rounded(unit)
      modifies this`explicitList, this`free, this`blocks, this`numActive, this`totalAllocated, this`live
      ensures Valid() && blocks >= old(blocks) && fresh(blocks - old(blocks))
      ensures r.None? ==> live == old(live) && free == old(free) && NoRun(live, buffer.Length, unit * batchSize)
      ensures r.Some? ==> |r.value| == batchSize && live == old(live) + Elems(r.value)
      ensures r.Some? ==> Tiles(r.value, r.value[0].address, r.value[0].address + unit * batchSize, unit, rawSize)
      ensures r.Some? ==> forall o :: o in Elems(r.value) ==> fresh(o) && o.refCount == 1 && !o.isPin
      ensures r.Some? ==> LowestFree(old(live), buffer.Length, r.value[0].address, unit * batchSize)
    {
      hide Partition, PartitionBut, LowestFree, NoRun, LiveValid, SumSizes, Elems, Tiles, LiveDisjoint, AllMultiples;
      ghost var before := live;
      LiveApart(free, live, buffer.Length);
      SpanIsProduct(unit, batchSize);
      var at := Reserve(unit * batchSize);
      r := None;
      if at.Some? {
        var objs := CutUp(Extent(at.value, unit * batchSize), unit, rawSize, batchSize);
        TilesFirst(objs, at.value, at.value + unit * batchSize, unit, rawSize);
        TilesOnGrid(before, objs, at.value, at.value + unit * batchSize, unit, rawSize, batchSize);
        r := Some(objs);
      }
    }

    /** Part of a hole has been handed out as consecutive objects, left bytes of it are still to go. */
    ghost predicate Cutting(objs: seq<TensorMemoryObj>, hole: Extent, left: int, unit: int, rawSize: int,
        before: set<TensorMemoryObj>, total: int)
      reads this, live`valid
    {
      && LiveValid() && PartitionBut(free, Extent(hole.End() - left, left), live, buffer.Length)
      && numActive == |live| && totalAllocated == SumSizes(live) == total + hole.size - left
      && live == before + Elems(objs) && Tiles(objs, hole.start, hole.End() - left, unit, rawSize)
    }

    method CutNext(ghost objs: seq<TensorMemoryObj>, ghost hole: Extent, ghost left: int, tempStart: int, unit: int,
        rawSize: int, ghost before: set<TensorMemoryObj>, ghost total: int) returns (obj: TensorMemoryObj)
      requires Cutting(objs, hole, left, unit, rawSize, before, total)
      requires 0 < rawSize <= unit <= left && tempStart == hole.End() - left
      modifies this`live, this`totalAllocated, this`numActive
      ensures fresh(obj) && obj.refCount == 1 && !obj.isPin
      ensures Cutting(objs + [obj], hole, left - unit, unit, rawSize, before, total)
      ensures Elems(objs + [obj]) == Elems(objs) + {obj}
    {
      hide PartitionBut, Partition, LiveValid, SumSizes, Elems, Tiles;
      obj := HandOut(Extent(tempStart, left), tempStart, unit, unit, rawSize);
      Snoc(objs, obj, hole.start, tempStart, unit, rawSize);
    }

    /** Hands out a hole as batchSize consecutive objects. */
    method CutUp(hole: Extent, unit: int, rawSize: int, batchSize: nat) returns (objs: seq<TensorMemoryObj>)
      requires LiveValid() && PartitionBut(free, hole, live, buffer.Length)
      requires numActive == |live| && totalAllocated == SumSizes(live)
      requires 0 < rawSize <= unit && 0 < batchSize && hole.size == Span(unit, batchSize)
      modifies this`live, this`totalAllocated, this`numActive
      ensures LiveValid() && Partition(free, live, buffer.Length)
      ensures numActive == |live| && totalAllocated == SumSizes(live) == old(totalAllocated) + hole.size
      ensures |objs| == batchSize && live == old(live) + Elems(objs)
      ensures Tiles(objs, hole.start, hole.End(), unit, rawSize)
      ensures forall o :: o in Elems(objs) ==> fresh(o) && o.refCount == 1 && !o.isPin
    {
      hide PartitionBut, Partition, LiveValid, SumSizes, Elems, Tiles, Cutting;
      ghost var before, total := live, totalAllocated;
      CuttingStarts(hole, unit, rawSize);
      objs := [];
      var tempStart := hole.start;
      ghost var left, todo, made: set<TensorMemoryObj> := hole.size, batchSize, {};
      while |objs| < batchSize
        invariant |objs| + todo == batchSize && left == Span(unit, todo) && tempStart == hole.End() - left
        invariant Cutting(objs, hole, left, unit, rawSize, before, total)
        invariant made == Elems(objs) && forall o :: o in made ==> fresh(o) && o.refCount == 1 && !o.isPin
      {
        var obj := CutNext(objs, hole, left, tempStart, unit, rawSize, before, total);
        objs, made := objs + [obj], made + {obj};
        tempStart := tempStart + unit;
        left, todo := left - unit, todo - 1;
      }
      CuttingEnds(objs, hole, unit, rawSize, before, total);
    }

    lemma CuttingStarts(hole: Extent, unit: int, rawSize: int)
      requires LiveValid() && PartitionBut(free, hole, live, buffer.Length)
      requires numActive == |live| && totalAllocated == SumSizes(live)
      ensures Cutting([], hole, hole.size, unit, rawSize, live, totalAllocated) && Elems([]) == {}
    {
      hide PartitionBut, LiveValid, SumSizes;
      NoTiles(hole.start, unit, rawSize);
    }

    lemma CuttingEnds(objs: seq<TensorMemoryObj>, hole: Extent, unit: int, rawSize: int, before: set<TensorMemoryObj>,
        total: int)
      requires Cutting(objs, hole, 0, unit, rawSize, before, total)
      ensures LiveValid() && Partition(free, live, buffer.Length) && live == before + Elems(objs)
      ensures numActive == |live| && totalAllocated == SumSizes(live) == total + hole.size
      ensures Tiles(objs, hole.start, hole.End(), unit, rawSize)
    {
      hide PartitionBut, Partition, LiveValid, SumSizes, Elems, Tiles;
      NoHole(free, hole.End(), live, buffer.Length);
    }

    // -------------------------------------------------------------- freeing a batch

    /** The next valid object's extent starts the first run, extends the current one, or starts a new one. */
    method Extend(ghost seed: int, ghost es: seq<Extent>, done: seq<Extent>, cur: Option<Extent>, currStart: int,
        e: Extent) returns (done': seq<Extent>, cur': Option<Extent>, currStart': int)
      requires Merging(seed, es, done, cur, currStart)
      ensures Merging(seed, es + [e], done', cur', currStart')
    {
      hide Merging;
      MergingStep(seed, es, done, cur, currStart, e);
      if cur.None? {
        done', cur', currStart' := done, Some(e), currStart + e.size;
      } else if currStart == e.start {
        done', cur', currStart' := done, Some(Extent(cur.value.start, cur.value.size + e.size)), currStart + e.size;
      } else {
        done', cur', currStart' := done + [cur.value], Some(e), e.start + e.size;
      }
    }

    /** Marks one object of a batch. */
    method InvalidateIn(ghost objs: seq<TensorMemoryObj>, obj: TensorMemoryObj)
      requires LiveValid() && Known(obj) && obj.valid && forall o :: o in objs ==> Known(o)
      modifies this`live, obj`valid
      ensures LiveValid() && live == old(live) - {obj} && forall o :: o in objs ==> Known(o)
      ensures |live| == |old(live)| - 1 && SumSizes(live) == SumSizes(old(live)) - obj.phySize
    {
      hide SumSizes;
      Invalidate(obj);
    }

    lemma ValidIsLive(o: TensorMemoryObj)
      requires Known(o)
      ensures o.valid <==> o in live
    {
    }

    /** First pass of a batched free: invalidates the valid objects and merges their extents into runs. */
    method Collect(objs: seq<TensorMemoryObj>)
      returns (done: seq<Extent>, cur: Option<Extent>, totalFreed: int, numValid: int)
      requires LiveValid() && objs != [] && forall o :: o in objs ==> Known(o)
      modifies this`live, (set o | o in objs)`valid
      ensures LiveValid() && forall o :: o in objs ==> Known(o)
      ensures live == old(live) - Elems(Firsts(objs, old(live)))
      ensures SumSizes(live) == SumSizes(old(live)) - totalFreed && |live| == |old(live)| - numValid
      ensures cur.None? <==> Firsts(objs, old(live)) == []
      ensures cur.None? ==> live == old(live)
      ensures cur.Some? ==> done + [cur.value] == MergeRuns(objs[0].address, Exts(Firsts(objs, old(live)))).Runs()
    {
      hide SumSizes, Elems, Merging, MergeRuns, Firsts, Exts, Known, LiveValid;
      assert objs[..0] == [];
      ghost var before, firsts := live, [];
      NothingCollected(before, objs[0].address);
      var currStart := objs[0].address;
      done, cur, totalFreed, numValid := [], None, 0, 0;
      for i := 0 to |objs|
        invariant LiveValid() && forall o :: o in objs ==> Known(o)
        invariant firsts == Firsts(objs[..i], before) && live == before - Elems(firsts)
        invariant SumSizes(live) == SumSizes(before) - totalFreed && |live| == |before| - numValid
        invariant Merging(objs[0].address, Exts(firsts), done, cur, currStart)
        invariant firsts == [] ==> live == before
      {
        var obj := objs[i];
        FirstsStep(objs, i, before);
        ValidIsLive(obj);
        if obj.valid {
          numValid := numValid + 1;
          totalFreed := totalFreed + obj.phySize;
          InvalidateIn(objs, obj);
          ExtsStep(firsts, obj);
          done, cur, currStart := Extend(objs[0].address, Exts(firsts), done, cur, currStart, obj.Ext());
          firsts := firsts + [obj];
        }
      }
      assert objs[..|objs|] == objs;
      MergingDone(objs[0].address, Exts(firsts), done, cur, currStart);
    }

    /** Second pass: puts the merged runs back one by one. */
    method InsertRuns(runs: seq<Extent>)
      requires Rep() && Sorted(free) && NonEmpty(runs)
      modifies this`explicitList, this`free, this`blocks, blocks
      ensures Rep() && AddedAll(old(free), free, runs)
      ensures PendingPartition(old(free), runs, live, buffer.Length) ==> Partition(free, live, buffer.Length)
      ensures blocks >= old(blocks) && fresh(blocks - old(blocks))
    {
      hide Partition, PendingPartition, Covered, Canonical, Sorted, Added, AddedAll, GaveBack;
      ghost var fl, pending := free, PendingPartition(free, runs, live, buffer.Length);
      AddedNone(free);
      assert runs[..0] == [] && runs[0..] == runs;
      for i := 0 to |runs|
        invariant Rep() && AddedAll(fl, free, runs[..i])
        invariant pending ==> PendingPartition(free, runs[i..], live, buffer.Length)
        invariant blocks >= old(blocks) && fresh(blocks - old(blocks))
      {
        AddedSorted(fl, free, runs[..i]);
        if pending { PendingFirst(free, runs, i, live, buffer.Length); }
        ghost var v := free;
        Insert(runs[i]);
        AddedMore(fl, v, free, runs, i);
        if pending { PendingNext(v, free, runs, i, live, buffer.Length); }
      }
      assert runs[..|runs|] == runs;
      if pending { PendingNone(free, runs, live, buffer.Length); }
    }

    static lemma AddedSorted(fl: seq<Extent>, fl': seq<Extent>, es: seq<Extent>)
      requires AddedAll(fl, fl', es)
      ensures Sorted(fl')
    {
    }

    /** Second half of a batched free: the runs go back and the counters are adjusted once. */
    method PutBack(runs: seq<Extent>, totalFreed: int, numValid: int)
      requires Rep() && LiveValid() && Sorted(free) && NonEmpty(runs)
      requires totalAllocated - totalFreed == SumSizes(live) && numActive - numValid == |live|
      requires totalAllocated + Total(free) == buffer.Length && Total(runs) == totalFreed
      modifies this`explicitList, this`free, this`blocks, this`numActive, this`totalAllocated, blocks
      ensures Rep() && LiveValid() && Counters() && AddedAll(old(free), free, runs)
      ensures PendingPartition(old(free), runs, live, buffer.Length) ==> Partition(free, live, buffer.Length)
      ensures blocks >= old(blocks) && fresh(blocks - old(blocks))
    {
      hide Partition, PendingPartition, SumSizes, Rep, Sorted, Covered;
      InsertRuns(runs);
      totalAllocated := totalAllocated - totalFreed;
      numActive := if numActive - numValid > 0 then numActive - numValid else 0;
    }

    /** Frees a batch.  Reports false, having done nothing, when no object of the batch is valid: there
        is then no block to put back and the source raises an error.  Objects and counters are right in
        any case; the free list is exactly when the seed fits. */
    method BatchedFree(objs: seq<TensorMemoryObj>) returns (ok: bool)
      requires Valid() && forall o :: o in objs ==> Known(o)
      modifies this`explicitList, this`free, this`blocks, this`numActive, this`totalAllocated, this`live
      modifies blocks, (set o | o in objs)`valid
      ensures Rep() && LiveValid() && Counters() && (Valid() <==> SeedIsFine(objs, old(live)))
      ensures blocks >= old(blocks) && fresh(blocks - old(blocks))
      ensures live == old(live) - Elems(objs) && forall o :: o in objs ==> Known(o) && !o.valid
      ensures OnGrid()
      ensures ok <==> old(live) * Elems(objs) != {}
      ensures !ok ==> free == old(free)
    {
      hide Partition, PendingPartition, Firsts, Exts, MergeRuns, SumSizes, Elems, SeedFits, AddedAll, Sorted, Rep,
        NonEmpty, AllMultiples, Alignment.PowerOfTwo;
      FirstsAreBatch(objs, live);
      FewerMultiples(live, live - Elems(objs));
      assert live - Elems(Firsts(objs, live)) == live - Elems(objs);
      ok := false;
      if objs != [] {
        ghost var before, fl := live, free;
        PartitionIsSorted(free, live, buffer.Length);
        var done, cur, totalFreed, numValid := Collect(objs);
        if cur.Some? {
          CollectedPending(fl, before, buffer.Length, objs, done + [cur.value]);
          PutBack(done + [cur.value], totalFreed, numValid);
          UnfitSeedLeaks(fl, before, buffer.Length, objs, free);
          ok := true;
        }
        BatchIsDead(objs);
      }
    }

    lemma BatchIsDead(objs: seq<TensorMemoryObj>)
      requires live !! Elems(objs) && forall o :: o in objs ==> Known(o)
      ensures forall o :: o in objs ==> !o.valid
    {
      hide Elems;
      forall o | o in objs ensures !o.valid { InElems(objs, o); }
    }

    /** A seed that does not fit: three objects end to end, the middle one freed, then all of them freed as a
        batch that lists the dead one first.  Some address of the empty buffer is then missing from the list. */
    method UnfitBatch(rawSize: nat)
      requires Valid() && live == {} && 0 < rawSize && 3 * SizeFor(rawSize) <= buffer.Length
      modifies this`explicitList, this`free, this`blocks, this`numActive, this`totalAllocated, this`live, blocks
      ensures live == {} && Rep() && Counters() && !Partition(free, live, buffer.Length)
    {
      hide Partition, LowestFree, NoRun, SumSizes, FilledTo, Firsts, Exts, Elems, Rep, Counters, LiveValid;
      ghost var n, size := buffer.Length, SizeFor(rawSize);
      EmptyIsFilledTo(n);
      var a := AllocateNext(rawSize, 0);
      var b := AllocateNext(rawSize, size);
      var c := AllocateNext(rawSize, 2 * size);
      Free(b);
      BatchIs(b, a, c, live);
      var ok := BatchedFree([b, a, c]);
    }

    /** With only the first at bytes in use, the next object goes right behind them. */
    method AllocateNext(rawSize: nat, ghost at: nat) returns (o: TensorMemoryObj)
      requires Valid() && 0 < rawSize && FilledTo(live, buffer.Length, at) && at + SizeFor(rawSize) <= buffer.Length
      modifies this`explicitList, this`free, this`blocks, this`numActive, this`totalAllocated, this`live
      ensures Valid() && blocks >= old(blocks) && fresh(blocks - old(blocks))
      ensures fresh(o) && o.valid && o.parent == this && live == old(live) + {o}
      ensures o.Ext() == Extent(at, SizeFor(rawSize)) && FilledTo(live, buffer.Length, at + SizeFor(rawSize))
    {
      hide Partition, LowestFree, NoRun, SumSizes, FilledTo, Rep, Counters;
      NextFits(live, buffer.Length, at, SizeFor(rawSize));
      ghost var before := live;
      var r := Allocate(rawSize);
      o := r.value;
      NextIs(before, buffer.Length, at, o);
    }

    /** A zero-size object, carved off the first block and given back at once: whenever anything is free,
        the list ends up holding an empty extent. */
    method AllocateAndFreeEmpty() returns (found: bool)
      requires Valid()
      modifies this`explicitList, this`free, this`blocks, blocks
      ensures Rep() && (found <==> old(free) != [])
      ensures found ==> !Canonical(free, buffer.Length)
    {
      hide Rep, Coalesced, PlaceOf, Canonical, Sorted;
      ghost var fl := free;
      PartitionIsSorted(free, live, buffer.Length);
      CarveNothing(fl, buffer.Length);
      var i := FirstFit(0);
      found := i < |explicitList|;
      if found {
        var start := TakeFront(i, 0);
        ghost var k := Place(Extent(start, 0));
        EmptyAtFrontBreaks(fl, buffer.Length, k);
      }
    }

    /** The plain form of a batched free: one object after the other.  What it says of live objects is word
        for word what the batched form says, so list and counters agree as well. */
    method FreeEach(objs: seq<TensorMemoryObj>)
      requires Valid() && forall o :: o in objs ==> Known(o)
      modifies this`explicitList, this`free, this`blocks, this`numActive, this`totalAllocated, this`live
      modifies blocks, (set o | o in objs)`valid
      ensures Valid() && blocks >= old(blocks) && fresh(blocks - old(blocks))
      ensures live == old(live) - Elems(objs) && forall o :: o in objs ==> Known(o) && !o.valid
    {
      hide Partition, SumSizes, Rep, Counters;
      for i := 0 to |objs|
        invariant Valid() && blocks >= old(blocks) && fresh(blocks - old(blocks))
        invariant live == old(live) - Elems(objs[..i]) && forall o :: o in objs ==> Known(o)
      {
        assert objs[..i + 1][..i] == objs[..i];
        Free(objs[i]);
      }
      assert objs[..|objs|] == objs;
      BatchIsDead(objs);
    }

    /** Allocating an object and freeing it again restores list and counters exactly. */
    method AllocateAndFree(rawSize: nat)
      requires Valid() && 0 < rawSize
      modifies this`explicitList, this`free, this`blocks, this`numActive, this`totalAllocated, this`live, blocks
      ensures Valid() && live == old(live)
      ensures free == old(free) && numActive == old(numActive) && totalAllocated == old(totalAllocated)
    {
      hide Partition, LowestFree, NoRun, SumSizes;
      var r := Allocate(rawSize);
      if r.Some? {
        Free(r.value);
      }
      StateDetermined();
    }

    // -------------------------------------------------------------- public allocation and checks

    /** The bytes reserved for a tensor of rawSize bytes. */
    function SizeFor(rawSize: nat): nat {
      Alignment.AlignedSize(rawSize, alignBytes)
    }

    lemma SizeForIsClose(rawSize: nat)
      ensures rawSize <= SizeFor(rawSize) < rawSize + alignBytes
    {
    }

    /** What is reserved is the least multiple of the alignment that is large enough, for every size, exactly when
        the alignment is a power of two. */
    lemma RoundsExactly()
      ensures Alignment.PowerOfTwo(alignBytes) <==> forall rawSize: nat :: SizeFor(rawSize) % alignBytes == 0
    {
      hide Alignment.PowerOfTwo, Alignment.AlignedSize;
      Alignment.AlignedExactlyForPowersOfTwo(alignBytes);
      if Alignment.PowerOfTwo(alignBytes) {
        forall rawSize: nat ensures SizeFor(rawSize) % alignBytes == 0 {
          assert Alignment.AlignedSize(rawSize, alignBytes) % alignBytes == 0;
        }
      } else {
        Alignment.UnalignedSize(alignBytes);
        assert SizeFor(1) % alignBytes != 0;
      }
    }

    lemma SizeIsRounded(rawSize: nat)
      ensures Rounded(SizeFor(rawSize))
    {
      hide Alignment.PowerOfTwo, Alignment.AlignedSize;
      Alignment.AlignedExactlyForPowersOfTwo(alignBytes);
    }

    constructor (size: nat, align: Positive)
      requires 0 < size
      ensures Valid() && live == {} && buffer.Length == size && alignBytes == align && fresh(buffer) && fresh(blocks)
    {
      hide Canonical;
      buffer := new Byte[size];
      alignBytes := align;
      var whole := new FreeBlock(0, size);
      explicitList, free, blocks := [whole], [Extent(0, size)], {whole};
      numActive, totalAllocated, live := 0, 0, {};
      WholeBufferFree(size);
    }

    method Allocate(rawSize: nat) returns (r: Option<TensorMemoryObj>)
      requires Valid() && 0 < rawSize
      modifies this`explicitList, this`free, this`blocks, this`numActive, this`totalAllocated, this`live
      ensures Valid() && blocks >= old(blocks) && fresh(blocks - old(blocks))
      ensures r.None? ==> live == old(live) && free == old(free)
      ensures r.None? ==> NoRun(old(live), buffer.Length, SizeFor(rawSize))
      ensures r.Some? ==> fresh(r.value) && r.value.valid && r.value.refCount == 1 && !r.value.isPin
      ensures r.Some? ==> r.value.parent == this && live == old(live) + {r.value}
      ensures r.Some? ==> r.value.phySize == SizeFor(rawSize) && rawSize <= r.value.phySize < rawSize + alignBytes
      ensures r.Some? && Alignment.PowerOfTwo(alignBytes) ==>
                r.value.address % alignBytes == 0 && r.value.phySize % alignBytes == 0
      ensures r.Some? ==> r.value.rawLen == rawSize && r.value.TensorFits()
      ensures r.Some? ==> LowestFree(old(live), buffer.Length, r.value.address, r.value.phySize)
    {
      hide Partition, LowestFree, NoRun, SumSizes, SizeFor, Alignment.PowerOfTwo;
      SizeForIsClose(rawSize);
      SizeIsRounded(rawSize);
      var size := SizeFor(rawSize);
      r := AllocateSized(size, rawSize);
    }

    method BatchedAllocate(rawSize: nat, batchSize: nat) returns (r: Option<seq<TensorMemoryObj>>)
      requires Valid() && 0 < rawSize && 0 < batchSize
      modifies this`explicitList, this`free, this`blocks, this`numActive, this`totalAllocated, this`live
      ensures Valid() && blocks >= old(blocks) && fresh(blocks - old(blocks))
      ensures var unit := SizeFor(rawSize);
              match r
              case None => live == old(live) && free == old(free) && NoRun(live, buffer.Length, unit * batchSize)
              case Some(objs) =>
                && |objs| == batchSize && live == old(live) + Elems(objs)
                && Tiles(objs, objs[0].address, objs[0].address + unit * batchSize, unit, rawSize)
                && (forall o :: o in Elems(objs) ==> fresh(o) && o.refCount == 1 && !o.isPin)
                && LowestFree(old(live), buffer.Length, objs[0].address, unit * batchSize)
      ensures r.Some? ==> forall o :: o in Elems(r.value) ==> rawSize <= o.phySize < rawSize + alignBytes
      ensures r.Some? && Alignment.PowerOfTwo(alignBytes) ==> forall o :: o in Elems(r.value) ==>
                o.address % alignBytes == 0 && o.phySize % alignBytes == 0
    {
      hide Partition, LowestFree, NoRun, SumSizes, Elems, Tiles, SizeFor, Alignment.PowerOfTwo;
      SizeForIsClose(rawSize);
      SizeIsRounded(rawSize);
      var unit := SizeFor(rawSize);
      r := BatchedAllocateSized(unit, rawSize, batchSize);
      if r.Some? { TileSizes(r.value, r.value[0].address, r.value[0].address + unit * batchSize, unit, rawSize); }
    }

    /** The consistency check: sizes add up and no two neighbouring blocks touch.  It never complains
        about a valid allocator. */
    method MemCheck() returns (clear: bool)
      requires Rep()
      ensures clear <==> && Total(free) + totalAllocated == buffer.Length
                         && forall i :: 0 < i < |free| ==> free[i - 1].End() != free[i].start
      ensures Valid() ==> clear
    {
      clear := true;
      var totalFree := 0;
      for i := 0 to |explicitList|
        invariant totalFree == Total(free[..i])
      {
        assert free[..i + 1][..i] == free[..i];
        totalFree := totalFree + explicitList[i].size;
      }
      assert free[..|free|] == free;
      if totalFree + totalAllocated != buffer.Length {
        clear := false;
      }
      for i := 0 to |explicitList|
        invariant clear <==> && Total(free) + totalAllocated == buffer.Length
                             && forall j :: 0 < j < i && j < |free| ==> free[j - 1].End() != free[j].start
      {
        if i > 0 && explicitList[i - 1].CanBeCoalesced(explicitList[i]) {
          clear := false;
        }
      }
    }

    /** The bytes an object holds. */
    ghost function Read(o: TensorMemoryObj): seq<Byte>
      reads buffer
    {
      Window(buffer[..], o)
    }

    /** Copies an object's bytes out. */
    method Copy(o: TensorMemoryObj) returns (bytes: seq<Byte>)
      requires Valid() && o in live
      ensures bytes == Read(o) && 0 < |bytes| == o.rawLen
    {
      WindowInBounds(free, live, buffer.Length, o);
      bytes := buffer[o.address..o.address + o.rawLen];
      assert bytes == buffer[..][o.address..o.address + o.rawLen];
    }

    /** Copies data into an object; no other live object's bytes change. */
    method Write(o: TensorMemoryObj, data: seq<Byte>)
      requires Valid() && o in live && |data| == o.rawLen
      modifies buffer
      ensures Read(o) == data
      ensures forall p :: p in live && p != o ==> Read(p) == old(Read(p))
    {
      hide Canonical, FreeAt, Covered;
      WindowInBounds(free, live, buffer.Length, o);
      ghost var before := buffer[..];
      forall i | 0 <= i < |data| {
        buffer[o.address + i] := data[i];
      }
      ghost var after := buffer[..];
      assert after[o.address..o.address + o.rawLen] == data;
      forall p | p in live && p != o ensures Window(after, p) == Window(before, p) {
        WindowsApart(free, live, buffer.Length, o, p);
      }
    }

    lemma LiveIsKnown(o: TensorMemoryObj)
      requires Valid() && o in live
      ensures Known(o) && o.valid && o.parent == this
    {
    }

    /** The whole allocator state follows from which objects are live: between any two moments at
        which the same objects are live, the free list and both counters are the same. */
    twostate lemma StateDetermined()
      requires old(Valid()) && Valid() && live == old(live)
      ensures free == old(free) && numActive == old(numActive) && totalAllocated == old(totalAllocated)
    {
      FreeListDetermined(free, old(free), live, buffer.Length);
    }
  }

  lemma WholeBufferFree(n: int)
    requires 0 < n
    ensures Partition([Extent(0, n)], {}, n) && Total([Extent(0, n)]) == n && SumSizes({}) == 0
  {
    Single(Extent(0, n), 0);
    forall x ensures FreeAt({}, n, x) <==> Covered([Extent(0, n)], x) { Single(Extent(0, n), x); }
  }

  ghost function Elems(objs: seq<TensorMemoryObj>): set<TensorMemoryObj> {
    if objs == [] then {} else Elems(objs[..|objs| - 1]) + {objs[|objs| - 1]}
  }

  /** The objects lie end to end from start to end, unit bytes each, viewed as whole units. */
  ghost predicate Tiles(objs: seq<TensorMemoryObj>, start: int, end: int, unit: int, rawSize: int) {
    if objs == [] then start == end
    else
      var o := objs[|objs| - 1];
      && o.Ext().End() == end && o.phySize == unit && o.rawLen == unit && o.shapeBytes == rawSize
      && Tiles(objs[..|objs| - 1], start, o.address, unit, rawSize)
  }

  lemma NoTiles(start: int, unit: int, rawSize: int)
    ensures Elems([]) == {} && Tiles([], start, start, unit, rawSize)
  {
  }

  lemma Snoc(objs: seq<TensorMemoryObj>, o: TensorMemoryObj, start: int, end: int, unit: int, rawSize: int)
    requires Tiles(objs, start, end, unit, rawSize)
    requires o.address == end && o.phySize == unit && o.rawLen == unit && o.shapeBytes == rawSize
    ensures Elems(objs + [o]) == Elems(objs) + {o} && Tiles(objs + [o], start, end + unit, unit, rawSize)
  {
    assert (objs + [o])[..|objs|] == objs;
  }

  lemma {:induction false} InElems(objs: seq<TensorMemoryObj>, o: TensorMemoryObj)
    ensures o in Elems(objs) <==> o in objs
    decreases |objs|
  {
    if objs != [] {
      InElems(objs[..|objs| - 1], o);
      assert objs == objs[..|objs| - 1] + [objs[|objs| - 1]];
    }
  }

  /** Tiling, index by index. */
  lemma {:induction false} TilesAt(objs: seq<TensorMemoryObj>, start: int, end: int, unit: int, rawSize: int, i: nat)
    requires Tiles(objs, start, end, unit, rawSize) && i < |objs|
    ensures objs[i].address == start + i * unit && objs[i].phySize == unit && objs[i].shapeBytes == rawSize
    ensures end == start + |objs| * unit
    ensures objs[i].TensorFits() <==> rawSize == unit
    decreases |objs|
  {
    var n := |objs| - 1;
    assert |objs| * unit == n * unit + unit;
    if n > 0 {
      TilesAt(objs[..n], start, objs[n].address, unit, rawSize, if i < n then i else 0);
    }
  }

  lemma {:induction false} TileSizes(objs: seq<TensorMemoryObj>, start: int, end: int, unit: int, rawSize: int)
    requires Tiles(objs, start, end, unit, rawSize)
    ensures forall o :: o in Elems(objs) ==> o.phySize == unit
    decreases |objs|
  {
    if objs != [] {
      TileSizes(objs[..|objs| - 1], start, objs[|objs| - 1].address, unit, rawSize);
    }
  }

  lemma {:induction false} TileMultiples(objs: seq<TensorMemoryObj>, start: int, end: int, unit: int, rawSize: int,
      a: Positive)
    requires Tiles(objs, start, end, unit, rawSize) && Multiple(start, a) && Multiple(unit, a)
    ensures Multiple(end, a) && AllMultiples(Elems(objs), a)
    decreases |objs|
  {
    hide Multiple;
    if objs != [] {
      var o := objs[|objs| - 1];
      TileMultiples(objs[..|objs| - 1], start, o.address, unit, rawSize, a);
      MultiplesAdd(o.address, unit, a);
    }
  }

  lemma TilesFirst(objs: seq<TensorMemoryObj>, start: int, end: int, unit: int, rawSize: int)
    requires Tiles(objs, start, end, unit, rawSize) && objs != []
    ensures objs[0].address == start
  {
    TilesAt(objs, start, end, unit, rawSize, 0);
  }

  /** The length of k units laid end to end. */
  ghost function Span(unit: int, k: nat): (r: int)
    ensures 0 < unit ==> 0 <= r && (0 < k ==> unit <= r)
  {
    if k == 0 then 0 else Span(unit, k - 1) + unit
  }

  lemma {:induction false} SpanIsProduct(unit: int, k: nat)
    ensures Span(unit, k) == unit * k
  {
    if k > 0 {
      SpanIsProduct(unit, k - 1);
      assert unit * k == unit * (k - 1) + unit;
    }
  }

  // ---------------------------------------------------------------- batches

  /** The objects of a batch that are live when their turn comes, in order: repeats and dead ones skipped. */
  ghost function Firsts(objs: seq<TensorMemoryObj>, live: set<TensorMemoryObj>): seq<TensorMemoryObj> {
    if objs == [] then []
    else
      var fs, o := Firsts(objs[..|objs| - 1], live), objs[|objs| - 1];
      if o in live && o !in Elems(fs) then fs + [o] else fs
  }

  ghost function Exts(objs: seq<TensorMemoryObj>): (es: seq<Extent>)
    ensures |es| == |objs|
  {
    if objs == [] then [] else Exts(objs[..|objs| - 1]) + [objs[|objs| - 1].Ext()]
  }

  /** The variables of the merging pass after the extents es. */
  ghost predicate Merging(seed: int, es: seq<Extent>, done: seq<Extent>, cur: Option<Extent>, currStart: int) {
    if es == [] then done == [] && cur.None? && currStart == seed
    else cur.Some? && MergeRuns(seed, es) == RunState(done, cur.value, currStart)
  }

  /** The free list, the pending extents and the live objects partition [0, n). */
  ghost predicate PendingPartition(fl: seq<Extent>, pending: seq<Extent>, live: set<TensorMemoryObj>, n: int) {
    && Canonical(fl, n)
    && LiveDisjoint(live, n)
    && PairwiseDisjoint(pending)
    && (forall x :: FreeAt(live, n, x) <==> Covered(fl, x) || Covered(pending, x))
    && (forall x :: Covered(pending, x) ==> !Covered(fl, x))
  }

  lemma PendingFirst(fl: seq<Extent>, runs: seq<Extent>, i: nat, live: set<TensorMemoryObj>, n: int)
    requires i < |runs| && PendingPartition(fl, runs[i..], live, n)
    ensures Canonical(fl, n) && Returnable(fl, n, runs[i])
  {
    var e := runs[i..][0];
    assert e == runs[i];
    assert forall x :: e.Has(x) ==> Covered(runs[i..], x);
    assert FreeAt(live, n, e.start) && FreeAt(live, n, e.End() - 1) by { assert e.Has(e.start) && e.Has(e.End() - 1); }
  }

  lemma PendingNext(fl: seq<Extent>, fl': seq<Extent>, runs: seq<Extent>, i: nat, live: set<TensorMemoryObj>, n: int)
    requires i < |runs| && PendingPartition(fl, runs[i..], live, n) && GaveBack(fl, fl', n, runs[i])
    ensures PendingPartition(fl', runs[i + 1..], live, n)
    ensures Total(fl') == Total(fl) + runs[i].size && Total(runs[..i + 1]) == Total(runs[..i]) + runs[i].size
  {
    var rest, e := runs[i + 1..], runs[i];
    assert runs[i..] == [e] + rest;
    assert runs[..i + 1][..i] == runs[..i];
    DisjointHead(e, rest);
    forall x ensures Covered(runs[i..], x) <==> e.Has(x) || Covered(rest, x) {
      CoveredConcat([e], rest, x);
      Single(e, x);
    }
  }

  lemma DisjointHead(e: Extent, rest: seq<Extent>)
    requires PairwiseDisjoint([e] + rest)
    ensures PairwiseDisjoint(rest) && forall x :: Covered(rest, x) ==> !e.Has(x)
  {
    var all := [e] + rest;
    assert all[0] == e && forall j :: 0 <= j < |rest| ==> rest[j] == all[j + 1];
    forall x | Covered(rest, x) ensures !e.Has(x) {
      var j :| 0 <= j < |rest| && rest[j].Has(x);
      assert all[0] == e && all[j + 1] == rest[j];
    }
  }

  lemma PendingNone(fl: seq<Extent>, runs: seq<Extent>, live: set<TensorMemoryObj>, n: int)
    requires PendingPartition(fl, runs[|runs|..], live, n)
    ensures Partition(fl, live, n) && Total(runs[..|runs|]) == Total(runs)
  {
    assert runs[..|runs|] == runs;
  }

  ghost predicate OwnedBy(s: set<TensorMemoryObj>, x: int) {
    exists o :: o in s && o.Ext().Has(x)
  }

  lemma {:induction false} FirstsAreBatch(objs: seq<TensorMemoryObj>, live: set<TensorMemoryObj>)
    ensures Elems(Firsts(objs, live)) == live * Elems(objs)
    ensures Firsts(objs, live) == [] <==> Elems(Firsts(objs, live)) == {}
    ensures objs == [] ==> Elems(objs) == {}
    decreases |objs|
  {
    if objs != [] {
      var init, o := objs[..|objs| - 1], objs[|objs| - 1];
      FirstsAreBatch(init, live);
      assert objs == init + [o];
      ExtsStep(Firsts(init, live), o);
    }
  }

  /** The extents of the objects a batch frees: disjoint, owned by those objects, and adding up to their sizes. */
  lemma {:induction false} FirstsExts(objs: seq<TensorMemoryObj>, live: set<TensorMemoryObj>, n: int)
    requires LiveDisjoint(live, n)
    ensures var fs := Firsts(objs, live);
            && Elems(fs) <= live && PairwiseDisjoint(Exts(fs))
            && Total(Exts(fs)) == SumSizes(live) - SumSizes(live - Elems(fs))
            && forall x :: Covered(Exts(fs), x) <==> OwnedBy(Elems(fs), x)
    decreases |objs|
  {
    if objs == [] {
      assert live - {} == live;
    } else {
      var init, o := objs[..|objs| - 1], objs[|objs| - 1];
      FirstsExts(init, live, n);
      var fs := Firsts(init, live);
      if o in live && o !in Elems(fs) {
        FirstsExtsStep(fs, o, live, n);
      }
    }
  }

  lemma FirstsExtsStep(fs: seq<TensorMemoryObj>, o: TensorMemoryObj, live: set<TensorMemoryObj>, n: int)
    requires LiveDisjoint(live, n) && Elems(fs) <= live && PairwiseDisjoint(Exts(fs))
    requires Total(Exts(fs)) == SumSizes(live) - SumSizes(live - Elems(fs))
    requires forall x :: Covered(Exts(fs), x) <==> OwnedBy(Elems(fs), x)
    requires o in live && o !in Elems(fs)
    ensures PairwiseDisjoint(Exts(fs + [o])) && Elems(fs + [o]) <= live
    ensures Total(Exts(fs + [o])) == SumSizes(live) - SumSizes(live - Elems(fs + [o]))
    ensures forall x :: Covered(Exts(fs + [o]), x) <==> OwnedBy(Elems(fs + [o]), x)
  {
    ExtsStep(fs, o);
    assert live - Elems(fs + [o]) == live - Elems(fs) - {o};
    SumSizesRemove(live - Elems(fs), o);
    TotalConcat(Exts(fs), [o.Ext()]);
    Single(o.Ext(), 0);
    ClearOfOwned(Exts(fs), Elems(fs), o, live, n);
    forall x ensures Covered(Exts(fs) + [o.Ext()], x) <==> OwnedBy(Elems(fs) + {o}, x) {
      OwnedByOneMore(Exts(fs), Elems(fs), o, x);
    }
  }

  lemma ClearOfOwned(es: seq<Extent>, s: set<TensorMemoryObj>, o: TensorMemoryObj, live: set<TensorMemoryObj>, n: int)
    requires LiveDisjoint(live, n) && s <= live && PairwiseDisjoint(es) && o in live && o !in s
    requires forall x :: Covered(es, x) <==> OwnedBy(s, x)
    ensures PairwiseDisjoint(es + [o.Ext()])
  {
    assert forall p :: p in s ==> p.Ext().End() <= o.address || o.Ext().End() <= p.address;
    assert forall x :: o.Ext().Has(x) ==> !OwnedBy(s, x);
    forall i | 0 <= i < |es| ensures es[i].End() <= o.address || o.Ext().End() <= es[i].start {
      RunClearOf(es, i, o.Ext());
    }
  }

  lemma OwnedByOneMore(es: seq<Extent>, s: set<TensorMemoryObj>, o: TensorMemoryObj, x: int)
    requires Covered(es, x) <==> OwnedBy(s, x)
    ensures Covered(es + [o.Ext()], x) <==> OwnedBy(s + {o}, x)
  {
    CoveredConcat(es, [o.Ext()], x);
    Single(o.Ext(), x);
    assert o in s + {o};
    if OwnedBy(s, x) {
      var p :| p in s && p.Ext().Has(x);
      assert p in s + {o};
    }
  }

  /** The merged runs of a batch, given its first object's address as the seed. */
  ghost function RunsOf(objs: seq<TensorMemoryObj>, live: set<TensorMemoryObj>): seq<Extent>
    requires objs != [] && Firsts(objs, live) != []
  {
    MergeRuns(objs[0].address, Exts(Firsts(objs, live))).Runs()
  }

  /** Whether the seed, the address of the first object whatever its state, fits the objects that get freed. */
  ghost predicate SeedIsFine(objs: seq<TensorMemoryObj>, live: set<TensorMemoryObj>) {
    objs != [] && Firsts(objs, live) != [] ==> SeedFits(objs[0].address, Exts(Firsts(objs, live)))
  }

  lemma PartitionIsSorted(fl: seq<Extent>, live: set<TensorMemoryObj>, n: int)
    requires Partition(fl, live, n)
    ensures Sorted(fl)
  {
    CanonicalIsSorted(fl, n);
  }

  /** After the first pass, the merged runs have the size of the objects that lost their memory, and with a
      fitting seed stand for exactly those objects. */
  lemma CollectedPending(fl: seq<Extent>, live: set<TensorMemoryObj>, n: int, objs: seq<TensorMemoryObj>,
      runs: seq<Extent>)
    requires Partition(fl, live, n) && objs != [] && Firsts(objs, live) != [] && runs == RunsOf(objs, live)
    ensures NonEmpty(runs)
    ensures Total(runs) == SumSizes(live) - SumSizes(live - Elems(Firsts(objs, live)))
    ensures SeedIsFine(objs, live) ==> PendingPartition(fl, runs, live - Elems(Firsts(objs, live)), n)
  {
    hide SeedFits, MergeRuns, Canonical, Covered, PairwiseDisjoint;
    var es := Exts(Firsts(objs, live));
    FirstsExts(objs, live, n);
    DisjointIsPositive(es);
    RunsTotal(objs[0].address, es);
    RunsPositive(objs[0].address, es);
    if SeedIsFine(objs, live) {
      GoodRuns(objs[0].address, es);
      FreedPending(fl, live, n, Elems(Firsts(objs, live)), runs);
    }
  }

  lemma DisjointIsPositive(es: seq<Extent>)
    requires PairwiseDisjoint(es)
    ensures NonEmpty(es)
  {
  }

  lemma FreedPending(fl: seq<Extent>, live: set<TensorMemoryObj>, n: int, s: set<TensorMemoryObj>, runs: seq<Extent>)
    requires Partition(fl, live, n) && s <= live && PairwiseDisjoint(runs)
    requires forall x :: Covered(runs, x) <==> OwnedBy(s, x)
    ensures PendingPartition(fl, runs, live - s, n)
  {
    hide Canonical, Covered, PairwiseDisjoint;
    var left := live - s;
    forall x | Covered(runs, x) ensures !Covered(fl, x) && FreeAt(left, n, x) { FreedAddress(live, s, n, x); }
    forall x ensures FreeAt(left, n, x) <==> Covered(fl, x) || Covered(runs, x) {
      if FreeAt(left, n, x) && !OwnedBy(s, x) {
        assert FreeAt(live, n, x);
      }
      if Covered(fl, x) {
        assert FreeAt(live, n, x) && FreeAt(left, n, x);
      }
    }
  }

  /** With an unfit seed the list that comes out is no partition of what is left: some address is neither
      free nor owned. */
  lemma UnfitSeedLeaks(fl: seq<Extent>, live: set<TensorMemoryObj>, n: int, objs: seq<TensorMemoryObj>,
      fl': seq<Extent>)
    requires Partition(fl, live, n) && objs != [] && Firsts(objs, live) != []
    requires AddedAll(fl, fl', RunsOf(objs, live))
    ensures Partition(fl', live - Elems(Firsts(objs, live)), n) ==> SeedIsFine(objs, live)
  {
    hide SeedFits, MergeRuns, Canonical, Covered, PairwiseDisjoint, FreeAt;
    if !SeedIsFine(objs, live) {
      var fs := Firsts(objs, live);
      FirstsExts(objs, live, n);
      var y := BadSeedLosesAddress(objs[0].address, Exts(fs));
      FreedAddress(live, Elems(fs), n, y);
      assert FreeAt(live - Elems(fs), n, y) && !Covered(fl', y);
    }
  }

  lemma FreedAddress(live: set<TensorMemoryObj>, s: set<TensorMemoryObj>, n: int, x: int)
    requires LiveDisjoint(live, n) && s <= live && OwnedBy(s, x)
    ensures FreeAt(live - s, n, x) && !FreeAt(live, n, x)
  {
    var o :| o in s && o.Ext().Has(x);
    forall p | p in live - s ensures !p.Ext().Has(x) { assert o in live && p in live && o != p; }
  }

  /** A batch whose first object is valid always has a fitting seed. */
  lemma {:induction false} FirstValidFits(objs: seq<TensorMemoryObj>, live: set<TensorMemoryObj>)
    requires objs != [] && objs[0] in live
    ensures Firsts(objs, live) != [] && Firsts(objs, live)[0] == objs[0]
    ensures SeedFits(objs[0].address, Exts(Firsts(objs, live)))
    decreases |objs|
  {
    if |objs| > 1 {
      FirstValidFits(objs[..|objs| - 1], live);
    }
    ExtsFirst(Firsts(objs, live));
  }

  lemma {:induction false} ExtsFirst(objs: seq<TensorMemoryObj>)
    requires objs != []
    ensures Exts(objs)[0] == objs[0].Ext()
    decreases |objs|
  {
    if |objs| > 1 { ExtsFirst(objs[..|objs| - 1]); }
  }

  // ---------------------------------------------------------------- objects end to end from address 0

  /** Exactly the first k addresses are in use. */
  ghost predicate FilledTo(live: set<TensorMemoryObj>, n: int, k: int) {
    forall x :: FreeAt(live, n, x) <==> k <= x < n
  }

  lemma EmptyIsFilledTo(n: int)
    ensures FilledTo({}, n, 0)
  {
  }

  lemma NextFits(live: set<TensorMemoryObj>, n: int, k: nat, size: int)
    requires FilledTo(live, n, k) && 0 < size && k + size <= n
    ensures !NoRun(live, n, size)
  {
    assert RunFree(live, n, k, size);
  }

  lemma NextIs(live: set<TensorMemoryObj>, n: int, k: nat, o: TensorMemoryObj)
    requires FilledTo(live, n, k) && 0 < o.phySize && k + o.phySize <= n
    requires LowestFree(live, n, o.address, o.phySize)
    ensures o.address == k && FilledTo(live + {o}, n, k + o.phySize)
  {
    assert RunFree(live, n, k, o.phySize);
    assert FreeAt(live, n, o.address);
    forall x ensures FreeAt(live + {o}, n, x) <==> FreeAt(live, n, x) && !o.Ext().Has(x) {
      FreeBesides(live, n, o, x);
    }
  }

  /** Where t bytes are free in a row, taking the lowest run of fewer leaves the rest of them free in a row. */
  lemma RunLeft(live: set<TensorMemoryObj>, n: int, t: int, size: int, o: TensorMemoryObj)
    requires !NoRun(live, n, t) && 0 < size <= t
    requires LowestFree(live, n, o.address, size) && o.phySize == size
    ensures !NoRun(live + {o}, n, t - size)
  {
    var s :| RunFree(live, n, s, t);
    assert RunFree(live, n, s, size);
    var s' := if s < o.address + size then o.address + size else s;
    forall x | s' <= x < s' + (t - size) ensures FreeAt(live + {o}, n, x) { FreeBesides(live, n, o, x); }
    assert RunFree(live + {o}, n, s', t - size);
  }

  lemma RunKept(live: set<TensorMemoryObj>, more: set<TensorMemoryObj>, n: int, t: int, size: int)
    requires !NoRun(more, n, t) && live <= more && size <= t
    ensures !NoRun(live, n, size)
  {
    var s :| RunFree(more, n, s, t);
    forall x | s <= x < s + size ensures FreeAt(live, n, x) { assert FreeAt(more, n, x); }
    assert RunFree(live, n, s, size);
  }

  /** Of three objects, the first of them dead, the other two are freed, and the dead one's address seeds the
      merge as if they touched. */
  lemma BatchIs(b: TensorMemoryObj, a: TensorMemoryObj, c: TensorMemoryObj, live: set<TensorMemoryObj>)
    requires live == {a, c} && b !in live && a != c && 0 < a.phySize == b.phySize == c.phySize
    requires b.address == a.address + a.phySize && c.address == b.address + b.phySize
    ensures !SeedIsFine([b, a, c], live) && Elems([b, a, c]) == {b, a, c}
  {
    hide Firsts, Exts, Elems;
    var all, two: seq<TensorMemoryObj> := [b, a, c], [a, c];
    ElemsOfThree(b, a, c);
    FirstsOfThree(b, a, c, live);
    ExtsOfTwo(a, c);
    assert Firsts(all, live) == two && all[0] == b;
  }

  lemma ElemsOfTwo(a: TensorMemoryObj, b: TensorMemoryObj)
    ensures Elems([a]) == {a} && Elems([a, b]) == {a, b}
  {
    hide Elems, Exts;
    var none: seq<TensorMemoryObj> := [];
    NoTiles(0, 0, 0);
    ExtsAre(none, a);
    assert none + [a] == [a];
    ExtsAre([a], b);
    assert [a] + [b] == [a, b];
  }

  lemma ElemsOfThree(a: TensorMemoryObj, b: TensorMemoryObj, c: TensorMemoryObj)
    ensures Elems([a, b, c]) == {a, b, c}
  {
    hide Elems, Exts;
    ElemsOfTwo(a, b);
    ExtsAre([a, b], c);
    assert [a, b] + [c] == [a, b, c];
  }

  lemma FirstsOfThree(b: TensorMemoryObj, a: TensorMemoryObj, c: TensorMemoryObj, live: set<TensorMemoryObj>)
    requires live == {a, c} && b !in live && a != c
    ensures Firsts([b, a, c], live) == [a, c]
  {
    hide Firsts, Elems;
    var objs, none: seq<TensorMemoryObj> := [b, a, c], [];
    NoFirsts(live);
    ElemsOfTwo(a, c);
    NoTiles(0, 0, 0);
    assert objs[..0] == none && objs[..3] == objs;
    FirstsStep(objs, 0, live);
    assert Firsts(objs[..1], live) == none;
    FirstsStep(objs, 1, live);
    assert Firsts(objs[..2], live) == none + [a] == [a];
    FirstsStep(objs, 2, live);
    assert [a] + [c] == [a, c];
  }

  lemma NoFirsts(live: set<TensorMemoryObj>)
    ensures Firsts([], live) == []
  {
  }

  lemma ExtsOfTwo(a: TensorMemoryObj, c: TensorMemoryObj)
    ensures Exts([a, c]) == [a.Ext(), c.Ext()]
  {
    hide Elems, Exts;
    var none: seq<TensorMemoryObj> := [];
    ExtsAre(none, a);
    assert none + [a] == [a] && Exts(none) == [];
    ExtsAre([a], c);
    assert [a] + [c] == [a, c];
  }

  lemma ExtsAre(objs: seq<TensorMemoryObj>, o: TensorMemoryObj)
    ensures Exts(objs + [o]) == Exts(objs) + [o.Ext()] && Elems(objs + [o]) == Elems(objs) + {o}
  {
    ExtsStep(objs, o);
  }

  lemma NothingCollected(live: set<TensorMemoryObj>, seed: int)
    ensures live == live - Elems([]) && Firsts([], live) == [] && Merging(seed, Exts([]), [], None, seed)
  {
  }

  lemma MergingStep(seed: int, es: seq<Extent>, done: seq<Extent>, cur: Option<Extent>, currStart: int, e: Extent)
    requires Merging(seed, es, done, cur, currStart)
    ensures cur.None? ==> es == [] && Merging(seed, es + [e], done, Some(e), currStart + e.size)
    ensures cur.Some? && currStart == e.start ==>
              Merging(seed, es + [e], done, Some(Extent(cur.value.start, cur.value.size + e.size)), currStart + e.size)
    ensures cur.Some? && currStart != e.start ==> Merging(seed, es + [e], done + [cur.value], Some(e), e.End())
  {
    assert (es + [e])[..|es|] == es;
  }

  lemma MergingDone(seed: int, es: seq<Extent>, done: seq<Extent>, cur: Option<Extent>, currStart: int)
    requires Merging(seed, es, done, cur, currStart)
    ensures cur.None? <==> es == []
    ensures cur.Some? ==> done + [cur.value] == MergeRuns(seed, es).Runs()
  {
  }

  lemma FirstsStep(objs: seq<TensorMemoryObj>, i: nat, live: set<TensorMemoryObj>)
    requires i < |objs|
    ensures var fs, o := Firsts(objs[..i], live), objs[i];
            Firsts(objs[..i + 1], live) == if o in live && o !in Elems(fs) then fs + [o] else fs
  {
    assert objs[..i + 1][..i] == objs[..i];
  }

  lemma ExtsStep(objs: seq<TensorMemoryObj>, o: TensorMemoryObj)
    ensures Exts(objs + [o]) == Exts(objs) + [o.Ext()] && Exts(objs + [o])[..|objs|] == Exts(objs)
    ensures Elems(objs + [o]) == Elems(objs) + {o}
  {
    assert (objs + [o])[..|objs|] == objs;
  }

  lemma LiveApart(fl: seq<Extent>, live: set<TensorMemoryObj>, n: int)
    requires Partition(fl, live, n)
    ensures LiveDisjoint(live, n)
  {
  }

  /** A free extent starts where the address before it is not free. */
  lemma FreeStart(fl: seq<Extent>, live: set<TensorMemoryObj>, n: int, i: nat)
    requires Partition(fl, live, n) && i < |fl|
    ensures LiveDisjoint(live, n) && FreeAt(live, n, fl[i].start) && !FreeAt(live, n, fl[i].start - 1)
  {
    var x := fl[i].start;
    assert fl[i].Has(x);
    forall j | 0 <= j < |fl| ensures !fl[j].Has(x - 1) {
      if j < i { assert fl[j].End() < x; }
    }
  }

  lemma FreedIsReturnable(fl: seq<Extent>, live: set<TensorMemoryObj>, n: int, o: TensorMemoryObj)
    requires Partition(fl, live, n) && o in live
    ensures Returnable(fl, n, o.Ext())
  {
  }

  lemma PartitionAfterFree(fl: seq<Extent>, fl': seq<Extent>, live: set<TensorMemoryObj>, n: int, o: TensorMemoryObj)
    requires Partition(fl, live, n) && o in live
    requires GaveBack(fl, fl', n, o.Ext())
    ensures Partition(fl', live - {o}, n)
  {
    forall x ensures FreeAt(live - {o}, n, x) <==> Covered(fl', x) {
      if o.Ext().Has(x) {
        assert FreeAt(live - {o}, n, x);
      } else {
        assert FreeAt(live - {o}, n, x) <==> FreeAt(live, n, x);
      }
    }
  }

  lemma WindowInBounds(fl: seq<Extent>, live: set<TensorMemoryObj>, n: int, o: TensorMemoryObj)
    requires Partition(fl, live, n) && o in live
    ensures 0 <= o.address && 0 < o.rawLen && o.address + o.rawLen <= n
  {
  }

  lemma WindowsApart(fl: seq<Extent>, live: set<TensorMemoryObj>, n: int, o: TensorMemoryObj, p: TensorMemoryObj)
    requires Partition(fl, live, n) && o in live && p in live && o != p
    ensures 0 <= p.address && 0 < p.rawLen && p.address + p.rawLen <= n
    ensures o.address + o.rawLen <= p.address || p.address + p.rawLen <= o.address
  {
  }

  lemma RunsAgree(fl: seq<Extent>, live: set<TensorMemoryObj>, n: int, s: int, k: int)
    requires Partition(fl, live, n)
    ensures FreeRun(fl, s, k) <==> RunFree(live, n, s, k)
  {
  }

  lemma NoFitNoFreeRun(fl: seq<Extent>, live: set<TensorMemoryObj>, n: int, k: int)
    requires Partition(fl, live, n) && 0 < k && forall j :: 0 <= j < |fl| ==> fl[j].size < k
    ensures NoRun(live, n, k)
  {
    NoFitNoRun(fl, n, k);
    forall s ensures !RunFree(live, n, s, k) { RunsAgree(fl, live, n, s, k); }
  }

  lemma LowestFitIsFree(fl: seq<Extent>, live: set<TensorMemoryObj>, n: int, i: nat, k: int)
    requires Partition(fl, live, n) && 0 < k && i < |fl| && k <= fl[i].size
    requires forall j :: 0 <= j < i ==> fl[j].size < k
    ensures LowestFree(live, n, fl[i].start, k)
  {
    FirstFitIsLowest(fl, n, i, k);
    RunsAgree(fl, live, n, fl[i].start, k);
    forall t | t < fl[i].start ensures !RunFree(live, n, t, k) { RunsAgree(fl, live, n, t, k); }
  }

  lemma PartitionAfterCarve(fl: seq<Extent>, live: set<TensorMemoryObj>, n: int, i: nat, k: int)
    requires Partition(fl, live, n) && i < |fl| && 0 < k <= fl[i].size
    ensures PartitionBut(Carved(fl, i, k), Extent(fl[i].start, k), live, n)
    ensures Total(Carved(fl, i, k)) == Total(fl) - k
  {
    Carve(fl, n, i, k);
    assert forall x :: Extent(fl[i].start, k).Has(x) ==> fl[i].Has(x);
  }

  lemma OwnerIsApart(live: set<TensorMemoryObj>, n: int, o: TensorMemoryObj)
    requires LiveDisjoint(live, n) && 0 < o.rawLen <= o.phySize && RunFree(live, n, o.address, o.phySize)
    ensures LiveDisjoint(live + {o}, n)
  {
    assert FreeAt(live, n, o.address) && FreeAt(live, n, o.address + o.phySize - 1);
    forall p | p in live ensures o.Ext().End() <= p.address || p.Ext().End() <= o.address {
      var x := if p.address < o.address then o.address else p.address;
      assert p.Ext().Has(x) ==> !FreeAt(live, n, x);
      assert o.Ext().Has(x) ==> FreeAt(live, n, x);
    }
  }

  lemma FreeBesides(live: set<TensorMemoryObj>, n: int, o: TensorMemoryObj, x: int)
    ensures FreeAt(live + {o}, n, x) <==> FreeAt(live, n, x) && !o.Ext().Has(x)
  {
    assert o in live + {o};
  }

  /** Handing the front of the hole to a new owner shrinks the hole. */
  lemma OwnerOfHole(fl: seq<Extent>, hole: Extent, live: set<TensorMemoryObj>, n: int, o: TensorMemoryObj)
    requires PartitionBut(fl, hole, live, n) && o !in live
    requires o.address == hole.start && 0 < o.rawLen <= o.phySize <= hole.size
    ensures PartitionBut(fl, Extent(hole.start + o.phySize, hole.size - o.phySize), live + {o}, n)
    ensures hole.size == o.phySize ==> Partition(fl, live + {o}, n)
  {
    hide Canonical, Covered, FreeAt, LiveDisjoint;
    OwnerIsApart(live, n, o);
    forall x ensures FreeAt(live + {o}, n, x) <==> FreeAt(live, n, x) && !o.Ext().Has(x) {
      FreeBesides(live, n, o, x);
    }
  }

  lemma NoHole(fl: seq<Extent>, s: int, live: set<TensorMemoryObj>, n: int)
    requires PartitionBut(fl, Extent(s, 0), live, n)
    ensures Partition(fl, live, n)
  {
  }

  lemma SumSizesAdd(live: set<TensorMemoryObj>, o: TensorMemoryObj)
    requires o !in live
    ensures SumSizes(live + {o}) == SumSizes(live) + o.phySize
  {
    assert live + {o} - {o} == live;
    SumSizesRemove(live + {o}, o);
  }
}
