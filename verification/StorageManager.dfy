/** The storage manager: who owns which reference to a memory object on its way between callers, the
    hot cache, disk writes in flight and the disk. */
module StorageManagement {
  import opened Wrappers
  import opened CacheKeys
  import opened MemoryManagement
  import opened References
  import opened LocalCpuBackend

  type Bytes = seq<Byte>

  /** The disk backend.  Its evictor is outside the model: a put is told which keys to drop, and whether
      the object is too large for the disk. */
  class LocalDiskBackend {
    const cpu: LocalCPUBackend
    /** File contents by key, and the writes in flight, each holding a reference to its object. */
    var dict: map<CacheEngineKey, Bytes>
    var putTasks: Hot

    constructor (cpu: LocalCPUBackend)
      ensures this.cpu == cpu && dict == map[] && putTasks == map[]
    {
      this.cpu := cpu;
      dict, putTasks := map[], map[];
    }

    /** The files are non-empty, and the writes in flight hold references of their own. */
    ghost predicate Valid()
      reads this, cpu`ext
    {
      && (forall k :: k in dict ==> 0 < |dict[k]|)
      && ValuesOf(putTasks) <= cpu.ext
    }

    /** Starts a write: the file it will replace is evicted separately, the object is held until the end. */
    method SubmitPutTask(key: CacheEngineKey, o: TensorMemoryObj, legal: bool, evictKeys: set<CacheEngineKey>)
      requires cpu.Valid() && Valid() && o in cpu.ext && key !in putTasks
      modifies this, cpu`refs, cpu`ext, o`refCount
      ensures cpu.Valid() && Valid()
      ensures !legal ==> dict == old(dict) && putTasks == old(putTasks) && cpu.ext == old(cpu.ext)
      ensures legal ==> dict == old(dict) - evictKeys && putTasks == old(putTasks)[key := o]
      ensures legal ==> cpu.ext == old(cpu.ext) + multiset{o}
      ensures old(cpu.Unpinned()) ==> cpu.Unpinned()
    {
      hide LocalCPUBackend.Valid, ValuesOf;
      if legal {
        dict := dict - evictKeys;
        ValuesOfInsert(putTasks, key, o);
        cpu.Acquire(o);
        putTasks := putTasks[key := o];
      }
    }

    /** Ends a write: the file holds the object's bytes and the reference goes. */
    method FinishPut(key: CacheEngineKey)
      requires cpu.Valid() && Valid() && key in putTasks
      modifies this, cpu`refs, cpu`ext, cpu`leaked, cpu.allocator.live`refCount, cpu.allocator.live`valid
      modifies cpu.allocator`explicitList, cpu.allocator`free, cpu.allocator`blocks, cpu.allocator`numActive
      modifies cpu.allocator`totalAllocated, cpu.allocator`live, cpu.allocator.blocks
      ensures cpu.Valid() && Valid() && putTasks == old(putTasks) - {key}
      ensures dict == old(dict)[key := cpu.allocator.Read(old(putTasks)[key])]
      ensures cpu.ext == old(cpu.ext) - multiset{old(putTasks)[key]}
      ensures cpu.allocator.live <= old(cpu.allocator.live)
      ensures cpu.allocator.blocks >= old(cpu.allocator.blocks)
      ensures fresh(cpu.allocator.blocks - old(cpu.allocator.blocks))
      ensures old(cpu.leaked) <= cpu.leaked
      ensures old(cpu.Unpinned()) ==> cpu.Unpinned()
    {
      hide LocalCPUBackend.Valid, TensorMemoryAllocator.Valid, ValuesOf;
      var o := putTasks[key];
      ValuesOfRemove(putTasks, key);
      InFlightIsLive(key);
      var bytes := cpu.allocator.Copy(o);
      dict := dict[key := bytes];
      putTasks := putTasks - {key};
      cpu.Release(o);
    }

    /** Reads a file back into newly allocated memory, evicting from the hot cache if need be; the caller
        holds the new object. */
    method GetBlocking(key: CacheEngineKey) returns (r: Option<TensorMemoryObj>, ghost evicted: seq<CacheEngineKey>)
      requires cpu.Valid() && Valid()
      modifies cpu`order, cpu`hot, cpu`refs, cpu`ext, cpu`leaked
      modifies cpu.allocator.live`refCount, cpu.allocator.live`valid
      modifies cpu.allocator`explicitList, cpu.allocator`free, cpu.allocator`blocks, cpu.allocator`numActive
      modifies cpu.allocator`totalAllocated, cpu.allocator`live, cpu.allocator.blocks, cpu.allocator.buffer
      ensures cpu.Valid() && Valid() && cpu.hot == old(cpu.hot) - KeySet(evicted)
      ensures cpu.order == WithoutAll(old(cpu.order), evicted)
      ensures key !in dict ==> r.None? && evicted == []
      ensures r.None? && key in dict ==>
                NoRun(cpu.allocator.live, cpu.allocator.buffer.Length, cpu.allocator.SizeFor(|dict[key]|))
      ensures r.None? ==> cpu.ext == old(cpu.ext) && cpu.allocator.live <= old(cpu.allocator.live)
      ensures r.Some? ==> cpu.allocator.live <= old(cpu.allocator.live) + {r.value}
      ensures r.Some? ==> fresh(r.value) && !r.value.isPin
      ensures r.Some? ==> r.value in cpu.allocator.live && r.value !in old(cpu.allocator.live)
      ensures r.Some? ==> cpu.allocator.Read(r.value) == dict[key] && cpu.ext == old(cpu.ext) + multiset{r.value}
      ensures forall p :: p in cpu.allocator.live && p in old(cpu.allocator.live) ==>
                cpu.allocator.Read(p) == old(cpu.allocator.Read(p))
      ensures cpu.allocator.blocks >= old(cpu.allocator.blocks)
      ensures fresh(cpu.allocator.blocks - old(cpu.allocator.blocks))
      ensures old(cpu.leaked) <= cpu.leaked
      ensures old(cpu.Unpinned()) ==> cpu.Unpinned()
      ensures evicted <= Cands(old(cpu.order), old(cpu.hot), old(cpu.refs))
    {
      hide LocalCPUBackend.Valid, TensorMemoryAllocator.Valid, ValuesOf, LocalCPUBackend.Allocated, Cands, NoRun;
      hide WithoutAll, KeySet;
      r, evicted := None, [];
      if key in dict {
        ghost var st, cands, hot0 := cpu.StartNow(), Cands(cpu.order, cpu.hot, cpu.refs), cpu.hot;
        r, evicted := cpu.Allocate(|dict[key]|, true);
        cpu.OutcomeBasics(st, cands, hot0, true, evicted, r, cpu.allocator.SizeFor(|dict[key]|));
        if r.Some? {
          cpu.allocator.Write(r.value, dict[key]);
        }
      } else {
        NothingGone(cpu.order, cpu.hot);
      }
    }

    lemma InFlightIsLive(key: CacheEngineKey)
      requires cpu.Valid() && Valid() && key in putTasks
      ensures putTasks[key] in cpu.ext && putTasks[key] in cpu.allocator.live && cpu.allocator.Valid()
    {
      ValuesOfHas(putTasks, key);
      cpu.HandleIsLive(putTasks[key]);
    }
  }

  /** What the backends hold: the hot cache and the writes in flight refer to memory, files have bytes. */
  datatype Contents = Contents(hot: Hot, files: map<CacheEngineKey, Bytes>, tasks: Hot, buffer: Bytes) {
    /** Key k has contents b somewhere. */
    ghost predicate Has(k: CacheEngineKey, b: Bytes) {
      || (k in hot && Window(buffer, hot[k]) == b)
      || (k in files && files[k] == b)
      || (k in tasks && Window(buffer, tasks[k]) == b)
    }

    /** What the writes in flight are writing. */
    ghost function Flying(): map<CacheEngineKey, Bytes> {
      map k | k in tasks :: Window(buffer, tasks[k])
    }

    /** The keys that some backend has or is writing. */
    ghost function Keys(): set<CacheEngineKey> { hot.Keys + files.Keys + tasks.Keys }

    /** Everything here was there before. */
    ghost predicate Within(was: Contents) {
      forall k, b :: Has(k, b) ==> was.Has(k, b)
    }

    /** Everything here was there before or is the given contents of the given key. */
    ghost predicate WithinOr(was: Contents, key: CacheEngineKey, bytes: Bytes) {
      forall k, b :: Has(k, b) ==> was.Has(k, b) || (k == key && b == bytes)
    }
  }

  /** What was put and got, in order, and what is on disk or on its way there. */
  datatype Books = Books(uses: seq<CacheEngineKey>, files: map<CacheEngineKey, Bytes>,
      flying: map<CacheEngineKey, Bytes>)
  {
    /** A put; where there is a disk and it takes the object, some files may go and a write starts. */
    ghost function Put(key: CacheEngineKey, bytes: Bytes, toDisk: bool, evictKeys: set<CacheEngineKey>): Books {
      if toDisk then Books(uses + [key], files - evictKeys, flying[key := bytes]) else this.(uses := uses + [key])
    }

    ghost function Got(key: CacheEngineKey): Books { this.(uses := uses + [key]) }

    /** A write ends. */
    ghost function Finish(key: CacheEngineKey): Books
      requires key in flying
    {
      this.(files := files[key := flying[key]], flying := flying - {key})
    }
  }

  lemma KeysIn(s: Contents, key: CacheEngineKey)
    ensures key in s.Keys() <==> key in s.hot || key in s.files || key in s.tasks
  {
  }

  lemma KeysGrow(s: Contents, s': Contents, more: set<CacheEngineKey>)
    requires s'.hot.Keys <= s.hot.Keys + more && s'.files.Keys <= s.files.Keys && s'.tasks.Keys <= s.tasks.Keys + more
    ensures s'.Keys() <= s.Keys() + more
  {
  }

  /** A write that starts adds what it is writing; one that ends takes it off. */
  lemma StartFlying(s: Contents, key: CacheEngineKey, o: TensorMemoryObj, s': Contents)
    requires s'.buffer == s.buffer
    ensures s'.tasks == s.tasks[key := o] ==> s'.Flying() == s.Flying()[key := Window(s.buffer, o)]
    ensures s'.tasks == s.tasks ==> s'.Flying() == s.Flying()
    ensures s'.tasks == s.tasks - {key} ==> s'.Flying() == s.Flying() - {key}
  {
    hide Window;
  }

  lemma SameFlying(s: Contents, s': Contents)
    requires s'.tasks == s.tasks && forall k :: k in s.tasks ==>
               Window(s'.buffer, s.tasks[k]) == Window(s.buffer, s.tasks[k])
    ensures s'.Flying() == s.Flying()
  {
    hide Window;
  }

  /** With the memory unchanged, dropping keys adds nothing. */
  lemma Fewer(s: Contents, s': Contents)
    requires s'.buffer == s.buffer
    requires forall k :: k in s'.hot ==> k in s.hot && s'.hot[k] == s.hot[k]
    requires forall k :: k in s'.files ==> k in s.files && s'.files[k] == s.files[k]
    requires forall k :: k in s'.tasks ==> k in s.tasks && s'.tasks[k] == s.tasks[k]
    ensures s'.Within(s)
  {
  }

  lemma SubmitHas(s: Contents, key: CacheEngineKey, o: TensorMemoryObj, s': Contents)
    requires s'.buffer == s.buffer && (s'.hot == s.hot || s'.hot == s.hot[key := o])
    requires s'.files == s.files || exists gone :: s'.files == s.files - gone
    requires s'.tasks == s.tasks || s'.tasks == s.tasks[key := o]
    ensures s'.WithinOr(s, key, Window(s.buffer, o))
  {
  }

  /** Reading a key back from disk, while the memory of whatever is kept stays the same, adds nothing. */
  lemma Reread(s: Contents, s': Contents, key: CacheEngineKey)
    requires s'.files == s.files && s'.tasks == s.tasks
    requires forall k :: k in s'.hot ==>
               || (k in s.hot && Window(s'.buffer, s'.hot[k]) == Window(s.buffer, s.hot[k]))
               || (k == key && k in s.files && Window(s'.buffer, s'.hot[k]) == s.files[k])
    requires forall k :: k in s.tasks ==> Window(s'.buffer, s.tasks[k]) == Window(s.buffer, s.tasks[k])
    ensures s'.Within(s)
  {
    hide Window;
  }

  class StorageManager {
    const cpu: LocalCPUBackend
    const disk: LocalDiskBackend?
    /** The references held by callers, and the keys put and got so far, one after the other. */
    ghost var handles: Refs
    ghost var uses: seq<CacheEngineKey>

    constructor (cpu: LocalCPUBackend, disk: LocalDiskBackend?)
      requires cpu.Valid() && cpu.ext == multiset{}
      requires disk != null ==> disk.cpu == cpu && disk.dict == map[] && disk.putTasks == map[]
      ensures Valid() && handles == multiset{} && this.cpu == cpu && this.disk == disk && uses == cpu.order
    {
      this.cpu, this.disk := cpu, disk;
      handles, uses := multiset{}, cpu.order;
      OwnUses(cpu.order);
    }

    ghost function Files(): map<CacheEngineKey, Bytes>
      reads disk
    {
      if disk == null then map[] else disk.dict
    }

    ghost function Tasks(): Hot
      reads disk
    {
      if disk == null then map[] else disk.putTasks
    }

    /** References outside the hot cache belong to callers and to writes in flight, and to nobody else; what is
        cached is in the order in which it was last put or got. */
    ghost predicate Valid()
      reads this, disk, cpu, cpu.allocator, cpu.allocator.blocks, cpu.allocator.live
    {
      && cpu.Valid()
      && (disk != null ==> disk.cpu == cpu && disk.Valid())
      && cpu.ext == handles + ValuesOf(Tasks()) && ByUse(cpu.order, uses)
    }

    ghost function Now(): Contents
      reads disk, cpu, cpu.allocator.buffer
    {
      Contents(cpu.hot, Files(), Tasks(), cpu.allocator.buffer[..])
    }

    ghost function BooksNow(): Books
      reads this`uses, disk, cpu, cpu.allocator.buffer
    {
      Books(uses, Files(), Now().Flying())
    }

    ghost predicate Has(k: CacheEngineKey, b: Bytes)
      reads disk, cpu, cpu.allocator.buffer
    {
      Now().Has(k, b)
    }

    ghost function Frame(): set<object>
      reads this, cpu, cpu.allocator
    {
      {this, cpu, cpu.allocator} + cpu.allocator.blocks + cpu.allocator.live + (if disk == null then {} else {disk})
    }

    lemma CacheIsOff()
      requires Valid()
      ensures !cpu.useHot ==> cpu.hot == map[]
    {
    }

    lemma FrameIs()
      ensures Frame() == {this, cpu, cpu.allocator} + cpu.allocator.blocks + cpu.allocator.live
                         + (if disk == null then {} else {disk})
    {
    }

    ghost function Memory(): set<object>
      reads cpu, cpu.allocator
    {
      {cpu, cpu.allocator, cpu.allocator.buffer} + cpu.allocator.blocks + cpu.allocator.live
    }

    /** The manager, the disk, the cache, its allocator and the buffer are different things. */
    lemma Separate()
      ensures cpu.allocator.live !! cpu.allocator.blocks && cpu.allocator.buffer !in Frame() && this !in Memory()
      ensures (cpu as object) != cpu.allocator && (cpu as object) != cpu.allocator.buffer && (cpu as object) != this
      ensures (cpu.allocator as object) != cpu.allocator.buffer && (cpu.allocator as object) != this
      ensures disk != null ==> disk !in Memory() && (disk as object) != this
    {
    }

    /** Neither the manager nor the disk is part of what memory operations change. */
    lemma Apart()
      ensures this !in Memory() && (disk != null ==> disk !in Memory())
    {
    }

    lemma HandleIsHeld(o: TensorMemoryObj)
      requires Valid() && o in handles
      ensures cpu.Valid() && cpu.allocator.Valid() && o in cpu.ext && o in cpu.allocator.live
      ensures o.valid && 0 < o.refCount == cpu.refs[o]
    {
      cpu.HandleIsLive(o);
    }

    /** One reference outside the cache goes; what the backends hold stays. */
    method DropReference(o: TensorMemoryObj)
      requires cpu.Valid() && o in cpu.ext
      modifies Frame()
      ensures cpu.Valid() && cpu.ext == old(cpu.ext) - multiset{o} && handles == old(handles)
      ensures Now() == old(Now())
      ensures cpu.allocator.live <= old(cpu.allocator.live) && fresh(cpu.allocator.blocks - old(cpu.allocator.blocks))
      ensures old(cpu.leaked) <= cpu.leaked
      ensures cpu.order == old(cpu.order) && uses == old(uses)
      ensures old(cpu.Unpinned()) ==> cpu.Unpinned()
    {
      hide LocalCPUBackend.Valid, TensorMemoryAllocator.Valid, ValuesOf, ByUse, LocalCPUBackend.Unpinned;
      StillHeld(o);
      Separate();
      cpu.Release(o);
    }

    /** Ends a caller's use of an object. */
    method Release(o: TensorMemoryObj)
      requires Valid() && o in handles
      modifies Frame()
      ensures Valid() && handles == old(handles) - multiset{o} && Now() == old(Now())
      ensures cpu.allocator.live <= old(cpu.allocator.live) && fresh(cpu.allocator.blocks - old(cpu.allocator.blocks))
      ensures old(cpu.leaked) <= cpu.leaked
      ensures uses == old(uses)
      ensures old(cpu.Unpinned()) ==> cpu.Unpinned()
    {
      hide LocalCPUBackend.Valid, TensorMemoryAllocator.Valid, ValuesOf, ByUse, LocalCPUBackend.Unpinned;
      Separate();
      HandleIsHeld(o);
      DropReference(o);
      handles := handles - multiset{o};
    }

    /** Whether some backend has a key. */
    predicate Contains(key: CacheEngineKey): (found: bool)
      reads cpu, disk
      ensures found <==> key in cpu.hot || key in Files()
    {
      key in cpu.hot || (disk != null && key in disk.dict)
    }

    lemma ContainedHas(key: CacheEngineKey)
      requires Contains(key)
      ensures exists b :: Has(key, b)
    {
      var b := if key in cpu.hot then cpu.allocator.Read(cpu.hot[key]) else disk.dict[key];
      assert Has(key, b);
    }

    method SubmitToCpu(key: CacheEngineKey, o: TensorMemoryObj)
      requires Valid() && o in handles
      modifies Frame()
      ensures Valid() && handles == old(handles) && Files() == old(Files()) && Tasks() == old(Tasks())
      ensures cpu.hot == if cpu.useHot then old(cpu.hot)[key := o] else old(cpu.hot)
      ensures Now().buffer == old(Now().buffer)
      ensures cpu.allocator.live <= old(cpu.allocator.live) && fresh(cpu.allocator.blocks - old(cpu.allocator.blocks))
      ensures old(cpu.leaked) <= cpu.leaked
      ensures uses == old(uses) + [key]
      ensures old(cpu.Unpinned()) ==> cpu.Unpinned()
    {
      hide LocalCPUBackend.Valid, TensorMemoryAllocator.Valid, ValuesOf, ByUse, LocalCPUBackend.Unpinned;
      HandleIsHeld(o);
      Separate();
      PutGoesLast(key);
      cpu.SubmitPutTask(key, o);
      uses := uses + [key];
    }

    /** A key that is put becomes the one used last. */
    lemma PutGoesLast(key: CacheEngineKey)
      requires cpu.Valid() && ByUse(cpu.order, uses)
      ensures ByUse(Without(cpu.order, key) + [key], uses + [key])
      ensures !cpu.useHot ==> ByUse(cpu.order, uses + [key])
    {
      hide LastUse, TensorMemoryAllocator.Valid, ValuesOf;
      ByUseWithout(cpu.order, uses, key);
      UsedGoesLast(Without(cpu.order, key), uses, key);
      assert cpu.order == [] || cpu.order[0] in cpu.order;
    }

    method SubmitToDisk(key: CacheEngineKey, o: TensorMemoryObj, legal: bool, evictKeys: set<CacheEngineKey>)
      requires Valid() && o in handles && key !in Tasks() && disk != null
      modifies Frame()
      ensures Valid() && handles == old(handles) && cpu.hot == old(cpu.hot)
      ensures Files() == if legal then old(Files()) - evictKeys else old(Files())
      ensures Tasks() == if legal then old(Tasks())[key := o] else old(Tasks())
      ensures Now().buffer == old(Now().buffer)
      ensures cpu.allocator.live == old(cpu.allocator.live) && cpu.allocator.blocks == old(cpu.allocator.blocks)
      ensures old(cpu.leaked) <= cpu.leaked
      ensures uses == old(uses)
      ensures old(cpu.Unpinned()) ==> cpu.Unpinned()
    {
      hide LocalCPUBackend.Valid, TensorMemoryAllocator.Valid, ValuesOf, ByUse, LocalCPUBackend.Unpinned;
      HandleIsHeld(o);
      ValuesOfInsert(disk.putTasks, key, o);
      disk.SubmitPutTask(key, o, legal, evictKeys);
    }

    /** Hands an object to every backend; the caller's reference stays. */
    method SubmitEverywhere(key: CacheEngineKey, o: TensorMemoryObj, legal: bool, evictKeys: set<CacheEngineKey>)
      requires Valid() && o in handles && key !in Tasks()
      modifies Frame()
      ensures Valid() && handles == old(handles)
      ensures cpu.hot == if cpu.useHot then old(cpu.hot)[key := o] else old(cpu.hot)
      ensures Files() == if disk != null && legal then old(Files()) - evictKeys else old(Files())
      ensures Tasks() == if disk != null && legal then old(Tasks())[key := o] else old(Tasks())
      ensures Now().WithinOr(old(Now()), key, old(cpu.allocator.Read(o)))
      ensures cpu.allocator.live <= old(cpu.allocator.live) && fresh(cpu.allocator.blocks - old(cpu.allocator.blocks))
      ensures old(cpu.leaked) <= cpu.leaked
      ensures uses == old(uses) + [key]
      ensures Now().Flying() == if disk != null && legal then old(Now().Flying())[key := old(cpu.allocator.Read(o))]
          else old(Now().Flying())
      ensures old(cpu.Unpinned()) ==> cpu.Unpinned()
    {
      hide Valid, ValuesOf, Contents.Has, Contents.WithinOr, Contents.Flying, Window, LocalCPUBackend.Unpinned;
      Separate();
      ghost var s := Now();
      SubmitToCpu(key, o);
      if disk != null {
        SubmitToDisk(key, o, legal, evictKeys);
      }
      SubmitHas(s, key, o, Now());
      StartFlying(s, key, o, Now());
    }

    lemma StillHeld(o: TensorMemoryObj)
      requires cpu.Valid() && o in cpu.ext
      ensures o in cpu.allocator.live
    {
      cpu.HandleIsLive(o);
    }

    /** Stores an object under a key.  If some backend is still writing the key, nothing is stored.  In
        either case the caller's reference is used up. */
    method Put(key: CacheEngineKey, o: TensorMemoryObj, legal: bool, evictKeys: set<CacheEngineKey>)
      requires Valid() && o in handles
      modifies Frame()
      ensures Valid() && handles == old(handles) - multiset{o}
      ensures key in old(Tasks()) ==> cpu.hot == old(cpu.hot) && Files() == old(Files()) && Tasks() == old(Tasks())
      ensures key !in old(Tasks()) ==> cpu.hot == if cpu.useHot then old(cpu.hot)[key := o] else old(cpu.hot)
      ensures key !in old(Tasks()) ==>
                Files() == if disk != null && legal then old(Files()) - evictKeys else old(Files())
      ensures key !in old(Tasks()) ==>
                Tasks() == if disk != null && legal then old(Tasks())[key := o] else old(Tasks())
      ensures Now().WithinOr(old(Now()), key, old(cpu.allocator.Read(o)))
      ensures cpu.allocator.live <= old(cpu.allocator.live) && fresh(cpu.allocator.blocks - old(cpu.allocator.blocks))
      ensures old(cpu.leaked) <= cpu.leaked
      ensures uses == if key in old(Tasks()) then old(uses) else old(uses) + [key]
      ensures Now().Flying() == if disk != null && legal && key !in old(Tasks())
          then old(Now().Flying())[key := old(cpu.allocator.Read(o))] else old(Now().Flying())
      ensures old(cpu.Unpinned()) ==> cpu.Unpinned()
    {
      hide Valid, ValuesOf, Contents.Has, Contents.WithinOr, Contents.Flying, Window, LocalCPUBackend.Unpinned;
      if disk == null || key !in disk.putTasks {
        SubmitEverywhere(key, o, legal, evictKeys);
      } else {
        SubmitHas(Now(), key, o, Now());
      }
      Release(o);
    }

    /** A write to disk completes. */
    method FinishPut(key: CacheEngineKey)
      requires Valid() && disk != null && key in disk.putTasks
      modifies Frame()
      ensures Valid() && handles == old(handles) && cpu.hot == old(cpu.hot)
      ensures Tasks() == old(Tasks()) - {key}
      ensures Files() == old(Files())[key := cpu.allocator.Read(old(disk.putTasks)[key])]
      ensures Now().Within(old(Now()))
      ensures cpu.allocator.live <= old(cpu.allocator.live) && fresh(cpu.allocator.blocks - old(cpu.allocator.blocks))
      ensures old(cpu.leaked) <= cpu.leaked
      ensures uses == old(uses)
      ensures Now().Flying() == old(Now().Flying()) - {key}
      ensures old(cpu.Unpinned()) ==> cpu.Unpinned()
    {
      hide LocalCPUBackend.Valid, TensorMemoryAllocator.Valid, ValuesOf, ByUse, LocalCPUBackend.Unpinned;
      hide Contents.Flying;
      Separate();
      ghost var s := Now();
      ValuesOfRemove(disk.putTasks, key);
      disk.FinishPut(key);
      StartFlying(s, key, s.tasks[key], Now());
    }

    lemma ReachableIsLive()
      requires Valid()
      ensures cpu.allocator.Valid()
      ensures forall k :: k in cpu.hot ==> cpu.hot[k] in cpu.allocator.live
      ensures forall k :: k in Tasks() ==> Tasks()[k] in cpu.allocator.live
      ensures forall o :: o in handles ==> o in cpu.allocator.live
    {
      hide LocalCPUBackend.Valid, TensorMemoryAllocator.Valid, ValuesOf, ByUse, LocalCPUBackend.Unpinned;
      forall k | k in cpu.hot ensures cpu.hot[k] in cpu.allocator.live { cpu.HeldIsLive(k); }
      forall k | k in Tasks() ensures Tasks()[k] in cpu.allocator.live { disk.InFlightIsLive(k); }
      forall o | o in handles ensures o in cpu.allocator.live { cpu.HandleIsLive(o); }
      cpu.AllocatorIsValid();
    }

    /** How many references there are to an object: callers', the hot cache's, and writes in flight. */
    ghost function References(o: TensorMemoryObj): nat
      reads this, cpu, disk
    {
      handles[o] + ValuesOf(cpu.hot)[o] + ValuesOf(Tasks())[o]
    }

    /** Whatever is still referred to is live and counts exactly its references; whatever is live is
        referred to, unless its last reference went while it was pinned. */
    lemma ReferencesAreExact(o: TensorMemoryObj)
      requires Valid()
      ensures References(o) > 0 ==> o in cpu.allocator.live && o.valid && o.refCount == References(o)
      ensures o in cpu.allocator.live && !o.isPin ==> References(o) > 0
      ensures (exists k :: k in cpu.hot && cpu.hot[k] == o) || (exists k :: k in Tasks() && Tasks()[k] == o) ==>
          References(o) > 0
    {
      hide TensorMemoryAllocator.Valid, ValuesOf, OrderOk;
      forall k | k in cpu.hot && cpu.hot[k] == o ensures References(o) > 0 { ValuesOfHas(cpu.hot, k); }
      forall k | k in Tasks() && Tasks()[k] == o ensures References(o) > 0 { ValuesOfHas(Tasks(), k); }
      assert cpu.refs[o] == References(o);
      if o in cpu.allocator.live { cpu.allocator.LiveIsKnown(o); }
    }

    /** The disk does not have the key, or what it has fits nowhere in memory. */
    ghost predicate NoRoomFor(key: CacheEngineKey)
      reads disk, cpu, cpu.allocator
    {
      key in Files() ==>
        NoRun(cpu.allocator.live, cpu.allocator.buffer.Length, cpu.allocator.SizeFor(|Files()[key]|))
    }

    /** Reads a key back from disk into new memory, and caches it. */
    method ReadBack(key: CacheEngineKey) returns (r: Option<TensorMemoryObj>)
      requires Valid() && disk != null && key !in cpu.hot
      modifies Frame(), cpu.allocator.buffer
      ensures Valid() && Files() == old(Files()) && Tasks() == old(Tasks())
      ensures r.None? ==> handles == old(handles)
      ensures r.Some? ==> handles == old(handles) + multiset{r.value} && key in disk.dict
      ensures r.Some? ==> r.value !in old(cpu.allocator.live) && cpu.allocator.Read(r.value) == disk.dict[key]
      ensures r.Some? && cpu.useHot ==> key in cpu.hot
      ensures r.None? ==> NoRoomFor(key) && forall k :: k in cpu.hot ==> k in old(cpu.hot)
      ensures forall k :: k in cpu.hot ==> if k == key then r == Some(cpu.hot[k])
          else k in old(cpu.hot) && cpu.hot[k] == old(cpu.hot)[k]
      ensures forall p :: p in cpu.allocator.live && p in old(cpu.allocator.live) ==>
                cpu.allocator.Read(p) == old(cpu.allocator.Read(p))
      ensures fresh(cpu.allocator.live - old(cpu.allocator.live)) &&
          fresh(cpu.allocator.blocks - old(cpu.allocator.blocks))
      ensures old(cpu.leaked) <= cpu.leaked
      ensures uses == if r.Some? then old(uses) + [key] else old(uses)
      ensures old(cpu.Unpinned()) ==> cpu.Unpinned()
      ensures LeastRecent(old(cpu.hot), old(cpu.refs), cpu.hot, old(uses))
    {
      hide LocalCPUBackend.Valid, TensorMemoryAllocator.Valid, ValuesOf, KeySet, ByUse, WithoutAll;
      Separate();
      cpu.KeysInOrder();
      ghost var evicted, order, hot0, refs0 := [], cpu.order, cpu.hot, cpu.refs;
      r, evicted := disk.GetBlocking(key);
      ByUseWithoutAll(order, uses, evicted);
      LeastRecentGo(order, hot0, refs0, uses, evicted);
      if r.Some? {
        StillLeastRecent(hot0, refs0, cpu.hot, uses, key, cpu.hot[key := r.value]);
        Keep(key, r.value);
      }
    }

    /** A key that only the disk has is read back; nothing that was not there is anywhere afterwards. */
    method GetFromDisk(key: CacheEngineKey) returns (r: Option<TensorMemoryObj>)
      requires Valid() && disk != null && key !in cpu.hot
      modifies Frame(), cpu.allocator.buffer
      ensures Valid() && Files() == old(Files()) && Tasks() == old(Tasks())
      ensures r.None? ==> handles == old(handles)
      ensures r.Some? ==> handles == old(handles) + multiset{r.value} && key in disk.dict
      ensures r.Some? ==> r.value !in old(cpu.allocator.live) && cpu.allocator.Read(r.value) == disk.dict[key]
      ensures r.Some? && cpu.useHot ==> key in cpu.hot
      ensures r.None? ==> NoRoomFor(key) && forall k :: k in cpu.hot ==> k in old(cpu.hot)
      ensures Now().Within(old(Now()))
      ensures forall k :: k in cpu.hot ==> if k == key then r == Some(cpu.hot[k])
          else k in old(cpu.hot) && cpu.hot[k] == old(cpu.hot)[k]
      ensures forall p :: p in cpu.allocator.live && p in old(cpu.allocator.live) ==>
                cpu.allocator.Read(p) == old(cpu.allocator.Read(p))
      ensures fresh(cpu.allocator.live - old(cpu.allocator.live)) &&
          fresh(cpu.allocator.blocks - old(cpu.allocator.blocks))
      ensures old(cpu.leaked) <= cpu.leaked
      ensures uses == if r.Some? then old(uses) + [key] else old(uses)
      ensures Now().Flying() == old(Now().Flying())
      ensures old(cpu.Unpinned()) ==> cpu.Unpinned()
      ensures LeastRecent(old(cpu.hot), old(cpu.refs), cpu.hot, old(uses))
    {
      hide Valid, ValuesOf, Window, Contents.Within, NoRoomFor, Contents.Flying, LocalCPUBackend.Unpinned, LeastRecent;
      ghost var s := Now();
      ReachableIsLive();
      r := ReadBack(key);
      ReachableIsLive();
      Reread(s, Now(), key);
      SameFlying(s, Now());
    }

    /** Caches an object that was just read back, and hands it to the caller. */
    method Keep(key: CacheEngineKey, o: TensorMemoryObj)
      requires cpu.Valid() && (disk != null ==> disk.cpu == cpu && disk.Valid())
      requires cpu.ext == handles + ValuesOf(Tasks()) + multiset{o} && ByUse(cpu.order, uses) && key !in cpu.hot
      modifies this`handles, this`uses, cpu`order, cpu`hot, cpu`refs, o`refCount
      ensures Valid() && handles == old(handles) + multiset{o} && uses == old(uses) + [key]
      ensures cpu.hot == if cpu.useHot then old(cpu.hot)[key := o] else old(cpu.hot)
      ensures old(cpu.Unpinned()) ==> cpu.Unpinned()
    {
      hide LocalCPUBackend.Valid, TensorMemoryAllocator.Valid, ValuesOf, ByUse, LocalCPUBackend.Unpinned;
      StillHeld(o);
      PutGoesLast(key);
      cpu.NotInOrder(key);
      cpu.WriteBack(key, o);
      handles := handles + multiset{o};
      uses := uses + [key];
    }

    /** Looks a key up in the hot cache, then on disk; the caller gets a reference. */
    method Get(key: CacheEngineKey) returns (r: Option<TensorMemoryObj>)
      requires Valid()
      modifies Frame(), cpu.allocator.buffer
      ensures Valid() && Files() == old(Files()) && Tasks() == old(Tasks())
      ensures r.None? ==> handles == old(handles)
      ensures r.Some? ==> handles == old(handles) + multiset{r.value}
      ensures r.Some? ==> old(Now()).Has(key, cpu.allocator.Read(r.value))
      ensures key in old(cpu.hot) ==> r == Some(old(cpu.hot)[key])
      ensures key in old(cpu.hot) || disk == null ==> cpu.hot == old(cpu.hot)
      ensures r.Some? && cpu.useHot && disk != null ==> key in cpu.hot
      ensures r.None? ==> key !in cpu.hot && NoRoomFor(key)
      ensures disk == null && key !in old(cpu.hot) ==> r.None?
      ensures Now().Within(old(Now()))
      ensures forall p :: p in cpu.allocator.live && p in old(cpu.allocator.live) ==>
                cpu.allocator.Read(p) == old(cpu.allocator.Read(p))
      ensures fresh(cpu.allocator.live - old(cpu.allocator.live)) &&
          fresh(cpu.allocator.blocks - old(cpu.allocator.blocks))
      ensures old(cpu.leaked) <= cpu.leaked
      ensures uses == if r.Some? then old(uses) + [key] else old(uses)
      ensures Now().Flying() == old(Now().Flying())
      ensures old(cpu.Unpinned()) ==> cpu.Unpinned()
      ensures LeastRecent(old(cpu.hot), old(cpu.refs), cpu.hot, old(uses))
    {
      hide Valid, LocalCPUBackend.Valid, TensorMemoryAllocator.Valid, ValuesOf, Window, Contents.Within, NoRun;
      hide LocalCPUBackend.Unpinned, LeastRecent, Contents.Flying;
      Separate();
      Fewer(Now(), Now());
      NoneGone(cpu.hot, cpu.refs, cpu.hot, uses);
      r := GetFromCpu(key);
      if r.None? && disk != null {
        r := GetFromDisk(key);
      }
    }

    method GetFromCpu(key: CacheEngineKey) returns (r: Option<TensorMemoryObj>)
      requires Valid()
      modifies this`handles, this`uses, cpu`order, cpu`refs, cpu`ext, cpu.allocator.live`refCount
      ensures Valid() && (r.Some? <==> key in cpu.hot)
      ensures r.None? ==> handles == old(handles) && cpu.refs == old(cpu.refs)
      ensures r.Some? ==> r.value == cpu.hot[key] && handles == old(handles) + multiset{r.value}
      ensures uses == if r.Some? then old(uses) + [key] else old(uses)
      ensures old(cpu.Unpinned()) ==> cpu.Unpinned()
    {
      hide LocalCPUBackend.Valid, TensorMemoryAllocator.Valid, ValuesOf, ByUse, LocalCPUBackend.Unpinned;
      PutGoesLast(key);
      r := cpu.GetBlocking(key);
      if r.Some? {
        handles := handles + multiset{r.value};
        uses := uses + [key];
      }
    }

    /** An object with a single reference, a caller's, is in no cache and in no write in flight. */
    lemma ExclusiveIsNotStored(o: TensorMemoryObj)
      requires Valid() && o in handles && cpu.refs[o] == 1
      ensures forall k :: k in cpu.hot ==> cpu.hot[k] != o
      ensures forall k :: k in Tasks() ==> Tasks()[k] != o
    {
      hide ValuesOf;
      forall k | k in cpu.hot ensures cpu.hot[k] != o { ValuesOfHas(cpu.hot, k); }
      forall k | k in Tasks() ensures Tasks()[k] != o { ValuesOfHas(Tasks(), k); }
    }

    /** Memory was taken from the lowest free run, and nothing else changed. */
    ghost predicate TakenDirectly(before: set<TensorMemoryObj>, r: Option<TensorMemoryObj>, size: int)
      reads cpu.allocator
    {
      && r.Some? && r.value.phySize == size && cpu.allocator.live == before + {r.value}
      && LowestFree(before, cpu.allocator.buffer.Length, r.value.address, size)
    }

    /** Allocates from the hot cache's memory; what leaves the cache is not yet accounted for. */
    method AllocateFromCpu(rawSize: nat) returns (r: Option<TensorMemoryObj>, ghost evicted: seq<CacheEngineKey>)
      requires cpu.Valid() && 0 < rawSize && ByUse(cpu.order, uses)
      modifies cpu`order, cpu`hot, cpu`refs, cpu`ext, cpu`leaked
      modifies cpu.allocator.live`refCount, cpu.allocator.live`valid
      modifies cpu.allocator`explicitList, cpu.allocator`free, cpu.allocator`blocks, cpu.allocator`numActive
      modifies cpu.allocator`totalAllocated, cpu.allocator`live, cpu.allocator.blocks
      ensures cpu.Valid() && cpu.hot == old(cpu.hot) - KeySet(evicted)
      ensures cpu.Allocated(old(cpu.StartNow()), Cands(old(cpu.order), old(cpu.hot), old(cpu.refs)), old(cpu.hot),
                            true, evicted, r, cpu.allocator.SizeFor(rawSize))
      ensures !NoRun(old(cpu.allocator.live), cpu.allocator.buffer.Length, cpu.allocator.SizeFor(rawSize)) ==>
                evicted == [] && TakenDirectly(old(cpu.allocator.live), r, cpu.allocator.SizeFor(rawSize))
      ensures forall k :: k in cpu.hot ==> k in old(cpu.hot) && cpu.hot[k] == old(cpu.hot)[k]
      ensures r.None? ==> NoRun(cpu.allocator.live, cpu.allocator.buffer.Length, cpu.allocator.SizeFor(rawSize))
      ensures r.None? ==> cpu.ext == old(cpu.ext) && cpu.allocator.live <= old(cpu.allocator.live)
      ensures r.Some? ==> fresh(r.value) && r.value.rawLen == rawSize && r.value.TensorFits()
      ensures r.Some? ==> cpu.ext == old(cpu.ext) + multiset{r.value}
      ensures r.Some? ==> r.value !in old(cpu.allocator.live)
      ensures r.Some? ==> cpu.allocator.live <= old(cpu.allocator.live) + {r.value}
      ensures cpu.allocator.blocks >= old(cpu.allocator.blocks)
      ensures fresh(cpu.allocator.blocks - old(cpu.allocator.blocks))
      ensures old(cpu.leaked) <= cpu.leaked
      ensures ByUse(cpu.order, uses)
      ensures LeastRecent(old(cpu.hot), old(cpu.refs), cpu.hot, uses)
      ensures r.Some? ==> !r.value.isPin
      ensures old(cpu.Unpinned()) ==> cpu.Unpinned()
    {
      hide LocalCPUBackend.Valid, TensorMemoryAllocator.Valid, LocalCPUBackend.Allocated, Cands, KeySet, NoRun,
        LowestFree, ByUse, OrderOk, LeastRecent, WithoutAll, LocalCPUBackend.Unpinned;
      cpu.KeysInOrder();
      ghost var st, cands, hot0, order := cpu.StartNow(), Cands(cpu.order, cpu.hot, cpu.refs), cpu.hot, cpu.order;
      r, evicted := cpu.Allocate(rawSize, true);
      ByUseWithoutAll(order, uses, evicted);
      cpu.OutcomeBasics(st, cands, hot0, true, evicted, r, cpu.allocator.SizeFor(rawSize));
      LeastRecentGo(order, hot0, st.refs, uses, evicted);
      if !NoRun(st.live, cpu.allocator.buffer.Length, cpu.allocator.SizeFor(rawSize)) {
        RoomIsTaken(cpu, st, cands, hot0, evicted, r, cpu.allocator.SizeFor(rawSize));
      }
    }

    /** Allocates memory for a caller, evicting from the hot cache as little as will do. */
    method Allocate(rawSize: nat) returns (r: Option<TensorMemoryObj>, ghost evicted: seq<CacheEngineKey>)
      requires Valid() && 0 < rawSize
      modifies Frame()
      ensures Valid() && Files() == old(Files()) && Tasks() == old(Tasks())
      ensures r.None? ==> handles == old(handles)
      ensures cpu.hot == old(cpu.hot) - KeySet(evicted)
      ensures cpu.Allocated(old(cpu.StartNow()), Cands(old(cpu.order), old(cpu.hot), old(cpu.refs)), old(cpu.hot),
                            true, evicted, r, cpu.allocator.SizeFor(rawSize))
      ensures !NoRun(old(cpu.allocator.live), cpu.allocator.buffer.Length, cpu.allocator.SizeFor(rawSize)) ==>
                evicted == [] && TakenDirectly(old(cpu.allocator.live), r, cpu.allocator.SizeFor(rawSize))
      ensures r.None? ==> NoRun(cpu.allocator.live, cpu.allocator.buffer.Length, cpu.allocator.SizeFor(rawSize))
      ensures r.Some? ==> handles == old(handles) + multiset{r.value} && fresh(r.value) && r.value.rawLen == rawSize
      ensures r.Some? ==> cpu.refs[r.value] == 1 && r.value.TensorFits()
      ensures forall k :: k in cpu.hot ==> k in old(cpu.hot) && cpu.hot[k] == old(cpu.hot)[k]
      ensures Now().Within(old(Now()))
      ensures fresh(cpu.allocator.live - old(cpu.allocator.live)) &&
          fresh(cpu.allocator.blocks - old(cpu.allocator.blocks))
      ensures old(cpu.leaked) <= cpu.leaked
      ensures uses == old(uses) && Now().Flying() == old(Now().Flying())
      ensures LeastRecent(old(cpu.hot), old(cpu.refs), cpu.hot, uses)
      ensures old(cpu.Unpinned()) ==> cpu.Unpinned()
    {
      hide LocalCPUBackend.Valid, TensorMemoryAllocator.Valid, ValuesOf, Contents.Has, Contents.Within;
      hide LocalCPUBackend.Allocated, Cands, KeySet, NoRun, LowestFree, ByUse, LeastRecent, Contents.Flying, Window;
      hide LocalCPUBackend.Unpinned, TakenDirectly;
      ReachableIsLive();
      ghost var live0, s := cpu.allocator.live, Now();
      Separate();
      r, evicted := AllocateFromCpu(rawSize);
      Fewer(s, Now());
      SameFlying(s, Now());
      if r.Some? {
        NewIsExclusive(live0, r.value);
        handles := handles + multiset{r.value};
      }
    }

    lemma NewIsExclusive(live0: set<TensorMemoryObj>, o: TensorMemoryObj)
      requires cpu.Valid() && o !in live0 && forall k :: k in cpu.hot ==> cpu.hot[k] in live0
      requires cpu.ext == handles + ValuesOf(Tasks()) + multiset{o}
      requires (forall p :: p in handles ==> p in live0) && (forall k :: k in Tasks() ==> Tasks()[k] in live0)
      ensures cpu.refs[o] == 1
    {
      ValuesInSet(cpu.hot, live0, o);
      ValuesInSet(Tasks(), live0, o);
    }

    /** Reads the bytes of an object a caller holds. */
    method Copy(o: TensorMemoryObj) returns (bytes: Bytes)
      requires Valid() && o in handles
      ensures bytes == cpu.allocator.Read(o)
    {
      hide LocalCPUBackend.Valid, TensorMemoryAllocator.Valid, ValuesOf, Window, ByUse;
      HandleIsHeld(o);
      bytes := cpu.allocator.Copy(o);
    }

    /** Copies data into an object that only its caller refers to; nothing stored changes. */
    method Fill(o: TensorMemoryObj, data: Bytes)
      requires Valid() && o in handles && cpu.refs[o] == 1 && |data| == o.rawLen
      modifies cpu.allocator.buffer
      ensures Valid() && cpu.allocator.Read(o) == data
      ensures Now().Within(old(Now())) && old(Now()).Within(Now())
      ensures Now().Flying() == old(Now().Flying())
    {
      hide LocalCPUBackend.Valid, TensorMemoryAllocator.Valid, ValuesOf, Window, ByUse;
      ReachableIsLive();
      ExclusiveIsNotStored(o);
      cpu.allocator.Write(o, data);
    }

    /** Removes a key from every backend.  With a disk the source raises after removing, because the
        disk backend returns nothing to add to the count. */
    method Remove(key: CacheEngineKey) returns (r: Option<nat>)
      requires Valid()
      modifies Frame()
      ensures Valid() && handles == old(handles) && cpu.hot == old(cpu.hot) - {key}
      ensures Files() == old(Files()) - {key} && Tasks() == old(Tasks())
      ensures r == if disk == null then Some(if key in old(cpu.hot) then 1 else 0) else None
      ensures Now().Within(old(Now()))
      ensures cpu.allocator.live <= old(cpu.allocator.live) && fresh(cpu.allocator.blocks - old(cpu.allocator.blocks))
      ensures old(cpu.leaked) <= cpu.leaked
      ensures uses == old(uses)
      ensures old(cpu.Unpinned()) ==> cpu.Unpinned()
    {
      hide LocalCPUBackend.Valid, TensorMemoryAllocator.Valid, ValuesOf, ByUse, LocalCPUBackend.Unpinned;
      ReachableIsLive();
      Separate();
      ByUseWithout(cpu.order, uses, key);
      var removed := cpu.Remove(key);
      if disk == null {
        assert Files() - {key} == Files();
        r := Some(if removed then 1 else 0);
      } else {
        disk.dict := disk.dict - {key};
        r := None;
      }
    }

    /** Clears the hot cache; the disk backend has nothing to clear. */
    method Clear() returns (count: nat)
      requires Valid()
      modifies Frame()
      ensures Valid() && handles == old(handles) && Files() == old(Files()) && Tasks() == old(Tasks())
      ensures forall k :: k in cpu.hot ==> k in old(cpu.hot) && cpu.hot[k] == old(cpu.hot)[k]
      ensures cpu.useHot ==>
                var keys := Cands(old(cpu.order), old(cpu.hot), old(cpu.refs));
                count == |keys| && cpu.hot == old(cpu.hot) - KeySet(keys)
      ensures !cpu.useHot ==> count == 0 && cpu.hot == old(cpu.hot) && cpu.allocator.live == old(cpu.allocator.live)
      ensures Now().Within(old(Now()))
      ensures cpu.allocator.live <= old(cpu.allocator.live) && fresh(cpu.allocator.blocks - old(cpu.allocator.blocks))
      ensures old(cpu.leaked) <= cpu.leaked
      ensures uses == old(uses)
      ensures old(cpu.Unpinned()) ==> cpu.Unpinned()
    {
      hide LocalCPUBackend.Valid, TensorMemoryAllocator.Valid, ValuesOf, Cands, KeySet, FreedBy, ByUse, WithoutAll;
      ReachableIsLive();
      if cpu.useHot { ByUseWithoutAll(cpu.order, uses, Cands(cpu.order, cpu.hot, cpu.refs)); }
      count := cpu.Clear();
    }
  }
}
