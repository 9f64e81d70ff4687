/** Who refers to which memory object: the references a map of keys holds, and the balance between
    reference counts, references and live memory. */
module References {
  import opened CacheKeys
  import opened MemoryManagement

  type Refs = multiset<TensorMemoryObj>

  /** The references held by the values of a map, one per key. */
  ghost function ValuesOf(m: map<CacheEngineKey, TensorMemoryObj>): Refs {
    if m == map[] then multiset{}
    else var k :| k in m; ValuesOf(m - {k}) + multiset{m[k]}
  }

  lemma {:induction false} ValuesOfRemove(m: map<CacheEngineKey, TensorMemoryObj>, k: CacheEngineKey)
    requires k in m
    ensures ValuesOf(m) == ValuesOf(m - {k}) + multiset{m[k]}
    decreases |m|, 1
  {
    var j :| j in m && ValuesOf(m) == ValuesOf(m - {j}) + multiset{m[j]};
    if j != k {
      RemoveBoth(m, j, k);
    }
  }

  lemma {:induction false} RemoveBoth(m: map<CacheEngineKey, TensorMemoryObj>, j: CacheEngineKey, k: CacheEngineKey)
    requires j in m && k in m && j != k && ValuesOf(m) == ValuesOf(m - {j}) + multiset{m[j]}
    ensures ValuesOf(m) == ValuesOf(m - {k}) + multiset{m[k]}
    decreases |m|, 0
  {
    hide ValuesOf;
    Smaller(m, j);
    Smaller(m, k);
    ValuesOfRemove(m - {j}, k);
    ValuesOfRemove(m - {k}, j);
    assert m - {j} - {k} == m - {k} - {j};
  }

  lemma Smaller(m: map<CacheEngineKey, TensorMemoryObj>, k: CacheEngineKey)
    requires k in m
    ensures |m - {k}| < |m|
  {
    assert m.Keys == (m - {k}).Keys + {k};
  }

  lemma ValuesOfInsert(m: map<CacheEngineKey, TensorMemoryObj>, k: CacheEngineKey, o: TensorMemoryObj)
    requires k !in m
    ensures ValuesOf(m[k := o]) == ValuesOf(m) + multiset{o}
  {
    assert m[k := o] - {k} == m;
    ValuesOfRemove(m[k := o], k);
  }

  lemma {:induction false} ValuesOfHas(m: map<CacheEngineKey, TensorMemoryObj>, k: CacheEngineKey)
    requires k in m
    ensures m[k] in ValuesOf(m)
  {
    ValuesOfRemove(m, k);
  }

  lemma {:induction false} ValuesInSet(m: map<CacheEngineKey, TensorMemoryObj>, s: set<TensorMemoryObj>,
      o: TensorMemoryObj)
    requires o !in s && forall k :: k in m ==> m[k] in s
    ensures ValuesOf(m)[o] == 0
    decreases |m|
  {
    if m != map[] {
      var k :| k in m && ValuesOf(m) == ValuesOf(m - {k}) + multiset{m[k]};
      Smaller(m, k);
      ValuesInSet(m - {k}, s, o);
    }
  }

  /** The live objects are those that something refers to and the leaked ones. */
  ghost predicate Reach(refs: Refs, live: set<TensorMemoryObj>, leaked: set<TensorMemoryObj>) {
    && leaked <= live
    && (forall o :: o in refs ==> o in live && o !in leaked)
    && (forall o :: o in live && o !in leaked ==> o in refs)
  }

  /** Every live object is either reachable, with a count equal to the number of references to it, or
      leaked: dropped by its last holder while pinned, so live but never freed again. */
  ghost predicate Balanced(refs: Refs, live: set<TensorMemoryObj>, leaked: set<TensorMemoryObj>)
    reads live`refCount, live`isPin
  {
    && Reach(refs, live, leaked)
    && (forall o :: o in live ==> if o in leaked then o.isPin && o.refCount <= 0 else o.refCount == refs[o])
  }

  /** Dropping one reference: the object stays reachable, or leaves the live objects, or leaks. */
  lemma DropReach(refs: Refs, live: set<TensorMemoryObj>, leaked: set<TensorMemoryObj>, o: TensorMemoryObj)
    requires Reach(refs, live, leaked) && o in refs
    ensures o in live && o !in leaked
    ensures refs[o] > 1 ==> Reach(refs - multiset{o}, live, leaked)
    ensures refs[o] == 1 ==> Reach(refs - multiset{o}, live - {o}, leaked)
    ensures refs[o] == 1 ==> Reach(refs - multiset{o}, live, leaked + {o})
  {
    var refs' := refs - multiset{o};
    assert forall p :: p in refs' ==> p in refs;
    assert forall p :: p in refs && p != o ==> p in refs';
    assert o in refs' <==> refs[o] > 1;
  }

  /** One more reference to a reachable object, or the first one to a new live object. */
  lemma GainReach(refs: Refs, live: set<TensorMemoryObj>, leaked: set<TensorMemoryObj>, o: TensorMemoryObj)
    requires Reach(refs, live, leaked)
    ensures o in refs ==> o in live && o !in leaked && Reach(refs + multiset{o}, live, leaked)
    ensures o !in live ==> o !in refs && o !in leaked && Reach(refs + multiset{o}, live + {o}, leaked)
  {
    var refs' := refs + multiset{o};
    assert forall p :: p in refs' <==> p in refs || p == o;
  }
}
