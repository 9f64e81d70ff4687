/** The double-buffered layer pipeline that moves cached KV into paged memory one layer at a time: while
    one layer is loaded, the previous one is rotated and shown to the consumer, and the one before is
    copied to its slots.  Two buffers take turns. */
module GpuConnector {
  import opened PagedMemory

  type Row = seq<int>

  /** The keys and the values of one layer, one row per position. */
  datatype LayerKv = LayerKv(k: seq<Row>, v: seq<Row>)

  /** Recovers the positional encoding of a key row, from its old position to its new one. */
  type Rotary = (int, int, Row) -> Row

  /** What the consumer makes of a layer's buffer while the pipeline is suspended. */
  type Edit = (nat, LayerKv) -> LayerKv

  ghost predicate KeepsShape(edit: Edit) {
    forall l, x :: |edit(l, x).k| == |x.k| && |edit(l, x).v| == |x.v|
  }

  // ---------------------------------------------------------------- chunks

  /** Where the chunks lie in the token sequence: one after the other, possibly with gaps between. */
  datatype Layout = Layout(starts: seq<nat>, ends: seq<nat>) {
    ghost predicate Ok() {
      && |starts| == |ends| > 0
      && (forall c :: 0 <= c < |starts| ==> starts[0] <= starts[c] <= ends[c] <= ends[|ends| - 1])
      && (forall c, d :: 0 <= c < d < |starts| ==> ends[c] <= starts[d])
    }

    function Size(): nat
      requires Ok()
    {
      ends[|ends| - 1] - starts[0]
    }

    function At(c: nat): nat
      requires Ok() && c < |starts|
    {
      starts[c] - starts[0]
    }

    /** One layer's rows, chunk by chunk. */
    ghost predicate Fits(chunks: seq<LayerKv>, was: seq<seq<int>>)
      requires Ok()
    {
      && |chunks| == |was| == |starts|
      && forall c :: 0 <= c < |starts| ==> |chunks[c].k| == |chunks[c].v| == |was[c]| == ends[c] - starts[c]
    }

    /** A position between the first chunk and the last that no chunk covers. */
    ghost predicate InGap(i: int)
      requires Ok()
    {
      0 <= i < Size() && forall c :: 0 <= c < |starts| ==> i < starts[c] - starts[0] || ends[c] - starts[0] <= i
    }

    ghost predicate SameInGaps<T>(now: seq<T>, was: seq<T>)
      requires Ok() && |now| == |was| == Size()
    {
      forall i :: InGap(i) ==> now[i] == was[i]
    }

    /** The first m chunks are in their places. */
    ghost predicate Holds<T>(rows: seq<T>, parts: seq<seq<T>>, m: nat)
      requires Ok() && m <= |parts| == |starts|
    {
      && (forall c: nat :: c < m ==> At(c) + |parts[c]| <= |rows|)
      && (forall c: nat, j: nat :: c < m && j < |parts[c]| ==> rows[At(c) + j] == parts[c][j])
    }
  }

  ghost function Ks(chunks: seq<LayerKv>): (r: seq<seq<Row>>)
    ensures |r| == |chunks|
  {
    seq(|chunks|, c requires 0 <= c < |chunks| => chunks[c].k)
  }

  ghost function Vs(chunks: seq<LayerKv>): (r: seq<seq<Row>>)
    ensures |r| == |chunks|
  {
    seq(|chunks|, c requires 0 <= c < |chunks| => chunks[c].v)
  }

  /** Overwrites part of a sequence. */
  function Patch<T>(base: seq<T>, at: nat, part: seq<T>): (r: seq<T>)
    requires at + |part| <= |base|
    ensures |r| == |base|
    ensures forall i :: 0 <= i < |base| ==> r[i] == if at <= i < at + |part| then part[i - at] else base[i]
  {
    base[..at] + part + base[at + |part|..]
  }

  lemma PatchNext<T>(lay: Layout, rows: seq<T>, parts: seq<seq<T>>, m: nat)
    requires lay.Ok() && m < |parts| == |lay.starts| && |rows| == lay.Size()
    requires forall c :: 0 <= c < |parts| ==> |parts[c]| == lay.ends[c] - lay.starts[c]
    requires lay.Holds(rows, parts, m)
    ensures lay.At(m) + |parts[m]| <= |rows| && lay.Holds(Patch(rows, lay.At(m), parts[m]), parts, m + 1)
  {
    var r := Patch(rows, lay.At(m), parts[m]);
    assert lay.At(m) + |parts[m]| <= |rows|;
    forall c: nat, j: nat | c < m + 1 && j < |parts[c]| ensures r[lay.At(c) + j] == parts[c][j] {
      if c < m { assert lay.ends[c] <= lay.starts[m]; }
    }
  }

  lemma PatchOutsideGaps<T>(lay: Layout, rows: seq<T>, was: seq<T>, c: nat, part: seq<T>)
    requires lay.Ok() && |rows| == |was| == lay.Size() && c < |lay.starts|
    requires |part| == lay.ends[c] - lay.starts[c] && lay.At(c) + |part| <= |rows|
    ensures lay.SameInGaps(rows, was) ==> lay.SameInGaps(Patch(rows, lay.At(c), part), was)
  {
  }

  // ---------------------------------------------------------------- rotation

  function Rotated(rot: Rotary, first: nat, was: seq<int>, rows: seq<Row>): (r: seq<Row>)
    requires |was| == |rows|
    ensures |r| == |rows|
  {
    seq(|rows|, i requires 0 <= i < |rows| => rot(was[i], first + i, rows[i]))
  }

  /** A layer as the consumer must see it: every chunk in its place, keys rotated to the new positions. */
  ghost predicate Ready(lay: Layout, rot: Rotary, chunks: seq<LayerKv>, was: seq<seq<int>>, x: LayerKv)
    requires lay.Ok() && lay.Fits(chunks, was)
  {
    && |x.k| == |x.v| == lay.Size()
    && forall c: nat, j: nat :: c < |chunks| && j < |chunks[c].k| ==>
         && x.k[lay.At(c) + j] == rot(was[c][j], lay.starts[c] + j, chunks[c].k[j])
         && x.v[lay.At(c) + j] == chunks[c].v[j]
  }

  lemma RotatedIsReady(lay: Layout, rot: Rotary, chunks: seq<LayerKv>, was: seq<seq<int>>, full: seq<int>, x: LayerKv)
    requires lay.Ok() && lay.Fits(chunks, was) && |x.k| == |x.v| == |full| == lay.Size()
    requires lay.Holds(x.k, Ks(chunks), |chunks|) && lay.Holds(x.v, Vs(chunks), |chunks|)
    requires lay.Holds(full, was, |chunks|)
    ensures Ready(lay, rot, chunks, was, LayerKv(Rotated(rot, lay.starts[0], full, x.k), x.v))
  {
    forall c: nat, j: nat | c < |chunks| && j < |chunks[c].k|
      ensures Rotated(rot, lay.starts[0], full, x.k)[lay.At(c) + j] == rot(was[c][j], lay.starts[c] + j, chunks[c].k[j])
      ensures x.v[lay.At(c) + j] == chunks[c].v[j]
    {
      assert Ks(chunks)[c][j] == chunks[c].k[j] && Vs(chunks)[c][j] == chunks[c].v[j];
      assert full[lay.At(c) + j] == was[c][j];
    }
  }

  // ---------------------------------------------------------------- the plain copy

  ghost predicate Gapless(lay: Layout)
    requires lay.Ok()
  {
    forall c, d :: 0 <= c && d == c + 1 && d < |lay.starts| ==> lay.ends[c] == lay.starts[d]
  }

  /** The plain per-layer copy: the first m chunks one after the other, each rotated on its own. */
  ghost function CopyOf(lay: Layout, rot: Rotary, chunks: seq<LayerKv>, was: seq<seq<int>>, m: nat): LayerKv
    requires lay.Ok() && lay.Fits(chunks, was) && m <= |chunks|
  {
    if m == 0 then LayerKv([], [])
    else
      var x, c := CopyOf(lay, rot, chunks, was, m - 1), chunks[m - 1];
      LayerKv(x.k + Rotated(rot, lay.starts[m - 1], was[m - 1], c.k), x.v + c.v)
  }

  lemma ChunkInPlace(lay: Layout, rot: Rotary, chunks: seq<LayerKv>, was: seq<seq<int>>, x: LayerKv, c: nat)
    requires lay.Ok() && lay.Fits(chunks, was) && Ready(lay, rot, chunks, was, x) && c < |chunks|
    ensures lay.At(c) <= lay.ends[c] - lay.starts[0] <= lay.Size()
    ensures x.k[lay.At(c)..lay.ends[c] - lay.starts[0]] == Rotated(rot, lay.starts[c], was[c], chunks[c].k)
    ensures x.v[lay.At(c)..lay.ends[c] - lay.starts[0]] == chunks[c].v
  {
    var ks, vs := x.k[lay.At(c)..lay.ends[c] - lay.starts[0]], x.v[lay.At(c)..lay.ends[c] - lay.starts[0]];
    forall j: nat | j < |chunks[c].k|
      ensures ks[j] == Rotated(rot, lay.starts[c], was[c], chunks[c].k)[j] && vs[j] == chunks[c].v[j]
    {
      assert x.k[lay.At(c) + j] == rot(was[c][j], lay.starts[c] + j, chunks[c].k[j]);
    }
  }

  lemma Split<T>(s: seq<T>, i: nat, j: nat)
    requires i <= j <= |s|
    ensures s[..i] + s[i..j] == s[..j]
  {
  }

  /** Without gaps, what is shown is exactly the plain copy, whatever the buffers held before. */
  lemma {:induction false} ReadyIsCopy(lay: Layout, rot: Rotary, chunks: seq<LayerKv>, was: seq<seq<int>>, x: LayerKv,
      m: nat)
    requires lay.Ok() && lay.Fits(chunks, was) && Gapless(lay) && Ready(lay, rot, chunks, was, x) && m <= |chunks|
    ensures var n := if m == 0 then 0 else lay.ends[m - 1] - lay.starts[0];
            0 <= n <= lay.Size() && CopyOf(lay, rot, chunks, was, m) == LayerKv(x.k[..n], x.v[..n])
    decreases m
  {
    hide Ready, Rotated;
    SizesOfReady(lay, rot, chunks, was, x);
    if m > 0 {
      ReadyIsCopy(lay, rot, chunks, was, x, m - 1);
      assert m > 1 ==> lay.ends[m - 2] == lay.starts[m - 1];
      ChunkInPlace(lay, rot, chunks, was, x, m - 1);
      Split(x.k, lay.At(m - 1), lay.ends[m - 1] - lay.starts[0]);
      Split(x.v, lay.At(m - 1), lay.ends[m - 1] - lay.starts[0]);
    }
  }

  lemma SizesOfReady(lay: Layout, rot: Rotary, chunks: seq<LayerKv>, was: seq<seq<int>>, x: LayerKv)
    requires lay.Ok() && lay.Fits(chunks, was) && Ready(lay, rot, chunks, was, x)
    ensures |x.k| == |x.v| == lay.Size()
  {
  }

  // ---------------------------------------------------------------- paged memory

  function Transferred(x: LayerKv, slots: seq<int>, g: LayerKv): LayerKv
    requires |x.k| == |x.v| == |slots|
  {
    LayerKv(Scatter(x.k, slots, 0, |slots|, g.k), Scatter(x.v, slots, 0, |slots|, g.v))
  }

  /** One request to the pipeline: what to load, where it goes, and what happens to it on the way. */
  datatype Request = Request(
    lay: Layout, slots: seq<int>, layers: seq<seq<LayerKv>>, was: seq<seq<int>>, rot: Rotary, edit: Edit)
  {
    ghost predicate Ok() {
      && lay.Ok() && lay.ends[|lay.ends| - 1] <= |slots| && KeepsShape(edit)
      && forall l :: 0 <= l < |layers| ==> lay.Fits(layers[l], was)
    }

    /** The slots of all positions from the first chunk to the last, gaps included. */
    function Slots(): (r: seq<int>)
      requires Ok()
      ensures |r| == lay.Size()
    {
      slots[lay.starts[0]..lay.ends[|lay.ends| - 1]]
    }

    /** x is what the consumer may be shown of layer l. */
    ghost predicate Shows(l: int, x: LayerKv)
      requires Ok() && 0 <= l < |layers|
    {
      Ready(lay, rot, layers[l], was, x)
    }

    /** Paged memory of layer l once the consumer has been shown x. */
    ghost function Paged(l: nat, x: LayerKv, g: LayerKv): LayerKv
      requires Ok() && |x.k| == |x.v| == lay.Size()
    {
      Transferred(edit(l, x), Slots(), g)
    }
  }

  // ---------------------------------------------------------------- the pipeline

  class GpuBuffer {
    /** The two halves of the buffer, and its holders. */
    var k: seq<Row>
    var v: seq<Row>
    var refCount: int

    constructor (junk: LayerKv)
      ensures Data() == junk && refCount == 1
    {
      k, v, refCount := junk.k, junk.v, 1;
    }

    function Data(): LayerKv
      reads this
    {
      LayerKv(k, v)
    }
  }

  class VLLMBufferLayerwiseGPUConnector {
    const numLayers: nat
    /** Which buffer shows which layer to the consumer. */
    var bufferMapping: map<int, GpuBuffer>

    constructor (numLayers: nat)
      ensures this.numLayers == numLayers && bufferMapping == map[]
    {
      this.numLayers, bufferMapping := numLayers, map[];
    }

    /** Copies one layer's chunks to their places; on the first layer their old positions are noted. */
    method Load(load: GpuBuffer, lay: Layout, chunks: seq<LayerKv>, was: seq<seq<int>>, full: seq<int>, first: bool)
      returns (positions: seq<int>)
      requires lay.Ok() && lay.Fits(chunks, was) && |load.k| == |load.v| == |full| == lay.Size()
      modifies load`k, load`v
      ensures |load.k| == |load.v| == |positions| == lay.Size()
      ensures lay.Holds(load.k, Ks(chunks), |chunks|) && lay.Holds(load.v, Vs(chunks), |chunks|)
      ensures if first then lay.Holds(positions, was, |was|) else positions == full
      ensures lay.SameInGaps(load.k, old(load.k)) && lay.SameInGaps(load.v, old(load.v))
      ensures lay.SameInGaps(positions, full)
    {
      hide Layout.Holds, Layout.SameInGaps;
      positions := full;
      AllTheSame(lay, load.k);
      AllTheSame(lay, load.v);
      AllTheSame(lay, full);
      HoldsNone(lay, load.k, Ks(chunks));
      HoldsNone(lay, load.v, Vs(chunks));
      HoldsNone(lay, full, was);
      for c := 0 to |chunks|
        invariant |load.k| == |load.v| == |positions| == lay.Size()
        invariant lay.Holds(load.k, Ks(chunks), c) && lay.Holds(load.v, Vs(chunks), c)
        invariant if first then lay.Holds(positions, was, c) else positions == full
        invariant lay.SameInGaps(load.k, old(load.k)) && lay.SameInGaps(load.v, old(load.v))
        invariant lay.SameInGaps(positions, full)
      {
        PatchNext(lay, load.k, Ks(chunks), c);
        PatchNext(lay, load.v, Vs(chunks), c);
        PatchOutsideGaps(lay, load.k, old(load.k), c, chunks[c].k);
        PatchOutsideGaps(lay, load.v, old(load.v), c, chunks[c].v);
        load.k := Patch(load.k, lay.At(c), chunks[c].k);
        load.v := Patch(load.v, lay.At(c), chunks[c].v);
        if first {
          PatchNext(lay, positions, was, c);
          PatchOutsideGaps(lay, positions, full, c, was[c]);
          positions := Patch(positions, lay.At(c), was[c]);
        }
      }
    }

    lemma AllTheSame<T>(lay: Layout, rows: seq<T>)
      requires lay.Ok() && |rows| == lay.Size()
      ensures lay.SameInGaps(rows, rows)
    {
    }

    lemma HoldsNone<T>(lay: Layout, rows: seq<T>, parts: seq<seq<T>>)
      requires lay.Ok() && |parts| == |lay.starts|
      ensures lay.Holds(rows, parts, 0)
    {
    }

    /** How many layers have been shown, and how many are in paged memory, before pass n. */
    function Shown(n: nat): nat { if n == 0 then 0 else if n - 1 <= numLayers then n - 1 else numLayers }
    function Paged(n: nat): nat { if n < 2 then 0 else n - 2 }

    ghost predicate Sized(q: Request, x: LayerKv)
      requires q.Ok()
    {
      |x.k| == |x.v| == q.lay.Size()
    }

    /** The layer shown last is still mapped, as the consumer left it. */
    ghost predicate Mapped(q: Request, n: nat, compute: GpuBuffer, seen: seq<LayerKv>)
      requires q.Ok() && |seen| == Shown(n)
      reads this, compute
    {
      if 2 <= n <= numLayers + 1 then bufferMapping == map[n - 2 := compute] &&
        compute.Data() == q.edit(n - 2, seen[n - 2])
      else bufferMapping == map[]
    }

    ghost predicate Seen(q: Request, seen: seq<LayerKv>)
      requires q.Ok() && |q.layers| == numLayers
    {
      |seen| <= numLayers && forall l :: 0 <= l < |seen| ==> Sized(q, seen[l]) && q.Shows(l, seen[l])
    }

    /** What the buffer of layer l held before the layer was loaded into it: what the buffers came with, and later
        what the consumer left of the layer two before. */
    ghost function Came(q: Request, seen: seq<LayerKv>, l: nat, junkA: LayerKv, junkB: LayerKv): (r: LayerKv)
      requires q.Ok() && |q.layers| == numLayers && Seen(q, seen) && l <= |seen| + 1
      requires Sized(q, junkA) && Sized(q, junkB)
      ensures Sized(q, r)
    {
      if l == 0 then junkB else if l == 1 then junkA else q.edit(l - 2, seen[l - 2])
    }

    ghost predicate SameRowsInGaps(q: Request, x: LayerKv, y: LayerKv)
      requires q.Ok() && Sized(q, x) && Sized(q, y)
    {
      q.lay.SameInGaps(x.k, y.k) && q.lay.SameInGaps(x.v, y.v)
    }

    /** In gaps x has the rows of y, keys rotated from position 0. */
    ghost predicate TurnedInGaps(q: Request, x: LayerKv, y: LayerKv)
      requires q.Ok() && Sized(q, x) && Sized(q, y)
    {
      forall i: nat :: q.lay.InGap(i) ==> x.v[i] == y.v[i] && x.k[i] == q.rot(0, q.lay.starts[0] + i, y.k[i])
    }

    /** In gaps every layer is shown with what its buffer held before. */
    ghost predicate GapsShown(q: Request, seen: seq<LayerKv>, junkA: LayerKv, junkB: LayerKv)
      requires q.Ok() && |q.layers| == numLayers && Seen(q, seen) && Sized(q, junkA) && Sized(q, junkB)
    {
      forall l: nat :: l < |seen| ==> TurnedInGaps(q, seen[l], Came(q, seen, l, junkA, junkB))
    }

    /** How these rows get there: x is in the load buffer and y in the other. */
    ghost predicate GapsKept(q: Request, n: nat, x: LayerKv, y: LayerKv, full: seq<int>, seen: seq<LayerKv>,
        junkA: LayerKv, junkB: LayerKv)
      requires q.Ok() && |q.layers| == numLayers && Seen(q, seen) && |seen| == Shown(n)
      requires Sized(q, x) && Sized(q, y) && Sized(q, junkA) && Sized(q, junkB) && |full| == q.lay.Size()
    {
      && (n == 0 ==> x == junkB && y == junkA)
      && (1 <= n <= numLayers ==>
            y == Came(q, seen, n, junkA, junkB) && SameRowsInGaps(q, x, Came(q, seen, n - 1, junkA, junkB)))
      && q.lay.SameInGaps(full, seq(q.lay.Size(), _ => 0)) && GapsShown(q, seen, junkA, junkB)
    }

    lemma TurnedGaps(q: Request, x: LayerKv, full: seq<int>, y: LayerKv)
      requires q.Ok() && Sized(q, x) && Sized(q, y) && |full| == q.lay.Size()
      requires SameRowsInGaps(q, x, y) && q.lay.SameInGaps(full, seq(q.lay.Size(), _ => 0))
      ensures TurnedInGaps(q, LayerKv(Rotated(q.rot, q.lay.starts[0], full, x.k), x.v), y)
    {
    }

    lemma GapsShownMore(q: Request, seen: seq<LayerKv>, x: LayerKv, junkA: LayerKv, junkB: LayerKv)
      requires q.Ok() && |q.layers| == numLayers && Seen(q, seen) && Sized(q, junkA) && Sized(q, junkB)
      requires Seen(q, seen + [x]) && Sized(q, x) && GapsShown(q, seen, junkA, junkB)
      requires TurnedInGaps(q, x, Came(q, seen, |seen|, junkA, junkB))
      ensures GapsShown(q, seen + [x], junkA, junkB)
    {
      hide TurnedInGaps, KeepsShape, Request.Shows, Request.Ok, Came;
      var all := seen + [x];
      forall l: nat | l < |all| ensures TurnedInGaps(q, all[l], Came(q, all, l, junkA, junkB)) {
        SameCame(q, seen, x, l, junkA, junkB);
        if l < |seen| {
          assert TurnedInGaps(q, seen[l], Came(q, seen, l, junkA, junkB)) && all[l] == seen[l];
        }
      }
    }

    lemma SameCame(q: Request, seen: seq<LayerKv>, x: LayerKv, l: nat, junkA: LayerKv, junkB: LayerKv)
      requires q.Ok() && |q.layers| == numLayers && Seen(q, seen) && Seen(q, seen + [x]) && l <= |seen|
      requires Sized(q, junkA) && Sized(q, junkB)
      ensures Came(q, seen + [x], l, junkA, junkB) == Came(q, seen, l, junkA, junkB)
    {
      hide KeepsShape, Request.Shows, Layout.Ok, Layout.Fits;
      assert l >= 2 ==> (seen + [x])[l - 2] == seen[l - 2];
    }

    /** The next layer is in the load buffer, not rotated yet. */
    ghost predicate Loaded(q: Request, n: nat, x: LayerKv)
      requires q.Ok() && |q.layers| == numLayers
    {
      1 <= n <= numLayers ==>
        && q.lay.Holds(x.k, Ks(q.layers[n - 1]), |q.layers[n - 1]|)
        && q.lay.Holds(x.v, Vs(q.layers[n - 1]), |q.layers[n - 1]|)
    }

    /** The old positions are known from the first load on. */
    ghost predicate Noted(q: Request, n: nat, full: seq<int>)
      requires q.Ok() && |q.layers| == numLayers
    {
      1 <= n <= numLayers ==> |q.was| == |q.lay.starts| && q.lay.Holds(full, q.was, |q.was|)
    }

    /** The first m layers are in paged memory, and nothing else has changed there. */
    ghost predicate PagedUpTo(q: Request, m: nat, seen: seq<LayerKv>, before: seq<LayerKv>, now: seq<LayerKv>)
      requires q.Ok() && |q.layers| == numLayers && Seen(q, seen) && m <= |seen|
    {
      && |before| == |now| == numLayers
      && forall l :: 0 <= l < numLayers ==> now[l] == if l < m then q.Paged(l, seen[l], before[l]) else before[l]
    }

    lemma PageNext(q: Request, m: nat, seen: seq<LayerKv>, before: seq<LayerKv>, now: seq<LayerKv>)
      requires q.Ok() && |q.layers| == numLayers && Seen(q, seen) && m < |seen| && PagedUpTo(q, m, seen, before, now)
      ensures Sized(q, q.edit(m, seen[m]))
      ensures PagedUpTo(q, m + 1, seen, before, now[m := Transferred(q.edit(m, seen[m]), q.Slots(), now[m])])
    {
    }

    lemma ShowNext(q: Request, n: nat, x: LayerKv, full: seq<int>, seen: seq<LayerKv>)
      requires q.Ok() && |q.layers| == numLayers && Seen(q, seen) && 1 <= n <= numLayers && |seen| == n - 1
      requires Sized(q, x) && Loaded(q, n, x) && |full| == q.lay.Size() && Noted(q, n, full)
      ensures Seen(q, seen + [LayerKv(Rotated(q.rot, q.lay.starts[0], full, x.k), x.v)])
    {
      RotatedIsReady(q.lay, q.rot, q.layers[n - 1], q.was, full, x);
    }

    /** The paged memory written so far does not depend on what is shown later. */
    lemma SeenMore(q: Request, m: nat, seen: seq<LayerKv>, x: LayerKv, before: seq<LayerKv>, now: seq<LayerKv>)
      requires q.Ok() && |q.layers| == numLayers && Seen(q, seen) && m <= |seen| && PagedUpTo(q, m, seen, before, now)
      requires Seen(q, seen + [x])
      ensures PagedUpTo(q, m, seen + [x], before, now)
    {
    }

    /** Copies the layer shown last to its slots and takes it out of the mapping. */
    method PageOut(q: Request, n: nat, paged: array<LayerKv>, ghost seen: seq<LayerKv>, ghost before: seq<LayerKv>)
      requires q.Ok() && |q.layers| == numLayers == paged.Length && 2 <= n <= numLayers + 1
      requires Seen(q, seen) && |seen| == n - 1 && PagedUpTo(q, n - 2, seen, before, paged[..])
      requires n - 2 in bufferMapping && bufferMapping[n - 2].Data() == q.edit(n - 2, seen[n - 2])
      modifies this`bufferMapping, paged
      ensures bufferMapping == old(bufferMapping) - {n - 2} && PagedUpTo(q, n - 1, seen, before, paged[..])
    {
      hide PagedUpTo, Seen, Transferred, KeepsShape, Request.Slots;
      PageNext(q, n - 2, seen, before, paged[..]);
      ghost var now := paged[..];
      paged[n - 2] := Transferred(bufferMapping[n - 2].Data(), q.Slots(), paged[n - 2]);
      assert paged[..] == now[n - 2 := paged[n - 2]];
      bufferMapping := bufferMapping - {n - 2};
    }

    /** Turns the buffers over: the loaded one gets its keys rotated and is mapped for the consumer. */
    method Turn(q: Request, n: nat, buffer: GpuBuffer, full: seq<int>, ghost seen: seq<LayerKv>)
      requires q.Ok() && |q.layers| == numLayers && 1 <= n <= numLayers
      requires Seen(q, seen) && |seen| == n - 1 && Sized(q, buffer.Data()) && Loaded(q, n, buffer.Data())
      requires |full| == q.lay.Size() && Noted(q, n, full)
      modifies this`bufferMapping, buffer`k
      ensures Sized(q, buffer.Data())
      ensures bufferMapping == old(bufferMapping)[n - 1 := buffer] && Seen(q, seen + [buffer.Data()])
      ensures buffer.k == Rotated(q.rot, q.lay.starts[0], full, old(buffer.k))
    {
      hide Seen, Loaded, Noted, Rotated;
      ShowNext(q, n, buffer.Data(), full, seen);
      buffer.k := Rotated(q.rot, q.lay.starts[0], full, buffer.k);
      bufferMapping := bufferMapping[n - 1 := buffer];
    }

    /** The consumer's turn: it works on the layer that is mapped, if any. */
    method Suspend(q: Request, n: nat)
      requires q.Ok() && (n >= 1 ==> n - 1 in bufferMapping && Sized(q, bufferMapping[n - 1].Data()))
      modifies (if n >= 1 then {bufferMapping[n - 1]} else {})`k, (if n >= 1 then {bufferMapping[n - 1]} else {})`v
      ensures n >= 1 ==> bufferMapping[n - 1].Data() == q.edit(n - 1, old(bufferMapping[n - 1].Data()))
      ensures n >= 1 ==> Sized(q, bufferMapping[n - 1].Data())
      ensures n >= 1 ==> bufferMapping[n - 1].refCount == old(bufferMapping[n - 1].refCount)
    {
      if n >= 1 {
        var buffer := bufferMapping[n - 1];
        var data := q.edit(n - 1, buffer.Data());
        buffer.k, buffer.v := data.k, data.v;
      }
    }

    /** Loads layer n into the buffer that is not shown. */
    method LoadLayer(q: Request, n: nat, load: GpuBuffer, full: seq<int>) returns (positions: seq<int>)
      requires q.Ok() && |q.layers| == numLayers && n < numLayers
      requires Sized(q, load.Data()) && |full| == q.lay.Size() && Noted(q, n, full)
      modifies load`k, load`v
      ensures Sized(q, load.Data()) && Loaded(q, n + 1, load.Data())
      ensures |positions| == q.lay.Size() && Noted(q, n + 1, positions)
      ensures q.lay.SameInGaps(load.k, old(load.k)) && q.lay.SameInGaps(load.v, old(load.v))
      ensures q.lay.SameInGaps(positions, full)
    {
      hide Layout.Holds, Layout.SameInGaps;
      positions := Load(load, q.lay, q.layers[n], q.was, full, n == 0);
    }

    /** The end of a pass: the consumer's turn, then the next layer is loaded into the other buffer. */
    method Yield(q: Request, n: nat, compute: GpuBuffer, load: GpuBuffer, full: seq<int>)
      returns (positions: seq<int>, yielded: nat)
      requires q.Ok() && |q.layers| == numLayers && n <= numLayers + 1 && compute != load
      requires 1 <= n <= numLayers ==> bufferMapping == map[n - 1 := compute]
      requires Sized(q, compute.Data()) && Sized(q, load.Data()) && |full| == q.lay.Size() && Noted(q, n, full)
      modifies compute`k, compute`v, load`k, load`v
      ensures Sized(q, compute.Data()) && Sized(q, load.Data()) && |positions| == q.lay.Size()
      ensures compute.Data() == if 1 <= n <= numLayers then q.edit(n - 1, old(compute.Data())) else old(compute.Data())
      ensures Loaded(q, n + 1, load.Data()) && Noted(q, n + 1, positions)
      ensures SameRowsInGaps(q, load.Data(), old(load.Data()))
      ensures q.lay.SameInGaps(positions, full)
      ensures yielded == if n <= numLayers then 1 else 0
    {
      hide Layout.Holds, Layout.SameInGaps, KeepsShape;
      positions, yielded := full, 0;
      SameAsBefore(q, load.Data(), full);
      if n <= numLayers {
        Suspend(q, n);
        yielded := 1;
      }
      if n < numLayers {
        positions := LoadLayer(q, n, load, full);
      }
    }

    lemma SameAsBefore(q: Request, x: LayerKv, full: seq<int>)
      requires q.Ok() && Sized(q, x) && |full| == q.lay.Size()
      ensures q.lay.SameInGaps(x.k, x.k) && q.lay.SameInGaps(x.v, x.v) && q.lay.SameInGaps(full, full)
    {
    }

    /** Moves all layers into paged memory, suspending itself before each load, after the last rotation
        and at the end.  What is shown of a layer is exactly its chunks in their places, keys rotated;
        what its slots hold in the end is what the consumer made of that.  Both buffers are given up. */
    method BatchedToGpu(q: Request, paged: array<LayerKv>, junkA: LayerKv, junkB: LayerKv)
      returns (suspensions: nat, ghost seen: seq<LayerKv>, ghost buffers: seq<GpuBuffer>)
      requires q.Ok() && |q.layers| == numLayers == paged.Length && bufferMapping == map[]
      requires Sized(q, junkA) && Sized(q, junkB)
      modifies this`bufferMapping, paged
      ensures bufferMapping == map[] && suspensions == numLayers + 2
      ensures |buffers| == 2 && buffers[0] != buffers[1] && forall b :: b in buffers ==> fresh(b) && b.refCount == 0
      ensures |seen| == numLayers && Seen(q, seen) && PagedUpTo(q, numLayers, seen, old(paged[..]), paged[..])
      ensures GapsShown(q, seen, junkA, junkB)
    {
      hide Layout.SameInGaps, GapsKept, GapsShown, SameRowsInGaps, Seen, Layout.Holds, PagedUpTo, Rotated;
      hide Transferred, KeepsShape;
      var compute := new GpuBuffer(junkA);
      var load := new GpuBuffer(junkB);
      var full := seq(q.lay.Size(), _ => 0);
      seen, suspensions := [], 0;
      AtStart(q, junkB, full, paged[..]);
      GapsStart(q, junkA, junkB);
      for n := 0 to numLayers + 2
        invariant fresh(compute) && fresh(load) && compute != load && compute.refCount == 1 && load.refCount == 1
        invariant Sized(q, compute.Data()) && Sized(q, load.Data()) && |full| == q.lay.Size()
        invariant Loaded(q, n, load.Data()) && Noted(q, n, full)
        invariant |seen| == Shown(n) && Mapped(q, n, compute, seen) && Seen(q, seen)
        invariant GapsKept(q, n, load.Data(), compute.Data(), full, seen, junkA, junkB)
        invariant PagedUpTo(q, Paged(n), seen, old(paged[..]), paged[..])
        invariant suspensions == if n <= numLayers then n else numLayers + 1
      {
        ghost var x, y, full0, seen0 := load.Data(), compute.Data(), full, seen;
        if n > 1 {
          PageOut(q, n, paged, seen, old(paged[..]));
        }
        if n > 0 && n <= numLayers {
          compute, load := load, compute;
          Turn(q, n, compute, full, seen);
          SeenMore(q, n - 1, seen, compute.Data(), old(paged[..]), paged[..]);
          seen := seen + [compute.Data()];
        }
        var yielded;
        full, yielded := Yield(q, n, compute, load, full);
        suspensions := suspensions + yielded;
        GapsStep(q, n, x, y, full0, seen0, junkA, junkB, load.Data(), compute.Data(), full, seen);
      }
      GapsEnd(q, load.Data(), compute.Data(), full, seen, junkA, junkB);
      load.refCount := load.refCount - 1;
      compute.refCount := compute.refCount - 1;
      suspensions := suspensions + 1;
      buffers := [load, compute];
    }

    lemma GapsStart(q: Request, junkA: LayerKv, junkB: LayerKv)
      requires q.Ok() && |q.layers| == numLayers && Sized(q, junkA) && Sized(q, junkB) && Seen(q, [])
      ensures GapsKept(q, 0, junkB, junkA, seq(q.lay.Size(), _ => 0), [], junkA, junkB)
    {
    }

    lemma GapsStep(q: Request, n: nat, x: LayerKv, y: LayerKv, full: seq<int>, seen: seq<LayerKv>, junkA: LayerKv,
        junkB: LayerKv, x': LayerKv, y': LayerKv, full': seq<int>, seen': seq<LayerKv>)
      requires q.Ok() && |q.layers| == numLayers && |full| == |full'| == q.lay.Size()
      requires Sized(q, x) && Sized(q, x') && Sized(q, y) && Sized(q, y') && Sized(q, junkA) && Sized(q, junkB)
      requires Seen(q, seen) && Seen(q, seen') && |seen| == Shown(n) && |seen'| == Shown(n + 1)
      requires GapsKept(q, n, x, y, full, seen, junkA, junkB) && q.lay.SameInGaps(full', full)
      requires seen' == if 1 <= n <= numLayers
                        then seen + [LayerKv(Rotated(q.rot, q.lay.starts[0], full, x.k), x.v)] else seen
      requires n == 0 ==> y' == y && SameRowsInGaps(q, x', x)
      requires 1 <= n <= numLayers ==> y' == q.edit(n - 1, seen'[n - 1]) && SameRowsInGaps(q, x', y)
      ensures GapsKept(q, n + 1, x', y', full', seen', junkA, junkB)
    {
      hide Layout.InGap, TurnedInGaps, SameRowsInGaps, GapsShown, Rotated, Seen, KeepsShape;
      if 1 <= n <= numLayers {
        TurnedGaps(q, x, full, Came(q, seen, n - 1, junkA, junkB));
        GapsShownMore(q, seen, seen'[n - 1], junkA, junkB);
      }
    }

    lemma GapsEnd(q: Request, x: LayerKv, y: LayerKv, full: seq<int>, seen: seq<LayerKv>, junkA: LayerKv,
        junkB: LayerKv)
      requires q.Ok() && |q.layers| == numLayers && Seen(q, seen) && |seen| == numLayers
      requires Sized(q, x) && Sized(q, y) && Sized(q, junkA) && Sized(q, junkB) && |full| == q.lay.Size()
      requires GapsKept(q, numLayers + 2, x, y, full, seen, junkA, junkB)
      ensures GapsShown(q, seen, junkA, junkB)
    {
    }

    lemma AtStart(q: Request, x: LayerKv, full: seq<int>, g: seq<LayerKv>)
      requires q.Ok() && |q.layers| == numLayers == |g| && Sized(q, x) && |full| == q.lay.Size()
      ensures Loaded(q, 0, x) && Noted(q, 0, full) && Seen(q, []) && PagedUpTo(q, 0, [], g, g)
    {
    }

    /** After a run: every position's slot, in a chunk or in a gap, holds what the consumer left of its row;
        slots that no position from the first chunk to the last has are as before. */
    lemma SlotHolds(q: Request, seen: seq<LayerKv>, before: seq<LayerKv>, now: seq<LayerKv>, l: nat, i: nat)
      requires q.Ok() && |q.layers| == numLayers && Seen(q, seen) && |seen| == numLayers
      requires PagedUpTo(q, numLayers, seen, before, now) && SlotsApart(q.Slots(), 0, |q.Slots()|)
      requires l < numLayers && i < q.lay.Size()
      ensures q.lay.starts[0] + i < |q.slots|
      ensures var s := q.slots[q.lay.starts[0] + i];
              && (0 <= s < |before[l].k| ==> now[l].k[s] == q.edit(l, seen[l]).k[i])
              && (0 <= s < |before[l].v| ==> now[l].v[s] == q.edit(l, seen[l]).v[i])
      ensures forall s :: 0 <= s < |before[l].k| && s !in q.Slots() ==> now[l].k[s] == before[l].k[s]
      ensures forall s :: 0 <= s < |before[l].v| && s !in q.Slots() ==> now[l].v[s] == before[l].v[s]
    {
      hide Scatter, SlotsApart;
      var x, slots := q.edit(l, seen[l]), q.Slots();
      ScatterAt(x.k, slots, 0, |slots|, before[l].k);
      ScatterAt(x.v, slots, 0, |slots|, before[l].v);
      assert slots[i] == q.slots[q.lay.starts[0] + i];
    }

    /** Where the consumer leaves rows alone, a covered position's slot holds the chunk's row, its key rotated. */
    lemma SlotsAfterRun(q: Request, seen: seq<LayerKv>, before: seq<LayerKv>, now: seq<LayerKv>, l: nat, c: nat, j: nat)
      requires q.Ok() && |q.layers| == numLayers && Seen(q, seen) && |seen| == numLayers
      requires PagedUpTo(q, numLayers, seen, before, now) && SlotsApart(q.Slots(), 0, |q.Slots()|)
      requires l < numLayers && c < |q.lay.starts| && j < |q.layers[l][c].k| && q.edit(l, seen[l]) == seen[l]
      ensures q.lay.starts[c] + j < |q.slots|
      ensures var s := q.slots[q.lay.starts[c] + j];
              && (0 <= s < |before[l].k| ==>
                    now[l].k[s] == q.rot(q.was[c][j], q.lay.starts[c] + j, q.layers[l][c].k[j]))
              && (0 <= s < |before[l].v| ==> now[l].v[s] == q.layers[l][c].v[j])
    {
      hide PagedUpTo, SlotsApart;
      SlotHolds(q, seen, before, now, l, q.lay.At(c) + j);
      RowShown(q, seen, l, c, j);
    }

    lemma RowShown(q: Request, seen: seq<LayerKv>, l: nat, c: nat, j: nat)
      requires q.Ok() && |q.layers| == numLayers && Seen(q, seen) && |seen| == numLayers
      requires l < numLayers && c < |q.lay.starts| && j < |q.layers[l][c].k|
      ensures q.lay.At(c) + j < |seen[l].k| == |seen[l].v|
      ensures seen[l].k[q.lay.At(c) + j] == q.rot(q.was[c][j], q.lay.starts[c] + j, q.layers[l][c].k[j])
      ensures seen[l].v[q.lay.At(c) + j] == q.layers[l][c].v[j]
    {
      assert q.Shows(l, seen[l]);
    }

    /** A position in a gap has its slot overwritten as well, with whatever row the layer's buffer held before, its
        key rotated from position 0. */
    lemma GapsAfterRun(q: Request, seen: seq<LayerKv>, before: seq<LayerKv>, now: seq<LayerKv>, junkA: LayerKv,
        junkB: LayerKv, l: nat, i: nat)
      requires q.Ok() && |q.layers| == numLayers && Seen(q, seen) && |seen| == numLayers && l < numLayers
      requires PagedUpTo(q, numLayers, seen, before, now) && SlotsApart(q.Slots(), 0, |q.Slots()|)
      requires Sized(q, junkA) && Sized(q, junkB) && GapsShown(q, seen, junkA, junkB)
      requires q.lay.InGap(i) && q.edit(l, seen[l]) == seen[l]
      ensures q.lay.starts[0] + i < |q.slots|
      ensures var s, was := q.slots[q.lay.starts[0] + i], Came(q, seen, l, junkA, junkB);
              && (0 <= s < |before[l].k| ==> now[l].k[s] == q.rot(0, q.lay.starts[0] + i, was.k[i]))
              && (0 <= s < |before[l].v| ==> now[l].v[s] == was.v[i])
    {
      hide PagedUpTo, SlotsApart;
      SlotHolds(q, seen, before, now, l, i);
      assert TurnedInGaps(q, seen[l], Came(q, seen, l, junkA, junkB));
    }

    /** A key row rotated n times from position 0 to where it is. */
    static ghost function Turned(q: Request, i: nat, n: nat, row: Row): Row
      requires q.Ok()
    {
      if n == 0 then row else q.rot(0, q.lay.starts[0] + i, Turned(q, i, n - 1, row))
    }

    /** Where the consumer leaves layers alone, a gap row is that of the layer two before, its key rotated once
        more; so all even layers show one buffer's first row and all odd layers the other's. */
    lemma {:induction false} GapsTravel(q: Request, seen: seq<LayerKv>, junkA: LayerKv, junkB: LayerKv, l: nat, i: nat)
      requires q.Ok() && |q.layers| == numLayers && Seen(q, seen) && l < |seen| && q.lay.InGap(i)
      requires Sized(q, junkA) && Sized(q, junkB) && GapsShown(q, seen, junkA, junkB)
      requires forall m :: 0 <= m < l ==> q.edit(m, seen[m]) == seen[m]
      ensures var junk := if l % 2 == 0 then junkB else junkA;
              && Sized(q, seen[l]) && seen[l].v[i] == junk.v[i]
              && seen[l].k[i] == Turned(q, i, l / 2 + 1, junk.k[i])
    {
      hide KeepsShape, Request.Ok, Request.Shows, GapsShown, TurnedInGaps, Came;
      GapRow(q, seen, junkA, junkB, l, i);
      if l >= 2 { GapsTravel(q, seen, junkA, junkB, l - 2, i); }
    }

    /** One gap row of one layer, where the consumer leaves the layer two before alone. */
    lemma GapRow(q: Request, seen: seq<LayerKv>, junkA: LayerKv, junkB: LayerKv, l: nat, i: nat)
      requires q.Ok() && |q.layers| == numLayers && Seen(q, seen) && l < |seen| && q.lay.InGap(i)
      requires Sized(q, junkA) && Sized(q, junkB) && GapsShown(q, seen, junkA, junkB)
      requires l >= 2 ==> q.edit(l - 2, seen[l - 2]) == seen[l - 2]
      ensures var was := if l == 0 then junkB else if l == 1 then junkA else seen[l - 2];
              && Sized(q, was) && Sized(q, seen[l]) && seen[l].v[i] == was.v[i]
              && seen[l].k[i] == q.rot(0, q.lay.starts[0] + i, was.k[i])
    {
      assert TurnedInGaps(q, seen[l], Came(q, seen, l, junkA, junkB));
    }
  }
}
