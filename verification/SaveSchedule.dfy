/** The scheduler side of the vLLM v1 connector: which token range of a request is handed to the engine
    for storing at each scheduling step. */
module SaveSchedule {
  import opened Wrappers
  import opened Arithmetic
  import opened TokenDatabase

  datatype LoadSpec = LoadSpec(vllmCachedTokens: nat, cachedTokens: nat, canLoad: bool)

  datatype SaveSpec = SaveSpec(skipLeadingTokens: nat, canSave: bool)

  /** What the worker is told about one request for one step. */
  datatype ReqMeta = ReqMeta(
    reqId: string, tokenIds: seq<Token>, slotMapping: seq<int>, saveSpec: SaveSpec, loadSpec: Option<LoadSpec>)

  /** A store of a request's tokens from position start on. */
  datatype Range = Range(start: nat, end: nat)

  // ---------------------------------------------------------------- slots

  /** The slots of all positions of the given blocks, block after block. */
  ghost function BlockSlots(blocks: seq<nat>, blockSize: nat): (r: seq<int>)
    ensures |r| == |blocks| * blockSize
  {
    if blocks == [] then []
    else
      var init, last := blocks[..|blocks| - 1], blocks[|blocks| - 1];
      assert |blocks| * blockSize == |init| * blockSize + blockSize;
      BlockSlots(init, blockSize) + seq(blockSize, o => o + last * blockSize)
  }

  /** Position i is in block i / blockSize at offset i % blockSize. */
  lemma {:induction false} SlotAt(blocks: seq<nat>, blockSize: nat, b: nat, o: nat)
    requires b < |blocks| && o < blockSize
    ensures b * blockSize + o < |blocks| * blockSize
    ensures BlockSlots(blocks, blockSize)[b * blockSize + o] == blocks[b] * blockSize + o
  {
    var init := blocks[..|blocks| - 1];
    assert |blocks| * blockSize == |init| * blockSize + blockSize;
    if b < |init| {
      SlotAt(init, blockSize, b, o);
    }
  }

  /** Different positions have different slots when no block is given twice. */
  lemma SlotsDistinct(blocks: seq<nat>, blockSize: nat, i: nat, j: nat)
    requires 0 < blockSize && i < j < |blocks| * blockSize
    requires forall a, b :: 0 <= a < b < |blocks| ==> blocks[a] != blocks[b]
    ensures BlockSlots(blocks, blockSize)[i] != BlockSlots(blocks, blockSize)[j]
  {
    hide BlockSlots;
    var a, r := PlaceOf(blocks, blockSize, i);
    var b, s := PlaceOf(blocks, blockSize, j);
    if blocks[a] * blockSize + r == blocks[b] * blockSize + s {
      SamePlace(blocks[a], r, blocks[b], s, blockSize);
    }
  }

  /** The block of a position, its offset there, and so its slot. */
  lemma PlaceOf(blocks: seq<nat>, blockSize: nat, i: nat) returns (b: nat, o: nat)
    requires 0 < blockSize && i < |blocks| * blockSize
    ensures b < |blocks| && o < blockSize && i == b * blockSize + o
    ensures BlockSlots(blocks, blockSize)[i] == blocks[b] * blockSize + o
  {
    hide BlockSlots;
    Coordinates(|blocks|, blockSize, i);
    b, o := i / blockSize, i % blockSize;
    SlotAt(blocks, blockSize, b, o);
  }

  lemma SamePlace(a: nat, r: nat, b: nat, s: nat, size: nat)
    requires r < size && s < size && a * size + r == b * size + s
    ensures a == b && r == s
  {
    RemainderUnique(a * size + r, size, a, r);
    RemainderUnique(b * size + s, size, b, s);
  }

  lemma Coordinates(n: nat, blockSize: nat, i: nat)
    requires 0 < blockSize && i < n * blockSize
    ensures i == i / blockSize * blockSize + i % blockSize && i / blockSize < n && 0 <= i % blockSize < blockSize
  {
    FloorBounds(i, blockSize);
    var q := i / blockSize;
    assert q >= n ==> q * blockSize >= n * blockSize;
  }

  // ---------------------------------------------------------------- ranges

  /** The ranges stored so far: each starts at the last whole chunk before the end of the one before, the
      first at 0; the last ends where saving has got to. */
  ghost predicate Chained(ranges: seq<Range>, saved: nat, c: Chunk) {
    && (forall i :: 0 <= i < |ranges| ==> ranges[i].start < ranges[i].end)
    && (ranges != [] ==> ranges[0].start == 0)
    && (forall i, j :: 0 <= i && j == i + 1 && j < |ranges| ==>
          ranges[j].start == Floor(ranges[i].end, c) && ranges[i].end < ranges[j].end)
    && saved == if ranges == [] then 0 else ranges[|ranges| - 1].end
  }

  /** Every range starts on a chunk boundary. */
  lemma StartsAligned(ranges: seq<Range>, saved: nat, c: Chunk, i: nat)
    requires Chained(ranges, saved, c) && i < |ranges|
    ensures Aligned(ranges[i].start, c)
  {
    if i > 0 {
      assert ranges[i].start == Floor(ranges[i - 1].end, c);
    }
  }

  /** The ranges leave no gap: every position saved is in one of them. */
  lemma {:induction false} NoGap(ranges: seq<Range>, saved: nat, c: Chunk, x: nat) returns (i: nat)
    requires Chained(ranges, saved, c) && x < saved
    ensures i < |ranges| && ranges[i].start <= x < ranges[i].end
    decreases |ranges|
  {
    var n := |ranges| - 1;
    if x >= ranges[n].start {
      i := n;
    } else {
      assert n > 0 && ranges[n].start == Floor(ranges[n - 1].end, c);
      i := NoGap(ranges[..n], ranges[n - 1].end, c, x);
    }
  }

  lemma ChainMore(ranges: seq<Range>, saved: nat, c: Chunk, end: nat)
    requires Chained(ranges, saved, c) && saved < end
    ensures Chained(ranges + [Range(Floor(saved, c), end)], end, c)
  {
    if ranges == [] { ZeroIsMultiple(c); FloorUnique(0, c, 0); }
  }

  /** How far saving has got: never past the tokens known, never a whole chunk behind them; on a chunk
      boundary if partial chunks are discarded. */
  ghost predicate OnTrack(len: nat, saved: nat, c: Chunk, discard: bool) {
    Floor(len, c) <= saved <= len && (discard ==> Aligned(saved, c))
  }

  // ---------------------------------------------------------------- trackers

  datatype NewRequest = NewRequest(
    reqId: string, promptTokenIds: seq<Token>, blockIds: seq<nat>, numComputedTokens: nat)

  datatype CachedRequest = CachedRequest(reqId: string, newTokenIds: seq<Token>, newBlockIds: seq<nat>)

  /** The tokens of a new request that are to be computed in its first step. */
  function FirstTokens(request: NewRequest, numTokensToCompute: nat): seq<Token> {
    request.promptTokenIds[..Min(numTokensToCompute, |request.promptTokenIds|)]
  }

  /** What is known of a request: its tokens so far and its blocks. */
  datatype Known = Known(tokens: seq<Token>, blocks: seq<nat>)

  /** What one scheduling step is told. */
  datatype Step = Step(finishedReqIds: seq<string>, newReqs: seq<NewRequest>, numScheduledTokens: map<string, nat>,
      cachedReqs: seq<CachedRequest>)
  {
    /** The ids of new requests are distinct and scheduled, and only running or new requests are continued. */
    ghost predicate Ok(running: set<string>) {
      && (forall i :: 0 <= i < |newReqs| ==> newReqs[i].reqId in numScheduledTokens)
      && (forall i, j :: 0 <= i < j < |newReqs| ==> newReqs[i].reqId != newReqs[j].reqId)
      && forall r :: r in cachedReqs ==>
           r.reqId in NewIds(newReqs, |newReqs|) || (r.reqId in running && r.reqId !in finishedReqIds)
    }
  }

  ghost function NewIds(requests: seq<NewRequest>, n: nat): set<string>
    requires n <= |requests|
  {
    if n == 0 then {} else NewIds(requests, n - 1) + {requests[n - 1].reqId}
  }

  /** After the first n new requests: each is known by its first tokens and its blocks. */
  ghost function WithNewOnes(known: map<string, Known>, newReqs: seq<NewRequest>, scheduled: map<string, nat>, n: nat)
    : map<string, Known>
    requires n <= |newReqs| && forall i :: 0 <= i < |newReqs| ==> newReqs[i].reqId in scheduled
  {
    if n == 0 then known
    else
      var r := newReqs[n - 1];
      WithNewOnes(known, newReqs, scheduled, n - 1)[r.reqId :=
        Known(FirstTokens(r, r.numComputedTokens + scheduled[r.reqId]), r.blockIds)]
  }

  function More(k: Known, r: CachedRequest): Known { Known(k.tokens + r.newTokenIds, k.blocks + r.newBlockIds) }

  /** After the first n continued requests: each has its new tokens and blocks appended. */
  ghost function WithMore(known: map<string, Known>, cachedReqs: seq<CachedRequest>, n: nat): map<string, Known>
    requires n <= |cachedReqs|
  {
    if n == 0 then known
    else
      var m, r := WithMore(known, cachedReqs, n - 1), cachedReqs[n - 1];
      if r.reqId in m then m[r.reqId := More(m[r.reqId], r)] else m
  }

  /** What is known of all requests after a step. */
  ghost function After(known: map<string, Known>, s: Step): map<string, Known>
    requires forall i :: 0 <= i < |s.newReqs| ==> s.newReqs[i].reqId in s.numScheduledTokens
  {
    var left := known - set id | id in s.finishedReqIds;
    WithMore(WithNewOnes(left, s.newReqs, s.numScheduledTokens, |s.newReqs|), s.cachedReqs, |s.cachedReqs|)
  }

  /** What the first n continued requests bring for one request, in order. */
  ghost function Brought(cachedReqs: seq<CachedRequest>, n: nat, id: string): Known
    requires n <= |cachedReqs|
  {
    if n == 0 then Known([], [])
    else if cachedReqs[n - 1].reqId == id then More(Brought(cachedReqs, n - 1, id), cachedReqs[n - 1])
    else Brought(cachedReqs, n - 1, id)
  }

  lemma {:induction false} BroughtIsAppended(known: map<string, Known>, cachedReqs: seq<CachedRequest>, n: nat,
      id: string)
    requires n <= |cachedReqs|
    ensures id in WithMore(known, cachedReqs, n) <==> id in known
    ensures var b := Brought(cachedReqs, n, id);
            id in known ==>
              WithMore(known, cachedReqs, n)[id] == Known(known[id].tokens + b.tokens, known[id].blocks + b.blocks)
  {
    if n == 0 {
      assert id in known ==> known[id].tokens + [] == known[id].tokens && known[id].blocks + [] == known[id].blocks;
    } else {
      BroughtIsAppended(known, cachedReqs, n - 1, id);
    }
  }

  lemma {:induction false} OthersAreKept(known: map<string, Known>, newReqs: seq<NewRequest>,
      scheduled: map<string, nat>, n: nat, id: string)
    requires n <= |newReqs| && forall i :: 0 <= i < |newReqs| ==> newReqs[i].reqId in scheduled
    requires forall i :: 0 <= i < n ==> newReqs[i].reqId != id
    ensures var after := WithNewOnes(known, newReqs, scheduled, n);
            (id in after <==> id in known) && (id in known ==> after[id] == known[id])
  {
    if n > 0 { OthersAreKept(known, newReqs, scheduled, n - 1, id); }
  }

  lemma {:induction false} NewOneIsKnown(known: map<string, Known>, newReqs: seq<NewRequest>,
      scheduled: map<string, nat>, n: nat, i: nat)
    requires i < n <= |newReqs| && forall i :: 0 <= i < |newReqs| ==> newReqs[i].reqId in scheduled
    requires forall i, j :: 0 <= i < j < |newReqs| ==> newReqs[i].reqId != newReqs[j].reqId
    ensures var r, after := newReqs[i], WithNewOnes(known, newReqs, scheduled, n);
            && r.reqId in after
            && after[r.reqId] == Known(FirstTokens(r, r.numComputedTokens + scheduled[r.reqId]), r.blockIds)
  {
    if i < n - 1 { NewOneIsKnown(known, newReqs, scheduled, n - 1, i); }
  }

  /** A new request is known by the first computed and scheduled tokens of its prompt and by its blocks, followed by
      what the same step continues it with. */
  lemma NewRequestTokens(known: map<string, Known>, s: Step, i: nat)
    requires s.Ok(known.Keys) && i < |s.newReqs|
    ensures var r := s.newReqs[i];
            var n := r.numComputedTokens + s.numScheduledTokens[r.reqId];
            var b := Brought(s.cachedReqs, |s.cachedReqs|, r.reqId);
            && r.reqId in After(known, s)
            && After(known, s)[r.reqId].blocks == r.blockIds + b.blocks
            && After(known, s)[r.reqId].tokens ==
               (if n <= |r.promptTokenIds| then r.promptTokenIds[..n] else r.promptTokenIds) + b.tokens
  {
    var left, r := known - (set id | id in s.finishedReqIds), s.newReqs[i];
    NewOneIsKnown(left, s.newReqs, s.numScheduledTokens, |s.newReqs|, i);
    BroughtIsAppended(WithNewOnes(left, s.newReqs, s.numScheduledTokens, |s.newReqs|), s.cachedReqs, |s.cachedReqs|,
        r.reqId);
    assert r.promptTokenIds[..|r.promptTokenIds|] == r.promptTokenIds;
  }

  /** Any other request is still known exactly if it was and has not finished, by its earlier tokens and blocks
      followed by what the step continues it with. */
  lemma RunningRequestTokens(known: map<string, Known>, s: Step, id: string)
    requires s.Ok(known.Keys) && forall i :: 0 <= i < |s.newReqs| ==> s.newReqs[i].reqId != id
    ensures id in After(known, s) <==> id in known && id !in s.finishedReqIds
    ensures var b := Brought(s.cachedReqs, |s.cachedReqs|, id);
            id in After(known, s) ==>
              After(known, s)[id] == Known(known[id].tokens + b.tokens, known[id].blocks + b.blocks)
  {
    var left := known - set id | id in s.finishedReqIds;
    OthersAreKept(left, s.newReqs, s.numScheduledTokens, |s.newReqs|, id);
    BroughtIsAppended(WithNewOnes(left, s.newReqs, s.numScheduledTokens, |s.newReqs|), s.cachedReqs, |s.cachedReqs|,
        id);
  }

  /** Each of the first n steps is in order, given the requests running by then. */
  ghost predicate Legal(known: map<string, Known>, steps: seq<Step>, n: nat)
    requires n <= |steps|
    decreases n, 0
  {
    n > 0 ==> Legal(known, steps, n - 1) && steps[n - 1].Ok(AfterAll(known, steps, n - 1).Keys)
  }

  /** What is known of all requests after the first n steps. */
  ghost function AfterAll(known: map<string, Known>, steps: seq<Step>, n: nat): map<string, Known>
    requires n <= |steps| && Legal(known, steps, n)
    decreases n, 1
  {
    if n == 0 then known else After(AfterAll(known, steps, n - 1), steps[n - 1])
  }

  lemma {:induction false} LegalSoFar(known: map<string, Known>, steps: seq<Step>, n: nat, i: nat)
    requires i <= n <= |steps| && Legal(known, steps, n)
    ensures Legal(known, steps, i)
  {
    if i < n { LegalSoFar(known, steps, n - 1, i); }
  }

  class RequestTracker {
    const reqId: string
    var tokenIds: seq<Token>
    var allocatedBlockIds: seq<nat>
    var numSavedTokens: nat
    /** The ranges the worker is told to store, step after step. */
    ghost var ranges: seq<Range>

    constructor FromNewRequest(request: NewRequest, numTokensToCompute: nat)
      ensures reqId == request.reqId && allocatedBlockIds == request.blockIds && numSavedTokens == 0 && ranges == []
      ensures tokenIds == FirstTokens(request, numTokensToCompute)
    {
      reqId := request.reqId;
      tokenIds := if numTokensToCompute <= |request.promptTokenIds| then request.promptTokenIds[..numTokensToCompute]
                  else request.promptTokenIds;
      allocatedBlockIds, numSavedTokens, ranges := request.blockIds, 0, [];
    }

    /** What holds before a step's meta is made: earlier ranges are chained and within the tokens. */
    ghost predicate Ready(c: Chunk, discard: bool)
      reads this
    {
      Chained(ranges, numSavedTokens, c) && numSavedTokens <= |tokenIds| && (discard ==> Aligned(numSavedTokens, c))
    }

    /** What holds after each step while saving is enabled. */
    ghost predicate Valid(c: Chunk, discard: bool)
      reads this
    {
      Chained(ranges, numSavedTokens, c) && OnTrack(|tokenIds|, numSavedTokens, c, discard)
    }

    method Update(request: CachedRequest)
      modifies this`tokenIds, this`allocatedBlockIds
      ensures tokenIds == old(tokenIds) + request.newTokenIds
      ensures allocatedBlockIds == old(allocatedBlockIds) + request.newBlockIds
    {
      tokenIds := tokenIds + request.newTokenIds;
      allocatedBlockIds := allocatedBlockIds + request.newBlockIds;
    }
  }

  function Min(a: nat, b: nat): nat { if a <= b then a else b }

  /** The end of the chunk that position n is in. */
  function ChunkBoundary(n: nat, c: Chunk): nat { CeilDiv(n + 1, c) * c }

  lemma BoundaryIsNext(n: nat, c: Chunk)
    ensures ChunkBoundary(n, c) == Floor(n, c) + c
  {
    CeilDivBounds(n + 1, c);
    var q, f := CeilDiv(n + 1, c), Floor(n, c);
    RemainderUnique(q * c, c, q, 0);
    NextMultiple(f, c);
    if q * c < f + c { ApartByPeriod(q * c, f + c, c); }
    if f + c < q * c { ApartByPeriod(f + c, q * c, c); }
  }

  /** A load that the scheduler has cleared. */
  function Loadable(loadSpec: Option<LoadSpec>): Option<LoadSpec> {
    if loadSpec.Some? && loadSpec.value.canLoad then loadSpec else None
  }

  /** Decides what to save of a request at this step, and describes it to the worker. */
  method FromRequestTracker(tracker: RequestTracker, blockSize: nat, c: Chunk, loadSpec: Option<LoadSpec>, skip: bool,
      discard: bool)
    returns (r: Option<ReqMeta>)
    requires tracker.Ready(c, discard) && 0 < blockSize
    modifies tracker`numSavedTokens, tracker`ranges
    ensures skip ==> tracker.Ready(c, discard) && tracker.numSavedTokens == old(tracker.numSavedTokens)
    ensures !skip ==> tracker.Valid(c, discard) && old(tracker.numSavedTokens) <= tracker.numSavedTokens
    ensures var saved := old(tracker.numSavedTokens);
            r.None? <==> loadSpec.None? && (skip || (0 < saved && |tracker.tokenIds| < ChunkBoundary(saved, c)))
    ensures tracker.ranges == old(tracker.ranges) + if r.Some? then StoreOf(r.value, c) else []
    ensures r.Some? ==> r.value.reqId == tracker.reqId && r.value.tokenIds <= tracker.tokenIds
    ensures r.Some? ==> r.value.saveSpec.skipLeadingTokens == old(tracker.numSavedTokens)
    ensures var saved := old(tracker.numSavedTokens);
            r.Some? ==> (r.value.saveSpec.canSave <==>
              !skip && !(0 < saved && |tracker.tokenIds| < ChunkBoundary(saved, c)))
    ensures r.Some? ==> |r.value.tokenIds| == if discard then Floor(|tracker.tokenIds|, c) else |tracker.tokenIds|
    ensures r.Some? && r.value.saveSpec.canSave ==> |r.value.tokenIds| == tracker.numSavedTokens
    ensures r.Some? ==> r.value.slotMapping <= BlockSlots(tracker.allocatedBlockIds, blockSize)
    ensures r.Some? ==> |r.value.slotMapping| == Min(|r.value.tokenIds|, |tracker.allocatedBlockIds| * blockSize)
    ensures r.Some? ==> r.value.loadSpec == Loadable(loadSpec)
  {
    hide Chained, OnTrack, Aligned, ChunkBoundary, BlockSlots, Floor;
    var len, skipLeadingTokens := |tracker.tokenIds|, tracker.numSavedTokens;
    var chunkBoundary := ChunkBoundary(tracker.numSavedTokens, c);
    var skipSave := skip || (tracker.numSavedTokens > 0 && len < chunkBoundary);
    r := None;
    StepKeeps(len, tracker.numSavedTokens, c, discard);
    if !(skipSave && loadSpec.None?) {
      var numTokensToSave := if discard then Floor(len, c) else len;
      if !skipSave {
        tracker.numSavedTokens := numTokensToSave;
      }
      var slotMapping := SlotMapping(tracker.allocatedBlockIds, blockSize, numTokensToSave);
      r := Some(ReqMeta(tracker.reqId, tracker.tokenIds[..numTokensToSave], slotMapping,
          SaveSpec(skipLeadingTokens, !skipSave),
        if loadSpec.Some? && loadSpec.value.canLoad then loadSpec else None));
      if !skipSave && skipLeadingTokens < numTokensToSave {
        ChainMore(tracker.ranges, skipLeadingTokens, c, numTokensToSave);
      }
      assert tracker.ranges + [] == tracker.ranges;
      tracker.ranges := tracker.ranges + StoreOf(r.value, c);
    }
  }

  /** What the worker stores on account of one meta. */
  ghost function StoreOf(m: ReqMeta, c: Chunk): seq<Range> {
    if !m.saveSpec.canSave || m.saveSpec.skipLeadingTokens == |m.tokenIds| then []
    else [Range(Floor(m.saveSpec.skipLeadingTokens, c), |m.tokenIds|)]
  }

  /** The arithmetic of one step: if it is skipped, no whole chunk is missing; if it is not, saving
      advances to as far as it may. */
  lemma StepKeeps(len: nat, saved: nat, c: Chunk, discard: bool)
    requires saved <= len && (discard ==> Aligned(saved, c))
    ensures saved > 0 && len < ChunkBoundary(saved, c) ==> OnTrack(len, saved, c, discard)
    ensures saved == 0 || len >= ChunkBoundary(saved, c) ==>
              var next := if discard then Floor(len, c) else len;
              saved <= next && OnTrack(len, next, c, discard) && (saved > 0 ==> saved < next)
  {
    BoundaryIsNext(saved, c);
    FloorMonotone(saved, len, c);
    if len < Floor(saved, c) + c {
      FloorUnique(len, c, Floor(saved, c));
    } else {
      NextMultiple(Floor(saved, c), c);
      FloorMonotone(Floor(saved, c) + c, len, c);
      FloorUnique(Floor(saved, c) + c, c, Floor(saved, c) + c);
    }
    if discard { FloorUnique(saved, c, saved); }
  }

  /** Flattens the blocks' slots and keeps as many as there are tokens. */
  method SlotMapping(blocks: seq<nat>, blockSize: nat, n: nat) returns (r: seq<int>)
    ensures r <= BlockSlots(blocks, blockSize) && |r| == Min(n, |blocks| * blockSize)
  {
    r := [];
    for b := 0 to |blocks|
      invariant r == BlockSlots(blocks[..b], blockSize)
    {
      assert blocks[..b + 1][..b] == blocks[..b];
      r := r + seq(blockSize, o => o + blocks[b] * blockSize);
    }
    assert blocks[..|blocks|] == blocks;
    if n <= |r| {
      r := r[..n];
    }
  }

  // ---------------------------------------------------------------- the worker

  /** A call of the engine's store: the tokens, which of them are masked out, and the slots. */
  datatype Store = Store(reqId: string, tokenIds: seq<Token>, mask: seq<bool>, slotMapping: seq<int>, offset: nat)

  /** A store of a meta's tokens over one range: what precedes the range is masked out, and that is whole
      chunks. */
  ghost predicate Carries(s: Store, m: ReqMeta, range: Range, c: Chunk) {
    && s.reqId == m.reqId && s.tokenIds == m.tokenIds && s.slotMapping == m.slotMapping
    && s.offset == range.start <= |s.mask| == |s.tokenIds| == range.end
    && NumFalses(s.mask) == range.start && Aligned(range.start, c)
    && forall i :: 0 <= i < |s.mask| ==> (s.mask[i] <==> range.start <= i)
  }

  /** The stores carry, meta by meta, the ranges announced to the scheduler's trackers. */
  ghost predicate CarryAll(stores: seq<Store>, metas: seq<ReqMeta>, c: Chunk)
    decreases |metas|
  {
    if metas == [] then stores == []
    else
      var init, last := metas[..|metas| - 1], metas[|metas| - 1];
      var ranges := StoreOf(last, c);
      if ranges == [] then CarryAll(stores, init, c)
      else
        && stores != [] && Carries(stores[|stores| - 1], last, ranges[0], c)
        && CarryAll(stores[..|stores| - 1], init, c)
  }

  lemma {:induction false} MaskedCount(mask: seq<bool>, s: nat)
    requires forall i :: 0 <= i < |mask| ==> (mask[i] <==> s <= i)
    ensures NumFalses(mask) == Min(s, |mask|)
  {
    if mask != [] {
      MaskedCount(mask[..|mask| - 1], s);
    }
  }

  /** Stores what the metas of one step ask for. */
  method WaitForSave(requests: seq<ReqMeta>, c: Chunk) returns (stores: seq<Store>)
    requires forall m :: m in requests ==> m.saveSpec.canSave ==>
        m.saveSpec.skipLeadingTokens <= |m.tokenIds| == |m.slotMapping|
    ensures CarryAll(stores, requests, c)
  {
    stores := [];
    for i := 0 to |requests|
      invariant CarryAll(stores, requests[..i], c)
    {
      var request := requests[i];
      assert requests[..i + 1][..i] == requests[..i];
      var skip := request.saveSpec.skipLeadingTokens;
      if request.saveSpec.canSave && skip != |request.tokenIds| {
        skip := Floor(skip, c);
        var mask := seq(|request.tokenIds|, j => skip <= j);
        MaskedCount(mask, skip);
        ghost var before := stores;
        stores := stores + [Store(request.reqId, request.tokenIds, mask, request.slotMapping, skip)];
        assert stores[..|stores| - 1] == before;
      }
    }
    assert requests[..|requests|] == requests;
  }

  // ---------------------------------------------------------------- the scheduler

  /** The ranges that the metas of one step announce for a request. */
  ghost function Announced(id: string, metas: seq<ReqMeta>, c: Chunk): seq<Range> {
    if metas == [] then []
    else
      var init, last := Announced(id, metas[..|metas| - 1], c), metas[|metas| - 1];
      if last.reqId == id then init + StoreOf(last, c) else init
  }

  ghost predicate Told(ranges: map<string, seq<Range>>, base: map<string, seq<Range>>, metas: seq<ReqMeta>, c: Chunk) {
    forall id :: id in ranges ==> id in base && ranges[id] == base[id] + Announced(id, metas, c)
  }

  lemma {:induction false} AnnouncedNothing(id: string, metas: seq<ReqMeta>, c: Chunk)
    requires forall m :: m in metas ==> m.reqId != id
    ensures Announced(id, metas, c) == []
  {
    if metas != [] {
      assert metas[|metas| - 1] in metas;
      AnnouncedNothing(id, metas[..|metas| - 1], c);
    }
  }

  lemma AnnouncedMore(metas: seq<ReqMeta>, m: ReqMeta, c: Chunk, id: string)
    ensures Announced(id, metas + [m], c) == if m.reqId == id then Announced(id, metas, c) + StoreOf(m, c)
        else Announced(id, metas, c)
  {
    assert (metas + [m])[..|metas|] == metas;
  }

  class MTDSConnectorV1Impl {
    const blockSize: Chunk
    const chunkSize: Chunk
    const discardPartialChunks: bool
    /** Set for a connector that only consumes KV. */
    const forceSkipSave: bool
    var requestTrackers: map<string, RequestTracker>
    var loadSpecs: map<string, LoadSpec>

    constructor (blockSize: Chunk, chunkSize: Chunk, discardPartialChunks: bool, forceSkipSave: bool)
      ensures Valid() && requestTrackers == map[]
      ensures this.blockSize == blockSize && this.chunkSize == chunkSize
      ensures this.discardPartialChunks == discardPartialChunks && this.forceSkipSave == forceSkipSave
    {
      this.blockSize, this.chunkSize := blockSize, chunkSize;
      this.discardPartialChunks, this.forceSkipSave := discardPartialChunks, forceSkipSave;
      requestTrackers, loadSpecs := map[], map[];
    }

    ghost predicate TrackerOk(t: RequestTracker)
      reads t
    {
      t.Ready(chunkSize, discardPartialChunks) && (!forceSkipSave ==> t.Valid(chunkSize, discardPartialChunks))
    }

    /** Each request has its own tracker, which is on track unless saving is switched off. */
    ghost predicate Valid()
      reads this, requestTrackers.Values
    {
      ValidIn(requestTrackers)
    }

    ghost predicate ValidIn(trackers: map<string, RequestTracker>)
      reads trackers.Values
    {
      forall id :: id in trackers ==> trackers[id].reqId == id && TrackerOk(trackers[id])
    }

    /** Every tracker has announced what it had before this step and then what the metas so far say. */
    ghost predicate Tells(base: map<string, seq<Range>>, metas: seq<ReqMeta>)
      reads this, requestTrackers.Values
    {
      TellsIn(requestTrackers, base, metas)
    }

    ghost predicate TellsIn(trackers: map<string, RequestTracker>, base: map<string, seq<Range>>, metas: seq<ReqMeta>)
      reads trackers.Values
    {
      forall id :: id in trackers ==> id in base && trackers[id].ranges == base[id] + Announced(id, metas, chunkSize)
    }

    /** A meta carries the tokens known of its request, cut to whole chunks if the rest is held back, and the slots of
        their blocks; a connector that only consumes never asks for a save. */
    ghost predicate MadeFor(m: ReqMeta, k: Known) {
      && m.tokenIds == k.tokens[..if discardPartialChunks then Floor(|k.tokens|, chunkSize) else |k.tokens|]
      && m.slotMapping <= BlockSlots(k.blocks, blockSize)
      && |m.slotMapping| == Min(|m.tokenIds|, |k.blocks| * blockSize)
      && (forceSkipSave ==> !m.saveSpec.canSave)
    }

    /** Each meta was made for what was known of its request at some moment of the step. */
    ghost predicate AllMade(metas: seq<ReqMeta>, ks: seq<Known>, known: map<string, Known>) {
      |metas| == |ks| && forall i :: 0 <= i < |metas| ==>
        && metas[i].reqId in known && MadeFor(metas[i], ks[i])
        && ks[i].tokens <= known[metas[i].reqId].tokens && ks[i].blocks <= known[metas[i].reqId].blocks
    }

    lemma MadeMore(meta: seq<ReqMeta>, ks: seq<Known>, known: map<string, Known>, r: seq<ReqMeta>, id: string,
        k: Known)
      requires AllMade(meta, ks, known)
      requires r == meta || (|r| == |meta| + 1 && meta <= r && r[|meta|].reqId == id && MadeFor(r[|meta|], k))
      requires (forall m :: m in meta ==> m.reqId != id)
               || (id in known && known[id].tokens <= k.tokens && known[id].blocks <= k.blocks)
      ensures AllMade(r, if r == meta then ks else ks + [k], known[id := k])
    {
      hide MadeFor;
    }

    /** The tracker's step, appended to the metas. */
    method Describe(tracker: RequestTracker, loadSpec: Option<LoadSpec>, meta: seq<ReqMeta>) returns (r: seq<ReqMeta>)
      requires tracker.Ready(chunkSize, discardPartialChunks)
      modifies tracker`numSavedTokens, tracker`ranges
      ensures TrackerOk(tracker) && old(tracker.numSavedTokens) <= tracker.numSavedTokens
      ensures r == meta || (|r| == |meta| + 1 && meta <= r && r[|meta|].reqId == tracker.reqId)
      ensures tracker.ranges == old(tracker.ranges) + if r == meta then [] else StoreOf(r[|meta|], chunkSize)
      ensures loadSpec.Some? ==> |r| == |meta| + 1
      ensures |r| == |meta| + 1 ==> r[|meta|].loadSpec == Loadable(loadSpec) && r[|meta|].tokenIds <= tracker.tokenIds
      ensures |r| == |meta| + 1 ==> MadeFor(r[|meta|], Known(tracker.tokenIds, tracker.allocatedBlockIds))
      ensures forceSkipSave ==> tracker.numSavedTokens == old(tracker.numSavedTokens)
    {
      hide Chained, Floor, Aligned, ChunkBoundary, BlockSlots;
      var m := FromRequestTracker(tracker, blockSize, chunkSize, loadSpec, forceSkipSave, discardPartialChunks);
      r := if m.Some? then meta + [m.value] else meta;
    }

    /** A new request: it gets a tracker for the tokens to compute, and the load pending for it, if any, goes
        into its meta once the scheduler has cleared it. */
    method AddNew(request: NewRequest, numScheduledTokens: nat, meta: seq<ReqMeta>, ghost base: map<string, seq<Range>>,
        ghost ks: seq<Known>) returns (r: seq<ReqMeta>, ghost ks': seq<Known>)
      requires AllMade(meta, ks, KnownNow())
      requires Valid() && Tells(base, meta) && forall m :: m in meta ==> m.reqId != request.reqId
      modifies this`requestTrackers, this`loadSpecs
      ensures Valid() && Tells(base[request.reqId := []], r) && meta <= r
      ensures request.reqId in requestTrackers && fresh(requestTrackers[request.reqId])
      ensures requestTrackers == old(requestTrackers)[request.reqId := requestTrackers[request.reqId]]
      ensures loadSpecs == old(loadSpecs) - {request.reqId}
      ensures var pending := if request.reqId in old(loadSpecs) then Some(old(loadSpecs)[request.reqId]) else None;
              && (pending.Some? ==> |r| == |meta| + 1)
              && (r == meta || (|r| == |meta| + 1 && r[|meta|].reqId == request.reqId))
              && (r != meta ==> r[|meta|].loadSpec == Loadable(pending) && r[|meta|].tokenIds <= request.promptTokenIds)
      ensures forall m :: m in r ==> m in meta || m.reqId == request.reqId
      ensures KnownNow() == old(KnownNow())[request.reqId :=
          Known(FirstTokens(request, request.numComputedTokens + numScheduledTokens), request.blockIds)]
      ensures AllMade(r, ks', KnownNow())
    {
      hide TrackerOk, Loadable, StoreOf, ValidIn, TellsIn, MadeFor, AllMade, FirstTokens, Announced;
      ghost var known := KnownNow();
      var loadSpec := if request.reqId in loadSpecs then Some(loadSpecs[request.reqId]) else None;
      loadSpecs := loadSpecs - {request.reqId};
      var tracker;
      tracker, r := DescribeNew(request, request.numComputedTokens + numScheduledTokens, loadSpec, meta);
      WithNew(requestTrackers, tracker, base, meta, r);
      ghost var k := Known(tracker.tokenIds, tracker.allocatedBlockIds);
      MadeMore(meta, ks, known, r, request.reqId, k);
      ks' := if r == meta then ks else ks + [k];
      requestTrackers := requestTrackers[request.reqId := tracker];
      assert KnownNow() == known[request.reqId := k];
    }

    lemma WithNew(trackers: map<string, RequestTracker>, t: RequestTracker, base: map<string, seq<Range>>,
        meta: seq<ReqMeta>, r: seq<ReqMeta>)
      requires ValidIn(trackers) && TellsIn(trackers, base, meta) && TrackerOk(t)
      requires forall m :: m in meta ==> m.reqId != t.reqId
      requires r == meta || (|r| == |meta| + 1 && meta <= r && r[|meta|].reqId == t.reqId)
      requires t.ranges == if r == meta then [] else StoreOf(r[|meta|], chunkSize)
      ensures ValidIn(trackers[t.reqId := t]) && TellsIn(trackers[t.reqId := t], base[t.reqId := []], r)
      ensures forall m :: m in r ==> m in meta || m.reqId == t.reqId
    {
      hide TrackerOk, StoreOf, Announced;
      AnnouncedNothing(t.reqId, meta, chunkSize);
      AnnouncedStep(meta, r, t.reqId);
    }

    method DescribeNew(request: NewRequest, numTokensToCompute: nat, loadSpec: Option<LoadSpec>, meta: seq<ReqMeta>)
      returns (tracker: RequestTracker, r: seq<ReqMeta>)
      ensures fresh(tracker) && tracker.reqId == request.reqId && TrackerOk(tracker)
      ensures r == meta || (|r| == |meta| + 1 && meta <= r && r[|meta|].reqId == request.reqId)
      ensures tracker.ranges == if r == meta then [] else StoreOf(r[|meta|], chunkSize)
      ensures loadSpec.Some? ==> |r| == |meta| + 1
      ensures |r| == |meta| + 1 ==>
                r[|meta|].loadSpec == Loadable(loadSpec) && r[|meta|].tokenIds <= request.promptTokenIds
      ensures tracker.tokenIds == FirstTokens(request, numTokensToCompute)
      ensures tracker.allocatedBlockIds == request.blockIds
      ensures |r| == |meta| + 1 ==> MadeFor(r[|meta|], Known(tracker.tokenIds, tracker.allocatedBlockIds))
    {
      hide Chained, OnTrack, Floor, Aligned, Loadable, StoreOf;
      tracker := new RequestTracker.FromNewRequest(request, numTokensToCompute);
      FreshTracker(tracker);
      r := Describe(tracker, loadSpec, meta);
    }

    lemma FreshTracker(t: RequestTracker)
      requires t.ranges == [] && t.numSavedTokens == 0
      ensures t.Ready(chunkSize, discardPartialChunks)
    {
      ZeroIsMultiple(chunkSize);
    }

    /** What one more meta adds, for every request at once. */
    lemma AnnouncedStep(meta: seq<ReqMeta>, r: seq<ReqMeta>, id: string)
      requires r == meta || (|r| == |meta| + 1 && meta <= r && r[|meta|].reqId == id)
      ensures Announced(id, r, chunkSize) == Announced(id, meta, chunkSize) + if r == meta then []
          else StoreOf(r[|meta|], chunkSize)
      ensures forall x :: x != id ==> Announced(x, r, chunkSize) == Announced(x, meta, chunkSize)
    {
      if r != meta {
        assert r == meta + [r[|meta|]];
        var m := r[|meta|];
        forall x
          ensures Announced(x, r, chunkSize) ==
                  if m.reqId == x then Announced(x, meta, chunkSize) + StoreOf(m, chunkSize)
                  else Announced(x, meta, chunkSize)
        {
          AnnouncedMore(meta, m, chunkSize, x);
        }
      }
    }

    method DescribeCached(tracker: RequestTracker, request: CachedRequest, meta: seq<ReqMeta>) returns (r: seq<ReqMeta>)
      requires TrackerOk(tracker)
      modifies tracker
      ensures TrackerOk(tracker) && old(tracker.numSavedTokens) <= tracker.numSavedTokens
      ensures tracker.tokenIds == old(tracker.tokenIds) + request.newTokenIds
      ensures tracker.allocatedBlockIds == old(tracker.allocatedBlockIds) + request.newBlockIds
      ensures r == meta || (|r| == |meta| + 1 && meta <= r && r[|meta|].reqId == tracker.reqId)
      ensures |r| == |meta| + 1 ==>
                r[|meta|].loadSpec.None? && MadeFor(r[|meta|], Known(tracker.tokenIds, tracker.allocatedBlockIds))
      ensures tracker.ranges == old(tracker.ranges) + if r == meta then [] else StoreOf(r[|meta|], chunkSize)
    {
      hide Chained, Floor, Aligned, MadeFor, StoreOf, OnTrack;
      tracker.Update(request);
      r := Describe(tracker, None, meta);
    }

    /** A running request: its tracker takes in the new tokens and blocks. */
    method AddCached(request: CachedRequest, meta: seq<ReqMeta>, ghost base: map<string, seq<Range>>,
        ghost ks: seq<Known>) returns (r: seq<ReqMeta>, ghost ks': seq<Known>)
      requires AllMade(meta, ks, KnownNow())
      requires Valid() && Tells(base, meta) && request.reqId in requestTrackers
      modifies requestTrackers[request.reqId]
      ensures Valid() && Tells(base, r) && meta <= r
      ensures old(requestTrackers[request.reqId].numSavedTokens) <= requestTrackers[request.reqId].numSavedTokens
      ensures KnownNow() == old(KnownNow())[request.reqId := More(old(KnownNow())[request.reqId], request)]
      ensures AllMade(r, ks', KnownNow()) && (forall m :: m in r ==> m in meta || m.loadSpec.None?)
    {
      hide TrackerOk, MadeFor, AllMade, Announced, StoreOf, TellsIn;
      var tracker := requestTrackers[request.reqId];
      ghost var known, ranges := KnownNow(), RangesNow();
      TellsNow(base, meta);
      r := DescribeCached(tracker, request, meta);
      ghost var more := if r == meta then [] else StoreOf(r[|meta|], chunkSize);
      assert RangesNow() == ranges[request.reqId := ranges[request.reqId] + more];
      TellsMore(ranges, base, meta, r, request.reqId);
      ghost var k := Known(tracker.tokenIds, tracker.allocatedBlockIds);
      MadeMore(meta, ks, known, r, request.reqId, k);
      ks' := if r == meta then ks else ks + [k];
      assert KnownNow() == known[request.reqId := k];
    }

    lemma TellsNow(base: map<string, seq<Range>>, meta: seq<ReqMeta>)
      ensures Tells(base, meta) <==> Told(RangesNow(), base, meta, chunkSize)
    {
    }

    /** One tracker has announced one meta more. */
    lemma TellsMore(was: map<string, seq<Range>>, base: map<string, seq<Range>>, meta: seq<ReqMeta>, r: seq<ReqMeta>,
        id: string)
      requires Told(was, base, meta, chunkSize) && id in was
      requires r == meta || (|r| == |meta| + 1 && meta <= r && r[|meta|].reqId == id)
      requires RangesNow() == was[id := was[id] + if r == meta then [] else StoreOf(r[|meta|], chunkSize)]
      ensures Tells(base, r)
    {
      hide StoreOf, Announced, TellsIn;
      AnnouncedStep(meta, r, id);
      TellsNow(base, r);
    }

    ghost function KnownNow(): map<string, Known>
      reads this, requestTrackers.Values
    {
      map id | id in requestTrackers :: Known(requestTrackers[id].tokenIds, requestTrackers[id].allocatedBlockIds)
    }

    lemma KnownKeys()
      ensures KnownNow().Keys == requestTrackers.Keys
    {
    }

    ghost function RangesNow(): map<string, seq<Range>>
      reads this, requestTrackers.Values
    {
      map id | id in requestTrackers :: requestTrackers[id].ranges
    }

    /** Forgets finished requests. */
    method Finish(finishedReqIds: seq<string>)
      requires Valid()
      modifies this`requestTrackers
      ensures Valid()
      ensures forall id :: id in requestTrackers <==> id in old(requestTrackers) && id !in finishedReqIds
      ensures forall id :: id in requestTrackers ==> requestTrackers[id] == old(requestTrackers)[id]
      ensures KnownNow() == old(KnownNow()) - set id | id in finishedReqIds
    {
      hide TrackerOk;
      for i := 0 to |finishedReqIds|
        invariant Valid()
        invariant forall id :: id in requestTrackers <==> id in old(requestTrackers) && id !in finishedReqIds[..i]
        invariant forall id :: id in requestTrackers ==> requestTrackers[id] == old(requestTrackers)[id]
      {
        assert finishedReqIds[..i + 1] == finishedReqIds[..i] + [finishedReqIds[i]];
        requestTrackers := requestTrackers - {finishedReqIds[i]};
      }
    }

    /** The given ids have new trackers, which have announced nothing yet; the others are as before. */
    static ghost predicate Extended(now: map<string, RequestTracker>, was: map<string, RequestTracker>,
        base: map<string, seq<Range>>,
                                    ranges: map<string, seq<Range>>, ids: set<string>) {
      && now.Keys == was.Keys + ids && ranges.Keys == was.Keys
      && (forall id :: id in now && id !in ids ==> now[id] == was[id])
      && (forall id :: id in now ==> id in base && base[id] == if id in ids then [] else ranges[id])
    }

    static lemma ExtendedStep(now: map<string, RequestTracker>, was: map<string, RequestTracker>,
                              base: map<string, seq<Range>>,
                              ranges: map<string, seq<Range>>, ids: set<string>, id: string, t: RequestTracker)
      requires Extended(now, was, base, ranges, ids)
      ensures Extended(now[id := t], was, base[id := []], ranges, ids + {id})
    {
    }

    /** New requests, one tracker each. */
    method AddAllNew(newReqs: seq<NewRequest>, numScheduledTokens: map<string, nat>)
        returns (meta: seq<ReqMeta>, ghost base: map<string, seq<Range>>, ghost ks: seq<Known>)
      requires Valid() && forall i :: 0 <= i < |newReqs| ==> newReqs[i].reqId in numScheduledTokens
      requires forall i, j :: 0 <= i < j < |newReqs| ==> newReqs[i].reqId != newReqs[j].reqId
      modifies this`requestTrackers, this`loadSpecs
      ensures Valid() && Tells(base, meta)
      ensures Extended(requestTrackers, old(requestTrackers), base, old(RangesNow()), NewIds(newReqs, |newReqs|))
      ensures forall id :: id in NewIds(newReqs, |newReqs|) && id in requestTrackers ==> fresh(requestTrackers[id])
      ensures KnownNow() == WithNewOnes(old(KnownNow()), newReqs, numScheduledTokens, |newReqs|)
      ensures AllMade(meta, ks, KnownNow())
      ensures loadSpecs == old(loadSpecs) - NewIds(newReqs, |newReqs|)
      ensures Loads(meta, old(loadSpecs), NewIds(newReqs, |newReqs|))
    {
      hide TrackerOk, Announced, Extended, Valid, Tells, AllMade, KnownNow, Loads, Loadable, FirstTokens;
      meta, base, ks := [], RangesNow(), [];
      NothingTold();
      NothingLoaded(loadSpecs);
      ghost var known := KnownNow();
      for i := 0 to |newReqs|
        invariant Valid() && Tells(base, meta)
        invariant Extended(requestTrackers, old(requestTrackers), base, old(RangesNow()), NewIds(newReqs, i))
        invariant forall id :: id in NewIds(newReqs, i) && id in requestTrackers ==> fresh(requestTrackers[id])
        invariant forall m :: m in meta ==> m.reqId in NewIds(newReqs, i)
        invariant AllMade(meta, ks, KnownNow()) && KnownNow() == WithNewOnes(known, newReqs, numScheduledTokens, i)
        invariant loadSpecs == old(loadSpecs) - NewIds(newReqs, i) && Loads(meta, old(loadSpecs), NewIds(newReqs, i))
      {
        NewId(newReqs, i, i);
        ghost var trackers, before, pending := requestTrackers, meta, loadSpecs;
        meta, ks := AddNew(newReqs[i], numScheduledTokens[newReqs[i].reqId], meta, base, ks);
        LoadsMore(before, old(loadSpecs), NewIds(newReqs, i), meta, newReqs[i].reqId, pending);
        ExtendedStep(trackers, old(requestTrackers), base, old(RangesNow()), NewIds(newReqs, i), newReqs[i].reqId,
            requestTrackers[newReqs[i].reqId]);
        base := base[newReqs[i].reqId := []];
      }
    }

    /** The loads that were pending for the given requests, and no others, are in the metas, as far as they have been
        cleared. */
    static ghost predicate Loads(metas: seq<ReqMeta>, pending: map<string, LoadSpec>, ids: set<string>) {
      && (forall m :: m in metas && m.loadSpec.Some? ==>
            m.reqId in ids && m.reqId in pending && m.loadSpec == Loadable(Some(pending[m.reqId])))
      && forall id :: id in ids && id in pending ==>
           exists m :: m in metas && m.reqId == id && m.loadSpec == Loadable(Some(pending[id]))
    }

    static lemma NothingLoaded(pending: map<string, LoadSpec>)
      ensures Loads([], pending, {}) && pending - {} == pending
    {
    }

    static lemma LoadsMore(meta: seq<ReqMeta>, pending: map<string, LoadSpec>, ids: set<string>, r: seq<ReqMeta>,
        id: string, left: map<string, LoadSpec>)
      requires Loads(meta, pending, ids) && left == pending - ids && id !in ids
      requires r == meta || (|r| == |meta| + 1 && meta <= r && r[|meta|].reqId == id)
      requires id in left ==> |r| == |meta| + 1
      requires r != meta ==> r[|meta|].loadSpec == Loadable(if id in left then Some(left[id]) else None)
      ensures Loads(r, pending, ids + {id}) && left - {id} == pending - (ids + {id})
    {
      hide Loadable;
      forall x | x in ids + {id} && x in pending
        ensures exists m :: m in r && m.reqId == x && m.loadSpec == Loadable(Some(pending[x]))
      {
        if x == id {
          assert r[|meta|] in r;
        } else {
          var m :| m in meta && m.reqId == x && m.loadSpec == Loadable(Some(pending[x]));
          assert m in r;
        }
      }
      forall m | m in r && m.loadSpec.Some?
        ensures m.reqId in ids + {id} && m.reqId in pending && m.loadSpec == Loadable(Some(pending[m.reqId]))
      {
        if m !in meta { assert m == r[|meta|]; }
        NothingToLoad();
      }
    }

    static lemma NothingToLoad()
      ensures Loadable(None) == None
    {
    }

    /** Requests that are continued bring no load. */
    static lemma LoadsStay(meta: seq<ReqMeta>, pending: map<string, LoadSpec>, ids: set<string>, r: seq<ReqMeta>)
      requires Loads(meta, pending, ids) && meta <= r && forall m :: m in r ==> m in meta || m.loadSpec.None?
      ensures Loads(r, pending, ids)
    {
      forall id | id in ids && id in pending
        ensures exists m :: m in r && m.reqId == id && m.loadSpec == Loadable(Some(pending[id]))
      {
        var m :| m in meta && m.reqId == id && m.loadSpec == Loadable(Some(pending[id]));
        assert m in r;
      }
    }

    lemma NothingTold()
      ensures Tells(RangesNow(), []) && Extended(requestTrackers, requestTrackers, RangesNow(), RangesNow(), {})
      ensures AllMade([], [], KnownNow())
    {
    }

    static lemma {:induction false} NewId(newReqs: seq<NewRequest>, n: nat, i: nat)
      requires n <= i < |newReqs| && forall i, j :: 0 <= i < j < |newReqs| ==> newReqs[i].reqId != newReqs[j].reqId
      ensures newReqs[i].reqId !in NewIds(newReqs, n)
    {
      if n > 0 { NewId(newReqs, n - 1, i); }
    }

    /** Running requests, each by its own tracker. */
    method AddAllCached(cachedReqs: seq<CachedRequest>, meta: seq<ReqMeta>, ghost base: map<string, seq<Range>>,
        ghost ks: seq<Known>) returns (r: seq<ReqMeta>, ghost ks': seq<Known>)
      requires AllMade(meta, ks, KnownNow())
      requires Valid() && Tells(base, meta) && forall i :: 0 <= i < |cachedReqs| ==>
          cachedReqs[i].reqId in requestTrackers
      modifies requestTrackers.Values
      ensures Valid() && Tells(base, r)
      ensures forall id :: id in requestTrackers ==>
          old(requestTrackers[id].numSavedTokens) <= requestTrackers[id].numSavedTokens
      ensures KnownNow() == WithMore(old(KnownNow()), cachedReqs, |cachedReqs|)
      ensures AllMade(r, ks', KnownNow()) && meta <= r && (forall m :: m in r ==> m in meta || m.loadSpec.None?)
    {
      hide TrackerOk, Announced, Valid, Tells, AllMade, KnownNow, More;
      r, ks' := meta, ks;
      ghost var known := KnownNow();
      for i := 0 to |cachedReqs|
        invariant AllMade(r, ks', KnownNow()) && KnownNow() == WithMore(known, cachedReqs, i)
        invariant meta <= r && forall m :: m in r ==> m in meta || m.loadSpec.None?
        invariant Valid() && Tells(base, r)
        invariant forall id :: id in requestTrackers ==>
          old(requestTrackers[id].numSavedTokens) <= requestTrackers[id].numSavedTokens
      {
        KnownKeys();
        r, ks' := AddCached(cachedReqs[i], r, base, ks');
      }
    }

    /** One scheduling step.  Afterwards every tracker is on track and has taken in exactly what the step brings, no
        request has fewer tokens saved, and each tracker has announced, beyond what it had before, exactly the
        ranges of the metas made.  Each meta is made for what is known of its request, and the loads pending for
        new requests are passed on. */
    method BuildConnectorMeta(finishedReqIds: seq<string>, newReqs: seq<NewRequest>,
        numScheduledTokens: map<string, nat>, cachedReqs: seq<CachedRequest>)
      returns (meta: seq<ReqMeta>, ghost ks: seq<Known>)
      requires Valid() && Step(finishedReqIds, newReqs, numScheduledTokens, cachedReqs).Ok(requestTrackers.Keys)
      modifies this`requestTrackers, this`loadSpecs, requestTrackers.Values
      ensures Valid()
      ensures KnownNow() == After(old(KnownNow()), Step(finishedReqIds, newReqs, numScheduledTokens, cachedReqs))
      ensures AllMade(meta, ks, KnownNow())
      ensures Loads(meta, old(loadSpecs), NewIds(newReqs, |newReqs|))
      ensures loadSpecs == old(loadSpecs) - NewIds(newReqs, |newReqs|)
      ensures forall id :: id in requestTrackers <==>
                id in NewIds(newReqs, |newReqs|) || (id in old(requestTrackers) && id !in finishedReqIds)
      ensures forall id :: id in requestTrackers && id in NewIds(newReqs, |newReqs|) ==>
                fresh(requestTrackers[id]) && requestTrackers[id].ranges == Announced(id, meta, chunkSize)
      ensures forall id :: id in requestTrackers && id !in NewIds(newReqs, |newReqs|) ==>
                && requestTrackers[id] == old(requestTrackers)[id]
                && old(requestTrackers[id].numSavedTokens) <= requestTrackers[id].numSavedTokens
                && requestTrackers[id].ranges == old(requestTrackers[id].ranges) + Announced(id, meta, chunkSize)
    {
      hide TrackerOk, Announced, Valid, Tells, Extended, AllMade, KnownNow, Loads, WithMore, WithNewOnes;
      Finish(finishedReqIds);
      ghost var base, kept, ranges := map[], requestTrackers, RangesNow();
      meta, base, ks := AddAllNew(newReqs, numScheduledTokens);
      NowTracked(kept, base, ranges, NewIds(newReqs, |newReqs|));
      ghost var before := meta;
      meta, ks := AddAllCached(cachedReqs, meta, base, ks);
      LoadsStay(before, old(loadSpecs), NewIds(newReqs, |newReqs|), meta);
      ToldSince(kept, base, ranges, NewIds(newReqs, |newReqs|), meta);
    }

    /** A whole run of the scheduler.  Unless the connector only consumes, every whole chunk of all the tokens that the
        steps have scheduled for a request is counted as saved, and every position saved was announced: the ranges
        announced lead up to the saved count. */
    method Run(steps: seq<Step>)
      requires Valid() && Legal(KnownNow(), steps, |steps|)
      modifies this`requestTrackers, this`loadSpecs, requestTrackers.Values
      ensures Valid()
      ensures KnownNow() == AfterAll(old(KnownNow()), steps, |steps|)
      ensures requestTrackers.Keys == AfterAll(old(KnownNow()), steps, |steps|).Keys
      ensures var known := AfterAll(old(KnownNow()), steps, |steps|);
              !forceSkipSave ==> forall id :: id in known ==>
                && Floor(|known[id].tokens|, chunkSize) <= requestTrackers[id].numSavedTokens <= |known[id].tokens|
                && Chained(requestTrackers[id].ranges, requestTrackers[id].numSavedTokens, chunkSize)
    {
      hide Chained, Floor, After, Aligned, Step.Ok, AllMade, Loads, Valid;
      ghost var known := KnownNow();
      LegalSoFar(known, steps, |steps|, 0);
      for i := 0 to |steps|
        invariant Valid() && Legal(known, steps, i) && KnownNow() == AfterAll(known, steps, i)
        invariant forall id :: id in requestTrackers ==>
          requestTrackers[id] in old(requestTrackers.Values) || fresh(requestTrackers[id])
      {
        LegalSoFar(known, steps, |steps|, i + 1);
        KnownKeys();
        var s := steps[i];
        var _, _ := BuildConnectorMeta(s.finishedReqIds, s.newReqs, s.numScheduledTokens, s.cachedReqs);
      }
      KnownKeys();
      SavedIsClose();
    }

    /** What Valid says of the tokens known. */
    lemma SavedIsClose()
      requires Valid()
      ensures !forceSkipSave ==> forall id :: id in requestTrackers ==>
                && Floor(|KnownNow()[id].tokens|, chunkSize) <= requestTrackers[id].numSavedTokens
                && requestTrackers[id].numSavedTokens <= |KnownNow()[id].tokens|
                && Chained(requestTrackers[id].ranges, requestTrackers[id].numSavedTokens, chunkSize)
    {
      hide Chained, Floor, Aligned;
    }

    lemma NowTracked(was: map<string, RequestTracker>, base: map<string, seq<Range>>, ranges: map<string, seq<Range>>,
        ids: set<string>)
      requires Extended(requestTrackers, was, base, ranges, ids)
      ensures requestTrackers.Keys == was.Keys + ids
      ensures forall id :: id in requestTrackers && id !in ids ==> id in was && requestTrackers[id] == was[id]
    {
    }

    /** What each tracker has announced since the given ranges. */
    lemma ToldSince(was: map<string, RequestTracker>, base: map<string, seq<Range>>, ranges: map<string, seq<Range>>,
        ids: set<string>, meta: seq<ReqMeta>)
      requires Extended(requestTrackers, was, base, ranges, ids) && Tells(base, meta)
      ensures forall id :: id in requestTrackers && id in ids ==>
                requestTrackers[id].ranges == Announced(id, meta, chunkSize)
      ensures forall id :: id in requestTrackers && id !in ids ==>
                id in ranges && requestTrackers[id].ranges == ranges[id] + Announced(id, meta, chunkSize)
    {
      hide Announced;
    }
  }
}
