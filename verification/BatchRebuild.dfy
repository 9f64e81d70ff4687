/** Rebuilding a batch after retrieval: which tokens of each row remain to be computed, and how the
    context of multi-head latent attention is cut into chunks that fit the workspace. */
module BatchRebuild {
  import opened Wrappers
  import opened Arithmetic
  import opened Sequences
  import opened TokenDatabase

  // ---------------------------------------------------------------- how much is already computed

  datatype Status = Prefill | ChunkPrefill | NoRetrieve

  /** Tokens computed so far, in all and by the cache. */
  datatype Computed = Computed(total: nat, cached: nat)

  /** From the number of positions retrieved, counted from the chunk boundary below what vLLM has: how
      many are computed.  At least one token is always left. */
  function AfterRetrieve(len: nat, vllmComputed: nat, retrieved: nat, c: Chunk): Computed
    requires vllmComputed < len
  {
    var below := vllmComputed - Floor(vllmComputed, c);
    var cached := if retrieved >= below then retrieved - below else 0;
    if vllmComputed + cached == len then Computed(len - 1, cached - 1) else Computed(vllmComputed + cached, cached)
  }

  /** When the positions retrieved are those from that boundary to n, the cache adds exactly the positions
      from vllmComputed to n, except the very last of the sequence, which is always recomputed. */
  lemma RetrievedBeyond(len: nat, vllmComputed: nat, n: nat, c: Chunk)
    requires vllmComputed < len && Floor(vllmComputed, c) <= n <= len
    ensures var r := AfterRetrieve(len, vllmComputed, n - Floor(vllmComputed, c), c);
            && r.total == vllmComputed + r.cached && r.total < len
            && (r.total == n || (n < vllmComputed && r.cached == 0) || (n == len && r.total == len - 1))
  {
  }

  /** One sequence of the batch as it arrives: its tokens, how many vLLM wants computed, and how many
      positions the engine would retrieve for it. */
  datatype Request = Request(tokens: seq<Token>, required: nat, status: Status, retrieved: nat) {
    ghost predicate Ok(c: Chunk) {
      0 < required <= |tokens| && retrieved <= |tokens| - Floor(|tokens| - required, c)
    }

    /** The engine is not asked for decoding rows and for rows shorter than a chunk. */
    function Asked(c: Chunk): bool { status != NoRetrieve && c <= required }

    function Result(c: Chunk): (r: Computed)
      requires Ok(c)
      ensures r.total < |tokens| && r.total - r.cached == |tokens| - required
    {
      if Asked(c) then AfterRetrieve(|tokens|, |tokens| - required, retrieved, c) else Computed(|tokens| - required, 0)
    }

    /** Everything required was retrieved. */
    ghost predicate FullyCached(c: Chunk)
      requires Ok(c)
    {
      Asked(c) && retrieved - (|tokens| - required - Floor(|tokens| - required, c)) == required
    }
  }

  ghost predicate RequestsOk(rs: seq<Request>, c: Chunk) { forall i :: 0 <= i < |rs| ==> rs[i].Ok(c) }

  datatype Action = SkipForward | Rebuild | Original

  ghost predicate NoneFound(rs: seq<Request>, n: nat, c: Chunk)
    requires n <= |rs| && RequestsOk(rs, c)
  {
    forall i :: 0 <= i < n ==> rs[i].Result(c).cached == 0
  }

  /** The source's assertion: a decoding row wants one token. */
  ghost predicate Decoding(rs: seq<Request>, n: nat)
    requires n <= |rs|
  {
    forall i :: 0 <= i < n && rs[i].status == NoRetrieve ==> rs[i].required == 1
  }

  ghost predicate AllChunks(rs: seq<Request>, n: nat)
    requires n <= |rs|
  {
    forall i :: 0 <= i < n ==> rs[i].status == ChunkPrefill
  }

  /** No chunk that the engine was asked about misses anything. */
  ghost predicate FullHit(rs: seq<Request>, n: nat, c: Chunk)
    requires n <= |rs| && RequestsOk(rs, c)
  {
    forall i :: 0 <= i < n && rs[i].status == ChunkPrefill && rs[i].Asked(c) ==> rs[i].FullyCached(c)
  }

  ghost predicate Results(computed: seq<Computed>, rs: seq<Request>, n: nat, c: Chunk)
    requires n <= |rs| && RequestsOk(rs, c)
  {
    |computed| == n && forall i :: 0 <= i < n ==> computed[i] == rs[i].Result(c)
  }

  lemma OneMoreRequest(rs: seq<Request>, computed: seq<Computed>, n: nat, c: Chunk)
    requires n < |rs| && RequestsOk(rs, c) && Results(computed, rs, n, c)
    ensures Results(computed + [rs[n].Result(c)], rs, n + 1, c)
    ensures AllChunks(rs, n + 1) <==> AllChunks(rs, n) && rs[n].status == ChunkPrefill
    ensures Decoding(rs, n + 1) <==> Decoding(rs, n) && (rs[n].status == NoRetrieve ==> rs[n].required == 1)
    ensures NoneFound(rs, n + 1, c) <==> NoneFound(rs, n, c) && rs[n].Result(c).cached == 0
    ensures FullHit(rs, n + 1, c) <==>
              FullHit(rs, n, c) && (rs[n].status == ChunkPrefill && rs[n].Asked(c) ==> rs[n].FullyCached(c))
  {
    hide Floor, AfterRetrieve;
  }

  lemma DecodingPrefix(rs: seq<Request>, n: nat)
    requires n < |rs| && rs[n].status == NoRetrieve && rs[n].required != 1
    ensures !Decoding(rs, |rs|)
  {
  }

  /** Decides, row by row, what is computed, and then what becomes of the batch.  Reports None where the
      source's assertion on decoding rows fails.  The forward pass is skipped when every row is a chunk
      of a longer prefill and every row the engine was asked about is fully cached. */
  method RetrieveKv(rs: seq<Request>, c: Chunk) returns (computed: seq<Computed>, action: Option<Action>)
    requires RequestsOk(rs, c)
    ensures action.None? <==> !Decoding(rs, |rs|)
    ensures action.Some? ==> Results(computed, rs, |rs|, c)
    ensures action.Some? ==> action.value == if AllChunks(rs, |rs|) && FullHit(rs, |rs|, c) then SkipForward
                                             else if NoneFound(rs, |rs|, c) then Original else Rebuild
  {
    hide NoneFound, Decoding, AllChunks, FullHit, Results, Floor;
    var idx, fullHit, allChunks, notFound, ok := 0, true, true, 0, true;
    computed := [];
    NoRequests(rs, c);
    while idx < |rs| && ok
      invariant idx <= |rs| && Results(computed, rs, idx, c) && Decoding(rs, idx)
      invariant !ok ==> !Decoding(rs, |rs|)
      invariant (allChunks <==> AllChunks(rs, idx)) && (fullHit <==> FullHit(rs, idx, c))
      invariant notFound <= idx && (notFound == idx <==> NoneFound(rs, idx, c))
      decreases |rs| - idx, ok
    {
      var req := rs[idx];
      var vllmComputed := |req.tokens| - req.required;
      if req.status == NoRetrieve && req.required != 1 {
        ok := false;
        DecodingPrefix(rs, idx);
      } else {
        OneMoreRequest(rs, computed, idx, c);
        if req.status == NoRetrieve || req.required < c {
          computed := computed + [Computed(vllmComputed, 0)];
          notFound := notFound + 1;
        } else {
          var below := vllmComputed - Floor(vllmComputed, c);
          var cached := if req.retrieved >= below then req.retrieved - below else 0;
          if req.status == ChunkPrefill && vllmComputed + cached != |req.tokens| {
            fullHit := false;
          } else if vllmComputed + cached == |req.tokens| {
            cached := cached - 1;
          }
          computed := computed + [Computed(vllmComputed + cached, cached)];
          if cached == 0 {
            notFound := notFound + 1;
          }
        }
        allChunks := allChunks && req.status == ChunkPrefill;
        idx := idx + 1;
      }
    }
    action := if !ok then None else if allChunks && fullHit then Some(SkipForward)
              else if notFound < |rs| then Some(Rebuild) else Some(Original);
  }

  lemma NoRequests(rs: seq<Request>, c: Chunk)
    requires RequestsOk(rs, c)
    ensures Results([], rs, 0, c) && Decoding(rs, 0) && AllChunks(rs, 0) && FullHit(rs, 0, c) && NoneFound(rs, 0, c)
  {
  }

  /** Skipping is right, in that nothing is left to compute, exactly when no row is shorter than a chunk. */
  lemma SkipIsRight(rs: seq<Request>, c: Chunk)
    requires RequestsOk(rs, c) && AllChunks(rs, |rs|) && FullHit(rs, |rs|, c)
    ensures (forall i :: 0 <= i < |rs| ==> rs[i].FullyCached(c))
            <==> (forall i :: 0 <= i < |rs| ==> c <= rs[i].required)
  {
    forall i | 0 <= i < |rs| ensures rs[i].FullyCached(c) <==> c <= rs[i].required {
    }
  }

  lemma ShortChunk(c: Chunk, tokens: seq<Token>)
    requires 0 < |tokens| < c
    ensures var r := Request(tokens, |tokens|, ChunkPrefill, 0);
            && RequestsOk([r], c) && !r.Asked(c) && !r.FullyCached(c) && r.Result(c) == Computed(0, 0)
            && AllChunks([r], 1) && FullHit([r], 1, c) && Decoding([r], 1)
  {
    ZeroIsMultiple(c);
    FloorUnique(0, c, 0);
  }

  /** A batch of one short chunk is skipped although nothing of it is computed. */
  method ShortChunkIsSkipped(c: Chunk, tokens: seq<Token>) returns (computed: seq<Computed>, action: Option<Action>)
    requires 0 < |tokens| < c
    ensures action == Some(SkipForward) && computed == [Computed(0, 0)]
  {
    hide Floor, Decoding, AllChunks, FullHit, NoneFound;
    ShortChunk(c, tokens);
    computed, action := RetrieveKv([Request(tokens, |tokens|, ChunkPrefill, 0)], c);
  }

  // ---------------------------------------------------------------- rows

  /** One sequence of the batch: all its tokens, how many are computed, in all and by the cache. */
  datatype Row = Row(tokens: seq<Token>, numComputed: nat, lmcComputed: nat, isPrefill: bool, doSample: bool,
      blockTable: seq<int>)
  {
    /** How many tokens vLLM had computed before: the flat tensors hold the positions from there on. */
    function VllmComputed(): nat
      requires Ok()
    {
      numComputed - lmcComputed
    }

    ghost predicate Ok() { lmcComputed <= numComputed < |tokens| }

    /** The context kept, in whole blocks, and the tokens left to compute. */
    function Context(blockSize: Chunk): (r: nat)
      ensures r <= numComputed
    {
      Floor(numComputed, blockSize)
    }


    function QueryLen(blockSize: Chunk): (q: nat)
      requires Ok()
      ensures 0 < q
    {
      |tokens| - Context(blockSize)
    }
  }

  ghost predicate RowsOk(rows: seq<Row>) { forall i :: 0 <= i < |rows| ==> rows[i].Ok() }

  function Range(from: nat, to: nat): (r: seq<int>)
    requires from <= to
    ensures |r| == to - from
  {
    seq(to - from, i => from + i)
  }

  /** Where a row's part of the flat tensors starts: after the required tokens of the rows before. */
  function StartPos(rows: seq<Row>, i: nat): nat
    requires i <= |rows| && RowsOk(rows)
  {
    if i == 0 then 0 else StartPos(rows, i - 1) + |rows[i - 1].tokens| - rows[i - 1].VllmComputed()
  }

  /** A flat tensor that holds, row by row, the given data of the positions vLLM had not computed. */
  ghost predicate Holds<T>(flat: seq<T>, rows: seq<Row>, full: seq<seq<T>>, i: nat)
    requires i < |rows| == |full| && RowsOk(rows)
  {
    && |full[i]| == |rows[i].tokens|
    && StartPos(rows, i) + |full[i]| - rows[i].VllmComputed() <= |flat|
    && flat[StartPos(rows, i)..StartPos(rows, i) + |full[i]| - rows[i].VllmComputed()] ==
      full[i][rows[i].VllmComputed()..]
  }

  /** The part of a flat tensor that a rebuilt row takes. */
  function Taken<T>(flat: seq<T>, rows: seq<Row>, i: nat, blockSize: Chunk): seq<T>
    requires i < |rows| && RowsOk(rows)
  {
    var start := StartPos(rows, i) + Floor(rows[i].lmcComputed, blockSize);
    Slice(flat, start, start + rows[i].QueryLen(blockSize))
  }

  lemma BlocksLineUp(v: nat, l: nat, b: Chunk)
    ensures v + Floor(l, b) == Floor(v + l, b) <==> Aligned(v, b)
  {
    var f := Floor(l, b);
    if Aligned(v, b) {
      assert v == v / b * b && f == f / b * b;
      RemainderUnique(v + f, b, v / b + f / b, 0);
      assert (v / b + f / b) * b == v + f;
      FloorUnique(v + l, b, v + f);
    } else if v + f == Floor(v + l, b) {
      assert v + f == (v + f) / b * b && f == f / b * b;
      assert ((v + f) / b - f / b) * b == v;
      RemainderUnique(v, b, (v + f) / b - f / b, 0);
    }
  }

  lemma SuffixOfPart<T>(flat: seq<T>, s: nat, e: nat, data: seq<T>, v: nat, f: nat)
    requires s <= e <= |flat| && v <= |data| && flat[s..e] == data[v..] && f <= e - s
    ensures v + f <= |data| && Slice(flat, s + f, e) == data[v + f..]
  {
    assert flat[s + f..e] == flat[s..e][f..];
    assert data[v..][f..] == data[v + f..];
    assert s + f == |flat| ==> data[v + f..] == [];
  }

  /** If what vLLM had computed is whole blocks, a rebuilt row takes exactly the data of the positions left
      to compute. */
  lemma TakesTheSuffix<T>(flat: seq<T>, rows: seq<Row>, full: seq<seq<T>>, i: nat, b: Chunk)
    requires i < |rows| == |full| && RowsOk(rows) && Holds(flat, rows, full, i)
    requires Aligned(rows[i].VllmComputed(), b)
    ensures Taken(flat, rows, i, b) == full[i][rows[i].Context(b)..]
  {
    var r, s := rows[i], StartPos(rows, i);
    var v, f := r.VllmComputed(), Floor(r.lmcComputed, b);
    BlocksLineUp(v, r.lmcComputed, b);
    SuffixOfPart(flat, s, s + |full[i]| - v, full[i], v, f);
  }

  /** And only then: otherwise already the positions it takes are not those left to compute. */
  lemma TakesTheSuffixOnlyThen(flat: seq<int>, rows: seq<Row>, i: nat, b: Chunk)
    requires i < |rows| && RowsOk(rows)
    requires Holds(flat, rows, seq(|rows|, j requires 0 <= j < |rows| => Range(0, |rows[j].tokens|)), i)
    ensures Taken(flat, rows, i, b) == Range(rows[i].Context(b), |rows[i].tokens|)
            <==> Aligned(rows[i].VllmComputed(), b)
  {
    var r, s := rows[i], StartPos(rows, i);
    var full := seq(|rows|, j requires 0 <= j < |rows| => Range(0, |rows[j].tokens|));
    if Aligned(r.VllmComputed(), b) {
      TakesTheSuffix(flat, rows, full, i, b);
      assert full[i][r.Context(b)..] == Range(r.Context(b), |r.tokens|);
    } else {
      BlocksLineUp(r.VllmComputed(), r.lmcComputed, b);
      var f := Floor(r.lmcComputed, b);
      assert flat[s..s + |full[i]| - r.VllmComputed()][f] == full[i][r.VllmComputed()..][f];
      assert Taken(flat, rows, i, b)[0] == flat[s + f] == r.VllmComputed() + f;
    }
  }

  // ---------------------------------------------------------------- the rebuilt batch

  datatype Rebuilt = Rebuilt(
    inputTokens: seq<seq<Token>>, inputPositions: seq<seq<int>>, slotMapping: seq<seq<int>>, queryLens: seq<nat>,
    numPrefills: nat, numPrefillTokens: nat, maxQueryLen: nat, queryStartLoc: seq<nat>, contextLens: seq<nat>,
    blockTables: seq<seq<int>>, selectedTokenIndices: seq<int>)

  /** Tokens left to compute in the first n rows. */
  ghost function Total(rows: seq<Row>, n: nat, b: Chunk): nat
    requires n <= |rows| && RowsOk(rows)
  {
    if n == 0 then 0 else Total(rows, n - 1, b) + rows[n - 1].QueryLen(b)
  }

  ghost function PrefillTotal(rows: seq<Row>, n: nat, b: Chunk): nat
    requires n <= |rows| && RowsOk(rows)
  {
    if n == 0 then 0 else PrefillTotal(rows, n - 1, b) + if rows[n - 1].isPrefill then rows[n - 1].QueryLen(b) else 0
  }

  ghost function PrefillCount(rows: seq<Row>, n: nat): nat
    requires n <= |rows|
  {
    if n == 0 then 0 else PrefillCount(rows, n - 1) + if rows[n - 1].isPrefill then 1 else 0
  }

  /** The index of each sampling row's last token in the concatenated batch. */
  ghost function LastTokens(rows: seq<Row>, n: nat, b: Chunk): seq<int>
    requires n <= |rows| && RowsOk(rows)
  {
    if n == 0 then []
    else LastTokens(rows, n - 1, b) + if rows[n - 1].doSample then [Total(rows, n, b) - 1] else []
  }

  /** The source's assertion: a row that is not a prefill has one token left. */
  ghost predicate DecodesOne(rows: seq<Row>, n: nat, b: Chunk)
    requires n <= |rows| && RowsOk(rows)
  {
    forall i :: 0 <= i < n && !rows[i].isPrefill ==> rows[i].QueryLen(b) == 1
  }

  /** A row in decoding, with all but its last token computed, passes exactly when those are whole blocks. */
  lemma DecodePasses(r: Row, b: Chunk)
    requires r.Ok() && r.numComputed == |r.tokens| - 1
    ensures r.QueryLen(b) == 1 <==> Aligned(r.numComputed, b)
  {
    if Aligned(r.numComputed, b) { FloorUnique(r.numComputed, b, r.numComputed); }
  }

  /** Every blockSize-th slot, divided by the block size. */
  function BlocksOf(slots: seq<int>, b: Chunk): seq<int> {
    var n := CeilDiv(|slots|, b);
    seq(n, i requires 0 <= i < n => (StrideInBounds(i, |slots|, b); slots[i * b]) / b)
  }

  /** The block table recovered for a row: the blocks of its slots up to its end. */
  function Recovered(slots: seq<int>, rows: seq<Row>, i: nat, b: Chunk): seq<int>
    requires i < |rows| && RowsOk(rows)
  {
    var start := StartPos(rows, i);
    BlocksOf(Slice(slots, start, start + Floor(rows[i].lmcComputed, b) + rows[i].QueryLen(b)), b)
  }

  lemma StrideInBounds(i: nat, n: nat, b: Chunk)
    requires i < CeilDiv(n, b)
    ensures i * b < n
  {
    CeilDivBounds(n, b);
    var q := CeilDiv(n, b);
    assert i * b + b <= q * b by { assert (i + 1) * b <= q * b; }
  }

  /** The rows rebuilt so far, one by one. */
  ghost predicate RowsBuilt(x: Rebuilt, rows: seq<Row>, positions: seq<int>, slots: seq<int>, n: nat, b: Chunk)
    requires n <= |rows| && RowsOk(rows)
  {
    && |x.inputTokens| == |x.inputPositions| == |x.slotMapping| == |x.contextLens| == n
    && forall i :: 0 <= i < n ==>
         && x.inputTokens[i] == rows[i].tokens[rows[i].Context(b)..] && x.contextLens[i] == rows[i].Context(b)
         && x.inputPositions[i] == Taken(positions, rows, i, b) && x.slotMapping[i] == Taken(slots, rows, i, b)
  }

  /** Each row's length, where each row starts, and the longest row so far. */
  ghost predicate LensBuilt(x: Rebuilt, rows: seq<Row>, n: nat, b: Chunk)
    requires n <= |rows| && RowsOk(rows)
  {
    && |x.queryLens| == n && |x.queryStartLoc| == n + 1
    && (forall i :: 0 <= i < n ==> x.queryLens[i] == rows[i].QueryLen(b)) && IsLongest(x.queryLens, x.maxQueryLen)
    && (forall i :: 0 <= i <= n ==> x.queryStartLoc[i] == Total(rows, i, b))
  }

  /** The totals so far. */
  ghost predicate CountsBuilt(x: Rebuilt, rows: seq<Row>, n: nat, b: Chunk)
    requires n <= |rows| && RowsOk(rows)
  {
    && x.numPrefills == PrefillCount(rows, n) && x.numPrefillTokens == PrefillTotal(rows, n, b)
    && x.selectedTokenIndices == LastTokens(rows, n, b)
  }

  /** The block tables: those given, else the blocks of the row's slots up to its end. */
  ghost predicate TablesBuilt(x: Rebuilt, rows: seq<Row>, slots: seq<int>, n: nat, b: Chunk)
    requires n <= |rows| && RowsOk(rows)
  {
    && |x.blockTables| == n
    && forall i :: 0 <= i < n ==>
         x.blockTables[i] == if rows[i].blockTable != [] then rows[i].blockTable else Recovered(slots, rows, i, b)
  }

  lemma RowsGrow(x: Rebuilt, y: Rebuilt, rows: seq<Row>, positions: seq<int>, slots: seq<int>, n: nat, b: Chunk)
    requires n < |rows| && RowsOk(rows) && RowsBuilt(x, rows, positions, slots, n, b)
    requires y.inputTokens == x.inputTokens + [rows[n].tokens[rows[n].Context(b)..]]
    requires y.contextLens == x.contextLens + [rows[n].Context(b)]
    requires y.inputPositions == x.inputPositions + [Taken(positions, rows, n, b)]
    requires y.slotMapping == x.slotMapping + [Taken(slots, rows, n, b)]
    ensures RowsBuilt(y, rows, positions, slots, n + 1, b)
  {
    hide Taken, Floor;
  }

  /** The longest row so far. */
  ghost predicate IsLongest(lens: seq<nat>, m: nat) {
    (forall i :: 0 <= i < |lens| ==> lens[i] <= m) && if lens == [] then m == 0 else m in lens
  }

  lemma LongestGrows(lens: seq<nat>, m: nat, q: nat)
    requires IsLongest(lens, m) && 0 < q
    ensures IsLongest(lens + [q], if q > m then q else m)
  {
    var all := lens + [q];
    assert all[|lens|] == q;
    if q <= m {
      assert lens != [] && m in lens;
      assert m in all;
    }
  }

  lemma LensGrow(x: Rebuilt, y: Rebuilt, rows: seq<Row>, n: nat, b: Chunk)
    requires n < |rows| && RowsOk(rows) && LensBuilt(x, rows, n, b)
    requires y.queryLens == x.queryLens + [rows[n].QueryLen(b)]
    requires y.queryStartLoc == x.queryStartLoc + [Total(rows, n, b) + rows[n].QueryLen(b)]
    requires y.maxQueryLen == if rows[n].QueryLen(b) > x.maxQueryLen then rows[n].QueryLen(b) else x.maxQueryLen
    ensures LensBuilt(y, rows, n + 1, b)
  {
    hide Floor, IsLongest;
    LongestGrows(x.queryLens, x.maxQueryLen, rows[n].QueryLen(b));
    assert Total(rows, n + 1, b) == Total(rows, n, b) + rows[n].QueryLen(b);
  }

  lemma CountsGrow(x: Rebuilt, y: Rebuilt, rows: seq<Row>, n: nat, b: Chunk)
    requires n < |rows| && RowsOk(rows) && CountsBuilt(x, rows, n, b)
    requires y.numPrefills == if rows[n].isPrefill then x.numPrefills + 1 else x.numPrefills
    requires y.numPrefillTokens == if rows[n].isPrefill then x.numPrefillTokens + rows[n].QueryLen(b)
        else x.numPrefillTokens
    requires y.selectedTokenIndices ==
               if rows[n].doSample then x.selectedTokenIndices + [Total(rows, n, b) + rows[n].QueryLen(b) - 1]
                 else x.selectedTokenIndices
    ensures CountsBuilt(y, rows, n + 1, b)
  {
    hide Floor;
  }

  /** Rebuilds the batch; reports None where the source's assertion on decoding rows fails. */
  method BuildPartialPrefillInput(rows: seq<Row>, positions: seq<int>, slots: seq<int>, blockSize: Chunk)
      returns (r: Option<Rebuilt>)
    requires RowsOk(rows)
    ensures r.Some? <==> DecodesOne(rows, |rows|, blockSize)
    ensures r.Some? ==> RowsBuilt(r.value, rows, positions, slots, |rows|, blockSize)
    ensures r.Some? ==> LensBuilt(r.value, rows, |rows|, blockSize) && CountsBuilt(r.value, rows, |rows|, blockSize)
    ensures r.Some? ==> TablesBuilt(r.value, rows, slots, |rows|, blockSize)
  {
    hide RowsBuilt, LensBuilt, CountsBuilt, TablesBuilt, Floor, StartPos, BlocksOf, Slice;
    var x := Rebuilt([], [], [], [], 0, 0, 0, [0], [], [], []);
    var last, idx, ok := 0, 0, true;
    NothingBuilt(rows, positions, slots, blockSize);
    while idx < |rows| && ok
      invariant idx <= |rows| && last == Total(rows, idx, blockSize) && DecodesOne(rows, idx, blockSize)
      invariant RowsBuilt(x, rows, positions, slots, idx, blockSize)
      invariant LensBuilt(x, rows, idx, blockSize) && CountsBuilt(x, rows, idx, blockSize) &&
        TablesBuilt(x, rows, slots, idx, blockSize)
      invariant !ok ==> idx < |rows| && !rows[idx].isPrefill && rows[idx].QueryLen(blockSize) != 1
      decreases |rows| - idx, ok
    {
      var row := rows[idx];
      var numComputed := row.Context(blockSize);
      var cached := Floor(row.lmcComputed, blockSize);
      var qLen := |row.tokens| - numComputed;
      if !row.isPrefill && qLen != 1 {
        ok := false;
      } else {
        var startPos := StartPos(rows, idx);
        var start, end := startPos + cached, startPos + cached + qLen;
        last := last + qLen;
        var table := if row.blockTable != [] then row.blockTable else BlocksOf(Slice(slots, startPos, end), blockSize);
        ghost var before := x;
        x := Rebuilt(
          x.inputTokens + [row.tokens[numComputed..]], x.inputPositions + [Slice(positions, start, end)],
          x.slotMapping + [Slice(slots, start, end)], x.queryLens + [qLen],
          if row.isPrefill then x.numPrefills + 1 else x.numPrefills,
          if row.isPrefill then x.numPrefillTokens + qLen else x.numPrefillTokens,
          if qLen > x.maxQueryLen then qLen else x.maxQueryLen,
          x.queryStartLoc + [last], x.contextLens + [numComputed], x.blockTables + [table],
          if row.doSample then x.selectedTokenIndices + [last - 1] else x.selectedTokenIndices);
        RowsGrow(before, x, rows, positions, slots, idx, blockSize);
        LensGrow(before, x, rows, idx, blockSize);
        CountsGrow(before, x, rows, idx, blockSize);
        TablesGrow(before, x, rows, slots, idx, blockSize);
        idx := idx + 1;
      }
    }
    r := if ok then Some(x) else None;
  }

  lemma NothingBuilt(rows: seq<Row>, positions: seq<int>, slots: seq<int>, b: Chunk)
    requires RowsOk(rows)
    ensures var x := Rebuilt([], [], [], [], 0, 0, 0, [0], [], [], []);
            RowsBuilt(x, rows, positions, slots, 0, b) && LensBuilt(x, rows, 0, b) && CountsBuilt(x, rows, 0, b) &&
                TablesBuilt(x, rows, slots, 0, b)
  {
  }

  lemma TablesGrow(x: Rebuilt, y: Rebuilt, rows: seq<Row>, slots: seq<int>, n: nat, b: Chunk)
    requires n < |rows| && RowsOk(rows) && TablesBuilt(x, rows, slots, n, b)
    requires y.blockTables ==
               x.blockTables + [if rows[n].blockTable != [] then rows[n].blockTable else Recovered(slots, rows, n, b)]
    ensures TablesBuilt(y, rows, slots, n + 1, b)
  {
    hide Recovered;
  }

  // ---------------------------------------------------------------- the batch as a whole

  lemma {:induction false} TotalGrows(rows: seq<Row>, i: nat, j: nat, b: Chunk)
    requires i < j <= |rows| && RowsOk(rows)
    ensures Total(rows, i, b) < Total(rows, j, b)
    decreases j
  {
    if i < j - 1 { TotalGrows(rows, i, j - 1, b); }
  }

  lemma {:induction false} RowInCat(rows: seq<Row>, parts: seq<seq<Token>>, n: nat, i: nat, b: Chunk)
    requires RowsOk(rows) && n == |parts| <= |rows|
    requires forall k :: 0 <= k < n ==> |parts[k]| == rows[k].QueryLen(b)
    ensures |Cat(parts)| == Total(rows, n, b)
    ensures i < n ==> Total(rows, i, b) + |parts[i]| <= Total(rows, n, b)
                      && Cat(parts)[Total(rows, i, b)..Total(rows, i, b) + |parts[i]|] == parts[i]
    decreases n
  {
    if n > 0 {
      var init := parts[..n - 1];
      RowInCat(rows, init, n - 1, i, b);
      if i < n - 1 {
        assert Cat(parts)[Total(rows, i, b)..Total(rows, i, b) + |parts[i]|] ==
          Cat(init)[Total(rows, i, b)..Total(rows, i, b) + |parts[i]|];
      }
    }
  }

  /** In the rebuilt batch, each row lies between its two start locations, which strictly increase and
      end at the total. */
  lemma RowsInPlace(x: Rebuilt, rows: seq<Row>, positions: seq<int>, slots: seq<int>, i: nat, b: Chunk)
    requires RowsOk(rows) && RowsBuilt(x, rows, positions, slots, |rows|, b) && LensBuilt(x, rows, |rows|, b) &&
        i < |rows|
    ensures x.queryStartLoc[0] == 0 && x.queryStartLoc[i] < x.queryStartLoc[i + 1]
    ensures x.queryStartLoc[|rows|] == |Cat(x.inputTokens)|
    ensures x.queryStartLoc[i + 1] <= |Cat(x.inputTokens)|
    ensures Cat(x.inputTokens)[x.queryStartLoc[i]..x.queryStartLoc[i + 1]] == rows[i].tokens[rows[i].Context(b)..]
  {
    hide Floor, Taken;
    TotalGrows(rows, i, i + 1, b);
    RowInCat(rows, x.inputTokens, |rows|, i, b);
  }

  lemma {:induction false} SampledIn(rows: seq<Row>, n: nat, i: nat, b: Chunk)
    requires RowsOk(rows) && i < n <= |rows| && rows[i].doSample
    ensures Total(rows, i + 1, b) - 1 in LastTokens(rows, n, b)
    decreases n
  {
    if i < n - 1 { SampledIn(rows, n - 1, i, b); }
  }

  lemma {:induction false} SampledOnly(rows: seq<Row>, n: nat, s: int, b: Chunk) returns (i: nat)
    requires RowsOk(rows) && n <= |rows| && s in LastTokens(rows, n, b)
    ensures i < n && rows[i].doSample && s == Total(rows, i + 1, b) - 1
    decreases n
  {
    if rows[n - 1].doSample && s == Total(rows, n, b) - 1 {
      i := n - 1;
    } else {
      i := SampledOnly(rows, n - 1, s, b);
    }
  }

  lemma SampledExactly(rows: seq<Row>, i: nat, b: Chunk)
    requires RowsOk(rows) && i < |rows|
    ensures rows[i].doSample <==> Total(rows, i + 1, b) - 1 in LastTokens(rows, |rows|, b)
  {
    hide Total, LastTokens;
    if rows[i].doSample {
      SampledIn(rows, |rows|, i, b);
    } else if Total(rows, i + 1, b) - 1 in LastTokens(rows, |rows|, b) {
      var j := SampledOnly(rows, |rows|, Total(rows, i + 1, b) - 1, b);
      if i < j { TotalGrows(rows, i + 1, j + 1, b); } else if j < i { TotalGrows(rows, j + 1, i + 1, b); }
    }
  }

  lemma LastOf<T>(s: seq<T>, i: nat, j: nat, part: seq<T>)
    requires i < j <= |s| && s[i..j] == part
    ensures part != [] && s[j - 1] == part[|part| - 1]
  {
  }

  /** What is selected for sampling are the last tokens of the sampling rows, and nothing else. */
  lemma SelectedAreLast(x: Rebuilt, rows: seq<Row>, positions: seq<int>, slots: seq<int>, i: nat, b: Chunk)
    requires RowsOk(rows) && RowsBuilt(x, rows, positions, slots, |rows|, b) && i < |rows|
    requires LensBuilt(x, rows, |rows|, b) && CountsBuilt(x, rows, |rows|, b)
    ensures rows[i].doSample <==> x.queryStartLoc[i + 1] - 1 in x.selectedTokenIndices
    ensures 0 <= x.queryStartLoc[i + 1] - 1 < |Cat(x.inputTokens)|
    ensures Cat(x.inputTokens)[x.queryStartLoc[i + 1] - 1] == rows[i].tokens[|rows[i].tokens| - 1]
    ensures forall s :: s in x.selectedTokenIndices ==>
        exists j :: 0 <= j < |rows| && rows[j].doSample && s + 1 == x.queryStartLoc[j + 1]
  {
    hide Floor, RowsBuilt, Cat, Total, LastTokens, IsLongest;
    RowsInPlace(x, rows, positions, slots, i, b);
    LastOf(Cat(x.inputTokens), x.queryStartLoc[i], x.queryStartLoc[i + 1], rows[i].tokens[rows[i].Context(b)..]);
    SampledExactly(rows, i, b);
    forall s | s in x.selectedTokenIndices
      ensures exists j :: 0 <= j < |rows| && rows[j].doSample && s + 1 == x.queryStartLoc[j + 1]
    {
      var j := SampledOnly(rows, |rows|, s, b);
      assert x.queryStartLoc[j + 1] == Total(rows, j + 1, b);
    }
  }

  // ---------------------------------------------------------------- from requests to the rebuilt batch

  /** The row a request turns into: it is a prefill unless it decodes, and samples unless more of its prompt
      follows. */
  function RowOf(q: Request, computed: Computed, table: seq<int>): Row {
    Row(q.tokens, computed.total, computed.cached, q.status != NoRetrieve, q.status != ChunkPrefill, table)
  }

  ghost function RowsOf(rs: seq<Request>, tables: seq<seq<int>>, c: Chunk): (rows: seq<Row>)
    requires RequestsOk(rs, c) && |tables| == |rs|
    ensures |rows| == |rs| && RowsOk(rows)
  {
    seq(|rs|, i requires 0 <= i < |rs| => RowOf(rs[i], rs[i].Result(c), tables[i]))
  }

  ghost predicate Full<T>(rs: seq<Request>, full: seq<seq<T>>) {
    |full| == |rs| && forall i :: 0 <= i < |rs| ==> |full[i]| == |rs[i].tokens|
  }

  /** The flat tensor of a batch: for each request the data of the positions it wants computed. */
  ghost function Flat<T>(rs: seq<Request>, full: seq<seq<T>>, n: nat): seq<T>
    requires n <= |rs| && Full(rs, full) && forall i :: 0 <= i < |rs| ==> rs[i].required <= |rs[i].tokens|
  {
    if n == 0 then [] else Flat(rs, full, n - 1) + full[n - 1][|rs[n - 1].tokens| - rs[n - 1].required..]
  }

  lemma PartOf<T>(x: seq<T>, y: seq<T>, z: seq<T>, i: nat, j: nat)
    requires i <= j <= |x| && x[i..j] == z
    ensures (x + y)[i..j] == z
  {
  }

  lemma AtEnd<T>(x: seq<T>, y: seq<T>)
    ensures (x + y)[|x|..|x| + |y|] == y
  {
  }

  lemma RowIs(rs: seq<Request>, tables: seq<seq<int>>, i: nat, c: Chunk)
    requires RequestsOk(rs, c) && |tables| == |rs| && i < |rs|
    ensures var r := RowsOf(rs, tables, c)[i];
            r.Ok() && r.tokens == rs[i].tokens && r.VllmComputed() == |rs[i].tokens| - rs[i].required
  {
    hide Request.Result;
  }

  lemma {:induction false} FlatHolds<T>(rs: seq<Request>, tables: seq<seq<int>>, full: seq<seq<T>>, n: nat, i: nat,
      c: Chunk)
    requires RequestsOk(rs, c) && |tables| == |rs| && Full(rs, full) && n <= |rs|
    ensures |Flat(rs, full, n)| == StartPos(RowsOf(rs, tables, c), n)
    ensures i < n ==> Holds(Flat(rs, full, n), RowsOf(rs, tables, c), full, i)
    decreases n
  {
    hide Floor, AfterRetrieve, Request.Result, RowsOf, Row.VllmComputed;
    if n > 0 {
      FlatHolds(rs, tables, full, n - 1, i, c);
      RowIs(rs, tables, n - 1, c);
      var rows, init := RowsOf(rs, tables, c), Flat(rs, full, n - 1);
      var part := full[n - 1][|rs[n - 1].tokens| - rs[n - 1].required..];
      if i < n - 1 {
        RowIs(rs, tables, i, c);
        var s, v := StartPos(rows, i), rows[i].VllmComputed();
        PartOf(init, part, full[i][v..], s, s + |full[i]| - v);
      } else if i == n - 1 {
        AtEnd(init, part);
      }
    }
  }

  ghost function AllPositions(rs: seq<Request>): (full: seq<seq<int>>)
    ensures Full(rs, full)
  {
    seq(|rs|, i requires 0 <= i < |rs| => Range(0, |rs[i].tokens|))
  }

  /** Slots laid out block by block. */
  ghost predicate InBlocks(slots: seq<int>, blocks: seq<int>, b: Chunk) {
    && |blocks| == CeilDiv(|slots|, b)
    && forall p :: 0 <= p < |slots| ==> p / b < |blocks| && slots[p] == blocks[p / b] * b + p % b
  }

  /** The blocks from position v on, which is a block boundary. */
  ghost function BlocksPast(blocks: seq<int>, v: nat, b: Chunk): seq<int> {
    if v / b <= |blocks| then blocks[v / b..] else []
  }

  /** From a block boundary on, the slots give back the blocks. */
  lemma RecoveredBlocks(slots: seq<int>, blocks: seq<int>, v: nat, b: Chunk)
    requires InBlocks(slots, blocks, b) && v <= |slots| && Aligned(v, b)
    ensures BlocksOf(slots[v..], b) == BlocksPast(blocks, v, b) && (BlocksPast(blocks, v, b) == blocks <==> v == 0)
  {
    var w, part := v / b, slots[v..];
    BlocksFrom(|slots|, v, b);
    forall k | 0 <= k < CeilDiv(|part|, b) ensures BlocksOf(part, b)[k] == blocks[w + k] {
      StrideInBounds(k, |part|, b);
      AtStride(w, k, b, blocks[w + k]);
      assert part[k * b] == slots[v + k * b];
    }
  }

  lemma BlocksFrom(n: nat, v: nat, b: Chunk)
    requires v <= n && Aligned(v, b)
    ensures v == v / b * b && CeilDiv(n, b) == v / b + CeilDiv(n - v, b)
  {
    var w, m := v / b, CeilDiv(n - v, b);
    FloorBounds(n - v + b - 1, b);
    assert (w + m) * b == v + m * b;
    RemainderUnique(n + b - 1, b, w + m, n - v + b - 1 - m * b);
  }

  lemma AtStride(w: nat, k: nat, b: Chunk, block: int)
    ensures (w * b + k * b) / b == w + k && (w * b + k * b) % b == 0 && (block * b) / b == block
  {
    assert w * b + k * b == (w + k) * b;
    RemainderUnique(w * b + k * b, b, w + k, 0);
    RemainderUnique(block * b, b, block, 0);
  }

  /** Where vLLM's computed part of a row is whole blocks, the recovered table is the row's blocks beyond that part;
      so it is the row's own blocks exactly when vLLM had computed nothing. */
  lemma RecoveredTable(slots: seq<int>, rows: seq<Row>, full: seq<seq<int>>, i: nat, blocks: seq<int>, b: Chunk)
    requires i < |rows| == |full| && RowsOk(rows) && Holds(slots, rows, full, i)
    requires InBlocks(full[i], blocks, b) && Aligned(rows[i].VllmComputed(), b)
    ensures Recovered(slots, rows, i, b) == BlocksPast(blocks, rows[i].VllmComputed(), b)
    ensures Recovered(slots, rows, i, b) == blocks <==> rows[i].VllmComputed() == 0
  {
    hide BlocksOf, StartPos, InBlocks, BlocksPast, Aligned;
    var r, s := rows[i], StartPos(rows, i);
    var v := r.VllmComputed();
    BlocksLineUp(v, r.lmcComputed, b);
    SuffixOfPart(slots, s, s + |full[i]| - v, full[i], v, 0);
    RecoveredBlocks(full[i], blocks, v, b);
  }

  // ---------------------------------------------------------------- retrieval and rebuild as one

  datatype NextInput = Skipped | Unchanged | NewInput(x: Rebuilt)

  /** Something was found, and the forward pass is not skipped. */
  ghost predicate Rebuilds(rs: seq<Request>, c: Chunk)
    requires RequestsOk(rs, c)
  {
    !(AllChunks(rs, |rs|) && FullHit(rs, |rs|, c)) && !NoneFound(rs, |rs|, c)
  }

  /** The decoding rows have whole blocks before their last token. */
  ghost predicate DecodesWhole(rs: seq<Request>, b: Chunk) {
    forall i :: 0 <= i < |rs| && rs[i].status == NoRetrieve ==> rs[i].tokens != [] && Aligned(|rs[i].tokens| - 1, b)
  }

  /** What the rebuilt batch says of request i: it goes on from the last whole block of what is computed, and
      the positions are right exactly where what vLLM had computed is whole blocks; there the slots are right
      too, and so is a table that has to be recovered if vLLM had computed nothing. */
  ghost predicate GoesOn(x: Rebuilt, rs: seq<Request>, tables: seq<seq<int>>, full: seq<seq<int>>, i: nat, c: Chunk,
      b: Chunk)
    requires RequestsOk(rs, c) && i < |rs| == |tables| && Full(rs, full)
  {
    var q, v := rs[i], |rs[i].tokens| - rs[i].required;
    var n := Floor(q.Result(c).total, b);
    && |x.inputTokens| == |x.contextLens| == |x.queryLens| == |x.inputPositions| == |x.slotMapping| == |rs|
    && |x.blockTables| == |rs| && n < |q.tokens|
    && x.inputTokens[i] == q.tokens[n..] && x.contextLens[i] == n && x.queryLens[i] == |q.tokens| - n
    && (x.inputPositions[i] == Range(n, |q.tokens|) <==> Aligned(v, b))
    && (Aligned(v, b) ==> x.slotMapping[i] == full[i][n..])
    && (tables[i] != [] ==> x.blockTables[i] == tables[i])
    && (tables[i] == [] && Aligned(v, b) ==> forall blocks :: InBlocks(full[i], blocks, b) ==>
          x.blockTables[i] == BlocksPast(blocks, v, b) && (x.blockTables[i] == blocks <==> v == 0))
  }

  lemma RowGoesOn(x: Rebuilt, rs: seq<Request>, tables: seq<seq<int>>, full: seq<seq<int>>, i: nat, c: Chunk, b: Chunk)
    requires RequestsOk(rs, c) && i < |rs| == |tables| && Full(rs, full)
    requires var rows, positions := RowsOf(rs, tables, c), Flat(rs, AllPositions(rs), |rs|);
             && RowsBuilt(x, rows, positions, Flat(rs, full, |rs|), |rs|, b) && LensBuilt(x, rows, |rs|, b)
             && TablesBuilt(x, rows, Flat(rs, full, |rs|), |rs|, b)
    ensures GoesOn(x, rs, tables, full, i, c, b)
  {
    hide Flat, StartPos, Taken, Recovered, InBlocks, AfterRetrieve, Holds, IsLongest, Total, BlocksPast, Aligned;
    var rows, positions, slots := RowsOf(rs, tables, c), Flat(rs, AllPositions(rs), |rs|), Flat(rs, full, |rs|);
    var v := |rs[i].tokens| - rs[i].required;
    FlatHolds(rs, tables, AllPositions(rs), |rs|, i, c);
    FlatHolds(rs, tables, full, |rs|, i, c);
    SamePositions(rs, tables, c);
    TakesTheSuffixOnlyThen(positions, rows, i, b);
    if Aligned(v, b) {
      TakesTheSuffix(slots, rows, full, i, b);
      forall blocks | InBlocks(full[i], blocks, b) && tables[i] == []
        ensures x.blockTables[i] == BlocksPast(blocks, v, b) && (x.blockTables[i] == blocks <==> v == 0)
      {
        RecoveredTable(slots, rows, full, i, blocks, b);
      }
    }
  }

  lemma SamePositions(rs: seq<Request>, tables: seq<seq<int>>, c: Chunk)
    requires RequestsOk(rs, c) && |tables| == |rs|
    ensures var rows := RowsOf(rs, tables, c);
            AllPositions(rs) == seq(|rows|, j requires 0 <= j < |rows| => Range(0, |rows[j].tokens|))
  {
  }

  lemma DecodesAs(rs: seq<Request>, tables: seq<seq<int>>, c: Chunk, b: Chunk)
    requires RequestsOk(rs, c) && |tables| == |rs| && Decoding(rs, |rs|)
    ensures DecodesOne(RowsOf(rs, tables, c), |rs|, b) <==> DecodesWhole(rs, b)
  {
    hide Floor, AfterRetrieve;
    forall i | 0 <= i < |rs| && rs[i].status == NoRetrieve
      ensures RowsOf(rs, tables, c)[i].QueryLen(b) == 1 <==> Aligned(|rs[i].tokens| - 1, b)
    {
      DecodePasses(RowsOf(rs, tables, c)[i], b);
    }
  }

  /** The lengths, in the rebuilt batch, of the first n requests that are not decoding. */
  ghost function PrefillLens(rs: seq<Request>, lens: seq<nat>, n: nat): seq<nat>
    requires n <= |rs| == |lens|
  {
    if n == 0 then [] else PrefillLens(rs, lens, n - 1) + if rs[n - 1].status != NoRetrieve then [lens[n - 1]] else []
  }

  /** Where the rows lie in the concatenated batch: one after the other from 0 on. */
  ghost predicate LaidOut(x: Rebuilt, n: nat) {
    && |x.queryLens| == n && |x.queryStartLoc| == n + 1 && x.queryStartLoc[0] == 0
    && (forall i :: 0 <= i < n ==> x.queryStartLoc[i + 1] == x.queryStartLoc[i] + x.queryLens[i])
    && IsLongest(x.queryLens, x.maxQueryLen)
  }

  /** Index s of the concatenated batch is where row i ends. */
  ghost predicate IsLast(x: Rebuilt, i: nat, s: int)
    requires i + 1 < |x.queryStartLoc|
  {
    s == x.queryStartLoc[i + 1] as int - 1
  }

  /** The last token of row i is selected for sampling. */
  ghost predicate IsSelected(x: Rebuilt, i: nat)
    requires i + 1 < |x.queryStartLoc|
  {
    exists s :: s in x.selectedTokenIndices && IsLast(x, i, s)
  }

  /** Every request samples at its last token unless more of its prompt follows, and nothing else is sampled; the
      prefills are the requests that are not decoding. */
  ghost predicate Samples(x: Rebuilt, rs: seq<Request>)
    requires LaidOut(x, |rs|)
  {
    && (forall i :: 0 <= i < |rs| ==> (rs[i].status != ChunkPrefill <==> IsSelected(x, i)))
    && (forall s :: s in x.selectedTokenIndices ==> exists i :: 0 <= i < |rs| && IsLast(x, i, s))
    && Ascending(x.selectedTokenIndices)
    && x.numPrefills == |PrefillLens(rs, x.queryLens, |rs|)|
    && x.numPrefillTokens == Sum(PrefillLens(rs, x.queryLens, |rs|))
  }

  ghost predicate Ascending(s: seq<int>) { forall i, j :: 0 <= i < j < |s| ==> s[i] < s[j] }

  lemma {:induction false} LastTokensAscend(rows: seq<Row>, n: nat, b: Chunk)
    requires RowsOk(rows) && n <= |rows|
    ensures Ascending(LastTokens(rows, n, b))
    ensures forall s :: s in LastTokens(rows, n, b) ==> s < Total(rows, n, b)
  {
    if n > 0 {
      LastTokensAscend(rows, n - 1, b);
      TotalGrows(rows, n - 1, n, b);
      var init := LastTokens(rows, n - 1, b);
      assert forall i :: 0 <= i < |init| ==> init[i] in init;
    }
  }

  lemma {:induction false} PrefillsCounted(rs: seq<Request>, rows: seq<Row>, lens: seq<nat>, n: nat, b: Chunk)
    requires n <= |rs| == |rows| == |lens| && RowsOk(rows)
    requires forall i :: 0 <= i < |rs| ==>
        (rows[i].isPrefill <==> rs[i].status != NoRetrieve) && lens[i] == rows[i].QueryLen(b)
    ensures |PrefillLens(rs, lens, n)| == PrefillCount(rows, n)
    ensures Sum(PrefillLens(rs, lens, n)) == PrefillTotal(rows, n, b)
  {
    hide Floor, Row.QueryLen;
    if n > 0 {
      PrefillsCounted(rs, rows, lens, n - 1, b);
      if rs[n - 1].status != NoRetrieve {
        SumMore(PrefillLens(rs, lens, n - 1), lens[n - 1]);
      } else {
        assert PrefillLens(rs, lens, n) == PrefillLens(rs, lens, n - 1);
      }
    }
  }

  lemma SumMore(s: seq<nat>, x: nat)
    ensures Sum(s + [x]) == Sum(s) + x
  {
    assert (s + [x])[..|s|] == s;
  }

  lemma RowKinds(x: Rebuilt, rs: seq<Request>, tables: seq<seq<int>>, c: Chunk, b: Chunk)
    requires RequestsOk(rs, c) && |tables| == |rs| && LensBuilt(x, RowsOf(rs, tables, c), |rs|, b)
    ensures var rows := RowsOf(rs, tables, c);
            forall i :: 0 <= i < |rs| ==>
              && (rows[i].isPrefill <==> rs[i].status != NoRetrieve) && x.queryLens[i] == rows[i].QueryLen(b)
              && (rows[i].doSample <==> rs[i].status != ChunkPrefill)
  {
    hide Floor, AfterRetrieve, IsLongest, Request.Result, Total, Row.QueryLen;
  }

  lemma SamplesRight(x: Rebuilt, rs: seq<Request>, tables: seq<seq<int>>, positions: seq<int>, slots: seq<int>,
      c: Chunk, b: Chunk)
    requires RequestsOk(rs, c) && |tables| == |rs|
    requires var rows := RowsOf(rs, tables, c);
             && RowsBuilt(x, rows, positions, slots, |rs|, b) && LensBuilt(x, rows, |rs|, b)
             && CountsBuilt(x, rows, |rs|, b)
    ensures LaidOut(x, |rs|) && Samples(x, rs)
  {
    hide Floor, AfterRetrieve, IsLongest, Request.Result, RowsBuilt, PrefillLens, Sum, LastTokens, Cat, Ascending;
    hide Total, PrefillCount, PrefillTotal, LensBuilt, IsSelected, Row.QueryLen, RowsOf;
    var rows := RowsOf(rs, tables, c);
    LaidOutRight(x, rows, |rs|, b);
    RowKinds(x, rs, tables, c, b);
    PrefillsCounted(rs, rows, x.queryLens, |rs|, b);
    LastTokensAscend(rows, |rs|, b);
    AllSelected(x, rows, positions, slots, b);
    forall i | 0 <= i < |rs| ensures rs[i].status != ChunkPrefill <==> IsSelected(x, i) {
      assert rows[i].doSample <==> IsSelected(x, i);
    }
  }

  lemma AllSelected(x: Rebuilt, rows: seq<Row>, positions: seq<int>, slots: seq<int>, b: Chunk)
    requires RowsOk(rows) && RowsBuilt(x, rows, positions, slots, |rows|, b)
    requires LensBuilt(x, rows, |rows|, b) && CountsBuilt(x, rows, |rows|, b)
    ensures LaidOut(x, |rows|)
    ensures forall i :: 0 <= i < |rows| ==> (rows[i].doSample <==> IsSelected(x, i))
    ensures forall s :: s in x.selectedTokenIndices ==> exists i :: 0 <= i < |rows| && IsLast(x, i, s)
  {
    hide Floor, RowsBuilt, LensBuilt, CountsBuilt, IsLongest;
    LaidOutRight(x, rows, |rows|, b);
    forall i | 0 <= i < |rows| ensures rows[i].doSample <==> IsSelected(x, i) {
      SelectedAreLast(x, rows, positions, slots, i, b);
      if rows[i].doSample {
        var last: int := x.queryStartLoc[i + 1] - 1;
        assert last in x.selectedTokenIndices && IsLast(x, i, last);
      }
    }
    forall s | s in x.selectedTokenIndices ensures exists i :: 0 <= i < |rows| && IsLast(x, i, s) {
      OnlyLast(x, rows, s, b);
    }
  }

  lemma OnlyLast(x: Rebuilt, rows: seq<Row>, s: int, b: Chunk)
    requires RowsOk(rows) && LensBuilt(x, rows, |rows|, b) && CountsBuilt(x, rows, |rows|, b)
    requires s in x.selectedTokenIndices
    ensures exists i :: 0 <= i < |rows| && IsLast(x, i, s)
  {
    hide Floor, Total, LastTokens, IsLongest;
    var j := SampledOnly(rows, |rows|, s, b);
    assert x.queryStartLoc[j + 1] == Total(rows, j + 1, b);
    assert IsLast(x, j, s);
  }

  lemma LaidOutRight(x: Rebuilt, rows: seq<Row>, n: nat, b: Chunk)
    requires n == |rows| && RowsOk(rows) && LensBuilt(x, rows, n, b)
    ensures LaidOut(x, n)
  {
    hide Floor, IsLongest;
    forall i | 0 <= i < n ensures x.queryStartLoc[i + 1] == x.queryStartLoc[i] + x.queryLens[i] {
      assert x.queryStartLoc[i + 1] == Total(rows, i + 1, b);
    }
  }

  /** One step before the forward pass: what is retrieved for the batch, and what the model then computes.  Reports
      None where an assertion of the source fails, which takes a decoding row that wants more than one token, or
      one whose tokens but the last are not whole blocks in a batch that is rebuilt. */
  method RetrieveAndRebuild(rs: seq<Request>, tables: seq<seq<int>>, positions: seq<int>, slots: seq<int>,
      ghost full: seq<seq<int>>, c: Chunk, b: Chunk) returns (r: Option<NextInput>)
    requires RequestsOk(rs, c) && |tables| == |rs| && Full(rs, full)
    requires positions == Flat(rs, AllPositions(rs), |rs|) && slots == Flat(rs, full, |rs|)
    ensures r.None? <==> !Decoding(rs, |rs|) || (Rebuilds(rs, c) && !DecodesWhole(rs, b))
    ensures r.Some? ==> (r.value.Skipped? <==> AllChunks(rs, |rs|) && FullHit(rs, |rs|, c))
    ensures r.Some? ==> (r.value.NewInput? <==> Rebuilds(rs, c))
    ensures r.Some? && r.value.NewInput? ==>
              && (forall i :: 0 <= i < |rs| ==> GoesOn(r.value.x, rs, tables, full, i, c, b))
              && LaidOut(r.value.x, |rs|) && Samples(r.value.x, rs)
  {
    hide Decoding, AllChunks, FullHit, NoneFound, DecodesWhole, DecodesOne, GoesOn, Flat, Floor, RowsBuilt, LensBuilt;
    hide CountsBuilt, TablesBuilt, LaidOut, Samples;
    var computed, action := RetrieveKv(rs, c);
    r := None;
    if action == Some(SkipForward) {
      r := Some(Skipped);
    } else if action == Some(Original) {
      r := Some(Unchanged);
    } else if action.Some? {
      var rows := seq(|rs|, i requires 0 <= i < |rs| => RowOf(rs[i], computed[i], tables[i]));
      assert rows == RowsOf(rs, tables, c);
      DecodesAs(rs, tables, c, b);
      var built := BuildPartialPrefillInput(rows, positions, slots, b);
      if built.Some? {
        r := Some(NewInput(built.value));
        forall i | 0 <= i < |rs| ensures GoesOn(built.value, rs, tables, full, i, c, b) {
          RowGoesOn(built.value, rs, tables, full, i, c, b);
        }
        SamplesRight(built.value, rs, tables, positions, slots, c, b);
      }
    }
  }

  // ---------------------------------------------------------------- two batches of two-token blocks and chunks

  lemma FlatOfOne<T>(q: Request, full: seq<T>)
    requires q.required <= |q.tokens| == |full|
    ensures Flat([q], [full], 1) == full[|q.tokens| - q.required..]
  {
    assert Flat([q], [full], 0) == [];
  }

  lemma FlatOfTwo<T>(p: Request, q: Request, parts: seq<seq<T>>)
    requires |parts| == 2 && p.required <= |p.tokens| == |parts[0]| && q.required <= |q.tokens| == |parts[1]|
    ensures Flat([p, q], parts, 2) == parts[0][|p.tokens| - p.required..] + parts[1][|q.tokens| - q.required..]
  {
    assert Flat([p, q], parts, 0) == [];
    assert Flat([p, q], parts, 1) == parts[0][|p.tokens| - p.required..];
  }

  /** A prompt of five tokens of which vLLM has one: the cache has the first chunk, so three remain, and the
      positions they are given are not theirs. */
  method MisalignedRow(tokens: seq<Token>, table: seq<int>, slots: seq<int>) returns (x: Rebuilt)
    requires |tokens| == |slots| == 5
    ensures x.inputTokens == [tokens[2..]] && x.contextLens == [2]
    ensures |x.inputPositions| == 1 && x.inputPositions[0] != [2, 3, 4]
  {
    hide AfterRetrieve, Flat;
    var q := Request(tokens, 4, Prefill, 2);
    OddPrompt(q);
    FlatOfOne(q, slots);
    FlatOfOne(q, Range(0, 5));
    assert AllPositions([q]) == [Range(0, 5)];
    var r := RetrieveAndRebuild([q], [table], [1, 2, 3, 4], slots[1..], [slots], 2, 2);
    x := r.value.x;
    assert GoesOn(x, [q], [table], [slots], 0, 2, 2);
    assert Range(2, 5) == [2, 3, 4];
  }

  lemma OddPrompt(q: Request)
    requires |q.tokens| == 5 && q.required == 4 && q.status == Prefill && q.retrieved == 2
    ensures RequestsOk([q], 2) && q.Result(2) == Computed(2, 1) && Floor(2, 2) == 2 && !Aligned(1, 2)
    ensures Decoding([q], 1) && Rebuilds([q], 2) && DecodesWhole([q], 2)
  {
    FloorUnique(1, 2, 0);
    FloorUnique(2, 2, 2);
    assert [q][0] == q;
  }

  /** Batched with a prompt that is found in part, a row that decodes its second token fails the assertion. */
  method DecodingRowFails(tokens: seq<Token>, decoded: seq<Token>, tables: seq<seq<int>>, slots: seq<seq<int>>)
    returns (r: Option<NextInput>)
    requires |tokens| == 5 && |decoded| == 2 && |tables| == |slots| == 2 && |slots[0]| == 5 && |slots[1]| == 2
    ensures r == None
  {
    hide AfterRetrieve, Flat;
    var p, q := Request(tokens, 5, Prefill, 2), Request(decoded, 1, NoRetrieve, 0);
    FoundAndDecoding(p, q);
    FlatOfTwo(p, q, slots);
    FlatOfTwo(p, q, [Range(0, 5), Range(0, 2)]);
    assert AllPositions([p, q]) == [Range(0, 5), Range(0, 2)];
    r := RetrieveAndRebuild([p, q], tables, [0, 1, 2, 3, 4, 1], slots[0] + [slots[1][1]], slots, 2, 2);
  }

  lemma FoundAndDecoding(p: Request, q: Request)
    requires |p.tokens| == p.required == 5 && p.status == Prefill && p.retrieved == 2
    requires |q.tokens| == 2 && q.required == 1 && q.status == NoRetrieve && q.retrieved == 0
    ensures RequestsOk([p, q], 2) && Decoding([p, q], 2) && Rebuilds([p, q], 2) && !DecodesWhole([p, q], 2)
  {
    FloorUnique(0, 2, 0);
    assert [p, q][0] == p && [p, q][1] == q;
    assert p.Result(2).cached == 2;
  }

  // ---------------------------------------------------------------- context chunks for MLA

  function NumPositive(s: seq<nat>): nat {
    if s == [] then 0 else NumPositive(s[..|s| - 1]) + if s[|s| - 1] > 0 then 1 else 0
  }

  /** How much of a context of the given length falls into chunk i. */
  function ChunkLen(context: nat, i: nat, chunk: nat): nat {
    var start := i * chunk;
    var end := if context <= start + chunk then context else start + chunk;
    if end >= start then end - start else 0
  }

  function ChunkLens(contexts: seq<nat>, i: nat, chunk: nat): (r: seq<nat>)
    ensures |r| == |contexts|
  {
    seq(|contexts|, j requires 0 <= j < |contexts| => ChunkLen(contexts[j], i, chunk))
  }

  /** Running totals, from 0. */
  function CuSeqLens(s: seq<nat>): (r: seq<nat>)
    ensures |r| == |s| + 1 && r[0] == 0 && r[|s|] == Sum(s)
    ensures forall i :: 0 <= i < |s| ==> r[i + 1] == r[i] + s[i]
  {
    if s == [] then [0] else CuSeqLens(s[..|s| - 1]) + [Sum(s)]
  }

  datatype MlaParams = MlaParams(starts: seq<nat>, cuSeqLens: seq<seq<nat>>, maxSeqLens: seq<nat>, seqTot: seq<nat>)

  datatype MlaConfig = MlaConfig(maxModelLen: nat, maxNumSeqs: nat, blockSize: Chunk) {
    /** At least eight times the longest sequence and four blocks for every sequence, unless that is more than 128K
        positions, and no more than either. */
    function Workspace(): (w: nat)
      ensures w <= 128 * 1024 && (w == 128 * 1024 || (8 * maxModelLen <= w && 4 * maxNumSeqs * blockSize <= w))
      ensures w <= 8 * maxModelLen || w <= 4 * maxNumSeqs * blockSize
    {
      var want := if 8 * maxModelLen >= 4 * maxNumSeqs * blockSize then 8 * maxModelLen else 4 * maxNumSeqs * blockSize;
      if want <= 131072 then want else 131072
    }

    /** The context of each prefill row that one chunk takes, whole blocks of it. */
    function MaxContextChunk(k: nat): nat
      requires 0 < k
    {
      Floor(Workspace() / k, blockSize)
    }
  }

  datatype MlaOutcome = NoContext | Params(params: MlaParams) | AssertionFailed

  /** Each of n chunks takes up to one chunk size of every context. */
  function CutInto(prefills: seq<nat>, n: nat, chunk: nat): MlaParams {
    MlaParams(
      seq(n, i requires 0 <= i < n => i * chunk),
      seq(n, i requires 0 <= i < n => CuSeqLens(ChunkLens(prefills, i, chunk))),
      seq(n, i requires 0 <= i < n => Max(ChunkLens(prefills, i, chunk))),
      seq(n, i requires 0 <= i < n => Sum(ChunkLens(prefills, i, chunk))))
  }

  /** Cuts the contexts of the first numPrefills rows into chunks.  The last assertion of the source is
      checked here too; it never fails. */
  function BuildMlaParams(cfg: MlaConfig, contexts: seq<nat>, numPrefills: nat): MlaOutcome
    requires numPrefills <= |contexts|
  {
    var prefills := contexts[..numPrefills];
    var k := NumPositive(prefills);
    if Max(prefills) == 0 || k == 0 then NoContext
    else
      var chunk := cfg.MaxContextChunk(k);
      if chunk == 0 then AssertionFailed
      else
        var params := CutInto(prefills, CeilDiv(Max(contexts), chunk), chunk);
        if Max(params.seqTot) <= cfg.Workspace() then Params(params) else AssertionFailed
  }

  lemma {:induction false} PositiveWhenMax(s: seq<nat>)
    ensures Max(s) > 0 <==> NumPositive(s) > 0
  {
    if s != [] { PositiveWhenMax(s[..|s| - 1]); }
  }

  /** A chunk takes at most the chunk size of each row that has any context. */
  lemma {:induction false} ChunkTotal(contexts: seq<nat>, i: nat, chunk: nat)
    ensures Sum(ChunkLens(contexts, i, chunk)) <= NumPositive(contexts) * chunk
  {
    if contexts != [] {
      var init, last := contexts[..|contexts| - 1], contexts[|contexts| - 1];
      ChunkTotal(init, i, chunk);
      assert ChunkLens(contexts, i, chunk)[..|contexts| - 1] == ChunkLens(init, i, chunk);
      assert last == 0 ==> ChunkLen(last, i, chunk) == 0;
      assert (NumPositive(init) + 1) * chunk == NumPositive(init) * chunk + chunk;
    }
  }

  /** The lengths of one row's part in the first n chunks. */
  function LensOf(context: nat, n: nat, chunk: nat): seq<nat> {
    seq(n, i requires 0 <= i < n => ChunkLen(context, i, chunk))
  }

  lemma OneMoreChunk(context: nat, i: nat, chunk: nat)
    ensures var s := i * chunk;
            (if context <= s then context else s) + ChunkLen(context, i, chunk) ==
                if context <= s + chunk then context else s + chunk
    ensures (i + 1) * chunk == i * chunk + chunk
  {
  }

  /** The first n chunks take the context up to n chunk sizes. */
  lemma {:induction false} ChunksAddUp(context: nat, n: nat, chunk: nat)
    ensures Sum(LensOf(context, n, chunk)) == if context <= n * chunk then context else n * chunk
  {
    hide ChunkLen;
    if n > 0 {
      var lens := LensOf(context, n, chunk);
      ChunksAddUp(context, n - 1, chunk);
      assert lens[..n - 1] == LensOf(context, n - 1, chunk) && lens[n - 1] == ChunkLen(context, n - 1, chunk);
      OneMoreChunk(context, n - 1, chunk);
    }
  }

  /** Every chunk's total is within the workspace. */
  lemma TotalsFit(prefills: seq<nat>, n: nat, chunk: nat, workspace: nat)
    requires NumPositive(prefills) * chunk <= workspace
    ensures var tot := CutInto(prefills, n, chunk).seqTot;
            |tot| == n && Max(tot) <= workspace && forall i :: 0 <= i < n ==> tot[i] <= workspace
  {
    hide ChunkLens;
    var tot := CutInto(prefills, n, chunk).seqTot;
    forall i | 0 <= i < n ensures tot[i] <= workspace { ChunkTotal(prefills, i, chunk); }
  }

  /** With enough chunks for the longest context, a row's parts add up to its context. */
  lemma PartsAddUp(contexts: seq<nat>, chunk: nat, j: nat)
    requires 0 < chunk && j < |contexts|
    ensures Sum(LensOf(contexts[j], CeilDiv(Max(contexts), chunk), chunk)) == contexts[j]
  {
    CeilDivBounds(Max(contexts), chunk);
    ChunksAddUp(contexts[j], CeilDiv(Max(contexts), chunk), chunk);
  }

  /** Chunk i's running totals start at 0, step by row j's part, and end at the chunk's total. */
  lemma RunningTotals(prefills: seq<nat>, n: nat, chunk: nat, i: nat, j: nat)
    requires i < n && j < |prefills|
    ensures var x := CutInto(prefills, n, chunk);
            && |x.cuSeqLens| == |x.seqTot| == n && |x.cuSeqLens[i]| == |prefills| + 1
            && x.cuSeqLens[i][0] == 0 && x.cuSeqLens[i][|prefills|] == x.seqTot[i]
            && x.cuSeqLens[i][j + 1] == x.cuSeqLens[i][j] + LensOf(prefills[j], n, chunk)[i]
  {
    hide ChunkLen, Sum;
  }

  /** The outcome: the only assertion that can fail is the first, and it fails exactly when some prefill
      has context and the workspace, shared among those that do, is less than a block each.  Otherwise
      every chunk's total is within the workspace, and the parts of each prefill add up to its context. */
  lemma ChunkingIsRight(cfg: MlaConfig, contexts: seq<nat>, numPrefills: nat)
    requires numPrefills <= |contexts|
    ensures var k, r := NumPositive(contexts[..numPrefills]), BuildMlaParams(cfg, contexts, numPrefills);
            && (r.NoContext? <==> k == 0)
            && (r.AssertionFailed? <==> k > 0 && cfg.Workspace() / k < cfg.blockSize)
            && (r.Params? ==> Conserves(cfg, contexts, numPrefills, k, r.params))
  {
    hide CutInto, ChunkLens, LensOf, Conserves, MlaConfig.Workspace;
    var prefills := contexts[..numPrefills];
    var k := NumPositive(prefills);
    PositiveWhenMax(prefills);
    if k > 0 {
      var chunk := cfg.MaxContextChunk(k);
      ChunkPositive(cfg.Workspace(), k, cfg.blockSize);
      if chunk > 0 {
        var n := CeilDiv(Max(contexts), chunk);
        TotalsFit(prefills, n, chunk, cfg.Workspace());
        CutConserves(cfg, contexts, numPrefills, k, chunk);
      }
    }
  }

  ghost predicate Conserves(cfg: MlaConfig, contexts: seq<nat>, numPrefills: nat, k: nat, x: MlaParams)
    requires numPrefills <= |contexts| && 0 < k
  {
    var chunk, n := cfg.MaxContextChunk(k), |x.seqTot|;
    && (forall i :: 0 <= i < n ==> x.seqTot[i] <= cfg.Workspace())
    && (forall j :: 0 <= j < numPrefills ==> Sum(LensOf(contexts[j], n, chunk)) == contexts[j])
  }

  /** How much of context j chunk i takes, as the running totals tell. */
  ghost function PartLen(x: MlaParams, i: nat, j: nat): int
    requires i < |x.cuSeqLens| && j + 1 < |x.cuSeqLens[i]|
  {
    x.cuSeqLens[i][j + 1] as int - x.cuSeqLens[i][j]
  }

  /** The shape of the parameters: n chunks of m contexts each. */
  ghost predicate Shaped(x: MlaParams, n: nat, m: nat) {
    && |x.starts| == |x.cuSeqLens| == |x.maxSeqLens| == |x.seqTot| == n
    && forall i :: 0 <= i < n ==> |x.cuSeqLens[i]| == m + 1
  }

  lemma ShapeOf(prefills: seq<nat>, n: nat, chunk: nat)
    ensures Shaped(CutInto(prefills, n, chunk), n, |prefills|)
    ensures forall i, j :: 0 <= i < n && 0 <= j < |prefills| ==>
              PartLen(CutInto(prefills, n, chunk), i, j) == ChunkLen(prefills[j], i, chunk)
  {
    hide ChunkLen;
    forall i, j | 0 <= i < n && 0 <= j < |prefills|
      ensures PartLen(CutInto(prefills, n, chunk), i, j) == ChunkLen(prefills[j], i, chunk)
    {
      RunningTotals(prefills, n, chunk, i, j);
    }
  }

  /** Position p of context j is in the part, from its chunk's start on, of chunk i and of no other, and no part goes
      beyond its context. */
  ghost predicate OnlyIn(x: MlaParams, m: nat, j: nat, context: nat, p: nat, i: nat)
    requires Shaped(x, |x.starts|, m) && j < m
  {
    && i < |x.starts|
    && forall k :: 0 <= k < |x.starts| ==>
         && (x.starts[k] <= p < x.starts[k] + PartLen(x, k, j) <==> k == i)
         && 0 <= PartLen(x, k, j) && (PartLen(x, k, j) > 0 ==> x.starts[k] + PartLen(x, k, j) <= context)
  }

  /** The chunks tile the contexts. */
  lemma PartsTile(cfg: MlaConfig, contexts: seq<nat>, numPrefills: nat, j: nat, p: nat) returns (i: nat)
    requires j < numPrefills <= |contexts| && p < contexts[j]
    requires BuildMlaParams(cfg, contexts, numPrefills).Params?
    ensures var x := BuildMlaParams(cfg, contexts, numPrefills).params;
            Shaped(x, |x.starts|, numPrefills) && OnlyIn(x, numPrefills, j, contexts[j], p, i)
  {
    hide CutInto, Sum, MlaConfig.Workspace, Floor, NumPositive, OnlyIn, Shaped;
    var prefills := contexts[..numPrefills];
    var chunk := cfg.MaxContextChunk(NumPositive(prefills));
    i := CutTiles(prefills, CeilDiv(Max(contexts), chunk), chunk, j, p) by {
      CeilDivBounds(Max(contexts), chunk);
    }
  }

  lemma CutTiles(prefills: seq<nat>, n: nat, chunk: nat, j: nat, p: nat) returns (i: nat)
    requires 0 < chunk && j < |prefills| && p < prefills[j] <= n * chunk
    ensures var x := CutInto(prefills, n, chunk);
            |x.starts| == n && Shaped(x, n, |prefills|) && OnlyIn(x, |prefills|, j, prefills[j], p, i)
  {
    hide CutInto, ChunkLen, PartLen, Floor;
    ShapeOf(prefills, n, chunk);
    StartsOf(prefills, n, chunk);
    FloorBounds(p, chunk);
    i := p / chunk;
    assert i < n by { assert i >= n ==> i * chunk >= n * chunk; }
    forall k | 0 <= k < n
      ensures k * chunk <= p < k * chunk + ChunkLen(prefills[j], k, chunk) <==> k == i
      ensures ChunkLen(prefills[j], k, chunk) > 0 ==> k * chunk + ChunkLen(prefills[j], k, chunk) <= prefills[j]
    {
      PartHas(prefills[j], k, chunk, p);
    }
  }

  lemma StartsOf(prefills: seq<nat>, n: nat, chunk: nat)
    ensures var x := CutInto(prefills, n, chunk);
            |x.starts| == n && forall k :: 0 <= k < n ==> x.starts[k] == k * chunk
  {
    hide CuSeqLens, ChunkLens;
  }

  lemma PartHas(context: nat, k: nat, chunk: nat, p: nat)
    requires 0 < chunk && p < context
    ensures k * chunk <= p < k * chunk + ChunkLen(context, k, chunk) <==> k == p / chunk
    ensures ChunkLen(context, k, chunk) > 0 ==> k * chunk + ChunkLen(context, k, chunk) <= context
  {
    FloorBounds(p, chunk);
    if k * chunk <= p < k * chunk + chunk { RemainderUnique(p, chunk, k, p - k * chunk); }
  }

  /** The longest part of each chunk. */
  lemma LongestPart(cfg: MlaConfig, contexts: seq<nat>, numPrefills: nat, i: nat)
    requires numPrefills <= |contexts| && BuildMlaParams(cfg, contexts, numPrefills).Params?
    requires i < |BuildMlaParams(cfg, contexts, numPrefills).params.maxSeqLens|
    ensures var x := BuildMlaParams(cfg, contexts, numPrefills).params;
            && Shaped(x, |x.starts|, numPrefills)
            && (forall j :: 0 <= j < numPrefills ==> PartLen(x, i, j) <= x.maxSeqLens[i])
            && exists j :: 0 <= j < numPrefills && PartLen(x, i, j) == x.maxSeqLens[i]
  {
    hide CuSeqLens, Sum, MlaConfig.Workspace, PartLen, Floor, NumPositive, ChunkLen;
    var prefills := contexts[..numPrefills];
    var chunk := cfg.MaxContextChunk(NumPositive(prefills));
    var n := CeilDiv(Max(contexts), chunk);
    ShapeOf(prefills, n, chunk);
    var lens := ChunkLens(prefills, i, chunk);
    assert lens != [] && Max(lens) in lens;
    var j :| 0 <= j < |lens| && lens[j] == Max(lens);
    assert PartLen(CutInto(prefills, n, chunk), i, j) == lens[j];
    forall j | 0 <= j < numPrefills ensures PartLen(CutInto(prefills, n, chunk), i, j) <= Max(lens) {
      assert lens[j] <= Max(lens);
    }
  }

  lemma CutConserves(cfg: MlaConfig, contexts: seq<nat>, numPrefills: nat, k: nat, chunk: nat)
    requires numPrefills <= |contexts| && k == NumPositive(contexts[..numPrefills]) > 0 &&
        chunk == cfg.MaxContextChunk(k) > 0
    ensures Conserves(cfg, contexts, numPrefills, k,
        CutInto(contexts[..numPrefills], CeilDiv(Max(contexts), chunk), chunk))
  {
    hide LensOf, Sum, MlaConfig.Workspace;
    ChunkPositive(cfg.Workspace(), k, cfg.blockSize);
    TotalsFit(contexts[..numPrefills], CeilDiv(Max(contexts), chunk), chunk, cfg.Workspace());
    forall j | 0 <= j < numPrefills ensures Sum(LensOf(contexts[j], CeilDiv(Max(contexts), chunk), chunk)) ==
        contexts[j] {
      PartsAddUp(contexts, chunk, j);
    }
  }

  lemma ChunkPositive(w: nat, k: nat, b: Chunk)
    requires 0 < k
    ensures Floor(w / k, b) > 0 <==> w / k >= b
    ensures k * Floor(w / k, b) <= w
  {
    FloorBounds(w, k);
    var q, f := w / k, Floor(w / k, b);
    assert k * f <= q * k;
    if q >= b && f == 0 { assert q < f + b; }
    if f > 0 {
      ZeroIsMultiple(b);
      if q < b { FloorUnique(q, b, 0); }
    }
  }
}