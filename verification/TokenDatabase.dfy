/** Cache keys derived from token prefixes: a chunk's key is the digest of the previous chunk's key and
    the chunk's own tokens.

    The digest is a parameter.  It is never assumed injective, which no function onto 64-character
    strings can be; results that need it exhibit a collision, or are stated for a finite set of inputs
    on which the digest has none. */
module TokenDatabase {
  import opened Wrappers
  import opened CacheKeys
  import opened Arithmetic

  type Octet = x: int | 0 <= x < 256
  type Token = x: int | 0 <= x < 0x1_0000_0000
  type Digest = seq<Octet> -> string
  type Chunk = x: int | 0 < x witness 1

  predicate HexChar(c: char) { '0' <= c <= '9' || 'a' <= c <= 'f' }

  /** What the hexadecimal form of a 256-bit digest looks like. */
  ghost predicate HexDigests(hash: Digest) {
    forall x :: |hash(x)| == 64 && forall i :: 0 <= i < 64 ==> HexChar(hash(x)[i])
  }

  // ---------------------------------------------------------------- bytes that are hashed

  /** Little-endian bytes of a 32-bit token id. */
  function TokenBytes(t: Token): (r: seq<Octet>)
    ensures |r| == 4
  {
    [t % 256, t / 256 % 256, t / 65536 % 256, t / 16777216]
  }

  function TokensBytes(ts: seq<Token>): (r: seq<Octet>)
    ensures |r| == 4 * |ts|
  {
    if ts == [] then [] else TokenBytes(ts[0]) + TokensBytes(ts[1..])
  }

  function Ascii(s: string): (r: seq<Octet>)
    ensures |r| == |s|
  {
    seq(|s|, i requires 0 <= i < |s| => if s[i] < 128 as char then s[i] as int else 0)
  }

  function TokenOf(b: seq<Octet>): int
    requires |b| == 4
  {
    b[0] as int + 256 * b[1] as int + 65536 * b[2] as int + 16777216 * b[3] as int
  }

  lemma TokenOfBytes(t: Token)
    ensures TokenOf(TokenBytes(t)) == t
  {
    var q1, q2 := t / 256, t / 65536;
    assert t == 256 * q1 + t % 256 && q1 == 256 * (q1 / 256) + q1 % 256 && q1 / 256 == q2;
    assert q2 == 256 * (q2 / 256) + q2 % 256 && q2 / 256 == t / 16777216;
  }

  lemma {:induction false} TokensBytesInjective(ts: seq<Token>, us: seq<Token>)
    requires TokensBytes(ts) == TokensBytes(us)
    ensures ts == us
  {
    if ts != [] && us != [] {
      var a, b := TokensBytes(ts), TokensBytes(us);
      assert a[..4] == TokenBytes(ts[0]) && b[..4] == TokenBytes(us[0]);
      assert a[4..] == TokensBytes(ts[1..]) && b[4..] == TokensBytes(us[1..]);
      TokenOfBytes(ts[0]);
      TokenOfBytes(us[0]);
      TokensBytesInjective(ts[1..], us[1..]);
      assert ts == [ts[0]] + ts[1..] && us == [us[0]] + us[1..];
    }
  }

  /** Four hexadecimal characters, read as a token, are at least 0x30303030. */
  lemma HexTokenIsLarge(h: string, t: Token)
    requires |h| >= 4 && (forall i :: 0 <= i < 4 ==> HexChar(h[i])) && TokenBytes(t) == Ascii(h)[..4]
    ensures t >= 0x3030_3030
  {
    TokenOfBytes(t);
    var a := Ascii(h)[..4];
    assert HexChar(h[0]) && HexChar(h[1]) && HexChar(h[2]) && HexChar(h[3]);
    assert a[0] >= 48 && a[1] >= 48 && a[2] >= 48 && a[3] >= 48;
  }

  /** The bytes hashed for a chunk. */
  function HashInput(prefixHash: string, chunk: seq<Token>): seq<Octet> {
    Ascii(prefixHash) + TokensBytes(chunk)
  }

  // ---------------------------------------------------------------- prefixes and their keys

  /** Where the last chunk of a non-empty prefix starts. */
  function LastStart(c: Chunk, n: nat): (s: nat)
    requires 0 < n
    ensures s < n <= s + c && Aligned(s, c)
  {
    Floor(n - 1, c)
  }

  /** The key of the chunk that ends a prefix. */
  function PrefixHash(hash: Digest, c: Chunk, p: seq<Token>): string
    requires p != []
  {
    hash(LastInput(hash, c, p))
  }

  /** What is hashed for the chunk that ends a prefix. */
  function LastInput(hash: Digest, c: Chunk, p: seq<Token>): seq<Octet>
    requires p != []
    decreases |p|
  {
    var s := LastStart(c, |p|);
    HashInput(if s == 0 then "" else hash(LastInput(hash, c, p[..s])), p[s..])
  }

  /** Everything hashed on the way to a prefix's key. */
  ghost function Inputs(hash: Digest, c: Chunk, p: seq<Token>): set<seq<Octet>>
    requires p != []
    decreases |p|
  {
    var s := LastStart(c, |p|);
    {LastInput(hash, c, p)} + if s == 0 then {} else Inputs(hash, c, p[..s])
  }

  ghost predicate SmallTokens(p: seq<Token>) {
    forall i :: 0 <= i < |p| ==> p[i] < 0x3030_3030
  }

  /** Whether the last chunk of a prefix is a later one, and short enough that a first chunk could hold
      tokens spelling a digest and then the chunk's own. */
  ghost predicate Spellable(c: Chunk, p: seq<Token>)
    requires p != []
  {
    0 < LastStart(c, |p|) && 16 + (|p| - LastStart(c, |p|)) <= c
  }

  /** What keeps two prefixes from being confused. */
  ghost predicate Apart(c: Chunk, p: seq<Token>, q: seq<Token>)
    requires p != [] && q != []
  {
    (SmallTokens(p) && SmallTokens(q)) || (!Spellable(c, p) && !Spellable(c, q))
  }

  // ---------------------------------------------------------------- keys determine prefixes

  ghost predicate CollisionFreeOn(hash: Digest, xs: set<seq<Octet>>) {
    forall x, y :: x in xs && y in xs && hash(x) == hash(y) ==> x == y
  }

  lemma AsciiInjective(a: string, b: string)
    requires Ascii(a) == Ascii(b)
    requires (forall i :: 0 <= i < |a| ==> HexChar(a[i])) && (forall i :: 0 <= i < |b| ==> HexChar(b[i]))
    ensures a == b
  {
    assert |a| == |b|;
    forall i | 0 <= i < |a| ensures a[i] == b[i] {
      assert Ascii(a)[i] == a[i] as int && Ascii(b)[i] == b[i] as int;
    }
  }

  lemma Halves(a: string, b: seq<Token>)
    ensures HashInput(a, b)[..|a|] == Ascii(a) && HashInput(a, b)[|a|..] == TokensBytes(b)
  {
  }

  /** The bytes hashed for a later chunk never look like those of a first chunk of small tokens. */
  lemma FirstChunkIsApart(p: seq<Token>, h: string, q: seq<Token>)
    requires SmallTokens(p) && p != [] && |h| == 64 && forall i :: 0 <= i < 64 ==> HexChar(h[i])
    ensures HashInput("", p) != HashInput(h, q)
  {
    Halves(h, q);
    var a := HashInput("", p);
    assert a[..4] == TokenBytes(p[0]);
    if a == HashInput(h, q) {
      assert a[..4] == Ascii(h)[..4];
      HexTokenIsLarge(h, p[0]);
    }
  }

  lemma LastStartOfWhole(c: Chunk, n: nat)
    requires 0 < n && Aligned(n, c)
    ensures LastStart(c, n) == n - c
  {
    ZeroIsMultiple(c);
    ApartByPeriod(0, n, c);
    NextMultiple(n, c);
    FloorUnique(n - 1, c, n - c);
  }

  /** No whole chunk is short enough to be spelled, and in chunks of at most 16 tokens none is. */
  lemma NotSpellable(c: Chunk, p: seq<Token>)
    requires p != [] && (c <= 16 || Aligned(|p|, c))
    ensures !Spellable(c, p)
  {
    if Aligned(|p|, c) { LastStartOfWhole(c, |p|); }
  }

  lemma InnerApart(c: Chunk, p: seq<Token>, q: seq<Token>)
    requires p != [] && q != [] && 0 < LastStart(c, |p|) && 0 < LastStart(c, |q|)
    ensures Apart(c, p[..LastStart(c, |p|)], q[..LastStart(c, |q|)])
  {
    NotSpellable(c, p[..LastStart(c, |p|)]);
    NotSpellable(c, q[..LastStart(c, |q|)]);
  }

  /** Equal digests of two prefixes that nothing can confuse mean equal prefixes, or else the digest
      collides on two of the inputs hashed on the way; in that case the colliding inputs are returned. */
  lemma {:induction false} KeyCollision(hash: Digest, c: Chunk, p: seq<Token>, q: seq<Token>)
    returns (x: seq<Octet>, y: seq<Octet>)
    requires HexDigests(hash) && p != [] && q != [] && Apart(c, p, q)
    requires PrefixHash(hash, c, p) == PrefixHash(hash, c, q) && p != q
    ensures x != y && hash(x) == hash(y) && x in Inputs(hash, c, p) && y in Inputs(hash, c, q)
    decreases |p|
  {
    x, y := LastInput(hash, c, p), LastInput(hash, c, q);
    if x == y {
      var s, t := LastStart(c, |p|), LastStart(c, |q|);
      if s == 0 || t == 0 {
        SameFirstChunk(hash, c, p, q);
      } else {
        SameLaterChunk(hash, c, p, q);
        assert p == p[..s] + p[s..] && q == q[..t] + q[t..];
        InnerApart(c, p, q);
        x, y := KeyCollision(hash, c, p[..s], q[..t]);
      }
    }
  }

  lemma FirstAndLater(hash: Digest, c: Chunk, p: seq<Token>, q: seq<Token>)
    requires HexDigests(hash) && p != [] && q != [] && Apart(c, p, q)
    requires LastStart(c, |p|) == 0 < LastStart(c, |q|)
    ensures LastInput(hash, c, p) != LastInput(hash, c, q)
  {
    var t := LastStart(c, |q|);
    var h := PrefixHash(hash, c, q[..t]);
    if SmallTokens(p) {
      FirstChunkIsApart(p, h, q[t..]);
    } else {
      assert |HashInput("", p)| == 4 * |p| && |HashInput(h, q[t..])| == 64 + 4 * (|q| - t);
    }
  }

  lemma SameFirstChunk(hash: Digest, c: Chunk, p: seq<Token>, q: seq<Token>)
    requires HexDigests(hash) && p != [] && q != [] && Apart(c, p, q)
    requires LastInput(hash, c, p) == LastInput(hash, c, q) && (LastStart(c, |p|) == 0 || LastStart(c, |q|) == 0)
    ensures p == q
  {
    var s, t := LastStart(c, |p|), LastStart(c, |q|);
    if s > 0 {
      FirstAndLater(hash, c, q, p);
    } else if t > 0 {
      FirstAndLater(hash, c, p, q);
    } else {
      Halves("", p);
      Halves("", q);
      TokensBytesInjective(p, q);
    }
  }

  ghost predicate IsDigest(h: string) {
    |h| == 64 && forall i :: 0 <= i < 64 ==> HexChar(h[i])
  }

  lemma SplitInput(a: string, ps: seq<Token>, b: string, qs: seq<Token>)
    requires IsDigest(a) && IsDigest(b) && HashInput(a, ps) == HashInput(b, qs)
    ensures a == b && ps == qs
  {
    Halves(a, ps);
    Halves(b, qs);
    AsciiInjective(a, b);
    TokensBytesInjective(ps, qs);
  }

  lemma LaterInput(hash: Digest, c: Chunk, p: seq<Token>)
    requires HexDigests(hash) && p != [] && LastStart(c, |p|) > 0
    ensures var s := LastStart(c, |p|);
            && LastInput(hash, c, p) == HashInput(PrefixHash(hash, c, p[..s]), p[s..])
            && IsDigest(PrefixHash(hash, c, p[..s]))
  {
  }

  lemma SameLaterChunk(hash: Digest, c: Chunk, p: seq<Token>, q: seq<Token>)
    requires HexDigests(hash) && p != [] && q != []
    requires LastInput(hash, c, p) == LastInput(hash, c, q)
    requires LastStart(c, |p|) > 0 && LastStart(c, |q|) > 0
    ensures var s, t := LastStart(c, |p|), LastStart(c, |q|);
            p[s..] == q[t..] && PrefixHash(hash, c, p[..s]) == PrefixHash(hash, c, q[..t])
  {
    var s, t := LastStart(c, |p|), LastStart(c, |q|);
    LaterInput(hash, c, p);
    LaterInput(hash, c, q);
    hide LastStart, LastInput, PrefixHash, HashInput, HexDigests, IsDigest, Ascii;
    SplitInput(PrefixHash(hash, c, p[..s]), p[s..], PrefixHash(hash, c, q[..t]), q[t..]);
  }

  /** Where the digest has no collision, two prefixes that nothing can confuse have the same key exactly
      when they are the same prefix; in particular they end at the same chunk index. */
  lemma KeysDeterminePrefixes(hash: Digest, c: Chunk, p: seq<Token>, q: seq<Token>)
    requires HexDigests(hash) && p != [] && q != [] && Apart(c, p, q)
    requires CollisionFreeOn(hash, Inputs(hash, c, p) + Inputs(hash, c, q))
    ensures PrefixHash(hash, c, p) == PrefixHash(hash, c, q) <==> p == q
  {
    if PrefixHash(hash, c, p) == PrefixHash(hash, c, q) && p != q {
      var x, y := KeyCollision(hash, c, p, q);
    }
  }

  // ---------------------------------------------------------------- tokens that spell a digest

  function TokensOf(b: seq<Octet>): (ts: seq<Token>)
    requires |b| % 4 == 0
    ensures |ts| == |b| / 4
  {
    if b == [] then []
    else
      assert 0 <= TokenOf(b[..4]) < 0x1_0000_0000;
      [TokenOf(b[..4])] + TokensOf(b[4..])
  }

  lemma BytesOfToken(b: seq<Octet>)
    requires |b| == 4
    ensures 0 <= TokenOf(b) < 0x1_0000_0000 && TokenBytes(TokenOf(b)) == b
  {
    var t, b0: int, b1: int, b2: int, b3: int := TokenOf(b), b[0], b[1], b[2], b[3];
    RemainderUnique(t, 256, b1 + 256 * b2 + 65536 * b3, b0);
    RemainderUnique(b1 + 256 * b2 + 65536 * b3, 256, b2 + 256 * b3, b1);
    RemainderUnique(t, 65536, b2 + 256 * b3, b0 + 256 * b1);
    RemainderUnique(b2 + 256 * b3, 256, b3, b2);
    RemainderUnique(t, 16777216, b3, b0 + 256 * b1 + 65536 * b2);
    assert TokenBytes(t) == [b[0], b[1], b[2], b[3]];
  }

  lemma {:induction false} BytesOfTokens(b: seq<Octet>)
    requires |b| % 4 == 0
    ensures TokensBytes(TokensOf(b)) == b
    decreases |b|
  {
    if b != [] {
      BytesOfToken(b[..4]);
      BytesOfTokens(b[4..]);
      var ts := TokensOf(b);
      assert ts[0] == TokenOf(b[..4]) && ts[1..] == TokensOf(b[4..]);
      assert b == b[..4] + b[4..];
    }
  }

  lemma SpelledTokens(h: string, chunk: seq<Token>)
    requires IsDigest(h)
    ensures var p := TokensOf(HashInput(h, chunk));
            |p| == 16 + |chunk| && HashInput("", p) == HashInput(h, chunk) && !SmallTokens(p)
  {
    var p := TokensOf(HashInput(h, chunk));
    BytesOfTokens(HashInput(h, chunk));
    Halves("", p);
    Halves(h, chunk);
    assert TokensBytes(p)[..4] == TokenBytes(p[0]) && HashInput(h, chunk)[..4] == Ascii(h)[..4];
    HexTokenIsLarge(h, p[0]);
  }

  /** The tokens that spell what is hashed for the last chunk of a prefix. */
  function Spelled(hash: Digest, c: Chunk, q: seq<Token>): seq<Token>
    requires HexDigests(hash) && q != [] && 0 < LastStart(c, |q|)
  {
    var s := LastStart(c, |q|);
    TokensOf(HashInput(PrefixHash(hash, c, q[..s]), q[s..]))
  }

  /** For every digest: whenever the last chunk of a prefix q can be spelled, some single-chunk prefix p,
      whose tokens spell the key before that chunk followed by the chunk, has the same key, and nothing
      is hashed for p that is not hashed for q. */
  lemma LargeTokensConfuse(hash: Digest, c: Chunk, q: seq<Token>) returns (p: seq<Token>)
    requires HexDigests(hash) && q != [] && Spellable(c, q)
    ensures p != [] && p != q && PrefixHash(hash, c, p) == PrefixHash(hash, c, q) && !SmallTokens(p)
    ensures p == Spelled(hash, c, q) && |p| <= c && Inputs(hash, c, p) <= Inputs(hash, c, q)
  {
    var s := LastStart(c, |q|);
    p := Spelled(hash, c, q);
    SpelledTokens(PrefixHash(hash, c, q[..s]), q[s..]);
    ZeroIsMultiple(c);
    FloorUnique(|p| - 1, c, 0);
    ApartByPeriod(0, s, c);
  }

  /** What is hashed for leading whole chunks is hashed for all. */
  lemma {:induction false} InputsOfWhole(hash: Digest, c: Chunk, q: seq<Token>, k: nat)
    requires 0 < k <= |q| && Aligned(k, c)
    ensures Inputs(hash, c, q[..k]) <= Inputs(hash, c, q)
    decreases |q|
  {
    var s := LastStart(c, |q|);
    if k == |q| {
      assert q[..k] == q;
    } else {
      if s < k { ApartByPeriod(s, k, c); }
      InputsOfWhole(hash, c, q[..s], k);
      assert q[..s][..k] == q[..k];
    }
  }

  // ---------------------------------------------------------------- the chunked database

  /** One chunk of a token sequence: its half-open range and its key. */
  datatype Entry = Entry(start: nat, end: nat, key: CacheEngineKey)

  function NumFalses(mask: seq<bool>): nat {
    if mask == [] then 0 else NumFalses(mask[..|mask| - 1]) + (if mask[|mask| - 1] then 0 else 1)
  }

  datatype ChunkedTokenDatabase = ChunkedTokenDatabase(
    hash: Digest, chunkSize: Chunk, saveUnfullChunk: bool,
    fmt: string, modelName: string, worldSize: int, workerId: int)
  {
    function Hash(chunk: seq<Token>, prefixHash: string): string { hash(HashInput(prefixHash, chunk)) }

    function MakeKeyByHash(chunkHash: string): CacheEngineKey {
      CacheEngineKey(fmt, modelName, worldSize, workerId, chunkHash)
    }

    /** The key of the chunk that ends a prefix. */
    function Key(p: seq<Token>): CacheEngineKey
      requires p != []
    {
      MakeKeyByHash(PrefixHash(hash, chunkSize, p))
    }

    /** How many tokens are covered by chunks. */
    function Limit(n: nat): (r: nat)
      ensures r <= n
    {
      if saveUnfullChunk then n else Floor(n, chunkSize)
    }

    function ChunkEnd(s: nat, n: nat): nat {
      if s + chunkSize <= n then s + chunkSize else n
    }

    /** The chunks of a sequence from position s on, each keyed by the whole prefix it ends. */
    ghost function Entries(tokens: seq<Token>, s: nat): seq<Entry>
      decreases |tokens| - s
    {
      if s >= Limit(|tokens|) then []
      else
        var e := ChunkEnd(s, |tokens|);
        [Entry(s, e, Key(tokens[..e]))] + Entries(tokens, s + chunkSize)
    }

    /** The prefixes that get a key: all of them if partial chunks are saved, otherwise whole chunks. */
    ghost predicate Keyed(p: seq<Token>) {
      p != [] && (saveUnfullChunk || Aligned(|p|, chunkSize))
    }

    lemma {:induction false} EntryIsKeyed(tokens: seq<Token>, s: nat, e: Entry)
      requires Aligned(s, chunkSize) && e in Entries(tokens, s)
      ensures e.start < e.end <= |tokens| && Keyed(tokens[..e.end]) && e.key == Key(tokens[..e.end])
      decreases |tokens| - s
    {
      var end := ChunkEnd(s, |tokens|);
      NextMultiple(s, chunkSize);
      if e == Entry(s, end, Key(tokens[..end])) {
        if !saveUnfullChunk { ApartByPeriod(s, Floor(|tokens|, chunkSize), chunkSize); }
      } else {
        EntryIsKeyed(tokens, s + chunkSize, e);
      }
    }

    lemma {:induction false} LastEntry(p: seq<Token>, s: nat) returns (e: Entry)
      requires Aligned(s, chunkSize) && s < |p| && Keyed(p)
      ensures e in Entries(p, s) && e.end == |p|
      decreases |p| - s
    {
      if !saveUnfullChunk { FloorUnique(|p|, chunkSize, |p|); }
      if |p| <= s + chunkSize {
        e := Entry(s, |p|, Key(p[..|p|]));
      } else {
        NextMultiple(s, chunkSize);
        e := LastEntry(p, s + chunkSize);
      }
    }

    /** A prefix is keyed exactly when one of its own chunks ends where it does. */
    lemma KeyedExactly(p: seq<Token>)
      ensures Keyed(p) <==> exists e :: e in Entries(p, 0) && e.end == |p|
    {
      ZeroIsMultiple(chunkSize);
      if Keyed(p) {
        var e := LastEntry(p, 0);
      }
      forall e | e in Entries(p, 0) && e.end == |p| ensures Keyed(p) {
        EntryIsKeyed(p, 0, e);
        assert p[..|p|] == p;
      }
    }

    /** Keys tell the prefixes apart that get one, collisions of the digest aside. */
    ghost predicate Separates() {
      forall p: seq<Token>, q: seq<Token> :: Keyed(p) && Keyed(q) && NoCollision(p, q) && Key(p) == Key(q) ==> p == q
    }

    ghost predicate NoCollision(p: seq<Token>, q: seq<Token>)
      requires p != [] && q != []
    {
      CollisionFreeOn(hash, Inputs(hash, chunkSize, p) + Inputs(hash, chunkSize, q))
    }

    /** They do unless the last chunk of a keyed prefix without collisions can be spelled. */
    lemma SeparatesExactly()
      requires HexDigests(hash)
      ensures Separates() <==> forall q :: Keyed(q) && Spellable(chunkSize, q) ==> !NoCollision(q, q)
    {
      hide Spellable, HexDigests, CollisionFreeOn, Aligned;
      forall q: seq<Token> | Keyed(q) && Spellable(chunkSize, q) && NoCollision(q, q) ensures !Separates() {
        var p := Confuser(q);
        assert Keyed(p) && Keyed(q) && NoCollision(p, q) && Key(p) == Key(q);
      }
      if forall q :: Keyed(q) && Spellable(chunkSize, q) ==> !NoCollision(q, q) {
        forall p: seq<Token>, q: seq<Token> | Keyed(p) && Keyed(q) && NoCollision(p, q) && Key(p) == Key(q)
          ensures p == q
        {
          OwnInputs(p, q);
          KeysDeterminePrefixes(hash, chunkSize, p, q);
        }
      }
    }

    /** Such a prefix shares its key with a single-chunk prefix, which is keyed as well. */
    lemma Confuser(q: seq<Token>) returns (p: seq<Token>)
      requires HexDigests(hash) && Keyed(q) && Spellable(chunkSize, q) && NoCollision(q, q)
      ensures Keyed(p) && p != q && NoCollision(p, q) && Key(p) == Key(q)
      ensures saveUnfullChunk && p == Spelled(hash, chunkSize, q) && |p| <= chunkSize
      ensures Inputs(hash, chunkSize, p) <= Inputs(hash, chunkSize, q)
    {
      if Aligned(|q|, chunkSize) { NotSpellable(chunkSize, q); }
      p := LargeTokensConfuse(hash, chunkSize, q);
    }

    lemma OwnInputs(p: seq<Token>, q: seq<Token>)
      requires p != [] && q != [] && NoCollision(p, q)
      ensures NoCollision(p, p) && NoCollision(q, q)
    {
    }

    /** A prefix one token longer than a chunk, for digests that tell its two inputs apart. */
    ghost predicate Tells(q: seq<Token>) {
      |q| == chunkSize + 1 && NoCollision(q, q)
    }

    /** So a digest that tells apart two chunks anywhere makes keys that separate prefixes exactly when
        only whole chunks are saved or chunks have at most 16 tokens. */
    lemma SeparatesByConfiguration()
      requires HexDigests(hash) && exists q :: Tells(q)
      ensures Separates() <==> !saveUnfullChunk || chunkSize <= 16
    {
      SeparatesExactly();
      if !saveUnfullChunk || chunkSize <= 16 {
        forall q | Keyed(q) ensures !Spellable(chunkSize, q) { NotSpellable(chunkSize, q); }
      } else {
        var q :| Tells(q);
        OneMore(q);
      }
    }

    lemma OneMore(q: seq<Token>)
      requires |q| == chunkSize + 1 && 16 < chunkSize
      ensures Spellable(chunkSize, q)
    {
      ZeroIsMultiple(chunkSize);
      NextMultiple(0, chunkSize);
      FloorUnique(chunkSize, chunkSize, chunkSize);
    }

    /** Splits a sequence into keyed chunks, leaving out those before the masked prefix ends.  Reports
        an error unless the masked prefix consists of whole chunks. */
    method ProcessTokens(tokens: seq<Token>, mask: seq<bool>) returns (r: Option<seq<Entry>>)
      ensures r.None? <==> !Aligned(NumFalses(mask), chunkSize)
      ensures r.Some? ==> r.value == Entries(tokens, NumFalses(mask))
    {
      var numFalses := NumFalses(mask);
      if !Aligned(numFalses, chunkSize) {
        r := None;
      } else {
        hide Aligned, Entries, Hash, MakeKeyByHash, Walk, Floor, NumFalses;
        var end := Limit(|tokens|);
        var start, prefixHash, entries := 0, "", [];
        WalkStart(tokens, numFalses);
        while start < end
          invariant Walk(tokens, numFalses, start, prefixHash, entries)
        {
          var endIdx := ChunkEnd(start, |tokens|);
          WalkStep(tokens, numFalses, start, prefixHash, entries);
          prefixHash := Hash(tokens[start..endIdx], prefixHash);
          if start >= numFalses {
            entries := entries + [Entry(start, endIdx, MakeKeyByHash(prefixHash))];
          }
          start := start + chunkSize;
        }
        WalkEnd(tokens, numFalses, start, prefixHash, entries);
        r := Some(entries);
      }
    }

    function From(start: nat, numFalses: nat): nat { if start < numFalses then numFalses else start }

    /** Where the pass over the chunks stands at position start. */
    ghost predicate Walk(tokens: seq<Token>, numFalses: nat, start: nat, prefixHash: string, entries: seq<Entry>) {
      && Aligned(start, chunkSize) && Aligned(numFalses, chunkSize)
      && (start < Limit(|tokens|) ==>
            prefixHash == if start == 0 then "" else PrefixHash(hash, chunkSize, tokens[..start]))
      && entries + Entries(tokens, From(start, numFalses)) == Entries(tokens, numFalses)
    }

    lemma WalkStart(tokens: seq<Token>, numFalses: nat)
      requires Aligned(numFalses, chunkSize)
      ensures Walk(tokens, numFalses, 0, "", [])
    {
      ZeroIsMultiple(chunkSize);
    }

    lemma WalkEnd(tokens: seq<Token>, numFalses: nat, start: nat, prefixHash: string, entries: seq<Entry>)
      requires Walk(tokens, numFalses, start, prefixHash, entries) && Limit(|tokens|) <= start
      ensures entries == Entries(tokens, numFalses)
    {
    }

    lemma WalkStep(tokens: seq<Token>, numFalses: nat, start: nat, prefixHash: string, entries: seq<Entry>)
      requires Walk(tokens, numFalses, start, prefixHash, entries) && start < Limit(|tokens|)
      ensures var e := ChunkEnd(start, |tokens|);
              var h := Hash(tokens[start..e], prefixHash);
              Walk(tokens, numFalses, start + chunkSize, h,
                   if start >= numFalses then entries + [Entry(start, e, MakeKeyByHash(h))] else entries)
    {
      hide Aligned, PrefixHash, Floor;
      NextHash(tokens, start, prefixHash);
      NextMultiple(start, chunkSize);
      if start < numFalses {
        ApartByPeriod(start, numFalses, chunkSize);
      }
    }

    lemma NextHash(tokens: seq<Token>, start: nat, prefixHash: string)
      requires Aligned(start, chunkSize) && start < Limit(|tokens|)
      requires prefixHash == if start == 0 then "" else PrefixHash(hash, chunkSize, tokens[..start])
      ensures var e := ChunkEnd(start, |tokens|);
              && PrefixHash(hash, chunkSize, tokens[..e]) == Hash(tokens[start..e], prefixHash)
              && Key(tokens[..e]) == MakeKeyByHash(Hash(tokens[start..e], prefixHash))
    {
      var e := ChunkEnd(start, |tokens|);
      FloorUnique(e - 1, chunkSize, start);
      assert tokens[..e][..start] == tokens[..start] && tokens[..e][start..] == tokens[start..e];
    }
  }

  // ---------------------------------------------------------------- all digests

  /** A digest that tells the empty input from the others. */
  function OnesUnless(zero: seq<Octet>): Digest {
    x => seq(64, _ => if x == zero then '0' else '1')
  }

  /** Of two databases with one digest and chunk size, the keys agree exactly for the same prefix under the same format,
      model, world size and worker; each key carries its own database's. */
  lemma KeysOfWorkers(a: ChunkedTokenDatabase, b: ChunkedTokenDatabase, p: seq<Token>, q: seq<Token>)
    requires a.hash == b.hash && a.chunkSize == b.chunkSize && HexDigests(a.hash)
    requires p != [] && q != [] && Apart(a.chunkSize, p, q)
    requires CollisionFreeOn(a.hash, Inputs(a.hash, a.chunkSize, p) + Inputs(a.hash, a.chunkSize, q))
    ensures a.Key(p) == b.Key(q) <==>
              p == q && a.fmt == b.fmt && a.modelName == b.modelName && a.worldSize == b.worldSize
              && a.workerId == b.workerId
    ensures a.Key(p).fmt == a.fmt && a.Key(p).modelName == a.modelName
    ensures a.Key(p).worldSize == a.worldSize && a.Key(p).workerId == a.workerId
  {
    KeysDeterminePrefixes(a.hash, a.chunkSize, p, q);
  }

  lemma SomeDigestTells(db: ChunkedTokenDatabase) returns (hash: Digest)
    ensures HexDigests(hash) && exists q :: db.(hash := hash).Tells(q)
  {
    var c: Chunk, q: seq<Token> := db.chunkSize, seq(db.chunkSize + 1, _ => 0);
    hash := OnesUnless(TokensBytes(q[..c]));
    FloorUnique(c, c, c) by { ZeroIsMultiple(c); NextMultiple(0, c); }
    FloorUnique(c - 1, c, 0) by { ZeroIsMultiple(c); }
    var first, last := LastInput(hash, c, q[..c]), LastInput(hash, c, q);
    assert first == TokensBytes(q[..c]);
    assert |last| == 68;
    assert Inputs(hash, c, q) == {first, last};
    assert hash(first)[0] == '0';
    assert db.(hash := hash).Tells(q);
  }

  /** Keys separate prefixes whatever the digest exactly when only whole chunks are saved or chunks have at
      most 16 tokens. */
  lemma SafeConfigurations(db: ChunkedTokenDatabase)
    ensures (forall hash :: HexDigests(hash) ==> db.(hash := hash).Separates())
            <==> !db.saveUnfullChunk || db.chunkSize <= 16
  {
    var some := SomeDigestTells(db);
    db.(hash := some).SeparatesByConfiguration();
    if !db.saveUnfullChunk || db.chunkSize <= 16 {
      forall hash | HexDigests(hash) ensures db.(hash := hash).Separates() {
        var it := db.(hash := hash);
        it.SeparatesExactly();
        forall q | it.Keyed(q) ensures !Spellable(it.chunkSize, q) { NotSpellable(it.chunkSize, q); }
      }
    }
  }
}
