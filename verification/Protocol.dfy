/** The wire format of control messages: keys printed with '@' between their fields, and fixed-size
    packets of eight integers and a padded key. */
module Protocol {
  import opened Wrappers
  import opened CacheKeys
  import opened TokenDatabase

  // ---------------------------------------------------------------- decimal numbers

  function DigitChar(d: nat): char
    requires d < 10
  {
    '0' + d as char
  }

  predicate IsDigit(c: char) { '0' <= c <= '9' }

  function Decimal(n: nat): (r: string)
    ensures r != "" && forall c :: c in r ==> IsDigit(c)
  {
    if n < 10 then [DigitChar(n)] else Decimal(n / 10) + [DigitChar(n % 10)]
  }

  function IntToString(n: int): string {
    if n < 0 then "-" + Decimal(-n) else Decimal(n)
  }

  /** Digits, with single underscores allowed between them. */
  function ParseDigits(s: string): Option<nat> {
    if s == "" || !IsDigit(s[|s| - 1]) then None
    else
      var d := s[|s| - 1] as int - '0' as int;
      if |s| == 1 then Some(d)
      else
        var init := if s[|s| - 2] == '_' then s[..|s| - 2] else s[..|s| - 1];
        match ParseDigits(init)
        case None => None
        case Some(v) => Some(10 * v + d)
  }

  predicate IsSpace(c: char) { c == ' ' || '\t' <= c <= '\r' || '\U{1c}' <= c <= '\U{1f}' }

  function LStrip(s: string): (r: string)
    ensures r == "" || !IsSpace(r[0])
    ensures forall c :: c in r ==> c in s
  {
    if s != "" && IsSpace(s[0]) then LStrip(s[1..]) else s
  }

  function RStrip(s: string): (r: string)
    ensures r == "" || !IsSpace(r[|r| - 1])
    ensures forall c :: c in r ==> c in s
  {
    if s != "" && IsSpace(s[|s| - 1]) then RStrip(s[..|s| - 1]) else s
  }

  /** An integer with optional sign, between optional spaces. */
  function ParseInt(s: string): Option<int> {
    var t := RStrip(LStrip(s));
    if t == "" then None
    else
      match ParseDigits(if t[0] == '-' || t[0] == '+' then t[1..] else t)
      case None => None
      case Some(v) =>
        var x: int := v;
        Some(if t[0] == '-' then -x else x)
  }

  lemma {:induction false} DecimalParses(n: nat)
    ensures ParseDigits(Decimal(n)) == Some(n)
  {
    var r := Decimal(n);
    if n >= 10 {
      DecimalParses(n / 10);
      assert r[..|r| - 1] == Decimal(n / 10) && r[|r| - 1] == DigitChar(n % 10);
      assert IsDigit(r[|r| - 2]) by { assert r[|r| - 2] in r; }
    }
  }

  lemma IntParses(n: int)
    ensures ParseInt(IntToString(n)) == Some(n)
  {
    var s, d := IntToString(n), Decimal(if n < 0 then -n else n);
    DecimalParses(if n < 0 then -n else n);
    assert IsDigit(d[0]) && IsDigit(d[|d| - 1]);
    assert s[|s| - 1] == d[|d| - 1];
    assert LStrip(s) == s && RStrip(s) == s;
    assert n < 0 ==> s[1..] == d;
  }

  // ---------------------------------------------------------------- keys as strings

  ghost predicate NoAt(s: string) { '@' !in s }

  /** The parts between separators; one more than there are separators. */
  function Split(s: string): (r: seq<string>)
    ensures r != []
  {
    if s == "" then [""]
    else
      var rest := Split(s[1..]);
      if s[0] == '@' then [""] + rest else [[s[0]] + rest[0]] + rest[1..]
  }

  lemma {:induction false} SplitOne(a: string)
    requires NoAt(a)
    ensures Split(a) == [a]
  {
    if a != "" {
      SplitOne(a[1..]);
      assert a == [a[0]] + a[1..];
    }
  }

  lemma {:induction false} SplitFirst(a: string, b: string)
    requires NoAt(a)
    ensures Split(a + "@" + b) == [a] + Split(b)
  {
    var s := a + "@" + b;
    if a == "" {
      assert s[1..] == b;
    } else {
      SplitFirst(a[1..], b);
      assert s[1..] == a[1..] + "@" + b;
      assert a == [a[0]] + a[1..];
    }
  }

  /** Splitting a longer string at one more separator gives at least as many parts, more if the added
      piece has separators of its own. */
  lemma {:induction false} SplitCount(a: string, b: string)
    ensures |Split(a + "@" + b)| == |Split(a)| + |Split(b)|
    ensures |Split(a)| == 1 <==> NoAt(a)
  {
    var s := a + "@" + b;
    if a == "" {
      assert s[1..] == b;
    } else {
      SplitCount(a[1..], b);
      assert s[1..] == a[1..] + "@" + b && a == [a[0]] + a[1..];
    }
  }

  function ToString(k: CacheEngineKey): string {
    k.fmt + "@" + (k.modelName + "@" + (IntToString(k.worldSize) + "@" + (IntToString(k.workerId) + "@" + k.chunkHash)))
  }

  function FromString(s: string): Option<CacheEngineKey> {
    var parts := Split(s);
    if |parts| != 5 then None
    else
      match (ParseInt(parts[2]), ParseInt(parts[3]))
      case (Some(worldSize), Some(workerId)) => Some(CacheEngineKey(parts[0], parts[1], worldSize, workerId, parts[4]))
      case _ => None
  }

  ghost predicate Separable(k: CacheEngineKey) { NoAt(k.fmt) && NoAt(k.modelName) && NoAt(k.chunkHash) }

  lemma IntHasNoAt(n: int)
    ensures NoAt(IntToString(n))
  {
  }

  /** A printed key reads back as itself exactly when no text field contains the separator; otherwise it
      does not read back at all. */
  lemma KeyRoundTrip(k: CacheEngineKey)
    ensures FromString(ToString(k)) == if Separable(k) then Some(k) else None
  {
    hide IntToString, ParseInt, NoAt;
    var h := k.chunkHash;
    var w, i := IntToString(k.worldSize), IntToString(k.workerId);
    IntHasNoAt(k.worldSize);
    IntHasNoAt(k.workerId);
    if Separable(k) {
      SplitFirst(k.fmt, k.modelName + "@" + (w + "@" + (i + "@" + h)));
      SplitFirst(k.modelName, w + "@" + (i + "@" + h));
      SplitFirst(w, i + "@" + h);
      SplitFirst(i, h);
      SplitOne(h);
      IntParses(k.worldSize);
      IntParses(k.workerId);
    } else {
      SplitCount(k.fmt, k.modelName + "@" + (w + "@" + (i + "@" + h)));
      SplitCount(k.modelName, w + "@" + (i + "@" + h));
      SplitCount(w, i + "@" + h);
      SplitCount(i, h);
      SplitCount(h, "");
    }
  }

  /** Different keys print differently. */
  lemma KeysPrintApart(j: CacheEngineKey, k: CacheEngineKey)
    requires Separable(j) && Separable(k) && ToString(j) == ToString(k)
    ensures j == k
  {
    KeyRoundTrip(j);
    KeyRoundTrip(k);
  }

  // ---------------------------------------------------------------- packed integers

  /** The little-endian bytes of a 32-bit integer. */
  function PackInt(x: int): (r: Option<seq<Octet>>)
    ensures r.Some? <==> -0x8000_0000 <= x < 0x8000_0000
    ensures r.Some? ==> |r.value| == 4
  {
    if x < -0x8000_0000 || x >= 0x8000_0000 then None
    else Some(TokenBytes(if x < 0 then x + 0x1_0000_0000 else x))
  }

  function UnpackInt(b: seq<Octet>): int
    requires |b| == 4
  {
    var t := TokenOf(b);
    if t >= 0x8000_0000 then t - 0x1_0000_0000 else t
  }

  lemma IntRoundTrip(x: int)
    requires PackInt(x).Some?
    ensures UnpackInt(PackInt(x).value) == x
  {
    TokenOfBytes(if x < 0 then x + 0x1_0000_0000 else x);
  }

  function PackInts(xs: seq<int>): (r: Option<seq<Octet>>)
    ensures r.Some? ==> |r.value| == 4 * |xs|
    ensures r.Some? <==> forall i :: 0 <= i < |xs| ==> PackInt(xs[i]).Some?
  {
    if xs == [] then Some([])
    else
      var init, last := PackInts(xs[..|xs| - 1]), PackInt(xs[|xs| - 1]);
      assert forall i :: 0 <= i < |xs| ==> xs[i] == if i < |xs| - 1 then xs[..|xs| - 1][i] else xs[|xs| - 1];
      if init.None? || last.None? then None else Some(init.value + last.value)
  }

  lemma {:induction false} PackedAt(xs: seq<int>, i: nat)
    requires PackInts(xs).Some? && i < |xs|
    ensures UnpackInt(PackInts(xs).value[4 * i..4 * i + 4]) == xs[i]
    decreases |xs|
  {
    var init, b := xs[..|xs| - 1], PackInts(xs).value;
    var head, tail := PackInts(init).value, PackInt(xs[|xs| - 1]).value;
    assert b == head + tail;
    if i == |xs| - 1 {
      assert b[4 * i..4 * i + 4] == tail;
      IntRoundTrip(xs[i]);
    } else {
      PackedAt(init, i);
      assert b[4 * i..4 * i + 4] == head[4 * i..4 * i + 4];
    }
  }

  // ---------------------------------------------------------------- enumerations

  datatype DType = NoDType | Float16 | BFloat16 | Float32 | Float64 | UInt8 | Float8E4M3 | Float8E5M2

  /** half and float16 are one type; the later entry of the table decides its number. */
  function DTypeToInt(d: DType): int {
    match d
    case NoDType => 0
    case Float16 => 2
    case BFloat16 => 3
    case Float32 => 4
    case Float64 => 5
    case UInt8 => 6
    case Float8E4M3 => 7
    case Float8E5M2 => 8
  }

  function IntToDType(x: int): Option<DType> {
    if x == 0 then Some(NoDType) else if x == 1 || x == 2 then Some(Float16) else if x == 3 then Some(BFloat16)
    else if x == 4 then Some(Float32) else if x == 5 then Some(Float64) else if x == 6 then Some(UInt8)
    else if x == 7 then Some(Float8E4M3) else if x == 8 then Some(Float8E5M2) else None
  }

  datatype MemoryFormat = Undefined | Kv2LTD | KvT2D | Kv2TD | Binary | BinaryBuffer | KvMla

  function FormatToInt(f: MemoryFormat): int {
    match f
    case Undefined => 0
    case Kv2LTD => 1
    case KvT2D => 2
    case Kv2TD => 3
    case Binary => 4
    case BinaryBuffer => 5
    case KvMla => 6
  }

  function IntToFormat(x: int): Option<MemoryFormat> {
    if x == 0 then Some(Undefined) else if x == 1 then Some(Kv2LTD) else if x == 2 then Some(KvT2D)
    else if x == 3 then Some(Kv2TD) else if x == 4 then Some(Binary) else if x == 5 then Some(BinaryBuffer)
    else if x == 6 then Some(KvMla) else None
  }

  lemma EnumsRoundTrip(f: MemoryFormat, d: DType)
    ensures IntToFormat(FormatToInt(f)) == Some(f) && IntToDType(DTypeToInt(d)) == Some(d)
  {
  }

  // ---------------------------------------------------------------- control messages

  const MAX_KEY_LENGTH: nat := 150

  function PackLength(): nat { 4 * 8 + MAX_KEY_LENGTH }

  ghost predicate IsAscii(s: string) { forall i :: 0 <= i < |s| ==> s[i] < 128 as char }

  function Spaces(n: nat): (r: string)
    ensures |r| == n
  {
    seq(n, _ => ' ')
  }

  /** The characters of some bytes; what is not ASCII is outside this model. */
  function Decode(b: seq<Octet>): (r: Option<string>)
    ensures r.Some? <==> forall i :: 0 <= i < |b| ==> b[i] < 128
  {
    if forall i :: 0 <= i < |b| ==> b[i] < 128 then Some(seq(|b|, i requires 0 <= i < |b| => b[i] as char)) else None
  }

  lemma DecodeAscii(s: string)
    requires IsAscii(s)
    ensures Decode(Ascii(s)) == Some(s)
  {
    var b := Ascii(s);
    assert forall i :: 0 <= i < |b| ==> b[i] as int == s[i] as int;
    assert Decode(b).value == s;
  }

  datatype ClientMetaMessage = ClientMetaMessage(
    command: int, key: CacheEngineKey, length: int, fmt: MemoryFormat, dtype: DType, shape: seq<int>)
  {
    function Ints(): seq<int>
      requires |shape| == 4
    {
      [command, length, FormatToInt(fmt), DTypeToInt(dtype), shape[0], shape[1], shape[2], shape[3]]
    }

    /** Fails for a key that is too long, a shape that does not have four dimensions, or an integer that
        does not fit. */
    function Serialize(): Option<seq<Octet>> {
      var keyStr := ToString(key);
      if |keyStr| > MAX_KEY_LENGTH || |shape| != 4 then None
      else
        match PackInts(Ints())
        case None => None
        case Some(ints) => Some(ints + Ascii(keyStr + Spaces(MAX_KEY_LENGTH - |keyStr|)))
    }
  }

  /** A message goes out exactly when its printed key has at most 150 characters, its shape four dimensions, and every
      integer 32 bits. */
  lemma SerializesExactly(m: ClientMetaMessage)
    ensures m.Serialize().Some? <==>
              && |ToString(m.key)| <= 150 && |m.shape| == 4 && Fits32(m.command) && Fits32(m.length)
              && forall i :: 0 <= i < 4 ==> Fits32(m.shape[i])
  {
    hide ToString, PackInts;
    if |m.shape| == 4 {
      var x := m.Ints();
      assert x[0] == m.command && x[1] == m.length;
      forall i | 0 <= i < 4 ensures PackInts(x).Some? ==> Fits32(m.shape[i]) {
        assert x[4 + i] == m.shape[i];
      }
    }
  }

  ghost predicate Fits32(x: int) { -0x8000_0000 <= x < 0x8000_0000 }

  function Field(s: seq<Octet>, i: nat): int
    requires i < 8 && |s| == PackLength()
  {
    UnpackInt(s[4 * i..4 * i + 4])
  }

  /** Fails on a packet of the wrong size, unknown format or type numbers, or a key that does not parse. */
  function Deserialize(s: seq<Octet>): Option<ClientMetaMessage> {
    if |s| != PackLength() then None
    else
      match Decode(s[32..])
      case None => None
      case Some(text) =>
        match (FromString(RStrip(LStrip(text))), IntToFormat(Field(s, 2)), IntToDType(Field(s, 3)))
        case (Some(key), Some(fmt), Some(dtype)) =>
          Some(ClientMetaMessage(Field(s, 0), key, Field(s, 1), fmt, dtype,
              [Field(s, 4), Field(s, 5), Field(s, 6), Field(s, 7)]))
        case _ => None
  }

  // ---------------------------------------------------------------- what padding and trimming do to a key

  lemma {:induction false} LStripFirst(a: string, b: string)
    ensures LStrip(a + "@" + b) == LStrip(a) + "@" + b
  {
    var s := a + "@" + b;
    if a == "" {
      assert s[0] == '@' && LStrip(s) == s;
    } else {
      LStripFirst(a[1..], b);
      assert s[1..] == a[1..] + "@" + b && s[0] == a[0];
    }
  }

  lemma {:induction false} RStripLast(a: string, b: string)
    ensures RStrip(a + "@" + b) == a + "@" + RStrip(b)
    decreases |b|
  {
    var s := a + "@" + b;
    if b == "" {
      assert s[|s| - 1] == '@' && RStrip(s) == s;
    } else {
      var init := b[..|b| - 1];
      RStripLast(a, init);
      assert s[..|s| - 1] == a + "@" + init && s[|s| - 1] == b[|b| - 1];
    }
  }

  lemma {:induction false} RStripPadding(s: string, n: nat)
    ensures RStrip(s + Spaces(n)) == RStrip(s)
    decreases n
  {
    var t := s + Spaces(n);
    if n == 0 {
      assert t == s;
    } else {
      RStripPadding(s, n - 1);
      assert t[|t| - 1] == ' ' && t[..|t| - 1] == s + Spaces(n - 1);
    }
  }

  /** What survives: white space at the start of the first field and at the end of the last is lost. */
  function Trimmed(k: CacheEngineKey): CacheEngineKey { k.(fmt := LStrip(k.fmt), chunkHash := RStrip(k.chunkHash)) }

  /** The fields of a printed key between the first and the last. */
  function Middle(k: CacheEngineKey): string {
    k.modelName + "@" + (IntToString(k.worldSize) + "@" + IntToString(k.workerId))
  }

  lemma Regroup(a: string, b: string, c: string)
    ensures (a + "@" + b) + "@" + c == a + "@" + (b + "@" + c)
  {
  }

  lemma AppendLast(a: string, b: string, c: string)
    ensures a + "@" + b + c == a + "@" + (b + c)
  {
  }

  lemma PrintedKey(k: CacheEngineKey)
    ensures ToString(k) == k.fmt + "@" + (Middle(k) + "@" + k.chunkHash)
  {
    hide IntToString;
    var w, i := IntToString(k.worldSize), IntToString(k.workerId);
    Regroup(w, i, k.chunkHash);
    Regroup(k.modelName, w + "@" + i, k.chunkHash);
  }

  lemma PaddedKey(k: CacheEngineKey, n: nat)
    ensures RStrip(LStrip(ToString(k) + Spaces(n))) == ToString(Trimmed(k))
  {
    hide ToString, Middle, Spaces, LStrip, RStrip;
    var fmt, mid, last := LStrip(k.fmt), Middle(k), k.chunkHash + Spaces(n);
    PrintedKey(k);
    AppendLast(k.fmt, mid + "@" + k.chunkHash, Spaces(n));
    AppendLast(mid, k.chunkHash, Spaces(n));
    LStripFirst(k.fmt, mid + "@" + last);
    Regroup(fmt, mid, last);
    RStripLast(fmt + "@" + mid, last);
    RStripPadding(k.chunkHash, n);
    Regroup(fmt, mid, RStrip(k.chunkHash));
    PrintedKey(Trimmed(k));
    SameMiddle(k);
  }

  lemma SameMiddle(k: CacheEngineKey)
    ensures Middle(Trimmed(k)) == Middle(k)
  {
  }

  lemma {:induction false} LStripKeepsAt(s: string)
    ensures NoAt(LStrip(s)) <==> NoAt(s)
  {
    if s != "" && IsSpace(s[0]) {
      LStripKeepsAt(s[1..]);
      assert s == [s[0]] + s[1..];
    }
  }

  lemma {:induction false} RStripKeepsAt(s: string)
    ensures NoAt(RStrip(s)) <==> NoAt(s)
    decreases |s|
  {
    if s != "" && IsSpace(s[|s| - 1]) {
      RStripKeepsAt(s[..|s| - 1]);
      assert s == s[..|s| - 1] + [s[|s| - 1]];
    }
  }

  lemma TrimmedSeparable(k: CacheEngineKey)
    ensures Separable(Trimmed(k)) <==> Separable(k)
  {
    LStripKeepsAt(k.fmt);
    RStripKeepsAt(k.chunkHash);
  }

  lemma DigitsAreAscii(n: int)
    ensures IsAscii(IntToString(n))
  {
    var d := Decimal(if n < 0 then -n else n);
    forall i | 0 <= i < |d| ensures d[i] < 128 as char { assert d[i] in d; }
  }

  lemma AsciiOfKey(k: CacheEngineKey, n: nat)
    requires IsAscii(k.fmt) && IsAscii(k.modelName) && IsAscii(k.chunkHash)
    ensures IsAscii(ToString(k) + Spaces(n))
  {
    hide IntToString;
    DigitsAreAscii(k.worldSize);
    DigitsAreAscii(k.workerId);
  }

  /** What a packet reads back as: the message with its key trimmed, unless a field has the separator. */
  ghost function ReadBack(m: ClientMetaMessage): Option<ClientMetaMessage> {
    if Separable(m.key) then Some(m.(key := Trimmed(m.key))) else None
  }

  /** The eight integers of a packet. */
  lemma PacketInts(m: ClientMetaMessage)
    requires m.Serialize().Some?
    ensures var s := m.Serialize().value;
            && |s| == PackLength() && Field(s, 0) == m.command && Field(s, 1) == m.length
            && Field(s, 2) == FormatToInt(m.fmt) && Field(s, 3) == DTypeToInt(m.dtype)
            && [Field(s, 4), Field(s, 5), Field(s, 6), Field(s, 7)] == m.shape
  {
    hide ToString, PackInts, TokenBytes, UnpackInt, FormatToInt, DTypeToInt, Ascii;
    var ints, s := PackInts(m.Ints()).value, m.Serialize().value;
    forall i: nat | i < 8 ensures Field(s, i) == m.Ints()[i] {
      PackedAt(m.Ints(), i);
      assert s[4 * i..4 * i + 4] == ints[4 * i..4 * i + 4];
    }
  }

  /** Its text. */
  lemma PacketText(m: ClientMetaMessage)
    requires m.Serialize().Some?
    requires IsAscii(m.key.fmt) && IsAscii(m.key.modelName) && IsAscii(m.key.chunkHash)
    ensures |m.Serialize().value| == PackLength()
    ensures var text := Decode(m.Serialize().value[32..]);
            text.Some? && RStrip(LStrip(text.value)) == ToString(Trimmed(m.key))
  {
    hide ToString, PackInts, LStrip, RStrip, Spaces, Ascii, Decode;
    var pad := MAX_KEY_LENGTH - |ToString(m.key)|;
    AsciiOfKey(m.key, pad);
    DecodeAscii(ToString(m.key) + Spaces(pad));
    PaddedKey(m.key, pad);
    assert m.Serialize().value[32..] == Ascii(ToString(m.key) + Spaces(pad));
  }

  /** A packet of an ASCII message always has the announced length.  It reads back as the message with its
      key trimmed, or not at all if a text field of the key has the separator.  So it reads back as itself
      exactly when none has, the first field does not start and the last does not end with white space. */
  lemma MessageRoundTrip(m: ClientMetaMessage)
    requires m.Serialize().Some?
    requires IsAscii(m.key.fmt) && IsAscii(m.key.modelName) && IsAscii(m.key.chunkHash)
    ensures |m.Serialize().value| == PackLength() == 182
    ensures Deserialize(m.Serialize().value) == ReadBack(m)
    ensures Deserialize(m.Serialize().value) == Some(m) <==>
        Separable(m.key) && LStrip(m.key.fmt) == m.key.fmt && RStrip(m.key.chunkHash) == m.key.chunkHash
  {
    hide ToString, FromString, LStrip, RStrip, IntToFormat, IntToDType, FormatToInt, DTypeToInt, Separable,
      ClientMetaMessage.Serialize, Field, Decode;
    EnumsRoundTrip(m.fmt, m.dtype);
    PacketInts(m);
    PacketText(m);
    TrimmedSeparable(m.key);
    KeyRoundTrip(Trimmed(m.key));
  }
}
