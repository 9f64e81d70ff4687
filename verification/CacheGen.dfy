/** The CacheGen codec: gathering the used bytes of a padded buffer and scattering them back, and the
    quantisation of rows to a fixed number of bins. */
module CacheGen {
  import opened Sequences

  // ---------------------------------------------------------------- tensor operations

  /** Running sums, each including its own element. */
  function Cumsum(s: seq<nat>): (r: seq<nat>)
    ensures |r| == |s|
  {
    if s == [] then [] else Cumsum(s[..|s| - 1]) + [Sum(s)]
  }

  lemma {:induction false} CumsumAt(s: seq<nat>, i: nat)
    requires i < |s|
    ensures Cumsum(s)[i] == Sum(s[..i + 1])
    decreases |s|
  {
    if i == |s| - 1 {
      assert s[..i + 1] == s;
    } else {
      CumsumAt(s[..|s| - 1], i);
      assert s[..|s| - 1][..i + 1] == s[..i + 1];
    }
  }

  function Roll<T>(s: seq<T>): (r: seq<T>)
    ensures |r| == |s|
  {
    if s == [] then [] else [s[|s| - 1]] + s[..|s| - 1]
  }

  function RepeatInterleave<T>(s: seq<T>, counts: seq<nat>): seq<T>
    requires |s| == |counts|
  {
    Cat(seq(|s|, i requires 0 <= i < |s| => seq(counts[i], _ => s[i])))
  }

  lemma RepeatAt<T>(s: seq<T>, counts: seq<nat>, r: nat, o: nat)
    requires |s| == |counts|
    ensures |RepeatInterleave(s, counts)| == Sum(counts)
    ensures r < |s| && o < counts[r] ==>
              Sum(counts[..r]) + o < Sum(counts) && RepeatInterleave(s, counts)[Sum(counts[..r]) + o] == s[r]
  {
    var parts := seq(|s|, i requires 0 <= i < |s| => seq(counts[i], _ => s[i]));
    assert Lens(parts) == counts;
    CatAt(parts, r, o);
  }

  /** Running sums, rolled by one, with the first set to 0. */
  function Before(s: seq<nat>): (r: seq<nat>)
    requires s != []
    ensures |r| == |s|
  {
    Roll(Cumsum(s))[0 := 0]
  }

  /** They are the sums of what comes before each element. */
  lemma BeforeAt(s: seq<nat>, i: nat)
    requires i < |s|
    ensures Before(s)[i] == Sum(s[..i])
  {
    if i > 0 { CumsumAt(s, i - 1); }
  }

  // ---------------------------------------------------------------- bytes

  /** Equal rows, each with a used length. */
  ghost predicate Padded<T>(rows: seq<seq<T>>, size: nat, lengths: seq<nat>) {
    && |rows| == |lengths| > 0
    && forall i :: 0 <= i < |rows| ==> |rows[i]| == size && lengths[i] <= size
  }

  function Unused(size: nat, lengths: seq<nat>): (r: seq<nat>)
    requires forall i :: 0 <= i < |lengths| ==> lengths[i] <= size
    ensures |r| == |lengths|
  {
    seq(|lengths|, i requires 0 <= i < |lengths| => size - lengths[i])
  }

  /** The flat indices of the used bytes: how much padding comes before, plus a running count. */
  function Indexes(size: nat, lengths: seq<nat>): (r: seq<nat>)
    requires lengths != [] && forall i :: 0 <= i < |lengths| ==> lengths[i] <= size
  {
    var skips := RepeatInterleave(Before(Unused(size, lengths)), lengths);
    seq(|skips|, t requires 0 <= t < |skips| => skips[t] + t)
  }

  lemma {:induction false} SkipsAndUsed(size: nat, lengths: seq<nat>, r: nat)
    requires r <= |lengths| && forall i :: 0 <= i < |lengths| ==> lengths[i] <= size
    ensures Sum(Unused(size, lengths)[..r]) + Sum(lengths[..r]) == r * size
    decreases r
  {
    if r > 0 {
      SkipsAndUsed(size, lengths, r - 1);
      assert Unused(size, lengths)[..r][..r - 1] == Unused(size, lengths)[..r - 1] &&
        lengths[..r][..r - 1] == lengths[..r - 1];
      assert r * size == (r - 1) * size + size;
    }
  }

  /** The t-th used byte, offset o of row r, is at r * size + o. */
  lemma IndexOf(size: nat, lengths: seq<nat>, r: nat, o: nat)
    requires lengths != [] && forall i :: 0 <= i < |lengths| ==> lengths[i] <= size
    ensures |Indexes(size, lengths)| == Sum(lengths)
    ensures r < |lengths| && o < lengths[r] ==>
              Sum(lengths[..r]) + o < Sum(lengths) && Indexes(size, lengths)[Sum(lengths[..r]) + o] == r * size + o
  {
    hide RepeatInterleave, Unused, Before, Sum;
    RepeatAt(Before(Unused(size, lengths)), lengths, r, o);
    if r < |lengths| && o < lengths[r] {
      BeforeAt(Unused(size, lengths), r);
      SkipsAndUsed(size, lengths, r);
    }
  }

  lemma FlatAt<T>(rows: seq<seq<T>>, size: nat, lengths: seq<nat>, r: nat, o: nat)
    requires Padded(rows, size, lengths) && r < |rows| && o < size
    ensures r * size + o < |Cat(rows)| && Cat(rows)[r * size + o] == rows[r][o]
  {
    CatAt(rows, r, o);
    SumOfEqual(Lens(rows), size, r);
  }

  lemma IndexesInBounds<T>(rows: seq<seq<T>>, size: nat, lengths: seq<nat>, t: nat)
    requires Padded(rows, size, lengths) && t < |Indexes(size, lengths)|
    ensures Indexes(size, lengths)[t] < |Cat(rows)|
  {
    IndexOf(size, lengths, |lengths|, 0);
    var r, o := Locate(lengths, t);
    IndexOf(size, lengths, r, o);
    FlatAt(rows, size, lengths, r, o);
  }

  function CollectBytes<T>(rows: seq<seq<T>>, size: nat, lengths: seq<nat>): (r: seq<T>)
    requires Padded(rows, size, lengths)
    ensures |r| == |Indexes(size, lengths)|
  {
    var indexes, flat := Indexes(size, lengths), Cat(rows);
    seq(|indexes|, t requires 0 <= t < |indexes| => (IndexesInBounds(rows, size, lengths, t); flat[indexes[t]]))
  }

  /** Each row's used prefix. */
  function Used<T>(rows: seq<seq<T>>, lengths: seq<nat>): (r: seq<seq<T>>)
    requires |rows| == |lengths| && forall i :: 0 <= i < |rows| ==> lengths[i] <= |rows[i]|
    ensures |r| == |rows|
  {
    seq(|rows|, i requires 0 <= i < |rows| => rows[i][..lengths[i]])
  }

  lemma UsedLength<T>(rows: seq<seq<T>>, size: nat, lengths: seq<nat>)
    requires Padded(rows, size, lengths)
    ensures |Cat(Used(rows, lengths))| == Sum(lengths)
  {
    var used := Used(rows, lengths);
    assert Lens(used) == lengths;
    CatAt(used, |used|, 0);
  }

  lemma UsedAt<T>(rows: seq<seq<T>>, size: nat, lengths: seq<nat>, t: nat)
    requires Padded(rows, size, lengths) && t < Sum(lengths)
    ensures |CollectBytes(rows, size, lengths)| == |Cat(Used(rows, lengths))| == Sum(lengths)
    ensures CollectBytes(rows, size, lengths)[t] == Cat(Used(rows, lengths))[t]
  {
    hide Sum, Cat, Indexes;
    var used := Used(rows, lengths);
    assert Lens(used) == lengths;
    var r, o := Locate(lengths, t);
    IndexOf(size, lengths, r, o);
    FlatAt(rows, size, lengths, r, o);
    CatAt(used, r, o);
  }

  /** Collecting gives the used prefixes of all rows, one after the other, and nothing else. */
  lemma CollectedIsUsed<T>(rows: seq<seq<T>>, size: nat, lengths: seq<nat>)
    requires Padded(rows, size, lengths)
    ensures CollectBytes(rows, size, lengths) == Cat(Used(rows, lengths))
  {
    hide CollectBytes, Cat, Sum, Indexes, Used;
    IndexOf(size, lengths, |lengths|, 0);
    UsedLength(rows, size, lengths);
    forall t: nat | t < Sum(lengths)
      ensures CollectBytes(rows, size, lengths)[t] == Cat(Used(rows, lengths))[t]
    {
      UsedAt(rows, size, lengths, t);
    }
  }

  /** Scatters the bytes back into rows; beyond the last byte the last byte is repeated. */
  function RecombineBytes<T>(bytes: seq<T>, size: nat, lengths: seq<nat>): (r: seq<seq<T>>)
    requires bytes != [] && lengths != []
    ensures |r| == |lengths|
  {
    var offsets := Before(lengths);
    seq(|lengths|, i requires 0 <= i < |lengths| =>
      seq(size, j requires 0 <= j < size => bytes[if offsets[i] + j < |bytes| then offsets[i] + j else |bytes| - 1]))
  }

  lemma RecombinedAt<T>(used: seq<seq<T>>, size: nat, lengths: seq<nat>, i: nat, j: nat)
    requires Lens(used) == lengths && Cat(used) != [] && i < |used| && j < lengths[i] <= size && j < |used[i]|
    ensures RecombineBytes(Cat(used), size, lengths)[i][j] == used[i][j]
  {
    hide Before, Cat, Sum, Lens;
    BeforeAt(lengths, i);
    InCat(used, lengths, i, j);
    var at := Before(lengths)[i] + j;
    assert RecombineBytes(Cat(used), size, lengths)[i][j] == Cat(used)[at];
  }

  lemma InCat<T>(used: seq<seq<T>>, lengths: seq<nat>, i: nat, j: nat)
    requires Lens(used) == lengths && i < |used| && j < lengths[i]
    ensures j < |used[i]| && Sum(lengths[..i]) + j < |Cat(used)| && Cat(used)[Sum(lengths[..i]) + j] == used[i][j]
  {
    CatAt(used, i, j);
  }

  /** Recombining what was collected recovers every row's used prefix. */
  lemma RoundTrip<T>(rows: seq<seq<T>>, size: nat, lengths: seq<nat>)
    requires Padded(rows, size, lengths) && 0 < Sum(lengths)
    ensures |CollectBytes(rows, size, lengths)| == Sum(lengths)
    ensures var back := RecombineBytes(CollectBytes(rows, size, lengths), size, lengths);
            && |back| == |rows| && (forall i :: 0 <= i < |back| ==> |back[i]| == size)
            && Used(back, lengths) == Used(rows, lengths)
  {
    hide CollectBytes, Before;
    IndexOf(size, lengths, |lengths|, 0);
    CollectedIsUsed(rows, size, lengths);
    var used := Used(rows, lengths);
    assert Lens(used) == lengths;
    var back := RecombineBytes(Cat(used), size, lengths);
    forall i | 0 <= i < |rows| ensures back[i][..lengths[i]] == used[i] {
      forall j | 0 <= j < lengths[i] ensures back[i][j] == used[i][j] {
        RecombinedAt(used, size, lengths, i, j);
      }
    }
  }

  // ---------------------------------------------------------------- quantisation

  function Abs(x: real): real { if x < 0.0 then -x else x }

  /** The largest magnitude in a row. */
  function Amax(row: seq<real>): (m: real)
    ensures 0.0 <= m && forall i :: 0 <= i < |row| ==> Abs(row[i]) <= m
    ensures m == 0.0 || exists i :: 0 <= i < |row| && Abs(row[i]) == m
  {
    if row == [] then 0.0
    else
      var init, last := row[..|row| - 1], row[|row| - 1];
      var m := Amax(init);
      assert forall i :: 0 <= i < |row| ==> row[i] == if i < |init| then init[i] else last;
      if Abs(last) > m then assert Abs(row[|row| - 1]) == Abs(last); Abs(last)
      else
        assert m == 0.0 || exists i :: 0 <= i < |init| && Abs(init[i]) == m && Abs(row[i]) == m;
        m
  }

  lemma AmaxUnique(row: seq<real>, m: real)
    requires forall i :: 0 <= i < |row| ==> Abs(row[i]) <= m
    requires exists i :: 0 <= i < |row| && Abs(row[i]) == m
    ensures Amax(row) == m
  {
  }

  /** Rounding to the nearest integer, ties to even. */
  function Round(x: real): (r: int)
    ensures -0.5 <= r as real - x <= 0.5
    ensures r as real - x == 0.5 || r as real - x == -0.5 ==> r % 2 == 0
  {
    var f := x.Floor;
    var d := x - f as real;
    if d < 0.5 || (d == 0.5 && f % 2 == 0) then f else f + 1
  }

  lemma RoundWithin(x: real, lo: int, hi: int)
    requires lo as real <= x <= hi as real
    ensures lo <= Round(x) <= hi
  {
  }

  /** Truncation to a signed byte. */
  function ToInt8(x: int): (r: int)
    ensures -128 <= r < 128
  {
    (x + 128) % 256 - 128
  }

  function Bound(bins: nat): int { bins / 2 - 1 }

  /** An element in units of the step between codes. */
  function Scale(x: real, c: int, m: real): real
    requires m != 0.0
  {
    x * (c as real / m)
  }

  /** One element's code, given its row's maximum. */
  function Quantise(x: real, c: int, m: real): int
    requires m != 0.0
  {
    Code(Scale(x, c, m), c)
  }

  /** The code of a scaled element. */
  function Code(y: real, c: int): int { ToInt8(Round(y + c as real)) }

  function Dequantise(q: int, c: int, m: real): real
    requires c != 0
  {
    (q - c) as real / c as real * m
  }

  function QuantiseRow(row: seq<real>, bins: nat): (r: (seq<int>, real))
    requires Amax(row) != 0.0
    ensures |r.0| == |row|
  {
    (seq(|row|, i requires 0 <= i < |row| => Quantise(row[i], Bound(bins), Amax(row))), Amax(row))
  }

  function DequantiseRow(codes: seq<int>, bins: nat, m: real): (r: seq<real>)
    requires Bound(bins) != 0
    ensures |r| == |codes|
  {
    seq(|codes|, i requires 0 <= i < |codes| => Dequantise(codes[i], Bound(bins), m))
  }

  lemma ScaleLe(a: real, b: real, k: real)
    requires a <= b && 0.0 <= k
    ensures a * k <= b * k
  {
    assert (b - a) * k >= 0.0;
  }

  lemma CancelLe(a: real, b: real, k: real)
    requires 0.0 < k && a * k <= b * k
    ensures a <= b
  {
    assert a > b ==> (a - b) * k > 0.0;
  }

  lemma CancelEq(a: real, b: real, k: real)
    requires 0.0 < k && a * k == b * k
    ensures a == b
  {
    CancelLe(a, b, k);
    CancelLe(b, a, k);
  }

  lemma Rearrange(x: real, k: real, m: real)
    ensures (x * k) * m == x * (k * m)
  {
  }

  lemma ScaleTimes(x: real, c: int, m: real)
    requires m != 0.0
    ensures Scale(x, c, m) * m == x * c as real
  {
    var k := c as real / m;
    assert k * m == c as real;
    Rearrange(x, k, m);
  }

  /** Scaling takes a row's magnitudes to at most the bound, and its largest to the bound itself. */
  lemma Scaled(x: real, c: int, m: real)
    requires 0 < c && 0.0 < m && Abs(x) <= m
    ensures var y := Scale(x, c, m); -(c as real) <= y <= c as real && y * m == x * c as real
    ensures (x == m ==> Scale(x, c, m) == c as real) && (x == -m ==> Scale(x, c, m) == -(c as real))
  {
    hide Scale;
    var y, cr := Scale(x, c, m), c as real;
    ScaleTimes(x, c, m);
    ScaleLe(-m, x, cr);
    ScaleLe(x, m, cr);
    Commute(m, cr);
    CancelLe(-cr, y, m);
    CancelLe(y, cr, m);
    if x == m { CancelEq(y, cr, m); }
    if x == -m { CancelEq(y, -cr, m); }
  }

  lemma Commute(a: real, b: real)
    ensures a * b == b * a && (-a) * b == (-b) * a
  {
  }

  /** A scaled element's code lies between 0 and twice the bound, as long as that fits a signed byte. */
  lemma CodeOf(y: real, c: int)
    requires 0 < c <= 63 && -(c as real) <= y <= c as real
    ensures 0 <= Code(y, c) <= 2 * c && Code(y, c) == Round(y + c as real)
    ensures -0.5 <= (Code(y, c) - c) as real - y <= 0.5
  {
    RoundWithin(y + c as real, 0, 2 * c);
  }

  /** Whole scaled elements are their own codes, up to the offset. */
  lemma CodeOfWhole(q: int, c: int)
    requires 0 < c <= 63 && 0 <= q <= 2 * c
    ensures Code((q - c) as real, c) == q
  {
    CodeOf((q - c) as real, c);
    RoundWithin(q as real, q, q);
  }

  lemma DequantiseScaled(q: int, c: int, m: real)
    requires c != 0
    ensures Dequantise(q, c, m) * c as real == (q - c) as real * m
  {
    var k, cr := (q - c) as real / c as real, c as real;
    assert k * cr == (q - c) as real;
    Rearrange(m, k, cr);
    Commute(k, m);
    Commute(k * cr, m);
  }

  lemma Twice(d: real, c: int)
    ensures d * (2 * c) as real == 2.0 * (d * c as real)
  {
    assert (2 * c) as real == 2.0 * c as real;
  }

  /** The error in terms of the distance between code and scaled element. */
  lemma ErrorScaled(x: real, y: real, q: int, c: int, m: real)
    requires 0 < c && y * m == x * c as real
    ensures (Dequantise(q, c, m) - x) * c as real == ((q - c) as real - y) * m
  {
    hide Dequantise;
    DequantiseScaled(q, c, m);
  }

  /** Within half a step of each other. */
  ghost predicate Near(x: real, back: real, c: int, m: real) {
    Abs(back - x) * (2 * c) as real <= m
  }

  /** Rounding by at most a half before scaling back errs by at most half a step. */
  lemma HalfAStep(x: real, y: real, q: int, c: int, m: real)
    requires 0 < c && 0.0 < m && y * m == x * c as real && -0.5 <= (q - c) as real - y <= 0.5
    ensures Near(x, Dequantise(q, c, m), c, m)
  {
    hide Dequantise;
    var d, e, cr := Dequantise(q, c, m) - x, (q - c) as real - y, c as real;
    ErrorScaled(x, y, q, c, m);
    ScaleLe(-0.5, e, m);
    ScaleLe(e, 0.5, m);
    Twice(Abs(d), c);
    Commute(d, cr);
  }

  /** Codes fit, and dequantising a code errs by at most half a step. */
  lemma CodeAndError(x: real, c: int, m: real)
    requires 0 < c <= 63 && 0.0 < m && Abs(x) <= m
    ensures 0 <= Quantise(x, c, m) <= 2 * c
    ensures Near(x, Dequantise(Quantise(x, c, m), c, m), c, m)
  {
    hide Code, Scale, Dequantise, Abs, Near;
    Scaled(x, c, m);
    CodeOf(Scale(x, c, m), c);
    HalfAStep(x, Scale(x, c, m), Quantise(x, c, m), c, m);
  }

  lemma DequantisedInRange(q: int, c: int, m: real)
    requires 0 < c && 0.0 < m && 0 <= q <= 2 * c
    ensures Abs(Dequantise(q, c, m)) <= m
  {
    hide Dequantise;
    DequantiseScaled(q, c, m);
    var x, cr := Dequantise(q, c, m), c as real;
    ScaleLe(-cr, (q - c) as real, m);
    ScaleLe((q - c) as real, cr, m);
    Commute(m, cr);
    CancelLe(-m, x, cr);
    CancelLe(x, m, cr);
  }

  /** A code quantises back to itself. */
  lemma Requantise(q: int, c: int, m: real)
    requires 0 < c <= 63 && 0.0 < m && 0 <= q <= 2 * c
    ensures Abs(Dequantise(q, c, m)) <= m
    ensures Quantise(Dequantise(q, c, m), c, m) == q
  {
    hide Dequantise, Code, Scale, Abs;
    var x := Dequantise(q, c, m);
    DequantisedInRange(q, c, m);
    DequantiseScaled(q, c, m);
    ScaleTimes(x, c, m);
    CancelEq(Scale(x, c, m), (q - c) as real, m);
    CodeOfWhole(q, c);
  }

  /** The largest magnitude of a row keeps its place: it gets an outermost code, and comes back exactly. */
  lemma Extreme(x: real, c: int, m: real)
    requires 0 < c <= 63 && 0.0 < m && Abs(x) == m
    ensures Dequantise(Quantise(x, c, m), c, m) == x
  {
    hide Dequantise, Code, Scale;
    var q := if x == m then 2 * c else 0;
    Scaled(x, c, m);
    CodeOfWhole(q, c);
    assert (q - c) as real == if x == m then c as real else -(c as real);
    DequantiseScaled(q, c, m);
    Commute(m, c as real);
    CancelEq(Dequantise(q, c, m), x, c as real);
  }

  lemma RowAt(row: seq<real>, bins: nat, i: nat)
    requires Bound(bins) != 0 && Amax(row) != 0.0 && i < |row|
    ensures var (codes, m) := QuantiseRow(row, bins);
            m == Amax(row) && codes[i] == Quantise(row[i], Bound(bins), m)
    ensures var (codes, m) := QuantiseRow(row, bins);
            DequantiseRow(codes, bins, m)[i] == Dequantise(codes[i], Bound(bins), m)
  {
    hide Quantise, Dequantise, Amax, Bound;
  }

  /** What quantisation promises for an element: a code in range, an error of at most half a step, and the
      same code when the result is quantised again. */
  ghost predicate Survives(x: real, code: int, back: real, c: int, m: real)
    requires m != 0.0
  {
    0 <= code <= 2 * c && Near(x, back, c, m) && Quantise(back, c, m) == code
  }

  lemma ElementSurvives(x: real, c: int, m: real)
    requires 0 < c <= 63 && 0.0 < m && Abs(x) <= m
    ensures var code := Quantise(x, c, m); var back := Dequantise(code, c, m);
            && Survives(x, code, back, c, m) && Abs(back) <= m && (Abs(x) == m ==> back == x)
  {
    hide Quantise, Dequantise, Abs, Near;
    CodeAndError(x, c, m);
    Requantise(Quantise(x, c, m), c, m);
    if Abs(x) == m { Extreme(x, c, m); }
  }

  /** The promises for a whole row, whose maximum is kept as well. */
  ghost predicate RowSurvives(row: seq<real>, bins: nat)
    requires Amax(row) != 0.0 && Bound(bins) != 0
  {
    var (codes, m) := QuantiseRow(row, bins);
    var back := DequantiseRow(codes, bins, m);
    && (forall i :: 0 <= i < |row| ==> Survives(row[i], codes[i], back[i], bins / 2 - 1, m))
    && Amax(back) == m && QuantiseRow(back, bins) == (codes, m)
  }

  lemma SameRow(row: seq<real>, back: seq<real>, bins: nat, codes: seq<int>, m: real)
    requires |codes| == |back| == |row| && m != 0.0 && Amax(back) == m
    requires forall i :: 0 <= i < |back| ==> Survives(row[i], codes[i], back[i], Bound(bins), m)
    ensures QuantiseRow(back, bins) == (codes, m)
  {
    hide Quantise, Amax;
    assert QuantiseRow(back, bins).0 == codes;
  }

  /** Up to 129 bins, every row that is not all zero survives. */
  lemma RowRoundTrip(row: seq<real>, bins: nat)
    requires 4 <= bins <= 129 && Amax(row) != 0.0
    ensures RowSurvives(row, bins)
  {
    hide Quantise, Dequantise, Near, Abs, Amax, Survives, DequantiseRow;
    var (codes, m) := QuantiseRow(row, bins);
    var back := DequantiseRow(codes, bins, m);
    forall i | 0 <= i < |row|
      ensures Survives(row[i], codes[i], back[i], Bound(bins), m) && Abs(back[i]) <= m
      ensures Abs(row[i]) == m ==> back[i] == row[i]
    {
      RowAt(row, bins, i);
      ElementSurvives(row[i], Bound(bins), m);
    }
    AmaxUnique(back, m) by {
      var i :| 0 <= i < |row| && Abs(row[i]) == m;
      assert Abs(back[i]) == m;
    }
    SameRow(row, back, bins, codes, m);
  }

  /** In plain terms: with 4 to 129 bins an element comes back changed by at most the row's maximum divided by twice the
      largest number of steps to either side, which is half the bins less one. */
  lemma ErrorIsSmall(row: seq<real>, bins: nat, i: nat)
    requires 4 <= bins <= 129 && Amax(row) != 0.0 && i < |row|
    ensures var codes := QuantiseRow(row, bins).0;
            && 0 <= codes[i] <= 2 * (bins / 2 - 1)
            && Abs(DequantiseRow(codes, bins, Amax(row))[i] - row[i]) <= Amax(row) / (2 * (bins / 2 - 1)) as real
  {
    hide Quantise, Dequantise, Amax, QuantiseRow, DequantiseRow, Abs, Survives;
    RowRoundTrip(row, bins);
    RowAt(row, bins, i);
    var (codes, m) := QuantiseRow(row, bins);
    SurvivesWithin(row[i], codes[i], DequantiseRow(codes, bins, m)[i], bins / 2 - 1, m);
  }

  lemma SurvivesWithin(x: real, code: int, back: real, c: int, m: real)
    requires 0 < c && m != 0.0 && Survives(x, code, back, c, m)
    ensures 0 <= code <= 2 * c && Abs(back - x) <= m / (2 * c) as real
  {
    hide Quantise, Abs;
    var k := (2 * c) as real;
    assert m / k * k == m;
    CancelLe(Abs(back - x), m / k, k);
  }

  // ---------------------------------------------------------------- how many bins work

  /** With a bound that does not fit, the byte loses a multiple of 256 from the largest element's code. */
  lemma Wraps(c: int)
    requires 63 < c
    ensures Code(c as real, c) <= 2 * c - 256
  {
    RoundWithin((2 * c) as real, 2 * c, 2 * c);
    assert c as real + c as real == (2 * c) as real;
  }

  /** The largest element of a row then comes back wrong by far more than half a step. */
  lemma TooManyBins(c: int, m: real)
    requires 63 < c && 0.0 < m
    ensures !Near(m, Dequantise(Quantise(m, c, m), c, m), c, m)
  {
    hide Code, Scale, Dequantise;
    var q, cr := Quantise(m, c, m), c as real;
    Scaled(m, c, m);
    Wraps(c);
    ErrorScaled(m, cr, q, c, m);
    var d := Dequantise(q, c, m) - m;
    ScaleLe((q - c) as real - cr, -256.0, m);
    assert d * cr <= -256.0 * m;
    Twice(-d, c);
    assert (-d) * cr == -(d * cr);
    if d > 0.0 { ScaleLe(0.0, d, cr); }
  }

  ghost predicate QuantisesWell(bins: nat) {
    Bound(bins) != 0 && forall row: seq<real> :: Amax(row) != 0.0 ==> RowSurvives(row, bins)
  }

  lemma AmaxOfOne(x: real)
    requires 0.0 <= x
    ensures Amax([x]) == x
  {
    var row := [x];
    assert Abs(row[0]) == x;
    AmaxUnique(row, x);
  }

  lemma NegativeBound(bins: nat)
    requires bins < 2 && Amax([1.0]) != 0.0
    ensures !RowSurvives([1.0], bins)
  {
    assert Bound(bins) == -1;
    var (codes, m) := QuantiseRow([1.0], bins);
    assert !(0 <= codes[0] <= 2 * Bound(bins));
  }

  /** Quantisation keeps its promises for every row that is not all zero exactly from 4 to 129 bins. */
  lemma QuantisesWellExactly(bins: nat)
    ensures QuantisesWell(bins) <==> 4 <= bins <= 129
  {
    hide RowSurvives;
    if 4 <= bins <= 129 {
      forall row: seq<real> | Amax(row) != 0.0 ensures RowSurvives(row, bins) {
        RowRoundTrip(row, bins);
      }
    } else if bins < 2 {
      AmaxOfOne(1.0);
      NegativeBound(bins);
    } else if bins > 129 {
      FullRow(bins);
    }
  }

  lemma FullRow(bins: nat)
    requires bins > 129
    ensures Amax([1.0]) == 1.0 && !RowSurvives([1.0], bins)
  {
    hide Quantise, Dequantise, Near;
    var row: seq<real> := [1.0];
    AmaxOfOne(1.0);
    TooManyBins(Bound(bins), 1.0);
    RowAt(row, bins, 0);
  }
}
