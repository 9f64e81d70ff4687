/** Splitting a token sequence at a separator, and the ranges reported for the segments. */
module SegmentDatabase {
  import opened Sequences
  import opened TokenDatabase

  type Tokens = seq<Token>

  predicate MatchAt(tokens: Tokens, sep: Tokens, i: nat) {
    i + |sep| <= |tokens| && forall x :: 0 <= x < |sep| ==> tokens[i + x] == sep[x]
  }

  /** The positions below n at which the separator matches, in ascending order. */
  function Matches(tokens: Tokens, sep: Tokens, n: nat): (ms: seq<nat>)
    ensures IsMatchList(tokens, sep, ms) && forall i :: 0 <= i < |ms| ==> ms[i] < n
  {
    if n == 0 then []
    else
      var ms := Matches(tokens, sep, n - 1);
      if MatchAt(tokens, sep, n - 1) then ms + [n - 1] else ms
  }

  /** Ascending positions of matches. */
  ghost predicate IsMatchList(tokens: Tokens, sep: Tokens, ms: seq<nat>) {
    && (forall i :: 0 <= i < |ms| ==> MatchAt(tokens, sep, ms[i]))
    && (forall i, j :: 0 <= i < j < |ms| ==> ms[i] < ms[j])
  }

  lemma {:induction false} MatchesComplete(tokens: Tokens, sep: Tokens, n: nat, i: nat)
    requires i < n && MatchAt(tokens, sep, i)
    ensures i in Matches(tokens, sep, n)
    decreases n
  {
    if i < n - 1 { MatchesComplete(tokens, sep, n - 1, i); }
  }

  function AllMatches(tokens: Tokens, sep: Tokens): (ms: seq<nat>)
    requires |sep| <= |tokens|
    ensures IsMatchList(tokens, sep, ms)
  {
    Matches(tokens, sep, |tokens| - |sep| + 1)
  }

  // ---------------------------------------------------------------- segments

  /** The k-th segment runs from the end of the match before it to the start of the match after it. */
  function StartOf(ms: seq<nat>, sepLen: nat, k: nat): nat
    requires k <= |ms|
  {
    if k == 0 then 0 else ms[k - 1] + sepLen
  }

  function EndOf(tokens: Tokens, ms: seq<nat>, k: nat): nat
    requires k <= |ms|
  {
    if k == |ms| then |tokens| else ms[k]
  }

  function Segment(tokens: Tokens, sepLen: nat, ms: seq<nat>, k: nat): Tokens
    requires k <= |ms|
  {
    Slice(tokens, StartOf(ms, sepLen, k), EndOf(tokens, ms, k))
  }

  /** All segments, in order. */
  function Segments(tokens: Tokens, sepLen: nat, ms: seq<nat>): (r: seq<Tokens>)
    ensures |r| == |ms| + 1
  {
    seq(|ms| + 1, k requires 0 <= k <= |ms| => Segment(tokens, sepLen, ms, k))
  }

  function Join(segments: seq<Tokens>, sep: Tokens): Tokens {
    if segments == [] then []
    else if |segments| == 1 then segments[0]
    else Join(segments[..|segments| - 1], sep) + sep + segments[|segments| - 1]
  }

  /** Consecutive matches do not overlap. */
  ghost predicate Spaced(ms: seq<nat>, sepLen: nat) {
    forall k :: 0 <= k < |ms| ==> StartOf(ms, sepLen, k) <= ms[k]
  }

  /** The first k segments are not cut short by overlaps. */
  ghost predicate SpacedBelow(ms: seq<nat>, sepLen: nat, k: nat) {
    forall i :: 0 <= i < k && i < |ms| ==> StartOf(ms, sepLen, i) <= ms[i]
  }

  lemma SpacedStep(ms: seq<nat>, sepLen: nat, k: nat)
    ensures SpacedBelow(ms, sepLen, k + 1) <==>
              SpacedBelow(ms, sepLen, k) && (k < |ms| ==> StartOf(ms, sepLen, k) <= ms[k])
  {
  }

  /** Joining the first segments covers the tokens up to the end of the last of them, exactly when the
      matches between them do not overlap; otherwise it is longer. */
  lemma {:induction false} JoinPrefix(tokens: Tokens, sep: Tokens, ms: seq<nat>, k: nat)
    requires IsMatchList(tokens, sep, ms) && 0 < k <= |ms| + 1
    ensures var j := Join(Segments(tokens, |sep|, ms)[..k], sep);
            if SpacedBelow(ms, |sep|, k) then
              EndOf(tokens, ms, k - 1) <= |tokens| && j == tokens[..EndOf(tokens, ms, k - 1)]
            else |j| > EndOf(tokens, ms, k - 1)
    decreases k
  {
    hide MatchAt, Slice, Matches, IsMatchList, SpacedBelow;
    var segments := Segments(tokens, |sep|, ms);
    SpacedStep(ms, |sep|, k - 1);
    if k == 1 {
      FirstSegment(tokens, sep, ms);
      NoneBelow(ms, |sep|);
    } else {
      JoinPrefix(tokens, sep, ms, k - 1);
      assert segments[..k][..k - 1] == segments[..k - 1];
      MatchBefore(tokens, sep, ms, k - 1);
      JoinOneMore(tokens, sep, Join(segments[..k - 1], sep), ms[k - 2], EndOf(tokens, ms, k - 1));
    }
  }

  lemma NoneBelow(ms: seq<nat>, sepLen: nat)
    ensures SpacedBelow(ms, sepLen, 0)
    ensures SpacedBelow(ms, sepLen, |ms| + 1) <==> Spaced(ms, sepLen)
  {
  }

  lemma FirstSegment(tokens: Tokens, sep: Tokens, ms: seq<nat>)
    requires IsMatchList(tokens, sep, ms)
    ensures EndOf(tokens, ms, 0) <= |tokens| && Segment(tokens, |sep|, ms, 0) == tokens[..EndOf(tokens, ms, 0)]
  {
    if ms != [] { assert MatchAt(tokens, sep, ms[0]); }
  }

  lemma MatchBefore(tokens: Tokens, sep: Tokens, ms: seq<nat>, k: nat)
    requires IsMatchList(tokens, sep, ms) && 0 < k <= |ms|
    ensures MatchAt(tokens, sep, ms[k - 1]) && ms[k - 1] <= EndOf(tokens, ms, k) <= |tokens|
  {
    assert MatchAt(tokens, sep, ms[k - 1]);
    if k < |ms| { assert MatchAt(tokens, sep, ms[k]); }
  }

  lemma JoinOneMore(tokens: Tokens, sep: Tokens, j: Tokens, m: nat, e: nat)
    requires MatchAt(tokens, sep, m) && m <= e <= |tokens|
    ensures var s := m + |sep|;
            var j' := j + sep + Slice(tokens, s, e);
            && (j == tokens[..m] && s <= e ==> j' == tokens[..e])
            && (|j| >= m && (|j| > m || s > e) ==> |j'| > e)
  {
    var s := m + |sep|;
    if s <= e {
      assert tokens[m..s] == sep;
      assert tokens[..e] == tokens[..m] + tokens[m..s] + tokens[s..e];
    }
  }

  /** Splitting loses nothing if and only if no two consecutive matches overlap. */
  lemma JoinRestores(tokens: Tokens, sep: Tokens, ms: seq<nat>)
    requires IsMatchList(tokens, sep, ms)
    ensures Join(Segments(tokens, |sep|, ms), sep) == tokens <==> Spaced(ms, |sep|)
    ensures !Spaced(ms, |sep|) ==> |Join(Segments(tokens, |sep|, ms), sep)| > |tokens|
  {
    hide IsMatchList, Spaced, SpacedBelow;
    var segments := Segments(tokens, |sep|, ms);
    JoinPrefix(tokens, sep, ms, |ms| + 1);
    NoneBelow(ms, |sep|);
    assert segments[..|segments|] == segments && tokens[..|tokens|] == tokens;
  }

  /** No proper suffix of the separator is a prefix of it. */
  ghost predicate SelfOverlapFree(sep: Tokens) {
    forall d :: 0 < d < |sep| ==> DiffersShifted(sep, d)
  }

  ghost predicate DiffersShifted(sep: Tokens, d: nat) {
    exists x :: 0 <= x && d + x < |sep| && sep[d + x] != sep[x]
  }

  lemma OverlapShowsInSep(tokens: Tokens, sep: Tokens, i: nat, d: nat)
    requires MatchAt(tokens, sep, i) && MatchAt(tokens, sep, i + d)
    ensures !DiffersShifted(sep, d)
  {
    forall x | 0 <= x && d + x < |sep| ensures sep[d + x] == sep[x] {
      assert tokens[i + (d + x)] == sep[d + x] && tokens[i + d + x] == sep[x];
    }
  }

  /** A separator that does not overlap itself has spaced matches in every sequence. */
  lemma SelfOverlapFreeSpaced(tokens: Tokens, sep: Tokens, ms: seq<nat>)
    requires SelfOverlapFree(sep) && IsMatchList(tokens, sep, ms)
    ensures Spaced(ms, |sep|)
  {
    forall k | 0 <= k < |ms| ensures StartOf(ms, |sep|, k) <= ms[k] {
      if k > 0 && ms[k] < ms[k - 1] + |sep| {
        OverlapShowsInSep(tokens, sep, ms[k - 1], ms[k] - ms[k - 1]);
      }
    }
  }

  /** And only such a separator does: one that overlaps itself at distance d overlaps in the sequence that
      puts its first d tokens before it, and joining then does not give that sequence back. */
  lemma OverlapLoses(sep: Tokens, d: nat)
    requires 0 < d < |sep| && !DiffersShifted(sep, d)
    ensures var tokens := sep[..d] + sep; Join(Segments(tokens, |sep|, AllMatches(tokens, sep)), sep) != tokens
  {
    hide Matches, DiffersShifted, Join, Segments, IsMatchList, MatchAt;
    var tokens := sep[..d] + sep;
    var ms := AllMatches(tokens, sep);
    OverlapMatches(sep, d);
    MatchesComplete(tokens, sep, d + 1, 0);
    MatchesComplete(tokens, sep, d + 1, d);
    TwoEarlyMatches(tokens, sep, ms, d);
    assert StartOf(ms, |sep|, 1) > ms[1];
    JoinRestores(tokens, sep, ms);
  }

  lemma OverlapMatches(sep: Tokens, d: nat)
    requires 0 < d < |sep| && !DiffersShifted(sep, d)
    ensures MatchAt(sep[..d] + sep, sep, 0) && MatchAt(sep[..d] + sep, sep, d)
  {
    var tokens := sep[..d] + sep;
    forall x | 0 <= x < |sep| ensures tokens[0 + x] == sep[x] {
      if x >= d { assert sep[d + (x - d)] == sep[x - d]; }
    }
  }

  lemma TwoEarlyMatches(tokens: Tokens, sep: Tokens, ms: seq<nat>, d: nat)
    requires IsMatchList(tokens, sep, ms) && 0 < d && 0 in ms && d in ms
    ensures |ms| > 1 && ms[1] <= d
  {
    var i, j :| 0 <= i < |ms| && 0 <= j < |ms| && ms[i] == 0 && ms[j] == d;
    assert i != j;
  }

  lemma MatchInSlice(tokens: Tokens, sep: Tokens, a: nat, b: nat, i: nat)
    requires a < b <= |tokens| && sep != [] && MatchAt(tokens[a..b], sep, i)
    ensures MatchAt(tokens, sep, a + i) && a + i + |sep| <= b
  {
    forall x | 0 <= x < |sep| ensures tokens[a + i + x] == sep[x] {
      assert tokens[a..b][i + x] == sep[x];
    }
  }

  lemma MatchBetween(tokens: Tokens, sep: Tokens, s: nat, e: nat, i: nat)
    requires 0 < |sep| <= |tokens| && s < e <= |tokens| && MatchAt(tokens[s..e], sep, i)
    ensures s + i in AllMatches(tokens, sep) && s + i + |sep| <= e
  {
    hide MatchAt, IsMatchList;
    MatchInSlice(tokens, sep, s, e, i);
    MatchesComplete(tokens, sep, |tokens| - |sep| + 1, s + i);
  }

  lemma MatchesAround(tokens: Tokens, sep: Tokens, ms: seq<nat>, k: nat)
    requires IsMatchList(tokens, sep, ms) && k <= |ms|
    ensures EndOf(tokens, ms, k) <= |tokens|
    ensures forall m :: m in ms ==> m + |sep| <= StartOf(ms, |sep|, k) || EndOf(tokens, ms, k) <= m
  {
    if k < |ms| { assert MatchAt(tokens, sep, ms[k]); }
  }

  /** No segment between all matches contains the separator. */
  lemma SegmentsLackSep(tokens: Tokens, sep: Tokens, k: nat, i: nat)
    requires 0 < |sep| <= |tokens| && k <= |AllMatches(tokens, sep)|
    ensures !MatchAt(Segment(tokens, |sep|, AllMatches(tokens, sep), k), sep, i)
  {
    hide AllMatches, IsMatchList;
    var ms := AllMatches(tokens, sep);
    var s, e := StartOf(ms, |sep|, k), EndOf(tokens, ms, k);
    MatchesAround(tokens, sep, ms, k);
    if s < e && MatchAt(tokens[s..e], sep, i) {
      MatchBetween(tokens, sep, s, e, i);
    }
  }

  // ---------------------------------------------------------------- what is yielded

  /** What the splitter yields: the segments, before them the whole input if the separator is empty.  An input
      shorter than the separator is all it yields. */
  function Split(tokens: Tokens, sep: Tokens): seq<Tokens> {
    if |tokens| < |sep| then [tokens]
    else (if sep == [] then [tokens] else []) + Segments(tokens, |sep|, AllMatches(tokens, sep))
  }

  /** Joining what is yielded gives the tokens back. */
  ghost predicate Restores(tokens: Tokens, sep: Tokens) { Join(Split(tokens, sep), sep) == tokens }

  /** An empty separator matches everywhere, and what is yielded joins to more than the tokens. */
  lemma EmptySeparatorRepeats(tokens: Tokens)
    requires tokens != []
    ensures |Join(Split(tokens, []), [])| > |tokens|
  {
    hide Join, AllMatches, IsMatchList, Segments;
    var ms := AllMatches(tokens, []);
    var segments := Segments(tokens, 0, ms);
    JoinWithFirst(tokens, segments, []);
    JoinReaches(tokens, ms);
  }

  /** Joining is joining the first part with the joined rest. */
  lemma {:induction false} JoinWithFirst(first: Tokens, rest: seq<Tokens>, sep: Tokens)
    requires rest != []
    ensures Join([first] + rest, sep) == first + sep + Join(rest, sep)
    decreases |rest|
  {
    var all, init, last := [first] + rest, rest[..|rest| - 1], rest[|rest| - 1];
    assert all[..|all| - 1] == [first] + init && all[|all| - 1] == last;
    if init == [] {
      assert Join([first] + init, sep) == first && Join(rest, sep) == last;
    } else {
      JoinWithFirst(first, init, sep);
      assert Join(all, sep) == first + sep + Join(init, sep) + sep + last;
      assert Join(rest, sep) == Join(init, sep) + sep + last;
      assert first + sep + (Join(init, sep) + sep + last) == first + sep + Join(init, sep) + sep + last;
    }
  }

  lemma JoinReaches(tokens: Tokens, ms: seq<nat>)
    requires IsMatchList(tokens, [], ms)
    ensures |Join(Segments(tokens, 0, ms), [])| >= |tokens|
  {
    JoinRestores(tokens, [], ms);
  }

  /** Splitting loses and repeats nothing of any input exactly when the separator is not empty and does not
      overlap itself. */
  lemma RestoresExactly(sep: Tokens)
    ensures sep != [] && SelfOverlapFree(sep) <==>
            forall tokens: Tokens :: |sep| <= |tokens| ==> Restores(tokens, sep)
  {
    hide AllMatches, Join, Segments, DiffersShifted, IsMatchList, Spaced;
    if sep == [] {
      EmptySeparatorRepeats([0]);
      assert !Restores([0], sep);
    } else if SelfOverlapFree(sep) {
      forall tokens: Tokens | |sep| <= |tokens| ensures Restores(tokens, sep) {
        SelfOverlapFreeSpaced(tokens, sep, AllMatches(tokens, sep));
        JoinRestores(tokens, sep, AllMatches(tokens, sep));
        OnlySegments(tokens, sep);
      }
    } else {
      var d :| 0 < d < |sep| && !DiffersShifted(sep, d);
      OverlapLoses(sep, d);
      OnlySegments(sep[..d] + sep, sep);
      assert !Restores(sep[..d] + sep, sep);
    }
  }

  lemma OnlySegments(tokens: Tokens, sep: Tokens)
    requires 0 < |sep| <= |tokens|
    ensures Split(tokens, sep) == Segments(tokens, |sep|, AllMatches(tokens, sep))
  {
  }

  // ---------------------------------------------------------------- the loops

  /** The splitting loop.  Reports an error, after what it has yielded, for an input shorter than the separator. */
  method FastSplit(tokens: Tokens, sep: Tokens) returns (segments: seq<Tokens>, ok: bool)
    ensures ok <==> |sep| <= |tokens|
    ensures segments == Split(tokens, sep)
  {
    hide Matches, Segment;
    segments := if sep == [] || |tokens| < |sep| then [tokens] else [];
    ok := |sep| <= |tokens|;
    if ok {
      ghost var before := segments;
      var matches := AllMatches(tokens, sep);
      var start := 0;
      for k := 0 to |matches|
        invariant start == StartOf(matches, |sep|, k)
        invariant segments == before + Segments(tokens, |sep|, matches)[..k]
      {
        SegmentIs(tokens, |sep|, matches, k);
        segments := segments + [Slice(tokens, start, matches[k])];
        start := matches[k] + |sep|;
      }
      SegmentIs(tokens, |sep|, matches, |matches|);
      segments := segments + [Slice(tokens, start, |tokens|)];
    }
  }

  lemma SegmentIs(tokens: Tokens, sepLen: nat, ms: seq<nat>, k: nat)
    requires k <= |ms|
    ensures var all := Segments(tokens, sepLen, ms);
            && all[..k + 1] == all[..k] + [Slice(tokens, StartOf(ms, sepLen, k), EndOf(tokens, ms, k))]
            && all[..|ms| + 1] == all
  {
  }

  /** A reported segment: its range and the segment whose digest becomes the key. */
  datatype Span = Span(start: nat, end: nat, segment: Tokens)

  /** The ranges of the first k segments, leaving out those that start inside the masked prefix.  A range
      ends where the segments up to it, joined with separators, end. */
  ghost function SpansUpTo(segments: seq<Tokens>, sep: Tokens, numFalses: nat, k: nat): seq<Span>
    requires k <= |segments|
  {
    if k == 0 then []
    else
      JoinStep(segments, sep, k - 1);
      var e, seg := |Join(segments[..k], sep)|, segments[k - 1];
      SpansUpTo(segments, sep, numFalses, k - 1) + if e - |seg| >= numFalses then [Span(e - |seg|, e, seg)] else []
  }

  lemma JoinStep(segments: seq<Tokens>, sep: Tokens, k: nat)
    requires k < |segments|
    ensures Join(segments[..k + 1], sep) ==
            if k == 0 then segments[0] else Join(segments[..k], sep) + sep + segments[k]
  {
    assert segments[..k + 1][..k] == segments[..k];
  }

  /** The loop that assigns each segment its range by adding up lengths.  Reports an error before anything is
      reported if the mask covers the tokens, and after the first range if they are shorter than the separator. */
  method ProcessTokens(tokens: Tokens, sep: Tokens, numFalses: nat) returns (spans: seq<Span>, ok: bool)
    ensures ok <==> numFalses < |tokens| && |sep| <= |tokens|
    ensures var segments := Split(tokens, sep);
            spans == if numFalses < |tokens| then SpansUpTo(segments, sep, numFalses, |segments|) else []
  {
    hide Split, SpansUpTo, Join;
    spans, ok := [], false;
    if numFalses < |tokens| {
      var segments;
      segments, ok := FastSplit(tokens, sep);
      var startIdx: nat := 0;
      SpansStart(segments, sep, numFalses);
      for idx := 0 to |segments|
        invariant startIdx == |Join(segments[..idx], sep)| && spans == SpansUpTo(segments, sep, numFalses, idx)
      {
        SpansStep(segments, sep, numFalses, idx);
        var chunk := segments[idx];
        var endIdx := startIdx + |chunk|;
        if idx > 0 {
          startIdx := startIdx + |sep|;
          endIdx := endIdx + |sep|;
        }
        if startIdx >= numFalses {
          spans := spans + [Span(startIdx, endIdx, chunk)];
        }
        startIdx := endIdx;
      }
    }
  }

  lemma SpansStart(segments: seq<Tokens>, sep: Tokens, numFalses: nat)
    ensures |Join(segments[..0], sep)| == 0 && SpansUpTo(segments, sep, numFalses, 0) == []
  {
  }

  lemma SpansStep(segments: seq<Tokens>, sep: Tokens, numFalses: nat, k: nat)
    requires k < |segments|
    ensures var s := |Join(segments[..k], sep)| + if k > 0 then |sep| else 0;
            var e := s + |segments[k]|;
            && |Join(segments[..k + 1], sep)| == e
            && SpansUpTo(segments, sep, numFalses, k + 1) ==
               SpansUpTo(segments, sep, numFalses, k) + if s >= numFalses then [Span(s, e, segments[k])] else []
  {
    JoinStep(segments, sep, k);
  }

  // ---------------------------------------------------------------- what the ranges mean

  /** A range slices out its segment. */
  ghost predicate Exact(tokens: Tokens, s: Span) {
    s.start <= s.end <= |tokens| && tokens[s.start..s.end] == s.segment
  }

  lemma SegmentRange(tokens: Tokens, sep: Tokens, ms: seq<nat>, k: nat)
    requires IsMatchList(tokens, sep, ms) && Spaced(ms, |sep|) && k <= |ms|
    ensures var e, seg := |Join(Segments(tokens, |sep|, ms)[..k + 1], sep)|, Segment(tokens, |sep|, ms, k);
            && e - |seg| == StartOf(ms, |sep|, k) <= e == EndOf(tokens, ms, k) <= |tokens|
            && tokens[StartOf(ms, |sep|, k)..e] == seg
  {
    hide Join, Segments, MatchAt;
    JoinPrefix(tokens, sep, ms, k + 1);
    assert SpacedBelow(ms, |sep|, k + 1);
    if k > 0 { MatchBefore(tokens, sep, ms, k); }
    MatchesAround(tokens, sep, ms, k);
    MatchFits(tokens, sep, ms, k);
  }

  lemma MatchFits(tokens: Tokens, sep: Tokens, ms: seq<nat>, k: nat)
    requires IsMatchList(tokens, sep, ms) && Spaced(ms, |sep|) && k <= |ms|
    ensures StartOf(ms, |sep|, k) <= EndOf(tokens, ms, k)
  {
    if k > 0 { assert MatchAt(tokens, sep, ms[k - 1]); }
  }

  /** Where matches do not overlap, every reported range slices out exactly its segment, lies past the masked
      prefix, and contains no separator. */
  lemma {:induction false} SpansExact(tokens: Tokens, sep: Tokens, numFalses: nat, k: nat, i: nat)
    requires 0 < |sep| <= |tokens| && Spaced(AllMatches(tokens, sep), |sep|)
    requires k <= |Split(tokens, sep)| && i < |SpansUpTo(Split(tokens, sep), sep, numFalses, k)|
    ensures var s := SpansUpTo(Split(tokens, sep), sep, numFalses, k)[i];
            numFalses <= s.start && Exact(tokens, s) && forall x :: !MatchAt(s.segment, sep, x)
    decreases k
  {
    hide MatchAt, IsMatchList, Spaced, AllMatches, Join;
    var ms := AllMatches(tokens, sep);
    if i < |SpansUpTo(Split(tokens, sep), sep, numFalses, k - 1)| {
      SpansExact(tokens, sep, numFalses, k - 1, i);
    } else {
      SegmentRange(tokens, sep, ms, k - 1);
      var seg := Segment(tokens, |sep|, ms, k - 1);
      assert Split(tokens, sep) == Segments(tokens, |sep|, ms);
      forall x ensures !MatchAt(seg, sep, x) { SegmentsLackSep(tokens, sep, k - 1, x); }
    }
  }

  lemma {:induction false} SpansAreSegments(segments: seq<Tokens>, sep: Tokens, k: nat)
    requires k <= |segments|
    ensures var spans := SpansUpTo(segments, sep, 0, k);
            && |spans| == k && (forall i :: 0 <= i < k ==> spans[i].segment == segments[i])
            && (0 < k ==> spans[k - 1].end == |Join(segments[..k], sep)|)
    decreases k
  {
    hide Join;
    if k > 0 {
      JoinStep(segments, sep, k - 1);
      SpansAreSegments(segments, sep, k - 1);
    }
  }

  ghost function SegmentsIn(spans: seq<Span>): seq<Tokens> {
    seq(|spans|, i requires 0 <= i < |spans| => spans[i].segment)
  }

  /** Without a mask, joining the reported segments gives back the tokens, and every range slices out its
      segment, exactly where the separator is not empty and no two consecutive matches overlap. */
  lemma SpansRestore(tokens: Tokens, sep: Tokens)
    requires |sep| <= |tokens| && tokens != []
    ensures var spans := SpansUpTo(Split(tokens, sep), sep, 0, |Split(tokens, sep)|);
            var clean := sep != [] && Spaced(AllMatches(tokens, sep), |sep|);
            && (Join(SegmentsIn(spans), sep) == tokens <==> clean)
            && ((forall i :: 0 <= i < |spans| ==> Exact(tokens, spans[i])) <==> clean)
  {
    hide Join, Spaced, Segments, AllMatches, IsMatchList, SpansUpTo, MatchAt, Split;
    var ms, all := AllMatches(tokens, sep), Split(tokens, sep);
    var spans := SpansUpTo(all, sep, 0, |all|);
    SpansAreSegments(all, sep, |all|);
    assert SegmentsIn(spans) == all && all[..|all|] == all;
    SplitTooLong(tokens, sep);
    if sep != [] && Spaced(ms, |sep|) {
      forall i | 0 <= i < |spans| ensures Exact(tokens, spans[i]) { SpansExact(tokens, sep, 0, |all|, i); }
    } else {
      assert !Exact(tokens, spans[|spans| - 1]);
    }
  }

  lemma SplitTooLong(tokens: Tokens, sep: Tokens)
    requires |sep| <= |tokens| && tokens != []
    ensures Split(tokens, sep) != []
    ensures var j := Join(Split(tokens, sep), sep);
            if sep != [] && Spaced(AllMatches(tokens, sep), |sep|) then j == tokens else |j| > |tokens|
  {
    hide Join, Spaced, Segments, AllMatches, IsMatchList;
    if sep == [] {
      EmptySeparatorRepeats(tokens);
    } else {
      OnlySegments(tokens, sep);
      JoinRestores(tokens, sep, AllMatches(tokens, sep));
    }
  }
}
