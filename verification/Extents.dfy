/** Value-level theory of a coalesced free list.

    A free list is a sequence of extents.  It is canonical when it is sorted, every extent is
    non-empty, and no two extents touch.  The central fact is that a canonical list is determined by
    the set of addresses it covers, so anything that fixes the covered addresses fixes the list. */
module Extents {

  datatype Extent = Extent(start: int, size: int) {
    function End(): int { start + size }

    predicate Has(x: int) { start <= x < End() }
  }

  /** Sorted, non-empty, inside [0, n), and separated by at least one address. */
  ghost predicate Canonical(fl: seq<Extent>, n: int) {
    && (forall i :: 0 <= i < |fl| ==> 0 <= fl[i].start && 0 < fl[i].size && fl[i].End() <= n)
    && (forall i, j :: 0 <= i < j < |fl| ==> fl[i].End() < fl[j].start)
  }

  ghost predicate NonEmpty(es: seq<Extent>) { forall i :: 0 <= i < |es| ==> 0 < es[i].size }

  /** What the list keeps even when something is returned that it should not hold: order and non-emptiness. */
  ghost predicate Sorted(fl: seq<Extent>) {
    && NonEmpty(fl)
    && (forall i, j :: 0 <= i < j < |fl| ==> fl[i].start <= fl[j].start)
  }

  lemma CanonicalIsSorted(fl: seq<Extent>, n: int)
    requires Canonical(fl, n)
    ensures Sorted(fl)
  {
  }

  ghost predicate Covered(fl: seq<Extent>, x: int) {
    exists i :: 0 <= i < |fl| && fl[i].Has(x)
  }

  /** Every address of the run [s, s + k) is covered. */
  ghost predicate FreeRun(fl: seq<Extent>, s: int, k: int) {
    forall x :: s <= x < s + k ==> Covered(fl, x)
  }

  function Total(fl: seq<Extent>): int {
    if fl == [] then 0 else Total(fl[..|fl| - 1]) + fl[|fl| - 1].size
  }

  // ---------------------------------------------------------------- canonicity

  /** A run of covered addresses lies inside one extent of a canonical list. */
  lemma {:induction false} RunInsideOneExtent(fl: seq<Extent>, n: int, s: int, k: int) returns (i: int)
    requires Canonical(fl, n) && 0 < k && FreeRun(fl, s, k)
    ensures 0 <= i < |fl| && fl[i].start <= s && s + k <= fl[i].End()
    decreases k
  {
    assert Covered(fl, s + k - 1);
    i :| 0 <= i < |fl| && fl[i].Has(s + k - 1);
    if k > 1 {
      var j := RunInsideOneExtent(fl, n, s, k - 1);
      assert i == j;
    }
  }

  /** The first extents of two canonical lists with the same coverage coincide. */
  lemma HeadsAgree(f: seq<Extent>, g: seq<Extent>, n: int)
    requires Canonical(f, n) && Canonical(g, n) && f != []
    requires forall x :: Covered(f, x) <==> Covered(g, x)
    ensures g != [] && f[0] == g[0]
  {
    assert forall x :: f[0].Has(x) ==> Covered(f, x);
    var j := RunInsideOneExtent(g, n, f[0].start, f[0].size);
    assert forall x :: g[0].Has(x) ==> Covered(g, x);
    var i := RunInsideOneExtent(f, n, g[0].start, g[0].size);
    assert i == 0 && j == 0;
  }

  lemma CoveredTail(f: seq<Extent>, n: int, x: int)
    requires Canonical(f, n) && f != []
    ensures Canonical(f[1..], n)
    ensures Covered(f[1..], x) <==> Covered(f, x) && !f[0].Has(x)
  {
    if Covered(f[1..], x) {
      var i :| 0 <= i < |f| - 1 && f[1..][i].Has(x);
      assert f[i + 1].Has(x);
    }
    if Covered(f, x) && !f[0].Has(x) {
      var i :| 0 <= i < |f| && f[i].Has(x);
      assert f[1..][i - 1].Has(x);
    }
  }

  /** Canonicity: the covered addresses determine a canonical free list. */
  lemma {:induction false} CanonicalUnique(f: seq<Extent>, g: seq<Extent>, n: int)
    requires Canonical(f, n) && Canonical(g, n)
    requires forall x :: Covered(f, x) <==> Covered(g, x)
    ensures f == g
    decreases |f| + |g|
  {
    if f != [] {
      HeadsAgree(f, g, n);
      forall x ensures Covered(f[1..], x) <==> Covered(g[1..], x) {
        CoveredTail(f, n, x);
        CoveredTail(g, n, x);
      }
      CoveredTail(f, n, 0);
      CoveredTail(g, n, 0);
      CanonicalUnique(f[1..], g[1..], n);
      assert f == [f[0]] + f[1..] && g == [g[0]] + g[1..];
    } else if g != [] {
      HeadsAgree(g, f, n);
    }
  }

  // ---------------------------------------------------------------- totals

  lemma {:induction false} TotalConcat(a: seq<Extent>, b: seq<Extent>)
    ensures Total(a + b) == Total(a) + Total(b)
    decreases |b|
  {
    if b == [] {
      assert a + b == a;
    } else {
      assert (a + b)[..|a + b| - 1] == a + b[..|b| - 1];
      TotalConcat(a, b[..|b| - 1]);
    }
  }

  lemma TotalSplice(a: seq<Extent>, mid: seq<Extent>, b: seq<Extent>)
    ensures Total(a + mid + b) == Total(a) + Total(mid) + Total(b)
  {
    hide Total;
    TotalConcat(a, mid);
    TotalConcat(a + mid, b);
  }

  // ---------------------------------------------------------------- returning an extent

  /** How far a returned extent e at place k merges: from index Lo up to index Hi. */
  function Lo(fl: seq<Extent>, k: nat, e: Extent): nat
    requires k <= |fl|
  {
    if k > 0 && fl[k - 1].End() == e.start then k - 1 else k
  }

  function Hi(fl: seq<Extent>, k: nat, e: Extent): nat
    requires k <= |fl|
  {
    if k < |fl| && e.End() == fl[k].start then k + 1 else k
  }

  function Merged(fl: seq<Extent>, k: nat, e: Extent): Extent
    requires k <= |fl|
  {
    var prev := if Lo(fl, k, e) < k then fl[k - 1].size else 0;
    var succ := if k < Hi(fl, k, e) then fl[k].size else 0;
    Extent(e.start - prev, prev + e.size + succ)
  }

  /** The list after giving back e at place k, merged with the neighbours it touches. */
  function Coalesced(fl: seq<Extent>, k: nat, e: Extent): seq<Extent>
    requires k <= |fl|
  {
    fl[..Lo(fl, k, e)] + [Merged(fl, k, e)] + fl[Hi(fl, k, e)..]
  }

  /** The four outcomes of the merge, as edits of the list. */
  lemma MergeBoth(fl: seq<Extent>, k: nat, e: Extent)
    requires 0 < k < |fl| && fl[k - 1].End() == e.start && e.End() == fl[k].start
    ensures var fl' := fl[k - 1 := Extent(fl[k - 1].start, fl[k - 1].size + e.size + fl[k].size)];
            fl'[..k] + fl'[k + 1..] == Coalesced(fl, k, e)
  {
  }

  lemma MergePrev(fl: seq<Extent>, k: nat, e: Extent)
    requires 0 < k <= |fl| && fl[k - 1].End() == e.start && (k < |fl| ==> e.End() != fl[k].start)
    ensures fl[k - 1 := Extent(fl[k - 1].start, fl[k - 1].size + e.size)] == Coalesced(fl, k, e)
  {
  }

  lemma MergeSucc(fl: seq<Extent>, k: nat, e: Extent)
    requires k < |fl| && e.End() == fl[k].start && (k > 0 ==> fl[k - 1].End() != e.start)
    ensures fl[k := Extent(fl[k].start - e.size, fl[k].size + e.size)] == Coalesced(fl, k, e)
  {
  }

  lemma MergeNone(fl: seq<Extent>, k: nat, e: Extent)
    requires k <= |fl| && Lo(fl, k, e) == Hi(fl, k, e)
    ensures fl[..k] + [e] + fl[k..] == Coalesced(fl, k, e)
  {
  }

  /** k is where a block starting at start belongs in the list sorted by start. */
  ghost predicate PlaceOf(fl: seq<Extent>, k: nat, start: int) {
    && k <= |fl|
    && (forall i :: 0 <= i < k ==> fl[i].start <= start)
    && (forall i :: k <= i < |fl| ==> start < fl[i].start)
  }

  /** e is a non-empty extent of [0, n) no address of which is covered. */
  ghost predicate Returnable(fl: seq<Extent>, n: int, e: Extent) {
    && 0 <= e.start && 0 < e.size && e.End() <= n
    && forall x :: e.Has(x) ==> !Covered(fl, x)
  }

  lemma NeighboursClear(fl: seq<Extent>, n: int, k: nat, e: Extent)
    requires Canonical(fl, n) && Returnable(fl, n, e) && PlaceOf(fl, k, e.start)
    ensures k > 0 ==> fl[k - 1].End() <= e.start
    ensures k < |fl| ==> e.End() <= fl[k].start
  {
    assert !Covered(fl, e.start) by { assert e.Has(e.start); }
    if k < |fl| {
      assert fl[k].Has(fl[k].start);
      assert Covered(fl, fl[k].start);
      assert !e.Has(fl[k].start);
    }
  }

  lemma CoveredConcat(a: seq<Extent>, b: seq<Extent>, x: int)
    ensures Covered(a + b, x) <==> Covered(a, x) || Covered(b, x)
  {
    if Covered(a, x) {
      var i :| 0 <= i < |a| && a[i].Has(x);
      assert (a + b)[i].Has(x);
    }
    if Covered(b, x) {
      var i :| 0 <= i < |b| && b[i].Has(x);
      assert (a + b)[|a| + i].Has(x);
    }
  }

  lemma CoveredSplice(a: seq<Extent>, mid: seq<Extent>, b: seq<Extent>, x: int)
    ensures Covered(a + mid + b, x) <==> Covered(a, x) || Covered(mid, x) || Covered(b, x)
  {
    hide Covered;
    CoveredConcat(a, mid, x);
    CoveredConcat(a + mid, b, x);
  }

  /** Replacing the extents from lo to hi by one that clears both neighbours. */
  lemma SpliceCanonical(fl: seq<Extent>, n: int, lo: nat, hi: nat, mid: seq<Extent>)
    requires Canonical(fl, n) && lo <= hi <= |fl| && |mid| <= 1
    requires forall d :: d in mid ==> 0 <= d.start && 0 < d.size && d.End() <= n
    requires forall d :: d in mid && lo > 0 ==> fl[lo - 1].End() < d.start
    requires forall d :: d in mid && hi < |fl| ==> d.End() < fl[hi].start
    ensures Canonical(fl[..lo] + mid + fl[hi..], n)
  {
    var r := fl[..lo] + mid + fl[hi..];
    var m := |mid|;
    forall i | 0 <= i < |r| ensures 0 <= r[i].start && 0 < r[i].size && r[i].End() <= n {
      if lo <= i < lo + m { assert r[i] == mid[0] && mid[0] in mid; }
    }
    forall i, j | 0 <= i < j < |r| ensures r[i].End() < r[j].start {
      SpliceOrdered(fl, n, lo, hi, mid, i, j);
    }
  }

  lemma SpliceOrdered(fl: seq<Extent>, n: int, lo: nat, hi: nat, mid: seq<Extent>, i: nat, j: nat)
    requires Canonical(fl, n) && lo <= hi <= |fl| && |mid| <= 1
    requires forall d :: d in mid && lo > 0 ==> fl[lo - 1].End() < d.start
    requires forall d :: d in mid && hi < |fl| ==> d.End() < fl[hi].start
    requires i < j < |fl[..lo] + mid + fl[hi..]|
    ensures (fl[..lo] + mid + fl[hi..])[i].End() < (fl[..lo] + mid + fl[hi..])[j].start
  {
    var m := |mid|;
    if lo <= j < lo + m {
      assert mid[0] in mid && fl[i].End() <= fl[lo - 1].End();
    } else if lo <= i < lo + m {
      assert mid[0] in mid && fl[hi].start <= fl[j - lo - m + hi].start;
    } else if j < lo {
      assert fl[i].End() < fl[j].start;
    } else if i < lo {
      assert fl[i].End() < fl[j - lo - m + hi].start;
    } else {
      assert fl[i - lo - m + hi].End() < fl[j - lo - m + hi].start;
    }
  }

  lemma CoalescedCanonical(fl: seq<Extent>, n: int, k: nat, e: Extent)
    requires Canonical(fl, n) && Returnable(fl, n, e) && PlaceOf(fl, k, e.start)
    ensures Canonical(Coalesced(fl, k, e), n)
  {
    NeighboursClear(fl, n, k, e);
    var lo, hi, mid := Lo(fl, k, e), Hi(fl, k, e), Merged(fl, k, e);
    if lo > 0 {
      assert fl[lo - 1].End() < mid.start;
    }
    if hi < |fl| {
      assert mid.End() < fl[hi].start;
    }
    SpliceCanonical(fl, n, lo, hi, [mid]);
  }

  /** The extents a merge swallows, together with e, cover what the merged extent covers. */
  lemma MergedCovers(fl: seq<Extent>, k: nat, e: Extent, x: int)
    requires Sorted(fl) && k <= |fl| && 0 < e.size
    ensures Merged(fl, k, e).Has(x) <==> Covered(fl[Lo(fl, k, e)..Hi(fl, k, e)], x) || e.Has(x)
    ensures Merged(fl, k, e).size == Total(fl[Lo(fl, k, e)..Hi(fl, k, e)]) + e.size
  {
    hide Sorted, Covered, Total;
    var lo, hi := Lo(fl, k, e), Hi(fl, k, e);
    NeighbourSizes(fl, k);
    SideCovers(fl, lo, k, x);
    SideCovers(fl, k, hi, x);
    assert fl[lo..hi] == fl[lo..k] + fl[k..hi];
    CoveredConcat(fl[lo..k], fl[k..hi], x);
    TotalConcat(fl[lo..k], fl[k..hi]);
  }

  lemma NeighbourSizes(fl: seq<Extent>, k: nat)
    requires Sorted(fl) && k <= |fl|
    ensures (k > 0 ==> 0 < fl[k - 1].size) && (k < |fl| ==> 0 < fl[k].size)
  {
  }

  /** A part of at most one extent. */
  lemma SideCovers(fl: seq<Extent>, i: nat, j: nat, x: int)
    requires i <= j <= |fl| && j <= i + 1
    ensures Covered(fl[i..j], x) <==> i < j && fl[i].Has(x)
    ensures Total(fl[i..j]) == if i < j then fl[i].size else 0
  {
    if i < j {
      assert fl[i..j] == [fl[i]];
      Single(fl[i], x);
    }
  }

  lemma Single(e: Extent, x: int)
    ensures Covered([e], x) <==> e.Has(x)
    ensures Total([e]) == e.size
  {
    assert [e][0] == e && [e][..0] == [];
  }

  lemma NothingCovered(x: int)
    ensures !Covered([], x) && Total([]) == 0
  {
  }

  lemma SplitAt(fl: seq<Extent>, lo: nat, hi: nat, x: int)
    requires lo <= hi <= |fl|
    ensures Covered(fl, x) <==> Covered(fl[..lo], x) || Covered(fl[lo..hi], x) || Covered(fl[hi..], x)
    ensures Total(fl) == Total(fl[..lo]) + Total(fl[lo..hi]) + Total(fl[hi..])
  {
    hide Covered, Total;
    assert fl == fl[..lo] + fl[lo..hi] + fl[hi..];
    CoveredSplice(fl[..lo], fl[lo..hi], fl[hi..], x);
    TotalSplice(fl[..lo], fl[lo..hi], fl[hi..]);
  }

  lemma CoalescedCovers(fl: seq<Extent>, k: nat, e: Extent, x: int)
    requires Sorted(fl) && k <= |fl| && 0 < e.size
    ensures Covered(Coalesced(fl, k, e), x) <==> Covered(fl, x) || e.Has(x)
    ensures Total(Coalesced(fl, k, e)) == Total(fl) + e.size
  {
    hide Covered, Total, Sorted;
    var lo, hi, mid := Lo(fl, k, e), Hi(fl, k, e), Merged(fl, k, e);
    MergedCovers(fl, k, e, x);
    SplitAt(fl, lo, hi, x);
    CoveredSplice(fl[..lo], [mid], fl[hi..], x);
    TotalSplice(fl[..lo], [mid], fl[hi..]);
    Single(mid, x);
  }

  lemma SpliceSortedAt(fl: seq<Extent>, lo: nat, hi: nat, mid: Extent, i: nat, j: nat)
    requires Sorted(fl) && lo <= hi <= |fl| && 0 < mid.size
    requires (lo > 0 ==> fl[lo - 1].start <= mid.start) && (hi < |fl| ==> mid.start <= fl[hi].start)
    requires i < j < |fl[..lo] + [mid] + fl[hi..]|
    ensures (fl[..lo] + [mid] + fl[hi..])[i].start <= (fl[..lo] + [mid] + fl[hi..])[j].start
  {
    if j == lo {
      assert fl[i].start <= fl[lo - 1].start;
    } else if i == lo {
      assert fl[hi].start <= fl[j - lo - 1 + hi].start;
    } else if j < lo {
      assert fl[i].start <= fl[j].start;
    } else if i < lo {
      assert fl[i].start <= fl[j - lo - 1 + hi].start;
    } else {
      assert fl[i - lo - 1 + hi].start <= fl[j - lo - 1 + hi].start;
    }
  }

  lemma SpliceNonEmpty(fl: seq<Extent>, lo: nat, hi: nat, mid: Extent)
    requires NonEmpty(fl) && lo <= hi <= |fl| && 0 < mid.size
    ensures NonEmpty(fl[..lo] + [mid] + fl[hi..])
  {
  }

  lemma CoalescedSorted(fl: seq<Extent>, k: nat, e: Extent)
    requires Sorted(fl) && 0 < e.size && PlaceOf(fl, k, e.start)
    ensures Sorted(Coalesced(fl, k, e))
  {
    hide NonEmpty;
    var lo, hi, mid := Lo(fl, k, e), Hi(fl, k, e), Merged(fl, k, e);
    NeighbourSizes(fl, k);
    assert mid.start == (if lo < k then fl[lo].start else e.start) && 0 < mid.size;
    SpliceNonEmpty(fl, lo, hi, mid);
    forall i, j | 0 <= i < j < |Coalesced(fl, k, e)|
      ensures Coalesced(fl, k, e)[i].start <= Coalesced(fl, k, e)[j].start
    {
      SpliceSortedAt(fl, lo, hi, mid, i, j);
    }
  }

  /** fl' is a sorted list with exactly e's addresses and size added to fl's. */
  ghost predicate Added(fl: seq<Extent>, fl': seq<Extent>, e: Extent) {
    && Sorted(fl')
    && (forall x :: Covered(fl', x) <==> Covered(fl, x) || e.Has(x))
    && Total(fl') == Total(fl) + e.size
  }

  /** Returning any non-empty extent adds its addresses, even to a list that should not get them. */
  lemma AddAny(fl: seq<Extent>, k: nat, e: Extent)
    requires Sorted(fl) && 0 < e.size && PlaceOf(fl, k, e.start)
    ensures Added(fl, Coalesced(fl, k, e), e)
  {
    CoalescedSorted(fl, k, e);
    CoalescedCovers(fl, k, e, 0);
    forall x ensures Covered(Coalesced(fl, k, e), x) <==> Covered(fl, x) || e.Has(x) {
      CoalescedCovers(fl, k, e, x);
    }
  }

  /** fl' is a sorted list with exactly the addresses and sizes of es added to fl's. */
  ghost predicate AddedAll(fl: seq<Extent>, fl': seq<Extent>, es: seq<Extent>) {
    && Sorted(fl')
    && (forall x :: Covered(fl', x) <==> Covered(fl, x) || Covered(es, x))
    && Total(fl') == Total(fl) + Total(es)
  }

  lemma AddedNone(fl: seq<Extent>)
    requires Sorted(fl)
    ensures AddedAll(fl, fl, [])
  {
  }

  lemma AddedMore(fl: seq<Extent>, f1: seq<Extent>, f2: seq<Extent>, es: seq<Extent>, i: nat)
    requires i < |es| && AddedAll(fl, f1, es[..i]) && Added(f1, f2, es[i])
    ensures AddedAll(fl, f2, es[..i + 1])
  {
    hide Covered, Sorted;
    assert es[..i + 1] == es[..i] + [es[i]];
    TotalConcat(es[..i], [es[i]]);
    Single(es[i], 0);
    forall x ensures Covered(es[..i + 1], x) <==> Covered(es[..i], x) || es[i].Has(x) {
      CoveredConcat(es[..i], [es[i]], x);
      Single(es[i], x);
    }
  }

  /** fl' is a canonical list with exactly e's addresses and size added to fl's. */
  ghost predicate GaveBack(fl: seq<Extent>, fl': seq<Extent>, n: int, e: Extent) {
    Canonical(fl', n) && Added(fl, fl', e)
  }

  lemma GiveBack(fl: seq<Extent>, n: int, k: nat, e: Extent)
    requires Canonical(fl, n) && Returnable(fl, n, e) && PlaceOf(fl, k, e.start)
    ensures GaveBack(fl, Coalesced(fl, k, e), n, e)
  {
    CoalescedCanonical(fl, n, k, e);
    CanonicalIsSorted(fl, n);
    AddAny(fl, k, e);
  }

  /** Giving back an empty extent at a keeps the list canonical exactly if a free extent ends there. */
  lemma EmptyGiveBack(fl: seq<Extent>, n: int, k: nat, a: int)
    requires Canonical(fl, n) && 0 <= a <= n && PlaceOf(fl, k, a)
    ensures Canonical(Coalesced(fl, k, Extent(a, 0)), n) <==> exists i :: 0 <= i < |fl| && fl[i].End() == a
  {
    var e := Extent(a, 0);
    var r := Coalesced(fl, k, e);
    if k > 0 && fl[k - 1].End() == a {
      assert r == fl;
    } else {
      assert r[k] == e;
      forall i | 0 <= i < |fl| ensures fl[i].End() != a {
        if i < k - 1 { assert fl[i].End() < fl[k - 1].start; }
      }
    }
  }

  /** So an empty extent taken from where first fit finds it, the front of the list, always breaks the
      list when it is given back: no free extent ends where the first one starts. */
  lemma EmptyAtFrontBreaks(fl: seq<Extent>, n: int, k: nat)
    requires Canonical(fl, n) && fl != [] && PlaceOf(fl, k, fl[0].start)
    ensures !Canonical(Coalesced(fl, k, Extent(fl[0].start, 0)), n)
  {
    EmptyGiveBack(fl, n, k, fl[0].start);
    assert forall i :: 0 < i < |fl| ==> fl[0].End() < fl[i].start;
  }

  lemma CarveNothing(fl: seq<Extent>, n: int)
    requires Canonical(fl, n)
    ensures NonEmpty(fl) && (fl != [] ==> Carved(fl, 0, 0) == fl)
  {
  }

  // ---------------------------------------------------------------- first fit

  /** s is the lowest address from which k consecutive addresses are covered. */
  ghost predicate LowestRun(fl: seq<Extent>, s: int, k: int) {
    FreeRun(fl, s, k) && forall t :: t < s ==> !FreeRun(fl, t, k)
  }

  /** The first extent of size at least k starts the lowest run of k covered addresses. */
  lemma FirstFitIsLowest(fl: seq<Extent>, n: int, i: nat, k: int)
    requires Canonical(fl, n) && 0 < k && i < |fl| && k <= fl[i].size
    requires forall j :: 0 <= j < i ==> fl[j].size < k
    ensures LowestRun(fl, fl[i].start, k)
  {
    assert forall x :: fl[i].Has(x) ==> Covered(fl, x);
    forall t | t < fl[i].start ensures !FreeRun(fl, t, k) {
      if FreeRun(fl, t, k) {
        var j := RunInsideOneExtent(fl, n, t, k);
      }
    }
  }

  /** First fit over a coalesced list is complete: it fails only when no run of k exists at all. */
  lemma NoFitNoRun(fl: seq<Extent>, n: int, k: int)
    requires Canonical(fl, n) && 0 < k
    requires forall j :: 0 <= j < |fl| ==> fl[j].size < k
    ensures forall s :: !FreeRun(fl, s, k)
  {
    forall s ensures !FreeRun(fl, s, k) {
      if FreeRun(fl, s, k) {
        var j := RunInsideOneExtent(fl, n, s, k);
      }
    }
  }

  /** What is left of an extent after carving k addresses off its front. */
  function Remainder(e: Extent, k: int): seq<Extent> {
    if k < e.size then [Extent(e.start + k, e.size - k)] else []
  }

  /** The list after carving k addresses off the front of extent i. */
  function Carved(fl: seq<Extent>, i: nat, k: int): seq<Extent>
    requires i < |fl|
  {
    fl[..i] + Remainder(fl[i], k) + fl[i + 1..]
  }

  lemma CarveCovers(fl: seq<Extent>, n: int, i: nat, k: int, x: int)
    requires Canonical(fl, n) && i < |fl| && 0 < k <= fl[i].size
    ensures Covered(Carved(fl, i, k), x) <==> Covered(fl, x) && !Extent(fl[i].start, k).Has(x)
    ensures Total(Carved(fl, i, k)) == Total(fl) - k
  {
    hide Canonical, Covered, Total;
    var rest := Remainder(fl[i], k);
    CoveredSplice(fl[..i], rest, fl[i + 1..], x);
    TotalSplice(fl[..i], rest, fl[i + 1..]);
    SplitAt(fl, i, i + 1, x);
    assert fl[i..i + 1] == [fl[i]];
    Single(fl[i], x);
    if rest != [] { Single(rest[0], x); } else { NothingCovered(x); }
    if fl[i].Has(x) {
      OnlyOneHas(fl, n, i, x);
    }
  }

  lemma OnlyOneHas(fl: seq<Extent>, n: int, i: nat, x: int)
    requires Canonical(fl, n) && i < |fl| && fl[i].Has(x)
    ensures !Covered(fl[..i], x) && !Covered(fl[i + 1..], x)
  {
  }

  lemma CarvedCanonical(fl: seq<Extent>, n: int, i: nat, k: int)
    requires Canonical(fl, n) && i < |fl| && 0 < k <= fl[i].size
    ensures Canonical(Carved(fl, i, k), n)
  {
    SpliceCanonical(fl, n, i, i + 1, Remainder(fl[i], k));
  }

  /** Carving keeps the list canonical and removes exactly the carved addresses and size. */
  lemma Carve(fl: seq<Extent>, n: int, i: nat, k: int)
    requires Canonical(fl, n) && i < |fl| && 0 < k <= fl[i].size
    ensures Canonical(Carved(fl, i, k), n)
    ensures forall x :: Covered(Carved(fl, i, k), x) <==> Covered(fl, x) && !Extent(fl[i].start, k).Has(x)
    ensures Total(Carved(fl, i, k)) == Total(fl) - k
  {
    hide Canonical, Covered, Total;
    CarvedCanonical(fl, n, i, k);
    CarveCovers(fl, n, i, k, 0);
    forall x ensures Covered(Carved(fl, i, k), x) <==> Covered(fl, x) && !Extent(fl[i].start, k).Has(x) {
      CarveCovers(fl, n, i, k, x);
    }
  }

  // ---------------------------------------------------------------- merging a batch before returning it

  /** The state of the pass over a batch of extents: the finished runs, the run being grown, and the
      address at which the next extent has to start to extend that run. */
  datatype RunState = RunState(done: seq<Extent>, cur: Extent, next: int) {
    function Runs(): seq<Extent> { done + [cur] }

    /** The next extent extends the current run if it starts where expected, otherwise it starts a new run. */
    function Grow(e: Extent): RunState {
      if next == e.start then RunState(done, Extent(cur.start, cur.size + e.size), next + e.size)
      else RunState(done + [cur], e, e.End())
    }
  }

  /** The pass starts from next == seed + (size of the first extent), whatever that extent's start. */
  function MergeRuns(seed: int, es: seq<Extent>): RunState
    requires es != []
  {
    if |es| == 1 then
      RunState([], es[0], seed + es[0].size)
    else
      MergeRuns(seed, es[..|es| - 1]).Grow(es[|es| - 1])
  }

  ghost predicate PairwiseDisjoint(es: seq<Extent>) {
    && NonEmpty(es)
    && (forall i, j :: 0 <= i < j < |es| ==> es[i].End() <= es[j].start || es[j].End() <= es[i].start)
  }

  /** The guard under which a seed is harmless: it is the first extent's own start, or the first
      comparison made with it fails anyway. */
  predicate SeedFits(seed: int, es: seq<Extent>)
    requires es != []
  {
    seed == es[0].start || |es| == 1 || es[1].start != seed + es[0].size
  }

  /** One step of the pass, unless it merges across a gap, adds exactly the new extent's addresses. */
  lemma StepCovers(st: RunState, e: Extent, st': RunState, x: int)
    requires 0 < st.cur.size && 0 < e.size && (st.next == e.start ==> st.cur.End() == e.start)
    requires st' == st.Grow(e)
    ensures Covered(st'.Runs(), x) <==> Covered(st.Runs(), x) || e.Has(x)
  {
    CoveredConcat(st'.done, [st'.cur], x);
    CoveredConcat(st.done, [st.cur], x);
    Single(st'.cur, x);
    Single(st.cur, x);
  }

  lemma LastIsDisjoint(es: seq<Extent>, e: Extent, x: int)
    requires PairwiseDisjoint(es + [e]) && e.Has(x)
    ensures PairwiseDisjoint(es) && !Covered(es, x)
  {
    var all := es + [e];
    assert all[|es|] == e;
    assert forall i :: 0 <= i < |es| ==> es[i] == all[i];
  }

  lemma DisjointPrefix(es: seq<Extent>, e: Extent)
    requires PairwiseDisjoint(es + [e])
    ensures PairwiseDisjoint(es) && 0 < e.size && (es != [] ==> !es[0].Has(e.start) && !e.Has(es[0].start))
    ensures forall x :: e.Has(x) ==> !Covered(es, x)
  {
    var all := es + [e];
    assert all[|es|] == e && 0 < all[|es|].size;
    assert forall i :: 0 <= i < |es| ==> es[i] == all[i];
    forall x | e.Has(x) ensures !Covered(es, x) { LastIsDisjoint(es, e, x); }
  }

  lemma RunClearOf(runs: seq<Extent>, i: nat, e: Extent)
    requires i < |runs| && 0 < runs[i].size && 0 < e.size
    requires forall x :: e.Has(x) ==> !Covered(runs, x)
    ensures runs[i].End() <= e.start || e.End() <= runs[i].start
  {
    var x := if runs[i].start < e.start then e.start else runs[i].start;
    assert runs[i].Has(x) ==> Covered(runs, x);
    assert e.Has(x) ==> !Covered(runs, x);
  }

  /** One step keeps the runs pairwise disjoint. */
  lemma StepDisjoint(st: RunState, e: Extent, st': RunState)
    requires PairwiseDisjoint(st.Runs()) && 0 < e.size && (st.next == e.start ==> st.cur.End() == e.start)
    requires forall x :: e.Has(x) ==> !Covered(st.Runs(), x)
    requires st' == st.Grow(e)
    ensures PairwiseDisjoint(st'.Runs())
  {
    var r, r' := st.Runs(), st'.Runs();
    forall i | 0 <= i < |r| ensures r[i].End() <= e.start || e.End() <= r[i].start { RunClearOf(r, i, e); }
    assert forall i :: 0 <= i < |st.done| ==> r'[i] == r[i];
    assert r[|st.done|] == st.cur;
  }

  /** Runs that are disjoint and cover exactly the extents seen so far, the last of them still growing. */
  ghost predicate Faithful(st: RunState, es: seq<Extent>) {
    PairwiseDisjoint(st.Runs()) && forall x :: Covered(st.Runs(), x) <==> Covered(es, x)
  }

  lemma FaithfulStep(st: RunState, es: seq<Extent>, e: Extent, st': RunState)
    requires Faithful(st, es) && PairwiseDisjoint(es + [e]) && (st.next == e.start ==> st.cur.End() == e.start)
    requires st' == st.Grow(e)
    ensures Faithful(st', es + [e])
  {
    hide Covered, PairwiseDisjoint;
    DisjointPrefix(es, e);
    StepDisjoint(st, e, st');
    LastOfRuns(st);
    forall x ensures Covered(st'.Runs(), x) <==> Covered(es + [e], x) {
      CoveredConcat(es, [e], x);
      Single(e, x);
      StepCovers(st, e, st', x);
    }
  }

  lemma LastOfRuns(st: RunState)
    requires PairwiseDisjoint(st.Runs())
    ensures 0 < st.cur.size
  {
    assert st.Runs()[|st.done|] == st.cur;
  }

  /** A fitting seed stays harmless: only the first comparison is made with it. */
  lemma FitsOn(seed: int, es: seq<Extent>)
    requires |es| > 1 && SeedFits(seed, es)
    ensures var es', e := es[..|es| - 1], es[|es| - 1];
            && SeedFits(seed, es')
            && (|es| == 2 && MergeRuns(seed, es').next == e.start ==> seed == es'[0].start)
  {
  }

  /** With a fitting seed the merged runs are disjoint and cover exactly the batch. */
  lemma {:induction false} GoodRuns(seed: int, es: seq<Extent>)
    requires es != [] && PairwiseDisjoint(es) && SeedFits(seed, es)
    ensures Faithful(MergeRuns(seed, es), es)
    ensures var st := MergeRuns(seed, es); |es| > 1 || seed == es[0].start ==> st.next == st.cur.End()
    decreases |es|
  {
    hide Faithful, PairwiseDisjoint, SeedFits;
    if |es| == 1 {
      OneRun(seed, es);
    } else {
      var es', e := es[..|es| - 1], es[|es| - 1];
      assert es == es' + [e];
      DisjointPrefix(es', e);
      FitsOn(seed, es);
      GoodRuns(seed, es');
      FaithfulStep(MergeRuns(seed, es'), es', e, MergeRuns(seed, es));
    }
  }

  lemma OneRun(seed: int, es: seq<Extent>)
    requires |es| == 1 && PairwiseDisjoint(es)
    ensures Faithful(MergeRuns(seed, es), es)
  {
    assert MergeRuns(seed, es).Runs() == es;
  }

  lemma {:induction false} RunsPositive(seed: int, es: seq<Extent>)
    requires es != [] && NonEmpty(es)
    ensures NonEmpty(MergeRuns(seed, es).Runs())
    decreases |es|
  {
    if |es| > 1 {
      var st := MergeRuns(seed, es[..|es| - 1]);
      RunsPositive(seed, es[..|es| - 1]);
      assert st.Runs()[|st.done|] == st.cur;
      assert forall i :: 0 <= i < |st.done| ==> st.Runs()[i] == st.done[i];
    }
  }

  lemma {:induction false} RunsTotal(seed: int, es: seq<Extent>)
    requires es != []
    ensures Total(MergeRuns(seed, es).Runs()) == Total(es)
    decreases |es|
  {
    var st := MergeRuns(seed, es);
    TotalConcat(st.done, [st.cur]);
    Single(st.cur, 0);
    if |es| == 1 {
      assert es == [es[0]];
    } else {
      var st' := MergeRuns(seed, es[..|es| - 1]);
      RunsTotal(seed, es[..|es| - 1]);
      TotalConcat(st'.done, [st'.cur]);
      Single(st'.cur, 0);
    }
  }

  /** Where the first run stands after an unfit seed has glued es[1] to es[0] across a gap. */
  ghost predicate Glued(seed: int, es: seq<Extent>, st: RunState)
    requires |es| > 1
  {
    && st.cur.start == es[0].start
    && st.cur.size == es[0].size + st.next - es[1].start
    && es[1].start < st.next
    && forall x :: es[1].start <= x < st.next ==> Covered(es, x)
  }

  /** With an unfit seed the merged runs leave out an address of the batch. */
  lemma {:induction false} BadSeedLosesAddress(seed: int, es: seq<Extent>) returns (y: int)
    requires es != [] && PairwiseDisjoint(es) && !SeedFits(seed, es)
    ensures Covered(es, y) && !Covered(MergeRuns(seed, es).Runs(), y)
    ensures var st := MergeRuns(seed, es); if st.done == [] then Glued(seed, es, st) else st.next == st.cur.End()
    decreases |es|
  {
    hide PairwiseDisjoint, Glued, Covered, NonEmpty;
    var st := MergeRuns(seed, es);
    var es', e := es[..|es| - 1], es[|es| - 1];
    assert es == es' + [e];
    DisjointPrefix(es', e);
    var st' := MergeRuns(seed, es');
    if |es| == 2 {
      GluedStart(seed, es);
      y := GluedMissing(seed, es, st);
    } else {
      var y' := BadSeedLosesAddress(seed, es');
      if st.done == [] {
        GluedStep(seed, es);
        y := GluedMissing(seed, es, st);
      } else {
        y := y';
        CurPositive(seed, es');
        CoveredConcat(es', [e], y);
        Single(e, y);
        StepCovers(st', e, st, y);
      }
    }
  }

  lemma CurPositive(seed: int, es: seq<Extent>)
    requires es != [] && PairwiseDisjoint(es)
    ensures 0 < MergeRuns(seed, es).cur.size
  {
    RunsPositive(seed, es);
    var st := MergeRuns(seed, es);
    assert st.Runs()[|st.done|] == st.cur;
  }

  lemma GluedStart(seed: int, es: seq<Extent>)
    requires |es| == 2 && PairwiseDisjoint(es) && !SeedFits(seed, es)
    ensures Glued(seed, es, MergeRuns(seed, es)) && MergeRuns(seed, es).done == []
  {
    var st := MergeRuns(seed, es);
    assert es[1].start == MergeRuns(seed, es[..1]).next && es[0].size > 0;
    forall x | es[1].start <= x < st.next ensures Covered(es, x) { assert es[1].Has(x); }
  }

  lemma GluedStep(seed: int, es: seq<Extent>)
    requires |es| > 2 && PairwiseDisjoint(es) && MergeRuns(seed, es).done == []
    requires Glued(seed, es[..|es| - 1], MergeRuns(seed, es[..|es| - 1]))
    ensures Glued(seed, es, MergeRuns(seed, es))
  {
    hide PairwiseDisjoint, NonEmpty, Covered;
    var es', e, st := es[..|es| - 1], es[|es| - 1], MergeRuns(seed, es);
    assert es == es' + [e];
    DisjointPrefix(es', e);
    assert st.next == MergeRuns(seed, es').next + e.size && st.cur.size == MergeRuns(seed, es').cur.size + e.size;
    forall x | es[1].start <= x < st.next ensures Covered(es, x) {
      CoveredConcat(es', [e], x);
      Single(e, x);
    }
  }

  lemma GluedMissing(seed: int, es: seq<Extent>, st: RunState) returns (y: int)
    requires |es| > 1 && PairwiseDisjoint(es) && !SeedFits(seed, es) && st.done == [] && Glued(seed, es, st)
    ensures Covered(es, y) && !Covered(st.Runs(), y)
  {
    y := if es[1].start < es[0].start then es[1].start else st.next - 1;
    assert st.Runs() == [st.cur];
    Single(st.cur, y);
    assert es[0].End() <= es[1].start || es[1].End() <= es[0].start;
  }

  /** Merging the batch covers exactly the batch if and only if the seed fits. */
  lemma SeedFitsExactly(seed: int, es: seq<Extent>)
    requires es != [] && PairwiseDisjoint(es)
    ensures SeedFits(seed, es) <==> forall x :: Covered(MergeRuns(seed, es).Runs(), x) <==> Covered(es, x)
  {
    if SeedFits(seed, es) {
      GoodRuns(seed, es);
    } else {
      var y := BadSeedLosesAddress(seed, es);
    }
  }
}
