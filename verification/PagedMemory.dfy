/** Paged memory: rows written to the slots of their positions. */
module PagedMemory {

  /** Memory after the rows of positions s to e have been written to their slots; a position whose slot is
      negative is skipped. */
  function Scatter<T>(rows: seq<T>, slots: seq<int>, s: nat, e: nat, g: seq<T>): (r: seq<T>)
    requires e <= |rows| == |slots|
    ensures |r| == |g|
    decreases e
  {
    if e <= s then g
    else
      var g' := Scatter(rows, slots, s, e - 1, g);
      if 0 <= slots[e - 1] < |g| then g'[slots[e - 1] := rows[e - 1]] else g'
  }

  /** No two positions from s to e share a slot. */
  ghost predicate SlotsApart(slots: seq<int>, s: nat, e: nat)
    requires e <= |slots|
  {
    forall p, q :: s <= p < q < e && 0 <= slots[p] ==> slots[p] != slots[q]
  }

  /** When slots are not shared, each position's slot ends with its row, and every other slot is as before. */
  lemma {:induction false} ScatterAt<T>(rows: seq<T>, slots: seq<int>, s: nat, e: nat, g: seq<T>)
    requires e <= |rows| == |slots| && SlotsApart(slots, s, e)
    ensures forall p :: s <= p < e && 0 <= slots[p] < |g| ==> Scatter(rows, slots, s, e, g)[slots[p]] == rows[p]
    ensures forall x :: 0 <= x < |g| && (forall p :: s <= p < e ==> slots[p] != x) ==>
                          Scatter(rows, slots, s, e, g)[x] == g[x]
    decreases e
  {
    if s < e {
      ScatterAt(rows, slots, s, e - 1, g);
    }
  }

  /** Writing two adjacent ranges is writing the whole range. */
  lemma {:induction false} ScatterTwice<T>(rows: seq<T>, slots: seq<int>, s: nat, m: nat, e: nat, g: seq<T>)
    requires s <= m <= e <= |rows| == |slots|
    ensures Scatter(rows, slots, m, e, Scatter(rows, slots, s, m, g)) == Scatter(rows, slots, s, e, g)
    decreases e
  {
    if m < e {
      ScatterTwice(rows, slots, s, m, e - 1, g);
    }
  }
}
