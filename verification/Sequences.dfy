/** Slices, sums, maxima and concatenations of sequences. */
module Sequences {

  /** No element occurs twice. */
  ghost predicate Distinct<T>(s: seq<T>) {
    forall i, j :: 0 <= i < j < |s| ==> s[i] != s[j]
  }

  /** The elements from a to b; a slice stops at the end of the sequence, and is empty unless a is below b. */
  function Slice<T>(s: seq<T>, a: nat, b: nat): seq<T> {
    if b <= a || |s| <= a then [] else if |s| <= b then s[a..] else s[a..b]
  }

  function Max(s: seq<nat>): (m: nat)
    ensures forall i :: 0 <= i < |s| ==> s[i] <= m
    ensures s != [] ==> m in s
  {
    if s == [] then 0 else if Max(s[..|s| - 1]) >= s[|s| - 1] then Max(s[..|s| - 1]) else s[|s| - 1]
  }

  function Sum(s: seq<nat>): nat {
    if s == [] then 0 else Sum(s[..|s| - 1]) + s[|s| - 1]
  }

  function Cat<T>(parts: seq<seq<T>>): seq<T> {
    if parts == [] then [] else Cat(parts[..|parts| - 1]) + parts[|parts| - 1]
  }

  /** The lengths of the parts of a concatenation. */
  function Lens<T>(parts: seq<seq<T>>): (r: seq<nat>)
    ensures |r| == |parts|
  {
    seq(|parts|, i requires 0 <= i < |parts| => |parts[i]|)
  }

  /** Where an element of a part is in the concatenation. */
  lemma {:induction false} CatAt<T>(parts: seq<seq<T>>, r: nat, o: nat)
    ensures |Cat(parts)| == Sum(Lens(parts))
    ensures r < |parts| && o < |parts[r]| ==>
              Sum(Lens(parts)[..r]) + o < |Cat(parts)| && Cat(parts)[Sum(Lens(parts)[..r]) + o] == parts[r][o]
    decreases |parts|
  {
    if parts != [] {
      var init := parts[..|parts| - 1];
      CatAt(init, r, o);
      assert Lens(parts)[..|parts| - 1] == Lens(init);
      if r < |init| {
        assert Lens(parts)[..r] == Lens(init)[..r];
      }
    }
  }

  /** Every position below the sum lies in one of the parts. */
  lemma {:induction false} Locate(lens: seq<nat>, t: nat) returns (r: nat, o: nat)
    requires t < Sum(lens)
    ensures r < |lens| && o < lens[r] && t == Sum(lens[..r]) + o
    decreases |lens|
  {
    var init := lens[..|lens| - 1];
    if t < Sum(init) {
      r, o := Locate(init, t);
      assert lens[..r] == init[..r];
    } else {
      r, o := |lens| - 1, t - Sum(init);
    }
  }

  lemma {:induction false} SumOfEqual(s: seq<nat>, x: nat, r: nat)
    requires r <= |s| && forall i :: 0 <= i < |s| ==> s[i] == x
    ensures Sum(s[..r]) == r * x
    decreases r
  {
    if r > 0 {
      assert s[..r][..r - 1] == s[..r - 1];
      SumOfEqual(s, x, r - 1);
      assert r * x == (r - 1) * x + x;
    }
  }
}
