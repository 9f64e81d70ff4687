/** Rounding a size up to the allocator's alignment with a bit mask. */
module Alignment {
  import opened Arithmetic

  /** Bitwise and of two non-negative integers. */
  function And(x: nat, y: nat): (r: nat)
    ensures r <= x && r <= y
  {
    if x == 0 || y == 0 then 0
    else 2 * And(x / 2, y / 2) + (if x % 2 == 1 && y % 2 == 1 then 1 else 0)
  }

  /** x & ~y for non-negative x and y. */
  function AndNot(x: nat, y: nat): nat { x - And(x, y) }

  function AlignUp(rawSize: nat, align: nat): nat
    requires align > 0
  {
    AndNot(rawSize + align - 1, align - 1)
  }

  /** The size the allocator reserves for a tensor of rawSize bytes. */
  function AlignedSize(rawSize: nat, align: nat): (r: nat)
    requires align > 0
    ensures rawSize <= r < rawSize + align
  {
    if rawSize % align != 0 then AlignUp(rawSize, align) else rawSize
  }

  predicate PowerOfTwo(a: nat) {
    a == 1 || (a > 1 && a % 2 == 0 && PowerOfTwo(a / 2))
  }

  lemma HalfRemainder(x: nat, h: nat)
    requires h > 0
    ensures x % (2 * h) == 2 * (x / 2 % h) + x % 2
  {
    var q, r := x / 2 / h, x / 2 % h;
    assert x / 2 == q * h + r;
    assert q * (2 * h) == 2 * (q * h);
    RemainderUnique(x, 2 * h, q, 2 * r + x % 2);
  }

  lemma MultipleOf(x: nat, a: nat)
    requires a > 0
    ensures (x - x % a) % a == 0
  {
    RemainderUnique(x - x % a, a, x / a, 0);
  }

  /** Below a power of two, masking is the remainder. */
  lemma {:induction false} MaskIsRemainder(x: nat, a: nat)
    requires PowerOfTwo(a)
    ensures And(x, a - 1) == x % a
    decreases a
  {
    if a > 1 && x > 0 {
      var h := a / 2;
      assert a == 2 * h;
      MaskIsRemainder(x / 2, h);
      HalfRemainder(x, h);
      assert (a - 1) / 2 == h - 1 && (a - 1) % 2 == 1;
    }
  }

  /** a & (a - 1) vanishes exactly for powers of two. */
  lemma {:induction false} LowestBit(a: nat)
    requires a > 0
    ensures And(a, a - 1) == 0 <==> PowerOfTwo(a)
    decreases a
  {
    if a > 1 {
      if a % 2 == 0 {
        LowestBit(a / 2);
        assert (a - 1) / 2 == a / 2 - 1 && a % 2 == 0;
      } else {
        assert (a - 1) / 2 == a / 2 && (a - 1) % 2 == 0;
        AndSelf(a / 2);
      }
    }
  }

  lemma {:induction false} AndSelf(x: nat)
    ensures And(x, x) == x
  {
    if x > 0 { AndSelf(x / 2); }
  }

  /** Every reserved size is a multiple of the alignment if and only if the alignment is a power of two. */
  lemma AlignedExactlyForPowersOfTwo(align: nat)
    requires align > 0
    ensures PowerOfTwo(align) <==> forall raw: nat :: AlignedSize(raw, align) % align == 0
  {
    if PowerOfTwo(align) {
      forall raw: nat ensures AlignedSize(raw, align) % align == 0 {
        MaskIsRemainder(raw + align - 1, align);
        MultipleOf(raw + align - 1, align);
      }
    } else {
      UnalignedSize(align);
      assert AlignedSize(1, align) % align != 0;
    }
  }

  lemma UnalignedSize(align: nat)
    requires align > 0 && !PowerOfTwo(align)
    ensures AlignedSize(1, align) % align != 0
  {
    hide And;
    LowestBit(align);
    RemainderUnique(1, align, 0, 1);
    var r := AlignedSize(1, align);
    assert r == align - And(align, align - 1);
    RemainderUnique(r, align, 0, r);
  }
}
