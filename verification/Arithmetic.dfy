/** Facts about quotients and remainders by a variable divisor. */
module Arithmetic {

  lemma RemainderUnique(x: int, a: int, q: int, r: int)
    requires a > 0 && x == q * a + r && 0 <= r < a
    ensures x % a == r && x / a == q
  {
    var d := x / a;
    assert x == d * a + x % a;
    assert (q - d) * a == x % a - r;
    assert q - d >= 1 ==> (q - d) * a >= a;
    assert q - d <= -1 ==> (q - d) * a <= -a;
  }

  predicate Aligned(n: nat, a: nat)
    requires 0 < a
  {
    n % a == 0
  }

  /** Rounding down to a multiple. */
  function Floor(n: nat, a: nat): (r: nat)
    requires 0 < a
    ensures r <= n < r + a && Aligned(r, a)
  {
    var r := n / a * a;
    FloorBounds(n, a);
    r
  }

  lemma FloorBounds(n: nat, a: nat)
    requires 0 < a
    ensures n / a * a <= n < n / a * a + a && n / a * a % a == 0
  {
    assert n == n / a * a + n % a;
    RemainderUnique(n / a * a, a, n / a, 0);
  }

  /** Floor is the multiple that has n in its period. */
  lemma FloorUnique(n: nat, a: nat, s: nat)
    requires 0 < a && Aligned(s, a) && s <= n < s + a
    ensures Floor(n, a) == s
  {
    assert s == s / a * a;
    RemainderUnique(n, a, s / a, n - s);
  }

  lemma FloorMonotone(m: nat, n: nat, a: nat)
    requires 0 < a && m <= n
    ensures Floor(m, a) <= Floor(n, a)
  {
    if n < Floor(m, a) + a {
      FloorUnique(n, a, Floor(m, a));
    }
  }

  lemma NextMultiple(s: nat, a: nat)
    requires 0 < a && Aligned(s, a)
    ensures Aligned(s + a, a) && (a <= s ==> Aligned(s - a, a))
  {
    assert s == s / a * a;
    assert s + a == (s / a + 1) * a;
    RemainderUnique(s + a, a, s / a + 1, 0);
    assert s - a == (s / a - 1) * a;
    if a <= s { RemainderUnique(s - a, a, s / a - 1, 0); }
  }

  lemma ApartByPeriod(s: nat, t: nat, a: nat)
    requires 0 < a && Aligned(s, a) && Aligned(t, a) && s < t
    ensures s + a <= t
  {
    if t < s + a {
      FloorUnique(t, a, s);
      FloorUnique(t, a, t);
    }
  }

  lemma ZeroIsMultiple(a: nat)
    requires 0 < a
    ensures Aligned(0, a)
  {
  }

  /** Rounding up: the least multiple of a that is at least n. */
  function CeilDiv(n: nat, a: nat): (q: nat)
    requires 0 < a
  {
    (n + a - 1) / a
  }

  lemma CeilDivBounds(n: nat, a: nat)
    requires 0 < a
    ensures n <= CeilDiv(n, a) * a < n + a
  {
    FloorBounds(n + a - 1, a);
  }
}
