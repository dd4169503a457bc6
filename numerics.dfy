/** Integer helpers shared by several headers: bit tests on masks and a rounded square root. */
module Numerics {

  function Pow2(n: nat): (r: nat)
    ensures r >= 1
  {
    if n == 0 then 1 else 2 * Pow2(n - 1)
  }

  /** Bit `i` of a mask, as `(1 << i) & mask != 0` tests it. */
  predicate BitSet(mask: nat, i: nat) {
    (mask / Pow2(i)) % 2 == 1
  }

  /**
   * `std::round(std::sqrt(n))` on whole numbers: the integer nearest to the
   * square root, halves rounded up. For n > 0 that is the unique r with
   * r*r - r < n <= r*r + r.
   */
  predicate IsRoundedSqrt(n: nat, r: nat) {
    if n == 0 then r == 0 else r * r - r < n <= r * r + r
  }

  function RoundSqrtFrom(n: nat, r: nat): (s: nat)
    requires n > 0 && r >= 1 && r * r - r < n
    ensures IsRoundedSqrt(n, s)
    decreases n - r
  {
    if n <= r * r + r then r
    else
      assert (r + 1) * (r + 1) - (r + 1) == r * r + r;
      RoundSqrtFrom(n, r + 1)
  }

  function RoundSqrt(n: nat): (r: nat)
    ensures IsRoundedSqrt(n, r)
  {
    if n == 0 then 0 else RoundSqrtFrom(n, 1)
  }

  /** The rounded root is the only value meeting its bounds. */
  lemma RoundedSqrtUnique(n: nat, a: nat, b: nat)
    requires IsRoundedSqrt(n, a) && IsRoundedSqrt(n, b)
    ensures a == b
  {
    if n > 0 && a != b {
      RoundedSqrtOrdered(n, a, n, b);
      RoundedSqrtOrdered(n, b, n, a);
    }
  }

  /** More bytes never rate lower. */
  lemma RoundSqrtMonotone(n: nat, m: nat)
    requires n <= m
    ensures RoundSqrt(n) <= RoundSqrt(m)
  {
    RoundedSqrtOrdered(n, RoundSqrt(n), m, RoundSqrt(m));
  }

  lemma RoundedSqrtOrdered(n: nat, a: nat, m: nat, b: nat)
    requires n <= m && IsRoundedSqrt(n, a) && IsRoundedSqrt(m, b)
    ensures a <= b
  {
    PronicGrows(b + 1, a);
    assert (b + 1) * (b + 1) - (b + 1) == b * b + b;
  }

  /** x*x - x never decreases on the naturals. */
  lemma PronicGrows(x: nat, y: nat)
    ensures x <= y ==> x * x - x <= y * y - y
  {
    if x <= y {
      assert y * y - y - (x * x - x) == (y - x) * (y + x - 1);
      if x + y >= 1 {
        assert (y - x) * (y + x - 1) >= 0;
      }
    }
  }
}
