/** Powers of two, as used to pick the cardinality of a fusion bucket.
    The compiler rounds the number of tied groups of a source up with
    `triton.next_power_of_2`; NextPow2 is that rounding for n >= 1. */
module PowerOfTwo {

  function Pow2(e: nat): (p: nat)
    ensures p >= 1
  {
    if e == 0 then 1 else 2 * Pow2(e - 1)
  }

  ghost predicate IsPow2(p: int) {
    exists e: nat :: Pow2(e) == p
  }

  /** Number of doublings of 1 needed to reach at least n. */
  function CeilLog2(n: nat): nat
    decreases n
  {
    if n <= 1 then 0 else 1 + CeilLog2((n + 1) / 2)
  }

  /** The least power of two that is >= n (1 for n == 0, which the compiler never asks for). */
  function NextPow2(n: nat): nat {
    Pow2(CeilLog2(n))
  }

  lemma NextPow2IsPow2(n: nat)
    ensures IsPow2(NextPow2(n))
  {
    assert Pow2(CeilLog2(n)) == NextPow2(n);
  }

  /** NextPow2(n) is at least n, and less than 2n: rounding up never doubles. */
  lemma {:induction false} NextPow2Bounds(n: nat)
    ensures n <= NextPow2(n)
    ensures n >= 1 ==> NextPow2(n) < 2 * n
    decreases n
  {
    if n > 1 {
      var h := (n + 1) / 2;
      NextPow2Bounds(h);
      assert NextPow2(n) == 2 * NextPow2(h);
      if h >= 2 {
        // NextPow2(h) is even, so it stays below the odd number 2h - 1
        var x := Pow2(CeilLog2(h) - 1);
        assert NextPow2(h) == 2 * x;
        assert x < h;
      }
    }
  }

  /** Every power of two that is >= n is >= NextPow2(n). */
  lemma {:induction false} NextPow2Least(n: nat, e: nat)
    requires n <= Pow2(e)
    ensures NextPow2(n) <= Pow2(e)
    decreases n
  {
    if n > 1 {
      var h := (n + 1) / 2;
      assert e >= 1;
      assert Pow2(e) == 2 * Pow2(e - 1);
      NextPow2Least(h, e - 1);
      assert NextPow2(n) == 2 * NextPow2(h);
    }
  }

  lemma NextPow2Monotone(a: nat, b: nat)
    requires a <= b
    ensures NextPow2(a) <= NextPow2(b)
  {
    NextPow2Bounds(b);
    NextPow2Least(a, CeilLog2(b));
  }

  /** A power of two is its own rounding. */
  lemma {:induction false} NextPow2OfPow2(e: nat)
    ensures NextPow2(Pow2(e)) == Pow2(e)
  {
    NextPow2Bounds(Pow2(e));
    NextPow2Least(Pow2(e), e);
  }

  /** For a power-of-two BLOCK_SIZE (the default 2048 is one), the rounded
      bucket bound fits it exactly when MAX_NGROUPS itself does. */
  lemma RoundUpFits(maxGroups: nat, e: nat)
    ensures NextPow2(maxGroups) <= Pow2(e) <==> maxGroups <= Pow2(e)
  {
    NextPow2Bounds(maxGroups);
    if maxGroups <= Pow2(e) {
      NextPow2Least(maxGroups, e);
    }
  }
}
