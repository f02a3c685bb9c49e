/** Powers of two and the capped exponential that every backoff of the system uses. */
module Doubling {
  function Power2(n: nat): (p: real)
    ensures p >= 1.0
  {
    if n == 0 then 1.0 else 2.0 * Power2(n - 1)
  }

  function Doubled(base: real, n: nat): real { if n == 0 then base else 2.0 * Doubled(base, n - 1) }

  lemma {:induction false} DoubledIsProduct(base: real, n: nat)
    ensures Doubled(base, n) == base * Power2(n)
  {
    if n > 0 {
      DoubledIsProduct(base, n - 1);
    }
  }

  function Min(a: real, b: real): real { if a < b then a else b }

  function Max(a: real, b: real): real { if a < b then b else a }

  /** A base doubled `n` times, never above the cap. */
  function Capped(base: real, cap: real, n: nat): real { Min(Doubled(base, n), cap) }

  /** The power of two as a product, until the cap is met. */
  lemma CappedIs(base: real, cap: real, n: nat)
    ensures Capped(base, cap, n) == if base * Power2(n) < cap then base * Power2(n) else cap
  {
    DoubledIsProduct(base, n);
  }

  /** The first value is the base; each further one is twice the one before, or the cap. */
  lemma CappedDoubles(base: real, cap: real, n: nat)
    requires 0.0 < base <= cap
    ensures Capped(base, cap, 0) == base
    ensures Capped(base, cap, n + 1)
         == if 2.0 * Capped(base, cap, n) < cap then 2.0 * Capped(base, cap, n) else cap
  {
    DoubledGrows(base, n, n + 1);
  }

  /** The doubling may as well start at the base. */
  lemma {:induction false} DoubleFirst(base: real, n: nat)
    requires n > 0
    ensures Doubled(base, n) == Doubled(base * 2.0, n - 1)
  {
    if n > 1 {
      DoubleFirst(base, n - 1);
    }
  }

  lemma {:induction false} DoubledGrows(base: real, m: nat, n: nat)
    requires base > 0.0 && m <= n
    ensures 0.0 < base <= Doubled(base, m) <= Doubled(base, n)
  {
    if m < n {
      DoubledGrows(base, m, n - 1);
    } else if m > 0 {
      DoubledGrows(base, m - 1, m - 1);
    }
  }

  /** More doublings never shrink the result, which stays between the smaller and the cap. */
  lemma CappedGrows(base: real, cap: real, m: nat, n: nat)
    requires base > 0.0 && m <= n
    ensures Min(base, cap) <= Capped(base, cap, m) <= Capped(base, cap, n) <= cap
  {
    DoubledGrows(base, m, n);
  }
}
