/**
 Rounding to six decimals, ties to even, over the reals.
 */
module Rounding {
  const UNIT := 0.000001
  const SCALE := 1000000.0

  /** The nearest whole number; a tie goes to the even one. */
  function Nearest(y: real): int {
    var f := y.Floor;
    var d := y - f as real;
    if d < 0.5 then f else if d > 0.5 then f + 1 else if f % 2 == 0 then f else f + 1
  }

  /** `_rounded`, in millionths. */
  function Millionths(x: real): int { Nearest(x * SCALE) }

  function Rounded(x: real): real { Millionths(x) as real / SCALE }

  lemma NearestClose(y: real)
    ensures -0.5 <= Nearest(y) as real - y <= 0.5
  {
  }

  lemma NearestMonotone(x: real, y: real)
    requires x <= y
    ensures Nearest(x) <= Nearest(y)
  {
  }

  /** Rounding is symmetric: ties to even do not favour a sign. */
  lemma NearestOdd(y: real)
    ensures Nearest(-y) == -Nearest(y)
  {
  }

  /** Up to where a number rounds to `n` or below. */
  lemma NearestAtMost(y: real, n: int)
    ensures Nearest(y) <= n <==> y < n as real + 0.5 || (y == n as real + 0.5 && n % 2 == 0)
  {
    var f := y.Floor;
    if f <= n - 1 {
      assert y < (f + 1) as real;
    } else if f >= n + 1 {
      assert y >= f as real;
    } else {
      assert f == n;
    }
  }

  /** The point half way behind `n` separates `a` from `b`; on the point itself the even side wins. */
  predicate Boundary(n: int, a: real, b: real) {
    var half := n as real + 0.5;
    (a < half || (a == half && n % 2 == 0)) && (half < b || (half == b && n % 2 != 0))
  }

  ghost predicate Separated(a: real, b: real) { exists n :: Boundary(n, a, b) }

  /** Two numbers round apart exactly if some half-way point separates them. */
  lemma NearestApartIff(a: real, b: real)
    requires a <= b
    ensures Nearest(a) != Nearest(b) <==> Separated(a, b)
  {
    NearestMonotone(a, b);
    if Nearest(a) != Nearest(b) {
      NearestAtMost(a, Nearest(a));
      NearestAtMost(b, Nearest(a));
      assert Boundary(Nearest(a), a, b);
    }
    if n :| Boundary(n, a, b) {
      NearestAtMost(a, n);
      NearestAtMost(b, n);
    }
  }

  /** The same for values and their millionths. */
  lemma RoundedApartIff(a: real, b: real)
    requires a <= b
    ensures Rounded(a) != Rounded(b) <==> Separated(a * SCALE, b * SCALE)
  {
    ScaleOrder(a, b);
    NearestApartIff(a * SCALE, b * SCALE);
  }

  lemma ScaleOrder(x: real, y: real)
    requires x <= y
    ensures x * SCALE <= y * SCALE
  {
  }

  /** Rounding keeps the order. */
  lemma RoundedMonotone(x: real, y: real)
    requires x <= y
    ensures Rounded(x) <= Rounded(y)
  {
    ScaleOrder(x, y);
    NearestMonotone(x * SCALE, y * SCALE);
  }

  /** Rounding moves a value by at most half a millionth. */
  lemma RoundedClose(x: real)
    ensures -UNIT / 2.0 <= Rounded(x) - x <= UNIT / 2.0
  {
  }

  /** Rounding twice is rounding once. */
  lemma RoundedTwice(x: real)
    ensures Rounded(Rounded(x)) == Rounded(x)
  {
  }

  /** A rounded difference and the difference of rounded values are at most one millionth apart. */
  lemma DifferenceClose(a: real, b: real)
    ensures -UNIT <= Rounded(b - a) - (Rounded(b) - Rounded(a)) <= UNIT
  {
    NearestClose(a * SCALE);
    NearestClose(b * SCALE);
    NearestClose((b - a) * SCALE);
    assert (b - a) * SCALE == b * SCALE - a * SCALE;
    var gap := Millionths(b - a) - (Millionths(b) - Millionths(a));
    assert -1.5 <= gap as real <= 1.5;
    assert -1 <= gap <= 1;
    assert Rounded(b - a) - (Rounded(b) - Rounded(a)) == gap as real / SCALE;
  }

  /** A value rounds to nothing exactly up to half a millionth on both sides. */
  lemma RoundsToZero(x: real)
    ensures Rounded(x) > 0.0 <==> x > UNIT / 2.0
    ensures Rounded(x) < 0.0 <==> x < -UNIT / 2.0
  {
  }
}
