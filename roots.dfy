/** The square root the scoring engine applies to sums of squares (numpy's `sqrt`),
    taken as exact: every component receives it as a parameter, and the lemmas
    below state what any function satisfying `IsSqrt` guarantees. */
module Roots {

  /** `sqrt(x)` is the non-negative square root of `x`. */
  ghost predicate RootOf(sqrt: real -> real, x: real) {
    0.0 <= sqrt(x) && sqrt(x) * sqrt(x) == x
  }

  /** `sqrt` returns the non-negative square root of every non-negative argument. */
  ghost predicate IsSqrt(sqrt: real -> real) {
    forall x :: 0.0 <= x ==> RootOf(sqrt, x)
  }

  /** Squaring is strictly increasing on the non-negative reals. */
  lemma SquareLess(y: real, z: real)
    requires 0.0 <= y < z
    ensures y * y < z * z
  {
    var low, mid, high := y * y, y * z, z * z;
    assert low <= mid;
    assert mid < high;
  }

  /** Two non-negative reals with the same square are equal. */
  lemma SquareInjective(y: real, z: real)
    requires 0.0 <= y && 0.0 <= z && y * y == z * z
    ensures y == z
  {
    if y < z {
      SquareLess(y, z);
    } else if z < y {
      SquareLess(z, y);
    }
  }

  /** The root is determined: a non-negative `y` with `y * y == x` is `sqrt(x)`. */
  lemma RootUnique(sqrt: real -> real, x: real, y: real)
    requires IsSqrt(sqrt)
    requires 0.0 <= y && y * y == x
    ensures sqrt(x) == y
  {
    assert RootOf(sqrt, x);
    SquareInjective(sqrt(x), y);
  }

  lemma RootOfZero(sqrt: real -> real)
    requires IsSqrt(sqrt)
    ensures sqrt(0.0) == 0.0
  {
    RootUnique(sqrt, 0.0, 0.0);
  }

  /** Zero is the only non-negative argument whose root is zero. */
  lemma RootZeroOnlyAtZero(sqrt: real -> real, x: real)
    requires IsSqrt(sqrt)
    requires 0.0 <= x
    ensures sqrt(x) == 0.0 <==> x == 0.0
  {
    if x == 0.0 {
      RootOfZero(sqrt);
    } else {
      assert RootOf(sqrt, x);
      NonZeroRoot(sqrt(x), x);
    }
  }

  /** A number whose square is not zero is not zero. */
  lemma NonZeroRoot(r: real, x: real)
    requires r * r == x && x != 0.0
    ensures r != 0.0
  {
  }

  /** The root of a non-negative number is non-negative. */
  lemma RootNonNegative(sqrt: real -> real, x: real)
    requires IsSqrt(sqrt)
    requires 0.0 <= x
    ensures 0.0 <= sqrt(x)
  {
    assert RootOf(sqrt, x);
  }

  /** A positive factor squared inside the root comes out unsquared:
      the root of `y == c * c * x` is `c` times the root of `x`. */
  lemma RootScale(sqrt: real -> real, c: real, x: real, y: real)
    requires IsSqrt(sqrt)
    requires 0.0 < c && 0.0 <= x && y == c * c * x
    ensures sqrt(y) == c * sqrt(x)
  {
    var r := sqrt(x);
    assert RootOf(sqrt, x);
    assert (c * r) * (c * r) == c * c * (r * r);
    RootUnique(sqrt, y, c * r);
  }
}
