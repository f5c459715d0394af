/** The whole-array reductions the scoring engine takes from numpy, over exact
    reals: columns of a row-major matrix, sums of squares, element-wise
    differences, and the maximum and minimum of a non-empty column. */
module Vectors {

  /** A decision matrix: one row per alternative, one entry per criterion. */
  type Matrix = seq<seq<real>>

  /** Every row of `m` holds exactly `n` entries. */
  predicate Rectangular(m: Matrix, n: nat) {
    forall i :: 0 <= i < |m| ==> |m[i]| == n
  }

  /** Column `j` of `m`, top to bottom (numpy's `m[:, j]`). */
  function Column(m: Matrix, j: nat): (c: seq<real>)
    requires forall i :: 0 <= i < |m| ==> j < |m[i]|
    ensures |c| == |m|
    ensures forall i :: 0 <= i < |m| ==> c[i] == m[i][j]
  {
    seq(|m|, i requires 0 <= i < |m| => m[i][j])
  }

  /** The product `x * y`, with the sign rules that squares rely on. */
  function Product(x: real, y: real): (r: real)
    ensures 0.0 < x && 0.0 < y ==> 0.0 < r
    ensures x < 0.0 && y < 0.0 ==> 0.0 < r
    ensures x == 0.0 || y == 0.0 ==> r == 0.0
  {
    x * y
  }
  /** A common factor of both operands comes out squared. */
  lemma ProductScale(a: real, b: real, c: real)
    ensures Product(c * a, c * b) == c * c * Product(a, b)
  {
  }
  /** Scaling by `c` scales the square by `c * c`. */
  lemma SquareScale(x: real, y: real, c: real)
    requires y == c * x
    ensures Square(y) == c * c * Square(x)
  {
    ProductScale(x, x, c);
  }
  /** The square of `x` (numpy's `x ** 2`): never negative, zero only for zero. */
  function Square(x: real): (r: real)
    ensures 0.0 <= r
    ensures r == 0.0 <==> x == 0.0
  {
    Product(x, x)
  }
  /** The sum of the entries. */
  function Sum(s: seq<real>): real {
    if |s| == 0 then 0.0 else s[0] + Sum(s[1..])
  }
  /** A sum of non-negative entries is non-negative, and it is zero exactly
      when every entry is zero. */
  lemma {:induction false} SumOfNonNegative(s: seq<real>)
    requires forall k :: 0 <= k < |s| ==> 0.0 <= s[k]
    ensures 0.0 <= Sum(s)
    ensures Sum(s) == 0.0 <==> forall k :: 0 <= k < |s| ==> s[k] == 0.0
  {
    if |s| > 0 {
      assert forall k :: 1 <= k < |s| ==> s[k] == s[1..][k - 1];
      SumOfNonNegative(s[1..]);
    }
  }
  /** Scaling every entry by `a` scales the sum by `a`. */
  lemma {:induction false} SumScale(u: seq<real>, v: seq<real>, a: real)
    requires |v| == |u|
    requires forall k :: 0 <= k < |u| ==> v[k] == a * u[k]
    ensures Sum(v) == a * Sum(u)
  {
    if |u| > 0 {
      var u', v' := u[1..], v[1..];
      forall k | 0 <= k < |u'|
        ensures v'[k] == a * u'[k]
      {
        assert v'[k] == v[k + 1] && u'[k] == u[k + 1];
      }
      SumScale(u', v', a);
      ScaleStep(a, u[0], Sum(u'), Sum(u), v[0], Sum(v'), Sum(v));
    }
  }
  /** One step of `SumScale`: a scaled head and a scaled rest give a scaled total. */
  lemma ScaleStep(a: real, head: real, rest: real, sum: real, head2: real, rest2: real, sum2: real)
    requires head2 == a * head && rest2 == a * rest && sum == head + rest && sum2 == head2 + rest2
    ensures sum2 == a * sum
  {
  }

  /** The entry-wise squares (numpy's `s ** 2`). */
  function Squares(s: seq<real>): (q: seq<real>)
    ensures |q| == |s| && forall k :: 0 <= k < |s| ==> q[k] == Square(s[k])
  {
    seq(|s|, k requires 0 <= k < |s| => Square(s[k]))
  }

  /** The sum of the squares of the entries (numpy's `(s ** 2).sum()`). It is
      never negative. */
  function SumSquares(s: seq<real>): (r: real)
    ensures 0.0 <= r
  {
    SumOfNonNegative(Squares(s));
    Sum(Squares(s))
  }
  /** A sum of squares is zero exactly when every entry is zero. */
  lemma SumSquaresZero(s: seq<real>)
    ensures SumSquares(s) == 0.0 <==> forall k :: 0 <= k < |s| ==> s[k] == 0.0
  {
    SumOfNonNegative(Squares(s));
  }
  /** Scaling every entry by `c` scales the sum of squares by `c * c`. */
  lemma {:induction false} SumSquaresScale(s: seq<real>, t: seq<real>, c: real)
    requires |t| == |s|
    requires forall k :: 0 <= k < |s| ==> t[k] == c * s[k]
    ensures SumSquares(t) == c * c * SumSquares(s)
  {
    SquaresScale(s, t, c);
    var qs, qt := Squares(s), Squares(t);
    SumScale(qs, qt, c * c);
    var x, y := Sum(qt), Sum(qs);
    assert SumSquares(t) == x;
    assert SumSquares(s) == y;
  }
  /** Scaling every entry by `c` scales every square by `c * c`. */
  lemma {:induction false} SquaresScale(s: seq<real>, t: seq<real>, c: real)
    requires |t| == |s|
    requires forall k :: 0 <= k < |s| ==> t[k] == c * s[k]
    ensures forall k :: 0 <= k < |s| ==> Squares(t)[k] == c * c * Squares(s)[k]
  {
    forall k | 0 <= k < |s|
      ensures Squares(t)[k] == c * c * Squares(s)[k]
    {
      SquareScale(s[k], t[k], c);
    }
  }

  /** The element-wise difference `a - b`. */
  function Diff(a: seq<real>, b: seq<real>): (d: seq<real>)
    requires |a| == |b|
    ensures |d| == |a|
    ensures forall k :: 0 <= k < |a| ==> d[k] == a[k] - b[k]
  {
    seq(|a|, k requires 0 <= k < |a| => a[k] - b[k])
  }

  /** The largest entry of a non-empty sequence (numpy's `max`). */
  function Max(s: seq<real>): (m: real)
    requires |s| > 0
    ensures m in s
    ensures forall k :: 0 <= k < |s| ==> s[k] <= m
  {
    if |s| == 1 then s[0]
    else
      var rest := Max(s[1..]);
      assert forall k :: 1 <= k < |s| ==> s[k] == s[1..][k - 1];
      if s[0] >= rest then s[0] else rest
  }

  /** The smallest entry of a non-empty sequence (numpy's `min`). */
  function Min(s: seq<real>): (m: real)
    requires |s| > 0
    ensures m in s
    ensures forall k :: 0 <= k < |s| ==> m <= s[k]
  {
    if |s| == 1 then s[0]
    else
      var rest := Min(s[1..]);
      assert forall k :: 1 <= k < |s| ==> s[k] == s[1..][k - 1];
      if s[0] <= rest then s[0] else rest
  }
}
