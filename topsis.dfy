/** The TOPSIS scoring pipeline over exact reals: normalise every criterion
    column by its root-sum-of-squares (a zero divisor replaced by one), weight
    it, take the ideal best and worst point per column, measure each row's
    Euclidean distance to both and score the row by its relative closeness to
    the worst point. */
module Topsis {
  import opened Vectors
  import Roots

  /** Only the token `+` marks a benefit criterion; every other token marks a
      cost criterion. */
  predicate IsBenefit(token: string) {
    token == "+"
  }

  /** The root-sum-of-squares of every column (`np.sqrt((data ** 2).sum(axis=0))`). */
  function ColumnNorms(data: Matrix, n: nat, sqrt: real -> real): (rss: seq<real>)
    requires Rectangular(data, n)
    ensures |rss| == n
  {
    seq(n, j requires 0 <= j < n => sqrt(SumSquares(Column(data, j))))
  }

  /** The norm of a column is zero exactly when the whole column is zero. */
  lemma {:induction false} ColumnNormZero(data: Matrix, n: nat, sqrt: real -> real, j: nat)
    requires Roots.IsSqrt(sqrt)
    requires Rectangular(data, n) && j < n
    ensures 0.0 <= ColumnNorms(data, n, sqrt)[j]
    ensures ColumnNorms(data, n, sqrt)[j] == 0.0
            <==> forall i :: 0 <= i < |data| ==> data[i][j] == 0.0
  {
    var col := Column(data, j);
    Roots.RootNonNegative(sqrt, SumSquares(col));
    Roots.RootZeroOnlyAtZero(sqrt, SumSquares(col));
    SumSquaresZero(col);
    assert forall i :: 0 <= i < |data| ==> col[i] == data[i][j];
  }

  /** The divisors actually used: every zero norm replaced by one
      (`rss[rss == 0] = 1`). No divisor is zero and every non-zero norm is
      kept. */
  function Divisors(rss: seq<real>): (d: seq<real>)
    ensures |d| == |rss|
    ensures forall j :: 0 <= j < |rss| ==> d[j] != 0.0
    ensures forall j :: 0 <= j < |rss| && rss[j] != 0.0 ==> d[j] == rss[j]
    ensures forall j :: 0 <= j < |rss| && rss[j] == 0.0 ==> d[j] == 1.0
  {
    seq(|rss|, j requires 0 <= j < |rss| => if rss[j] == 0.0 then 1.0 else rss[j])
  }

  /** Every entry divided by its column's divisor (`data / rss`). */
  function Normalize(data: Matrix, d: seq<real>): (r: Matrix)
    requires Rectangular(data, |d|)
    requires forall j :: 0 <= j < |d| ==> d[j] != 0.0
    ensures |r| == |data| && Rectangular(r, |d|)
  {
    seq(|data|, i requires 0 <= i < |data| =>
      seq(|d|, j requires 0 <= j < |d| => data[i][j] / d[j]))
  }

  /** Every entry multiplied by its column's weight (`normalized * w_list`). */
  function ApplyWeights(m: Matrix, w: seq<real>): (r: Matrix)
    requires Rectangular(m, |w|)
    ensures |r| == |m| && Rectangular(r, |w|)
  {
    seq(|m|, i requires 0 <= i < |m| =>
      seq(|w|, j requires 0 <= j < |w| => m[i][j] * w[j]))
  }

  /** The weighted normalised matrix (`weighted_mat`). */
  function Weighted(data: Matrix, w: seq<real>, sqrt: real -> real): (r: Matrix)
    requires Rectangular(data, |w|)
    ensures |r| == |data| && Rectangular(r, |w|)
  {
    ApplyWeights(Normalize(data, Divisors(ColumnNorms(data, |w|, sqrt))), w)
  }

  /** A quotient is determined by its defining product. */
  lemma QuotientUnique(r: real, d: real, x: real)
    requires d != 0.0 && r * d == x
    ensures r == x / d
  {
  }

  /** Dividing `c * x` by `c * d` gives the same quotient as `x` by `d`. */
  lemma QuotientCancel(c: real, d: real, x: real)
    requires c != 0.0 && d != 0.0
    ensures (c * x) / (c * d) == x / d
  {
    var q := x / d;
    assert q * d == x;
    assert q * (c * d) == c * x;
    QuotientUnique(q, c * d, c * x);
  }

  /** Matrices that agree entry by entry are equal. */
  lemma {:induction false} MatrixEqual(a: Matrix, b: Matrix, n: nat)
    requires |a| == |b| && Rectangular(a, n) && Rectangular(b, n)
    requires forall i, j :: 0 <= i < |a| && 0 <= j < n ==> a[i][j] == b[i][j]
    ensures a == b
  {
    forall i | 0 <= i < |a|
      ensures a[i] == b[i]
    {
    }
  }

  /** An entry of the weighted matrix is the entry divided by its column's
      root-sum-of-squares and multiplied by the column's weight; an entry of a
      column whose sum of squares is zero becomes zero instead, and no
      division by zero takes place. */
  lemma {:induction false} WeightedEntry(data: Matrix, w: seq<real>, sqrt: real -> real, i: nat, j: nat)
    requires Roots.IsSqrt(sqrt)
    requires Rectangular(data, |w|) && i < |data| && j < |w|
    ensures SumSquares(Column(data, j)) == 0.0 ==> Weighted(data, w, sqrt)[i][j] == 0.0
    ensures SumSquares(Column(data, j)) != 0.0 ==>
              0.0 < sqrt(SumSquares(Column(data, j)))
              && Weighted(data, w, sqrt)[i][j] == data[i][j] / sqrt(SumSquares(Column(data, j))) * w[j]
  {
    var col := Column(data, j);
    var s := SumSquares(col);
    var rss := ColumnNorms(data, |w|, sqrt);
    var d := Divisors(rss);
    var nm := Normalize(data, d);
    assert Weighted(data, w, sqrt)[i][j] == nm[i][j] * w[j];
    assert rss[j] == sqrt(s);
    ColumnNormZero(data, |w|, sqrt, j);
    SumSquaresZero(col);
    if s == 0.0 {
      assert col[i] == 0.0;
    }
  }

  /** An all-zero column stays all zero after normalising and weighting. */
  lemma {:induction false} ZeroColumnWeighted(data: Matrix, w: seq<real>, sqrt: real -> real, j: nat)
    requires Rectangular(data, |w|) && j < |w|
    requires forall i :: 0 <= i < |data| ==> data[i][j] == 0.0
    ensures forall i :: 0 <= i < |data| ==> Weighted(data, w, sqrt)[i][j] == 0.0
  {
    var d := Divisors(ColumnNorms(data, |w|, sqrt));
    var nm := Normalize(data, d);
    forall i | 0 <= i < |data|
      ensures nm[i][j] == 0.0
    {
      assert nm[i][j] == data[i][j] / d[j];
    }
  }

  /** `scaled` is `data` with column `j0` multiplied by `c`. */
  predicate ScaledColumn(data: Matrix, scaled: Matrix, n: nat, j0: nat, c: real) {
    |scaled| == |data| && Rectangular(data, n) && Rectangular(scaled, n)
    && forall i, j :: 0 <= i < |data| && 0 <= j < n ==>
         scaled[i][j] == (if j == j0 then c * data[i][j] else data[i][j])
  }

  /** The root of a scaled sum of squares, with the sum passed in. */
  lemma {:induction false} ScaledNorm(sqrt: real -> real, s: seq<real>, t: seq<real>, c: real)
    requires Roots.IsSqrt(sqrt) && 0.0 < c
    requires SumSquares(t) == c * c * SumSquares(s)
    ensures sqrt(SumSquares(t)) == c * sqrt(SumSquares(s))
  {
    Roots.RootScale(sqrt, c, SumSquares(s), SumSquares(t));
  }

  /** Scaling every entry by a positive `c` scales the root-sum-of-squares by `c`. */
  lemma {:induction false} NormScale(sqrt: real -> real, s: seq<real>, t: seq<real>, c: real)
    requires Roots.IsSqrt(sqrt) && 0.0 < c
    requires |t| == |s|
    requires forall k :: 0 <= k < |s| ==> t[k] == c * s[k]
    ensures sqrt(SumSquares(t)) == c * sqrt(SumSquares(s))
  {
    SumSquaresScale(s, t, c);
    ScaledNorm(sqrt, s, t, c);
  }

  /** The norm of a column scaled by a positive `c` is `c` times its norm. */
  lemma {:induction false} ScaledColumnNorm(data: Matrix, scaled: Matrix, n: nat, sqrt: real -> real, j0: nat, c: real)
    requires Roots.IsSqrt(sqrt)
    requires 0.0 < c && ScaledColumn(data, scaled, n, j0, c) && j0 < n
    ensures ColumnNorms(scaled, n, sqrt)[j0] == c * ColumnNorms(data, n, sqrt)[j0]
  {
    var col, col2 := Column(data, j0), Column(scaled, j0);
    assert forall k :: 0 <= k < |col| ==> col2[k] == c * col[k];
    NormScale(sqrt, col, col2, c);
  }

  /** The normalised entry in a scaled column equals the original one. */
  lemma {:induction false} ScaledColumnEntry(data: Matrix, scaled: Matrix, n: nat, sqrt: real -> real, j0: nat, c: real, i: nat)
    requires Roots.IsSqrt(sqrt)
    requires 0.0 < c && ScaledColumn(data, scaled, n, j0, c)
    requires i < |data| && j0 < n
    ensures Normalize(scaled, Divisors(ColumnNorms(scaled, n, sqrt)))[i][j0]
            == Normalize(data, Divisors(ColumnNorms(data, n, sqrt)))[i][j0]
  {
    var rss, rss2 := ColumnNorms(data, n, sqrt), ColumnNorms(scaled, n, sqrt);
    ScaledColumnNorm(data, scaled, n, sqrt, j0, c);
    if rss[j0] == 0.0 {
      ColumnNormZero(data, n, sqrt, j0);
      assert data[i][j0] == 0.0;
    } else {
      QuotientCancel(c, rss[j0], data[i][j0]);
    }
  }

  /** The normalised entry in a column that is not scaled is unchanged. */
  lemma {:induction false} OtherColumnEntry(data: Matrix, scaled: Matrix, n: nat, sqrt: real -> real, j0: nat, c: real, i: nat, j: nat)
    requires ScaledColumn(data, scaled, n, j0, c)
    requires i < |data| && j < n && j != j0
    ensures Normalize(scaled, Divisors(ColumnNorms(scaled, n, sqrt)))[i][j]
            == Normalize(data, Divisors(ColumnNorms(data, n, sqrt)))[i][j]
  {
    assert Column(scaled, j) == Column(data, j);
  }

  /** Normalisation removes the unit of a criterion: multiplying a whole
      column by a positive constant leaves the weighted matrix unchanged. */
  lemma {:induction false} ScaleInvariant(data: Matrix, scaled: Matrix, w: seq<real>, sqrt: real -> real, j0: nat, c: real)
    requires Roots.IsSqrt(sqrt)
    requires 0.0 < c && ScaledColumn(data, scaled, |w|, j0, c)
    ensures Weighted(scaled, w, sqrt) == Weighted(data, w, sqrt)
  {
    var n := |w|;
    var nm := Normalize(data, Divisors(ColumnNorms(data, n, sqrt)));
    var nm2 := Normalize(scaled, Divisors(ColumnNorms(scaled, n, sqrt)));
    forall i, j | 0 <= i < |data| && 0 <= j < n
      ensures nm2[i][j] == nm[i][j]
    {
      if j == j0 {
        ScaledColumnEntry(data, scaled, n, sqrt, j0, c, i);
      } else {
        OtherColumnEntry(data, scaled, n, sqrt, j0, c, i, j);
      }
    }
    MatrixEqual(nm2, nm, n);
  }

  /** The ideal-best value of every column: the column maximum for a benefit
      criterion, the column minimum for a cost criterion. */
  function IdealBest(m: Matrix, impacts: seq<string>): (best: seq<real>)
    requires |m| > 0 && Rectangular(m, |impacts|)
    ensures |best| == |impacts|
  {
    seq(|impacts|, j requires 0 <= j < |impacts| =>
      if IsBenefit(impacts[j]) then Max(Column(m, j)) else Min(Column(m, j)))
  }

  /** The ideal-worst value of every column: the column minimum for a benefit
      criterion, the column maximum for a cost criterion. */
  function IdealWorst(m: Matrix, impacts: seq<string>): (worst: seq<real>)
    requires |m| > 0 && Rectangular(m, |impacts|)
    ensures |worst| == |impacts|
  {
    seq(|impacts|, j requires 0 <= j < |impacts| =>
      if IsBenefit(impacts[j]) then Min(Column(m, j)) else Max(Column(m, j)))
  }

  /** For a benefit column every entry lies between the ideal-worst and the
      ideal-best value; for a cost column the roles swap. Both values are
      entries of the column. */
  lemma {:induction false} IdealBounds(m: Matrix, impacts: seq<string>, j: nat)
    requires |m| > 0 && Rectangular(m, |impacts|) && j < |impacts|
    ensures IsBenefit(impacts[j]) ==>
              forall i :: 0 <= i < |m| ==> IdealWorst(m, impacts)[j] <= m[i][j] <= IdealBest(m, impacts)[j]
    ensures !IsBenefit(impacts[j]) ==>
              forall i :: 0 <= i < |m| ==> IdealBest(m, impacts)[j] <= m[i][j] <= IdealWorst(m, impacts)[j]
    ensures exists i :: 0 <= i < |m| && m[i][j] == IdealBest(m, impacts)[j]
    ensures exists i :: 0 <= i < |m| && m[i][j] == IdealWorst(m, impacts)[j]
  {
    var col := Column(m, j);
    var hi, lo := Max(col), Min(col);
    assert forall i :: 0 <= i < |m| ==> col[i] == m[i][j];
    var ih :| 0 <= ih < |col| && col[ih] == hi;
    var il :| 0 <= il < |col| && col[il] == lo;
  }

  /** Swapping every impact between benefit and cost swaps the two ideal points. */
  lemma {:induction false} FlippedIdeals(m: Matrix, impacts: seq<string>, flipped: seq<string>)
    requires |m| > 0 && Rectangular(m, |impacts|) && |flipped| == |impacts|
    requires forall j :: 0 <= j < |impacts| ==> (IsBenefit(flipped[j]) <==> !IsBenefit(impacts[j]))
    ensures IdealBest(m, flipped) == IdealWorst(m, impacts)
    ensures IdealWorst(m, flipped) == IdealBest(m, impacts)
  {
  }

  /** The Euclidean distance between a row and an ideal point. */
  function Distance(row: seq<real>, ideal: seq<real>, sqrt: real -> real): real
    requires |row| == |ideal|
  {
    sqrt(SumSquares(Diff(row, ideal)))
  }

  /** A distance is never negative, and it is zero exactly when the row is the
      ideal point. */
  lemma {:induction false} DistanceZero(row: seq<real>, ideal: seq<real>, sqrt: real -> real)
    requires Roots.IsSqrt(sqrt) && |row| == |ideal|
    ensures 0.0 <= Distance(row, ideal, sqrt)
    ensures Distance(row, ideal, sqrt) == 0.0 <==> row == ideal
  {
    var d := Diff(row, ideal);
    Roots.RootNonNegative(sqrt, SumSquares(d));
    Roots.RootZeroOnlyAtZero(sqrt, SumSquares(d));
    SumSquaresZero(d);
    if SumSquares(d) == 0.0 {
      assert forall k :: 0 <= k < |row| ==> row[k] == ideal[k] by {
        forall k | 0 <= k < |row| ensures row[k] == ideal[k] {
          assert d[k] == 0.0;
        }
      }
    }
  }

  /** The distance of every row to an ideal point. */
  function Distances(m: Matrix, ideal: seq<real>, sqrt: real -> real): (r: seq<real>)
    requires Rectangular(m, |ideal|)
    ensures |r| == |m|
  {
    seq(|m|, i requires 0 <= i < |m| => Distance(m[i], ideal, sqrt))
  }

  /** The relative closeness `dw / (db + dw)`, or zero when both distances
      add up to zero (`np.divide(..., where=total_dist != 0)`). It solves
      `c * (db + dw) == dw` whenever the total is not zero, and it lies in
      [0, 1] for non-negative distances. */
  function Closeness(db: real, dw: real): (c: real)
    ensures db + dw != 0.0 ==> c * (db + dw) == dw
    ensures db + dw == 0.0 ==> c == 0.0
    ensures 0.0 <= db && 0.0 <= dw ==> 0.0 <= c <= 1.0
  {
    if db + dw != 0.0 then
      ClosenessBounds(db, dw);
      dw / (db + dw)
    else 0.0
  }

  lemma ClosenessBounds(db: real, dw: real)
    requires db + dw != 0.0
    ensures dw / (db + dw) * (db + dw) == dw
    ensures 0.0 <= db && 0.0 <= dw ==> 0.0 <= dw / (db + dw) <= 1.0
  {
  }

  /** Exchanging the two distances turns a closeness `c` into `1 - c`. */
  lemma ClosenessSwap(db: real, dw: real)
    requires db + dw != 0.0
    ensures Closeness(dw, db) == 1.0 - Closeness(db, dw)
  {
    FractionsOfTotal(Closeness(db, dw), Closeness(dw, db), db + dw, dw, db);
  }

  /** Two fractions of a non-zero total whose parts add up to the total add up to one. */
  lemma FractionsOfTotal(c: real, c2: real, t: real, x: real, y: real)
    requires t != 0.0 && t == x + y && c * t == x && c2 * t == y
    ensures c + c2 == 1.0
  {
    assert (c + c2 - 1.0) * t == 0.0;
  }

  /** The closeness score of every row of `m`. */
  function Scores(m: Matrix, best: seq<real>, worst: seq<real>, sqrt: real -> real): (r: seq<real>)
    requires |best| == |worst| && Rectangular(m, |best|)
    ensures |r| == |m|
  {
    var db, dw := Distances(m, best, sqrt), Distances(m, worst, sqrt);
    seq(|m|, i requires 0 <= i < |m| => Closeness(db[i], dw[i]))
  }

  /** The TOPSIS score of every alternative (`scores`). */
  function TopsisScores(data: Matrix, w: seq<real>, impacts: seq<string>, sqrt: real -> real): (r: seq<real>)
    requires |data| > 0 && Rectangular(data, |w|) && |impacts| == |w|
    ensures |r| == |data|
  {
    var m := Weighted(data, w, sqrt);
    Scores(m, IdealBest(m, impacts), IdealWorst(m, impacts), sqrt)
  }

  /** Every score lies in [0, 1]. */
  lemma {:induction false} ScoresInUnitInterval(data: Matrix, w: seq<real>, impacts: seq<string>, sqrt: real -> real, i: nat)
    requires Roots.IsSqrt(sqrt)
    requires |data| > 0 && Rectangular(data, |w|) && |impacts| == |w| && i < |data|
    ensures 0.0 <= TopsisScores(data, w, impacts, sqrt)[i] <= 1.0
  {
    var m := Weighted(data, w, sqrt);
    var best, worst := IdealBest(m, impacts), IdealWorst(m, impacts);
    DistanceZero(m[i], best, sqrt);
    DistanceZero(m[i], worst, sqrt);
    assert TopsisScores(data, w, impacts, sqrt)[i]
        == Closeness(Distance(m[i], best, sqrt), Distance(m[i], worst, sqrt));
  }

  /** Identical rows of the decision matrix stay identical after weighting. */
  lemma {:induction false} IdenticalRowsWeighted(data: Matrix, w: seq<real>, sqrt: real -> real, i: nat)
    requires Rectangular(data, |w|) && 0 < |data| && i < |data|
    requires data[i] == data[0]
    ensures Weighted(data, w, sqrt)[i] == Weighted(data, w, sqrt)[0]
  {
    var m := Weighted(data, w, sqrt);
    forall j | 0 <= j < |w|
      ensures m[i][j] == m[0][j]
    {
      assert data[i][j] == data[0][j];
    }
  }

  /** The extremes of a column whose entries all equal `x` are `x`. */
  lemma {:induction false} ConstantColumn(m: Matrix, j: nat, x: real)
    requires |m| > 0 && forall i :: 0 <= i < |m| ==> j < |m[i]| && m[i][j] == x
    ensures Max(Column(m, j)) == x && Min(Column(m, j)) == x
  {
    var col := Column(m, j);
    assert forall k :: 0 <= k < |col| ==> col[k] == x;
  }

  /** When every row is the same, both ideal points are that row. */
  lemma {:induction false} IdenticalRowsIdeals(m: Matrix, impacts: seq<string>)
    requires |m| > 0 && Rectangular(m, |impacts|)
    requires forall i :: 0 <= i < |m| ==> m[i] == m[0]
    ensures IdealBest(m, impacts) == m[0] && IdealWorst(m, impacts) == m[0]
  {
    forall j | 0 <= j < |impacts|
      ensures IdealBest(m, impacts)[j] == m[0][j] && IdealWorst(m, impacts)[j] == m[0][j]
    {
      ConstantColumn(m, j, m[0][j]);
    }
  }

  /** When every alternative has the same values, both distances of every row
      are zero, so every score is zero. */
  lemma {:induction false} IdenticalRowsScoreZero(data: Matrix, w: seq<real>, impacts: seq<string>, sqrt: real -> real)
    requires Roots.IsSqrt(sqrt)
    requires |data| > 0 && Rectangular(data, |w|) && |impacts| == |w|
    requires forall i :: 0 <= i < |data| ==> data[i] == data[0]
    ensures forall i :: 0 <= i < |data| ==> TopsisScores(data, w, impacts, sqrt)[i] == 0.0
  {
    var m := Weighted(data, w, sqrt);
    forall i | 0 <= i < |m|
      ensures m[i] == m[0]
    {
      IdenticalRowsWeighted(data, w, sqrt, i);
    }
    IdenticalRowsIdeals(m, impacts);
    forall i | 0 <= i < |data|
      ensures TopsisScores(data, w, impacts, sqrt)[i] == 0.0
    {
      DistanceZero(m[i], m[0], sqrt);
    }
  }

  /** Reversing every impact (benefit for cost and cost for benefit) turns
      every score `s` into `1 - s`, except where both distances are zero and
      both scores are zero. */
  lemma {:induction false} FlippedScores(data: Matrix, w: seq<real>, impacts: seq<string>, flipped: seq<string>, sqrt: real -> real, i: nat)
    requires |data| > 0 && Rectangular(data, |w|) && |impacts| == |w| && |flipped| == |w| && i < |data|
    requires forall j :: 0 <= j < |impacts| ==> (IsBenefit(flipped[j]) <==> !IsBenefit(impacts[j]))
    ensures var m := Weighted(data, w, sqrt);
            var total := Distance(m[i], IdealBest(m, impacts), sqrt) + Distance(m[i], IdealWorst(m, impacts), sqrt);
            (total != 0.0 ==> TopsisScores(data, w, flipped, sqrt)[i] == 1.0 - TopsisScores(data, w, impacts, sqrt)[i])
            && (total == 0.0 ==> TopsisScores(data, w, flipped, sqrt)[i] == 0.0 == TopsisScores(data, w, impacts, sqrt)[i])
  {
    var m := Weighted(data, w, sqrt);
    FlippedIdeals(m, impacts, flipped);
    var db, dw := Distance(m[i], IdealBest(m, impacts), sqrt), Distance(m[i], IdealWorst(m, impacts), sqrt);
    if db + dw != 0.0 {
      ClosenessSwap(db, dw);
    }
  }

  /** Multiplying one criterion column by a positive constant changes no score. */
  lemma {:induction false} ScaleInvariantScores(data: Matrix, scaled: Matrix, w: seq<real>, impacts: seq<string>, sqrt: real -> real, j0: nat, c: real)
    requires Roots.IsSqrt(sqrt)
    requires |data| > 0 && |impacts| == |w|
    requires 0.0 < c && ScaledColumn(data, scaled, |w|, j0, c)
    ensures TopsisScores(scaled, w, impacts, sqrt) == TopsisScores(data, w, impacts, sqrt)
  {
    ScaleInvariant(data, scaled, w, sqrt, j0, c);
  }
}
