/** Ranking of the scores as pandas computes `rank(ascending=False)` with its
    default average method for ties, followed by `astype(int)`, which
    truncates toward zero. */
module Ranking {

  /** The number of entries of `s` strictly greater than `x`. */
  function CountAbove(s: seq<real>, x: real): (n: nat)
    ensures n <= |s|
  {
    if |s| == 0 then 0 else (if s[0] > x then 1 else 0) + CountAbove(s[1..], x)
  }

  /** The number of entries of `s` equal to `x`. */
  function CountEqual(s: seq<real>, x: real): (n: nat)
    ensures n <= |s|
  {
    if |s| == 0 then 0 else (if s[0] == x then 1 else 0) + CountEqual(s[1..], x)
  }

  /** Entries above `x` and entries equal to `x` are disjoint groups. */
  lemma {:induction false} CountsBounded(s: seq<real>, x: real)
    ensures CountAbove(s, x) + CountEqual(s, x) <= |s|
  {
    if |s| > 0 {
      CountsBounded(s[1..], x);
    }
  }

  /** An entry of `s` is counted among the entries equal to it. */
  lemma {:induction false} CountEqualMember(s: seq<real>, i: nat)
    requires i < |s|
    ensures CountEqual(s, s[i]) >= 1
  {
    if i > 0 {
      CountEqualMember(s[1..], i - 1);
    }
  }

  /** Everything above or equal to `x` is above a smaller `y`. */
  lemma {:induction false} CountAboveSmaller(s: seq<real>, x: real, y: real)
    requires y < x
    ensures CountAbove(s, y) >= CountAbove(s, x) + CountEqual(s, x)
  {
    if |s| > 0 {
      CountAboveSmaller(s[1..], x, y);
    }
  }

  /** The average of the positions a row shares with its ties when the scores
      are sorted from highest to lowest: `g` better rows take positions
      `1 .. g`, and the `e` rows tied with it take `g + 1 .. g + e`. */
  function AverageRank(s: seq<real>, i: nat): real
    requires i < |s|
  {
    var g, e := CountAbove(s, s[i]), CountEqual(s, s[i]);
    ((g + 1) + (g + e)) as real / 2.0
  }

  /** Conversion of a real to an integer, truncating toward zero like `astype(int)`. */
  function Truncate(x: real): (n: int)
    ensures 0.0 <= x ==> n as real <= x < n as real + 1.0
    ensures x < 0.0 ==> n as real - 1.0 < x <= n as real
  {
    if 0.0 <= x then x.Floor else -((-x).Floor)
  }

  /** The rank of every score (`df['Rank']`). */
  function Ranks(s: seq<real>): (r: seq<int>)
    ensures |r| == |s|
  {
    seq(|s|, i requires 0 <= i < |s| => Truncate(AverageRank(s, i)))
  }

  /** Half of a non-negative integer, as a real, truncates to integer division. */
  lemma HalfFloor(n: nat)
    ensures Truncate(n as real / 2.0) == n / 2
  {
    var q := n / 2;
    assert n == 2 * q || n == 2 * q + 1;
  }

  /** With `g` rows scoring higher and `e` rows (itself included) scoring the
      same, a row's rank is `g + (e + 1) / 2` in integer division. */
  lemma {:induction false} RankClosedForm(s: seq<real>, i: nat)
    requires i < |s|
    ensures Ranks(s)[i] == CountAbove(s, s[i]) + (CountEqual(s, s[i]) + 1) / 2
  {
    var g, e := CountAbove(s, s[i]), CountEqual(s, s[i]);
    HalfFloor(e + 1);
    assert AverageRank(s, i) == g as real + (e + 1) as real / 2.0;
  }

  /** Every rank lies between 1 and the number of rows. */
  lemma {:induction false} RankBounds(s: seq<real>, i: nat)
    requires i < |s|
    ensures 1 <= Ranks(s)[i] <= |s|
  {
    RankClosedForm(s, i);
    CountEqualMember(s, i);
    CountsBounded(s, s[i]);
  }

  /** Rows with equal scores share a rank, and a strictly higher score gets a
      strictly smaller (better) rank. */
  lemma {:induction false} RankOrder(s: seq<real>, i: nat, k: nat)
    requires i < |s| && k < |s|
    ensures s[i] == s[k] ==> Ranks(s)[i] == Ranks(s)[k]
    ensures s[i] > s[k] ==> Ranks(s)[i] < Ranks(s)[k]
  {
    if s[i] > s[k] {
      RankClosedForm(s, i);
      RankClosedForm(s, k);
      CountEqualMember(s, i);
      CountEqualMember(s, k);
      CountAboveSmaller(s, s[i], s[k]);
    }
  }

  /** Counts in a sequence whose entries all equal `x`. */
  lemma {:induction false} CountsConstant(s: seq<real>, x: real)
    requires forall k :: 0 <= k < |s| ==> s[k] == x
    ensures CountAbove(s, x) == 0 && CountEqual(s, x) == |s|
  {
    if |s| > 0 {
      CountsConstant(s[1..], x);
    }
  }

  /** When all `n` rows tie, every row gets rank `(n + 1) / 2`, not 1. */
  lemma {:induction false} AllTiedRank(s: seq<real>, i: nat)
    requires i < |s|
    requires forall k :: 0 <= k < |s| ==> s[k] == s[0]
    ensures Ranks(s)[i] == (|s| + 1) / 2
  {
    CountsConstant(s, s[0]);
    RankClosedForm(s, i);
  }

  /** Three tied rows all get rank 2. */
  lemma ThreeWayTie(x: real)
    ensures Ranks([x, x, x]) == [2, 2, 2]
  {
    var s := [x, x, x];
    forall i | 0 <= i < 3
      ensures Ranks(s)[i] == 2
    {
      AllTiedRank(s, i);
    }
  }

  /** Two rows tied behind a better one share the average 2.5, truncated to 2. */
  lemma TieBehindLeader()
    ensures Ranks([0.5, 0.9, 0.5]) == [2, 1, 2]
  {
    var s := [0.5, 0.9, 0.5];
    RankClosedForm(s, 0);
    RankClosedForm(s, 1);
    RankClosedForm(s, 2);
  }
}
