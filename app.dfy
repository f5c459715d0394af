/** The request flow of the web front end around the scoring engine: the
    length pre-check on the comma-separated inputs, and `calculate_topsis`,
    which reads the criteria block of the uploaded frame and writes the
    `Topsis Score` and `Rank` columns back into it. */
module App {
  import opened Vectors
  import opened Text
  import opened Frames
  import Roots
  import Topsis
  import Ranking

  /** Why a calculation that passed the pre-check still fails. */
  datatype Failure =
    | NonNumericData   // a criteria cell does not convert to a number
    | BadWeight        // a weight piece does not convert to a number
    | NoAlternatives   // the frame has no rows, so no column has a maximum

  /** What the user sees after pressing Submit. */
  datatype Outcome =
    | LengthMismatch(wLen: int, iLen: int, numCols: int)
    | Failed(failure: Failure)
    | Scored

  /** The value-level result of a calculation. */
  datatype Calculation = Fails(failure: Failure) | Done(table: Table)

  const ScoreColumn: string := "Topsis Score"
  const RankColumn: string := "Rank"

  /** The pre-check: as many weight pieces and as many impact pieces as there
      are criteria columns. */
  predicate LengthsMatch(numCols: int, weightsInput: string, impactsInput: string) {
    |Split(weightsInput, ',')| == numCols && |Split(impactsInput, ',')| == numCols
  }

  /** Every weight piece converts to a number. */
  predicate WeightsConvert(pieces: seq<string>, toFloat: string -> Option<real>) {
    forall k :: 0 <= k < |pieces| ==> toFloat(pieces[k]).Some?
  }

  /** `[float(w) for w in weights.split(',')]`, with the conversion of one
      piece given as `toFloat`. It fails exactly when some piece does not
      convert, and otherwise holds each piece's number in order. */
  function ParseWeights(pieces: seq<string>, toFloat: string -> Option<real>): (r: Option<seq<real>>)
    ensures r.Some? <==> WeightsConvert(pieces, toFloat)
    ensures r.Some? ==> |r.value| == |pieces|
    ensures r.Some? ==> forall k :: 0 <= k < |pieces| ==> toFloat(pieces[k]) == Some(r.value[k])
  {
    if |pieces| == 0 then Some([])
    else
      var rest := ParseWeights(pieces[1..], toFloat);
      assert forall k :: 1 <= k < |pieces| ==> pieces[k] == pieces[1..][k - 1];
      match toFloat(pieces[0])
      case None => None
      case Some(x) => if rest.None? then None else Some([x] + rest.value)
  }

  /** `[i.strip() for i in impacts.split(',')]`. */
  function ImpactTokens(impactsInput: string): (tokens: seq<string>)
    ensures |tokens| == |Split(impactsInput, ',')|
    ensures forall k :: 0 <= k < |tokens| ==> tokens[k] == Strip(Split(impactsInput, ',')[k])
  {
    var pieces := Split(impactsInput, ',');
    seq(|pieces|, k requires 0 <= k < |pieces| => Strip(pieces[k]))
  }

  /** A column of scores as frame cells. */
  function RealCells(s: seq<real>): (c: seq<Cell>)
    ensures |c| == |s| && forall i :: 0 <= i < |s| ==> c[i] == Real(s[i])
  {
    seq(|s|, i requires 0 <= i < |s| => Real(s[i]))
  }

  /** A column of ranks as frame cells (`astype(int)`). */
  function IntCells(s: seq<int>): (c: seq<Cell>)
    ensures |c| == |s| && forall i :: 0 <= i < |s| ==> c[i] == Int(s[i])
  {
    seq(|s|, i requires 0 <= i < |s| => Int(s[i]))
  }

  /** The scores `calculate_topsis` computes for a frame whose criteria and
      weights convert and which has at least one row. */
  function FrameScores(t: Table, weightsInput: string, impactsInput: string,
                       toFloat: string -> Option<real>, sqrt: real -> real): (s: seq<real>)
    requires WellFormed(t) && LengthsMatch(|t.columns| - 1, weightsInput, impactsInput)
    requires Criteria(t).Some? && ParseWeights(Split(weightsInput, ','), toFloat).Some? && |t.rows| > 0
    ensures |s| == |t.rows|
  {
    Topsis.TopsisScores(Criteria(t).value, ParseWeights(Split(weightsInput, ','), toFloat).value,
                        ImpactTokens(impactsInput), sqrt)
  }

  /** `calculate_topsis` as a value: the failure it raises, or the frame with
      the score column and then the rank column assigned. Conversion of the
      criteria is checked first, then the weights, then the ideal points. */
  function Calculate(t: Table, weightsInput: string, impactsInput: string,
                     toFloat: string -> Option<real>, sqrt: real -> real): (r: Calculation)
    requires WellFormed(t) && LengthsMatch(|t.columns| - 1, weightsInput, impactsInput)
    ensures r == Fails(NonNumericData) <==> HasTextCriterion(t)
    ensures r == Fails(BadWeight) <==>
              !HasTextCriterion(t) && !WeightsConvert(Split(weightsInput, ','), toFloat)
    ensures r == Fails(NoAlternatives) <==>
              !HasTextCriterion(t) && WeightsConvert(Split(weightsInput, ','), toFloat) && |t.rows| == 0
    ensures r.Done? ==>
              Criteria(t).Some? && ParseWeights(Split(weightsInput, ','), toFloat).Some? && |t.rows| > 0
              && r.table == WithResults(t, FrameScores(t, weightsInput, impactsInput, toFloat, sqrt))
  {
    var data := Criteria(t);
    var w := ParseWeights(Split(weightsInput, ','), toFloat);
    if data.None? then Fails(NonNumericData)
    else if w.None? then Fails(BadWeight)
    else if |t.rows| == 0 then Fails(NoAlternatives)
    else Done(WithResults(t, FrameScores(t, weightsInput, impactsInput, toFloat, sqrt)))
  }

  /** The frame after `df['Topsis Score'] = scores` and then
      `df['Rank'] = df['Topsis Score'].rank(ascending=False).astype(int)`. */
  function WithResults(t: Table, scores: seq<real>): (r: Table)
    requires WellFormed(t) && |scores| == |t.rows|
    ensures WellFormed(r) && |r.rows| == |t.rows|
  {
    Assign(Assign(t, ScoreColumn, RealCells(scores)), RankColumn, IntCells(Ranking.Ranks(scores)))
  }

  /** The ideal-point loop: per criterion, the best and worst weighted value
      according to its impact token. With no rows the first `col.max()`
      fails. */
  method IdealPoints(m: Matrix, impacts: seq<string>) returns (r: Option<(seq<real>, seq<real>)>)
    requires Rectangular(m, |impacts|)
    ensures r.None? <==> |m| == 0 && |impacts| > 0
    ensures |m| > 0 ==> r == Some((Topsis.IdealBest(m, impacts), Topsis.IdealWorst(m, impacts)))
  {
    var best, worst := [], [];
    var i := 0;
    while i < |impacts|
      invariant 0 <= i <= |impacts|
      invariant i > 0 ==> |m| > 0
      invariant |m| > 0 ==> best == Topsis.IdealBest(m, impacts)[..i]
      invariant |m| > 0 ==> worst == Topsis.IdealWorst(m, impacts)[..i]
      invariant |m| == 0 ==> best == [] && worst == []
    {
      if |m| == 0 {
        return None;
      }
      var col := Column(m, i);
      if Topsis.IsBenefit(impacts[i]) {
        best, worst := best + [Max(col)], worst + [Min(col)];
      } else {
        best, worst := best + [Min(col)], worst + [Max(col)];
      }
      assert Topsis.IdealBest(m, impacts)[..i + 1] == Topsis.IdealBest(m, impacts)[..i] + [Topsis.IdealBest(m, impacts)[i]];
      assert Topsis.IdealWorst(m, impacts)[..i + 1] == Topsis.IdealWorst(m, impacts)[..i] + [Topsis.IdealWorst(m, impacts)[i]];
      i := i + 1;
    }
    if |m| > 0 {
      assert Topsis.IdealBest(m, impacts)[..i] == Topsis.IdealBest(m, impacts);
      assert Topsis.IdealWorst(m, impacts)[..i] == Topsis.IdealWorst(m, impacts);
    }
    r := Some((best, worst));
  }

  /** `rss[rss == 0] = 1`, in place. */
  method ReplaceZeros(a: array<real>)
    modifies a
    ensures a[..] == Topsis.Divisors(old(a[..]))
  {
    forall j | 0 <= j < a.Length && a[j] == 0.0 {
      a[j] := 1.0;
    }
  }

  /** `calculate_topsis(df, weights, impacts)`. On failure the frame is left as
      it was; otherwise it holds the frame `Calculate` describes. */
  method CalculateTopsis(df: Frame, weightsInput: string, impactsInput: string,
                         toFloat: string -> Option<real>, sqrt: real -> real)
    returns (failure: Option<Failure>)
    requires df.Valid() && LengthsMatch(|df.columns| - 1, weightsInput, impactsInput)
    modifies df
    ensures df.Valid()
    ensures Calculate(old(df.Value()), weightsInput, impactsInput, toFloat, sqrt).Fails? ==>
              failure == Some(Calculate(old(df.Value()), weightsInput, impactsInput, toFloat, sqrt).failure)
              && df.Value() == old(df.Value())
    ensures Calculate(old(df.Value()), weightsInput, impactsInput, toFloat, sqrt).Done? ==>
              failure == None
              && df.Value() == Calculate(old(df.Value()), weightsInput, impactsInput, toFloat, sqrt).table
  {
    var t := df.Value();
    var data := Criteria(t);
    if data.None? {
      return Some(NonNumericData);
    }
    var w := ParseWeights(Split(weightsInput, ','), toFloat);
    if w.None? {
      return Some(BadWeight);
    }
    var impacts := ImpactTokens(impactsInput);
    var n := |w.value|;
    var rss := Topsis.ColumnNorms(data.value, n, sqrt);
    var divisors := new real[n];
    forall j | 0 <= j < n {
      divisors[j] := rss[j];
    }
    assert divisors[..] == rss;
    ReplaceZeros(divisors);
    var normalized := Topsis.Normalize(data.value, divisors[..]);
    var weighted := Topsis.ApplyWeights(normalized, w.value);
    var ideals := IdealPoints(weighted, impacts);
    if ideals.None? {
      return Some(NoAlternatives);
    }
    var scores := Topsis.Scores(weighted, ideals.value.0, ideals.value.1, sqrt);
    assert scores == FrameScores(t, weightsInput, impactsInput, toFloat, sqrt);
    df.SetColumn(ScoreColumn, RealCells(scores));
    var written := df.GetColumn(ScoreColumn);
    GetAssignSame(t, ScoreColumn, RealCells(scores));
    var read := Reals(written);
    assert read == scores;
    df.SetColumn(RankColumn, IntCells(Ranking.Ranks(read)));
    assert df.Value() == WithResults(t, scores);
    failure := None;
  }

  /** The Submit handler: the pre-check, then the calculation. A length
      mismatch is reported with the three counts and computes nothing. */
  method Submit(df: Frame, weightsInput: string, impactsInput: string,
                toFloat: string -> Option<real>, sqrt: real -> real)
    returns (outcome: Outcome)
    requires df.Valid()
    modifies df
    ensures df.Valid()
    ensures outcome.LengthMismatch? <==> !LengthsMatch(|old(df.columns)| - 1, weightsInput, impactsInput)
    ensures outcome.LengthMismatch? ==>
              outcome == LengthMismatch(|Split(weightsInput, ',')|, |Split(impactsInput, ',')|, |old(df.columns)| - 1)
              && df.Value() == old(df.Value())
    ensures outcome.Failed? ==>
              LengthsMatch(|old(df.columns)| - 1, weightsInput, impactsInput)
              && Calculate(old(df.Value()), weightsInput, impactsInput, toFloat, sqrt) == Fails(outcome.failure)
              && df.Value() == old(df.Value())
    ensures outcome.Scored? ==>
              LengthsMatch(|old(df.columns)| - 1, weightsInput, impactsInput)
              && Calculate(old(df.Value()), weightsInput, impactsInput, toFloat, sqrt) == Done(df.Value())
  {
    var numCols := |df.columns| - 1;
    var wLen := |Split(weightsInput, ',')|;
    var iLen := |Split(impactsInput, ',')|;
    if wLen != numCols || iLen != numCols {
      return LengthMismatch(wLen, iLen, numCols);
    }
    var failure := CalculateTopsis(df, weightsInput, impactsInput, toFloat, sqrt);
    if failure.Some? {
      outcome := Failed(failure.value);
    } else {
      outcome := Scored;
    }
  }

  /** When the frame has neither result column yet, the result keeps every
      original column and row in order and appends one score and one rank per
      row as the last two columns. */
  lemma ResultShape(t: Table, scores: seq<real>)
    requires WellFormed(t) && |scores| == |t.rows|
    requires ScoreColumn !in t.columns && RankColumn !in t.columns
    ensures WithResults(t, scores).columns == t.columns + [ScoreColumn, RankColumn]
    ensures forall i :: 0 <= i < |t.rows| ==>
              WithResults(t, scores).rows[i] == t.rows[i] + [Real(scores[i]), Int(Ranking.Ranks(scores)[i])]
  {
    var t1 := Assign(t, ScoreColumn, RealCells(scores));
    AssignNewAppends(t, ScoreColumn, RealCells(scores));
    assert RankColumn !in t1.columns;
    AssignNewAppends(t1, RankColumn, IntCells(Ranking.Ranks(scores)));
  }

  /** Whatever columns the frame had, afterwards the score column holds the
      scores and the rank column holds their ranks, each in its row. */
  lemma ResultColumns(t: Table, scores: seq<real>)
    requires WellFormed(t) && |scores| == |t.rows|
    ensures ScoreColumn in WithResults(t, scores).columns && RankColumn in WithResults(t, scores).columns
    ensures Get(WithResults(t, scores), ScoreColumn) == RealCells(scores)
    ensures Get(WithResults(t, scores), RankColumn) == IntCells(Ranking.Ranks(scores))
  {
    var t1 := Assign(t, ScoreColumn, RealCells(scores));
    GetAssignSame(t, ScoreColumn, RealCells(scores));
    GetAssignOther(t1, RankColumn, IntCells(Ranking.Ranks(scores)), ScoreColumn);
    GetAssignSame(t1, RankColumn, IntCells(Ranking.Ranks(scores)));
  }

  /** Every other column keeps its position and its cells, whether or not
      the frame already had the result columns. */
  lemma ResultKeepsOthers(t: Table, scores: seq<real>, c: string)
    requires WellFormed(t) && |scores| == |t.rows|
    requires c in t.columns && c != ScoreColumn && c != RankColumn
    ensures c in WithResults(t, scores).columns
    ensures IndexOf(WithResults(t, scores).columns, c) == IndexOf(t.columns, c)
    ensures Get(WithResults(t, scores), c) == Get(t, c)
  {
    var t1 := Assign(t, ScoreColumn, RealCells(scores));
    GetAssignOther(t, ScoreColumn, RealCells(scores), c);
    GetAssignOther(t1, RankColumn, IntCells(Ranking.Ranks(scores)), c);
  }

  /** After a successful calculation the score column holds scores in [0, 1]
      and the rank column ranks in [1, number of rows]. */
  lemma {:induction false} ResultBounds(t: Table, weightsInput: string, impactsInput: string,
                                        toFloat: string -> Option<real>, sqrt: real -> real, i: nat)
    requires Roots.IsSqrt(sqrt)
    requires WellFormed(t) && LengthsMatch(|t.columns| - 1, weightsInput, impactsInput)
    requires Calculate(t, weightsInput, impactsInput, toFloat, sqrt).Done? && i < |t.rows|
    ensures ScoreColumn in Calculate(t, weightsInput, impactsInput, toFloat, sqrt).table.columns
    ensures RankColumn in Calculate(t, weightsInput, impactsInput, toFloat, sqrt).table.columns
    ensures Get(Calculate(t, weightsInput, impactsInput, toFloat, sqrt).table, ScoreColumn)[i].Real?
    ensures 0.0 <= Get(Calculate(t, weightsInput, impactsInput, toFloat, sqrt).table, ScoreColumn)[i].x <= 1.0
    ensures Get(Calculate(t, weightsInput, impactsInput, toFloat, sqrt).table, RankColumn)[i].Int?
    ensures 1 <= Get(Calculate(t, weightsInput, impactsInput, toFloat, sqrt).table, RankColumn)[i].n <= |t.rows|
  {
    var s := FrameScores(t, weightsInput, impactsInput, toFloat, sqrt);
    assert Calculate(t, weightsInput, impactsInput, toFloat, sqrt).table == WithResults(t, s);
    ResultColumns(t, s);
    Topsis.ScoresInUnitInterval(Criteria(t).value, ParseWeights(Split(weightsInput, ','), toFloat).value,
                                ImpactTokens(impactsInput), sqrt, i);
    Ranking.RankBounds(s, i);
  }

  /** Three alternatives with a single all-zero criterion: every score is 0
      and the three tied rows all get rank 2. */
  lemma AllZeroCriterion(sqrt: real -> real)
    requires Roots.IsSqrt(sqrt)
    ensures Topsis.TopsisScores([[0.0], [0.0], [0.0]], [1.0], ["+"], sqrt) == [0.0, 0.0, 0.0]
    ensures Ranking.Ranks(Topsis.TopsisScores([[0.0], [0.0], [0.0]], [1.0], ["+"], sqrt)) == [2, 2, 2]
  {
    var data: Matrix := [[0.0], [0.0], [0.0]];
    Topsis.IdenticalRowsScoreZero(data, [1.0], ["+"], sqrt);
    var s := Topsis.TopsisScores(data, [1.0], ["+"], sqrt);
    assert s == [0.0, 0.0, 0.0];
    Ranking.ThreeWayTie(0.0);
  }
}
