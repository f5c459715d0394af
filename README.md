# TOPSIS scoring engine, modelled in Dafny

This project models the scoring engine of the TOPSIS web app. TOPSIS is the
Technique for Order Preference by Similarity to Ideal Solution. The engine is
`calculate_topsis` in `web/app.py`, together with the length pre-check that
the Submit handler runs before calling it.

The engine takes three inputs:
- an uploaded frame: an identifier column followed by criterion columns;
- a comma-separated weight string;
- a comma-separated impact string.

It then runs these steps:
1. Divide every criterion column by its root-sum-of-squares. A zero divisor is replaced by 1.
2. Multiply each column by its weight.
3. Pick the ideal-best and ideal-worst value of every column. A `+` impact takes the maximum as best; any other token swaps the roles.
4. Measure each row's Euclidean distance to both ideal points.
5. Score each row as `dist_worst / (dist_best + dist_worst)`, or 0 when that total is 0.
6. Write the scores back into the frame as a `Topsis Score` column.
7. Rank the scores with pandas' default `rank(ascending=False)`, which averages tied positions, and truncate with `astype(int)`. Write the ranks as a `Rank` column.

The modules follow that structure:

- `Roots` (roots.dfy): the square root, taken as a parameter `sqrt`. It is constrained only by `IsSqrt` (exact non-negative root). The lemmas here state what any such function guarantees.
- `Vectors` (vectors.dfy): matrices as `seq<seq<real>>`, columns, sums of squares, differences, maximum and minimum.
- `Text` (text.dfy): Python's `str.split(',')` and `str.strip()`.
- `Topsis` (topsis.dfy): normalisation, weighting, ideal points, distances and closeness scores, as functions, with their properties as lemmas.
- `Ranking` (ranking.dfy): pandas' average-tie descending rank followed by truncation to `int`.
- `Frames` (frames.dfy): the part of a pandas frame the engine touches.
  - A `Table` value with `Get` and `Assign`. `Assign` is `df[name] = values`: it overwrites an existing column in place, or appends a new one.
  - A `Frame` class whose `SetColumn` updates the frame in place.
  - `Criteria`, the conversion of every column but the first to numbers.
- `App` (app.dfy): the request flow.
  - `LengthsMatch` is the pre-check.
  - `Calculate` is the value-level description of `calculate_topsis`, including its three failure modes.
  - `CalculateTopsis` is the imperative version over a `Frame`. It uses the ideal-point loop (`IdealPoints`) and the in-place zero replacement on an array (`ReplaceZeros`).
  - `Submit` is the handler.

Arithmetic is over exact reals. Conversion of a weight piece to a number (`float(w)`) is a parameter `toFloat` that returns `None` when Python would raise.

Ranking uses pandas' default tie method, which averages the tied positions, and `astype(int)` then truncates. This is not competition ranking. `n` fully tied rows get rank `(n + 1) / 2`, so three tied rows get rank 2, not 1. In general a row gets `g + (e + 1) / 2`, where `g` is the number of rows scoring strictly higher and `e` the number scoring the same, the row itself included. See `Ranking.RankClosedForm`, `Ranking.ThreeWayTie` and `App.AllZeroCriterion`.

## Model

| member | source | states |
|---|---|---|
| Text.Split | web/app.py:148-149 | `split(',')` yields exactly one piece more than there are commas, and no piece contains a comma |
| Text.JoinSplit | web/app.py:148-149 | splitting loses nothing: joining the pieces with the separator gives the input back |
| Text.SplitWithoutSeparator | web/app.py:17-18 | an input without a comma is a single piece, the input itself |
| Text.Strip | web/app.py:18 | `strip()` returns a contiguous slice of the token; everything removed on either side is whitespace, and a non-empty result neither starts nor ends with whitespace |
| Text.Count | web/app.py:148-149 | the comma count is at most the length and is zero exactly when there is no comma |
| App.LengthsMatch | web/app.py:147-151 | the pre-check passes exactly when the weight pieces and the impact pieces both number the criteria columns (`Submit` states the outcome of each branch) |
| App.FrameScores | web/app.py:15-46 | one score per row of the frame: the TOPSIS scores of the converted criteria under the parsed weights and stripped impact tokens |
| App.ParseWeights | web/app.py:17 | the weight list exists exactly when every piece converts; it then has one number per piece, in order |
| App.ImpactTokens | web/app.py:18 | one stripped token per comma-separated impact piece, in order |
| Frames.Criteria | web/app.py:15 | every column but the first as numbers; fails exactly when one of those cells is text; otherwise each entry is its cell's value |
| Frames.IndexOf | web/app.py:49-50 | the first position of a column label, or -1 exactly when the label is absent |
| Frames.Get | web/app.py:50 | `df[name]` has one cell per row, taken from that column |
| Frames.Assign | web/app.py:49-50 | assigning a column keeps the frame well formed and keeps the row count, and the label is present afterwards; an existing label is overwritten where it stands: the label list is unchanged, that column holds the values and every other cell is unchanged |
| Frames.GetAssignSame | web/app.py:49-50 | after `df[name] = values`, reading `df[name]` gives `values` |
| Frames.GetAssignOther | web/app.py:49-50 | assigning one column leaves every other column at its position with its cells |
| Frames.AssignNewAppends | web/app.py:49-50 | assigning a new label appends it as the last column and appends each value to its row |
| Frames.Frame.GetColumn | web/app.py:50 | reading a column of the mutable frame yields `Get` of its current contents |
| Frames.Frame.SetColumn | web/app.py:49-50 | the frame's new contents are `Assign` of its old contents |
| Vectors.SumOfNonNegative | web/app.py:20 | a sum of non-negative entries is non-negative and is zero exactly when every entry is zero |
| Vectors.SumSquaresZero | web/app.py:20 | a sum of squares is zero exactly when every entry is zero |
| Vectors.SumSquaresScale | web/app.py:20 | multiplying every entry by `c` multiplies the sum of squares by `c * c` |
| Vectors.Max | web/app.py:33 | `col.max()` is an entry of the column and no entry exceeds it |
| Vectors.Min | web/app.py:34 | `col.min()` is an entry of the column and no entry is below it |
| Frames.Reals | web/app.py:50 | reading back a column of real cells gives one number per cell, the cell's own |
| Topsis.ColumnNorms | web/app.py:20 | one root-sum-of-squares per criterion column; its values are characterised by `Topsis.ColumnNormZero` and `Topsis.ScaledColumnNorm` |
| Topsis.Normalize | web/app.py:23 | `data / rss`: one row per alternative and one entry per criterion; its entries are characterised by `Topsis.WeightedEntry` |
| Topsis.ApplyWeights | web/app.py:25 | `normalized * w_list`: one row per alternative and one entry per weight; entries characterised by `Topsis.WeightedEntry` |
| Topsis.Weighted | web/app.py:20-25 | the weighted normalised matrix has the shape of the data; `Topsis.WeightedEntry` gives each entry, `Topsis.ScaleInvariant` its invariance under column scaling |
| Topsis.IsBenefit | web/app.py:32 | a criterion is a benefit exactly when its stripped token is `+`; every other token is a cost (characterised through `Topsis.IdealBounds`) |
| Topsis.IdealBest | web/app.py:30-37 | one ideal-best value per criterion; `Topsis.IdealBounds` states it is the column maximum for `+` and the minimum otherwise |
| Topsis.IdealWorst | web/app.py:30-37 | one ideal-worst value per criterion; `Topsis.IdealBounds` states it is the column minimum for `+` and the maximum otherwise |
| Topsis.Distance | web/app.py:42-43 | the Euclidean distance of a row to an ideal point; `Topsis.DistanceZero` states it is non-negative and zero exactly at the ideal point |
| Topsis.Distances | web/app.py:42-43 | one distance per alternative |
| Topsis.Scores | web/app.py:45-46 | one closeness score per alternative, each given by `Topsis.Closeness` |
| Topsis.TopsisScores | web/app.py:20-46 | one TOPSIS score per alternative; bounds and invariances in `Topsis.ScoresInUnitInterval`, `Topsis.FlippedScores`, `Topsis.ScaleInvariantScores` |
| Topsis.ColumnNormZero | web/app.py:20 | a column's root-sum-of-squares is non-negative and is zero exactly when the column is all zero |
| Topsis.Divisors | web/app.py:22 | no divisor is zero; a non-zero norm is kept and a zero norm becomes 1 |
| App.ReplaceZeros | web/app.py:22 | the array after `rss[rss == 0] = 1` is the divisor sequence of its old contents |
| Topsis.WeightedEntry | web/app.py:20-25 | a weighted entry is `value / rss_j * weight_j` with `rss_j > 0`, or 0 when the column's sum of squares is 0 |
| Topsis.ZeroColumnWeighted | web/app.py:20-25 | an all-zero column stays all zero after normalising and weighting |
| Topsis.ScaleInvariant | web/app.py:20-25 | multiplying one criterion column by a positive constant leaves the weighted matrix unchanged |
| Topsis.ScaledColumnNorm | web/app.py:20 | scaling a column by `c > 0` scales its root-sum-of-squares by `c` |
| Topsis.IdealBounds | web/app.py:30-37 | for a `+` column every entry lies between the ideal worst and the ideal best; for any other token the roles swap; both are attained by some row |
| Topsis.FlippedIdeals | web/app.py:32-37 | reversing every impact swaps the two ideal points |
| App.IdealPoints | web/app.py:27-40 | the loop's two lists are the ideal-best and ideal-worst points; with no rows and at least one criterion it fails, like `col.max()` on an empty column |
| Topsis.DistanceZero | web/app.py:42-43 | a distance is non-negative and is zero exactly when the row equals the ideal point |
| Topsis.Closeness | web/app.py:45-46 | for a non-zero total the score times the total is the worst-distance; for a zero total it is 0; with non-negative distances it lies in [0, 1] |
| Topsis.ClosenessSwap | web/app.py:45-46 | exchanging the two distances turns a score `s` into `1 - s` |
| Topsis.ScoresInUnitInterval | web/app.py:20-46 | every TOPSIS score lies in [0, 1] |
| Topsis.IdenticalRowsScoreZero | web/app.py:42-46 | when every alternative is identical, every score is 0 |
| Topsis.IdenticalRowsIdeals | web/app.py:30-37 | when every row is the same, both ideal points equal that row |
| Topsis.FlippedScores | web/app.py:30-46 | reversing every impact turns every score `s` into `1 - s`, unless both distances are 0, when both scores are 0 |
| Topsis.ScaleInvariantScores | web/app.py:20-46 | multiplying one criterion column by a positive constant changes no score |
| Ranking.Ranks | web/app.py:50 | one rank per score; its values are characterised by `Ranking.RankClosedForm`, `Ranking.RankBounds` and `Ranking.RankOrder` |
| Ranking.Truncate | web/app.py:50 | `astype(int)` truncates toward zero |
| Ranking.RankClosedForm | web/app.py:50 | a row's rank is (rows scoring higher) + (rows tied with it, itself included, plus 1) div 2 |
| Ranking.RankBounds | web/app.py:50 | every rank lies in [1, number of rows] |
| Ranking.RankOrder | web/app.py:50 | equal scores share a rank; a strictly higher score gets a strictly smaller rank |
| Ranking.AllTiedRank | web/app.py:50 | when all `n` rows tie, every rank is `(n + 1) div 2` |
| Ranking.ThreeWayTie | web/app.py:50 | three tied rows all get rank 2 |
| Ranking.TieBehindLeader | web/app.py:50 | two rows tied behind a better one get rank 2 (average 2.5, truncated) |
| App.Calculate | web/app.py:13-52 | the calculation fails with non-numeric data exactly when a criteria cell is text, with a bad weight exactly when the data converts but a weight piece does not, and with no alternatives exactly when both convert but there are no rows; otherwise the result is the frame with the TOPSIS scores of the converted data and their ranks written in |
| App.CalculateTopsis | web/app.py:13-52 | on failure the frame is unchanged; otherwise the frame becomes the table `Calculate` describes: score column assigned, then the rank of the scores read back from it |
| App.WithResults | web/app.py:49-50 | writing the score and rank columns keeps the frame well formed and keeps its row count |
| App.ResultKeepsOthers | web/app.py:49-50 | every column other than the two result columns keeps its position and its cells, whether or not the result columns already existed |
| App.ResultShape | web/app.py:49-52 | with new column names, the result keeps every original column and row in order and appends one score and one rank per row as the last two columns |
| App.ResultColumns | web/app.py:49-50 | whatever columns the frame had, the score column then holds the scores and the rank column their ranks, row by row |
| App.ResultBounds | web/app.py:20-50 | after a successful calculation every score cell holds a number in [0, 1] and every rank cell an integer in [1, number of rows] |
| App.AllZeroCriterion | web/app.py:20-50 | three rows with one all-zero criterion all score 0 and all get rank 2 |
| App.Submit | web/app.py:147-154 | a length mismatch reports the two piece counts and the criteria count and leaves the frame alone; otherwise the outcome and the frame are those of `calculate_topsis` |

## Left out

- `send_email` (web/app.py:55-89) is not part of this model: it is SMTP networking, a temporary file and MIME encoding.
- The Streamlit page (web/app.py:94-167) is not part of this model: page configuration, styling, widgets, the spinner and message display. `Submit` returns the message's content as an `Outcome`.
- `pd.read_csv` (web/app.py:145) is not modelled. The frame arrives already parsed into text, real and integer cells.
- The generic exception handler (web/app.py:164-165) is modelled only through the failure values of `Calculate` and `Submit`; the message text is not.
- `float(w)` on one weight piece is the parameter `toFloat`. Python's float-literal grammar is not modelled.
- Frames.Criteria: a text cell always counts as non-numeric, and there is no boolean cell. So two source behaviours are not captured. Text that `float()` accepts but pandas' parser leaves as text (such as `"1_000"`) converts in the source but fails in the model. A boolean column converts to 0/1 under `astype(float)`.
- IEEE-754 rounding, NaN and infinities are not modelled: all arithmetic is on exact reals, and `np.sqrt` is an abstract exact square root. Missing CSV cells become NaN in pandas and are therefore outside the model.
- App.CalculateTopsis: requires the pre-check to have passed, because its only caller ensures it. Numpy broadcasting of a weight list whose length differs from the column count is therefore not modelled.
- Frames.Frame: a frame holds only labels and rows of cells. Index labels, dtypes and aliasing of the frame object by other names are not modelled.
