/** The part of a pandas data frame the engine touches: labelled columns over
    rows of cells, reading the criteria block as numbers, reading one column
    and assigning one column (`df[name] = values`). */
module Frames {
  import opened Vectors

  /** One cell of a frame as `read_csv` produces it. */
  datatype Cell = Text(text: string) | Real(x: real) | Int(n: int)

  /** A frame as a value: column labels and rows of cells. */
  datatype Table = Table(columns: seq<string>, rows: seq<seq<Cell>>)

  /** Column labels are distinct and every row has one cell per column. */
  predicate WellFormed(t: Table) {
    (forall i :: 0 <= i < |t.rows| ==> |t.rows[i]| == |t.columns|)
    && (forall a, b :: 0 <= a < b < |t.columns| ==> t.columns[a] != t.columns[b])
  }

  /** The position of `name` among the labels, or -1 when it is absent. */
  function IndexOf(columns: seq<string>, name: string): (k: int)
    ensures -1 <= k < |columns|
    ensures k == -1 <==> name !in columns
    ensures 0 <= k ==> columns[k] == name && forall a :: 0 <= a < k ==> columns[a] != name
  {
    if |columns| == 0 then -1
    else if columns[0] == name then 0
    else
      var k := IndexOf(columns[1..], name);
      if k == -1 then -1 else k + 1
  }

  /** The cells of column `name`, top to bottom (`df[name]`). */
  function Get(t: Table, name: string): (c: seq<Cell>)
    requires WellFormed(t) && name in t.columns
    ensures |c| == |t.rows|
    ensures forall i :: 0 <= i < |t.rows| ==> c[i] == t.rows[i][IndexOf(t.columns, name)]
  {
    var k := IndexOf(t.columns, name);
    seq(|t.rows|, i requires 0 <= i < |t.rows| => t.rows[i][k])
  }

  /** `df[name] = values`: the column `name` is overwritten in place when the
      frame has it, and appended as the last column otherwise. */
  function Assign(t: Table, name: string, values: seq<Cell>): (r: Table)
    requires WellFormed(t) && |values| == |t.rows|
    ensures WellFormed(r) && |r.rows| == |t.rows| && name in r.columns
    ensures name in t.columns ==> r.columns == t.columns
    ensures name in t.columns ==> forall i :: 0 <= i < |t.rows| ==>
              r.rows[i][IndexOf(t.columns, name)] == values[i]
    ensures name in t.columns ==> forall i, a :: 0 <= i < |t.rows| && 0 <= a < |t.columns| && a != IndexOf(t.columns, name) ==>
              r.rows[i][a] == t.rows[i][a]
  {
    var k := IndexOf(t.columns, name);
    if k == -1 then
      Table(t.columns + [name], seq(|t.rows|, i requires 0 <= i < |t.rows| => t.rows[i] + [values[i]]))
    else
      Table(t.columns, seq(|t.rows|, i requires 0 <= i < |t.rows| => t.rows[i][k := values[i]]))
  }

  /** After the assignment the column holds the assigned values. */
  lemma {:induction false} GetAssignSame(t: Table, name: string, values: seq<Cell>)
    requires WellFormed(t) && |values| == |t.rows|
    ensures Get(Assign(t, name, values), name) == values
  {
    var r := Assign(t, name, values);
    if name !in t.columns {
      assert IndexOf(r.columns, name) == |t.columns|;
    }
  }

  /** The assignment changes no other column and keeps the row order. */
  lemma {:induction false} GetAssignOther(t: Table, name: string, values: seq<Cell>, other: string)
    requires WellFormed(t) && |values| == |t.rows|
    requires other in t.columns && other != name
    ensures other in Assign(t, name, values).columns
    ensures IndexOf(Assign(t, name, values).columns, other) == IndexOf(t.columns, other)
    ensures Get(Assign(t, name, values), other) == Get(t, other)
  {
    var r := Assign(t, name, values);
    var k := IndexOf(t.columns, other);
    assert r.columns[k] == other;
    assert IndexOf(r.columns, other) == k;
  }

  /** Assigning a new column keeps every existing column and cell and appends
      the values as the last column. */
  lemma {:induction false} AssignNewAppends(t: Table, name: string, values: seq<Cell>)
    requires WellFormed(t) && |values| == |t.rows| && name !in t.columns
    ensures Assign(t, name, values).columns == t.columns + [name]
    ensures forall i :: 0 <= i < |t.rows| ==> Assign(t, name, values).rows[i] == t.rows[i] + [values[i]]
  {
  }

  /** The number a cell converts to under `astype(float)`, if any. */
  function CellValue(c: Cell): (v: Option<real>)
    ensures v.None? <==> c.Text?
  {
    match c
    case Real(x) => Some(x)
    case Int(n) => Some(n as real)
    case Text(_) => None
  }

  /** Some cell outside the identifier column holds text. */
  predicate HasTextCriterion(t: Table)
    requires WellFormed(t)
  {
    exists i, j :: 0 <= i < |t.rows| && 1 <= j < |t.columns| && t.rows[i][j].Text?
  }

  /** The numbers of a column whose cells all hold reals. */
  function Reals(cells: seq<Cell>): (s: seq<real>)
    requires forall i :: 0 <= i < |cells| ==> cells[i].Real?
    ensures |s| == |cells| && forall i :: 0 <= i < |cells| ==> cells[i] == Real(s[i])
  {
    seq(|cells|, i requires 0 <= i < |cells| => cells[i].x)
  }

  /** The criteria block `df.iloc[:, 1:].values.astype(float)`: every column but
      the first, as numbers; it fails exactly when one of its cells is text. */
  function Criteria(t: Table): (m: Option<Matrix>)
    requires WellFormed(t) && |t.columns| >= 1
    ensures m.None? <==> HasTextCriterion(t)
    ensures m.Some? ==> |m.value| == |t.rows| && Rectangular(m.value, |t.columns| - 1)
    ensures m.Some? ==> forall i, j :: 0 <= i < |t.rows| && 1 <= j < |t.columns| ==>
              CellValue(t.rows[i][j]) == Some(m.value[i][j - 1])
  {
    if HasTextCriterion(t) then None
    else
      Some(seq(|t.rows|, i requires 0 <= i < |t.rows| =>
        seq(|t.columns| - 1, j requires 0 <= j < |t.columns| - 1 => CellValue(t.rows[i][j + 1]).value)))
  }

  datatype Option<T> = None | Some(value: T)

  /** A pandas data frame that the engine updates in place. */
  class Frame {
    var columns: seq<string>
    var rows: seq<seq<Cell>>

    /** The frame's current contents. */
    function Value(): Table
      reads this
    {
      Table(columns, rows)
    }

    predicate Valid()
      reads this
    {
      WellFormed(Value())
    }

    constructor (t: Table)
      requires WellFormed(t)
      ensures Valid() && Value() == t
    {
      columns := t.columns;
      rows := t.rows;
    }

    /** `df[name]`. */
    method GetColumn(name: string) returns (cells: seq<Cell>)
      requires Valid() && name in columns
      ensures cells == Get(Value(), name)
    {
      var k := 0;
      while columns[k] != name
        invariant 0 <= k <= IndexOf(columns, name)
        decreases IndexOf(columns, name) - k
      {
        k := k + 1;
      }
      var r := rows;
      cells := seq(|r|, i requires 0 <= i < |r| => r[i][k]);
    }

    /** `df[name] = values`. */
    method SetColumn(name: string, values: seq<Cell>)
      requires Valid() && |values| == |rows|
      modifies this
      ensures Valid() && Value() == Assign(old(Value()), name, values)
    {
      var r := Assign(Value(), name, values);
      columns, rows := r.columns, r.rows;
    }
  }
}
