/** Tables indexed by a calendar, and the two whole-table pandas operations the
    pipeline applies to them: `ffill()` and `dropna()`. */
module Frame {
  import opened Series

  /** A column as pandas holds it: one optional value per calendar row. */
  type Column = seq<Option<real>>

  /** A table with possibly missing cells: a date index and its columns. */
  datatype Table = Table(dates: seq<Date>, cols: seq<Column>)

  /** A table without missing cells: what remains after `dropna()`. */
  datatype Dataset = Dataset(dates: seq<Date>, cols: seq<seq<real>>)

  /** Every column has one cell per date. */
  predicate Shaped(t: Table)
  {
    forall c :: 0 <= c < |t.cols| ==> |t.cols[c]| == |t.dates|
  }

  predicate Rectangular(ds: Dataset)
  {
    forall c :: 0 <= c < |ds.cols| ==> |ds.cols[c]| == |ds.dates|
  }

  /** Once a cell of the column is defined, every later cell is defined too. */
  predicate Settled(col: Column)
  {
    forall i, j :: 0 <= i <= j < |col| && col[i].Some? ==> col[j].Some?
  }

  /** Some cell at or before row `i` is defined. */
  ghost predicate ObservedBy(col: Column, i: nat)
  {
    exists j :: 0 <= j <= i && j < |col| && col[j].Some?
  }

  /** `v` is what forward filling puts in row `i`: the last defined cell at or
      before `i`, or nothing if every cell up to `i` is missing. */
  ghost predicate CarriedAt(col: Column, i: nat, v: Option<real>)
    requires i < |col|
  {
    if v.None? then forall j :: 0 <= j <= i ==> col[j].None?
    else exists j :: 0 <= j <= i && col[j] == v && forall m :: j < m <= i ==> col[m].None?
  }

  /** `Series.ffill()` on one column: each missing cell takes the value last
      seen above it. */
  function FillForward(col: Column): (r: Column)
    ensures |r| == |col|
    ensures forall i :: 0 <= i < |col| ==> (r[i].Some? <==> ObservedBy(col, i))
    ensures Settled(r)
  {
    if col == [] then []
    else
      var p := FillForward(col[..|col| - 1]);
      var last := col[|col| - 1];
      p + [if last.Some? || p == [] then last else p[|p| - 1]]
  }

  /** Every filled cell holds the last defined cell at or before it. */
  lemma {:induction false} FillForwardCarries(col: Column)
    ensures forall i :: 0 <= i < |col| ==> CarriedAt(col, i, FillForward(col)[i])
  {
    if col != [] {
      var n := |col|;
      var front := col[..n - 1];
      FillForwardCarries(front);
      var p := FillForward(front);
      var r := FillForward(col);
      assert r == p + [if col[n - 1].Some? || p == [] then col[n - 1] else p[|p| - 1]];
      forall i | 0 <= i < n
        ensures CarriedAt(col, i, r[i])
      {
        if i < n - 1 {
          assert r[i] == p[i];
          assert CarriedAt(front, i, p[i]);
        } else if col[n - 1].None? && p != [] {
          assert r[i] == p[n - 2];
          assert CarriedAt(front, n - 2, p[n - 2]);
        }
      }
    }
  }

  /** `DataFrame.ffill()`: every column filled forward on its own. */
  function FillTable(t: Table): (r: Table)
    requires Shaped(t)
    ensures Shaped(r) && r.dates == t.dates && |r.cols| == |t.cols|
    ensures forall c :: 0 <= c < |t.cols| ==> r.cols[c] == FillForward(t.cols[c])
  {
    Table(t.dates, seq(|t.cols|, c requires 0 <= c < |t.cols| => FillForward(t.cols[c])))
  }

  /** Row `i` has a value in every column. */
  predicate RowComplete(t: Table, i: nat)
    requires Shaped(t) && i < |t.dates|
  {
    forall c :: 0 <= c < |t.cols| ==> t.cols[c][i].Some?
  }

  /** After `ffill()` a row is complete exactly when every column has had a
      value at or above it. */
  lemma FilledRowComplete(t: Table, i: nat)
    requires Shaped(t) && i < |t.dates|
    ensures RowComplete(FillTable(t), i) <==> forall c :: 0 <= c < |t.cols| ==> ObservedBy(t.cols[c], i)
  {
  }

  /** Which rows are complete, row by row. */
  function CompleteMask(t: Table): (mask: seq<bool>)
    requires Shaped(t)
    ensures |mask| == |t.dates|
    ensures forall i :: 0 <= i < |t.dates| ==> (mask[i] <==> RowComplete(t, i))
  {
    seq(|t.dates|, i requires 0 <= i < |t.dates| => RowComplete(t, i))
  }

  /** The complete rows, in order. */
  function CompleteRows(t: Table): (rows: seq<nat>)
    requires Shaped(t)
    ensures forall k :: 0 <= k < |rows| ==> rows[k] < |t.dates| && RowComplete(t, rows[k])
    ensures forall k, l :: 0 <= k < l < |rows| ==> rows[k] < rows[l]
    ensures forall i :: 0 <= i < |t.dates| && RowComplete(t, i) ==> i in rows
  {
    Where(CompleteMask(t))
  }

  /** The values of `col` at the given rows, all of which are defined. */
  function ValuesAt(col: Column, rows: seq<nat>): (vs: seq<real>)
    requires forall k :: 0 <= k < |rows| ==> rows[k] < |col| && col[rows[k]].Some?
    ensures |vs| == |rows|
    ensures forall k :: 0 <= k < |rows| ==> col[rows[k]] == Some(vs[k])
  {
    seq(|rows|, k requires 0 <= k < |rows| => col[rows[k]].value)
  }

  /** The dates at the given rows. */
  function DatesAt(dates: seq<Date>, rows: seq<nat>): (ds: seq<Date>)
    requires forall k :: 0 <= k < |rows| ==> rows[k] < |dates|
    ensures |ds| == |rows|
    ensures forall k :: 0 <= k < |rows| ==> ds[k] == dates[rows[k]]
  {
    seq(|rows|, k requires 0 <= k < |rows| => dates[rows[k]])
  }

  /** `DataFrame.dropna()`: keep exactly the complete rows (`CompleteRows`),
      in calendar order, with their values. */
  function DropIncomplete(t: Table): (ds: Dataset)
    requires Shaped(t)
    ensures Rectangular(ds) && |ds.cols| == |t.cols|
    ensures Increasing(t.dates) ==> Increasing(ds.dates)
    ensures var rows := CompleteRows(t);
      && |ds.dates| == |rows|
      && (forall k :: 0 <= k < |rows| ==> ds.dates[k] == t.dates[rows[k]])
      && (forall c, k :: 0 <= c < |t.cols| && 0 <= k < |rows| ==> t.cols[c][rows[k]] == Some(ds.cols[c][k]))
  {
    var rows := CompleteRows(t);
    Dataset(DatesAt(t.dates, rows),
            seq(|t.cols|, c requires 0 <= c < |t.cols| => ValuesAt(t.cols[c], rows)))
  }

  /** Filling forward a column that is already settled changes nothing. */
  lemma FillForwardSettledIdentity(col: Column)
    requires Settled(col)
    ensures FillForward(col) == col
  {
    var r := FillForward(col);
    forall i | 0 <= i < |col|
      ensures r[i] == col[i]
    {
      FillForwardCarries(col);
      if col[i].Some? {
        assert ObservedBy(col, i);
        assert CarriedAt(col, i, r[i]);
        var j :| 0 <= j <= i && col[j] == r[i] && forall m :: j < m <= i ==> col[m].None?;
        assert j == i;
      }
    }
  }

  /** Filling forward twice is filling forward once. */
  lemma FillForwardIdempotent(col: Column)
    ensures FillForward(FillForward(col)) == FillForward(col)
  {
    FillForwardSettledIdentity(FillForward(col));
  }

  /** The first complete row at or after `i`, or `|t.dates|` if there is none. */
  function FirstComplete(t: Table, i: nat): (s: nat)
    requires Shaped(t) && i <= |t.dates|
    ensures i <= s <= |t.dates|
    ensures forall j :: i <= j < s ==> !RowComplete(t, j)
    ensures s < |t.dates| ==> RowComplete(t, s)
    decreases |t.dates| - i
  {
    if i == |t.dates| || RowComplete(t, i) then i else FirstComplete(t, i + 1)
  }

  /** In a table of settled columns a row is complete exactly when it is at
      or after the first complete row. */
  lemma CompleteFromFirst(t: Table, i: nat)
    requires Shaped(t) && i < |t.dates|
    requires forall c :: 0 <= c < |t.cols| ==> Settled(t.cols[c])
    ensures RowComplete(t, i) <==> FirstComplete(t, 0) <= i
  {
    var s := FirstComplete(t, 0);
    if s <= i {
      assert RowComplete(t, s);
      forall c | 0 <= c < |t.cols|
        ensures t.cols[c][i].Some?
      {
        assert Settled(t.cols[c]) && t.cols[c][s].Some?;
      }
    }
  }

  /** In a table of settled columns the complete rows are exactly the rows
      from the first complete one to the end. */
  lemma CompleteRowsOfSettled(t: Table)
    requires Shaped(t)
    requires forall c :: 0 <= c < |t.cols| ==> Settled(t.cols[c])
    ensures |CompleteRows(t)| == |t.dates| - FirstComplete(t, 0)
    ensures forall k :: 0 <= k < |CompleteRows(t)| ==> CompleteRows(t)[k] == FirstComplete(t, 0) + k
  {
    var s := FirstComplete(t, 0);
    forall i | 0 <= i < |t.dates|
      ensures CompleteMask(t)[i] <==> s <= i
    {
      CompleteFromFirst(t, i);
    }
    WhereFrom(CompleteMask(t), s);
  }

  /** After `dropna()` on a table of settled columns the dates left are a
      contiguous suffix of the calendar, starting at the first complete row. */
  lemma DropIncompleteSuffix(t: Table)
    requires Shaped(t)
    requires forall c :: 0 <= c < |t.cols| ==> Settled(t.cols[c])
    ensures DropIncomplete(t).dates == t.dates[FirstComplete(t, 0)..]
  {
    var rows := CompleteRows(t);
    CompleteRowsOfSettled(t);
    assert DropIncomplete(t).dates == DatesAt(t.dates, rows);
    assert DatesAt(t.dates, rows) == t.dates[FirstComplete(t, 0)..];
  }

  /** Every cell of column `c` on that suffix is kept unchanged. */
  lemma DropIncompleteSuffixCells(t: Table, c: nat)
    requires Shaped(t) && c < |t.cols|
    requires forall c :: 0 <= c < |t.cols| ==> Settled(t.cols[c])
    ensures |DropIncomplete(t).dates| == |t.dates| - FirstComplete(t, 0)
    ensures forall k :: 0 <= k < |DropIncomplete(t).dates| ==>
      t.cols[c][FirstComplete(t, 0) + k] == Some(DropIncomplete(t).cols[c][k])
  {
    var rows := CompleteRows(t);
    CompleteRowsOfSettled(t);
    assert DropIncomplete(t).cols[c] == ValuesAt(t.cols[c], rows);
  }
}
