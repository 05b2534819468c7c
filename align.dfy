/** Re-sampling a raw central-bank series onto the market calendar with
    `reindex(calendar, method='ffill')`, and the unit scaling applied to it. */
module Align {
  import opened Series
  import opened Frame
  import opened Indexer

  /** `v` is the last observation carried forward to date `d`: the value of
      the observation with the latest date at or before `d`, or nothing when
      every observation lies after `d`. */
  ghost predicate IsLatestAtOrBefore(obs: seq<Obs>, d: Date, v: Option<real>)
  {
    if v.None? then forall k :: 0 <= k < |obs| ==> obs[k].0 > d
    else exists k :: 0 <= k < |obs| && obs[k].0 <= d && obs[k].1 == v.value &&
                     forall j :: 0 <= j < |obs| && obs[j].0 <= d ==> obs[j].0 <= obs[k].0
  }

  /** The date index of a raw series. */
  function Keys(obs: seq<Obs>): (ks: seq<Date>)
    ensures |ks| == |obs|
    ensures forall i :: 0 <= i < |obs| ==> ks[i] == obs[i].0
    ensures IsSeries(obs) ==> Increasing(ks)
  {
    seq(|obs|, i requires 0 <= i < |obs| => obs[i].0)
  }

  /** The value `reindex(method='ffill')` gives a series at one date: the
      value at the series' pad position for that date. */
  function LastAtOrBefore(obs: seq<Obs>, d: Date): (v: Option<real>)
    requires IsSeries(obs)
    ensures IsLatestAtOrBefore(obs, d, v)
  {
    var p := PadIndex(Keys(obs), d);
    if p == -1 then None else Some(obs[p].1)
  }

  /** `series.reindex(calendar, method='ffill')`. */
  function Reindex(obs: seq<Obs>, cal: seq<Date>): (col: Column)
    requires IsSeries(obs)
    ensures |col| == |cal|
    ensures forall i :: 0 <= i < |cal| ==> IsLatestAtOrBefore(obs, cal[i], col[i])
  {
    seq(|cal|, i requires 0 <= i < |cal| => LastAtOrBefore(obs, cal[i]))
  }

  /** On an increasing calendar the re-sampled column is undefined exactly on
      the dates before the first observation, and defined from then on. */
  lemma ReindexSettled(obs: seq<Obs>, cal: seq<Date>)
    requires IsSeries(obs) && Increasing(cal)
    ensures Settled(Reindex(obs, cal))
  {
    var col := Reindex(obs, cal);
    forall i, j | 0 <= i <= j < |col| && col[i].Some?
      ensures col[j].Some?
    {
      assert IsLatestAtOrBefore(obs, cal[i], col[i]);
      var k :| 0 <= k < |obs| && obs[k].0 <= cal[i];
      assert i == j || cal[i] < cal[j];
      assert IsLatestAtOrBefore(obs, cal[j], col[j]);
    }
  }

  /** On an increasing calendar the re-sampled column has had a value by row
      `i` exactly when the series has an observation dated at or before the
      calendar date of row `i`. */
  lemma ReindexObservedBy(obs: seq<Obs>, cal: seq<Date>, i: nat)
    requires IsSeries(obs) && Increasing(cal) && i < |cal|
    ensures ObservedBy(Reindex(obs, cal), i) <==> exists k :: 0 <= k < |obs| && obs[k].0 <= cal[i]
  {
    var col := Reindex(obs, cal);
    if ObservedBy(col, i) {
      var j :| 0 <= j <= i && j < |col| && col[j].Some?;
      assert IsLatestAtOrBefore(obs, cal[j], col[j]);
      var k :| 0 <= k < |obs| && obs[k].0 <= cal[j];
      assert j == i || cal[j] < cal[i];
    }
    if exists k :: 0 <= k < |obs| && obs[k].0 <= cal[i] {
      assert IsLatestAtOrBefore(obs, cal[i], col[i]);
      assert col[i].Some?;
    }
  }

  /** Hence the second `ffill()` of line 69 leaves a re-sampled column unchanged. */
  lemma ReindexFillForward(obs: seq<Obs>, cal: seq<Date>)
    requires IsSeries(obs) && Increasing(cal)
    ensures FillForward(Reindex(obs, cal)) == Reindex(obs, cal)
  {
    ReindexSettled(obs, cal);
    FillForwardSettledIdentity(Reindex(obs, cal));
  }

  /** A series with `f` applied to every value (a unit conversion such as
      `x => x / 1000.0`). */
  function MapSeries(obs: seq<Obs>, f: real -> real): (r: seq<Obs>)
    ensures |r| == |obs|
    ensures forall i :: 0 <= i < |obs| ==> r[i].0 == obs[i].0 && r[i].1 == f(obs[i].1)
    ensures IsSeries(obs) ==> IsSeries(r)
  {
    seq(|obs|, i requires 0 <= i < |obs| => (obs[i].0, f(obs[i].1)))
  }

  /** A column with `f` applied to every defined cell. */
  function MapColumn(col: Column, f: real -> real): (r: Column)
    ensures |r| == |col|
    ensures forall i :: 0 <= i < |col| ==> r[i].Some? == col[i].Some?
    ensures forall i :: 0 <= i < |col| && col[i].Some? ==> r[i].value == f(col[i].value)
  {
    seq(|col|, i requires 0 <= i < |col| => if col[i].Some? then Some(f(col[i].value)) else None)
  }

  /** Carrying forward commutes with a value-wise transform at a single date. */
  lemma LastAtOrBeforeMap(obs: seq<Obs>, d: Date, f: real -> real)
    requires IsSeries(obs)
    ensures var v := LastAtOrBefore(obs, d);
      LastAtOrBefore(MapSeries(obs, f), d) == if v.Some? then Some(f(v.value)) else None
  {
    var mapped := MapSeries(obs, f);
    assert Keys(mapped) == Keys(obs);
  }

  /** Normalising a series and then aligning it gives the aligned series,
      normalised: a conversion such as WALCL's division by 1000 may be applied
      on either side of the re-sampling. */
  lemma ReindexMap(obs: seq<Obs>, cal: seq<Date>, f: real -> real)
    requires IsSeries(obs)
    ensures Reindex(MapSeries(obs, f), cal) == MapColumn(Reindex(obs, cal), f)
  {
    var lhs := Reindex(MapSeries(obs, f), cal);
    var rhs := MapColumn(Reindex(obs, cal), f);
    forall i | 0 <= i < |cal|
      ensures lhs[i] == rhs[i]
    {
      LastAtOrBeforeMap(obs, cal[i], f);
      assert lhs[i] == LastAtOrBefore(MapSeries(obs, f), cal[i]);
      assert Reindex(obs, cal)[i] == LastAtOrBefore(obs, cal[i]);
    }
  }

  /** The rows `rows` of a column that holds the latest observation at each
      calendar date, copied out with their dates, still do. */
  lemma SelectedLatest(obs: seq<Obs>, cal: seq<Date>, col: Column, rows: seq<nat>, dates: seq<Date>, vals: seq<real>)
    requires |col| == |cal| && |dates| == |rows| && |vals| == |rows|
    requires forall i :: 0 <= i < |cal| ==> IsLatestAtOrBefore(obs, cal[i], col[i])
    requires forall k :: 0 <= k < |rows| ==> rows[k] < |cal| && dates[k] == cal[rows[k]] && col[rows[k]] == Some(vals[k])
    ensures forall k :: 0 <= k < |dates| ==> IsLatestAtOrBefore(obs, dates[k], Some(vals[k]))
  {
    forall k | 0 <= k < |dates|
      ensures IsLatestAtOrBefore(obs, dates[k], Some(vals[k]))
    {
      assert IsLatestAtOrBefore(obs, cal[rows[k]], col[rows[k]]);
    }
  }

  /** On every row `dropna()` keeps, a column that is a re-sampled series
      still holds the series' latest observation at or before that row's
      date. */
  lemma DroppedReindexCell(t: Table, c: nat, obs: seq<Obs>)
    requires Shaped(t) && c < |t.cols| && IsSeries(obs)
    requires t.cols[c] == Reindex(obs, t.dates)
    ensures forall k :: 0 <= k < |DropIncomplete(t).dates| ==>
      IsLatestAtOrBefore(obs, DropIncomplete(t).dates[k], Some(DropIncomplete(t).cols[c][k]))
  {
    var ds := DropIncomplete(t);
    SelectedLatest(obs, t.dates, t.cols[c], CompleteRows(t), ds.dates, ds.cols[c]);
  }
}
