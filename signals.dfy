/** The "liquidity shock" signal: the USD/JPY rate falling by more than 3%
    over 10 rows of the aligned dataset. */
module Signals {
  import opened Series

  /** `pct_change(10)`: the change is measured against the row 10 rows earlier. */
  const WINDOW: nat := 10

  /** A signal fires when the change is strictly below -3%. */
  const THRESHOLD: real := -0.03

  /** `Series.pct_change(w)`: the relative change of each value against the
      value `w` rows earlier.  The first `w` rows have no earlier value and a
      zero earlier value gives no finite change; both are missing. */
  function PctChange(v: seq<real>, w: nat): (r: seq<Option<real>>)
    ensures |r| == |v|
    ensures forall i :: 0 <= i < |v| ==> (r[i].Some? <==> w <= i && v[i - w] != 0.0)
    ensures forall i :: 0 <= i < |v| && r[i].Some? ==> v[i] == v[i - w] * (1.0 + r[i].value)
  {
    seq(|v|, i requires 0 <= i < |v| => if w <= i && v[i - w] != 0.0 then Some(v[i] / v[i - w] - 1.0) else None)
  }

  /** Row `i` fires: its change is defined and strictly below `threshold`
      (a missing change compares false, as NaN does). */
  predicate Fires(chg: seq<Option<real>>, i: nat, threshold: real)
    requires i < |chg|
  {
    chg[i].Some? && chg[i].value < threshold
  }

  /** Which rows fire, row by row: the boolean mask `chg < threshold`. */
  function FiringMask(chg: seq<Option<real>>, threshold: real): (mask: seq<bool>)
    ensures |mask| == |chg|
    ensures forall i :: 0 <= i < |chg| ==> (mask[i] <==> Fires(chg, i, threshold))
  {
    seq(|chg|, i requires 0 <= i < |chg| => Fires(chg, i, threshold))
  }

  /** `df[chg < threshold].index`: every firing row, once, in calendar order;
      consecutive firing rows are all kept. */
  function SignalRows(chg: seq<Option<real>>, threshold: real): (rows: seq<nat>)
    ensures forall k :: 0 <= k < |rows| ==> rows[k] < |chg| && Fires(chg, rows[k], threshold)
    ensures forall k, l :: 0 <= k < l < |rows| ==> rows[k] < rows[l]
    ensures forall i :: 0 <= i < |chg| && Fires(chg, i, threshold) ==> i in rows
  {
    Where(FiringMask(chg, threshold))
  }

  /** A stricter (more negative) threshold fires on a subset of the rows, and
      so on no more of them. */
  lemma StricterThresholdFewerSignals(chg: seq<Option<real>>, strict: real, loose: real)
    requires strict <= loose
    ensures forall r :: r in SignalRows(chg, strict) ==> r in SignalRows(chg, loose)
    ensures |SignalRows(chg, strict)| <= |SignalRows(chg, loose)|
  {
    WhereMonotone(FiringMask(chg, strict), FiringMask(chg, loose));
  }

  /** A row that is the only one to fire is the only signal. */
  lemma SingleSignal(chg: seq<Option<real>>, threshold: real, i: nat)
    requires i < |chg| && Fires(chg, i, threshold)
    requires forall j :: 0 <= j < |chg| && j != i ==> !Fires(chg, j, threshold)
    ensures SignalRows(chg, threshold) == [i]
  {
    WhereSingle(FiringMask(chg, threshold), i);
  }

  /** A row fires on the 10-row USD/JPY change exactly when the rate there is
      below 97% of the rate 10 rows earlier (for a positive earlier rate). */
  lemma FiresWhenRateDrops(v: seq<real>, i: nat)
    requires WINDOW <= i < |v| && v[i - WINDOW] > 0.0
    ensures Fires(PctChange(v, WINDOW), i, THRESHOLD) <==> v[i] < 0.97 * v[i - WINDOW]
  {
    var r := PctChange(v, WINDOW)[i].value;
    var p := v[i - WINDOW];
    assert v[i] == p * (1.0 + r);
    if r < THRESHOLD {
      assert p * (1.0 + r) < p * 0.97;
    } else {
      assert p * (1.0 + r) >= p * 0.97;
    }
  }
}
