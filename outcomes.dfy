/** What happened to a price series `HORIZON` days after each signal. */
module Outcomes {
  import opened Series
  import opened Indexer

  /** `timedelta(days=20)`: the look-ahead in calendar days. */
  const HORIZON: nat := 20

  /** One row of the results table: the signal date, the rate change on that
      date and the relative price move over the horizon.  `None` stands for a
      NaN or infinite value. */
  datatype Record = Record(date: Date, change: Option<real>, outcome: Option<real>)

  /** `(p1 - p0) / p0`: the relative move from `p0` to `p1`.  Floating-point
      division by a zero `p0` gives an infinity or NaN, not an error; here
      that is `None`. */
  function Growth(p0: real, p1: real): (g: Option<real>)
    ensures g.Some? <==> p0 != 0.0
    ensures g.Some? ==> p1 == p0 * (1.0 + g.value)
  {
    if p0 == 0.0 then None else Some((p1 - p0) / p0)
  }

  /** The whole dataset a result is read from: dates in order, and a price
      and a change on every date. */
  predicate Priced(dates: seq<Date>, prices: seq<real>, chg: seq<Option<real>>)
  {
    Increasing(dates) && |prices| == |dates| && |chg| == |dates|
  }

  /** Every signal is a row of the dataset. */
  predicate Rows(dates: seq<Date>, sig: seq<nat>)
  {
    forall k :: 0 <= k < |sig| ==> sig[k] < |dates|
  }

  /** The result for the signal on row `i`: none when its target date lies
      beyond the last date (a target on the last date is kept); otherwise the
      price on the date nearest the target, ties going to the later date. */
  function OutcomeAt(dates: seq<Date>, prices: seq<real>, chg: seq<Option<real>>, i: nat, horizon: nat): (r: Option<Record>)
    requires Priced(dates, prices, chg) && i < |dates|
    ensures r.None? <==> dates[i] + horizon > dates[|dates| - 1]
    ensures r.Some? ==> r.value.date == dates[i] && r.value.change == chg[i]
  {
    var target := dates[i] + horizon;
    if target > dates[|dates| - 1] then None
    else
      var j := NearestIndex(dates, target);
      Some(Record(dates[i], chg[i], Growth(prices[i], prices[j])))
  }

  /** The outcome of a kept signal is the move to a row at or after the
      signal whose date is nearest the target, ties going to the later date. */
  lemma OutcomeAtNearest(dates: seq<Date>, prices: seq<real>, chg: seq<Option<real>>, i: nat, horizon: nat)
    requires Priced(dates, prices, chg) && i < |dates|
    requires dates[i] + horizon <= dates[|dates| - 1]
    ensures exists j :: i <= j < |dates| && IsNearest(dates, dates[i] + horizon, j)
                        && OutcomeAt(dates, prices, chg, i, horizon).value.outcome == Growth(prices[i], prices[j])
  {
    var target := dates[i] + horizon;
    var j := NearestIndex(dates, target);
    assert OutcomeAt(dates, prices, chg, i, horizon).value.outcome == Growth(prices[i], prices[j]);
  }

  /** The result of each signal, in signal order. */
  function SignalOutcomes(dates: seq<Date>, prices: seq<real>, chg: seq<Option<real>>, sig: seq<nat>, horizon: nat): (os: seq<Option<Record>>)
    requires Priced(dates, prices, chg) && Rows(dates, sig)
  {
    seq(|sig|, k requires 0 <= k < |sig| => OutcomeAt(dates, prices, chg, sig[k], horizon))
  }

  /** The results table: the results of the signals `sig`, in signal order,
      skipping the signals that have none; at most one record per signal. */
  function Results(dates: seq<Date>, prices: seq<real>, chg: seq<Option<real>>, sig: seq<nat>, horizon: nat): (rs: seq<Record>)
    requires Priced(dates, prices, chg) && Rows(dates, sig)
    ensures |rs| <= |sig|
  {
    Present(SignalOutcomes(dates, prices, chg, sig, horizon))
  }

  /** The result of a kept signal reads the price on the nearest row. */
  lemma SignalOutcomeKept(dates: seq<Date>, prices: seq<real>, chg: seq<Option<real>>, sig: seq<nat>, k: nat, horizon: nat)
    requires Priced(dates, prices, chg) && Rows(dates, sig) && k < |sig|
    requires dates[sig[k]] + horizon <= dates[|dates| - 1]
    ensures SignalOutcomes(dates, prices, chg, sig, horizon)[k] ==
      Some(Record(dates[sig[k]], chg[sig[k]], Growth(prices[sig[k]], prices[NearestIndex(dates, dates[sig[k]] + horizon)])))
  {
  }

  /** The loop over the signals that builds the results table. */
  method EvaluateOutcomes(dates: seq<Date>, prices: seq<real>, chg: seq<Option<real>>, sig: seq<nat>, horizon: nat)
    returns (results: seq<Record>)
    requires Priced(dates, prices, chg) && Rows(dates, sig)
    ensures results == Results(dates, prices, chg, sig, horizon)
  {
    ghost var os := SignalOutcomes(dates, prices, chg, sig, horizon);
    results := [];
    var k := 0;
    while k < |sig|
      invariant 0 <= k <= |sig|
      invariant results == Present(os[..k])
    {
      var i := sig[k];
      var priceAtSignal := prices[i];
      var target := dates[i] + horizon;
      PresentStep(os, k);
      if target > dates[|dates| - 1] {
        assert os[k] == OutcomeAt(dates, prices, chg, i, horizon);
        assert Present(os[..k + 1]) == results;
        k := k + 1;
        continue;
      }
      var j := NearestIndex(dates, target);
      var priceAfter := prices[j];
      var drawdown := Growth(priceAtSignal, priceAfter);
      SignalOutcomeKept(dates, prices, chg, sig, k, horizon);
      assert Present(os[..k + 1]) == results + [Record(dates[i], chg[i], drawdown)];
      results := results + [Record(dates[i], chg[i], drawdown)];
      k := k + 1;
    }
    assert os[..|sig|] == os;
  }

  /** Signals are processed in calendar order. */
  predicate InOrder(sig: seq<nat>)
  {
    forall k, l :: 0 <= k < l < |sig| ==> sig[k] < sig[l]
  }

  /** For signals in calendar order the results are those of a leading run
      of the signals, one record each in order; every later signal has its
      target beyond the last date. */
  lemma ResultsAreLeadingSignals(dates: seq<Date>, prices: seq<real>, chg: seq<Option<real>>, sig: seq<nat>, horizon: nat)
    requires Priced(dates, prices, chg) && Rows(dates, sig) && InOrder(sig)
    ensures forall k :: 0 <= k < |Results(dates, prices, chg, sig, horizon)| ==>
      OutcomeAt(dates, prices, chg, sig[k], horizon) == Some(Results(dates, prices, chg, sig, horizon)[k])
    ensures forall k :: |Results(dates, prices, chg, sig, horizon)| <= k < |sig| ==>
      dates[sig[k]] + horizon > dates[|dates| - 1]
  {
    var os := SignalOutcomes(dates, prices, chg, sig, horizon);
    forall k, l | 0 <= k < l < |os| && os[l].Some?
      ensures os[k].Some?
    {
      assert dates[sig[k]] < dates[sig[l]];
    }
    PresentLeading(os);
    forall k | 0 <= k < |sig|
      ensures os[k] == OutcomeAt(dates, prices, chg, sig[k], horizon)
    {
    }
  }

  /** Result dates strictly increase. */
  lemma ResultDatesIncreasing(dates: seq<Date>, prices: seq<real>, chg: seq<Option<real>>, sig: seq<nat>, horizon: nat)
    requires Priced(dates, prices, chg) && Rows(dates, sig) && InOrder(sig)
    ensures forall k, l :: 0 <= k < l < |Results(dates, prices, chg, sig, horizon)| ==>
      Results(dates, prices, chg, sig, horizon)[k].date < Results(dates, prices, chg, sig, horizon)[l].date
  {
    var res := Results(dates, prices, chg, sig, horizon);
    ResultsAreLeadingSignals(dates, prices, chg, sig, horizon);
    forall k, l | 0 <= k < l < |res|
      ensures res[k].date < res[l].date
    {
      assert OutcomeAt(dates, prices, chg, sig[k], horizon) == Some(res[k]);
      assert OutcomeAt(dates, prices, chg, sig[l], horizon) == Some(res[l]);
    }
  }

  /** Each record of the results is that of the signal in the same place:
      its date and change, and a target at or before the last date. */
  lemma ResultFields(dates: seq<Date>, prices: seq<real>, chg: seq<Option<real>>, sig: seq<nat>, horizon: nat)
    requires Priced(dates, prices, chg) && Rows(dates, sig) && InOrder(sig)
    ensures forall k :: 0 <= k < |Results(dates, prices, chg, sig, horizon)| ==>
      && Results(dates, prices, chg, sig, horizon)[k].date == dates[sig[k]]
      && Results(dates, prices, chg, sig, horizon)[k].change == chg[sig[k]]
      && dates[sig[k]] + horizon <= dates[|dates| - 1]
  {
    var res := Results(dates, prices, chg, sig, horizon);
    ResultsAreLeadingSignals(dates, prices, chg, sig, horizon);
    forall k | 0 <= k < |res|
      ensures res[k].date == dates[sig[k]] && res[k].change == chg[sig[k]]
      ensures dates[sig[k]] + horizon <= dates[|dates| - 1]
    {
      assert OutcomeAt(dates, prices, chg, sig[k], horizon) == Some(res[k]);
    }
  }

  /** The signals without a record are the trailing ones whose target
      lies beyond the last date. */
  lemma UnkeptSignalsTrail(dates: seq<Date>, prices: seq<real>, chg: seq<Option<real>>, sig: seq<nat>, horizon: nat)
    requires Priced(dates, prices, chg) && Rows(dates, sig) && InOrder(sig)
    ensures forall k :: |Results(dates, prices, chg, sig, horizon)| <= k < |sig| ==>
      dates[sig[k]] + horizon > dates[|dates| - 1]
  {
    ResultsAreLeadingSignals(dates, prices, chg, sig, horizon);
  }

  /** Each record `rs[k]` holds the move from the price on signal row
      `sig[k]` to the price on the row `NearestIndex` picks for that
      signal's target: the row whose date is nearest it, ties going to the
      later date. */
  predicate OutcomesAtNearest(dates: seq<Date>, prices: seq<real>, sig: seq<nat>, horizon: nat, rs: seq<Record>)
    requires |prices| == |dates| && Increasing(dates) && Rows(dates, sig) && |rs| <= |sig|
  {
    forall k :: 0 <= k < |rs| ==>
      rs[k].outcome == Growth(prices[sig[k]], prices[NearestIndex(dates, dates[sig[k]] + horizon)])
  }

  /** Every record of the results table holds the move to the nearest row. */
  lemma ResultOutcomes(dates: seq<Date>, prices: seq<real>, chg: seq<Option<real>>, sig: seq<nat>, horizon: nat)
    requires Priced(dates, prices, chg) && Rows(dates, sig) && InOrder(sig)
    ensures OutcomesAtNearest(dates, prices, sig, horizon, Results(dates, prices, chg, sig, horizon))
  {
    var rs := Results(dates, prices, chg, sig, horizon);
    ResultsAreLeadingSignals(dates, prices, chg, sig, horizon);
    forall k | 0 <= k < |rs|
      ensures rs[k].outcome == Growth(prices[sig[k]], prices[NearestIndex(dates, dates[sig[k]] + horizon)])
    {
      assert OutcomeAt(dates, prices, chg, sig[k], horizon) == Some(rs[k]);
      SignalOutcomeKept(dates, prices, chg, sig, k, horizon);
    }
  }
}
