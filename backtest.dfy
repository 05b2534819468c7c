/** The backtest tab: compute the 10-row USD/JPY change on the aligned
    dataset, find the signal rows and record the Nasdaq move 20 days later. */
module Backtest {
  import opened Series
  import Frame
  import Indexer
  import Macro
  import Signals
  import Outcomes

  /** The whole backtest over the aligned dataset. */
  method RunBacktest(ds: Frame.Dataset) returns (chg: seq<Option<real>>, signals: seq<nat>, results: seq<Outcomes.Record>)
    requires Frame.Rectangular(ds) && |ds.cols| == Macro.DATASET_COLUMNS && Increasing(ds.dates)
    ensures chg == Signals.PctChange(ds.cols[Macro.USD_JPY], Signals.WINDOW)
    ensures signals == Signals.SignalRows(chg, Signals.THRESHOLD)
    ensures Outcomes.Rows(ds.dates, signals) && Outcomes.Priced(ds.dates, ds.cols[Macro.NASDAQ], chg)
    ensures results == Outcomes.Results(ds.dates, ds.cols[Macro.NASDAQ], chg, signals, Outcomes.HORIZON)
    ensures |results| <= |signals|
    ensures forall k :: 0 <= k < |results| ==>
      && results[k].date == ds.dates[signals[k]]
      && results[k].date + Outcomes.HORIZON <= ds.dates[|ds.dates| - 1]
      && results[k].change.Some? && results[k].change.value < Signals.THRESHOLD
    ensures forall k :: |results| <= k < |signals| ==>
      ds.dates[signals[k]] + Outcomes.HORIZON > ds.dates[|ds.dates| - 1]
    ensures forall k, l :: 0 <= k < l < |results| ==> results[k].date < results[l].date
    ensures Outcomes.OutcomesAtNearest(ds.dates, ds.cols[Macro.NASDAQ], signals, Outcomes.HORIZON, results)
  {
    var prices := ds.cols[Macro.NASDAQ];
    chg := Signals.PctChange(ds.cols[Macro.USD_JPY], Signals.WINDOW);
    signals := Signals.SignalRows(chg, Signals.THRESHOLD);
    results := Outcomes.EvaluateOutcomes(ds.dates, prices, chg, signals, Outcomes.HORIZON);
    Outcomes.UnkeptSignalsTrail(ds.dates, prices, chg, signals, Outcomes.HORIZON);
    Outcomes.ResultDatesIncreasing(ds.dates, prices, chg, signals, Outcomes.HORIZON);
    Outcomes.ResultFields(ds.dates, prices, chg, signals, Outcomes.HORIZON);
    Outcomes.ResultOutcomes(ds.dates, prices, chg, signals, Outcomes.HORIZON);
    forall k | 0 <= k < |results|
      ensures results[k].change.Some? && results[k].change.value < Signals.THRESHOLD
    {
      assert results[k].change == chg[signals[k]];
      assert Signals.Fires(chg, signals[k], Signals.THRESHOLD);
    }
  }

  /** 31 consecutive days, numbered 0 to 30. */
  function Days(): (d: seq<Date>)
    ensures |d| == 31 && Increasing(d)
    ensures forall i :: 0 <= i < 31 ==> d[i] == i
  {
    seq(31, i => i)
  }

  /** On consecutive days the date nearest a day in range is that day. */
  lemma NearestOnDays(t: Date)
    requires 0 <= t < 31
    ensures Indexer.NearestIndex(Days(), t) == t
  {
    var d := Days();
    var j := Indexer.NearestIndex(d, t);
    assert Dist(d[j], t) <= Dist(d[t], t);
    assert d[j] == j;
  }

  /** A USD/JPY rate of 100 every day except a dip to 96 on day 10. */
  function DipRate(): (v: seq<real>)
    ensures |v| == 31
    ensures forall i :: 0 <= i < 31 ==> v[i] == if i == 10 then 96.0 else 100.0
  {
    seq(31, i => if i == 10 then 96.0 else 100.0)
  }

  /** A Nasdaq close of 200 up to day 10 and 210 afterwards. */
  function DipNasdaq(): (v: seq<real>)
    ensures |v| == 31
    ensures forall i :: 0 <= i < 31 ==> v[i] == if i <= 10 then 200.0 else 210.0
  {
    seq(31, i => if i <= 10 then 200.0 else 210.0)
  }

  /** Day 10 is the only signal: the rate is 4% below day 0's and no other
      day is more than 3% below the rate 10 days before it. */
  lemma DipSignals()
    ensures Signals.PctChange(DipRate(), Signals.WINDOW)[10] == Some(-0.04)
    ensures Signals.SignalRows(Signals.PctChange(DipRate(), Signals.WINDOW), Signals.THRESHOLD) == [10]
  {
    var v := DipRate();
    var chg := Signals.PctChange(v, Signals.WINDOW);
    forall i | 0 <= i < 31 && i != 10
      ensures !Signals.Fires(chg, i, Signals.THRESHOLD)
    {
      if i >= 10 && chg[i].Some? {
        assert v[i] >= v[i - 10];
        assert v[i] == v[i - 10] * (1.0 + chg[i].value);
      }
    }
    assert chg[10] == Some(-0.04);
    Signals.SingleSignal(chg, Signals.THRESHOLD, 10);
  }

  /** The day-10 signal's record: its target is day 30 itself. */
  lemma DipOutcome()
    ensures Outcomes.OutcomeAt(Days(), DipNasdaq(), Signals.PctChange(DipRate(), Signals.WINDOW), 10, Outcomes.HORIZON)
      == Some(Outcomes.Record(10, Some(-0.04), Some(0.05)))
  {
    DipSignals();
    NearestOnDays(30);
  }

  /** The day-10 signal's target, day 30, is the last date, so it is kept,
      and the Nasdaq has moved from 200 to 210 by then: +5%. */
  lemma DipScenario()
    ensures var chg := Signals.PctChange(DipRate(), Signals.WINDOW);
      && Signals.SignalRows(chg, Signals.THRESHOLD) == [10]
      && Outcomes.Results(Days(), DipNasdaq(), chg, [10], Outcomes.HORIZON)
           == [Outcomes.Record(10, Some(-0.04), Some(0.05))]
  {
    var chg := Signals.PctChange(DipRate(), Signals.WINDOW);
    DipSignals();
    DipOutcome();
    var os := Outcomes.SignalOutcomes(Days(), DipNasdaq(), chg, [10], Outcomes.HORIZON);
    assert os[0] == Some(Outcomes.Record(10, Some(-0.04), Some(0.05)));
    assert Present(os) == Present(os[..0]) + [os[0].value];
  }
}
