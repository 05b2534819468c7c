/** `get_macro_data`, lines 59-82: the central-bank series re-sampled onto the
    market calendar, the joined table filled forward and cleaned, and the
    net-liquidity column added.  The fetches themselves are inputs. */
module Macro {
  import opened Series
  import opened Frame
  import opened Align

  /** Column positions of the joined table.  The source reads every column
      by its name; each position here stands for one name: the four market
      columns, the three central-bank series, then the derived indicator. */
  const NASDAQ: nat := 0
  const USD_JPY: nat := 1
  const BTC: nat := 2
  const VIX: nat := 3
  const WALCL: nat := 4
  const WTREGEN: nat := 5
  const RRPONTSYD: nat := 6
  const NET_LIQUIDITY: nat := 7

  const MARKET_COLUMNS: nat := 4
  const JOINED_COLUMNS: nat := 7
  const DATASET_COLUMNS: nat := 8

  /** WALCL is published in millions of dollars, the other two in billions. */
  const MILLIONS_PER_BILLION: real := 1000.0

  /** The market frame: the closing prices of the four tickers on the union
      of their trading days, sorted, with a missing cell where one ticker did
      not trade. */
  predicate IsMarket(m: Table)
  {
    Increasing(m.dates) && Shaped(m) && |m.cols| == MARKET_COLUMNS
  }

  predicate Inputs(market: Table, walcl: seq<Obs>, tga: seq<Obs>, rrp: seq<Obs>)
  {
    IsMarket(market) && IsSeries(walcl) && IsSeries(tga) && IsSeries(rrp)
  }

  /** Lines 61-66 and the join of line 69: each central-bank series is
      re-sampled onto the market calendar and put beside the market columns. */
  function Joined(market: Table, walcl: seq<Obs>, tga: seq<Obs>, rrp: seq<Obs>): (t: Table)
    requires Inputs(market, walcl, tga, rrp)
    ensures Shaped(t) && t.dates == market.dates && |t.cols| == JOINED_COLUMNS
    ensures forall c :: 0 <= c < MARKET_COLUMNS ==> t.cols[c] == market.cols[c]
    ensures t.cols[WALCL] == Reindex(walcl, market.dates)
    ensures t.cols[WTREGEN] == Reindex(tga, market.dates)
    ensures t.cols[RRPONTSYD] == Reindex(rrp, market.dates)
  {
    var cal := market.dates;
    Table(cal, market.cols + [Reindex(walcl, cal), Reindex(tga, cal), Reindex(rrp, cal)])
  }

  /** Line 69: `.ffill().dropna()` on the joined table. */
  function Aligned(market: Table, walcl: seq<Obs>, tga: seq<Obs>, rrp: seq<Obs>): (ds: Dataset)
    requires Inputs(market, walcl, tga, rrp)
    ensures Rectangular(ds) && |ds.cols| == JOINED_COLUMNS
    ensures Increasing(ds.dates)
  {
    DropIncomplete(FillTable(Joined(market, walcl, tga, rrp)))
  }

  /** Line 82: net liquidity in billions. */
  function NetLiquidity(walcl: real, tga: real, rrp: real): real
  {
    walcl / MILLIONS_PER_BILLION - tga - rrp
  }

  /** `get_macro_data` from line 59 on: the aligned table with the
      net-liquidity column appended, computed row by row. */
  function GetMacroData(market: Table, walcl: seq<Obs>, tga: seq<Obs>, rrp: seq<Obs>): (ds: Dataset)
    requires Inputs(market, walcl, tga, rrp)
    ensures Rectangular(ds) && |ds.cols| == DATASET_COLUMNS
    ensures Increasing(ds.dates)
    ensures var a := Aligned(market, walcl, tga, rrp);
      ds.dates == a.dates && forall c :: 0 <= c < JOINED_COLUMNS ==> ds.cols[c] == a.cols[c]
    ensures forall i :: 0 <= i < |ds.dates| ==>
      ds.cols[NET_LIQUIDITY][i] == NetLiquidity(ds.cols[WALCL][i], ds.cols[WTREGEN][i], ds.cols[RRPONTSYD][i])
  {
    var a := Aligned(market, walcl, tga, rrp);
    Dataset(a.dates, a.cols + [seq(|a.dates|, i requires 0 <= i < |a.dates| =>
      NetLiquidity(a.cols[WALCL][i], a.cols[WTREGEN][i], a.cols[RRPONTSYD][i]))])
  }

  /** The calendar row at which the output starts. */
  function StartRow(market: Table, walcl: seq<Obs>, tga: seq<Obs>, rrp: seq<Obs>): (s: nat)
    requires Inputs(market, walcl, tga, rrp)
    ensures s <= |market.dates|
  {
    FirstComplete(FillTable(Joined(market, walcl, tga, rrp)), 0)
  }

  /** Some observation of the series is dated at or before `d`. */
  ghost predicate ObservedAt(obs: seq<Obs>, d: Date)
  {
    exists k :: 0 <= k < |obs| && obs[k].0 <= d
  }

  /** By calendar row `i`, every market column and every central-bank series
      has had at least one observation (see `InputObservedBy`). */
  ghost predicate AllObservedBy(market: Table, walcl: seq<Obs>, tga: seq<Obs>, rrp: seq<Obs>, i: nat)
    requires IsMarket(market) && i < |market.dates|
  {
    forall c :: 0 <= c < JOINED_COLUMNS ==> InputObservedBy(market, walcl, tga, rrp, c, i)
  }

  /** Input `c` of the joined table (a market column or a central-bank
      series) has had an observation by calendar row `i`. */
  ghost predicate InputObservedBy(market: Table, walcl: seq<Obs>, tga: seq<Obs>, rrp: seq<Obs>, c: nat, i: nat)
    requires IsMarket(market) && c < JOINED_COLUMNS && i < |market.dates|
  {
    if c < MARKET_COLUMNS then ObservedBy(market.cols[c], i)
    else ObservedAt(if c == WALCL then walcl else if c == WTREGEN then tga else rrp, market.dates[i])
  }

  lemma JoinedObservedBy(market: Table, walcl: seq<Obs>, tga: seq<Obs>, rrp: seq<Obs>, c: nat, i: nat)
    requires Inputs(market, walcl, tga, rrp) && c < JOINED_COLUMNS && i < |market.dates|
    ensures ObservedBy(Joined(market, walcl, tga, rrp).cols[c], i) <==>
            InputObservedBy(market, walcl, tga, rrp, c, i)
  {
    if c >= MARKET_COLUMNS {
      ReindexObservedBy(if c == WALCL then walcl else if c == WTREGEN then tga else rrp, market.dates, i);
    }
  }

  /** A row of the filled joined table is complete exactly when every input
      has had an observation by that row. */
  lemma JoinedRowComplete(market: Table, walcl: seq<Obs>, tga: seq<Obs>, rrp: seq<Obs>, i: nat)
    requires Inputs(market, walcl, tga, rrp) && i < |market.dates|
    ensures RowComplete(FillTable(Joined(market, walcl, tga, rrp)), i) <==>
            AllObservedBy(market, walcl, tga, rrp, i)
  {
    var j := Joined(market, walcl, tga, rrp);
    FilledRowComplete(j, i);
    forall c | 0 <= c < JOINED_COLUMNS
      ensures ObservedBy(j.cols[c], i) <==> InputObservedBy(market, walcl, tga, rrp, c, i)
    {
      JoinedObservedBy(market, walcl, tga, rrp, c, i);
    }
  }

  /** The output starts at the first calendar row by which every input has
      had an observation: a row is kept exactly when it is at or after it. */
  lemma MacroDataStart(market: Table, walcl: seq<Obs>, tga: seq<Obs>, rrp: seq<Obs>)
    requires Inputs(market, walcl, tga, rrp)
    ensures forall i :: 0 <= i < |market.dates| ==>
      (StartRow(market, walcl, tga, rrp) <= i <==> AllObservedBy(market, walcl, tga, rrp, i))
  {
    var f := FillTable(Joined(market, walcl, tga, rrp));
    var s := StartRow(market, walcl, tga, rrp);
    forall i | 0 <= i < |market.dates|
      ensures s <= i <==> AllObservedBy(market, walcl, tga, rrp, i)
    {
      JoinedRowComplete(market, walcl, tga, rrp, i);
      CompleteFromFirst(f, i);
    }
  }

  /** The output rows are the calendar from the start row on, in order. */
  lemma MacroDataSuffix(market: Table, walcl: seq<Obs>, tga: seq<Obs>, rrp: seq<Obs>)
    requires Inputs(market, walcl, tga, rrp)
    ensures GetMacroData(market, walcl, tga, rrp).dates == market.dates[StartRow(market, walcl, tga, rrp)..]
  {
    DropIncompleteSuffix(FillTable(Joined(market, walcl, tga, rrp)));
  }

  /** On every output row a market column holds that ticker's last close at
      or before the row's calendar date: the second `ffill()` carries, for
      instance, Friday's Nasdaq close over a weekend on which BTC trades. */
  lemma MacroDataMarketCell(market: Table, walcl: seq<Obs>, tga: seq<Obs>, rrp: seq<Obs>, c: nat)
    requires Inputs(market, walcl, tga, rrp) && c < MARKET_COLUMNS
    ensures var ds := GetMacroData(market, walcl, tga, rrp); var s := StartRow(market, walcl, tga, rrp);
      s + |ds.dates| == |market.dates| &&
      forall k :: 0 <= k < |ds.dates| ==> CarriedAt(market.cols[c], s + k, Some(ds.cols[c][k]))
  {
    var j := Joined(market, walcl, tga, rrp);
    var f := FillTable(j);
    DropIncompleteSuffixCells(f, c);
    FillForwardCarries(market.cols[c]);
    assert f.cols[c] == FillForward(market.cols[c]);
  }

  /** On every output row a central-bank column holds the series' latest
      observation at or before the row's date, carried forward unchanged. */
  lemma MacroDataFredCells(market: Table, walcl: seq<Obs>, tga: seq<Obs>, rrp: seq<Obs>)
    requires Inputs(market, walcl, tga, rrp)
    ensures var ds := GetMacroData(market, walcl, tga, rrp);
      forall k :: 0 <= k < |ds.dates| ==> IsLatestAtOrBefore(walcl, ds.dates[k], Some(ds.cols[WALCL][k]))
    ensures var ds := GetMacroData(market, walcl, tga, rrp);
      forall k :: 0 <= k < |ds.dates| ==> IsLatestAtOrBefore(tga, ds.dates[k], Some(ds.cols[WTREGEN][k]))
    ensures var ds := GetMacroData(market, walcl, tga, rrp);
      forall k :: 0 <= k < |ds.dates| ==> IsLatestAtOrBefore(rrp, ds.dates[k], Some(ds.cols[RRPONTSYD][k]))
  {
    FredCell(market, walcl, tga, rrp, WALCL, walcl);
    FredCell(market, walcl, tga, rrp, WTREGEN, tga);
    FredCell(market, walcl, tga, rrp, RRPONTSYD, rrp);
  }

  lemma FredCell(market: Table, walcl: seq<Obs>, tga: seq<Obs>, rrp: seq<Obs>, c: nat, obs: seq<Obs>)
    requires Inputs(market, walcl, tga, rrp) && MARKET_COLUMNS <= c < JOINED_COLUMNS && IsSeries(obs)
    requires Joined(market, walcl, tga, rrp).cols[c] == Reindex(obs, market.dates)
    ensures var ds := GetMacroData(market, walcl, tga, rrp);
      forall k :: 0 <= k < |ds.dates| ==> IsLatestAtOrBefore(obs, ds.dates[k], Some(ds.cols[c][k]))
  {
    var f := FillTable(Joined(market, walcl, tga, rrp));
    ReindexFillForward(obs, market.dates);
    assert f.cols[c] == Reindex(obs, market.dates);
    DroppedReindexCell(f, c, obs);
  }

  /** An unavailable central-bank series (an empty fetch) leaves no row at
      all: its column is missing everywhere, and `dropna()` removes every row. */
  lemma MissingSeriesEmpties(market: Table, walcl: seq<Obs>, tga: seq<Obs>, rrp: seq<Obs>)
    requires Inputs(market, walcl, tga, rrp)
    requires walcl == [] || tga == [] || rrp == []
    ensures GetMacroData(market, walcl, tga, rrp).dates == []
  {
    var f := FillTable(Joined(market, walcl, tga, rrp));
    forall i | 0 <= i < |market.dates|
      ensures !RowComplete(f, i)
    {
      JoinedRowComplete(market, walcl, tga, rrp, i);
      if walcl == [] {
        assert !InputObservedBy(market, walcl, tga, rrp, WALCL, i);
      } else if tga == [] {
        assert !InputObservedBy(market, walcl, tga, rrp, WTREGEN, i);
      } else {
        assert !InputObservedBy(market, walcl, tga, rrp, RRPONTSYD, i);
      }
    }
    assert StartRow(market, walcl, tga, rrp) == |market.dates|;
    MacroDataSuffix(market, walcl, tga, rrp);
  }
}
