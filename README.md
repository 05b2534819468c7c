# Liquidity monitor: data alignment and shock backtest

This project models, in Dafny, the computational core of the liquidity
monitor dashboard (`app.py`). The model has two parts.

**`get_macro_data`** is modelled from line 59 onwards. Its input is a market
frame: Nasdaq, USD/JPY, BTC and VIX closes on a sorted calendar, with a
missing cell where a ticker did not trade. The steps are:
1. The three central-bank series are re-sampled onto that calendar with
   `reindex(method='ffill')`: WALCL (Fed balance sheet, in millions), WTREGEN
   (Treasury General Account, in billions) and RRPONTSYD (reverse repo, in
   billions).
2. The result is joined to the market columns, filled forward with `ffill()`,
   and every incomplete row is dropped with `dropna()`.
3. A net-liquidity column is added: `WALCL/1000 - WTREGEN - RRPONTSYD`.

**The backtesting tab** (lines 134-158) works on the aligned dataset:
1. It takes the 10-row percentage change of USD/JPY.
2. Every row whose change is strictly below -3% is a signal. There is no
   de-duplication: consecutive firing rows are all kept.
3. For each signal:
   - it looks 20 calendar days ahead;
   - it skips the signal if that target lies beyond the last date (a target
     on the last date is kept);
   - otherwise it reads the Nasdaq close on the date nearest the target, with
     ties going to the later date, as `get_indexer(method='nearest')` does;
   - it records the relative move `(p1 - p0) / p0`.

Modules, one per file:

- `Series`: the shared vocabulary.
  - `Option` stands in for NaN.
  - A date is a day number.
  - `Where` selects rows by a boolean mask; `df[mask]` and `dropna()` both use it.
  - `Present` collects the values that were produced.
- `Indexer`: pandas' `get_indexer` with `pad`, `backfill` and `nearest` on a
  sorted index. A missing position is `-1`.
- `Frame`: `ffill()`, `dropna()` and facts about them. Examples:
  - after `ffill()`, a row is complete exactly when every column has had a value;
  - on settled columns, the rows left are a contiguous suffix of the calendar.
- `Align`: `reindex(method='ffill')` of a raw series onto a calendar, as the
  latest observation at or before each date.
- `Macro`: `get_macro_data`, the start row of its output, its cells, and the
  case of an unavailable series.
- `Signals`: `pct_change(10)`, the signal rows, and threshold monotonicity.
- `Outcomes`: the per-signal result, the results table, and the loop that
  builds it (proved equal to the table).
- `Backtest`: the backtest end to end, and a worked case.

## Model

| member | source | states |
|---|---|---|
| Series.Where | app.py:138 | The rows a boolean mask selects: only positions where the mask holds, in strictly increasing order, and every such position. |
| Series.WhereFrom | app.py:69 | A mask that holds exactly from position `s` on selects exactly `s, s+1, ...`. |
| Series.WhereNone | app.py:138 | A mask that holds nowhere selects nothing. |
| Series.WhereSingle | app.py:138 | A mask that holds at one position only selects exactly that position. |
| Series.WhereMonotone | app.py:138 | A mask that holds wherever another one holds selects a superset, and at least as many rows. |
| Series.Present | app.py:140-158 | The values collected from the produced entries are never more than the entries; `PresentLeading` states which values they are and in what order. |
| Series.PresentLeading | app.py:140-158 | When the produced entries form a leading run, the table is exactly that run's values, in order, and every later entry produced nothing. |
| Indexer.PadIndex | app.py:64-66 | The pad position is -1 or a date at or before `t`, and every later position is after `t`. |
| Indexer.BackfillIndex | app.py:149 | The backfill position is -1 or a date at or after `t`, and every earlier position is before `t`. |
| Indexer.NearestIndex | app.py:149 | The nearest position minimises the distance to `t` over the whole index, no later position is equally near (ties go to the later date), and it lies within the index's date range. |
| Frame.FillForward | app.py:69 | `ffill()` keeps the length; each cell is defined exactly when the column has had a value at or above it; the result never goes missing again. |
| Frame.FillForwardCarries | app.py:69 | Each filled cell is missing when every cell up to it is missing; otherwise it is the value of the latest defined cell at or above it. |
| Frame.FilledRowComplete | app.py:69 | After `ffill()`, a row is complete exactly when every column has had a value by that row. |
| Frame.CompleteRows | app.py:69 | The complete rows, all of them, in increasing order. |
| Frame.DropIncomplete | app.py:69 | `dropna()` keeps exactly the complete rows, in order: their dates and their values in every column. The dates stay increasing. |
| Frame.FillForwardSettledIdentity | app.py:69 | Filling forward a column that never goes missing again changes nothing. |
| Frame.FillForwardIdempotent | app.py:69 | Filling forward twice equals filling forward once. |
| Frame.FirstComplete | app.py:69 | The first complete row at or after `i`, `|dates|` if there is none; no row before it is complete. |
| Frame.CompleteFromFirst | app.py:69 | With settled columns, a row is complete exactly when it is at or after the first complete row. |
| Frame.CompleteRowsOfSettled | app.py:69 | With settled columns, the complete rows are exactly the first complete row and every row after it. |
| Frame.DropIncompleteSuffix | app.py:69 | With settled columns, the dates left by `dropna()` are a contiguous suffix of the calendar: the one from the first complete row on. |
| Frame.DropIncompleteSuffixCells | app.py:69 | With settled columns, every cell of that suffix is kept unchanged. |
| Align.LastAtOrBefore | app.py:64-66 | The forward-filled value at date `d` is the value of the latest observation at or before `d`, and is missing if there is none. |
| Align.Reindex | app.py:64-66 | `reindex(cal, method='ffill')` holds, on every calendar date, the latest observation at or before it. |
| Align.ReindexSettled | app.py:64-66 | On a sorted calendar, a re-sampled column never goes missing once it has a value. |
| Align.ReindexObservedBy | app.py:64-66 | A re-sampled column has had a value by row `i` exactly when the series has an observation at or before that row's date. |
| Align.ReindexFillForward | app.py:69 | The later `ffill()` leaves a re-sampled column unchanged. |
| Align.LastAtOrBeforeMap | app.py:64-82 | Carrying forward commutes with a value-wise conversion at one date. |
| Align.ReindexMap | app.py:64-82 | Converting units (such as WALCL/1000) before re-sampling gives the same column as converting after it. |
| Align.DroppedReindexCell | app.py:64-69 | On every row `dropna()` keeps, a re-sampled column holds the series' latest observation at or before that row's date. |
| Macro.Aligned | app.py:69 | The joined, filled and dropped table has seven rectangular columns and increasing dates. |
| Macro.GetMacroData | app.py:59-84 | Eight rectangular columns on increasing dates. The first seven are the aligned table. On every row, Net_Liquidity = WALCL/1000 - WTREGEN - RRPONTSYD. |
| Macro.StartRow | app.py:69 | The calendar row where the output starts lies within the calendar. |
| Macro.JoinedObservedBy | app.py:61-69 | A joined column has had a value by row `i` exactly when its input (market column or central-bank series) has. |
| Macro.JoinedRowComplete | app.py:69 | A filled joined row is complete exactly when all seven inputs have had an observation by that row. |
| Macro.MacroDataStart | app.py:69 | A calendar row is kept exactly when it is at or after the start row, which is the first row by which every input has had an observation. |
| Macro.MacroDataSuffix | app.py:69 | The output dates are exactly the market calendar from the start row on. |
| Macro.MacroDataMarketCell | app.py:69 | On every output row, a market column holds that ticker's last close at or before the row, filled forward over days it did not trade. |
| Macro.MacroDataFredCells | app.py:64-69 | On every output row, WALCL, WTREGEN and RRPONTSYD each hold the series' latest observation at or before the row's date. |
| Macro.FredCell | app.py:64-69 | The same for one central-bank column, given which series it re-samples. |
| Macro.MissingSeriesEmpties | app.py:55-69 | If any central-bank series is unavailable (empty), the output has no rows at all. |
| Signals.PctChange | app.py:135 | `pct_change(w)` keeps the length. A change is defined exactly from row `w` on where the earlier value is non-zero. There, `v[i] = v[i-w] * (1 + change)`. |
| Signals.SignalRows | app.py:138 | Signals are the firing rows and only those: every one of them, once each, in calendar order. |
| Signals.StricterThresholdFewerSignals | app.py:138 | A more negative threshold gives a subset of the signals, and no more of them. |
| Signals.SingleSignal | app.py:138 | A row that is the only one to fire is the only signal. |
| Signals.FiresWhenRateDrops | app.py:135-138 | For a positive earlier rate, a row fires exactly when USD/JPY is below 97% of its value 10 rows earlier. |
| Outcomes.Growth | app.py:152 | `(p1-p0)/p0` is defined exactly when `p0` is non-zero, and then `p1 = p0 * (1 + growth)`. |
| Outcomes.OutcomeAt | app.py:142-157 | A signal has no result exactly when its target date lies after the last date (a target equal to the last date is kept). A result carries the signal's date and change. |
| Outcomes.OutcomeAtNearest | app.py:148-152 | A kept signal's outcome is the move to a row at or after the signal whose date is nearest the target, ties going to the later date. |
| Outcomes.Results | app.py:140-158 | The results table has at most one record per signal. |
| Outcomes.SignalOutcomeKept | app.py:142-157 | A kept signal's entry is the record read at the nearest row. |
| Outcomes.EvaluateOutcomes | app.py:140-158 | The loop over the signals builds exactly the results table. |
| Outcomes.ResultsAreLeadingSignals | app.py:145-146 | For signals in calendar order, the records are those of a leading run of signals, one each in order. Every later signal's target lies beyond the last date. |
| Outcomes.ResultDatesIncreasing | app.py:140-158 | Record dates strictly increase. |
| Outcomes.ResultFields | app.py:142-157 | Record `k` carries signal `k`'s date and change, and that signal's target is at or before the last date. |
| Outcomes.UnkeptSignalsTrail | app.py:140-146 | For signals in calendar order, every signal after the last one with a record has its target after the last date. |
| Outcomes.ResultOutcomes | app.py:143-152 | Every record's outcome is `(p1 - p0) / p0`, where `p0` is the Nasdaq close on its signal row and `p1` the close on the row nearest the target (ties to the later date). |
| Backtest.RunBacktest | app.py:134-158 | Signals are the firing rows of the 10-row USD/JPY change; results are the table for them. Every record's change is defined and below -3%, its target is within the data, and its date is its signal's date. Signals without a record are exactly the trailing ones whose target lies beyond the data. Record dates strictly increase. Every record's outcome is the Nasdaq move from its signal row to the row nearest its target. |
| Backtest.NearestOnDays | app.py:149 | On consecutive days the nearest date to a day in range is that day. |
| Backtest.DipSignals | app.py:135-138 | In the worked case, day 10 is the only signal, with a change of -4%. |
| Backtest.DipOutcome | app.py:142-157 | Its target, day 30, is the last date and is kept: the record is (day 10, -4%, +5%). |
| Backtest.DipScenario | app.py:134-158 | The whole worked case, on test data built by `Days`, `DipRate` and `DipNasdaq` (31 consecutive days; USD/JPY at 100 with a dip to 96 on day 10; Nasdaq at 200 up to day 10 and 210 after): exactly one signal and exactly one record, (day 10, -4%, +5%). |

## Left out

- The Streamlit interface, the Plotly figures, the styling of the results
  table and the correlation matrix (`df.corr()`) are left out: they are
  presentation and floating-point statistics.
- The Yahoo download and the FRED CSV fetch are left out; they are network I/O.
  - The market frame is an input: sorted dates, four columns, missing cells
    allowed. This includes the union calendar that `yf.download` builds and the
    column renaming of lines 45-49.
  - A central-bank series is an input list of dated values in date order. An
    unavailable fetch (the empty `DataFrame` of line 30) is the empty list.
- A fetched series has no missing values inside it. A blank entry in a FRED
  CSV is not modelled.
- Assigning a fetched series to a column is modelled as an all-missing column
  when that series is empty. Some pandas versions raise an error instead when
  an empty `DataFrame` is assigned to a column.
- The start date, `datetime.now`, the one-hour cache and time zones are left
  out. Dates are plain day numbers.
- The model uses unbounded reals, not IEEE doubles, so rounding is not
  modelled.
- Division by zero gives `None` in the model. In the source it gives an
  infinity or NaN without raising.
  - `Growth` stands for line 152's floating-point division.
  - `PctChange`: a zero earlier rate gives a missing change. Such a row never
    fires in the model. In the source a non-finite negative change could
    compare below -3%.
- `Outcomes.OutcomeAt`: the bare `except: pass` of line 158 catches nothing.
  On a sorted, duplicate-free index every lookup succeeds, and floating-point
  division does not raise. Every kept signal therefore has a record.
- The code keeps the later of two equally near dates. The model follows the
  code on this tie.
- An empty aligned dataset is not an error in the code: the dashboard goes on
  with an empty table, and the model does the same.
- `Indexer.NearestIndex` follows pandas' choice between the pad and backfill
  positions. pandas would measure a missing pad position against the last
  date, but that case can never win the comparison. The model therefore
  returns the backfill position directly.
- The signal dates are kept as dates. Their `strftime` formatting in the
  results table is not modelled.
