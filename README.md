# Neilyst backtesting core, in Dafny

This project models the arithmetic and bookkeeping core of Neilyst, a
Python crypto-backtesting library, and proves properties of that model.
The model covers these parts:

- **Positions and signals** (`models.py`, with the older copy in
  `Neilyst/models.py`, module `Models`). The mutable `Position` tracks a
  direction, an amount and a notional-weighted open price. It books
  realised and floating pnl. It adds to a held leg or replaces it, and it
  refuses a close larger than the holding. `Strategy.get_recent_data`
  gives a strategy the last N rows at or before a date. The older
  `Position` (Neilyst/models.py:48-106) is the same class without
  `trade_cost`, so one class models both.
- **The replay engine** (`backtest.py`, modules `Engine`, `Backtest` and
  `Metrics`). For each bar, the engine:
  - marks the position at the bar's close;
  - asks the strategy for a signal;
  - applies the open or close accounting to a running balance;
  - writes a ledger record whenever a close empties the position.
  
  It liquidates a position still open at the end. Around it sit the
  `backtest` dispatch, the per-symbol loop and the ledger's timezone
  shift. The metrics of one symbol are win rate, profit/loss ratio, pnl
  drawdown, annual return and holding time, plus the drawdown of a
  balance curve.
- **The local bar cache** (`data.py`, modules `KlineArgs`, `Timestamps`,
  `CacheNames`, `CacheGaps`, `CacheFiles`, `Bars` and `Exchange`). It
  covers:
  - the symbol check and the two timeframe parsers;
  - the day-file name `'{start} - {end}.csv'` and its parser;
  - the minute-by-minute gap scan of `_check_local_data`;
  - the RFC 3339 section 5.6 `date-time` form of the missing ranges;
  - the day grouping of `_save_data`;
  - the file filter and sort of `_aggregate_data`;
  - the fixed-window OHLCV resampler;
  - the paging loop of `_fetch_klines`;
  - the retry loop of `_get_single_symbol_klines`;
  - the `get_klines` dispatch.
- **The legacy all-in backtester** (`Strategy.py`, module
  `LegacyStrategy`). It is a class with a cash balance, a signed
  position, an entry price, a trade-record list and per-row bookkeeping
  cells. Each row goes through slippage-adjusted fills.
- **The trade-history win rate** (`analyze.py`, module `Analyze`). It
  applies a close-order filter, a half-open date filter and a symbol
  filter, then accumulates wins and trades over periods.
  `Neilyst/analyze.py:12-95` repeats `analyze.py:83-166` line for line,
  so one module models both.
- **Two helpers** (`utils/string.py` and `utils/pandas_ta.py`, module
  `Utils`): the first-digit splitter and the length-guarded series check.

Conventions:

- Money, prices and amounts are exact `real`s.
- Times are whole minutes since 1970-01-01 00:00 UTC. The exchange
  module counts milliseconds, as ccxt does.
- pandas NaN and Python `None` are `Option.None`.
- A raised exception is an `Err` carrying its Python class.
- Code that changes state in place is imperative Dafny proved against
  value-level specification functions:
  - `Position`, and the `Backtester` class of `LegacyStrategy`;
  - the engine's bar loop;
  - the gap scan, the day loop, the paging and retry loops;
  - the resampler, and the loops of the win rate and the ledger shift.
- The exchange, the directory listing, the file contents and the
  strategy are function parameters.

## Model

| member | source | states |
|---|---|---|
| Analyze.FilterCloseOrderSpec | analyze.py:161-166 | the close-order filter keeps exactly the rows whose pnl exceeds the threshold in magnitude, each with its multiplicity |
| Analyze.FilterByDateSpec | analyze.py:153-155 | the date filter keeps exactly the rows with `start <= time < end`, each with its multiplicity |
| Analyze.FilterBySymbolSpec | analyze.py:157-159 | the symbol filter keeps exactly the rows of that product, each with its multiplicity |
| Analyze.Wins | analyze.py:143 | the count of winning rows never exceeds the number of rows |
| Analyze.WinRateOverPeriods | analyze.py:134-148 | the loop returns the wins summed over the periods divided by the rows summed over them (0 without rows), a value in [0, 1] |
| Analyze.TotalsStep | analyze.py:138-145 | one more period adds its own wins and rows to the running totals |
| Analyze.TotalWinsAtMostTrades | analyze.py:143-145 | total wins never exceed total trades |
| Analyze.RateInUnit | analyze.py:147 | `wins / trades if trades > 0 else 0` lies in [0, 1] when wins <= trades, and is 0 without trades |
| Analyze.RateBounds | analyze.py:134-148 | the win rate over periods lies in [0, 1] and is 0 when no row falls in any period |
| Analyze.TotalsAppend | analyze.py:138-145 | the totals over two lists of periods are the sums of the totals over each |
| Analyze.RepeatedPeriodsSameRate | analyze.py:138-147 | listing the same periods twice leaves the win rate unchanged |
| Analyze.RateDoubled | analyze.py:147 | doubling both wins and trades leaves the rate unchanged |
| Analyze.TimeBounds | analyze.py:115-118 | the earliest and latest times (`min()`/`max()`) are times of rows and bound every row's time |
| Analyze.UniqueSymbols | analyze.py:122 | `unique()` lists each product of the rows exactly once and nothing else |
| Analyze.WinRateOverallSymbols | analyze.py:120-132 | the all-products path always fails: UnboundLocalError on an empty history, TypeError otherwise |
| Analyze.CalculateWinRate | analyze.py:94-118 | after the close-order filter, it fails exactly when periods are given without a symbol (with the error of the all-products path), and otherwise returns the win rate over the given periods or the default min-to-max window, a value in [0, 1] |
| Analyze.LatestCloseLeftOut | analyze.py:114-155 | without periods, a close stamped at the latest time is never counted, since the window's end is exclusive |
| Analyze.LossThenWinWindow | analyze.py:114-118 | for a loss at minute 0 and a win at minute 10, the default window is `[0, 10)` and holds the loss alone |
| Analyze.DefaultWindowExample | analyze.py:114-118 | on those rows the default window gives rate 0, the whole-history window 1/2 |
| Analyze.WholePeriodsCountAll | analyze.py:102 | a window through the latest minute counts every close once: the rate is all wins over all rows |
| Analyze.FilterAllKept | analyze.py:153-155 | a window that holds every row's time keeps the rows unchanged |
| Analyze.FilterCloseOrder | analyze.py:161-166 | the rows whose pnl exceeds the threshold in magnitude, in frame order; `FilterCloseOrderSpec` proves it keeps exactly those |
| Analyze.FilterByDate | analyze.py:153-155 | the rows with `start <= time < end`, in frame order; `FilterByDateSpec` proves it keeps exactly those |
| Analyze.FilterBySymbol | analyze.py:157-159 | the rows of one product, in frame order; `FilterBySymbolSpec` proves it keeps exactly those |
| Analyze.Selected | analyze.py:139-141 | the rows one period contributes: its date window, narrowed to the symbol when one is given |
| Analyze.RateOf | analyze.py:134-148 | the total wins over the total trades of all periods, 0 without trades; `RateBounds` and `WinRateOverPeriods` state its range and its loop |
| Analyze.DefaultPeriods | analyze.py:115-118 | the single window from the earliest to the latest time; an empty frame gives an empty window |
| Analyze.WholePeriods | analyze.py:102 | the window through the latest minute that the docstring promises; `WholePeriodsCountAll` proves it counts every row |
| Backtest.ConvertResultTime | backtest.py:192-214 | the copy loop returns exactly the conversion specified by `Converted`: `None` for an empty ledger, otherwise every record shifted, or the TypeError of the first record without a date |
| Backtest.ShiftAllSpec | backtest.py:203-212 | shifting succeeds exactly when every record has both dates; it then keeps the length and shifts each record on its own, and the only error is TypeError |
| Backtest.ConvertedSpec | backtest.py:192-214 | an empty ledger gives `None`; a converted ledger has the same length, both dates of every record moved by `60 * hours` minutes and every other field unchanged; conversion fails exactly when some record lacks a date |
| Backtest.ShiftRoundTrip | backtest.py:192-214 | shifting by `hours` and then by `-hours` gives the ledger back |
| Backtest.EngineLedgerConverts | backtest.py:126-180 | every ledger the engine produces converts without error |
| Backtest.MultiSymbolEngine | backtest.py:184-190 | the dictionary is built exactly when every symbol's run and conversion succeed; its keys are the symbols and each value is that symbol's converted ledger |
| Backtest.RunBacktest | backtest.py:9-45 | a string symbol gives its converted ledger; a list gives a dictionary whose keys are exactly its symbols, each mapped to its converted ledger; anything else leaves `result` unbound (UnboundLocalError) |
| Backtest.ShiftAllErrSticks | backtest.py:204-212 | once a record cannot be shifted, the whole conversion fails with that record's error, whatever follows |
| Backtest.ShiftRecord | backtest.py:205-210 | one record with both dates moved by the offset; a missing date raises TypeError |
| Backtest.ShiftAll | backtest.py:203-212 | every record shifted, in order, the first failure raising; `ShiftAllSpec` and `ShiftRoundTrip` prove it shifts each record and can be undone |
| Backtest.Converted | backtest.py:192-214 | `None` for an empty ledger, otherwise the shifted copy; `ConvertedSpec` proves both cases |
| Backtest.SymbolResult | backtest.py:186-188 | one symbol's engine ledger, converted to local time; `MultiSymbolEngine` proves every dictionary entry is this value |
| Engine.RunPrefix | backtest.py:73-78 | the loop over `i + 1` bars is the loop over `i` bars followed by one more step |
| Engine.RunErrSticks | backtest.py:73-140 | once the loop has raised, every longer run raises the same exception |
| Engine.OpenLeg | backtest.py:82-94 | the open branch changes the position and balance exactly as `ApplyOpen` says: it raises what `open` raises, otherwise it records the leg's cost as the trade cost and debits notional plus cost for a long, the cost alone for a short |
| Engine.CloseLeg | backtest.py:95-140 | the close branch leaves position, balance and ledger exactly as `ApplyClose` says, handing back the same position or a fresh one after a full close |
| Engine.SingleSymbolEngine | backtest.py:61-182 | the loop with the final liquidation returns exactly the ledger `Ledger` specifies for the bars, the strategy, the starting balance and fee plus slippage |
| Engine.StepSane | backtest.py:73-140 | one bar keeps the book sane: a position without a direction holds nothing, a directed one has an open date, every ledger record is a full close |
| Engine.RunSane | backtest.py:73-140 | every book the loop reaches is sane |
| Engine.LedgerShape | backtest.py:61-182 | the ledger is the loop's full-close records in order, plus one liquidation record at the last bar's time and close exactly when something is still held; every record has both dates; the only exception is `open`'s ZeroDivisionError |
| Engine.RunErrKind | backtest.py:73-140 | the only exception the loop raises is ZeroDivisionError |
| Engine.OpenCharges | backtest.py:82-94 | an open replaces the trade cost with this leg's cost, debits notional plus cost for a long and only the cost for a short, and leaves the ledger alone |
| Engine.CloseQuantity | backtest.py:95-140 | a close settles `min(requested, held)`: nothing happens when that is not positive; at least the held amount empties the position and appends one record dated at the close; less keeps the rest open with no record |
| Engine.RoundTrip | backtest.py:82-140 | a round trip from flat writes one record with the leg's prices, dates and both fees, whose pnl is the price move less both fees; the balance moves by that pnl for a long and by the pnl less the open fee once more for a short |
| Engine.ZeroFeeRoundTrip | backtest.py:82-140 | without costs, opening and closing at one price books zero pnl and restores the balance |
| Engine.LongExample | backtest.py:82-140 | long 1 at 100 closed at 110 without costs: pnl 10, balance 50010 from 50000 |
| Engine.ShortChargesOpenFeeTwice | backtest.py:84-117 | a short of 1 at 100 closed at 100 with costs of ten percent records pnl -20 but takes 30 from the balance |
| Engine.SettleIntended | backtest.py:111-117 | the corrected settlement records the same profit as the code |
| Engine.IntendedRoundTrip | backtest.py:82-117 | with the corrected settlement, open debit plus close credit move the balance by exactly the recorded pnl, long or short |
| Engine.Marked | backtest.py:75 | the position marked at the bar's close, which is what the strategy is shown |
| Engine.ApplyOpen | backtest.py:82-94 | an open signal opens or adds to the leg, records that leg's cost as the trade cost and debits the balance; `OpenLeg` and `OpenCharges` prove the amounts |
| Engine.Settle | backtest.py:96-119 | the settlement of a quantity at a price: a long is credited its net proceeds, a short its profit; `CloseLeg`, `RoundTrip` and `ShortChargesOpenFeeTwice` prove the amounts |
| Engine.ApplyClose | backtest.py:95-140 | a close signal settles `min(requested, held)` when positive, and records and resets the trade once the position is empty; `CloseQuantity` proves the quantity |
| Engine.Step | backtest.py:74-140 | one bar of the loop: mark, ask the strategy, apply its signal; `StepSane` proves it keeps the book consistent |
| Engine.Run | backtest.py:73-140 | the loop over all bars from the initial book, an exception stopping it; `RunPrefix`, `RunSane` and `RunErrSticks` state its properties |
| Engine.Liquidate | backtest.py:143-180 | what is still held is settled at the last close and recorded, dated at the last bar |
| Engine.Ledger | backtest.py:61-182 | the ledger the engine returns: the loop then the liquidation; `LedgerShape` and `SingleSymbolEngine` state its properties |
| Models.Position.constructor | models.py:70-80 | a new position is flat: no direction, nothing held, zero prices, pnl, float profit and trade cost, no dates |
| Models.Position.UpdateFloatProfit | models.py:82-89 | only the float profit changes, to the signed unrealised profit at the price (0 without a direction) |
| Models.Position.Open | models.py:91-109 | the fields become `Opened` of the old state: a weighted-average add to the held leg, or a replacement; the ZeroDivisionError leaves every field unchanged |
| Models.Position.Close | models.py:111-128 | the fields become `Closed` of the old state: refused when more than is held, else the pnl and amount are updated and the close is stamped when the amount reaches zero |
| Models.FlatHasNoFloat | models.py:70-89 | a new position has no unrealised profit at any price |
| Models.WeightedAverageBetween | models.py:99-100 | a notional-weighted average price lies between the two prices averaged |
| Models.OpenAverages | models.py:93-109 | adding to the held leg sums the amounts, keeps the total notional, puts the open price between the old one and the fill, and keeps direction and pnl |
| Models.OpenReplaces | models.py:103-109 | with nothing held in that direction, `open` replaces the leg outright and keeps pnl and close fields |
| Models.OpenFails | models.py:93-100 | `open` raises exactly when it adds minus the held amount to the held leg |
| Models.OpenAtMarkKeepsFloat | models.py:82-102 | adding at the marking price leaves the unrealised profit at that price unchanged |
| Models.CloseRefused | models.py:113-115 | closing more than is held changes nothing |
| Models.CloseAccounting | models.py:117-128 | an accepted close lowers the amount by the quantity (never below zero), books the signed profit, keeps direction, open price and date, and stamps the close exactly when the amount reaches zero |
| Models.CloseAtMarkConserves | models.py:82-123 | closing at the marking price keeps realised plus unrealised profit constant |
| Models.AtOrBefore | models.py:37-38 | `index[index <= date]` is no longer than the index |
| Models.LastSlice | models.py:37-38 | `xs[-n:]` is always a suffix of `xs` |
| Models.InnerJoin | models.py:49 | the inner join holds exactly the labels both frames have, no more than the first frame has |
| Models.AtOrBeforeMembers | models.py:37-38 | the rows at or before the date are exactly the index entries not after it |
| Models.RecentIndexSpec | models.py:37-38 | no lookahead: every selected row is at or before the date, and for positive `periods` the selection is the latest `periods` such rows in index order |
| Models.RecentIndexZeroKeepsAll | models.py:37-38 | asking for zero periods selects every row at or before the date |
| Models.RecentIndexZeroExample | models.py:37 | one row at time 1, date 5, zero periods: the row comes back |
| Models.LatestRows | models.py:37-38 | the corrected selection holds at most `max(periods, 0)` rows, all at or before the date |
| Models.LatestRowsAgrees | models.py:37-38 | for positive `periods` the corrected selection equals the code's |
| Models.RecentCombinedSpec | Neilyst/models.py:14-29 | the combined view holds only rows at or before the date that are in both frames, at most `periods` of them for positive `periods` |
| Models.GetRecentDataSpec | models.py:14-51 | whatever form the arguments take, a returned view has no row after the date and at most `periods` rows for positive `periods` |
| Models.GetRecentDataNeedsSymbol | models.py:24-26 | per-symbol data without a symbol raises ValueError |
| Models.FloatProfit | models.py:82-89 | the unrealised profit of the held amount at a price; `FlatHasNoFloat` proves a flat position has none |
| Models.Opened | models.py:91-109 | opening re-prices an added leg at the weighted average and replaces any other leg; `OpenAverages`, `OpenReplaces` and `OpenFails` state its cases |
| Models.Closed | models.py:111-128 | closing more than is held is refused; otherwise the amount drops, and an emptied position is stamped; `CloseRefused` and `CloseAccounting` state its cases |
| Models.RecentIndex | models.py:37-38 | the last `periods` labels at or before the date; `RecentIndexSpec` proves which labels it keeps |
| Models.RecentCombined | models.py:37-49 | the labels both selections keep; `RecentCombinedSpec` proves which |
| Models.GetRecentData | models.py:14-51 | the recent rows of data and indicators, or the error the argument checks raise; `GetRecentDataSpec` and `GetRecentDataNeedsSymbol` state its cases |
| LegacyStrategy.Visited | Strategy.py:32-41 | a visit keeps the table's length |
| LegacyStrategy.Replayed | Strategy.py:18-41 | the replayed table has one row of cells per bar |
| LegacyStrategy.Backtester.constructor | Strategy.py:26-29 | a new backtester holds the initial amount as balance and total, no position, no entry price, no records |
| LegacyStrategy.Backtester.OpenPosition | Strategy.py:53-100 | the state and the row's cells become what `Opened` gives; every other row is untouched |
| LegacyStrategy.Backtester.OpenLong | Strategy.py:55-76 | the long branch leaves state and row exactly as `Opened` gives for a long order |
| LegacyStrategy.Backtester.OpenShort | Strategy.py:79-100 | the short branch leaves state and row exactly as `Opened` gives for a short order |
| LegacyStrategy.Backtester.ClosePosition | Strategy.py:102-148 | the state and the row's cells become what `ClosedAt` gives; a flat book is left alone |
| LegacyStrategy.Backtester.CloseLong | Strategy.py:104-125 | selling a held long leaves state and row exactly as `ClosedAt` gives |
| LegacyStrategy.Backtester.CloseShort | Strategy.py:127-148 | buying back a held short leaves state and row exactly as `ClosedAt` gives |
| LegacyStrategy.Backtester.Trade | Strategy.py:43-51 | the signals are applied in list order at the row's close, as `Traded` gives |
| LegacyStrategy.Backtester.VisitRow | Strategy.py:32-41 | one row is traded when the strategy signals and otherwise marked, as `Visited` gives |
| LegacyStrategy.Backtester.RunBacktest | Strategy.py:13-41 | the reset and the loop over every row leave state and table exactly as `Replayed` gives |
| LegacyStrategy.OpenSpec | Strategy.py:53-100 | an open invests the balance less its fee: units times fill equal that amount and the new total; a long leaves no cash, a short adds the proceeds; the entry is the fill; one record with pnl 0; the row's `pos` cell moves with the position |
| LegacyStrategy.CloseSpec | Strategy.py:102-148 | a close on a flat book changes nothing; otherwise position and entry drop to 0, the total is the cash, one record carries the signed position and its pnl, a long receives `pos * sell * (1 - fee)` and a short pays `abs(pos) * buy * (1 + fee)` |
| LegacyStrategy.ClosePnlSign | Strategy.py:106-132 | a close gains exactly when a long sells above its entry or a short buys back below it |
| LegacyStrategy.AppliedRecords | Strategy.py:47-51 | each signal appends exactly one record (dated with the row, carrying the signal) when it executes and changes nothing otherwise |
| LegacyStrategy.TradedRecords | Strategy.py:43-51 | `trade` keeps the earlier records and appends at most one per signal, each dated with the row, carrying an open or close signal from the list, opens with pnl 0 |
| LegacyStrategy.TradedInOrder | Strategy.py:47-51 | trading one list of signals and then another equals trading the two joined |
| LegacyStrategy.LongRoundTrip | Strategy.py:55-125 | a long from a flat book with a positive balance writes two records, ends flat, books `(sell - entry) * units`, and ends at the balance less the open fee plus that pnl less the close fee |
| LegacyStrategy.ShortRoundTrip | Strategy.py:79-148 | a short books `(entry - buy) * units` and ends at the balance plus that pnl less the close fee only: the open fee never leaves the cash |
| LegacyStrategy.ZeroFeeRoundTrip | Strategy.py:53-148 | without fee or slippage, opening and closing at one price books pnl 0 and restores the balance, on either side |
| LegacyStrategy.ShortOpenMarkGap | Strategy.py:79-90 | after a long open the cash plus the position at its fill is the reported total; after a short open it exceeds the total by the whole open fee |
| LegacyStrategy.ShortOpenFeeExample | Strategy.py:55-148 | 1000 with a 10% fee at 100 and back at 100: a long ends at 810, a short at 910 |
| LegacyStrategy.IntendedShortRoundTrip | Strategy.py:82-88 | with the fee taken out of the cash, a short's total equals its cash plus the position at the fill, and its round trip ends at the balance less the open fee plus the pnl less the close fee, as a long's does |
| LegacyStrategy.IntendedShortOpen | Strategy.py:82-88 | the corrected short open is the open as written with the fee taken from the cash |
| LegacyStrategy.CloseWithLessCash | Strategy.py:127-148 | closing a short with less cash writes the same record and ends with that much less cash |
| LegacyStrategy.VisitedRow | Strategy.py:32-41 | visiting a row writes only that row's cells |
| LegacyStrategy.ReplayedRows | Strategy.py:21-41 | rows the replay has not reached are blank, and a reached row keeps what its own visit wrote |
| LegacyStrategy.QuietRowMarked | Strategy.py:36-41 | a row without signal ends showing the position, the cash, the cash plus the position at its close, and the entry price as they stood when it was reached |
| LegacyStrategy.MarkedBlank | Strategy.py:38-41 | marking a blank row shows the book's position, cash, marked total and entry price |
| LegacyStrategy.VisitedQuiet | Strategy.py:36-41 | visiting a row without signal marks its cells |
| LegacyStrategy.RowBlank | Strategy.py:21-24 | a row the replay has not reached is blank |
| LegacyStrategy.RowKept | Strategy.py:32-41 | a passed row keeps the cells its visit wrote |
| LegacyStrategy.ReplayedRecords | Strategy.py:32-51 | every record is dated with a visited bar's time and carries an open or close signal, opens with pnl 0 |
| LegacyStrategy.Opened | Strategy.py:53-100 | an open signal: a long buys at the raised fill and spends all cash, a short sells at the lowered fill and banks the proceeds; `OpenSpec` proves the new state |
| LegacyStrategy.OpenedIntended | Strategy.py:82-88 | the short open with its fee taken out of the cash, as the reported total assumes; `IntendedShortOpen` proves it |
| LegacyStrategy.ClosedAt | Strategy.py:102-148 | a close signal: a long sells at the lowered fill, a short buys back at the raised one, paying the fee, and the position empties; `CloseSpec` proves the new state |
| LegacyStrategy.Applied | Strategy.py:47-51 | one signal: opens open, the three closing signals close, and others do nothing; `AppliedRecords` proves what it records |
| LegacyStrategy.Traded | Strategy.py:43-51 | the signals of a row applied in list order at its close; `TradedRecords` and `TradedInOrder` prove what it records |
| LegacyStrategy.Marked | Strategy.py:36-41 | a row without a signal shows the cash, the position marked at the close, and the entry price; `QuietRowMarked` proves it |
| Metrics.Pnls | backtest.py:269 | the `pnl` column has one entry per record, the record's pnl |
| Metrics.Wins | backtest.py:315 | the number of winning trades never exceeds the number of trades |
| Metrics.WinRate | backtest.py:313-315 | the mean of `pnl > 0` is NaN exactly for no trades and otherwise lies in [0, 1] |
| Metrics.WinsExtremes | backtest.py:315 | every trade wins exactly when the win count is the trade count, none does exactly when it is 0 |
| Metrics.WinRateExtremes | backtest.py:313-315 | the win rate is 1 exactly when every trade won and 0 exactly when none did |
| Metrics.FractionExtremes | backtest.py:315 | a fraction of a positive whole is 1 exactly at the whole and 0 exactly at 0 |
| Metrics.Mean | backtest.py:319-320 | `mean()` is NaN exactly for an empty series |
| Metrics.Gains | backtest.py:319 | the winning pnls are all positive and none exist exactly when no trade is positive |
| Metrics.Losses | backtest.py:320 | the losing pnls are all negative and none exist exactly when no trade is negative |
| Metrics.SumSigns | backtest.py:319-320 | a non-empty sum of negatives is negative and of positives positive |
| Metrics.MeanLossNeverZero | backtest.py:320-321 | the mean loss, when there is one, is negative, so the `!= 0` guard never applies |
| Metrics.SignOverCount | backtest.py:319-320 | dividing by a positive count keeps the sign |
| Metrics.ProfitLossRatioSpec | backtest.py:317-321 | the ratio as written is a number exactly when there is a winning and a losing trade, and it is then positive; otherwise NaN |
| Metrics.QuotientOfSigns | backtest.py:321 | a positive mean gain over a negative mean loss is negative before `abs` |
| Metrics.ProfitLossRatioNoLossExample | backtest.py:319-321 | a single winning trade of 5 gives NaN, not 0 |
| Metrics.ProfitLossRatioIntended | backtest.py:319-321 | the corrected ratio is 0 when no trade loses, NaN exactly when every trade is a non-gain and one loses, and never negative |
| Metrics.ProfitLossRatio | backtest.py:317-321 | `abs(mean gain / mean loss)`, or 0 when the mean loss is 0, with a missing mean propagating; `ProfitLossRatioSpec` proves its cases |
| Metrics.PeakIsMax | backtest.py:325-326 | the running peak of cumulative pnl is at least every prefix sum and equal to one of them |
| Metrics.DrawdownIsLargestFall | backtest.py:323-328 | the maximum drawdown bounds every fall of cumulative pnl from an earlier total, is one such fall, and is never negative |
| Metrics.DrawdownBoundsFalls | backtest.py:323-328 | every fall of cumulative pnl from an earlier total is at most the drawdown |
| Metrics.DrawdownIsAFall | backtest.py:323-328 | the drawdown is the fall between two prefix sums |
| Metrics.PrefixSumStep | backtest.py:325 | the next cumulative sum adds the next pnl |
| Metrics.PrefixSumsRise | backtest.py:325 | with no loss after the first trade the cumulative sums never fall |
| Metrics.DrawdownZeroWhenNeverFalls | backtest.py:323-328 | with no loss after the first trade the drawdown is 0 |
| Metrics.MaxDrawdown | backtest.py:323-328 | NaN for no trades, otherwise the deepest fall of the cumulative pnl below its running peak; `DrawdownIsLargestFall` and `DrawdownIsAFall` prove it |
| Metrics.AnnualReturn | backtest.py:330-365 | the total pnl as a yearly rate on the initial balance; `AnnualReturnSpec` proves its cases |
| Metrics.AnnualReturnSpec | backtest.py:330-365 | it raises ValueError exactly for a non-positive balance; it is 0 over less than a day; otherwise return times balance times years is the total pnl, with the total pnl's sign |
| Metrics.BalancePeakBounds | backtest.py:506 | the running peak of the balances is at least every balance and one of them |
| Metrics.RelativeFallBounds | backtest.py:507 | a positive balance at or below a peak gives a relative fall in (-1, 0] |
| Metrics.BalanceDrawdownBounds | backtest.py:504-508 | on positive balances the drawdown is a finite number in (-1, 0] |
| Metrics.RisingPeakIsLast | backtest.py:506 | on a non-falling curve the peak is the last balance |
| Metrics.BalanceDrawdownZeroWhenRising | backtest.py:504-508 | a non-falling positive curve has drawdown exactly 0 |
| Metrics.RelativeFall | backtest.py:507 | `(balance - peak) / peak` in floating point: NaN exactly for 0/0, minus infinity exactly for a fall below a zero peak, else the number whose product with the peak is the fall |
| Metrics.DrawdownAt | backtest.py:506-507 | row `k` of the drawdown column: the balance's relative fall below the running peak up to `k` |
| Metrics.MinSkippingNaN | backtest.py:508 | `min` of two floats as pandas takes it: NaN skipped, minus infinity below every number |
| Metrics.MaxDrawdownFromBalance | backtest.py:504-508 | the smallest entry of the drawdown column, skipping NaN; `BalanceDrawdownSpec` proves what it is |
| Metrics.BalanceDrawdownSpec | backtest.py:504-508 | the drawdown is NaN exactly when every entry is NaN, minus infinity exactly when some entry is, and otherwise a number at most every finite entry and equal to one of them |
| Metrics.ZeroStartSkipped | backtest.py:504-508 | a curve starting at 0 and rising to 5 has drawdown 0, since the leading 0/0 is skipped |
| Metrics.FallBelowZeroPeak | backtest.py:504-508 | a curve falling from 0 to -5 has drawdown minus infinity |
| Metrics.ArgMax | backtest.py:284 | `idxmax` is the first position of the largest value |
| Metrics.ArgMin | backtest.py:289 | `idxmin` is the first position of the smallest value |
| Metrics.HoldingHours | backtest.py:277 | one holding time per record |
| Metrics.Figures | backtest.py:257-310 | the figures count one trade per record, give a win rate in [0, 1] and a non-negative drawdown, the largest and smallest pnl of a record closed at the reported time, and the first open and last close as the period |
| Metrics.EvaluateSingleSymbol | backtest.py:238-310 | nothing for an empty ledger; the ValueError of the annual return exactly for a non-positive balance; otherwise figures that describe the ledger |
| Bars.MaxHighIsMax | data.py:338 | the window's `high.max()` bounds every high and is one of them |
| Bars.MinLowIsMin | data.py:339 | the window's `low.min()` bounds every low from below and is one of them |
| Bars.TotalVolumeAppend | data.py:341 | the volume of two runs of bars joined is the sum of their volumes |
| Bars.ResampleStep | data.py:334-342 | resampling from row `i` is the aggregate of the window at `i` followed by resampling from the window's end |
| Bars.CustomResampler | data.py:331-343 | a window of 0 raises ValueError, a negative one gives no rows, a positive one gives exactly the windows aggregated in order, labelled, as line 69 does, with their first row's time |
| Bars.PendingStep | data.py:334-342 | the rows still to come from row `i` start with the window at `i` |
| Bars.PendingDone | data.py:334 | past the last row nothing is left to come |
| Bars.ResampleCount | data.py:334 | there are `ceil(n / k)` rows: the fewest windows that hold every bar |
| Bars.ResampleAt | data.py:334-342 | row `j` is the aggregate of rows `j*k` up to `j*k + k` |
| Bars.WindowShift | data.py:335 | window `j` of the data is window `j - 1` of the data after its first window |
| Bars.ResampleRow | data.py:336-342 | each row is labelled and opens at the first bar of its window, closes at the last, and its high and low are the window's extremes, reached by some bar; its volume is the window's |
| Bars.ResampleVolume | data.py:341 | the rows' volumes add up to the bars' volumes |
| Bars.ResampleByOne | data.py:331-343 | a window of one bar reproduces the input |
| Bars.Aggregate | data.py:336-342 | one window as one bar: first open, highest high, lowest low, last close, summed volume; `ResampleRow` proves each field |
| Bars.Resample | data.py:334-342 | the windows of `k` rows aggregated in order, the trailing partial window kept; `ResampleCount` and `ResampleAt` prove its length and rows |
| Timestamps.FromToMinutes | data.py:277-278 | valid calendar fields convert to a minute since the epoch and back unchanged |
| Timestamps.ToFromMinutes | data.py:191-192 | every minute since the epoch has valid calendar fields, which convert back to it |
| Timestamps.YearOfBounds | data.py:191-192 | counting days from a year lands in a later or the same year, inside it, at the right day count |
| Timestamps.YearOfInverse | data.py:277-278 | the day count of a year and day-of-year finds that year and day again |
| Timestamps.DigitChar | data.py:191-192 | a digit value prints as an ASCII digit |
| Timestamps.Pad2 | data.py:191-192 | a two-digit field prints as two characters |
| Timestamps.Pad4 | data.py:191-192 | a year below 10000 prints as four characters |
| Timestamps.ParsePad2 | data.py:277-278 | a zero-padded two-digit field reads back as its value |
| Timestamps.ParsePad4 | data.py:277-278 | a zero-padded four-digit year reads back as its value |
| Timestamps.DaysBeforeYearMonotone | data.py:191-192 | later years start later |
| Timestamps.DaysBeforeYearClosed | data.py:191-192 | the days before a year are 365 per year plus one per leap year passed |
| Timestamps.LeapStep | data.py:191-192 | one more year adds one leap year exactly when it is a leap year |
| Timestamps.DaysBeforeYear10000 | data.py:191-192 | 10000-01-01 is 2932897 days after the epoch |
| Timestamps.PrintableYear | data.py:191-192 | a minute before 10000-01-01 has a four-digit year |
| Timestamps.FormatStamp | data.py:191-192 | `strftime('%Y-%m-%d-%H:%M')` is 16 characters long |
| Timestamps.FormatRfc3339 | data.py:303-304 | `strftime('%Y-%m-%dT%H:%M:%SZ')` of a whole minute is 20 characters long |
| Timestamps.StampLayout | data.py:191-192 | the five fields and four separators of the file-name layout sit at fixed positions |
| Timestamps.ParseFormatStamp | data.py:277-278 | formatting a minute in the file-name layout and parsing it back gives the minute |
| Timestamps.ParseStamp | data.py:277-278 | `strptime` in the file-name layout for zero-padded fields, None where it raises; `ParseFormatStamp` proves it inverts the formatting |
| CacheNames.Split | data.py:276 | `str.split` always gives at least one piece |
| CacheNames.LastIndexOf | data.py:275 | the index found holds the character and none after it does; without one, no position holds it |
| CacheNames.FormatMissingData | data.py:295-308 | it succeeds exactly when every label re-lays out, and then gives one pair per label, in order, each that label's RFC 3339 pair |
| CacheNames.StampHasNoSpaceOrDot | data.py:191-194 | a formatted stamp holds no space and no dot |
| CacheNames.SplitWithoutSeparator | data.py:276 | a string without a space splits into itself |
| CacheNames.SplitAtSeparator | data.py:276 | a space-free head joined by `' - '` splits off as the first piece |
| CacheNames.SplitPair | data.py:276 | two space-free strings joined by `' - '` split back into the two |
| CacheNames.ParseFileName | data.py:271-280 | the name `_save_data` writes for a day file parses back as exactly its first and last minute |
| CacheNames.FormatMissingLabel | data.py:295-306 | a gap label re-lays out as the RFC 3339 forms of its own two ends |
| CacheNames.ParseTimeRange | data.py:271-280 | the two stamps of a file name, ValueError when it does not split into two valid stamps; `ParseFileName` proves a saved name parses back |
| CacheNames.FormatMissingPeriod | data.py:298-306 | one gap label re-laid out as an RFC 3339 pair, ValueError when it does not parse; `FormatMissingLabel` proves the pair |
| CacheGaps.ParseAll | data.py:248-249 | one parse per name of the listing, in order |
| CacheGaps.DayCoverageOk | data.py:248-253 | a day's coverage is collected exactly when every name of the listing parses |
| CacheGaps.DayCoverageComplete | data.py:248-253 | every file touching the day is in its coverage, its end moved on by the timeframe |
| CacheGaps.DayCoverageSound | data.py:248-253 | every interval of the coverage is a parsed file touching the day, its end moved on by the timeframe |
| CacheGaps.RunEnd | data.py:260-262 | the run from `t` ends at the first covered minute or at the day's end, and no minute before that is covered |
| CacheGaps.Gaps | data.py:256-265 | every run lies inside `[t, dayEnd)` and is non-empty |
| CacheGaps.DayStartOf | data.py:243 | the midnight of a minute's day is at or before it, less than a day before, on a day boundary |
| CacheGaps.Labels | data.py:263 | one label per run |
| CacheGaps.LabelsPointwise | data.py:263 | each label shows the run at the same position |
| CacheGaps.ScanDay | data.py:256-265 | the minute-by-minute loop over one day returns exactly the maximal uncovered runs `Gaps` specifies |
| CacheGaps.CollectCoverage | data.py:245-253 | the listing loop returns exactly the day's coverage, or the error of the first name that does not parse |
| CacheGaps.CheckLocalData | data.py:225-269 | it succeeds exactly when the timeframe is known and the scan succeeds; then it gives one label `'{start} - {end}'` per missing run of every visited day, in order, each within the printable years |
| CacheGaps.ScanDays | data.py:241-267 | the day loop returns exactly the labels of the runs of every visited day, and fails exactly when the scan fails |
| CacheGaps.ScanLoop | data.py:241-267 | the loop stops past the last day with the labels of every visited day, or fails only when the whole scan fails |
| CacheGaps.ScanOneDay | data.py:243-267 | one pass appends the labels of the current day's runs, or fails when that day's coverage cannot be collected |
| CacheGaps.VisitDay | data.py:243-265 | one day gives the uncovered runs of its coverage, and fails exactly when its coverage fails |
| CacheGaps.ScannedStep | data.py:241-267 | scanning one more day appends that day's runs |
| CacheGaps.ScannedAgrees | data.py:241-267 | the days scanned so far followed by the rest of the scan make the whole scan |
| CacheGaps.ScanFails | data.py:248-249 | a visited day whose coverage fails makes the whole scan fail |
| CacheGaps.ScanComplete | data.py:242 | once past the last day, what was found is the whole scan |
| CacheGaps.AfterAfter | data.py:263 | putting two prefixes in front in turn is putting their join in front |
| CacheGaps.LabelsAppend | data.py:263 | the labels of joined runs are the joined labels |
| CacheGaps.MissingFromStep | data.py:241-267 | the scan from a visited day is that day's runs followed by the scan from the next day |
| CacheGaps.MissingFromErr | data.py:248-249 | the scan from a day whose coverage fails fails |
| CacheGaps.DayCoverageErrPrefix | data.py:248-249 | once a name fails to parse, the whole listing fails with that error |
| CacheGaps.MissingFromPrintable | data.py:263 | every run the scan reports lies within the printable years |
| CacheGaps.GapsExact | data.py:256-265 | a minute of the day is reported missing exactly when no covered interval holds it |
| CacheGaps.GapsMaximal | data.py:257-262 | each run starts at the day's start or just after a covered minute and ends at the day's end or at a covered minute |
| CacheGaps.GapStart | data.py:257-262 | each run starts at the day's start or just after a covered minute |
| CacheGaps.GapsSkipCovered | data.py:264-265 | a covered first minute is skipped |
| CacheGaps.GapsFirstRun | data.py:258-262 | without a cover at `t`, the first run starts at `t` and ends at the first covered minute |
| CacheGaps.GapsAfterRun | data.py:258-265 | after the first run, the remaining runs start past the covered minute that ends it |
| CacheGaps.GapEnd | data.py:260-262 | each run ends at the day's end or at a covered minute |
| CacheGaps.GapsSorted | data.py:256-265 | the runs come in order with at least one covered minute between consecutive runs |
| CacheGaps.GapOrdered | data.py:256-265 | each run starts past the end of the one before it |
| CacheGaps.GapsUncovered | data.py:256-263 | with nothing covered a day is one run from midnight to midnight |
| CacheGaps.GapsFullyCovered | data.py:256-265 | an interval covering the whole day leaves no run |
| CacheGaps.MissingWithoutFiles | data.py:241-267 | without any cache file every visited day is missing whole, from its midnight to the next |
| CacheGaps.LocalGapsFails | data.py:225-269 | the check fails exactly when the timeframe is refused, or when some day is visited and some file name does not parse |
| CacheGaps.MissingFromFails | data.py:241-267 | the scan fails exactly when a day is visited and some name does not parse |
| CacheGaps.DayCoverage | data.py:245-253 | the covered intervals of one day, from every file touching it, the first unparsable name raising; `DayCoverageOk`, `DayCoverageComplete` and `DayCoverageSound` prove it |
| CacheGaps.MissingFrom | data.py:241-267 | the gaps of every day the scan visits, in order; `MissingFromStep`, `MissingFromErr` and `MissingFromFails` state its cases |
| CacheGaps.LocalGaps | data.py:225-269 | the gaps `_check_local_data` finds before they are written as labels; `LocalGapsFails` proves when it fails |
| CacheGaps.LabelsFormat | data.py:295-306 | each reported label re-lays out as the RFC 3339 forms of its run's two ends |
| CacheFiles.MinMaxTime | data.py:188-189 | a group's earliest and latest times bound every row's time and are each the time of some row |
| CacheFiles.DayGroupMembers | data.py:187 | the group of a day holds exactly the bars that fall on that day |
| CacheFiles.DayGroupPrintable | data.py:187-192 | a group of printable bars has only printable bars |
| CacheFiles.DayGroup | data.py:187 | the rows of one calendar day in frame order; `DayGroupMembers` proves which |
| CacheFiles.DayFileOf | data.py:187-194 | a day's file holds that day's group and is named after the group's earliest and latest minute |
| CacheFiles.SaveData | data.py:180-198 | one file per day that holds a bar, in increasing day order; each holds that day's rows and is named after their earliest and latest minute; every bar's day has a file |
| CacheFiles.SaveDays | data.py:187-197 | the loop over the days from first to last yields the files of exactly the days in that range that hold a bar, in day order |
| CacheFiles.SavedAll | data.py:187-197 | once past the day of the latest bar, every bar has the file of its day |
| CacheFiles.SaveNext | data.py:187-197 | one more day adds that day's file when the day holds a bar, and nothing when it does not |
| CacheFiles.NoBarOnDay | data.py:187 | a day whose group is empty holds no bar |
| CacheFiles.GroupHolds | data.py:187 | every bar lies in the group of its own day |
| CacheFiles.DayFileRange | data.py:187-194 | a saved file's name parses back to its first and last minute, both within its day |
| CacheFiles.DayFileNamesDistinct | data.py:187-194 | the files of two different days have different names, so saving one day never overwrites another |
| CacheFiles.LoadAll | data.py:213-218 | one loaded frame per kept name, in order |
| CacheFiles.InsertByTimePerm | data.py:221 | inserting a row adds exactly that row |
| CacheFiles.InsertByTimeSorted | data.py:221 | inserting into rows in time order keeps them in time order |
| CacheFiles.SortedCons | data.py:221 | a row no later than every row of a time-ordered list can lead it |
| CacheFiles.SortByTimeSpec | data.py:221 | the sorted rows are in time order and are a permutation of the input |
| CacheFiles.SortByTimeSortedInput | data.py:221 | rows already in time order come back unchanged |
| CacheFiles.SortByTime | data.py:221 | the rows ordered by time; `SortByTimeSpec` proves it sorted and a permutation |
| CacheFiles.InsertAtEnd | data.py:221 | a row no earlier than every row goes at the end |
| CacheFiles.AggregateData | data.py:204-223 | it succeeds exactly when every name parses and at least one file lies within `[start, end]`; the rows are then in time order and are a permutation of the kept files' rows |
| CacheFiles.LoadSelected | data.py:211-223 | the same for any name parser: it fails on the first name that does not parse, and with ValueError when no file is kept |
| CacheFiles.SelectFilesErrPrefix | data.py:213-214 | once a name fails to parse, the whole selection fails with that error |
| CacheFiles.SelectFilesSpec | data.py:213-218 | the selection fails exactly when some name does not parse; otherwise it keeps exactly the listed files whose whole range lies within `[start, end]` |
| CacheFiles.SelectFiles | data.py:213-218 | the listed files that lie within the range, in order, the first unparsable name raising; `SelectFilesSpec` proves it |
| CacheFiles.SavedDayNotMissing | data.py:248-265 | a saved file from a day's midnight whose last bar plus one timeframe reaches the next midnight leaves no gap in that day |
| CacheFiles.DayNotMissing | data.py:248-265 | a parsed file from midnight reaching the next midnight leaves no gap in that day |
| CacheFiles.CoveredByMember | data.py:256-265 | an interval covering the whole rest of the day leaves no gap |
| Exchange.InWindowMembers | data.py:122 | the window keeps exactly the rows with `start <= time < end` |
| Exchange.InWindowAll | data.py:122 | rows already inside the window are kept whole and in order |
| Exchange.Paginate | data.py:104-116 | the rows the paging loop collects; `PaginateStops` and `PaginateFrom` state when it stops and where the rows come from |
| Exchange.InWindow | data.py:122 | the rows in `[start, end)`, in order; `InWindowMembers` proves it keeps exactly those |
| Exchange.FetchKlines | data.py:97-124 | it fails exactly when the symbol check raises; otherwise it returns, in order, the rows in `[start, end)` of the pages collected from `start` on, each request following the last row by one timeframe, stopping at an empty page or one that reaches `end` |
| Exchange.FetchedInWindow | data.py:104-122 | a fetched row lies in `[start, end)` and was paged, and every paged row in that window is kept |
| Exchange.PaginateStops | data.py:105-116 | an empty first page fetches nothing; a first page reaching `end` is the only request |
| Exchange.PaginateFrom | data.py:105-116 | every collected row came from a request made at or after `start` and before `end` |
| Exchange.AttemptsFrom | data.py:149-157 | the count of tries is at least where it started, and never above `retry_count` unless no try was made |
| Exchange.RetryPeriods | data.py:145-157 | every missing period is tried, whatever happened to the ones before; each gets the number of tries and the saved rows that the retry rule gives it |
| Exchange.AttemptsSpec | data.py:149-157 | a period is tried at most `retry_count` times, every try before the last failed, and it is saved exactly when one of its first `retry_count` tries succeeds |
| Exchange.GetKlines | data.py:24-36 | a single symbol yields its bars, a list yields a dictionary with exactly its symbols as keys, each mapped to its bars, and anything else raises ValueError |
| KlineArgs.ReplaceAll | data.py:176 | the result has the same length and every `from` is replaced by `to`, every other character kept |
| KlineArgs.CheckSymbol | data.py:167-178 | it raises exactly when the symbol is empty or holds neither '/' nor '_'; otherwise the result is the symbol with every '_' turned into '/', holding a '/' and no '_' |
| KlineArgs.ParseShowNat | data.py:287 | the decimal digits of a count parse back to that count |
| KlineArgs.IndexOf | data.py:316 | the index found holds the character and no earlier position does; none is found exactly when the character is absent |
| KlineArgs.Truncate | data.py:319-327 | `int` of a float rounds toward zero: a non-negative value is cut down, a negative one up, by less than one |
| KlineArgs.ParseIntShowNat | data.py:316 | the digits of a count read back as that count through both `int` and `float` |
| KlineArgs.ParseTimeframeOfCount | data.py:282-293 | 'Nm', 'Nh' and 'Nd' are N, 60N and 1440N minutes; every other unit letter raises ValueError |
| KlineArgs.ConvertToMinutesOfCount | data.py:310-329 | 'N' followed by m, h, d, w or M is N times 1, 60, 1440, 10080 or 43200 minutes; every other unit letter raises ValueError |
| KlineArgs.TruncateWhole | data.py:319 | a whole number is kept by the truncation |
| KlineArgs.ConvertToMinutesTruncates | data.py:316-323 | fractional counts are cut toward zero: '0.5m' is 0, '1.5h' is 90 and '-0.5h' is -30 minutes |
| KlineArgs.ConvertHalfMinute | data.py:316-319 | '0.5m' is 0 minutes |
| KlineArgs.ConvertHourAndHalf | data.py:316-321 | '1.5h' is 90 minutes |
| KlineArgs.ConvertMinusHalfHour | data.py:316-321 | '-0.5h' is -30 minutes, cut toward zero |
| KlineArgs.ParseHalf | data.py:316 | '0.5' reads as one half |
| KlineArgs.ParseOneAndHalf | data.py:316 | '1.5' reads as three halves |
| KlineArgs.ParseInt | data.py:287 | `int` on an optionally signed ASCII numeral, None where it raises; `ParseIntShowNat` proves it reads printed counts back |
| KlineArgs.ParseFloat | data.py:316 | `float` on an optionally signed decimal numeral, None where it raises; `ParseHalf` and `ParseOneAndHalf` pin fractional values |
| KlineArgs.ParseTimeframe | data.py:282-293 | a timeframe in minutes for the units m, h and d, ValueError otherwise; `ParseTimeframeOfCount` proves each unit |
| KlineArgs.ConvertToMinutes | data.py:310-329 | the float count times the unit's minutes, truncated toward zero, IndexError when empty and ValueError for other units; `ConvertToMinutesOfCount` and `ConvertToMinutesTruncates` prove it |
| Utils.SplitLettersNumbers | utils/string.py:3-21 | the two parts put back together are the input, the first holds no digit, and the second is empty or starts with a digit |
| Utils.FirstDigit | utils/string.py:3-21 | the position of the first digit is within the string |
| Utils.SplitAtFirstDigit | utils/string.py:3-21 | any split with those three facts cuts the string at its first digit |
| Utils.SplitUnique | utils/string.py:3-21 | those three facts fix the split: any two splits with them are equal |
| Utils.VerifySeries | utils/pandas_ta.py:5-9 | a value comes back exactly when it is a Series and no integer minimum length exceeds its length, and then unchanged |
| Utils.VerifySeriesIdempotent | utils/pandas_ta.py:5-9 | a series that passed the check passes it again unchanged |

## Left out

- Input and output are not modelled: the exchange connection and its proxy, `os.listdir`, `read_csv`, `to_csv`, folder creation, `print`, the `tqdm` progress bar and every plot. The directory listing, the loaded file contents, the exchange's pages, the fetched klines and the strategy are parameters.
- `utils/magic.py` is not part of this model. `PNL_THRESHOLD`, `DAYS_IN_ONE_YEAR` and the ledger's timezone offset are parameters of the functions that use them.
- The Sharpe ratios (backtest.py:367-371 and 511-517) use a sample standard deviation and square roots of floats, so they are not modelled.
- `evaluate_strategy` (backtest.py:216-236) and `_evaluate_multi_symbol` (backtest.py:373-481) are not modelled: they concatenate, forward-fill and deduplicate pandas frames. `_calculate_annual_return_from_balance` (backtest.py:483-502) raises to a fractional power, so it is left out too.
- Stubs that compute nothing are not modelled: `cross_sectional_backtest` (backtest.py:47-59), and `calculate_profit_loss_ratio`, `calculate_trade_counts` and `_calculate_profit_loss_ratio` of both analyze files.
- `Factor_Analyzer` and `load_history` (analyze.py:10-81) are not modelled: they are regressions, plots and CSV reading.
- `Strategy.evaluate`, `Strategy.show_pnl` and `Strategy.__get_data` (Strategy.py:10-11, 150-220) are not modelled: they are plots and data loading.
- `aggregate_custom_timeframe` (data.py:38-79) and `_get_single_symbol_klines` (data.py:126-165) build paths and call the modelled pieces in turn. Only their row labelling (line 69) and their retry loop (lines 145-157) are modelled.
- Timestamps are whole minutes, so seconds are not modelled. The `strptime` of the request strings is taken as done: `start` and `end` arrive as minutes.
- `str.isdigit`, `int` and `float` accept Unicode digits, surrounding whitespace, underscores, exponents, `inf` and `nan`. The model reads plain ASCII numerals only and treats every other text as a ValueError.
- KlineArgs.ConvertToMinutes: the count is an exact real, so the rounding of the float product before the truncation is not modelled. For '4.35h' the model gives 261 minutes, while Python computes `4.35 * 60` as just under 261 and returns 260.
- Timestamps.ParseStamp: accepts only zero-padded fields and the years 1970 to 9999. `strptime` also accepts unpadded fields (such as '2024-1-5-3:07') and earlier years. The names that `_save_data` writes are always padded, and in this model they lie within those years.
- Models.InnerJoin: assumes the time index holds no duplicate labels. pandas' inner join would repeat a row once for each matching duplicate.
- Metrics.MaxDrawdownFromBalance: the drawdown column's floats are modelled as NaN, minus infinity or an exact real. Plus infinity cannot arise, because a balance never lies above its running peak. Float rounding of the quotient is not modelled.
- Sequences stand for pandas frames, so row order is list order. `sort_index` is modelled as a stable sort that keeps rows with equal times in frame order. pandas promises no order among such rows, so this is one of the orders it may give.
- CacheGaps.CheckLocalData: requires `0 <= start` and a printable `end` (years 1970 to 9999), because the labels are formatted only for those years. Python formats earlier and later years too.
- CacheGaps.CheckLocalData: takes the listing in the order given. `os.listdir` order is arbitrary, but the result does not depend on it.
- CacheFiles.SaveData: requires every bar to lie in the years 1970 to 9999, for the same formatting reason.
- CacheFiles.AggregateData: takes the listing already sorted, in place of `all_files.sort()`.
- Exchange.FetchKlines: requires every non-empty page to end no earlier than the time it was requested from, which guarantees that the paging loop stops. An exchange that broke this rule could make the Python loop run forever. The timeframe arrives already converted to milliseconds, in place of `parse_timeframe`.
- Metrics.EvaluateSingleSymbol: requires every record to carry both dates. The engine always writes both, and a missing date would make `pd.to_datetime` give NaT.
- Metrics.AnnualReturn: requires both dates on every record, for the same reason.
- LegacyStrategy.Backtester.RunBacktest: requires each row's close, moved by the slippage either way, to be non-zero. At a zero fill, numpy would give inf or nan; exact reals cannot.
- LegacyStrategy.Backtester.Trade: requires non-zero fills, for the same reason.
- LegacyStrategy.Backtester.OpenPosition: requires non-zero fills, for the same reason.
- LegacyStrategy.Backtester.OpenLong: requires non-zero fills, for the same reason.
- LegacyStrategy.Backtester.OpenShort: requires non-zero fills, for the same reason.
- LegacyStrategy.Backtester.VisitRow: requires non-zero fills, for the same reason.
- A strategy is modelled as a pure function of what the engine shows it. A Python strategy object that keeps state between calls is not modelled.
- Engine: the settle step has no branch for a position without a direction. A close only reaches the settle step with something held, and `RunSane` proves that a held position always has a direction.
- The `symbol` argument of the win rate is a string, and `""` stands for `None`. Python treats the two alike, since both are falsy.
- When the history is empty, the default window's ends are NaT, which no time compares with. The model uses the empty window `Period(0, 0)` for it.
- Analyze.CalculateWinRate: `_calculate_win_rate_overall_symbols` never returns a per-symbol map. It either assigns into a float or reads an unbound name, so the model gives its error outcome only.
- Utils.VerifySeries: a non-integer `min_length` is treated as `None`, as `has_length` does.
- Models.GetRecentDataSpec: `periods` is an integer. The slice `[-periods:]` is modelled for every integer, 0 included (see Findings).
- Bars.CustomResampler: a frame is a sequence of bars, so missing columns and NaN values are not modelled.

## Findings

| source | as written | input that shows it | evidently intended | confidence | as-written member | corrected member |
|---|---|---|---|---|---|---|
| models.py:37 | `index[index <= date][-periods:]` keeps every row when `periods` is 0, because `-0` is `0` | `periods = 0`, one row at minute 1 and `date = 5`: that row is returned | at most `periods` rows, so none for 0 | not executed | Models.RecentIndexZeroExample | Models.LatestRowsAgrees |
| backtest.py:111-117 | a short close subtracts the open cost again, although the open already debited it from the balance | balance 1000, a short of 1 at 100 closed at 100, each leg costing 10: the record's pnl is -20 and the balance ends at 970, so the open fee is paid twice | the open fee is charged once, as for a long | not executed | Engine.ShortChargesOpenFeeTwice | Engine.IntendedRoundTrip |
| backtest.py:319-321 | with no losing trade, the mean loss is NaN. `NaN != 0` holds, so the guard never fires and the ratio is NaN | a single trade with pnl 5: the ratio is NaN, not 0 | ratio 0 when nothing was lost | not executed | Metrics.ProfitLossRatioNoLossExample | Metrics.ProfitLossRatioIntended |
| Strategy.py:79-90 | a short open adds `balance - fee` to the cash without ever taking the fee off, while `total` subtracts it | balance 1000, 10% fee, no slippage, short at 100 and closed at 100: the cash ends at 910, where a long ends at 810 | the open fee leaves the cash on both sides | not executed | LegacyStrategy.ShortOpenFeeExample | LegacyStrategy.IntendedShortRoundTrip |
| analyze.py:115 | without periods, the window is `[min time, max time)`, so closes at the latest time are dropped | a loss at minute 0 and a win at minute 10: the win rate is 0, not 0.5 | the whole history, as the docstring says | not executed | Analyze.DefaultWindowExample | Analyze.WholePeriodsCountAll |
