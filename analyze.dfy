/**
 * The win-rate analysis of a live trading history (analyze.py; the copy in
 * Neilyst/analyze.py has the same functions line for line). A history row
 * has a time (时间, in minutes), a product name (产品名称) and a pnl (收益).
 * Opening fills carry a tiny non-zero pnl, so only rows whose |pnl| exceeds
 * a threshold count as closes; the threshold is a parameter here.
 *
 * `symbol` stands for Python's optional string: `""` is both `None` and the
 * empty string, which the code treats alike (both are falsy).
 */
module Analyze {
  import opened Common

  datatype Trade = Trade(time: int, symbol: string, pnl: real)

  /** A `(start, end)` pair of the `periods` list. */
  datatype Period = Period(start: int, end: int)

  // ---------------------------------------------------------------------------
  // Filters

  /** `_filter_close_order`: the rows whose pnl is larger in magnitude than the threshold, in order. */
  function FilterCloseOrder(rows: seq<Trade>, threshold: real): seq<Trade>
  {
    if rows == [] then []
    else
      var last := rows[|rows| - 1];
      FilterCloseOrder(rows[..|rows| - 1], threshold) + (if Abs(last.pnl) > threshold then [last] else [])
  }

  /** `_filter_by_date`: the rows with `start <= time < end`, in order. */
  function FilterByDate(rows: seq<Trade>, start: int, end: int): seq<Trade>
  {
    if rows == [] then []
    else
      var last := rows[|rows| - 1];
      FilterByDate(rows[..|rows| - 1], start, end) + (if start <= last.time < end then [last] else [])
  }

  /** `_filter_by_symbol`: the rows of one product, in order. */
  function FilterBySymbol(rows: seq<Trade>, symbol: string): seq<Trade>
  {
    if rows == [] then []
    else
      var last := rows[|rows| - 1];
      FilterBySymbol(rows[..|rows| - 1], symbol) + (if last.symbol == symbol then [last] else [])
  }

  /** The close-order filter keeps each row with |pnl| above the threshold as often as it occurs, and no other row. */
  lemma {:induction false} FilterCloseOrderSpec(rows: seq<Trade>, threshold: real)
    ensures forall t :: multiset(FilterCloseOrder(rows, threshold))[t] == if Abs(t.pnl) > threshold then multiset(rows)[t] else 0
    ensures forall t :: t in FilterCloseOrder(rows, threshold) <==> t in rows && Abs(t.pnl) > threshold
  {
    if rows != [] {
      FilterCloseOrderSpec(rows[..|rows| - 1], threshold);
      assert rows == rows[..|rows| - 1] + [rows[|rows| - 1]];
    }
  }

  /** The date filter is the half-open window: each row with `start <= time < end` is kept as often as it occurs, a row at `end` is not. */
  lemma {:induction false} FilterByDateSpec(rows: seq<Trade>, start: int, end: int)
    ensures forall t :: multiset(FilterByDate(rows, start, end))[t] == if start <= t.time < end then multiset(rows)[t] else 0
    ensures forall t :: t in FilterByDate(rows, start, end) <==> t in rows && start <= t.time < end
  {
    if rows != [] {
      FilterByDateSpec(rows[..|rows| - 1], start, end);
      assert rows == rows[..|rows| - 1] + [rows[|rows| - 1]];
    }
  }

  /** The symbol filter keeps each row whose product name equals the symbol as often as it occurs, and no other row. */
  lemma {:induction false} FilterBySymbolSpec(rows: seq<Trade>, symbol: string)
    ensures forall t :: multiset(FilterBySymbol(rows, symbol))[t] == if t.symbol == symbol then multiset(rows)[t] else 0
    ensures forall t :: t in FilterBySymbol(rows, symbol) <==> t in rows && t.symbol == symbol
  {
    if rows != [] {
      FilterBySymbolSpec(rows[..|rows| - 1], symbol);
      assert rows == rows[..|rows| - 1] + [rows[|rows| - 1]];
    }
  }

  // ---------------------------------------------------------------------------
  // Win rate over periods

  /** `len(df[df['收益'] > 0])`: the rows with a positive pnl, never more than the rows. */
  function Wins(rows: seq<Trade>): (n: nat)
    ensures n <= |rows|
  {
    if rows == [] then 0 else Wins(rows[..|rows| - 1]) + (if rows[|rows| - 1].pnl > 0.0 then 1 else 0)
  }

  /** The rows one period contributes: its window, narrowed to the symbol when one is given. */
  function Selected(rows: seq<Trade>, p: Period, symbol: string): seq<Trade>
  {
    var inWindow := FilterByDate(rows, p.start, p.end);
    if symbol != "" then FilterBySymbol(inWindow, symbol) else inWindow
  }

  /** Wins summed over the periods. */
  function TotalWins(rows: seq<Trade>, periods: seq<Period>, symbol: string): nat
  {
    if periods == [] then 0
    else TotalWins(rows, periods[..|periods| - 1], symbol) + Wins(Selected(rows, periods[|periods| - 1], symbol))
  }

  /** Rows summed over the periods. */
  function TotalTrades(rows: seq<Trade>, periods: seq<Period>, symbol: string): nat
  {
    if periods == [] then 0
    else TotalTrades(rows, periods[..|periods| - 1], symbol) + |Selected(rows, periods[|periods| - 1], symbol)|
  }

  /** `totals_wins / totals_trades if totals_trades > 0 else 0`. */
  function Rate(wins: nat, trades: nat): real
  {
    if trades > 0 then wins as real / trades as real else 0.0
  }

  function RateOf(rows: seq<Trade>, periods: seq<Period>, symbol: string): real
  {
    Rate(TotalWins(rows, periods, symbol), TotalTrades(rows, periods, symbol))
  }

  /** `_calculate_win_rate_over_periods`. */
  method WinRateOverPeriods(rows: seq<Trade>, periods: seq<Period>, symbol: string) returns (r: real)
    ensures r == RateOf(rows, periods, symbol)
    ensures 0.0 <= r <= 1.0
  {
    var totalWins: nat := 0;
    var totalTrades: nat := 0;
    var k := 0;
    while k < |periods|
      invariant k <= |periods|
      invariant totalWins == TotalWins(rows, periods[..k], symbol)
      invariant totalTrades == TotalTrades(rows, periods[..k], symbol)
    {
      var periodRows := FilterByDate(rows, periods[k].start, periods[k].end);
      if symbol != "" {
        periodRows := FilterBySymbol(periodRows, symbol);
      }
      assert periodRows == Selected(rows, periods[k], symbol);
      TotalsStep(rows, periods, k, symbol);
      var wins := Wins(periodRows);
      totalWins := totalWins + wins;
      totalTrades := totalTrades + |periodRows|;
      k := k + 1;
    }
    assert periods[..k] == periods;
    r := Rate(totalWins, totalTrades);
    RateBounds(rows, periods, symbol);
  }

  /** One more period adds its own wins and rows to the totals. */
  lemma TotalsStep(rows: seq<Trade>, periods: seq<Period>, k: nat, symbol: string)
    requires k < |periods|
    ensures TotalWins(rows, periods[..k + 1], symbol) == TotalWins(rows, periods[..k], symbol) + Wins(Selected(rows, periods[k], symbol))
    ensures TotalTrades(rows, periods[..k + 1], symbol) == TotalTrades(rows, periods[..k], symbol) + |Selected(rows, periods[k], symbol)|
  {
    assert periods[..k + 1][..k] == periods[..k];
  }

  /** Wins never outnumber the rows they are counted among. */
  lemma {:induction false} TotalWinsAtMostTrades(rows: seq<Trade>, periods: seq<Period>, symbol: string)
    ensures TotalWins(rows, periods, symbol) <= TotalTrades(rows, periods, symbol)
  {
    if periods != [] {
      TotalWinsAtMostTrades(rows, periods[..|periods| - 1], symbol);
    }
  }

  /** A rate of `w` wins among `n >= w` trades is a fraction in [0, 1], and 0 without trades. */
  lemma RateInUnit(w: nat, n: nat)
    requires w <= n
    ensures 0.0 <= Rate(w, n) <= 1.0
    ensures n == 0 ==> Rate(w, n) == 0.0
  {
    if n > 0 {
      assert (w as real / n as real) * n as real == w as real;
    }
  }

  /** The win rate is a fraction in [0, 1], and 0 when no row falls in any period. */
  lemma RateBounds(rows: seq<Trade>, periods: seq<Period>, symbol: string)
    ensures 0.0 <= RateOf(rows, periods, symbol) <= 1.0
    ensures TotalTrades(rows, periods, symbol) == 0 ==> RateOf(rows, periods, symbol) == 0.0
  {
    TotalWinsAtMostTrades(rows, periods, symbol);
    RateInUnit(TotalWins(rows, periods, symbol), TotalTrades(rows, periods, symbol));
  }

  /**
   * The totals over two lists of periods add up: a row inside two periods
   * is counted once for each.
   */
  lemma {:induction false} TotalsAppend(rows: seq<Trade>, ps: seq<Period>, qs: seq<Period>, symbol: string)
    ensures TotalWins(rows, ps + qs, symbol) == TotalWins(rows, ps, symbol) + TotalWins(rows, qs, symbol)
    ensures TotalTrades(rows, ps + qs, symbol) == TotalTrades(rows, ps, symbol) + TotalTrades(rows, qs, symbol)
    decreases |qs|
  {
    if qs == [] {
      assert ps + qs == ps;
    } else {
      TotalsAppend(rows, ps, qs[..|qs| - 1], symbol);
      assert (ps + qs)[..|ps + qs| - 1] == ps + qs[..|qs| - 1];
      assert (ps + qs)[|ps + qs| - 1] == qs[|qs| - 1];
    }
  }

  /** Listing the same periods twice counts every row twice and leaves the rate as it was. */
  lemma RepeatedPeriodsSameRate(rows: seq<Trade>, periods: seq<Period>, symbol: string)
    ensures RateOf(rows, periods + periods, symbol) == RateOf(rows, periods, symbol)
  {
    var w, n := TotalWins(rows, periods, symbol), TotalTrades(rows, periods, symbol);
    TotalsAppend(rows, periods, periods, symbol);
    assert RateOf(rows, periods + periods, symbol) == Rate(w + w, n + n);
    RateDoubled(w, n);
  }

  lemma RateDoubled(w: nat, n: nat)
    ensures Rate(w + w, n + n) == Rate(w, n)
  {
    if n > 0 {
      var q := w as real / n as real;
      assert q * (n + n) as real == (w + w) as real;
    }
  }

  // ---------------------------------------------------------------------------
  // The default window and the dispatch

  function MinTime(rows: seq<Trade>): int
    requires rows != []
  {
    if |rows| == 1 then rows[0].time
    else var m := MinTime(rows[..|rows| - 1]); if rows[|rows| - 1].time < m then rows[|rows| - 1].time else m
  }

  function MaxTime(rows: seq<Trade>): int
    requires rows != []
  {
    if |rows| == 1 then rows[0].time
    else var m := MaxTime(rows[..|rows| - 1]); if rows[|rows| - 1].time > m then rows[|rows| - 1].time else m
  }

  /** The earliest and the latest time are times of rows, and bound every row's time. */
  lemma {:induction false} TimeBounds(rows: seq<Trade>)
    requires rows != []
    ensures forall t :: t in rows ==> MinTime(rows) <= t.time <= MaxTime(rows)
    ensures exists t :: t in rows && t.time == MinTime(rows)
    ensures exists t :: t in rows && t.time == MaxTime(rows)
  {
    if |rows| > 1 {
      var init := rows[..|rows| - 1];
      TimeBounds(init);
      assert rows == init + [rows[|rows| - 1]];
      var lo :| lo in init && lo.time == MinTime(init);
      var hi :| hi in init && hi.time == MaxTime(init);
      assert lo in rows && hi in rows;
    } else {
      assert rows[0] in rows;
    }
  }

  /**
   * `[(df['时间'].min(), df['时间'].max())]`. On an empty frame both bounds
   * are NaT, which no time compares with, so the window holds nothing: the
   * empty window `[0, 0)` stands for it.
   */
  function DefaultPeriods(rows: seq<Trade>): seq<Period>
  {
    if rows == [] then [Period(0, 0)] else [Period(MinTime(rows), MaxTime(rows))]
  }

  /** The distinct product names in order of first appearance: `df['产品名称'].unique()`. */
  function UniqueSymbols(rows: seq<Trade>): (u: seq<string>)
    ensures forall s :: s in u <==> exists t :: t in rows && t.symbol == s
    ensures forall i, j :: 0 <= i < j < |u| ==> u[i] != u[j]
  {
    if rows == [] then []
    else
      var init := rows[..|rows| - 1];
      var last := rows[|rows| - 1];
      assert rows == init + [last];
      var seen := UniqueSymbols(init);
      if last.symbol in seen then seen else seen + [last.symbol]
  }

  /**
   * `_calculate_win_rate_overall_symbols`: the overall and the per-product
   * rates are computed, then `sym_win_rate['overall'] = ...` writes into the
   * last per-product rate, a number, which raises TypeError; with no
   * product at all the name was never bound and it raises
   * UnboundLocalError. It never returns a value.
   */
  method WinRateOverallSymbols(rows: seq<Trade>, periods: seq<Period>) returns (r: Result<map<string, real>, Error>)
    ensures r == Err(if rows == [] then UnboundLocalError else TypeError)
  {
    var symbolWinRate: map<string, real> := map[];
    var symbols := UniqueSymbols(rows);
    var overallWinRate := WinRateOverPeriods(rows, periods, "");
    var symWinRate: Option<real> := None;
    var k := 0;
    while k < |symbols|
      invariant k <= |symbols|
      invariant symWinRate.Some? <==> k > 0
    {
      var rate := WinRateOverPeriods(rows, periods, symbols[k]);
      symWinRate := Some(rate);
      symbolWinRate := symbolWinRate[symbols[k] := rate];
      k := k + 1;
    }
    if rows != [] {
      assert rows[0].symbol in symbols;
    }
    if symWinRate.None? {
      return Err(UnboundLocalError);
    }
    r := Err(TypeError);
  }

  /**
   * `calculate_win_rate(df, periods, symbol)`: the close-order filter is
   * applied first; periods with a symbol give that product's rate over the
   * periods; periods alone go to the all-products path, which always
   * raises; without periods the window runs from the earliest to the latest
   * close, for the symbol if one is given.
   */
  method CalculateWinRate(rows: seq<Trade>, periods: seq<Period>, symbol: string, threshold: real)
    returns (r: Result<real, Error>)
    ensures var closes := FilterCloseOrder(rows, threshold);
      && (r.Err? <==> periods != [] && symbol == "")
      && (r.Err? ==> r.error == if closes == [] then UnboundLocalError else TypeError)
      && (r.Ok? ==> r.value == RateOf(closes, if periods != [] then periods else DefaultPeriods(closes), symbol))
      && (r.Ok? ==> 0.0 <= r.value <= 1.0)
  {
    var df := FilterCloseOrder(rows, threshold);
    if periods != [] && symbol != "" {
      var rate := WinRateOverPeriods(df, periods, symbol);
      r := Ok(rate);
    } else if periods != [] {
      var outcome := WinRateOverallSymbols(df, periods);
      r := Err(outcome.error);
    } else if symbol != "" {
      var rate := WinRateOverPeriods(df, DefaultPeriods(df), symbol);
      r := Ok(rate);
    } else {
      var rate := WinRateOverPeriods(df, DefaultPeriods(df), "");
      r := Ok(rate);
    }
  }

  // ---------------------------------------------------------------------------
  // The default window leaves out the latest close

  /** Without periods, no close stamped at the latest time is counted. */
  lemma LatestCloseLeftOut(rows: seq<Trade>, symbol: string, t: Trade)
    requires t in rows && t.time == MaxTime(rows)
    ensures t !in Selected(rows, DefaultPeriods(rows)[0], symbol)
  {
    FilterByDateSpec(rows, MinTime(rows), MaxTime(rows));
    FilterBySymbolSpec(FilterByDate(rows, MinTime(rows), MaxTime(rows)), symbol);
  }

  /** A loss at minute 0 and a win at minute 10 on the same product. */
  const LossThenWin := [Trade(0, "BTC/USDT", -1.0), Trade(10, "BTC/USDT", 2.0)]

  /** The default window of those rows is `[0, 10)`, which holds the loss alone. */
  lemma LossThenWinWindow()
    ensures DefaultPeriods(LossThenWin) == [Period(0, 10)]
    ensures Selected(LossThenWin, Period(0, 10), "") == [LossThenWin[0]]
  {
    var rows := LossThenWin;
    var first := rows[..1];
    assert first == [rows[0]] && first[..0] == [];
    assert MinTime(rows) == 0 && MaxTime(rows) == 10;
    assert FilterByDate(first, 0, 10) == [rows[0]];
  }

  /** On those rows the default window gives a rate of 0 rather than 1/2. */
  lemma DefaultWindowExample()
    ensures RateOf(LossThenWin, DefaultPeriods(LossThenWin), "") == 0.0
    ensures RateOf(LossThenWin, WholePeriods(LossThenWin), "") == 0.5
  {
    var rows := LossThenWin;
    LossThenWinWindow();
    var window := [Period(0, 10)];
    assert window[..0] == [];
    assert [rows[0]][..0] == [];
    assert Wins([rows[0]]) == 0;
    assert TotalWins(rows, window, "") == 0 && TotalTrades(rows, window, "") == 1;
    assert rows[..1] == [rows[0]];
    assert Wins(rows) == 1;
    WholePeriodsCountAll(rows);
  }

  /** The window the docstring promises ("the whole time"): through the latest minute. */
  function WholePeriods(rows: seq<Trade>): seq<Period>
  {
    if rows == [] then [Period(0, 0)] else [Period(MinTime(rows), MaxTime(rows) + 1)]
  }

  /** Over the whole window every close is counted once: the rate is the wins over all the rows. */
  lemma WholePeriodsCountAll(rows: seq<Trade>)
    ensures RateOf(rows, WholePeriods(rows), "") == Rate(Wins(rows), |rows|)
  {
    var p := WholePeriods(rows)[0];
    assert WholePeriods(rows) == [p] && [p][..0] == [];
    if rows != [] {
      TimeBounds(rows);
      assert forall k :: 0 <= k < |rows| ==> rows[k] in rows;
      FilterAllKept(rows, p.start, p.end);
    }
    assert Selected(rows, p, "") == rows;
    assert TotalWins(rows, [p], "") == Wins(rows);
    assert TotalTrades(rows, [p], "") == |rows|;
  }

  /** A window that holds every row's time keeps the rows as they are. */
  lemma {:induction false} FilterAllKept(rows: seq<Trade>, start: int, end: int)
    requires forall k :: 0 <= k < |rows| ==> start <= rows[k].time < end
    ensures FilterByDate(rows, start, end) == rows
  {
    if rows != [] {
      var init := rows[..|rows| - 1];
      FilterAllKept(init, start, end);
      assert rows == init + [rows[|rows| - 1]];
    }
  }
}
