/**
 * The evaluation of one symbol's ledger in backtest.py
 * (`_evaluate_single_symbol` and the metric functions it calls), and the
 * drawdown of a balance curve (`_calculate_max_drawdown_from_balance`).
 *
 * A pandas NaN (the mean or maximum of nothing) is `None`; the drawdown of
 * a balance curve, whose entries can also be minus infinity, is a
 * `FloatValue`. Dates are minutes; `timedelta.days` is the floor of minutes
 * over 1440. The length of a year is a parameter.
 */
module Metrics {
  import opened Common
  import opened Models
  import opened Engine

  const MinutesPerDay := 1440

  /** The `pnl` column. */
  function Pnls(history: seq<Record>): (p: seq<real>)
    ensures |p| == |history| && forall k :: 0 <= k < |history| ==> p[k] == history[k].pnl
  {
    seq(|history|, k requires 0 <= k < |history| => history[k].pnl)
  }

  /** Every record carries both dates (true of every record the engine writes). */
  predicate Dated(history: seq<Record>)
  {
    forall k :: 0 <= k < |history| ==> history[k].openDate.Some? && history[k].closeDate.Some?
  }

  // ---------------------------------------------------------------------------
  // Win rate

  /** Number of winning (strictly positive) trades. */
  function Wins(pnls: seq<real>): (n: nat)
    ensures n <= |pnls|
  {
    if pnls == [] then 0 else Wins(pnls[..|pnls| - 1]) + (if pnls[|pnls| - 1] > 0.0 then 1 else 0)
  }

  /** `_calculate_win_rate`: the mean of `pnl > 0`; NaN for no trades. */
  function WinRate(pnls: seq<real>): (r: Option<real>)
    ensures r.None? <==> pnls == []
    ensures r.Some? ==> 0.0 <= r.value <= 1.0
  {
    if pnls == [] then None else Some(Wins(pnls) as real / |pnls| as real)
  }

  lemma {:induction false} WinsExtremes(pnls: seq<real>)
    ensures Wins(pnls) == |pnls| <==> forall k :: 0 <= k < |pnls| ==> pnls[k] > 0.0
    ensures Wins(pnls) == 0 <==> forall k :: 0 <= k < |pnls| ==> pnls[k] <= 0.0
    decreases |pnls|
  {
    if pnls != [] {
      var init := pnls[..|pnls| - 1];
      WinsExtremes(init);
      assert forall k :: 0 <= k < |init| ==> init[k] == pnls[k];
    }
  }

  /** The win rate is 1 exactly when every trade won, and 0 exactly when none did. */
  lemma WinRateExtremes(pnls: seq<real>)
    requires pnls != []
    ensures WinRate(pnls) == Some(1.0) <==> forall k :: 0 <= k < |pnls| ==> pnls[k] > 0.0
    ensures WinRate(pnls) == Some(0.0) <==> forall k :: 0 <= k < |pnls| ==> pnls[k] <= 0.0
  {
    WinsExtremes(pnls);
    FractionExtremes(Wins(pnls) as real, |pnls| as real);
  }

  /** A fraction `w / n` of a positive whole is 1 exactly when `w == n` and 0 exactly when `w == 0`. */
  lemma FractionExtremes(w: real, n: real)
    requires 0.0 <= w <= n && n > 0.0
    ensures w / n == 1.0 <==> w == n
    ensures w / n == 0.0 <==> w == 0.0
  {
    var q := w / n;
    assert q * n == w;
  }

  // ---------------------------------------------------------------------------
  // Profit/loss ratio

  /** `Series.mean`: NaN for an empty series. */
  function Mean(xs: seq<real>): (m: Option<real>)
    ensures m.None? <==> xs == []
  {
    if xs == [] then None else Some(Sum(xs) / |xs| as real)
  }

  /** `df[df['pnl'] > 0]['pnl']`. */
  function Gains(pnls: seq<real>): (g: seq<real>)
    ensures forall k :: 0 <= k < |g| ==> g[k] > 0.0
    ensures g == [] <==> forall k :: 0 <= k < |pnls| ==> pnls[k] <= 0.0
  {
    if pnls == [] then []
    else
      var init := pnls[..|pnls| - 1];
      assert forall k :: 0 <= k < |init| ==> init[k] == pnls[k];
      Gains(init) + (if pnls[|pnls| - 1] > 0.0 then [pnls[|pnls| - 1]] else [])
  }

  /** `df[df['pnl'] < 0]['pnl']`. */
  function Losses(pnls: seq<real>): (l: seq<real>)
    ensures forall k :: 0 <= k < |l| ==> l[k] < 0.0
    ensures l == [] <==> forall k :: 0 <= k < |pnls| ==> pnls[k] >= 0.0
  {
    if pnls == [] then []
    else
      var init := pnls[..|pnls| - 1];
      assert forall k :: 0 <= k < |init| ==> init[k] == pnls[k];
      Losses(init) + (if pnls[|pnls| - 1] < 0.0 then [pnls[|pnls| - 1]] else [])
  }

  /**
   * `_calculate_profit_loss_ratio` as written: `abs(win / loss)` unless the
   * mean loss is 0. A missing mean (NaN) is not 0, so it propagates.
   */
  function ProfitLossRatio(pnls: seq<real>): Option<real>
  {
    var win, loss := Mean(Gains(pnls)), Mean(Losses(pnls));
    if loss.Some? && loss.value == 0.0 then Some(0.0)
    else if win.None? || loss.None? then None
    else Some(Abs(win.value / loss.value))
  }

  lemma {:induction false} SumSigns(xs: seq<real>)
    ensures (forall k :: 0 <= k < |xs| ==> xs[k] < 0.0) && xs != [] ==> Sum(xs) < 0.0
    ensures (forall k :: 0 <= k < |xs| ==> xs[k] > 0.0) && xs != [] ==> Sum(xs) > 0.0
    decreases |xs|
  {
    if |xs| > 1 {
      var init := xs[..|xs| - 1];
      SumSigns(init);
      assert forall k :: 0 <= k < |init| ==> init[k] == xs[k];
    }
  }

  /** The mean of the losing trades is never 0, so the guard against a zero mean loss never applies. */
  lemma MeanLossNeverZero(pnls: seq<real>)
    ensures Mean(Losses(pnls)).Some? ==> Mean(Losses(pnls)).value < 0.0
  {
    var l := Losses(pnls);
    if l != [] {
      SumSigns(l);
      SignOverCount(Sum(l), |l| as real);
    }
  }

  /** Dividing by a positive count keeps the sign. */
  lemma SignOverCount(a: real, n: real)
    requires n > 0.0
    ensures a < 0.0 ==> a / n < 0.0
    ensures a > 0.0 ==> a / n > 0.0
  {
    var q := a / n;
    assert q * n == a;
  }

  /**
   * The ratio as written is a number exactly when there is at least one
   * winning and at least one losing trade, and then it is positive; with
   * no losing trade it is NaN.
   */
  lemma ProfitLossRatioSpec(pnls: seq<real>)
    ensures ProfitLossRatio(pnls).Some? <==>
      (exists k :: 0 <= k < |pnls| && pnls[k] > 0.0) && (exists k :: 0 <= k < |pnls| && pnls[k] < 0.0)
    ensures ProfitLossRatio(pnls).Some? ==> ProfitLossRatio(pnls).value > 0.0
  {
    MeanLossNeverZero(pnls);
    var g := Gains(pnls);
    if g != [] {
      SumSigns(g);
      SignOverCount(Sum(g), |g| as real);
    }
    if Mean(g).Some? && Mean(Losses(pnls)).Some? {
      var w, l := Mean(g).value, Mean(Losses(pnls)).value;
      assert w > 0.0 && l < 0.0;
      QuotientOfSigns(w, l);
    }
  }

  /** A positive number over a negative one is negative. */
  lemma QuotientOfSigns(w: real, l: real)
    requires w > 0.0 && l < 0.0
    ensures w / l < 0.0
  {
    var q := w / l;
    assert q * l == w;
  }

  /** One winning trade and no loss: the ratio is NaN, not the 0 the guard was written for. */
  lemma ProfitLossRatioNoLossExample()
    ensures ProfitLossRatio([5.0]) == None
  {
    assert Losses([5.0]) == [] by {
      assert [5.0][..0] == [];
    }
  }

  /** The ratio as the guard intends it: 0 when there is no losing trade. */
  function ProfitLossRatioIntended(pnls: seq<real>): (r: Option<real>)
    ensures (forall k :: 0 <= k < |pnls| ==> pnls[k] >= 0.0) ==> r == Some(0.0)
    ensures r.None? <==> (forall k :: 0 <= k < |pnls| ==> pnls[k] <= 0.0) && (exists k :: 0 <= k < |pnls| && pnls[k] < 0.0)
    ensures r.Some? ==> r.value >= 0.0
  {
    ProfitLossRatioSpec(pnls);
    if Losses(pnls) == [] then Some(0.0) else ProfitLossRatio(pnls)
  }

  // ---------------------------------------------------------------------------
  // Drawdown of the cumulative pnl

  /** Largest cumulative pnl over the non-empty prefixes: `cumsum().cummax()` at the last row. */
  function Peak(pnls: seq<real>): real
    requires pnls != []
  {
    if |pnls| == 1 then Sum(pnls) else Max(Peak(pnls[..|pnls| - 1]), Sum(pnls))
  }

  /** Largest `cummax - cumsum` over the rows. */
  function DeepestDrawdown(pnls: seq<real>): real
    requires pnls != []
  {
    var here := Peak(pnls) - Sum(pnls);
    if |pnls| == 1 then here else Max(DeepestDrawdown(pnls[..|pnls| - 1]), here)
  }

  /** `_calculate_max_drawdown`: NaN for no trades. */
  function MaxDrawdown(pnls: seq<real>): Option<real>
  {
    if pnls == [] then None else Some(DeepestDrawdown(pnls))
  }

  lemma {:induction false} PeakIsMax(pnls: seq<real>)
    requires pnls != []
    ensures forall j :: 1 <= j <= |pnls| ==> Sum(pnls[..j]) <= Peak(pnls)
    ensures exists j :: 1 <= j <= |pnls| && Sum(pnls[..j]) == Peak(pnls)
    decreases |pnls|
  {
    assert pnls[..|pnls|] == pnls;
    if |pnls| > 1 {
      var init := pnls[..|pnls| - 1];
      PeakIsMax(init);
      assert forall j :: 1 <= j <= |init| ==> init[..j] == pnls[..j];
      var j :| 1 <= j <= |init| && Sum(init[..j]) == Peak(init);
      assert Sum(pnls[..j]) == Peak(init);
    }
  }

  /**
   * The maximum drawdown is the largest fall of cumulative pnl from an
   * earlier (or the same) running total: it bounds every such fall and is
   * one of them. In particular it is never negative.
   */
  lemma {:induction false} DrawdownIsLargestFall(pnls: seq<real>)
    requires pnls != []
    ensures forall j, i :: 1 <= j <= i <= |pnls| ==> Sum(pnls[..j]) - Sum(pnls[..i]) <= DeepestDrawdown(pnls)
    ensures exists j, i :: 1 <= j <= i <= |pnls| && Sum(pnls[..j]) - Sum(pnls[..i]) == DeepestDrawdown(pnls)
    ensures DeepestDrawdown(pnls) >= 0.0
  {
    DrawdownBoundsFalls(pnls);
    DrawdownIsAFall(pnls);
    assert Sum(pnls[..1]) - Sum(pnls[..1]) <= DeepestDrawdown(pnls);
  }

  lemma {:induction false} DrawdownBoundsFalls(pnls: seq<real>)
    requires pnls != []
    ensures forall j, i :: 1 <= j <= i <= |pnls| ==> Sum(pnls[..j]) - Sum(pnls[..i]) <= DeepestDrawdown(pnls)
    decreases |pnls|
  {
    var n := |pnls|;
    assert pnls[..n] == pnls;
    PeakIsMax(pnls);
    if n > 1 {
      var init := pnls[..n - 1];
      DrawdownBoundsFalls(init);
      forall j, i | 1 <= j <= i <= n
        ensures Sum(pnls[..j]) - Sum(pnls[..i]) <= DeepestDrawdown(pnls)
      {
        if i == n {
          assert Sum(pnls[..j]) <= Peak(pnls);
        } else {
          assert init[..j] == pnls[..j] && init[..i] == pnls[..i];
          assert Sum(init[..j]) - Sum(init[..i]) <= DeepestDrawdown(init);
        }
      }
    }
  }

  lemma {:induction false} DrawdownIsAFall(pnls: seq<real>)
    requires pnls != []
    ensures exists j, i :: 1 <= j <= i <= |pnls| && Sum(pnls[..j]) - Sum(pnls[..i]) == DeepestDrawdown(pnls)
    decreases |pnls|
  {
    var n := |pnls|;
    assert pnls[..n] == pnls;
    PeakIsMax(pnls);
    var top :| 1 <= top <= n && Sum(pnls[..top]) == Peak(pnls);
    if n == 1 {
      assert Sum(pnls[..1]) - Sum(pnls[..1]) == DeepestDrawdown(pnls);
    } else {
      var init := pnls[..n - 1];
      if DeepestDrawdown(init) >= Peak(pnls) - Sum(pnls) {
        DrawdownIsAFall(init);
        var j, i :| 1 <= j <= i <= n - 1 && Sum(init[..j]) - Sum(init[..i]) == DeepestDrawdown(init);
        assert init[..j] == pnls[..j] && init[..i] == pnls[..i];
        assert Sum(pnls[..j]) - Sum(pnls[..i]) == DeepestDrawdown(pnls);
      } else {
        assert Sum(pnls[..top]) - Sum(pnls[..n]) == DeepestDrawdown(pnls);
      }
    }
  }

  lemma {:induction false} PrefixSumStep(pnls: seq<real>, j: nat)
    requires 1 <= j < |pnls|
    ensures Sum(pnls[..j + 1]) == Sum(pnls[..j]) + pnls[j]
  {
    assert pnls[..j + 1] == pnls[..j] + [pnls[j]];
    SumAppend(pnls[..j], [pnls[j]]);
    assert Sum([pnls[j]]) == pnls[j] by {
      assert [pnls[j]][..0] == [];
    }
  }

  lemma {:induction false} PrefixSumsRise(pnls: seq<real>, j: nat, i: nat)
    requires 1 <= j <= i <= |pnls|
    requires forall k :: 1 <= k < |pnls| ==> pnls[k] >= 0.0
    ensures Sum(pnls[..j]) <= Sum(pnls[..i])
    decreases i - j
  {
    if j < i {
      PrefixSumStep(pnls, j);
      PrefixSumsRise(pnls, j + 1, i);
    }
  }

  /** When no trade after the first loses, cumulative pnl never falls and the drawdown is 0. */
  lemma DrawdownZeroWhenNeverFalls(pnls: seq<real>)
    requires pnls != []
    requires forall k :: 1 <= k < |pnls| ==> pnls[k] >= 0.0
    ensures MaxDrawdown(pnls) == Some(0.0)
  {
    DrawdownIsLargestFall(pnls);
    var j, i :| 1 <= j <= i <= |pnls| && Sum(pnls[..j]) - Sum(pnls[..i]) == DeepestDrawdown(pnls);
    PrefixSumsRise(pnls, j, i);
  }

  // ---------------------------------------------------------------------------
  // Annual return

  /** `timedelta.days` of a span of minutes: the floor of the whole days. */
  function Days(minutes: int): int
  {
    minutes / MinutesPerDay
  }

  /**
   * `_calculate_annual_return`: the total pnl as a simple yearly rate on the
   * initial balance, over the whole days from the first open to the last
   * close. A non-positive balance raises ValueError; no trades, or a span
   * under one day, give 0.
   */
  function AnnualReturn(history: seq<Record>, initBalance: real, totalPnl: real, daysInYear: real): Result<real, Error>
    requires daysInYear > 0.0 && Dated(history)
  {
    if initBalance <= 0.0 then Err(ValueError)
    else if history == [] then Ok(0.0)
    else
      var totalDays := Days(history[|history| - 1].closeDate.value - history[0].openDate.value);
      if totalDays <= 0 then Ok(0.0)
      else
        var years := totalDays as real / daysInYear;
        Ok(totalPnl / (initBalance * years))
  }

  /**
   * The annual return raises exactly for a non-positive initial balance; it
   * is 0 over less than a day; otherwise, spread over the years of the
   * span on the initial balance, it gives back the total pnl, so it has the
   * sign of the total pnl.
   */
  lemma AnnualReturnSpec(history: seq<Record>, initBalance: real, totalPnl: real, daysInYear: real)
    requires daysInYear > 0.0 && Dated(history)
    ensures AnnualReturn(history, initBalance, totalPnl, daysInYear).Err? <==> initBalance <= 0.0
    ensures initBalance > 0.0 && history != [] ==>
      var totalDays := Days(history[|history| - 1].closeDate.value - history[0].openDate.value);
      var r := AnnualReturn(history, initBalance, totalPnl, daysInYear).value;
      && (totalDays <= 0 ==> r == 0.0)
      && (totalDays > 0 ==>
            && r * (initBalance * (totalDays as real / daysInYear)) == totalPnl
            && (r > 0.0 <==> totalPnl > 0.0) && (r < 0.0 <==> totalPnl < 0.0))
  {
    if initBalance > 0.0 && history != [] {
      var totalDays := Days(history[|history| - 1].closeDate.value - history[0].openDate.value);
      if totalDays > 0 {
        var years := totalDays as real / daysInYear;
        assert years > 0.0;
        var scale := initBalance * years;
        assert scale > 0.0;
        var r := totalPnl / scale;
        assert r * scale == totalPnl;
        if r > 0.0 {
          assert r * scale > 0.0;
        }
        if r < 0.0 {
          assert r * scale < 0.0;
        }
        if totalPnl > 0.0 {
          assert r > 0.0;
        }
        if totalPnl < 0.0 {
          assert r < 0.0;
        }
      }
    }
  }

  // ---------------------------------------------------------------------------
  // Drawdown of a balance curve

  /** Largest balance over the non-empty prefixes: `cummax()` at the last row. */
  function BalancePeak(balances: seq<real>): real
    requires balances != []
  {
    if |balances| == 1 then balances[0] else Max(BalancePeak(balances[..|balances| - 1]), balances[|balances| - 1])
  }

  /**
   * A float of pandas' drawdown column: NaN (0/0), minus infinity (a
   * negative number over 0) or a finite number.
   */
  datatype FloatValue = NaN | MinusInf | Finite(value: real)

  /** `(balance - peak) / peak` in floating point, for a balance no higher than its running peak. */
  function RelativeFall(balance: real, peak: real): (f: FloatValue)
    requires balance <= peak
    ensures f.NaN? <==> peak == 0.0 && balance == 0.0
    ensures f.MinusInf? <==> peak == 0.0 && balance < 0.0
    ensures f.Finite? ==> f.value * peak == balance - peak
  {
    if peak != 0.0 then Finite((balance - peak) / peak)
    else if balance == 0.0 then NaN
    else MinusInf
  }

  /** Row `k` of `(balance_series - cumulative_max) / cumulative_max`. */
  function DrawdownAt(balances: seq<real>, k: nat): FloatValue
    requires k < |balances|
  {
    BalancePeakBounds(balances[..k + 1]);
    RelativeFall(balances[k], BalancePeak(balances[..k + 1]))
  }

  /** `Series.min()` of two values: NaN is skipped, and minus infinity is below every number. */
  function MinSkippingNaN(a: FloatValue, b: FloatValue): FloatValue
  {
    if a.NaN? then b
    else if b.NaN? then a
    else if a.MinusInf? || b.MinusInf? then MinusInf
    else Finite(Min(a.value, b.value))
  }

  /**
   * `_calculate_max_drawdown_from_balance`: the smallest entry of the
   * drawdown column, skipping NaN. An empty curve, or one whose every entry
   * is NaN, gives NaN.
   */
  function MaxDrawdownFromBalance(balances: seq<real>): FloatValue
  {
    if balances == [] then NaN
    else MinSkippingNaN(MaxDrawdownFromBalance(balances[..|balances| - 1]), DrawdownAt(balances, |balances| - 1))
  }

  /** The prefix of a curve has the same drawdown column as the curve, up to its length. */
  lemma DrawdownAtPrefix(balances: seq<real>, n: nat, k: nat)
    requires k < n <= |balances|
    ensures DrawdownAt(balances[..n], k) == DrawdownAt(balances, k)
  {
    assert balances[..n][..k + 1] == balances[..k + 1];
  }

  /**
   * The drawdown is NaN exactly when every entry is NaN, minus infinity
   * exactly when some entry is (a fall below a zero peak), and otherwise the
   * smallest number of the column, reached by some row.
   */
  lemma {:induction false} BalanceDrawdownSpec(balances: seq<real>)
    ensures MaxDrawdownFromBalance(balances).NaN? <==>
      forall k :: 0 <= k < |balances| ==> DrawdownAt(balances, k).NaN?
    ensures MaxDrawdownFromBalance(balances).MinusInf? <==>
      exists k :: 0 <= k < |balances| && DrawdownAt(balances, k).MinusInf?
    ensures MaxDrawdownFromBalance(balances).Finite? ==>
      (forall k :: 0 <= k < |balances| && DrawdownAt(balances, k).Finite? ==>
        MaxDrawdownFromBalance(balances).value <= DrawdownAt(balances, k).value) &&
      (exists k :: 0 <= k < |balances| && DrawdownAt(balances, k) == MaxDrawdownFromBalance(balances))
    decreases |balances|
  {
    if balances != [] {
      var n := |balances| - 1;
      var init := balances[..n];
      BalanceDrawdownSpec(init);
      forall k | 0 <= k < n ensures DrawdownAt(init, k) == DrawdownAt(balances, k) {
        DrawdownAtPrefix(balances, n, k);
      }
    }
  }

  /** A curve that starts at 0 and rises: the leading 0/0 is skipped, and the drawdown is 0. */
  lemma ZeroStartSkipped()
    ensures MaxDrawdownFromBalance([0.0, 5.0]) == Finite(0.0)
  {
    var b := [0.0, 5.0];
    assert b[..1] == [0.0] && b[..2] == b && [0.0][..0] == [];
    assert BalancePeak([0.0]) == 0.0;
    assert DrawdownAt(b, 0) == NaN;
    assert MaxDrawdownFromBalance([0.0]) == NaN;
  }

  /** A curve that falls below a zero peak has a drawdown of minus infinity. */
  lemma FallBelowZeroPeak()
    ensures MaxDrawdownFromBalance([0.0, -5.0]) == MinusInf
  {
    var b := [0.0, -5.0];
    assert b[..1] == [0.0] && b[..2] == b && [0.0][..0] == [];
    assert BalancePeak([0.0]) == 0.0;
    assert MaxDrawdownFromBalance([0.0]) == NaN;
  }

  lemma {:induction false} BalancePeakBounds(balances: seq<real>)
    requires balances != []
    ensures forall k :: 0 <= k < |balances| ==> balances[k] <= BalancePeak(balances)
    ensures exists k :: 0 <= k < |balances| && balances[k] == BalancePeak(balances)
    decreases |balances|
  {
    if |balances| == 1 {
      assert balances[0] == BalancePeak(balances);
    } else {
      var init := balances[..|balances| - 1];
      BalancePeakBounds(init);
      var k :| 0 <= k < |init| && init[k] == BalancePeak(init);
      assert balances[k] == init[k];
      if balances[|balances| - 1] < BalancePeak(init) {
        assert balances[k] == BalancePeak(balances);
      } else {
        assert balances[|balances| - 1] == BalancePeak(balances);
      }
    }
  }

  lemma RelativeFallBounds(x: real, peak: real)
    requires 0.0 < x <= peak
    ensures -1.0 < (x - peak) / peak <= 0.0
  {
    var q := (x - peak) / peak;
    assert q * peak == x - peak;
    assert (q + 1.0) * peak == x;
  }

  /**
   * On a curve of positive balances the drawdown is a number in (-1, 0]:
   * no balance is above its running peak, and none falls to nothing.
   */
  lemma {:induction false} BalanceDrawdownBounds(balances: seq<real>)
    requires balances != [] && forall k :: 0 <= k < |balances| ==> balances[k] > 0.0
    ensures MaxDrawdownFromBalance(balances).Finite?
    ensures -1.0 < MaxDrawdownFromBalance(balances).value <= 0.0
    decreases |balances|
  {
    var n := |balances| - 1;
    BalancePeakBounds(balances);
    var peak := BalancePeak(balances);
    assert balances[..n + 1] == balances;
    assert peak >= balances[n] > 0.0;
    RelativeFallBounds(balances[n], peak);
    if n > 0 {
      BalanceDrawdownBounds(balances[..n]);
    } else {
      assert balances[..n] == [];
    }
  }

  lemma {:induction false} RisingPeakIsLast(balances: seq<real>)
    requires balances != [] && forall k :: 0 < k < |balances| ==> balances[k - 1] <= balances[k]
    ensures BalancePeak(balances) == balances[|balances| - 1]
    decreases |balances|
  {
    if |balances| > 1 {
      RisingPeakIsLast(balances[..|balances| - 1]);
    }
  }

  /** A curve that never falls has no drawdown. */
  lemma {:induction false} BalanceDrawdownZeroWhenRising(balances: seq<real>)
    requires balances != [] && forall k :: 0 <= k < |balances| ==> balances[k] > 0.0
    requires forall k :: 0 < k < |balances| ==> balances[k - 1] <= balances[k]
    ensures MaxDrawdownFromBalance(balances) == Finite(0.0)
    decreases |balances|
  {
    var n := |balances| - 1;
    RisingPeakIsLast(balances);
    assert balances[..n + 1] == balances;
    if n > 0 {
      BalanceDrawdownZeroWhenRising(balances[..n]);
    } else {
      assert balances[..n] == [];
    }
  }

  // ---------------------------------------------------------------------------
  // The evaluation of one ledger

  /** `idxmax`: the first position of the largest value. */
  function ArgMax(xs: seq<real>): (i: nat)
    requires xs != []
    ensures i < |xs|
    ensures forall k :: 0 <= k < |xs| ==> xs[k] <= xs[i]
    ensures forall k :: 0 <= k < i ==> xs[k] < xs[i]
  {
    if |xs| == 1 then 0
    else
      var init := xs[..|xs| - 1];
      var a := ArgMax(init);
      assert forall k :: 0 <= k < |init| ==> init[k] == xs[k];
      if xs[|xs| - 1] > xs[a] then |xs| - 1 else a
  }

  /** `idxmin`: the first position of the smallest value. */
  function ArgMin(xs: seq<real>): (i: nat)
    requires xs != []
    ensures i < |xs|
    ensures forall k :: 0 <= k < |xs| ==> xs[i] <= xs[k]
    ensures forall k :: 0 <= k < i ==> xs[i] < xs[k]
  {
    if |xs| == 1 then 0
    else
      var init := xs[..|xs| - 1];
      var a := ArgMin(init);
      assert forall k :: 0 <= k < |init| ==> init[k] == xs[k];
      if xs[|xs| - 1] < xs[a] then |xs| - 1 else a
  }

  /** Hours each trade was held: `(close_date - open_date).total_seconds() / 3600`. */
  function HoldingHours(history: seq<Record>): (h: seq<real>)
    requires Dated(history)
    ensures |h| == |history|
  {
    seq(|history|, k requires 0 <= k < |history| => (history[k].closeDate.value - history[k].openDate.value) as real / 60.0)
  }

  /** The figures `_evaluate_single_symbol` reports (the Sharpe ratio is not modelled). */
  datatype Evaluation = Evaluation(
    totalPnl: real,
    winRate: real,
    profitLossRatio: Option<real>,
    maxDrawdown: real,
    annualReturn: real,
    totalTrades: nat,
    averageDailyTrades: real,
    averageHoldingHours: real,
    maxHoldingHours: real,
    maxProfit: real,
    maxProfitTime: int,
    maxLoss: real,
    maxLossTime: int,
    startDate: int,
    endDate: int)

  /**
   * What the figures say about a non-empty ledger: one trade per record, a
   * win rate in [0, 1], a drawdown that is never negative, the largest and
   * smallest pnl attained by a record closed at the reported time, and the
   * period from the first open to the last close.
   */
  predicate Describes(history: seq<Record>, e: Evaluation)
    requires history != [] && Dated(history)
  {
    && e.totalTrades == |history|
    && 0.0 <= e.winRate <= 1.0
    && e.maxDrawdown >= 0.0
    && (forall k :: 0 <= k < |history| ==> history[k].pnl <= e.maxProfit && e.maxLoss <= history[k].pnl)
    && (exists k :: 0 <= k < |history| && history[k].pnl == e.maxProfit && history[k].closeDate == Some(e.maxProfitTime))
    && (exists k :: 0 <= k < |history| && history[k].pnl == e.maxLoss && history[k].closeDate == Some(e.maxLossTime))
    && e.startDate == history[0].openDate.value && e.endDate == history[|history| - 1].closeDate.value
  }

  /** The figures of a non-empty ledger, given its annual return. */
  function Figures(history: seq<Record>, annual: real): (e: Evaluation)
    requires history != [] && Dated(history)
    ensures Describes(history, e)
  {
    var pnls := Pnls(history);
    var n := |history|;
    var startDate := history[0].openDate.value;
    var endDate := history[n - 1].closeDate.value;
    var totalDays := Days(endDate - startDate) + 1;
    var averageDaily := if totalDays > 0 then n as real / totalDays as real else 0.0;
    var hours := HoldingHours(history);
    var best, worst := ArgMax(pnls), ArgMin(pnls);
    DrawdownIsLargestFall(pnls);
    Evaluation(
      Sum(pnls), WinRate(pnls).value, ProfitLossRatio(pnls), MaxDrawdown(pnls).value, annual, n, averageDaily,
      Mean(hours).value, hours[ArgMax(hours)], pnls[best], history[best].closeDate.value,
      pnls[worst], history[worst].closeDate.value, startDate, endDate)
  }

  /**
   * `_evaluate_single_symbol(history, init_balance)`: nothing for an empty
   * ledger; otherwise the figures, or the ValueError of the annual return.
   */
  function EvaluateSingleSymbol(history: seq<Record>, initBalance: real, daysInYear: real): (r: Result<Option<Evaluation>, Error>)
    requires daysInYear > 0.0 && Dated(history)
    ensures r.Err? <==> history != [] && initBalance <= 0.0
    ensures r.Ok? ==> (r.value.None? <==> history == [])
    ensures r.Ok? && r.value.Some? ==> Describes(history, r.value.value)
  {
    if history == [] then Ok(None)
    else
      match AnnualReturn(history, initBalance, Sum(Pnls(history)), daysInYear)
      case Err(e) => Err(e)
      case Ok(annual) => Ok(Some(Figures(history, annual)))
  }
}
