/**
 * The trading vocabulary shared by the engines (models.py): a strategy's
 * `Signal`, the mutable `Position` the single-symbol engine keeps, and the
 * "last N rows at or before a date" view `Strategy.get_recent_data` gives a
 * strategy so that it cannot look ahead.
 *
 * Directions are the strings `'long'`, `'short'`, `'close'` or `None`;
 * prices and amounts are exact reals, and dates are integer timestamps.
 */
module Models {
  import opened Common

  datatype Dir = Long | Short | Close | NoDir

  /** `Signal(dir, price, amount)`: what a strategy asks the engine to do on one bar. */
  datatype Signal = Signal(dir: Dir, price: real, amount: real)

  /**
   * The fields of a `Position` its own methods read and write: everything
   * but `symbol` and the `trade_cost` the engine keeps on it.
   */
  datatype PosState = PosState(
    openPrice: real,
    closePrice: real,
    dir: Dir,
    amount: real,
    pnl: real,
    floatProfit: real,
    openDate: Option<int>,
    closeDate: Option<int>)

  /** The state of a newly constructed position: nothing held, no direction. */
  const Flat: PosState := PosState(0.0, 0.0, NoDir, 0.0, 0.0, 0.0, None, None)

  function Min(a: real, b: real): real { if a <= b then a else b }
  function Max(a: real, b: real): real { if a <= b then b else a }

  // ---------------------------------------------------------------------------
  // What each Position method does to the state

  /** Unrealised profit of the held amount marked at `price`. */
  function FloatProfit(s: PosState, price: real): real
  {
    match s.dir
    case Long => (price - s.openPrice) * s.amount
    case Short => (s.openPrice - price) * s.amount
    case _ => 0.0
  }

  /** `open` adds to the held leg (rather than replacing it) exactly when something is held in that direction. */
  predicate AddsTo(s: PosState, dir: Dir)
  {
    s.amount > 0.0 && s.dir == dir
  }

  /**
   * `open(price, qty, dir, date)`. Adding to the held leg re-prices it at the
   * notional-weighted average; anything else discards the old leg. Adding
   * exactly minus the held amount divides by zero before any field changes.
   */
  function Opened(s: PosState, price: real, qty: real, dir: Dir, date: int): Result<PosState, Error>
  {
    if AddsTo(s, dir) then
      var total := s.amount + qty;
      if total == 0.0 then Err(ZeroDivisionError)
      else Ok(s.(openPrice := (s.openPrice * s.amount + price * qty) / total, amount := total, openDate := Some(date)))
    else
      Ok(s.(openPrice := price, amount := qty, dir := dir, openDate := Some(date)))
  }

  /** Profit realised by closing `qty` of the held leg at `price`. */
  function Realised(s: PosState, price: real, qty: real): real
  {
    match s.dir
    case Long => (price - s.openPrice) * qty
    case Short => (s.openPrice - price) * qty
    case _ => 0.0
  }

  /**
   * `close(price, qty, date)`: refused without any change when more than the
   * held amount is asked for; a close that empties the position stamps the
   * close date and price.
   */
  function Closed(s: PosState, price: real, qty: real, date: int): PosState
  {
    if qty > s.amount then s
    else
      var rest := s.(pnl := s.pnl + Realised(s, price, qty), amount := s.amount - qty);
      if rest.amount == 0.0 then rest.(closeDate := Some(date), closePrice := price) else rest
  }

  // ---------------------------------------------------------------------------
  // The position object

  class Position {
    var symbol: string
    var openPrice: real
    var closePrice: real
    var dir: Dir
    var amount: real
    var pnl: real
    var floatProfit: real
    var openDate: Option<int>
    var closeDate: Option<int>
    var tradeCost: real

    function State(): PosState
      reads this
    {
      PosState(openPrice, closePrice, dir, amount, pnl, floatProfit, openDate, closeDate)
    }

    constructor (symbol: string)
      ensures this.symbol == symbol && State() == Flat && tradeCost == 0.0
    {
      this.symbol := symbol;
      openPrice := 0.0;
      closePrice := 0.0;
      dir := NoDir;
      amount := 0.0;
      pnl := 0.0;
      floatProfit := 0.0;
      openDate := None;
      closeDate := None;
      tradeCost := 0.0;
    }

    method UpdateFloatProfit(price: real)
      modifies this
      ensures State() == old(State()).(floatProfit := FloatProfit(old(State()), price))
      ensures symbol == old(symbol) && tradeCost == old(tradeCost)
    {
      if dir == Long {
        floatProfit := (price - openPrice) * amount;
      } else if dir == Short {
        floatProfit := (openPrice - price) * amount;
      } else {
        floatProfit := 0.0;
      }
    }

    /** Returns the exception `open` raises, if any; on one, no field has changed. */
    method Open(price: real, qty: real, side: Dir, date: int) returns (raised: Option<Error>)
      modifies this
      ensures raised.Some? <==> Opened(old(State()), price, qty, side, date).Err?
      ensures raised.Some? ==> raised.value == Opened(old(State()), price, qty, side, date).error
      ensures raised.None? ==> State() == Opened(old(State()), price, qty, side, date).value
      ensures raised.Some? ==> State() == old(State())
      ensures symbol == old(symbol) && tradeCost == old(tradeCost)
    {
      ghost var s := State();
      if amount > 0.0 && dir == side {
        var totalCost := openPrice * amount;
        var additionalCost := price * qty;
        var total := amount + qty;
        if total == 0.0 {
          return Some(ZeroDivisionError);
        }
        openPrice := (totalCost + additionalCost) / total;
        assert openPrice == (s.openPrice * s.amount + price * qty) / (s.amount + qty);
        amount := total;
      } else {
        openPrice := price;
        amount := qty;
        dir := side;
      }
      openDate := Some(date);
      raised := None;
    }

    method Close(price: real, qty: real, date: int)
      modifies this
      ensures State() == Closed(old(State()), price, qty, date)
      ensures symbol == old(symbol) && tradeCost == old(tradeCost)
    {
      if qty > amount {
        return;
      }
      ghost var s := State();
      if dir == Long {
        pnl := pnl + (price - openPrice) * qty;
      } else if dir == Short {
        pnl := pnl + (openPrice - price) * qty;
      }
      assert pnl == s.pnl + Realised(s, price, qty);
      amount := amount - qty;
      if amount == 0.0 {
        closeDate := Some(date);
        closePrice := price;
      }
    }
  }

  // ---------------------------------------------------------------------------
  // Properties of the position's transitions

  /** A fresh position carries no unrealised profit at any price. */
  lemma FlatHasNoFloat(price: real)
    ensures FloatProfit(Flat, price) == 0.0 && Flat.amount == 0.0 && Flat.dir == NoDir
  {
  }

  /**
   * A price whose notional on `a + q` equals the notionals of `a` at `o` and
   * `q` at `p` (a weighted average, `a` positive and `q` non-negative) lies
   * between `o` and `p`.
   */
  lemma WeightedAverageBetween(o: real, a: real, p: real, q: real, avg: real)
    requires a > 0.0 && q >= 0.0 && avg * (a + q) == o * a + p * q
    ensures Min(o, p) <= avg <= Max(o, p)
  {
    var lo, hi := Min(o, p), Max(o, p);
    assert lo * q <= p * q <= hi * q;
    assert lo * a <= o * a <= hi * a;
    assert lo * (a + q) == lo * a + lo * q <= avg * (a + q);
    assert avg * (a + q) <= hi * a + hi * q == hi * (a + q);
  }

  /**
   * Adding a non-negative amount to the held leg sums the amounts, keeps the
   * notional (price times amount) of both legs, and so lands the new open
   * price between the old open price and the fill price; the direction and
   * the realised pnl are untouched.
   */
  lemma OpenAverages(s: PosState, price: real, qty: real, dir: Dir, date: int)
    requires AddsTo(s, dir) && qty >= 0.0
    ensures Opened(s, price, qty, dir, date).Ok?
    ensures var t := Opened(s, price, qty, dir, date).value;
      && t.amount == s.amount + qty
      && t.openPrice * t.amount == s.openPrice * s.amount + price * qty
      && Min(s.openPrice, price) <= t.openPrice <= Max(s.openPrice, price)
      && t.dir == s.dir && t.pnl == s.pnl && t.openDate == Some(date)
  {
    var t := Opened(s, price, qty, dir, date).value;
    assert t.openPrice * (s.amount + qty) == s.openPrice * s.amount + price * qty;
    WeightedAverageBetween(s.openPrice, s.amount, price, qty, t.openPrice);
  }

  /**
   * When nothing is held in `dir`, `open` replaces the leg outright: the old
   * exposure is discarded, not netted, and the realised pnl and close fields
   * are left as they were.
   */
  lemma OpenReplaces(s: PosState, price: real, qty: real, dir: Dir, date: int)
    requires !AddsTo(s, dir)
    ensures Opened(s, price, qty, dir, date) == Ok(s.(openPrice := price, amount := qty, dir := dir, openDate := Some(date)))
  {
  }

  /** `open` fails exactly when it would add minus the held amount to the held leg. */
  lemma OpenFails(s: PosState, price: real, qty: real, dir: Dir, date: int)
    ensures Opened(s, price, qty, dir, date).Err? <==> AddsTo(s, dir) && qty == -s.amount
  {
  }

  /** Adding to the held leg at the marking price leaves the unrealised profit at that price unchanged. */
  lemma {:induction false} OpenAtMarkKeepsFloat(s: PosState, price: real, qty: real, dir: Dir, date: int)
    requires Opened(s, price, qty, dir, date).Ok? && AddsTo(s, dir)
    ensures FloatProfit(Opened(s, price, qty, dir, date).value, price) == FloatProfit(s, price)
  {
    var t := Opened(s, price, qty, dir, date).value;
    var total := s.amount + qty;
    assert t.openPrice * total == s.openPrice * s.amount + price * qty;
    assert t.amount == total;
    if dir == Long {
      calc {
        FloatProfit(t, price);
        price * total - t.openPrice * total;
        price * s.amount - s.openPrice * s.amount;
        FloatProfit(s, price);
      }
    } else if dir == Short {
      calc {
        FloatProfit(t, price);
        t.openPrice * total - price * total;
        s.openPrice * s.amount - price * s.amount;
        FloatProfit(s, price);
      }
    }
  }

  /** A close of more than is held changes nothing. */
  lemma CloseRefused(s: PosState, price: real, qty: real, date: int)
    requires qty > s.amount
    ensures Closed(s, price, qty, date) == s
  {
  }

  /**
   * An accepted close reduces the amount by exactly the closed quantity, so
   * never below zero, books the signed profit of that quantity, and leaves
   * the direction, open price and open date alone. The close date and price
   * are stamped exactly when the amount reaches zero.
   */
  lemma CloseAccounting(s: PosState, price: real, qty: real, date: int)
    requires qty <= s.amount
    ensures var t := Closed(s, price, qty, date);
      && t.amount == s.amount - qty && t.amount >= 0.0
      && t.pnl == s.pnl + (if s.dir == Long then (price - s.openPrice) * qty
                           else if s.dir == Short then (s.openPrice - price) * qty
                           else 0.0)
      && t.dir == s.dir && t.openPrice == s.openPrice && t.openDate == s.openDate
      && t.floatProfit == s.floatProfit
      && (t.amount == 0.0 ==> t.closeDate == Some(date) && t.closePrice == price)
      && (t.amount != 0.0 ==> t.closeDate == s.closeDate && t.closePrice == s.closePrice)
  {
  }

  /**
   * Closing at the marking price moves profit from unrealised to realised:
   * realised plus unrealised profit at that price is the same before and
   * after.
   */
  lemma {:induction false} CloseAtMarkConserves(s: PosState, price: real, qty: real, date: int)
    requires qty <= s.amount
    ensures var t := Closed(s, price, qty, date);
      t.pnl + FloatProfit(t, price) == s.pnl + FloatProfit(s, price)
  {
    var t := Closed(s, price, qty, date);
    assert t.amount == s.amount - qty && t.openPrice == s.openPrice && t.dir == s.dir;
    assert t.pnl == s.pnl + Realised(s, price, qty);
    if s.dir == Long {
      SplitProduct(price - s.openPrice, qty, s.amount);
    } else if s.dir == Short {
      SplitProduct(s.openPrice - price, qty, s.amount);
    }
  }

  /** A margin times a part plus the same margin times the rest is the margin times the whole. */
  lemma SplitProduct(m: real, part: real, whole: real)
    ensures m * part + m * (whole - part) == m * whole
  {
  }

  // ---------------------------------------------------------------------------
  // get_recent_data: the rows a strategy may look at

  /** `index[index <= date]`: the timestamps at or before `date`, in index order. */
  function AtOrBefore(index: seq<int>, date: int): (r: seq<int>)
    ensures |r| <= |index|
  {
    if index == [] then []
    else
      var init := index[..|index| - 1];
      AtOrBefore(init, date) + (if index[|index| - 1] <= date then [index[|index| - 1]] else [])
  }

  /** `xs[-n:]` with Python's slice rules (a negative start counts from the end and is clamped at 0). */
  function LastSlice(xs: seq<int>, n: int): (r: seq<int>)
    ensures exists k :: 0 <= k <= |xs| && r == xs[k..]
  {
    var from := if -n >= 0 then (if -n <= |xs| then -n else |xs|)
                else (if |xs| - n >= 0 then |xs| - n else 0);
    assert 0 <= from <= |xs|;
    xs[from..]
  }

  /** `index[index <= date][-periods:]`, the selection `get_recent_data` makes in each frame. */
  function RecentIndex(index: seq<int>, date: int, periods: int): seq<int>
  {
    LastSlice(AtOrBefore(index, date), periods)
  }

  /**
   * `pd.concat([a, b], axis=1, join='inner')` on two frames with unique
   * indexes: the labels of `a` that `b` also has, in `a`'s order.
   */
  function InnerJoin(a: seq<int>, b: seq<int>): (r: seq<int>)
    ensures |r| <= |a|
    ensures forall x :: x in r <==> x in a && x in b
  {
    if a == [] then []
    else
      var init := a[..|a| - 1];
      var rest := InnerJoin(init, b);
      assert a == init + [a[|a| - 1]];
      rest + (if a[|a| - 1] in b then [a[|a| - 1]] else [])
  }

  /** The rows both selections keep: what `get_recent_data` returns, as its index. */
  function RecentCombined(data: seq<int>, indicators: seq<int>, date: int, periods: int): seq<int>
  {
    InnerJoin(RecentIndex(data, date, periods), RecentIndex(indicators, date, periods))
  }

  /** What a strategy holds in `data` or `indicators`: one frame, or one frame per symbol. */
  datatype Source = Frame(index: seq<int>) | PerSymbol(frames: map<string, seq<int>>)

  /**
   * `Strategy.get_recent_data(date, periods, data, indicators, symbol)` on a
   * strategy whose own `data` and `indicators` are `ownData` and
   * `ownIndicators`. Per-symbol arguments need a symbol (ValueError) that
   * both have (KeyError); otherwise the arguments, or the strategy's own
   * when absent, must be single frames, since a dict or `None` has no
   * `.index` (AttributeError).
   */
  function GetRecentData(ownData: Option<Source>, ownIndicators: Option<Source>, date: int, periods: int,
                         data: Option<Source>, indicators: Option<Source>, symbol: Option<string>): Result<seq<int>, Error>
  {
    if data.Some? && data.value.PerSymbol? && indicators.Some? && indicators.value.PerSymbol? then
      if symbol.None? then Err(ValueError)
      else if symbol.value !in data.value.frames || symbol.value !in indicators.value.frames then Err(KeyError)
      else Ok(RecentCombined(data.value.frames[symbol.value], indicators.value.frames[symbol.value], date, periods))
    else
      var d := if data.Some? then data else ownData;
      var i := if indicators.Some? then indicators else ownIndicators;
      if d.Some? && d.value.Frame? && i.Some? && i.value.Frame? then
        Ok(RecentCombined(d.value.index, i.value.index, date, periods))
      else Err(AttributeError)
  }

  lemma {:induction false} AtOrBeforeMembers(index: seq<int>, date: int)
    ensures forall x :: x in AtOrBefore(index, date) <==> x in index && x <= date
  {
    if index != [] {
      var init := index[..|index| - 1];
      AtOrBeforeMembers(init, date);
      assert index == init + [index[|index| - 1]];
    }
  }

  /**
   * No lookahead: every row `get_recent_data` selects is at or before
   * `date`. For a positive `periods` it keeps at most `periods` rows, and they
   * are the latest such rows, in index order.
   */
  lemma RecentIndexSpec(index: seq<int>, date: int, periods: int)
    ensures forall x :: x in RecentIndex(index, date, periods) ==> x in index && x <= date
    ensures periods > 0 ==>
      var before := AtOrBefore(index, date);
      var n := if periods <= |before| then periods else |before|;
      RecentIndex(index, date, periods) == before[|before| - n..]
  {
    AtOrBeforeMembers(index, date);
    var before := AtOrBefore(index, date);
    var r := RecentIndex(index, date, periods);
    var k :| 0 <= k <= |before| && r == before[k..];
    InSuffix(before, k);
  }

  /** Every element of a suffix is an element of the whole. */
  lemma InSuffix(xs: seq<int>, k: int)
    requires 0 <= k <= |xs|
    ensures forall x :: x in xs[k..] ==> x in xs
  {
  }

  /**
   * Python's `xs[-0:]` is `xs[0:]`: asking for zero periods selects every row
   * at or before `date`, not none.
   */
  lemma RecentIndexZeroKeepsAll(index: seq<int>, date: int)
    ensures RecentIndex(index, date, 0) == AtOrBefore(index, date)
  {
  }

  /** One row at time 1 and a request for zero periods: that row comes back. */
  lemma RecentIndexZeroExample()
    ensures RecentIndex([1], 5, 0) == [1]
  {
    assert AtOrBefore([1], 5) == [1] by {
      assert [1][..0] == [];
    }
  }

  /** The last `periods` rows at or before `date`, and none when `periods` is not positive. */
  function LatestRows(index: seq<int>, date: int, periods: int): (r: seq<int>)
    ensures |r| <= if periods > 0 then periods else 0
    ensures forall x :: x in r ==> x in index && x <= date
  {
    AtOrBeforeMembers(index, date);
    var before := AtOrBefore(index, date);
    var n := if periods <= 0 then 0 else if periods <= |before| then periods else |before|;
    InSuffix(before, |before| - n);
    before[|before| - n..]
  }

  /** Outside the zero case the selection as written and the intended one agree. */
  lemma LatestRowsAgrees(index: seq<int>, date: int, periods: int)
    requires periods > 0
    ensures LatestRows(index, date, periods) == RecentIndex(index, date, periods)
  {
    RecentIndexSpec(index, date, periods);
  }

  /**
   * The combined view of two frames (all of the older `get_recent_data`)
   * never holds a row later than `date` and, for a positive `periods`, at
   * most `periods` rows; every row it holds is in both frames.
   */
  lemma RecentCombinedSpec(data: seq<int>, indicators: seq<int>, date: int, periods: int)
    ensures forall x :: x in RecentCombined(data, indicators, date, periods) ==> x <= date && x in data && x in indicators
    ensures periods > 0 ==> |RecentCombined(data, indicators, date, periods)| <= periods
  {
    RecentIndexSpec(data, date, periods);
    RecentIndexSpec(indicators, date, periods);
  }

  /** The same bounds hold whichever form the arguments take. */
  lemma GetRecentDataSpec(ownData: Option<Source>, ownIndicators: Option<Source>, date: int, periods: int,
                          data: Option<Source>, indicators: Option<Source>, symbol: Option<string>)
    ensures var r := GetRecentData(ownData, ownIndicators, date, periods, data, indicators, symbol);
      && (r.Ok? ==> forall x :: x in r.value ==> x <= date)
      && (r.Ok? && periods > 0 ==> |r.value| <= periods)
  {
    var r := GetRecentData(ownData, ownIndicators, date, periods, data, indicators, symbol);
    if r.Ok? {
      if data.Some? && data.value.PerSymbol? && indicators.Some? && indicators.value.PerSymbol? {
        RecentCombinedSpec(data.value.frames[symbol.value], indicators.value.frames[symbol.value], date, periods);
      } else {
        var d := if data.Some? then data else ownData;
        var i := if indicators.Some? then indicators else ownIndicators;
        RecentCombinedSpec(d.value.index, i.value.index, date, periods);
      }
    }
  }

  /** Per-symbol data without a symbol raises ValueError. */
  lemma GetRecentDataNeedsSymbol(ownData: Option<Source>, ownIndicators: Option<Source>, date: int, periods: int,
                                 data: map<string, seq<int>>, indicators: map<string, seq<int>>)
    ensures GetRecentData(ownData, ownIndicators, date, periods, Some(PerSymbol(data)), Some(PerSymbol(indicators)), None)
            == Err(ValueError)
  {
  }
}
