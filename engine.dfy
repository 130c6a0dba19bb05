/**
 * The single-symbol replay engine of backtest.py (`_single_symbol_engine`).
 * For every bar it marks the position at the bar's close, asks the strategy
 * for a signal, and applies the signal's accounting to a running balance: an
 * open charges `amount * price * (fee + slippage)`, a long open also pays the
 * notional, and a close settles `min(requested, held)`. A close that empties
 * the position writes one ledger record and starts a fresh position; at the
 * end of the data an open position is liquidated at the last close.
 *
 * The strategy is a function of what the engine shows it (date, bar,
 * position, its trade cost, balance, symbol). The bars are the one-minute
 * klines the engine would fetch.
 */
module Engine {
  import opened Common
  import opened Bars
  import opened Models

  /** One ledger entry: the dict `_single_symbol_engine` appends. */
  datatype Record = Record(
    openDate: Option<int>,
    closeDate: Option<int>,
    dir: Dir,
    openPrice: real,
    closePrice: real,
    amount: real,
    pnl: real,
    openFee: real,
    closeFee: real,
    balance: real)

  /** `strategy.run(date, row, current_pos, current_balance, symbol)`; the position is shown as its state and trade cost. */
  type Strategy = (int, Bar, PosState, real, real, string) -> Option<Signal>

  /** The engine's running state: the current position, its `trade_cost`, the balance and the ledger so far. */
  datatype Book = Book(pos: PosState, tradeCost: real, balance: real, ledger: seq<Record>)

  function Start(balance: real): Book
  {
    Book(Flat, 0.0, balance, [])
  }

  /** What an open takes from the balance: notional plus cost for a long, the cost alone for a short. */
  function OpenDebit(dir: Dir, qty: real, price: real, rate: real): real
  {
    var notional := qty * price;
    if dir == Long then notional + notional * rate else notional * rate
  }

  /** The outcome of settling part of a position: its recorded profit, its fee and the new balance. */
  datatype Settlement = Settlement(profit: real, fee: real, balance: real)

  /**
   * Settling `qty` at `price` (the close branch, and the final liquidation).
   * A long is credited the proceeds net of fees; a short is credited its
   * profit, which already has the open fee taken off. A position with no
   * direction is never settled by the engine (see `RunSane`).
   */
  function Settle(pos: PosState, openFee: real, balance: real, qty: real, price: real, rate: real): Settlement
  {
    match pos.dir
    case Long =>
      var proceeds := qty * price;
      var fee := proceeds * rate;
      var net := proceeds - fee;
      Settlement(net - (pos.openPrice * qty + openFee), fee, balance + net)
    case Short =>
      var cost := qty * price;
      var fee := cost * rate;
      var profit := (pos.openPrice * qty - (cost + fee)) - openFee;
      Settlement(profit, fee, balance + profit)
    case _ => Settlement(0.0, 0.0, balance)
  }

  /** A `'long'` or `'short'` signal: open, record that leg's cost as the trade cost, debit the balance. */
  function ApplyOpen(b: Book, sig: Signal, rate: real, date: int): Result<Book, Error>
  {
    match Opened(b.pos, sig.price, sig.amount, sig.dir, date)
    case Err(e) => Err(e)
    case Ok(p) =>
      Ok(Book(p, sig.amount * sig.price * rate, b.balance - OpenDebit(sig.dir, sig.amount, sig.price, rate), b.ledger))
  }

  /**
   * A `'close'` signal: settle `min(requested, held)` if that is positive;
   * when the position is then empty, append its record and start afresh.
   */
  function ApplyClose(b: Book, sig: Signal, rate: real, date: int): Book
  {
    var qty := Min(sig.amount, b.pos.amount);
    if qty <= 0.0 then b
    else
      var s := Settle(b.pos, b.tradeCost, b.balance, qty, sig.price, rate);
      var p := Closed(b.pos, sig.price, qty, date);
      if p.amount == 0.0 then
        var entry := Record(p.openDate, p.closeDate, p.dir, p.openPrice, p.closePrice, p.amount, s.profit, b.tradeCost, s.fee, s.balance);
        Book(Flat, 0.0, s.balance, b.ledger + [entry])
      else
        Book(p, b.tradeCost, s.balance, b.ledger)
  }

  /** The position marked at the bar's close, as the strategy is shown it. */
  function Marked(b: Book, bar: Bar): Book
  {
    b.(pos := b.pos.(floatProfit := FloatProfit(b.pos, bar.close)))
  }

  /** One bar of the loop. */
  function Step(b: Book, bar: Bar, symbol: string, strategy: Strategy, rate: real): Result<Book, Error>
  {
    var m := Marked(b, bar);
    match strategy(bar.time, bar, m.pos, m.tradeCost, m.balance, symbol)
    case None => Ok(m)
    case Some(sig) =>
      if sig.dir == Long || sig.dir == Short then ApplyOpen(m, sig, rate, bar.time)
      else if sig.dir == Close then Ok(ApplyClose(m, sig, rate, bar.time))
      else Ok(m)
  }

  /** The loop over `bars`, from the initial book; an exception stops it. */
  function Run(bars: seq<Bar>, symbol: string, strategy: Strategy, balance: real, rate: real): Result<Book, Error>
  {
    if bars == [] then Ok(Start(balance))
    else
      match Run(bars[..|bars| - 1], symbol, strategy, balance, rate)
      case Err(e) => Err(e)
      case Ok(b) => Step(b, bars[|bars| - 1], symbol, strategy, rate)
  }

  /** After the loop: liquidate what is still held at the last close, dated at the last bar. */
  function Liquidate(b: Book, bars: seq<Bar>, rate: real): Result<seq<Record>, Error>
  {
    if b.pos.amount > 0.0 then
      if bars == [] then Err(IndexError)
      else
        var last := bars[|bars| - 1];
        var s := Settle(b.pos, b.tradeCost, b.balance, b.pos.amount, last.close, rate);
        Ok(b.ledger + [Record(b.pos.openDate, Some(last.time), b.pos.dir, b.pos.openPrice, last.close,
                              b.pos.amount, s.profit, b.tradeCost, s.fee, s.balance)])
    else Ok(b.ledger)
  }

  /** The ledger `_single_symbol_engine` returns. */
  function Ledger(bars: seq<Bar>, symbol: string, strategy: Strategy, balance: real, rate: real): Result<seq<Record>, Error>
  {
    match Run(bars, symbol, strategy, balance, rate)
    case Err(e) => Err(e)
    case Ok(b) => Liquidate(b, bars, rate)
  }

  // ---------------------------------------------------------------------------
  // The engine loop

  lemma RunPrefix(bars: seq<Bar>, i: nat, symbol: string, strategy: Strategy, balance: real, rate: real)
    requires i < |bars|
    ensures Run(bars[..i + 1], symbol, strategy, balance, rate)
         == match Run(bars[..i], symbol, strategy, balance, rate)
            case Err(e) => Err(e)
            case Ok(b) => Step(b, bars[i], symbol, strategy, rate)
  {
    assert bars[..i + 1][..i] == bars[..i];
  }

  /** Once the loop has raised, it has raised for every longer run of bars. */
  lemma {:induction false} RunErrSticks(bars: seq<Bar>, i: nat, symbol: string, strategy: Strategy, balance: real, rate: real)
    requires i <= |bars| && Run(bars[..i], symbol, strategy, balance, rate).Err?
    ensures Run(bars, symbol, strategy, balance, rate) == Run(bars[..i], symbol, strategy, balance, rate)
    decreases |bars| - i
  {
    if i < |bars| {
      RunPrefix(bars, i, symbol, strategy, balance, rate);
      RunErrSticks(bars, i + 1, symbol, strategy, balance, rate);
    } else {
      assert bars[..i] == bars;
    }
  }

  /** The `'long'`/`'short'` branch of the loop body; returns the exception `open` raised, if any. */
  method OpenLeg(pos: Position, sig: Signal, rate: real, date: int, balance: real, ghost history: seq<Record>)
    returns (raised: Option<Error>, newBalance: real)
    requires sig.dir == Long || sig.dir == Short
    modifies pos
    ensures pos.symbol == old(pos.symbol)
    ensures var want := ApplyOpen(Book(old(pos.State()), old(pos.tradeCost), balance, history), sig, rate, date);
      && (raised.Some? <==> want.Err?)
      && (raised.Some? ==> raised.value == want.error)
      && (raised.None? ==> want.value == Book(pos.State(), pos.tradeCost, newBalance, history))
  {
    var openCost := sig.amount * sig.price;
    var tradeCost := openCost * rate;
    raised := pos.Open(sig.price, sig.amount, sig.dir, date);
    newBalance := balance;
    if raised.Some? {
      return;
    }
    pos.tradeCost := tradeCost;
    if sig.dir == Long {
      newBalance := balance - (openCost + tradeCost);
    } else {
      newBalance := balance - tradeCost;
    }
  }

  /**
   * The `'close'` branch of the loop body. Returns the position the loop
   * goes on with: the same object, or a fresh one after a full close.
   */
  method CloseLeg(pos: Position, sig: Signal, rate: real, date: int, balance: real, history: seq<Record>)
    returns (next: Position, newBalance: real, newHistory: seq<Record>)
    modifies pos
    ensures (fresh(next) || next == pos) && next.symbol == old(pos.symbol)
    ensures Book(next.State(), next.tradeCost, newBalance, newHistory)
         == ApplyClose(Book(old(pos.State()), old(pos.tradeCost), balance, history), sig, rate, date)
  {
    next, newBalance, newHistory := pos, balance, history;
    var closeAmount := Min(sig.amount, pos.amount);
    if closeAmount <= 0.0 {
      return;
    }
    ghost var settled := Settle(pos.State(), pos.tradeCost, balance, closeAmount, sig.price, rate);
    var profit, closeFee := 0.0, 0.0;
    if pos.dir == Long {
      var proceeds := closeAmount * sig.price;
      closeFee := proceeds * rate;
      var netProceeds := proceeds - closeFee;
      newBalance := balance + netProceeds;
      profit := netProceeds - (pos.openPrice * closeAmount + pos.tradeCost);
    } else if pos.dir == Short {
      var cost := closeAmount * sig.price;
      closeFee := cost * rate;
      var netCost := cost + closeFee;
      profit := (pos.openPrice * closeAmount - netCost) - pos.tradeCost;
      newBalance := balance + profit;
    }
    assert profit == settled.profit && closeFee == settled.fee && newBalance == settled.balance;
    pos.Close(sig.price, closeAmount, date);
    if pos.amount == 0.0 {
      newHistory := history + [Record(pos.openDate, pos.closeDate, pos.dir, pos.openPrice, pos.closePrice,
                                      pos.amount, profit, pos.tradeCost, closeFee, newBalance)];
      next := new Position(pos.symbol);
    }
  }

  method SingleSymbolEngine(symbol: string, bars: seq<Bar>, strategy: Strategy,
                            totalBalance: real, feeRatio: real, slippageRatio: real)
    returns (r: Result<seq<Record>, Error>)
    ensures r == Ledger(bars, symbol, strategy, totalBalance, feeRatio + slippageRatio)
  {
    var rate := feeRatio + slippageRatio;
    var pos := new Position(symbol);
    var history: seq<Record> := [];
    var balance := totalBalance;
    var i := 0;
    while i < |bars|
      invariant 0 <= i <= |bars|
      invariant fresh(pos) && pos.symbol == symbol
      invariant Run(bars[..i], symbol, strategy, totalBalance, rate) == Ok(Book(pos.State(), pos.tradeCost, balance, history))
    {
      RunPrefix(bars, i, symbol, strategy, totalBalance, rate);
      ghost var before := Book(pos.State(), pos.tradeCost, balance, history);
      var bar := bars[i];
      pos.UpdateFloatProfit(bar.close);
      assert Book(pos.State(), pos.tradeCost, balance, history) == Marked(before, bar);
      var signal := strategy(bar.time, bar, pos.State(), pos.tradeCost, balance, symbol);
      if signal.Some? {
        var sig := signal.value;
        if sig.dir == Long || sig.dir == Short {
          var raised;
          raised, balance := OpenLeg(pos, sig, rate, bar.time, balance, history);
          if raised.Some? {
            RunErrSticks(bars, i + 1, symbol, strategy, totalBalance, rate);
            return Err(raised.value);
          }
        } else if sig.dir == Close {
          pos, balance, history := CloseLeg(pos, sig, rate, bar.time, balance, history);
        }
      }
      i := i + 1;
    }
    assert bars[..i] == bars;
    if pos.amount > 0.0 {
      var last := bars[|bars| - 1];
      var settled := Settle(pos.State(), pos.tradeCost, balance, pos.amount, last.close, rate);
      balance := settled.balance;
      history := history + [Record(pos.openDate, Some(last.time), pos.dir, pos.openPrice, last.close,
                                   pos.amount, settled.profit, pos.tradeCost, settled.fee, balance)];
    }
    r := Ok(history);
  }

  // ---------------------------------------------------------------------------
  // Properties of the replay

  /** A record of a full close: nothing left, both dates stamped, a real direction. */
  predicate FullClose(r: Record)
  {
    r.amount == 0.0 && r.openDate.Some? && r.closeDate.Some? && (r.dir == Long || r.dir == Short)
  }

  /**
   * What holds of every book the loop reaches: a position without a
   * direction holds nothing, a position with one has been openAt, and every
   * ledger record so far is a full close.
   */
  predicate Sane(b: Book)
  {
    && b.pos.dir != Close
    && (b.pos.dir == NoDir ==> b.pos.amount == 0.0)
    && (b.pos.dir != NoDir ==> b.pos.openDate.Some?)
    && forall k :: 0 <= k < |b.ledger| ==> FullClose(b.ledger[k])
  }

  lemma StepSane(b: Book, bar: Bar, symbol: string, strategy: Strategy, rate: real)
    requires Sane(b)
    ensures Step(b, bar, symbol, strategy, rate).Ok? ==> Sane(Step(b, bar, symbol, strategy, rate).value)
  {
    var m := Marked(b, bar);
    assert Sane(m);
    match strategy(bar.time, bar, m.pos, m.tradeCost, m.balance, symbol)
    case None =>
    case Some(sig) =>
      if sig.dir == Close {
        var qty := Min(sig.amount, m.pos.amount);
        if qty > 0.0 {
          var p := Closed(m.pos, sig.price, qty, bar.time);
          assert p.dir == m.pos.dir && p.openDate == m.pos.openDate;
          if p.amount == 0.0 {
            var c := ApplyClose(m, sig, rate, bar.time);
            assert c.ledger == m.ledger + [c.ledger[|m.ledger|]];
            assert FullClose(c.ledger[|m.ledger|]);
          }
        }
      }
  }

  /** Every book the loop reaches is sane. */
  lemma {:induction false} RunSane(bars: seq<Bar>, symbol: string, strategy: Strategy, balance: real, rate: real)
    ensures Run(bars, symbol, strategy, balance, rate).Ok? ==> Sane(Run(bars, symbol, strategy, balance, rate).value)
    decreases |bars|
  {
    if bars != [] {
      var init := bars[..|bars| - 1];
      RunSane(init, symbol, strategy, balance, rate);
      var prev := Run(init, symbol, strategy, balance, rate);
      if prev.Ok? {
        StepSane(prev.value, bars[|bars| - 1], symbol, strategy, rate);
      }
    }
  }

  /**
   * The ledger holds one record per full close made during the loop, in
   * order, followed by one liquidation record exactly when something is
   * still held after the last bar; that record is closeAt at the last bar's
   * time and close price. Every record carries both dates. The only
   * exception the replay can raise is the division by zero of `open`.
   */
  lemma LedgerShape(bars: seq<Bar>, symbol: string, strategy: Strategy, balance: real, rate: real)
    ensures var l := Ledger(bars, symbol, strategy, balance, rate);
      && (l.Err? ==> l.error == ZeroDivisionError)
      && (l.Ok? ==>
          var b := Run(bars, symbol, strategy, balance, rate).value;
          var tail := if b.pos.amount > 0.0 then 1 else 0;
          && |l.value| == |b.ledger| + tail
          && l.value[..|b.ledger|] == b.ledger
          && (forall k :: 0 <= k < |b.ledger| ==> FullClose(l.value[k]))
          && (forall k :: 0 <= k < |l.value| ==> l.value[k].openDate.Some? && l.value[k].closeDate.Some?)
          && (tail == 1 ==>
                && l.value[|b.ledger|].amount == b.pos.amount
                && l.value[|b.ledger|].closeDate == Some(bars[|bars| - 1].time)
                && l.value[|b.ledger|].closePrice == bars[|bars| - 1].close))
  {
    RunSane(bars, symbol, strategy, balance, rate);
    RunErrKind(bars, symbol, strategy, balance, rate);
    var r := Run(bars, symbol, strategy, balance, rate);
    if r.Ok? && bars == [] {
      assert r.value == Start(balance);
    }
  }

  lemma {:induction false} RunErrKind(bars: seq<Bar>, symbol: string, strategy: Strategy, balance: real, rate: real)
    ensures Run(bars, symbol, strategy, balance, rate).Err? ==> Run(bars, symbol, strategy, balance, rate).error == ZeroDivisionError
    decreases |bars|
  {
    if bars != [] {
      RunErrKind(bars[..|bars| - 1], symbol, strategy, balance, rate);
    }
  }

  /**
   * An open records that leg's cost as the position's trade cost, replacing
   * whatever was there, and debits notional plus cost for a long and only
   * the cost for a short; the ledger is untouched.
   */
  lemma OpenCharges(b: Book, sig: Signal, rate: real, date: int)
    requires sig.dir == Long || sig.dir == Short
    requires Opened(b.pos, sig.price, sig.amount, sig.dir, date).Ok?
    ensures var o := ApplyOpen(b, sig, rate, date).value;
      && o.pos == Opened(b.pos, sig.price, sig.amount, sig.dir, date).value
      && o.tradeCost == sig.amount * sig.price * rate
      && o.balance == b.balance - (if sig.dir == Long then sig.amount * sig.price + sig.amount * sig.price * rate
                                   else sig.amount * sig.price * rate)
      && o.ledger == b.ledger
  {
  }

  /**
   * A close settles `min(requested, held)`: nothing at all happens when
   * that is not positive; asking for at least the held amount empties the
   * position, appends one record and starts a fresh position; asking for
   * less keeps the position open with the rest and writes no record.
   */
  lemma CloseQuantity(b: Book, sig: Signal, rate: real, date: int)
    ensures var c := ApplyClose(b, sig, rate, date);
      && (sig.amount <= 0.0 || b.pos.amount <= 0.0 ==> c == b)
      && (0.0 < b.pos.amount <= sig.amount ==>
            c.pos == Flat && c.tradeCost == 0.0 && |c.ledger| == |b.ledger| + 1 && c.ledger[..|b.ledger|] == b.ledger
            && c.ledger[|b.ledger|].amount == 0.0 && c.ledger[|b.ledger|].closeDate == Some(date))
      && (0.0 < sig.amount < b.pos.amount ==>
            c.pos.amount == b.pos.amount - sig.amount && c.ledger == b.ledger && c.tradeCost == b.tradeCost)
  {
    var c := ApplyClose(b, sig, rate, date);
    if 0.0 < b.pos.amount <= sig.amount {
      assert Min(sig.amount, b.pos.amount) == b.pos.amount;
      assert c.ledger[..|b.ledger|] == b.ledger;
    }
  }

  /**
   * A full round trip from a flat book: open `qty` in `dir` at `entry`, then
   * close all of it at `exit`. One record is written with the leg's prices,
   * dates and both fees, and its pnl is the price move on `qty` less both
   * fees. The balance moves by that pnl for a long, but for a short by the
   * pnl less the open fee a second time: the open already debited it, and
   * the close credits a profit that has it taken off again.
   */
  lemma {:induction false} RoundTrip(b: Book, dir: Dir, qty: real, entry: real, exit: real, rate: real, openAt: int, closeAt: int)
    requires b.pos == Flat && (dir == Long || dir == Short) && qty > 0.0
    ensures ApplyOpen(b, Signal(dir, entry, qty), rate, openAt).Ok?
    ensures var o := ApplyOpen(b, Signal(dir, entry, qty), rate, openAt).value;
      var c := ApplyClose(o, Signal(Close, exit, qty), rate, closeAt);
      && c.pos == Flat && |c.ledger| == |b.ledger| + 1 && c.ledger[..|b.ledger|] == b.ledger
      && var e := c.ledger[|b.ledger|];
      && e.dir == dir && e.openPrice == entry && e.closePrice == exit && e.amount == 0.0
      && e.openDate == Some(openAt) && e.closeDate == Some(closeAt)
      && e.openFee == qty * entry * rate && e.closeFee == qty * exit * rate
      && e.pnl == (if dir == Long then (exit - entry) * qty else (entry - exit) * qty) - e.openFee - e.closeFee
      && e.balance == c.balance
      && c.balance - b.balance == e.pnl - (if dir == Short then e.openFee else 0.0)
  {
    var sig := Signal(dir, entry, qty);
    assert !AddsTo(b.pos, dir);
    var o := ApplyOpen(b, sig, rate, openAt).value;
    assert o.pos == Flat.(openPrice := entry, amount := qty, dir := dir, openDate := Some(openAt));
    assert o.tradeCost == qty * entry * rate;
    assert Min(qty, o.pos.amount) == qty;
    var s := Settle(o.pos, o.tradeCost, o.balance, qty, exit, rate);
    var p := Closed(o.pos, exit, qty, closeAt);
    assert p.amount == 0.0;
    assert p.closeDate == Some(closeAt) && p.closePrice == exit;
    var c := ApplyClose(o, Signal(Close, exit, qty), rate, closeAt);
    assert c.ledger == b.ledger + [Record(p.openDate, p.closeDate, p.dir, p.openPrice, p.closePrice, p.amount, s.profit, o.tradeCost, s.fee, s.balance)];
    assert c.ledger[..|b.ledger|] == b.ledger;
    assert s.fee == qty * exit * rate;
    if dir == Long {
      assert s.profit == (exit - entry) * qty - qty * entry * rate - qty * exit * rate;
      assert o.balance == b.balance - (qty * entry + qty * entry * rate);
    } else {
      assert s.profit == (entry - exit) * qty - qty * entry * rate - qty * exit * rate;
      assert o.balance == b.balance - qty * entry * rate;
    }
  }

  /** With no fee or slippage, opening and closing at the same price books nothing and restores the balance. */
  lemma ZeroFeeRoundTrip(b: Book, dir: Dir, qty: real, price: real, openAt: int, closeAt: int)
    requires b.pos == Flat && (dir == Long || dir == Short) && qty > 0.0
    ensures ApplyOpen(b, Signal(dir, price, qty), 0.0, openAt).Ok?
    ensures var c := ApplyClose(ApplyOpen(b, Signal(dir, price, qty), 0.0, openAt).value, Signal(Close, price, qty), 0.0, closeAt);
      c.ledger[|b.ledger|].pnl == 0.0 && c.balance == b.balance && c.pos == Flat
  {
    RoundTrip(b, dir, qty, price, price, 0.0, openAt, closeAt);
  }

  /** A balance of 50000, long 1 at 100 closeAt at 110 with no costs: pnl 10, balance 50010. */
  lemma LongExample()
    ensures var o := ApplyOpen(Start(50000.0), Signal(Long, 100.0, 1.0), 0.0, 0).value;
      var c := ApplyClose(o, Signal(Close, 110.0, 1.0), 0.0, 1);
      c.ledger == [c.ledger[0]] && c.ledger[0].pnl == 10.0 && c.balance == 50010.0
  {
    RoundTrip(Start(50000.0), Long, 1.0, 100.0, 110.0, 0.0, 0, 1);
  }

  /**
   * A short of 1 at 100 closeAt at 100 with costs at ten percent: the record
   * says pnl -20 (two fees of 10), the balance falls by 30.
   */
  lemma ShortChargesOpenFeeTwice()
    ensures var o := ApplyOpen(Start(1000.0), Signal(Short, 100.0, 1.0), 0.1, 0).value;
      var c := ApplyClose(o, Signal(Close, 100.0, 1.0), 0.1, 1);
      c.ledger[0].pnl == -20.0 && c.balance == 970.0
  {
    RoundTrip(Start(1000.0), Short, 1.0, 100.0, 100.0, 0.1, 0, 1);
  }

  /** Settlement as intended: a short is credited its profit with the open fee, already paid at the open, added back. */
  function SettleIntended(pos: PosState, openFee: real, balance: real, qty: real, price: real, rate: real): (s: Settlement)
    ensures s.profit == Settle(pos, openFee, balance, qty, price, rate).profit
  {
    var s := Settle(pos, openFee, balance, qty, price, rate);
    if pos.dir == Short then s.(balance := s.balance + openFee) else s
  }

  /**
   * With the intended settlement, the balance moves over a full round trip
   * (the open's debit plus the close's credit) by exactly the recorded pnl,
   * on either side.
   */
  lemma IntendedRoundTrip(dir: Dir, qty: real, entry: real, exit: real, rate: real, balance: real, date: int)
    requires dir == Long || dir == Short
    ensures var pos := Flat.(openPrice := entry, amount := qty, dir := dir, openDate := Some(date));
      var afterOpen := balance - OpenDebit(dir, qty, entry, rate);
      var s := SettleIntended(pos, qty * entry * rate, afterOpen, qty, exit, rate);
      s.balance - balance == s.profit
  {
  }
}
