/**
 * The older all-in backtester of Strategy.py. It keeps a cash `balance`, a
 * signed position `pos` (negative when short), the last fill as
 * `entry_price`, a running `total`, a list of trade records, and four
 * bookkeeping cells per row of the data table (`pos`, `balance`, `total`,
 * `entry_price`).
 *
 * A long open spends the whole balance (less a fee on it) at the close price
 * raised by the slippage; a short open sells the same value at the close
 * price lowered by it; a close unwinds the whole position. The strategy is a
 * function `check(row, bars, pos)` giving the row's list of signals; an empty
 * list is Python's falsy "no signal".
 *
 * The state is proved against value-level step functions (`Opened`,
 * `ClosedAt`, `Traded`, `Replayed`) and the lemmas state what those steps
 * mean.
 */
module LegacyStrategy {
  import opened Bars

  /** The signal strings `trade` understands; anything else is `Other` and ignored. */
  datatype Order = LongOrder | ShortOrder | CloseOrder | TakeProfit | StopLoss | Other

  predicate IsOpen(o: Order) { o.LongOrder? || o.ShortOrder? }

  predicate IsClose(o: Order) { o.CloseOrder? || o.TakeProfit? || o.StopLoss? }

  /** One row of `trade_record`: date, signal, fill price, amount and pnl. */
  datatype TradeRecord = TradeRecord(date: int, signal: Order, price: real, amount: real, pnl: real)

  /** The four cells of one data-table row that the backtester writes. */
  datatype Cell = Cell(pos: real, balance: real, total: real, entryPrice: real)

  /** A row as `run_backtest` initialises it: every cell 0. */
  const Blank := Cell(0.0, 0.0, 0.0, 0.0)

  /** The backtester's own state. */
  datatype Book = Book(balance: real, total: real, pos: real, entryPrice: real, records: seq<TradeRecord>)

  /** The state together with the whole table of row cells. */
  datatype Sheet = Sheet(book: Book, cells: seq<Cell>)

  /** The strategy's `check_signal(index, row, data, pos)`. */
  type Checker = (nat, seq<Bar>, real) -> seq<Order>

  function BuyFill(price: real, slippage: real): real { price * (1.0 + slippage) }

  function SellFill(price: real, slippage: real): real { price * (1.0 - slippage) }

  /** Both fills at `price` are non-zero, so the invested amount can be divided by either. */
  predicate Fillable(price: real, slippage: real)
  {
    BuyFill(price, slippage) != 0.0 && SellFill(price, slippage) != 0.0
  }

  // ---------------------------------------------------------------------------
  // One leg

  /**
   * `open_position`: a long buys `(balance - fee) / fill` at the raised
   * fill and leaves no cash; a short sells that many units at the lowered
   * fill and adds the proceeds to the cash. The row's `pos` cell moves by the
   * leg, the other cells take the new values. Any other order does nothing.
   */
  function Opened(b: Book, cell: Cell, o: Order, date: int, price: real, feeRate: real, slippage: real): (Book, Cell)
    requires Fillable(price, slippage)
  {
    var fee := b.balance * feeRate;
    var invest := b.balance - fee;
    if o.LongOrder? then
      var fill := BuyFill(price, slippage);
      var amount := invest / fill;
      var total := 0.0 + amount * fill;
      (Book(0.0, total, b.pos + amount, fill, b.records + [TradeRecord(date, o, fill, amount, 0.0)]),
       Cell(cell.pos + amount, 0.0, total, fill))
    else if o.ShortOrder? then
      var fill := SellFill(price, slippage);
      var amount := invest / fill;
      var balance := b.balance + invest;
      var total := balance - amount * fill - fee;
      (Book(balance, total, b.pos - amount, fill, b.records + [TradeRecord(date, o, fill, amount, 0.0)]),
       Cell(cell.pos - amount, balance, total, fill))
    else (b, cell)
  }

  /**
   * `close_position`: a long is sold at the lowered fill and a short bought
   * back at the raised one, paying the fee on the traded value; the cash
   * absorbs the trade, the position and entry price drop to 0 and the
   * record carries the signed amount and pnl. A flat book is left alone.
   */
  function ClosedAt(b: Book, cell: Cell, o: Order, date: int, price: real, feeRate: real, slippage: real): (Book, Cell)
  {
    if b.pos > 0.0 then
      var fill := SellFill(price, slippage);
      var fee := b.pos * fill * feeRate;
      var pnl := Pnl(fill, b.entryPrice, b.pos);
      var balance := b.balance + b.pos * fill - fee;
      (Book(balance, balance, 0.0, 0.0, b.records + [TradeRecord(date, o, fill, b.pos, pnl)]),
       Cell(0.0, balance, balance, 0.0))
    else if b.pos < 0.0 then
      var fill := BuyFill(price, slippage);
      var fee := -b.pos * fill * feeRate; // abs(pos) of a short
      var pnl := Pnl(fill, b.entryPrice, b.pos);
      var balance := b.balance + b.pos * fill - fee;
      (Book(balance, balance, 0.0, 0.0, b.records + [TradeRecord(date, o, fill, b.pos, pnl)]),
       Cell(0.0, balance, balance, 0.0))
    else (b, cell)
  }

  /** The pnl a close books: the move from the entry to the fill, times the signed position. */
  function Pnl(fill: real, entry: real, pos: real): real { (fill - entry) * pos }

  /** One signal of `trade`: opens open, the three closing signals close, others are ignored. */
  function Applied(b: Book, cell: Cell, o: Order, date: int, price: real, feeRate: real, slippage: real): (Book, Cell)
    requires Fillable(price, slippage)
  {
    if IsOpen(o) then Opened(b, cell, o, date, price, feeRate, slippage)
    else if IsClose(o) then ClosedAt(b, cell, o, date, price, feeRate, slippage)
    else (b, cell)
  }

  /** `trade`: the signals applied in list order, all at the row's close. */
  function Traded(b: Book, cell: Cell, orders: seq<Order>, date: int, price: real, feeRate: real, slippage: real): (Book, Cell)
    requires Fillable(price, slippage)
  {
    if orders == [] then (b, cell)
    else
      var before := Traded(b, cell, orders[..|orders| - 1], date, price, feeRate, slippage);
      Applied(before.0, before.1, orders[|orders| - 1], date, price, feeRate, slippage)
  }

  /** A row without signal: the cells show the cash, the position marked at the close, and the entry price. */
  function Marked(b: Book, cell: Cell, close: real): Cell
  {
    Cell(cell.pos + b.pos, b.balance, b.balance + b.pos * close, b.entryPrice)
  }

  // ---------------------------------------------------------------------------
  // The replay

  predicate AllFillable(bars: seq<Bar>, slippage: real)
  {
    forall i :: 0 <= i < |bars| ==> Fillable(bars[i].close, slippage)
  }

  /** `run_backtest`'s visit of row `i`: the row's signals are traded at its close, or, without any, its cells are marked. */
  function Visited(s: Sheet, bars: seq<Bar>, check: Checker, i: nat, feeRate: real, slippage: real): (r: Sheet)
    requires i < |bars| == |s.cells| && AllFillable(bars, slippage)
    ensures |r.cells| == |bars|
  {
    var bar := bars[i];
    var orders := check(i, bars, s.book.pos);
    if orders != [] then
      var next := Traded(s.book, s.cells[i], orders, bar.time, bar.close, feeRate, slippage);
      Sheet(next.0, s.cells[i := next.1])
    else Sheet(s.book, s.cells[i := Marked(s.book, s.cells[i], bar.close)])
  }

  /** The sheet after `run_backtest` has visited the first `n` rows. */
  function Replayed(bars: seq<Bar>, check: Checker, n: nat, init: real, feeRate: real, slippage: real): (r: Sheet)
    requires n <= |bars| && AllFillable(bars, slippage)
    ensures |r.cells| == |bars|
  {
    if n == 0 then Sheet(Book(init, init, 0.0, 0.0, []), seq(|bars|, _ => Blank))
    else Visited(Replayed(bars, check, n - 1, init, feeRate, slippage), bars, check, n - 1, feeRate, slippage)
  }

  /** The backtester of Strategy.py with the fields its methods update. */
  class Backtester {
    const initAmount: real
    const feeRate: real
    const slippageRate: real
    var balance: real
    var total: real
    var pos: real
    var entryPrice: real
    var tradeRecord: seq<TradeRecord>
    var table: seq<Cell>

    function State(): Book
      reads this
    {
      Book(balance, total, pos, entryPrice, tradeRecord)
    }

    constructor(initAmount: real, feeRate: real, slippageRate: real)
      ensures this.initAmount == initAmount && this.feeRate == feeRate && this.slippageRate == slippageRate
      ensures State() == Book(initAmount, initAmount, 0.0, 0.0, []) && table == []
    {
      this.initAmount := initAmount;
      this.feeRate := feeRate;
      this.slippageRate := slippageRate;
      balance, total, pos, entryPrice := initAmount, initAmount, 0.0, 0.0;
      tradeRecord, table := [], [];
    }

    method OpenPosition(o: Order, row: nat, date: int, price: real)
      requires row < |table| && Fillable(price, slippageRate)
      modifies this
      ensures var next := Opened(old(State()), old(table[row]), o, date, price, feeRate, slippageRate);
        State() == next.0 && table == old(table)[row := next.1]
    {
      if o.LongOrder? {
        OpenLong(row, date, price);
      } else if o.ShortOrder? {
        OpenShort(row, date, price);
      } else {
        assert table[row := table[row]] == table;
      }
    }

    /** The long branch of `open_position`: the whole balance less the fee buys at the raised fill. */
    method OpenLong(row: nat, date: int, price: real)
      requires row < |table| && Fillable(price, slippageRate)
      modifies this
      ensures var next := Opened(old(State()), old(table[row]), LongOrder, date, price, feeRate, slippageRate);
        State() == next.0 && table == old(table)[row := next.1]
    {
      ghost var next := Opened(State(), table[row], LongOrder, date, price, feeRate, slippageRate);
      var longPrice := BuyFill(price, slippageRate);
      var fee := balance * feeRate;
      var amountToInvest := balance - fee;
      var longAmount := amountToInvest / longPrice;
      balance := 0.0;
      total := balance + longAmount * longPrice;
      pos := pos + longAmount;
      entryPrice := longPrice;
      table := table[row := Cell(table[row].pos + longAmount, balance, total, longPrice)];
      tradeRecord := tradeRecord + [TradeRecord(date, LongOrder, longPrice, longAmount, 0.0)];
      assert next.0 == State() && next.1 == table[row];
    }

    /** The short branch of `open_position`: the same value is sold at the lowered fill and the proceeds join the cash. */
    method OpenShort(row: nat, date: int, price: real)
      requires row < |table| && Fillable(price, slippageRate)
      modifies this
      ensures var next := Opened(old(State()), old(table[row]), ShortOrder, date, price, feeRate, slippageRate);
        State() == next.0 && table == old(table)[row := next.1]
    {
      ghost var next := Opened(State(), table[row], ShortOrder, date, price, feeRate, slippageRate);
      var shortPrice := SellFill(price, slippageRate);
      var fee := balance * feeRate;
      var amountToInvest := balance - fee;
      var shortAmount := amountToInvest / shortPrice;
      balance := balance + amountToInvest;
      total := balance - shortAmount * shortPrice - fee;
      pos := pos - shortAmount;
      entryPrice := shortPrice;
      table := table[row := Cell(table[row].pos - shortAmount, balance, total, shortPrice)];
      tradeRecord := tradeRecord + [TradeRecord(date, ShortOrder, shortPrice, shortAmount, 0.0)];
      assert next.0 == State() && next.1 == table[row];
    }

    method ClosePosition(o: Order, row: nat, date: int, price: real)
      requires row < |table|
      modifies this
      ensures var next := ClosedAt(old(State()), old(table[row]), o, date, price, feeRate, slippageRate);
        State() == next.0 && table == old(table)[row := next.1]
    {
      if pos > 0.0 {
        CloseLong(o, row, date, price);
      } else if pos < 0.0 { // the source's second `if`, which a long close has just made false
        CloseShort(o, row, date, price);
      } else {
        assert table[row := table[row]] == table;
      }
    }

    /** A held long is sold at the lowered fill, less the fee on the sale. */
    method CloseLong(o: Order, row: nat, date: int, price: real)
      requires row < |table| && pos > 0.0
      modifies this
      ensures var next := ClosedAt(old(State()), old(table[row]), o, date, price, feeRate, slippageRate);
        State() == next.0 && table == old(table)[row := next.1]
    {
      ghost var next := ClosedAt(State(), table[row], o, date, price, feeRate, slippageRate);
      var sellPrice := SellFill(price, slippageRate);
      var amount := pos;
      var fee := pos * sellPrice * feeRate;
      var pnl := (sellPrice - entryPrice) * pos;
      assert pnl == Pnl(sellPrice, entryPrice, pos);
      balance := balance + pos * sellPrice - fee;
      total := balance;
      pos, entryPrice := 0.0, 0.0;
      table := table[row := Cell(pos, balance, total, entryPrice)];
      tradeRecord := tradeRecord + [TradeRecord(date, o, sellPrice, amount, pnl)];
      assert next.0 == State() && next.1 == table[row];
    }

    /** A held short is bought back at the raised fill, plus the fee on the purchase. */
    method CloseShort(o: Order, row: nat, date: int, price: real)
      requires row < |table| && pos < 0.0
      modifies this
      ensures var next := ClosedAt(old(State()), old(table[row]), o, date, price, feeRate, slippageRate);
        State() == next.0 && table == old(table)[row := next.1]
    {
      ghost var next := ClosedAt(State(), table[row], o, date, price, feeRate, slippageRate);
      var buyPrice := BuyFill(price, slippageRate);
      var amount := pos;
      var fee := -pos * buyPrice * feeRate;
      var pnl := (buyPrice - entryPrice) * pos;
      assert pnl == Pnl(buyPrice, entryPrice, pos);
      balance := balance + pos * buyPrice - fee;
      total := balance;
      pos, entryPrice := 0.0, 0.0;
      table := table[row := Cell(pos, balance, total, entryPrice)];
      tradeRecord := tradeRecord + [TradeRecord(date, o, buyPrice, amount, pnl)];
      assert next.0 == State() && next.1 == table[row];
    }

    method Trade(orders: seq<Order>, row: nat, bar: Bar)
      requires row < |table| && Fillable(bar.close, slippageRate)
      modifies this
      ensures var next := Traded(old(State()), old(table[row]), orders, bar.time, bar.close, feeRate, slippageRate);
        State() == next.0 && table == old(table)[row := next.1]
    {
      var price := bar.close;
      var k := 0;
      while k < |orders|
        invariant k <= |orders| && |table| == old(|table|)
        invariant var next := Traded(old(State()), old(table[row]), orders[..k], bar.time, price, feeRate, slippageRate);
          State() == next.0 && table == old(table)[row := next.1]
      {
        assert orders[..k + 1][..k] == orders[..k];
        var o := orders[k];
        if o.LongOrder? || o.ShortOrder? {
          OpenPosition(o, row, bar.time, price);
        }
        if o.CloseOrder? || o.TakeProfit? || o.StopLoss? {
          ClosePosition(o, row, bar.time, price);
        }
        k := k + 1;
      }
      assert orders[..k] == orders;
    }

    method VisitRow(bars: seq<Bar>, check: Checker, i: nat)
      requires i < |bars| == |table| && AllFillable(bars, slippageRate)
      modifies this
      ensures Sheet(State(), table) == Visited(old(Sheet(State(), table)), bars, check, i, feeRate, slippageRate)
    {
      var bar := bars[i];
      var signal := check(i, bars, pos);
      if signal != [] {
        Trade(signal, i, bar);
      } else {
        var cell := Cell(table[i].pos + pos, balance, balance + pos * bar.close, entryPrice);
        assert cell == Marked(State(), table[i], bar.close);
        table := table[i := cell];
      }
    }

    /** `run_backtest`: the table is reset, the state set to the initial amount, and every row visited in order. */
    method RunBacktest(bars: seq<Bar>, check: Checker)
      requires AllFillable(bars, slippageRate)
      modifies this
      ensures Sheet(State(), table) == Replayed(bars, check, |bars|, initAmount, feeRate, slippageRate)
    {
      table := seq(|bars|, _ => Blank);
      tradeRecord := [];
      balance, total, pos, entryPrice := initAmount, initAmount, 0.0, 0.0;
      var i := 0;
      while i < |bars|
        invariant i <= |bars| && |table| == |bars|
        invariant Sheet(State(), table) == Replayed(bars, check, i, initAmount, feeRate, slippageRate)
      {
        VisitRow(bars, check, i);
        i := i + 1;
      }
    }
  }

  // ---------------------------------------------------------------------------
  // What one leg does

  /**
   * An open invests the balance less its fee: the units bought (long) or
   * sold (short) times the fill equal that amount, which is also the new
   * total; a long leaves no cash, a short adds the proceeds to it; the entry
   * price is the fill, the record carries the units and pnl 0, and the row's
   * `pos` cell moves by the same units as the position.
   */
  lemma OpenSpec(b: Book, cell: Cell, o: Order, date: int, price: real, feeRate: real, slippage: real)
    requires Fillable(price, slippage) && IsOpen(o)
    ensures var r := Opened(b, cell, o, date, price, feeRate, slippage);
      var invest := b.balance - b.balance * feeRate;
      var fill := if o.LongOrder? then BuyFill(price, slippage) else SellFill(price, slippage);
      var units := if o.LongOrder? then r.0.pos - b.pos else b.pos - r.0.pos;
      && units * fill == invest
      && r.0.total == invest
      && r.0.balance == (if o.LongOrder? then 0.0 else b.balance + invest)
      && r.0.entryPrice == fill
      && r.0.records == b.records + [TradeRecord(date, o, fill, units, 0.0)]
      && r.1 == Cell(cell.pos + (r.0.pos - b.pos), r.0.balance, r.0.total, fill)
  {
  }

  /**
   * A close on a flat book changes nothing. Otherwise the position and entry
   * price drop to 0, the total is the cash, exactly one record is appended
   * with the signed position and its pnl, and the cash changes by the
   * position's value at the fill less the fee: a long receives
   * `pos * sell * (1 - fee)`, a short pays `|pos| * buy * (1 + fee)`.
   */
  lemma CloseSpec(b: Book, cell: Cell, o: Order, date: int, price: real, feeRate: real, slippage: real)
    ensures var r := ClosedAt(b, cell, o, date, price, feeRate, slippage);
      && (b.pos == 0.0 ==> r == (b, cell))
      && (b.pos != 0.0 ==>
            var fill := if b.pos > 0.0 then SellFill(price, slippage) else BuyFill(price, slippage);
            && r.0.pos == 0.0 && r.0.entryPrice == 0.0 && r.0.total == r.0.balance
            && r.1 == Cell(0.0, r.0.balance, r.0.balance, 0.0)
            && r.0.records == b.records + [TradeRecord(date, o, fill, b.pos, Pnl(fill, b.entryPrice, b.pos))])
      && (b.pos > 0.0 ==> r.0.balance == b.balance + b.pos * SellFill(price, slippage) * (1.0 - feeRate))
      && (b.pos < 0.0 ==> r.0.balance == b.balance - (-b.pos) * BuyFill(price, slippage) * (1.0 + feeRate))
  {
  }

  /** A close gains exactly when a long is sold above its entry or a short bought back below it. */
  lemma ClosePnlSign(fill: real, entry: real, pos: real)
    ensures pos > 0.0 ==> (Pnl(fill, entry, pos) > 0.0 <==> fill > entry)
    ensures pos < 0.0 ==> (Pnl(fill, entry, pos) > 0.0 <==> fill < entry)
    ensures pos == 0.0 ==> Pnl(fill, entry, pos) == 0.0
  {
    MulSigns(fill - entry, pos);
  }

  /** The sign of a product of reals from the signs of its factors. */
  lemma MulSigns(a: real, b: real)
    ensures a > 0.0 && b > 0.0 ==> a * b > 0.0
    ensures a < 0.0 && b < 0.0 ==> a * b > 0.0
    ensures a <= 0.0 && b >= 0.0 ==> a * b <= 0.0
    ensures a >= 0.0 && b <= 0.0 ==> a * b <= 0.0
    ensures b == 0.0 ==> a * b == 0.0
  {
    if a < 0.0 && b < 0.0 {
      assert a * b == (-a) * (-b);
    } else if a <= 0.0 && b >= 0.0 {
      assert a * b == -((-a) * b);
    } else if a >= 0.0 && b <= 0.0 {
      assert a * b == -(a * (-b));
    }
  }

  /** Whether `trade` acts on a signal: an open always does, a close only when a position is held. */
  predicate Executes(b: Book, o: Order)
  {
    IsOpen(o) || (IsClose(o) && b.pos != 0.0)
  }

  /**
   * Each signal appends exactly one record when it executes and changes
   * nothing otherwise; the records already there stay as they were.
   */
  lemma AppliedRecords(b: Book, cell: Cell, o: Order, date: int, price: real, feeRate: real, slippage: real)
    requires Fillable(price, slippage)
    ensures var r := Applied(b, cell, o, date, price, feeRate, slippage);
      && (!Executes(b, o) ==> r == (b, cell))
      && (Executes(b, o) ==>
            && |r.0.records| == |b.records| + 1 && r.0.records[..|b.records|] == b.records
            && r.0.records[|b.records|].date == date && r.0.records[|b.records|].signal == o
            && (IsOpen(o) ==> r.0.records[|b.records|].pnl == 0.0))
  {
    if IsOpen(o) {
      OpenSpec(b, cell, o, date, price, feeRate, slippage);
    } else if IsClose(o) {
      CloseSpec(b, cell, o, date, price, feeRate, slippage);
    }
  }

  /**
   * `trade` keeps the earlier records, appends at most one record per signal,
   * each dated with the row and carrying its signal, which is an open or a
   * close, and every open record has pnl 0.
   */
  lemma {:induction false} TradedRecords(b: Book, cell: Cell, orders: seq<Order>, date: int, price: real, feeRate: real, slippage: real)
    requires Fillable(price, slippage)
    ensures |b.records| <= |Traded(b, cell, orders, date, price, feeRate, slippage).0.records| <= |b.records| + |orders|
    ensures Traded(b, cell, orders, date, price, feeRate, slippage).0.records[..|b.records|] == b.records
    ensures forall k :: |b.records| <= k < |Traded(b, cell, orders, date, price, feeRate, slippage).0.records| ==>
      var e := Traded(b, cell, orders, date, price, feeRate, slippage).0.records[k];
      && e.date == date && e.signal in orders
      && (IsOpen(e.signal) || IsClose(e.signal))
      && (IsOpen(e.signal) ==> e.pnl == 0.0)
    decreases |orders|
  {
    if orders != [] {
      var init := orders[..|orders| - 1];
      var last := orders[|orders| - 1];
      TradedRecords(b, cell, init, date, price, feeRate, slippage);
      var mid := Traded(b, cell, init, date, price, feeRate, slippage);
      AppliedRecords(mid.0, mid.1, last, date, price, feeRate, slippage);
      var n := Traded(b, cell, orders, date, price, feeRate, slippage).0;
      assert n == Applied(mid.0, mid.1, last, date, price, feeRate, slippage).0;
      forall k | |b.records| <= k < |n.records|
        ensures n.records[k].date == date && n.records[k].signal in orders
        ensures IsOpen(n.records[k].signal) || IsClose(n.records[k].signal)
        ensures IsOpen(n.records[k].signal) ==> n.records[k].pnl == 0.0
      {
        if k < |mid.0.records| {
          assert n.records[k] == mid.0.records[k];
          assert mid.0.records[k].signal in init;
        } else {
          assert Executes(mid.0, last);
        }
      }
      assert n.records[..|b.records|] == mid.0.records[..|mid.0.records|][..|b.records|];
    }
  }

  /** `trade` applies the signals in list order: trading a list and then another is trading the two joined. */
  lemma {:induction false} TradedInOrder(b: Book, cell: Cell, xs: seq<Order>, ys: seq<Order>, date: int, price: real,
                                         feeRate: real, slippage: real)
    requires Fillable(price, slippage)
    ensures var mid := Traded(b, cell, xs, date, price, feeRate, slippage);
      Traded(mid.0, mid.1, ys, date, price, feeRate, slippage) == Traded(b, cell, xs + ys, date, price, feeRate, slippage)
    decreases |ys|
  {
    if ys == [] {
      assert xs + ys == xs;
    } else {
      TradedInOrder(b, cell, xs, ys[..|ys| - 1], date, price, feeRate, slippage);
      assert (xs + ys)[..|xs + ys| - 1] == xs + ys[..|ys| - 1];
    }
  }

  // ---------------------------------------------------------------------------
  // Round trips

  /**
   * From a flat book with a positive balance and a fee below 100%, opening a
   * long at one close and closing it at another books the sale fill less the
   * entry times the units, and ends with the balance less the open fee, plus
   * that pnl, less the close fee.
   */
  lemma LongRoundTrip(b: Book, cell: Cell, d1: int, p1: real, d2: int, p2: real, feeRate: real, slippage: real)
    requires Fillable(p1, slippage) && b.pos == 0.0 && b.balance > 0.0 && 0.0 <= feeRate < 1.0
    requires BuyFill(p1, slippage) > 0.0
    ensures var a := Opened(b, cell, LongOrder, d1, p1, feeRate, slippage).0;
      var c := ClosedAt(a, Opened(b, cell, LongOrder, d1, p1, feeRate, slippage).1, CloseOrder, d2, p2, feeRate, slippage).0;
      && a.pos > 0.0 && |c.records| == |b.records| + 2 && c.pos == 0.0
      && c.records[|c.records| - 1].pnl == (SellFill(p2, slippage) - a.entryPrice) * a.pos
      && c.balance == b.balance - b.balance * feeRate + c.records[|c.records| - 1].pnl - a.pos * SellFill(p2, slippage) * feeRate
  {
    OpenSpec(b, cell, LongOrder, d1, p1, feeRate, slippage);
    var a := Opened(b, cell, LongOrder, d1, p1, feeRate, slippage);
    FeeLeavesSome(b.balance, feeRate);
    PositiveFactor(a.0.pos, a.0.entryPrice, b.balance - b.balance * feeRate);
    CloseSpec(a.0, a.1, CloseOrder, d2, p2, feeRate, slippage);
    LongLegs(b.balance, feeRate, a.0.pos, a.0.entryPrice, SellFill(p2, slippage));
  }

  /**
   * The same for a short: it books the entry less the buy-back fill times the
   * units, and ends with the balance plus that pnl less the close fee only:
   * its open fee never leaves the cash.
   */
  lemma ShortRoundTrip(b: Book, cell: Cell, d1: int, p1: real, d2: int, p2: real, feeRate: real, slippage: real)
    requires Fillable(p1, slippage) && b.pos == 0.0 && b.balance > 0.0 && 0.0 <= feeRate < 1.0
    requires SellFill(p1, slippage) > 0.0
    ensures var a := Opened(b, cell, ShortOrder, d1, p1, feeRate, slippage).0;
      var c := ClosedAt(a, Opened(b, cell, ShortOrder, d1, p1, feeRate, slippage).1, CloseOrder, d2, p2, feeRate, slippage).0;
      && -a.pos > 0.0 && |c.records| == |b.records| + 2 && c.pos == 0.0
      && c.records[|c.records| - 1].pnl == (a.entryPrice - BuyFill(p2, slippage)) * -a.pos
      && c.balance == b.balance + c.records[|c.records| - 1].pnl - -a.pos * BuyFill(p2, slippage) * feeRate
  {
    OpenSpec(b, cell, ShortOrder, d1, p1, feeRate, slippage);
    var a := Opened(b, cell, ShortOrder, d1, p1, feeRate, slippage);
    FeeLeavesSome(b.balance, feeRate);
    PositiveFactor(-a.0.pos, a.0.entryPrice, b.balance - b.balance * feeRate);
    CloseSpec(a.0, a.1, CloseOrder, d2, p2, feeRate, slippage);
    ShortLegs(b.balance, feeRate, -a.0.pos, a.0.entryPrice, BuyFill(p2, slippage));
  }

  /** A fee rate below 100% leaves part of a positive balance to invest. */
  lemma FeeLeavesSome(balance: real, feeRate: real)
    requires balance > 0.0 && 0.0 <= feeRate < 1.0
    ensures balance - balance * feeRate > 0.0
  {
    assert balance * feeRate < balance * 1.0;
  }

  /** Units bought for a positive amount at a positive price are positive. */
  lemma PositiveFactor(units: real, price: real, amount: real)
    requires units * price == amount && price > 0.0 && amount > 0.0
    ensures units > 0.0
  {
  }

  /** A long bought with `balance - fee` and sold at `x`: the cash it ends with, in terms of its pnl and close fee. */
  lemma LongLegs(balance: real, feeRate: real, units: real, entry: real, x: real)
    requires units * entry == balance - balance * feeRate
    ensures 0.0 + units * x * (1.0 - feeRate) == balance - balance * feeRate + (x - entry) * units - units * x * feeRate
  {
  }

  /** A short sold for `balance - fee` and bought back at `x`: the cash it ends with, in terms of its pnl and close fee. */
  lemma ShortLegs(balance: real, feeRate: real, units: real, entry: real, x: real)
    requires units * entry == balance - balance * feeRate
    ensures balance + (balance - balance * feeRate) - units * x * (1.0 + feeRate) == balance + (x - entry) * -units - units * x * feeRate
  {
  }

  /** Without fees or slippage, opening and closing at the same price books pnl 0 and restores the balance, on either side. */
  lemma ZeroFeeRoundTrip(b: Book, cell: Cell, o: Order, d1: int, d2: int, price: real)
    requires IsOpen(o) && price > 0.0 && b.pos == 0.0 && b.balance > 0.0
    ensures var afterOpen := Opened(b, cell, o, d1, price, 0.0, 0.0);
      var afterClose := ClosedAt(afterOpen.0, afterOpen.1, CloseOrder, d2, price, 0.0, 0.0).0;
      afterClose.balance == b.balance && afterClose.records[|afterClose.records| - 1].pnl == 0.0
  {
    assert BuyFill(price, 0.0) == price && SellFill(price, 0.0) == price;
    if o.LongOrder? {
      LongRoundTrip(b, cell, d1, price, d2, price, 0.0, 0.0);
    } else {
      ShortRoundTrip(b, cell, d1, price, d2, price, 0.0, 0.0);
    }
  }

  // ---------------------------------------------------------------------------
  // The short open's fee

  /**
   * From a flat book, the cash plus the position valued at its fill is the
   * reported total after a long open, but exceeds it by the whole open fee
   * after a short open: the short's total subtracts a fee its cash never
   * paid.
   */
  lemma ShortOpenMarkGap(b: Book, cell: Cell, o: Order, date: int, price: real, feeRate: real, slippage: real)
    requires Fillable(price, slippage) && IsOpen(o) && b.pos == 0.0
    ensures var r := Opened(b, cell, o, date, price, feeRate, slippage).0;
      r.balance + r.pos * r.entryPrice == r.total + (if o.ShortOrder? then b.balance * feeRate else 0.0)
  {
    OpenSpec(b, cell, o, date, price, feeRate, slippage);
  }

  /** 1000 with a 10% fee, no slippage, at 100 and back at 100: a long ends at 810, a short at 910. */
  lemma ShortOpenFeeExample(cell: Cell)
    ensures var b := Book(1000.0, 1000.0, 0.0, 0.0, []);
      var long := Opened(b, cell, LongOrder, 0, 100.0, 0.1, 0.0);
      var short := Opened(b, cell, ShortOrder, 0, 100.0, 0.1, 0.0);
      && ClosedAt(long.0, long.1, CloseOrder, 1, 100.0, 0.1, 0.0).0.balance == 810.0
      && ClosedAt(short.0, short.1, CloseOrder, 1, 100.0, 0.1, 0.0).0.balance == 910.0
  {
    var b := Book(1000.0, 1000.0, 0.0, 0.0, []);
    LongRoundTrip(b, cell, 0, 100.0, 1, 100.0, 0.1, 0.0);
    ShortRoundTrip(b, cell, 0, 100.0, 1, 100.0, 0.1, 0.0);
  }

  /** The open with the short's fee taken out of its cash, as the total it reports assumes. */
  function OpenedIntended(b: Book, cell: Cell, o: Order, date: int, price: real, feeRate: real, slippage: real): (Book, Cell)
    requires Fillable(price, slippage)
  {
    var r := Opened(b, cell, o, date, price, feeRate, slippage);
    if o.ShortOrder? then
      var fee := b.balance * feeRate;
      (r.0.(balance := r.0.balance - fee), r.1.(balance := r.1.balance - fee))
    else r
  }

  /**
   * With the fee taken out of its cash, a short from a flat book reports a
   * total equal to its cash plus the position at its fill, and a round trip
   * ends at the balance less the open fee, plus the pnl, less the close fee:
   * the same account as `LongRoundTrip` gives a long.
   */
  lemma IntendedShortRoundTrip(b: Book, cell: Cell, d1: int, p1: real, d2: int, p2: real, feeRate: real, slippage: real)
    requires Fillable(p1, slippage) && b.pos == 0.0 && b.balance > 0.0 && 0.0 <= feeRate < 1.0
    requires SellFill(p1, slippage) > 0.0
    ensures var a := OpenedIntended(b, cell, ShortOrder, d1, p1, feeRate, slippage);
      var c := ClosedAt(a.0, a.1, CloseOrder, d2, p2, feeRate, slippage).0;
      && a.0.balance + a.0.pos * a.0.entryPrice == a.0.total
      && c.balance == b.balance - b.balance * feeRate + c.records[|c.records| - 1].pnl - -a.0.pos * BuyFill(p2, slippage) * feeRate
  {
    ShortOpenMarkGap(b, cell, ShortOrder, d1, p1, feeRate, slippage);
    ShortRoundTrip(b, cell, d1, p1, d2, p2, feeRate, slippage);
    var asWritten := Opened(b, cell, ShortOrder, d1, p1, feeRate, slippage);
    var fee := b.balance * feeRate;
    IntendedShortOpen(b, cell, d1, p1, feeRate, slippage);
    CloseWithLessCash(asWritten.0, asWritten.1, asWritten.1.(balance := asWritten.1.balance - fee), fee, d2, p2, feeRate, slippage);
  }

  /** The intended short open is the open as written with the fee taken out of the cash. */
  lemma IntendedShortOpen(b: Book, cell: Cell, date: int, price: real, feeRate: real, slippage: real)
    requires Fillable(price, slippage)
    ensures var w := Opened(b, cell, ShortOrder, date, price, feeRate, slippage);
      OpenedIntended(b, cell, ShortOrder, date, price, feeRate, slippage) ==
        (w.0.(balance := w.0.balance - b.balance * feeRate), w.1.(balance := w.1.balance - b.balance * feeRate))
  {
    var w := Opened(b, cell, ShortOrder, date, price, feeRate, slippage);
    var fee := b.balance * feeRate;
    assert OpenedIntended(b, cell, ShortOrder, date, price, feeRate, slippage).0 == w.0.(balance := w.0.balance - fee);
    assert OpenedIntended(b, cell, ShortOrder, date, price, feeRate, slippage).1 == w.1.(balance := w.1.balance - fee);
  }

  /** Closing a short with less cash books the same record and ends with that much less cash. */
  lemma CloseWithLessCash(b: Book, cell: Cell, cell': Cell, c: real, date: int, price: real, feeRate: real, slippage: real)
    requires b.pos < 0.0
    ensures var r := ClosedAt(b, cell, CloseOrder, date, price, feeRate, slippage).0;
      var r' := ClosedAt(b.(balance := b.balance - c), cell', CloseOrder, date, price, feeRate, slippage).0;
      r'.balance == r.balance - c && r'.records == r.records
  {
  }

  // ---------------------------------------------------------------------------
  // The replay

  /** Visiting row `i` writes only row `i`'s cells. */
  lemma VisitedRow(s: Sheet, bars: seq<Bar>, check: Checker, i: nat, feeRate: real, slippage: real)
    requires i < |bars| == |s.cells| && AllFillable(bars, slippage)
    ensures forall j :: 0 <= j < |bars| && j != i ==> Visited(s, bars, check, i, feeRate, slippage).cells[j] == s.cells[j]
  {
  }

  /** Rows not yet reached are blank, and a reached row keeps the cells its own visit wrote. */
  lemma ReplayedRows(bars: seq<Bar>, check: Checker, n: nat, init: real, feeRate: real, slippage: real)
    requires n <= |bars| && AllFillable(bars, slippage)
    ensures forall j :: n <= j < |bars| ==> Replayed(bars, check, n, init, feeRate, slippage).cells[j] == Blank
    ensures forall j :: 0 <= j < n ==>
      Replayed(bars, check, n, init, feeRate, slippage).cells[j] == Replayed(bars, check, j + 1, init, feeRate, slippage).cells[j]
  {
    forall j | n <= j < |bars|
      ensures Replayed(bars, check, n, init, feeRate, slippage).cells[j] == Blank
    {
      RowBlank(bars, check, n, j, init, feeRate, slippage);
    }
    forall j | 0 <= j < n
      ensures Replayed(bars, check, n, init, feeRate, slippage).cells[j] == Replayed(bars, check, j + 1, init, feeRate, slippage).cells[j]
    {
      RowKept(bars, check, n, j, init, feeRate, slippage);
    }
  }

  /**
   * A row whose signal list is empty ends the replay showing the position,
   * the cash, the cash plus the position at that row's close, and the entry
   * price, as they stood when the row was reached.
   */
  lemma QuietRowMarked(bars: seq<Bar>, check: Checker, j: nat, init: real, feeRate: real, slippage: real)
    requires j < |bars| && AllFillable(bars, slippage)
    requires check(j, bars, Replayed(bars, check, j, init, feeRate, slippage).book.pos) == []
    ensures var b := Replayed(bars, check, j, init, feeRate, slippage).book;
      Replayed(bars, check, |bars|, init, feeRate, slippage).cells[j] == Marked(b, Blank, bars[j].close)
  {
    RowBlank(bars, check, j, j, init, feeRate, slippage);
    RowKept(bars, check, |bars|, j, init, feeRate, slippage);
    var before := Replayed(bars, check, j, init, feeRate, slippage);
    VisitedQuiet(before, bars, check, j, feeRate, slippage);
    assert Replayed(bars, check, j + 1, init, feeRate, slippage) == Visited(before, bars, check, j, feeRate, slippage);
    var row := Replayed(bars, check, |bars|, init, feeRate, slippage).cells[j];
    assert row == Visited(before, bars, check, j, feeRate, slippage).cells[j];
    assert row == Marked(before.book, Blank, bars[j].close);
  }

  /** Marking a blank row shows the book's own position, cash, marked total and entry price. */
  lemma MarkedBlank(b: Book, close: real)
    ensures Marked(b, Blank, close) == Cell(b.pos, b.balance, b.balance + b.pos * close, b.entryPrice)
  {
  }

  /** Visiting a row without signal marks its cells and trades nothing. */
  lemma VisitedQuiet(s: Sheet, bars: seq<Bar>, check: Checker, i: nat, feeRate: real, slippage: real)
    requires i < |bars| == |s.cells| && AllFillable(bars, slippage) && check(i, bars, s.book.pos) == []
    ensures Visited(s, bars, check, i, feeRate, slippage).cells[i] == Marked(s.book, s.cells[i], bars[i].close)
  {
  }

  /** A row the replay has not reached yet is blank. */
  lemma {:induction false} RowBlank(bars: seq<Bar>, check: Checker, n: nat, j: nat, init: real, feeRate: real, slippage: real)
    requires n <= j < |bars| && AllFillable(bars, slippage)
    ensures Replayed(bars, check, n, init, feeRate, slippage).cells[j] == Blank
  {
    if n > 0 {
      RowBlank(bars, check, n - 1, j, init, feeRate, slippage);
      VisitedRow(Replayed(bars, check, n - 1, init, feeRate, slippage), bars, check, n - 1, feeRate, slippage);
    }
  }

  /** A row the replay has passed keeps the cells its own visit wrote. */
  lemma {:induction false} RowKept(bars: seq<Bar>, check: Checker, n: nat, j: nat, init: real, feeRate: real, slippage: real)
    requires j < n <= |bars| && AllFillable(bars, slippage)
    ensures Replayed(bars, check, n, init, feeRate, slippage).cells[j] == Replayed(bars, check, j + 1, init, feeRate, slippage).cells[j]
  {
    if n > j + 1 {
      RowKept(bars, check, n - 1, j, init, feeRate, slippage);
      VisitedRow(Replayed(bars, check, n - 1, init, feeRate, slippage), bars, check, n - 1, feeRate, slippage);
    }
  }

  /**
   * Every record of the replay is dated with a bar's time, carries an open
   * or a close signal, and every open record has pnl 0.
   */
  lemma {:induction false} ReplayedRecords(bars: seq<Bar>, check: Checker, n: nat, init: real, feeRate: real, slippage: real)
    requires n <= |bars| && AllFillable(bars, slippage)
    ensures forall k :: 0 <= k < |Replayed(bars, check, n, init, feeRate, slippage).book.records| ==>
      var e := Replayed(bars, check, n, init, feeRate, slippage).book.records[k];
      && (exists i :: 0 <= i < n && e.date == bars[i].time)
      && (IsOpen(e.signal) || IsClose(e.signal))
      && (IsOpen(e.signal) ==> e.pnl == 0.0)
  {
    if n > 0 {
      ReplayedRecords(bars, check, n - 1, init, feeRate, slippage);
      var s := Replayed(bars, check, n - 1, init, feeRate, slippage);
      var orders := check(n - 1, bars, s.book.pos);
      var r := Replayed(bars, check, n, init, feeRate, slippage).book.records;
      if orders != [] {
        var bar := bars[n - 1];
        TradedRecords(s.book, s.cells[n - 1], orders, bar.time, bar.close, feeRate, slippage);
        assert r == Traded(s.book, s.cells[n - 1], orders, bar.time, bar.close, feeRate, slippage).0.records;
        forall k | 0 <= k < |r|
          ensures exists i :: 0 <= i < n && r[k].date == bars[i].time
        {
          if k < |s.book.records| {
            assert r[k] == r[..|s.book.records|][k] == s.book.records[k];
            var i :| 0 <= i < n - 1 && s.book.records[k].date == bars[i].time;
            assert r[k].date == bars[i].time;
          } else {
            assert r[k].date == bars[n - 1].time;
          }
        }
      }
    }
  }
}
