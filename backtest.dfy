/**
 * The entry points of backtest.py around the replay engine: `backtest`
 * dispatches on its `symbol` argument, `_multi_symbol_engine` runs the
 * engine once per symbol, and `_convert_result_time` shifts a ledger's
 * dates by a number of hours (the exchange reports UTC).
 *
 * Dates are minutes, so a shift of `h` hours adds `60 * h`. The klines of
 * each symbol are given as a function (fetching them is not modelled).
 */
module Backtest {
  import opened Common
  import opened Bars
  import opened Models
  import opened Engine

  /** One record with both dates moved by `hours`; adding an hour offset to a missing date raises TypeError. */
  function ShiftRecord(e: Record, hours: int): Result<Record, Error>
  {
    if e.openDate.None? || e.closeDate.None? then Err(TypeError)
    else Ok(e.(openDate := Some(e.openDate.value + 60 * hours), closeDate := Some(e.closeDate.value + 60 * hours)))
  }

  /** Every record shifted, in order; the first that cannot be shifted raises. */
  function ShiftAll(result: seq<Record>, hours: int): Result<seq<Record>, Error>
  {
    if result == [] then Ok([])
    else
      match ShiftAll(result[..|result| - 1], hours)
      case Err(e) => Err(e)
      case Ok(init) =>
        match ShiftRecord(result[|result| - 1], hours)
        case Err(e) => Err(e)
        case Ok(last) => Ok(init + [last])
  }

  /** `_convert_result_time(result, hours)`: `None` for an empty ledger, else the shifted copy. */
  function Converted(result: seq<Record>, hours: int): Result<Option<seq<Record>>, Error>
  {
    if result == [] then Ok(None)
    else
      match ShiftAll(result, hours)
      case Err(e) => Err(e)
      case Ok(s) => Ok(Some(s))
  }

  method ConvertResultTime(result: seq<Record>, hours: int) returns (r: Result<Option<seq<Record>>, Error>)
    ensures r == Converted(result, hours)
  {
    if result == [] {
      return Ok(None);
    }
    var updated: seq<Record> := [];
    var i := 0;
    while i < |result|
      invariant 0 <= i <= |result|
      invariant ShiftAll(result[..i], hours) == Ok(updated)
    {
      assert result[..i + 1][..i] == result[..i];
      var entry := result[i];
      if entry.openDate.None? {
        ShiftAllErrSticks(result, i + 1, hours);
        return Err(TypeError);
      }
      entry := entry.(openDate := Some(entry.openDate.value + 60 * hours));
      if entry.closeDate.None? {
        ShiftAllErrSticks(result, i + 1, hours);
        return Err(TypeError);
      }
      entry := entry.(closeDate := Some(entry.closeDate.value + 60 * hours));
      updated := updated + [entry];
      i := i + 1;
    }
    assert result[..i] == result;
    r := Ok(Some(updated));
  }

  lemma {:induction false} ShiftAllErrSticks(result: seq<Record>, i: nat, hours: int)
    requires i <= |result| && ShiftAll(result[..i], hours).Err?
    ensures ShiftAll(result, hours) == ShiftAll(result[..i], hours)
    decreases |result| - i
  {
    if i < |result| {
      assert result[..i + 1][..i] == result[..i];
      ShiftAllErrSticks(result, i + 1, hours);
    } else {
      assert result[..i] == result;
    }
  }

  /**
   * A non-empty ledger whose records all carry both dates converts to a
   * ledger of the same length in which each record has both dates moved by
   * `60 * hours` minutes and every other field as it was; a record without
   * a date makes the conversion raise TypeError, and an empty ledger
   * converts to `None`.
   */
  lemma {:induction false} ShiftAllSpec(result: seq<Record>, hours: int)
    ensures ShiftAll(result, hours).Ok? <==> forall k :: 0 <= k < |result| ==> ShiftRecord(result[k], hours).Ok?
    ensures ShiftAll(result, hours).Err? ==> ShiftAll(result, hours).error == TypeError
    ensures ShiftAll(result, hours).Ok? ==>
      && |ShiftAll(result, hours).value| == |result|
      && forall k :: 0 <= k < |result| ==> Ok(ShiftAll(result, hours).value[k]) == ShiftRecord(result[k], hours)
    decreases |result|
  {
    if result != [] {
      var init := result[..|result| - 1];
      ShiftAllSpec(init, hours);
      assert forall k :: 0 <= k < |init| ==> init[k] == result[k];
    }
  }

  lemma ConvertedSpec(result: seq<Record>, hours: int)
    ensures result == [] ==> Converted(result, hours) == Ok(None)
    ensures result != [] && Converted(result, hours).Ok? ==>
      var out := Converted(result, hours).value;
      && out.Some? && |out.value| == |result|
      && forall k :: 0 <= k < |result| ==>
           && result[k].openDate.Some? && result[k].closeDate.Some?
           && out.value[k].openDate == Some(result[k].openDate.value + 60 * hours)
           && out.value[k].closeDate == Some(result[k].closeDate.value + 60 * hours)
           && out.value[k].(openDate := result[k].openDate, closeDate := result[k].closeDate) == result[k]
    ensures Converted(result, hours).Err? <==> exists k :: 0 <= k < |result| && (result[k].openDate.None? || result[k].closeDate.None?)
  {
    ShiftAllSpec(result, hours);
    if result != [] && Converted(result, hours).Ok? {
      var out := Converted(result, hours).value.value;
      forall k | 0 <= k < |result|
        ensures out[k].(openDate := result[k].openDate, closeDate := result[k].closeDate) == result[k]
      {
        assert Ok(out[k]) == ShiftRecord(result[k], hours);
      }
    }
    if Converted(result, hours).Err? {
      var k :| 0 <= k < |result| && ShiftRecord(result[k], hours).Err?;
    }
  }

  /** Shifting by `hours` and then by `-hours` gives the ledger back. */
  lemma {:induction false} ShiftRoundTrip(result: seq<Record>, hours: int)
    requires ShiftAll(result, hours).Ok?
    ensures ShiftAll(ShiftAll(result, hours).value, -hours) == Ok(result)
    decreases |result|
  {
    if result != [] {
      var init := result[..|result| - 1];
      var shifted := ShiftAll(result, hours).value;
      ShiftRoundTrip(init, hours);
      var initShifted := ShiftAll(init, hours).value;
      assert shifted == initShifted + [ShiftRecord(result[|result| - 1], hours).value];
      assert shifted[..|shifted| - 1] == initShifted;
      assert result == init + [result[|result| - 1]];
    }
  }

  /** Every engine record carries both dates, so the engine's own ledger always converts. */
  lemma EngineLedgerConverts(bars: seq<Bar>, symbol: string, strategy: Strategy, balance: real, rate: real, hours: int)
    requires Ledger(bars, symbol, strategy, balance, rate).Ok?
    ensures Converted(Ledger(bars, symbol, strategy, balance, rate).value, hours).Ok?
  {
    LedgerShape(bars, symbol, strategy, balance, rate);
    ConvertedSpec(Ledger(bars, symbol, strategy, balance, rate).value, hours);
  }

  // ---------------------------------------------------------------------------
  // Several symbols, and the dispatch

  /** The engine's ledger for one symbol, converted: one entry of `_multi_symbol_engine`'s dictionary. */
  function SymbolResult(symbol: string, klines: string -> seq<Bar>, strategy: Strategy, balance: real, rate: real,
                        hours: int): Result<Option<seq<Record>>, Error>
  {
    match Ledger(klines(symbol), symbol, strategy, balance, rate)
    case Err(e) => Err(e)
    case Ok(l) => Converted(l, hours)
  }

  method MultiSymbolEngine(symbols: seq<string>, klines: string -> seq<Bar>, strategy: Strategy,
                           totalBalance: real, feeRatio: real, slippageRatio: real, hours: int)
    returns (r: Result<map<string, Option<seq<Record>>>, Error>)
    ensures r.Ok? <==> forall k :: 0 <= k < |symbols| ==>
      SymbolResult(symbols[k], klines, strategy, totalBalance, feeRatio + slippageRatio, hours).Ok?
    ensures r.Ok? ==> r.value.Keys == set k | 0 <= k < |symbols| :: symbols[k]
    ensures r.Ok? ==> forall s :: s in r.value ==>
      r.value[s] == SymbolResult(s, klines, strategy, totalBalance, feeRatio + slippageRatio, hours).value
  {
    var rate := feeRatio + slippageRatio;
    var histories: map<string, Option<seq<Record>>> := map[];
    var i := 0;
    while i < |symbols|
      invariant 0 <= i <= |symbols|
      invariant histories.Keys == set k | 0 <= k < i :: symbols[k]
      invariant forall k :: 0 <= k < i ==> SymbolResult(symbols[k], klines, strategy, totalBalance, rate, hours).Ok?
      invariant forall s :: s in histories ==> histories[s] == SymbolResult(s, klines, strategy, totalBalance, rate, hours).value
    {
      var symbol := symbols[i];
      var ledger := SingleSymbolEngine(symbol, klines(symbol), strategy, totalBalance, feeRatio, slippageRatio);
      if ledger.Err? {
        return Err(ledger.error);
      }
      var converted := ConvertResultTime(ledger.value, hours);
      if converted.Err? {
        return Err(converted.error);
      }
      histories := histories[symbol := converted.value];
      i := i + 1;
    }
    r := Ok(histories);
  }

  /** What `backtest` returns: one converted ledger, or one per symbol. */
  datatype Outcome = Single(ledger: Option<seq<Record>>) | Several(ledgers: map<string, Option<seq<Record>>>)

  /**
   * `backtest(symbol, start, end, strategy)`: a single symbol gets its
   * converted ledger, a list gets the per-symbol dictionary, and any other
   * argument leaves `result` unbound (UnboundLocalError).
   */
  method RunBacktest(arg: SymbolArg, klines: string -> seq<Bar>, strategy: Strategy,
                     totalBalance: real, feeRatio: real, slippageRatio: real, hours: int)
    returns (r: Result<Outcome, Error>)
    ensures arg.Neither? ==> r == Err(UnboundLocalError)
    ensures arg.One? ==>
      var want := SymbolResult(arg.symbol, klines, strategy, totalBalance, feeRatio + slippageRatio, hours);
      && (r.Ok? <==> want.Ok?)
      && (r.Ok? ==> r.value == Single(want.value))
    ensures arg.Many? ==>
      && (r.Ok? <==> forall k :: 0 <= k < |arg.symbols| ==>
            SymbolResult(arg.symbols[k], klines, strategy, totalBalance, feeRatio + slippageRatio, hours).Ok?)
      && (r.Ok? ==> r.value.Several? && r.value.ledgers.Keys == set k | 0 <= k < |arg.symbols| :: arg.symbols[k])
      && (r.Ok? ==> forall s :: s in r.value.ledgers ==>
            r.value.ledgers[s] == SymbolResult(s, klines, strategy, totalBalance, feeRatio + slippageRatio, hours).value)
  {
    match arg
    case One(symbol) =>
      var ledger := SingleSymbolEngine(symbol, klines(symbol), strategy, totalBalance, feeRatio, slippageRatio);
      if ledger.Err? {
        return Err(ledger.error);
      }
      var converted := ConvertResultTime(ledger.value, hours);
      if converted.Err? {
        return Err(converted.error);
      }
      r := Ok(Single(converted.value));
    case Many(symbols) =>
      var histories := MultiSymbolEngine(symbols, klines, strategy, totalBalance, feeRatio, slippageRatio, hours);
      if histories.Err? {
        return Err(histories.error);
      }
      r := Ok(Several(histories.value));
    case Neither =>
      r := Err(UnboundLocalError);
  }
}
