/**
 * The exchange side of the bar cache (data.py): `_fetch_klines` pages
 * through the exchange from `start` until `end` and keeps the rows in
 * [start, end); `_get_single_symbol_klines` retries each missing period up
 * to `retry_count` times; `get_klines` dispatches on a single symbol or a
 * list of them. The exchange itself is a function parameter: `page(symbol,
 * since)` is what `fetch_ohlcv` returns for one request. In this module a
 * bar's `time` is the exchange's millisecond timestamp.
 */
module Exchange {
  import opened Common
  import opened Bars
  import opened KlineArgs

  /**
   * What the pagination relies on from `fetch_ohlcv`: a non-empty page ends
   * no earlier than the moment it was asked from.
   */
  ghost predicate PagesAdvance(page: (string, int) -> seq<Bar>)
  {
    forall symbol, since :: |page(symbol, since)| > 0 ==> page(symbol, since)[|page(symbol, since)| - 1].time >= since
  }

  /**
   * The rows the paging loop collects from `since`: a request at `since`,
   * then the next one a timeframe (`step` ms) after the last row returned;
   * the loop stops at `end`, at an empty page, or after a page that reaches
   * `end`.
   */
  function Paginate(page: (string, int) -> seq<Bar>, symbol: string, step: int, since: int, end: int): seq<Bar>
    requires step > 0 && PagesAdvance(page)
    decreases end - since
  {
    if since >= end then []
    else
      var p := page(symbol, since);
      if p == [] then []
      else if p[|p| - 1].time >= end then p
      else p + Paginate(page, symbol, step, p[|p| - 1].time + step, end)
  }

  /** `df[(df.index >= start) & (df.index < end)]`: the rows in [start, end), in order. */
  function InWindow(rows: seq<Bar>, start: int, end: int): seq<Bar>
  {
    if rows == [] then []
    else
      var last := rows[|rows| - 1];
      InWindow(rows[..|rows| - 1], start, end) + (if start <= last.time < end then [last] else [])
  }

  /** The window keeps exactly the rows in [start, end). */
  lemma {:induction false} InWindowMembers(rows: seq<Bar>, start: int, end: int)
    ensures forall b :: b in InWindow(rows, start, end) <==> b in rows && start <= b.time < end
  {
    if rows != [] {
      var init := rows[..|rows| - 1];
      InWindowMembers(init, start, end);
      assert rows == init + [rows[|rows| - 1]];
    }
  }

  /** Rows already inside the window are kept whole and in order. */
  lemma {:induction false} InWindowAll(rows: seq<Bar>, start: int, end: int)
    requires forall i :: 0 <= i < |rows| ==> start <= rows[i].time < end
    ensures InWindow(rows, start, end) == rows
  {
    if rows != [] {
      InWindowAll(rows[..|rows| - 1], start, end);
    }
  }

  /**
   * `_fetch_klines`: the symbol is checked (and '_' turned into '/'), the
   * exchange is paged from `start` to `end`, and the rows outside [start,
   * end) are dropped. `step` is the timeframe in milliseconds.
   */
  method FetchKlines(symbol: string, start: int, end: int, step: int, page: (string, int) -> seq<Bar>)
    returns (r: Result<seq<Bar>, Error>)
    requires step > 0 && PagesAdvance(page)
    ensures r.Err? <==> CheckSymbol(symbol).Err?
    ensures r.Ok? ==> r.value == InWindow(Paginate(page, CheckSymbol(symbol).value, step, start, end), start, end)
  {
    var checked := CheckSymbol(symbol);
    if checked.Err? {
      return Err(checked.error);
    }
    var sym := checked.value;
    var klines: seq<Bar> := [];
    var since := start;
    while since < end
      invariant klines + Paginate(page, sym, step, since, end) == Paginate(page, sym, step, start, end)
      decreases end - since
    {
      var kline := page(sym, since);
      if |kline| == 0 {
        break;
      }
      ghost var rest := Paginate(page, sym, step, since, end);
      klines := klines + kline;
      var lastTime := kline[|kline| - 1].time;
      since := lastTime + step;
      if lastTime >= end {
        assert rest == kline;
        assert klines + [] == klines;
        assert Paginate(page, sym, step, since, end) == [];
        break;
      }
      assert rest == kline + Paginate(page, sym, step, since, end);
    }
    assert klines + [] == klines;
    r := Ok(InWindow(klines, start, end));
  }

  /** Every fetched row lies in [start, end), and every paged row in it is kept. */
  lemma FetchedInWindow(page: (string, int) -> seq<Bar>, symbol: string, step: int, start: int, end: int)
    requires step > 0 && PagesAdvance(page)
    ensures var paged := Paginate(page, symbol, step, start, end);
      forall b :: b in InWindow(paged, start, end) <==> b in paged && start <= b.time < end
  {
    InWindowMembers(Paginate(page, symbol, step, start, end), start, end);
  }

  /** An empty first page fetches nothing; a first page that reaches `end` is the only request. */
  lemma PaginateStops(page: (string, int) -> seq<Bar>, symbol: string, step: int, start: int, end: int)
    requires step > 0 && PagesAdvance(page) && start < end
    ensures page(symbol, start) == [] ==> Paginate(page, symbol, step, start, end) == []
    ensures var p := page(symbol, start);
      |p| > 0 && p[|p| - 1].time >= end ==> Paginate(page, symbol, step, start, end) == p
  {
  }

  /** Every page request is made at or after `start` and before `end`: no row earlier than `start` is asked for. */
  lemma {:induction false} PaginateFrom(page: (string, int) -> seq<Bar>, symbol: string, step: int, since: int, end: int)
    requires step > 0 && PagesAdvance(page)
    ensures forall b :: b in Paginate(page, symbol, step, since, end) ==>
      exists s :: since <= s < end && b in page(symbol, s)
    decreases end - since
  {
    if since < end {
      var p := page(symbol, since);
      if p != [] && p[|p| - 1].time < end {
        var next := p[|p| - 1].time + step;
        PaginateFrom(page, symbol, step, next, end);
        assert Paginate(page, symbol, step, since, end) == p + Paginate(page, symbol, step, next, end);
        forall b | b in Paginate(page, symbol, step, since, end)
          ensures exists s :: since <= s < end && b in page(symbol, s)
        {
          if b !in p {
            assert b in Paginate(page, symbol, step, next, end);
          }
        }
      }
    }
  }

  // ---------------------------------------------------------------------------
  // Retrying

  /**
   * The attempts made for period `period` from attempt `k` on: the loop
   * stops after the first attempt that succeeds, or once `retryCount`
   * attempts have been made.
   */
  function AttemptsFrom(attempt: ((string, string), nat) -> Result<seq<Bar>, Error>, period: (string, string), k: nat, retryCount: int): (n: nat)
    ensures k <= n && (n <= retryCount || n == k)
    decreases retryCount - k
  {
    if k >= retryCount then k
    else if attempt(period, k).Ok? then k + 1
    else AttemptsFrom(attempt, period, k + 1, retryCount)
  }

  /** What the retry loop saves for one period: the rows of its successful attempt, if any. */
  function SavedFor(attempt: ((string, string), nat) -> Result<seq<Bar>, Error>, period: (string, string), retryCount: int): Option<seq<Bar>>
  {
    var n := AttemptsFrom(attempt, period, 0, retryCount);
    if n > 0 && attempt(period, n - 1).Ok? then Some(attempt(period, n - 1).value) else None
  }

  /**
   * The retry loop of `_get_single_symbol_klines`: every period is tried,
   * whatever happened to the ones before it. `attempt(period, k)` is the
   * outcome of the k-th try (fetch and save) for `period`.
   */
  method RetryPeriods(periods: seq<(string, string)>, retryCount: int, attempt: ((string, string), nat) -> Result<seq<Bar>, Error>)
    returns (saved: seq<Option<seq<Bar>>>, tries: seq<nat>)
    ensures |saved| == |periods| && |tries| == |periods|
    ensures forall i :: 0 <= i < |periods| ==>
      tries[i] == AttemptsFrom(attempt, periods[i], 0, retryCount) && saved[i] == SavedFor(attempt, periods[i], retryCount)
  {
    saved, tries := [], [];
    var i := 0;
    while i < |periods|
      invariant i <= |periods| && |saved| == i && |tries| == i
      invariant forall j :: 0 <= j < i ==>
        tries[j] == AttemptsFrom(attempt, periods[j], 0, retryCount) && saved[j] == SavedFor(attempt, periods[j], retryCount)
    {
      var period := periods[i];
      var attempts: nat := 0;
      var klines: Option<seq<Bar>> := None;
      while attempts < retryCount
        invariant AttemptsFrom(attempt, period, attempts, retryCount) == AttemptsFrom(attempt, period, 0, retryCount)
        invariant klines == None && (attempts > 0 ==> attempt(period, attempts - 1).Err?)
        decreases retryCount - attempts
      {
        var outcome := attempt(period, attempts);
        if outcome.Ok? {
          klines := Some(outcome.value);
          attempts := attempts + 1;
          break;
        }
        attempts := attempts + 1;
      }
      assert attempts == AttemptsFrom(attempt, period, 0, retryCount) && klines == SavedFor(attempt, period, retryCount) by {
        if klines.None? {
          assert attempts >= retryCount;
        }
      }
      saved, tries := saved + [klines], tries + [attempts];
      i := i + 1;
    }
  }

  /**
   * A period is tried at most `retryCount` times and stops at its first
   * success: every try before the last failed, and it is saved exactly when
   * one of its first `retryCount` tries succeeds.
   */
  lemma {:induction false} AttemptsSpec(attempt: ((string, string), nat) -> Result<seq<Bar>, Error>, period: (string, string), k: nat, retryCount: int)
    requires k <= retryCount || k == 0
    ensures var n := AttemptsFrom(attempt, period, k, retryCount);
      (retryCount > 0 ==> n <= retryCount) &&
      (forall j :: k <= j < n - 1 ==> attempt(period, j).Err?) &&
      ((exists j :: k <= j < retryCount && attempt(period, j).Ok?) <==> (n > k && attempt(period, n - 1).Ok?))
    decreases retryCount - k
  {
    if k < retryCount && attempt(period, k).Err? {
      AttemptsSpec(attempt, period, k + 1, retryCount);
      var n := AttemptsFrom(attempt, period, k, retryCount);
      if exists j :: k <= j < retryCount && attempt(period, j).Ok? {
        var j :| k <= j < retryCount && attempt(period, j).Ok?;
        assert j != k;
      }
    }
  }

  // ---------------------------------------------------------------------------
  // Dispatch

  /** The bars of one symbol, or a dictionary from symbol to bars. */
  datatype Klines = Frame(rows: seq<Bar>) | PerSymbol(frames: map<string, seq<Bar>>)

  /**
   * `get_klines`: a single symbol yields its bars, a list yields a dictionary
   * holding the bars of each of its symbols, and anything else raises
   * ValueError. `single` stands for `_get_single_symbol_klines`.
   */
  method GetKlines(arg: SymbolArg, single: string -> seq<Bar>) returns (r: Result<Klines, Error>)
    ensures r.Err? <==> arg.Neither?
    ensures r.Err? ==> r.error == ValueError
    ensures arg.One? ==> r == Ok(Frame(single(arg.symbol)))
    ensures arg.Many? ==>
      r.Ok? && r.value.PerSymbol? && r.value.frames.Keys == (set s | s in arg.symbols) &&
      forall s :: s in r.value.frames ==> r.value.frames[s] == single(s)
  {
    match arg
    case One(symbol) =>
      r := Ok(Frame(single(symbol)));
    case Many(symbols) =>
      var allData: map<string, seq<Bar>> := map[];
      var i := 0;
      while i < |symbols|
        invariant i <= |symbols|
        invariant allData.Keys == set s | s in symbols[..i]
        invariant forall s :: s in allData ==> allData[s] == single(s)
      {
        assert symbols[..i + 1] == symbols[..i] + [symbols[i]];
        allData := allData[symbols[i] := single(symbols[i])];
        i := i + 1;
      }
      assert symbols[..i] == symbols;
      r := Ok(PerSymbol(allData));
    case Neither =>
      r := Err(ValueError);
  }
}
