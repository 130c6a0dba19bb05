/**
 * OHLCV bars and `_custom_resampler` (data.py): bars are cut into
 * consecutive windows of `k` rows, the last one possibly shorter, and each
 * window becomes one bar (first open, highest high, lowest low, last close,
 * summed volume) labelled with the time of its first row (data.py, line 69).
 */
module Bars {
  import opened Common

  /** One row of a kline frame; `time` is in minutes since the epoch. */
  datatype Bar = Bar(time: int, open: real, high: real, low: real, close: real, volume: real)

  /** `chunk['high'].max()` of a non-empty window. */
  function MaxHigh(w: seq<Bar>): real
    requires |w| > 0
  {
    if |w| == 1 then w[0].high
    else
      var rest := MaxHigh(w[1..]);
      if w[0].high >= rest then w[0].high else rest
  }

  /** `chunk['low'].min()` of a non-empty window. */
  function MinLow(w: seq<Bar>): real
    requires |w| > 0
  {
    if |w| == 1 then w[0].low
    else
      var rest := MinLow(w[1..]);
      if w[0].low <= rest then w[0].low else rest
  }

  /** `chunk['volume'].sum()`. */
  function TotalVolume(w: seq<Bar>): real
  {
    if w == [] then 0.0 else w[0].volume + TotalVolume(w[1..])
  }

  /** The highest high bounds every bar's high and is the high of one of them. */
  lemma {:induction false} MaxHighIsMax(w: seq<Bar>)
    requires |w| > 0
    ensures forall b :: b in w ==> b.high <= MaxHigh(w)
    ensures exists b :: b in w && b.high == MaxHigh(w)
  {
    if |w| == 1 {
      assert w[0] in w;
    } else {
      MaxHighIsMax(w[1..]);
      assert forall b :: b in w[1..] ==> b in w;
      assert forall b :: b in w ==> b == w[0] || b in w[1..];
      assert w[0] in w;
    }
  }

  /** The lowest low bounds every bar's low from below and is the low of one of them. */
  lemma {:induction false} MinLowIsMin(w: seq<Bar>)
    requires |w| > 0
    ensures forall b :: b in w ==> MinLow(w) <= b.low
    ensures exists b :: b in w && b.low == MinLow(w)
  {
    if |w| == 1 {
      assert w[0] in w;
    } else {
      MinLowIsMin(w[1..]);
      assert forall b :: b in w[1..] ==> b in w;
      assert forall b :: b in w ==> b == w[0] || b in w[1..];
      assert w[0] in w;
    }
  }

  lemma {:induction false} TotalVolumeAppend(a: seq<Bar>, b: seq<Bar>)
    ensures TotalVolume(a + b) == TotalVolume(a) + TotalVolume(b)
    decreases |a|
  {
    if a != [] {
      TotalVolumeAppend(a[1..], b);
      assert (a + b)[1..] == a[1..] + b;
    } else {
      assert a + b == b;
    }
  }

  /** One window turned into one bar, labelled with the time of its first row. */
  function Aggregate(window: seq<Bar>): Bar
    requires |window| > 0
  {
    Bar(window[0].time, window[0].open, MaxHigh(window), MinLow(window),
        window[|window| - 1].close, TotalVolume(window))
  }

  /** The rows of window `j`: `data.iloc[j*k : j*k + k]`. */
  function Window(data: seq<Bar>, k: int, j: nat): seq<Bar>
    requires k > 0 && j * k < |data|
  {
    data[j * k .. if j * k + k <= |data| then j * k + k else |data|]
  }

  /** The windows of `data` aggregated in order, the trailing partial window kept. */
  function Resample(data: seq<Bar>, k: int): seq<Bar>
    requires k > 0
    decreases |data|
  {
    if data == [] then []
    else
      var w := if |data| <= k then |data| else k;
      [Aggregate(data[..w])] + Resample(data[w..], k)
  }

  /** The end of the window that starts at row `i`. */
  function WindowEnd(n: int, i: int, k: int): int
  {
    if i + k <= n then i + k else n
  }

  lemma ResampleStep(data: seq<Bar>, i: int, k: int)
    requires k > 0 && 0 <= i < |data|
    ensures Resample(data[i..], k) == [Aggregate(data[i..WindowEnd(|data|, i, k)])] + Resample(data[WindowEnd(|data|, i, k)..], k)
  {
    var rest := data[i..];
    var w := if |rest| <= k then |rest| else k;
    assert rest[..w] == data[i..WindowEnd(|data|, i, k)];
    assert rest[w..] == data[WindowEnd(|data|, i, k)..];
  }

  /**
   * `_custom_resampler` with the row labels of line 69: a window of 0
   * raises ValueError (a `range` step of zero); a negative window yields
   * no rows.
   */
  method CustomResampler(data: seq<Bar>, k: int) returns (r: Result<seq<Bar>, Error>)
    ensures k == 0 <==> r.Err?
    ensures k < 0 ==> r == Ok([])
    ensures k > 0 ==> r == Ok(Resample(data, k))
  {
    if k == 0 {
      return Err(ValueError);
    }
    var resampled: seq<Bar> := [];
    if k < 0 {
      return Ok(resampled);
    }
    var i := 0;
    assert data[0..] == data;
    while i < |data|
      invariant 0 <= i
      invariant resampled + Pending(data, i, k) == Resample(data, k)
      decreases |data| - i
    {
      var chunk := data[i .. WindowEnd(|data|, i, k)];
      PendingStep(data, i, k);
      assert (resampled + [Aggregate(chunk)]) + Pending(data, i + k, k) == Resample(data, k);
      resampled := resampled + [Aggregate(chunk)];
      i := i + k;
    }
    PendingDone(data, i, k);
    assert resampled + [] == resampled;
    r := Ok(resampled);
  }

  /** The rows still to come once the windows before bar `i` are done. */
  ghost function Pending(data: seq<Bar>, i: int, k: int): seq<Bar>
    requires 0 <= i && k > 0
  {
    Resample(data[if i <= |data| then i else |data|..], k)
  }

  /** The window starting at bar `i` is the next row to come. */
  lemma PendingStep(data: seq<Bar>, i: int, k: int)
    requires k > 0 && 0 <= i < |data|
    ensures Pending(data, i, k) == [Aggregate(data[i..WindowEnd(|data|, i, k)])] + Pending(data, i + k, k)
  {
    ResampleStep(data, i, k);
    assert (if i + k <= |data| then i + k else |data|) == WindowEnd(|data|, i, k);
  }

  /** Past the last bar nothing is left to come. */
  lemma PendingDone(data: seq<Bar>, i: int, k: int)
    requires k > 0 && i >= |data|
    ensures Pending(data, i, k) == []
  {
    assert data[|data|..] == [];
  }

  // ---------------------------------------------------------------------------
  // Properties

  /** There are ceil(n/k) rows: the smallest count of windows that holds every bar. */
  lemma {:induction false} ResampleCount(data: seq<Bar>, k: int)
    requires k > 0
    ensures var n, rows := |data|, |Resample(data, k)|;
      (rows - 1) * k < n <= rows * k || (n == 0 && rows == 0)
    decreases |data|
  {
    if data != [] {
      var w := if |data| <= k then |data| else k;
      var rest := data[w..];
      ResampleCount(rest, k);
      var m := |Resample(rest, k)|;
      assert Resample(data, k) == [Aggregate(data[..w])] + Resample(rest, k);
      MulSucc(m - 1, k);
      MulSucc(m, k);
    }
  }

  /** Row j is the aggregate of window j, the bars j*k up to j*k + k. */
  lemma {:induction false} ResampleAt(data: seq<Bar>, k: int, j: nat)
    requires k > 0 && j < |Resample(data, k)|
    ensures j * k < |data| && Resample(data, k)[j] == Aggregate(Window(data, k, j))
    decreases j
  {
    var w := if |data| <= k then |data| else k;
    var rest := data[w..];
    assert Resample(data, k) == [Aggregate(data[..w])] + Resample(rest, k);
    if j == 0 {
      assert 0 * k == 0;
      assert Window(data, k, 0) == data[..w];
    } else {
      ResampleAt(rest, k, j - 1);
      WindowShift(data, k, j);
    }
  }

  lemma MulSucc(m: int, k: int)
    ensures m * k + k == (m + 1) * k
  {
  }

  lemma WindowShift(data: seq<Bar>, k: int, j: nat)
    requires k > 0 && 0 < j && (j - 1) * k < |data[(if |data| <= k then |data| else k)..]|
    ensures j * k < |data|
    ensures Window(data[(if |data| <= k then |data| else k)..], k, j - 1) == Window(data, k, j)
  {
    MulSucc(j - 1, k);
  }

  /**
   * Each row opens at the first bar of its window, closes at the last, and
   * its high and low are the largest high and smallest low of the window,
   * both reached by some bar of it.
   */
  lemma ResampleRow(data: seq<Bar>, k: int, j: nat)
    requires k > 0 && j < |Resample(data, k)|
    ensures j * k < |data|
    ensures var row, w := Resample(data, k)[j], Window(data, k, j);
      row.time == data[j * k].time && row.open == data[j * k].open && row.close == w[|w| - 1].close &&
      (forall b :: b in w ==> row.low <= b.low && b.high <= row.high) &&
      (exists b :: b in w && b.high == row.high) && (exists b :: b in w && b.low == row.low) &&
      row.volume == TotalVolume(w)
  {
    ResampleAt(data, k, j);
    MaxHighIsMax(Window(data, k, j));
    MinLowIsMin(Window(data, k, j));
  }

  /** No volume is lost or invented: the rows' volumes add up to the bars' volumes. */
  lemma {:induction false} ResampleVolume(data: seq<Bar>, k: int)
    requires k > 0
    ensures TotalVolume(Resample(data, k)) == TotalVolume(data)
    decreases |data|
  {
    if data != [] {
      var w := if |data| <= k then |data| else k;
      ResampleVolume(data[w..], k);
      var r := Resample(data, k);
      assert r == [Aggregate(data[..w])] + Resample(data[w..], k);
      assert r[1..] == Resample(data[w..], k);
      TotalVolumeAppend(data[..w], data[w..]);
      assert data[..w] + data[w..] == data;
    }
  }

  /** A window of one bar reproduces the input. */
  lemma {:induction false} ResampleByOne(data: seq<Bar>)
    ensures Resample(data, 1) == data
    decreases |data|
  {
    if data != [] {
      ResampleByOne(data[1..]);
      var w := data[..1];
      assert w[1..] == [];
      assert TotalVolume(w) == data[0].volume + TotalVolume([]);
      assert Aggregate(w) == data[0];
      assert [data[0]] + data[1..] == data;
    }
  }
}
