/**
 * The day files of the bar cache (data.py): `_save_data` splits a frame
 * into one group per calendar day and names each file after the group's
 * first and last bar; `_aggregate_data` loads, in listing order, the files
 * whose whole range lies in the requested window and sorts the rows by
 * time. Reading and writing the files is left to the caller: saving yields
 * the (name, rows) pairs to write, loading takes a function from a file
 * name to its rows.
 */
module CacheFiles {
  import opened Common
  import opened Timestamps
  import opened CacheNames
  import opened CacheGaps
  import opened Bars

  /**
   * A file `_save_data` writes: the first and last minute of its rows, from
   * which its name is made, and its rows.
   */
  datatype DayFile = DayFile(first: int, last: int, rows: seq<Bar>)

  /** The calendar day holding minute `t` (days since the epoch). */
  function DayOf(t: int): int
  {
    t / MinutesPerDay
  }

  /** `group.index.min()` */
  function MinTime(rows: seq<Bar>): int
    requires |rows| > 0
  {
    if |rows| == 1 then rows[0].time
    else
      var rest := MinTime(rows[1..]);
      if rows[0].time <= rest then rows[0].time else rest
  }

  /** `group.index.max()` */
  function MaxTime(rows: seq<Bar>): int
    requires |rows| > 0
  {
    if |rows| == 1 then rows[0].time
    else
      var rest := MaxTime(rows[1..]);
      if rows[0].time >= rest then rows[0].time else rest
  }

  lemma {:induction false} MinMaxTime(rows: seq<Bar>)
    requires |rows| > 0
    ensures forall b :: b in rows ==> MinTime(rows) <= b.time <= MaxTime(rows)
    ensures exists b :: b in rows && b.time == MinTime(rows)
    ensures exists b :: b in rows && b.time == MaxTime(rows)
  {
    if |rows| == 1 {
      assert rows[0] in rows;
    } else {
      MinMaxTime(rows[1..]);
      assert forall b :: b in rows[1..] ==> b in rows;
      assert forall b :: b in rows ==> b == rows[0] || b in rows[1..];
      assert rows[0] in rows;
    }
  }

  /** The rows of calendar day `d`, in frame order: one group of `df.groupby(df.index.date)`. */
  function DayGroup(bars: seq<Bar>, d: int): seq<Bar>
  {
    if bars == [] then []
    else DayGroup(bars[..|bars| - 1], d) + (if DayOf(bars[|bars| - 1].time) == d then [bars[|bars| - 1]] else [])
  }

  /** The group of day `d` holds exactly the bars of that day. */
  lemma {:induction false} DayGroupMembers(bars: seq<Bar>, d: int)
    ensures forall b :: b in DayGroup(bars, d) <==> b in bars && DayOf(b.time) == d
  {
    if bars != [] {
      var init := bars[..|bars| - 1];
      DayGroupMembers(init, d);
      assert bars == init + [bars[|bars| - 1]];
    }
  }

  predicate AllPrintableTimes(bars: seq<Bar>)
  {
    forall b :: b in bars ==> Printable(b.time)
  }

  /** The day a written file belongs to: the day of its first minute. */
  function FileDay(f: DayFile): int
  {
    DayOf(f.first)
  }

  lemma DayGroupPrintable(bars: seq<Bar>, d: int)
    requires AllPrintableTimes(bars)
    ensures AllPrintableTimes(DayGroup(bars, d))
  {
    DayGroupMembers(bars, d);
  }

  /** The name the file is written under: `'{first} - {last}.csv'`. */
  function FileNameOf(f: DayFile): string
    requires Printable(f.first) && Printable(f.last)
  {
    FileName(f.first, f.last)
  }

  /** The file for the non-empty group of day `d`. */
  function DayFileOf(bars: seq<Bar>, d: int): (f: DayFile)
    requires AllPrintableTimes(bars) && |DayGroup(bars, d)| > 0
    ensures f.rows == DayGroup(bars, d) && FileDay(f) == d
    ensures f.first == MinTime(f.rows) && f.last == MaxTime(f.rows) && Printable(f.first) && Printable(f.last)
  {
    var g := DayGroup(bars, d);
    DayGroupPrintable(bars, d);
    MinMaxTime(g);
    DayGroupMembers(bars, d);
    DayFile(MinTime(g), MaxTime(g), g)
  }

  /**
   * The grouping loop of `_save_data`: one file per calendar day holding a
   * bar, in increasing day order, each the file of its day (that day's rows
   * in frame order, named after its first and last minute).
   */
  method SaveData(bars: seq<Bar>) returns (files: seq<DayFile>)
    requires AllPrintableTimes(bars)
    ensures forall i :: 0 <= i < |files| ==>
      |DayGroup(bars, FileDay(files[i]))| > 0 && files[i] == DayFileOf(bars, FileDay(files[i]))
    ensures forall i, j :: 0 <= i < j < |files| ==> FileDay(files[i]) < FileDay(files[j])
    ensures forall b :: b in bars ==> exists i :: 0 <= i < |files| && FileDay(files[i]) == DayOf(b.time)
  {
    files := [];
    if bars == [] {
      return;
    }
    DayOfMonotone(MinTime(bars), MaxTime(bars));
    files := SaveDays(bars, DayOf(MinTime(bars)), DayOf(MaxTime(bars)));
    SavedAll(bars, files);
  }

  /** The `for` loop over the days from `first` to `last`. */
  method SaveDays(bars: seq<Bar>, first: int, last: int) returns (files: seq<DayFile>)
    requires AllPrintableTimes(bars) && first <= last + 1
    ensures SavedThrough(bars, files, first, last + 1)
  {
    files := [];
    var d := first;
    while d <= last
      invariant first <= d <= last + 1
      invariant SavedThrough(bars, files, first, d)
      decreases last + 1 - d
    {
      SaveNext(bars, files, first, d);
      var group := DayGroup(bars, d);
      if |group| > 0 {
        files := files + [DayFileOf(bars, d)];
      }
      d := d + 1;
    }
  }

  /** Past the day of the latest bar, the invariant covers every bar. */
  lemma SavedAll(bars: seq<Bar>, files: seq<DayFile>)
    requires AllPrintableTimes(bars) && |bars| > 0
    requires SavedThrough(bars, files, DayOf(MinTime(bars)), DayOf(MaxTime(bars)) + 1)
    ensures forall i :: 0 <= i < |files| ==>
      |DayGroup(bars, FileDay(files[i]))| > 0 && files[i] == DayFileOf(bars, FileDay(files[i]))
    ensures forall i, j :: 0 <= i < j < |files| ==> FileDay(files[i]) < FileDay(files[j])
    ensures forall b :: b in bars ==> exists i :: 0 <= i < |files| && FileDay(files[i]) == DayOf(b.time)
  {
    MinMaxTime(bars);
    forall b | b in bars ensures exists i :: 0 <= i < |files| && FileDay(files[i]) == DayOf(b.time) {
      DayOfMonotone(MinTime(bars), b.time);
      DayOfMonotone(b.time, MaxTime(bars));
    }
  }

  /**
   * The loop invariant of `SaveData`: the files so far are those of the
   * days in [first, d) holding a bar, in day order.
   */
  predicate SavedThrough(bars: seq<Bar>, files: seq<DayFile>, first: int, d: int)
    requires AllPrintableTimes(bars)
  {
    (forall i :: 0 <= i < |files| ==>
      first <= FileDay(files[i]) < d && |DayGroup(bars, FileDay(files[i]))| > 0 && files[i] == DayFileOf(bars, FileDay(files[i]))) &&
    (forall i, j :: 0 <= i < j < |files| ==> FileDay(files[i]) < FileDay(files[j])) &&
    (forall b :: b in bars && first <= DayOf(b.time) < d ==> exists i :: 0 <= i < |files| && FileDay(files[i]) == DayOf(b.time))
  }

  /** One more day of the grouping loop keeps its invariant. */
  lemma SaveNext(bars: seq<Bar>, files: seq<DayFile>, first: int, d: int)
    requires AllPrintableTimes(bars) && first <= d && SavedThrough(bars, files, first, d)
    ensures |DayGroup(bars, d)| > 0 ==> SavedThrough(bars, files + [DayFileOf(bars, d)], first, d + 1)
    ensures |DayGroup(bars, d)| == 0 ==> SavedThrough(bars, files, first, d + 1)
  {
    if |DayGroup(bars, d)| > 0 {
      var f := DayFileOf(bars, d);
      var next := files + [f];
      assert forall i :: 0 <= i < |files| ==> next[i] == files[i];
      assert FileDay(next[|files|]) == d;
      forall b | b in bars && first <= DayOf(b.time) < d + 1
        ensures exists i :: 0 <= i < |next| && FileDay(next[i]) == DayOf(b.time)
      {
        if DayOf(b.time) < d {
          var i :| 0 <= i < |files| && FileDay(files[i]) == DayOf(b.time);
          assert next[i] == files[i];
        }
      }
    } else {
      NoBarOnDay(bars, d);
    }
  }

  /** A day whose group is empty holds no bar. */
  lemma NoBarOnDay(bars: seq<Bar>, d: int)
    requires |DayGroup(bars, d)| == 0
    ensures forall b :: b in bars ==> DayOf(b.time) != d
  {
    forall b | b in bars ensures DayOf(b.time) != d {
      if DayOf(b.time) == d {
        GroupHolds(bars, b);
      }
    }
  }

  /** A bar lies in the group of its own day. */
  lemma GroupHolds(bars: seq<Bar>, b: Bar)
    requires b in bars
    ensures |DayGroup(bars, DayOf(b.time))| > 0
  {
    DayGroupMembers(bars, DayOf(b.time));
  }

  lemma DayOfMonotone(s: int, t: int)
    requires s <= t
    ensures DayOf(s) <= DayOf(t)
  {
  }

  /**
   * The file of a day reads back, through `_parse_time_range`, as its first
   * and last minute, both within that day; so the files of two different
   * days never share a name.
   */
  lemma DayFileRange(bars: seq<Bar>, d: int)
    requires AllPrintableTimes(bars) && |DayGroup(bars, d)| > 0
    ensures var g := DayGroup(bars, d);
      ParseTimeRange(FileNameOf(DayFileOf(bars, d))) == Ok((MinTime(g), MaxTime(g))) &&
      d * MinutesPerDay <= MinTime(g) <= MaxTime(g) < d * MinutesPerDay + MinutesPerDay
  {
    var g := DayGroup(bars, d);
    DayGroupPrintable(bars, d);
    MinMaxTime(g);
    ParseFileName(MinTime(g), MaxTime(g));
    DayGroupMembers(bars, d);
    var lo :| lo in g && lo.time == MinTime(g);
    var hi :| hi in g && hi.time == MaxTime(g);
    assert DayOf(lo.time) == d && DayOf(hi.time) == d;
  }

  /** Files of different days have different names. */
  lemma DayFileNamesDistinct(bars: seq<Bar>, d1: int, d2: int)
    requires AllPrintableTimes(bars) && |DayGroup(bars, d1)| > 0 && |DayGroup(bars, d2)| > 0 && d1 != d2
    ensures FileNameOf(DayFileOf(bars, d1)) != FileNameOf(DayFileOf(bars, d2))
  {
    DayFileRange(bars, d1);
    DayFileRange(bars, d2);
    if d1 < d2 {
      assert d1 * MinutesPerDay + MinutesPerDay <= d2 * MinutesPerDay;
    } else {
      assert d2 * MinutesPerDay + MinutesPerDay <= d1 * MinutesPerDay;
    }
  }

  // ---------------------------------------------------------------------------
  // Loading

  /**
   * The names `_aggregate_data` keeps from the sorted listing, in order:
   * those whose file starts at or after `start` and ends at or before
   * `end`. The first name that does not parse raises.
   */
  function SelectFiles(parse: string -> Result<Span, Error>, names: seq<string>, start: int, end: int): Result<seq<string>, Error>
  {
    if names == [] then Ok([])
    else
      match SelectFiles(parse, names[..|names| - 1], start, end)
      case Err(e) => Err(e)
      case Ok(kept) =>
        match parse(names[|names| - 1])
        case Err(e) => Err(e)
        case Ok(range) => Ok(if range.0 >= start && range.1 <= end then kept + [names[|names| - 1]] else kept)
  }

  /** `pd.concat` of the loaded frames, in order. */
  function Concat(frames: seq<seq<Bar>>): seq<Bar>
  {
    if frames == [] then [] else Concat(frames[..|frames| - 1]) + frames[|frames| - 1]
  }

  /** The frames of the named files, in order. */
  function LoadAll(names: seq<string>, load: string -> seq<Bar>): (frames: seq<seq<Bar>>)
    ensures |frames| == |names| && forall i :: 0 <= i < |names| ==> frames[i] == load(names[i])
  {
    seq(|names|, i requires 0 <= i < |names| => load(names[i]))
  }

  predicate SortedByTime(rows: seq<Bar>)
  {
    forall i, j :: 0 <= i < j < |rows| ==> rows[i].time <= rows[j].time
  }

  /** `x` placed after every leading row that is no later than it. */
  function InsertByTime(sorted: seq<Bar>, x: Bar): seq<Bar>
  {
    if sorted == [] then [x]
    else if sorted[0].time <= x.time then [sorted[0]] + InsertByTime(sorted[1..], x)
    else [x] + sorted
  }

  /**
   * `sort_index`: the rows ordered by time. Pandas does not promise an order
   * among rows with equal times; this model keeps them in frame order.
   */
  function SortByTime(rows: seq<Bar>): seq<Bar>
  {
    if rows == [] then [] else InsertByTime(SortByTime(rows[..|rows| - 1]), rows[|rows| - 1])
  }

  lemma {:induction false} InsertByTimePerm(sorted: seq<Bar>, x: Bar)
    ensures multiset(InsertByTime(sorted, x)) == multiset(sorted) + multiset{x}
  {
    if sorted != [] && sorted[0].time <= x.time {
      InsertByTimePerm(sorted[1..], x);
      assert sorted == [sorted[0]] + sorted[1..];
    }
  }

  lemma {:induction false} InsertByTimeSorted(sorted: seq<Bar>, x: Bar)
    requires SortedByTime(sorted)
    ensures SortedByTime(InsertByTime(sorted, x))
  {
    if sorted != [] {
      var rest := sorted[1..];
      if sorted[0].time <= x.time {
        InsertByTimeSorted(rest, x);
        var tail := InsertByTime(rest, x);
        InsertByTimePerm(rest, x);
        forall b | b in tail ensures sorted[0].time <= b.time {
          assert b in multiset(tail);
          if b != x {
            var q :| 0 <= q < |rest| && rest[q] == b;
            assert sorted[q + 1] == b;
          }
        }
        SortedCons(sorted[0], tail);
      } else {
        SortedCons(x, sorted);
      }
    }
  }

  lemma SortedCons(x: Bar, rows: seq<Bar>)
    requires SortedByTime(rows) && forall b :: b in rows ==> x.time <= b.time
    ensures SortedByTime([x] + rows)
  {
    var r := [x] + rows;
    forall i, j | 0 <= i < j < |r| ensures r[i].time <= r[j].time {
      assert r[j] == rows[j - 1];
      if i > 0 {
        assert r[i] == rows[i - 1];
      }
    }
  }

  /** The sorted rows are in time order and are exactly the input rows. */
  lemma {:induction false} SortByTimeSpec(rows: seq<Bar>)
    ensures SortedByTime(SortByTime(rows)) && multiset(SortByTime(rows)) == multiset(rows)
  {
    if rows != [] {
      var init := rows[..|rows| - 1];
      SortByTimeSpec(init);
      InsertByTimeSorted(SortByTime(init), rows[|rows| - 1]);
      InsertByTimePerm(SortByTime(init), rows[|rows| - 1]);
      assert rows == init + [rows[|rows| - 1]];
    }
  }

  /** Rows already in time order come back unchanged. */
  lemma {:induction false} SortByTimeSortedInput(rows: seq<Bar>)
    requires SortedByTime(rows)
    ensures SortByTime(rows) == rows
  {
    if rows != [] {
      var init, x := rows[..|rows| - 1], rows[|rows| - 1];
      assert SortedByTime(init) by {
        forall i, j | 0 <= i < j < |init| ensures init[i].time <= init[j].time {
          assert init[i] == rows[i] && init[j] == rows[j];
        }
      }
      forall k | 0 <= k < |init| ensures init[k].time <= x.time {
        assert init[k] == rows[k];
      }
      SortByTimeSortedInput(init);
      InsertAtEnd(init, x);
      assert rows == init + [x];
    }
  }

  lemma {:induction false} InsertAtEnd(sorted: seq<Bar>, x: Bar)
    requires forall k :: 0 <= k < |sorted| ==> sorted[k].time <= x.time
    ensures InsertByTime(sorted, x) == sorted + [x]
  {
    if sorted != [] {
      var rest := sorted[1..];
      assert forall k :: 0 <= k < |rest| ==> rest[k] == sorted[k + 1];
      InsertAtEnd(rest, x);
      assert sorted == [sorted[0]] + rest;
    }
  }

  /**
   * `_aggregate_data` over the sorted listing `names`: the rows of every
   * file whose whole range lies in [start, end], concatenated in listing
   * order and sorted by time. No kept file makes `pd.concat` raise
   * ValueError; a name that does not parse raises.
   */
  method AggregateData(names: seq<string>, load: string -> seq<Bar>, start: int, end: int) returns (r: Result<seq<Bar>, Error>)
    ensures r.Ok? <==> SelectFiles(ParseTimeRange, names, start, end).Ok? && |SelectFiles(ParseTimeRange, names, start, end).value| > 0
    ensures r.Ok? ==> SortedByTime(r.value)
    ensures r.Ok? ==> multiset(r.value) == multiset(Concat(LoadAll(SelectFiles(ParseTimeRange, names, start, end).value, load)))
  {
    r := LoadSelected(names, ParseTimeRange, load, start, end);
  }

  /** The filter, load and sort of `_aggregate_data`, for any name parser `parse`. */
  method LoadSelected(names: seq<string>, parse: string -> Result<Span, Error>, load: string -> seq<Bar>, start: int, end: int)
    returns (r: Result<seq<Bar>, Error>)
    ensures r.Ok? <==> SelectFiles(parse, names, start, end).Ok? && |SelectFiles(parse, names, start, end).value| > 0
    ensures r.Ok? ==> SortedByTime(r.value)
    ensures r.Ok? ==> multiset(r.value) == multiset(Concat(LoadAll(SelectFiles(parse, names, start, end).value, load)))
  {
    ghost var kept: seq<string> := [];
    var frames: seq<seq<Bar>> := [];
    var j := 0;
    while j < |names|
      invariant j <= |names|
      invariant SelectFiles(parse, names[..j], start, end) == Ok(kept)
      invariant frames == LoadAll(kept, load)
    {
      assert names[..j + 1][..j] == names[..j];
      var range := parse(names[j]);
      if range.Err? {
        assert SelectFiles(parse, names[..j + 1], start, end).Err?;
        SelectFilesErrPrefix(parse, names, j + 1, start, end);
        return Err(range.error);
      }
      var (fileStart, fileEnd) := range.value;
      if fileStart >= start && fileEnd <= end {
        kept := kept + [names[j]];
        frames := frames + [load(names[j])];
      }
      j := j + 1;
    }
    assert names[..j] == names;
    if |frames| == 0 {
      return Err(ValueError);
    }
    var all := Concat(frames);
    SortByTimeSpec(all);
    r := Ok(SortByTime(all));
  }

  lemma {:induction false} SelectFilesErrPrefix(parse: string -> Result<Span, Error>, names: seq<string>, j: nat, start: int, end: int)
    requires j <= |names| && SelectFiles(parse, names[..j], start, end).Err?
    ensures SelectFiles(parse, names, start, end) == SelectFiles(parse, names[..j], start, end)
    decreases |names| - j
  {
    if j < |names| {
      assert names[..j + 1][..j] == names[..j];
      SelectFilesErrPrefix(parse, names, j + 1, start, end);
    } else {
      assert names[..j] == names;
    }
  }

  /**
   * The selection keeps exactly the files whose whole range lies within
   * [start, end], in listing order, and fails exactly when a name does not
   * parse.
   */
  lemma {:induction false} SelectFilesSpec(parse: string -> Result<Span, Error>, names: seq<string>, start: int, end: int)
    ensures SelectFiles(parse, names, start, end).Ok? <==> forall i :: 0 <= i < |names| ==> parse(names[i]).Ok?
    ensures SelectFiles(parse, names, start, end).Ok? ==>
      var kept := SelectFiles(parse, names, start, end).value;
      (forall n :: n in kept ==> n in names && parse(n).value.0 >= start && parse(n).value.1 <= end) &&
      (forall i :: 0 <= i < |names| && parse(names[i]).value.0 >= start && parse(names[i]).value.1 <= end ==> names[i] in kept)
  {
    if names != [] {
      var init := names[..|names| - 1];
      SelectFilesSpec(parse, init, start, end);
      assert forall i :: 0 <= i < |init| ==> init[i] == names[i];
      assert names == init + [names[|names| - 1]];
    }
  }

  // ---------------------------------------------------------------------------
  // Saving, then checking

  /**
   * A saved day file that starts at the day's midnight and whose last bar,
   * moved on by one timeframe, reaches the next midnight covers the whole
   * day: `_check_local_data` reports no gap for it.
   */
  lemma SavedDayNotMissing(names: seq<string>, delta: int, dayStart: int, k: nat, last: int)
    requires k < |names| && Printable(dayStart) && Printable(last)
    requires names[k] == FileName(dayStart, last) && last + delta >= dayStart + MinutesPerDay
    requires forall i :: 0 <= i < |names| ==> ParseTimeRange(names[i]).Ok?
    ensures DayCoverage(ParseAll(ParseTimeRange, names), delta, dayStart).Ok?
    ensures Gaps(DayCoverage(ParseAll(ParseTimeRange, names), delta, dayStart).value, dayStart, dayStart + MinutesPerDay) == []
  {
    ParseFileName(dayStart, last);
    DayNotMissing(ParseAll(ParseTimeRange, names), delta, dayStart, k, last);
  }

  /** The same, for a listing already parsed. */
  lemma DayNotMissing(ranges: seq<Result<Span, Error>>, delta: int, dayStart: int, k: nat, last: int)
    requires k < |ranges| && ranges[k] == Ok((dayStart, last)) && last + delta >= dayStart + MinutesPerDay
    requires forall i :: 0 <= i < |ranges| ==> ranges[i].Ok?
    ensures DayCoverage(ranges, delta, dayStart).Ok?
    ensures Gaps(DayCoverage(ranges, delta, dayStart).value, dayStart, dayStart + MinutesPerDay) == []
  {
    DayCoverageOk(ranges, delta, dayStart);
    DayCoverageComplete(ranges, delta, dayStart, k);
    CoveredByMember(DayCoverage(ranges, delta, dayStart).value, (dayStart, last + delta), dayStart, dayStart + MinutesPerDay);
  }

  lemma CoveredByMember(cov: seq<Span>, span: Span, t: int, dayEnd: int)
    requires span in cov && span.0 <= t <= dayEnd <= span.1
    ensures Gaps(cov, t, dayEnd) == []
  {
    var c :| 0 <= c < |cov| && cov[c] == span;
    GapsFullyCovered(cov, c, t, dayEnd);
  }
}
