/**
 * `_check_local_data` (data.py): which minutes of the requested days the
 * local cache does not hold. For every day the scan visits, the cache files
 * that touch the day give covered intervals `[file start, file end +
 * timeframe)`; the minutes of the day outside every interval are grouped
 * into maximal runs, and each run is reported as a label
 * `'{first minute} - {minute after the last}'`.
 */
module CacheGaps {
  import opened Common
  import opened Timestamps
  import opened CacheNames
  import opened KlineArgs

  /** A half-open covered interval [from, until) in minutes. */
  type Span = (int, int)

  /** `any(start <= t < end for start, end in covered)`. */
  predicate Covered(cov: seq<Span>, t: int)
  {
    exists i :: 0 <= i < |cov| && cov[i].0 <= t < cov[i].1
  }

  /** A file [fileStart, fileEndAdj) is taken into a day's coverage when it starts in the day or its adjusted end falls strictly inside it. */
  predicate Touches(fileStart: int, fileEndAdj: int, dayStart: int)
  {
    (dayStart <= fileStart < dayStart + MinutesPerDay) || (dayStart < fileEndAdj < dayStart + MinutesPerDay)
  }

  /**
   * The parse of every name of the listing, in order. The scan below is
   * stated for any name parser `parse`; `_check_local_data` uses
   * `ParseTimeRange`.
   */
  function ParseAll(parse: string -> Result<Span, Error>, names: seq<string>): (ranges: seq<Result<Span, Error>>)
    ensures |ranges| == |names| && forall i :: 0 <= i < |names| ==> ranges[i] == parse(names[i])
  {
    seq(|names|, i requires 0 <= i < |names| => parse(names[i]))
  }

  /**
   * The covered intervals collected for one day from the parsed names, in
   * order: the first name that did not parse raises, and each file touching
   * the day contributes [start, end + delta).
   */
  function DayCoverage(ranges: seq<Result<Span, Error>>, delta: int, dayStart: int): Result<seq<Span>, Error>
  {
    if ranges == [] then Ok([])
    else
      match DayCoverage(ranges[..|ranges| - 1], delta, dayStart)
      case Err(e) => Err(e)
      case Ok(cov) =>
        match ranges[|ranges| - 1]
        case Err(e) => Err(e)
        case Ok(range) =>
          Ok(if Touches(range.0, range.1 + delta, dayStart) then cov + [(range.0, range.1 + delta)] else cov)
  }

  /** A day's coverage exists exactly when every name of the listing parses. */
  lemma {:induction false} DayCoverageOk(ranges: seq<Result<Span, Error>>, delta: int, dayStart: int)
    ensures DayCoverage(ranges, delta, dayStart).Ok? <==> forall i :: 0 <= i < |ranges| ==> ranges[i].Ok?
  {
    if ranges != [] {
      var init := ranges[..|ranges| - 1];
      DayCoverageOk(init, delta, dayStart);
      assert forall i :: 0 <= i < |init| ==> init[i] == ranges[i];
    }
  }

  /** Every file touching the day is in the day's coverage, with its end moved on by the timeframe. */
  lemma {:induction false} DayCoverageComplete(ranges: seq<Result<Span, Error>>, delta: int, dayStart: int, i: nat)
    requires i < |ranges| && DayCoverage(ranges, delta, dayStart).Ok?
    requires ranges[i].Ok? && Touches(ranges[i].value.0, ranges[i].value.1 + delta, dayStart)
    ensures (ranges[i].value.0, ranges[i].value.1 + delta) in DayCoverage(ranges, delta, dayStart).value
  {
    var init := ranges[..|ranges| - 1];
    if i < |init| {
      DayCoverageComplete(init, delta, dayStart, i);
    }
  }

  /** Every interval of the day's coverage is a parsed file touching the day, with its end moved on by the timeframe. */
  lemma {:induction false} DayCoverageSound(ranges: seq<Result<Span, Error>>, delta: int, dayStart: int, c: Span)
    requires DayCoverage(ranges, delta, dayStart).Ok? && c in DayCoverage(ranges, delta, dayStart).value
    ensures Touches(c.0, c.1, dayStart) && Ok((c.0, c.1 - delta)) in ranges
  {
    var init := ranges[..|ranges| - 1];
    var cov := DayCoverage(init, delta, dayStart).value;
    if c in cov {
      DayCoverageSound(init, delta, dayStart, c);
      assert ranges == init + [ranges[|ranges| - 1]];
    }
  }

  /** The first covered minute at or after `t`, or `dayEnd` when there is none before it. */
  function RunEnd(cov: seq<Span>, t: int, dayEnd: int): (r: int)
    requires t <= dayEnd
    ensures t <= r <= dayEnd
    ensures r == dayEnd || Covered(cov, r)
    ensures forall m :: t <= m < r ==> !Covered(cov, m)
    decreases dayEnd - t
  {
    if t == dayEnd || Covered(cov, t) then t else RunEnd(cov, t + 1, dayEnd)
  }

  /** The maximal uncovered runs of minutes in [t, dayEnd), in order. */
  function Gaps(cov: seq<Span>, t: int, dayEnd: int): (gaps: seq<Span>)
    requires t <= dayEnd
    ensures forall i :: 0 <= i < |gaps| ==> t <= gaps[i].0 < gaps[i].1 <= dayEnd
    decreases dayEnd - t
  {
    if t == dayEnd then []
    else if Covered(cov, t) then Gaps(cov, t + 1, dayEnd)
    else
      var e := RunEnd(cov, t, dayEnd);
      [(t, e)] + Gaps(cov, e, dayEnd)
  }

  /** Midnight of the day holding minute `t`. */
  function DayStartOf(t: int): (d: int)
    ensures d <= t < d + MinutesPerDay && d % MinutesPerDay == 0
    ensures 0 <= t ==> 0 <= d
  {
    t - t % MinutesPerDay
  }

  /**
   * The gaps of every day the scan visits, given the parsed listing: the
   * scan starts at `cur` and steps a day at a time while it is at most
   * `end` minus one day; each visited day is the calendar day holding the
   * current moment.
   */
  function MissingFrom(ranges: seq<Result<Span, Error>>, delta: int, cur: int, end: int): (r: Result<seq<Span>, Error>)
    decreases end - cur
  {
    if cur > end - MinutesPerDay then Ok([])
    else
      var dayStart := DayStartOf(cur);
      match DayCoverage(ranges, delta, dayStart)
      case Err(e) => Err(e)
      case Ok(cov) =>
        match MissingFrom(ranges, delta, cur + MinutesPerDay, end)
        case Err(e) => Err(e)
        case Ok(rest) => Ok(Gaps(cov, dayStart, dayStart + MinutesPerDay) + rest)
  }

  /** What `_check_local_data` computes, before the gaps are written as labels. */
  function LocalGaps(names: seq<string>, start: int, end: int, timeframe: string): Result<seq<Span>, Error>
  {
    match ParseTimeframe(timeframe)
    case Err(e) => Err(e)
    case Ok(delta) => MissingFrom(ParseAll(ParseTimeRange, names), delta, start, end)
  }

  /** Every run of minutes within the printable range. */
  predicate AllPrintable(gaps: seq<Span>)
  {
    forall i :: 0 <= i < |gaps| ==> Printable(gaps[i].0) && Printable(gaps[i].1)
  }

  /**
   * The label of a run; a run outside the printable years gets no text
   * (the scan never reports one, by `MissingFromPrintable`).
   */
  function GapLabel(gap: Span): string
  {
    if Printable(gap.0) && Printable(gap.1) then MissingLabel(gap.0, gap.1) else []
  }

  /** The labels of the runs, in order. */
  function Labels(show: Span -> string, gaps: seq<Span>): (labels: seq<string>)
    ensures |labels| == |gaps|
  {
    if gaps == [] then []
    else Labels(show, gaps[..|gaps| - 1]) + [show(gaps[|gaps| - 1])]
  }

  /** Each label is `show` of the run at the same position. */
  lemma {:induction false} LabelsPointwise(show: Span -> string, gaps: seq<Span>)
    ensures forall i :: 0 <= i < |gaps| ==> Labels(show, gaps)[i] == show(gaps[i])
    decreases |gaps|
  {
    if gaps != [] {
      LabelsPointwise(show, gaps[..|gaps| - 1]);
    }
  }

  // ---------------------------------------------------------------------------
  // The scan

  /** The minute-by-minute scan over one day. */
  method ScanDay(cov: seq<Span>, dayStart: int) returns (gaps: seq<Span>)
    ensures gaps == Gaps(cov, dayStart, dayStart + MinutesPerDay)
  {
    var dayEnd := dayStart + MinutesPerDay;
    gaps := [];
    var minute := dayStart;
    while minute < dayEnd
      invariant dayStart <= minute <= dayEnd
      invariant gaps + Gaps(cov, minute, dayEnd) == Gaps(cov, dayStart, dayEnd)
      decreases dayEnd - minute
    {
      if !Covered(cov, minute) {
        var missingStart := minute;
        while minute < dayEnd && !Covered(cov, minute)
          invariant missingStart <= minute <= dayEnd
          invariant RunEnd(cov, minute, dayEnd) == RunEnd(cov, missingStart, dayEnd)
          decreases dayEnd - minute
        {
          minute := minute + 1;
        }
        gaps := gaps + [(missingStart, minute)];
      } else {
        minute := minute + 1;
      }
    }
  }

  /** The covered intervals of one day, collected over the directory listing. */
  method CollectCoverage(names: seq<string>, parse: string -> Result<Span, Error>, delta: int, dayStart: int)
    returns (r: Result<seq<Span>, Error>)
    ensures r == DayCoverage(ParseAll(parse, names), delta, dayStart)
  {
    ghost var ranges := ParseAll(parse, names);
    var covered: seq<Span> := [];
    var j := 0;
    while j < |names|
      invariant j <= |names|
      invariant DayCoverage(ranges[..j], delta, dayStart) == Ok(covered)
    {
      assert ranges[..j + 1][..j] == ranges[..j];
      var range := parse(names[j]);
      assert range == ranges[j];
      if range.Err? {
        assert DayCoverage(ranges[..j + 1], delta, dayStart) == Err(range.error);
        DayCoverageErrPrefix(ranges, j + 1, delta, dayStart);
        return Err(range.error);
      }
      var (fileStart, fileEnd) := range.value;
      var fileEndAdj := fileEnd + delta;
      if Touches(fileStart, fileEndAdj, dayStart) {
        covered := covered + [(fileStart, fileEndAdj)];
      }
      j := j + 1;
    }
    assert ranges[..j] == ranges;
    r := Ok(covered);
  }

  /**
   * `_check_local_data` over the listing `names` of the cache directory:
   * the labels of the missing runs of every visited day, in order, or the
   * error of an unknown timeframe or of a file name that does not parse.
   */
  method CheckLocalData(names: seq<string>, start: int, end: int, timeframe: string) returns (r: Result<seq<string>, Error>)
    requires 0 <= start && Printable(end)
    ensures r.Ok? <==> LocalGaps(names, start, end, timeframe).Ok?
    ensures r.Ok? ==> var gaps := LocalGaps(names, start, end, timeframe).value;
      AllPrintable(gaps) && |r.value| == |gaps| &&
      forall i :: 0 <= i < |gaps| ==> r.value[i] == MissingLabel(gaps[i].0, gaps[i].1)
  {
    var parsed := ParseTimeframe(timeframe);
    if parsed.Err? {
      return Err(parsed.error);
    }
    r := ScanDays(names, ParseTimeRange, GapLabel, parsed.value, start, end);
    MissingFromPrintable(ParseAll(ParseTimeRange, names), parsed.value, start, end);
    if r.Ok? {
      LabelsPointwise(GapLabel, LocalGaps(names, start, end, timeframe).value);
    }
  }

  /** The day loop of `_check_local_data`, once the timeframe is known. */
  method ScanDays(names: seq<string>, parse: string -> Result<Span, Error>, show: Span -> string, delta: int, start: int, end: int)
    returns (r: Result<seq<string>, Error>)
    ensures r.Ok? <==> MissingFrom(ParseAll(parse, names), delta, start, end).Ok?
    ensures r.Ok? ==> r.value == Labels(show, MissingFrom(ParseAll(parse, names), delta, start, end).value)
  {
    var current, missing;
    ghost var found, days;
    r, current, missing, found, days := ScanLoop(names, parse, show, delta, start, end);
    if r.Ok? {
      ScanComplete(ParseAll(parse, names), delta, start, end, current, days, found);
    }
  }

  /**
   * The `while` loop of the day scan: it stops past the last day with the
   * labels of every visited day, or at the first day that raises.
   */
  method ScanLoop(names: seq<string>, parse: string -> Result<Span, Error>, show: Span -> string, delta: int, start: int, end: int)
    returns (r: Result<seq<string>, Error>, current: int, missing: seq<string>, ghost found: seq<Span>, ghost days: nat)
    ensures r.Err? ==> MissingFrom(ParseAll(parse, names), delta, start, end).Err?
    ensures r.Ok? ==> r.value == missing && missing == Labels(show, found)
    ensures r.Ok? ==> current == start + days * MinutesPerDay && (current == start || current <= end)
    ensures r.Ok? ==> current > end - MinutesPerDay && ScannedTo(ParseAll(parse, names), delta, start, current) == Ok(found)
  {
    missing := [];
    found := [];
    var endAdjusted := end - MinutesPerDay;
    current := start;
    days := 0;
    while current <= endAdjusted
      invariant current == start + days * MinutesPerDay && (current == start || current <= end)
      invariant ScannedTo(ParseAll(parse, names), delta, start, current) == Ok(found)
      invariant missing == Labels(show, found)
      decreases end - current
    {
      var step;
      step, found := ScanOneDay(names, parse, show, delta, start, current, end, days, found, missing);
      if step.Err? {
        return Err(step.error), current, missing, found, days;
      }
      missing := step.value;
      current := current + MinutesPerDay;
      days := days + 1;
    }
    r := Ok(missing);
  }

  /**
   * The gaps of the days the scan visits from `start` before it reaches
   * `cur`, in order; the first day whose coverage cannot be collected
   * raises.
   */
  function ScannedTo(ranges: seq<Result<Span, Error>>, delta: int, start: int, cur: int): Result<seq<Span>, Error>
    decreases cur - start
  {
    if cur <= start then Ok([])
    else
      match ScannedTo(ranges, delta, start, cur - MinutesPerDay)
      case Err(e) => Err(e)
      case Ok(found) =>
        var dayStart := DayStartOf(cur - MinutesPerDay);
        match DayCoverage(ranges, delta, dayStart)
        case Err(e) => Err(e)
        case Ok(cov) => Ok(found + Gaps(cov, dayStart, dayStart + MinutesPerDay))
  }

  /**
   * One pass of the day loop: the coverage and gaps of the day holding
   * `cur`, their labels appended to those found so far.
   */
  method ScanOneDay(names: seq<string>, parse: string -> Result<Span, Error>, show: Span -> string, delta: int,
                    start: int, cur: int, end: int, ghost days: nat, ghost found: seq<Span>, missing: seq<string>)
    returns (r: Result<seq<string>, Error>, ghost found': seq<Span>)
    requires cur == start + days * MinutesPerDay && cur <= end - MinutesPerDay
    requires ScannedTo(ParseAll(parse, names), delta, start, cur) == Ok(found) && missing == Labels(show, found)
    ensures r.Err? ==> MissingFrom(ParseAll(parse, names), delta, start, end).Err?
    ensures r.Ok? ==> ScannedTo(ParseAll(parse, names), delta, start, cur + MinutesPerDay) == Ok(found')
    ensures r.Ok? ==> r.value == Labels(show, found')
  {
    found' := found;
    var day := VisitDay(names, parse, delta, DayStartOf(cur));
    if day.Err? {
      ScanFails(ParseAll(parse, names), delta, start, end, cur, days);
      return Err(day.error), found';
    }
    var gaps := day.value;
    ScannedStep(ParseAll(parse, names), delta, start, cur);
    LabelsAppend(show, found, gaps);
    found' := found + gaps;
    r := Ok(missing + Labels(show, gaps));
  }

  /** The coverage of one day and its uncovered runs; the first name that does not parse raises. */
  method VisitDay(names: seq<string>, parse: string -> Result<Span, Error>, delta: int, dayStart: int)
    returns (r: Result<seq<Span>, Error>)
    ensures r.Err? <==> DayCoverage(ParseAll(parse, names), delta, dayStart).Err?
    ensures r.Ok? ==> r.value == Gaps(DayCoverage(ParseAll(parse, names), delta, dayStart).value, dayStart, dayStart + MinutesPerDay)
  {
    var covered := CollectCoverage(names, parse, delta, dayStart);
    if covered.Err? {
      return Err(covered.error);
    }
    var gaps := ScanDay(covered.value, dayStart);
    r := Ok(gaps);
  }

  lemma ScannedStep(ranges: seq<Result<Span, Error>>, delta: int, start: int, cur: int)
    requires start <= cur
    ensures ScannedTo(ranges, delta, start, cur).Ok? && DayCoverage(ranges, delta, DayStartOf(cur)).Ok? ==>
      ScannedTo(ranges, delta, start, cur + MinutesPerDay) ==
        Ok(ScannedTo(ranges, delta, start, cur).value +
           Gaps(DayCoverage(ranges, delta, DayStartOf(cur)).value, DayStartOf(cur), DayStartOf(cur) + MinutesPerDay))
    ensures DayCoverage(ranges, delta, DayStartOf(cur)).Err? ==> ScannedTo(ranges, delta, start, cur + MinutesPerDay).Err?
  {
    assert cur + MinutesPerDay - MinutesPerDay == cur;
  }

  /** The days scanned so far followed by the rest of the scan make up the whole scan. */
  lemma {:induction false} ScannedAgrees(ranges: seq<Result<Span, Error>>, delta: int, start: int, end: int, cur: int, days: nat)
    requires cur == start + days * MinutesPerDay && (cur == start || cur <= end)
    ensures ScannedTo(ranges, delta, start, cur).Err? ==> MissingFrom(ranges, delta, start, end).Err?
    ensures ScannedTo(ranges, delta, start, cur).Ok? ==>
      MissingFrom(ranges, delta, start, end) == After(ScannedTo(ranges, delta, start, cur).value, MissingFrom(ranges, delta, cur, end))
    decreases days
  {
    if days == 0 {
      if MissingFrom(ranges, delta, start, end).Ok? {
        assert [] + MissingFrom(ranges, delta, start, end).value == MissingFrom(ranges, delta, start, end).value;
      }
    } else {
      var prevCur := cur - MinutesPerDay;
      ScannedAgrees(ranges, delta, start, end, prevCur, days - 1);
      ScannedStep(ranges, delta, start, prevCur);
      var prev := ScannedTo(ranges, delta, start, prevCur);
      if prev.Ok? {
        var cov := DayCoverage(ranges, delta, DayStartOf(prevCur));
        if cov.Ok? {
          MissingFromStep(ranges, delta, prevCur, end);
          AfterAfter(prev.value, Gaps(cov.value, DayStartOf(prevCur), DayStartOf(prevCur) + MinutesPerDay), MissingFrom(ranges, delta, cur, end));
        } else {
          MissingFromErr(ranges, delta, prevCur, end);
        }
      }
    }
  }

  /** A day whose coverage cannot be collected makes the whole scan fail. */
  lemma ScanFails(ranges: seq<Result<Span, Error>>, delta: int, start: int, end: int, cur: int, days: nat)
    requires cur == start + days * MinutesPerDay && cur <= end - MinutesPerDay
    requires ScannedTo(ranges, delta, start, cur).Ok? && DayCoverage(ranges, delta, DayStartOf(cur)).Err?
    ensures MissingFrom(ranges, delta, start, end).Err?
  {
    ScannedStep(ranges, delta, start, cur);
    ScannedAgrees(ranges, delta, start, end, cur + MinutesPerDay, days + 1);
  }

  /** Once the scan has passed the last day, what it found is the whole scan. */
  lemma ScanComplete(ranges: seq<Result<Span, Error>>, delta: int, start: int, end: int, cur: int, days: nat, found: seq<Span>)
    requires cur == start + days * MinutesPerDay && (cur == start || cur <= end)
    requires cur > end - MinutesPerDay && ScannedTo(ranges, delta, start, cur) == Ok(found)
    ensures MissingFrom(ranges, delta, start, end) == Ok(found)
  {
    ScannedAgrees(ranges, delta, start, end, cur, days);
    assert found + [] == found;
  }

  /** `prefix` put in front of a successful outcome. */
  function After(prefix: seq<Span>, r: Result<seq<Span>, Error>): Result<seq<Span>, Error>
  {
    if r.Ok? then Ok(prefix + r.value) else r
  }

  lemma AfterAfter(a: seq<Span>, b: seq<Span>, r: Result<seq<Span>, Error>)
    ensures After(a, After(b, r)) == After(a + b, r)
  {
    if r.Ok? {
      assert a + (b + r.value) == (a + b) + r.value;
    }
  }

  lemma LabelsAppend(show: Span -> string, a: seq<Span>, b: seq<Span>)
    ensures Labels(show, a + b) == Labels(show, a) + Labels(show, b)
  {
    var l, r := Labels(show, a + b), Labels(show, a) + Labels(show, b);
    LabelsPointwise(show, a + b);
    LabelsPointwise(show, a);
    LabelsPointwise(show, b);
    assert |l| == |r|;
    forall i | 0 <= i < |l| ensures l[i] == r[i] {
      if i >= |a| {
        assert (a + b)[i] == b[i - |a|];
      }
    }
  }

  lemma MissingFromStep(ranges: seq<Result<Span, Error>>, delta: int, cur: int, end: int)
    requires cur <= end - MinutesPerDay
    requires DayCoverage(ranges, delta, DayStartOf(cur)).Ok?
    ensures MissingFrom(ranges, delta, cur, end) ==
      After(Gaps(DayCoverage(ranges, delta, DayStartOf(cur)).value, DayStartOf(cur), DayStartOf(cur) + MinutesPerDay),
            MissingFrom(ranges, delta, cur + MinutesPerDay, end))
  {
  }

  lemma MissingFromErr(ranges: seq<Result<Span, Error>>, delta: int, cur: int, end: int)
    requires cur <= end - MinutesPerDay
    requires DayCoverage(ranges, delta, DayStartOf(cur)).Err?
    ensures MissingFrom(ranges, delta, cur, end).Err?
  {
  }

  lemma {:induction false} DayCoverageErrPrefix(ranges: seq<Result<Span, Error>>, j: nat, delta: int, dayStart: int)
    requires j <= |ranges| && DayCoverage(ranges[..j], delta, dayStart).Err?
    ensures DayCoverage(ranges, delta, dayStart) == DayCoverage(ranges[..j], delta, dayStart)
    decreases |ranges| - j
  {
    if j < |ranges| {
      assert ranges[..j + 1][..j] == ranges[..j];
      DayCoverageErrPrefix(ranges, j + 1, delta, dayStart);
    } else {
      assert ranges[..j] == ranges;
    }
  }

  /** Every run the scan reports lies between the first visited day and `end`, so within the printable range. */
  lemma {:induction false} MissingFromPrintable(ranges: seq<Result<Span, Error>>, delta: int, cur: int, end: int)
    requires 0 <= cur && Printable(end)
    ensures MissingFrom(ranges, delta, cur, end).Ok? ==> AllPrintable(MissingFrom(ranges, delta, cur, end).value)
    decreases end - cur
  {
    if cur <= end - MinutesPerDay {
      MissingFromPrintable(ranges, delta, cur + MinutesPerDay, end);
      var dayStart := DayStartOf(cur);
      var cov := DayCoverage(ranges, delta, dayStart);
      if cov.Ok? && MissingFrom(ranges, delta, cur, end).Ok? {
        var gaps := Gaps(cov.value, dayStart, dayStart + MinutesPerDay);
        var rest := MissingFrom(ranges, delta, cur + MinutesPerDay, end).value;
        var all: seq<Span> := gaps + rest;
        assert MissingFrom(ranges, delta, cur, end).value == all;
        forall i | 0 <= i < |all|
          ensures Printable(all[i].0) && Printable(all[i].1)
        {
          if i >= |gaps| {
            assert all[i] == rest[i - |gaps|];
          }
        }
      }
    }
  }

  // ---------------------------------------------------------------------------
  // Properties of the scan

  /** Minute `m` lies in one of the runs. */
  predicate InSomeGap(gaps: seq<Span>, m: int)
  {
    exists i :: 0 <= i < |gaps| && gaps[i].0 <= m < gaps[i].1
  }

  /** A minute of [t, dayEnd) is reported missing exactly when no covered interval holds it. */
  lemma {:induction false} GapsExact(cov: seq<Span>, t: int, dayEnd: int, m: int)
    requires t <= m < dayEnd
    ensures InSomeGap(Gaps(cov, t, dayEnd), m) <==> !Covered(cov, m)
    decreases dayEnd - t
  {
    var gaps := Gaps(cov, t, dayEnd);
    if Covered(cov, t) {
      if m > t {
        GapsExact(cov, t + 1, dayEnd, m);
      }
    } else {
      var e := RunEnd(cov, t, dayEnd);
      var rest := Gaps(cov, e, dayEnd);
      assert gaps == [(t, e)] + rest;
      if m < e {
        assert gaps[0].0 <= m < gaps[0].1;
      } else {
        GapsExact(cov, e, dayEnd, m);
        if InSomeGap(rest, m) {
          var i :| 0 <= i < |rest| && rest[i].0 <= m < rest[i].1;
          assert gaps[i + 1] == rest[i];
        }
        if InSomeGap(gaps, m) {
          var i :| 0 <= i < |gaps| && gaps[i].0 <= m < gaps[i].1;
          assert i > 0;
          assert rest[i - 1] == gaps[i];
        }
      }
    }
  }

  /**
   * The runs are maximal: each starts at `t` or just after a covered
   * minute, and ends at `dayEnd` or at a covered minute.
   */
  lemma GapsMaximal(cov: seq<Span>, t: int, dayEnd: int)
    requires t <= dayEnd
    ensures forall i :: 0 <= i < |Gaps(cov, t, dayEnd)| ==>
      (Gaps(cov, t, dayEnd)[i].0 == t || Covered(cov, Gaps(cov, t, dayEnd)[i].0 - 1)) &&
      (Gaps(cov, t, dayEnd)[i].1 == dayEnd || Covered(cov, Gaps(cov, t, dayEnd)[i].1))
  {
    forall i | 0 <= i < |Gaps(cov, t, dayEnd)|
      ensures Gaps(cov, t, dayEnd)[i].0 == t || Covered(cov, Gaps(cov, t, dayEnd)[i].0 - 1)
      ensures Gaps(cov, t, dayEnd)[i].1 == dayEnd || Covered(cov, Gaps(cov, t, dayEnd)[i].1)
    {
      GapStart(cov, t, dayEnd, i);
      GapEnd(cov, t, dayEnd, i);
    }
  }

  /** The run at position `i` starts at `t` or just after a covered minute. */
  lemma {:induction false} GapStart(cov: seq<Span>, t: int, dayEnd: int, i: nat)
    requires t <= dayEnd && i < |Gaps(cov, t, dayEnd)|
    ensures Gaps(cov, t, dayEnd)[i].0 == t || Covered(cov, Gaps(cov, t, dayEnd)[i].0 - 1)
    decreases dayEnd - t
  {
    if Covered(cov, t) {
      GapsSkipCovered(cov, t, dayEnd);
      GapStart(cov, t + 1, dayEnd, i);
      var g := Gaps(cov, t + 1, dayEnd)[i];
      assert Gaps(cov, t, dayEnd)[i] == g;
    } else if i > 0 {
      var e := RunEnd(cov, t, dayEnd);
      GapsAfterRun(cov, t, dayEnd);
      GapStart(cov, e + 1, dayEnd, i - 1);
      var g := Gaps(cov, e + 1, dayEnd)[i - 1];
      assert Gaps(cov, t, dayEnd)[i] == g;
    } else {
      GapsFirstRun(cov, t, dayEnd);
    }
  }

  /** A covered first minute is skipped, and a run at `t + 1` follows a covered minute. */
  lemma GapsSkipCovered(cov: seq<Span>, t: int, dayEnd: int)
    requires t <= dayEnd && Covered(cov, t)
    ensures t < dayEnd ==> Gaps(cov, t, dayEnd) == Gaps(cov, t + 1, dayEnd)
    ensures Covered(cov, (t + 1) - 1)
  {
  }

  /** Without a cover at `t`, the first run starts at `t`. */
  lemma GapsFirstRun(cov: seq<Span>, t: int, dayEnd: int)
    requires t < dayEnd && !Covered(cov, t)
    ensures Gaps(cov, t, dayEnd)[0] == (t, RunEnd(cov, t, dayEnd))
  {
  }

  /** After the first run, the next ones start past the covered minute that ends it. */
  lemma GapsAfterRun(cov: seq<Span>, t: int, dayEnd: int)
    requires t < dayEnd && !Covered(cov, t) && |Gaps(cov, t, dayEnd)| > 1
    ensures var e := RunEnd(cov, t, dayEnd);
      e < dayEnd && Covered(cov, (e + 1) - 1) && |Gaps(cov, e + 1, dayEnd)| == |Gaps(cov, t, dayEnd)| - 1 &&
      forall k :: 0 < k < |Gaps(cov, t, dayEnd)| ==> Gaps(cov, t, dayEnd)[k] == Gaps(cov, e + 1, dayEnd)[k - 1]
  {
    var e := RunEnd(cov, t, dayEnd);
    assert Gaps(cov, t, dayEnd) == [(t, e)] + Gaps(cov, e, dayEnd);
    assert Gaps(cov, e, dayEnd) == Gaps(cov, e + 1, dayEnd);
  }

  /** The run at position `i` ends at `dayEnd` or at a covered minute. */
  lemma {:induction false} GapEnd(cov: seq<Span>, t: int, dayEnd: int, i: nat)
    requires t <= dayEnd && i < |Gaps(cov, t, dayEnd)|
    ensures Gaps(cov, t, dayEnd)[i].1 == dayEnd || Covered(cov, Gaps(cov, t, dayEnd)[i].1)
    decreases dayEnd - t
  {
    var gaps := Gaps(cov, t, dayEnd);
    if Covered(cov, t) {
      assert gaps == Gaps(cov, t + 1, dayEnd);
      GapEnd(cov, t + 1, dayEnd, i);
    } else {
      var e := RunEnd(cov, t, dayEnd);
      var rest := Gaps(cov, e, dayEnd);
      assert gaps == [(t, e)] + rest;
      if i > 0 {
        assert gaps[i] == rest[i - 1];
        assert e < dayEnd && Covered(cov, e);
        assert rest == Gaps(cov, e + 1, dayEnd);
        GapEnd(cov, e + 1, dayEnd, i - 1);
      }
    }
  }

  /** The runs come in order, each strictly before the next, with at least one covered minute between them. */
  lemma GapsSorted(cov: seq<Span>, t: int, dayEnd: int)
    requires t <= dayEnd
    ensures forall i :: 0 < i < |Gaps(cov, t, dayEnd)| ==> Gaps(cov, t, dayEnd)[i - 1].1 < Gaps(cov, t, dayEnd)[i].0
  {
    forall i | 0 < i < |Gaps(cov, t, dayEnd)|
      ensures Gaps(cov, t, dayEnd)[i - 1].1 < Gaps(cov, t, dayEnd)[i].0
    {
      GapOrdered(cov, t, dayEnd, i);
    }
  }

  /** The run at position `i` starts past the end of the one before it. */
  lemma {:induction false} GapOrdered(cov: seq<Span>, t: int, dayEnd: int, i: nat)
    requires t <= dayEnd && 0 < i < |Gaps(cov, t, dayEnd)|
    ensures Gaps(cov, t, dayEnd)[i - 1].1 < Gaps(cov, t, dayEnd)[i].0
    decreases dayEnd - t
  {
    if Covered(cov, t) {
      GapsSkipCovered(cov, t, dayEnd);
      GapOrdered(cov, t + 1, dayEnd, i);
    } else {
      var e := RunEnd(cov, t, dayEnd);
      GapsFirstRun(cov, t, dayEnd);
      GapsAfterRun(cov, t, dayEnd);
      if i > 1 {
        GapOrdered(cov, e + 1, dayEnd, i - 1);
      }
    }
  }

  /** With nothing covered, a day is one run from midnight to midnight. */
  lemma GapsUncovered(t: int, dayEnd: int)
    requires t < dayEnd
    ensures Gaps([], t, dayEnd) == [(t, dayEnd)]
  {
    assert RunEnd([], t, dayEnd) == dayEnd;
    assert Gaps([], dayEnd, dayEnd) == [];
  }

  /** A covered interval spanning the whole of [t, dayEnd) leaves no run. */
  lemma {:induction false} GapsFullyCovered(cov: seq<Span>, k: nat, t: int, dayEnd: int)
    requires t <= dayEnd && k < |cov| && cov[k].0 <= t && dayEnd <= cov[k].1
    ensures Gaps(cov, t, dayEnd) == []
    decreases dayEnd - t
  {
    if t < dayEnd {
      assert Covered(cov, t);
      GapsFullyCovered(cov, k, t + 1, dayEnd);
    }
  }

  /** Without any cache file every visited day is missing as a whole, from its midnight to the next. */
  lemma {:induction false} MissingWithoutFiles(delta: int, cur: int, end: int)
    ensures MissingFrom([], delta, cur, end).Ok?
    ensures var gaps := MissingFrom([], delta, cur, end).value;
      forall i :: 0 <= i < |gaps| ==> gaps[i].0 % MinutesPerDay == 0 && gaps[i].1 == gaps[i].0 + MinutesPerDay
    ensures cur <= end - MinutesPerDay ==> MissingFrom([], delta, cur, end).value[0] == (DayStartOf(cur), DayStartOf(cur) + MinutesPerDay)
    decreases end - cur
  {
    if cur <= end - MinutesPerDay {
      var dayStart := DayStartOf(cur);
      assert DayCoverage([], delta, dayStart) == Ok([]);
      GapsUncovered(dayStart, dayStart + MinutesPerDay);
      MissingWithoutFiles(delta, cur + MinutesPerDay, end);
    }
  }

  /**
   * The scan fails exactly when the timeframe is refused, or when at least
   * one day is visited and some file name of the listing does not parse.
   */
  lemma LocalGapsFails(names: seq<string>, start: int, end: int, timeframe: string)
    ensures LocalGaps(names, start, end, timeframe).Err? <==>
      ParseTimeframe(timeframe).Err? ||
      (start <= end - MinutesPerDay && exists i :: 0 <= i < |names| && ParseTimeRange(names[i]).Err?)
  {
    if ParseTimeframe(timeframe).Ok? {
      var ranges := ParseAll(ParseTimeRange, names);
      MissingFromFails(ranges, ParseTimeframe(timeframe).value, start, end);
      if exists i :: 0 <= i < |ranges| && ranges[i].Err? {
        var i :| 0 <= i < |ranges| && ranges[i].Err?;
        assert ParseTimeRange(names[i]).Err?;
      }
    }
  }

  lemma {:induction false} MissingFromFails(ranges: seq<Result<Span, Error>>, delta: int, cur: int, end: int)
    ensures MissingFrom(ranges, delta, cur, end).Err? <==>
      cur <= end - MinutesPerDay && exists i :: 0 <= i < |ranges| && ranges[i].Err?
    decreases end - cur
  {
    if cur <= end - MinutesPerDay {
      DayCoverageOk(ranges, delta, DayStartOf(cur));
      MissingFromFails(ranges, delta, cur + MinutesPerDay, end);
    }
  }

  /** Each label reported re-lays out, in `_format_missing_data`, as the RFC 3339 forms of its run's two ends. */
  lemma LabelsFormat(gaps: seq<Span>)
    requires AllPrintable(gaps)
    ensures forall i :: 0 <= i < |gaps| ==>
      FormatMissingPeriod(Labels(GapLabel, gaps)[i]) == Ok((FormatRfc3339(gaps[i].0), FormatRfc3339(gaps[i].1)))
  {
    LabelsPointwise(GapLabel, gaps);
    forall i | 0 <= i < |gaps|
      ensures FormatMissingPeriod(Labels(GapLabel, gaps)[i]) == Ok((FormatRfc3339(gaps[i].0), FormatRfc3339(gaps[i].1)))
    {
      FormatMissingLabel(gaps[i].0, gaps[i].1);
    }
  }
}
