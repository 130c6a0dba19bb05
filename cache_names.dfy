/**
 * Names in the local bar cache. A day file is named
 * `'{start} - {end}.csv'` with both ends in the `%Y-%m-%d-%H:%M` layout
 * (data.py, `_save_data`), and `_parse_time_range` reads a name back into
 * its two timestamps. A gap found by `_check_local_data` is labelled
 * `'{start} - {end}'` in the same layout, and `_format_missing_data` turns
 * each label into a pair of `%Y-%m-%dT%H:%M:%SZ` strings for the exchange.
 */
module CacheNames {
  import opened Common
  import opened Timestamps

  const Separator: string := " - "
  const Extension: string := ".csv"

  /** `str.split(sep)`: the pieces between non-overlapping occurrences, scanned left to right. */
  function Split(s: string, sep: string): (parts: seq<string>)
    requires |sep| > 0
    ensures |parts| > 0
    decreases |s|
  {
    if |s| < |sep| then [s]
    else if s[..|sep|] == sep then [[]] + Split(s[|sep|..], sep)
    else
      var rest := Split(s[1..], sep);
      [[s[0]] + rest[0]] + rest[1..]
  }

  /** Index of the last occurrence of `c`. */
  function LastIndexOf(s: string, c: char): (r: Option<nat>)
    ensures r.Some? ==> r.value < |s| && s[r.value] == c && forall j :: r.value < j < |s| ==> s[j] != c
    ensures r.None? ==> forall j :: 0 <= j < |s| ==> s[j] != c
  {
    if s == [] then None
    else if s[|s| - 1] == c then Some(|s| - 1)
    else LastIndexOf(s[..|s| - 1], c)
  }

  /** `name.rsplit('.', 1)[0]`: the name without its last extension. */
  function StripExtension(name: string): string
  {
    match LastIndexOf(name, '.')
    case None => name
    case Some(i) => name[..i]
  }

  /** The file name `_save_data` gives to a day file holding bars from `start` to `end`. */
  function FileName(start: int, end: int): string
    requires Printable(start) && Printable(end)
  {
    FormatStamp(start) + Separator + FormatStamp(end) + Extension
  }

  /**
   * `_parse_time_range`: the two timestamps encoded in a file name. A name
   * that does not split into exactly two stamps, or a stamp strptime
   * rejects, raises ValueError.
   */
  function ParseTimeRange(name: string): Result<(int, int), Error>
  {
    var parts := Split(StripExtension(name), Separator);
    if |parts| != 2 then Err(ValueError)
    else
      match (ParseStamp(parts[0]), ParseStamp(parts[1]))
      case (Some(a), Some(b)) => Ok((a, b))
      case _ => Err(ValueError)
  }

  /** The label `_check_local_data` appends for the gap [start, end). */
  function MissingLabel(start: int, end: int): string
    requires Printable(start) && Printable(end)
  {
    FormatStamp(start) + Separator + FormatStamp(end)
  }

  /** One iteration of `_format_missing_data`: re-layout a gap label for the exchange. */
  function FormatMissingPeriod(gapLabel: string): Result<(string, string), Error>
  {
    var parts := Split(gapLabel, Separator);
    if |parts| != 2 then Err(ValueError)
    else
      match (ParseStamp(parts[0]), ParseStamp(parts[1]))
      case (Some(a), Some(b)) =>
        if Printable(a) && Printable(b) then Ok((FormatRfc3339(a), FormatRfc3339(b))) else Err(ValueError)
      case _ => Err(ValueError)
  }

  /**
   * `_format_missing_data`: every label re-laid out, in order; the first
   * label that does not parse raises.
   */
  method FormatMissingData(labels: seq<string>) returns (r: Result<seq<(string, string)>, Error>)
    ensures r.Ok? <==> forall i :: 0 <= i < |labels| ==> FormatMissingPeriod(labels[i]).Ok?
    ensures r.Ok? ==> |r.value| == |labels|
    ensures r.Ok? ==> forall i :: 0 <= i < |labels| ==> r.value[i] == FormatMissingPeriod(labels[i]).value
  {
    var formatted: seq<(string, string)> := [];
    var i := 0;
    while i < |labels|
      invariant i <= |labels| && |formatted| == i
      invariant forall k :: 0 <= k < i ==> FormatMissingPeriod(labels[k]) == Ok(formatted[k])
    {
      var period := FormatMissingPeriod(labels[i]);
      if period.Err? {
        assert !FormatMissingPeriod(labels[i]).Ok?;
        r := Err(period.error);
        return;
      }
      formatted := formatted + [period.value];
      i := i + 1;
    }
    r := Ok(formatted);
  }

  // ---------------------------------------------------------------------------
  // Round trips

  lemma StampHasNoSpaceOrDot(t: int)
    requires Printable(t)
    ensures forall i :: 0 <= i < |FormatStamp(t)| ==> FormatStamp(t)[i] != ' ' && FormatStamp(t)[i] != '.'
  {
    var s := FormatStamp(t);
    forall i | 0 <= i < |s|
      ensures s[i] != ' ' && s[i] != '.'
    {
      assert IsDigit(s[i]) || s[i] == '-' || s[i] == ':';
    }
  }

  lemma {:induction false} SplitWithoutSeparator(s: string)
    requires forall i :: 0 <= i < |s| ==> s[i] != ' '
    ensures Split(s, Separator) == [s]
    decreases |s|
  {
    if |s| >= |Separator| {
      assert s[..|Separator|][0] != Separator[0];
      SplitWithoutSeparator(s[1..]);
      assert [s[0]] + s[1..] == s;
    }
  }

  lemma {:induction false} SplitAtSeparator(a: string, b: string)
    requires forall i :: 0 <= i < |a| ==> a[i] != ' '
    ensures Split(a + Separator + b, Separator) == [a] + Split(b, Separator)
    decreases |a|
  {
    var s := a + Separator + b;
    if a == [] {
      assert s[..|Separator|] == Separator;
      assert s[|Separator|..] == b;
    } else {
      assert s[..|Separator|][0] == a[0];
      assert s[1..] == a[1..] + Separator + b;
      SplitAtSeparator(a[1..], b);
      assert [a[0]] + a[1..] == a;
    }
  }

  lemma SplitPair(a: string, b: string)
    requires forall i :: 0 <= i < |a| ==> a[i] != ' '
    requires forall i :: 0 <= i < |b| ==> b[i] != ' '
    ensures Split(a + Separator + b, Separator) == [a, b]
  {
    SplitAtSeparator(a, b);
    SplitWithoutSeparator(b);
  }

  /** The file name written for a day file reads back as exactly its first and last minute. */
  lemma ParseFileName(start: int, end: int)
    requires Printable(start) && Printable(end)
    ensures ParseTimeRange(FileName(start, end)) == Ok((start, end))
  {
    var a, b := FormatStamp(start), FormatStamp(end);
    StampHasNoSpaceOrDot(start);
    StampHasNoSpaceOrDot(end);
    var stem := a + Separator + b;
    var name := stem + Extension;
    assert name == FileName(start, end);
    assert name[|stem|] == '.';
    var dot := LastIndexOf(name, '.');
    assert dot == Some(|stem|) by {
      forall j | 0 <= j < |stem| ensures name[j] != '.' {
        assert name[j] == stem[j];
        if j >= |a| + |Separator| {
          assert stem[j] == b[j - |a| - |Separator|];
        } else if j < |a| {
          assert stem[j] == a[j];
        }
      }
    }
    assert StripExtension(name) == stem;
    SplitPair(a, b);
    ParseFormatStamp(start);
    ParseFormatStamp(end);
  }

  /** A gap label re-lays out as the RFC 3339 forms of its own two ends. */
  lemma FormatMissingLabel(start: int, end: int)
    requires Printable(start) && Printable(end)
    ensures FormatMissingPeriod(MissingLabel(start, end)) == Ok((FormatRfc3339(start), FormatRfc3339(end)))
  {
    StampHasNoSpaceOrDot(start);
    StampHasNoSpaceOrDot(end);
    SplitPair(FormatStamp(start), FormatStamp(end));
    ParseFormatStamp(start);
    ParseFormatStamp(end);
  }
}
