/**
 * Two small helpers: `split_letters_numbers` (utils/string.py), which cuts a
 * string such as a timeframe at its first digit, and `verify_series`
 * (utils/pandas_ta.py), which passes a series through only when it is long
 * enough.
 */
module Utils {
  import opened Common

  /** `str.isdigit` on the ASCII digits. */
  predicate IsDigit(c: char) { '0' <= c <= '9' }

  /**
   * `split_letters_numbers(s)`: the part before the first digit and the rest,
   * or the whole string and `''` when there is no digit. The two parts put
   * back together are `s`, the first holds no digit, and the second is empty
   * or starts with a digit.
   */
  method SplitLettersNumbers(s: string) returns (letters: string, numbers: string)
    ensures letters + numbers == s
    ensures forall i :: 0 <= i < |letters| ==> !IsDigit(letters[i])
    ensures numbers == [] || IsDigit(numbers[0])
  {
    var i := 0;
    while i < |s|
      invariant i <= |s|
      invariant forall j :: 0 <= j < i ==> !IsDigit(s[j])
    {
      if IsDigit(s[i]) {
        assert s[..i] + s[i..] == s;
        return s[..i], s[i..];
      }
      i := i + 1;
    }
    return s, "";
  }

  /** The index of the first digit of `s`, or `|s|` when it has none. */
  function FirstDigit(s: string): (k: nat)
    ensures k <= |s|
  {
    if s == [] then 0 else if IsDigit(s[0]) then 0 else 1 + FirstDigit(s[1..])
  }

  /** A split with those three facts cuts `s` at its first digit. */
  lemma {:induction false} SplitAtFirstDigit(s: string, a: string, b: string)
    requires a + b == s && (forall i :: 0 <= i < |a| ==> !IsDigit(a[i])) && (b == [] || IsDigit(b[0]))
    ensures |a| == FirstDigit(s)
    decreases |a|
  {
    if a != [] {
      assert s[0] == a[0];
      assert a[1..] + b == s[1..];
      SplitAtFirstDigit(s[1..], a[1..], b);
    } else if b != [] {
      assert s[0] == b[0];
    }
  }

  /** Those three facts fix the split: any two pairs of strings with them are equal. */
  lemma SplitUnique(s: string, a: string, b: string, c: string, d: string)
    requires a + b == s && (forall i :: 0 <= i < |a| ==> !IsDigit(a[i])) && (b == [] || IsDigit(b[0]))
    requires c + d == s && (forall i :: 0 <= i < |c| ==> !IsDigit(c[i])) && (d == [] || IsDigit(d[0]))
    ensures a == c && b == d
  {
    SplitAtFirstDigit(s, a, b);
    SplitAtFirstDigit(s, c, d);
    assert a == s[..|a|] && c == s[..|c|];
    assert b == s[|a|..] && d == s[|c|..];
  }

  /** The `series` argument: a pandas Series (its values), or anything else, `None` included. */
  datatype SeriesArg = Series(values: seq<real>) | NotSeries

  /**
   * `verify_series(series, min_length)`: a Series comes back unchanged unless
   * an integer `min_length` is given and the Series is shorter; anything
   * else gives `None`. `minLength` is `None` for both `None` and a non-integer.
   */
  function VerifySeries(series: SeriesArg, minLength: Option<int>): (r: Option<seq<real>>)
    ensures r.Some? <==> series.Series? && (minLength.None? || |series.values| >= minLength.value)
    ensures r.Some? ==> r.value == series.values
  {
    var hasLength := minLength.Some?;
    if series.Series? then
      if hasLength && |series.values| < minLength.value then None else Some(series.values)
    else None
  }

  /** A series that passed the check passes it again unchanged. */
  lemma VerifySeriesIdempotent(series: SeriesArg, minLength: Option<int>)
    requires VerifySeries(series, minLength).Some?
    ensures VerifySeries(Series(VerifySeries(series, minLength).value), minLength) == VerifySeries(series, minLength)
  {
  }
}
