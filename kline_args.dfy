/**
 * Argument handling of the bar cache (data.py): the symbol check of
 * `_check_symbol`, the timeframe of `_parse_timeframe` (used for the
 * coverage of a cache file) and the custom timeframe of
 * `_convert_to_minutes` (used for resampling). Timeframes are returned in
 * minutes.
 */
module KlineArgs {
  import opened Common
  import opened Timestamps

  // ---------------------------------------------------------------------------
  // Symbols

  /** Every `from` replaced by `to`, as `str.replace` does. */
  function ReplaceAll(s: string, from: char, to: char): (r: string)
    ensures |r| == |s|
    ensures forall i :: 0 <= i < |s| ==> r[i] == if s[i] == from then to else s[i]
  {
    if s == [] then [] else [if s[0] == from then to else s[0]] + ReplaceAll(s[1..], from, to)
  }

  /**
   * `_check_symbol`: an empty symbol, or one with neither '/' nor '_',
   * raises; a symbol with '_' has every '_' turned into '/'; any other
   * symbol is returned unchanged.
   */
  function CheckSymbol(symbol: string): (r: Result<string, Error>)
    ensures r.Err? <==> symbol == [] || ('/' !in symbol && '_' !in symbol)
    ensures r.Ok? ==> |r.value| == |symbol| && '/' in r.value && '_' !in r.value
    ensures r.Ok? ==> forall i :: 0 <= i < |symbol| ==> r.value[i] == if symbol[i] == '_' then '/' else symbol[i]
  {
    if symbol == [] then Err(BareException)
    else if '/' !in symbol && '_' !in symbol then Err(BareException)
    else if '_' in symbol then
      var r := ReplaceAll(symbol, '_', '/');
      assert exists i :: 0 <= i < |symbol| && symbol[i] == '_';
      assert '/' in r;
      Ok(r)
    else Ok(symbol)
  }

  // ---------------------------------------------------------------------------
  // Numerals

  /** Decimal digits of a natural number, without leading zeros. */
  function ShowNat(n: nat): (s: string)
    ensures |s| > 0
  {
    if n < 10 then [DigitChar(n)] else ShowNat(n / 10) + [DigitChar(n % 10)]
  }

  lemma {:induction false} ParseShowNat(n: nat)
    ensures ParseDigits(ShowNat(n)) == Some(n)
    ensures forall i :: 0 <= i < |ShowNat(n)| ==> IsDigit(ShowNat(n)[i])
  {
    var s := ShowNat(n);
    if n < 10 {
      assert s[..|s| - 1] == [];
    } else {
      ParseShowNat(n / 10);
      assert s[..|s| - 1] == ShowNat(n / 10);
    }
  }

  /** `int(s)` for an optionally signed run of ASCII digits; None where `int` raises ValueError. */
  function ParseInt(s: string): Option<int>
  {
    if s == [] then None
    else if s[0] == '-' || s[0] == '+' then
      if |s| == 1 then None
      else match ParseDigits(s[1..])
        case None => None
        case Some(v) => Some(if s[0] == '-' then -(v as int) else v)
    else match ParseDigits(s)
      case None => None
      case Some(v) => Some(v)
  }

  function Pow10(k: nat): (p: nat)
    ensures p >= 1
  {
    if k == 0 then 1 else 10 * Pow10(k - 1)
  }

  /** Index of the first occurrence of `c`, if any. */
  function IndexOf(s: string, c: char): (r: Option<nat>)
    ensures r.Some? ==> r.value < |s| && s[r.value] == c && c !in s[..r.value]
    ensures r.None? <==> c !in s
  {
    if s == [] then None
    else if s[0] == c then Some(0)
    else match IndexOf(s[1..], c)
      case None => None
      case Some(i) => (assert s[..i + 1] == [s[0]] + s[1..][..i]; Some(i + 1))
  }

  /** A decimal numeral `digits[.digits]` with at least one digit, read exactly. */
  function ParseDecimal(s: string): Option<real>
  {
    match IndexOf(s, '.')
    case None =>
      if s == [] then None
      else (match ParseDigits(s)
        case None => None
        case Some(v) => Some(v as real))
    case Some(i) =>
      var whole, frac := s[..i], s[i + 1..];
      if whole == [] && frac == [] then None
      else match (ParseDigits(whole), ParseDigits(frac))
        case (Some(w), Some(f)) => Some(w as real + f as real / Pow10(|frac|) as real)
        case _ => None
  }

  /**
   * `float(s)` for an optionally signed decimal numeral; None where `float`
   * raises ValueError.
   */
  function ParseFloat(s: string): Option<real>
  {
    if s != [] && (s[0] == '-' || s[0] == '+') then
      match ParseDecimal(s[1..])
      case None => None
      case Some(v) => Some(if s[0] == '-' then -v else v)
    else ParseDecimal(s)
  }

  /** `int(x)` of a float: truncation toward zero. */
  function Truncate(x: real): (n: int)
    ensures x >= 0.0 ==> n as real <= x < n as real + 1.0
    ensures x < 0.0 ==> n as real - 1.0 < x <= n as real
  {
    if x >= 0.0 then x.Floor else -((-x).Floor)
  }

  lemma ParseIntShowNat(n: nat)
    ensures ParseInt(ShowNat(n)) == Some(n)
    ensures ParseFloat(ShowNat(n)) == Some(n as real)
  {
    ParseShowNat(n);
    var s := ShowNat(n);
    assert s[0] != '-' && s[0] != '+' by { assert IsDigit(s[0]); }
    assert IndexOf(s, '.') == None by {
      forall i | 0 <= i < |s| ensures s[i] != '.' { assert IsDigit(s[i]); }
    }
  }

  // ---------------------------------------------------------------------------
  // Timeframes

  /**
   * `_parse_timeframe`: 'Nm', 'Nh' and 'Nd' are N minutes, hours and days
   * (returned in minutes); any other suffix, or a count `int` rejects,
   * raises ValueError.
   */
  function ParseTimeframe(timeframe: string): Result<int, Error>
  {
    if timeframe == [] then Err(ValueError)
    else
      var unit, count := timeframe[|timeframe| - 1], ParseInt(timeframe[..|timeframe| - 1]);
      if unit != 'm' && unit != 'h' && unit != 'd' then Err(ValueError)
      else match count
        case None => Err(ValueError)
        case Some(n) =>
          Ok(if unit == 'm' then n else if unit == 'h' then n * MinutesPerHour else n * MinutesPerDay)
  }

  /**
   * An amount of one of `_convert_to_minutes`' units counted in minutes: m,
   * h, d, w and M are 1, 60, 1440, 10080 and 43200 minutes (a month counts
   * as 30 days); any other unit is `None`.
   */
  function InMinutes(amount: real, unit: char): Option<real>
  {
    if unit == 'm' then Some(amount)
    else if unit == 'h' then Some(amount * 60.0)
    else if unit == 'd' then Some(amount * 1440.0)
    else if unit == 'w' then Some(amount * 10080.0)
    else if unit == 'M' then Some(amount * 43200.0)
    else None
  }

  /**
   * `_convert_to_minutes`: the count (a float) times the unit's minutes,
   * truncated toward zero. An empty string raises IndexError, a count
   * `float` rejects or an unknown unit raises ValueError.
   */
  function ConvertToMinutes(timeframe: string): Result<int, Error>
  {
    if timeframe == [] then Err(IndexError)
    else
      match ParseFloat(timeframe[..|timeframe| - 1])
      case None => Err(ValueError)
      case Some(amount) =>
        match InMinutes(amount, timeframe[|timeframe| - 1])
        case None => Err(ValueError)
        case Some(minutes) => Ok(Truncate(minutes))
  }

  /** 'Nm', 'Nh' and 'Nd' parse to N, 60N and 1440N minutes; every other unit letter is refused. */
  lemma ParseTimeframeOfCount(n: nat, unit: char)
    ensures ParseTimeframe(ShowNat(n) + [unit]) ==
      if unit == 'm' then Ok(n)
      else if unit == 'h' then Ok(n * 60)
      else if unit == 'd' then Ok(n * 1440)
      else Err(ValueError)
  {
    var tf := ShowNat(n) + [unit];
    assert tf[..|tf| - 1] == ShowNat(n);
    ParseIntShowNat(n);
  }

  /** 'N' followed by m, h, d, w or M converts to N times 1, 60, 1440, 10080 or 43200 minutes. */
  lemma ConvertToMinutesOfCount(n: nat, unit: char)
    ensures ConvertToMinutes(ShowNat(n) + [unit]) ==
      if unit == 'm' then Ok(n)
      else if unit == 'h' then Ok(n * 60)
      else if unit == 'd' then Ok(n * 1440)
      else if unit == 'w' then Ok(n * 10080)
      else if unit == 'M' then Ok(n * 43200)
      else Err(ValueError)
  {
    var tf := ShowNat(n) + [unit];
    assert tf[..|tf| - 1] == ShowNat(n);
    assert tf[|tf| - 1] == unit;
    ParseIntShowNat(n);
    assert ParseFloat(tf[..|tf| - 1]) == Some(n as real);
    var m := if unit == 'm' then n else if unit == 'h' then n * 60 else if unit == 'd' then n * 1440
      else if unit == 'w' then n * 10080 else n * 43200;
    if InMinutes(n as real, unit).Some? {
      assert InMinutes(n as real, unit) == Some(m as real);
      TruncateWhole(m);
      assert ConvertToMinutes(tf) == Ok(m);
    }
  }

  lemma TruncateWhole(m: int)
    ensures Truncate(m as real) == m
  {
  }

  /** A fractional count is truncated toward zero: half a minute is no minute, 1.5 hours is 90. */
  lemma ConvertToMinutesTruncates()
    ensures ConvertToMinutes("0.5m") == Ok(0)
    ensures ConvertToMinutes("1.5h") == Ok(90)
    ensures ConvertToMinutes("-0.5h") == Ok(-30)
  {
    ConvertHalfMinute();
    ConvertHourAndHalf();
    ConvertMinusHalfHour();
  }

  lemma ConvertHalfMinute()
    ensures ConvertToMinutes("0.5m") == Ok(0)
  {
    ParseHalf();
    var tf := "0.5m";
    assert tf[..|tf| - 1] == "0.5" && tf[|tf| - 1] == 'm';
    assert ParseFloat("0.5") == Some(0.5);
    assert Truncate(0.5) == 0;
  }

  lemma ConvertHourAndHalf()
    ensures ConvertToMinutes("1.5h") == Ok(90)
  {
    ParseOneAndHalf();
    var tf := "1.5h";
    assert tf[..|tf| - 1] == "1.5" && tf[|tf| - 1] == 'h';
    assert ParseFloat("1.5") == Some(1.5);
    assert Truncate(1.5 * 60.0) == 90;
  }

  lemma ConvertMinusHalfHour()
    ensures ConvertToMinutes("-0.5h") == Ok(-30)
  {
    ParseHalf();
    var tf := "-0.5h";
    assert tf[..|tf| - 1] == "-0.5" && tf[|tf| - 1] == 'h';
    var num := "-0.5";
    assert num[0] == '-' && num[1..] == "0.5";
    assert ParseFloat(num) == Some(-0.5);
    assert Truncate(-0.5 * 60.0) == -30;
  }

  lemma ParseHalf()
    ensures ParseDecimal("0.5") == Some(0.5)
  {
    assert "0.5"[..1] == "0" && "0.5"[2..] == "5";
    assert ParseDigits("0") == Some(0) by { assert "0"[..0] == []; }
    assert ParseDigits("5") == Some(5) by { assert "5"[..0] == []; }
    assert IndexOf("0.5", '.') == Some(1);
  }

  lemma ParseOneAndHalf()
    ensures ParseDecimal("1.5") == Some(1.5)
  {
    assert "1.5"[..1] == "1" && "1.5"[2..] == "5";
    assert ParseDigits("1") == Some(1) by { assert "1"[..0] == []; }
    assert ParseDigits("5") == Some(5) by { assert "5"[..0] == []; }
    assert IndexOf("1.5", '.') == Some(1);
  }
}
