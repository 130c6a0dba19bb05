/**
 * Shared value types: the optional and error-carrying results that stand for
 * Python's `None`, pandas' NaN and raised exceptions, `abs`, and the sum
 * of a column that the backtest's accounting is written in terms of.
 */
module Common {

  datatype Option<+T> = None | Some(value: T)

  datatype Result<+T, +E> = Ok(value: T) | Err(error: E)

  /** The exception kinds the modelled code raises. */
  datatype Error =
    | ValueError
    | IndexError
    | TypeError
    | ZeroDivisionError
    | KeyError
    | AttributeError
    | UnboundLocalError
    | BareException

  /** A `symbol` argument (of `get_klines` and `backtest`): a string, a list of strings, or anything else. */
  datatype SymbolArg = One(symbol: string) | Many(symbols: seq<string>) | Neither

  /** Python's `abs` on a float. */
  function Abs(x: real): real { if x < 0.0 then -x else x }

  /** Sum of a column, folded from the left as `Series.sum` and `cumsum` do. */
  function Sum(s: seq<real>): real
  {
    if s == [] then 0.0 else Sum(s[..|s| - 1]) + s[|s| - 1]
  }

  lemma {:induction false} SumAppend(s: seq<real>, t: seq<real>)
    ensures Sum(s + t) == Sum(s) + Sum(t)
    decreases |t|
  {
    if t == [] {
      assert s + t == s;
    } else {
      assert (s + t)[..|s + t| - 1] == s + t[..|t| - 1];
      SumAppend(s, t[..|t| - 1]);
    }
  }
}
