/**
 * Daily price bars and the small numeric helpers (trailing windows, sums and
 * means) that the pattern engine is built from.
 */
module Bars {

  /** The absent value: pandas' NaN, a missing column, or Python's None. */
  datatype Option<+T> = None | Some(value: T)

  /** pandas' `dayofweek`: 0 is Monday, 6 is Sunday. */
  type Weekday = d: int | 0 <= d <= 6

  const MONDAY: Weekday := 0
  const THURSDAY: Weekday := 3
  const FRIDAY: Weekday := 4

  /** Market prices and volumes are never negative. */
  type Price = x: real | 0.0 <= x

  /**
   * One row of the downloaded OHLCV frame. The date index is reduced to the
   * only thing the engine looks at, its weekday.
   */
  datatype Bar = Bar(weekday: Weekday, open: Price, high: Price, low: Price, close: Price, volume: Price)

  /** `frame.tail(n)`: the last `n` elements, or all of them when there are fewer. */
  function Tail<T>(s: seq<T>, n: nat): (r: seq<T>)
    ensures |r| == if |s| < n then |s| else n
    ensures r == s[|s| - |r|..]
  {
    if |s| <= n then s else s[|s| - n..]
  }

  function Sum(s: seq<real>): real
  {
    if s == [] then 0.0 else Sum(s[..|s| - 1]) + s[|s| - 1]
  }

  function Mean(s: seq<real>): real
    requires |s| > 0
  {
    Sum(s) / (|s| as real)
  }

  /** A sum of `n` values that are all at least `lo` is at least `n * lo`. */
  lemma {:induction false} SumLowerBound(s: seq<real>, lo: real)
    requires forall k :: 0 <= k < |s| ==> lo <= s[k]
    ensures lo * (|s| as real) <= Sum(s)
  {
    if s != [] {
      SumLowerBound(s[..|s| - 1], lo);
    }
  }

  /** A sum of `n` values that are all at most `hi` is at most `n * hi`. */
  lemma {:induction false} SumUpperBound(s: seq<real>, hi: real)
    requires forall k :: 0 <= k < |s| ==> s[k] <= hi
    ensures Sum(s) <= hi * (|s| as real)
  {
    if s != [] {
      SumUpperBound(s[..|s| - 1], hi);
    }
  }

  /** A mean is at least any lower bound of the values it averages. */
  lemma MeanAtLeast(s: seq<real>, lo: real)
    requires |s| > 0
    requires forall k :: 0 <= k < |s| ==> lo <= s[k]
    ensures lo <= Mean(s)
  {
    SumLowerBound(s, lo);
    assert Mean(s) * (|s| as real) == Sum(s);
  }

  /** A mean is at most any upper bound of the values it averages. */
  lemma MeanAtMost(s: seq<real>, hi: real)
    requires |s| > 0
    requires forall k :: 0 <= k < |s| ==> s[k] <= hi
    ensures Mean(s) <= hi
  {
    SumUpperBound(s, hi);
    assert Mean(s) * (|s| as real) == Sum(s);
  }

  /** A sum of nonnegative values is zero exactly when every value is zero. */
  lemma {:induction false} SumZeroIffAllZero(s: seq<real>)
    requires forall k :: 0 <= k < |s| ==> 0.0 <= s[k]
    ensures Sum(s) == 0.0 <==> forall k :: 0 <= k < |s| ==> s[k] == 0.0
  {
    if s != [] {
      var init := s[..|s| - 1];
      assert forall k :: 0 <= k < |init| ==> init[k] == s[k];
      SumZeroIffAllZero(init);
      SumLowerBound(init, 0.0);
    }
  }
}
