/**
 * Trade specification and position sizing for a confirmed gap-down:
 * entry at Monday's open, target at Friday's low, stop at Friday's high, and
 * a share count whose loss at the stop stays within 1% of capital.
 */
module Sizing {

  /** Risk budget per trade, in percent of capital. */
  const RISK_PER_TRADE_PCT: real := 1.0

  function Abs(x: real): real
  {
    if x < 0.0 then -x else x
  }

  /**
   * `calculate_position_size`: the position value whose move by
   * `stopDistancePct` percent costs `riskPct` percent of `capital`.
   */
  function PositionSize(capital: real, riskPct: real, stopDistancePct: real): (r: real)
    requires stopDistancePct != 0.0
    ensures r * (stopDistancePct / 100.0) == capital * (riskPct / 100.0)
  {
    capital * (riskPct / 100.0) / (stopDistancePct / 100.0)
  }

  /** Python's `int(x)` on a float: truncation toward zero. */
  function Trunc(x: real): (r: int)
    ensures 0.0 <= x ==> r as real <= x < r as real + 1.0
    ensures x < 0.0 ==> r as real - 1.0 < x <= r as real
    ensures Abs(r as real) <= Abs(x)
    ensures 0.0 <= x ==> 0 <= r
    ensures x <= 0.0 ==> r <= 0
  {
    if 0.0 <= x then x.Floor else -((-x).Floor)
  }

  /** The computed part of a trade signal. */
  datatype Sizing = Sizing(
    entry: real,
    target: real,
    stop: real,
    riskPct: real,
    positionValue: real,
    shares: int,
    position: real,
    profitIfTarget: real,
    lossIfStop: real)

  /**
   * ZeroEntry and ZeroRisk are the two divisions the source leaves unguarded
   * (by the entry, and by the stop distance); here they are outcomes.
   */
  datatype SizingOutcome = ZeroEntry | ZeroRisk | Sized(sizing: Sizing)

  /** The trade-spec block of the Monday scan, for one watchlist row. */
  function SizeTrade(entry: real, target: real, stop: real, capital: real): (r: SizingOutcome)
    ensures r == ZeroEntry <==> entry == 0.0
    ensures r == ZeroRisk <==> entry != 0.0 && stop == entry
    ensures r.Sized? ==> r.sizing.entry == entry && r.sizing.target == target && r.sizing.stop == stop
    ensures r.Sized? ==> r.sizing.riskPct == Abs(stop - entry) / Abs(entry) * 100.0
    ensures r.Sized? ==> r.sizing.position == r.sizing.shares as real * entry
    ensures r.Sized? ==> r.sizing.profitIfTarget == r.sizing.shares as real * (target - entry)
    ensures r.Sized? ==> r.sizing.lossIfStop == r.sizing.shares as real * (entry - stop)
  {
    if entry == 0.0 then ZeroEntry
    else
      var riskPct := Abs((stop - entry) / entry * 100.0);
      RiskPctIsDistance(entry, stop);
      if riskPct == 0.0 then ZeroRisk
      else
        var positionValue := PositionSize(capital, RISK_PER_TRADE_PCT, riskPct);
        var shares := Trunc(positionValue / entry);
        Sized(Sizing(entry, target, stop, riskPct, positionValue, shares,
          shares as real * entry,
          shares as real * (target - entry),
          shares as real * (entry - stop)))
  }

  lemma RiskPctIsDistance(entry: real, stop: real)
    requires entry != 0.0
    ensures Abs((stop - entry) / entry * 100.0) == Abs(stop - entry) / Abs(entry) * 100.0
    ensures Abs((stop - entry) / entry * 100.0) == 0.0 <==> stop == entry
  {
  }

  /** The quantities SizeTrade relates, spelled out for the lemmas below. */
  lemma SizedFacts(entry: real, target: real, stop: real, capital: real)
    requires entry != 0.0 && stop != entry
    ensures var s := SizeTrade(entry, target, stop, capital).sizing;
      && SizeTrade(entry, target, stop, capital).Sized?
      && s.shares == Trunc(s.positionValue / entry)
      && Abs(s.shares as real) <= Abs(s.positionValue / entry)
      && s.lossIfStop == s.shares as real * (entry - stop)
      && s.position == s.shares as real * entry
      && s.positionValue * (Abs(stop - entry) / Abs(entry)) == capital * (RISK_PER_TRADE_PCT / 100.0)
  {
    var s := SizeTrade(entry, target, stop, capital).sizing;
    assert s.riskPct / 100.0 == Abs(stop - entry) / Abs(entry);
  }

  lemma AbsMul(a: real, b: real)
    ensures Abs(a * b) == Abs(a) * Abs(b)
  {
  }

  lemma MulMonotone(a: real, b: real, c: real)
    requires a <= b && 0.0 <= c
    ensures a * c <= b * c
  {
  }

  lemma MulStrict(a: real, b: real, c: real)
    requires a < b && 0.0 < c
    ensures a * c < b * c
  {
  }

  /**
   * Scaling a number `n` no farther from zero than `x`, and of the same sign,
   * never overshoots `x` scaled the same way.
   */
  lemma ScaledDown(x: real, e: real, n: real)
    requires Abs(n) <= Abs(x)
    requires 0.0 <= x ==> 0.0 <= n
    requires x <= 0.0 ==> n <= 0.0
    ensures Abs(n * e) <= Abs(x * e)
    ensures 0.0 <= x * e ==> n * e <= x * e
  {
    if 0.0 <= x {
      assert 0.0 <= n <= x;
      if 0.0 <= e {
        MulMonotone(n, x, e);
        MulMonotone(0.0, n, e);
      } else {
        MulMonotone(n, x, -e);
        MulMonotone(0.0, n, -e);
      }
    } else {
      assert x <= n <= 0.0;
      if 0.0 <= e {
        MulMonotone(x, n, e);
        MulMonotone(n, 0.0, e);
      } else {
        MulMonotone(x, n, -e);
        MulMonotone(n, 0.0, -e);
      }
    }
  }

  /**
   * The position never exceeds the position value the risk budget allows
   * (for nonnegative capital), and in magnitude never exceeds it at all.
   */
  lemma PositionWithinValue(entry: real, target: real, stop: real, capital: real)
    requires entry != 0.0 && stop != entry
    ensures var s := SizeTrade(entry, target, stop, capital).sizing;
      Abs(s.position) <= Abs(s.positionValue) && (0.0 <= capital ==> s.position <= s.positionValue)
  {
    var s := SizeTrade(entry, target, stop, capital).sizing;
    SizedFacts(entry, target, stop, capital);
    TruncatedPosition(s.positionValue, entry, Abs(stop - entry) / Abs(entry), capital * (RISK_PER_TRADE_PCT / 100.0),
      s.shares, s.position);
  }

  /**
   * Whole shares bought at `e` with `pv` cost at most `pv` in magnitude, and
   * at most `pv` outright when `pv` is a nonnegative budget scaled by `q > 0`.
   */
  lemma TruncatedPosition(pv: real, e: real, q: real, budget: real, n: int, position: real)
    requires e != 0.0 && 0.0 < q && pv * q == budget
    requires n == Trunc(pv / e) && position == n as real * e
    ensures Abs(position) <= Abs(pv)
    ensures 0.0 <= budget ==> position <= pv
  {
    var x := pv / e;
    assert x * e == pv;
    ScaledDown(x, e, n as real);
    if 0.0 <= budget {
      assert 0.0 <= pv;
    }
  }

  /**
   * The loss at the stop never exceeds the 1% risk budget: truncating the
   * share count can only lower it.
   */
  lemma LossWithinBudget(entry: real, target: real, stop: real, capital: real)
    requires 0.0 <= capital
    requires entry != 0.0 && stop != entry
    ensures Abs(SizeTrade(entry, target, stop, capital).sizing.lossIfStop) <= capital * (RISK_PER_TRADE_PCT / 100.0)
  {
    var s := SizeTrade(entry, target, stop, capital).sizing;
    SizedFacts(entry, target, stop, capital);
    LossBound(s.positionValue, entry, stop, s.shares as real, s.lossIfStop, capital * (RISK_PER_TRADE_PCT / 100.0));
  }

  lemma LossBound(pv: real, e: real, stop: real, n: real, loss: real, budget: real)
    requires e != 0.0 && stop != e && 0.0 <= budget
    requires pv * (Abs(stop - e) / Abs(e)) == budget
    requires Abs(n) <= Abs(pv / e)
    requires loss == n * (e - stop)
    ensures Abs(loss) <= budget
  {
    AbsMul(n, e - stop);
    assert Abs(e - stop) == Abs(stop - e);
    BudgetBound(pv, e, Abs(stop - e), n, budget);
  }

  /**
   * If a position value `pv` loses `budget` when the price moves by `d`
   * against an entry `e`, then `n` shares with |n| <= |pv / e| lose at most
   * `budget` over the same move.
   */
  lemma BudgetBound(pv: real, e: real, d: real, n: real, budget: real)
    requires e != 0.0 && 0.0 < d && 0.0 <= budget
    requires pv * (d / Abs(e)) == budget
    requires Abs(n) <= Abs(pv / e)
    ensures Abs(n) * d <= budget
  {
    var a := Abs(e);
    var x := pv / e;
    assert Abs(x) == Abs(pv) / a;
    assert Abs(x) * d == Abs(pv) * (d / a);
    AbsMul(pv, d / a);
    assert Abs(pv) * (d / a) == budget;
    MulMonotone(Abs(n), Abs(x), d);
  }

  /** Capital_Risk_%: the loss at the stop as a percentage of capital. */
  function CapitalRiskPct(lossIfStop: real, capital: real): (r: real)
    requires capital != 0.0
    ensures r * capital == Abs(lossIfStop) * 100.0
    ensures 0.0 < capital ==> 0.0 <= r
  {
    Abs(lossIfStop) / capital * 100.0
  }

  /** With positive capital, Capital_Risk_% of a sized trade is at most 1. */
  lemma CapitalRiskAtMostOnePercent(entry: real, target: real, stop: real, capital: real)
    requires 0.0 < capital
    requires entry != 0.0 && stop != entry
    ensures 0.0 <= CapitalRiskPct(SizeTrade(entry, target, stop, capital).sizing.lossIfStop, capital) <= RISK_PER_TRADE_PCT
  {
    var loss := SizeTrade(entry, target, stop, capital).sizing.lossIfStop;
    LossWithinBudget(entry, target, stop, capital);
    assert Abs(loss) <= capital / 100.0;
    assert Abs(loss) / capital <= 1.0 / 100.0;
  }

  /**
   * For a positive entry and nonnegative capital the share count is the
   * largest whole number of shares whose cost stays within the position value.
   */
  lemma SharesAreMaximal(entry: real, target: real, stop: real, capital: real)
    requires 0.0 < entry && 0.0 <= capital && stop != entry
    ensures var s := SizeTrade(entry, target, stop, capital).sizing;
      0 <= s.shares && s.position <= s.positionValue < (s.shares + 1) as real * entry
  {
    var s := SizeTrade(entry, target, stop, capital).sizing;
    SizedFacts(entry, target, stop, capital);
    var q := Abs(stop - entry) / Abs(entry);
    assert 0.0 < q;
    assert 0.0 <= s.positionValue * q;
    assert 0.0 <= s.positionValue;
    TruncMaximal(s.positionValue, entry);
  }

  /** Whole shares of price `e` bought with `pv`: as many as fit, and no more. */
  lemma TruncMaximal(pv: real, e: real)
    requires 0.0 < e && 0.0 <= pv
    ensures 0 <= Trunc(pv / e)
    ensures Trunc(pv / e) as real * e <= pv < (Trunc(pv / e) + 1) as real * e
  {
    var x := pv / e;
    var n := Trunc(x);
    assert x * e == pv;
    Bracket(x, e, n as real, pv);
    assert (n + 1) as real == n as real + 1.0;
  }

  lemma Bracket(x: real, e: real, n: real, p: real)
    requires 0.0 < e && x * e == p && n <= x < n + 1.0
    ensures n * e <= p < (n + 1.0) * e
  {
    var m := n + 1.0;
    MulMonotone(n, x, e);
    MulStrict(x, m, e);
    assert p < m * e;
  }

  /**
   * Entry 100, stop 102, target 97 and capital 100000: a 2% stop distance,
   * a 50000 position of 500 shares, a Loss_if_Stop of -1000 (1% of capital)
   * and a Profit_if_Target of -1500: negative, because this target lies below
   * the entry.
   */
  lemma WorkedExample()
    ensures SizeTrade(100.0, 97.0, 102.0, 100000.0)
      == Sized(Sizing(100.0, 97.0, 102.0, 2.0, 50000.0, 500, 50000.0, -1500.0, -1000.0))
  {
  }
}
