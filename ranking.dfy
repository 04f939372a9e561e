/**
 * The Friday watchlist: rows for the stocks with a setup, each carrying the
 * historical gap-down success rate of its stock, ranked by that rate and
 * split into priority bands.
 */
module Ranking {
  import opened Bars

  /**
   * One watchlist row. The e-mail copy of the Friday scan leaves out
   * Below_SMA20 and Volume_Ratio; here every row carries them.
   */
  datatype WatchRow = WatchRow(
    stock: string,
    nseCode: string,
    fridayLow: real,
    fridayClose: real,
    fridayHigh: real,
    declinePct: real,
    rsi: Option<real>,
    belowSma20: bool,
    volumeRatio: Option<real>,
    successPct: real)

  /** One row of the historical statistics table: Symbol and Gap_Down_Success_Rate. */
  datatype StatRow = StatRow(symbol: string, gapDownSuccessRate: real)

  /** The index of the first statistics row for `name`, if there is one. */
  function FirstMatch(stats: seq<StatRow>, name: string): (r: Option<nat>)
    ensures r.None? <==> forall k :: 0 <= k < |stats| ==> stats[k].symbol != name
    ensures r.Some? ==> r.value < |stats| && stats[r.value].symbol == name
    ensures r.Some? ==> forall k :: 0 <= k < r.value ==> stats[k].symbol != name
  {
    if stats == [] then None
    else if stats[0].symbol == name then Some(0)
    else match FirstMatch(stats[1..], name)
      case None => None
      case Some(k) => Some(k + 1)
  }

  /**
   * The Gap_Success_% of a stock: the rate on the first statistics row whose
   * Symbol is the stock's name, and 0 when there is no such row or no table.
   */
  function SuccessRate(stats: Option<seq<StatRow>>, name: string): (r: real)
    ensures stats.None? ==> r == 0.0
    ensures stats.Some? && (forall k :: 0 <= k < |stats.value| ==> stats.value[k].symbol != name) ==> r == 0.0
    ensures stats.Some? ==> forall k :: 0 <= k < |stats.value| ==>
      (stats.value[k].symbol == name && forall j :: 0 <= j < k ==> stats.value[j].symbol != name)
      ==> r == stats.value[k].gapDownSuccessRate
  {
    if stats.None? then 0.0
    else match FirstMatch(stats.value, name)
      case None => 0.0
      case Some(k) => stats.value[k].gapDownSuccessRate
  }

  predicate SortedDesc<T>(s: seq<T>, key: T -> real)
  {
    forall i, j :: 0 <= i < j < |s| ==> key(s[j]) <= key(s[i])
  }

  /** Puts `x` in front of the first element whose key is not above its own. */
  function InsertDesc<T>(x: T, s: seq<T>, key: T -> real): (r: seq<T>)
    requires SortedDesc(s, key)
    ensures SortedDesc(r, key)
    ensures multiset(r) == multiset(s) + multiset{x}
    ensures r[0] == x || (s != [] && r[0] == s[0])
  {
    if s == [] || key(s[0]) <= key(x) then
      ConsSorted(x, s, key);
      [x] + s
    else
      var t := InsertDesc(x, s[1..], key);
      ConsSorted(s[0], t, key);
      assert s == [s[0]] + s[1..];
      [s[0]] + t
  }

  lemma ConsSorted<T>(a: T, t: seq<T>, key: T -> real)
    requires SortedDesc(t, key)
    requires t != [] ==> key(t[0]) <= key(a)
    ensures SortedDesc([a] + t, key)
  {
    var r := [a] + t;
    forall i, j | 0 <= i < j < |r|
      ensures key(r[j]) <= key(r[i])
    {
      if i == 0 {
        assert r[j] == t[j - 1];
      } else {
        assert r[i] == t[i - 1] && r[j] == t[j - 1];
      }
    }
  }

  /**
   * `sort_values(..., ascending=False)`: the same rows, highest key first.
   * Rows with equal keys keep their scan order here; the model claims only
   * the order and the permutation.
   */
  function SortDesc<T>(s: seq<T>, key: T -> real): (r: seq<T>)
    ensures SortedDesc(r, key)
    ensures multiset(r) == multiset(s)
  {
    if s == [] then []
    else
      assert s == [s[0]] + s[1..];
      InsertDesc(s[0], SortDesc(s[1..], key), key)
  }

  function SuccessKey(w: WatchRow): real
  {
    w.successPct
  }

  /** Whether a success rate lies in [lo, hi); a None bound is no bound. */
  predicate InBand(pct: real, lo: Option<real>, hi: Option<real>)
  {
    (lo.None? || lo.value <= pct) && (hi.None? || pct < hi.value)
  }

  /** The rows with a success rate in [lo, hi), in their original order. */
  function Band(rows: seq<WatchRow>, lo: Option<real>, hi: Option<real>): (r: seq<WatchRow>)
    ensures forall w :: w in r <==> w in rows && InBand(w.successPct, lo, hi)
    ensures |r| <= |rows|
    ensures |rows| == 1 ==> r == if InBand(rows[0].successPct, lo, hi) then rows else []
  {
    if rows == [] then []
    else if InBand(rows[0].successPct, lo, hi) then [rows[0]] + Band(rows[1..], lo, hi)
    else Band(rows[1..], lo, hi)
  }

  /** Priority 1: a historical success rate of 95% or more. */
  function Priority1(rows: seq<WatchRow>): (r: seq<WatchRow>)
    ensures forall w :: w in r <==> w in rows && 95.0 <= w.successPct
  {
    Band(rows, Some(95.0), None)
  }

  /** Priority 2: at least 90% and below 95%. */
  function Priority2(rows: seq<WatchRow>): (r: seq<WatchRow>)
    ensures forall w :: w in r <==> w in rows && 90.0 <= w.successPct < 95.0
  {
    Band(rows, Some(90.0), Some(95.0))
  }

  /** Priority 3 (the dashboard only): at least 80% and below 90%. */
  function Priority3(rows: seq<WatchRow>): (r: seq<WatchRow>)
    ensures forall w :: w in r <==> w in rows && 80.0 <= w.successPct < 90.0
  {
    Band(rows, Some(80.0), Some(90.0))
  }

  /** The rows no priority band shows: below 80%. */
  function Unprioritised(rows: seq<WatchRow>): seq<WatchRow>
  {
    Band(rows, None, Some(80.0))
  }

  /** Band of a nonempty sequence, one row at a time. */
  lemma BandCons(rows: seq<WatchRow>, lo: Option<real>, hi: Option<real>)
    requires rows != []
    ensures multiset(Band(rows, lo, hi))
      == (if InBand(rows[0].successPct, lo, hi) then multiset{rows[0]} else multiset{}) + multiset(Band(rows[1..], lo, hi))
  {
  }

  /**
   * The three priority bands and the rows below 80% split the watchlist:
   * every row lands in exactly one of them, as often as it occurs.
   */
  lemma {:induction false} BandsPartition(rows: seq<WatchRow>)
    ensures multiset(Priority1(rows)) + multiset(Priority2(rows)) + multiset(Priority3(rows))
      + multiset(Unprioritised(rows)) == multiset(rows)
  {
    if rows != [] {
      BandsPartition(rows[1..]);
      assert rows == [rows[0]] + rows[1..];
      BandCons(rows, Some(95.0), None);
      BandCons(rows, Some(90.0), Some(95.0));
      BandCons(rows, Some(80.0), Some(90.0));
      BandCons(rows, None, Some(80.0));
    }
  }

  /** No row is in two priority bands. */
  lemma BandsDisjoint(rows: seq<WatchRow>, w: WatchRow)
    ensures !(w in Priority1(rows) && w in Priority2(rows))
    ensures !(w in Priority1(rows) && w in Priority3(rows))
    ensures !(w in Priority2(rows) && w in Priority3(rows))
    ensures w in Unprioritised(rows) ==> w !in Priority1(rows) && w !in Priority2(rows) && w !in Priority3(rows)
  {
  }

  /** A band of a ranked watchlist is itself ranked. */
  lemma {:induction false} BandKeepsOrder(rows: seq<WatchRow>, lo: Option<real>, hi: Option<real>)
    requires SortedDesc(rows, SuccessKey)
    ensures SortedDesc(Band(rows, lo, hi), SuccessKey)
  {
    if rows != [] {
      var tail := rows[1..];
      assert SortedDesc(tail, SuccessKey) by {
        forall i, j | 0 <= i < j < |tail|
          ensures SuccessKey(tail[j]) <= SuccessKey(tail[i])
        {
          assert tail[i] == rows[i + 1] && tail[j] == rows[j + 1];
        }
      }
      BandKeepsOrder(tail, lo, hi);
      var rest := Band(tail, lo, hi);
      if InBand(rows[0].successPct, lo, hi) {
        if rest != [] {
          assert rest[0] in tail;
          var k :| 0 <= k < |tail| && tail[k] == rest[0];
          assert rows[k + 1] == rest[0];
        }
        ConsSorted(rows[0], rest, SuccessKey);
      }
    }
  }

  /**
   * Banding splits over concatenation. With Band's one-row case this fixes
   * a band as the in-band rows in their original order, each as often as it
   * occurs.
   */
  lemma {:induction false} BandOfConcat(a: seq<WatchRow>, b: seq<WatchRow>, lo: Option<real>, hi: Option<real>)
    ensures Band(a + b, lo, hi) == Band(a, lo, hi) + Band(b, lo, hi)
  {
    if a == [] {
      assert a + b == b;
    } else {
      var t := a[1..];
      assert a == [a[0]] + t;
      assert a + b == [a[0]] + (t + b);
      BandOfPrepend(a[0], t + b, lo, hi);
      BandOfPrepend(a[0], t, lo, hi);
      BandOfConcat(t, b, lo, hi);
      ConcatAssoc(Band([a[0]], lo, hi), Band(t, lo, hi), Band(b, lo, hi));
    }
  }

  /** Banding a row followed by the rest is banding each. */
  lemma BandOfPrepend(x: WatchRow, rest: seq<WatchRow>, lo: Option<real>, hi: Option<real>)
    ensures Band([x] + rest, lo, hi) == Band([x], lo, hi) + Band(rest, lo, hi)
  {
    assert ([x] + rest)[0] == x && ([x] + rest)[1..] == rest;
  }

  lemma ConcatAssoc<T>(x: seq<T>, y: seq<T>, z: seq<T>)
    ensures x + (y + z) == (x + y) + z
  {
  }
}
