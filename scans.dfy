/**
 * The two scans. On Friday every stock of the universe is downloaded, given
 * its indicators and checked for a setup; the stocks with one become the
 * ranked watchlist. On Monday every watchlist row is checked for a gap down,
 * and each gap down becomes a sized trade signal.
 */
module Scans {
  import opened Bars
  import opened Indicators
  import opened Detectors
  import opened Sizing
  import opened Ranking
  import opened Handoff

  /** One entry of the stock universe: the exchange ticker and the display name. */
  datatype Stock = Stock(symbol: string, name: string)

  /** The bars downloaded for a ticker; None when the download fails or is empty. */
  type Fetch = string -> Option<seq<Bar>>

  /** A freshly downloaded frame, before any indicator column is written. */
  function FreshFrame(bars: seq<Bar>): (f: Frame)
    ensures Aligned(f) && Aligned(WithIndicators(f))
  {
    Frame(bars, None, None, None, None)
  }

  /** `check_pattern_setup(calculate_indicators(data))` for one stock's bars. */
  function ScanBars(bars: seq<Bar>): Option<Setup>
  {
    SetupOf(WithIndicators(FreshFrame(bars)))
  }

  /** The watchlist row for a stock with a setup. */
  function RowOf(stock: Stock, s: Setup, stats: Option<seq<StatRow>>): (r: WatchRow)
    ensures r.stock == stock.name && r.nseCode == stock.symbol
    ensures r.fridayLow == s.fridayLow && r.fridayClose == s.fridayClose && r.fridayHigh == s.fridayHigh
    ensures r.declinePct == s.declinePct && r.rsi == s.rsi && r.belowSma20 == s.belowSma20 && r.volumeRatio == s.volumeRatio
    ensures r.successPct == SuccessRate(stats, stock.name)
  {
    WatchRow(stock.name, stock.symbol, s.fridayLow, s.fridayClose, s.fridayHigh, s.declinePct,
      s.rsi, s.belowSma20, s.volumeRatio, SuccessRate(stats, stock.name))
  }

  /** The rows one stock adds to the watchlist: none, or one. */
  function RowsFor(stock: Stock, fetch: Fetch, stats: Option<seq<StatRow>>): seq<WatchRow>
  {
    match fetch(stock.symbol)
    case None => []
    case Some(bars) =>
      match ScanBars(bars)
      case None => []
      case Some(s) => [RowOf(stock, s, stats)]
  }

  /** The rows of each item, in item order. */
  function ConcatMap<A, B>(xs: seq<A>, f: A -> seq<B>): seq<B>
  {
    if xs == [] then [] else ConcatMap(xs[..|xs| - 1], f) + f(xs[|xs| - 1])
  }

  lemma {:induction false} ConcatMapMember<A, B>(xs: seq<A>, f: A -> seq<B>, y: B)
    ensures y in ConcatMap(xs, f) <==> exists k :: 0 <= k < |xs| && y in f(xs[k])
  {
    if xs != [] {
      var init := xs[..|xs| - 1];
      ConcatMapMember(init, f, y);
      if y in ConcatMap(init, f) {
        var k :| 0 <= k < |init| && y in f(init[k]);
        assert xs[k] == init[k];
      }
      if exists k :: 0 <= k < |xs| && y in f(xs[k]) {
        var k :| 0 <= k < |xs| && y in f(xs[k]);
        if k < |init| {
          assert init[k] == xs[k];
        }
      }
    }
  }

  /** The watchlist in scan order, before it is ranked. */
  function FridayRows(stocks: seq<Stock>, fetch: Fetch, stats: Option<seq<StatRow>>): seq<WatchRow>
  {
    ConcatMap(stocks, (stock: Stock) => RowsFor(stock, fetch, stats))
  }

  /** `w` is the row stock `stock` contributes. */
  predicate Yields(stock: Stock, fetch: Fetch, stats: Option<seq<StatRow>>, w: WatchRow)
  {
    && fetch(stock.symbol).Some?
    && ScanBars(fetch(stock.symbol).value).Some?
    && w == RowOf(stock, ScanBars(fetch(stock.symbol).value).value, stats)
  }

  lemma RowsForYields(stock: Stock, fetch: Fetch, stats: Option<seq<StatRow>>, w: WatchRow)
    ensures w in RowsFor(stock, fetch, stats) <==> Yields(stock, fetch, stats, w)
  {
  }

  /**
   * The Friday scan: download, add indicators in place, detect the setup and
   * collect a row per setup; then rank the rows by success rate.
   */
  method FridayScan(stocks: seq<Stock>, fetch: Fetch, stats: Option<seq<StatRow>>) returns (watchlist: seq<WatchRow>)
    ensures SortedDesc(watchlist, SuccessKey)
    ensures multiset(watchlist) == multiset(FridayRows(stocks, fetch, stats))
    ensures watchlist == SortDesc(FridayRows(stocks, fetch, stats), SuccessKey)
  {
    var rows: seq<WatchRow> := [];
    for i := 0 to |stocks|
      invariant rows == FridayRows(stocks[..i], fetch, stats)
    {
      assert stocks[..i + 1][..i] == stocks[..i];
      assert FridayRows(stocks[..i + 1], fetch, stats)
        == FridayRows(stocks[..i], fetch, stats) + RowsFor(stocks[i], fetch, stats);
      var data := fetch(stocks[i].symbol);
      if data.Some? {
        var frame := new PriceFrame(data.value);
        frame.CalculateIndicators();
        var pattern := CheckPatternSetup(Some(frame.Snapshot()));
        if pattern.Some? {
          rows := rows + [RowOf(stocks[i], pattern.value, stats)];
        }
      }
    }
    assert stocks[..|stocks|] == stocks;
    watchlist := SortDesc(rows, SuccessKey);
  }

  /** A row is on the watchlist exactly when some stock of the universe yields it. */
  lemma FridayRowsExact(stocks: seq<Stock>, fetch: Fetch, stats: Option<seq<StatRow>>, w: WatchRow)
    ensures w in FridayRows(stocks, fetch, stats)
      <==> exists k :: 0 <= k < |stocks| && Yields(stocks[k], fetch, stats, w)
  {
    var f := (stock: Stock) => RowsFor(stock, fetch, stats);
    ConcatMapMember(stocks, f, w);
    if w in FridayRows(stocks, fetch, stats) {
      var k :| 0 <= k < |stocks| && w in f(stocks[k]);
      RowsForYields(stocks[k], fetch, stats, w);
    }
    if exists k :: 0 <= k < |stocks| && Yields(stocks[k], fetch, stats, w) {
      var k :| 0 <= k < |stocks| && Yields(stocks[k], fetch, stats, w);
      RowsForYields(stocks[k], fetch, stats, w);
      assert w in f(stocks[k]);
    }
  }

  /**
   * Every watchlist row is a setup, whose Friday high lies below the Thursday
   * high, and carries its stock's looked-up success rate.
   */
  lemma FridayRowsAreSetups(stocks: seq<Stock>, fetch: Fetch, stats: Option<seq<StatRow>>)
    ensures forall w :: w in FridayRows(stocks, fetch, stats) ==>
      w.declinePct < 0.0 && w.successPct == SuccessRate(stats, w.stock)
  {
    forall w | w in FridayRows(stocks, fetch, stats)
      ensures w.declinePct < 0.0 && w.successPct == SuccessRate(stats, w.stock)
    {
      FridayRowsExact(stocks, fetch, stats, w);
    }
  }

  /** One trade signal of the Monday scan. */
  datatype TradeSignal = TradeSignal(stock: string, nseCode: string, gapPct: real, successPct: real, sizing: Sizing)

  function SignalKey(t: TradeSignal): real
  {
    t.successPct
  }

  /**
   * What one watchlist row gives on Monday. Unsizeable: a gap down whose
   * trade the source cannot size (a zero entry, or a stop at the entry); the
   * source raises there, which ends the run.
   */
  datatype RowResult = NoSignal | Signal(signal: TradeSignal) | Unsizeable

  function SignalFor(row: WatchRow, data: Option<seq<Bar>>, capital: real): (r: RowResult)
    ensures r != NoSignal <==> GapOf(data).Measured? && GapOf(data).gap.hasGapDown
    ensures r.Signal? ==> (
      && GapOf(data).Measured?
      && r.signal.sizing.entry == GapOf(data).gap.mondayOpen
      && r.signal.sizing.target == row.fridayLow
      && r.signal.sizing.stop == row.fridayHigh
      && r.signal.gapPct == GapOf(data).gap.gapPct < GAP_DOWN_THRESHOLD
      && r.signal.stock == row.stock && r.signal.nseCode == row.nseCode
      && r.signal.successPct == row.successPct)
    ensures r.Signal? ==>
      SizeTrade(GapOf(data).gap.mondayOpen, row.fridayLow, row.fridayHigh, capital) == Sized(r.signal.sizing)
    ensures r == Unsizeable <==> (
      && GapOf(data).Measured? && GapOf(data).gap.hasGapDown
      && (GapOf(data).gap.mondayOpen == 0.0 || GapOf(data).gap.mondayOpen == row.fridayHigh))
  {
    match GapOf(data)
    case Measured(g) =>
      if !g.hasGapDown then NoSignal
      else (
        match SizeTrade(g.mondayOpen, row.fridayLow, row.fridayHigh, capital)
        case Sized(s) => Signal(TradeSignal(row.stock, row.nseCode, g.gapPct, row.successPct, s))
        case _ => Unsizeable)
    case _ => NoSignal
  }

  /** The Monday loop's result: the signals in watchlist order, or the row whose sizing raised. */
  datatype MondayRun = Aborted(stock: string) | Signals(signals: seq<TradeSignal>)

  /** The loop over the rows, in order, with `step` giving each row's result. */
  function RunSteps(rows: seq<WatchRow>, step: WatchRow -> RowResult): MondayRun
  {
    if rows == [] then Signals([])
    else
      var row := rows[|rows| - 1];
      match RunSteps(rows[..|rows| - 1], step)
      case Aborted(name) => Aborted(name)
      case Signals(s) =>
        match step(row)
        case NoSignal => Signals(s)
        case Signal(t) => Signals(s + [t])
        case Unsizeable => Aborted(row.stock)
  }

  /** One Monday step: the gap check and trade sizing of one watchlist row. */
  function MondayStep(fetch: Fetch, capital: real): WatchRow -> RowResult
  {
    (row: WatchRow) => SignalFor(row, fetch(row.nseCode), capital)
  }

  /** The Monday loop over the watchlist rows, in order, before ranking. */
  function MondayLoop(rows: seq<WatchRow>, fetch: Fetch, capital: real): MondayRun
  {
    RunSteps(rows, MondayStep(fetch, capital))
  }

  /** The signals ranked by historical success, highest first. */
  function Ranked(run: MondayRun): MondayRun
  {
    match run
    case Aborted(name) => Aborted(name)
    case Signals(s) => Signals(SortDesc(s, SignalKey))
  }

  /** Once a row has aborted the loop, the rows after it change nothing. */
  lemma {:induction false} AbortSticks(rows: seq<WatchRow>, j: nat, step: WatchRow -> RowResult)
    requires j <= |rows|
    requires RunSteps(rows[..j], step).Aborted?
    ensures RunSteps(rows, step) == RunSteps(rows[..j], step)
    decreases |rows| - j
  {
    if j < |rows| {
      assert rows[..j + 1][..j] == rows[..j];
      AbortSticks(rows, j + 1, step);
    } else {
      assert rows[..j] == rows;
    }
  }

  /** The Monday scan over a loaded watchlist: check each row's gap and size the gap downs. */
  method MondayScan(watchlist: seq<WatchRow>, fetch: Fetch, capital: real) returns (r: MondayRun)
    ensures r == Ranked(MondayLoop(watchlist, fetch, capital))
    ensures r.Signals? ==> SortedDesc(r.signals, SignalKey)
  {
    var step := MondayStep(fetch, capital);
    var signals: seq<TradeSignal> := [];
    for i := 0 to |watchlist|
      invariant RunSteps(watchlist[..i], step) == Signals(signals)
    {
      assert watchlist[..i + 1][..i] == watchlist[..i];
      var row := watchlist[i];
      var gap := CheckMondayGap(fetch(row.nseCode));
      if gap.Measured? && gap.gap.hasGapDown {
        var trade := SizeTrade(gap.gap.mondayOpen, row.fridayLow, row.fridayHigh, capital);
        if !trade.Sized? {
          assert step(row) == Unsizeable;
          AbortSticks(watchlist, i + 1, step);
          return Aborted(row.stock);
        }
        signals := signals + [TradeSignal(row.stock, row.nseCode, gap.gap.gapPct, row.successPct, trade.sizing)];
      }
    }
    assert watchlist[..|watchlist|] == watchlist;
    r := Signals(SortDesc(signals, SignalKey));
  }

  /**
   * A signal comes out of the loop exactly when some row's step gives it, as
   * long as no row aborted the loop.
   */
  lemma {:induction false} RunStepsExact(rows: seq<WatchRow>, step: WatchRow -> RowResult, t: TradeSignal)
    requires RunSteps(rows, step).Signals?
    ensures t in RunSteps(rows, step).signals <==> exists k :: 0 <= k < |rows| && step(rows[k]) == Signal(t)
  {
    if rows != [] {
      var init := rows[..|rows| - 1];
      RunStepsExact(init, step, t);
      if t in RunSteps(rows, step).signals {
        if t in RunSteps(init, step).signals {
          var k :| 0 <= k < |init| && step(init[k]) == Signal(t);
          assert rows[k] == init[k];
        }
      }
      if exists k :: 0 <= k < |rows| && step(rows[k]) == Signal(t) {
        var k :| 0 <= k < |rows| && step(rows[k]) == Signal(t);
        if k < |init| {
          assert init[k] == rows[k];
        }
      }
    }
  }

  /** The Monday signals are exactly the sized gap downs of the watchlist rows. */
  lemma SignalsExact(rows: seq<WatchRow>, fetch: Fetch, capital: real, t: TradeSignal)
    requires MondayLoop(rows, fetch, capital).Signals?
    ensures t in MondayLoop(rows, fetch, capital).signals
      <==> exists k :: 0 <= k < |rows| && SignalFor(rows[k], fetch(rows[k].nseCode), capital) == Signal(t)
  {
    var step := MondayStep(fetch, capital);
    RunStepsExact(rows, step, t);
    assert forall k :: 0 <= k < |rows| ==> step(rows[k]) == SignalFor(rows[k], fetch(rows[k].nseCode), capital);
  }

  /** The number of rows whose step reports a gap down. */
  function GapDowns(rows: seq<WatchRow>, step: WatchRow -> RowResult): nat
  {
    if rows == [] then 0
    else GapDowns(rows[..|rows| - 1], step) + (if step(rows[|rows| - 1]) == NoSignal then 0 else 1)
  }

  /**
   * Without an aborting row, the loop gives one signal per gap-down row (by
   * SignalFor's contract, a row's step is not NoSignal exactly when its gap
   * check reports a gap down).
   */
  lemma {:induction false} OneSignalPerGapDown(rows: seq<WatchRow>, step: WatchRow -> RowResult)
    requires RunSteps(rows, step).Signals?
    ensures |RunSteps(rows, step).signals| == GapDowns(rows, step)
  {
    if rows != [] {
      OneSignalPerGapDown(rows[..|rows| - 1], step);
    }
  }

  /**
   * A gap down of a positive Monday open below a Friday close that is at most
   * the watchlist's Friday high can always be sized, so its row never aborts
   * the loop (NeverAbortsWhenSizeable).
   */
  lemma GapDownIsSizeable(row: WatchRow, data: Option<seq<Bar>>, capital: real)
    requires GapOf(data).Measured? && GapOf(data).gap.hasGapDown
    requires 0.0 < GapOf(data).gap.mondayOpen
    requires GapOf(data).gap.fridayClose <= row.fridayHigh
    ensures SignalFor(row, data, capital).Signal?
  {
    var g := GapOf(data).gap;
    assert g.gapPct < 0.0;
    assert g.mondayOpen < g.fridayClose by {
      assert (g.mondayOpen - g.fridayClose) / g.fridayClose < 0.0;
    }
  }

  /**
   * The loop aborts exactly when some row's sizing raises, and it names the
   * first such row: the rows before it all passed their step.
   */
  lemma {:induction false} AbortedIffUnsizeable(rows: seq<WatchRow>, step: WatchRow -> RowResult)
    ensures RunSteps(rows, step).Aborted? <==> exists k :: 0 <= k < |rows| && step(rows[k]) == Unsizeable
    ensures RunSteps(rows, step).Aborted? ==>
      exists k :: 0 <= k < |rows| && step(rows[k]) == Unsizeable && RunSteps(rows, step).stock == rows[k].stock
        && forall j :: 0 <= j < k ==> step(rows[j]) != Unsizeable
  {
    if rows != [] {
      var init := rows[..|rows| - 1];
      AbortedIffUnsizeable(init, step);
      assert forall k :: 0 <= k < |init| ==> init[k] == rows[k];
    }
  }

  /**
   * When every gap down of the watchlist has a positive Monday open below a
   * Friday close no higher than the row's Friday high, the Monday loop never
   * aborts.
   */
  lemma NeverAbortsWhenSizeable(rows: seq<WatchRow>, fetch: Fetch, capital: real)
    requires forall k :: 0 <= k < |rows| ==>
      var g := GapOf(fetch(rows[k].nseCode));
      g.Measured? && g.gap.hasGapDown ==> 0.0 < g.gap.mondayOpen && g.gap.fridayClose <= rows[k].fridayHigh
    ensures MondayLoop(rows, fetch, capital).Signals?
  {
    var step := MondayStep(fetch, capital);
    AbortedIffUnsizeable(rows, step);
    forall k | 0 <= k < |rows|
      ensures step(rows[k]) != Unsizeable
    {
      var data := fetch(rows[k].nseCode);
      if GapOf(data).Measured? && GapOf(data).gap.hasGapDown {
        GapDownIsSizeable(rows[k], data, capital);
      }
    }
  }

  /**
   * Capital_Risk_% of every signal is at most 1 when the capital is positive;
   * the dashboard accepts only capitals from 10000 up.
   */
  lemma SignalsRiskAtMostOnePercent(rows: seq<WatchRow>, fetch: Fetch, capital: real)
    requires 0.0 < capital
    requires MondayLoop(rows, fetch, capital).Signals?
    ensures forall t :: t in MondayLoop(rows, fetch, capital).signals ==>
      CapitalRiskPct(t.sizing.lossIfStop, capital) <= RISK_PER_TRADE_PCT
  {
    forall t | t in MondayLoop(rows, fetch, capital).signals
      ensures CapitalRiskPct(t.sizing.lossIfStop, capital) <= RISK_PER_TRADE_PCT
    {
      SignalsExact(rows, fetch, capital, t);
      var k :| 0 <= k < |rows| && SignalFor(rows[k], fetch(rows[k].nseCode), capital) == Signal(t);
      var g := GapOf(fetch(rows[k].nseCode)).gap;
      CapitalRiskAtMostOnePercent(g.mondayOpen, rows[k].fridayLow, rows[k].fridayHigh, capital);
    }
  }

  /**
   * Where the Monday run ends. NoWatchlist: there is nothing to scan, reported
   * before any gap check; LoadFailed: the chosen file could not be read; Ran:
   * the scan happened (with no signals, the "no gap-down signals" report).
   */
  datatype MondayOutcome = NoWatchlist | LoadFailed(file: string) | Ran(run: MondayRun)

  /** The dashboard's Monday scan over the watchlist kept from the Friday scan. */
  method DashboardMondayScan(kept: Option<seq<WatchRow>>, fetch: Fetch, capital: real) returns (r: MondayOutcome)
    requires 10000.0 <= capital <= 10000000.0
    ensures kept.None? <==> r == NoWatchlist
    ensures kept.Some? ==> r == Ran(Ranked(MondayLoop(kept.value, fetch, capital)))
    ensures r.Ran? && r.run.Signals? ==> forall t :: t in r.run.signals ==>
      CapitalRiskPct(t.sizing.lossIfStop, capital) <= RISK_PER_TRADE_PCT
  {
    if kept.None? {
      return NoWatchlist;
    }
    var run := MondayScan(kept.value, fetch, capital);
    if run.Signals? {
      var loop := MondayLoop(kept.value, fetch, capital);
      SignalsRiskAtMostOnePercent(kept.value, fetch, capital);
      forall t | t in run.signals
        ensures t in loop.signals
      {
        assert t in multiset(run.signals);
      }
    }
    return Ran(run);
  }

  /**
   * The e-mail Monday run: pick the latest watchlist file, load it, read the
   * capital from the configuration and scan.
   */
  method EmailMondayScan(files: seq<string>, load: string -> Option<seq<WatchRow>>, fetch: Fetch, config: Config)
    returns (r: MondayOutcome)
    ensures files == [] <==> r == NoWatchlist
    ensures files != [] ==> var latest := LatestWatchlist(files).value;
      && (load(latest).None? ==> r == LoadFailed(latest))
      && (load(latest).Some? ==> r == Ran(Ranked(MondayLoop(load(latest).value, fetch, ConfiguredCapital(config)))))
  {
    var latest := LatestWatchlist(files);
    if latest.None? {
      return NoWatchlist;
    }
    var rows := load(latest.value);
    if rows.None? {
      return LoadFailed(latest.value);
    }
    var capital := ConfiguredCapital(config);
    var run := MondayScan(rows.value, fetch, capital);
    return Ran(run);
  }

  /**
   * The dashboard's Friday scan. The ranked watchlist is kept for the Monday
   * scan only when it is not empty; an empty scan leaves whatever an earlier
   * scan kept.
   */
  method DashboardFridayScan(stocks: seq<Stock>, fetch: Fetch, stats: Option<seq<StatRow>>, kept: Option<seq<WatchRow>>)
    returns (watchlist: seq<WatchRow>, nowKept: Option<seq<WatchRow>>)
    ensures SortedDesc(watchlist, SuccessKey)
    ensures multiset(watchlist) == multiset(FridayRows(stocks, fetch, stats))
    ensures FridayRows(stocks, fetch, stats) == [] ==> nowKept == kept
    ensures FridayRows(stocks, fetch, stats) != [] ==> nowKept == Some(watchlist)
  {
    watchlist := FridayScan(stocks, fetch, stats);
    if watchlist == [] {
      assert |multiset(FridayRows(stocks, fetch, stats))| == 0;
      nowKept := kept;
    } else {
      nowKept := Some(watchlist);
    }
  }

  /** The e-mail Friday report: nothing found, or the saved watchlist and its two priority bands. */
  datatype FridayReport = NoSetups | Saved(file: string, watchlist: seq<WatchRow>, priority1: seq<WatchRow>, priority2: seq<WatchRow>)

  method EmailFridayScan(stocks: seq<Stock>, fetch: Fetch, stats: Option<seq<StatRow>>, stamp: string)
    returns (r: FridayReport)
    ensures r == NoSetups <==> FridayRows(stocks, fetch, stats) == []
    ensures r.Saved? ==> (
      && r.file == WatchlistFileName(stamp)
      && SortedDesc(r.watchlist, SuccessKey)
      && multiset(r.watchlist) == multiset(FridayRows(stocks, fetch, stats))
      && r.priority1 == Priority1(r.watchlist) && r.priority2 == Priority2(r.watchlist)
      && SortedDesc(r.priority1, SuccessKey) && SortedDesc(r.priority2, SuccessKey))
  {
    var watchlist := FridayScan(stocks, fetch, stats);
    if watchlist == [] {
      assert |multiset(FridayRows(stocks, fetch, stats))| == 0;
      return NoSetups;
    }
    BandKeepsOrder(watchlist, Some(95.0), None);
    BandKeepsOrder(watchlist, Some(90.0), Some(95.0));
    r := Saved(WatchlistFileName(stamp), watchlist, Priority1(watchlist), Priority2(watchlist));
  }

  /**
   * A watchlist saved on a date no earlier than any other watchlist file is
   * the one the next Monday run picks up.
   */
  lemma MondayPicksNewestFriday(stamps: seq<string>, stamp: string)
    requires forall k :: 0 <= k < |stamps| ==> |stamps[k]| == 8 && AllDigits(stamps[k])
    requires IsDateStamp(stamp)
    requires forall k :: 0 <= k < |stamps| ==> DigitsValue(stamps[k]) <= DigitsValue(stamp)
    ensures var files := seq(|stamps|, k requires 0 <= k < |stamps| => WatchlistFileName(stamps[k]));
      LatestWatchlist(files + [WatchlistFileName(stamp)]) == Some(WatchlistFileName(stamp))
  {
    var files := seq(|stamps|, k requires 0 <= k < |stamps| => WatchlistFileName(stamps[k]));
    var all := files + [WatchlistFileName(stamp)];
    var m := LatestWatchlist(all).value;
    assert WatchlistFileName(stamp) in all;
    var k :| 0 <= k < |all| && all[k] == m;
    var s := if k < |stamps| then stamps[k] else stamp;
    assert m == WatchlistFileName(s);
    FileNameOrderIsDateOrder(s, stamp);
    StrLeAntisymmetric(m, WatchlistFileName(stamp));
  }
}
