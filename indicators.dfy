/**
 * `calculate_indicators`: RSI(14), the 20-bar simple moving average of the
 * close, the 20-bar mean volume and the volume ratio, written as new columns
 * into the downloaded frame.
 */
module Indicators {
  import opened Bars

  /** Look-back of the RSI's gain and loss means. */
  const RSI_WINDOW: nat := 14
  /** Look-back of SMA_20 and Volume_SMA_20. */
  const SMA_WINDOW: nat := 20
  /** Frames with fewer rows than this are returned without indicator columns. */
  const MIN_ROWS: nat := 20

  function Closes(bars: seq<Bar>): (r: seq<real>)
    ensures |r| == |bars|
  {
    seq(|bars|, i requires 0 <= i < |bars| => bars[i].close as real)
  }

  function Volumes(bars: seq<Bar>): (r: seq<real>)
    ensures |r| == |bars|
  {
    seq(|bars|, i requires 0 <= i < |bars| => bars[i].volume as real)
  }

  /** Row `i` of `xs.rolling(w).mean()`: absent until a full window of `w` rows exists. */
  function Trailing(xs: seq<real>, w: nat, i: nat): Option<real>
    requires 0 < w && i < |xs|
  {
    if i + 1 < w then None else Some(Mean(Window(xs, w, i)))
  }

  /**
   * `delta.where(delta > 0, 0)` for `delta = close.diff()`. The first delta is
   * NaN, which fails `delta > 0` and so is replaced by 0 as well.
   */
  function Gains(closes: seq<real>): (r: seq<real>)
    ensures |r| == |closes|
  {
    seq(|closes|, i requires 0 <= i < |closes| =>
      if 0 < i && closes[i] - closes[i - 1] > 0.0 then closes[i] - closes[i - 1] else 0.0)
  }

  /** `-delta.where(delta < 0, 0)`: the size of each day's fall, 0 on other days. */
  function Losses(closes: seq<real>): (r: seq<real>)
    ensures |r| == |closes|
  {
    seq(|closes|, i requires 0 <= i < |closes| =>
      if 0 < i && closes[i] - closes[i - 1] < 0.0 then closes[i - 1] - closes[i] else 0.0)
  }

  /**
   * Gains and losses are never negative; a gain is positive exactly after a
   * rise and a loss exactly after a fall, and from the second row on gain
   * minus loss is the day's change of the close.
   */
  lemma GainMinusLoss(closes: seq<real>, i: nat)
    requires i < |closes|
    ensures 0.0 <= Gains(closes)[i] && 0.0 <= Losses(closes)[i]
    ensures 0.0 < Gains(closes)[i] <==> 0 < i && closes[i - 1] < closes[i]
    ensures 0.0 < Losses(closes)[i] <==> 0 < i && closes[i] < closes[i - 1]
    ensures 0 < i ==> Gains(closes)[i] - Losses(closes)[i] == closes[i] - closes[i - 1]
    ensures i == 0 ==> Gains(closes)[i] == 0.0 && Losses(closes)[i] == 0.0
  {
  }

  /**
   * `100 - 100 / (1 + gain / loss)` under numpy's division: a zero average
   * loss makes the ratio infinite and the RSI 100, unless the average gain is
   * zero too, which makes it NaN (here None).
   */
  function Rsi(avgGain: real, avgLoss: real): (r: Option<real>)
    requires 0.0 <= avgGain && 0.0 <= avgLoss
    ensures r.None? <==> avgGain == 0.0 && avgLoss == 0.0
    ensures r.Some? ==> 0.0 <= r.value <= 100.0
    ensures avgLoss == 0.0 && 0.0 < avgGain ==> r == Some(100.0)
    ensures 0.0 < avgLoss ==> r == Some(100.0 * avgGain / (avgGain + avgLoss))
  {
    if 0.0 < avgLoss then
      RsiClosedForm(avgGain, avgLoss);
      Some(100.0 - 100.0 / (1.0 + avgGain / avgLoss))
    else if 0.0 < avgGain then Some(100.0)
    else None
  }

  lemma RsiClosedForm(g: real, l: real)
    requires 0.0 <= g && 0.0 < l
    ensures 100.0 - 100.0 / (1.0 + g / l) == 100.0 * g / (g + l)
  {
    var rs := g / l;
    assert rs * l == g;
    var d := 1.0 + rs;
    assert d * l == l + g;
    var q := 100.0 / d;
    assert q * d == 100.0;
    assert q * (g + l) == q * d * l;
    assert q * (g + l) == 100.0 * l;
    assert (100.0 - q) * (g + l) == 100.0 * g;
    var t := 100.0 * g / (g + l);
    assert t * (g + l) == 100.0 * g;
    CancelPositive(100.0 - q, t, g + l);
  }

  lemma CancelPositive(a: real, b: real, y: real)
    requires 0.0 < y && a * y == b * y
    ensures a == b
  {
  }

  /** The window of `xs` that row `i` of a rolling(w) mean averages. */
  function Window(xs: seq<real>, w: nat, i: nat): (r: seq<real>)
    requires w <= i + 1 <= |xs|
    ensures |r| == w
  {
    xs[i + 1 - w..i + 1]
  }

  /** Row `i` of the RSI column. */
  function RsiAt(closes: seq<real>, i: nat): Option<real>
    requires i < |closes|
  {
    if i + 1 < RSI_WINDOW then None
    else
      var gains := Window(Gains(closes), RSI_WINDOW, i);
      var losses := Window(Losses(closes), RSI_WINDOW, i);
      MeanAtLeast(gains, 0.0);
      MeanAtLeast(losses, 0.0);
      Rsi(Mean(gains), Mean(losses))
  }

  /** Row `i` of Volume_Ratio: absent where Volume_SMA_20 is absent or zero (NaN). */
  function VolumeRatioAt(volumes: seq<real>, i: nat): Option<real>
    requires i < |volumes|
  {
    match Trailing(volumes, SMA_WINDOW, i)
    case Some(m) => if m != 0.0 then Some(volumes[i] / m) else None
    case None => None
  }

  /**
   * A price frame as the engine sees it: the bars and the indicator columns
   * that have been written into it, each absent until written.
   */
  datatype Frame = Frame(
    bars: seq<Bar>,
    rsi: Option<seq<Option<real>>>,
    sma20: Option<seq<Option<real>>>,
    volumeSma20: Option<seq<Option<real>>>,
    volumeRatio: Option<seq<Option<real>>>)

  /** Every column that is present has one row per bar. */
  predicate Aligned(f: Frame)
  {
    && (f.rsi.Some? ==> |f.rsi.value| == |f.bars|)
    && (f.sma20.Some? ==> |f.sma20.value| == |f.bars|)
    && (f.volumeSma20.Some? ==> |f.volumeSma20.value| == |f.bars|)
    && (f.volumeRatio.Some? ==> |f.volumeRatio.value| == |f.bars|)
  }

  function RsiColumn(bars: seq<Bar>): (r: seq<Option<real>>)
    ensures |r| == |bars|
  {
    var closes := Closes(bars);
    seq(|bars|, i requires 0 <= i < |bars| => RsiAt(closes, i))
  }

  function Sma20Column(bars: seq<Bar>): (r: seq<Option<real>>)
    ensures |r| == |bars|
  {
    var closes := Closes(bars);
    seq(|bars|, i requires 0 <= i < |bars| => Trailing(closes, SMA_WINDOW, i))
  }

  function VolumeSma20Column(bars: seq<Bar>): (r: seq<Option<real>>)
    ensures |r| == |bars|
  {
    var volumes := Volumes(bars);
    seq(|bars|, i requires 0 <= i < |bars| => Trailing(volumes, SMA_WINDOW, i))
  }

  function VolumeRatioColumn(bars: seq<Bar>): (r: seq<Option<real>>)
    ensures |r| == |bars|
  {
    var volumes := Volumes(bars);
    seq(|bars|, i requires 0 <= i < |bars| => VolumeRatioAt(volumes, i))
  }

  /** The frame `calculate_indicators` leaves behind. */
  function WithIndicators(f: Frame): (r: Frame)
    ensures r.bars == f.bars
    ensures |f.bars| < MIN_ROWS ==> r == f
    ensures MIN_ROWS <= |f.bars| ==> Aligned(r)
    ensures MIN_ROWS <= |f.bars| ==>
      && r.rsi == Some(RsiColumn(f.bars)) && r.sma20 == Some(Sma20Column(f.bars))
      && r.volumeSma20 == Some(VolumeSma20Column(f.bars)) && r.volumeRatio == Some(VolumeRatioColumn(f.bars))
  {
    if |f.bars| < MIN_ROWS then f
    else f.(rsi := Some(RsiColumn(f.bars)),
            sma20 := Some(Sma20Column(f.bars)),
            volumeSma20 := Some(VolumeSma20Column(f.bars)),
            volumeRatio := Some(VolumeRatioColumn(f.bars)))
  }

  /**
   * The mutable frame that `calculate_indicators` writes its columns into.
   */
  class PriceFrame {
    var bars: seq<Bar>
    var rsi: Option<seq<Option<real>>>
    var sma20: Option<seq<Option<real>>>
    var volumeSma20: Option<seq<Option<real>>>
    var volumeRatio: Option<seq<Option<real>>>

    /** A freshly downloaded frame: bars only, no indicator columns. */
    constructor (bars: seq<Bar>)
      ensures Snapshot() == Frame(bars, None, None, None, None)
    {
      this.bars := bars;
      rsi, sma20, volumeSma20, volumeRatio := None, None, None, None;
    }

    function Snapshot(): Frame
      reads this
    {
      Frame(bars, rsi, sma20, volumeSma20, volumeRatio)
    }

    /**
     * With fewer than MIN_ROWS rows the frame is left untouched; otherwise
     * the four columns are assigned in turn and the bars are not changed.
     */
    method CalculateIndicators()
      modifies this
      ensures bars == old(bars)
      ensures |bars| < MIN_ROWS ==> Snapshot() == old(Snapshot())
      ensures Snapshot() == WithIndicators(old(Snapshot()))
      ensures Aligned(old(Snapshot())) ==> Aligned(Snapshot())
    {
      if |bars| < MIN_ROWS {
        return;
      }
      rsi := Some(RsiColumn(bars));
      sma20 := Some(Sma20Column(bars));
      volumeSma20 := Some(VolumeSma20Column(bars));
      volumeRatio := Some(VolumeRatioColumn(bars));
    }
  }

  /** Fewer than MIN_ROWS rows: no column is added and the frame is returned as it was. */
  lemma ShortFrameUntouched(f: Frame)
    requires |f.bars| < MIN_ROWS
    ensures WithIndicators(f) == f
  {
  }

  /**
   * From MIN_ROWS rows on, every column is present and aligned; SMA_20 and
   * Volume_SMA_20 are defined exactly from the 20th row, Volume_Ratio only
   * there, and RSI only from the 14th row, within [0, 100].
   */
  lemma IndicatorColumnsShape(f: Frame, i: nat)
    requires MIN_ROWS <= |f.bars| && i < |f.bars|
    ensures var g := WithIndicators(f);
      && Aligned(g) && g.bars == f.bars
      && g.rsi.Some? && g.sma20.Some? && g.volumeSma20.Some? && g.volumeRatio.Some?
      && (g.sma20.value[i].Some? <==> SMA_WINDOW <= i + 1)
      && (g.volumeSma20.value[i].Some? <==> SMA_WINDOW <= i + 1)
      && (g.volumeRatio.value[i].Some? ==> SMA_WINDOW <= i + 1)
      && (g.rsi.value[i].Some? ==> RSI_WINDOW <= i + 1 && 0.0 <= g.rsi.value[i].value <= 100.0)
  {
  }

  /** SMA_20 lies between the lowest and the highest close of its 20-bar window. */
  lemma Sma20WithinWindow(bars: seq<Bar>, i: nat, lo: real, hi: real)
    requires SMA_WINDOW <= i + 1 <= |bars|
    requires forall k :: i + 1 - SMA_WINDOW <= k <= i ==> lo <= bars[k].close <= hi
    ensures Sma20Column(bars)[i].Some?
    ensures lo <= Sma20Column(bars)[i].value <= hi
  {
    var w := Window(Closes(bars), SMA_WINDOW, i);
    assert forall k :: 0 <= k < |w| ==> w[k] == bars[i + 1 - SMA_WINDOW + k].close;
    MeanAtLeast(w, lo);
    MeanAtMost(w, hi);
  }

  /**
   * Volume_Ratio times Volume_SMA_20 gives back the volume; from the 20th row
   * on the ratio is missing exactly when all 20 volumes of the window are zero.
   */
  lemma VolumeRatioMeaning(bars: seq<Bar>, i: nat)
    requires SMA_WINDOW <= i + 1 <= |bars|
    ensures VolumeSma20Column(bars)[i].Some?
    ensures VolumeRatioColumn(bars)[i].Some? ==>
      VolumeRatioColumn(bars)[i].value * VolumeSma20Column(bars)[i].value == bars[i].volume
    ensures VolumeRatioColumn(bars)[i].None? <==>
      forall k :: i + 1 - SMA_WINDOW <= k <= i ==> bars[k].volume == 0.0
  {
    var w := Window(Volumes(bars), SMA_WINDOW, i);
    assert forall k :: 0 <= k < |w| ==> w[k] == bars[i + 1 - SMA_WINDOW + k].volume;
    SumZeroIffAllZero(w);
    assert Mean(w) == 0.0 <==> Sum(w) == 0.0;
    if forall k :: i + 1 - SMA_WINDOW <= k <= i ==> bars[k].volume == 0.0 {
      assert forall k :: 0 <= k < |w| ==> w[k] == 0.0;
    } else {
      var k :| i + 1 - SMA_WINDOW <= k <= i && bars[k].volume != 0.0;
      assert w[k - (i + 1 - SMA_WINDOW)] != 0.0;
    }
  }

  /** Within a window of rows, no gain and no loss means no change of the close. */
  lemma FlatWindow(closes: seq<real>, lo: nat, i: nat)
    requires lo <= i < |closes|
    ensures (forall k :: lo <= k <= i ==> Gains(closes)[k] == 0.0 && Losses(closes)[k] == 0.0) <==>
      (forall k :: lo <= k <= i && 0 < k ==> closes[k] == closes[k - 1])
  {
    forall k | lo <= k <= i
      ensures (Gains(closes)[k] == 0.0 && Losses(closes)[k] == 0.0) <==> (k == 0 || closes[k] == closes[k - 1])
    {
    }
  }

  /**
   * RSI is missing (NaN) from its 14th row on exactly when the close did not
   * move on any day of its 14-delta window.
   */
  lemma RsiUndefinedIffFlat(bars: seq<Bar>, i: nat)
    requires RSI_WINDOW <= i + 1 <= |bars|
    ensures RsiColumn(bars)[i].None? <==>
      forall k :: i + 1 - RSI_WINDOW <= k <= i && 0 < k ==> bars[k].close == bars[k - 1].close
  {
    var closes := Closes(bars);
    assert RsiColumn(bars)[i] == RsiAt(closes, i);
    RsiAtUndefinedIffFlat(closes, i);
    assert forall k :: 0 <= k < |bars| ==> closes[k] == bars[k].close;
  }

  /** RsiUndefinedIffFlat, on the close series. */
  lemma RsiAtUndefinedIffFlat(closes: seq<real>, i: nat)
    requires RSI_WINDOW <= i + 1 <= |closes|
    ensures RsiAt(closes, i).None? <==>
      forall k :: i + 1 - RSI_WINDOW <= k <= i && 0 < k ==> closes[k] == closes[k - 1]
  {
    var lo := i + 1 - RSI_WINDOW;
    var gains := Window(Gains(closes), RSI_WINDOW, i);
    var losses := Window(Losses(closes), RSI_WINDOW, i);
    var zeroWindows := (forall k :: 0 <= k < RSI_WINDOW ==> gains[k] == 0.0) && (forall k :: 0 <= k < RSI_WINDOW ==> losses[k] == 0.0);
    assert RsiAt(closes, i).None? <==> zeroWindows by {
      RsiUndefinedIffZeroMeans(closes, i);
    }
    var zeroRows := (forall k :: lo <= k <= i ==> Gains(closes)[k] == 0.0) && (forall k :: lo <= k <= i ==> Losses(closes)[k] == 0.0);
    assert zeroWindows <==> zeroRows by {
      WindowZeroIffRangeZero(Gains(closes), RSI_WINDOW, i);
      WindowZeroIffRangeZero(Losses(closes), RSI_WINDOW, i);
    }
    FlatWindow(closes, lo, i);
  }

  /** A rolling window is all zeros exactly when the rows it covers are. */
  lemma WindowZeroIffRangeZero(xs: seq<real>, w: nat, i: nat)
    requires 0 < w <= i + 1 <= |xs|
    ensures (forall k :: 0 <= k < w ==> Window(xs, w, i)[k] == 0.0) <==>
      (forall k :: i + 1 - w <= k <= i ==> xs[k] == 0.0)
  {
    var win := Window(xs, w, i);
    assert forall k :: 0 <= k < w ==> win[k] == xs[i + 1 - w + k];
    if forall k :: 0 <= k < w ==> win[k] == 0.0 {
      forall k | i + 1 - w <= k <= i
        ensures xs[k] == 0.0
      {
        assert win[k - (i + 1 - w)] == xs[k];
      }
    }
  }

  /** RSI is missing exactly when every gain and every loss of its window is zero. */
  lemma RsiUndefinedIffZeroMeans(closes: seq<real>, i: nat)
    requires RSI_WINDOW <= i + 1 <= |closes|
    ensures var gains := Window(Gains(closes), RSI_WINDOW, i);
      var losses := Window(Losses(closes), RSI_WINDOW, i);
      RsiAt(closes, i).None? <==> forall k :: 0 <= k < RSI_WINDOW ==> gains[k] == 0.0 && losses[k] == 0.0
  {
    var gains := Window(Gains(closes), RSI_WINDOW, i);
    var losses := Window(Losses(closes), RSI_WINDOW, i);
    SumZeroIffAllZero(gains);
    SumZeroIffAllZero(losses);
    MeanAtLeast(gains, 0.0);
    MeanAtLeast(losses, 0.0);
    assert Mean(gains) == 0.0 <==> Sum(gains) == 0.0;
    assert Mean(losses) == 0.0 <==> Sum(losses) == 0.0;
  }
}
