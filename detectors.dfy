/**
 * The two pattern detectors: `check_pattern_setup` (a Thursday/Friday pair
 * whose Friday high stays below the Thursday high) and `check_monday_gap`
 * (Monday's opening gap against Friday's close). Each is specified by a
 * function and implemented by a method with the source's scanning loop.
 */
module Detectors {
  import opened Bars
  import opened Indicators

  /** `check_pattern_setup` looks at `data.tail(5)`. */
  const SETUP_WINDOW: nat := 5
  /** `check_monday_gap` looks at `data.tail(3)`. */
  const GAP_WINDOW: nat := 3
  /** A gap counts as a gap-down only strictly below this percentage. */
  const GAP_DOWN_THRESHOLD: real := -0.3

  /**
   * The setup record. The email automation keeps only friday_low,
   * friday_close, friday_high, decline_pct and rsi of it.
   */
  datatype Setup = Setup(
    thursdayHigh: real,
    fridayHigh: real,
    fridayLow: real,
    fridayClose: real,
    declinePct: real,
    rsi: Option<real>,
    belowSma20: bool,
    volumeRatio: Option<real>)

  /** Bar `i` of `w` is a Thursday and the very next bar is a Friday. */
  predicate IsThuFri(w: seq<Bar>, i: int)
  {
    0 <= i && i + 1 < |w| && w[i].weekday == THURSDAY && w[i + 1].weekday == FRIDAY
  }

  /** `i` is the first Thursday-then-Friday pair of `w`. */
  predicate IsFirstThuFri(w: seq<Bar>, i: int)
  {
    IsThuFri(w, i) && forall j :: 0 <= j < i ==> !IsThuFri(w, j)
  }

  /** The first Thursday-then-Friday pair of `w` at or after index `i`. */
  function FirstThuFriFrom(w: seq<Bar>, i: nat): (r: Option<nat>)
    decreases |w| - i
    ensures r.Some? ==> i <= r.value && IsThuFri(w, r.value)
    ensures r.Some? ==> forall j :: i <= j < r.value ==> !IsThuFri(w, j)
    ensures r.None? ==> forall j :: i <= j ==> !IsThuFri(w, j)
  {
    if i + 1 >= |w| then None
    else if IsThuFri(w, i) then Some(i)
    else FirstThuFriFrom(w, i + 1)
  }

  /** The first pair is unique: at most one index is the first pair. */
  lemma FirstThuFriUnique(w: seq<Bar>, i: int, j: int)
    requires IsFirstThuFri(w, i) && IsFirstThuFri(w, j)
    ensures i == j
  {
  }

  /**
   * The setup built from the Thursday bar `thu` and the Friday bar `fri`;
   * rsi, below_sma20 and volume_ratio come from the LAST row of the frame,
   * and from defaults when `calculate_indicators` added no columns.
   */
  function NewSetup(f: Frame, thu: Bar, fri: Bar): (r: Setup)
    requires Aligned(f) && 0 < |f.bars| && fri.high < thu.high
    ensures r.thursdayHigh == thu.high && r.fridayHigh == fri.high && r.fridayLow == fri.low && r.fridayClose == fri.close
    ensures r.fridayHigh < r.thursdayHigh && 0.0 < r.thursdayHigh
    ensures r.declinePct == (r.fridayHigh - r.thursdayHigh) / r.thursdayHigh * 100.0
    ensures r.declinePct < 0.0
    ensures f.rsi.None? ==> r.rsi.None?
    ensures f.rsi.Some? ==> r.rsi == f.rsi.value[|f.bars| - 1]
    ensures f.sma20.None? ==> !r.belowSma20
    ensures f.volumeRatio.None? ==> r.volumeRatio.None?
    ensures f.volumeRatio.Some? ==> r.volumeRatio == f.volumeRatio.value[|f.bars| - 1]
    ensures f.sma20.Some? ==>
      (r.belowSma20 <==> f.sma20.value[|f.bars| - 1].Some? && r.fridayClose < f.sma20.value[|f.bars| - 1].value)
  {
    var last := |f.bars| - 1;
    Setup(
      thu.high, fri.high, fri.low, fri.close,
      (fri.high - thu.high) / thu.high * 100.0,
      if f.rsi.Some? then f.rsi.value[last] else None,
      if f.sma20.Some? then
        (match f.sma20.value[last]
         case Some(sma) => fri.close < sma
         case None => false)
      else false,
      if f.volumeRatio.Some? then f.volumeRatio.value[last] else None)
  }

  /** SetupOf once the first Thursday–Friday pair is known to sit at `i`. */
  lemma SetupOfAt(f: Frame, i: nat)
    requires Aligned(f)
    requires IsFirstThuFri(Tail(f.bars, SETUP_WINDOW), i)
    ensures var w := Tail(f.bars, SETUP_WINDOW);
      SetupOf(f) == PairSetup(f, w, i)
  {
    var w := Tail(f.bars, SETUP_WINDOW);
    assert FirstPair(w) == Some(i) by {
      FirstThuFriUnique(w, i, FirstPair(w).value);
    }
  }

  /** The outcome for the pair at `i`: a setup exactly when the Friday high is the lower one. */
  function PairSetup(f: Frame, w: seq<Bar>, i: nat): (r: Option<Setup>)
    requires Aligned(f) && 0 < |f.bars| && i + 1 < |w|
    ensures r.Some? <==> w[i + 1].high < w[i].high
    ensures r.Some? ==> r.value == NewSetup(f, w[i], w[i + 1])
  {
    if w[i + 1].high < w[i].high then Some(NewSetup(f, w[i], w[i + 1])) else None
  }

  /** SetupOf when the window holds no Thursday–Friday pair. */
  lemma SetupOfNoPair(f: Frame)
    requires Aligned(f)
    requires forall j :: !IsThuFri(Tail(f.bars, SETUP_WINDOW), j)
    ensures SetupOf(f) == None
  {
  }

  /** The first Thursday–Friday pair of the window, if there is one. */
  function FirstPair(w: seq<Bar>): (r: Option<nat>)
    ensures r.Some? ==> IsFirstThuFri(w, r.value)
    ensures r.None? ==> forall j :: !IsThuFri(w, j)
  {
    FirstThuFriFrom(w, 0)
  }

  /** The setup shown by the window `w` of the frame `f`, if any. */
  function SetupIn(f: Frame, w: seq<Bar>): (r: Option<Setup>)
    requires Aligned(f) && |w| <= |f.bars|
    ensures r.Some? <==> exists i :: IsFirstThuFri(w, i) && w[i + 1].high < w[i].high
    ensures r.Some? ==> 0 < |f.bars| && FirstPair(w).Some?
    ensures r.Some? ==> var k := FirstPair(w).value;
      w[k + 1].high < w[k].high && r.value == NewSetup(f, w[k], w[k + 1])
  {
    match FirstPair(w)
    case None => None
    case Some(i) =>
      assert forall j :: IsFirstThuFri(w, j) ==> j == i by {
        forall j | IsFirstThuFri(w, j)
          ensures j == i
        {
          FirstThuFriUnique(w, i, j);
        }
      }
      PairSetup(f, w, i)
  }

  /** What `check_pattern_setup` returns for a frame: the setup its last five bars show. */
  function SetupOf(f: Frame): (r: Option<Setup>)
    requires Aligned(f)
    ensures var w := Tail(f.bars, SETUP_WINDOW);
      r.Some? <==> exists i :: IsFirstThuFri(w, i) && w[i + 1].high < w[i].high
    ensures var w := Tail(f.bars, SETUP_WINDOW);
      r.Some? ==> 0 < |f.bars| && FirstPair(w).Some?
    ensures var w := Tail(f.bars, SETUP_WINDOW);
      r.Some? ==> var k := FirstPair(w).value;
        w[k + 1].high < w[k].high && r.value == NewSetup(f, w[k], w[k + 1])
  {
    SetupIn(f, Tail(f.bars, SETUP_WINDOW))
  }

  /**
   * The record a setup carries: the first pair's highs, Friday low and close,
   * the negative decline, and rsi, below_sma20 and volume_ratio from the last
   * row of the frame, or their defaults where a column is missing.
   */
  lemma SetupRecord(f: Frame, s: Setup)
    requires Aligned(f) && SetupOf(f) == Some(s)
    ensures 0 < |f.bars|
    ensures var w := Tail(f.bars, SETUP_WINDOW);
      exists i :: (
        && IsFirstThuFri(w, i)
        && s.thursdayHigh == w[i].high
        && s.fridayHigh == w[i + 1].high
        && s.fridayLow == w[i + 1].low
        && s.fridayClose == w[i + 1].close)
    ensures s.fridayHigh < s.thursdayHigh && 0.0 < s.thursdayHigh
    ensures s.declinePct == (s.fridayHigh - s.thursdayHigh) / s.thursdayHigh * 100.0
    ensures s.declinePct < 0.0
    ensures f.rsi.None? ==> s.rsi.None?
    ensures f.rsi.Some? ==> s.rsi == f.rsi.value[|f.bars| - 1]
    ensures f.volumeRatio.None? ==> s.volumeRatio.None?
    ensures f.volumeRatio.Some? ==> s.volumeRatio == f.volumeRatio.value[|f.bars| - 1]
    ensures f.sma20.None? ==> !s.belowSma20
    ensures f.sma20.Some? ==>
      (s.belowSma20 <==> f.sma20.value[|f.bars| - 1].Some? && s.fridayClose < f.sma20.value[|f.bars| - 1].value)
  {
    var w := Tail(f.bars, SETUP_WINDOW);
    var i := FirstPair(w).value;
    assert IsFirstThuFri(w, i) && s == NewSetup(f, w[i], w[i + 1]);
  }

  /** `check_pattern_setup`, with its scanning loop. */
  method CheckPatternSetup(data: Option<Frame>) returns (r: Option<Setup>)
    requires data.Some? ==> Aligned(data.value)
    ensures r == if data.None? then None else SetupOf(data.value)
  {
    if data.None? || |data.value.bars| < 2 {
      return None;
    }
    var f := data.value;
    var recent := Tail(f.bars, SETUP_WINDOW);
    var thursday: Option<Bar> := None;
    var friday: Option<Bar> := None;
    ghost var at := 0;
    var i := 0;
    while i < |recent| - 1
      invariant 0 <= i <= |recent| - 1
      invariant friday.None?
      invariant forall j :: 0 <= j < i ==> !IsThuFri(recent, j)
    {
      if recent[i].weekday == THURSDAY {
        thursday := Some(recent[i]);
        if i + 1 < |recent| && recent[i + 1].weekday == FRIDAY {
          friday := Some(recent[i + 1]);
          at := i;
          break;
        }
      }
      i := i + 1;
    }
    if thursday.None? || friday.None? {
      assert forall j :: !IsThuFri(recent, j);
      SetupOfNoPair(f);
      return None;
    }
    assert IsFirstThuFri(recent, at) && thursday.value == recent[at] && friday.value == recent[at + 1];
    SetupOfAt(f, at);
    if friday.value.high < thursday.value.high {
      r := Some(NewSetup(f, thursday.value, friday.value));
    } else {
      r := None;
    }
  }

  /** The gap record of `check_monday_gap` (the email copy has no monday_high). */
  datatype Gap = Gap(
    fridayClose: real,
    mondayOpen: real,
    mondayLow: real,
    mondayHigh: real,
    gapPct: real,
    hasGapDown: bool)

  /**
   * NoGap: no Friday or no Monday bar in the window (the source's None).
   * ZeroFridayClose: the gap's divisor is zero, which the source does not
   * guard against.
   */
  datatype GapOutcome = NoGap | ZeroFridayClose | Measured(gap: Gap)

  predicate HasDay(w: seq<Bar>, d: Weekday)
  {
    exists i :: 0 <= i < |w| && w[i].weekday == d
  }

  /** Bar `i` is the last bar of weekday `d` in `w`. */
  predicate IsLastOfDay(w: seq<Bar>, i: int, d: Weekday)
  {
    0 <= i < |w| && w[i].weekday == d && forall j :: i < j < |w| ==> w[j].weekday != d
  }

  /** The index of the last bar of weekday `d`, the one a left-to-right scan keeps. */
  function LastOfDay(w: seq<Bar>, d: Weekday): (r: Option<nat>)
    ensures r.Some? ==> IsLastOfDay(w, r.value, d)
    ensures r.None? <==> !HasDay(w, d)
  {
    if w == [] then None
    else if w[|w| - 1].weekday == d then Some(|w| - 1)
    else
      var r := LastOfDay(w[..|w| - 1], d);
      assert forall j :: 0 <= j < |w| - 1 ==> w[..|w| - 1][j] == w[j];
      r
  }

  /** `(monday_open - friday_close) / friday_close * 100`. */
  function GapPct(fridayClose: real, mondayOpen: real): (r: real)
    requires fridayClose != 0.0
    ensures 0.0 < fridayClose ==> (r < 0.0 <==> mondayOpen < fridayClose)
  {
    (mondayOpen - fridayClose) / fridayClose * 100.0
  }

  function MeasureGap(fridayClose: real, monday: Bar): GapOutcome
  {
    if fridayClose == 0.0 then ZeroFridayClose
    else
      var pct := GapPct(fridayClose, monday.open);
      Measured(Gap(fridayClose, monday.open, monday.low, monday.high, pct, pct < GAP_DOWN_THRESHOLD))
  }

  /** What `check_monday_gap` returns for a downloaded frame, or for a failed download. */
  function GapOf(data: Option<seq<Bar>>): (r: GapOutcome)
    ensures data.None? ==> r == NoGap
    ensures data.Some? ==> var w := Tail(data.value, GAP_WINDOW);
      (r != NoGap <==> HasDay(w, FRIDAY) && HasDay(w, MONDAY))
    ensures data.Some? ==> var w := Tail(data.value, GAP_WINDOW);
      r.Measured? ==>
        && (exists i :: IsLastOfDay(w, i, FRIDAY) && r.gap.fridayClose == w[i].close)
        && (exists j :: IsLastOfDay(w, j, MONDAY)
              && r.gap.mondayOpen == w[j].open && r.gap.mondayLow == w[j].low && r.gap.mondayHigh == w[j].high)
    ensures data.Some? ==> var w := Tail(data.value, GAP_WINDOW);
      r == ZeroFridayClose ==> exists i :: IsLastOfDay(w, i, FRIDAY) && w[i].close == 0.0
    ensures r.Measured? ==> 0.0 < r.gap.fridayClose
    ensures r.Measured? ==> r.gap.gapPct == (r.gap.mondayOpen - r.gap.fridayClose) / r.gap.fridayClose * 100.0
    ensures r.Measured? ==> (r.gap.hasGapDown <==> r.gap.gapPct < GAP_DOWN_THRESHOLD)
  {
    if data.None? || |data.value| < 2 then
      assert data.Some? ==> !(HasDay(Tail(data.value, GAP_WINDOW), FRIDAY) && HasDay(Tail(data.value, GAP_WINDOW), MONDAY));
      NoGap
    else
      var w := Tail(data.value, GAP_WINDOW);
      match (LastOfDay(w, FRIDAY), LastOfDay(w, MONDAY))
      case (Some(i), Some(j)) => MeasureGap(w[i].close, w[j])
      case _ => NoGap
  }

  /** `check_monday_gap`, with its scanning loop: a later bar of the same weekday overwrites an earlier one. */
  method CheckMondayGap(data: Option<seq<Bar>>) returns (r: GapOutcome)
    ensures r == GapOf(data)
  {
    if data.None? || |data.value| < 2 {
      return NoGap;
    }
    var recent := Tail(data.value, GAP_WINDOW);
    var fridayClose: Option<real> := None;
    var mondayOpen: Option<real> := None;
    var monday: Option<Bar> := None;
    for i := 0 to |recent|
      invariant fridayClose == match LastOfDay(recent[..i], FRIDAY)
        case Some(k) => Some(recent[k].close as real)
        case None => None
      invariant monday == match LastOfDay(recent[..i], MONDAY)
        case Some(k) => Some(recent[k])
        case None => None
      invariant mondayOpen == match monday
        case Some(b) => Some(b.open as real)
        case None => None
    {
      assert recent[..i + 1][..i] == recent[..i];
      if recent[i].weekday == FRIDAY {
        fridayClose := Some(recent[i].close as real);
      } else if recent[i].weekday == MONDAY {
        mondayOpen := Some(recent[i].open as real);
        monday := Some(recent[i]);
      }
    }
    assert recent[..|recent|] == recent;
    if fridayClose.None? || mondayOpen.None? {
      return NoGap;
    }
    r := MeasureGap(fridayClose.value, monday.value);
  }

  /** The last bar of a weekday is the one LastOfDay finds. */
  lemma LastOfDayIs(w: seq<Bar>, i: int, d: Weekday)
    requires IsLastOfDay(w, i, d)
    ensures LastOfDay(w, d) == Some(i)
  {
    assert HasDay(w, d);
  }

  /**
   * Which of the two bars comes first in the window does not matter: within
   * the three bars `tail(3)` keeps, a Friday bar and a Monday bar give the same
   * gap in either order, wherever the third bar stands, as long as no later
   * bar is a Friday or a Monday.
   */
  lemma GapOrderIrrelevant(a: seq<Bar>, b: seq<Bar>, c: seq<Bar>, fri: Bar, mon: Bar)
    requires fri.weekday == FRIDAY && mon.weekday == MONDAY
    requires |a| + |b| + |c| <= 1
    requires forall k :: 0 <= k < |b| ==> b[k].weekday != FRIDAY && b[k].weekday != MONDAY
    requires forall k :: 0 <= k < |c| ==> c[k].weekday != FRIDAY && c[k].weekday != MONDAY
    ensures GapOf(Some(a + [fri] + b + [mon] + c)) == GapOf(Some(a + [mon] + b + [fri] + c))
  {
    var p, q := |a|, |a| + 1 + |b|;
    TwoDaysLayout(a, b, c, fri, mon);
    TwoDaysLayout(a, b, c, mon, fri);
    GapOfLastDays(a + [fri] + b + [mon] + c, p, q);
    GapOfLastDays(a + [mon] + b + [fri] + c, q, p);
  }

  /** In `a + [u] + b + [v] + c`, no bar after `u` other than `v` is a Friday or a Monday. */
  lemma TwoDaysLayout(a: seq<Bar>, b: seq<Bar>, c: seq<Bar>, u: Bar, v: Bar)
    requires forall k :: 0 <= k < |b| ==> b[k].weekday != FRIDAY && b[k].weekday != MONDAY
    requires forall k :: 0 <= k < |c| ==> c[k].weekday != FRIDAY && c[k].weekday != MONDAY
    ensures var x := a + [u] + b + [v] + c; var p, q := |a|, |a| + 1 + |b|;
      && |x| == |a| + |b| + |c| + 2 && x[p] == u && x[q] == v
      && forall j :: p < j < |x| && j != q ==> x[j].weekday != FRIDAY && x[j].weekday != MONDAY
  {
    var x := a + [u] + b + [v] + c;
    var p, q := |a|, |a| + 1 + |b|;
    assert forall j :: p < j < q ==> x[j] == b[j - p - 1];
    assert forall j :: q < j < |x| ==> x[j] == c[j - q - 1];
  }

  /** A short window whose last Friday is bar `i` and last Monday is bar `j` measures the gap between those two bars. */
  lemma GapOfLastDays(w: seq<Bar>, i: int, j: int)
    requires 2 <= |w| <= GAP_WINDOW
    requires IsLastOfDay(w, i, FRIDAY) && IsLastOfDay(w, j, MONDAY)
    ensures GapOf(Some(w)) == MeasureGap(w[i].close, w[j])
  {
    assert Tail(w, GAP_WINDOW) == w;
    LastOfDayIs(w, i, FRIDAY);
    LastOfDayIs(w, j, MONDAY);
  }
}
