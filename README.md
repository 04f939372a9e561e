# Friday–Monday pattern engine, modelled in Dafny

The repository trades one weekly pattern on the NIFTY 50 basket. On Friday
afternoon it looks for stocks whose Friday high stayed below the Thursday high
(the *setup*). It ranks those stocks by their historical gap-down success rate
into a watchlist. On Monday morning it checks each watchlist stock for an
opening gap down of more than 0.3% against the Friday close. Each gap down
becomes a trade: entry at the Monday open, target at the Friday low, stop at
the Friday high. The position is sized so that a stop-out costs at most 1% of
capital.

The engine exists twice: in the Streamlit dashboard (`trading_app.py`) and in
the e-mail automation (`email_automation.py`). The two copies share the setup
rule, the gap check and the trade sizing, and differ in these ways:

- the e-mail copy reports fewer fields;
- the priority-3 band (success rate in [80, 90)) exists only in the dashboard
  (trading_app.py:272); the e-mail copy has bands 1 and 2 only;
- SMA_50 is computed only in the dashboard (trading_app.py:82);
- the Friday watchlist reaches the Monday run through `st.session_state` in the
  dashboard (trading_app.py:267, 365-369), and through a dated CSV file chosen
  with `max` in the e-mail copy (email_automation.py:290-291, 404-419);
- the capital comes from a widget bounded to 10000–10000000 in the dashboard
  (trading_app.py:167-174), and from the configuration with a default of
  100000 in the e-mail copy (email_automation.py:428).

This project models the shared engine once, with separate members for each
difference. The table below cites the dashboard copy. Where the e-mail copy
behaves the same way, its lines are named in the last column.

Files and modules:

- `bars.dfy` (`Bars`): a daily bar reduced to its weekday (0 = Monday, as
  pandas' `dayofweek`) and its OHLCV values; `tail(n)`; sums and means over
  windows.
- `indicators.dfy` (`Indicators`): `calculate_indicators`. The RSI(14), SMA_20,
  Volume_SMA_20 and Volume_Ratio columns are specification functions. The
  in-place column assignment is the class `PriceFrame`.
- `detectors.dfy` (`Detectors`): `check_pattern_setup` and `check_monday_gap`.
  Each is a specification function (`SetupOf`, `GapOf`) plus a method with the
  source's loop, proved equal to it.
- `sizing.dfy` (`Sizing`): `calculate_position_size` and the trade block of the
  Monday scan: risk %, position value, truncated share count, position, and
  profit and loss at target and at stop.
- `ranking.dfy` (`Ranking`): the success-rate lookup, the descending sort and
  the priority bands.
- `handoff.dfy` (`Handoff`): Python's string order, `max` over the watchlist
  file names, the `friday_watchlist_YYYYMMDD.csv` name, and the capital read
  from the configuration.
- `scans.dfy` (`Scans`): the Friday and Monday scan loops of both front ends.
  Each is a method proved against a specification function.

Modelling choices:

- Absent values (pandas NaN, a missing column, Python `None`) are `Option`.
- Prices and volumes are non-negative reals (`Price`).
- Python's `int(x)` is `Trunc`: truncation toward zero.
- The source leaves three divisions unguarded: by `friday_close`, by `entry`,
  and by `stop - entry`. Here they are explicit outcomes: `ZeroFridayClose`,
  `ZeroEntry` and `ZeroRisk`.
  - A zero Friday close makes numpy produce `inf` or `nan`. Neither compares
    below -0.3, so the row simply gives no signal.
  - A zero entry or a stop equal to the entry ends in `int()` of `nan` or
    `inf`, which raises. That ends the whole Monday run: `Aborted` in the
    model.
- The market-data download is a parameter `fetch: string -> Option<seq<Bar>>`,
  where `None` is a failed or empty download. Reading the saved watchlist and
  reading the configuration are parameters too.
- A Thursday not followed by a Friday is skipped and the scan goes on
  (trading_app.py:100-105, email_automation.py:172-177). The pair used is the
  first Thursday immediately followed by a Friday.

## Model

| member | source | states |
|---|---|---|
| `Bars.Tail` | trading_app.py:96 | `tail(n)` keeps the last n bars, or all of them when there are fewer (also used for `tail(3)` at 129) |
| `Bars.MeanAtLeast` | trading_app.py:75 | a rolling mean is at least any lower bound of its window (gains are never below 0) |
| `Bars.MeanAtMost` | trading_app.py:81 | a rolling mean is at most any upper bound of its window |
| `Bars.SumZeroIffAllZero` | trading_app.py:75-76 | a sum of non-negative gains or losses is 0 exactly when every term is 0 |
| `Indicators.Gains` | trading_app.py:75 | one gain per close (email_automation.py:151) |
| `Indicators.Losses` | trading_app.py:76 | one loss per close (email_automation.py:152) |
| `Indicators.GainMinusLoss` | trading_app.py:74-76 | gains and losses are never negative; a gain is positive exactly on a row after the first whose close rose, a loss exactly on one whose close fell; the first row, whose `diff()` is NaN, counts 0 for both; after it, gain minus loss is the day's `diff()` |
| `Indicators.Rsi` | trading_app.py:77-78 | `100 - 100/(1 + gain/loss)`: undefined exactly when both means are 0; 100 when the loss mean is 0 and the gain mean is not; otherwise `100*g/(g+l)`, always in [0, 100] (email_automation.py:153-154) |
| `Indicators.RsiClosedForm` | trading_app.py:77-78 | for a positive loss mean, `100 - 100/(1 + g/l)` equals `100*g/(g+l)` |
| `Indicators.RsiColumn` | trading_app.py:74-78 | the RSI column has one entry per bar |
| `Indicators.Sma20Column` | trading_app.py:81 | SMA_20 has one entry per bar (email_automation.py:156) |
| `Indicators.VolumeSma20Column` | trading_app.py:85 | Volume_SMA_20 has one entry per bar (email_automation.py:157) |
| `Indicators.VolumeRatioColumn` | trading_app.py:86 | Volume_Ratio has one entry per bar (email_automation.py:158) |
| `Indicators.PriceFrame.constructor` | trading_app.py:58-63 | a downloaded frame holds its bars and no indicator column |
| `Indicators.PriceFrame.CalculateIndicators` | trading_app.py:68-88 | with fewer than 20 rows the frame is returned untouched; otherwise RSI, SMA_20, Volume_SMA_20 and Volume_Ratio are written in place, the bars are unchanged, and every column keeps one row per bar (email_automation.py:145-160) |
| `Indicators.WithIndicators` | trading_app.py:68-88 | the bars are unchanged; fewer than 20 rows leave the frame as it was; otherwise the frame gets the RSI, SMA_20, Volume_SMA_20 and Volume_Ratio columns, each aligned with the bars (email_automation.py:145-160) |
| `Indicators.RsiAtUndefinedIffFlat` | trading_app.py:74-78 | on a closes series, RSI at row i is undefined exactly when no close changed over the 14 rows ending at i |
| `Indicators.WindowZeroIffRangeZero` | trading_app.py:75-76 | a rolling window of gains or losses is all zero exactly when the column is zero on the rows it covers |
| `Indicators.ShortFrameUntouched` | trading_app.py:70-71 | fewer than 20 rows: no column is added (email_automation.py:147-148) |
| `Indicators.IndicatorColumnsShape` | trading_app.py:74-86 | with 20 rows or more, SMA_20 and Volume_SMA_20 are defined exactly from the 20th row on; Volume_Ratio only from there; RSI only from the 14th row on, and then within [0, 100] |
| `Indicators.Sma20WithinWindow` | trading_app.py:81 | SMA_20 lies between the lowest and the highest close of its 20-bar window |
| `Indicators.VolumeRatioMeaning` | trading_app.py:85-86 | Volume_Ratio times Volume_SMA_20 is the row's volume, and the ratio is undefined exactly when all 20 volumes of the window are 0 |
| `Indicators.RsiUndefinedIffFlat` | trading_app.py:74-78 | RSI at row i is undefined exactly when the close did not change over the 14 rows ending at i |
| `Indicators.RsiUndefinedIffZeroMeans` | trading_app.py:77-78 | RSI at row i is undefined exactly when both rolling means are 0 |
| `Detectors.FirstThuFriFrom` | trading_app.py:100-105 | the scan finds the first index at or after i holding a Thursday immediately followed by a Friday, or reports that there is none |
| `Detectors.FirstThuFriUnique` | trading_app.py:100-105 | there is at most one first Thursday–Friday pair |
| `Detectors.SetupOf` | trading_app.py:91-121 | a setup exists exactly when the last 5 bars hold a Thursday→Friday pair and the first such pair has Friday high < Thursday high (equal highs give none); the setup is the one `NewSetup` builds from that pair (email_automation.py:163-190) |
| `Detectors.SetupRecord` | trading_app.py:110-121 | a setup carries the first pair's Thursday high, Friday high, low and close; decline_pct is `(fh - th)/th*100` and negative; rsi and volume_ratio are the last row's values, or None without the columns; below_sma20 is False without SMA_20 and otherwise whether the Friday close is below the last row's SMA_20 (email_automation.py:182-191) |
| `Detectors.NewSetup` | trading_app.py:110-121 | the setup record built from a Thursday and a Friday bar whose Friday high is below a positive Thursday high: the same fields, a negative decline_pct, the last row's rsi and volume_ratio, and below_sma20 as the comparison with the last SMA_20 (email_automation.py:182-191) |
| `Detectors.FirstPair` | trading_app.py:100-105 | the first Thursday→Friday pair of the window, or none when the window holds no such pair |
| `Detectors.PairSetup` | trading_app.py:110-121 | a pair gives a setup exactly when its Friday high is below its Thursday high, and the setup is `NewSetup` of the pair |
| `Detectors.SetupIn` | trading_app.py:96-121 | `SetupOf` on a given window: a setup exactly when the window's first pair has a lower Friday high, built from that pair |
| `Detectors.SetupOfAt` | trading_app.py:100-121 | when i is the first pair of the last 5 bars, `SetupOf` is `PairSetup` of that pair |
| `Detectors.SetupOfNoPair` | trading_app.py:107-108 | without a Thursday→Friday pair in the last 5 bars there is no setup (email_automation.py:179-180) |
| `Detectors.CheckPatternSetup` | trading_app.py:91-121 | the loop with `break` over the last 5 bars returns exactly `SetupOf`, and None for missing data (email_automation.py:163-190) |
| `Detectors.LastOfDay` | trading_app.py:134-139 | the index of the last bar of a weekday in the window, so a later bar of that weekday overrides an earlier one |
| `Detectors.GapPct` | trading_app.py:144 | for a positive Friday close, the gap is negative exactly when the Monday open is below the close (email_automation.py:213) |
| `Detectors.GapOf` | trading_app.py:124-153 | no gap unless the last 3 bars hold both a Friday and a Monday; the last Friday's close and the last Monday's open, low and high are used; `gap_pct = (mo - fc)/fc*100`; `has_gap_down` iff `gap_pct < -0.3`, so exactly -0.3 is not a gap down (email_automation.py:193-221) |
| `Detectors.CheckMondayGap` | trading_app.py:124-153 | the loop over the last 3 bars returns exactly `GapOf` (email_automation.py:193-221) |
| `Detectors.GapOrderIrrelevant` | trading_app.py:129-142 | in any `tail(3)` window holding one Friday and one Monday bar, with no Friday or Monday after either of them, swapping the two bars does not change the gap: adjacent or not, at the end or not |
| `Detectors.LastOfDayIs` | trading_app.py:134-139 | the last bar of a weekday in the window is exactly the one the overwriting scan keeps |
| `Detectors.GapOfLastDays` | trading_app.py:129-153 | a window of 2 or 3 bars whose last Friday and last Monday are given bars measures the gap between those two bars |
| `Sizing.PositionSize` | trading_app.py:156-160 | the position value moving by the stop distance loses exactly `risk_pct` percent of capital |
| `Sizing.Trunc` | trading_app.py:394 | `int()` truncates toward zero: never farther from zero than its argument, same sign, less than 1 away (email_automation.py:449) |
| `Sizing.SizeTrade` | trading_app.py:384-398 | ZeroEntry exactly when entry is 0; ZeroRisk exactly when stop equals a nonzero entry; otherwise risk_pct is the absolute percentage distance of stop from entry; position, Profit_if_Target and Loss_if_Stop are shares times entry, times (target - entry) and times (entry - stop) (email_automation.py:444-452) |
| `Sizing.RiskPctIsDistance` | trading_app.py:391-393 | `abs((stop - entry)/entry*100)` is `|stop - entry|/|entry|*100`, and it is 0 only when stop equals entry (email_automation.py:445) |
| `Sizing.SizedFacts` | trading_app.py:393-398 | a sized trade has shares = trunc(position_value/entry) and a position value whose stop-distance move is 1% of capital (email_automation.py:447-450) |
| `Sizing.PositionWithinValue` | trading_app.py:394-395 | the position `shares*entry` never exceeds the position value in magnitude, and not at all for non-negative capital (email_automation.py:462) |
| `Sizing.LossWithinBudget` | trading_app.py:398 | `abs(Loss_if_Stop)` is at most 1% of a non-negative capital (email_automation.py:452, 559) |
| `Sizing.LossBound` | trading_app.py:393-398 | truncated share counts lose at most the budget that the untruncated position value would lose |
| `Sizing.CapitalRiskPct` | trading_app.py:415 | Capital_Risk_% times capital is 100 times the absolute loss at stop, and is non-negative for positive capital |
| `Sizing.CapitalRiskAtMostOnePercent` | trading_app.py:415 | for positive capital, Capital_Risk_% of a sized trade lies in [0, 1] (the rule stated at 588) |
| `Sizing.SharesAreMaximal` | trading_app.py:393-395 | for a positive entry and non-negative capital, shares is the largest whole count whose cost stays within the position value |
| `Sizing.TruncMaximal` | trading_app.py:394 | `int(pv/e)` shares of price e cost at most pv, and one more share would cost more |
| `Sizing.WorkedExample` | trading_app.py:384-398 | entry 100, target 97, stop 102 and capital 100000 give risk 2%, a 50000 position of 500 shares, profit -1500 (target below entry) and loss -1000 |
| `Ranking.FirstMatch` | trading_app.py:235 | the first statistics row whose Symbol equals the name, or none |
| `Ranking.SuccessRate` | trading_app.py:234-238 | the Gap_Down_Success_Rate of the first matching row; 0 without a match or without a statistics table (email_automation.py:243-247) |
| `Ranking.InsertDesc` | trading_app.py:264 | inserting into a descending list keeps it descending and adds exactly that element |
| `Ranking.SortDesc` | trading_app.py:264 | the sorted watchlist is descending by the key and a permutation of its input (email_automation.py:286-287; signals at 428-429 and email_automation.py:491-492) |
| `Ranking.Band` | trading_app.py:270-272 | a band holds exactly the rows whose rate lies in [lo, hi); a one-row watchlist is kept or dropped as its rate is in the band or not |
| `Ranking.BandOfConcat` | trading_app.py:270-272 | banding the concatenation of two watchlists concatenates their bands; with the one-row case of `Band` this says a band keeps its rows in their original order |
| `Ranking.BandOfPrepend` | trading_app.py:270-272 | banding a row followed by the rest is the band of that row followed by the band of the rest |
| `Ranking.Priority1` | trading_app.py:270 | priority 1 holds exactly the rows with a success rate of 95 or more (email_automation.py:296) |
| `Ranking.Priority2` | trading_app.py:271 | priority 2 holds exactly the rows with a success rate in [90, 95) (email_automation.py:297) |
| `Ranking.Priority3` | trading_app.py:272 | priority 3 holds exactly the rows with a success rate in [80, 90); this band exists only in the dashboard |
| `Ranking.BandsPartition` | trading_app.py:270-272 | the bands ≥95, [90,95), [80,90) and the rows below 80 together hold every row exactly as often as the watchlist does, so no row is in two bands (email_automation.py:296-297 shows the first two) |
| `Ranking.BandsDisjoint` | trading_app.py:270-272 | no row is in two priority bands, and a row below 80 is in none |
| `Ranking.BandKeepsOrder` | trading_app.py:270-272 | a band of the ranked watchlist is itself ranked |
| `Handoff.StrLeIsLex` | email_automation.py:418 | the string comparison `max` uses is the lexicographic order: a is at most b exactly when a is a prefix of b or is smaller at the first position where they differ |
| `Handoff.LexStep` | email_automation.py:418 | the lexicographic order unfolded by one character |
| `Handoff.PrefixStep` | email_automation.py:418 | a is a prefix of b exactly when their first characters agree and the rest of a is a prefix of the rest of b |
| `Handoff.DiffersStep` | email_automation.py:418 | a and b first differ at k > 0 exactly when their first characters agree and the rests first differ at k - 1 |
| `Handoff.StrLeTotal` | email_automation.py:418 | any two file names are ordered one way or the other by Python's string comparison |
| `Handoff.StrLeTransitive` | email_automation.py:418 | Python's string order is transitive |
| `Handoff.StrLeAntisymmetric` | email_automation.py:418 | two names each at most the other are equal |
| `Handoff.MaxName` | email_automation.py:418 | `max(csv_files)` is one of the files and no file is greater |
| `Handoff.LatestWatchlist` | email_automation.py:404-418 | none exactly when there is no watchlist file; otherwise the greatest name |
| `Handoff.DigitsValue` | email_automation.py:290 | the number spelled by a date stamp's digits is below 10^length |
| `Handoff.DigitOrderIsNumericOrder` | email_automation.py:418 | for digit strings of equal length, string order is numeric order |
| `Handoff.CommonPrefix` | email_automation.py:290 | the shared `friday_watchlist_` prefix does not change the order of two names |
| `Handoff.CommonSuffix` | email_automation.py:290 | the shared `.csv` suffix does not change the order of two equal-length stamps |
| `Handoff.FileNameOrderIsDateOrder` | email_automation.py:290 | two watchlist names compare as their YYYYMMDD stamps compare as numbers, i.e. as their dates |
| `Handoff.LatestIsNewest` | email_automation.py:418 | among dated watchlist files, the one picked carries the greatest date stamp |
| `Handoff.ConfiguredCapital` | email_automation.py:428 | `trading.capital` when present, 100000 when the section or the key is missing |
| `Handoff.SampleConfigCapital` | email_automation.py:28-39 | a configuration without a capital gets the same capital as the sample configuration written when none exists: 100000 |
| `Scans.FreshFrame` | trading_app.py:227-228 | a downloaded frame, and the frame after `calculate_indicators`, have every column aligned with the bars |
| `Scans.RowOf` | trading_app.py:240-251 | a watchlist row carries the stock's name and NSE code, the setup's Friday low, close and high, decline, RSI, below_sma20 and volume_ratio, and the stock's looked-up success rate (email_automation.py:249-258) |
| `Scans.FridayScan` | trading_app.py:219-264 | the scan loop (download, indicators in place, setup check, append) followed by the sort yields the rows of all stocks with a setup, ranked descending by success rate (email_automation.py:231-287) |
| `Scans.ConcatMapMember` | trading_app.py:221-251 | a row is collected by the loop exactly when one item's step produced it |
| `Scans.RowsForYields` | trading_app.py:227-251 | a stock contributes a row exactly when its download succeeded and shows a setup, and the row is built from that setup |
| `Scans.FridayRowsExact` | trading_app.py:219-251 | a row is on the watchlist exactly when some stock of the universe yields it (email_automation.py:231-258) |
| `Scans.FridayRowsAreSetups` | trading_app.py:229-250 | every watchlist row has a negative decline and carries its stock's looked-up success rate |
| `Scans.DashboardFridayScan` | trading_app.py:256-267 | the watchlist is kept for Monday only when it is not empty; an empty scan leaves the earlier one in place |
| `Scans.EmailFridayScan` | email_automation.py:258-297 | no setups give the "no setups" report; otherwise the ranked watchlist is saved under `friday_watchlist_<stamp>.csv` with its two priority bands, both ranked |
| `Scans.SignalFor` | trading_app.py:381-416 | a row gives a result exactly when its gap check reports a gap down; a signal has entry = Monday open, target = Friday_Low, stop = Friday_High, the gap below -0.3 and the row's stock and success rate; its sizing is `SizeTrade` of the Monday open, Friday_Low, Friday_High and the capital; a row is unsizeable exactly when it gaps down from a zero Monday open or from one equal to Friday_High (email_automation.py:436-465) |
| `Scans.AbortSticks` | trading_app.py:374-416 | once a row's sizing has raised, the later rows do not change the outcome |
| `Scans.MondayScan` | trading_app.py:374-429 | the loop checks every row in order, appends a signal per gap down, stops at the first row whose sizing raises, and ranks the signals by success rate (email_automation.py:431-492) |
| `Scans.AbortedIffUnsizeable` | trading_app.py:374-398 | the Monday loop ends early exactly when some row's sizing raises (`int()` of an infinite or undefined quotient), and `Aborted` names the first such row: every row before it passed (email_automation.py:436-450) |
| `Scans.NeverAbortsWhenSizeable` | trading_app.py:374-398 | when every gap down has a positive Monday open below a Friday close no higher than the row's Friday high, the Monday loop never ends early |
| `Scans.RunStepsExact` | trading_app.py:374-416 | a signal is produced exactly when one row's step gives it |
| `Scans.SignalsExact` | trading_app.py:384-416 | the Monday signals are exactly the sized gap downs of the watchlist rows (email_automation.py:439-465) |
| `Scans.OneSignalPerGapDown` | trading_app.py:384-416 | without an aborting row, the number of signals is the number of gap-down rows |
| `Scans.GapDownIsSizeable` | trading_app.py:384-398 | a gap down from a positive open below a Friday close no higher than the Friday high can always be sized |
| `Scans.SignalsRiskAtMostOnePercent` | trading_app.py:415 | with positive capital every signal's Capital_Risk_% is at most 1 |
| `Scans.DashboardMondayScan` | trading_app.py:365-429 | no kept watchlist gives the "no watchlist" outcome; otherwise the ranked signals, each risking at most 1% of the capital (the capital input accepts 10000 to 10000000, lines 167-174) |
| `Scans.EmailMondayScan` | email_automation.py:404-431 | no watchlist file gives the error outcome before any gap check, distinct from a scan with no signals; a file that cannot be read gives the load error; otherwise the newest file is scanned with the configured capital |
| `Scans.MondayPicksNewestFriday` | email_automation.py:290 | a watchlist saved under a date no earlier than any other watchlist file is the one the next Monday run picks |

## Left out

- Market data download through yfinance and its column flattening: a network
  library. It is the `fetch` parameter.
- The historical statistics file, the CSV writes and reads, `glob`, and
  creating and reading `config.json`: file I/O. They are parameters (`stats`,
  `files`, `load`, `config`), or the file name is returned.
- Exceptions while loading the watchlist CSV are the single `LoadFailed`
  outcome.
- SMTP and MIME sending and all HTML bodies: I/O and templating.
- The Streamlit widgets, tabs, charts, metrics and progress bars:
  presentation.
- `st.session_state` is the `kept` parameter and result.
- SMA_50: it is never defined on one month of data and is never used.
- Profit_Potential_% and Risk_Reward (trading_app.py:390, 412): display-only
  ratios. The source guards Risk_Reward against a zero risk with `if
  risk_pct != 0 else 0`, but nothing else in the block.
- Exact float semantics: reals replace floats.
  - NaN in the price data itself is not modelled.
  - A NaN success rate in the statistics file is not modelled.
  - Negative prices are excluded by the `Price` type.
- Pandas' sort is not stable, and the order it gives to equal success rates
  is unspecified. The scans are modelled with a stable tie order: `SortDesc`
  keeps equal keys in scan order. The contracts about sorting claim only the
  descending order and the permutation. Which stock `Aborted` names among
  equal rates follows the modelled tie order.
- The field subsets of each copy are not modelled separately. The e-mail copy
  reports fewer fields: no thursday_high, below_sma20 or volume_ratio in a
  setup, no monday_high in a gap, no Capital_Risk_%. The model carries the
  dashboard's full records for both.
- Command-line dispatch of the e-mail script: it only selects the Friday or
  the Monday run.
- `Sizing.CapitalRiskAtMostOnePercent`: stated for positive capital only. The
  dashboard's capital input guarantees this. With capital 0 the source divides
  by zero.
- `Sizing.LossWithinBudget`: stated for non-negative capital only. A negative
  configured capital makes the share count negative, and the bound is then
  about magnitudes of a negative budget.
