# stock_quant signal core in Dafny

This project models the core of stock_quant, a stock-screening tool. It takes
a daily price series (open, high, low, close and volume per bar), computes the
technical-indicator columns, and runs four trading rules over them:
HyperSniper, TH, Turtle and BNF. The firing rules are ranked by score, each
rule's past win rate is back-tested, and a position is sized under a 2% risk
budget. Results go to a keyed store of users, favorites, scan history,
strategy statistics and cached prices.

Modules, one per file:

- `Series` (`series.dfy`): the column algebra. A pandas float column is a
  `seq<Option<real>>`, and `None` stands for NaN. Arithmetic with a missing
  operand is missing, and every comparison with a missing operand is false.
  Rolling windows follow pandas' default `min_periods == window`. `shift(1)`
  is `Shift`.
- `Indicators` (`indicators.dfy`): `calculate_indicators` as `Calculate`,
  which builds an immutable `Frame` of columns, and `fetch_data`'s 200-bar
  rule as `Load`.
- `IndicatorFacts` (`indicator_facts.dfy`): what each column holds, row by
  row. This covers warm-up rows, closed forms, bounds, and the absence of
  look-ahead for every column except VWAP, whose anchor moves as bars
  arrive.
- `Text` (`text.dfy`): `str.join`, substring search, ASCII `isdigit` and
  `isalpha`, and decimal rendering and parsing.
- `Strategies` (`strategies.dfy`): the closed set of four rules. Each rule has
  a live `Check` score, a per-bar `Backtest` column and a `DeepDive` report.
- `StrategyFacts` (`strategy_facts.dfy`): where live check, backtest and
  deep dive agree, where they do not, and the price levels.
- `Scanner` (`scanner.dfy`): `analyze_single_stock` (match, stable ranking,
  display string), `calc_win_rate` (forward win counting and the `:.0f`
  percentage), the sizing of `analyze_strategy_deep_dive`, and
  `get_all_strategies_status`.
- `ScannerFacts` (`scanner_facts.dfy`): the properties of the ranking, of the
  win rate and of sizing.
- `Store` (`store.dfy`): `database.py` as pure transitions on maps keyed by
  each table's primary or unique key. SQLite text ordering is code-point
  lexicographic order (`Below`).
- `ScanRules` (`scan_ui.dfy`): the pure rules inside `tabs_scanner.py`. These
  are code normalisation (`strip` then `zfill(6)`), the strategy-box filter,
  the progress fraction, and which history rows a finished scan records.

Real numbers are exact. A check score is `Score`, a real or `+inf`. `+inf` is
the value the source produces when a positive amount is divided by a zero base
(TH's previous HMA, Turtle's 20-day high). Rankings order scores on the
extended reals.

## Model

| member | source | states |
|---|---|---|
| Series.Div | strategies/common.py:64-78 | A quotient is present exactly when both operands are present and the divisor is non-zero |
| Series.Shift | strategies/common.py:106-113 | `shift(1)`: row 0 is missing and row i holds row i-1, at the same length |
| Series.RollingOnLifted | strategies/common.py:41-44 | On a fully present column a rolling statistic is missing exactly for the first w-1 rows, and afterwards is the statistic of the last w values |
| Series.RollingCausal | strategies/common.py:41-44 | Truncating a column after row k changes no rolling value before k |
| Series.MeanWithin | strategies/common.py:41-44 | A window mean lies between the window's smallest and largest value |
| Indicators.Load | strategies/common.py:24-29 | Fewer than 200 bars give no frame; otherwise the frame `calculate_indicators` builds from the bars, well formed and of the same length |
| Indicators.Calculate | strategies/common.py:40-116 | The frame is well formed, one row per bar, and carries the bars' closes, highs and lows |
| Indicators.ArgMin | strategies/common.py:84 | `idxmin`: a position holding the smallest value, with every earlier value strictly larger (the first minimum) |
| Indicators.VwapAnchor | strategies/common.py:83-90 | The anchor lies in the last 150 rows (or anywhere in a shorter series), holds the lowest Low there, and is its first occurrence |
| IndicatorFacts.SmaAt | strategies/common.py:41-44 | MA_w is missing for the first w-1 rows; afterwards it is the mean of the last w closes and lies between their minimum and maximum |
| IndicatorFacts.ShortSeriesMa200Missing | strategies/common.py:42-44 | With fewer than 200 bars MA200 is missing on every row, while MA20 is present exactly from row 19 |
| IndicatorFacts.DisparityAt | strategies/common.py:77-78 | Disparity25 is missing on the first 24 rows; from row 24 on it is 100 * Close / MA25 with MA25 the mean of the last 25 closes, and missing when that mean is zero |
| IndicatorFacts.DisparityOfConstantSeries | strategies/common.py:77-78 | A constant positive close gives Disparity25 = 100 wherever MA25 exists |
| IndicatorFacts.HmaWindows | strategies/common.py:31-33 | For period 14 the half window is 7 and the root window is 3 |
| Indicators.FloorSqrt | strategies/common.py:32 | `int(np.sqrt(n))`: the largest whole number whose square does not exceed n |
| IndicatorFacts.RawHmaColumn | strategies/common.py:34-36 | `2*MA7 - MA14` is missing on the first 13 rows and is the raw Hull value afterwards |
| IndicatorFacts.HmaRaw | strategies/common.py:31-38 | HMA(14) is the 3-row rolling mean of `2*MA7 - MA14` |
| IndicatorFacts.HmaAt | strategies/common.py:31-38 | HMA(14) is missing on rows 0..14, and from row 15 on is the mean of the last three raw Hull values |
| IndicatorFacts.EmaRecurrence | strategies/common.py:49-51 | `e[0] = x[0]` and `e[i] = alpha*x[i] + (1-alpha)*e[i-1]` with `alpha = 2/(span+1)` |
| IndicatorFacts.EmaPrefix | strategies/common.py:49-51 | The EMA of a prefix is the prefix of the EMA |
| IndicatorFacts.EmaConstant | strategies/common.py:49-51 | A constant series has that constant as EMA on every row |
| IndicatorFacts.AlphaRange | strategies/common.py:49 | The smoothing factor lies in (0, 2], and in (0, 1] for a span of at least 1 |
| IndicatorFacts.EmaWithin | strategies/common.py:49-51 | If every input lies in lo..hi, so does every EMA value; applied to a prefix (with EmaPrefix) this bounds the EMA by the values seen so far |
| IndicatorFacts.MacdOfConstantSeries | strategies/common.py:53-57 | A constant close gives MACD, Signal and histogram 0 on every row |
| IndicatorFacts.PriorMaxAt | strategies/common.py:106-109 | High20/High10 are missing for i < w, and otherwise are the largest of the w values before row i, the current row excluded |
| IndicatorFacts.PriorMinAt | strategies/common.py:106-109 | Low20/Low10 are missing for i < w, and otherwise are the smallest of the w values before row i, the current row excluded |
| IndicatorFacts.TrueRangeAt | strategies/common.py:111-114 | TR equals High-Low on row 0 (the NaN gaps are skipped); later it is one of High-Low, the gap from High to the previous close and the gap from Low to it, and at least each of them, so it is their maximum |
| IndicatorFacts.AtrNonNegative | strategies/common.py:111-115 | ATR is missing on the first 19 rows and afterwards is a non-negative 20-row mean when every High is at least its Low |
| IndicatorFacts.VwapAtAnchor | strategies/common.py:80-90 | On the anchor row VWAP is that row's typical price when its volume is non-zero |
| IndicatorFacts.VwapAnchorRow | strategies/common.py:83-90 | VWAP is missing before the anchor and starts at the anchor's typical price |
| IndicatorFacts.VwapWithin | strategies/common.py:80-90 | With positive volumes, VWAP from the anchor on lies between the lowest and highest typical price since the anchor |
| IndicatorFacts.WeightedAverageWithin | strategies/common.py:86 | A volume-weighted average of prices lies between the lowest and highest price |
| IndicatorFacts.FlowsAt | strategies/common.py:94-99 | A row has positive flow only where TP strictly rose, negative flow only where it strictly fell, and never both |
| IndicatorFacts.MfiWithin | strategies/common.py:94-104 | With non-negative TPV, MFI is missing on the first 13 rows, and afterwards is the index of the 14-row flow sums (zero negative sum read as 1) and lies in [0, 100) |
| IndicatorFacts.IndexOfRatio | strategies/common.py:104 | `100 - 100/(1+r)` lies in [0, 100) for r >= 0 |
| IndicatorFacts.RsiWithin | strategies/common.py:66-68 | RSI is missing on the first 14 rows and lies in [0, 100] where present |
| IndicatorFacts.RsiRow | strategies/common.py:68 | The RSI of a non-negative mean gain and mean loss lies in [0, 100] |
| IndicatorFacts.StochWithin | strategies/common.py:70-73 | When every close lies within its bar's range, %K is missing on the first 13 rows and lies in [0, 100] where present |
| IndicatorFacts.BandOrder | strategies/common.py:59-64 | With a non-negative deviation the Bollinger bands are ordered around MA20, and the band width over a positive MA20 is non-negative |
| IndicatorFacts.StdPresent | strategies/common.py:59 | The rolling deviation is present exactly where MA20 is |
| IndicatorFacts.SmaCausal | strategies/common.py:41-44 | No moving-average row depends on later bars |
| IndicatorFacts.MacdCausal | strategies/common.py:53-56 | No MACD or Signal row depends on later bars |
| IndicatorFacts.PriorMaxCausal | strategies/common.py:106-109 | No breakout-level row depends on later bars |
| IndicatorFacts.AtrCausal | strategies/common.py:111-115 | No TR or ATR row depends on later bars |
| IndicatorFacts.HmaCausal | strategies/common.py:31-38 | No HMA(14) row depends on later bars |
| IndicatorFacts.RsiCausal | strategies/common.py:66-68 | No RSI row depends on later bars |
| IndicatorFacts.StochCausal | strategies/common.py:70-73 | No %K row depends on later bars |
| IndicatorFacts.MfiCausal | strategies/common.py:94-104 | No MFI row depends on later bars |
| IndicatorFacts.DisparityCausal | strategies/common.py:77-78 | No Disparity25 row depends on later bars |
| IndicatorFacts.BandCausal | strategies/common.py:59-64 | No Bollinger band or band-width row depends on later bars |
| Strategies.Position | strategies/library.py:208-212 | Each rule has a position in the active list that holds it |
| StrategyFacts.ActiveIsComplete | strategies/library.py:208-212 | The active list holds all four rules, each once, and a rule's name identifies it |
| StrategyFacts.MarkersMatchBacktest | strategies/library.py:49-52 | Every deep dive's chart column is 1 exactly where its backtest buys and 0 elsewhere, one entry per bar |
| StrategyFacts.ThBuyLast | strategies/library.py:41-43 | The TH backtest buys on the last bar exactly when HMA rose and the close is above it |
| StrategyFacts.TurtleBuyLast | strategies/library.py:85-86 | The Turtle backtest buys on the last bar exactly on a fresh close above High20 that is also above MA200 |
| StrategyFacts.SniperBuyLast | strategies/library.py:168-171 | The HyperSniper backtest buys on the last bar exactly on a close crossing MA20 from at-or-below with EMA10 above EMA20 |
| StrategyFacts.ThFiresOnlyIf | strategies/library.py:24-33 | A firing TH check has a rising HMA, either out of a trough or under the close, and RSI below 75 |
| StrategyFacts.ThRisingFires | strategies/library.py:24-33 | A rising HMA over a non-negative base, turning or under the close, with RSI in [0, 75), fires TH |
| StrategyFacts.ThBuyFires | strategies/library.py:24-43 | Where the TH backtest buys on the last bar, with RSI in [0, 75) and a non-negative HMA base, the live check fires |
| StrategyFacts.ThNegativeBaseMisses | strategies/library.py:24-43 | The non-negative base ThBuyFires requires is needed: over a negative HMA base a rise of at least half a percent of the base makes the backtest buy while the live check stays silent |
| StrategyFacts.ThReversalBelowHma | strategies/library.py:24-43 | The converse fails: a reversal with the close under HMA fires the live check but not the backtest |
| StrategyFacts.ThDiveBuysWithBacktest | strategies/library.py:45-63 | The TH deep dive says BUY exactly when the backtest buys on the last bar, and otherwise Wait |
| StrategyFacts.ThDiveEntry | strategies/library.py:57-61 | A TH buy is an "entry" exactly when HMA has just turned or yesterday's close was not above it |
| StrategyFacts.ThLevels | strategies/library.py:65-69 | The TH stop is three ATRs under the close and the target six ATRs over it; with ATR > 0 the stop is below the close and the target above it, at twice the stop's distance |
| StrategyFacts.TurtleFiresIffBuy | strategies/library.py:76-86 | With a non-negative High20 the live Turtle check fires exactly when the backtest buys on the last bar |
| StrategyFacts.TurtleNegativeHighMisses | strategies/library.py:76-80 | With a negative High20 a breakout by a positive close scores negative, so the check does not fire although the backtest buys |
| StrategyFacts.TurtleDivePriority | strategies/library.py:88-100 | With a non-negative High20 the Turtle deep dive says BUY exactly when the live check fires, EXIT exactly when it does not and the close is under Low10, HOLD exactly when none of those holds and the close is above MA200, and otherwise Wait |
| StrategyFacts.TurtleLevels | strategies/library.py:102 | The Turtle entry is High20, the stop two ATRs under it and the target four ATRs over it; with ATR > 0 the stop is below the entry and the target above it |
| StrategyFacts.BnfFiresIffBuy | strategies/library.py:109-128 | BNF fires exactly when the backtest buys on the last bar, scoring at least 20, and the deep dive then says oversold |
| StrategyFacts.BnfLevels | strategies/library.py:128-129 | BNF levels: entry at the close, stop 5% under it, target MA25 |
| StrategyFacts.SniperScoreLevels | strategies/library.py:137-159 | The HyperSniper score is 0, 80, 90 or 100; it is 0 below 60 rows; it is positive exactly when all five filters pass; it is at least 90 exactly on a breakout or volume surge; a positive score is exactly 100 when the close crosses MA20 on a volume surge |
| StrategyFacts.SniperVwapGate | strategies/library.py:141-143 | A missing VWAP never blocks HyperSniper; a present one needs the close at or above it |
| StrategyFacts.SniperCrossIsBuy | strategies/library.py:149-171 | A strict cross-up over MA20 on an elite trend is a backtest buy |
| StrategyFacts.SniperTouchIsOnlyBacktest | strategies/library.py:149-171 | On an elite trend, a close that sat exactly on MA20 yesterday and is above it today is a backtest buy but not a live cross-up |
| StrategyFacts.SniperDivePriority | strategies/library.py:173-197 | HyperSniper verdict ladder, each rung as an iff: breakout exactly on a cross-up, pullback on support with elite alignment and no cross-up, trend above MA20 and elite without support or cross-up, "below MA20" exactly under MA20, plain Wait above MA20 without elite alignment |
| StrategyFacts.SniperLevels | strategies/library.py:199-201 | The HyperSniper entry is the close, the target 15% over it and the stop 3% under MA20; with a positive close and MA20 the target is above the entry and the stop under MA20 |
| StrategyFacts.SniperChecklist | strategies/library.py:181-186 | The checklist carries the matching VWAP mark only when VWAP exists, the squeeze mark exactly under width 0.25, the alignment mark exactly when elite |
| StrategyFacts.DiveNote | strategies/library.py:199-203 | Only the HyperSniper deep dive carries a checklist message |
| Scanner.AboveOrder | strategies/scanner.py:24 | Score comparison is a strict total order |
| Scanner.Matches | strategies/scanner.py:15-20 | Every match is a listed rule with its own positive score, and every listed rule with a positive score is matched |
| Scanner.MatchesInOrder | strategies/scanner.py:17-20 | Matching rules listed in active order keeps that order |
| Scanner.Insert | strategies/scanner.py:24 | Insertion adds exactly one element to the list's multiset |
| Scanner.Rank | strategies/scanner.py:24 | Ranking is a permutation |
| Scanner.InsertSorted | strategies/scanner.py:24 | Inserting into a score-sorted list keeps it sorted |
| Scanner.InsertStable | strategies/scanner.py:24 | Inserting a rule later than every listed one keeps ties in active order |
| Scanner.RankSortedStable | strategies/scanner.py:24 | A list in active order ranks into non-increasing scores with ties kept in active order (a stable sort) |
| Scanner.Where | strategies/scanner.py:65 | `np.where(cond[:k])` lists only bars before k |
| Scanner.WhereExact | strategies/scanner.py:65 | `Where` lists exactly the signal bars before k, ascending, each once |
| Scanner.WinRateOf | strategies/scanner.py:62-71 | Wins never exceed the judged signals, which never exceed the bars with a close five bars ahead |
| Scanner.WhereStep | strategies/scanner.py:65-71 | Extending the range by one bar appends that bar exactly when it signals, and its win is counted |
| Scanner.Wins | strategies/scanner.py:70 | Wins never exceed the signals counted |
| Scanner.CountWins | strategies/scanner.py:64-71 | A single pass over the bars counts the same wins and total as the whole-array definition `WinRateOf` |
| Scanner.RoundPercentNearest | strategies/scanner.py:72 | The `:.0f` percentage is within half a percent of `100*wins/total` |
| Scanner.RoundPercentAtMost100 | strategies/scanner.py:72 | For wins within the total the rounded percentage is at most 100 |
| Scanner.Analyze | strategies/scanner.py:7-38 | No result exactly when nothing fires; otherwise the ranked list, its head as top rule, the " > "-joined names, the last close, and the past win rate as the top rule's name, ": " and the text of its own backtest's win rate |
| Scanner.Trunc | strategies/scanner.py:95-96 | `int()` truncates toward zero |
| Scanner.StatusOf | strategies/scanner.py:110-115 | The status map has one key per listed rule's name |
| ScannerFacts.MatchesOfActive | strategies/scanner.py:15-20 | Matching over the active list keeps active order and lists exactly the rules with positive score |
| ScannerFacts.RankMembers | strategies/scanner.py:15-25 | The ranking holds exactly the positive rules, each with its own score |
| ScannerFacts.RankOrder | strategies/scanner.py:24-26 | The ranking is sorted and stable, names each rule once, and nothing scores above its head |
| ScannerFacts.RankDistinct | strategies/scanner.py:24-25 | No rule appears twice in the ranking |
| ScannerFacts.RankHead | strategies/scanner.py:24-26 | No rule in the ranking scores above its head |
| ScannerFacts.AnalyzeNoneIff | strategies/scanner.py:17-22 | A stock has no result exactly when no active rule fires |
| ScannerFacts.RankedFiring | strategies/scanner.py:15-25 | The ranked list holds every firing rule and nothing else, each with its own score |
| ScannerFacts.RankedOrder | strategies/scanner.py:24-26 | The ranked list is best first, each rule once, ties in active order, and nothing scores above its head |
| ScannerFacts.FindingDisplay | strategies/scanner.py:25-37 | The display string starts with the top rule's name and has the names' length plus three per separator; the win rate is reported under the top rule's name |
| Text.JoinStartsWithFirst | strategies/scanner.py:37 | A " > "-joined string starts with its first name |
| Text.JoinLength | strategies/scanner.py:37 | The joined length is the names' total length plus one separator between neighbours |
| Text.Decimal | strategies/scanner.py:72 | A count renders as a non-empty string of digits |
| Text.DecimalRoundTrip | strategies/scanner.py:72 | Reading a rendered count back gives the count |
| ScannerFacts.AnalyzeStockNeedsHistory | strategies/scanner.py:7-22 | Under 200 bars there is no result, and a result means some rule fires on the loaded frame |
| ScannerFacts.WinRateCounts | strategies/scanner.py:62-71 | The counted bars are exactly the signal bars with a close five bars ahead, and the wins are exactly those whose close five bars later is strictly higher |
| ScannerFacts.WinsCountRises | strategies/scanner.py:64-70 | Over the signal bars before k, the win count is the number of bars whose close five bars later is strictly higher |
| ScannerFacts.WinRateTextZero | strategies/scanner.py:66-72 | The text is "0% (0/0)" exactly when no bar was judged |
| ScannerFacts.TruncQuotient | strategies/scanner.py:95-96 | `int(a/b)` for non-negative a and positive b is the largest whole count whose multiple stays within a |
| ScannerFacts.RiskSharesBudget | strategies/scanner.py:94-95 | The budget count is non-negative, zero without positive risk, and the largest count whose loss fits the budget |
| ScannerFacts.CappedAffordable | strategies/scanner.py:96 | The capital cap never raises the count, keeps the cost within capital, and only cuts to the largest affordable count |
| ScannerFacts.SizingLimits | strategies/scanner.py:88-96 | A letters-only ticker converts capital at the rate; the budget is 2% of it; shares are non-negative, zero without a stop below entry, and cost at most the capital |
| ScannerFacts.SizingLoss | strategies/scanner.py:91-101 | The recorded total loss is shares times the distance from entry to stop |
| ScannerFacts.SizingRisk | strategies/scanner.py:91-101 | With the stop under the entry the loss stays within the 2% budget, and one more share would break the budget or the capital |
| ScannerFacts.CountMaximal | strategies/scanner.py:94-96 | The capped budget count loses at most the budget and is the largest count both budget and capital allow |
| ScannerFacts.PlanUsesDeepDive | strategies/scanner.py:86-101 | A trade plan carries the deep dive's report and is sized on its entry and stop |
| ScannerFacts.StatusOfValue | strategies/scanner.py:110-115 | Each listed rule's name maps to its deep-dive verdict label |
| ScannerFacts.StatusCoversActive | strategies/scanner.py:110-115 | The status map has exactly one key per active rule name, holding that rule's deep-dive verdict |
| Store.BelowTotal | database.py:208 | Text order is total on distinct strings |
| Store.BelowTransitive | database.py:208 | Text order is transitive |
| Store.SortAscending | database.py:286 | The result is strictly ascending and holds exactly the set's elements |
| Store.ReverseAscending | database.py:208 | Reversing an ascending list gives a descending one with the same elements |
| Store.SignUp | database.py:88-100 | Succeeds exactly for a new name; a failure leaves the table unchanged; a success adds only that name and keeps every other row |
| Store.UserRole | database.py:111-117 | An unknown name reads as an ordinary user, a known one as its stored role |
| Store.UpdatePassword | database.py:127-133 | Only the named user's hash changes, and only if the user exists |
| Store.EmailCheck | database.py:119-133 | After a sign-up exactly the registered email verifies for the new name, and changing a password changes no email check |
| Store.SignUpListed | database.py:88-100 | After a successful sign-up the user list gains exactly (name, email, role), the role being administrator exactly on an empty table |
| Store.FirstUserIsAdmin | database.py:88-98 | A successful sign-up creates an administrator exactly when the table was empty |
| Store.SignUpKeepsAdmin | database.py:88-98 | Sign-ups keep at most one administrator, and a non-empty table built by sign-ups has one |
| Store.LoginAfterSignUp | database.py:88-109 | After a sign-up the password logs in, and with an injective hash no other password does |
| Store.LoginAfterUpdate | database.py:102-133 | The new password logs in exactly for an existing user, and the old one stops working unless equal |
| Store.AddFavorite | database.py:160-169 | Insert-or-ignore under (user, code): the key is present afterwards, old rows are kept, and a new row holds the given values |
| Store.RemoveFavorite | database.py:171-176 | Deletes exactly that pair and keeps every other row |
| Store.UpdateFavoritePrice | database.py:178-184 | Changes only that pair's price, if present |
| Store.UpdateFavoriteDate | database.py:186-192 | Changes only that pair's date, if present |
| Store.AddFavoriteIdempotent | database.py:164-167 | Adding a pair twice is adding it once, and the first row stays |
| Store.RemoveUndoesAdd | database.py:160-176 | Removing a pair just added to a table without it restores the table |
| Store.FavoritesAfterAdd | database.py:152-169 | After adding, the user's list gains the code with its new row, or keeps the first row if present; other users' lists are unchanged |
| Store.FavoritesAfterRemove | database.py:152-176 | After removing, the user's list is the old one without that code; other users' lists are unchanged |
| Store.SaveScanResult | database.py:195-203 | Insert-or-ignore under (date, strategy, code): old rows stay, and a new key gets the given row |
| Store.SaveScanResultIdempotent | database.py:195-203 | Saving the same key again changes nothing, keeping the first row's name, price and market |
| Store.ScanHistoryDates | database.py:205-211 | Each date with history once, strictly descending |
| Store.DescendingDistinct | database.py:208 | A strictly descending list holds no date twice |
| Store.HistoryAfterSave | database.py:195-219 | A saved result is listed on its date with the given row if new, or the first row otherwise; other dates' listings are unchanged |
| Store.DatesAfterScan | database.py:195-211 | Saving a result adds its date to the dates with history, and no other date |
| Store.WinRatePercent | database.py:226 | The stored win rate is 0 when the total is not positive |
| Store.WinRatePercentBounds | database.py:226 | The win rate lies in [0, 100] for wins within the total, and times the total gives 100 times the wins |
| Store.UpdateStrategyStats | database.py:221-232 | Insert-or-replace one row per tallied strategy; untallied rows are unchanged |
| Store.StrategyStats | database.py:234-240 | One entry per stored strategy |
| Store.StatsReadBack | database.py:221-240 | After an update a tallied strategy reads back its formula, replacing the old row, and the others read back unchanged |
| Store.UpdateStatsIdempotent | database.py:221-232 | Updating twice with the same tallies equals updating once, up to the time stamp |
| Store.DeleteUser | database.py:143-149 | The user and all of the user's favorites go; no other row changes |
| Store.DeletedUserIsGone | database.py:143-149 | A deleted user has no favorites, reads as an ordinary user and cannot log in |
| Store.DeleteKeepsSingleAdmin | database.py:143-149 | Deleting a user never creates a second administrator |
| Store.DeleteUnlists | database.py:135-149 | After deleting a user the user list is the old one without that name |
| Store.SaveDailyPrice | database.py:255-281 | Existing (code, date) rows are never overwritten |
| Store.SaveDailyPriceKeys | database.py:263-279 | The stored keys are the old ones plus the keys of the rows that have both open and close |
| Store.SaveDailyPriceFirst | database.py:263-279 | A newly stored row is the first row of that date in the batch that has both an open and a close |
| Store.DatesAfterSave | database.py:246-279 | After saving a batch the code's dates are the old ones plus the dates of rows with an open and a close; other codes' dates are unchanged |
| Store.LastPriceDate | database.py:246-253 | None exactly without rows for the code; otherwise a stored date that no other stored date exceeds |
| Store.LoadDailyPrice | database.py:283-296 | None exactly without rows; otherwise the code's stored rows, each date once, in ascending date order |
| ScanRules.LeadingSpaces | tabs_scanner.py:28 | The count of leading whitespace, stopping at the first other character |
| ScanRules.TrailingStart | tabs_scanner.py:28 | The start of the trailing whitespace, just after the last other character |
| ScanRules.StripShape | tabs_scanner.py:28 | `strip()` removes only surrounding whitespace (the characters `str.isspace` accepts) and leaves none at either end |
| ScanRules.StripFixed | tabs_scanner.py:28 | A string without whitespace at either end is its own strip |
| ScanRules.StripIdempotent | tabs_scanner.py:28 | Stripping twice is stripping once |
| ScanRules.PadCode | tabs_scanner.py:29-30 | A digits-only code shorter than six is left-padded with '0' to six; any other code is unchanged |
| ScanRules.ZerosValue | tabs_scanner.py:29 | Leading zeros keep a numeral's value |
| ScanRules.PadCodeValue | tabs_scanner.py:29-30 | Padding keeps a digits-only code digits-only and keeps its value |
| ScanRules.PadCodeIdempotent | tabs_scanner.py:29-30 | Padding a padded code changes nothing |
| ScanRules.NormalizeIdempotent | tabs_scanner.py:28-30 | Normalising a normalised code changes nothing |
| ScanRules.ListedNumberCode | tabs_scanner.py:28-30 | A listing number below a million becomes a six-digit code of the same value |
| ScanRules.SeparatorStripped | tabs_scanner.py:28-30 | A code behind the file separator U+001C, which `str.strip` treats as whitespace, normalises to the zero-filled code |
| ScanRules.LabelInName | tabs_scanner.py:44-47 | A filter label occurs in exactly its own rule's display name |
| ScanRules.MentionsRule | tabs_scanner.py:44-47 | A label occurs in a result's names exactly when its rule is listed |
| ScanRules.KeepIffTicked | tabs_scanner.py:41-51 | A result is kept exactly when no box is ticked or one of its firing rules is ticked |
| ScanRules.Collect | tabs_scanner.py:35-51 | The kept results are never more than the analyses |
| ScanRules.CollectMembers | tabs_scanner.py:35-51 | A stock is kept exactly when its analysis found something the filter passes |
| ScanRules.CollectAppend | tabs_scanner.py:35-36 | Collecting two runs of outcomes is collecting each in turn, so stopping early keeps a prefix |
| ScanRules.CollectUnfiltered | tabs_scanner.py:40-50 | With no box ticked every analysis that found something is kept |
| ScanRules.Progress | tabs_scanner.py:122 | The progress fraction lies in [0, 1]; it is 0 while the total is 0 and exactly curr/total below the cap |
| ScanRules.ProgressFull | tabs_scanner.py:122 | The bar is full exactly when the total is known and every stock is processed |
| ScanRules.ProgressMonotone | tabs_scanner.py:122 | Processing more never moves the bar back |
| ScanRules.SaveCalls | tabs_scanner.py:133-143 | A stopped scan saves nothing |
| ScanRules.FlattenMembers | tabs_scanner.py:139-143 | The saves are exactly the (result, strategy name) pairs, one per name |
| ScanRules.Record | tabs_scanner.py:139-143 | Applying the saves keeps every existing history row |
| ScanRules.RecordKeys | tabs_scanner.py:139-143 | Recording adds exactly the saves' (date, strategy, code) keys |
| ScanRules.ScanRecordsHistory | tabs_scanner.py:130-143 | A stopped scan leaves history unchanged; otherwise every (result, name) pair has a row under the scan date |
| ScanRules.ScanRecordsOnlyPairs | tabs_scanner.py:139-143 | Every key a scan records is under the scan date and belongs to a kept result and one of its names |

## Definitions

The members below define the system's operations directly and carry no
contract of their own beyond lengths or shapes. Each is characterised by
the rows of the table above that are named after it.

- `Indicators.Sma`: `IndicatorFacts.SmaAt`, `IndicatorFacts.SmaCausal`.
- `Indicators.Hma`: `IndicatorFacts.HmaRaw`, `IndicatorFacts.HmaAt`, `IndicatorFacts.HmaCausal`.
- `Indicators.Ema`: `IndicatorFacts.EmaRecurrence`, `IndicatorFacts.EmaPrefix`, `IndicatorFacts.EmaWithin`.
- `Indicators.MacdLine`, `Indicators.SignalLine`: `IndicatorFacts.MacdOfConstantSeries`, `IndicatorFacts.MacdCausal`.
- `Indicators.Rsi`: `IndicatorFacts.RsiWithin`, `IndicatorFacts.RsiRow`, `IndicatorFacts.RsiCausal`.
- `Indicators.StochK`: `IndicatorFacts.StochWithin`, `IndicatorFacts.StochCausal`.
- `Indicators.Disparity`: `IndicatorFacts.DisparityRow`, `IndicatorFacts.DisparityAt`, `IndicatorFacts.DisparityCausal`.
- `Indicators.Vwap`: `IndicatorFacts.VwapRow`, `IndicatorFacts.VwapAnchorRow`, `IndicatorFacts.VwapWithin`.
- `Indicators.Mfi`: `IndicatorFacts.FlowsAt`, `IndicatorFacts.MfiWithin`, `IndicatorFacts.MfiCausal`.
- `Indicators.PriorMax`, `Indicators.PriorMin`: `IndicatorFacts.PriorMaxAt`, `IndicatorFacts.PriorMinAt`, `IndicatorFacts.PriorMaxCausal`.
- `Indicators.TrueRange`: `IndicatorFacts.TrueRangeAt`, `IndicatorFacts.AtrNonNegative`, `IndicatorFacts.AtrCausal`.
- `Strategies.ThCheck`: `StrategyFacts.ThFiresOnlyIf`, `StrategyFacts.ThRisingFires`, `StrategyFacts.ThBuyFires`, `StrategyFacts.ThNegativeBaseMisses`, `StrategyFacts.ThReversalBelowHma`.
- `Strategies.TurtleCheck`: `StrategyFacts.TurtleFiresIffBuy`, `StrategyFacts.TurtleNegativeHighMisses`.
- `Strategies.BnfCheck`, `Strategies.BnfBuy`, `Strategies.BnfDive`: `StrategyFacts.BnfFiresIffBuy`, `StrategyFacts.BnfLevels`.
- `Strategies.SniperCheck`: `StrategyFacts.SniperScoreLevels`, `StrategyFacts.SniperVwapGate`.
- `Strategies.Check`: the four checks above, and `ScannerFacts.AnalyzeNoneIff`.
- `Strategies.ThBuy`: `StrategyFacts.ThBuyLast`.
- `Strategies.TurtleBuy`: `StrategyFacts.TurtleBuyLast`.
- `Strategies.SniperBuy`: `StrategyFacts.SniperBuyLast`, `StrategyFacts.SniperCrossIsBuy`, `StrategyFacts.SniperTouchIsOnlyBacktest`.
- `Strategies.Backtest`: the four buys above, and `StrategyFacts.MarkersMatchBacktest`.
- `Strategies.ThDive`: `StrategyFacts.ThDiveBuysWithBacktest`, `StrategyFacts.ThDiveEntry`, `StrategyFacts.ThLevels`.
- `Strategies.TurtleDive`: `StrategyFacts.TurtleDivePriority`, `StrategyFacts.TurtleLevels`.
- `Strategies.SniperDive`: `StrategyFacts.SniperDivePriority`, `StrategyFacts.SniperLevels`, `StrategyFacts.SniperChecklist`.
- `Strategies.DeepDive`: the four deep dives above, `StrategyFacts.DiveNote` and `StrategyFacts.MarkersMatchBacktest`.
- `Strategies.Name`: `StrategyFacts.ActiveIsComplete`.
- `Scanner.Scores`, `Scanner.Ranked`: `ScannerFacts.RankedFiring`, `ScannerFacts.RankedOrder`.
- `Scanner.Names`, `Scanner.FindingOf`: `ScannerFacts.FindingDisplay`, `ScanRules.MentionsRule`.
- `Scanner.RoundPercent`: `Scanner.RoundPercentNearest`, `Scanner.RoundPercentAtMost100`.
- `Scanner.WinRateText`: `ScannerFacts.WinRateTextZero`, `ScannerFacts.FindingDisplay`.
- `Scanner.RiskShares`: `ScannerFacts.RiskSharesBudget`.
- `Scanner.Capped`: `ScannerFacts.CappedAffordable`, `ScannerFacts.CountMaximal`.
- `Scanner.Size`: `ScannerFacts.SizingLimits`, `ScannerFacts.SizingLoss`, `ScannerFacts.SizingRisk`.
- `Scanner.PlanTrade`: `ScannerFacts.PlanUsesDeepDive`.
- `Scanner.Status`: `ScannerFacts.StatusOfValue`, `ScannerFacts.StatusCoversActive`.
- `ScanRules.Strip`: `ScanRules.StripShape`, `ScanRules.StripFixed`, `ScanRules.StripIdempotent`.
- `ScanRules.NormalizeCode`: `ScanRules.NormalizeIdempotent`, `ScanRules.ListedNumberCode`, `ScanRules.SeparatorStripped`.
- `ScanRules.Keep`: `ScanRules.KeepIffTicked`.
- `ScanRules.HitOf`, `ScanRules.SavesOf`: `ScanRules.FlattenMembers`, `ScanRules.ScanRecordsHistory`.
- `Store.CheckLogin`: `Store.LoginAfterSignUp`, `Store.LoginAfterUpdate`, `Store.DeletedUserIsGone`.
- `Store.VerifyEmail`: `Store.EmailCheck`.
- `Store.AllUsers`: `Store.SignUpListed`, `Store.DeleteUnlists`.
- `Store.FavoritesOf`: `Store.FavoritesAfterAdd`, `Store.FavoritesAfterRemove`, `Store.DeletedUserIsGone`.
- `Store.HistoryOn`: `Store.HistoryAfterSave`.
- `Store.DatesOf`: `Store.DatesAfterScan`, `Store.ScanHistoryDates`.
- `Store.DatesFor`: `Store.DatesAfterSave`, `Store.LastPriceDate`.
- `Text.Join`: `Text.JoinStartsWithFirst`, `Text.JoinLength`.

Five further lemmas only unfold a definition at one row or field and serve
the proofs above: `Series.RollingAt` (rolling windows),
`IndicatorFacts.CalculateColumns` (`Indicators.Calculate`),
`IndicatorFacts.DisparityRow` (`Indicators.Disparity`, whose meaning
`DisparityAt` states), `IndicatorFacts.VwapRow` (`Indicators.Vwap`) and
`IndicatorFacts.EmaLast` (`Indicators.Ema`, whose meaning `EmaRecurrence`
states).

## Left out

- Raw bars are assumed complete: `Bar` holds plain reals, so a missing Open, High, Low, Close or Volume in a fetched frame is not represented. Only derived columns can be missing. `save_daily_price`'s skipping of rows without Open or Close is modelled separately through `Store.Storable`.
- Downloading prices and the exchange rate (`fetch_data`, `get_exchange_rate`, Streamlit caching) is outside the model. The bars and the rate are parameters; only the 200-bar rule of `fetch_data` is kept (`Indicators.Load`).
- The rolling standard deviation of the Bollinger bands is a parameter `sd`. Square roots of reals have no exact model, so band facts assume a non-negative deviation.
- Exact reals replace floats, so rounding error is not modelled. Division by zero gives a missing value instead of `inf`/NaN, except in three places. RSI with a zero mean loss gives 100. MFI replaces a zero negative sum by 1. A firing TH or Turtle score over a zero base is `Score.Infinite`.
- Threading, the worker pool, `as_completed` ordering and timeouts are left out. `ScanRules.Collect` takes the completed analyses in completion order as a sequence.
- The worker's call of `analyze_single_stock` (tabs_scanner.py:32) passes four arguments to a three-parameter function (strategies/scanner.py:7). That call is not modelled. The model assumes each analysis result reaches the filter.
- All UI is left out: Streamlit widgets, HTML reports (`get_report`, `_make_html`), charts, `format_price` and the `get_label` box captions.
- The chart and report columns of `analyze_single_stock` (the last 100 rows, rounded RSI, and so on) are not modelled.
- The `" ".join` strategy-name matching at the start of `analyze_strategy_deep_dive` is not modelled. It relies on `split` indexing inside a bare `except`. The model takes the strategy directly.
- Strategies.Check on TH requires three rows. On a two-row frame the source reads `df.iloc[-3]` only when HMA is present on both rows and rising (strategies/library.py:27), and the deep dive only when HMA rises and the close is above it (strategies/library.py:58); only then does it raise. The model leaves out the two-row case, the answer 0 or "Wait" included, because frames from `Load` always have at least 200 rows.
- `str.isdigit` and `str.isalpha` are modelled on ASCII only. Unicode digits and letters are not modelled. `str.strip` removes every character `str.isspace` accepts, Unicode spaces included.
- SQLite connections, schema creation and migrations, the `scan_history` autoincrement id and SHA-256 are not modelled. `hash_pw` is a function parameter; the date or time stamp of `add_favorite` and `update_strategy_stats` is a parameter.
- `get_all_users`, `get_favorites` and `get_history_by_date` return sets, because the SQL gives no order.
- `load_daily_price`'s conversion to a date index is not modelled. It returns the (date, row) pairs in ascending date order.
- Scanner.Where states only a bound in its own contract. Its meaning is proved in `WhereExact`.
- Scanner.Wins states only a bound in its own contract. Its meaning is proved in `WinsCountRises` and `WinRateCounts`: the wins are exactly the signal bars whose close five bars later is strictly higher.
- ScanRules.Collect states only a bound in its own contract. Its meaning is proved in `CollectMembers`.
- StrategyFacts.SniperLevels does not state the checklist message. `SniperChecklist` and `DiveNote` state it.
- StrategyFacts.SniperCrossIsBuy assumes the elite condition rather than a firing check. `SniperScoreLevels` shows that a firing check is elite.
- Store.StrategyStats states only the keys in its own contract; the values are proved in `StatsReadBack`.
- Store.SaveDailyPrice states only that old rows stay in its own contract. The keys and values it adds are proved in `SaveDailyPriceKeys` and `SaveDailyPriceFirst`.
