/**
  The four trading rules. Each strategy has three faces over an indicator
  frame:
    - `Check`: a score for the latest bar, positive when the rule fires;
    - `Backtest`: a per-bar boolean column of the rule's buy condition;
    - `DeepDive`: a verdict label, the chart marker column and the suggested
      entry / stop / target prices.
  The strategy set is closed, so it is a datatype rather than a class
  hierarchy, and `Active` fixes the order in which the scanner consults them.

  Comparisons follow the NaN convention of the `Series` module: any
  comparison that involves a missing value is false.
*/
module Strategies {
  import opened Series
  import opened Indicators
  import opened Text

  datatype Strategy = HyperSniper | TH | Turtle | BNF

  /** The rules the scanner runs, in order. */
  const Active: seq<Strategy> := [HyperSniper, TH, Turtle, BNF]

  /** Where a rule sits in `Active`. */
  function Position(s: Strategy): (k: nat)
    ensures k < |Active| && Active[k] == s
  {
    match s
    case HyperSniper => 0
    case TH => 1
    case Turtle => 2
    case BNF => 3
  }

  /** The display name, which is also the key of every per-strategy record. */
  function Name(s: Strategy): string {
    match s
    case HyperSniper => "🔫하이퍼스나이퍼"
    case TH => "🧬TH알고리즘"
    case Turtle => "🐢터틀"
    case BNF => "💧BNF"
  }

  /**
    A check score. A score is a float in the source; the only non-finite value
    a firing rule can produce is `+inf`, from dividing a positive amount by a
    zero base (a zero previous HMA for TH, a zero 20-day high for Turtle).
  */
  datatype Score = Finite(value: real) | Infinite {
    predicate Positive() { Infinite? || value > 0.0 }

    /** `this > other` on the extended reals. */
    predicate Above(other: Score) {
      match this
      case Infinite => other.Finite?
      case Finite(v) => other.Finite? && v > other.value
    }
  }

  const NoSignal: Score := Finite(0.0)

  // ---------------------------------------------------------------------------
  // Rows the rules read
  // ---------------------------------------------------------------------------

  /** How many trailing rows `Check` indexes: TH looks back two rows, Turtle
      one, BNF reads only the last row, and HyperSniper answers 0 by itself
      below 60 rows. */
  function CheckRows(s: Strategy): (k: nat)
    ensures k <= MaxRows
  {
    match s
    case HyperSniper => 0
    case TH => 3
    case Turtle => 2
    case BNF => 1
  }

  /** How many trailing rows `DeepDive` indexes. */
  function DiveRows(s: Strategy): (k: nat)
    ensures k <= MaxRows
  {
    match s
    case HyperSniper => 2
    case TH => 3
    case Turtle => 1
    case BNF => 1
  }

  /** The most any rule needs; every frame the scanner loads has far more. */
  const MaxRows: nat := 3

  function CloseAt(f: Frame, i: nat): Option<real>
    requires f.WellFormed() && i < f.Len()
  {
    Some(f.close[i])
  }

  // ---------------------------------------------------------------------------
  // Backtest columns
  // ---------------------------------------------------------------------------

  /** TH: HMA rising and the close above it. */
  function ThBuy(f: Frame): (r: seq<bool>)
    requires f.WellFormed()
    ensures |r| == f.Len()
  {
    var prevHma := Shift(f.hma);
    seq(f.Len(), i requires 0 <= i < f.Len() =>
      Gt(f.hma[i], prevHma[i]) && Gt(CloseAt(f, i), f.hma[i]))
  }

  /** Turtle: a fresh close above the 20-day high, above the 200-day average. */
  function TurtleBuy(f: Frame): (r: seq<bool>)
    requires f.WellFormed()
    ensures |r| == f.Len()
  {
    var prevClose := Shift(Lift(f.close));
    var prevHigh := Shift(f.high20);
    seq(f.Len(), i requires 0 <= i < f.Len() =>
      Gt(CloseAt(f, i), f.high20[i]) && Le(prevClose[i], prevHigh[i])
      && Gt(CloseAt(f, i), f.ma200[i]))
  }

  /** BNF: the 25-day disparity at or below 90. */
  function BnfBuy(f: Frame): (r: seq<bool>)
    requires f.WellFormed()
    ensures |r| == f.Len()
  {
    seq(f.Len(), i requires 0 <= i < f.Len() => Le(f.disparity25[i], Some(90.0)))
  }

  /** HyperSniper: the close crosses above MA20 while EMA10 is above EMA20. */
  function SniperBuy(f: Frame): (r: seq<bool>)
    requires f.WellFormed()
    ensures |r| == f.Len()
  {
    var prevClose := Shift(Lift(f.close));
    var prevMa20 := Shift(f.ma20);
    seq(f.Len(), i requires 0 <= i < f.Len() =>
      Gt(CloseAt(f, i), f.ma20[i]) && Le(prevClose[i], prevMa20[i])
      && Gt(f.ema10[i], f.ema20[i]))
  }

  function Backtest(s: Strategy, f: Frame): (r: seq<bool>)
    requires f.WellFormed()
    ensures |r| == f.Len()
  {
    match s
    case HyperSniper => SniperBuy(f)
    case TH => ThBuy(f)
    case Turtle => TurtleBuy(f)
    case BNF => BnfBuy(f)
  }

  // ---------------------------------------------------------------------------
  // Live checks
  // ---------------------------------------------------------------------------

  /** TH: HMA defined on the last two rows, rising either out of a trough or
      with the close above it, and RSI below 75; the score is the HMA slope in
      basis points plus half the RSI. */
  function ThCheck(f: Frame): Score
    requires f.WellFormed() && f.Len() >= 3
  {
    var n := f.Len();
    var h, p := f.hma[n - 1], f.hma[n - 2];
    if h.Some? && p.Some? then
      var reversal := Gt(h, p) && Le(p, f.hma[n - 3]);
      var following := Gt(h, p) && Gt(CloseAt(f, n - 1), h);
      if (reversal || following) && Lt(f.rsi[n - 1], Some(75.0)) then
        // h > p here, so a zero base divides a positive amount
        if p.value == 0.0 then Infinite
        else Finite((h.value - p.value) / p.value * 10000.0 + f.rsi[n - 1].value / 2.0)
      else NoSignal
    else NoSignal
  }

  /** Turtle: today's close breaks the 20-day high that yesterday's close had
      not, above the 200-day average; the score is the breakout margin in
      thousandths. */
  function TurtleCheck(f: Frame): Score
    requires f.WellFormed() && f.Len() >= 2
  {
    var n := f.Len();
    var c := CloseAt(f, n - 1);
    if Gt(c, f.high20[n - 1]) && Le(CloseAt(f, n - 2), f.high20[n - 2]) && Gt(c, f.ma200[n - 1]) then
      var h := f.high20[n - 1].value;
      // the close is above h here, so a zero high divides a positive close
      if h == 0.0 then Infinite else Finite((f.close[n - 1] / h - 1.0) * 1000.0)
    else NoSignal
  }

  /** BNF: disparity at or below 90 scores twice its shortfall from 100. */
  function BnfCheck(f: Frame): Score
    requires f.WellFormed() && f.Len() >= 1
  {
    var d := f.disparity25[f.Len() - 1];
    if Le(d, Some(90.0)) then Finite((100.0 - d.value) * 2.0) else NoSignal
  }

  /** HyperSniper's ingredients on the last bar (at least two rows). */
  predicate VwapOk(f: Frame)
    requires f.WellFormed() && f.Len() >= 1
  {
    var n := f.Len();
    f.vwap[n - 1].Some? ==> Ge(CloseAt(f, n - 1), f.vwap[n - 1])
  }

  predicate Squeezed(f: Frame)
    requires f.WellFormed() && f.Len() >= 1
  {
    var n := f.Len();
    Lt(f.bandwidth[n - 1], Some(0.20)) || Lt(f.bandwidth[n - 1], RollingMean(f.bandwidth, 20)[n - 1])
  }

  predicate Elite(f: Frame)
    requires f.WellFormed() && f.Len() >= 1
  {
    Gt(f.ema10[f.Len() - 1], f.ema20[f.Len() - 1])
  }

  predicate AboveMa20(f: Frame)
    requires f.WellFormed() && f.Len() >= 1
  {
    Gt(CloseAt(f, f.Len() - 1), f.ma20[f.Len() - 1])
  }

  /** Yesterday strictly below MA20, today above it. */
  predicate CrossUp(f: Frame)
    requires f.WellFormed() && f.Len() >= 2
  {
    var n := f.Len();
    Lt(CloseAt(f, n - 2), f.ma20[n - 2]) && AboveMa20(f)
  }

  /** Above MA20, the low within 3% above it, and a white candle. */
  predicate Support(f: Frame)
    requires f.WellFormed() && f.Len() >= 1
  {
    var n := f.Len();
    AboveMa20(f) && Le(Some(f.low[n - 1]), Scale(1.03, f.ma20[n - 1]))
    && f.close[n - 1] > f.open[n - 1]
  }

  predicate MomentumUp(f: Frame)
    requires f.WellFormed() && f.Len() >= 2
  {
    Gt(f.macdHist[f.Len() - 1], f.macdHist[f.Len() - 2])
  }

  predicate VolumeSurge(f: Frame)
    requires f.WellFormed() && f.Len() >= 1
  {
    var n := f.Len();
    Gt(Some(f.volume[n - 1]), RollingMean(Lift(f.volume), 20)[n - 1])
  }

  const SniperMinRows: nat := 60

  /** HyperSniper: all five filters pass; base 80, plus 10 for a cross-up and
      10 for volume above its 20-day average. */
  function SniperCheck(f: Frame): Score
    requires f.WellFormed()
  {
    if f.Len() < SniperMinRows then NoSignal
    else if VwapOk(f) && Squeezed(f) && Elite(f) && (CrossUp(f) || Support(f)) && MomentumUp(f) then
      Finite(80.0 + (if CrossUp(f) then 10.0 else 0.0) + (if VolumeSurge(f) then 10.0 else 0.0))
    else NoSignal
  }

  function Check(s: Strategy, f: Frame): Score
    requires f.WellFormed() && f.Len() >= CheckRows(s)
  {
    match s
    case HyperSniper => SniperCheck(f)
    case TH => ThCheck(f)
    case Turtle => TurtleCheck(f)
    case BNF => BnfCheck(f)
  }

  // ---------------------------------------------------------------------------
  // Deep dive
  // ---------------------------------------------------------------------------

  datatype Verdict =
    | BuyEntry | BuyTrend | BuyBreakout | BuyOversold | BuyPullback
    | Exit | HoldPosition | HoldTrend | WaitBelowMa20 | Wait

  /** The label shown for a verdict. */
  function Label(v: Verdict): string {
    match v
    case BuyEntry => "BUY (진입)"
    case BuyTrend => "BUY (추세지속)"
    case BuyBreakout => "BUY (돌파)"
    case BuyOversold => "BUY (과매도)"
    case BuyPullback => "BUY (눌림목)"
    case Exit => "EXIT"
    case HoldPosition => "HOLD (보유)"
    case HoldTrend => "HOLD (추세중)"
    case WaitBelowMa20 => "Wait (20일선 이탈)"
    case Wait => "Wait"
  }

  /** A deep-dive result; `note` is HyperSniper's checklist and absent for the
      other rules. */
  datatype Report = Report(
    signal: Verdict, chart: seq<int>,
    entry: Option<real>, stop: Option<real>, target: Option<real>,
    note: Option<string>)

  /** The chart marker column: 1 on bars where the buy condition holds. */
  function Markers(buy: seq<bool>): (r: seq<int>)
    ensures |r| == |buy|
  {
    seq(|buy|, i requires 0 <= i < |buy| => if buy[i] then 1 else 0)
  }

  function ThDive(f: Frame): Report
    requires f.WellFormed() && f.Len() >= 3
  {
    var n := f.Len();
    var c := CloseAt(f, n - 1);
    var h, p := f.hma[n - 1], f.hma[n - 2];
    var sig :=
      if Gt(h, p) && Gt(c, h) then
        if Le(p, f.hma[n - 3]) || Le(CloseAt(f, n - 2), p) then BuyEntry else BuyTrend
      else Wait;
    var atr := f.atr[n - 1];
    Report(sig, Markers(ThBuy(f)), c, Sub(c, Scale(3.0, atr)), Add(c, Scale(6.0, atr)), None)
  }

  function TurtleDive(f: Frame): Report
    requires f.WellFormed() && f.Len() >= 1
  {
    var n := f.Len();
    var c := CloseAt(f, n - 1);
    var buy := TurtleBuy(f);
    var sig :=
      if buy[n - 1] then BuyBreakout
      else if Lt(c, f.low10[n - 1]) then Exit
      else if Gt(c, f.ma200[n - 1]) then HoldPosition
      else Wait;
    var high, atr := f.high20[n - 1], f.atr[n - 1];
    Report(sig, Markers(buy), high, Sub(high, Scale(2.0, atr)), Add(high, Scale(4.0, atr)), None)
  }

  function BnfDive(f: Frame): Report
    requires f.WellFormed() && f.Len() >= 1
  {
    var n := f.Len();
    var sig := if Le(f.disparity25[n - 1], Some(90.0)) then BuyOversold else Wait;
    Report(sig, Markers(BnfBuy(f)), CloseAt(f, n - 1), Some(f.close[n - 1] * 0.95), f.ma25[n - 1], None)
  }

  /** HyperSniper's checklist: the VWAP verdict when VWAP exists, then the
      squeeze and alignment marks. */
  function SniperNotes(f: Frame): seq<string>
    requires f.WellFormed() && f.Len() >= 1
  {
    var n := f.Len();
    (if f.vwap[n - 1].Some? then
       (if Ge(CloseAt(f, n - 1), f.vwap[n - 1]) then ["VWAP지지✅"] else ["VWAP이탈❌"])
     else [])
    + (if Lt(f.bandwidth[n - 1], Some(0.25)) then ["응축됨✅"] else [])
    + (if Elite(f) then ["정배열✅"] else [])
  }

  function SniperDive(f: Frame): Report
    requires f.WellFormed() && f.Len() >= 2
  {
    var n := f.Len();
    var sig :=
      if CrossUp(f) then BuyBreakout
      else if Support(f) && Elite(f) then BuyPullback
      else if AboveMa20(f) && Elite(f) then HoldTrend
      else if !AboveMa20(f) then WaitBelowMa20
      else Wait;
    Report(sig, Markers(SniperBuy(f)), CloseAt(f, n - 1), Scale(0.97, f.ma20[n - 1]),
           Some(f.close[n - 1] * 1.15), Some(Join(SniperNotes(f), " ")))
  }

  function DeepDive(s: Strategy, f: Frame): Report
    requires f.WellFormed() && f.Len() >= DiveRows(s)
  {
    match s
    case HyperSniper => SniperDive(f)
    case TH => ThDive(f)
    case Turtle => TurtleDive(f)
    case BNF => BnfDive(f)
  }
}
