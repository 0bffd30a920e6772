/**
  The indicator engine: every derived column of a daily OHLCV series, each a
  pure rolling-window transform computed with exact reals.

  `Calculate` builds the whole frame; the named column functions below it are
  the individual transforms, and the lemmas at the end state what each column
  holds row by row.
*/
module Indicators {
  import opened Series

  /** One daily bar. */
  datatype Bar = Bar(open: real, high: real, low: real, close: real, volume: real)

  /** A price series together with every derived column, one row per bar. */
  datatype Frame = Frame(
    open: seq<real>, high: seq<real>, low: seq<real>, close: seq<real>, volume: seq<real>,
    ma5: Column, ma20: Column, ma60: Column, ma200: Column,
    hma: Column,
    ema10: Column, ema20: Column, ema60: Column,
    macd: Column, signal: Column, macdHist: Column,
    bbUp2: Column, bbDn2: Column, bbUp1: Column, bbDn1: Column, bandwidth: Column,
    rsi: Column,
    stochK: Column, stochD: Column, stochSlowD: Column,
    ma25: Column, disparity25: Column,
    tp: Column, tpv: Column, vwap: Column, mfi: Column,
    high20: Column, low20: Column, high10: Column, low10: Column,
    tr: Column, atr: Column)
  {
    function Len(): nat { |close| }

    /** Every column has one entry per bar. */
    predicate WellFormed() {
      var n := |close|;
      && |open| == n && |high| == n && |low| == n && |volume| == n
      && |ma5| == n && |ma20| == n && |ma60| == n && |ma200| == n
      && |hma| == n && |ema10| == n && |ema20| == n && |ema60| == n
      && |macd| == n && |signal| == n && |macdHist| == n
      && |bbUp2| == n && |bbDn2| == n && |bbUp1| == n && |bbDn1| == n && |bandwidth| == n
      && |rsi| == n && |stochK| == n && |stochD| == n && |stochSlowD| == n
      && |ma25| == n && |disparity25| == n
      && |tp| == n && |tpv| == n && |vwap| == n && |mfi| == n
      && |high20| == n && |low20| == n && |high10| == n && |low10| == n
      && |tr| == n && |atr| == n
    }
  }

  const HmaPeriod: nat := 14
  const RsiPeriod: nat := 14
  const StochPeriod: nat := 14
  const MfiPeriod: nat := 14
  const AtrPeriod: nat := 20
  const VwapLookback: nat := 150

  // ---------------------------------------------------------------------------
  // Raw columns
  // ---------------------------------------------------------------------------

  function Opens(bars: seq<Bar>): (r: seq<real>)
    ensures |r| == |bars| && forall i | 0 <= i < |bars| :: r[i] == bars[i].open
  {
    seq(|bars|, i requires 0 <= i < |bars| => bars[i].open)
  }

  function Highs(bars: seq<Bar>): (r: seq<real>)
    ensures |r| == |bars| && forall i | 0 <= i < |bars| :: r[i] == bars[i].high
  {
    seq(|bars|, i requires 0 <= i < |bars| => bars[i].high)
  }

  function Lows(bars: seq<Bar>): (r: seq<real>)
    ensures |r| == |bars| && forall i | 0 <= i < |bars| :: r[i] == bars[i].low
  {
    seq(|bars|, i requires 0 <= i < |bars| => bars[i].low)
  }

  function Closes(bars: seq<Bar>): (r: seq<real>)
    ensures |r| == |bars| && forall i | 0 <= i < |bars| :: r[i] == bars[i].close
  {
    seq(|bars|, i requires 0 <= i < |bars| => bars[i].close)
  }

  function Volumes(bars: seq<Bar>): (r: seq<real>)
    ensures |r| == |bars| && forall i | 0 <= i < |bars| :: r[i] == bars[i].volume
  {
    seq(|bars|, i requires 0 <= i < |bars| => bars[i].volume)
  }

  /** Typical price (H + L + C) / 3. */
  function Tp(b: Bar): real { (b.high + b.low + b.close) / 3.0 }

  /** Typical price times volume. */
  function Tpv(b: Bar): real { Tp(b) * b.volume }

  function Tps(bars: seq<Bar>): (r: seq<real>)
    ensures |r| == |bars| && forall i | 0 <= i < |bars| :: r[i] == Tp(bars[i])
  {
    seq(|bars|, i requires 0 <= i < |bars| => Tp(bars[i]))
  }

  function Tpvs(bars: seq<Bar>): (r: seq<real>)
    ensures |r| == |bars| && forall i | 0 <= i < |bars| :: r[i] == Tpv(bars[i])
  {
    seq(|bars|, i requires 0 <= i < |bars| => Tpv(bars[i]))
  }

  // ---------------------------------------------------------------------------
  // Moving averages
  // ---------------------------------------------------------------------------

  /** Simple moving average `rolling(window=w).mean()` of a fully present series. */
  function Sma(xs: seq<real>, w: nat): (r: Column)
    ensures |r| == |xs|
  {
    RollingMean(Lift(xs), w)
  }

  /** `int(np.sqrt(n))`: the largest `r` with `r * r <= n`. */
  function FloorSqrt(n: nat): (r: nat)
    ensures r * r <= n < (r + 1) * (r + 1)
  {
    if n == 0 then 0
    else
      var r := FloorSqrt(n - 1);
      if (r + 1) * (r + 1) <= n then r + 1 else r
  }

  /** `calculate_hma`: a "Hull" average built from simple rolling means. */
  function Hma(xs: seq<real>, period: nat): (r: Column)
    ensures |r| == |xs|
  {
    var raw := ColSub(ColScale(2.0, Sma(xs, period / 2)), Sma(xs, period));
    RollingMean(raw, FloorSqrt(period))
  }

  /** Smoothing factor of an exponential average of the given span. */
  function Alpha(span: nat): real {
    2.0 / ((span + 1) as real)
  }

  /** `ewm(span=span, adjust=False).mean()`: seeded with the first value. */
  function Ema(xs: seq<real>, span: nat): (r: seq<real>)
    ensures |r| == |xs|
  {
    if |xs| == 0 then []
    else if |xs| == 1 then [xs[0]]
    else
      var prev := Ema(xs[..|xs| - 1], span);
      prev + [EmaStep(Alpha(span), xs[|xs| - 1], prev[|prev| - 1])]
  }

  /** One smoothing step: the new value weighted by `a`, the previous average by `1 - a`. */
  function EmaStep(a: real, x: real, e: real): real {
    a * x + (1.0 - a) * e
  }

  /** Elementwise difference of two plain series. */
  function Minus(a: seq<real>, b: seq<real>): (r: seq<real>)
    requires |a| == |b|
    ensures |r| == |a| && forall i | 0 <= i < |a| :: r[i] == a[i] - b[i]
  {
    seq(|a|, i requires 0 <= i < |a| => a[i] - b[i])
  }

  /** MACD line: EMA12 - EMA26 of Close. */
  function MacdLine(closes: seq<real>): (r: seq<real>)
    ensures |r| == |closes|
  {
    Minus(Ema(closes, 12), Ema(closes, 26))
  }

  /** Signal line: EMA9 of the MACD line. */
  function SignalLine(closes: seq<real>): (r: seq<real>)
    ensures |r| == |closes|
  {
    Ema(MacdLine(closes), 9)
  }

  // ---------------------------------------------------------------------------
  // Bollinger bands
  // ---------------------------------------------------------------------------

  /** `rolling(window=w).std()` with the standard deviation itself left as the
      parameter `sd`. */
  function RollingStd(xs: seq<real>, w: nat, sd: seq<real> -> real): (r: Column)
    ensures |r| == |xs|
  {
    seq(|xs|, i requires 0 <= i < |xs| =>
      if w > 0 && i + 1 >= w then Some(sd(xs[i + 1 - w..i + 1])) else None)
  }

  /** `MA20 + k * std20`. */
  function Band(ma20: Column, std20: Column, k: real): (r: Column)
    requires |ma20| == |std20|
    ensures |r| == |ma20|
  {
    ColAdd(ma20, ColScale(k, std20))
  }

  // ---------------------------------------------------------------------------
  // Oscillators
  // ---------------------------------------------------------------------------

  /** `Close.diff()`: missing on the first row. */
  function Delta(closes: seq<real>): (r: Column)
    ensures |r| == |closes|
  {
    seq(|closes|, i requires 0 <= i < |closes| =>
      if i == 0 then None else Some(closes[i] - closes[i - 1]))
  }

  /** `delta.clip(lower=0)`. */
  function Gains(d: Column): (r: Column)
    ensures |r| == |d|
  {
    seq(|d|, i requires 0 <= i < |d| => if d[i].Some? then Some(Max(d[i].value, 0.0)) else None)
  }

  /** `-1 * delta.clip(upper=0)`. */
  function Losses(d: Column): (r: Column)
    ensures |r| == |d|
  {
    seq(|d|, i requires 0 <= i < |d| => if d[i].Some? then Some(Max(-d[i].value, 0.0)) else None)
  }

  /** `100 - 100 / (1 + gain / loss)`.  With a zero average loss the quotient is
      +infinity in floating point and the index is 100, unless the average gain
      is zero too, which is NaN. */
  function RsiOf(gain: Option<real>, loss: Option<real>): Option<real> {
    if gain.None? || loss.None? then None
    else if loss.value == 0.0 then (if gain.value == 0.0 then None else Some(100.0))
    else if 1.0 + gain.value / loss.value == 0.0 then None
    else Some(100.0 - 100.0 / (1.0 + gain.value / loss.value))
  }

  function Rsi(closes: seq<real>): (r: Column)
    ensures |r| == |closes|
  {
    var d := Delta(closes);
    var g := RollingMean(Gains(d), RsiPeriod);
    var l := RollingMean(Losses(d), RsiPeriod);
    seq(|closes|, i requires 0 <= i < |closes| => RsiOf(g[i], l[i]))
  }

  /** Stochastic %K over `StochPeriod` bars. */
  function StochK(bars: seq<Bar>): (r: Column)
    ensures |r| == |bars|
  {
    var lowN := RollingMin(Lift(Lows(bars)), StochPeriod);
    var highN := RollingMax(Lift(Highs(bars)), StochPeriod);
    ColScale(100.0, ColDiv(ColSub(Lift(Closes(bars)), lowN), ColSub(highN, lowN)))
  }

  /** Disparity: Close as a percentage of its moving average. */
  function Disparity(closes: seq<real>, ma: Column): (r: Column)
    requires |ma| == |closes|
    ensures |r| == |closes|
  {
    ColScale(100.0, ColDiv(Lift(closes), ma))
  }

  // ---------------------------------------------------------------------------
  // Anchored VWAP
  // ---------------------------------------------------------------------------

  /** `idxmin`: the first position of the smallest value. */
  function ArgMin(xs: seq<real>): (k: nat)
    requires |xs| > 0
    ensures k < |xs|
    ensures forall j | 0 <= j < |xs| :: xs[k] <= xs[j]
    ensures forall j | 0 <= j < k :: xs[j] > xs[k]
  {
    if |xs| == 1 then 0
    else
      var k := ArgMin(xs[..|xs| - 1]);
      assert forall j | 0 <= j < |xs| - 1 :: xs[..|xs| - 1][j] == xs[j];
      if xs[|xs| - 1] < xs[k] then |xs| - 1 else k
  }

  /** First row of the trailing window the anchor is searched in. */
  function LookbackStart(n: nat): nat {
    if n >= VwapLookback then n - VwapLookback else 0
  }

  /** The VWAP anchor: the first row holding the lowest Low of the last 150
      rows, or of the whole series when it is shorter. */
  function VwapAnchor(lows: seq<real>): (a: nat)
    requires |lows| > 0
    ensures LookbackStart(|lows|) <= a < |lows|
    ensures forall j | LookbackStart(|lows|) <= j < |lows| :: lows[a] <= lows[j]
    ensures forall j | LookbackStart(|lows|) <= j < a :: lows[j] > lows[a]
  {
    if |lows| >= VwapLookback then
      var s := |lows| - VwapLookback;
      var tail := lows[s..];
      assert forall j | s <= j < |lows| :: lows[j] == tail[j - s];
      s + ArgMin(tail)
    else
      ArgMin(lows)
  }

  /** Cumulative TPV over cumulative volume from the anchor onward. */
  function Vwap(bars: seq<Bar>): (r: Column)
    ensures |r| == |bars|
  {
    if |bars| == 0 then []
    else
      var a := VwapAnchor(Lows(bars));
      var tpv := Tpvs(bars);
      var vol := Volumes(bars);
      seq(|bars|, i requires 0 <= i < |bars| =>
        if i < a then None else Div(Some(Sum(tpv[a..i + 1])), Some(Sum(vol[a..i + 1]))))
  }

  // ---------------------------------------------------------------------------
  // Money flow index
  // ---------------------------------------------------------------------------

  /** TPV on rows whose typical price rose strictly, 0 elsewhere (and on row 0). */
  function PositiveFlow(bars: seq<Bar>): (r: seq<real>)
    ensures |r| == |bars|
  {
    seq(|bars|, i requires 0 <= i < |bars| =>
      if i > 0 && Tp(bars[i]) > Tp(bars[i - 1]) then Tpv(bars[i]) else 0.0)
  }

  /** TPV on rows whose typical price fell strictly, 0 elsewhere (and on row 0). */
  function NegativeFlow(bars: seq<Bar>): (r: seq<real>)
    ensures |r| == |bars|
  {
    seq(|bars|, i requires 0 <= i < |bars| =>
      if i > 0 && Tp(bars[i]) < Tp(bars[i - 1]) then Tpv(bars[i]) else 0.0)
  }

  /** `100 - 100 / (1 + pos / neg)` with a zero negative sum replaced by 1. */
  function MfiOf(pos: Option<real>, neg: Option<real>): Option<real> {
    if pos.None? || neg.None? then None
    else
      var denom := if neg.value == 0.0 then 1.0 else neg.value;
      var ratio := pos.value / denom;
      if 1.0 + ratio == 0.0 then None else Some(100.0 - 100.0 / (1.0 + ratio))
  }

  function Mfi(bars: seq<Bar>): (r: Column)
    ensures |r| == |bars|
  {
    var p := RollingSum(Lift(PositiveFlow(bars)), MfiPeriod);
    var q := RollingSum(Lift(NegativeFlow(bars)), MfiPeriod);
    seq(|bars|, i requires 0 <= i < |bars| => MfiOf(p[i], q[i]))
  }

  // ---------------------------------------------------------------------------
  // Breakout levels and volatility
  // ---------------------------------------------------------------------------

  /** `rolling(w).max().shift(1)`: the highest value of the `w` rows before. */
  function PriorMax(xs: seq<real>, w: nat): (r: Column)
    ensures |r| == |xs|
  {
    Shift(RollingMax(Lift(xs), w))
  }

  /** `rolling(w).min().shift(1)`: the lowest value of the `w` rows before. */
  function PriorMin(xs: seq<real>, w: nat): (r: Column)
    ensures |r| == |xs|
  {
    Shift(RollingMin(Lift(xs), w))
  }

  /** `max(H - L, |H - prevC|, |L - prevC|)`; on row 0 the two missing terms
      are skipped, leaving `H - L`. */
  function TrueRange(bars: seq<Bar>): (r: seq<real>)
    ensures |r| == |bars|
  {
    seq(|bars|, i requires 0 <= i < |bars| =>
      if i == 0 then bars[0].high - bars[0].low
      else
        var b, pc := bars[i], bars[i - 1].close;
        Max(Max(b.high - b.low, Abs(b.high - pc)), Abs(b.low - pc)))
  }

  // ---------------------------------------------------------------------------
  // The whole frame
  // ---------------------------------------------------------------------------

  /** `calculate_indicators`; `sd` is the rolling standard deviation. */
  function Calculate(bars: seq<Bar>, sd: seq<real> -> real): (f: Frame)
    ensures f.WellFormed() && f.Len() == |bars|
    ensures f.close == Closes(bars) && f.high == Highs(bars) && f.low == Lows(bars)
  {
    var c := Closes(bars);
    var ma20 := Sma(c, 20);
    var std20 := RollingStd(c, 20, sd);
    var up2 := Band(ma20, std20, 2.0);
    var dn2 := Band(ma20, std20, -2.0);
    var macd := MacdLine(c);
    var sig := SignalLine(c);
    var k := StochK(bars);
    var d := RollingMean(k, 3);
    var ma25 := Sma(c, 25);
    var tr := TrueRange(bars);
    Frame(
      Opens(bars), Highs(bars), Lows(bars), c, Volumes(bars),
      Sma(c, 5), ma20, Sma(c, 60), Sma(c, 200),
      Hma(c, HmaPeriod),
      Lift(Ema(c, 10)), Lift(Ema(c, 20)), Lift(Ema(c, 60)),
      Lift(macd), Lift(sig), Lift(Minus(macd, sig)),
      up2, dn2, Band(ma20, std20, 1.0), Band(ma20, std20, -1.0), ColDiv(ColSub(up2, dn2), ma20),
      Rsi(c),
      k, d, RollingMean(d, 3),
      ma25, Disparity(c, ma25),
      Lift(Tps(bars)), Lift(Tpvs(bars)), Vwap(bars), Mfi(bars),
      PriorMax(Highs(bars), 20), PriorMin(Lows(bars), 20),
      PriorMax(Highs(bars), 10), PriorMin(Lows(bars), 10),
      Lift(tr), RollingMean(Lift(tr), AtrPeriod))
  }

  /** `fetch_data` after the download: fewer than 200 bars give no frame. */
  function Load(bars: seq<Bar>, sd: seq<real> -> real): (r: Option<Frame>)
    ensures r.Some? <==> |bars| >= 200
    ensures r.Some? ==> r.value.WellFormed() && r.value.Len() == |bars|
    ensures r.Some? ==> r.value == Calculate(bars, sd)
  {
    if |bars| < 200 then None else Some(Calculate(bars, sd))
  }
}
