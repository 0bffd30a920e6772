/**
  What each indicator column holds, row by row: warm-up rows, closed forms,
  bounds, and causality (a row never depends on later rows).
*/
module IndicatorFacts {
  import opened Series
  import opened Indicators

  // ---------------------------------------------------------------------------
  // Arithmetic helpers
  // ---------------------------------------------------------------------------

  lemma MulLe(a: real, b: real, w: real)
    requires w >= 0.0 && a <= b
    ensures a * w <= b * w
  {
  }

  /** Weighted sums: if every term lies between `lo` and `hi` times its weight,
      the sum lies between `lo` and `hi` times the sum of weights. */
  lemma WeightedSumBounds(ws: seq<real>, xs: seq<real>, lo: real, hi: real)
    requires |ws| == |xs|
    requires forall k | 0 <= k < |xs| :: Scaled(lo, ws)[k] <= xs[k] <= Scaled(hi, ws)[k]
    ensures lo * Sum(ws) <= Sum(xs) <= hi * Sum(ws)
  {
    SumLe(Scaled(lo, ws), xs);
    SumLe(xs, Scaled(hi, ws));
    SumScaled(lo, ws);
    SumScaled(hi, ws);
  }

  /** A non-empty sum of positive terms is positive. */
  lemma {:induction false} SumPositive(xs: seq<real>)
    requires |xs| > 0 && forall k | 0 <= k < |xs| :: xs[k] > 0.0
    ensures Sum(xs) > 0.0
  {
    SumLast(xs);
    var init := xs[..|xs| - 1];
    if |xs| > 1 {
      assert forall k | 0 <= k < |init| :: init[k] == xs[k];
      SumPositive(init);
    } else {
      assert init == [];
    }
  }

  /** The mean of non-negative terms is non-negative. */
  lemma MeanNonNegative(xs: seq<real>)
    requires forall k | 0 <= k < |xs| :: xs[k] >= 0.0
    ensures Mean(xs) >= 0.0
  {
    if |xs| > 0 {
      MeanBounds(xs, 0.0, MaxOf(xs));
    }
  }

  /** The sum of non-negative terms is non-negative. */
  lemma SumNonNegative(xs: seq<real>)
    requires forall k | 0 <= k < |xs| :: xs[k] >= 0.0
    ensures Sum(xs) >= 0.0
  {
    if |xs| > 0 {
      SumBounds(xs, 0.0, MaxOf(xs));
    }
  }

  // ---------------------------------------------------------------------------
  // The frame's columns
  // ---------------------------------------------------------------------------

  /** Which transform of which raw series fills each column of the frame; the
      lemmas below are stated on these transforms. */
  lemma CalculateColumns(bars: seq<Bar>, sd: seq<real> -> real)
    ensures var f, c := Calculate(bars, sd), Closes(bars);
      var std := RollingStd(c, 20, sd);
      && f.ma5 == Sma(c, 5) && f.ma20 == Sma(c, 20) && f.ma60 == Sma(c, 60) && f.ma200 == Sma(c, 200)
      && f.hma == Hma(c, HmaPeriod)
      && f.ema10 == Lift(Ema(c, 10)) && f.ema20 == Lift(Ema(c, 20)) && f.ema60 == Lift(Ema(c, 60))
      && f.macd == Lift(MacdLine(c)) && f.signal == Lift(SignalLine(c))
      && f.macdHist == Lift(Minus(MacdLine(c), SignalLine(c)))
      && f.bbUp2 == Band(f.ma20, std, 2.0) && f.bbDn2 == Band(f.ma20, std, -2.0)
      && f.bbUp1 == Band(f.ma20, std, 1.0) && f.bbDn1 == Band(f.ma20, std, -1.0)
      && f.bandwidth == ColDiv(ColSub(f.bbUp2, f.bbDn2), f.ma20)
      && f.rsi == Rsi(c) && f.stochK == StochK(bars)
      && f.ma25 == Sma(c, 25) && f.disparity25 == Disparity(c, f.ma25)
      && f.vwap == Vwap(bars) && f.mfi == Mfi(bars)
      && f.high20 == PriorMax(Highs(bars), 20) && f.low20 == PriorMin(Lows(bars), 20)
      && f.high10 == PriorMax(Highs(bars), 10) && f.low10 == PriorMin(Lows(bars), 10)
      && f.tr == Lift(TrueRange(bars)) && f.atr == RollingMean(Lift(TrueRange(bars)), AtrPeriod)
  {
  }

  // ---------------------------------------------------------------------------
  // Simple moving averages and disparity
  // ---------------------------------------------------------------------------

  /** `MA_w[i]` is missing for the first `w - 1` rows; afterwards it is the mean
      of `Close[i-w+1..i]` and lies between that window's lowest and highest Close. */
  lemma SmaAt(xs: seq<real>, w: nat, i: nat)
    requires w > 0 && i < |xs|
    ensures i + 1 < w ==> Sma(xs, w)[i] == None
    ensures i + 1 >= w ==>
      && Sma(xs, w)[i] == Some(Mean(xs[i + 1 - w..i + 1]))
      && MinOf(xs[i + 1 - w..i + 1]) <= Sma(xs, w)[i].value <= MaxOf(xs[i + 1 - w..i + 1])
  {
    RollingOnLifted(xs, w, MeanStat, i);
    if i + 1 >= w {
      MeanWithin(xs[i + 1 - w..i + 1]);
    }
  }

  /** Graceful degradation: with fewer than 200 bars MA200 is missing on every
      row, while MA20 is present from row 19 on. */
  lemma ShortSeriesMa200Missing(bars: seq<Bar>, sd: seq<real> -> real, i: nat)
    requires i < |bars| < 200
    ensures Calculate(bars, sd).ma200[i] == None
    ensures i >= 19 <==> Calculate(bars, sd).ma20[i].Some?
  {
    SmaAt(Closes(bars), 200, i);
    SmaAt(Closes(bars), 20, i);
  }

  /** Disparity against any average: missing where the average is missing or
      zero, otherwise `100 * Close / MA`. */
  lemma DisparityRow(xs: seq<real>, ma: Column, i: nat)
    requires |ma| == |xs| && i < |xs|
    ensures ma[i].None? ==> Disparity(xs, ma)[i] == None
    ensures ma[i] == Some(0.0) ==> Disparity(xs, ma)[i] == None
    ensures ma[i].Some? && ma[i].value != 0.0 ==>
      Disparity(xs, ma)[i] == Some(100.0 * (xs[i] / ma[i].value))
  {
  }

  /** Disparity25 is missing for the first 24 rows; from row 24 on it is
      `100 * Close / MA25` with MA25 the mean of the last 25 Closes, and
      missing when that mean is zero. */
  lemma DisparityAt(xs: seq<real>, i: nat)
    requires i < |xs|
    ensures i < 24 ==> Disparity(xs, Sma(xs, 25))[i] == None
    ensures i >= 24 ==> Sma(xs, 25)[i] == Some(Mean(xs[i - 24..i + 1]))
    ensures i >= 24 && Mean(xs[i - 24..i + 1]) != 0.0 ==>
      Disparity(xs, Sma(xs, 25))[i] == Some(100.0 * (xs[i] / Mean(xs[i - 24..i + 1])))
    ensures i >= 24 && Mean(xs[i - 24..i + 1]) == 0.0 ==> Disparity(xs, Sma(xs, 25))[i] == None
  {
    SmaValue(xs, 25, i);
    DisparityRow(xs, Sma(xs, 25), i);
  }

  /** A constant positive Close gives Disparity25 = 100 once MA25 exists. */
  lemma DisparityOfConstantSeries(xs: seq<real>, c: real, i: nat)
    requires c > 0.0
    requires forall k | 0 <= k < |xs| :: xs[k] == c
    requires 24 <= i < |xs|
    ensures Disparity(xs, Sma(xs, 25))[i] == Some(100.0)
  {
    MeanConstant(xs[i - 24..i + 1], c);
    SmaValue(xs, 25, i);
    DisparityRow(xs, Sma(xs, 25), i);
    assert xs[i] / c == 1.0;
  }

  // ---------------------------------------------------------------------------
  // Hull moving average
  // ---------------------------------------------------------------------------

  lemma SquareMono(a: nat, b: nat)
    ensures a <= b ==> a * a <= b * b
  {
    if a <= b {
      assert a * a <= a * b;
      assert a * b <= b * b;
    }
  }

  /** For period 14 the half window is 7 and the root window is 3. */
  lemma HmaWindows()
    ensures HmaPeriod / 2 == 7 && FloorSqrt(HmaPeriod) == 3
  {
    var r := FloorSqrt(14);
    SquareMono(r + 1, 3);
    SquareMono(4, r);
  }

  /** The raw Hull value `2 * MA7 - MA14` at row `j`. */
  function RawHma(xs: seq<real>, j: nat): real
    requires 13 <= j < |xs|
  {
    2.0 * Mean(xs[j - 6..j + 1]) - Mean(xs[j - 13..j + 1])
  }

  /** The moving average of a window, as its `Some` value or `None`. */
  lemma SmaValue(xs: seq<real>, w: nat, i: nat)
    requires w > 0 && i < |xs|
    ensures Sma(xs, w)[i] == if i + 1 < w then None else Some(Mean(xs[i + 1 - w..i + 1]))
  {
    RollingOnLifted(xs, w, MeanStat, i);
  }

  /** The raw Hull column `2 * MA7 - MA14` is missing for the first 13 rows. */
  lemma RawHmaColumn(xs: seq<real>, j: nat)
    requires j < |xs|
    ensures ColSub(ColScale(2.0, Sma(xs, 7)), Sma(xs, 14))[j] ==
      if j < 13 then None else Some(RawHma(xs, j))
  {
    var a, b := Sma(xs, 7), Sma(xs, 14);
    SmaValue(xs, 7, j);
    SmaValue(xs, 14, j);
    assert ColSub(ColScale(2.0, a), b)[j] == Sub(Scale(2.0, a[j]), b[j]);
  }

  /** HMA(14) is missing on rows 0..14 and from row 15 on is the mean of the
      last three raw values `2 * MA7 - MA14`. */
  lemma HmaAt(xs: seq<real>, i: nat)
    requires i < |xs|
    ensures i <= 14 ==> Hma(xs, HmaPeriod)[i] == None
    ensures i >= 15 ==> (Hma(xs, HmaPeriod)[i] ==
      Some(Mean([RawHma(xs, i - 2), RawHma(xs, i - 1), RawHma(xs, i)])))
  {
    HmaRaw(xs);
    if i <= 14 { HmaEarly(xs, i); } else { HmaLate(xs, i); }
  }

  /** HMA(14) is the three-row mean of `2 * MA7 - MA14`. */
  lemma HmaRaw(xs: seq<real>)
    ensures Hma(xs, HmaPeriod) == RollingMean(ColSub(ColScale(2.0, Sma(xs, 7)), Sma(xs, 14)), 3)
  {
    HmaWindows();
  }

  lemma HmaEarly(xs: seq<real>, i: nat)
    requires i <= 14 && i < |xs|
    ensures RollingMean(ColSub(ColScale(2.0, Sma(xs, 7)), Sma(xs, 14)), 3)[i] == None
  {
    var raw := ColSub(ColScale(2.0, Sma(xs, 7)), Sma(xs, 14));
    RollingAt(raw, 3, MeanStat, i);
    if i >= 2 {
      RawHmaColumn(xs, i - 2);
      assert raw[i - 2..i + 1][0] == None;
    }
  }

  lemma HmaLate(xs: seq<real>, i: nat)
    requires 15 <= i < |xs|
    ensures RollingMean(ColSub(ColScale(2.0, Sma(xs, 7)), Sma(xs, 14)), 3)[i] ==
      Some(Mean([RawHma(xs, i - 2), RawHma(xs, i - 1), RawHma(xs, i)]))
  {
    var raw := ColSub(ColScale(2.0, Sma(xs, 7)), Sma(xs, 14));
    RawHmaColumn(xs, i - 2);
    RawHmaColumn(xs, i - 1);
    RawHmaColumn(xs, i);
    var slice := raw[i - 2..i + 1];
    assert slice == [Some(RawHma(xs, i - 2)), Some(RawHma(xs, i - 1)), Some(RawHma(xs, i))];
    assert Values(slice) == [RawHma(xs, i - 2), RawHma(xs, i - 1), RawHma(xs, i)];
    RollingAt(raw, 3, MeanStat, i);
  }

  // ---------------------------------------------------------------------------
  // Exponential moving averages and MACD
  // ---------------------------------------------------------------------------

  /** The EMA of a prefix is the prefix of the EMA. */
  lemma {:induction false} EmaPrefix(xs: seq<real>, span: nat, k: nat)
    requires k <= |xs|
    ensures Ema(xs[..k], span) == Ema(xs, span)[..k]
    decreases |xs|
  {
    if k == |xs| {
      assert xs[..k] == xs;
    } else if k == 0 {
    } else {
      var init := xs[..|xs| - 1];
      assert init[..k] == xs[..k];
      EmaPrefix(init, span, k);
    }
  }

  /** The last EMA value mixes the last input with the previous EMA value. */
  lemma EmaLast(xs: seq<real>, span: nat)
    requires |xs| >= 2
    ensures Ema(xs, span)[|xs| - 1] ==
      Alpha(span) * xs[|xs| - 1] + (1.0 - Alpha(span)) * Ema(xs, span)[|xs| - 2]
  {
    EmaLastStep(xs, span);
  }

  /** The last EMA value is one smoothing step from the previous one. */
  lemma EmaLastStep(xs: seq<real>, span: nat)
    requires |xs| >= 2
    ensures Ema(xs, span)[|xs| - 1] == EmaStep(Alpha(span), xs[|xs| - 1], Ema(xs, span)[|xs| - 2])
  {
    var n, e := |xs|, Ema(xs, span);
    var prev := Ema(xs[..n - 1], span);
    assert e == prev + [EmaStep(Alpha(span), xs[n - 1], prev[n - 2])];
    assert e[n - 2] == prev[n - 2];
  }

  /** `e[0] = x[0]` and `e[i] = alpha * x[i] + (1 - alpha) * e[i - 1]`. */
  lemma EmaRecurrence(xs: seq<real>, span: nat, i: nat)
    requires i < |xs|
    ensures i == 0 ==> Ema(xs, span)[0] == xs[0]
    ensures i > 0 ==> (Ema(xs, span)[i] ==
      Alpha(span) * xs[i] + (1.0 - Alpha(span)) * Ema(xs, span)[i - 1])
  {
    if i == 0 {
      EmaPrefix(xs, span, 1);
      assert Ema(xs[..1], span) == [xs[0]];
    } else {
      EmaStepAt(xs, span, i);
      StepExpand(Alpha(span), xs[i], Ema(xs, span)[i - 1], Ema(xs, span)[i]);
    }
  }

  /** Every EMA value after the first is one smoothing step from the one before. */
  lemma EmaStepAt(xs: seq<real>, span: nat, i: nat)
    requires 0 < i < |xs|
    ensures Ema(xs, span)[i] == EmaStep(Alpha(span), xs[i], Ema(xs, span)[i - 1])
  {
    var p, e := xs[..i + 1], Ema(xs, span);
    var ep := Ema(p, span);
    EmaPrefix(xs, span, i + 1);
    EmaLastStep(p, span);
    assert p[i] == xs[i] && ep[i] == e[i] && ep[i - 1] == e[i - 1];
  }

  /** A value one smoothing step from `e` written out. */
  lemma StepExpand(a: real, x: real, e: real, v: real)
    requires v == EmaStep(a, x, e)
    ensures v == a * x + (1.0 - a) * e
  {
  }

  /** A constant series has a constant EMA. */
  lemma {:induction false} EmaConstant(xs: seq<real>, span: nat, c: real, i: nat)
    requires forall k | 0 <= k < |xs| :: xs[k] == c
    requires i < |xs|
    ensures Ema(xs, span)[i] == c
  {
    EmaRecurrence(xs, span, i);
    if i > 0 {
      EmaConstant(xs, span, c, i - 1);
      var a := Alpha(span);
      assert a * c + (1.0 - a) * c == c;
    }
  }

  /** A convex combination of two values in `[lo, hi]` stays in `[lo, hi]`. */
  lemma Convex(a: real, x: real, e: real, lo: real, hi: real)
    requires 0.0 <= a <= 1.0 && lo <= x <= hi && lo <= e <= hi
    ensures lo <= a * x + (1.0 - a) * e <= hi
  {
    var d := x - e;
    var t := a * d;
    assert a * x + (1.0 - a) * e == e + t;
    if d >= 0.0 {
      MulLe(0.0, a, d);
      MulLe(a, 1.0, d);
      assert 0.0 <= t <= d;
    } else {
      var b, d' := 1.0 - a, e - x;
      var t' := b * d';
      assert a * x + (1.0 - a) * e == x + t';
      MulLe(0.0, b, d');
      MulLe(b, 1.0, d');
      assert 0.0 <= t' <= d';
    }
  }

  lemma AlphaRange(span: nat)
    ensures 0.0 < Alpha(span) <= 2.0
    ensures span >= 1 ==> Alpha(span) <= 1.0
  {
    var d := (span + 1) as real;
    DivBetween(2.0, d, 0.0, 2.0);
    if span >= 1 {
      DivBetween(2.0, d, 0.0, 1.0);
    }
  }

  /** For a span of at least 1 the EMA never leaves the range of the values
      it has seen so far. */
  lemma {:induction false} EmaWithin(xs: seq<real>, span: nat, lo: real, hi: real, i: nat)
    requires span >= 1
    requires forall k | 0 <= k < |xs| :: lo <= xs[k] <= hi
    requires i < |xs|
    ensures lo <= Ema(xs, span)[i] <= hi
  {
    EmaRecurrence(xs, span, i);
    if i > 0 {
      EmaWithin(xs, span, lo, hi, i - 1);
      AlphaRange(span);
      Convex(Alpha(span), xs[i], Ema(xs, span)[i - 1], lo, hi);
    }
  }

  /** A constant Close gives MACD, Signal and histogram 0 on every row. */
  lemma MacdOfConstantSeries(closes: seq<real>, c: real, i: nat)
    requires forall k | 0 <= k < |closes| :: closes[k] == c
    requires i < |closes|
    ensures MacdLine(closes)[i] == 0.0
    ensures SignalLine(closes)[i] == 0.0
    ensures Minus(MacdLine(closes), SignalLine(closes))[i] == 0.0
  {
    var m := MacdLine(closes);
    forall k | 0 <= k < |m| ensures m[k] == 0.0 {
      EmaConstant(closes, 12, c, k);
      EmaConstant(closes, 26, c, k);
    }
    EmaConstant(m, 9, 0.0, i);
  }

  // ---------------------------------------------------------------------------
  // Breakout levels
  // ---------------------------------------------------------------------------

  /** `PriorMax(xs, w)[i]` is missing for `i < w`, and otherwise is the largest
      of the `w` values before row `i`, the current row excluded. */
  lemma PriorMaxAt(xs: seq<real>, w: nat, i: nat)
    requires w > 0 && i < |xs|
    ensures i < w ==> PriorMax(xs, w)[i] == None
    ensures i >= w ==> (
      && PriorMax(xs, w)[i] == Some(MaxOf(xs[i - w..i]))
      && (forall j | i - w <= j < i :: xs[j] <= PriorMax(xs, w)[i].value)
      && (exists j | i - w <= j < i :: xs[j] == PriorMax(xs, w)[i].value))
  {
    if i > 0 {
      RollingOnLifted(xs, w, MaxStat, i - 1);
      if i >= w {
        var win := xs[i - w..i];
        assert forall j | i - w <= j < i :: xs[j] == win[j - (i - w)];
        var m := MaxOf(win);
        assert exists j | 0 <= j < |win| :: win[j] == m;
        var j :| 0 <= j < |win| && win[j] == m;
        assert xs[j + (i - w)] == m;
      }
    }
  }

  /** `PriorMin(xs, w)[i]` is missing for `i < w`, and otherwise is the smallest
      of the `w` values before row `i`, the current row excluded. */
  lemma PriorMinAt(xs: seq<real>, w: nat, i: nat)
    requires w > 0 && i < |xs|
    ensures i < w ==> PriorMin(xs, w)[i] == None
    ensures i >= w ==> (
      && PriorMin(xs, w)[i] == Some(MinOf(xs[i - w..i]))
      && (forall j | i - w <= j < i :: PriorMin(xs, w)[i].value <= xs[j])
      && (exists j | i - w <= j < i :: xs[j] == PriorMin(xs, w)[i].value))
  {
    if i > 0 {
      RollingOnLifted(xs, w, MinStat, i - 1);
      if i >= w {
        var win := xs[i - w..i];
        assert forall j | i - w <= j < i :: xs[j] == win[j - (i - w)];
        var m := MinOf(win);
        assert exists j | 0 <= j < |win| :: win[j] == m;
        var j :| 0 <= j < |win| && win[j] == m;
        assert xs[j + (i - w)] == m;
      }
    }
  }

  // ---------------------------------------------------------------------------
  // True range and ATR
  // ---------------------------------------------------------------------------

  /** `TR[i] >= High - Low`; `TR[0] = High - Low`; later rows also dominate the
      gaps to the previous Close, are never negative, and are one of the three
      terms, so TR is their maximum. */
  lemma TrueRangeAt(bars: seq<Bar>, i: nat)
    requires i < |bars|
    ensures TrueRange(bars)[i] >= bars[i].high - bars[i].low
    ensures i == 0 ==> TrueRange(bars)[i] == bars[0].high - bars[0].low
    ensures i > 0 ==>
      && TrueRange(bars)[i] >= Abs(bars[i].high - bars[i - 1].close)
      && TrueRange(bars)[i] >= Abs(bars[i].low - bars[i - 1].close)
      && TrueRange(bars)[i] >= 0.0
    ensures i > 0 ==>
      TrueRange(bars)[i] in
        {bars[i].high - bars[i].low, Abs(bars[i].high - bars[i - 1].close), Abs(bars[i].low - bars[i - 1].close)}
  {
  }

  /** ATR is missing for the first 19 rows and non-negative afterwards when
      every High is at least its Low. */
  lemma AtrNonNegative(bars: seq<Bar>, i: nat)
    requires forall k | 0 <= k < |bars| :: bars[k].high >= bars[k].low
    requires i < |bars|
    ensures i < 19 ==> RollingMean(Lift(TrueRange(bars)), AtrPeriod)[i] == None
    ensures i >= 19 ==>
      && RollingMean(Lift(TrueRange(bars)), AtrPeriod)[i].Some?
      && RollingMean(Lift(TrueRange(bars)), AtrPeriod)[i].value >= 0.0
  {
    var tr := TrueRange(bars);
    RollingOnLifted(tr, AtrPeriod, MeanStat, i);
    if i >= 19 {
      var win := tr[i - 19..i + 1];
      forall k | 0 <= k < |win| ensures win[k] >= 0.0 {
        TrueRangeAt(bars, i - 19 + k);
      }
      MeanNonNegative(win);
    }
  }

  // ---------------------------------------------------------------------------
  // Anchored VWAP
  // ---------------------------------------------------------------------------

  /** Row `i` of the VWAP column. */
  lemma VwapRow(bars: seq<Bar>, i: nat)
    requires i < |bars|
    ensures var a := VwapAnchor(Lows(bars));
      Vwap(bars)[i] ==
        if i < a then None
        else Div(Some(Sum(Tpvs(bars)[a..i + 1])), Some(Sum(Volumes(bars)[a..i + 1])))
  {
  }

  lemma MulDivCancel(t: real, v: real)
    requires v != 0.0
    ensures (t * v) / v == t
  {
  }

  /** TPV over volume gives back the typical price. */
  lemma TpvOverVolume(b: Bar)
    requires b.volume != 0.0
    ensures Tpv(b) / b.volume == Tp(b)
  {
    MulDivCancel(Tp(b), b.volume);
  }

  lemma SumSingle(x: real)
    ensures Sum([x]) == x
  {
    SumLast([x]);
    assert [x][..0] == [];
  }

  /** On the anchor row, VWAP is that row's typical price whenever its volume
      is non-zero. */
  lemma VwapAtAnchor(bars: seq<Bar>)
    requires |bars| > 0
    ensures var a := VwapAnchor(Lows(bars));
      bars[a].volume != 0.0 ==> Vwap(bars)[a] == Some(Tp(bars[a]))
  {
    var a := VwapAnchor(Lows(bars));
    VwapRow(bars, a);
    var b := bars[a];
    assert Sum(Tpvs(bars)[a..a + 1]) == Tpv(b) by {
      assert Tpvs(bars)[a..a + 1] == [Tpv(b)];
      SumSingle(Tpv(b));
    }
    assert Sum(Volumes(bars)[a..a + 1]) == b.volume by {
      assert Volumes(bars)[a..a + 1] == [b.volume];
      SumSingle(b.volume);
    }
    if b.volume != 0.0 {
      TpvOverVolume(b);
    }
  }

  /** VWAP is missing before the anchor and, with a non-zero volume, starts on
      the anchor row at that row's typical price. */
  lemma VwapAnchorRow(bars: seq<Bar>, i: nat)
    requires i < |bars|
    ensures var a := VwapAnchor(Lows(bars));
      && (i < a ==> Vwap(bars)[i] == None)
      && (i == a && bars[a].volume != 0.0 ==> Vwap(bars)[i] == Some(Tp(bars[a])))
  {
    VwapRow(bars, i);
    VwapAtAnchor(bars);
  }

  /** Each product `p * w` with `lo <= p <= hi` and `w > 0` lies between
      `lo * w` and `hi * w`. */
  lemma ProductsScaled(ps: seq<real>, ws: seq<real>, xs: seq<real>, lo: real, hi: real)
    requires |ps| == |ws| == |xs|
    requires forall k | 0 <= k < |ps| :: lo <= ps[k] <= hi
    requires forall k | 0 <= k < |ws| :: ws[k] > 0.0
    requires forall k | 0 <= k < |xs| :: xs[k] == ps[k] * ws[k]
    ensures forall k | 0 <= k < |xs| :: Scaled(lo, ws)[k] <= xs[k] <= Scaled(hi, ws)[k]
  {
    forall k | 0 <= k < |xs| ensures Scaled(lo, ws)[k] <= xs[k] <= Scaled(hi, ws)[k] {
      ProductBetween(lo, ps[k], hi, ws[k], xs[k]);
    }
  }

  /** A price between `lo` and `hi` times a positive weight lies between the
      bounds times that weight. */
  lemma ProductBetween(lo: real, p: real, hi: real, w: real, x: real)
    requires lo <= p <= hi && w > 0.0 && x == p * w
    ensures lo * w <= x <= hi * w
  {
    MulLe(lo, p, w);
    MulLe(p, hi, w);
  }

  /** A weighted average whose terms lie between `lo` and `hi` times their
      positive weights lies in `[lo, hi]`. */
  lemma WeightedAverageBounds(ws: seq<real>, xs: seq<real>, lo: real, hi: real)
    requires |ws| == |xs| > 0
    requires forall k | 0 <= k < |ws| :: ws[k] > 0.0
    requires forall k | 0 <= k < |xs| :: Scaled(lo, ws)[k] <= xs[k] <= Scaled(hi, ws)[k]
    ensures Sum(ws) > 0.0
    ensures lo <= Sum(xs) / Sum(ws) <= hi
  {
    var s, n := Sum(xs), Sum(ws);
    assert lo * n <= s <= hi * n && n > 0.0 by {
      WeightedSumBounds(ws, xs, lo, hi);
      SumPositive(ws);
    }
    DivBetween(s, n, lo, hi);
  }

  /** A volume-weighted average of prices lies between the lowest and the
      highest price. */
  lemma WeightedAverageWithin(ps: seq<real>, ws: seq<real>, xs: seq<real>)
    requires |ps| == |ws| == |xs| > 0
    requires forall k | 0 <= k < |ws| :: ws[k] > 0.0
    requires forall k | 0 <= k < |xs| :: xs[k] == ps[k] * ws[k]
    ensures Sum(ws) > 0.0
    ensures MinOf(ps) <= Sum(xs) / Sum(ws) <= MaxOf(ps)
  {
    var lo, hi := MinOf(ps), MaxOf(ps);
    assert forall k | 0 <= k < |ps| :: lo <= ps[k] <= hi;
    ProductsScaled(ps, ws, xs, lo, hi);
    WeightedAverageBounds(ws, xs, lo, hi);
  }

  /** With positive volumes, VWAP on every row from the anchor on lies between
      the lowest and highest typical price since the anchor. */
  lemma VwapWithin(bars: seq<Bar>, i: nat)
    requires forall k | 0 <= k < |bars| :: bars[k].volume > 0.0
    requires i < |bars|
    ensures var a := VwapAnchor(Lows(bars));
      a <= i ==> (
        && Vwap(bars)[i].Some?
        && MinOf(Tps(bars)[a..i + 1]) <= Vwap(bars)[i].value <= MaxOf(Tps(bars)[a..i + 1]))
  {
    var a := VwapAnchor(Lows(bars));
    if a <= i {
      VwapBetween(bars, a, i);
    }
  }

  /** From the anchor on, VWAP is present and lies within the typical prices
      since the anchor. */
  lemma VwapBetween(bars: seq<Bar>, a: nat, i: nat)
    requires forall k | 0 <= k < |bars| :: bars[k].volume > 0.0
    requires i < |bars| && a == VwapAnchor(Lows(bars)) && a <= i
    ensures Vwap(bars)[i].Some?
    ensures MinOf(Tps(bars)[a..i + 1]) <= Vwap(bars)[i].value <= MaxOf(Tps(bars)[a..i + 1])
  {
    VwapBounds(bars, a, i);
    VwapWeighted(bars, a, i, Sum(Tpvs(bars)[a..i + 1]) / Sum(Volumes(bars)[a..i + 1]));
  }

  /** Over a window of positive volumes, cumulative TPV over cumulative volume
      lies within the window's typical prices. */
  lemma VwapBounds(bars: seq<Bar>, a: nat, i: nat)
    requires forall k | 0 <= k < |bars| :: bars[k].volume > 0.0
    requires a <= i < |bars|
    ensures Sum(Volumes(bars)[a..i + 1]) > 0.0
    ensures MinOf(Tps(bars)[a..i + 1])
      <= Sum(Tpvs(bars)[a..i + 1]) / Sum(Volumes(bars)[a..i + 1])
      <= MaxOf(Tps(bars)[a..i + 1])
  {
    VwapWindow(bars, a, i);
    WeightedAverageWithin(Tps(bars)[a..i + 1], Volumes(bars)[a..i + 1], Tpvs(bars)[a..i + 1]);
  }

  /** From the anchor on, a row of VWAP is present and holds the cumulative
      TPV over the cumulative positive volume. */
  lemma VwapWeighted(bars: seq<Bar>, a: nat, i: nat, v: real)
    requires i < |bars| && a == VwapAnchor(Lows(bars)) && a <= i
    requires Sum(Volumes(bars)[a..i + 1]) > 0.0
    requires v == Sum(Tpvs(bars)[a..i + 1]) / Sum(Volumes(bars)[a..i + 1])
    ensures Vwap(bars)[i] == Some(v)
  {
    VwapRow(bars, i);
  }

  /** On a window of bars with positive volumes, each TPV is its typical price
      times its positive volume. */
  lemma VwapWindow(bars: seq<Bar>, a: nat, i: nat)
    requires forall k | 0 <= k < |bars| :: bars[k].volume > 0.0
    requires a <= i < |bars|
    ensures var ps, ws, xs := Tps(bars)[a..i + 1], Volumes(bars)[a..i + 1], Tpvs(bars)[a..i + 1];
      && |ps| == |ws| == |xs| > 0
      && (forall k | 0 <= k < |ws| :: ws[k] > 0.0)
      && (forall k | 0 <= k < |xs| :: xs[k] == ps[k] * ws[k])
  {
    var ps, ws, xs := Tps(bars)[a..i + 1], Volumes(bars)[a..i + 1], Tpvs(bars)[a..i + 1];
    forall k | 0 <= k < |xs|
      ensures ws[k] > 0.0 && xs[k] == ps[k] * ws[k]
    {
      assert xs[k] == Tpv(bars[a + k]) && ps[k] == Tp(bars[a + k]) && ws[k] == bars[a + k].volume;
    }
  }

  // ---------------------------------------------------------------------------
  // Money flow index and RSI
  // ---------------------------------------------------------------------------

  /** A row carries positive flow only where the typical price strictly rose,
      negative flow only where it strictly fell, and never both. */
  lemma FlowsAt(bars: seq<Bar>, i: nat)
    requires i < |bars|
    ensures PositiveFlow(bars)[i] != 0.0 ==> i > 0 && Tp(bars[i]) > Tp(bars[i - 1])
    ensures NegativeFlow(bars)[i] != 0.0 ==> i > 0 && Tp(bars[i]) < Tp(bars[i - 1])
    ensures PositiveFlow(bars)[i] == 0.0 || NegativeFlow(bars)[i] == 0.0
  {
  }

  /** `100 - 100 / (1 + r)` lies in [0, 100) for a non-negative ratio `r`. */
  lemma IndexOfRatio(r: real)
    requires r >= 0.0
    ensures 0.0 <= 100.0 - 100.0 / (1.0 + r) < 100.0
  {
    var t := 100.0 / (1.0 + r);
    assert t * (1.0 + r) == 100.0;
    MulLe(1.0, 1.0 + r, t);
  }

  /** With non-negative TPV the MFI is missing for the first 13 rows; from row 13
      on it is the index of the 14-row positive and negative flow sums (a zero
      negative sum counting as 1) and lies in [0, 100). */
  lemma MfiWithin(bars: seq<Bar>, i: nat)
    requires forall k | 0 <= k < |bars| :: Tpv(bars[k]) >= 0.0
    requires i < |bars|
    ensures i < 13 ==> Mfi(bars)[i] == None
    ensures i >= 13 ==> (
      && Mfi(bars)[i] == MfiOf(Some(Sum(PositiveFlow(bars)[i - 13..i + 1])),
                               Some(Sum(NegativeFlow(bars)[i - 13..i + 1])))
      && Mfi(bars)[i].Some?
      && 0.0 <= Mfi(bars)[i].value < 100.0)
  {
    var pf, nf := PositiveFlow(bars), NegativeFlow(bars);
    RollingOnLifted(pf, MfiPeriod, SumStat, i);
    RollingOnLifted(nf, MfiPeriod, SumStat, i);
    if i >= 13 {
      var pw, nw := pf[i - 13..i + 1], nf[i - 13..i + 1];
      assert forall k | 0 <= k < |pw| :: pw[k] >= 0.0;
      assert forall k | 0 <= k < |nw| :: nw[k] >= 0.0;
      SumNonNegative(pw);
      SumNonNegative(nw);
      var p, q := Sum(pw), Sum(nw);
      var denom := if q == 0.0 then 1.0 else q;
      assert p / denom >= 0.0;
      IndexOfRatio(p / denom);
    }
  }

  /** RSI is missing for the first 14 rows and, where present, lies in [0, 100]. */
  lemma RsiWithin(closes: seq<real>, i: nat)
    requires i < |closes|
    ensures i < 14 ==> Rsi(closes)[i] == None
    ensures Rsi(closes)[i].Some? ==> 0.0 <= Rsi(closes)[i].value <= 100.0
  {
    var d := Delta(closes);
    var gs, ls := Gains(d), Losses(d);
    var g := RollingMean(gs, RsiPeriod);
    var l := RollingMean(ls, RsiPeriod);
    assert Rsi(closes)[i] == RsiOf(g[i], l[i]);
    RollingAt(gs, RsiPeriod, MeanStat, i);
    RollingAt(ls, RsiPeriod, MeanStat, i);
    if i < 14 && i >= 13 {
      assert gs[i + 1 - 14..i + 1][0] == None;
    }
    if g[i].Some? && l[i].Some? {
      var wg := Values(gs[i + 1 - 14..i + 1]);
      var wl := Values(ls[i + 1 - 14..i + 1]);
      assert forall k | 0 <= k < |wg| :: wg[k] >= 0.0;
      assert forall k | 0 <= k < |wl| :: wl[k] >= 0.0;
      MeanNonNegative(wg);
      MeanNonNegative(wl);
      RsiRow(g[i].value, l[i].value);
    }
  }

  /** The RSI of a non-negative mean gain and mean loss lies in [0, 100]. */
  lemma RsiRow(gain: real, loss: real)
    requires gain >= 0.0 && loss >= 0.0
    ensures RsiOf(Some(gain), Some(loss)).Some? ==> 0.0 <= RsiOf(Some(gain), Some(loss)).value <= 100.0
  {
    if loss != 0.0 {
      DivBetween(gain, loss, 0.0, gain / loss);
      IndexOfRatio(gain / loss);
    }
  }

  /** `100 * (C - L) / (H - L)` lies in [0, 100] when `L <= C <= H`. */
  lemma StochRow(c: real, lo: real, hi: real)
    requires lo <= c <= hi
    ensures var r := Scale(100.0, Div(Sub(Some(c), Some(lo)), Sub(Some(hi), Some(lo))));
      r.Some? ==> 0.0 <= r.value <= 100.0
  {
    if hi - lo != 0.0 {
      DivBetween(c - lo, hi - lo, 0.0, 1.0);
    }
  }

  /** For bars whose Close lies within their High-Low range, Stochastic %K is
      missing for the first 13 rows and lies in [0, 100] where present. */
  lemma StochWithin(bars: seq<Bar>, i: nat)
    requires forall k | 0 <= k < |bars| :: bars[k].low <= bars[k].close <= bars[k].high
    requires i < |bars|
    ensures i < 13 ==> StochK(bars)[i] == None
    ensures StochK(bars)[i].Some? ==> 0.0 <= StochK(bars)[i].value <= 100.0
  {
    if i < 13 {
      StochEarly(bars, i);
    } else {
      StochLate(bars, i);
    }
  }

  /** %K is missing before a full 14-row window exists. */
  lemma StochEarly(bars: seq<Bar>, i: nat)
    requires i < |bars| && i < 13
    ensures StochK(bars)[i] == None
  {
    var lowN := RollingMin(Lift(Lows(bars)), StochPeriod);
    RollingOnLifted(Lows(bars), StochPeriod, MinStat, i);
    assert lowN[i] == None;
  }

  /** From row 13 on, %K lies in [0, 100] when every close is within its bar. */
  lemma StochLate(bars: seq<Bar>, i: nat)
    requires forall k | 0 <= k < |bars| :: bars[k].low <= bars[k].close <= bars[k].high
    requires 13 <= i < |bars|
    ensures StochK(bars)[i].Some? ==> 0.0 <= StochK(bars)[i].value <= 100.0
  {
    var lows, highs := Lows(bars), Highs(bars);
    var lowN := RollingMin(Lift(lows), StochPeriod);
    var highN := RollingMax(Lift(highs), StochPeriod);
    var c := Lift(Closes(bars));
    assert StochK(bars)[i] == Scale(100.0, Div(Sub(c[i], lowN[i]), Sub(highN[i], lowN[i])));
    RollingOnLifted(lows, StochPeriod, MinStat, i);
    RollingOnLifted(highs, StochPeriod, MaxStat, i);
    var lw, hw := lows[i - 13..i + 1], highs[i - 13..i + 1];
    assert lw[13] == bars[i].low && hw[13] == bars[i].high;
    StochRow(bars[i].close, MinOf(lw), MaxOf(hw));
  }

  // ---------------------------------------------------------------------------
  // Bollinger bands
  // ---------------------------------------------------------------------------

  /** With a non-negative deviation the bands are ordered around the average,
      and the band width over a positive average is non-negative. */
  lemma BandOrder(ma: Column, std: Column, i: nat)
    requires |ma| == |std| && i < |ma|
    requires std[i].Some? ==> std[i].value >= 0.0
    ensures ma[i].Some? && std[i].Some? ==>
      && Le(Band(ma, std, -2.0)[i], Band(ma, std, -1.0)[i])
      && Le(Band(ma, std, -1.0)[i], ma[i])
      && Le(ma[i], Band(ma, std, 1.0)[i])
      && Le(Band(ma, std, 1.0)[i], Band(ma, std, 2.0)[i])
    ensures ma[i].Some? && std[i].Some? && ma[i].value > 0.0 ==>
      var bw := ColDiv(ColSub(Band(ma, std, 2.0), Band(ma, std, -2.0)), ma);
      bw[i].Some? && bw[i].value >= 0.0
  {
    if ma[i].Some? && std[i].Some? && ma[i].value > 0.0 {
      var m, s := ma[i].value, std[i].value;
      DivBetween((m + 2.0 * s) - (m + -2.0 * s), m, 0.0, 4.0 * s / m + 1.0);
    }
  }

  /** The rolling deviation is present exactly where MA20 is. */
  lemma StdPresent(xs: seq<real>, sd: seq<real> -> real, i: nat)
    requires i < |xs|
    ensures RollingStd(xs, 20, sd)[i].Some? <==> Sma(xs, 20)[i].Some?
    ensures RollingStd(xs, 20, sd)[i].Some? ==> RollingStd(xs, 20, sd)[i].value == sd(xs[i - 19..i + 1])
  {
    SmaValue(xs, 20, i);
  }

  // ---------------------------------------------------------------------------
  // Causality
  // ---------------------------------------------------------------------------

  lemma LiftPrefix(xs: seq<real>, k: nat)
    requires k <= |xs|
    ensures Lift(xs[..k]) == Lift(xs)[..k]
  {
  }

  /** No look-ahead in a moving average: truncating after row `k - 1` leaves
      every earlier row unchanged. */
  lemma SmaCausal(xs: seq<real>, w: nat, k: nat, i: nat)
    requires i < k <= |xs|
    ensures Sma(xs[..k], w)[i] == Sma(xs, w)[i]
  {
    LiftPrefix(xs, k);
    RollingCausal(Lift(xs), w, MeanStat, k, i);
  }

  /** No look-ahead in MACD, its signal line and its histogram. */
  lemma MacdCausal(xs: seq<real>, k: nat, i: nat)
    requires i < k <= |xs|
    ensures MacdLine(xs[..k])[i] == MacdLine(xs)[i]
    ensures SignalLine(xs[..k])[i] == SignalLine(xs)[i]
  {
    EmaPrefix(xs, 12, k);
    EmaPrefix(xs, 26, k);
    assert MacdLine(xs[..k]) == MacdLine(xs)[..k];
    EmaPrefix(MacdLine(xs), 9, k);
  }

  /** No look-ahead in the prior-window breakout levels. */
  lemma PriorMaxCausal(xs: seq<real>, w: nat, k: nat, i: nat)
    requires i < k <= |xs|
    ensures PriorMax(xs[..k], w)[i] == PriorMax(xs, w)[i]
    ensures PriorMin(xs[..k], w)[i] == PriorMin(xs, w)[i]
  {
    if i > 0 {
      LiftPrefix(xs, k);
      RollingCausal(Lift(xs), w, MaxStat, k, i - 1);
      RollingCausal(Lift(xs), w, MinStat, k, i - 1);
    }
  }

  /** No look-ahead in the true range and ATR. */
  lemma AtrCausal(bars: seq<Bar>, k: nat, i: nat)
    requires i < k <= |bars|
    ensures TrueRange(bars[..k]) == TrueRange(bars)[..k]
    ensures RollingMean(Lift(TrueRange(bars[..k])), AtrPeriod)[i]
         == RollingMean(Lift(TrueRange(bars)), AtrPeriod)[i]
  {
    var tr := TrueRange(bars);
    assert TrueRange(bars[..k]) == tr[..k];
    LiftPrefix(tr, k);
    RollingCausal(Lift(tr), AtrPeriod, MeanStat, k, i);
  }

  /** The raw Hull column of a prefix is the prefix of the raw Hull column. */
  lemma RawHmaPrefix(xs: seq<real>, k: nat)
    requires k <= |xs|
    ensures ColSub(ColScale(2.0, Sma(xs[..k], 7)), Sma(xs[..k], 14))
         == ColSub(ColScale(2.0, Sma(xs, 7)), Sma(xs, 14))[..k]
  {
    var a := ColSub(ColScale(2.0, Sma(xs[..k], 7)), Sma(xs[..k], 14));
    var b := ColSub(ColScale(2.0, Sma(xs, 7)), Sma(xs, 14));
    forall j | 0 <= j < k
      ensures a[j] == b[j]
    {
      SmaCausal(xs, 7, k, j);
      SmaCausal(xs, 14, k, j);
    }
  }

  /** No look-ahead in HMA(14). */
  lemma HmaCausal(xs: seq<real>, k: nat, i: nat)
    requires i < k <= |xs|
    ensures Hma(xs[..k], HmaPeriod)[i] == Hma(xs, HmaPeriod)[i]
  {
    HmaRaw(xs);
    HmaRaw(xs[..k]);
    RawHmaPrefix(xs, k);
    RollingCausal(ColSub(ColScale(2.0, Sma(xs, 7)), Sma(xs, 14)), 3, MeanStat, k, i);
  }

  /** No look-ahead in RSI: the price changes, their gains and losses, and
      their rolling means of a prefix are prefixes. */
  lemma RsiCausal(xs: seq<real>, k: nat, i: nat)
    requires i < k <= |xs|
    ensures Rsi(xs[..k])[i] == Rsi(xs)[i]
  {
    var d := Delta(xs);
    assert Delta(xs[..k]) == d[..k];
    assert Gains(d[..k]) == Gains(d)[..k];
    assert Losses(d[..k]) == Losses(d)[..k];
    RollingCausal(Gains(d), RsiPeriod, MeanStat, k, i);
    RollingCausal(Losses(d), RsiPeriod, MeanStat, k, i);
  }

  /** No look-ahead in the stochastic %K. */
  lemma StochCausal(bars: seq<Bar>, k: nat, i: nat)
    requires i < k <= |bars|
    ensures StochK(bars[..k])[i] == StochK(bars)[i]
  {
    assert Lows(bars[..k]) == Lows(bars)[..k];
    assert Highs(bars[..k]) == Highs(bars)[..k];
    assert Closes(bars[..k]) == Closes(bars)[..k];
    LiftPrefix(Lows(bars), k);
    LiftPrefix(Highs(bars), k);
    RollingCausal(Lift(Lows(bars)), StochPeriod, MinStat, k, i);
    RollingCausal(Lift(Highs(bars)), StochPeriod, MaxStat, k, i);
  }

  /** No look-ahead in MFI. */
  lemma MfiCausal(bars: seq<Bar>, k: nat, i: nat)
    requires i < k <= |bars|
    ensures Mfi(bars[..k])[i] == Mfi(bars)[i]
  {
    assert PositiveFlow(bars[..k]) == PositiveFlow(bars)[..k];
    assert NegativeFlow(bars[..k]) == NegativeFlow(bars)[..k];
    LiftPrefix(PositiveFlow(bars), k);
    LiftPrefix(NegativeFlow(bars), k);
    RollingCausal(Lift(PositiveFlow(bars)), MfiPeriod, SumStat, k, i);
    RollingCausal(Lift(NegativeFlow(bars)), MfiPeriod, SumStat, k, i);
  }

  /** No look-ahead in Disparity25. */
  lemma DisparityCausal(xs: seq<real>, k: nat, i: nat)
    requires i < k <= |xs|
    ensures Disparity(xs[..k], Sma(xs[..k], 25))[i] == Disparity(xs, Sma(xs, 25))[i]
  {
    SmaCausal(xs, 25, k, i);
  }

  /** No look-ahead in the Bollinger bands (any multiple of the deviation) and
      in the band width. */
  lemma BandCausal(xs: seq<real>, sd: seq<real> -> real, m: real, k: nat, i: nat)
    requires i < k <= |xs|
    ensures Band(Sma(xs[..k], 20), RollingStd(xs[..k], 20, sd), m)[i]
         == Band(Sma(xs, 20), RollingStd(xs, 20, sd), m)[i]
    ensures var up, dn := Band(Sma(xs[..k], 20), RollingStd(xs[..k], 20, sd), 2.0),
                          Band(Sma(xs[..k], 20), RollingStd(xs[..k], 20, sd), -2.0);
            var up', dn' := Band(Sma(xs, 20), RollingStd(xs, 20, sd), 2.0),
                            Band(Sma(xs, 20), RollingStd(xs, 20, sd), -2.0);
      ColDiv(ColSub(up, dn), Sma(xs[..k], 20))[i] == ColDiv(ColSub(up', dn'), Sma(xs, 20))[i]
  {
    SmaCausal(xs, 20, k, i);
    if i >= 19 {
      assert xs[..k][i - 19..i + 1] == xs[i - 19..i + 1];
    }
  }
}
