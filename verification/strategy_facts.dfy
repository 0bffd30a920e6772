/**
  What the four rules promise: when the live check fires compared with the
  backtest column, what the deep-dive verdict means, how the chart markers
  relate to the backtest, and how the suggested price levels are ordered.
*/
module StrategyFacts {
  import opened Series
  import opened Indicators
  import opened Strategies

  // ---------------------------------------------------------------------------
  // The strategy set
  // ---------------------------------------------------------------------------

  /** Every rule is active exactly once, and names identify rules. */
  lemma ActiveIsComplete(s: Strategy, t: Strategy)
    ensures s in Active
    ensures |Active| == 4
    ensures forall i, j | 0 <= i < j < |Active| :: Active[i] != Active[j]
    ensures Name(s) == Name(t) <==> s == t
  {
    if s != t {
      assert Name(s)[0] != Name(t)[0];
    }
  }

  // ---------------------------------------------------------------------------
  // Chart markers
  // ---------------------------------------------------------------------------

  /** The deep dive marks exactly the bars where the backtest buys. */
  lemma MarkersMatchBacktest(s: Strategy, f: Frame)
    requires f.WellFormed() && f.Len() >= DiveRows(s)
    ensures |DeepDive(s, f).chart| == f.Len()
    ensures forall i | 0 <= i < f.Len() ::
      (DeepDive(s, f).chart[i] == 1 <==> Backtest(s, f)[i])
      && (DeepDive(s, f).chart[i] == 0 <==> !Backtest(s, f)[i])
  {
  }

  // ---------------------------------------------------------------------------
  // The backtest column on the last bar
  // ---------------------------------------------------------------------------

  lemma ThBuyLast(f: Frame)
    requires f.WellFormed() && f.Len() >= 2
    ensures Backtest(TH, f)[f.Len() - 1]
      <==> Gt(f.hma[f.Len() - 1], f.hma[f.Len() - 2]) && Gt(CloseAt(f, f.Len() - 1), f.hma[f.Len() - 1])
  {
    assert Shift(f.hma)[f.Len() - 1] == f.hma[f.Len() - 2];
  }

  lemma TurtleBuyLast(f: Frame)
    requires f.WellFormed() && f.Len() >= 2
    ensures Backtest(Turtle, f)[f.Len() - 1]
      <==> (Gt(CloseAt(f, f.Len() - 1), f.high20[f.Len() - 1])
            && Le(CloseAt(f, f.Len() - 2), f.high20[f.Len() - 2])
            && Gt(CloseAt(f, f.Len() - 1), f.ma200[f.Len() - 1]))
  {
    var n := f.Len();
    assert Shift(Lift(f.close))[n - 1] == Lift(f.close)[n - 2] == CloseAt(f, n - 2);
    assert Shift(f.high20)[n - 1] == f.high20[n - 2];
  }

  lemma SniperBuyLast(f: Frame)
    requires f.WellFormed() && f.Len() >= 2
    ensures Backtest(HyperSniper, f)[f.Len() - 1]
      <==> (AboveMa20(f) && Le(CloseAt(f, f.Len() - 2), f.ma20[f.Len() - 2]) && Elite(f))
  {
    var n := f.Len();
    assert Shift(Lift(f.close))[n - 1] == Lift(f.close)[n - 2] == CloseAt(f, n - 2);
    assert Shift(f.ma20)[n - 1] == f.ma20[n - 2];
  }

  // ---------------------------------------------------------------------------
  // TH
  // ---------------------------------------------------------------------------

  /** The live TH check fires only on a rising, defined HMA that either turns
      up out of a trough or sits under the close, with RSI below 75. */
  lemma ThFiresOnlyIf(f: Frame)
    requires f.WellFormed() && f.Len() >= 3
    requires Check(TH, f).Positive()
    ensures Gt(f.hma[f.Len() - 1], f.hma[f.Len() - 2])
    ensures Le(f.hma[f.Len() - 2], f.hma[f.Len() - 3]) || Gt(CloseAt(f, f.Len() - 1), f.hma[f.Len() - 1])
    ensures Lt(f.rsi[f.Len() - 1], Some(75.0))
  {
  }

  /** A positive HMA step over a non-negative base has a positive slope. */
  lemma SlopePositive(h: real, p: real, rsi: real)
    requires h > p > 0.0 && rsi >= 0.0
    ensures (h - p) / p * 10000.0 + rsi / 2.0 > 0.0
  {
    assert (h - p) / p > 0.0;
  }

  /** Wherever the TH backtest buys on the last bar, with RSI in [0, 75) and a
      non-negative HMA base, the live check fires too. */
  lemma ThBuyFires(f: Frame)
    requires f.WellFormed() && f.Len() >= 3
    requires Backtest(TH, f)[f.Len() - 1]
    requires Lt(f.rsi[f.Len() - 1], Some(75.0)) && Ge(f.rsi[f.Len() - 1], Some(0.0))
    requires Ge(f.hma[f.Len() - 2], Some(0.0))
    ensures Check(TH, f).Positive()
  {
    ThBuyLast(f);
    ThRisingFires(f);
  }

  /** A rising HMA over a non-negative base, turning or under the close, with
      RSI in [0, 75), fires the live check. */
  lemma ThRisingFires(f: Frame)
    requires f.WellFormed() && f.Len() >= 3
    requires Gt(f.hma[f.Len() - 1], f.hma[f.Len() - 2])
    requires Le(f.hma[f.Len() - 2], f.hma[f.Len() - 3]) || Gt(CloseAt(f, f.Len() - 1), f.hma[f.Len() - 1])
    requires Lt(f.rsi[f.Len() - 1], Some(75.0)) && Ge(f.rsi[f.Len() - 1], Some(0.0))
    requires Ge(f.hma[f.Len() - 2], Some(0.0))
    ensures Check(TH, f).Positive()
  {
    var n := f.Len();
    var h, p := f.hma[n - 1].value, f.hma[n - 2].value;
    if p != 0.0 {
      SlopePositive(h, p, f.rsi[n - 1].value);
    }
  }

  /** The non-negative base is needed: over a negative HMA base a rise of at
      least half a percent of the base gives a slope of at most -50, which RSI
      under 75 cannot lift above zero, so the backtest buys while the live
      check stays silent. */
  lemma ThNegativeBaseMisses(f: Frame)
    requires f.WellFormed() && f.Len() >= 3
    requires Backtest(TH, f)[f.Len() - 1]
    requires Lt(f.rsi[f.Len() - 1], Some(75.0)) && Ge(f.rsi[f.Len() - 1], Some(0.0))
    requires Lt(f.hma[f.Len() - 2], Some(0.0))
    requires f.hma[f.Len() - 1].Some?
      && f.hma[f.Len() - 1].value - f.hma[f.Len() - 2].value >= -f.hma[f.Len() - 2].value / 200.0
    ensures !Check(TH, f).Positive()
  {
    var n := f.Len();
    ThBuyLast(f);
    NegativeBaseSlope(f.hma[n - 1].value, f.hma[n - 2].value, f.rsi[n - 1].value);
  }

  /** Over a negative base, a step of at least half a percent of the base
      outweighs any RSI bonus under 75. */
  lemma NegativeBaseSlope(h: real, p: real, rsi: real)
    requires p < 0.0 && h - p >= -p / 200.0 && 0.0 <= rsi < 75.0
    ensures (h - p) / p * 10000.0 + rsi / 2.0 < 0.0
  {
    var q := (h - p) / p;
    assert q * p == h - p;
    assert (q + 1.0 / 200.0) * p >= 0.0;
    assert q + 1.0 / 200.0 <= 0.0;
  }

  /** The converse fails: an HMA turning up out of a trough with the close
      still under it fires the live check but not the backtest. */
  lemma ThReversalBelowHma(f: Frame)
    requires f.WellFormed() && f.Len() >= 3
    requires Gt(f.hma[f.Len() - 1], f.hma[f.Len() - 2]) && Le(f.hma[f.Len() - 2], f.hma[f.Len() - 3])
    requires f.close[f.Len() - 1] <= f.hma[f.Len() - 1].value
    requires Lt(f.rsi[f.Len() - 1], Some(75.0)) && Ge(f.rsi[f.Len() - 1], Some(0.0))
    requires Ge(f.hma[f.Len() - 2], Some(0.0))
    ensures Check(TH, f).Positive()
    ensures !Backtest(TH, f)[f.Len() - 1]
  {
    ThRisingFires(f);
    ThBuyLast(f);
  }

  /** The TH deep dive says BUY exactly on the bars the backtest buys. */
  lemma ThDiveBuysWithBacktest(f: Frame)
    requires f.WellFormed() && f.Len() >= 3
    ensures (DeepDive(TH, f).signal in {BuyEntry, BuyTrend}) <==> Backtest(TH, f)[f.Len() - 1]
    ensures DeepDive(TH, f).signal in {BuyEntry, BuyTrend, Wait}
  {
    ThBuyLast(f);
    ThDiveSignal(f);
  }

  /** The TH deep dive buys exactly on a rising HMA under the close. */
  lemma ThDiveSignal(f: Frame)
    requires f.WellFormed() && f.Len() >= 3
    ensures (DeepDive(TH, f).signal in {BuyEntry, BuyTrend})
      <==> Gt(f.hma[f.Len() - 1], f.hma[f.Len() - 2]) && Gt(CloseAt(f, f.Len() - 1), f.hma[f.Len() - 1])
    ensures DeepDive(TH, f).signal in {BuyEntry, BuyTrend, Wait}
  {
    assert DeepDive(TH, f) == ThDive(f);
  }

  /** A TH buy is an "entry" rather than a "trend" when the HMA has just
      turned or yesterday's close was not above it. */
  lemma ThDiveEntry(f: Frame)
    requires f.WellFormed() && f.Len() >= 3
    ensures DeepDive(TH, f).signal == BuyEntry <==>
      (Backtest(TH, f)[f.Len() - 1]
       && (Le(f.hma[f.Len() - 2], f.hma[f.Len() - 3]) || Le(CloseAt(f, f.Len() - 2), f.hma[f.Len() - 2])))
  {
    ThBuyLast(f);
  }

  /** TH levels: the stop three ATRs under the close and the target six ATRs
      over it, so with a positive ATR the target is twice as far as the stop. */
  lemma ThLevels(f: Frame)
    requires f.WellFormed() && f.Len() >= 3
    requires Gt(f.atr[f.Len() - 1], Some(0.0))
    ensures var r, c, a := DeepDive(TH, f), f.close[f.Len() - 1], f.atr[f.Len() - 1].value;
      r.stop == Some(c - 3.0 * a) && r.target == Some(c + 6.0 * a)
    ensures var r := DeepDive(TH, f);
      && r.entry == CloseAt(f, f.Len() - 1) && r.stop.Some? && r.target.Some?
      && r.stop.value < r.entry.value < r.target.value
      && r.target.value - r.entry.value == 2.0 * (r.entry.value - r.stop.value)
  {
  }

  // ---------------------------------------------------------------------------
  // Turtle
  // ---------------------------------------------------------------------------

  /** With a non-negative 20-day high, the live Turtle check fires exactly when
      the backtest buys on the last bar. */
  lemma TurtleFiresIffBuy(f: Frame)
    requires f.WellFormed() && f.Len() >= 2
    requires !Lt(f.high20[f.Len() - 1], Some(0.0))
    ensures Check(Turtle, f).Positive() <==> Backtest(Turtle, f)[f.Len() - 1]
  {
    var n := f.Len();
    TurtleBuyLast(f);
    assert Check(Turtle, f) == TurtleCheck(f);
    if Backtest(Turtle, f)[n - 1] && f.high20[n - 1].value != 0.0 {
      BreakoutMargin(f.close[n - 1], f.high20[n - 1].value);
    }
  }

  /** A close above a positive high has a positive breakout margin. */
  lemma BreakoutMargin(c: real, h: real)
    requires c > h > 0.0
    ensures (c / h - 1.0) * 1000.0 > 0.0
  {
    assert c / h > 1.0;
  }

  /** A negative 20-day high breaks that agreement: a breakout over it by a
      positive close scores negative. */
  lemma TurtleNegativeHighMisses(f: Frame)
    requires f.WellFormed() && f.Len() >= 2
    requires Backtest(Turtle, f)[f.Len() - 1]
    requires Lt(f.high20[f.Len() - 1], Some(0.0)) && f.close[f.Len() - 1] > 0.0
    ensures !Check(Turtle, f).Positive()
  {
    var n := f.Len();
    TurtleBuyLast(f);
    var c, h := f.close[n - 1], f.high20[n - 1].value;
    assert c / h < 0.0;
  }

  /** The Turtle deep dive: BUY on a backtest breakout; otherwise EXIT under
      the 10-day low, HOLD above the 200-day average, else wait. */
  lemma TurtleDivePriority(f: Frame)
    requires f.WellFormed() && f.Len() >= 2
    requires !Lt(f.high20[f.Len() - 1], Some(0.0))
    ensures DeepDive(Turtle, f).signal == BuyBreakout <==> Check(Turtle, f).Positive()
    ensures DeepDive(Turtle, f).signal == Exit <==>
      !Check(Turtle, f).Positive() && Lt(CloseAt(f, f.Len() - 1), f.low10[f.Len() - 1])
    ensures DeepDive(Turtle, f).signal == HoldPosition <==>
      && !Check(Turtle, f).Positive()
      && !Lt(CloseAt(f, f.Len() - 1), f.low10[f.Len() - 1])
      && Gt(CloseAt(f, f.Len() - 1), f.ma200[f.Len() - 1])
    ensures DeepDive(Turtle, f).signal in {BuyBreakout, Exit, HoldPosition, Wait}
  {
    TurtleFiresIffBuy(f);
  }

  /** Turtle levels are anchored on the 20-day high: stop two ATRs under it,
      target four ATRs over it. */
  lemma TurtleLevels(f: Frame)
    requires f.WellFormed() && f.Len() >= 1
    requires f.high20[f.Len() - 1].Some? && Gt(f.atr[f.Len() - 1], Some(0.0))
    ensures var r, h, a := DeepDive(Turtle, f), f.high20[f.Len() - 1].value, f.atr[f.Len() - 1].value;
      r.stop == Some(h - 2.0 * a) && r.target == Some(h + 4.0 * a)
    ensures var r := DeepDive(Turtle, f);
      && r.entry == f.high20[f.Len() - 1] && r.stop.Some? && r.target.Some?
      && r.stop.value < r.entry.value < r.target.value
      && r.target.value - r.entry.value == 2.0 * (r.entry.value - r.stop.value)
  {
    TurtleLevelValues(f);
  }

  /** The Turtle deep dive's entry, stop and target, read off the frame. */
  lemma TurtleLevelValues(f: Frame)
    requires f.WellFormed() && f.Len() >= 1
    requires f.high20[f.Len() - 1].Some? && f.atr[f.Len() - 1].Some?
    ensures var r, h, a := DeepDive(Turtle, f), f.high20[f.Len() - 1].value, f.atr[f.Len() - 1].value;
      r.entry == Some(h) && r.stop == Some(h - 2.0 * a) && r.target == Some(h + 4.0 * a)
  {
    var n, r := f.Len(), DeepDive(Turtle, f);
    var high, atr := f.high20[n - 1], f.atr[n - 1];
    assert r == TurtleDive(f);
    assert r.entry == high && r.stop == Sub(high, Scale(2.0, atr)) && r.target == Add(high, Scale(4.0, atr));
  }

  // ---------------------------------------------------------------------------
  // BNF
  // ---------------------------------------------------------------------------

  /** BNF fires exactly when the backtest buys on the last bar, scoring at
      least 20, and the deep dive then says oversold. */
  lemma BnfFiresIffBuy(f: Frame)
    requires f.WellFormed() && f.Len() >= 1
    ensures Check(BNF, f).Positive() <==> Backtest(BNF, f)[f.Len() - 1]
    ensures Check(BNF, f).Positive() ==> Check(BNF, f).Finite? && Check(BNF, f).value >= 20.0
    ensures DeepDive(BNF, f).signal == BuyOversold <==> Backtest(BNF, f)[f.Len() - 1]
    ensures DeepDive(BNF, f).signal in {BuyOversold, Wait}
  {
  }

  /** BNF levels: a 5% stop under the close, the 25-day average as target. */
  lemma BnfLevels(f: Frame)
    requires f.WellFormed() && f.Len() >= 1
    requires f.close[f.Len() - 1] > 0.0
    ensures var r := DeepDive(BNF, f);
      && r.entry == CloseAt(f, f.Len() - 1) && r.stop.Some?
      && r.stop.value < r.entry.value
      && r.entry.value - r.stop.value == r.entry.value / 20.0
      && r.target == f.ma25[f.Len() - 1]
  {
  }

  // ---------------------------------------------------------------------------
  // HyperSniper
  // ---------------------------------------------------------------------------

  /** The HyperSniper score is 0, 80, 90 or 100; it is 0 below 60 rows, and
      positive exactly when all five filters pass; a breakout and a volume
      surge each add 10 to the base 80. */
  lemma SniperScoreLevels(f: Frame)
    requires f.WellFormed()
    ensures var r := Check(HyperSniper, f);
      r == Finite(0.0) || r == Finite(80.0) || r == Finite(90.0) || r == Finite(100.0)
    ensures f.Len() < SniperMinRows ==> Check(HyperSniper, f) == NoSignal
    ensures Check(HyperSniper, f).Positive() <==>
      (f.Len() >= SniperMinRows && VwapOk(f) && Squeezed(f) && Elite(f)
       && (CrossUp(f) || Support(f)) && MomentumUp(f))
    ensures Check(HyperSniper, f).Positive() ==>
      (Check(HyperSniper, f).value >= 90.0 <==> CrossUp(f) || VolumeSurge(f))
    ensures Check(HyperSniper, f).Positive() ==>
      (Check(HyperSniper, f).value == 100.0 <==> CrossUp(f) && VolumeSurge(f))
  {
  }

  /** A missing VWAP never blocks the HyperSniper check; a present one
      requires the close at or above it. */
  lemma SniperVwapGate(f: Frame)
    requires f.WellFormed() && f.Len() >= 1
    ensures f.vwap[f.Len() - 1] == None ==> VwapOk(f)
    ensures f.vwap[f.Len() - 1].Some? ==>
      (VwapOk(f) <==> f.close[f.Len() - 1] >= f.vwap[f.Len() - 1].value)
  {
  }

  /** A cross-up on an elite trend is a backtest buy; with `SniperScoreLevels`
      (a firing check is elite) a firing cross-up is one, and by
      `SniperDivePriority` it is also a deep-dive breakout. */
  lemma SniperCrossIsBuy(f: Frame)
    requires f.WellFormed() && f.Len() >= 2
    requires Elite(f) && CrossUp(f)
    ensures Backtest(HyperSniper, f)[f.Len() - 1]
  {
    SniperBuyLast(f);
  }

  /** The live check and the backtest disagree on a touch: a previous close
      exactly on the previous MA20 is a backtest cross (`<=`) but not a
      check breakout (`<`). */
  lemma SniperTouchIsOnlyBacktest(f: Frame)
    requires f.WellFormed() && f.Len() >= 2
    requires Elite(f) && AboveMa20(f)
    requires f.ma20[f.Len() - 2] == Some(f.close[f.Len() - 2])
    ensures Backtest(HyperSniper, f)[f.Len() - 1]
    ensures !CrossUp(f)
  {
    SniperBuyLast(f);
  }

  /** The deep dive's verdict ladder. */
  lemma SniperDivePriority(f: Frame)
    requires f.WellFormed() && f.Len() >= 2
    ensures DeepDive(HyperSniper, f).signal == BuyBreakout <==> CrossUp(f)
    ensures DeepDive(HyperSniper, f).signal == WaitBelowMa20 <==> !AboveMa20(f)
    ensures DeepDive(HyperSniper, f).signal in {BuyPullback, HoldTrend} ==> AboveMa20(f) && Elite(f)
    ensures DeepDive(HyperSniper, f).signal == BuyPullback <==> !CrossUp(f) && Support(f) && Elite(f)
    ensures DeepDive(HyperSniper, f).signal == HoldTrend <==> !CrossUp(f) && !Support(f) && AboveMa20(f) && Elite(f)
    ensures DeepDive(HyperSniper, f).signal == Wait <==> !CrossUp(f) && AboveMa20(f) && !Elite(f)
    ensures DeepDive(HyperSniper, f).signal in {BuyBreakout, BuyPullback, HoldTrend, WaitBelowMa20, Wait}
  {
  }

  /** HyperSniper levels: the target 15% over the close, the stop 3% under
      MA20. */
  lemma SniperLevels(f: Frame)
    requires f.WellFormed() && f.Len() >= 2
    requires f.close[f.Len() - 1] > 0.0 && Gt(f.ma20[f.Len() - 1], Some(0.0))
    ensures var r := DeepDive(HyperSniper, f);
      r.target == Some(f.close[f.Len() - 1] * 1.15) && r.stop == Some(0.97 * f.ma20[f.Len() - 1].value)
    ensures var r := DeepDive(HyperSniper, f);
      && r.entry == CloseAt(f, f.Len() - 1) && r.target.Some? && r.stop.Some?
      && r.target.value > r.entry.value && r.stop.value < f.ma20[f.Len() - 1].value
  {
    SniperLevelValues(f);
  }

  /** The HyperSniper deep dive's entry, stop and target, read off the frame. */
  lemma SniperLevelValues(f: Frame)
    requires f.WellFormed() && f.Len() >= 2 && f.ma20[f.Len() - 1].Some?
    ensures var r := DeepDive(HyperSniper, f);
      && r.entry == Some(f.close[f.Len() - 1])
      && r.target == Some(f.close[f.Len() - 1] * 1.15)
      && r.stop == Some(0.97 * f.ma20[f.Len() - 1].value)
  {
    var n, r := f.Len(), DeepDive(HyperSniper, f);
    assert r == SniperDive(f);
    assert r.entry == CloseAt(f, n - 1) && r.stop == Scale(0.97, f.ma20[n - 1]);
  }
  /** HyperSniper's checklist carries at most one VWAP mark, and it is the
      right one; the squeeze mark follows a band width under 0.25, the
      alignment mark follows EMA10 over EMA20. */
  lemma SniperChecklist(f: Frame)
    requires f.WellFormed() && f.Len() >= 1
    ensures |SniperNotes(f)| <= 3
    ensures "VWAP지지✅" in SniperNotes(f) <==> f.vwap[f.Len() - 1].Some? && VwapOk(f)
    ensures "VWAP이탈❌" in SniperNotes(f) <==> f.vwap[f.Len() - 1].Some? && !VwapOk(f)
    ensures "응축됨✅" in SniperNotes(f) <==> Lt(f.bandwidth[f.Len() - 1], Some(0.25))
    ensures "정배열✅" in SniperNotes(f) <==> Elite(f)
  {
  }

  /** Only the HyperSniper deep dive carries a checklist note. */
  lemma DiveNote(s: Strategy, f: Frame)
    requires f.WellFormed() && f.Len() >= DiveRows(s)
    ensures DeepDive(s, f).note.Some? <==> s == HyperSniper
  {
  }
}
