/**
  What the scan of one stock promises: a result exactly when some rule
  fires, the firing rules listed once each from best score down, the win
  rate's counts and text, the position size's budget limits, and a verdict
  for every rule.
*/
module ScannerFacts {
  import opened Series
  import opened Indicators
  import opened Text
  import opened Strategies
  import opened StrategyFacts
  import opened Scanner

  // ---------------------------------------------------------------------------
  // Which rules are reported, and in what order
  // ---------------------------------------------------------------------------

  /** The rules a ranked list mentions. */
  function Listed(ms: seq<Match>): (r: seq<Strategy>)
    ensures |r| == |ms| && forall k | 0 <= k < |ms| :: r[k] == ms[k].strategy
  {
    seq(|ms|, k requires 0 <= k < |ms| => ms[k].strategy)
  }

  /** Matching over `Active` keeps `Active` order and picks out exactly the
      rules whose score is positive. */
  lemma MatchesOfActive(scores: Scoreboard)
    ensures InActiveOrder(Matches(scores, Active))
    ensures forall s :: s in Listed(Matches(scores, Active)) <==> scores.Of(s).Positive()
  {
    var ms := Matches(scores, Active);
    ActiveIsComplete(HyperSniper, HyperSniper);
    MatchesInOrder(scores, Active);
    forall s
      ensures s in Listed(ms) <==> scores.Of(s).Positive()
    {
      ActiveIsComplete(s, s);
      if scores.Of(s).Positive() {
        var k :| 0 <= k < |ms| && ms[k] == Match(s, scores.Of(s));
        assert Listed(ms)[k] == s;
      }
    }
  }

  /** Lists holding the same matches mention the same rules. */
  lemma ListedSameMembers(a: seq<Match>, b: seq<Match>)
    requires multiset(a) == multiset(b)
    ensures forall s :: s in Listed(a) <==> s in Listed(b)
  {
    forall s | s in Listed(a)
      ensures s in Listed(b)
    {
      var k :| 0 <= k < |a| && a[k].strategy == s;
      assert a[k] in multiset(a);
      assert a[k] in multiset(b);
      var j :| 0 <= j < |b| && b[j] == a[k];
      assert Listed(b)[j] == s;
    }
    forall s | s in Listed(b)
      ensures s in Listed(a)
    {
      var k :| 0 <= k < |b| && b[k].strategy == s;
      assert b[k] in multiset(b);
      assert b[k] in multiset(a);
      var j :| 0 <= j < |a| && a[j] == b[k];
      assert Listed(a)[j] == s;
    }
  }

  /** Ranking the matches of a scoreboard keeps exactly the positive rules,
      each with its own score. */
  lemma RankMembers(scores: Scoreboard)
    ensures var r := Rank(Matches(scores, Active));
      && (forall s :: s in Listed(r) <==> scores.Of(s).Positive())
      && (forall k | 0 <= k < |r| :: r[k].score == scores.Of(r[k].strategy))
  {
    var ms := Matches(scores, Active);
    var r := Rank(ms);
    MatchesOfActive(scores);
    ListedSameMembers(r, ms);
    forall k | 0 <= k < |r|
      ensures r[k].score == scores.Of(r[k].strategy)
    {
      assert r[k] in multiset(ms);
    }
  }

  /** The ranking is sorted and stable, names each rule once, and no rule
      scores above its head. */
  lemma RankOrder(scores: Scoreboard)
    ensures var r := Rank(Matches(scores, Active));
      && Sorted(r) && TiesInOrder(r)
      && (forall i, j | 0 <= i < j < |r| :: r[i].strategy != r[j].strategy)
      && (|r| > 0 ==> forall s :: !scores.Of(s).Above(r[0].score))
  {
    var ms := Matches(scores, Active);
    MatchesOfActive(scores);
    RankSortedStable(ms);
    RankDistinct(scores);
    RankHead(scores);
  }

  /** No rule appears twice in the ranking. */
  lemma RankDistinct(scores: Scoreboard)
    requires var r := Rank(Matches(scores, Active)); Sorted(r) && TiesInOrder(r)
    ensures var r := Rank(Matches(scores, Active));
      forall i, j | 0 <= i < j < |r| :: r[i].strategy != r[j].strategy
  {
    var r := Rank(Matches(scores, Active));
    RankMembers(scores);
    forall i, j | 0 <= i < j < |r|
      ensures r[i].strategy != r[j].strategy
    {
      if r[i].strategy == r[j].strategy {
        assert false;
      }
    }
  }

  /** No rule scores above the head of the ranking. */
  lemma RankHead(scores: Scoreboard)
    requires Sorted(Rank(Matches(scores, Active)))
    ensures var r := Rank(Matches(scores, Active));
      |r| > 0 ==> forall s :: !scores.Of(s).Above(r[0].score)
  {
    var r := Rank(Matches(scores, Active));
    RankMembers(scores);
    if |r| > 0 {
      forall s
        ensures !scores.Of(s).Above(r[0].score)
      {
        if scores.Of(s).Above(r[0].score) {
          AboveOrder();
          assert false;
        }
      }
    }
  }

  /** A stock yields no result exactly when no rule fires on it. */
  lemma AnalyzeNoneIff(f: Frame)
    requires f.WellFormed() && f.Len() >= MaxRows
    ensures Analyze(f).None? <==> forall s: Strategy :: !Check(s, f).Positive()
  {
    RankMembers(Scores(f));
    if |Ranked(f)| > 0 {
      assert Ranked(f)[0].strategy in Listed(Ranked(f));
    }
  }

  /** The ranked list holds every firing rule and nothing else, each with its
      own score. */
  lemma RankedFiring(f: Frame)
    requires f.WellFormed() && f.Len() >= MaxRows
    ensures forall s :: s in Listed(Ranked(f)) <==> Check(s, f).Positive()
    ensures forall k | 0 <= k < |Ranked(f)| :: Ranked(f)[k].score == Check(Ranked(f)[k].strategy, f)
  {
    RankMembers(Scores(f));
  }

  /** The ranked list is best first, names each rule once, keeps tied rules
      in `Active` order, and no rule scores above its head. */
  lemma RankedOrder(f: Frame)
    requires f.WellFormed() && f.Len() >= MaxRows
    ensures Sorted(Ranked(f)) && TiesInOrder(Ranked(f))
    ensures forall i, j | 0 <= i < j < |Ranked(f)| :: Ranked(f)[i].strategy != Ranked(f)[j].strategy
    ensures |Ranked(f)| > 0 ==> forall s :: !Check(s, f).Above(Check(Ranked(f)[0].strategy, f))
  {
    RankOrder(Scores(f));
    RankMembers(Scores(f));
  }

  /** A result's display string starts with its top rule's name, and its win
      rate is reported under that name. */
  lemma FindingDisplay(ranked: seq<Match>, rate: WinRate, price: real)
    requires |ranked| > 0 && rate.wins <= rate.total
    ensures var r := FindingOf(ranked, rate, price);
      && |r.display| >= |Name(r.top)| && r.display[..|Name(r.top)|] == Name(r.top)
      && r.pastWinRate[..|Name(r.top)| + 2] == Name(r.top) + ": "
      && |r.display| == TotalLength(Names(ranked)) + 3 * (|ranked| - 1)
  {
    JoinLength(Names(ranked), " > ");
    JoinStartsWithFirst(Names(ranked), " > ");
  }

  /** Too short a history gives no result; otherwise the result is that of
      the loaded frame. */
  lemma AnalyzeStockNeedsHistory(bars: seq<Bar>, sd: seq<real> -> real)
    ensures |bars| < 200 ==> AnalyzeStock(bars, sd).None?
    ensures AnalyzeStock(bars, sd).Some? ==>
      |bars| >= 200 && exists s: Strategy :: Check(s, Load(bars, sd).value).Positive()
  {
    if |bars| >= 200 {
      var f := Load(bars, sd).value;
      AnalyzeNoneIff(f);
    }
  }

  // ---------------------------------------------------------------------------
  // Win rate
  // ---------------------------------------------------------------------------

  /** The counted bars are exactly the signal bars that still have a close
      `Horizon` bars ahead, and every win lies among them. */
  lemma WinRateCounts(close: seq<real>, buy: seq<bool>)
    requires |close| == |buy|
    ensures var idx := Where(buy, Judged(|buy|));
      && WinRateOf(close, buy).total == |idx|
      && (forall j | 0 <= j < |idx| :: buy[idx[j]] && idx[j] + Horizon < |close|)
      && (forall i | 0 <= i < |buy| && i + Horizon < |buy| :: buy[i] <==> i in idx)
      && WinRateOf(close, buy).wins <= WinRateOf(close, buy).total
    ensures WinRateOf(close, buy).wins
      == |set i | 0 <= i < |buy| && i + Horizon < |buy| && buy[i] && close[i + Horizon] > close[i]|
  {
    WhereExact(buy, Judged(|buy|));
    WinsCountRises(close, buy, Judged(|buy|));
    assert RisesBefore(close, buy, Judged(|buy|))
      == set i | 0 <= i < |buy| && i + Horizon < |buy| && buy[i] && close[i + Horizon] > close[i];
  }

  /** The signal bars before `k` whose close `Horizon` bars later is strictly higher. */
  function RisesBefore(close: seq<real>, buy: seq<bool>, k: nat): set<int>
    requires |close| == |buy|
  {
    set i | 0 <= i < k && i + Horizon < |buy| && buy[i] && close[i + Horizon] > close[i]
  }

  /** `Wins` over the signal bars before `k` counts exactly the rises. */
  lemma {:induction false} WinsCountRises(close: seq<real>, buy: seq<bool>, k: nat)
    requires |close| == |buy| && k <= Judged(|buy|)
    ensures Wins(close, Where(buy, k)) == |RisesBefore(close, buy, k)|
  {
    if k == 0 {
      assert RisesBefore(close, buy, k) == {};
    } else {
      var i := k - 1;
      WinsCountRises(close, buy, i);
      WhereStep(close, buy, i);
      RisesStep(close, buy, i);
    }
  }

  /** Bar `i` joins the rises exactly when it signals and rises; it was not among them before. */
  lemma RisesStep(close: seq<real>, buy: seq<bool>, i: nat)
    requires |close| == |buy| && i + Horizon < |buy|
    ensures |RisesBefore(close, buy, i + 1)|
      == |RisesBefore(close, buy, i)| + (if buy[i] && close[i + Horizon] > close[i] then 1 else 0)
  {
    var a, b := RisesBefore(close, buy, i), RisesBefore(close, buy, i + 1);
    assert i !in a;
    if buy[i] && close[i + Horizon] > close[i] {
      assert b == a + {i};
    } else {
      assert b == a;
    }
  }

  lemma DecimalShort(n: nat)
    requires |Decimal(n)| == 1
    ensures n < 10 && Decimal(n) == [DigitChar(n)]
  {
  }

  /** The win-rate text is "0% (0/0)" exactly when no bar was judged. */
  lemma WinRateTextZero(w: WinRate)
    requires w.wins <= w.total
    ensures WinRateText(w) == "0% (0/0)" <==> w.total == 0
  {
    if w.total > 0 && WinRateText(w) == "0% (0/0)" {
      var a, b, c := Decimal(RoundPercent(w.wins, w.total)), Decimal(w.wins), Decimal(w.total);
      assert WinRateText(w) == a + "% (" + b + "/" + c + ")";
      assert |c| == 1;
      DecimalShort(w.total);
      assert WinRateText(w)[6] == c[0];
      DigitRoundTrip(w.total);
      assert false;
    }
  }

  // ---------------------------------------------------------------------------
  // Position sizing
  // ---------------------------------------------------------------------------

  lemma MulLeLeft(x: real, y: real, c: real)
    requires x <= y && c >= 0.0
    ensures x * c <= y * c
  {
  }

  lemma MulLtLeft(x: real, y: real, c: real)
    requires x < y && c > 0.0
    ensures x * c < y * c
  {
  }

  lemma DivNonNeg(a: real, b: real)
    requires a >= 0.0 && b > 0.0
    ensures a / b >= 0.0 && (a / b) * b == a
  {
  }

  /** Truncating a non-negative quotient gives the largest whole count whose
      multiple stays within the dividend. */
  lemma TruncQuotient(a: real, b: real)
    requires a >= 0.0 && b > 0.0
    ensures Trunc(a / b) >= 0
    ensures Trunc(a / b) as real * b <= a
    ensures a < (Trunc(a / b) as real + 1.0) * b
  {
    DivNonNeg(a, b);
    var t := Trunc(a / b);
    WholeBelow(a, b, a / b, t as real);
  }

  /** A whole part `t` of a quotient `q = a / b` brackets the dividend. */
  lemma WholeBelow(a: real, b: real, q: real, t: real)
    requires b > 0.0 && q * b == a && t <= q < t + 1.0
    ensures t * b <= a < (t + 1.0) * b
  {
    MulLeLeft(t, q, b);
    MulLtLeft(q, t + 1.0, b);
    assert q * b < (t + 1.0) * b;
    assert a == q * b;
    assert a < (t + 1.0) * b;
  }

  /** The budget count: never negative, zero without a positive risk, and the
      largest count whose loss fits the budget. */
  lemma RiskSharesBudget(allowable: real, risk: Option<real>)
    requires allowable >= 0.0
    ensures RiskShares(allowable, risk) >= 0
    ensures !Gt(risk, Some(0.0)) ==> RiskShares(allowable, risk) == 0
    ensures Gt(risk, Some(0.0)) ==>
      RiskShares(allowable, risk) as real * risk.value <= allowable
      < (RiskShares(allowable, risk) as real + 1.0) * risk.value
  {
    if Gt(risk, Some(0.0)) {
      TruncQuotient(allowable, risk.value);
    }
  }

  /** The capital cap: with non-negative capital and count it always answers,
      never raises the count, keeps the cost within the capital at a positive
      price, and when it cuts, one more share would cost too much. */
  lemma CappedAffordable(shares: int, applied: real, entry: Option<real>)
    requires shares >= 0 && applied >= 0.0
    ensures Capped(shares, applied, entry).Some?
    ensures 0 <= Capped(shares, applied, entry).value <= shares
    ensures entry.Some? && entry.value > 0.0 ==>
      Capped(shares, applied, entry).value as real * entry.value <= applied
    ensures Capped(shares, applied, entry).value < shares ==>
      (Capped(shares, applied, entry).value as real + 1.0) * entry.value > applied
  {
    if entry.Some? && shares as real * entry.value > applied {
      var p := entry.value;
      if p <= 0.0 {
        MulLeLeft(0.0, shares as real, -p);
        assert false;
      }
      TruncQuotient(applied, p);
      var t := Trunc(applied / p);
      if t > shares {
        MulLeLeft(shares as real, t as real, p);
      }
    }
  }

  /**
    With non-negative capital and a positive exchange rate, sizing always
    answers: a letters-only ticker converts the capital, the budget is 2% of
    it, and the share count is non-negative, zero without a stop below the
    entry, and costs no more than the capital.
  */
  lemma SizingLimits(ticker: string, capital: real, usdRate: real, entry: Option<real>, stop: Option<real>)
    requires capital >= 0.0 && usdRate > 0.0
    ensures var r := Size(ticker, capital, usdRate, entry, stop);
      && r.Some?
      && r.value.isUs == AllLetters(ticker)
      && r.value.applied == (if AllLetters(ticker) then capital / usdRate else capital)
      && r.value.allowable == r.value.applied * RiskFraction
      && r.value.shares >= 0
      && (!Gt(Sub(entry, stop), Some(0.0)) ==> r.value.shares == 0)
      && (entry.Some? && entry.value > 0.0 ==> r.value.shares as real * entry.value <= r.value.applied)
  {
    DivNonNeg(capital, usdRate);
    var applied := if AllLetters(ticker) then capital / usdRate else capital;
    SharesLimits(applied, entry, stop);
    SizeFields(ticker, capital, usdRate, entry, stop, applied);
  }

  /** The capped budget count over a non-negative capital `applied`. */
  lemma SharesLimits(applied: real, entry: Option<real>, stop: Option<real>)
    requires applied >= 0.0
    ensures var c := Capped(RiskShares(applied * RiskFraction, Sub(entry, stop)), applied, entry);
      && c.Some? && c.value >= 0
      && (!Gt(Sub(entry, stop), Some(0.0)) ==> c.value == 0)
      && (entry.Some? && entry.value > 0.0 ==> c.value as real * entry.value <= applied)
  {
    var allowable := applied * RiskFraction;
    RiskSharesBudget(allowable, Sub(entry, stop));
    CappedAffordable(RiskShares(allowable, Sub(entry, stop)), applied, entry);
  }

  /** With a positive rate, `Size` answers with the converted capital, its 2%
      budget and the capped budget count. */
  lemma SizeFields(ticker: string, capital: real, usdRate: real, entry: Option<real>, stop: Option<real>, applied: real)
    requires usdRate > 0.0 && applied == (if AllLetters(ticker) then capital / usdRate else capital)
    requires Capped(RiskShares(applied * RiskFraction, Sub(entry, stop)), applied, entry).Some?
    ensures var r := Size(ticker, capital, usdRate, entry, stop);
      && r.Some? && r.value.isUs == AllLetters(ticker)
      && r.value.applied == applied && r.value.allowable == applied * RiskFraction
      && r.value.shares == Capped(RiskShares(applied * RiskFraction, Sub(entry, stop)), applied, entry).value
  {
  }

  /** The sizing's recorded loss is the share count times the distance from
      the entry to the stop. */
  lemma SizingLoss(ticker: string, capital: real, usdRate: real, entry: Option<real>, stop: Option<real>)
    requires capital >= 0.0 && usdRate > 0.0
    requires Gt(Sub(entry, stop), Some(0.0))
    ensures Size(ticker, capital, usdRate, entry, stop).Some?
    ensures var r := Size(ticker, capital, usdRate, entry, stop).value;
      r.totalLoss.Some? && r.totalLoss.value == r.shares as real * (entry.value - stop.value)
  {
    SizingLimits(ticker, capital, usdRate, entry, stop);
    var r := Size(ticker, capital, usdRate, entry, stop).value;
    assert r.totalLoss == Scale(r.shares as real, Sub(entry, stop));
  }

  /** When the stop lies under the entry, the loss at the stop stays within
      the 2% budget, and one more share would exceed the budget or the
      capital. */
  lemma SizingRisk(ticker: string, capital: real, usdRate: real, entry: Option<real>, stop: Option<real>)
    requires capital >= 0.0 && usdRate > 0.0
    requires Gt(Sub(entry, stop), Some(0.0))
    ensures Size(ticker, capital, usdRate, entry, stop).Some?
    ensures var r := Size(ticker, capital, usdRate, entry, stop).value;
      r.shares as real * (entry.value - stop.value) <= r.allowable
    ensures var r := Size(ticker, capital, usdRate, entry, stop).value;
      (r.shares as real + 1.0) * (entry.value - stop.value) > r.allowable
      || (r.shares as real + 1.0) * entry.value > r.applied
  {
    SizeShares(ticker, capital, usdRate, entry, stop);
    assert Sub(entry, stop) == Some(entry.value - stop.value);
    var r := Size(ticker, capital, usdRate, entry, stop).value;
    CappedBudget(r, entry, stop);
    assert OneMoreBreaks(r, entry.value, stop.value);
  }

  /** One more share would lose more than the budget at the stop or cost more
      than the capital. */
  predicate OneMoreBreaks(r: Sizing, entry: real, stop: real) {
    (r.shares as real + 1.0) * (entry - stop) > r.allowable || (r.shares as real + 1.0) * entry > r.applied
  }

  /** A sizing's count is the capped budget count of its own budget and capital. */
  lemma SizeShares(ticker: string, capital: real, usdRate: real, entry: Option<real>, stop: Option<real>)
    requires capital >= 0.0 && usdRate > 0.0
    ensures Size(ticker, capital, usdRate, entry, stop).Some?
    ensures var r := Size(ticker, capital, usdRate, entry, stop).value;
      && r.allowable >= 0.0 && r.applied >= 0.0
      && r.shares == Capped(RiskShares(r.allowable, Sub(entry, stop)), r.applied, entry).value
  {
    DivNonNeg(capital, usdRate);
    var applied := if AllLetters(ticker) then capital / usdRate else capital;
    SharesLimits(applied, entry, stop);
    SizeFields(ticker, capital, usdRate, entry, stop, applied);
  }

  /** A sizing whose count is the capped budget count keeps the loss at the
      stop within the budget, and one more share would break the budget or
      the capital. */
  lemma CappedBudget(r: Sizing, entry: Option<real>, stop: Option<real>)
    requires entry.Some? && stop.Some? && entry.value - stop.value > 0.0
    requires r.allowable >= 0.0 && r.applied >= 0.0
    requires r.shares == Capped(RiskShares(r.allowable, Some(entry.value - stop.value)), r.applied, entry).value
    ensures r.shares as real * (entry.value - stop.value) <= r.allowable
    ensures (r.shares as real + 1.0) * (entry.value - stop.value) > r.allowable
      || (r.shares as real + 1.0) * entry.value > r.applied
  {
    CountMaximal(r.allowable, r.applied, entry.value, entry.value - stop.value);
  }

  /** The capped budget count loses at most the budget at the stop, and is the
      largest such count the capital also buys. */
  lemma CountMaximal(allowable: real, applied: real, entry: real, risk: real)
    requires allowable >= 0.0 && applied >= 0.0 && risk > 0.0
    ensures var n := Capped(RiskShares(allowable, Some(risk)), applied, Some(entry)).value;
      && n as real * risk <= allowable
      && ((n as real + 1.0) * risk > allowable || (n as real + 1.0) * entry > applied)
  {
    var first := RiskShares(allowable, Some(risk));
    RiskSharesBudget(allowable, Some(risk));
    CappedAffordable(first, applied, Some(entry));
    MaximalBelow(Capped(first, applied, Some(entry)).value, first, allowable, applied, entry, risk);
  }

  /** A count no larger than the budget count, cut only where one more share
      would cost too much, fits the budget and cannot grow by one. */
  lemma MaximalBelow(n: int, first: int, allowable: real, applied: real, entry: real, risk: real)
    requires risk > 0.0 && n <= first
    requires first as real * risk <= allowable < (first as real + 1.0) * risk
    requires n < first ==> (n as real + 1.0) * entry > applied
    ensures n as real * risk <= allowable
    ensures (n as real + 1.0) * risk > allowable || (n as real + 1.0) * entry > applied
  {
    MulLeLeft(n as real, first as real, risk);
  }

  /** A trade plan carries the deep dive's prices and is sized on them. */
  lemma PlanUsesDeepDive(f: Frame, s: Strategy, capital: real, usdRate: real, ticker: string)
    requires f.WellFormed() && f.Len() >= DiveRows(s)
    requires capital >= 0.0 && usdRate > 0.0
    ensures var p := PlanTrade(f, s, capital, usdRate, ticker);
      && p.Some? && p.value.report == DeepDive(s, f)
      && p.value.sizing == Size(ticker, capital, usdRate, DeepDive(s, f).entry, DeepDive(s, f).stop).value
  {
    SizingLimits(ticker, capital, usdRate, DeepDive(s, f).entry, DeepDive(s, f).stop);
  }

  // ---------------------------------------------------------------------------
  // Status of every rule
  // ---------------------------------------------------------------------------

  lemma {:induction false} StatusOfValue(f: Frame, ss: seq<Strategy>, s: Strategy)
    requires f.WellFormed() && f.Len() >= MaxRows
    requires s in ss
    ensures Name(s) in StatusOf(f, ss) && StatusOf(f, ss)[Name(s)] == Label(DeepDive(s, f).signal)
  {
    var last := ss[|ss| - 1];
    if s != last {
      assert s in ss[..|ss| - 1];
      ActiveIsComplete(s, last);
      StatusOfValue(f, ss[..|ss| - 1], s);
    }
  }

  /** The status map has one key per active rule name, holding that rule's
      deep-dive verdict. */
  lemma StatusCoversActive(f: Frame)
    requires f.WellFormed() && f.Len() >= MaxRows
    ensures Status(f).Keys == set s | s in Active :: Name(s)
    ensures forall s: Strategy :: Name(s) in Status(f) && Status(f)[Name(s)] == Label(DeepDive(s, f).signal)
    ensures forall key | key in Status(f) :: exists s: Strategy :: key == Name(s)
  {
    forall s: Strategy
      ensures Name(s) in Status(f) && Status(f)[Name(s)] == Label(DeepDive(s, f).signal)
    {
      ActiveIsComplete(s, s);
      StatusOfValue(f, Active, s);
    }
  }
}
