/**
  The scan of one stock: which rules fire on its frame, in what order they
  are reported, how often the top rule's past signals won, how many shares a
  2%-risk budget buys, and the per-rule verdict map.
*/
module Scanner {
  import opened Series
  import opened Indicators
  import opened Text
  import opened Strategies

  // ---------------------------------------------------------------------------
  // Score order
  // ---------------------------------------------------------------------------

  /** `Above` is a strict total order on scores. */
  lemma AboveOrder()
    ensures forall a: Score :: !a.Above(a)
    ensures forall a: Score, b: Score :: a.Above(b) ==> !b.Above(a)
    ensures forall a: Score, b: Score, c: Score :: a.Above(b) && b.Above(c) ==> a.Above(c)
    ensures forall a: Score, b: Score :: a.Above(b) || b.Above(a) || a == b
  {
  }

  // ---------------------------------------------------------------------------
  // Matching and ranking
  // ---------------------------------------------------------------------------

  /** A rule that fired, with its score. */
  datatype Match = Match(strategy: Strategy, score: Score)

  /** One score per rule. */
  datatype Scoreboard = Scoreboard(sniper: Score, th: Score, turtle: Score, bnf: Score) {
    function Of(s: Strategy): Score {
      match s
      case HyperSniper => sniper
      case TH => th
      case Turtle => turtle
      case BNF => bnf
    }
  }

  /** Every rule's check score on the frame. */
  function Scores(f: Frame): (r: Scoreboard)
    requires f.WellFormed() && f.Len() >= MaxRows
    ensures forall s: Strategy :: r.Of(s) == Check(s, f)
  {
    Scoreboard(Check(HyperSniper, f), Check(TH, f), Check(Turtle, f), Check(BNF, f))
  }

  /** The rules in `ss`, in that order, whose score is above zero. */
  function Matches(scores: Scoreboard, ss: seq<Strategy>): (r: seq<Match>)
    ensures forall k | 0 <= k < |r| ::
      r[k].strategy in ss && r[k].score == scores.Of(r[k].strategy) && r[k].score.Positive()
    ensures forall s | s in ss && scores.Of(s).Positive() :: Match(s, scores.Of(s)) in r
  {
    if |ss| == 0 then []
    else
      var s := ss[|ss| - 1];
      var init := Matches(scores, ss[..|ss| - 1]);
      assert forall t | t in ss :: t in ss[..|ss| - 1] || t == s;
      if scores.Of(s).Positive() then init + [Match(s, scores.Of(s))] else init
  }

  /** Matching a list already in `Active` order keeps that order. */
  lemma {:induction false} MatchesInOrder(scores: Scoreboard, ss: seq<Strategy>)
    requires forall i, j | 0 <= i < j < |ss| :: Position(ss[i]) < Position(ss[j])
    ensures InActiveOrder(Matches(scores, ss))
  {
    if |ss| > 0 {
      var s := ss[|ss| - 1];
      var front := ss[..|ss| - 1];
      var init := Matches(scores, front);
      MatchesInOrder(scores, front);
      forall k | 0 <= k < |init|
        ensures Position(init[k].strategy) < Position(s)
      {
        var i :| 0 <= i < |front| && front[i] == init[k].strategy;
        assert ss[i] == front[i];
      }
    }
  }

  /** Rules listed in the order they appear in `Active`. */
  predicate InActiveOrder(ms: seq<Match>) {
    forall i, j | 0 <= i < j < |ms| :: Position(ms[i].strategy) < Position(ms[j].strategy)
  }

  /** Scores never increase along the list. */
  predicate Sorted(ms: seq<Match>) {
    forall i, j | 0 <= i < j < |ms| :: !ms[j].score.Above(ms[i].score)
  }

  /** Equal scores keep `Active` order. */
  predicate TiesInOrder(ms: seq<Match>) {
    forall i, j | 0 <= i < j < |ms| && ms[i].score == ms[j].score ::
      Position(ms[i].strategy) < Position(ms[j].strategy)
  }

  /** Inserts `m` after every element scoring at least as much. */
  function Insert(m: Match, s: seq<Match>): (r: seq<Match>)
    ensures multiset(r) == multiset(s) + multiset{m}
  {
    if |s| == 0 then [m]
    else if m.score.Above(s[0].score) then [m] + s
    else
      assert s == [s[0]] + s[1..];
      [s[0]] + Insert(m, s[1..])
  }

  /** `sort(key=score, reverse=True)`: a stable insertion sort. */
  function Rank(ms: seq<Match>): (r: seq<Match>)
    ensures multiset(r) == multiset(ms)
  {
    if |ms| == 0 then []
    else
      assert ms == ms[..|ms| - 1] + [ms[|ms| - 1]];
      Insert(ms[|ms| - 1], Rank(ms[..|ms| - 1]))
  }

  /** No element scores above `b`. */
  predicate AtMost(s: seq<Match>, b: Score) {
    forall k | 0 <= k < |s| :: !s[k].score.Above(b)
  }

  /** Every element tied with `x` comes from a later rule. */
  predicate TieAfter(x: Match, s: seq<Match>) {
    forall k | 0 <= k < |s| && s[k].score == x.score :: Position(x.strategy) < Position(s[k].strategy)
  }

  lemma {:induction false} InsertAtMost(m: Match, s: seq<Match>, b: Score)
    requires AtMost(s, b) && !m.score.Above(b)
    ensures AtMost(Insert(m, s), b)
  {
    if |s| > 0 && !m.score.Above(s[0].score) {
      InsertAtMost(m, s[1..], b);
    }
  }

  lemma {:induction false} InsertTieAfter(x: Match, m: Match, s: seq<Match>)
    requires TieAfter(x, s)
    requires m.score == x.score ==> Position(x.strategy) < Position(m.strategy)
    ensures TieAfter(x, Insert(m, s))
  {
    if |s| > 0 && !m.score.Above(s[0].score) {
      InsertTieAfter(x, m, s[1..]);
    }
  }

  /** Inserting into a sorted list keeps it sorted. */
  lemma {:induction false} InsertSorted(m: Match, s: seq<Match>)
    requires Sorted(s)
    ensures Sorted(Insert(m, s))
  {
    AboveOrder();
    if |s| == 0 {
    } else if m.score.Above(s[0].score) {
      assert AtMost(s, m.score);
    } else {
      assert AtMost(s[1..], s[0].score);
      InsertSorted(m, s[1..]);
      InsertAtMost(m, s[1..], s[0].score);
    }
  }

  /** Inserting a rule later than every listed one keeps ties in order. */
  lemma {:induction false} InsertStable(m: Match, s: seq<Match>)
    requires Sorted(s) && TiesInOrder(s)
    requires forall k | 0 <= k < |s| :: Position(s[k].strategy) < Position(m.strategy)
    ensures TiesInOrder(Insert(m, s))
  {
    AboveOrder();
    if |s| == 0 {
    } else if m.score.Above(s[0].score) {
      assert TieAfter(m, s);
    } else {
      assert TieAfter(s[0], s[1..]);
      InsertTieAfter(s[0], m, s[1..]);
      InsertStable(m, s[1..]);
    }
  }

  /** Ranking sorts by score, highest first, and keeps rules with equal scores
      in `Active` order. */
  lemma {:induction false} RankSortedStable(ms: seq<Match>)
    requires InActiveOrder(ms)
    ensures Sorted(Rank(ms)) && TiesInOrder(Rank(ms))
  {
    if |ms| > 0 {
      var init, m := ms[..|ms| - 1], ms[|ms| - 1];
      var r := Rank(init);
      RankSortedStable(init);
      forall k | 0 <= k < |r|
        ensures Position(r[k].strategy) < Position(m.strategy)
      {
        assert r[k] in multiset(init);
        var j :| 0 <= j < |init| && init[j] == r[k];
      }
      InsertSorted(m, r);
      InsertStable(m, r);
    }
  }

  // ---------------------------------------------------------------------------
  // Win rate
  // ---------------------------------------------------------------------------

  /** How many bars ahead a signal is judged. */
  const Horizon: nat := 5

  /** `np.where(cond[:k])`: the signal bars before `k`, ascending. */
  function Where(buy: seq<bool>, k: nat): (r: seq<nat>)
    requires k <= |buy|
    ensures forall j | 0 <= j < |r| :: r[j] < k
    ensures |r| <= k
  {
    if k == 0 then []
    else if buy[k - 1] then Where(buy, k - 1) + [k - 1]
    else Where(buy, k - 1)
  }

  /** `Where` lists exactly the signal bars before `k`, each once, ascending. */
  lemma {:induction false} WhereExact(buy: seq<bool>, k: nat)
    requires k <= |buy|
    ensures forall j | 0 <= j < |Where(buy, k)| :: buy[Where(buy, k)[j]]
    ensures forall i | 0 <= i < k :: buy[i] <==> i in Where(buy, k)
    ensures forall i, j | 0 <= i < j < |Where(buy, k)| :: Where(buy, k)[i] < Where(buy, k)[j]
  {
    if k > 0 {
      WhereExact(buy, k - 1);
    }
  }

  /** Signal bars whose close `Horizon` bars later is strictly higher. */
  function Wins(close: seq<real>, idx: seq<nat>): (w: nat)
    requires forall j | 0 <= j < |idx| :: idx[j] + Horizon < |close|
    ensures w <= |idx|
  {
    if |idx| == 0 then 0
    else
      var i := idx[|idx| - 1];
      Wins(close, idx[..|idx| - 1]) + (if close[i + Horizon] > close[i] then 1 else 0)
  }

  datatype WinRate = WinRate(wins: nat, total: nat)

  /** The bars that can be judged: all but the last `Horizon`. */
  function Judged(n: nat): nat {
    if n >= Horizon then n - Horizon else 0
  }

  /** `calc_win_rate` as counts. */
  function WinRateOf(close: seq<real>, buy: seq<bool>): (w: WinRate)
    requires |close| == |buy|
    ensures w.wins <= w.total <= Judged(|buy|)
  {
    var idx := Where(buy, Judged(|buy|));
    WinRate(Wins(close, idx), |idx|)
  }

  /** Where(buy, i + 1) extends Where(buy, i) by `i` exactly when bar `i`
      signals, and the win count grows with it. */
  lemma WhereStep(close: seq<real>, buy: seq<bool>, i: nat)
    requires |close| == |buy| && i + Horizon < |buy|
    ensures Where(buy, i + 1) == Where(buy, i) + (if buy[i] then [i] else [])
    ensures Wins(close, Where(buy, i + 1))
      == Wins(close, Where(buy, i)) + (if buy[i] && close[i + Horizon] > close[i] then 1 else 0)
  {
    var prev := Where(buy, i);
    if buy[i] {
      var idx := prev + [i];
      assert Where(buy, i + 1) == idx;
      assert idx[..|idx| - 1] == prev && idx[|idx| - 1] == i;
      assert Wins(close, idx) == Wins(close, prev) + (if close[i + Horizon] > close[i] then 1 else 0);
    } else {
      assert Where(buy, i + 1) == prev;
    }
  }

  /** The same counts in one pass over the bars. */
  method CountWins(close: seq<real>, buy: seq<bool>) returns (wins: nat, total: nat)
    requires |close| == |buy|
    ensures WinRate(wins, total) == WinRateOf(close, buy)
    ensures wins <= total
  {
    var k := Judged(|buy|);
    wins, total := 0, 0;
    var i := 0;
    while i < k
      invariant 0 <= i <= k
      invariant total == |Where(buy, i)|
      invariant wins == Wins(close, Where(buy, i))
    {
      WhereStep(close, buy, i);
      if buy[i] {
        if close[i + Horizon] > close[i] {
          wins := wins + 1;
        }
        total := total + 1;
      }
      i := i + 1;
    }
  }

  /** Rounding `n / d` to the nearest whole number, ties to even, is within
      half of `d` of it. */
  lemma RoundingError(n: nat, d: nat, q: nat, rem: nat, up: bool)
    requires 0 < d && n == q * d + rem && rem < d
    requires up ==> 2 * rem >= d
    requires !up ==> 2 * rem <= d
    ensures var p := if up then q + 1 else q;
      2 * (p * d - n) <= d && 2 * (n - p * d) <= d
  {
    assert (q + 1) * d == q * d + d;
  }

  /** `:.0f` of `wins/total*100`, computed exactly: the nearest whole
      percent, ties to even. */
  function RoundPercent(wins: nat, total: nat): nat
    requires 0 < total
  {
    var n := 100 * wins;
    var q := n / total;
    var rem := n % total;
    if 2 * rem > total || (2 * rem == total && q % 2 == 1) then q + 1 else q
  }

  /** The rounded percentage is within half a percent of the exact one. */
  lemma RoundPercentNearest(wins: nat, total: nat)
    requires 0 < total
    ensures var p := RoundPercent(wins, total);
      2 * (p * total - 100 * wins) <= total && 2 * (100 * wins - p * total) <= total
  {
    var n := 100 * wins;
    var q, rem := n / total, n % total;
    var up := 2 * rem > total || (2 * rem == total && q % 2 == 1);
    assert RoundPercent(wins, total) == if up then q + 1 else q;
    RoundingError(n, total, q, rem, up);
  }

  /** For a part of the whole, the rounded percentage is at most 100. */
  lemma RoundPercentAtMost100(wins: nat, total: nat)
    requires 0 < total && wins <= total
    ensures RoundPercent(wins, total) <= 100
  {
    var n := 100 * wins;
    var q, rem := n / total, n % total;
    QuotientAtMost(wins, total, q, rem);
  }

  /** A share of at most the whole is at most 100 percent. */
  lemma QuotientAtMost(wins: nat, total: nat, q: nat, rem: nat)
    requires 0 < total && wins <= total && 100 * wins == q * total + rem && rem < total
    ensures q <= 100 && (q == 100 ==> rem == 0)
  {
  }

  /** `"{pct}% ({wins}/{total})"`, or `"0% (0/0)"` with no judged signal. */
  function WinRateText(w: WinRate): string
    requires w.wins <= w.total
  {
    if w.total == 0 then "0% (0/0)"
    else Decimal(RoundPercent(w.wins, w.total)) + "% (" + Decimal(w.wins) + "/" + Decimal(w.total) + ")"
  }

  // ---------------------------------------------------------------------------
  // One stock
  // ---------------------------------------------------------------------------

  /** The reported result: the firing rules best first, their names joined by
      " > ", the top rule's past win rate, and the last close. */
  datatype Finding = Finding(
    ranked: seq<Match>, display: string, top: Strategy, pastWinRate: string, price: real)

  function Names(ms: seq<Match>): (r: seq<string>)
    ensures |r| == |ms| && forall k | 0 <= k < |ms| :: r[k] == Name(ms[k].strategy)
  {
    seq(|ms|, k requires 0 <= k < |ms| => Name(ms[k].strategy))
  }

  /** The firing rules, best first. */
  function Ranked(f: Frame): seq<Match>
    requires f.WellFormed() && f.Len() >= MaxRows
  {
    Rank(Matches(Scores(f), Active))
  }

  /** `analyze_single_stock` on a loaded frame. */
  function Analyze(f: Frame): (r: Option<Finding>)
    requires f.WellFormed() && f.Len() >= MaxRows
    ensures r.None? <==> |Ranked(f)| == 0
    ensures r.Some? ==> r.value.ranked == Ranked(f) && r.value.top == Ranked(f)[0].strategy
    ensures r.Some? ==> r.value.display == Join(Names(Ranked(f)), " > ")
    ensures r.Some? ==> r.value.price == f.close[f.Len() - 1]
    ensures r.Some? ==>
      r.value.pastWinRate == Name(r.value.top) + ": " + WinRateText(WinRateOf(f.close, Backtest(r.value.top, f)))
  {
    var ranked := Ranked(f);
    if |ranked| == 0 then None
    else Some(FindingOf(ranked, WinRateOf(f.close, Backtest(ranked[0].strategy, f)), f.close[f.Len() - 1]))
  }

  /** The result for a non-empty ranking, the top rule's win rate and the
      last close. */
  function FindingOf(ranked: seq<Match>, rate: WinRate, price: real): (r: Finding)
    requires |ranked| > 0 && rate.wins <= rate.total
    ensures r.ranked == ranked && r.top == ranked[0].strategy && r.price == price
    ensures r.display == Join(Names(ranked), " > ")
  {
    var top := ranked[0].strategy;
    Finding(ranked, Join(Names(ranked), " > "), top, Name(top) + ": " + WinRateText(rate), price)
  }

  /** `analyze_single_stock`: load the bars, then analyze. */
  function AnalyzeStock(bars: seq<Bar>, sd: seq<real> -> real): (r: Option<Finding>)
  {
    match Load(bars, sd)
    case None => None
    case Some(f) => Analyze(f)
  }

  // ---------------------------------------------------------------------------
  // Position sizing
  // ---------------------------------------------------------------------------

  /** Python's `int()` on a float: truncation toward zero. */
  function Trunc(x: real): (r: int)
    ensures 0.0 <= x ==> 0 <= r && r as real <= x < r as real + 1.0
    ensures x < 0.0 ==> r <= 0 && r as real - 1.0 < x <= r as real
  {
    if x >= 0.0 then x.Floor else -((-x).Floor)
  }

  /** The fraction of capital put at risk on one trade. */
  const RiskFraction: real := 0.02

  datatype Sizing = Sizing(
    isUs: bool, applied: real, allowable: real, shares: int, totalLoss: Option<real>)

  /** Shares whose stop-loss fits the budget; none without a positive risk. */
  function RiskShares(allowable: real, risk: Option<real>): int {
    if Gt(risk, Some(0.0)) then Trunc(allowable / risk.value) else 0
  }

  /** Caps a share count at what the capital buys at `entry`; a zero price
      that would need dividing by is an error. */
  function Capped(shares: int, applied: real, entry: Option<real>): Option<int> {
    if entry.Some? && shares as real * entry.value > applied then
      if entry.value == 0.0 then None else Some(Trunc(applied / entry.value))
    else Some(shares)
  }

  /**
    The sizing part of `analyze_strategy_deep_dive`: a letters-only ticker is a
    US stock whose capital is converted at `usdRate`; the share count is the
    whole number of shares whose stop-loss fits 2% of that capital, capped by
    what the capital can buy. A zero divisor is an error (no result).
  */
  function Size(ticker: string, capital: real, usdRate: real, entry: Option<real>, stop: Option<real>)
    : (r: Option<Sizing>)
  {
    var isUs := AllLetters(ticker);
    if isUs && usdRate == 0.0 then None
    else
      var applied := if isUs then capital / usdRate else capital;
      var allowable := applied * RiskFraction;
      var risk := Sub(entry, stop);
      match Capped(RiskShares(allowable, risk), applied, entry)
      case None => None
      case Some(shares) => Some(Sizing(isUs, applied, allowable, shares, Scale(shares as real, risk)))
  }

  /** A deep dive together with its sizing. */
  datatype Plan = Plan(report: Report, sizing: Sizing)

  function PlanTrade(f: Frame, s: Strategy, capital: real, usdRate: real, ticker: string): (r: Option<Plan>)
    requires f.WellFormed() && f.Len() >= DiveRows(s)
  {
    var rep := DeepDive(s, f);
    match Size(ticker, capital, usdRate, rep.entry, rep.stop)
    case None => None
    case Some(z) => Some(Plan(rep, z))
  }

  // ---------------------------------------------------------------------------
  // Status of every rule
  // ---------------------------------------------------------------------------

  /** `get_all_strategies_status` over the rules in `ss`. */
  function StatusOf(f: Frame, ss: seq<Strategy>): (m: map<string, string>)
    requires f.WellFormed() && f.Len() >= MaxRows
    ensures m.Keys == set s | s in ss :: Name(s)
  {
    if |ss| == 0 then map[]
    else
      var s := ss[|ss| - 1];
      assert forall t | t in ss :: t in ss[..|ss| - 1] || t == s;
      StatusOf(f, ss[..|ss| - 1])[Name(s) := Label(DeepDive(s, f).signal)]
  }

  function Status(f: Frame): (m: map<string, string>)
    requires f.WellFormed() && f.Len() >= MaxRows
  {
    StatusOf(f, Active)
  }
}
