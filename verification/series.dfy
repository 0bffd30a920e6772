/**
  Column algebra for price series.

  A pandas column of floats is modelled as a sequence of optional exact reals:
  `None` stands for NaN (a missing value).  Arithmetic with a missing operand is
  missing, and every comparison with a missing operand is false, which is how
  pandas treats NaN in `>`, `<`, `>=` and `<=`.  Rolling windows follow pandas'
  default `min_periods == window`: a window statistic is missing unless the full
  window exists and holds no missing value.
*/
module Series {

  /** `None` is a missing value (NaN in the source). */
  datatype Option<+T> = None | Some(value: T) {
    function GetOr(default: T): T {
      match this
      case Some(v) => v
      case None => default
    }
  }

  type Column = seq<Option<real>>

  // ---------------------------------------------------------------------------
  // Scalars with missing values
  // ---------------------------------------------------------------------------

  predicate Gt(a: Option<real>, b: Option<real>) { a.Some? && b.Some? && a.value > b.value }
  predicate Lt(a: Option<real>, b: Option<real>) { a.Some? && b.Some? && a.value < b.value }
  predicate Ge(a: Option<real>, b: Option<real>) { a.Some? && b.Some? && a.value >= b.value }
  predicate Le(a: Option<real>, b: Option<real>) { a.Some? && b.Some? && a.value <= b.value }

  function Add(a: Option<real>, b: Option<real>): Option<real> {
    if a.Some? && b.Some? then Some(a.value + b.value) else None
  }

  function Sub(a: Option<real>, b: Option<real>): Option<real> {
    if a.Some? && b.Some? then Some(a.value - b.value) else None
  }

  function Mul(a: Option<real>, b: Option<real>): Option<real> {
    if a.Some? && b.Some? then Some(a.value * b.value) else None
  }

  function Scale(k: real, a: Option<real>): Option<real> {
    if a.Some? then Some(k * a.value) else None
  }

  /** Division; a zero divisor gives a missing value instead of an infinity. */
  function Div(a: Option<real>, b: Option<real>): (r: Option<real>)
    ensures r.Some? <==> a.Some? && b.Some? && b.value != 0.0
  {
    if a.Some? && b.Some? && b.value != 0.0 then Some(a.value / b.value) else None
  }

  function Max(a: real, b: real): real { if a >= b then a else b }
  function Min(a: real, b: real): real { if a <= b then a else b }
  function Abs(a: real): real { if a >= 0.0 then a else -a }

  // ---------------------------------------------------------------------------
  // Aggregates over plain sequences of reals
  // ---------------------------------------------------------------------------

  /** Sum of the elements, added from the front. */
  function Total(xs: seq<real>): real {
    if |xs| == 0 then 0.0 else Total(xs[..|xs| - 1]) + xs[|xs| - 1]
  }

  /** Sum of the elements.  A non-recursive name for `Total`, so that every
      occurrence of a given sum in a proof is one and the same term. */
  function Sum(xs: seq<real>): real {
    Total(xs)
  }

  /** Peeling off the last element of a non-empty sum. */
  lemma SumLast(xs: seq<real>)
    requires |xs| > 0
    ensures Sum(xs) == Sum(xs[..|xs| - 1]) + xs[|xs| - 1]
  {
  }

  /** Arithmetic mean; the empty sequence (never used as a window) has mean 0. */
  function Mean(xs: seq<real>): real {
    if |xs| == 0 then 0.0 else Sum(xs) / (|xs| as real)
  }

  /** Largest element (0 for the empty sequence). */
  function MaxOf(xs: seq<real>): (r: real)
    ensures |xs| > 0 ==> (forall k | 0 <= k < |xs| :: xs[k] <= r) && (exists k | 0 <= k < |xs| :: xs[k] == r)
  {
    if |xs| == 0 then 0.0
    else if |xs| == 1 then xs[0]
    else
      var m := MaxOf(xs[..|xs| - 1]);
      assert forall k | 0 <= k < |xs| - 1 :: xs[k] == xs[..|xs| - 1][k];
      Max(m, xs[|xs| - 1])
  }

  /** Smallest element (0 for the empty sequence). */
  function MinOf(xs: seq<real>): (r: real)
    ensures |xs| > 0 ==> (forall k | 0 <= k < |xs| :: r <= xs[k]) && (exists k | 0 <= k < |xs| :: xs[k] == r)
  {
    if |xs| == 0 then 0.0
    else if |xs| == 1 then xs[0]
    else
      var m := MinOf(xs[..|xs| - 1]);
      assert forall k | 0 <= k < |xs| - 1 :: xs[k] == xs[..|xs| - 1][k];
      Min(m, xs[|xs| - 1])
  }

  /** `c * (m + 1) == c * m + c`, stated once for the inductive steps below. */
  lemma Distrib(c: real, m: nat)
    ensures c * ((m + 1) as real) == c * (m as real) + c
  {
  }

  /** Multiplying by a positive factor preserves strict order. */
  lemma MulMono(a: real, b: real, n: real)
    requires n > 0.0
    ensures a < b ==> a * n < b * n
  {
  }

  /** A sum is bounded by its length times any lower or upper bound of its terms. */
  lemma {:induction false} SumBounds(xs: seq<real>, lo: real, hi: real)
    requires forall k | 0 <= k < |xs| :: lo <= xs[k] <= hi
    ensures lo * (|xs| as real) <= Sum(xs) <= hi * (|xs| as real)
  {
    if |xs| > 0 {
      var init := xs[..|xs| - 1];
      assert forall k | 0 <= k < |init| :: init[k] == xs[k];
      SumBounds(init, lo, hi);
      Distrib(lo, |init|);
      Distrib(hi, |init|);
    }
  }

  /** A sum of constant terms is the constant times the length. */
  lemma {:induction false} SumConstant(xs: seq<real>, c: real)
    requires forall k | 0 <= k < |xs| :: xs[k] == c
    ensures Sum(xs) == c * (|xs| as real)
  {
    if |xs| > 0 {
      var init := xs[..|xs| - 1];
      assert forall k | 0 <= k < |init| :: init[k] == xs[k];
      SumConstant(init, c);
      Distrib(c, |init|);
    }
  }

  lemma DivBetween(s: real, n: real, lo: real, hi: real)
    requires n > 0.0 && lo * n <= s <= hi * n
    ensures lo <= s / n <= hi
  {
    var q := s / n;
    assert q * n == s;
    MulMono(q, lo, n);
    MulMono(hi, q, n);
  }

  /** Bounds on every term bound the mean. */
  lemma MeanBounds(xs: seq<real>, lo: real, hi: real)
    requires |xs| > 0
    requires forall k | 0 <= k < |xs| :: lo <= xs[k] <= hi
    ensures lo <= Mean(xs) <= hi
  {
    SumBounds(xs, lo, hi);
    DivBetween(Sum(xs), |xs| as real, lo, hi);
  }

  /** The mean of a non-empty sequence lies between its minimum and its maximum. */
  lemma MeanWithin(xs: seq<real>)
    requires |xs| > 0
    ensures MinOf(xs) <= Mean(xs) <= MaxOf(xs)
  {
    MeanBounds(xs, MinOf(xs), MaxOf(xs));
  }

  /** The mean of a constant non-empty sequence is that constant. */
  lemma MeanConstant(xs: seq<real>, c: real)
    requires |xs| > 0
    requires forall k | 0 <= k < |xs| :: xs[k] == c
    ensures Mean(xs) == c
  {
    SumConstant(xs, c);
    var n := |xs| as real;
    assert (c * n) / n == c;
  }

  /** Every term multiplied by `c`. */
  function Scaled(c: real, ws: seq<real>): (r: seq<real>)
    ensures |r| == |ws|
  {
    seq(|ws|, k requires 0 <= k < |ws| => c * ws[k])
  }

  /** Scaling commutes with summation. */
  lemma {:induction false} SumScaled(c: real, ws: seq<real>)
    ensures Sum(Scaled(c, ws)) == c * Sum(ws)
  {
    if |ws| > 0 {
      var n := |ws| - 1;
      assert forall k | 0 <= k < n :: Scaled(c, ws)[..n][k] == Scaled(c, ws[..n])[k];
      assert Scaled(c, ws)[..n] == Scaled(c, ws[..n]);
      SumScaled(c, ws[..n]);
      Distrib2(c, Sum(ws[..n]), ws[n]);
    }
  }

  lemma Distrib2(c: real, a: real, b: real)
    ensures c * (a + b) == c * a + c * b
  {
  }

  /** Summation is monotone in every term. */
  lemma {:induction false} SumLe(a: seq<real>, b: seq<real>)
    requires |a| == |b|
    requires forall k | 0 <= k < |a| :: a[k] <= b[k]
    ensures Sum(a) <= Sum(b)
  {
    if |a| > 0 {
      var n := |a| - 1;
      assert forall k | 0 <= k < n :: a[..n][k] == a[k] && b[..n][k] == b[k];
      SumLe(a[..n], b[..n]);
    }
  }

  /** Sum of a window grows by its new last element. */
  lemma SumSnoc(xs: seq<real>, a: nat, b: nat)
    requires a <= b < |xs|
    ensures Sum(xs[a..b + 1]) == Sum(xs[a..b]) + xs[b]
  {
    assert xs[a..b + 1][..b - a] == xs[a..b];
  }

  // ---------------------------------------------------------------------------
  // Columns
  // ---------------------------------------------------------------------------

  /** Every entry is present. */
  predicate Defined(xs: Column) {
    forall k | 0 <= k < |xs| :: xs[k].Some?
  }

  /** The values of a column, with missing entries read as 0. */
  function Values(xs: Column): (r: seq<real>)
    ensures |r| == |xs|
    ensures forall k | 0 <= k < |xs| && xs[k].Some? :: r[k] == xs[k].value
  {
    seq(|xs|, k requires 0 <= k < |xs| => xs[k].GetOr(0.0))
  }

  /** A column with every entry present. */
  function Lift(xs: seq<real>): (r: Column)
    ensures |r| == |xs| && Defined(r)
    ensures forall k | 0 <= k < |xs| :: r[k] == Some(xs[k])
  {
    seq(|xs|, k requires 0 <= k < |xs| => Some(xs[k]))
  }

  lemma ValuesLift(xs: seq<real>)
    ensures Values(Lift(xs)) == xs
  {
  }

  /** The window of `w` values ending at row `i`, when it exists and has no missing value. */
  function Window(xs: Column, w: nat, i: nat): Option<seq<real>>
    requires i < |xs|
  {
    if w == 0 || i + 1 < w then None
    else
      var slice := xs[i + 1 - w..i + 1];
      if Defined(slice) then Some(Values(slice)) else None
  }

  /** The window statistics the indicators use. */
  datatype Stat = MeanStat | SumStat | MaxStat | MinStat

  function Apply(stat: Stat, xs: seq<real>): real {
    match stat
    case MeanStat => Mean(xs)
    case SumStat => Sum(xs)
    case MaxStat => MaxOf(xs)
    case MinStat => MinOf(xs)
  }

  /** pandas `rolling(window=w).<stat>()`. */
  function Rolling(xs: Column, w: nat, stat: Stat): (r: Column)
    ensures |r| == |xs|
  {
    seq(|xs|, i requires 0 <= i < |xs| =>
      var win := Window(xs, w, i);
      if win.Some? then Some(Apply(stat, win.value)) else None)
  }

  function RollingMean(xs: Column, w: nat): (r: Column)
    ensures |r| == |xs|
  {
    Rolling(xs, w, MeanStat)
  }

  function RollingSum(xs: Column, w: nat): (r: Column)
    ensures |r| == |xs|
  {
    Rolling(xs, w, SumStat)
  }

  function RollingMax(xs: Column, w: nat): (r: Column)
    ensures |r| == |xs|
  {
    Rolling(xs, w, MaxStat)
  }

  function RollingMin(xs: Column, w: nat): (r: Column)
    ensures |r| == |xs|
  {
    Rolling(xs, w, MinStat)
  }

  /** Row `i` of a rolling statistic: missing unless its window exists and is
      fully present. */
  lemma RollingAt(xs: Column, w: nat, stat: Stat, i: nat)
    requires i < |xs|
    ensures w == 0 || i + 1 < w ==> Rolling(xs, w, stat)[i] == None
    ensures w > 0 && i + 1 >= w && !Defined(xs[i + 1 - w..i + 1]) ==> Rolling(xs, w, stat)[i] == None
    ensures w > 0 && i + 1 >= w && Defined(xs[i + 1 - w..i + 1]) ==>
      Rolling(xs, w, stat)[i] == Some(Apply(stat, Values(xs[i + 1 - w..i + 1])))
  {
  }

  /** On a fully present column, a rolling statistic at row `i` is missing exactly
      while fewer than `w` rows exist, and otherwise is the statistic of the
      window `xs[i-w+1..i]`. */
  lemma RollingOnLifted(xs: seq<real>, w: nat, stat: Stat, i: nat)
    requires w > 0 && i < |xs|
    ensures i + 1 < w ==> Rolling(Lift(xs), w, stat)[i] == None
    ensures i + 1 >= w ==> Rolling(Lift(xs), w, stat)[i] == Some(Apply(stat, xs[i + 1 - w..i + 1]))
  {
    var r := Rolling(Lift(xs), w, stat);
    if i + 1 >= w {
      var slice := Lift(xs)[i + 1 - w..i + 1];
      assert Defined(slice);
      assert Values(slice) == xs[i + 1 - w..i + 1];
      assert Window(Lift(xs), w, i) == Some(xs[i + 1 - w..i + 1]);
    } else {
      assert Window(Lift(xs), w, i) == None;
    }
    assert r[i] == (var win := Window(Lift(xs), w, i); if win.Some? then Some(Apply(stat, win.value)) else None);
  }

  /** pandas `shift(1)`: row `i` sees row `i - 1`; row 0 is missing. */
  function Shift(xs: Column): (r: Column)
    ensures |r| == |xs|
    ensures |xs| > 0 ==> r[0] == None
    ensures forall i | 1 <= i < |xs| :: r[i] == xs[i - 1]
  {
    if |xs| == 0 then [] else [None] + xs[..|xs| - 1]
  }

  function ColAdd(a: Column, b: Column): (r: Column)
    requires |a| == |b|
    ensures |r| == |a| && forall i | 0 <= i < |a| :: r[i] == Add(a[i], b[i])
  {
    seq(|a|, i requires 0 <= i < |a| => Add(a[i], b[i]))
  }

  function ColSub(a: Column, b: Column): (r: Column)
    requires |a| == |b|
    ensures |r| == |a| && forall i | 0 <= i < |a| :: r[i] == Sub(a[i], b[i])
  {
    seq(|a|, i requires 0 <= i < |a| => Sub(a[i], b[i]))
  }

  function ColScale(k: real, a: Column): (r: Column)
    ensures |r| == |a| && forall i | 0 <= i < |a| :: r[i] == Scale(k, a[i])
  {
    seq(|a|, i requires 0 <= i < |a| => Scale(k, a[i]))
  }

  function ColDiv(a: Column, b: Column): (r: Column)
    requires |a| == |b|
    ensures |r| == |a| && forall i | 0 <= i < |a| :: r[i] == Div(a[i], b[i])
  {
    seq(|a|, i requires 0 <= i < |a| => Div(a[i], b[i]))
  }

  /** Causality of rolling statistics: truncating the column after row `k`
      does not change any row before `k`. */
  lemma RollingCausal(xs: Column, w: nat, stat: Stat, k: nat, i: nat)
    requires i < k <= |xs|
    ensures Rolling(xs[..k], w, stat)[i] == Rolling(xs, w, stat)[i]
  {
    if w > 0 && i + 1 >= w {
      assert xs[..k][i + 1 - w..i + 1] == xs[i + 1 - w..i + 1];
    }
    assert Window(xs[..k], w, i) == Window(xs, w, i);
  }
}
