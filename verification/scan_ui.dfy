/**
  The pure rules inside the scan screen: how a listed code is normalised
  before analysis, which analysed stocks the strategy filter keeps, the
  progress fraction shown while scanning, and which history rows a finished
  scan records.
*/
module ScanRules {
  import opened Series
  import opened Text
  import opened Strategies
  import opened Scanner
  import opened Store

  // ---------------------------------------------------------------------------
  // Code normalisation
  // ---------------------------------------------------------------------------

  /** The characters `str.isspace` accepts, so the ones `str.strip()` removes:
      tab through carriage return, the four separators U+001C..U+001F, space,
      next-line, no-break space, and the Unicode space separators. */
  predicate IsSpace(c: char) {
    || '\t' <= c <= '\r' || '\U{1C}' <= c <= '\U{1F}' || c == ' '
    || c == '\U{85}' || c == '\U{A0}' || c == '\U{1680}'
    || '\U{2000}' <= c <= '\U{200A}' || c == '\U{2028}' || c == '\U{2029}'
    || c == '\U{202F}' || c == '\U{205F}' || c == '\U{3000}'
  }

  /** How many whitespace characters lead `s`. */
  function LeadingSpaces(s: string): (n: nat)
    ensures n <= |s| && forall k | 0 <= k < n :: IsSpace(s[k])
    ensures n < |s| ==> !IsSpace(s[n])
  {
    if |s| > 0 && IsSpace(s[0]) then 1 + LeadingSpaces(s[1..]) else 0
  }

  /** Where the trailing whitespace of `s` begins. */
  function TrailingStart(s: string): (j: nat)
    ensures j <= |s| && forall k | j <= k < |s| :: IsSpace(s[k])
    ensures j > 0 ==> !IsSpace(s[j - 1])
  {
    if |s| > 0 && IsSpace(s[|s| - 1]) then TrailingStart(s[..|s| - 1]) else |s|
  }

  /** `str.strip()`: drop the leading and trailing whitespace. */
  function Strip(s: string): string {
    var l := s[LeadingSpaces(s)..];
    l[..TrailingStart(l)]
  }

  /** Stripping removes only surrounding whitespace and leaves none at either end. */
  lemma StripShape(s: string)
    ensures exists i, j | 0 <= i <= j <= |s| ::
      (&& Strip(s) == s[i..j]
       && (forall k | 0 <= k < i :: IsSpace(s[k]))
       && (forall k | j <= k < |s| :: IsSpace(s[k])))
    ensures |Strip(s)| > 0 ==> !IsSpace(Strip(s)[0]) && !IsSpace(Strip(s)[|Strip(s)| - 1])
  {
    var i := LeadingSpaces(s);
    var l := s[i..];
    var j := TrailingStart(l);
    assert Strip(s) == s[i..i + j];
    forall k | i + j <= k < |s|
      ensures IsSpace(s[k])
    {
      assert s[k] == l[k - i];
    }
    if |Strip(s)| > 0 {
      assert Strip(s)[0] == l[0];
      assert j > 0;
    }
  }

  /** A string with no space at either end is its own strip. */
  lemma StripFixed(s: string)
    requires |s| > 0 ==> !IsSpace(s[0]) && !IsSpace(s[|s| - 1])
    ensures Strip(s) == s
  {
  }

  /** Stripping twice is stripping once. */
  lemma StripIdempotent(s: string)
    ensures Strip(Strip(s)) == Strip(s)
  {
    StripShape(s);
    StripFixed(Strip(s));
  }

  /** The width of a Korean listing code. */
  const CodeWidth: nat := 6

  /** `n` copies of '0'. */
  function Zeros(n: nat): (r: string)
    ensures |r| == n && forall k | 0 <= k < n :: r[k] == '0'
  {
    seq(n, k => '0')
  }

  /** `zfill(6)` for a digits-only code shorter than six; other codes stay. */
  function PadCode(c: string): (r: string)
    ensures !(AllDigits(c) && |c| < CodeWidth) ==> r == c
    ensures AllDigits(c) && |c| < CodeWidth ==>
      |r| == CodeWidth && r[CodeWidth - |c|..] == c && forall k | 0 <= k < CodeWidth - |c| :: r[k] == '0'
  {
    if AllDigits(c) && |c| < CodeWidth then Zeros(CodeWidth - |c|) + c else c
  }

  /** The code `scan_worker` analyses for a listed code. */
  function NormalizeCode(raw: string): string {
    PadCode(Strip(raw))
  }

  /** Leading zeros do not change the value of a numeral. */
  lemma {:induction false} ZerosValue(n: nat, s: string)
    requires AllDigits(s) || |s| == 0
    ensures forall k | 0 <= k < |Zeros(n) + s| :: IsDigit((Zeros(n) + s)[k])
    ensures ParseDecimal(Zeros(n) + s) == ParseDecimal(s)
    decreases |s|, n
  {
    var z := Zeros(n) + s;
    if |s| == 0 {
      assert z == Zeros(n);
      if n > 0 {
        assert z[..|z| - 1] == Zeros(n - 1) + s;
        ZerosValue(n - 1, s);
      }
    } else {
      var init := s[..|s| - 1];
      assert z[..|z| - 1] == Zeros(n) + init;
      assert AllDigits(init) || |init| == 0;
      ZerosValue(n, init);
    }
  }

  /** Padding keeps a digits-only code's value and stays digits-only. */
  lemma PadCodeValue(c: string)
    requires AllDigits(c)
    ensures AllDigits(PadCode(c))
    ensures ParseDecimal(PadCode(c)) == ParseDecimal(c)
  {
    if |c| < CodeWidth {
      ZerosValue(CodeWidth - |c|, c);
    }
  }

  /** Padding a padded code changes nothing. */
  lemma PadCodeIdempotent(c: string)
    ensures PadCode(PadCode(c)) == PadCode(c)
  {
  }

  /** Normalising a normalised code changes nothing. */
  lemma NormalizeIdempotent(raw: string)
    ensures NormalizeCode(NormalizeCode(raw)) == NormalizeCode(raw)
  {
    var s := Strip(raw);
    StripShape(raw);
    if AllDigits(s) && |s| < CodeWidth {
      assert !IsSpace(PadCode(s)[0]) && !IsSpace(PadCode(s)[CodeWidth - 1]);
      StripFixed(PadCode(s));
    } else {
      StripIdempotent(raw);
    }
  }

  function Pow10(k: nat): nat {
    if k == 0 then 1 else 10 * Pow10(k - 1)
  }

  /** A number below 10^k has at most k digits. */
  lemma {:induction false} DecimalWidth(n: nat, k: nat)
    requires k > 0 && n < Pow10(k)
    ensures |Decimal(n)| <= k
    decreases k
  {
    if n >= 10 {
      DecimalWidth(n / 10, k - 1);
    }
  }

  /** A listing number below a million, read as text, becomes a six-digit
      code of the same value. */
  lemma ListedNumberCode(n: nat)
    requires n < 1000000
    ensures |NormalizeCode(Decimal(n))| == CodeWidth
    ensures AllDigits(NormalizeCode(Decimal(n)))
    ensures ParseDecimal(NormalizeCode(Decimal(n))) == n
  {
    var d := Decimal(n);
    assert Pow10(6) == 1000000;
    DecimalWidth(n, 6);
    StripFixed(d);
    PadCodeValue(d);
    DecimalRoundTrip(n);
  }

  /** A code behind an ASCII file separator (U+001C, whitespace to `str.strip`)
      is stripped and zero-filled like a bare code. */
  lemma SeparatorStripped()
    ensures NormalizeCode("\U{1C}5930") == "005930"
  {
    StripSeparator();
    PadFourDigits();
  }

  /** The separator is whitespace, the digits are not. */
  lemma StripSeparator()
    ensures Strip("\U{1C}5930") == "5930"
  {
    var raw := "\U{1C}5930";
    assert LeadingSpaces(raw) == 1 by {
      assert raw[1..] == "5930";
      assert !IsSpace(raw[1]);
    }
    assert raw[1..] == "5930";
    assert TrailingStart("5930") == 4;
  }

  /** Four digits get two zeros in front. */
  lemma PadFourDigits()
    ensures PadCode("5930") == "005930"
  {
    assert AllDigits("5930");
    assert Zeros(2) == "00";
  }

  // ---------------------------------------------------------------------------
  // Strategy filter
  // ---------------------------------------------------------------------------

  /** The four strategy boxes of the scan form. */
  datatype Ticks = Ticks(hyper: bool, th: bool, turtle: bool, bnf: bool)

  function Ticked(t: Ticks, s: Strategy): bool {
    match s
    case HyperSniper => t.hyper
    case TH => t.th
    case Turtle => t.turtle
    case BNF => t.bnf
  }

  /** The text the filter looks for in a result's strategy names. */
  function FilterLabel(s: Strategy): string {
    match s
    case HyperSniper => "하이퍼스나이퍼"
    case TH => "TH알고리즘"
    case Turtle => "터틀"
    case BNF => "BNF"
  }

  /** Some name of the list contains `tag`. */
  predicate Mentions(names: seq<string>, tag: string) {
    exists k | 0 <= k < |names| :: Contains(names[k], tag)
  }

  predicate AnyTicked(t: Ticks) {
    t.hyper || t.th || t.turtle || t.bnf
  }

  /** The filter of `scan_worker`: with no box ticked every result stays;
      otherwise a result stays when a ticked box's label occurs in one of
      its strategy names. */
  predicate Keep(t: Ticks, names: seq<string>) {
    var matched :=
      || (t.hyper && Mentions(names, FilterLabel(HyperSniper)))
      || (t.th && Mentions(names, FilterLabel(TH)))
      || (t.turtle && Mentions(names, FilterLabel(Turtle)))
      || (t.bnf && Mentions(names, FilterLabel(BNF)));
    !AnyTicked(t) || matched
  }

  /** A string without the first character of `sub` does not contain `sub`. */
  lemma MissingFirstChar(s: string, sub: string)
    requires |sub| > 0
    requires forall k | 0 <= k < |s| :: s[k] != sub[0]
    ensures !Contains(s, sub)
  {
    if Contains(s, sub) {
      var k :| 0 <= k <= |s| && OccursAt(s, sub, k);
      OccursFirst(s, sub, k);
      assert false;
    }
  }

  /** Where `sub` occurs, its first character is. */
  lemma OccursFirst(s: string, sub: string, k: int)
    requires |sub| > 0 && OccursAt(s, sub, k)
    ensures k < |s| && s[k] == sub[0]
  {
    assert s[k..k + |sub|][0] == s[k];
  }

  /** A filter label occurs in exactly its own strategy's name. */
  lemma LabelInName(s: Strategy, other: Strategy)
    ensures Contains(Name(other), FilterLabel(s)) <==> s == other
  {
    if s == other {
      assert Name(s) == Name(s)[..1] + FilterLabel(s) + "";
      ContainsPart(Name(s)[..1], FilterLabel(s), "");
    } else {
      MissingFirstChar(Name(other), FilterLabel(s));
    }
  }

  /** Names of rules: a label is mentioned exactly when its rule is listed. */
  lemma MentionsRule(ms: seq<Match>, s: Strategy)
    ensures Mentions(Names(ms), FilterLabel(s)) <==> exists k | 0 <= k < |ms| :: ms[k].strategy == s
  {
    var names := Names(ms);
    if Mentions(names, FilterLabel(s)) {
      var k :| 0 <= k < |names| && Contains(names[k], FilterLabel(s));
      LabelInName(s, ms[k].strategy);
    }
    if exists k | 0 <= k < |ms| :: ms[k].strategy == s {
      var k :| 0 <= k < |ms| && ms[k].strategy == s;
      LabelInName(s, s);
      assert Contains(names[k], FilterLabel(s));
    }
  }

  /** For an analysed stock, the substring filter is the box filter: keep it
      when no box is ticked or one of its firing rules is ticked. */
  lemma KeepIffTicked(t: Ticks, ms: seq<Match>)
    ensures Keep(t, Names(ms)) <==>
      !AnyTicked(t) || exists k | 0 <= k < |ms| :: Ticked(t, ms[k].strategy)
  {
    MentionsRule(ms, HyperSniper);
    MentionsRule(ms, TH);
    MentionsRule(ms, Turtle);
    MentionsRule(ms, BNF);
    if exists k | 0 <= k < |ms| :: Ticked(t, ms[k].strategy) {
      var k :| 0 <= k < |ms| && Ticked(t, ms[k].strategy);
      match ms[k].strategy
      case HyperSniper =>
      case TH =>
      case Turtle =>
      case BNF =>
    }
  }

  // ---------------------------------------------------------------------------
  // Collecting results
  // ---------------------------------------------------------------------------

  /** The fields of an analysed stock the scan screen uses. */
  datatype Hit = Hit(name: string, code: string, market: string, price: real, strategies: seq<string>)

  /** The row `analyze_single_stock` builds for a stock with a finding. */
  function HitOf(code: string, name: string, market: string, f: Finding): (r: Hit)
    ensures r.strategies == Names(f.ranked) && r.code == code && r.price == f.price
  {
    Hit(name, code, market, f.price, Names(f.ranked))
  }

  /** The results `scan_worker` keeps, in completion order: analyses that
      found something and pass the filter. */
  function Collect(t: Ticks, outcomes: seq<Option<Hit>>): (r: seq<Hit>)
    ensures |r| <= |outcomes|
  {
    if |outcomes| == 0 then []
    else
      var last := outcomes[|outcomes| - 1];
      Collect(t, outcomes[..|outcomes| - 1])
        + (if last.Some? && Keep(t, last.value.strategies) then [last.value] else [])
  }

  /** A stock is kept exactly when its analysis found something the filter passes. */
  lemma {:induction false} CollectMembers(t: Ticks, outcomes: seq<Option<Hit>>, h: Hit)
    ensures h in Collect(t, outcomes) <==> Some(h) in outcomes && Keep(t, h.strategies)
  {
    if |outcomes| > 0 {
      var init := outcomes[..|outcomes| - 1];
      CollectMembers(t, init, h);
      assert outcomes == init + [outcomes[|outcomes| - 1]];
    }
  }

  /** Stopping early keeps a prefix: collecting two runs of outcomes is
      collecting each in turn. */
  lemma {:induction false} CollectAppend(t: Ticks, a: seq<Option<Hit>>, b: seq<Option<Hit>>)
    ensures Collect(t, a + b) == Collect(t, a) + Collect(t, b)
    decreases |b|
  {
    if |b| > 0 {
      var last := b[|b| - 1];
      assert (a + b)[..|a + b| - 1] == a + b[..|b| - 1];
      CollectAppend(t, a, b[..|b| - 1]);
    } else {
      assert a + b == a;
    }
  }

  /** How many analyses found something. */
  function Found(outcomes: seq<Option<Hit>>): nat {
    if |outcomes| == 0 then 0
    else Found(outcomes[..|outcomes| - 1]) + (if outcomes[|outcomes| - 1].Some? then 1 else 0)
  }

  /** With no box ticked, every analysis that found something is kept. */
  lemma {:induction false} CollectUnfiltered(t: Ticks, outcomes: seq<Option<Hit>>)
    requires !AnyTicked(t)
    ensures |Collect(t, outcomes)| == Found(outcomes)
  {
    if |outcomes| > 0 {
      CollectUnfiltered(t, outcomes[..|outcomes| - 1]);
    }
  }

  // ---------------------------------------------------------------------------
  // Progress
  // ---------------------------------------------------------------------------

  /** The progress bar's fraction: processed over total, capped at 1, and 0
      before the total is known. */
  function Progress(curr: nat, total: nat): (r: real)
    ensures 0.0 <= r <= 1.0
    ensures total == 0 ==> r == 0.0
    ensures total > 0 && curr < total ==> r == curr as real / total as real
  {
    if total > 0 then
      var q := curr as real / total as real;
      if q < 1.0 then q else 1.0
    else 0.0
  }

  /** The bar is full exactly when every stock is processed. */
  lemma ProgressFull(curr: nat, total: nat)
    ensures Progress(curr, total) == 1.0 <==> total > 0 && curr >= total
  {
    if total > 0 {
      var q := curr as real / total as real;
      assert q * total as real == curr as real;
      if curr >= total {
        assert q >= 1.0;
      } else {
        assert q < 1.0;
      }
    }
  }

  /** Processing more never moves the bar back. */
  lemma ProgressMonotone(c1: nat, c2: nat, total: nat)
    requires c1 <= c2
    ensures Progress(c1, total) <= Progress(c2, total)
  {
    if total > 0 {
      var t := total as real;
      assert (c1 as real / t) * t == c1 as real;
      assert (c2 as real / t) * t == c2 as real;
      assert c1 as real / t <= c2 as real / t;
    }
  }

  // ---------------------------------------------------------------------------
  // Recording history
  // ---------------------------------------------------------------------------

  /** One `save_scan_result` call. */
  datatype Save = Save(date: string, strategy: string, code: string, name: string, price: real, market: string)

  /** The calls for one kept stock: one per strategy name, in list order. */
  function SavesOf(date: string, h: Hit): (r: seq<Save>)
    ensures |r| == |h.strategies|
    ensures forall k | 0 <= k < |r| :: r[k] == Save(date, h.strategies[k], h.code, h.name, h.price, h.market)
  {
    seq(|h.strategies|, k requires 0 <= k < |h.strategies| =>
      Save(date, h.strategies[k], h.code, h.name, h.price, h.market))
  }

  function Flatten(date: string, results: seq<Hit>): seq<Save> {
    if |results| == 0 then [] else SavesOf(date, results[0]) + Flatten(date, results[1..])
  }

  /** The calls a finished scan makes: none after a stop request, otherwise
      one per (kept stock, strategy name) pair. */
  function SaveCalls(date: string, results: seq<Hit>, stopRequested: bool): (r: seq<Save>)
    ensures stopRequested ==> r == []
  {
    if stopRequested then [] else Flatten(date, results)
  }

  /** Total number of strategy names over the results. */
  function NameCount(results: seq<Hit>): nat {
    if |results| == 0 then 0 else |results[0].strategies| + NameCount(results[1..])
  }

  /** The calls are exactly the (stock, strategy name) pairs, one each. */
  lemma {:induction false} FlattenMembers(date: string, results: seq<Hit>, sv: Save)
    ensures |Flatten(date, results)| == NameCount(results)
    ensures sv in Flatten(date, results) <==>
      exists i, k | 0 <= i < |results| && 0 <= k < |results[i].strategies| ::
        sv == Save(date, results[i].strategies[k], results[i].code, results[i].name,
                   results[i].price, results[i].market)
  {
    if |results| > 0 {
      var h := results[0];
      FlattenMembers(date, results[1..], sv);
      if sv in SavesOf(date, h) {
        var k :| 0 <= k < |SavesOf(date, h)| && SavesOf(date, h)[k] == sv;
        assert results[0] == h;
      }
      if exists i, k | 0 <= i < |results| && 0 <= k < |results[i].strategies| ::
           sv == Save(date, results[i].strategies[k], results[i].code, results[i].name,
                      results[i].price, results[i].market) {
        var i, k :| 0 <= i < |results| && 0 <= k < |results[i].strategies| &&
           sv == Save(date, results[i].strategies[k], results[i].code, results[i].name,
                      results[i].price, results[i].market);
        if i == 0 {
          assert SavesOf(date, h)[k] == sv;
        } else {
          assert results[1..][i - 1] == results[i];
        }
      }
    }
  }

  /** Applies the calls to `scan_history` in order. */
  function Record(h: History, calls: seq<Save>): (r: History)
    ensures forall k | k in h :: k in r && r[k] == h[k]
    decreases |calls|
  {
    if |calls| == 0 then h
    else
      var c := calls[0];
      Record(SaveScanResult(h, c.date, c.strategy, c.code, c.name, c.price, c.market), calls[1..])
  }

  /** Recording adds exactly the calls' (date, strategy, code) keys. */
  lemma {:induction false} RecordKeys(h: History, calls: seq<Save>)
    ensures Record(h, calls).Keys == h.Keys + set c | c in calls :: (c.date, c.strategy, c.code)
    decreases |calls|
  {
    if |calls| > 0 {
      var c := calls[0];
      var next := SaveScanResult(h, c.date, c.strategy, c.code, c.name, c.price, c.market);
      RecordKeys(next, calls[1..]);
      assert forall x | x in calls :: x == c || x in calls[1..];
    }
  }

  /** After a scan that was not stopped, every (stock, strategy name) pair
      has a history row under the scan date, rows already stored keep their
      values, and no other key appears; after a stop nothing changes. */
  lemma ScanRecordsHistory(h: History, date: string, results: seq<Hit>, stopRequested: bool,
                           i: nat, k: nat)
    requires i < |results| && k < |results[i].strategies|
    ensures stopRequested ==> Record(h, SaveCalls(date, results, stopRequested)) == h
    ensures !stopRequested ==>
      (date, results[i].strategies[k], results[i].code) in Record(h, SaveCalls(date, results, stopRequested))
  {
    var calls := SaveCalls(date, results, stopRequested);
    RecordKeys(h, calls);
    if !stopRequested {
      var sv := Save(date, results[i].strategies[k], results[i].code, results[i].name,
                     results[i].price, results[i].market);
      FlattenMembers(date, results, sv);
      assert sv in calls;
    }
  }

  /** Every key a scan records belongs to a kept stock and one of its names,
      under the scan date. */
  lemma ScanRecordsOnlyPairs(h: History, date: string, results: seq<Hit>, key: (string, string, string))
    requires key in Record(h, SaveCalls(date, results, false)) && key !in h
    ensures key.0 == date
    ensures exists i, k | 0 <= i < |results| && 0 <= k < |results[i].strategies| ::
      key.1 == results[i].strategies[k] && key.2 == results[i].code
  {
    var calls := SaveCalls(date, results, false);
    RecordKeys(h, calls);
    var c :| c in calls && key == (c.date, c.strategy, c.code);
    FlattenMembers(date, results, c);
  }
}
