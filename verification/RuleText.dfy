/** The text of a recording rule. SLIs of one fingerprint evaluate alike, but their rules are not
    byte for byte the same: dimensions and filters are hashed in a normal form and written as given. */
module RuleText {
  import opened Options
  import opened Text
  import opened LeBounds
  import opened Fingerprint
  import opened SliQueries
  import opened FilterText
  import opened FingerprintSound
  import opened Windows
  import Histogram
  import Decimal
  import RuleGroups
  import PromqlBuilder
  import PromqlLiterals

  // ---------- rendering ----------

  /** The pattern inside its string literal, where a backslash is written twice. */
  function PatternText(p: Pattern): string {
    match p.frac
    case None => p.intPart + "(\\\\.0*)?"
    case Some(frac) => (if p.zeroOptional then "0?" else p.intPart) + "\\\\." + frac + "0*"
  }

  function PatternsText(bounds: seq<int>): string {
    if bounds == [] then ""
    else PatternText(LeValuePattern(bounds[0])) + (if |bounds| == 1 then "" else "|" + PatternsText(bounds[1..]))
  }

  function MatcherText(m: Matcher): string {
    match m
    case Equal(name, value) => name + ("=" + PromqlBuilder.QuoteValue(value))
    case Filter(text) => text
    case LeOneOf(bounds) => "le=~\"" + PatternsText(bounds) + "\""
    case LeInf => "le=\"+Inf\""
  }

  function MatchersText(ms: seq<Matcher>): string {
    if ms == [] then "" else MatcherText(ms[0]) + Others(ms[1..])
  }

  /** The matchers that follow another one. */
  function Others(ms: seq<Matcher>): string {
    if ms == [] then "" else ", " + (MatcherText(ms[0]) + Others(ms[1..]))
  }

  function SumHead(fn: Fn, metric: string): string {
    (if fn == Rate then "sum(rate(" else "sum(sum_over_time(") + metric + "{"
  }

  function SumTail(window: string): string { "}[" + window + "]))" }

  function QueryText(q: Query): string {
    match q
    case Sum(fn, metric, ms, window) => SumHead(fn, metric) + (MatchersText(ms) + SumTail(window))
    case OrZero(q) => QueryText(q) + " or vector(0)"
    case OrElse(first, second) => "(" + (QueryText(first) + (" or " + QueryText(second) + ")"))
    case Text(expr) => expr
  }

  const NoQueryText: string := "# SLI has no query (missing metric or customExpr)"

  const Open: string := "1 - (\n  ("

  function Over(total: Query): string { ")\n  /\n  (" + QueryText(total) + ")\n)" }

  function ExprText(queries: Option<Queries>): string {
    match queries
    case None => NoQueryText
    case Some(ErrorRatio(expr)) => expr
    case Some(Ratio(good, total)) => Open + (QueryText(good) + Over(total))
  }

  /** The expression of the recording rule for one window. */
  function ErrorRatioExpr(p: Prometheus, dims: seq<Dimension>, threshold: Option<int>, window: string,
                          upgrade: Upgrade): string {
    ExprText(BuildSliEventQueries(p, dims, threshold, window, upgrade))
  }

  // ---------- reading the dimensions back from the text ----------

  predicate Named(dims: seq<Dimension>) { forall i | 0 <= i < |dims| :: IsLabelName(dims[i].name) }

  lemma Cancel(p: string, x: string, y: string)
    requires p + x == p + y
    ensures x == y
  {
    assert (p + x)[|p|..] == x && (p + y)[|p|..] == y;
  }

  lemma CancelEnd(x: string, y: string, z: string)
    requires x + z == y + z
    ensures x == y
  {
    assert |x| == |y|;
    assert (x + z)[..|x|] == x && (y + z)[..|y|] == y;
  }

  lemma NameEnds(name: string, rest: string)
    requires IsLabelName(name)
    ensures IndexOfChar(name + ("=" + rest), '=') == |name|
  {
    hide IndexOfChar;
    var s := name + ("=" + rest);
    assert s[|name|] == '=';
    assert forall i | 0 <= i < |name| :: IsWord(s[i]);
  }

  /** A label name, the sign and a quoted value tell where they end. */
  lemma EntrySplits(x: Dimension, r: string, y: Dimension, r': string)
    requires IsLabelName(x.name) && IsLabelName(y.name)
    requires MatcherText(Equal(x.name, x.value)) + r == MatcherText(Equal(y.name, y.value)) + r'
    ensures x == y && r == r'
  {
    hide IndexOfChar, IsLabelName, PromqlBuilder.QuoteValue, PromqlBuilder.LiteralLen;
    var (q, q') := (PromqlBuilder.QuoteValue(x.value), PromqlBuilder.QuoteValue(y.value));
    var (s, s') := (x.name + ("=" + (q + r)), y.name + ("=" + (q' + r')));
    assert s == MatcherText(Equal(x.name, x.value)) + r;
    assert s' == MatcherText(Equal(y.name, y.value)) + r';
    NameEnds(x.name, q + r);
    NameEnds(y.name, q' + r');
    assert s[..|x.name|] == x.name && s'[..|y.name|] == y.name;
    Cancel(x.name, "=" + (q + r), "=" + (q' + r'));
    Cancel("=", q + r, q' + r');
    PromqlLiterals.LiteralLenQuote(x.value, r);
    PromqlLiterals.LiteralLenQuote(y.value, r');
    assert (q + r)[..|q|] == q && (q' + r')[..|q'|] == q';
    Cancel(q, r, r');
    SameQuoted(x.value, y.value);
  }

  lemma SameQuoted(v: string, w: string)
    requires PromqlBuilder.QuoteValue(v) == PromqlBuilder.QuoteValue(w)
    ensures v == w
  {
    PromqlLiterals.UnquotedQuote(v);
    PromqlLiterals.UnquotedQuote(w);
  }

  lemma {:induction false} OthersSplit(a: seq<Dimension>, ms: seq<Matcher>, x: string,
                                       b: seq<Dimension>, ns: seq<Matcher>, y: string)
    requires Named(a) && Named(b) && |a| == |b| && |ms| == |ns|
    requires Others(DimMatchers(a) + ms) + x == Others(DimMatchers(b) + ns) + y
    ensures a == b && Others(ms) + x == Others(ns) + y
  {
    if a == [] {
      assert DimMatchers(a) + ms == ms && DimMatchers(b) + ns == ns;
    } else {
      hide MatcherText, IsLabelName, Others, DimMatchers, Named;
      OthersStep(a, ms, x);
      OthersStep(b, ns, y);
      var (rest, rest') := (Others(DimMatchers(a[1..]) + ms), Others(DimMatchers(b[1..]) + ns));
      var (e, e') := (MatcherText(Equal(a[0].name, a[0].value)), MatcherText(Equal(b[0].name, b[0].value)));
      Cancel(", ", e + (rest + x), e' + (rest' + y));
      NamedStep(a);
      NamedStep(b);
      EntrySplits(a[0], rest + x, b[0], rest' + y);
      OthersSplit(a[1..], ms, x, b[1..], ns, y);
      assert a == [a[0]] + a[1..] && b == [b[0]] + b[1..];
    }
  }

  lemma NamedStep(dims: seq<Dimension>)
    requires Named(dims) && dims != []
    ensures IsLabelName(dims[0].name) && Named(dims[1..])
  {
    hide IsLabelName;
  }

  lemma {:induction false} OthersStep(dims: seq<Dimension>, ms: seq<Matcher>, x: string)
    requires dims != []
    ensures Others(DimMatchers(dims) + ms) + x
         == ", " + (MatcherText(Equal(dims[0].name, dims[0].value)) + (Others(DimMatchers(dims[1..]) + ms) + x))
  {
    hide MatcherText, DimMatchers;
    DimsStep(dims, ms);
    var (e, rest) := (MatcherText(Equal(dims[0].name, dims[0].value)), Others(DimMatchers(dims[1..]) + ms));
    assert Others(DimMatchers(dims) + ms) == ", " + (e + rest);
    hide Others;
    Chain(", ", e, rest, x);
  }

  lemma DimsStep(dims: seq<Dimension>, ms: seq<Matcher>)
    requires dims != []
    ensures DimMatchers(dims) + ms == [Equal(dims[0].name, dims[0].value)] + (DimMatchers(dims[1..]) + ms)
    ensures var all := DimMatchers(dims) + ms; all != [] && all[1..] == DimMatchers(dims[1..]) + ms
  {
  }

  lemma OthersIs(ms: seq<Matcher>, x: string)
    requires ms != []
    ensures Others(ms) + x == ", " + (MatchersText(ms) + x)
  {
  }

  /** A selector's text determines its dimensions, and what comes after them. */
  lemma {:induction false} MatchersSplit(a: seq<Dimension>, ms: seq<Matcher>, x: string,
                      b: seq<Dimension>, ns: seq<Matcher>, y: string)
    requires Named(a) && Named(b) && |a| == |b| > 0 && |ms| == |ns|
    requires MatchersText(DimMatchers(a) + ms) + x == MatchersText(DimMatchers(b) + ns) + y
    ensures a == b && Others(ms) + x == Others(ns) + y
  {
    hide MatchersText, Others, Named;
    OthersIs(DimMatchers(a) + ms, x);
    OthersIs(DimMatchers(b) + ns, y);
    OthersSplit(a, ms, x, b, ns, y);
  }

  // ---------- where a rule's text starts to depend on its SLI ----------

  /** What stands before and after the first selector's matchers. */
  datatype Frame = Frame(head: string, ms: seq<Matcher>, tail: string)

  function FrameOf(q: Query): Frame {
    match q
    case Sum(fn, metric, ms, window) => Frame(SumHead(fn, metric), ms, SumTail(window))
    case OrZero(q) => var f := FrameOf(q); f.(tail := f.tail + " or vector(0)")
    case OrElse(first, second) =>
      var f := FrameOf(first); Frame("(" + f.head, f.ms, f.tail + (" or " + QueryText(second) + ")"))
    case Text(expr) => Frame(expr, [], "")
  }

  lemma {:induction false} FramedText(q: Query, rest: string)
    ensures var f := FrameOf(q); QueryText(q) + rest == f.head + (MatchersText(f.ms) + (f.tail + rest))
  {
    hide MatchersText;
    match q
    case Sum(fn, metric, ms, window) => Chain(SumHead(fn, metric), MatchersText(ms), SumTail(window), rest);
    case OrZero(inner) =>
      FramedText(inner, " or vector(0)" + rest);
      Regroup(FrameOf(inner).tail, " or vector(0)", rest);
      Regroup(QueryText(inner), " or vector(0)", rest);
    case OrElse(first, second) =>
      var (f, after) := (FrameOf(first), " or " + QueryText(second) + ")");
      FramedText(first, after + rest);
      Regroup(f.tail, after, rest);
      Chain("(", QueryText(first), after, rest);
      Chain("(", f.head, MatchersText(f.ms), f.tail + (after + rest));
    case Text(expr) =>
      assert expr + ("" + ("" + rest)) == expr + rest;
      assert MatchersText([]) == "" by { NoMatchers(); }
  }

  lemma NoMatchers()
    ensures MatchersText([]) == ""
  {
  }

  lemma Chain(a: string, b: string, c: string, d: string)
    ensures (a + (b + c)) + d == a + (b + (c + d))
    ensures a + (b + (c + d)) == (a + b) + (c + d)
  {
    assert (a + (b + c)) + d == a + (b + c + d);
    assert b + c + d == b + (c + d);
    assert a + (b + (c + d)) == (a + b) + (c + d);
  }

  /** The first selector of the query has the dimensions, then the matchers of `ms`. */
  predicate Leads(q: Query, dims: seq<Dimension>, ms: seq<Matcher>) {
    Named(dims) && dims != [] && FrameOf(q).ms == DimMatchers(dims) + ms
  }

  /** The text of a ratio from its first selector's dimensions on. */
  function AfterDims(good: Query, total: Query, ms: seq<Matcher>): string {
    Others(ms) + (FrameOf(good).tail + Over(total))
  }

  /** Two ratios that agree up to the dimensions of their first selector and have the same text list
      their dimensions alike. */
  lemma {:induction false} RatioSplits(good: Query, total: Query, a: seq<Dimension>, ms: seq<Matcher>,
                                       good': Query, total': Query, b: seq<Dimension>, ns: seq<Matcher>)
    requires Leads(good, a, ms) && Leads(good', b, ns) && |a| == |b| && |ms| == |ns|
    requires FrameOf(good).head == FrameOf(good').head
    requires ExprText(Some(Ratio(good, total))) == ExprText(Some(Ratio(good', total')))
    ensures a == b && AfterDims(good, total, ms) == AfterDims(good', total', ns)
  {
    hide MatchersText, Others, Named, DimMatchers, QueryText, FrameOf, Over;
    var (f, f') := (FrameOf(good), FrameOf(good'));
    FramedText(good, Over(total));
    FramedText(good', Over(total'));
    var (x, y) := (f.tail + Over(total), f'.tail + Over(total'));
    Cancel(Open, QueryText(good) + Over(total), QueryText(good') + Over(total'));
    Cancel(f.head, MatchersText(f.ms) + x, MatchersText(f'.ms) + y);
    MatchersSplit(a, ms, x, b, ns, y);
  }

  // ---------- availability ----------

  /** The two queries of an accepted availability SLI. */
  function GoodQuery(fn: Fn, metric: string, dims: seq<Dimension>, filter: string, window: string): Query {
    OrZero(Sum(fn, metric, DimMatchers(dims) + [Filter(filter)], window))
  }

  function TotalQuery(fn: Fn, metric: string, dims: seq<Dimension>, window: string): Query {
    Sum(fn, metric, DimMatchers(dims), window)
  }

  lemma AvailabilityIs(p: Prometheus, dims: seq<Dimension>, window: string, upgrade: Upgrade)
    requires p.kind.Availability? && Accepted(p, None)
    ensures var fn := if EffectiveTemporality(p, dims) == Delta then SumOverTime else Rate;
      BuildSliEventQueries(p, dims, None, window, upgrade)
        == Some(Ratio(GoodQuery(fn, p.metric.value, dims, Trim(p.goodEventsFilter.value), window),
                      TotalQuery(fn, p.metric.value, dims, window)))
  {
    hide Trim, EffectiveTemporality, DimMatchers, IsMetricName, AcceptsFilter;
    NotBlank(p.goodEventsFilter.value);
    MetricNotEmpty(p.metric.value);
  }

  lemma GoodFramed(fn: Fn, metric: string, dims: seq<Dimension>, filter: string, window: string)
    ensures FrameOf(GoodQuery(fn, metric, dims, filter, window))
         == Frame(SumHead(fn, metric), DimMatchers(dims) + [Filter(filter)], SumTail(window) + " or vector(0)")
  {
    hide SumHead, SumTail, DimMatchers;
  }

  lemma AvailabilityTextIff(p: Prometheus, a: seq<Dimension>, q: Prometheus, b: seq<Dimension>,
                            window: string, upgrade: Upgrade)
    requires p.kind.Availability? && q.kind.Availability? && Accepted(p, None) && Accepted(q, None)
    requires Named(a) && a != [] && multiset(a) == multiset(b)
    requires p.metric == q.metric && p.temporality == q.temporality
    ensures ErrorRatioExpr(p, a, None, window, upgrade) == ErrorRatioExpr(q, b, None, window, upgrade)
        <==> a == b && Trim(p.goodEventsFilter.value) == Trim(q.goodEventsFilter.value)
  {
    hide Trim, EffectiveTemporality, DimMatchers, Named, IsMetricName, AcceptsFilter, ExprText, Others, Over, SumTail,
         SumHead, BuildSliEventQueries, GoodQuery, TotalQuery, FrameOf;
    var (f, g, m) := (Trim(p.goodEventsFilter.value), Trim(q.goodEventsFilter.value), p.metric.value);
    SameTemporality(p, q, a, b);
    AvailabilityIs(p, a, window, upgrade);
    AvailabilityIs(q, b, window, upgrade);
    var fn := if EffectiveTemporality(p, a) == Delta then SumOverTime else Rate;
    var (good, total) := (GoodQuery(fn, m, a, f, window), TotalQuery(fn, m, a, window));
    var (good', total') := (GoodQuery(fn, m, b, g, window), TotalQuery(fn, m, b, window));
    if ExprText(Some(Ratio(good, total))) == ExprText(Some(Ratio(good', total'))) {
      SameDims(a, b);
      GoodFramed(fn, m, a, f, window);
      GoodFramed(fn, m, b, g, window);
      RatioSplits(good, total, a, [Filter(f)], good', total', b, [Filter(g)]);
      LastMatcherText(f, g, SumTail(window) + " or vector(0)" + Over(total));
    }
  }

  lemma SameDims(a: seq<Dimension>, b: seq<Dimension>)
    requires multiset(a) == multiset(b)
    ensures |a| == |b| && (Named(a) <==> Named(b))
  {
    assert |a| == |multiset(a)| && |b| == |multiset(b)|;
    NamedIn(a, b);
    NamedIn(b, a);
  }

  lemma NamedIn(a: seq<Dimension>, b: seq<Dimension>)
    requires multiset(a) == multiset(b)
    ensures Named(a) ==> Named(b)
  {
    hide IsLabelName;
    forall i | 0 <= i < |b| && Named(a) ensures IsLabelName(b[i].name) {
      assert b[i] in multiset(a);
    }
  }

  lemma LastMatcherText(f: string, g: string, rest: string)
    requires Others([Filter(f)]) + rest == Others([Filter(g)]) + rest
    ensures f == g
  {
    CancelEnd(Others([Filter(f)]), Others([Filter(g)]), rest);
    assert Others([Filter(f)]) == ", " + f && Others([Filter(g)]) == ", " + g;
    Cancel(", ", f, g);
  }

  // ---------- latency ----------

  /** A per-range layout with no bound at or under the threshold has no query. */
  predicate NoBucket(p: Prometheus, dims: seq<Dimension>, threshold: int) {
    && EffectiveTemporality(p, dims) != Delta && p.perRange
    && forall b | b in BoundsOf(p) :: !Histogram.UnderTolerance(b, InUnit(threshold, p.bucketUnit))
  }

  lemma NoBucketIs(p: Prometheus, metric: string, dims: seq<Dimension>, threshold: int, window: string)
    ensures LatencyQueries(p, metric, dims, threshold, window) == None <==> NoBucket(p, dims, threshold)
  {
    hide EffectiveTemporality, DimMatchers, Histogram.PerRangeBoundsUnder, Histogram.AtOrUnder, Histogram.UnderTolerance,
         BoundsOf, EnsureBucketMetric, EnsureCountMetric;
    var bounds := Histogram.PerRangeBoundsUnder(BoundsOf(p), InUnit(threshold, p.bucketUnit));
    if bounds != [] { assert bounds[0] in bounds; }
  }

  /** Everything but the dimensions of a latency query's first selector. */
  function LatencyFrame(p: Prometheus, metric: string, delta: bool, threshold: int): (string, Matcher) {
    var head := SumHead(if delta then SumOverTime else Rate, EnsureBucketMetric(metric));
    if delta then (head, LeOneOf(Histogram.AtOrUnder(Histogram.SpanBounds, threshold)))
    else if p.perRange then
      (head, LeOneOf(Histogram.PerRangeBoundsUnder(BoundsOf(p), InUnit(threshold, p.bucketUnit))))
    else if p.bucketUnit.Some? then (head, LeOneOf([InUnit(threshold, p.bucketUnit)]))
    else ("(" + head, LeOneOf([threshold]))
  }

  lemma LatencyFramed(p: Prometheus, metric: string, dims: seq<Dimension>, threshold: int, window: string)
    ensures var qs := LatencyQueries(p, metric, dims, threshold, window);
      var (head, le) := LatencyFrame(p, metric, EffectiveTemporality(p, dims) == Delta, threshold);
      qs.Some? ==> qs.value.Ratio? && FrameOf(qs.value.good).head == head
                   && FrameOf(qs.value.good).ms == DimMatchers(dims) + [le]
  {
    hide EffectiveTemporality, DimMatchers, Histogram.PerRangeBoundsUnder, Histogram.AtOrUnder, BoundsOf,
         EnsureBucketMetric, EnsureCountMetric, SumHead, SumTail, QueryText;
  }

  lemma LatencyTextIff(p: Prometheus, a: seq<Dimension>, q: Prometheus, b: seq<Dimension>,
                       metric: string, threshold: int, window: string)
    requires Named(a) && a != [] && multiset(a) == multiset(b) && p.temporality == q.temporality
    requires p.perRange == q.perRange && p.bucketUnit == q.bucketUnit
    requires p.perRange ==> SortedBounds(BoundsOf(p)) == SortedBounds(BoundsOf(q))
    ensures ExprText(LatencyQueries(p, metric, a, threshold, window))
         == ExprText(LatencyQueries(q, metric, b, threshold, window))
        <==> a == b || NoBucket(p, a, threshold)
  {
    hide EffectiveTemporality, DimMatchers, SortedBounds, Histogram.PerRangeBoundsUnder, Histogram.AtOrUnder,
         BoundsOf, EnsureBucketMetric, EnsureCountMetric, ExprText, Named, FrameOf, NoBucket, Others, Over, SumHead;
    SameTemporality(p, q, a, b);
    SameDims(a, b);
    if p.perRange { SameBounds(p, q, InUnit(threshold, p.bucketUnit)); }
    NoBucketIs(p, metric, a, threshold, window);
    NoBucketIs(q, metric, b, threshold, window);
    LatencyFramed(p, metric, a, threshold, window);
    LatencyFramed(q, metric, b, threshold, window);
    var (x, y) := (LatencyQueries(p, metric, a, threshold, window), LatencyQueries(q, metric, b, threshold, window));
    assert x.None? <==> y.None?;
    if a == b {
      assert x == y;
    } else if x.Some? && ExprText(x) == ExprText(y) {
      var le := LatencyFrame(p, metric, EffectiveTemporality(p, a) == Delta, threshold).1;
      hide LatencyQueries, LatencyFrame;
      RatioSplits(x.value.good, x.value.total, a, [le], y.value.good, y.value.total, b, [le]);
      assert false;
    }
  }

  // ---------- custom expressions ----------

  /** Padding survives the substitution as it is. */
  lemma SubstitutedPadded(ws1: string, core: string, ws2: string, window: string)
    requires AllSpace(ws1) && AllSpace(ws2)
    ensures Substituted(ws1 + (core + ws2), window) == ws1 + (Substituted(core, window) + ws2)
  {
    hide Substituted, AllSpace;
    SubstitutedAfter(ws1, core + ws2, window);
    SubstitutedBefore(core, ws2, window);
  }

  lemma SameStart(ws: string, ws': string, x: string, y: string)
    requires AllSpace(ws) && AllSpace(ws') && x != "" && y != "" && !IsSpace(x[0]) && !IsSpace(y[0])
    requires ws + x == ws' + y
    ensures ws == ws'
  {
    hide IsSpace;
    var (s, s') := (ws + x, ws' + y);
    assert s[|ws|] == x[0] && s'[|ws'|] == y[0];
    assert s[..|ws|] == ws && s'[..|ws'|] == ws';
  }

  /** Raw expressions that are trimmed alike have the same text only if they are the same. */
  lemma RawTextIff(x: string, y: string, window: string)
    requires Trim(x) == Trim(y) && Tight(window)
    ensures Substituted(x, window) == Substituted(y, window) <==> x == y
  {
    hide Substituted, Trim, Tight, IsSpace, AllSpace;
    var core := Trim(x);
    var ws1, ws2 := TrimSplit(x);
    var ws1', ws2' := TrimSplit(y);
    SubstitutedPadded(ws1, core, ws2, window);
    SubstitutedPadded(ws1', core, ws2', window);
    var s := Substituted(core, window);
    if Substituted(x, window) == Substituted(y, window) {
      if core == "" {
        NothingSubstituted(window);
        assert x == ws1 + (s + ws2) && y == ws1' + (s + ws2');
      } else {
        SubstitutedTight(core, window);
        TightStarts(s, ws2);
        TightStarts(s, ws2');
        SameStart(ws1, ws1', s + ws2, s + ws2');
        Cancel(ws1, s + ws2, s + ws2');
        Cancel(s, ws2, ws2');
      }
    }
  }

  lemma TightStarts(s: string, ws: string)
    requires Tight(s)
    ensures s + ws != "" && !IsSpace((s + ws)[0])
  {
  }

  // ---------- exactly when the texts agree ----------

  /** What a caller can check of two SLIs of one fingerprint before sharing their rule text. */
  predicate WrittenAlike(p: Prometheus, a: seq<Dimension>, threshold: Option<int>, q: Prometheus, b: seq<Dimension>) {
    match p.kind
    case Availability =>
      a == b && p.goodEventsFilter.Some? && q.goodEventsFilter.Some?
      && Trim(p.goodEventsFilter.value) == Trim(q.goodEventsFilter.value)
    case Latency => a == b || (threshold.Some? && NoBucket(p, a, threshold.value))
    case CustomExpr => p.custom.Some? && q.custom.Some? && (p.custom.value.Raw? ==> p.custom == q.custom)
  }

  /** The recording rules of two SLIs with one fingerprint have the same text exactly when dimensions
      are listed alike and trimmed filters written alike; for latency also when there is no query;
      for custom pairs always, for a raw expression when its white space is the same too. */
  lemma SameTextIff(p: Prometheus, a: seq<Dimension>, s: Option<int>, q: Prometheus, b: seq<Dimension>, t: Option<int>,
                    window: string, upgrade: Upgrade)
    requires Share(p, a, s, q, b, t) && Tight(window)
    requires !p.kind.CustomExpr? ==> Named(a) && a != []
    ensures ErrorRatioExpr(p, a, s, window, upgrade) == ErrorRatioExpr(q, b, t, window, upgrade)
        <==> WrittenAlike(p, a, s, q, b)
  {
    SharedParts(p, a, s, q, b, t);
    hide Share, NormalizeGoodEventsFilter, SortedBounds, LatencyQueries, Named, NoBucket, Trim, Tight,
         WindowCustomPair, Substituted, AcceptsFilter, IsMetricName, NormalizeMetric;
    match p.kind
    case CustomExpr =>
      if p.custom.value.Raw? { RawTextIff(p.custom.value.errorRatio, q.custom.value.errorRatio, window); }
      else { PairText(p, q, window, upgrade); }
    case Availability =>
      MetricIsTight(p.metric.value);
      MetricIsTight(q.metric.value);
      AvailabilityTextIff(p, a, q, b, window, upgrade);
    case Latency =>
      MetricIsTight(p.metric.value);
      MetricIsTight(q.metric.value);
      MetricNotEmpty(p.metric.value);
      LatencyTextIff(p, a, q, b, p.metric.value, s.value, window);
  }

  lemma PairText(p: Prometheus, q: Prometheus, window: string, upgrade: Upgrade)
    requires p.custom.Some? && p.custom.value.Events? && NormalizeCustom(p.custom) == NormalizeCustom(q.custom)
    ensures q.custom.Some? && q.custom.value.Events?
    ensures WindowCustomPair(p.custom.value.good, p.custom.value.total, window, upgrade)
         == WindowCustomPair(q.custom.value.good, q.custom.value.total, window, upgrade)
  {
    hide Trim, Substituted, HasToken;
  }

  /** The whole shared recording group, byte for byte. */
  function GroupOf(fp: string, p: Prometheus, dims: seq<Dimension>, threshold: Option<int>,
                   upgrade: Upgrade): seq<RuleGroups.Rule> {
    RuleGroups.RecordingGroup(fp, window => ErrorRatioExpr(p, dims, threshold, window, upgrade), |RecordingWindows|)
  }

  /** So the shared group does not depend on which SLO is its representative exactly when the SLIs
      are written alike. */
  lemma SameGroupIff(fp: string, p: Prometheus, a: seq<Dimension>, s: Option<int>,
                     q: Prometheus, b: seq<Dimension>, t: Option<int>, upgrade: Upgrade)
    requires Share(p, a, s, q, b, t) && (!p.kind.CustomExpr? ==> Named(a) && a != [])
    ensures GroupOf(fp, p, a, s, upgrade) == GroupOf(fp, q, b, t, upgrade) <==> WrittenAlike(p, a, s, q, b)
  {
    hide Share, WrittenAlike, ErrorRatioExpr, Named, Tight, RuleGroups.RecordingGroup, RuleGroups.DedupSeries;
    var (g, h) := (GroupOf(fp, p, a, s, upgrade), GroupOf(fp, q, b, t, upgrade));
    forall i | 0 <= i < |RecordingWindows|
      ensures g[i] == h[i] <==> WrittenAlike(p, a, s, q, b)
    {
      var w := RecordingWindows[i];
      WindowsAreTight(w);
      SameTextIff(p, a, s, q, b, t, w, upgrade);
      assert g[i].expr == ErrorRatioExpr(p, a, s, w, upgrade) && h[i].expr == ErrorRatioExpr(q, b, t, w, upgrade);
    }
    assert g == h ==> g[0] == h[0];
  }

  // ---------- inputs that share a fingerprint and not a text ----------

  /** Two orders of two labels, for any availability or latency SLI that has a query. */
  lemma PermutedTextDiffers(ds: string, p: Prometheus, x: Dimension, y: Dimension, t: Option<int>,
                            window: string, upgrade: Upgrade)
    requires Accepted(p, t) && !p.kind.CustomExpr? && IsLabelName(x.name) && IsLabelName(y.name) && x != y
    requires p.kind.Latency? ==> !NoBucket(p, [x, y], t.value)
    requires Tight(window)
    ensures ComputeSliFingerprint(ds, Single(p, [x, y]), t) == ComputeSliFingerprint(ds, Single(p, [y, x]), t)
    ensures ErrorRatioExpr(p, [x, y], t, window, upgrade) != ErrorRatioExpr(p, [y, x], t, window, upgrade)
  {
    hide ErrorRatioExpr, Accepted, NoBucket, IsLabelName, ComputeSliFingerprint;
    var (a, b) := ([x, y], [y, x]);
    assert multiset(a) == multiset(b) && a[0] != b[0];
    PermutedDimensionsShare(ds, p, a, b, t);
    assert Share(p, a, t, p, b, t);
    SameTextIff(p, a, t, p, b, t, window, upgrade);
  }

  /** A raw expression and the same one after a blank. */
  lemma PaddedRawDiffers(ds: string, p: Prometheus, dims: seq<Dimension>, query: string, t: Option<int>,
                         window: string, upgrade: Upgrade)
    requires p.kind.CustomExpr? && p.custom == Some(Raw(query)) && Tight(window)
    ensures var q := p.(custom := Some(Raw(" " + query)));
      && ComputeSliFingerprint(ds, Single(p, dims), t) == ComputeSliFingerprint(ds, Single(q, dims), t)
      && ErrorRatioExpr(p, dims, t, window, upgrade) != ErrorRatioExpr(q, dims, t, window, upgrade)
  {
    var q := p.(custom := Some(Raw(" " + query)));
    assert (" " + query)[1..] == query;
    assert Trim(" " + query) == Trim(query);
    assert ComputeSliFingerprint(ds, Single(p, dims), t) == ComputeSliFingerprint(ds, Single(q, dims), t);
    hide ErrorRatioExpr, ComputeSliFingerprint, Trim;
    assert Share(p, dims, t, q, dims, t);
    SameTextIff(p, dims, t, q, dims, t, window, upgrade);
    assert |" " + query| != |query|;
  }

  /** A good-events filter with one blank before its operator and with two. */
  lemma SpacedFilterDiffers(ds: string, p: Prometheus, dims: seq<Dimension>, m: Parsed, window: string, upgrade: Upgrade)
    requires p.kind.Availability? && p.metric.Some? && IsMetricName(p.metric.value)
    requires IsParsed(m) && AcceptsFilter(Spaced(m, " ", "")) && AcceptsFilter(Spaced(m, "  ", ""))
    requires Named(dims) && dims != [] && Tight(window)
    ensures var one := p.(goodEventsFilter := Some(Spaced(m, " ", "")));
      var two := p.(goodEventsFilter := Some(Spaced(m, "  ", "")));
      && ComputeSliFingerprint(ds, Single(one, dims), None) == ComputeSliFingerprint(ds, Single(two, dims), None)
      && ErrorRatioExpr(one, dims, None, window, upgrade) != ErrorRatioExpr(two, dims, None, window, upgrade)
  {
    var (f, g) := (Spaced(m, " ", ""), Spaced(m, "  ", ""));
    var (one, two) := (p.(goodEventsFilter := Some(f)), p.(goodEventsFilter := Some(g)));
    hide ErrorRatioExpr, Named, AcceptsFilter, Squeezed, Trim, IsMetricName;
    SpacedIsTight(m, " ", "");
    SpacedIsTight(m, "  ", "");
    TrimTight(f);
    TrimTight(g);
    SqueezeSpaced(m, " ", "");
    SqueezeSpaced(m, "  ", "");
    assert |f| != |g|;
    hide Spaced, NormalizeMetric, NormalizeDimensions, NormalizeCustom, Tight;
    assert ComputeSliFingerprint(ds, Single(one, dims), None) == ComputeSliFingerprint(ds, Single(two, dims), None);
    assert Share(one, dims, None, two, dims, None);
    SameTextIff(one, dims, None, two, dims, None, window, upgrade);
  }

  function Plain(kind: SliType): Prometheus {
    Prometheus(kind, "occurrences", Some("m"), Some("a=\"b\""), None, Some(Seconds), Some(Raw("x")), None, false, None, None)
  }

  /** Accepted inputs of each kind. */
  lemma ConcreteInputs(ds: string, window: string, upgrade: Upgrade)
    requires Tight(window)
    ensures var (x, y, second) := (Dimension("x", "1"), Dimension("y", "2"), Some(1_000_000_000));
      var raw := Plain(CustomExpr);
      var padded := raw.(custom := Some(Raw(" x")));
      && (forall kind | kind in {Availability, Latency} ::
            && ComputeSliFingerprint(ds, Single(Plain(kind), [x, y]), second)
               == ComputeSliFingerprint(ds, Single(Plain(kind), [y, x]), second)
            && ErrorRatioExpr(Plain(kind), [x, y], second, window, upgrade)
               != ErrorRatioExpr(Plain(kind), [y, x], second, window, upgrade))
      && ComputeSliFingerprint(ds, Single(raw, []), None) == ComputeSliFingerprint(ds, Single(padded, []), None)
      && ErrorRatioExpr(raw, [], None, window, upgrade) != ErrorRatioExpr(padded, [], None, window, upgrade)
  {
    hide ComputeSliFingerprint, ErrorRatioExpr, AcceptsFilter;
    FilterIsAccepted();
    forall kind | kind in {Availability, Latency}
      ensures ComputeSliFingerprint(ds, Single(Plain(kind), [Dimension("x", "1"), Dimension("y", "2")]), Some(1_000_000_000))
           == ComputeSliFingerprint(ds, Single(Plain(kind), [Dimension("y", "2"), Dimension("x", "1")]), Some(1_000_000_000))
      ensures ErrorRatioExpr(Plain(kind), [Dimension("x", "1"), Dimension("y", "2")], Some(1_000_000_000), window, upgrade)
           != ErrorRatioExpr(Plain(kind), [Dimension("y", "2"), Dimension("x", "1")], Some(1_000_000_000), window, upgrade)
    {
      PermutedTextDiffers(ds, Plain(kind), Dimension("x", "1"), Dimension("y", "2"), Some(1_000_000_000), window, upgrade);
    }
    assert " " + "x" == " x";
    PaddedRawDiffers(ds, Plain(CustomExpr), [], "x", None, window, upgrade);
  }

  lemma FilterIsAccepted()
    ensures AcceptsFilter("a=\"b\"")
  {
    hide ParseMatcher, Trim;
    var p := Parsed("a", Eq, "\"b\"");
    QuotedIsLiteral();
    SpacedIsTight(p, "", "");
    TrimTight(Spaced(p, "", ""));
    ParseSpaced(p, "", "");
    assert Spaced(p, "", "") == "a=\"b\"";
  }

  lemma QuotedIsLiteral()
    ensures IsLiteral("\"b\"")
  {
    assert "\"b\""[1..] == "b\"" && "b\""[1..] == "\"";
  }

  // ---------- the texts themselves ----------

  const One: Dimension := Dimension("x", "1")

  lemma QuotedOne()
    ensures PromqlBuilder.QuoteValue("1") == "\"1\""
  {
    assert "1"[1..] == "";
    assert PromqlBuilder.DoubleBackslashes("1") == "1" && PromqlBuilder.EscapeQuotes("1") == "1";
  }

  lemma OneText()
    ensures DimMatchers([One]) == [Equal("x", "1")] && MatchersText([Equal("x", "1")]) == "x=\"1\""
  {
    QuotedOne();
    assert [One][1..] == [] && [Equal("x", "1")][1..] == [];
    assert MatcherText(Equal("x", "1")) == "x=\"1\"" && Others([]) == "";
  }

  lemma WithText(m: Matcher, text: string)
    requires MatcherText(m) == text
    ensures MatchersText([Equal("x", "1"), m]) == "x=\"1\"" + (", " + text)
  {
    OneText();
    hide MatcherText;
    OtherText(m, text);
    FirstText(Equal("x", "1"), [m]);
    FirstText(Equal("x", "1"), []);
    assert MatcherText(Equal("x", "1")) + "" == MatcherText(Equal("x", "1"));
  }

  lemma FirstText(m: Matcher, ms: seq<Matcher>)
    ensures MatchersText([m] + ms) == MatcherText(m) + Others(ms) && Others([]) == ""
    ensures forall n :: ms == [n] ==> [m] + ms == [m, n]
    ensures ms == [] ==> [m] + ms == [m]
  {
    hide MatcherText, Others;
    assert ([m] + ms)[1..] == ms;
    NoOthers();
  }

  lemma NoOthers()
    ensures Others([]) == ""
  {
  }

  lemma OtherText(m: Matcher, text: string)
    requires MatcherText(m) == text
    ensures Others([m]) == ", " + text
  {
    hide MatcherText;
    NoOthers();
    assert [m][1..] == [];
    assert text + "" == text;
  }

  /** An availability rule reads: one minus the selected over all, zero where nothing is selected. */
  lemma AvailabilityText(upgrade: Upgrade)
    ensures ErrorRatioExpr(Plain(Availability), [One], None, "5m", upgrade)
      == "1 - (\n  (" + (((("sum(rate(" + "m" + "{") + ("x=\"1\"" + (", " + "a=\"b\"") + "}[5m]))")) + " or vector(0)")
           + (")\n  /\n  (" + (("sum(rate(" + "m" + "{") + ("x=\"1\"" + "}[5m]))")) + ")\n)"))
  {
    var (good, total) := (Sum(Rate, "m", [Equal("x", "1"), Filter("a=\"b\"")], "5m"), Sum(Rate, "m", [Equal("x", "1")], "5m"));
    AvailabilityQueries(OrZero(good), total, upgrade);
    hide BuildSliEventQueries;
    RatioText(OrZero(good), total);
    ZeroText(good);
    OneText();
    WithText(Filter("a=\"b\""), "a=\"b\"");
    SumText("m", good.matchers, "x=\"1\"" + (", " + "a=\"b\""));
    SumText("m", total.matchers, "x=\"1\"");
    hide QueryText, ExprText, MatchersText;
  }

  lemma ZeroText(q: Query)
    ensures QueryText(OrZero(q)) == QueryText(q) + " or vector(0)"
  {
  }

  lemma AvailabilityQueries(good: Query, total: Query, upgrade: Upgrade)
    requires good == OrZero(Sum(Rate, "m", [Equal("x", "1"), Filter("a=\"b\"")], "5m"))
    requires total == Sum(Rate, "m", [Equal("x", "1")], "5m")
    ensures BuildSliEventQueries(Plain(Availability), [One], None, "5m", upgrade) == Some(Ratio(good, total))
  {
    hide AcceptsFilter, Trim, BuildSliEventQueries, DimMatchers, MatchersText;
    FilterIsAccepted();
    AvailabilityIs(Plain(Availability), [One], "5m", upgrade);
    FilterTrims();
    OneText();
    NotSpan();
    Two(Equal("x", "1"), Filter("a=\"b\""));
  }

  lemma NotSpan()
    ensures Dimension("namespace", "span_derived") !in [One]
  {
    assert One.name != "namespace";
  }

  lemma Two(m: Matcher, n: Matcher)
    ensures [m] + [n] == [m, n]
  {
  }

  lemma FilterTrims()
    ensures Trim("a=\"b\"") == "a=\"b\""
  {
    TrimTight("a=\"b\"");
  }

  lemma RatioText(good: Query, total: Query)
    ensures ExprText(Some(Ratio(good, total)))
      == "1 - (\n  (" + (QueryText(good) + (")\n  /\n  (" + QueryText(total) + ")\n)"))
  {
  }

  /** The patterns of whole and of fractional seconds, inside their literal. */
  lemma WholeText()
    ensures PatternText(LeValuePattern(1_000_000_000)) == "1(\\\\.0*)?"
  {
    hide LeValuePattern, Decimal.NumText, Fixed, StripZeros;
    PatternOf(1_000_000_000);
    ZeroHasNoFraction(0);
    SmallNumbers();
    hide Pow10;
  }

  lemma FractionText()
    ensures PatternText(LeValuePattern(500_000_000)) == "0?\\\\.50*"
  {
    hide LeValuePattern, Decimal.NumText, Fixed, StripZeros;
    PatternOf(500_000_000);
    SmallNumbers();
    HalfStrips(8);
    hide Pow10;
  }

  lemma SmallNumbers()
    ensures Decimal.NumText(1) == "1" && Decimal.NumText(0) == "0" && 5 * Pow10(8) == 500_000_000
  {
  }

  lemma {:induction false} HalfStrips(k: nat)
    ensures StripZeros(Fixed(5 * Pow10(k), k + 1)) == "5"
  {
    if k == 0 {
      assert Fixed(0, 0) == "" && Fixed(5, 1) == "5";
    } else {
      HalfStrips(k - 1);
      assert 5 * Pow10(k) == 10 * (5 * Pow10(k - 1));
      var s := Fixed(5 * Pow10(k), k + 1);
      assert s == Fixed(5 * Pow10(k - 1), k) + "0";
      assert s[..|s| - 1] == Fixed(5 * Pow10(k - 1), k);
    }
  }

  lemma LeText()
    ensures MatcherText(LeOneOf([1_000_000_000])) == "le=~\"1(\\\\.0*)?\""
  {
    hide PatternText, LeValuePattern;
    WholeText();
    assert PatternsText([1_000_000_000]) == "1(\\\\.0*)?" + "";
  }

  lemma SumText(metric: string, ms: seq<Matcher>, matchers: string)
    requires MatchersText(ms) == matchers
    ensures QueryText(Sum(Rate, metric, ms, "5m")) == ("sum(rate(" + metric + "{") + (matchers + "}[5m]))")
  {
    hide MatchersText;
    assert SumTail("5m") == "}[5m]))";
  }

  /** A cumulative latency rule reads the bucket at the threshold and the overflow. */
  lemma LatencyText(upgrade: Upgrade)
    ensures ErrorRatioExpr(Plain(Latency).(bucketUnit := Some(Seconds)), [One], Some(1_000_000_000), "5m", upgrade)
      == "1 - (\n  (" + ((("sum(rate(" + "m_bucket" + "{") + ("x=\"1\"" + (", " + "le=~\"1(\\\\.0*)?\"") + "}[5m]))"))
           + (")\n  /\n  (" + (("sum(rate(" + "m_bucket" + "{") + ("x=\"1\"" + (", " + "le=\"+Inf\"") + "}[5m]))")) + ")\n)"))
  {
    var good := Sum(Rate, "m_bucket", [Equal("x", "1"), LeOneOf([1_000_000_000])], "5m");
    var total := Sum(Rate, "m_bucket", [Equal("x", "1"), LeInf], "5m");
    LatencyQueriesOfM(good, total, upgrade);
    hide BuildSliEventQueries;
    RatioText(good, total);
    LeText();
    WithText(LeOneOf([1_000_000_000]), "le=~\"1(\\\\.0*)?\"");
    WithText(LeInf, "le=\"+Inf\"");
    SumText("m_bucket", good.matchers, "x=\"1\"" + (", " + "le=~\"1(\\\\.0*)?\""));
    SumText("m_bucket", total.matchers, "x=\"1\"" + (", " + "le=\"+Inf\""));
    hide QueryText, ExprText, MatchersText;
  }

  lemma LatencyQueriesOfM(good: Query, total: Query, upgrade: Upgrade)
    requires good == Sum(Rate, "m_bucket", [Equal("x", "1"), LeOneOf([1_000_000_000])], "5m")
    requires total == Sum(Rate, "m_bucket", [Equal("x", "1"), LeInf], "5m")
    ensures BuildSliEventQueries(Plain(Latency).(bucketUnit := Some(Seconds)), [One], Some(1_000_000_000), "5m", upgrade)
      == Some(Ratio(good, total))
  {
    OneText();
    BucketOfM();
    hide DimMatchers, EnsureBucketMetric, EnsureCountMetric, MatchersText, Histogram.AtOrUnder, Histogram.PerRangeBoundsUnder;
    assert Dimension("namespace", "span_derived") !in [One];
    assert [Equal("x", "1")] + [LeOneOf([1_000_000_000])] == [Equal("x", "1"), LeOneOf([1_000_000_000])];
    assert [Equal("x", "1")] + [LeInf] == [Equal("x", "1"), LeInf];
  }

  lemma BucketOfM()
    ensures EnsureBucketMetric("m") == "m_bucket"
  {
  }
}
