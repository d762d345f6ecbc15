/** Two SLIs with the same fingerprint may share one recording group: their recording rules evaluate
    alike on every metric store. */
module FingerprintSound {
  import opened Options
  import opened Text
  import opened LeBounds
  import opened Fingerprint
  import opened SliQueries
  import opened FilterText
  import opened Windows
  import Histogram

  /** What validation guarantees of an SLI and its objective's threshold. */
  predicate Accepted(p: Prometheus, threshold: Option<int>) {
    match p.kind
    case Availability =>
      && p.metric.Some? && IsMetricName(p.metric.value)
      && p.goodEventsFilter.Some? && AcceptsFilter(p.goodEventsFilter.value)
    case Latency =>
      && p.metric.Some? && IsMetricName(p.metric.value)
      && threshold.Some? && threshold.value > 0
      && (p.perRange ==> BoundsOf(p) != [] && p.bucketUnit.Some? && forall b | b in BoundsOf(p) :: b >= 0)
    case CustomExpr => p.custom.Some?
  }

  // ---------- white space around a custom expression ----------

  /** White space around an expression means nothing. */
  ghost predicate TrimInvariant(e: Engine) {
    forall store, q :: e.custom(store, q) == e.custom(store, Trim(q))
  }

  lemma TokenIsSolid()
    ensures |Token| == 11 && forall i | 0 <= i < |Token| :: !IsSpace(Token[i])
  {
  }

  lemma {:induction false} SubstitutedAfter(ws: string, rest: string, window: string)
    requires AllSpace(ws)
    ensures Substituted(ws + rest, window) == ws + Substituted(rest, window)
  {
    if ws == "" {
      assert ws + rest == rest;
      assert ws + Substituted(rest, window) == Substituted(rest, window);
    } else {
      hide IsSpace, TokenAt, Substituted;
      assert (ws + rest)[0] == ws[0];
      NoTokenHere(ws + rest);
      SubstitutedStep(ws + rest, window);
      assert (ws + rest)[1..] == ws[1..] + rest;
      SubstitutedAfter(ws[1..], rest, window);
      Joined([ws[0]], ws[1..], Substituted(rest, window));
      assert [ws[0]] + ws[1..] == ws;
    }
  }

  lemma NoTokenHere(q: string)
    requires q != "" && IsSpace(q[0])
    ensures !TokenAt(q)
  {
    TokenIsSolid();
    if |q| >= |Token| { assert q[..|Token|][0] == q[0]; }
  }

  lemma TokenNotAcross(core: string, ws: string)
    requires AllSpace(ws)
    ensures TokenAt(core + ws) <==> TokenAt(core)
  {
    hide IsSpace;
    TokenIsSolid();
    var q := core + ws;
    if |core| >= |Token| {
      assert q[..|Token|] == core[..|Token|];
    } else if |q| >= |Token| {
      assert q[..|Token|][|core|] == ws[0];
    }
  }

  lemma {:induction false} SubstitutedBefore(core: string, ws: string, window: string)
    requires AllSpace(ws)
    ensures Substituted(core + ws, window) == Substituted(core, window) + ws
    decreases |core|
  {
    if core == "" {
      assert core + ws == ws && ws + "" == ws;
      SubstitutedAfter(ws, "", window);
    } else {
      hide IsSpace, AllSpace;
      TokenNotAcross(core, ws);
      if TokenAt(core) {
        assert (core + ws)[|Token|..] == core[|Token|..] + ws;
        SubstitutedBefore(core[|Token|..], ws, window);
      } else {
        assert (core + ws)[1..] == core[1..] + ws;
        SubstitutedBefore(core[1..], ws, window);
      }
    }
  }

  lemma {:induction false} SubstitutedEnds(core: string, window: string)
    requires core != "" && !IsSpace(core[|core| - 1]) && Tight(window)
    ensures var s := Substituted(core, window); s != "" && !IsSpace(s[|s| - 1])
    decreases |core|
  {
    hide IsSpace, TokenAt;
    SubstitutedStep(core, window);
    var rest := if TokenAt(core) then core[|Token|..] else core[1..];
    if rest != "" {
      assert core[|core| - 1] == rest[|rest| - 1];
      hide Substituted;
      SubstitutedEnds(rest, window);
    } else {
      NothingSubstituted(window);
    }
  }

  lemma SubstitutedStep(core: string, window: string)
    requires core != ""
    ensures TokenAt(core) ==> |core| >= |Token|
    ensures Substituted(core, window) == if TokenAt(core) then window + Substituted(core[|Token|..], window)
                                         else [core[0]] + Substituted(core[1..], window)
  {
  }

  lemma SubstitutedTight(core: string, window: string)
    requires Tight(core) && Tight(window)
    ensures Tight(Substituted(core, window))
  {
    hide IsSpace;
    SubstitutedEnds(core, window);
    var s := Substituted(core, window);
    assert s[0] == if TokenAt(core) then window[0] else core[0];
  }

  /** Substituting the window and trimming commute. */
  lemma SubstitutedTrim(q: string, window: string)
    requires Tight(window)
    ensures Trim(Substituted(q, window)) == Substituted(Trim(q), window)
  {
    hide Substituted, Trim, IsSpace;
    var ws1, ws2 := TrimSplit(q);
    var core := Trim(q);
    SubstitutedAfter(ws1, core + ws2, window);
    SubstitutedBefore(core, ws2, window);
    var s := Substituted(core, window);
    if core == "" { assert s == "" by { NothingSubstituted(window); } } else { SubstitutedTight(core, window); }
    assert ws1 + s + ws2 == ws1 + (s + ws2);
    TrimPadded(ws1, s, ws2);
  }

  lemma NothingSubstituted(window: string)
    ensures Substituted("", window) == ""
  {
  }

  // ---------- the same series are selected ----------

  ghost predicate AcceptsAll(e: Engine, s: Series, ms: seq<Matcher>) { forall m | m in ms :: Accepts(e, s, m) }

  lemma AcceptsJoined(e: Engine, s: Series, ms: seq<Matcher>, ns: seq<Matcher>)
    ensures AcceptsAll(e, s, ms + ns) <==> AcceptsAll(e, s, ms) && AcceptsAll(e, s, ns)
  {
    hide Accepts;
    if AcceptsAll(e, s, ms + ns) {
      forall m | m in ms ensures Accepts(e, s, m) { assert m in ms + ns; }
      forall m | m in ns ensures Accepts(e, s, m) { assert m in ms + ns; }
    }
  }

  /** Permuted dimensions select the same series. */
  lemma AcceptsDimensions(e: Engine, s: Series, a: seq<Dimension>, b: seq<Dimension>)
    requires multiset(a) == multiset(b)
    ensures AcceptsAll(e, s, DimMatchers(a)) <==> AcceptsAll(e, s, DimMatchers(b))
  {
    hide Accepts;
    SameDimMatchers(a, b);
    SameDimMatchers(b, a);
  }

  lemma SameDimMatchers(a: seq<Dimension>, b: seq<Dimension>)
    requires multiset(a) == multiset(b)
    ensures forall m | m in DimMatchers(a) :: m in DimMatchers(b)
  {
    forall m | m in DimMatchers(a) ensures m in DimMatchers(b) {
      var i :| 0 <= i < |a| && DimMatchers(a)[i] == m;
      assert a[i] in multiset(b);
      var j :| 0 <= j < |b| && b[j] == a[i];
      assert DimMatchers(b)[j] == m;
    }
  }

  /** Two matcher lists over permuted dimensions whose own parts agree give the same sum. */
  lemma SameSum(e: Engine, store: Store, fn: Fn, metric: string, a: seq<Dimension>, b: seq<Dimension>,
                ms: seq<Matcher>, ns: seq<Matcher>, window: string)
    requires multiset(a) == multiset(b)
    requires forall s :: AcceptsAll(e, s, ms) <==> AcceptsAll(e, s, ns)
    ensures SumOf(e, store, fn, metric, DimMatchers(a) + ms, window)
         == SumOf(e, store, fn, metric, DimMatchers(b) + ns, window)
    decreases |store|
  {
    hide Accepts, DimMatchers;
    if store != [] {
      var s := store[0];
      SameSum(e, store[1..], fn, metric, a, b, ms, ns, window);
      AcceptsJoined(e, s, DimMatchers(a), ms);
      AcceptsJoined(e, s, DimMatchers(b), ns);
      AcceptsDimensions(e, s, a, b);
      assert Selected(e, s, metric, DimMatchers(a) + ms) == Selected(e, s, metric, DimMatchers(b) + ns);
    }
  }

  lemma SameSumPlain(e: Engine, store: Store, fn: Fn, metric: string, a: seq<Dimension>, b: seq<Dimension>, window: string)
    requires multiset(a) == multiset(b)
    ensures SumOf(e, store, fn, metric, DimMatchers(a), window) == SumOf(e, store, fn, metric, DimMatchers(b), window)
  {
    hide SumOf;
    SameSum(e, store, fn, metric, a, b, [], [], window);
    assert DimMatchers(a) + [] == DimMatchers(a) && DimMatchers(b) + [] == DimMatchers(b);
  }

  /** Filters of the same normal form test the same thing. */
  lemma AcceptsFilters(e: Engine, s: Series, f: string, g: string)
    requires AcceptsFilter(f) && AcceptsFilter(g)
    requires NormalizeGoodEventsFilter(Some(f)) == NormalizeGoodEventsFilter(Some(g))
    ensures AcceptsAll(e, s, FilterMatchers(Some(f))) <==> AcceptsAll(e, s, FilterMatchers(Some(g)))
  {
    SameMatcher(f, g);
    hide ParseMatcher, Trim;
    NotBlank(f);
    NotBlank(g);
    assert Accepts(e, s, Filter(Trim(f))) == Accepts(e, s, Filter(Trim(g)));
  }

  lemma NotBlank(f: string)
    requires AcceptsFilter(f)
    ensures Trim(f) != ""
  {
  }

  // ---------- same fingerprint, same rules ----------

  lemma SameTemporality(p: Prometheus, q: Prometheus, a: seq<Dimension>, b: seq<Dimension>)
    requires p.temporality == q.temporality && multiset(a) == multiset(b)
    ensures EffectiveTemporality(p, a) == EffectiveTemporality(q, b)
  {
    var d := Dimension("namespace", "span_derived");
    assert d in a <==> d in multiset(a);
    assert d in b <==> d in multiset(b);
  }

  lemma SameBounds(p: Prometheus, q: Prometheus, threshold: int)
    requires SortedBounds(BoundsOf(p)) == SortedBounds(BoundsOf(q))
    ensures Histogram.PerRangeBoundsUnder(BoundsOf(p), threshold) == Histogram.PerRangeBoundsUnder(BoundsOf(q), threshold)
  {
    hide Histogram.PerRangeBoundsUnder, SortedBounds;
    assert forall b :: b in BoundsOf(p) <==> b in SortedBounds(BoundsOf(p));
    assert forall b :: b in BoundsOf(q) <==> b in SortedBounds(BoundsOf(q));
    AscendingIsUnique(Histogram.PerRangeBoundsUnder(BoundsOf(p), threshold),
                      Histogram.PerRangeBoundsUnder(BoundsOf(q), threshold));
  }

  /** Two accepted SLIs whose fingerprints agree, on whatever datasource. */
  ghost predicate Share(p: Prometheus, a: seq<Dimension>, s: Option<int>, q: Prometheus, b: seq<Dimension>, t: Option<int>) {
    && Accepted(p, s) && Accepted(q, t)
    && exists ds, ds' ::
         ComputeSliFingerprint(ds, Single(p, a), s) == ComputeSliFingerprint(ds', Single(q, b), t)
  }

  /** Accepted availability SLIs share exactly when they read one datasource, their filters are one
      matcher with white space on the same sides of its operator, and the rest is the same but for
      white space and order. */
  lemma AvailabilityShareIff(ds: string, p: Prometheus, a: seq<Dimension>, s: Option<int>,
                             ds': string, q: Prometheus, b: seq<Dimension>, t: Option<int>)
    requires Accepted(p, s) && Accepted(q, t) && p.kind.Availability? && q.kind.Availability?
    ensures ComputeSliFingerprint(ds, Single(p, a), s) == ComputeSliFingerprint(ds', Single(q, b), t)
      <==> ds == ds' && SameButFilter(p, a, s, q, b, t)
           && SameMatcherText(p.goodEventsFilter.value, q.goodEventsFilter.value)
  {
    hide ComputeSliFingerprint, SameButFilter, SameMatcherText, NormalizeGoodEventsFilter, ParseMatcher, Trim;
    SameFingerprintIff(ds, p, a, s, ds', q, b, t);
    SameNormalFormIff(p.goodEventsFilter.value, q.goodEventsFilter.value);
  }

  lemma SharedParts(p: Prometheus, a: seq<Dimension>, s: Option<int>, q: Prometheus, b: seq<Dimension>, t: Option<int>)
    requires Share(p, a, s, q, b, t)
    ensures multiset(a) == multiset(b) && p.kind == q.kind && p.temporality == q.temporality
    ensures NormalizeMetric(p.metric) == NormalizeMetric(q.metric)
    ensures NormalizeGoodEventsFilter(p.goodEventsFilter) == NormalizeGoodEventsFilter(q.goodEventsFilter)
    ensures NormalizeCustom(p.custom) == NormalizeCustom(q.custom)
    ensures p.kind.Latency? ==>
      && p.perRange == q.perRange && p.bucketUnit == q.bucketUnit && s == t
      && (p.perRange ==> SortedBounds(BoundsOf(p)) == SortedBounds(BoundsOf(q)))
  {
    hide NormalizeMetric, NormalizeGoodEventsFilter, NormalizeCustom, SortedBounds, NormalizeDimensions,
         FormatLatencyBoundLe;
    SameNormalDimensions(a, b);
    if p.kind.Latency? { ThresholdFromText(s.value, t.value); }
  }

  lemma MetricIsTight(m: string)
    requires IsMetricName(m)
    ensures NormalizeMetric(Some(m)) == Some(m)
  {
    assert !IsSpace(m[0]) && !IsSpace(m[|m| - 1]);
    TrimTight(m);
  }

  lemma Untrimmed(e: Engine, store: Store, q: string)
    requires TrimInvariant(e)
    ensures e.custom(store, q) == e.custom(store, Trim(q))
  {
  }

  lemma CustomShares(e: Engine, store: Store, p: Prometheus, q: Prometheus, window: string, upgrade: Upgrade)
    requires p.kind.CustomExpr? && q.kind.CustomExpr? && p.custom.Some? && q.custom.Some?
    requires NormalizeCustom(p.custom) == NormalizeCustom(q.custom) && TrimInvariant(e) && Tight(window)
    ensures EvalRule(e, store, BuildSliEventQueries(p, [], None, window, upgrade))
         == EvalRule(e, store, BuildSliEventQueries(q, [], None, window, upgrade))
  {
    hide Trim, Substituted, HasToken, TrimInvariant;
    if p.custom.value.Raw? {
      var (x, y) := (p.custom.value.errorRatio, q.custom.value.errorRatio);
      SubstitutedTrim(x, window);
      SubstitutedTrim(y, window);
      Untrimmed(e, store, Substituted(x, window));
      Untrimmed(e, store, Substituted(y, window));
    } else {
      assert BuildSliEventQueries(p, [], None, window, upgrade)
          == BuildSliEventQueries(q, [], None, window, upgrade);
    }
  }

  /** Queries that evaluate alike on the store. */
  ghost predicate Alike(e: Engine, store: Store, x: Query, y: Query) { Eval(e, store, x) == Eval(e, store, y) }

  lemma AlikeSums(e: Engine, store: Store, fn: Fn, metric: string, ms: seq<Matcher>, ns: seq<Matcher>, window: string)
    requires SumOf(e, store, fn, metric, ms, window) == SumOf(e, store, fn, metric, ns, window)
    ensures Alike(e, store, Sum(fn, metric, ms, window), Sum(fn, metric, ns, window))
  {
  }

  lemma AlikeOrZero(e: Engine, store: Store, x: Query, y: Query)
    requires Alike(e, store, x, y)
    ensures Alike(e, store, OrZero(x), OrZero(y))
  {
  }

  lemma AlikeOrElse(e: Engine, store: Store, x: Query, y: Query, x': Query, y': Query)
    requires Alike(e, store, x, y) && Alike(e, store, x', y')
    ensures Alike(e, store, OrElse(x, x'), OrElse(y, y'))
  {
  }

  lemma AlikeRatios(e: Engine, store: Store, x: Query, y: Query, x': Query, y': Query)
    requires Alike(e, store, x, y) && Alike(e, store, x', y')
    ensures EvalRule(e, store, Some(Ratio(x, x'))) == EvalRule(e, store, Some(Ratio(y, y')))
  {
  }

  lemma AlikeOver(e: Engine, store: Store, fn: Fn, metric: string, a: seq<Dimension>, b: seq<Dimension>,
                  ms: seq<Matcher>, ns: seq<Matcher>, window: string)
    requires multiset(a) == multiset(b)
    requires forall s :: AcceptsAll(e, s, ms) <==> AcceptsAll(e, s, ns)
    ensures Alike(e, store, Sum(fn, metric, DimMatchers(a) + ms, window), Sum(fn, metric, DimMatchers(b) + ns, window))
    ensures Alike(e, store, Sum(fn, metric, DimMatchers(a), window), Sum(fn, metric, DimMatchers(b), window))
  {
    hide SumOf, AcceptsAll, DimMatchers, Alike;
    SameSum(e, store, fn, metric, a, b, ms, ns, window);
    SameSumPlain(e, store, fn, metric, a, b, window);
    AlikeSums(e, store, fn, metric, DimMatchers(a) + ms, DimMatchers(b) + ns, window);
    AlikeSums(e, store, fn, metric, DimMatchers(a), DimMatchers(b), window);
  }

  lemma AvailabilityShares(e: Engine, store: Store, p: Prometheus, a: seq<Dimension>, q: Prometheus, b: seq<Dimension>,
                           window: string, upgrade: Upgrade)
    requires p.kind.Availability? && q.kind.Availability? && Accepted(p, None) && Accepted(q, None)
    requires multiset(a) == multiset(b) && p.temporality == q.temporality
    requires NormalizeMetric(p.metric) == NormalizeMetric(q.metric)
    requires NormalizeGoodEventsFilter(p.goodEventsFilter) == NormalizeGoodEventsFilter(q.goodEventsFilter)
    ensures EvalRule(e, store, BuildSliEventQueries(p, a, None, window, upgrade))
         == EvalRule(e, store, BuildSliEventQueries(q, b, None, window, upgrade))
  {
    var (f, g, m) := (p.goodEventsFilter.value, q.goodEventsFilter.value, p.metric.value);
    hide NormalizeMetric, NormalizeGoodEventsFilter, EffectiveTemporality, FilterMatchers, EvalRule, Alike,
         IsMetricName, AcceptsFilter, AcceptsAll, DimMatchers;
    MetricIsTight(p.metric.value);
    MetricIsTight(q.metric.value);
    MetricNotEmpty(m);
    SameTemporality(p, q, a, b);
    var fn := if EffectiveTemporality(p, a) == Delta then SumOverTime else Rate;
    var (ms, ns) := (FilterMatchers(p.goodEventsFilter), FilterMatchers(q.goodEventsFilter));
    forall s ensures AcceptsAll(e, s, ms) <==> AcceptsAll(e, s, ns) {
      AcceptsFilters(e, s, f, g);
    }
    AlikeOver(e, store, fn, m, a, b, ms, ns, window);
    var (x, y) := (Sum(fn, m, DimMatchers(a) + ms, window), Sum(fn, m, DimMatchers(b) + ns, window));
    AlikeOrZero(e, store, x, y);
    AlikeRatios(e, store, OrZero(x), OrZero(y), Sum(fn, m, DimMatchers(a), window), Sum(fn, m, DimMatchers(b), window));
  }

  lemma MetricNotEmpty(m: string)
    requires IsMetricName(m)
    ensures m != ""
  {
  }

  lemma LatencyShares(e: Engine, store: Store, p: Prometheus, a: seq<Dimension>, q: Prometheus, b: seq<Dimension>,
                      metric: string, threshold: int, window: string)
    requires multiset(a) == multiset(b) && p.temporality == q.temporality
    requires p.perRange == q.perRange && p.bucketUnit == q.bucketUnit
    requires p.perRange ==> SortedBounds(BoundsOf(p)) == SortedBounds(BoundsOf(q))
    ensures EvalRule(e, store, LatencyQueries(p, metric, a, threshold, window))
         == EvalRule(e, store, LatencyQueries(q, metric, b, threshold, window))
  {
    hide EffectiveTemporality, EvalRule, Alike, SortedBounds, Histogram.PerRangeBoundsUnder, Histogram.AtOrUnder,
         EnsureBucketMetric, EnsureCountMetric, AcceptsAll, DimMatchers, BoundsOf;
    SameTemporality(p, q, a, b);
    if p.perRange { SameBounds(p, q, InUnit(threshold, p.bucketUnit)); }
    var fn := if EffectiveTemporality(p, a) == Delta then SumOverTime else Rate;
    var (bucket, count) := (EnsureBucketMetric(metric), EnsureCountMetric(metric));
    AlikeOver(e, store, fn, count, a, b, [], [], window);
    var (x', y') := (Sum(fn, count, DimMatchers(a), window), Sum(fn, count, DimMatchers(b), window));
    if fn == SumOverTime {
      GoodAlike(e, store, fn, bucket, a, b, LeOneOf(Histogram.AtOrUnder(Histogram.SpanBounds, threshold)), window, x', y');
    } else if p.perRange {
      var bounds := Histogram.PerRangeBoundsUnder(BoundsOf(p), InUnit(threshold, p.bucketUnit));
      GoodAlike(e, store, fn, bucket, a, b, LeOneOf(bounds), window, x', y');
    } else {
      AlikeOver(e, store, fn, bucket, a, b, [LeInf], [LeInf], window);
      x', y' := Sum(fn, bucket, DimMatchers(a) + [LeInf], window), Sum(fn, bucket, DimMatchers(b) + [LeInf], window);
      if p.bucketUnit.Some? {
        GoodAlike(e, store, fn, bucket, a, b, LeOneOf([InUnit(threshold, p.bucketUnit)]), window, x', y');
      } else {
        FallbackAlike(e, store, fn, bucket, a, b, threshold, window, x', y');
      }
    }
  }

  lemma GoodAlike(e: Engine, store: Store, fn: Fn, metric: string, a: seq<Dimension>, b: seq<Dimension>, le: Matcher,
                  window: string, x': Query, y': Query)
    requires multiset(a) == multiset(b) && Alike(e, store, x', y')
    ensures var (x, y) := (Sum(fn, metric, DimMatchers(a) + [le], window), Sum(fn, metric, DimMatchers(b) + [le], window));
      && EvalRule(e, store, Some(Ratio(x, x'))) == EvalRule(e, store, Some(Ratio(y, y')))
      && EvalRule(e, store, Some(Ratio(OrZero(x), x'))) == EvalRule(e, store, Some(Ratio(OrZero(y), y')))
  {
    hide EvalRule, Alike, AcceptsAll, DimMatchers;
    var (x, y) := (Sum(fn, metric, DimMatchers(a) + [le], window), Sum(fn, metric, DimMatchers(b) + [le], window));
    AlikeOver(e, store, fn, metric, a, b, [le], [le], window);
    AlikeOrZero(e, store, x, y);
    AlikeRatios(e, store, x, y, x', y');
    AlikeRatios(e, store, OrZero(x), OrZero(y), x', y');
  }

  lemma FallbackAlike(e: Engine, store: Store, fn: Fn, metric: string, a: seq<Dimension>, b: seq<Dimension>, t: int,
                      window: string, x': Query, y': Query)
    requires multiset(a) == multiset(b) && Alike(e, store, x', y')
    ensures var at := (dims: seq<Dimension>, le: int) => Sum(fn, metric, DimMatchers(dims) + [LeOneOf([le])], window);
      EvalRule(e, store, Some(Ratio(OrElse(at(a, t), at(a, t * 1000)), x')))
        == EvalRule(e, store, Some(Ratio(OrElse(at(b, t), at(b, t * 1000)), y')))
  {
    hide EvalRule, Alike, AcceptsAll, DimMatchers;
    var (u, v) := (LeOneOf([t]), LeOneOf([t * 1000]));
    AlikeOver(e, store, fn, metric, a, b, [u], [u], window);
    AlikeOver(e, store, fn, metric, a, b, [v], [v], window);
    var (x, y) := (Sum(fn, metric, DimMatchers(a) + [u], window), Sum(fn, metric, DimMatchers(b) + [u], window));
    var (z, w) := (Sum(fn, metric, DimMatchers(a) + [v], window), Sum(fn, metric, DimMatchers(b) + [v], window));
    AlikeOrElse(e, store, x, y, z, w);
    AlikeRatios(e, store, OrElse(x, z), OrElse(y, w), x', y');
  }

  /** Accepted SLIs with equal fingerprints have recording rules that evaluate alike on every metric
      store, whatever the window: despite permuted dimensions, white space, and the order of bounds. */
  lemma SameFingerprintSameRule(e: Engine, store: Store, p: Prometheus, a: seq<Dimension>, s: Option<int>,
                                q: Prometheus, b: seq<Dimension>, t: Option<int>,
                                window: string, upgrade: Upgrade)
    requires Share(p, a, s, q, b, t) && TrimInvariant(e) && Tight(window)
    ensures EvalRule(e, store, BuildSliEventQueries(p, a, s, window, upgrade))
         == EvalRule(e, store, BuildSliEventQueries(q, b, t, window, upgrade))
  {
    SharedParts(p, a, s, q, b, t);
    hide Share, NormalizeGoodEventsFilter, NormalizeCustom, SortedBounds, LatencyQueries, EvalRule,
         TrimInvariant, WindowCustomPair, Substituted, AcceptsFilter;
    match p.kind
    case CustomExpr => CustomShares(e, store, p, q, window, upgrade);
    case Availability => AvailabilityShares(e, store, p, a, q, b, window, upgrade);
    case Latency =>
      MetricIsTight(p.metric.value);
      MetricIsTight(q.metric.value);
      LatencyShares(e, store, p, a, q, b, p.metric.value, s.value, window);
  }

  lemma WindowsAreTight(window: string)
    requires window in RecordingWindows
    ensures Tight(window)
  {
  }

  /** So one recording group serves both in all seven windows. */
  lemma SharedGroupServesBoth(e: Engine, store: Store, p: Prometheus, a: seq<Dimension>, s: Option<int>,
                              q: Prometheus, b: seq<Dimension>, t: Option<int>,
                              upgrade: Upgrade)
    requires Share(p, a, s, q, b, t) && TrimInvariant(e)
    ensures forall window | window in RecordingWindows ::
      EvalRule(e, store, BuildSliEventQueries(p, a, s, window, upgrade))
        == EvalRule(e, store, BuildSliEventQueries(q, b, t, window, upgrade))
  {
    hide Share, BuildSliEventQueries, EvalRule, TrimInvariant, Tight;
    forall window | window in RecordingWindows
      ensures EvalRule(e, store, BuildSliEventQueries(p, a, s, window, upgrade))
           == EvalRule(e, store, BuildSliEventQueries(q, b, t, window, upgrade))
    {
      WindowsAreTight(window);
      SameFingerprintSameRule(e, store, p, a, s, q, b, t, window, upgrade);
    }
  }
}
