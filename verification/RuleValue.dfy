/** What the recording rules evaluate to: on a store that holds the events, or a histogram of the
    observed latencies, the ratio that the SLI promises. */
module RuleValue {
  import opened Options
  import opened Text
  import opened LeBounds
  import opened Fingerprint
  import opened SliQueries
  import opened FilterText
  import opened FingerprintSound
  import opened Histogram
  import opened Decimal

  // ---------- sums over a store ----------

  type Test = Series -> bool

  /** What the series that pass the test yield together. */
  function Total(store: Store, fn: Fn, window: string, p: Test): real {
    if store == [] then 0.0
    else (if p(store[0]) then store[0].value(fn, window) else 0.0) + Total(store[1..], fn, window, p)
  }

  predicate Any(store: Store, p: Test) { exists i | 0 <= i < |store| :: p(store[i]) }

  lemma {:induction false} TotalAlike(store: Store, fn: Fn, window: string, p: Test, q: Test)
    requires forall s | s in store :: p(s) == q(s)
    ensures Total(store, fn, window, p) == Total(store, fn, window, q)
    ensures Any(store, p) == Any(store, q)
  {
    if store != [] {
      assert forall s | s in store[1..] :: s in store;
      TotalAlike(store[1..], fn, window, p, q);
    }
    forall i | 0 <= i < |store| ensures p(store[i]) == q(store[i]) { assert store[i] in store; }
  }

  lemma {:induction false} TotalSplit(store: Store, fn: Fn, window: string, p: Test, q: Test, r: Test)
    requires forall s | s in store :: (r(s) <==> p(s) || q(s)) && !(p(s) && q(s))
    ensures Total(store, fn, window, r) == Total(store, fn, window, p) + Total(store, fn, window, q)
  {
    if store != [] {
      assert store[0] in store && forall s | s in store[1..] :: s in store;
      TotalSplit(store[1..], fn, window, p, q, r);
    }
  }

  lemma {:induction false} NothingTotal(store: Store, fn: Fn, window: string, p: Test)
    requires forall s | s in store :: !p(s)
    ensures Total(store, fn, window, p) == 0.0 && !Any(store, p)
  {
    if store != [] {
      assert store[0] in store && forall s | s in store[1..] :: s in store;
      NothingTotal(store[1..], fn, window, p);
    }
    forall i | 0 <= i < |store| ensures !p(store[i]) { assert store[i] in store; }
  }

  ghost function Chosen(e: Engine, metric: string, ms: seq<Matcher>): Test { s => Selected(e, s, metric, ms) }

  lemma {:induction false} SumIsTotal(e: Engine, store: Store, fn: Fn, metric: string, ms: seq<Matcher>, window: string)
    ensures SumOf(e, store, fn, metric, ms, window)
      == if Any(store, Chosen(e, metric, ms)) then Some(Total(store, fn, window, Chosen(e, metric, ms))) else None
  {
    hide Selected;
    var p := Chosen(e, metric, ms);
    if store != [] {
      SumIsTotal(e, store[1..], fn, metric, ms, window);
      assert Any(store, p) <==> p(store[0]) || Any(store[1..], p) by {
        forall i | 0 <= i < |store| ensures i > 0 ==> store[i] == store[1..][i - 1] {}
        if Any(store[1..], p) { var i :| 0 <= i < |store[1..]| && p(store[1..][i]); assert store[i + 1] == store[1..][i]; }
      }
      if !Any(store[1..], p) {
        forall s | s in store[1..] ensures !p(s) { var i :| 0 <= i < |store[1..]| && store[1..][i] == s; }
        NothingTotal(store[1..], fn, window, p);
      }
    }
  }

  // ---------- the series of a metric ----------

  predicate HasDims(s: Series, dims: seq<Dimension>) {
    forall i | 0 <= i < |dims| :: LabelOf(s, dims[i].name) == dims[i].value
  }

  /** The series of that name with those dimensions. */
  function Of(metric: string, dims: seq<Dimension>): Test {
    s => LabelOf(s, "__name__") == metric && HasDims(s, dims)
  }

  lemma DimsAccepted(e: Engine, s: Series, dims: seq<Dimension>)
    ensures AcceptsAll(e, s, DimMatchers(dims)) <==> HasDims(s, dims)
  {
    var ms := DimMatchers(dims);
    forall i | 0 <= i < |dims| ensures Accepts(e, s, ms[i]) <==> LabelOf(s, dims[i].name) == dims[i].value {}
    if AcceptsAll(e, s, ms) {
      forall i | 0 <= i < |dims| ensures LabelOf(s, dims[i].name) == dims[i].value { assert ms[i] in ms; }
    }
  }

  lemma ChosenIs(e: Engine, metric: string, dims: seq<Dimension>, ms: seq<Matcher>, s: Series)
    ensures Chosen(e, metric, DimMatchers(dims) + ms)(s) <==> Of(metric, dims)(s) && AcceptsAll(e, s, ms)
  {
    hide Accepts, DimMatchers;
    AcceptsJoined(e, s, DimMatchers(dims), ms);
    DimsAccepted(e, s, dims);
    assert Selected(e, s, metric, DimMatchers(dims) + ms)
      <==> LabelOf(s, "__name__") == metric && AcceptsAll(e, s, DimMatchers(dims) + ms);
  }

  lemma PlainIs(e: Engine, metric: string, dims: seq<Dimension>, s: Series)
    ensures Chosen(e, metric, DimMatchers(dims))(s) <==> Of(metric, dims)(s)
  {
    ChosenIs(e, metric, dims, [], s);
    assert DimMatchers(dims) + [] == DimMatchers(dims);
  }

  /** One minus the good over all; no sample without events. */
  function RatioOf(good: real, all: real): Option<real> {
    if all == 0.0 then None else Some(1.0 - good / all)
  }

  /** Which range function reads the metric, told without the generator. */
  predicate IsDelta(p: Prometheus, dims: seq<Dimension>) {
    p.temporality == Some(Delta) || (p.temporality.None? && exists i | 0 <= i < |dims| ::
      dims[i].name == "namespace" && dims[i].value == "span_derived")
  }

  lemma TemporalityIs(p: Prometheus, dims: seq<Dimension>)
    ensures EffectiveTemporality(p, dims) == Delta <==> IsDelta(p, dims)
  {
    if i :| 0 <= i < |dims| && dims[i].name == "namespace" && dims[i].value == "span_derived" {
      assert dims[i] == Dimension("namespace", "span_derived");
    }
  }

  function FnOf(p: Prometheus, dims: seq<Dimension>): Fn { if IsDelta(p, dims) then SumOverTime else Rate }

  // ---------- availability ----------

  /** The events the filter selects. */
  function GoodOf(e: Engine, metric: string, dims: seq<Dimension>, m: Parsed): Test {
    s => Of(metric, dims)(s) && e.test(m.op, LabelOf(s, m.name), m.literal)
  }

  lemma GoodChosen(e: Engine, metric: string, dims: seq<Dimension>, f: string, s: Series)
    requires AcceptsFilter(f)
    ensures Chosen(e, metric, DimMatchers(dims) + FilterMatchers(Some(f)))(s)
      <==> GoodOf(e, metric, dims, ParseMatcher(Trim(f)).value)(s)
  {
    hide ParseMatcher, Trim, DimMatchers;
    NotBlank(f);
    ChosenIs(e, metric, dims, FilterMatchers(Some(f)), s);
    assert FilterMatchers(Some(f)) == [Filter(Trim(f))];
    assert AcceptsAll(e, s, [Filter(Trim(f))]) <==> Accepts(e, s, Filter(Trim(f)));
  }

  /** An availability rule is one minus the events its filter selects over all events of the metric
      with its dimensions. */
  lemma AvailabilityValue(e: Engine, store: Store, p: Prometheus, dims: seq<Dimension>, t: Option<int>,
                          window: string, upgrade: Upgrade)
    requires p.kind.Availability? && Accepted(p, t)
    ensures var m := ParseMatcher(Trim(p.goodEventsFilter.value)).value;
      var all := Total(store, FnOf(p, dims), window, Of(p.metric.value, dims));
      var good := Total(store, FnOf(p, dims), window, GoodOf(e, p.metric.value, dims, m));
      EvalRule(e, store, BuildSliEventQueries(p, dims, t, window, upgrade)) == RatioOf(good, all)
  {
    var (f, metric, fn) := (p.goodEventsFilter.value, p.metric.value, FnOf(p, dims));
    var m := ParseMatcher(Trim(f)).value;
    hide ParseMatcher, Trim, DimMatchers, FilterMatchers, EffectiveTemporality, IsDelta, AcceptsFilter, SumOf, Total, Any,
         GoodOf, Of, Chosen, IsMetricName, EvalRule;
    TemporalityIs(p, dims);
    MetricNotEmpty(metric);
    var (ms, ns) := (DimMatchers(dims) + FilterMatchers(p.goodEventsFilter), DimMatchers(dims));
    SumIsTotal(e, store, fn, metric, ms, window);
    SumIsTotal(e, store, fn, metric, ns, window);
    forall s ensures Chosen(e, metric, ms)(s) == GoodOf(e, metric, dims, m)(s) { GoodChosen(e, metric, dims, f, s); }
    forall s ensures Chosen(e, metric, ns)(s) == Of(metric, dims)(s) { PlainIs(e, metric, dims, s); }
    TotalAlike(store, fn, window, Chosen(e, metric, ms), GoodOf(e, metric, dims, m));
    TotalAlike(store, fn, window, Chosen(e, metric, ns), Of(metric, dims));
    TotalOfNone(store, fn, window, Chosen(e, metric, ms));
    TotalOfNone(store, fn, window, Chosen(e, metric, ns));
    assert BuildSliEventQueries(p, dims, t, window, upgrade)
        == Some(Ratio(OrZero(Sum(fn, metric, ms, window)), Sum(fn, metric, ns, window)));
    RatioEvaluates(e, store, Sum(fn, metric, ms, window), Sum(fn, metric, ns, window));
  }

  lemma RatioEvaluates(e: Engine, store: Store, x: Query, y: Query)
    requires x.Sum? && y.Sum?
    ensures var (g, t) := (Eval(e, store, x), Eval(e, store, y));
      && EvalRule(e, store, Some(Ratio(x, y))) == (if g.None? || t.None? then None else RatioOf(g.value, t.value))
      && EvalRule(e, store, Some(Ratio(OrZero(x), y)))
         == (if t.None? then None else RatioOf(if g.Some? then g.value else 0.0, t.value))
    ensures Eval(e, store, x) == SumOf(e, store, x.fn, x.metric, x.matchers, x.window)
  {
    hide SumOf;
  }

  lemma TotalOfNone(store: Store, fn: Fn, window: string, p: Test)
    ensures !Any(store, p) ==> Total(store, fn, window, p) == 0.0
  {
    if !Any(store, p) {
      forall s | s in store ensures !p(s) { var i :| 0 <= i < |store| && store[i] == s; }
      NothingTotal(store, fn, window, p);
    }
  }

  /** Counts are never negative. */
  predicate Counts(store: Store, fn: Fn, window: string) { forall i | 0 <= i < |store| :: store[i].value(fn, window) >= 0.0 }

  lemma {:induction false} PartOfAll(store: Store, fn: Fn, window: string, p: Test, q: Test)
    requires Counts(store, fn, window) && forall s :: p(s) ==> q(s)
    ensures 0.0 <= Total(store, fn, window, p) <= Total(store, fn, window, q)
  {
    if store != [] {
      assert forall i | 0 <= i < |store[1..]| :: store[1..][i] == store[i + 1];
      PartOfAll(store[1..], fn, window, p, q);
      assert store[0].value(fn, window) >= 0.0;
    }
  }

  lemma Between(good: real, all: real)
    requires 0.0 <= good <= all
    ensures RatioOf(good, all).Some? ==> 0.0 <= RatioOf(good, all).value <= 1.0
  {
    if all > 0.0 { QuotientAtMostOne(good, all); }
  }

  lemma QuotientAtMostOne(x: real, y: real)
    requires 0.0 <= x <= y && y > 0.0
    ensures 0.0 <= x / y <= 1.0
  {
  }

  /** So an error ratio is one. */
  lemma AvailabilityIsRatio(e: Engine, store: Store, p: Prometheus, dims: seq<Dimension>, t: Option<int>,
                            window: string, upgrade: Upgrade)
    requires p.kind.Availability? && Accepted(p, t) && Counts(store, FnOf(p, dims), window)
    ensures var v := EvalRule(e, store, BuildSliEventQueries(p, dims, t, window, upgrade));
      v.Some? ==> 0.0 <= v.value <= 1.0
  {
    var m := ParseMatcher(Trim(p.goodEventsFilter.value)).value;
    hide ParseMatcher, Trim, EvalRule, BuildSliEventQueries, Total, IsDelta;
    AvailabilityValue(e, store, p, dims, t, window, upgrade);
    PartOfAll(store, FnOf(p, dims), window, GoodOf(e, p.metric.value, dims, m), Of(p.metric.value, dims));
    Between(Total(store, FnOf(p, dims), window, GoodOf(e, p.metric.value, dims, m)),
            Total(store, FnOf(p, dims), window, Of(p.metric.value, dims)));
  }

  // ---------- metric names ----------

  const Suffixes: set<string> := {"", "_bucket", "_count", "_sum", "_total"}

  predicate EndsWith(s: string, suffix: string) { |suffix| <= |s| && s[|s| - |suffix|..] == suffix }

  /** The name of a histogram without what its series append. */
  predicate IsBase(base: string) {
    !EndsWith(base, "_bucket") && !EndsWith(base, "_count") && !EndsWith(base, "_sum") && !EndsWith(base, "_total")
  }

  lemma Dropped(base: string, suffix: string)
    ensures DropSuffix(base + suffix, suffix) == base
  {
    assert (base + suffix)[|base|..] == suffix && (base + suffix)[..|base|] == base;
  }

  lemma NotDropped(s: string, suffix: string)
    requires !EndsWith(s, suffix)
    ensures DropSuffix(s, suffix) == s
  {
  }

  /** The suffixes part `k` letters from their ends. */
  lemma OtherSuffix(base: string, suffix: string, other: string, k: nat)
    requires k < |suffix| && k < |other| && suffix[|suffix| - 1 - k] != other[|other| - 1 - k]
    ensures DropSuffix(base + suffix, other) == base + suffix
  {
    var m := base + suffix;
    assert m[|m| - 1 - k] == suffix[|suffix| - 1 - k];
    assert |other| <= |m| ==> m[|m| - |other|..][|other| - 1 - k] == m[|m| - 1 - k];
    NotDropped(m, other);
  }

  /** Whichever series of a histogram an SLI names, the queries read its buckets and its count. */
  lemma NamesOf(base: string, suffix: string)
    requires IsBase(base) && suffix in Suffixes
    ensures EnsureBucketMetric(base + suffix) == base + "_bucket"
    ensures EnsureCountMetric(base + suffix) == base + "_count"
  {
    BaseOf(base, suffix);
  }

  lemma BaseOf(base: string, suffix: string)
    requires IsBase(base) && suffix in Suffixes
    ensures HistogramBase(base + suffix) == base
  {
    NotDropped(base, "_bucket");
    NotDropped(base, "_count");
    NotDropped(base, "_sum");
    NotDropped(base, "_total");
    hide DropSuffix, EndsWith, IsBase;
    if suffix == "_total" {
      Dropped(base, "_total");
    } else if suffix == "_count" {
      OtherSuffix(base, "_count", "_total", 0);
      Dropped(base, "_count");
    } else if suffix == "_sum" {
      OtherSuffix(base, "_sum", "_total", 0);
      OtherSuffix(base, "_sum", "_count", 0);
      Dropped(base, "_sum");
    } else if suffix == "_bucket" {
      OtherSuffix(base, "_bucket", "_total", 0);
      OtherSuffix(base, "_bucket", "_count", 1);
      OtherSuffix(base, "_bucket", "_sum", 0);
      Dropped(base, "_bucket");
    } else {
      assert suffix == "" && base + suffix == base;
    }
  }

  // ---------- the buckets of a histogram ----------

  /** One histogram over one window: the observed latencies behind its series. The scale is one for sums
      and one over the window for rates. */
  datatype Histo = Histo(base: string, dims: seq<Dimension>, bounds: seq<int>, obs: seq<nat>, scale: real)

  /** What a series that counts `n` observations yields. */
  function Yield(scale: real, n: nat): real { scale * n as real }

  /** A series of the bucket with that bound, its label spelled as its producer pleases. */
  ghost predicate At(s: Series, bound: int) {
    bound >= 0 && exists sp :: Spells(sp, bound) && LabelOf(s, "le") == TextOf(sp)
  }

  function Buckets(h: Histo): Test { Of(h.base + "_bucket", h.dims) }

  ghost function InBucket(h: Histo, bound: int): Test { s => Buckets(h)(s) && At(s, bound) }

  function Overflow(h: Histo): Test { s => Buckets(h)(s) && LabelOf(s, "le") == "+Inf" }

  /** The buckets are those of the layout and the overflow; each holds its count, and one without a
      series has nothing to count. */
  ghost predicate HoldsBuckets(store: Store, fn: Fn, window: string, h: Histo, cumulative: bool) {
    && IsLayout(h.bounds) && h.scale > 0.0
    && (forall s | s in store && Buckets(h)(s) ::
          LabelOf(s, "le") == "+Inf" || exists i | 0 <= i < |h.bounds| :: At(s, h.bounds[i]))
    && (forall i | 0 <= i < |h.bounds| :: Total(store, fn, window, InBucket(h, h.bounds[i]))
          == Yield(h.scale, if cumulative then Histogram.Cumulative(h.obs, h.bounds[i]) else InRange(h.obs, h.bounds, i)))
  }

  /** The series that counts all observations. */
  ghost predicate HoldsAll(store: Store, fn: Fn, window: string, h: Histo, all: Test) {
    Any(store, all) && Total(store, fn, window, all) == Yield(h.scale, |h.obs|)
  }

  // ---------- a label is of one bucket ----------

  lemma SameSpelling(sp: Spelling, sp': Spelling)
    requires IsPlain(sp) && IsPlain(sp') && TextOf(sp) == TextOf(sp')
    ensures sp == sp'
  {
    if sp.point && sp'.point { SplitAtPoint(sp.intPart, sp.frac, sp'.intPart, sp'.frac); }
    if sp.point && !sp'.point { NoPointInside(sp'.intPart, sp.intPart, sp.frac); }
    if !sp.point && sp'.point { NoPointInside(sp.intPart, sp'.intPart, sp'.frac); }
  }

  lemma AtOne(s: Series, b: int, c: int)
    requires At(s, b) && At(s, c)
    ensures b == c
  {
    var sp :| Spells(sp, b) && LabelOf(s, "le") == TextOf(sp);
    var sp' :| Spells(sp', c) && LabelOf(s, "le") == TextOf(sp');
    SameSpelling(sp, sp');
    DenotesOne(sp, b, c);
  }

  predicate StartsPlain(s: string) { s == "" || s[0] == '.' || IsDigit(s[0]) }

  lemma TextStarts(sp: Spelling)
    requires IsPlain(sp)
    ensures StartsPlain(TextOf(sp))
  {
  }

  lemma MatchStarts(p: Pattern, s: string)
    requires Digits(p.intPart) && Matches(p, s)
    ensures StartsPlain(s)
  {
  }

  /** The pattern of a bound does not match the overflow. */
  lemma InfNotMatched(b: nat)
    ensures !Matches(LeValuePattern(b), "+Inf")
  {
    hide NumText, Fixed, StripZeros, LeValuePattern, Matches;
    PatternOf(b);
    if Matches(LeValuePattern(b), "+Inf") { MatchStarts(LeValuePattern(b), "+Inf"); }
  }

  /** A bucket's series passes the generated matcher exactly when its bound is selected. */
  lemma LeSelects(e: Engine, s: Series, sel: seq<int>, bound: int)
    requires At(s, bound) && forall b | b in sel :: b >= 0
    ensures Accepts(e, s, LeOneOf(sel)) <==> bound in sel
  {
    var sp :| Spells(sp, bound) && LabelOf(s, "le") == TextOf(sp);
    SelectsByBound(sel, sp, bound);
  }

  lemma LeSkipsOverflow(e: Engine, s: Series, sel: seq<int>)
    requires LabelOf(s, "le") == "+Inf" && forall b | b in sel :: b >= 0
    ensures !Accepts(e, s, LeOneOf(sel))
  {
    forall b | b in sel ensures !Matches(LeValuePattern(b), "+Inf") { InfNotMatched(b); }
  }

  // ---------- selected buckets ----------

  /** Series of the first `n` buckets that are selected. */
  ghost function InFirst(h: Histo, sel: seq<int>, n: nat): Test
    requires n <= |h.bounds|
  {
    s => Buckets(h)(s) && exists i | 0 <= i < n :: h.bounds[i] in sel && At(s, h.bounds[i])
  }

  lemma Scaled(scale: real, x: nat, y: nat)
    ensures Yield(scale, x) + Yield(scale, y) == Yield(scale, x + y)
  {
  }

  lemma {:induction false} FirstTotal(store: Store, fn: Fn, window: string, h: Histo, sel: seq<int>, picked: seq<bool>, n: nat)
    requires HoldsBuckets(store, fn, window, h, false) && n <= |h.bounds| == |picked|
    requires forall i | 0 <= i < |picked| :: picked[i] <==> h.bounds[i] in sel
    ensures Total(store, fn, window, InFirst(h, sel, n)) == Yield(h.scale, SumPicked(h.obs, h.bounds, picked, n))
    ensures Any(store, InFirst(h, sel, n)) <==> exists i | 0 <= i < n :: picked[i] && There(store, h, i)
  {
    hide There, Of, At, InRange, Total, Any, InFirst, InBucket, Histogram.Ascending, Yield;
    if n == 0 {
      NoneFirst(store, fn, window, h, sel);
      NoReal(h.scale);
    } else {
      var b := h.bounds[n - 1];
      FirstTotal(store, fn, window, h, sel, picked, n - 1);
      FirstStep(h, sel, n);
      if picked[n - 1] {
        forall s ensures !(InFirst(h, sel, n - 1)(s) && InBucket(h, b)(s)) { FirstApart(h, sel, n, s); }
        TotalSplit(store, fn, window, InFirst(h, sel, n - 1), InBucket(h, b), InFirst(h, sel, n));
        Scaled(h.scale, SumPicked(h.obs, h.bounds, picked, n - 1), InRange(h.obs, h.bounds, n - 1));
      } else {
        TotalAlike(store, fn, window, InFirst(h, sel, n), InFirst(h, sel, n - 1));
      }
      AnyMore(store, h, sel, picked[n - 1], n);
    }
  }

  lemma NoReal(scale: real)
    ensures Yield(scale, 0) == 0.0
  {
  }

  /** The bucket has a series. */
  ghost predicate There(store: Store, h: Histo, i: nat)
    requires i < |h.bounds|
  {
    Any(store, InBucket(h, h.bounds[i]))
  }

  lemma AnyMore(store: Store, h: Histo, sel: seq<int>, picked: bool, n: nat)
    requires 0 < n <= |h.bounds| && (picked <==> h.bounds[n - 1] in sel)
    ensures Any(store, InFirst(h, sel, n)) <==> Any(store, InFirst(h, sel, n - 1)) || (picked && There(store, h, n - 1))
  {
    FirstStep(h, sel, n);
    hide InFirst, InBucket;
    var (p, q, r) := (InFirst(h, sel, n), InFirst(h, sel, n - 1), InBucket(h, h.bounds[n - 1]));
    if Any(store, q) { var k :| 0 <= k < |store| && q(store[k]); assert p(store[k]); }
    if picked && Any(store, r) { var k :| 0 <= k < |store| && r(store[k]); assert p(store[k]); }
  }

  lemma NoneFirst(store: Store, fn: Fn, window: string, h: Histo, sel: seq<int>)
    ensures Total(store, fn, window, InFirst(h, sel, 0)) == 0.0 && !Any(store, InFirst(h, sel, 0))
  {
    NothingTotal(store, fn, window, InFirst(h, sel, 0));
  }

  lemma FirstStep(h: Histo, sel: seq<int>, n: nat)
    requires 0 < n <= |h.bounds|
    ensures forall s :: InFirst(h, sel, n)(s) <==>
      InFirst(h, sel, n - 1)(s) || (h.bounds[n - 1] in sel && InBucket(h, h.bounds[n - 1])(s))
  {
    hide Of, At;
  }

  lemma FirstApart(h: Histo, sel: seq<int>, n: nat, s: Series)
    requires IsLayout(h.bounds) && 0 < n <= |h.bounds|
    ensures !(InFirst(h, sel, n - 1)(s) && InBucket(h, h.bounds[n - 1])(s))
  {
    hide Of, At;
    if InFirst(h, sel, n - 1)(s) && InBucket(h, h.bounds[n - 1])(s) {
      var i :| 0 <= i < n - 1 && h.bounds[i] in sel && At(s, h.bounds[i]);
      AtOne(s, h.bounds[i], h.bounds[n - 1]);
    }
  }

  /** The good query selects just the series of the selected buckets. */
  lemma LeChosen(e: Engine, store: Store, fn: Fn, window: string, h: Histo, cumulative: bool, sel: seq<int>)
    requires HoldsBuckets(store, fn, window, h, cumulative) && forall b | b in sel :: b >= 0
    ensures forall s | s in store ::
      Chosen(e, h.base + "_bucket", DimMatchers(h.dims) + [LeOneOf(sel)])(s) == InFirst(h, sel, |h.bounds|)(s)
  {
    hide Of, At, Accepts, DimMatchers, Total, Any, Chosen;
    var (name, le) := (h.base + "_bucket", LeOneOf(sel));
    forall s | s in store ensures Chosen(e, name, DimMatchers(h.dims) + [le])(s) == InFirst(h, sel, |h.bounds|)(s) {
      ChosenIs(e, name, h.dims, [le], s);
      assert AcceptsAll(e, s, [le]) <==> Accepts(e, s, le) by { assert le in [le]; }
      if Buckets(h)(s) {
        if LabelOf(s, "le") == "+Inf" {
          LeSkipsOverflow(e, s, sel);
          NoneAtInf(h, s);
        } else {
          var i :| 0 <= i < |h.bounds| && At(s, h.bounds[i]);
          LeSelects(e, s, sel, h.bounds[i]);
          forall j | 0 <= j < |h.bounds| && At(s, h.bounds[j]) ensures h.bounds[j] == h.bounds[i] {
            AtOne(s, h.bounds[i], h.bounds[j]);
          }
        }
      }
    }
  }

  lemma NoneAtInf(h: Histo, s: Series)
    requires LabelOf(s, "le") == "+Inf"
    ensures forall i | 0 <= i < |h.bounds| :: !At(s, h.bounds[i])
  {
    forall i | 0 <= i < |h.bounds| ensures !At(s, h.bounds[i]) {
      if At(s, h.bounds[i]) {
        var sp :| Spells(sp, h.bounds[i]) && LabelOf(s, "le") == TextOf(sp);
        TextStarts(sp);
      }
    }
  }

  // ---------- the value of a latency rule ----------

  /** The largest bound at or under the limit; -1 when there is none. */
  function Largest(bounds: seq<int>, limit: int): (r: int)
    ensures r == -1 || (0 <= r <= limit && r in bounds)
    ensures forall b | b in bounds && b <= limit :: b <= r
  {
    if bounds == [] then -1
    else
      assert bounds == [bounds[0]] + bounds[1..];
      var rest := Largest(bounds[1..], limit);
      if rest < bounds[0] <= limit then bounds[0] else rest
  }

  /** One minus the observations at or under the cut over all observations; no sample without any. */
  function SlowShare(obs: seq<nat>, cut: int): Option<real> {
    if obs == [] then None else Some(1.0 - Histogram.Cumulative(obs, cut) as real / |obs| as real)
  }

  lemma SlowIsRatio(obs: seq<nat>, cut: int)
    ensures SlowShare(obs, cut).Some? ==> 0.0 <= SlowShare(obs, cut).value <= 1.0
  {
    AtMostAll(obs, cut);
    if obs != [] { QuotientAtMostOne(Histogram.Cumulative(obs, cut) as real, |obs| as real); }
  }

  lemma Unscaled(scale: real, x: real, y: real)
    requires scale > 0.0 && y > 0.0
    ensures scale * y > 0.0 && (scale * x) / (scale * y) == x / y
  {
    var z := x / y;
    assert x == z * y;
    assert scale * x == z * (scale * y);
  }

  lemma YieldQuotient(scale: real, x: nat, y: nat)
    requires scale > 0.0 && y > 0
    ensures Yield(scale, y) > 0.0 && Yield(scale, x) / Yield(scale, y) == x as real / y as real
  {
    Unscaled(scale, x as real, y as real);
  }

  lemma FromCounts(scale: real, obs: seq<nat>, cut: int)
    requires scale > 0.0
    ensures RatioOf(Yield(scale, Histogram.Cumulative(obs, cut)), Yield(scale, |obs|)) == SlowShare(obs, cut)
  {
    hide Yield, Histogram.Cumulative;
    if obs != [] { YieldQuotient(scale, Histogram.Cumulative(obs, cut), |obs|); } else { NoReal(scale); }
  }

  lemma LastIsLargest(bounds: seq<int>, sel: seq<int>, cut: int)
    requires Histogram.Ascending(sel) && forall b :: b in sel <==> b in bounds && b <= cut
    requires forall b | b in bounds :: b >= 0
    ensures Largest(bounds, cut) == if sel == [] then -1 else sel[|sel| - 1]
  {
    LastIsIn(sel);
    var r := Largest(bounds, cut);
    if r != -1 { assert r in sel; }
  }

  /** Some bucket at or under the cut has a series. */
  ghost predicate Seen(store: Store, h: Histo, cut: int) {
    exists i: nat :: i < |h.bounds| && h.bounds[i] <= cut && There(store, h, i)
  }

  /** What the generated good query yields: the cumulative count at the largest selected bound; nothing,
      that is zero, where no selected bucket has a series. */
  lemma GoodIs(e: Engine, store: Store, fn: Fn, window: string, h: Histo, sel: seq<int>, cut: int)
    requires HoldsBuckets(store, fn, window, h, false) && Histogram.Ascending(sel)
    requires forall b :: b in sel <==> b in h.bounds && b <= cut
    ensures var good := Yield(h.scale, Histogram.Cumulative(h.obs, Largest(h.bounds, cut)));
      && Eval(e, store, Sum(fn, h.base + "_bucket", DimMatchers(h.dims) + [LeOneOf(sel)], window))
           == (if Seen(store, h, cut) then Some(good) else None)
      && (!Seen(store, h, cut) ==> good == 0.0)
  {
    hide HoldsBuckets, InFirst, Total, Any, DimMatchers, SumOf, SumPicked, Histogram.Cumulative, Chosen, Yield,
         Histogram.Ascending, Largest, There;
    PositiveScale(store, fn, window, h, false);
    var (name, ms, n) := (h.base + "_bucket", DimMatchers(h.dims) + [LeOneOf(sel)], |h.bounds|);
    var picked := seq(n, i requires 0 <= i < n => h.bounds[i] <= cut);
    PickedIs(h.bounds, picked, sel, cut);
    FirstTotal(store, fn, window, h, sel, picked, n);
    LeChosen(e, store, fn, window, h, false, sel);
    TotalAlike(store, fn, window, Chosen(e, name, ms), InFirst(h, sel, n));
    TotalOfNone(store, fn, window, InFirst(h, sel, n));
    SumIsTotal(e, store, fn, name, ms, window);
    CutIsCumulative(h.obs, h.bounds, picked, sel, cut);
    LastIsLargest(h.bounds, sel, cut);
    EvalSum(e, store, fn, name, ms, window);
  }

  lemma PickedIs(bounds: seq<int>, picked: seq<bool>, sel: seq<int>, cut: int)
    requires |picked| == |bounds| && forall i | 0 <= i < |bounds| :: picked[i] <==> bounds[i] <= cut
    requires forall b :: b in sel <==> b in bounds && b <= cut
    requires IsLayout(bounds)
    ensures forall i | 0 <= i < |picked| :: picked[i] <==> bounds[i] in sel
    ensures (forall b | b in sel :: b in bounds && b >= 0) && forall b | b in bounds :: b >= 0
  {
    forall i | 0 <= i < |bounds| ensures picked[i] <==> bounds[i] in sel { assert bounds[i] in bounds; }
  }

  lemma EvalSum(e: Engine, store: Store, fn: Fn, metric: string, ms: seq<Matcher>, window: string)
    ensures Eval(e, store, Sum(fn, metric, ms, window)) == SumOf(e, store, fn, metric, ms, window)
  {
  }

  lemma AllIs(e: Engine, store: Store, fn: Fn, window: string, h: Histo)
    requires HoldsAll(store, fn, window, h, Of(h.base + "_count", h.dims))
    ensures Eval(e, store, Sum(fn, h.base + "_count", DimMatchers(h.dims), window)) == Some(Yield(h.scale, |h.obs|))
  {
    hide Of, Total, Any, DimMatchers, SumOf, Chosen, Yield;
    var (name, ms) := (h.base + "_count", DimMatchers(h.dims));
    EvalSum(e, store, fn, name, ms, window);
    forall s ensures Chosen(e, name, ms)(s) == Of(name, h.dims)(s) { PlainIs(e, name, h.dims, s); }
    TotalAlike(store, fn, window, Chosen(e, name, ms), Of(name, h.dims));
    SumIsTotal(e, store, fn, name, ms, window);
  }

  /** What the results about latency share: the SLI names a series of the histogram. */
  predicate Reads(p: Prometheus, h: Histo, suffix: string) {
    p.kind.Latency? && IsBase(h.base) && suffix in Suffixes && p.metric == Some(h.base + suffix) && h.base + suffix != ""
  }

  /** A delta latency rule over the span-derived buckets is one minus the observations at or under the
      largest of its bounds that the threshold admits, over all observations; it has no value while no
      admitted bucket has a series. */
  lemma DeltaValue(e: Engine, store: Store, p: Prometheus, h: Histo, suffix: string, t: nat,
                       window: string, upgrade: Upgrade)
    requires Reads(p, h, suffix) && IsDelta(p, h.dims) && h.bounds == SpanBounds
    requires HoldsBuckets(store, SumOverTime, window, h, false)
    requires HoldsAll(store, SumOverTime, window, h, Of(h.base + "_count", h.dims))
    ensures EvalRule(e, store, BuildSliEventQueries(p, h.dims, Some(t), window, upgrade))
         == if Seen(store, h, t) then SlowShare(h.obs, Largest(SpanBounds, t)) else None
  {
    hide Seen, Of, HoldsBuckets, HoldsAll, IsBase, EvalRule, EffectiveTemporality, EnsureBucketMetric, EnsureCountMetric,
         DimMatchers, IsDelta, AtOrUnder, Histogram.Cumulative, RatioOf, SlowShare, Eval, Yield, Largest;
    NamesOf(h.base, suffix);
    TemporalityIs(p, h.dims);
    var sel := AtOrUnder(SpanBounds, t);
    SpanIsLayout();
    assert SpanBounds[0] in sel;
    hide SpanBounds;
    GoodIs(e, store, SumOverTime, window, h, sel, t);
    AllIs(e, store, SumOverTime, window, h);
    PositiveScale(store, SumOverTime, window, h, false);
    FromCounts(h.scale, h.obs, Largest(SpanBounds, t));
    RatioEvaluates(e, store, Sum(SumOverTime, h.base + "_bucket", DimMatchers(h.dims) + [LeOneOf(sel)], window),
                   Sum(SumOverTime, h.base + "_count", DimMatchers(h.dims), window));
  }

  lemma PositiveScale(store: Store, fn: Fn, window: string, h: Histo, cumulative: bool)
    requires HoldsBuckets(store, fn, window, h, cumulative)
    ensures h.scale > 0.0 && IsLayout(h.bounds)
  {
  }

  lemma SpanIsLayout()
    ensures IsLayout(SpanBounds) && SpanBounds[0] == 0
  {
  }

  /** A per-range latency rule likewise, its bounds being those discovered, in any order; it counts
      buckets without a series as zero, so an outage of everything fast reads as one. Without a bound
      that the tolerant threshold admits there is no query. */
  lemma PerRangeValue(e: Engine, store: Store, p: Prometheus, h: Histo, suffix: string, t: nat,
                       window: string, upgrade: Upgrade)
    requires Reads(p, h, suffix) && !IsDelta(p, h.dims) && p.perRange
    requires forall b :: b in BoundsOf(p) <==> b in h.bounds
    requires HoldsBuckets(store, Rate, window, h, false)
    requires HoldsAll(store, Rate, window, h, Of(h.base + "_count", h.dims))
    ensures var last := Largest(h.bounds, Reach(if p.bucketUnit == Some(Milliseconds) then t * 1000 else t));
      EvalRule(e, store, BuildSliEventQueries(p, h.dims, Some(t), window, upgrade))
        == if last == -1 then None else SlowShare(h.obs, last)
  {
    hide Seen, Of, HoldsBuckets, HoldsAll, IsBase, EvalRule, EffectiveTemporality, EnsureBucketMetric, EnsureCountMetric,
         DimMatchers, IsDelta, PerRangeBoundsUnder, Histogram.Cumulative, RatioOf, SlowShare, Eval, Reach, UnderTolerance, Yield, Largest;
    NamesOf(h.base, suffix);
    TemporalityIs(p, h.dims);
    var limit := InUnit(t, p.bucketUnit);
    var sel := PerRangeBoundsUnder(BoundsOf(p), limit);
    PositiveScale(store, Rate, window, h, false);
    forall b ensures b in sel <==> b in h.bounds && b <= Reach(limit) {
      ToleranceIs(b, limit);
      if b in h.bounds { assert b >= 0; }
    }
    LastIsLargest(h.bounds, sel, Reach(limit));
    if sel == [] {
      NoneEvaluates(e, store);
    } else {
      LastIsIn(sel);
      GoodIs(e, store, Rate, window, h, sel, Reach(limit));
      AllIs(e, store, Rate, window, h);
      FromCounts(h.scale, h.obs, Largest(h.bounds, Reach(limit)));
      RatioEvaluates(e, store, Sum(Rate, h.base + "_bucket", DimMatchers(h.dims) + [LeOneOf(sel)], window),
                     Sum(Rate, h.base + "_count", DimMatchers(h.dims), window));
    }
  }

  lemma NoneEvaluates(e: Engine, store: Store)
    ensures EvalRule(e, store, None) == None
  {
  }

  // ---------- cumulative buckets ----------

  lemma OverflowChosen(e: Engine, h: Histo, s: Series)
    ensures Chosen(e, h.base + "_bucket", DimMatchers(h.dims) + [LeInf])(s) <==> Overflow(h)(s)
  {
    hide Of, DimMatchers, Chosen;
    ChosenIs(e, h.base + "_bucket", h.dims, [LeInf], s);
    assert LeInf in [LeInf];
    assert AcceptsAll(e, s, [LeInf]) <==> LabelOf(s, "le") == "+Inf";
    assert Buckets(h)(s) == Of(h.base + "_bucket", h.dims)(s);
  }

  lemma OverflowIs(e: Engine, store: Store, fn: Fn, window: string, h: Histo)
    requires HoldsAll(store, fn, window, h, Overflow(h))
    ensures Eval(e, store, Sum(fn, h.base + "_bucket", DimMatchers(h.dims) + [LeInf], window)) == Some(Yield(h.scale, |h.obs|))
  {
    hide Overflow, Total, Any, DimMatchers, SumOf, Chosen, Yield;
    var (name, ms) := (h.base + "_bucket", DimMatchers(h.dims) + [LeInf]);
    EvalSum(e, store, fn, name, ms, window);
    forall s ensures Chosen(e, name, ms)(s) == Overflow(h)(s) { OverflowChosen(e, h, s); }
    TotalAlike(store, fn, window, Chosen(e, name, ms), Overflow(h));
    SumIsTotal(e, store, fn, name, ms, window);
  }

  lemma OnlyBucket(h: Histo, le: int, s: Series)
    ensures InFirst(h, [le], |h.bounds|)(s) <==> le in h.bounds && InBucket(h, le)(s)
  {
    hide Of, At;
    if le in h.bounds && InBucket(h, le)(s) {
      var i :| 0 <= i < |h.bounds| && h.bounds[i] == le;
      assert h.bounds[i] in [le];
    }
  }

  /** One bucket read by its bound. */
  lemma BucketIs(e: Engine, store: Store, fn: Fn, window: string, h: Histo, le: nat)
    requires HoldsBuckets(store, fn, window, h, true)
    ensures Eval(e, store, Sum(fn, h.base + "_bucket", DimMatchers(h.dims) + [LeOneOf([le])], window))
      == if le in h.bounds && Any(store, InBucket(h, le)) then Some(Yield(h.scale, Histogram.Cumulative(h.obs, le)))
         else None
  {
    hide InFirst, InBucket, Buckets, At, Total, Any, DimMatchers, SumOf, Chosen, Yield, Histogram.Cumulative, IsLayout,
         InRange;
    var (name, ms) := (h.base + "_bucket", DimMatchers(h.dims) + [LeOneOf([le])]);
    EvalSum(e, store, fn, name, ms, window);
    LeChosen(e, store, fn, window, h, true, [le]);
    SumIsTotal(e, store, fn, name, ms, window);
    forall s ensures InFirst(h, [le], |h.bounds|)(s) <==> le in h.bounds && InBucket(h, le)(s) { OnlyBucket(h, le, s); }
    if le in h.bounds {
      var i :| 0 <= i < |h.bounds| && h.bounds[i] == le;
      TotalAlike(store, fn, window, Chosen(e, name, ms), InBucket(h, le));
    } else {
      NothingTotal(store, fn, window, Chosen(e, name, ms));
    }
  }

  ghost predicate Has(store: Store, h: Histo, le: int) { le in h.bounds && Any(store, InBucket(h, le)) }

  /** The bucket at the threshold, in the unit of the layout; with no unit given, in seconds or else in
      milliseconds. */
  ghost function ReadBound(store: Store, p: Prometheus, h: Histo, t: nat): Option<nat> {
    var x := if p.bucketUnit == Some(Milliseconds) then t * 1000 else t;
    if Has(store, h, x) then Some(x)
    else if p.bucketUnit.None? && Has(store, h, t * 1000) then Some(t * 1000) else None
  }

  /** A latency rule over cumulative buckets is one minus the observations at or under the threshold
      over all observations; without a bucket at the threshold it has no value. */
  lemma CumulativeValue(e: Engine, store: Store, p: Prometheus, h: Histo, suffix: string, t: nat,
                       window: string, upgrade: Upgrade)
    requires Reads(p, h, suffix) && !IsDelta(p, h.dims) && !p.perRange
    requires HoldsBuckets(store, Rate, window, h, true) && HoldsAll(store, Rate, window, h, Overflow(h))
    ensures var at := ReadBound(store, p, h, t);
      EvalRule(e, store, BuildSliEventQueries(p, h.dims, Some(t), window, upgrade))
        == if at.None? then None else SlowShare(h.obs, at.value)
  {
    hide InBucket, Any, Overflow, HoldsBuckets, HoldsAll, IsBase, EvalRule, EffectiveTemporality, EnsureBucketMetric, EnsureCountMetric,
         DimMatchers, IsDelta, Histogram.Cumulative, RatioOf, SlowShare, Eval, Yield;
    NamesOf(h.base, suffix);
    TemporalityIs(p, h.dims);
    PositiveScale(store, Rate, window, h, true);
    OverflowIs(e, store, Rate, window, h);
    var (name, x) := (h.base + "_bucket", if p.bucketUnit == Some(Milliseconds) then t * 1000 else t);
    BucketIs(e, store, Rate, window, h, x);
    BucketIs(e, store, Rate, window, h, t * 1000);
    FromCounts(h.scale, h.obs, x);
    FromCounts(h.scale, h.obs, t * 1000);
    var (dims, inf) := (DimMatchers(h.dims), Sum(Rate, name, DimMatchers(h.dims) + [LeInf], window));
    var (one, other) := (Sum(Rate, name, dims + [LeOneOf([x])], window), Sum(Rate, name, dims + [LeOneOf([t * 1000])], window));
    RatioEvaluates(e, store, one, inf);
    ElseEvaluates(e, store, one, other, inf);
  }

  lemma ElseEvaluates(e: Engine, store: Store, x: Query, y: Query, z: Query)
    requires x.Sum? && y.Sum? && z.Sum?
    ensures var (g, h, t) := (Eval(e, store, x), Eval(e, store, y), Eval(e, store, z));
      var good := if g.Some? then g else h;
      EvalRule(e, store, Some(Ratio(OrElse(x, y), z))) == if good.None? || t.None? then None else RatioOf(good.value, t.value)
  {
    hide SumOf;
  }

  /** The largest bound under a threshold stands for the threshold exactly when nothing was observed
      between them. */
  lemma BoundForThreshold(bounds: seq<int>, obs: seq<nat>, t: nat)
    ensures SlowShare(obs, Largest(bounds, t)) == SlowShare(obs, t) <==> CountBetween(obs, Largest(bounds, t), t) == 0
  {
    hide CountBetween;
    var last := Largest(bounds, t);
    CountAdds(obs, -1, last, t);
    if obs != [] { SameQuotient(CountBetween(obs, -1, last), CountBetween(obs, -1, t), |obs|); } else { NoneBetween(last, t); }
  }

  lemma NoneBetween(lo: int, hi: int)
    ensures CountBetween([], lo, hi) == 0
  {
  }

  lemma SameQuotient(x: nat, y: nat, n: nat)
    requires n > 0
    ensures x as real / n as real == y as real / n as real <==> x == y
  {
    var (a, b, c) := (x as real, y as real, n as real);
    if a / c == b / c { assert a == (a / c) * c && b == (b / c) * c; }
  }

  // ---------- custom expressions ----------

  /** No token starts inside the part when a token follows it. */
  predicate Tokenless(part: string) { forall i | 0 <= i < |part| :: !TokenAt((part + Token)[i..]) }

  /** Up to its first token a query is kept, the token becomes the window, and so on with the rest. */
  lemma {:induction false} FirstToken(part: string, rest: string, window: string)
    requires Tokenless(part)
    ensures Substituted(part + (Token + rest), window) == part + (window + Substituted(rest, window))
  {
    if part == "" {
      assert part + (Token + rest) == Token + rest;
      assert (Token + rest)[..|Token|] == Token && (Token + rest)[|Token|..] == rest;
      assert TokenAt(Token + rest);
    } else {
      var q := part + (Token + rest);
      assert (part + Token)[0..] == part + Token;
      SameToken(part + Token, rest);
      assert part + Token + rest == q;
      assert q[1..] == part[1..] + (Token + rest);
      TokenlessTail(part);
      FirstToken(part[1..], rest, window);
      assert part == [part[0]] + part[1..];
      SubstitutedStep(q, window);
      hide Substituted, TokenAt;
      Regroup([part[0]], part[1..], window + Substituted(rest, window));
    }
  }

  lemma SameToken(s: string, rest: string)
    requires |s| >= |Token|
    ensures TokenAt(s + rest) <==> TokenAt(s)
  {
    assert (s + rest)[..|Token|] == s[..|Token|];
  }

  lemma TokenlessTail(part: string)
    requires part != "" && Tokenless(part)
    ensures Tokenless(part[1..])
  {
    hide TokenAt;
    assert (part + Token)[1..] == part[1..] + Token;
    forall i | 0 <= i < |part[1..]| ensures !TokenAt((part[1..] + Token)[i..]) {
      assert (part[1..] + Token)[i..] == (part + Token)[i + 1..];
    }
  }

  lemma {:induction false} NoToken(q: string, window: string)
    requires !HasToken(q)
    ensures Substituted(q, window) == q
    decreases |q|
  {
    if q != "" {
      NoToken(q[1..], window);
      assert q == [q[0]] + q[1..];
    }
  }

  /** One minus good over total, where both have a value. */
  function RatioOfValues(good: Option<real>, total: Option<real>): Option<real> {
    if good.None? || total.None? then None else RatioOf(good.value, total.value)
  }

  /** A custom pair is one minus the good query over the total, both trimmed and with the window in
      place of the token; a pair without any token is taken as it is, or as its upgrade. */
  lemma PairValue(e: Engine, store: Store, p: Prometheus, dims: seq<Dimension>, t: Option<int>, good: string, total: string,
                  window: string, upgrade: Upgrade)
    requires p.kind.CustomExpr? && p.custom == Some(Events(good, total))
    ensures var (x, y) := (Trim(good), Trim(total));
      EvalRule(e, store, BuildSliEventQueries(p, dims, t, window, upgrade))
        == if !HasToken(x) && !HasToken(y) && upgrade(x, y, window).Some? then
             RatioOfValues(e.custom(store, upgrade(x, y, window).value.0), e.custom(store, upgrade(x, y, window).value.1))
           else RatioOfValues(e.custom(store, Substituted(x, window)), e.custom(store, Substituted(y, window)))
  {
    hide Trim, Substituted, HasToken;
    var (x, y) := (Trim(good), Trim(total));
    if !HasToken(x) && !HasToken(y) {
      NoToken(x, window);
      NoToken(y, window);
    }
  }

  /** A raw expression is its own error ratio. */
  lemma RawValue(e: Engine, store: Store, p: Prometheus, dims: seq<Dimension>, t: Option<int>, query: string,
                 window: string, upgrade: Upgrade)
    requires p.kind.CustomExpr? && p.custom == Some(Raw(query))
    ensures EvalRule(e, store, BuildSliEventQueries(p, dims, t, window, upgrade)) == e.custom(store, Substituted(query, window))
  {
  }
}
