/** What the fingerprint of an SLI hashes. The hash of the canonical JSON is taken to be injective,
    so a fingerprint is its input. */
module Fingerprint {
  import opened Options
  import opened Text
  import opened LeBounds
  import opened Sorting
  import Histogram

  datatype Dimension = Dimension(name: string, value: string)

  datatype Unit = Seconds | Milliseconds

  datatype Temporality = Cumulative | Delta

  datatype Custom = Events(good: string, total: string) | Raw(errorRatio: string)

  datatype SliType = Availability | Latency | CustomExpr

  /** A Prometheus SLI. Bucket bounds are on the grid of a billionth of their unit. */
  datatype Prometheus = Prometheus(
    kind: SliType,
    calcMethod: string,
    metric: Option<string>,
    goodEventsFilter: Option<string>,
    periodLength: Option<string>,
    thresholdUnit: Option<Unit>,
    custom: Option<Custom>,
    temporality: Option<Temporality>,
    perRange: bool,
    bucketBounds: Option<seq<int>>,
    bucketUnit: Option<Unit>)

  datatype Sli = Composite | OpenSearch | Single(prom: Prometheus, dims: seq<Dimension>)

  // ---------- white space outside literals ----------

  /** The loop of the normalizer from one point on: inside a literal everything is kept, outside a
      run of white space becomes one blank. */
  function Squeezed(s: string, inLiteral: bool, lastWasSpace: bool): string
    decreases |s|
  {
    if s == "" then ""
    else if inLiteral then
      if s[0] == '\\' && |s| > 1 then [s[0], s[1]] + Squeezed(s[2..], true, false)
      else [s[0]] + Squeezed(s[1..], s[0] != '"', false)
    else if s[0] == '"' then [s[0]] + Squeezed(s[1..], true, false)
    else if IsSpace(s[0]) then (if lastWasSpace then "" else " ") + Squeezed(s[1..], false, true)
    else [s[0]] + Squeezed(s[1..], false, false)
  }

  function Collapsed(s: string): string { Trim(Squeezed(s, false, false)) }

  method CollapseWhitespaceOutsideLiterals(input: string) returns (r: string)
    ensures r == Collapsed(input)
  {
    hide Trim;
    var out := "";
    var inLiteral, lastWasSpaceOutside := false, false;
    var i := 0;
    assert input[0..] == input && "" + Squeezed(input, false, false) == Squeezed(input, false, false);
    while i < |input|
      invariant 0 <= i <= |input|
      invariant Squeezed(input, false, false)
             == out + Squeezed(input[i..], inLiteral, lastWasSpaceOutside)
    {
      var ch := input[i];
      ghost var rest := input[i..];
      assert rest[0] == ch && rest[1..] == input[i + 1..];
      if inLiteral {
        if ch == '\\' && i + 1 < |input| {
          assert rest[1] == input[i + 1] && rest[2..] == input[i + 2..];
          Joined(out, [ch, input[i + 1]], Squeezed(input[i + 2..], true, false));
          out := out + [ch, input[i + 1]];
          i := i + 1;
        } else {
          Joined(out, [ch], Squeezed(input[i + 1..], ch != '"', false));
          out := out + [ch];
          if ch == '"' { inLiteral := false; }
        }
        lastWasSpaceOutside := false;
      } else if ch == '"' {
        Joined(out, [ch], Squeezed(input[i + 1..], true, false));
        out := out + [ch];
        inLiteral, lastWasSpaceOutside := true, false;
      } else if IsSpace(ch) {
        Joined(out, if lastWasSpaceOutside then "" else " ", Squeezed(input[i + 1..], false, true));
        if !lastWasSpaceOutside {
          out := out + " ";
          lastWasSpaceOutside := true;
        }
      } else {
        Joined(out, [ch], Squeezed(input[i + 1..], false, false));
        out := out + [ch];
        lastWasSpaceOutside := false;
      }
      i := i + 1;
    }
    assert input[i..] == "" && out + "" == out;
    return Trim(out);
  }

  lemma Joined(a: string, b: string, c: string)
    ensures a + (b + c) == (a + b) + c && a + ("" + c) == a + c
  {
  }

  // ---------- normal forms ----------

  function NormalizeMetric(metric: Option<string>): Option<string> {
    if metric.None? || Trim(metric.value) == "" then None else Some(Trim(metric.value))
  }

  function NormalizeGoodEventsFilter(filter: Option<string>): Option<string> {
    if filter.None? then None
    else
      var c := Collapsed(Trim(filter.value));
      if c == "" then None
      else if |c| >= 2 && c[0] == '{' && c[|c| - 1] == '}' then
        var inner := Collapsed(Trim(c[1..|c| - 1]));
        if inner == "" then None else Some(inner)
      else Some(c)
  }

  function NormalizeCustom(custom: Option<Custom>): Option<Custom> {
    match custom
    case None => None
    case Some(Events(good, total)) => Some(Events(Trim(good), Trim(total)))
    case Some(Raw(q)) => Some(Raw(Trim(q)))
  }

  // ---------- sorted dimensions ----------

  /** By name, then by value. */
  predicate Leq(a: Dimension, b: Dimension) {
    if a.name != b.name then Before(a.name, b.name) else NotAfter(a.value, b.value)
  }

  lemma DimensionsAreOrdered()
    ensures TotalOrder(Leq)
  {
    hide Before;
    forall a: Dimension, b: Dimension
      ensures (Leq(a, b) || Leq(b, a)) && (Leq(a, b) && Leq(b, a) ==> a == b)
    {
      BeforeIsStrict(a.name, b.name);
      BeforeIsStrict(a.value, b.value);
    }
    forall a: Dimension, b: Dimension, c: Dimension | Leq(a, b) && Leq(b, c) ensures Leq(a, c) {
      LeqChains(a, b, c);
    }
  }

  lemma LeqChains(a: Dimension, b: Dimension, c: Dimension)
    requires Leq(a, b) && Leq(b, c)
    ensures Leq(a, c)
  {
    hide Before;
    BeforeIsStrict(a.name, c.name);
    BeforeIsStrict(a.name, b.name);
    if Before(a.name, b.name) && Before(b.name, c.name) { BeforeChains(a.name, b.name, c.name); }
    if Before(a.value, b.value) && Before(b.value, c.value) { BeforeChains(a.value, b.value, c.value); }
  }

  function NormalizeDimensions(dims: seq<Dimension>): (r: seq<Dimension>)
    ensures multiset(r) == multiset(dims)
  {
    Sort(dims, Leq)
  }

  // ---------- the hash input ----------

  const Version: string := "v1"

  /** Everything the hash covers; a field the SLI does not set is absent. */
  datatype FpInput = FpInput(
    version: string,
    datasource: string,
    kind: SliType,
    calcMethod: string,
    metric: Option<string>,
    goodEventsFilter: Option<string>,
    thresholdUnit: Option<Unit>,
    thresholdText: Option<string>,
    periodLength: Option<string>,
    custom: Option<Custom>,
    temporality: Option<Temporality>,
    perRangeBounds: Option<seq<int>>,
    bucketUnit: Option<Unit>,
    dims: seq<Dimension>)

  /** The distinct bounds in order. */
  function SortedBounds(bounds: seq<int>): (r: seq<int>)
    ensures Ascending(r) && forall b :: b in r <==> b in bounds
  {
    if bounds == [] then []
    else
      assert bounds == [bounds[0]] + bounds[1..];
      Histogram.Insert(bounds[0], SortedBounds(bounds[1..]))
  }

  predicate Ascending(s: seq<int>) { Histogram.Ascending(s) }

  /** `threshold` is the objective's latency threshold in nanoseconds. */
  function ComputeSliFingerprint(ds: string, sli: Sli, threshold: Option<int>): Option<FpInput> {
    if !sli.Single? then None
    else
      var p := sli.prom;
      var latency := p.kind.Latency?;
      Some(FpInput(
        Version, ds, p.kind, p.calcMethod,
        NormalizeMetric(p.metric),
        NormalizeGoodEventsFilter(p.goodEventsFilter),
        if latency then p.thresholdUnit else None,
        if latency && threshold.Some? then Some(FormatLatencyBoundLe(threshold.value)) else None,
        p.periodLength,
        NormalizeCustom(p.custom),
        p.temporality,
        if latency && p.perRange then Some(SortedBounds(BoundsOf(p))) else None,
        if latency then p.bucketUnit else None,
        NormalizeDimensions(sli.dims)))
  }

  function BoundsOf(p: Prometheus): seq<int> {
    if p.bucketBounds.Some? then p.bucketBounds.value else []
  }

  /** Two SLIs get the same dimensions into the hash exactly when they list the same ones. */
  lemma SameNormalDimensions(a: seq<Dimension>, b: seq<Dimension>)
    ensures NormalizeDimensions(a) == NormalizeDimensions(b) <==> multiset(a) == multiset(b)
  {
    DimensionsAreOrdered();
    SortAlike(a, b, Leq);
  }

  /** The fingerprint does not depend on the order in which dimensions are listed. */
  lemma PermutedDimensionsShare(ds: string, p: Prometheus, a: seq<Dimension>, b: seq<Dimension>, threshold: Option<int>)
    requires multiset(a) == multiset(b)
    ensures ComputeSliFingerprint(ds, Single(p, a), threshold) == ComputeSliFingerprint(ds, Single(p, b), threshold)
  {
    SameNormalDimensions(a, b);
  }

  /** Bounds that are listed in another order or repeated hash alike. */
  lemma {:induction false} AscendingIsUnique(a: seq<int>, b: seq<int>)
    requires Ascending(a) && Ascending(b) && forall x :: x in a <==> x in b
    ensures a == b
  {
    if a == [] || b == [] {
      Histogram.LastIsIn(a);
      Histogram.LastIsIn(b);
    } else {
      Histogram.AscendingTail(a);
      Histogram.AscendingTail(b);
      assert a == [a[0]] + a[1..] && b == [b[0]] + b[1..];
      assert a[0] in b && b[0] in a;
      assert a[0] == b[0];
      assert forall x :: x in a[1..] <==> x in a && x != a[0];
      assert forall x :: x in b[1..] <==> x in b && x != b[0];
      AscendingIsUnique(a[1..], b[1..]);
    }
  }

  function AtLeastZero(n: int): nat { if n <= 0 then 0 else n }

  /** On the grid the text that is hashed determines a threshold, but for negative ones. */
  lemma ThresholdFromText(n: int, m: int)
    ensures FormatLatencyBoundLe(n) == FormatLatencyBoundLe(m) <==> AtLeastZero(n) == AtLeastZero(m)
  {
    var (x, y) := (AtLeastZero(n), AtLeastZero(m));
    ClampedText(n);
    ClampedText(m);
    if FormatLatencyBoundLe(x) == FormatLatencyBoundLe(y) {
      SamePattern(x, y);
      hide *;
      var sp := SpellingOf(x);
      LePatternExact(sp, x);
      LePatternExact(sp, y);
      Histogram.DenotesOne(sp, x, y);
    }
  }

  lemma ClampedText(n: int)
    ensures FormatLatencyBoundLe(AtLeastZero(n)) == FormatLatencyBoundLe(n)
  {
  }

  lemma SamePattern(n: int, m: int)
    requires FormatLatencyBoundLe(n) == FormatLatencyBoundLe(m)
    ensures LeValuePattern(n) == LeValuePattern(m)
  {
    hide FormatLatencyBoundLe;
  }

  // ---------- when two SLIs share ----------

  predicate IsBlank(metric: Option<string>) { metric.None? || Trim(metric.value) == "" }

  /** Both missing, or the same but for the white space around them. */
  predicate SameMetric(m: Option<string>, n: Option<string>) {
    (IsBlank(m) && IsBlank(n)) || (!IsBlank(m) && !IsBlank(n) && Trim(m.value) == Trim(n.value))
  }

  predicate SameCustom(c: Option<Custom>, d: Option<Custom>) {
    || (c.None? && d.None?)
    || (c.Some? && d.Some? && match (c.value, d.value)
        case (Events(g, t), Events(g', t')) => Trim(g) == Trim(g') && Trim(t) == Trim(t')
        case (Raw(x), Raw(y)) => Trim(x) == Trim(y)
        case _ => false)
  }

  /** No two thresholds that are not negative are taken for one. */
  predicate SameThreshold(s: Option<int>, t: Option<int>) {
    (s.None? && t.None?) || (s.Some? && t.Some? && AtLeastZero(s.value) == AtLeastZero(t.value))
  }

  /** The layouts hold the same bounds, in whatever order and however often they are listed. */
  ghost predicate SameLayout(p: Prometheus, q: Prometheus) {
    && p.perRange == q.perRange && p.bucketUnit == q.bucketUnit
    && (p.perRange ==> forall b :: b in BoundsOf(p) <==> b in BoundsOf(q))
  }

  /** The same but for the filter, white space, and the order in which dimensions and bounds are
      listed; what only latency SLIs have is compared for those alone. */
  ghost predicate SameButFilter(p: Prometheus, a: seq<Dimension>, s: Option<int>,
                                q: Prometheus, b: seq<Dimension>, t: Option<int>) {
    && p.kind == q.kind && p.calcMethod == q.calcMethod && p.periodLength == q.periodLength
    && p.temporality == q.temporality && multiset(a) == multiset(b)
    && SameMetric(p.metric, q.metric) && SameCustom(p.custom, q.custom)
    && (p.kind.Latency? ==> p.thresholdUnit == q.thresholdUnit && SameThreshold(s, t) && SameLayout(p, q))
  }

  ghost predicate SameIndicator(p: Prometheus, a: seq<Dimension>, s: Option<int>,
                                q: Prometheus, b: seq<Dimension>, t: Option<int>) {
    && SameButFilter(p, a, s, q, b, t)
    && NormalizeGoodEventsFilter(p.goodEventsFilter) == NormalizeGoodEventsFilter(q.goodEventsFilter)
  }

  lemma SameSortedBounds(a: seq<int>, b: seq<int>)
    ensures SortedBounds(a) == SortedBounds(b) <==> forall x :: x in a <==> x in b
  {
    if forall x :: x in a <==> x in b {
      AscendingIsUnique(SortedBounds(a), SortedBounds(b));
    } else {
      var x :| !(x in a <==> x in b);
      assert x in SortedBounds(a) <==> x in a;
      assert x in SortedBounds(b) <==> x in b;
    }
  }

  /** Two SLIs get one fingerprint exactly when they read the same datasource and stand for one
      indicator. */
  lemma SameFingerprintIff(ds: string, p: Prometheus, a: seq<Dimension>, s: Option<int>,
                           ds': string, q: Prometheus, b: seq<Dimension>, t: Option<int>)
    ensures ComputeSliFingerprint(ds, Single(p, a), s) == ComputeSliFingerprint(ds', Single(q, b), t)
      <==> ds == ds' && SameIndicator(p, a, s, q, b, t)
  {
    hide NormalizeGoodEventsFilter, SortedBounds, NormalizeDimensions, FormatLatencyBoundLe, Trim, BoundsOf;
    SameNormalDimensions(a, b);
    SameSortedBounds(BoundsOf(p), BoundsOf(q));
    if s.Some? && t.Some? { ThresholdFromText(s.value, t.value); }
    assert NormalizeMetric(p.metric) == NormalizeMetric(q.metric) <==> SameMetric(p.metric, q.metric);
    assert NormalizeCustom(p.custom) == NormalizeCustom(q.custom) <==> SameCustom(p.custom, q.custom);
    hide NormalizeMetric, SameMetric, NormalizeCustom, SameCustom;
  }
}
