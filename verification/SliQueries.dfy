/** The queries the generator builds for an SLI, and what they evaluate to on a metric store. */
module SliQueries {
  import opened Options
  import opened Text
  import opened LeBounds
  import opened Fingerprint
  import Histogram

  // ---------- queries ----------

  datatype Matcher =
    | Equal(name: string, value: string)
    | Filter(text: string)
    | LeOneOf(bounds: seq<int>)
    | LeInf

  datatype Fn = Rate | SumOverTime

  datatype Query =
    | Sum(fn: Fn, metric: string, matchers: seq<Matcher>, window: string)
    | OrZero(q: Query)
    | OrElse(first: Query, second: Query)
    | Text(expr: string)

  datatype Queries = Ratio(good: Query, total: Query) | ErrorRatio(expr: string)

  // ---------- the window token ----------

  const Token: string := "{{.window}}"

  predicate TokenAt(q: string) { |q| >= |Token| && q[..|Token|] == Token }

  /** Every token replaced by the window. */
  function Substituted(q: string, window: string): string
    decreases |q|
  {
    if q == "" then ""
    else if TokenAt(q) then window + Substituted(q[|Token|..], window)
    else [q[0]] + Substituted(q[1..], window)
  }

  predicate HasToken(q: string)
    decreases |q|
  {
    q != "" && (TokenAt(q) || HasToken(q[1..]))
  }

  // ---------- the generator ----------

  /** `upgrade` rewrites the exact instant shapes of early span-derived drafts; it looks at nothing
      but the two trimmed queries and the window. */
  type Upgrade = (string, string, string) -> Option<(string, string)>

  function WindowCustomPair(good: string, total: string, window: string, upgrade: Upgrade): Queries {
    var (g, t) := (Trim(good), Trim(total));
    if HasToken(g) || HasToken(t) then
      Ratio(Text(Substituted(g, window)), Text(Substituted(t, window)))
    else
      match upgrade(g, t, window)
      case None => Ratio(Text(g), Text(t))
      case Some((ug, ut)) => Ratio(Text(ug), Text(ut))
  }

  function EffectiveTemporality(p: Prometheus, dims: seq<Dimension>): Temporality {
    if p.temporality.Some? then p.temporality.value
    else if Dimension("namespace", "span_derived") in dims then Delta
    else Cumulative
  }

  function DropSuffix(s: string, suffix: string): string {
    if |suffix| <= |s| && s[|s| - |suffix|..] == suffix then s[..|s| - |suffix|] else s
  }

  function HistogramBase(metric: string): string {
    DropSuffix(DropSuffix(DropSuffix(DropSuffix(metric, "_total"), "_count"), "_sum"), "_bucket")
  }

  function EnsureBucketMetric(metric: string): string { HistogramBase(metric) + "_bucket" }

  function EnsureCountMetric(metric: string): string { HistogramBase(metric) + "_count" }

  /** Thousand times the bound in seconds, for labels in milliseconds. */
  function InUnit(threshold: int, unit: Option<Unit>): int {
    if unit == Some(Milliseconds) then threshold * 1000 else threshold
  }

  function DimMatchers(dims: seq<Dimension>): (r: seq<Matcher>)
    ensures |r| == |dims| && forall i | 0 <= i < |dims| :: r[i] == Equal(dims[i].name, dims[i].value)
  {
    if dims == [] then [] else [Equal(dims[0].name, dims[0].value)] + DimMatchers(dims[1..])
  }

  function FilterMatchers(filter: Option<string>): seq<Matcher> {
    if filter.Some? && Trim(filter.value) != "" then [Filter(Trim(filter.value))] else []
  }

  function LatencyQueries(p: Prometheus, metric: string, dims: seq<Dimension>, threshold: int,
                          window: string): Option<Queries> {
    var matchers := DimMatchers(dims);
    var fn := if EffectiveTemporality(p, dims) == Delta then SumOverTime else Rate;
    var (bucket, count) := (EnsureBucketMetric(metric), EnsureCountMetric(metric));
    var total := Sum(fn, count, matchers, window);
    if fn == SumOverTime then
      var le := LeOneOf(Histogram.AtOrUnder(Histogram.SpanBounds, threshold));
      Some(Ratio(Sum(fn, bucket, matchers + [le], window), total))
    else if p.perRange then
      var bounds := Histogram.PerRangeBoundsUnder(BoundsOf(p), InUnit(threshold, p.bucketUnit));
      if bounds == [] then None
      else Some(Ratio(OrZero(Sum(fn, bucket, matchers + [LeOneOf(bounds)], window)), total))
    else
      var inf := Sum(fn, bucket, matchers + [LeInf], window);
      var at := (le: int) => Sum(fn, bucket, matchers + [LeOneOf([le])], window);
      if p.bucketUnit.Some? then Some(Ratio(at(InUnit(threshold, p.bucketUnit)), inf))
      else Some(Ratio(OrElse(at(threshold), at(threshold * 1000)), inf))
  }

  /** None where the SLI has no query. */
  function BuildSliEventQueries(p: Prometheus, dims: seq<Dimension>, threshold: Option<int>, window: string,
                                upgrade: Upgrade): Option<Queries> {
    match p.kind
    case CustomExpr =>
      (match p.custom
       case None => None
       case Some(Raw(q)) => Some(ErrorRatio(Substituted(q, window)))
       case Some(Events(good, total)) => Some(WindowCustomPair(good, total, window, upgrade)))
    case Availability =>
      if p.metric.None? || p.metric.value == "" then None
      else
        var matchers := DimMatchers(dims);
        var fn := if EffectiveTemporality(p, dims) == Delta then SumOverTime else Rate;
        Some(Ratio(
          OrZero(Sum(fn, p.metric.value, matchers + FilterMatchers(p.goodEventsFilter), window)),
          Sum(fn, p.metric.value, matchers, window)))
    case Latency =>
      if p.metric.None? || p.metric.value == "" then None
      else LatencyQueries(p, p.metric.value, dims, if threshold.Some? then threshold.value else 0, window)
  }

  // ---------- the good-events filter ----------

  datatype FilterOp = Eq | Neq | Match | NotMatch

  /** A label, an operator and a quoted literal as it stands in the text. */
  datatype Parsed = Parsed(name: string, op: FilterOp, literal: string)

  function WordLen(s: string): (n: nat)
    ensures n <= |s|
  {
    if s != "" && IsWord(s[0]) then 1 + WordLen(s[1..]) else 0
  }

  function OpText(op: FilterOp): string {
    match op case Eq => "=" case Neq => "!=" case Match => "=~" case NotMatch => "!~"
  }

  function OpAt(s: string): Option<FilterOp> {
    if |s| >= 2 && s[..2] == "=~" then Some(Match)
    else if |s| >= 2 && s[..2] == "!~" then Some(NotMatch)
    else if |s| >= 2 && s[..2] == "!=" then Some(Neq)
    else if s != "" && s[0] == '=' then Some(Eq)
    else None
  }

  /** The rest of a literal, whose closing quote is the last character. */
  predicate ClosesAtEnd(s: string)
    decreases |s|
  {
    s != "" && (
      if s[0] == '"' then |s| == 1
      else if s[0] == '\\' then |s| > 1 && ClosesAtEnd(s[2..])
      else ClosesAtEnd(s[1..]))
  }

  predicate IsLiteral(s: string) { s != "" && s[0] == '"' && ClosesAtEnd(s[1..]) }

  function ParseMatcher(s: string): Option<Parsed> {
    var n := WordLen(s);
    if n == 0 || !IsAlpha(s[0]) then None
    else
      var rest := TrimStart(s[n..]);
      var op :- OpAt(rest);
      var literal := TrimStart(rest[|OpText(op)|..]);
      if IsLiteral(literal) then Some(Parsed(s[..n], op, literal)) else None
  }

  predicate HasControlChar(s: string) { exists i | 0 <= i < |s| :: s[i] <= '\U{001F}' || s[i] == '\U{007F}' }

  /** What the validator lets through as a good-events filter. */
  predicate AcceptsFilter(f: string) {
    !HasControlChar(f) && ',' !in f && ParseMatcher(Trim(f)).Some?
  }

  // ---------- evaluation ----------

  /** One series: its labels and what each range function yields over a window. */
  datatype Series = Series(labels: map<string, string>, value: (Fn, string) -> real)

  type Store = seq<Series>

  /** What this model leaves open: the value test of a filter, and whole custom expressions. */
  datatype Engine = Engine(test: (FilterOp, string, string) -> bool, custom: (Store, string) -> Option<real>)

  function LabelOf(s: Series, name: string): string { if name in s.labels then s.labels[name] else "" }

  ghost predicate Accepts(e: Engine, s: Series, m: Matcher) {
    match m
    case Equal(name, value) => LabelOf(s, name) == value
    case Filter(text) =>
      var p := ParseMatcher(text);
      p.Some? && e.test(p.value.op, LabelOf(s, p.value.name), p.value.literal)
    case LeOneOf(bounds) => exists b | b in bounds :: Matches(LeValuePattern(b), LabelOf(s, "le"))
    case LeInf => LabelOf(s, "le") == "+Inf"
  }

  ghost predicate Selected(e: Engine, s: Series, metric: string, matchers: seq<Matcher>) {
    LabelOf(s, "__name__") == metric && forall m | m in matchers :: Accepts(e, s, m)
  }

  /** Sum of the selected series; nothing when none is selected. */
  ghost function SumOf(e: Engine, store: Store, fn: Fn, metric: string, matchers: seq<Matcher>, window: string): Option<real> {
    if store == [] then None
    else
      var rest := SumOf(e, store[1..], fn, metric, matchers, window);
      if Selected(e, store[0], metric, matchers) then
        Some(store[0].value(fn, window) + (if rest.Some? then rest.value else 0.0))
      else rest
  }

  ghost function Eval(e: Engine, store: Store, q: Query): Option<real> {
    match q
    case Sum(fn, metric, matchers, window) => SumOf(e, store, fn, metric, matchers, window)
    case OrZero(q) => var v := Eval(e, store, q); if v.Some? then v else Some(0.0)
    case OrElse(a, b) => var v := Eval(e, store, a); if v.Some? then v else Eval(e, store, b)
    case Text(expr) => e.custom(store, expr)
  }

  /** One minus good over total; no sample when either is missing or the total is zero. */
  ghost function EvalRule(e: Engine, store: Store, queries: Option<Queries>): Option<real> {
    match queries
    case None => None
    case Some(ErrorRatio(expr)) => e.custom(store, expr)
    case Some(Ratio(good, total)) =>
      var (g, t) := (Eval(e, store, good), Eval(e, store, total));
      if g.None? || t.None? || t.value == 0.0 then None else Some(1.0 - g.value / t.value)
  }
}
