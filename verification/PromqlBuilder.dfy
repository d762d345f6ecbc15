/** The SLI query builder: a structured model, its PromQL text, and the best-effort parser that
    hydrates the model from text again. */
module PromqlBuilder {
  import opened Options
  import opened Text
  import opened DelimScan

  datatype MatchOp = Eq | Ne | Re | Nre

  datatype LabelFilter = LabelFilter(name: string, op: MatchOp, value: string)

  datatype AggOp = Sum | Avg | Min | Max | Count | NoAgg

  datatype MetricTerm = MetricTerm(metric: string, filters: seq<LabelFilter>)

  datatype Model = Model(metric: string, filters: seq<LabelFilter>, rate: bool, win: string,
                         agg: AggOp, groupBy: seq<string>, subtract: Option<MetricTerm>)

  /** The recording-window placeholder, also the default rate window. */
  const WINDOW_TOKEN: string := "{{.window}}"

  // ---------- printing ----------

  function OpText(op: MatchOp): string {
    match op case Eq => "=" case Ne => "!=" case Re => "=~" case Nre => "!~"
  }

  function AggText(agg: AggOp): string {
    match agg
    case Sum => "sum" case Avg => "avg" case Min => "min" case Max => "max" case Count => "count"
    case NoAgg => ""
  }

  function DoubleBackslashes(s: string): string {
    if s == "" then ""
    else (if s[0] == '\\' then "\\\\" else [s[0]]) + DoubleBackslashes(s[1..])
  }

  function EscapeQuotes(s: string): string {
    if s == "" then ""
    else (if s[0] == '"' then "\\\"" else [s[0]]) + EscapeQuotes(s[1..])
  }

  function Escape(value: string): string { EscapeQuotes(DoubleBackslashes(value)) }

  function QuoteValue(value: string): string { "\"" + Escape(value) + "\"" }

  function FilterText(f: LabelFilter): string { f.name + OpText(f.op) + QuoteValue(f.value) }

  function Join(parts: seq<string>, sep: string): string {
    if parts == [] then ""
    else if |parts| == 1 then parts[0]
    else parts[0] + sep + Join(parts[1..], sep)
  }

  /** Filters that still have no label are not printed. */
  function PrintedFilters(filters: seq<LabelFilter>): seq<string> {
    if filters == [] then []
    else (if filters[0].name == "" then [] else [FilterText(filters[0])]) + PrintedFilters(filters[1..])
  }

  function SerializeFilters(filters: seq<LabelFilter>): string {
    var parts := PrintedFilters(filters);
    if parts == [] then "" else "{" + Join(parts, ", ") + "}"
  }

  function SerializeTerm(metric: string, filters: seq<LabelFilter>, rate: bool, win: string,
                         agg: AggOp, groupBy: seq<string>): string {
    if metric == "" then "" else
      var selector := metric + SerializeFilters(filters);
      var inner := if rate then "rate(" + selector + "[" + win + "])" else selector;
      if agg == NoAgg then inner else
        var byClause := if groupBy == [] then "" else " by (" + Join(groupBy, ", ") + ")";
        AggText(agg) + byClause + "(" + inner + ")"
  }

  function SerializePromQL(m: Model): string {
    var main := SerializeTerm(m.metric, m.filters, m.rate, m.win, m.agg, m.groupBy);
    if main == "" then ""
    else if m.subtract.Some? && m.subtract.value.metric != "" then
      main + " - " +
      SerializeTerm(m.subtract.value.metric, m.subtract.value.filters, m.rate, m.win, m.agg, m.groupBy)
    else main
  }

  // ---------- completeness ----------

  predicate IsUnit(s: string) { s in {"ms", "s", "m", "h", "d", "w", "y"} }

  /** Digits followed by a duration unit. */
  predicate IsDuration(w: string) {
    exists n | 0 < n < |w| :: (forall i | 0 <= i < n :: IsDigit(w[i])) && IsUnit(w[n..])
  }

  predicate IsWindow(w: string) { w == WINDOW_TOKEN || IsDuration(w) }

  predicate FiltersComplete(filters: seq<LabelFilter>) {
    forall f | f in filters :: IsLabelName(f.name) && f.value != ""
  }

  predicate IsModelComplete(m: Model) {
    && IsMetricName(m.metric)
    && (m.rate ==> IsWindow(m.win))
    && (forall l | l in m.groupBy :: IsLabelName(l))
    && FiltersComplete(m.filters)
    && (m.subtract.Some? && m.subtract.value.metric != "" ==>
          IsMetricName(m.subtract.value.metric) && FiltersComplete(m.subtract.value.filters))
  }

  // ---------- parsing ----------

  /** Length of a literal's rest, up to and including its first unescaped quote; 0 without one. */
  function CloseLen(s: string): (n: nat)
    ensures n <= |s|
  {
    if s == "" then 0
    else if s[0] == '"' then 1
    else if s[0] == '\\' && |s| > 1 then
      var n := CloseLen(s[2..]); if n == 0 then 0 else n + 2
    else
      var n := CloseLen(s[1..]); if n == 0 then 0 else n + 1
  }

  /** Position just past the last quote; 0 without one. */
  function PastLastQuote(s: string): (n: nat)
    ensures n <= |s|
  {
    if s == "" then 0
    else if s[|s| - 1] == '"' then |s|
    else PastLastQuote(s[..|s| - 1])
  }

  /** Length of the literal that `s` starts with. When every later quote is escaped, the
      splitting pattern backtracks and lets the last one close the literal. */
  function LiteralLen(s: string): (n: nat)
    requires s != "" && s[0] == '"'
    ensures n <= |s|
  {
    var close := CloseLen(s[1..]);
    var n := if close != 0 then close else PastLastQuote(s[1..]);
    if n == 0 then 0 else n + 1
  }

  /** Length of the longest run of literals and characters other than comma and quote. */
  function PartLen(s: string): (n: nat)
    ensures n <= |s|
  {
    if s == "" || s[0] == ',' then 0
    else if s[0] == '"' then
      var n := LiteralLen(s); if n == 0 then 0 else n + PartLen(s[n..])
    else 1 + PartLen(s[1..])
  }

  /** The matcher block split on commas outside literals. */
  function Parts(s: string): seq<string> {
    if s == "" then []
    else
      var n := PartLen(s);
      if n == 0 then Parts(s[1..]) else [s[..n]] + Parts(s[n..])
  }

  function IndexOf(s: string, pat: string): (i: int)
    requires pat != ""
    ensures -1 <= i <= |s| - |pat| || i == -1
    ensures i >= 0 ==> pat <= s[i..]
    ensures forall j | 0 <= j < |s| :: pat <= s[j..] ==> 0 <= i <= j
  {
    if |s| < |pat| then -1
    else if pat <= s then 0
    else
      var i := IndexOf(s[1..], pat);
      assert forall j | 0 < j < |s| :: s[1..][j - 1..] == s[j..];
      if i == -1 then -1 else i + 1
  }

  /** The operator fits when a label name, and nothing else, stands before its first occurrence. */
  predicate OpFits(seg: string, op: MatchOp) {
    var i := IndexOf(seg, OpText(op));
    i > 0 && IsLabelName(seg[..i])
  }

  /** Longest operators are tried first. */
  function FindOp(seg: string): Option<MatchOp> {
    if OpFits(seg, Re) then Some(Re)
    else if OpFits(seg, Nre) then Some(Nre)
    else if OpFits(seg, Ne) then Some(Ne)
    else if OpFits(seg, Eq) then Some(Eq)
    else None
  }

  function UnescapeQuotes(s: string): string {
    if s == "" then ""
    else if |s| > 1 && s[0] == '\\' && s[1] == '"' then "\"" + UnescapeQuotes(s[2..])
    else [s[0]] + UnescapeQuotes(s[1..])
  }

  function HalveBackslashes(s: string): string {
    if s == "" then ""
    else if |s| > 1 && s[0] == '\\' && s[1] == '\\' then "\\" + HalveBackslashes(s[2..])
    else [s[0]] + HalveBackslashes(s[1..])
  }

  function Unescape(s: string): string { HalveBackslashes(UnescapeQuotes(s)) }

  /** Value between a text's first and last character, both of them quotes. */
  function Unquoted(text: string): Option<string> {
    if text == "" || text[0] != '"' || text[|text| - 1] != '"' then None
    else Some(Unescape(if |text| == 1 then "" else text[1..|text| - 1]))
  }

  function SplitAtOp(seg: string, op: MatchOp, idx: nat): Option<LabelFilter>
    requires idx + |OpText(op)| <= |seg|
  {
    var value := Unquoted(Trim(seg[idx + |OpText(op)|..]));
    if value.None? then None else Some(LabelFilter(Trim(seg[..idx]), op, value.value))
  }

  function ParsedFilter(seg: string): Option<LabelFilter> {
    match FindOp(seg)
    case None => None
    case Some(op) => SplitAtOp(seg, op, IndexOf(seg, OpText(op)))
  }

  datatype Segment = Blank | Malformed | Filter(f: LabelFilter)

  function Classify(part: string): Segment {
    var seg := Trim(part);
    if seg == "" then Blank
    else match ParsedFilter(seg) case None => Malformed case Some(f) => Filter(f)
  }

  function Classified(parts: seq<string>): seq<Segment> {
    seq(|parts|, i requires 0 <= i < |parts| => Classify(parts[i]))
  }

  /** All filters in order, or nothing when any segment is malformed. */
  function Collected(segs: seq<Segment>): Option<seq<LabelFilter>> {
    if segs == [] then Some([])
    else
      var rest := Collected(segs[..|segs| - 1]);
      match segs[|segs| - 1]
      case Blank => rest
      case Malformed => None
      case Filter(f) => if rest.None? then None else Some(rest.value + [f])
  }

  function ParsedFilters(body: string): Option<seq<LabelFilter>> {
    Collected(Classified(Parts(Trim(body))))
  }

  lemma {:induction false} MalformedPrefix(segs: seq<Segment>, n: nat)
    requires n <= |segs| && Collected(segs[..n]).None?
    ensures Collected(segs).None?
  {
    if n == |segs| {
      assert segs[..n] == segs;
    } else {
      assert segs[..|segs| - 1][..n] == segs[..n];
      MalformedPrefix(segs[..|segs| - 1], n);
    }
  }

  /** The loop of `parseFilters`. */
  method CollectFilters(segs: seq<Segment>) returns (r: Option<seq<LabelFilter>>)
    ensures r == Collected(segs)
  {
    var filters: seq<LabelFilter> := [];
    var i := 0;
    while i < |segs|
      invariant 0 <= i <= |segs|
      invariant Collected(segs[..i]) == Some(filters)
    {
      assert segs[..i + 1][..i] == segs[..i];
      match segs[i] {
        case Blank =>
        case Malformed =>
          MalformedPrefix(segs, i + 1);
          return None;
        case Filter(f) => filters := filters + [f];
      }
      i := i + 1;
    }
    assert segs[..i] == segs;
    return Some(filters);
  }

  method ParseFilters(body: string) returns (r: Option<seq<LabelFilter>>)
    ensures r == ParsedFilters(body)
  {
    r := CollectFilters(Classified(Parts(Trim(body))));
  }

  function ParsedBlock(block: string): Option<seq<LabelFilter>> {
    match Extracted(block, Brace)
    case None => None
    case Some(body) => ParsedFilters(body)
  }

  function ParsedSelector(text: string): Option<MetricTerm> {
    var t := Trim(text);
    var brace := IndexOfChar(t, '{');
    if brace == |t| then
      if IsMetricName(t) then Some(MetricTerm(t, [])) else None
    else
      var metric := Trim(t[..brace]);
      var filters := ParsedBlock(t[brace..]);
      if !IsMetricName(metric) || filters.None? then None
      else Some(MetricTerm(metric, filters.value))
  }

  datatype Term = Term(metric: string, filters: seq<LabelFilter>, rate: bool, win: string,
                       agg: AggOp, groupBy: seq<string>)

  /** The aggregation keyword `text` starts with, in any case. */
  function AggKeyword(text: string): AggOp {
    if StartsWithWord(text, "sum") then Sum
    else if StartsWithWord(text, "avg") then Avg
    else if StartsWithWord(text, "min") then Min
    else if StartsWithWord(text, "max") then Max
    else if StartsWithWord(text, "count") then Count
    else NoAgg
  }

  /** Body of the `by (...)` clause `text` starts with, and how much of `text` the clause and the
      white space after it take. */
  function ByClause(text: string): (r: Option<(string, nat)>)
    ensures r.Some? ==> r.value.1 <= |text|
  {
    if !StartsWithWord(text, "by") then None
    else
      var open := 2 + SkipSpaces(text[2..]);
      if open == |text| || text[open] != '(' then None
      else
        var body := open + 1;
        var close := body + IndexOfChar(text[body..], ')');
        if close == |text| then None
        else Some((text[body..close], close + 1 + SkipSpaces(text[close + 1..])))
  }

  function SplitCommas(s: string): seq<string> {
    var i := IndexOfChar(s, ',');
    if i == |s| then [s] else [s[..i]] + SplitCommas(s[i + 1..])
  }

  function TrimmedNonEmpty(parts: seq<string>): seq<string> {
    if parts == [] then []
    else (if Trim(parts[0]) == "" then [] else [Trim(parts[0])]) + TrimmedNonEmpty(parts[1..])
  }

  /** What follows the aggregation word, split into its clause and its argument. */
  function AfterWord(rest: string): (Option<(string, nat)>, string) {
    var afterSpace := rest[SkipSpaces(rest)..];
    var clause := ByClause(afterSpace);
    (clause, if clause.None? then afterSpace else afterSpace[clause.value.1..])
  }

  function GroupLabels(clause: Option<(string, nat)>): seq<string> {
    if clause.None? then [] else TrimmedNonEmpty(SplitCommas(clause.value.0))
  }

  /** Outer aggregation, grouping labels and remaining text. A keyword that no single balanced
      `(...)` follows is not an aggregation but part of a metric name. */
  function StripAggregation(text: string): (AggOp, seq<string>, string) {
    var agg := AggKeyword(text);
    if agg == NoAgg then (NoAgg, [], text)
    else
      var (clause, arg) := AfterWord(text[|AggText(agg)|..]);
      match Extracted(Trim(arg), Paren)
      case None => (NoAgg, [], text)
      case Some(inner) => (agg, GroupLabels(clause), Trim(inner))
  }

  /** The rate window at the very end of `t`, between brackets. */
  function WindowSuffix(t: string): (r: Option<string>)
    ensures r.Some? ==> |r.value| + 2 <= |t|
  {
    if |t| < 2 || t[|t| - 1] != ']' then None
    else
      var open := LastIndexOf(t, '[');
      if open == -1 then None
      else
        var w := t[open + 1..|t| - 1];
        if w == WINDOW_TOKEN || (w != "" && forall i | 0 <= i < |w| :: IsWord(w[i])) then Some(w) else None
  }

  function LastIndexOf(s: string, c: char): (i: int)
    ensures -1 <= i < |s|
    ensures i >= 0 ==> s[i] == c
    ensures forall j | i < j < |s| :: s[j] != c
  {
    if s == "" then -1
    else if s[|s| - 1] == c then |s| - 1
    else LastIndexOf(s[..|s| - 1], c)
  }

  /** Window and selector text of the inside of `rate(...)`. */
  function SplitWindow(t: string): Option<(bool, string, string)> {
    match WindowSuffix(t)
    case None => None
    case Some(w) => if !IsWindow(w) then None else Some((true, w, Trim(t[..|t| - |w| - 2])))
  }

  /** Rate flag, window and selector text; `None` for a malformed `rate(...)`. */
  function StripRate(text: string): Option<(bool, string, string)> {
    var open := if StartsWithWord(text, "rate") then 4 + SkipSpaces(text[4..]) else |text|;
    if open == |text| || text[open] != '(' then Some((false, WINDOW_TOKEN, text))
    else
      match Extracted(text[open..], Paren)
      case None => None
      case Some(body) => SplitWindow(Trim(body))
  }

  function ParsedTerm(input: string): Option<Term> {
    var text := Trim(input);
    if text == "" then None
    else
      var (agg, groupBy, inner) := StripAggregation(text);
      match StripRate(inner)
      case None => None
      case Some((rate, win, selectorText)) =>
        match ParsedSelector(selectorText)
        case None => None
        case Some(sel) => Some(Term(sel.metric, sel.filters, rate, win, agg, groupBy))
  }

  function SingleTerm(term: Option<Term>): Option<Model> {
    match term
    case None => None
    case Some(t) => Some(Model(t.metric, t.filters, t.rate, t.win, t.agg, t.groupBy, None))
  }

  /** Two terms make one model only when they share the whole aggregation shape. */
  function Difference(left: Option<Term>, right: Option<Term>): Option<Model> {
    if left.None? || right.None? then None
    else
      var l, r := left.value, right.value;
      if l.agg != r.agg || l.rate != r.rate || l.win != r.win || l.groupBy != r.groupBy then None
      else Some(Model(l.metric, l.filters, l.rate, l.win, l.agg, l.groupBy,
                      Some(MetricTerm(r.metric, r.filters))))
  }

  function ParsedPromQL(query: string): Option<Model> {
    var text := Trim(query);
    if text == "" then None
    else
      var minus := FirstMinus(text, 0);
      if minus == |text| then SingleTerm(ParsedTerm(text))
      else Difference(ParsedTerm(text[..minus]), ParsedTerm(text[minus + 1..]))
  }
}
