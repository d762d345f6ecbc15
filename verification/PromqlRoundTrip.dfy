/** The printer and the parser of the query builder undo each other. */
module PromqlRoundTrip {
  import opened Options
  import opened Text
  import opened DelimScan
  import opened PromqlBuilder
  import opened PromqlLiterals

  // ---------- text that the top-level scans see through ----------

  /** Every dash of `s` is inside a literal. */
  ghost predicate DashesQuoted(s: string) {
    && Run(Both, Start, s).mode == Out
    && forall i {:trigger At(Both, Start, s, i)} | 0 <= i < |s| && s[i] == '-' ::
         At(Both, Start, s, i).mode != Out
  }

  ghost predicate Piece(s: string) { Safe(Paren, s) && Safe(Both, s) && DashesQuoted(s) }

  lemma DashesConcat(a: string, b: string)
    requires DashesQuoted(a) && DashesQuoted(b)
    ensures DashesQuoted(a + b)
  {
    var d := Run(Both, Start, a).depth;
    AtRight(Both, Start, a, b, |b|);
    AtShift(Both, Start, d, b, |b|);
    forall i | 0 <= i < |a + b| && (a + b)[i] == '-'
      ensures At(Both, Start, a + b, i).mode != Out
    {
      if i < |a| {
        AtLeft(Both, Start, a, b, i);
      } else {
        AtRight(Both, Start, a, b, i - |a|);
        AtShift(Both, Start, d, b, i - |a|);
      }
    }
  }

  lemma PieceConcat(a: string, b: string)
    requires Piece(a) && Piece(b)
    ensures Piece(a + b)
  {
    SafeConcat(Paren, a, b);
    SafeConcat(Both, a, b);
    DashesConcat(a, b);
  }

  predicate IsPlainChar(c: char) {
    c != '"' && c != '(' && c != ')' && c != '{' && c != '}' && c != '-'
  }

  predicate IsPlain(s: string) { forall i | 0 <= i < |s| :: IsPlainChar(s[i]) }

  lemma PlainPiece(s: string)
    requires IsPlain(s)
    ensures Piece(s) && Safe(Brace, s)
  {
    InertSafe(Paren, s);
    InertSafe(Brace, s);
    InertSafe(Both, s);
  }

  lemma LiteralPiece(v: string)
    ensures Piece(QuoteValue(v)) && Safe(Brace, QuoteValue(v))
  {
    LiteralSafe(Paren, v);
    LiteralSafe(Brace, v);
    LiteralSafe(Both, v);
  }

  lemma OneCharDashes(c: char)
    requires c != '-' && c != '"'
    ensures DashesQuoted([c])
  {
    RunOne(Both, Start, c);
  }

  lemma ParenPiece(s: string)
    requires Piece(s)
    ensures Piece("(" + s + ")")
  {
    hide Safe, DashesQuoted;
    WrapSafe(Paren, '(', s, ')');
    WrapSafe(Both, '(', s, ')');
    OneCharDashes('(');
    OneCharDashes(')');
    DashesConcat("(", s);
    DashesConcat("(" + s, ")");
  }

  lemma BracePiece(o: char, s: string, c: char)
    requires Piece(s) && o == '{' && c == '}'
    ensures Piece([o] + s + [c])
  {
    hide Safe, DashesQuoted;
    InertSafe(Paren, "{");
    InertSafe(Paren, "}");
    SafeConcat(Paren, "{", s);
    SafeConcat(Paren, "{" + s, "}");
    WrapSafe(Both, '{', s, '}');
    OneCharDashes('{');
    OneCharDashes('}');
    DashesConcat("{", s);
    DashesConcat("{" + s, "}");
  }

  // ---------- matcher blocks ----------

  ghost predicate Named(filters: seq<LabelFilter>) {
    forall f | f in filters :: IsLabelName(f.name)
  }

  lemma FilterPiece(f: LabelFilter)
    requires IsLabelName(f.name)
    ensures Piece(FilterText(f)) && Safe(Brace, FilterText(f))
  {
    var head := f.name + OpText(f.op);
    assert IsPlain(head) by {
      assert forall i | 0 <= i < |f.name| :: head[i] == f.name[i] && IsWord(f.name[i]);
    }
    PlainPiece(head);
    LiteralPiece(f.value);
    PieceConcat(head, QuoteValue(f.value));
    SafeConcat(Brace, head, QuoteValue(f.value));
  }

  /** The printed filters after the first, each with its separator. */
  function Tail(filters: seq<LabelFilter>): string {
    if filters == [] then "" else ", " + FilterText(filters[0]) + Tail(filters[1..])
  }

  function Body(filters: seq<LabelFilter>): string
    requires filters != []
  {
    FilterText(filters[0]) + Tail(filters[1..])
  }

  lemma NonEmptyName(name: string)
    requires IsLabelName(name)
    ensures name != ""
  {
  }

  lemma JoinCons(first: string, rest: seq<string>)
    ensures Join([first] + rest, ", ") == first + (if rest == [] then "" else ", " + Join(rest, ", "))
  {
    assert ([first] + rest)[1..] == rest;
  }

  lemma {:induction false} JoinIsBody(filters: seq<LabelFilter>)
    requires Named(filters) && filters != []
    ensures PrintedFilters(filters) != [] && Join(PrintedFilters(filters), ", ") == Body(filters)
  {
    hide FilterText, IsLabelName, Join;
    var first, rest := FilterText(filters[0]), filters[1..];
    assert filters[0] in filters && IsLabelName(filters[0].name);
    NonEmptyName(filters[0].name);
    assert PrintedFilters(filters) == [first] + PrintedFilters(rest);
    JoinCons(first, PrintedFilters(rest));
    if rest == [] {
      assert first + "" == first;
    } else {
      JoinIsBody(rest);
      assert Tail(rest) == ", " + FilterText(rest[0]) + Tail(rest[1..]);
    }
  }

  lemma {:induction false} TailPiece(filters: seq<LabelFilter>)
    requires Named(filters)
    ensures Piece(Tail(filters)) && Safe(Brace, Tail(filters))
  {
    if filters == [] {
      PlainPiece("");
    } else {
      assert filters[0] in filters;
      PlainPiece(", ");
      FilterPiece(filters[0]);
      TailPiece(filters[1..]);
      PieceConcat(", ", FilterText(filters[0]));
      SafeConcat(Brace, ", ", FilterText(filters[0]));
      PieceConcat(", " + FilterText(filters[0]), Tail(filters[1..]));
      SafeConcat(Brace, ", " + FilterText(filters[0]), Tail(filters[1..]));
    }
  }

  lemma BodyPiece(filters: seq<LabelFilter>)
    requires Named(filters) && filters != []
    ensures Piece(Body(filters)) && Safe(Brace, Body(filters)) && Tight(Body(filters))
  {
    assert filters[0] in filters;
    FilterPiece(filters[0]);
    TailPiece(filters[1..]);
    PieceConcat(FilterText(filters[0]), Tail(filters[1..]));
    SafeConcat(Brace, FilterText(filters[0]), Tail(filters[1..]));
    FilterParses(filters[0]);
    TailEnd(filters[1..]);
  }

  lemma {:induction false} TailEnd(filters: seq<LabelFilter>)
    ensures Tail(filters) == "" || Tail(filters)[|Tail(filters)| - 1] == '"'
    ensures Tail(filters) == "" || Tail(filters)[0] == ','
  {
    if filters != [] {
      TailEnd(filters[1..]);
      var t := FilterText(filters[0]);
      assert t[|t| - 1] == '"';
    }
  }

  function FilterSegs(filters: seq<LabelFilter>): seq<Segment> {
    seq(|filters|, i requires 0 <= i < |filters| => Filter(filters[i]))
  }

  lemma {:induction false} CollectedSegs(filters: seq<LabelFilter>)
    ensures Collected(FilterSegs(filters)) == Some(filters)
  {
    if filters != [] {
      var n := |filters| - 1;
      CollectedSegs(filters[..n]);
      assert FilterSegs(filters)[..n] == FilterSegs(filters[..n]);
      assert filters == filters[..n] + [filters[n]];
    }
  }

  lemma FirstPart(pad: string, f: LabelFilter, rest: string)
    requires IsLabelName(f.name) && (rest == "" || rest[0] == ',') && (pad == "" || pad == " ")
    ensures Parts(pad + FilterText(f) + rest) == [pad + FilterText(f)] + Parts(rest)
  {
    var part := pad + FilterText(f);
    PartLenFilter(f, rest);
    PartLenPlain(pad, FilterText(f) + rest);
    assert part + rest == pad + (FilterText(f) + rest);
    FilterParses(f);
    PartsHead(part, rest);
  }

  lemma PartsHead(part: string, rest: string)
    requires part != "" && PartLen(part + rest) == |part|
    ensures Parts(part + rest) == [part] + Parts(rest)
  {
    assert (part + rest)[..|part|] == part && (part + rest)[|part|..] == rest;
  }

  lemma PartClassified(pad: string, f: LabelFilter)
    requires IsLabelName(f.name) && (pad == "" || pad == " ")
    ensures Classify(pad + FilterText(f)) == Filter(f)
  {
    FilterParses(f);
    TrimPadded(pad, FilterText(f), "");
    assert pad + FilterText(f) + "" == pad + FilterText(f);
  }

  lemma {:induction false} TailParts(filters: seq<LabelFilter>)
    requires Named(filters)
    ensures Classified(Parts(Tail(filters))) == FilterSegs(filters)
  {
    if filters != [] {
      assert filters[0] in filters;
      var rest := Tail(filters[1..]);
      var s := Tail(filters);
      assert s[0] == ',' && s[1..] == " " + FilterText(filters[0]) + rest;
      TailEnd(filters[1..]);
      FirstPart(" ", filters[0], rest);
      PartClassified(" ", filters[0]);
      assert PartLen(s) == 0;
      TailParts(filters[1..]);
      ClassifiedCons(" " + FilterText(filters[0]), Parts(rest), filters);
    }
  }

  lemma ClassifiedCons(part: string, parts: seq<string>, filters: seq<LabelFilter>)
    requires filters != [] && Classify(part) == Filter(filters[0])
    requires Classified(parts) == FilterSegs(filters[1..])
    ensures Classified([part] + parts) == FilterSegs(filters)
  {
    hide Classify;
    assert |parts| == |Classified(parts)| == |filters| - 1;
    forall i | 0 <= i < |filters| ensures Classify(([part] + parts)[i]) == Filter(filters[i]) {
      if i > 0 { assert Classified(parts)[i - 1] == FilterSegs(filters[1..])[i - 1]; }
    }
  }

  lemma BodyParts(filters: seq<LabelFilter>)
    requires Named(filters) && filters != []
    ensures Classified(Parts(Body(filters))) == FilterSegs(filters)
  {
    assert filters[0] in filters;
    var first, rest := FilterText(filters[0]), Tail(filters[1..]);
    TailEnd(filters[1..]);
    FirstPart("", filters[0], rest);
    PartClassified("", filters[0]);
    assert "" + first == first;
    TailParts(filters[1..]);
    ClassifiedCons(first, Parts(rest), filters);
  }

  lemma BodyParses(filters: seq<LabelFilter>)
    requires Named(filters) && filters != []
    ensures ParsedFilters(Body(filters)) == Some(filters)
  {
    BodyPiece(filters);
    TrimTight(Body(filters));
    BodyParts(filters);
    CollectedSegs(filters);
  }

  // ---------- selectors ----------

  function SelectorText(metric: string, filters: seq<LabelFilter>): string {
    metric + SerializeFilters(filters)
  }

  lemma SelectorIs(metric: string, filters: seq<LabelFilter>)
    requires Named(filters)
    ensures SelectorText(metric, filters)
         == metric + (if filters == [] then "" else "{" + Body(filters) + "}")
  {
    if filters != [] { JoinIsBody(filters); }
  }

  lemma MetricTight(metric: string)
    requires IsMetricName(metric)
    ensures Tight(metric)
  {
    assert IsMetricChar(metric[0]) && IsMetricChar(metric[|metric| - 1]);
  }

  lemma MetricChars(metric: string)
    requires IsMetricName(metric)
    ensures IsPlain(metric) && IndexOfChar(metric, '{') == |metric|
  {
    assert forall i | 0 <= i < |metric| :: IsMetricChar(metric[i]);
  }

  /** A printed selector is invisible to the top-level scans, and its first brace ends its
      metric name. */
  lemma SelectorShape(metric: string, filters: seq<LabelFilter>)
    requires IsMetricName(metric) && Named(filters)
    ensures var s := SelectorText(metric, filters);
      Piece(s) && Tight(s) && metric <= s && IndexOfChar(s, '{') == |metric|
  {
    SelectorIs(metric, filters);
    MetricChars(metric);
    PlainPiece(metric);
    MetricTight(metric);
    if filters == [] {
      assert metric + "" == metric;
    } else {
      var block := "{" + Body(filters) + "}";
      BodyPiece(filters);
      BracePiece('{', Body(filters), '}');
      PieceConcat(metric, block);
      BraceAfter(metric, Body(filters));
    }
  }

  lemma BraceAfter(metric: string, body: string)
    requires Tight(metric) && IndexOfChar(metric, '{') == |metric|
    ensures var s := metric + ("{" + body + "}");
      Tight(s) && IndexOfChar(s, '{') == |metric|
  {
    var s := metric + ("{" + body + "}");
    assert s[|metric|] == '{' && s[|s| - 1] == '}' && s[0] == metric[0];
    assert forall j | 0 <= j < |metric| :: s[j] == metric[j];
  }

  lemma SelectorParses(metric: string, filters: seq<LabelFilter>)
    requires IsMetricName(metric) && Named(filters)
    ensures ParsedSelector(SelectorText(metric, filters)) == Some(MetricTerm(metric, filters))
  {
    var s := SelectorText(metric, filters);
    SelectorShape(metric, filters);
    SelectorIs(metric, filters);
    TrimTight(s);
    MetricChars(metric);
    PlainPiece(metric);
    MetricTight(metric);
    TrimTight(metric);
    hide SelectorText, Piece, Tight, IsMetricName, Body, Named, ParsedBlock;
    if filters == [] {
      assert metric + "" == metric;
    } else {
      BlockParses(filters);
      assert s[..|metric|] == metric;
      assert s[|metric|..] == "{" + Body(filters) + "}";
    }
  }

  lemma BlockParses(filters: seq<LabelFilter>)
    requires Named(filters) && filters != []
    ensures ParsedBlock("{" + Body(filters) + "}") == Some(filters)
  {
    BodyPiece(filters);
    ExtractWrapped(Body(filters), Brace);
    BodyParses(filters);
  }

  // ---------- rate ----------

  lemma WindowChars(win: string)
    requires IsWindow(win)
    ensures win != "" && (win == WINDOW_TOKEN || forall i | 0 <= i < |win| :: IsWord(win[i]))
    ensures forall i | 0 <= i < |win| :: win[i] != '[' && win[i] != ']' && !IsSpace(win[i])
    ensures win != WINDOW_TOKEN ==> IsPlain(win)
  {
    if win != WINDOW_TOKEN { DurationIsWord(win); }
  }

  lemma DurationIsWord(win: string)
    requires IsDuration(win)
    ensures win != "" && forall i | 0 <= i < |win| :: IsWord(win[i])
  {
    var n :| 0 < n < |win| && (forall i | 0 <= i < n :: IsDigit(win[i])) && IsUnit(win[n..]);
    UnitIsWord(win[n..]);
    assert forall i | n <= i < |win| :: win[i] == win[n..][i - n];
  }

  lemma UnitIsWord(unit: string)
    requires IsUnit(unit)
    ensures forall i | 0 <= i < |unit| :: IsWord(unit[i])
  {
  }

  lemma WindowShape(win: string)
    requires IsWindow(win)
    ensures Piece("[" + win + "]")
  {
    hide Piece, IsWindow;
    WindowChars(win);
    if win == WINDOW_TOKEN {
      PlainPiece(".window");
      BracePiece('{', ".window", '}');
      assert ['{'] + ".window" + ['}'] == "{.window}";
      BracePiece('{', "{.window}", '}');
      assert ['{'] + "{.window}" + ['}'] == win;
    } else {
      PlainPiece(win);
    }
    PlainPiece("[");
    PlainPiece("]");
    PieceConcat("[", win);
    PieceConcat("[" + win, "]");
  }

  function InnerText(sel: string, rate: bool, win: string): string {
    if rate then "rate(" + sel + "[" + win + "])" else sel
  }

  lemma InnerPiece(sel: string, rate: bool, win: string)
    requires Piece(sel) && Tight(sel) && (rate ==> IsWindow(win))
    ensures Piece(InnerText(sel, rate, win)) && Tight(InnerText(sel, rate, win))
  {
    if rate {
      WindowShape(win);
      PieceConcat(sel, "[" + win + "]");
      ParenPiece(sel + ("[" + win + "]"));
      PlainPiece("rate");
      PieceConcat("rate", "(" + (sel + ("[" + win + "]")) + ")");
      assert InnerText(sel, rate, win) == "rate" + ("(" + (sel + ("[" + win + "]")) + ")");
    }
  }

  lemma WindowFound(sel: string, win: string)
    requires Tight(sel) && IsWindow(win)
    ensures SplitWindow(sel + "[" + win + "]") == Some((true, win, sel))
  {
    var body := sel + "[" + win + "]";
    WindowChars(win);
    assert body[|sel|] == '[' && body[|body| - 1] == ']';
    assert forall j | |sel| < j < |body| :: body[j] != '[';
    assert LastIndexOf(body, '[') == |sel|;
    assert body[|sel| + 1..|body| - 1] == win;
    assert body[..|body| - |win| - 2] == sel;
    TrimTight(sel);
  }

  lemma RateStripped(body: string)
    requires Safe(Paren, body) && Tight(body)
    ensures StripRate("rate" + ("(" + body + ")")) == SplitWindow(body)
  {
    var group := "(" + body + ")";
    var inner := "rate" + group;
    assert inner[4..] == group;
    assert StartsWithWord(inner, "rate") && group[0] == '(';
    ExtractWrapped(body, Paren);
    TrimTight(body);
  }

  lemma RatedText(sel: string, win: string)
    requires Piece(sel) && Tight(sel) && IsWindow(win)
    ensures var body := sel + "[" + win + "]";
      && Safe(Paren, body) && Tight(body)
      && InnerText(sel, true, win) == "rate" + ("(" + body + ")")
  {
    WindowShape(win);
    PieceConcat(sel, "[" + win + "]");
    RangeText(sel, win);
    hide Safe, DashesQuoted, IsWindow;
    assert Safe(Paren, sel + ("[" + win + "]"));
  }

  lemma RangeText(sel: string, win: string)
    requires Tight(sel)
    ensures sel + "[" + win + "]" == sel + ("[" + win + "]") && Tight(sel + "[" + win + "]")
  {
    var body := sel + "[" + win + "]";
    assert body[0] == sel[0] && body[|body| - 1] == ']';
  }

  lemma RatedParses(sel: string, win: string)
    requires Piece(sel) && Tight(sel) && IsWindow(win)
    ensures StripRate(InnerText(sel, true, win)) == Some((true, win, sel))
  {
    RatedText(sel, win);
    RateStripped(sel + "[" + win + "]");
    WindowFound(sel, win);
  }

  /** After any prefix of the metric name, neither white space nor an opening parenthesis
      follows. */
  lemma AfterPrefix(metric: string, filters: seq<LabelFilter>, n: nat)
    requires IsMetricName(metric) && Named(filters) && n <= |metric|
    ensures var rest := SelectorText(metric, filters)[n..];
      && SkipSpaces(rest) == 0
      && (rest == "" || (rest[0] != '(' && !IsSpace(rest[0])))
  {
    hide Piece, SelectorText, Tight;
    SelectorShape(metric, filters);
    HeadAfter(metric, SelectorText(metric, filters), n);
  }

  lemma HeadAfter(metric: string, sel: string, n: nat)
    requires IsMetricName(metric) && n <= |metric| && metric <= sel
    requires IndexOfChar(sel, '{') == |metric|
    ensures var rest := sel[n..];
      SkipSpaces(rest) == 0 && (rest == "" || (rest[0] != '(' && !IsSpace(rest[0])))
  {
    assert n < |metric| ==> sel[n] == metric[n] && IsMetricChar(metric[n]);
  }

  lemma UnratedParses(metric: string, filters: seq<LabelFilter>)
    requires IsMetricName(metric) && Named(filters)
    ensures var sel := SelectorText(metric, filters);
      StripRate(sel) == Some((false, WINDOW_TOKEN, sel))
  {
    var sel := SelectorText(metric, filters);
    assert sel[0..] == sel;
    if StartsWithWord(sel, "rate") {
      WordInMetric(metric, filters, 0, "rate");
      AfterPrefix(metric, filters, 4);
    }
  }

  /** A selector that starts with a word has the whole word inside its metric name. */
  lemma WordInMetric(metric: string, filters: seq<LabelFilter>, from: nat, w: string)
    requires IsMetricName(metric) && Named(filters) && from <= |metric|
    requires forall i | 0 <= i < |w| :: 'a' <= w[i] <= 'z'
    requires from <= |SelectorText(metric, filters)|
    requires StartsWithWord(SelectorText(metric, filters)[from..], w)
    ensures from + |w| <= |metric|
  {
    var sel := SelectorText(metric, filters);
    SelectorShape(metric, filters);
    if |metric| < |sel| {
      assert sel[from..][|metric| - from] == '{';
    }
  }
}
