/** What the parser accepts: only texts that spell the model it returns, token by token, with white
    space, the case of keywords and the writing of label values left free. */
module PromqlSound {
  import opened Options
  import opened Text
  import opened DelimScan
  import opened PromqlBuilder
  import PromqlLiterals

  // ---------- tokens ----------

  /** The token with white space around it. */
  ghost predicate Padded(s: string, core: string) {
    exists a, b :: AllSpace(a) && AllSpace(b) && s == a + (core + b)
  }

  /** The keyword in any case. */
  predicate Keyword(word: string, lower: string) { |word| == |lower| && StartsWithWord(word, lower) }

  lemma TrimPads(s: string)
    ensures Padded(s, Trim(s))
  {
    hide Trim, AllSpace;
    var a, b := TrimSplit(s);
  }

  lemma PadMore(a: string, s: string, b: string, core: string)
    requires AllSpace(a) && AllSpace(b) && Padded(s, core)
    ensures Padded(a + (s + b), core)
  {
    hide IsSpace;
    var c, d :| AllSpace(c) && AllSpace(d) && s == c + (core + d);
    assert AllSpace(a + c) && AllSpace(d + b);
    assert a + (s + b) == (a + c) + (core + (d + b));
  }

  lemma PadThrough(s: string, t: string, core: string)
    requires Padded(s, t) && Padded(t, core)
    ensures Padded(s, core)
  {
    hide AllSpace;
    var a, b :| AllSpace(a) && AllSpace(b) && s == a + (t + b);
    PadMore(a, t, b, core);
  }

  /** What is extracted is the inside of one balanced group that is all of the text. */
  lemma ExtractedPads(text: string, kind: Kind)
    requires kind != Both
    ensures Extracted(text, kind).Some? ==>
      var inner := Extracted(text, kind).value;
      Padded(text, [OpenChar(kind)] + (inner + [CloseChar(kind)])) && Safe(kind, inner)
  {
    hide IsSpace, Safe, FirstClose, At;
    TrimPads(text);
    var t := Trim(text);
    if Extracted(text, kind).Some? {
      var i := FirstClose(kind, t, 0);
      EndsThere(text, i);
      assert t == [OpenChar(kind)] + (t[1..i] + [CloseChar(kind)]);
      assert t == [OpenChar(kind)] + t[1..i] + [CloseChar(kind)];
      assert |t[1..i]| + 1 == i;
      ClosedIsSafe(kind, t[1..i]);
    }
  }

  lemma EndsThere(text: string, i: nat)
    requires i < |Trim(text)| && Trim(Trim(text)[i + 1..]) == ""
    ensures i + 1 == |Trim(text)|
  {
    hide IsSpace, Trim;
    var _, _ := TrimSplit(text);
    BlankIsSpace(Trim(text)[i + 1..]);
    SolidTail(Trim(text), i + 1);
  }

  lemma BlankIsSpace(s: string)
    requires Trim(s) == ""
    ensures AllSpace(s)
  {
    hide IsSpace, Trim;
    var a, b := TrimSplit(s);
    assert s == a + b;
  }

  lemma SolidTail(t: string, i: nat)
    requires i <= |t| && Tight(t)
    ensures i < |t| ==> !AllSpace(t[i..])
  {
    hide IsSpace;
    if i < |t| { assert t[i..][|t| - i - 1] == t[|t| - 1]; }
  }

  // ---------- selectors ----------

  /** A filter as written: the operator directly after the name, then a quoted value. */
  ghost predicate FilterSpelled(part: string, f: LabelFilter) {
    && IsLabelName(f.name)
    && exists value :: Padded(part, f.name + (OpText(f.op) + value)) && ValueSpelled(value, f.value)
  }

  ghost predicate ValueSpelled(text: string, value: string) {
    exists quoted, raw :: Padded(text, quoted) && Unescape(raw) == value
      && (quoted == "\"" + (raw + "\"") || (quoted == "\"" && raw == ""))
  }

  /** Every part that is not blank spells a filter, in order. */
  ghost predicate FiltersSpelled(parts: seq<string>, filters: seq<LabelFilter>) {
    if parts == [] then filters == []
    else
      var (n, m) := (|parts| - 1, |filters| - 1);
      || (Trim(parts[n]) == "" && FiltersSpelled(parts[..n], filters))
      || (m >= 0 && FilterSpelled(parts[n], filters[m]) && FiltersSpelled(parts[..n], filters[..m]))
  }

  ghost predicate SelectorSpelled(s: string, metric: string, filters: seq<LabelFilter>) {
    && IsMetricName(metric)
    && ((filters == [] && Padded(s, metric)) || exists x, y :: s == x + y && Padded(x, metric) && BlockSpelled(y, filters))
  }

  ghost predicate BlockSpelled(s: string, filters: seq<LabelFilter>) {
    exists body :: Padded(s, "{" + (body + "}")) && Safe(Brace, body) && FiltersSpelled(Parts(Trim(body)), filters)
  }

  /** Where the operator stands. */
  function Place(seg: string, op: MatchOp): int { IndexOf(seg, OpText(op)) }

  lemma FilterIsSpelled(part: string)
    ensures Trim(part) != "" && ParsedFilter(Trim(part)).Some? ==> FilterSpelled(part, ParsedFilter(Trim(part)).value)
  {
    hide Trim, Place, IsLabelName, ParsedFilter, FindOp, Unescape, Unquoted, Padded, ValueSpelled, OpText;
    var seg := Trim(part);
    if seg != "" && ParsedFilter(seg).Some? {
      FilterParts(seg);
      var op := FindOp(seg).value;
      var i := Place(seg, op);
      OpTextThere(op);
      PrefixSplits(seg, OpText(op), i);
      NameIsTight(seg[..i]);
      TrimPads(part);
      ValueIsSpelled(seg[i + |OpText(op)|..]);
    }
  }

  lemma FilterParts(seg: string)
    requires ParsedFilter(seg).Some?
    ensures FindOp(seg).Some? && var (op, i) := (FindOp(seg).value, Place(seg, FindOp(seg).value));
      && 0 < i <= |seg| && OpText(op) <= seg[i..] && IsLabelName(seg[..i])
      && i + |OpText(op)| <= |seg| && ParsedFilter(seg) == SplitAtOp(seg, op, i)
  {
    hide FindOp, IsLabelName, SplitAtOp, OpText;
    OpFound(seg);
  }

  lemma OpTextThere(op: MatchOp)
    ensures OpText(op) != ""
  {
  }

  lemma PrefixSplits(s: string, pat: string, i: nat)
    requires i <= |s| && pat <= s[i..]
    ensures i + |pat| <= |s| && s == s[..i] + (pat + s[i + |pat|..])
  {
    assert s[i..][..|pat|] == pat;
  }

  lemma ValueIsSpelled(rest: string)
    ensures Unquoted(Trim(rest)).Some? ==> ValueSpelled(rest, Unquoted(Trim(rest)).value)
  {
    hide Trim, Unescape, Padded, Unquoted;
    TrimPads(rest);
    QuotedIsSpelled(Trim(rest));
  }

  lemma OpFound(seg: string)
    ensures FindOp(seg).Some? ==> OpFits(seg, FindOp(seg).value)
  {
    hide OpFits;
  }

  lemma NameIsTight(name: string)
    requires IsLabelName(name)
    ensures Trim(name) == name
  {
    assert IsWord(name[0]) && IsWord(name[|name| - 1]);
    TrimTight(name);
  }

  lemma QuotedIsSpelled(t: string)
    ensures Unquoted(t).Some? ==>
      var raw := if |t| == 1 then "" else t[1..|t| - 1];
      Unescape(raw) == Unquoted(t).value && (t == "\"" + (raw + "\"") || (t == "\"" && raw == ""))
  {
    hide Unescape;
    if Unquoted(t).Some? && |t| > 1 { assert t == "\"" + (t[1..|t| - 1] + "\""); }
  }

  lemma {:induction false} FiltersAreSpelled(parts: seq<string>)
    ensures Collected(Classified(parts)).Some? ==> FiltersSpelled(parts, Collected(Classified(parts)).value)
  {
    hide Trim, FilterSpelled, ParsedFilter;
    if parts != [] {
      var n := |parts| - 1;
      assert Classified(parts)[..n] == Classified(parts[..n]);
      FiltersAreSpelled(parts[..n]);
      FilterIsSpelled(parts[n]);
      if Collected(Classified(parts)).Some? {
        LastFilter(Classified(parts));
        hide Collected;
        assert Classified(parts)[n] == Classify(parts[n]);
      }
    }
  }

  lemma LastFilter(segs: seq<Segment>)
    requires segs != [] && Collected(segs).Some?
    ensures Collected(segs[..|segs| - 1]).Some?
    ensures var (rest, all) := (Collected(segs[..|segs| - 1]).value, Collected(segs).value);
      match segs[|segs| - 1]
      case Blank => all == rest
      case Filter(f) => all != [] && all[..|all| - 1] == rest && all[|all| - 1] == f
      case Malformed => false
  {
  }

  lemma SelectorIsSpelled(text: string)
    ensures ParsedSelector(text).Some? ==>
      SelectorSpelled(text, ParsedSelector(text).value.metric, ParsedSelector(text).value.filters)
  {
    hide Trim, AllSpace, IsMetricName, Safe, FiltersSpelled, Extracted, Parts, ParsedFilters;
    TrimPads(text);
    var t := Trim(text);
    var brace := IndexOfChar(t, '{');
    if ParsedSelector(text).Some? && brace < |t| {
      var a, b :| AllSpace(a) && AllSpace(b) && text == a + (t + b);
      var (head, block) := (t[..brace], t[brace..]);
      ExtractedPads(block, Brace);
      var body := Extracted(block, Brace).value;
      BodyIsSpelled(body);
      assert text == (a + (head + "")) + ("" + (block + b));
      TrimPads(head);
      assert AllSpace("") by { NoSpace(); }
      PadMore(a, head, "", Trim(head));
      PadMore("", block, b, "{" + (body + "}"));
      assert BlockSpelled("" + (block + b), ParsedSelector(text).value.filters);
    }
  }

  lemma NoSpace()
    ensures AllSpace("")
  {
  }

  lemma BodyIsSpelled(body: string)
    ensures ParsedFilters(body).Some? ==> FiltersSpelled(Parts(Trim(body)), ParsedFilters(body).value)
  {
    hide Trim, FiltersSpelled, Parts, Classified, Collected;
    FiltersAreSpelled(Parts(Trim(body)));
  }

  // ---------- terms ----------

  /** A selector, or one inside `rate(...)` with its window. */
  ghost predicate InnerSpelled(s: string, rate: bool, win: string, metric: string, filters: seq<LabelFilter>) {
    if rate then
      && IsWindow(win)
      && exists a, word, group ::
           && AllSpace(a) && s == a + (word + group) && Keyword(word, "rate")
           && RateSpelled(group, win, metric, filters)
    else win == WINDOW_TOKEN && SelectorSpelled(s, metric, filters)
  }

  ghost predicate RateSpelled(group: string, win: string, metric: string, filters: seq<LabelFilter>) {
    exists body, selector ::
      && Padded(group, "(" + (body + ")")) && Safe(Paren, body)
      && Padded(body, selector + ("[" + (win + "]"))) && SelectorSpelled(selector, metric, filters)
  }

  /** A grouping clause, or none. */
  ghost predicate BySpelled(clause: string, labels: seq<string>) {
    || (clause == "" && labels == [])
    || exists a, word, group, body ::
         && AllSpace(a) && clause == a + (word + group) && Keyword(word, "by")
         && Padded(group, "(" + (body + ")")) && ')' !in body && labels == TrimmedNonEmpty(SplitCommas(body))
  }

  /** A term: an aggregation with its clause around the rest, or the rest alone. */
  ghost predicate TermSpelled(s: string, t: Term) {
    if t.agg == NoAgg then t.groupBy == [] && InnerSpelled(s, t.rate, t.win, t.metric, t.filters)
    else exists a, word, clause, group ::
      && AllSpace(a) && s == a + (word + (clause + group)) && Keyword(word, AggText(t.agg))
      && BySpelled(clause, t.groupBy) && ArgumentSpelled(group, t)
  }

  ghost predicate ArgumentSpelled(group: string, t: Term) {
    exists inner :: Padded(group, "(" + (inner + ")")) && Safe(Paren, inner)
      && InnerSpelled(inner, t.rate, t.win, t.metric, t.filters)
  }

  lemma SpelledAs(s: string, a: string, word: string, clause: string, group: string, t: Term)
    requires t.agg != NoAgg && AllSpace(a) && s == a + (word + (clause + group)) && Keyword(word, AggText(t.agg))
    requires BySpelled(clause, t.groupBy) && ArgumentSpelled(group, t)
    ensures TermSpelled(s, t)
  {
    hide AllSpace, Keyword, AggText, BySpelled, ArgumentSpelled;
  }

  lemma SelectorMore(a: string, s: string, b: string, metric: string, filters: seq<LabelFilter>)
    requires AllSpace(a) && AllSpace(b) && SelectorSpelled(s, metric, filters)
    ensures SelectorSpelled(a + (s + b), metric, filters)
  {
    hide AllSpace, IsMetricName, Padded, Safe, FiltersSpelled, BlockSpelled;
    NoSpace();
    if filters == [] && Padded(s, metric) {
      PadMore(a, s, b, metric);
    } else {
      var x, y :| s == x + y && Padded(x, metric) && BlockSpelled(y, filters);
      PadMore(a, x, "", metric);
      BlockMore(y, b, filters);
      assert a + (s + b) == (a + (x + "")) + (y + b);
    }
  }

  lemma BlockMore(y: string, b: string, filters: seq<LabelFilter>)
    requires AllSpace(b) && BlockSpelled(y, filters)
    ensures BlockSpelled(y + b, filters)
  {
    hide AllSpace, Padded, Safe, FiltersSpelled;
    NoSpace();
    var body :| Padded(y, "{" + (body + "}")) && Safe(Brace, body) && FiltersSpelled(Parts(Trim(body)), filters);
    PadMore("", y, b, "{" + (body + "}"));
    assert "" + (y + b) == y + b;
  }

  lemma InnerMore(a: string, s: string, b: string, rate: bool, win: string, metric: string, filters: seq<LabelFilter>)
    requires AllSpace(a) && AllSpace(b) && InnerSpelled(s, rate, win, metric, filters)
    ensures InnerSpelled(a + (s + b), rate, win, metric, filters)
  {
    hide Padded, SelectorSpelled, Safe, IsWindow, IsSpace;
    if rate {
      var c, word, group :| AllSpace(c) && s == c + (word + group) && Keyword(word, "rate")
        && RateSpelled(group, win, metric, filters);
      RateMore(group, b, win, metric, filters);
      assert AllSpace(a + c) && a + (s + b) == (a + c) + (word + (group + b));
    } else {
      SelectorMore(a, s, b, metric, filters);
    }
  }

  lemma RateMore(group: string, b: string, win: string, metric: string, filters: seq<LabelFilter>)
    requires AllSpace(b) && RateSpelled(group, win, metric, filters)
    ensures RateSpelled(group + b, win, metric, filters)
  {
    hide AllSpace, Padded, Safe, SelectorSpelled;
    NoSpace();
    var body, selector :| Padded(group, "(" + (body + ")")) && Safe(Paren, body)
      && Padded(body, selector + ("[" + (win + "]"))) && SelectorSpelled(selector, metric, filters);
    PadMore("", group, b, "(" + (body + ")"));
    assert "" + (group + b) == group + b;
  }

  lemma InnerFromTrim(s: string, rate: bool, win: string, metric: string, filters: seq<LabelFilter>)
    requires InnerSpelled(Trim(s), rate, win, metric, filters)
    ensures InnerSpelled(s, rate, win, metric, filters)
  {
    hide Trim, AllSpace, InnerSpelled;
    var a, b := TrimSplit(s);
    InnerMore(a, Trim(s), b, rate, win, metric, filters);
  }

  lemma SelectorFromTrim(s: string, metric: string, filters: seq<LabelFilter>)
    requires SelectorSpelled(Trim(s), metric, filters)
    ensures SelectorSpelled(s, metric, filters)
  {
    hide Trim, AllSpace, SelectorSpelled;
    var a, b := TrimSplit(s);
    SelectorMore(a, Trim(s), b, metric, filters);
  }

  lemma SkippedIsSpace(s: string)
    ensures AllSpace(s[..SkipSpaces(s)]) && s[SkipSpaces(s)..] == TrimStart(s)
    ensures TrimStart(s) == "" || !IsSpace(TrimStart(s)[0])
  {
    hide IsSpace;
    var ws := SpacesTrimmed(s);
    TrimStartSolid(s);
  }

  lemma WindowCut(t: string)
    ensures WindowSuffix(t).Some? ==>
      var w := WindowSuffix(t).value; t == t[..|t| - |w| - 2] + ("[" + (w + "]"))
  {
  }

  lemma InnerIsSpelled(text: string)
    ensures StripRate(text).Some? ==> var (rate, win, selText) := StripRate(text).value;
      ParsedSelector(selText).Some? ==>
        InnerSpelled(text, rate, win, ParsedSelector(selText).value.metric, ParsedSelector(selText).value.filters)
  {
    hide Trim, AllSpace, ParsedSelector, SelectorSpelled, Safe, IsWindow, Extracted, WindowSuffix, SkipSpaces;
    if StripRate(text).Some? && ParsedSelector(StripRate(text).value.2).Some? {
      var (rate, win, selText) := StripRate(text).value;
      var sel := ParsedSelector(selText).value;
      SelectorIsSpelled(selText);
      if rate {
        var open := 4 + SkipSpaces(text[4..]);
        var body := Extracted(text[open..], Paren).value;
        var t := Trim(body);
        RateIsSpelled(text, open, sel);
        assert text == "" + (text[..4] + text[4..]);
        NoSpace();
        KeywordAt(text, "rate");
      }
    }
  }

  lemma KeywordAt(text: string, lower: string)
    requires StartsWithWord(text, lower)
    ensures |lower| <= |text| && Keyword(text[..|lower|], lower)
  {
  }

  lemma RateIsSpelled(text: string, open: nat, sel: MetricTerm)
    requires 4 <= open <= |text| && open == 4 + SkipSpaces(text[4..]) && Extracted(text[open..], Paren).Some?
    requires SplitWindow(Trim(Extracted(text[open..], Paren).value)).Some?
    requires var (_, win, selText) := SplitWindow(Trim(Extracted(text[open..], Paren).value)).value;
      SelectorSpelled(selText, sel.metric, sel.filters)
    ensures RateSpelled(text[4..], SplitWindow(Trim(Extracted(text[open..], Paren).value)).value.1, sel.metric, sel.filters)
  {
    hide Trim, AllSpace, SelectorSpelled, Safe, IsWindow, Extracted, WindowSuffix, SkipSpaces;
    var body := Extracted(text[open..], Paren).value;
    var t := Trim(body);
    var w := WindowSuffix(t).value;
    ExtractedPads(text[open..], Paren);
    SkippedIsSpace(text[4..]);
    NoSpace();
    PadMore(text[4..][..open - 4], text[open..], "", "(" + (body + ")"));
    assert text[4..] == text[4..][..open - 4] + (text[open..] + "");
    WindowCut(t);
    TrimPads(body);
    SelectorFromTrim(t[..|t| - |w| - 2], sel.metric, sel.filters);
    assert Padded(body, t[..|t| - |w| - 2] + ("[" + (w + "]")));
  }

  /** The clause the parser finds at the start of a text. */
  ghost predicate ClauseText(s: string, body: string) {
    exists word, group :: s == word + group && Keyword(word, "by") && Padded(group, "(" + (body + ")")) && ')' !in body
  }

  lemma ClauseIsSpelled(text: string)
    ensures ByClause(text).Some? ==> ClauseText(text[..ByClause(text).value.1], ByClause(text).value.0)
  {
    hide AllSpace, SkipSpaces, StartsWithWord, Padded, Keyword, IndexOfChar;
    if ByClause(text).Some? {
      var (body, n) := ByClause(text).value;
      TwoLetters(text);
      KeywordAt(text, "by");
      var open := 2 + SkipSpaces(text[2..]);
      GroupIsSpelled(text, open, n, body);
      assert text[..n] == text[..2] + text[2..n];
    }
  }

  lemma GroupIsSpelled(text: string, open: nat, n: nat, body: string)
    requires |text| >= 2 && open == 2 + SkipSpaces(text[2..]) && open < |text| && text[open] == '('
    requires var close := open + 1 + IndexOfChar(text[open + 1..], ')');
      close < |text| && body == text[open + 1..close] && n == close + 1 + SkipSpaces(text[close + 1..])
    ensures n <= |text| && Padded(text[2..n], "(" + (body + ")")) && ')' !in body
  {
    hide AllSpace, SkipSpaces, Padded;
    var close := open + 1 + IndexOfChar(text[open + 1..], ')');
    SkippedAfter(text, 2);
    SkippedAfter(text, close + 1);
    GroupText(text, open);
    hide IndexOfChar;
    SlicesJoin(text, 2, open, close + 1, n);
    PaddedBy(text[2..n], text[2..open], "(" + (body + ")"), text[close + 1..n]);
  }

  lemma SkippedAfter(text: string, i: nat)
    requires i <= |text|
    ensures i + SkipSpaces(text[i..]) <= |text| && AllSpace(text[i..i + SkipSpaces(text[i..])])
  {
    hide AllSpace, SkipSpaces;
    SkippedIsSpace(text[i..]);
    assert text[i..][..SkipSpaces(text[i..])] == text[i..i + SkipSpaces(text[i..])];
  }

  lemma PaddedBy(s: string, a: string, core: string, b: string)
    requires AllSpace(a) && AllSpace(b) && s == a + (core + b)
    ensures Padded(s, core)
  {
    hide AllSpace;
  }

  lemma GroupText(text: string, open: nat)
    requires open < |text| && text[open] == '('
    ensures var close := open + 1 + IndexOfChar(text[open + 1..], ')'); close < |text| ==>
      text[open..close + 1] == "(" + (text[open + 1..close] + ")") && ')' !in text[open + 1..close]
  {
    var close := open + 1 + IndexOfChar(text[open + 1..], ')');
    if close < |text| {
      assert text[close] == ')';
      var (body, after) := (text[open + 1..close], text[open + 1..]);
      assert forall j | 0 <= j < |body| :: body[j] == after[j];
    }
  }

  lemma SlicesJoin(text: string, i: nat, j: nat, k: nat, l: nat)
    requires i <= j <= k <= l <= |text|
    ensures text[i..l] == text[i..j] + (text[j..k] + text[k..l])
  {
  }

  lemma TwoLetters(text: string)
    ensures StartsWithWord(text, "by") ==> |text| >= 2
  {
  }

  lemma ClauseSpelled(rest: string)
    ensures var (clause, arg) := AfterWord(rest);
      exists c, d :: rest == c + d && BySpelled(c, GroupLabels(clause)) && Padded(d, Trim(arg))
  {
    hide AllSpace, SkipSpaces, ByClause, Trim, TrimmedNonEmpty, SplitCommas, Padded, Keyword;
    var (clause, arg) := AfterWord(rest);
    var k := SkipSpaces(rest);
    SkippedIsSpace(rest);
    TrimPads(arg);
    NoSpace();
    if clause.None? {
      PadMore(rest[..k], arg, "", Trim(arg));
      assert rest == "" + (rest[..k] + (arg + ""));
      assert BySpelled("", GroupLabels(clause));
    } else {
      var (body, n) := clause.value;
      ClauseIsSpelled(rest[k..]);
      assert ClauseText(rest[k..][..n], body);
      var word, group :| rest[k..][..n] == word + group && Keyword(word, "by")
        && Padded(group, "(" + (body + ")")) && ')' !in body;
      assert rest == (rest[..k] + (word + group)) + arg;
      assert BySpelled(rest[..k] + (word + group), GroupLabels(clause));
    }
  }

  lemma TermIsSpelled(input: string)
    ensures ParsedTerm(input).Some? ==> TermSpelled(input, ParsedTerm(input).value)
  {
    hide Trim, AllSpace, StripAggregation, StripRate, ParsedSelector, InnerSpelled;
    if ParsedTerm(input).Some? {
      var text := Trim(input);
      var (agg, groupBy, inner) := StripAggregation(text);
      InnerIsSpelled(inner);
      var t := ParsedTerm(input).value;
      if agg == NoAgg {
        NotAggregated(text);
        InnerFromTrim(input, t.rate, t.win, t.metric, t.filters);
      } else {
        AggregationIsSpelled(text, t);
        var a, b := TrimSplit(input);
        TermMore(a, text, b, t);
      }
    }
  }

  lemma NotAggregated(text: string)
    ensures var (agg, groupBy, inner) := StripAggregation(text); agg == NoAgg ==> inner == text && groupBy == []
  {
    hide Trim, AfterWord, Extracted, GroupLabels;
  }

  lemma AggWord(text: string)
    ensures var agg := AggKeyword(text); agg != NoAgg ==> StartsWithWord(text, AggText(agg))
  {
    hide StartsWithWord;
  }

  lemma AggregationIsSpelled(text: string, t: Term)
    requires var (agg, groupBy, inner) := StripAggregation(text);
      agg == t.agg != NoAgg && groupBy == t.groupBy && InnerSpelled(inner, t.rate, t.win, t.metric, t.filters)
    ensures TermSpelled(text, t)
  {
    hide *;
    AggregationParts(text);
    var agg := t.agg;
    KeywordAt(text, AggText(agg));
    var rest := text[|AggText(agg)|..];
    var (clause, arg) := AfterWord(rest);
    ClauseSpelled(rest);
    var c, d :| rest == c + d && BySpelled(c, GroupLabels(clause)) && Padded(d, Trim(arg));
    ArgumentIsSpelled(d, arg, t);
    NoSpace();
    assert text == "" + (text[..|AggText(agg)|] + (c + d));
    SpelledAs(text, "", text[..|AggText(agg)|], c, d, t);
  }

  lemma AggregationParts(text: string)
    ensures var (agg, groupBy, inner) := StripAggregation(text); agg != NoAgg ==>
      && StartsWithWord(text, AggText(agg)) && |AggText(agg)| <= |text|
      && var (clause, arg) := AfterWord(text[|AggText(agg)|..]);
      && groupBy == GroupLabels(clause)
      && Extracted(Trim(arg), Paren).Some? && inner == Trim(Extracted(Trim(arg), Paren).value)
  {
    AggWord(text);
    hide Trim, AfterWord, Extracted, GroupLabels, AggKeyword, AggText;
    if AggKeyword(text) != NoAgg { KeywordAt(text, AggText(AggKeyword(text))); }
  }

  lemma ArgumentIsSpelled(d: string, arg: string, t: Term)
    requires Padded(d, Trim(arg)) && Extracted(Trim(arg), Paren).Some?
    requires InnerSpelled(Trim(Extracted(Trim(arg), Paren).value), t.rate, t.win, t.metric, t.filters)
    ensures ArgumentSpelled(d, t)
  {
    hide Trim, Padded, Safe, Extracted, InnerSpelled;
    ExtractedPads(Trim(arg), Paren);
    var body := Extracted(Trim(arg), Paren).value;
    assert [OpenChar(Paren)] + (body + [CloseChar(Paren)]) == "(" + (body + ")");
    PadThrough(d, Trim(arg), "(" + (body + ")"));
    InnerFromTrim(body, t.rate, t.win, t.metric, t.filters);
  }

  lemma TermMore(a: string, s: string, b: string, t: Term)
    requires AllSpace(a) && AllSpace(b) && TermSpelled(s, t) && t.agg != NoAgg
    ensures TermSpelled(a + (s + b), t)
  {
    hide IsSpace, Padded, InnerSpelled, BySpelled, Keyword, Safe, ArgumentSpelled, AggText;
    var c, word, clause, group :| AllSpace(c) && s == c + (word + (clause + group)) && Keyword(word, AggText(t.agg))
      && BySpelled(clause, t.groupBy) && ArgumentSpelled(group, t);
    ArgumentMore(group, b, t);
    SpacesJoin(a, c);
    hide AllSpace;
    Regrouped(a, c, word, clause, group, b);
    SpelledAs(a + (s + b), a + c, word, clause, group + b, t);
  }

  lemma SpacesJoin(a: string, b: string)
    requires AllSpace(a) && AllSpace(b)
    ensures AllSpace(a + b)
  {
    hide IsSpace;
  }

  lemma Regrouped(a: string, c: string, u: string, v: string, w: string, b: string)
    ensures a + ((c + (u + (v + w))) + b) == (a + c) + (u + (v + (w + b)))
  {
    var x := v + w;
    assert (c + (u + x)) + b == c + (u + (x + b));
    assert x + b == v + (w + b);
    assert a + (c + (u + (v + (w + b)))) == (a + c) + (u + (v + (w + b)));
  }

  lemma ArgumentMore(group: string, b: string, t: Term)
    requires AllSpace(b) && ArgumentSpelled(group, t)
    ensures ArgumentSpelled(group + b, t)
  {
    hide AllSpace, Padded, InnerSpelled, Safe;
    NoSpace();
    var inner :| Padded(group, "(" + (inner + ")")) && Safe(Paren, inner)
      && InnerSpelled(inner, t.rate, t.win, t.metric, t.filters);
    PadMore("", group, b, "(" + (inner + ")"));
    assert "" + (group + b) == group + b;
  }

  // ---------- queries ----------

  function MainTerm(m: Model): Term { Term(m.metric, m.filters, m.rate, m.win, m.agg, m.groupBy) }

  /** One term; or two of one shape with a spaced minus between them. */
  ghost predicate QuerySpelled(q: string, m: Model) {
    match m.subtract
    case None => TermSpelled(q, MainTerm(m))
    case Some(s) =>
      exists x, y :: q == x + ("-" + y) && x != "" && x[|x| - 1] == ' ' && y != "" && y[0] == ' '
        && TermSpelled(x, MainTerm(m)) && TermSpelled(y, MainTerm(m).(metric := s.metric, filters := s.filters))
  }

  /** A query the parser accepts is one that spells the model it gives: nothing is dropped, nothing is
      taken for something else, and the two terms of a difference have one shape. */
  lemma AcceptedIsSpelled(query: string)
    ensures ParsedPromQL(query).Some? ==> QuerySpelled(query, ParsedPromQL(query).value)
  {
    hide *;
    var text := Trim(query);
    if ParsedPromQL(query).Some? {
      var m := ParsedPromQL(query).value;
      var a, b := TrimSplit(query);
      var minus := FirstMinus(text, 0);
      QueryParts(query);
      NoSpace();
      if minus == |text| {
        TermIsSpelled(text);
        TermPadded(a, text, b, MainTerm(m));
        AloneSpelled(query, m);
      } else {
        var (x, y) := (text[..minus], text[minus + 1..]);
        TermIsSpelled(x);
        TermIsSpelled(y);
        TermPadded(a, x, "", MainTerm(m));
        TermPadded("", y, b, OtherTerm(m));
        MinusSpelled(query, a, x, y, b, m);
      }
    }
  }

  function OtherTerm(m: Model): Term
    requires m.subtract.Some?
  {
    MainTerm(m).(metric := m.subtract.value.metric, filters := m.subtract.value.filters)
  }

  lemma QueryParts(query: string)
    requires ParsedPromQL(query).Some?
    ensures var (text, m) := (Trim(query), ParsedPromQL(query).value);
      var minus := FirstMinus(text, 0);
      if minus == |text| then m.subtract.None? && ParsedTerm(text) == Some(MainTerm(m))
      else
        && 0 < minus < |text| - 1 && text[minus - 1] == ' ' && text[minus + 1] == ' ' && text[minus] == '-'
        && m.subtract.Some? && ParsedTerm(text[..minus]) == Some(MainTerm(m))
        && ParsedTerm(text[minus + 1..]) == Some(OtherTerm(m))
  {
    hide Trim, ParsedTerm, FirstMinus, At;
  }

  lemma AloneSpelled(q: string, m: Model)
    requires m.subtract.None? && TermSpelled(q, MainTerm(m))
    ensures QuerySpelled(q, m)
  {
    hide TermSpelled;
  }

  lemma MinusSpelled(q: string, a: string, x: string, y: string, b: string, m: Model)
    requires q == a + ((x + ("-" + y)) + b) && x != "" && x[|x| - 1] == ' ' && y != "" && y[0] == ' ' && m.subtract.Some?
    requires TermSpelled(a + (x + ""), MainTerm(m)) && TermSpelled("" + (y + b), OtherTerm(m))
    ensures QuerySpelled(q, m)
  {
    hide TermSpelled;
    var (u, v) := (a + (x + ""), "" + (y + b));
    assert q == u + ("-" + v);
    assert u[|u| - 1] == ' ' && v[0] == ' ';
  }

  lemma TermPadded(a: string, s: string, b: string, t: Term)
    requires AllSpace(a) && AllSpace(b) && TermSpelled(s, t)
    ensures TermSpelled(a + (s + b), t)
  {
    hide AllSpace, InnerSpelled;
    if t.agg == NoAgg { InnerMore(a, s, b, t.rate, t.win, t.metric, t.filters); } else { TermMore(a, s, b, t); }
  }

  // ---------- when a label value survives ----------

  /** Every backslash escapes a backslash or a quote, and every quote is escaped. */
  predicate WellEscaped(raw: string) {
    if raw == "" then true
    else if raw[0] == '\\' then |raw| > 1 && (raw[1] == '\\' || raw[1] == '"') && WellEscaped(raw[2..])
    else raw[0] != '"' && WellEscaped(raw[1..])
  }

  lemma {:induction false} EscapedIsWell(v: string)
    ensures WellEscaped(Escape(v))
  {
    if v != "" {
      assert v == [v[0]] + v[1..];
      PromqlLiterals.EscapeCons(v[0], v[1..]);
      var h := PromqlLiterals.EscapedChar(v[0]);
      EscapedIsWell(v[1..]);
      assert Escape(v)[|h|..] == Escape(v[1..]);
    } else {
      NothingEscaped();
    }
  }

  lemma NothingEscaped()
    ensures Escape("") == ""
  {
  }

  lemma {:induction false} WellIsEscaped(raw: string) returns (v: string)
    requires WellEscaped(raw)
    ensures Escape(v) == raw
  {
    if raw == "" {
      v := "";
      NothingEscaped();
    } else if raw[0] == '\\' {
      var rest := WellIsEscaped(raw[2..]);
      v := [raw[1]] + rest;
      PromqlLiterals.EscapeCons(raw[1], rest);
      assert raw == [raw[0], raw[1]] + raw[2..];
    } else {
      var rest := WellIsEscaped(raw[1..]);
      v := [raw[0]] + rest;
      PromqlLiterals.EscapeCons(raw[0], rest);
      assert raw == [raw[0]] + raw[1..];
    }
  }

  /** A label value that was read is printed as it was written exactly when it uses no escape but those
      of a backslash and of a quote. */
  lemma ValueKeptIff(raw: string)
    ensures Escape(Unescape(raw)) == raw <==> WellEscaped(raw)
  {
    hide Escape, Unescape, WellEscaped;
    if WellEscaped(raw) {
      var v := WellIsEscaped(raw);
      PromqlLiterals.UnescapeEscape(v);
    }
    EscapedIsWell(Unescape(raw));
  }

  /** An escaped line end does not survive: reading keeps both its characters, and printing escapes the
      backslash. */
  lemma LineEndChanges()
    ensures Unescape("\\n") == "\\n" && Escape("\\n") == "\\\\n"
  {
    assert "\\n"[1..] == "n" && "n"[1..] == "";
    assert UnescapeQuotes("n") == "n" && UnescapeQuotes("\\n") == "\\n";
    assert HalveBackslashes("n") == "n";
    LettersEscape();
    assert ['\\'] + "n" == "\\n" && ['n'] + "" == "n";
  }

  lemma LettersEscape()
    ensures Escape(['\\'] + "n") == "\\\\" + "n" && "\\\\" + "n" == "\\\\n"
  {
    PromqlLiterals.EscapeCons('\\', "n");
    PromqlLiterals.EscapeCons('n', "");
    NothingEscaped();
    assert ['n'] + "" == "n" && ("" + "n") == "n";
  }

  // ---------- what is printed ----------

  lemma QuotedLetter()
    ensures QuoteValue("b") == "\"b\""
  {
    assert "b"[1..] == "";
    assert DoubleBackslashes("b") == "b" && EscapeQuotes("b") == "b";
  }

  /** The four comparisons as PromQL writes them. */
  lemma FilterTexts()
    ensures FilterText(LabelFilter("a", Eq, "b")) == "a=\"b\"" && FilterText(LabelFilter("a", Ne, "b")) == "a!=\"b\""
    ensures FilterText(LabelFilter("a", Re, "b")) == "a=~\"b\"" && FilterText(LabelFilter("a", Nre, "b")) == "a!~\"b\""
  {
    QuotedLetter();
    hide QuoteValue;
  }

  lemma PrintedBlock()
    ensures SerializeFilters([LabelFilter("a", Re, "b")]) == "{a=~\"b\"}"
  {
    var filters := [LabelFilter("a", Re, "b")];
    FilterTexts();
    assert filters[1..] == [];
    hide FilterText;
    assert PrintedFilters(filters) == ["a=~\"b\""] + [];
  }

  /** A whole model as PromQL. */
  lemma PrintedText()
    ensures SerializePromQL(Model("m", [LabelFilter("a", Re, "b")], true, "5m", Sum, ["c"], None))
      == "sum" + " by (c)" + "(" + ("rate(" + "m{a=~\"b\"}" + "[" + "5m" + "])") + ")"
  {
    PrintedBlock();
    hide SerializeFilters;
    assert "m" + "{a=~\"b\"}" == "m{a=~\"b\"}";
    assert " by (" + Join(["c"], ", ") + ")" == " by (c)";
  }
}
