/** Terms and whole queries: parsing what the builder printed gives the model back, up to what
    the text cannot carry. */
module PromqlInverse {
  import opened Options
  import opened Text
  import opened DelimScan
  import opened PromqlBuilder
  import opened PromqlRoundTrip

  // ---------- grouping labels ----------

  ghost predicate Labels(names: seq<string>) { forall l | l in names :: IsLabelName(l) }

  lemma IndexOfCharAt(s: string, c: char, rest: string)
    requires forall i | 0 <= i < |s| :: s[i] != c
    requires rest == "" || rest[0] == c
    ensures IndexOfChar(s + rest, c) == |s|
  {
    var i := IndexOfChar(s + rest, c);
    assert rest != "" ==> (s + rest)[|s|] == c;
    assert forall j | 0 <= j < |s| :: (s + rest)[j] == s[j];
  }

  lemma LabelChars(name: string)
    requires IsLabelName(name)
    ensures Tight(name)
    ensures forall i | 0 <= i < |name| :: name[i] != ',' && name[i] != ')'
    ensures IsPlain(name)
  {
    assert forall i | 0 <= i < |name| :: IsWord(name[i]);
  }

  lemma TrimmedCons(pad: string, name: string, rest: seq<string>)
    requires IsLabelName(name) && (pad == "" || pad == " ")
    ensures TrimmedNonEmpty([pad + name] + rest) == [name] + TrimmedNonEmpty(rest)
  {
    LabelChars(name);
    TrimPadded(pad, name, "");
    assert pad + name + "" == pad + name;
    assert ([pad + name] + rest)[1..] == rest;
  }

  lemma NoCommaIn(pad: string, name: string)
    requires IsLabelName(name) && (pad == "" || pad == " ")
    ensures forall i | 0 <= i < |pad + name| :: (pad + name)[i] != ','
  {
    LabelChars(name);
  }

  lemma SplitLast(s: string)
    requires forall i | 0 <= i < |s| :: s[i] != ','
    ensures SplitCommas(s) == [s]
  {
    IndexOfCharAt(s, ',', "");
    assert s + "" == s;
  }

  lemma SplitFirst(s: string, rest: string)
    requires forall i | 0 <= i < |s| :: s[i] != ','
    ensures SplitCommas(s + ("," + rest)) == [s] + SplitCommas(rest)
  {
    IndexOfCharAt(s, ',', "," + rest);
    var t := s + ("," + rest);
    assert t[..|s|] == s && t[|s| + 1..] == rest;
  }

  lemma JoinFirst(pad: string, names: seq<string>)
    requires |names| > 1
    ensures pad + Join(names, ", ") == (pad + names[0]) + ("," + (" " + Join(names[1..], ", ")))
  {
    assert names[0] + ", " + Join(names[1..], ", ") == names[0] + ("," + (" " + Join(names[1..], ", ")));
  }

  /** Splitting the printed label list on commas and trimming gives the labels back. */
  lemma {:induction false} LabelsParse(pad: string, names: seq<string>)
    requires Labels(names) && names != [] && (pad == "" || pad == " ")
    ensures TrimmedNonEmpty(SplitCommas(pad + Join(names, ", "))) == names
    decreases |names|
  {
    hide Trim, IsLabelName, SplitCommas, TrimmedNonEmpty, Join;
    var first := names[0];
    assert first in names && names == [first] + names[1..];
    NoCommaIn(pad, first);
    if |names| == 1 {
      JoinOne(first);
      SplitLast(pad + first);
      TrimmedCons(pad, first, []);
      assert [pad + first] + [] == [pad + first] && names == [first];
    } else {
      JoinFirst(pad, names);
      SplitFirst(pad + first, " " + Join(names[1..], ", "));
      LabelsParse(" ", names[1..]);
      TrimmedCons(pad, first, SplitCommas(" " + Join(names[1..], ", ")));
    }
  }

  lemma JoinOne(name: string)
    ensures Join([name], ", ") == name && TrimmedNonEmpty([]) == []
  {
  }

  lemma {:induction false} LabelListPlain(names: seq<string>)
    requires Labels(names)
    ensures IsPlain(Join(names, ", "))
    ensures forall i | 0 <= i < |Join(names, ", ")| :: Join(names, ", ")[i] != ')'
  {
    if names != [] {
      assert names[0] in names;
      LabelChars(names[0]);
      if |names| > 1 { LabelListPlain(names[1..]); }
    }
  }

  // ---------- aggregation ----------

  /** The printed clause between the aggregation word and its argument. */
  function ByText(groupBy: seq<string>): string {
    if groupBy == [] then "" else " by (" + Join(groupBy, ", ") + ")"
  }

  lemma OneSpace(rest: string)
    requires rest == "" || !IsSpace(rest[0])
    ensures SkipSpaces(" " + rest) == 1
  {
    TrimStartPadded(" ", rest);
  }

  lemma ByClauseParses(list: string, arg: string)
    requires forall i | 0 <= i < |list| :: list[i] != ')'
    requires arg != "" && arg[0] == '('
    ensures ByClause("by (" + list + ")" + arg) == Some((list, |list| + 5))
  {
    var s := "by (" + list + ")" + arg;
    assert s[2..] == " " + ("(" + list + ")" + arg);
    assert (" " + ("(" + list + ")" + arg))[1..] == "(" + list + ")" + arg;
    assert SkipSpaces("(" + list + ")" + arg) == 0;
    OneSpace("(" + list + ")" + arg);
    assert s[4..] == list + (")" + arg);
    IndexOfCharAt(list, ')', ")" + arg);
    assert s[4..4 + |list|] == list;
    assert s[|list| + 5..] == arg;
    assert SkipSpaces(arg) == 0;
  }

  lemma AggWordFound(agg: AggOp, rest: string)
    requires agg != NoAgg
    ensures AggKeyword(AggText(agg) + rest) == agg
    ensures (AggText(agg) + rest)[|AggText(agg)|..] == rest
  {
    var s := AggText(agg) + rest;
    assert forall i | 0 <= i < |AggText(agg)| :: s[i] == AggText(agg)[i];
    assert StartsWithWord(s, AggText(agg));
    assert Lower(s[0]) == AggText(agg)[0] && Lower(s[1]) == AggText(agg)[1];
  }

  lemma AfterWordParses(groupBy: seq<string>, arg: string)
    requires Labels(groupBy) && arg != "" && arg[0] == '('
    ensures AfterWord(ByText(groupBy) + arg).1 == arg
    ensures GroupLabels(AfterWord(ByText(groupBy) + arg).0) == groupBy
  {
    hide ByText, AfterWord, GroupLabels, Join, Labels;
    ByTextIs(groupBy, arg);
    if groupBy == [] {
      ArgumentOnly(arg);
    } else {
      var list := Join(groupBy, ", ");
      LabelListPlain(groupBy);
      LabelsParse("", groupBy);
      assert "" + list == list;
      ClauseParses(list, arg, ByText(groupBy) + arg);
    }
    GroupLabelsAre(AfterWord(ByText(groupBy) + arg).0);
  }

  lemma ByTextIs(groupBy: seq<string>, arg: string)
    ensures ByText(groupBy) + arg
         == if groupBy == [] then arg else " " + ("by (" + Join(groupBy, ", ") + ")" + arg)
  {
    hide Join;
    if groupBy == [] {
      assert "" + arg == arg;
    } else {
      var list := Join(groupBy, ", ");
      assert " by (" + list + ")" + arg == " " + ("by (" + list + ")" + arg);
    }
  }

  lemma GroupLabelsAre(clause: Option<(string, nat)>)
    ensures GroupLabels(clause) == if clause.None? then [] else TrimmedNonEmpty(SplitCommas(clause.value.0))
  {
  }

  lemma ArgumentOnly(rest: string)
    requires rest != "" && rest[0] == '('
    ensures AfterWord(rest) == (None, rest)
  {
    assert rest[0..] == rest;
    assert Lower('(') != 'b';
  }

  lemma ClauseParses(list: string, arg: string, rest: string)
    requires forall i | 0 <= i < |list| :: list[i] != ')'
    requires arg != "" && arg[0] == '(' && rest == " " + ("by (" + list + ")" + arg)
    ensures AfterWord(rest).1 == arg
    ensures AfterWord(rest).0.Some? && AfterWord(rest).0.value.0 == list
  {
    var clause := "by (" + list + ")" + arg;
    OneSpace(clause);
    ByClauseParses(list, arg);
    assert rest[1..] == clause;
    assert clause[|list| + 5..] == arg;
  }

  lemma ArgumentExtracted(inner: string)
    requires Safe(Paren, inner) && Tight(inner)
    ensures Extracted(Trim("(" + inner + ")"), Paren) == Some(inner) && Trim(inner) == inner
  {
    TrimTight("(" + inner + ")");
    ExtractWrapped(inner, Paren);
    TrimTight(inner);
  }

  lemma AggregatedParses(agg: AggOp, groupBy: seq<string>, inner: string)
    requires agg != NoAgg && Labels(groupBy) && Safe(Paren, inner) && Tight(inner)
    ensures StripAggregation(AggText(agg) + (ByText(groupBy) + ("(" + inner + ")")))
         == (agg, groupBy, inner)
  {
    AggWordFound(agg, ByText(groupBy) + ("(" + inner + ")"));
    AfterWordParses(groupBy, "(" + inner + ")");
    ArgumentExtracted(inner);
  }

  lemma NotExtracted(text: string)
    requires text == "" || (text[0] != '(' && !IsSpace(text[0]))
    ensures Extracted(Trim(text), Paren) == None
  {
    TrimKeepsHead(text);
    TrimKeepsHead(Trim(text));
  }

  lemma TrimKeepsHead(text: string)
    requires text == "" || !IsSpace(text[0])
    ensures Trim(text) == "" || Trim(text)[0] == text[0]
    ensures text == "" ==> Trim(text) == ""
  {
    assert TrimStart(text) == text;
    TrimEndIsPrefix(text);
  }

  /** A bare selector has no aggregation, even when its metric name starts with such a word. */
  lemma UnaggregatedSelector(metric: string, filters: seq<LabelFilter>)
    requires IsMetricName(metric) && Named(filters)
    ensures var sel := SelectorText(metric, filters); StripAggregation(sel) == (NoAgg, [], sel)
  {
    var sel := SelectorText(metric, filters);
    var agg := AggKeyword(sel);
    if agg != NoAgg {
      assert sel[0..] == sel;
      WordInMetric(metric, filters, 0, AggText(agg));
      var n := |AggText(agg)|;
      AfterPrefix(metric, filters, n);
      var rest := sel[n..];
      assert rest[0..] == rest;
      NoClause(metric, filters, n);
      NotExtracted(rest);
    }
  }

  lemma NoClause(metric: string, filters: seq<LabelFilter>, n: nat)
    requires IsMetricName(metric) && Named(filters) && n <= |metric|
    requires n <= |SelectorText(metric, filters)|
    ensures ByClause(SelectorText(metric, filters)[n..]) == None
  {
    var sel := SelectorText(metric, filters);
    var rest := sel[n..];
    if StartsWithWord(rest, "by") {
      WordInMetric(metric, filters, n, "by");
      AfterPrefix(metric, filters, n + 2);
      assert rest[2..] == sel[n + 2..];
    }
  }

  lemma UnaggregatedRate(body: string)
    ensures StripAggregation("rate" + body) == (NoAgg, [], "rate" + body)
  {
    NoKeyword("rate" + body);
  }

  lemma NoKeyword(text: string)
    requires text != "" && text[0] == 'r'
    ensures AggKeyword(text) == NoAgg
  {
    assert Lower(text[0]) == 'r';
  }

  // ---------- terms ----------

  /** Everything a term needs in order to be readable again. */
  ghost predicate Readable(metric: string, filters: seq<LabelFilter>, rate: bool, win: string,
                           groupBy: seq<string>) {
    IsMetricName(metric) && Named(filters) && (rate ==> IsWindow(win)) && Labels(groupBy)
  }

  lemma InnerShape(metric: string, filters: seq<LabelFilter>, rate: bool, win: string)
    requires Readable(metric, filters, rate, win, [])
    ensures var inner := InnerText(SelectorText(metric, filters), rate, win);
      Piece(inner) && Tight(inner) && StripAggregation(inner) == (NoAgg, [], inner)
  {
    hide Piece, Tight, StripAggregation, SelectorText;
    var sel := SelectorText(metric, filters);
    SelectorShape(metric, filters);
    InnerPiece(sel, rate, win);
    if rate {
      UnaggregatedRate("(" + sel + "[" + win + "])");
      assert InnerText(sel, rate, win) == "rate" + ("(" + sel + "[" + win + "])");
    } else {
      UnaggregatedSelector(metric, filters);
    }
  }

  lemma InnerParses(metric: string, filters: seq<LabelFilter>, rate: bool, win: string)
    requires Readable(metric, filters, rate, win, [])
    ensures var sel := SelectorText(metric, filters);
      StripRate(InnerText(sel, rate, win)) == Some((rate, if rate then win else WINDOW_TOKEN, sel))
  {
    SelectorShape(metric, filters);
    if rate {
      RatedParses(SelectorText(metric, filters), win);
    } else {
      UnratedParses(metric, filters);
    }
  }

  /** A printed term in the shape the lemmas above read. */
  lemma TermIs(metric: string, filters: seq<LabelFilter>, rate: bool, win: string,
               agg: AggOp, groupBy: seq<string>)
    requires metric != ""
    ensures var inner := InnerText(SelectorText(metric, filters), rate, win);
      SerializeTerm(metric, filters, rate, win, agg, groupBy)
        == if agg == NoAgg then inner else AggText(agg) + (ByText(groupBy) + ("(" + inner + ")"))
  {
  }

  lemma AggregatePiece(agg: AggOp, groupBy: seq<string>, inner: string)
    requires agg != NoAgg && Labels(groupBy) && Piece(inner)
    ensures var t := AggText(agg) + (ByText(groupBy) + ("(" + inner + ")"));
      Piece(t) && Tight(t)
  {
    hide Piece, Tight;
    var arg := "(" + inner + ")";
    ParenPiece(inner);
    if groupBy == [] {
      PlainPiece("");
    } else {
      var list := Join(groupBy, ", ");
      LabelListPlain(groupBy);
      PlainPiece(" by ");
      PlainPiece(list);
      ParenPiece(list);
      PieceConcat(" by ", "(" + list + ")");
      assert ByText(groupBy) == " by " + ("(" + list + ")");
    }
    PieceConcat(ByText(groupBy), arg);
    PlainPiece(AggText(agg));
    PieceConcat(AggText(agg), ByText(groupBy) + arg);
    AggregateEnds(agg, ByText(groupBy), inner);
  }

  lemma AggregateEnds(agg: AggOp, clause: string, inner: string)
    requires agg != NoAgg
    ensures Tight(AggText(agg) + (clause + ("(" + inner + ")")))
  {
    var t := AggText(agg) + (clause + ("(" + inner + ")"));
    assert t[0] == AggText(agg)[0] && t[|t| - 1] == ')';
  }

  /** A printed term stands at top level with no dash, and any padding around it is trimmed. */
  lemma TermShape(metric: string, filters: seq<LabelFilter>, rate: bool, win: string,
                  agg: AggOp, groupBy: seq<string>)
    requires Readable(metric, filters, rate, win, groupBy)
    ensures var t := SerializeTerm(metric, filters, rate, win, agg, groupBy);
      Piece(t) && Tight(t)
  {
    TermIs(metric, filters, rate, win, agg, groupBy);
    InnerShape(metric, filters, rate, win);
    if agg != NoAgg {
      AggregatePiece(agg, groupBy, InnerText(SelectorText(metric, filters), rate, win));
    }
  }

  lemma TermStripped(metric: string, filters: seq<LabelFilter>, rate: bool, win: string,
                     agg: AggOp, groupBy: seq<string>)
    requires Readable(metric, filters, rate, win, groupBy)
    ensures StripAggregation(SerializeTerm(metric, filters, rate, win, agg, groupBy))
         == (agg, if agg == NoAgg then [] else groupBy,
             InnerText(SelectorText(metric, filters), rate, win))
  {
    TermIs(metric, filters, rate, win, agg, groupBy);
    InnerShape(metric, filters, rate, win);
    if agg != NoAgg {
      AggregatedParses(agg, groupBy, InnerText(SelectorText(metric, filters), rate, win));
    }
  }

  lemma TermParses(before: string, after: string, metric: string, filters: seq<LabelFilter>,
                   rate: bool, win: string, agg: AggOp, groupBy: seq<string>)
    requires AllSpace(before) && AllSpace(after)
    requires Readable(metric, filters, rate, win, groupBy)
    ensures ParsedTerm(before + SerializeTerm(metric, filters, rate, win, agg, groupBy) + after)
         == Some(Term(metric, filters, rate, if rate then win else WINDOW_TOKEN, agg,
                      if agg == NoAgg then [] else groupBy))
  {
    var t := SerializeTerm(metric, filters, rate, win, agg, groupBy);
    TermShape(metric, filters, rate, win, agg, groupBy);
    TrimPadded(before, t, after);
    TermStripped(metric, filters, rate, win, agg, groupBy);
    InnerParses(metric, filters, rate, win);
    SelectorParses(metric, filters);
  }

  // ---------- queries ----------

  /** The model with everything erased that its text cannot carry. */
  function Carried(m: Model): Model {
    m.(win := if m.rate then m.win else WINDOW_TOKEN,
       groupBy := if m.agg == NoAgg then [] else m.groupBy,
       subtract := if m.subtract.Some? && m.subtract.value.metric == "" then None else m.subtract)
  }

  /** Completeness without the demand that label values be filled in. */
  ghost predicate Printable(m: Model) {
    && Readable(m.metric, m.filters, m.rate, m.win, m.groupBy)
    && (m.subtract.Some? && m.subtract.value.metric != "" ==>
          Readable(m.subtract.value.metric, m.subtract.value.filters, m.rate, m.win, m.groupBy))
  }

  lemma NoMinus(t: string)
    requires Piece(t)
    ensures FirstMinus(t, 0) == |t|
  {
  }

  lemma NoMinusInside(lead: string, rest: string, j: nat)
    requires DashesQuoted(lead) && j < |lead|
    ensures !MinusAt(lead + rest, j)
  {
    AtLeft(Both, Start, lead, rest, j);
    assert (lead + rest)[j] == lead[j];
  }

  lemma FirstMinusIs(t: string, k: nat)
    requires k < |t| && MinusAt(t, k) && forall j | 0 <= j < k :: !MinusAt(t, j)
    ensures FirstMinus(t, 0) == k
  {
  }

  lemma MinusBetween(a: string, b: string)
    requires a != "" && Run(Both, Start, a + " ") == Start
    ensures MinusAt(a + " " + ("- " + b), |a| + 1)
  {
    var lead, rest := a + " ", "- " + b;
    var t := lead + rest;
    AtLeft(Both, Start, lead, rest, |lead|);
    hide At;
    assert t[|a|] == lead[|a|] && t[|a| + 1] == rest[0] && t[|a| + 2] == rest[1];
  }

  lemma MinusFound(a: string, b: string)
    requires Piece(a) && a != ""
    ensures FirstMinus(a + " " + ("- " + b), 0) == |a| + 1
  {
    var lead, rest := a + " ", "- " + b;
    PlainPiece(" ");
    PieceConcat(a, " ");
    assert Run(Both, Start, lead) == Start && DashesQuoted(lead);
    hide At, Safe, DashesQuoted, MinusAt, Piece, FirstMinus;
    forall j | 0 <= j < |lead| ensures !MinusAt(lead + rest, j) { NoMinusInside(lead, rest, j); }
    MinusBetween(a, b);
    FirstMinusIs(lead + rest, |a| + 1);
  }

  /** The builder's two modes stay in step: the parser gives back every printable model, up to
      what the text cannot carry. */
  lemma RoundTrip(m: Model)
    requires Printable(m)
    ensures ParsedPromQL(SerializePromQL(m)) == Some(Carried(m))
  {
    if m.subtract.Some? && m.subtract.value.metric != "" {
      DifferenceParses(m, m.subtract.value);
    } else {
      AloneParses(m);
    }
  }

  lemma AloneParses(m: Model)
    requires Printable(m) && (m.subtract.None? || m.subtract.value.metric == "")
    ensures ParsedPromQL(SerializePromQL(m)) == Some(Carried(m))
  {
    var main := SerializeTerm(m.metric, m.filters, m.rate, m.win, m.agg, m.groupBy);
    TermShape(m.metric, m.filters, m.rate, m.win, m.agg, m.groupBy);
    SingleParses(main);
    TermAlone(m);
  }

  lemma TermAlone(m: Model)
    requires Readable(m.metric, m.filters, m.rate, m.win, m.groupBy)
    ensures ParsedTerm(SerializeTerm(m.metric, m.filters, m.rate, m.win, m.agg, m.groupBy))
         == Some(Term(m.metric, m.filters, m.rate, if m.rate then m.win else WINDOW_TOKEN, m.agg,
                      if m.agg == NoAgg then [] else m.groupBy))
  {
    hide ParsedTerm, SerializeTerm;
    TermParses("", "", m.metric, m.filters, m.rate, m.win, m.agg, m.groupBy);
    var main := SerializeTerm(m.metric, m.filters, m.rate, m.win, m.agg, m.groupBy);
    assert "" + main + "" == main;
  }

  lemma SingleParses(main: string)
    requires Piece(main) && Tight(main)
    ensures ParsedPromQL(main) == SingleTerm(ParsedTerm(main))
  {
    TrimTight(main);
    NoMinus(main);
  }

  lemma DifferenceSplits(main: string, sub: string)
    requires Piece(main) && Tight(main) && Tight(sub)
    ensures ParsedPromQL(main + " - " + sub)
         == Difference(ParsedTerm("" + main + " "), ParsedTerm(" " + sub + ""))
  {
    hide Piece, ParsedTerm, Difference;
    var text := main + " " + ("- " + sub);
    assert main + " - " + sub == text;
    assert text[0] == main[0] && text[|text| - 1] == sub[|sub| - 1];
    TrimTight(text);
    MinusFound(main, sub);
    assert text[..|main| + 1] == "" + main + " ";
    assert text[|main| + 2..] == " " + sub + "";
  }

  lemma DifferenceParses(m: Model, s: MetricTerm)
    requires Printable(m) && m.subtract == Some(s) && s.metric != ""
    ensures ParsedPromQL(SerializePromQL(m)) == Some(Carried(m))
  {
    TermShape(m.metric, m.filters, m.rate, m.win, m.agg, m.groupBy);
    TermShape(s.metric, s.filters, m.rate, m.win, m.agg, m.groupBy);
    DifferenceSplits(SerializeTerm(m.metric, m.filters, m.rate, m.win, m.agg, m.groupBy),
                     SerializeTerm(s.metric, s.filters, m.rate, m.win, m.agg, m.groupBy));
    TermParses("", " ", m.metric, m.filters, m.rate, m.win, m.agg, m.groupBy);
    TermParses(" ", "", s.metric, s.filters, m.rate, m.win, m.agg, m.groupBy);
  }

  lemma CompleteIsPrintable(m: Model)
    requires IsModelComplete(m)
    ensures Printable(m)
  {
  }

  /** The texts of the two show one aggregation, rate, window and grouping. */
  predicate SameShape(x: Model, y: Model) {
    && x.agg == y.agg && x.rate == y.rate
    && (x.rate ==> x.win == y.win) && (x.agg != NoAgg ==> x.groupBy == y.groupBy)
  }

  /** A difference of two printed terms is read exactly when both have one shape, and then as the first
      minus the metric and filters of the second: anything else would change the query. */
  lemma DifferenceIff(x: Model, y: Model)
    requires Printable(x) && Printable(y) && x.subtract.None? && y.subtract.None?
    ensures ParsedPromQL(SerializePromQL(x) + " - " + SerializePromQL(y))
      == if SameShape(x, y) then Some(Carried(x).(subtract := Some(MetricTerm(y.metric, y.filters)))) else None
  {
    TermShape(x.metric, x.filters, x.rate, x.win, x.agg, x.groupBy);
    TermShape(y.metric, y.filters, y.rate, y.win, y.agg, y.groupBy);
    hide ParsedPromQL, SerializeTerm, ParsedTerm, Piece, Tight, Readable;
    DifferenceSplits(SerializeTerm(x.metric, x.filters, x.rate, x.win, x.agg, x.groupBy),
                     SerializeTerm(y.metric, y.filters, y.rate, y.win, y.agg, y.groupBy));
    TermParses("", " ", x.metric, x.filters, x.rate, x.win, x.agg, x.groupBy);
    TermParses(" ", "", y.metric, y.filters, y.rate, y.win, y.agg, y.groupBy);
  }

  // ---------- what the parser gives ----------

  lemma {:induction false} CollectedNamed(segs: seq<Segment>)
    requires forall s | s in segs && s.Filter? :: IsLabelName(s.f.name)
    ensures Collected(segs).Some? ==> Named(Collected(segs).value)
  {
    if segs != [] {
      assert segs[|segs| - 1] in segs;
      CollectedNamed(segs[..|segs| - 1]);
    }
  }

  lemma FoundOpFits(seg: string)
    ensures FindOp(seg).Some? ==> OpFits(seg, FindOp(seg).value)
  {
    hide OpFits;
  }

  lemma ParsedFilterNamed(seg: string)
    ensures ParsedFilter(seg).Some? ==> IsLabelName(ParsedFilter(seg).value.name)
  {
    if FindOp(seg).Some? {
      FoundOpFits(seg);
      var op := FindOp(seg).value;
      SplitNamed(seg, op, IndexOf(seg, OpText(op)));
    }
  }

  lemma SplitNamed(seg: string, op: MatchOp, idx: nat)
    requires idx + |OpText(op)| <= |seg| && IsLabelName(seg[..idx])
    ensures SplitAtOp(seg, op, idx).Some? ==> IsLabelName(SplitAtOp(seg, op, idx).value.name)
  {
    LabelChars(seg[..idx]);
    TrimTight(seg[..idx]);
  }

  lemma AggregationShape(text: string)
    ensures StripAggregation(text).0 == NoAgg ==> StripAggregation(text).1 == []
  {
    hide AfterWord, Extracted, Trim, GroupLabels;
  }

  lemma ParsedTermReadable(input: string)
    ensures ParsedTerm(input).Some? ==>
      var t := ParsedTerm(input).value;
      Readable(t.metric, t.filters, t.rate, t.win, []) &&
      (!t.rate ==> t.win == WINDOW_TOKEN) && (t.agg == NoAgg ==> t.groupBy == [])
  {
    hide Trim, StripAggregation, ParsedSelector, IsMetricName, Named;
    AggregationShape(Trim(input));
    if ParsedTerm(input).Some? {
      var (_, _, inner) := StripAggregation(Trim(input));
      ParsedSelectorReadable(StripRate(inner).value.2);
    }
  }

  lemma ParsedSelectorReadable(text: string)
    ensures ParsedSelector(text).Some? ==>
      IsMetricName(ParsedSelector(text).value.metric) && Named(ParsedSelector(text).value.filters)
  {
    var t := Trim(text);
    var brace := IndexOfChar(t, '{');
    if ParsedSelector(text).Some? && brace < |t| {
      var body := Extracted(t[brace..], Brace).value;
      var segs := Classified(Parts(Trim(body)));
      forall s | s in segs && s.Filter? ensures IsLabelName(s.f.name) {
        var i :| 0 <= i < |segs| && segs[i] == s;
        ParsedFilterNamed(Trim(Parts(Trim(body))[i]));
      }
      CollectedNamed(segs);
    }
  }

  /** A hydrated model whose grouping labels are label names survives being printed and read
      again unchanged, so switching modes back and forth settles after one step. */
  lemma HydratedIsStable(query: string)
    ensures ParsedPromQL(query).Some? && Labels(ParsedPromQL(query).value.groupBy) ==>
      ParsedPromQL(SerializePromQL(ParsedPromQL(query).value)) == ParsedPromQL(query)
  {
    var text := Trim(query);
    if ParsedPromQL(query).Some? && Labels(ParsedPromQL(query).value.groupBy) {
      var m := ParsedPromQL(query).value;
      var minus := FirstMinus(text, 0);
      if minus == |text| {
        ParsedTermReadable(text);
      } else {
        ParsedTermReadable(text[..minus]);
        ParsedTermReadable(text[minus + 1..]);
      }
      RoundTrip(m);
      assert Carried(m) == m;
    }
  }
}
