/** Exactly when the injected look-back clause can be recovered from the stored query. */
module PplLookbackExact {
  import opened Options
  import opened Text
  import opened Decimal
  import opened PplLookback

  // ---------- the scan over concatenated text ----------

  lemma {:induction false} AtLeft(st: Quote, a: string, b: string, i: nat)
    requires i <= |a|
    ensures At(st, a + b, i) == At(st, a, i)
  {
    if i > 0 { AtLeft(st, a, b, i - 1); }
  }

  lemma {:induction false} AtRight(st: Quote, a: string, b: string, j: nat)
    requires j <= |b|
    ensures At(st, a + b, |a| + j) == At(At(st, a, |a|), b, j)
  {
    if j == 0 { AtLeft(st, a, b, |a|); } else { AtRight(st, a, b, j - 1); }
  }

  lemma PipeLeft(a: string, b: string, i: nat)
    requires i < |a|
    ensures PipeAt(a + b, i) == PipeAt(a, i)
  {
    AtLeft(Plain, a, b, i);
  }

  lemma PipeRight(a: string, b: string, i: nat)
    requires At(Plain, a, |a|) == Plain && i < |b|
    ensures PipeAt(a + b, |a| + i) == PipeAt(b, i)
  {
    AtRight(Plain, a, b, i);
  }

  /** State after a text of one character. */
  lemma AtOne(st: Quote, c: char)
    ensures At(st, [c], 1) == Next(st, c)
  {
    assert At(st, [c], 0) == st;
  }

  /** White space changes neither the inside nor the outside of a quote. */
  lemma SpaceKeepsQuote(s: string, i: nat, c: char)
    requires i <= |s| && IsSpace(c)
    ensures Next(At(Plain, s, i), c) == Plain <==> At(Plain, s, i) == Plain
  {
    OpenedByQuote(s, i);
  }

  lemma {:induction false} OpenedByQuote(s: string, i: nat)
    requires i <= |s|
    ensures At(Plain, s, i) == Plain || IsQuote(At(Plain, s, i).q)
  {
    if i > 0 { OpenedByQuote(s, i - 1); }
  }

  /** Neither a pipe nor a quote. */
  predicate IsCalmChar(c: char) { c != '|' && !IsQuote(c) }

  predicate Calm(s: string) { forall i | 0 <= i < |s| :: IsCalmChar(s[i]) }

  lemma {:induction false} CalmAt(s: string, i: nat)
    requires Calm(s) && i <= |s|
    ensures At(Plain, s, i) == Plain
  {
    if i > 0 { CalmAt(s, i - 1); }
  }

  /** A quoted region goes on through text that has no closing quote. */
  lemma {:induction false} StaysQuoted(q: char, st: Quote, s: string, i: nat)
    requires st == In(q) || st == Esc(q)
    requires (forall j | 0 <= j < |s| :: s[j] != q) && i <= |s|
    ensures At(st, s, i) == In(q) || At(st, s, i) == Esc(q)
  {
    if i > 0 { StaysQuoted(q, st, s, i - 1); }
  }

  // ---------- the clause as the scan sees it ----------

  predicate NoBacktick(f: string) { forall i | 0 <= i < |f| :: f[i] != '`' }

  /** Read between backticks, the field does not leave a backslash pending. */
  predicate EscapeClosed(f: string) { At(In('`'), f, |f|) == In('`') }

  /** The field reference ends outside every quote. */
  predicate FieldCloses(f: string) { IsPlainField(f) || EscapeClosed(f) }

  lemma {:induction false} NothingDropped(f: string)
    requires NoBacktick(f)
    ensures DropBackticks(f) == f
  {
    if f != "" {
      assert forall i | 0 <= i < |f[1..]| :: f[1..][i] == f[i + 1];
      NothingDropped(f[1..]);
    }
  }

  function AfterField(minutes: nat): string {
    " > DATE_SUB(NOW(), INTERVAL " + (FormatPplInterval(minutes) + ")")
  }

  predicate Inert(s: string) { Calm(s) && forall i | 0 <= i < |s| :: s[i] != '\\' }

  lemma InertJoin(a: string, b: string)
    requires Inert(a) && Inert(b)
    ensures Inert(a + b)
  {
  }

  lemma DigitsInert(s: string)
    requires Digits(s)
    ensures Inert(s)
  {
    assert forall i | 0 <= i < |s| :: IsDigit(s[i]);
  }

  lemma AfterFieldCalm(minutes: nat)
    ensures Calm(AfterField(minutes))
    ensures forall i | 0 <= i < |AfterField(minutes)| :: AfterField(minutes)[i] != '\\'
  {
    hide NumText;
    var unit := IntervalUnit(minutes);
    var amount := NumText(minutes / UnitMinutes(unit));
    DigitsInert(amount);
    assert Inert(" " + UnitWord(unit) + ")");
    InertJoin(amount, " " + UnitWord(unit) + ")");
    assert FormatPplInterval(minutes) + ")" == amount + (" " + UnitWord(unit) + ")");
    InertJoin(" > DATE_SUB(NOW(), INTERVAL ", FormatPplInterval(minutes) + ")");
  }

  lemma QuotedFieldScan(f: string)
    requires NoBacktick(f)
    ensures var q := "`" + f + "`";
      && (forall i | 0 < i < |q| :: At(Plain, q, i) != Plain)
      && At(Plain, q, |q|) == (if EscapeClosed(f) then Plain else In('`'))
  {
    var q := "`" + f + "`";
    forall i | 0 < i <= |f| + 1
      ensures At(Plain, q, i) == At(In('`'), f, i - 1) && At(Plain, q, i) != Plain
    {
      AtLeft(Plain, "`" + f, "`", i);
      AtRight(Plain, "`", f, i - 1);
      assert At(Plain, "`", 0) == Plain;
      StaysQuoted('`', In('`'), f, i - 1);
    }
    StaysQuoted('`', In('`'), f, |f|);
    assert At(Plain, q, |q|) == Next(At(Plain, q, |f| + 1), '`');
  }

  /** The reference itself holds no top-level pipe. */
  lemma FieldScan(f: string)
    requires NoBacktick(f) && f != ""
    ensures var r := FormatPplField(f);
      && (forall i | 0 <= i < |r| :: !PipeAt(r, i))
      && At(Plain, r, |r|) == (if FieldCloses(f) then Plain else In('`'))
  {
    if IsPlainField(f) {
      assert forall i | 0 <= i < |f| :: IsFieldChar(f[i]);
      assert Calm(f);
      CalmAt(f, |f|);
    } else {
      NothingDropped(f);
      QuotedFieldScan(f);
    }
  }

  /** Only the clause's own pipe is at top level; after the clause the scan is outside quotes
      exactly when the field reference closes. */
  lemma ClauseScan(minutes: nat, f: string)
    requires NoBacktick(f) && f != ""
    ensures var c := BuildClause(minutes, f);
      && |c| > 0 && PipeAt(c, 0)
      && (forall i | 0 < i < |c| :: !PipeAt(c, i))
      && At(Plain, c, |c|) == (if FieldCloses(f) then Plain else In('`'))
  {
    hide *;
    FieldScan(f);
    AfterFieldCalm(minutes);
    LeadScan();
    ClauseIs(minutes, f);
    PartsScan("| where ", FormatPplField(f), AfterField(minutes));
  }

  lemma PartsScan(lead: string, r: string, tail: string)
    requires lead != "" && PipeAt(lead, 0) && At(Plain, lead, |lead|) == Plain
    requires forall i | 0 < i < |lead| :: lead[i] != '|'
    requires forall i | 0 <= i < |r| :: !PipeAt(r, i)
    requires At(Plain, r, |r|) == Plain || At(Plain, r, |r|) == In('`')
    requires Calm(tail) && forall i | 0 <= i < |tail| :: tail[i] != '\\'
    ensures var c := lead + (r + tail);
      && PipeAt(c, 0)
      && (forall i | 0 < i < |c| :: !PipeAt(c, i))
      && At(Plain, c, |c|) == At(Plain, r, |r|)
  {
    hide At;
    var c := lead + (r + tail);
    forall i | 0 < i < |c| ensures !PipeAt(c, i) {
      if i < |lead| {
        assert c[i] == lead[i];
      } else {
        AfterLead(lead, r, tail, i - |lead|);
      }
    }
    PipeLeft(lead, r + tail, 0);
    AtRight(Plain, lead, r + tail, |r + tail|);
    AtRight(Plain, r, tail, |tail|);
    CalmAt(tail, |tail|);
    CalmStaysQuoted(tail);
  }

  lemma AfterLead(lead: string, r: string, tail: string, j: nat)
    requires At(Plain, lead, |lead|) == Plain && Calm(tail) && j < |r + tail|
    requires forall i | 0 <= i < |r| :: !PipeAt(r, i)
    ensures !PipeAt(lead + (r + tail), |lead| + j)
  {
    PipeRight(lead, r + tail, j);
    if j < |r| {
      PipeLeft(r, tail, j);
    } else {
      assert (r + tail)[j] == tail[j - |r|] && IsCalmChar(tail[j - |r|]);
    }
  }

  lemma LeadScan()
    ensures At(Plain, "| where ", 8) == Plain && PipeAt("| where ", 0)
    ensures forall i | 0 < i < 8 :: "| where "[i] != '|'
  {
    assert At(Plain, "| where ", 1) == Plain;
    assert At(Plain, "| where ", 2) == Plain;
    assert At(Plain, "| where ", 3) == Plain;
    assert At(Plain, "| where ", 4) == Plain;
    assert At(Plain, "| where ", 5) == Plain;
    assert At(Plain, "| where ", 6) == Plain;
  }

  lemma ClauseIs(minutes: nat, f: string)
    ensures BuildClause(minutes, f) == "| where " + (FormatPplField(f) + AfterField(minutes))
  {
  }

  /** The text after the field has no backslash, so a pending quote stays exactly as it is. */
  lemma CalmStaysQuoted(s: string)
    requires Calm(s) && forall i | 0 <= i < |s| :: s[i] != '\\'
    ensures At(In('`'), s, |s|) == In('`')
  {
    CalmStaysQuotedAt(s, |s|);
  }

  lemma {:induction false} CalmStaysQuotedAt(s: string, i: nat)
    requires Calm(s) && (forall i | 0 <= i < |s| :: s[i] != '\\') && i <= |s|
    ensures At(In('`'), s, i) == In('`')
  {
    if i > 0 { CalmStaysQuotedAt(s, i - 1); }
  }

  // ---------- the clause as the pattern sees it ----------

  lemma EatText(text: string, rest: string, w: string)
    requires |text| == |w| && forall i | 0 <= i < |w| :: Lower(text[i]) == w[i]
    ensures Eat(text + rest, w) == Some(rest)
  {
    assert (text + rest)[|w|..] == rest;
  }

  lemma BlankTight(s: string)
    requires s == "" || !IsSpace(s[0])
    ensures Blank(s) == s
  {
    assert s[0..] == s;
  }

  lemma BlankOne(s: string)
    requires s == "" || !IsSpace(s[0])
    ensures Blank(" " + s) == s && SomeBlank(" " + s) == Some(s)
  {
    TrimStartPadded(" ", s);
    assert (" " + s)[1..] == s;
  }

  lemma WhereMatches(rest: string)
    requires rest != "" && !IsSpace(rest[0])
    ensures MatchWhere("| where " + rest) == Some(rest)
  {
    assert "| where " + rest == "|" + (" " + ("where" + (" " + rest)));
    EatText("|", " " + ("where" + (" " + rest)), "|");
    BlankOne("where" + (" " + rest));
    EatText("where", " " + rest, "where");
    BlankOne(rest);
  }

  lemma DateSubMatches(rest: string)
    requires rest != "" && !IsSpace(rest[0])
    ensures MatchDateSub(" > DATE_SUB(NOW(), INTERVAL " + rest) == Some(rest)
  {
    hide Eat, Blank, SomeBlank;
    var r6 := " " + rest;
    var r5 := "INTERVAL" + r6;
    var r4 := "," + (" " + r5);
    var r3 := ")" + r4;
    var r2 := "NOW(" + r3;
    var r1 := "DATE_SUB(" + r2;
    assert " > DATE_SUB(NOW(), INTERVAL " + rest == " " + (">" + (" " + r1));
    BlankOne(">" + (" " + r1));
    EatText(">", " " + r1, ">");
    BlankOne(r1);
    EatText("DATE_SUB(", r2, "date_sub(");
    BlankTight(r2);
    EatText("NOW(", r3, "now(");
    BlankTight(r3);
    EatText(")", r4, ")");
    BlankTight(r4);
    EatText(",", " " + r5, ",");
    BlankOne(r5);
    EatText("INTERVAL", r6, "interval");
    BlankOne(rest);
  }

  lemma {:induction false} DigitRunAll(d: string, rest: string)
    requires Digits(d) && (rest == "" || !IsDigit(rest[0]))
    ensures DigitRun(d + rest) == |d|
  {
    if d == "" {
      assert d + rest == rest;
    } else {
      assert (d + rest)[1..] == d[1..] + rest;
      DigitRunAll(d[1..], rest);
    }
  }

  lemma UnitMatches(unit: Unit, rest: string)
    ensures MatchUnit(UnitWord(unit) + rest) == Some((unit, rest))
  {
    var s := UnitWord(unit) + rest;
    assert forall i | 0 <= i < |UnitWord(unit)| :: s[i] == UnitWord(unit)[i];
    assert s[|UnitWord(unit)|..] == rest;
    assert Lower(s[0]) == (match unit case Minutes => 'm' case Hours => 'h' case Days => 'd');
  }

  lemma CloseMatches(rest: string)
    ensures ClosesClause(")" + rest) <==> Blank(rest) == ""
  {
    hide Eat, Blank;
    assert Lower(')') == ')';
    BlankTight(")" + rest);
    EatText(")", rest, ")");
  }

  lemma AmountMatches(minutes: nat, rest: string)
    ensures MatchAmount(FormatPplInterval(minutes) + (")" + rest))
         == if Blank(rest) == "" then
              Some((minutes / UnitMinutes(IntervalUnit(minutes)), IntervalUnit(minutes)))
            else None
  {
    var unit := IntervalUnit(minutes);
    var d := NumText(minutes / UnitMinutes(unit));
    var tail := ")" + rest;
    var s := d + (" " + (UnitWord(unit) + tail));
    assert FormatPplInterval(minutes) + tail == s;
    DigitRunAll(d, " " + (UnitWord(unit) + tail));
    assert s[..|d|] == d && s[|d|..] == " " + (UnitWord(unit) + tail);
    BlankOne(UnitWord(unit) + tail);
    UnitMatches(unit, tail);
    CloseMatches(rest);
    ValueOfText(minutes / UnitMinutes(unit));
  }

  lemma {:induction false} FieldRunAll(f: string, rest: string)
    requires (forall i | 0 <= i < |f| :: IsFieldChar(f[i])) && (rest == "" || !IsFieldChar(rest[0]))
    ensures FieldRun(f + rest) == |f|
  {
    if f == "" {
      assert f + rest == rest;
    } else {
      assert (f + rest)[1..] == f[1..] + rest;
      FieldRunAll(f[1..], rest);
    }
  }

  lemma FieldMatches(f: string, rest: string)
    requires NoBacktick(f) && f != "" && rest != "" && rest[0] == ' '
    ensures FieldLen(FormatPplField(f) + rest) == |FormatPplField(f)|
    ensures UnquoteField(FormatPplField(f)) == f
    ensures FormatPplField(f) != "" && !IsSpace(FormatPplField(f)[0])
  {
    var r := FormatPplField(f);
    if IsPlainField(f) {
      FieldRunAll(f, rest);
    } else {
      NothingDropped(f);
      var s := r + rest;
      assert s[1..] == f + ("`" + rest);
      var i := IndexOfChar(f + ("`" + rest), '`');
      assert (f + ("`" + rest))[|f|] == '`';
      assert forall j | 0 <= j < |f| :: (f + ("`" + rest))[j] == f[j];
      assert i == |f|;
      assert r[1..|r| - 1] == f;
    }
  }

  /** The pattern reads the printed clause back, provided only white space follows it. */
  lemma ClauseMatches(minutes: nat, f: string, rest: string)
    requires NoBacktick(f) && f != ""
    ensures MatchSegment(BuildClause(minutes, f) + rest)
         == if Blank(rest) == "" then
              Some(Clause(FormatPplField(f), minutes / UnitMinutes(IntervalUnit(minutes)),
                          IntervalUnit(minutes)))
            else None
  {
    var r := FormatPplField(f);
    var amount := FormatPplInterval(minutes) + (")" + rest);
    var tail := " > DATE_SUB(NOW(), INTERVAL " + amount;
    assert BuildClause(minutes, f) + rest == "| where " + (r + tail);
    FieldMatches(f, tail);
    AmountMatches(minutes, rest);
    AmountHead(minutes, rest);
    hide FormatPplInterval, FormatPplField, MatchAmount, MatchDateSub, MatchWhere, FieldLen;
    WhereMatches(r + tail);
    assert (r + tail)[|r|..] == tail && (r + tail)[..|r|] == r;
    DateSubMatches(amount);
  }

  lemma AmountHead(minutes: nat, rest: string)
    ensures var s := FormatPplInterval(minutes) + (")" + rest); s != "" && !IsSpace(s[0])
  {
    var d := NumText(minutes / UnitMinutes(IntervalUnit(minutes)));
    assert IsDigit(d[0]);
  }

  // ---------- what the parser does with two known pipes ----------

  lemma ParseIs(query: string)
    ensures FirstPipe(query, 0) == |query| ==> ParseLookBackFromQuery(query) == None
    ensures var start := FirstPipe(query, 0);
      start < |query| ==>
        ParseLookBackFromQuery(query) == ParseSegment(query, start, FirstPipe(query, start + 1))
  {
    hide ParseSegment;
    var start := FirstPipe(query, 0);
    if start < |query| {
      assert PipesFrom(query, 0) == [start] + PipesFrom(query, start + 1);
    }
  }

  lemma FirstPipeIs(s: string, from: nat, k: nat)
    requires from <= k < |s| && PipeAt(s, k)
    requires forall j | from <= j < k :: !PipeAt(s, j)
    ensures FirstPipe(s, from) == k
  {
    var i := FirstPipe(s, from);
    assert i >= k;
  }

  /** A recovered field never holds a backtick. */
  lemma MatchedFieldNoBacktick(seg: string)
    ensures MatchSegment(seg).Some? ==> NoBacktick(UnquoteField(MatchSegment(seg).value.field))
  {
    if MatchSegment(seg).Some? {
      var s := MatchWhere(seg).value;
      FieldNoBacktick(s);
    }
  }

  lemma FieldNoBacktick(s: string)
    requires FieldLen(s) > 0
    ensures NoBacktick(UnquoteField(s[..FieldLen(s)]))
  {
    var n := FieldLen(s);
    var f := s[..n];
    if s[0] == '`' {
      assert UnquoteField(f) == f[1..n - 1] == s[1..][..n - 2];
    } else {
      FieldRunChars(s);
      assert forall i | 0 <= i < n :: f[i] == s[i] && IsFieldChar(s[i]);
    }
  }

  lemma {:induction false} FieldRunChars(s: string)
    ensures forall i | 0 <= i < FieldRun(s) :: IsFieldChar(s[i])
  {
    if s != "" && IsFieldChar(s[0]) {
      FieldRunChars(s[1..]);
      assert forall i | 0 < i < FieldRun(s) :: s[i] == s[1..][i - 1];
    }
  }

  // ---------- the exact condition ----------

  predicate HasPipe(query: string) { PipesFrom(query, 0) != [] }

  predicate QuotesClosed(query: string) { At(Plain, query, |query|) == Plain }

  /** What a caller can check before saving: the field has no backtick, and either the query has
      a top-level pipe and the field reference closes, or it has none and its quotes close. */
  predicate Recoverable(query: string, f: string) {
    && NoBacktick(f)
    && (if HasPipe(query) then FieldCloses(f) else QuotesClosed(query))
  }

  /** The query the user gets back in the editor. */
  function Stripped(query: string): string {
    if HasPipe(query) then query else TrimEnd(query)
  }

  /** Parsing the injected query gives back the field, the window and the user's query. */
  ghost predicate Recovers(query: string, minutes: nat, f: string) {
    var p := ParseLookBackFromQuery(AddTimeFilterToQuery(query, minutes, f));
    p.Some? && p.value.field == f && p.value.minutes == minutes && p.value.query == Stripped(query)
  }

  lemma WindowKept(minutes: nat)
    ensures minutes / UnitMinutes(IntervalUnit(minutes)) * UnitMinutes(IntervalUnit(minutes)) == minutes
  {
  }

  /** The interval is written in the coarsest unit that fits it exactly. */
  lemma CoarsestUnit(minutes: nat, unit: Unit)
    requires minutes % UnitMinutes(unit) == 0
    ensures UnitMinutes(unit) <= UnitMinutes(IntervalUnit(minutes))
    ensures minutes / UnitMinutes(IntervalUnit(minutes)) * UnitMinutes(IntervalUnit(minutes)) == minutes
  {
    WindowKept(minutes);
    if unit == Days { DaysAreHours(minutes); }
  }

  lemma DaysAreHours(minutes: nat)
    requires minutes % 1440 == 0
    ensures minutes % 60 == 0
  {
    assert minutes == 60 * (24 * (minutes / 1440));
  }

  lemma AmountPositive(minutes: nat)
    requires minutes > 0
    ensures minutes / UnitMinutes(IntervalUnit(minutes)) > 0
  {
  }

  lemma PipeStart(query: string)
    requires HasPipe(query)
    ensures var k := FirstPipe(query, 0);
      && k < |query| && PipesFrom(query, 0)[0] == k && At(Plain, query, k) == Plain
      && query[k..] != "" && query[k..][0] == '|'
  {
  }

  /** Of the clause and the blank after it, only the clause's own pipe is a pipe. */
  lemma ClausePipe(head: string, c: string, rest: string, j: nat)
    requires At(Plain, head, |head|) == Plain && rest != "" && rest[0] == ' '
    requires c != "" && PipeAt(c, 0) && forall i | 0 < i < |c| :: !PipeAt(c, i)
    requires j <= |c|
    ensures PipeAt(head + (c + rest), |head| + j) == (j == 0)
  {
    hide At;
    PipeRight(head, c + rest, j);
    if j < |c| { PipeLeft(c, rest, j); } else { assert (c + rest)[j] == ' '; }
  }

  /** Up to the blank after the clause, the injected query has one pipe: where the clause starts. */
  lemma OnePipe(head: string, c: string, rest: string, s: string, j: nat)
    requires At(Plain, head, |head|) == Plain && rest != "" && rest[0] == ' '
    requires forall i | 0 <= i < |head| :: !PipeAt(head, i)
    requires c != "" && PipeAt(c, 0) && forall i | 0 < i < |c| :: !PipeAt(c, i)
    requires s == head + (c + rest) && j <= |head| + |c|
    ensures PipeAt(s, j) == (j == |head|)
  {
    hide At, PipeAt;
    if j < |head| { PipeLeft(head, c + rest, j); } else { ClausePipe(head, c, rest, j - |head|); }
  }

  /** First and second pipe of a text that has one at `n`, none up to `m`, and perhaps one at `m`. */
  lemma FirstTwoPipes(s: string, n: nat, m: nat)
    requires n < m < |s| && PipeAt(s, n)
    requires forall i | 0 <= i < n :: !PipeAt(s, i)
    requires forall i | n < i < m :: !PipeAt(s, i)
    ensures FirstPipe(s, 0) == n
    ensures if PipeAt(s, m) then FirstPipe(s, n + 1) == m else FirstPipe(s, n + 1) > m
  {
    hide At, FirstPipe, PipeAt;
    FirstPipeIs(s, 0, n);
    if PipeAt(s, m) { FirstPipeIs(s, n + 1, m); } else { FirstPipeAbove(s, n + 1, m); }
  }

  /** Where the pipes of the injected query are when the user's query has one at `|head|`. */
  lemma InjectedPipes(head: string, c: string, tail: string)
    requires At(Plain, head, |head|) == Plain && forall i | 0 <= i < |head| :: !PipeAt(head, i)
    requires c != "" && PipeAt(c, 0) && forall i | 0 < i < |c| :: !PipeAt(c, i)
    requires tail != "" && tail[0] == '|'
    requires At(Plain, c, |c|) == Plain || At(Plain, c, |c|) == In('`')
    ensures var s := head + (c + (" " + tail));
      && FirstPipe(s, 0) == |head|
      && (At(Plain, c, |c|) == Plain ==> FirstPipe(s, |head| + 1) == |head| + |c| + 1)
      && (At(Plain, c, |c|) == In('`') ==> FirstPipe(s, |head| + 1) > |head| + |c| + 1)
  {
    hide At, FirstPipe, PipeAt;
    var rest := " " + tail;
    var s := head + (c + rest);
    SecondPipe(head, c, tail);
    assert rest[0] == ' ';
    forall j | 0 <= j <= |head| + |c| ensures PipeAt(s, j) == (j == |head|) { OnePipe(head, c, rest, s, j); }
    FirstTwoPipes(s, |head|, |head| + |c| + 1);
  }

  lemma SecondPipe(head: string, c: string, tail: string)
    requires At(Plain, head, |head|) == Plain && tail != "" && tail[0] == '|'
    requires At(Plain, c, |c|) == Plain || At(Plain, c, |c|) == In('`')
    ensures PipeAt(head + (c + (" " + tail)), |head| + |c| + 1) == (At(Plain, c, |c|) == Plain)
  {
    var after := c + (" " + tail);
    PipeRight(head, after, |c| + 1);
    AtRight(Plain, c, " " + tail, 1);
    AtLeft(At(Plain, c, |c|), " ", tail, 1);
    AtOne(At(Plain, c, |c|), ' ');
    assert after[|c| + 1] == '|';
  }

  lemma FirstPipeAbove(s: string, from: nat, k: nat)
    requires from <= k < |s| && forall j | from <= j <= k :: !PipeAt(s, j)
    ensures FirstPipe(s, from) > k
  {
  }

  /** The head of a query before its first pipe. */
  lemma HeadNoPipe(query: string, k: nat)
    requires k <= |query| && At(Plain, query, k) == Plain
    requires forall i | 0 <= i < k :: !PipeAt(query, i)
    ensures At(Plain, query[..k], k) == Plain
    ensures forall i | 0 <= i < k :: !PipeAt(query[..k], i)
  {
    var head, tail := query[..k], query[k..];
    assert query == head + tail;
    AtLeft(Plain, head, tail, k);
    forall i | 0 <= i < k ensures !PipeAt(head, i) {
      PipeLeft(head, tail, i);
      assert !PipeAt(query, i);
    }
  }

  lemma InjectedIs(query: string, minutes: nat, f: string)
    requires query != "" && f != "" && minutes > 0 && HasPipe(query)
    ensures var k := FirstPipe(query, 0);
      AddTimeFilterToQuery(query, minutes, f)
        == query[..k] + (BuildClause(minutes, f) + (" " + query[k..]))
  {
    hide BuildClause;
    PipeStart(query);
  }

  /** With a top-level pipe in the query, only the field reference matters. */
  lemma PipedRecovers(query: string, minutes: nat, f: string)
    requires f != "" && minutes > 0 && HasPipe(query) && NoBacktick(f)
    ensures Recovers(query, minutes, f) <==> FieldCloses(f)
  {
    hide *;
    PipeStart(query);
    InjectedIs(query, minutes, f);
    HeadNoPipe(query, FirstPipe(query, 0));
    ClauseScan(minutes, f);
    PipedAround(query[..FirstPipe(query, 0)], minutes, f, query[FirstPipe(query, 0)..]);
    assert query == query[..FirstPipe(query, 0)] + query[FirstPipe(query, 0)..];
    RecoversIs(query, minutes, f);
  }

  lemma RecoversIs(query: string, minutes: nat, f: string)
    requires HasPipe(query)
    ensures Recovers(query, minutes, f) <==>
      var p := ParseLookBackFromQuery(AddTimeFilterToQuery(query, minutes, f));
      p.Some? && p.value.field == f && p.value.minutes == minutes && p.value.query == query
  {
    hide ParseLookBackFromQuery, AddTimeFilterToQuery;
  }

  lemma PipedAround(head: string, minutes: nat, f: string, tail: string)
    requires NoBacktick(f) && f != "" && minutes > 0 && tail != "" && tail[0] == '|'
    requires At(Plain, head, |head|) == Plain && forall i | 0 <= i < |head| :: !PipeAt(head, i)
    ensures var p := ParseLookBackFromQuery(head + (BuildClause(minutes, f) + (" " + tail)));
      (p.Some? && p.value.field == f && p.value.minutes == minutes && p.value.query == head + tail)
        <==> FieldCloses(f)
  {
    hide *;
    var c := BuildClause(minutes, f);
    var s := head + (c + (" " + tail));
    ClauseScan(minutes, f);
    InjectedPipes(head, c, tail);
    ParseIs(s);
    PipedParsed(head, minutes, f, tail, FirstPipe(s, |head| + 1));
  }

  lemma PipedParsed(head: string, minutes: nat, f: string, tail: string, end: nat)
    requires NoBacktick(f) && f != "" && minutes > 0 && tail != "" && tail[0] == '|'
    requires var s := head + (BuildClause(minutes, f) + (" " + tail));
      |head| + |BuildClause(minutes, f)| < end <= |s|
    ensures var c := BuildClause(minutes, f);
      var s := head + (c + (" " + tail));
      if end == |head| + |c| + 1 then
        ParseSegment(s, |head|, end) == Some(LookBack(f, minutes / UnitMinutes(IntervalUnit(minutes)),
          IntervalUnit(minutes), minutes, head + tail))
      else ParseSegment(s, |head|, end) == None
  {
    hide BuildClause, MatchSegment, FormatPplField, UnquoteField, Blank, IntervalUnit, UnitMinutes;
    AmountPositive(minutes);
    var c := BuildClause(minutes, f);
    var s := head + (c + (" " + tail));
    var rest := (" " + tail)[..end - |head| - |c|];
    assert s[|head|..end] == c + rest;
    ClauseMatches(minutes, f, rest);
    FieldMatches(f, " ");
    WindowKept(minutes);
    if end == |head| + |c| + 1 {
      assert rest == " " + "";
      BlankOne("");
      assert s[..|head|] == head && s[end..] == tail;
    } else {
      assert rest == " " + tail[..end - |head| - |c| - 1];
      BlankOne(tail[..end - |head| - |c| - 1]);
    }
  }

  /** Trailing white space does not close a quote, nor open one. */
  lemma {:induction false} TrimKeepsQuotes(query: string)
    ensures QuotesClosed(TrimEnd(query)) <==> QuotesClosed(query)
  {
    if query != "" && IsSpace(query[|query| - 1]) {
      var n := |query| - 1;
      AtLeft(Plain, query[..n], query[n..], n);
      assert query == query[..n] + query[n..];
      SpaceKeepsQuote(query, n, query[n]);
      assert At(Plain, query, n + 1) == Next(At(Plain, query, n), query[n]);
      TrimKeepsQuotes(query[..n]);
    }
  }

  lemma PrefixNoPipe(query: string, t: string)
    requires !HasPipe(query) && t <= query
    ensures forall i | 0 <= i < |t| :: !PipeAt(t, i)
  {
    assert query == t + query[|t|..];
    forall i | 0 <= i < |t| ensures !PipeAt(t, i) {
      AtLeft(Plain, t, query[|t|..], i);
      assert !PipeAt(query, i);
    }
  }

  lemma AppendedIs(query: string, minutes: nat, f: string)
    requires query != "" && f != "" && minutes > 0 && !HasPipe(query)
    ensures AddTimeFilterToQuery(query, minutes, f)
         == TrimEnd(query) + " " + BuildClause(minutes, f)
  {
  }

  /** Without a pipe, the clause is recovered when the user's quotes are closed. */
  lemma AppendedRecovers(query: string, minutes: nat, f: string)
    requires query != "" && f != "" && minutes > 0 && !HasPipe(query) && NoBacktick(f)
    requires QuotesClosed(query)
    ensures Recovers(query, minutes, f)
  {
    hide BuildClause, ParseLookBackFromQuery, ParseSegment, AddTimeFilterToQuery, At, FirstPipe,
         TrimEnd, PipesFrom, QuotesClosed, HasPipe, IntervalUnit, UnitMinutes;
    var t, c := TrimEnd(query), BuildClause(minutes, f);
    TrimKeepsQuotes(query);
    TrimEndIsPrefix(query);
    PrefixNoPipe(query, t);
    ClauseScan(minutes, f);
    AppendedIs(query, minutes, f);
    AppendedPipes(t, c);
    ParseIs(t + " " + c);
    AppendedParsed(t, minutes, f);
    TrimEndStable(t, query);
  }

  lemma AppendedParsed(t: string, minutes: nat, f: string)
    requires NoBacktick(f) && f != "" && minutes > 0
    ensures var s := t + " " + BuildClause(minutes, f);
      ParseSegment(s, |t| + 1, |s|) == Some(LookBack(f, minutes / UnitMinutes(IntervalUnit(minutes)),
        IntervalUnit(minutes), minutes, TrimEnd(t + " ")))
  {
    hide BuildClause, MatchSegment, FormatPplField, UnquoteField, Blank, TrimEnd, IntervalUnit,
         UnitMinutes;
    var lead, c := t + " ", BuildClause(minutes, f);
    var s := lead + c;
    ClauseMatches(minutes, f, "");
    BlankTight("");
    FieldMatches(f, " ");
    WindowKept(minutes);
    AmountPositive(minutes);
    assert s[|lead|..|s|] == c + "" && s[..|lead|] == lead;
  }

  lemma TrimEndStable(t: string, query: string)
    requires t == TrimEnd(query)
    ensures TrimEnd(t + " ") == t
  {
    TrimEndLast(query);
    TrimEndPadded(t, " ");
  }

  lemma {:induction false} TrimEndLast(query: string)
    ensures var t := TrimEnd(query); t == "" || !IsSpace(t[|t| - 1])
  {
    if query != "" { TrimEndLast(query[..|query| - 1]); }
  }

  lemma AppendedPipes(t: string, c: string)
    requires QuotesClosed(t) && c != "" && PipeAt(c, 0)
    requires forall i | 0 <= i < |t| :: !PipeAt(t, i)
    requires forall i | 0 < i < |c| :: !PipeAt(c, i)
    ensures var s := t + " " + c;
      FirstPipe(s, 0) == |t| + 1 && FirstPipe(s, |t| + 2) == |s|
  {
    var lead := t + " ";
    var s := lead + c;
    AtRight(Plain, t, " ", 1);
    AtOne(Plain, ' ');
    hide At, FirstPipe;
    forall i | 0 <= i < |lead| ensures !PipeAt(s, i) {
      PipeLeft(lead, c, i);
      if i < |t| { PipeLeft(t, " ", i); }
    }
    forall j | |lead| <= j < |s| ensures PipeAt(s, j) == (j == |lead|) {
      PipeRight(lead, c, j - |lead|);
    }
    FirstPipeIs(s, 0, |lead|);
    NoneAfter(s, |lead| + 1);
  }

  lemma NoneAfter(s: string, from: nat)
    requires from <= |s| && forall j | from <= j < |s| :: !PipeAt(s, j)
    ensures FirstPipe(s, from) == |s|
  {
  }

  /** Inside an unclosed quote the clause's own pipe is not at top level, and whatever the parser
      then returns is longer than the user's query. */
  lemma UnclosedLost(query: string, minutes: nat, f: string)
    requires query != "" && f != "" && minutes > 0 && !HasPipe(query)
    requires !QuotesClosed(query)
    ensures !Recovers(query, minutes, f)
  {
    hide *;
    var t, c := TrimEnd(query), BuildClause(minutes, f);
    TrimKeepsQuotes(query);
    TrimEndIsPrefix(query);
    PrefixNoPipe(query, t);
    AppendedIs(query, minutes, f);
    ClauseStart(minutes, f);
    UnclosedPipes(t, c);
    UnclosedParsed(t, c);
    RecoversUnpiped(query, minutes, f);
  }

  lemma ClauseStart(minutes: nat, f: string)
    ensures BuildClause(minutes, f) != "" && BuildClause(minutes, f)[0] == '|'
  {
  }

  lemma RecoversUnpiped(query: string, minutes: nat, f: string)
    requires !HasPipe(query)
    ensures Recovers(query, minutes, f) ==>
      var p := ParseLookBackFromQuery(AddTimeFilterToQuery(query, minutes, f));
      p.Some? && p.value.query == TrimEnd(query)
  {
    hide ParseLookBackFromQuery, AddTimeFilterToQuery;
  }

  lemma UnclosedParsed(t: string, c: string)
    requires c != "" && c[0] == '|' && FirstPipe(t + " " + c, 0) > |t| + 1
    ensures var p := ParseLookBackFromQuery(t + " " + c); p.Some? ==> |p.value.query| > |t|
  {
    hide *;
    var s := t + " " + c;
    ParseIs(s);
    BarNotSpace();
    var start := FirstPipe(s, 0);
    if start < |s| { LongerParsed(s, start, FirstPipe(s, start + 1), |t| + 1); }
  }

  lemma BarNotSpace()
    ensures !IsSpace('|')
  {
  }

  lemma LongerParsed(s: string, start: nat, end: nat, i: nat)
    requires i < start <= end <= |s| && !IsSpace(s[i])
    ensures ParseSegment(s, start, end).Some? ==> |ParseSegment(s, start, end).value.query| > i
  {
    hide MatchSegment;
    TrimEndKeeps(s[..start], i);
  }

  lemma UnclosedPipes(t: string, c: string)
    requires !QuotesClosed(t) && c != "" && forall i | 0 <= i < |t| :: !PipeAt(t, i)
    ensures FirstPipe(t + " " + c, 0) > |t| + 1
  {
    var lead := t + " ";
    var s := lead + c;
    AtRight(Plain, t, " ", 1);
    AtOne(At(Plain, t, |t|), ' ');
    SpaceKeepsQuote(t, |t|, ' ');
    AtLeft(Plain, lead, c, |lead|);
    hide At, FirstPipe;
    forall i | 0 <= i <= |lead| ensures !PipeAt(s, i) {
      if i < |lead| {
        PipeLeft(lead, c, i);
        if i < |t| { PipeLeft(t, " ", i); }
      }
    }
    FirstPipeAbove(s, 0, |lead|);
  }

  lemma {:induction false} TrimEndKeeps(s: string, i: nat)
    requires i < |s| && !IsSpace(s[i])
    ensures |TrimEnd(s)| > i
  {
    if IsSpace(s[|s| - 1]) { TrimEndKeeps(s[..|s| - 1], i); }
  }

  /** A field with a backtick is never given back. */
  lemma BacktickLost(query: string, minutes: nat, f: string)
    requires !NoBacktick(f)
    ensures !Recovers(query, minutes, f)
  {
    var s := AddTimeFilterToQuery(query, minutes, f);
    ParseIs(s);
    var start := FirstPipe(s, 0);
    if start < |s| {
      MatchedFieldNoBacktick(s[start..FirstPipe(s, start + 1)]);
    }
  }

  /** Insertion is undone by parsing exactly under the condition above, for every non-empty
      query, non-empty field and positive window. */
  lemma RecoveredExactly(query: string, minutes: nat, f: string)
    requires query != "" && f != "" && minutes > 0
    ensures Recovers(query, minutes, f) <==> Recoverable(query, f)
  {
    if !NoBacktick(f) {
      BacktickLost(query, minutes, f);
    } else if HasPipe(query) {
      PipedRecovers(query, minutes, f);
    } else if QuotesClosed(query) {
      AppendedRecovers(query, minutes, f);
    } else {
      UnclosedLost(query, minutes, f);
    }
  }

  /** Fields without a backslash close, so for them the documented condition is enough. */
  lemma PlainlyRecovered(query: string, minutes: nat, f: string)
    requires query != "" && f != "" && minutes > 0 && QuotesClosed(query)
    requires NoBacktick(f) && forall i | 0 <= i < |f| :: f[i] != '\\'
    ensures Recovers(query, minutes, f)
  {
    NoBackslashCloses(f, |f|);
    RecoveredExactly(query, minutes, f);
  }

  lemma {:induction false} NoBackslashCloses(f: string, i: nat)
    requires NoBacktick(f) && (forall i | 0 <= i < |f| :: f[i] != '\\') && i <= |f|
    ensures At(In('`'), f, i) == In('`')
  {
    if i > 0 { NoBackslashCloses(f, i - 1); }
  }
}
