/** The validator of hand-written SLI expressions, and what its counters guarantee once the
    generator wraps the expression in parentheses. */
module CustomPromql {
  import opened Options
  import opened Text
  import Brackets
  import DelimScan

  const SizeCap: nat := 8192

  // ---------- what is not counted ----------

  /** Without backquoted spans; a lone backquote stays. */
  function StripRaw(s: string): string
    decreases |s|
  {
    if s == "" then ""
    else if s[0] == '`' && IndexOfChar(s[1..], '`') < |s| - 1 then
      StripRaw(s[IndexOfChar(s[1..], '`') + 2..])
    else [s[0]] + StripRaw(s[1..])
  }

  predicate IsLineEnd(c: char) { c == '\n' || c == '\r' || c == '\U{2028}' || c == '\U{2029}' }

  /** Length of the rest of a literal up to and with its closing quote `q`. */
  function LiteralRest(s: string, q: char): (n: Option<nat>)
    ensures n.Some? ==> 0 < n.value <= |s|
    decreases |s|
  {
    if s == "" then None
    else if s[0] == q then Some(1)
    else if s[0] == '\\' then
      if |s| == 1 || IsLineEnd(s[1]) then None
      else
        var n :- LiteralRest(s[2..], q);
        Some(n + 2)
    else
      var n :- LiteralRest(s[1..], q);
      Some(n + 1)
  }

  predicate IsQuote(c: char) { c == '"' || c == '\'' }

  function StripLiterals(s: string): string
    decreases |s|
  {
    if s == "" then ""
    else if IsQuote(s[0]) && LiteralRest(s[1..], s[0]).Some? then
      StripLiterals(s[1 + LiteralRest(s[1..], s[0]).value..])
    else [s[0]] + StripLiterals(s[1..])
  }

  function StripComments(s: string): string
    decreases |s|
  {
    if s == "" then ""
    else if s[0] == '#' then StripComments(s[IndexOfChar(s, '\n')..])
    else [s[0]] + StripComments(s[1..])
  }

  function Stripped(expr: string): string { StripComments(StripLiterals(StripRaw(expr))) }

  // ---------- the counters ----------

  datatype Kind = Round | Curly | Square

  function Delta(kind: Kind, c: char): int {
    match kind
    case Round => if c == '(' then 1 else if c == ')' then -1 else 0
    case Curly => if c == '{' then 1 else if c == '}' then -1 else 0
    case Square => if c == '[' then 1 else if c == ']' then -1 else 0
  }

  /** From depth `d`, the text never closes below zero and ends at zero. */
  predicate Even(kind: Kind, d: int, s: string)
    decreases |s|
  {
    d >= 0 && if s == "" then d == 0 else Even(kind, d + Delta(kind, s[0]), s[1..])
  }

  predicate EndsWithBackslash(s: string) {
    var t := TrimEnd(s);
    t != "" && t[|t| - 1] == '\\'
  }

  predicate IsControl(c: char) {
    c <= '\U{0008}' || '\U{000B}' <= c <= '\U{001F}' || c == '\U{007F}'
  }

  predicate HasControl(s: string) { exists i | 0 <= i < |s| :: IsControl(s[i]) }

  predicate Accepts(expr: string) {
    var s := Stripped(expr);
    && |expr| <= SizeCap
    && (forall kind :: Even(kind, 0, s))
    && !EndsWithBackslash(s)
    && !HasControl(s)
  }

  datatype Complaint = TooLong | Unbalanced(kind: Kind) | TrailingBackslash | ControlChars

  /** A complaint about a bracket kind is right about that kind. */
  method ValidateCustomPromQL(expr: string) returns (r: Option<Complaint>)
    ensures r.None? <==> Accepts(expr)
    ensures r == Some(TooLong) <==> |expr| > SizeCap
    ensures r.Some? && r.value.Unbalanced? ==> !Even(r.value.kind, 0, Stripped(expr))
    ensures r == Some(TrailingBackslash) ==> EndsWithBackslash(Stripped(expr))
    ensures r == Some(ControlChars) ==> HasControl(Stripped(expr))
  {
    hide Stripped, HasControl, EndsWithBackslash;
    if |expr| > SizeCap { return Some(TooLong); }
    var stripped := Stripped(expr);
    var parens, braces, brackets := 0, 0, 0;
    assert stripped[0..] == stripped;
    for i := 0 to |stripped|
      invariant parens >= 0 && braces >= 0 && brackets >= 0
      invariant Even(Round, 0, stripped) == Even(Round, parens, stripped[i..])
      invariant Even(Curly, 0, stripped) == Even(Curly, braces, stripped[i..])
      invariant Even(Square, 0, stripped) == Even(Square, brackets, stripped[i..])
    {
      var ch := stripped[i];
      assert stripped[i..][1..] == stripped[i + 1..];
      if ch == '(' { parens := parens + 1; }
      else if ch == ')' { parens := parens - 1; }
      else if ch == '{' { braces := braces + 1; }
      else if ch == '}' { braces := braces - 1; }
      else if ch == '[' { brackets := brackets + 1; }
      else if ch == ']' { brackets := brackets - 1; }
      if parens < 0 { return Some(Unbalanced(Round)); }
      if braces < 0 { return Some(Unbalanced(Curly)); }
      if brackets < 0 { return Some(Unbalanced(Square)); }
    }
    if parens != 0 { return Some(Unbalanced(Round)); }
    if braces != 0 { return Some(Unbalanced(Curly)); }
    if brackets != 0 { return Some(Unbalanced(Square)); }
    assert forall kind :: Even(kind, 0, stripped) by {
      forall kind ensures Even(kind, 0, stripped) {
        match kind { case Round => case Curly => case Square => }
      }
    }
    if EndsWithBackslash(stripped) { return Some(TrailingBackslash); }
    if HasControl(stripped) { return Some(ControlChars); }
    return None;
  }

  // ---------- well nested implies even ----------

  /** No literal and no comment. */
  predicate Bare(s: string) {
    forall i | 0 <= i < |s| :: s[i] != '`' && !IsQuote(s[i]) && s[i] != '#'
  }

  lemma {:induction false} BareIsKept(s: string)
    requires Bare(s)
    ensures StripRaw(s) == s && StripLiterals(s) == s && StripComments(s) == s
    decreases |s|
  {
    if s != "" {
      assert forall i | 0 <= i < |s[1..]| :: s[1..][i] == s[i + 1];
      BareIsKept(s[1..]);
    }
  }

  lemma EvenStep(kind: Kind, d: int, c: char, rest: string)
    ensures Even(kind, d, [c] + rest) == (d >= 0 && Even(kind, d + Delta(kind, c), rest))
  {
    assert ([c] + rest)[1..] == rest;
  }

  /** A nest gives the counter back as it found it. */
  lemma {:induction false} NestIsEven(kind: Kind, d: nat, n: Brackets.Nest, after: string)
    requires Brackets.IsNest(n)
    ensures Even(kind, d, Brackets.Render(n) + after) == Even(kind, d, after)
    decreases n
  {
    match n
    case End => assert "" + after == after;
    case Char(c, rest) =>
      CharRendered(c, rest, after);
      EvenStep(kind, d, c, Brackets.Render(rest) + after);
      NestIsEven(kind, d, rest, after);
    case Wrap(o, inside, rest) =>
      var tail := Brackets.Render(rest) + after;
      WrapRendered(o, inside, rest, after);
      EvenStep(kind, d, o, Brackets.Render(inside) + ([Brackets.Mate(o)] + tail));
      NestIsEven(kind, d + Delta(kind, o), inside, [Brackets.Mate(o)] + tail);
      EvenStep(kind, d + Delta(kind, o), Brackets.Mate(o), tail);
      NestIsEven(kind, d, rest, after);
  }

  lemma CharRendered(c: char, rest: Brackets.Nest, after: string)
    requires Brackets.IsNest(Brackets.Char(c, rest))
    ensures Brackets.Render(Brackets.Char(c, rest)) + after == [c] + (Brackets.Render(rest) + after)
  {
    Regroup([c], Brackets.Render(rest), after);
  }

  lemma WrapRendered(o: char, inside: Brackets.Nest, rest: Brackets.Nest, after: string)
    requires Brackets.IsNest(Brackets.Wrap(o, inside, rest))
    ensures Brackets.Render(Brackets.Wrap(o, inside, rest)) + after
         == [o] + (Brackets.Render(inside) + ([Brackets.Mate(o)] + (Brackets.Render(rest) + after)))
  {
    var (a, c, b) := (Brackets.Render(inside), [Brackets.Mate(o)], Brackets.Render(rest));
    Regroup([o] + a + c, b, after);
    Regroup([o] + a, c, b + after);
    Regroup([o], a, c + (b + after));
  }

  /** On bare text, an expression the editor finds well nested passes all three counters. */
  lemma NestedPassesCounters(expr: string)
    requires Bare(expr) && Brackets.Errors(expr) == []
    ensures forall kind :: Even(kind, 0, Stripped(expr))
  {
    BareIsKept(expr);
    Brackets.NoErrorsIffNested(expr);
    var n :| Brackets.IsNest(n) && Brackets.Render(n) == expr;
    forall kind ensures Even(kind, 0, expr) {
      NestIsEven(kind, 0, n, "");
      assert expr + "" == expr;
    }
  }

  // ---------- the wrapping parenthesis closes only at the end ----------

  /** Only double-quoted literals and no comment. */
  predicate DoubleQuoted(s: string) {
    forall i | 0 <= i < |s| :: s[i] != '`' && s[i] != '\'' && s[i] != '#'
  }

  lemma DoubleQuotedTail(s: string, k: nat)
    requires k <= |s|
    ensures DoubleQuoted(s) ==> DoubleQuoted(s[k..])
  {
    assert forall i | 0 <= i < |s[k..]| :: s[k..][i] == s[i + k];
  }

  /** The scan from `st` never goes below zero and ends where scans start. */
  predicate SafeFrom(st: DelimScan.St, s: string)
    decreases |s|
  {
    st.depth >= 0
    && if s == "" then st == DelimScan.Start else SafeFrom(DelimScan.Step(DelimScan.Paren, st, s[0]), s[1..])
  }

  /** Every literal is closed, and no escape in one reaches over a line end. */
  predicate LiteralsClosed(mode: DelimScan.Mode, s: string)
    decreases |s|
  {
    if s == "" then mode == DelimScan.Out
    else
      && !(mode == DelimScan.Esc && IsLineEnd(s[0]))
      && LiteralsClosed(DelimScan.Step(DelimScan.Paren, DelimScan.St(0, mode), s[0]).mode, s[1..])
  }

  ghost predicate NeverNegative(st: DelimScan.St, s: string) {
    forall i | 0 <= i <= |s| :: DelimScan.At(DelimScan.Paren, st, s, i).depth >= 0
  }

  /** The scan of a text, seen from its second character on. */
  lemma ScanTail(st: DelimScan.St, s: string)
    requires s != ""
    ensures var st' := DelimScan.Step(DelimScan.Paren, st, s[0]);
      && DelimScan.Run(DelimScan.Paren, st, s) == DelimScan.Run(DelimScan.Paren, st', s[1..])
      && (NeverNegative(st, s) <==> st.depth >= 0 && NeverNegative(st', s[1..]))
  {
    var (kind, st') := (DelimScan.Paren, DelimScan.Step(DelimScan.Paren, st, s[0]));
    assert s == [s[0]] + s[1..];
    DelimScan.RunOne(kind, st, s[0]);
    forall j | 0 <= j <= |s[1..]|
      ensures DelimScan.At(kind, st', s[1..], j) == DelimScan.At(kind, st, s, j + 1)
    {
      DelimScan.AtRight(kind, st, [s[0]], s[1..], j);
    }
    assert DelimScan.At(kind, st, s, 0) == st;
    if NeverNegative(st', s[1..]) && st.depth >= 0 {
      forall i | 0 <= i <= |s| ensures DelimScan.At(kind, st, s, i).depth >= 0 {
        if i > 0 { assert DelimScan.At(kind, st', s[1..], i - 1).depth >= 0; }
      }
    }
  }

  lemma {:induction false} SafeFromIsSafe(st: DelimScan.St, s: string)
    ensures SafeFrom(st, s)
        <==> DelimScan.Run(DelimScan.Paren, st, s) == DelimScan.Start && NeverNegative(st, s)
    decreases |s|
  {
    if s == "" {
      assert DelimScan.At(DelimScan.Paren, st, s, 0) == st;
    } else {
      ScanTail(st, s);
      SafeFromIsSafe(DelimScan.Step(DelimScan.Paren, st, s[0]), s[1..]);
    }
  }

  lemma {:induction false} LiteralSkipped(d: int, t: string)
    requires LiteralsClosed(DelimScan.In, t)
    ensures var n := LiteralRest(t, '"');
      && n.Some? && LiteralsClosed(DelimScan.Out, t[n.value..])
      && SafeFrom(DelimScan.St(d, DelimScan.In), t)
           == (d >= 0 && SafeFrom(DelimScan.St(d, DelimScan.Out), t[n.value..]))
    decreases |t|
  {
    if t[0] == '"' {
    } else if t[0] == '\\' {
      assert t[1..] != "";
      assert t[1..][0] == t[1] && t[1..][1..] == t[2..];
      LiteralSkipped(d, t[2..]);
      assert t[2..][LiteralRest(t[2..], '"').value..] == t[LiteralRest(t, '"').value..];
    } else {
      LiteralSkipped(d, t[1..]);
      assert t[1..][LiteralRest(t[1..], '"').value..] == t[LiteralRest(t, '"').value..];
    }
  }

  lemma {:induction false} LiteralsSkipped(d: int, s: string)
    requires DoubleQuoted(s) && LiteralsClosed(DelimScan.Out, s)
    ensures Even(Round, d, StripLiterals(s)) == SafeFrom(DelimScan.St(d, DelimScan.Out), s)
    decreases |s|
  {
    if s == "" { return; }
    if s[0] == '"' {
      DoubleQuotedTail(s, 1);
      LiteralSkipped(d, s[1..]);
      var n := LiteralRest(s[1..], '"').value;
      assert s[1..][n..] == s[1 + n..];
      DoubleQuotedTail(s, 1 + n);
      LiteralsSkipped(d, s[1 + n..]);
      NegativeFails(d, s[1 + n..]);
    } else {
      DoubleQuotedTail(s, 1);
      LiteralsSkipped(d + Delta(Round, s[0]), s[1..]);
      EvenStep(Round, d, s[0], StripLiterals(s[1..]));
    }
  }

  lemma NegativeFails(d: int, s: string)
    ensures Even(Round, d, StripLiterals(s)) ==> d >= 0
  {
  }

  lemma {:induction false} NothingElseToStrip(s: string)
    requires DoubleQuoted(s)
    ensures StripRaw(s) == s && StripComments(StripLiterals(s)) == StripLiterals(s)
    decreases |s|
  {
    if s != "" {
      DoubleQuotedTail(s, 1);
      NothingElseToStrip(s[1..]);
      if IsQuote(s[0]) && LiteralRest(s[1..], s[0]).Some? {
        var k := 1 + LiteralRest(s[1..], s[0]).value;
        DoubleQuotedTail(s, k);
        NothingElseToStrip(s[k..]);
      } else {
        assert ([s[0]] + StripLiterals(s[1..]))[1..] == StripLiterals(s[1..]);
      }
    }
  }

  /** When every literal is double-quoted and closed, the parenthesis counter passes exactly when
      the wrapped expression is read back whole: the wrapping parenthesis closes only at the end. */
  lemma CountersMeanWhole(expr: string)
    requires DoubleQuoted(expr) && LiteralsClosed(DelimScan.Out, expr)
    ensures Even(Round, 0, Stripped(expr))
        <==> DelimScan.Extracted("(" + expr + ")", DelimScan.Paren) == Some(expr)
  {
    NothingElseToStrip(expr);
    LiteralsSkipped(0, expr);
    SafeFromIsSafe(DelimScan.Start, expr);
    assert Even(Round, 0, Stripped(expr)) == DelimScan.Safe(DelimScan.Paren, expr);
    DelimScan.ExtractWrapped(expr, DelimScan.Paren);
    assert [DelimScan.OpenChar(DelimScan.Paren)] + expr + [DelimScan.CloseChar(DelimScan.Paren)]
        == "(" + expr + ")";
  }

  lemma {:induction false} BareIsClosed(s: string)
    requires Bare(s)
    ensures LiteralsClosed(DelimScan.Out, s)
    decreases |s|
  {
    if s != "" {
      assert forall i | 0 <= i < |s[1..]| :: s[1..][i] == s[i + 1];
      BareIsClosed(s[1..]);
    }
  }

  /** An accepted expression without literals and comments is wrapped safely. */
  lemma AcceptedIsWhole(expr: string)
    requires Accepts(expr) && Bare(expr)
    ensures DelimScan.Extracted("(" + expr + ")", DelimScan.Paren) == Some(expr)
  {
    BareIsClosed(expr);
    CountersMeanWhole(expr);
  }

  /** The builder's scan knows only double quotes: a parenthesis in a single-quoted literal passes
      the validator, and the wrapped expression is then not read back whole. */
  lemma SingleQuotesDiffer()
    ensures Accepts("'('") && DelimScan.Extracted("(" + "'('" + ")", DelimScan.Paren) != Some("'('")
  {
    hide *;
    SingleQuotedAccepted("'('");
    SingleQuotedUnsafe("'('");
    DelimScan.ExtractWrapped("'('", DelimScan.Paren);
    assert [DelimScan.OpenChar(DelimScan.Paren)] + "'('" + [DelimScan.CloseChar(DelimScan.Paren)]
        == "(" + "'('" + ")" by { Parens(); }
  }

  lemma Parens()
    ensures DelimScan.OpenChar(DelimScan.Paren) == '(' && DelimScan.CloseChar(DelimScan.Paren) == ')'
  {
  }

  lemma SingleQuotedAccepted(s: string)
    requires s == "'('"
    ensures Accepts(s)
  {
    RawKept(s);
    SingleQuotedStripped(s);
    assert Stripped(s) == "";
    forall kind ensures Even(kind, 0, "") {}
  }

  lemma SingleQuotedStripped(s: string)
    requires s == "'('"
    ensures StripLiterals(s) == ""
  {
    hide StripRaw, StripComments;
    assert s[1..] == "('" && s[1..][1..] == "'";
    assert LiteralRest(s[1..][1..], '\'') == Some(1);
    assert LiteralRest(s[1..], '\'') == Some(2);
    assert s[3..] == "";
  }

  lemma SingleQuotedUnsafe(s: string)
    requires s == "'('"
    ensures !DelimScan.Safe(DelimScan.Paren, s)
  {
    assert DelimScan.At(DelimScan.Paren, DelimScan.Start, s, 1) == DelimScan.Start;
    assert DelimScan.At(DelimScan.Paren, DelimScan.Start, s, 2) == DelimScan.St(1, DelimScan.Out);
    assert DelimScan.Run(DelimScan.Paren, DelimScan.Start, s).depth == 1;
  }

  /** Nor do the two agree on an escape that reaches over a line end inside a literal: the validator
      sees no literal there and counts its parenthesis, the builder's scan reads it whole. */
  lemma SplitEscapesDiffer()
    ensures !Even(Round, 0, Stripped("\"\\\n(\""))
    ensures DelimScan.Extracted("(" + "\"\\\n(\"" + ")", DelimScan.Paren) == Some("\"\\\n(\"")
  {
    hide *;
    var s := "\"\\\n(\"";
    SplitEscapeCounted(s);
    SplitEscapeSafe(s);
    DelimScan.ExtractWrapped(s, DelimScan.Paren);
    assert [DelimScan.OpenChar(DelimScan.Paren)] + s + [DelimScan.CloseChar(DelimScan.Paren)]
        == "(" + s + ")" by { Parens(); }
  }

  /** The tails of that text. */
  lemma SplitTails(s: string)
    requires s == "\"\\\n(\""
    ensures s == ['"'] + s[1..] && s[1..] == ['\\'] + s[2..] && s[2..] == ['\n'] + s[3..]
    ensures s[3..] == ['('] + s[4..] && s[4..] == ['"'] + ""
  {
  }

  lemma SplitEscapeCounted(s: string)
    requires s == "\"\\\n(\""
    ensures !Even(Round, 0, Stripped(s))
  {
    hide Even;
    RawKept(s);
    SplitTails(s);
    NotSkipped('"', s[1..]);
    NotSkipped('\\', s[2..]);
    NotSkipped('\n', s[3..]);
    NotSkipped('(', s[4..]);
    NotSkipped('"', "");
    assert Stripped(s) == s by { hide StripLiterals; }
    EvenStep(Round, 0, '"', s[1..]);
    EvenStep(Round, 0, '\\', s[2..]);
    EvenStep(Round, 0, '\n', s[3..]);
    EvenStep(Round, 0, '(', s[4..]);
    EvenStep(Round, 1, '"', "");
    assert !Even(Round, 1, "") by { EvenAtEnd(); }
  }

  lemma EvenAtEnd()
    ensures !Even(Round, 1, "")
  {
  }

  lemma NotSkipped(c: char, rest: string)
    requires c != '#' && (IsQuote(c) ==> LiteralRest(rest, c).None?)
    ensures StripLiterals([c] + rest) == [c] + StripLiterals(rest)
    ensures StripComments([c] + rest) == [c] + StripComments(rest)
  {
    assert ([c] + rest)[1..] == rest;
  }

  lemma SplitEscapeSafe(s: string)
    requires s == "\"\\\n(\""
    ensures DelimScan.Safe(DelimScan.Paren, s)
  {
    SplitTails(s);
    SafeFromIsSafe(DelimScan.Start, s);
    assert SafeFrom(DelimScan.Start, "");
    assert SafeFrom(DelimScan.St(0, DelimScan.In), s[4..]);
    assert SafeFrom(DelimScan.St(0, DelimScan.In), s[3..]);
    assert SafeFrom(DelimScan.St(0, DelimScan.Esc), s[2..]);
    assert SafeFrom(DelimScan.St(0, DelimScan.In), s[1..]);
  }

  lemma {:induction false} RawKept(s: string)
    requires forall i | 0 <= i < |s| :: s[i] != '`'
    ensures StripRaw(s) == s
    decreases |s|
  {
    if s != "" {
      assert forall i | 0 <= i < |s[1..]| :: s[1..][i] == s[i + 1];
      RawKept(s[1..]);
    }
  }
}
