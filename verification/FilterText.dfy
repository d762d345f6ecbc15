/** White space in a good-events filter: what the fingerprint folds away does not change the
    matcher that the filter stands for. */
module FilterText {
  import opened Options
  import opened Text
  import opened Fingerprint
  import opened SliQueries

  predicate IsName(s: string) { s != "" && IsAlpha(s[0]) && forall i | 0 <= i < |s| :: IsWord(s[i]) }

  /** A filter text with the given white space around its operator. */
  function Spaced(p: Parsed, ws1: string, ws2: string): string {
    p.name + (ws1 + (OpText(p.op) + (ws2 + p.literal)))
  }

  predicate IsParsed(p: Parsed) { IsName(p.name) && IsLiteral(p.literal) }

  lemma {:induction false} WordThen(w: string, rest: string)
    requires (forall i | 0 <= i < |w| :: IsWord(w[i])) && (rest == "" || !IsWord(rest[0]))
    ensures WordLen(w + rest) == |w|
  {
    if w == "" {
      assert w + rest == rest;
    } else {
      assert (w + rest)[1..] == w[1..] + rest;
      WordThen(w[1..], rest);
    }
  }

  lemma {:induction false} WordLenIsWord(s: string)
    ensures forall i | 0 <= i < WordLen(s) :: IsWord(s[i])
    ensures WordLen(s) < |s| ==> !IsWord(s[WordLen(s)])
  {
    if s != "" && IsWord(s[0]) {
      WordLenIsWord(s[1..]);
      assert forall i | 0 < i <= WordLen(s[1..]) :: s[i] == s[1..][i - 1];
    }
  }

  lemma OpParsed(op: FilterOp, rest: string)
    requires rest == "" || rest[0] != '~'
    ensures OpAt(OpText(op) + rest) == Some(op) && (OpText(op) + rest)[|OpText(op)|..] == rest
  {
    var s := OpText(op) + rest;
    assert s[|OpText(op)|..] == rest;
    match op
    case Eq => assert |s| >= 2 ==> s[..2] == ['=', rest[0]];
    case Neq => assert s[..2] == "!=";
    case Match => assert s[..2] == "=~";
    case NotMatch => assert s[..2] == "!~";
  }

  /** Any white space around the operator is read past. */
  lemma ParseSpaced(p: Parsed, ws1: string, ws2: string)
    requires IsParsed(p) && AllSpace(ws1) && AllSpace(ws2)
    ensures ParseMatcher(Spaced(p, ws1, ws2)) == Some(p)
  {
    var tail := ws2 + p.literal;
    var rest := OpText(p.op) + tail;
    assert tail[0] == '"' || IsSpace(tail[0]);
    assert rest[0] == '=' || rest[0] == '!';
    assert (ws1 + rest)[0] == rest[0] || IsSpace((ws1 + rest)[0]);
    WordThen(p.name, ws1 + rest);
    assert Spaced(p, ws1, ws2)[..|p.name|] == p.name && Spaced(p, ws1, ws2)[|p.name|..] == ws1 + rest;
    TrimStartPadded(ws1, rest);
    OpParsed(p.op, tail);
    TrimStartPadded(ws2, p.literal);
  }

  lemma OpTextAt(s: string)
    requires OpAt(s).Some?
    ensures |OpText(OpAt(s).value)| <= |s| && s == OpText(OpAt(s).value) + s[|OpText(OpAt(s).value)|..]
  {
    if |s| >= 2 { assert s == s[..2] + s[2..]; }
    assert s == [s[0]] + s[1..];
  }

  /** A text that parses is a name, an operator and a literal with white space between them. */
  lemma SpacedOf(s: string) returns (p: Parsed, ws1: string, ws2: string)
    requires ParseMatcher(s).Some?
    ensures ParseMatcher(s) == Some(p) && IsParsed(p) && AllSpace(ws1) && AllSpace(ws2)
    ensures s == Spaced(p, ws1, ws2)
  {
    hide TrimStart, WordLen, OpAt, OpText, IsLiteral;
    p := ParseMatcher(s).value;
    var n := WordLen(s);
    WordLenIsWord(s);
    ws1 := SpacesTrimmed(s[n..]);
    var rest := TrimStart(s[n..]);
    OpTextAt(rest);
    var after := rest[|OpText(p.op)|..];
    ws2 := SpacesTrimmed(after);
    assert s == s[..n] + s[n..];
  }

  // ---------- squeezing a filter ----------

  predicate Solid(s: string) { forall i | 0 <= i < |s| :: !IsSpace(s[i]) && s[i] != '"' }

  lemma {:induction false} SqueezeSolid(a: string, rest: string, last: bool)
    requires Solid(a)
    ensures Squeezed(a + rest, false, last) == a + Squeezed(rest, false, last && a == "")
  {
    if a == "" {
      assert a + rest == rest;
    } else {
      assert (a + rest)[1..] == a[1..] + rest;
      SqueezeSolid(a[1..], rest, false);
    }
  }

  function Blank(ws: string): string { if ws == "" then "" else " " }

  lemma {:induction false} SqueezeSpaces(ws: string, rest: string, last: bool)
    requires AllSpace(ws)
    ensures Squeezed(ws + rest, false, last)
         == (if last then "" else Blank(ws)) + Squeezed(rest, false, last || ws != "")
  {
    if ws == "" {
      assert ws + rest == rest;
    } else {
      assert (ws + rest)[1..] == ws[1..] + rest && IsSpace(ws[0]);
      NotAQuote(ws[0]);
      SqueezeSpaces(ws[1..], rest, true);
    }
  }

  lemma NotAQuote(c: char)
    requires IsSpace(c)
    ensures c != '"'
  {
  }

  lemma {:induction false} SqueezeInside(s: string)
    requires ClosesAtEnd(s)
    ensures Squeezed(s, true, false) == s
    decreases |s|
  {
    if s[0] == '"' {
      assert s[1..] == "";
    } else if s[0] == '\\' {
      SqueezeInside(s[2..]);
      assert s == [s[0], s[1]] + s[2..];
    } else {
      SqueezeInside(s[1..]);
      assert s == [s[0]] + s[1..];
    }
  }

  lemma SqueezeLiteral(s: string, last: bool)
    requires IsLiteral(s)
    ensures Squeezed(s, false, last) == s
  {
    SqueezeInside(s[1..]);
    assert s == [s[0]] + s[1..];
  }

  lemma SolidParts(p: Parsed)
    requires IsParsed(p)
    ensures Solid(p.name) && Solid(OpText(p.op)) && OpText(p.op) != ""
  {
    assert forall i | 0 <= i < |p.name| :: IsWord(p.name[i]);
  }

  /** Squeezing leaves a filter with at most one blank on either side of its operator. */
  lemma SqueezeSpaced(p: Parsed, ws1: string, ws2: string)
    requires IsParsed(p) && AllSpace(ws1) && AllSpace(ws2)
    ensures Squeezed(Spaced(p, ws1, ws2), false, false) == Spaced(p, Blank(ws1), Blank(ws2))
  {
    hide Squeezed, OpText, IsLiteral;
    SolidParts(p);
    var tail := ws2 + p.literal;
    var rest := OpText(p.op) + tail;
    SqueezeSolid(p.name, ws1 + rest, false);
    SqueezeSpaces(ws1, rest, false);
    SqueezeSolid(OpText(p.op), tail, ws1 != "");
    SqueezeSpaces(ws2, p.literal, false);
    SqueezeLiteral(p.literal, ws2 != "");
  }

  lemma {:induction false} LastIsQuote(s: string)
    requires ClosesAtEnd(s)
    ensures s[|s| - 1] == '"'
    decreases |s|
  {
    if s[0] == '\\' { LastIsQuote(s[2..]); } else if s[0] != '"' { LastIsQuote(s[1..]); }
  }

  lemma SpacedIsTight(p: Parsed, ws1: string, ws2: string)
    requires IsParsed(p)
    ensures Tight(Spaced(p, ws1, ws2)) && Spaced(p, ws1, ws2)[0] == p.name[0]
  {
    LastIsQuote(p.literal[1..]);
    var s := Spaced(p, ws1, ws2);
    assert s[0] == p.name[0] && s[|s| - 1] == p.literal[|p.literal| - 1];
    assert p.literal[|p.literal| - 1] == p.literal[1..][|p.literal| - 2];
  }

  /** The normal form of an accepted filter: its white space around the operator folded. */
  lemma NormalFormIs(f: string) returns (p: Parsed, ws1: string, ws2: string)
    requires ParseMatcher(Trim(f)).Some?
    ensures IsParsed(p) && AllSpace(ws1) && AllSpace(ws2) && ParseMatcher(Trim(f)) == Some(p)
    ensures Trim(f) == Spaced(p, ws1, ws2)
    ensures NormalizeGoodEventsFilter(Some(f)) == Some(Spaced(p, Blank(ws1), Blank(ws2)))
  {
    hide ParseMatcher, Spaced, Squeezed, Trim;
    p, ws1, ws2 := SpacedOf(Trim(f));
    SqueezeSpaced(p, ws1, ws2);
    SpacedIsTight(p, Blank(ws1), Blank(ws2));
    TrimTight(Spaced(p, Blank(ws1), Blank(ws2)));
  }

  /** The normal form of an accepted filter still stands for the filter's matcher. */
  lemma NormalFormParses(f: string)
    requires ParseMatcher(Trim(f)).Some?
    ensures NormalizeGoodEventsFilter(Some(f)).Some?
    ensures ParseMatcher(NormalizeGoodEventsFilter(Some(f)).value) == ParseMatcher(Trim(f))
  {
    hide *;
    var p, ws1, ws2 := NormalFormIs(f);
    BlankIsSpace(ws1);
    BlankIsSpace(ws2);
    ParseSpaced(p, Blank(ws1), Blank(ws2));
  }

  lemma BlankIsSpace(ws: string)
    ensures AllSpace(Blank(ws)) && (Blank(ws) == "" <==> ws == "")
  {
  }

  /** One matcher, with white space on the same sides of its operator. */
  ghost predicate SameMatcherText(f: string, g: string) {
    exists p, ws1, ws2, ws1', ws2' ::
      && IsParsed(p) && AllSpace(ws1) && AllSpace(ws2) && AllSpace(ws1') && AllSpace(ws2')
      && Trim(f) == Spaced(p, ws1, ws2) && Trim(g) == Spaced(p, ws1', ws2')
      && (ws1 == "" <==> ws1' == "") && (ws2 == "" <==> ws2' == "")
  }

  lemma SpacedApart(p: Parsed, ws1: string, ws2: string, ws1': string, ws2': string)
    requires IsParsed(p) && Spaced(p, Blank(ws1), Blank(ws2)) == Spaced(p, Blank(ws1'), Blank(ws2'))
    ensures Blank(ws1) == Blank(ws1') && Blank(ws2) == Blank(ws2')
  {
    hide IsLiteral;
    var (tail, tail') := (Blank(ws2) + p.literal, Blank(ws2') + p.literal);
    var (s, s') := (Blank(ws1) + (OpText(p.op) + tail), Blank(ws1') + (OpText(p.op) + tail'));
    assert (p.name + s)[|p.name|..] == s && (p.name + s')[|p.name|..] == s';
    assert s[0] == (if ws1 == "" then OpText(p.op)[0] else ' ') && s'[0] == (if ws1' == "" then OpText(p.op)[0] else ' ');
    assert |s| == |s'|;
  }

  lemma SpacedParts(p: Parsed, ws1: string, ws2: string, q: Parsed, ws1': string, ws2': string)
    requires IsParsed(p) && IsParsed(q) && AllSpace(ws1) && AllSpace(ws2) && AllSpace(ws1') && AllSpace(ws2')
    requires Spaced(p, ws1, ws2) == Spaced(q, ws1', ws2')
    ensures p == q
  {
    hide *;
    ParseSpaced(p, ws1, ws2);
    ParseSpaced(q, ws1', ws2');
  }

  /** Accepted filters hash alike exactly when they are one matcher with white space on the same sides
      of its operator. */
  lemma SameNormalFormIff(f: string, g: string)
    requires ParseMatcher(Trim(f)).Some? && ParseMatcher(Trim(g)).Some?
    ensures NormalizeGoodEventsFilter(Some(f)) == NormalizeGoodEventsFilter(Some(g)) <==> SameMatcherText(f, g)
  {
    hide ParseMatcher, NormalizeGoodEventsFilter, Trim, Spaced, AllSpace, IsParsed, Blank;
    var p, ws1, ws2 := NormalFormIs(f);
    var q, ws1', ws2' := NormalFormIs(g);
    BlankIsSpace(ws1); BlankIsSpace(ws2); BlankIsSpace(ws1'); BlankIsSpace(ws2');
    if NormalizeGoodEventsFilter(Some(f)) == NormalizeGoodEventsFilter(Some(g)) {
      SpacedParts(p, Blank(ws1), Blank(ws2), q, Blank(ws1'), Blank(ws2'));
      SpacedApart(p, ws1, ws2, ws1', ws2');
    }
    if SameMatcherText(f, g) {
      var r, u, v, u', v' :| IsParsed(r) && AllSpace(u) && AllSpace(v) && AllSpace(u') && AllSpace(v')
        && Trim(f) == Spaced(r, u, v) && Trim(g) == Spaced(r, u', v')
        && (u == "" <==> u' == "") && (v == "" <==> v' == "");
      SpacedOnce(r, u, v, p, ws1, ws2);
      SpacedOnce(r, u', v', q, ws1', ws2');
      BlankAlike(ws1, ws1');
      BlankAlike(ws2, ws2');
    }
  }

  lemma BlankAlike(ws: string, ws': string)
    requires ws == "" <==> ws' == ""
    ensures Blank(ws) == Blank(ws')
  {
  }

  /** A filter text is spaced in one way. */
  lemma SpacedOnce(p: Parsed, ws1: string, ws2: string, q: Parsed, ws1': string, ws2': string)
    requires IsParsed(p) && IsParsed(q) && AllSpace(ws1) && AllSpace(ws2) && AllSpace(ws1') && AllSpace(ws2')
    requires Spaced(p, ws1, ws2) == Spaced(q, ws1', ws2')
    ensures p == q && (ws1 == "" <==> ws1' == "") && (ws2 == "" <==> ws2' == "")
  {
    SpacedParts(p, ws1, ws2, q, ws1', ws2');
    hide IsLiteral, IsSpace;
    SqueezeSpaced(p, ws1, ws2);
    SqueezeSpaced(q, ws1', ws2');
    SpacedApart(p, ws1, ws2, ws1', ws2');
  }

  /** Accepted filters that hash alike stand for the same matcher. */
  lemma SameMatcher(f: string, g: string)
    requires ParseMatcher(Trim(f)).Some? && ParseMatcher(Trim(g)).Some?
    requires NormalizeGoodEventsFilter(Some(f)) == NormalizeGoodEventsFilter(Some(g))
    ensures ParseMatcher(Trim(f)) == ParseMatcher(Trim(g))
  {
    hide ParseMatcher, NormalizeGoodEventsFilter, Trim;
    NormalFormParses(f);
    NormalFormParses(g);
  }
}
