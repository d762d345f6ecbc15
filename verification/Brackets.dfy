/** The two bracket checks on hand-written PromQL: the stack that the editor runs over three
    bracket kinds, and the text it accepts. */
module Brackets {
  import opened Text

  predicate IsOpen(c: char) { c == '(' || c == '[' || c == '{' }

  predicate IsClose(c: char) { c == ')' || c == ']' || c == '}' }

  function Mate(c: char): char
    requires IsOpen(c)
  {
    if c == '(' then ')' else if c == '[' then ']' else '}'
  }

  // ---------- well-nested text ----------

  /** A text as nesting sees it: plain characters and bracketed groups. */
  datatype Nest = End | Char(c: char, rest: Nest) | Wrap(o: char, inside: Nest, rest: Nest)

  predicate IsNest(n: Nest) {
    match n
    case End => true
    case Char(c, rest) => !IsOpen(c) && !IsClose(c) && IsNest(rest)
    case Wrap(o, inside, rest) => IsOpen(o) && IsNest(inside) && IsNest(rest)
  }

  function Render(n: Nest): string
    requires IsNest(n)
  {
    match n
    case End => ""
    case Char(c, rest) => [c] + Render(rest)
    case Wrap(o, inside, rest) => [o] + Render(inside) + [Mate(o)] + Render(rest)
  }

  ghost predicate WellNested(s: string) { exists n :: IsNest(n) && Render(n) == s }

  // ---------- the stack check ----------

  datatype BracketError = Unmatched(c: char, pos: nat) | Unclosed(c: char, pos: nat)

  datatype Open = Open(c: char, pos: nat)

  datatype Scan = Scan(stack: seq<Open>, errors: seq<BracketError>)

  function Step(sc: Scan, c: char, pos: nat): Scan {
    if IsOpen(c) then sc.(stack := sc.stack + [Open(c, pos)])
    else if !IsClose(c) then sc
    else if sc.stack == [] || !Closes(sc.stack[|sc.stack| - 1].c, c) then
      sc.(errors := sc.errors + [Unmatched(c, pos)])
    else sc.(stack := sc.stack[..|sc.stack| - 1])
  }

  predicate Closes(o: char, c: char) { IsOpen(o) && Mate(o) == c }

  /** The stack and the errors after the first `i` characters. */
  function At(s: string, i: nat): (sc: Scan)
    requires i <= |s|
    ensures forall j | 0 <= j < |sc.stack| :: IsOpen(sc.stack[j].c)
  {
    if i == 0 then Scan([], []) else Step(At(s, i - 1), s[i - 1], i - 1)
  }

  function LeftOpen(stack: seq<Open>): (errors: seq<BracketError>)
    ensures |errors| == |stack|
    ensures forall j | 0 <= j < |stack| :: errors[j] == Unclosed(stack[j].c, stack[j].pos)
  {
    if stack == [] then []
    else
      var rest := stack[..|stack| - 1];
      LeftOpen(rest) + [Unclosed(stack[|stack| - 1].c, stack[|stack| - 1].pos)]
  }

  /** Every unmatched closing bracket in order, then every bracket left open in order. */
  function Errors(query: string): seq<BracketError> {
    At(query, |query|).errors + LeftOpen(At(query, |query|).stack)
  }

  method MatchBrackets(query: string) returns (errors: seq<BracketError>)
    ensures errors == Errors(query)
  {
    hide At, LeftOpen, Trim;
    errors := [];
    if Trim(query) == "" {
      BlankHasNoErrors(query);
      return;
    }
    var stack: seq<Open> := [];
    Start(query);
    for i := 0 to |query|
      invariant Scan(stack, errors) == At(query, i)
    {
      AtStep(query, i);
      if IsOpen(query[i]) {
        stack := stack + [Open(query[i], i)];
      } else if IsClose(query[i]) {
        if |stack| == 0 || !Closes(stack[|stack| - 1].c, query[i]) {
          errors := errors + [Unmatched(query[i], i)];
        } else {
          stack := stack[..|stack| - 1];
        }
      }
    }
    ghost var found := errors;
    for j := 0 to |stack|
      invariant errors == found + LeftOpen(stack[..j])
    {
      OneMoreLeft(stack, j);
      errors := errors + [Unclosed(stack[j].c, stack[j].pos)];
    }
    assert stack[..|stack|] == stack;
  }

  lemma Start(s: string)
    ensures At(s, 0) == Scan([], []) && LeftOpen([]) == []
  {
  }

  lemma OneMoreLeft(stack: seq<Open>, j: nat)
    requires j < |stack|
    ensures LeftOpen(stack[..j + 1]) == LeftOpen(stack[..j]) + [Unclosed(stack[j].c, stack[j].pos)]
  {
    assert stack[..j + 1][..j] == stack[..j];
  }

  lemma {:induction false} NoSolidStart(s: string)
    ensures TrimStart(s) != "" ==> !IsSpace(TrimStart(s)[0])
    ensures TrimStart(s) == "" ==> AllSpace(s)
  {
    if s != "" && IsSpace(s[0]) { NoSolidStart(s[1..]); }
  }

  lemma BlankIsSpace(s: string)
    requires Trim(s) == ""
    ensures AllSpace(s)
  {
    TrimmedAway(TrimStart(s));
    NoSolidStart(s);
  }

  lemma {:induction false} PlainKeeps(s: string, i: nat)
    requires i <= |s| && forall j | 0 <= j < i :: !IsOpen(s[j]) && !IsClose(s[j])
    ensures At(s, i) == Scan([], [])
  {
    if i > 0 { PlainKeeps(s, i - 1); }
  }

  lemma BlankHasNoErrors(s: string)
    requires Trim(s) == ""
    ensures Errors(s) == []
  {
    BlankIsSpace(s);
    forall j | 0 <= j < |s| ensures !IsOpen(s[j]) && !IsClose(s[j]) { assert IsSpace(s[j]); }
    PlainKeeps(s, |s|);
  }

  // ---------- nothing is reported exactly on well-nested text ----------

  /** The scan of `s` when it starts at position `pos` from `sc`. */
  function Run(sc: Scan, s: string, pos: nat): Scan
    decreases |s|
  {
    if s == "" then sc else Run(Step(sc, s[0], pos), s[1..], pos + 1)
  }

  lemma {:induction false} RunAppend(sc: Scan, a: string, b: string, pos: nat)
    ensures Run(sc, a + b, pos) == Run(Run(sc, a, pos), b, pos + |a|)
    decreases |a|
  {
    if a == "" {
      assert a + b == b;
    } else {
      assert (a + b)[1..] == a[1..] + b;
      RunAppend(Step(sc, a[0], pos), a[1..], b, pos + 1);
    }
  }

  lemma RunOne(sc: Scan, c: char, pos: nat)
    ensures Run(sc, [c], pos) == Step(sc, c, pos)
  {
    assert [c][1..] == "";
    assert Run(Step(sc, c, pos), "", pos + 1) == Step(sc, c, pos);
  }

  lemma {:induction false} AtIsRun(s: string, i: nat)
    requires i <= |s|
    ensures At(s, i) == Run(Scan([], []), s[..i], 0)
  {
    if i > 0 {
      AtIsRun(s, i - 1);
      assert s[..i] == s[..i - 1] + [s[i - 1]];
      RunAppend(Scan([], []), s[..i - 1], [s[i - 1]], 0);
      RunOne(At(s, i - 1), s[i - 1], i - 1);
    }
  }

  /** Scanning a nest leaves the scan as it was. */
  lemma {:induction false} NestPasses(sc: Scan, n: Nest, pos: nat)
    requires IsNest(n)
    ensures Run(sc, Render(n), pos) == sc
    decreases n
  {
    if n.End? { return; }
    hide Run;
    if n.Char? {
      RunAppend(sc, [n.c], Render(n.rest), pos);
      RunOne(sc, n.c, pos);
      NestPasses(sc, n.rest, pos + 1);
    } else {
      NestPasses(Step(sc, n.o, pos), n.inside, pos + 1);
      RunPair(sc, n.o, Render(n.inside), Render(n.rest), pos);
      NestPasses(sc, n.rest, pos + |Render(n.inside)| + 2);
    }
  }

  lemma RunPair(sc: Scan, o: char, inside: string, rest: string, pos: nat)
    requires IsOpen(o) && Run(Step(sc, o, pos), inside, pos + 1) == Step(sc, o, pos)
    ensures Run(sc, [o] + inside + [Mate(o)] + rest, pos) == Run(sc, rest, pos + |inside| + 2)
  {
    hide Run;
    var m := pos + 1 + |inside|;
    RunAppend(sc, [o] + inside + [Mate(o)], rest, pos);
    RunAppend(sc, [o] + inside, [Mate(o)], pos);
    RunAppend(sc, [o], inside, pos);
    RunOne(sc, o, pos);
    RunOne(Step(sc, o, pos), Mate(o), m);
    PairPasses(sc, o, pos, m);
  }

  lemma PairPasses(sc: Scan, o: char, pos: nat, m: nat)
    requires IsOpen(o)
    ensures Step(Step(sc, o, pos), Mate(o), m) == sc
  {
    assert (sc.stack + [Open(o, pos)])[..|sc.stack|] == sc.stack;
  }

  lemma AtStep(s: string, i: nat)
    requires i < |s|
    ensures At(s, i + 1) == Step(At(s, i), s[i], i)
  {
  }

  function Join(a: Nest, b: Nest): Nest {
    match a
    case End => b
    case Char(c, rest) => Char(c, Join(rest, b))
    case Wrap(o, inside, rest) => Wrap(o, inside, Join(rest, b))
  }

  lemma {:induction false} JoinRenders(a: Nest, b: Nest)
    requires IsNest(a) && IsNest(b)
    ensures IsNest(Join(a, b)) && Render(Join(a, b)) == Render(a) + Render(b)
  {
    match a
    case End =>
    case Char(c, rest) =>
      JoinRenders(rest, b);
      Regroup([c], Render(rest), Render(b));
    case Wrap(o, inside, rest) =>
      JoinRenders(rest, b);
      Regroup([o] + Render(inside) + [Mate(o)], Render(rest), Render(b));
  }

  /** The text read so far: a nest, then for each open bracket the bracket and a nest. */
  function Layers(first: Nest, opens: seq<Open>, nests: seq<Nest>): string
    requires |opens| == |nests| && IsNest(first)
    requires forall j | 0 <= j < |nests| :: IsNest(nests[j])
  {
    if opens == [] then Render(first)
    else
      var k := |opens| - 1;
      Layers(first, opens[..k], nests[..k]) + [opens[k].c] + Render(nests[k])
  }

  ghost predicate Reads(s: string, i: nat, first: Nest, nests: seq<Nest>)
    requires i <= |s|
  {
    && |nests| == |At(s, i).stack| && IsNest(first)
    && (forall j | 0 <= j < |nests| :: IsNest(nests[j]))
    && Layers(first, At(s, i).stack, nests) == s[..i]
  }

  /** One more nest at the innermost open level. */
  lemma Deepen(first: Nest, opens: seq<Open>, nests: seq<Nest>, n: Nest)
      returns (first': Nest, nests': seq<Nest>)
    requires |opens| == |nests| && IsNest(first) && IsNest(n)
    requires forall j | 0 <= j < |nests| :: IsNest(nests[j])
    ensures |nests'| == |opens| && IsNest(first') && forall j | 0 <= j < |nests'| :: IsNest(nests'[j])
    ensures Layers(first', opens, nests') == Layers(first, opens, nests) + Render(n)
  {
    if opens == [] {
      JoinRenders(first, n);
      first', nests' := Join(first, n), [];
    } else {
      var k := |opens| - 1;
      JoinRenders(nests[k], n);
      first', nests' := first, nests[..k] + [Join(nests[k], n)];
      assert nests'[..k] == nests[..k];
    }
  }

  lemma ReadOpen(s: string, i: nat, first: Nest, nests: seq<Nest>)
    requires i < |s| && IsOpen(s[i]) && Reads(s, i, first, nests)
    ensures Reads(s, i + 1, first, nests + [End])
  {
    var (before, more) := (At(s, i).stack, nests + [End]);
    assert At(s, i + 1).stack == before + [Open(s[i], i)];
    assert (before + [Open(s[i], i)])[..|before|] == before && more[..|before|] == nests;
    assert s[..i + 1] == s[..i] + [s[i]];
  }

  lemma ReadPlain(s: string, i: nat, first: Nest, nests: seq<Nest>)
      returns (first': Nest, nests': seq<Nest>)
    requires i < |s| && !IsOpen(s[i]) && !IsClose(s[i]) && Reads(s, i, first, nests)
    ensures Reads(s, i + 1, first', nests')
  {
    hide At, Render, Layers;
    AtStep(s, i);
    CharRenders(s[i]);
    assert s[..i + 1] == s[..i] + [s[i]];
    first', nests' := Deepen(first, At(s, i).stack, nests, Char(s[i], End));
  }

  lemma CharRenders(c: char)
    requires !IsOpen(c) && !IsClose(c)
    ensures IsNest(Char(c, End)) && Render(Char(c, End)) == [c]
  {
  }

  lemma ReadClose(s: string, i: nat, first: Nest, nests: seq<Nest>)
      returns (first': Nest, nests': seq<Nest>)
    requires i < |s| && IsClose(s[i]) && Reads(s, i, first, nests)
    requires At(s, i).stack != [] && Closes(At(s, i).stack[|At(s, i).stack| - 1].c, s[i])
    ensures Reads(s, i + 1, first', nests')
  {
    hide At, Render, Layers;
    AtStep(s, i);
    var before := At(s, i).stack;
    var k := |before| - 1;
    assert At(s, i + 1).stack == before[..k];
    assert s[..i + 1] == s[..i] + [s[i]];
    var group := Wrap(before[k].c, nests[k], End);
    GroupRenders(before[k].c, nests[k]);
    TopLayer(first, before, nests);
    Regroup(Layers(first, before[..k], nests[..k]), [before[k].c] + Render(nests[k]), [s[i]]);
    first', nests' := Deepen(first, before[..k], nests[..k], group);
  }

  lemma TopLayer(first: Nest, opens: seq<Open>, nests: seq<Nest>)
    requires |opens| == |nests| > 0 && IsNest(first)
    requires forall j | 0 <= j < |nests| :: IsNest(nests[j])
    ensures var k := |opens| - 1;
      Layers(first, opens, nests)
        == Layers(first, opens[..k], nests[..k]) + ([opens[k].c] + Render(nests[k]))
  {
    var k := |opens| - 1;
    Regroup(Layers(first, opens[..k], nests[..k]), [opens[k].c], Render(nests[k]));
  }

  lemma GroupRenders(o: char, inside: Nest)
    requires IsOpen(o) && IsNest(inside)
    ensures Render(Wrap(o, inside, End)) == [o] + Render(inside) + [Mate(o)]
  {
  }

  lemma ErrorsGrow(s: string, i: nat)
    requires i < |s| && At(s, i + 1).errors == []
    ensures At(s, i).errors == []
    ensures IsClose(s[i]) ==>
      At(s, i).stack != [] && Closes(At(s, i).stack[|At(s, i).stack| - 1].c, s[i])
  {
  }

  lemma {:induction false} Decompose(s: string, i: nat) returns (first: Nest, nests: seq<Nest>)
    requires i <= |s| && At(s, i).errors == []
    ensures Reads(s, i, first, nests)
  {
    if i == 0 {
      first, nests := End, [];
      assert Reads(s, 0, first, nests);
      return;
    }
    ErrorsGrow(s, i - 1);
    hide Reads;
    first, nests := Decompose(s, i - 1);
    if IsOpen(s[i - 1]) {
      ReadOpen(s, i - 1, first, nests);
      nests := nests + [End];
    } else if IsClose(s[i - 1]) {
      first, nests := ReadClose(s, i - 1, first, nests);
    } else {
      first, nests := ReadPlain(s, i - 1, first, nests);
    }
  }

  /** The editor reports no bracket error exactly on text well nested over three bracket kinds. */
  lemma NoErrorsIffNested(query: string)
    ensures Errors(query) == [] <==> WellNested(query)
  {
    if Errors(query) == [] {
      var first, nests := Decompose(query, |query|);
      assert query[..|query|] == query;
    }
    if WellNested(query) {
      var n :| IsNest(n) && Render(n) == query;
      NestPasses(Scan([], []), n, 0);
      AtIsRun(query, |query|);
      assert query[..|query|] == query;
    }
  }
}
