/** The quote-aware delimiter scan that `extractBalanced` and `findTopLevelMinus` both run: a
    depth counter that stands still inside double-quoted label values, where a backslash hides
    the next character. */
module DelimScan {
  import opened Text
  import opened Options

  /** Which delimiters move the depth: one bracket kind, or both kinds together. */
  datatype Kind = Paren | Brace | Both

  datatype Mode = Out | In | Esc

  datatype St = St(depth: int, mode: Mode)

  const Start := St(0, Out)

  function OpenChar(kind: Kind): char { if kind == Brace then '{' else '(' }

  function CloseChar(kind: Kind): char { if kind == Brace then '}' else ')' }

  function Delta(kind: Kind, c: char): int {
    if (c == '(' && kind != Brace) || (c == '{' && kind != Paren) then 1
    else if (c == ')' && kind != Brace) || (c == '}' && kind != Paren) then -1
    else 0
  }

  function Step(kind: Kind, st: St, c: char): St {
    match st.mode
    case Esc => st.(mode := In)
    case In => if c == '\\' then st.(mode := Esc) else if c == '"' then st.(mode := Out) else st
    case Out => if c == '"' then st.(mode := In) else st.(depth := st.depth + Delta(kind, c))
  }

  /** State after the first `i` characters of `s`. */
  function At(kind: Kind, st: St, s: string, i: nat): St
    requires i <= |s|
  {
    if i == 0 then st else Step(kind, At(kind, st, s, i - 1), s[i - 1])
  }

  function Run(kind: Kind, st: St, s: string): St { At(kind, st, s, |s|) }

  lemma {:induction false} AtLeft(kind: Kind, st: St, a: string, b: string, i: nat)
    requires i <= |a|
    ensures At(kind, st, a + b, i) == At(kind, st, a, i)
  {
    if i > 0 { AtLeft(kind, st, a, b, i - 1); }
  }

  lemma {:induction false} AtRight(kind: Kind, st: St, a: string, b: string, j: nat)
    requires j <= |b|
    ensures At(kind, st, a + b, |a| + j) == At(kind, Run(kind, st, a), b, j)
  {
    if j == 0 {
      AtLeft(kind, st, a, b, |a|);
    } else {
      AtRight(kind, st, a, b, j - 1);
    }
  }

  /** The scan never looks at the depth, so a different starting depth only shifts it. */
  lemma {:induction false} AtShift(kind: Kind, st: St, d: int, s: string, i: nat)
    requires i <= |s|
    ensures At(kind, st.(depth := st.depth + d), s, i) == Shifted(At(kind, st, s, i), d)
  {
    if i > 0 { AtShift(kind, st, d, s, i - 1); }
  }

  function Shifted(st: St, d: int): St { st.(depth := st.depth + d) }

  /** A text that leaves the scan where it found it and never closes more than it opened. */
  ghost predicate Safe(kind: Kind, s: string) {
    && Run(kind, Start, s) == Start
    && forall i | 0 <= i <= |s| :: At(kind, Start, s, i).depth >= 0
  }

  lemma SafeConcat(kind: Kind, a: string, b: string)
    requires Safe(kind, a) && Safe(kind, b)
    ensures Safe(kind, a + b)
  {
    AtRight(kind, Start, a, b, |b|);
    forall i | 0 <= i <= |a + b| ensures At(kind, Start, a + b, i).depth >= 0 {
      if i <= |a| {
        AtLeft(kind, Start, a, b, i);
      } else {
        AtRight(kind, Start, a, b, i - |a|);
      }
    }
  }

  /** Text with no quote and no counted delimiter. */
  predicate Inert(kind: Kind, s: string) {
    forall i | 0 <= i < |s| :: s[i] != '"' && Delta(kind, s[i]) == 0
  }

  lemma {:induction false} InertAt(kind: Kind, st: St, s: string, i: nat)
    requires Inert(kind, s) && st.mode == Out && i <= |s|
    ensures At(kind, st, s, i) == st
  {
    if i > 0 { InertAt(kind, st, s, i - 1); }
  }

  lemma InertSafe(kind: Kind, s: string)
    requires Inert(kind, s)
    ensures Safe(kind, s)
  {
    forall i | 0 <= i <= |s| ensures At(kind, Start, s, i) == Start {
      InertAt(kind, Start, s, i);
    }
  }

  lemma RunOne(kind: Kind, st: St, c: char)
    ensures Run(kind, st, [c]) == Step(kind, st, c)
  {
    assert At(kind, st, [c], 0) == st;
  }

  /** Inside the opening delimiter the scan runs one level up. */
  lemma AtInside(kind: Kind, o: char, inner: string, c: char, k: nat)
    requires k <= |inner| && o != '"' && Delta(kind, o) == 1
    ensures At(kind, Start, [o] + inner + [c], k + 1) == Shifted(At(kind, Start, inner, k), 1)
  {
    AtLeft(kind, Start, [o] + inner, [c], k + 1);
    AtRight(kind, Start, [o], inner, k);
    RunOne(kind, Start, o);
    AtShift(kind, Start, 1, inner, k);
  }

  lemma WrapSafe(kind: Kind, o: char, inner: string, c: char)
    requires Safe(kind, inner) && o != '"' && c != '"'
    requires Delta(kind, o) == 1 && Delta(kind, c) == -1
    ensures Safe(kind, [o] + inner + [c])
  {
    var s := [o] + inner + [c];
    forall i | 0 <= i < |s| ensures At(kind, Start, s, i).depth >= 0 {
      if i > 0 { AtInside(kind, o, inner, c, i - 1); }
    }
    WrapEnd(kind, o, inner, c);
  }

  lemma WrapEnd(kind: Kind, o: char, inner: string, c: char)
    requires Run(kind, Start, inner) == Start && o != '"' && c != '"'
    requires Delta(kind, o) == 1 && Delta(kind, c) == -1
    ensures Run(kind, Start, [o] + inner + [c]) == Start
  {
    AtInside(kind, o, inner, c, |inner|);
    assert ([o] + inner + [c])[|inner| + 1] == c;
  }

  /** The delimiter at `i` closes the group that `t` opens at its start. */
  predicate ClosesAt(kind: Kind, t: string, i: nat)
    requires i < |t|
  {
    && t[i] == CloseChar(kind)
    && At(kind, Start, t, i).mode == Out
    && At(kind, Start, t, i).depth == 1
  }

  /** First closing position at or after `from`; the length when there is none. */
  function FirstClose(kind: Kind, t: string, from: nat): (i: nat)
    requires from <= |t|
    ensures from <= i <= |t|
    ensures forall j | from <= j < i :: !ClosesAt(kind, t, j)
    ensures i < |t| ==> ClosesAt(kind, t, i)
    decreases |t| - from
  {
    if from == |t| || ClosesAt(kind, t, from) then from else FirstClose(kind, t, from + 1)
  }

  /** What `extractBalanced` returns: the inside of the single group that is all of `text`. */
  function Extracted(text: string, kind: Kind): Option<string>
    requires kind != Both
  {
    var t := Trim(text);
    if t == "" || t[0] != OpenChar(kind) then None
    else
      var i := FirstClose(kind, t, 0);
      if i == 0 || i == |t| || Trim(t[i + 1..]) != "" then None
      else Some(t[1..i])
  }

  /** The loop of `extractBalanced`, up to the delimiter that brings the depth back to zero. */
  method FindClose(kind: Kind, t: string) returns (r: nat)
    requires kind != Both && t != "" && t[0] == OpenChar(kind)
    ensures r == FirstClose(kind, t, 0)
  {
    var depth, inQuote := 0, false;
    var i := 0;
    while i < |t|
      invariant 0 <= i <= |t| + 1
      invariant i <= |t| ==> At(kind, Start, t, i) == St(depth, if inQuote then In else Out)
      invariant forall j | 0 <= j < i && j < |t| :: !ClosesAt(kind, t, j)
      decreases |t| - i
    {
      var ch := t[i];
      if inQuote {
        if ch == '\\' {
          i := i + 1;
        } else if ch == '"' {
          inQuote := false;
        }
      } else if ch == '"' {
        inQuote := true;
      } else if ch == OpenChar(kind) {
        depth := depth + 1;
      } else if ch == CloseChar(kind) {
        depth := depth - 1;
        if depth == 0 {
          assert ClosesAt(kind, t, i);
          return i;
        }
      }
      i := i + 1;
    }
    return |t|;
  }

  method ExtractBalanced(text: string, kind: Kind) returns (r: Option<string>)
    requires kind != Both
    ensures r == Extracted(text, kind)
  {
    var trimmed := Trim(text);
    if trimmed == "" || trimmed[0] != OpenChar(kind) { return None; }
    var i := FindClose(kind, trimmed);
    if i == 0 || i == |trimmed| { return None; }
    return if Trim(trimmed[i + 1..]) == "" then Some(trimmed[1..i]) else None;
  }

  lemma SafeCloses(kind: Kind, inner: string)
    requires kind != Both && Safe(kind, inner)
    ensures var t := [OpenChar(kind)] + inner + [CloseChar(kind)];
      FirstClose(kind, t, 0) == |inner| + 1
  {
    var o, c := OpenChar(kind), CloseChar(kind);
    var t := [o] + inner + [c];
    forall j | 0 < j <= |inner| ensures !ClosesAt(kind, t, j) {
      AtInside(kind, o, inner, c, j - 1);
      AtInside(kind, o, inner, c, j);
    }
    AtInside(kind, o, inner, c, |inner|);
    assert ClosesAt(kind, t, |inner| + 1);
  }

  lemma ClosedIsSafe(kind: Kind, inner: string)
    requires kind != Both
    requires var t := [OpenChar(kind)] + inner + [CloseChar(kind)];
      FirstClose(kind, t, 0) == |inner| + 1
    ensures Safe(kind, inner)
  {
    var o, c := OpenChar(kind), CloseChar(kind);
    var t := [o] + inner + [c];
    forall k | 0 <= k <= |inner| ensures At(kind, Start, inner, k).depth >= 0 {
      NoEarlierClose(kind, t, |inner| + 1, k + 1);
      AtInside(kind, o, inner, c, k);
    }
    AtInside(kind, o, inner, c, |inner|);
  }

  /** A wrapped text is extracted whole exactly when the wrapping delimiter closes only at the
      very end, that is, when the inside is safe. */
  lemma ExtractWrapped(inner: string, kind: Kind)
    requires kind != Both
    ensures Extracted([OpenChar(kind)] + inner + [CloseChar(kind)], kind) == Some(inner)
        <==> Safe(kind, inner)
  {
    var t := [OpenChar(kind)] + inner + [CloseChar(kind)];
    ExtractedAt(t, kind, |inner| + 1);
    if Safe(kind, inner) { SafeCloses(kind, inner); }
    if FirstClose(kind, t, 0) == |inner| + 1 { ClosedIsSafe(kind, inner); }
    assert t[1..|inner| + 1] == inner;
  }

  lemma ExtractedAt(t: string, kind: Kind, n: nat)
    requires kind != Both && 0 < n && |t| == n + 1 && Tight(t) && t[0] == OpenChar(kind)
    ensures Extracted(t, kind) == Some(t[1..n]) <==> FirstClose(kind, t, 0) == n
  {
    TrimTight(t);
    TrimTight("");
    assert t[n + 1..] == "";
    assert |t[1..n]| == n - 1;
  }

  /** Until the group closes, the scan is inside it. */
  lemma {:induction false} NoEarlierClose(kind: Kind, t: string, n: nat, i: nat)
    requires kind != Both && n <= |t| && 0 < i <= n && t[0] == OpenChar(kind)
    requires forall j | 0 <= j < n :: !ClosesAt(kind, t, j)
    ensures At(kind, Start, t, i).depth >= 1
  {
    if i > 1 {
      NoEarlierClose(kind, t, n, i - 1);
      assert !ClosesAt(kind, t, i - 1);
    }
  }

  /** A binary minus with a space on both sides, outside every group and literal. */
  predicate MinusAt(t: string, i: nat)
    requires i < |t|
  {
    && t[i] == '-' && 0 < i < |t| - 1 && t[i - 1] == ' ' && t[i + 1] == ' '
    && At(Both, Start, t, i) == Start
  }

  function FirstMinus(t: string, from: nat): (i: nat)
    requires from <= |t|
    ensures from <= i <= |t|
    ensures forall j | from <= j < i :: !MinusAt(t, j)
    ensures i < |t| ==> MinusAt(t, i)
    decreases |t| - from
  {
    if from == |t| || MinusAt(t, from) then from else FirstMinus(t, from + 1)
  }

  /** The loop of `findTopLevelMinus`; -1 when there is no such minus. */
  method FindTopLevelMinus(text: string) returns (r: int)
    ensures r == if FirstMinus(text, 0) < |text| then FirstMinus(text, 0) else -1
  {
    var depth, inQuote := 0, false;
    var i := 0;
    while i < |text|
      invariant 0 <= i <= |text| + 1
      invariant i <= |text| ==> At(Both, Start, text, i) == St(depth, if inQuote then In else Out)
      invariant forall j | 0 <= j < i && j < |text| :: !MinusAt(text, j)
      decreases |text| - i
    {
      var ch := text[i];
      if inQuote {
        if ch == '\\' {
          i := i + 1;
        } else if ch == '"' {
          inQuote := false;
        }
        i := i + 1;
        continue;
      }
      if ch == '"' {
        inQuote := true;
      } else if ch == '(' || ch == '{' {
        depth := depth + 1;
      } else if ch == ')' || ch == '}' {
        depth := depth - 1;
      } else if ch == '-' && depth == 0 && 0 < i < |text| - 1 && text[i - 1] == ' ' && text[i + 1] == ' ' {
        assert MinusAt(text, i);
        return i;
      }
      i := i + 1;
    }
    return -1;
  }
}
