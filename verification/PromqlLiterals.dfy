/** How printed label values behave under the builder's scanners. */
module PromqlLiterals {
  import opened Options
  import opened Text
  import opened DelimScan
  import opened PromqlBuilder

  function EscapedChar(c: char): string {
    if c == '\\' then "\\\\" else if c == '"' then "\\\"" else [c]
  }

  lemma {:induction false} EscapeQuotesConcat(a: string, b: string)
    ensures EscapeQuotes(a + b) == EscapeQuotes(a) + EscapeQuotes(b)
  {
    if a == "" {
      assert a + b == b;
    } else {
      assert (a + b)[1..] == a[1..] + b;
      EscapeQuotesConcat(a[1..], b);
    }
  }

  lemma EscapeCons(c: char, v: string)
    ensures Escape([c] + v) == EscapedChar(c) + Escape(v)
  {
    var head := if c == '\\' then "\\\\" else [c];
    assert ([c] + v)[1..] == v;
    assert DoubleBackslashes([c] + v) == head + DoubleBackslashes(v);
    EscapeQuotesConcat(head, DoubleBackslashes(v));
    if c == '\\' {
      assert head[1..] == "\\" && head[1..][1..] == "";
    } else {
      assert head[1..] == "";
    }
    assert EscapeQuotes(head) == EscapedChar(c);
  }

  lemma {:induction false} HalveDouble(v: string)
    ensures HalveBackslashes(DoubleBackslashes(v)) == v
  {
    if v != "" {
      HalveDouble(v[1..]);
      var d := DoubleBackslashes(v);
      if v[0] == '\\' {
        assert d[2..] == DoubleBackslashes(v[1..]);
      } else {
        assert d[1..] == DoubleBackslashes(v[1..]);
      }
    }
  }

  /** Escaped text never starts with a bare quote, so unescaping one backslash cannot eat the next
      character's. */
  lemma {:induction false} UnescapeQuotesEscape(d: string)
    ensures UnescapeQuotes(EscapeQuotes(d)) == d
    ensures EscapeQuotes(d) != "" ==> EscapeQuotes(d)[0] != '"'
  {
    if d != "" {
      UnescapeQuotesEscape(d[1..]);
      var e := EscapeQuotes(d);
      if d[0] == '"' {
        assert e[2..] == EscapeQuotes(d[1..]);
      } else {
        assert e[1..] == EscapeQuotes(d[1..]);
      }
    }
  }

  /** Quoting a value loses nothing. */
  lemma UnescapeEscape(v: string)
    ensures Unescape(Escape(v)) == v
  {
    UnescapeQuotesEscape(DoubleBackslashes(v));
    HalveDouble(v);
  }

  lemma EscapedCharRun(kind: Kind, c: char)
    ensures Run(kind, St(0, In), EscapedChar(c)) == St(0, In)
    ensures |EscapedChar(c)| == 2 ==> At(kind, St(0, In), EscapedChar(c), 1) == St(0, Esc)
  {
    var h := EscapedChar(c);
    assert At(kind, St(0, In), h, 0) == St(0, In);
    assert At(kind, St(0, In), h, 1) == Step(kind, St(0, In), h[0]);
  }

  /** Inside a literal the scan stays at its depth until the closing quote. */
  lemma {:induction false} EscapeAt(kind: Kind, v: string, j: nat)
    requires j <= |Escape(v)|
    ensures At(kind, St(0, In), Escape(v), j).depth == 0
    ensures At(kind, St(0, In), Escape(v), j).mode != Out
    ensures j == |Escape(v)| ==> At(kind, St(0, In), Escape(v), j) == St(0, In)
  {
    if v != "" && j > 0 {
      assert v == [v[0]] + v[1..];
      EscapeCons(v[0], v[1..]);
      var h := EscapedChar(v[0]);
      EscapedCharRun(kind, v[0]);
      if j < |h| {
        AtLeft(kind, St(0, In), h, Escape(v[1..]), j);
      } else {
        AtRight(kind, St(0, In), h, Escape(v[1..]), j - |h|);
        EscapeAt(kind, v[1..], j - |h|);
      }
    }
  }

  /** A literal is invisible to every delimiter scan. */
  lemma LiteralSafe(kind: Kind, v: string)
    ensures Safe(kind, QuoteValue(v))
    ensures forall i | 0 < i <= |Escape(v)| + 1 ::
      At(kind, Start, QuoteValue(v), i).mode != Out
  {
    var q := QuoteValue(v);
    forall i | 0 < i <= |Escape(v)| + 1
      ensures At(kind, Start, q, i) == At(kind, St(0, In), Escape(v), i - 1)
      ensures At(kind, Start, q, i).depth == 0 && At(kind, Start, q, i).mode != Out
    {
      AtLeft(kind, Start, "\"" + Escape(v), "\"", i);
      AtRight(kind, Start, "\"", Escape(v), i - 1);
      RunOne(kind, Start, '"');
      EscapeAt(kind, v, i - 1);
    }
    EscapeAt(kind, v, |Escape(v)|);
    assert At(kind, Start, q, |q|) == Step(kind, At(kind, Start, q, |q| - 1), '"');
  }

  /** The scanner for literals stops exactly at the closing quote. */
  lemma {:induction false} CloseLenEscape(v: string, rest: string)
    ensures CloseLen(Escape(v) + "\"" + rest) == |Escape(v)| + 1
  {
    var s := Escape(v) + "\"" + rest;
    if v != "" {
      assert v == [v[0]] + v[1..];
      EscapeCons(v[0], v[1..]);
      var h := EscapedChar(v[0]);
      assert s[|h|..] == Escape(v[1..]) + "\"" + rest;
      CloseLenEscape(v[1..], rest);
      assert s[0] == h[0];
      assert |s| > 1;
    }
  }

  lemma LiteralLenQuote(v: string, rest: string)
    ensures LiteralLen(QuoteValue(v) + rest) == |QuoteValue(v)|
  {
    assert (QuoteValue(v) + rest)[1..] == Escape(v) + "\"" + rest;
    CloseLenEscape(v, rest);
  }

  lemma {:induction false} PartLenPlain(a: string, rest: string)
    requires forall i | 0 <= i < |a| :: a[i] != ',' && a[i] != '"'
    ensures PartLen(a + rest) == |a| + PartLen(rest)
  {
    if a == "" {
      assert a + rest == rest;
    } else {
      assert (a + rest)[1..] == a[1..] + rest;
      PartLenPlain(a[1..], rest);
    }
  }

  /** A printed filter is one part, up to the comma or the end. */
  lemma PartLenFilter(f: LabelFilter, rest: string)
    requires IsLabelName(f.name) && (rest == "" || rest[0] == ',')
    ensures PartLen(FilterText(f) + rest) == |FilterText(f)|
  {
    var head := f.name + OpText(f.op);
    var tail := QuoteValue(f.value) + rest;
    assert FilterText(f) + rest == head + tail;
    PartLenPlain(head, tail);
    LiteralLenQuote(f.value, rest);
    assert tail[|QuoteValue(f.value)|..] == rest;
  }

  lemma IndexOfAt(s: string, pat: string, i: nat)
    requires pat != "" && i < |s| && pat <= s[i..]
    requires forall j | 0 <= j < i :: s[j] != pat[0]
    ensures IndexOf(s, pat) == i
  {
    var k := IndexOf(s, pat);
    assert 0 <= k <= i;
    assert pat <= s[k..] && s[k] == pat[0];
  }

  /** A longer operator than the printed one never fits: it cannot stand directly after the
      name, and any later occurrence has the printed operator before it. */
  lemma OtherOpFails(f: LabelFilter, op: MatchOp)
    requires IsLabelName(f.name) && op != f.op && op != Eq
    ensures !OpFits(FilterText(f), op)
  {
    OpAfterName(f);
    LongOpHasNoQuote(f.op, op);
    NotAfterName(FilterText(f), |f.name|, op);
  }

  /** A printed filter: word characters, then the operator, then the quote. */
  lemma OpAfterName(f: LabelFilter)
    requires IsLabelName(f.name)
    ensures var (s, n) := (FilterText(f), |f.name|);
      && n + 1 < |s| && (forall j | 0 <= j < n :: IsWord(s[j]))
      && s[n] == OpText(f.op)[0] && s[n + 1] == (OpText(f.op) + "\"")[1]
  {
    hide Escape;
    var (s, n) := (FilterText(f), |f.name|);
    assert s[n..] == OpText(f.op) + QuoteValue(f.value);
    assert s[n] == s[n..][0] && s[n + 1] == s[n..][1];
    assert forall j | 0 <= j < n :: s[j] == f.name[j];
  }

  lemma LongOpHasNoQuote(printed: MatchOp, op: MatchOp)
    requires op != printed && op != Eq
    ensures |OpText(op)| == 2 && !IsWord(OpText(op)[0]) && !IsWord(OpText(printed)[0])
    ensures OpText(op)[0] != OpText(printed)[0] || OpText(op)[1] != (OpText(printed) + "\"")[1]
  {
  }

  lemma NotAfterName(s: string, n: nat, op: MatchOp)
    requires |OpText(op)| == 2 && !IsWord(OpText(op)[0])
    requires n + 1 < |s| && (forall j | 0 <= j < n :: IsWord(s[j])) && !IsWord(s[n])
    requires s[n] != OpText(op)[0] || s[n + 1] != OpText(op)[1]
    ensures !OpFits(s, op)
  {
    hide IsWord, OpText;
    var i := IndexOf(s, OpText(op));
    if i > 0 {
      assert s[i] == s[i..][0] && s[i + 1] == s[i..][1];
      if i > n {
        assert s[..i][n] == s[n];
        NameIsWord(s[..i], n);
      }
    }
  }

  lemma NameIsWord(name: string, n: nat)
    requires n < |name| && !IsWord(name[n])
    ensures !IsLabelName(name)
  {
  }

  lemma OpFound(f: LabelFilter)
    requires IsLabelName(f.name)
    ensures FindOp(FilterText(f)) == Some(f.op)
    ensures IndexOf(FilterText(f), OpText(f.op)) == |f.name|
  {
    var s := FilterText(f);
    var n := |f.name|;
    assert s[n..] == OpText(f.op) + QuoteValue(f.value);
    forall j | 0 <= j < n ensures s[j] != OpText(f.op)[0] {
      assert s[j] == f.name[j] && IsWord(f.name[j]);
    }
    IndexOfAt(s, OpText(f.op), n);
    assert s[..n] == f.name;
    if f.op != Re { OtherOpFails(f, Re); }
    if f.op != Nre { OtherOpFails(f, Nre); }
    if f.op != Ne { OtherOpFails(f, Ne); }
  }

  lemma LabelTight(name: string)
    requires IsLabelName(name)
    ensures Tight(name)
  {
    assert IsWord(name[0]) && IsWord(name[|name| - 1]);
  }

  lemma UnquotedQuote(v: string)
    ensures Tight(QuoteValue(v)) && Unquoted(QuoteValue(v)) == Some(v)
  {
    var q := QuoteValue(v);
    assert |q| >= 2 && q[0] == '"' && q[|q| - 1] == '"';
    assert q[1..|q| - 1] == Escape(v);
    UnescapeEscape(v);
  }

  lemma SplitPrinted(f: LabelFilter)
    requires IsLabelName(f.name)
    ensures SplitAtOp(FilterText(f), f.op, |f.name|) == Some(f)
  {
    var s := FilterText(f);
    LabelTight(f.name);
    TrimTight(f.name);
    UnquotedQuote(f.value);
    TrimTight(QuoteValue(f.value));
    assert s[..|f.name|] == f.name;
    assert s[|f.name| + |OpText(f.op)|..] == QuoteValue(f.value);
  }

  lemma FilterParses(f: LabelFilter)
    requires IsLabelName(f.name)
    ensures Tight(FilterText(f)) && ParsedFilter(FilterText(f)) == Some(f)
  {
    var s := FilterText(f);
    OpFound(f);
    SplitPrinted(f);
    LabelTight(f.name);
    assert s[0] == f.name[0] && s[|s| - 1] == '"';
  }
}
