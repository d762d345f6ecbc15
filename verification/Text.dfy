/** Strings as the service handles them: white space, trimming and the name classes shared by
    the query builder, the validators and the look-back clause. */
module Text {

  /** JavaScript's white space, as `trim` and `\s` see it. */
  predicate IsSpace(c: char) {
    || c == ' ' || '\t' <= c <= '\r' || c == '\U{00A0}' || c == '\U{1680}'
    || '\U{2000}' <= c <= '\U{200A}' || c == '\U{2028}' || c == '\U{2029}'
    || c == '\U{202F}' || c == '\U{205F}' || c == '\U{3000}' || c == '\U{FEFF}'
  }

  predicate IsDigit(c: char) { '0' <= c <= '9' }

  predicate IsAlpha(c: char) { 'a' <= c <= 'z' || 'A' <= c <= 'Z' || c == '_' }

  predicate IsWord(c: char) { IsAlpha(c) || IsDigit(c) }

  predicate IsMetricChar(c: char) { IsWord(c) || c == ':' }

  predicate IsLabelName(s: string) {
    |s| > 0 && IsAlpha(s[0]) && forall i | 0 <= i < |s| :: IsWord(s[i])
  }

  predicate IsMetricName(s: string) {
    |s| > 0 && (IsAlpha(s[0]) || s[0] == ':') && forall i | 0 <= i < |s| :: IsMetricChar(s[i])
  }

  function TrimStart(s: string): (r: string)
    ensures |r| <= |s|
  {
    if s != "" && IsSpace(s[0]) then TrimStart(s[1..]) else s
  }

  function TrimEnd(s: string): (r: string)
    ensures |r| <= |s|
  {
    if s != "" && IsSpace(s[|s| - 1]) then TrimEnd(s[..|s| - 1]) else s
  }

  function Trim(s: string): string { TrimEnd(TrimStart(s)) }

  /** No white space at either end. */
  predicate Tight(s: string) { s != "" && !IsSpace(s[0]) && !IsSpace(s[|s| - 1]) }

  predicate AllSpace(s: string) { forall i | 0 <= i < |s| :: IsSpace(s[i]) }

  lemma {:induction false} TrimStartPadded(before: string, s: string)
    requires AllSpace(before) && (s == "" || !IsSpace(s[0]))
    ensures TrimStart(before + s) == s
  {
    if before == "" {
      assert before + s == s;
    } else {
      assert (before + s)[1..] == before[1..] + s;
      TrimStartPadded(before[1..], s);
    }
  }

  lemma {:induction false} TrimEndPadded(s: string, after: string)
    requires AllSpace(after) && (s == "" || !IsSpace(s[|s| - 1]))
    ensures TrimEnd(s + after) == s
  {
    if after == "" {
      assert s + after == s;
    } else {
      assert (s + after)[..|s + after| - 1] == s + after[..|after| - 1];
      TrimEndPadded(s, after[..|after| - 1]);
    }
  }

  lemma {:induction false} TrimmedAway(s: string)
    requires TrimEnd(s) == ""
    ensures AllSpace(s)
  {
    if s != "" { TrimmedAway(s[..|s| - 1]); }
  }

  lemma {:induction false} TrimEndIsPrefix(s: string)
    ensures TrimEnd(s) <= s
  {
    if s != "" { TrimEndIsPrefix(s[..|s| - 1]); }
  }

  lemma Regroup<T>(a: seq<T>, b: seq<T>, c: seq<T>)
    ensures a + (b + c) == (a + b) + c
  {
  }

  /** Trimming finds exactly the tight core of a padded text. */
  lemma TrimPadded(before: string, core: string, after: string)
    requires AllSpace(before) && AllSpace(after) && (core == "" || Tight(core))
    ensures Trim(before + core + after) == core
  {
    if core == "" {
      assert before + core + after == (before + after) + "";
      TrimStartPadded(before + after, "");
    } else {
      assert before + core + after == before + (core + after);
      TrimStartPadded(before, core + after);
      TrimEndPadded(core, after);
    }
  }

  lemma {:induction false} SpacesTrimmed(s: string) returns (ws: string)
    ensures AllSpace(ws) && s == ws + TrimStart(s)
  {
    hide IsSpace;
    if s != "" && IsSpace(s[0]) {
      var rest := SpacesTrimmed(s[1..]);
      ws := [s[0]] + rest;
      assert s == [s[0]] + s[1..] && TrimStart(s) == TrimStart(s[1..]);
    } else {
      ws := "";
    }
  }

  lemma {:induction false} TrimEndCuts(s: string)
    ensures var n := |TrimEnd(s)|;
      TrimEnd(s) == s[..n] && (forall i | n <= i < |s| :: IsSpace(s[i])) && (n > 0 ==> !IsSpace(s[n - 1]))
  {
    hide IsSpace;
    if s != "" && IsSpace(s[|s| - 1]) {
      var rest := s[..|s| - 1];
      TrimEndCuts(rest);
      assert forall i | 0 <= i < |rest| :: s[i] == rest[i];
      assert rest[..|TrimEnd(rest)|] == s[..|TrimEnd(rest)|];
    } else {
      assert s == s[..|s|];
    }
  }

  lemma SpacesTrimmedEnd(s: string) returns (ws: string)
    ensures AllSpace(ws) && s == TrimEnd(s) + ws
    ensures TrimEnd(s) == "" || !IsSpace(TrimEnd(s)[|TrimEnd(s)| - 1])
  {
    hide TrimEnd, IsSpace;
    TrimEndCuts(s);
    ws := s[|TrimEnd(s)|..];
  }

  lemma {:induction false} TrimStartSolid(s: string)
    ensures TrimStart(s) == "" || !IsSpace(TrimStart(s)[0])
  {
    if s != "" && IsSpace(s[0]) { TrimStartSolid(s[1..]); }
  }

  lemma TrimSplit(q: string) returns (ws1: string, ws2: string)
    ensures AllSpace(ws1) && AllSpace(ws2) && q == ws1 + (Trim(q) + ws2)
    ensures Trim(q) == "" || Tight(Trim(q))
  {
    hide TrimStart, TrimEnd, IsSpace;
    ws1 := SpacesTrimmed(q);
    TrimStartSolid(q);
    ws2 := SpacesTrimmedEnd(TrimStart(q));
    if Trim(q) != "" { assert Trim(q)[0] == TrimStart(q)[0]; }
  }

  lemma TrimTight(s: string)
    requires s == "" || Tight(s)
    ensures Trim(s) == s
  {
    TrimPadded("", s, "");
    assert "" + s + "" == s;
  }

  /** Index of the first occurrence of `c`, or the length when there is none. */
  function IndexOfChar(s: string, c: char): (i: nat)
    ensures i <= |s|
    ensures i < |s| ==> s[i] == c
    ensures forall j | 0 <= j < i :: s[j] != c
  {
    if s == "" || s[0] == c then 0 else 1 + IndexOfChar(s[1..], c)
  }

  /** How many leading characters are white space. */
  function SkipSpaces(s: string): (n: nat)
    ensures n <= |s|
  {
    |s| - |TrimStart(s)|
  }

  function Lower(c: char): char {
    if 'A' <= c <= 'Z' then (c as int + 32) as char else c
  }

  /** `s` starts with the lower-case word `w`, ignoring case. */
  predicate StartsWithWord(s: string, w: string) {
    |w| <= |s| && forall i | 0 <= i < |w| :: Lower(s[i]) == w[i]
  }

  // ---------- UTF-16 ----------

  function UnitsOfChar(c: char): (r: seq<nat>)
    ensures 1 <= |r| <= 2 && forall i | 0 <= i < |r| :: r[i] <= 0xFFFF
  {
    var v := c as int;
    if v <= 0xFFFF then [v] else [0xD800 + (v - 0x1_0000) / 0x400, 0xDC00 + (v - 0x1_0000) % 0x400]
  }

  /** What JavaScript iterates and compares: the UTF-16 code units of a text. */
  function Units(s: string): (r: seq<nat>)
    ensures forall i | 0 <= i < |r| :: r[i] <= 0xFFFF
  {
    if s == "" then [] else UnitsOfChar(s[0]) + Units(s[1..])
  }

  /** No character's units begin another's. */
  lemma CharFromUnits(c: char, rest: seq<nat>, d: char, rest': seq<nat>)
    requires UnitsOfChar(c) + rest == UnitsOfChar(d) + rest'
    ensures c == d && rest == rest'
  {
    var (s, t) := (UnitsOfChar(c) + rest, UnitsOfChar(d) + rest');
    assert s[0] == UnitsOfChar(c)[0] && t[0] == UnitsOfChar(d)[0];
    if |UnitsOfChar(c)| == 2 && |UnitsOfChar(d)| == 2 {
      assert s[1] == UnitsOfChar(c)[1] && t[1] == UnitsOfChar(d)[1];
    }
    assert c as int == d as int;
    assert s[|UnitsOfChar(c)|..] == rest && t[|UnitsOfChar(d)|..] == rest';
  }

  lemma {:induction false} UnitsInjective(a: string, b: string)
    requires Units(a) == Units(b)
    ensures a == b
  {
    if a != "" && b != "" {
      CharFromUnits(a[0], Units(a[1..]), b[0], Units(b[1..]));
      UnitsInjective(a[1..], b[1..]);
      assert a == [a[0]] + a[1..] && b == [b[0]] + b[1..];
    }
  }
}
