/** Latency bounds on the one-nanosecond grid: the text the generator writes for a bound, and the
    pattern that has to find the bound's bucket however its producer spells the number. */
module LeBounds {
  import opened Options
  import opened Text
  import opened Decimal

  const Giga: nat := 1_000_000_000

  function Pow10(k: nat): (p: nat)
    ensures p > 0
  {
    if k == 0 then 1 else 10 * Pow10(k - 1)
  }

  function Zeros(k: nat): (s: string)
    ensures |s| == k && Digits(s)
  {
    if k == 0 then "" else Zeros(k - 1) + "0"
  }

  /** Exactly `k` digits of `n`, from the right. */
  function Fixed(n: nat, k: nat): (s: string)
    ensures |s| == k && Digits(s)
  {
    if k == 0 then "" else Fixed(n / 10, k - 1) + [DigitChar(n % 10)]
  }

  function StripZeros(s: string): string {
    if s != "" && s[|s| - 1] == '0' then StripZeros(s[..|s| - 1]) else s
  }

  // ---------- what the generator writes ----------

  /** `toFixed(9)` of a bound of `n` nanoseconds, in seconds. */
  function ToFixed9(n: nat): string { NumText(n / Giga) + "." + Fixed(n % Giga, 9) }

  function TrimTrailingZeros(decimal: string): string {
    if IndexOfChar(decimal, '.') == |decimal| then decimal
    else
      var s := StripZeros(decimal);
      if s != "" && s[|s| - 1] == '.' then s[..|s| - 1] else s
  }

  function FormatLatencyBoundLe(n: int): string {
    if n <= 0 then "0" else TrimTrailingZeros(ToFixed9(n))
  }

  /** An anchored pattern: the integer part, with a zero that may be left out, and either an
      optional run of fraction zeros or a fraction followed by any number of zeros. */
  datatype Pattern = Pattern(intPart: string, zeroOptional: bool, frac: Option<string>)

  function LeValuePattern(n: int): Pattern {
    var canonical := FormatLatencyBoundLe(n);
    var dot := IndexOfChar(canonical, '.');
    var intPart := canonical[..dot];
    if dot == |canonical| then Pattern(intPart, false, None)
    else Pattern(intPart, intPart == "0", Some(canonical[dot + 1..]))
  }

  predicate IntMatches(p: Pattern, i: string) { i == p.intPart || (p.zeroOptional && i == "") }

  ghost predicate Matches(p: Pattern, s: string) {
    match p.frac
    case None => s == p.intPart || exists z: nat :: s == p.intPart + "." + Zeros(z)
    case Some(frac) =>
      exists i, z: nat :: IntMatches(p, i) && s == i + "." + (frac + Zeros(z))
  }

  // ---------- plain decimal spellings ----------

  /** How a producer may write a number: an integer part and perhaps a point and a fraction. */
  datatype Spelling = Spelling(intPart: string, point: bool, frac: string)

  /** No redundant leading zero; the zero below one may be left out. */
  predicate IsPlain(sp: Spelling) {
    && Digits(sp.intPart) && Digits(sp.frac)
    && (|sp.intPart| > 1 ==> sp.intPart[0] != '0')
    && (!sp.point ==> sp.frac == "" && sp.intPart != "")
  }

  function TextOf(sp: Spelling): string {
    if sp.point then sp.intPart + "." + sp.frac else sp.intPart
  }

  /** The spelling denotes `n` nanoseconds. */
  predicate Denotes(sp: Spelling, n: nat)
    requires IsPlain(sp)
  {
    (Value(sp.intPart) * Pow10(|sp.frac|) + Value(sp.frac)) * Giga == n * Pow10(|sp.frac|)
  }

  // ---------- numerals ----------

  lemma DigitOfChar(d: nat)
    requires d < 10
    ensures IsDigit(DigitChar(d)) && DigitOf(DigitChar(d)) == d
  {
  }

  lemma CharOfDigit(c: char)
    requires IsDigit(c)
    ensures DigitChar(DigitOf(c)) == c
  {
  }

  lemma ValueSnoc(s: string, d: nat)
    requires Digits(s) && d < 10
    ensures Digits(s + [DigitChar(d)]) && Value(s + [DigitChar(d)]) == 10 * Value(s) + d
  {
    DigitOfChar(d);
    assert (s + [DigitChar(d)])[..|s|] == s;
  }

  lemma NoDigits()
    ensures Value("") == 0
  {
  }

  lemma {:induction false} FixedValue(n: nat, k: nat)
    requires n < Pow10(k)
    ensures Value(Fixed(n, k)) == n
  {
    hide Value;
    NoDigits();
    if k > 0 {
      FixedValue(n / 10, k - 1);
      ValueSnoc(Fixed(n / 10, k - 1), n % 10);
    }
  }

  lemma ValueLast(s: string)
    requires Digits(s) && s != ""
    ensures var n := |s| - 1;
      Digits(s[..n]) && Value(s) == 10 * Value(s[..n]) + DigitOf(s[n]) && DigitOf(s[n]) < 10
  {
  }

  lemma SameLast(a: string, b: string)
    requires a != "" && |a| == |b| && a[..|a| - 1] == b[..|b| - 1] && a[|a| - 1] == b[|b| - 1]
    ensures a == b
  {
    assert a == a[..|a| - 1] + [a[|a| - 1]] && b == b[..|b| - 1] + [b[|b| - 1]];
  }

  /** A digit string of known length is its value. */
  lemma {:induction false} SameDigits(a: string, b: string)
    requires Digits(a) && Digits(b) && |a| == |b| && Value(a) == Value(b)
    ensures a == b
  {
    hide Value;
    if a != "" {
      var n := |a| - 1;
      ValueLast(a);
      ValueLast(b);
      SameDigits(a[..n], b[..n]);
      SameLast(a, b);
    }
  }

  lemma {:induction false} ValueBelow(s: string)
    requires Digits(s)
    ensures Value(s) < Pow10(|s|)
  {
    if s != "" { ValueBelow(s[..|s| - 1]); }
  }

  lemma TenTimes(v: nat, p: nat)
    ensures 10 * (v * p) == v * (10 * p)
  {
  }

  lemma OneMoreZero(s: string, k: nat)
    requires k > 0
    ensures s + Zeros(k) == (s + Zeros(k - 1)) + [DigitChar(0)]
  {
  }

  lemma {:induction false} PaddedValue(s: string, k: nat)
    requires Digits(s)
    ensures Digits(s + Zeros(k)) && Value(s + Zeros(k)) == Value(s) * Pow10(k)
  {
    hide Value;
    if k == 0 {
      assert s + Zeros(0) == s;
    } else {
      hide Zeros;
      PaddedValue(s, k - 1);
      OneMoreZero(s, k);
      ValueSnoc(s + Zeros(k - 1), 0);
      TenTimes(Value(s), Pow10(k - 1));
    }
  }

  lemma {:induction false} PowAdd(a: nat, b: nat)
    ensures Pow10(a + b) == Pow10(a) * Pow10(b)
  {
    if a > 0 {
      PowAdd(a - 1, b);
      assert Pow10(a + b) == 10 * Pow10(a - 1 + b);
    }
  }

  /** The stripped string and how many zeros went. */
  lemma {:induction false} Stripped(s: string) returns (k: nat)
    requires Digits(s)
    ensures Digits(StripZeros(s)) && s == StripZeros(s) + Zeros(k)
  {
    if s != "" && s[|s| - 1] == '0' {
      var n := |s| - 1;
      var j := Stripped(s[..n]);
      k := j + 1;
      assert s == s[..n] + "0";
    } else {
      k := 0;
      assert s == s + Zeros(0);
    }
  }

  lemma {:induction false} StripPadded(s: string, k: nat)
    ensures StripZeros(s + Zeros(k)) == StripZeros(s)
  {
    if k == 0 {
      assert s + Zeros(0) == s;
    } else {
      assert (s + Zeros(k))[..|s| + k - 1] == s + Zeros(k - 1);
      StripPadded(s, k - 1);
    }
  }

  lemma Swap(v: nat, k: nat, s: nat, m: nat)
    ensures (v * k) * (s * m) == (v * m) * (s * k)
  {
    assert (v * k) * (s * m) == v * s * (k * m);
    assert (v * m) * (s * k) == v * s * (k * m);
  }

  lemma {:induction false} Grows(a: nat, b: nat, p: nat)
    requires a < b
    ensures a * p + p <= b * p
  {
    if a + 1 < b { Grows(a, b - 1, p); }
    assert b * p == (b - 1) * p + p;
  }

  lemma Cancel(a: nat, b: nat, p: nat)
    requires p > 0 && a * p == b * p
    ensures a == b
  {
    if a < b { Grows(a, b, p); } else if b < a { Grows(b, a, p); }
  }

  lemma Reorder(v: nat, p: nat, d: nat, w: nat)
    requires p > 0 && v * (p * d) == w * p
    ensures v * d == w
  {
    assert v * (p * d) == (v * d) * p;
    Cancel(v * d, w, p);
  }

  lemma SameStripped(a: string, b: string)
    requires Digits(a) && Digits(b) && StripZeros(a) == StripZeros(b)
    ensures Value(a) * Pow10(|b|) == Value(b) * Pow10(|a|)
  {
    hide *;
    var s := StripZeros(a);
    var k := Stripped(a);
    var m := Stripped(b);
    PaddedValue(s, k);
    PaddedValue(s, m);
    PowAdd(|s|, k);
    PowAdd(|s|, m);
    Swap(Value(s), Pow10(k), Pow10(|s|), Pow10(m));
  }

  lemma SamePadded(a: string, b: string)
    requires Digits(a) && Digits(b) && |a| <= |b|
    requires Value(a) * Pow10(|b|) == Value(b) * Pow10(|a|)
    ensures StripZeros(a) == StripZeros(b)
  {
    hide *;
    var d := |b| - |a|;
    PowAdd(|a|, d);
    Reorder(Value(a), Pow10(|a|), Pow10(d), Value(b));
    PaddedValue(a, d);
    SameDigits(a + Zeros(d), b);
    StripPadded(a, d);
  }

  /** Two fractions are the same number exactly when they differ in trailing zeros only. */
  lemma SameFraction(a: string, b: string)
    requires Digits(a) && Digits(b)
    ensures StripZeros(a) == StripZeros(b) <==> Value(a) * Pow10(|b|) == Value(b) * Pow10(|a|)
  {
    if StripZeros(a) == StripZeros(b) { SameStripped(a, b); }
    if Value(a) * Pow10(|b|) == Value(b) * Pow10(|a|) {
      if |a| <= |b| { SamePadded(a, b); } else { SamePadded(b, a); }
    }
  }

  lemma {:induction false} LeadingDigit(i: string)
    requires Digits(i) && i != "" && i[0] != '0'
    ensures Value(i) > 0
  {
    if |i| > 1 { LeadingDigit(i[..|i| - 1]); }
  }

  /** A numeral without redundant zeros is the one the generator writes. */
  lemma {:induction false} NumeralIsCanonical(i: string)
    requires Digits(i) && i != "" && (|i| > 1 ==> i[0] != '0')
    ensures NumText(Value(i)) == i
  {
    var n := |i| - 1;
    CharOfDigit(i[n]);
    if n > 0 {
      LeadingDigit(i[..n]);
      NumeralIsCanonical(i[..n]);
      assert Value(i) / 10 == Value(i[..n]) && Value(i) % 10 == DigitOf(i[n]);
      assert i == i[..n] + [i[n]];
    }
  }

  /** Integer and fraction parts compare separately. */
  lemma SplitEquation(i: nat, f: nat, p: nat, q: nat, r: nat)
    requires f < p && r < Giga
    ensures (i * p + f) * Giga == (q * Giga + r) * p <==> i == q && f * Giga == r * p
  {
    var (x, y, z) := (i * p, q * p, r * p);
    Spread(q, r, p);
    Grows(r, Giga, p);
    assert 0 <= z <= Giga * p - p;
    if i < q { Grows(i, q, p); } else if i > q { Grows(q, i, p); }
    SplitLinear(x, f, p, y, z, i < q, i > q);
  }

  lemma Spread(q: nat, r: nat, p: nat)
    ensures (q * Giga + r) * p == q * p * Giga + r * p
  {
  }

  lemma SplitLinear(x: int, f: nat, p: nat, y: int, z: nat, less: bool, more: bool)
    requires f < p && z < Giga * p && (less ==> x + p <= y) && (more ==> y + p <= x)
    requires !less && !more ==> x == y
    ensures (x + f) * Giga == y * Giga + z <==> !less && !more && f * Giga == z
  {
  }

  // ---------- the text of a bound ----------

  lemma {:induction false} StripAfterPoint(i: string, f: string)
    ensures StripZeros(i + "." + f) == i + "." + StripZeros(f)
  {
    if f != "" && f[|f| - 1] == '0' {
      var s := i + "." + f;
      assert s[..|s| - 1] == i + "." + f[..|f| - 1];
      StripAfterPoint(i, f[..|f| - 1]);
    }
  }

  lemma PointAt(i: string, rest: string)
    requires Digits(i)
    ensures IndexOfChar(i + "." + rest, '.') == |i|
  {
    var s := i + "." + rest;
    assert s[|i|] == '.';
    assert forall j | 0 <= j < |i| :: s[j] == i[j] && s[j] != '.';
  }

  lemma NoPoint(i: string)
    requires Digits(i)
    ensures IndexOfChar(i, '.') == |i|
  {
  }

  /** The pattern of a bound: its whole seconds, and its nanoseconds without the trailing zeros. */
  lemma PatternOf(n: nat)
    ensures var (q, frac) := (NumText(n / Giga), StripZeros(Fixed(n % Giga, 9)));
      LeValuePattern(n) == if frac == "" then Pattern(q, false, None) else Pattern(q, q == "0", Some(frac))
  {
    hide NumText, Fixed, StripZeros, IndexOfChar, LeValuePattern;
    ZeroIsDigit();
    if n == 0 {
      ZeroHasNoFraction(n);
      PatternOfWhole("0", 0);
    } else {
      var (q, f) := (NumText(n / Giga), Fixed(n % Giga, 9));
      var _ := Stripped(f);
      assert TrimTrailingZeros(q + "." + f) == if StripZeros(f) == "" then q else q + "." + StripZeros(f) by {
        TrimAtPoint(q, f);
      }
      if StripZeros(f) == "" { PatternOfWhole(q, n); } else { PatternOfSplit(q, StripZeros(f), n); }
    }
  }

  lemma TrimAtPoint(q: string, f: string)
    requires Digits(q) && Digits(f)
    ensures TrimTrailingZeros(q + "." + f) == if StripZeros(f) == "" then q else q + "." + StripZeros(f)
  {
    hide StripZeros, IndexOfChar;
    PointAt(q, f);
    StripAfterPoint(q, f);
    var _ := Stripped(f);
    var frac := StripZeros(f);
    if frac == "" { assert (q + "." + frac)[..|q|] == q; } else { SplitPattern(q, frac); }
  }

  lemma PatternOfWhole(q: string, n: int)
    requires Digits(q) && FormatLatencyBoundLe(n) == q
    ensures LeValuePattern(n) == Pattern(q, false, None)
  {
    hide FormatLatencyBoundLe, IndexOfChar;
    NoPoint(q);
  }

  lemma PatternOfSplit(q: string, frac: string, n: int)
    requires Digits(q) && Digits(frac) && frac != "" && FormatLatencyBoundLe(n) == q + "." + frac
    ensures LeValuePattern(n) == Pattern(q, q == "0", Some(frac))
  {
    hide FormatLatencyBoundLe, IndexOfChar;
    SplitPattern(q, frac);
  }

  lemma ZeroIsDigit()
    ensures NumText(0) == "0" && Digits("0")
  {
  }

  lemma SplitPattern(q: string, frac: string)
    requires Digits(q) && Digits(frac) && frac != ""
    ensures var s := q + "." + frac;
      s[|s| - 1] != '.' && IndexOfChar(s, '.') == |q| && s[..|q|] == q && s[|q| + 1..] == frac
  {
    hide IndexOfChar;
    PointAt(q, frac);
    var s := q + "." + frac;
    assert s[|s| - 1] == frac[|frac| - 1];
  }

  // ---------- the pattern is numerically exact ----------

  /** Which spellings denote a bound: the whole seconds agree, and so do the fractions up to
      trailing zeros. */
  lemma DenotesIs(sp: Spelling, n: nat)
    requires IsPlain(sp)
    ensures Denotes(sp, n)
      <==> Value(sp.intPart) == n / Giga && StripZeros(sp.frac) == StripZeros(Fixed(n % Giga, 9))
  {
    hide Value, Fixed, StripZeros;
    var (q, r, p) := (n / Giga, n % Giga, Pow10(|sp.frac|));
    ValueBelow(sp.frac);
    SplitEquation(Value(sp.intPart), Value(sp.frac), p, q, r);
    assert Pow10(9) == Giga;
    FixedValue(r, 9);
    SameFraction(sp.frac, Fixed(r, 9));
  }

  /** The integer part as the pattern reads it. */
  lemma IntPartIs(i: string, q: nat)
    requires Digits(i) && (|i| > 1 ==> i[0] != '0')
    ensures Value(i) == q <==> i == NumText(q) || (i == "" && q == 0)
  {
    if i != "" { NumeralIsCanonical(i); }
    ValueOfText(q);
  }

  lemma SplitAtPoint(i: string, f: string, i': string, f': string)
    requires Digits(i) && Digits(i') && i + "." + f == i' + "." + f'
    ensures i == i' && f == f'
  {
    PointAt(i, f);
    PointAt(i', f');
    var s := i + "." + f;
    assert s[..|i|] == i && s[|i| + 1..] == f && s[..|i'|] == i' && s[|i'| + 1..] == f';
  }

  lemma NoPointInside(i: string, i': string, f: string)
    requires Digits(i)
    ensures i != i' + "." + f
  {
    assert (i' + "." + f)[|i'|] == '.';
    assert forall j | 0 <= j < |i| :: i[j] != '.';
  }

  lemma {:induction false} ZerosStrip(k: nat)
    ensures StripZeros(Zeros(k)) == ""
  {
    StripPadded("", k);
    assert "" + Zeros(k) == Zeros(k);
  }

  /** A spelling whose fraction is nothing but zeros, or missing. */
  lemma WholeMatches(q: string, sp: Spelling)
    requires IsPlain(sp) && Digits(q)
    ensures Matches(Pattern(q, false, None), TextOf(sp)) <==> sp.intPart == q && StripZeros(sp.frac) == ""
  {
    var s := TextOf(sp);
    if Matches(Pattern(q, false, None), s) {
      if s == q {
        if sp.point { NoPointInside(q, sp.intPart, sp.frac); }
      } else {
        var z: nat :| s == q + "." + Zeros(z);
        if sp.point { SplitAtPoint(sp.intPart, sp.frac, q, Zeros(z)); ZerosStrip(z); }
        else { NoPointInside(sp.intPart, q, Zeros(z)); }
      }
    }
    if sp.intPart == q && StripZeros(sp.frac) == "" && sp.point {
      var z := Stripped(sp.frac);
      assert sp.frac == Zeros(z);
    }
  }

  lemma FractionMatches(p: Pattern, sp: Spelling)
    requires IsPlain(sp) && Digits(p.intPart) && p.frac.Some? && Digits(p.frac.value)
    requires p.frac.value != "" && StripZeros(p.frac.value) == p.frac.value
    ensures Matches(p, TextOf(sp)) <==> IntMatches(p, sp.intPart) && StripZeros(sp.frac) == p.frac.value
  {
    var (s, frac) := (TextOf(sp), p.frac.value);
    if Matches(p, s) {
      var i, z: nat :| IntMatches(p, i) && s == i + "." + (frac + Zeros(z));
      if sp.point {
        SplitAtPoint(sp.intPart, sp.frac, i, frac + Zeros(z));
        StripPadded(frac, z);
      } else {
        NoPointInside(sp.intPart, i, frac + Zeros(z));
      }
    }
    if IntMatches(p, sp.intPart) && StripZeros(sp.frac) == frac {
      var z := Stripped(sp.frac);
      assert sp.point;
      assert s == sp.intPart + "." + (frac + Zeros(z));
    }
  }

  lemma {:induction false} StripTwice(s: string)
    ensures StripZeros(StripZeros(s)) == StripZeros(s)
  {
    if s != "" && s[|s| - 1] == '0' { StripTwice(s[..|s| - 1]); }
  }

  /** The anchored pattern of a bound matches a plain decimal spelling exactly when that spelling
      denotes the same number; zero must be written with its whole seconds, as in "0.0". */
  lemma LePatternExact(sp: Spelling, n: nat)
    requires IsPlain(sp)
    ensures Matches(LeValuePattern(n), TextOf(sp)) <==> Denotes(sp, n) && (n == 0 ==> sp.intPart != "")
  {
    hide Matches, IntMatches, LeValuePattern, TextOf, IsPlain, Denotes, NumText, Fixed, StripZeros,
         Value, FormatLatencyBoundLe, Zeros;
    var (q, r) := (n / Giga, n % Giga);
    var frac := StripZeros(Fixed(r, 9));
    PatternOf(n);
    DenotesIs(sp, n);
    PlainParts(sp);
    IntPartIs(sp.intPart, q);
    if frac == "" {
      WholeMatches(NumText(q), sp);
      WholeSeconds(n);
      NotEmptyText(q);
    } else {
      StripTwice(Fixed(r, 9));
      ZeroHasNoFraction(n);
      var z := Stripped(Fixed(r, 9));
      FractionMatches(Pattern(NumText(q), NumText(q) == "0", Some(frac)), sp);
      ZeroText(q);
      IntMatchesIs(Pattern(NumText(q), NumText(q) == "0", Some(frac)), sp.intPart);
    }
  }

  lemma PlainParts(sp: Spelling)
    requires IsPlain(sp)
    ensures Digits(sp.intPart) && Digits(sp.frac) && (|sp.intPart| > 1 ==> sp.intPart[0] != '0')
  {
  }

  lemma IntMatchesIs(p: Pattern, i: string)
    ensures IntMatches(p, i) <==> i == p.intPart || (p.zeroOptional && i == "")
  {
  }

  lemma WholeSeconds(n: nat)
    requires StripZeros(Fixed(n % Giga, 9)) == ""
    ensures n == n / Giga * Giga
  {
    assert Pow10(9) == Giga;
    FixedValue(n % Giga, 9);
    SameFraction(Fixed(n % Giga, 9), "");
  }

  lemma ZeroHasNoFraction(n: nat)
    ensures n == 0 ==> StripZeros(Fixed(n % Giga, 9)) == ""
  {
    if n == 0 {
      assert Pow10(9) == Giga;
      FixedValue(0, 9);
      SameFraction(Fixed(0, 9), "");
    }
  }

  lemma NotEmptyText(q: nat)
    ensures NumText(q) != ""
  {
  }

  lemma ZeroText(q: nat)
    ensures NumText(q) == "0" <==> q == 0
  {
    ValueOfText(q);
    ValueOfText(0);
  }

  /** A plain spelling of a bound. */
  lemma SpellingOf(n: nat) returns (sp: Spelling)
    ensures IsPlain(sp) && Denotes(sp, n) && sp.intPart != ""
  {
    sp := Spelling(NumText(n / Giga), true, Fixed(n % Giga, 9));
    NoLeadingZero(n / Giga);
    ValueOfText(n / Giga);
    NotEmptyText(n / Giga);
    assert Pow10(9) == Giga;
    FixedValue(n % Giga, 9);
  }

  lemma {:induction false} NoLeadingZero(q: nat)
    ensures |NumText(q)| > 1 ==> NumText(q)[0] != '0'
    ensures q > 0 ==> NumText(q)[0] != '0'
  {
    if q >= 10 { NoLeadingZero(q / 10); }
  }
}
