/** The filter hash that a listing cursor carries. */
module FilterHash {
  import opened Options
  import opened Text
  import opened Sorting

  datatype Value = Absent | Scalar(text: string) | Many(items: seq<string>)

  /** The filter inputs in the order their object lists them. */
  type Parts = seq<(string, Value)>

  // ---------- the canonical text ----------

  predicate Counts(v: Value) { !v.Absent? && !(v.Many? && v.items == []) }

  function JoinedBy(parts: seq<string>, sep: string): string {
    if parts == [] then "" else if |parts| == 1 then parts[0] else parts[0] + sep + JoinedBy(parts[1..], sep)
  }

  function TextOf(v: Value): string {
    match v
    case Absent => ""
    case Scalar(text) => text
    case Many(items) => JoinedBy(Sort(items, NotAfter), ",")
  }

  /** What enters the hash: the keys with a value, each with its text. */
  function Entries(parts: Parts): seq<(string, string)> {
    if parts == [] then []
    else One(parts[0]) + Entries(parts[1..])
  }

  function One(p: (string, Value)): seq<(string, string)> { if Counts(p.1) then [(p.0, TextOf(p.1))] else [] }

  predicate KeyNotAfter(a: (string, string), b: (string, string)) {
    if a.0 != b.0 then Before(a.0, b.0) else NotAfter(a.1, b.1)
  }

  function Pairs(entries: seq<(string, string)>): seq<string> {
    if entries == [] then [] else [entries[0].0 + "=" + entries[0].1] + Pairs(entries[1..])
  }

  /** Sorted by key; keys are distinct, so the texts never decide. */
  function Canonical(parts: Parts): string { JoinedBy(Pairs(Sort(Entries(parts), KeyNotAfter)), "|") }

  // ---------- the hash ----------

  const Word: int := 0x1_0000_0000

  /** JavaScript's `| 0`: the signed 32-bit number congruent to `x`. */
  function ToInt32(x: int): (r: int)
    ensures -0x8000_0000 <= r < 0x8000_0000 && (r - x) % Word == 0
  {
    var m := x % Word;
    if m < 0x8000_0000 then m else m - Word
  }

  /** `h << 5` on a 32-bit number. */
  function ShiftLeft5(h: int): int { ToInt32(h * 32) }

  /** The polynomial in 33 that the wrapped loop stands for. */
  function Polynomial(units: seq<nat>): int {
    if units == [] then 5381 else 33 * Polynomial(units[..|units| - 1]) + units[|units| - 1]
  }

  lemma Congruent(x: int, y: int)
    requires (x - y) % Word == 0
    ensures x % Word == y % Word
  {
    assert x == y + Word * ((x - y) / Word);
  }

  lemma Scaled(h: int, p: int)
    requires h % Word == p % Word
    ensures (33 * h - 33 * p) % Word == 0
  {
    SameRemainder(h, p);
    Multiple(33 * ((h - p) / Word));
  }

  lemma SameRemainder(h: int, p: int)
    requires h % Word == p % Word
    ensures h - p == Word * ((h - p) / Word)
  {
  }

  lemma Multiple(k: int)
    ensures (Word * k) % Word == 0
  {
  }

  lemma Summed(x: int, y: int, z: int)
    requires (x - y) % Word == 0 && (y - z) % Word == 0
    ensures (x - z) % Word == 0
  {
  }

  /** One step of the loop: no intermediate leaves the range in which numbers are exact, and the
      wrapped result is congruent to the unwrapped one. */
  lemma StepIsExact(h: int, p: int, c: int)
    requires -0x8000_0000 <= h < 0x8000_0000 && 0 <= c <= 0xFFFF && h % Word == p % Word
    ensures -0x20_0000_0000_0000 < ShiftLeft5(h) + h + c < 0x20_0000_0000_0000
    ensures ToInt32(ShiftLeft5(h) + h + c) % Word == (33 * p + c) % Word
  {
    hide ToInt32;
    var s := ShiftLeft5(h) + h + c;
    var wrapped := ToInt32(s);
    assert (ShiftLeft5(h) - h * 32) % Word == 0;
    assert s - (33 * h + c) == ShiftLeft5(h) - h * 32;
    Scaled(h, p);
    assert 33 * h + c - (33 * p + c) == 33 * h - 33 * p;
    Summed(wrapped, s, 33 * h + c);
    Summed(wrapped, 33 * h + c, 33 * p + c);
    Congruent(wrapped, 33 * p + c);
  }

  /** The loop over the text's UTF-16 units; its result, read as an unsigned number, is the
      polynomial modulo 2^32. */
  method Hash(s: string) returns (h: int)
    ensures 0 <= h < Word && h == Polynomial(Units(s)) % Word
  {
    var units := Units(s);
    h := 5381;
    for i := 0 to |units|
      invariant -0x8000_0000 <= h < 0x8000_0000
      invariant h % Word == Polynomial(units[..i]) % Word
    {
      assert units[..i + 1][..i] == units[..i];
      StepIsExact(h, Polynomial(units[..i]), units[i]);
      h := ToInt32(ShiftLeft5(h) + h + units[i]);
    }
    assert units[..|units|] == units;
    h := h % Word;
  }

  method HashFilters(parts: Parts) returns (h: int)
    ensures h == Polynomial(Units(Canonical(parts))) % Word
  {
    h := Hash(Canonical(parts));
  }

  // ---------- what the hash does not depend on ----------

  lemma EntriesAreOrdered()
    ensures TotalOrder(KeyNotAfter)
  {
    hide Before;
    forall a: (string, string), b: (string, string)
      ensures (KeyNotAfter(a, b) || KeyNotAfter(b, a)) && (KeyNotAfter(a, b) && KeyNotAfter(b, a) ==> a == b)
    {
      BeforeIsStrict(a.0, b.0);
      BeforeIsStrict(a.1, b.1);
    }
    forall a: (string, string), b: (string, string), c: (string, string) | KeyNotAfter(a, b) && KeyNotAfter(b, c)
      ensures KeyNotAfter(a, c)
    {
      BeforeIsStrict(a.0, c.0);
      BeforeIsStrict(a.0, b.0);
      if Before(a.0, b.0) && Before(b.0, c.0) { BeforeChains(a.0, b.0, c.0); }
      if Before(a.1, b.1) && Before(b.1, c.1) { BeforeChains(a.1, b.1, c.1); }
    }
  }

  /** The canonical text depends only on which keys have which texts. */
  lemma SameEntriesSameText(a: Parts, b: Parts)
    requires multiset(Entries(a)) == multiset(Entries(b))
    ensures Canonical(a) == Canonical(b)
  {
    EntriesAreOrdered();
    SortAlike(Entries(a), Entries(b), KeyNotAfter);
  }

  lemma {:induction false} EntriesJoined(a: Parts, b: Parts)
    ensures Entries(a + b) == Entries(a) + Entries(b)
  {
    hide One;
    if a == [] {
      assert a + b == b;
    } else {
      EntriesJoined(a[1..], b);
      assert (a + b)[1..] == a[1..] + b;
      Regroup(One(a[0]), Entries(a[1..]), Entries(b));
    }
  }

  lemma EntriesAround(before: Parts, p: (string, Value), after: Parts)
    ensures Entries(before + [p] + after) == Entries(before) + (One(p) + Entries(after))
  {
    hide Entries, One;
    Regroup(before, [p], after);
    EntriesJoined(before, [p] + after);
    EntriesJoined([p], after);
    OneEntry(p);
  }

  /** Key order does not matter. */
  lemma {:induction false} PermutedEntries(a: Parts, b: Parts)
    requires multiset(a) == multiset(b)
    ensures multiset(Entries(a)) == multiset(Entries(b))
    decreases |a|
  {
    assert |a| == |multiset(a)| && |b| == |multiset(b)|;
    if a != [] {
      assert a[0] in multiset(b);
      var i :| 0 <= i < |b| && b[i] == a[0];
      var rest := b[..i] + b[i + 1..];
      assert b == b[..i] + [b[i]] + b[i + 1..];
      Tail(a);
      assert multiset(rest) == multiset(b) - multiset{b[i]};
      PermutedEntries(a[1..], rest);
      EntriesAround(b[..i], b[i], b[i + 1..]);
      EntriesJoined(b[..i], b[i + 1..]);
    }
  }

  lemma OneEntry(p: (string, Value))
    ensures Entries([p]) == One(p)
  {
    assert [p][1..] == [];
  }

  lemma KeyOrderIsIgnored(a: Parts, b: Parts)
    requires multiset(a) == multiset(b)
    ensures Canonical(a) == Canonical(b)
  {
    PermutedEntries(a, b);
    SameEntriesSameText(a, b);
  }

  /** An undefined or null value, or an empty array, might as well not be there. */
  lemma DroppedIsIgnored(before: Parts, key: string, v: Value, after: Parts)
    requires v == Absent || v == Many([])
    ensures Canonical(before + [(key, v)] + after) == Canonical(before + after)
  {
    hide Entries;
    EntriesAround(before, (key, v), after);
    EntriesJoined(before, after);
    assert [] + Entries(after) == Entries(after);
  }

  /** Neither does the order of an array's items matter. */
  lemma ItemOrderIsIgnored(before: Parts, key: string, xs: seq<string>, ys: seq<string>, after: Parts)
    requires multiset(xs) == multiset(ys)
    ensures Canonical(before + [(key, Many(xs))] + after) == Canonical(before + [(key, Many(ys))] + after)
  {
    hide Entries, Canonical;
    SameItems(key, xs, ys);
    EntriesAround(before, (key, Many(xs)), after);
    EntriesAround(before, (key, Many(ys)), after);
    SameEntriesSameText(before + [(key, Many(xs))] + after, before + [(key, Many(ys))] + after);
  }

  lemma SameItems(key: string, xs: seq<string>, ys: seq<string>)
    requires multiset(xs) == multiset(ys)
    ensures One((key, Many(xs))) == One((key, Many(ys)))
  {
    StringsAreOrdered();
    SortAlike(xs, ys, NotAfter);
    assert |xs| == |multiset(xs)| && |ys| == |multiset(ys)|;
  }

  // ---------- what the canonical text tells apart ----------

  /** None of the texts holds the separator. */
  predicate Free(parts: seq<string>, c: char) { forall i | 0 <= i < |parts| :: c !in parts[i] }

  lemma CutApart(x: string, r: string, y: string, r': string, c: char)
    requires c !in x && c !in y && x + [c] + r == y + [c] + r'
    ensures x == y && r == r'
  {
    var (s, t) := (x + [c] + r, y + [c] + r');
    assert s[|x|] == c && t[|y|] == c;
    assert forall i | 0 <= i < |x| :: s[i] == x[i];
    assert forall i | 0 <= i < |y| :: t[i] == y[i];
    assert s[..|x|] == x && t[..|y|] == y && s[|x| + 1..] == r && t[|y| + 1..] == r';
  }

  lemma HoldsSeparator(x: string, r: string, c: char)
    ensures c in x + [c] + r
  {
    assert (x + [c] + r)[|x|] == c;
  }

  lemma ManyHoldSeparator(xs: seq<string>, c: char)
    ensures |xs| > 1 ==> c in JoinedBy(xs, [c])
  {
    if |xs| > 1 { HoldsSeparator(xs[0], JoinedBy(xs[1..], [c]), c); }
  }

  lemma {:induction false} JoinedApart(xs: seq<string>, ys: seq<string>, c: char)
    requires xs != [] && ys != [] && Free(xs, c) && Free(ys, c) && JoinedBy(xs, [c]) == JoinedBy(ys, [c])
    ensures xs == ys
  {
    if |xs| == 1 || |ys| == 1 {
      ManyHoldSeparator(xs, c);
      ManyHoldSeparator(ys, c);
    } else {
      CutApart(xs[0], JoinedBy(xs[1..], [c]), ys[0], JoinedBy(ys[1..], [c]), c);
      JoinedApart(xs[1..], ys[1..], c);
      assert xs == [xs[0]] + xs[1..] && ys == [ys[0]] + ys[1..];
    }
  }

  /** Keys without either separator, texts without the one between entries. */
  predicate Clean(entries: seq<(string, string)>) {
    forall i | 0 <= i < |entries| :: '=' !in entries[i].0 && '|' !in entries[i].0 && '|' !in entries[i].1
  }

  lemma {:induction false} PairsApart(xs: seq<(string, string)>, ys: seq<(string, string)>)
    requires Clean(xs) && Clean(ys) && Pairs(xs) == Pairs(ys)
    ensures xs == ys
  {
    if xs != [] && ys != [] {
      assert Pairs(xs)[0] == xs[0].0 + "=" + xs[0].1 && Pairs(ys)[0] == ys[0].0 + "=" + ys[0].1;
      CutApart(xs[0].0, xs[0].1, ys[0].0, ys[0].1, '=');
      assert Pairs(xs)[1..] == Pairs(xs[1..]) && Pairs(ys)[1..] == Pairs(ys[1..]);
      PairsApart(xs[1..], ys[1..]);
      assert xs == [xs[0]] + xs[1..] && ys == [ys[0]] + ys[1..];
    }
  }

  lemma {:induction false} PairsAreFree(entries: seq<(string, string)>)
    requires Clean(entries)
    ensures |Pairs(entries)| == |entries| && Free(Pairs(entries), '|')
    ensures forall i | 0 <= i < |entries| :: '=' in Pairs(entries)[i]
  {
    if entries != [] {
      PairsAreFree(entries[1..]);
      HoldsSeparator(entries[0].0, entries[0].1, '=');
    }
  }

  lemma NothingJoined(entries: seq<(string, string)>)
    requires Clean(entries)
    ensures JoinedBy(Pairs(entries), "|") == "" ==> entries == []
  {
    if entries != [] {
      PairsAreFree(entries);
      var pairs := Pairs(entries);
      assert pairs[0] != "" && pairs[0] <= JoinedBy(pairs, "|");
    }
  }

  lemma SortedIsClean(entries: seq<(string, string)>)
    requires Clean(entries)
    ensures Clean(Sort(entries, KeyNotAfter))
  {
    var r := Sort(entries, KeyNotAfter);
    forall i | 0 <= i < |r| ensures '=' !in r[i].0 && '|' !in r[i].0 && '|' !in r[i].1 {
      assert r[i] in multiset(entries);
    }
  }

  /** Where no separator stands in a key or a text, filters have the same canonical text exactly when
      they keep the same entries, in whatever order. */
  lemma CanonicalIff(a: Parts, b: Parts)
    requires Clean(Entries(a)) && Clean(Entries(b))
    ensures Canonical(a) == Canonical(b) <==> multiset(Entries(a)) == multiset(Entries(b))
  {
    hide Entries, Clean, Sort, Pairs, JoinedBy;
    if multiset(Entries(a)) == multiset(Entries(b)) { SameEntriesSameText(a, b); }
    if Canonical(a) == Canonical(b) {
      var (xs, ys) := (Sort(Entries(a), KeyNotAfter), Sort(Entries(b), KeyNotAfter));
      SortedIsClean(Entries(a));
      SortedIsClean(Entries(b));
      PairsAreFree(xs);
      PairsAreFree(ys);
      NothingJoined(xs);
      NothingJoined(ys);
      NoPairs();
      if xs != [] && ys != [] {
        JoinedApart(Pairs(xs), Pairs(ys), '|');
        PairsApart(xs, ys);
      }
      assert xs == ys;
    }
  }

  lemma NoPairs()
    ensures JoinedBy(Pairs([]), "|") == ""
  {
  }

  /** The text of an array without commas in its items determines the items up to order. */
  lemma ItemsFromText(xs: seq<string>, ys: seq<string>)
    requires xs != [] && ys != [] && Free(xs, ',') && Free(ys, ',')
    ensures TextOf(Many(xs)) == TextOf(Many(ys)) <==> multiset(xs) == multiset(ys)
  {
    StringsAreOrdered();
    SortAlike(xs, ys, NotAfter);
    var (u, v) := (Sort(xs, NotAfter), Sort(ys, NotAfter));
    SortedIsFree(xs);
    SortedIsFree(ys);
    if JoinedBy(u, ",") == JoinedBy(v, ",") { JoinedApart(u, v, ','); }
  }

  lemma SortedIsFree(xs: seq<string>)
    requires Free(xs, ',') && xs != []
    ensures Sort(xs, NotAfter) != [] && Free(Sort(xs, NotAfter), ',')
  {
    var r := Sort(xs, NotAfter);
    assert |multiset(r)| == |r|;
    forall i | 0 <= i < |r| ensures ',' !in r[i] { assert r[i] in multiset(xs); }
  }
}
