/** Sorting by a total order: the result depends only on which elements there are. */
module Sorting {
  import opened Text

  ghost predicate TotalPreorder<T(!new)>(leq: (T, T) -> bool) {
    && (forall a, b :: leq(a, b) || leq(b, a))
    && (forall a, b, c :: leq(a, b) && leq(b, c) ==> leq(a, c))
  }

  ghost predicate TotalOrder<T(!new)>(leq: (T, T) -> bool) {
    TotalPreorder(leq) && forall a, b :: leq(a, b) && leq(b, a) ==> a == b
  }

  ghost predicate Sorted<T>(s: seq<T>, leq: (T, T) -> bool) { forall i, j | 0 <= i < j < |s| :: leq(s[i], s[j]) }

  function Insert<T(==)>(x: T, s: seq<T>, leq: (T, T) -> bool): (r: seq<T>)
    ensures multiset(r) == multiset(s) + multiset{x}
  {
    if s == [] || leq(x, s[0]) then [x] + s
    else
      assert s == [s[0]] + s[1..];
      [s[0]] + Insert(x, s[1..], leq)
  }

  function Sort<T(==)>(s: seq<T>, leq: (T, T) -> bool): (r: seq<T>)
    ensures multiset(r) == multiset(s)
  {
    if s == [] then []
    else
      assert s == [s[0]] + s[1..];
      Insert(s[0], Sort(s[1..], leq), leq)
  }

  lemma {:induction false} InsertSorts<T(!new)>(x: T, s: seq<T>, leq: (T, T) -> bool)
    requires TotalPreorder(leq) && Sorted(s, leq)
    ensures Sorted(Insert(x, s, leq), leq)
  {
    if s != [] && !leq(x, s[0]) {
      var rest := Insert(x, s[1..], leq);
      InsertSorts(x, s[1..], leq);
      forall j | 0 <= j < |rest| ensures leq(s[0], rest[j]) {
        assert rest[j] in multiset(rest);
        assert rest[j] == x || rest[j] in s[1..];
      }
    }
  }

  lemma {:induction false} SortSorts<T(!new)>(s: seq<T>, leq: (T, T) -> bool)
    requires TotalPreorder(leq)
    ensures Sorted(Sort(s, leq), leq)
  {
    if s != [] {
      SortSorts(s[1..], leq);
      InsertSorts(s[0], Sort(s[1..], leq), leq);
    }
  }

  /** Sorting keeps a list exactly when it is in order already; equal elements keep their places. */
  lemma {:induction false} SortFixes<T(!new)>(s: seq<T>, leq: (T, T) -> bool)
    requires TotalPreorder(leq)
    ensures Sort(s, leq) == s <==> Sorted(s, leq)
  {
    SortSorts(s, leq);
    if s != [] && Sorted(s, leq) {
      SortFixes(s[1..], leq);
      assert s == [s[0]] + s[1..];
    }
  }

  lemma Tail<T>(s: seq<T>)
    requires s != []
    ensures s == [s[0]] + s[1..] && multiset(s[1..]) == multiset(s) - multiset{s[0]}
  {
    assert s == [s[0]] + s[1..];
  }

  lemma First<T>(s: seq<T>, x: T, leq: (T, T) -> bool)
    requires Sorted(s, leq) && x in multiset(s) && leq(x, x)
    ensures leq(s[0], x)
  {
  }

  lemma {:induction false} SortedIsUnique<T(!new)>(a: seq<T>, b: seq<T>, leq: (T, T) -> bool)
    requires TotalOrder(leq) && Sorted(a, leq) && Sorted(b, leq) && multiset(a) == multiset(b)
    ensures a == b
  {
    assert |a| == |multiset(a)| && |b| == |multiset(b)|;
    if a != [] {
      assert a[0] in multiset(b) && b[0] in multiset(a);
      First(a, b[0], leq);
      First(b, a[0], leq);
      Tail(a);
      Tail(b);
      SortedIsUnique(a[1..], b[1..], leq);
    }
  }

  /** Two lists sort alike exactly when they are permutations of each other. */
  lemma SortAlike<T(!new)>(a: seq<T>, b: seq<T>, leq: (T, T) -> bool)
    requires TotalOrder(leq)
    ensures Sort(a, leq) == Sort(b, leq) <==> multiset(a) == multiset(b)
  {
    if multiset(a) == multiset(b) {
      SortSorts(a, leq);
      SortSorts(b, leq);
      SortedIsUnique(Sort(a, leq), Sort(b, leq), leq);
    }
  }

  // ---------- strings ----------

  /** Strictly before in dictionary order. */
  predicate Earlier(a: seq<nat>, b: seq<nat>) {
    b != [] && (a == [] || a[0] < b[0] || (a[0] == b[0] && Earlier(a[1..], b[1..])))
  }

  lemma {:induction false} EarlierIsStrict(a: seq<nat>, b: seq<nat>)
    ensures Earlier(a, b) ==> a != b && !Earlier(b, a)
    ensures a != b ==> Earlier(a, b) || Earlier(b, a)
  {
    if a != [] && b != [] && a[0] == b[0] {
      assert a == [a[0]] + a[1..] && b == [b[0]] + b[1..];
      EarlierIsStrict(a[1..], b[1..]);
    }
  }

  lemma {:induction false} EarlierChains(a: seq<nat>, b: seq<nat>, c: seq<nat>)
    requires Earlier(a, b) && Earlier(b, c)
    ensures Earlier(a, c)
  {
    if a != [] && a[0] == b[0] && b[0] == c[0] { EarlierChains(a[1..], b[1..], c[1..]); }
  }

  /** JavaScript's `<` on strings. */
  predicate Before(a: string, b: string) { Earlier(Units(a), Units(b)) }

  predicate NotAfter(a: string, b: string) { a == b || Before(a, b) }

  lemma BeforeIsStrict(a: string, b: string)
    ensures Before(a, b) ==> a != b && !Before(b, a)
    ensures a != b ==> Before(a, b) || Before(b, a)
  {
    hide Units, Earlier;
    EarlierIsStrict(Units(a), Units(b));
    if Units(a) == Units(b) { UnitsInjective(a, b); }
  }

  lemma BeforeChains(a: string, b: string, c: string)
    requires Before(a, b) && Before(b, c)
    ensures Before(a, c)
  {
    EarlierChains(Units(a), Units(b), Units(c));
  }

  lemma StringsAreOrdered()
    ensures TotalOrder(NotAfter)
  {
    hide Before;
    forall a, b
      ensures (NotAfter(a, b) || NotAfter(b, a)) && (NotAfter(a, b) && NotAfter(b, a) ==> a == b)
    {
      BeforeIsStrict(a, b);
    }
    forall a, b, c | NotAfter(a, b) && NotAfter(b, c) ensures NotAfter(a, c) {
      if a != b && b != c { BeforeChains(a, b, c); }
    }
  }
}
