/** Latency SLIs over the histogram layouts: which buckets the generated queries select, and that
    their sum counts exactly the observations at or under the threshold's bucket. */
module Histogram {
  import opened LeBounds

  // ---------- the bounds a per-range query selects ----------

  /** Strictly increasing. */
  predicate Ascending(s: seq<int>) { forall i, j | 0 <= i < j < |s| :: s[i] < s[j] }

  /** `b <= threshold * (1 + 1e-9)`, on the grid. */
  predicate UnderTolerance(b: int, threshold: int) { 0 <= b && b * Giga <= threshold * (Giga + 1) }

  /** Sorted insertion; a value already there is not repeated. */
  function Insert(b: int, s: seq<int>): (r: seq<int>)
    requires Ascending(s)
    ensures Ascending(r) && forall x :: x in r <==> x == b || x in s
  {
    if s == [] then [b]
    else if b < s[0] then
      AscendingTail(s);
      AscendingCons(b, s);
      [b] + s
    else if b == s[0] then s
    else
      AscendingTail(s);
      var rest := Insert(b, s[1..]);
      AscendingCons(s[0], rest);
      assert s == [s[0]] + s[1..];
      [s[0]] + rest
  }

  lemma AscendingTail(s: seq<int>)
    requires Ascending(s) && s != []
    ensures Ascending(s[1..]) && forall x | x in s[1..] :: s[0] < x
  {
    assert forall i | 0 <= i < |s[1..]| :: s[1..][i] == s[i + 1];
  }

  lemma AscendingCons(b: int, s: seq<int>)
    requires Ascending(s) && forall x | x in s :: b < x
    ensures Ascending([b] + s)
  {
    assert forall i | 0 < i < |[b] + s| :: ([b] + s)[i] == s[i - 1] && s[i - 1] in s;
  }

  /** The distinct discovered bounds under the threshold, in order. */
  function PerRangeBoundsUnder(bounds: seq<int>, threshold: int): (r: seq<int>)
    ensures Ascending(r)
    ensures forall b :: b in r <==> b in bounds && UnderTolerance(b, threshold)
  {
    if bounds == [] then []
    else
      var rest := PerRangeBoundsUnder(bounds[1..], threshold);
      assert bounds == [bounds[0]] + bounds[1..];
      if UnderTolerance(bounds[0], threshold) then Insert(bounds[0], rest) else rest
  }

  /** The largest bound the tolerance lets through. */
  function Reach(t: nat): (r: nat)
    ensures r >= t
  {
    t + t / Giga
  }

  lemma ToleranceIs(b: int, t: nat)
    ensures UnderTolerance(b, t) <==> 0 <= b <= Reach(t)
  {
  }

  /** The tolerance for floating-point noise selects exactly the bounds at or under the threshold
      when no bound lies within a billionth above it; otherwise it selects that bound too. */
  lemma SelectsExactly(bounds: seq<int>, t: nat)
    requires forall b | b in bounds :: b >= 0
    ensures (forall b | b in bounds :: b in PerRangeBoundsUnder(bounds, t) <==> b <= t)
        <==> (forall b | b in bounds :: !(t < b <= Reach(t)))
  {
    forall b | b in bounds ensures b in PerRangeBoundsUnder(bounds, t) <==> b <= Reach(t) {
      ToleranceIs(b, t);
    }
  }

  /** Below one second the grid is coarser than the tolerance. */
  lemma BelowOneSecondIsExact(bounds: seq<int>, t: nat, b: int)
    requires t < Giga && b in bounds && b >= 0
    ensures b in PerRangeBoundsUnder(bounds, t) <==> b <= t
  {
    ToleranceIs(b, t);
  }

  /** From one second on it is not: the bound one nanosecond above the threshold is selected. */
  lemma ToleranceReachesNext(t: nat)
    requires t >= Giga
    ensures t + 1 in PerRangeBoundsUnder([t + 1], t)
  {
    ToleranceIs(t + 1, t);
  }

  /** The bounds a delta query selects: its layout is fixed, and so is their order. */
  function AtOrUnder(bounds: seq<int>, threshold: int): (r: seq<int>)
    ensures forall b :: b in r <==> b in bounds && b <= threshold
    ensures Ascending(bounds) ==> Ascending(r)
  {
    if bounds == [] then []
    else
      AscendingParts(bounds);
      assert bounds == [bounds[0]] + bounds[1..];
      var rest := AtOrUnder(bounds[1..], threshold);
      if bounds[0] > threshold then rest
      else
        if Ascending(bounds) then AscendingCons(bounds[0], rest); [bounds[0]] + rest else [bounds[0]] + rest
  }

  lemma AscendingParts(s: seq<int>)
    requires s != []
    ensures Ascending(s) ==> Ascending(s[1..]) && forall x | x in s[1..] :: s[0] < x
  {
    if Ascending(s) { AscendingTail(s); }
  }

  // ---------- buckets ----------

  /** Observations above `lo` and at most `hi`, in nanoseconds. */
  function CountBetween(obs: seq<nat>, lo: int, hi: int): (n: nat)
    ensures n <= |obs|
  {
    if obs == [] then 0
    else (if lo < obs[0] <= hi then 1 else 0) + CountBetween(obs[1..], lo, hi)
  }

  lemma {:induction false} CountAdds(obs: seq<nat>, lo: int, mid: int, hi: int)
    requires lo <= mid <= hi
    ensures CountBetween(obs, lo, mid) + CountBetween(obs, mid, hi) == CountBetween(obs, lo, hi)
  {
    if obs != [] { CountAdds(obs[1..], lo, mid, hi); }
  }

  /** A cumulative bucket counts everything up to its bound. */
  function Cumulative(obs: seq<nat>, bound: int): nat { CountBetween(obs, -1, bound) }

  predicate IsLayout(bounds: seq<int>) { Ascending(bounds) && forall i | 0 <= i < |bounds| :: bounds[i] >= 0 }

  /** A per-range bucket counts only what the bucket below it does not. */
  function InRange(obs: seq<nat>, bounds: seq<int>, i: nat): nat
    requires i < |bounds|
  {
    CountBetween(obs, if i == 0 then -1 else bounds[i - 1], bounds[i])
  }

  /** Sum over the first `n` buckets of those that are picked. */
  function SumPicked(obs: seq<nat>, bounds: seq<int>, picked: seq<bool>, n: nat): nat
    requires n <= |bounds| == |picked|
  {
    if n == 0 then 0
    else SumPicked(obs, bounds, picked, n - 1) + (if picked[n - 1] then InRange(obs, bounds, n - 1) else 0)
  }

  /** Largest picked bound among the first `n`; -1 when there is none. */
  function Top(bounds: seq<int>, picked: seq<bool>, n: nat): int
    requires n <= |bounds| == |picked|
  {
    if n == 0 then -1 else if picked[n - 1] then bounds[n - 1] else Top(bounds, picked, n - 1)
  }

  lemma {:induction false} PickedIsCumulative(obs: seq<nat>, bounds: seq<int>, picked: seq<bool>, n: nat)
    requires IsLayout(bounds) && n <= |bounds| == |picked|
    requires forall i, j | 0 <= i < j < n && picked[j] :: picked[i]
    ensures SumPicked(obs, bounds, picked, n) == Cumulative(obs, Top(bounds, picked, n))
  {
    if n == 0 {
      NothingBetween(obs, -1);
    } else {
      PickedIsCumulative(obs, bounds, picked, n - 1);
      if picked[n - 1] {
        CountAdds(obs, -1, if n == 1 then -1 else bounds[n - 2], bounds[n - 1]);
      }
    }
  }

  lemma {:induction false} NothingBetween(obs: seq<nat>, b: int)
    ensures CountBetween(obs, b, b) == 0
  {
    if obs != [] { NothingBetween(obs[1..], b); }
  }

  // ---------- the query over labelled series ----------

  ghost predicate Spells(le: Spelling, bound: nat) {
    IsPlain(le) && Denotes(le, bound) && (bound == 0 ==> le.intPart != "")
  }

  /** One series per bucket, its `le` label spelled as its producer pleases; zero is not spelled as
      a point alone. */
  ghost predicate Labelled(bounds: seq<int>, labels: seq<Spelling>) {
    && |labels| == |bounds|
    && forall i | 0 <= i < |bounds| :: bounds[i] >= 0 && Spells(labels[i], bounds[i])
  }

  /** The alternation of the selected bounds' patterns matches the series. */
  ghost predicate Selects(sel: seq<int>, le: Spelling) {
    exists b | b in sel :: Matches(LeValuePattern(b), TextOf(le))
  }

  ghost predicate PicksMatching(picked: seq<bool>, sel: seq<int>, labels: seq<Spelling>) {
    |picked| == |labels| && forall i | 0 <= i < |labels| :: picked[i] <==> Selects(sel, labels[i])
  }

  lemma DenotesOne(sp: Spelling, n: nat, m: nat)
    requires IsPlain(sp) && Denotes(sp, n) && Denotes(sp, m)
    ensures n == m
  {
    Cancel(n, m, Pow10(|sp.frac|));
  }

  /** A bucket's series is selected exactly when its bound is. */
  lemma SelectsByBound(sel: seq<int>, le: Spelling, bound: nat)
    requires Spells(le, bound) && forall b | b in sel :: b >= 0
    ensures Selects(sel, le) <==> bound in sel
  {
    forall b | b in sel ensures Matches(LeValuePattern(b), TextOf(le)) <==> b == bound {
      LePatternExact(le, b);
      if Denotes(le, b) { DenotesOne(le, b, bound); }
    }
  }

  /** Buckets up to a cut sum to the cumulative bucket at the largest bound under it. */
  lemma CutIsCumulative(obs: seq<nat>, bounds: seq<int>, picked: seq<bool>, sel: seq<int>, cut: int)
    requires IsLayout(bounds) && |picked| == |bounds| && Ascending(sel)
    requires forall i | 0 <= i < |bounds| :: picked[i] <==> bounds[i] <= cut
    requires forall b :: b in sel <==> b in bounds && b <= cut
    ensures var good := SumPicked(obs, bounds, picked, |bounds|);
      good == Cumulative(obs, if sel == [] then -1 else sel[|sel| - 1]) && good <= |obs|
  {
    hide SumPicked, Cumulative, Top;
    forall b ensures b in sel <==> exists i | 0 <= i < |bounds| :: picked[i] && bounds[i] == b {
      if b in sel {
        var i :| 0 <= i < |bounds| && bounds[i] == b;
        assert picked[i];
      }
    }
    PickedIsCumulative(obs, bounds, picked, |bounds|);
    TopIsLast(bounds, picked, sel, |bounds|);
    AtMostAll(obs, if sel == [] then -1 else sel[|sel| - 1]);
  }

  lemma AtMostAll(obs: seq<nat>, bound: int)
    ensures Cumulative(obs, bound) <= |obs|
  {
  }

  /** The per-range query sums to the cumulative bucket at the largest bound it selects, whatever
      the spelling of the labels; so good events never exceed the total. */
  lemma PerRangeIsCumulative(obs: seq<nat>, bounds: seq<int>, labels: seq<Spelling>, t: nat, picked: seq<bool>)
    requires IsLayout(bounds) && Labelled(bounds, labels)
    requires PicksMatching(picked, PerRangeBoundsUnder(bounds, t), labels)
    ensures var (sel, n) := (PerRangeBoundsUnder(bounds, t), |bounds|);
      var good := SumPicked(obs, bounds, picked, n);
      && good == Cumulative(obs, if sel == [] then -1 else sel[|sel| - 1])
      && good <= |obs|
  {
    hide PerRangeBoundsUnder, UnderTolerance, Reach, SumPicked, Cumulative, Selects, Denotes;
    var sel := PerRangeBoundsUnder(bounds, t);
    forall b | b in bounds ensures b in sel <==> b <= Reach(t) { ToleranceIs(b, t); }
    forall i | 0 <= i < |bounds| ensures picked[i] <==> bounds[i] <= Reach(t) {
      assert bounds[i] in bounds;
      SelectsByBound(sel, labels[i], bounds[i]);
    }
    CutIsCumulative(obs, bounds, picked, sel, Reach(t));
  }

  /** The delta query, whose buckets hold their own ranges too, selects exactly the bounds at or under
      the threshold and sums to the cumulative bucket at the largest of them. */
  lemma DeltaIsCumulative(obs: seq<nat>, bounds: seq<int>, labels: seq<Spelling>, t: nat, picked: seq<bool>)
    requires IsLayout(bounds) && Labelled(bounds, labels)
    requires PicksMatching(picked, AtOrUnder(bounds, t), labels)
    ensures forall i | 0 <= i < |bounds| :: picked[i] <==> bounds[i] <= t
    ensures var (sel, n) := (AtOrUnder(bounds, t), |bounds|);
      var good := SumPicked(obs, bounds, picked, n);
      && good == Cumulative(obs, if sel == [] then -1 else sel[|sel| - 1])
      && good <= |obs|
  {
    hide AtOrUnder, SumPicked, Cumulative, Selects, Denotes;
    var sel := AtOrUnder(bounds, t);
    assert forall b | b in sel :: b in bounds && b >= 0;
    forall i | 0 <= i < |bounds| ensures picked[i] <==> bounds[i] <= t {
      assert bounds[i] in bounds;
      SelectsByBound(sel, labels[i], bounds[i]);
    }
    CutIsCumulative(obs, bounds, picked, sel, t);
  }

  /** Bounds of the span-derived histogram, the one layout the delta query reads, in nanoseconds. */
  const SpanBounds: seq<int> := [
    0, 5_000_000, 10_000_000, 25_000_000, 50_000_000, 75_000_000, 100_000_000, 250_000_000,
    500_000_000, 750_000_000, 1_000_000_000, 2_500_000_000, 5_000_000_000, 7_500_000_000,
    10_000_000_000]

  /** On the span-derived layout the delta query always selects something, counts nothing above the
      threshold, and misses exactly what lies between its last bound and the threshold. */
  lemma SpanDeltaIsCumulative(obs: seq<nat>, labels: seq<Spelling>, t: nat, picked: seq<bool>)
    requires Labelled(SpanBounds, labels) && PicksMatching(picked, AtOrUnder(SpanBounds, t), labels)
    ensures var sel := AtOrUnder(SpanBounds, t);
      && sel != [] && sel[|sel| - 1] <= t
      && SumPicked(obs, SpanBounds, picked, |SpanBounds|) + CountBetween(obs, sel[|sel| - 1], t)
         == Cumulative(obs, t)
  {
    hide AtOrUnder, SumPicked, Selects, Labelled, PicksMatching, CountBetween;
    var sel := AtOrUnder(SpanBounds, t);
    DeltaIsCumulative(obs, SpanBounds, labels, t, picked);
    assert SpanBounds[0] == 0;
    assert 0 in sel;
    LastIsIn(sel);
    CountAdds(obs, -1, sel[|sel| - 1], t);
  }

  /** Any layout can be labelled, the span-derived one too. */
  lemma {:induction false} CanBeLabelled(bounds: seq<int>) returns (labels: seq<Spelling>)
    requires forall b | b in bounds :: b >= 0
    ensures Labelled(bounds, labels)
  {
    if bounds == [] {
      labels := [];
    } else {
      assert bounds[0] in bounds && forall i | 0 <= i < |bounds[1..]| :: bounds[1..][i] in bounds;
      var first := SpellingOf(bounds[0]);
      var rest := CanBeLabelled(bounds[1..]);
      labels := [first] + rest;
    }
  }

  lemma {:induction false} TopIsLast(bounds: seq<int>, picked: seq<bool>, sel: seq<int>, n: nat)
    requires IsLayout(bounds) && |picked| == |bounds| && n <= |bounds| && Ascending(sel)
    requires forall b :: b in sel <==> exists i | 0 <= i < n :: picked[i] && bounds[i] == b
    ensures Top(bounds, picked, n) == if sel == [] then -1 else sel[|sel| - 1]
  {
    if n > 0 && picked[n - 1] {
      assert bounds[n - 1] in sel;
      assert sel[|sel| - 1] in sel;
    } else if n > 0 {
      TopIsLast(bounds, picked, sel, n - 1);
    } else {
      LastIsIn(sel);
    }
  }

  lemma LastIsIn(sel: seq<int>)
    ensures sel != [] ==> sel[|sel| - 1] in sel
    ensures Ascending(sel) ==> forall x | x in sel :: x <= sel[|sel| - 1]
  {
  }

  /** With nothing just above it, a threshold that is a bound is the largest selected one. */
  lemma ThresholdIsLast(bounds: seq<int>, t: nat)
    requires t in bounds && forall b | b in bounds :: b >= 0 && !(t < b <= Reach(t))
    ensures var sel := PerRangeBoundsUnder(bounds, t); sel != [] && sel[|sel| - 1] == t
  {
    hide PerRangeBoundsUnder, UnderTolerance, Reach, Ascending;
    var sel := PerRangeBoundsUnder(bounds, t);
    ToleranceIs(t, t);
    assert t in sel;
    LastIsIn(sel);
    ToleranceIs(sel[|sel| - 1], t);
  }

  /** The layouts agree: when the threshold is a bound and no bound lies within a billionth above
      it, the per-range query counts what the cumulative bucket at the threshold counts. */
  lemma LayoutsAgree(obs: seq<nat>, bounds: seq<int>, labels: seq<Spelling>, t: nat, picked: seq<bool>)
    requires IsLayout(bounds) && Labelled(bounds, labels) && t in bounds
    requires forall b | b in bounds :: !(t < b <= Reach(t))
    requires PicksMatching(picked, PerRangeBoundsUnder(bounds, t), labels)
    ensures SumPicked(obs, bounds, picked, |bounds|) == Cumulative(obs, t)
  {
    hide PerRangeBoundsUnder, SumPicked, Cumulative, Reach, PicksMatching, UnderTolerance;
    PerRangeIsCumulative(obs, bounds, labels, t, picked);
    assert forall b | b in bounds :: b >= 0;
    ThresholdIsLast(bounds, t);
  }
}
