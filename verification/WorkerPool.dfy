/** The bounded-concurrency map: runners that share one cursor and one output, as a step system. */
module WorkerPool {

  type Runner = nat

  datatype Phase = Ready | Working(item: nat) | Stopped | Failed

  /** `finished` lists the items in the order in which they were stored, `thrown` those whose worker
      threw. */
  datatype State<R> = State(cursor: nat, runners: seq<Phase>, out: map<nat, R>, finished: seq<nat>, thrown: set<nat>)

  datatype Step = Take(runner: Runner) | Store(runner: Runner) | Throw(runner: Runner)

  function RunnerCount(limit: int, n: nat): nat {
    var m := if limit < n then limit else n;
    if m < 1 then 1 else m
  }

  function Init<R>(limit: int, n: nat): State<R> {
    State(0, seq(RunnerCount(limit, n), _ => Ready), map[], [], {})
  }

  predicate Enabled<R>(s: State<R>, step: Step) {
    step.runner < |s.runners| &&
    match step
    case Take(r) => s.runners[r].Ready?
    case Store(r) => s.runners[r].Working?
    case Throw(r) => s.runners[r].Working?
  }

  /** A ready runner takes the next item, or stops when there is none; `worker(i)` is the result of
      item `i`. */
  function Apply<R>(s: State<R>, step: Step, n: nat, worker: nat -> R): State<R>
    requires Enabled(s, step)
  {
    match step
    case Take(r) =>
      if s.cursor < n then s.(cursor := s.cursor + 1, runners := s.runners[r := Working(s.cursor)])
      else s.(runners := s.runners[r := Stopped])
    case Store(r) =>
      var i := s.runners[r].item;
      s.(runners := s.runners[r := Ready], out := s.out[i := worker(i)], finished := s.finished + [i])
    case Throw(r) => s.(runners := s.runners[r := Failed], thrown := s.thrown + {s.runners[r].item})
  }

  predicate InFlight<R>(s: State<R>, i: nat) { exists r | 0 <= r < |s.runners| :: s.runners[r] == Working(i) }

  /** Items in flight are distinct and below the cursor, and each item below the cursor is exactly
      one of in flight, stored with its worker's result, or thrown. */
  ghost predicate Inv<R>(s: State<R>, limit: int, n: nat, worker: nat -> R) {
    && |s.runners| == RunnerCount(limit, n) && s.cursor <= n
    && (forall q, r | 0 <= q < r < |s.runners| && s.runners[q].Working? :: s.runners[q] != s.runners[r])
    && (forall i: nat :: InFlight(s, i) || i in s.out || i in s.thrown <==> i < s.cursor)
    && (forall i: nat | InFlight(s, i) :: i !in s.out && i !in s.thrown)
    && (forall i | i in s.out :: i !in s.thrown && s.out[i] == worker(i))
    && (forall i: nat :: i in s.out <==> i in s.finished)
    && (forall j, k | 0 <= j < k < |s.finished| :: s.finished[j] != s.finished[k])
    && (forall r | 0 <= r < |s.runners| && s.runners[r].Stopped? :: s.cursor == n)
    && (s.thrown == {} ==> forall r | 0 <= r < |s.runners| :: !s.runners[r].Failed?)
  }

  lemma InFlightAfter<R>(s: State<R>, step: Step, n: nat, worker: nat -> R, i: nat)
    requires Enabled(s, step)
    requires forall q, r | 0 <= q < r < |s.runners| && s.runners[q].Working? :: s.runners[q] != s.runners[r]
    ensures var (s', p) := (Apply(s, step, n, worker), s.runners[step.runner]);
      InFlight(s', i) <==> s'.runners[step.runner] == Working(i) || (InFlight(s, i) && p != Working(i))
  {
    var (s', r) := (Apply(s, step, n, worker), step.runner);
    forall q | 0 <= q < |s.runners| && q != r ensures s'.runners[q] == s.runners[q] {}
    if InFlight(s, i) {
      var q :| 0 <= q < |s.runners| && s.runners[q] == Working(i);
      if q != r { assert s'.runners[q] == Working(i) && s.runners[r] != Working(i); }
    }
  }

  lemma TakenIsNew<R>(s: State<R>, limit: int, n: nat, worker: nat -> R, r: nat)
    requires Inv(s, limit, n, worker) && r < |s.runners| && s.runners[r].Working?
    ensures InFlight(s, s.runners[r].item) && s.runners[r].item < s.cursor
  {
    assert InFlight(s, s.runners[r].item);
  }

  /** Runners stay distinct: a taken item is new. */
  lemma RunnersStayDistinct<R>(s: State<R>, step: Step, limit: int, n: nat, worker: nat -> R)
    requires Inv(s, limit, n, worker) && Enabled(s, step)
    ensures var s' := Apply(s, step, n, worker);
      forall q, r | 0 <= q < r < |s'.runners| && s'.runners[q].Working? :: s'.runners[q] != s'.runners[r]
  {
    var s' := Apply(s, step, n, worker);
    forall q, r | 0 <= q < r < |s'.runners| && s'.runners[q].Working?
      ensures s'.runners[q] != s'.runners[r]
    {
      if q != step.runner { TakenIsNew(s, limit, n, worker, q); }
      if r != step.runner && s.runners[r].Working? { TakenIsNew(s, limit, n, worker, r); }
    }
  }

  lemma StepKeepsInv<R>(s: State<R>, step: Step, limit: int, n: nat, worker: nat -> R)
    requires Inv(s, limit, n, worker) && Enabled(s, step)
    ensures Inv(Apply(s, step, n, worker), limit, n, worker)
  {
    var (s', r) := (Apply(s, step, n, worker), step.runner);
    RunnersStayDistinct(s, step, limit, n, worker);
    forall i: nat
      ensures InFlight(s', i) <==> s'.runners[r] == Working(i) || (InFlight(s, i) && s.runners[r] != Working(i))
    {
      InFlightAfter(s, step, n, worker, i);
    }
    if s.runners[r].Working? { TakenIsNew(s, limit, n, worker, r); }
    hide InFlight;
  }

  lemma InitKeepsInv<R>(limit: int, n: nat, worker: nat -> R)
    ensures Inv(Init(limit, n), limit, n, worker)
  {
    assert forall i: nat :: !InFlight(Init<R>(limit, n), i);
  }

  // ---------- how much is in flight ----------

  function ItemsOf(runners: seq<Phase>): set<nat> {
    set r | 0 <= r < |runners| && runners[r].Working? :: runners[r].item
  }

  lemma {:induction false} FewItems(runners: seq<Phase>)
    ensures |ItemsOf(runners)| <= |runners|
  {
    if runners != [] {
      var (rest, last) := (runners[..|runners| - 1], runners[|runners| - 1]);
      FewItems(rest);
      assert ItemsOf(runners) == ItemsOf(rest) + if last.Working? then {last.item} else {};
    }
  }

  /** At most `limit` items are in flight, or one when the limit is lower. */
  lemma BoundedInFlight<R>(s: State<R>, limit: int, n: nat, worker: nat -> R)
    requires Inv(s, limit, n, worker)
    ensures |set i | i in ItemsOf(s.runners) && InFlight(s, i)| <= if limit < 1 then 1 else limit
  {
    FewItems(s.runners);
    assert (set i | i in ItemsOf(s.runners) && InFlight(s, i)) == ItemsOf(s.runners);
  }

  // ---------- runs ----------

  predicate Runs<R(!new)>(s: State<R>, steps: seq<Step>, n: nat, worker: nat -> R)
    decreases |steps|
  {
    steps == [] || (Enabled(s, steps[0]) && Runs(Apply(s, steps[0], n, worker), steps[1..], n, worker))
  }

  function After<R(!new)>(s: State<R>, steps: seq<Step>, n: nat, worker: nat -> R): State<R>
    requires Runs(s, steps, n, worker)
    decreases |steps|
  {
    if steps == [] then s else After(Apply(s, steps[0], n, worker), steps[1..], n, worker)
  }

  function Weight(p: Phase): nat { if p.Ready? then 1 else if p.Working? then 2 else 0 }

  function Weights(runners: seq<Phase>): nat {
    if runners == [] then 0 else Weights(runners[..|runners| - 1]) + Weight(runners[|runners| - 1])
  }

  lemma {:induction false} WeightsUpdate(runners: seq<Phase>, r: nat, p: Phase)
    requires r < |runners|
    ensures Weights(runners[r := p]) == Weights(runners) - Weight(runners[r]) + Weight(p)
  {
    var n := |runners| - 1;
    if r < n {
      assert runners[r := p][..n] == runners[..n][r := p];
      WeightsUpdate(runners[..n], r, p);
    } else {
      assert runners[r := p][..n] == runners[..n];
    }
  }

  /** Steps still to come: two for each item not taken, and what the runners have left. */
  function Remaining<R>(s: State<R>, n: nat): int { 2 * (n - s.cursor) + Weights(s.runners) }

  lemma StepsAreCounted<R>(s: State<R>, step: Step, n: nat, worker: nat -> R)
    requires Enabled(s, step) && s.cursor <= n
    ensures 0 <= Remaining(Apply(s, step, n, worker), n) < Remaining(s, n)
  {
    WeightsUpdate(s.runners, step.runner, Apply(s, step, n, worker).runners[step.runner]);
  }

  lemma {:induction false} ReadyWeights(k: nat)
    ensures Weights(seq(k, _ => Ready)) == k
  {
    if k > 0 {
      assert seq(k, _ => Ready)[..k - 1] == seq(k - 1, _ => Ready);
      ReadyWeights(k - 1);
    }
  }

  lemma {:induction false} RunKeepsInv<R(!new)>(s: State<R>, steps: seq<Step>, limit: int, n: nat, worker: nat -> R)
    requires Inv(s, limit, n, worker) && Runs(s, steps, n, worker)
    ensures Inv(After(s, steps, n, worker), limit, n, worker)
    ensures |steps| + Remaining(After(s, steps, n, worker), n) <= Remaining(s, n)
    decreases |steps|
  {
    hide Inv, Remaining, Apply, Enabled;
    if steps != [] {
      StepKeepsInv(s, steps[0], limit, n, worker);
      CursorBound(s, limit, n, worker);
      StepsAreCounted(s, steps[0], n, worker);
      RunKeepsInv(Apply(s, steps[0], n, worker), steps[1..], limit, n, worker);
    }
  }

  lemma CursorBound<R>(s: State<R>, limit: int, n: nat, worker: nat -> R)
    requires Inv(s, limit, n, worker)
    ensures s.cursor <= n
  {
  }

  /** No runner can move. */
  ghost predicate Ended<R>(s: State<R>) { forall step: Step :: !Enabled(s, step) }

  /** Every run ends, within twice the items plus the runners; and one that ends without a throw has
      stored the worker's result for every item, each exactly once. */
  lemma MapsEveryItem<R(!new)>(steps: seq<Step>, limit: int, n: nat, worker: nat -> R)
    requires Runs(Init(limit, n), steps, n, worker)
    ensures |steps| <= 2 * n + RunnerCount(limit, n)
    ensures var s := After(Init(limit, n), steps, n, worker);
      Ended(s) && s.thrown == {} ==>
        && (forall i | 0 <= i < n :: i in s.out && s.out[i] == worker(i))
        && (forall i :: i in s.finished <==> 0 <= i < n)
        && (forall j, k | 0 <= j < k < |s.finished| :: s.finished[j] != s.finished[k])
  {
    InitKeepsInv(limit, n, worker);
    RunKeepsInv(Init(limit, n), steps, limit, n, worker);
    ReadyWeights(RunnerCount(limit, n));
    var s := After(Init(limit, n), steps, n, worker);
    CursorBound(s, limit, n, worker);
    if Ended(s) && s.thrown == {} { AllStopped(s, limit, n, worker); }
  }

  lemma AllStopped<R>(s: State<R>, limit: int, n: nat, worker: nat -> R)
    requires Inv(s, limit, n, worker) && Ended(s) && s.thrown == {}
    ensures s.cursor == n && forall i | 0 <= i < n :: i in s.out && s.out[i] == worker(i)
  {
    forall r | 0 <= r < |s.runners| ensures s.runners[r].Stopped? {
      assert !Enabled(s, Take(r)) && !Enabled(s, Store(r));
    }
    assert s.runners[0].Stopped?;
    assert forall i: nat :: !InFlight(s, i);
  }
}
