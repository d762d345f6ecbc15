/** One reference counter as a versioned saved object that concurrent callers read, change and
    write back, and that collection deletes without looking at it again. Optimistic retries make each
    call one atomic change, or none; only a deletion can lose what was counted. */
module RefCounter {

  type Caller = nat

  /** The stored counter; a write or a create gives it a version never used before. */
  datatype Record = Absent | Stored(count: nat, version: nat)

  datatype Change = Up | Down

  datatype Result = Counted(wasZero: bool) | Uncounted(droppedToZero: bool) | Underflow | Conflict | Thrown

  datatype Phase = Reading | Writing(seen: Record) | Finished(result: Result)

  datatype Call = Call(change: Change, attempt: nat, phase: Phase)

  /** `log` lists the changes in the order in which they reached the store, and `removed` totals the
      counts that deletions took away; both are history. */
  datatype State = State(record: Record, nextVersion: nat, calls: map<Caller, Call>,
                         log: seq<(Caller, Change)>, removed: nat)

  /** A lost write reaches the store, but its caller sees an error. */
  datatype Step =
    | Begin(caller: Caller, change: Change)
    | Read(caller: Caller)
    | Write(caller: Caller, lost: bool)
    | Throw(caller: Caller)
    | Return(caller: Caller)
    | Remove

  const MaxRetries: nat := 3

  function Value(r: Record): nat { if r.Absent? then 0 else r.count }

  predicate Enabled(s: State, step: Step) {
    match step
    case Begin(c, _) => c !in s.calls
    case Read(c) => c in s.calls && s.calls[c].phase.Reading? && s.calls[c].attempt < MaxRetries
    case Write(c, _) => c in s.calls && s.calls[c].phase.Writing?
    case Throw(c) => c in s.calls && !s.calls[c].phase.Finished?
    case Return(c) => c in s.calls && s.calls[c].phase.Finished?
    case Remove => true
  }

  /** The write is refused as a conflict when another version is there than the one that was read. */
  predicate Stale(s: State, seen: Record) {
    s.record.Stored? && (seen.Stored? ==> s.record.version != seen.version)
  }

  /** An update of a counter that was deleted since the read fails, and not as a conflict. */
  predicate Missing(s: State, seen: Record) { s.record.Absent? && seen.Stored? }

  function To(s: State, c: Caller, phase: Phase): State
    requires c in s.calls
  {
    s.(calls := s.calls[c := s.calls[c].(phase := phase)])
  }

  /** What a read leads to: a decrement that finds nothing to take stops there. */
  function AfterRead(change: Change, seen: Record): Phase {
    if change == Down && Value(seen) == 0 then Finished(Underflow) else Writing(seen)
  }

  function Written(change: Change, seen: Record): (count: nat)
    requires change == Down ==> Value(seen) > 0
  {
    if change == Up then Value(seen) + 1 else Value(seen) - 1
  }

  function ResultOf(change: Change, seen: Record): Result
    requires change == Down ==> Value(seen) > 0
  {
    if change == Up then Counted(Value(seen) == 0) else Uncounted(Value(seen) == 1)
  }

  function Retried(s: State, c: Caller): State
    requires c in s.calls
  {
    var call := s.calls[c];
    var attempt := call.attempt + 1;
    s.(calls := s.calls[c :=
      Call(call.change, attempt, if attempt < MaxRetries then Reading else Finished(Conflict))])
  }

  function Apply(s: State, step: Step): State
    requires Enabled(s, step) && Inv(s)
  {
    match step
    case Begin(c, change) => s.(calls := s.calls[c := Call(change, 0, Reading)])
    case Read(c) => To(s, c, AfterRead(s.calls[c].change, s.record))
    case Write(c, lost) =>
      var (call, seen) := (s.calls[c], s.calls[c].phase.seen);
      if Stale(s, seen) then Retried(s, c)
      else if Missing(s, seen) then To(s, c, Finished(Thrown))
      else
        To(s.(record := Stored(Written(call.change, seen), s.nextVersion),
              nextVersion := s.nextVersion + 1, log := s.log + [(c, call.change)]),
           c, Finished(if lost then Thrown else ResultOf(call.change, seen)))
    case Throw(c) => To(s, c, Finished(Thrown))
    case Return(c) => s.(calls := s.calls - {c})
    case Remove => s.(record := Absent, removed := s.removed + Value(s.record))
  }

  /** A version names one content, so a snapshot whose version is still current is current. */
  predicate CallOk(s: State, call: Call) {
    && call.attempt <= MaxRetries
    && (call.phase.Writing? ==>
          && (call.change == Down ==> Value(call.phase.seen) > 0)
          && call.attempt < MaxRetries
          && (call.phase.seen.Stored? ==>
                && call.phase.seen.version < s.nextVersion
                && (s.record.Stored? && s.record.version == call.phase.seen.version ==>
                      s.record == call.phase.seen)))
    && (call.phase.Reading? ==> call.attempt < MaxRetries)
  }

  predicate Inv(s: State) {
    && (s.record.Stored? ==> s.record.version < s.nextVersion)
    && forall c | c in s.calls :: CallOk(s, s.calls[c])
  }

  function Init(): State { State(Absent, 0, map[], [], 0) }

  lemma StepKeepsInv(s: State, step: Step)
    requires Inv(s) && Enabled(s, step)
    ensures Inv(Apply(s, step))
  {
    var s' := Apply(s, step);
    forall c | c in s'.calls ensures CallOk(s', s'.calls[c]) {
      assert c in s.calls ==> CallOk(s, s.calls[c]);
    }
  }

  // ---------- the atomic counter ----------

  /** One atomic change of a counter of value `n`, and what its caller is told. */
  predicate Atomic(n: nat, change: Change, n': nat, result: Result) {
    match change
    case Up => n' == n + 1 && (result == Counted(n == 0) || result == Thrown)
    case Down => n > 0 && n' == n - 1 && (result == Uncounted(n' == 0) || result == Thrown)
  }

  /** A step is one atomic change with the result its caller gets, or a deletion that takes the whole
      count away, or it leaves the value alone. */
  lemma StepIsAtomic(s: State, step: Step)
    requires Inv(s) && Enabled(s, step)
    ensures var (n, s') := (Value(s.record), Apply(s, step));
      if step.Remove? then Value(s'.record) == 0 && s'.removed == s.removed + n && s'.log == s.log
      else if s'.log == s.log then Value(s'.record) == n && s'.removed == s.removed
      else
        && step.Write? && s'.removed == s.removed
        && s'.log == s.log + [(step.caller, s.calls[step.caller].change)]
        && s'.calls[step.caller].phase.Finished?
        && Atomic(n, s.calls[step.caller].change, Value(s'.record), s'.calls[step.caller].phase.result)
  {
    if step.Write? {
      var c := step.caller;
      assert CallOk(s, s.calls[c]);
      assert (s.log + [(c, s.calls[c].change)])[|s.log|] == (c, s.calls[c].change);
    }
  }

  /** Only an undisturbed write reaches the store. One that meets another version is retried, three
      times at most; one that meets nothing where it read something throws. */
  lemma WriteTakesEffect(s: State, c: Caller, lost: bool)
    requires Inv(s) && Enabled(s, Write(c, lost))
    ensures var s' := Apply(s, Write(c, lost));
      if s.calls[c].phase.seen == s.record then |s'.log| == |s.log| + 1
      else
        && s'.log == s.log && s'.record == s.record
        && if s.record.Absent? then s'.calls[c].phase == Finished(Thrown)
           else
             && s'.calls[c].attempt == s.calls[c].attempt + 1
             && (s'.calls[c].phase == Finished(Conflict) <==> s'.calls[c].attempt == MaxRetries)
  {
    assert CallOk(s, s.calls[c]);
  }

  // ---------- runs ----------

  ghost predicate Reached(s: State, steps: seq<Step>, s': State)
    requires Inv(s)
    decreases |steps|
  {
    if steps == [] then s' == s
    else
      && Enabled(s, steps[0])
      && (StepKeepsInv(s, steps[0]); Reached(Apply(s, steps[0]), steps[1..], s'))
  }

  /** The counter after replaying the logged changes one by one. */
  function Replay(log: seq<(Caller, Change)>): int {
    if log == [] then 0
    else Replay(log[..|log| - 1]) + (if log[|log| - 1].1 == Up then 1 else -1)
  }

  lemma ReplayMore(log: seq<(Caller, Change)>, e: (Caller, Change))
    ensures Replay(log + [e]) == Replay(log) + (if e.1 == Up then 1 else -1)
  {
    assert (log + [e])[..|log|] == log;
  }

  /** The counter and what was deleted of it are together what the completed changes add up to. */
  ghost predicate Accounted(s: State) { Value(s.record) + s.removed == Replay(s.log) }

  lemma AccountStep(s: State, step: Step)
    requires Inv(s) && Enabled(s, step) && Accounted(s)
    ensures Accounted(Apply(s, step))
  {
    StepIsAtomic(s, step);
    if step.Write? { ReplayMore(s.log, (step.caller, s.calls[step.caller].change)); }
  }

  /** No change is lost but by deletion: in every run each completed change is in the counter or in
      what was deleted. */
  lemma {:induction false} RunAccounts(s: State, steps: seq<Step>, s': State)
    requires Inv(s) && Accounted(s) && Reached(s, steps, s')
    ensures Inv(s') && Accounted(s')
    decreases |steps|
  {
    hide Inv, Apply, Enabled, Accounted;
    if steps != [] {
      var step := steps[0];
      StepKeepsInv(s, step);
      AccountStep(s, step);
      RunAccounts(Apply(s, step), steps[1..], s');
    }
  }

  /** Every deletion of the run meets a counter of zero, or none. */
  ghost predicate RemovesMeetZero(s: State, steps: seq<Step>, s': State)
    requires Inv(s) && Reached(s, steps, s')
    decreases |steps|
  {
    steps == [] || (
      StepKeepsInv(s, steps[0]);
      (steps[0].Remove? ==> Value(s.record) == 0) && RemovesMeetZero(Apply(s, steps[0]), steps[1..], s'))
  }

  lemma {:induction false} RemovedGrows(s: State, steps: seq<Step>, s': State)
    requires Inv(s) && Reached(s, steps, s')
    ensures s'.removed >= s.removed && (s'.removed == s.removed <==> RemovesMeetZero(s, steps, s'))
    decreases |steps|
  {
    hide Inv, Apply, Enabled;
    if steps != [] {
      var step := steps[0];
      StepKeepsInv(s, step);
      StepIsAtomic(s, step);
      RemovedGrows(Apply(s, step), steps[1..], s');
    }
  }

  /** A run leaves the counter at what its completed changes add up to exactly when no deletion met a
      counter that was not zero. */
  lemma NothingLostIff(steps: seq<Step>, s': State)
    requires Reached(Init(), steps, s')
    ensures Value(s'.record) == Replay(s'.log) <==> RemovesMeetZero(Init(), steps, s')
  {
    hide Reached, RemovesMeetZero;
    RunAccounts(Init(), steps, s');
    RemovedGrows(Init(), steps, s');
  }

  /** And one can: a reference taken after the zero check is deleted with its counter. */
  lemma DeletionLoses() returns (steps: seq<Step>, s': State)
    ensures Reached(Init(), steps, s')
    ensures Value(s'.record) == 0 && Replay(s'.log) == 1 && !RemovesMeetZero(Init(), steps, s')
  {
    steps := [Begin(0, Up), Read(0), Write(0, false), Remove];
    var s1 := Apply(Init(), steps[0]);
    var s2 := Apply(s1, steps[1]);
    var s3 := Apply(s2, steps[2]);
    s' := Apply(s3, steps[3]);
    assert Reached(s', [], s');
    assert steps[1..][1..][1..] == [Remove] && steps[1..][1..] == [Write(0, false), Remove];
    assert Reached(s3, [Remove], s') && Reached(s2, steps[1..][1..], s') && Reached(s1, steps[1..], s');
    assert s'.log == [(0, Up)];
    ReplayMore([], (0, Up));
    assert [] + [(0, Up)] == [(0, Up)];
    NothingLostIff(steps, s');
  }

  /** A decrement is told of an underflow exactly when every completed increment was given back by a
      decrement or deleted. */
  lemma UnderflowIffSpent(steps: seq<Step>, s: State, c: Caller)
    requires Reached(Init(), steps, s) && Inv(s) && Enabled(s, Read(c)) && s.calls[c].change == Down
    ensures Apply(s, Read(c)).calls[c].phase == Finished(Underflow) <==> Replay(s.log) == s.removed
  {
    hide Reached;
    RunAccounts(Init(), steps, s);
  }
}
