/** Whole runs of the deduplication protocol: no count is ever short, and with reliable decrements
    and no overlapping first build, counts are exact and every referenced group is on the ruler. */
module DedupRuns {
  import opened DedupProtocol
  import opened DedupSafety

  predicate Runs(s: State, steps: seq<Step>)
    decreases |steps|
  {
    steps == [] || (Enabled(s, steps[0]) && Runs(Apply(s, steps[0]), steps[1..]))
  }

  function After(s: State, steps: seq<Step>): State
    requires Runs(s, steps)
    decreases |steps|
  {
    if steps == [] then s else After(Apply(s, steps[0]), steps[1..])
  }

  /** `p` holds at every step of the run. */
  ghost predicate Throughout(p: (State, Step) -> bool, s: State, steps: seq<Step>)
    requires Runs(s, steps)
    decreases |steps|
  {
    steps == [] || (p(s, steps[0]) && Throughout(p, Apply(s, steps[0]), steps[1..]))
  }

  /** A run goes on by one more step. */
  lemma {:induction false} Extend(p: (State, Step) -> bool, s: State, steps: seq<Step>, step: Step)
    requires Runs(s, steps) && Throughout(p, s, steps)
    requires Enabled(After(s, steps), step) && p(After(s, steps), step)
    ensures Runs(s, steps + [step]) && Throughout(p, s, steps + [step])
    ensures After(s, steps + [step]) == Apply(After(s, steps), step)
    decreases |steps|
  {
    hide Enabled, Apply;
    if steps == [] {
      assert steps + [step] == [step] && [step][1..] == [];
      assert Runs(Apply(s, step), []) && Throughout(p, Apply(s, step), []);
      assert After(Apply(s, step), []) == Apply(s, step);
    } else {
      assert (steps + [step])[0] == steps[0] && (steps + [step])[1..] == steps[1..] + [step];
      Extend(p, Apply(s, steps[0]), steps[1..], step);
    }
  }

  // ---------- no count is short ----------

  lemma {:induction false} RunKeepsInv(s: State, steps: seq<Step>)
    requires Inv(s) && Runs(s, steps) && Throughout(Quiet, s, steps)
    ensures Inv(After(s, steps))
    decreases |steps|
  {
    hide Inv, Apply, Enabled, Quiet;
    if steps != [] {
      StepKeepsInv(s, steps[0]);
      RunKeepsInv(Apply(s, steps[0]), steps[1..]);
    }
  }

  function Claimants(s: State, k: Key): set<Id> { set id | id in s.docs && Claims(s, id, k) }

  function Holders(s: State, k: Key): set<Id> { set id | id in s.ops && Holds(s, id, k) }

  lemma OneRole(s: State, id: Id, k: Key)
    requires id in s.ops && OpOk(s, id)
    ensures !(Claims(s, id, k) && Holds(s, id, k))
  {
  }

  /** No operation holds a reference its own document already claims. */
  lemma OwnersSplit(s: State, k: Key)
    requires OpsOk(s)
    ensures |Owners(s, k)| == |Claimants(s, k)| + |Holders(s, k)|
  {
    forall id ensures id in Claimants(s, k) ==> id !in Holders(s, k) {
      if id in s.ops { OneRole(s, id, k); }
    }
    assert Owners(s, k) == Claimants(s, k) + Holders(s, k);
  }

  lemma InitKeepsInv()
    ensures Inv(Init())
  {
    assert forall k: Key :: Owners(Init(), k) == {};
  }

  /** Whatever calls fail and however operations interleave, a count is never below the documents
      that claim the fingerprint plus the operations that hold a reference on it. */
  lemma NoUndercount(steps: seq<Step>, k: Key)
    requires Runs(Init(), steps) && Throughout(Quiet, Init(), steps)
    ensures var s := After(Init(), steps);
      |Claimants(s, k)| + |Holders(s, k)| + Count(s.leaked, k) == Count(s.refs, k)
  {
    InitKeepsInv();
    RunKeepsInv(Init(), steps);
    OwnersSplit(After(Init(), steps), k);
  }

  /** No decrement of a rollback or a release ever meets a count of zero. */
  lemma NeverUnderflows(s: State, step: Step)
    requires Inv(s) && Enabled(s, step) && (step.Undo? || step.Release?)
    ensures Count(s.refs, KeyOf(s.ops[step.id].next, step.fp)) > 0
  {
    assert step.id in Owners(s, KeyOf(s.ops[step.id].next, step.fp));
  }

  // ---------- exact counts, and groups that are there ----------

  /** Fingerprints whose group this operation still has to put on the ruler, or failed to. */
  function Unbuilt(op: Op): set<Fingerprint> {
    match op.phase
    case Building(fp, _, _) => {fp}
    case Undoing(_, unbuilt) => unbuilt
    case _ => {}
  }

  predicate Misses(s: State, id: Id, k: Key) {
    id in s.ops && k.fp in Unbuilt(s.ops[id]) && k == KeyOf(s.ops[id].next, k.fp)
  }

  /** Every call either takes effect or leaves nothing behind. */
  predicate Reliable(step: Step) {
    match step
    case Increment(_, _, outcome) => outcome != Lost
    case Undo(_, _, outcome) => outcome != Refused
    case Release(_, _, outcome) => outcome != Refused
    case DropDoc(_, outcome) => outcome != Lost
    case _ => true
  }

  /** A reference joins a group that is there, or one that no other operation still has to build. */
  ghost predicate JoinsBuilt(s: State, step: Step) {
    Counts(s, step) ==>
      var k := KeyOf(s.ops[step.id].next, step.fp);
      Group(k.ds, k.fp) in s.groups || forall other :: !Misses(s, other, k)
  }

  /** A reference on a group under collection comes after the group is gone, and through a counter
      that stays. */
  predicate Spares(s: State, step: Step) {
    Counts(s, step) && s.sweep.Sweeping? && s.sweep.group == Group(s.ops[step.id].next.ds, step.fp) ==>
      s.sweep.gone && s.ops[step.id].next.ws !in s.sweep.stale
  }

  ghost predicate Safe(s: State, step: Step) { Spares(s, step) && JoinsBuilt(s, step) }

  ghost predicate Careful(s: State, step: Step) { Reliable(step) && Safe(s, step) }

  /** Each referenced group is on the ruler or still has to be built by an operation. */
  ghost predicate Present(s: State) {
    forall k: Key :: Count(s.refs, k) > 0 && Group(k.ds, k.fp) !in s.groups ==>
      exists id :: Misses(s, id, k)
  }

  /** While a group is not there, the operation that has to build it is the only one that counts. */
  ghost predicate Sole(s: State) {
    forall id, k: Key :: Misses(s, id, k) ==>
      Holds(s, id, k) && (Group(k.ds, k.fp) !in s.groups ==> Count(s.refs, k) == 1)
  }

  /** A group about to be deleted is not counted by any workspace. */
  ghost predicate Spared(s: State) {
    s.sweep.Sweeping? && !s.sweep.gone ==>
      forall k: Key | k.ds == s.sweep.group.ds && k.fp == s.sweep.group.fp :: Count(s.refs, k) == 0
  }

  ghost predicate NoLeak(s: State) { forall k: Key :: Count(s.leaked, k) == 0 }

  ghost predicate Strong(s: State) { Inv(s) && NoLeak(s) && Present(s) && Sole(s) && Spared(s) }

  lemma ReliableKeepsNoLeak(s: State, step: Step)
    requires Enabled(s, step) && Reliable(step) && NoLeak(s)
    ensures NoLeak(Apply(s, step))
  {
  }

  predicate Touches(s: State, step: Step, k: Key) {
    && (step.Increment? || step.Undo? || step.Release?)
    && step.id in s.ops && k == KeyOf(s.ops[step.id].next, step.fp)
  }

  lemma CountFrame(s: State, step: Step, k: Key)
    requires SweepOk(s) && Enabled(s, step) && !Touches(s, step, k)
    ensures Count(Apply(s, step).refs, k) == Count(s.refs, k)
  {
    if !OfOperation(step) { CollectionFrame(s, step); }
  }

  /** Nobody else can touch the count of a key whose group is not there. */
  lemma NotTouched(s: State, step: Step, id: Id, k: Key)
    requires Strong(s) && Enabled(s, step) && Careful(s, step) && Misses(s, id, k)
    requires Group(k.ds, k.fp) !in s.groups && Touches(s, step, k)
    ensures step == Increment(step.id, step.fp, Refused) || step == Undo(id, k.fp, step.outcome)
  {
    assert Count(s.refs, k) == 1;
    if !step.Increment? {
      assert Holds(s, step.id, k) && Holds(s, id, k);
      if step.id != id {
        assert {id, step.id} <= Owners(s, k);
        AtLeastTwo(Owners(s, k), id, step.id);
      }
    }
  }

  lemma AtLeastTwo(ids: set<Id>, a: Id, b: Id)
    requires a != b && a in ids && b in ids
    ensures |ids| >= 2
  {
    assert |ids - {a}| == |ids| - 1 && b in ids - {a};
  }

  /** Steps of others leave what an operation holds and misses alone. */
  lemma OthersStay(s: State, step: Step, id: Id, k: Key)
    requires Strong(s) && Enabled(s, step) && (OfOperation(step) ==> StepId(step) != id)
    ensures var s' := Apply(s, step);
      (Misses(s', id, k) <==> Misses(s, id, k)) && (Holds(s', id, k) <==> Holds(s, id, k))
  {
    hide Enabled, Apply, OpOk, Moves;
    if OfOperation(step) { StepIsGood(s, step); } else { CollectorFrame(s, step); }
  }

  /** Only a first increment makes a group missing. */
  lemma StartsMissing(s: State, step: Step, id: Id, k: Key)
    requires Enabled(s, step) && OfOperation(step) && StepId(step) == id
    requires !Misses(s, id, k) && Misses(Apply(s, step), id, k)
    ensures Holds(Apply(s, step), id, k) && Count(Apply(s, step).refs, k) == 1
  {
    assert step.Increment? && step.outcome == Done && step.fp == k.fp;
  }

  /** A missing group stays missing until it is built, or its reference is undone. */
  lemma StopsMissing(s: State, step: Step, id: Id, k: Key)
    requires Enabled(s, step) && OfOperation(step) && StepId(step) == id
    requires Misses(s, id, k) && Holds(s, id, k)
    ensures var s' := Apply(s, step);
      if Misses(s', id, k) then Holds(s', id, k) && !Touches(s, step, k)
      else Group(k.ds, k.fp) in s'.groups || (step.Undo? && Touches(s, step, k))
  {
    assert step.Build? || step.Undo?;
  }

  lemma SoleStep(s: State, step: Step, id: Id, k: Key)
    requires Strong(s) && Enabled(s, step) && Careful(s, step) && Misses(Apply(s, step), id, k)
    ensures var s' := Apply(s, step);
      Holds(s', id, k) && (Group(k.ds, k.fp) !in s'.groups ==> Count(s'.refs, k) == 1)
  {
    hide Enabled, Apply;
    if Misses(s, id, k) {
      MissingStays(s, step, id, k);
    } else {
      if !OfOperation(step) || StepId(step) != id { OthersStay(s, step, id, k); }
      StartsMissing(s, step, id, k);
    }
  }

  lemma MissingStays(s: State, step: Step, id: Id, k: Key)
    requires Strong(s) && Enabled(s, step) && Careful(s, step) && Misses(s, id, k)
    ensures var s' := Apply(s, step);
      && (Misses(s', id, k) ==> Holds(s', id, k))
      && (Group(k.ds, k.fp) !in s'.groups ==> Count(s'.refs, k) == if Misses(s', id, k) then 1 else 0)
  {
    assert Holds(s, id, k);
    MissedIsCounted(s, id, k);
    if Group(k.ds, k.fp) in s.groups { GroupsStay(s, step, k); }
    else if Touches(s, step, k) { NotTouched(s, step, id, k); }
    hide Enabled, Apply, Inv, Careful;
    if !OfOperation(step) || StepId(step) != id {
      OthersStay(s, step, id, k);
    } else {
      StopsMissing(s, step, id, k);
    }
    if Group(k.ds, k.fp) !in s.groups {
      if Touches(s, step, k) {
        if step.Undo? { LastUndone(s, step, k); } else { RefusedCounts(s, step, k); }
      } else {
        SweepKept(s);
        CountFrame(s, step, k);
      }
    }
  }

  lemma MissedIsCounted(s: State, id: Id, k: Key)
    requires Strong(s) && Misses(s, id, k)
    ensures Count(s.refs, k) > 0
  {
    assert Holds(s, id, k) && id in Owners(s, k);
  }

  lemma RefusedCounts(s: State, step: Step, k: Key)
    requires Enabled(s, step) && step.Increment? && step.outcome == Refused
    ensures Count(Apply(s, step).refs, k) == Count(s.refs, k)
  {
  }

  lemma SweepKept(s: State)
    requires Strong(s)
    ensures SweepOk(s)
  {
  }

  lemma LastUndone(s: State, step: Step, k: Key)
    requires Enabled(s, step) && step.Undo? && Touches(s, step, k) && step.outcome != Refused
    requires Count(s.refs, k) == 1
    ensures Count(Apply(s, step).refs, k) == 0
  {
  }

  lemma FirstCounted(s: State, step: Step, k: Key)
    requires Enabled(s, step) && Touches(s, step, k) && Reliable(step) && Count(s.refs, k) == 0
    ensures Count(Apply(s, step).refs, k) > 0 ==> Misses(Apply(s, step), step.id, k)
  {
  }

  lemma GroupsStay(s: State, step: Step, k: Key)
    requires Spared(s) && Enabled(s, step) && Count(s.refs, k) > 0 && Group(k.ds, k.fp) in s.groups
    ensures Group(k.ds, k.fp) in Apply(s, step).groups
  {
  }

  lemma PresentStep(s: State, step: Step, k: Key)
    requires Strong(s) && Enabled(s, step) && Careful(s, step)
    requires Count(Apply(s, step).refs, k) > 0 && Group(k.ds, k.fp) !in Apply(s, step).groups
    ensures exists id :: Misses(Apply(s, step), id, k)
  {
    hide Enabled, Apply;
    if Count(s.refs, k) == 0 {
      if !Touches(s, step, k) { CountFrame(s, step, k); }
      FirstCounted(s, step, k);
    } else {
      if Group(k.ds, k.fp) in s.groups { GroupsStay(s, step, k); }
      var id :| Misses(s, id, k);
      MissingStays(s, step, id, k);
    }
  }

  lemma SparedStep(s: State, step: Step)
    requires Spared(s) && Enabled(s, step) && Spares(s, step)
    ensures Spared(Apply(s, step))
  {
    if step.SweepCheck? {
      forall k: Key | k.ds == step.group.ds && k.fp == step.group.fp ensures Count(s.refs, k) == 0 {}
    }
  }

  lemma SparesIsQuiet(s: State, step: Step)
    requires Spares(s, step)
    ensures Quiet(s, step)
  {
  }

  lemma StrongStep(s: State, step: Step)
    requires Strong(s) && Enabled(s, step) && Careful(s, step)
    ensures Strong(Apply(s, step))
  {
    var s' := Apply(s, step);
    hide Enabled, Apply, Inv, Spares, Quiet;
    SparesIsQuiet(s, step);
    StepKeepsInv(s, step);
    SparedStep(s, step);
    ReliableKeepsNoLeak(s, step);
    forall id, k: Key | Misses(s', id, k)
      ensures Holds(s', id, k) && (Group(k.ds, k.fp) !in s'.groups ==> Count(s'.refs, k) == 1)
    {
      SoleStep(s, step, id, k);
    }
    forall k: Key | Count(s'.refs, k) > 0 && Group(k.ds, k.fp) !in s'.groups
      ensures exists id :: Misses(s', id, k)
    {
      PresentStep(s, step, k);
    }
  }

  lemma {:induction false} CarefulRun(s: State, steps: seq<Step>)
    requires Strong(s) && Runs(s, steps) && Throughout(Careful, s, steps)
    ensures Strong(After(s, steps))
    decreases |steps|
  {
    hide Strong, Apply, Enabled, Careful;
    if steps != [] {
      StrongStep(s, steps[0]);
      CarefulRun(Apply(s, steps[0]), steps[1..]);
    }
  }
}
