/** What every step of the protocol keeps, and what follows for whole runs. */
module DedupSafety {
  import opened DedupProtocol

  // ---------- one operation at a time ----------

  predicate OfOperation(step: Step) {
    !(step.SweepCheck? || step.SweepGroup? || step.SweepRef? || step.SweepEnd?)
  }

  function StepId(step: Step): Id
    requires OfOperation(step)
  {
    step.id
  }

  /** Only what belongs to `id` changed. */
  ghost predicate Local(s: State, s': State, id: Id) {
    && (forall j | j != id :: (j in s.docs <==> j in s'.docs) && (j in s.docs ==> s.docs[j] == s'.docs[j]))
    && (forall j | j != id :: (j in s.ops <==> j in s'.ops) && (j in s.ops ==> s.ops[j] == s'.ops[j]))
    && (forall a: Alert | a.id != id :: a in s.alerts <==> a in s'.alerts)
    && (forall j | j != id :: j in s.torn <==> j in s'.torn)
    && s.sweep == s'.sweep
  }

  /** What a step of operation `id` has to show: it is local, it leaves the operation in order, and
      every count moves with the ownership of `id` and with what leaks. */
  ghost predicate Good(s: State, s': State, id: Id) {
    && Local(s, s', id)
    && (id in s'.ops ==> OpOk(s', id))
    && (AlertOk(s, id) ==> AlertOk(s', id))
    && forall k: Key :: Moves(s, s', id, k)
  }

  predicate Moves(s: State, s': State, id: Id, k: Key) {
    (Owns(s, id, k) ==> Count(s.refs, k) > 0) ==>
      Count(s'.refs, k) + (if Owns(s, id, k) then 1 else 0) + Count(s.leaked, k)
        == Count(s.refs, k) + (if Owns(s', id, k) then 1 else 0) + Count(s'.leaked, k)
  }

  lemma StartCreateGood(s: State, id: Id, doc: Doc)
    requires Enabled(s, StartCreate(id, doc)) && (id in s.ops ==> OpOk(s, id))
    ensures Good(s, Apply(s, StartCreate(id, doc)), id)
  {
  }

  lemma StartUpdateGood(s: State, id: Id, slug: string, fps: set<Fingerprint>)
    requires Enabled(s, StartUpdate(id, slug, fps)) && (id in s.ops ==> OpOk(s, id))
    ensures Good(s, Apply(s, StartUpdate(id, slug, fps)), id)
  {
  }

  lemma StartDeleteGood(s: State, id: Id)
    requires Enabled(s, StartDelete(id)) && (id in s.ops ==> OpOk(s, id))
    ensures Good(s, Apply(s, StartDelete(id)), id)
  {
  }

  /** Taking one reference on a key nobody counts for `id` yet. */
  lemma Takes(s: State, id: Id, fp: Fingerprint, phase: Phase)
    requires id in s.ops && !Owns(s, id, KeyOf(s.ops[id].next, fp))
    requires Owned(s.ops[id].(phase := phase)) == Owned(s.ops[id]) + {fp}
    ensures var s' := To(Counted(s, KeyOf(s.ops[id].next, fp)), id, phase);
      Local(s, s', id) && forall k: Key :: Moves(s, s', id, k)
  {
  }

  /** A refused increment changes nothing but the phase; a lost one leaks what it took. */
  lemma TakesNothing(s: State, id: Id, fp: Fingerprint, phase: Phase, lost: bool)
    requires id in s.ops && Owned(s.ops[id].(phase := phase)) == Owned(s.ops[id])
    ensures var k := KeyOf(s.ops[id].next, fp);
      var s' := To(if lost then Leak(Counted(s, k), k) else s, id, phase);
      Local(s, s', id) && forall k: Key :: Moves(s, s', id, k)
  {
  }

  lemma IncrementGood(s: State, id: Id, fp: Fingerprint, outcome: Outcome)
    requires Enabled(s, Increment(id, fp, outcome)) && (id in s.ops ==> OpOk(s, id))
    ensures Good(s, Apply(s, Increment(id, fp, outcome)), id)
  {
    hide Local, Moves;
    var p := s.ops[id].phase;
    if outcome == Done {
      Takes(s, id, fp,
        if Count(s.refs, KeyOf(s.ops[id].next, fp)) == 0 then Building(fp, p.todo - {fp}, p.held + {fp})
        else Adding(p.todo - {fp}, p.held + {fp}));
    } else {
      TakesNothing(s, id, fp, Undoing(p.held, {}), outcome == Lost);
    }
  }

  lemma BuildGood(s: State, id: Id, outcome: Outcome)
    requires Enabled(s, Build(id, outcome)) && (id in s.ops ==> OpOk(s, id))
    ensures Good(s, Apply(s, Build(id, outcome)), id)
  {
  }

  lemma PutAlertGood(s: State, id: Id, outcome: Outcome)
    requires Enabled(s, PutAlert(id, outcome)) && (id in s.ops ==> OpOk(s, id))
    ensures Good(s, Apply(s, PutAlert(id, outcome)), id)
  {
  }

  lemma SaveGood(s: State, id: Id, saved: bool)
    requires Enabled(s, Save(id, saved)) && (id in s.ops ==> OpOk(s, id))
    ensures Good(s, Apply(s, Save(id, saved)), id)
  {
  }

  /** Giving up one reference: it is decremented, or it leaks. */
  lemma Gives(s: State, id: Id, fp: Fingerprint, outcome: Outcome, phase: Phase)
    requires id in s.ops && fp in Owned(s.ops[id]) && !Claims(s, id, KeyOf(s.ops[id].next, fp))
    requires Owned(s.ops[id].(phase := phase)) == Owned(s.ops[id]) - {fp}
    ensures var s' := To(Decremented(s, KeyOf(s.ops[id].next, fp), outcome), id, phase);
      Local(s, s', id) && forall k: Key :: Moves(s, s', id, k)
  {
  }

  lemma UndoGood(s: State, id: Id, fp: Fingerprint, outcome: Outcome)
    requires Enabled(s, Undo(id, fp, outcome)) && (id in s.ops ==> OpOk(s, id))
    ensures Good(s, Apply(s, Undo(id, fp, outcome)), id)
  {
    hide Local, Moves;
    var p := s.ops[id].phase;
    Gives(s, id, fp, outcome, Undoing(p.held - {fp}, p.unbuilt - {fp}));
  }

  lemma UndoAlertGood(s: State, id: Id, outcome: Outcome)
    requires Enabled(s, UndoAlert(id, outcome)) && (id in s.ops ==> OpOk(s, id))
    ensures Good(s, Apply(s, UndoAlert(id, outcome)), id)
  {
  }

  lemma DropAlertGood(s: State, id: Id, outcome: Outcome)
    requires Enabled(s, DropAlert(id, outcome)) && (id in s.ops ==> OpOk(s, id))
    ensures Good(s, Apply(s, DropAlert(id, outcome)), id)
  {
  }

  lemma DropDocGood(s: State, id: Id, outcome: Outcome)
    requires Enabled(s, DropDoc(id, outcome)) && (id in s.ops ==> OpOk(s, id))
    ensures Good(s, Apply(s, DropDoc(id, outcome)), id)
  {
  }

  lemma ReleaseGood(s: State, id: Id, fp: Fingerprint, outcome: Outcome)
    requires Enabled(s, Release(id, fp, outcome)) && (id in s.ops ==> OpOk(s, id))
    ensures Good(s, Apply(s, Release(id, fp, outcome)), id)
  {
    hide Local, Moves;
    Gives(s, id, fp, outcome, Releasing(s.ops[id].phase.todo - {fp}));
  }

  lemma FinishGood(s: State, id: Id)
    requires Enabled(s, Finish(id)) && (id in s.ops ==> OpOk(s, id))
    ensures Good(s, Apply(s, Finish(id)), id)
  {
  }

  lemma StepIsGood(s: State, step: Step)
    requires Enabled(s, step) && OfOperation(step)
    requires StepId(step) in s.ops ==> OpOk(s, StepId(step))
    ensures Good(s, Apply(s, step), StepId(step))
  {
    hide Enabled, Apply, OpOk, Good;
    match step
    case StartCreate(id, doc) => StartCreateGood(s, id, doc);
    case StartUpdate(id, slug, fps) => StartUpdateGood(s, id, slug, fps);
    case StartDelete(id) => StartDeleteGood(s, id);
    case Increment(id, fp, outcome) => IncrementGood(s, id, fp, outcome);
    case Build(id, outcome) => BuildGood(s, id, outcome);
    case PutAlert(id, outcome) => PutAlertGood(s, id, outcome);
    case Save(id, saved) => SaveGood(s, id, saved);
    case Undo(id, fp, outcome) => UndoGood(s, id, fp, outcome);
    case UndoAlert(id, outcome) => UndoAlertGood(s, id, outcome);
    case DropAlert(id, outcome) => DropAlertGood(s, id, outcome);
    case DropDoc(id, outcome) => DropDocGood(s, id, outcome);
    case Release(id, fp, outcome) => ReleaseGood(s, id, fp, outcome);
    case Finish(id) => FinishGood(s, id);
  }

  lemma OpOkLocal(s: State, s': State, id: Id, j: Id)
    requires Local(s, s', id) && j != id && j in s.ops && OpOk(s, j)
    ensures OpOk(s', j)
  {
  }

  lemma OpsOkStep(s: State, step: Step)
    requires OpsOk(s) && Enabled(s, step) && OfOperation(step)
    ensures OpsOk(Apply(s, step))
  {
    var s' := Apply(s, step);
    hide Enabled, Apply;
    StepIsGood(s, step);
    forall j | j in s'.ops && j != StepId(step) ensures OpOk(s', j) {
      OpOkLocal(s, s', StepId(step), j);
    }
  }

  lemma AlertsOkStep(s: State, step: Step)
    requires OpsOk(s) && AlertsOk(s) && Enabled(s, step) && OfOperation(step)
    ensures AlertsOk(Apply(s, step))
  {
    hide Enabled, Apply, OpOk;
    StepIsGood(s, step);
    assert AlertOk(s, StepId(step));
    forall id | id in Apply(s, step).docs ensures AlertOk(Apply(s, step), id) {
      assert id != StepId(step) ==> AlertOk(s, id);
    }
  }

  /** The collector touches no document, no operation and no alert group. */
  lemma CollectorFrame(s: State, step: Step)
    requires Enabled(s, step) && !OfOperation(step)
    ensures var s' := Apply(s, step);
      && s'.docs == s.docs && s'.ops == s.ops && s'.alerts == s.alerts && s'.torn == s.torn
      && s'.leaked == s.leaked
  {
  }

  /** Operations stay in order, and alert groups where documents need them, whatever the collector
      does. */
  lemma OrderStep(s: State, step: Step)
    requires OpsOk(s) && AlertsOk(s) && Enabled(s, step)
    ensures OpsOk(Apply(s, step)) && AlertsOk(Apply(s, step))
  {
    hide Enabled, Apply;
    if OfOperation(step) {
      OpsOkStep(s, step);
      AlertsOkStep(s, step);
    } else {
      CollectorFrame(s, step);
      assert forall id | id in s.ops :: OpOk(s, id) ==> OpOk(Apply(s, step), id);
      assert forall id | id in s.docs :: AlertOk(s, id) ==> AlertOk(Apply(s, step), id);
    }
  }

  // ---------- counting owners ----------

  lemma OwnersMove(s: State, s': State, id: Id, k: Key)
    requires Local(s, s', id)
    ensures |Owners(s', k)| + (if Owns(s, id, k) then 1 else 0)
         == |Owners(s, k)| + (if Owns(s', id, k) then 1 else 0)
  {
    forall j | j != id ensures j in Owners(s, k) <==> j in Owners(s', k) {}
    assert Owners(s, k) - {id} == Owners(s', k) - {id};
    assert |Owners(s, k)| == |Owners(s, k) - {id}| + (if Owns(s, id, k) then 1 else 0);
    assert |Owners(s', k)| == |Owners(s', k) - {id}| + (if Owns(s', id, k) then 1 else 0);
  }

  lemma BalancedStep(s: State, step: Step)
    requires OpsOk(s) && Balanced(s) && Enabled(s, step) && OfOperation(step)
    ensures Balanced(Apply(s, step))
  {
    var (s', id) := (Apply(s, step), StepId(step));
    hide Enabled, Apply;
    StepIsGood(s, step);
    forall k: Key ensures Count(s'.refs, k) == |Owners(s', k)| + Count(s'.leaked, k) {
      OwnersMove(s, s', id, k);
      if Owns(s, id, k) { assert id in Owners(s, k); }
      assert Moves(s, s', id, k);
    }
  }

  lemma SweepOkStep(s: State, step: Step)
    requires SweepOk(s) && Enabled(s, step) && OfOperation(step) && Quiet(s, step)
    ensures SweepOk(Apply(s, step))
  {
  }

  /** A collector that removes only zero counters changes no count. */
  lemma CollectionFrame(s: State, step: Step)
    requires SweepOk(s) && Enabled(s, step) && !OfOperation(step)
    ensures var s' := Apply(s, step);
      SweepOk(s') && forall k: Key :: Count(s'.refs, k) == Count(s.refs, k)
  {
  }

  lemma CollectionStep(s: State, step: Step)
    requires Inv(s) && Enabled(s, step) && !OfOperation(step)
    ensures Inv(Apply(s, step))
  {
    var s' := Apply(s, step);
    OrderStep(s, step);
    CollectorFrame(s, step);
    CollectionFrame(s, step);
    hide Enabled, Apply, OpsOk, AlertsOk;
    forall k: Key ensures Count(s'.refs, k) == |Owners(s', k)| + Count(s'.leaked, k) {
      assert Owners(s', k) == Owners(s, k);
    }
  }

  /** Each step keeps the invariant, whatever fails. */
  lemma StepKeepsInv(s: State, step: Step)
    requires Inv(s) && Enabled(s, step) && Quiet(s, step)
    ensures Inv(Apply(s, step))
  {
    if OfOperation(step) {
      OpsOkStep(s, step);
      AlertsOkStep(s, step);
      BalancedStep(s, step);
      SweepOkStep(s, step);
    } else {
      CollectionStep(s, step);
    }
  }
}
