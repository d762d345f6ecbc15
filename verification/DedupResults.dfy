/** The results about sharing recording groups, and the interleavings that break them. */
module DedupResults {
  import opened DedupProtocol
  import opened DedupSafety
  import opened DedupRuns

  lemma InitStrong()
    ensures Strong(Init())
  {
    InitKeepsInv();
  }

  /** In every careful run a referenced group is on the ruler, or the one operation that references
      it still has to build it; and each count is exactly its owners. */
  lemma CarefulRunsShare(steps: seq<Step>, k: Key)
    requires Runs(Init(), steps) && Throughout(Careful, Init(), steps)
    ensures var s := After(Init(), steps);
      && Count(s.refs, k) == |Claimants(s, k)| + |Holders(s, k)|
      && (Count(s.refs, k) > 0 ==>
            Group(k.ds, k.fp) in s.groups || exists id: Id :: Misses(s, id, k) && Owners(s, k) == {id})
  {
    InitStrong();
    CarefulRun(Init(), steps);
    var s := After(Init(), steps);
    OwnersSplit(s, k);
    if Count(s.refs, k) > 0 && Group(k.ds, k.fp) !in s.groups {
      var id :| Misses(s, id, k);
      OnlyOwner(s, id, k);
    }
  }

  lemma OnlyOwner(s: State, id: Id, k: Key)
    requires Strong(s) && Misses(s, id, k) && Group(k.ds, k.fp) !in s.groups
    ensures Owners(s, k) == {id}
  {
    assert Holds(s, id, k) && |Owners(s, k)| == 1;
    forall j | j in Owners(s, k) ensures j == id {
      if j != id { AtLeastTwo(Owners(s, k), j, id); }
    }
  }

  lemma {:induction false} RunKeepsOrder(s: State, steps: seq<Step>)
    requires OpsOk(s) && AlertsOk(s) && Runs(s, steps)
    ensures OpsOk(After(s, steps)) && AlertsOk(After(s, steps))
    decreases |steps|
  {
    hide OpsOk, AlertsOk, Apply, Enabled;
    if steps != [] {
      OrderStep(s, steps[0]);
      RunKeepsOrder(Apply(s, steps[0]), steps[1..]);
    }
  }

  /** In every run a saved document's alert group is on the ruler, unless a delete took it and then
      stopped. */
  lemma AlertGroupsStay(steps: seq<Step>, id: Id)
    requires Runs(Init(), steps)
    requires id in After(Init(), steps).docs && id !in After(Init(), steps).torn
    ensures Alert(id, After(Init(), steps).docs[id].slug) in After(Init(), steps).alerts
  {
    RunKeepsOrder(Init(), steps);
    assert AlertOk(After(Init(), steps), id);
  }

  // ---------- whole operations ----------

  /** No two operations overlap, and the collector runs between them. */
  predicate Serial(s: State, step: Step) {
    if OfOperation(step) then s.ops.Keys <= {StepId(step)} && s.sweep.Idle? else s.ops == map[]
  }

  /** And no call half-succeeds. */
  predicate OneAtATime(s: State, step: Step) { Reliable(step) && Serial(s, step) }

  lemma OneAtATimeIsCareful(s: State, step: Step)
    requires Enabled(s, step) && OneAtATime(s, step)
    ensures Careful(s, step)
  {
    if step.Increment? {
      forall other ensures !Misses(s, other, KeyOf(s.ops[step.id].next, step.fp)) {
        assert other in s.ops ==> other == step.id;
      }
    }
  }

  lemma {:induction false} WholeIsCareful(s: State, steps: seq<Step>)
    requires Runs(s, steps) && Throughout(OneAtATime, s, steps)
    ensures Throughout(Careful, s, steps)
    decreases |steps|
  {
    hide Apply, Enabled, Careful, OneAtATime;
    if steps != [] {
      OneAtATimeIsCareful(s, steps[0]);
      WholeIsCareful(Apply(s, steps[0]), steps[1..]);
    }
  }

  /** Between whole operations every fingerprint that any workspace references has its group on
      the ruler, and each count is the number of documents that claim the fingerprint. */
  lemma WholeOperations(steps: seq<Step>)
    requires Runs(Init(), steps) && Throughout(OneAtATime, Init(), steps)
    requires After(Init(), steps).ops == map[]
    ensures var s := After(Init(), steps);
      forall k: Key :: Count(s.refs, k) == |Claimants(s, k)|
                       && (Count(s.refs, k) > 0 ==> Group(k.ds, k.fp) in s.groups)
  {
    WholeIsCareful(Init(), steps);
    var s := After(Init(), steps);
    forall k: Key ensures Count(s.refs, k) == |Claimants(s, k)|
      && (Count(s.refs, k) > 0 ==> Group(k.ds, k.fp) in s.groups)
    {
      CarefulRunsShare(steps, k);
      assert Holders(s, k) == {};
    }
  }

  /** What the detail page shows: the count less one is the number of other SLOs. */
  lemma Sharers(s: State, id: Id, k: Key)
    requires Count(s.refs, k) == |Claimants(s, k)| && Claims(s, id, k)
    ensures Count(s.refs, k) - 1 == |set j | j in s.docs && Claims(s, j, k) && j != id|
  {
    assert (set j | j in s.docs && Claims(s, j, k) && j != id) == Claimants(s, k) - {id};
  }

  // ---------- where a run can lead ----------

  ghost predicate Leads(p: (State, Step) -> bool, s: State, s': State) {
    exists steps :: Runs(s, steps) && Throughout(p, s, steps) && After(s, steps) == s'
  }

  lemma LeadsNowhere(p: (State, Step) -> bool, s: State)
    ensures Leads(p, s, s)
  {
    assert Runs(s, []) && Throughout(p, s, []) && After(s, []) == s;
  }

  lemma LeadsOn(p: (State, Step) -> bool, s: State, m: State, step: Step)
    requires Leads(p, s, m) && Enabled(m, step) && p(m, step)
    ensures Leads(p, s, Apply(m, step))
  {
    hide Enabled, Apply;
    var steps :| Runs(s, steps) && Throughout(p, s, steps) && After(s, steps) == m;
    Extend(p, s, steps, step);
    assert After(s, steps + [step]) == Apply(m, step);
  }

  // ---------- exactly when a count can be lost ----------

  predicate ByCollector(s: State, step: Step) { !OfOperation(step) }

  /** The collector alone can bring a count out of balance with its owners and what leaked. */
  ghost predicate CanLoseCount(s: State) { exists s' :: Leads(ByCollector, s, s') && !Balanced(s') }

  lemma {:induction false} CollectorRun(s: State, steps: seq<Step>)
    requires Inv(s) && Runs(s, steps) && Throughout(ByCollector, s, steps)
    ensures Inv(After(s, steps))
    decreases |steps|
  {
    hide Inv, Apply, Enabled;
    if steps != [] {
      CollectionStep(s, steps[0]);
      CollectorRun(Apply(s, steps[0]), steps[1..]);
    }
  }

  /** The reference is counted, and the pass under way is the same. */
  lemma UnquietCounts(s: State, step: Step)
    requires Inv(s) && Enabled(s, step) && !Quiet(s, step)
    ensures Counts(s, step)
    ensures var (s', k) := (Apply(s, step), KeyOf(s.ops[step.id].next, step.fp));
      && s'.sweep == s.sweep && Count(s'.refs, k) == 1 && k.ws in s.sweep.stale
      && s.sweep.group == Group(k.ds, k.fp)
      && (step.outcome == Done ==> Holds(s', step.id, k))
  {
  }

  /** Where the collector has removed the counter of workspace `ws`. */
  function Collected(s: State, ws: Workspace): State
    requires s.sweep.Sweeping? && ws in s.sweep.stale
  {
    Apply(if s.sweep.gone then s else Apply(s, SweepGroup(Done)), SweepRef(ws, Done))
  }

  lemma CollectedIs(s: State, ws: Workspace)
    requires s.sweep.Sweeping? && ws in s.sweep.stale
    ensures Leads(ByCollector, s, Collected(s, ws))
    ensures var (s', g) := (Collected(s, ws), s.sweep.group);
      s'.refs == s.refs - {Key(ws, g.ds, g.fp)} && s'.ops == s.ops && s'.docs == s.docs && s'.leaked == s.leaked
  {
    LeadsNowhere(ByCollector, s);
    if !s.sweep.gone { LeadsOn(ByCollector, s, s, SweepGroup(Done)); }
    LeadsOn(ByCollector, s, if s.sweep.gone then s else Apply(s, SweepGroup(Done)), SweepRef(ws, Done));
  }

  lemma UncountedOwners(s: State, s': State, k: Key)
    requires Balanced(s) && Count(s.refs, k) > 0 && Count(s'.refs, k) == 0
    requires s'.ops == s.ops && s'.docs == s.docs && s'.leaked == s.leaked
    ensures !Balanced(s')
  {
    assert Owners(s', k) == Owners(s, k);
  }

  /** A reference taken through a counter under collection, before or after the group is deleted, is
      lost when the counter is removed: the count is zero while the operation holds its reference. */
  lemma CollectedUnderHolder(s: State, step: Step)
    requires Inv(s) && Enabled(s, step) && !Quiet(s, step)
    ensures var (k, s') := (KeyOf(s.ops[step.id].next, step.fp), Collected(Apply(s, step), s.ops[step.id].next.ws));
      && Leads(ByCollector, Apply(s, step), s')
      && Count(s'.refs, k) == 0 && !Balanced(s') && (step.outcome == Done ==> Holds(s', step.id, k))
  {
    var (s1, k) := (Apply(s, step), KeyOf(s.ops[step.id].next, step.fp));
    UnquietCounts(s, step);
    BalancedStep(s, step);
    hide Enabled, Apply, Collected, Balanced, Inv;
    CollectedIs(s1, k.ws);
    UncountedOwners(s1, Collected(s1, k.ws), k);
  }

  /** A step can lead to a lost count exactly when it takes a reference through a counter that the
      collection pass under way is about to remove. */
  lemma QuietIsExact(s: State, step: Step)
    requires Inv(s) && Enabled(s, step)
    ensures Quiet(s, step) <==> !CanLoseCount(Apply(s, step))
  {
    hide Enabled, Apply, Inv, Quiet, Collected, Balanced;
    if Quiet(s, step) {
      StepKeepsInv(s, step);
      forall s' | Leads(ByCollector, Apply(s, step), s') ensures Balanced(s') {
        var steps :| Runs(Apply(s, step), steps) && Throughout(ByCollector, Apply(s, step), steps)
          && After(Apply(s, step), steps) == s';
        CollectorRun(Apply(s, step), steps);
        InvBalances(s');
      }
    } else {
      CollectedUnderHolder(s, step);
    }
  }

  lemma InvBalances(s: State)
    requires Inv(s)
    ensures Balanced(s)
  {
  }

  // ---------- exactly when a group can go missing ----------

  predicate NoneJoins(s: State, step: Step) { Reliable(step) && !step.Increment? }

  /** Some count is off, or a counted group is not on the ruler and nobody is to build it. */
  ghost predicate Wrong(s: State, k: Key) {
    || Count(s.refs, k) != |Owners(s, k)|
    || (Count(s.refs, k) > 0 && Group(k.ds, k.fp) !in s.groups && forall id :: !Misses(s, id, k))
  }

  /** Things can go wrong although no call half-succeeds and no further reference is taken. */
  ghost predicate CanGoWrong(s: State) { exists s', k :: Leads(NoneJoins, s, s') && Wrong(s', k) }

  lemma {:induction false} JoinlessRun(s: State, steps: seq<Step>)
    requires Strong(s) && Runs(s, steps) && Throughout(NoneJoins, s, steps)
    ensures Strong(After(s, steps))
    decreases |steps|
  {
    hide Strong, Apply, Enabled;
    if steps != [] {
      StrongStep(s, steps[0]);
      JoinlessRun(Apply(s, steps[0]), steps[1..]);
    }
  }

  lemma StrongIsRight(s: State, k: Key)
    requires Strong(s)
    ensures !Wrong(s, k)
  {
  }

  lemma {:induction false} CollectorJoinsNothing(s: State, steps: seq<Step>)
    requires Runs(s, steps) && Throughout(ByCollector, s, steps)
    ensures Throughout(NoneJoins, s, steps)
    decreases |steps|
  {
    hide Apply, Enabled;
    if steps != [] { CollectorJoinsNothing(Apply(s, steps[0]), steps[1..]); }
  }

  /** The counter is removed under its holder. */
  lemma UnquietGoesWrong(s: State, step: Step)
    requires Strong(s) && Enabled(s, step) && Reliable(step) && !Quiet(s, step)
    ensures CanGoWrong(Apply(s, step))
  {
    UnquietCounts(s, step);
    assert step.outcome == Done;
    hide Enabled, Apply, Inv, Collected, Balanced, Owners, Holds, Quiet;
    var (k, s') := (KeyOf(s.ops[step.id].next, step.fp), Collected(Apply(s, step), s.ops[step.id].next.ws));
    CollectedUnderHolder(s, step);
    HeldIsOwned(s', step.id, k);
    var steps :| Runs(Apply(s, step), steps) && Throughout(ByCollector, Apply(s, step), steps)
      && After(Apply(s, step), steps) == s';
    CollectorJoinsNothing(Apply(s, step), steps);
    assert Leads(NoneJoins, Apply(s, step), s') && Wrong(s', k);
  }

  lemma HeldIsOwned(s: State, id: Id, k: Key)
    requires Holds(s, id, k)
    ensures |Owners(s, k)| > 0
  {
    assert id in Owners(s, k);
  }

  /** The group is built between the zero check and its deletion, and deleted under its holder. */
  lemma DeletedUnderHolder(s: State, step: Step)
    requires Strong(s) && Enabled(s, step) && Reliable(step) && Quiet(s, step) && !Spares(s, step)
    ensures CanGoWrong(Apply(s, step))
  {
    var (id, k) := (step.id, KeyOf(s.ops[step.id].next, step.fp));
    assert Count(s.refs, k) == 0;
    forall other ensures !Misses(s, other, k) {
      if Misses(s, other, k) { MissedIsCounted(s, other, k); }
    }
    var s1 := Apply(s, step);
    forall other | other != id ensures !Misses(s1, other, k) { assert !Misses(s, other, k); }
    CountedThenDeleted(s1, id, k);
  }

  lemma CountedThenDeleted(s: State, id: Id, k: Key)
    requires id in s.ops && s.ops[id].phase.Building? && Misses(s, id, k) && Count(s.refs, k) > 0
    requires s.sweep.Sweeping? && !s.sweep.gone && s.sweep.group == Group(k.ds, k.fp)
    requires forall other | other != id :: !Misses(s, other, k)
    ensures CanGoWrong(s)
  {
    LeadsNowhere(NoneJoins, s);
    LeadsOn(NoneJoins, s, s, Build(id, Done));
    var s2 := Apply(s, Build(id, Done));
    LeadsOn(NoneJoins, s, s2, SweepGroup(Done));
    var s3 := Apply(s2, SweepGroup(Done));
    forall other ensures !Misses(s3, other, k) {
      assert other != id ==> !Misses(s, other, k);
    }
    assert Wrong(s3, k);
  }

  ghost predicate BothHold(s: State, a: Id, b: Id, k: Key) {
    && a != b && Holds(s, a, k) && Holds(s, b, k) && Misses(s, a, k)
    && (forall id | id != a :: !Misses(s, id, k))
    && Count(s.refs, k) == 2 && Group(k.ds, k.fp) !in s.groups
  }

  lemma MissesAlone(s: State, a: Id, k: Key)
    requires Strong(s) && Misses(s, a, k) && Group(k.ds, k.fp) !in s.groups
    ensures forall id | id != a :: !Misses(s, id, k)
  {
    OnlyOwner(s, a, k);
    forall id | id != a ensures !Misses(s, id, k) {
      if Misses(s, id, k) { OnlyOwner(s, id, k); }
    }
  }

  lemma PeerJoins(s: State, a: Id, b: Id, k: Key)
    requires Strong(s) && Misses(s, a, k) && Group(k.ds, k.fp) !in s.groups
    requires Enabled(s, Increment(b, k.fp, Done)) && k == KeyOf(s.ops[b].next, k.fp)
    ensures BothHold(Apply(s, Increment(b, k.fp, Done)), a, b, k)
    ensures var s' := Apply(s, Increment(b, k.fp, Done)); a in s'.ops && s'.ops[a] == s.ops[a]
  {
    hide Inv;
    assert Holds(s, a, k) && Count(s.refs, k) == 1;
    var s1 := Apply(s, Increment(b, k.fp, Done));
    MissesAlone(s, a, k);
    assert Misses(s1, a, k) && Holds(s1, b, k) && Holds(s1, a, k);
    forall id | id != a ensures !Misses(s1, id, k) {
      assert !Misses(s, id, k);
    }
  }

  lemma BuildRefused(s: State, a: Id, b: Id, k: Key)
    requires a in s.ops && s.ops[a].phase.Building? && BothHold(s, a, b, k)
    ensures Enabled(s, Build(a, Refused))
    ensures BothHold(Apply(s, Build(a, Refused)), a, b, k)
    ensures var s' := Apply(s, Build(a, Refused)); a in s'.ops && s'.ops[a].phase.Undoing?
  {
    var s' := Apply(s, Build(a, Refused));
    forall id | id != a ensures Misses(s', id, k) == Misses(s, id, k) {}
  }

  lemma LastOneOut(s: State, a: Id, b: Id, k: Key)
    requires BothHold(s, a, b, k) && s.ops[a].phase.Undoing?
    ensures Enabled(s, Undo(a, k.fp, Done))
    ensures LeftBehind(Apply(s, Undo(a, k.fp, Done)), b, k)
  {
    var s' := Apply(s, Undo(a, k.fp, Done));
    forall id ensures !Misses(s', id, k) {
      if id != a { assert !Misses(s, id, k); }
    }
  }

  /** The one reference is on a group that is not there and that nobody is to build. */
  ghost predicate LeftBehind(s: State, b: Id, k: Key) {
    && Count(s.refs, k) == 1 && Holds(s, b, k)
    && Group(k.ds, k.fp) !in s.groups && forall id :: !Misses(s, id, k)
  }

  /** A peer that takes its reference while an operation still misses the group skips building; when
      the build fails, or has failed, and its reference is undone, the peer is left with a reference
      on a group that nobody builds. */
  lemma PeerLeftBehind(s: State, a: Id, b: Id, k: Key)
    requires Strong(s) && Misses(s, a, k) && Group(k.ds, k.fp) !in s.groups
    requires Enabled(s, Increment(b, k.fp, Done)) && k == KeyOf(s.ops[b].next, k.fp)
    ensures exists s' :: Leads(NoneJoins, Apply(s, Increment(b, k.fp, Done)), s') && LeftBehind(s', b, k)
  {
    hide Enabled, Apply, Inv, BothHold;
    var s1 := Apply(s, Increment(b, k.fp, Done));
    PeerJoins(s, a, b, k);
    LeadsNowhere(NoneJoins, s1);
    var s2 := s1;
    if s.ops[a].phase.Building? {
      BuildRefused(s1, a, b, k);
      LeadsOn(NoneJoins, s1, s1, Build(a, Refused));
      s2 := Apply(s1, Build(a, Refused));
    }
    LastOneOut(s2, a, b, k);
    LeadsOn(NoneJoins, s1, s2, Undo(a, k.fp, Done));
  }

  lemma JoinGoesWrong(s: State, step: Step)
    requires Strong(s) && Enabled(s, step) && Reliable(step) && !JoinsBuilt(s, step)
    ensures CanGoWrong(Apply(s, step))
  {
    hide Enabled, Apply, Inv, Leads, Owners;
    var k := KeyOf(s.ops[step.id].next, step.fp);
    var a :| Misses(s, a, k);
    assert step == Increment(step.id, k.fp, Done);
    PeerLeftBehind(s, a, step.id, k);
    var s' :| Leads(NoneJoins, Apply(s, step), s') && LeftBehind(s', step.id, k);
    assert Wrong(s', k);
  }

  /** A reliable step can lead to a wrong count or a missing group exactly when it takes a reference
      on a group that another operation misses and that is not on the ruler, or on a group under
      collection before it is deleted or through a counter that will be removed. */
  lemma SafeIsExact(s: State, step: Step)
    requires Strong(s) && Enabled(s, step) && Reliable(step)
    ensures Safe(s, step) <==> !CanGoWrong(Apply(s, step))
  {
    hide Enabled, Apply, Strong, Spares, JoinsBuilt, Quiet, Wrong;
    if Safe(s, step) {
      StrongStep(s, step);
      forall s', k | Leads(NoneJoins, Apply(s, step), s') ensures !Wrong(s', k) {
        var steps :| Runs(Apply(s, step), steps) && Throughout(NoneJoins, Apply(s, step), steps)
          && After(Apply(s, step), steps) == s';
        JoinlessRun(Apply(s, step), steps);
        StrongIsRight(s', k);
      }
    } else if !JoinsBuilt(s, step) {
      JoinGoesWrong(s, step);
    } else if Quiet(s, step) {
      DeletedUnderHolder(s, step);
    } else {
      UnquietGoesWrong(s, step);
    }
  }

  // ---------- such states are reached ----------

  ghost predicate Reachable(s: State) { Leads(Careful, Init(), s) }

  lemma ReachableStep(s: State, step: Step, s': State)
    requires Reachable(s) && Strong(s) && Enabled(s, step) && Careful(s, step) && Apply(s, step) == s'
    ensures Reachable(s') && Strong(s')
  {
    hide Enabled, Apply, Strong, Careful;
    LeadsOn(Careful, Init(), s, step);
    StrongStep(s, step);
  }

  const TheDoc: Doc := Doc("workspace", "prometheus", "checkout", {"fingerprint"})
  const TheKey: Key := Key("workspace", "prometheus", "fingerprint")

  /** A first create is about to build the group. */
  function FirstBuild(): State {
    Init().(refs := map[TheKey := 1], ops := map[0 := Op(Create, {}, TheDoc, Building("fingerprint", {}, {"fingerprint"}))])
  }

  lemma FirstBuildIsReached()
    ensures Reachable(FirstBuild()) && Strong(FirstBuild())
  {
    InitStrong();
    LeadsNowhere(Careful, Init());
    var s1 := Init().(ops := map[0 := Op(Create, {}, TheDoc, Adding({"fingerprint"}, {}))]);
    ReachableStep(Init(), StartCreate(0, TheDoc), s1);
    assert {"fingerprint"} - {"fingerprint"} == {} && {} + {"fingerprint"} == {"fingerprint"};
    ReachableStep(s1, Increment(0, "fingerprint", Done), FirstBuild());
  }

  /** Two creates of the same indicator lead to where the second must not join. */
  lemma PeerLeftBehindIsReachable()
    ensures exists s ::
      Reachable(s) && Strong(s) && Enabled(s, Increment(1, TheKey.fp, Done))
      && !JoinsBuilt(s, Increment(1, TheKey.fp, Done))
  {
    FirstBuildIsReached();
    var s := FirstBuild();
    var s' := s.(ops := s.ops[1 := Op(Create, {}, TheDoc, Adding({"fingerprint"}, {}))]);
    ReachableStep(s, StartCreate(1, TheDoc), s');
    assert Misses(s', 0, TheKey);
  }

  /** The first build failed and its reference was given back: a counter at zero is left. */
  function ZeroCounter(): State { Init().(refs := map[TheKey := 0]) }

  function Undone(refs: map<Key, nat>, left: set<Fingerprint>): State {
    Init().(refs := refs, ops := map[0 := Op(Create, {}, TheDoc, Undoing(left, left))])
  }

  lemma BuildFailed()
    ensures var s := Undone(map[TheKey := 1], {"fingerprint"}); Reachable(s) && Strong(s)
  {
    hide Inv, Strong;
    FirstBuildIsReached();
    ReachableStep(FirstBuild(), Build(0, Refused), Undone(map[TheKey := 1], {"fingerprint"}));
  }

  lemma UndoneIsReached()
    ensures Reachable(Undone(map[TheKey := 0], {})) && Strong(Undone(map[TheKey := 0], {}))
  {
    hide Inv, Strong;
    BuildFailed();
    assert {"fingerprint"} - {"fingerprint"} == {};
    ReachableStep(Undone(map[TheKey := 1], {"fingerprint"}), Undo(0, "fingerprint", Done), Undone(map[TheKey := 0], {}));
  }

  lemma ZeroCounterIsReached()
    ensures Reachable(ZeroCounter()) && Strong(ZeroCounter())
  {
    UndoneIsReached();
    var s2 := Undone(map[TheKey := 0], {});
    assert s2.alerts - {Alert(0, TheDoc.slug)} == {} && s2.ops - {0} == map[];
    ReachableStep(s2, UndoAlert(0, Done), ZeroCounter());
  }

  /** A pass over that counter has begun and a create is about to take a reference through it. */
  lemma CollectedUnderHolderIsReachable()
    ensures exists s ::
      Reachable(s) && Strong(s) && Enabled(s, Increment(1, TheKey.fp, Done))
      && !Quiet(s, Increment(1, TheKey.fp, Done))
  {
    ZeroCounterIsReached();
    var (s, group) := (ZeroCounter(), Group(TheKey.ds, TheKey.fp));
    var s1 := s.(sweep := Sweeping(group, {TheKey.ws}, false));
    ReachableStep(s, SweepCheck(group, {TheKey.ws}), s1);
    var s2 := s1.(ops := map[1 := Op(Create, {}, TheDoc, Adding({"fingerprint"}, {}))]);
    ReachableStep(s1, StartCreate(1, TheDoc), s2);
  }
}
