/** The deduplicating create, update and delete as the service runs them: one call after the other
    against three stores, any of which may fail. A ghost trace records the protocol steps taken, so
    everything proved about runs of the protocol holds of the service. */
module SloLifecycle {
  import opened Options
  import opened DedupProtocol
  import opened DedupSafety
  import opened DedupRuns
  import opened DedupResults

  // ---------- calls and their outcomes ----------

  datatype Call =
    | IncrementCall(k: Key)
    | DecrementCall(k: Key)
    | RemoveCall(k: Key)
    | UpsertGroupCall(group: Group)
    | DeleteGroupCall(group: Group)
    | UpsertAlertCall(alert: Alert)
    | DeleteAlertCall(alert: Alert)
    | SaveCall(id: Id, doc: Doc)
    | DeleteCall(id: Id)

  /** What becomes of the n-th call that is made, whichever it is; nothing is assumed of it. */
  type Fate = (nat, Call) -> Outcome

  /** The way to the stores: every call goes through it and meets its fate. */
  class Backend {
    const fate: Fate
    var made: seq<Call>

    constructor (fate: Fate)
      ensures this.fate == fate && made == []
    {
      this.fate, made := fate, [];
    }

    method Send(c: Call) returns (outcome: Outcome)
      modifies this
      ensures made == old(made) + [c] && outcome == fate(|old(made)|, c)
    {
      outcome := fate(|made|, c);
      made := made + [c];
    }
  }

  /** That call was made since then and threw. */
  ghost predicate Threw(fate: Fate, made: seq<Call>, since: nat, c: Call) {
    exists n | since <= n < |made| :: made[n] == c && fate(n, c) != Done
  }

  /** Some call since then threw, other than a decrement: those are only logged. */
  ghost predicate StepThrew(fate: Fate, made: seq<Call>, since: nat) {
    exists n | since <= n < |made| :: !made[n].DecrementCall? && fate(n, made[n]) != Done
  }

  /** Keys whose increment, or whose decrement, threw since then. */
  ghost function Miscounted(fate: Fate, made: seq<Call>, since: nat): iset<Key> {
    iset k: Key | Threw(fate, made, since, IncrementCall(k))
  }

  ghost function Unreleased(fate: Fate, made: seq<Call>, since: nat): iset<Key> {
    iset k: Key | Threw(fate, made, since, DecrementCall(k))
  }

  /** Calls made later hide none made before. */
  lemma StillThrew(fate: Fate, made: seq<Call>, later: seq<Call>, since: nat)
    requires made <= later
    ensures forall c :: Threw(fate, made, since, c) ==> Threw(fate, later, since, c)
    ensures forall from: nat, c :: since <= from && Threw(fate, later, from, c) ==> Threw(fate, later, since, c)
    ensures StepThrew(fate, made, since) ==> StepThrew(fate, later, since)
  {
  }

  /** A stretch of calls is free of failures when both its parts are. */
  lemma StepsSplit(fate: Fate, made: seq<Call>, later: seq<Call>, since: nat)
    requires made <= later && since <= |made|
    ensures StepThrew(fate, later, since) <==> StepThrew(fate, made, since) || StepThrew(fate, later, |made|)
  {
  }

  lemma NoneMade(fate: Fate, made: seq<Call>)
    ensures !StepThrew(fate, made, |made|) && forall c :: !Threw(fate, made, |made|, c)
  {
  }

  lemma OneMade(fate: Fate, made: seq<Call>, c: Call)
    ensures StepThrew(fate, made + [c], |made|) <==> !c.DecrementCall? && fate(|made|, c) != Done
    ensures Threw(fate, made + [c], |made|, c) <==> fate(|made|, c) != Done
  {
    var later := made + [c];
    assert later[|made|] == c;
  }

  // ---------- the stores ----------

  class RuleRefStore {
    const backend: Backend
    var refs: map<Key, nat>

    constructor (backend: Backend)
      ensures this.backend == backend && refs == map[]
    {
      this.backend, refs := backend, map[];
    }

    /** Reports whether the count was zero; may throw, with or without having counted. */
    method IncrementRef(k: Key) returns (wasZero: Option<bool>, outcome: Outcome)
      modifies this, backend
      ensures backend.made == old(backend.made) + [IncrementCall(k)]
      ensures outcome == backend.fate(|old(backend.made)|, IncrementCall(k))
      ensures outcome.Done? <==> wasZero.Some?
      ensures wasZero.Some? ==> wasZero.value == (Count(old(refs), k) == 0)
      ensures refs == if outcome == Refused then old(refs) else old(refs)[k := Count(old(refs), k) + 1]
    {
      outcome := backend.Send(IncrementCall(k));
      if outcome == Refused { return None, outcome; }
      var before := if k in refs then refs[k] else 0;
      refs := refs[k := before + 1];
      return if outcome == Lost then None else Some(before == 0), outcome;
    }

    method DecrementRef(k: Key) returns (done: bool, outcome: Outcome)
      modifies this, backend
      ensures backend.made == old(backend.made) + [DecrementCall(k)]
      ensures outcome == backend.fate(|old(backend.made)|, DecrementCall(k))
      ensures done <==> outcome.Done?
      ensures refs == if outcome == Refused || Count(old(refs), k) == 0 then old(refs)
                      else old(refs)[k := old(refs)[k] - 1]
    {
      outcome := backend.Send(DecrementCall(k));
      if outcome != Refused && k in refs && refs[k] > 0 { refs := refs[k := refs[k] - 1]; }
      done := outcome == Done;
    }

    /** Dropping a counter is best effort. */
    method Remove(k: Key) returns (outcome: Outcome)
      modifies this, backend
      ensures backend.made == old(backend.made) + [RemoveCall(k)]
      ensures outcome == backend.fate(|old(backend.made)|, RemoveCall(k))
      ensures refs == if outcome == Refused then old(refs) else old(refs) - {k}
    {
      outcome := backend.Send(RemoveCall(k));
      if outcome != Refused { refs := refs - {k}; }
    }
  }

  /** The fingerprints `fps` of `doc` are counted once less than before, but for those whose decrement
      threw, which may be as before; nothing else changes. */
  ghost predicate ReleasedOnce(doc: Doc, fps: set<Fingerprint>, failed: iset<Key>, before: map<Key, nat>, after: map<Key, nat>) {
    forall k: Key ::
      if k.fp in fps && k == KeyOf(doc, k.fp) then
        Count(before, k) - 1 <= Count(after, k) <= Count(before, k) && (k !in failed ==> Count(after, k) == Count(before, k) - 1)
      else Count(after, k) == Count(before, k)
  }

  /** What a failed loop over new fingerprints leaves: those it reports are counted once more, and of
      the others of `fps` at most some are, by a call that took effect and threw. */
  ghost predicate PartlyCounted(doc: Doc, fps: set<Fingerprint>, reported: set<Fingerprint>, failed: iset<Key>,
                                before: map<Key, nat>, after: map<Key, nat>) {
    forall k: Key ::
      if k.fp in reported && k == KeyOf(doc, k.fp) then Count(after, k) == Count(before, k) + 1
      else if k.fp in fps && k == KeyOf(doc, k.fp) && k in failed then
        Count(before, k) <= Count(after, k) <= Count(before, k) + 1
      else Count(after, k) == Count(before, k)
  }

  /** Nothing changed, but for counts of `fps` one of whose calls threw: they may be one more. */
  ghost predicate AtMostOneMore(doc: Doc, fps: set<Fingerprint>, failed: iset<Key>, before: map<Key, nat>, after: map<Key, nat>) {
    forall k: Key ::
      if k.fp in fps && k == KeyOf(doc, k.fp) && k in failed then
        Count(before, k) <= Count(after, k) <= Count(before, k) + 1
      else Count(after, k) == Count(before, k)
  }

  lemma UndoneCounts(doc: Doc, fps: set<Fingerprint>, reported: set<Fingerprint>, uncounted: iset<Key>, unreleased: iset<Key>,
                     failed: iset<Key>, before: map<Key, nat>, counted: map<Key, nat>, after: map<Key, nat>)
    requires reported <= fps && PartlyCounted(doc, fps, reported, uncounted, before, counted)
    requires ReleasedOnce(doc, reported, unreleased, counted, after)
    requires forall k | k in uncounted || k in unreleased :: k in failed
    ensures AtMostOneMore(doc, fps, failed, before, after)
  {
  }

  lemma CountedIsPartly(doc: Doc, fps: set<Fingerprint>, reported: set<Fingerprint>, before: map<Key, nat>, after: map<Key, nat>)
    requires reported <= fps && CountedOnce(doc, reported, before, after)
    ensures forall failed :: PartlyCounted(doc, fps, reported, failed, before, after)
  {
  }

  lemma NothingCounted(doc: Doc, refs: map<Key, nat>)
    ensures CountedOnce(doc, {}, refs, refs)
  {
  }

  lemma NotCountedYet(doc: Doc, fps: set<Fingerprint>, fp: Fingerprint,
                      before: map<Key, nat>, now: map<Key, nat>)
    requires CountedOnce(doc, fps, before, now) && fp !in fps
    ensures Count(now, KeyOf(doc, fp)) == Count(before, KeyOf(doc, fp))
  {
  }

  lemma CountChanged(refs: map<Key, nat>, k: Key)
    ensures refs[k := Count(refs, k) + 1] != refs
  {
    assert refs[k := Count(refs, k) + 1][k] == Count(refs, k) + 1;
  }

  lemma OneMorePartly(doc: Doc, fps: set<Fingerprint>, reported: set<Fingerprint>, fp: Fingerprint, failed: iset<Key>,
                      before: map<Key, nat>, was: map<Key, nat>, after: map<Key, nat>)
    requires reported <= fps && CountedOnce(doc, reported, before, was) && fp in fps && fp !in reported
    requires after == was || after == was[KeyOf(doc, fp) := Count(was, KeyOf(doc, fp)) + 1]
    ensures after == was || KeyOf(doc, fp) in failed ==> PartlyCounted(doc, fps, reported, failed, before, after)
    ensures after != was ==> CountedOnce(doc, reported + {fp}, before, after)
  {
  }

  lemma NothingReleased(doc: Doc, refs: map<Key, nat>)
    ensures forall failed :: ReleasedOnce(doc, {}, failed, refs, refs)
  {
  }

  lemma ReleasedMore(doc: Doc, fps: set<Fingerprint>, fp: Fingerprint,
                     failed: iset<Key>, failed': iset<Key>,
                     before: map<Key, nat>, was: map<Key, nat>, after: map<Key, nat>)
    requires ReleasedOnce(doc, fps, failed, before, was) && fp !in fps && failed <= failed'
    requires var k := KeyOf(doc, fp);
      Count(was, k) > 0 && (after == was[k := was[k] - 1] || (after == was && k in failed'))
    ensures ReleasedOnce(doc, fps + {fp}, failed', before, after)
  {
  }

  class Ruler {
    const backend: Backend
    var groups: set<Group>
    var alerts: set<Alert>

    constructor (backend: Backend)
      ensures this.backend == backend && groups == {} && alerts == {}
    {
      this.backend, groups, alerts := backend, {}, {};
    }

    method UpsertRecordingGroup(group: Group) returns (done: bool, outcome: Outcome)
      modifies this`groups, backend
      ensures backend.made == old(backend.made) + [UpsertGroupCall(group)]
      ensures outcome == backend.fate(|old(backend.made)|, UpsertGroupCall(group))
      ensures done <==> outcome.Done?
      ensures groups == if outcome == Refused then old(groups) else old(groups) + {group}
    {
      outcome := backend.Send(UpsertGroupCall(group));
      if outcome != Refused { groups := groups + {group}; }
      done := outcome == Done;
    }

    method UpsertAlertGroup(alert: Alert) returns (done: bool, outcome: Outcome)
      modifies this`alerts, backend
      ensures backend.made == old(backend.made) + [UpsertAlertCall(alert)]
      ensures outcome == backend.fate(|old(backend.made)|, UpsertAlertCall(alert))
      ensures done <==> outcome.Done?
      ensures alerts == if outcome == Refused then old(alerts) else old(alerts) + {alert}
    {
      outcome := backend.Send(UpsertAlertCall(alert));
      if outcome != Refused { alerts := alerts + {alert}; }
      done := outcome == Done;
    }

    method DeleteRecordingGroup(group: Group) returns (done: bool, outcome: Outcome)
      modifies this`groups, backend
      ensures backend.made == old(backend.made) + [DeleteGroupCall(group)]
      ensures outcome == backend.fate(|old(backend.made)|, DeleteGroupCall(group))
      ensures done <==> outcome.Done?
      ensures groups == if outcome == Refused then old(groups) else old(groups) - {group}
    {
      outcome := backend.Send(DeleteGroupCall(group));
      if outcome != Refused { groups := groups - {group}; }
      done := outcome == Done;
    }

    /** A group that is already gone is not an error. */
    method DeleteAlertGroup(alert: Alert) returns (done: bool, outcome: Outcome)
      modifies this`alerts, backend
      ensures backend.made == old(backend.made) + [DeleteAlertCall(alert)]
      ensures outcome == backend.fate(|old(backend.made)|, DeleteAlertCall(alert))
      ensures done <==> outcome.Done?
      ensures alerts == if outcome == Refused then old(alerts) else old(alerts) - {alert}
    {
      outcome := backend.Send(DeleteAlertCall(alert));
      if outcome != Refused { alerts := alerts - {alert}; }
      done := outcome == Done;
    }
  }

  class SloStore {
    const backend: Backend
    var docs: map<Id, Doc>

    constructor (backend: Backend)
      ensures this.backend == backend && docs == map[]
    {
      this.backend, docs := backend, map[];
    }

    /** A save that throws wrote nothing. */
    method Save(id: Id, doc: Doc) returns (saved: bool)
      modifies this, backend
      ensures backend.made == old(backend.made) + [SaveCall(id, doc)]
      ensures saved <==> backend.fate(|old(backend.made)|, SaveCall(id, doc)) == Done
      ensures docs == if saved then old(docs)[id := doc] else old(docs)
    {
      var outcome := backend.Send(SaveCall(id, doc));
      if outcome == Done { docs := docs[id := doc]; }
      saved := outcome == Done;
    }

    method Delete(id: Id) returns (done: bool, outcome: Outcome)
      modifies this, backend
      ensures backend.made == old(backend.made) + [DeleteCall(id)]
      ensures outcome == backend.fate(|old(backend.made)|, DeleteCall(id))
      ensures done <==> outcome.Done?
      ensures docs == if outcome == Refused then old(docs) else old(docs) - {id}
    {
      outcome := backend.Send(DeleteCall(id));
      if outcome != Refused { docs := docs - {id}; }
      done := outcome == Done;
    }
  }

  // ---------- the service ----------

  /** The fingerprints `fps` of `doc` are counted once more than before, and nothing else is. */
  ghost predicate CountedOnce(doc: Doc, fps: set<Fingerprint>, before: map<Key, nat>, after: map<Key, nat>) {
    forall k: Key :: Count(after, k)
      == Count(before, k) + (if k.fp in fps && k == KeyOf(doc, k.fp) then 1 else 0)
  }

  /** The fingerprints `fps` of `doc` have their group wherever nothing was counted before. */
  predicate GroupsThere(doc: Doc, fps: set<Fingerprint>, before: map<Key, nat>, groups: set<Group>) {
    forall fp | fp in fps :: Count(before, KeyOf(doc, fp)) > 0 || Group(doc.ds, fp) in groups
  }

  class SloService {
    const backend: Backend
    const refStore: RuleRefStore
    const ruler: Ruler
    const sloStore: SloStore
    ghost var trace: seq<Step>
    ghost var now: State

    /** The trace is a serial run of the protocol that ends in `now`. */
    ghost predicate Traced()
      reads this
    {
      Runs(Init(), trace) && Throughout(Serial, Init(), trace) && now == After(Init(), trace)
    }

    /** The stores hold what the protocol says they hold. */
    ghost predicate Matches()
      reads this, refStore, ruler, sloStore
    {
      && refStore.backend == backend && ruler.backend == backend && sloStore.backend == backend
      && Traced() && now.sweep.Idle?
      && now.refs == refStore.refs && now.groups == ruler.groups && now.alerts == ruler.alerts
      && now.docs == sloStore.docs
    }

    ghost predicate Idle()
      reads this, refStore, ruler, sloStore
    {
      Matches() && now.ops == map[]
    }

    /** In the middle of one operation. */
    ghost predicate Doing(id: Id, op: Op)
      reads this, refStore, ruler, sloStore
    {
      Matches() && now.ops == map[id := op]
    }

    constructor (fate: Fate)
      ensures Idle() && sloStore.docs == map[] && backend.fate == fate
      ensures fresh(backend) && fresh(refStore) && fresh(ruler) && fresh(sloStore)
    {
      var b := new Backend(fate);
      backend := b;
      refStore := new RuleRefStore(b);
      ruler := new Ruler(b);
      sloStore := new SloStore(b);
      trace, now := [], Init();
    }

    /** What an operation that has only taken references so far leaves alone. */
    ghost predicate Held(id: Id, op: Op, before: State)
      reads this, refStore, ruler, sloStore
    {
      && Doing(id, op)
      && now.docs == before.docs && now.alerts == before.alerts && before.groups <= now.groups
      && CountedOnce(op.next, Owned(op), before.refs, now.refs)
    }

    /** Calls were made after `before`, and all was well exactly when none of them threw but for
        decrements. */
    ghost predicate Went(before: seq<Call>, ok: bool)
      reads backend
    {
      before <= backend.made && (ok <==> !StepThrew(backend.fate, backend.made, |before|))
    }

    method BuildGroup(id: Id, ghost op: Op, doc: Doc, fp: Fingerprint)
        returns (built: bool, ghost unbuilt: set<Fingerprint>)
      requires Doing(id, op) && op.phase.Building? && fp == op.phase.fp && op.next == doc
      modifies this, ruler`groups, backend
      ensures Went(old(backend.made), built)
      ensures now.docs == old(now.docs) && now.alerts == old(now.alerts) && now.refs == old(now.refs)
      ensures old(now.groups) <= now.groups
      ensures built ==> Group(doc.ds, fp) in now.groups
      ensures built ==> Doing(id, op.(phase := Adding(op.phase.todo, op.phase.held)))
      ensures !built ==> Doing(id, op.(phase := Undoing(op.phase.held, unbuilt)))
    {
      hide Apply, Enabled, Traced, StepThrew;
      var outcome;
      OneMade(backend.fate, backend.made, UpsertGroupCall(Group(doc.ds, fp)));
      built, outcome := ruler.UpsertRecordingGroup(Group(doc.ds, fp));
      TakeBuild(id, outcome);
      unbuilt := if outcome == Refused then {fp} else {};
    }

    /** Count one fingerprint, and build its recording group when nothing counted it before. */
    method TakeReference(id: Id, ghost op: Op, doc: Doc, fp: Fingerprint)
        returns (counted: bool, built: bool, ghost unbuilt: set<Fingerprint>)
      requires Doing(id, op) && op.phase.Adding? && fp in op.phase.todo && op.next == doc
      modifies this, refStore, ruler`groups, backend
      ensures Went(old(backend.made), built)
      ensures !counted ==> Threw(backend.fate, backend.made, |old(backend.made)|, IncrementCall(KeyOf(doc, fp)))
      ensures now.docs == old(now.docs) && now.alerts == old(now.alerts)
      ensures old(now.groups) <= now.groups
      ensures counted ==> now.refs == old(now.refs)[KeyOf(doc, fp) := Count(old(now.refs), KeyOf(doc, fp)) + 1]
      ensures !counted ==> (now.refs == old(now.refs)
        || now.refs == old(now.refs)[KeyOf(doc, fp) := Count(old(now.refs), KeyOf(doc, fp)) + 1])
      ensures built ==> counted
      ensures built ==> Count(old(now.refs), KeyOf(doc, fp)) > 0 || Group(doc.ds, fp) in now.groups
      ensures built ==> Doing(id, op.(phase := Adding(op.phase.todo - {fp}, op.phase.held + {fp})))
      ensures !built ==>
        Doing(id, op.(phase := Undoing(op.phase.held + (if counted then {fp} else {}), unbuilt)))
    {
      hide Apply, Enabled, Traced, StepThrew, Threw;
      unbuilt := {};
      ghost var start := backend.made;
      OneMade(backend.fate, backend.made, IncrementCall(KeyOf(doc, fp)));
      var wasZero, outcome := refStore.IncrementRef(KeyOf(doc, fp));
      ghost var incremented := backend.made;
      TakeIncrement(id, fp, outcome);
      if wasZero.None? {
        assert op.phase.held + {} == op.phase.held;
        return false, false, {};
      }
      counted, built := true, true;
      if wasZero.value {
        built, unbuilt := BuildGroup(id,
          op.(phase := Building(fp, op.phase.todo - {fp}, op.phase.held + {fp})), doc, fp);
        StepsSplit(backend.fate, incremented, backend.made, |start|);
      }
    }

    /** The loop over new fingerprints that create and update share. */
    method TakeReferences(id: Id, ghost op: Op, doc: Doc, toAdd: set<Fingerprint>)
        returns (ok: bool, incrementedFps: set<Fingerprint>, ghost unbuilt: set<Fingerprint>)
      requires Doing(id, op) && op.phase == Adding(toAdd, {}) && op.next == doc
      modifies this, refStore, ruler`groups, backend
      ensures Went(old(backend.made), ok)
      ensures now.docs == old(now.docs) && now.alerts == old(now.alerts) && old(now.groups) <= now.groups
      ensures ok ==> (incrementedFps == toAdd
        && Held(id, op.(phase := Adding({}, toAdd)), old(now)) && GroupsThere(doc, toAdd, old(now.refs), now.groups))
      ensures !ok ==> Doing(id, op.(phase := Undoing(incrementedFps, unbuilt))) && incrementedFps <= toAdd
      ensures !ok ==> PartlyCounted(doc, toAdd, incrementedFps,
        Miscounted(backend.fate, backend.made, |old(backend.made)|), old(now.refs), now.refs)
    {
      hide Apply, Enabled, Traced, CountedOnce, PartlyCounted, StepThrew, Threw;
      ghost var before, start := now, backend.made;
      NoneMade(backend.fate, start);
      var todo := toAdd;
      NothingCounted(doc, now.refs);
      incrementedFps, unbuilt := {}, {};
      while todo != {}
        invariant Held(id, op.(phase := Adding(todo, incrementedFps)), before)
        invariant todo !! incrementedFps && todo + incrementedFps == toAdd
        invariant GroupsThere(doc, incrementedFps, before.refs, now.groups)
        invariant Went(start, true)
        decreases todo
      {
        var fp :| fp in todo;
        var counted, built;
        ghost var (was, sent) := (now.refs, backend.made);
        NotCountedYet(doc, incrementedFps, fp, before.refs, was);
        counted, built, unbuilt :=
          TakeReference(id, op.(phase := Adding(todo, incrementedFps)), doc, fp);
        assert incrementedFps + {} == incrementedFps;
        StepsSplit(backend.fate, sent, backend.made, |start|);
        StillThrew(backend.fate, sent, backend.made, |start|);
        OneMorePartly(doc, toAdd, incrementedFps, fp, Miscounted(backend.fate, backend.made, |start|),
                      before.refs, was, now.refs);
        if counted {
          CountChanged(was, KeyOf(doc, fp));
          incrementedFps := incrementedFps + {fp};
          CountedIsPartly(doc, toAdd, incrementedFps, before.refs, now.refs);
        }
        if !built { return false, incrementedFps, unbuilt; }
        todo := todo - {fp};
      }
      ok := true;
    }

    /** One decrement was called for: the count is one less, or it is as before and the call threw. */
    ghost predicate LoweredOrThrew(before: seq<Call>, k: Key, was: map<Key, nat>)
      reads this, backend
    {
      && before <= backend.made && !StepThrew(backend.fate, backend.made, |before|)
      && Count(was, k) > 0
      && (now.refs == was[k := was[k] - 1]
          || (now.refs == was && Threw(backend.fate, backend.made, |before|, DecrementCall(k))))
    }

    /** What is given back is counted. */
    lemma PositiveCount(id: Id, fp: Fingerprint)
      requires Traced() && id in now.ops
      requires var p := now.ops[id].phase; (p.Undoing? && fp in p.held) || (p.Releasing? && fp in p.todo)
      ensures Count(now.refs, KeyOf(now.ops[id].next, fp)) > 0
    {
      var step := if now.ops[id].phase.Undoing? then Undo(id, fp, Done) else DedupProtocol.Release(id, fp, Done);
      assert Enabled(now, step);
      hide Enabled, Apply;
      SerialIsQuiet(Init(), trace);
      InitKeepsInv();
      RunKeepsInv(Init(), trace);
      NeverUnderflows(now, step);
    }

    method UndoReference(id: Id, ghost op: Op, doc: Doc, fp: Fingerprint)
      requires Doing(id, op) && op.phase.Undoing? && fp in op.phase.held && op.next == doc
      modifies this, refStore, backend
      ensures Doing(id, op.(phase := Undoing(op.phase.held - {fp}, op.phase.unbuilt - {fp})))
      ensures LoweredOrThrew(old(backend.made), KeyOf(doc, fp), old(now.refs))
      ensures now.docs == old(now.docs) && now.groups == old(now.groups) && now.alerts == old(now.alerts)
    {
      hide Traced, Apply, Enabled, Threw, StepThrew;
      PositiveCount(id, fp);
      OneMade(backend.fate, backend.made, DecrementCall(KeyOf(doc, fp)));
      var _, outcome := refStore.DecrementRef(KeyOf(doc, fp));
      TakeUndo(id, fp, outcome);
    }

    /** Gives back each reference the operation took, once, but for those whose decrement throws, which
        is only logged. */
    method Rollback(id: Id, ghost op: Op, doc: Doc, incrementedFps: set<Fingerprint>)
      requires Doing(id, op) && op.phase.Undoing? && op.phase.held == incrementedFps && op.next == doc
      modifies this, refStore, backend
      ensures Went(old(backend.made), true)
      ensures exists unbuilt :: Doing(id, op.(phase := Undoing({}, unbuilt)))
      ensures now.docs == old(now.docs) && now.groups == old(now.groups) && now.alerts == old(now.alerts)
      ensures ReleasedOnce(doc, incrementedFps, Unreleased(backend.fate, backend.made, |old(backend.made)|),
                           old(now.refs), now.refs)
    {
      hide Traced, Matches, Apply, Enabled, ReleasedOnce, Threw, StepThrew;
      ghost var before, start := now, backend.made;
      NoneMade(backend.fate, start);
      NothingReleased(doc, now.refs);
      var todo := incrementedFps;
      ghost var unbuilt := op.phase.unbuilt;
      assert incrementedFps - todo == {};
      while todo != {}
        invariant todo <= incrementedFps && Doing(id, op.(phase := Undoing(todo, unbuilt)))
        invariant now.docs == before.docs && now.groups == before.groups && now.alerts == before.alerts
        invariant Went(start, true)
        invariant ReleasedOnce(doc, incrementedFps - todo, Unreleased(backend.fate, backend.made, |start|),
                               before.refs, now.refs)
        decreases todo
      {
        var fp :| fp in todo;
        ghost var (was, sent) := (now.refs, backend.made);
        UndoReference(id, op.(phase := Undoing(todo, unbuilt)), doc, fp);
        StepsSplit(backend.fate, sent, backend.made, |start|);
        StillThrew(backend.fate, sent, backend.made, |start|);
        ReleasedMore(doc, incrementedFps - todo, fp, Unreleased(backend.fate, sent, |start|),
                     Unreleased(backend.fate, backend.made, |start|), before.refs, was, now.refs);
        assert incrementedFps - (todo - {fp}) == incrementedFps - todo + {fp};
        todo, unbuilt := todo - {fp}, unbuilt - {fp};
      }
      assert incrementedFps - todo == incrementedFps;
    }

    method PutAlertGroup(id: Id, ghost op: Op, doc: Doc, ghost held: set<Fingerprint>)
        returns (done: bool)
      requires Doing(id, op) && op.phase == Adding({}, held) && op.next == doc
      modifies this, ruler`alerts, backend
      ensures Went(old(backend.made), done)
      ensures now.refs == old(now.refs) && now.groups == old(now.groups) && now.docs == old(now.docs)
      ensures now.alerts == old(now.alerts) || now.alerts == old(now.alerts) + {Alert(id, doc.slug)}
      ensures done ==> Alert(id, doc.slug) in now.alerts && Doing(id, op.(phase := Saving(held)))
      ensures !done ==> Doing(id, op.(phase := Undoing(held, {})))
    {
      hide Traced, StepThrew, Apply, Enabled;
      OneMade(backend.fate, backend.made, UpsertAlertCall(Alert(id, doc.slug)));
      var outcome;
      done, outcome := ruler.UpsertAlertGroup(Alert(id, doc.slug));
      TakePutAlert(id, outcome);
    }

    /** The alert group, then the document; both create and update end with them. */
    method Persist(id: Id, ghost op: Op, doc: Doc, ghost held: set<Fingerprint>)
        returns (ok: bool)
      requires Doing(id, op) && op.phase == Adding({}, held) && op.next == doc
      modifies this, ruler`alerts, sloStore, backend
      ensures Went(old(backend.made), ok)
      ensures now.refs == old(now.refs) && now.groups == old(now.groups)
      ensures now.alerts == old(now.alerts) || now.alerts == old(now.alerts) + {Alert(id, doc.slug)}
      ensures !ok ==> now.docs == old(now.docs) && Doing(id, op.(phase := Undoing(held, {})))
      ensures ok ==> now.docs == old(now.docs)[id := doc] && Alert(id, doc.slug) in now.alerts
      ensures ok ==> Doing(id, op.(phase := Releasing(op.olds - doc.fps)))
    {
      hide Traced, StepThrew, Apply, Enabled;
      ghost var start := backend.made;
      var upserted := PutAlertGroup(id, op, doc, held);
      if !upserted { return false; }
      ghost var upsert := backend.made;
      OneMade(backend.fate, backend.made, SaveCall(id, doc));
      ok := sloStore.Save(id, doc);
      StepsSplit(backend.fate, upsert, backend.made, |start|);
      TakeSave(id, ok);
    }

    /** Keys one of whose calls threw since then. */
    ghost function Failing(since: nat): iset<Key>
      reads backend
    {
      Miscounted(backend.fate, backend.made, since) + Unreleased(backend.fate, backend.made, since)
    }

    /** What taking references and then giving them back leaves, over all the calls made. */
    lemma UndoneInAll(doc: Doc, fps: set<Fingerprint>, reported: set<Fingerprint>, start: seq<Call>, sent: seq<Call>,
                      failed: seq<Call>, undone: seq<Call>, made: seq<Call>,
                      before: map<Key, nat>, counted: map<Key, nat>, after: map<Key, nat>)
      requires start <= sent <= failed <= undone <= made == backend.made && reported <= fps
      requires PartlyCounted(doc, fps, reported, Miscounted(backend.fate, sent, |start|), before, counted)
      requires ReleasedOnce(doc, reported, Unreleased(backend.fate, undone, |failed|), counted, after)
      ensures AtMostOneMore(doc, fps, Failing(|start|), before, after)
      ensures StepThrew(backend.fate, failed, |start|) ==> StepThrew(backend.fate, made, |start|)
      ensures forall c :: Threw(backend.fate, made, |undone|, c) ==> Threw(backend.fate, made, |start|, c)
    {
      hide PartlyCounted, ReleasedOnce, AtMostOneMore, Threw, StepThrew;
      StillThrew(backend.fate, sent, made, |start|);
      StillThrew(backend.fate, failed, made, |start|);
      StillThrew(backend.fate, undone, made, |start|);
      StillThrew(backend.fate, undone, made, |failed|);
      UndoneCounts(doc, fps, reported, Miscounted(backend.fate, sent, |start|), Unreleased(backend.fate, undone, |failed|),
                   Failing(|start|), before, counted, after);
    }

    /** A create succeeds exactly when no call throws. Then every fingerprint of the document is counted
        once more and has its group where it was not counted before. One that fails leaves no document
        and no alert group, unless deleting that threw too; and every count as it was, unless one of
        that count's own calls threw. */
    method CreateDedup(id: Id, doc: Doc) returns (ok: bool)
      requires Idle() && id !in sloStore.docs
      modifies this, refStore, ruler, sloStore, backend
      ensures Idle() && Went(old(backend.made), ok)
      ensures sloStore.docs == if ok then old(sloStore.docs)[id := doc] else old(sloStore.docs)
      ensures ok ==> Alert(id, doc.slug) in ruler.alerts
      ensures ok ==> CountedOnce(doc, doc.fps, old(refStore.refs), refStore.refs)
      ensures ok ==> GroupsThere(doc, doc.fps, old(refStore.refs), ruler.groups)
      ensures !ok ==> AtMostOneMore(doc, doc.fps, Failing(|old(backend.made)|), old(refStore.refs), refStore.refs)
      ensures !ok && Alert(id, doc.slug) in ruler.alerts ==>
        Threw(backend.fate, backend.made, |old(backend.made)|, DeleteAlertCall(Alert(id, doc.slug)))
      ensures ruler.alerts - {Alert(id, doc.slug)} == old(ruler.alerts) - {Alert(id, doc.slug)}
      ensures old(ruler.groups) <= ruler.groups
    {
      hide Traced, Apply, Enabled, CountedOnce, PartlyCounted, ReleasedOnce, AtMostOneMore, Threw, StepThrew;
      ghost var before, start := now, backend.made;
      ghost var op := Op(Create, {}, doc, Adding(doc.fps, {}));
      TakeStartCreate(id, doc);
      var incrementedFps; ghost var unbuilt;
      ok, incrementedFps, unbuilt := TakeReferences(id, op, doc, doc.fps);
      ghost var sent := backend.made;
      if ok {
        unbuilt := {};
        CountedIsPartly(doc, doc.fps, doc.fps, before.refs, now.refs);
        ok := Persist(id, op.(phase := Adding({}, doc.fps)), doc, doc.fps);
        StepsSplit(backend.fate, sent, backend.made, |start|);
        StillThrew(backend.fate, sent, backend.made, |start|);
      }
      if ok {
        TakeFinish(id);
      } else {
        ghost var (counted, failed) := (now.refs, backend.made);
        Rollback(id, op.(phase := Undoing(incrementedFps, unbuilt)), doc, incrementedFps);
        ghost var undone := backend.made;
        OneMade(backend.fate, backend.made, DeleteAlertCall(Alert(id, doc.slug)));
        var _, outcome := ruler.DeleteAlertGroup(Alert(id, doc.slug));
        TakeUndoAlert(id, outcome);
        UndoneInAll(doc, doc.fps, incrementedFps, start, sent, failed, undone, backend.made, before.refs, counted, now.refs);
      }
    }

    method ReleaseReference(id: Id, ghost op: Op, doc: Doc, fp: Fingerprint)
      requires Doing(id, op) && op.phase.Releasing? && fp in op.phase.todo
      requires op.next.ws == doc.ws && op.next.ds == doc.ds
      modifies this, refStore, backend
      ensures Doing(id, op.(phase := Releasing(op.phase.todo - {fp}))) && now.docs == old(now.docs)
      ensures now.groups == old(now.groups) && now.alerts == old(now.alerts)
      ensures LoweredOrThrew(old(backend.made), KeyOf(doc, fp), old(now.refs))
    {
      hide Traced, Apply, Enabled, Threw, StepThrew;
      PositiveCount(id, fp);
      OneMade(backend.fate, backend.made, DecrementCall(KeyOf(doc, fp)));
      var _, outcome := refStore.DecrementRef(KeyOf(doc, fp));
      TakeRelease(id, fp, outcome);
    }

    /** The references an update or a delete no longer needs, but for those whose decrement throws, which
        is only logged. */
    method Release(id: Id, ghost op: Op, doc: Doc, toDrop: set<Fingerprint>)
      requires Doing(id, op) && op.phase == Releasing(toDrop) && op.next.ws == doc.ws && op.next.ds == doc.ds
      modifies this, refStore, backend
      ensures Went(old(backend.made), true)
      ensures Doing(id, op.(phase := Releasing({}))) && now.docs == old(now.docs)
      ensures now.groups == old(now.groups) && now.alerts == old(now.alerts)
      ensures ReleasedOnce(doc, toDrop, Unreleased(backend.fate, backend.made, |old(backend.made)|),
                           old(now.refs), now.refs)
    {
      hide Traced, Matches, Apply, Enabled, ReleasedOnce, Threw, StepThrew;
      ghost var before, start := now, backend.made;
      NoneMade(backend.fate, start);
      NothingReleased(doc, now.refs);
      var todo := toDrop;
      assert toDrop - todo == {};
      while todo != {}
        invariant todo <= toDrop && Doing(id, op.(phase := Releasing(todo)))
        invariant now.docs == before.docs && now.groups == before.groups && now.alerts == before.alerts
        invariant Went(start, true)
        invariant ReleasedOnce(doc, toDrop - todo, Unreleased(backend.fate, backend.made, |start|), before.refs, now.refs)
        decreases todo
      {
        var fp :| fp in todo;
        ghost var (was, sent) := (now.refs, backend.made);
        ReleaseReference(id, op.(phase := Releasing(todo)), doc, fp);
        StepsSplit(backend.fate, sent, backend.made, |start|);
        StillThrew(backend.fate, sent, backend.made, |start|);
        ReleasedMore(doc, toDrop - todo, fp, Unreleased(backend.fate, sent, |start|),
                     Unreleased(backend.fate, backend.made, |start|), before.refs, was, now.refs);
        assert toDrop - (todo - {fp}) == toDrop - todo + {fp};
        todo := todo - {fp};
      }
      assert toDrop - todo == toDrop;
    }

    /** What releasing leaves, over all the calls made. */
    lemma ReleasedInAll(doc: Doc, fps: set<Fingerprint>, start: seq<Call>, ended: seq<Call>, made: seq<Call>,
                        before: map<Key, nat>, after: map<Key, nat>)
      requires start <= ended <= made == backend.made
      requires ReleasedOnce(doc, fps, Unreleased(backend.fate, made, |ended|), before, after)
      ensures ReleasedOnce(doc, fps, Unreleased(backend.fate, made, |start|), before, after)
      ensures StepThrew(backend.fate, made, |start|)
        <==> StepThrew(backend.fate, ended, |start|) || StepThrew(backend.fate, made, |ended|)
    {
      hide Threw, StepThrew;
      StillThrew(backend.fate, ended, made, |start|);
      StepsSplit(backend.fate, ended, made, |start|);
    }

    /** An update succeeds exactly when no call throws, decrements apart. Then it replaces the document,
        counts the fingerprints it adds and releases those it drops. One that fails leaves the document
        as it was, and every count as it was, unless one of that count's own calls threw. */
    method UpdateDedup(id: Id, slug: string, fps: set<Fingerprint>) returns (ok: bool)
      requires Idle() && id in sloStore.docs
      modifies this, refStore, ruler, sloStore, backend
      ensures Idle() && Went(old(backend.made), ok)
      ensures var (existing, docs) := (old(sloStore.docs[id]), old(sloStore.docs));
        var merged := existing.(slug := slug, fps := fps);
        && sloStore.docs == (if ok then docs[id := merged] else docs)
        && (ok ==>
              && Alert(id, slug) in ruler.alerts
              && GroupsThere(merged, fps - existing.fps, old(refStore.refs), ruler.groups)
              && exists counted ::
                   && CountedOnce(merged, fps - existing.fps, old(refStore.refs), counted)
                   && ReleasedOnce(merged, existing.fps - fps,
                        Unreleased(backend.fate, backend.made, |old(backend.made)|), counted, refStore.refs))
        && (!ok ==> AtMostOneMore(merged, fps - existing.fps, Failing(|old(backend.made)|),
                                  old(refStore.refs), refStore.refs))
      ensures old(ruler.groups) <= ruler.groups
      ensures ruler.alerts == old(ruler.alerts) || ruler.alerts == old(ruler.alerts) + {Alert(id, slug)}
    {
      hide Traced, CountedOnce, PartlyCounted, ReleasedOnce, AtMostOneMore, Threw, StepThrew;
      ghost var before, start := now, backend.made;
      var existing := sloStore.docs[id];
      var merged := existing.(slug := slug, fps := fps);
      var toAdd, toDrop := fps - existing.fps, existing.fps - fps;
      ghost var op := Op(Update, existing.fps, merged, Adding(toAdd, {}));
      Take(StartUpdate(id, slug, fps));
      var incrementedFps; ghost var unbuilt;
      ok, incrementedFps, unbuilt := TakeReferences(id, op, merged, toAdd);
      ghost var sent := backend.made;
      if ok {
        unbuilt := {};
        CountedIsPartly(merged, toAdd, toAdd, before.refs, now.refs);
        ok := Persist(id, op.(phase := Adding({}, toAdd)), merged, toAdd);
        StepsSplit(backend.fate, sent, backend.made, |start|);
        StillThrew(backend.fate, sent, backend.made, |start|);
      }
      ghost var (counted, ended) := (now.refs, backend.made);
      if ok {
        Release(id, op.(phase := Releasing(toDrop)), merged, toDrop);
        ReleasedInAll(merged, toDrop, start, ended, backend.made, counted, now.refs);
      } else {
        Rollback(id, op.(phase := Undoing(incrementedFps, unbuilt)), merged, incrementedFps);
        UndoneInAll(merged, toAdd, incrementedFps, start, sent, ended, backend.made, backend.made,
                    before.refs, counted, now.refs);
      }
      TakeFinish(id);
    }

    /** Alert group first, then the document: a failure before the document is gone leaves it in
        place for a retry. */
    method TearDown(id: Id, ghost op: Op, existing: Doc) returns (done: bool)
      requires Doing(id, op) && op == Op(Delete, existing.fps, existing, DroppingAlert)
      requires id in now.docs
      modifies this, ruler`alerts, sloStore, backend
      ensures Went(old(backend.made), done)
      ensures now.refs == old(now.refs) && now.groups == old(now.groups)
      ensures done ==> Doing(id, op.(phase := Releasing(existing.fps)))
      ensures done ==> now.docs == old(now.docs) - {id} && Alert(id, existing.slug) !in now.alerts
      ensures !done ==> Idle()
      ensures !done && now.docs != old(now.docs) ==> (now.docs == old(now.docs) - {id}
        && Threw(backend.fate, backend.made, |old(backend.made)|, DeleteCall(id)))
    {
      hide Traced, StepThrew, Threw, Apply, Enabled;
      ghost var start := backend.made;
      var outcome;
      OneMade(backend.fate, backend.made, DeleteAlertCall(Alert(id, existing.slug)));
      done, outcome := ruler.DeleteAlertGroup(Alert(id, existing.slug));
      TakeDropAlert(id, outcome);
      if !done { return; }
      ghost var dropped := backend.made;
      OneMade(backend.fate, backend.made, DeleteCall(id));
      done, outcome := sloStore.Delete(id);
      StepsSplit(backend.fate, dropped, backend.made, |start|);
      StillThrew(backend.fate, dropped, backend.made, |start|);
      TakeDropDoc(id, outcome);
    }

    /** A delete succeeds exactly when no call throws, decrements apart. Then it takes the document and
        its alert group, and releases each of its fingerprints once; recording groups stay for the
        collector. One that fails releases nothing, and leaves the document unless deleting that threw. */
    method DeleteDedup(id: Id) returns (ok: bool)
      requires Idle() && id in sloStore.docs
      modifies this, refStore, ruler, sloStore, backend
      ensures Idle() && Went(old(backend.made), ok) && ruler.groups == old(ruler.groups)
      ensures ok ==> sloStore.docs == old(sloStore.docs) - {id}
      ensures ok ==> Alert(id, old(sloStore.docs[id].slug)) !in ruler.alerts
      ensures ok ==> ReleasedOnce(old(sloStore.docs[id]), old(sloStore.docs[id].fps),
        Unreleased(backend.fate, backend.made, |old(backend.made)|), old(refStore.refs), refStore.refs)
      ensures !ok ==> refStore.refs == old(refStore.refs)
      ensures !ok && sloStore.docs != old(sloStore.docs) ==> (sloStore.docs == old(sloStore.docs) - {id}
        && Threw(backend.fate, backend.made, |old(backend.made)|, DeleteCall(id)))
    {
      hide Traced, StepThrew, Threw, ReleasedOnce;
      ghost var start := backend.made;
      var existing := sloStore.docs[id];
      ghost var op := Op(Delete, existing.fps, existing, DroppingAlert);
      Take(StartDelete(id));
      ok := TearDown(id, op, existing);
      if ok {
        ghost var (before, ended) := (now.refs, backend.made);
        Release(id, op.(phase := Releasing(existing.fps)), existing, existing.fps);
        ReleasedInAll(existing, existing.fps, start, ended, backend.made, before, now.refs);
        TakeFinish(id);
      }
    }

    /** One group of a garbage-collection pass: `stale` are the workspaces whose counter has been
        zero for long enough. Nothing is touched while any workspace still counts the group. */
    method Collect(group: Group, stale: set<Workspace>)
      requires Idle() && forall ws | ws in stale :: Key(ws, group.ds, group.fp) in refStore.refs
      modifies this, refStore, ruler`groups, backend
      ensures Idle() && old(backend.made) <= backend.made
      ensures (exists k | k in old(refStore.refs) :: k.ds == group.ds && k.fp == group.fp && old(refStore.refs)[k] > 0)
        ==> backend.made == old(backend.made) && refStore.refs == old(refStore.refs) && ruler.groups == old(ruler.groups)
      ensures (forall k | k in old(refStore.refs) :: k.ds == group.ds && k.fp == group.fp ==> old(refStore.refs)[k] == 0)
        && !StepThrew(backend.fate, backend.made, |old(backend.made)|)
        ==> group !in ruler.groups && forall ws | ws in stale :: Key(ws, group.ds, group.fp) !in refStore.refs
      ensures forall k: Key :: Count(refStore.refs, k) == Count(old(refStore.refs), k)
      ensures ruler.groups == old(ruler.groups)
        || (ruler.groups == old(ruler.groups) - {group}
            && forall ws :: Count(refStore.refs, Key(ws, group.ds, group.fp)) == 0)
    {
      hide Traced, Apply, Enabled, StepThrew;
      ghost var start := backend.made;
      if exists k | k in refStore.refs :: k.ds == group.ds && k.fp == group.fp && refStore.refs[k] > 0 {
        return;
      }
      TakeCheck(group, stale);
      OneMade(backend.fate, backend.made, DeleteGroupCall(group));
      var done, outcome := ruler.DeleteRecordingGroup(group);
      TakeGroup(outcome);
      if done {
        ghost var deleted := backend.made;
        RemoveCounters(group, stale);
        StepsSplit(backend.fate, deleted, backend.made, |start|);
        TakeEnd();
      }
    }

    /** Uncounted: the group's counters are all zero. */
    ghost predicate Unreferenced(s: State, group: Group) {
      forall k: Key | k.ds == group.ds && k.fp == group.fp :: Count(s.refs, k) == 0
    }

    method RemoveCounters(group: Group, stale: set<Workspace>)
      requires Traced() && now.refs == refStore.refs && now.ops == map[]
      requires now.sweep == Sweeping(group, stale, true) && Unreferenced(now, group) && refStore.backend == backend
      modifies this, refStore, backend
      ensures old(backend.made) <= backend.made
      ensures !StepThrew(backend.fate, backend.made, |old(backend.made)|) ==>
        forall ws | ws in stale :: Key(ws, group.ds, group.fp) !in now.refs
      ensures Traced() && now.refs == refStore.refs
      ensures now == old(now).(refs := now.refs, sweep := Sweeping(group, {}, true))
      ensures forall k: Key :: Count(now.refs, k) == Count(old(now.refs), k)
    {
      hide Traced, Apply, Enabled, StepThrew;
      ghost var before, start := now, backend.made;
      var todo := stale;
      while todo != {}
        invariant now == before.(refs := now.refs, sweep := Sweeping(group, todo, true))
        invariant Traced() && now.refs == refStore.refs && todo <= stale && start <= backend.made
        invariant !StepThrew(backend.fate, backend.made, |start|) ==>
          forall ws | ws in stale - todo :: Key(ws, group.ds, group.fp) !in now.refs
        invariant forall k: Key :: Count(now.refs, k) == Count(before.refs, k)
        decreases todo
      {
        var ws :| ws in todo;
        ghost var sent := backend.made;
        OneMade(backend.fate, backend.made, RemoveCall(Key(ws, group.ds, group.fp)));
        var outcome := refStore.Remove(Key(ws, group.ds, group.fp));
        StepsSplit(backend.fate, sent, backend.made, |start|);
        TakeRef(ws, outcome);
        todo := todo - {ws};
      }
    }

    ghost method Take(step: Step)
      requires Traced() && Enabled(now, step) && Serial(now, step)
      modifies this
      ensures Traced() && now == Apply(old(now), step) && trace == old(trace) + [step]
    {
      Extend(Serial, Init(), trace, step);
      trace, now := trace + [step], Apply(now, step);
    }

    ghost method TakeCheck(group: Group, stale: set<Workspace>)
      requires Traced() && now.ops == map[] && now.sweep.Idle? && Unreferenced(now, group)
      requires forall ws | ws in stale :: Key(ws, group.ds, group.fp) in now.refs
      modifies this
      ensures Traced() && now == old(now).(sweep := Sweeping(group, stale, false))
    {
      assert forall k | k in now.refs :: Count(now.refs, k) == now.refs[k];
      Take(SweepCheck(group, stale));
    }

    ghost method TakeGroup(outcome: Outcome)
      requires Traced() && now.ops == map[] && now.sweep.Sweeping? && !now.sweep.gone
      modifies this
      ensures Traced() && var s := old(now);
        now == s.(groups := if outcome == Refused then s.groups else s.groups - {s.sweep.group},
                  sweep := if outcome == Done then s.sweep.(gone := true) else DedupProtocol.Idle)
    {
      Take(SweepGroup(outcome));
    }

    ghost method TakeRef(ws: Workspace, outcome: Outcome)
      requires Traced() && now.ops == map[] && now.sweep.Sweeping? && now.sweep.gone && ws in now.sweep.stale
      modifies this
      ensures Traced() && var (s, k) := (old(now), Key(ws, old(now).sweep.group.ds, old(now).sweep.group.fp));
        now == s.(sweep := s.sweep.(stale := s.sweep.stale - {ws}),
                  refs := if outcome == Refused then s.refs else s.refs - {k})
    {
      Take(SweepRef(ws, outcome));
    }

    ghost method TakeEnd()
      requires Traced() && now.ops == map[] && now.sweep.Sweeping? && now.sweep.gone && now.sweep.stale == {}
      modifies this
      ensures Traced() && now == old(now).(sweep := DedupProtocol.Idle)
    {
      Take(SweepEnd);
    }

    ghost method TakeFinish(id: Id)
      requires Traced() && id in now.ops && now.ops == map[id := now.ops[id]] && now.sweep.Idle?
      requires now.ops[id].phase == Releasing({})
        || (now.ops[id].kind == Update && now.ops[id].phase.Undoing? && now.ops[id].phase.held == {})
      modifies this
      ensures Traced() && now == old(now).(ops := map[])
    {
      Take(Finish(id));
    }

    ghost method TakeUndoAlert(id: Id, outcome: Outcome)
      requires Traced() && id in now.ops && now.ops == map[id := now.ops[id]] && now.sweep.Idle?
      requires now.ops[id].kind == Create && now.ops[id].phase.Undoing? && now.ops[id].phase.held == {}
      modifies this
      ensures Traced() && var s := old(now);
        now == s.(ops := map[], alerts := if outcome == Refused then s.alerts
                                          else s.alerts - {Alert(id, s.ops[id].next.slug)})
    {
      Take(UndoAlert(id, outcome));
    }

    ghost method TakePutAlert(id: Id, outcome: Outcome)
      requires Traced() && id in now.ops && now.ops == map[id := now.ops[id]] && now.sweep.Idle?
      requires now.ops[id].phase.Adding? && now.ops[id].phase.todo == {}
      modifies this
      ensures Traced() && now == AlertPut(old(now), id, outcome)
    {
      Take(PutAlert(id, outcome));
    }

    ghost method TakeSave(id: Id, saved: bool)
      requires Traced() && id in now.ops && now.ops == map[id := now.ops[id]] && now.sweep.Idle?
      requires now.ops[id].phase.Saving?
      modifies this
      ensures Traced() && var s := old(now);
        now == if saved then Saved(s, id) else To(s, id, Undoing(s.ops[id].phase.held, {}))
    {
      Take(Save(id, saved));
    }

    ghost method TakeDropAlert(id: Id, outcome: Outcome)
      requires Traced() && id in now.ops && now.ops == map[id := now.ops[id]] && now.sweep.Idle?
      requires now.ops[id].phase.DroppingAlert?
      modifies this
      ensures Traced() && now == AlertDropped(old(now), id, outcome)
    {
      Take(DropAlert(id, outcome));
    }

    ghost method TakeDropDoc(id: Id, outcome: Outcome)
      requires Traced() && id in now.ops && now.ops == map[id := now.ops[id]] && now.sweep.Idle?
      requires now.ops[id].phase.DroppingDoc?
      modifies this
      ensures Traced() && now == DocDropped(old(now), id, outcome)
    {
      Take(DropDoc(id, outcome));
    }

    ghost method TakeStartCreate(id: Id, doc: Doc)
      requires Traced() && now.ops == map[] && now.sweep.Idle? && id !in now.docs
      modifies this
      ensures Traced()
      ensures now == old(now).(ops := map[id := Op(Create, {}, doc, Adding(doc.fps, {}))])
    {
      Take(StartCreate(id, doc));
    }

    ghost method TakeIncrement(id: Id, fp: Fingerprint, outcome: Outcome)
      requires Traced() && id in now.ops && now.ops == map[id := now.ops[id]] && now.sweep.Idle?
      requires now.ops[id].phase.Adding? && fp in now.ops[id].phase.todo
      modifies this
      ensures Traced() && now == Incremented(old(now), id, fp, outcome)
      ensures trace == old(trace) + [Increment(id, fp, outcome)]
    {
      Take(Increment(id, fp, outcome));
    }

    ghost method TakeBuild(id: Id, outcome: Outcome)
      requires Traced() && id in now.ops && now.ops == map[id := now.ops[id]] && now.sweep.Idle?
      requires now.ops[id].phase.Building?
      modifies this
      ensures Traced() && now == Built(old(now), id, outcome)
      ensures trace == old(trace) + [Build(id, outcome)]
    {
      Take(Build(id, outcome));
    }

    ghost method TakeUndo(id: Id, fp: Fingerprint, outcome: Outcome)
      requires Traced() && id in now.ops && now.ops == map[id := now.ops[id]] && now.sweep.Idle?
      requires now.ops[id].phase.Undoing? && fp in now.ops[id].phase.held
      modifies this
      ensures var (s, p) := (old(now), old(now.ops[id].phase));
        Traced() && now == To(Decremented(s, KeyOf(s.ops[id].next, fp), outcome), id,
                              Undoing(p.held - {fp}, p.unbuilt - {fp}))
      ensures trace == old(trace) + [Undo(id, fp, outcome)]
    {
      Take(Undo(id, fp, outcome));
    }

    ghost method TakeRelease(id: Id, fp: Fingerprint, outcome: Outcome)
      requires Traced() && id in now.ops && now.ops == map[id := now.ops[id]] && now.sweep.Idle?
      requires now.ops[id].phase.Releasing? && fp in now.ops[id].phase.todo
      modifies this
      ensures var (s, p) := (old(now), old(now.ops[id].phase));
        Traced() && now == To(Decremented(s, KeyOf(s.ops[id].next, fp), outcome), id,
                              Releasing(p.todo - {fp}))
      ensures trace == old(trace) + [DedupProtocol.Release(id, fp, outcome)]
    {
      Take(DedupProtocol.Release(id, fp, outcome));
    }
  }

  // ---------- what holds between calls ----------

  lemma {:induction false} SerialIsQuiet(s: State, steps: seq<Step>)
    requires Runs(s, steps) && Throughout(Serial, s, steps)
    ensures Throughout(Quiet, s, steps)
    decreases |steps|
  {
    hide Apply, Enabled;
    if steps != [] { SerialIsQuiet(Apply(s, steps[0]), steps[1..]); }
  }

  lemma {:induction false} ReliableSerial(s: State, steps: seq<Step>)
    requires Runs(s, steps) && Throughout(Serial, s, steps)
    requires forall i | 0 <= i < |steps| :: Reliable(steps[i])
    ensures Throughout(OneAtATime, s, steps)
    decreases |steps|
  {
    hide Apply, Enabled, Reliable, Serial;
    if steps != [] {
      assert forall i | 0 <= i < |steps[1..]| :: steps[1..][i] == steps[i + 1];
      ReliableSerial(Apply(s, steps[0]), steps[1..]);
    }
  }

  /** Between two calls of the service no count is below the number of documents claiming it. */
  lemma ServiceNeverUndercounts(service: SloService, k: Key)
    requires service.Idle()
    ensures Count(service.refStore.refs, k) >= |Claimants(service.now, k)|
    ensures service.now.docs == service.sloStore.docs
  {
    SerialIsQuiet(Init(), service.trace);
    NoUndercount(service.trace, k);
  }

  /** And when no call half-succeeded so far, every count is exact and every fingerprint that some
      workspace counts has its recording group on the ruler. */
  lemma ServiceShares(service: SloService, k: Key)
    requires service.Idle() && forall i | 0 <= i < |service.trace| :: Reliable(service.trace[i])
    ensures Count(service.refStore.refs, k) == |Claimants(service.now, k)|
    ensures Count(service.refStore.refs, k) > 0 ==> Group(k.ds, k.fp) in service.ruler.groups
    ensures service.now.docs == service.sloStore.docs
  {
    ReliableSerial(Init(), service.trace);
    WholeOperations(service.trace);
  }
}
