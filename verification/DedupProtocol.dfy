/** Creating, updating and deleting SLOs that share recording groups, as steps of a protocol over
    three stores: the reference counts, the ruler and the saved objects. Operations on different
    SLOs interleave freely, every outside call may fail with or without having taken effect, and
    the garbage collector runs beside them. */
module DedupProtocol {

  type Id = nat
  type Workspace = string
  type Datasource = string
  type Fingerprint = string

  datatype Key = Key(ws: Workspace, ds: Datasource, fp: Fingerprint)

  /** A recording group on the ruler; workspaces share it. */
  datatype Group = Group(ds: Datasource, fp: Fingerprint)

  /** A per-SLO alert group on the ruler: its name carries the SLO's slug and id. */
  datatype Alert = Alert(id: Id, slug: string)

  datatype Doc = Doc(ws: Workspace, ds: Datasource, slug: string, fps: set<Fingerprint>)

  datatype Kind = Create | Update | Delete

  datatype Phase =
    | Adding(todo: set<Fingerprint>, held: set<Fingerprint>)
    | Building(fp: Fingerprint, todo: set<Fingerprint>, held: set<Fingerprint>)
    | Saving(held: set<Fingerprint>)
    | Undoing(held: set<Fingerprint>, unbuilt: set<Fingerprint>)
    | DroppingAlert
    | DroppingDoc
    | Releasing(todo: set<Fingerprint>)

  /** An operation in flight: `olds` are the fingerprints its document claims when it starts,
      `next` is the document it will save. */
  datatype Op = Op(kind: Kind, olds: set<Fingerprint>, next: Doc, phase: Phase)

  /** A garbage-collection pass over one group that found no reference. */
  datatype Sweep = Idle | Sweeping(group: Group, stale: set<Workspace>, gone: bool)

  /** `leaked` counts the references nobody will release: calls that failed half way. `torn` are
      the documents whose alert group a delete took before it failed to take the document. */
  datatype State = State(
    refs: map<Key, nat>,
    groups: set<Group>,
    alerts: set<Alert>,
    docs: map<Id, Doc>,
    ops: map<Id, Op>,
    sweep: Sweep,
    leaked: map<Key, nat>,
    torn: set<Id>)

  /** Outcome of an outside call: it took effect; it failed and did nothing; it failed although it
      took effect. */
  datatype Outcome = Done | Refused | Lost

  datatype Step =
    | StartCreate(id: Id, doc: Doc)
    | StartUpdate(id: Id, slug: string, fps: set<Fingerprint>)
    | StartDelete(id: Id)
    | Increment(id: Id, fp: Fingerprint, outcome: Outcome)
    | Build(id: Id, outcome: Outcome)
    | PutAlert(id: Id, outcome: Outcome)
    | Save(id: Id, saved: bool)
    | Undo(id: Id, fp: Fingerprint, outcome: Outcome)
    | UndoAlert(id: Id, outcome: Outcome)
    | DropAlert(id: Id, outcome: Outcome)
    | DropDoc(id: Id, outcome: Outcome)
    | Release(id: Id, fp: Fingerprint, outcome: Outcome)
    | Finish(id: Id)
    | SweepCheck(group: Group, stale: set<Workspace>)
    | SweepGroup(outcome: Outcome)
    | SweepRef(ws: Workspace, outcome: Outcome)
    | SweepEnd

  function Count(m: map<Key, nat>, k: Key): nat { if k in m then m[k] else 0 }

  function KeyOf(doc: Doc, fp: Fingerprint): Key { Key(doc.ws, doc.ds, fp) }

  function Init(): State { State(map[], {}, {}, map[], map[], Idle, map[], {}) }

  // ---------- steps ----------

  /** The operation `step` belongs to, in the phase where it may be taken. */
  predicate Enabled(s: State, step: Step) {
    match step
    case StartCreate(id, _) => id !in s.docs && id !in s.ops
    case StartUpdate(id, _, _) => id in s.docs && id !in s.ops
    case StartDelete(id) => id in s.docs && id !in s.ops
    case Increment(id, fp, _) =>
      id in s.ops && s.ops[id].phase.Adding? && fp in s.ops[id].phase.todo
    case Build(id, _) => id in s.ops && s.ops[id].phase.Building?
    case PutAlert(id, _) => id in s.ops && s.ops[id].phase.Adding? && s.ops[id].phase.todo == {}
    case Save(id, _) => id in s.ops && s.ops[id].phase.Saving?
    case Undo(id, fp, _) => id in s.ops && s.ops[id].phase.Undoing? && fp in s.ops[id].phase.held
    case UndoAlert(id, _) =>
      id in s.ops && s.ops[id].kind == Create && s.ops[id].phase.Undoing? && s.ops[id].phase.held == {}
    case DropAlert(id, _) => id in s.ops && s.ops[id].phase.DroppingAlert?
    case DropDoc(id, _) => id in s.ops && s.ops[id].phase.DroppingDoc?
    case Release(id, fp, _) =>
      id in s.ops && s.ops[id].phase.Releasing? && fp in s.ops[id].phase.todo
    case Finish(id) =>
      id in s.ops && (
        || s.ops[id].phase == Releasing({})
        || (s.ops[id].kind == Update && s.ops[id].phase.Undoing? && s.ops[id].phase.held == {}))
    case SweepCheck(group, stale) =>
      && s.sweep.Idle?
      && (forall k | k in s.refs :: k.ds == group.ds && k.fp == group.fp ==> s.refs[k] == 0)
      && (forall ws | ws in stale :: Key(ws, group.ds, group.fp) in s.refs)
    case SweepGroup(_) => s.sweep.Sweeping? && !s.sweep.gone
    case SweepRef(ws, _) => s.sweep.Sweeping? && s.sweep.gone && ws in s.sweep.stale
    case SweepEnd => s.sweep.Sweeping? && s.sweep.gone && s.sweep.stale == {}
  }

  function To(s: State, id: Id, phase: Phase): State
    requires id in s.ops
  {
    s.(ops := s.ops[id := s.ops[id].(phase := phase)])
  }

  function Over(s: State, id: Id): State { s.(ops := s.ops - {id}) }

  function Counted(s: State, k: Key): State { s.(refs := s.refs[k := Count(s.refs, k) + 1]) }

  /** A decrement on a count of zero, or on a missing one, changes nothing. */
  function Uncounted(s: State, k: Key): State {
    if Count(s.refs, k) == 0 then s else s.(refs := s.refs[k := s.refs[k] - 1])
  }

  function Leak(s: State, k: Key): State { s.(leaked := s.leaked[k := Count(s.leaked, k) + 1]) }

  /** The decrement that rollback and release share: a failure is only logged. */
  function Decremented(s: State, k: Key, outcome: Outcome): State {
    if outcome == Refused then Leak(s, k) else Uncounted(s, k)
  }

  function LeakAll(leaked: map<Key, nat>, doc: Doc): map<Key, nat> {
    map k | k in leaked.Keys + (set fp | fp in doc.fps :: KeyOf(doc, fp)) ::
      Count(leaked, k) + (if k.fp in doc.fps && k == KeyOf(doc, k.fp) then 1 else 0)
  }

  function Incremented(s: State, id: Id, fp: Fingerprint, outcome: Outcome): State
    requires id in s.ops && s.ops[id].phase.Adding?
  {
    var (k, p) := (KeyOf(s.ops[id].next, fp), s.ops[id].phase);
    match outcome
    case Refused => To(s, id, Undoing(p.held, {}))
    case Lost => To(Leak(Counted(s, k), k), id, Undoing(p.held, {}))
    case Done =>
      To(Counted(s, k), id,
        if Count(s.refs, k) == 0 then Building(fp, p.todo - {fp}, p.held + {fp})
        else Adding(p.todo - {fp}, p.held + {fp}))
  }

  function Built(s: State, id: Id, outcome: Outcome): State
    requires id in s.ops && s.ops[id].phase.Building?
  {
    var (op, p) := (s.ops[id], s.ops[id].phase);
    var with := s.groups + {Group(op.next.ds, p.fp)};
    match outcome
    case Done => To(s.(groups := with), id, Adding(p.todo, p.held))
    case Lost => To(s.(groups := with), id, Undoing(p.held, {}))
    case Refused => To(s, id, Undoing(p.held, {p.fp}))
  }

  function AlertPut(s: State, id: Id, outcome: Outcome): State
    requires id in s.ops && s.ops[id].phase.Adding?
  {
    var (op, held) := (s.ops[id], s.ops[id].phase.held);
    var with := s.alerts + {Alert(id, op.next.slug)};
    match outcome
    case Done => To(s.(alerts := with), id, Saving(held))
    case Lost => To(s.(alerts := with), id, Undoing(held, {}))
    case Refused => To(s, id, Undoing(held, {}))
  }

  function Saved(s: State, id: Id): State
    requires id in s.ops
  {
    var op := s.ops[id];
    To(s.(docs := s.docs[id := op.next], torn := s.torn - {id}), id, Releasing(op.olds - op.next.fps))
  }

  function AlertDropped(s: State, id: Id, outcome: Outcome): State
    requires id in s.ops
  {
    var without := s.(alerts := s.alerts - {Alert(id, s.ops[id].next.slug)}, torn := s.torn + {id});
    match outcome
    case Done => To(without, id, DroppingDoc)
    case Lost => Over(without, id)
    case Refused => Over(s, id)
  }

  function DocDropped(s: State, id: Id, outcome: Outcome): State
    requires id in s.ops
  {
    var op := s.ops[id];
    var without := s.(docs := s.docs - {id}, torn := s.torn - {id});
    match outcome
    case Done => To(without, id, Releasing(op.olds))
    case Lost => Over(without.(leaked := LeakAll(s.leaked, op.next)), id)
    case Refused => Over(s, id)
  }

  function Apply(s: State, step: Step): State
    requires Enabled(s, step)
  {
    match step
    case StartCreate(id, doc) =>
      s.(ops := s.ops[id := Op(Create, {}, doc, Adding(doc.fps, {}))])
    case StartUpdate(id, slug, fps) =>
      var doc := s.docs[id];
      s.(ops := s.ops[id :=
        Op(Update, doc.fps, doc.(slug := slug, fps := fps), Adding(fps - doc.fps, {}))])
    case StartDelete(id) =>
      s.(ops := s.ops[id := Op(Delete, s.docs[id].fps, s.docs[id], DroppingAlert)])
    case Increment(id, fp, outcome) => Incremented(s, id, fp, outcome)
    case Build(id, outcome) => Built(s, id, outcome)
    case PutAlert(id, outcome) => AlertPut(s, id, outcome)
    case Save(id, saved) =>
      if saved then Saved(s, id) else To(s, id, Undoing(s.ops[id].phase.held, {}))
    case Undo(id, fp, outcome) =>
      var p := s.ops[id].phase;
      To(Decremented(s, KeyOf(s.ops[id].next, fp), outcome), id,
        Undoing(p.held - {fp}, p.unbuilt - {fp}))
    case UndoAlert(id, outcome) =>
      Over(if outcome == Refused then s
           else s.(alerts := s.alerts - {Alert(id, s.ops[id].next.slug)}), id)
    case DropAlert(id, outcome) => AlertDropped(s, id, outcome)
    case DropDoc(id, outcome) => DocDropped(s, id, outcome)
    case Release(id, fp, outcome) =>
      To(Decremented(s, KeyOf(s.ops[id].next, fp), outcome), id,
        Releasing(s.ops[id].phase.todo - {fp}))
    case Finish(id) => Over(s, id)
    case SweepCheck(group, stale) => s.(sweep := Sweeping(group, stale, false))
    case SweepGroup(outcome) =>
      var without := s.(groups := s.groups - {s.sweep.group});
      (match outcome
       case Done => without.(sweep := s.sweep.(gone := true))
       case Lost => without.(sweep := Idle)
       case Refused => s.(sweep := Idle))
    case SweepRef(ws, outcome) =>
      var s' := s.(sweep := s.sweep.(stale := s.sweep.stale - {ws}));
      if outcome == Refused then s'
      else s'.(refs := s.refs - {Key(ws, s.sweep.group.ds, s.sweep.group.fp)})
    case SweepEnd => s.(sweep := Idle)
  }

  // ---------- who owns a reference ----------

  /** References an operation took and did not give to a document, or took over from one. */
  function Owned(op: Op): set<Fingerprint> {
    match op.phase
    case Adding(_, held) => held
    case Building(_, _, held) => held
    case Saving(held) => held
    case Undoing(held, _) => held
    case Releasing(todo) => todo
    case _ => {}
  }

  predicate Claims(s: State, id: Id, k: Key) {
    id in s.docs && k.fp in s.docs[id].fps && k == KeyOf(s.docs[id], k.fp)
  }

  predicate Holds(s: State, id: Id, k: Key) {
    id in s.ops && k.fp in Owned(s.ops[id]) && k == KeyOf(s.ops[id].next, k.fp)
  }

  predicate Owns(s: State, id: Id, k: Key) { Claims(s, id, k) || Holds(s, id, k) }

  function Owners(s: State, k: Key): set<Id> {
    set id | id in s.docs.Keys + s.ops.Keys && Owns(s, id, k)
  }

  // ---------- invariants ----------

  /** An operation and its document agree, phase by phase. */
  predicate OpOk(s: State, id: Id)
    requires id in s.ops
  {
    var (op, doc) := (s.ops[id], s.ops[id].next);
    && (match op.phase
        case Adding(todo, held) => todo !! held && todo + held == doc.fps - op.olds
        case Building(fp, todo, held) =>
          todo !! held && todo + held == doc.fps - op.olds && fp in held
        case Saving(held) => held == doc.fps - op.olds && Alert(id, doc.slug) in s.alerts
        case Undoing(held, unbuilt) => held <= doc.fps - op.olds
        case Releasing(todo) =>
          todo <= op.olds && (if op.kind == Delete then id !in s.docs
                              else id in s.docs && s.docs[id] == doc && todo !! doc.fps)
        case _ => op.kind == Delete && s.docs[id := doc] == s.docs && op.olds == doc.fps)
    && (!op.phase.Releasing? ==>
        match op.kind
        case Create => id !in s.docs && op.olds == {}
        case Update => id in s.docs && s.docs[id].ws == doc.ws && s.docs[id].ds == doc.ds
                       && s.docs[id].fps == op.olds
        case Delete => op.phase.DroppingAlert? || op.phase.DroppingDoc?)
  }

  ghost predicate OpsOk(s: State) { forall id | id in s.ops :: OpOk(s, id) }

  /** Every count is its owners plus what leaked. */
  ghost predicate Balanced(s: State) {
    forall k: Key :: Count(s.refs, k) == |Owners(s, k)| + Count(s.leaked, k)
  }

  /** The counters that a pass will remove count nothing. */
  ghost predicate SweepOk(s: State) {
    s.sweep.Sweeping? ==>
      forall ws | ws in s.sweep.stale :: Count(s.refs, Key(ws, s.sweep.group.ds, s.sweep.group.fp)) == 0
  }

  /** A document's alert group is on the ruler, unless a delete stopped between the two. */
  predicate AlertOk(s: State, id: Id) {
    id in s.docs ==> Alert(id, s.docs[id].slug) in s.alerts || id in s.torn
  }

  ghost predicate AlertsOk(s: State) { forall id | id in s.docs :: AlertOk(s, id) }

  ghost predicate Inv(s: State) { OpsOk(s) && Balanced(s) && SweepOk(s) && AlertsOk(s) }

  /** The step takes a reference: the call took effect, whether or not its caller learns of it. */
  predicate Counts(s: State, step: Step) {
    step.Increment? && step.id in s.ops && step.outcome != Refused
  }

  /** No reference is taken through a counter that a collection pass is about to remove. */
  predicate Quiet(s: State, step: Step) {
    Counts(s, step) && s.sweep.Sweeping? && s.sweep.group == Group(s.ops[step.id].next.ds, step.fp) ==>
      s.ops[step.id].next.ws !in s.sweep.stale
  }
}
