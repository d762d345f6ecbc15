/** Repairing a drifted SLO: which groups it should have, which objective stands for a fingerprint,
    and what is on the ruler after a repair. */
module SloRepair {
  import opened Options

  type Id = nat
  type Workspace = string
  type Fingerprint = string

  /** Ruler group names. An alert group's name hashes the workspace and the id; the hash is taken
      to be injective. */
  datatype GroupName = Rec(fp: Fingerprint) | Alerts(slug: string, ws: Workspace, id: Id)

  /** A group on the ruler, and whether its recording rules carry the current rules version. */
  datatype Rules = Rules(current: bool)

  /** `fp` is what the fingerprint of the SLI with this objective is; none for an SLI that is not
      deduplicated. */
  datatype Objective = Objective(name: string, fp: Option<Fingerprint>)

  datatype Doc = Doc(
    id: Id, slug: string, objectives: seq<Objective>,
    recordingFingerprints: map<string, Fingerprint>, alertGroup: Option<GroupName>)

  // ---------- fingerprints of the objectives ----------

  function FingerprintsOf(objectives: seq<Objective>): map<string, Fingerprint> {
    if objectives == [] then map[]
    else
      var (rest, last) := (FingerprintsOf(objectives[..|objectives| - 1]), objectives[|objectives| - 1]);
      if last.fp.Some? then rest[last.name := last.fp.value] else rest
  }

  method ComputeObjectiveFingerprints(objectives: seq<Objective>) returns (out: map<string, Fingerprint>)
    ensures out == FingerprintsOf(objectives)
  {
    out := map[];
    for i := 0 to |objectives|
      invariant out == FingerprintsOf(objectives[..i])
    {
      assert objectives[..i + 1][..i] == objectives[..i];
      if objectives[i].fp.Some? { out := out[objectives[i].name := objectives[i].fp.value]; }
    }
    assert objectives[..|objectives|] == objectives;
  }

  predicate Stands(o: Objective, recorded: map<string, Fingerprint>, fp: Fingerprint) {
    o.name in recorded && recorded[o.name] == fp
  }

  predicate FirstStands(objectives: seq<Objective>, recorded: map<string, Fingerprint>, fp: Fingerprint, i: int) {
    && 0 <= i < |objectives| && Stands(objectives[i], recorded, fp)
    && forall j | 0 <= j < i :: !Stands(objectives[j], recorded, fp)
  }

  /** The first objective recorded under `fp`, if there is one. */
  method PickRepresentative(objectives: seq<Objective>, recorded: map<string, Fingerprint>, fp: Fingerprint)
      returns (r: Option<Objective>)
    ensures r.Some? <==> Represented(objectives, recorded, fp)
    ensures r.Some? ==> r.value in objectives && Stands(r.value, recorded, fp)
    ensures r.Some? ==> exists i :: FirstStands(objectives, recorded, fp, i) && objectives[i] == r.value
  {
    for i := 0 to |objectives|
      invariant forall j | 0 <= j < i :: !Stands(objectives[j], recorded, fp)
    {
      if Stands(objectives[i], recorded, fp) {
        assert FirstStands(objectives, recorded, fp, i);
        return Some(objectives[i]);
      }
    }
    return None;
  }

  predicate Represented(objectives: seq<Objective>, recorded: map<string, Fingerprint>, fp: Fingerprint) {
    exists i | 0 <= i < |objectives| :: Stands(objectives[i], recorded, fp)
  }

  predicate DistinctNames(objectives: seq<Objective>) {
    forall i, j | 0 <= i < j < |objectives| :: objectives[i].name != objectives[j].name
  }

  lemma {:induction false} RecordedComesFrom(objectives: seq<Objective>, name: string)
      returns (i: nat)
    requires name in FingerprintsOf(objectives)
    ensures i < |objectives| && objectives[i].name == name
    ensures objectives[i].fp == Some(FingerprintsOf(objectives)[name])
  {
    var n := |objectives| - 1;
    if objectives[n].fp.Some? && objectives[n].name == name {
      i := n;
    } else {
      i := RecordedComesFrom(objectives[..n], name);
    }
  }

  /** No fingerprint the service computes is skipped for want of a representative; and with the
      distinct names that validation demands, the representative has that very fingerprint. */
  lemma ComputedAreRepresented(objectives: seq<Objective>, fp: Fingerprint)
    requires fp in FingerprintsOf(objectives).Values
    ensures Represented(objectives, FingerprintsOf(objectives), fp)
    ensures DistinctNames(objectives) ==> forall o | o in objectives ::
      Stands(o, FingerprintsOf(objectives), fp) <==> o.fp == Some(fp)
  {
    var recorded := FingerprintsOf(objectives);
    var name :| name in recorded && recorded[name] == fp;
    var i := RecordedComesFrom(objectives, name);
    assert Stands(objectives[i], recorded, fp);
    if DistinctNames(objectives) {
      forall j | 0 <= j < |objectives|
        ensures Stands(objectives[j], recorded, fp) <==> objectives[j].fp == Some(fp)
      {
        RecordedUnderName(objectives, j);
      }
    }
  }

  lemma {:induction false} RecordedUnderName(objectives: seq<Objective>, j: nat)
    requires j < |objectives| && DistinctNames(objectives)
    ensures var (name, recorded) := (objectives[j].name, FingerprintsOf(objectives));
      name in recorded <==> objectives[j].fp.Some?
    ensures var (name, recorded) := (objectives[j].name, FingerprintsOf(objectives));
      name in recorded ==> recorded[name] == objectives[j].fp.value
  {
    var n := |objectives| - 1;
    if j < n {
      RecordedUnderName(objectives[..n], j);
    } else {
      if objectives[j].name in FingerprintsOf(objectives[..n]) {
        var i := RecordedComesFrom(objectives[..n], objectives[j].name);
        assert false;
      }
    }
  }

  /** Without distinct names the representative can be an objective with another fingerprint. */
  lemma DuplicateNamesMislead(name: string, a: Fingerprint, b: Fingerprint)
    requires a != b
    ensures var objectives := [Objective(name, Some(a)), Objective(name, Some(b))];
      Stands(objectives[0], FingerprintsOf(objectives), b) && objectives[0].fp != Some(b)
  {
    var objectives := [Objective(name, Some(a)), Objective(name, Some(b))];
    assert objectives[..1] == [objectives[0]];
  }

  // ---------- the groups an SLO should have ----------

  ghost predicate Expected(doc: Doc, g: GroupName) {
    (g.Rec? && g.fp in doc.recordingFingerprints.Values) || Some(g) == doc.alertGroup
  }

  method DeriveExpectedGroups(doc: Doc) returns (names: seq<GroupName>)
    ensures forall g :: g in names <==> Expected(doc, g)
  {
    names := [];
    var todo := doc.recordingFingerprints.Values;
    while todo != {}
      invariant todo <= doc.recordingFingerprints.Values
      invariant forall g :: g in names <==> g.Rec? && g.fp in doc.recordingFingerprints.Values - todo
      decreases todo
    {
      var fp :| fp in todo;
      names, todo := names + [Rec(fp)], todo - {fp};
    }
    if doc.alertGroup.Some? { names := names + [doc.alertGroup.value]; }
  }

  // ---------- the ruler and the probe ----------

  datatype RulerCall = Get(group: GroupName) | Upsert(group: GroupName)

  datatype Outcome = Done | Refused | Lost

  /** What becomes of the n-th call to the ruler, whichever it is; nothing is assumed of it. */
  type Fate = (nat, RulerCall) -> Outcome

  /** Some call since then threw. */
  ghost predicate CallThrew(fate: Fate, made: seq<RulerCall>, since: nat) {
    exists n | since <= n < |made| :: fate(n, made[n]) != Done
  }

  lemma OneMade(fate: Fate, made: seq<RulerCall>, since: nat, c: RulerCall)
    requires since <= |made|
    ensures CallThrew(fate, made + [c], since) <==> CallThrew(fate, made, since) || fate(|made|, c) != Done
  {
    var later := made + [c];
    assert later[|made|] == c;
    assert forall n | since <= n < |made| :: later[n] == made[n];
  }

  lemma NoneMade(fate: Fate, made: seq<RulerCall>)
    ensures !CallThrew(fate, made, |made|)
  {
  }

  lemma CallsSplit(fate: Fate, made: seq<RulerCall>, later: seq<RulerCall>, since: nat)
    requires made <= later && since <= |made|
    ensures CallThrew(fate, later, since) <==> CallThrew(fate, made, since) || CallThrew(fate, later, |made|)
  {
  }

  class Ruler {
    const fate: Fate
    var made: seq<RulerCall>
    var groups: map<GroupName, Rules>

    /** None when there is no such group, or when the call throws. */
    method GetRuleGroup(g: GroupName) returns (found: Option<Rules>, done: bool)
      modifies this`made
      ensures made == old(made) + [Get(g)] && (done <==> fate(|old(made)|, Get(g)) == Done)
      ensures done ==> found == if g in groups then Some(groups[g]) else None
    {
      var outcome := fate(|made|, Get(g));
      made := made + [Get(g)];
      if outcome != Done { return None, false; }
      return if g in groups then Some(groups[g]) else None, true;
    }

    /** Replaces the group; may throw, with or without having done so. */
    method UpsertRuleGroup(g: GroupName) returns (done: bool)
      modifies this
      ensures made == old(made) + [Upsert(g)] && (done <==> fate(|old(made)|, Upsert(g)) == Done)
      ensures groups == old(groups)[g := Rules(true)] || (!done && groups == old(groups))
    {
      var outcome := fate(|made|, Upsert(g));
      made := made + [Upsert(g)];
      if outcome != Refused { groups := groups[g := Rules(true)]; }
      done := outcome == Done;
    }

    /** Calls were made since then; all was well exactly when none of them threw. */
    ghost predicate Went(before: seq<RulerCall>, ok: bool)
      reads this
    {
      before <= made && (ok <==> !CallThrew(fate, made, |before|))
    }
  }

  datatype Health = Ok | Partial | Missing | Unreachable

  datatype Report = Report(health: Health, present: seq<GroupName>, outdated: seq<GroupName>)

  predicate Outdated(groups: map<GroupName, Rules>, g: GroupName) {
    g.Rec? && g in groups && !groups[g].current
  }

  /** Every group is there and none has recording rules of an older version. */
  predicate AllHealthy(groups: map<GroupName, Rules>, names: seq<GroupName>) {
    forall i | 0 <= i < |names| :: names[i] in groups && !Outdated(groups, names[i])
  }

  predicate SaysHealthy(report: Report) { report.health == Ok && report.outdated == [] }

  /** A cached report, and the time in milliseconds from which it is no longer served. */
  datatype Entry = Entry(report: Report, expiresAt: int)

  const Ttl: int := 30_000

  predicate Live(cache: Option<Entry>, now: int) { cache.Some? && cache.value.expiresAt > now }

  /** The rule-health probe with its cache; a ruler that cannot be reached is reported as such. */
  class HealthProbe {
    const ruler: Ruler
    var cache: Option<Entry>

    constructor (ruler: Ruler)
      ensures this.ruler == ruler && cache == None
    {
      this.ruler, cache := ruler, None;
    }

    /** The cached report, if any, is about the groups the ruler has now. */
    ghost predicate Accurate(names: seq<GroupName>)
      reads this, ruler
    {
      cache.Some? && cache.value.report.health != Unreachable ==>
        (SaysHealthy(cache.value.report) <==> AllHealthy(ruler.groups, names))
    }

    /** Asks for every group; the ruler counts as unreachable when one of the calls throws. */
    method Probe(names: seq<GroupName>) returns (report: Report)
      modifies ruler`made
      ensures ruler.Went(old(ruler.made), report.health != Unreachable)
      ensures report.health != Unreachable ==> (SaysHealthy(report) <==> AllHealthy(ruler.groups, names))
    {
      hide CallThrew;
      var present, outdated := [], [];
      var reached := true;
      ghost var start := ruler.made;
      NoneMade(ruler.fate, start);
      for i := 0 to |names|
        invariant start <= ruler.made && (reached <==> !CallThrew(ruler.fate, ruler.made, |start|))
        invariant reached ==> |present| <= i
        invariant reached ==> (|present| == i <==> forall j | 0 <= j < i :: names[j] in ruler.groups)
        invariant reached ==> (outdated == [] <==> forall j | 0 <= j < i :: !Outdated(ruler.groups, names[j]))
      {
        OneMade(ruler.fate, ruler.made, |start|, Get(names[i]));
        var found, done := ruler.GetRuleGroup(names[i]);
        if !done { reached := false; }
        if found.Some? {
          present := present + [names[i]];
          if names[i].Rec? && !found.value.current { outdated := outdated + [names[i]]; }
        }
      }
      if !reached { return Report(Unreachable, [], []); }
      var health := if |present| == |names| then Ok else if |present| == 0 then Missing else Partial;
      return Report(health, present, outdated);
    }

    /** A live entry is served as it is and keeps its expiry; otherwise the report is fresh and is
        served for thirty seconds. */
    method Check(names: seq<GroupName>, now: int) returns (report: Report)
      modifies this`cache, ruler`made
      ensures old(Live(cache, now)) ==>
        cache == old(cache) && report == old(cache.value.report) && ruler.made == old(ruler.made)
      ensures !old(Live(cache, now)) ==> ruler.Went(old(ruler.made), report.health != Unreachable)
      ensures !old(Live(cache, now)) ==> cache == Some(Entry(report, now + Ttl)) && Accurate(names)
      ensures old(Accurate(names)) ==> Accurate(names)
      ensures (!old(Live(cache, now)) || old(Accurate(names))) && report.health != Unreachable ==>
        (SaysHealthy(report) <==> AllHealthy(ruler.groups, names))
    {
      if cache.Some? && cache.value.expiresAt > now { return cache.value.report; }
      if cache.Some? { cache := None; }
      report := Probe(names);
      cache := Some(Entry(report, now + Ttl));
    }

    method Invalidate()
      modifies this`cache
      ensures cache == None
    {
      cache := None;
    }
  }

  // ---------- repair ----------

  /** The ruler after a repair from workspace `ws`: what has a representative, and the alert group
      under the name that workspace gives it. */
  ghost predicate Provisions(doc: Doc, ws: Workspace, g: GroupName) {
    match g
    case Rec(fp) =>
      fp in doc.recordingFingerprints.Values && Represented(doc.objectives, doc.recordingFingerprints, fp)
    case Alerts(slug, w, id) => slug == doc.slug && w == ws && id == doc.id
  }

  /** `after` is `before` with the groups of `done` replaced by current ones. */
  ghost predicate Replaced(before: map<GroupName, Rules>, after: map<GroupName, Rules>, done: iset<GroupName>) {
    && (forall g :: g in after <==> g in before || g in done)
    && (forall g | g in after :: after[g] == if g in done then Rules(true) else before[g])
  }

  /** What a repair leaves that stopped halfway: every group is as it was, or is one that the repair
      provisions and current. */
  ghost predicate PartlyReplaced(doc: Doc, ws: Workspace, before: map<GroupName, Rules>, after: map<GroupName, Rules>) {
    && (forall g | g in before :: g in after)
    && (forall g | g in after ::
          (g in before && after[g] == before[g]) || (Provisions(doc, ws, g) && after[g] == Rules(true)))
  }

  datatype Result = Untouched(report: Report) | Repaired(report: Report) | NoRuler | Threw

  /** Repair touches the ruler and the probe's cache, and nothing else: no count, no document. */
  method RepairDedup(doc: Doc, ws: Workspace, ruler: Ruler, health: HealthProbe, now: int, later: int)
      returns (r: Result, ghost names: seq<GroupName>)
    requires health.ruler == ruler
    modifies ruler, health`cache
    ensures forall g :: g in names <==> Expected(doc, g)
    ensures r.Threw? ==> ruler.Went(old(ruler.made), false)
    ensures r.NoRuler? ==> (ruler.Went(old(ruler.made), false)
      || old(Live(health.cache, now) && health.cache.value.report.health == Unreachable))
    ensures r.Untouched? || r.NoRuler? ==> ruler.groups == old(ruler.groups)
    ensures r.Untouched? ==> SaysHealthy(r.report)
    ensures r.Untouched? ==> if old(Live(health.cache, now)) then r.report == old(health.cache.value.report)
      else health.cache == Some(Entry(r.report, now + Ttl)) && health.Accurate(names)
    ensures r.Untouched? && old(Live(health.cache, now)) ==> health.cache == old(health.cache)
    ensures r.Repaired? ==> Replaced(old(ruler.groups), ruler.groups, iset g | Provisions(doc, ws, g))
    ensures r.Repaired? ==> health.cache == Some(Entry(r.report, later + Ttl)) && health.Accurate(names)
    ensures r.Threw? ==> PartlyReplaced(doc, ws, old(ruler.groups), ruler.groups)
    ensures (old(health.Accurate(names)) || !old(Live(health.cache, now))) && AllHealthy(old(ruler.groups), names)
      ==> r.Untouched? || r.NoRuler?
  {
    hide CallThrew;
    ghost var start := ruler.made;
    var expected := DeriveExpectedGroups(doc);
    names := expected;
    var pre := health.Check(expected, now);
    if SaysHealthy(pre) { return Untouched(pre), names; }
    if pre.health == Unreachable { return NoRuler, names; }
    ghost var probed := ruler.made;
    var ok := ProvisionGroups(doc, ws, ruler);
    CallsSplit(ruler.fate, probed, ruler.made, |start|);
    if !ok { return Threw, names; }
    health.Invalidate();
    var post := health.Check(expected, later);
    return Repaired(post), names;
  }

  method ProvisionGroups(doc: Doc, ws: Workspace, ruler: Ruler) returns (ok: bool)
    modifies ruler
    ensures ruler.Went(old(ruler.made), ok)
    ensures ok ==> Replaced(old(ruler.groups), ruler.groups, iset g | Provisions(doc, ws, g))
    ensures PartlyReplaced(doc, ws, old(ruler.groups), ruler.groups)
  {
    hide CallThrew;
    ghost var done: iset<GroupName> := iset{};
    ghost var start := ruler.made;
    NoneMade(ruler.fate, start);
    var todo := doc.recordingFingerprints.Values;
    while todo != {}
      invariant todo <= doc.recordingFingerprints.Values
      invariant Replaced(old(ruler.groups), ruler.groups, done) && ruler.Went(start, true)
      invariant done == iset g: GroupName | g.Rec? && Provisions(doc, ws, g) && g.fp !in todo
      decreases todo
    {
      var fp :| fp in todo;
      var representative := PickRepresentative(doc.objectives, doc.recordingFingerprints, fp);
      if representative.Some? {
        OneMade(ruler.fate, ruler.made, |start|, Upsert(Rec(fp)));
        ok := ruler.UpsertRuleGroup(Rec(fp));
        if !ok { return; }
        done := done + iset{Rec(fp)};
      }
      todo := todo - {fp};
    }
    OneMade(ruler.fate, ruler.made, |start|, Upsert(Alerts(doc.slug, ws, doc.id)));
    ok := ruler.UpsertRuleGroup(Alerts(doc.slug, ws, doc.id));
  }

  // ---------- repair establishes health ----------

  /** Every recorded fingerprint belongs to an objective, as create and update record them. */
  predicate WellRecorded(doc: Doc) {
    forall fp | fp in doc.recordingFingerprints.Values ::
      Represented(doc.objectives, doc.recordingFingerprints, fp)
  }

  lemma ServiceDocsAreWellRecorded(doc: Doc)
    requires doc.recordingFingerprints == FingerprintsOf(doc.objectives)
    ensures WellRecorded(doc)
  {
    forall fp | fp in doc.recordingFingerprints.Values
      ensures Represented(doc.objectives, doc.recordingFingerprints, fp)
    {
      ComputedAreRepresented(doc.objectives, fp);
    }
  }

  /** After a repair every expected group is on the ruler and current, exactly when the repair ran in
      the workspace the SLO was created in, or the alert group had not been lost. */
  lemma RepairHeals(doc: Doc, home: Workspace, ws: Workspace,
                    before: map<GroupName, Rules>, after: map<GroupName, Rules>, names: seq<GroupName>)
    requires WellRecorded(doc) && doc.alertGroup == Some(Alerts(doc.slug, home, doc.id))
    requires forall g :: g in names <==> Expected(doc, g)
    requires Replaced(before, after, iset g | Provisions(doc, ws, g))
    ensures AllHealthy(after, names) <==> ws == home || doc.alertGroup.value in before
  {
    forall i | 0 <= i < |names| && names[i].Rec?
      ensures names[i] in after && !Outdated(after, names[i])
    {
      assert names[i] in names && Provisions(doc, ws, names[i]);
    }
    var alert := doc.alertGroup.value;
    forall i | 0 <= i < |names| && !names[i].Rec? ensures names[i] == alert {
      assert names[i] in names && Expected(doc, names[i]);
    }
    assert alert in names && !Outdated(after, alert);
    assert Provisions(doc, ws, alert) <==> ws == home;
    assert alert in after <==> ws == home || alert in before;
  }

  /** Repairing twice in the home workspace, whatever the clock says: the second call changes nothing on the ruler. */
  method RepairTwice(doc: Doc, home: Workspace, ruler: Ruler, health: HealthProbe,
                     t0: int, t1: int, t2: int, t3: int)
      returns (first: Result, second: Result)
    requires health.ruler == ruler
    requires WellRecorded(doc) && doc.alertGroup == Some(Alerts(doc.slug, home, doc.id))
    modifies ruler, health`cache
    ensures first.Repaired? ==> second.Untouched? || second.NoRuler?
  {
    ghost var before := ruler.groups;
    ghost var names;
    first, names := RepairDedup(doc, home, ruler, health, t0, t1);
    if first.Repaired? { RepairHeals(doc, home, home, before, ruler.groups, names); }
    ghost var groups := ruler.groups;
    ghost var again;
    second, again := RepairDedup(doc, home, ruler, health, t2, t3);
    if first.Repaired? {
      SameHealth(names, again, groups);
    }
  }

  /** Health depends on which groups are expected, not on their order. */
  lemma SameHealth(names: seq<GroupName>, other: seq<GroupName>, groups: map<GroupName, Rules>)
    requires forall g :: g in names <==> g in other
    ensures AllHealthy(groups, names) == AllHealthy(groups, other)
  {
    assert forall i | 0 <= i < |names| :: names[i] in other;
    assert forall i | 0 <= i < |other| :: other[i] in names;
  }
}
