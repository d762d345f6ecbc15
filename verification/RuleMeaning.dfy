/** The two generation paths mean the same: the same alerts under the same names, firing in the same
    states; and every recorded series that an alert reads is emitted beside it. */
module RuleMeaning {
  import opened Options
  import opened Windows
  import opened RuleGroups

  // ---------- the same alerts ----------

  /** The same test over the legacy series of the objective and over the fingerprint's series. */
  ghost predicate SameTest(nm: Naming, id: string, o: Objective, fp: string, l: Expr, d: Expr) {
    || (l.Absent? && l == d)
    || (l.Above? && exists w :: l == Above(LegacyRef(nm, id, o, w), l.threshold)
                                && d == Above(DedupRef(fp, w), l.threshold))
    || (l.BudgetBelow? && exists w :: l == BudgetBelow(LegacyRef(nm, id, o, w), l.budget, l.below)
                                      && d == BudgetBelow(DedupRef(fp, w), l.budget, l.below))
    || (l.Both? && exists v, w ::
          && l == Both(LegacyRef(nm, id, o, v), LegacyRef(nm, id, o, w), l.threshold)
          && d == Both(DedupRef(fp, v), DedupRef(fp, w), l.threshold))
  }

  ghost predicate SameAlert(nm: Naming, id: string, o: Objective, fp: string, l: Alert, d: Alert) {
    l.name == d.name && l.wait == d.wait && l.labels == d.labels && SameTest(nm, id, o, fp, l.expr, d.expr)
  }

  ghost predicate SameAlerts(nm: Naming, id: string, o: Objective, fp: string, ls: seq<Alert>, ds: seq<Alert>) {
    |ls| == |ds| && forall i | 0 <= i < |ls| :: SameAlert(nm, id, o, fp, ls[i], ds[i])
  }

  lemma SameJoined(nm: Naming, id: string, o: Objective, fp: string,
                   ls: seq<Alert>, ds: seq<Alert>, ls': seq<Alert>, ds': seq<Alert>)
    requires SameAlerts(nm, id, o, fp, ls, ds) && SameAlerts(nm, id, o, fp, ls', ds')
    ensures SameAlerts(nm, id, o, fp, ls + ls', ds + ds')
  {
  }

  lemma SameBurnRate(spec: Spec, nm: Naming, id: string, o: Objective, fp: string, i: nat)
    requires i < |spec.tiers|
    ensures SameAlert(nm, id, o, fp, BurnRateAlert(spec, nm, id, o, i), DedupBurnRateAlert(spec, nm, id, o, fp, i))
  {
    hide LegacyRef, DedupRef, TierLabelsOf, BurnRateName, ErrorBudget;
    var t := spec.tiers[i];
    assert BurnRateAlert(spec, nm, id, o, i).expr.short == LegacyRef(nm, id, o, t.shortWindow);
  }

  lemma {:induction false} SameBurnRates(spec: Spec, nm: Naming, id: string, o: Objective, fp: string, n: nat)
    requires n <= |spec.tiers|
    ensures SameAlerts(nm, id, o, fp, BurnRateAlerts(spec, nm, id, o, n), DedupBurnRateAlerts(spec, nm, id, o, fp, n))
  {
    hide SameAlert, BurnRateAlert, DedupBurnRateAlert;
    if n > 0 {
      SameBurnRates(spec, nm, id, o, fp, n - 1);
      SameBurnRate(spec, nm, id, o, fp, n - 1);
    }
  }

  lemma OneWarning(spec: Spec, nm: Naming, id: string, o: Objective, fp: string, w: string, name: string,
                   labels: Labels, below: real)
    ensures SameAlert(nm, id, o, fp,
      Alert(name, BudgetBelow(LegacyRef(nm, id, o, w), nm.round(ErrorBudget(o)), below), "15m", labels),
      Alert(name, BudgetBelow(DedupRef(fp, w), nm.round(ErrorBudget(o)), below), "15m", labels))
  {
    hide LegacyRef, DedupRef, ErrorBudget;
  }

  lemma {:induction false} SameWarnings(spec: Spec, nm: Naming, id: string, o: Objective, fp: string, n: nat)
    requires n <= |spec.warnings|
    ensures SameAlerts(nm, id, o, fp, WarningAlerts(spec, nm, id, o, n), DedupWarningAlerts(spec, nm, id, o, fp, n))
  {
    hide LegacyRef, DedupRef, WarningLabels, WarningName, ErrorBudget, SameAlert;
    if n > 0 && spec.rolling.Some? {
      SameWarnings(spec, nm, id, o, fp, n - 1);
      var (w, bw) := (FindClosestRecordingWindow(spec.rolling.value), spec.warnings[n - 1]);
      OneWarning(spec, nm, id, o, fp, w, WarningName(spec, nm, o, n - 1), WarningLabels(spec, nm, id, o, w, bw),
                 nm.round(bw.threshold));
    }
  }

  lemma SameOthers(spec: Spec, nm: Naming, id: string, o: Objective, fp: string)
    ensures SameAlerts(nm, id, o, fp, SliHealthAlerts(spec, nm, id, o), DedupSliHealthAlerts(spec, nm, id, o, fp))
    ensures SameAlerts(nm, id, o, fp, AttainmentAlerts(spec, nm, id, o), DedupAttainmentAlerts(spec, nm, id, o, fp))
    ensures SameAlerts(nm, id, o, fp, NoDataAlerts(spec, nm, id, o), NoDataAlerts(spec, nm, id, o))
  {
    hide LegacyRef, DedupRef, SliHealthLabels, AttainmentLabels, CommonLabels, Tail, ErrorBudget;
  }

  /** Alert by alert, the deduplicating path emits the names, labels, durations and thresholds of the
      single-group path. */
  lemma SameObjective(spec: Spec, nm: Naming, id: string, o: Objective, fp: string)
    ensures SameAlerts(nm, id, o, fp, LegacyAlerts(spec, nm, id, o), DedupAlerts(spec, nm, id, o, fp))
  {
    hide SameAlerts, BurnRateAlerts, DedupBurnRateAlerts, SliHealthAlerts, DedupSliHealthAlerts, AttainmentAlerts,
         DedupAttainmentAlerts, WarningAlerts, DedupWarningAlerts, NoDataAlerts;
    var n := if spec.mwmbr then |spec.tiers| else 0;
    SameBurnRates(spec, nm, id, o, fp, n);
    SameOthers(spec, nm, id, o, fp);
    SameWarnings(spec, nm, id, o, fp, |spec.warnings|);
    var (b, b') := (BurnRateAlerts(spec, nm, id, o, n), DedupBurnRateAlerts(spec, nm, id, o, fp, n));
    var (h, h') := (SliHealthAlerts(spec, nm, id, o), DedupSliHealthAlerts(spec, nm, id, o, fp));
    var (a, a') := (AttainmentAlerts(spec, nm, id, o), DedupAttainmentAlerts(spec, nm, id, o, fp));
    var (w, w') := (WarningAlerts(spec, nm, id, o, |spec.warnings|), DedupWarningAlerts(spec, nm, id, o, fp, |spec.warnings|));
    SameJoined(nm, id, o, fp, b, b', h, h');
    SameJoined(nm, id, o, fp, b + h, b' + h', a, a');
    SameJoined(nm, id, o, fp, b + h + a, b' + h' + a', w, w');
    SameJoined(nm, id, o, fp, b + h + a + w, b' + h' + a' + w', NoDataAlerts(spec, nm, id, o), NoDataAlerts(spec, nm, id, o));
  }

  // ---------- the whole group ----------

  function AlertsOf(rules: seq<Rule>): seq<Alert> {
    if rules == [] then []
    else AlertsOf(rules[..|rules| - 1]) + (if rules[|rules| - 1].Alerting? then [rules[|rules| - 1].alert] else [])
  }

  lemma {:induction false} AlertsJoined(a: seq<Rule>, b: seq<Rule>)
    ensures AlertsOf(a + b) == AlertsOf(a) + AlertsOf(b)
  {
    if b == [] {
      assert a + b == a;
    } else {
      assert (a + b)[..|a + b| - 1] == a + b[..|b| - 1];
      AlertsJoined(a, b[..|b| - 1]);
    }
  }

  lemma {:induction false} RecordingsHaveNoAlerts(rules: seq<Rule>)
    requires forall i | 0 <= i < |rules| :: rules[i].Recording?
    ensures AlertsOf(rules) == []
  {
    if rules != [] { RecordingsHaveNoAlerts(rules[..|rules| - 1]); }
  }

  lemma {:induction false} AlertsOfAlerts(alerts: seq<Alert>)
    ensures AlertsOf(AsRules(alerts)) == alerts
  {
    if alerts != [] {
      var n := |alerts| - 1;
      AlertsOfAlerts(alerts[..n]);
      assert AsRules(alerts)[..n] == AsRules(alerts[..n]);
      assert alerts == alerts[..n] + [alerts[n]];
    }
  }

  lemma ObjectiveAlerts(spec: Spec, nm: Naming, id: string, o: Objective)
    ensures AlertsOf(ObjectiveRules(spec, nm, id, o)) == LegacyAlerts(spec, nm, id, o)
  {
    hide LegacyAlerts, AlertsOf;
    var alerts := LegacyAlerts(spec, nm, id, o);
    AlertsOfAlerts(alerts);
    var recorded := if spec.prometheus then RecordingRules(spec, nm, id, o, |RecordingWindows|) else [];
    RecordingsHaveNoAlerts(recorded);
    AlertsJoined(recorded, AsRules(alerts));
    assert [] + alerts == alerts;
  }

  /** The objective and fingerprint behind each alert of the two groups. */
  ghost predicate SameGroups(spec: Spec, nm: Naming, id: string, fps: Labels, ls: seq<Alert>, ds: seq<Alert>) {
    && |ls| == |ds|
    && forall i | 0 <= i < |ls| ::
         exists o | o in spec.objectives :: o.name in fps && SameAlert(nm, id, o, fps[o.name], ls[i], ds[i])
  }

  lemma GroupsJoined(spec: Spec, nm: Naming, id: string, fps: Labels, ls: seq<Alert>, ds: seq<Alert>,
                     o: Objective, ls': seq<Alert>, ds': seq<Alert>)
    requires SameGroups(spec, nm, id, fps, ls, ds) && o in spec.objectives && o.name in fps
    requires SameAlerts(nm, id, o, fps[o.name], ls', ds')
    ensures SameGroups(spec, nm, id, fps, ls + ls', ds + ds')
  {
    hide SameAlert;
    forall i | |ls| <= i < |ls + ls'|
      ensures SameAlert(nm, id, o, fps[o.name], (ls + ls')[i], (ds + ds')[i])
    {
      assert SameAlert(nm, id, o, fps[o.name], ls'[i - |ls|], ds'[i - |ls|]);
    }
  }

  /** When every objective has a fingerprint, the dedup alert group is the alerts of the single
      group, one for one and in order. */
  lemma {:induction false} DedupIsLegacy(spec: Spec, nm: Naming, id: string, fps: Labels, n: nat)
    requires n <= |spec.objectives|
    requires forall o | o in spec.objectives :: o.name in fps && fps[o.name] != ""
    ensures SameGroups(spec, nm, id, fps, AlertsOf(LegacyGroup(spec, nm, id, n)), DedupAlertGroup(spec, nm, id, fps, n))
  {
    hide LegacyAlerts, DedupAlerts, SameAlerts, SameGroups, AlertsOf, ObjectiveRules;
    if n > 0 && spec.single {
      DedupIsLegacy(spec, nm, id, fps, n - 1);
      var o := spec.objectives[n - 1];
      assert o in spec.objectives;
      AlertsJoined(LegacyGroup(spec, nm, id, n - 1), ObjectiveRules(spec, nm, id, o));
      ObjectiveAlerts(spec, nm, id, o);
      SameObjective(spec, nm, id, o, fps[o.name]);
      GroupsJoined(spec, nm, id, fps, AlertsOf(LegacyGroup(spec, nm, id, n - 1)), DedupAlertGroup(spec, nm, id, fps, n - 1),
                   o, LegacyAlerts(spec, nm, id, o), DedupAlerts(spec, nm, id, o, fps[o.name]));
    } else {
      NoAlerts(spec, nm, id, fps);
    }
  }

  lemma NoAlerts(spec: Spec, nm: Naming, id: string, fps: Labels)
    ensures AlertsOf([]) == [] && SameGroups(spec, nm, id, fps, [], [])
  {
  }

  // ---------- the same states ----------

  datatype Sample = Sample(labels: Labels, value: real)

  /** Recorded samples by series name, and which raw selectors are absent over which time. */
  datatype Store = Store(samples: string -> seq<Sample>, absent: (string, string) -> bool)

  /** The samples a reference selects. */
  predicate Selects(r: Ref, s: Sample) {
    r.sloId.Some? ==> "slo_id" in s.labels && s.labels["slo_id"] == r.sloId.value
  }

  ghost predicate Reads(store: Store, r: Ref, s: Sample) { s in store.samples(r.series) && Selects(r, s) }

  /** `and ignoring(slo_window)`: the label sets agree but for the window. */
  predicate Matched(a: Sample, b: Sample) { a.labels - {"slo_window"} == b.labels - {"slo_window"} }

  /** `1 - value / budget < below`; dividing by zero gives an infinity of the value's sign. */
  predicate Below(value: real, budget: real, below: real) {
    if budget == 0.0 then value > 0.0 else 1.0 - value / budget < below
  }

  /** The alert expression has at least one sample. */
  ghost predicate Fires(store: Store, e: Expr) {
    match e
    case Absent(source, over) => store.absent(source, over)
    case Above(r, t) => exists s :: Reads(store, r, s) && s.value > t
    case BudgetBelow(r, budget, below) => exists s :: Reads(store, r, s) && Below(s.value, budget, below)
    case Both(short, long, t) =>
      exists a, b :: Reads(store, short, a) && a.value > t && Reads(store, long, b) && b.value > t && Matched(a, b)
  }

  /** The one sample per window that the recording rules of either path leave, where the SLI had a
      value: the single-group path labels it with the SLO, the other does not. */
  ghost predicate HoldsRatios(spec: Spec, nm: Naming, id: string, o: Objective, fp: string,
                              legacy: Store, dedup: Store, ratio: map<string, real>) {
    && legacy.absent == dedup.absent
    && (forall w :: legacy.samples(LegacySeries(nm, o, w))
          == if w in ratio then [Sample(LegacyLabels(spec, id, o, w), ratio[w])] else [])
    && (forall w :: dedup.samples(DedupSeries(fp, w))
          == if w in ratio then [Sample(DedupLabels(w), ratio[w])] else [])
  }

  function LegacyLabels(spec: Spec, id: string, o: Objective, w: string): Labels {
    CommonLabels(spec, id, o)["slo_window" := w][Version := RulesVersion]
  }

  function DedupLabels(w: string): Labels { map["slo_window" := w, Version := RulesVersion] }

  /** Rule by rule, the shared group of an objective's own SLI and threshold records what the single
      group records for it: the same expression over the same window, without the SLO's labels. */
  lemma SameRecordings(spec: Spec, nm: Naming, id: string, o: Objective, fp: string)
    ensures var own := RecordingRules(spec, nm, id, o, |RecordingWindows|);
      var shared := RecordingGroup(fp, window => spec.ratioExpr(o.latencyThreshold, window), |RecordingWindows|);
      |own| == |shared| == |RecordingWindows| && forall i | 0 <= i < |own| ::
        var w := RecordingWindows[i];
        && own[i].name == LegacySeries(nm, o, w) && shared[i].name == DedupSeries(fp, w)
        && own[i].expr == shared[i].expr == spec.ratioExpr(o.latencyThreshold, w)
        && own[i].labels == LegacyLabels(spec, id, o, w) && shared[i].labels == DedupLabels(w)
  {
    hide LegacySeries, DedupSeries, CommonLabels;
  }

  /** User labels are prefixed, so they never hide the labels the generator sets. */
  predicate LabelsPrefixed(spec: Spec) { forall k | k in spec.userLabels :: "slo_label_" <= k }

  lemma IdIsKept(spec: Spec, id: string, o: Objective, w: string)
    requires LabelsPrefixed(spec)
    ensures "slo_id" in LegacyLabels(spec, id, o, w) && LegacyLabels(spec, id, o, w)["slo_id"] == id
  {
    assert !("slo_label_" <= "slo_id");
  }

  lemma LegacyReads(spec: Spec, nm: Naming, id: string, o: Objective, fp: string,
                    legacy: Store, dedup: Store, ratio: map<string, real>, w: string, s: Sample)
    requires LabelsPrefixed(spec) && HoldsRatios(spec, nm, id, o, fp, legacy, dedup, ratio)
    ensures Reads(legacy, LegacyRef(nm, id, o, w), s) <==> w in ratio && s == Sample(LegacyLabels(spec, id, o, w), ratio[w])
    ensures Reads(dedup, DedupRef(fp, w), s) <==> w in ratio && s == Sample(DedupLabels(w), ratio[w])
  {
    hide LegacyLabels, DedupLabels, LegacySeries, DedupSeries;
    IdIsKept(spec, id, o, w);
  }

  /** A burn-rate alert fires in either path exactly when both ratios exceed its threshold. */
  lemma BurnRateFires(spec: Spec, nm: Naming, id: string, o: Objective, fp: string,
                      legacy: Store, dedup: Store, ratio: map<string, real>, v: string, w: string, t: real)
    requires LabelsPrefixed(spec) && HoldsRatios(spec, nm, id, o, fp, legacy, dedup, ratio)
    ensures var both := v in ratio && w in ratio && ratio[v] > t && ratio[w] > t;
      && (Fires(legacy, Both(LegacyRef(nm, id, o, v), LegacyRef(nm, id, o, w), t)) <==> both)
      && (Fires(dedup, Both(DedupRef(fp, v), DedupRef(fp, w), t)) <==> both)
  {
    hide HoldsRatios, Reads, LegacyRef, DedupRef;
    forall x, s: Sample
      ensures Reads(legacy, LegacyRef(nm, id, o, x), s) <==> x in ratio && s == Sample(LegacyLabels(spec, id, o, x), ratio[x])
      ensures Reads(dedup, DedupRef(fp, x), s) <==> x in ratio && s == Sample(DedupLabels(x), ratio[x])
    {
      LegacyReads(spec, nm, id, o, fp, legacy, dedup, ratio, x, s);
    }
    if v in ratio && w in ratio {
      LabelsMatch(spec, id, o, v, w);
      var (a, b) := (Sample(LegacyLabels(spec, id, o, v), ratio[v]), Sample(LegacyLabels(spec, id, o, w), ratio[w]));
      assert Matched(a, b) && Reads(legacy, LegacyRef(nm, id, o, v), a) && Reads(legacy, LegacyRef(nm, id, o, w), b);
      var (c, d) := (Sample(DedupLabels(v), ratio[v]), Sample(DedupLabels(w), ratio[w]));
      assert Matched(c, d) && Reads(dedup, DedupRef(fp, v), c) && Reads(dedup, DedupRef(fp, w), d);
    }
  }

  lemma LabelsMatch(spec: Spec, id: string, o: Objective, v: string, w: string)
    ensures LegacyLabels(spec, id, o, v) - {"slo_window"} == LegacyLabels(spec, id, o, w) - {"slo_window"}
    ensures DedupLabels(v) - {"slo_window"} == DedupLabels(w) - {"slo_window"}
  {
    hide CommonLabels;
  }

  /** Corresponding alerts fire in the same states, once both recording series hold the shared ratio. */
  lemma SameFiring(spec: Spec, nm: Naming, id: string, o: Objective, fp: string,
                   legacy: Store, dedup: Store, ratio: map<string, real>, l: Expr, d: Expr)
    requires LabelsPrefixed(spec) && HoldsRatios(spec, nm, id, o, fp, legacy, dedup, ratio)
    requires SameTest(nm, id, o, fp, l, d)
    ensures Fires(legacy, l) <==> Fires(dedup, d)
  {
    hide Reads, LegacyRef, DedupRef, LegacyLabels, DedupLabels, Matched;
    forall x, s: Sample
      ensures Reads(legacy, LegacyRef(nm, id, o, x), s) <==> x in ratio && s == Sample(LegacyLabels(spec, id, o, x), ratio[x])
      ensures Reads(dedup, DedupRef(fp, x), s) <==> x in ratio && s == Sample(DedupLabels(x), ratio[x])
    {
      LegacyReads(spec, nm, id, o, fp, legacy, dedup, ratio, x, s);
    }
    if l.Both? {
      var v, w :| l == Both(LegacyRef(nm, id, o, v), LegacyRef(nm, id, o, w), l.threshold)
        && d == Both(DedupRef(fp, v), DedupRef(fp, w), l.threshold);
      BurnRateFires(spec, nm, id, o, fp, legacy, dedup, ratio, v, w, l.threshold);
    } else if !l.Absent? {
      var w := OneWindow(nm, id, o, fp, l, d);
      if w in ratio {
        assert Reads(legacy, LegacyRef(nm, id, o, w), Sample(LegacyLabels(spec, id, o, w), ratio[w]));
        assert Reads(dedup, DedupRef(fp, w), Sample(DedupLabels(w), ratio[w]));
      }
    }
  }

  lemma OneWindow(nm: Naming, id: string, o: Objective, fp: string, l: Expr, d: Expr) returns (w: string)
    requires SameTest(nm, id, o, fp, l, d) && (l.Above? || l.BudgetBelow?)
    ensures l.Above? ==> l == Above(LegacyRef(nm, id, o, w), l.threshold) && d == Above(DedupRef(fp, w), l.threshold)
    ensures l.BudgetBelow? ==> l == BudgetBelow(LegacyRef(nm, id, o, w), l.budget, l.below)
                               && d == BudgetBelow(DedupRef(fp, w), l.budget, l.below)
  {
    if l.Above? {
      w :| l == Above(LegacyRef(nm, id, o, w), l.threshold) && d == Above(DedupRef(fp, w), l.threshold);
    } else {
      w :| l == BudgetBelow(LegacyRef(nm, id, o, w), l.budget, l.below)
        && d == BudgetBelow(DedupRef(fp, w), l.budget, l.below);
    }
  }
}
