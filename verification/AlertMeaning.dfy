/** What the generated alerts mean: when each fires, told from the error ratios and the target, and
    what it tells its receiver. */
module AlertMeaning {
  import opened Options
  import opened Windows
  import opened RuleGroups
  import opened RuleMeaning
  import RuleClosure
  import RuleNames

  type Kind = RuleNames.Kind

  predicate IsAlert(spec: Spec, k: Kind) {
    match k
    case Record(_) => false
    case Burn(i) => i < |spec.tiers|
    case Health => true
    case Attain => spec.rolling.Some?
    case Warn(i) => i < |spec.warnings| && spec.rolling.Some?
    case NoData => spec.source.Some?
  }

  /** Which alerts an SLO has. */
  predicate Wanted(spec: Spec, k: Kind) {
    && !spec.shadow && IsAlert(spec, k)
    && match k
       case Record(_) => false
       case Burn(i) => spec.mwmbr && spec.tiers[i].createAlarm
       case Health => spec.sliHealth
       case Attain => spec.attainment
       case Warn(_) => spec.budgetWarning
       case NoData => spec.noData && spec.single && spec.prometheus
  }

  // ---------- when an alert is due ----------

  predicate Exceeds(ratio: map<string, real>, window: string, bound: real) {
    window in ratio && ratio[window] > bound
  }

  function Times(x: real, y: real): real { x * y }

  function TierBound(nm: Naming, t: Tier, o: Objective): real { nm.round(Times(t.multiplier, 1.0 - o.target)) }

  /** `1 - target` is the error budget. A burn rate is too high when both windows consume the budget
      faster than the tier allows; a warning is due when too little of the budget remains. */
  predicate Due(spec: Spec, nm: Naming, o: Objective, ratio: map<string, real>, absent: (string, string) -> bool, k: Kind)
    requires IsAlert(spec, k)
  {
    match k
    case Burn(i) =>
      var t := spec.tiers[i];
      Exceeds(ratio, t.shortWindow, TierBound(nm, t, o)) && Exceeds(ratio, t.longWindow, TierBound(nm, t, o))
    case Health => Exceeds(ratio, "5m", nm.round(1.0 - o.target))
    case Attain => Exceeds(ratio, FindClosestRecordingWindow(spec.rolling.value), nm.round(1.0 - o.target))
    case Warn(i) =>
      var w := FindClosestRecordingWindow(spec.rolling.value);
      w in ratio && Below(ratio[w], nm.round(1.0 - o.target), nm.round(spec.warnings[i].threshold))
    case NoData => absent(spec.source.value, spec.noDataFor)
  }

  function Wait(spec: Spec, k: Kind): string
    requires IsAlert(spec, k)
  {
    match k
    case Burn(i) => spec.tiers[i].forDuration
    case Warn(_) => "15m"
    case NoData => spec.noDataFor
    case _ => "5m"
  }

  // ---------- what an alert tells ----------

  predicate Has(labels: Labels, name: string, value: string) { name in labels && labels[name] == value }

  function Severity(spec: Spec, k: Kind): string
    requires IsAlert(spec, k)
  {
    match k
    case Burn(i) => spec.tiers[i].severity
    case Attain => "critical"
    case Warn(i) => spec.warnings[i].severity
    case _ => "warning"
  }

  function AlarmType(k: Kind): string {
    match k
    case Burn(_) => "burn_rate"
    case Health => "sli_health"
    case Attain => "attainment"
    case Warn(_) => "error_budget_warning"
    case _ => "no_data"
  }

  /** Whose alert it is and of what kind, beside every label the user gave. */
  ghost predicate Tells(spec: Spec, nm: Naming, id: string, o: Objective, labels: Labels, k: Kind)
    requires IsAlert(spec, k)
  {
    && TellsWhose(spec, id, o, labels)
    && Has(labels, "slo_severity", Severity(spec, k)) && Has(labels, "slo_alarm_type", AlarmType(k))
    && (k.Burn? ==> Has(labels, "slo_window", spec.tiers[k.i].shortWindow + "/" + spec.tiers[k.i].longWindow))
    && (k.Burn? ==> Has(labels, "slo_burn_rate_multiplier", nm.number(spec.tiers[k.i].multiplier)))
    && (k.Health? ==> Has(labels, "slo_window", "5m"))
    && (k.Attain? || k.Warn? ==>
          var w := FindClosestRecordingWindow(spec.rolling.value);
          && Has(labels, "slo_window", w)
          && (if w != spec.rolling.value then Has(labels, "slo_window_approximated", "true")
              else "slo_window_approximated" !in labels))
    && (k.Warn? ==> Has(labels, "slo_budget_threshold", nm.number(spec.warnings[k.i].threshold)))
  }

  /** A label the user cannot give. */
  predicate Reserved(name: string) { |name| > 4 && name[4] != 'l' }

  lemma ReservedIsNotUser(spec: Spec, name: string)
    requires LabelsPrefixed(spec) && Reserved(name)
    ensures name !in spec.userLabels
  {
    assert "slo_label_"[4] == 'l';
  }

  ghost predicate TellsWhose(spec: Spec, id: string, o: Objective, labels: Labels) {
    && Has(labels, "slo_id", id) && Has(labels, "slo_name", spec.name)
    && Has(labels, "slo_objective", o.name) && Has(labels, "slo_service", spec.service)
    && (spec.tier.Some? ==> Has(labels, "slo_tier", spec.tier.value))
    && (spec.teams != [] ==> Has(labels, "slo_owner_team", spec.teams[0]))
    && (|spec.teams| > 1 ==> Has(labels, "slo_owner_teams", Joined(spec.teams)))
    && (forall name | name in spec.userLabels :: Has(labels, name, spec.userLabels[name]))
  }

  lemma CommonTells(spec: Spec, id: string, o: Objective)
    requires LabelsPrefixed(spec)
    ensures TellsWhose(spec, id, o, CommonLabels(spec, id, o))
  {
    ReservedIsNotUser(spec, "slo_id");
    ReservedIsNotUser(spec, "slo_name");
    ReservedIsNotUser(spec, "slo_objective");
    ReservedIsNotUser(spec, "slo_service");
    ReservedIsNotUser(spec, "slo_tier");
    ReservedIsNotUser(spec, "slo_owner_team");
    ReservedIsNotUser(spec, "slo_owner_teams");
    hide LabelsPrefixed, Reserved, Joined;
  }

  /** A label the alert adds hides none of those. */
  lemma AddedBeside(spec: Spec, id: string, o: Objective, labels: Labels, name: string, value: string)
    requires LabelsPrefixed(spec) && TellsWhose(spec, id, o, labels) && Reserved(name)
    requires name != "slo_id" && name != "slo_name" && name != "slo_objective" && name != "slo_service"
    requires name != "slo_tier" && name != "slo_owner_team" && name != "slo_owner_teams"
    ensures TellsWhose(spec, id, o, labels[name := value])
  {
    ReservedIsNotUser(spec, name);
  }

  /** The labels every alert adds to the common ones. */
  lemma TellsOf(spec: Spec, id: string, o: Objective, severity: string, kind: string)
    requires LabelsPrefixed(spec)
    ensures var labels := CommonLabels(spec, id, o)["slo_severity" := severity]["slo_alarm_type" := kind];
      TellsWhose(spec, id, o, labels) && Has(labels, "slo_severity", severity) && Has(labels, "slo_alarm_type", kind)
  {
    hide CommonLabels, TellsWhose;
    var common := CommonLabels(spec, id, o);
    CommonTells(spec, id, o);
    AddedBeside(spec, id, o, common, "slo_severity", severity);
    AddedBeside(spec, id, o, common["slo_severity" := severity], "slo_alarm_type", kind);
  }

  lemma NotMarked(spec: Spec, id: string, o: Objective)
    requires LabelsPrefixed(spec)
    ensures "slo_window_approximated" !in CommonLabels(spec, id, o)
  {
    ReservedIsNotUser(spec, "slo_window_approximated");
    hide Joined;
  }

  lemma TierTells(spec: Spec, nm: Naming, id: string, o: Objective, i: nat)
    requires LabelsPrefixed(spec) && i < |spec.tiers|
    ensures Tells(spec, nm, id, o, TierLabelsOf(spec, nm, id, o, spec.tiers[i]), RuleNames.Burn(i))
  {
    hide CommonLabels, TellsWhose;
    var t := spec.tiers[i];
    TellsOf(spec, id, o, t.severity, "burn_rate");
    var labels := CommonLabels(spec, id, o)["slo_severity" := t.severity]["slo_alarm_type" := "burn_rate"];
    var number := nm.number(t.multiplier);
    AddedBeside(spec, id, o, labels, "slo_burn_rate_multiplier", number);
    AddedBeside(spec, id, o, labels["slo_burn_rate_multiplier" := number], "slo_window", t.shortWindow + "/" + t.longWindow);
  }

  lemma HealthTells(spec: Spec, nm: Naming, id: string, o: Objective)
    requires LabelsPrefixed(spec)
    ensures Tells(spec, nm, id, o, SliHealthLabels(spec, id, o), RuleNames.Health)
  {
    hide CommonLabels, TellsWhose;
    TellsOf(spec, id, o, "warning", "sli_health");
    AddedBeside(spec, id, o, CommonLabels(spec, id, o)["slo_severity" := "warning"]["slo_alarm_type" := "sli_health"],
                "slo_window", "5m");
  }

  lemma AttainTells(spec: Spec, nm: Naming, id: string, o: Objective)
    requires LabelsPrefixed(spec) && spec.rolling.Some?
    ensures Tells(spec, nm, id, o, AttainmentLabels(spec, id, o, FindClosestRecordingWindow(spec.rolling.value)),
                  RuleNames.Attain)
  {
    hide CommonLabels, TellsWhose, FindClosestRecordingWindow;
    var w := FindClosestRecordingWindow(spec.rolling.value);
    NotMarked(spec, id, o);
    TellsOf(spec, id, o, "critical", "attainment");
    var labels := CommonLabels(spec, id, o)["slo_severity" := "critical"]["slo_alarm_type" := "attainment"];
    AddedBeside(spec, id, o, labels, "slo_window", w);
    AddedBeside(spec, id, o, labels["slo_window" := w], "slo_window_approximated", "true");
  }

  lemma WarnTells(spec: Spec, nm: Naming, id: string, o: Objective, i: nat)
    requires LabelsPrefixed(spec) && spec.rolling.Some? && i < |spec.warnings|
    ensures Tells(spec, nm, id, o,
      WarningLabels(spec, nm, id, o, FindClosestRecordingWindow(spec.rolling.value), spec.warnings[i]), RuleNames.Warn(i))
  {
    hide CommonLabels, TellsWhose, FindClosestRecordingWindow;
    var (w, bw) := (FindClosestRecordingWindow(spec.rolling.value), spec.warnings[i]);
    NotMarked(spec, id, o);
    TellsOf(spec, id, o, bw.severity, "error_budget_warning");
    var labels := CommonLabels(spec, id, o)["slo_severity" := bw.severity]["slo_alarm_type" := "error_budget_warning"];
    var number := nm.number(bw.threshold);
    AddedBeside(spec, id, o, labels, "slo_budget_threshold", number);
    AddedBeside(spec, id, o, labels["slo_budget_threshold" := number], "slo_window", w);
    AddedBeside(spec, id, o, labels["slo_budget_threshold" := number]["slo_window" := w], "slo_window_approximated", "true");
  }

  // ---------- alert by alert ----------

  /** One objective's ratios, held by the store under the names its alerts read. */
  datatype Held = Held(id: string, o: Objective, fp: string, legacy: Store, dedup: Store, ratio: map<string, real>)

  ghost predicate Holds(spec: Spec, nm: Naming, h: Held) {
    HoldsRatios(spec, nm, h.id, h.o, h.fp, h.legacy, h.dedup, h.ratio)
  }

  /** The alert fires exactly when it is due, and tells what and whose it is. */
  ghost predicate Means(spec: Spec, nm: Naming, h: Held, store: Store, a: Alert, k: Kind) {
    && IsAlert(spec, k)
    && (Fires(store, a.expr) <==> Due(spec, nm, h.o, h.ratio, store.absent, k))
    && a.wait == Wait(spec, k) && Tells(spec, nm, h.id, h.o, a.labels, k)
  }

  ghost predicate AllMean(spec: Spec, nm: Naming, h: Held, store: Store, alerts: seq<Alert>, kinds: seq<Kind>) {
    |alerts| == |kinds| && forall i | 0 <= i < |alerts| :: Means(spec, nm, h, store, alerts[i], kinds[i])
  }

  lemma AllJoined(spec: Spec, nm: Naming, h: Held, store: Store,
                  a: seq<Alert>, ks: seq<Kind>, b: seq<Alert>, ls: seq<Kind>)
    requires AllMean(spec, nm, h, store, a, ks) && AllMean(spec, nm, h, store, b, ls)
    ensures AllMean(spec, nm, h, store, a + b, ks + ls)
  {
    hide Means;
  }

  /** The ratio alerts over one window. */
  lemma RatioFires(spec: Spec, nm: Naming, h: Held, w: string, bound: real, budget: real, below: real)
    requires LabelsPrefixed(spec) && Holds(spec, nm, h)
    ensures Fires(h.legacy, Above(LegacyRef(nm, h.id, h.o, w), bound)) <==> Exceeds(h.ratio, w, bound)
    ensures Fires(h.legacy, BudgetBelow(LegacyRef(nm, h.id, h.o, w), budget, below))
      <==> w in h.ratio && Below(h.ratio[w], budget, below)
  {
    hide Reads, LegacyRef, DedupRef, LegacyLabels, DedupLabels, HoldsRatios, Below;
    var r := LegacyRef(nm, h.id, h.o, w);
    forall s: Sample
      ensures Reads(h.legacy, r, s) <==> w in h.ratio && s == Sample(LegacyLabels(spec, h.id, h.o, w), h.ratio[w])
    {
      LegacyReads(spec, nm, h.id, h.o, h.fp, h.legacy, h.dedup, h.ratio, w, s);
    }
    if w in h.ratio { assert Reads(h.legacy, r, Sample(LegacyLabels(spec, h.id, h.o, w), h.ratio[w])); }
  }

  lemma Scaled(m: real, x: real, y: real)
    requires x == y
    ensures m * x == Times(m, y)
  {
  }

  lemma BurnRateIs(t: Tier, o: Objective)
    ensures BurnRate(t, o) == Times(t.multiplier, 1.0 - o.target)
  {
    hide Times;
    Scaled(t.multiplier, ErrorBudget(o), 1.0 - o.target);
  }

  lemma TierBoundIs(nm: Naming, t: Tier, o: Objective)
    ensures TierBound(nm, t, o) == nm.round(BurnRate(t, o))
  {
    hide Times, BurnRate;
    BurnRateIs(t, o);
  }

  lemma BurnMeans(spec: Spec, nm: Naming, h: Held, i: nat)
    requires LabelsPrefixed(spec) && Holds(spec, nm, h) && i < |spec.tiers|
    ensures Means(spec, nm, h, h.legacy, BurnRateAlert(spec, nm, h.id, h.o, i), RuleNames.Burn(i))
  {
    hide HoldsRatios, Reads, Fires, LegacyRef, DedupRef, TierLabelsOf, BurnRateName, Tells, BurnRate, TierBound;
    var t := spec.tiers[i];
    BurnRateFires(spec, nm, h.id, h.o, h.fp, h.legacy, h.dedup, h.ratio, t.shortWindow, t.longWindow,
                  TierBound(nm, t, h.o));
    TierBoundIs(nm, t, h.o);
    TierTells(spec, nm, h.id, h.o, i);
  }

  lemma {:induction false} BurnsMean(spec: Spec, nm: Naming, h: Held, n: nat)
    requires LabelsPrefixed(spec) && Holds(spec, nm, h) && n <= |spec.tiers|
    ensures AllMean(spec, nm, h, h.legacy, BurnRateAlerts(spec, nm, h.id, h.o, n), RuleNames.BurnKinds(spec, n))
  {
    hide Means, Holds, BurnRateAlert;
    if n > 0 {
      BurnsMean(spec, nm, h, n - 1);
      BurnMeans(spec, nm, h, n - 1);
    }
  }

  lemma WarnMeans(spec: Spec, nm: Naming, h: Held, i: nat)
    requires LabelsPrefixed(spec) && Holds(spec, nm, h) && i < |spec.warnings| && spec.rolling.Some?
    ensures var (w, bw) := (FindClosestRecordingWindow(spec.rolling.value), spec.warnings[i]);
      Means(spec, nm, h, h.legacy,
        Alert(WarningName(spec, nm, h.o, i),
          BudgetBelow(LegacyRef(nm, h.id, h.o, w), nm.round(ErrorBudget(h.o)), nm.round(bw.threshold)),
          "15m", WarningLabels(spec, nm, h.id, h.o, w, bw)), RuleNames.Warn(i))
  {
    hide HoldsRatios, Fires, LegacyRef, WarningLabels, WarningName, Tells, FindClosestRecordingWindow, Below;
    var w := FindClosestRecordingWindow(spec.rolling.value);
    RatioFires(spec, nm, h, w, 0.0, nm.round(1.0 - h.o.target), nm.round(spec.warnings[i].threshold));
    WarnTells(spec, nm, h.id, h.o, i);
  }

  lemma {:induction false} WarnsMean(spec: Spec, nm: Naming, h: Held, n: nat)
    requires LabelsPrefixed(spec) && Holds(spec, nm, h) && n <= |spec.warnings|
    ensures AllMean(spec, nm, h, h.legacy, WarningAlerts(spec, nm, h.id, h.o, n), RuleNames.WarningKinds(spec, n))
  {
    hide Means, Holds, WarningLabels, WarningName, LegacyRef, ErrorBudget, FindClosestRecordingWindow;
    if n > 0 && spec.rolling.Some? {
      WarnsMean(spec, nm, h, n - 1);
      WarnMeans(spec, nm, h, n - 1);
    }
  }

  lemma HealthMeans(spec: Spec, nm: Naming, h: Held)
    requires LabelsPrefixed(spec) && Holds(spec, nm, h)
    ensures AllMean(spec, nm, h, h.legacy, SliHealthAlerts(spec, nm, h.id, h.o), RuleNames.HealthKinds(spec))
  {
    hide Holds, LegacyRef, SliHealthLabels, Tail, Fires, Exceeds, Tells;
    RatioFires(spec, nm, h, "5m", nm.round(1.0 - h.o.target), 0.0, 0.0);
    HealthTells(spec, nm, h.id, h.o);
  }

  lemma AttainMeans(spec: Spec, nm: Naming, h: Held)
    requires LabelsPrefixed(spec) && Holds(spec, nm, h)
    ensures AllMean(spec, nm, h, h.legacy, AttainmentAlerts(spec, nm, h.id, h.o), RuleNames.AttainKinds(spec))
  {
    hide Holds, LegacyRef, AttainmentLabels, Tail, FindClosestRecordingWindow, Fires, Exceeds, Tells;
    if spec.rolling.Some? {
      RatioFires(spec, nm, h, FindClosestRecordingWindow(spec.rolling.value), nm.round(1.0 - h.o.target), 0.0, 0.0);
      AttainTells(spec, nm, h.id, h.o);
    }
  }

  lemma NoDataMeans(spec: Spec, nm: Naming, h: Held)
    requires LabelsPrefixed(spec)
    ensures AllMean(spec, nm, h, h.legacy, NoDataAlerts(spec, nm, h.id, h.o), RuleNames.NoDataKinds(spec))
  {
    hide CommonLabels, Tail, Tells;
    NoDataTells(spec, nm, h.id, h.o);
  }

  lemma NoDataTells(spec: Spec, nm: Naming, id: string, o: Objective)
    requires LabelsPrefixed(spec)
    ensures spec.source.Some? ==> Tells(spec, nm, id, o,
      CommonLabels(spec, id, o)["slo_severity" := "warning"]["slo_alarm_type" := "no_data"], RuleNames.NoData)
  {
    hide CommonLabels, TellsWhose;
    TellsOf(spec, id, o, "warning", "no_data");
  }

  /** Alert by alert, the single-group path's alerts of an objective fire exactly when they are due. */
  lemma LegacyAlertsMean(spec: Spec, nm: Naming, h: Held)
    requires LabelsPrefixed(spec) && Holds(spec, nm, h)
    ensures AllMean(spec, nm, h, h.legacy, LegacyAlerts(spec, nm, h.id, h.o), RuleNames.AlertKinds(spec))
  {
    hide AllMean, Holds, BurnRateAlerts, SliHealthAlerts, AttainmentAlerts, WarningAlerts, NoDataAlerts,
         RuleNames.BurnKinds, RuleNames.HealthKinds, RuleNames.AttainKinds, RuleNames.WarningKinds, RuleNames.NoDataKinds;
    var n := if spec.mwmbr then |spec.tiers| else 0;
    BurnsMean(spec, nm, h, n);
    HealthMeans(spec, nm, h);
    AttainMeans(spec, nm, h);
    NoDataMeans(spec, nm, h);
    WarnsMean(spec, nm, h, |spec.warnings|);
    var (kb, kh, ka, kw) := (RuleNames.BurnKinds(spec, n), RuleNames.HealthKinds(spec), RuleNames.AttainKinds(spec),
                             RuleNames.WarningKinds(spec, |spec.warnings|));
    var (b, s, a, w) := (BurnRateAlerts(spec, nm, h.id, h.o, n), SliHealthAlerts(spec, nm, h.id, h.o),
                         AttainmentAlerts(spec, nm, h.id, h.o), WarningAlerts(spec, nm, h.id, h.o, |spec.warnings|));
    AllJoined(spec, nm, h, h.legacy, b, kb, s, kh);
    AllJoined(spec, nm, h, h.legacy, b + s, kb + kh, a, ka);
    AllJoined(spec, nm, h, h.legacy, b + s + a, kb + kh + ka, w, kw);
    AllJoined(spec, nm, h, h.legacy, b + s + a + w, kb + kh + ka + kw, NoDataAlerts(spec, nm, h.id, h.o),
              RuleNames.NoDataKinds(spec));
  }

  /** So do the deduplicating path's. */
  lemma DedupAlertsMean(spec: Spec, nm: Naming, h: Held)
    requires LabelsPrefixed(spec) && Holds(spec, nm, h)
    ensures AllMean(spec, nm, h, h.dedup, DedupAlerts(spec, nm, h.id, h.o, h.fp), RuleNames.AlertKinds(spec))
  {
    hide LegacyAlerts, DedupAlerts, RuleNames.AlertKinds, Fires, Due, Tells, SameTest, HoldsRatios;
    LegacyAlertsMean(spec, nm, h);
    SameObjective(spec, nm, h.id, h.o, h.fp);
    var (ls, ds) := (LegacyAlerts(spec, nm, h.id, h.o), DedupAlerts(spec, nm, h.id, h.o, h.fp));
    AbsentAlike(spec, nm, h);
    forall i | 0 <= i < |ls| ensures Means(spec, nm, h, h.dedup, ds[i], RuleNames.AlertKinds(spec)[i]) {
      assert SameAlert(nm, h.id, h.o, h.fp, ls[i], ds[i]);
      SameFiring(spec, nm, h.id, h.o, h.fp, h.legacy, h.dedup, h.ratio, ls[i].expr, ds[i].expr);
    }
  }

  lemma AbsentAlike(spec: Spec, nm: Naming, h: Held)
    requires Holds(spec, nm, h)
    ensures h.legacy.absent == h.dedup.absent
  {
  }

  // ---------- group by group ----------

  lemma {:induction false} BurnsWanted(spec: Spec, n: nat, k: Kind)
    requires n <= |spec.tiers|
    ensures k in RuleNames.BurnKinds(spec, n) <==> k.Burn? && k.i < n && !spec.shadow && spec.tiers[k.i].createAlarm
  {
    if n > 0 { BurnsWanted(spec, n - 1, k); }
  }

  lemma {:induction false} WarningsWanted(spec: Spec, n: nat, k: Kind)
    requires n <= |spec.warnings|
    ensures k in RuleNames.WarningKinds(spec, n)
      <==> k.Warn? && k.i < n && spec.budgetWarning && !spec.shadow && spec.rolling.Some?
  {
    if n > 0 { WarningsWanted(spec, n - 1, k); }
  }

  /** The alerts that are emitted are those that are wanted. */
  lemma WantedKinds(spec: Spec, k: Kind)
    ensures k in RuleNames.AlertKinds(spec) <==> Wanted(spec, k)
  {
    BurnsWanted(spec, if spec.mwmbr then |spec.tiers| else 0, k);
    WarningsWanted(spec, |spec.warnings|, k);
    hide RuleNames.BurnKinds, RuleNames.WarningKinds;
  }

  ghost predicate HeldAll(spec: Spec, nm: Naming, id: string, held: seq<Held>) {
    && |held| == |spec.objectives|
    && forall i | 0 <= i < |held| :: held[i].id == id && held[i].o == spec.objectives[i] && Holds(spec, nm, held[i])
  }

  /** The alert is a wanted one of some objective, and means what it should. */
  ghost predicate Meant(spec: Spec, nm: Naming, held: seq<Held>, store: Store, a: Alert, i: nat, k: Kind) {
    i < |held| && Wanted(spec, k) && Means(spec, nm, held[i], store, a, k)
  }

  ghost predicate Emitted(spec: Spec, nm: Naming, held: seq<Held>, store: Store, alerts: seq<Alert>, i: nat, k: Kind) {
    exists a :: a in alerts && Meant(spec, nm, held, store, a, i, k)
  }

  /** Every alert is a wanted one that means what it should, and every wanted one is there. */
  ghost predicate JustTheWanted(spec: Spec, nm: Naming, held: seq<Held>, store: Store, alerts: seq<Alert>) {
    && (forall a | a in alerts :: exists i, k :: Meant(spec, nm, held, store, a, i, k))
    && (forall i: nat, k :: i < |held| && Wanted(spec, k) ==> Emitted(spec, nm, held, store, alerts, i, k))
  }

  lemma EmittedIn(spec: Spec, nm: Naming, held: seq<Held>, store: Store, part: seq<Alert>, alerts: seq<Alert>, i: nat, k: Kind)
    requires Emitted(spec, nm, held, store, part, i, k) && forall a | a in part :: a in alerts
    ensures Emitted(spec, nm, held, store, alerts, i, k)
  {
    hide Meant;
  }

  lemma MeantAt(spec: Spec, nm: Naming, held: seq<Held>, store: Store, alerts: seq<Alert>, i: nat)
    requires i < |held| && AllMean(spec, nm, held[i], store, alerts, RuleNames.AlertKinds(spec))
    ensures forall a | a in alerts :: exists k :: Meant(spec, nm, held, store, a, i, k)
    ensures forall k :: Wanted(spec, k) ==> Emitted(spec, nm, held, store, alerts, i, k)
  {
    hide Means, Wanted, RuleNames.AlertKinds;
    var kinds := RuleNames.AlertKinds(spec);
    forall a | a in alerts ensures exists k :: Meant(spec, nm, held, store, a, i, k) {
      var j :| 0 <= j < |alerts| && alerts[j] == a;
      WantedKinds(spec, kinds[j]);
      assert Meant(spec, nm, held, store, a, i, kinds[j]);
    }
    forall k | Wanted(spec, k) ensures Emitted(spec, nm, held, store, alerts, i, k) {
      WantedKinds(spec, k);
      var j :| 0 <= j < |kinds| && kinds[j] == k;
      assert alerts[j] in alerts && Meant(spec, nm, held, store, alerts[j], i, k);
    }
  }

  /** The alerts of a single group are the wanted alerts of its objectives, each firing exactly when it
      is due. */
  lemma GroupAlertsMean(spec: Spec, nm: Naming, id: string, held: seq<Held>, legacy: Store)
    requires LabelsPrefixed(spec) && spec.single && HeldAll(spec, nm, id, held)
    requires forall h | h in held :: h.legacy == legacy
    ensures JustTheWanted(spec, nm, held, legacy, AlertsOf(LegacyGroup(spec, nm, id, |spec.objectives|)))
  {
    hide Meant, Emitted, Wanted, LegacyAlerts, LegacyGroup, AlertsOf, AllMean, RuleNames.AlertKinds, Holds;
    var n := |spec.objectives|;
    forall i: nat | i < n
      ensures forall a | a in LegacyAlerts(spec, nm, id, spec.objectives[i]) :: exists k :: Meant(spec, nm, held, legacy, a, i, k)
      ensures forall k :: Wanted(spec, k) ==>
        Emitted(spec, nm, held, legacy, LegacyAlerts(spec, nm, id, spec.objectives[i]), i, k)
    {
      assert held[i] in held;
      LegacyAlertsMean(spec, nm, held[i]);
      MeantAt(spec, nm, held, legacy, LegacyAlerts(spec, nm, id, spec.objectives[i]), i);
    }
    forall a ensures a in AlertsOf(LegacyGroup(spec, nm, id, n))
      <==> exists j | 0 <= j < n :: a in LegacyAlerts(spec, nm, id, spec.objectives[j])
    {
      RuleClosure.GroupAlerts(spec, nm, id, n, a);
    }
    var alerts := AlertsOf(LegacyGroup(spec, nm, id, n));
    forall i: nat, k | i < n && Wanted(spec, k) ensures Emitted(spec, nm, held, legacy, alerts, i, k) {
      EmittedIn(spec, nm, held, legacy, LegacyAlerts(spec, nm, id, spec.objectives[i]), alerts, i, k);
    }
  }

  lemma {:induction false} DedupGroupAlerts(spec: Spec, nm: Naming, id: string, fps: Labels, n: nat, a: Alert)
    requires spec.single && n <= |spec.objectives|
    requires forall o | o in spec.objectives :: o.name in fps && fps[o.name] != ""
    ensures a in DedupAlertGroup(spec, nm, id, fps, n) <==> exists k | 0 <= k < n ::
      a in DedupAlerts(spec, nm, id, spec.objectives[k], fps[spec.objectives[k].name])
  {
    hide DedupAlerts;
    if n > 0 {
      DedupGroupAlerts(spec, nm, id, fps, n - 1, a);
      assert spec.objectives[n - 1] in spec.objectives;
    }
  }

  /** So are the alerts of a deduplicated SLO. */
  lemma DedupGroupMeans(spec: Spec, nm: Naming, id: string, fps: Labels, held: seq<Held>, dedup: Store)
    requires LabelsPrefixed(spec) && spec.single && HeldAll(spec, nm, id, held)
    requires forall h | h in held :: h.dedup == dedup && h.o.name in fps && fps[h.o.name] == h.fp != ""
    ensures JustTheWanted(spec, nm, held, dedup, DedupAlertGroup(spec, nm, id, fps, |spec.objectives|))
  {
    hide Meant, Emitted, Wanted, DedupAlerts, DedupAlertGroup, AllMean, RuleNames.AlertKinds, Holds;
    var n := |spec.objectives|;
    forall i: nat | i < n
      ensures spec.objectives[i].name in fps && fps[spec.objectives[i].name] == held[i].fp != ""
      ensures forall a | a in DedupAlerts(spec, nm, id, spec.objectives[i], held[i].fp) ::
        exists k :: Meant(spec, nm, held, dedup, a, i, k)
      ensures forall k :: Wanted(spec, k) ==>
        Emitted(spec, nm, held, dedup, DedupAlerts(spec, nm, id, spec.objectives[i], held[i].fp), i, k)
    {
      assert held[i] in held;
      DedupAlertsMean(spec, nm, held[i]);
      MeantAt(spec, nm, held, dedup, DedupAlerts(spec, nm, id, spec.objectives[i], held[i].fp), i);
    }
    forall a ensures a in DedupAlertGroup(spec, nm, id, fps, n)
      <==> exists j | 0 <= j < n :: a in DedupAlerts(spec, nm, id, spec.objectives[j], fps[spec.objectives[j].name])
    {
      DedupGroupAlerts(spec, nm, id, fps, n, a);
    }
    var alerts := DedupAlertGroup(spec, nm, id, fps, n);
    forall i: nat, k | i < n && Wanted(spec, k) ensures Emitted(spec, nm, held, dedup, alerts, i, k) {
      EmittedIn(spec, nm, held, dedup, DedupAlerts(spec, nm, id, spec.objectives[i], held[i].fp), alerts, i, k);
    }
  }
}
