/** The rule groups the generator emits for an SLO by its two paths: one group with recording rules
    of its own, or alerts over shared recording groups named by fingerprint. */
module RuleGroups {
  import opened Options
  import opened Decimal
  import opened Windows

  type Labels = map<string, string>

  datatype Tier = Tier(
    shortWindow: string, longWindow: string, multiplier: real, severity: string,
    createAlarm: bool, forDuration: string)

  datatype Objective = Objective(name: string, target: real, latencyThreshold: Option<int>)

  datatype Warning = Warning(threshold: real, severity: string)

  /** What rule generation reads of a spec. `ratioExpr` is the text of the SLI's error ratio for a
      latency threshold and a window. `source` is the selector of the SLI's metric; it is
      missing for a custom SLI. User labels are held under their prefixed names. */
  datatype Spec = Spec(
    name: string, service: string, teams: seq<string>, tier: Option<string>, userLabels: Labels,
    single: bool, prometheus: bool, source: Option<string>,
    ratioExpr: (Option<int>, string) -> string, objectives: seq<Objective>,
    shadow: bool, mwmbr: bool, tiers: seq<Tier>,
    sliHealth: bool, attainment: bool, budgetWarning: bool, noData: bool, noDataFor: string,
    rolling: Option<string>, warnings: seq<Warning>)

  /** A recorded series, and in the single-group path the SLO it must be labelled with. */
  datatype Ref = Ref(series: string, sloId: Option<string>)

  datatype Expr =
    | Both(short: Ref, long: Ref, threshold: real)
    | Above(ratio: Ref, threshold: real)
    | BudgetBelow(ratio: Ref, budget: real, below: real)
    | Absent(source: string, over: string)

  datatype Alert = Alert(name: string, expr: Expr, wait: string, labels: Labels)

  datatype Rule = Recording(name: string, expr: string, labels: Labels) | Alerting(alert: Alert)

  /** Everything outside the generator's control: the hash of names, the slug of a name, the text of
      numbers, and the rounding of thresholds. */
  datatype Naming = Naming(
    suffix: string -> string, slug: string -> string, number: real -> string,
    percent: real -> string, round: real -> real)

  const Version: string := "slo_rules_version"
  const RulesVersion: string := "3"

  // ---------- names and labels ----------

  function Tail(nm: Naming, o: Objective): string { nm.slug(o.name) + ("_" + nm.suffix(o.name)) }

  const RatioPrefix: string := "slo:sli_error:ratio_rate_"

  function LegacySeries(nm: Naming, o: Objective, window: string): string {
    RatioPrefix + (window + (":" + Tail(nm, o)))
  }

  function DedupSeries(fp: string, window: string): string { RatioPrefix + (window + (":" + ("sli_" + fp))) }

  const TierLabels: seq<string> := ["PageQuick", "PageSlow", "TicketQuick", "TicketSlow"]

  function TierLabel(i: nat): string { if i < 4 then TierLabels[i] else "Tier" + NumText(i + 1) }

  function CommonLabels(spec: Spec, id: string, o: Objective): Labels {
    var core := map["slo_id" := id, "slo_name" := spec.name, "slo_objective" := o.name, "slo_service" := spec.service];
    var team := if spec.teams == [] then map[]
                else if |spec.teams| == 1 then map["slo_owner_team" := spec.teams[0]]
                else map["slo_owner_team" := spec.teams[0], "slo_owner_teams" := Joined(spec.teams)];
    var tier := if spec.tier.Some? then map["slo_tier" := spec.tier.value] else map[];
    core + team + tier + spec.userLabels
  }

  function Joined(parts: seq<string>): string {
    if parts == [] then "" else if |parts| == 1 then parts[0] else parts[0] + "," + Joined(parts[1..])
  }

  function ErrorBudget(o: Objective): real { 1.0 - o.target }

  /** The error ratio at which the budget is consumed as fast as the tier allows. */
  function BurnRate(t: Tier, o: Objective): real { t.multiplier * ErrorBudget(o) }

  // ---------- the single-group path ----------

  function LegacyRef(nm: Naming, id: string, o: Objective, window: string): Ref {
    Ref(LegacySeries(nm, o, window), Some(id))
  }

  function RecordingRule(spec: Spec, nm: Naming, id: string, o: Objective, window: string): Rule {
    Recording(LegacySeries(nm, o, window), spec.ratioExpr(o.latencyThreshold, window),
      CommonLabels(spec, id, o)["slo_window" := window][Version := RulesVersion])
  }

  function RecordingRules(spec: Spec, nm: Naming, id: string, o: Objective, n: nat): (r: seq<Rule>)
    requires n <= |RecordingWindows|
    ensures |r| == n && forall i | 0 <= i < n :: r[i] == RecordingRule(spec, nm, id, o, RecordingWindows[i])
  {
    if n == 0 then []
    else RecordingRules(spec, nm, id, o, n - 1) + [RecordingRule(spec, nm, id, o, RecordingWindows[n - 1])]
  }

  function TierLabelsOf(spec: Spec, nm: Naming, id: string, o: Objective, t: Tier): Labels {
    CommonLabels(spec, id, o)["slo_severity" := t.severity]["slo_alarm_type" := "burn_rate"]
      ["slo_burn_rate_multiplier" := nm.number(t.multiplier)]["slo_window" := t.shortWindow + "/" + t.longWindow]
  }

  function BurnRateName(nm: Naming, o: Objective, i: nat): string {
    "SLO_BurnRate_" + (TierLabel(i) + ("_" + Tail(nm, o)))
  }

  function BurnRateAlert(spec: Spec, nm: Naming, id: string, o: Objective, i: nat): Alert
    requires i < |spec.tiers|
  {
    var t := spec.tiers[i];
    Alert(BurnRateName(nm, o, i),
      Both(LegacyRef(nm, id, o, t.shortWindow), LegacyRef(nm, id, o, t.longWindow),
           nm.round(BurnRate(t, o))),
      t.forDuration, TierLabelsOf(spec, nm, id, o, t))
  }

  /** Alerts of the first `n` tiers; a shadow SLO and a tier without an alarm have none. */
  function BurnRateAlerts(spec: Spec, nm: Naming, id: string, o: Objective, n: nat): seq<Alert>
    requires n <= |spec.tiers|
  {
    if n == 0 then []
    else
      var before := BurnRateAlerts(spec, nm, id, o, n - 1);
      if spec.shadow || !spec.tiers[n - 1].createAlarm then before
      else before + [BurnRateAlert(spec, nm, id, o, n - 1)]
  }

  method GenerateBurnRateAlerts(spec: Spec, nm: Naming, id: string, o: Objective) returns (rules: seq<Alert>)
    ensures rules == BurnRateAlerts(spec, nm, id, o, if spec.mwmbr then |spec.tiers| else 0)
  {
    rules := [];
    var n := if spec.mwmbr then |spec.tiers| else 0;
    for i := 0 to n
      invariant rules == BurnRateAlerts(spec, nm, id, o, i)
    {
      if spec.shadow || !spec.tiers[i].createAlarm { continue; }
      rules := rules + [BurnRateAlert(spec, nm, id, o, i)];
    }
  }

  function SliHealthLabels(spec: Spec, id: string, o: Objective): Labels {
    CommonLabels(spec, id, o)["slo_severity" := "warning"]["slo_alarm_type" := "sli_health"]["slo_window" := "5m"]
  }

  function SliHealthAlerts(spec: Spec, nm: Naming, id: string, o: Objective): seq<Alert> {
    if !spec.sliHealth || spec.shadow then []
    else [Alert("SLO_SLIHealth_" + Tail(nm, o),
            Above(LegacyRef(nm, id, o, "5m"), nm.round(ErrorBudget(o))), "5m", SliHealthLabels(spec, id, o))]
  }

  function MarkApproximated(labels: Labels, spec: Spec): Labels
    requires spec.rolling.Some?
  {
    if FindClosestRecordingWindow(spec.rolling.value) != spec.rolling.value
    then labels["slo_window_approximated" := "true"] else labels
  }

  function AttainmentLabels(spec: Spec, id: string, o: Objective, window: string): Labels
    requires spec.rolling.Some?
  {
    MarkApproximated(
      CommonLabels(spec, id, o)["slo_severity" := "critical"]["slo_alarm_type" := "attainment"]["slo_window" := window],
      spec)
  }

  function AttainmentAlerts(spec: Spec, nm: Naming, id: string, o: Objective): seq<Alert> {
    if !spec.attainment || spec.shadow || spec.rolling.None? then []
    else
      var w := FindClosestRecordingWindow(spec.rolling.value);
      [Alert("SLO_Attainment_" + Tail(nm, o),
         Above(LegacyRef(nm, id, o, w), nm.round(ErrorBudget(o))), "5m", AttainmentLabels(spec, id, o, w))]
  }

  function WarningName(spec: Spec, nm: Naming, o: Objective, i: nat): string
    requires i < |spec.warnings|
  {
    "SLO_Warning_" + (nm.percent(spec.warnings[i].threshold) + ("pct_" + Tail(nm, o)))
      + (if |spec.warnings| > 1 then "_" + NumText(i) else "")
  }

  function WarningLabels(spec: Spec, nm: Naming, id: string, o: Objective, window: string, w: Warning): Labels
    requires spec.rolling.Some?
  {
    MarkApproximated(
      CommonLabels(spec, id, o)["slo_severity" := w.severity]["slo_alarm_type" := "error_budget_warning"]
        ["slo_budget_threshold" := nm.number(w.threshold)]["slo_window" := window],
      spec)
  }

  function WarningAlerts(spec: Spec, nm: Naming, id: string, o: Objective, n: nat): seq<Alert>
    requires n <= |spec.warnings|
  {
    if n == 0 || !spec.budgetWarning || spec.shadow || spec.rolling.None? then []
    else
      var w := FindClosestRecordingWindow(spec.rolling.value);
      var bw := spec.warnings[n - 1];
      WarningAlerts(spec, nm, id, o, n - 1)
        + [Alert(WarningName(spec, nm, o, n - 1),
             BudgetBelow(LegacyRef(nm, id, o, w), nm.round(ErrorBudget(o)), nm.round(bw.threshold)),
             "15m", WarningLabels(spec, nm, id, o, w, bw))]
  }

  /** Shared by both paths: it reads the source metric, not a recorded series. */
  function NoDataAlerts(spec: Spec, nm: Naming, id: string, o: Objective): seq<Alert> {
    if !spec.noData || spec.shadow || !spec.single || !spec.prometheus || spec.source.None? then []
    else [Alert("SLO_NoData_" + Tail(nm, o), Absent(spec.source.value, spec.noDataFor), spec.noDataFor,
            CommonLabels(spec, id, o)["slo_severity" := "warning"]["slo_alarm_type" := "no_data"])]
  }

  function LegacyAlerts(spec: Spec, nm: Naming, id: string, o: Objective): seq<Alert> {
    BurnRateAlerts(spec, nm, id, o, if spec.mwmbr then |spec.tiers| else 0)
    + SliHealthAlerts(spec, nm, id, o) + AttainmentAlerts(spec, nm, id, o)
    + WarningAlerts(spec, nm, id, o, |spec.warnings|) + NoDataAlerts(spec, nm, id, o)
  }

  function AsRules(alerts: seq<Alert>): (r: seq<Rule>)
    ensures |r| == |alerts| && forall i | 0 <= i < |r| :: r[i] == Alerting(alerts[i])
  {
    seq(|alerts|, i requires 0 <= i < |alerts| => Alerting(alerts[i]))
  }

  function ObjectiveRules(spec: Spec, nm: Naming, id: string, o: Objective): seq<Rule> {
    (if spec.prometheus then RecordingRules(spec, nm, id, o, |RecordingWindows|) else [])
    + AsRules(LegacyAlerts(spec, nm, id, o))
  }

  function LegacyGroup(spec: Spec, nm: Naming, id: string, n: nat): seq<Rule>
    requires n <= |spec.objectives|
  {
    if n == 0 || !spec.single then []
    else LegacyGroup(spec, nm, id, n - 1) + ObjectiveRules(spec, nm, id, spec.objectives[n - 1])
  }

  method GenerateSloRuleGroup(spec: Spec, nm: Naming, id: string) returns (rules: seq<Rule>)
    ensures rules == LegacyGroup(spec, nm, id, |spec.objectives|)
  {
    rules := [];
    if !spec.single { return; }
    for i := 0 to |spec.objectives|
      invariant rules == LegacyGroup(spec, nm, id, i)
    {
      rules := rules + ObjectiveRules(spec, nm, id, spec.objectives[i]);
    }
  }

  // ---------- the deduplicating path ----------

  function DedupRef(fp: string, window: string): Ref { Ref(DedupSeries(fp, window), None) }

  /** A shared recording rule carries no label of any SLO. `ratioExpr` is the text by window of the
      SLI that represents the fingerprint. */
  function SharedRule(fp: string, ratioExpr: string -> string, window: string): Rule {
    Recording(DedupSeries(fp, window), ratioExpr(window), map["slo_window" := window, Version := RulesVersion])
  }

  function RecordingGroup(fp: string, ratioExpr: string -> string, n: nat): (r: seq<Rule>)
    requires n <= |RecordingWindows|
    ensures |r| == n && forall i | 0 <= i < n :: r[i] == SharedRule(fp, ratioExpr, RecordingWindows[i])
  {
    if n == 0 then []
    else RecordingGroup(fp, ratioExpr, n - 1) + [SharedRule(fp, ratioExpr, RecordingWindows[n - 1])]
  }

  method GenerateRecordingGroupForFingerprint(fp: string, ratioExpr: string -> string) returns (rules: seq<Rule>)
    ensures rules == RecordingGroup(fp, ratioExpr, |RecordingWindows|)
  {
    rules := [];
    for i := 0 to |RecordingWindows|
      invariant rules == RecordingGroup(fp, ratioExpr, i)
    {
      rules := rules + [SharedRule(fp, ratioExpr, RecordingWindows[i])];
    }
  }

  function DedupBurnRateAlert(spec: Spec, nm: Naming, id: string, o: Objective, fp: string, i: nat): Alert
    requires i < |spec.tiers|
  {
    var t := spec.tiers[i];
    Alert(BurnRateName(nm, o, i),
      Both(DedupRef(fp, t.shortWindow), DedupRef(fp, t.longWindow), nm.round(BurnRate(t, o))),
      t.forDuration, TierLabelsOf(spec, nm, id, o, t))
  }

  function DedupBurnRateAlerts(spec: Spec, nm: Naming, id: string, o: Objective, fp: string, n: nat): seq<Alert>
    requires n <= |spec.tiers|
  {
    if n == 0 then []
    else
      var before := DedupBurnRateAlerts(spec, nm, id, o, fp, n - 1);
      if spec.shadow || !spec.tiers[n - 1].createAlarm then before
      else before + [DedupBurnRateAlert(spec, nm, id, o, fp, n - 1)]
  }

  method GenerateDedupBurnRateAlerts(spec: Spec, nm: Naming, id: string, o: Objective, fp: string)
      returns (rules: seq<Alert>)
    ensures rules == DedupBurnRateAlerts(spec, nm, id, o, fp, if spec.mwmbr then |spec.tiers| else 0)
  {
    rules := [];
    var n := if spec.mwmbr then |spec.tiers| else 0;
    for i := 0 to n
      invariant rules == DedupBurnRateAlerts(spec, nm, id, o, fp, i)
    {
      if spec.shadow || !spec.tiers[i].createAlarm { continue; }
      rules := rules + [DedupBurnRateAlert(spec, nm, id, o, fp, i)];
    }
  }

  function DedupSliHealthAlerts(spec: Spec, nm: Naming, id: string, o: Objective, fp: string): seq<Alert> {
    if !spec.sliHealth || spec.shadow then []
    else [Alert("SLO_SLIHealth_" + Tail(nm, o),
            Above(DedupRef(fp, "5m"), nm.round(ErrorBudget(o))), "5m", SliHealthLabels(spec, id, o))]
  }

  function DedupAttainmentAlerts(spec: Spec, nm: Naming, id: string, o: Objective, fp: string): seq<Alert> {
    if !spec.attainment || spec.shadow || spec.rolling.None? then []
    else
      var w := FindClosestRecordingWindow(spec.rolling.value);
      [Alert("SLO_Attainment_" + Tail(nm, o),
         Above(DedupRef(fp, w), nm.round(ErrorBudget(o))), "5m", AttainmentLabels(spec, id, o, w))]
  }

  function DedupWarningAlerts(spec: Spec, nm: Naming, id: string, o: Objective, fp: string, n: nat): seq<Alert>
    requires n <= |spec.warnings|
  {
    if n == 0 || !spec.budgetWarning || spec.shadow || spec.rolling.None? then []
    else
      var w := FindClosestRecordingWindow(spec.rolling.value);
      var bw := spec.warnings[n - 1];
      DedupWarningAlerts(spec, nm, id, o, fp, n - 1)
        + [Alert(WarningName(spec, nm, o, n - 1),
             BudgetBelow(DedupRef(fp, w), nm.round(ErrorBudget(o)), nm.round(bw.threshold)),
             "15m", WarningLabels(spec, nm, id, o, w, bw))]
  }

  function DedupAlerts(spec: Spec, nm: Naming, id: string, o: Objective, fp: string): seq<Alert> {
    DedupBurnRateAlerts(spec, nm, id, o, fp, if spec.mwmbr then |spec.tiers| else 0)
    + DedupSliHealthAlerts(spec, nm, id, o, fp) + DedupAttainmentAlerts(spec, nm, id, o, fp)
    + DedupWarningAlerts(spec, nm, id, o, fp, |spec.warnings|) + NoDataAlerts(spec, nm, id, o)
  }

  /** An objective without a recorded fingerprint is skipped. */
  function DedupAlertGroup(spec: Spec, nm: Naming, id: string, fps: Labels, n: nat): seq<Alert>
    requires n <= |spec.objectives|
  {
    if n == 0 || !spec.single then []
    else
      var (before, o) := (DedupAlertGroup(spec, nm, id, fps, n - 1), spec.objectives[n - 1]);
      if o.name !in fps || fps[o.name] == "" then before
      else before + DedupAlerts(spec, nm, id, o, fps[o.name])
  }

  method GenerateAlertGroupFor(spec: Spec, nm: Naming, id: string, fps: Labels) returns (rules: seq<Alert>)
    ensures rules == DedupAlertGroup(spec, nm, id, fps, |spec.objectives|)
  {
    rules := [];
    if !spec.single { return; }
    for i := 0 to |spec.objectives|
      invariant rules == DedupAlertGroup(spec, nm, id, fps, i)
    {
      var o := spec.objectives[i];
      if o.name !in fps || fps[o.name] == "" { continue; }
      rules := rules + DedupAlerts(spec, nm, id, o, fps[o.name]);
    }
  }
}
