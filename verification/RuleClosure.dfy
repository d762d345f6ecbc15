/** Generated rules close over themselves: every recorded series an alert reads is emitted by the same
    SLO's groups, exactly when its burn-rate windows are recording windows. */
module RuleClosure {
  import opened Options
  import opened Windows
  import opened RuleGroups
  import opened RuleMeaning

  /** Recorded series an alert expression reads. */
  function RefsOf(e: Expr): set<string> {
    match e
    case Both(short, long, _) => {short.series, long.series}
    case Above(r, _) => {r.series}
    case BudgetBelow(r, _, _) => {r.series}
    case Absent(_, _) => {}
  }

  predicate Emits(rules: seq<Rule>, series: string) {
    exists i | 0 <= i < |rules| :: rules[i].Recording? && rules[i].name == series
  }

  ghost predicate Closed(alerts: seq<Alert>, rules: seq<Rule>) {
    forall a, s | a in alerts && s in RefsOf(a.expr) :: Emits(rules, s)
  }

  /** Tiers that get an alert. */
  predicate Active(spec: Spec, t: Tier) { t in spec.tiers && spec.mwmbr && !spec.shadow && t.createAlarm }

  /** What the validator warns about when it fails. */
  predicate WindowsRecorded(spec: Spec) {
    forall t | t in spec.tiers && Active(spec, t) :: t.shortWindow in RecordingWindows && t.longWindow in RecordingWindows
  }

  /** A window no alert can read beyond the recorded ones unless an active tier names it. */
  predicate MayRead(spec: Spec, w: string) {
    w in RecordingWindows || exists t | t in spec.tiers :: Active(spec, t) && (w == t.shortWindow || w == t.longWindow)
  }

  ghost predicate ReadsWindows(spec: Spec, nm: Naming, o: Objective, alerts: seq<Alert>) {
    forall a, s | a in alerts && s in RefsOf(a.expr) :: exists w :: MayRead(spec, w) && s == LegacySeries(nm, o, w)
  }

  lemma ReadsJoined(spec: Spec, nm: Naming, o: Objective, xs: seq<Alert>, ys: seq<Alert>)
    requires ReadsWindows(spec, nm, o, xs) && ReadsWindows(spec, nm, o, ys)
    ensures ReadsWindows(spec, nm, o, xs + ys)
  {
    hide RefsOf, MayRead, LegacySeries;
    forall a, s | a in xs + ys && s in RefsOf(a.expr)
      ensures exists w :: MayRead(spec, w) && s == LegacySeries(nm, o, w)
    {
      assert a in xs || a in ys;
    }
  }

  lemma {:induction false} BurnRateReads(spec: Spec, nm: Naming, id: string, o: Objective, n: nat)
    requires n <= |spec.tiers| && (n > 0 ==> spec.mwmbr)
    ensures ReadsWindows(spec, nm, o, BurnRateAlerts(spec, nm, id, o, n))
  {
    hide LegacySeries, TierLabelsOf, BurnRateName, ErrorBudget, Active;
    if n > 0 {
      BurnRateReads(spec, nm, id, o, n - 1);
      var t := spec.tiers[n - 1];
      if !spec.shadow && t.createAlarm {
        ActiveTier(spec, n - 1);
        assert MayRead(spec, t.shortWindow) && MayRead(spec, t.longWindow);
        assert ReadsWindows(spec, nm, o, [BurnRateAlert(spec, nm, id, o, n - 1)]);
        hide ReadsWindows;
        ReadsJoined(spec, nm, o, BurnRateAlerts(spec, nm, id, o, n - 1), [BurnRateAlert(spec, nm, id, o, n - 1)]);
      }
    }
  }

  lemma ActiveTier(spec: Spec, i: nat)
    requires i < |spec.tiers| && spec.mwmbr && !spec.shadow && spec.tiers[i].createAlarm
    ensures spec.tiers[i] in spec.tiers && Active(spec, spec.tiers[i])
  {
  }

  lemma {:induction false} WarningReads(spec: Spec, nm: Naming, id: string, o: Objective, n: nat)
    requires n <= |spec.warnings|
    ensures ReadsWindows(spec, nm, o, WarningAlerts(spec, nm, id, o, n))
  {
    hide LegacySeries, WarningLabels, WarningName, ErrorBudget;
    if n > 0 {
      WarningReads(spec, nm, id, o, n - 1);
      if spec.rolling.Some? { assert MayRead(spec, FindClosestRecordingWindow(spec.rolling.value)); }
    }
  }

  lemma OtherReads(spec: Spec, nm: Naming, id: string, o: Objective)
    ensures ReadsWindows(spec, nm, o, SliHealthAlerts(spec, nm, id, o))
    ensures ReadsWindows(spec, nm, o, AttainmentAlerts(spec, nm, id, o))
    ensures ReadsWindows(spec, nm, o, NoDataAlerts(spec, nm, id, o))
  {
    hide LegacySeries, SliHealthLabels, AttainmentLabels, CommonLabels, Tail, ErrorBudget;
    assert MayRead(spec, "5m");
    if spec.rolling.Some? { assert MayRead(spec, FindClosestRecordingWindow(spec.rolling.value)); }
  }

  lemma ObjectiveReads(spec: Spec, nm: Naming, id: string, o: Objective)
    ensures ReadsWindows(spec, nm, o, LegacyAlerts(spec, nm, id, o))
  {
    hide ReadsWindows, BurnRateAlerts, SliHealthAlerts, AttainmentAlerts, WarningAlerts, NoDataAlerts;
    var n := if spec.mwmbr then |spec.tiers| else 0;
    BurnRateReads(spec, nm, id, o, n);
    OtherReads(spec, nm, id, o);
    WarningReads(spec, nm, id, o, |spec.warnings|);
    var (b, h, a, w) := (BurnRateAlerts(spec, nm, id, o, n), SliHealthAlerts(spec, nm, id, o),
                         AttainmentAlerts(spec, nm, id, o), WarningAlerts(spec, nm, id, o, |spec.warnings|));
    ReadsJoined(spec, nm, o, b, h);
    ReadsJoined(spec, nm, o, b + h, a);
    ReadsJoined(spec, nm, o, b + h + a, w);
    ReadsJoined(spec, nm, o, b + h + a + w, NoDataAlerts(spec, nm, id, o));
  }

  // ---------- what is emitted ----------

  lemma EmitsJoined(a: seq<Rule>, b: seq<Rule>, s: string)
    ensures Emits(a + b, s) <==> Emits(a, s) || Emits(b, s)
  {
    if Emits(a, s) {
      var i :| 0 <= i < |a| && a[i].Recording? && a[i].name == s;
      assert (a + b)[i] == a[i];
    }
    if Emits(b, s) {
      var i :| 0 <= i < |b| && b[i].Recording? && b[i].name == s;
      assert (a + b)[|a| + i] == b[i];
    }
  }

  /** An objective's own rules emit exactly its seven series. */
  lemma ObjectiveEmits(spec: Spec, nm: Naming, id: string, o: Objective, s: string)
    requires spec.prometheus
    ensures Emits(ObjectiveRules(spec, nm, id, o), s) <==> exists w | w in RecordingWindows :: s == LegacySeries(nm, o, w)
  {
    var rules := RecordingRules(spec, nm, id, o, |RecordingWindows|);
    hide LegacySeries, LegacyAlerts, CommonLabels;
    EmitsJoined(rules, AsRules(LegacyAlerts(spec, nm, id, o)), s);
    if w :| w in RecordingWindows && s == LegacySeries(nm, o, w) {
      var i :| 0 <= i < |RecordingWindows| && RecordingWindows[i] == w;
      assert rules[i].name == s;
    }
  }

  lemma {:induction false} GroupEmits(spec: Spec, nm: Naming, id: string, n: nat, s: string)
    requires spec.prometheus && spec.single && n <= |spec.objectives|
    ensures Emits(LegacyGroup(spec, nm, id, n), s)
        <==> exists k, w | 0 <= k < n && w in RecordingWindows :: s == LegacySeries(nm, spec.objectives[k], w)
  {
    hide LegacySeries, ObjectiveRules, Emits;
    if n == 0 {
      NothingEmitted(s);
    } else {
      GroupEmits(spec, nm, id, n - 1, s);
      EmitsJoined(LegacyGroup(spec, nm, id, n - 1), ObjectiveRules(spec, nm, id, spec.objectives[n - 1]), s);
      ObjectiveEmits(spec, nm, id, spec.objectives[n - 1], s);
    }
  }

  lemma NothingEmitted(s: string)
    ensures !Emits([], s)
  {
  }

  lemma {:induction false} GroupAlerts(spec: Spec, nm: Naming, id: string, n: nat, a: Alert)
    requires spec.single && n <= |spec.objectives|
    ensures a in AlertsOf(LegacyGroup(spec, nm, id, n))
        <==> exists k | 0 <= k < n :: a in LegacyAlerts(spec, nm, id, spec.objectives[k])
  {
    hide LegacyAlerts, ObjectiveRules, AlertsOf;
    if n == 0 {
      NoAlerts(spec, nm, id, map[]);
    } else {
      var o := spec.objectives[n - 1];
      GroupAlerts(spec, nm, id, n - 1, a);
      AlertsJoined(LegacyGroup(spec, nm, id, n - 1), ObjectiveRules(spec, nm, id, o));
      ObjectiveAlerts(spec, nm, id, o);
      assert a in AlertsOf(LegacyGroup(spec, nm, id, n))
        <==> a in AlertsOf(LegacyGroup(spec, nm, id, n - 1)) || a in LegacyAlerts(spec, nm, id, o);
    }
  }

  // ---------- names determine windows ----------

  lemma ColonAt(w: string, rest: string)
    requires ':' !in w
    ensures forall i | 0 <= i < |w| :: (w + (":" + rest))[i] != ':'
    ensures (w + (":" + rest))[|w|] == ':'
  {
  }

  /** Series of windows without a colon are named alike only for the same window. */
  lemma SameSeriesSameWindow(x: string, y: string, v: string, w: string)
    requires ':' !in v && ':' !in w && RatioPrefix + (v + (":" + x)) == RatioPrefix + (w + (":" + y))
    ensures v == w && x == y
  {
    var (s, t) := (v + (":" + x), w + (":" + y));
    assert (RatioPrefix + s)[|RatioPrefix|..] == s && (RatioPrefix + t)[|RatioPrefix|..] == t;
    hide RatioPrefix;
    ColonAt(v, x);
    ColonAt(w, y);
    assert |v| == |w|;
    assert s[..|v|] == v && t[..|w|] == w && s[|v| + 1..] == x && t[|w| + 1..] == y;
  }

  lemma NoColon(w: string)
    requires w in RecordingWindows
    ensures ':' !in w
  {
  }

  // ---------- closure ----------

  lemma ReadIsEmitted(spec: Spec, nm: Naming, id: string, k: nat, a: Alert, s: string)
    requires spec.single && spec.prometheus && WindowsRecorded(spec) && k < |spec.objectives|
    requires a in LegacyAlerts(spec, nm, id, spec.objectives[k]) && s in RefsOf(a.expr)
    ensures Emits(LegacyGroup(spec, nm, id, |spec.objectives|), s)
  {
    hide LegacyAlerts, LegacySeries, RefsOf, Emits;
    var o := spec.objectives[k];
    ObjectiveReads(spec, nm, id, o);
    var w :| MayRead(spec, w) && s == LegacySeries(nm, o, w);
    assert w in RecordingWindows;
    GroupEmits(spec, nm, id, |spec.objectives|, s);
  }

  lemma {:induction false} TierAlertThere(spec: Spec, nm: Naming, id: string, o: Objective, i: nat, n: nat)
    requires i < n <= |spec.tiers| && !spec.shadow && spec.tiers[i].createAlarm
    ensures BurnRateAlert(spec, nm, id, o, i) in BurnRateAlerts(spec, nm, id, o, n)
  {
    hide BurnRateAlert;
    if i < n - 1 { TierAlertThere(spec, nm, id, o, i, n - 1); }
  }

  /** An active tier over a window that is not recorded reads a series nothing emits. */
  lemma UnrecordedIsMissing(spec: Spec, nm: Naming, id: string, i: nat, w: string)
    requires spec.single && spec.prometheus && spec.objectives != [] && i < |spec.tiers|
    requires Active(spec, spec.tiers[i]) && (w == spec.tiers[i].shortWindow || w == spec.tiers[i].longWindow)
    requires ':' !in w && w !in RecordingWindows
    ensures !Closed(AlertsOf(LegacyGroup(spec, nm, id, |spec.objectives|)), LegacyGroup(spec, nm, id, |spec.objectives|))
  {
    var (o, n) := (spec.objectives[0], |spec.objectives|);
    var a := BurnRateAlert(spec, nm, id, o, i);
    var s := LegacySeries(nm, o, w);
    assert s in RefsOf(a.expr);
    TierAlertThere(spec, nm, id, o, i, |spec.tiers|);
    assert a in LegacyAlerts(spec, nm, id, o);
    hide LegacyAlerts, BurnRateAlert, Emits, AlertsOf, LegacyGroup, RefsOf, BurnRateAlerts;
    GroupAlerts(spec, nm, id, n, a);
    GroupEmits(spec, nm, id, n, s);
    forall k, v | 0 <= k < n && v in RecordingWindows ensures s != LegacySeries(nm, spec.objectives[k], v) {
      NoColon(v);
      if s == LegacySeries(nm, spec.objectives[k], v) {
        SameSeriesSameWindow(Tail(nm, o), Tail(nm, spec.objectives[k]), w, v);
      }
    }
    assert !Emits(LegacyGroup(spec, nm, id, n), s);
  }

  /** The single group emits every recorded series its alerts read exactly when the windows of all
      active tiers are recording windows: the case the validator warns about is the only gap. */
  lemma LegacyClosedIff(spec: Spec, nm: Naming, id: string)
    requires spec.single && spec.prometheus && spec.objectives != []
    requires forall t | t in spec.tiers :: ':' !in t.shortWindow && ':' !in t.longWindow
    ensures var group := LegacyGroup(spec, nm, id, |spec.objectives|);
      Closed(AlertsOf(group), group) <==> WindowsRecorded(spec)
  {
    var (n, group) := (|spec.objectives|, LegacyGroup(spec, nm, id, |spec.objectives|));
    hide LegacyAlerts, AlertsOf, LegacyGroup, RefsOf, Emits;
    if WindowsRecorded(spec) {
      forall a, s | a in AlertsOf(group) && s in RefsOf(a.expr) ensures Emits(group, s) {
        GroupAlerts(spec, nm, id, n, a);
        var k :| 0 <= k < n && a in LegacyAlerts(spec, nm, id, spec.objectives[k]);
        ReadIsEmitted(spec, nm, id, k, a, s);
      }
    } else {
      var t :| t in spec.tiers && Active(spec, t) && !(t.shortWindow in RecordingWindows && t.longWindow in RecordingWindows);
      var i :| 0 <= i < |spec.tiers| && spec.tiers[i] == t;
      UnrecordedIsMissing(spec, nm, id, i, if t.shortWindow in RecordingWindows then t.longWindow else t.shortWindow);
    }
  }

  /** In the deduplicating path the series an objective's alerts read are those of its fingerprint's
      shared group. */
  lemma DedupClosed(spec: Spec, nm: Naming, id: string, o: Objective, fp: string, ratioExpr: string -> string)
    requires WindowsRecorded(spec)
    ensures Closed(DedupAlerts(spec, nm, id, o, fp), RecordingGroup(fp, ratioExpr, |RecordingWindows|))
  {
    hide LegacyAlerts, DedupAlerts, LegacySeries, DedupSeries;
    var (ls, ds) := (LegacyAlerts(spec, nm, id, o), DedupAlerts(spec, nm, id, o, fp));
    SameObjective(spec, nm, id, o, fp);
    ObjectiveReads(spec, nm, id, o);
    forall i, s | 0 <= i < |ds| && s in RefsOf(ds[i].expr)
      ensures Emits(RecordingGroup(fp, ratioExpr, |RecordingWindows|), s)
    {
      assert SameAlert(nm, id, o, fp, ls[i], ds[i]) && ls[i] in ls;
      DedupReads(spec, nm, id, o, fp, ratioExpr, ls[i].expr, ds[i].expr, s);
    }
  }

  lemma DedupReads(spec: Spec, nm: Naming, id: string, o: Objective, fp: string, ratioExpr: string -> string,
                   l: Expr, d: Expr, s: string)
    requires SameTest(nm, id, o, fp, l, d) && s in RefsOf(d) && WindowsRecorded(spec)
    requires forall r | r in RefsOf(l) :: exists w :: MayRead(spec, w) && r == LegacySeries(nm, o, w)
    ensures Emits(RecordingGroup(fp, ratioExpr, |RecordingWindows|), s)
  {
    var w :| s == DedupSeries(fp, w) && LegacySeries(nm, o, w) in RefsOf(l);
    hide LegacySeries, DedupSeries, RefsOf, SameTest;
    var r := LegacySeries(nm, o, w);
    var v :| MayRead(spec, v) && r == LegacySeries(nm, o, v);
    SeriesInjective(nm, o, v, w);
    var i :| 0 <= i < |RecordingWindows| && RecordingWindows[i] == w;
    assert RecordingGroup(fp, ratioExpr, |RecordingWindows|)[i].name == s;
  }

  lemma SeriesInjective(nm: Naming, o: Objective, v: string, w: string)
    requires LegacySeries(nm, o, v) == LegacySeries(nm, o, w)
    ensures v == w
  {
    var (s, t) := (v + (":" + Tail(nm, o)), w + (":" + Tail(nm, o)));
    assert (RatioPrefix + s)[|RatioPrefix|..] == s && (RatioPrefix + t)[|RatioPrefix|..] == t;
    assert |v| == |w| && s[..|v|] == v && t[..|w|] == w;
  }
}
