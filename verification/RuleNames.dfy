/** All rule names of a single group are distinct, given that the hash suffix tells the objectives of
    an SLO apart. */
module RuleNames {
  import opened Options
  import opened Text
  import opened Decimal
  import opened Windows
  import opened RuleGroups
  import RuleClosure

  /** What names a rule within its objective. */
  datatype Kind = Record(window: string) | Burn(i: nat) | Health | Attain | Warn(i: nat) | NoData

  predicate IsKind(spec: Spec, k: Kind) {
    match k
    case Record(w) => w in RecordingWindows
    case Burn(i) => i < |spec.tiers| && i < 4
    case Warn(i) => i < |spec.warnings|
    case _ => true
  }

  function NameOf(spec: Spec, nm: Naming, o: Objective, k: Kind): string
    requires IsKind(spec, k)
  {
    match k
    case Record(w) => LegacySeries(nm, o, w)
    case Burn(i) => BurnRateName(nm, o, i)
    case Health => "SLO_SLIHealth_" + Tail(nm, o)
    case Attain => "SLO_Attainment_" + Tail(nm, o)
    case Warn(i) => WarningName(spec, nm, o, i)
    case NoData => "SLO_NoData_" + Tail(nm, o)
  }

  /** The suffix is eight characters, none of them an underscore. */
  ghost predicate Suffixed(nm: Naming) {
    forall name :: |nm.suffix(name)| == 8 && '_' !in nm.suffix(name)
  }

  // ---------- the head of a name tells its kind ----------

  function Head(k: Kind): string
    requires k.Burn? ==> k.i < 4
  {
    match k
    case Record(w) => RatioPrefix + (w + ":")
    case Burn(i) => "SLO_BurnRate_" + (TierLabel(i) + "_")
    case Health => "SLO_SLIHealth_"
    case Attain => "SLO_Attainment_"
    case Warn(i) => "SLO_Warning_"
    case NoData => "SLO_NoData_"
  }

  lemma Regroup3(a: string, b: string, c: string, d: string)
    ensures a + (b + (c + d)) == (a + (b + c)) + d
  {
    Regroup(b, c, d);
    Regroup(a, b + c, d);
  }

  lemma HeadOfName(spec: Spec, nm: Naming, o: Objective, k: Kind)
    requires IsKind(spec, k) && !k.Warn?
    ensures NameOf(spec, nm, o, k) == Head(k) + Tail(nm, o)
  {
    hide Tail, TierLabel;
    if k.Record? { Regroup3(RatioPrefix, k.window, ":", Tail(nm, o)); }
    if k.Burn? { Regroup3("SLO_BurnRate_", TierLabel(k.i), "_", Tail(nm, o)); }
  }

  lemma HeadOfWarning(spec: Spec, nm: Naming, o: Objective, i: nat)
    requires i < |spec.warnings|
    ensures Head(Warn(i)) <= NameOf(spec, nm, o, Warn(i))
  {
  }

  /** Which of two kinds a name has shows in its fifth character. */
  lemma HeadsDiffer(j: Kind, k: Kind)
    requires (j.Burn? ==> j.i < 4) && (k.Burn? ==> k.i < 4)
    ensures |Head(j)| > 4 && |Head(k)| > 4
    ensures Head(j)[0] == Head(k)[0] && Head(j)[4] == Head(k)[4] ==>
      (j.Record? <==> k.Record?) && (j.Burn? <==> k.Burn?) && (j.Health? <==> k.Health?)
      && (j.Attain? <==> k.Attain?) && (j.Warn? <==> k.Warn?) && (j.NoData? <==> k.NoData?)
  {
    HeadStart(j);
    HeadStart(k);
  }

  lemma HeadStart(k: Kind)
    requires k.Burn? ==> k.i < 4
    ensures |Head(k)| > 4
    ensures Head(k)[0] == if k.Record? then 's' else 'S'
    ensures !k.Record? ==> Head(k)[4] == match k
      case Burn(_) => 'B' case Health => 'S' case Attain => 'A' case Warn(_) => 'W' case _ => 'N'
  {
    assert |RatioPrefix| == 25 && RatioPrefix[0] == 's';
  }

  /** Names of one kind with different windows or tiers part within their heads. */
  lemma SameHead(j: Kind, k: Kind, x: string, y: string)
    requires (j.Burn? && k.Burn? && j.i < 4 && k.i < 4)
      || (j.Record? && k.Record? && j.window in RecordingWindows && k.window in RecordingWindows)
    requires Head(j) + x == Head(k) + y
    ensures j == k && x == y
  {
    if j.Burn? { SameTier(j.i, k.i, x, y); } else { SameWindow(j.window, k.window, x, y); }
  }

  lemma SameWindow(v: string, w: string, x: string, y: string)
    requires v in RecordingWindows && w in RecordingWindows
    requires Head(Record(v)) + x == Head(Record(w)) + y
    ensures v == w && x == y
  {
    hide RatioPrefix, RecordingWindows;
    RuleClosure.NoColon(v);
    RuleClosure.NoColon(w);
    Regroup3(RatioPrefix, v, ":", x);
    Regroup3(RatioPrefix, w, ":", y);
    RuleClosure.SameSeriesSameWindow(x, y, v, w);
  }

  lemma SameTier(i: nat, j: nat, x: string, y: string)
    requires i < 4 && j < 4 && Head(Burn(i)) + x == Head(Burn(j)) + y
    ensures i == j && x == y
  {
    var (h, g) := (Head(Burn(i)), Head(Burn(j)));
    TierChars(i);
    TierChars(j);
    assert (h + x)[13] == (g + y)[13] && (h + x)[17] == (g + y)[17] && (h + x)[19] == (g + y)[19];
    assert i == j;
    assert (h + x)[|h|..] == x && (g + y)[|g|..] == y;
  }

  lemma TierChars(i: nat)
    requires i < 4
    ensures var h := Head(Burn(i));
      && |h| >= 20
      && h[13] == (if i < 2 then 'P' else 'T')
      && (i < 2 ==> h[17] == if i == 0 then 'Q' else 'S')
      && (i >= 2 ==> h[19] == if i == 2 then 'Q' else 'S')
  {
    var h := Head(Burn(i));
    assert h == "SLO_BurnRate_" + (TierLabels[i] + "_");
  }

  // ---------- the tail tells the objective ----------

  lemma SameTail(nm: Naming, o: Objective, p: Objective)
    requires Suffixed(nm) && Tail(nm, o) == Tail(nm, p)
    ensures nm.suffix(o.name) == nm.suffix(p.name)
  {
    Regroup(nm.slug(o.name), "_", nm.suffix(o.name));
    Regroup(nm.slug(p.name), "_", nm.suffix(p.name));
    LastEight(nm.slug(o.name) + "_", nm.suffix(o.name), nm.slug(p.name) + "_", nm.suffix(p.name));
  }

  lemma LastEight(a: string, s: string, b: string, t: string)
    requires |s| == |t| && a + s == b + t
    ensures s == t && a == b
  {
    assert |a| == |b|;
    assert (a + s)[|a|..] == s && (b + t)[|b|..] == t && (a + s)[..|a|] == a && (b + t)[..|b|] == b;
  }

  /** The part after the last underscore. */
  lemma SameAfterUnderscore(a: string, s: string, b: string, t: string)
    requires '_' !in s && '_' !in t && a + ("_" + s) == b + ("_" + t)
    ensures s == t && a == b
  {
    var (x, y) := (a + ("_" + s), b + ("_" + t));
    assert x[|a|] == '_' && y[|b|] == '_';
    assert forall i | |a| < i < |x| :: x[i] == s[i - |a| - 1];
    assert forall i | |b| < i < |y| :: y[i] == t[i - |b| - 1];
    assert |a| == |b|;
    LastEight(a, "_" + s, b, "_" + t);
    assert ("_" + s)[1..] == s && ("_" + t)[1..] == t;
  }

  lemma NoUnderscore(i: nat)
    ensures '_' !in NumText(i)
  {
    var s := NumText(i);
    assert forall k | 0 <= k < |s| :: IsDigit(s[k]);
  }

  lemma SameNumber(i: nat, j: nat)
    requires NumText(i) == NumText(j)
    ensures i == j
  {
    ValueOfText(i);
    ValueOfText(j);
  }

  lemma SameWarning(spec: Spec, nm: Naming, o: Objective, p: Objective, i: nat, j: nat)
    requires Suffixed(nm) && i < |spec.warnings| && j < |spec.warnings|
    requires WarningName(spec, nm, o, i) == WarningName(spec, nm, p, j)
    ensures i == j && nm.suffix(o.name) == nm.suffix(p.name)
  {
    var (a, b) := (WarningStem(spec, nm, o, i), WarningStem(spec, nm, p, j));
    hide WarningStem;
    if |spec.warnings| > 1 {
      NoUnderscore(i);
      NoUnderscore(j);
      WarningIs(spec, nm, o, i);
      WarningIs(spec, nm, p, j);
      SameAfterUnderscore(a + nm.suffix(o.name), NumText(i), b + nm.suffix(p.name), NumText(j));
      SameNumber(i, j);
    } else {
      WarningIs(spec, nm, o, i);
      WarningIs(spec, nm, p, j);
      assert a + nm.suffix(o.name) + "" == a + nm.suffix(o.name);
      assert b + nm.suffix(p.name) + "" == b + nm.suffix(p.name);
    }
    LastEight(a, nm.suffix(o.name), b, nm.suffix(p.name));
  }

  function WarningStem(spec: Spec, nm: Naming, o: Objective, i: nat): string
    requires i < |spec.warnings|
  {
    "SLO_Warning_" + (nm.percent(spec.warnings[i].threshold) + ("pct_" + (nm.slug(o.name) + "_")))
  }

  lemma WarningIs(spec: Spec, nm: Naming, o: Objective, i: nat)
    requires i < |spec.warnings|
    ensures WarningName(spec, nm, o, i) == (WarningStem(spec, nm, o, i) + nm.suffix(o.name))
      + (if |spec.warnings| > 1 then "_" + NumText(i) else "")
  {
    var (h, p, s, x) := ("SLO_Warning_", nm.percent(spec.warnings[i].threshold), nm.slug(o.name), nm.suffix(o.name));
    Regroup(s, "_", x);
    Regroup("pct_", s + "_", x);
    Regroup(p, "pct_" + (s + "_"), x);
    Regroup(h, p + ("pct_" + (s + "_")), x);
  }

  /** Two rules of a group have the same name only if they are the same rule of the same objective. */
  lemma NamesAreDistinct(spec: Spec, nm: Naming, o: Objective, p: Objective, j: Kind, k: Kind)
    requires Suffixed(nm) && IsKind(spec, j) && IsKind(spec, k)
    requires o.name != p.name ==> nm.suffix(o.name) != nm.suffix(p.name)
    requires NameOf(spec, nm, o, j) == NameOf(spec, nm, p, k)
    ensures j == k && o.name == p.name
  {
    hide NameOf, Head, Tail, Suffixed, WarningName;
    NameHead(spec, nm, o, j);
    NameHead(spec, nm, p, k);
    HeadsDiffer(j, k);
    if j.Warn? {
      WarnIs(spec, nm, o, j.i);
      WarnIs(spec, nm, p, k.i);
      SameWarning(spec, nm, o, p, j.i, k.i);
    } else {
      HeadOfName(spec, nm, o, j);
      HeadOfName(spec, nm, p, k);
      if j.Burn? || j.Record? { SameHead(j, k, Tail(nm, o), Tail(nm, p)); } else { SameRest(Head(j), Tail(nm, o), Tail(nm, p)); }
      SameTail(nm, o, p);
    }
  }

  lemma NameHead(spec: Spec, nm: Naming, o: Objective, k: Kind)
    requires IsKind(spec, k)
    ensures Head(k) <= NameOf(spec, nm, o, k)
  {
    hide NameOf, Head, Tail;
    if k.Warn? { HeadOfWarning(spec, nm, o, k.i); } else { HeadOfName(spec, nm, o, k); }
  }

  lemma WarnIs(spec: Spec, nm: Naming, o: Objective, i: nat)
    requires i < |spec.warnings|
    ensures NameOf(spec, nm, o, Warn(i)) == WarningName(spec, nm, o, i)
  {
  }

  lemma SameRest(h: string, x: string, y: string)
    requires h + x == h + y
    ensures x == y
  {
    assert (h + x)[|h|..] == x && (h + y)[|h|..] == y;
  }

  // ---------- the rules of a group ----------

  function RuleName(r: Rule): string { if r.Recording? then r.name else r.alert.name }

  ghost predicate DistinctKinds(kinds: seq<Kind>) { forall i, j | 0 <= i < j < |kinds| :: kinds[i] != kinds[j] }

  ghost predicate DistinctNames(rules: seq<Rule>) {
    forall i, j | 0 <= i < j < |rules| :: RuleName(rules[i]) != RuleName(rules[j])
  }

  /** The rules of an objective are named by these kinds, in order. */
  ghost predicate Named(spec: Spec, nm: Naming, o: Objective, rules: seq<Rule>, kinds: seq<Kind>) {
    && |rules| == |kinds|
    && forall i | 0 <= i < |kinds| :: IsKind(spec, kinds[i]) && RuleName(rules[i]) == NameOf(spec, nm, o, kinds[i])
  }

  function RecordKinds(n: nat): (r: seq<Kind>)
    requires n <= |RecordingWindows|
    ensures |r| == n && forall i | 0 <= i < n :: r[i] == Record(RecordingWindows[i])
  {
    if n == 0 then [] else RecordKinds(n - 1) + [Record(RecordingWindows[n - 1])]
  }

  function BurnKinds(spec: Spec, n: nat): (r: seq<Kind>)
    requires n <= |spec.tiers|
    ensures forall k | k in r :: k.Burn? && k.i < n
  {
    if n == 0 then []
    else if spec.shadow || !spec.tiers[n - 1].createAlarm then BurnKinds(spec, n - 1)
    else BurnKinds(spec, n - 1) + [Burn(n - 1)]
  }

  function RecordingKinds(spec: Spec): (r: seq<Kind>)
    ensures forall k | k in r :: k.Record?
  {
    if spec.prometheus then RecordKinds(|RecordingWindows|) else []
  }

  function HealthKinds(spec: Spec): (r: seq<Kind>)
    ensures |r| <= 1 && forall k | k in r :: k.Health?
  {
    if !spec.sliHealth || spec.shadow then [] else [Health]
  }

  function AttainKinds(spec: Spec): (r: seq<Kind>)
    ensures |r| <= 1 && forall k | k in r :: k.Attain?
  {
    if !spec.attainment || spec.shadow || spec.rolling.None? then [] else [Attain]
  }

  function WarningKinds(spec: Spec, n: nat): (r: seq<Kind>)
    requires n <= |spec.warnings|
    ensures forall k | k in r :: k.Warn? && k.i < n
  {
    if n == 0 || !spec.budgetWarning || spec.shadow || spec.rolling.None? then []
    else WarningKinds(spec, n - 1) + [Warn(n - 1)]
  }

  function NoDataKinds(spec: Spec): (r: seq<Kind>)
    ensures |r| <= 1 && forall k | k in r :: k.NoData?
  {
    if !spec.noData || spec.shadow || !spec.single || !spec.prometheus || spec.source.None? then [] else [NoData]
  }

  function AlertKinds(spec: Spec): seq<Kind> {
    BurnKinds(spec, if spec.mwmbr then |spec.tiers| else 0) + HealthKinds(spec) + AttainKinds(spec)
    + WarningKinds(spec, |spec.warnings|) + NoDataKinds(spec)
  }

  lemma {:induction false} BurnKindsDistinct(spec: Spec, n: nat)
    requires n <= |spec.tiers|
    ensures DistinctKinds(BurnKinds(spec, n))
  {
    if n > 0 { BurnKindsDistinct(spec, n - 1); }
  }

  lemma {:induction false} WarningKindsDistinct(spec: Spec, n: nat)
    requires n <= |spec.warnings|
    ensures DistinctKinds(WarningKinds(spec, n))
  {
    if n > 0 { WarningKindsDistinct(spec, n - 1); }
  }

  lemma WindowsDiffer()
    ensures forall i, j | 0 <= i < j < |RecordingWindows| :: RecordingWindows[i] != RecordingWindows[j]
  {
    WindowLengths();
    hide ParseDurationToMs;
    forall i, j | 0 <= i < j < |RecordingWindows| ensures RecordingWindows[i] != RecordingWindows[j] {
      assert ParseDurationToMs(RecordingWindows[i]) < ParseDurationToMs(RecordingWindows[j]);
    }
  }

  lemma RecordingKindsDistinct(spec: Spec)
    ensures DistinctKinds(RecordingKinds(spec))
  {
    WindowsDiffer();
  }

  lemma DistinctJoined(a: seq<Kind>, b: seq<Kind>)
    requires DistinctKinds(a) && DistinctKinds(b) && forall k | k in a :: k !in b
    ensures DistinctKinds(a + b)
  {
    forall i, j | 0 <= i < j < |a + b| ensures (a + b)[i] != (a + b)[j] {
      if i < |a| && j >= |a| {
        assert (a + b)[i] in a && (a + b)[j] in b;
      } else if i >= |a| {
        assert (a + b)[i] == b[i - |a|] && (a + b)[j] == b[j - |a|];
      }
    }
  }

  lemma AlertKindsDistinct(spec: Spec)
    ensures DistinctKinds(AlertKinds(spec)) && forall k | k in AlertKinds(spec) :: !k.Record?
  {
    hide BurnKinds, HealthKinds, AttainKinds, WarningKinds, NoDataKinds;
    var n := if spec.mwmbr then |spec.tiers| else 0;
    BurnKindsDistinct(spec, n);
    WarningKindsDistinct(spec, |spec.warnings|);
    var (b, h, a, w) := (BurnKinds(spec, n), HealthKinds(spec), AttainKinds(spec), WarningKinds(spec, |spec.warnings|));
    DistinctJoined(b, h);
    DistinctJoined(b + h, a);
    DistinctJoined(b + h + a, w);
    DistinctJoined(b + h + a + w, NoDataKinds(spec));
  }

  function KindsOf(spec: Spec): seq<Kind> { RecordingKinds(spec) + AlertKinds(spec) }

  lemma KindsAreDistinct(spec: Spec)
    ensures DistinctKinds(KindsOf(spec))
  {
    hide RecordingKinds, AlertKinds;
    RecordingKindsDistinct(spec);
    AlertKindsDistinct(spec);
    DistinctJoined(RecordingKinds(spec), AlertKinds(spec));
  }

  lemma NamedJoined(spec: Spec, nm: Naming, o: Objective, rs: seq<Rule>, ks: seq<Kind>, rs': seq<Rule>, ks': seq<Kind>)
    requires Named(spec, nm, o, rs, ks) && Named(spec, nm, o, rs', ks')
    ensures Named(spec, nm, o, rs + rs', ks + ks')
  {
    hide NameOf, RuleName, IsKind;
  }

  ghost predicate NamedAlerts(spec: Spec, nm: Naming, o: Objective, alerts: seq<Alert>, kinds: seq<Kind>) {
    && |alerts| == |kinds|
    && forall i | 0 <= i < |kinds| :: IsKind(spec, kinds[i]) && alerts[i].name == NameOf(spec, nm, o, kinds[i])
  }

  lemma AlertsNamedJoined(spec: Spec, nm: Naming, o: Objective, a: seq<Alert>, ks: seq<Kind>, a': seq<Alert>, ks': seq<Kind>)
    requires NamedAlerts(spec, nm, o, a, ks) && NamedAlerts(spec, nm, o, a', ks')
    ensures NamedAlerts(spec, nm, o, a + a', ks + ks')
  {
    hide NameOf, IsKind;
  }

  lemma {:induction false} BurnsNamed(spec: Spec, nm: Naming, id: string, o: Objective, n: nat)
    requires n <= |spec.tiers| <= 4
    ensures NamedAlerts(spec, nm, o, BurnRateAlerts(spec, nm, id, o, n), BurnKinds(spec, n))
  {
    hide BurnRateName, TierLabelsOf, LegacyRef, ErrorBudget;
    if n > 0 { BurnsNamed(spec, nm, id, o, n - 1); }
  }

  lemma LastWarning(spec: Spec, nm: Naming, id: string, o: Objective, n: nat)
    requires 0 < n <= |spec.warnings| && spec.budgetWarning && !spec.shadow && spec.rolling.Some?
    ensures var (now, before) := (WarningAlerts(spec, nm, id, o, n), WarningAlerts(spec, nm, id, o, n - 1));
      |now| == |before| + 1 && now[..|before|] == before && now[|before|].name == WarningName(spec, nm, o, n - 1)
  {
    hide WarningName, WarningLabels, LegacyRef, ErrorBudget;
  }

  lemma {:induction false} WarningsNamed(spec: Spec, nm: Naming, id: string, o: Objective, n: nat)
    requires n <= |spec.warnings|
    ensures NamedAlerts(spec, nm, o, WarningAlerts(spec, nm, id, o, n), WarningKinds(spec, n))
  {
    if n > 0 && spec.budgetWarning && !spec.shadow && spec.rolling.Some? {
      WarningsNamed(spec, nm, id, o, n - 1);
      WarnIs(spec, nm, o, n - 1);
      LastWarning(spec, nm, id, o, n);
      hide NameOf, WarningName, WarningAlerts;
    }
  }

  lemma OthersNamed(spec: Spec, nm: Naming, id: string, o: Objective)
    ensures NamedAlerts(spec, nm, o, SliHealthAlerts(spec, nm, id, o), HealthKinds(spec))
    ensures NamedAlerts(spec, nm, o, AttainmentAlerts(spec, nm, id, o), AttainKinds(spec))
    ensures NamedAlerts(spec, nm, o, NoDataAlerts(spec, nm, id, o), NoDataKinds(spec))
  {
    hide Tail, SliHealthLabels, AttainmentLabels, CommonLabels, LegacyRef, ErrorBudget;
  }

  lemma LegacyAlertsNamed(spec: Spec, nm: Naming, id: string, o: Objective)
    requires |spec.tiers| <= 4
    ensures NamedAlerts(spec, nm, o, LegacyAlerts(spec, nm, id, o), AlertKinds(spec))
  {
    hide NamedAlerts, BurnRateAlerts, SliHealthAlerts, AttainmentAlerts, WarningAlerts, NoDataAlerts, BurnKinds,
         HealthKinds, AttainKinds, WarningKinds, NoDataKinds;
    var n := if spec.mwmbr then |spec.tiers| else 0;
    BurnsNamed(spec, nm, id, o, n);
    OthersNamed(spec, nm, id, o);
    WarningsNamed(spec, nm, id, o, |spec.warnings|);
    var (kb, kh, ka, kw) := (BurnKinds(spec, n), HealthKinds(spec), AttainKinds(spec), WarningKinds(spec, |spec.warnings|));
    var (b, h, a, w) := (BurnRateAlerts(spec, nm, id, o, n), SliHealthAlerts(spec, nm, id, o),
                         AttainmentAlerts(spec, nm, id, o), WarningAlerts(spec, nm, id, o, |spec.warnings|));
    AlertsNamedJoined(spec, nm, o, b, kb, h, kh);
    AlertsNamedJoined(spec, nm, o, b + h, kb + kh, a, ka);
    AlertsNamedJoined(spec, nm, o, b + h + a, kb + kh + ka, w, kw);
    AlertsNamedJoined(spec, nm, o, b + h + a + w, kb + kh + ka + kw, NoDataAlerts(spec, nm, id, o), NoDataKinds(spec));
  }

  lemma ObjectiveNamed(spec: Spec, nm: Naming, id: string, o: Objective)
    requires |spec.tiers| <= 4
    ensures Named(spec, nm, o, ObjectiveRules(spec, nm, id, o), KindsOf(spec))
  {
    hide LegacyAlerts, AlertKinds, RecordingKinds, Named, NamedAlerts;
    LegacyAlertsNamed(spec, nm, id, o);
    RecordsNamed(spec, nm, id, o);
    AlertRulesNamed(spec, nm, o, LegacyAlerts(spec, nm, id, o), AlertKinds(spec));
    NamedJoined(spec, nm, o, if spec.prometheus then RecordingRules(spec, nm, id, o, |RecordingWindows|) else [],
      RecordingKinds(spec), AsRules(LegacyAlerts(spec, nm, id, o)), AlertKinds(spec));
  }

  lemma RecordsNamed(spec: Spec, nm: Naming, id: string, o: Objective)
    ensures Named(spec, nm, o, if spec.prometheus then RecordingRules(spec, nm, id, o, |RecordingWindows|) else [],
                  RecordingKinds(spec))
  {
    hide LegacySeries, CommonLabels;
  }

  lemma AlertRulesNamed(spec: Spec, nm: Naming, o: Objective, alerts: seq<Alert>, kinds: seq<Kind>)
    requires NamedAlerts(spec, nm, o, alerts, kinds)
    ensures Named(spec, nm, o, AsRules(alerts), kinds)
  {
    hide NameOf, IsKind;
  }

  lemma ObjectiveNamesDistinct(spec: Spec, nm: Naming, id: string, o: Objective)
    requires |spec.tiers| <= 4 && Suffixed(nm)
    ensures DistinctNames(ObjectiveRules(spec, nm, id, o))
  {
    hide ObjectiveRules, KindsOf, NameOf, RuleName, IsKind, Suffixed;
    ObjectiveNamed(spec, nm, id, o);
    KindsAreDistinct(spec);
    var (rules, kinds) := (ObjectiveRules(spec, nm, id, o), KindsOf(spec));
    forall i, j | 0 <= i < j < |rules| ensures RuleName(rules[i]) != RuleName(rules[j]) {
      if RuleName(rules[i]) == RuleName(rules[j]) { NamesAreDistinct(spec, nm, o, o, kinds[i], kinds[j]); }
    }
  }

  /** The suffix tells the objectives of an SLO apart, which validation gives distinct names. */
  ghost predicate SuffixInjective(spec: Spec, nm: Naming) {
    forall i, j | 0 <= i < j < |spec.objectives| :: nm.suffix(spec.objectives[i].name) != nm.suffix(spec.objectives[j].name)
  }

  ghost predicate NamedIn(spec: Spec, nm: Naming, n: nat, name: string)
    requires n <= |spec.objectives|
  {
    exists i, k :: 0 <= i < n && IsKind(spec, k) && name == NameOf(spec, nm, spec.objectives[i], k)
  }

  lemma {:induction false} GroupNamesDistinct(spec: Spec, nm: Naming, id: string, n: nat)
    requires |spec.tiers| <= 4 && Suffixed(nm) && SuffixInjective(spec, nm) && n <= |spec.objectives|
    ensures DistinctNames(LegacyGroup(spec, nm, id, n))
    ensures forall r | r in LegacyGroup(spec, nm, id, n) :: NamedIn(spec, nm, n, RuleName(r))
  {
    hide ObjectiveRules, KindsOf, NameOf, RuleName, IsKind, Suffixed, NamedIn, DistinctNames;
    if n == 0 || !spec.single { NoNames(); return; }
    GroupNamesDistinct(spec, nm, id, n - 1);
    var (before, o) := (LegacyGroup(spec, nm, id, n - 1), spec.objectives[n - 1]);
    var rules := ObjectiveRules(spec, nm, id, o);
    ObjectiveNamesDistinct(spec, nm, id, o);
    ObjectiveNamed(spec, nm, id, o);
    forall r, x | r in before && x in rules ensures RuleName(r) != RuleName(x) {
      var i :| 0 <= i < |rules| && rules[i] == x;
      NotNamedBefore(spec, nm, n, RuleName(r), KindsOf(spec)[i]);
    }
    NamesJoined(before, rules);
    forall r | r in before + rules ensures NamedIn(spec, nm, n, RuleName(r)) {
      if r in before {
        NamedStays(spec, nm, n, RuleName(r));
      } else {
        var i :| 0 <= i < |rules| && rules[i] == r;
        NamedHere(spec, nm, n, KindsOf(spec)[i]);
      }
    }
  }

  lemma NoNames()
    ensures DistinctNames([])
  {
  }

  lemma NamedStays(spec: Spec, nm: Naming, n: nat, name: string)
    requires 0 < n <= |spec.objectives| && NamedIn(spec, nm, n - 1, name)
    ensures NamedIn(spec, nm, n, name)
  {
  }

  lemma NamedHere(spec: Spec, nm: Naming, n: nat, k: Kind)
    requires 0 < n <= |spec.objectives| && IsKind(spec, k)
    ensures NamedIn(spec, nm, n, NameOf(spec, nm, spec.objectives[n - 1], k))
  {
    hide NameOf;
  }

  lemma NotNamedBefore(spec: Spec, nm: Naming, n: nat, name: string, k: Kind)
    requires 0 < n <= |spec.objectives| && Suffixed(nm) && SuffixInjective(spec, nm)
    requires NamedIn(spec, nm, n - 1, name) && IsKind(spec, k)
    ensures name != NameOf(spec, nm, spec.objectives[n - 1], k)
  {
    hide NameOf, Suffixed, IsKind;
    var i, j :| 0 <= i < n - 1 && IsKind(spec, j) && name == NameOf(spec, nm, spec.objectives[i], j);
    var (o, p) := (spec.objectives[i], spec.objectives[n - 1]);
    assert nm.suffix(o.name) != nm.suffix(p.name);
    if name == NameOf(spec, nm, p, k) { NamesAreDistinct(spec, nm, o, p, j, k); }
  }

  lemma NamesJoined(a: seq<Rule>, b: seq<Rule>)
    requires DistinctNames(a) && DistinctNames(b)
    requires forall r, x | r in a && x in b :: RuleName(r) != RuleName(x)
    ensures DistinctNames(a + b)
  {
    hide RuleName;
    forall i, j | 0 <= i < j < |a + b| ensures RuleName((a + b)[i]) != RuleName((a + b)[j]) {
      if i < |a| && j >= |a| {
        assert (a + b)[i] in a && (a + b)[j] in b;
      } else if i >= |a| {
        assert (a + b)[i] == b[i - |a|] && (a + b)[j] == b[j - |a|];
      }
    }
  }
}
