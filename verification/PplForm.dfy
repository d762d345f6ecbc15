/** Saving a PPL monitor form, seeding the editor from what was saved, and saving it again. */
module PplForm {
  import opened Options
  import opened Text
  import opened PplLookback
  import opened PplLookbackExact

  datatype Action = Action(name: string, destination: string, subject: string, message: string,
                           throttled: bool, throttle: int)

  datatype Condition = Results(op: string, value: int) | Custom(text: string)

  datatype Trigger = Trigger(id: Option<string>, name: string, severity: string, condition: Condition, actions: seq<Action>)

  datatype Schedule = Schedule(interval: int, unit: string)

  /** The look-back window as the form holds it: `unit` is free text. */
  datatype Window = Window(on: bool, amount: real, unit: string, field: string)

  datatype Form = Form(name: string, enabled: bool, query: string, schedule: Schedule, triggers: seq<Trigger>, window: Window)

  // ---------- what is saved ----------

  datatype ActionPayload = ActionPayload(
    name: string, destination: string, message: string, subject: Option<string>, throttle: Option<int>)

  datatype TriggerPayload = TriggerPayload(
    id: Option<string>, name: string, severity: string, condition: Condition, actions: seq<ActionPayload>)

  datatype Payload = Payload(name: string, enabled: bool, query: string, schedule: Schedule, triggers: seq<TriggerPayload>)

  const ThrottleMin: int := 1
  const ThrottleDefault: int := 10

  const Operators: set<string> := {">", ">=", "<", "<=", "==", "!="}

  predicate ClientGenerated(id: string) { "ppl-trigger-" <= id }

  method BuildPplActionPayload(action: Action) returns (out: ActionPayload)
    ensures out == ActionPayloadOf(action)
  {
    out := ActionPayload(action.name, action.destination, action.message, None, None);
    if Trim(action.subject) != "" { out := out.(subject := Some(action.subject)); }
    if action.throttled {
      out := out.(throttle := Some(if action.throttle >= ThrottleMin then action.throttle else ThrottleDefault));
    }
  }

  function ActionPayloadOf(a: Action): ActionPayload {
    ActionPayload(a.name, a.destination, a.message,
      if Trim(a.subject) != "" then Some(a.subject) else None,
      if !a.throttled then None
      else if a.throttle >= ThrottleMin then Some(a.throttle) else Some(ThrottleDefault))
  }

  function ConditionOf(c: Condition): Condition {
    if c.Results? && c.op !in Operators then c.(op := ">") else c
  }

  function ActionsOf(actions: seq<Action>): (r: seq<ActionPayload>)
    ensures |r| == |actions| && forall i | 0 <= i < |r| :: r[i] == ActionPayloadOf(actions[i])
  {
    seq(|actions|, i requires 0 <= i < |actions| => ActionPayloadOf(actions[i]))
  }

  /** Ids the client made up are not sent. */
  function TriggerPayloadOf(t: Trigger): TriggerPayload {
    TriggerPayload(
      if t.id.Some? && t.id.value != "" && !ClientGenerated(t.id.value) then t.id else None,
      t.name, t.severity, ConditionOf(t.condition), ActionsOf(t.actions))
  }

  method BuildPplTriggerPayload(t: Trigger) returns (body: TriggerPayload)
    ensures body == TriggerPayloadOf(t)
  {
    var actions: seq<ActionPayload> := [];
    for i := 0 to |t.actions|
      invariant |actions| == i && forall j | 0 <= j < i :: actions[j] == ActionPayloadOf(t.actions[j])
    {
      var a := BuildPplActionPayload(t.actions[i]);
      actions := actions + [a];
    }
    body := TriggerPayload(None, t.name, t.severity, t.condition, actions);
    if t.id.Some? && t.id.value != "" && !ClientGenerated(t.id.value) { body := body.(id := t.id); }
    if t.condition.Results? && t.condition.op !in Operators {
      body := body.(condition := t.condition.(op := ">"));
    }
    assert actions == ActionsOf(t.actions);
  }

  // ---------- the window ----------

  function Floored(x: real): int { x.Floor }

  /** Zero when the window is off. */
  function ComputeLookBackMinutes(w: Window): int {
    if !w.on || w.amount <= 0.0 then 0
    else
      var unit := if w.unit == "" then "hours" else w.unit;
      if StartsWithWord(unit, "minute") then Floored(w.amount)
      else if StartsWithWord(unit, "hour") then Floored(w.amount * 60.0)
      else if StartsWithWord(unit, "day") then Floored(w.amount * 1440.0)
      else Floored(w.amount)
  }

  predicate Injects(w: Window) { w.field != "" && ComputeLookBackMinutes(w) > 0 }

  function ApplyLookBackToQuery(query: string, w: Window): string {
    if Injects(w) then AddTimeFilterToQuery(query, ComputeLookBackMinutes(w), w.field) else query
  }

  function TriggersOf(triggers: seq<Trigger>): (r: seq<TriggerPayload>)
    ensures |r| == |triggers| && forall i | 0 <= i < |r| :: r[i] == TriggerPayloadOf(triggers[i])
  {
    seq(|triggers|, i requires 0 <= i < |triggers| => TriggerPayloadOf(triggers[i]))
  }

  function TransformPplFormToPayload(form: Form): Payload {
    Payload(form.name, form.enabled, ApplyLookBackToQuery(form.query, form.window), form.schedule, TriggersOf(form.triggers))
  }

  // ---------- seeding the editor ----------

  function ActionSeed(a: ActionPayload): Action {
    Action(a.name, a.destination, if a.subject.Some? then a.subject.value else "", a.message,
      a.throttle.Some?, if a.throttle.Some? then a.throttle.value else ThrottleDefault)
  }

  const Severities: set<string> := {"1", "2", "3", "4", "5"}

  function TriggerSeed(t: TriggerPayload): Trigger {
    Trigger(t.id, t.name, if t.severity in Severities then t.severity else "3",
      match t.condition
      case Results(op, value) => Results(if op in Operators then op else ">", value)
      case Custom(text) => Custom(if text == "" then "where " else text),
      seq(|t.actions|, i requires 0 <= i < |t.actions| => ActionSeed(t.actions[i])))
  }

  function UnitText(unit: Unit): string {
    match unit case Minutes => "minutes" case Hours => "hours" case Days => "days"
  }

  function WindowSeed(p: Option<LookBack>): Window {
    if p.None? then Window(false, 1.0, "hours", "")
    else Window(true, p.value.amount as real, UnitText(p.value.unit), p.value.field)
  }

  /** The form the editor starts from. */
  function UnifiedRuleToOsForm(saved: Payload): Form {
    var p := ParseLookBackFromQuery(saved.query);
    Form(saved.name, saved.enabled, if p.Some? then p.value.query else saved.query, saved.schedule,
      seq(|saved.triggers|, i requires 0 <= i < |saved.triggers| => TriggerSeed(saved.triggers[i])),
      WindowSeed(p))
  }

  // ---------- what the validator guarantees ----------

  predicate ValidCondition(c: Condition) {
    match c case Results(op, _) => op in Operators case Custom(text) => StartsWithWord(TrimStart(text), "where")
  }

  predicate ValidForm(form: Form) {
    && Trim(form.query) != ""
    && (form.window.on && form.window.field != "" ==> 1 <= ComputeLookBackMinutes(form.window) <= 10080)
    && forall t | t in form.triggers ::
         t.severity in Severities && ValidCondition(t.condition)
         && forall a | a in t.actions :: a.throttled ==> a.throttle >= ThrottleMin
  }

  // ---------- saving an unchanged edit ----------

  /** A saved action is a fixed point of seeding and saving, whatever the form held. */
  lemma ActionAgain(a: Action)
    ensures ActionPayloadOf(ActionSeed(ActionPayloadOf(a))) == ActionPayloadOf(a)
  {
    hide Trim;
    EmptyTrims();
  }

  lemma EmptyTrims()
    ensures Trim("") == ""
  {
  }

  /** A saved trigger is one too, exactly when the editor knows its severity and its own condition, if
      it has one, is not empty. */
  lemma TriggerAgain(t: Trigger)
    ensures TriggerPayloadOf(TriggerSeed(TriggerPayloadOf(t))) == TriggerPayloadOf(t)
        <==> t.severity in Severities && t.condition != Custom("")
  {
    var saved := TriggerPayloadOf(t);
    var again := TriggerPayloadOf(TriggerSeed(saved));
    hide ActionPayloadOf, ActionSeed, ClientGenerated;
    forall i | 0 <= i < |t.actions| ensures again.actions[i] == saved.actions[i] {
      ActionAgain(t.actions[i]);
    }
    assert again.actions == saved.actions;
  }

  lemma {:induction false} TrimEndTwice(s: string)
    ensures TrimEnd(TrimEnd(s)) == TrimEnd(s)
  {
    hide IsSpace;
    if s != "" && IsSpace(s[|s| - 1]) { TrimEndTwice(s[..|s| - 1]); }
  }

  lemma NoPipeIn(query: string)
    requires forall i | 0 <= i < |query| :: !PipeAt(query, i)
    ensures !HasPipe(query)
  {
  }

  /** The clause goes back where it was. */
  lemma InsertedAgain(query: string, minutes: int, f: string)
    requires Stripped(query) != "" && f != "" && minutes > 0
    ensures AddTimeFilterToQuery(Stripped(query), minutes, f) == AddTimeFilterToQuery(query, minutes, f)
  {
    if !HasPipe(query) {
      TrimEndTwice(query);
      TrimEndIsPrefix(query);
      PrefixNoPipe(query, TrimEnd(query));
      NoPipeIn(TrimEnd(query));
      AppendedIs(query, minutes, f);
      AppendedIs(TrimEnd(query), minutes, f);
    }
  }

  lemma ParsedMinutes(query: string)
    ensures var p := ParseLookBackFromQuery(query);
      p.Some? ==> p.value.amount > 0 && p.value.minutes == p.value.amount * UnitMinutes(p.value.unit)
  {
    hide MatchSegment, WithoutSegment, PipesFrom;
  }

  /** The window the editor shows has the minutes that were parsed. */
  lemma SeededMinutes(p: LookBack)
    requires p.amount > 0 && p.minutes == p.amount * UnitMinutes(p.unit)
    ensures ComputeLookBackMinutes(WindowSeed(Some(p))) == p.minutes
  {
    var x := p.amount as real;
    assert Floored(x) == p.amount;
    assert x * 60.0 == (p.amount * 60) as real && x * 1440.0 == (p.amount * 1440) as real;
    match p.unit
    case Minutes => assert StartsWithWord("minutes", "minute");
    case Hours => assert StartsWithWord("hours", "hour") && !StartsWithWord("hours", "minute");
    case Days => assert StartsWithWord("days", "day") && Lower("days"[0]) != "hour"[0];
  }

  lemma StrippedNotEmpty(query: string)
    requires Trim(query) != ""
    ensures Stripped(query) != "" && query != ""
  {
    if TrimEnd(query) == "" {
      TrimmedAway(query);
      SpaceTrims(query);
    }
  }

  lemma SpaceTrims(s: string)
    requires AllSpace(s)
    ensures Trim(s) == ""
  {
    TrimStartPadded(s, "");
    assert s + "" == s;
  }

  /** The window can be read back, or there is none and the query does not start with its clause. */
  predicate Readable(form: Form) {
    if Injects(form.window) then Recoverable(form.query, form.window.field)
    else ParseLookBackFromQuery(form.query) == None
  }

  lemma QueryAgain(form: Form)
    requires ValidForm(form) && Readable(form)
    ensures var saved := ApplyLookBackToQuery(form.query, form.window);
      var p := ParseLookBackFromQuery(saved);
      ApplyLookBackToQuery(if p.Some? then p.value.query else saved, WindowSeed(p)) == saved
  {
    hide ParseLookBackFromQuery, AddTimeFilterToQuery, Stripped, Trim, Recoverable, Floored;
    if Injects(form.window) {
      var (minutes, f) := (ComputeLookBackMinutes(form.window), form.window.field);
      StrippedNotEmpty(form.query);
      RecoveredExactly(form.query, minutes, f);
      ParsedMinutes(AddTimeFilterToQuery(form.query, minutes, f));
      var p := ParseLookBackFromQuery(AddTimeFilterToQuery(form.query, minutes, f));
      SeededMinutes(p.value);
      InsertedAgain(form.query, minutes, f);
    }
  }

  /** Opening a saved rule and saving it unchanged reproduces what was saved. */
  lemma SaveEditSave(form: Form)
    requires ValidForm(form) && Readable(form)
    ensures var saved := TransformPplFormToPayload(form);
      TransformPplFormToPayload(UnifiedRuleToOsForm(saved)) == saved
  {
    var saved := TransformPplFormToPayload(form);
    var again := TransformPplFormToPayload(UnifiedRuleToOsForm(saved));
    hide ApplyLookBackToQuery, ParseLookBackFromQuery, WindowSeed, TriggerPayloadOf, TriggerSeed, Readable;
    QueryAgain(form);
    forall i | 0 <= i < |form.triggers| ensures again.triggers[i] == saved.triggers[i] {
      assert form.triggers[i] in form.triggers;
      TriggerAgain(form.triggers[i]);
    }
    assert again.triggers == saved.triggers;
  }

  // ---------- what a saved payload determines ----------

  /** One action: the same but for a subject that is blank either way. */
  predicate SameAction(a: Action, b: Action) {
    && a.name == b.name && a.destination == b.destination && a.message == b.message
    && (a.subject == b.subject || (Trim(a.subject) == "" && Trim(b.subject) == ""))
    && a.throttled == b.throttled && (a.throttled ==> a.throttle == b.throttle)
  }

  /** An id the backend gave. */
  predicate BackendId(id: Option<string>) { id.Some? && id.value != "" && !ClientGenerated(id.value) }

  predicate SameTrigger(t: Trigger, u: Trigger) {
    && t.name == u.name && t.severity == u.severity && t.condition == u.condition
    && (BackendId(t.id) || BackendId(u.id) ==> t.id == u.id)
    && |t.actions| == |u.actions| && forall i | 0 <= i < |t.actions| :: SameAction(t.actions[i], u.actions[i])
  }

  /** The window both saved queries filter by: the same minutes over the same field, or none. */
  predicate SameWindow(w: Window, v: Window) {
    && (Injects(w) <==> Injects(v))
    && (Injects(w) ==> w.field == v.field && ComputeLookBackMinutes(w) == ComputeLookBackMinutes(v))
  }

  lemma ActionDetermined(a: Action, b: Action)
    requires (a.throttled ==> a.throttle >= ThrottleMin) && (b.throttled ==> b.throttle >= ThrottleMin)
    ensures ActionPayloadOf(a) == ActionPayloadOf(b) <==> SameAction(a, b)
  {
    hide Trim;
  }

  predicate ValidTrigger(t: Trigger) {
    ValidCondition(t.condition) && forall a | a in t.actions :: a.throttled ==> a.throttle >= ThrottleMin
  }

  lemma TriggerDetermined(t: Trigger, u: Trigger)
    requires ValidTrigger(t) && ValidTrigger(u)
    ensures TriggerPayloadOf(t) == TriggerPayloadOf(u) <==> SameTrigger(t, u)
  {
    var (x, y) := (ActionsOf(t.actions), ActionsOf(u.actions));
    hide ActionPayloadOf, SameAction, ClientGenerated;
    forall i | 0 <= i < |t.actions| && i < |u.actions| ensures x[i] == y[i] <==> SameAction(t.actions[i], u.actions[i]) {
      assert t.actions[i] in t.actions && u.actions[i] in u.actions;
      ActionDetermined(t.actions[i], u.actions[i]);
    }
    assert x == y <==> |t.actions| == |u.actions| && forall i | 0 <= i < |t.actions| :: x[i] == y[i];
  }

  lemma QueryDetermined(f: Form, g: Form)
    requires ValidForm(f) && Readable(f) && ValidForm(g) && Readable(g)
    requires ApplyLookBackToQuery(f.query, f.window) == ApplyLookBackToQuery(g.query, g.window)
    ensures SameWindow(f.window, g.window)
    ensures if Injects(f.window) then Stripped(f.query) == Stripped(g.query) else f.query == g.query
  {
    InjectedReads(f);
    InjectedReads(g);
    hide ParseLookBackFromQuery, AddTimeFilterToQuery, Stripped, Recoverable, ComputeLookBackMinutes, ValidForm;
  }

  lemma InjectedReads(f: Form)
    requires ValidForm(f) && Readable(f)
    ensures var p := ParseLookBackFromQuery(ApplyLookBackToQuery(f.query, f.window));
      if Injects(f.window) then
        && p.Some? && p.value.field == f.window.field && p.value.query == Stripped(f.query)
        && p.value.minutes == ComputeLookBackMinutes(f.window)
      else p.None?
  {
    hide ParseLookBackFromQuery, AddTimeFilterToQuery, Stripped, Trim, Recoverable, Floored;
    if Injects(f.window) {
      StrippedNotEmpty(f.query);
      RecoveredExactly(f.query, ComputeLookBackMinutes(f.window), f.window.field);
    }
  }

  /** Saving loses nothing that matters: what is saved determines the triggers with their conditions
      and actions, the schedule, the window the query is filtered by, and the query around it. */
  lemma SavedDetermines(f: Form, g: Form)
    requires ValidForm(f) && Readable(f) && ValidForm(g) && Readable(g)
    requires TransformPplFormToPayload(f) == TransformPplFormToPayload(g)
    ensures f.name == g.name && f.enabled == g.enabled && f.schedule == g.schedule && SameWindow(f.window, g.window)
    ensures if Injects(f.window) then Stripped(f.query) == Stripped(g.query) else f.query == g.query
    ensures |f.triggers| == |g.triggers| && forall i | 0 <= i < |f.triggers| :: SameTrigger(f.triggers[i], g.triggers[i])
  {
    hide ApplyLookBackToQuery, TriggerPayloadOf, SameTrigger, SameWindow, Injects, Stripped, Readable;
    QueryDetermined(f, g);
    var (x, y) := (TriggersOf(f.triggers), TriggersOf(g.triggers));
    forall i | 0 <= i < |f.triggers| ensures i < |g.triggers| && SameTrigger(f.triggers[i], g.triggers[i]) {
      assert x[i] == y[i];
      assert f.triggers[i] in f.triggers && g.triggers[i] in g.triggers;
      TriggerDetermined(f.triggers[i], g.triggers[i]);
    }
  }
}
