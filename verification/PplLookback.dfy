/** The look-back clause: how it is put into a PPL query and recovered from it. */
module PplLookback {
  import opened Options
  import opened Text
  import opened Decimal

  // ---------- quote-aware pipes ----------

  datatype Quote = Plain | In(q: char) | Esc(q: char)

  predicate IsQuote(c: char) { c == '\'' || c == '"' || c == '`' }

  function Next(st: Quote, c: char): Quote {
    match st
    case Esc(q) => In(q)
    case In(q) => if c == '\\' then Esc(q) else if c == q then Plain else st
    case Plain => if IsQuote(c) then In(c) else Plain
  }

  /** Quote state after the first `i` characters. */
  function At(st: Quote, s: string, i: nat): Quote
    requires i <= |s|
  {
    if i == 0 then st else Next(At(st, s, i - 1), s[i - 1])
  }

  predicate PipeAt(s: string, i: nat)
    requires i < |s|
  {
    s[i] == '|' && At(Plain, s, i) == Plain
  }

  function FirstPipe(s: string, from: nat): (i: nat)
    requires from <= |s|
    ensures from <= i <= |s|
    ensures forall j | from <= j < i :: !PipeAt(s, j)
    ensures i < |s| ==> PipeAt(s, i)
    decreases |s| - from
  {
    if from == |s| || PipeAt(s, from) then from else FirstPipe(s, from + 1)
  }

  /** Positions of the top-level pipes at or after `from`. */
  function PipesFrom(s: string, from: nat): (pipes: seq<nat>)
    requires from <= |s|
    ensures forall i | 0 <= i < |pipes| :: from <= pipes[i] < |s|
    ensures |pipes| > 1 ==> pipes[0] < pipes[1]
    decreases |s| - from
  {
    var i := FirstPipe(s, from);
    if i == |s| then [] else [i] + PipesFrom(s, i + 1)
  }

  /** The position itself when it is a top-level pipe. */
  function Here(s: string, i: nat): seq<nat>
    requires i < |s|
  {
    if PipeAt(s, i) then [i] else []
  }

  lemma FromStep(s: string, i: nat)
    requires i < |s|
    ensures PipesFrom(s, i) == Here(s, i) + PipesFrom(s, i + 1)
  {
    hide At;
    if !PipeAt(s, i) { assert FirstPipe(s, i) == FirstPipe(s, i + 1); }
  }

  /** Positions of the top-level pipes before `i`. */
  function PipesTo(s: string, i: nat): seq<nat>
    requires i <= |s|
  {
    if i == 0 then [] else PipesTo(s, i - 1) + Here(s, i - 1)
  }

  lemma {:induction false} PipesSplit(s: string, i: nat)
    requires i <= |s|
    ensures PipesFrom(s, 0) == PipesTo(s, i) + PipesFrom(s, i)
  {
    hide PipesFrom, Here;
    if i > 0 {
      PipesSplit(s, i - 1);
      FromStep(s, i - 1);
      Regroup(PipesTo(s, i - 1), Here(s, i - 1), PipesFrom(s, i));
    }
  }

  lemma ScannedAll(s: string)
    ensures PipesTo(s, |s|) == PipesFrom(s, 0)
  {
    PipesSplit(s, |s|);
    assert PipesFrom(s, |s|) == [];
  }

  lemma ScanStep(s: string, i: nat)
    requires i < |s|
    ensures At(Plain, s, i + 1) == Next(At(Plain, s, i), s[i])
    ensures PipesTo(s, i + 1)
         == if s[i] == '|' && At(Plain, s, i) == Plain then PipesTo(s, i) + [i] else PipesTo(s, i)
  {
  }

  method FindPipeIndices(query: string) returns (out: seq<nat>)
    ensures out == PipesFrom(query, 0)
  {
    hide PipesFrom, PipesTo, At, PipeAt;
    out := [];
    ScanStart(query);
    var quote: Option<char> := None;
    var i := 0;
    while i < |query|
      invariant 0 <= i <= |query| + 1
      invariant i <= |query| ==>
        At(Plain, query, i) == (if quote.None? then Plain else In(quote.value))
      invariant out == PipesTo(query, if i <= |query| then i else |query|)
      decreases |query| - i
    {
      var ch := query[i];
      ScanStep(query, i);
      if quote.Some? {
        if ch == '\\' {
          i := i + 1;
          if i < |query| { ScanStep(query, i); }
        } else if ch == quote.value {
          quote := None;
        }
      } else if IsQuote(ch) {
        quote := Some(ch);
      } else if ch == '|' {
        out := out + [i];
      }
      i := i + 1;
    }
    ScannedAll(query);
  }

  lemma ScanStart(s: string)
    ensures At(Plain, s, 0) == Plain && PipesTo(s, 0) == []
  {
  }

  // ---------- the clause ----------

  datatype Unit = Minutes | Hours | Days

  function UnitMinutes(unit: Unit): nat {
    match unit case Minutes => 1 case Hours => 60 case Days => 1440
  }

  function UnitWord(unit: Unit): string {
    match unit case Minutes => "MINUTE" case Hours => "HOUR" case Days => "DAY"
  }

  /** Coarsest unit that divides the window. */
  function IntervalUnit(minutes: nat): Unit {
    if minutes % 1440 == 0 then Days else if minutes % 60 == 0 then Hours else Minutes
  }

  function FormatPplInterval(minutes: nat): string {
    NumText(minutes / UnitMinutes(IntervalUnit(minutes))) + " " + UnitWord(IntervalUnit(minutes))
  }

  predicate IsFieldStart(c: char) { IsAlpha(c) || c == '@' }

  predicate IsFieldChar(c: char) { IsWord(c) || c == '@' || c == '.' }

  /** A field PPL accepts without quoting. */
  predicate IsPlainField(f: string) {
    f != "" && IsFieldStart(f[0]) && forall i | 0 <= i < |f| :: IsFieldChar(f[i])
  }

  function DropBackticks(f: string): string {
    if f == "" then "" else (if f[0] == '`' then "" else [f[0]]) + DropBackticks(f[1..])
  }

  function FormatPplField(f: string): string {
    if IsPlainField(f) then f else "`" + DropBackticks(f) + "`"
  }

  function BuildClause(minutes: nat, field: string): string {
    "| where " + (FormatPplField(field)
      + (" > DATE_SUB(NOW(), INTERVAL " + (FormatPplInterval(minutes) + ")")))
  }

  function AddTimeFilterToQuery(query: string, minutes: int, field: string): string {
    if query == "" || field == "" || minutes <= 0 then query
    else
      var clause := BuildClause(minutes, field);
      var pipes := PipesFrom(query, 0);
      if pipes == [] then TrimEnd(query) + " " + clause
      else query[..pipes[0]] + clause + " " + query[pipes[0]..]
  }

  // ---------- recovering it ----------

  /** The rest of `s` after the word `w`, matched in any case. */
  function Eat(s: string, w: string): Option<string> {
    if StartsWithWord(s, w) then Some(s[|w|..]) else None
  }

  function Blank(s: string): string { s[SkipSpaces(s)..] }

  /** The rest of `s` after at least one white-space character. */
  function SomeBlank(s: string): Option<string> {
    if SkipSpaces(s) == 0 then None else Some(Blank(s))
  }

  function FieldRun(s: string): (n: nat)
    ensures n <= |s|
  {
    if s != "" && IsFieldChar(s[0]) then 1 + FieldRun(s[1..]) else 0
  }

  /** Length of the field reference at the start of `s`: a non-empty back-quoted name or a plain
      field; 0 when there is none. */
  function FieldLen(s: string): (n: nat)
    ensures n <= |s|
  {
    if s == "" then 0
    else if s[0] == '`' then
      var close := 1 + IndexOfChar(s[1..], '`');
      if close == 1 || close == |s| then 0 else close + 1
    else if IsFieldStart(s[0]) then FieldRun(s)
    else 0
  }

  function DigitRun(s: string): (n: nat)
    ensures n <= |s| && Digits(s[..n])
  {
    if s != "" && IsDigit(s[0]) then
      var n := 1 + DigitRun(s[1..]);
      assert forall i | 0 < i < n :: s[..n][i] == s[1..][..n - 1][i - 1];
      n
    else 0
  }

  datatype Clause = Clause(field: string, amount: nat, unit: Unit)

  /** Text after the pipe and the `where` keyword. */
  function MatchWhere(seg: string): Option<string> {
    var s :- Eat(seg, "|");
    var s :- Eat(Blank(s), "where");
    SomeBlank(s)
  }

  /** Text after `> DATE_SUB(NOW(), INTERVAL`. */
  function MatchDateSub(rest: string): Option<string> {
    var s :- Eat(Blank(rest), ">");
    var s :- Eat(Blank(s), "date_sub(");
    var s :- Eat(Blank(s), "now(");
    var s :- Eat(Blank(s), ")");
    var s :- Eat(Blank(s), ",");
    var s :- Eat(Blank(s), "interval");
    SomeBlank(s)
  }

  function MatchUnit(s: string): Option<(Unit, string)> {
    if StartsWithWord(s, "minute") then Some((Minutes, s[6..]))
    else if StartsWithWord(s, "hour") then Some((Hours, s[4..]))
    else if StartsWithWord(s, "day") then Some((Days, s[3..]))
    else None
  }

  /** Optional plural, closing parenthesis, and nothing but white space after it. */
  predicate ClosesClause(s: string) {
    var s := if StartsWithWord(s, "s") then s[1..] else s;
    var rest := Eat(Blank(s), ")");
    rest.Some? && Blank(rest.value) == ""
  }

  function MatchAmount(s: string): Option<(nat, Unit)> {
    var n := DigitRun(s);
    if n == 0 then None
    else
      var rest :- SomeBlank(s[n..]);
      var (unit, rest) :- MatchUnit(rest);
      if ClosesClause(rest) then Some((Value(s[..n]), unit)) else None
  }

  /** The injected shape as a whole pipe segment. */
  function MatchSegment(seg: string): Option<Clause> {
    var s :- MatchWhere(seg);
    var n := FieldLen(s);
    if n == 0 then None
    else
      var rest :- MatchDateSub(s[n..]);
      var (amount, unit) :- MatchAmount(rest);
      Some(Clause(s[..n], amount, unit))
  }

  function UnquoteField(f: string): string {
    if |f| >= 2 && f[0] == '`' then f[1..|f| - 1] else f
  }

  datatype LookBack = LookBack(field: string, amount: nat, unit: Unit, minutes: nat, query: string)

  /** The stored query without the segment from `start` to `end`. */
  function WithoutSegment(query: string, start: nat, end: nat): string
    requires start <= end <= |query|
  {
    if end < |query| then query[..start] + query[end..] else TrimEnd(query[..start])
  }

  function LookBackOf(m: Clause, query: string): Option<LookBack> {
    if m.amount == 0 then None
    else Some(LookBack(UnquoteField(m.field), m.amount, m.unit, m.amount * UnitMinutes(m.unit), query))
  }

  function ParseSegment(query: string, start: nat, end: nat): Option<LookBack>
    requires start <= end <= |query|
  {
    match MatchSegment(query[start..end])
    case None => None
    case Some(m) => LookBackOf(m, WithoutSegment(query, start, end))
  }

  /** Only the whole first pipe segment counts; it ends at the next pipe or with the query. */
  function ParseLookBackFromQuery(query: string): Option<LookBack> {
    var pipes := PipesFrom(query, 0);
    if pipes == [] then None
    else ParseSegment(query, pipes[0], if |pipes| > 1 then pipes[1] else |query|)
  }
}
