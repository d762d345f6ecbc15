/** Durations, and the fixed windows for which recording rules exist. */
module Windows {
  import opened Text
  import opened Decimal

  const RecordingWindows: seq<string> := ["5m", "30m", "1h", "2h", "6h", "1d", "3d"]

  function UnitMs(c: char): nat {
    match c
    case 's' => 1_000
    case 'm' => 60_000
    case 'h' => 3_600_000
    case 'd' => 86_400_000
    case 'w' => 604_800_000
    case _ => 0
  }

  /** Zero for text that is not a duration. */
  function ParseDurationToMs(d: string): nat {
    var n := |d| - 1;
    if |d| < 2 || !Digits(d[..n]) then 0 else Value(d[..n]) * UnitMs(d[n])
  }

  /** First of the windows from `i` on that is at least `target` long; the last one otherwise. */
  function ClosestFrom(target: nat, i: nat): (w: string)
    requires i < |RecordingWindows|
    ensures w in RecordingWindows
    decreases |RecordingWindows| - i
  {
    if ParseDurationToMs(RecordingWindows[i]) >= target || i + 1 == |RecordingWindows| then RecordingWindows[i]
    else ClosestFrom(target, i + 1)
  }

  function FindClosestRecordingWindow(duration: string): (w: string)
    ensures w in RecordingWindows
  {
    ClosestFrom(ParseDurationToMs(duration), 0)
  }

  lemma WindowLengths()
    ensures ParseDurationToMs("5m") == 300_000 && ParseDurationToMs("30m") == 1_800_000
    ensures ParseDurationToMs("1h") == 3_600_000 && ParseDurationToMs("2h") == 7_200_000
    ensures ParseDurationToMs("6h") == 21_600_000 && ParseDurationToMs("1d") == 86_400_000
    ensures ParseDurationToMs("3d") == 259_200_000
  {
    OneDigit("5m"); OneDigit("1h"); OneDigit("2h"); OneDigit("6h"); OneDigit("1d"); OneDigit("3d");
    assert "30m"[..2] == "30" && "30"[..1] == "3" && "3"[..0] == "";
    assert Value("3") == 3 && Value("30") == 30;
  }

  lemma OneDigit(d: string)
    requires |d| == 2 && IsDigit(d[0])
    ensures ParseDurationToMs(d) == DigitOf(d[0]) * UnitMs(d[1])
  {
    assert d[..1] == [d[0]] && [d[0]][..0] == "";
    assert Value([d[0]]) == 10 * Value("") + DigitOf(d[0]);
  }

  /** The window an attainment alert reads is long enough whenever any recorded window is, and then
      it is the shortest such; past three days it is the longest one there is. */
  lemma ClosestIsShortest(duration: string)
    ensures var (w, target) := (FindClosestRecordingWindow(duration), ParseDurationToMs(duration));
      if target <= 259_200_000 then
        && ParseDurationToMs(w) >= target
        && forall v | v in RecordingWindows && ParseDurationToMs(v) >= target :: ParseDurationToMs(v) >= ParseDurationToMs(w)
      else w == "3d"
  {
    hide ParseDurationToMs;
    WindowLengths();
    var target := ParseDurationToMs(duration);
    assert ClosestFrom(target, 6) == "3d";
    assert ClosestFrom(target, 5) == if 86_400_000 >= target then "1d" else "3d";
    assert ClosestFrom(target, 4) == if 21_600_000 >= target then "6h" else ClosestFrom(target, 5);
    assert ClosestFrom(target, 3) == if 7_200_000 >= target then "2h" else ClosestFrom(target, 4);
    assert ClosestFrom(target, 2) == if 3_600_000 >= target then "1h" else ClosestFrom(target, 3);
    assert ClosestFrom(target, 1) == if 1_800_000 >= target then "30m" else ClosestFrom(target, 2);
    assert ClosestFrom(target, 0) == if 300_000 >= target then "5m" else ClosestFrom(target, 1);
  }
}
