/**
 * The timer's configuration and the pure lookups the state machine uses:
 * session durations, mode names, the time caption, the long-break cadence,
 * the estimate stepper's clamp, the background-time arithmetic and the
 * relative-time buckets of the task list.
 */
module Timer {
  import opened Wrappers
  import Text

  /** `currentMode`: 'work', 'short-break' or 'long-break'. */
  datatype Mode = Work | ShortBreak | LongBreak

  /** `state.settings`. Durations are in minutes. */
  datatype Settings = Settings(
    workDuration: int,
    shortBreakDuration: int,
    longBreakDuration: int,
    longBreakInterval: int,
    enableNotifications: bool,
    enableSounds: bool,
    soundVolume: int,
    autoStartBreaks: bool,
    autoStartPomodoros: bool)

  /** The settings the application starts with, and the ones `resetSettings` restores. */
  const DefaultSettings: Settings := Settings(25, 5, 15, 4, true, true, 50, false, false)

  /** The `durations` table: the configured length of a mode, in minutes. */
  function Duration(s: Settings, m: Mode): int {
    match m
    case Work => s.workDuration
    case ShortBreak => s.shortBreakDuration
    case LongBreak => s.longBreakDuration
  }

  /** `getTotalDuration` and the value `updateTimerFromSettings` stores: the mode's length in seconds. */
  function TotalSeconds(s: Settings, m: Mode): (r: int)
    ensures r % 60 == 0 && r / 60 == Duration(s, m)
  {
    Text.DivUnique(Duration(s, m) * 60, 60, Duration(s, m), 0);
    Duration(s, m) * 60
  }

  /** A freshly set countdown is shown as the configured minutes and ":00". */
  lemma FreshCountdownDisplay(s: Settings, m: Mode)
    requires Duration(s, m) >= 0
    ensures Text.FormatTime(TotalSeconds(s, m)) == Text.NatToString(Duration(s, m)) + ":00"
  {
    var t := TotalSeconds(s, m);
    Text.FormatTimeShape(t);
    assert t / 60 == Duration(s, m) && t % 60 == 0;
    assert Text.NatToString(0) == "0";
  }

  /** `getModeText`. */
  function ModeText(m: Mode): string {
    match m
    case Work => "Focus Session"
    case ShortBreak => "Short Break"
    case LongBreak => "Long Break"
  }

  /** What `updateTimeLabel` reads off the two flags; `isRunning` is tested first. */
  datatype Status = Running | Paused | Ready

  function StatusOf(isRunning: bool, isPaused: bool): Status {
    if isRunning then Running else if isPaused then Paused else Ready
  }

  function LowerChar(c: char): char {
    if 'A' <= c <= 'Z' then (c as int - 'A' as int + 'a' as int) as char else c
  }

  /** `toLowerCase` on the ASCII letters the mode names use. */
  function Lower(s: string): (r: string)
    ensures |r| == |s| && forall i :: 0 <= i < |s| ==> r[i] == LowerChar(s[i])
  {
    if s == [] then [] else [LowerChar(s[0])] + Lower(s[1..])
  }

  /** `updateTimeLabel`: the caption under the clock. */
  function TimeLabel(m: Mode, isRunning: bool, isPaused: bool): string {
    match StatusOf(isRunning, isPaused)
    case Running => ModeText(m) + " in progress..."
    case Paused => ModeText(m) + " paused"
    case Ready => "Ready for " + Lower(ModeText(m))
  }

  /** Reads the mode and status back off a caption. */
  function ReadLabel(caption: string): Option<(Mode, Status)> {
    if |caption| < 11 then None
    else
      var status :=
        if caption[0] == 'R' then Ready
        else if caption[|caption| - 1] == '.' then Running
        else Paused;
      var initial := if status == Ready then caption[10] else caption[0];
      if initial == 'F' || initial == 'f' then Some((Work, status))
      else if initial == 'S' || initial == 's' then Some((ShortBreak, status))
      else if initial == 'L' || initial == 'l' then Some((LongBreak, status))
      else None
  }

  /** The caption determines the mode and the status: no two states share a caption. */
  lemma TimeLabelRoundTrip(m: Mode, isRunning: bool, isPaused: bool)
    ensures ReadLabel(TimeLabel(m, isRunning, isPaused)) == Some((m, StatusOf(isRunning, isPaused)))
  {
    var caption := TimeLabel(m, isRunning, isPaused);
    var text := ModeText(m);
    match StatusOf(isRunning, isPaused)
    case Running =>
      assert caption == text + " in progress...";
      assert caption[0] == text[0] && caption[|caption| - 1] == '.';
    case Paused =>
      assert caption == text + " paused";
      assert caption[0] == text[0] && caption[|caption| - 1] == 'd';
    case Ready =>
      assert caption == "Ready for " + Lower(text);
      assert caption[0] == 'R' && caption[10] == LowerChar(text[0]);
  }

  /**
   * `completedPomodoros % longBreakInterval === 0`. JavaScript's remainder is
   * zero exactly when the interval divides the count, whatever the signs; an
   * interval of 0 gives NaN, which is never equal to 0.
   */
  predicate IsLongBreak(count: int, interval: int) {
    interval != 0 && count % interval == 0
  }

  /** The break `handleWorkCompletion` switches to after `count` completed work sessions. */
  function NextBreak(count: int, interval: int): (m: Mode)
    ensures m != Work
    ensures m == LongBreak <==> IsLongBreak(count, interval)
  {
    if IsLongBreak(count, interval) then LongBreak else ShortBreak
  }

  /** How many of the completions 1..n are followed by a long break. */
  function LongBreaksUpTo(n: nat, interval: int): nat {
    if n == 0 then 0 else LongBreaksUpTo(n - 1, interval) + (if IsLongBreak(n, interval) then 1 else 0)
  }

  lemma DivStep(n: nat, k: nat)
    requires k > 0 && n > 0
    ensures n / k == (n - 1) / k + (if n % k == 0 then 1 else 0)
  {
    var q, r := (n - 1) / k, (n - 1) % k;
    assert n - 1 == q * k + r && 0 <= r < k;
    if r + 1 == k {
      assert n == (q + 1) * k;
      Text.DivUnique(n, k, q + 1, 0);
    } else {
      assert n == q * k + (r + 1);
      Text.DivUnique(n, k, q, r + 1);
    }
  }

  /** With a positive interval k, exactly every k-th work session earns a long break: n / k of the first n. */
  lemma {:induction false} LongBreakCadence(n: nat, interval: int)
    requires interval > 0
    ensures LongBreaksUpTo(n, interval) == n / interval
  {
    if n > 0 {
      LongBreakCadence(n - 1, interval);
      DivStep(n, interval);
    }
  }

  /** `adjustEstimate`: `Math.max(1, Math.min(20, current + delta))`, the value in [1, 20] nearest to the sum. */
  function ClampEstimate(current: int, delta: int): (r: int)
    ensures 1 <= r <= 20
    ensures NearestInRange(r, current + delta)
  {
    var x := current + delta;
    if x < 1 then 1 else if x > 20 then 20 else x
  }

  function Dist(a: int, b: int): nat {
    if a < b then b - a else a - b
  }

  /** No value of [1, 20] is closer to `x` than `r`. */
  predicate NearestInRange(r: int, x: int) {
    forall v :: 1 <= v <= 20 ==> Dist(r, x) <= Dist(v, x)
  }

  /**
   * The arithmetic of the visibility handler: the countdown less the whole
   * seconds spent hidden, `Math.floor(elapsedMs / 1000)`, never below zero.
   */
  function BackgroundRemaining(remaining: int, elapsedMs: int): (r: int)
    ensures r >= 0 && r >= remaining - elapsedMs / 1000
    ensures r == 0 || r == remaining - elapsedMs / 1000
    ensures elapsedMs >= 0 && remaining >= 0 ==> r <= remaining
  {
    var elapsed := elapsedMs / 1000;
    if remaining - elapsed > 0 then remaining - elapsed else 0
  }

  /** The buckets of `formatRelativeTime`; `OnDate` stands for `toLocaleDateString()`. */
  datatype Ago = JustNow | MinutesAgo(minutes: int) | HoursAgo(hours: int) | DaysAgo(days: int) | OnDate

  const MinuteMs: int := 60 * 1000
  const HourMs: int := 60 * MinuteMs
  const DayMs: int := 24 * HourMs

  /** `formatRelativeTime` from the difference `now - date` in milliseconds, with floor divisions. */
  function RelativeTime(diffMs: int): (r: Ago)
    ensures r == JustNow <==> diffMs < MinuteMs
    ensures r.MinutesAgo? ==> 1 <= r.minutes < 60 && r.minutes * MinuteMs <= diffMs < (r.minutes + 1) * MinuteMs
    ensures r.HoursAgo? ==> 1 <= r.hours < 24 && r.hours * HourMs <= diffMs < (r.hours + 1) * HourMs
    ensures r.DaysAgo? ==> 1 <= r.days < 7 && r.days * DayMs <= diffMs < (r.days + 1) * DayMs
    ensures r == OnDate <==> diffMs >= 7 * DayMs
  {
    var mins, hours, days := diffMs / MinuteMs, diffMs / HourMs, diffMs / DayMs;
    if mins < 1 then JustNow
    else if mins < 60 then MinutesAgo(mins)
    else if hours < 24 then HoursAgo(hours)
    else if days < 7 then DaysAgo(days)
    else OnDate
  }
}
