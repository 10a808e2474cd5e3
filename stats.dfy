/**
 * The statistics record: today's and this week's counters and the per-weekday
 * chart data, the counting `updateStats` does, and the day and week rollover
 * of `updateDailyStats`.
 */
module Statistics {
  import opened Wrappers
  import opened Timer

  /** `state.stats`; `weeklyData` runs Monday to Sunday. `todayFocusTime` is in minutes. */
  datatype Stats = Stats(
    todayPomodoros: int,
    weekPomodoros: int,
    todayFocusTime: int,
    tasksCompleted: int,
    weeklyData: seq<int>)

  const EmptyWeek: seq<int> := [0, 0, 0, 0, 0, 0, 0]

  const DefaultStats: Stats := Stats(0, 0, 0, 0, EmptyWeek)

  /**
   * The slot of `weeklyData` for a `getDay()` value (Sunday is 0): Sunday goes
   * to 6, every other day to `day - 1`, so that Monday is slot 0.
   */
  function WeekdayIndex(day: int): (i: nat)
    requires 0 <= day <= 6
    ensures i < 7 && (i + 1) % 7 == day
  {
    if day == 0 then 6 else day - 1
  }

  /** Two different weekdays never share a slot. */
  lemma WeekdayIndexInjective(d1: int, d2: int)
    requires 0 <= d1 <= 6 && 0 <= d2 <= 6
    ensures WeekdayIndex(d1) == WeekdayIndex(d2) ==> d1 == d2
  {
  }

  function Sum(s: seq<int>): int {
    if s == [] then 0 else s[0] + Sum(s[1..])
  }

  /** Adding one to a slot adds one to the total. */
  lemma {:induction false} SumIncrement(s: seq<int>, i: nat)
    requires i < |s|
    ensures Sum(s[i := s[i] + 1]) == Sum(s) + 1
  {
    if i > 0 {
      assert s[i := s[i] + 1][1..] == s[1..][i - 1 := s[i] + 1];
      SumIncrement(s[1..], i - 1);
    } else {
      assert s[i := s[i] + 1][1..] == s[1..];
    }
  }

  /** A week of zeros adds up to zero. */
  lemma SumEmptyWeek()
    ensures Sum(EmptyWeek) == 0
  {
    assert EmptyWeek[1..][1..][1..][1..][1..][1..][1..] == [];
  }

  /** The weekly total agrees with the chart: seven slots that add up to `weekPomodoros`. */
  predicate WeekConsistent(s: Stats) {
    |s.weeklyData| == 7 && s.weekPomodoros == Sum(s.weeklyData)
  }

  /**
   * `updateStats` for the mode the application is in when it runs: a work
   * mode counts one pomodoro today and this week, in the slot of `day`, and
   * `workDuration` minutes of focus; any other mode changes nothing.
   */
  function RecordCompletion(s: Stats, mode: Mode, workDuration: int, day: int): (r: Stats)
    requires |s.weeklyData| == 7 && 0 <= day <= 6
    ensures |r.weeklyData| == 7
    ensures mode != Work ==> r == s
    ensures mode == Work ==>
      && r.todayPomodoros == s.todayPomodoros + 1
      && r.weekPomodoros == s.weekPomodoros + 1
      && r.todayFocusTime == s.todayFocusTime + workDuration
      && r.tasksCompleted == s.tasksCompleted
      && r.weeklyData[WeekdayIndex(day)] == s.weeklyData[WeekdayIndex(day)] + 1
    ensures forall j :: 0 <= j < 7 && j != WeekdayIndex(day) ==> r.weeklyData[j] == s.weeklyData[j]
    ensures Sum(r.weeklyData) - r.weekPomodoros == Sum(s.weeklyData) - s.weekPomodoros
  {
    if mode == Work then
      var i := WeekdayIndex(day);
      SumIncrement(s.weeklyData, i);
      s.(todayPomodoros := s.todayPomodoros + 1,
         weekPomodoros := s.weekPomodoros + 1,
         todayFocusTime := s.todayFocusTime + workDuration,
         weeklyData := s.weeklyData[i := s.weeklyData[i] + 1])
    else
      s
  }

  /** Counting a completion keeps the weekly total equal to the sum of the chart. */
  lemma RecordCompletionKeepsWeek(s: Stats, mode: Mode, workDuration: int, day: int)
    requires WeekConsistent(s) && 0 <= day <= 6
    ensures WeekConsistent(RecordCompletion(s, mode, workDuration, day))
  {
  }

  /**
   * `updateDailyStats`, with `lastUpdate` the stored date of the previous
   * rollover (`None` if there is none), `today` the date string and `day` the
   * `getDay()` value. The result pairs the statistics with the date to store.
   */
  function Rollover(s: Stats, lastUpdate: Option<string>, today: string, day: int): (r: (Stats, Option<string>))
    ensures lastUpdate == Some(today) ==> r == (s, lastUpdate)
    ensures lastUpdate != Some(today) ==>
      && r.1 == Some(today)
      && r.0.todayPomodoros == 0 && r.0.todayFocusTime == 0
      && r.0.tasksCompleted == s.tasksCompleted
      && (day == 1 ==> r.0.weekPomodoros == 0 && r.0.weeklyData == EmptyWeek)
      && (day != 1 ==> r.0.weekPomodoros == s.weekPomodoros && r.0.weeklyData == s.weeklyData)
  {
    if lastUpdate == Some(today) then (s, lastUpdate)
    else
      var daily := s.(todayPomodoros := 0, todayFocusTime := 0);
      var weekly := if day == 1 then daily.(weekPomodoros := 0, weeklyData := EmptyWeek) else daily;
      (weekly, Some(today))
  }

  /** A second rollover on the same date changes nothing. */
  lemma RolloverIdempotent(s: Stats, lastUpdate: Option<string>, today: string, day: int)
    ensures var (s1, l1) := Rollover(s, lastUpdate, today, day); Rollover(s1, l1, today, day) == (s1, l1)
  {
  }

  /** The rollover keeps the weekly total equal to the sum of the chart. */
  lemma RolloverKeepsWeek(s: Stats, lastUpdate: Option<string>, today: string, day: int)
    requires WeekConsistent(s)
    ensures WeekConsistent(Rollover(s, lastUpdate, today, day).0)
  {
    SumEmptyWeek();
  }
}
