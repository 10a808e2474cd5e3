/**
 * The `PomodoFlow` application object without its page, sound and timers:
 * the fields of `this.state` (plus the stored date of the last daily
 * rollover), and one method per operation of the timer, the task list and
 * the statistics. The environment's inputs are parameters: `now` is the ISO
 * timestamp of `new Date()`, `day` its `getDay()`, `today` its
 * `toDateString()`, `id` the `Date.now()` string of a new task, and
 * `confirmed` and `reply` the answers of `confirm` and `prompt`. A
 * `setTimeout` auto-start is returned as `autoStart`: the caller then calls
 * `StartTimer`. A tick of the 1-second interval is a call of `Tick`.
 */
module App {
  import opened Wrappers
  import opened Text
  import opened Timer
  import opened Tasks
  import opened Statistics

  class PomodoFlow {
    var currentMode: Mode
    /** Seconds left in the current session. */
    var timeRemaining: int
    var isRunning: bool
    var isPaused: bool
    /** The id of the active task; `None` is `null`. */
    var currentTask: Option<string>
    /** Saved and loaded, but no operation changes it. */
    var pomodoroCount: int
    /** Work sessions completed; decides the long-break cadence. */
    var completedPomodoros: int
    var tasks: seq<Task>
    var settings: Settings
    var stats: Stats
    /** The stored `pomodoflow_last_update` entry: the date of the last daily rollover. */
    var lastUpdate: Option<string>

    /** The timer is never both running and paused, and the weekly total matches the chart. */
    ghost predicate Valid()
      reads this
    {
      !(isRunning && isPaused) && WeekConsistent(stats)
    }

    /** The state the constructor builds; `storedLastUpdate` is whatever the store holds. */
    constructor (storedLastUpdate: Option<string>)
      ensures Valid()
      ensures currentMode == Work && timeRemaining == TotalSeconds(DefaultSettings, Work)
      ensures !isRunning && !isPaused && currentTask == None
      ensures pomodoroCount == 0 && completedPomodoros == 0 && tasks == []
      ensures settings == DefaultSettings && stats == DefaultStats && lastUpdate == storedLastUpdate
    {
      currentMode := Work;
      timeRemaining := 25 * 60;
      isRunning, isPaused := false, false;
      currentTask := None;
      pomodoroCount, completedPomodoros := 0, 0;
      tasks := [];
      settings := DefaultSettings;
      stats := DefaultStats;
      lastUpdate := storedLastUpdate;
      SumEmptyWeek();
    }

    // ===== Timer =====

    /** `updateTimerFromSettings`: the countdown restarts at the current mode's full length. */
    method UpdateTimerFromSettings()
      requires Valid()
      modifies this`timeRemaining
      ensures Valid()
      ensures timeRemaining == TotalSeconds(settings, currentMode)
    {
      timeRemaining := Duration(settings, currentMode) * 60;
    }

    /**
     * `switchMode`. Its busy guard tests `this.isRunning`, a property that is
     * never assigned (the flag lives in `this.state`), so the guard never
     * fires: the mode changes and the countdown restarts even while running.
     */
    method SwitchMode(mode: Mode)
      requires Valid()
      modifies this`currentMode, this`timeRemaining
      ensures Valid()
      ensures currentMode == mode && timeRemaining == TotalSeconds(settings, mode)
    {
      currentMode := mode;
      UpdateTimerFromSettings();
    }

    /** `toggleTimer`: pause when running, start otherwise. */
    method ToggleTimer()
      requires Valid()
      modifies this`isRunning, this`isPaused, this`currentTask
      ensures Valid()
      ensures isRunning == !old(isRunning) && isPaused == old(isRunning)
      ensures old(isRunning) ==> currentTask == old(currentTask)
      ensures !old(isRunning) ==>
        var first := Find(tasks, IsIncomplete);
        if !IsSelected(old(currentTask)) && first.Some?
        then currentTask == Some(tasks[first.value].id)
        else currentTask == old(currentTask)
    {
      if isRunning {
        PauseTimer();
      } else {
        StartTimer();
      }
    }

    /**
     * `startTimer`: with no task selected, the first incomplete task in list
     * order becomes the active one (if there is one); then the timer runs.
     */
    method StartTimer()
      requires Valid()
      modifies this`isRunning, this`isPaused, this`currentTask
      ensures Valid()
      ensures isRunning && !isPaused
      ensures var first := Find(tasks, IsIncomplete);
        if !IsSelected(old(currentTask)) && first.Some?
        then currentTask == Some(tasks[first.value].id)
        else currentTask == old(currentTask)
    {
      if !IsSelected(currentTask) && |tasks| > 0 {
        var first := Find(tasks, IsIncomplete);
        if first.Some? {
          SelectTask(tasks[first.value].id);
        }
      }
      isRunning := true;
      isPaused := false;
    }

    /** `pauseTimer`: the countdown stops where it is. */
    method PauseTimer()
      requires Valid()
      modifies this`isRunning, this`isPaused
      ensures Valid()
      ensures !isRunning && isPaused
    {
      isRunning := false;
      isPaused := true;
    }

    /** `resetTimer`: stopped, neither running nor paused, at the mode's full length. */
    method ResetTimer()
      requires Valid()
      modifies this`isRunning, this`isPaused, this`timeRemaining
      ensures Valid()
      ensures !isRunning && !isPaused && timeRemaining == TotalSeconds(settings, currentMode)
    {
      isRunning := false;
      isPaused := false;
      UpdateTimerFromSettings();
    }

    /**
     * What a completion does, from the state before `completeTimer` to the
     * state after: the timer stops and the countdown is the new mode's full
     * length. A work session counts one more completed session, credits the
     * active task and moves to the break the cadence picks; statistics are
     * left alone, since `updateStats` runs after the switch and sees a break.
     * A break moves to work, and then `updateStats` counts a pomodoro.
     */
    twostate predicate CompletedFrom(now: string, day: int, autoStart: bool)
      reads this
    {
      && 0 <= day <= 6 && |old(stats).weeklyData| == 7
      && !isRunning && !isPaused
      && timeRemaining == TotalSeconds(settings, currentMode)
      && settings == old(settings) && currentTask == old(currentTask)
      && (old(currentMode) == Work ==>
            && completedPomodoros == old(completedPomodoros) + 1
            && currentMode == NextBreak(completedPomodoros, settings.longBreakInterval)
            && CreditedActiveTask(now)
            && autoStart == settings.autoStartBreaks)
      && (old(currentMode) != Work ==>
            && completedPomodoros == old(completedPomodoros)
            && currentMode == Work
            && tasks == old(tasks)
            && stats == RecordCompletion(old(stats), Work, settings.workDuration, day)
            && autoStart == settings.autoStartPomodoros)
    }

    /**
     * The credit `handleWorkCompletion` gives the active task, if one is
     * selected and found: one more pomodoro, and once it reaches the estimate
     * the task is completed and `tasksCompleted` goes up by one. No other
     * statistic changes.
     */
    twostate predicate CreditedActiveTask(now: string)
      reads this
    {
      var found := if IsSelected(old(currentTask)) then Find(old(tasks), HasId(old(currentTask).value)) else None;
      match found
      case None =>
        tasks == old(tasks) && stats == old(stats)
      case Some(i) =>
        && tasks == old(tasks)[i := Credit(old(tasks)[i], now)]
        && stats == old(stats).(tasksCompleted := old(stats).tasksCompleted + if ReachesEstimate(old(tasks)[i]) then 1 else 0)
    }

    /** `skipTimer`: completes the session only when it is running or paused. */
    method SkipTimer(now: string, day: int) returns (skipped: bool, autoStart: bool)
      requires Valid() && 0 <= day <= 6
      modifies this`isRunning, this`isPaused, this`completedPomodoros, this`tasks, this`stats,
        this`currentMode, this`timeRemaining
      ensures Valid()
      ensures skipped == (old(isRunning) || old(isPaused))
      ensures skipped ==> CompletedFrom(now, day, autoStart)
      ensures !skipped ==> unchanged(this) && !autoStart
    {
      skipped, autoStart := false, false;
      if isRunning || isPaused {
        autoStart := CompleteTimer(now, day);
        skipped := true;
      }
    }

    /**
     * One firing of the interval set up by `startTimerInterval`: the countdown
     * goes down by exactly one second, and the session completes when that
     * leaves it at zero or below.
     */
    method Tick(now: string, day: int) returns (completed: bool, autoStart: bool)
      requires Valid() && 0 <= day <= 6
      modifies this`isRunning, this`isPaused, this`completedPomodoros, this`tasks, this`stats,
        this`currentMode, this`timeRemaining
      ensures Valid()
      ensures completed <==> old(timeRemaining) - 1 <= 0
      ensures completed ==> CompletedFrom(now, day, autoStart)
      ensures !completed ==> !autoStart && timeRemaining == old(timeRemaining) - 1
      ensures !completed ==>
        && isRunning == old(isRunning) && isPaused == old(isPaused)
        && completedPomodoros == old(completedPomodoros) && tasks == old(tasks) && stats == old(stats)
        && currentMode == old(currentMode)
    {
      timeRemaining := timeRemaining - 1;
      completed, autoStart := false, false;
      if timeRemaining <= 0 {
        autoStart := CompleteTimer(now, day);
        completed := true;
      }
    }

    /** `completeTimer`: stop, run the work or break handler, then `updateStats`. */
    method CompleteTimer(now: string, day: int) returns (autoStart: bool)
      requires Valid() && 0 <= day <= 6
      modifies this`isRunning, this`isPaused, this`completedPomodoros, this`tasks, this`stats,
        this`currentMode, this`timeRemaining
      ensures Valid()
      ensures CompletedFrom(now, day, autoStart)
    {
      isRunning := false;
      isPaused := false;
      if currentMode == Work {
        autoStart := HandleWorkCompletion(now);
      } else {
        autoStart := HandleBreakCompletion();
      }
      UpdateStats(day);
    }

    /**
     * `handleWorkCompletion`: count the session, credit the active task (the
     * first one with its id), and switch to a long break when the count is a
     * multiple of `longBreakInterval`, to a short one otherwise.
     */
    method HandleWorkCompletion(now: string) returns (autoStart: bool)
      requires Valid()
      modifies this`completedPomodoros, this`tasks, this`stats, this`currentMode, this`timeRemaining
      ensures Valid()
      ensures completedPomodoros == old(completedPomodoros) + 1
      ensures CreditedActiveTask(now)
      ensures currentMode == NextBreak(completedPomodoros, settings.longBreakInterval)
      ensures timeRemaining == TotalSeconds(settings, currentMode)
      ensures autoStart == settings.autoStartBreaks
    {
      completedPomodoros := completedPomodoros + 1;
      if IsSelected(currentTask) {
        var found := Find(tasks, HasId(currentTask.value));
        if found.Some? {
          var i := found.value;
          var task := tasks[i];
          task := task.(completedPomodoros := task.completedPomodoros + 1, lastWorkedOn := Some(now));
          if task.completedPomodoros >= task.estimatedPomodoros {
            task := task.(completed := true, completedAt := Some(now));
            stats := stats.(tasksCompleted := stats.tasksCompleted + 1);
          }
          tasks := tasks[i := task];
        }
      }
      var isLongBreak := IsLongBreak(completedPomodoros, settings.longBreakInterval);
      var nextMode := if isLongBreak then LongBreak else ShortBreak;
      SwitchMode(nextMode);
      autoStart := settings.autoStartBreaks;
    }

    /** `handleBreakCompletion`: back to work. */
    method HandleBreakCompletion() returns (autoStart: bool)
      requires Valid()
      modifies this`currentMode, this`timeRemaining
      ensures Valid()
      ensures currentMode == Work && timeRemaining == TotalSeconds(settings, Work)
      ensures autoStart == settings.autoStartPomodoros
    {
      SwitchMode(Work);
      autoStart := settings.autoStartPomodoros;
    }

    // ===== Tasks =====

    /**
     * `addTask`: a title that trims to nothing is refused; otherwise a new
     * task goes to the front of the list. The estimate is taken as given.
     */
    method AddTask(input: string, estimate: int, id: string, now: string) returns (added: bool)
      requires Valid()
      modifies this`tasks
      ensures Valid()
      ensures added <==> Trim(input) != []
      ensures tasks == if added then [NewTask(id, Trim(input), estimate, now)] + old(tasks) else old(tasks)
    {
      var title := Trim(input);
      if title == [] {
        return false;
      }
      var task := NewTask(id, title, estimate, now);
      tasks := [task] + tasks;
      added := true;
    }

    /** `selectTask`: any id becomes the active one; it is not checked against the list. */
    method SelectTask(id: string)
      requires Valid()
      modifies this`currentTask
      ensures Valid()
      ensures currentTask == Some(id)
    {
      currentTask := Some(id);
    }

    /** `toggleTaskCompletion`: flips the first task with the id and moves `tasksCompleted` by one, down without a floor. */
    method ToggleTaskCompletion(id: string, now: string)
      requires Valid()
      modifies this`tasks, this`stats
      ensures Valid()
      ensures match Find(old(tasks), HasId(id))
        case None => tasks == old(tasks) && stats == old(stats)
        case Some(i) =>
          && tasks == old(tasks)[i := Toggled(old(tasks)[i], now)]
          && stats == old(stats).(tasksCompleted := old(stats).tasksCompleted + if old(tasks)[i].completed then -1 else 1)
    {
      var found := Find(tasks, HasId(id));
      if found.Some? {
        var i := found.value;
        var task := tasks[i];
        task := task.(completed := !task.completed);
        if task.completed {
          task := task.(completedAt := Some(now));
          stats := stats.(tasksCompleted := stats.tasksCompleted + 1);
        } else {
          task := task.(completedAt := None);
          stats := stats.(tasksCompleted := stats.tasksCompleted - 1);
        }
        tasks := tasks[i := task];
      }
    }

    /** `deleteTask`: every task with the id goes; the active task is cleared iff it had that id. */
    method DeleteTask(id: string)
      requires Valid()
      modifies this`tasks, this`currentTask
      ensures Valid()
      ensures tasks == Filter(old(tasks), LacksId(id))
      ensures currentTask == if old(currentTask) == Some(id) then None else old(currentTask)
    {
      if currentTask == Some(id) {
        currentTask := None;
      }
      tasks := Filter(tasks, LacksId(id));
    }

    /** `editTask`: the first task with the id takes the trimmed reply as its title, unless the prompt was cancelled or the reply is blank. */
    method EditTask(id: string, reply: Option<string>)
      requires Valid()
      modifies this`tasks
      ensures Valid()
      ensures var found := Find(old(tasks), HasId(id));
        if found.Some? && reply.Some? && Trim(reply.value) != []
        then tasks == old(tasks)[found.value := old(tasks)[found.value].(title := Trim(reply.value))]
        else tasks == old(tasks)
    {
      var found := Find(tasks, HasId(id));
      if found.None? {
        return;
      }
      if reply.Some? && Trim(reply.value) != [] {
        var i := found.value;
        tasks := tasks[i := tasks[i].(title := Trim(reply.value))];
      }
    }

    /**
     * `clearCompletedTasks`: when some task is completed and the user
     * confirms, only the incomplete tasks remain, in order. The active task
     * is left as it is, even when it was one of those removed.
     */
    method ClearCompletedTasks(confirmed: bool)
      requires Valid()
      modifies this`tasks
      ensures Valid()
      ensures tasks == if Filter(old(tasks), IsCompleted) != [] && confirmed
        then Filter(old(tasks), IsIncomplete) else old(tasks)
    {
      var completedCount := |Filter(tasks, IsCompleted)|;
      if completedCount == 0 {
        return;
      }
      if confirmed {
        tasks := Filter(tasks, IsIncomplete);
      }
    }

    /** `clearAllTasks`: when there are tasks and the user confirms, the list and the active task are cleared. */
    method ClearAllTasks(confirmed: bool)
      requires Valid()
      modifies this`tasks, this`currentTask
      ensures Valid()
      ensures if old(tasks) != [] && confirmed
        then tasks == [] && currentTask == None
        else tasks == old(tasks) && currentTask == old(currentTask)
    {
      if |tasks| == 0 {
        return;
      }
      if confirmed {
        tasks := [];
        currentTask := None;
      }
    }

    // ===== Settings =====

    /** `saveSettings`: new settings; the countdown restarts from them unless the timer is running. */
    method SaveSettings(s: Settings)
      requires Valid()
      modifies this`settings, this`timeRemaining
      ensures Valid()
      ensures settings == s
      ensures timeRemaining == if old(isRunning) then old(timeRemaining) else TotalSeconds(s, currentMode)
    {
      settings := s;
      if !isRunning {
        UpdateTimerFromSettings();
      }
    }

    /** `resetSettings`: back to the defaults if confirmed; the countdown is not touched. */
    method ResetSettings(confirmed: bool)
      requires Valid()
      modifies this`settings
      ensures Valid()
      ensures settings == if confirmed then DefaultSettings else old(settings)
    {
      if confirmed {
        settings := DefaultSettings;
      }
    }

    /**
     * The `change` listener of the three duration inputs. Its guard tests
     * `this.isRunning`, which is never assigned, so it always restarts the
     * countdown from the settings in force (the edited value is not saved
     * yet), even while the timer runs.
     */
    method DurationInputChanged()
      requires Valid()
      modifies this`timeRemaining
      ensures Valid()
      ensures timeRemaining == TotalSeconds(settings, currentMode)
    {
      UpdateTimerFromSettings();
    }

    // ===== Statistics =====

    /** `updateStats`: counts a pomodoro for the weekday `day` when the current mode is work. */
    method UpdateStats(day: int)
      requires Valid() && 0 <= day <= 6
      modifies this`stats
      ensures Valid()
      ensures stats == RecordCompletion(old(stats), currentMode, settings.workDuration, day)
    {
      RecordCompletionKeepsWeek(stats, currentMode, settings.workDuration, day);
      if currentMode == Work {
        stats := stats.(todayPomodoros := stats.todayPomodoros + 1);
        stats := stats.(weekPomodoros := stats.weekPomodoros + 1);
        stats := stats.(todayFocusTime := stats.todayFocusTime + settings.workDuration);
        var mondayIndex := WeekdayIndex(day);
        stats := stats.(weeklyData := stats.weeklyData[mondayIndex := stats.weeklyData[mondayIndex] + 1]);
      }
    }

    /** `updateDailyStats`: the daily reset, and on a Monday the weekly one, once per date. */
    method UpdateDailyStats(today: string, day: int)
      requires Valid()
      modifies this`stats, this`lastUpdate
      ensures Valid()
      ensures (stats, lastUpdate) == Rollover(old(stats), old(lastUpdate), today, day)
    {
      RolloverKeepsWeek(stats, lastUpdate, today, day);
      if lastUpdate != Some(today) {
        stats := stats.(todayPomodoros := 0);
        stats := stats.(todayFocusTime := 0);
        if day == 1 {
          stats := stats.(weekPomodoros := 0);
          stats := stats.(weeklyData := EmptyWeek);
        }
        lastUpdate := Some(today);
      }
    }
  }
}
