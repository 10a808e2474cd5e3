# PomodoFlow in Dafny

A verified model of the core of PomodoFlow, a browser Pomodoro timer with a
task list and usage statistics. Everything it models lives in the
`PomodoFlow` class of `script.js`:

- the session state machine: work sessions, short and long breaks, start,
  pause, reset, skip, the one-second tick, completion, and the long-break
  cadence;
- the task list: add, select, toggle, delete, edit, clear completed, clear
  all, and the credit a finished work session gives the active task;
- the statistics: per-day and per-week counters, the Monday-first weekly
  chart, and the daily and Monday rollover;
- the key-wise merges that loading saved data and importing a document do;
- the small pure helpers: `formatTime`, the estimate clamp, the duration
  and mode-name lookups, the time caption, and the relative-time buckets.

The project has seven modules, one file each:

- `Wrappers` holds `Option`.
- `Text` holds `trim`, integer rendering, `formatTime` and its inverse.
- `Timer` holds modes, settings, lookups, captions and the cadence.
- `Tasks` holds the task record, `find`/`filter`, and crediting.
- `Statistics` holds the counters, `updateStats` and `updateDailyStats` as
  functions.
- `Persistence` holds the JSON values and the load and import merges.
- `App` holds the class `PomodoFlow`. Its fields are those of
  `this.state`, plus the stored date of the last rollover. It has one
  method per operation. The methods that change state are proved against
  the functions of the other modules. Every method of the class keeps the
  invariant `Valid()`: the timer is never both running and paused, and
  the weekly total equals the sum of the chart. The class has no load or
  import method, and the source's import can break the second half (see
  "Left out").

The environment becomes parameters:

- the ISO timestamp of `new Date()` is `now`;
- `getDay()` is `day`;
- `toDateString()` is `today`;
- `Date.now().toString()` is the new task's `id`;
- the answers of `confirm` and `prompt` are `confirmed` and `reply`.

A `setTimeout` auto-start is returned as the flag `autoStart`, for the
caller to act on with `StartTimer`. One firing of the one-second interval is
a call of `Tick`.

### Behaviour of the code as written

- `switchMode` means to refuse while the timer runs: its guard shows the
  notice "Please pause the timer before switching modes" (script.js:200-202).
  The guard tests `this.isRunning`, which is never assigned (the flag is
  `this.state.isRunning`), so the switch always happens
  (`App.PomodoFlow.SwitchMode`).
- The `change` listener of the duration inputs tests the same unassigned
  `this.isRunning` (script.js:171), so it restarts the countdown even while
  the timer runs (`App.PomodoFlow.DurationInputChanged`).
- The background-time correction (script.js:180-186) reads `this.isRunning`
  and `this.timeRemaining` rather than the `state` fields, so it never runs.
  Only its arithmetic is modelled (`Timer.BackgroundRemaining`), and the
  class does not apply it.
- `completeTimer` calls `updateStats` (script.js:340) after the work or
  break handler has switched the mode. A finished work session therefore
  counts no pomodoro, and a finished break counts one
  (`App.PomodoFlow.CompletedFrom`).
- Loading spreads the saved state over the current one (script.js:942), so
  a saved `settings` or `stats` group replaces the whole default group. The
  merges at lines 945-946, which the comment at line 944 says are there to
  fill in every property, spread that saved group over itself. Keys an old
  save lacks stay missing (see Findings).
- A stored `null` makes `data.state` throw (script.js:940), and text that
  `JSON.parse` rejects throws at line 939. The catch block's notice
  (script.js:959) then throws again: `init` loads (line 49) before
  `initializeElements` (line 50) looks up the notification element
  (script.js:96). The exception leaves the constructor and the application
  does not start (`Persistence.LoadOfNullAborts`; see Findings).
- `addTask` stores the estimate it reads without checking its range
  (script.js:394, 404). Only the stepper buttons clamp it to [1, 20]
  (script.js:474).
- `toggleTaskCompletion` decrements `tasksCompleted` with no floor
  (script.js:437), so the counter can go below zero.
- `deleteTask` clears the active task when it deletes it (script.js:446-448).
  `clearCompletedTasks` does not (script.js:486), so the active id can name
  a task that is gone.
- `handleWorkCompletion` tests `completedPomodoros >= estimatedPomodoros`
  (script.js:355) without looking at `completed`. A completed task that is
  still active is counted in `tasksCompleted` again on the next work session
  (`Tasks.CompletedTaskCountsAgain`).

## Model

| member | source | states |
|---|---|---|
| Text.TrimStart | script.js:393 | the leading white space of `trim` (every ECMAScript white-space character and line terminator, U+3000 and U+2028 included): the result is a suffix of the input, everything dropped is white space, and the result does not start with white space |
| Text.TrimEnd | script.js:393 | the trailing white space of `trim`, over the same characters: the result is a prefix, everything dropped is white space, and the result does not end with white space |
| Text.Trim | script.js:393 | `trim`: no longer than the input and no white space left at either end; `TrimIsSlice` shows it is a contiguous slice of the input |
| Text.TrimEmptyIffBlank | script.js:393-398 | `addTask` refuses a title exactly when the input is made of white space only (or is empty) |
| Text.OtherSpacesBlank | script.js:393-398 | a title of one ideographic space, or of a line separator and a space, trims to nothing and is refused |
| Text.TrimIsSlice | script.js:393 | the trimmed title is a contiguous slice of the input with no white space at either end |
| Text.TrimmedUnchanged | script.js:393 | an input with no white space at either end is stored as given |
| Text.TrimIdempotent | script.js:463-464 | trimming an already trimmed title changes nothing |
| Text.NatToString | script.js:967 | `toString` of a non-negative number is at least one decimal digit, a single digit exactly below 10, with no leading zero unless the number is 0 |
| Text.NatToStringRoundTrip | script.js:967 | reading back the digits `toString` writes gives the number |
| Text.IntToString | script.js:967 | `toString` of an integer: the decimal digits of the number, after a minus sign exactly when it is negative, and those digits read back as its magnitude |
| Text.JsRem | script.js:966 | JavaScript's `%` with a positive divisor: the dividend is the quotient rounded toward zero times the divisor plus the result, which lies strictly between minus and plus the divisor and has the dividend's sign |
| Text.PadTwo | script.js:967 | `padStart(2, '0')`: at least two characters, exactly two for a shorter input; the input is kept as the suffix and everything before it is '0' |
| Text.SecondsField | script.js:966-967 | the seconds of a non-negative time are exactly two digits, zero-padded, and denote the remainder |
| Text.FormatTimeShape | script.js:964-968 | a non-negative time shows as whole minutes, a colon and two digits of seconds |
| Text.FormatTimeRoundTrip | script.js:964-968 | `formatTime` loses nothing on non-negative input: parsing "m:ss" back gives the seconds |
| Text.FormatTime | script.js:964-968 | `formatTime`, defined by its body: floor minutes, a colon, and JavaScript's remainder padded to two characters; `FormatTimeShape` and `FormatTimeRoundTrip` fix what it shows on non-negative input |
| Timer.FreshCountdownDisplay | script.js:1001-1008 | a countdown just set from the settings shows the mode's minutes and ":00" |
| Timer.TotalSeconds | script.js:1001-1008 | a mode's countdown is a whole number of minutes: divisible by 60, and the quotient is the mode's configured duration |
| Timer.ModeText | script.js:992-999 | `getModeText`, defined by its three-entry table; `TimeLabelRoundTrip` shows the three names are told apart by the caption |
| Timer.TimeLabel | script.js:868-880 | `updateTimeLabel`, defined by its body; `TimeLabelRoundTrip` shows the caption determines the mode and the status |
| Timer.Lower | script.js:876 | `toLowerCase` keeps the length and lower-cases the ASCII capitals in place, which is all the three mode names contain |
| Timer.TimeLabelRoundTrip | script.js:868-880 | the caption tells the mode and whether the timer is running, paused or ready (running tested first), so no two such states share a caption |
| Timer.NextBreak | script.js:369-370 | after a work session the next mode is a break: the long one iff the interval is non-zero and divides the completed count |
| Timer.IsLongBreak | script.js:369 | `completedPomodoros % longBreakInterval === 0`, defined by its body: a non-zero interval divides the count (a zero interval gives `NaN`, never equal to 0); `LongBreakCadence` counts how often it holds |
| Timer.LongBreakCadence | script.js:369-370 | with a positive interval k, exactly n / k of the first n work sessions earn a long break |
| Timer.ClampEstimate | script.js:474 | the estimate stepper's value lies in [1, 20] and is the value of that range nearest to current + delta |
| Timer.BackgroundRemaining | script.js:185-186 | the countdown less the whole seconds hidden is never negative; it is zero or exactly that difference, and never more than the countdown |
| Timer.RelativeTime | script.js:973-981 | the buckets of `formatRelativeTime`: "just now" iff under a minute; minutes in [1, 60), hours in [1, 24) and days in [1, 7), each the floor of the difference; a date iff at least seven days |
| Tasks.NewTask | script.js:401-410 | a new task has the given id, title, estimate and creation time, no progress, is not completed, and has no work or completion stamp |
| Tasks.Find | script.js:349 | `Array.prototype.find`: the index found satisfies the test and no earlier element does; no index iff no element does |
| Tasks.Filter | script.js:450 | `Array.prototype.filter`: the result holds only passing elements of the list, and every passing element is in it |
| Tasks.FilterAppend | script.js:450 | filtering keeps order: it distributes over concatenation |
| Tasks.FilterAll | script.js:486 | filtering a list whose every element passes changes nothing |
| Tasks.FilterCount | script.js:479 | a filter keeps exactly as many elements as pass the test |
| Tasks.ClearCompletedRemovesCount | script.js:479-486 | clearing completed tasks removes exactly the `completedCount` it announced |
| Tasks.Toggled | script.js:431-437 | toggling flips `completed`, stamps `completedAt` when it becomes completed and clears it otherwise, and changes nothing else |
| Tasks.ToggleTwice | script.js:428-443 | toggling twice restores the task apart from its completion stamp; an open, unstamped task comes back exactly |
| Tasks.Credit | script.js:350-358 | crediting adds one pomodoro and a work stamp; the task is completed iff it already was or the count reaches the estimate, and the completion stamp is set exactly when the `>=` test passes |
| Tasks.EstimateKept | script.js:351-357 | crediting a task any number of times never changes its estimate |
| Tasks.NewTaskCompletesAtEstimate | script.js:351-357 | a new task estimated at e is completed by its e-th work session and not before: after k sessions it has k pomodoros and is completed iff k >= 1 and k >= e |
| Tasks.CompletedTaskCountsAgain | script.js:355-358 | a completed task with its estimate reached passes the `>=` test again when credited |
| Statistics.WeekdayIndex | script.js:614-615 | the chart slot of a `getDay()` value is in [0, 7) and is the day before it, modulo 7 (Sunday is 6, Monday is 0) |
| Statistics.WeekdayIndexInjective | script.js:615 | two different weekdays never share a chart slot |
| Statistics.SumIncrement | script.js:616 | adding one to a slot adds one to the chart's total |
| Statistics.SumEmptyWeek | script.js:680 | a week of zeros adds up to zero |
| Statistics.RecordCompletion | script.js:607-618 | `updateStats` changes nothing outside work mode; in work mode it adds one to today, the week and the day's slot, adds `workDuration` focus minutes, and leaves every other slot and `tasksCompleted` alone |
| Statistics.RecordCompletionKeepsWeek | script.js:607-618 | counting a completion keeps the weekly total equal to the sum of the chart |
| Statistics.Rollover | script.js:667-686 | `updateDailyStats` changes nothing when the stored date is today; otherwise it zeroes today's counters, on a Monday also the week and all seven slots, keeps `tasksCompleted`, and records today |
| Statistics.RolloverIdempotent | script.js:667-686 | a second rollover on the same date changes nothing |
| Statistics.RolloverKeepsWeek | script.js:667-686 | the rollover keeps the weekly total equal to the sum of the chart |
| Persistence.SpreadOverlays | script.js:942 | `{...a, ...b}` has the keys of both, `b`'s values where it has the key and `a`'s elsewhere |
| Persistence.Spread | script.js:942-946 | `{...v}`, defined by its body: an object's keys, and none for `undefined`, `null`, a boolean or a number; `SpreadOverlays` states what a spread of two does |
| Persistence.Truthy | script.js:1088-1090 | JavaScript truthiness, defined by its body: `undefined`, `null`, `false`, `0` and `""` are falsy, everything else is truthy; it gates the load and each import group in `LoadState` and `ImportData` |
| Persistence.SpreadInto | script.js:945-946 | spreading into one group changes no other key, and the group becomes the spread keys over its own |
| Persistence.LoadState | script.js:933-961 | `None` (the application does not start) iff the stored text does not parse or is `null`; the defaults when nothing is stored or the document has no truthy `state`; otherwise every key other than `settings` and `stats` takes the saved value if present and the default if not, and each of those two groups is the saved group if present (as is), the default group if not |
| Persistence.LoadOfNullAborts | script.js:939-940 | loading a stored `null` or an unparseable text gives `None`: the application does not start |
| Persistence.SpreadSelf | script.js:942-946 | spreading the just-loaded group over itself gives it back unchanged |
| Persistence.LoadKeepsSavedSettingsAsIs | script.js:942-945 | a saved settings object is loaded exactly as saved |
| Persistence.LoadDropsMissingSettingDefault | script.js:942-945 | an old save whose settings lack `autoStartPomodoros` loads without that setting, although the defaults have it |
| Persistence.LoadStateFilled | script.js:943-946 | the merge the comment intends: the defaults whenever there is no truthy saved `state`, including when nothing loads; otherwise the other keys as in `LoadState`, and each of `settings` and `stats` is the saved group overlaid on the default group |
| Persistence.LoadFilledRecoversDefaults | script.js:957-959 | with the intended handling, a stored `null` or unparseable document leaves the default state, as the catch block's "Failed to load saved data" notice means to |
| Persistence.LoadFilledKeepsEveryDefault | script.js:943-946 | with the intended merge, every default setting or statistic key is still present after loading any save that has a state |
| Persistence.ImportData | script.js:1087-1090 | an unconfirmed import changes nothing; a confirmed one replaces `tasks` iff the document's `tasks` is truthy, overlays the document's `stats` and `settings` on the current groups iff each is truthy, and keeps every other key |
| App.PomodoFlow.constructor | script.js:4-34 | the initial state: work mode, 25 minutes, stopped, no task, zero counters, default settings and statistics |
| App.PomodoFlow.UpdateTimerFromSettings | script.js:217-226 | the countdown becomes the current mode's duration in seconds; nothing else changes |
| App.PomodoFlow.SwitchMode | script.js:199-209 | the mode becomes the one asked for and the countdown its full length, whether or not the timer runs |
| App.PomodoFlow.ToggleTimer | script.js:228-234 | running and paused swap with respect to the old running flag; a pause keeps the active task, and a start selects the first incomplete task in list order when none is selected and there is one, keeping the active task otherwise |
| App.PomodoFlow.StartTimer | script.js:236-260 | the timer runs and is not paused; with no task selected, the first incomplete task in list order becomes active if there is one; otherwise the active task is kept |
| App.PomodoFlow.PauseTimer | script.js:262-276 | paused and not running |
| App.PomodoFlow.ResetTimer | script.js:278-293 | neither running nor paused, and the countdown at the current mode's full length |
| App.PomodoFlow.SkipTimer | script.js:295-300 | a completion happens iff the timer was running or paused; otherwise nothing changes |
| App.PomodoFlow.Tick | script.js:302-313 | the countdown goes down by exactly one and the session completes iff that leaves it at zero or below; otherwise flags, counters, tasks, statistics and mode are unchanged |
| App.PomodoFlow.CompleteTimer | script.js:321-342 | after a completion the timer is stopped with a full countdown. A work session adds one completed session, credits the active task and moves to the break the cadence picks, with no statistic counted. A break moves to work and counts one pomodoro on the weekday's slot |
| App.PomodoFlow.HandleWorkCompletion | script.js:344-377 | one more completed session; the first task with the active id is credited, and `tasksCompleted` goes up iff the credit reaches its estimate; then the mode switches to the break `NextBreak` picks, and the auto-start flag is `autoStartBreaks` |
| App.PomodoFlow.HandleBreakCompletion | script.js:379-389 | back to work with a full countdown; the auto-start flag is `autoStartPomodoros` |
| App.PomodoFlow.AddTask | script.js:392-420 | a title that trims to nothing changes nothing; otherwise one new task with the trimmed title and the given estimate goes to the front of the list |
| App.PomodoFlow.SelectTask | script.js:422-426 | any id becomes the active task, unchecked |
| App.PomodoFlow.ToggleTaskCompletion | script.js:428-443 | the first task with the id is toggled and `tasksCompleted` moves by one, down without a floor; an unknown id changes nothing |
| App.PomodoFlow.DeleteTask | script.js:445-456 | exactly the tasks with other ids remain, in order; the active task is cleared iff it had that id |
| App.PomodoFlow.EditTask | script.js:458-469 | the first task with the id takes the trimmed reply as its title, unless the id is unknown, the prompt was cancelled or the reply is blank |
| App.PomodoFlow.ClearCompletedTasks | script.js:478-491 | when some task is completed and the user confirms, exactly the incomplete tasks remain, in order; the active task is kept even if removed |
| App.PomodoFlow.ClearAllTasks | script.js:493-507 | when there are tasks and the user confirms, the list and the active task are cleared; otherwise nothing changes |
| App.PomodoFlow.SaveSettings | script.js:559-579 | the settings are replaced; the countdown restarts from them iff the timer is not running |
| App.PomodoFlow.ResetSettings | script.js:581-598 | the settings return to the defaults iff confirmed; the countdown is not touched |
| App.PomodoFlow.DurationInputChanged | script.js:169-175 | the countdown restarts from the current settings, even while the timer runs |
| App.PomodoFlow.UpdateStats | script.js:607-618 | the statistics become `RecordCompletion` of the old ones for the current mode, work duration and weekday |
| App.PomodoFlow.UpdateDailyStats | script.js:667-686 | the statistics and the stored date become `Rollover` of the old ones for today's date and weekday |

`Text.DivUnique` (Euclidean quotient and remainder are unique),
`Text.MultipleGap` (a non-zero multiple of k is at least k from zero) and
`Timer.DivStep` (the count of multiples of k up to n grows by one exactly at
a multiple) are arithmetic proof helpers for `JsRem`, `TotalSeconds` and
`LongBreakCadence`. `Text.ParseJoined` and `Text.ParseShown` are the steps
of `FormatTimeRoundTrip`. None of them models anything of the source.

## Left out

- Rendering is not modelled. That covers `renderTasks`, `updateDisplay`, `updateTimeDisplay`, `updateCurrentTaskDisplay`, the progress ring, the weekly canvas chart, modals, focus mode and `escapeHtml`. It is presentation, and the geometry is floating point.
- Audio and notifications are not modelled: the sound synthesis, `showNotification`, `sendNotification` and the permission request are foreign browser APIs.
- Scheduling is not modelled. A tick is a call of `Tick`, and a deferred auto-start is the returned `autoStart` flag. The 30-second autosave is left out, and so is the chance of two intervals running at once when a deferred start meets a running one: that is timing, not state.
- Storage is not modelled: JSON parsing and serialization, `localStorage`, the export download, the file reader of the import, the theme and the service worker. The merges work on already-parsed values.
- `Persistence.LoadState`: the merged record is not decoded back into the typed fields of `App.PomodoFlow`. Values of the wrong kind that a save could carry are therefore not followed into the class.
- `Persistence.Spread`: spreading a string or an array (index keys) is not modelled. Those give no keys here.
- Clock, calendar and id inputs are parameters: `Date`, `Date.now`, `getDay`, `toDateString` and `toLocaleDateString`. The date shown after seven days is the `OnDate` bucket.
- `parseInt` on the form fields is not modelled. The settings and the estimate arrive as integers, so a `NaN` from an empty field is outside the model.
- `App.PomodoFlow.SwitchMode`: `currentMode` is one of the three modes. The `|| 'Focus Session'` fallback of `getModeText`, and the `NaN` countdown an unknown mode string would give, cannot arise.
- `Statistics.RecordCompletion`: it requires seven chart slots. The application always has seven, but a save or an import could supply another length, and this model does not follow that.
- `App.PomodoFlow.HandleWorkCompletion`: a task is a value, so the in-place update of the found object is modelled as replacing the list entry at its index. Tasks never share an object in the source.
- The keyboard shortcut dispatch and the theme toggle are not modelled: they only route events to operations that are modelled.
- `pomodoroCount` is a field that no operation changes. It is carried as it is.
- `Persistence.ImportData`: the merged record is not applied to `App.PomodoFlow`. The source applies it, and it does not keep the class invariant: importing `{"stats": {"weekPomodoros": 3}}` leaves `weekPomodoros` different from the sum of `weeklyData`, and a `weeklyData` of another length breaks the seven-slot shape, after which `updateStats` and `updateDailyStats` still run. The class's `Valid()` holds only because the class has no import.
- Numbers are unbounded integers. JavaScript numbers are doubles: integers lose exactness past 2^53, `toString` switches to exponent notation from 1e21, and a JSON number can be fractional. None of this is followed.

## Findings

| source | as written | input that shows it | evidently intended | confidence | as-written member | corrected member |
|---|---|---|---|---|---|---|
| script.js:942-946 | the state spread at line 942 already replaces `settings` with the saved group, so line 945 spreads the saved group over itself and a key it lacks stays missing | a save whose `state.settings` is `{workDuration: 50}` loads without `autoStartPomodoros` (and the other eight keys) | each group is the saved keys over the default group, so missing keys keep their defaults (as the comment at line 944 says) | not executed | Persistence.LoadDropsMissingSettingDefault | Persistence.LoadFilledKeepsEveryDefault |
| script.js:933-961 | a stored `null` throws at line 940 and unparseable text at line 939; the catch block's `showNotification` throws again because the notification element is looked up only after loading (line 96, via lines 49-50), so the constructor fails | stored text `null` | the default state, with the "Failed to load saved data" notice | not executed | Persistence.LoadOfNullAborts | Persistence.LoadFilledRecoversDefaults |
