# LilKittenCompanion task lifecycle, in Dafny

LilKittenCompanion is a browser user script for the game Kittens Game. It
runs a set of small automation tasks. Each task is an `AsyncTask`:

- The task holds a `settings` record that always carries `isActive`, and one
  change-listener slot.
- `start`, `pause`, `execute` and `updateSettings` move the task between
  Inactive and Active. The lifecycle hooks `_onStart` and `_onPause` can veto
  a move by returning `false`.
- A `PeriodicTask` counts one-second ticks in `secondsSinceLastExecution` and
  executes when the count reaches `interval`. Its widget shows the remaining
  time as `m:ss`.

The variants are:

- ten crafters;
- a hunter;
- a trader, which refuses to start without a selected race and pauses when
  its race is cleared;
- a praiser;
- the sky observer, which executes on DOM mutations and counts its captures.

At start-up every task is restored from the saved configuration by
`loadTaskFromMemory`. Only then does it get a listener that persists its
settings. Two buttons start or pause every task.

The project has three layers.

- **Pure specification** (`lifecycle.dfy`). Every operation is a function
  from a `TaskState` to a `Step`: the new state together with the settings
  objects the change listener received, in order.
  - JavaScript values and their coercions (truthiness, `Number`, `String`,
    `+ 1`, `Object.assign`) are in `js_values.dfy` and `decimal.dfy`.
  - The tick accumulator is in `accumulator.dfy`.
  - The `m:ss` rendering is in `time_format.dfy`.
- **Properties** (`lifecycle_facts.dfy`). These are lemmas about those
  functions: idempotent pause and start, the veto, the shallow merge, the
  tick schedule, the trader's gate, restoration, and the invariant that a
  task's timer or observer runs exactly while the task is active.
- **Objects** (`tasks.dfy`, `registry.dfy`).
  - `Tasks.Task` is a class with the task's real fields. Each method updates
    them in place and is proved to reach the state its specification
    function describes (`Went(...)`). The same proof covers the writes made
    to the `Store`, the shared `allSettings` record.
  - `Registry` creates the fourteen tasks, restores them and wires the
    listeners. It also models the start-all and pause-all loops.

The remaining-time text is blank only at exactly 0 (`if (timeInSeconds)`),
not for every time at or below 0 as a countdown would suggest. The model
follows the code. A negative time is shown as the code renders it, for
example "-1:0-40" (`LoweredWhilePausedShowsNegativeCountdown`).

A JavaScript value is `Undefined | Null | NaN | Bool | Num(int) | Str`, and a
settings object is a `map<string, Value>`. A missing key reads as
`Undefined`.

"Forever" is never modelled: timers and observers are made explicit.
- `Tick()` is one call of the interval callback.
- `ObserveMutation(present)` is one call of the mutation callback.
- A `Driver(held, orphans)` records whether the handle slot (`intervalId` or
  `observer`) holds a live timer, and how many live timers were orphaned by
  overwriting the slot.

## Model

| member | source | states |
|---|---|---|
| Decimal.Digits | index.js:161 | the decimal rendering of a natural number is a non-empty digit string, one digit long exactly below 10 |
| Decimal.ParseDigits | index.js:161 | reading the rendering of `n` back gives `n` |
| Decimal.ParseNat | index.js:203 | a string is read as a natural number exactly when it is a non-empty run of digits |
| Decimal.ParseIntToString | index.js:203 | a whole number's text, sign included, reads back as the same number, which is how `*` coerces the interval input |
| JsValues.Merge | index.js:133-136 | `Object.assign`: each key of the partial takes its value, every other key keeps its old value, and the keys are the union |
| JsValues.DisjointMergesKeepBoth | index.js:133-136 | two merges with disjoint keys keep the values of both partials and of the untouched keys |
| JsValues.ToNumber | index.js:203 | numeric coercion leaves numbers as they are and turns `null`, `false` and `""` into 0 |
| JsValues.PlusOne | index.js:319 | `captureCount + 1` adds one to a number, keeps NaN, and turns a string into a longer string |
| TimeFormat.JsRem | index.js:159 | JavaScript's `%` agrees with the Euclidean remainder for non-negative operands and is bounded by the divisor |
| TimeFormat.SecondsField | index.js:159-160 | seconds below 60 are padded to exactly two digits that denote them |
| TimeFormat.FormatTime | index.js:157-162 | the text has at least three characters: minutes, a colon and seconds; its exact shape for t >= 0 is proved in `FormatTimeRoundTrip` |
| TimeFormat.PadSeconds | index.js:159-160 | the seconds field is never empty; that seconds in 0..59 become exactly two digits denoting them is proved in `SecondsField` |
| TimeFormat.FormatTimeRoundTrip | index.js:157-162 | for t >= 0 the text is the minute digits, a colon and two digits in 00..59, and reading it back (minutes * 60 + seconds) gives t |
| TimeFormat.RemainingTimeText | index.js:184-193 | the timer text is blank exactly when the remaining time is 0 |
| TimeFormat.RemainingTimeRoundTrip | index.js:184-193 | a positive remaining time is shown and reads back as that number of seconds |
| Accumulator.Advance | index.js:172-179 | a tick fires exactly when counter + 1 reaches the interval, an interval of 1 or more leaves the counter below it, and a counter already at or past the interval fires and resets |
| Accumulator.AtMostOncePerTick | index.js:172-180 | `Run`: n ticks with a fixed interval execute the task at most n times |
| Accumulator.RunOnSchedule | index.js:172-180 | from counter c below a fixed interval I, n ticks leave the counter at (c + n) % I after (c + n) / I executions |
| Accumulator.FiresGrow | index.js:172-180 | more ticks never mean fewer executions |
| Accumulator.FiresWithinInterval | index.js:172-180 | a task ticking for at least one whole interval executes at least once, whatever its counter when it started |
| Lifecycle.InitialSettings | index.js:139-142 | a new task is inactive, carries its name and label, has the default 240-second interval exactly when periodic, a `null` race for the trader and a capture count of 0 for the observer |
| Lifecycle.InitialState | index.js:3-142 | a new task is inactive with counter 0 and no timer or observer |
| Lifecycle.MergeStep | index.js:133-136 | `updateSettings` calls the listener exactly once, with the final settings |
| Lifecycle.SetActive | index.js:30-35 | `__setIsActive(a)` leaves the task active exactly when `a` holds, and the listener sees the result |
| Lifecycle.OnPause | index.js:164-337 | no `_onPause` vetoes; each clears the task's own handle slot (the interval for periodic tasks, the observer for the sky observer) without touching the other driver, the settings, the counter, the game calls or the log |
| Lifecycle.PauseStep | index.js:100-106 | `pause()` always ends inactive, and the listener's last call carries the final settings |
| Lifecycle.PeriodicOnStart | index.js:169-181 | a new timer is registered in the handle slot, one more timer runs, the countdown of the current interval and counter is shown, and the settings, counter and observer are unchanged |
| Lifecycle.OnStart | index.js:169-332 | `_onStart` vetoes exactly for a trader with a falsy race, and then changes nothing; otherwise periodic tasks get one more timer and the sky observer one more observer, and settings and counter are unchanged |
| Lifecycle.StartHook | index.js:120-124 | past the guard the task ends active exactly when `_onStart` did not veto, and only `isActive` changes in the settings |
| Lifecycle.UpdateStep | index.js:282-291 | the first call of the listener carries the merged settings, and the last carries the final settings |
| Lifecycle.StartStep | index.js:113-125 | the listener's last call carries the final settings, and none means the settings are unchanged (`Tracks`); the guard, the override and the veto are proved in `StartWhenActiveIsNoop`, `StartIsIdempotent` and `StartActiveUnlessVetoed` |
| LifecycleFacts.EffectOfIsOwn | index.js:213-322 | `EffectOf`: each variant makes its own game call: a crafter crafts its own resource, the trader trades with its selected race, and no two variants make the same call |
| LifecycleFacts.ExecutionMessageShape | index.js:217-341 | `ExecutionMessage`: the message is never empty; a crafter's is its resource name followed by " crafted!", the trader's is "Traded with " followed by its race as text |
| Lifecycle.OnExecute | index.js:213-322 | every variant's `_onExecute` makes exactly one game call, its own |
| Lifecycle.ExecuteStep | index.js:72-75 | `execute()` makes exactly one game call and logs exactly one message |
| Lifecycle.TickStep | index.js:172-180 | the listener sees every change (`Tracks`); the schedule itself is proved in `TickOnSchedule`, `TicksFollowAccumulator` and `TicksFromZero` |
| Lifecycle.ObserveStep | index.js:325-328 | a mutation with the observe button present executes once (one game call, one message), and without it changes nothing and calls no listener |
| Lifecycle.LoadStep | index.js:344-355 | the listener sees every change (`Tracks`); what restoration leaves behind is proved in `RestoreActive`, `FirstRunStarts` and `RestoreIsCoherent` |
| Lifecycle.SetIntervalStep | index.js:202-204 | `setInterval(m)` keeps the counter and sets the interval to m * 60 seconds, or to NaN when `m` is not a number |
| LifecycleFacts.PauseWhenInactiveIsNoop | index.js:100-101 | `pause()` on an inactive task changes nothing and calls no listener |
| LifecycleFacts.PauseWhenActive | index.js:100-106 | `pause()` on an active task stops its own timer or observer, sets `isActive: false` and calls the listener once |
| LifecycleFacts.PauseIsIdempotent | index.js:100-106 | a second `pause()` changes nothing |
| LifecycleFacts.StartWhenActiveIsNoop | index.js:113-118 | `start()` on an active task, without an override carrying a truthy `isActive`, changes nothing and calls no listener |
| LifecycleFacts.StartIsIdempotent | index.js:113-125 | a second `start()` after one that was not vetoed changes nothing |
| LifecycleFacts.UpdateKeepsMergedKeys | index.js:282-291 | the trader's override changes no key other than `isActive` after the merge |
| LifecycleFacts.StartActiveUnlessVetoed | index.js:113-125 | past the guard, `start` ends active if and only if `_onStart` does not veto (only a trader without a race, as merged, vetoes), even after an override merged `isActive: true` |
| LifecycleFacts.TraderNeedsRace | index.js:261-269 | `start` on a trader with a falsy race leaves it inactive and starts no timer |
| LifecycleFacts.ClearingRacePausesTrader | index.js:282-291 | clearing the race pauses a trader that is active after the merge, stops its timer and calls the listener for the merge and for the pause |
| LifecycleFacts.UpdateIsShallowMerge | index.js:133-136 | apart from the trader clearing its race, `updateSettings(p)` is one shallow merge and one listener call, and nothing else changes |
| LifecycleFacts.DisjointUpdatesKeepBoth | index.js:133-136 | two updates with disjoint keys keep both sets of values |
| LifecycleFacts.ObserverCountsCaptures | index.js:318-322 | each capture adds one to `captureCount`, notifies the listener once, clicks the button and logs "Meteor captured!" |
| LifecycleFacts.PeriodicExecute | index.js:72-75 | executing a periodic task appends its own game call and its execution message and changes nothing else, with no listener call |
| LifecycleFacts.TickOnSchedule | index.js:172-180 | one tick adds one to the counter and either executes once and resets to 0, or executes nothing; settings and drivers are unchanged |
| LifecycleFacts.TicksFollowAccumulator | index.js:172-180 | n ticks move the counter as the accumulator does and make one game call per execution |
| LifecycleFacts.TicksFromZero | index.js:172-180 | from a counter of 0 with interval I >= 1, n ticks make exactly n / I game calls and leave the counter at n % I < I |
| LifecycleFacts.LoweredIntervalFiresNextTick | index.js:202-204 | lowering the interval to the counter or below keeps the counter, so the very next tick executes and resets |
| LifecycleFacts.RemainingTextShown | index.js:170-193 | `RemainingText`: the countdown is blank exactly when the interval is NaN or equals the counter, and while time is left it reads back as the seconds still to go |
| LifecycleFacts.NaNIntervalNeverFires | index.js:172-180 | with a NaN interval the ticks only count up: nothing executes and no countdown is shown |
| LifecycleFacts.NullIntervalFiresEveryTick | index.js:172-180 | with a `null` interval, as a NaN interval is read back after a reload, every tick executes the task and resets the counter |
| LifecycleFacts.MinuteScenario | index.js:169-180 | with a 60-second interval, 59 ticks execute nothing and the 60th executes once, resets the counter and shows "1:00" |
| LifecycleFacts.MinuteText | index.js:157-162 | one minute left is rendered "1:00" |
| LifecycleFacts.NegativeCountdownText | index.js:157-162 | -40 seconds are rendered "-1:0-40": `Math.floor` rounds the minutes down to -1, `%` keeps the sign of -40, and -40 is below 10, so it gets the "0" pad |
| LifecycleFacts.LoweredWhilePausedShowsNegativeCountdown | index.js:169-170 | starting after the interval was lowered below the counter shows the negative time, "-1:0-40" |
| LifecycleFacts.RestoreActive | index.js:350-351 | a saved snapshot with a truthy `isActive` activates the restored task with the saved values merged in and its driver running, unless it is a trader without a race |
| LifecycleFacts.FirstRunStarts | index.js:345-348 | with nothing saved a task starts from its defaults, and only the trader stays inactive |
| LifecycleFacts.CoherentInactiveIsSilent | index.js:164-167 | under the invariant an inactive task has no timer or observer that could execute it |
| LifecycleFacts.StartHookKeepsCoherent | index.js:169-172 | `_onStart` on a task with no driver establishes the invariant |
| LifecycleFacts.PauseSettles | index.js:100-106 | `pause()` on a task with no orphaned driver leaves it inactive with nothing running |
| LifecycleFacts.PauseKeepsCoherent | index.js:100-106 | `pause()` keeps the invariant and leaves nothing running |
| LifecycleFacts.UpdateKeepsCoherent | index.js:282-291 | an update that does not change `isActive` keeps the invariant, the trader's reactive pause included |
| LifecycleFacts.StartKeepsCoherent | index.js:113-125 | `start()` keeps the invariant, except with an override on an already active task |
| LifecycleFacts.TickKeepsCoherent | index.js:172-180 | a tick keeps the invariant |
| LifecycleFacts.RestoreIsCoherent | index.js:344-355 | restoring a new task from any saved snapshot, or from none, establishes the invariant |
| LifecycleFacts.RestartLeavesOrphanTimer | index.js:113-125 | `start(override)` on an active periodic task overwrites its `intervalId` and leaves the old timer running after `pause()` |
| Tasks.Persist | index.js:391-394 | the store holds the last snapshot sent for the task's name, and every other name keeps its entry |
| Tasks.PersistThen | index.js:391-394 | listener calls in two batches leave the store as the same calls in one batch |
| Tasks.Store.constructor | index.js:386-387 | an absent configuration reads as an empty record |
| Tasks.Store.Save | index.js:391-394 | the listener records the snapshot under the task's name and writes the store once |
| Tasks.Task.constructor | index.js:3-15 | a new task holds the initial state and the do-nothing listener |
| Tasks.Task.IsActive | index.js:17-19 | the getter is the truthiness of `isActive` |
| Tasks.Task.OnChange | index.js:91-93 | the new listener replaces the old one and nothing else changes |
| Tasks.Task.MergeSettings | index.js:133-136 | the fields reach `MergeStep`, and the store receives exactly its one snapshot |
| Tasks.Task.SetIsActive | index.js:30-35 | the fields reach `SetActive`, and the store holds the new settings |
| Tasks.Task.UpdateSettings | index.js:282-291 | the fields reach `UpdateStep` (the trader's override included), and the store receives its snapshots in order |
| Tasks.Task.OnPause | index.js:164-337 | the fields reach the `_onPause` hook of the task's variant |
| Tasks.Task.Pause | index.js:100-106 | the fields and the store reach `PauseStep`, and a task in step with the store stays so |
| Tasks.Task.PeriodicOnStart | index.js:169-181 | the countdown is shown and a timer is registered in the handle slot |
| Tasks.Task.OnStart | index.js:169-332 | the fields reach the `_onStart` hook of the variant, the trader's veto included |
| Tasks.Task.Start | index.js:113-125 | the fields and the store reach `StartStep`, and a task in step with the store stays so |
| Tasks.Task.OnExecute | index.js:213-322 | the fields and the store reach the `_onExecute` hook of the variant |
| Tasks.Task.Execute | index.js:72-75 | the fields and the store reach `ExecuteStep` |
| Tasks.Task.Tick | index.js:172-180 | one timer callback brings the fields and the store to `TickStep` |
| Tasks.Task.ObserveMutation | index.js:325-328 | one mutation callback executes exactly when the observe button is present |
| Tasks.Task.SetInterval | index.js:202-204 | the input's value, coerced by `*`, sets the interval: the fields and the store reach `SetIntervalStep` |
| Registry.CrafterEntry | index.js:209-211 | a crafter's label is its own label when non-empty and otherwise its name |
| Registry.Crafters | index.js:357-368 | the ten crafters carry the first ten task names in order, and only "compedium" has a label of its own, "compendium" |
| Registry.Others | index.js:370-373 | the hunter, sky observer, trader and praiser follow with the last four names, each labelled by its name |
| Registry.Configured | index.js:357-373 | the fourteen tasks carry the names of `TaskNames` in order: ten crafters (only "compedium" labelled "compendium"), then the hunter, observer, trader and praiser, each other task labelled by its name |
| Registry.TaskNamesDistinct | index.js:357-373 | no name occurs twice among the fourteen task names |
| Registry.ConfiguredNamesDistinct | index.js:357-373 | no two tasks share a name, so their saved entries cannot collide |
| Registry.Saved | index.js:390 | `allSettings[task.name]` is a snapshot exactly when the name is saved |
| Registry.CreateTasks | index.js:357-373 | one new task per entry, in order, each in its initial state |
| Registry.LoadTaskFromMemory | index.js:344-355 | the task and the store reach `LoadStep`: start with nothing saved, start with a truthy `isActive` override, otherwise merge |
| Registry.Bootstrap | index.js:389-396 | every task is restored from its saved entry before it listens to the store, so the restoration writes nothing |
| Registry.Boot | index.js:386-396 | for entries with distinct names, after start-up every task is restored from the saved configuration, listens to the store, the store has not been written, and each task runs its driver exactly while active |
| Registry.PersistAllElsewhere | index.js:391-394 | after any number of tasks have notified the store, a name that is not theirs keeps its entry, or its absence |
| Registry.PersistAllOwn | index.js:391-394 | when the tasks' names are distinct, each task's entry ends as if that task alone had notified the store |
| Registry.StaysSynced | index.js:391-394 | a task whose entry held its settings still has its entry hold its new settings after all tasks have notified the store |
| Registry.StartAll | index.js:382 | every task reaches the `StartStep` of its own state before the loop and the listeners stay wired; the store ends as all tasks' notices persisted in order (`PersistAll`), one write per notice, so names that are not tasks keep their entries and a task in step with the store stays so |
| Registry.PauseAll | index.js:383 | every task reaches the `PauseStep` of its own state before the loop and the listeners stay wired; the store ends as all tasks' notices persisted in order (`PersistAll`), one write per notice, so names that are not tasks keep their entries and a task in step with the store stays so |

## Left out

- The user interface is not modelled: the jQuery and DOM construction of
  the widget, its toggle text and status icons, the CSS, the click
  handlers, the interval input, the race `<select>` and its disabled flag,
  and the capture-count label.
- Console output other than the execution messages is not modelled: the
  branding prefix of `_log`, the start and pause lines, the trader's
  messages, the "interval changed" line and the `console.warn` of
  `loadTaskFromMemory`. The execution messages are kept as the task's log.
- Real timers and observers are not modelled. `setInterval`, `clearInterval`
  and `MutationObserver` become `Tick()`, `ObserveMutation(present)` and the
  `Driver` record. The event loop, delays and the one-second period itself
  are outside the model.
- The game's API is not modelled. `gamePage.craftAll`, `huntAll`,
  `diplomacy.tradeAll` and `religion.praise`, and the observe button's
  `click()`, are recorded as `Effect` values. Their behaviour, and any
  exception they throw, is outside the model.
- `localStorage` and JSON are not modelled. The store is the `allSettings`
  record, with a count of writes. Serialisation, storage quotas and a
  malformed saved string, which would make `JSON.parse` throw, are outside
  the model. A saved entry is assumed to be an object.
- Registry.Boot: its saved configuration may hold `NaN` and `Undefined`
  values, which the program can never read back. `JSON.stringify` writes
  NaN as `null` and drops `undefined` keys. So after a reload, an
  unreadable interval is `null`, not NaN. `counter >= null` always holds,
  so such a task executes on every tick, the opposite of
  `NaNIntervalNeverFires`. `NullIntervalFiresEveryTick` proves the tick
  behaviour for a `null` interval, but the round trip through JSON itself
  is not modelled.
- `PeriodicTask.getConfig` is left out. It is never called, and it reads
  `super.getConfig`, which does not exist.
- JsValues.ToNumber: a string is read only as an optional minus sign and
  digits. Fractions, exponents, surrounding blanks and hexadecimal are read
  as NaN, where JavaScript reads them as numbers. Numbers are whole.
- Tasks.Task.OnPause: with no observer object, the sky observer's
  `this.observer.disconnect()` throws in JavaScript; in the model it does
  nothing. This needs `pause()` on an active observer that was never
  started, which no caller does.
- Registry.Boot: it is stated for any list of entries with distinct names.
  The program uses `Configured()`, whose names `ConfiguredNamesDistinct`
  shows to be distinct.
- `RestartLeavesOrphanTimer` describes a leak that no caller in the program
  reaches. Only `loadTaskFromMemory` passes an override to `start`, and it
  does so on fresh, inactive tasks. For this reason it is not listed as a
  finding.
