# Lifecycle planner: a verified model of its state store

This project models, in Dafny, the logic of a single-page personal planner
(`app.js`) and the age computation of its author's portfolio page
(`script.js`). The planner keeps one document holding tasks, habits,
wellness records (mood, water, sleep), today's notes, settings and a
pomodoro timer. The model covers how that document is created, repaired
when loaded or imported, changed by the event handlers, queried, and
driven by the timer.

The model has two layers:

- **JSON layer** (`json.dfy`, `migration.dfy`). Parsed JSON is a `Value`
  with JavaScript truthiness and sloppy-mode property writes (a write to a
  primitive does nothing).
  - On this layer sit `DefaultState`, the `||=` repair `migrateState`,
    `loadState`, and the import and reset handlers (class `Store`).
  - The repair is a method that changes one section at a time. It is
    proved equal to the function `Migrated`.
- **Typed layer** (`schema.dfy`, `planner.dfy`). The document as its
  handlers use it.
  - Class `Planner` has one field per section. Its methods are the
    handlers' mutations and the timer functions.
  - `ToValue` maps a typed document to its stored JSON value.
  - Two lemmas tie the layers together: the repair leaves a stored typed
    document alone exactly when its version is not 0, and loading what was
    saved gives it back.

Several things the code gets from its environment are parameters:

- Days are integer day numbers, with day 0 being Thursday 1 January 1970.
- Turning a day number into its `YYYY-MM-DD` key is a parameter
  `key: int -> string`. `DateKey` models the formatting step of that key.
- The clock (`now`), ids, today's key, what `JSON.parse` returns, and what
  the form fields hold are all parameters.

## Model

| member | source | states |
|---|---|---|
| JsMath.Clamp | app.js:87 | within `[lo, hi]` when `lo <= hi`; the identity inside the range; the nearer bound outside; `lo` when the bounds are crossed |
| JsMath.Max | app.js:87 | `Math.max` of two integers: at least both, and one of them |
| JsMath.Min | app.js:87 | `Math.min` of two integers: at most both, and one of them |
| JsMath.CeilSeconds | app.js:364 | `Math.ceil(ms / 1000)`: the unique `s` with `(s-1)*1000 < ms <= s*1000` |
| JsMath.JsRem | app.js:365 | JavaScript `%` for a positive divisor: the remainder takes the sign of the dividend |
| JsText.NatToString | app.js:7-8 | `String(n)`: at least one digit, all digits, no leading zero |
| JsText.ParseNatToString | app.js:7-8 | reading back what `String(n)` wrote gives `n` |
| JsText.IntToStringInjective | app.js:9 | different integers are written differently |
| JsText.IntToString | app.js:9 | `String(n)`: digits for a non-negative number, a minus sign then digits for a negative one (read back by `ParseNatToString`, injective by `IntToStringInjective`) |
| JsText.PadStart2 | app.js:7-8 | `padStart(2,'0')`: a string of two or more characters is kept; a shorter one gets zeros in front up to two characters |
| JsText.TwoDigits | app.js:7-8 | `String(n).padStart(2,'0')` for `n < 100` is two digits that read back as `n` |
| JsText.Trim | app.js:434 | `trim()`: empty exactly when the text is all white space; otherwise the text between the first and last non-space characters |
| JsText.ToLower | app.js:199 | `toLowerCase` for ASCII: same length, no upper-case ASCII letter left, each upper-case letter shifted to its lower-case one, every other character kept |
| JsText.Includes | app.js:205 | `includes`: `sub` occurs at some position of `s`; see `IncludesAppend`, `TitleMatchIsListed` and `TaskListViewDrops` |
| JsText.IncludesAppend | app.js:205 | `includes`: what occurs in `a` occurs in `a + b` |
| Calendar.Weekday | app.js:410 | `getDay()` of a day number: 0 (Sunday) to 6 |
| Calendar.MondayOf | app.js:409-412 | the Monday-offset day is a Monday, at most six days before today, and six days before on a Sunday |
| Calendar.MondayOfUnique | app.js:411-412 | no other Monday lies within the six days before today |
| Calendar.CurrentWeekDates | app.js:408-420 | seven keys of consecutive days from that Monday; today's key is among them; on a Sunday the week starts six days earlier |
| Calendar.DateKey | app.js:4-10 | `getTodayKey` text: year, then two-digit month and day, joined by `-` |
| Calendar.DateKeyParts | app.js:4-10 | the key's parts read back as year, month and day |
| Calendar.DateKeyInjective | app.js:4-10 | different dates get different keys |
| Calendar.DateKeyOfFourDigitYear | app.js:4-10 | a four-digit year gives the ten-character form |
| Streak.ComputeStreak | app.js:393-406 | the loop computes `StreakFrom(..., 0)`; at most 365; 0 when today is scheduled and not done |
| Streak.StreakFrom | app.js:396-404 | the streak counted from the `i`-th day back; its meaning is stated by `StreakBound`, `StreakCountsDoneRun`, `UnscheduledDayIrrelevant` and `DailyStreakIsRun` |
| Streak.StreakBound | app.js:395-405 | the streak is at most the number of scheduled days left in the 365-day window |
| Streak.StreakCountsDoneRun | app.js:395-405 | the streak is the number of scheduled days before the first scheduled day not done (or the window's end) |
| Streak.UnscheduledDayIrrelevant | app.js:400-403 | a weekly habit's history on an unscheduled day neither counts nor breaks the streak |
| Streak.DailyStreakIsRun | app.js:395-405 | for a daily habit the streak is the run of consecutive done days ending today |
| TaskQueries.Filter | app.js:202 | `filter`: membership is exactly "in the list and passes"; all passing gives the list back |
| TaskQueries.FilterConcat | app.js:202 | filtering keeps the order of the kept elements |
| TaskQueries.FirstIndex | app.js:444 | `find`: the first element that passes, or none passes |
| TaskQueries.FindTask | app.js:444 | the index of the first task with the id; none exactly when no task has it |
| TaskQueries.FindHabit | app.js:491 | the index of the first habit with the id; none exactly when no habit has it |
| TaskQueries.UpdateAt | app.js:444-451 | the found element is changed; no other element and no length changes |
| TaskQueries.UpdateTask | app.js:444-451 | with no task of that id the list is unchanged; otherwise the first task with the id becomes `change` of it and every other task and the length stay |
| TaskQueries.UpdateHabit | app.js:491-493 | with no habit of that id the list is unchanged; otherwise the first habit with the id becomes `change` of it and every other habit and the length stay |
| TaskQueries.FindTaskAfterUpdate | app.js:444 | a change that keeps ids leaves the same task to be found |
| TaskQueries.FindHabitAfterUpdate | app.js:491 | a change that keeps ids leaves the same habit to be found |
| TaskQueries.TodayToggled | app.js:521 | `isToday` flips and no other field changes |
| TaskQueries.ToggleTodayTwice | app.js:521 | pressing a task's Today button twice gives back the same list |
| TaskQueries.StatusSet | app.js:446 | status is done or todo from the checkbox, `updatedAt` is now, no other field changes |
| TaskQueries.Flipped | app.js:493 | the day's entry is the negation of its truthiness; no other key changes |
| TaskQueries.DayFlipped | app.js:492-493 | only the habit's history changes |
| TaskQueries.HabitDayFlipTwice | app.js:491-493 | two flips leave other habits alone and restore the day's truthiness in that habit |
| TaskQueries.WithoutId | app.js:449 | the delete keeps exactly the tasks with another id |
| TaskQueries.DeleteUniqueId | app.js:519 | deleting the one task with an id removes it from its place and keeps the rest in order |
| TaskQueries.TodayTasks | app.js:123 | the Today list is exactly the tasks flagged for today or due today and not done |
| TaskQueries.OnToday | app.js:123 | the Today test (flagged for today or due today, and not done), used by the `TodayTasks` contract |
| TaskQueries.TaskListView | app.js:202-207 | a task is listed exactly when it is one of the tasks, passes the status filter, and (for a non-empty lower-cased search) its lower-cased `title notes` text contains the search |
| TaskQueries.Listed | app.js:203-205 | the test of the task-list filter, used by the `TaskListView` contract and by `TaskListViewDrops` and `ActiveAndDoneSplitAll` |
| TaskQueries.TaskListViewDrops | app.js:203-205 | a done task is dropped under `active`, a task not done under `done`, and a task whose text does not contain a non-empty search under any filter |
| TaskQueries.ActiveAndDoneSplitAll | app.js:203-204 | every task listed under `all` is in exactly one of the `active` and `done` lists |
| TaskQueries.SearchIgnoresCase | app.js:199 | the search ignores the case of ASCII letters in what was typed |
| TaskQueries.TitleMatchIsListed | app.js:205 | a task whose title contains the search text is listed under `all` |
| TaskQueries.ViewAllUnfiltered | app.js:202-207 | with `all` and an empty search every task is listed, in order |
| Timer.MsForPhase | app.js:301-306 | the phase's minutes in milliseconds; between 1 and 240 minutes for in-range settings |
| Timer.LongBreakInterval | app.js:334 | between 2 and 12; the setting itself inside 2..12; 12 for every setting from 12 to 24; 4 for 0 |
| Timer.StartStamp | app.js:342 | `lastTickTs` after a phase change: the clock exactly when the next phase runs, `null` otherwise |
| Timer.AdvancePhase | app.js:331-342 | from focus: the count goes up by one, and the next phase is a long break exactly when the new count is divisible by the interval; from a break: focus with the count unchanged; full time for the new phase, running as `autoStartNext` says |
| Timer.PhaseCycle | app.js:331-342 | every second phase change returns to focus with one more session; the change between leads to a long break exactly at a multiple of the interval |
| Timer.LongBreakAfterInterval | app.js:333-336 | from a multiple of the interval, the next breaks are short until the interval-th, which is long |
| Timer.TickStep | app.js:351-359 | paused: nothing changes; otherwise the elapsed time comes off; reaching 0 changes the phase; never negative for in-range settings |
| Timer.Elapsed | app.js:353 | no recorded tick means no elapsed time |
| Timer.Mmss | app.js:363-366 | `mmss`; see `MmssReadsBack` |
| Timer.MmssReadsBack | app.js:363-366 | up to 99:59 `mmss` gives `MM:SS`, seconds below 60, reading back as the seconds left rounded up |
| Timer.FieldOr | app.js:563-566 | `Number(field.value \|\| d)` for a number field: an empty field gives the default `d`, otherwise the number typed |
| Timer.PomodoroFromInputs | app.js:563-567 | settings land in focus 1..240, break 1..120, long break 1..180, every 2..24; empty fields give 25, 5, 15, 4; in-range values are kept |
| HtmlEscape.Entity | app.js:390 | each table entry is an entity, from `&` to `;` |
| HtmlEscape.RunLength | app.js:390 | one match of `[&<>"]+` takes the whole run of special characters and stops before the next other character |
| HtmlEscape.Replacement | app.js:390 | what the callback returns for a match holds no `<`, `>` or `"`, even when the lookup misses |
| HtmlEscape.EscapeHtml | app.js:389-391 | the output holds no `<`, `>` or `"` |
| HtmlEscape.EscapeHtmlPerChar | app.js:389-391 | the per-character escape: no `<`, `>` or `"` in its output |
| HtmlEscape.UnescapeEscapeHtmlPerChar | app.js:389-391 | the corrected escape loses nothing: decoding gives the text back |
| HtmlEscape.EscapeHtmlAgreesOnIsolatedSpecials | app.js:389-391 | when no two special characters are adjacent, the code as written escapes correctly |
| HtmlEscape.EscapeHtmlRunBecomesUndefined | app.js:390 | `a<<b` is shown as `aundefinedb` instead of `a&lt;&lt;b` |
| Json.Get | app.js:63-73 | a property is present only on objects and arrays that have it |
| Json.Put | app.js:67-69 | the write is seen on objects and arrays; other keys are kept; on a primitive nothing happens |
| Json.Filled | app.js:63 | `o \|\| d`: a truthy value is kept, anything else gives `d` |
| Json.Truthy | app.js:63-73 | JavaScript truthiness, the test of every `\|\|=`; see `Filled`, `MigratedKeepsTruthySection` and `MigratedFillsMissingSection` |
| Migration.MigrateState | app.js:60-75 | the one-assignment-at-a-time repair computes `Migrated` |
| Migration.DefaultState | app.js:24-46 | the zero-data document; see `DefaultStateIsComplete`, `DefaultStateIsFixedPoint` and `DefaultDocIsDefaultState` |
| Migration.Migrated | app.js:60-75 | the result of `migrateState`; see `MigratedAt`, `MigratedIsComplete`, `MigratedFixedExactlyWhenComplete` and `MigrateIdempotent` |
| Migration.RepairWellness | app.js:66-69 | the repair of the wellness maps; see `RepairWellnessFillsMaps` |
| Migration.RepairSettings | app.js:71-72 | the repair of `settings.pomodoro`; see `RepairSettingsFillsPomodoro` |
| Migration.RepairWellnessFillsMaps | app.js:67-69 | missing or falsy wellness maps become `{}`; truthy ones and all other keys are kept |
| Migration.RepairSettingsFillsPomodoro | app.js:72 | only a missing or falsy `pomodoro` is replaced |
| Migration.MigratedAt | app.js:63-73 | what each section becomes: kept when truthy, the default otherwise, then the nested repairs |
| Migration.MigratedKeepsOtherKeys | app.js:60-75 | keys outside the seven sections are untouched |
| Migration.MigratedKeepsTruthySection | app.js:63-65 | a truthy `version`, `tasks`, `habits`, `today` or `focus` is kept unchanged |
| Migration.MigratedFillsMissingSection | app.js:63-73 | a missing or falsy section gets the same section of `DefaultState()` |
| Migration.RepairWellnessOfDefault | app.js:66-69 | the default wellness section needs no repair |
| Migration.RepairSettingsOfDefault | app.js:71-72 | the default settings section needs no repair |
| Migration.RepairWellnessOfComplete | app.js:67-69 | a wellness object with three truthy maps is left unchanged |
| Migration.RepairSettingsOfComplete | app.js:72 | settings with a truthy `pomodoro` are left unchanged |
| Migration.MigratedKeyOfComplete | app.js:60-75 | on a complete document every key is left as it is |
| Migration.MigratedIsComplete | app.js:60-75 | whatever the input, the repaired document is complete |
| Migration.DefaultStateIsComplete | app.js:24-46 | the zero-data document is complete |
| Migration.MigratedFixedExactlyWhenComplete | app.js:60-75 | the repair changes nothing exactly when the document is complete |
| Migration.MigrateIdempotent | app.js:60-75 | repairing twice is repairing once |
| Migration.DefaultStateIsFixedPoint | app.js:24-75 | `DefaultState()` passes through the repair unchanged |
| Migration.DefaultDocIsDefaultState | app.js:24-46 | the typed zero-data document is stored as `DefaultState()` |
| Schema.DefaultDoc | app.js:24-46 | the typed zero-data document; see `DefaultDocIsDefaultState` |
| Schema.ToValue | app.js:82 | the JSON value a typed document is saved as; see `ToValueAt`, `ToValueCompleteExactlyWhenVersioned` and `LoadStateOfSaved` |
| Migration.ToValueAt | app.js:24-46 | the sections of a stored typed document |
| Migration.ToValueCompleteExactlyWhenVersioned | app.js:63 | a stored typed document is complete exactly when its version is not 0 |
| Migration.MigratedKeepsTypedDoc | app.js:60-75 | the repair leaves a stored typed document alone exactly when its version is not 0 |
| Migration.MigratedBumpsZeroVersion | app.js:63 | version 0 becomes 1 and nothing else changes |
| Migration.MigratedOfFalsyVersion | app.js:63 | a falsy version is the same to the repair as version 1 |
| Migration.MigratedAgreesAwayFromVersion | app.js:64-73 | objects that agree away from `version` agree there after the repair |
| Migration.LoadState | app.js:48-59 | nothing stored, an empty text or a parse failure gives `DefaultState()`; a parsed value is repaired; the result is always complete |
| Migration.LoadStateOfSaved | app.js:48-59 | loading what was saved from a typed document with a version gives it back |
| Migration.ReloadIsStable | app.js:48-59 | loading a loaded document again changes nothing |
| Migration.Store.constructor | app.js:77 | the page starts from `loadState()` |
| Migration.Store.Import | app.js:581-592 | no file and a parse failure leave the state unchanged; a parsed value, repaired, replaces it |
| Migration.Store.Reset | app.js:594-598 | after confirmation the state is `DefaultState()`; otherwise unchanged |
| PlannerState.DueDateKey | app.js:11-15 | a due date only for a non-empty text that parses, and then the text itself |
| PlannerState.ShownWater | app.js:290 | the cups shown are within 0..99, 0 when nothing is recorded |
| PlannerState.WaterAfterMinus | app.js:295 | one cup less, at most 98, and 0 stays 0 |
| PlannerState.WaterAfterPlus | app.js:296 | one cup more, between 1 and 100 |
| PlannerState.Planner.constructor | app.js:77 | the planner holds the given document |
| PlannerState.Planner.QuickAddTask | app.js:432-440 | a blank title changes nothing; otherwise one to-do task due today and flagged for today goes first, the rest keep their order |
| PlannerState.Planner.AddTask | app.js:499-508 | a blank title changes nothing; otherwise one to-do task goes first, the rest keep their order |
| PlannerState.Planner.SetTaskStatus | app.js:442-447 | only the first task with the id changes, in status and `updatedAt` only |
| PlannerState.Planner.DeleteTask | app.js:448-449 | the tasks become `WithoutId` of the old tasks |
| PlannerState.Planner.RemoveFromToday | app.js:450-451 | only the first task with the id changes, its `isToday` becoming false |
| PlannerState.Planner.ToggleTaskToday | app.js:520-521 | only the first task with the id changes, its `isToday` flipping |
| PlannerState.Planner.AddHabit | app.js:478-486 | a blank name changes nothing; otherwise one habit with empty history goes last |
| PlannerState.Planner.ToggleHabitDay | app.js:488-495 | only the first habit with the id changes, in the one history key |
| PlannerState.Planner.SetMood | app.js:463-468 | today's mood is the one picked last; other days are kept |
| PlannerState.Planner.WaterMinus | app.js:295 | today's water becomes `WaterAfterMinus`, within 0..98 |
| PlannerState.Planner.WaterPlus | app.js:296 | today's water becomes `WaterAfterPlus`, within 1..100 |
| PlannerState.Planner.SaveSleep | app.js:543-550 | a non-number changes nothing; a number is stored clamped to 0..24 |
| PlannerState.Planner.SetNotes | app.js:455-457 | the notes become the text |
| PlannerState.Planner.SetFocusTask | app.js:531-533 | the empty option clears the focus task |
| PlannerState.Planner.SetDarkMode | app.js:554-557 | checked forces dark; unchecked follows the system |
| PlannerState.Planner.UpdatePomodoroSettings | app.js:558-571 | the settings come from `PomodoroFromInputs`, the phase restarts full, and the timer is sane afterwards |
| PlannerState.Planner.StartTimer | app.js:310-317 | a running timer is left alone; a paused one starts and records the clock |
| PlannerState.Planner.PauseTimer | app.js:318-323 | the timer stops with everything else kept |
| PlannerState.Planner.ResetTimer | app.js:324-330 | full time for the phase, stopped, no tick recorded |
| PlannerState.Planner.NextPhase | app.js:331-347 | the timer becomes `AdvancePhase` of the old one; in-range settings keep it sane |
| PlannerState.Planner.Tick | app.js:350-360 | the timer becomes `TickStep` of the old one; a sane timer stays sane |
| Age.CalculateAge | script.js:21-34 | the year difference or one less; one less exactly when the birthday is still to come this year; the birthday of the returned age has passed and the next one has not |
| Age.AgeOnBirthday | script.js:30 | on the birthday the age is the plain year difference |
| Age.PageAgeIn2025 | script.js:46-51 | born 29 August 1994: 31 from 29 August 2025 on, 30 earlier in 2025 |

## Left out

- Rendering, navigation and listener wiring (`render*`, `switchView`, `wire*` registration, `renderAll`, `init`, `updateTimerDisplays`) are left out: they draw the document and hold no rules beyond the mutations modelled.
- `localStorage`, `JSON.parse` and `JSON.stringify`, the Blob export, `file.text()`, `alert` and `confirm` are not modelled. The stored text is an `Option<string>`, parsing is a parameter, and confirmation is a boolean.
- JSON syntax and the export round trip are not modelled.
- The `scheduleSave` debounce, the `setInterval` loop, `beep` and `applyTheme` are left out. They are timer, audio and platform plumbing.
- `uid` is `Math.random`, and `Date.now()` is the system clock. Both are parameters.
- Calendar conversion through `Date` is left out. Day numbers and an abstract `key` function stand in for it, and `formatDateHuman` is not modelled.
- Numbers are integers: fractional sleep hours, `NaN` and the `String()` form of numbers of 1e21 and above are left out.
- The handlers and the timer (class `Planner`) act only on documents of the typed shape, the ones `ToValue` produces. The stored state of class `Store` is not tied to a `Planner`: import, reset and load yield a JSON value, and no handler acts on that value. The shallow repair keeps documents that lie outside the typed shape, and what the page does with them is not modelled. With `settings.pomodoro: {}`, for example, `msForPhase` gives `NaN` (app.js:303-305) and a running timer never reaches 0 (app.js:355-356). With `tasks: {}`, the Today list throws at app.js:123.
- `ensureTimerDefaults` is not modelled: a typed timer always has `remainingMs`.
- `toLowerCase` maps only ASCII letters.
- A top-level JSON array is repaired like an object, keeping its named properties. What `JSON.stringify` would then drop is not modelled.
- PlannerState.Planner.WaterMinus: uses the water count at the time of the click. The page's minus and plus buttons share the count `current` captured when they were last drawn (app.js:290, 295-296). That count goes stale when the stored count changes without `renderWater` running again, for instance after an import whose `renderAll` throws first.
- PlannerState.Planner.WaterPlus: the same as WaterMinus, for the plus button.
- Migration.Store.Import: reports `Imported` once the parsed value replaces the state. The page also shows "Invalid file" when drawing the new state throws after it was replaced.
- Age.CalculateAge: requires valid calendar dates outside the years 0..99, where `new Date(y, m - 1, d)` would roll over or move the year to 19xx.
- Timer.MmssReadsBack: is stated only up to 99:59, where the display has two minute digits.
- Streak.UnscheduledDayIrrelevant: assumes the day keys of different days differ, as `YYYY-MM-DD` keys of real dates do.

## Findings

| source | as written | input that shows it | evidently intended | confidence | as-written member | corrected member |
|---|---|---|---|---|---|---|
| app.js:389-391 | `/[&<>"]+/g` matches a whole run of special characters, and the run is looked up in a table keyed by single characters, so a run of two or more becomes the text `undefined` | a task titled `a<<b` is shown in the focus-task select as `aundefinedb` | each special character replaced by its own entity (`a&lt;&lt;b`) | high, not executed | HtmlEscape.EscapeHtmlRunBecomesUndefined | HtmlEscape.UnescapeEscapeHtmlPerChar |
