/**
 * The planner's document as the event handlers change it: one object whose
 * sections the task, habit, wellness, settings and timer handlers update in
 * place (app.js:431-571, 300-361). Ids, the clock and today's key are
 * parameters; what a form field holds is passed in as read.
 */
module PlannerState {
  import opened Wrappers
  import opened JsMath
  import opened JsText
  import opened Schema
  import opened TaskQueries
  import opened Timer

  /** `parseDateToKey(dateStr)` (app.js:11-15); `parses` says whether `new Date(dateStr)` is a valid date. */
  function DueDateKey(dateStr: string, parses: bool): (r: Option<string>)
    ensures r.Some? <==> dateStr != "" && parses
    ensures r.Some? ==> r.value == dateStr
  {
    if dateStr == "" || !parses then None else Some(dateStr)
  }

  /** `clamp(Number(waterByDate[todayKey] || 0), 0, 99)` (app.js:290): the cups shown for a day. */
  function ShownWater(waterByDate: map<string, int>, day: string): (cups: int)
    ensures 0 <= cups <= 99
    ensures day !in waterByDate ==> cups == 0
    ensures day in waterByDate && 0 <= waterByDate[day] <= 99 ==> cups == waterByDate[day]
  {
    Clamp(if day in waterByDate then waterByDate[day] else 0, 0, 99)
  }

  /** What the minus button stores (app.js:295): one cup less, never below 0. */
  function WaterAfterMinus(waterByDate: map<string, int>, day: string): (cups: int)
    ensures 0 <= cups <= 98
    ensures ShownWater(waterByDate, day) == 0 ==> cups == 0
    ensures ShownWater(waterByDate, day) > 0 ==> cups == ShownWater(waterByDate, day) - 1
  {
    Clamp(ShownWater(waterByDate, day) - 1, 0, 999)
  }

  /** What the plus button stores (app.js:296): one cup more, at most 100. */
  function WaterAfterPlus(waterByDate: map<string, int>, day: string): (cups: int)
    ensures 1 <= cups <= 100
    ensures cups == ShownWater(waterByDate, day) + 1
  {
    Clamp(ShownWater(waterByDate, day) + 1, 0, 999)
  }

  /** The planner's in-memory document. */
  class Planner {
    var tasks: seq<Task>
    var habits: seq<Habit>
    var wellness: Wellness
    var today: TodayInfo
    var settings: Settings
    var focus: Focus
    var version: int

    /** The document as a value. */
    function Snapshot(): Doc
      reads this
    {
      Doc(tasks, habits, wellness, today, settings, focus, version)
    }

    /** The timer can run: settings in the form's ranges and no negative time left. */
    predicate TimerSane()
      reads this
    {
      PomodoroInRange(settings.pomodoro) && focus.remainingMs >= 0
    }

    constructor (d: Doc)
      ensures Snapshot() == d
    {
      tasks := d.tasks;
      habits := d.habits;
      wellness := d.wellness;
      today := d.today;
      settings := d.settings;
      focus := d.focus;
      version := d.version;
    }

    // Tasks

    /**
     * The Today quick-add form (app.js:432-440): a blank title is ignored;
     * otherwise a new to-do task due today and flagged for today goes first.
     */
    method QuickAddTask(titleInput: string, id: string, todayKey: string, now: int) returns (added: bool)
      modifies this`tasks
      ensures added <==> Trim(titleInput) != ""
      ensures added ==> tasks == [Task(id, Trim(titleInput), "", Some(todayKey), Normal, Todo, true, now, now)] + old(tasks)
      ensures !added ==> tasks == old(tasks)
    {
      var title := Trim(titleInput);
      if title == "" {
        return false;
      }
      tasks := [Task(id, title, "", Some(todayKey), Normal, Todo, true, now, now)] + tasks;
      added := true;
    }

    /**
     * The task form (app.js:499-508): a blank title is ignored; otherwise a
     * new to-do task with the chosen due date, priority and Today flag goes
     * first.
     */
    method AddTask(titleInput: string, id: string, dueInput: string, dueParses: bool, priority: Priority, isToday: bool, now: int)
      returns (added: bool)
      modifies this`tasks
      ensures added <==> Trim(titleInput) != ""
      ensures added ==> tasks == [Task(id, Trim(titleInput), "", DueDateKey(dueInput, dueParses), priority, Todo, isToday, now, now)] + old(tasks)
      ensures !added ==> tasks == old(tasks)
    {
      var title := Trim(titleInput);
      if title == "" {
        return false;
      }
      var dueDate := DueDateKey(dueInput, dueParses);
      tasks := [Task(id, title, "", dueDate, priority, Todo, isToday, now, now)] + tasks;
      added := true;
    }

    /** A task's checkbox (app.js:446, 516): the first task with the id gets the box's status and `updatedAt`. */
    method SetTaskStatus(id: string, checked: bool, now: int) returns (found: bool)
      modifies this`tasks
      ensures found <==> FindTask(old(tasks), id).Some?
      ensures tasks == UpdateTask(old(tasks), id, (t: Task) => StatusSet(t, checked, now))
    {
      var i := FindTask(tasks, id);
      if i.None? {
        return false;
      }
      tasks := tasks[i.value := StatusSet(tasks[i.value], checked, now)];
      found := true;
    }

    /** A task's Delete button (app.js:449, 519): every task with the id goes. */
    method DeleteTask(id: string) returns (found: bool)
      modifies this`tasks
      ensures found <==> FindTask(old(tasks), id).Some?
      ensures tasks == WithoutId(old(tasks), id)
    {
      if FindTask(tasks, id).None? {
        return false;
      }
      tasks := WithoutId(tasks, id);
      found := true;
    }

    /** The "− Today" button of the Today list (app.js:451). */
    method RemoveFromToday(id: string) returns (found: bool)
      modifies this`tasks
      ensures found <==> FindTask(old(tasks), id).Some?
      ensures tasks == UpdateTask(old(tasks), id, (t: Task) => t.(isToday := false))
    {
      var i := FindTask(tasks, id);
      if i.None? {
        return false;
      }
      tasks := tasks[i.value := tasks[i.value].(isToday := false)];
      found := true;
    }

    /** The "± Today" button of the task list (app.js:521). */
    method ToggleTaskToday(id: string) returns (found: bool)
      modifies this`tasks
      ensures found <==> FindTask(old(tasks), id).Some?
      ensures tasks == UpdateTask(old(tasks), id, TodayToggled)
    {
      var i := FindTask(tasks, id);
      if i.None? {
        return false;
      }
      tasks := tasks[i.value := TodayToggled(tasks[i.value])];
      found := true;
    }

    // Habits

    /** The habit form (app.js:478-486): a blank name is ignored; otherwise a habit with no history goes last. */
    method AddHabit(nameInput: string, id: string, frequency: Frequency, daysOfWeek: seq<int>) returns (added: bool)
      modifies this`habits
      ensures added <==> Trim(nameInput) != ""
      ensures added ==> habits == old(habits) + [Habit(id, Trim(nameInput), frequency, daysOfWeek, map[])]
      ensures !added ==> habits == old(habits)
    {
      var name := Trim(nameInput);
      if name == "" {
        return false;
      }
      habits := habits + [Habit(id, name, frequency, daysOfWeek, map[])];
      added := true;
    }

    /** A day button of a habit (app.js:488-495): the day's completion flips. */
    method ToggleHabitDay(id: string, date: string) returns (found: bool)
      modifies this`habits
      ensures found <==> FindHabit(old(habits), id).Some?
      ensures habits == UpdateHabit(old(habits), id, (h: Habit) => DayFlipped(h, date))
    {
      var i := FindHabit(habits, id);
      if i.None? {
        return false;
      }
      var habit := habits[i.value];
      habits := habits[i.value := DayFlipped(habit, date)];
      found := true;
    }

    // Wellness and notes

    /** A mood button (app.js:463-468, 537-540): today's mood is the one picked last. */
    method SetMood(todayKey: string, mood: int)
      modifies this`wellness
      ensures wellness == old(wellness).(moodByDate := old(wellness).moodByDate[todayKey := mood])
    {
      wellness := wellness.(moodByDate := wellness.moodByDate[todayKey := mood]);
    }

    /** The water minus button (app.js:295). */
    method WaterMinus(todayKey: string)
      modifies this`wellness
      ensures wellness == old(wellness).(waterByDate := old(wellness).waterByDate[todayKey := WaterAfterMinus(old(wellness).waterByDate, todayKey)])
      ensures 0 <= wellness.waterByDate[todayKey] <= 98
    {
      var current := ShownWater(wellness.waterByDate, todayKey);
      wellness := wellness.(waterByDate := wellness.waterByDate[todayKey := Clamp(current - 1, 0, 999)]);
    }

    /** The water plus button (app.js:296). */
    method WaterPlus(todayKey: string)
      modifies this`wellness
      ensures wellness == old(wellness).(waterByDate := old(wellness).waterByDate[todayKey := WaterAfterPlus(old(wellness).waterByDate, todayKey)])
      ensures 1 <= wellness.waterByDate[todayKey] <= 100
    {
      var current := ShownWater(wellness.waterByDate, todayKey);
      wellness := wellness.(waterByDate := wellness.waterByDate[todayKey := Clamp(current + 1, 0, 999)]);
    }

    /**
     * The sleep Save button (app.js:543-550): `hours` is the number read
     * from the field, `None` when it is not a number; a number is stored
     * clamped to 0..24.
     */
    method SaveSleep(todayKey: string, hours: Option<int>) returns (saved: bool)
      modifies this`wellness
      ensures saved <==> hours.Some?
      ensures saved ==> wellness == old(wellness).(sleepHoursByDate := old(wellness).sleepHoursByDate[todayKey := Clamp(hours.value, 0, 24)])
      ensures saved ==> 0 <= wellness.sleepHoursByDate[todayKey] <= 24
      ensures !saved ==> wellness == old(wellness)
    {
      if hours.None? {
        return false;
      }
      wellness := wellness.(sleepHoursByDate := wellness.sleepHoursByDate[todayKey := Clamp(hours.value, 0, 24)]);
      saved := true;
    }

    /** The Today notes box (app.js:455-457). */
    method SetNotes(text: string)
      modifies this`today
      ensures today == old(today).(notes := text)
    {
      today := today.(notes := text);
    }

    /** The focus task select (app.js:531-533): the empty option clears it. */
    method SetFocusTask(value: string)
      modifies this`today
      ensures today == old(today).(focusTaskId := if value == "" then None else Some(value))
    {
      today := today.(focusTaskId := if value == "" then None else Some(value));
    }

    // Settings

    /** The dark-mode switch (app.js:554-557): on forces dark, off follows the system. */
    method SetDarkMode(checked: bool)
      modifies this`settings
      ensures settings == old(settings).(darkMode := if checked then Some(true) else None)
    {
      settings := settings.(darkMode := if checked then Some(true) else None);
    }

    /**
     * Any pomodoro field (app.js:558-571): all five fields are read back
     * into the settings, clamped, and the current phase restarts full.
     */
    method UpdatePomodoroSettings(focusIn: Option<int>, breakIn: Option<int>, longIn: Option<int>, everyIn: Option<int>, autoNext: bool)
      modifies this`settings, this`focus
      ensures settings == old(settings).(pomodoro := PomodoroFromInputs(focusIn, breakIn, longIn, everyIn, autoNext))
      ensures focus == old(focus).(remainingMs := MsForPhase(settings.pomodoro, focus.phase))
      ensures TimerSane()
    {
      settings := settings.(pomodoro := PomodoroFromInputs(focusIn, breakIn, longIn, everyIn, autoNext));
      focus := focus.(remainingMs := MsForPhase(settings.pomodoro, focus.phase));
    }

    // The timer

    /** `startTimer()` (app.js:310-317): a paused timer starts and remembers the clock. */
    method StartTimer(now: int)
      modifies this`focus
      ensures old(focus.running) ==> focus == old(focus)
      ensures !old(focus.running) ==> focus == old(focus).(running := true, lastTickTs := Some(now))
    {
      if focus.running {
        return;
      }
      focus := focus.(running := true);
      focus := focus.(lastTickTs := Some(now));
    }

    /** `pauseTimer()` (app.js:318-323): a running timer stops where it is. */
    method PauseTimer()
      modifies this`focus
      ensures focus == old(focus).(running := false)
    {
      if !focus.running {
        return;
      }
      focus := focus.(running := false);
    }

    /** `resetTimer()` (app.js:324-330): the phase restarts full and stopped. */
    method ResetTimer()
      modifies this`focus
      ensures focus == old(focus).(remainingMs := MsForPhase(settings.pomodoro, old(focus).phase), running := false, lastTickTs := None)
      ensures old(PomodoroInRange(settings.pomodoro)) ==> TimerSane()
    {
      focus := focus.(remainingMs := MsForPhase(settings.pomodoro, focus.phase));
      focus := focus.(running := false);
      focus := focus.(lastTickTs := None);
    }

    /** `nextPhase()` (app.js:331-347), field by field. */
    method NextPhase(now: int)
      modifies this`focus
      ensures focus == AdvancePhase(old(focus), settings.pomodoro, now)
      ensures old(PomodoroInRange(settings.pomodoro)) ==> TimerSane()
    {
      if focus.phase == FocusPhase {
        focus := focus.(completedFocusSessions := focus.completedFocusSessions + 1);
        var every := LongBreakInterval(settings.pomodoro);
        var nextIsLong := focus.completedFocusSessions % every == 0;
        focus := focus.(phase := if nextIsLong then LongBreakPhase else BreakPhase);
      } else {
        focus := focus.(phase := FocusPhase);
      }
      focus := focus.(remainingMs := MsForPhase(settings.pomodoro, focus.phase));
      focus := focus.(running := settings.pomodoro.autoStartNext);
      focus := focus.(lastTickTs := if focus.running then Some(now) else None);
    }

    /** One run of the interval callback (app.js:351-360). */
    method Tick(now: int)
      modifies this`focus
      ensures focus == TickStep(old(focus), settings.pomodoro, now)
      ensures old(TimerSane()) ==> TimerSane()
    {
      if !focus.running {
        return;
      }
      var dt := Elapsed(focus, now);
      focus := focus.(lastTickTs := Some(now));
      focus := focus.(remainingMs := Max(0, focus.remainingMs - dt));
      if focus.remainingMs == 0 {
        focus := focus.(running := false);
        NextPhase(now);
      }
    }
  }
}
