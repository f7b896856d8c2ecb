/**
 * The planner's document as its handlers use it: the shape `DefaultState`
 * builds (app.js:24-46), with typed fields. `ToValue` gives the JSON value
 * the document is stored as.
 */
module Schema {
  import opened Wrappers
  import opened Json

  datatype Priority = Low | Normal | High
  datatype Status = Todo | Done

  datatype Task = Task(
    id: string,
    title: string,
    notes: string,
    dueDate: Option<string>,
    priority: Priority,
    status: Status,
    isToday: bool,
    createdAt: int,
    updatedAt: int)

  datatype Frequency = Daily | Weekly

  /** A habit; `daysOfWeek` holds weekday numbers (0 = Sunday) and matters only for weekly habits. */
  datatype Habit = Habit(
    id: string,
    name: string,
    frequency: Frequency,
    daysOfWeek: seq<int>,
    history: map<string, bool>)

  /** Mood (1..5), water cups and sleep hours, keyed by `YYYY-MM-DD`. */
  datatype Wellness = Wellness(
    moodByDate: map<string, int>,
    waterByDate: map<string, int>,
    sleepHoursByDate: map<string, int>)

  datatype TodayInfo = TodayInfo(notes: string, focusTaskId: Option<string>)

  datatype Pomodoro = Pomodoro(
    focusMinutes: int,
    breakMinutes: int,
    longBreakMinutes: int,
    longBreakEvery: int,
    autoStartNext: bool)

  /** `darkMode`: `None` follows the system, `Some(true)` forces dark. */
  datatype Settings = Settings(darkMode: Option<bool>, pomodoro: Pomodoro, dailyWaterGoal: int)

  datatype Phase = FocusPhase | BreakPhase | LongBreakPhase

  datatype Focus = Focus(
    phase: Phase,
    remainingMs: int,
    running: bool,
    lastTickTs: Option<int>,
    completedFocusSessions: nat)

  datatype Doc = Doc(
    tasks: seq<Task>,
    habits: seq<Habit>,
    wellness: Wellness,
    today: TodayInfo,
    settings: Settings,
    focus: Focus,
    version: int)

  function DefaultPomodoro(): Pomodoro {
    Pomodoro(25, 5, 15, 4, false)
  }

  /** The zero-data document of `DefaultState` (app.js:24-46). */
  function DefaultDoc(): Doc {
    Doc(
      [],
      [],
      Wellness(map[], map[], map[]),
      TodayInfo("", None),
      Settings(None, DefaultPomodoro(), 8),
      Focus(FocusPhase, 25 * 60 * 1000, false, None, 0),
      1)
  }

  // The stored form of each part of the document.

  function OptString(o: Option<string>): Value {
    match o
    case None => Null
    case Some(s) => Str(s)
  }

  function OptInt(o: Option<int>): Value {
    match o
    case None => Null
    case Some(n) => Num(n)
  }

  function PriorityName(p: Priority): string {
    match p
    case Low => "low"
    case Normal => "normal"
    case High => "high"
  }

  function StatusName(s: Status): string {
    match s
    case Todo => "todo"
    case Done => "done"
  }

  function FrequencyName(f: Frequency): string {
    match f
    case Daily => "daily"
    case Weekly => "weekly"
  }

  function PhaseName(p: Phase): string {
    match p
    case FocusPhase => "focus"
    case BreakPhase => "break"
    case LongBreakPhase => "longBreak"
  }

  function TaskValue(t: Task): Value {
    Obj(map[
      "id" := Str(t.id),
      "title" := Str(t.title),
      "notes" := Str(t.notes),
      "dueDate" := OptString(t.dueDate),
      "priority" := Str(PriorityName(t.priority)),
      "status" := Str(StatusName(t.status)),
      "isToday" := Bool(t.isToday),
      "createdAt" := Num(t.createdAt),
      "updatedAt" := Num(t.updatedAt)])
  }

  function HabitValue(h: Habit): Value {
    Obj(map[
      "id" := Str(h.id),
      "name" := Str(h.name),
      "frequency" := Str(FrequencyName(h.frequency)),
      "daysOfWeek" := Arr(seq(|h.daysOfWeek|, i requires 0 <= i < |h.daysOfWeek| => Num(h.daysOfWeek[i])), map[]),
      "history" := Obj(map k | k in h.history :: Bool(h.history[k]))])
  }

  function IntMapValue(m: map<string, int>): Value {
    Obj(map k | k in m :: Num(m[k]))
  }

  function WellnessValue(w: Wellness): Value {
    Obj(map[
      "moodByDate" := IntMapValue(w.moodByDate),
      "waterByDate" := IntMapValue(w.waterByDate),
      "sleepHoursByDate" := IntMapValue(w.sleepHoursByDate)])
  }

  function TodayValue(t: TodayInfo): Value {
    Obj(map["notes" := Str(t.notes), "focusTaskId" := OptString(t.focusTaskId)])
  }

  function PomodoroValue(p: Pomodoro): Value {
    Obj(map[
      "focusMinutes" := Num(p.focusMinutes),
      "breakMinutes" := Num(p.breakMinutes),
      "longBreakMinutes" := Num(p.longBreakMinutes),
      "longBreakEvery" := Num(p.longBreakEvery),
      "autoStartNext" := Bool(p.autoStartNext)])
  }

  function SettingsValue(s: Settings): Value {
    Obj(map[
      "darkMode" := (match s.darkMode case None => Null case Some(b) => Bool(b)),
      "pomodoro" := PomodoroValue(s.pomodoro),
      "dailyWaterGoal" := Num(s.dailyWaterGoal)])
  }

  function FocusValue(f: Focus): Value {
    Obj(map[
      "phase" := Str(PhaseName(f.phase)),
      "remainingMs" := Num(f.remainingMs),
      "running" := Bool(f.running),
      "lastTickTs" := OptInt(f.lastTickTs),
      "completedFocusSessions" := Num(f.completedFocusSessions)])
  }

  /** The JSON value of a document, as `JSON.stringify` would write it. */
  function ToValue(d: Doc): Value {
    Obj(map[
      "tasks" := Arr(seq(|d.tasks|, i requires 0 <= i < |d.tasks| => TaskValue(d.tasks[i])), map[]),
      "habits" := Arr(seq(|d.habits|, i requires 0 <= i < |d.habits| => HabitValue(d.habits[i])), map[]),
      "wellness" := WellnessValue(d.wellness),
      "today" := TodayValue(d.today),
      "settings" := SettingsValue(d.settings),
      "focus" := FocusValue(d.focus),
      "version" := Num(d.version)])
  }
}
