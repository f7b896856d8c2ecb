/**
 * The queries the planner runs over its task list: looking a task or habit
 * up by id (`find`), deleting by id (`filter`), the Today list (app.js:123)
 * and the task list with its status filter and search box (app.js:202-207).
 */
module TaskQueries {
  import opened Wrappers
  import opened JsText
  import opened Schema

  /** `Array.prototype.filter`: the elements that pass, in their order. */
  function Filter<T(!new)>(s: seq<T>, keep: T -> bool): (r: seq<T>)
    ensures |r| <= |s|
    ensures forall x :: x in r <==> x in s && keep(x)
    ensures (forall i :: 0 <= i < |s| ==> keep(s[i])) ==> r == s
  {
    if s == [] then [] else (if keep(s[0]) then [s[0]] else []) + Filter(s[1..], keep)
  }

  /** Filtering a concatenation filters each part and keeps them in order. */
  lemma {:induction false} FilterConcat<T(!new)>(a: seq<T>, b: seq<T>, keep: T -> bool)
    ensures Filter(a + b, keep) == Filter(a, keep) + Filter(b, keep)
  {
    if a == [] {
      assert a + b == b;
    } else {
      assert (a + b)[1..] == a[1..] + b;
      FilterConcat(a[1..], b, keep);
    }
  }

  /** `Array.prototype.find` as an index: the first element that passes. */
  function FirstIndex<T>(s: seq<T>, p: T -> bool): (r: Option<nat>)
    ensures r.Some? ==> r.value < |s| && p(s[r.value]) && forall j :: 0 <= j < r.value ==> !p(s[j])
    ensures r.None? ==> forall j :: 0 <= j < |s| ==> !p(s[j])
  {
    if s == [] then None
    else if p(s[0]) then Some(0)
    else match FirstIndex(s[1..], p)
      case None => None
      case Some(i) => Some(i + 1)
  }

  /** `state.tasks.find(t => t.id === id)`, as the task's index. */
  function FindTask(tasks: seq<Task>, id: string): (r: Option<nat>)
    ensures r.Some? ==> r.value < |tasks| && tasks[r.value].id == id
    ensures r.Some? ==> forall j :: 0 <= j < r.value ==> tasks[j].id != id
    ensures r.None? <==> forall j :: 0 <= j < |tasks| ==> tasks[j].id != id
  {
    FirstIndex(tasks, (t: Task) => t.id == id)
  }

  /** `state.habits.find(h => h.id === id)`, as the habit's index. */
  function FindHabit(habits: seq<Habit>, id: string): (r: Option<nat>)
    ensures r.Some? ==> r.value < |habits| && habits[r.value].id == id
    ensures r.Some? ==> forall j :: 0 <= j < r.value ==> habits[j].id != id
    ensures r.None? <==> forall j :: 0 <= j < |habits| ==> habits[j].id != id
  {
    FirstIndex(habits, (h: Habit) => h.id == id)
  }

  /** `FirstIndex` only looks at which elements pass. */
  lemma {:induction false} FirstIndexSamePattern<T>(a: seq<T>, b: seq<T>, p: T -> bool)
    requires |a| == |b| && forall j :: 0 <= j < |a| ==> p(a[j]) == p(b[j])
    ensures FirstIndex(a, p) == FirstIndex(b, p)
  {
    if a != [] && !p(a[0]) {
      FirstIndexSamePattern(a[1..], b[1..], p);
    }
  }

  /** The element `find` returned, changed in place by `change`; nothing else moves. */
  function UpdateAt<T>(s: seq<T>, found: Option<nat>, change: T -> T): (r: seq<T>)
    requires found.Some? ==> found.value < |s|
    ensures |r| == |s|
    ensures found.None? ==> r == s
    ensures found.Some? ==> r[found.value] == change(s[found.value])
    ensures forall j :: 0 <= j < |s| && found != Some(j) ==> r[j] == s[j]
  {
    match found
    case None => s
    case Some(i) => s[i := change(s[i])]
  }

  /** `const task = state.tasks.find(t => t.id === id); if(!task) return;` followed by a change to `task`. */
  function UpdateTask(tasks: seq<Task>, id: string, change: Task -> Task): (r: seq<Task>)
    ensures |r| == |tasks|
    ensures FindTask(tasks, id).None? ==> r == tasks
    ensures FindTask(tasks, id).Some? ==> r[FindTask(tasks, id).value] == change(tasks[FindTask(tasks, id).value])
    ensures forall j :: 0 <= j < |tasks| && FindTask(tasks, id) != Some(j) ==> r[j] == tasks[j]
  {
    UpdateAt(tasks, FindTask(tasks, id), change)
  }

  /** The same for a habit (app.js:490-493). */
  function UpdateHabit(habits: seq<Habit>, id: string, change: Habit -> Habit): (r: seq<Habit>)
    ensures |r| == |habits|
    ensures FindHabit(habits, id).None? ==> r == habits
    ensures FindHabit(habits, id).Some? ==> r[FindHabit(habits, id).value] == change(habits[FindHabit(habits, id).value])
    ensures forall j :: 0 <= j < |habits| && FindHabit(habits, id) != Some(j) ==> r[j] == habits[j]
  {
    UpdateAt(habits, FindHabit(habits, id), change)
  }

  /** A change that keeps every task's id leaves the same task to be found by id. */
  lemma FindTaskAfterUpdate(tasks: seq<Task>, id: string, change: Task -> Task)
    requires forall t :: change(t).id == t.id
    ensures FindTask(UpdateTask(tasks, id, change), id) == FindTask(tasks, id)
  {
    FirstIndexSamePattern(UpdateTask(tasks, id, change), tasks, (t: Task) => t.id == id);
  }

  /** A change that keeps every habit's id leaves the same habit to be found by id. */
  lemma FindHabitAfterUpdate(habits: seq<Habit>, id: string, change: Habit -> Habit)
    requires forall h :: change(h).id == h.id
    ensures FindHabit(UpdateHabit(habits, id, change), id) == FindHabit(habits, id)
  {
    FirstIndexSamePattern(UpdateHabit(habits, id, change), habits, (h: Habit) => h.id == id);
  }

  /** `task.isToday = !task.isToday` (app.js:521). */
  function TodayToggled(t: Task): (r: Task)
    ensures r.isToday == !t.isToday && r.(isToday := t.isToday) == t
  {
    t.(isToday := !t.isToday)
  }

  /** Pressing the Today button of a task twice gives back the same list. */
  lemma ToggleTodayTwice(tasks: seq<Task>, id: string)
    ensures UpdateTask(UpdateTask(tasks, id, TodayToggled), id, TodayToggled) == tasks
  {
    FindTaskAfterUpdate(tasks, id, TodayToggled);
  }

  /** The checkbox handlers (app.js:446, 516): the status from the box and a new `updatedAt`. */
  function StatusSet(t: Task, checked: bool, now: int): (r: Task)
    ensures r.status == (if checked then Done else Todo) && r.updatedAt == now
    ensures r.(status := t.status, updatedAt := t.updatedAt) == t
  {
    t.(status := if checked then Done else Todo, updatedAt := now)
  }

  /** `habit.history[date] = !habit.history[date]` (app.js:493): a missing entry counts as not done. */
  function Flipped(history: map<string, bool>, date: string): (r: map<string, bool>)
    ensures date in r && r[date] == !(date in history && history[date])
    ensures forall k :: k != date ==> (k in r <==> k in history) && (k in r ==> r[k] == history[k])
  {
    history[date := !(date in history && history[date])]
  }

  /** `habit.history[date] = !habit.history[date]` on the habit itself. */
  function DayFlipped(h: Habit, date: string): (r: Habit)
    ensures r.(history := h.history) == h
  {
    h.(history := Flipped(h.history, date))
  }

  /**
   * Pressing a habit's day button twice leaves every other habit as it
   * was, and that habit as it was except that the day now has an entry
   * whose truth is what the day had before.
   */
  lemma HabitDayFlipTwice(habits: seq<Habit>, id: string, date: string)
    ensures var once := UpdateHabit(habits, id, h => DayFlipped(h, date));
      var twice := UpdateHabit(once, id, h => DayFlipped(h, date));
      && |twice| == |habits|
      && (FindHabit(habits, id).None? ==> twice == habits)
      && (FindHabit(habits, id).Some? ==>
        var i := FindHabit(habits, id).value;
        && (forall j :: 0 <= j < |habits| && j != i ==> twice[j] == habits[j])
        && twice[i].(history := habits[i].history) == habits[i]
        && twice[i].history == habits[i].history[date := date in habits[i].history && habits[i].history[date]])
  {
    var flip := (h: Habit) => DayFlipped(h, date);
    FindHabitAfterUpdate(habits, id, flip);
  }

  /** `state.tasks.filter(t => t.id !== id)`: the delete handlers (app.js:449, 519). */
  function WithoutId(tasks: seq<Task>, id: string): (r: seq<Task>)
    ensures forall t :: t in r <==> t in tasks && t.id != id
    ensures (forall i :: 0 <= i < |tasks| ==> tasks[i].id != id) ==> r == tasks
  {
    Filter(tasks, (t: Task) => t.id != id)
  }

  /** Deleting the one task with an id removes it from its place and keeps the rest in order. */
  lemma {:induction false} DeleteUniqueId(tasks: seq<Task>, i: nat)
    requires i < |tasks|
    requires forall j :: 0 <= j < |tasks| && j != i ==> tasks[j].id != tasks[i].id
    ensures WithoutId(tasks, tasks[i].id) == tasks[..i] + tasks[i + 1..]
  {
    var id := tasks[i].id;
    var rest := tasks[1..];
    if i == 0 {
      assert forall j :: 0 <= j < |rest| ==> rest[j].id != id by {
        forall j | 0 <= j < |rest|
          ensures rest[j].id != id
        {
          assert rest[j] == tasks[j + 1];
        }
      }
    } else {
      assert forall j :: 0 <= j < |rest| && j != i - 1 ==> rest[j].id != rest[i - 1].id by {
        forall j | 0 <= j < |rest| && j != i - 1
          ensures rest[j].id != rest[i - 1].id
        {
          assert rest[j] == tasks[j + 1];
        }
      }
      DeleteUniqueId(rest, i - 1);
      assert rest[i - 1] == tasks[i];
      assert tasks[..i] == [tasks[0]] + rest[..i - 1];
      assert tasks[i + 1..] == rest[i..];
    }
  }

  /** A task the Today list shows (app.js:123): flagged for today or due today, and not done. */
  predicate OnToday(t: Task, todayKey: string) {
    (t.isToday || t.dueDate == Some(todayKey)) && t.status != Done
  }

  /** The Today list, in task-list order. */
  function TodayTasks(tasks: seq<Task>, todayKey: string): (r: seq<Task>)
    ensures forall t :: t in r <==> t in tasks && OnToday(t, todayKey)
    ensures forall t :: t in r ==> t.status == Todo
  {
    Filter(tasks, (t: Task) => OnToday(t, todayKey))
  }

  /** The status select of the task list: `all`, `active` or `done`. */
  datatype ListFilter = All | Active | DoneOnly

  /**
   * The test of app.js:202-207 with `search` already lower-cased: the
   * status filter, then a non-empty search must occur in the lower-cased
   * `title notes` text.
   */
  predicate Listed(t: Task, filter: ListFilter, search: string) {
    && !(filter == Active && t.status == Done)
    && !(filter == DoneOnly && t.status != Done)
    && (search == "" || Includes(ToLower(t.title + " " + t.notes), search))
  }

  /** The task list for a status filter and the text typed in the search box. */
  function TaskListView(tasks: seq<Task>, filter: ListFilter, searchInput: string): (r: seq<Task>)
    ensures |r| <= |tasks|
    ensures forall t :: t in r <==> t in tasks && Listed(t, filter, ToLower(searchInput))
  {
    Filter(tasks, (t: Task) => Listed(t, filter, ToLower(searchInput)))
  }

  /**
   * What the task list drops: a done task under `active`, a task not done
   * under `done`, and under any filter a task whose lower-cased
   * `title notes` text does not contain a non-empty search.
   */
  lemma TaskListViewDrops(tasks: seq<Task>, filter: ListFilter, searchInput: string, t: Task)
    ensures filter == Active && t.status == Done ==> t !in TaskListView(tasks, filter, searchInput)
    ensures filter == DoneOnly && t.status != Done ==> t !in TaskListView(tasks, filter, searchInput)
    ensures ToLower(searchInput) != "" && !Includes(ToLower(t.title + " " + t.notes), ToLower(searchInput)) ==>
      t !in TaskListView(tasks, filter, searchInput)
  {
  }

  /** With the `all` filter and an empty search box every task is listed, in order. */
  lemma ViewAllUnfiltered(tasks: seq<Task>)
    ensures TaskListView(tasks, All, "") == tasks
  {
  }

  /** The `active` and `done` lists split the `all` list: each task listed there is in exactly one. */
  lemma ActiveAndDoneSplitAll(tasks: seq<Task>, searchInput: string, t: Task)
    ensures t in TaskListView(tasks, All, searchInput) <==>
      t in TaskListView(tasks, Active, searchInput) || t in TaskListView(tasks, DoneOnly, searchInput)
    ensures !(t in TaskListView(tasks, Active, searchInput) && t in TaskListView(tasks, DoneOnly, searchInput))
  {
  }

  /** The search ignores the case of ASCII letters in what was typed. */
  lemma SearchIgnoresCase(tasks: seq<Task>, filter: ListFilter, searchInput: string)
    ensures TaskListView(tasks, filter, searchInput) == TaskListView(tasks, filter, ToLower(searchInput))
  {
    ToLowerIdempotent(searchInput);
  }

  /** A task whose title contains the search text, ignoring ASCII case, is listed under `all`. */
  lemma TitleMatchIsListed(tasks: seq<Task>, t: Task, searchInput: string)
    requires t in tasks
    requires Includes(ToLower(t.title), ToLower(searchInput))
    ensures t in TaskListView(tasks, All, searchInput)
  {
    ToLowerConcat(t.title, " " + t.notes);
    assert t.title + " " + t.notes == t.title + (" " + t.notes);
    IncludesAppend(ToLower(t.title), ToLower(" " + t.notes), ToLower(searchInput));
  }
}
