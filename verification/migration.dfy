/**
 * Loading, repairing, importing and resetting the stored planner document
 * (app.js:24-75, 581-598). The repair `migrateState` works section by
 * section with `||=`: a missing or falsy section gets its default, a truthy
 * one is kept as it is (the repair does not look inside it, except for the
 * three wellness maps and `settings.pomodoro`).
 */
module Migration {
  import opened Wrappers
  import opened Json
  import opened Schema

  // The literals of DefaultState (app.js:24-46); the repair assigns the
  // same literals (app.js:66, 70-73).

  function WellnessDefault(): Value {
    Obj(map["moodByDate" := EmptyObj(), "waterByDate" := EmptyObj(), "sleepHoursByDate" := EmptyObj()])
  }

  function TodayDefault(): Value {
    Obj(map["notes" := Str(""), "focusTaskId" := Null])
  }

  function PomodoroDefault(): Value {
    Obj(map[
      "focusMinutes" := Num(25),
      "breakMinutes" := Num(5),
      "longBreakMinutes" := Num(15),
      "longBreakEvery" := Num(4),
      "autoStartNext" := Bool(false)])
  }

  function SettingsDefault(): Value {
    Obj(map["darkMode" := Null, "pomodoro" := PomodoroDefault(), "dailyWaterGoal" := Num(8)])
  }

  function FocusDefault(): Value {
    Obj(map[
      "phase" := Str("focus"),
      "remainingMs" := Num(25 * 60 * 1000),
      "running" := Bool(false),
      "lastTickTs" := Null,
      "completedFocusSessions" := Num(0)])
  }

  /** `DefaultState()` (app.js:24-46): the zero-data document. */
  function DefaultState(): Value {
    Obj(map[
      "tasks" := EmptyArr(),
      "habits" := EmptyArr(),
      "wellness" := WellnessDefault(),
      "today" := TodayDefault(),
      "settings" := SettingsDefault(),
      "focus" := FocusDefault(),
      "version" := Num(1)])
  }

  /** The top-level sections the repair fills. */
  function SectionKeys(): set<string> {
    {"version", "tasks", "habits", "wellness", "today", "settings", "focus"}
  }

  /** The sections that are kept or replaced whole. */
  function WholeSections(): set<string> {
    {"version", "tasks", "habits", "today", "focus"}
  }

  function WellnessMaps(): set<string> {
    {"moodByDate", "waterByDate", "sleepHoursByDate"}
  }

  /** What app.js:67-69 do to the (truthy) wellness section: fill each missing or falsy map. */
  function RepairWellness(w: Value): Value {
    if !IsObject(w) then w
    else w.(props := w.props
      ["moodByDate" := Filled(Get(w, "moodByDate"), EmptyObj())]
      ["waterByDate" := Filled(Get(w, "waterByDate"), EmptyObj())]
      ["sleepHoursByDate" := Filled(Get(w, "sleepHoursByDate"), EmptyObj())])
  }

  /** What app.js:72 does to the (truthy) settings section: fill a missing or falsy `pomodoro`. */
  function RepairSettings(s: Value): Value {
    if !IsObject(s) then s
    else s.(props := s.props["pomodoro" := Filled(Get(s, "pomodoro"), PomodoroDefault())])
  }

  /**
   * The result of `migrateState(v)` (app.js:60-75): anything that is not an
   * object or array gives the defaults; otherwise each section in turn is
   * kept when truthy and replaced by its default when missing or falsy.
   */
  function Migrated(v: Value): Value {
    if !IsObject(v) then DefaultState()
    else v.(props := v.props
      ["version" := Filled(Get(v, "version"), Num(1))]
      ["tasks" := Filled(Get(v, "tasks"), EmptyArr())]
      ["habits" := Filled(Get(v, "habits"), EmptyArr())]
      ["wellness" := RepairWellness(Filled(Get(v, "wellness"), WellnessDefault()))]
      ["today" := Filled(Get(v, "today"), TodayDefault())]
      ["settings" := RepairSettings(Filled(Get(v, "settings"), SettingsDefault()))]
      ["focus" := Filled(Get(v, "focus"), FocusDefault())])
  }

  /** `migrateState` (app.js:60-75): the repair applied to the parsed object one `||=` at a time. */
  method MigrateState(state: Value) returns (r: Value)
    ensures r == Migrated(state)
  {
    if !IsObject(state) {
      return DefaultState();
    }
    var p := state.props;
    p := p["version" := Filled(Get(state, "version"), Num(1))];
    p := p["tasks" := Filled(Get(state, "tasks"), EmptyArr())];
    p := p["habits" := Filled(Get(state, "habits"), EmptyArr())];
    var w := Filled(Get(state, "wellness"), WellnessDefault());
    if IsObject(w) {
      var wp := w.props;
      wp := wp["moodByDate" := Filled(Get(w, "moodByDate"), EmptyObj())];
      wp := wp["waterByDate" := Filled(Get(w, "waterByDate"), EmptyObj())];
      wp := wp["sleepHoursByDate" := Filled(Get(w, "sleepHoursByDate"), EmptyObj())];
      w := w.(props := wp);
    }
    p := p["wellness" := w];
    p := p["today" := Filled(Get(state, "today"), TodayDefault())];
    var st := Filled(Get(state, "settings"), SettingsDefault());
    if IsObject(st) {
      st := st.(props := st.props["pomodoro" := Filled(Get(st, "pomodoro"), PomodoroDefault())]);
    }
    p := p["settings" := st];
    p := p["focus" := Filled(Get(state, "focus"), FocusDefault())];
    r := state.(props := p);
  }

  /** The repair of a truthy wellness section: missing or falsy maps become `{}`, the rest is kept. */
  lemma RepairWellnessFillsMaps(w: Value)
    ensures !IsObject(w) ==> RepairWellness(w) == w
    ensures IsObject(w) ==>
      var r := RepairWellness(w);
      && IsObject(r) && (r.Arr? <==> w.Arr?) && (r.Arr? ==> r.items == w.items)
      && (forall k :: k !in WellnessMaps() ==> Get(r, k) == Get(w, k))
      && (forall k :: k in WellnessMaps() && TruthyAt(w, k) ==> Get(r, k) == Get(w, k))
      && (forall k :: k in WellnessMaps() && !TruthyAt(w, k) ==> Get(r, k) == Some(EmptyObj()))
  {
  }

  /** The repair of a truthy settings section: only a missing or falsy `pomodoro` is replaced. */
  lemma RepairSettingsFillsPomodoro(s: Value)
    ensures !IsObject(s) ==> RepairSettings(s) == s
    ensures IsObject(s) ==>
      var r := RepairSettings(s);
      && IsObject(r) && (r.Arr? <==> s.Arr?) && (r.Arr? ==> r.items == s.items)
      && (forall k :: k != "pomodoro" ==> Get(r, k) == Get(s, k))
      && (TruthyAt(s, "pomodoro") ==> Get(r, "pomodoro") == Get(s, "pomodoro"))
      && (!TruthyAt(s, "pomodoro") ==> Get(r, "pomodoro") == Some(PomodoroDefault()))
  {
  }

  /** What the repair puts under each section of an object or array. */
  lemma MigratedAt(v: Value)
    requires IsObject(v)
    ensures var r := Migrated(v);
      && IsObject(r) && (r.Arr? <==> v.Arr?) && (r.Arr? ==> r.items == v.items)
      && Get(r, "version") == Some(Filled(Get(v, "version"), Num(1)))
      && Get(r, "tasks") == Some(Filled(Get(v, "tasks"), EmptyArr()))
      && Get(r, "habits") == Some(Filled(Get(v, "habits"), EmptyArr()))
      && Get(r, "wellness") == Some(RepairWellness(Filled(Get(v, "wellness"), WellnessDefault())))
      && Get(r, "today") == Some(Filled(Get(v, "today"), TodayDefault()))
      && Get(r, "settings") == Some(RepairSettings(Filled(Get(v, "settings"), SettingsDefault())))
      && Get(r, "focus") == Some(Filled(Get(v, "focus"), FocusDefault()))
  {
    MigratedAtFirst(v);
    MigratedAtLast(v);
  }

  /** The kind, items and first three sections, for `MigratedAt`. */
  lemma MigratedAtFirst(v: Value)
    requires IsObject(v)
    ensures var r := Migrated(v);
      && IsObject(r) && (r.Arr? <==> v.Arr?) && (r.Arr? ==> r.items == v.items)
      && Get(r, "version") == Some(Filled(Get(v, "version"), Num(1)))
      && Get(r, "tasks") == Some(Filled(Get(v, "tasks"), EmptyArr()))
      && Get(r, "habits") == Some(Filled(Get(v, "habits"), EmptyArr()))
  {
  }

  /** The last four sections, for `MigratedAt`. */
  lemma MigratedAtLast(v: Value)
    requires IsObject(v)
    ensures var r := Migrated(v);
      && Get(r, "wellness") == Some(RepairWellness(Filled(Get(v, "wellness"), WellnessDefault())))
      && Get(r, "today") == Some(Filled(Get(v, "today"), TodayDefault()))
      && Get(r, "settings") == Some(RepairSettings(Filled(Get(v, "settings"), SettingsDefault())))
      && Get(r, "focus") == Some(Filled(Get(v, "focus"), FocusDefault()))
  {
  }

  /** The repair does not touch a key outside the sections. */
  lemma MigratedKeepsOtherKeys(v: Value, k: string)
    requires IsObject(v) && k !in SectionKeys()
    ensures Get(Migrated(v), k) == Get(v, k)
  {
    assert k != "version" && k != "tasks" && k != "habits" && k != "wellness";
    assert k != "today" && k != "settings" && k != "focus";
  }

  /** A truthy section that is kept or replaced whole is kept as it is. */
  lemma MigratedKeepsTruthySection(v: Value, k: string)
    requires IsObject(v) && k in WholeSections() && TruthyAt(v, k)
    ensures Get(Migrated(v), k) == Get(v, k)
  {
    MigratedAt(v);
  }

  /** A missing or falsy section gets the section of the same name of `DefaultState()`. */
  lemma MigratedFillsMissingSection(v: Value, k: string)
    requires IsObject(v) && k in SectionKeys() && !TruthyAt(v, k)
    ensures Get(Migrated(v), k) == Get(DefaultState(), k)
  {
    MigratedAt(v);
    RepairWellnessOfDefault();
    RepairSettingsOfDefault();
  }

  /** The default wellness section needs no repair. */
  lemma RepairWellnessOfDefault()
    ensures RepairWellness(WellnessDefault()) == WellnessDefault()
  {
    assert RepairWellness(WellnessDefault()).props == WellnessDefault().props;
  }

  /** The default settings section needs no repair. */
  lemma RepairSettingsOfDefault()
    ensures RepairSettings(SettingsDefault()) == SettingsDefault()
  {
    assert RepairSettings(SettingsDefault()).props == SettingsDefault().props;
  }

  /** A document the repair has nothing to do for. */
  ghost predicate Complete(v: Value) {
    && IsObject(v)
    && TruthyAt(v, "version") && TruthyAt(v, "tasks") && TruthyAt(v, "habits")
    && TruthyAt(v, "wellness") && TruthyAt(v, "today") && TruthyAt(v, "settings")
    && TruthyAt(v, "focus")
    && (var w := v.props["wellness"];
        IsObject(w) ==> TruthyAt(w, "moodByDate") && TruthyAt(w, "waterByDate") && TruthyAt(w, "sleepHoursByDate"))
    && (var st := v.props["settings"]; IsObject(st) ==> TruthyAt(st, "pomodoro"))
  }

  /** Two objects or arrays of the same kind and items that agree on every key are equal. */
  lemma SameProperties(a: Value, b: Value)
    requires IsObject(a) && IsObject(b) && (a.Arr? <==> b.Arr?) && (a.Arr? ==> a.items == b.items)
    requires forall k :: Get(a, k) == Get(b, k)
    ensures a == b
  {
    assert a.props == b.props by {
      forall k | k in a.props
        ensures k in b.props && a.props[k] == b.props[k]
      {
        assert Get(a, k) == Get(b, k);
      }
      forall k | k in b.props
        ensures k in a.props
      {
        assert Get(a, k) == Get(b, k);
      }
    }
  }

  /** A wellness object whose three maps are truthy needs no repair. */
  lemma RepairWellnessOfComplete(w: Value)
    requires IsObject(w) && TruthyAt(w, "moodByDate") && TruthyAt(w, "waterByDate") && TruthyAt(w, "sleepHoursByDate")
    ensures RepairWellness(w) == w
  {
    RepairWellnessFillsMaps(w);
    forall k
      ensures Get(RepairWellness(w), k) == Get(w, k)
    {
      if k in WellnessMaps() {
        assert TruthyAt(w, k);
      }
    }
    SameProperties(RepairWellness(w), w);
  }

  /** A settings object with a truthy `pomodoro` needs no repair. */
  lemma RepairSettingsOfComplete(st: Value)
    requires IsObject(st) && TruthyAt(st, "pomodoro")
    ensures RepairSettings(st) == st
  {
    RepairSettingsFillsPomodoro(st);
    SameProperties(RepairSettings(st), st);
  }

  /** On a complete document the repair leaves every key as it is. */
  lemma MigratedKeyOfComplete(v: Value, k: string)
    requires Complete(v)
    ensures Get(Migrated(v), k) == Get(v, k)
  {
    if k in WholeSections() {
      MigratedKeepsTruthySection(v, k);
    } else if k == "wellness" {
      MigratedAt(v);
      var w := v.props["wellness"];
      if IsObject(w) {
        RepairWellnessOfComplete(w);
      }
    } else if k == "settings" {
      MigratedAt(v);
      var st := v.props["settings"];
      if IsObject(st) {
        RepairSettingsOfComplete(st);
      }
    } else {
      MigratedKeepsOtherKeys(v, k);
    }
  }

  /** Whatever it is given, the repair produces a complete document. */
  lemma MigratedIsComplete(v: Value)
    ensures Complete(Migrated(v))
  {
    if IsObject(v) {
      MigratedAt(v);
      var w := Filled(Get(v, "wellness"), WellnessDefault());
      RepairWellnessFillsMaps(w);
      if IsObject(w) {
        assert TruthyAt(RepairWellness(w), "moodByDate");
        assert TruthyAt(RepairWellness(w), "waterByDate");
        assert TruthyAt(RepairWellness(w), "sleepHoursByDate");
      }
      var st := Filled(Get(v, "settings"), SettingsDefault());
      RepairSettingsFillsPomodoro(st);
    } else {
      DefaultStateIsComplete();
    }
  }

  /** The zero-data document is complete. */
  lemma DefaultStateIsComplete()
    ensures Complete(DefaultState())
  {
    var d := DefaultState();
    assert Get(d, "wellness") == Some(WellnessDefault());
    assert Get(d, "settings") == Some(SettingsDefault());
  }

  /** The repair leaves a document unchanged exactly when it is complete. */
  lemma MigratedFixedExactlyWhenComplete(v: Value)
    ensures Migrated(v) == v <==> Complete(v)
  {
    if Complete(v) {
      MigratedAt(v);
      forall k
        ensures Get(Migrated(v), k) == Get(v, k)
      {
        MigratedKeyOfComplete(v, k);
      }
      SameProperties(Migrated(v), v);
    }
    MigratedIsComplete(v);
  }

  /** Repairing twice is the same as repairing once. */
  lemma MigrateIdempotent(v: Value)
    ensures Migrated(Migrated(v)) == Migrated(v)
  {
    MigratedIsComplete(v);
    MigratedFixedExactlyWhenComplete(Migrated(v));
  }

  /** The zero-data document passes through the repair unchanged. */
  lemma DefaultStateIsFixedPoint()
    ensures Migrated(DefaultState()) == DefaultState()
  {
    DefaultStateIsComplete();
    MigratedFixedExactlyWhenComplete(DefaultState());
  }

  // The typed document and its stored form.

  /** The stored form of the typed zero-data document is `DefaultState()`. */
  lemma DefaultDocIsDefaultState()
    ensures ToValue(DefaultDoc()) == DefaultState()
  {
    var d := DefaultDoc();
    assert seq(|d.tasks|, i requires 0 <= i < |d.tasks| => TaskValue(d.tasks[i])) == [];
    assert seq(|d.habits|, i requires 0 <= i < |d.habits| => HabitValue(d.habits[i])) == [];
    assert IntMapValue(map[]) == EmptyObj();
    assert WellnessValue(d.wellness) == WellnessDefault();
    assert SettingsValue(d.settings) == SettingsDefault();
    assert FocusValue(d.focus) == FocusDefault();
  }

  /** The sections of a stored typed document. */
  lemma ToValueAt(d: Doc)
    ensures var v := ToValue(d);
      && v.Obj?
      && Get(v, "version") == Some(Num(d.version))
      && Get(v, "tasks").Some? && Get(v, "tasks").value.Arr?
      && Get(v, "habits").Some? && Get(v, "habits").value.Arr?
      && Get(v, "wellness") == Some(WellnessValue(d.wellness))
      && Get(v, "today") == Some(TodayValue(d.today))
      && Get(v, "settings") == Some(SettingsValue(d.settings))
      && Get(v, "focus") == Some(FocusValue(d.focus))
  {
  }

  /**
   * A stored typed document is complete unless its version is 0: every
   * other section is an object or array, and so truthy.
   */
  lemma ToValueCompleteExactlyWhenVersioned(d: Doc)
    ensures Complete(ToValue(d)) <==> d.version != 0
  {
    ToValueAt(d);
    var w := WellnessValue(d.wellness);
    assert TruthyAt(w, "moodByDate") && TruthyAt(w, "waterByDate") && TruthyAt(w, "sleepHoursByDate");
    assert TruthyAt(SettingsValue(d.settings), "pomodoro");
  }

  /** The repair leaves a stored typed document alone exactly when its version is not 0. */
  lemma MigratedKeepsTypedDoc(d: Doc)
    ensures Migrated(ToValue(d)) == ToValue(d) <==> d.version != 0
  {
    ToValueCompleteExactlyWhenVersioned(d);
    MigratedFixedExactlyWhenComplete(ToValue(d));
  }

  /** A stored typed document with version 0 comes out of the repair with version 1 and nothing else changed. */
  lemma MigratedBumpsZeroVersion(d: Doc)
    requires d.version == 0
    ensures Migrated(ToValue(d)) == ToValue(d.(version := 1))
  {
    var v := ToValue(d);
    var e := ToValue(d.(version := 1));
    assert e == Put(v, "version", Num(1));
    MigratedOfFalsyVersion(v);
    MigratedKeepsTypedDoc(d.(version := 1));
  }

  /** A falsy version is the same to the repair as version 1. */
  lemma MigratedOfFalsyVersion(v: Value)
    requires IsObject(v) && !TruthyAt(v, "version")
    ensures Migrated(v) == Migrated(Put(v, "version", Num(1)))
  {
    var e := Put(v, "version", Num(1));
    MigratedAtFirst(v);
    MigratedAtFirst(e);
    forall k
      ensures Get(Migrated(v), k) == Get(Migrated(e), k)
    {
      if k != "version" {
        MigratedAgreesAwayFromVersion(v, e, k);
      }
    }
    SameProperties(Migrated(v), Migrated(e));
  }

  /** Two objects that agree on every key but the version agree there after the repair too. */
  lemma MigratedAgreesAwayFromVersion(v: Value, e: Value, k: string)
    requires IsObject(v) && IsObject(e) && k != "version"
    requires forall j :: j != "version" ==> Get(v, j) == Get(e, j)
    ensures Get(Migrated(v), k) == Get(Migrated(e), k)
  {
    if k in SectionKeys() {
      assert Get(v, k) == Get(e, k);
      if k in {"tasks", "habits"} {
        MigratedAtFirst(v);
        MigratedAtFirst(e);
      } else {
        MigratedAtLast(v);
        MigratedAtLast(e);
      }
    } else {
      MigratedKeepsOtherKeys(v, k);
      MigratedKeepsOtherKeys(e, k);
    }
  }

  // Loading, importing and resetting.

  /** What `JSON.parse` gives for a text: a value, or an exception. */
  datatype ParseResult = ParseFailed | Parsed(value: Value)

  /**
   * `loadState()` (app.js:48-59): the document read from storage, where
   * `raw` is what `localStorage.getItem` returned and `parse` stands for
   * `JSON.parse`. Nothing stored, an empty text or a text that does not
   * parse gives the defaults; anything else is repaired.
   */
  function LoadState(raw: Option<string>, parse: string -> ParseResult): (r: Value)
    ensures Complete(r)
    ensures raw.None? || raw == Some("") ==> r == DefaultState()
    ensures raw.Some? && raw.value != "" && parse(raw.value).ParseFailed? ==> r == DefaultState()
    ensures raw.Some? && raw.value != "" && parse(raw.value).Parsed? ==> r == Migrated(parse(raw.value).value)
  {
    DefaultStateIsComplete();
    if raw.None? || raw.value == "" then DefaultState()
    else match parse(raw.value)
      case ParseFailed => DefaultState()
      case Parsed(v) => MigratedIsComplete(v); Migrated(v)
  }

  /** What was saved from a typed document with a version comes back unchanged. */
  lemma LoadStateOfSaved(text: string, parse: string -> ParseResult, d: Doc)
    requires text != "" && parse(text) == Parsed(ToValue(d)) && d.version != 0
    ensures LoadState(Some(text), parse) == ToValue(d)
  {
    MigratedKeepsTypedDoc(d);
  }

  /** Loading a document that is already the result of a load changes nothing. */
  lemma ReloadIsStable(raw: Option<string>, parse: string -> ParseResult, text: string)
    requires text != "" && parse(text) == Parsed(LoadState(raw, parse))
    ensures LoadState(Some(text), parse) == LoadState(raw, parse)
  {
    MigratedFixedExactlyWhenComplete(LoadState(raw, parse));
  }

  /** The outcome of the import handler, reported by an alert or by nothing. */
  datatype ImportOutcome = NoFile | Imported | InvalidFile

  /** The planner's in-memory document as the load, import and reset handlers see it. */
  class Store {
    var state: Value

    /** The page starts from `loadState()` (app.js:77). */
    constructor (raw: Option<string>, parse: string -> ParseResult)
      ensures state == LoadState(raw, parse)
      ensures Complete(state)
    {
      state := LoadState(raw, parse);
    }

    /**
     * The import handler (app.js:581-592): no file does nothing; a file
     * whose text does not parse leaves the document alone; otherwise the
     * parsed value, repaired, replaces it.
     */
    method Import(file: Option<string>, parse: string -> ParseResult) returns (outcome: ImportOutcome)
      modifies this
      ensures file.None? ==> outcome == NoFile && state == old(state)
      ensures file.Some? && parse(file.value).ParseFailed? ==> outcome == InvalidFile && state == old(state)
      ensures file.Some? && parse(file.value).Parsed? ==>
        outcome == Imported && state == Migrated(parse(file.value).value) && Complete(state)
    {
      if file.None? {
        return NoFile;
      }
      match parse(file.value)
      case ParseFailed =>
        outcome := InvalidFile;
      case Parsed(imported) =>
        state := MigrateState(imported);
        MigratedIsComplete(imported);
        outcome := Imported;
    }

    /** The reset handler (app.js:594-598): after confirmation the document is `DefaultState()`. */
    method Reset(confirmed: bool)
      modifies this
      ensures confirmed ==> state == DefaultState() && Complete(state)
      ensures !confirmed ==> state == old(state)
    {
      if confirmed {
        state := DefaultState();
        DefaultStateIsComplete();
      }
    }
  }
}
