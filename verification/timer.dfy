/**
 * The pomodoro timer over `state.focus` (app.js:300-366): phase lengths,
 * the phase change `nextPhase`, one tick of the interval loop, the
 * `MM:SS` display and the clamps of the settings form (app.js:558-569).
 * The clock is a parameter `now` in milliseconds.
 */
module Timer {
  import opened Wrappers
  import opened JsMath
  import opened JsText
  import opened Schema

  /** The ranges the settings form clamps to (app.js:563-566). */
  predicate PomodoroInRange(p: Pomodoro) {
    && 1 <= p.focusMinutes <= 240
    && 1 <= p.breakMinutes <= 120
    && 1 <= p.longBreakMinutes <= 180
    && 2 <= p.longBreakEvery <= 24
  }

  /** `msForPhase(phase)` (app.js:301-306): the phase's minutes in milliseconds. */
  function MsForPhase(p: Pomodoro, phase: Phase): (ms: int)
    ensures PomodoroInRange(p) ==> 60 * 1000 <= ms <= 240 * 60 * 1000
    ensures phase == LongBreakPhase ==> ms == p.longBreakMinutes * 60 * 1000
    ensures phase == BreakPhase ==> ms == p.breakMinutes * 60 * 1000
    ensures phase == FocusPhase ==> ms == p.focusMinutes * 60 * 1000
  {
    match phase
    case FocusPhase => p.focusMinutes * 60 * 1000
    case LongBreakPhase => p.longBreakMinutes * 60 * 1000
    case BreakPhase => p.breakMinutes * 60 * 1000
  }

  /**
   * `clamp(Number(longBreakEvery || 4), 2, 12)` (app.js:334): how many focus
   * sessions make a long break. The settings form accepts up to 24
   * (app.js:566), but every value from 12 up acts as 12.
   */
  function LongBreakInterval(p: Pomodoro): (every: int)
    ensures 2 <= every <= 12
    ensures 2 <= p.longBreakEvery <= 12 ==> every == p.longBreakEvery
    ensures 12 <= p.longBreakEvery ==> every == 12
    ensures p.longBreakEvery == 0 ==> every == 4
  {
    Clamp(if p.longBreakEvery == 0 then 4 else p.longBreakEvery, 2, 12)
  }

  /** `lastTickTs` after a phase change: the clock when the next phase starts running, else `null`. */
  function StartStamp(running: bool, now: int): (r: Option<int>)
    ensures r.Some? <==> running
    ensures r.Some? ==> r.value == now
  {
    if running then Some(now) else None
  }

  /**
   * `nextPhase()` (app.js:331-347) on the timer state: a finished focus
   * session is counted and followed by a long break every `LongBreakInterval`
   * sessions and by a short break otherwise; a break is followed by focus.
   * The new phase starts full, running when `autoStartNext` is set.
   */
  function AdvancePhase(f: Focus, p: Pomodoro, now: int): (g: Focus)
    ensures f.phase == FocusPhase ==>
      && g.completedFocusSessions == f.completedFocusSessions + 1
      && (g.phase == LongBreakPhase <==> g.completedFocusSessions % LongBreakInterval(p) == 0)
      && (g.phase == BreakPhase <==> g.completedFocusSessions % LongBreakInterval(p) != 0)
    ensures f.phase != FocusPhase ==> g.phase == FocusPhase && g.completedFocusSessions == f.completedFocusSessions
    ensures g.remainingMs == MsForPhase(p, g.phase)
    ensures g.running == p.autoStartNext
    ensures g.lastTickTs == (if p.autoStartNext then Some(now) else None)
  {
    if f.phase == FocusPhase then
      var count := f.completedFocusSessions + 1;
      var next := if count % LongBreakInterval(p) == 0 then LongBreakPhase else BreakPhase;
      Focus(next, MsForPhase(p, next), p.autoStartNext, StartStamp(p.autoStartNext, now), count)
    else
      Focus(FocusPhase, MsForPhase(p, FocusPhase), p.autoStartNext, StartStamp(p.autoStartNext, now), f.completedFocusSessions)
  }

  /** `n` phase changes in a row, all at the same clock reading. */
  function AdvanceTimes(f: Focus, p: Pomodoro, now: int, n: nat): Focus
    decreases n
  {
    if n == 0 then f else AdvanceTimes(AdvancePhase(f, p, now), p, now, n - 1)
  }

  /**
   * From a focus phase, every second phase change is back to focus with
   * one more session counted, and the changes between lead to a long break
   * exactly when the count reaches a multiple of the interval.
   */
  lemma {:induction false} PhaseCycle(f: Focus, p: Pomodoro, now: int, j: nat)
    requires f.phase == FocusPhase
    ensures var g := AdvanceTimes(f, p, now, 2 * j);
      g.phase == FocusPhase && g.completedFocusSessions == f.completedFocusSessions + j
    ensures var b := AdvanceTimes(f, p, now, 2 * j + 1);
      && b.completedFocusSessions == f.completedFocusSessions + j + 1
      && (b.phase == LongBreakPhase <==> (f.completedFocusSessions + j + 1) % LongBreakInterval(p) == 0)
      && (b.phase == BreakPhase <==> (f.completedFocusSessions + j + 1) % LongBreakInterval(p) != 0)
  {
    if j > 0 {
      PhaseCycle(f, p, now, j - 1);
      AdvanceTimesSplit(f, p, now, 2 * (j - 1) + 1, 1);
      AdvanceTimesSplit(f, p, now, 2 * j, 1);
    }
  }

  lemma {:induction false} AdvanceTimesSplit(f: Focus, p: Pomodoro, now: int, m: nat, n: nat)
    ensures AdvanceTimes(f, p, now, m + n) == AdvanceTimes(AdvanceTimes(f, p, now, m), p, now, n)
    decreases m
  {
    if m > 0 {
      AdvanceTimesSplit(AdvancePhase(f, p, now), p, now, m - 1, n);
    }
  }

  /**
   * Starting a cycle at a count that is a multiple of the interval, the
   * first `LongBreakInterval - 1` breaks are short and the next one is long.
   */
  lemma LongBreakAfterInterval(f: Focus, p: Pomodoro, now: int, k: nat, j: nat)
    requires f.phase == FocusPhase && f.completedFocusSessions == k * LongBreakInterval(p)
    requires j < LongBreakInterval(p)
    ensures AdvanceTimes(f, p, now, 2 * j + 1).phase == (if j == LongBreakInterval(p) - 1 then LongBreakPhase else BreakPhase)
  {
    PhaseCycle(f, p, now, j);
    MultiplePlus(k, LongBreakInterval(p), j + 1);
  }

  /** Adding at most one interval to a multiple of it: only a whole interval is again a multiple. */
  lemma MultiplePlus(q: int, every: int, r: int)
    requires every > 0 && 0 < r <= every
    ensures (q * every + r) % every == (if r == every then 0 else r)
  {
    if r == every {
      RemainderUnique(q * every + r, every, q + 1, 0);
    } else {
      RemainderUnique(q * every + r, every, q, r);
    }
  }

  /** The remainder of a division is the only one in range. */
  lemma RemainderUnique(x: int, m: int, q: int, r: int)
    requires m > 0 && 0 <= r < m && x == q * m + r
    ensures x % m == r
  {
    var q', r' := x / m, x % m;
    assert (q - q') * m == r' - r;
    ScaledAwayFromZero(q - q', m);
  }

  /** A non-zero multiple of `m` is at least `m` away from 0. */
  lemma ScaledAwayFromZero(k: int, m: int)
    requires m > 0
    ensures k >= 1 ==> k * m >= m
    ensures k <= -1 ==> k * m <= -m
  {
    if k >= 1 {
      assert k * m == (k - 1) * m + m;
    } else if k <= -1 {
      assert k * m == (k + 1) * m - m;
    }
  }

  /**
   * One tick of the interval loop (app.js:351-359): nothing while paused;
   * otherwise the time since the last tick (none recorded, or 0, counts as
   * none) comes off the remaining time, which stops at 0, and reaching 0
   * stops the timer and changes the phase.
   */
  function TickStep(f: Focus, p: Pomodoro, now: int): (g: Focus)
    ensures !f.running ==> g == f
    ensures f.running && f.remainingMs - Elapsed(f, now) > 0 ==>
      g == f.(lastTickTs := Some(now), remainingMs := f.remainingMs - Elapsed(f, now))
    ensures f.running && f.remainingMs - Elapsed(f, now) <= 0 ==> g == AdvancePhase(f, p, now)
    ensures f.remainingMs >= 0 && PomodoroInRange(p) ==> g.remainingMs >= 0
  {
    if !f.running then f
    else
      var remaining := Max(0, f.remainingMs - Elapsed(f, now));
      var ticked := f.(lastTickTs := Some(now), remainingMs := remaining);
      if remaining == 0 then AdvancePhase(ticked.(running := false), p, now) else ticked
  }

  /** `now - (lastTickTs || now)`: the time since the last tick, 0 when none was recorded. */
  function Elapsed(f: Focus, now: int): (dt: int)
    ensures f.lastTickTs.None? ==> dt == 0
  {
    match f.lastTickTs
    case None => 0
    case Some(t) => if t == 0 then 0 else now - t
  }

  /** `mmss(ms)` (app.js:363-366): whole seconds rounded up, as minutes and seconds padded to two digits. */
  function Mmss(ms: int): string {
    var total := CeilSeconds(ms);
    PadStart2(IntToString(total / 60)) + ":" + PadStart2(IntToString(JsRem(total, 60)))
  }

  /**
   * Up to 99:59 the display is `MM:SS` and reads back as the seconds left,
   * rounded up.
   */
  lemma MmssReadsBack(ms: int)
    requires 0 <= ms <= 5999 * 1000
    ensures var r := Mmss(ms);
      && |r| == 5 && r[2] == ':' && AllDigits(r[..2]) && AllDigits(r[3..])
      && ParseNat(r[3..]) < 60
      && ParseNat(r[..2]) * 60 + ParseNat(r[3..]) == CeilSeconds(ms)
  {
    var total := CeilSeconds(ms);
    TwoDigits(total / 60);
    TwoDigits(total % 60);
    var r := Mmss(ms);
    assert r[..2] == PadStart2(NatToString(total / 60));
    assert r[3..] == PadStart2(NatToString(total % 60));
  }

  /** `Number(value || fallback)` of a number field: an empty field gives the fallback. */
  function FieldOr(input: Option<int>, fallback: int): (r: int)
    ensures input.None? ==> r == fallback
    ensures input.Some? ==> r == input.value
  {
    match input
    case None => fallback
    case Some(v) => v
  }

  /**
   * The pomodoro settings the form stores (app.js:562-567): each number
   * field, empty meaning its default, clamped to its range.
   */
  function PomodoroFromInputs(focusIn: Option<int>, breakIn: Option<int>, longIn: Option<int>, everyIn: Option<int>, autoNext: bool): (p: Pomodoro)
    ensures PomodoroInRange(p)
    ensures p.autoStartNext == autoNext
    ensures focusIn.None? ==> p.focusMinutes == 25
    ensures breakIn.None? ==> p.breakMinutes == 5
    ensures longIn.None? ==> p.longBreakMinutes == 15
    ensures everyIn.None? ==> p.longBreakEvery == 4
    ensures focusIn.Some? && 1 <= focusIn.value <= 240 ==> p.focusMinutes == focusIn.value
    ensures breakIn.Some? && 1 <= breakIn.value <= 120 ==> p.breakMinutes == breakIn.value
    ensures longIn.Some? && 1 <= longIn.value <= 180 ==> p.longBreakMinutes == longIn.value
    ensures everyIn.Some? && 2 <= everyIn.value <= 24 ==> p.longBreakEvery == everyIn.value
  {
    Pomodoro(
      Clamp(FieldOr(focusIn, 25), 1, 240),
      Clamp(FieldOr(breakIn, 5), 1, 120),
      Clamp(FieldOr(longIn, 15), 1, 180),
      Clamp(FieldOr(everyIn, 4), 2, 24),
      autoNext)
  }
}
