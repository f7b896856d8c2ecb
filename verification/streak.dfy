/**
 * `computeStreak(habit)` (app.js:393-406): walking back from today for at
 * most 365 days, skip the days a weekly habit is not scheduled for, count
 * the scheduled days marked done, and stop at the first scheduled day that
 * is not.
 */
module Streak {
  import opened Schema
  import opened Calendar

  /** Whether the habit is due on a day: every day for a daily habit, its weekdays for a weekly one. */
  predicate Scheduled(h: Habit, day: int) {
    h.frequency == Weekly ==> Weekday(day) in h.daysOfWeek
  }

  /** `habit.history[key]` is truthy: a missing entry counts as not done. */
  predicate DoneOn(h: Habit, k: string) {
    k in h.history && h.history[k]
  }

  /** The streak the walk adds from its `i`-th step back onwards. */
  function StreakFrom(h: Habit, today: int, key: int -> string, i: nat): nat
    decreases 365 - i
  {
    if i >= 365 then 0
    else if !Scheduled(h, today - i) then StreakFrom(h, today, key, i + 1)
    else if DoneOn(h, key(today - i)) then 1 + StreakFrom(h, today, key, i + 1)
    else 0
  }

  /** The loop of `computeStreak`, with today's day number and the day-to-key conversion given. */
  method ComputeStreak(h: Habit, today: int, key: int -> string) returns (streak: nat)
    ensures streak == StreakFrom(h, today, key, 0)
    ensures streak <= 365
    ensures Scheduled(h, today) && !DoneOn(h, key(today)) ==> streak == 0
  {
    streak := 0;
    StreakBound(h, today, key, 0);
    for i := 0 to 365
      invariant StreakFrom(h, today, key, 0) == streak + StreakFrom(h, today, key, i)
    {
      var d := today - i;
      if h.frequency == Weekly && Weekday(d) !in h.daysOfWeek {
        continue;
      }
      if DoneOn(h, key(d)) {
        streak := streak + 1;
      } else {
        break;
      }
    }
  }

  /** How many of the steps `lo .. hi-1` back from today land on scheduled days. */
  function ScheduledCount(h: Habit, today: int, lo: nat, hi: nat): (n: nat)
    ensures n <= hi - lo || hi < lo
    decreases hi - lo
  {
    if hi <= lo then 0
    else ScheduledCount(h, today, lo, hi - 1) + (if Scheduled(h, today - (hi - 1)) then 1 else 0)
  }

  /** The scheduled-day count of a range split in two is the sum of the parts. */
  lemma {:induction false} ScheduledCountSplit(h: Habit, today: int, lo: nat, mid: nat, hi: nat)
    requires lo <= mid <= hi
    ensures ScheduledCount(h, today, lo, hi) == ScheduledCount(h, today, lo, mid) + ScheduledCount(h, today, mid, hi)
    decreases hi - mid
  {
    if mid < hi {
      ScheduledCountSplit(h, today, lo, mid, hi - 1);
    }
  }

  /** The streak never exceeds the scheduled days left in the 365-day window. */
  lemma {:induction false} StreakBound(h: Habit, today: int, key: int -> string, i: nat)
    requires i <= 365
    ensures StreakFrom(h, today, key, i) <= ScheduledCount(h, today, i, 365) <= 365 - i
    decreases 365 - i
  {
    if i < 365 {
      StreakBound(h, today, key, i + 1);
      ScheduledCountSplit(h, today, i, i + 1, 365);
      assert ScheduledCount(h, today, i, i + 1) == (if Scheduled(h, today - i) then 1 else 0);
    }
  }

  /**
   * The streak counts the scheduled days done in a row: when every
   * scheduled day among the first `stop` steps back is done, and `stop` is
   * the end of the window or a scheduled day not done, the streak is the
   * number of scheduled days before `stop`.
   */
  lemma StreakCountsDoneRun(h: Habit, today: int, key: int -> string, stop: nat)
    requires stop <= 365
    requires forall d :: today - stop < d <= today && Scheduled(h, d) ==> DoneOn(h, key(d))
    requires stop < 365 ==> Scheduled(h, today - stop) && !DoneOn(h, key(today - stop))
    ensures StreakFrom(h, today, key, 0) == ScheduledCount(h, today, 0, stop)
  {
    StreakCountsFrom(h, today, key, stop, 0);
  }

  lemma {:induction false} StreakCountsFrom(h: Habit, today: int, key: int -> string, stop: nat, i: nat)
    requires i <= stop <= 365
    requires forall d :: today - stop < d <= today - i && Scheduled(h, d) ==> DoneOn(h, key(d))
    requires stop < 365 ==> Scheduled(h, today - stop) && !DoneOn(h, key(today - stop))
    ensures StreakFrom(h, today, key, i) == ScheduledCount(h, today, i, stop)
    decreases stop - i
  {
    if i < stop {
      StreakCountsFrom(h, today, key, stop, i + 1);
      ScheduledCountSplit(h, today, i, i + 1, stop);
      assert ScheduledCount(h, today, i, i + 1) == (if Scheduled(h, today - i) then 1 else 0);
    }
  }

  /**
   * What a weekly habit records on a day it is not scheduled for neither
   * counts nor breaks the streak (the day keys being distinct).
   */
  lemma UnscheduledDayIrrelevant(h: Habit, today: int, key: int -> string, i0: nat, done: bool)
    requires forall a, b :: key(a) == key(b) ==> a == b
    requires !Scheduled(h, today - i0)
    ensures StreakFrom(h.(history := h.history[key(today - i0) := done]), today, key, 0) == StreakFrom(h, today, key, 0)
  {
    UnscheduledDayIrrelevantFrom(h, today, key, i0, done, 0);
  }

  lemma {:induction false} UnscheduledDayIrrelevantFrom(h: Habit, today: int, key: int -> string, i0: nat, done: bool, i: nat)
    requires forall a, b :: key(a) == key(b) ==> a == b
    requires !Scheduled(h, today - i0)
    ensures StreakFrom(h.(history := h.history[key(today - i0) := done]), today, key, i) == StreakFrom(h, today, key, i)
    decreases 365 - i
  {
    var h' := h.(history := h.history[key(today - i0) := done]);
    if i < 365 {
      UnscheduledDayIrrelevantFrom(h, today, key, i0, done, i + 1);
      assert Scheduled(h', today - i) == Scheduled(h, today - i);
      if Scheduled(h, today - i) {
        assert key(today - i) != key(today - i0);
        assert DoneOn(h', key(today - i)) == DoneOn(h, key(today - i));
      }
    }
  }

  /** For a daily habit, the streak is the run of consecutive days done, today first. */
  lemma DailyStreakIsRun(h: Habit, today: int, key: int -> string, n: nat)
    requires h.frequency == Daily && n <= 365
    requires forall d :: today - n < d <= today ==> DoneOn(h, key(d))
    requires n < 365 ==> !DoneOn(h, key(today - n))
    ensures StreakFrom(h, today, key, 0) == n
  {
    StreakCountsDoneRun(h, today, key, n);
    DailyCount(h, today, 0, n);
  }

  lemma {:induction false} DailyCount(h: Habit, today: int, lo: nat, hi: nat)
    requires h.frequency == Daily && lo <= hi
    ensures ScheduledCount(h, today, lo, hi) == hi - lo
    decreases hi - lo
  {
    if lo < hi {
      DailyCount(h, today, lo, hi - 1);
    }
  }
}
