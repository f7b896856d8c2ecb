/**
 * Days as the planner counts them. A day is an integer day number, day 0
 * being Thursday 1 January 1970; turning a day number into its calendar
 * date is the job of JavaScript's `Date` and is a parameter `key` here,
 * standing for "the `YYYY-MM-DD` key of this day". `DateKey` is the
 * formatting step of that key (app.js:4-10, 397, 416).
 */
module Calendar {
  import opened JsText

  /** `getDay()`: 0 for Sunday up to 6 for Saturday. */
  function Weekday(day: int): (w: int)
    ensures 0 <= w < 7
  {
    (day + 4) % 7
  }

  /** `mondayOffset` of `getCurrentWeekDates` (app.js:411): Sunday belongs to the week before. */
  function MondayOffset(weekday: int): int {
    if weekday == 0 then -6 else 1 - weekday
  }

  /** The Monday of the Monday-to-Sunday week holding `today` (app.js:409-412). */
  function MondayOf(today: int): (monday: int)
    ensures Weekday(monday) == 1
    ensures monday <= today <= monday + 6
    ensures Weekday(today) == 0 ==> monday == today - 6
  {
    today + MondayOffset(Weekday(today))
  }

  /** No other Monday is within six days before `today`. */
  lemma MondayOfUnique(today: int, monday: int)
    requires Weekday(monday) == 1 && monday <= today <= monday + 6
    ensures monday == MondayOf(today)
  {
    var m := MondayOf(today);
    assert (m - monday) % 7 == 0;
  }

  /**
   * `getCurrentWeekDates()` (app.js:408-420): the keys of the seven days of
   * this week, Monday first, filled one day at a time.
   */
  method CurrentWeekDates(today: int, key: int -> string) returns (days: seq<string>)
    ensures |days| == 7
    ensures forall i :: 0 <= i < 7 ==> days[i] == key(MondayOf(today) + i)
    ensures Weekday(MondayOf(today)) == 1
    ensures key(today) in days
    ensures Weekday(today) == 0 ==> days[0] == key(today - 6) && days[6] == key(today)
  {
    var monday := today + MondayOffset(Weekday(today));
    days := [];
    for i := 0 to 7
      invariant |days| == i
      invariant forall j :: 0 <= j < i ==> days[j] == key(monday + j)
    {
      days := days + [key(monday + i)];
    }
    assert days[today - monday] == key(today);
  }

  /**
   * The text `getTodayKey()` builds from a calendar date (app.js:4-10):
   * the year, then the month and the day each padded to two digits.
   */
  function DateKey(year: int, month: int, day: int): (k: string)
    requires 1 <= month <= 12 && 1 <= day <= 31
    ensures |k| == |IntToString(year)| + 6
  {
    TwoDigits(month);
    TwoDigits(day);
    IntToString(year) + "-" + PadStart2(NatToString(month)) + "-" + PadStart2(NatToString(day))
  }

  /** The parts of a key read back as the date it was built from. */
  lemma DateKeyParts(year: int, month: int, day: int)
    requires 1 <= month <= 12 && 1 <= day <= 31
    ensures var k := DateKey(year, month, day); var n := |k|;
      && k[..n - 6] == IntToString(year)
      && k[n - 6] == '-' && k[n - 3] == '-'
      && AllDigits(k[n - 5..n - 3]) && ParseNat(k[n - 5..n - 3]) == month
      && AllDigits(k[n - 2..]) && ParseNat(k[n - 2..]) == day
  {
    TwoDigits(month);
    TwoDigits(day);
    var k := DateKey(year, month, day);
    var n := |k|;
    assert k[n - 5..n - 3] == PadStart2(NatToString(month));
    assert k[n - 2..] == PadStart2(NatToString(day));
  }

  /** Different dates get different keys. */
  lemma DateKeyInjective(y1: int, m1: int, d1: int, y2: int, m2: int, d2: int)
    requires 1 <= m1 <= 12 && 1 <= d1 <= 31 && 1 <= m2 <= 12 && 1 <= d2 <= 31
    requires DateKey(y1, m1, d1) == DateKey(y2, m2, d2)
    ensures y1 == y2 && m1 == m2 && d1 == d2
  {
    DateKeyParts(y1, m1, d1);
    DateKeyParts(y2, m2, d2);
    IntToStringInjective(y1, y2);
  }

  /** A four-digit year gives the ten-character `YYYY-MM-DD` form. */
  lemma DateKeyOfFourDigitYear(year: int, month: int, day: int)
    requires 1000 <= year <= 9999 && 1 <= month <= 12 && 1 <= day <= 31
    ensures |DateKey(year, month, day)| == 10
  {
    NatToStringLength(year);
  }
}
