/**
 * `calculateAge(birthdayDay, birthdayMonth, birthYear)` of the portfolio
 * page (script.js:21-34), with today's date passed in. Dates are a day, a
 * month (1..12) and a year; `new Date(y, m - 1, d)` keeps a valid date as
 * it is, so the birth date's year and day are the ones given.
 */
module Age {

  predicate LeapYear(y: int) {
    (y % 4 == 0 && y % 100 != 0) || y % 400 == 0
  }

  function DaysInMonth(y: int, m: int): int
    requires 1 <= m <= 12
  {
    if m == 2 then (if LeapYear(y) then 29 else 28)
    else if m == 4 || m == 6 || m == 9 || m == 11 then 30
    else 31
  }

  /** A date `Date` keeps as given: a real day of the month, outside the years 0..99 that it maps to 19xx. */
  predicate ValidDate(day: int, month: int, year: int) {
    1 <= month <= 12 && 1 <= day <= DaysInMonth(year, month) && !(0 <= year <= 99)
  }

  /** Calendar order: `(y1, m1, d1)` comes strictly before `(y2, m2, d2)`. */
  predicate Before(y1: int, m1: int, d1: int, y2: int, m2: int, d2: int) {
    y1 < y2 || (y1 == y2 && (m1 < m2 || (m1 == m2 && d1 < d2)))
  }

  /**
   * The age on `day`/`month`/`year` of someone born on
   * `birthDay`/`birthMonth`/`birthYear`: the year difference, less one
   * while this year's birthday is still to come.
   */
  function CalculateAge(birthDay: int, birthMonth: int, birthYear: int, day: int, month: int, year: int): (age: int)
    requires ValidDate(birthDay, birthMonth, birthYear) && ValidDate(day, month, year)
    ensures age == year - birthYear || age == year - birthYear - 1
    ensures age == year - birthYear - 1 <==> month < birthMonth || (month == birthMonth && day < birthDay)
    ensures !Before(year, month, day, birthYear + age, birthMonth, birthDay)
    ensures Before(year, month, day, birthYear + age + 1, birthMonth, birthDay)
  {
    var age := year - birthYear;
    var m := (month - 1) - (birthMonth - 1);
    if m < 0 || (m == 0 && day < birthDay) then age - 1 else age
  }

  /** On the birthday itself the age is the plain year difference. */
  lemma AgeOnBirthday(birthDay: int, birthMonth: int, birthYear: int, year: int)
    requires ValidDate(birthDay, birthMonth, birthYear) && ValidDate(birthDay, birthMonth, year)
    ensures CalculateAge(birthDay, birthMonth, birthYear, birthDay, birthMonth, year) == year - birthYear
  {
  }

  /** The page's own birthday, 29 August 1994: 31 from 29 August 2025 on, 30 before it in 2025. */
  lemma PageAgeIn2025(day: int, month: int)
    requires ValidDate(day, month, 2025)
    ensures !Before(2025, month, day, 2025, 8, 29) ==> CalculateAge(29, 8, 1994, day, month, 2025) == 31
    ensures Before(2025, month, day, 2025, 8, 29) ==> CalculateAge(29, 8, 1994, day, month, 2025) == 30
  {
  }
}
