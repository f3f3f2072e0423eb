/** Year and day of the year: the correction for year-end issues filed under the
    next year, in the importer and in the archive builder
    (internal/parser/pointlist.go:322-340, cmd/pointlistarchive/main.go:334-345, 452-454).
    A date is its day count in the Gregorian calendar; day 0 is 1 January of year 1. */
module Dates {
  import opened Text

  predicate Leap(year: int) {
    year % 4 == 0 && (year % 100 != 0 || year % 400 == 0)
  }

  // The day count of 1 January.
  function January1(year: int): int {
    var y := year - 1;
    365 * y + y / 4 - y / 100 + y / 400
  }

  function DaysInMonth(year: int, month: int): int
    requires 1 <= month <= 12
  {
    if month == 2 then (if Leap(year) then 29 else 28)
    else if month == 4 || month == 6 || month == 9 || month == 11 then 30
    else 31
  }

  function YearDay(year: int, month: int, day: int): int
    requires 1 <= month <= 12
  {
    if month == 1 then day else DaysInMonth(year, month - 1) + YearDay(year, month - 1, day)
  }

  // daysInYear: the day of the year of 31 December
  function DaysInYear(year: int): int {
    YearDay(year, 12, 31)
  }

  // The two ways to count a year agree: its months, and the next 1 January.
  lemma YearLength(year: int)
    ensures DaysInYear(year) == (if Leap(year) then 366 else 365)
    ensures January1(year + 1) == January1(year) + DaysInYear(year)
  {
    var february := DaysInMonth(year, 2);
    assert YearDay(year, 2, 31) == 62;
    assert YearDay(year, 3, 31) == 62 + february;
    assert YearDay(year, 4, 31) == 93 + february;
    assert YearDay(year, 5, 31) == 123 + february;
    assert YearDay(year, 6, 31) == 154 + february;
    assert YearDay(year, 7, 31) == 184 + february;
    assert YearDay(year, 8, 31) == 215 + february;
    assert YearDay(year, 9, 31) == 246 + february;
    assert YearDay(year, 10, 31) == 276 + february;
    assert YearDay(year, 11, 31) == 307 + february;
    NextYear(year);
  }

  lemma NextYear(year: int)
    ensures January1(year + 1) == January1(year) + if Leap(year) then 366 else 365
  {
    StepOfQuotient(year, 4);
    StepOfQuotient(year, 100);
    StepOfQuotient(year, 400);
  }

  // A quotient goes up by one exactly at the multiples.
  lemma StepOfQuotient(y: int, n: int)
    requires n > 1
    ensures y / n == (y - 1) / n + if y % n == 0 then 1 else 0
  {
    var q, r := (y - 1) / n, (y - 1) % n;
    assert y - 1 == q * n + r && 0 <= r < n;
    if r == n - 1 {
      assert y == (q + 1) * n;
      QuotientIs(y, n, q + 1, 0);
    } else {
      QuotientIs(y, n, q, r + 1);
    }
  }

  lemma QuotientIs(y: int, n: int, q: int, r: int)
    requires n > 0 && y == q * n + r && 0 <= r < n
    ensures y / n == q && y % n == r
  {
    var d := y / n - q;
    assert y == (y / n) * n + y % n;
    assert d * n == r - y % n;
    SmallMultiple(d, n);
  }

  lemma SmallMultiple(d: int, n: int)
    requires -n < d * n < n
    ensures d == 0
  {}

  // The date falls in this year.
  predicate InYear(date: int, year: int) {
    January1(year) <= date < January1(year + 1)
  }

  lemma {:induction false} YearsInOrder(a: int, b: int)
    requires a <= b
    ensures January1(a) + 365 * (b - a) <= January1(b)
    decreases b - a
  {
    if a < b {
      YearLength(a);
      YearsInOrder(a + 1, b);
    }
  }

  lemma YearIsUnique(date: int, a: int, b: int)
    requires InYear(date, a) && InYear(date, b)
    ensures a == b
  {
    if a < b {
      YearsInOrder(a + 1, b);
    } else if b < a {
      YearsInOrder(b + 1, a);
    }
  }

  /******* The correction *******/

  // dateFromYearDay, and whether it warned
  function DateFromYearDay(year: int, day: int): (r: (int, bool)) {
    var fixed := day > DaysInYear(year) && day <= DaysInYear(year - 1);
    (January1(if fixed then year - 1 else year) + day - 1, fixed)
  }

  predicate Exists(year: int, day: int) {
    1 <= day <= DaysInYear(year)
  }

  // The date falls in this year and in no other.
  ghost predicate InYearOnly(date: int, year: int) {
    forall y :: InYear(date, y) <==> y == year
  }

  // The corrected date has the stated day of the year, in the stated year or the
  // one before and in no other, exactly when that day exists in one of the two.
  lemma CorrectedDate(year: int, day: int)
    requires day >= 1
    ensures Exists(year, day) ==> InYearOnly(DateFromYearDay(year, day).0, year) && !DateFromYearDay(year, day).1
    ensures !Exists(year, day) && Exists(year - 1, day) ==>
      InYearOnly(DateFromYearDay(year, day).0, year - 1) && DateFromYearDay(year, day).1
    ensures Exists(year, day) || Exists(year - 1, day) <==>
      exists y :: InYear(DateFromYearDay(year, day).0, y) && DateFromYearDay(year, day).0 - January1(y) + 1 == day
  {
    YearLength(year);
    YearLength(year - 1);
    hide January1, DaysInYear;
    var date := DateFromYearDay(year, day).0;
    if Exists(year, day) {
      OnlyYear(date, year);
      assert InYear(date, year);
    } else if Exists(year - 1, day) {
      OnlyYear(date, year - 1);
      assert InYear(date, year - 1);
    } else {
      forall y | InYear(date, y) ensures date - January1(y) + 1 != day {
        if y <= year {
          YearsInOrder(y + 1, year + 1);
        } else {
          YearsInOrder(year + 1, y);
        }
      }
    }
  }

  lemma OnlyYear(date: int, year: int)
    requires InYear(date, year)
    ensures InYearOnly(date, year)
  {
    forall y | InYear(date, y) ensures y == year {
      YearIsUnique(date, y, year);
    }
  }

  // The archive builder's correction; None means the file is skipped.
  function BuilderYear(year: int, day: int): Option<int> {
    var fixed := if day > DaysInYear(year) && day <= DaysInYear(year - 1) then year - 1 else year;
    if day > DaysInYear(fixed) then None else Some(fixed)
  }

  // The builder accepts exactly the days that exist in the year or the one
  // before, and files each under the year of the importer's date.
  lemma BuilderAgrees(year: int, day: int)
    requires 1 <= day <= 366
    ensures BuilderYear(year, day).Some? <==> Exists(year, day) || Exists(year - 1, day)
    ensures BuilderYear(year, day).Some? ==> InYearOnly(DateFromYearDay(year, day).0, BuilderYear(year, day).value)
  {
    CorrectedDate(year, day);
  }

  // The importer does not skip the other days: it dates them in the next year.
  lemma OverflowRolls(year: int)
    requires !Leap(year) && !Leap(year - 1)
    ensures DateFromYearDay(year, 366) == (January1(year + 1), false) && BuilderYear(year, 366) == None
  {
    YearLength(year);
    YearLength(year - 1);
  }
}
