/** ISO week dates: the arithmetic of the formatter against the calendar.

    Days are numbered from Monday, 1 January of year 1, which is day 0. */
module IsoWeek {
  import opened BlockArithmetic

  // The proleptic Gregorian calendar.

  predicate Leap(year: int) {
    year % 4 == 0 && (year % 100 != 0 || year % 400 == 0)
  }

  function YearLength(year: int): nat {
    if Leap(year) then 366 else 365
  }

  /** The number of the first day of a year. */
  function FirstDay(year: nat): nat
    requires year >= 1
  {
    if year == 1 then 0 else FirstDay(year - 1) + YearLength(year - 1)
  }

  const THURSDAY := 3

  /** How many Thursdays there are from day `lo` up to, and not including, day `hi`. */
  function Thursdays(lo: nat, hi: nat): nat
    decreases hi
  {
    if hi <= lo then 0 else Thursdays(lo, hi - 1) + (if (hi - 1) % 7 == THURSDAY then 1 else 0)
  }

  function ThursdaysIn(year: nat): nat
    requires year >= 1
  {
    Thursdays(FirstDay(year), FirstDay(year + 1))
  }

  /** The Thursday of the Monday-to-Sunday week of a day. */
  function ThursdayOfWeek(day: nat): nat {
    day - day % 7 + THURSDAY
  }

  /** The broken-down time of a day, as far as it matters here: tm_yday, and tm_wday with Sunday as 0. */
  datatype Date = Date(year: int, yday: int, wday: int)

  predicate IsDate(d: Date) {
    d.year >= 1 && 0 <= d.yday < YearLength(d.year) && d.wday == (DayNumber(d) + 1) % 7
  }

  function DayNumber(d: Date): int {
    if d.year >= 1 then FirstDay(d.year) + d.yday else d.yday
  }

  // The formatter's arithmetic. Division and remainder round toward zero.

  function Div(a: int, b: int): int
    requires b > 0
  {
    if a >= 0 then a / b else -((-a) / b)
  }

  function Rem(a: int, b: int): int
    requires b > 0
  {
    a - b * Div(a, b)
  }

  function YearShift(year: int): int {
    Rem(year + Div(year, 4) - Div(year, 100) + Div(year, 400), 7)
  }

  function IsoYearWeeks(year: int): int {
    52 + (if YearShift(year) == 4 || YearShift(year - 1) == 3 then 1 else 0)
  }

  function IsoWeekNum(yday: int, wday: int): int {
    Div(yday + 11 - (if wday == 0 then 7 else wday), 7)
  }

  function IsoWeekYear(d: Date): int {
    var w := IsoWeekNum(d.yday, d.wday);
    if w < 1 then d.year - 1 else if w > IsoYearWeeks(d.year) then d.year + 1 else d.year
  }

  function IsoWeekOfYear(d: Date): int {
    var w := IsoWeekNum(d.yday, d.wday);
    if w < 1 then IsoYearWeeks(d.year - 1) else if w > IsoYearWeeks(d.year) then 1 else w
  }

  // Counting.

  lemma QuarterStep(y: nat, n: nat)
    requires n > 1 && y >= 1
    ensures y / n == (y - 1) / n + (if y % n == 0 then 1 else 0)
  {
    var q, r := (y - 1) / n, (y - 1) % n;
    assert y == n * q + r + 1;
    if r + 1 == n {
      assert y == n * (q + 1);
      QuotientUnique(y, n, q + 1, 0);
    } else {
      QuotientUnique(y, n, q, r + 1);
    }
  }

  lemma {:induction false} FirstDayClosed(year: nat)
    requires year >= 1
    ensures var y := year - 1; FirstDay(year) == 365 * y + y / 4 - y / 100 + y / 400
  {
    if year > 1 {
      var y := year - 1;
      FirstDayClosed(y);
      QuarterStep(y, 4);
      QuarterStep(y, 100);
      QuarterStep(y, 400);
      Divisors(y);
    }
  }

  lemma Divisors(y: nat)
    ensures y % 400 == 0 ==> y % 100 == 0
    ensures y % 100 == 0 ==> y % 4 == 0
  {
    if y % 400 == 0 {
      assert y == 100 * (4 * (y / 400));
    }
    if y % 100 == 0 {
      assert y == 4 * (25 * (y / 100));
    }
  }

  /** The year's shift is the weekday of the next year's first day, Monday being 0. */
  lemma ShiftIsWeekday(year: nat)
    ensures YearShift(year) == FirstDay(year + 1) % 7
  {
    FirstDayClosed(year + 1);
    var x := year + year / 4 - year / 100 + year / 400;
    assert x >= 0;
    assert Div(year, 4) == year / 4 && Div(year, 100) == year / 100 && Div(year, 400) == year / 400;
    SevenFold(x, 52 * year);
  }

  lemma SevenFold(x: nat, k: nat)
    ensures Rem(x, 7) == (x + 7 * k) % 7
  {
  }

  lemma {:induction false} ThursdaysClosed(lo: nat, hi: nat)
    requires lo <= hi
    ensures Thursdays(lo, hi) == (hi + 3) / 7 - (lo + 3) / 7
    decreases hi
  {
    if lo < hi {
      ThursdaysClosed(lo, hi - 1);
      OneMoreDay(hi);
    }
  }

  lemma OneMoreDay(hi: nat)
    requires hi > 0
    ensures (hi + 3) / 7 == (hi + 2) / 7 + (if (hi - 1) % 7 == THURSDAY then 1 else 0)
  {
    var q, r := (hi - 1) / 7, (hi - 1) % 7;
    assert hi - 1 == 7 * q + r;
  }

  /** A year has 53 Thursdays exactly if it begins or ends with one, and 52 otherwise. */
  lemma WeeksAreThursdays(year: nat)
    requires year >= 1
    ensures IsoYearWeeks(year) == ThursdaysIn(year)
  {
    hide Div, Rem, YearShift, FirstDay, Thursdays, Leap;
    ShiftIsWeekday(year);
    ShiftIsWeekday(year - 1);
    NextYear(year);
    ThursdaysClosed(FirstDay(year), FirstDay(year + 1));
    CountInYear(FirstDay(year), YearLength(year));
  }

  lemma NextYear(year: nat)
    requires year >= 1
    ensures FirstDay(year + 1) == FirstDay(year) + YearLength(year)
  {
  }

  lemma CountInYear(first: nat, length: nat)
    requires length == 365 || length == 366
    ensures (first + length + 3) / 7 - (first + 3) / 7
            == 52 + (if (first + length) % 7 == 4 || first % 7 == 3 then 1 else 0)
  {
    var q, r := first / 7, first % 7;
    assert first == 7 * q + r;
    assert (first + 3) / 7 == q + (if r >= 4 then 1 else 0);
    var d := if length == 365 then 1 else 2;
    assert first + length + 3 == 7 * (q + 52) + (r + d + 3);
    assert (first + length + 3) / 7 == q + 52 + (if r + d + 3 >= 7 then 1 else 0);
  }

  // The main results.

  /** The year in which a day falls. */
  predicate FallsIn(day: int, year: int) {
    year >= 1 && FirstDay(year) <= day < FirstDay(year + 1)
  }

  /** Counting up to a Thursday. */
  lemma CountTo(first: nat, thursday: nat)
    requires first <= thursday && thursday % 7 == 3
    ensures Thursdays(first, thursday + 1) == (thursday - first) / 7 + 1
  {
    ThursdaysClosed(first, thursday + 1);
    var k, q, r := thursday / 7, first / 7, first % 7;
    assert thursday == 7 * k + 3 && first == 7 * q + r;
    assert (thursday + 1 + 3) / 7 == k + 1;
    assert thursday - first == 7 * (k - q) + (3 - r);
  }

  /** Counting further only adds. */
  lemma {:induction false} CountMore(lo: nat, mid: nat, hi: nat)
    requires lo <= mid <= hi
    ensures Thursdays(lo, mid) <= Thursdays(lo, hi)
    ensures (forall x :: mid <= x < hi ==> x % 7 != 3) ==> Thursdays(lo, mid) == Thursdays(lo, hi)
    decreases hi
  {
    if mid < hi {
      CountMore(lo, mid, hi - 1);
    }
  }

  lemma NextDays(thursday: nat, x: nat)
    requires thursday % 7 == 3 && thursday < x < thursday + 7
    ensures x % 7 != 3
  {
    assert thursday == 7 * (thursday / 7) + 3;
  }

  /** The three ways in which the Thursday of a week can lie to a year. */
  lemma BeforeTheYear(year: nat, thursday: nat)
    requires year >= 2 && thursday % 7 == 3 && FirstDay(year) - 3 <= thursday < FirstDay(year)
    ensures FallsIn(thursday, year - 1)
    ensures Thursdays(FirstDay(year - 1), thursday + 1) == IsoYearWeeks(year - 1)
  {
    WeeksAreThursdays(year - 1);
    assert FirstDay(year) == FirstDay(year - 1) + YearLength(year - 1);
    forall x | thursday + 1 <= x < FirstDay(year) ensures x % 7 != 3 {
      NextDays(thursday, x);
    }
    CountMore(FirstDay(year - 1), thursday + 1, FirstDay(year));
  }

  lemma WithinTheYear(year: nat, thursday: nat)
    requires thursday % 7 == 3 && FallsIn(thursday, year)
    ensures Thursdays(FirstDay(year), thursday + 1) == (thursday - FirstDay(year)) / 7 + 1 <= IsoYearWeeks(year)
  {
    hide Thursdays, IsoYearWeeks, FirstDay;
    WeeksAreThursdays(year);
    CountTo(FirstDay(year), thursday);
    CountMore(FirstDay(year), thursday + 1, FirstDay(year + 1));
  }

  lemma CountPast(first: nat, next: nat, thursday: nat)
    requires first <= next <= thursday <= next + 2 && thursday % 7 == 3
    ensures (thursday - first) / 7 + 1 > (next + 3) / 7 - (first + 3) / 7
    ensures (thursday + 1 + 3) / 7 - (next + 3) / 7 == 1
  {
    var k, q, r := thursday / 7, first / 7, first % 7;
    assert thursday == 7 * k + 3 && first == 7 * q + r;
    assert (thursday + 4) / 7 == k + 1 && (next + 3) / 7 == k;
    assert thursday - first == 7 * (k - q) + (3 - r);
    assert (first + 3) / 7 == q + (if r >= 4 then 1 else 0);
  }

  lemma AfterTheYear(year: nat, thursday: nat)
    requires year >= 1 && thursday % 7 == 3 && FirstDay(year + 1) <= thursday <= FirstDay(year + 1) + 2
    ensures FallsIn(thursday, year + 1)
    ensures Thursdays(FirstDay(year + 1), thursday + 1) == 1
    ensures (thursday - FirstDay(year)) / 7 + 1 > IsoYearWeeks(year)
  {
    hide Thursdays, IsoYearWeeks, FirstDay, Leap;
    WeeksAreThursdays(year);
    NextYear(year);
    NextYear(year + 1);
    ThursdaysClosed(FirstDay(year), FirstDay(year + 1));
    ThursdaysClosed(FirstDay(year + 1), thursday + 1);
    CountPast(FirstDay(year), FirstDay(year + 1), thursday);
  }

  /** For every date from year 1 on: the week year is the year of the Thursday of the same week, and the
      week number says which Thursday of that year it is. */
  lemma WeekDateIsThursdays(d: Date)
    requires IsDate(d)
    ensures var thursday := ThursdayOfWeek(DayNumber(d));
      && FallsIn(thursday, IsoWeekYear(d))
      && IsoWeekOfYear(d) == Thursdays(FirstDay(IsoWeekYear(d)), thursday + 1)
  {
    hide Thursdays, IsoYearWeeks, IsoWeekNum, Leap;
    var year: nat, day: nat := d.year, DayNumber(d);
    var thursday := ThursdayOfWeek(day);
    var first, next := FirstDay(year), FirstDay(year + 1);
    assert next == first + YearLength(year);
    IsThursday(day);
    WeekNumber(d.yday, day, first, d.wday);
    if thursday < first {
      BeforeTheYear(year, thursday);
    } else if thursday < next {
      WithinTheYear(year, thursday);
    } else {
      AfterTheYear(year, thursday);
    }
  }

  lemma IsThursday(day: nat)
    ensures ThursdayOfWeek(day) % 7 == 3
    ensures day % 7 == 3 ==> ThursdayOfWeek(day) == day
  {
    assert ThursdayOfWeek(day) == 7 * (day / 7) + 3;
  }

  lemma WeekNumber(yday: nat, day: nat, first: nat, wday: int)
    requires day == first + yday && wday == (day + 1) % 7
    ensures var t := ThursdayOfWeek(day) - first;
      && -3 <= t <= yday + 3
      && IsoWeekNum(yday, wday) == (if t < 0 then 0 else t / 7 + 1)
  {
    var t := ThursdayOfWeek(day) - first;
    assert (if wday == 0 then 7 else wday) == day % 7 + 1;
    assert yday + 11 - (day % 7 + 1) == t + 7;
  }

  lemma FiftyTwoOrMore(year: nat)
    requires year >= 1
    ensures ThursdaysIn(year) == 52 || ThursdaysIn(year) == 53
  {
    hide ThursdaysIn, YearShift;
    WeeksAreThursdays(year);
  }

  lemma FiftyThird(d: Date, year: nat)
    requires year >= 1 && IsDate(d) && IsoWeekYear(d) == year && IsoWeekOfYear(d) == 53
    ensures ThursdaysIn(year) == 53
  {
    hide Thursdays, FirstDay, IsoWeekYear, IsoWeekOfYear, YearLength, ThursdayOfWeek;
    FiftyTwoOrMore(year);
    WeekDateIsThursdays(d);
    CountMore(FirstDay(year), ThursdayOfWeek(DayNumber(d)) + 1, FirstDay(year + 1));
  }

  /** Week 53 appears exactly in the years with 53 Thursdays, and every year has 52 or 53. */
  lemma Week53(year: nat)
    requires year >= 1
    ensures ThursdaysIn(year) == 52 || ThursdaysIn(year) == 53
    ensures (exists d :: IsDate(d) && IsoWeekYear(d) == year && IsoWeekOfYear(d) == 53) <==> ThursdaysIn(year) == 53
  {
    hide ThursdaysIn, IsoWeekYear, IsoWeekOfYear, IsDate;
    FiftyTwoOrMore(year);
    forall d | IsDate(d) && IsoWeekYear(d) == year && IsoWeekOfYear(d) == 53 ensures ThursdaysIn(year) == 53 {
      FiftyThird(d, year);
    }
    if ThursdaysIn(year) == 53 {
      var _ := LastThursday(year);
    }
  }

  /** The last Thursday of a year is in the year's last week. */
  lemma LastThursday(year: nat) returns (d: Date)
    requires year >= 1
    ensures IsDate(d) && IsoWeekYear(d) == year && IsoWeekOfYear(d) == ThursdaysIn(year)
  {
    hide Thursdays, IsoWeekYear, IsoWeekOfYear;
    var first, next := FirstDay(year), FirstDay(year + 1);
    assert next == first + YearLength(year);
    var day := next - 1 - (next + 3) % 7;
    LastOne(next, day);
    d := Date(year, day - first, 4);
    WeekDateIsThursdays(d);
    IsThursday(day);
    SameYear(day, IsoWeekYear(d), year);
    CountMore(first, day + 1, next);
  }

  /** The last Thursday before a day. */
  lemma LastOne(next: nat, day: int)
    requires next >= 7 && day == next - 1 - (next + 3) % 7
    ensures day >= 0 && day % 7 == 3 && (day + 1) % 7 == 4
    ensures forall x :: day + 1 <= x < next ==> x % 7 != 3
  {
    var q, r := (next + 3) / 7, (next + 3) % 7;
    assert next + 3 == 7 * q + r;
    assert day == 7 * (q - 1) + 3;
    forall x | day + 1 <= x < next ensures x % 7 != 3 {
      NextDays(day, x);
    }
  }

  lemma {:induction false} YearsFollow(a: nat, b: nat)
    requires 1 <= a < b
    ensures FirstDay(a + 1) <= FirstDay(b)
  {
    if a + 1 < b {
      YearsFollow(a, b - 1);
    }
  }

  lemma SameYear(day: int, a: int, b: int)
    requires FallsIn(day, a) && FallsIn(day, b)
    ensures a == b
  {
    if a < b {
      YearsFollow(a, b);
    } else if b < a {
      YearsFollow(b, a);
    }
  }
}
