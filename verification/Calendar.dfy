/** Proleptic Gregorian calendar arithmetic on instants counted in microseconds from the first
    of January of year 1. */
module Calendar {
  import opened Common

  const DAY: int := 86_400_000_000

  /** Years run from 1 to this one. */
  const MAX_YEAR: int := 9999

  predicate IsLeap(year: int) { year % 4 == 0 && (year % 100 != 0 || year % 400 == 0) }

  function DaysInMonth(year: int, month: int): (d: int)
    ensures 28 <= d <= 31
  {
    if month == 2 then (if IsLeap(year) then 29 else 28)
    else if month in {4, 6, 9, 11} then 30
    else 31
  }

  /** Months are numbered from 0, January of year 1. */
  function MonthLength(i: int): (d: int)
    ensures 28 <= d <= 31
  {
    DaysInMonth(i / 12 + 1, i % 12 + 1)
  }

  /** Days before the first of month `i`. */
  function MonthStart(i: nat): (n: int)
    ensures n >= 0
  {
    if i == 0 then 0 else MonthStart(i - 1) + MonthLength(i - 1)
  }

  lemma {:induction false} MonthStartAdvances(i: nat, j: nat)
    requires i < j
    ensures MonthStart(i) + MonthLength(i) <= MonthStart(j)
    decreases j
  {
    if i < j - 1 { MonthStartAdvances(i, j - 1); }
  }

  /** The month that holds day `n` (days are numbered from 0), searching from month `i`. */
  function MonthFrom(n: int, i: nat): (m: nat)
    requires MonthStart(i) <= n
    ensures MonthStart(m) <= n < MonthStart(m + 1)
    decreases n - MonthStart(i)
  {
    if n < MonthStart(i + 1) then i else MonthFrom(n, i + 1)
  }

  lemma MonthUnique(n: int, i: nat, j: nat)
    requires MonthStart(i) <= n < MonthStart(i + 1) && MonthStart(j) <= n < MonthStart(j + 1)
    ensures i == j
  {
    if i < j { MonthStartAdvances(i, j); }
    if j < i { MonthStartAdvances(j, i); }
  }

  // ---------------------------------------------------------------- the Gregorian rules

  /** Days before each month of a common year. */
  const BEFORE_MONTH: seq<int> := [0, 31, 59, 90, 120, 151, 181, 212, 243, 273, 304, 334, 365]

  /** A year divisible by 4 has a 29th of February, unless it is divisible by 100 and not by 400. */
  lemma MonthInYear(y: nat, m: nat)
    requires m <= 12
    ensures var leap := (y + 1) % 400 == 0 || ((y + 1) % 4 == 0 && (y + 1) % 100 != 0);
            MonthStart(12 * y + m) == MonthStart(12 * y) + BEFORE_MONTH[m] + if m >= 2 && leap then 1 else 0
  {
    hide DaysInMonth;
    if m > 0 {
      MonthInYear(y, m - 1);
      MonthOf(y, m - 1);
    }
  }

  lemma MonthOf(y: nat, m: nat)
    requires m < 12
    ensures var leap := (y + 1) % 400 == 0 || ((y + 1) % 4 == 0 && (y + 1) % 100 != 0);
            MonthLength(12 * y + m) == BEFORE_MONTH[m + 1] - BEFORE_MONTH[m] + if m == 1 && leap then 1 else 0
  {
    TwelveParts(y, m);
  }

  lemma TwelveParts(y: nat, m: nat)
    requires m < 12
    ensures (12 * y + m) / 12 == y && (12 * y + m) % 12 == m
  {
  }

  /** Leap years among the first `y`. */
  function LeapYears(y: nat): int { y / 4 - y / 100 + y / 400 }

  /** Days before the first of January of year `y` + 1: 365 a year and one for each leap year. */
  lemma {:induction false} YearStart(y: nat)
    ensures MonthStart(12 * y) == 365 * y + LeapYears(y)
  {
    assert MonthStart(0) == 0 && LeapYears(0) == 0;
    hide MonthStart, LeapYears;
    if y > 0 {
      YearStart(y - 1);
      MonthInYear(y - 1, 12);
      assert 12 * (y - 1) + 12 == 12 * y;
      LeapDays(y);
    }
  }

  lemma LeapDays(y: nat)
    requires y > 0
    ensures var leap := y % 400 == 0 || (y % 4 == 0 && y % 100 != 0);
            LeapYears(y) - LeapYears(y - 1) == if leap then 1 else 0
  {
    Fours(y);
    Hundreds(y);
    FourHundreds(y);
    Multiples(y);
  }

  lemma Fours(y: nat)
    requires y > 0
    ensures y / 4 - (y - 1) / 4 == if y % 4 == 0 then 1 else 0
  {
  }

  lemma Hundreds(y: nat)
    requires y > 0
    ensures y / 100 - (y - 1) / 100 == if y % 100 == 0 then 1 else 0
  {
  }

  lemma FourHundreds(y: nat)
    requires y > 0
    ensures y / 400 - (y - 1) / 400 == if y % 400 == 0 then 1 else 0
  {
  }

  lemma Multiples(y: nat)
    ensures y % 400 == 0 ==> y % 100 == 0
    ensures y % 100 == 0 ==> y % 4 == 0
  {
    if y % 400 == 0 {
      assert y == 100 * (4 * (y / 400));
      HundredTimes(4 * (y / 400));
    }
    if y % 100 == 0 {
      assert y == 4 * (25 * (y / 100));
      FourTimes(25 * (y / 100));
    }
  }

  lemma HundredTimes(m: nat)
    ensures (100 * m) % 100 == 0
  {
  }

  lemma FourTimes(m: nat)
    ensures (4 * m) % 4 == 0
  {
  }

  lemma CenturiesOn(y: nat)
    ensures (y + 400) / 4 == y / 4 + 100 && (y + 400) / 100 == y / 100 + 4 && (y + 400) / 400 == y / 400 + 1
  {
  }

  /** The calendar repeats after 4800 months of 146097 days in all. */
  lemma FourCenturies(y: nat)
    ensures MonthStart(12 * y + 4800) - MonthStart(12 * y) == 146_097
  {
    hide MonthStart;
    YearStart(y);
    YearStart(y + 400);
    CenturiesOn(y);
    assert 12 * (y + 400) == 12 * y + 4800;
  }

  /** The first of March 2000 is day 730179, counting the first of January of year 1 as day 0. */
  lemma MarchOf2000()
    ensures MonthStart(12 * 1999 + 2) == 730_179
  {
    hide MonthStart;
    YearStart(1999);
    assert 1999 / 4 == 499 && 1999 / 100 == 19 && 1999 / 400 == 4;
    MonthInYear(1999, 2);
  }

  // ---------------------------------------------------------------- instants

  function MonthIndex(t: int): nat
    requires t >= 0
  {
    MonthFrom(t / DAY, 0)
  }

  function Year(t: int): int requires t >= 0 { MonthIndex(t) / 12 + 1 }

  function Month(t: int): int requires t >= 0 { MonthIndex(t) % 12 + 1 }

  function Day(t: int): (d: int)
    requires t >= 0
    ensures 1 <= d <= MonthLength(MonthIndex(t))
  {
    t / DAY - MonthStart(MonthIndex(t)) + 1
  }

  /** An instant the date type can represent. */
  predicate InRange(t: int) { t >= 0 && Year(t) <= MAX_YEAR }

  function Instant(i: nat, day: int, timeOfDay: int): int {
    (MonthStart(i) + day - 1) * DAY + timeOfDay
  }

  /** Building an instant from its fields and reading them back. */
  lemma InstantFields(i: nat, day: int, timeOfDay: int)
    requires 1 <= day <= MonthLength(i) && 0 <= timeOfDay < DAY
    ensures var t := Instant(i, day, timeOfDay);
            t >= 0 && MonthIndex(t) == i && Day(t) == day && t % DAY == timeOfDay
  {
    var n := MonthStart(i) + day - 1;
    assert Instant(i, day, timeOfDay) / DAY == n && Instant(i, day, timeOfDay) % DAY == timeOfDay;
    MonthUnique(n, i, MonthFrom(n, 0));
  }

  /** Every instant is the one built from its fields. */
  lemma FieldsInstant(t: int)
    requires t >= 0
    ensures t == Instant(MonthIndex(t), Day(t), t % DAY)
  {
  }

  /** Instants are ordered by month, then day, then time of day. */
  lemma InstantOrder(i: nat, d: int, s: int, j: nat, e: int, u: int)
    requires 1 <= d <= MonthLength(i) && 1 <= e <= MonthLength(j) && 0 <= s < DAY && 0 <= u < DAY
    ensures Instant(i, d, s) < Instant(j, e, u) <==> i < j || (i == j && (d < e || (d == e && s < u)))
  {
    if i < j { MonthStartAdvances(i, j); }
    if j < i { MonthStartAdvances(j, i); }
  }

  // ---------------------------------------------------------------- adding days and months

  function AddDays(t: int, days: int): (r: Option<int>)
    ensures r.Some? ==> r.value - t == days * (24 * 60 * 60 * 1_000_000)
  {
    var r := t + days * DAY;
    if InRange(r) then Some(r) else None
  }

  /** Last day of a month, as the day before the first of the next one. */
  function LastDay(year: int, month: int): int
    requires 1 <= year && 1 <= month <= 12
  {
    var next := if month == 12 then 12 * year else 12 * (year - 1) + month;
    Day(Instant(next, 1, 0) - DAY)
  }

  lemma LastDayIsLength(year: int, month: int)
    requires 1 <= year && 1 <= month <= 12
    ensures LastDay(year, month) == MonthLength(12 * (year - 1) + month - 1) == DaysInMonth(year, month)
  {
    hide MonthIndex, Day, DaysInMonth, MonthStart;
    var i := 12 * (year - 1) + month - 1;
    DayBeforeNext(i);
    assert i / 12 + 1 == year && i % 12 + 1 == month;
  }

  lemma DayBeforeNext(i: nat)
    ensures var t := Instant(i + 1, 1, 0) - DAY; t >= 0 && Day(t) == MonthLength(i)
  {
    InstantFields(i, MonthLength(i), 0);
    assert Instant(i + 1, 1, 0) - DAY == Instant(i, MonthLength(i), 0);
  }

  /** Add months, clamping the day to the target month; None where the date type overflows,
      which for December already happens one year early, through the next month's first. */
  function AddMonths(t: int, months: int): Option<int>
    requires t >= 0
  {
    var total := Month(t) - 1 + months;
    var newYear := Year(t) + total / 12;
    var newMonth := total % 12 + 1;
    if newYear < 1 || (if newMonth == 12 then newYear + 1 else newYear) > MAX_YEAR then None
    else
      var last := LastDay(newYear, newMonth);
      var day := if Day(t) <= last then Day(t) else last;
      Some(Instant(12 * (newYear - 1) + newMonth - 1, day, t % DAY))
  }

  /** The result is the same day of the month that lies `months` further, clamped to that month's
      length, at the same time of day. */
  lemma AddMonthsFields(t: int, months: int)
    requires t >= 0 && AddMonths(t, months).Some?
    ensures var r := AddMonths(t, months).value;
            && r >= 0 && InRange(r) && MonthIndex(r) == MonthIndex(t) + months && r % DAY == t % DAY
            && Day(r) == if Day(t) <= MonthLength(MonthIndex(r)) then Day(t) else MonthLength(MonthIndex(r))
    ensures var r := AddMonths(t, months).value; r == Instant(MonthIndex(r), Day(r), r % DAY)
  {
    hide MonthIndex, Day, MonthLength, Instant, LastDay;
    var total := Month(t) - 1 + months;
    var newYear, newMonth := Year(t) + total / 12, total % 12 + 1;
    LastDayIsLength(newYear, newMonth);
    var i := 12 * (newYear - 1) + newMonth - 1;
    assert i == MonthIndex(t) + months;
    InstantFields(i, if Day(t) <= MonthLength(i) then Day(t) else MonthLength(i), t % DAY);
  }

  /** Adding months fails exactly before year 1 and from the last month of the range on, whose next
      month's first cannot be built. */
  lemma AddMonthsOverflows(t: int, months: int)
    requires t >= 0
    ensures AddMonths(t, months).None? <==> MonthIndex(t) + months < 0 || MonthIndex(t) + months >= 12 * 9999 - 1
  {
    hide MonthIndex, LastDay, Day, Instant;
    var total := Month(t) - 1 + months;
    var newYear, newMonth := Year(t) + total / 12, total % 12 + 1;
    assert 12 * (newYear - 1) + newMonth - 1 == MonthIndex(t) + months;
  }

  /** Clamping puts two instants of one month on the same day although the earlier one has the
      later time of day. */
  predicate ClampedTogether(s: int, t: int, months: int)
    requires s >= 0 && t >= 0 && MonthIndex(t) + months >= 0
  {
    && MonthIndex(s) == MonthIndex(t) && MonthLength(MonthIndex(t) + months) <= Day(s) < Day(t)
    && s % DAY > t % DAY
  }

  /** Adding months keeps the order of two instants exactly unless they are clamped together. */
  lemma AddMonthsMonotoneIff(s: int, t: int, months: int)
    requires 0 <= s <= t && AddMonths(s, months).Some? && AddMonths(t, months).Some?
    ensures MonthIndex(t) + months >= 0
    ensures AddMonths(s, months).value <= AddMonths(t, months).value <==> !ClampedTogether(s, t, months)
  {
    hide Instant, MonthIndex, Day, AddMonths, InRange, MonthLength;
    AddMonthsFields(s, months);
    AddMonthsFields(t, months);
    var x, y := AddMonths(s, months).value, AddMonths(t, months).value;
    FieldsInstant(s);
    FieldsInstant(t);
    InstantOrder(MonthIndex(t), Day(t), t % DAY, MonthIndex(s), Day(s), s % DAY);
    InstantOrder(MonthIndex(y), Day(y), y % DAY, MonthIndex(x), Day(x), x % DAY);
  }

  /** The 30th at 23:00 comes before the 31st at 01:00; a month later both are the 28th and the
      order is reversed. */
  lemma MonthsReorder()
    ensures var s, t := 29 * DAY + 23 * (DAY / 24), 30 * DAY + DAY / 24;
            && s < t && AddMonths(s, 1).Some? && AddMonths(t, 1).Some?
            && AddMonths(s, 1).value > AddMonths(t, 1).value
  {
    hide MonthIndex, Day, Instant, LastDay, MonthStart;
    var s, t := 29 * DAY + 23 * (DAY / 24), 30 * DAY + DAY / 24;
    InFirstMonth(30, 23 * (DAY / 24));
    InFirstMonth(31, DAY / 24);
    LastDayIsLength(1, 2);
    AddMonthsMonotoneIff(s, t, 1);
  }

  lemma InFirstMonth(day: int, timeOfDay: int)
    requires 1 <= day <= 31 && 0 <= timeOfDay < DAY
    ensures var t := (day - 1) * DAY + timeOfDay; MonthIndex(t) == 0 && Day(t) == day && t % DAY == timeOfDay
  {
    hide MonthIndex, Day;
    assert MonthStart(0) == 0 && MonthLength(0) == 31;
    InstantFields(0, day, timeOfDay);
  }

  lemma SameTimeOfDay(s: int, t: int)
    requires s % DAY == t % DAY
    ensures s < t ==> s + DAY <= t
  {
  }

  /** Adding a positive number of months advances by whole days, a negative one goes back. */
  lemma AddMonthsStrict(t: int, months: int)
    requires t >= 0 && AddMonths(t, months).Some?
    ensures months > 0 ==> AddMonths(t, months).value >= t + DAY
    ensures months < 0 ==> AddMonths(t, months).value <= t - DAY
    ensures months == 0 ==> AddMonths(t, months).value == t
  {
    hide Instant, MonthIndex, Day, AddMonths, InRange, MonthLength;
    AddMonthsFields(t, months);
    var r := AddMonths(t, months).value;
    FieldsInstant(t);
    InstantOrder(MonthIndex(t), Day(t), t % DAY, MonthIndex(r), Day(r), r % DAY);
    InstantOrder(MonthIndex(r), Day(r), r % DAY, MonthIndex(t), Day(t), t % DAY);
    SameTimeOfDay(t, r);
    SameTimeOfDay(r, t);
  }
}
