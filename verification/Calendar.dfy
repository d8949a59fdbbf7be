/** addInterval (internal/platform/workers/common.go): billing dates on the proleptic Gregorian calendar.
    A time is a number of nanoseconds since the Unix epoch, in UTC. */
module Calendar {
  const DAY: int := 86400_000_000_000
  const EPOCH: int := 719528  // days from 0000-01-01 to 1970-01-01

  predicate Leap(year: int) {
    year % 4 == 0 && (year % 100 != 0 || year % 400 == 0)
  }

  /** Days from 0000-01-01 to the first of January of a year. */
  function YearStart(year: int): int {
    365 * year + (year + 3) / 4 - (year + 99) / 100 + (year + 399) / 400
  }

  const DAYS_BEFORE: seq<int> := [0, 31, 59, 90, 120, 151, 181, 212, 243, 273, 304, 334]

  /** Days from 0000-01-01 to the first of a month; months are counted from January of year 0. */
  function MonthStart(month: int): int {
    YearStart(month / 12) + DAYS_BEFORE[month % 12] + (if month % 12 >= 2 && Leap(month / 12) then 1 else 0)
  }

  lemma YearLength(year: int)
    ensures YearStart(year + 1) - YearStart(year) == if Leap(year) then 366 else 365
  {
    assert (year + 4) / 4 - (year + 3) / 4 == if year % 4 == 0 then 1 else 0;
    assert (year + 100) / 100 - (year + 99) / 100 == if year % 100 == 0 then 1 else 0;
    assert (year + 400) / 400 - (year + 399) / 400 == if year % 400 == 0 then 1 else 0;
    if year % 400 == 0 { assert year % 100 == 0 && year % 4 == 0; }
    if year % 100 == 0 { assert year % 4 == 0; }
  }

  /** The months have their Gregorian lengths, and the epoch is the first of January 1970. */
  lemma Gregorian(month: int)
    ensures var year := month / 12;
      var february := if year % 4 == 0 && (year % 100 != 0 || year % 400 == 0) then 29 else 28;
      MonthStart(month + 1) - MonthStart(month)
        == [31, february, 31, 30, 31, 30, 31, 31, 30, 31, 30, 31][month % 12]
    ensures MonthStart(1970 * 12) == EPOCH
  {
    var y, m := month / 12, month % 12;
    if m == 11 {
      assert (month + 1) / 12 == y + 1 && (month + 1) % 12 == 0;
      YearLength(y);
    } else {
      assert (month + 1) / 12 == y && (month + 1) % 12 == m + 1;
    }
  }

  /** The starts of consecutive months are 28 to 31 days apart. */
  ghost predicate Monthly(start: int -> int) {
    forall m :: start(m) + 28 <= start(m + 1) <= start(m) + 31
  }

  lemma MonthStartIsMonthly()
    ensures Monthly(MonthStart)
  {
    forall m ensures MonthStart(m) + 28 <= MonthStart(m + 1) <= MonthStart(m) + 31 {
      Gregorian(m);
    }
  }

  lemma {:induction false} MonthsLater(start: int -> int, month: int, count: nat)
    requires Monthly(start)
    ensures start(month) + 28 * count <= start(month + count) <= start(month) + 31 * count
    decreases count
  {
    if count > 0 {
      MonthsLater(start, month, count - 1);
      assert start(month + count - 1) + 28 <= start(month + count - 1 + 1) <= start(month + count - 1) + 31;
    }
  }

  function EarlierMonth(start: int -> int, day: int, month: int): (m: int)
    requires Monthly(start)
    ensures start(m) <= day
    decreases start(month) - day
  {
    if start(month) <= day then month else
      assert start(month - 1) + 28 <= start(month - 1 + 1);
      EarlierMonth(start, day, month - 1)
  }

  function LaterMonth(start: int -> int, day: int, month: int): (m: int)
    requires Monthly(start) && start(month) <= day
    ensures start(m) <= day < start(m + 1)
    decreases day - start(month)
  {
    if day < start(month + 1) then month else LaterMonth(start, day, month + 1)
  }

  /** The month that a day falls in. */
  function MonthOf(start: int -> int, day: int): (m: int)
    requires Monthly(start)
    ensures start(m) <= day < start(m + 1)
  {
    LaterMonth(start, day, EarlierMonth(start, day, 0))
  }

  /** The days between a day and the same day of a later month, overflowing into the following one when that month is
      shorter. */
  function MonthSpan(start: int -> int, day: int, count: int): (days: int)
    requires Monthly(start)
    ensures 0 <= count ==> 28 * count <= days <= 31 * count
  {
    MonthsLater(start, MonthOf(start, day), if 0 <= count then count else 0);
    start(MonthOf(start, day) + count) - start(MonthOf(start, day))
  }

  function MonthsLaterOn(start: int -> int, t: int, count: int): int
    requires Monthly(start)
  {
    t + MonthSpan(start, t / DAY + EPOCH, count) * DAY
  }

  /** AddDate(0, count, 0). */
  function AddMonths(t: int, count: int): (later: int)
  {
    MonthStartIsMonthly();
    MonthsLaterOn(MonthStart, t, count)
  }

  /** The value an int64 keeps of an integer. */
  function Wrap64(n: int): int {
    var r := n % 0x1_0000_0000_0000_0000;
    if r < 0x8000_0000_0000_0000 then r else r - 0x1_0000_0000_0000_0000
  }

  datatype Unit = Day | Week | Month

  function AtLeastOne(count: int): int {
    if count <= 0 then 1 else count
  }

  function AddInterval(t: int, unit: Unit, count: int): int {
    match unit
    case Day => t + Wrap64(AtLeastOne(count) * DAY)
    case Week => t + Wrap64(AtLeastOne(count) * 7 * DAY)
    case Month => AddMonths(t, AtLeastOne(count))
  }

  /** The interval fits the 63 bits of a duration in a way that keeps it positive; months always do. */
  predicate Advances(unit: Unit, count: int) {
    match unit
    case Day => 0 < (AtLeastOne(count) * DAY) % 0x1_0000_0000_0000_0000 < 0x8000_0000_0000_0000
    case Week => 0 < (AtLeastOne(count) * 7 * DAY) % 0x1_0000_0000_0000_0000 < 0x8000_0000_0000_0000
    case Month => true
  }

  /** The next billing date is later than this one exactly when the interval advances. */
  lemma NextDateIsLaterIff(t: int, unit: Unit, count: int)
    ensures t < AddInterval(t, unit, count) <==> Advances(unit, count)
  {
    if unit == Month {
      MonthStartIsMonthly();
      assert 0 < MonthSpan(MonthStart, t / DAY + EPOCH, AtLeastOne(count));
    }
  }

  lemma Unwrapped(n: int)
    requires 0 < n < 0x8000_0000_0000_0000
    ensures Wrap64(n) == n
  {}

  /** Up to 292 years, in days or weeks, it does: by that many times 24 or 168 hours. */
  lemma OrdinaryIntervalsAdvance(t: int, unit: Unit, count: int)
    requires unit == Day ==> count <= 106751
    requires unit == Week ==> count <= 15250
    ensures Advances(unit, count)
    ensures var n := if count <= 0 then 1 else count;
      && (unit == Day ==> AddInterval(t, unit, count) == t + n * 86_400_000_000_000)
      && (unit == Week ==> AddInterval(t, unit, count) == t + n * 604_800_000_000_000)
  {
    if unit == Day {
      assert 0 < AtLeastOne(count) * DAY <= 106751 * DAY;
      Unwrapped(AtLeastOne(count) * DAY);
    } else if unit == Week {
      assert 0 < AtLeastOne(count) * 7 * DAY <= 15250 * 7 * DAY;
      Unwrapped(AtLeastOne(count) * 7 * DAY);
    }
  }

  lemma OneMonth(start: int -> int, day: int, month: int)
    requires Monthly(start) && start(month) <= day < start(month + 1)
    ensures MonthOf(start, day) == month
  {
    var m := MonthOf(start, day);
    if m < month { MonthsLater(start, m + 1, month - m - 1); }
    if month < m { MonthsLater(start, month + 1, m - month - 1); }
  }

  /** Adding months keeps the time of day and the distance from the first of the month: `month` is the one that the time
      falls in. */
  lemma MonthsKeepTheDay(t: int, month: int, count: int)
    requires MonthStart(month) <= t / DAY + EPOCH < MonthStart(month + 1)
    ensures var n := if count <= 0 then 1 else count;
      AddInterval(t, Month, count) == t + (MonthStart(month + n) - MonthStart(month)) * DAY
  {
    var n := if count <= 0 then 1 else count;
    var first, next, later := MonthStart(month), MonthStart(month + 1), MonthStart(month + n);
    AddMonthsFrom(MonthStart, t, month, n, first, next, later);
  }

  lemma AddMonthsFrom(start: int -> int, t: int, month: int, n: int, first: int, next: int, later: int)
    requires start == MonthStart && start(month) == first && start(month + 1) == next && start(month + n) == later
    requires first <= t / DAY + EPOCH < next
    ensures AddMonths(t, n) == t + (later - first) * DAY
  {
    MonthStartIsMonthly();
    KeepsTheDay(start, t, month, n);
  }

  lemma KeepsTheDay(start: int -> int, t: int, month: int, count: int)
    requires Monthly(start) && start(month) <= t / DAY + EPOCH < start(month + 1)
    ensures MonthsLaterOn(start, t, count) == t + (start(month + count) - start(month)) * DAY
  {
    OneMonth(start, t / DAY + EPOCH, month);
  }

  /** A month after 31 January 2023 is 3 March. */
  lemma ShortMonthOverflows(t: int)
    requires t == 19388 * 86_400_000_000_000
    ensures AddInterval(t, Month, 1) == 19419 * 86_400_000_000_000
  {
    January2023();
    MonthsKeepTheDay(t, 2023 * 12, 1);
  }

  lemma January2023()
    ensures MonthStart(2023 * 12) == 738886 && MonthStart(2023 * 12 + 1) == 738917
  {
    assert YearStart(2023) == 738886;
    assert (2023 * 12) / 12 == 2023 && (2023 * 12) % 12 == 0;
    assert (2023 * 12 + 1) / 12 == 2023 && (2023 * 12 + 1) % 12 == 1;
  }

  /** One day more than 106751 wraps around: the next date is 106752 days less 2^64 nanoseconds away, in the past. */
  lemma LongIntervalGoesBack(t: int)
    ensures AddInterval(t, Day, 106752) < t
  {}
}
