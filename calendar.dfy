/** Calendar values as the JavaScript `Date` object exposes them through
    `getFullYear`, `getMonth` and `getDate` in local time. Months are numbered
    1..12 here (JavaScript numbers them 0..11). A `Moment` adds the time of day,
    so that two instants on the same day can still be ordered. */
module Calendar {

  datatype Date = Date(year: int, month: int, day: int)

  /** An instant: a local calendar day and the milliseconds since its midnight. */
  datatype Moment = Moment(date: Date, ms: int)

  const MsPerDay: int := 86400000

  predicate ValidDate(d: Date)
  {
    1 <= d.month <= 12 && 1 <= d.day <= DaysInMonth(d.year, d.month)
  }

  predicate ValidMoment(t: Moment)
  {
    ValidDate(t.date) && 0 <= t.ms < MsPerDay
  }

  predicate IsLeapYear(y: int)
  {
    (y % 4 == 0 && y % 100 != 0) || y % 400 == 0
  }

  function DaysInMonth(y: int, m: int): (n: int)
    requires 1 <= m <= 12
    ensures 28 <= n <= 31
    ensures m == 2 ==> (n == 29 <==> IsLeapYear(y))
  {
    if m == 2 then (if IsLeapYear(y) then 29 else 28)
    else if m == 4 || m == 6 || m == 9 || m == 11 then 30
    else 31
  }

  /** Months counted from year 0: consecutive calendar months get consecutive indices. */
  function MonthIndex(y: int, m: int): int
  {
    y * 12 + (m - 1)
  }

  /** The calendar month with a given index: the inverse of `MonthIndex`. */
  function MonthOfIndex(i: int): (r: (int, int))
    ensures 1 <= r.1 <= 12
    ensures MonthIndex(r.0, r.1) == i
  {
    (i / 12, i % 12 + 1)
  }

  lemma MonthIndexInjective(y1: int, m1: int, y2: int, m2: int)
    requires 1 <= m1 <= 12 && 1 <= m2 <= 12
    requires MonthIndex(y1, m1) == MonthIndex(y2, m2)
    ensures y1 == y2 && m1 == m2
  {
  }

  /** `new Date(y, m + 1, 1)` as JavaScript normalises it: December rolls over
      to January of the following year. */
  function MonthAfter(y: int, m: int): (r: (int, int))
    requires 1 <= m <= 12
    ensures 1 <= r.1 <= 12
    ensures MonthIndex(r.0, r.1) == MonthIndex(y, m) + 1
  {
    if m == 12 then (y + 1, 1) else (y, m + 1)
  }

  predicate SameMonth(a: Date, b: Date)
  {
    a.year == b.year && a.month == b.month
  }

  /** Chronological order on calendar days (lexicographic on year, month, day). */
  predicate DateBefore(a: Date, b: Date)
  {
    a.year < b.year || (a.year == b.year && (a.month < b.month || (a.month == b.month && a.day < b.day)))
  }

  predicate DateAtOrBefore(a: Date, b: Date)
  {
    a == b || DateBefore(a, b)
  }

  /** Chronological order on instants. */
  predicate MomentBefore(a: Moment, b: Moment)
  {
    DateBefore(a.date, b.date) || (a.date == b.date && a.ms < b.ms)
  }

  /** A number that orders valid instants chronologically (`Date.prototype.getTime`
      up to a monotone change of scale). */
  function Rank(t: Moment): int
  {
    ((t.date.year * 13 + t.date.month) * 32 + t.date.day) * MsPerDay + t.ms
  }

  lemma DayRankMonotone(a: Date, b: Date)
    requires 1 <= a.month <= 12 && 1 <= a.day <= 31
    requires 1 <= b.month <= 12 && 1 <= b.day <= 31
    ensures DateBefore(a, b) <==> (a.year * 13 + a.month) * 32 + a.day < (b.year * 13 + b.month) * 32 + b.day
  {
    var ka := a.year * 13 + a.month;
    var kb := b.year * 13 + b.month;
    assert a.year < b.year ==> ka + 1 <= kb by {
      if a.year < b.year { assert a.year * 13 + 13 <= b.year * 13; }
    }
    assert b.year < a.year ==> kb + 1 <= ka by {
      if b.year < a.year { assert b.year * 13 + 13 <= a.year * 13; }
    }
    assert ka < kb ==> ka * 32 + 32 <= kb * 32;
    assert kb < ka ==> kb * 32 + 32 <= ka * 32;
  }

  /** `Rank` agrees with the chronological order of instants. */
  lemma RankMonotone(a: Moment, b: Moment)
    requires ValidMoment(a) && ValidMoment(b)
    ensures MomentBefore(a, b) <==> Rank(a) < Rank(b)
  {
    var da := (a.date.year * 13 + a.date.month) * 32 + a.date.day;
    var db := (b.date.year * 13 + b.date.month) * 32 + b.date.day;
    DayRankMonotone(a.date, b.date);
    DayRankMonotone(b.date, a.date);
    assert da < db ==> da * MsPerDay + MsPerDay <= db * MsPerDay;
    assert db < da ==> db * MsPerDay + MsPerDay <= da * MsPerDay;
  }

  /** JavaScript's rule for a day-of-month that does not exist in the target
      month (`setMonth`, `setFullYear`): the surplus days run on into the next
      month, so 31 March moved back one month is 3 March (2 March in a leap year). */
  function NormaliseDay(y: int, m: int, d: int): (r: Date)
    requires 1 <= m <= 12 && 1 <= d <= 31
    ensures ValidDate(r)
    ensures d <= DaysInMonth(y, m) ==> r == Date(y, m, d)
    ensures d > DaysInMonth(y, m) ==> MonthIndex(r.year, r.month) == MonthIndex(y, m) + 1 && r.day == d - DaysInMonth(y, m)
  {
    if d <= DaysInMonth(y, m) then Date(y, m, d)
    else
      var next := MonthAfter(y, m);
      Date(next.0, next.1, d - DaysInMonth(y, m))
  }

  /** `date.setMonth(date.getMonth() + k)`: move by `k` calendar months keeping
      the day of month, with JavaScript's overflow rule. */
  function AddMonths(d: Date, k: int): (r: Date)
    requires ValidDate(d)
    ensures ValidDate(r)
    ensures d.day <= 28 ==> MonthIndex(r.year, r.month) == MonthIndex(d.year, d.month) + k && r.day == d.day
  {
    var target := MonthOfIndex(MonthIndex(d.year, d.month) + k);
    NormaliseDay(target.0, target.1, d.day)
  }

  /** `date.setFullYear(date.getFullYear() + k)`: 29 February of a leap year
      becomes 1 March when the target year is not a leap year. */
  function AddYears(d: Date, k: int): (r: Date)
    requires ValidDate(d)
    ensures ValidDate(r)
    ensures !(d.month == 2 && d.day == 29) ==> r == Date(d.year + k, d.month, d.day)
  {
    NormaliseDay(d.year + k, d.month, d.day)
  }
}
