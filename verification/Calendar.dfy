/** Months of the proleptic Gregorian calendar, as `datetime.replace(day=1)` sees them. */
module Calendar {

  /** One day in microseconds; times count from the midnight that opens Monday 1 January of year 1, in UTC. */
  const DAY: int := 86_400_000_000

  predicate Leap(year: int) {
    year % 4 == 0 && (year % 100 != 0 || year % 400 == 0)
  }

  function MonthDays(year: int, month: int): (n: int)
    ensures 28 <= n <= 31
  {
    if month == 2 then (if Leap(year) then 29 else 28)
    else if month == 4 || month == 6 || month == 9 || month == 11 then 30
    else 31
  }

  /** The first day of the month holding `day`, by a walk over months from one that starts at `start`. */
  function MonthStartFrom(day: int, year: int, month: int, start: int): (first: int)
    requires start <= day
    ensures start <= first <= day < first + 31
    decreases day - start
  {
    var next := start + MonthDays(year, month);
    if day < next then start
    else if month == 12 then MonthStartFrom(day, year + 1, 1, next)
    else MonthStartFrom(day, year, month + 1, next)
  }

  /**
   Midnight on the first of the month. Times before year 1 do not exist in the source; they get their own midnight.
   */
  function MonthStart(t: int): (s: int)
    ensures s <= t && s % DAY == 0
    ensures t >= 0 ==> 0 <= s && t < s + 31 * DAY
  {
    if t < 0 then t - t % DAY else DAY * MonthStartFrom(t / DAY, 1, 1, 0)
  }

  // ----- New Year -----

  function YearDays(year: int): int {
    if Leap(year) then 366 else 365
  }

  /** Days from the first New Year to that of `year`. */
  function DaysBefore(year: nat): (n: nat)
    requires year >= 1
  {
    if year == 1 then 0 else DaysBefore(year - 1) + YearDays(year - 1)
  }

  /** Twelve steps of the walk are one year. */
  lemma YearWalk(day: int, year: int, s: int)
    requires s + YearDays(year) <= day
    ensures MonthStartFrom(day, year, 1, s) == MonthStartFrom(day, year + 1, 1, s + YearDays(year))
  {
    var feb := MonthDays(year, 2);
    assert MonthStartFrom(day, year, 1, s) == MonthStartFrom(day, year, 3, s + 31 + feb);
    assert MonthStartFrom(day, year, 3, s + 31 + feb) == MonthStartFrom(day, year, 5, s + 92 + feb);
    assert MonthStartFrom(day, year, 5, s + 92 + feb) == MonthStartFrom(day, year, 7, s + 153 + feb);
    assert MonthStartFrom(day, year, 7, s + 153 + feb) == MonthStartFrom(day, year, 9, s + 215 + feb);
    assert MonthStartFrom(day, year, 9, s + 215 + feb) == MonthStartFrom(day, year, 11, s + 276 + feb);
    assert MonthStartFrom(day, year, 11, s + 276 + feb) == MonthStartFrom(day, year + 1, 1, s + 337 + feb);
  }

  lemma {:induction false} YearsWalk(day: int, year: nat)
    requires year >= 1 && DaysBefore(year) <= day
    ensures MonthStartFrom(day, 1, 1, 0) == MonthStartFrom(day, year, 1, DaysBefore(year))
  {
    if year > 1 {
      YearsWalk(day, year - 1);
      YearWalk(day, year - 1, DaysBefore(year - 1));
    }
  }

  /** A New Year's midnight starts its own month. */
  lemma NewYear(year: nat)
    requires year >= 1
    ensures MonthStart(DAY * DaysBefore(year)) == DAY * DaysBefore(year)
  {
    YearsWalk(DaysBefore(year), year);
  }

  /** The calendar's leap days: every fourth year, not every hundredth, but every four hundredth. */
  lemma {:induction false} DaysBeforeIs(year: nat)
    requires year >= 1
    ensures DaysBefore(year) == 365 * (year - 1) + (year - 1) / 4 - (year - 1) / 100 + (year - 1) / 400
  {
    if year > 1 {
      DaysBeforeIs(year - 1);
      LeapDay(year - 2);
    }
  }

  /** One more year: a quotient grows by one at each multiple of its divisor. */
  lemma QuotientNext(n: nat, d: nat)
    requires d > 0
    ensures (n + 1) / d == n / d + if (n + 1) % d == 0 then 1 else 0
  {
    var q, r := n / d, n % d;
    assert n == d * q + r && 0 <= r < d;
    if r + 1 < d {
      Quotient(n + 1, d, q, r + 1);
    } else {
      assert n + 1 == d * (q + 1);
      Quotient(n + 1, d, q + 1, 0);
    }
  }

  lemma Quotient(x: nat, d: nat, q: nat, r: nat)
    requires 0 <= r < d && x == d * q + r
    ensures x / d == q && x % d == r
  {
    var k := x / d - q;
    assert d * k == r - x % d;
    assert k >= 1 ==> d * k >= d;
    assert k <= -1 ==> d * k + d <= 0;
  }

  lemma LeapDay(n: nat)
    ensures (if Leap(n + 1) then 1 else 0) ==
            (n + 1) / 4 - (n + 1) / 100 + (n + 1) / 400 - (n / 4 - n / 100 + n / 400)
  {
    QuotientNext(n, 4);
    QuotientNext(n, 100);
    QuotientNext(n, 400);
    assert (n + 1) % 100 == 0 ==> (n + 1) % 4 == 0;
    assert (n + 1) % 400 == 0 ==> (n + 1) % 100 == 0;
  }

  /** In the first century a leap year comes every fourth year. */
  lemma FirstCentury(year: nat)
    requires 1 <= year <= 100
    ensures DaysBefore(year) == 365 * (year - 1) + (year - 1) / 4
  {
    DaysBeforeIs(year);
  }

  /** The months of a common year, and February in a leap year. */
  lemma MonthTable(year: int, month: int)
    requires 1 <= month <= 12
    ensures MonthDays(year, month) ==
            [31, if YearDays(year) == 366 then 29 else 28, 31, 30, 31, 30, 31, 31, 30, 31, 30, 31][month - 1]
  {
  }
}
