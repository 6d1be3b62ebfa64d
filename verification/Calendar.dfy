/**
 UTC calendar arithmetic as the backup scheduler uses it: days since 1970-01-01, Monday-based
 weeks, and months of the Gregorian calendar. Months are numbered `12 * year + month - 1`.
 */
module Calendar {

  predicate IsLeap(year: int) {
    year % 4 == 0 && (year % 100 != 0 || year % 400 == 0)
  }

  /** The length of month `m` (0 is January) of a year. */
  function DaysIn(m: int, leap: bool): (days: int)
    ensures 28 <= days <= 31
  {
    if m == 1 then (if leap then 29 else 28)
    else if m == 3 || m == 5 || m == 8 || m == 10 then 30
    else 31
  }

  function MonthLength(k: int): (days: int)
    ensures 28 <= days <= 31
  {
    DaysIn(k % 12, IsLeap(k / 12))
  }

  const EPOCH_MONTH: int := 12 * 1970

  /** The day number of the first of month `k`. */
  function MonthStart(k: int): int
    decreases if k < EPOCH_MONTH then EPOCH_MONTH - k else k - EPOCH_MONTH
  {
    if k == EPOCH_MONTH then 0
    else if k > EPOCH_MONTH then MonthStart(k - 1) + MonthLength(k - 1)
    else MonthStart(k + 1) - MonthLength(k)
  }

  lemma {:induction false} MonthStartsIncrease(j: int, k: int)
    requires j < k
    ensures MonthStart(j) < MonthStart(k)
    decreases k - j
  {
    if j < k - 1 { MonthStartsIncrease(j, k - 1); }
  }

  /** Twelve months make a year of 365 or 366 days. */
  lemma YearLength(year: int)
    ensures MonthStart(12 * year + 12) - MonthStart(12 * year) == if IsLeap(year) then 366 else 365
  {
    var k := 12 * year;
    MonthsOfYear(year, 0); MonthsOfYear(year, 1); MonthsOfYear(year, 2); MonthsOfYear(year, 3);
    MonthsOfYear(year, 4); MonthsOfYear(year, 5); MonthsOfYear(year, 6); MonthsOfYear(year, 7);
    MonthsOfYear(year, 8); MonthsOfYear(year, 9); MonthsOfYear(year, 10); MonthsOfYear(year, 11);
  }

  lemma MonthsOfYear(year: int, m: int)
    requires 0 <= m < 12
    ensures MonthStart(12 * year + m + 1) == MonthStart(12 * year + m) + DaysIn(m, IsLeap(year))
  {
    assert (12 * year + m) / 12 == year && (12 * year + m) % 12 == m;
  }

  /** The leap years before `year`, counted by the Gregorian rule. */
  function LeapsBefore(year: int): int {
    (year - 1) / 4 - (year - 1) / 100 + (year - 1) / 400
  }

  lemma LeapsStep(year: int)
    ensures LeapsBefore(year + 1) - LeapsBefore(year) == if IsLeap(year) then 1 else 0
  {
    Multiples(year, 4);
    Multiples(year, 100);
    Multiples(year, 400);
    if year % 400 == 0 { MultipleOf(year / 400, 4, 100); }
    if year % 100 == 0 { MultipleOf(year / 100, 25, 4); }
  }

  lemma MultipleOf(k: int, a: int, b: int)
    requires (a == 4 && b == 100) || (a == 25 && b == 4)
    ensures (a * b * k) % b == 0
  {
    assert a * b * k == b * (a * k);
  }

  lemma Multiples(n: int, d: int)
    requires d == 4 || d == 100 || d == 400
    ensures n / d - (n - 1) / d == if n % d == 0 then 1 else 0
  {
  }

  /** The recursive month starts agree with the closed Gregorian day count at every new year. */
  lemma {:induction false} YearStart(year: int)
    ensures MonthStart(12 * year) == 365 * (year - 1970) + LeapsBefore(year) - LeapsBefore(1970)
    decreases if year < 1970 then 1970 - year else year - 1970
  {
    if year > 1970 {
      YearStart(year - 1);
      YearLength(year - 1);
      LeapsStep(year - 1);
    } else if year < 1970 {
      YearStart(year + 1);
      YearLength(year);
      LeapsStep(year);
    }
  }

  /** The months of a year have the lengths of the Gregorian calendar, January first. */
  lemma MonthLengths(year: int, m: int)
    requires 0 <= m < 12
    ensures MonthStart(12 * year + m + 1) - MonthStart(12 * year + m)
            == [31, if IsLeap(year) then 29 else 28, 31, 30, 31, 30, 31, 31, 30, 31, 30, 31][m]
  {
    MonthsOfYear(year, m);
  }

  function MonthUp(day: int, k: int): (m: int)
    requires MonthStart(k) <= day
    ensures MonthStart(m) <= day < MonthStart(m + 1)
    decreases day - MonthStart(k)
  {
    if day < MonthStart(k + 1) then k else MonthUp(day, k + 1)
  }

  function MonthDown(day: int, k: int): (m: int)
    requires day < MonthStart(k)
    ensures MonthStart(m) <= day < MonthStart(m + 1)
    decreases MonthStart(k) - day
  {
    if MonthStart(k - 1) <= day then k - 1 else MonthDown(day, k - 1)
  }

  /** The month a day falls in. */
  function MonthOf(day: int): (m: int)
    ensures MonthStart(m) <= day < MonthStart(m + 1)
  {
    if MonthStart(EPOCH_MONTH) <= day then MonthUp(day, EPOCH_MONTH) else MonthDown(day, EPOCH_MONTH)
  }

  lemma MonthIsUnique(day: int, k: int)
    requires MonthStart(k) <= day < MonthStart(k + 1)
    ensures MonthOf(day) == k
  {
    var m := MonthOf(day);
    if m < k { if m + 1 < k { MonthStartsIncrease(m + 1, k); } }
    if k < m { if k + 1 < m { MonthStartsIncrease(k + 1, m); } }
  }

  /** Go's `Weekday`: Sunday is 0; 1970-01-01 was a Thursday. */
  function Weekday(day: int): int {
    (day + 4) % 7
  }

  /** The days of the week follow each other from that Thursday on, in both directions. */
  lemma WeekdaysFollow(day: int)
    ensures Weekday(0) == 4
    ensures Weekday(day + 1) == if Weekday(day) == 6 then 0 else Weekday(day) + 1
    ensures 0 <= Weekday(day) <= 6
  {
  }
}
