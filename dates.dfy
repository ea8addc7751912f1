/** Calendar dates as the application handles them: the `date` field of a
    record (a "YYYY-MM-DD" string, which may not name a real day) and the
    JavaScript `Date` objects the page controllers build from a year, a
    month index and a day number. Times of day and time zones are not
    modelled: every date is a whole day. */
module Dates {

  /** A calendar date; `month` runs 1..12 as in "YYYY-MM-DD" strings, so
      JavaScript's `getMonth()` of such a date is `month - 1`. */
  datatype Date = Date(year: int, month: int, day: int)

  /** A month as the dashboards label their buckets ("out. de 2024"); an
      invalid `Date` is labelled "Invalid Date", which names no month. */
  datatype MonthKey = Month(year: int, month: int) | InvalidDate

  predicate IsLeapYear(y: int) {
    y % 4 == 0 && (y % 100 != 0 || y % 400 == 0)
  }

  function DaysInMonth(y: int, m: int): int {
    if m == 2 then (if IsLeapYear(y) then 29 else 28)
    else if m == 4 || m == 6 || m == 9 || m == 11 then 30
    else 31
  }

  /** A date string that `new Date(...)` accepts; any other value gives an
      invalid `Date` whose comparisons are all false. */
  predicate Valid(d: Date) {
    1 <= d.month <= 12 && 1 <= d.day <= DaysInMonth(d.year, d.month)
  }

  function YearLength(y: int): int {
    if IsLeapYear(y) then 366 else 365
  }

  /** Days of the proleptic Gregorian calendar before January 1 of year `y`
      (counted from year 1). */
  function DaysBeforeYear(y: int): int {
    365 * (y - 1) + (y - 1) / 4 - (y - 1) / 100 + (y - 1) / 400
  }

  /** Days of year `y` before the first of month `m`; 13 gives the whole year. */
  function DaysBeforeMonth(y: int, m: int): int {
    var common :=
      if m <= 1 then 0 else if m == 2 then 31 else if m == 3 then 59
      else if m == 4 then 90 else if m == 5 then 120 else if m == 6 then 151
      else if m == 7 then 181 else if m == 8 then 212 else if m == 9 then 243
      else if m == 10 then 273 else if m == 11 then 304 else if m == 12 then 334
      else 365;
    common + (if m > 2 && IsLeapYear(y) then 1 else 0)
  }

  /** The day number of a date: what a JavaScript timestamp is, divided by
      the length of a day. */
  function Ordinal(d: Date): int {
    DaysBeforeYear(d.year) + DaysBeforeMonth(d.year, d.month) + d.day
  }

  /** Chronological order of dates, field by field. */
  predicate Precedes(a: Date, b: Date) {
    a.year < b.year
    || (a.year == b.year && a.month < b.month)
    || (a.year == b.year && a.month == b.month && a.day < b.day)
  }

  /** `a <= b` on two `Date` values; false whenever either is invalid, as
      every comparison with an invalid JavaScript `Date` is. */
  predicate NotAfter(a: Date, b: Date) {
    Valid(a) && Valid(b) && !Precedes(b, a)
  }

  /** `d.toLocaleDateString('pt-BR', { month: 'short', year: 'numeric' })`. */
  function MonthOf(d: Date): MonthKey {
    if Valid(d) then Month(d.year, d.month) else InvalidDate
  }

  /** Months counted from January of year 0: consecutive months differ by one. */
  function MonthIndex(k: MonthKey): int {
    if k.Month? then 12 * k.year + k.month - 1 else 0
  }

  /** The month of `new Date(y, m0, day)` for any day inside that month's
      first day: month-index overflow moves whole years. */
  lemma JsMonthOf(y: int, m0: int)
    ensures MonthOf(JsDate(y, m0, 1)) == Month(y + m0 / 12, m0 % 12 + 1)
    ensures MonthIndex(MonthOf(JsDate(y, m0, 1))) == 12 * y + m0
  {
    JsMonthBounds(y, m0);
  }

  lemma YearStep(y: int)
    ensures DaysBeforeYear(y + 1) == DaysBeforeYear(y) + YearLength(y)
  {
    // Each of the three floor terms steps by one exactly when y is a multiple.
    FloorStep(y, 4);
    FloorStep(y, 100);
    FloorStep(y, 400);
  }

  /** Floor division by `k` steps by one from `y - 1` to `y` exactly when
      `k` divides `y`. */
  lemma FloorStep(y: int, k: int)
    requires k > 0
    ensures y / k - (y - 1) / k == if y % k == 0 then 1 else 0
  {
    var q, r := y / k, y % k;
    if r == 0 {
      DivUnique(y - 1, k, q - 1, k - 1);
    } else {
      DivUnique(y - 1, k, q, r - 1);
    }
  }

  /** The quotient and remainder of a Euclidean division are unique. */
  lemma DivUnique(a: int, k: int, q: int, r: int)
    requires k > 0 && a == q * k + r && 0 <= r < k
    ensures a / k == q
  {
    var d := a / k - q;
    assert d * k == r - a % k;
    assert d >= 1 ==> d * k >= k;
    assert d <= -1 ==> d * k <= -k;
  }

  lemma {:induction false} YearsAhead(y1: int, y2: int)
    requires y1 < y2
    ensures DaysBeforeYear(y1) + YearLength(y1) <= DaysBeforeYear(y2)
    decreases y2 - y1
  {
    YearStep(y1);
    if y1 + 1 < y2 {
      YearsAhead(y1 + 1, y2);
    }
  }

  lemma MonthStep(y: int, m: int)
    requires 1 <= m <= 12
    ensures DaysBeforeMonth(y, m + 1) == DaysBeforeMonth(y, m) + DaysInMonth(y, m)
    ensures DaysBeforeMonth(y, 13) == YearLength(y)
  {
  }

  lemma {:induction false} MonthsAhead(y: int, m1: int, m2: int)
    requires 1 <= m1 < m2 <= 13
    ensures DaysBeforeMonth(y, m1) + DaysInMonth(y, m1) <= DaysBeforeMonth(y, m2)
    decreases m2 - m1
  {
    MonthStep(y, m1);
    if m1 + 1 < m2 {
      MonthsAhead(y, m1 + 1, m2);
    }
  }

  /** Field order and day-number order agree on valid dates. */
  lemma PrecedesIffOrdinal(a: Date, b: Date)
    requires Valid(a) && Valid(b)
    ensures Precedes(a, b) <==> Ordinal(a) < Ordinal(b)
    ensures a == b <==> Ordinal(a) == Ordinal(b)
  {
    MonthsAhead(a.year, a.month, 13);
    MonthsAhead(b.year, b.month, 13);
    if a.year < b.year {
      YearsAhead(a.year, b.year);
    } else if b.year < a.year {
      YearsAhead(b.year, a.year);
    } else if a.month < b.month {
      MonthsAhead(a.year, a.month, b.month);
    } else if b.month < a.month {
      MonthsAhead(a.year, b.month, a.month);
    }
  }

  /** `d.setDate(d.getDate() + 1)`. */
  function NextDay(d: Date): (r: Date)
    requires Valid(d)
    ensures Valid(r) && Ordinal(r) == Ordinal(d) + 1
  {
    MonthStep(d.year, d.month);
    YearStep(d.year);
    if d.day < DaysInMonth(d.year, d.month) then Date(d.year, d.month, d.day + 1)
    else if d.month < 12 then Date(d.year, d.month + 1, 1)
    else Date(d.year + 1, 1, 1)
  }

  /** The day before `d`: where day 0 of a month lands. */
  function PrevDay(d: Date): (r: Date)
    requires Valid(d)
    ensures Valid(r) && Ordinal(r) == Ordinal(d) - 1
  {
    if d.day > 1 then Date(d.year, d.month, d.day - 1)
    else if d.month > 1 then
      MonthStep(d.year, d.month - 1);
      Date(d.year, d.month - 1, DaysInMonth(d.year, d.month - 1))
    else
      YearStep(d.year - 1);
      MonthStep(d.year - 1, 12);
      Date(d.year - 1, 12, 31)
  }

  /** `n` days after `d` (before it when `n` is negative). */
  function AddDays(d: Date, n: int): (r: Date)
    requires Valid(d)
    ensures Valid(r) && Ordinal(r) == Ordinal(d) + n
    decreases if n < 0 then -n else n
  {
    if n == 0 then d
    else if n > 0 then AddDays(NextDay(d), n - 1)
    else AddDays(PrevDay(d), n + 1)
  }

  /** `new Date(y, m0, day)`: a month index outside 0..11 moves into another
      year (`Math.floor` division by 12), and a day outside the month moves
      into a neighbouring month, so day 0 is the last day of the month before. */
  function JsDate(y: int, m0: int, day: int): (r: Date)
    ensures Valid(r)
  {
    AddDays(Date(y + m0 / 12, m0 % 12 + 1, 1), day - 1)
  }

  /** Moving forward inside a month only changes the day: the date that
      far ahead has that ordinal, and ordinals name valid dates uniquely. */
  lemma AddDaysInMonth(d: Date, k: int)
    requires Valid(d) && 0 <= k && d.day + k <= DaysInMonth(d.year, d.month)
    ensures AddDays(d, k) == Date(d.year, d.month, d.day + k)
  {
    var e := Date(d.year, d.month, d.day + k);
    assert Valid(e) && Ordinal(e) == Ordinal(d) + k;
    PrecedesIffOrdinal(AddDays(d, k), e);
  }

  /** The first and the last day of a month, as the period selectors build them. */
  lemma JsMonthBounds(y: int, m0: int)
    ensures JsDate(y, m0, 1) == Date(y + m0 / 12, m0 % 12 + 1, 1)
    ensures JsDate(y, m0 + 1, 0)
         == Date(y + m0 / 12, m0 % 12 + 1, DaysInMonth(y + m0 / 12, m0 % 12 + 1))
  {
    var q, r := m0 / 12, m0 % 12;
    assert m0 == 12 * q + r && 0 <= r < 12;
    if r == 11 {
      assert (m0 + 1) / 12 == q + 1 && (m0 + 1) % 12 == 0;
    } else {
      assert (m0 + 1) / 12 == q && (m0 + 1) % 12 == r + 1;
    }
    var first := Date(y + (m0 + 1) / 12, (m0 + 1) % 12 + 1, 1);
    assert JsDate(y, m0 + 1, 0) == PrevDay(first) by {
      assert AddDays(PrevDay(first), 0) == PrevDay(first);
    }
  }

  /** A month index inside the year needs no carry. */
  lemma JsMonthInYear(y: int, m0: int)
    requires 0 <= m0 < 12
    ensures JsDate(y, m0, 1) == Date(y, m0 + 1, 1)
    ensures JsDate(y, m0 + 1, 0) == Date(y, m0 + 1, DaysInMonth(y, m0 + 1))
  {
    assert m0 / 12 == 0 && m0 % 12 == m0;
    assert y + m0 / 12 == y && m0 % 12 + 1 == m0 + 1;
    JsMonthBounds(y, m0);
  }

  /** `new Date(y, 11, 31)`. */
  lemma JsLastDayOfYear(y: int)
    ensures JsDate(y, 11, 31) == Date(y, 12, 31)
  {
    AddDaysInMonth(Date(y, 12, 1), 30);
  }

  /** The days from `cur` to `end`, both included, in ascending order: the
      keys a `while (current <= end)` loop visits. */
  function DaysFrom(cur: Date, end: Date): (r: seq<Date>)
    requires Valid(cur) && Valid(end)
    ensures |r| == if Precedes(end, cur) then 0 else Ordinal(end) - Ordinal(cur) + 1
    ensures forall i :: 0 <= i < |r| ==> Valid(r[i]) && Ordinal(r[i]) == Ordinal(cur) + i
    decreases Ordinal(end) - Ordinal(cur)
  {
    PrecedesIffOrdinal(end, cur);
    if Precedes(end, cur) then [] else [cur] + DaysFrom(NextDay(cur), end)
  }

  /** The enumerated days are exactly the valid days of `[cur, end]`, and
      they are in strictly ascending order. */
  lemma DaysFromExactly(cur: Date, end: Date)
    requires Valid(cur) && Valid(end)
    ensures forall d :: d in DaysFrom(cur, end) <==> NotAfter(cur, d) && NotAfter(d, end)
    ensures forall i, j :: 0 <= i < j < |DaysFrom(cur, end)| ==>
              Precedes(DaysFrom(cur, end)[i], DaysFrom(cur, end)[j])
  {
    var r := DaysFrom(cur, end);
    forall d ensures d in r <==> NotAfter(cur, d) && NotAfter(d, end) {
      if d in r {
        var i :| 0 <= i < |r| && r[i] == d;
        PrecedesIffOrdinal(d, cur);
        PrecedesIffOrdinal(end, d);
      }
      if NotAfter(cur, d) && NotAfter(d, end) {
        PrecedesIffOrdinal(d, cur);
        PrecedesIffOrdinal(end, d);
        PrecedesIffOrdinal(end, cur);
        var i := Ordinal(d) - Ordinal(cur);
        PrecedesIffOrdinal(r[i], d);
      }
    }
    forall i, j | 0 <= i < j < |r| ensures Precedes(r[i], r[j]) {
      PrecedesIffOrdinal(r[i], r[j]);
    }
  }
}
