/**
 The billing calendar: Gregorian days and months. A `YYYY-MM-DD` string with a
 four-digit year compares as its (year, month, day) triple does, so days are
 triples in lexicographic order; day numbers count days along that order.
 */
module Calendar {

  datatype Month = Month(y: int, m: int) {
    predicate Valid() { 1 <= m <= 12 }
    function Index(): int { 12 * y + m - 1 }
  }

  datatype Day = Day(y: int, m: int, d: int) {
    function InMonth(): Month { Month(y, m) }
    predicate Valid() { 1 <= m <= 12 && 1 <= d <= DaysInMonth(Month(y, m)) }
  }

  type Date = d: Day | d.Valid() witness Day(2000, 1, 1)
  type CalendarMonth = m: Month | m.Valid() witness Month(2000, 1)

  predicate Le(a: Day, b: Day) {
    a.y < b.y || (a.y == b.y && (a.m < b.m || (a.m == b.m && a.d <= b.d)))
  }

  predicate Lt(a: Day, b: Day) { Le(a, b) && a != b }

  predicate LeapYear(y: int) { (y % 4 == 0 && y % 100 != 0) || y % 400 == 0 }

  function DaysInMonth(mo: Month): (n: int)
    requires mo.Valid()
    ensures 28 <= n <= 31
  {
    if mo.m == 2 then (if LeapYear(mo.y) then 29 else 28)
    else if mo.m in {4, 6, 9, 11} then 30
    else 31
  }

  /** Long and short months alternate, and start over with a long one in August; February is its own case. */
  lemma MonthLengths(mo: CalendarMonth)
    ensures mo.m != 2 ==> DaysInMonth(mo) == 30 + (mo.m + mo.m / 8) % 2
    ensures mo.m == 2 ==> DaysInMonth(mo) == 28 + if mo.y % 400 == 0 || (mo.y % 4 == 0 && mo.y % 100 != 0) then 1 else 0
  {
  }

  function DaysInYear(y: int): int { if LeapYear(y) then 366 else 365 }

  /** `n` months on, normalised the way `Date.UTC` normalises an out-of-range month. */
  function AddMonths(mo: CalendarMonth, n: int): (r: CalendarMonth)
    ensures r.Index() == mo.Index() + n
  {
    var total := mo.Index() + n;
    Month(total / 12, total % 12 + 1)
  }

  function FirstOf(mo: CalendarMonth): Date { Day(mo.y, mo.m, 1) }
  function LastOf(mo: CalendarMonth): Date { Day(mo.y, mo.m, DaysInMonth(mo)) }

  /** The anchor day-of-month inside `mo`, clamped to the month's length. */
  function AnchorDayInMonth(mo: CalendarMonth, dayOfMonth: int): (r: Date)
    requires 1 <= dayOfMonth
    ensures r.InMonth() == mo && r.d <= dayOfMonth
    ensures r.d == dayOfMonth || (dayOfMonth > DaysInMonth(mo) && r == LastOf(mo))
  {
    Day(mo.y, mo.m, if dayOfMonth <= DaysInMonth(mo) then dayOfMonth else DaysInMonth(mo))
  }

  /** The day after. `Date.UTC` carries the day into the month and the month into the year. */
  function NextDay(x: Date): (r: Date)
    ensures Lt(x, r)
  {
    if x.d < DaysInMonth(x.InMonth()) then Day(x.y, x.m, x.d + 1)
    else if x.m < 12 then Day(x.y, x.m + 1, 1)
    else Day(x.y + 1, 1, 1)
  }

  function AddDays(x: Date, n: nat): Date
    decreases n
  {
    if n == 0 then x else AddDays(NextDay(x), n - 1)
  }

  // Day numbers

  function YearStart(y: int): int {
    365 * y + (y - 1) / 4 - (y - 1) / 100 + (y - 1) / 400
  }

  function MonthStart(mo: CalendarMonth): int
    decreases mo.m
  {
    if mo.m == 1 then YearStart(mo.y)
    else MonthStart(Month(mo.y, mo.m - 1)) + DaysInMonth(Month(mo.y, mo.m - 1))
  }

  function DayNumber(x: Date): int { MonthStart(x.InMonth()) + x.d }

  lemma QuotientStep4(y: int)
    ensures y / 4 == (y - 1) / 4 + (if y % 4 == 0 then 1 else 0)
  {
  }

  lemma QuotientStep100(y: int)
    ensures y / 100 == (y - 1) / 100 + (if y % 100 == 0 then 1 else 0)
  {
  }

  lemma QuotientStep400(y: int)
    ensures y / 400 == (y - 1) / 400 + (if y % 400 == 0 then 1 else 0)
  {
  }

  lemma MultipleOf100(k: int)
    ensures (100 * k) % 100 == 0
  {
  }

  lemma MultipleOf4(k: int)
    ensures (4 * k) % 4 == 0
  {
  }

  lemma LeapNesting(y: int)
    ensures y % 400 == 0 ==> y % 100 == 0
    ensures y % 100 == 0 ==> y % 4 == 0
  {
    if y % 400 == 0 {
      MultipleOf100(4 * (y / 400));
      assert y == 100 * (4 * (y / 400));
    }
    if y % 100 == 0 {
      MultipleOf4(25 * (y / 100));
      assert y == 4 * (25 * (y / 100));
    }
  }

  lemma YearLength(y: int)
    ensures YearStart(y + 1) == YearStart(y) + DaysInYear(y)
  {
    QuotientStep4(y);
    QuotientStep100(y);
    QuotientStep400(y);
    LeapNesting(y);
  }

  lemma {:induction false} MonthStartsInYear(y: int)
    ensures MonthStart(Month(y, 2)) == YearStart(y) + 31
    ensures MonthStart(Month(y, 12)) == YearStart(y) + DaysInYear(y) - 31
  {
    var feb := if LeapYear(y) then 29 else 28;
    assert MonthStart(Month(y, 1)) == YearStart(y);
    assert MonthStart(Month(y, 2)) == YearStart(y) + 31;
    assert MonthStart(Month(y, 3)) == YearStart(y) + 31 + feb;
    assert MonthStart(Month(y, 4)) == YearStart(y) + 62 + feb;
    assert MonthStart(Month(y, 5)) == YearStart(y) + 92 + feb;
    assert MonthStart(Month(y, 6)) == YearStart(y) + 123 + feb;
    assert MonthStart(Month(y, 7)) == YearStart(y) + 153 + feb;
    assert MonthStart(Month(y, 8)) == YearStart(y) + 184 + feb;
    assert MonthStart(Month(y, 9)) == YearStart(y) + 215 + feb;
    assert MonthStart(Month(y, 10)) == YearStart(y) + 245 + feb;
    assert MonthStart(Month(y, 11)) == YearStart(y) + 276 + feb;
    assert MonthStart(Month(y, 12)) == YearStart(y) + 306 + feb;
  }

  lemma AddMonthsOne(mo: CalendarMonth)
    ensures AddMonths(mo, 1) == if mo.m == 12 then Month(mo.y + 1, 1) else Month(mo.y, mo.m + 1)
  {
    var r := AddMonths(mo, 1);
    assert r.Index() == mo.Index() + 1;
  }

  /** The next month starts where this one ends, across a year end too. */
  lemma MonthStartStep(mo: CalendarMonth)
    ensures AddMonths(mo, 1) == if mo.m == 12 then Month(mo.y + 1, 1) else Month(mo.y, mo.m + 1)
    ensures MonthStart(AddMonths(mo, 1)) == MonthStart(mo) + DaysInMonth(mo)
  {
    AddMonthsOne(mo);
    if mo.m == 12 {
      MonthStartsInYear(mo.y);
      YearLength(mo.y);
    }
  }

  lemma {:induction false} MonthStartMonotone(a: CalendarMonth, b: CalendarMonth)
    requires a.Index() < b.Index()
    ensures MonthStart(a) + DaysInMonth(a) <= MonthStart(b)
    decreases b.Index() - a.Index()
  {
    MonthStartStep(a);
    var next := AddMonths(a, 1);
    if next.Index() < b.Index() {
      MonthStartMonotone(next, b);
    } else {
      assert next == b;
    }
  }

  /** Day numbers follow the calendar order, in both directions. */
  lemma DayNumberOrder(a: Date, b: Date)
    ensures Le(a, b) <==> DayNumber(a) <= DayNumber(b)
  {
    if a.InMonth().Index() < b.InMonth().Index() {
      MonthStartMonotone(a.InMonth(), b.InMonth());
    } else if b.InMonth().Index() < a.InMonth().Index() {
      MonthStartMonotone(b.InMonth(), a.InMonth());
    } else {
      assert a.InMonth() == b.InMonth();
    }
  }

  lemma NextDayNumber(x: Date)
    ensures DayNumber(NextDay(x)) == DayNumber(x) + 1
  {
    MonthStartStep(x.InMonth());
  }

  lemma {:induction false} AddDaysNumber(x: Date, n: nat)
    ensures DayNumber(AddDays(x, n)) == DayNumber(x) + n
    decreases n
  {
    if n > 0 {
      NextDayNumber(x);
      AddDaysNumber(NextDay(x), n - 1);
    }
  }

  /** There is no day strictly between a day and the next. */
  lemma NextDayAdjacent(x: Date, a: Date)
    ensures Le(a, x) || Le(NextDay(x), a)
    ensures !(Le(a, x) && Le(NextDay(x), a))
  {
    DayNumberOrder(a, x);
    DayNumberOrder(NextDay(x), a);
    NextDayNumber(x);
  }

  ghost predicate Increasing(s: seq<Date>) {
    forall i, j :: 0 <= i < j < |s| ==> Lt(s[i], s[j])
  }

  /** A strictly increasing sequence is determined by which days it contains. */
  lemma {:induction false} IncreasingUnique(s: seq<Date>, t: seq<Date>)
    requires Increasing(s) && Increasing(t)
    requires forall x: Date :: x in s <==> x in t
    ensures s == t
  {
    assert s != [] ==> s[0] in t;
    assert t != [] ==> t[0] in s;
    if s == [] {
      assert t == [];
    } else {
      assert Le(t[0], s[0]) && Le(s[0], t[0]);
      assert s[0] == t[0];
      forall x: Date ensures x in s[1..] <==> x in t[1..] {
        assert x in s[1..] <==> x in s && x != s[0];
        assert x in t[1..] <==> x in t && x != t[0];
      }
      IncreasingUnique(s[1..], t[1..]);
    }
  }
}
