/**
  The calendar screen (app/calendar.tsx): the selected date, month
  navigation, the month grid (blank cells for the weekdays before the first,
  then the days), and the highlight on days that have health entries.

  Dates are local calendar dates with JavaScript's 0-based months. The
  `Date` constructor's normalisation of an out-of-range month or day is
  modelled for the arguments the screen passes (any month, a day >= 0). The
  clock is left out: the first render's date is whatever date is given.
  `toISOString` is modelled through the local offset from UTC in minutes.
 */
module Calendar {
  import opened Common
  import opened Types
  import S = Store

  /** A local calendar date; `month` is 0-based as in `Date.getMonth`. */
  datatype Date = Date(year: int, month: int, day: int)

  predicate IsLeap(y: int) {
    y % 4 == 0 && (y % 100 != 0 || y % 400 == 0)
  }

  /** The Gregorian month lengths. */
  function MonthLength(y: int, m: int): (n: int)
    requires 0 <= m <= 11
    ensures 28 <= n <= 31
    ensures m == 1 ==> (n == 29 <==> IsLeap(y)) && (n == 28 <==> !IsLeap(y))
    ensures m in {0, 2, 4, 6, 7, 9, 11} ==> n == 31
    ensures m in {3, 5, 8, 10} ==> n == 30
  {
    if m == 1 then (if IsLeap(y) then 29 else 28)
    else if m in {3, 5, 8, 10} then 30
    else 31
  }

  predicate Valid(d: Date) {
    0 <= d.month <= 11 && 1 <= d.day <= MonthLength(d.year, d.month)
  }

  /** A month index outside 0..11 moves into the neighbouring years. */
  function NormMonth(y: int, m: int): (r: (int, int))
    ensures 0 <= r.1 <= 11 && 12 * r.0 + r.1 == 12 * y + m
  {
    (y + m / 12, m % 12)
  }

  /** `new Date(y, m, d)` for d >= 0: day 0 is the last day of the previous month and a day past
      the month's end runs into the following months. */
  function Make(y: int, m: int, d: int): (r: Date)
    requires d >= 0
    ensures Valid(r)
    decreases d
  {
    var ym := NormMonth(y, m);
    if d == 0 then
      var prev := NormMonth(ym.0, ym.1 - 1);
      Date(prev.0, prev.1, MonthLength(prev.0, prev.1))
    else if d <= MonthLength(ym.0, ym.1) then Date(ym.0, ym.1, d)
    else Make(ym.0, ym.1 + 1, d - MonthLength(ym.0, ym.1))
  }

  /** A valid date is its own normalisation. */
  lemma MakeValid(x: Date)
    requires Valid(x)
    ensures Make(x.year, x.month, x.day) == x
  {
  }

  // ---------------------------------------------------------------------------
  // Day numbers and weekdays

  /** Days from 0001-01-01 to the first of January of year y (proleptic Gregorian). */
  function DaysBeforeYear(y: int): int {
    365 * (y - 1) + (y - 1) / 4 - (y - 1) / 100 + (y - 1) / 400
  }

  function DaysBeforeMonth(y: int, m: int): int
    requires 0 <= m <= 12
  {
    if m == 0 then 0 else DaysBeforeMonth(y, m - 1) + MonthLength(y, m - 1)
  }

  /** The number of the day, counted from 0001-01-01 as day 0. */
  function DayNumber(d: Date): int
    requires 0 <= d.month <= 11
  {
    DaysBeforeYear(d.year) + DaysBeforeMonth(d.year, d.month) + d.day - 1
  }

  /** `getDay()`: 0 is Sunday; 0001-01-01 was a Monday. */
  function Weekday(d: Date): (w: int)
    requires 0 <= d.month <= 11
    ensures 0 <= w <= 6
  {
    (DayNumber(d) + 1) % 7
  }

  lemma WeekdayExamples()
    ensures Weekday(Date(1970, 0, 1)) == 4
    ensures Weekday(Date(2024, 2, 1)) == 5
    ensures Weekday(Date(2000, 1, 29)) == 2
  {
  }

  /** A year has 365 days, 366 when it is a leap year. */
  lemma YearLength(y: int)
    ensures DaysBeforeYear(y + 1) - DaysBeforeYear(y) == if IsLeap(y) then 366 else 365
    ensures DaysBeforeMonth(y, 12) == if IsLeap(y) then 366 else 365
  {
    DivStep(y - 1, 4);
    DivStep(y - 1, 100);
    DivStep(y - 1, 400);
    MonthsOfYear(y);
  }

  /** Floor division by the calendar's divisors steps up exactly when the dividend reaches a multiple. */
  lemma DivStep(a: int, k: int)
    requires k == 4 || k == 100 || k == 400
    ensures (a + 1) / k == a / k + (if (a + 1) % k == 0 then 1 else 0)
  {
    if k == 4 {
      assert (a + 1) / 4 == a / 4 + (if (a + 1) % 4 == 0 then 1 else 0);
    } else if k == 100 {
      assert (a + 1) / 100 == a / 100 + (if (a + 1) % 100 == 0 then 1 else 0);
    } else {
      assert (a + 1) / 400 == a / 400 + (if (a + 1) % 400 == 0 then 1 else 0);
    }
  }

  lemma MonthsOfYear(y: int)
    ensures DaysBeforeMonth(y, 12) == if IsLeap(y) then 366 else 365
  {
    assert DaysBeforeMonth(y, 1) == 31;
    assert DaysBeforeMonth(y, 3) == DaysBeforeMonth(y, 1) + MonthLength(y, 1) + 31;
    assert DaysBeforeMonth(y, 5) == DaysBeforeMonth(y, 3) + 61;
    assert DaysBeforeMonth(y, 7) == DaysBeforeMonth(y, 5) + 61;
    assert DaysBeforeMonth(y, 9) == DaysBeforeMonth(y, 7) + 61;
    assert DaysBeforeMonth(y, 11) == DaysBeforeMonth(y, 9) + 61;
    assert DaysBeforeMonth(y, 12) == DaysBeforeMonth(y, 11) + 31;
  }

  lemma ModShift(a: int, b: int)
    ensures ((a % 7) + b) % 7 == (a + b) % 7
  {
    assert a == 7 * (a / 7) + a % 7;
  }

  // ---------------------------------------------------------------------------
  // The screen

  /** `getDaysInMonth(date)`: the last day of the month, read as `new Date(y, m + 1, 0)`. */
  function DaysInMonth(sel: Date): (n: int)
    requires Valid(sel)
    ensures n == MonthLength(sel.year, sel.month)
  {
    Make(sel.year, sel.month + 1, 0).day
  }

  /** `getFirstDayOfMonth(date)`: the weekday of `new Date(y, m, 1)`. */
  function FirstDayOfMonth(sel: Date): (w: int)
    requires Valid(sel)
    ensures 0 <= w <= 6
    ensures w == Weekday(sel.(day := 1))
  {
    Weekday(Make(sel.year, sel.month, 1))
  }

  /** The grid: `firstDay` blank cells, then the days 1..daysInMonth. */
  function Grid(sel: Date): (g: seq<Option<int>>)
    requires Valid(sel)
    ensures |g| == FirstDayOfMonth(sel) + DaysInMonth(sel)
    ensures forall i :: 0 <= i < FirstDayOfMonth(sel) ==> g[i].None?
    ensures forall i :: FirstDayOfMonth(sel) <= i < |g| ==> g[i] == Some(i - FirstDayOfMonth(sel) + 1)
  {
    var first := FirstDayOfMonth(sel);
    seq(first, _ => None) + seq(DaysInMonth(sel), k => Some(k + 1))
  }

  /** Each day sits in the column of its weekday (the header runs Sun..Sat). */
  lemma GridColumns(sel: Date, day: int)
    requires Valid(sel) && 1 <= day <= DaysInMonth(sel)
    ensures Grid(sel)[FirstDayOfMonth(sel) + day - 1] == Some(day)
    ensures (FirstDayOfMonth(sel) + day - 1) % 7 == Weekday(Date(sel.year, sel.month, day))
  {
    var n := DayNumber(sel.(day := 1));
    assert FirstDayOfMonth(sel) == (n + 1) % 7;
    assert DayNumber(Date(sel.year, sel.month, day)) == n + day - 1;
    ModShift(n + 1, day - 1);
  }

  /** `handlePrevMonth`: the first of the previous month. */
  function PrevMonth(sel: Date): (r: Date)
    ensures Valid(r) && r.day == 1
    ensures 12 * r.year + r.month == 12 * sel.year + sel.month - 1
  {
    Make(sel.year, sel.month - 1, 1)
  }

  /** `handleNextMonth`: the first of the next month. */
  function NextMonth(sel: Date): (r: Date)
    ensures Valid(r) && r.day == 1
    ensures 12 * r.year + r.month == 12 * sel.year + sel.month + 1
  {
    Make(sel.year, sel.month + 1, 1)
  }

  lemma PrevNextRoundTrip(sel: Date)
    requires Valid(sel)
    ensures NextMonth(PrevMonth(sel)) == sel.(day := 1)
    ensures PrevMonth(NextMonth(sel)) == sel.(day := 1)
  {
  }

  /** The next month's grid starts in the column after this month's last day. */
  lemma NextMonthContinues(sel: Date)
    requires Valid(sel)
    ensures FirstDayOfMonth(NextMonth(sel)) == (FirstDayOfMonth(sel) + DaysInMonth(sel)) % 7
  {
    var next := NextMonth(sel);
    NextMonthIs(sel);
    NextDayNumber(sel, next);
    WeekShift(DayNumber(sel.(day := 1)), DayNumber(next), MonthLength(sel.year, sel.month));
    FirstDayIs(sel);
    FirstDayIs(next);
  }

  /** The first of the next month is a month length after the first of this one. */
  lemma NextDayNumber(sel: Date, next: Date)
    requires Valid(sel)
    requires next == if sel.month == 11 then Date(sel.year + 1, 0, 1) else Date(sel.year, sel.month + 1, 1)
    ensures DayNumber(next) == DayNumber(sel.(day := 1)) + MonthLength(sel.year, sel.month)
  {
    if sel.month == 11 {
      NewYearDayNumber(sel.year);
    } else {
      NewMonthDayNumber(sel.year, sel.month);
    }
  }

  lemma FirstDayIs(sel: Date)
    requires Valid(sel)
    ensures FirstDayOfMonth(sel) == (DayNumber(sel.(day := 1)) + 1) % 7
  {
  }

  /** A day `len` days after day `a` falls `len` weekdays later. */
  lemma WeekShift(a: int, b: int, len: int)
    requires b == a + len
    ensures (b + 1) % 7 == ((a + 1) % 7 + len) % 7
  {
    ModShift(a + 1, len);
  }

  lemma NextMonthIs(sel: Date)
    requires Valid(sel)
    ensures NextMonth(sel) == if sel.month == 11 then Date(sel.year + 1, 0, 1) else Date(sel.year, sel.month + 1, 1)
  {
  }

  lemma NewYearDayNumber(y: int)
    ensures DayNumber(Date(y + 1, 0, 1)) == DayNumber(Date(y, 11, 1)) + MonthLength(y, 11)
  {
    YearLength(y);
    assert DaysBeforeMonth(y, 12) == DaysBeforeMonth(y, 11) + MonthLength(y, 11);
  }

  lemma NewMonthDayNumber(y: int, m: int)
    requires 0 <= m < 11
    ensures DayNumber(Date(y, m + 1, 1)) == DayNumber(Date(y, m, 1)) + MonthLength(y, m)
  {
    assert DaysBeforeMonth(y, m + 1) == DaysBeforeMonth(y, m) + MonthLength(y, m);
  }

  /** `handleDateSelect(day)` for a day of the grid. */
  function SelectDay(sel: Date, day: int): (r: Date)
    requires Valid(sel) && 1 <= day <= DaysInMonth(sel)
    ensures r == sel.(day := day) && Valid(r)
  {
    Make(sel.year, sel.month, day)
  }

  // ---------------------------------------------------------------------------
  // Date keys and the highlight

  /** "YYYY-MM-DD", the key health entries are filed under. */
  function DateString(d: Date): (t: string)
    requires Valid(d) && 0 <= d.year <= 9999
    ensures |t| == 10 && t[4] == '-' && t[7] == '-'
  {
    Pad2(d.year / 100) + Pad2(d.year % 100) + "-" + Pad2(d.month + 1) + "-" + Pad2(d.day)
  }

  /** The four numeric fields of a key sit at fixed positions. */
  lemma DateStringParts(d: Date)
    requires Valid(d) && 0 <= d.year <= 9999
    ensures DateString(d)[0..2] == Pad2(d.year / 100) && DateString(d)[2..4] == Pad2(d.year % 100)
    ensures DateString(d)[5..7] == Pad2(d.month + 1) && DateString(d)[8..10] == Pad2(d.day)
  {
    var a, b, c, e := Pad2(d.year / 100), Pad2(d.year % 100), Pad2(d.month + 1), Pad2(d.day);
    var t := DateString(d);
    assert t == a + b + "-" + c + "-" + e;
    assert t[0..2] == a by { assert forall i :: 0 <= i < 2 ==> t[i] == a[i]; }
    assert t[2..4] == b by { assert forall i :: 0 <= i < 2 ==> t[i + 2] == b[i]; }
    assert t[5..7] == c by { assert forall i :: 0 <= i < 2 ==> t[i + 5] == c[i]; }
    assert t[8..10] == e by { assert forall i :: 0 <= i < 2 ==> t[i + 8] == e[i]; }
  }

  /** Two-digit fields that read back equal are equal. */
  lemma Pad2Injective(m: int, n: int)
    requires 0 <= m <= 99 && 0 <= n <= 99 && Pad2(m) == Pad2(n)
    ensures m == n
  {
    Pad2RoundTrip(m);
    Pad2RoundTrip(n);
  }

  /** Different dates have different keys. */
  lemma DateStringInjective(a: Date, b: Date)
    requires Valid(a) && 0 <= a.year <= 9999 && Valid(b) && 0 <= b.year <= 9999
    requires DateString(a) == DateString(b)
    ensures a == b
  {
    DateStringParts(a);
    DateStringParts(b);
    Pad2Injective(a.year / 100, b.year / 100);
    Pad2Injective(a.year % 100, b.year % 100);
    Pad2Injective(a.month + 1, b.month + 1);
    Pad2Injective(a.day, b.day);
  }

  /** The previous calendar day. */
  function PrevDay(d: Date): (r: Date)
    requires Valid(d)
    ensures Valid(r) && DayNumber(r) == DayNumber(d) - 1
  {
    if d.day > 1 then d.(day := d.day - 1)
    else
      DayZero(d.year, d.month);
      Make(d.year, d.month, 0)
  }

  /** Day 0 of a month is the day before its first. */
  lemma DayZero(y: int, m: int)
    requires 0 <= m <= 11
    ensures DayNumber(Make(y, m, 0)) == DayNumber(Date(y, m, 1)) - 1
  {
    if m == 0 {
      YearLength(y - 1);
      assert Make(y, m, 0) == Date(y - 1, 11, 31);
    } else {
      assert Make(y, m, 0) == Date(y, m - 1, MonthLength(y, m - 1));
    }
  }

  /** `new Date(y, m, day).toISOString().split('T')[0]` as written: the UTC date of local
      midnight, which east of UTC (a positive offset) is the previous day. */
  function CellKeyAsWritten(sel: Date, day: int, utcOffset: int): (t: string)
    requires Valid(sel) && 1 <= sel.year <= 9999 && 1 <= day <= DaysInMonth(sel)
    requires -1440 < utcOffset < 1440
  {
    var local := Date(sel.year, sel.month, day);
    if utcOffset > 0 then DateString(PrevDay(local)) else DateString(local)
  }

  /** The highlight as written: the cell's key has entries. */
  predicate HighlightedAsWritten(s: S.Store, sel: Date, day: int, utcOffset: int)
    requires Valid(sel) && 1 <= sel.year <= 9999 && 1 <= day <= DaysInMonth(sel)
    requires -1440 < utcOffset < 1440
  {
    |S.EntriesByDate(s, CellKeyAsWritten(sel, day, utcOffset))| > 0
  }

  /** One hour east of UTC, an entry filed under 2024-03-15 lights up the cell of the 16th and
      not the cell of the 15th. */
  lemma CellKeyShiftedEastOfUtc(s: S.Store, e: HealthEntry)
    requires e.date == "2024-03-15" && s.healthEntries == [e]
    ensures CellKeyAsWritten(Date(2024, 2, 1), 15, 60) == "2024-03-14"
    ensures !HighlightedAsWritten(s, Date(2024, 2, 1), 15, 60)
    ensures HighlightedAsWritten(s, Date(2024, 2, 1), 16, 60)
  {
    assert CellKeyAsWritten(Date(2024, 2, 1), 16, 60) == "2024-03-15";
    assert e in S.EntriesByDate(s, "2024-03-15");
    assert "2024-03-14" != "2024-03-15" by {
      assert "2024-03-14"[9] != "2024-03-15"[9];
    }
  }

  /** The intended key of a cell: the local date it shows. */
  function CellKey(sel: Date, day: int): (t: string)
    requires Valid(sel) && 0 <= sel.year <= 9999 && 1 <= day <= DaysInMonth(sel)
  {
    DateString(Date(sel.year, sel.month, day))
  }

  /** How a cell is drawn: the selected day, a day with entries, or a plain day. */
  datatype Look = Selected | WithEntries | Plain

  /** The cell's look, with the intended key. */
  function CellLook(s: S.Store, sel: Date, day: int): (r: Look)
    requires Valid(sel) && 0 <= sel.year <= 9999 && 1 <= day <= DaysInMonth(sel)
    ensures r == Selected <==> day == sel.day
    ensures r == WithEntries <==>
      day != sel.day && exists e :: e in s.healthEntries && e.date == CellKey(sel, day)
  {
    var entries := S.EntriesByDate(s, CellKey(sel, day));
    if day == sel.day then Selected
    else if |entries| > 0 then
      assert entries[0] in entries;
      WithEntries
    else Plain
  }

  /** With the intended key, entries filed under other days never light a cell up. */
  lemma CellShowsOwnDay(s: S.Store, sel: Date, day: int, other: Date)
    requires Valid(sel) && 0 <= sel.year <= 9999 && 1 <= day <= DaysInMonth(sel) && day != sel.day
    requires Valid(other) && 0 <= other.year <= 9999 && other != Date(sel.year, sel.month, day)
    requires forall e :: e in s.healthEntries ==> e.date == DateString(other)
    ensures CellLook(s, sel, day) == Plain
  {
    if CellLook(s, sel, day) == WithEntries {
      var e :| e in s.healthEntries && e.date == CellKey(sel, day);
      DateStringInjective(other, Date(sel.year, sel.month, day));
    }
  }

  /** The input that shows the shifted key, with the intended key: the 15th lights up, the 16th not. */
  lemma CellKeyExample(s: S.Store, e: HealthEntry)
    requires e.date == "2024-03-15" && s.healthEntries == [e]
    ensures CellLook(s, Date(2024, 2, 1), 15) == WithEntries
    ensures CellLook(s, Date(2024, 2, 1), 16) == Plain
  {
    assert CellKey(Date(2024, 2, 1), 15) == "2024-03-15";
    CellShowsOwnDay(s, Date(2024, 2, 1), 16, Date(2024, 2, 15));
  }

  /** `selectedEntries`: the entries listed under the grid, with the intended key. */
  function SelectedEntries(s: S.Store, sel: Date): (r: seq<HealthEntry>)
    requires Valid(sel) && 0 <= sel.year <= 9999
    ensures forall e :: e in r <==> e in s.healthEntries && e.date == DateString(sel)
  {
    S.EntriesByDate(s, DateString(sel))
  }
}
