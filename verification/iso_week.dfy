/**
 ISO 8601 week dating (ISO 8601:2004 section 4.1.4) as the history summariser
 computes it: move a date to the Thursday of its Monday-to-Sunday week, take
 that Thursday's year, and count weeks from the week holding 4 January.

 Dates are civil dates of the proleptic Gregorian calendar in the athlete's
 local time; the day arithmetic that the source performs with `setDate` and
 millisecond differences is done here on day numbers.
 */
module IsoWeek {
  import opened Common
  import opened Text

  datatype Date = Date(year: int, month: int, day: int)

  predicate IsLeap(y: int) {
    y % 4 == 0 && (y % 100 != 0 || y % 400 == 0)
  }

  function LeapDay(y: int): int {
    if IsLeap(y) then 1 else 0
  }

  function DaysInMonth(y: int, m: int): int
    requires 1 <= m <= 12
  {
    if m == 2 then 28 + LeapDay(y)
    else if m == 4 || m == 6 || m == 9 || m == 11 then 30
    else 31
  }

  predicate Valid(d: Date) {
    1 <= d.month <= 12 && 1 <= d.day <= DaysInMonth(d.year, d.month)
  }

  type ValidDate = d: Date | Valid(d) witness Date(2000, 1, 1)

  /** Days from 1 January of year 1 to 1 January of year `y` (negative before). */
  function DaysBeforeYear(y: int): int {
    365 * (y - 1) + (y - 1) / 4 - (y - 1) / 100 + (y - 1) / 400
  }

  /** Days from 1 January to the first day of month `m`. */
  function DaysBeforeMonth(y: int, m: int): int
    requires 1 <= m <= 12
  {
    var l := LeapDay(y);
    if m == 1 then 0
    else if m == 2 then 31
    else if m == 3 then 59 + l
    else if m == 4 then 90 + l
    else if m == 5 then 120 + l
    else if m == 6 then 151 + l
    else if m == 7 then 181 + l
    else if m == 8 then 212 + l
    else if m == 9 then 243 + l
    else if m == 10 then 273 + l
    else if m == 11 then 304 + l
    else 334 + l
  }

  /** Consecutive days have consecutive numbers; 1 January of year 1 is day 0. */
  function DayNumber(d: Date): int
    requires Valid(d)
  {
    DaysBeforeYear(d.year) + DaysBeforeMonth(d.year, d.month) + d.day - 1
  }

  /** `getDay()`: 0 for Sunday to 6 for Saturday; day 0 was a Monday. */
  function Weekday(d: Date): (w: int)
    requires Valid(d)
    ensures 0 <= w < 7
  {
    (DayNumber(d) + 1) % 7
  }

  /** `(getDay() + 6) % 7`: days since the Monday that starts the week. */
  function DaysSinceMonday(d: Date): (w: int)
    requires Valid(d)
    ensures 0 <= w < 7
    ensures w == DayNumber(d) % 7
  {
    WeekShift(DayNumber(d));
    (Weekday(d) + 6) % 7
  }

  lemma WeekShift(x: int)
    ensures ((x + 1) % 7 + 6) % 7 == x % 7
  {
  }

  function NextDay(d: Date): (r: Date)
    requires Valid(d)
    ensures Valid(r)
  {
    if d.day < DaysInMonth(d.year, d.month) then Date(d.year, d.month, d.day + 1)
    else if d.month < 12 then Date(d.year, d.month + 1, 1)
    else Date(d.year + 1, 1, 1)
  }

  function PrevDay(d: Date): (r: Date)
    requires Valid(d)
    ensures Valid(r)
  {
    if d.day > 1 then Date(d.year, d.month, d.day - 1)
    else if d.month > 1 then Date(d.year, d.month - 1, DaysInMonth(d.year, d.month - 1))
    else Date(d.year - 1, 12, 31)
  }

  /** `setDate(getDate() + k)`: calendar arithmetic that rolls over months and years. */
  function AddDays(d: Date, k: int): (r: Date)
    requires Valid(d)
    ensures Valid(r)
    decreases if k < 0 then -k else k
  {
    if k == 0 then d
    else if k > 0 then AddDays(NextDay(d), k - 1)
    else AddDays(PrevDay(d), k + 1)
  }

  // ------------------------------------------------------------------
  // Day numbers
  // ------------------------------------------------------------------

  lemma StepDiv4(a: int)
    ensures (a + 1) / 4 == a / 4 + (if (a + 1) % 4 == 0 then 1 else 0)
  {
  }

  lemma StepDiv100(a: int)
    ensures (a + 1) / 100 == a / 100 + (if (a + 1) % 100 == 0 then 1 else 0)
  {
  }

  lemma StepDiv400(a: int)
    ensures (a + 1) / 400 == a / 400 + (if (a + 1) % 400 == 0 then 1 else 0)
  {
  }

  /** Whether a year is a leap year, read off the century and quad-century counts. */
  lemma LeapCounts(y: int)
    ensures LeapDay(y) == (y / 4 - (y - 1) / 4) - (y / 100 - (y - 1) / 100) + (y / 400 - (y - 1) / 400)
  {
    StepDiv4(y - 1);
    StepDiv100(y - 1);
    StepDiv400(y - 1);
    assert y % 400 == 0 ==> y % 100 == 0;
    assert y % 100 == 0 ==> y % 4 == 0;
  }

  /** A year has 365 days plus its leap day. */
  lemma YearLength(y: int)
    ensures DaysBeforeYear(y + 1) == DaysBeforeYear(y) + 365 + LeapDay(y)
  {
    LeapCounts(y);
  }

  lemma MonthLength(y: int, m: int)
    requires 1 <= m < 12
    ensures DaysBeforeMonth(y, m + 1) == DaysBeforeMonth(y, m) + DaysInMonth(y, m)
  {
  }

  lemma NextDayNumber(d: Date)
    requires Valid(d)
    ensures DayNumber(NextDay(d)) == DayNumber(d) + 1
  {
    if d.day < DaysInMonth(d.year, d.month) {
    } else if d.month < 12 {
      MonthLength(d.year, d.month);
    } else {
      YearLength(d.year);
    }
  }

  lemma PrevDayNumber(d: Date)
    requires Valid(d)
    ensures DayNumber(PrevDay(d)) == DayNumber(d) - 1
  {
    if d.day > 1 {
    } else if d.month > 1 {
      MonthLength(d.year, d.month - 1);
    } else {
      YearLength(d.year - 1);
    }
  }

  lemma {:induction false} AddDaysNumber(d: Date, k: int)
    requires Valid(d)
    ensures DayNumber(AddDays(d, k)) == DayNumber(d) + k
    decreases if k < 0 then -k else k
  {
    if k > 0 {
      NextDayNumber(d);
      AddDaysNumber(NextDay(d), k - 1);
    } else if k < 0 {
      PrevDayNumber(d);
      AddDaysNumber(PrevDay(d), k + 1);
    }
  }

  /** A date lies between 1 January and 31 December of its year. */
  lemma DayNumberInYear(d: Date)
    requires Valid(d)
    ensures DaysBeforeYear(d.year) <= DayNumber(d) < DaysBeforeYear(d.year) + 365 + LeapDay(d.year)
  {
  }

  /** Within January, moving by `k` days changes only the day of the month. */
  lemma {:induction false} AddDaysInJanuary(y: int, n: int, k: int)
    requires 1 <= n <= 31 && 1 <= n + k <= 31
    ensures AddDays(Date(y, 1, n), k) == Date(y, 1, n + k)
    decreases if k < 0 then -k else k
  {
    if k > 0 {
      AddDaysInJanuary(y, n + 1, k - 1);
    } else if k < 0 {
      AddDaysInJanuary(y, n - 1, k + 1);
    }
  }

  // ------------------------------------------------------------------
  // getISOWeek
  // ------------------------------------------------------------------

  /** The Thursday of the Monday-to-Sunday week holding `d`. */
  function Thursday(d: Date): (t: Date)
    requires Valid(d)
    ensures Valid(t)
  {
    AddDays(d, 3 - DaysSinceMonday(d))
  }

  /**
   The week-numbering year and week of `d`: the Thursday's year, and one more
   than the rounded number of weeks between that Thursday and the Thursday of
   the week holding 4 January.
   */
  function WeekOfYear(d: Date): (yw: (int, int))
    requires Valid(d)
  {
    var t := Thursday(d);
    var week1 := Date(t.year, 1, 4);
    var diffDays := DayNumber(t) - DayNumber(week1);
    var weekNum := 1 + Round(((diffDays - 3 + DaysSinceMonday(week1)) as real) / 7.0);
    (t.year, weekNum)
  }

  /** The first Thursday of year `y`, as a day number. */
  function FirstThursday(y: int): int {
    var jan4 := Date(y, 1, 4);
    DayNumber(jan4) - DaysSinceMonday(jan4) + 3
  }

  /** Going back to a multiple of 7 and forward by 3 lands on a number that is 3 modulo 7. */
  lemma BackToWeekStart(x: int)
    ensures 0 <= x % 7 < 7
    ensures (x - x % 7 + 3) % 7 == 3
  {
  }

  lemma SameResidue(a: int, b: int)
    requires a % 7 == 3 && b % 7 == 3
    ensures (a - b) % 7 == 0
  {
  }

  lemma FirstThursdayInJanuary(y: int)
    ensures DaysBeforeYear(y) <= FirstThursday(y) < DaysBeforeYear(y) + 7
    ensures FirstThursday(y) % 7 == 3
  {
    var x := DayNumber(Date(y, 1, 4));
    assert x == DaysBeforeYear(y) + 3;
    BackToWeekStart(x);
  }

  /** The Thursday is three days after the week's Monday. */
  lemma ThursdayNumber(d: Date)
    requires Valid(d)
    ensures DayNumber(Thursday(d)) == DayNumber(d) - DaysSinceMonday(d) + 3
    ensures DayNumber(Thursday(d)) % 7 == 3
  {
    AddDaysNumber(d, 3 - DaysSinceMonday(d));
    BackToWeekStart(DayNumber(d));
  }

  lemma RoundWhole(k: int)
    ensures Round(((7 * k) as real) / 7.0) == k
  {
    assert ((7 * k) as real) / 7.0 == k as real;
    RoundOfInt(k);
  }

  /**
   ISO week numbering: the year is that of the week's Thursday, the week lies
   1 to 53 weeks into that year, and the week number counts whole weeks from
   the year's first Thursday, so that no rounding takes place.
   */
  lemma WeekOfYearSpec(d: Date)
    requires Valid(d)
    ensures WeekOfYear(d).0 == Thursday(d).year
    ensures DayNumber(Thursday(d)) == FirstThursday(Thursday(d).year) + 7 * (WeekOfYear(d).1 - 1)
    ensures 1 <= WeekOfYear(d).1 <= 53
  {
    var t := Thursday(d);
    ThursdayNumber(d);
    FirstThursdayInJanuary(t.year);
    DayNumberInYear(t);
    var gap := DayNumber(t) - FirstThursday(t.year);
    SameResidue(DayNumber(t), FirstThursday(t.year));
    var k := gap / 7;
    assert gap == 7 * k;
    var week1 := Date(t.year, 1, 4);
    assert DayNumber(t) - DayNumber(week1) - 3 + DaysSinceMonday(week1) == 7 * k;
    RoundWhole(k);
    assert 0 <= k <= 52;
  }

  /** Week 1 is the week holding 4 January. */
  lemma FourthOfJanuaryInWeekOne(y: int)
    ensures WeekOfYear(Date(y, 1, 4)) == (y, 1)
  {
    var d := Date(y, 1, 4);
    var k := 3 - DaysSinceMonday(d);
    AddDaysInJanuary(y, 4, k);
    assert Thursday(d) == Date(y, 1, 4 + k);
    WeekOfYearSpec(d);
    ThursdayNumber(d);
  }

  /** Every day of a Monday-to-Sunday week gets the same week. */
  lemma SameWeek(d: Date, e: Date)
    requires Valid(d) && Valid(e)
    requires DayNumber(d) - DaysSinceMonday(d) == DayNumber(e) - DaysSinceMonday(e)
    ensures WeekOfYear(d) == WeekOfYear(e)
  {
    ThursdayNumber(d);
    ThursdayNumber(e);
    DayNumberInjective(Thursday(d), Thursday(e));
  }

  lemma DayNumberInjective(a: Date, b: Date)
    requires Valid(a) && Valid(b) && DayNumber(a) == DayNumber(b)
    ensures a == b
  {
    DayNumberInYear(a);
    DayNumberInYear(b);
    if a.year < b.year {
      YearsApart(a.year, b.year);
      assert false;
    } else if b.year < a.year {
      YearsApart(b.year, a.year);
      assert false;
    }
    assert DaysBeforeMonth(a.year, a.month) + a.day == DaysBeforeMonth(b.year, b.month) + b.day;
    MonthsApart(a, b);
  }

  lemma {:induction false} YearsApart(y: int, z: int)
    requires y < z
    ensures DaysBeforeYear(y) + 365 + LeapDay(y) <= DaysBeforeYear(z)
    decreases z - y
  {
    YearLength(y);
    if y + 1 < z {
      YearsApart(y + 1, z);
      YearLength(y + 1);
    }
  }

  lemma MonthsApart(a: Date, b: Date)
    requires Valid(a) && Valid(b) && a.year == b.year
    requires DaysBeforeMonth(a.year, a.month) + a.day == DaysBeforeMonth(b.year, b.month) + b.day
    ensures a == b
  {
  }

  /** `getISOWeek`: "YYYY-Www", the week padded to two digits. */
  function WeekKey(d: ValidDate): (key: string)
    ensures |key| == |ShowInt(Thursday(d).year)| + 4
    ensures key[..|ShowInt(Thursday(d).year)|] == ShowInt(Thursday(d).year)
    ensures key[|ShowInt(Thursday(d).year)|..|ShowInt(Thursday(d).year)| + 2] == "-W"
    ensures forall i :: |ShowInt(Thursday(d).year)| + 2 <= i < |key| ==> IsDigit(key[i])
  {
    WeekOfYearSpec(d);
    var yw := WeekOfYear(d);
    ShowInt(yw.0) + "-W" + Pad2(yw.1)
  }
}
