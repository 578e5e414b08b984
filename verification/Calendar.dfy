/** The civil calendar the schedule engine reads through JavaScript's `Date`: day numbers
    counted from 1970-01-01, `Date.UTC`, and the `getUTC*` accessors (section 21.4.1 of
    ECMA-262).  Every operator that floors in ECMA-262 floors here too: Dafny's `/` and `%`
    agree with it because every divisor below is positive. */
module Calendar {
  const MS_PER_SECOND: int := 1_000
  const MS_PER_MINUTE: int := 60_000
  const MS_PER_HOUR: int := 3_600_000
  const MS_PER_DAY: int := 86_400_000

  datatype Date = Date(year: int, month: int, day: int)

  predicate IsLeap(year: int) {
    year % 4 == 0 && (year % 100 != 0 || year % 400 == 0)
  }

  function MonthLength(year: int, month: int): (n: int)
    requires 1 <= month <= 12
    ensures 28 <= n <= 31
  {
    if month == 2 then (if IsLeap(year) then 29 else 28)
    else if month == 4 || month == 6 || month == 9 || month == 11 then 30
    else 31
  }

  predicate IsDate(d: Date) {
    1 <= d.month <= 12 && 1 <= d.day <= MonthLength(d.year, d.month)
  }

  /** Day number of 1 January (section 21.4.1 of ECMA-262). */
  function DayFromYear(year: int): int {
    365 * (year - 1970) + (year - 1969) / 4 - (year - 1901) / 100 + (year - 1601) / 400
  }

  /** Days of `year` that come before the first of `month`. */
  function DaysBeforeMonth(year: int, month: int): int
    requires 1 <= month <= 13
    decreases month
  {
    if month == 1 then 0 else DaysBeforeMonth(year, month - 1) + MonthLength(year, month - 1)
  }

  /** `MakeDay` for a month in range; the day of the month may be any integer. */
  function DayNumber(d: Date): int
    requires 1 <= d.month <= 12
  {
    DayFromYear(d.year) + DaysBeforeMonth(d.year, d.month) + d.day - 1
  }

  lemma QuotientStep(n: int, shift: int, k: int)
    requires k > 0 && shift % k == 0
    ensures (n - shift) / k == (n - shift - 1) / k + (if n % k == 0 then 1 else 0)
  {
    var q := shift / k;
    assert n - shift == (n / k - q) * k + n % k;
    QuotientUnique(n - shift, k, n / k - q, n % k);
    if n % k == 0 {
      assert n - shift - 1 == (n / k - q - 1) * k + (k - 1);
      QuotientUnique(n - shift - 1, k, n / k - q - 1, k - 1);
    } else {
      QuotientUnique(n - shift - 1, k, n / k - q, n % k - 1);
    }
  }

  lemma QuotientUnique(n: int, k: int, q: int, r: int)
    requires k > 0 && 0 <= r < k && n == q * k + r
    ensures n / k == q && n % k == r
  {
    var d := n / k - q;
    assert d * k == r - n % k;
    assert d > 0 ==> d * k >= k;
    assert d < 0 ==> d * k <= -k;
  }

  lemma YearStep(year: int)
    ensures DayFromYear(year + 1) == DayFromYear(year) + (if IsLeap(year) then 366 else 365)
  {
    QuotientStep(year, 1968, 4);
    QuotientStep(year, 1900, 100);
    QuotientStep(year, 1600, 400);
    LeapRule(year);
  }

  lemma LeapRule(year: int)
    ensures year % 400 == 0 ==> year % 100 == 0
    ensures year % 100 == 0 ==> year % 4 == 0
  {
    var q, c := year / 400, year / 100;
    if year % 400 == 0 { QuotientUnique(year, 100, 4 * q, 0); }
    if year % 100 == 0 { QuotientUnique(year, 4, 25 * c, 0); }
  }

  lemma YearLength(year: int)
    ensures DaysBeforeMonth(year, 13) == if IsLeap(year) then 366 else 365
  {
    assert DaysBeforeMonth(year, 4) == DaysBeforeMonth(year, 1) + 31 + MonthLength(year, 2) + 31;
    assert DaysBeforeMonth(year, 7) == DaysBeforeMonth(year, 4) + 91;
    assert DaysBeforeMonth(year, 10) == DaysBeforeMonth(year, 7) + 92;
    assert DaysBeforeMonth(year, 13) == DaysBeforeMonth(year, 10) + 92;
  }

  /** The year holding day `n`: the largest year whose first day is not after `n`. */
  function YearFromDay(n: int): (year: int)
    ensures DayFromYear(year) <= n < DayFromYear(year + 1)
  {
    YearSearch(1970 + n / 366, n)
  }

  function YearSearch(guess: int, n: int): (year: int)
    ensures DayFromYear(year) <= n < DayFromYear(year + 1)
    decreases if n < DayFromYear(guess) then 1 + DayFromYear(guess) - n
              else if n >= DayFromYear(guess + 1) then n - DayFromYear(guess) else 0
  {
    YearStep(guess - 1); YearStep(guess); YearStep(guess + 1);
    hide DayFromYear;
    if n < DayFromYear(guess) then YearSearch(guess - 1, n)
    else if n >= DayFromYear(guess + 1) then YearSearch(guess + 1, n)
    else guess
  }

  /** The month, `month` or later, that holds day `ordinal` (counted from 0) of `year`. */
  function MonthFromOrdinal(year: int, ordinal: int, month: int): (m: int)
    requires 1 <= month <= 12
    requires DaysBeforeMonth(year, month) <= ordinal < DaysBeforeMonth(year, 13)
    ensures month <= m <= 12
    ensures DaysBeforeMonth(year, m) <= ordinal < DaysBeforeMonth(year, m + 1)
    decreases 12 - month
  {
    if ordinal < DaysBeforeMonth(year, month + 1) then month else MonthFromOrdinal(year, ordinal, month + 1)
  }

  /** `getUTCFullYear`, `getUTCMonth` + 1 and `getUTCDate` of day `n`. */
  function DateOfDay(n: int): Date {
    var year := YearFromDay(n);
    var ordinal := n - DayFromYear(year);
    YearStep(year); YearLength(year);
    var month := MonthFromOrdinal(year, ordinal, 1);
    Date(year, month, ordinal - DaysBeforeMonth(year, month) + 1)
  }

  /** Every day number names a calendar date, and that date names the day number back. */
  lemma DayRoundTrip(n: int)
    ensures IsDate(DateOfDay(n))
    ensures DayNumber(DateOfDay(n)) == n
  {
    var year := YearFromDay(n);
    YearStep(year); YearLength(year);
  }

  lemma {:induction false} YearsIncrease(early: int, late: int)
    requires early < late
    ensures DayFromYear(early) + 365 <= DayFromYear(early + 1) <= DayFromYear(late)
    decreases late - early
  {
    YearStep(early);
    if early + 1 < late {
      YearsIncrease(early + 1, late);
    }
  }

  lemma {:induction false} MonthsIncrease(year: int, early: int, late: int)
    requires 1 <= early < late <= 13
    ensures DaysBeforeMonth(year, early + 1) <= DaysBeforeMonth(year, late)
    decreases late - early
  {
    if early + 1 < late {
      MonthsIncrease(year, early, late - 1);
    }
  }

  lemma DayInYear(d: Date)
    requires IsDate(d)
    ensures DayFromYear(d.year) <= DayNumber(d) < DayFromYear(d.year + 1)
  {
    YearLength(d.year); YearStep(d.year);
    if d.month > 1 { MonthsIncrease(d.year, 1, d.month); }
    if d.month < 12 { MonthsIncrease(d.year, d.month, 13); }
  }

  lemma DayOfMonthFits(d: Date)
    requires IsDate(d)
    ensures DayFromYear(d.year) + DaysBeforeMonth(d.year, d.month) <= DayNumber(d)
          < DayFromYear(d.year) + DaysBeforeMonth(d.year, d.month + 1)
  {
    hide DayFromYear;
  }

  predicate Before(a: Date, b: Date) {
    a.year < b.year || (a.year == b.year && (a.month < b.month || (a.month == b.month && a.day < b.day)))
  }

  lemma BeforeMeansLess(a: Date, b: Date)
    requires IsDate(a) && IsDate(b) && Before(a, b)
    ensures DayNumber(a) < DayNumber(b)
  {
    if a.year < b.year {
      hide *;
      DayInYear(a); DayInYear(b);
      YearsIncrease(a.year, b.year);
    } else if a.month < b.month {
      hide DayFromYear, MonthLength, DaysBeforeMonth, DayNumber;
      DayOfMonthFits(a); DayOfMonthFits(b);
      MonthsIncrease(a.year, a.month, b.month);
    } else {
      hide DayFromYear, MonthLength, DaysBeforeMonth;
    }
  }

  /** Day numbers order dates, and no two calendar dates share one. */
  lemma DateOrder(a: Date, b: Date)
    requires IsDate(a) && IsDate(b)
    ensures DayNumber(a) < DayNumber(b) <==> Before(a, b)
    ensures DayNumber(a) == DayNumber(b) ==> a == b
  {
    hide DayNumber;
    if Before(a, b) { BeforeMeansLess(a, b); }
    if Before(b, a) { BeforeMeansLess(b, a); }
  }

  /** Every calendar date is the date of its own day number. */
  lemma DateRoundTrip(d: Date)
    requires IsDate(d)
    ensures DateOfDay(DayNumber(d)) == d
  {
    DayRoundTrip(DayNumber(d));
    DateOrder(d, DateOfDay(DayNumber(d)));
  }

  /** `Date.UTC` reads the years 0 to 99 as 1900 to 1999 (section 21.4.3.4 of ECMA-262). */
  function FullYear(year: int): int {
    if 0 <= year <= 99 then 1900 + year else year
  }

  /** `MakeDay` (section 21.4.1 of ECMA-262); `month` counts from 0 and may overflow the year. */
  function MakeDay(year: int, month: int, day: int): int {
    DayNumber(Date(year + month / 12, month % 12 + 1, 1)) + day - 1
  }

  /** `Date.UTC`, in milliseconds. */
  function DateUtc(year: int, month: int, day: int, hour: int, minute: int, second: int): int {
    MakeDay(FullYear(year), month, day) * MS_PER_DAY
    + hour * MS_PER_HOUR + minute * MS_PER_MINUTE + second * MS_PER_SECOND
  }

  function DayOf(ms: int): int { ms / MS_PER_DAY }

  /** `getUTCHours` and `getUTCMinutes` together, as minutes after midnight. */
  function MinuteOfDay(ms: int): (m: int)
    ensures 0 <= m < 1440
  {
    ms % MS_PER_DAY / MS_PER_MINUTE
  }

  /** `getUTCDay` of day `n`: Sunday is 0. */
  function UtcWeekday(n: int): (w: int)
    ensures 0 <= w < 7
  {
    (n + 4) % 7
  }

  /** Monday is 0, the index into `WEEKDAYS`. */
  function WeekdayIndex(n: int): (w: int)
    ensures 0 <= w < 7
  {
    (UtcWeekday(n) + 6) % 7
  }

  lemma MakeDayInRange(year: int, month: int, day: int)
    requires 1 <= month <= 12
    ensures MakeDay(year, month - 1, day) == DayNumber(Date(year, month, day))
  {
    assert (month - 1) / 12 == 0 && (month - 1) % 12 == month - 1;
  }

  lemma DateUtcParts(d: Date, hour: int, minute: int, second: int)
    requires 1 <= d.month <= 12
    ensures DateUtc(d.year, d.month - 1, d.day, hour, minute, second)
         == DayNumber(Date(FullYear(d.year), d.month, d.day)) * MS_PER_DAY
            + hour * MS_PER_HOUR + minute * MS_PER_MINUTE + second * MS_PER_SECOND
  {
    MakeDayInRange(FullYear(d.year), d.month, d.day);
  }

  lemma MovedDayNumber(d: Date, days: int)
    requires 1 <= d.month <= 12
    ensures DayNumber(Date(d.year, d.month, d.day + days)) == DayNumber(d) + days
  {
  }

  /** `daysInMonth` asks for day 0 of the following month, which is the last day of this one. */
  function DaysInMonth(year: int, month: int): int {
    DateOfDay(DayOf(DateUtc(year, month, 0, 0, 0, 0))).day
  }

  lemma DayZeroIsLast(year: int, month: int)
    requires 1 <= month <= 12
    ensures MakeDay(year, month, 0) == DayNumber(Date(year, month, MonthLength(year, month)))
  {
    if month == 12 {
      YearStep(year); YearLength(year);
      assert DaysBeforeMonth(year, 13) == DaysBeforeMonth(year, 12) + MonthLength(year, 12);
      hide DayFromYear, MonthLength;
      assert month / 12 == 1 && month % 12 == 0;
    } else {
      hide DayFromYear, MonthLength;
      assert month / 12 == 0 && month % 12 == month;
    }
  }

  lemma MidnightDay(day: int, ms: int)
    requires ms == day * MS_PER_DAY
    ensures DayOf(ms) == day
  {
  }

  lemma DaysInMonthIsLength(year: int, month: int)
    requires 1 <= month <= 12 && !(0 <= year <= 99)
    ensures DaysInMonth(year, month) == MonthLength(year, month)
  {
    hide MakeDay, DayNumber, DateOfDay, DayOf;
    var last := Date(year, month, MonthLength(year, month));
    DayZeroIsLast(year, month);
    MidnightDay(MakeDay(year, month, 0), DateUtc(year, month, 0, 0, 0, 0));
    DateRoundTrip(last);
  }

  /** Days in the years the string format below can carry. */
  const FIRST_DAY: int := DayNumber(Date(1000, 1, 1))
  const LAST_DAY: int := DayNumber(Date(9999, 12, 31))

  lemma FourDigitYears(n: int)
    ensures FIRST_DAY <= n <= LAST_DAY <==> 1000 <= DateOfDay(n).year <= 9999
  {
    hide DayNumber, DateOfDay;
    DayRoundTrip(n);
    DateOrder(Date(1000, 1, 1), DateOfDay(n));
    DateOrder(DateOfDay(n), Date(1000, 1, 1));
    DateOrder(DateOfDay(n), Date(9999, 12, 31));
    DateOrder(Date(9999, 12, 31), DateOfDay(n));
  }
}
