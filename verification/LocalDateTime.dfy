/** Wall-clock strings `YYYY-MM-DDTHH:mm`: how the schedule engine reads and prints them, and
    which ones a stored trigger may carry. */
module LocalDateTime {
  import opened Options
  import opened Calendar

  datatype Civil = Civil(date: Date, hour: int, minute: int)

  /** The civil fields of an instant read in UTC (`getUTCFullYear` and its siblings). */
  function CivilOfMs(ms: int): Civil {
    Civil(DateOfDay(DayOf(ms)), MinuteOfDay(ms) / 60, MinuteOfDay(ms) % 60)
  }

  predicate IsClock(hour: int, minute: int) {
    0 <= hour <= 23 && 0 <= minute <= 59
  }

  predicate IsCivil(c: Civil) {
    IsDate(c.date) && IsClock(c.hour, c.minute)
  }

  // ---------- Decimal text ----------

  predicate IsDigit(c: char) { '0' <= c <= '9' }

  function DigitChar(n: int): (c: char)
    requires 0 <= n <= 9
    ensures IsDigit(c) && c as int - '0' as int == n
  {
    ('0' as int + n) as char
  }

  function Decimal(n: nat): string {
    if n < 10 then [DigitChar(n)] else Decimal(n / 10) + [DigitChar(n % 10)]
  }

  /** `Number` on a string of digits. */
  function NumberOf(s: string): nat
    requires AllDigits(s)
  {
    if s == "" then 0
    else
      var last := s[|s| - 1];
      assert IsDigit(last);
      10 * NumberOf(s[..|s| - 1]) + (last as int - '0' as int)
  }

  predicate AllDigits(s: string) {
    forall i :: 0 <= i < |s| ==> IsDigit(s[i])
  }

  lemma {:induction false} DecimalRoundTrip(n: nat)
    ensures Decimal(n) != "" && AllDigits(Decimal(n)) && NumberOf(Decimal(n)) == n
  {
    if n >= 10 {
      DecimalRoundTrip(n / 10);
      var s := Decimal(n);
      assert s[..|s| - 1] == Decimal(n / 10);
    } else {
      assert Decimal(n)[..0] == "";
    }
  }

  lemma DecimalLonger(n: nat)
    requires n >= 10
    ensures |Decimal(n)| == |Decimal(n / 10)| + 1
  {
  }

  lemma DecimalWidth(n: nat)
    ensures |Decimal(n)| == 1 <==> n < 10
    ensures |Decimal(n)| == 2 <==> 10 <= n < 100
    ensures |Decimal(n)| == 4 <==> 1000 <= n < 10000
  {
    DecimalRoundTrip(n / 10000);
    if n < 10 { assert |Decimal(n)| == 1; }
    hide Decimal;
    if n >= 10 { DecimalLonger(n); DecimalRoundTrip(n / 10); }
    if n >= 100 { DecimalLonger(n / 10); assert n / 10 / 10 == n / 100; DecimalRoundTrip(n / 100); }
    if n >= 1000 { DecimalLonger(n / 100); assert n / 100 / 10 == n / 1000; DecimalRoundTrip(n / 1000); }
    if n >= 10000 { DecimalLonger(n / 1000); assert n / 1000 / 10 == n / 10000; }
    ShortDecimals(n);
  }

  lemma ShortDecimals(n: nat)
    ensures 10 <= n < 100 ==> |Decimal(n / 10)| == 1
    ensures 100 <= n < 1000 ==> |Decimal(n / 100)| == 1
    ensures 1000 <= n < 10000 ==> |Decimal(n / 1000)| == 1
  {
  }

  // ---------- Printing and parsing ----------

  /** `String` on an integer: no padding. */
  function NumberText(n: int): string {
    if n < 0 then "-" + Decimal(-n) else Decimal(n)
  }

  /** `padStart(width, "0")`. */
  function PadText(s: string, width: nat): (r: string)
    ensures |s| <= width ==> |r| == width
    decreases width - |s|
  {
    if |s| >= width then s else PadText("0" + s, width)
  }

  lemma {:induction false} PadTextReads(s: string, width: nat)
    requires AllDigits(s)
    ensures AllDigits(PadText(s, width)) && NumberOf(PadText(s, width)) == NumberOf(s)
    decreases width - |s|
  {
    if |s| < width {
      LeadingZero(s);
      PadTextReads("0" + s, width);
    }
  }

  lemma {:induction false} LeadingZero(s: string)
    requires AllDigits(s)
    ensures AllDigits("0" + s) && NumberOf("0" + s) == NumberOf(s)
  {
    var z := "0" + s;
    if s == "" {
      assert z[..0] == "";
    } else {
      LeadingZero(s[..|s| - 1]);
      assert z[..|z| - 1] == "0" + s[..|s| - 1];
    }
  }

  function Pad2(n: int): string {
    PadText(NumberText(n), 2)
  }

  function Format(c: Civil): string {
    NumberText(c.date.year) + "-" + Pad2(c.date.month) + "-" + Pad2(c.date.day) + "T"
    + Pad2(c.hour) + ":" + Pad2(c.minute)
  }

  predicate IsLocalDateTime(s: string) {
    && |s| == 16
    && s[4] == '-' && s[7] == '-' && s[10] == 'T' && s[13] == ':'
    && AllDigits(s[0..4]) && AllDigits(s[5..7]) && AllDigits(s[8..10])
    && AllDigits(s[11..13]) && AllDigits(s[14..16])
  }

  /** None stands for the error `parseLocalDateTime` throws. */
  function Parse(s: string): Option<Civil> {
    if IsLocalDateTime(s) then
      Some(Civil(Date(NumberOf(s[0..4]), NumberOf(s[5..7]), NumberOf(s[8..10])),
                 NumberOf(s[11..13]), NumberOf(s[14..16])))
    else None
  }

  lemma Pad2RoundTrip(n: int)
    requires 0 <= n <= 99
    ensures |Pad2(n)| == 2 && AllDigits(Pad2(n)) && NumberOf(Pad2(n)) == n
  {
    DecimalRoundTrip(n);
    DecimalWidth(n);
    PadTextReads(Decimal(n), 2);
  }

  /** A printed civil time reads back as itself exactly when its year has four digits: the year
      is the one field that is not padded. */
  lemma FormatRoundTrip(c: Civil)
    requires 0 <= c.date.month <= 99 && 0 <= c.date.day <= 99 && 0 <= c.hour <= 99 && 0 <= c.minute <= 99
    ensures 1000 <= c.date.year <= 9999 ==> Parse(Format(c)) == Some(c)
    ensures !(1000 <= c.date.year <= 9999) ==> Parse(Format(c)) == None
  {
    hide Decimal, NumberOf, Pad2;
    Pad2RoundTrip(c.date.month); Pad2RoundTrip(c.date.day);
    Pad2RoundTrip(c.hour); Pad2RoundTrip(c.minute);
    var s, y := Format(c), NumberText(c.date.year);
    if c.date.year < 0 {
      assert s[0] == '-';
      assert |s| >= 4 ==> s[0..4][0] == '-';
    } else {
      DecimalRoundTrip(c.date.year);
      DecimalWidth(c.date.year);
      if |y| == 4 {
        assert s[0..4] == y;
        assert s[5..7] == Pad2(c.date.month);
        assert s[8..10] == Pad2(c.date.day);
        assert s[11..13] == Pad2(c.hour);
        assert s[14..16] == Pad2(c.minute);
      }
    }
  }

  // ---------- Which strings a trigger may carry ----------

  predicate IsValidLocalDateTime(s: string) {
    match Parse(s)
    case None => false
    case Some(c) => ReadsBack(c)
  }

  predicate ReadsBack(c: Civil) {
    if c.hour > 23 || c.minute > 59 || c.date.month < 1 || c.date.month > 12 || c.date.day < 1 then false
    else CivilOfMs(DateUtc(c.date.year, c.date.month - 1, c.date.day, c.hour, c.minute, 0)) == c
  }

  lemma ClockSplits(hour: int, minute: int, clock: int)
    requires IsClock(hour, minute) && clock == hour * MS_PER_HOUR + minute * MS_PER_MINUTE
    ensures 0 <= clock < MS_PER_DAY && clock / MS_PER_MINUTE == 60 * hour + minute
    ensures (60 * hour + minute) / 60 == hour && (60 * hour + minute) % 60 == minute
  {
    QuotientUnique(clock, MS_PER_MINUTE, 60 * hour + minute, 0);
    QuotientUnique(60 * hour + minute, 60, hour, minute);
  }

  lemma CivilOfClock(ms: int, day: int, hour: int, minute: int)
    requires IsClock(hour, minute)
    requires ms == day * MS_PER_DAY + hour * MS_PER_HOUR + minute * MS_PER_MINUTE
    ensures DayOf(ms) == day && MinuteOfDay(ms) == 60 * hour + minute
    ensures CivilOfMs(ms) == Civil(DateOfDay(day), hour, minute)
  {
    hide DateOfDay;
    var clock := hour * MS_PER_HOUR + minute * MS_PER_MINUTE;
    ClockSplits(hour, minute, clock);
    QuotientUnique(ms, MS_PER_DAY, day, clock);
    assert DayOf(ms) == day && MinuteOfDay(ms) == 60 * hour + minute;
    hide DayOf, MinuteOfDay;
  }

  /** Reading a year below 100 back never gives that year. */
  lemma MovedYearsDiffer(d: Date)
    requires 0 <= d.year <= 99 && 1 <= d.month <= 12 && d.day >= 1
    ensures DateOfDay(DayNumber(Date(1900 + d.year, d.month, d.day))) != d
  {
    var moved := Date(1900 + d.year, d.month, d.day);
    if DateOfDay(DayNumber(moved)) == d {
      DayRoundTrip(DayNumber(moved));
      DayInYear(d);
      YearsIncrease(d.year, moved.year);
      if d.month > 1 { MonthsIncrease(moved.year, 1, d.month); }
      assert false;
    }
  }

  lemma ReadBackDate(c: Civil, ms: int, day: int)
    requires IsClock(c.hour, c.minute) && 1 <= c.date.month <= 12
    requires ms == DateUtc(c.date.year, c.date.month - 1, c.date.day, c.hour, c.minute, 0)
    requires day == DayNumber(Date(FullYear(c.date.year), c.date.month, c.date.day))
    ensures CivilOfMs(ms) == Civil(DateOfDay(day), c.hour, c.minute)
  {
    assert ms == day * MS_PER_DAY + c.hour * MS_PER_HOUR + c.minute * MS_PER_MINUTE by {
      DateUtcParts(c.date, c.hour, c.minute, 0);
    }
    CivilOfClock(ms, day, c.hour, c.minute);
  }

  /** The date that `Date.UTC` makes of `d` is `d` again exactly for calendar dates from year 100 on. */
  lemma MovedDate(d: Date, day: int)
    requires d.year >= 0 && 1 <= d.month <= 12 && d.day >= 1
    requires day == DayNumber(Date(FullYear(d.year), d.month, d.day))
    ensures DateOfDay(day) == d <==> IsDate(d) && d.year >= 100
  {
    hide DateOfDay, DayNumber;
    DayRoundTrip(day);
    if d.year <= 99 { MovedYearsDiffer(d); }
    else if IsDate(d) { DateRoundTrip(d); }
  }

  lemma ReadsBackExactly(c: Civil)
    requires c.date.year >= 0 && c.hour >= 0 && c.minute >= 0
    ensures ReadsBack(c) <==> IsCivil(c) && c.date.year >= 100
  {
    if IsClock(c.hour, c.minute) && 1 <= c.date.month <= 12 && c.date.day >= 1 {
      var ms := DateUtc(c.date.year, c.date.month - 1, c.date.day, c.hour, c.minute, 0);
      var day := DayNumber(Date(FullYear(c.date.year), c.date.month, c.date.day));
      assert CivilOfMs(ms) == Civil(DateOfDay(day), c.hour, c.minute) by { ReadBackDate(c, ms, day); }
      MovedDate(c.date, day);
    }
  }

  /** The schema keeps exactly the calendar times of the years 100 to 9999: reading a date back
      rejects days past the end of a month, and the years 0 to 99, which `Date.UTC` moves. */
  lemma ValidMeansCalendarTime(s: string)
    ensures IsValidLocalDateTime(s)
       <==> Parse(s).Some? && IsCivil(Parse(s).value) && Parse(s).value.date.year >= 100
  {
    if Parse(s).Some? { ReadsBackExactly(Parse(s).value); }
  }
}
