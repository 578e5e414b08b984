/** What the scan of `NextRunAt` promises: the least fire, always a fire, every fire once. */
module ScheduleTheorems {
  import opened Options
  import opened Calendar
  import opened LocalDateTime
  import opened ZonedTime
  import opened TaskTrigger
  import opened NextRunAt

  // ---------- Which days match ----------

  lemma WeekdayOfDay(day: int)
    requires day >= FIRST_EXACT_DAY - 2
    ensures WeekdayOfCivilDate(DateOfDay(day)) == WEEKDAYS[(day + 3) % 7]
  {
    hide DateUtc, DateOfDay, DayNumber;
    var d := DateOfDay(day);
    DayRoundTrip(day); YearPast99(day);
    DateUtcParts(d, 0, 0, 0);
    CivilOfClock(DateUtc(d.year, d.month - 1, d.day, 0, 0, 0), day, 0, 0);
    WeekdayIndexIs(day);
  }

  /** 1970-01-01 is day 0. */
  lemma EpochIsDayZero()
    ensures DayNumber(Date(1970, 1, 1)) == 0 && DateOfDay(0) == Date(1970, 1, 1)
  {
    assert DayNumber(Date(1970, 1, 1)) == 0;
    hide DayNumber, DateOfDay;
    DateRoundTrip(Date(1970, 1, 1));
  }

  /** The weekday of every date, counted from 1970-01-01, which was a Thursday. */
  lemma WeekdayOfDate(d: Date)
    requires IsDate(d) && d.year >= 100
    ensures var w, k := WeekdayOfCivilDate(d), DayNumber(d) % 7;
            && (w.Thu? <==> k == 0) && (w.Fri? <==> k == 1) && (w.Sat? <==> k == 2) && (w.Sun? <==> k == 3)
            && (w.Mon? <==> k == 4) && (w.Tue? <==> k == 5) && (w.Wed? <==> k == 6)
    ensures WeekdayOfCivilDate(Date(1970, 1, 1)) == Thu
  {
    hide DateOfDay, DayNumber, WeekdayOfCivilDate;
    DateOrder(Date(100, 1, 1), d);
    DateOrder(d, Date(100, 1, 1));
    DateOrder(Date(100, 1, 1), Date(1970, 1, 1));
    EpochIsDayZero();
    DateRoundTrip(d);
    WeekdayOfDay(DayNumber(d));
    WeekdayOfDay(0);
  }

  lemma WeekdayIndexIs(day: int)
    ensures WeekdayIndex(day) == (day + 3) % 7
  {
  }

  function DayAfter(w: Weekday): Weekday {
    match w
    case Mon => Tue case Tue => Wed case Wed => Thu case Thu => Fri case Fri => Sat case Sat => Sun case Sun => Mon
  }

  /** Stepping one civil day advances the weekday by one, round the week. */
  lemma NextDayNextWeekday(c: Civil)
    requires IsCivil(c) && c.date.year >= 100
    ensures WeekdayOfCivilDate(AddUtcDays(c, 1).date) == DayAfter(WeekdayOfCivilDate(c.date))
  {
    hide AddUtcDays, DateOfDay, DayNumber, WeekdayOfCivilDate;
    var n := DayNumber(c.date);
    DateOrder(Date(100, 1, 1), c.date);
    DateOrder(c.date, Date(100, 1, 1));
    AddUtcDaysMoves(c, 1);
    DateRoundTrip(c.date);
    WeekdayOfDay(n); WeekdayOfDay(n + 1);
  }

  /** Days after Thursday. */
  function ThursdayOffset(w: Weekday): int {
    match w
    case Thu => 0 case Fri => 1 case Sat => 2 case Sun => 3 case Mon => 4 case Tue => 5 case Wed => 6
  }

  /** Which dates are due: for a weekly schedule those whose weekday is listed, for a monthly one the date
      with the day of `at`, or the month's last where it has no such day; and none before `at`, none
      before `from`, and with `after` not `from` itself. */
  lemma DueDates(s: Search, day: int)
    requires IsCivil(s.at) && day >= FIRST_EXACT_DAY
    ensures var c := DateOfDay(day);
            Due(s, day) <==>
              && (s.recurrence.Weekly? ==> exists w <- s.recurrence.days :: ThursdayOffset(w) == day % 7)
              && (s.recurrence.Monthly? ==>
                    c.day == s.at.date.day || (c.day == MonthLength(c.year, c.month) && c.day < s.at.date.day))
              && s.atUtc <= Instant(s, day) && s.from <= Instant(s, day) && (s.after ==> s.from != Instant(s, day))
  {
    hide DateOfDay, DayNumber, Instant, MonthLength, WeekdayOfCivilDate, DaysInMonth;
    var c := DateOfDay(day);
    DayRoundTrip(day); YearPast99(day);
    WeekdayOfDate(c);
    DaysInMonthIsLength(c.year, c.month);
  }

  function MonthlyDay(atDay: int, year: int, month: int): int
    requires 1 <= month <= 12
  {
    if atDay < MonthLength(year, month) then atDay else MonthLength(year, month)
  }

  lemma MonthlyMatch(d: Date, atDay: int)
    requires IsDate(d) && d.year >= 100
    ensures MatchesRecurrence(d, atDay, Monthly) <==> d.day == MonthlyDay(atDay, d.year, d.month)
  {
    DaysInMonthIsLength(d.year, d.month);
  }

  /** A monthly schedule matches exactly one date of every calendar month. */
  lemma OneMonthlyMatchPerMonth(year: int, month: int, atDay: int)
    requires year >= 100 && 1 <= month <= 12 && 1 <= atDay <= 31
    ensures exists day :: IsDate(Date(year, month, day)) && MatchesRecurrence(Date(year, month, day), atDay, Monthly)
    ensures forall a, b :: IsDate(Date(year, month, a)) && MatchesRecurrence(Date(year, month, a), atDay, Monthly)
                        && IsDate(Date(year, month, b)) && MatchesRecurrence(Date(year, month, b), atDay, Monthly)
                        ==> a == b
  {
    hide MatchesRecurrence;
    forall d | IsDate(Date(year, month, d))
      ensures MatchesRecurrence(Date(year, month, d), atDay, Monthly) <==> d == MonthlyDay(atDay, year, month)
    {
      MonthlyMatch(Date(year, month, d), atDay);
    }
    assert IsDate(Date(year, month, MonthlyDay(atDay, year, month)));
  }

  lemma MonthlyMatchWithin(day: int, atDay: int) returns (d: int)
    requires day >= FIRST_EXACT_DAY - 2 && 1 <= atDay <= 31
    ensures day <= d <= day + 30 && MatchesRecurrence(DateOfDay(d), atDay, Monthly)
  {
    hide MatchesRecurrence, DateOfDay, MonthLength;
    var c := DateOfDay(day);
    DayRoundTrip(day); YearPast99(day);
    var target := MonthlyDay(atDay, c.year, c.month);
    var hit: Date;
    if c.day <= target {
      hit := Date(c.year, c.month, target);
      MovedDayNumber(c, target - c.day);
      d := day + target - c.day;
    } else {
      hit := if c.month == 12 then Date(c.year + 1, 1, 1) else Date(c.year, c.month + 1, 1);
      hit := hit.(day := MonthlyDay(atDay, hit.year, hit.month));
      NextMonthStarts(c);
      d := day + MonthLength(c.year, c.month) - c.day + hit.day;
    }
    DateRoundTrip(hit);
    MonthlyMatch(hit, atDay);
  }

  lemma NextMonthStarts(c: Date)
    requires 1 <= c.month <= 12
    ensures DayNumber(if c.month == 12 then Date(c.year + 1, 1, 1) else Date(c.year, c.month + 1, 1))
         == DayNumber(c) + MonthLength(c.year, c.month) - c.day + 1
  {
    hide DayFromYear, MonthLength;
    if c.month == 12 {
      YearStep(c.year); YearLength(c.year);
    }
  }

  lemma WeeklyMatchWithin(day: int, days: seq<Weekday>) returns (d: int)
    requires day >= FIRST_EXACT_DAY - 2 && |days| >= 1
    ensures day <= d <= day + 6 && WeekdayOfCivilDate(DateOfDay(d)) in days
  {
    hide WeekdayOfCivilDate, DateOfDay;
    var k := match days[0]
      case Mon => 0 case Tue => 1 case Wed => 2 case Thu => 3 case Fri => 4 case Sat => 5 case Sun => 6;
    assert WEEKDAYS[k] == days[0];
    d := day + (k - day - 3) % 7;
    assert (d + 3) % 7 == k;
    WeekdayOfDay(d);
  }

  /** How many days past any date the next matching date can be. */
  function LongestGap(r: Recurrence): nat {
    match r
    case Daily => 0
    case Weekly(_) => 6
    case Monthly => 30
  }

  lemma MatchWithin(s: Search, day: int) returns (d: int)
    requires ValidSearch(s) && day >= FIRST_EXACT_DAY - 2
    ensures day <= d <= day + LongestGap(s.recurrence) && Matches(s, d)
  {
    hide WeekdayOfCivilDate, DateOfDay, DaysInMonth, DayNumber, Instant;
    match s.recurrence
    case Daily => d := day;
    case Weekly(days) => d := WeeklyMatchWithin(day, days);
    case Monthly => d := MonthlyMatchWithin(day, s.at.date.day);
  }

  // ---------- Which days are eligible ----------

  /** Over the days from `first` to `last` the clocks do not cross the date line. */
  ghost predicate SteadyOver(zone: Zone, first: int, last: int) {
    VariesUnderADay(zone, first * MS_PER_DAY, last * MS_PER_DAY)
  }

  lemma SteadyWithin(zone: Zone, first: int, last: int, from: int, to: int)
    requires SteadyOver(zone, first, last) && first <= from && to <= last
    ensures SteadyOver(zone, from, to)
  {
    assert first * MS_PER_DAY <= from * MS_PER_DAY && to * MS_PER_DAY <= last * MS_PER_DAY;
  }

  /** Nor over the instants that a search can reach. */
  ghost predicate Steady(s: Search)
    requires IsCivil(s.at)
  {
    SteadyOver(s.zone, StartDay(s) - 5, StartDay(s) + 40)
  }

  lemma InstantsIncrease(s: Search, early: int, late: int)
    requires IsClock(s.at.hour, s.at.minute) && UnderADay(s.zone) && early < late
    requires late == early + 1 ==> SteadyOver(s.zone, early - 1, late + 2)
    ensures Instant(s, early) < Instant(s, late)
  {
    ConversionKeepsOrder(WallMs(early, s.at.hour, s.at.minute), WallMs(late, s.at.hour, s.at.minute), s.zone);
  }

  /** The same for two days of which one is among those the search can reach. */
  lemma ReachedIncrease(s: Search, early: int, late: int)
    requires ValidSearch(s) && Steady(s) && early < late
    requires StartDay(s) - 3 <= early <= StartDay(s) + 36 || StartDay(s) - 2 <= late <= StartDay(s) + 37
    ensures Instant(s, early) < Instant(s, late)
  {
    hide DayNumber, SteadyOver, StartDay, Instant;
    if late == early + 1 { SteadyWithin(s.zone, StartDay(s) - 5, StartDay(s) + 40, early - 1, late + 2); }
    InstantsIncrease(s, early, late);
  }

  /** Once the start is past `at`, the date shown there is no earlier than the day before `at`'s. */
  lemma StartIsExact(s: Search)
    requires ValidSearch(s) && Steady(s)
    ensures StartDay(s) >= FIRST_EXACT_DAY - 1
    ensures s.from >= s.atUtc ==> StartDay(s) >= DayNumber(s.at.date) - 1
  {
    hide DayNumber;
    var a := DayNumber(s.at.date);
    if s.from >= s.atUtc {
      var wall := WallMs(a, s.at.hour, s.at.minute);
      var lo, hi := (StartDay(s) - 5) * MS_PER_DAY, (StartDay(s) + 40) * MS_PER_DAY;
      assert lo <= s.from <= hi;
      assert StartDay(s) < a - 1 ==> lo <= wall - s.zone(wall) <= hi;
      assert StartDay(s) < a - 1 ==> s.zone(wall - s.zone(wall)) - s.zone(s.from) < MS_PER_DAY;
    }
  }

  /** From which day, counted from the start date, every matching date is eligible. */
  function Delay(s: Search, constant: bool): nat {
    if s.from < s.atUtc then 0 else if constant then 1 else 2
  }

  lemma EligibleFrom(s: Search, day: int)
    requires ValidSearch(s) && Steady(s) && StartDay(s) + Delay(s, false) <= day <= StartDay(s) + 35
    ensures IsEligible(Instant(s, day), s.from, s.atUtc, s.after)
  {
    hide DayNumber;
    if s.from < s.atUtc {
      if day > DayNumber(s.at.date) { ReachedIncrease(s, DayNumber(s.at.date), day); }
    } else {
      var wall := WallMs(day, s.at.hour, s.at.minute);
      var lo, hi := (StartDay(s) - 5) * MS_PER_DAY, (StartDay(s) + 40) * MS_PER_DAY;
      assert lo <= s.from <= hi && lo <= wall - s.zone(wall) <= hi;
      assert s.zone(wall - s.zone(wall)) - s.zone(s.from) < MS_PER_DAY;
      assert s.from + s.zone(s.from) < (StartDay(s) + 1) * MS_PER_DAY;
    }
  }

  lemma EligibleFromConstant(s: Search, day: int, offset: int)
    requires ValidSearch(s) && Constant(s.zone, offset)
    ensures day >= StartDay(s) + Delay(s, true) ==> IsEligible(Instant(s, day), s.from, s.atUtc, s.after)
    ensures day < StartDay(s) ==> !IsEligible(Instant(s, day), s.from, s.atUtc, s.after)
  {
    hide DayNumber;
    assert Instant(s, day) == WallMs(day, s.at.hour, s.at.minute) - offset;
    assert s.atUtc == WallMs(DayNumber(s.at.date), s.at.hour, s.at.minute) - offset;
    assert 0 <= s.at.hour * MS_PER_HOUR + s.at.minute * MS_PER_MINUTE < MS_PER_DAY;
    assert Shown(s.from, s.zone) == s.from + offset;
  }

  lemma {:induction false} FirstDue(s: Search, start: int, bound: int) returns (hit: int)
    requires start <= bound && Due(s, bound)
    ensures LeastDue(s, start, hit) && hit <= bound
    decreases bound - start
  {
    hide Due;
    if Due(s, start) {
      hit := start;
    } else {
      hit := FirstDue(s, start + 1, bound);
    }
  }

  // ---------- The main theorems ----------

  /** A validated, unpaused, recurring trigger in a zone with whole-second offsets under a day. */
  ghost predicate Recurring(trigger: Trigger, zones: ZoneTable) {
    && ValidTrigger(trigger) && trigger.Schedule?
    && trigger.recurrence.Some? && !IsPaused(trigger.paused)
    && Ordinary(zones(trigger.timezone))
    && Parse(trigger.at).Some? && IsCivil(Parse(trigger.at).value)
    && DayNumber(Parse(trigger.at).value.date) >= FIRST_EXACT_DAY
  }

  /** Apart from the zone's offsets, the schema asks for all of it but a date after the first two
      days of the year 100. */
  lemma ValidMeansRecurring(trigger: Trigger, zones: ZoneTable)
    requires ValidTrigger(trigger) && trigger.Schedule? && trigger.recurrence.Some? && !IsPaused(trigger.paused)
    requires Ordinary(zones(trigger.timezone))
    ensures Parse(trigger.at).Some? && IsCivil(Parse(trigger.at).value)
    ensures Recurring(trigger, zones) <==> DayNumber(Parse(trigger.at).value.date) >= FIRST_EXACT_DAY
  {
    hide DayNumber, ReadsBack, Ordinary, IsLocalDateTime;
    ValidMeansCalendarTime(trigger.at);
  }

  ghost function SearchOf(trigger: Trigger, zones: ZoneTable, from: int, after: bool): Search
    requires Recurring(trigger, zones)
  {
    var at := Parse(trigger.at).value;
    var zone := zones(trigger.timezone);
    var atUtc := TwoPass(WallMs(DayNumber(at.date), at.hour, at.minute), zone);
    Search(at, atUtc, trigger.recurrence.value, zone, from, after)
  }

  lemma NextRunScans(trigger: Trigger, zones: ZoneTable, from: int, after: bool)
    requires Recurring(trigger, zones)
    ensures var s := SearchOf(trigger, zones, from, after);
            ValidSearch(s) && NextRun(trigger, zones, from, after) == ScanFrom(s, CursorOn(s, StartDay(s)), 0)
  {
    hide ZonedLocalToUtc, Parse, DateOfDay, DayNumber, ScanFrom, Format, TwoPass, MonthLength, CivilOfMs;
    var s := SearchOf(trigger, zones, from, after);
    ConversionIsTwoPass(trigger.at, s.at, s.zone);
    DateRoundTrip(s.at.date);
    StartOnDay(s);
  }

  lemma StartOnDay(s: Search)
    requires IsCivil(s.at)
    ensures StartCursor(s) == CursorOn(s, StartDay(s))
  {
    hide DateOfDay, DayNumber;
    DateRoundTrip(s.at.date);
  }

  lemma ScanIsLeast(s: Search) returns (hit: int)
    requires ValidSearch(s) && Steady(s)
    ensures LeastDue(s, StartDay(s), hit) && hit <= StartDay(s) + 2 + LongestGap(s.recurrence)
    ensures ScanFrom(s, CursorOn(s, StartDay(s)), 0)
         == if Unprintable(s, StartDay(s), hit) then Throws else At(Instant(s, hit))
    ensures forall d :: StartDay(s) <= d && Due(s, d) ==> Instant(s, hit) <= Instant(s, d)
  {
    hide DayNumber, ScanFrom, Matches, Instant, IsEligible, CursorOn, StartDay, IsCivil, Unprintable;
    StartIsExact(s);
    var m := MatchWithin(s, StartDay(s) + Delay(s, false));
    EligibleFrom(s, m);
    hit := FirstDue(s, StartDay(s), m);
    ScanResult(s, StartDay(s), 0, hit);
    forall d | StartDay(s) <= d && Due(s, d) ensures Instant(s, hit) <= Instant(s, d) {
      if d > hit { ReachedIncrease(s, hit, d); }
    }
  }

  lemma ConstantIsSteady(s: Search, offset: int)
    requires IsCivil(s.at) && Constant(s.zone, offset)
    ensures Steady(s)
  {
  }

  /** The first match once every matching date is eligible bounds the hit. */
  lemma HitWithinConstant(s: Search, offset: int, hit: int)
    requires ValidSearch(s) && Steady(s) && Constant(s.zone, offset) && LeastDue(s, StartDay(s), hit)
    ensures StartDay(s) <= hit <= StartDay(s) + 31
  {
    hide DayNumber, Matches, Instant, IsEligible, StartDay, IsCivil, Constant, Steady;
    StartIsExact(s);
    var m := MatchWithin(s, StartDay(s) + Delay(s, true));
    EligibleFromConstant(s, m, offset);
    assert Due(s, m);
  }

  lemma ScanIsLeastConstant(s: Search, offset: int) returns (hit: int)
    requires ValidSearch(s) && Constant(s.zone, offset)
    ensures StartDay(s) <= hit <= StartDay(s) + 31 && Due(s, hit)
    ensures ScanFrom(s, CursorOn(s, StartDay(s)), 0)
         == if Unprintable(s, StartDay(s), hit) then Throws else At(Instant(s, hit))
    ensures forall d :: Due(s, d) ==> Instant(s, hit) <= Instant(s, d)
  {
    hide DayNumber, ScanFrom, Matches, Instant, IsEligible, CursorOn, StartDay, Unprintable, Constant, Steady;
    ConstantIsSteady(s, offset);
    hit := ScanIsLeast(s);
    HitWithinConstant(s, offset, hit);
    hide IsCivil, ValidSearch;
    forall d | Due(s, d) ensures Instant(s, hit) <= Instant(s, d) {
      EligibleFromConstant(s, d, offset);
    }
  }

  /** In every zone, unless its clocks cross the date line within days of the start: the result is the
      least due date from the start date on, within 33 dates, and no due date from there on fires
      earlier.  It fails only when a matching date up to there has a year that is not written in four
      digits. */
  lemma NextRunIsLeast(trigger: Trigger, zones: ZoneTable, from: int, after: bool, s: Search) returns (hit: int)
    requires Recurring(trigger, zones) && s == SearchOf(trigger, zones, from, after) && IsCivil(s.at) && Steady(s)
    ensures LeastDue(s, StartDay(s), hit) && hit <= StartDay(s) + 32
    ensures NextRun(trigger, zones, from, after)
         == if Unprintable(s, StartDay(s), hit) then Throws else At(Instant(s, hit))
    ensures forall d :: StartDay(s) <= d && Due(s, d) ==> Instant(s, hit) <= Instant(s, d)
  {
    hide SearchOf, Recurring, ScanFrom, NextRun, Due, LeastDue, Instant, StartDay, Unprintable, ValidSearch, IsCivil,
      Steady;
    NextRunScans(trigger, zones, from, after);
    hit := ScanIsLeast(s);
  }

  /** When the first date of the scan matches and its year is not written in four digits, it throws. */
  lemma FirstMatchThrows(trigger: Trigger, zones: ZoneTable, from: int, after: bool, s: Search)
    requires Recurring(trigger, zones) && s == SearchOf(trigger, zones, from, after) && IsCivil(s.at)
    requires Matches(s, StartDay(s)) && !(FIRST_DAY <= StartDay(s) <= LAST_DAY)
    ensures NextRun(trigger, zones, from, after) == Throws
  {
    hide SearchOf, Recurring, NextRun, StartDay, DateOfDay, DayNumber, ZonedLocalToUtc, Format, MatchesRecurrence;
    NextRunScans(trigger, zones, from, after);
    CursorConverts(s, StartDay(s));
  }

  lemma StartsOnItsDate(s: Search)
    requires IsCivil(s.at) && s.recurrence.Daily? && s.from < s.atUtc && s.atUtc == Instant(s, DayNumber(s.at.date))
    ensures StartDay(s) == DayNumber(s.at.date) && Due(s, StartDay(s))
  {
    hide DayNumber, Instant, DateOfDay;
  }

  /** The schema admits such triggers: asked from before its date, every daily one of the years 100 to 999
      throws, although a fire is due at that date and time. */
  lemma EarlyDailyThrows(trigger: Trigger, zones: ZoneTable, from: int, after: bool, s: Search)
    requires Recurring(trigger, zones) && s == SearchOf(trigger, zones, from, after) && IsCivil(s.at)
    requires s.recurrence.Daily? && s.at.date.year < 1000 && from < s.atUtc
    ensures Due(s, StartDay(s)) && NextRun(trigger, zones, from, after) == Throws
  {
    assert s.from == from;
    NextRunScans(trigger, zones, from, after);
    assert s.atUtc == Instant(s, DayNumber(s.at.date)) && IsDate(s.at.date);
    hide *;
    DateOrder(s.at.date, Date(1000, 1, 1));
    FirstOfYearThousand();
    StartsOnItsDate(s);
    DueMatches(s, StartDay(s));
    FirstMatchThrows(trigger, zones, from, after, s);
  }

  lemma DueMatches(s: Search, day: int)
    requires Due(s, day)
    ensures Matches(s, day)
  {
    hide Matches;
  }

  lemma FirstOfYearThousand()
    ensures IsDate(Date(1000, 1, 1)) && FIRST_DAY == DayNumber(Date(1000, 1, 1))
    ensures forall d: Date :: d.year < 1000 ==> Before(d, Date(1000, 1, 1))
  {
    hide DayNumber;
  }

  const EARLY: string := "0500-01-01T00:00"

  lemma EarlyDigits()
    ensures AllDigits("0500") && NumberOf("0500") == 500
    ensures AllDigits("01") && NumberOf("01") == 1 && AllDigits("00") && NumberOf("00") == 0
  {
    assert "0500"[..3] == "050" && "050"[..2] == "05" && "05"[..1] == "0" && "0"[..0] == "";
    assert "01"[..1] == "0" && "00"[..1] == "0";
  }

  lemma EarlySlices()
    ensures |EARLY| == 16 && EARLY[0..4] == "0500" && EARLY[5..7] == "01" && EARLY[8..10] == "01"
    ensures EARLY[11..13] == "00" && EARLY[14..16] == "00"
    ensures EARLY[4] == '-' && EARLY[7] == '-' && EARLY[10] == 'T' && EARLY[13] == ':'
  {
  }

  lemma EarlyParses()
    ensures Parse(EARLY) == Some(Civil(Date(500, 1, 1), 0, 0))
  {
    EarlySlices();
    EarlyDigits();
    hide NumberOf, AllDigits, EARLY;
  }

  lemma EarlyIsValid(trigger: Trigger, zones: ZoneTable)
    requires trigger == Schedule("UTC", EARLY, Some(Daily), None) && Constant(zones("UTC"), 0)
    ensures ValidTrigger(trigger) && Recurring(trigger, zones)
  {
    hide *;
    EarlyParses();
    EarlyDay();
    ConstantIsOrdinary(zones("UTC"));
    ValidMeansCalendarTime(EARLY);
    EarlyChecks(trigger);
    ValidMeansRecurring(trigger, zones);
  }

  lemma EarlyDay()
    ensures IsCivil(Civil(Date(500, 1, 1), 0, 0)) && DayNumber(Date(500, 1, 1)) >= FIRST_EXACT_DAY
  {
    DateOrder(Date(100, 1, 3), Date(500, 1, 1));
    assert DayNumber(Date(100, 1, 3)) == FIRST_EXACT_DAY;
    hide DayNumber;
  }

  lemma ConstantIsOrdinary(zone: Zone)
    requires Constant(zone, 0)
    ensures Ordinary(zone)
  {
  }

  lemma EarlyChecks(trigger: Trigger)
    requires trigger == Schedule("UTC", EARLY, Some(Daily), None) && IsValidLocalDateTime(EARLY)
    ensures ValidTrigger(trigger) && !IsPaused(trigger.paused)
  {
    hide IsValidLocalDateTime, EARLY;
  }

  lemma EarlySearch(trigger: Trigger, zones: ZoneTable, from: int, after: bool, s: Search)
    requires trigger == Schedule("UTC", EARLY, Some(Daily), None) && Constant(zones("UTC"), 0)
    requires Recurring(trigger, zones) && s == SearchOf(trigger, zones, from, after)
    requires Parse(EARLY) == Some(Civil(Date(500, 1, 1), 0, 0))
    ensures IsCivil(s.at) && s.at.date.year == 500 && s.recurrence.Daily?
    ensures s.atUtc == WallMs(DayNumber(Date(500, 1, 1)), 0, 0)
  {
    hide DayNumber, Parse, ValidTrigger, EARLY, WallMs;
  }

  /** It happens: a daily trigger that the schema admits, in UTC, throws from every instant before its
      own. */
  lemma EarlyTriggerThrows(trigger: Trigger, zones: ZoneTable, from: int, after: bool)
    requires trigger == Schedule("UTC", EARLY, Some(Daily), None) && Constant(zones("UTC"), 0)
    requires from < WallMs(DayNumber(Date(500, 1, 1)), 0, 0)
    ensures ValidTrigger(trigger) && NextRun(trigger, zones, from, after) == Throws
  {
    hide *;
    EarlyParses();
    EarlyIsValid(trigger, zones);
    var s := SearchOf(trigger, zones, from, after);
    EarlySearch(trigger, zones, from, after, s);
    EarlyDailyThrows(trigger, zones, from, after, s);
  }

  /** With a constant offset the scan ends within 32 dates and the result is the least over every
      date there is, also those before the start date. */
  lemma NextRunIsLeastConstant(trigger: Trigger, zones: ZoneTable, from: int, after: bool, s: Search, offset: int)
    returns (hit: int)
    requires Recurring(trigger, zones) && s == SearchOf(trigger, zones, from, after) && IsCivil(s.at)
    requires Constant(s.zone, offset)
    ensures Due(s, hit) && StartDay(s) <= hit <= StartDay(s) + 31
    ensures NextRun(trigger, zones, from, after)
         == if Unprintable(s, StartDay(s), hit) then Throws else At(Instant(s, hit))
    ensures forall d :: Due(s, d) ==> Instant(s, hit) <= Instant(s, d)
  {
    hide SearchOf, Recurring, ScanFrom, NextRun, Due, Instant, StartDay, Unprintable, ValidSearch, IsCivil, Constant,
      Steady;
    NextRunScans(trigger, zones, from, after);
    hit := ScanIsLeastConstant(s, offset);
  }

  // ---------- One schedule in numbers ----------

  const MONDAYS: string := "2025-01-06T09:00"
  const TOKYO_MS: int := 32_400_000
  const FIRST_MONDAY: int := 20_094

  lemma MondayDigits()
    ensures AllDigits("2025") && NumberOf("2025") == 2025
    ensures AllDigits("01") && NumberOf("01") == 1 && AllDigits("06") && NumberOf("06") == 6
    ensures AllDigits("09") && NumberOf("09") == 9 && AllDigits("00") && NumberOf("00") == 0
  {
    assert "2025"[..3] == "202" && "202"[..2] == "20" && "20"[..1] == "2" && "2"[..0] == "";
    assert "01"[..1] == "0" && "06"[..1] == "0" && "09"[..1] == "0" && "00"[..1] == "0" && "0"[..0] == "";
  }

  lemma MondaySlices()
    ensures |MONDAYS| == 16 && MONDAYS[0..4] == "2025" && MONDAYS[5..7] == "01" && MONDAYS[8..10] == "06"
    ensures MONDAYS[11..13] == "09" && MONDAYS[14..16] == "00"
    ensures MONDAYS[4] == '-' && MONDAYS[7] == '-' && MONDAYS[10] == 'T' && MONDAYS[13] == ':'
  {
  }

  lemma MondayParses()
    ensures Parse(MONDAYS) == Some(Civil(Date(2025, 1, 6), 9, 0))
  {
    MondaySlices();
    MondayDigits();
    hide NumberOf, AllDigits, MONDAYS;
  }

  lemma MondayIsValid()
    requires Parse(MONDAYS) == Some(Civil(Date(2025, 1, 6), 9, 0))
    ensures IsValidLocalDateTime(MONDAYS)
  {
    hide Parse, IsValidLocalDateTime, MONDAYS;
    ValidMeansCalendarTime(MONDAYS);
  }

  lemma MondayNumber()
    ensures DayNumber(Date(2025, 1, 6)) == FIRST_MONDAY
    ensures FIRST_EXACT_DAY < FIRST_MONDAY && FIRST_DAY <= FIRST_MONDAY && FIRST_MONDAY + 40 <= LAST_DAY
  {
    assert DayNumber(Date(2025, 1, 6)) == FIRST_MONDAY && DayNumber(Date(2026, 1, 6)) == FIRST_MONDAY + 365;
    hide DayNumber;
    FirstDayIsExact();
    DateOrder(Date(1000, 1, 1), Date(2025, 1, 6));
    DateOrder(Date(2026, 1, 6), Date(9999, 12, 31));
  }

  lemma MondayRecurs(trigger: Trigger, zones: ZoneTable)
    requires trigger == Schedule("Asia/Tokyo", MONDAYS, Some(Weekly([Mon])), None)
    requires Constant(zones("Asia/Tokyo"), TOKYO_MS)
    ensures Recurring(trigger, zones) && Parse(MONDAYS) == Some(Civil(Date(2025, 1, 6), 9, 0))
  {
    hide Parse, IsValidLocalDateTime, MONDAYS, DayNumber, FIRST_EXACT_DAY;
    MondayParses();
    MondayIsValid();
    MondayNumber();
  }

  lemma MondaySearch(trigger: Trigger, zones: ZoneTable, from: int, after: bool) returns (s: Search)
    requires trigger == Schedule("Asia/Tokyo", MONDAYS, Some(Weekly([Mon])), None)
    requires Constant(zones("Asia/Tokyo"), TOKYO_MS)
    ensures Recurring(trigger, zones) && s == SearchOf(trigger, zones, from, after) && ValidSearch(s)
    ensures IsCivil(s.at) && s.recurrence == Weekly([Mon]) && s.from == from && s.after == after
    ensures Constant(s.zone, TOKYO_MS) && s.at == Civil(Date(2025, 1, 6), 9, 0)
    ensures s.atUtc == FIRST_MONDAY * 86_400_000
    ensures forall day :: Instant(s, day) == day * 86_400_000
  {
    hide *;
    MondayRecurs(trigger, zones);
    MondayNumber();
    s := SearchOf(trigger, zones, from, after);
    NextRunScans(trigger, zones, from, after);
    MondayFields(trigger, zones, from, after, s);
    MondayInstants(s);
    MondayStart(s);
  }

  lemma MondayFields(trigger: Trigger, zones: ZoneTable, from: int, after: bool, s: Search)
    requires trigger == Schedule("Asia/Tokyo", MONDAYS, Some(Weekly([Mon])), None) && Recurring(trigger, zones)
    requires s == SearchOf(trigger, zones, from, after) && Parse(MONDAYS) == Some(Civil(Date(2025, 1, 6), 9, 0))
    ensures s.recurrence == Weekly([Mon]) && s.from == from && s.after == after && s.zone == zones("Asia/Tokyo")
    ensures s.at == Civil(Date(2025, 1, 6), 9, 0)
  {
    hide Parse, ValidTrigger, MONDAYS, DayNumber, FIRST_EXACT_DAY, TwoPass;
  }

  lemma MondayInstants(s: Search)
    requires Constant(s.zone, TOKYO_MS) && s.at == Civil(Date(2025, 1, 6), 9, 0)
    ensures forall day :: Instant(s, day) == day * 86_400_000
  {
    hide DayNumber;
  }

  lemma MondayStart(s: Search)
    requires ValidSearch(s) && s.at == Civil(Date(2025, 1, 6), 9, 0) && DayNumber(Date(2025, 1, 6)) == FIRST_MONDAY
    requires forall day :: Instant(s, day) == day * 86_400_000
    ensures IsCivil(s.at) && s.atUtc == FIRST_MONDAY * 86_400_000
  {
    hide Instant, DayNumber;
  }

  /** The first Monday from the start of the search on, or the next one if that one has just fired. */
  lemma MondayHit(s: Search, monday: int, hit: int)
    requires ValidSearch(s) && s.recurrence == Weekly([Mon]) && IsCivil(s.at) && Due(s, hit)
    requires forall day :: Instant(s, day) == day * 86_400_000
    requires FIRST_EXACT_DAY <= StartDay(s) <= hit && StartDay(s) <= monday && monday % 7 == 4
    requires monday <= StartDay(s) + 6 || (monday == StartDay(s) + 7 && s.after && s.from == Instant(s, monday - 7))
    requires s.atUtc <= Instant(s, monday) && s.from <= Instant(s, monday) && (s.after ==> s.from < Instant(s, monday))
    requires Due(s, monday) ==> Instant(s, hit) <= Instant(s, monday)
    ensures hit == monday
  {
    hide StartDay, Instant, Due, ValidSearch, MonthLength, DateOfDay;
    DueDates(s, monday);
    DueDates(s, hit);
  }

  lemma MondayFires(trigger: Trigger, zones: ZoneTable, from: int, after: bool, s: Search, monday: int)
    requires Recurring(trigger, zones) && s == SearchOf(trigger, zones, from, after) && ValidSearch(s)
    requires s.recurrence == Weekly([Mon]) && Constant(s.zone, TOKYO_MS)
    requires forall day :: Instant(s, day) == day * 86_400_000
    requires FIRST_MONDAY <= StartDay(s) <= monday <= FIRST_MONDAY + 40 && monday % 7 == 4
    requires monday <= StartDay(s) + 6 || (monday == StartDay(s) + 7 && s.after && s.from == Instant(s, monday - 7))
    requires s.atUtc <= Instant(s, monday) && s.from <= Instant(s, monday) && (s.after ==> s.from < Instant(s, monday))
    ensures NextRun(trigger, zones, from, after) == At(monday * 86_400_000)
  {
    hide Recurring, SearchOf, NextRun, StartDay, Due, Instant, Constant, DayNumber, FIRST_DAY, LAST_DAY,
      FIRST_EXACT_DAY;
    MondayNumber();
    var hit := NextRunIsLeastConstant(trigger, zones, from, after, s, TOKYO_MS);
    MondayHit(s, monday, hit);
  }

  /** In numbers: every Monday at 09:00 in Tokyo, which is midnight UTC.  From 1 January 2025 on the first
      fire is on the 6th, and the one after it on the 13th. */
  lemma MondaysInTokyo(trigger: Trigger, zones: ZoneTable)
    requires trigger == Schedule("Asia/Tokyo", "2025-01-06T09:00", Some(Weekly([Mon])), None)
    requires Constant(zones("Asia/Tokyo"), 32_400_000)
    ensures NextRun(trigger, zones, 1_735_689_600_000, false) == At(1_736_121_600_000)
    ensures NextRun(trigger, zones, 1_736_121_600_000, true) == At(1_736_726_400_000)
  {
    hide NextRun, Recurring, SearchOf, Instant, ValidSearch;
    var s := MondaySearch(trigger, zones, 1_735_689_600_000, false);
    MondayNumber();
    MondayFires(trigger, zones, 1_735_689_600_000, false, s, FIRST_MONDAY);
    var t := MondaySearch(trigger, zones, 1_736_121_600_000, true);
    MondayFires(trigger, zones, 1_736_121_600_000, true, t, FIRST_MONDAY + 7);
  }

  /** Over the instants a search can reach: clocks that neither show an earlier date later on, nor push a
      fire past its own date. */
  ghost predicate KeepsDates(s: Search)
    requires IsCivil(s.at)
  {
    && (forall t, u :: (StartDay(s) - 5) * MS_PER_DAY <= t <= u <= (StartDay(s) + 5) * MS_PER_DAY ==>
          DayOf(Shown(t, s.zone)) <= DayOf(Shown(u, s.zone)))
    && (forall d :: StartDay(s) - 3 < d < StartDay(s) ==> DayOf(Shown(Instant(s, d), s.zone)) <= d)
  }

  lemma WallDay(day: int, hour: int, minute: int)
    requires IsClock(hour, minute)
    ensures DayOf(WallMs(day, hour, minute)) == day
    ensures day * MS_PER_DAY <= WallMs(day, hour, minute) < (day + 1) * MS_PER_DAY
  {
    CivilOfClock(WallMs(day, hour, minute), day, hour, minute);
  }

  lemma ConstantKeepsDates(s: Search, offset: int)
    requires IsCivil(s.at) && Constant(s.zone, offset)
    ensures KeepsDates(s) && Steady(s)
  {
    ConstantIsSteady(s, offset);
    hide DateOfDay, DayNumber, StartDay, Steady;
    forall d ensures DayOf(Shown(Instant(s, d), s.zone)) == d {
      WallDay(d, s.at.hour, s.at.minute);
    }
  }

  /** Daylight saving, year after year, keeps dates as long as it changes the clocks away from midnight:
      see `ZonedTime.ListIsMild`. */
  lemma MildZoneKeepsDates(s: Search)
    requires IsCivil(s.at)
    requires forall t :: (StartDay(s) - 5) * MS_PER_DAY <= t <= (StartDay(s) + 5) * MS_PER_DAY ==> MildAround(s.zone, t)
    ensures KeepsDates(s)
  {
    hide DateOfDay, MildAround, DayOf, Shown, StartDay, DayNumber, TwoPass, WallMs;
    var lo, hi := (StartDay(s) - 5) * MS_PER_DAY, (StartDay(s) + 5) * MS_PER_DAY;
    forall t, u | lo <= t <= u <= hi ensures DayOf(Shown(t, s.zone)) <= DayOf(Shown(u, s.zone)) {
      DatesInOrder(s.zone, t, u);
    }
    forall d | StartDay(s) - 3 < d < StartDay(s) ensures DayOf(Shown(Instant(s, d), s.zone)) <= d {
      WallDay(d, s.at.hour, s.at.minute);
      FireKeepsDate(s.zone, WallMs(d, s.at.hour, s.at.minute));
    }
  }

  /** Where no offset change around the start moves a clock across midnight, or the date line, the
      result is the least over every date. */
  lemma NextRunIsLeastOverall(trigger: Trigger, zones: ZoneTable, from: int, after: bool, s: Search) returns (hit: int)
    requires Recurring(trigger, zones) && s == SearchOf(trigger, zones, from, after) && IsCivil(s.at)
    requires Steady(s) && KeepsDates(s)
    ensures Due(s, hit)
    ensures NextRun(trigger, zones, from, after)
         == if Unprintable(s, StartDay(s), hit) then Throws else At(Instant(s, hit))
    ensures forall d :: Due(s, d) ==> Instant(s, hit) <= Instant(s, d)
  {
    NextRunScans(trigger, zones, from, after);
    hide SearchOf, Recurring, ScanFrom, NextRun, Instant, Unprintable, IsCivil, Matches, DayNumber, DayOf, Shown,
      Steady, KeepsDates, ValidSearch, StartDay;
    hit := NextRunIsLeast(trigger, zones, from, after, s);
    forall d | d < StartDay(s) ensures !Due(s, d) {
      EarlierNotDue(s, d);
    }
  }

  lemma EarlierNotDue(s: Search, day: int)
    requires ValidSearch(s) && Steady(s) && KeepsDates(s) && day < StartDay(s)
    ensures !Due(s, day)
  {
    if s.from < s.atUtc {
      hide Instant, Matches, DayNumber, DayOf, Shown, KeepsDates, Steady;
      ReachedIncrease(s, day, DayNumber(s.at.date));
    } else if day <= StartDay(s) - 3 {
      hide Matches, DayNumber, KeepsDates, Steady;
      WallDay(day, s.at.hour, s.at.minute);
      assert s.from > (StartDay(s) - 1) * MS_PER_DAY;
    } else {
      FireIsNear(s, day);
      hide Instant, Matches, DayNumber, DayOf, Shown, Steady;
      var fire := Instant(s, day);
      assert s.from <= fire ==> DayOf(Shown(s.from, s.zone)) <= DayOf(Shown(fire, s.zone));
      assert DayOf(Shown(fire, s.zone)) <= day;
    }
  }

  lemma FireIsNear(s: Search, day: int)
    requires IsCivil(s.at) && UnderADay(s.zone) && s.from >= s.atUtc
    ensures (StartDay(s) - 5) * MS_PER_DAY <= s.from <= (StartDay(s) + 5) * MS_PER_DAY
    ensures StartDay(s) - 3 < day < StartDay(s) ==>
              (StartDay(s) - 5) * MS_PER_DAY <= Instant(s, day) <= (StartDay(s) + 5) * MS_PER_DAY
  {
    hide DayNumber;
    WallDay(day, s.at.hour, s.at.minute);
  }

  // ---------- Every fire once ----------

  lemma {:induction false} ScanIsEligible(s: Search, cursor: Civil, i: nat)
    requires i <= SCAN_DAYS && ScanFrom(s, cursor, i).At?
    ensures IsEligible(ScanFrom(s, cursor, i).instant, s.from, s.atUtc, s.after)
    decreases SCAN_DAYS - i
  {
    hide NextCursor, MatchesRecurrence, ZonedLocalToUtc, Format, IsEligible;
    if ScanFrom(s, cursor, i) == ScanFrom(s, NextCursor(s, cursor), i + 1) {
      ScanIsEligible(s, NextCursor(s, cursor), i + 1);
    }
  }

  /** Whatever the trigger and the zone: a fire is never before the start, and with `after` it is
      strictly later, so no instant fires twice in a chain of fires. */
  lemma FiresMoveForward(trigger: Trigger, zones: ZoneTable, from: int, after: bool)
    requires NextRun(trigger, zones, from, after).At?
    ensures var fire := NextRun(trigger, zones, from, after).instant;
            if after then fire > from else fire >= from
  {
    hide ScanFrom, OffsetMs, DateUtc, StartCursor;
    if trigger.recurrence.Some? {
      var at, zone := Parse(trigger.at).value, zones(trigger.timezone);
      var s := Search(at, ZonedLocalToUtc(trigger.at, zone).value, trigger.recurrence.value, zone, from, after);
      ScanIsEligible(s, StartCursor(s), 0);
    }
  }

  /** The `n`-th fire after the one at `fired`, each computed from the last with `after` set. */
  function FireAfter(trigger: Trigger, zones: ZoneTable, fired: int, n: nat): Fire
    decreases n
  {
    hide NextRun;
    if n == 0 then At(fired)
    else
      match NextRun(trigger, zones, fired, true)
      case At(next) => FireAfter(trigger, zones, next, n - 1)
      case NoFire => NoFire
      case Throws => Throws
  }

  /** How many matching dates lie after `early` up to and including `late`. */
  function MatchesBetween(s: Search, early: int, late: int): nat
    decreases late - early
  {
    if early >= late then 0
    else (if Matches(s, early + 1) then 1 else 0) + MatchesBetween(s, early + 1, late)
  }

  lemma NearStart(s: Search, fired: int)
    requires ValidSearch(s) && fired >= DayNumber(s.at.date) && s.from == Instant(s, fired)
    requires SteadyOver(s.zone, fired - 3, fired + 3)
    ensures s.from >= s.atUtc && fired - 1 <= StartDay(s) <= fired + 1
  {
    hide DayNumber, SteadyOver, ValidRecurrence;
    if fired > DayNumber(s.at.date) {
      if fired == DayNumber(s.at.date) + 1 { SteadyWithin(s.zone, fired - 3, fired + 3, fired - 2, fired + 2); }
      InstantsIncrease(s, DayNumber(s.at.date), fired);
    }
    ShownNear(s, fired);
  }

  lemma ShownNear(s: Search, fired: int)
    requires IsClock(s.at.hour, s.at.minute) && UnderADay(s.zone) && s.from == Instant(s, fired)
    requires SteadyOver(s.zone, fired - 3, fired + 3)
    ensures fired - 1 <= DayOf(Shown(s.from, s.zone)) <= fired + 1
  {
    var wall := WallMs(fired, s.at.hour, s.at.minute);
    WallDay(fired, s.at.hour, s.at.minute);
    var guess := wall - s.zone(wall);
    var lo, hi := (fired - 3) * MS_PER_DAY, (fired + 3) * MS_PER_DAY;
    assert lo <= guess <= hi && lo <= s.from <= hi;
    assert s.zone(guess) - s.zone(s.from) < MS_PER_DAY && s.zone(s.from) - s.zone(guess) < MS_PER_DAY;
    assert Shown(s.from, s.zone) == wall - s.zone(guess) + s.zone(s.from);
  }

  lemma ScanNextMatch(s: Search, fired: int, next: int)
    requires ValidSearch(s) && s.after && s.from == Instant(s, fired)
    requires fired >= DayNumber(s.at.date) && SteadyOver(s.zone, fired - 6, fired + 41)
    requires fired < next && Matches(s, next) && forall d :: fired < d < next ==> !Matches(s, d)
    requires FIRST_DAY < fired && next <= LAST_DAY
    ensures ScanFrom(s, CursorOn(s, StartDay(s)), 0) == At(Instant(s, next))
  {
    hide ScanFrom, Instant, Matches, DayNumber, StartDay, CursorOn, SteadyOver;
    SteadyWithin(s.zone, fired - 6, fired + 41, fired - 3, fired + 3);
    NearStart(s, fired);
    SteadyWithin(s.zone, fired - 6, fired + 41, StartDay(s) - 5, StartDay(s) + 40);
    var hit := ScanIsLeast(s);
    DueMeansLater(s, fired, hit);
    DueMeansLater(s, fired, next);
    assert Due(s, next) && hit == next;
  }

  lemma DueMeansLater(s: Search, fired: int, day: int)
    requires ValidSearch(s) && Steady(s) && s.after && s.from == Instant(s, fired) && s.from >= s.atUtc
    requires StartDay(s) - 1 <= fired <= StartDay(s) + 1
    ensures Due(s, day) <==> Matches(s, day) && day > fired
  {
    hide Instant, Matches, DayNumber, Steady, StartDay;
    if day > fired { ReachedIncrease(s, fired, day); }
    if day < fired { ReachedIncrease(s, day, fired); }
  }

  /** In any zone, DST or not, whose clocks do not cross the date line just then: from the fire of one
      matching date the next fire is that of the next matching date. */
  lemma NextFireIsNextMatch(trigger: Trigger, zones: ZoneTable, from: int, s: Search, fired: int, next: int)
    requires Recurring(trigger, zones) && s == SearchOf(trigger, zones, from, true)
    requires from == Instant(s, fired) && ValidSearch(s) && fired >= DayNumber(s.at.date)
    requires SteadyOver(s.zone, fired - 6, fired + 41)
    requires fired < next && Matches(s, next) && forall d :: fired < d < next ==> !Matches(s, d)
    requires FIRST_DAY < fired && next <= LAST_DAY
    ensures NextRun(trigger, zones, from, true) == At(Instant(s, next))
  {
    hide Recurring, ScanFrom, NextRun, Instant, IsCivil, Matches, DayNumber, StartDay, ValidSearch, SteadyOver;
    NextRunScans(trigger, zones, from, true);
    ScanNextMatch(s, fired, next);
  }

  ghost function Base(trigger: Trigger, zones: ZoneTable): Search
    requires Recurring(trigger, zones)
  {
    SearchOf(trigger, zones, 0, true)
  }

  lemma SameDates(trigger: Trigger, zones: ZoneTable, from: int, after: bool, day: int)
    requires Recurring(trigger, zones)
    ensures var s := SearchOf(trigger, zones, from, after);
            && Matches(s, day) == Matches(Base(trigger, zones), day)
            && Instant(s, day) == Instant(Base(trigger, zones), day) && s.zone == Base(trigger, zones).zone
            && s.at == Base(trigger, zones).at && s.from == from && ValidSearch(s)
  {
    NextRunScans(trigger, zones, from, after);
    hide MatchesRecurrence, DateOfDay, TwoPass, DayNumber;
  }

  lemma {:induction false} FirstMatch(s: Search, early: int, late: int) returns (next: int)
    requires early < late && Matches(s, late)
    ensures early < next <= late && Matches(s, next) && forall d :: early < d < next ==> !Matches(s, d)
    ensures MatchesBetween(s, early, late) == 1 + MatchesBetween(s, next, late)
    decreases late - early
  {
    hide Matches;
    if Matches(s, early + 1) {
      next := early + 1;
    } else {
      next := FirstMatch(s, early + 1, late);
    }
  }

  /** The chain of fires enumerates the matching dates: the date with `n` matching dates between the
      first one and itself is fired `n`-th.  Nothing is skipped, whatever the offset changes, as long
      as the clocks do not cross the date line meanwhile. */
  lemma {:induction false} EveryMatchFires(trigger: Trigger, zones: ZoneTable, first: int, day: int)
    requires Recurring(trigger, zones)
    requires var s := Base(trigger, zones);
             && IsCivil(s.at) && Matches(s, first) && Matches(s, day) && DayNumber(s.at.date) <= first <= day
             && SteadyOver(s.zone, first - 6, day + 41)
    requires FIRST_DAY < first && day <= LAST_DAY
    ensures var s := Base(trigger, zones);
            FireAfter(trigger, zones, Instant(s, first), MatchesBetween(s, first, day)) == At(Instant(s, day))
    decreases day - first
  {
    hide SearchOf, Recurring, ScanFrom, NextRun, Instant, IsCivil, Matches, DayNumber, SteadyOver;
    var s := Base(trigger, zones);
    if first < day {
      var next := FirstMatch(s, first, day);
      var from := Instant(s, first);
      var t := SearchOf(trigger, zones, from, true);
      SteadyWithin(s.zone, first - 6, day + 41, first - 6, first + 41);
      SteadyWithin(s.zone, first - 6, day + 41, next - 6, day + 41);
      forall d ensures Matches(t, d) == Matches(s, d) && Instant(t, d) == Instant(s, d)
                    && t.at == s.at && t.zone == s.zone && ValidSearch(t) {
        SameDates(trigger, zones, from, true, d);
      }
      NextFireIsNextMatch(trigger, zones, from, t, first, next);
      EveryMatchFires(trigger, zones, next, day);
    }
  }

  lemma DueIsNotBeforeAt(s: Search, day: int)
    requires ValidSearch(s) && Steady(s) && Due(s, day) && StartDay(s) <= day <= StartDay(s) + 32
    ensures day >= DayNumber(s.at.date)
  {
    hide DayNumber, Instant, Matches, Steady, StartDay;
    if day < DayNumber(s.at.date) { ReachedIncrease(s, day, DayNumber(s.at.date)); }
  }

  /** From any start: the first fire, and the chain from it, reach every date that is due from the
      start date on. */
  lemma EveryLaterFire(trigger: Trigger, zones: ZoneTable, from: int, after: bool, s: Search, day: int) returns (n: nat)
    requires Recurring(trigger, zones) && s == SearchOf(trigger, zones, from, after) && IsCivil(s.at)
    requires FIRST_DAY < StartDay(s) <= day <= LAST_DAY && Due(s, day)
    requires SteadyOver(s.zone, StartDay(s) - 6, day + 41)
    ensures NextRun(trigger, zones, from, after).At?
    ensures FireAfter(trigger, zones, NextRun(trigger, zones, from, after).instant, n) == At(Instant(s, day))
  {
    hide Recurring, SearchOf, ScanFrom, NextRun, Instant, IsCivil, Matches, DayNumber, StartDay, SteadyOver;
    SteadyWithin(s.zone, StartDay(s) - 6, day + 41, StartDay(s) - 5, StartDay(s) + 40);
    var hit := NextRunIsLeast(trigger, zones, from, after, s);
    SteadyWithin(s.zone, StartDay(s) - 6, day + 41, hit - 6, day + 41);
    var base := Base(trigger, zones);
    forall d ensures Matches(s, d) == Matches(base, d) && Instant(s, d) == Instant(base, d)
                     && s.at == base.at && s.zone == base.zone && ValidSearch(s) {
      SameDates(trigger, zones, from, after, d);
    }
    DueIsNotBeforeAt(s, hit);
    n := MatchesBetween(base, hit, day);
    EveryMatchFires(trigger, zones, hit, day);
  }

  /** A one-shot fires at its own instant at most once: at it while it is ahead, then never again. */
  lemma OneShotFiresOnce(trigger: Trigger, zones: ZoneTable, from: int)
    requires ValidTrigger(trigger) && trigger.Schedule? && trigger.recurrence.None? && !IsPaused(trigger.paused)
    ensures ZonedLocalToUtc(trigger.at, zones(trigger.timezone)).Some?
    ensures var at := ZonedLocalToUtc(trigger.at, zones(trigger.timezone)).value;
            && NextRun(trigger, zones, from, false) == (if from <= at then At(at) else NoFire)
            && NextRun(trigger, zones, at, true) == NoFire
            && (OneShotMustBeFutureError(trigger, zones, from).Acceptable?
                <==> NextRun(trigger, zones, from, true) == At(at))
  {
    hide ReadsBack, OffsetMs, DateUtc, IsLocalDateTime;
  }

  /** A trigger for now, and a paused one, never fire by the clock; leaving `paused` out means false. */
  lemma SilentTriggers(timezone: string, at: string, recurrence: Option<Recurrence>, zones: ZoneTable, from: int,
                       after: bool)
    ensures NextRun(Now, zones, from, after) == NoFire
    ensures NextRun(Schedule(timezone, at, recurrence, Some(true)), zones, from, after) == NoFire
    ensures NextRun(Schedule(timezone, at, recurrence, Some(false)), zones, from, after)
         == NextRun(Schedule(timezone, at, recurrence, None), zones, from, after)
    ensures recurrence.Some? && Parse(at).None? ==>
              NextRun(Schedule(timezone, at, recurrence, None), zones, from, after) == Throws
  {
    hide ScanFrom, Parse, StartCursor, ZonedLocalToUtc;
  }

  /** What the future check says of any trigger: it refuses only unpaused one-shots, those whose instant is not
      after `now`, and fails on one whose time it cannot read. */
  lemma FutureCheckSays(trigger: Trigger, zones: ZoneTable, now: int)
    ensures var check := OneShotMustBeFutureError(trigger, zones, now);
            if trigger.Schedule? && trigger.paused != Some(true) && trigger.recurrence.None? then
              var at := ZonedLocalToUtc(trigger.at, zones(trigger.timezone));
              && (check.CheckThrows? <==> at.None?)
              && (check.Acceptable? <==> at.Some? && now < at.value)
            else check.Acceptable?
  {
    hide ZonedLocalToUtc;
  }

  // ---------- Equal rules, equal fires ----------

  lemma {:induction false} SameDaysScanAlike(s: Search, t: Search, cursor: Civil, i: nat)
    requires i <= SCAN_DAYS
    requires s.recurrence.Weekly? && t.recurrence.Weekly?
    requires DaySet(s.recurrence.days) == DaySet(t.recurrence.days)
    requires t == s.(recurrence := t.recurrence)
    ensures ScanFrom(s, cursor, i) == ScanFrom(t, cursor, i)
    decreases SCAN_DAYS - i
  {
    hide AddUtcDays, ZonedLocalToUtc, Format, IsEligible, WeekdayOfCivilDate;
    if i < SCAN_DAYS {
      SameDaysScanAlike(s, t, NextCursor(s, cursor), i + 1);
      assert WeekdayOfCivilDate(cursor.date) in s.recurrence.days
        <==> WeekdayOfCivilDate(cursor.date) in DaySet(s.recurrence.days);
      assert WeekdayOfCivilDate(cursor.date) in t.recurrence.days
        <==> WeekdayOfCivilDate(cursor.date) in DaySet(t.recurrence.days);
    }
  }

  /** Triggers that compare equal fire at the same instants, from every start. */
  lemma EqualTriggersFireAlike(left: Trigger, right: Trigger, zones: ZoneTable, from: int, after: bool)
    requires ValidTrigger(left) && ValidTrigger(right) && TaskTriggersEqual(left, right)
    ensures NextRun(left, zones, from, after) == NextRun(right, zones, from, after)
  {
    EqualMeansSameRules(left, right);
    if left.Schedule? && left.recurrence != right.recurrence {
      ValidMeansCalendarTime(left.at);
      WeeklySetsFireAlike(left.timezone, left.at, left.recurrence.value.days, right.recurrence.value.days,
                          left.paused, right.paused, zones, from, after);
    } else if left.Schedule? {
      hide NextRun, ValidTrigger, TaskTriggersEqual;
      PausedAlike(left.timezone, left.at, left.recurrence, left.paused, right.paused, zones, from, after);
    }
  }

  lemma PausedAlike(timezone: string, at: string, recurrence: Option<Recurrence>, p: Option<bool>, q: Option<bool>,
                    zones: ZoneTable, from: int, after: bool)
    requires IsPaused(p) == IsPaused(q)
    ensures NextRun(Schedule(timezone, at, recurrence, p), zones, from, after)
         == NextRun(Schedule(timezone, at, recurrence, q), zones, from, after)
  {
    hide ScanFrom, ZonedLocalToUtc, Parse, StartCursor;
  }

  lemma WeeklySetsFireAlike(timezone: string, at: string, l: seq<Weekday>, r: seq<Weekday>, p: Option<bool>,
                            q: Option<bool>, zones: ZoneTable, from: int, after: bool)
    requires Parse(at).Some? && IsPaused(p) == IsPaused(q) && DaySet(l) == DaySet(r)
    ensures NextRun(Schedule(timezone, at, Some(Weekly(l)), p), zones, from, after)
         == NextRun(Schedule(timezone, at, Some(Weekly(r)), q), zones, from, after)
  {
    hide ScanFrom, OffsetMs, DateUtc, CivilOfMs, DaySet, PartsInZone, IsLocalDateTime;
    if !IsPaused(p) {
      var zone := zones(timezone);
      var s := Search(Parse(at).value, ZonedLocalToUtc(at, zone).value, Weekly(l), zone, from, after);
      SameDaysScanAlike(s, s.(recurrence := Weekly(r)), StartCursor(s), 0);
      assert StartCursor(s) == StartCursor(s.(recurrence := Weekly(r)));
    }
  }

  /** An edit that leaves the fire rules alone keeps a stored cursor that is right for the edited
      trigger too.  One that changes them resets the schedule's state and stores exactly the edited
      trigger's next fire from `now`, or none where it has none; it fails where that search throws. */
  lemma EditKeepsCursor(existing: Trigger, merged: Trigger, zones: ZoneTable, stored: Option<int>, now: int,
                        computedAt: int, after: bool)
    requires ValidTrigger(existing) && ValidTrigger(merged)
    requires stored == StoredCursor(NextRun(existing, zones, computedAt, after))
    ensures var u := NextRunAtAfterUpdate(existing, stored, merged, zones, now);
            var fire := NextRun(merged, zones, now, false);
            && (SameRules(existing, merged) ==>
                  u.Some? && !u.value.resetScheduleState
                  && forall t :: u.value.nextRunAt == Some(t) <==> NextRun(merged, zones, computedAt, after) == At(t))
            && (!SameRules(existing, merged) ==>
                  && (u.None? <==> fire.Throws?)
                  && (u.Some? ==>
                        && u.value.resetScheduleState
                        && (forall t :: u.value.nextRunAt == Some(t) <==> fire == At(t))
                        && (forall t :: u.value.nextRunAt == Some(t) ==> t >= now)))
  {
    hide NextRun, ValidTrigger, SameRules, TaskTriggersEqual;
    EqualMeansSameRules(existing, merged);
    if TaskTriggersEqual(existing, merged) {
      EqualTriggersFireAlike(existing, merged, zones, computedAt, after);
    } else if NextRun(merged, zones, now, false).At? {
      FiresMoveForward(merged, zones, now, false);
    }
  }
}
