/** When a recurring task fires next: a bounded scan over civil dates in the task's time zone. */
module NextRunAt {
  import opened Options
  import opened Calendar
  import opened LocalDateTime
  import opened ZonedTime
  import opened TaskTrigger

  /** Offsets of every time zone, by name. */
  type ZoneTable = string -> Zone

  /** `Throws` stands for the error a helper raises on a string it cannot parse. */
  datatype Fire = NoFire | At(instant: int) | Throws

  const SCAN_DAYS: int := 400

  // ---------- The helpers ----------

  function AddUtcDays(c: Civil, days: int): Civil {
    CivilOfMs(DateUtc(c.date.year, c.date.month - 1, c.date.day + days, c.hour, c.minute, 0))
  }

  function WeekdayOfCivilDate(d: Date): Weekday {
    WEEKDAYS[WeekdayIndex(DayOf(DateUtc(d.year, d.month - 1, d.day, 0, 0, 0)))]
  }

  predicate MatchesRecurrence(d: Date, atDay: int, recurrence: Recurrence) {
    match recurrence
    case Daily => true
    case Weekly(days) => WeekdayOfCivilDate(d) in days
    case Monthly =>
      var lastDay := DaysInMonth(d.year, d.month);
      d.day == if atDay < lastDay then atDay else lastDay
  }

  predicate IsEligible(instant: int, from: int, atUtc: int, after: bool) {
    if instant < atUtc then false
    else if after then instant > from
    else instant >= from
  }

  /** What one call of the scan holds fixed. */
  datatype Search = Search(at: Civil, atUtc: int, recurrence: Recurrence, zone: Zone, from: int, after: bool)

  /** Where the scan starts: the date of `at`, or the date the zone shows at `from` once that is past. */
  function StartCursor(s: Search): Civil {
    var start := if s.from < s.atUtc then s.at.date else PartsInZone(s.from, s.zone).civil.date;
    Civil(start, s.at.hour, s.at.minute)
  }

  function NextCursor(s: Search, cursor: Civil): Civil {
    Civil(AddUtcDays(Civil(cursor.date, 0, 0), 1).date, s.at.hour, s.at.minute)
  }

  /** The scan from its `i`-th date on. */
  function ScanFrom(s: Search, cursor: Civil, i: nat): Fire
    requires i <= SCAN_DAYS
    decreases SCAN_DAYS - i
  {
    if i == SCAN_DAYS then NoFire
    else if MatchesRecurrence(cursor.date, s.at.date.day, s.recurrence) then
      match ZonedLocalToUtc(Format(cursor), s.zone)
      case None => Throws
      case Some(instant) =>
        if IsEligible(instant, s.from, s.atUtc, s.after) then At(instant)
        else ScanFrom(s, NextCursor(s, cursor), i + 1)
    else ScanFrom(s, NextCursor(s, cursor), i + 1)
  }

  function NextRun(trigger: Trigger, zones: ZoneTable, from: int, after: bool): Fire {
    if trigger.Now? || IsPaused(trigger.paused) then NoFire
    else
      match Parse(trigger.at)
      case None => Throws
      case Some(at) =>
        var zone := zones(trigger.timezone);
        var atUtc := ZonedLocalToUtc(trigger.at, zone).value;
        match trigger.recurrence
        case None => if IsEligible(atUtc, from, atUtc, after) then At(atUtc) else NoFire
        case Some(recurrence) =>
          var s := Search(at, atUtc, recurrence, zone, from, after);
          ScanFrom(s, StartCursor(s), 0)
  }

  /** `nextRunAt`: a cursor moved day by day, at most 400 times. */
  method ComputeNextRunAt(trigger: Trigger, zones: ZoneTable, from: int, after: bool) returns (fire: Fire)
    ensures fire == NextRun(trigger, zones, from, after)
  {
    hide AddUtcDays, PartsInZone, OffsetMs, DateUtc, MatchesRecurrence, Format;
    if trigger.Now? || IsPaused(trigger.paused) {
      return NoFire;
    }
    var parsed := Parse(trigger.at);
    if parsed.None? {
      return Throws;
    }
    var at, zone := parsed.value, zones(trigger.timezone);
    var atUtc := ZonedLocalToUtc(trigger.at, zone).value;
    if trigger.recurrence.None? {
      return if IsEligible(atUtc, from, atUtc, after) then At(atUtc) else NoFire;
    }
    ghost var s := Search(at, atUtc, trigger.recurrence.value, zone, from, after);
    var start := if from < atUtc then at.date else PartsInZone(from, zone).civil.date;
    var cursor := Civil(start, at.hour, at.minute);
    for i := 0 to SCAN_DAYS
      invariant ScanFrom(s, cursor, i) == NextRun(trigger, zones, from, after)
    {
      if MatchesRecurrence(cursor.date, at.date.day, trigger.recurrence.value) {
        var instant := ZonedLocalToUtc(Format(cursor), zone);
        if instant.None? {
          return Throws;
        }
        if IsEligible(instant.value, from, atUtc, after) {
          return At(instant.value);
        }
      }
      cursor := AddUtcDays(Civil(cursor.date, 0, 0), 1);
      cursor := Civil(cursor.date, at.hour, at.minute);
    }
    return NoFire;
  }

  /** What the caller of the future check sees; `CheckThrows` as for `Fire`. */
  datatype FutureCheck = Acceptable | NotInFuture | CheckThrows

  /** Refuses an unpaused one-shot that is not in the future. */
  function OneShotMustBeFutureError(trigger: Trigger, zones: ZoneTable, now: int): FutureCheck {
    if trigger.Now? || IsPaused(trigger.paused) || trigger.recurrence.Some? then Acceptable
    else
      match ZonedLocalToUtc(trigger.at, zones(trigger.timezone))
      case None => CheckThrows
      case Some(at) => if at <= now then NotInFuture else Acceptable
  }

  datatype Update = Update(nextRunAt: Option<int>, resetScheduleState: bool)

  function StoredCursor(fire: Fire): Option<int> {
    if fire.At? then Some(fire.instant) else None
  }

  /** An edit of a saved task; None stands for the error the recomputation may throw. */
  function NextRunAtAfterUpdate(existing: Trigger, stored: Option<int>, merged: Trigger, zones: ZoneTable, now: int)
    : Option<Update>
  {
    if TaskTriggersEqual(existing, merged) then Some(Update(stored, false))
    else
      var fire := NextRun(merged, zones, now, false);
      if fire.Throws? then None else Some(Update(StoredCursor(fire), true))
  }

  // ---------- The scan on day numbers ----------

  /** Adding days moves the day number by that many and keeps the clock, across months and years. */
  lemma AddUtcDaysMoves(c: Civil, days: int)
    requires IsCivil(c) && c.date.year >= 100
    ensures AddUtcDays(c, days) == Civil(DateOfDay(DayNumber(c.date) + days), c.hour, c.minute)
  {
    hide CivilOfMs, DateUtc, DateOfDay, DayNumber;
    var moved := Date(c.date.year, c.date.month, c.date.day + days);
    DateUtcParts(moved, c.hour, c.minute, 0);
    MovedDayNumber(c.date, days);
    CivilOfClock(DateUtc(c.date.year, c.date.month - 1, c.date.day + days, c.hour, c.minute, 0),
                 DayNumber(c.date) + days, c.hour, c.minute);
  }

  /** Steps add up: two moves are one move by the sum, and no move is none. */
  lemma AddUtcDaysComposes(c: Civil, first: int, second: int)
    requires IsCivil(c) && c.date.year >= 100
    requires AddUtcDays(c, first).date.year >= 100
    ensures AddUtcDays(AddUtcDays(c, first), second) == AddUtcDays(c, first + second)
    ensures AddUtcDays(c, 0) == c
  {
    hide AddUtcDays, DateOfDay, DayNumber;
    AddUtcDaysMoves(c, first); AddUtcDaysMoves(c, first + second); AddUtcDaysMoves(c, 0);
    DayRoundTrip(DayNumber(c.date) + first);
    AddUtcDaysMoves(AddUtcDays(c, first), second);
    DateRoundTrip(c.date);
  }

  predicate Matches(s: Search, day: int) {
    MatchesRecurrence(DateOfDay(day), s.at.date.day, s.recurrence)
  }

  /** The instant at which a fire on `day` happens. */
  function Instant(s: Search, day: int): int {
    TwoPass(WallMs(day, s.at.hour, s.at.minute), s.zone)
  }

  predicate Due(s: Search, day: int) {
    Matches(s, day) && IsEligible(Instant(s, day), s.from, s.atUtc, s.after)
  }

  /** The search of a validated trigger. */
  ghost predicate ValidSearch(s: Search) {
    && IsCivil(s.at) && DayNumber(s.at.date) >= FIRST_EXACT_DAY
    && ValidRecurrence(s.recurrence)
    && Ordinary(s.zone)
    && s.atUtc == Instant(s, DayNumber(s.at.date))
  }

  function StartDay(s: Search): int
    requires IsCivil(s.at)
  {
    if s.from < s.atUtc then DayNumber(s.at.date) else DayOf(Shown(s.from, s.zone))
  }

  function CursorOn(s: Search, day: int): Civil {
    Civil(DateOfDay(day), s.at.hour, s.at.minute)
  }

  lemma CursorMoves(s: Search, day: int)
    requires IsClock(s.at.hour, s.at.minute) && day >= FIRST_EXACT_DAY - 2
    ensures NextCursor(s, CursorOn(s, day)) == CursorOn(s, day + 1)
  {
    hide AddUtcDays, DateOfDay, DayNumber;
    DayRoundTrip(day); YearPast99(day);
    AddUtcDaysMoves(Civil(DateOfDay(day), 0, 0), 1);
  }

  /** The cursor goes through its own printed form on the way to an instant, and that form only
      carries years of four digits. */
  lemma CursorConverts(s: Search, day: int)
    requires IsClock(s.at.hour, s.at.minute) && WholeSeconds(s.zone) && UnderADay(s.zone)
    ensures ZonedLocalToUtc(Format(CursorOn(s, day)), s.zone)
         == if FIRST_DAY <= day <= LAST_DAY then Some(Instant(s, day)) else None
  {
    hide Format, DateOfDay, DayNumber, TwoPass, OffsetMs, DateUtc;
    var c := CursorOn(s, day);
    DayRoundTrip(day);
    FourDigitYears(day);
    FormatRoundTrip(c);
    if FIRST_DAY <= day <= LAST_DAY {
      FirstDayIsExact();
      ConversionIsTwoPass(Format(c), c, s.zone);
    }
  }

  lemma FirstDayIsExact()
    ensures FIRST_EXACT_DAY <= FIRST_DAY
  {
    DateOrder(Date(100, 1, 3), Date(1000, 1, 1));
    assert DayNumber(Date(100, 1, 3)) == FIRST_EXACT_DAY;
  }

  /** Some matching date the scan visits cannot be printed. */
  ghost predicate Unprintable(s: Search, start: int, hit: int) {
    exists d :: start <= d <= hit && Matches(s, d) && !(FIRST_DAY <= d <= LAST_DAY)
  }

  ghost predicate LeastDue(s: Search, start: int, hit: int) {
    start <= hit && Due(s, hit) && forall d :: start <= d < hit ==> !Due(s, d)
  }

  lemma {:induction false} ScanResult(s: Search, day: int, i: nat, hit: int)
    requires ValidSearch(s) && day >= FIRST_EXACT_DAY - 2
    requires LeastDue(s, day, hit) && i + (hit - day) < SCAN_DAYS
    ensures ScanFrom(s, CursorOn(s, day), i)
         == if Unprintable(s, day, hit) then Throws else At(Instant(s, hit))
    decreases hit - day
  {
    hide ZonedLocalToUtc, Format, DateOfDay, DayNumber, MatchesRecurrence, NextCursor, Instant;
    CursorMoves(s, day);
    CursorConverts(s, day);
    assert Matches(s, day) == MatchesRecurrence(CursorOn(s, day).date, s.at.date.day, s.recurrence);
    assert Due(s, day) <==> Matches(s, day) && IsEligible(Instant(s, day), s.from, s.atUtc, s.after);
    if day < hit {
      ScanResult(s, day + 1, i + 1, hit);
    }
    if Unprintable(s, day, hit) {
      var d :| day <= d <= hit && Matches(s, d) && !(FIRST_DAY <= d <= LAST_DAY);
      assert d > day ==> Unprintable(s, day + 1, hit);
    }
  }
}
