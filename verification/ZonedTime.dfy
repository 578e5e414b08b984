/** Wall clocks in a time zone.  A zone is its offset from UTC at every instant, in milliseconds;
    `zonedLocalToUtc` converts a wall clock to an instant by guessing the offset twice. */
module ZonedTime {
  import opened Options
  import opened Calendar
  import opened LocalDateTime

  type Zone = int -> int

  datatype Parts = Parts(civil: Civil, second: int)

  /** What the zone's clocks show at `instant`, to the second. */
  function PartsInZone(instant: int, zone: Zone): Parts {
    var local := instant + zone(instant);
    Parts(CivilOfMs(local), local % MS_PER_MINUTE / MS_PER_SECOND)
  }

  /** The offset as `offsetMs` measures it: the shown time read as UTC, less the instant. */
  function OffsetMs(instant: int, zone: Zone): int {
    var p := PartsInZone(instant, zone);
    var d := p.civil.date;
    DateUtc(d.year, d.month - 1, d.day, p.civil.hour, p.civil.minute, p.second) - instant
  }

  /** None stands for the error thrown on a string that is not a local datetime. */
  function ZonedLocalToUtc(local: string, zone: Zone): Option<int> {
    match Parse(local)
    case None => None
    case Some(c) =>
      var utcGuess := DateUtc(c.date.year, c.date.month - 1, c.date.day, c.hour, c.minute, 0);
      var instant1 := utcGuess - OffsetMs(utcGuess, zone);
      Some(utcGuess - OffsetMs(instant1, zone))
  }

  // ---------- Zones ----------

  ghost predicate WholeSeconds(zone: Zone) {
    forall t :: zone(t) % MS_PER_SECOND == 0
  }

  ghost predicate UnderADay(zone: Zone) {
    forall t :: -MS_PER_DAY < zone(t) < MS_PER_DAY
  }

  ghost predicate Ordinary(zone: Zone) {
    WholeSeconds(zone) && UnderADay(zone)
  }

  /** From `lo` to `hi` no two offsets of the zone are a day or more apart: the clocks do not cross the
      date line then. */
  ghost predicate VariesUnderADay(zone: Zone, lo: int, hi: int) {
    forall s, t :: lo <= s <= hi && lo <= t <= hi ==> zone(s) - zone(t) < MS_PER_DAY
  }

  ghost predicate Constant(zone: Zone, offset: int) {
    forall t :: zone(t) == offset
  }

  // ---------- The conversion without the calendar ----------

  /** The wall clock as a count of milliseconds, as if it were UTC. */
  function WallMs(day: int, hour: int, minute: int): int {
    day * MS_PER_DAY + hour * MS_PER_HOUR + minute * MS_PER_MINUTE
  }

  function TwoPass(wall: int, zone: Zone): int {
    wall - zone(wall - zone(wall))
  }

  function Shown(instant: int, zone: Zone): int {
    instant + zone(instant)
  }

  /** Far enough past the years 0 to 99 that no offset reaches back into them. */
  const FIRST_EXACT_DAY: int := DayNumber(Date(100, 1, 1)) + 2

  lemma YearPast99(day: int)
    requires day >= FIRST_EXACT_DAY - 2
    ensures DateOfDay(day).year >= 100
  {
    DayRoundTrip(day);
    DateOrder(DateOfDay(day), Date(100, 1, 1));
  }

  lemma SplitDay(local: int)
    requires local % MS_PER_SECOND == 0
    ensures local == DayOf(local) * MS_PER_DAY + MinuteOfDay(local) / 60 * MS_PER_HOUR
                     + MinuteOfDay(local) % 60 * MS_PER_MINUTE
                     + local % MS_PER_MINUTE / MS_PER_SECOND * MS_PER_SECOND
  {
    var clock := local % MS_PER_DAY;
    var minute := clock / MS_PER_MINUTE;
    QuotientUnique(local, MS_PER_MINUTE, 1440 * DayOf(local) + minute, clock % MS_PER_MINUTE);
    var rest := clock % MS_PER_MINUTE;
    var q := local / MS_PER_SECOND;
    QuotientUnique(rest, MS_PER_SECOND, q - 60 * (1440 * DayOf(local) + minute), 0);
  }

  /** Reading the shown time back as UTC loses nothing past the year 99. */
  lemma ShownReadsBack(local: int, utc: int)
    requires local % MS_PER_SECOND == 0 && DayOf(local) >= FIRST_EXACT_DAY - 2
    requires var c := CivilOfMs(local);
             utc == DateUtc(c.date.year, c.date.month - 1, c.date.day, c.hour, c.minute,
                            local % MS_PER_MINUTE / MS_PER_SECOND)
    ensures utc == local
  {
    var d := DateOfDay(DayOf(local));
    DayRoundTrip(DayOf(local)); YearPast99(DayOf(local));
    DateUtcParts(d, MinuteOfDay(local) / 60, MinuteOfDay(local) % 60, local % MS_PER_MINUTE / MS_PER_SECOND);
    SplitDay(local);
  }

  lemma OffsetIsMeasured(instant: int, zone: Zone)
    requires instant % MS_PER_SECOND == 0 && zone(instant) % MS_PER_SECOND == 0
    requires DayOf(instant + zone(instant)) >= FIRST_EXACT_DAY - 2
    ensures OffsetMs(instant, zone) == zone(instant)
  {
    hide DateUtc, CivilOfMs, DateOfDay, DayOf;
    QuotientUnique(instant + zone(instant), MS_PER_SECOND,
                   instant / MS_PER_SECOND + zone(instant) / MS_PER_SECOND, 0);
    ShownReadsBack(instant + zone(instant), OffsetMs(instant, zone) + instant);
  }

  lemma GuessIsWall(c: Civil)
    requires IsCivil(c) && c.date.year >= 100
    ensures DateUtc(c.date.year, c.date.month - 1, c.date.day, c.hour, c.minute, 0)
         == WallMs(DayNumber(c.date), c.hour, c.minute)
  {
    DateUtcParts(c.date, c.hour, c.minute, 0);
  }

  lemma TwoPassOfString(s: string, c: Civil, wall: int, zone: Zone)
    requires Parse(s) == Some(c)
    requires wall == DateUtc(c.date.year, c.date.month - 1, c.date.day, c.hour, c.minute, 0)
    requires WholeSeconds(zone) && UnderADay(zone)
    requires wall % MS_PER_SECOND == 0 && wall >= FIRST_EXACT_DAY * MS_PER_DAY
    ensures ZonedLocalToUtc(s, zone) == Some(TwoPass(wall, zone))
  {
    hide OffsetMs, DateUtc, CivilOfMs;
    OffsetIsMeasured(wall, zone);
    var instant1 := wall - zone(wall);
    QuotientUnique(instant1, MS_PER_SECOND, wall / MS_PER_SECOND - zone(wall) / MS_PER_SECOND, 0);
    assert DayOf(instant1 + zone(instant1)) >= FIRST_EXACT_DAY - 2;
    OffsetIsMeasured(instant1, zone);
  }

  /** On a valid string `zonedLocalToUtc` is the two-pass guess on milliseconds. */
  lemma ConversionIsTwoPass(s: string, c: Civil, zone: Zone)
    requires Parse(s) == Some(c) && IsCivil(c) && DayNumber(c.date) >= FIRST_EXACT_DAY
    requires WholeSeconds(zone) && UnderADay(zone)
    ensures ZonedLocalToUtc(s, zone) == Some(TwoPass(WallMs(DayNumber(c.date), c.hour, c.minute), zone))
  {
    hide OffsetMs, DateUtc, DayNumber, ZonedLocalToUtc;
    YearOfExactDay(c.date);
    GuessIsWall(c);
    TwoPassOfString(s, c, WallMs(DayNumber(c.date), c.hour, c.minute), zone);
  }

  lemma YearOfExactDay(d: Date)
    requires IsDate(d) && DayNumber(d) >= FIRST_EXACT_DAY
    ensures d.year >= 100
  {
    DateOrder(d, Date(100, 1, 1));
  }

  // ---------- Daylight saving ----------

  /** Within a day of `wall` (as UTC) on either side the zone changes offset at most once, at
      `change`, from `before` to `since`. */
  ghost predicate OneChange(zone: Zone, wall: int, change: int, before: int, since: int) {
    && -MS_PER_DAY < before < MS_PER_DAY && -MS_PER_DAY < since < MS_PER_DAY
    && forall t :: wall - MS_PER_DAY <= t <= wall + MS_PER_DAY ==>
         zone(t) == if t < change then before else since
  }

  ghost predicate WallExists(wall: int, zone: Zone) {
    exists t :: wall - MS_PER_DAY <= t <= wall + MS_PER_DAY && Shown(t, zone) == wall
  }

  /** Across a change of either direction, and for offsets of either sign: the conversion reads
      back as the wall clock it was given exactly when some instant shows that wall clock. */
  lemma ReadsBackIffWallExists(zone: Zone, wall: int, change: int, before: int, since: int)
    requires OneChange(zone, wall, change, before, since)
    ensures Shown(TwoPass(wall, zone), zone) == wall <==> WallExists(wall, zone)
  {
    var instant := TwoPass(wall, zone);
    assert instant == wall - before || instant == wall - since;
    if WallExists(wall, zone) {
      var t :| wall - MS_PER_DAY <= t <= wall + MS_PER_DAY && Shown(t, zone) == wall;
      assert t == wall - (if t < change then before else since);
    }
  }

  /** A wall clock that the change skips is moved by exactly the skipped amount: forward when the
      wall clock, read as UTC, is at or past the change, and backward when it is before it. */
  lemma SkippedWallMoves(zone: Zone, wall: int, change: int, before: int, since: int)
    requires OneChange(zone, wall, change, before, since) && !WallExists(wall, zone)
    ensures since > before
    ensures Shown(TwoPass(wall, zone), zone)
         == if wall < change then wall - (since - before) else wall + (since - before)
  {
    assert !(Shown(wall - before, zone) == wall);
    assert !(Shown(wall - since, zone) == wall);
  }

  /** Of the two instants that show a repeated wall clock the conversion takes the earlier one
      exactly when the wall clock, read as UTC, is before the change. */
  lemma RepeatedWallChoice(zone: Zone, wall: int, change: int, before: int, since: int, early: int, late: int)
    requires OneChange(zone, wall, change, before, since)
    requires wall - MS_PER_DAY <= early < late <= wall + MS_PER_DAY
    requires Shown(early, zone) == wall && Shown(late, zone) == wall
    ensures TwoPass(wall, zone) == if wall < change then early else late
  {
  }

  /** The same for strings: what the zone's clocks show at the converted instant. */
  lemma ConversionReadsBack(s: string, c: Civil, wall: int, zone: Zone, change: int, before: int, since: int)
    requires Parse(s) == Some(c) && IsCivil(c) && DayNumber(c.date) >= FIRST_EXACT_DAY
    requires wall == WallMs(DayNumber(c.date), c.hour, c.minute)
    requires WholeSeconds(zone) && UnderADay(zone) && OneChange(zone, wall, change, before, since)
    ensures ZonedLocalToUtc(s, zone).Some?
    ensures PartsInZone(ZonedLocalToUtc(s, zone).value, zone) == Parts(c, 0) <==> WallExists(wall, zone)
  {
    hide CivilOfMs, DateOfDay, DayNumber, MonthLength, ZonedLocalToUtc, OneChange, WallExists, Parse, PartsInZone,
      WallMs, WholeSeconds, UnderADay, TwoPass;
    WallIsWhole(DayNumber(c.date), c.hour, c.minute);
    ConversionIsTwoPass(s, c, zone);
    ReadsBackIffWallExists(zone, wall, change, before, since);
    var instant := TwoPass(wall, zone);
    var shown := Shown(instant, zone);
    WholeSecondsShown(wall, zone);
    DateRoundTrip(c.date);
    PartsNameWall(shown, wall, c, DayNumber(c.date));
    PartsAreShown(instant, zone);
    hide *;
  }

  lemma WallIsWhole(day: int, hour: int, minute: int)
    ensures WallMs(day, hour, minute) % MS_PER_SECOND == 0
  {
    QuotientUnique(WallMs(day, hour, minute), MS_PER_SECOND, 86_400 * day + 3_600 * hour + 60 * minute, 0);
  }

  lemma PartsAreShown(instant: int, zone: Zone)
    ensures PartsInZone(instant, zone)
         == Parts(CivilOfMs(Shown(instant, zone)), Shown(instant, zone) % MS_PER_MINUTE / MS_PER_SECOND)
  {
    hide CivilOfMs;
  }

  lemma WholeSecondsShown(wall: int, zone: Zone)
    requires WholeSeconds(zone) && wall % MS_PER_SECOND == 0
    ensures Shown(TwoPass(wall, zone), zone) % MS_PER_SECOND == 0
  {
    assert zone(TwoPass(wall, zone)) % MS_PER_SECOND == 0;
    assert zone(wall - zone(wall)) % MS_PER_SECOND == 0;
  }

  lemma PartsNameWall(shown: int, wall: int, c: Civil, day: int)
    requires IsClock(c.hour, c.minute) && c.date == DateOfDay(day)
    requires wall == WallMs(day, c.hour, c.minute) && shown % MS_PER_SECOND == 0
    ensures CivilOfMs(shown) == c && shown % MS_PER_MINUTE / MS_PER_SECOND == 0 <==> shown == wall
  {
    hide DateOfDay, DayNumber, DayOf, MinuteOfDay;
    CivilOfClock(wall, day, c.hour, c.minute);
    SplitDay(shown); SplitDay(wall);
    DayRoundTrip(DayOf(shown)); DayRoundTrip(day);
    assert MinuteOfDay(wall) == 60 * c.hour + c.minute;
    QuotientUnique(wall, MS_PER_MINUTE, 1440 * day + 60 * c.hour + c.minute, 0);
  }

  /** Wall clocks a day or more apart convert to instants in the same order, unless they are less than
      two days apart and the clocks cross the date line around them. */
  lemma ConversionKeepsOrder(early: int, late: int, zone: Zone)
    requires UnderADay(zone) && early + MS_PER_DAY <= late
    requires late < early + 2 * MS_PER_DAY ==> VariesUnderADay(zone, early - MS_PER_DAY, late + MS_PER_DAY)
    ensures TwoPass(early, zone) < TwoPass(late, zone)
  {
  }

  // ---------- Changes away from midnight ----------

  /** The clocks show the same date before the change, after it, and for as long again after it as it
      skips. */
  predicate Mild(change: int, before: int, since: int) {
    before == since
    || (DayOf(change - 1 + before) == DayOf(change + since)
        && (since > before ==> DayOf(change + since) == DayOf(change + since + (since - before))))
  }

  /** Within a day of `wall` there is no change of offset, or one, and that is mild. */
  ghost predicate MildAround(zone: Zone, wall: int) {
    exists change, before, since :: OneChange(zone, wall, change, before, since) && Mild(change, before, since)
  }

  lemma SkippedIsBetween(zone: Zone, wall: int, change: int, before: int, since: int)
    requires OneChange(zone, wall, change, before, since) && !WallExists(wall, zone)
    ensures change + before <= wall < change + since
  {
    assert Shown(wall - before, zone) != wall && Shown(wall - since, zone) != wall;
  }

  /** A wall clock near a mild change is not moved to a later date. */
  lemma FireKeepsDate(zone: Zone, wall: int)
    requires MildAround(zone, wall)
    ensures DayOf(Shown(TwoPass(wall, zone), zone)) <= DayOf(wall)
  {
    hide Shown, TwoPass, OneChange, WallExists;
    var change, before, since :| OneChange(zone, wall, change, before, since) && Mild(change, before, since);
    ReadsBackIffWallExists(zone, wall, change, before, since);
    if !WallExists(wall, zone) {
      SkippedWallMoves(zone, wall, change, before, since);
      SkippedIsBetween(zone, wall, change, before, since);
    }
  }

  /** Where every change is mild the clocks never show an earlier date later on. */
  lemma {:induction false} DatesInOrder(zone: Zone, t: int, u: int)
    requires t <= u && forall x :: t <= x <= u ==> MildAround(zone, x)
    ensures DayOf(Shown(t, zone)) <= DayOf(Shown(u, zone))
    decreases u - t
  {
    if t < u {
      NextDate(zone, u - 1);
      DatesInOrder(zone, t, u - 1);
    }
  }

  lemma NextDate(zone: Zone, t: int)
    requires MildAround(zone, t)
    ensures DayOf(Shown(t, zone)) <= DayOf(Shown(t + 1, zone))
  {
    var change, before, since :| OneChange(zone, t, change, before, since) && Mild(change, before, since);
    assert t < change <= t + 1 ==> t == change - 1;
  }

  datatype Change = Change(at: int, offset: int)

  /** The offset at `t` of a zone that starts with `base` and then goes through the changes. */
  function OffsetAt(base: int, changes: seq<Change>, t: int): int {
    if changes == [] then base
    else
      var last := changes[|changes| - 1];
      if t >= last.at then last.offset else OffsetAt(base, changes[..|changes| - 1], t)
  }

  function OffsetBefore(base: int, changes: seq<Change>, i: nat): int
    requires i < |changes|
  {
    if i == 0 then base else changes[i - 1].offset
  }

  /** The changes are more than two days apart, all mild, and no offset is a day or more. */
  ghost predicate MildChanges(base: int, changes: seq<Change>) {
    && -MS_PER_DAY < base < MS_PER_DAY
    && (forall i :: 0 <= i < |changes| ==> -MS_PER_DAY < changes[i].offset < MS_PER_DAY)
    && (forall i :: 0 < i < |changes| ==> changes[i - 1].at + 2 * MS_PER_DAY < changes[i].at)
    && (forall i :: 0 <= i < |changes| ==> Mild(changes[i].at, OffsetBefore(base, changes, i), changes[i].offset))
  }

  lemma EarlierChanges(base: int, changes: seq<Change>)
    requires changes != [] && MildChanges(base, changes)
    ensures MildChanges(base, changes[..|changes| - 1])
  {
    hide Mild;
    var n := |changes| - 1;
    assert forall i :: 0 <= i < n ==> OffsetBefore(base, changes[..n], i) == OffsetBefore(base, changes, i);
  }

  /** Between the last change but one and the last. */
  lemma LastStretch(base: int, changes: seq<Change>, t: int)
    requires changes != [] && t < changes[|changes| - 1].at
    requires |changes| > 1 ==> changes[|changes| - 2].at <= t
    ensures OffsetAt(base, changes, t) == OffsetBefore(base, changes, |changes| - 1)
  {
  }

  lemma NearLast(zone: Zone, base: int, changes: seq<Change>, wall: int)
    requires changes != [] && MildChanges(base, changes)
    requires wall - MS_PER_DAY < changes[|changes| - 1].at <= wall + MS_PER_DAY
    requires forall t :: wall - MS_PER_DAY <= t <= wall + MS_PER_DAY ==> zone(t) == OffsetAt(base, changes, t)
    ensures MildAround(zone, wall)
  {
    var n := |changes| - 1;
    var last, offset := changes[n], OffsetBefore(base, changes, n);
    assert Mild(last.at, offset, last.offset);
    assert -MS_PER_DAY < offset < MS_PER_DAY && -MS_PER_DAY < last.offset < MS_PER_DAY;
    assert n > 0 ==> changes[n - 1].at <= wall - MS_PER_DAY;
    hide MildChanges, Mild, OffsetBefore;
    forall t | wall - MS_PER_DAY <= t <= wall + MS_PER_DAY
      ensures zone(t) == if t < last.at then offset else last.offset
    {
      if t < last.at { LastStretch(base, changes, t); }
    }
    assert OneChange(zone, wall, last.at, offset, last.offset);
  }

  /** So a zone that changes its offset any number of times, as with daylight saving every year, is mild
      around every wall clock. */
  lemma {:induction false} ListIsMild(zone: Zone, base: int, changes: seq<Change>, wall: int)
    requires MildChanges(base, changes)
    requires forall t :: wall - MS_PER_DAY <= t <= wall + MS_PER_DAY ==> zone(t) == OffsetAt(base, changes, t)
    ensures MildAround(zone, wall)
    decreases |changes|
  {
    if changes == [] {
      SteadyIsMild(zone, wall, base);
    } else {
      hide Mild, MildAround;
      var last := changes[|changes| - 1];
      assert -MS_PER_DAY < last.offset < MS_PER_DAY;
      EarlierChanges(base, changes);
      if wall + MS_PER_DAY < last.at {
        hide MildChanges;
        ListIsMild(zone, base, changes[..|changes| - 1], wall);
      } else if last.at <= wall - MS_PER_DAY {
        hide MildChanges;
        SteadyIsMild(zone, wall, last.offset);
      } else {
        hide OffsetAt;
        NearLast(zone, base, changes, wall);
      }
    }
  }

  lemma SteadyIsMild(zone: Zone, wall: int, offset: int)
    requires -MS_PER_DAY < offset < MS_PER_DAY
    requires forall t :: wall - MS_PER_DAY <= t <= wall + MS_PER_DAY ==> zone(t) == offset
    ensures MildAround(zone, wall)
  {
    assert OneChange(zone, wall, wall, offset, offset) && Mild(wall, offset, offset);
  }
}
