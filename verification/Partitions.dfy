/** Weekly partitions of a table: where a week starts, what its partition is called, and which
    partitions the retention job drops. */
module Partitions {
  import opened Options
  import opened Calendar
  import opened LocalDateTime

  const MS_PER_WEEK: int := 7 * MS_PER_DAY

  /** `getUTCDay`. */
  function UtcDay(ms: int): int {
    UtcWeekday(DayOf(ms))
  }

  function MondayOffset(weekday: int): int {
    if weekday == 0 then -6 else 1 - weekday
  }

  function DayStart(at: int): int {
    var d := DateOfDay(DayOf(at));
    DateUtc(d.year, d.month - 1, d.day, 0, 0, 0)
  }

  /** `setUTCDate`: the month and the time of day stay, the day of the month may overflow. */
  function SetUtcDate(ms: int, day: int): int {
    var d := DateOfDay(DayOf(ms));
    MakeDay(d.year, d.month - 1, day) * MS_PER_DAY + ms % MS_PER_DAY
  }

  /** Monday 00:00 UTC of the week holding `at`; `utcWeekStart` moves one `Date` in place. */
  method UtcWeekStart(at: int) returns (dayStart: int)
    ensures dayStart == WeekStart(at)
  {
    hide DateOfDay, DateUtc, MakeDay;
    dayStart := DayStart(at);
    var day := UtcDay(dayStart);
    var mondayOffset := if day == 0 then -6 else 1 - day;
    dayStart := SetUtcDate(dayStart, DateOfDay(DayOf(dayStart)).day + mondayOffset);
  }

  function WeekStart(at: int): int {
    var s := DayStart(at);
    SetUtcDate(s, DateOfDay(DayOf(s)).day + MondayOffset(UtcDay(s)))
  }

  function AddWeeks(weekStart: int, weeks: int): int {
    weekStart + weeks * MS_PER_WEEK
  }

  predicate IsMonday(ms: int) {
    ms % MS_PER_DAY == 0 && UtcDay(ms) == 1
  }

  predicate InWeek(at: int, weekStart: int) {
    weekStart <= at < weekStart + MS_PER_WEEK
  }

  /** `Date.UTC` carries the years 0 to 99 far ahead, and moves no other day. */
  lemma DayStartIs(at: int, start: int)
    requires start == DayStart(at)
    ensures start % MS_PER_DAY == 0
    ensures if 0 <= DateOfDay(DayOf(at)).year <= 99 then DayOf(start) >= DayOf(at) + 365 else DayOf(start) == DayOf(at)
  {
    hide DateOfDay, DateUtc, DayNumber;
    var d := DateOfDay(DayOf(at));
    DayRoundTrip(DayOf(at));
    DateUtcParts(d, 0, 0, 0);
    QuotientUnique(start, MS_PER_DAY, DayNumber(Date(FullYear(d.year), d.month, d.day)), 0);
    if 0 <= d.year <= 99 { YearsAhead(d); }
  }

  lemma YearsAhead(d: Date)
    requires IsDate(d) && d.year <= 99
    ensures DayNumber(Date(1900 + d.year, d.month, d.day)) >= DayNumber(d) + 365
  {
    DayInYear(d);
    YearsIncrease(d.year + 1, 1900 + d.year);
    if d.month > 1 { MonthsIncrease(1900 + d.year, 1, d.month); }
    hide DayFromYear, MonthLength;
  }

  lemma MovedWithinDate(ms: int, offset: int, moved: int)
    requires ms % MS_PER_DAY == 0 && moved == SetUtcDate(ms, DateOfDay(DayOf(ms)).day + offset)
    ensures moved == ms + offset * MS_PER_DAY
  {
    hide DateOfDay, DayNumber, MakeDay;
    var d := DateOfDay(DayOf(ms));
    DayRoundTrip(DayOf(ms));
    MakeDayInRange(d.year, d.month, d.day + offset);
    MovedDayNumber(d, offset);
  }

  /** The week start is a Monday, and the week it starts holds the instant exactly outside the
      years 0 to 99. */
  lemma WeekStartHolds(at: int, week: int)
    requires week == WeekStart(at)
    ensures IsMonday(week)
    ensures InWeek(at, week) <==> !(0 <= DateOfDay(DayOf(at)).year <= 99)
  {
    hide DateOfDay, DateUtc, SetUtcDate, UtcDay, MondayOffset, DayOf, IsMonday, InWeek;
    var s := DayStart(at);
    DayStartIs(at, s);
    MovedWithinDate(s, MondayOffset(UtcDay(s)), week);
    MondayArithmetic(at, s, week);
  }

  lemma MondayArithmetic(at: int, s: int, week: int)
    requires s % MS_PER_DAY == 0 && week == s + MondayOffset(UtcDay(s)) * MS_PER_DAY
    ensures IsMonday(week)
    ensures DayOf(s) == DayOf(at) ==> InWeek(at, week)
    ensures DayOf(s) >= DayOf(at) + 365 ==> !InWeek(at, week)
  {
    QuotientUnique(week, MS_PER_DAY, DayOf(s) + MondayOffset(UtcDay(s)), 0);
  }

  /** Two Mondays are whole weeks apart, so their weeks are one week or do not meet. */
  lemma MondaysApart(a: int, b: int)
    requires IsMonday(a) && IsMonday(b)
    ensures (b - a) % MS_PER_WEEK == 0
    ensures a < b ==> a + MS_PER_WEEK <= b
  {
    var k := (DayOf(b) + 4) / 7 - (DayOf(a) + 4) / 7;
    assert DayOf(b) - DayOf(a) == 7 * k;
    assert b - a == k * MS_PER_WEEK;
    QuotientUnique(b - a, MS_PER_WEEK, k, 0);
  }

  lemma MondayAfterWeeks(monday: int, weeks: int)
    requires IsMonday(monday)
    ensures IsMonday(AddWeeks(monday, weeks))
  {
    var later := AddWeeks(monday, weeks);
    QuotientUnique(later, MS_PER_DAY, DayOf(monday) + 7 * weeks, 0);
    QuotientUnique(DayOf(later) + 4, 7, (DayOf(monday) + 4) / 7 + weeks, 1);
  }

  // ---------- Names ----------

  /** `padStart(width, "0")` on a natural number. */
  function PadTo(n: nat, width: nat): string
    decreases width - |Decimal(n)|
  {
    PadText(Decimal(n), width)
  }

  /** The date part of `toISOString`, which signs and widens years that do not fit four digits. */
  function IsoDate(d: Date): string
    requires IsDate(d)
  {
    (if 0 <= d.year <= 9999 then PadTo(d.year, 4)
     else if d.year < 0 then "-" + PadTo(-d.year, 6) else "+" + PadTo(d.year, 6))
    + "-" + PadTo(d.month, 2) + "-" + PadTo(d.day, 2)
  }

  function WithoutDashes(s: string): string {
    if s == "" then "" else (if s[0] == '-' then "" else [s[0]]) + WithoutDashes(s[1..])
  }

  function WeekText(weekStart: int): string {
    DayRoundTrip(DayOf(weekStart));
    var iso := IsoDate(DateOfDay(DayOf(weekStart))) + "T";
    WithoutDashes(if |iso| < 10 then iso else iso[..10])
  }

  function PartitionName(table: string, weekStart: int): string {
    table + "_p" + WeekText(weekStart)
  }

  /** The eight digits that end a partition's name, if it ends in `_p` and eight digits. */
  function NameDigits(name: string): (digits: Option<string>)
    ensures digits.Some? ==> |digits.value| == 8 && AllDigits(digits.value)
  {
    var n := |name|;
    if n >= 10 && name[n - 10] == '_' && name[n - 9] == 'p' && AllDigits(name[n - 8..]) then Some(name[n - 8..])
    else None
  }

  /** How the host reads a date string whose day or month is out of range is its own affair. */
  type HostDates = string -> Option<int>

  /** The start the drop loop recovers from a name's digits; None stands for an invalid Date. */
  function StartOf(digits: string, host: HostDates): Option<int>
    requires |digits| == 8 && AllDigits(digits)
  {
    var d := Date(NumberOf(digits[..4]), NumberOf(digits[4..6]), NumberOf(digits[6..8]));
    if IsDate(d) then Some(DayNumber(d) * MS_PER_DAY) else host(digits)
  }

  lemma PadToReads(n: nat, width: nat)
    requires (width == 2 && n < 100) || (width == 4 && n < 10000)
    ensures |PadTo(n, width)| == width && AllDigits(PadTo(n, width)) && NumberOf(PadTo(n, width)) == n
  {
    DecimalRoundTrip(n);
    DecimalShort(n);
    PadTextReads(Decimal(n), width);
  }

  lemma DecimalShort(n: nat)
    ensures n < 100 ==> |Decimal(n)| <= 2
    ensures n < 10000 ==> |Decimal(n)| <= 4
  {
    assert n < 10000 ==> n / 10 < 1000 && n / 10 / 10 < 100 && n / 10 / 10 / 10 < 10;
    if n >= 10 {
      var a := n / 10;
      assert |Decimal(n)| == |Decimal(a)| + 1;
      if a >= 10 {
        var b := a / 10;
        assert |Decimal(a)| == |Decimal(b)| + 1;
      }
    }
  }

  lemma {:induction false} DigitsHaveNoDash(s: string, rest: string)
    requires AllDigits(s)
    ensures WithoutDashes(s + rest) == s + WithoutDashes(rest)
  {
    if s != "" {
      assert (s + rest)[1..] == s[1..] + rest;
      assert s[0] != '-' by { assert IsDigit(s[0]); }
      DigitsHaveNoDash(s[1..], rest);
      assert [s[0]] + (s[1..] + WithoutDashes(rest)) == s + WithoutDashes(rest);
    } else {
      assert s + rest == rest;
    }
  }

  lemma WithoutDashesOfDate(y: string, m: string, d: string)
    requires AllDigits(y) && AllDigits(m) && AllDigits(d)
    ensures WithoutDashes(y + "-" + m + "-" + d) == y + m + d
  {
    hide WithoutDashes;
    calc {
      WithoutDashes(y + "-" + m + "-" + d);
      { assert y + "-" + m + "-" + d == y + ("-" + (m + ("-" + (d + "")))); }
      WithoutDashes(y + ("-" + (m + ("-" + (d + "")))));
      { DashDropped(y, m + ("-" + (d + ""))); }
      y + WithoutDashes(m + ("-" + (d + "")));
      { DashDropped(m, d + ""); }
      y + (m + WithoutDashes(d + ""));
      { DigitsHaveNoDash(d, ""); NothingToDrop(); }
      y + (m + (d + ""));
      { assert y + (m + (d + "")) == y + m + d; }
      y + m + d;
    }
  }

  lemma NothingToDrop()
    ensures WithoutDashes("") == ""
  {
  }

  lemma DashDropped(s: string, rest: string)
    requires AllDigits(s)
    ensures WithoutDashes(s + ("-" + rest)) == s + WithoutDashes(rest)
  {
    DigitsHaveNoDash(s, "-" + rest);
    assert ("-" + rest)[1..] == rest;
    assert "" + WithoutDashes(rest) == WithoutDashes(rest);
  }

  /** The drop loop recovers from a printed name the very week it was printed for, for every day of
      the years 0 to 9999. */
  lemma NameRoundTrip(table: string, weekStart: int, host: HostDates)
    requires weekStart % MS_PER_DAY == 0 && 0 <= DateOfDay(DayOf(weekStart)).year <= 9999
    ensures NameDigits(PartitionName(table, weekStart)) == Some(WeekText(weekStart))
    ensures |WeekText(weekStart)| == 8 && AllDigits(WeekText(weekStart))
    ensures StartOf(WeekText(weekStart), host) == Some(weekStart)
  {
    DayRoundTrip(DayOf(weekStart));
    hide DateOfDay, DayNumber, PadTo, NumberOf;
    var date := DateOfDay(DayOf(weekStart));
    PadToReads(date.year, 4); PadToReads(date.month, 2); PadToReads(date.day, 2);
    var y, m, d := PadTo(date.year, 4), PadTo(date.month, 2), PadTo(date.day, 2);
    var iso := IsoDate(date) + "T";
    assert iso[..10] == y + "-" + m + "-" + d;
    WithoutDashesOfDate(y, m, d);
    var text := WeekText(weekStart);
    assert text == y + m + d;
    assert text[..4] == y && text[4..6] == m && text[6..8] == d;
    var name := PartitionName(table, weekStart);
    assert name[|name| - 8..] == text;
  }

  lemma WidePad(n: nat)
    requires n < 1_000_000
    ensures |PadTo(n, 6)| == 6 && AllDigits(PadTo(n, 6)) && NumberOf(PadTo(n, 6)) == n
  {
    DecimalRoundTrip(n);
    if n >= 10 { DecimalLonger(n); }
    if n >= 100 { DecimalLonger(n / 10); assert n / 10 / 10 == n / 100 && n / 100 < 10_000; }
    DecimalShort(n / 100);
    DecimalShort(n);
    hide Decimal;
    PadTextReads(Decimal(n), 6);
  }

  /** A year that does not fit four digits is written with a sign and six digits, so the printed name carries
      that year and the month but no day, and past 9999 also a plus sign: the drop loop never drops such a
      partition. */
  lemma WideYearName(table: string, weekStart: int, oldestKept: int, host: HostDates)
    requires weekStart % MS_PER_DAY == 0
    ensures var date := DateOfDay(DayOf(weekStart));
            && (9999 < date.year < 1_000_000 ==>
                  && WeekText(weekStart) == "+" + PadTo(date.year, 6) + PadTo(date.month, 2)
                  && !DropsName(PartitionName(table, weekStart), oldestKept, host))
            && (-1_000_000 < date.year < 0 ==> WeekText(weekStart) == PadTo(-date.year, 6) + PadTo(date.month, 2))
  {
    DayRoundTrip(DayOf(weekStart));
    hide DateOfDay, DayNumber, PadTo, NumberOf, AllDigits, MonthLength;
    var date := DateOfDay(DayOf(weekStart));
    var m, iso := PadTo(date.month, 2), IsoDate(date) + "T";
    if 9999 < date.year < 1_000_000 {
      var y := PadTo(date.year, 6);
      WidePad(date.year); PadToReads(date.month, 2);
      assert iso[..10] == "+" + (y + ("-" + m));
      WideText(y, m);
      var name := PartitionName(table, weekStart);
      assert name[|name| - 9] == '+';
    }
    if -1_000_000 < date.year < 0 {
      var y := PadTo(-date.year, 6);
      WidePad(-date.year); PadToReads(date.month, 2);
      assert iso[..10] == "-" + (y + ("-" + m));
      WideText(y, m);
    }
  }

  lemma WideText(y: string, m: string)
    requires AllDigits(y) && AllDigits(m)
    ensures WithoutDashes("+" + (y + ("-" + m))) == "+" + y + m
    ensures WithoutDashes("-" + (y + ("-" + m))) == y + m
  {
    DashDropped(y, m);
    assert m + "" == m;
    DigitsHaveNoDash(m, "");
    assert ("+" + (y + ("-" + m)))[1..] == y + ("-" + m) && ("-" + (y + ("-" + m)))[1..] == y + ("-" + m);
    assert "+" + (y + m) == "+" + y + m && "" + (y + m) == y + m;
  }

  // ---------- The catalog ----------

  datatype Range = Range(from: int, to: int)

  /** The partitions of one table, by name. */
  class Catalog {
    var partitions: map<string, Range>

    constructor ()
      ensures partitions == map[]
    {
      partitions := map[];
    }

    /** `CREATE TABLE IF NOT EXISTS … PARTITION OF … FOR VALUES FROM … TO …`. */
    method CreateIfMissing(name: string, range: Range)
      modifies this
      ensures partitions == if name in old(partitions) then old(partitions) else old(partitions)[name := range]
    {
      if name !in partitions {
        partitions := partitions[name := range];
      }
    }

    /** `DROP TABLE IF EXISTS`. */
    method Drop(name: string)
      modifies this
      ensures partitions == old(partitions) - {name}
    {
      partitions := partitions - {name};
    }
  }

  predicate WeekFits(week: int) {
    IsMonday(week) && 100 <= DateOfDay(DayOf(week)).year <= 9999
  }

  /** Every partition is one this module made: the week its name prints. */
  ghost predicate Weekly(table: string, partitions: map<string, Range>) {
    forall name <- partitions :: exists week ::
      WeekFits(week) && name == PartitionName(table, week) && partitions[name] == Range(week, week + MS_PER_WEEK)
  }

  /** What `ensureWeeklyPartitions` leaves: `count` weeks from `start` on are there. */
  function Ensured(table: string, partitions: map<string, Range>, start: int, count: nat): map<string, Range> {
    if count == 0 then partitions
    else
      var before := Ensured(table, partitions, start, count - 1);
      var from := AddWeeks(start, count - 1);
      var name := PartitionName(table, from);
      if name in before then before else before[name := Range(from, AddWeeks(from, 1))]
  }

  method EnsureWeeklyPartitions(catalog: Catalog, table: string, around: int, weeksAhead: int)
    modifies catalog
    ensures catalog.partitions
         == Ensured(table, old(catalog.partitions), WeekStart(around), if weeksAhead < 0 then 0 else weeksAhead + 1)
    ensures weeksAhead >= 0 && Weekly(table, old(catalog.partitions)) && InYears(around, weeksAhead) ==>
              && Weekly(table, catalog.partitions) && Covered(catalog.partitions, around)
              && forall at :: WeekStart(around) <= at < AddWeeks(WeekStart(around), weeksAhead + 1) ==>
                                Covered(catalog.partitions, at)
  {
    hide WeekStart, PartitionName, Weekly, InYears, Covered;
    var start := UtcWeekStart(around);
    var week := 0;
    while week <= weeksAhead
      invariant 0 <= week && (weeksAhead >= 0 ==> week <= weeksAhead + 1) && (weeksAhead < 0 ==> week == 0)
      invariant catalog.partitions == Ensured(table, old(catalog.partitions), start, week)
    {
      var from := AddWeeks(start, week);
      catalog.CreateIfMissing(PartitionName(table, from), Range(from, AddWeeks(from, 1)));
      week := week + 1;
    }
    ghost var before := old(catalog.partitions);
    if weeksAhead >= 0 && Weekly(table, before) && InYears(around, weeksAhead) {
      EnsureCoversAround(table, before, around, weeksAhead, start);
      forall at | start <= at < AddWeeks(start, weeksAhead + 1) ensures Covered(catalog.partitions, at) {
        EnsureCoversAround(table, before, around, weeksAhead, at);
      }
    }
  }

  /** Whether the drop loop drops a relation of this name. */
  predicate DropsName(name: string, oldestKept: int, host: HostDates) {
    match NameDigits(name)
    case None => false
    case Some(digits) => match StartOf(digits, host) case None => false case Some(start) => start < oldestKept
  }

  function DroppedNames(rows: seq<string>, oldestKept: int, host: HostDates): seq<string> {
    if rows == [] then []
    else
      var last := rows[|rows| - 1];
      DroppedNames(rows[..|rows| - 1], oldestKept, host) + (if DropsName(last, oldestKept, host) then [last] else [])
  }

  /** A name that does not end in `_p` and eight digits is never dropped, and one that does is dropped exactly
      when the date its digits give lies before the kept Monday. */
  lemma DropsDated(name: string, oldestKept: int, host: HostDates)
    ensures DropsName(name, oldestKept, host) ==>
              |name| >= 10 && name[|name| - 10..|name| - 8] == "_p" && AllDigits(name[|name| - 8..])
    ensures |name| >= 10 && name[|name| - 10..|name| - 8] == "_p" && AllDigits(name[|name| - 8..]) ==>
              var digits := name[|name| - 8..];
              var d := Date(NumberOf(digits[..4]), NumberOf(digits[4..6]), NumberOf(digits[6..]));
              && (IsDate(d) ==> (DropsName(name, oldestKept, host) <==> DayNumber(d) * MS_PER_DAY < oldestKept))
              && (!IsDate(d) && host(digits).None? ==> !DropsName(name, oldestKept, host))
  {
    hide NumberOf, AllDigits, DayNumber, MonthLength;
    if |name| >= 10 {
      var n := |name|;
      assert name[n - 10..n - 8] == [name[n - 10], name[n - 9]];
      assert name[n - 8..][6..8] == name[n - 8..][6..];
    }
  }

  /** The names reported: of those listed exactly the ones that are dropped, in the order of the listing. */
  lemma {:induction false} DroppedNamesAre(rows: seq<string>, oldestKept: int, host: HostDates)
    ensures var dropped := DroppedNames(rows, oldestKept, host);
            && (forall name :: name in dropped <==> name in rows && DropsName(name, oldestKept, host))
            && (forall i, j :: 0 <= i < j < |rows| && DropsName(rows[i], oldestKept, host)
                               && DropsName(rows[j], oldestKept, host) ==>
                  exists p, q :: 0 <= p < q < |dropped| && dropped[p] == rows[i] && dropped[q] == rows[j])
            && |dropped| <= |rows|
  {
    hide DropsName;
    if rows != [] {
      var n := |rows| - 1;
      var before, dropped := DroppedNames(rows[..n], oldestKept, host), DroppedNames(rows, oldestKept, host);
      DroppedNamesAre(rows[..n], oldestKept, host);
      assert rows == rows[..n] + [rows[n]];
      assert forall p :: 0 <= p < |before| ==> dropped[p] == before[p];
      forall i, j | 0 <= i < j < |rows| && DropsName(rows[i], oldestKept, host) && DropsName(rows[j], oldestKept, host)
        ensures exists p, q :: 0 <= p < q < |dropped| && dropped[p] == rows[i] && dropped[q] == rows[j]
      {
        if j < n {
          assert rows[..n][i] == rows[i] && rows[..n][j] == rows[j];
          var p, q :| 0 <= p < q < |before| && before[p] == rows[i] && before[q] == rows[j];
          assert dropped[p] == rows[i] && dropped[q] == rows[j];
        } else {
          assert rows[i] in rows[..n];
          assert rows[i] in before;
          var p :| 0 <= p < |before| && before[p] == rows[i];
          assert dropped[p] == rows[i] && dropped[|before|] == rows[j];
        }
      }
    }
  }

  /** `rows` is the listing the query returned: the names there are, in some order. */
  method DropWeeklyPartitionsOlderThan(catalog: Catalog, rows: seq<string>, cutoff: int, host: HostDates)
    returns (dropped: seq<string>)
    requires forall name :: name in rows <==> name in catalog.partitions
    modifies catalog
    ensures dropped == DroppedNames(rows, WeekStart(cutoff), host)
    ensures forall name :: name in dropped <==> name in old(catalog.partitions) && name !in catalog.partitions
    ensures catalog.partitions.Keys == set name <- old(catalog.partitions) | !DropsName(name, WeekStart(cutoff), host)
    ensures forall name <- catalog.partitions :: catalog.partitions[name] == old(catalog.partitions)[name]
  {
    hide WeekStart, NameDigits, StartOf;
    var oldestKept := UtcWeekStart(cutoff);
    dropped := [];
    for i := 0 to |rows|
      invariant dropped == DroppedNames(rows[..i], oldestKept, host)
      invariant catalog.partitions.Keys
             == set name <- old(catalog.partitions) | !(name in rows[..i] && DropsName(name, oldestKept, host))
      invariant forall name <- catalog.partitions :: catalog.partitions[name] == old(catalog.partitions)[name]
    {
      assert rows[..i + 1][..i] == rows[..i];
      assert forall name :: name in rows[..i + 1] <==> name in rows[..i] || name == rows[i];
      var digits := NameDigits(rows[i]);
      if digits.Some? {
        var start := StartOf(digits.value, host);
        if start.Some? && start.value < oldestKept {
          catalog.Drop(rows[i]);
          dropped := dropped + [rows[i]];
        }
      }
    }
    assert rows[..|rows|] == rows;
    DroppedNamesAre(rows, oldestKept, host);
  }

  // ---------- What the two jobs promise ----------

  lemma {:induction false} EnsuredIsWeekly(table: string, partitions: map<string, Range>, start: int, count: nat)
    requires Weekly(table, partitions) && IsMonday(start)
    requires forall k :: 0 <= k < count ==> WeekFits(AddWeeks(start, k))
    ensures Weekly(table, Ensured(table, partitions, start, count))
    ensures forall name <- partitions :: name in Ensured(table, partitions, start, count)
                                      && Ensured(table, partitions, start, count)[name] == partitions[name]
  {
    hide WeekFits, PartitionName;
    if count > 0 {
      EnsuredIsWeekly(table, partitions, start, count - 1);
      assert WeekFits(AddWeeks(start, count - 1));
    }
  }

  lemma SameNameSameWeek(table: string, a: int, b: int)
    requires WeekFits(a) && WeekFits(b) && PartitionName(table, a) == PartitionName(table, b)
    ensures a == b
  {
    hide PartitionName, StartOf, DateOfDay, NameDigits, WeekText;
    NameRoundTrip(table, a, s => None);
    NameRoundTrip(table, b, s => None);
  }

  /** The partitions of a table never overlap: no instant has two homes. */
  lemma PartitionsDisjoint(table: string, partitions: map<string, Range>, p: string, q: string, at: int)
    requires Weekly(table, partitions) && p in partitions && q in partitions
    requires partitions[p].from <= at < partitions[p].to && partitions[q].from <= at < partitions[q].to
    ensures p == q
  {
    hide PartitionName, DateOfDay;
    var a :| WeekFits(a) && p == PartitionName(table, a) && partitions[p] == Range(a, a + MS_PER_WEEK);
    var b :| WeekFits(b) && q == PartitionName(table, b) && partitions[q] == Range(b, b + MS_PER_WEEK);
    MondaysApart(a, b); MondaysApart(b, a);
  }

  /** The instant has a partition. */
  ghost predicate Covered(partitions: map<string, Range>, at: int) {
    exists name <- partitions :: partitions[name].from <= at < partitions[name].to
  }

  /** After ensuring `count` weeks from `start` on, every instant of them has a partition. */
  lemma {:induction false} EnsuredCovers(table: string, partitions: map<string, Range>, start: int, count: nat, at: int)
    requires Weekly(table, partitions) && IsMonday(start)
    requires forall k :: 0 <= k < count ==> WeekFits(AddWeeks(start, k))
    requires start <= at < AddWeeks(start, count)
    ensures Covered(Ensured(table, partitions, start, count), at)
  {
    hide WeekFits, PartitionName;
    var before := Ensured(table, partitions, start, count - 1);
    var last := AddWeeks(start, count - 1);
    EnsuredIsWeekly(table, partitions, start, count - 1);
    assert WeekFits(last);
    if at < last {
      EnsuredCovers(table, partitions, start, count - 1, at);
      var name :| name in before && before[name].from <= at < before[name].to;
      assert name in Ensured(table, partitions, start, count);
    } else {
      var name := PartitionName(table, last);
      if name in before {
        var week :| WeekFits(week) && name == PartitionName(table, week)
                    && before[name] == Range(week, week + MS_PER_WEEK);
        SameNameSameWeek(table, week, last);
      }
      assert Ensured(table, partitions, start, count)[name] == Range(last, last + MS_PER_WEEK);
    }
  }

  /** The weeks that ensuring asks for lie in the years 100 to 9999. */
  predicate InYears(around: int, weeksAhead: int) {
    && DayNumber(Date(100, 1, 1)) + 6 <= DayOf(around)
    && DayOf(around) + 7 * weeksAhead <= LAST_DAY
  }

  lemma DayFits(n: int)
    requires DayNumber(Date(100, 1, 1)) <= n <= LAST_DAY
    ensures 100 <= DateOfDay(n).year <= 9999
  {
    hide DateOfDay, DayNumber;
    DayRoundTrip(n);
    DateOrder(DateOfDay(n), Date(100, 1, 1));
    DateOrder(Date(9999, 12, 31), DateOfDay(n));
  }

  lemma WeeksFit(around: int, weeksAhead: nat, k: nat)
    requires InYears(around, weeksAhead) && k <= weeksAhead
    ensures WeekFits(AddWeeks(WeekStart(around), k)) && InWeek(around, WeekStart(around))
  {
    hide DateOfDay, DayNumber, WeekStart, IsMonday;
    var start := WeekStart(around);
    DayFits(DayOf(around));
    WeekStartHolds(around, start);
    MondayAfterWeeks(start, k);
    assert DayOf(around) - 6 <= DayOf(start) <= DayOf(around) by { MondayStarts(start); }
    MondayStarts(start);
    QuotientUnique(AddWeeks(start, k), MS_PER_DAY, DayOf(start) + 7 * k, 0);
    DayFits(DayOf(start) + 7 * k);
  }

  lemma MondayStarts(week: int)
    requires IsMonday(week)
    ensures week == DayOf(week) * MS_PER_DAY
  {
  }

  /** What the ensure job promises: afterwards `around`, and with it every instant from the Monday of its
      week through the weeks ahead, has a partition, without gaps. */
  lemma EnsureCoversAround(table: string, partitions: map<string, Range>, around: int, weeksAhead: nat, at: int)
    requires Weekly(table, partitions) && InYears(around, weeksAhead)
    requires WeekStart(around) <= at < AddWeeks(WeekStart(around), weeksAhead + 1)
    ensures Covered(Ensured(table, partitions, WeekStart(around), weeksAhead + 1), at)
    ensures Weekly(table, Ensured(table, partitions, WeekStart(around), weeksAhead + 1))
    ensures WeekStart(around) <= around < AddWeeks(WeekStart(around), 1)
  {
    hide WeekStart, WeekFits, InYears, Weekly, Ensured, Covered, IsMonday;
    WeekStartHolds(around, WeekStart(around));
    forall k | 0 <= k < weeksAhead + 1 ensures WeekFits(AddWeeks(WeekStart(around), k)) {
      WeeksFit(around, weeksAhead, k);
    }
    WeeksFit(around, weeksAhead, 0);
    EnsuredIsWeekly(table, partitions, WeekStart(around), weeksAhead + 1);
    EnsuredCovers(table, partitions, WeekStart(around), weeksAhead + 1, at);
  }

  lemma DropsExactlyBefore(table: string, partitions: map<string, Range>, name: string, oldest: int, host: HostDates)
    requires Weekly(table, partitions) && name in partitions && IsMonday(oldest)
    ensures DropsName(name, oldest, host) <==> partitions[name].to <= oldest
  {
    hide PartitionName, DateOfDay, StartOf, NameDigits, WeekText;
    var week :| WeekFits(week) && name == PartitionName(table, week)
                && partitions[name] == Range(week, week + MS_PER_WEEK);
    NameRoundTrip(table, week, host);
    MondaysApart(week, oldest);
  }

  /** The drop job drops exactly the partitions that end by the Monday it computes; outside the years
      0 to 99 that is the Monday of the cutoff's week, so no row at or after the cutoff loses its home. */
  lemma DropsExactlyOldWeeks(table: string, partitions: map<string, Range>, name: string, cutoff: int, host: HostDates)
    requires Weekly(table, partitions) && name in partitions
    ensures DropsName(name, WeekStart(cutoff), host) <==> partitions[name].to <= WeekStart(cutoff)
    ensures !(0 <= DateOfDay(DayOf(cutoff)).year <= 99) ==>
              DropsName(name, WeekStart(cutoff), host) ==> partitions[name].to <= cutoff
  {
    hide DateOfDay, WeekStart, DropsName, Weekly;
    WeekStartHolds(cutoff, WeekStart(cutoff));
    DropsExactlyBefore(table, partitions, name, WeekStart(cutoff), host);
  }
}
