/** Task triggers as the task schema admits them, and when two of them are the same fire rules. */
module TaskTrigger {
  import opened Options
  import opened LocalDateTime

  datatype Weekday = Mon | Tue | Wed | Thu | Fri | Sat | Sun

  const WEEKDAYS: seq<Weekday> := [Mon, Tue, Wed, Thu, Fri, Sat, Sun]

  datatype Recurrence = Daily | Weekly(days: seq<Weekday>) | Monthly

  /** `paused` is optional in the schema; leaving it out means false. */
  datatype Trigger =
    | Now
    | Schedule(timezone: string, at: string, recurrence: Option<Recurrence>, paused: Option<bool>)

  predicate IsPaused(paused: Option<bool>) {
    paused == Some(true)
  }

  predicate NoDuplicates(days: seq<Weekday>) {
    forall i, j :: 0 <= i < j < |days| ==> days[i] != days[j]
  }

  predicate ValidRecurrence(r: Recurrence) {
    r.Weekly? ==> |r.days| >= 1 && NoDuplicates(r.days)
  }

  /** What the schema checks, but for the time zone's name. */
  predicate ValidTrigger(t: Trigger) {
    t.Schedule? ==> IsValidLocalDateTime(t.at) && (t.recurrence.Some? ==> ValidRecurrence(t.recurrence.value))
  }

  predicate RecurrenceEqual(left: Option<Recurrence>, right: Option<Recurrence>) {
    if left.None? && right.None? then true
    else if left.None? || right.None? then false
    else
      match (left.value, right.value)
      case (Daily, Daily) => true
      case (Monthly, Monthly) => true
      case (Weekly(l), Weekly(r)) => |l| == |r| && forall i :: 0 <= i < |l| ==> l[i] in r
      case _ => false
  }

  predicate TaskTriggersEqual(left: Trigger, right: Trigger) {
    if left.Now? != right.Now? then false
    else if left.Now? then true
    else
      && left.timezone == right.timezone
      && left.at == right.at
      && IsPaused(left.paused) == IsPaused(right.paused)
      && RecurrenceEqual(left.recurrence, right.recurrence)
  }

  // ---------- An equivalence, on validated triggers ----------

  function DaySet(days: seq<Weekday>): set<Weekday> {
    set d | d in days
  }

  lemma {:induction false} DaySetSize(days: seq<Weekday>)
    requires NoDuplicates(days)
    ensures |DaySet(days)| == |days|
  {
    if days != [] {
      var last := |days| - 1;
      DaySetSize(days[..last]);
      assert DaySet(days) == DaySet(days[..last]) + {days[last]};
    } else {
      assert DaySet(days) == {};
    }
  }

  lemma SubsetOfSameSize(a: set<Weekday>, b: set<Weekday>)
    requires a <= b && |a| == |b|
    ensures a == b
  {
    assert |b - a| == |b| - |a|;
  }

  /** `recurrenceEqual` compares lengths and looks one way only.  On lists without duplicates that is
      equality of the sets of days. */
  lemma WeeklyEqualIsSameDays(left: seq<Weekday>, right: seq<Weekday>)
    requires NoDuplicates(left) && NoDuplicates(right)
    ensures RecurrenceEqual(Some(Weekly(left)), Some(Weekly(right))) <==> DaySet(left) == DaySet(right)
  {
    DaySetSize(left); DaySetSize(right);
    if RecurrenceEqual(Some(Weekly(left)), Some(Weekly(right))) {
      SubsetOfSameSize(DaySet(left), DaySet(right));
    } else if DaySet(left) == DaySet(right) {
      assert forall i :: 0 <= i < |left| ==> left[i] in DaySet(left);
    }
  }

  ghost predicate SameRules(left: Trigger, right: Trigger) {
    && left.Now? == right.Now?
    && (left.Schedule? ==>
          && left.timezone == right.timezone
          && left.at == right.at
          && IsPaused(left.paused) == IsPaused(right.paused)
          && (left.recurrence == right.recurrence
              || (left.recurrence.Some? && left.recurrence.value.Weekly?
                  && right.recurrence.Some? && right.recurrence.value.Weekly?
                  && DaySet(left.recurrence.value.days) == DaySet(right.recurrence.value.days))))
  }

  /** On validated triggers the comparison decides `SameRules`, which is plainly reflexive,
      symmetric and transitive: hence so is the comparison. */
  lemma EqualMeansSameRules(left: Trigger, right: Trigger)
    requires ValidTrigger(left) && ValidTrigger(right)
    ensures TaskTriggersEqual(left, right) <==> SameRules(left, right)
  {
    hide IsValidLocalDateTime, DaySet, NoDuplicates;
    if left.Schedule? && right.Schedule? && left.recurrence.Some? && right.recurrence.Some?
       && left.recurrence.value.Weekly? && right.recurrence.value.Weekly? {
      WeeklyEqualIsSameDays(left.recurrence.value.days, right.recurrence.value.days);
    }
  }

  lemma TriggersEqualIsEquivalence(a: Trigger, b: Trigger, c: Trigger)
    requires ValidTrigger(a) && ValidTrigger(b) && ValidTrigger(c)
    ensures TaskTriggersEqual(a, a)
    ensures TaskTriggersEqual(a, b) ==> TaskTriggersEqual(b, a)
    ensures TaskTriggersEqual(a, b) && TaskTriggersEqual(b, c) ==> TaskTriggersEqual(a, c)
  {
    hide ValidTrigger, TaskTriggersEqual, DaySet;
    EqualMeansSameRules(a, a);
    EqualMeansSameRules(a, b); EqualMeansSameRules(b, a);
    EqualMeansSameRules(b, c); EqualMeansSameRules(a, c);
  }

  /** Without the schema's ban on duplicate days the comparison is not symmetric. */
  lemma DuplicateDaysBreakSymmetry(timezone: string, at: string)
    ensures var left := Schedule(timezone, at, Some(Weekly([Mon, Mon])), None);
            var right := Schedule(timezone, at, Some(Weekly([Mon, Tue])), None);
            TaskTriggersEqual(left, right) && !TaskTriggersEqual(right, left)
  {
    assert [Mon, Tue][1] !in [Mon, Mon];
  }
}
