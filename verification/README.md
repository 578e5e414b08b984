# Verified model of Keidai's scheduling, sandbox, run, registry and listener logic

This project models five parts of Keidai and proves what they promise.

- **Schedules** (`Calendar`, `LocalDateTime`, `ZonedTime`, `TaskTrigger`, `NextRunAt`,
  `ScheduleTheorems`): when a task fires next. Civil dates are day numbers, as in section 21.4.1 of
  ECMA-262; a time zone is its offset at every instant, in whole seconds and under a day. The main
  results are that the bounded scan always ends on the least due date, that iterating it fires every
  matching date exactly once, also across daylight saving changes, and when a wall clock reads back
  from its instant. They ask of the zone only that its clocks do not cross the date line at the
  instants the search reaches.
- **Partitions** (`Partitions`): weekly partitions, their names, and the retention job.
- **Sandbox** (`Workspace`, `UidMap`, `SandboxThreads`, `SandboxProgress`): pruning a run's workspace, and the pool of
  Unix uids under every interleaving of exec and delete requests.
- **Runs** (`RunRow`, `RunThread`, `RunTable`, `TaskPoll`, `Sweep`, `Drive`, `RunLease`,
  `LeaseTheorems`, `RunClosing`, `RunTraces`, `RunExamples`): `RunThread` says statement by statement what a sweep's
  visit and a drive do to one run. `Sweep` and `Drive` are the loops, proved to run those statements
  whatever other processes do between any two of them; `RunLease` interleaves any number of them on any
  number of replicas, with claims and renewals that may be delayed, lost or reordered.
- **Registry** (`Owners`, `Registry`): logins that bind subjects to owners, the last-admin guard,
  strict reconcile, and agents, personas, bearers and grants against the integrity check at boot.
- **Listener** (`Listener`): notifications folded into handler runs.

Code that changes state step by step is a class or a method with loops, proved against functions and
predicates; protocols are step functions with an invariant over every run. The clock, random draws, zone
data, polls, and what other requests do to the tables at every await are parameters.

Where the code does not keep what one might expect of it, the model keeps the code and a lemma says
exactly when:

- A matching date whose year is not written in four digits makes `nextRunAt` throw, because the
  cursor goes through its own unpadded text (`ScheduleTheorems.NextRunIsLeast`,
  `LocalDateTime.FormatRoundTrip`); the schema admits such dates (`ScheduleTheorems.EarlyTriggerThrows`).
- A partition past the year 9999 gets a name that the drop loop never drops (`Partitions.WideYearName`).
- `utcWeekStart` leaves the week of its argument in the years 0 to 99, against its comment
  (`Partitions.WeekStartHolds`).
- `resolveOrProvisionOwner` awaits between reading a row and writing the identity: a login can overwrite
  a binding made in between, against its comment, and does so exactly when the write finds the row bound
  to someone else (`Owners.BoundForGoodIff`, `Owners.BindRaceRebinds`). Likewise an update or removal that
  passed the last-admin guard takes the last active admin exactly when the guard was asked too early
  (`Owners.GuardTooEarlyIff`), and two overlapping demotions do (`Owners.GuardRace`).
- A renewal that is overtaken by a later one of the same replica shortens the lease when it arrives
  (`LeaseTheorems.WholeLeaseIff`), and completing a run does not ask for its lease
  (`LeaseTheorems.CompletionEndsLiveLease`).
- Writing an outcome step does not ask for a lease, so a run can get two. Unless one drive's failure handler
  wrote the second, any two rest on two claims between which a lease ran out, or was lowered by an older
  renewal, or was let go, or the run was completed and reopened (`RunTraces.TwoOutcomes`,
  `RunTraces.ClaimsApart`). Right after a claim the run gets no second one until the claim's expiry, unless its
  replica lets it go, somebody reopens it or a drive's status write fails, exactly when no older renewal of the
  replica is on its way and no other thread past a claim of the run may still write one
  (`RunClosing.OneOutcomeIff`, `RunClosing.SecondClaimIff`). The exceptions are needed: a second sweep more than
  a lease later closes the run too (`RunExamples.TwoSweepsBothWrite`); so does one with the same clock when
  another drive of the first sweep's replica releases the run, because a release names only the replica
  (`RunExamples.ReleasedRunClosedTwice`); and a failed status write makes the drive's own handler write again
  (`RunClosing.FailedStatusTwoWrite`), as does a failed close on a reopened run (`RunClosing.ReopenedTwoWrite`).
- A drive that parked its run and then fails to close its session completes the run as failed
  (`RunClosing.HibernatedRunIsClosed`).
- A sweep's late write can park a run again whose task another replica has answered
  (`RunTraces.StaleListingReparks`, `RunExamples.AnsweredRunIsReparked`).
- A failed status write, or a run reopened meanwhile, leads to a second outcome step
  (`Drive.SecondOutcomeIff`); a drive may complete its run and still report its lease lost when only
  closing the session fails (`Drive.OneOutcomeAtMost`). `Drive.OutcomeScripts` has a drive for each.
- A handler error, or a return after `stop`, strands a queued notification until the next one
  (`Listener.StrandedIff`).

## Model

| member | source | states |
|---|---|---|
| ScheduleTheorems.NextRunIsLeast | packages/shared/src/next-run-at.ts:207-228 | unless the zone's clocks cross the date line within days of the start: the scan returns the first due date from the start date on, within 33 dates, and nothing due from there on fires earlier; it throws exactly when a matching date up to there has a year without four digits; which dates are due says `ScheduleTheorems.DueDates` |
| ScheduleTheorems.EarlyDailyThrows | packages/shared/src/next-run-at.ts:213-218 | asked from before its date, every daily trigger of the years 100 to 999 throws although a fire is due on that date |
| ScheduleTheorems.EarlyTriggerThrows | packages/shared/src/task.ts:26-47 | a daily trigger at 0500-01-01T00:00 passes the schema's checks and throws from every earlier instant |
| ScheduleTheorems.NextRunIsLeastConstant | packages/shared/src/next-run-at.ts:181-229 | with a constant offset: found within 32 dates, and least over every date there is |
| ScheduleTheorems.NextRunIsLeastOverall | packages/shared/src/next-run-at.ts:181-229 | least over every date also under DST, where no change around the start moves a clock across midnight |
| ScheduleTheorems.MildZoneKeepsDates | packages/shared/src/next-run-at.ts:201-205 | any number of offset changes away from midnight, in either direction, meets that condition |
| ZonedTime.ListIsMild | packages/shared/src/next-run-at.ts:86-113 | a zone given by a base offset and a list of mild changes more than two days apart, such as yearly daylight saving, has at most one mild change near every wall clock |
| ScheduleTheorems.ConstantKeepsDates | packages/shared/src/next-run-at.ts:201-205 | so does every constant offset, which never crosses the date line either |
| ScheduleTheorems.ValidMeansRecurring | packages/shared/src/task.ts:49-88 | the theorems' hypothesis on a trigger is what the schema checks, plus a date past the first two days of the year 100 |
| ScheduleTheorems.NextFireIsNextMatch | packages/shared/src/next-run-at.ts:12-18 | with or without DST, unless the clocks cross the date line just then, the fire strictly after one matching date's fire is the next matching date's: none skipped, none repeated |
| ScheduleTheorems.EveryMatchFires | packages/shared/src/next-run-at.ts:190-229 | iterating from one fire with `after` set enumerates the matching dates: the n-th date fires n-th, as long as the clocks do not cross the date line meanwhile |
| ScheduleTheorems.EveryLaterFire | packages/shared/src/next-run-at.ts:190-229 | from any start, every date due from the start date on is reached by the first fire and the chain from it |
| ScheduleTheorems.FiresMoveForward | packages/shared/src/next-run-at.ts:162-175 | any zone, any trigger: a fire is never before the start, and strictly after it with `after` |
| ScheduleTheorems.OneShotFiresOnce | packages/shared/src/next-run-at.ts:194-199 | a one-shot fires at its instant while that is ahead and never again after it; the future check accepts exactly the ones that would still fire |
| ScheduleTheorems.MatchWithin | packages/shared/src/next-run-at.ts:143-160 | from any date the next matching one is at most 0, 6 or 30 days away |
| ScheduleTheorems.OneMonthlyMatchPerMonth | packages/shared/src/next-run-at.ts:157-159 | clamping leaves exactly one monthly match in every calendar month |
| ScheduleTheorems.NextDayNextWeekday | packages/shared/src/next-run-at.ts:138-141 | one civil day advances the weekday by one, round the week |
| ScheduleTheorems.WeekdayOfDate | packages/shared/src/next-run-at.ts:138-141 | the weekday of every date from year 100 on, counted in days from 1970-01-01, a Thursday |
| ScheduleTheorems.DueDates | packages/shared/src/next-run-at.ts:143-175 | which dates a search has due: for weekly schedules those whose weekday is listed, for monthly ones the day of `at` or the last of a shorter month; none before `at`, before `from`, or with `after` at `from` itself |
| ScheduleTheorems.MondaysInTokyo | packages/shared/src/next-run-at.ts:181-229 | in numbers: weekly on Monday at 09:00 in Tokyo fires on 6 and then 13 January 2025, at midnight UTC |
| ScheduleTheorems.SilentTriggers | packages/shared/src/next-run-at.ts:186-192 | a trigger for now and a paused one never fire by the clock, leaving `paused` out means false, and an unreadable time throws |
| ScheduleTheorems.FutureCheckSays | packages/shared/src/next-run-at.ts:240-252 | the future check refuses exactly the unpaused one-shots whose instant is not after now, and fails exactly on those whose time it cannot read |
| ScheduleTheorems.EqualTriggersFireAlike | packages/shared/src/task.ts:128-145 | triggers that compare equal have the same next fire from every instant |
| ScheduleTheorems.EditKeepsCursor | packages/shared/src/next-run-at.ts:254-274 | an edit keeps the stored cursor exactly when the rules are the same, and the kept cursor is right for the edited trigger; otherwise it fails exactly when the search throws, and stores exactly the edited trigger's next fire from now, or none where there is none, never before now |
| NextRunAt.ComputeNextRunAt | packages/shared/src/next-run-at.ts:181-229 | the loop with its moving cursor computes the recursive scan the theorems are about |
| NextRunAt.ScanResult | packages/shared/src/next-run-at.ts:213-226 | the 400-step scan returns the least due date in reach, or throws on an unprintable matching date before it |
| NextRunAt.CursorConverts | packages/shared/src/next-run-at.ts:215-218 | converting a cursor through its printed form gives the two-pass instant exactly for four-digit years, and throws otherwise |
| NextRunAt.AddUtcDaysMoves | packages/shared/src/next-run-at.ts:115-132 | adding days moves the day number by that many and keeps the clock |
| NextRunAt.AddUtcDaysComposes | packages/shared/src/next-run-at.ts:115-132 | two moves are one move by the sum, and no move is none |
| ZonedTime.ReadsBackIffWallExists | packages/shared/src/next-run-at.ts:107-112 | across one offset change, of either direction and sign, the converted instant shows the given wall clock if and only if some instant does |
| ZonedTime.ConversionReadsBack | packages/shared/src/next-run-at.ts:100-113 | the same for strings and for the parts the zone shows |
| ZonedTime.SkippedWallMoves | packages/shared/src/next-run-at.ts:107-112 | a skipped wall clock is moved by exactly the skipped amount, forward or backward depending on the side of the change |
| ZonedTime.RepeatedWallChoice | packages/shared/src/next-run-at.ts:107-112 | which of the two instants of a repeated wall clock is taken |
| ZonedTime.ConversionIsTwoPass | packages/shared/src/next-run-at.ts:100-113 | on a valid string the conversion is the two-pass guess on milliseconds |
| ZonedTime.OffsetIsMeasured | packages/shared/src/next-run-at.ts:86-97 | reading the shown parts back as UTC measures the zone's true offset |
| ZonedTime.ConversionKeepsOrder | packages/shared/src/next-run-at.ts:107-112 | wall clocks a day apart convert in order unless the clocks cross the date line around them, and two days apart always |
| ZonedTime.DatesInOrder | packages/shared/src/next-run-at.ts:201-205 | where every change is mild the clocks never show an earlier date later on |
| LocalDateTime.FormatRoundTrip | packages/shared/src/next-run-at.ts:28-48 | printing then parsing gives the same civil time exactly for years 1000 to 9999, and fails otherwise |
| LocalDateTime.ValidMeansCalendarTime | packages/shared/src/task.ts:26-47 | a string is valid exactly when it is a calendar time of year 100 or later |
| Calendar.DayRoundTrip | packages/shared/src/next-run-at.ts:124-131 | every day number names a calendar date that names it back |
| Calendar.DateRoundTrip | packages/shared/src/next-run-at.ts:116-131 | every calendar date is the date of its day number: stepping visits each date once |
| Calendar.DateOrder | packages/shared/src/next-run-at.ts:116-124 | day numbers order dates and no two dates share one |
| Calendar.DaysInMonthIsLength | packages/shared/src/next-run-at.ts:134-136 | day 0 of the following month is the last of this one, leap years included |
| TaskTrigger.EqualMeansSameRules | packages/shared/src/task.ts:105-145 | on validated triggers the comparison decides equality of rules, weekday order aside |
| TaskTrigger.TriggersEqualIsEquivalence | packages/shared/src/task.ts:128-145 | it is reflexive, symmetric and transitive |
| TaskTrigger.WeeklyEqualIsSameDays | packages/shared/src/task.ts:118-124 | same length and one-way inclusion is equality of day sets, for lists without duplicates |
| TaskTrigger.DuplicateDaysBreakSymmetry | packages/shared/src/task.ts:64-72 | without the schema's ban on duplicates the comparison is not symmetric |
| Partitions.UtcWeekStart | packages/postgres/src/partitions.ts:7-15 | the in-place date computes `WeekStart`, characterised by the next row |
| Partitions.WeekStartHolds | packages/postgres/src/partitions.ts:6-15 | the result is a Monday, and its week holds the instant exactly outside the years 0 to 99 |
| Partitions.NameRoundTrip | packages/postgres/src/partitions.ts:21-23 | the drop loop recovers from a printed name the very week start it was printed for |
| Partitions.EnsureWeeklyPartitions | packages/postgres/src/partitions.ts:29-46 | the loop leaves the catalog `Ensured` describes: existing names untouched, missing weeks added; in the years 100 to 9999 `around` and every instant through the weeks ahead then have a partition |
| Partitions.EnsuredCovers | packages/postgres/src/partitions.ts:35-45 | after ensuring any number of weeks from a Monday on, every instant of them has a partition, without gaps |
| Partitions.EnsureCoversAround | packages/postgres/src/partitions.ts:29-46 | so `around`, with every instant from its Monday through the weeks ahead, is covered, for all arguments whose weeks lie in the years 100 to 9999 |
| Partitions.PartitionsDisjoint | packages/postgres/src/partitions.ts:37-44 | no instant lies in two partitions of a table |
| Partitions.DropWeeklyPartitionsOlderThan | packages/postgres/src/partitions.ts:48-85 | exactly the listed names that date before the kept Monday go and are reported, in order; the others keep their ranges |
| Partitions.DropsDated | packages/postgres/src/partitions.ts:70-80 | a name that does not end in `_p` and eight digits is never dropped, and one that does exactly when the date its digits give lies before the kept Monday |
| Partitions.DroppedNamesAre | packages/postgres/src/partitions.ts:69-85 | the names reported are exactly the listed ones that are dropped, in the order of the listing |
| Partitions.WideYearName | packages/postgres/src/partitions.ts:21-23 | past the year 9999 a printed name carries a signed six-digit year and no day, and such a partition is never dropped |
| Partitions.DropsExactlyOldWeeks | packages/postgres/src/partitions.ts:53-83 | a partition is dropped if and only if it ends by the kept Monday, so nothing at or after the cutoff is lost |
| Workspace.Directory.Prune | apps/shaiden-sandbox/server.py:280-300 | both phases: newest files go first and no more than needed; within the caps at the end unless the directory is empty; with a snapshot within the caps nothing but the first phase happens |
| Workspace.Directory.Execute | apps/shaiden-sandbox/server.py:388-483 | clean exactly when the workspace was within both caps, the watcher saw nothing and the child left it within them; an over-cap exec ends within both with exactly the files the run already had and still has, none larger than before; a clean one leaves the child's files alone |
| Workspace.Directory.Trim | apps/shaiden-sandbox/server.py:281-291 | the loop removes what the snapshot does not know and cuts back what grew |
| Workspace.Directory.RemoveNewest | apps/shaiden-sandbox/server.py:292-300 | the loop ends within file count and bytes, or empty; no removed file is older than one that stays, the last removal was still needed, and within the caps nothing is removed |
| Workspace.TrimmedWithin | apps/shaiden-sandbox/server.py:280-291 | a snapshot within the caps caps the trimmed workspace |
| Workspace.TrimmedKeeps | apps/shaiden-sandbox/server.py:280-291 | the trimmed files are those in both, each at the smaller size, and touched exactly if cut back; trimming to one's own sizes changes nothing |
| Workspace.Directory.Usage | apps/shaiden-sandbox/server.py:180-189 | the walk returns the number of files and the sum of their sizes, in whatever order they come |
| Workspace.Directory.SnapshotSizes | apps/shaiden-sandbox/server.py:270-277 | the snapshot holds every file's size |
| SandboxThreads.StepKeepsInv | apps/shaiden-sandbox/server.py:160-170 | every step of every request, every fork and exit, and every restart of the server keeps the locks, guard, map and process invariant |
| SandboxThreads.InvAlways | apps/shaiden-sandbox/server.py:559-574 | from any valid map, and whatever processes of its runs an earlier server left, so does every interleaving of any number of exec and delete requests and restarts |
| SandboxThreads.RunsNeverShareUid | apps/shaiden-sandbox/server.py:208-259 | live processes under one pool uid descend from one run |
| SandboxThreads.ExecOwnsItsUid | apps/shaiden-sandbox/server.py:404-460 | while an exec is in flight its uid is mapped to its run alone, every process under it is that run's, and no other request for the run is inside the lock |
| SandboxThreads.NewUidIsQuiet | apps/shaiden-sandbox/server.py:219-224 | between choosing a uid and writing it nothing runs under it and the map has not moved |
| SandboxThreads.HeldForGood | apps/shaiden-sandbox/server.py:237-238 | no step frees a held uid |
| SandboxThreads.OneThreadPerRun | apps/shaiden-sandbox/server.py:160-166 | two threads inside the same run's block are one |
| SandboxProgress.NoDeadlock | apps/shaiden-sandbox/server.py:160-166 | over every interleaving and restart, while a request is in flight some request in flight has a step of its own that can happen: locks and guard never deadlock |
| UidMap.Sandbox.AssignUid | apps/shaiden-sandbox/server.py:208-225 | a known run keeps its uid; a new one gets the first uid of the pool that no entry and no process uses; the error means there is none |
| UidMap.Sandbox.ReleaseUid | apps/shaiden-sandbox/server.py:228-239 | the run's entry goes, and a tombstone takes its uid exactly when processes survived the kill loop; the uid is freed if each round leaves fewer of at most twenty processes |
| UidMap.Sandbox.KillOwned | apps/shaiden-sandbox/server.py:242-259 | at most twenty looks, each signalling exactly what runs under the uid then; whatever forks or resists meanwhile, it stops early only when nothing is left, and twenty rounds that each leave fewer clear up to twenty processes; nobody else's process is touched |
| UidMap.ReleasedIsValid | apps/shaiden-sandbox/server.py:228-239 | releasing keeps uids unique and every key a run or its own uid's tombstone |
| UidMap.TableFitsPool | apps/shaiden-sandbox/server.py:220-223 | the map never holds more entries than the pool has uids |
| UidMap.HeldIsNoRun | apps/shaiden-sandbox/server.py:169-170 | a tombstone key is never a valid run id |
| UidMap.HeldKeyInjective | apps/shaiden-sandbox/server.py:238 | tombstones of different uids differ |
| UidMap.ValidRunIds | apps/shaiden-sandbox/server.py:169-170 | a run id is valid exactly with 1 to 128 characters, all ASCII letters, digits, `-` or `_` |
| RunLease.StepKeepsInv | apps/shaiden/src/runs/pg-run-repository.ts:576-631 | every statement of every sweep and drive, every request that arrives, gets lost or is overtaken, and the clock keep: a replica whose promise is running owns the active run at least that long |
| RunLease.InvAlways | apps/shaiden/src/run/run-lease.ts:37-80 | over any number of replicas, sweeps and drives |
| RunLease.DecisionsLeadTo | apps/shaiden/src/run/harness.ts:363-577 | when each step of a sweep or drive between its statements can happen, and which statement it leads to, with the clock and row of that moment |
| LeaseTheorems.OneLiveReplica | apps/shaiden/src/runs/pg-run-repository.ts:576-600 | two replicas with running promises are one, and it is the owner in the row |
| LeaseTheorems.StolenOnlyAfterExpiry | apps/shaiden/src/runs/pg-run-repository.ts:588-594 | the owner changes straight to another replica only when the row's lease lies in the past |
| LeaseTheorems.LoserIsTold | apps/shaiden/src/run/run-lease.ts:57-75 | once a replica does not own the run, through any events until a claim of its own takes effect, each of its renewals changes nothing and the thread waiting for it learns of the loss |
| LeaseTheorems.WholeLeaseIff | apps/shaiden/src/runs/pg-run-repository.ts:576-618 | after a claim or renewal took effect, the row holds owner and lease up to its expiry through every continuation in which the replica does not let go and nobody completes the run, if and only if no renewal of the replica with an earlier expiry is still on its way |
| LeaseTheorems.Overtakes | apps/shaiden/src/runs/pg-run-repository.ts:602-618 | an older renewal that arrives last leaves its own, earlier expiry in the row |
| LeaseTheorems.CompletionEndsLiveLease | apps/shaiden/src/runs/pg-run-repository.ts:259-272 | completing a run ends another replica's live lease |
| RunTraces.TraceAlways | apps/shaiden/src/run/resume-parked-runs.ts:58-112 | over every interleaving the row is what the logged statements leave, each logged answer says whether its statement matched, and what a thread writes rests on its own earlier steps |
| RunTraces.RecordFollowsRenewal | apps/shaiden/src/run/parked-mcp-task-waiter.ts:94-114 | whatever sweeps, drives and replicas do, a thread records a parked task's result only directly after its own renewal matched the row |
| RunTraces.TwoOutcomes | apps/shaiden/src/run/run-completion.ts:18-42 | any two outcome steps of a run, by sweeps or drives, rest on claims that matched: on one claim only if they are one thread's and the second says failed; else the later claim's clock lies past the earlier one's expiry, or in between the lease was let go or lowered by an older renewal, or the run was completed and reopened |
| RunTraces.ClaimsApart | apps/shaiden/src/runs/pg-run-repository.ts:576-600 | of two claims that matched, the later one carries a clock past the earlier one's expiry, unless in between the run was completed or released or an older renewal took effect |
| RunClosing.OneOutcomeIff | apps/shaiden/src/run/harness.ts:322-341 | right after a claim matched: until its expiry, with no release by its replica, no reopening and no failed status write, every continuation adds at most one outcome step, of any sweep or drive, if and only if no older renewal of the replica is on its way and no other thread is past a claim of its own and may still write one, as a drive that fails on an active run does |
| RunClosing.FailedStatusTwoWrite | apps/shaiden/src/run/harness.ts:537-577 | a drive whose status write fails after its outcome step writes a second one on a run that is still active |
| RunClosing.ReopenedTwoWrite | apps/shaiden/src/run/harness.ts:548-577 | a drive that completed its run and fails to close its session writes a second outcome step if somebody reopened the run meanwhile |
| RunClosing.HibernatedRunIsClosed | apps/shaiden/src/run/harness.ts:512-577 | a drive that hibernated and then fails to close its session completes the run it had parked, as failed |
| RunClosing.SecondClaimIff | apps/shaiden/src/runs/pg-run-repository.ts:576-600 | right after a claim or renewal matched: through every continuation until its expiry in which the replica does not let go and nobody completes the run, no claim in flight matches, if and only if no renewal of the replica with an earlier expiry is still on its way |
| RunExamples.TwoSweepsBothWrite | apps/shaiden/src/run/resume-parked-runs.ts:84-106 | a run of events from a run nobody is at, with a lease that runs out: two sweeps both close it and leave two outcome steps |
| RunExamples.ReleasedRunClosedTwice | apps/shaiden/src/runs/pg-run-repository.ts:620-631 | the same at one moment: a release by the first sweep's replica gives its claim away, and a second sweep with the same clock closes the run too |
| RunTraces.PendingOnlyWaits | apps/shaiden/src/run/resume-parked-runs.ts:68-82 | a sweep that found the task pending, whenever its statements take effect, changes no status, owner, lease, promise or step and moves the next poll 40 to 36000 ms past its clock |
| TaskPoll.DelayBounds | apps/shaiden/src/mcp/poll-mcp-task.ts:52-65 | the poll delay is between 40 and 36000 ms whatever was asked for |
| TaskPoll.DelayFollows | apps/shaiden/src/mcp/poll-mcp-task.ts:52-65 | the delay follows the interval asked for: within a fifth of it and exactly it half-way through the draws; below 50 ms, above 30 s and unasked it is that of 50 ms, 30 s and 5 s |
| RunRow.WhenItMatches | apps/shaiden/src/runs/pg-run-repository.ts:576-631 | exactly which rows each of the protocol's statements matches |
| RunRow.ColumnsAfter | apps/shaiden/src/runs/pg-run-repository.ts:410-452 | what each column holds after each statement that matched; no statement touches another column |
| RunRow.WhenDue | apps/shaiden/src/runs/pg-run-repository.ts:489-517 | a sweep lists exactly the active, parked runs that nobody holds a live lease of and whose next poll is not to come |
| RunThread.SeenSays | apps/shaiden/src/run/resume-parked-runs.ts:67-141 | which statements each kind of look leads to, with which clock, task and interval |
| Sweep.ResumeParkedRuns | apps/shaiden/src/run/resume-parked-runs.ts:29-145 | whatever other processes do between any two statements: each due run is visited once, on the row in the table at that visit's first await, which is what the others left of the table after the visit before; the sweep runs no statement but those of its visits' phases, and the terminal runs with history are resumed; alone, exactly the due runs change, each as its look says |
| Sweep.Visit | apps/shaiden/src/run/resume-parked-runs.ts:58-141 | a visit does nothing about a run gone or closed, and else runs the statements of the same phases that `RunLease` interleaves; it resumes exactly an active run whose task is terminal and that has a history |
| Sweep.VisitStatements | apps/shaiden/src/run/resume-parked-runs.ts:68-112 | which statements those are: for a failed task the claim with the sweep's clock and, if it matched, the outcome step and the completion; for a pending one the next poll, by the look's interval or else the listed one, and the task again if the look gave an interval |
| Sweep.PendingComesBack | apps/shaiden/src/runs/pg-run-repository.ts:489-517 | with nobody else at the run, it is listed again exactly from its next poll on, 40 to 36000 ms later |
| Sweep.FailedOnlyOnce | apps/shaiden/src/run/resume-parked-runs.ts:84-112 | with nobody else at the run between the sweep's statements, a failed look completes a claimable run with one outcome step and leaves nothing to sweep or claim; a leased run it does not touch; the general case is `RunClosing.OneOutcomeIff` |
| RunTraces.StaleListingReparks | apps/shaiden/src/run/resume-parked-runs.ts:75-80 | after a listing and any events, the sweep's write puts back a task the row does not hold exactly when the run is active and holds another or none, and that only if a thread cleared or replaced the task or closed the run since the listing |
| RunExamples.AnsweredRunIsReparked | apps/shaiden/src/run/resume-parked-runs.ts:75-80 | a run of events from a run nobody is at: a sweep finds the task pending, another replica resumes the run and records the result, and the sweep's writes park it again on the answered task |
| Drive.DriveHarnessRun | apps/shaiden/src/run/harness.ts:346-589 | whatever other processes do between any two statements: how a drive ends, exactly which statements it ran, a finished one the claim, the step with the task loop's own outcome and the completion, and that it gives its claim up unless the heartbeat lost it; what its failure handler finds when nobody reopens the run, and when nobody else is there |
| Drive.EndsAs | apps/shaiden/src/run/harness.ts:505-566 | exactly when a drive parks, finishes, reports its lease lost or fails, by what threw and where the lost lease was seen |
| Drive.DriveStatements | apps/shaiden/src/run/harness.ts:505-577 | a finished drive ran the claim, the outcome step saying what the task loop said, and the completion; a parked one the claim alone; any drive completes only right after an outcome step, and leaves the completion out exactly where the status write fails |
| Drive.DriveOutcomes | apps/shaiden/src/run/run-completion.ts:6-42 | the outcome steps of a drive in order: the task loop's own outcome as it was, if it got there, then one that says failed if the handler found the run active |
| Drive.ResumeHarnessRun | apps/shaiden/src/run/harness.ts:306-341 | the same with the nested failure handler |
| Drive.ResumeOutcomes | apps/shaiden/src/run/harness.ts:322-341 | and its outcome steps in order: the loop's, then a failed one for each handler that found the run active |
| Drive.CompleteWithOutcomeStep | apps/shaiden/src/run/run-completion.ts:18-42 | one outcome step, then the status; the status write may fail after the step |
| Drive.OneOutcomeAtMost | apps/shaiden/src/run/harness.ts:508-588 | with working writes and no reopening: parked means no outcome step, finished one, failed one unless another process completed the run, lease error none unless only closing the session failed; resuming adds none |
| Drive.SecondOutcomeIff | apps/shaiden/src/run/harness.ts:322-341 | exactly when one resumption writes a second outcome step, in terms of what its two handlers find |
| Drive.OutcomeScripts | apps/shaiden/src/run/harness.ts:537-588 | three drives: a failed status write leads to two outcome steps with nobody else there, a failed close makes a completed drive report its lease lost, and a reopened run is closed twice |
| Drive.OpenAfterParking | apps/shaiden/src/run/harness.ts:512-524 | a drive that parks, or loses its lease before its outcome, runs no completion and so leaves the run open |
| Drive.WaitForApproval | apps/shaiden/src/run/parked-mcp-task-waiter.ts:65-116 | whatever other processes do between any two statements, the wait runs the statements of its phases: hibernating parks the run due now; a result is recorded only directly after the renewal that matched, and an aborted or failed poll records nothing |
| Drive.NoteStatements | apps/shaiden/src/run/parked-mcp-task-waiter.ts:53-70 | which statements that is up to the poll: the task is parked, then the waiting step recorded |
| Drive.RecordStatements | apps/shaiden/src/run/parked-mcp-task-waiter.ts:94-116 | and from the result on: the renewal; only if it matched, the result unless denied, and last the task's clearing |
| Owners.OwnerRepository.ResolveOrProvisionOwner | apps/fuda/src/owners/resolve-or-provision-owner.ts:130-206 | other logins run between any two statements, also between reading a row and writing it: rows, statuses and unique subjects stay; its identity write keeps every binding exactly when the row as that write found it was unbound or already the subject's; among logins that overwrite nothing, a bound subject resolves to its owner; a signed-in subject is bound to an enabled owner; alone, outcome and table are those `Decides` lays down |
| Owners.BoundForGoodIff | apps/fuda/src/owners/resolve-or-provision-owner.ts:125-129 | over any interleaving of any number of logins' statements, a bound subject stays with its owner throughout if and only if no statement writes another subject over it; rows, unique subjects and an active admin stay in any case |
| Owners.SameOwnerAgain | apps/fuda/src/owners/resolve-or-provision-owner.ts:125-133 | over any sequence of logins one at a time, a subject that once resolved to an owner resolves to it again whatever its address or hint, no bound subject changes and no two owners share one |
| Owners.UpdateKeepsBindingsIff | apps/fuda/src/owners/resolve-or-provision-owner.ts:49-73 | one identity write keeps the rows, and all bindings exactly when the row, as the write finds it, is unbound or already the subject's |
| Owners.BindRaceRebinds | apps/fuda/src/owners/resolve-or-provision-owner.ts:57-73 | two first logins that both read the unbound row leave it with the second subject; seen from the start nothing was overwritten, but the binding made in between is |
| Owners.OwnerRepository.WriteIdentity | apps/fuda/src/owners/resolve-or-provision-owner.ts:68-72 | the update some awaits after the read: what it found, that it wrote just then, and that among orderly logins a subject bound at the read stays bound |
| Owners.OwnerRepository.BindOrReject | apps/fuda/src/owners/resolve-or-provision-owner.ts:57-73 | passed over exactly when the row as read is someone else's, refused when disabled, else written with other logins in between |
| Owners.OwnerRepository.AllocateOwnerId | apps/fuda/src/owners/resolve-or-provision-owner.ts:23-37 | alone: the first free candidate, or an error when all 999 are taken |
| Owners.OwnerRepository.InsertProvisionedOwner | apps/fuda/src/owners/resolve-or-provision-owner.ts:84-105 | a registry without an active admin gets one with its next owner |
| Owners.OwnerRepository.GetUnboundByEmail | apps/fuda/src/owners/pg-owner-repository.ts:113-126 | the oldest row without a subject whose lower-cased address is the lower-cased one asked for, if there is one |
| Owners.UnhintedDecision | apps/fuda/src/owners/resolve-or-provision-owner.ts:172-182 | a first login without a hint comes to an existing row only if that has no subject and the login's address, and then to the oldest such row; to a new one only if there is none |
| Owners.HintedDecision | apps/fuda/src/owners/resolve-or-provision-owner.ts:138-171 | a first login with a hint comes to the hinted row if it is new or has no subject, whatever its address, and past it to a new row if it is someone else's |
| Owners.DerivedId | apps/fuda/src/owners/resolve-or-provision-owner.ts:23-37 | a new owner that was not hinted at gets the address's own id or the least free suffix from 2 to 999; an error means all are taken |
| Owners.LoginWrites | apps/fuda/src/owners/resolve-or-provision-owner.ts:75-105 | a login that did not sign in changes nothing; else its row carries subject and address, a new row is enabled and an admin's exactly when that was asked for or nobody was an active admin, and every other row is as it was |
| Owners.GuardIsExact | apps/fuda/src/owners/owners-management-api.controller.ts:181-192 | the guard refuses exactly the changes that leave no active admin |
| Owners.AdminForGood | apps/fuda/src/owners/owners-management-api.controller.ts:102-179 | one request after another, an active admin is never lost |
| Owners.GuardRace | apps/fuda/src/owners/owners-management-api.controller.ts:125-137 | two overlapping demotions both pass the guard and leave no active admin |
| Owners.GuardMeets | apps/fuda/src/owners/owners-management-api.controller.ts:102-179 | a change whose guard read an earlier table keeps an active admin exactly when the guard also lets it pass on the table its write meets |
| Owners.GuardTooEarlyIff | apps/fuda/src/owners/owners-management-api.controller.ts:181-192 | a change that passed the guard leaves no active admin exactly when its row is by then the only active admin's and it was not one when read or there were two when the guard counted; in the latter case another active admin that the guard counted is gone |
| Owners.OwnersController.Update | apps/fuda/src/owners/owners-management-api.controller.ts:102-144 | with any requests between the read, the guard and the write: refused exactly when the guard refuses on the table it counts in, done exactly when it lets pass and the row is still there, what is written, and that this takes the last active admin exactly when the guard was asked too early; alone, refused exactly when no active admin would be left |
| Owners.PatchWrites | apps/fuda/src/owners/owners-management-api.controller.ts:122-139 | the written row has status and role as the patch gives them, or as they were read, and everything else as the row has it |
| Owners.OwnersController.Remove | apps/fuda/src/owners/owners-management-api.controller.ts:146-179 | the same for removal, which a failed grant cleanup stops after the guard; alone, the row goes unless it is the last active admin's or the cleanup fails |
| Registry.ReachableIsSound | apps/fuda/src/storage/validate-schema-integrity.ts:13-95 | after any requests the boot check finds nothing, each agent has exactly the versions 1 to current, and the next request leaves earlier contents alone |
| Registry.VersionStays | apps/fuda/src/agents/pg-agent-repository.ts:244-288 | whatever is requested further, short of deleting the agent, a persona version keeps its content |
| Registry.RequestKeepsSound | apps/fuda/src/agents/pg-agent-repository.ts:70-103 | every agent, bearer, grant and owner statement keeps the tables sound and earlier contents unchanged |
| Registry.RefusedChangesNothing | apps/fuda/src/bearers/pg-bearer-repository.ts:78-107 | a refused statement changes nothing; an append adds the next version and makes it current |
| Registry.Answers | apps/fuda/src/bearers/pg-bearer-repository.ts:78-107 | exactly when each request is accepted, and as what it is refused otherwise |
| Registry.RowsAfter | apps/fuda/src/bearers/pg-bearer-repository.ts:78-167 | which owners, bearers and grants there are after any request: those before, without what it deletes and what hangs on that, and what it adds |
| Registry.AgentsAfter | apps/fuda/src/agents/pg-agent-repository.ts:70-103 | which agents there are after any request, and what their rows say |
| Registry.PersonasAfter | apps/fuda/src/agents/pg-agent-repository.ts:244-288 | which persona versions there are after any request, and their contents |
| Registry.FaultlessIff | apps/fuda/src/storage/validate-schema-integrity.ts:13-95 | the check finds nothing exactly when slugs differ, every grant joins a bearer and an agent there are, and every agent's current persona is there |
| Registry.Database.ValidateSchemaIntegrity | apps/fuda/src/storage/validate-schema-integrity.ts:13-95 | the check reports exactly the faults there are |
| Registry.Database.Create | apps/fuda/src/agents/pg-agent-repository.ts:70-103 | agent and first persona together or not at all |
| Registry.Database.Append | apps/fuda/src/agents/pg-agent-repository.ts:244-288 | the next version and the agent's pointer to it |
| Registry.Database.DeleteAgentRows | apps/fuda/src/agents/pg-agent-repository.ts:330-350 | the agent with its grants and personas, and nothing else |
| Registry.Database.Grant | apps/fuda/src/bearers/pg-bearer-repository.ts:78-99 | a duplicate grant conflicts, or does nothing when ensured; a dangling one breaks a foreign key |
| Registry.Database.RevokeGrant | apps/fuda/src/bearers/pg-bearer-repository.ts:101-107 | true exactly when the grant was there |
| Registry.Database.DeleteBearerRows | apps/fuda/src/bearers/pg-bearer-repository.ts:148-167 | the bearer with its grants |
| Registry.Database.DeleteOwner | apps/fuda/src/owners/delete-owner.ts:25-65 | the owner and exactly that owner's agents go, with the count of them |
| Registry.OwnersRemovedRows | apps/fuda/src/owners/delete-owner.ts:25-65 | row by row, what stays when owners go: everything but them, the agents that were theirs, and those agents' personas and grants |
| Registry.Database.ReconcileOwners | apps/fuda/src/owners/reconcile-owners.ts:21-52 | the owners are the desired ones, exactly the agents of removed owners are gone, and the three counts are the sizes of what changed |
| Registry.ReconcileSettles | apps/fuda/src/owners/reconcile-owners.ts:17-20 | reconciling keeps the registry sound and doing it again finds nothing to change |
| Listener.PgChannelListener.OnNotification | packages/postgres/src/listen.ts:61-66 | a matching notification starts a handler, or queues behind the running one |
| Listener.PgChannelListener.AwaitEnds | packages/postgres/src/listen.ts:111-120 | the loop runs the handler again exactly when a notification is queued and the listener is not stopped |
| Listener.NotificationIsTaken | packages/postgres/src/listen.ts:61-66 | after any events, a started listener counts a notification on its channel and at once starts one handler for it, or queues it behind the one that runs; one on another channel changes nothing |
| Listener.HandlerEndsOnce | packages/postgres/src/listen.ts:105-121 | after any events, a handler's end is counted and another starts at once exactly when it returned, the listener is started and a notification is unanswered |
| Listener.EveryNotificationCounts | packages/postgres/src/listen.ts:30-66 | over all events, the arrivals counted are exactly the notifications on the channel while the last start came after the last stop |
| Listener.HandlersNeverOverlap | packages/postgres/src/listen.ts:105-121 | at every moment at most one handler runs and no more have started than notifications arrived |
| Listener.QueuedMeansUnanswered | packages/postgres/src/listen.ts:105-121 | `queued` is set exactly when some notification has no handler start after it |
| Listener.NoLostWakeup | packages/postgres/src/listen.ts:105-121 | without a handler error or a return after `stop`, every notification was followed by a handler start, or one will start when the running handler ends; which notifications are counted says `Listener.EveryNotificationCounts` |
| Listener.StrandedIff | packages/postgres/src/listen.ts:105-121 | a wakeup is lost exactly when a handler threw, or returned to a stopped listener, with another queued, and no notification came since |

## Left out

- Zone data and its formatting (`Intl`): a zone is a total function from instants to offsets; unknown
  zone names, invalid `Date` values, eras before year 1 and the ISO text of a cursor are not modelled.
- Schedules whose `at` lies on the first two days of the year 100, and a search that reaches a change of
  the date line: outside the theorems' hypotheses. That no change moves a clock across midnight is a
  hypothesis of `NextRunIsLeastOverall` only.
- How the host reads a date string whose month or day is out of range, when the drop loop meets a name
  it did not make: a parameter. Partitions made by other means are outside `Weekly`.
- A sandbox that does not run as root (it has no uids), the seccomp filter, resource limits, output
  truncation and timeouts; a look at the process table is one atomic step.
- Torn writes of the uid map, and files written while pruning runs.
- The uid pool running out inside an exec leaves the workspace as it is; `Workspace.Directory.Execute`
  starts after the uid was assigned.
- Clock differences between replicas, and lease lengths that differ. A lease names its replica, not its
  drive: two drives of one replica share it, in the model as in the code. Heartbeats are renewals sent at
  any time; their timer is not modelled.
- What the task loop itself writes, the model calls and the poll loop of a resumed drive: in `Drive` they
  are part of what happens between two statements. Reads of the store that fail, and retention deleting a
  run while a drive is at it.
- In `RunLease` a drive may fail any number of times; the code has two failure handlers for one resumption,
  which `Drive` counts. A drive that its heartbeat told of a lost lease gives up there.
- What a resumption does before its drive starts (system prompt, credentials, model choice).
- Deriving an owner id from an address, and the database's lower-casing, are parameters; profile
  fields other than the email are not modelled.
- Seeding owners from the operators file, and strict reconcile, are outside `AdminForGood`: either can
  demote or delete an admin. What the grant cleaner deletes, beyond whether it failed.
- Two overlapping appends to one agent: the second one breaks the primary key and is refused, which is
  `Registry.Handle` on the row it finds; weaker isolation inside a transaction is not modelled.
- Columns that no rule reads: names, emoji, groups, models, timestamps.
- Listener: reconnecting, and notifications sent while no connection listens.
- HTTP plumbing, the user interface, tokens and cryptography.
