/** Whole runs of `RunLease`, event by event, in which two sweeps both close a run, and in which a sweep
    parks a run again whose task has been answered. */
module RunExamples {
  import opened Options
  import opened TaskPoll
  import opened RunRow
  import opened RunThread
  import opened RunLease

  const FAILED_LOOK: Look := Look(Failed, 0.0, true)

  /** A sweep looks at the run, finds its task failed, and its claim arrives at once. */
  function FailingVisit(tid: Tid, replica: Replica, now: int, leaseMs: nat): seq<Event> {
    [SweepBegins(tid, replica), SweepLists(tid), SweepChecks(tid), SweepSees(tid, FAILED_LOOK),
     Arrive(Request(Some(tid), replica, now + leaseMs, ClaimRun(replica, now + leaseMs, now)))]
  }

  /** A run that does one decision more; `p` is where it takes the thread. */
  lemma DecideMore(s: State, leaseMs: nat, events: seq<Event>, e: Event, u: State, p: Phase)
    requires u == After(s, leaseMs, events) && IsDecision(e)
    requires NextPhase(PhaseOf(u, e.tid), u.row, u.now, leaseMs, e) == Some(p)
    ensures After(s, leaseMs, events + [e]) == Enter(u, e.tid, p)
  {
    hide NextPhase, Enter, After;
    AfterMore(s, leaseMs, events, e, u, Enter(u, e.tid, p));
  }

  lemma EnterQuietly(s: State, tid: Tid, p: Phase)
    requires !p.Claiming? && !p.Renewing?
    ensures Enter(s, tid, p) == Goto(s, tid, p)
  {
  }

  lemma GoesTo(s: State, tid: Tid, p: Phase, q: Phase)
    ensures PhaseOf(Goto(s, tid, p), tid) == p && Goto(Goto(s, tid, p), tid, q) == Goto(s, tid, q)
    ensures Goto(s, tid, p) == s.(threads := Goto(s, tid, p).threads)
  {
    assert s.threads[tid := p][tid := q] == s.threads[tid := q];
  }

  /** A thread that went to `p` goes on to `q`, which waits for nothing. */
  lemma GoMore(s: State, leaseMs: nat, events: seq<Event>, e: Event, u: State, p: Phase, q: Phase)
    requires IsDecision(e) && Goto(u, e.tid, p) == After(s, leaseMs, events) && !q.Claiming? && !q.Renewing?
    requires NextPhase(p, u.row, u.now, leaseMs, e) == Some(q)
    ensures After(s, leaseMs, events + [e]) == Goto(u, e.tid, q)
  {
    hide NextPhase, Enter, After, Goto, PhaseOf;
    GoesTo(u, e.tid, p, q);
    DecideMore(s, leaseMs, events, e, Goto(u, e.tid, p), q);
    EnterQuietly(Goto(u, e.tid, p), e.tid, q);
  }

  lemma BeginsNext(row: Row, now: int, leaseMs: nat, tid: Tid, replica: Replica)
    ensures NextPhase(Idle, row, now, leaseMs, SweepBegins(tid, replica)) == Some(Began(replica, now))
  {
    hide Seen, ClaimableParked;
  }

  lemma ListsNext(row: Row, now: int, leaseMs: nat, tid: Tid, replica: Replica)
    requires ClaimableParked(row, now)
    ensures NextPhase(Began(replica, now), row, now, leaseMs, SweepLists(tid))
         == Some(Listed(replica, now, Listing(row.parkedTask.value, row.pollInterval)))
  {
    hide Seen;
  }

  lemma ChecksNext(row: Row, now: int, leaseMs: nat, tid: Tid, p: Phase)
    requires p.Listed? && row.status.Active?
    ensures NextPhase(p, row, now, leaseMs, SweepChecks(tid)) == Some(Checked(p.replica, p.began, p.listing))
  {
    hide Seen, ClaimableParked;
  }

  lemma Begins(s: State, leaseMs: nat, tid: Tid, replica: Replica)
    requires PhaseOf(s, tid).Idle?
    ensures After(s, leaseMs, [SweepBegins(tid, replica)]) == Goto(s, tid, Began(replica, s.now))
  {
    var e, p := SweepBegins(tid, replica), Began(replica, s.now);
    assert [] + [e] == [e] && After(s, leaseMs, []) == s;
    hide NextPhase, Enter, After, Goto, PhaseOf;
    BeginsNext(s.row, s.now, leaseMs, tid, replica);
    DecideMore(s, leaseMs, [], e, s, p);
    EnterQuietly(s, tid, p);
  }

  lemma ParkedIsActive(row: Row, now: int)
    requires ClaimableParked(row, now)
    ensures row.status.Active? && row.parkedTask.Some?
  {
  }

  /** The sweep lists the run and finds it active. */
  lemma VisitLists(s: State, leaseMs: nat, tid: Tid, replica: Replica)
    requires PhaseOf(s, tid).Idle? && ClaimableParked(s.row, s.now)
    ensures After(s, leaseMs, [SweepBegins(tid, replica)] + [SweepLists(tid)] + [SweepChecks(tid)])
         == Goto(s, tid, Checked(replica, s.now, Listing(s.row.parkedTask.value, s.row.pollInterval)))
  {
    hide NextPhase, After, Goto, PhaseOf, ClaimableParked;
    ParkedIsActive(s.row, s.now);
    var listing := Listing(s.row.parkedTask.value, s.row.pollInterval);
    var listed := Listed(replica, s.now, listing);
    Begins(s, leaseMs, tid, replica);
    ListsNext(s.row, s.now, leaseMs, tid, replica);
    GoMore(s, leaseMs, [SweepBegins(tid, replica)], SweepLists(tid), s, Began(replica, s.now), listed);
    ChecksNext(s.row, s.now, leaseMs, tid, listed);
    GoMore(s, leaseMs, [SweepBegins(tid, replica)] + [SweepLists(tid)], SweepChecks(tid), s, listed,
           Checked(replica, s.now, listing));
  }

  lemma SeesFailed(row: Row, now: int, leaseMs: nat, tid: Tid, p: Phase)
    requires p.Checked?
    ensures NextPhase(p, row, now, leaseMs, SweepSees(tid, FAILED_LOOK))
         == Some(Claiming(p.replica, LeaseExpiresAt(p.began, leaseMs), p.began, true))
  {
    hide ClaimableParked, NextTaskPollDelayMs;
  }

  lemma VisitLooks(s: State, leaseMs: nat, tid: Tid, replica: Replica, q: Request)
    requires PhaseOf(s, tid).Idle? && ClaimableParked(s.row, s.now) && s.flying == multiset{}
    requires q == Request(Some(tid), replica, s.now + leaseMs, ClaimRun(replica, s.now + leaseMs, s.now))
    ensures After(s, leaseMs, FailingVisit(tid, replica, s.now, leaseMs)[..4])
         == s.(flying := multiset{q}, threads := s.threads[tid := Claiming(replica, s.now + leaseMs, s.now, true)])
  {
    var lists := [SweepBegins(tid, replica)] + [SweepLists(tid)] + [SweepChecks(tid)];
    var p4 := Claiming(replica, s.now + leaseMs, s.now, true);
    assert FailingVisit(tid, replica, s.now, leaseMs)[..4] == lists + [SweepSees(tid, FAILED_LOOK)];
    assert StatementOf(p4) == Some(q.statement);
    hide NextPhase, After, Enter, ClaimableParked, FailingVisit, StatementOf, FAILED_LOOK;
    ParkedIsActive(s.row, s.now);
    var p3 := Checked(replica, s.now, Listing(s.row.parkedTask.value, s.row.pollInterval));
    VisitLists(s, leaseMs, tid, replica);
    SeesFailed(s.row, s.now, leaseMs, tid, p3);
    GoesTo(s, tid, p3, p4);
    DecideMore(s, leaseMs, lists, SweepSees(tid, FAILED_LOOK), Goto(s, tid, p3), p4);
    EnterClaims(Goto(s, tid, p3), tid, p4, q);
  }

  lemma EnterClaims(s: State, tid: Tid, p: Phase, q: Request)
    requires p.Claiming? || p.Renewing?
    requires q == Request(Some(tid), p.replica, p.expires, StatementOf(p).value) && s.flying == multiset{}
    ensures Enter(s, tid, p) == s.(flying := multiset{q}, threads := s.threads[tid := p])
  {
    assert multiset{} + multiset{q} == multiset{q};
  }

  /** The one request on its way arrives and matches the row. */
  lemma ArriveMore(s: State, leaseMs: nat, events: seq<Event>, tid: Tid, q: Request, u: State)
    requires u == After(s, leaseMs, events) && u.flying == multiset{q} && q.tid == Some(tid)
    requires StatementOf(PhaseOf(u, tid)) == Some(q.statement) && Execute(u.row, q.statement).Some?
    ensures var t := After(s, leaseMs, events + [Arrive(q)]);
            && t.flying == multiset{} && t.now == u.now && t.row == Executed(u.row, q.statement)
            && t.threads == u.threads[tid := Stepped(PhaseOf(u, tid), true)]
  {
    hide After, Stepped, StatementOf, Execute;
    assert multiset{q} - multiset{q} == multiset{};
    AfterMore(s, leaseMs, events, Arrive(q), u, Arrived(u.(flying := multiset{}), q));
  }

  lemma RunMore(s: State, leaseMs: nat, events: seq<Event>, tid: Tid, u: State, st: Statement)
    requires u == After(s, leaseMs, events) && StatementOf(PhaseOf(u, tid)) == Some(st)
    requires !PhaseOf(u, tid).Claiming? && !PhaseOf(u, tid).Renewing?
    ensures var t := After(s, leaseMs, events + [Runs(tid)]);
            && t.row == Executed(u.row, st) && t.now == u.now && t.flying == u.flying
            && t.threads == u.threads[tid := Stepped(PhaseOf(u, tid), Execute(u.row, st).Some?)]
  {
    hide After, Stepped, StatementOf, Execute;
    AfterMore(s, leaseMs, events, Runs(tid), u, Ran(u, tid, st));
  }

  lemma ClaimTakes(row: Row, replica: Replica, expires: int, asOf: int)
    requires row.status.Active? && Claimable(row, asOf)
    ensures Execute(row, ClaimRun(replica, expires, asOf)) == Some(row.(owner := Some(replica), lease := Some(expires)))
    ensures Executed(row, ClaimRun(replica, expires, asOf)) == row.(owner := Some(replica), lease := Some(expires))
  {
  }

  lemma VisitClaims(s: State, leaseMs: nat, tid: Tid, replica: Replica)
    requires PhaseOf(s, tid).Idle? && ClaimableParked(s.row, s.now) && s.flying == multiset{}
    ensures var t := After(s, leaseMs, FailingVisit(tid, replica, s.now, leaseMs));
            && t.row == s.row.(owner := Some(replica), lease := Some(s.now + leaseMs))
            && t.flying == multiset{} && t.now == s.now && t.threads == s.threads[tid := Appending(true, true)]
  {
    var visit := FailingVisit(tid, replica, s.now, leaseMs);
    var q := Request(Some(tid), replica, s.now + leaseMs, ClaimRun(replica, s.now + leaseMs, s.now));
    assert visit == visit[..4] + [Arrive(q)];
    ClaimTakes(s.row, replica, s.now + leaseMs, s.now);
    assert s.threads[tid := Claiming(replica, s.now + leaseMs, s.now, true)][tid := Appending(true, true)]
        == s.threads[tid := Appending(true, true)];
    hide After, FailingVisit, Execute;
    VisitLooks(s, leaseMs, tid, replica, q);
    ArriveMore(s, leaseMs, visit[..4], tid, q, After(s, leaseMs, visit[..4]));
  }

  /** Two sweeps that are both past their claims close the run in turn. */
  lemma BothClose(s: State, leaseMs: nat, a: Tid, b: Tid)
    requires a != b && PhaseOf(s, a) == Appending(true, true) && PhaseOf(s, b) == Appending(true, true)
    ensures After(s, leaseMs, [Runs(a), Runs(b), Runs(a), Runs(b)]).row.steps
         == s.row.steps + [Outcome(true), Outcome(true)]
    ensures After(s, leaseMs, [Runs(a), Runs(b), Runs(a), Runs(b)]).now == s.now
  {
    var s1, s2 := After(s, leaseMs, [Runs(a)]), After(s, leaseMs, [Runs(a), Runs(b)]);
    var s3 := After(s, leaseMs, [Runs(a), Runs(b), Runs(a)]);
    assert After(s, leaseMs, []) == s;
    hide After;
    assert [Runs(a)] == [] + [Runs(a)];
    RunMore(s, leaseMs, [], a, s, AppendStep(Outcome(true)));
    assert [Runs(a)] + [Runs(b)] == [Runs(a), Runs(b)];
    RunMore(s, leaseMs, [Runs(a)], b, s1, AppendStep(Outcome(true)));
    assert [Runs(a), Runs(b)] + [Runs(a)] == [Runs(a), Runs(b), Runs(a)];
    RunMore(s, leaseMs, [Runs(a), Runs(b)], a, s2, CompleteRun);
    assert [Runs(a), Runs(b), Runs(a)] + [Runs(b)] == [Runs(a), Runs(b), Runs(a), Runs(b)];
    RunMore(s, leaseMs, [Runs(a), Runs(b), Runs(a)], b, s3, CompleteRun);
    assert s.row.steps + [Outcome(true)] + [Outcome(true)] == s.row.steps + [Outcome(true), Outcome(true)];
  }

  function TwoSweeps(a: Replica, b: Replica, now: int, leaseMs: nat): seq<Event> {
    FailingVisit(1, a, now, leaseMs) + [Tick(leaseMs + 1)] + FailingVisit(2, b, now + leaseMs + 1, leaseMs)
    + [Runs(1), Runs(2), Runs(1), Runs(2)]
  }

  /** It happens: a sweep claims a run whose task failed, stalls for more than a lease, and a second
      sweep claims and closes the run too.  Nobody reopens it, and it has two outcome steps. */
  lemma TwoSweepsBothWrite(start: State, leaseMs: nat, a: Replica, b: Replica)
    requires Initial(start) && ClaimableParked(start.row, start.now)
    ensures After(start, leaseMs, TwoSweeps(a, b, start.now, leaseMs)).row.steps
         == start.row.steps + [Outcome(true), Outcome(true)]
  {
    var first := FailingVisit(1, a, start.now, leaseMs);
    var later := start.now + leaseMs + 1;
    var second := FailingVisit(2, b, later, leaseMs);
    hide FailingVisit, After;
    VisitClaims(start, leaseMs, 1, a);
    var s1 := After(start, leaseMs, first);
    var s2 := s1.(now := later);
    AfterMore(start, leaseMs, first, Tick(leaseMs + 1), s1, s2);
    VisitClaims(s2, leaseMs, 2, b);
    AfterConcat(start, leaseMs, first + [Tick(leaseMs + 1)], second);
    var s3 := After(s2, leaseMs, second);
    BothClose(s3, leaseMs, 1, 2);
    AfterConcat(start, leaseMs, first + [Tick(leaseMs + 1)] + second, [Runs(1), Runs(2), Runs(1), Runs(2)]);
  }

  /** The replica lets the run go; `finally` of any of its drives does. */
  lemma ReleaseMore(s: State, leaseMs: nat, events: seq<Event>, replica: Replica, u: State)
    requires u == After(s, leaseMs, events) && u.row.owner == Some(replica)
    ensures var t := After(s, leaseMs, events + [Release(replica)]);
            && t.row == u.row.(owner := None, lease := None)
            && t.flying == u.flying && t.now == u.now && t.threads == u.threads
  {
    hide After;
    AfterMore(s, leaseMs, events, Release(replica), u, Apply(u, leaseMs, Release(replica)).value);
  }

  function ReleasedVisits(a: Replica, b: Replica, now: int, leaseMs: nat): seq<Event> {
    FailingVisit(1, a, now, leaseMs) + [Release(a)] + FailingVisit(2, b, now, leaseMs)
    + [Runs(1), Runs(2), Runs(1), Runs(2)]
  }

  /** It also happens at one moment: a release names its replica only, so another drive of the first
      sweep's replica gives the sweep's claim away, and a second sweep with the same clock closes the
      run too. */
  lemma ReleasedRunClosedTwice(start: State, leaseMs: nat, a: Replica, b: Replica)
    requires Initial(start) && ClaimableParked(start.row, start.now)
    ensures After(start, leaseMs, ReleasedVisits(a, b, start.now, leaseMs)).row.steps
         == start.row.steps + [Outcome(true), Outcome(true)]
    ensures After(start, leaseMs, ReleasedVisits(a, b, start.now, leaseMs)).now == start.now
  {
    var first := FailingVisit(1, a, start.now, leaseMs);
    var second := FailingVisit(2, b, start.now, leaseMs);
    hide FailingVisit, After;
    VisitClaims(start, leaseMs, 1, a);
    var s1 := After(start, leaseMs, first);
    ReleaseMore(start, leaseMs, first, a, s1);
    var s2 := After(start, leaseMs, first + [Release(a)]);
    VisitClaims(s2, leaseMs, 2, b);
    AfterConcat(start, leaseMs, first + [Release(a)], second);
    BothClose(After(s2, leaseMs, second), leaseMs, 1, 2);
    AfterConcat(start, leaseMs, first + [Release(a)] + second, [Runs(1), Runs(2), Runs(1), Runs(2)]);
  }

  /** A drive claims the run. */
  function ClaimPart(tid: Tid, replica: Replica, now: int, leaseMs: nat): seq<Event> {
    var expires := now + leaseMs;
    [DriveStarts(tid, replica), Arrive(Request(Some(tid), replica, expires, ClaimRun(replica, expires, now)))]
  }

  /** It waits for a task's result. */
  function WaitPart(tid: Tid, task: string): seq<Event> {
    [DriveParks(tid, task, None, false), Runs(tid), Runs(tid)]
  }

  /** It hears the result, renews, records it and clears the task. */
  function RecordPart(tid: Tid, replica: Replica, now: int, leaseMs: nat): seq<Event> {
    var expires := now + leaseMs;
    [DriveHears(tid, false), Arrive(Request(Some(tid), replica, expires, RenewLease(replica, expires))),
     Runs(tid), Runs(tid)]
  }

  lemma DriveAsks(s: State, leaseMs: nat, tid: Tid, replica: Replica, p: Phase, q: Request)
    requires PhaseOf(s, tid).Idle? && s.flying == multiset{}
    requires p == Claiming(replica, s.now + leaseMs, s.now, false)
    requires q == Request(Some(tid), replica, s.now + leaseMs, ClaimRun(replica, s.now + leaseMs, s.now))
    ensures After(s, leaseMs, [DriveStarts(tid, replica)])
         == s.(flying := multiset{q}, threads := s.threads[tid := p])
  {
    assert [] + [DriveStarts(tid, replica)] == [DriveStarts(tid, replica)] && After(s, leaseMs, []) == s;
    hide After, Enter;
    DecideMore(s, leaseMs, [], DriveStarts(tid, replica), s, p);
    EnterClaims(s, tid, p, q);
  }

  lemma DriveClaims(s: State, leaseMs: nat, tid: Tid, replica: Replica)
    requires PhaseOf(s, tid).Idle? && s.row.status.Active? && Claimable(s.row, s.now) && s.flying == multiset{}
    ensures var t := After(s, leaseMs, ClaimPart(tid, replica, s.now, leaseMs));
            && t.row == s.row.(owner := Some(replica), lease := Some(s.now + leaseMs)) && t.now == s.now
            && t.flying == multiset{} && t.threads == s.threads[tid := Driving(replica)]
  {
    var p := Claiming(replica, s.now + leaseMs, s.now, false);
    var q := Request(Some(tid), replica, s.now + leaseMs, ClaimRun(replica, s.now + leaseMs, s.now));
    var u := s.(flying := multiset{q}, threads := s.threads[tid := p]);
    assert ClaimPart(tid, replica, s.now, leaseMs) == [DriveStarts(tid, replica)] + [Arrive(q)];
    assert PhaseOf(u, tid) == p && Stepped(p, true) == Driving(replica) && StatementOf(p) == Some(q.statement);
    assert s.threads[tid := p][tid := Driving(replica)] == s.threads[tid := Driving(replica)];
    hide After, ClaimPart, Execute, Executed, Stepped, StatementOf;
    ClaimTakes(s.row, replica, s.now + leaseMs, s.now);
    DriveAsks(s, leaseMs, tid, replica, p, q);
    ArriveMore(s, leaseMs, [DriveStarts(tid, replica)], tid, q, u);
  }

  lemma DriveWaits(s: State, leaseMs: nat, tid: Tid, replica: Replica, task: string)
    requires PhaseOf(s, tid) == Driving(replica) && s.row.status.Active?
    ensures var t := After(s, leaseMs, WaitPart(tid, task));
            && t.row == s.row.(parkedTask := Some(task), pollInterval := None,
                               steps := s.row.steps + [WaitingApproval(task)])
            && t.now == s.now && t.flying == s.flying && t.threads == s.threads[tid := Waiting(replica, false)]
  {
    var park := DriveParks(tid, task, None, false);
    var p, noting := Parking(replica, task, None, false), Noting(replica, task, false);
    var s2 := After(s, leaseMs, [park] + [Runs(tid)]);
    assert [] + [park] == [park] && WaitPart(tid, task) == [park] + [Runs(tid)] + [Runs(tid)];
    assert After(s, leaseMs, []) == s;
    hide After;
    DecideMore(s, leaseMs, [], park, s, p);
    EnterQuietly(s, tid, p);
    RunMore(s, leaseMs, [park], tid, Goto(s, tid, p), Park(task, None));
    RunMore(s, leaseMs, [park] + [Runs(tid)], tid, s2, AppendStep(WaitingApproval(task)));
    assert s.threads[tid := p][tid := noting][tid := Waiting(replica, false)]
        == s.threads[tid := Waiting(replica, false)];
  }

  lemma DriveRenews(s: State, leaseMs: nat, tid: Tid, replica: Replica, q: Request)
    requires PhaseOf(s, tid) == Waiting(replica, false) && s.row.status.Active? && s.row.owner == Some(replica)
    requires s.flying == multiset{}
    requires q == Request(Some(tid), replica, s.now + leaseMs, RenewLease(replica, s.now + leaseMs))
    ensures var t := After(s, leaseMs, [DriveHears(tid, false)] + [Arrive(q)]);
            t.row == s.row.(lease := Some(s.now + leaseMs)) && t.threads == s.threads[tid := Recording(replica)]
  {
    var hears := DriveHears(tid, false);
    var p := Renewing(replica, s.now + leaseMs, false);
    assert [] + [hears] == [hears] && After(s, leaseMs, []) == s;
    hide After;
    DecideMore(s, leaseMs, [], hears, s, p);
    EnterClaims(s, tid, p, q);
    ArriveMore(s, leaseMs, [hears], tid, q, Enter(s, tid, p));
    assert s.threads[tid := p][tid := Recording(replica)] == s.threads[tid := Recording(replica)];
  }

  lemma RecordsAndClears(s: State, leaseMs: nat, tid: Tid, replica: Replica)
    requires PhaseOf(s, tid) == Recording(replica)
    ensures var t := After(s, leaseMs, [Runs(tid)] + [Runs(tid)]);
            && t.row == s.row.(steps := s.row.steps + [ToolResult],
                               parkedTask := None, pollInterval := None, nextPollAt := None)
            && t.threads == s.threads[tid := Driving(replica)]
  {
    assert [] + [Runs(tid)] == [Runs(tid)] && After(s, leaseMs, []) == s;
    hide After;
    var s1 := After(s, leaseMs, [Runs(tid)]);
    RunMore(s, leaseMs, [], tid, s, AppendStep(ToolResult));
    RunMore(s, leaseMs, [Runs(tid)], tid, s1, ClearPark);
    assert s.threads[tid := Clearing(replica)][tid := Driving(replica)] == s.threads[tid := Driving(replica)];
  }

  lemma RecordPartIs(tid: Tid, replica: Replica, now: int, leaseMs: nat, q: Request)
    requires q == Request(Some(tid), replica, now + leaseMs, RenewLease(replica, now + leaseMs))
    ensures RecordPart(tid, replica, now, leaseMs)
         == [DriveHears(tid, false)] + [Arrive(q)] + ([Runs(tid)] + [Runs(tid)])
  {
  }

  lemma DriveRecords(s: State, leaseMs: nat, tid: Tid, replica: Replica)
    requires PhaseOf(s, tid) == Waiting(replica, false) && s.row.status.Active? && s.row.owner == Some(replica)
    requires s.flying == multiset{}
    ensures var t := After(s, leaseMs, RecordPart(tid, replica, s.now, leaseMs));
            && t.row == s.row.(lease := Some(s.now + leaseMs), steps := s.row.steps + [ToolResult],
                               parkedTask := None, pollInterval := None, nextPollAt := None)
            && t.threads == s.threads[tid := Driving(replica)]
  {
    var q := Request(Some(tid), replica, s.now + leaseMs, RenewLease(replica, s.now + leaseMs));
    var renewal := [DriveHears(tid, false)] + [Arrive(q)];
    var recorded, driven := s.threads[tid := Recording(replica)], s.threads[tid := Driving(replica)];
    assert recorded[tid := Driving(replica)] == driven;
    DriveRenews(s, leaseMs, tid, replica, q);
    var u := After(s, leaseMs, renewal);
    assert u.threads == recorded && PhaseOf(u, tid) == Recording(replica);
    hide *;
    RecordPartIs(tid, replica, s.now, leaseMs, q);
    AfterConcat(s, leaseMs, renewal, [Runs(tid)] + [Runs(tid)]);
    RecordsAndClears(u, leaseMs, tid, replica);
  }

  /** A drive on `replica` claims the run, waits for the parked task, records its result and clears it. */
  function Resumption(tid: Tid, replica: Replica, task: string, now: int, leaseMs: nat): seq<Event> {
    ClaimPart(tid, replica, now, leaseMs) + WaitPart(tid, task) + RecordPart(tid, replica, now, leaseMs)
  }

  lemma ResumptionClears(s: State, leaseMs: nat, tid: Tid, replica: Replica, task: string)
    requires PhaseOf(s, tid).Idle? && s.row.status.Active? && Claimable(s.row, s.now) && s.flying == multiset{}
    ensures var t := After(s, leaseMs, Resumption(tid, replica, task, s.now, leaseMs));
            && t.row == s.row.(owner := Some(replica), lease := Some(s.now + leaseMs),
                               steps := s.row.steps + [WaitingApproval(task), ToolResult],
                               parkedTask := None, pollInterval := None, nextPollAt := None)
            && t.threads == s.threads[tid := Driving(replica)]
  {
    var claim, wait := ClaimPart(tid, replica, s.now, leaseMs), WaitPart(tid, task);
    var record := RecordPart(tid, replica, s.now, leaseMs);
    hide After, ClaimPart, WaitPart, RecordPart;
    DriveClaims(s, leaseMs, tid, replica);
    AfterConcat(s, leaseMs, claim, wait);
    DriveWaits(After(s, leaseMs, claim), leaseMs, tid, replica, task);
    AfterConcat(s, leaseMs, claim + wait, record);
    DriveRecords(After(s, leaseMs, claim + wait), leaseMs, tid, replica);
    assert s.row.steps + [WaitingApproval(task)] + [ToolResult] == s.row.steps + [WaitingApproval(task), ToolResult];
    assert s.threads[tid := Driving(replica)][tid := Waiting(replica, false)][tid := Driving(replica)]
        == s.threads[tid := Driving(replica)];
  }

  /** A sweep's visit up to its look at the task. */
  function Looks(tid: Tid, replica: Replica, look: Look): seq<Event> {
    [SweepBegins(tid, replica)] + [SweepLists(tid)] + [SweepChecks(tid)] + [SweepSees(tid, look)]
  }

  lemma SeesPending(row: Row, now: int, leaseMs: nat, tid: Tid, p: Phase, look: Look) returns (n: Phase)
    requires p.Checked? && look.poll.Pending? && IsDraw(look.random)
    ensures NextPhase(p, row, now, leaseMs, SweepSees(tid, look)) == Some(n)
    ensures n.Rescheduling? && n.listing == p.listing && n.asked == look.poll.pollIntervalMs
  {
    n := Seen(p, look, leaseMs, now);
    hide NextTaskPollDelayMs, ClaimableParked;
  }

  lemma LooksPending(s: State, leaseMs: nat, tid: Tid, replica: Replica, look: Look) returns (n: Phase)
    requires PhaseOf(s, tid).Idle? && ClaimableParked(s.row, s.now)
    requires look.poll.Pending? && IsDraw(look.random)
    ensures After(s, leaseMs, Looks(tid, replica, look)) == Goto(s, tid, n)
    ensures n.Rescheduling? && n.listing.task == s.row.parkedTask.value && n.asked == look.poll.pollIntervalMs
  {
    hide NextPhase, After, Goto, PhaseOf, ClaimableParked, IsDraw;
    ParkedIsActive(s.row, s.now);
    var checked := Checked(replica, s.now, Listing(s.row.parkedTask.value, s.row.pollInterval));
    VisitLists(s, leaseMs, tid, replica);
    n := SeesPending(s.row, s.now, leaseMs, tid, checked, look);
    GoMore(s, leaseMs, [SweepBegins(tid, replica)] + [SweepLists(tid)] + [SweepChecks(tid)], SweepSees(tid, look), s,
           checked, n);
  }

  /** The two statements of a sweep that found the task pending. */
  lemma Reparks(s: State, leaseMs: nat, tid: Tid)
    requires PhaseOf(s, tid).Rescheduling? && s.threads[tid].asked.Some? && s.row.status.Active?
    ensures var t := After(s, leaseMs, [Runs(tid)] + [Runs(tid)]);
            && SameLease(s.row, t.row) && t.row.steps == s.row.steps
            && t.row.parkedTask == Some(s.threads[tid].listing.task)
  {
    var p := s.threads[tid];
    assert [] + [Runs(tid)] == [Runs(tid)] && After(s, leaseMs, []) == s;
    assert StatementOf(p) == Some(NextPoll(p.at)) && Stepped(p, true) == Reparking(p.listing, p.asked);
    hide After, Execute, Executed, StatementOf, Stepped, SameLease;
    ReparkedRow(s.row, p);
    RunMore(s, leaseMs, [], tid, s, NextPoll(p.at));
    RunMore(s, leaseMs, [Runs(tid)], tid, After(s, leaseMs, [Runs(tid)]), Park(p.listing.task, p.asked));
  }

  lemma ReparkedRow(row: Row, p: Phase)
    requires p.Rescheduling? && row.status.Active?
    ensures Execute(row, NextPoll(p.at)).Some?
    ensures StatementOf(Reparking(p.listing, p.asked)) == Some(Park(p.listing.task, p.asked))
    ensures var t := Executed(Executed(row, NextPoll(p.at)), Park(p.listing.task, p.asked));
            SameLease(row, t) && t.steps == row.steps && t.parkedTask == Some(p.listing.task)
  {
  }

  /** It happens, from a run nobody is at: a sweep looks at the task and finds it pending; before it writes
      that down another replica resumes the run, records the task's result and clears the task; the
      sweep's statements then park the run again on the answered task. */
  lemma AnsweredRunIsReparked(start: State, leaseMs: nat, a: Replica, b: Replica, look: Look)
    requires Initial(start) && ClaimableParked(start.row, start.now)
    requires look.poll.Pending? && look.poll.pollIntervalMs.Some? && IsDraw(look.random)
    ensures var task := start.row.parkedTask.value;
            var t := After(start, leaseMs,
                           Looks(1, a, look) + Resumption(2, b, task, start.now, leaseMs) + ([Runs(1)] + [Runs(1)]));
            && t.row.parkedTask == Some(task) && t.row.owner == Some(b) && t.row.status.Active?
            && t.row.steps == start.row.steps + [WaitingApproval(task), ToolResult]
  {
    ParkedIsActive(start.row, start.now);
    var task := start.row.parkedTask.value;
    var looks, run := Looks(1, a, look), Resumption(2, b, task, start.now, leaseMs);
    assert Claimable(start.row, start.now);
    hide After, Resumption, Looks, ClaimableParked, Claimable, IsDraw, Executed, Execute;
    var n := LooksPending(start, leaseMs, 1, a, look);
    var s1 := After(start, leaseMs, looks);
    ResumptionClears(s1, leaseMs, 2, b, task);
    AfterConcat(start, leaseMs, looks, run);
    var s2 := After(start, leaseMs, looks + run);
    assert s2.threads[1] == n;
    AfterConcat(start, leaseMs, looks + run, [Runs(1)] + [Runs(1)]);
    Reparks(s2, leaseMs, 1);
  }
}
