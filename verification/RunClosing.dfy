/** What follows a claim in `RunLease`: when another claim can match, and how many outcome steps the
    run can get, from sweeps and drives alike. */
module RunClosing {
  import opened Options
  import opened TaskPoll
  import opened RunRow
  import opened RunThread
  import opened RunLease
  import opened LeaseTheorems

  // ---------- A second claim ----------

  lemma {:induction false} Beyond(keys: set<int>) returns (b: int)
    ensures forall k <- keys :: k < b
  {
    b := 0;
    if k: int :| k in keys {
      b := Beyond(keys - {k});
      b := if k < b then b else k + 1;
      assert forall j <- keys :: j == k || j in keys - {k};
    }
  }

  /** A drive on a thread that was idle sends its claim. */
  lemma DriveSends(s: State, leaseMs: nat, tid: Tid, replica: Replica) returns (q: Request)
    requires PhaseOf(s, tid).Idle?
    ensures var t := Apply(s, leaseMs, DriveStarts(tid, replica));
            && t.Some? && t.value == s.(flying := s.flying + multiset{q},
                                        threads := s.threads[tid := Claiming(replica, q.expires, s.now, false)])
    ensures q == Request(Some(tid), replica, s.now + leaseMs, ClaimRun(replica, s.now + leaseMs, s.now))
  {
    q := Request(Some(tid), replica, s.now + leaseMs, ClaimRun(replica, s.now + leaseMs, s.now));
  }

  /** Nobody lets the run go, reopens it or runs a statement of its own. */
  predicate Idling(events: seq<Event>) {
    forall e <- events :: !e.Release? && !e.Continue? && !e.Runs? && !e.StatusFails?
  }

  lemma {:induction false} IdlingNeverEnds(s: State, leaseMs: nat, events: seq<Event>, replica: Replica)
    requires Idling(events)
    ensures NeverEnds(s, leaseMs, events, replica)
  {
    if events != [] {
      var n := |events| - 1;
      assert forall e <- events[..n] :: e in events;
      IdlingNeverEnds(s, leaseMs, events[..n], replica);
      assert events[n] in events;
    }
  }

  lemma ArrivesAs(s: State, leaseMs: nat, q: Request) returns (t: State)
    requires q in s.flying
    ensures Apply(s, leaseMs, Arrive(q)) == Some(t)
  {
    t := Arrived(s.(flying := s.flying - multiset{q}), q);
    hide Arrived;
  }

  lemma RenewalExecutes(row: Row, q: Request)
    requires WellFormed(q) && q.statement.RenewLease? && row.status.Active? && row.owner == Some(q.replica)
    ensures Executed(row, q.statement) == row.(lease := Some(q.expires))
  {
  }

  /** An older renewal of the owner arrives; it moves no thread but one that was renewing. */
  lemma OlderArrives(t: State, leaseMs: nat, early: Request) returns (u: State)
    requires Inv(t, leaseMs) && t.row.status.Active? && t.row.owner == Some(early.replica)
    requires early in t.flying && early.statement.RenewLease?
    ensures Apply(t, leaseMs, Arrive(early)) == Some(u)
    ensures u.now == t.now && u.row == t.row.(lease := Some(early.expires))
    ensures t.threads.Keys == u.threads.Keys
    ensures forall a <- t.threads :: !t.threads[a].Renewing? ==> u.threads[a] == t.threads[a]
  {
    u := ArrivesAs(t, leaseMs, early);
    assert InFlight(t, leaseMs, early);
    hide Inv, Apply, Execute, Executed, Stepped, StatementOf;
    RenewalExecutes(t.row, early);
    ArrivalFields(t, leaseMs, early, u);
    if Awaits(t, early) { RequestPhase(PhaseOf(t, early.tid.value), early); }
  }

  /** An older renewal arrives, and once the expiry it leaves is past a new drive sends a claim, which
      matches. */
  lemma OlderRenewalOpens(t: State, leaseMs: nat, early: Request, replica: Replica, expires: int)
    returns (events: seq<Event>, u: State, q: Request, b: Tid)
    requires Inv(t, leaseMs) && HoldsLease(t.row, replica, expires) && t.now <= expires
    requires early in t.flying && early.statement.RenewLease? && early.replica == replica && early.expires < expires
    ensures Idling(events) && u == After(t, leaseMs, events) && t.now <= u.now <= expires
    ensures u.row == t.row.(lease := u.row.lease) && Execute(u.row, q.statement).Some?
    ensures forall a <- t.threads :: !t.threads[a].Renewing? ==> a in u.threads && u.threads[a] == t.threads[a]
    ensures b !in t.threads && q in u.flying && q.tid == Some(b) && q.statement.ClaimRun?
    ensures b in u.threads && u.threads[b].Claiming? && !u.threads[b].sweep && Awaits(u, q)
  {
    hide Inv, Apply, After;
    var u1 := OlderArrives(t, leaseMs, early);
    AfterOne(t, leaseMs, Arrive(early));
    var wait: nat := if early.expires < t.now then 0 else early.expires + 1 - t.now;
    var u2 := u1.(now := u1.now + wait);
    TickFields(u1, leaseMs, wait);
    AfterMore(t, leaseMs, [Arrive(early)], Tick(wait), u1, u2);
    b := Beyond(t.threads.Keys);
    q := DriveSends(u2, leaseMs, b, replica);
    u := Apply(u2, leaseMs, DriveStarts(b, replica)).value;
    AfterMore(t, leaseMs, [Arrive(early)] + [Tick(wait)], DriveStarts(b, replica), u2, u);
    events := [Arrive(early)] + [Tick(wait)] + [DriveStarts(b, replica)];
  }

  lemma TickFields(s: State, leaseMs: nat, ms: nat)
    ensures Apply(s, leaseMs, Tick(ms)) == Some(s.(now := s.now + ms))
  {
  }

  lemma NoClaimMatches(t: State, leaseMs: nat, events: seq<Event>, replica: Replica, expires: int, r: Request)
    requires Inv(t, leaseMs) && HoldsLease(t.row, replica, expires) && Covers(t.flying, replica, expires)
    requires expires <= t.now + leaseMs && NeverEnds(t, leaseMs, events, replica)
    requires var u := After(t, leaseMs, events); u.now <= expires && r in u.flying && r.statement.ClaimRun?
    ensures Execute(After(t, leaseMs, events).row, r.statement).None?
  {
    InvFrom(t, leaseMs, events);
    HoldsThrough(t, leaseMs, events, replica, expires);
    var u := After(t, leaseMs, events);
    assert InFlight(u, leaseMs, r);
    hide After, Inv, NeverEnds, Covers;
    RequestHolds(u.row, r, replica, expires, u.now);
  }

  /** Right after a claim or a renewal of `q.replica` matched: exactly when no older renewal of that
      replica is on its way, no claim of anyone matches until the expiry it asked for, whatever happens,
      unless the replica lets the run go or somebody completes it. */
  lemma SecondClaimIff(s: State, leaseMs: nat, q: Request, t: State)
    requires Inv(s, leaseMs) && Apply(s, leaseMs, Arrive(q)) == Some(t)
    requires Execute(s.row, q.statement).Some? && s.now <= q.expires
    ensures Covers(t.flying, q.replica, q.expires) <==>
            forall events, r ::
              (var u := After(t, leaseMs, events);
               && NeverEnds(t, leaseMs, events, q.replica) && u.now <= q.expires
               && r in u.flying && r.statement.ClaimRun?) ==>
                Execute(After(t, leaseMs, events).row, r.statement).None?
  {
    hide Apply, Inv, HoldsLease, Execute, After, NeverEnds;
    GrantHolds(s, leaseMs, q, t);
    if Covers(t.flying, q.replica, q.expires) {
      hide Covers;
      forall events, r | NeverEnds(t, leaseMs, events, q.replica) && After(t, leaseMs, events).now <= q.expires
                         && r in After(t, leaseMs, events).flying && r.statement.ClaimRun?
        ensures Execute(After(t, leaseMs, events).row, r.statement).None?
      {
        NoClaimMatches(t, leaseMs, events, q.replica, q.expires, r);
      }
    } else {
      var early :| early in t.flying && early.statement.RenewLease? && early.replica == q.replica
                   && early.expires < q.expires;
      var events, u, r, b := OlderRenewalOpens(t, leaseMs, early, q.replica, q.expires);
      IdlingNeverEnds(t, leaseMs, events, q.replica);
    }
  }

  // ---------- A second outcome step ----------

  function OutcomeSteps(steps: seq<RunStep>): nat {
    if steps == [] then 0
    else OutcomeSteps(steps[..|steps| - 1]) + if steps[|steps| - 1].Outcome? then 1 else 0
  }

  predicate IsOutcomeStep(st: Statement) {
    st.AppendStep? && st.step.Outcome?
  }

  lemma OutcomeMore(steps: seq<RunStep>, step: RunStep)
    ensures OutcomeSteps(steps + [step]) == OutcomeSteps(steps) + if step.Outcome? then 1 else 0
  {
    assert (steps + [step])[..|steps|] == steps;
  }

  /** The replica does not let the run go, nobody reopens it, and no drive's status write fails. */
  predicate Undisturbed(events: seq<Event>, replica: Replica) {
    forall e <- events :: Calm(e, replica)
  }

  predicate Calm(e: Event, replica: Replica) {
    e != Release(replica) && e != Continue && !e.StatusFails?
  }

  /** A thread in phase `p` may still write an outcome step: it is past its claim and about to write one, or
      comes to it without another look at the run; or it is a drive past its claim on an active run, which by
      failing comes to one whoever has the lease. */
  predicate OnItsWay(p: Phase, active: bool) {
    || p.Appending? || p.Driving? || p.Recording? || p.Clearing?
    || (MayFail(p) && active)
  }

  predicate MayClose(s: State, x: Tid) {
    OnItsWay(PhaseOf(s, x), s.row.status.Active?)
  }

  ghost predicate OnlyCloser(s: State, a: Tid) {
    forall x :: x != a ==> !MayClose(s, x)
  }

  // Nobody else's outcome step

  lemma NextOnItsWay(p: Phase, row: Row, now: int, leaseMs: nat, e: Event)
    requires !e.StatusFails?
    ensures match NextPhase(p, row, now, leaseMs, e)
            case None => true
            case Some(n) => OnItsWay(n, row.status.Active?) ==> OnItsWay(p, row.status.Active?)
  {
    hide NextTaskPollDelayMs, ClaimableParked;
  }

  /** A statement's answer; `was` and `still` say whether the run was active before it and is after it. */
  lemma SteppedOnItsWay(p: Phase, ok: bool, was: bool, still: bool)
    requires OnItsWay(Stepped(p, ok), still) && (still ==> was) && (p.Completing? ==> !still)
    requires p.Claiming? || (p.Renewing? && !was) ==> !ok
    ensures OnItsWay(p, was) && !p.Appending?
  {
  }

  lemma DecisionCloses(s: State, leaseMs: nat, e: Event, t: State, x: Tid)
    requires IsDecision(e) && Decided(s, leaseMs, e) == Some(t) && MayClose(t, x) && !e.StatusFails?
    ensures MayClose(s, x)
  {
    var p := PhaseOf(s, e.tid);
    NextOnItsWay(p, s.row, s.now, leaseMs, e);
    assert t.row == s.row && t.threads == s.threads[e.tid := NextPhase(p, s.row, s.now, leaseMs, e).value];
    hide NextPhase, Decided, MayFail;
  }

  lemma ArrivalCloses(s: State, leaseMs: nat, q: Request, t: State, x: Tid)
    requires Apply(s, leaseMs, Arrive(q)) == Some(t) && WellFormed(q) && MayClose(t, x)
    requires q.statement.ClaimRun? ==> Execute(s.row, q.statement).None?
    ensures MayClose(s, x)
  {
    hide Apply, MayFail, Execute, Executed, Stepped, StatementOf;
    ArrivalFields(s, leaseMs, q, t);
    RequestStatus(s.row, q);
    var p := PhaseOf(s, x);
    if Awaits(s, q) && q.tid == Some(x) {
      RequestPhase(p, q);
      SteppedOnItsWay(p, Execute(s.row, q.statement).Some?, s.row.status.Active?, t.row.status.Active?);
    }
  }

  /** A request leaves the status, and matches an active run only. */
  lemma RequestStatus(row: Row, q: Request)
    requires WellFormed(q)
    ensures Executed(row, q.statement).status == row.status
    ensures Execute(row, q.statement).Some? ==> row.status.Active?
  {
  }

  lemma RequestPhase(p: Phase, q: Request)
    requires WellFormed(q) && StatementOf(p) == Some(q.statement)
    ensures p.Claiming? || p.Renewing?
    ensures p.replica == q.replica && (p.Claiming? <==> q.statement.ClaimRun?)
  {
  }

  /** No statement but `ContinueRun` makes a run active. */
  lemma StatusAfter(row: Row, st: Statement)
    requires st != ContinueRun
    ensures Executed(row, st).status.Active? ==> row.status.Active? && st != CompleteRun
  {
  }

  lemma RunCloses(s: State, leaseMs: nat, tid: Tid, t: State, x: Tid)
    requires Apply(s, leaseMs, Runs(tid)) == Some(t) && MayClose(t, x)
    ensures MayClose(s, x) && !(tid == x && PhaseOf(s, x).Appending?)
  {
    hide MayFail, Execute, Executed, Stepped, StatementOf;
    var p := PhaseOf(s, tid);
    OwnStatement(p);
    var st := StatementOf(p).value;
    var ok := Execute(s.row, st).Some?;
    assert t.threads == s.threads[tid := Stepped(p, ok)] && t.row == Executed(s.row, st);
    hide Apply;
    StatusAfter(s.row, st);
    if x == tid { SteppedOnItsWay(p, ok, s.row.status.Active?, t.row.status.Active?); }
  }

  lemma OwnStatement(p: Phase)
    ensures StatementOf(p) != Some(ContinueRun) && (p.Completing? ==> StatementOf(p) == Some(CompleteRun))
  {
  }

  lemma DecisionApplies(s: State, leaseMs: nat, e: Event, t: State)
    requires Apply(s, leaseMs, e) == Some(t)
    ensures IsDecision(e) ==> Decided(s, leaseMs, e) == Some(t)
  {
    hide Decided;
  }

  /** Unless it lets a claim match, reopens the run or is a failed status write, an event brings no thread to
      where it may write an outcome step that might not have before. */
  lemma Closes(s: State, leaseMs: nat, e: Event, t: State, x: Tid)
    requires Inv(s, leaseMs) && Apply(s, leaseMs, e) == Some(t) && MayClose(t, x)
    requires e != Continue && !e.StatusFails?
    requires e.Arrive? && e.request.statement.ClaimRun? ==> Execute(s.row, e.request.statement).None?
    ensures MayClose(s, x) && !(e == Runs(x) && PhaseOf(s, x).Appending?)
  {
    hide Inv, Apply, MayClose, Decided, Execute, PhaseOf;
    ArrivalIsWellFormed(s, leaseMs, e, t);
    DecisionApplies(s, leaseMs, e, t);
    if e.Arrive? {
      ArrivalCloses(s, leaseMs, e.request, t, x);
    } else if e.Runs? {
      RunCloses(s, leaseMs, e.tid, t, x);
    } else if IsDecision(e) {
      DecisionCloses(s, leaseMs, e, t, x);
    } else {
      OtherCloses(s, leaseMs, e, t, x);
    }
  }

  lemma OtherCloses(s: State, leaseMs: nat, e: Event, t: State, x: Tid)
    requires Apply(s, leaseMs, e) == Some(t) && MayClose(t, x)
    requires e.Tick? || e.Beat? || e.Lose? || e.Release?
    ensures MayClose(s, x)
  {
    assert t.threads == s.threads && t.row.status == s.row.status;
    hide Apply, MayFail;
  }

  /** Only the statement of a thread that is `Appending` writes an outcome step. */
  lemma OutcomeChange(s: State, leaseMs: nat, e: Event, t: State)
    requires Inv(s, leaseMs) && Apply(s, leaseMs, e) == Some(t)
    ensures OutcomeSteps(t.row.steps)
         == OutcomeSteps(s.row.steps) + if e.Runs? && PhaseOf(s, e.tid).Appending? then 1 else 0
  {
    ArrivalIsWellFormed(s, leaseMs, e, t);
    RowChange(s, leaseMs, e, t);
    hide Inv, Apply, Executed, StatementOf;
    match e
    case Arrive(q) => StepsAfter(s.row, q.statement);
    case Release(r) => StepsAfter(s.row, ReleaseRun(r));
    case Continue => StepsAfter(s.row, ContinueRun);
    case Runs(tid) =>
      AppendingWrites(PhaseOf(s, tid));
      if StatementOf(PhaseOf(s, tid)).Some? { StepsAfter(s.row, StatementOf(PhaseOf(s, tid)).value); }
    case _ =>
  }

  lemma StepsAfter(row: Row, st: Statement)
    ensures OutcomeSteps(Executed(row, st).steps)
         == OutcomeSteps(row.steps) + if IsOutcomeStep(st) then 1 else 0
  {
    hide OutcomeSteps;
    if st.AppendStep? { OutcomeMore(row.steps, st.step); }
  }

  lemma AppendingWrites(p: Phase)
    ensures p.Appending? <==> StatementOf(p).Some? && IsOutcomeStep(StatementOf(p).value)
  {
  }

  /** The replica's lease stands, or the run is completed. */
  ghost predicate Guarded(s: State, replica: Replica, expires: int) {
    (HoldsLease(s.row, replica, expires) && Covers(s.flying, replica, expires)) || s.row.status.Completed?
  }

  lemma CompletedStays(row: Row, st: Statement)
    requires row.status.Completed? && !st.ContinueRun?
    ensures Executed(row, st).status.Completed?
    ensures st.ClaimRun? || st.RenewLease? ==> Execute(row, st).None?
  {
  }

  lemma CompletedOn(s: State, leaseMs: nat, e: Event, t: State)
    requires Inv(s, leaseMs) && Apply(s, leaseMs, e) == Some(t) && e != Continue && s.row.status.Completed?
    ensures t.row.status.Completed?
    ensures e.Arrive? ==> Execute(s.row, e.request.statement).None?
  {
    ArrivalIsWellFormed(s, leaseMs, e, t);
    RowChange(s, leaseMs, e, t);
    hide Inv, Apply, Executed, Execute, StatementOf;
    match e
    case Arrive(q) => CompletedStays(s.row, q.statement);
    case Release(r) => CompletedStays(s.row, ReleaseRun(r));
    case Runs(tid) =>
      RunsReopenNothing(PhaseOf(s, tid));
      if StatementOf(PhaseOf(s, tid)).Some? { CompletedStays(s.row, StatementOf(PhaseOf(s, tid)).value); }
    case _ =>
  }

  lemma RunsReopenNothing(p: Phase)
    ensures StatementOf(p) != Some(ContinueRun)
  {
  }

  lemma GuardedOn(s: State, leaseMs: nat, e: Event, t: State, replica: Replica, expires: int)
    requires Inv(s, leaseMs) && Apply(s, leaseMs, e) == Some(t) && e != Release(replica) && e != Continue
    requires Guarded(s, replica, expires) && expires <= s.now + leaseMs && t.now <= expires
    ensures Guarded(t, replica, expires)
    ensures e.Arrive? && e.request.statement.ClaimRun? ==> Execute(s.row, e.request.statement).None?
  {
    hide Inv, Apply, HoldsLease, Covers, Execute, Executed, StatementOf;
    if s.row.status.Completed? {
      CompletedOn(s, leaseMs, e, t);
    } else if Ends(s, e, replica) {
      RowChange(s, leaseMs, e, t);
      CompletesRow(s.row);
    } else {
      HoldsOn(s, leaseMs, e, t, replica, expires);
      if e.Arrive? { ArrivalRefused(s, leaseMs, e.request, t, replica, expires); }
    }
  }

  lemma CompletesRow(row: Row)
    ensures Executed(row, CompleteRun).status.Completed?
  {
  }

  lemma ArrivalRefused(s: State, leaseMs: nat, q: Request, t: State, replica: Replica, expires: int)
    requires Inv(s, leaseMs) && Apply(s, leaseMs, Arrive(q)) == Some(t) && t.now <= expires
    requires HoldsLease(s.row, replica, expires) && Covers(s.flying, replica, expires)
    ensures q.statement.ClaimRun? ==> Execute(s.row, q.statement).None?
  {
    ClockStep(s, leaseMs, Arrive(q), t);
    assert InFlight(s, leaseMs, q);
    hide Inv, Apply, HoldsLease, Execute;
    ArrivalFields(s, leaseMs, q, t);
    RequestHolds(s.row, q, replica, expires, s.now);
  }

  /** The lease stands or the run is completed, only `a` may still write an outcome step, and with that one
      the run has at most `most`. */
  ghost predicate Settled(s: State, a: Tid, replica: Replica, expires: int, most: nat) {
    && Guarded(s, replica, expires) && OnlyCloser(s, a)
    && OutcomeSteps(s.row.steps) + (if MayClose(s, a) then 1 else 0) <= most
  }

  lemma AppendingMayClose(s: State, x: Tid)
    requires PhaseOf(s, x).Appending?
    ensures MayClose(s, x)
  {
  }

  lemma SettledOn(s: State, leaseMs: nat, e: Event, t: State, a: Tid, replica: Replica, expires: int, most: nat)
    requires Inv(s, leaseMs) && Apply(s, leaseMs, e) == Some(t) && Calm(e, replica)
    requires Settled(s, a, replica, expires, most) && expires <= s.now + leaseMs && t.now <= expires
    ensures Settled(t, a, replica, expires, most)
  {
    hide Inv, Apply, Guarded, MayClose, Execute, PhaseOf;
    GuardedOn(s, leaseMs, e, t, replica, expires);
    OutcomeChange(s, leaseMs, e, t);
    forall x | MayClose(t, x)
      ensures MayClose(s, x) && !(e == Runs(x) && PhaseOf(s, x).Appending?)
    {
      Closes(s, leaseMs, e, t, x);
    }
    if e.Runs? && PhaseOf(s, e.tid).Appending? { AppendingMayClose(s, e.tid); }
  }

  lemma {:induction false} SettledThrough(s: State, leaseMs: nat, events: seq<Event>, a: Tid, replica: Replica,
                                          expires: int, most: nat)
    requires Inv(s, leaseMs) && Settled(s, a, replica, expires, most) && Undisturbed(events, replica)
    requires expires <= s.now + leaseMs && After(s, leaseMs, events).now <= expires
    ensures Settled(After(s, leaseMs, events), a, replica, expires, most) && s.now <= After(s, leaseMs, events).now
  {
    if events != [] {
      var n := |events| - 1;
      var u := After(s, leaseMs, events[..n]);
      LastStep(s, leaseMs, events, u);
      assert forall e <- events[..n] :: e in events;
      assert events[n] in events;
      hide Inv, Apply, Settled, After;
      var t := Apply(u, leaseMs, events[n]);
      if t.Some? { ClockStep(u, leaseMs, events[n], t.value); }
      SettledThrough(s, leaseMs, events[..n], a, replica, expires, most);
      InvFrom(s, leaseMs, events[..n]);
      if t.Some? { SettledOn(u, leaseMs, events[n], t.value, a, replica, expires, most); }
    }
  }

  // Somebody else's

  /** Thread `x` moved, and nothing else but requests on their way. */
  ghost predicate OnlyMoved(s: State, t: State, x: Tid) {
    t.now == s.now && t.row == s.row && forall y :: y != x ==> PhaseOf(t, y) == PhaseOf(s, y)
  }

  /** On an active run one event brings a thread that may close it to its outcome step. */
  lemma ToOutcome(s: State, leaseMs: nat, x: Tid, replica: Replica) returns (events: seq<Event>, t: State)
    requires MayClose(s, x) && s.row.status.Active?
    ensures t == After(s, leaseMs, events) && Undisturbed(events, replica)
    ensures OnlyMoved(s, t, x) && PhaseOf(t, x).Appending?
  {
    events, t := [], s;
    assert After(s, leaseMs, []) == s;
    if !PhaseOf(s, x).Appending? {
      t := Enter(s, x, Appending(false, true));
      assert Apply(s, leaseMs, DriveFails(x)) == Some(t);
      hide After, Apply;
      AfterOne(s, leaseMs, DriveFails(x));
      events := [DriveFails(x)];
    }
  }

  /** A thread at its outcome step writes it. */
  lemma Writes(s: State, leaseMs: nat, x: Tid) returns (t: State)
    requires PhaseOf(s, x).Appending?
    ensures Apply(s, leaseMs, Runs(x)) == Some(t) && t.now == s.now
    ensures OutcomeSteps(t.row.steps) == OutcomeSteps(s.row.steps) + 1
    ensures forall y :: y != x ==> PhaseOf(t, y) == PhaseOf(s, y)
  {
    hide OutcomeSteps, Execute;
    var st := StatementOf(PhaseOf(s, x)).value;
    StepsAfter(s.row, st);
    t := Ran(s, x, st);
  }

  /** Two threads that may close an active run both do. */
  lemma TwoMore(s: State, leaseMs: nat, a: Tid, b: Tid, replica: Replica) returns (events: seq<Event>)
    requires a != b && MayClose(s, a) && MayClose(s, b) && s.row.status.Active?
    ensures Undisturbed(events, replica) && After(s, leaseMs, events).now == s.now
    ensures OutcomeSteps(After(s, leaseMs, events).row.steps) == OutcomeSteps(s.row.steps) + 2
  {
    hide After, Apply, OutcomeSteps, PhaseOf, OnItsWay;
    var first, s1 := ToOutcome(s, leaseMs, a, replica);
    var second, s2 := ToOutcome(s1, leaseMs, b, replica);
    AfterConcat(s, leaseMs, first, second);
    var s3 := Writes(s2, leaseMs, a);
    AfterMore(s, leaseMs, first + second, Runs(a), s2, s3);
    var s4 := Writes(s3, leaseMs, b);
    AfterMore(s, leaseMs, first + second + [Runs(a)], Runs(b), s3, s4);
    events := first + second + [Runs(a)] + [Runs(b)];
  }

  /** A claim that a drive waits for arrives and matches. */
  lemma ClaimStarts(s: State, leaseMs: nat, q: Request, b: Tid) returns (t: State)
    requires q in s.flying && q.tid == Some(b) && q.statement.ClaimRun? && Execute(s.row, q.statement).Some?
    requires Awaits(s, q) && PhaseOf(s, b).Claiming? && !PhaseOf(s, b).sweep
    ensures Apply(s, leaseMs, Arrive(q)) == Some(t) && t.now == s.now && t.row.steps == s.row.steps
    ensures t.row.status.Active? && PhaseOf(t, b).Driving? && forall y :: y != b ==> PhaseOf(t, y) == PhaseOf(s, y)
  {
    assert Executed(s.row, q.statement).steps == s.row.steps && Executed(s.row, q.statement).status.Active?;
    t := ArrivesAs(s, leaseMs, q);
    hide Apply, Execute, Executed;
    ArrivalFields(s, leaseMs, q, t);
  }

  lemma PastClaimMayClose(s: State, x: Tid)
    requires PhaseOf(s, x).Driving? || PhaseOf(s, x).Appending?
    ensures MayClose(s, x) && x in s.threads && !s.threads[x].Renewing?
  {
  }

  /** An older renewal shortens the lease, another drive claims the run when it is past, and both write. */
  lemma OlderRenewalTwoWrite(t: State, leaseMs: nat, early: Request, replica: Replica, expires: int, a: Tid)
    returns (events: seq<Event>)
    requires Inv(t, leaseMs) && HoldsLease(t.row, replica, expires) && t.now <= expires
    requires early in t.flying && early.statement.RenewLease? && early.replica == replica && early.expires < expires
    requires PhaseOf(t, a).Driving? || PhaseOf(t, a).Appending?
    ensures Undisturbed(events, replica) && After(t, leaseMs, events).now <= expires
    ensures OutcomeSteps(After(t, leaseMs, events).row.steps) == OutcomeSteps(t.row.steps) + 2
  {
    hide After, Apply, Inv, HoldsLease, OutcomeSteps, Execute, Awaits, MayClose;
    var first, u, q, b := OlderRenewalOpens(t, leaseMs, early, replica, expires);
    PastClaimMayClose(t, a);
    var v := ClaimStarts(u, leaseMs, q, b);
    AfterMore(t, leaseMs, first, Arrive(q), u, v);
    PastClaimMayClose(v, a); PastClaimMayClose(v, b);
    var second := TwoMore(v, leaseMs, a, b, replica);
    AfterConcat(t, leaseMs, first + [Arrive(q)], second);
    events := first + [Arrive(q)] + second;
  }

  lemma ClaimantPastClaim(s: State, leaseMs: nat, q: Request, t: State)
    requires Apply(s, leaseMs, Arrive(q)) == Some(t) && WellFormed(q) && Awaits(s, q)
    requires q.statement.ClaimRun? && Execute(s.row, q.statement).Some?
    ensures PhaseOf(t, q.tid.value).Driving? || PhaseOf(t, q.tid.value).Appending?
    ensures MayClose(t, q.tid.value)
  {
    hide Apply, Execute;
    ArrivalFields(s, leaseMs, q, t);
  }

  /** Right after the claim of a sweep or a drive matched: exactly when no older renewal of its replica is on
      its way and no other thread may still write an outcome step, the run gets at most one more outcome
      step, of whatever sweep or drive, until the expiry the claim asked for, unless the replica lets the
      run go, somebody reopens it or a drive's status write fails. */
  lemma OneOutcomeIff(s: State, leaseMs: nat, q: Request, t: State)
    requires Inv(s, leaseMs) && Apply(s, leaseMs, Arrive(q)) == Some(t) && s.now <= q.expires
    requires q.statement.ClaimRun? && Execute(s.row, q.statement).Some? && Awaits(s, q)
    ensures Covers(t.flying, q.replica, q.expires) && OnlyCloser(t, q.tid.value) <==>
            forall events :: Undisturbed(events, q.replica) && After(t, leaseMs, events).now <= q.expires ==>
                               OutcomeSteps(After(t, leaseMs, events).row.steps) <= OutcomeSteps(t.row.steps) + 1
  {
    ArrivalIsWellFormed(s, leaseMs, Arrive(q), t);
    var a := q.tid.value;
    hide Apply, Inv, Execute, After, Awaits, MayClose, OutcomeSteps, WellFormed;
    GrantHolds(s, leaseMs, q, t);
    ClaimantPastClaim(s, leaseMs, q, t);
    if !Covers(t.flying, q.replica, q.expires) {
      var early :| early in t.flying && early.statement.RenewLease? && early.replica == q.replica
                   && early.expires < q.expires;
      var events := OlderRenewalTwoWrite(t, leaseMs, early, q.replica, q.expires, a);
    } else if x :| x != a && MayClose(t, x) {
      var events := TwoMore(t, leaseMs, a, x, q.replica);
    } else {
      hide Covers, HoldsLease;
      forall events | Undisturbed(events, q.replica) && After(t, leaseMs, events).now <= q.expires
        ensures OutcomeSteps(After(t, leaseMs, events).row.steps) <= OutcomeSteps(t.row.steps) + 1
      {
        SettledThrough(t, leaseMs, events, a, q.replica, q.expires, OutcomeSteps(t.row.steps) + 1);
      }
    }
  }

  /** A failed status write alone is enough for two: the handler of the drive that wrote an outcome step on an
      active run writes another. */
  lemma FailedStatusTwoWrite(s: State, leaseMs: nat, x: Tid)
    requires PhaseOf(s, x).Appending? && !PhaseOf(s, x).sweep && s.row.status.Active?
    ensures var t := After(s, leaseMs, [Runs(x)] + [StatusFails(x)] + [Runs(x)]);
            t.now == s.now && OutcomeSteps(t.row.steps) == OutcomeSteps(s.row.steps) + 2
  {
    hide After, OutcomeSteps;
    var s1 := Writes(s, leaseMs, x);
    AfterOne(s, leaseMs, Runs(x));
    assert PhaseOf(s1, x) == Completing(false) && s1.row.status.Active?;
    var s2 := Enter(s1, x, Appending(false, true));
    assert Apply(s1, leaseMs, StatusFails(x)) == Some(s2);
    hide Apply;
    AfterMore(s, leaseMs, [Runs(x)], StatusFails(x), s1, s2);
    var s3 := Writes(s2, leaseMs, x);
    AfterMore(s, leaseMs, [Runs(x)] + [StatusFails(x)], Runs(x), s2, s3);
  }

  /** So is reopening: closing the session of a drive that completed its run fails, and its handler finds the
      run somebody reopened and writes another. */
  lemma ReopenedTwoWrite(s: State, leaseMs: nat, x: Tid)
    requires PhaseOf(s, x).Appending? && !PhaseOf(s, x).sweep
    ensures var t := After(s, leaseMs, [Runs(x)] + [Runs(x)] + [Continue] + [DriveFails(x)] + [Runs(x)]);
            t.now == s.now && OutcomeSteps(t.row.steps) == OutcomeSteps(s.row.steps) + 2
  {
    hide After, OutcomeSteps;
    var s1 := Writes(s, leaseMs, x);
    AfterOne(s, leaseMs, Runs(x));
    var s2 := Completes(s1, leaseMs, x);
    AfterMore(s, leaseMs, [Runs(x)], Runs(x), s1, s2);
    var s3 := Reopens(s2, leaseMs);
    AfterMore(s, leaseMs, [Runs(x)] + [Runs(x)], Continue, s2, s3);
    var s4 := ClosingFails(s3, leaseMs, x);
    AfterMore(s, leaseMs, [Runs(x)] + [Runs(x)] + [Continue], DriveFails(x), s3, s4);
    hide Apply;
    var s5 := Writes(s4, leaseMs, x);
    AfterMore(s, leaseMs, [Runs(x)] + [Runs(x)] + [Continue] + [DriveFails(x)], Runs(x), s4, s5);
  }

  lemma Completes(s: State, leaseMs: nat, x: Tid) returns (t: State)
    requires PhaseOf(s, x) == Completing(false)
    ensures Apply(s, leaseMs, Runs(x)) == Some(t) && PhaseOf(t, x).Closing?
    ensures t.now == s.now && t.row.status.Completed? && t.row.steps == s.row.steps
  {
    t := Ran(s, x, CompleteRun);
  }

  lemma Reopens(s: State, leaseMs: nat) returns (t: State)
    requires s.row.status.Completed?
    ensures Apply(s, leaseMs, Continue) == Some(t)
    ensures t.now == s.now && t.threads == s.threads && t.row == s.row.(status := Active)
  {
    t := Outside(s, ContinueRun);
  }

  lemma ClosingFails(s: State, leaseMs: nat, x: Tid) returns (t: State)
    requires PhaseOf(s, x).Closing? && s.row.status.Active?
    ensures Apply(s, leaseMs, DriveFails(x)) == Some(t)
    ensures t.now == s.now && t.row == s.row && PhaseOf(t, x) == Appending(false, true)
  {
    t := Enter(s, x, Appending(false, true));
  }

  /** A drive that hibernated and then fails to close its session closes the run it parked. */
  lemma HibernatedRunIsClosed(s: State, leaseMs: nat, x: Tid)
    requires PhaseOf(s, x).Hibernating? && s.row.status.Active?
    ensures var t := After(s, leaseMs, [Runs(x)] + [DriveFails(x)] + [Runs(x)] + [Runs(x)]);
            && OutcomeSteps(t.row.steps) == OutcomeSteps(s.row.steps) + 1
            && t.row.status.Completed? && t.row.parkedTask.None?
  {
    hide After, OutcomeSteps;
    var s1 := Ran(s, x, NextPoll(PhaseOf(s, x).at));
    assert Apply(s, leaseMs, Runs(x)) == Some(s1) && s1.row.status.Active? && s1.row.steps == s.row.steps;
    AfterOne(s, leaseMs, Runs(x));
    assert PhaseOf(s1, x).Closing?;
    hide Stepped;
    var s2 := ClosingFails(s1, leaseMs, x);
    AfterMore(s, leaseMs, [Runs(x)], DriveFails(x), s1, s2);
    var s3 := Writes(s2, leaseMs, x);
    AfterMore(s, leaseMs, [Runs(x)] + [DriveFails(x)], Runs(x), s2, s3);
    var s4 := Finishes(s2, s3, leaseMs, x);
    AfterMore(s, leaseMs, [Runs(x)] + [DriveFails(x)] + [Runs(x)], Runs(x), s3, s4);
  }

  lemma Finishes(s: State, t: State, leaseMs: nat, x: Tid) returns (u: State)
    requires PhaseOf(s, x) == Appending(false, true) && Apply(s, leaseMs, Runs(x)) == Some(t)
    ensures Apply(t, leaseMs, Runs(x)) == Some(u) && u.row.steps == t.row.steps
    ensures u.row.status.Completed? && u.row.parkedTask.None?
  {
    u := Ran(t, x, CompleteRun);
  }
}
