/** Any number of sweeps and drives of one run, on any number of replicas, interleaved statement by
    statement.  Requests travel: a claim or a renewal carries the clock its replica read when it
    sent it, and takes effect when the database runs it, later or never, in any order.  All replicas
    read one clock and use one lease length. */
module RunLease {
  import opened Options
  import opened RunRow
  import opened RunThread
  import opened TaskPoll

  type Replica = string
  type Tid = int

  /** A claim or a renewal on its way; a heartbeat's renewal has no thread waiting for its answer. */
  datatype Request = Request(tid: Option<Tid>, replica: Replica, expires: int, statement: Statement)

  predicate WellFormed(q: Request) {
    (q.statement.ClaimRun? || q.statement.RenewLease?)
    && q.statement.replica == q.replica && q.statement.expires == q.expires
    && (q.statement.ClaimRun? ==> q.statement.asOf <= q.expires)
  }

  /** A statement run against the row, and whether it matched; `tid` is the thread that gets the answer,
      if one waits for it. */
  datatype Mark = Mark(tid: Option<Tid>, statement: Statement, ok: bool)

  /** `promises` is what each replica may count on: set when its claim or renewal takes effect, gone
      when it releases the run or anyone completes it.  `log` is every statement run against the row,
      oldest first. */
  datatype State = State(
    now: int,
    row: Row,
    flying: multiset<Request>,
    promises: map<Replica, int>,
    threads: map<Tid, Phase>,
    log: seq<Mark>)

  datatype Event =
    | Tick(ms: nat)
    | Beat(replica: Replica)                      // a heartbeat sends its renewal
    | Arrive(request: Request)
    | Lose(request: Request)
    | Release(replica: Replica)
    | Continue
    | SweepBegins(tid: Tid, replica: Replica)
    | SweepLists(tid: Tid)
    | SweepChecks(tid: Tid)
    | SweepSees(tid: Tid, look: Look)
    | DriveStarts(tid: Tid, replica: Replica)
    | DriveParks(tid: Tid, task: string, interval: Option<nat>, hibernate: bool)
    | DriveHibernates(tid: Tid)
    | DriveHears(tid: Tid, denied: bool)          // the parked task's result came
    | DriveFinishes(tid: Tid, failed: bool)
    | DriveFails(tid: Tid)                        // it throws, and a failure handler looks at the run
    | StatusFails(tid: Tid)                       // the same when its status write fails
    | Runs(tid: Tid)                              // the thread's next statement, if not a request
    | GivesUp(tid: Tid)                           // a sweep's error, a lost lease, or the process ends

  function PhaseOf(s: State, tid: Tid): Phase {
    if tid in s.threads then s.threads[tid] else Idle
  }

  function Goto(s: State, tid: Tid, p: Phase): State {
    s.(threads := s.threads[tid := p])
  }

  /** A thread goes to a phase; if that waits for a claim or a renewal, the request is sent. */
  function Enter(s: State, tid: Tid, p: Phase): State {
    var t := Goto(s, tid, p);
    if p.Claiming? || p.Renewing?
    then t.(flying := t.flying + multiset{Request(Some(tid), p.replica, p.expires, StatementOf(p).value)})
    else t
  }

  /** No later than `bound`, and no later than any renewal of `replica` still on its way. */
  ghost predicate Covers(flying: multiset<Request>, replica: Replica, bound: int) {
    forall q <- flying :: q.statement.RenewLease? && q.replica == replica ==> bound <= q.expires
  }

  /** The most a replica may count on once a request of its own took effect: the expiry it carried,
      or an older renewal's that is still on its way and will overwrite it. */
  ghost function Promise(flying: multiset<Request>, replica: Replica, expires: int): (p: int)
    ensures p <= expires && Covers(flying, replica, p)
    ensures p == expires || exists q <- flying :: q.statement.RenewLease? && q.replica == replica && q.expires == p
    decreases |flying|
  {
    if flying == multiset{} then expires
    else
      var q :| q in flying;
      var p := Promise(flying - multiset{q}, replica, expires);
      assert forall r <- flying :: r == q || r in flying - multiset{q};
      if q.statement.RenewLease? && q.replica == replica && q.expires < p then q.expires else p
  }

  /** A thread's own statement takes effect. */
  function Ran(s: State, tid: Tid, st: Statement): State {
    var p := PhaseOf(s, tid);
    s.(row := Executed(s.row, st),
       promises := if st.CompleteRun? then map[] else s.promises,
       threads := s.threads[tid := Stepped(p, Execute(s.row, st).Some?)],
       log := s.log + [Mark(Some(tid), st, Execute(s.row, st).Some?)])
  }

  /** A request takes effect on the row; `s` has it no longer on its way. */
  ghost function Effect(s: State, q: Request): State {
    if Execute(s.row, q.statement).None? then s
    else s.(row := Executed(s.row, q.statement),
            promises := s.promises[q.replica := Promise(s.flying, q.replica, q.expires)])
  }

  predicate Awaits(s: State, q: Request) {
    q.tid.Some? && StatementOf(PhaseOf(s, q.tid.value)) == Some(q.statement)
  }

  /** The thread that waits for the answer gets it. */
  function Answered(s: State, q: Request, ok: bool): State {
    if Awaits(s, q)
    then s.(threads := s.threads[q.tid.value := Stepped(PhaseOf(s, q.tid.value), ok)],
            log := s.log + [Mark(q.tid, q.statement, ok)])
    else s.(log := s.log + [Mark(None, q.statement, ok)])
  }

  /** A statement that nobody here waits for. */
  function Outside(s: State, st: Statement): State {
    s.(row := Executed(s.row, st), log := s.log + [Mark(None, st, Execute(s.row, st).Some?)])
  }

  ghost function Arrived(s: State, q: Request): State {
    Answered(Effect(s, q), q, Execute(s.row, q.statement).Some?)
  }

  /** Where a thread goes next by itself, without a statement; None where it cannot. */
  function NextPhase(p: Phase, row: Row, now: int, leaseMs: nat, e: Event): Option<Phase> {
    match e
    case SweepBegins(_, replica) => if p.Idle? then Some(Began(replica, now)) else None
    case SweepLists(_) =>
      if !p.Began? then None
      else if ClaimableParked(row, p.began)
      then Some(Listed(p.replica, p.began, Listing(row.parkedTask.value, row.pollInterval))) else Some(Idle)
    case SweepChecks(_) =>
      if !p.Listed? then None
      else if row.status.Active? then Some(Checked(p.replica, p.began, p.listing)) else Some(Idle)
    case SweepSees(_, look) => if p.Checked? && IsDraw(look.random) then Some(Seen(p, look, leaseMs, now)) else None
    case DriveStarts(_, replica) =>
      if p.Idle? then Some(Claiming(replica, LeaseExpiresAt(now, leaseMs), now, false)) else None
    case DriveParks(_, task, interval, hibernate) =>
      if p.Driving? then Some(Parking(p.replica, task, interval, hibernate)) else None
    case DriveHibernates(_) => if p.Waiting? && p.hibernate then Some(Hibernating(now)) else None
    case DriveHears(_, denied) =>
      if p.Waiting? && !p.hibernate then Some(Renewing(p.replica, LeaseExpiresAt(now, leaseMs), denied)) else None
    case DriveFinishes(_, failed) => if p.Driving? then Some(Appending(false, failed)) else None
    case DriveFails(_) => if MayFail(p) then Some(Handled(row)) else None
    case StatusFails(_) => if p.Completing? && !p.sweep then Some(Handled(row)) else None
    case GivesUp(_) => Some(Idle)
    case _ => None
  }

  /** A drive at work that was not told that it lost its lease; one that was told gives up. */
  predicate MayFail(p: Phase) {
    || p.Driving? || p.Parking? || p.Noting? || p.Waiting? || p.Hibernating? || p.Renewing? || p.Recording?
    || p.Clearing? || p.Closing? || (p.Appending? && !p.sweep)
  }

  /** A failure handler closes the run if it finds it active. */
  function Handled(row: Row): Phase {
    if row.status.Active? then Appending(false, true) else Closing
  }

  predicate IsDecision(e: Event) {
    || e.SweepBegins? || e.SweepLists? || e.SweepChecks? || e.SweepSees? || e.DriveStarts? || e.DriveParks?
    || e.DriveHibernates? || e.DriveHears? || e.DriveFinishes? || e.DriveFails? || e.StatusFails? || e.GivesUp?
  }

  function Decided(s: State, leaseMs: nat, e: Event): Option<State>
    requires IsDecision(e)
  {
    match NextPhase(PhaseOf(s, e.tid), s.row, s.now, leaseMs, e)
    case Some(p) => Some(Enter(s, e.tid, p))
    case None => None
  }

  /** One event, or None where it cannot happen. */
  ghost function Apply(s: State, leaseMs: nat, e: Event): Option<State> {
    match e
    case Tick(ms) => Some(s.(now := s.now + ms))
    case Beat(r) =>
      var expires := LeaseExpiresAt(s.now, leaseMs);
      Some(s.(flying := s.flying + multiset{Request(None, r, expires, RenewLease(r, expires))}))
    case Lose(q) => if q in s.flying then Some(s.(flying := s.flying - multiset{q})) else None
    case Arrive(q) => if q in s.flying then Some(Arrived(s.(flying := s.flying - multiset{q}), q)) else None
    case Release(r) => Some(Outside(s, ReleaseRun(r)).(promises := s.promises - {r}))
    case Continue => Some(Outside(s, ContinueRun))
    case Runs(tid) =>
      var p := PhaseOf(s, tid);
      if StatementOf(p).Some? && !p.Claiming? && !p.Renewing? then Some(Ran(s, tid, StatementOf(p).value)) else None
    case _ => Decided(s, leaseMs, e)
  }

  /** A run that nobody owns, with nothing on its way and nobody at work. */
  ghost predicate Initial(s: State) {
    s.row.owner.None? && s.row.lease.None? && s.flying == multiset{} && s.promises == map[]
    && s.threads == map[] && s.log == []
  }

  ghost function After(start: State, leaseMs: nat, events: seq<Event>): State {
    if events == [] then start
    else
      var s := After(start, leaseMs, events[..|events| - 1]);
      match Apply(s, leaseMs, events[|events| - 1])
      case Some(t) => t
      case None => s
  }

  lemma LastStep(start: State, leaseMs: nat, events: seq<Event>, s: State)
    requires events != [] && s == After(start, leaseMs, events[..|events| - 1])
    ensures After(start, leaseMs, events)
         == match Apply(s, leaseMs, events[|events| - 1]) case Some(t) => t case None => s
  {
    hide Apply;
  }

  lemma AfterMore(s: State, leaseMs: nat, events: seq<Event>, e: Event, u: State, t: State)
    requires u == After(s, leaseMs, events) && Apply(u, leaseMs, e) == Some(t)
    ensures After(s, leaseMs, events + [e]) == t
  {
    assert (events + [e])[..|events|] == events;
    hide Apply;
  }

  lemma {:induction false} AfterConcat(s: State, leaseMs: nat, a: seq<Event>, b: seq<Event>)
    ensures After(s, leaseMs, a + b) == After(After(s, leaseMs, a), leaseMs, b)
    decreases |b|
  {
    hide Apply;
    if b == [] {
      assert a + b == a;
    } else {
      assert (a + b)[..|a + b| - 1] == a + b[..|b| - 1];
      AfterConcat(s, leaseMs, a, b[..|b| - 1]);
    }
  }

  /** When each decision can happen, and which statement it leads to, with the clock and the row as they are
      then. */
  lemma DecisionsLeadTo(p: Phase, row: Row, now: int, leaseMs: nat, e: Event)
    requires IsDecision(e)
    ensures var n := NextPhase(p, row, now, leaseMs, e);
            match e
            case SweepBegins(_, replica) => n == if p.Idle? then Some(Began(replica, now)) else None
            case SweepLists(_) =>
              && (n.Some? <==> p.Began?)
              && (p.Began? && !ClaimableParked(row, p.began) ==> n == Some(Idle))
              && (p.Began? && ClaimableParked(row, p.began) ==>
                    n == Some(Listed(p.replica, p.began, Listing(row.parkedTask.value, row.pollInterval))))
            case SweepChecks(_) =>
              && (n.Some? <==> p.Listed?) && (p.Listed? && row.status.Completed? ==> n == Some(Idle))
              && (p.Listed? && row.status.Active? ==> n == Some(Checked(p.replica, p.began, p.listing)))
            case SweepSees(_, look) =>
              n == if p.Checked? && 0.0 <= look.random < 1.0 then Some(Seen(p, look, leaseMs, now)) else None
            case DriveStarts(_, replica) =>
              && (n.Some? <==> p.Idle?)
              && (p.Idle? ==> StatementOf(n.value) == Some(ClaimRun(replica, now + leaseMs, now))
                              && Stepped(n.value, true) == Driving(replica))
            case DriveParks(_, task, interval, hibernate) =>
              && (n.Some? <==> p.Driving?)
              && (p.Driving? ==> StatementOf(n.value) == Some(Park(task, interval))
                                 && Stepped(Stepped(n.value, true), true) == Waiting(p.replica, hibernate))
            case DriveHibernates(_) =>
              && (n.Some? <==> p.Waiting? && p.hibernate) && (n.Some? ==> StatementOf(n.value) == Some(NextPoll(now)))
            case DriveHears(_, denied) =>
              && (n.Some? <==> p.Waiting? && !p.hibernate)
              && (n.Some? ==>
                    && StatementOf(n.value) == Some(RenewLease(p.replica, now + leaseMs))
                    && StatementOf(Stepped(n.value, true))
                       == Some(if denied then ClearPark else AppendStep(ToolResult)))
            case DriveFinishes(_, failed) =>
              && (n.Some? <==> p.Driving?)
              && (n.Some? ==> StatementOf(n.value) == Some(AppendStep(Outcome(failed)))
                              && Stepped(Stepped(n.value, true), true) == Closing)
            case DriveFails(_) =>
              && (n.Some? && row.status.Active? ==> StatementOf(n.value) == Some(AppendStep(Outcome(true))))
              && (n.Some? && row.status.Completed? ==> StatementOf(n.value) == None)
              && (n.None? <==> p.Idle? || p.Began? || p.Listed? || p.Checked? || p.Rescheduling? || p.Reparking?
                               || p.Claiming? || p.Completing? || (p.Appending? && p.sweep))
            case StatusFails(_) =>
              && (n.Some? <==> p == Completing(false))
              && (n.Some? ==> StatementOf(n.value)
                              == if row.status.Active? then Some(AppendStep(Outcome(true))) else None)
            case GivesUp(_) => n == Some(Idle)
  {
    hide NextTaskPollDelayMs, ClaimableParked;
  }

  // ---------- The invariant ----------

  ghost predicate Kept(s: State, replica: Replica) {
    replica in s.promises && s.now <= s.promises[replica] ==>
      && s.row.status.Active? && s.row.owner == Some(replica)
      && s.row.lease.Some? && s.promises[replica] <= s.row.lease.value
      && Covers(s.flying, replica, s.promises[replica])
  }

  ghost predicate InFlight(s: State, leaseMs: nat, q: Request) {
    && WellFormed(q) && q.expires <= s.now + leaseMs
    && (q.statement.ClaimRun? ==> q.statement.asOf <= s.now)
  }

  ghost predicate Inv(s: State, leaseMs: nat) {
    && (s.row.owner.Some? ==> s.row.lease.Some?)
    && (forall q <- s.flying :: InFlight(s, leaseMs, q))
    && (forall r <- s.promises :: s.promises[r] <= s.now + leaseMs)
    && (forall r <- s.promises :: Kept(s, r))
    && (forall tid <- s.threads :: ClockPast(s, s.threads[tid]))
  }

  /** A sweep's clock was read in the past. */
  predicate ClockPast(s: State, p: Phase) {
    match p
    case Began(_, began) => began <= s.now
    case Listed(_, began, _) => began <= s.now
    case Checked(_, began, _) => began <= s.now
    case _ => true
  }

  predicate SameLease(a: Row, b: Row) {
    a.status == b.status && a.owner == b.owner && a.lease == b.lease
  }

  lemma SendKeepsInv(s: State, leaseMs: nat, q: Request, t: State)
    requires Inv(s, leaseMs) && t == s.(flying := s.flying + multiset{q}, threads := t.threads)
    requires InFlight(s, leaseMs, q) && (q.statement.RenewLease? ==> q.expires == s.now + leaseMs)
    requires forall tid <- t.threads :: ClockPast(t, t.threads[tid])
    ensures Inv(t, leaseMs)
  {
    assert forall r <- t.flying :: r in s.flying || r == q;
    forall r <- t.flying ensures InFlight(t, leaseMs, r) { assert r == q || InFlight(s, leaseMs, r); }
    forall r <- t.promises ensures Kept(t, r) { assert Kept(s, r); }
  }

  /** Time passes, requests get lost, promises end, threads move, and the row keeps its lease. */
  lemma QuietKeepsInv(s: State, leaseMs: nat, t: State)
    requires Inv(s, leaseMs) && t.now >= s.now && t.flying <= s.flying
    requires t.promises.Keys <= s.promises.Keys && forall r <- t.promises :: t.promises[r] == s.promises[r]
    requires SameLease(s.row, t.row) || t.promises == map[]
             || (s.row.owner.Some? && t.promises.Keys <= s.promises.Keys - {s.row.owner.value})
    requires t.row.owner.Some? ==> t.row.lease.Some?
    requires forall tid <- t.threads :: ClockPast(t, t.threads[tid])
    ensures Inv(t, leaseMs)
  {
    assert forall r <- t.flying :: r in s.flying;
    forall r <- t.flying ensures InFlight(t, leaseMs, r) { assert InFlight(s, leaseMs, r); }
    forall r <- t.promises ensures Kept(t, r) { assert Kept(s, r); }
  }

  lemma EffectKeepsInv(u: State, leaseMs: nat, q: Request, t: State)
    requires Inv(u, leaseMs) && t == Effect(u, q) && InFlight(u, leaseMs, q)
    ensures Inv(t, leaseMs)
  {
    if t != u {
      forall r <- t.promises ensures Kept(t, r) {
        if r != q.replica {
          assert Kept(u, r);
        } else {
          hide Covers;
        }
      }
      forall r <- t.flying ensures InFlight(t, leaseMs, r) { assert InFlight(u, leaseMs, r); }
    }
  }

  /** An answer moves at most the thread that waits for it, and not to a phase with a clock. */
  lemma AnswerMoves(v: State, q: Request, ok: bool)
    ensures var t := Answered(v, q, ok); t == v.(threads := t.threads, log := t.log)
    ensures (forall tid <- v.threads :: ClockPast(v, v.threads[tid])) ==>
              forall tid <- Answered(v, q, ok).threads :: ClockPast(v, Answered(v, q, ok).threads[tid])
  {
    if q.tid.Some? {
      assert ClockPast(v, Stepped(PhaseOf(v, q.tid.value), ok));
    }
  }

  lemma AnswerKeepsInv(v: State, leaseMs: nat, q: Request, ok: bool)
    requires Inv(v, leaseMs)
    ensures Inv(Answered(v, q, ok), leaseMs)
  {
    AnswerMoves(v, q, ok);
    hide Answered, Kept, Covers, InFlight;
    var t := Answered(v, q, ok);
    forall tid <- t.threads ensures ClockPast(t, t.threads[tid]) { assert ClockPast(v, t.threads[tid]); }
    QuietKeepsInv(v, leaseMs, t);
  }

  lemma GoneKeepsInv(s: State, leaseMs: nat, q: Request)
    requires Inv(s, leaseMs) && q in s.flying
    ensures Inv(s.(flying := s.flying - multiset{q}), leaseMs)
    ensures InFlight(s.(flying := s.flying - multiset{q}), leaseMs, q)
  {
    assert InFlight(s, leaseMs, q);
    hide Kept, Covers;
    QuietKeepsInv(s, leaseMs, s.(flying := s.flying - multiset{q}));
  }

  lemma ArrivalKeepsInv(s: State, leaseMs: nat, q: Request, t: State)
    requires Inv(s, leaseMs) && Apply(s, leaseMs, Arrive(q)) == Some(t)
    ensures Inv(t, leaseMs)
  {
    hide Inv, InFlight, Answered, Effect, Execute;
    var u := s.(flying := s.flying - multiset{q});
    GoneKeepsInv(s, leaseMs, q);
    EffectKeepsInv(u, leaseMs, q, Effect(u, q));
    AnswerKeepsInv(Effect(u, q), leaseMs, q, Execute(u.row, q.statement).Some?);
  }

  lemma ReleaseKeepsInv(s: State, leaseMs: nat, replica: Replica, t: State)
    requires Inv(s, leaseMs) && Apply(s, leaseMs, Release(replica)) == Some(t)
    ensures Inv(t, leaseMs)
  {
    hide Kept, Covers;
    QuietKeepsInv(s, leaseMs, t);
  }

  /** A completed run has no promise running, so reopening it breaks none. */
  lemma ContinueKeepsInv(s: State, leaseMs: nat, t: State)
    requires Inv(s, leaseMs) && Apply(s, leaseMs, Continue) == Some(t)
    ensures Inv(t, leaseMs)
  {
    hide Covers;
    forall r <- t.promises ensures Kept(t, r) { assert Kept(s, r); }
    forall r <- t.flying ensures InFlight(t, leaseMs, r) { assert InFlight(s, leaseMs, r); }
  }

  /** A thread's own statement either leaves the lease alone or completes the run. */
  lemma RunKeepsInv(s: State, leaseMs: nat, tid: Tid, t: State)
    requires Inv(s, leaseMs) && Apply(s, leaseMs, Runs(tid)) == Some(t)
    ensures Inv(t, leaseMs)
  {
    hide Kept, Covers, InFlight;
    var st := StatementOf(PhaseOf(s, tid)).value;
    assert !st.CompleteRun? ==> SameLease(s.row, Executed(s.row, st));
    QuietKeepsInv(s, leaseMs, t);
  }

  lemma DecisionKeepsInv(s: State, leaseMs: nat, e: Event, t: State)
    requires Inv(s, leaseMs) && IsDecision(e) && Decided(s, leaseMs, e) == Some(t)
    ensures Inv(t, leaseMs)
  {
    DecisionMoves(s, leaseMs, e, t);
    hide Kept, Covers, Decided, InFlight;
    if t.flying == s.flying {
      QuietKeepsInv(s, leaseMs, t);
    } else {
      var q :| t.flying == s.flying + multiset{q} && InFlight(s, leaseMs, q)
               && (q.statement.RenewLease? ==> q.expires == s.now + leaseMs);
      SendKeepsInv(s, leaseMs, q, t);
    }
  }

  /** A decision moves one thread, and sends at most the one request it then waits for. */
  lemma DecisionMoves(s: State, leaseMs: nat, e: Event, t: State)
    requires Inv(s, leaseMs) && IsDecision(e) && Decided(s, leaseMs, e) == Some(t)
    ensures t == s.(flying := t.flying, threads := t.threads)
    ensures forall tid <- t.threads :: ClockPast(t, t.threads[tid])
    ensures t.flying == s.flying
            || exists q :: t.flying == s.flying + multiset{q} && InFlight(s, leaseMs, q)
                           && (q.statement.RenewLease? ==> q.expires == s.now + leaseMs)
  {
    var p := PhaseOf(s, e.tid);
    assert ClockPast(s, p);
    hide Inv, Enter, NextPhase, InFlight, ClockPast, PhaseOf;
    NextClock(s, p, leaseMs, e);
    EnterSends(s, leaseMs, e.tid, NextPhase(p, s.row, s.now, leaseMs, e).value);
  }

  lemma NextClock(s: State, p: Phase, leaseMs: nat, e: Event)
    requires ClockPast(s, p)
    ensures match NextPhase(p, s.row, s.now, leaseMs, e)
            case None => true
            case Some(n) =>
              && ClockPast(s, n)
              && (n.Claiming? ==> n.asOf <= n.expires <= s.now + leaseMs && n.asOf <= s.now)
              && (n.Renewing? ==> n.expires == s.now + leaseMs)
  {
    hide NextTaskPollDelayMs, ClaimableParked;
  }

  lemma EnterSends(s: State, leaseMs: nat, tid: Tid, p: Phase)
    requires forall i <- s.threads :: ClockPast(s, s.threads[i])
    requires ClockPast(s, p)
    requires p.Claiming? ==> p.asOf <= p.expires <= s.now + leaseMs && p.asOf <= s.now
    requires p.Renewing? ==> p.expires == s.now + leaseMs
    ensures var t := Enter(s, tid, p);
            && t == s.(flying := t.flying, threads := t.threads)
            && (forall i <- t.threads :: ClockPast(t, t.threads[i]))
            && (t.flying == s.flying
                || exists q :: t.flying == s.flying + multiset{q} && InFlight(s, leaseMs, q)
                               && (q.statement.RenewLease? ==> q.expires == s.now + leaseMs))
  {
    if p.Claiming? || p.Renewing? {
      var q := Request(Some(tid), p.replica, p.expires, StatementOf(p).value);
      assert InFlight(s, leaseMs, q);
    }
  }

  lemma StepKeepsInv(s: State, leaseMs: nat, e: Event, t: State)
    requires Inv(s, leaseMs) && Apply(s, leaseMs, e) == Some(t)
    ensures Inv(t, leaseMs)
  {
    hide Kept, Covers, Decided, Ran, Arrived;
    match e
    case Arrive(q) => ArrivalKeepsInv(s, leaseMs, q, t);
    case Beat(r) =>
      var expires := LeaseExpiresAt(s.now, leaseMs);
      SendKeepsInv(s, leaseMs, Request(None, r, expires, RenewLease(r, expires)), t);
    case Release(r) => ReleaseKeepsInv(s, leaseMs, r, t);
    case Continue => ContinueKeepsInv(s, leaseMs, t);
    case Tick(_) => QuietKeepsInv(s, leaseMs, t);
    case Lose(q) => GoneKeepsInv(s, leaseMs, q);
    case Runs(tid) => RunKeepsInv(s, leaseMs, tid, t);
    case _ => DecisionKeepsInv(s, leaseMs, e, t);
  }

  /** What an arrival does, but for the promises. */
  lemma ArrivalFields(s: State, leaseMs: nat, q: Request, t: State)
    requires Apply(s, leaseMs, Arrive(q)) == Some(t)
    ensures q in s.flying && t.flying == s.flying - multiset{q} && t.now == s.now
    ensures t.row == Executed(s.row, q.statement)
    ensures var ok := Execute(s.row, q.statement).Some?;
            if Awaits(s, q)
            then t.threads == s.threads[q.tid.value := Stepped(PhaseOf(s, q.tid.value), ok)]
                 && t.log == s.log + [Mark(q.tid, q.statement, ok)]
            else t.threads == s.threads && t.log == s.log + [Mark(None, q.statement, ok)]
  {
    hide Execute, Executed, Effect, StatementOf, Stepped;
    EffectFields(s.(flying := s.flying - multiset{q}), q);
  }

  lemma EffectFields(s: State, q: Request)
    ensures var t := Effect(s, q);
            t == s.(row := Executed(s.row, q.statement), promises := t.promises)
  {
    hide Execute, Promise;
  }

  /** What any event does to the row. */
  lemma RowChange(s: State, leaseMs: nat, e: Event, t: State)
    requires Apply(s, leaseMs, e) == Some(t)
    ensures t.row == match e
                     case Arrive(q) => Executed(s.row, q.statement)
                     case Release(r) => Executed(s.row, ReleaseRun(r))
                     case Continue => Executed(s.row, ContinueRun)
                     case Runs(tid) =>
                       (match StatementOf(PhaseOf(s, tid)) case Some(st) => Executed(s.row, st) case None => s.row)
                     case _ => s.row
  {
    hide Execute, NextPhase, StatementOf, Stepped, Promise;
  }

  lemma ArrivalIsWellFormed(s: State, leaseMs: nat, e: Event, t: State)
    requires Inv(s, leaseMs) && Apply(s, leaseMs, e) == Some(t)
    ensures e.Arrive? ==> WellFormed(e.request)
  {
    if e.Arrive? { assert InFlight(s, leaseMs, e.request); }
  }

  lemma {:induction false} InvFrom(start: State, leaseMs: nat, events: seq<Event>)
    requires Inv(start, leaseMs)
    ensures Inv(After(start, leaseMs, events), leaseMs)
  {
    if events != [] {
      var s := After(start, leaseMs, events[..|events| - 1]);
      InvFrom(start, leaseMs, events[..|events| - 1]);
      var t := Apply(s, leaseMs, events[|events| - 1]);
      hide Inv, Apply;
      if t.Some? { StepKeepsInv(s, leaseMs, events[|events| - 1], t.value); }
    }
  }

  /** Over any number of replicas, sweeps and drives, and any delay, loss and reordering of requests. */
  lemma InvAlways(start: State, leaseMs: nat, events: seq<Event>)
    requires Initial(start)
    ensures Inv(After(start, leaseMs, events), leaseMs)
  {
    InvFrom(start, leaseMs, events);
  }
}
