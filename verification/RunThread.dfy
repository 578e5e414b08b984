/** What one request or background job does to one run, statement by statement: a sweep's visit to
    the run, and a drive of it with the wait for an approval.  Each phase up to the next await is one
    value; `StatementOf` is the statement a phase is about to run and `Stepped` is what follows its
    answer.  The loops in `Sweep` and `Drive` follow these phases, and `RunLease` interleaves them. */
module RunThread {
  import opened Options
  import opened RunRow
  import opened TaskPoll

  /** A due run as a sweep's listing returned it; the row may have moved on since. */
  datatype Listing = Listing(task: string, interval: Option<nat>)

  datatype Phase =
    | Idle
    | Began(replica: string, began: int)                          // the sweep read the clock
    | Listed(replica: string, began: int, listing: Listing)       // the listing returned the run
    | Checked(replica: string, began: int, listing: Listing)      // the run was still active
    | Rescheduling(listing: Listing, at: int, asked: Option<nat>)
    | Reparking(listing: Listing, asked: Option<nat>)
    | Claiming(replica: string, expires: int, asOf: int, sweep: bool)
    | Appending(sweep: bool, failed: bool)                        // the outcome step comes next
    | Completing(sweep: bool)
    | Driving(replica: string)
    | Parking(replica: string, task: string, interval: Option<nat>, hibernate: bool)
    | Noting(replica: string, task: string, hibernate: bool)
    | Waiting(replica: string, hibernate: bool)
    | Hibernating(at: int)
    | Renewing(replica: string, expires: int, denied: bool)       // the task's result is in hand
    | Recording(replica: string)
    | Clearing(replica: string)
    | Closing                                                     // the drive has nothing left to do but end

  function StatementOf(p: Phase): Option<Statement> {
    match p
    case Rescheduling(_, at, _) => Some(NextPoll(at))
    case Reparking(listing, asked) => Some(Park(listing.task, asked))
    case Claiming(replica, expires, asOf, _) => Some(ClaimRun(replica, expires, asOf))
    case Appending(_, failed) => Some(AppendStep(Outcome(failed)))
    case Completing(_) => Some(CompleteRun)
    case Parking(_, task, interval, _) => Some(Park(task, interval))
    case Noting(_, task, _) => Some(AppendStep(WaitingApproval(task)))
    case Hibernating(at) => Some(NextPoll(at))
    case Renewing(replica, expires, _) => Some(RenewLease(replica, expires))
    case Recording(_) => Some(AppendStep(ToolResult))
    case Clearing(_) => Some(ClearPark)
    case _ => None
  }

  /** After the statement's answer; `ok` says whether it matched the row. */
  function Stepped(p: Phase, ok: bool): Phase {
    match p
    case Rescheduling(listing, _, asked) => if asked.Some? then Reparking(listing, asked) else Idle
    case Claiming(replica, _, _, sweep) =>
      if !ok then Idle else if sweep then Appending(true, true) else Driving(replica)
    case Appending(sweep, _) => Completing(sweep)
    case Completing(sweep) => if sweep then Idle else Closing
    case Hibernating(_) => Closing
    case Parking(replica, task, _, hibernate) => Noting(replica, task, hibernate)
    case Noting(replica, _, hibernate) => Waiting(replica, hibernate)
    case Renewing(replica, _, denied) => if !ok then Idle else if denied then Clearing(replica) else Recording(replica)
    case Recording(replica) => Clearing(replica)
    case Clearing(replica) => Driving(replica)
    case _ => Idle
  }

  /** A look at a run's task, the random draw for the next one, and whether the run has a conversation
      to resume. */
  datatype Look = Look(poll: ParkedTaskPoll, random: real, hasHistory: bool)

  /** After the look at the task of a run that was due. */
  function Seen(p: Phase, look: Look, leaseMs: nat, resumesAt: int): Phase
    requires p.Checked?
  {
    match look.poll
    case Terminal =>
      if look.hasHistory then Claiming(p.replica, LeaseExpiresAt(resumesAt, leaseMs), resumesAt, false) else Idle
    case Failed => Claiming(p.replica, LeaseExpiresAt(p.began, leaseMs), p.began, true)
    case Pending(asked) =>
      Rescheduling(p.listing, p.began + NextTaskPollDelayMs(OrElse(asked, p.listing.interval), look.random), asked)
  }

  /** What a look leads to.  A task that ended: the run is claimed for a drive, with the clock as it is by then,
      if there is a conversation to resume, and else left.  A failed one: it is claimed with the clock the
      sweep began with, and closed as failed.  A pending one: the next poll is set. */
  lemma SeenSays(p: Phase, look: Look, leaseMs: nat, resumesAt: int)
    requires p.Checked?
    ensures var n := Seen(p, look, leaseMs, resumesAt);
            match look.poll
            case Terminal =>
              if look.hasHistory
              then StatementOf(n) == Some(ClaimRun(p.replica, resumesAt + leaseMs, resumesAt))
                   && Stepped(n, true) == Driving(p.replica) && Stepped(n, false) == Idle
              else n == Idle
            case Failed =>
              && StatementOf(n) == Some(ClaimRun(p.replica, p.began + leaseMs, p.began)) && Stepped(n, false) == Idle
              && StatementOf(Stepped(n, true)) == Some(AppendStep(Outcome(true)))
              && StatementOf(Stepped(Stepped(n, true), true)) == Some(CompleteRun)
            case Pending(asked) =>
              var interval := if asked.Some? then asked else p.listing.interval;
              && StatementOf(n) == Some(NextPoll(p.began + NextTaskPollDelayMs(interval, look.random)))
              && StatementOf(Stepped(n, true)) == if asked.Some? then Some(Park(p.listing.task, asked)) else None
  {
    hide NextTaskPollDelayMs;
  }
}
