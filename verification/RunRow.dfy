/** One row of the `runs` table with its steps, and the statements the run protocol issues against it. */
module RunRow {
  import opened Options

  datatype Status = Active | Completed

  datatype RunStep = WaitingApproval(approvalId: string) | ToolResult | Outcome(failed: bool)

  datatype Row = Row(
    status: Status,
    owner: Option<string>,
    lease: Option<int>,          // lease_expires_at
    parkedTask: Option<string>,  // mcp_task_id
    pollInterval: Option<nat>,
    nextPollAt: Option<int>,
    steps: seq<RunStep>)

  datatype Statement =
    | ClaimRun(replica: string, expires: int, asOf: int)
    | RenewLease(replica: string, expires: int)
    | ReleaseRun(replica: string)
    | CompleteRun
    | ContinueRun
    | Park(task: string, interval: Option<nat>)
    | NextPoll(at: int)
    | ClearPark
    | AppendStep(step: RunStep)

  /** Nobody owns the run, or its lease lies before `asOf`. */
  predicate Claimable(row: Row, asOf: int) {
    row.owner.None? || row.lease.None? || row.lease.value < asOf
  }

  /** The row a statement leaves; None when its WHERE clause matches no row.  Renewing looks at the
      owner and the status and not at the lease's age; completing, and appending a step, ask neither
      who owns the run nor whether it is active. */
  function Execute(row: Row, st: Statement): Option<Row> {
    match st
    case ClaimRun(replica, expires, asOf) =>
      if row.status.Active? && Claimable(row, asOf)
      then Some(row.(owner := Some(replica), lease := Some(expires))) else None
    case RenewLease(replica, expires) =>
      if row.owner == Some(replica) && row.status.Active? then Some(row.(lease := Some(expires))) else None
    case ReleaseRun(replica) =>
      if row.owner == Some(replica) then Some(row.(owner := None, lease := None)) else None
    case CompleteRun =>
      Some(row.(status := Completed, owner := None, lease := None,
                parkedTask := None, pollInterval := None, nextPollAt := None))
    case ContinueRun => if row.status.Completed? then Some(row.(status := Active)) else None
    case Park(task, interval) =>
      if row.status.Active? then Some(row.(parkedTask := Some(task), pollInterval := interval)) else None
    case NextPoll(at) => if row.status.Active? then Some(row.(nextPollAt := Some(at))) else None
    case ClearPark => Some(row.(parkedTask := None, pollInterval := None, nextPollAt := None))
    case AppendStep(step) => Some(row.(steps := row.steps + [step]))
  }

  function Executed(row: Row, st: Statement): Row {
    match Execute(row, st) case Some(r) => r case None => row
  }

  /** Due for a sweep: parked, unowned or expired, and not to be polled later. */
  predicate ClaimableParked(row: Row, now: int) {
    && row.status.Active? && row.parkedTask.Some? && Claimable(row, now)
    && (row.nextPollAt.None? || row.nextPollAt.value <= now)
  }

  /** `leaseExpiresAt`. */
  function LeaseExpiresAt(now: int, leaseMs: nat): int {
    now + leaseMs
  }

  // ---------- The statements, column by column ----------

  /** When a statement matches: a claim an active run without owner or with an expired lease, a renewal an
      active run of its own replica, a release a run of its own replica, and reopening a closed one. */
  lemma WhenItMatches(row: Row, st: Statement)
    ensures Execute(row, st).Some? <==>
              && (st.ClaimRun? || st.RenewLease? || st.Park? || st.NextPoll? ==> row.status.Active?)
              && (st.ClaimRun? ==> row.owner.None? || row.lease.None? || row.lease.value < st.asOf)
              && (st.RenewLease? || st.ReleaseRun? ==> row.owner == Some(st.replica))
              && (st.ContinueRun? ==> row.status.Completed?)
  {
  }

  /** What each column is after a statement that matched. */
  lemma ColumnsAfter(row: Row, st: Statement)
    requires Execute(row, st).Some?
    ensures var u := Executed(row, st);
            && u.status == (if st.CompleteRun? then Completed else if st.ContinueRun? then Active else row.status)
            && u.owner == (if st.ClaimRun? then Some(st.replica)
                           else if st.CompleteRun? || st.ReleaseRun? then None else row.owner)
            && u.lease == (if st.ClaimRun? || st.RenewLease? then Some(st.expires)
                           else if st.CompleteRun? || st.ReleaseRun? then None else row.lease)
            && u.parkedTask == (if st.Park? then Some(st.task)
                                else if st.CompleteRun? || st.ClearPark? then None else row.parkedTask)
            && u.pollInterval == (if st.Park? then st.interval
                                  else if st.CompleteRun? || st.ClearPark? then None else row.pollInterval)
            && u.nextPollAt == (if st.NextPoll? then Some(st.at)
                                else if st.CompleteRun? || st.ClearPark? then None else row.nextPollAt)
            && u.steps == row.steps + (if st.AppendStep? then [st.step] else [])
  {
  }

  /** A run is due for a sweep when it is active, parked, unowned or with its lease expired, and its next poll
      is not still to come. */
  lemma WhenDue(row: Row, now: int)
    ensures ClaimableParked(row, now) <==>
              && row.status.Active? && row.parkedTask.Some?
              && !(row.owner.Some? && row.lease.Some? && now <= row.lease.value)
              && !(row.nextPollAt.Some? && now < row.nextPollAt.value)
  {
  }
}
