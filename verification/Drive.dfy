/** One drive of a run: claim, work, then park, complete, or give way; and its resumption.  What the
    session, the task loop and the heartbeat do is written in a script; what everybody else does to the
    run between any two statements is `others`, and so is what the task loop itself writes. */
module Drive {
  import opened Options
  import opened TaskPoll
  import opened RunRow
  import opened RunThread
  import opened RunTable

  datatype LoopEnd = LoopParked | LoopDone(failed: bool) | LoopThrew(leaseError: bool)

  /** Where the heartbeat's flag is first seen set; it never goes back. */
  datatype Lost = Never | AtEnd | AtCatch | AfterLoop

  datatype Script = Script(
    connectThrows: bool,
    loop: LoopEnd,
    lost: Lost,
    completeThrows: bool,      // the status write after the outcome step fails
    closeThrows: bool,         // closing the session fails
    failThrows: bool)          // the status write after the failure's outcome step fails

  datatype Ending = Parked | Finished | LeaseError | Failed

  /** How the work inside the drive's try block ends. */
  datatype Work = Returned(ending: Ending) | Threw(leaseError: bool)

  // ---------- How a drive ends, and the statements it runs ----------

  predicate WritesOutcome(s: Script) {
    !s.connectThrows && s.loop.LoopDone? && !s.lost.AfterLoop?
  }

  function WorkEnd(s: Script): Work {
    if s.connectThrows || s.closeThrows then Threw(false)
    else if s.loop.LoopThrew? then Threw(s.loop.leaseError)
    else if s.lost.AfterLoop? then Threw(true)
    else if s.loop.LoopParked? then Returned(Parked)
    else if s.completeThrows then Threw(false)
    else Returned(Finished)
  }

  function DriveEnd(s: Script): Ending {
    match WorkEnd(s)
    case Returned(e) => e
    case Threw(leaseError) => if leaseError || s.lost.AtCatch? || s.lost.AfterLoop? then LeaseError else Ending.Failed
  }

  /** The outcome step, then the status. */
  function OutcomeRan(id: string, failed: bool, statusThrows: bool): seq<Answer> {
    [Answer(id, AppendStep(Outcome(failed)), true)] + (if statusThrows then [] else [Answer(id, CompleteRun, true)])
  }

  function WorkRan(id: string, s: Script): seq<Answer> {
    if WritesOutcome(s) then OutcomeRan(id, s.loop.failed, s.completeThrows) else []
  }

  /** A failure handler closes the run if it finds it active. */
  function HandlerRan(id: string, found: Option<Status>, statusThrows: bool): seq<Answer> {
    if found == Some(Active) then OutcomeRan(id, true, statusThrows) else []
  }

  function DriveRan(id: string, claim: Statement, s: Script, found: Option<Status>, release: seq<Answer>): seq<Answer> {
    [Answer(id, claim, true)] + WorkRan(id, s) + HandlerRan(id, found, s.failThrows) + release
  }

  predicate IsOutcome(a: Answer) {
    a.ok && a.statement.AppendStep? && a.statement.step.Outcome?
  }

  /** What the outcome steps say, oldest first: true for failed. */
  function OutcomesOf(ran: seq<Answer>): seq<bool> {
    if ran == [] then []
    else
      var last := ran[|ran| - 1];
      OutcomesOf(ran[..|ran| - 1]) + if IsOutcome(last) then [last.statement.step.failed] else []
  }

  function OutcomesIn(ran: seq<Answer>): nat {
    |OutcomesOf(ran)|
  }

  lemma {:induction false} OutcomesOfBoth(a: seq<Answer>, b: seq<Answer>)
    ensures OutcomesOf(a + b) == OutcomesOf(a) + OutcomesOf(b)
    decreases |b|
  {
    hide IsOutcome;
    if b == [] {
      assert a + b == a;
    } else {
      assert (a + b)[..|a + b| - 1] == a + b[..|b| - 1];
      OutcomesOfBoth(a, b[..|b| - 1]);
    }
  }

  lemma OneOutcomeRan(id: string, failed: bool, statusThrows: bool)
    ensures OutcomesOf(OutcomeRan(id, failed, statusThrows)) == [failed]
  {
    var step := Answer(id, AppendStep(Outcome(failed)), true);
    var complete := Answer(id, CompleteRun, true);
    assert [step][..0] == [] && OutcomesOf([step]) == [failed];
    assert [complete][..0] == [] && OutcomesOf([complete]) == [];
    OutcomesOfBoth([step], [complete]);
    assert [step] + [] == [step];
  }

  /** Whether the script's work leaves the run active when nobody else is at it. */
  predicate ActiveAfterWork(s: Script) {
    !WritesOutcome(s) || s.completeThrows
  }

  // ---------- The methods ----------

  /** True when the status write threw after the outcome step was appended. */
  method CompleteWithOutcomeStep(table: Table, id: string, failed: bool, statusThrows: bool, others: Others)
    returns (threw: bool)
    requires id in table.rows && Keeps(others, id)
    modifies table
    ensures id in table.rows && threw == statusThrows
    ensures table.ran == old(table.ran) + OutcomeRan(id, failed, statusThrows)
    ensures !statusThrows ==> table.rows[id].status.Completed? && table.rows[id].owner.None?
    ensures statusThrows && Alone(others) ==> table.rows[id].status == old(table.rows)[id].status
  {
    threw := statusThrows;
    var _ := table.Run(id, AppendStep(Outcome(failed)), others);
    if statusThrows {
      return;
    }
    var _ := table.Run(id, CompleteRun, others);
  }

  /** The try block: connect, run the task loop, complete; close the session whatever happened. */
  method DoWork(table: Table, id: string, s: Script, others: Others) returns (work: Work)
    requires id in table.rows && Keeps(others, id)
    modifies table
    ensures id in table.rows && work == WorkEnd(s)
    ensures work.Returned? ==> work.ending.Parked? || work.ending.Finished?
    ensures table.ran == old(table.ran) + WorkRan(id, s)
    ensures WritesOutcome(s) && !s.completeThrows ==> table.rows[id].status.Completed?
    ensures Alone(others) && ActiveAfterWork(s) ==> table.rows[id].status == old(table.rows)[id].status
  {
    hide OutcomeRan;
    if s.connectThrows {
      return Threw(false);
    }
    match s.loop {
      case LoopThrew(leaseError) => work := Threw(leaseError);
      case LoopParked => work := if s.lost.AfterLoop? then Threw(true) else Returned(Parked);
      case LoopDone(failed) =>
        if s.lost.AfterLoop? {
          work := Threw(true);
        } else {
          var threw := CompleteWithOutcomeStep(table, id, failed, s.completeThrows, others);
          work := if threw then Threw(false) else Returned(Finished);
        }
    }
    if s.closeThrows {
      work := Threw(false);
    }
  }

  /** The failure handler; `found` is the status it reads. */
  method HandleFailure(table: Table, id: string, statusThrows: bool, others: Others) returns (ghost found: Status)
    requires id in table.rows && Keeps(others, id)
    modifies table
    ensures id in table.rows
    ensures found == others(old(table.awaits), old(table.rows))[id].status
    ensures table.ran == old(table.ran) + HandlerRan(id, Some(found), statusThrows)
    ensures found.Active? && !statusThrows ==> table.rows[id].status.Completed?
    ensures found.Completed? ==> table.rows[id].status.Completed?
    ensures Alone(others) && statusThrows ==> table.rows[id].status == old(table.rows)[id].status
  {
    hide OutcomeRan;
    table.Await(others);
    found := table.rows[id].status;
    if table.rows[id].status.Active? {
      var _ := CompleteWithOutcomeStep(table, id, true, statusThrows, others);
    }
  }

  /** The work and the handling of its failure. */
  method TryDrive(table: Table, id: string, s: Script, others: Others)
    returns (ending: Ending, ghost found: Option<Status>)
    requires id in table.rows && Keeps(others, id)
    modifies table
    ensures id in table.rows && ending == DriveEnd(s) && (found.Some? <==> ending.Failed?)
    ensures table.ran == old(table.ran) + WorkRan(id, s) + HandlerRan(id, found, s.failThrows)
    ensures NeverReopens(others, id) && found.Some? && WritesOutcome(s) && !s.completeThrows ==>
              found == Some(Completed)
    ensures NeverReopens(others, id) && found.Some? && (found == Some(Completed) || !s.failThrows) ==>
              table.rows[id].status.Completed?
    ensures Alone(others) && old(table.rows)[id].status.Active? ==>
              && (found.Some? ==> (found == Some(Active) <==> ActiveAfterWork(s)))
              && (!ending.Failed? ==> (table.rows[id].status.Active? <==> ActiveAfterWork(s)))
  {
    hide WorkRan, HandlerRan, WorkEnd, WritesOutcome;
    found := None;
    var work := DoWork(table, id, s, others);
    match work {
      case Returned(e) => ending := e;
      case Threw(leaseError) =>
        if leaseError || s.lost.AtCatch? || s.lost.AfterLoop? {
          ending := LeaseError;
        } else {
          ghost var status := HandleFailure(table, id, s.failThrows, others);
          found := Some(status);
          ending := Ending.Failed;
        }
    }
    NothingHandled(id, s.failThrows);
  }

  /** One drive.  `found` is the status its failure handler reads, if it gets there. */
  method DriveHarnessRun(table: Table, id: string, replica: string, expires: int, now: int, s: Script, others: Others)
    returns (ending: Ending, claimed: bool, ghost found: Option<Status>, ghost release: seq<Answer>)
    requires id in table.rows && Keeps(others, id)
    modifies table
    ensures id in table.rows
    ensures claimed <==> Execute(others(old(table.awaits), old(table.rows))[id], ClaimRun(replica, expires, now)).Some?
    ensures !claimed ==> ending.LeaseError? && found == None
                         && table.ran == old(table.ran) + [Answer(id, ClaimRun(replica, expires, now), false)]
    ensures claimed ==>
              && ending == DriveEnd(s) && (found.Some? <==> ending.Failed?)
              && table.ran == old(table.ran) + DriveRan(id, ClaimRun(replica, expires, now), s, found, release)
    ensures claimed && ending.Finished? ==>
              table.ran == old(table.ran) + FinishedRan(id, ClaimRun(replica, expires, now), s.loop.failed, release)
    ensures claimed && s.lost.Never? ==>
              && table.rows[id].owner != Some(replica)
              && |release| == 1 && release[0].id == id && release[0].statement == ReleaseRun(replica)
    ensures claimed && !s.lost.Never? ==> release == []
    ensures NeverReopens(others, id) && found.Some? && WritesOutcome(s) && !s.completeThrows ==>
              found == Some(Completed)
    ensures NeverReopens(others, id) && found.Some? && (found == Some(Completed) || !s.failThrows) ==>
              table.rows[id].status.Completed?
    ensures Alone(others) && found.Some? ==> (found == Some(Active) <==> ActiveAfterWork(s))
    ensures Alone(others) && claimed && !ending.Failed? ==> (table.rows[id].status.Active? <==> ActiveAfterWork(s))
  {
    hide WorkRan, HandlerRan, WorkEnd, WritesOutcome, DriveRan, DriveEnd, FinishedRan, StepThenStatus;
    found, release := None, [];
    claimed := table.Run(id, ClaimRun(replica, expires, now), others);
    if !claimed {
      return LeaseError, false, None, [];
    }
    ending, found := TryDrive(table, id, s, others);
    if s.lost.Never? {
      var ok := table.Run(id, ReleaseRun(replica), others);
      release := [Answer(id, ReleaseRun(replica), ok)];
    }
    RanInOrder(old(table.ran), id, ClaimRun(replica, expires, now), s, found, release);
    DriveStatements(id, ClaimRun(replica, expires, now), s, found, release,
                    DriveRan(id, ClaimRun(replica, expires, now), s, found, release));
  }

  /** The claim, the outcome step that says what the task loop said, the completion, and the release. */
  function FinishedRan(id: string, claim: Statement, failed: bool, release: seq<Answer>): seq<Answer> {
    [Answer(id, claim, true), Answer(id, AppendStep(Outcome(failed)), true), Answer(id, CompleteRun, true)] + release
  }

  lemma RanInOrder(before: seq<Answer>, id: string, claim: Statement, s: Script, found: Option<Status>,
                   release: seq<Answer>)
    ensures before + [Answer(id, claim, true)] + WorkRan(id, s) + HandlerRan(id, found, s.failThrows) + release
         == before + DriveRan(id, claim, s, found, release)
    ensures before + [Answer(id, claim, true)] + WorkRan(id, s) + HandlerRan(id, found, s.failThrows)
         == before + DriveRan(id, claim, s, found, [])
  {
    hide WorkRan, HandlerRan;
  }

  lemma NothingHandled(id: string, statusThrows: bool)
    ensures HandlerRan(id, None, statusThrows) == []
  {
  }

  /** Resuming drives the run and, if the drive fails, looks once more whether the run is open; `again`
      is the status that look finds. */
  method ResumeHarnessRun(table: Table, id: string, replica: string, expires: int, now: int, s: Script, others: Others)
    returns (ending: Ending, claimed: bool, ghost found: Option<Status>, ghost release: seq<Answer>,
             ghost again: Option<Status>)
    requires id in table.rows && Keeps(others, id)
    modifies table
    ensures !claimed ==> ending.LeaseError? && found == None && again == None
                         && table.ran == old(table.ran) + [Answer(id, ClaimRun(replica, expires, now), false)]
    ensures claimed ==>
              && ending == DriveEnd(s)
              && table.ran
                 == old(table.ran) + ResumeRan(id, ClaimRun(replica, expires, now), s, found, release, again)
              && Reads(s, found, again)
              && OutcomesIn(release) == 0
    ensures claimed && ending.Finished? ==>
              table.ran == old(table.ran) + FinishedRan(id, ClaimRun(replica, expires, now), s.loop.failed, release)
    ensures claimed && NeverReopens(others, id) ==> ReadsUnreopened(s, found, again)
  {
    hide WorkRan, HandlerRan, WorkEnd, WritesOutcome, DriveRan, FinishedRan;
    again := None;
    ending, claimed, found, release := DriveHarnessRun(table, id, replica, expires, now, s, others);
    ReleaseIsNoOutcome(id, replica, release);
    NothingHandled(id, false);
    if ending.Failed? {
      ghost var status := HandleFailure(table, id, false, others);
      again := Some(status);
    }
  }

  lemma ReleaseIsNoOutcome(id: string, replica: string, release: seq<Answer>)
    ensures OutcomesIn([]) == 0
    ensures |release| == 1 && release[0].statement == ReleaseRun(replica) ==> OutcomesIn(release) == 0
  {
  }

  /** The failure handlers read the run exactly when the drive failed. */
  predicate Reads(s: Script, found: Option<Status>, again: Option<Status>) {
    (found.Some? <==> DriveEnd(s).Failed?) && (again.Some? <==> DriveEnd(s).Failed?)
  }

  /** What they find when nobody reopens the run: it is closed if the drive or an earlier handler closed it. */
  predicate ReadsUnreopened(s: Script, found: Option<Status>, again: Option<Status>) {
    && (found.Some? && WritesOutcome(s) && !s.completeThrows ==> found == Some(Completed))
    && (again.Some? && (found == Some(Completed) || !s.failThrows) ==> again == Some(Completed))
  }

  // ---------- Outcome steps ----------

  predicate StoreWritesSucceed(s: Script) {
    !s.completeThrows && !s.failThrows
  }

  function ResumeRan(id: string, claim: Statement, s: Script, found: Option<Status>, release: seq<Answer>,
                     again: Option<Status>): seq<Answer> {
    DriveRan(id, claim, s, found, release) + HandlerRan(id, again, false)
  }

  /** What the loop's own outcome step says, if it is written. */
  function LoopSays(s: Script): seq<bool> {
    if WritesOutcome(s) then [s.loop.failed] else []
  }

  /** A failure handler writes one step, saying failed, exactly when it finds the run active. */
  function HandlerSays(found: Option<Status>): seq<bool> {
    if found == Some(Active) then [true] else []
  }

  lemma PartOutcomes(id: string, claim: Statement, s: Script, found: Option<Status>, statusThrows: bool)
    ensures claim.ClaimRun? ==> OutcomesOf([Answer(id, claim, true)]) == []
    ensures OutcomesOf(WorkRan(id, s)) == LoopSays(s)
    ensures OutcomesOf(HandlerRan(id, found, statusThrows)) == HandlerSays(found)
    ensures OutcomesOf([]) == []
  {
    var a := Answer(id, claim, true);
    assert [a][..0] == [];
    if WritesOutcome(s) { OneOutcomeRan(id, s.loop.failed, s.completeThrows); }
    OneOutcomeRan(id, true, statusThrows);
    hide OutcomeRan, WritesOutcome;
  }

  /** The outcome steps of a drive: the loop's own outcome as it was, then the handler's failure. */
  lemma DriveOutcomes(id: string, claim: Statement, s: Script, found: Option<Status>, release: seq<Answer>)
    requires claim.ClaimRun? && OutcomesIn(release) == 0
    ensures OutcomesOf(DriveRan(id, claim, s, found, release)) == LoopSays(s) + HandlerSays(found)
  {
    PartOutcomes(id, claim, s, found, s.failThrows);
    hide OutcomesOf, WorkRan, HandlerRan, LoopSays, HandlerSays;
    var a, w, h := [Answer(id, claim, true)], WorkRan(id, s), HandlerRan(id, found, s.failThrows);
    OutcomesOfBoth(a, w);
    OutcomesOfBoth(a + w, h);
    OutcomesOfBoth(a + w + h, release);
  }

  lemma ResumeOutcomes(id: string, claim: Statement, s: Script, found: Option<Status>, release: seq<Answer>,
                       again: Option<Status>)
    requires claim.ClaimRun? && OutcomesIn(release) == 0
    ensures OutcomesOf(ResumeRan(id, claim, s, found, release, again))
         == LoopSays(s) + HandlerSays(found) + HandlerSays(again)
  {
    DriveOutcomes(id, claim, s, found, release);
    PartOutcomes(id, claim, s, again, false);
    hide OutcomesOf, HandlerRan, DriveRan, LoopSays, HandlerSays;
    OutcomesOfBoth(DriveRan(id, claim, s, found, release), HandlerRan(id, again, false));
  }

  /** How a drive ends: it parks or finishes when nothing throws and the lease was not seen lost after the
      loop; it reports its lease lost when that was seen there, or once anything has thrown, or when the
      loop itself threw for that; and it fails otherwise. */
  lemma EndsAs(s: Script)
    ensures var smooth := !s.connectThrows && !s.closeThrows && !s.lost.AfterLoop?;
            && (DriveEnd(s).Parked? <==> smooth && s.loop.LoopParked?)
            && (DriveEnd(s).Finished? <==> smooth && s.loop.LoopDone? && !s.completeThrows)
    ensures DriveEnd(s).LeaseError? <==>
              || s.lost.AfterLoop?
              || (s.lost.AtCatch? && !DriveEnd(s).Parked? && !DriveEnd(s).Finished?)
              || (!s.connectThrows && !s.closeThrows && s.loop.LoopThrew? && s.loop.leaseError)
  {
  }

  /** Every statement is about the run, and a completion comes right after an outcome step. */
  ghost predicate StepThenStatus(ran: seq<Answer>, id: string) {
    && (forall a <- ran :: a.id == id)
    && (forall k :: 0 <= k < |ran| && ran[k].statement.CompleteRun? ==> k > 0 && IsOutcome(ran[k - 1]))
  }

  lemma StepThenStatusBoth(a: seq<Answer>, b: seq<Answer>, id: string)
    requires StepThenStatus(a, id) && StepThenStatus(b, id)
    ensures StepThenStatus(a + b, id)
  {
    hide IsOutcome;
  }

  lemma PartsStepThenStatus(id: string, claim: Statement, s: Script, found: Option<Status>, statusThrows: bool)
    requires claim.ClaimRun?
    ensures StepThenStatus([Answer(id, claim, true)], id) && StepThenStatus(WorkRan(id, s), id)
    ensures StepThenStatus(HandlerRan(id, found, statusThrows), id)
  {
  }

  /** Which statements a claimed drive ran.  One that finished: the claim, the outcome step that says what the
      task loop said, the completion.  One that parked: the claim alone.  Any: no completion but right after an
      outcome step. */
  lemma DriveStatements(id: string, claim: Statement, s: Script, found: Option<Status>, release: seq<Answer>,
                        ran: seq<Answer>)
    requires claim.ClaimRun? && (found.Some? <==> DriveEnd(s).Failed?) && ran == DriveRan(id, claim, s, found, release)
    requires forall a <- release :: a.id == id && a.statement.ReleaseRun?
    ensures DriveEnd(s).Finished? ==> ran == FinishedRan(id, claim, s.loop.failed, release)
    ensures DriveEnd(s).Parked? ==> ran == [Answer(id, claim, true)] + release
    ensures StepThenStatus(ran, id)
    ensures |ran| == 1 + |release| + (if !WritesOutcome(s) then 0 else if s.completeThrows then 1 else 2)
                     + (if found != Some(Active) then 0 else if s.failThrows then 1 else 2)
  {
    var a, w, h := [Answer(id, claim, true)], WorkRan(id, s), HandlerRan(id, found, s.failThrows);
    PartsStepThenStatus(id, claim, s, found, s.failThrows);
    hide StepThenStatus;
    StepThenStatusBoth(a, w, id);
    StepThenStatusBoth(a + w, h, id);
    assert StepThenStatus(release, id) by { ReleaseIsQuiet(release, id); }
    StepThenStatusBoth(a + w + h, release, id);
  }

  lemma ReleaseIsQuiet(release: seq<Answer>, id: string)
    requires forall a <- release :: a.id == id && a.statement.ReleaseRun?
    ensures StepThenStatus(release, id)
  {
  }

  /** With a store that works and nobody reopening the run meanwhile: a drive that parks writes no
      outcome step, a finished one exactly one, a failed one exactly one unless another process
      completed the run first, and one that loses its lease none, unless it had completed the run
      already and only closing the session went wrong.  Resuming adds nothing. */
  lemma OneOutcomeAtMost(id: string, claim: Statement, s: Script, found: Option<Status>, release: seq<Answer>,
                         again: Option<Status>)
    requires claim.ClaimRun? && OutcomesIn(release) == 0
    requires StoreWritesSucceed(s) && Reads(s, found, again) && ReadsUnreopened(s, found, again)
    ensures var outcomes := OutcomesIn(DriveRan(id, claim, s, found, release));
            && OutcomesIn(ResumeRan(id, claim, s, found, release, again)) == outcomes <= 1
            && (DriveEnd(s).Parked? ==> outcomes == 0)
            && (DriveEnd(s).Finished? ==> outcomes == 1)
            && (DriveEnd(s).Failed? ==> (outcomes == 0 <==> !WritesOutcome(s) && found == Some(Completed)))
            && (DriveEnd(s).LeaseError? ==> (outcomes == 1 <==> WritesOutcome(s) && s.closeThrows))
  {
    DriveOutcomes(id, claim, s, found, release);
    ResumeOutcomes(id, claim, s, found, release, again);
    hide OutcomesOf, DriveRan, ResumeRan;
    assert found.Some? ==> found.value.Active? || found.value.Completed?;
  }

  /** Exactly when one resumption writes more than one outcome step: its drive failed, and of the drive
      itself and the two handlers at least two wrote, a handler writing whenever it finds the run open. */
  lemma SecondOutcomeIff(id: string, claim: Statement, s: Script, found: Option<Status>, release: seq<Answer>,
                         again: Option<Status>)
    requires claim.ClaimRun? && OutcomesIn(release) == 0 && Reads(s, found, again)
    ensures OutcomesIn(ResumeRan(id, claim, s, found, release, again)) >= 2 <==>
            && DriveEnd(s).Failed?
            && ((WritesOutcome(s) && (found == Some(Active) || again == Some(Active)))
                || (found == Some(Active) && again == Some(Active)))
  {
    ResumeOutcomes(id, claim, s, found, release, again);
    hide OutcomesOf, ResumeRan;
  }

  /** A drive that parks, or loses its lease before writing its outcome, runs no completion, so by itself
      it leaves the run open for the next drive. */
  lemma OpenAfterParking(id: string, claim: Statement, s: Script, release: seq<Answer>)
    requires DriveEnd(s).Parked? || (DriveEnd(s).LeaseError? && !WritesOutcome(s))
    requires claim.ClaimRun? && forall a <- release :: a.statement.ReleaseRun?
    ensures ActiveAfterWork(s)
    ensures forall a <- DriveRan(id, claim, s, None, release) :: !a.statement.CompleteRun?
  {
  }

  /** Three scripts.  A status write fails after the outcome step: with nobody else at the run the
      handler finds it open and writes again.  Closing the session fails after the run was completed,
      and the heartbeat has been refused: the drive reports its lease lost although it wrote its
      outcome.  Closing fails, and somebody reopened the run: the handler closes it once more. */
  lemma OutcomeScripts(id: string, claim: Statement, failed: bool, release: seq<Answer>)
    requires claim.ClaimRun? && OutcomesIn(release) == 0
    ensures var s := Script(false, LoopDone(failed), Never, true, false, false);
            && DriveEnd(s).Failed? && ActiveAfterWork(s)
            && OutcomesIn(DriveRan(id, claim, s, Some(Active), release)) == 2
    ensures var s := Script(false, LoopDone(failed), AtCatch, false, true, false);
            && DriveEnd(s).LeaseError? && OutcomesIn(DriveRan(id, claim, s, None, release)) == 1
    ensures var s := Script(false, LoopDone(failed), Never, false, true, false);
            && DriveEnd(s).Failed? && !ActiveAfterWork(s)
            && OutcomesIn(DriveRan(id, claim, s, Some(Active), release)) == 2
  {
    hide OutcomesOf, DriveRan;
    DriveOutcomes(id, claim, Script(false, LoopDone(failed), Never, true, false, false), Some(Active), release);
    DriveOutcomes(id, claim, Script(false, LoopDone(failed), AtCatch, false, true, false), None, release);
    DriveOutcomes(id, claim, Script(false, LoopDone(failed), Never, false, true, false), Some(Active), release);
  }

  // ---------- Waiting for an approval ----------

  datatype PollEnd = Aborted | PollThrew | Heard(denied: bool)

  datatype Waited = Hibernated | LeaseLost | PollFailed | Answered

  /** The wait for a parked task.  `before` is what it ran up to the poll, `after` what it ran then; both
      follow the phases of `RunThread`, whatever everybody else does to the run in between. */
  method WaitForApproval(table: Table, id: string, replica: string, task: string, asked: Option<nat>, hibernate: bool,
                         poll: PollEnd, expires: int, now: int, others: Others)
    returns (waited: Waited, ghost interval: Option<nat>, ghost before: seq<Answer>, ghost after: seq<Answer>)
    modifies table
    ensures table.ran == old(table.ran) + before + after
    ensures asked.Some? ==> interval == asked
    ensures asked.None? ==>
              var rows := others(old(table.awaits), old(table.rows));
              interval == if id in rows && rows[id].parkedTask.Some? then rows[id].pollInterval else None
    ensures Follows(Parking(replica, task, interval, hibernate), before, id, Waiting(replica, hibernate))
    ensures waited.Hibernated? <==> hibernate
    ensures hibernate ==> Follows(Hibernating(now), after, id, Closing)
    ensures !hibernate && poll.Aborted? ==> waited.LeaseLost? && after == []
    ensures !hibernate && poll.PollThrew? ==> waited.PollFailed? && after == []
    ensures !hibernate && poll.Heard? ==>
              && (waited.Answered? || waited.LeaseLost?)
              && Follows(Renewing(replica, expires, poll.denied), after, id,
                         if waited.Answered? then Driving(replica) else Idle)
  {
    hide Follows;
    ghost var start := table.ran;
    var wanted := asked;
    if asked.None? {
      table.Await(others);
      wanted := if id in table.rows && table.rows[id].parkedTask.Some? then table.rows[id].pollInterval else None;
    }
    interval := wanted;
    after := [];
    before := Note(table, id, replica, task, wanted, hibernate, others);
    if hibernate {
      var ok := table.Run(id, NextPoll(now), others);
      after := [Answer(id, NextPoll(now), ok)];
      FollowsOne(Hibernating(now), id, after[0]);
      return Hibernated, interval, before, after;
    }
    match poll {
      case Aborted => waited := LeaseLost;
      case PollThrew => waited := PollFailed;
      case Heard(denied) => waited, after := Record(table, id, replica, expires, denied, others);
    }
  }

  /** The statements of a wait up to its poll: the task, then the step that says what is waited for. */
  lemma NoteStatements(ran: seq<Answer>, id: string, replica: string, task: string, interval: Option<nat>,
                       hibernate: bool)
    requires Follows(Parking(replica, task, interval, hibernate), ran, id, Waiting(replica, hibernate))
    ensures |ran| == 2 && ran[0].id == ran[1].id == id
    ensures ran[0].statement == Park(task, interval) && ran[1].statement == AppendStep(WaitingApproval(task))
  {
    hide Follows;
    var end := Waiting(replica, hibernate);
    FollowsFirst(Parking(replica, task, interval, hibernate), ran, id, end);
    FollowsFirst(Noting(replica, task, hibernate), ran[1..], id, end);
    FollowsFirst(end, ran[1..][1..], id, end);
  }

  /** A hibernating wait then marks the run due now. */
  lemma HibernateStatements(ran: seq<Answer>, id: string, now: int)
    requires Follows(Hibernating(now), ran, id, Closing)
    ensures |ran| == 1 && ran[0].id == id && ran[0].statement == NextPoll(now)
  {
    hide Follows;
    FollowsFirst(Hibernating(now), ran, id, Closing);
    FollowsFirst(Closing, ran[1..], id, Closing);
  }

  /** And from the task's result on: the renewal, and only if that matched the result, unless it is a denial,
      and the clearing of the task. */
  lemma RecordStatements(ran: seq<Answer>, id: string, replica: string, expires: int, denied: bool, end: Phase)
    requires Follows(Renewing(replica, expires, denied), ran, id, end) && (end.Driving? || end.Idle?)
    ensures ran != [] && (forall a <- ran :: a.id == id) && ran[0].statement == RenewLease(replica, expires)
    ensures ran[0].ok <==> end == Driving(replica)
    ensures |ran| == if !ran[0].ok then 1 else if denied then 2 else 3
    ensures ran[0].ok && !denied ==> ran[1].statement == AppendStep(ToolResult)
    ensures ran[0].ok ==> ran[|ran| - 1].statement == ClearPark
  {
    hide Follows;
    var p := Renewing(replica, expires, denied);
    FollowsFirst(p, ran, id, end);
    var q, rest := Stepped(p, ran[0].ok), ran[1..];
    FollowsFirst(q, rest, id, end);
    if rest != [] {
      FollowsFirst(Stepped(q, rest[0].ok), rest[1..], id, end);
      if rest[1..] != [] { FollowsFirst(Driving(replica), rest[1..][1..], id, end); }
    }
  }

  method Note(table: Table, id: string, replica: string, task: string, interval: Option<nat>, hibernate: bool,
              others: Others)
    returns (ghost mine: seq<Answer>)
    modifies table
    ensures table.ran == old(table.ran) + mine
    ensures Follows(Parking(replica, task, interval, hibernate), mine, id, Waiting(replica, hibernate))
  {
    hide Follows;
    ghost var p := Parking(replica, task, interval, hibernate);
    var ok := table.Run(id, Park(task, interval), others);
    mine := [Answer(id, Park(task, interval), ok)];
    FollowsOne(p, id, mine[0]);
    ok := table.Run(id, AppendStep(WaitingApproval(task)), others);
    FollowsMore(p, mine, id, Noting(replica, task, hibernate), Answer(id, AppendStep(WaitingApproval(task)), ok));
    mine := mine + [Answer(id, AppendStep(WaitingApproval(task)), ok)];
  }

  method Record(table: Table, id: string, replica: string, expires: int, denied: bool, others: Others)
    returns (waited: Waited, ghost mine: seq<Answer>)
    modifies table
    ensures waited.Answered? || waited.LeaseLost?
    ensures table.ran == old(table.ran) + mine
    ensures Follows(Renewing(replica, expires, denied), mine, id, if waited.Answered? then Driving(replica) else Idle)
  {
    hide Follows;
    ghost var p := Renewing(replica, expires, denied);
    var renewed := table.Run(id, RenewLease(replica, expires), others);
    mine := [Answer(id, RenewLease(replica, expires), renewed)];
    FollowsOne(p, id, mine[0]);
    if !renewed {
      return LeaseLost, mine;
    }
    if !denied {
      var ok := table.Run(id, AppendStep(ToolResult), others);
      FollowsMore(p, mine, id, Recording(replica), Answer(id, AppendStep(ToolResult), ok));
      mine := mine + [Answer(id, AppendStep(ToolResult), ok)];
    }
    var ok := table.Run(id, ClearPark, others);
    FollowsMore(p, mine, id, Clearing(replica), Answer(id, ClearPark, ok));
    mine := mine + [Answer(id, ClearPark, ok)];
    waited := Answered;
  }
}
