/** The sweep over parked runs: look at each due run's task, then reschedule it, fail it, or resume it. */
module Sweep {
  import opened Options
  import opened TaskPoll
  import opened RunRow
  import opened RunThread
  import opened RunTable

  /** A due run as the listing returned it. */
  datatype Parked = Parked(id: string, listing: Listing)

  /** What a sweep meets: the look at each run's task. */
  type World = string -> Look

  ghost predicate FairDraws(w: World) {
    forall id :: IsDraw(w(id).random)
  }

  /** The phase in which a listed run's visit waits for the answer of its first statement. */
  function VisitPhase(parked: Parked, w: World, replica: string, now: int, leaseMs: nat): Phase {
    Seen(Checked(replica, now, parked.listing), w(parked.id), leaseMs, now)
  }

  predicate Resumes(w: World, id: string) {
    w(id).poll.Terminal? && w(id).hasHistory
  }

  /** What one visit leaves of a run when nobody else is at work. */
  function SweptRow(row: Row, parked: Parked, w: World, replica: string, now: int, leaseMs: nat): Row {
    if row.status.Completed? then row
    else
      match w(parked.id).poll
      case Terminal => row
      case Pending(interval) =>
        var delay := NextTaskPollDelayMs(OrElse(interval, parked.listing.interval), w(parked.id).random);
        var moved := row.(nextPollAt := Some(now + delay));
        if interval.Some? then moved.(parkedTask := Some(parked.listing.task), pollInterval := interval) else moved
      case Failed =>
        if Claimable(row, now) then Executed(row.(steps := row.steps + [Outcome(true)]), CompleteRun) else row
  }

  predicate ListedFrom(row: Row, parked: Parked) {
    row.parkedTask == Some(parked.listing.task) && row.pollInterval == parked.listing.interval
  }

  predicate Lists(due: seq<Parked>, id: string) {
    exists j :: 0 <= j < |due| && due[j].id == id
  }

  lemma ListsOneMore(due: seq<Parked>, next: Parked)
    ensures forall id :: Lists(due + [next], id) <==> Lists(due, id) || id == next.id
  {
    forall id ensures Lists(due + [next], id) <==> Lists(due, id) || id == next.id {
      if Lists(due, id) {
        var j :| 0 <= j < |due| && due[j].id == id;
        assert (due + [next])[j].id == id;
      }
      assert (due + [next])[|due|] == next;
    }
  }

  lemma ListsPrefix(due: seq<Parked>, i: nat)
    requires i < |due| && forall j, k :: 0 <= j < k < |due| ==> due[j].id != due[k].id
    ensures !Lists(due[..i], due[i].id)
    ensures forall id :: Lists(due[..i + 1], id) <==> Lists(due[..i], id) || id == due[i].id
  {
    assert due[..i + 1] == due[..i] + [due[i]];
    ListsOneMore(due[..i], due[i]);
  }

  /** What the listing returns: the due runs, each once. */
  ghost predicate Due(due: seq<Parked>, rows: Rows, now: int) {
    && (forall id :: Lists(due, id) <==> id in rows && ClaimableParked(rows[id], now))
    && (forall p <- due :: p.id in rows && ListedFrom(rows[p.id], p))
    && (forall i, j :: 0 <= i < j < |due| ==> due[i].id != due[j].id)
  }

  /** The due runs, oldest first; only that each is listed once matters here. */
  method ListClaimableParked(rows: Rows, now: int) returns (due: seq<Parked>)
    ensures Due(due, rows, now)
  {
    var left := set id <- rows | ClaimableParked(rows[id], now);
    ghost var all := left;
    due := [];
    while left != {}
      invariant left <= all
      invariant forall p <- due :: p.id in all - left && ListedFrom(rows[p.id], p)
      invariant forall id :: Lists(due, id) <==> id in all - left
      invariant forall i, j :: 0 <= i < j < |due| ==> due[i].id != due[j].id
      decreases left
    {
      var id :| id in left;
      var next := Parked(id, Listing(rows[id].parkedTask.value, rows[id].pollInterval));
      assert !Lists(due, id);
      ListsOneMore(due, next);
      due := due + [next];
      left := left - {id};
    }
  }

  /** The two writes after a pending look. */
  method Reschedule(table: Table, parked: Parked, w: World, replica: string, now: int, leaseMs: nat, others: Others)
    returns (ghost mine: seq<Answer>)
    requires w(parked.id).poll.Pending?
    modifies table
    ensures table.ran == old(table.ran) + mine
    ensures Follows(VisitPhase(parked, w, replica, now, leaseMs), mine, parked.id, Idle)
    ensures Ran(others, old(table.Now()), mine, table.Now())
    ensures Alone(others) && parked.id in old(table.rows) && old(table.rows)[parked.id].status.Active? ==>
              table.rows == old(table.rows)[parked.id :=
                SweptRow(old(table.rows)[parked.id], parked, w, replica, now, leaseMs)]
  {
    hide NextTaskPollDelayMs, Follows, Ran;
    var interval := w(parked.id).poll.pollIntervalMs;
    var delay := NextTaskPollDelayMs(OrElse(interval, parked.listing.interval), w(parked.id).random);
    var ok := table.Run(parked.id, NextPoll(now + delay), others);
    mine := [Answer(parked.id, NextPoll(now + delay), ok)];
    ghost var mid := table.Now();
    ghost var p := VisitPhase(parked, w, replica, now, leaseMs);
    FollowsOne(p, parked.id, mine[0]);
    if interval.Some? {
      var again := table.Run(parked.id, Park(parked.listing.task, interval), others);
      ghost var answer := Answer(parked.id, Park(parked.listing.task, interval), again);
      FollowsMore(p, mine, parked.id, Stepped(p, ok), answer);
      RanMore(others, old(table.Now()), mine, mid, answer, table.Now());
      mine := mine + [answer];
    }
  }

  /** Claim, outcome step, completion; the claim carries the clock the sweep began with. */
  method Fail(table: Table, parked: Parked, w: World, replica: string, now: int, leaseMs: nat, others: Others)
    returns (ghost mine: seq<Answer>)
    requires w(parked.id).poll.Failed?
    modifies table
    ensures table.ran == old(table.ran) + mine
    ensures Follows(VisitPhase(parked, w, replica, now, leaseMs), mine, parked.id, Idle)
    ensures Ran(others, old(table.Now()), mine, table.Now())
    ensures Alone(others) && parked.id in old(table.rows) && old(table.rows)[parked.id].status.Active? ==>
              table.rows == old(table.rows)[parked.id :=
                SweptRow(old(table.rows)[parked.id], parked, w, replica, now, leaseMs)]
  {
    hide Follows, Ran;
    var claim := ClaimRun(replica, LeaseExpiresAt(now, leaseMs), now);
    var claimed := table.Run(parked.id, claim, others);
    mine := [Answer(parked.id, claim, claimed)];
    ghost var p := VisitPhase(parked, w, replica, now, leaseMs);
    FollowsOne(p, parked.id, mine[0]);
    if !claimed {
      return;
    }
    ghost var mid := table.Now();
    var ok := table.Run(parked.id, AppendStep(Outcome(true)), others);
    ghost var answer := Answer(parked.id, AppendStep(Outcome(true)), ok);
    FollowsMore(p, mine, parked.id, Appending(true, true), answer);
    RanMore(others, old(table.Now()), mine, mid, answer, table.Now());
    mine, mid := mine + [answer], table.Now();
    ok := table.Run(parked.id, CompleteRun, others);
    answer := Answer(parked.id, CompleteRun, ok);
    FollowsMore(p, mine, parked.id, Completing(true), answer);
    RanMore(others, old(table.Now()), mine, mid, answer, table.Now());
    mine := mine + [answer];
  }

  /** One visit: the statements it ran, and whether it resumed the run. */
  datatype Visited = Visited(mine: seq<Answer>, resumed: bool)

  /** What a visit does about the row it finds for a listed run: nothing when that is gone or closed,
      else what its look says, by the statements of a thread of `RunThread`. */
  ghost predicate VisitedAs(v: Visited, found: Option<Row>, parked: Parked, w: World, replica: string, now: int,
                            leaseMs: nat) {
    if found.Some? && found.value.status.Active? then
      && (v.resumed <==> Resumes(w, parked.id))
      && if v.resumed then v.mine == []
         else Follows(VisitPhase(parked, w, replica, now, leaseMs), v.mine, parked.id, Idle)
    else v == Visited([], false)
  }

  function Lookup(rows: Rows, id: string): Option<Row> {
    if id in rows then Some(rows[id]) else None
  }

  function SweptRows(rows: Rows, parked: Parked, w: World, replica: string, now: int, leaseMs: nat): Rows {
    if parked.id in rows then rows[parked.id := SweptRow(rows[parked.id], parked, w, replica, now, leaseMs)] else rows
  }

  /** A visit that began at `before` and ended at `after`: the row is looked up at its first await, and
      then it runs its statements and no others. */
  ghost predicate VisitRan(others: Others, before: Moment, v: Visited, after: Moment, parked: Parked, w: World,
                           replica: string, now: int, leaseMs: nat) {
    var rows := Next(others, before);
    && VisitedAs(v, Lookup(rows, parked.id), parked, w, replica, now, leaseMs)
    && Ran(others, Moment(before.awaits + 1, rows), v.mine, after)
  }

  /** The visit to one listed run, whatever its row has become. */
  method Visit(table: Table, parked: Parked, w: World, replica: string, now: int, leaseMs: nat, others: Others)
    returns (resume: bool, ghost v: Visited)
    modifies table
    ensures VisitRan(others, old(table.Now()), v, table.Now(), parked, w, replica, now, leaseMs)
    ensures v.resumed == resume && table.ran == old(table.ran) + v.mine
    ensures var rows := others(old(table.awaits), old(table.rows));
            resume <==> && parked.id in rows && rows[parked.id].status.Active?
                        && w(parked.id).poll.Terminal? && w(parked.id).hasHistory
    ensures Alone(others) ==> table.rows == SweptRows(old(table.rows), parked, w, replica, now, leaseMs)
  {
    hide NextTaskPollDelayMs, Follows;
    resume, v := false, Visited([], false);
    table.Await(others);
    assert Ran(others, table.Now(), [], table.Now());
    if parked.id !in table.rows || !table.rows[parked.id].status.Active? {
      assert parked.id in table.rows ==> table.rows == table.rows[parked.id := table.rows[parked.id]];
      return;
    }
    hide Ran;
    match w(parked.id).poll {
      case Pending(_) =>
        ghost var mine := Reschedule(table, parked, w, replica, now, leaseMs, others);
        v := Visited(mine, false);
      case Failed =>
        ghost var mine := Fail(table, parked, w, replica, now, leaseMs, others);
        v := Visited(mine, false);
      case Terminal =>
        resume := w(parked.id).hasHistory;
        v := Visited([], resume);
        if !resume { NoStatement(parked, w, replica, now, leaseMs); }
        assert table.rows == table.rows[parked.id := table.rows[parked.id]];
    }
  }

  lemma NoStatement(parked: Parked, w: World, replica: string, now: int, leaseMs: nat)
    requires w(parked.id).poll.Terminal? && !w(parked.id).hasHistory
    ensures Follows(VisitPhase(parked, w, replica, now, leaseMs), [], parked.id, Idle)
  {
  }

  /** The statements of a visit that does not resume the run.  Failed: the claim with the clock the sweep began
      with, and if that matched the outcome step and the completion.  Pending: the next poll, the look's own
      interval counting before the listed one, and the task once more if the look gave an interval. */
  lemma VisitStatements(mine: seq<Answer>, parked: Parked, w: World, replica: string, now: int, leaseMs: nat)
    requires Follows(VisitPhase(parked, w, replica, now, leaseMs), mine, parked.id, Idle) && !Resumes(w, parked.id)
    ensures forall a <- mine :: a.id == parked.id
    ensures w(parked.id).poll.Terminal? ==> mine == []
    ensures w(parked.id).poll.Failed? ==>
              && |mine| >= 1 && mine[0].statement == ClaimRun(replica, now + leaseMs, now)
              && |mine| == (if mine[0].ok then 3 else 1)
              && (mine[0].ok ==> mine[1].statement == AppendStep(Outcome(true)) && mine[2].statement == CompleteRun)
    ensures w(parked.id).poll.Pending? ==>
              var asked := w(parked.id).poll.pollIntervalMs;
              && |mine| == (if asked.Some? then 2 else 1)
              && mine[0].statement == NextPoll(now + NextTaskPollDelayMs(
                   if asked.Some? then asked else parked.listing.interval, w(parked.id).random))
              && (asked.Some? ==> mine[1].statement == Park(parked.listing.task, asked))
  {
    hide NextTaskPollDelayMs, Follows;
    var p := VisitPhase(parked, w, replica, now, leaseMs);
    FollowsFirst(p, mine, parked.id, Idle);
    if mine != [] {
      var q, rest := Stepped(p, mine[0].ok), mine[1..];
      FollowsFirst(q, rest, parked.id, Idle);
      if rest != [] {
        FollowsFirst(Stepped(q, rest[0].ok), rest[1..], parked.id, Idle);
        if rest[1..] != [] { FollowsFirst(Idle, rest[1..][1..], parked.id, Idle); }
      }
    }
  }

  /** `before`, and then the visits' statements in order. */
  function Together(before: seq<Answer>, visits: seq<Visited>): seq<Answer> {
    if visits == [] then before else Together(before, visits[..|visits| - 1]) + visits[|visits| - 1].mine
  }

  lemma TogetherMore(before: seq<Answer>, visits: seq<Visited>, v: Visited)
    ensures Together(before, visits + [v]) == Together(before, visits) + v.mine
  {
    assert (visits + [v])[..|visits|] == visits;
  }

  /** The runs that the first visits resumed, each once. */
  ghost predicate ResumedBy(resumed: seq<string>, due: seq<Parked>, visits: seq<Visited>)
    requires |visits| <= |due|
  {
    && (forall id :: id in resumed <==> exists j :: 0 <= j < |visits| && due[j].id == id && visits[j].resumed)
    && (forall j, k :: 0 <= j < k < |resumed| ==> resumed[j] != resumed[k])
  }

  lemma ResumedMore(resumed: seq<string>, due: seq<Parked>, visits: seq<Visited>, v: Visited, start: Rows,
                    now: int)
    requires |visits| < |due| && ResumedBy(resumed, due, visits) && Due(due, start, now)
    ensures ResumedBy(if v.resumed then resumed + [due[|visits|].id] else resumed, due, visits + [v])
  {
    var i, id := |visits|, due[|visits|].id;
    hide Lists, ClaimableParked, ListedFrom;
    assert id !in resumed;
    assert forall j :: 0 <= j < i ==> (visits + [v])[j] == visits[j];
    assert (visits + [v])[i] == v;
    var more := if v.resumed then resumed + [id] else resumed;
    forall x ensures x in more <==> exists j :: 0 <= j < i + 1 && due[j].id == x && (visits + [v])[j].resumed {
      assert x in more <==> x in resumed || (v.resumed && x == id);
      if x in resumed {
        var j :| 0 <= j < i && due[j].id == x && visits[j].resumed;
        assert (visits + [v])[j].resumed;
      }
    }
  }

  /** `moments[i]` is when the visit to `due[i]` begins; the next visit begins where it ended. */
  ghost predicate AllVisited(others: Others, moments: seq<Moment>, visits: seq<Visited>, due: seq<Parked>, w: World,
                             replica: string, now: int, leaseMs: nat) {
    && |visits| <= |due| && |moments| == |visits| + 1
    && forall i :: 0 <= i < |visits| ==>
         VisitRan(others, moments[i], visits[i], moments[i + 1], due[i], w, replica, now, leaseMs)
  }

  lemma AllVisitedMore(others: Others, moments: seq<Moment>, visits: seq<Visited>, due: seq<Parked>, w: World,
                       replica: string, now: int, leaseMs: nat, v: Visited, after: Moment)
    requires AllVisited(others, moments, visits, due, w, replica, now, leaseMs) && |visits| < |due|
    requires VisitRan(others, moments[|visits|], v, after, due[|visits|], w, replica, now, leaseMs)
    ensures AllVisited(others, moments + [after], visits + [v], due, w, replica, now, leaseMs)
  {
    hide VisitRan;
  }

  /** Resumed drives start in the background; `resumed` names them.  Whatever other processes do
      meanwhile: each due run is visited once, on the row found there and then, and the sweep runs no
      statement but those of its visits, in order; its awaits, and what is in the table after them, are
      exactly the listing's, the visits' and what the others did.  Alone, it leaves every due run as its
      look at the task says and no other run changed. */
  method ResumeParkedRuns(table: Table, w: World, replica: string, now: int, leaseMs: nat, others: Others)
    returns (due: seq<Parked>, resumed: seq<string>, ghost visits: seq<Visited>, ghost moments: seq<Moment>)
    modifies table
    ensures Due(due, Next(others, old(table.Now())), now)
    ensures |visits| == |due| && AllVisited(others, moments, visits, due, w, replica, now, leaseMs)
    ensures moments[0] == Moment(old(table.awaits) + 1, Next(others, old(table.Now())))
    ensures moments[|due|] == table.Now()
    ensures table.ran == Together(old(table.ran), visits)
    ensures ResumedBy(resumed, due, visits)
    ensures Alone(others) ==> SweptAlone(old(table.rows), table.rows, due, w, replica, now, leaseMs)
  {
    table.Await(others);
    due := ListClaimableParked(table.rows, now);
    ghost var start := table.rows;
    resumed, visits, moments := [], [], [table.Now()];
    NothingSwept(start, due, w, replica, now, leaseMs);
    assert ResumedBy(resumed, due, visits);
    assert AllVisited(others, moments, visits, due, w, replica, now, leaseMs);
    assert Due(due, start, now) && Together(table.ran, visits) == table.ran;
    assert Alone(others) ==> start == old(table.rows);
    ghost var first := moments[0];
    assert first == Moment(old(table.awaits) + 1, Next(others, old(table.Now())));
    hide *;
    for i := 0 to |due|
      invariant |visits| == i && |moments| == i + 1
      invariant moments[0] == first && moments[i] == Moment(table.awaits, table.rows)
      invariant AllVisited(others, moments, visits, due, w, replica, now, leaseMs)
      invariant table.ran == Together(old(table.ran), visits)
      invariant ResumedBy(resumed, due, visits)
      invariant Alone(others) ==> SweptPrefix(start, table.rows, due, i, w, replica, now, leaseMs)
    {
      ghost var before := table.rows;
      var resume, v := Visit(table, due[i], w, replica, now, leaseMs, others);
      TogetherMore(old(table.ran), visits, v);
      ResumedMore(resumed, due, visits, v, start, now);
      if Alone(others) { SweptOneMore(start, before, due, i, w, replica, now, leaseMs); }
      AllVisitedMore(others, moments, visits, due, w, replica, now, leaseMs, v, table.Now());
      visits, moments := visits + [v], moments + [Moment(table.awaits, table.rows)];
      if resume {
        resumed := resumed + [due[i].id];
      }
    }
    if Alone(others) { AllSwept(start, table.rows, due, w, replica, now, leaseMs); }
  }

  /** After the first `i` visits. */
  ghost predicate SweptPrefix(start: Rows, rows: Rows, due: seq<Parked>, i: nat, w: World, replica: string, now: int,
                              leaseMs: nat)
    requires i <= |due|
  {
    && rows.Keys == start.Keys
    && (forall j :: 0 <= j < i ==>
          due[j].id in start && rows[due[j].id] == SweptRow(start[due[j].id], due[j], w, replica, now, leaseMs))
    && (forall id <- rows :: !Lists(due[..i], id) ==> rows[id] == start[id])
  }

  ghost predicate SweptAlone(start: Rows, rows: Rows, due: seq<Parked>, w: World, replica: string, now: int,
                             leaseMs: nat) {
    && rows.Keys == start.Keys
    && (forall p <- due :: p.id in rows && rows[p.id] == SweptRow(start[p.id], p, w, replica, now, leaseMs))
    && (forall id <- rows :: !ClaimableParked(start[id], now) ==> rows[id] == start[id])
  }

  lemma NothingSwept(start: Rows, due: seq<Parked>, w: World, replica: string, now: int, leaseMs: nat)
    ensures SweptPrefix(start, start, due, 0, w, replica, now, leaseMs)
  {
    hide SweptRow;
  }

  lemma SweptOneMore(start: Rows, before: Rows, due: seq<Parked>, i: nat, w: World, replica: string, now: int,
                     leaseMs: nat)
    requires i < |due| && SweptPrefix(start, before, due, i, w, replica, now, leaseMs) && Due(due, start, now)
    ensures var swept := SweptRows(before, due[i], w, replica, now, leaseMs);
            SweptPrefix(start, swept, due, i + 1, w, replica, now, leaseMs)
  {
    hide SweptRow, Lists, ClaimableParked, ListedFrom;
    assert due[i] in due && due[i].id in start;
    ListsPrefix(due, i);
    var swept := SweptRows(before, due[i], w, replica, now, leaseMs);
    assert swept == before[due[i].id := SweptRow(before[due[i].id], due[i], w, replica, now, leaseMs)];
    assert before[due[i].id] == start[due[i].id];
    forall j | 0 <= j < i + 1
      ensures due[j].id in start && swept[due[j].id] == SweptRow(start[due[j].id], due[j], w, replica, now, leaseMs)
    {
      assert j < i ==> due[j].id != due[i].id;
    }
  }

  lemma AllSwept(start: Rows, rows: Rows, due: seq<Parked>, w: World, replica: string, now: int, leaseMs: nat)
    requires SweptPrefix(start, rows, due, |due|, w, replica, now, leaseMs) && Due(due, start, now)
    ensures SweptAlone(start, rows, due, w, replica, now, leaseMs)
  {
    hide SweptRow, ClaimableParked, Lists, ListedFrom;
    assert due[..|due|] == due;
  }

  // ---------- A sweep by itself ----------

  /** If the row is as it was listed, a pending run is listed again exactly from its next poll on, 40
      to 36000 ms later. */
  lemma PendingComesBack(row: Row, parked: Parked, w: World, replica: string, now: int, leaseMs: nat, later: int)
    requires FairDraws(w) && w(parked.id).poll.Pending? && ClaimableParked(row, now) && ListedFrom(row, parked)
    requires later >= now
    ensures var swept := SweptRow(row, parked, w, replica, now, leaseMs);
            && swept.nextPollAt.Some? && now + 40 <= swept.nextPollAt.value <= now + 36_000
            && (ClaimableParked(swept, later) <==> later >= swept.nextPollAt.value)
  {
    DelayBounds(OrElse(w(parked.id).poll.pollIntervalMs, parked.listing.interval), w(parked.id).random);
    hide NextTaskPollDelayMs;
  }

  /** With no other process at the run in between, a sweep that finds a task failed completes a
      claimable run with one outcome step and leaves nothing for a later sweep or claim; a run under a
      live lease it does not touch. */
  lemma FailedOnlyOnce(row: Row, parked: Parked, w: World, replica: string, now: int, leaseMs: nat, later: int)
    requires w(parked.id).poll.Failed? && row.status.Active?
    ensures var swept := SweptRow(row, parked, w, replica, now, leaseMs);
            if Claimable(row, now) then
              && swept.steps == row.steps + [Outcome(true)] && swept.status.Completed?
              && !ClaimableParked(swept, later)
              && Execute(swept, ClaimRun(replica, LeaseExpiresAt(later, leaseMs), later)) == None
            else swept == row
  {
  }
}
