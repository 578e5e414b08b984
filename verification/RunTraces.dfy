/** What the log of `RunLease` shows over whole runs: who may record a result or an outcome step, how a
    run can get two outcome steps, and what a sweep whose listing is out of date can do. */
module RunTraces {
  import opened Options
  import opened TaskPoll
  import opened RunRow
  import opened RunThread
  import opened RunLease
  import opened LeaseTheorems

  // ---------- The log ----------

  /** The row that the logged statements leave. */
  function Replay(row: Row, log: seq<Mark>): Row {
    if log == [] then row else Executed(Replay(row, log[..|log| - 1]), log[|log| - 1].statement)
  }

  /** The row that the statement at `i` found. */
  function Found(row: Row, log: seq<Mark>, i: nat): Row
    requires i <= |log|
  {
    Replay(row, log[..i])
  }

  ghost predicate Truthful(row: Row, log: seq<Mark>) {
    forall i :: 0 <= i < |log| ==> (log[i].ok <==> Execute(Found(row, log, i), log[i].statement).Some?)
  }

  /** Where the thread last appears in the log, or -1. */
  function LastOf(log: seq<Mark>, tid: Option<Tid>): (j: int)
    ensures -1 <= j < |log|
    ensures j >= 0 ==> log[j].tid == tid
    ensures forall k :: j < k < |log| ==> log[k].tid != tid
  {
    if log == [] then -1
    else if log[|log| - 1].tid == tid then |log| - 1
    else LastOf(log[..|log| - 1], tid)
  }

  /** The thread's step before its step at `i`. */
  function Before(log: seq<Mark>, i: nat): (j: int)
    requires i < |log|
    ensures -1 <= j < i
  {
    LastOf(log[..i], log[i].tid)
  }

  predicate IsRenewal(m: Mark) {
    m.statement.RenewLease? && m.ok
  }

  predicate IsRecord(m: Mark) {
    m.statement == AppendStep(ToolResult)
  }

  predicate IsClaim(m: Mark) {
    m.statement.ClaimRun? && m.ok
  }

  predicate IsOutcome(m: Mark) {
    m.statement.AppendStep? && m.statement.step.Outcome?
  }

  /** The thread's last claim that matched, if it has written no outcome step since; else -1. */
  function OpenClaim(log: seq<Mark>, tid: Option<Tid>): (j: int)
    ensures -1 <= j < |log|
    ensures j >= 0 ==> log[j].tid == tid && IsClaim(log[j])
    ensures j >= 0 ==> forall k :: j < k < |log| && log[k].tid == tid ==> !IsOutcome(log[k])
  {
    if log == [] then -1
    else
      var last := log[|log| - 1];
      if last.tid == tid && IsClaim(last) then |log| - 1
      else if last.tid == tid && IsOutcome(last) then -1
      else OpenClaim(log[..|log| - 1], tid)
  }

  /** The thread's last claim that matched, or -1. */
  function LastClaim(log: seq<Mark>, tid: Option<Tid>): (j: int)
    ensures -1 <= j < |log|
    ensures j >= 0 ==> log[j].tid == tid && IsClaim(log[j])
    ensures OpenClaim(log, tid) >= 0 ==> j == OpenClaim(log, tid)
  {
    if log == [] then -1
    else if log[|log| - 1].tid == tid && IsClaim(log[|log| - 1]) then |log| - 1
    else LastClaim(log[..|log| - 1], tid)
  }

  /** The claim that the outcome step at `i` rests on. */
  function ClaimFor(log: seq<Mark>, i: nat): (j: int)
    requires i < |log|
    ensures -1 <= j < i
  {
    LastClaim(log[..i], log[i].tid)
  }

  /** Past its claim. */
  predicate AtWork(p: Phase) {
    MayFail(p) || p.Appending? || p.Completing?
  }

  /** Past its claim, and without an outcome step since. */
  predicate BeforeOutcome(p: Phase) {
    AtWork(p) && !p.Completing? && !p.Closing? && (p.Appending? ==> p.sweep || !p.failed)
  }

  /** What a thread's phase says about its steps so far. */
  ghost predicate PhaseTrace(log: seq<Mark>, tid: Tid, p: Phase) {
    var j := LastOf(log, Some(tid));
    && (p.Recording? ==> j >= 0 && IsRenewal(log[j]) && log[j].statement.replica == p.replica)
    && (AtWork(p) ==> LastClaim(log, Some(tid)) >= 0)
    && (BeforeOutcome(p) ==> OpenClaim(log, Some(tid)) >= 0)
  }

  ghost predicate RecordsFollow(log: seq<Mark>) {
    forall i :: 0 <= i < |log| && IsRecord(log[i]) ==>
      log[i].tid.Some? && Before(log, i) >= 0 && IsRenewal(log[Before(log, i)])
  }

  ghost predicate OutcomesFollow(log: seq<Mark>) {
    forall i :: 0 <= i < |log| && IsOutcome(log[i]) ==>
      && log[i].tid.Some? && ClaimFor(log, i) >= 0
      && (!log[i].statement.step.failed ==> OpenClaim(log[..i], log[i].tid) >= 0)
  }

  /** A claim asks for a lease beyond the clock it carries. */
  ghost predicate SaneClaims(log: seq<Mark>) {
    forall i :: 0 <= i < |log| && log[i].statement.ClaimRun? ==> log[i].statement.asOf <= log[i].statement.expires
  }

  ghost predicate LogRules(log: seq<Mark>) {
    RecordsFollow(log) && OutcomesFollow(log) && SaneClaims(log)
  }

  ghost predicate TraceInv(s: State, start: State) {
    && s.row == Replay(start.row, s.log) && Truthful(start.row, s.log)
    && LogRules(s.log)
    && (forall tid <- s.threads :: PhaseTrace(s.log, tid, s.threads[tid]))
  }

  lemma LastOfMore(log: seq<Mark>, m: Mark, tid: Option<Tid>)
    ensures LastOf(log + [m], tid) == if tid == m.tid then |log| else LastOf(log, tid)
  {
    assert (log + [m])[..|log|] == log;
  }

  lemma OpenClaimMore(log: seq<Mark>, m: Mark, tid: Option<Tid>)
    ensures OpenClaim(log + [m], tid)
         == if tid != m.tid then OpenClaim(log, tid)
            else if IsClaim(m) then |log|
            else if IsOutcome(m) then -1
            else OpenClaim(log, tid)
  {
    assert (log + [m])[..|log|] == log;
  }

  lemma LastClaimMore(log: seq<Mark>, m: Mark, tid: Option<Tid>)
    ensures LastClaim(log + [m], tid) == if tid == m.tid && IsClaim(m) then |log| else LastClaim(log, tid)
  {
    assert (log + [m])[..|log|] == log;
  }

  lemma ReplayMore(row: Row, log: seq<Mark>, m: Mark)
    requires Truthful(row, log) && (m.ok <==> Execute(Replay(row, log), m.statement).Some?)
    ensures Replay(row, log + [m]) == Executed(Replay(row, log), m.statement) && Truthful(row, log + [m])
  {
    var more := log + [m];
    assert more[|log|] == m && Replay(row, more) == Executed(Replay(row, more[..|log|]), m.statement);
    assert more[..|log|] == log;
    hide Execute, Executed, Replay;
    forall i | 0 <= i < |more| ensures more[i].ok <==> Execute(Found(row, more, i), more[i].statement).Some? {
      if i < |log| {
        assert more[..i] == log[..i] && more[i] == log[i];
        assert Found(row, more, i) == Found(row, log, i);
      }
    }
  }

  /** A step that needs others before it has them. */
  ghost predicate RestsOn(log: seq<Mark>, m: Mark) {
    var j := LastOf(log, m.tid);
    && (IsRecord(m) ==> m.tid.Some? && j >= 0 && IsRenewal(log[j]))
    && (IsOutcome(m) ==> m.tid.Some? && LastClaim(log, m.tid) >= 0
                         && (!m.statement.step.failed ==> OpenClaim(log, m.tid) >= 0))
    && (m.statement.ClaimRun? ==> m.statement.asOf <= m.statement.expires)
  }

  lemma RulesMore(log: seq<Mark>, m: Mark)
    requires LogRules(log) && RestsOn(log, m)
    ensures LogRules(log + [m])
  {
    var more := log + [m];
    hide LastOf, OpenClaim, LastClaim, IsRecord, IsRenewal;
    forall i | 0 <= i < |more|
      ensures IsRecord(more[i]) ==> more[i].tid.Some? && Before(more, i) >= 0 && IsRenewal(more[Before(more, i)])
      ensures IsOutcome(more[i]) ==> more[i].tid.Some? && ClaimFor(more, i) >= 0
      ensures IsOutcome(more[i]) && !more[i].statement.step.failed ==> OpenClaim(more[..i], more[i].tid) >= 0
    {
      assert more[..i] == if i < |log| then log[..i] else log;
    }
  }

  /** What the phase of a thread, and so its steps so far, say about the step it makes next. */
  lemma NextMark(log: seq<Mark>, tid: Tid, p: Phase, m: Mark)
    requires PhaseTrace(log, tid, p) && m.tid == Some(tid) && StatementOf(p) == Some(m.statement)
    requires m.statement.ClaimRun? ==> m.statement.asOf <= m.statement.expires
    ensures RestsOn(log, m)
    ensures var n := Stepped(p, m.ok);
            && (n.Recording? ==> IsRenewal(m) && m.statement.replica == n.replica)
            && (AtWork(n) ==> IsClaim(m) || AtWork(p))
            && (BeforeOutcome(n) ==> IsClaim(m) || (BeforeOutcome(p) && !IsOutcome(m)))
  {
    hide LastOf, OpenClaim, LastClaim;
  }

  /** A thread in phase `p` runs its statement, and its next phase rests on that. */
  lemma PhaseMore(log: seq<Mark>, tid: Tid, p: Phase, m: Mark)
    requires PhaseTrace(log, tid, p) && m.tid == Some(tid) && StatementOf(p) == Some(m.statement)
    requires m.statement.ClaimRun? ==> m.statement.asOf <= m.statement.expires
    ensures RestsOn(log, m) && PhaseTrace(log + [m], tid, Stepped(p, m.ok))
  {
    NextMark(log, tid, p, m);
    LastOfMore(log, m, Some(tid));
    OpenClaimMore(log, m, Some(tid));
    LastClaimMore(log, m, Some(tid));
    hide LastOf, OpenClaim, LastClaim, RestsOn, StatementOf, Stepped, AtWork, BeforeOutcome;
  }

  /** A thread that did not step keeps its trace. */
  lemma OthersTrace(log: seq<Mark>, m: Mark, tid: Tid, p: Phase)
    requires PhaseTrace(log, tid, p) && m.tid != Some(tid)
    ensures PhaseTrace(log + [m], tid, p)
  {
    LastOfMore(log, m, Some(tid));
    OpenClaimMore(log, m, Some(tid));
    LastClaimMore(log, m, Some(tid));
    hide LastOf, OpenClaim, LastClaim, AtWork, BeforeOutcome;
  }

  lemma IdleTrace(log: seq<Mark>, tid: Tid)
    ensures PhaseTrace(log, tid, Idle)
  {
  }

  /** A statement is run against the row, and the thread that waits for its answer steps. */
  lemma StepTraces(s: State, start: State, m: Mark, t: State)
    requires TraceInv(s, start) && t.log == s.log + [m] && t.row == Executed(s.row, m.statement)
    requires m.ok <==> Execute(s.row, m.statement).Some?
    requires RestsOn(s.log, m)
    requires forall tid <- t.threads :: PhaseTrace(t.log, tid, t.threads[tid])
    ensures TraceInv(t, start)
  {
    hide PhaseTrace, LogRules, Executed, Execute, RestsOn, Truthful;
    RulesMore(s.log, m);
    ReplayMore(start.row, s.log, m);
  }

  lemma ThreadTraces(s: State, start: State, tid: Tid, m: Mark, t: State)
    requires TraceInv(s, start) && m.tid == Some(tid) && StatementOf(PhaseOf(s, tid)) == Some(m.statement)
    requires m.statement.ClaimRun? ==> m.statement.asOf <= m.statement.expires
    requires t.log == s.log + [m] && t.row == Executed(s.row, m.statement)
    requires m.ok <==> Execute(s.row, m.statement).Some?
    requires t.threads == s.threads[tid := Stepped(PhaseOf(s, tid), m.ok)]
    ensures TraceInv(t, start)
  {
    hide PhaseTrace, LogRules, Executed, Execute, RestsOn, Truthful, StatementOf, Stepped;
    IdleTrace(s.log, tid);
    PhaseMore(s.log, tid, PhaseOf(s, tid), m);
    forall i <- t.threads ensures PhaseTrace(t.log, i, t.threads[i]) {
      if i != tid { OthersTrace(s.log, m, i, s.threads[i]); }
    }
    StepTraces(s, start, m, t);
  }

  lemma OutsideTraces(s: State, start: State, m: Mark, t: State)
    requires TraceInv(s, start) && m.tid == None && !m.statement.AppendStep?
    requires m.statement.ClaimRun? ==> m.statement.asOf <= m.statement.expires
    requires t.log == s.log + [m] && t.row == Executed(s.row, m.statement) && t.threads == s.threads
    requires m.ok <==> Execute(s.row, m.statement).Some?
    ensures TraceInv(t, start)
  {
    assert RestsOn(s.log, m);
    hide PhaseTrace, LogRules, Executed, Execute, RestsOn, Truthful;
    forall i <- t.threads ensures PhaseTrace(t.log, i, t.threads[i]) { OthersTrace(s.log, m, i, s.threads[i]); }
    StepTraces(s, start, m, t);
  }

  /** A phase that rests on nothing in the log, or on what the thread's phase before it did. */
  predicate Follows(n: Phase, p: Phase) {
    !n.Recording? && (AtWork(n) ==> AtWork(p)) && (BeforeOutcome(n) ==> BeforeOutcome(p))
  }

  lemma NextTraces(p: Phase, row: Row, now: int, leaseMs: nat, e: Event)
    ensures match NextPhase(p, row, now, leaseMs, e)
            case None => true
            case Some(n) => Follows(n, p)
  {
    hide NextTaskPollDelayMs, ClaimableParked;
  }

  lemma DecisionTraces(s: State, start: State, leaseMs: nat, e: Event, t: State)
    requires TraceInv(s, start) && IsDecision(e) && Decided(s, leaseMs, e) == Some(t)
    ensures TraceInv(t, start)
  {
    var p := PhaseOf(s, e.tid);
    IdleTrace(s.log, e.tid);
    NextTraces(p, s.row, s.now, leaseMs, e);
    assert t.threads == s.threads[e.tid := NextPhase(p, s.row, s.now, leaseMs, e).value];
    assert t.log == s.log && t.row == s.row;
    assert PhaseTrace(s.log, e.tid, p);
    hide NextPhase, StatementOf, LogRules, Truthful, Replay, Decided;
    forall i <- t.threads ensures PhaseTrace(t.log, i, t.threads[i]) {
      if i != e.tid { assert t.threads[i] == s.threads[i]; }
    }
  }

  lemma ArrivalTraces(s: State, start: State, leaseMs: nat, q: Request, t: State)
    requires TraceInv(s, start) && WellFormed(q) && Apply(s, leaseMs, Arrive(q)) == Some(t)
    ensures TraceInv(t, start)
  {
    ArrivalFields(s, leaseMs, q, t);
    hide Apply, TraceInv, Execute, Executed, Stepped;
    var ok := Execute(s.row, q.statement).Some?;
    if Awaits(s, q) {
      ThreadTraces(s, start, q.tid.value, Mark(q.tid, q.statement, ok), t);
    } else {
      OutsideTraces(s, start, Mark(None, q.statement, ok), t);
    }
  }

  lemma RunTracesOn(s: State, start: State, leaseMs: nat, tid: Tid, t: State)
    requires TraceInv(s, start) && Apply(s, leaseMs, Runs(tid)) == Some(t)
    ensures TraceInv(t, start)
  {
    hide TraceInv, Stepped;
    RunsAreOwn(s, leaseMs, tid, t);
    var st := StatementOf(PhaseOf(s, tid)).value;
    ThreadTraces(s, start, tid, Mark(Some(tid), st, Execute(s.row, st).Some?), t);
  }

  lemma OtherTraces(s: State, start: State, leaseMs: nat, e: Event, t: State)
    requires TraceInv(s, start) && Apply(s, leaseMs, e) == Some(t)
    requires e.Tick? || e.Beat? || e.Lose? || e.Release? || e.Continue?
    ensures TraceInv(t, start)
  {
    if e.Release? || e.Continue? {
      var st := if e.Release? then ReleaseRun(e.replica) else ContinueRun;
      hide TraceInv, Execute;
      OutsideTraces(s, start, Mark(None, st, Execute(s.row, st).Some?), t);
    } else {
      assert t.log == s.log && t.row == s.row && t.threads == s.threads;
      hide Apply, PhaseTrace, LogRules, Truthful, Replay;
    }
  }

  lemma EventTraces(s: State, start: State, leaseMs: nat, e: Event, t: State)
    requires Inv(s, leaseMs) && TraceInv(s, start) && Apply(s, leaseMs, e) == Some(t)
    ensures TraceInv(t, start)
  {
    assert IsDecision(e) ==> Decided(s, leaseMs, e) == Some(t);
    ArrivalIsWellFormed(s, leaseMs, e, t);
    hide Inv, TraceInv, Apply, Decided, WellFormed;
    if e.Arrive? {
      ArrivalTraces(s, start, leaseMs, e.request, t);
    } else if e.Runs? {
      RunTracesOn(s, start, leaseMs, e.tid, t);
    } else if IsDecision(e) {
      DecisionTraces(s, start, leaseMs, e, t);
    } else {
      OtherTraces(s, start, leaseMs, e, t);
    }
  }

  lemma {:induction false} TraceAlways(start: State, leaseMs: nat, events: seq<Event>)
    requires Initial(start)
    ensures TraceInv(After(start, leaseMs, events), start)
  {
    if events != [] {
      var s := After(start, leaseMs, events[..|events| - 1]);
      LastStep(start, leaseMs, events, s);
      TraceAlways(start, leaseMs, events[..|events| - 1]);
      InvAlways(start, leaseMs, events[..|events| - 1]);
      hide After, Inv, TraceInv, Apply;
      var t := Apply(s, leaseMs, events[|events| - 1]);
      if t.Some? { EventTraces(s, start, leaseMs, events[|events| - 1], t.value); }
    }
  }

  /** `j` is the same thread's step before its step at `i`. */
  predicate DirectlyBefore(log: seq<Mark>, j: int, i: nat) {
    && 0 <= j < i < |log| && log[j].tid == log[i].tid
    && forall k :: j < k < i ==> log[k].tid != log[i].tid
  }

  lemma BeforeIsDirect(log: seq<Mark>, i: nat)
    requires i < |log| && Before(log, i) >= 0
    ensures DirectlyBefore(log, Before(log, i), i)
  {
    assert forall k :: 0 <= k < i ==> log[..i][k] == log[k];
  }

  /** Whatever sweeps, drives and replicas do: a thread records a parked task's result only directly
      after a renewal of its own replica matched the row. */
  lemma RecordFollowsRenewal(start: State, leaseMs: nat, events: seq<Event>, log: seq<Mark>, i: nat)
    requires Initial(start) && log == After(start, leaseMs, events).log
    requires i < |log| && IsRecord(log[i])
    ensures exists j :: DirectlyBefore(log, j, i) && IsRenewal(log[j])
  {
    TraceAlways(start, leaseMs, events);
    hide After, Initial, Before, IsRecord, IsRenewal, Replay, Truthful, PhaseTrace;
    BeforeIsDirect(log, i);
  }

  // ---------- Two outcome steps ----------

  /** The statement takes lease time away from whoever holds the run: a release, or a renewal to an
      earlier time than the row has. */
  predicate Lowers(row: Row, st: Statement) {
    || (st.ReleaseRun? && row.owner == Some(st.replica))
    || (st.RenewLease? && Execute(row, st).Some? && row.lease.Some? && st.expires < row.lease.value)
  }

  predicate LeaseAtLeast(row: Row, expires: int) {
    row.owner.Some? && row.lease.Some? && row.lease.value >= expires
  }

  lemma LeaseKept(row: Row, st: Statement, expires: int)
    requires LeaseAtLeast(row, expires) && !Lowers(row, st) && !st.CompleteRun?
    requires st.ClaimRun? ==> st.asOf <= st.expires
    ensures LeaseAtLeast(Executed(row, st), expires)
  {
  }

  /** Up to `k`, no completion and no statement that lowers the lease after the one at `c`. */
  ghost predicate LeaseStands(row: Row, log: seq<Mark>, c: nat, k: nat)
    requires k <= |log|
  {
    forall i :: c < i < k ==> !log[i].statement.CompleteRun? && !Lowers(Found(row, log, i), log[i].statement)
  }

  lemma {:induction false} LeaseRises(row: Row, log: seq<Mark>, c: nat, k: nat)
    requires Truthful(row, log) && SaneClaims(log) && c < k <= |log| && IsClaim(log[c]) && LeaseStands(row, log, c, k)
    ensures LeaseAtLeast(Found(row, log, k), log[c].statement.expires)
    decreases k
  {
    assert log[..k][..k - 1] == log[..k - 1];
    assert Found(row, log, k) == Executed(Found(row, log, k - 1), log[k - 1].statement);
    hide Found, Lowers, Executed, SaneClaims;
    if k == c + 1 {
      ClaimGives(Found(row, log, c), log[c].statement);
    } else {
      LeaseRises(row, log, c, k - 1);
      assert !Lowers(Found(row, log, k - 1), log[k - 1].statement);
      if log[k - 1].statement.ClaimRun? { SaneClaim(log, k - 1); }
      LeaseKept(Found(row, log, k - 1), log[k - 1].statement, log[c].statement.expires);
    }
  }

  lemma SaneClaim(log: seq<Mark>, i: nat)
    requires SaneClaims(log) && i < |log| && log[i].statement.ClaimRun?
    ensures log[i].statement.asOf <= log[i].statement.expires
  {
  }

  lemma ClaimGives(row: Row, st: Statement)
    requires st.ClaimRun? && Execute(row, st).Some?
    ensures LeaseAtLeast(Executed(row, st), st.expires)
  {
  }

  /** Of two claims that matched, the second one carries a clock past the first one's expiry; unless in
      between the run was completed, let go, or had its lease lowered by an older renewal. */
  lemma ClaimsApart(row: Row, log: seq<Mark>, c: nat, d: nat)
    requires Truthful(row, log) && SaneClaims(log) && c < d < |log| && IsClaim(log[c]) && IsClaim(log[d])
    ensures log[c].statement.expires < log[d].statement.asOf || !LeaseStands(row, log, c, d)
  {
    hide LeaseStands, SaneClaims, Found;
    if LeaseStands(row, log, c, d) {
      LeaseRises(row, log, c, d);
      assert Execute(Found(row, log, d), log[d].statement).Some?;
    }
  }

  /** Two outcome steps that rest on one claim are of one thread, and the later one says failed: a drive's
      failure handler wrote it. */
  lemma OneClaim(log: seq<Mark>, i: nat, j: nat)
    requires OutcomesFollow(log) && i < j < |log| && IsOutcome(log[i]) && IsOutcome(log[j])
    ensures var c, d := ClaimFor(log, i), ClaimFor(log, j);
            && c >= 0 && d >= 0 && IsClaim(log[c]) && IsClaim(log[d])
            && (c == d ==> log[i].tid == log[j].tid && log[j].statement.step.failed)
  {
    var d := ClaimFor(log, j);
    hide LastClaim, IsClaim;
    assert forall k :: 0 <= k < i ==> log[..i][k] == log[k];
    assert forall k :: 0 <= k < j ==> log[..j][k] == log[k];
    assert OpenClaim(log[..j], log[j].tid) >= 0 ==> OpenClaim(log[..j], log[j].tid) == d;
  }

  ghost predicate NeverContinued(log: seq<Mark>) {
    forall i :: 0 <= i < |log| ==> !log[i].statement.ContinueRun?
  }

  lemma {:induction false} StaysCompleted(row: Row, log: seq<Mark>, k: nat, d: nat)
    requires NeverContinued(log) && k < d <= |log| && log[k].statement.CompleteRun?
    ensures Found(row, log, d).status.Completed?
    decreases d
  {
    assert log[..d][..d - 1] == log[..d - 1];
    if k + 1 < d {
      StaysCompleted(row, log, k, d - 1);
    }
  }

  /** Why two claims could match: the second carries a clock past the first one's expiry, the lease was
      lowered in between, or the run was completed and reopened. */
  ghost predicate Apart(row: Row, log: seq<Mark>, c: nat, d: nat)
    requires c < d < |log|
  {
    || (log[c].statement.ClaimRun? && log[d].statement.ClaimRun? && log[c].statement.expires < log[d].statement.asOf)
    || (exists k :: c < k < d && Lowers(Found(row, log, k), log[k].statement))
    || (!NeverContinued(log) && exists k :: c < k < d && log[k].statement.CompleteRun?)
  }

  lemma ClaimsAreApart(row: Row, log: seq<Mark>, c: nat, d: nat)
    requires Truthful(row, log) && SaneClaims(log) && c < d < |log| && IsClaim(log[c]) && IsClaim(log[d])
    ensures Apart(row, log, c, d)
  {
    ClaimsApart(row, log, c, d);
    assert Execute(Found(row, log, d), log[d].statement).Some?;
    hide Lowers, SaneClaims, Found;
    if !LeaseStands(row, log, c, d) {
      var k :| c < k < d && (log[k].statement.CompleteRun? || Lowers(Found(row, log, k), log[k].statement));
      if log[k].statement.CompleteRun? && NeverContinued(log) {
        StaysCompleted(row, log, k, d);
      }
    }
  }

  /** Any two outcome steps of a run, by sweeps or drives, rest on claims of it that matched, and unless a
      drive's failure handler wrote the second for the same claim, these are two and are apart: no other
      sweep or drive writes one while a lease that covers the run still stands. */
  lemma TwoOutcomes(start: State, leaseMs: nat, events: seq<Event>, log: seq<Mark>, i: nat, j: nat)
    requires Initial(start) && log == After(start, leaseMs, events).log
    requires i < j < |log| && IsOutcome(log[i]) && IsOutcome(log[j])
    ensures var c, d := ClaimFor(log, i), ClaimFor(log, j);
            && c >= 0 && d >= 0 && IsClaim(log[c]) && IsClaim(log[d])
            && (if c < d then Apart(start.row, log, c, d)
                else if d < c then Apart(start.row, log, d, c)
                else log[i].tid == log[j].tid && log[j].statement.step.failed)
  {
    TraceAlways(start, leaseMs, events);
    var c, d := ClaimFor(log, i), ClaimFor(log, j);
    hide After, Initial, Apart, ClaimFor, Truthful, SaneClaims, IsClaim, RecordsFollow, OutcomesFollow, PhaseTrace,
      Replay;
    OneClaim(log, i, j);
    if c < d { ClaimsAreApart(start.row, log, c, d); } else if d < c { ClaimsAreApart(start.row, log, d, c); }
  }

  // ---------- Sweeps that find a task pending ----------

  /** A sweep that found the task pending: both statements it may still run, whenever they take
      effect and whatever the row has become, leave status, owner, lease, steps and promises alone, and
      the next poll it asks for lies 40 to 36000 ms after it read the clock. */
  lemma PendingOnlyWaits(s: State, leaseMs: nat, tid: Tid, look: Look, u: State, t: State)
    requires PhaseOf(s, tid).Checked? && look.poll.Pending? && IsDraw(look.random)
    requires var p := Seen(PhaseOf(s, tid), look, leaseMs, s.now);
             PhaseOf(u, tid) == p || PhaseOf(u, tid) == Stepped(p, true)
    requires Apply(u, leaseMs, Runs(tid)) == Some(t)
    ensures SameLease(u.row, t.row) && t.row.steps == u.row.steps && t.promises == u.promises
    ensures PhaseOf(u, tid).Rescheduling? && u.row.status.Active? ==>
              && t.row.nextPollAt.Some?
              && s.threads[tid].began + 40 <= t.row.nextPollAt.value <= s.threads[tid].began + 36_000
  {
    DelayBounds(OrElse(look.poll.pollIntervalMs, s.threads[tid].listing.interval), look.random);
    hide NextTaskPollDelayMs;
  }

  /** The event takes the task off the row, or puts another one there. */
  predicate Unparks(s: State, e: Event, task: string) {
    e.Runs? && match StatementOf(PhaseOf(s, e.tid))
               case Some(ClearPark) => true
               case Some(CompleteRun) => true
               case Some(Park(other, _)) => other != task
               case _ => false
  }

  ghost predicate NeverUnparked(s: State, leaseMs: nat, events: seq<Event>, task: string) {
    events == []
    || (var n := |events| - 1;
        NeverUnparked(s, leaseMs, events[..n], task) && !Unparks(After(s, leaseMs, events[..n]), events[n], task))
  }

  lemma StaysParkedStep(s: State, leaseMs: nat, e: Event, t: State, task: string)
    requires s.row.parkedTask == Some(task) && Apply(s, leaseMs, e) == Some(t) && !Unparks(s, e, task)
    requires e.Arrive? ==> WellFormed(e.request)
    ensures t.row.parkedTask == Some(task)
  {
    RowChange(s, leaseMs, e, t);
    hide Apply, StatementOf, Executed;
    match e
    case Arrive(q) => ParkStays(s.row, q.statement, task);
    case Release(r) => ParkStays(s.row, ReleaseRun(r), task);
    case Continue => ParkStays(s.row, ContinueRun, task);
    case Runs(tid) =>
      var st := StatementOf(PhaseOf(s, tid));
      if st.Some? { ParkStays(s.row, st.value, task); }
    case _ =>
  }

  lemma ParkStays(row: Row, st: Statement, task: string)
    requires row.parkedTask == Some(task) && !st.ClearPark? && !st.CompleteRun? && (st.Park? ==> st.task == task)
    ensures Executed(row, st).parkedTask == Some(task)
  {
  }

  lemma {:induction false} StaysParked(s: State, leaseMs: nat, events: seq<Event>, task: string)
    requires Inv(s, leaseMs) && s.row.parkedTask == Some(task) && NeverUnparked(s, leaseMs, events, task)
    ensures After(s, leaseMs, events).row.parkedTask == Some(task)
  {
    if events != [] {
      var n := |events| - 1;
      var u := After(s, leaseMs, events[..n]);
      LastStep(s, leaseMs, events, u);
      InvFrom(s, leaseMs, events[..n]);
      hide After, Inv, Apply, Unparks;
      assert NeverUnparked(s, leaseMs, events[..n], task) && !Unparks(u, events[n], task);
      StaysParked(s, leaseMs, events[..n], task);
      var t := Apply(u, leaseMs, events[n]);
      if t.Some? {
        ArrivalIsWellFormed(u, leaseMs, events[n], t.value);
        StaysParkedStep(u, leaseMs, events[n], t.value, task);
      }
    }
  }

  /** A sweep listed the run at `s`, anything happened, and now it writes the task it listed.  It puts
      back a task that the row does not hold exactly when the run is active and holds another task, or
      none; and that only if since the listing some thread cleared or replaced the task, or closed the run. */
  lemma StaleListingReparks(s: State, leaseMs: nat, tid: Tid, between: seq<Event>, u: State, t: State)
    requires Inv(s, leaseMs) && PhaseOf(s, tid).Listed?
    requires s.row.parkedTask == Some(s.threads[tid].listing.task)
    requires u == After(s, leaseMs, between) && PhaseOf(u, tid).Reparking?
    requires u.threads[tid].listing == s.threads[tid].listing
    requires Apply(u, leaseMs, Runs(tid)) == Some(t)
    ensures var task := s.threads[tid].listing.task;
            && (t.row.parkedTask != u.row.parkedTask <==> u.row.status.Active? && u.row.parkedTask != Some(task))
            && (t.row.parkedTask != u.row.parkedTask ==> t.row.parkedTask == Some(task)
                                                         && !NeverUnparked(s, leaseMs, between, task))
  {
    var task := s.threads[tid].listing.task;
    assert t.row == Executed(u.row, Park(task, u.threads[tid].asked));
    hide After, Inv, NeverUnparked, Apply;
    if NeverUnparked(s, leaseMs, between, task) { StaysParked(s, leaseMs, between, task); }
  }
}
