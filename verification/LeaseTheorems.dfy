/** What the leases of `RunLease` promise over whole runs. */
module LeaseTheorems {
  import opened Options
  import opened RunRow
  import opened RunThread
  import opened RunLease

  /** A replica whose promise has not run out owns the active run, whatever else is on its way; so
      two such replicas are one. */
  lemma OneLiveReplica(start: State, leaseMs: nat, events: seq<Event>, a: Replica, b: Replica)
    requires Initial(start)
    requires var s := After(start, leaseMs, events);
             a in s.promises && b in s.promises && s.now <= s.promises[a] && s.now <= s.promises[b]
    ensures a == b && After(start, leaseMs, events).row.owner == Some(a)
  {
    InvAlways(start, leaseMs, events);
    var s := After(start, leaseMs, events);
    assert Kept(s, a) && Kept(s, b);
  }

  /** A claim of the replica takes effect. */
  predicate TakesOver(s: State, e: Event, replica: Replica) {
    && e.Arrive? && e.request in s.flying
    && e.request.statement.ClaimRun? && e.request.replica == replica
    && Execute(s.row, e.request.statement).Some?
  }

  /** The only event that gives an owned run straight to another replica. */
  lemma OwnerChange(s: State, leaseMs: nat, e: Event, t: State)
    requires Inv(s, leaseMs) && Apply(s, leaseMs, e) == Some(t)
    requires t.row.owner.Some? && s.row.owner != t.row.owner
    ensures TakesOver(s, e, t.row.owner.value)
    ensures s.row.owner.Some? ==> s.row.lease.Some? && s.row.lease.value < s.now
  {
    RowChange(s, leaseMs, e, t);
    assert e.Arrive? ==> e.request in s.flying && InFlight(s, leaseMs, e.request);
    assert s.row.owner.Some? ==> s.row.lease.Some?;
    hide Apply, Inv, Executed, StatementOf;
    match e
    case Arrive(q) => OwnerAfter(s.row, q.statement);
    case Release(r) => OwnerAfter(s.row, ReleaseRun(r));
    case Continue => OwnerAfter(s.row, ContinueRun);
    case Runs(tid) =>
      RunsAreNoClaims(s, leaseMs, tid, t);
      if StatementOf(PhaseOf(s, tid)).Some? {
        NoClaimOf(PhaseOf(s, tid));
        OwnerAfter(s.row, StatementOf(PhaseOf(s, tid)).value);
      }
    case _ =>
  }

  lemma RunsAreNoClaims(s: State, leaseMs: nat, tid: Tid, t: State)
    requires Apply(s, leaseMs, Runs(tid)) == Some(t)
    ensures !PhaseOf(s, tid).Claiming?
  {
    hide Ran;
  }

  lemma NoClaimOf(p: Phase)
    requires !p.Claiming? && StatementOf(p).Some?
    ensures !StatementOf(p).value.ClaimRun?
  {
  }

  /** Only a claim puts an owner into a row. */
  lemma OwnerAfter(row: Row, st: Statement)
    ensures Executed(row, st).owner.Some? && Executed(row, st).owner != row.owner ==>
              && st.ClaimRun? && Executed(row, st).owner == Some(st.replica) && Execute(row, st).Some?
              && Claimable(row, st.asOf)
  {
  }

  /** Ownership passes from one replica straight to another only once the first one's lease, as
      the row holds it, lies in the past. */
  lemma StolenOnlyAfterExpiry(start: State, leaseMs: nat, events: seq<Event>, e: Event, t: State)
    requires Initial(start) && Apply(After(start, leaseMs, events), leaseMs, e) == Some(t)
    requires var s := After(start, leaseMs, events);
             s.row.owner.Some? && t.row.owner.Some? && s.row.owner != t.row.owner
    ensures var s := After(start, leaseMs, events);
            s.row.lease.Some? && s.row.lease.value < s.now
            && (s.row.owner.value in s.promises ==> s.promises[s.row.owner.value] < s.now)
  {
    InvAlways(start, leaseMs, events);
    var s := After(start, leaseMs, events);
    assert s.row.owner.value in s.promises ==> Kept(s, s.row.owner.value);
    hide After, Apply, Inv;
    OwnerChange(s, leaseMs, e, t);
  }

  // ---------- Losing a run ----------

  /** No claim of the replica takes effect in the run of events. */
  ghost predicate NeverTakesOver(s: State, leaseMs: nat, events: seq<Event>, replica: Replica) {
    events == []
    || (var n := |events| - 1;
        NeverTakesOver(s, leaseMs, events[..n], replica)
        && !TakesOver(After(s, leaseMs, events[..n]), events[n], replica))
  }

  lemma {:induction false} StaysLost(s: State, leaseMs: nat, events: seq<Event>, replica: Replica)
    requires Inv(s, leaseMs) && s.row.owner != Some(replica) && NeverTakesOver(s, leaseMs, events, replica)
    ensures After(s, leaseMs, events).row.owner != Some(replica)
  {
    if events != [] {
      var n := |events| - 1;
      var u := After(s, leaseMs, events[..n]);
      LastStep(s, leaseMs, events, u);
      hide After, Inv, Apply, TakesOver;
      StaysLost(s, leaseMs, events[..n], replica);
      InvFrom(s, leaseMs, events[..n]);
      var t := Apply(u, leaseMs, events[n]);
      assert !TakesOver(u, events[n], replica);
      if t.Some? && t.value.row.owner == Some(replica) {
        OwnerChange(u, leaseMs, events[n], t.value);
      }
    } else {
      hide Inv, NeverTakesOver;
    }
  }

  lemma RenewalRefused(u: State, leaseMs: nat, q: Request)
    requires InFlight(u, leaseMs, q) && q in u.flying && q.statement.RenewLease? && u.row.owner != Some(q.replica)
    ensures var t := Apply(u, leaseMs, Arrive(q));
            && t.Some? && t.value.row == u.row && t.value.promises == u.promises
            && (q.tid.Some? && StatementOf(PhaseOf(u, q.tid.value)) == Some(q.statement) ==>
                  PhaseOf(t.value, q.tid.value).Idle?)
  {
    hide Promise;
  }

  /** Once a replica does not own the run, through any events until a claim of its own takes effect,
      its renewals change nothing and the thread that waits for one learns of the loss. */
  lemma LoserIsTold(s: State, leaseMs: nat, events: seq<Event>, q: Request)
    requires Inv(s, leaseMs) && s.row.owner != Some(q.replica) && NeverTakesOver(s, leaseMs, events, q.replica)
    requires q in After(s, leaseMs, events).flying && q.statement.RenewLease?
    ensures var u := After(s, leaseMs, events);
            var t := Apply(u, leaseMs, Arrive(q));
            && t.Some? && t.value.row == u.row && t.value.promises == u.promises
            && (q.tid.Some? && StatementOf(PhaseOf(u, q.tid.value)) == Some(q.statement) ==>
                  PhaseOf(t.value, q.tid.value).Idle?)
  {
    StaysLost(s, leaseMs, events, q.replica);
    InvFrom(s, leaseMs, events);
    var u := After(s, leaseMs, events);
    assert InFlight(u, leaseMs, q);
    hide *;
    RenewalRefused(u, leaseMs, q);
  }

  // ---------- The whole lease ----------

  predicate HoldsLease(row: Row, replica: Replica, expires: int) {
    row.status.Active? && row.owner == Some(replica) && row.lease.Some? && row.lease.value >= expires
  }

  /** The replica lets the run go, or some thread completes it. */
  predicate Ends(s: State, e: Event, replica: Replica) {
    e == Release(replica) || (e.Runs? && StatementOf(PhaseOf(s, e.tid)) == Some(CompleteRun))
  }

  ghost predicate NeverEnds(s: State, leaseMs: nat, events: seq<Event>, replica: Replica) {
    events == []
    || (var n := |events| - 1;
        NeverEnds(s, leaseMs, events[..n], replica) && !Ends(After(s, leaseMs, events[..n]), events[n], replica))
  }

  /** A request that arrives while the replica's lease runs leaves it, or extends it. */
  lemma RequestHolds(row: Row, q: Request, replica: Replica, expires: int, now: int)
    requires WellFormed(q) && (q.statement.ClaimRun? ==> q.statement.asOf <= now) && now <= expires
    requires q.statement.RenewLease? && q.replica == replica ==> expires <= q.expires
    requires HoldsLease(row, replica, expires)
    ensures HoldsLease(Executed(row, q.statement), replica, expires)
    ensures q.statement.ClaimRun? || q.replica != replica ==> Execute(row, q.statement).None?
  {
  }

  lemma ArrivalHolds(s: State, leaseMs: nat, q: Request, t: State, replica: Replica, expires: int)
    requires InFlight(s, leaseMs, q) && Apply(s, leaseMs, Arrive(q)) == Some(t)
    requires HoldsLease(s.row, replica, expires) && Covers(s.flying, replica, expires) && s.now <= expires
    ensures HoldsLease(t.row, replica, expires) && Covers(t.flying, replica, expires)
  {
    hide Apply, HoldsLease, Executed;
    ArrivalFields(s, leaseMs, q, t);
    RequestHolds(s.row, q, replica, expires, s.now);
    assert forall r <- t.flying :: r in s.flying;
  }

  /** Statements that are neither requests nor end the lease. */
  lemma StatementHolds(row: Row, st: Statement, replica: Replica, expires: int)
    requires HoldsLease(row, replica, expires) && !st.ClaimRun? && !st.RenewLease? && !st.CompleteRun?
    requires st != ReleaseRun(replica)
    ensures HoldsLease(Executed(row, st), replica, expires)
  {
  }

  lemma RunsAreOwn(s: State, leaseMs: nat, tid: Tid, t: State)
    requires Apply(s, leaseMs, Runs(tid)) == Some(t)
    ensures StatementOf(PhaseOf(s, tid)).Some? && t.flying == s.flying
    ensures !StatementOf(PhaseOf(s, tid)).value.ClaimRun? && !StatementOf(PhaseOf(s, tid)).value.RenewLease?
  {
  }

  lemma StatementHoldsOn(s: State, leaseMs: nat, e: Event, t: State, replica: Replica, expires: int)
    requires Inv(s, leaseMs) && Apply(s, leaseMs, e) == Some(t) && !Ends(s, e, replica)
    requires HoldsLease(s.row, replica, expires) && Covers(s.flying, replica, expires)
    requires expires <= s.now + leaseMs && t.now <= expires
    requires e.Release? || e.Continue? || e.Runs?
    ensures HoldsLease(t.row, replica, expires) && Covers(t.flying, replica, expires)
  {
    RowChange(s, leaseMs, e, t);
    assert t.flying == s.flying;
    assert e.Runs? ==> StatementOf(PhaseOf(s, e.tid)) != Some(CompleteRun);
    hide Inv, Apply, Executed, HoldsLease, Covers, StatementOf, PhaseOf;
    match e
    case Release(r) => StatementHolds(s.row, ReleaseRun(r), replica, expires);
    case Continue => StatementHolds(s.row, ContinueRun, replica, expires);
    case Runs(tid) =>
      RunsAreOwn(s, leaseMs, tid, t);
      StatementHolds(s.row, StatementOf(PhaseOf(s, tid)).value, replica, expires);
  }

  lemma DecisionHoldsOn(s: State, leaseMs: nat, e: Event, t: State, replica: Replica, expires: int)
    requires Inv(s, leaseMs) && Apply(s, leaseMs, e) == Some(t) && !Ends(s, e, replica)
    requires HoldsLease(s.row, replica, expires) && Covers(s.flying, replica, expires)
    requires expires <= s.now + leaseMs && t.now <= expires
    requires IsDecision(e)
    ensures HoldsLease(t.row, replica, expires) && Covers(t.flying, replica, expires)
  {
    assert Decided(s, leaseMs, e) == Some(t);
    hide Apply, Decided, HoldsLease, Covers, ClockPast, InFlight, Inv;
    DecisionMoves(s, leaseMs, e, t);
    if t.flying != s.flying {
      var q :| t.flying == s.flying + multiset{q} && InFlight(s, leaseMs, q)
               && (q.statement.RenewLease? ==> q.expires == s.now + leaseMs);
      CoversMore(s.flying, q, replica, expires);
    }
  }

  lemma HoldsOn(s: State, leaseMs: nat, e: Event, t: State, replica: Replica, expires: int)
    requires Inv(s, leaseMs) && Apply(s, leaseMs, e) == Some(t) && !Ends(s, e, replica)
    requires HoldsLease(s.row, replica, expires) && Covers(s.flying, replica, expires)
    requires expires <= s.now + leaseMs && t.now <= expires
    ensures HoldsLease(t.row, replica, expires) && Covers(t.flying, replica, expires)
  {
    match e
    case Arrive(q) =>
      assert InFlight(s, leaseMs, q);
      ClockStep(s, leaseMs, e, t);
      hide *;
      ArrivalHolds(s, leaseMs, q, t, replica, expires);
    case Tick(_) => hide Inv, HoldsLease, Covers, Ends;
    case Beat(_) =>
      assert t.row == s.row;
      var q := BeatFields(s, leaseMs, e, t);
      hide *;
      CoversMore(s.flying, q, replica, expires);
    case Lose(q) => hide Inv, HoldsLease, Ends; assert forall r <- t.flying :: r in s.flying;
    case Release(_) => hide *; StatementHoldsOn(s, leaseMs, e, t, replica, expires);
    case Continue => hide *; StatementHoldsOn(s, leaseMs, e, t, replica, expires);
    case Runs(_) => hide *; StatementHoldsOn(s, leaseMs, e, t, replica, expires);
    case _ =>
      assert IsDecision(e);
      hide *;
      DecisionHoldsOn(s, leaseMs, e, t, replica, expires);
  }

  lemma BeatFields(s: State, leaseMs: nat, e: Event, t: State) returns (q: Request)
    requires e.Beat? && Apply(s, leaseMs, e) == Some(t)
    ensures t.flying == s.flying + multiset{q} && q.expires == s.now + leaseMs
  {
    q := Request(None, e.replica, s.now + leaseMs, RenewLease(e.replica, s.now + leaseMs));
  }

  lemma CoversMore(flying: multiset<Request>, q: Request, replica: Replica, bound: int)
    requires Covers(flying, replica, bound) && (q.statement.RenewLease? ==> bound <= q.expires)
    ensures Covers(flying + multiset{q}, replica, bound)
  {
    assert forall r <- flying + multiset{q} :: r in flying || r == q;
  }

  lemma ClockStep(s: State, leaseMs: nat, e: Event, t: State)
    requires Apply(s, leaseMs, e) == Some(t)
    ensures t.now >= s.now
  {
    hide Promise;
  }

  lemma {:induction false} HoldsThrough(s: State, leaseMs: nat, events: seq<Event>, replica: Replica, expires: int)
    requires Inv(s, leaseMs) && NeverEnds(s, leaseMs, events, replica)
    requires HoldsLease(s.row, replica, expires) && Covers(s.flying, replica, expires)
    requires expires <= s.now + leaseMs && After(s, leaseMs, events).now <= expires
    ensures var t := After(s, leaseMs, events);
            HoldsLease(t.row, replica, expires) && Covers(t.flying, replica, expires) && s.now <= t.now
  {
    if events != [] {
      var n := |events| - 1;
      var u := After(s, leaseMs, events[..n]);
      LastStep(s, leaseMs, events, u);
      hide Inv, Apply, Ends, HoldsLease, Covers, After;
      assert NeverEnds(s, leaseMs, events[..n], replica) && !Ends(u, events[n], replica);
      var t := Apply(u, leaseMs, events[n]);
      if t.Some? { ClockStep(u, leaseMs, events[n], t.value); }
      HoldsThrough(s, leaseMs, events[..n], replica, expires);
      InvFrom(s, leaseMs, events[..n]);
      if t.Some? { HoldsOn(u, leaseMs, events[n], t.value, replica, expires); }
    }
  }

  lemma GrantTakes(row: Row, q: Request)
    requires WellFormed(q) && Execute(row, q.statement).Some?
    ensures HoldsLease(Executed(row, q.statement), q.replica, q.expires)
  {
  }

  lemma GrantHolds(s: State, leaseMs: nat, q: Request, t: State)
    requires Inv(s, leaseMs) && Apply(s, leaseMs, Arrive(q)) == Some(t) && Execute(s.row, q.statement).Some?
    ensures Inv(t, leaseMs) && t.now == s.now && q.expires <= t.now + leaseMs
    ensures HoldsLease(t.row, q.replica, q.expires)
  {
    ArrivalIsWellFormed(s, leaseMs, Arrive(q), t);
    assert InFlight(s, leaseMs, q);
    hide Inv, Apply, Execute, Executed, HoldsLease;
    ArrivalFields(s, leaseMs, q, t);
    GrantTakes(s.row, q);
    StepKeepsInv(s, leaseMs, Arrive(q), t);
  }

  /** A granted expiry is good in full exactly when no renewal of the replica with an earlier one is
      still on its way: then, and only then, the row holds the lease up to that expiry through every
      continuation in which the replica does not let the run go and nobody completes it. */
  lemma WholeLeaseIff(s: State, leaseMs: nat, q: Request, t: State)
    requires Inv(s, leaseMs) && Apply(s, leaseMs, Arrive(q)) == Some(t)
    requires Execute(s.row, q.statement).Some? && s.now <= q.expires
    ensures Covers(t.flying, q.replica, q.expires) <==>
            forall events :: NeverEnds(t, leaseMs, events, q.replica) && After(t, leaseMs, events).now <= q.expires ==>
                               HoldsLease(After(t, leaseMs, events).row, q.replica, q.expires)
  {
    hide Apply, Inv, HoldsLease, Execute, After, NeverEnds;
    GrantHolds(s, leaseMs, q, t);
    if Covers(t.flying, q.replica, q.expires) {
      forall events | NeverEnds(t, leaseMs, events, q.replica) && After(t, leaseMs, events).now <= q.expires
        ensures HoldsLease(After(t, leaseMs, events).row, q.replica, q.expires)
      {
        HoldsThrough(t, leaseMs, events, q.replica, q.expires);
      }
    } else {
      var early :| early in t.flying && early.statement.RenewLease? && early.replica == q.replica
                   && early.expires < q.expires;
      Overtakes(t, leaseMs, early, q.replica, q.expires);
    }
  }

  lemma RenewalTakes(t: State, leaseMs: nat, early: Request)
    requires InFlight(t, leaseMs, early) && early in t.flying && early.statement.RenewLease?
    requires t.row.status.Active? && t.row.owner == Some(early.replica)
    ensures var u := Apply(t, leaseMs, Arrive(early));
            u.Some? && u.value.now == t.now && u.value.row.lease == Some(early.expires)
  {
    hide Promise;
  }

  lemma AfterOne(t: State, leaseMs: nat, e: Event)
    requires Apply(t, leaseMs, e).Some?
    ensures After(t, leaseMs, [e]) == Apply(t, leaseMs, e).value
  {
    hide Apply;
    assert [e][..0] == [];
  }

  /** An older renewal that arrives last leaves its own, earlier expiry in the row. */
  lemma Overtakes(t: State, leaseMs: nat, early: Request, replica: Replica, expires: int)
    requires Inv(t, leaseMs) && HoldsLease(t.row, replica, expires) && t.now <= expires
    requires early in t.flying && early.statement.RenewLease? && early.replica == replica && early.expires < expires
    ensures var u := After(t, leaseMs, [Arrive(early)]);
            && NeverEnds(t, leaseMs, [Arrive(early)], replica) && u.now <= expires
            && u.row.lease == Some(early.expires) && !HoldsLease(u.row, replica, expires)
  {
    assert InFlight(t, leaseMs, early);
    hide Inv, Apply, After, InFlight;
    RenewalTakes(t, leaseMs, early);
    AfterOne(t, leaseMs, Arrive(early));
    assert [Arrive(early)][..0] == [];
  }

  /** Completing a run does not ask who owns it: it ends a lease that another replica still holds. */
  lemma CompletionEndsLiveLease(s: State, leaseMs: nat, tid: Tid, replica: Replica)
    requires Inv(s, leaseMs) && replica in s.promises && s.now <= s.promises[replica]
    requires PhaseOf(s, tid).Completing?
    ensures HoldsLease(s.row, replica, s.promises[replica])
    ensures var t := Apply(s, leaseMs, Runs(tid));
            t.Some? && t.value.row.status.Completed? && t.value.row.owner.None? && replica !in t.value.promises
  {
    assert Kept(s, replica);
  }
}
