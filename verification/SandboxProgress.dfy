/** No deadlock in `SandboxThreads`: while any request is in flight, some request can go on. */
module SandboxProgress {
  import opened Options
  import opened UidMap
  import opened SandboxThreads

  /** Whoever holds a lock is a thread inside that lock's run. */
  ghost predicate HolderInv(s: State) {
    forall l <- s.holders ::
      var tid := s.holders[l];
      && tid in s.phases && LockedRun(s.phases[tid]).Some?
      && LockedRun(s.phases[tid]).value in s.locks && s.locks[LockedRun(s.phases[tid]).value] == l
  }

  lemma MoveKeepsHolders(s: State, t: State, tid: Tid, p: Phase)
    requires HolderInv(s) && t.phases == s.phases[tid := p] && t.locks == s.locks && t.holders == s.holders
    requires tid in s.phases && LockedRun(p) == LockedRun(s.phases[tid])
    ensures HolderInv(t)
  {
  }

  lemma RequestKeepsHolders(s: State, t: State, tid: Tid, p: Phase)
    requires HolderInv(s) && t.phases == s.phases[tid := p] && t.holders == s.holders
    requires PhaseOf(s, tid).Idle? && forall run <- s.locks :: run in t.locks && t.locks[run] == s.locks[run]
    ensures HolderInv(t)
  {
  }

  lemma LockKeepsHolders(s: State, t: State, tid: Tid, run: string, lock: LockId)
    requires HolderInv(s) && LockInv(s) && PhaseOf(s, tid).Waiting?
    requires PhaseOf(s, tid).lock == lock && PhaseOf(s, tid).run == run
    requires t.locks == s.locks && t.holders == s.holders[lock := tid]
    requires t.phases == s.phases[tid := Locked(PhaseOf(s, tid).op, run)]
    ensures HolderInv(t)
  {
    hide ValidRunId;
  }

  lemma UnlockKeepsHolders(s: State, t: State, tid: Tid, run: string)
    requires HolderInv(s) && tid in s.phases && LockedRun(s.phases[tid]) == Some(run) && run in s.locks
    requires t.locks == s.locks && t.phases == s.phases[tid := Idle] && t.holders == s.holders - {s.locks[run]}
    ensures HolderInv(t)
  {
  }

  lemma InsideKeepsHolders(s: State, pool: Pool, step: Step, t: State)
    requires HolderInv(s) && Apply(s, pool, step) == Some(t)
    requires step.TakeGuard? || step.Reuse? || step.Choose? || step.WriteAssigned? || step.CheckSurvivors?
    ensures HolderInv(t)
  {
    hide ValidRunId, HeldKey, UidBusy, HolderInv;
    var tid := Actor(step).value;
    MoveKeepsHolders(s, t, tid, t.phases[tid]);
  }

  lemma EndKeepsHolders(s: State, pool: Pool, step: Step, t: State)
    requires LockInv(s) && HolderInv(s) && Apply(s, pool, step) == Some(t)
    requires step.Leave? || step.Exhausted? || step.WriteReleased?
    ensures HolderInv(t)
  {
    RunHasLock(s, step);
    hide ValidRunId, HeldKey, UidBusy, LockInv, HolderInv;
    var tid := Actor(step).value;
    UnlockKeepsHolders(s, t, tid, LockedRun(PhaseOf(s, tid)).value);
  }

  lemma StepKeepsHolders(s: State, pool: Pool, step: Step, t: State)
    requires LockInv(s) && HolderInv(s) && Apply(s, pool, step) == Some(t)
    ensures HolderInv(t)
  {
    hide ValidRunId, HeldKey, UidBusy, LockInv, HolderInv;
    match step
    case Request(tid, op, r) => RequestKeepsHolders(s, t, tid, t.phases[tid]);
    case Lock(tid) => LockKeepsHolders(s, t, tid, PhaseOf(s, tid).run, PhaseOf(s, tid).lock);
    case Leave(_) => hide Apply; EndKeepsHolders(s, pool, step, t);
    case Exhausted(_) => hide Apply; EndKeepsHolders(s, pool, step, t);
    case WriteReleased(_) => hide Apply; EndKeepsHolders(s, pool, step, t);
    case Spawn(_, _) => SameHolders(s, t);
    case Fork(_, _) => SameHolders(s, t);
    case Exit(_) => SameHolders(s, t);
    case Restart => NoHolders(t);
    case _ => hide Apply; InsideKeepsHolders(s, pool, step, t);
  }

  lemma SameHolders(s: State, t: State)
    requires HolderInv(s) && t.locks == s.locks && t.holders == s.holders && t.phases == s.phases
    ensures HolderInv(t)
  {
  }

  lemma NoHolders(t: State)
    requires t.holders == map[]
    ensures HolderInv(t)
  {
  }

  lemma {:induction false} HoldersAlways(start: State, pool: Pool, steps: seq<Step>)
    requires Start(start, pool)
    ensures HolderInv(After(start, pool, steps))
  {
    if steps == [] {
      NoHolders(start);
    } else {
      var s := After(start, pool, steps[..|steps| - 1]);
      HoldersAlways(start, pool, steps[..|steps| - 1]);
      InvAlways(start, pool, steps[..|steps| - 1]);
      hide Start, HolderInv, LockInv;
      var next := Apply(s, pool, steps[|steps| - 1]);
      if next.Some? { StepKeepsHolders(s, pool, steps[|steps| - 1], next.value); }
    }
  }

  /** What a request that has the lock it needs, or the guard, does next by itself. */
  function NextStep(tid: Tid, p: Phase): Step {
    match p
    case Waiting(_, _, _) => Lock(tid)
    case Locked(_, _) => TakeGuard(tid)
    case Assigning(run, local) => if run in local then Reuse(tid) else Exhausted(tid)
    case Chosen(_, _, _) => WriteAssigned(tid)
    case Running(_, _) => Leave(tid)
    case Releasing(_, _, _) => CheckSurvivors(tid)
    case Checked(_, _, _, _) => WriteReleased(tid)
    case Idle => Restart
  }

  /** A thread that waits for neither a lock nor the guard can take its next step. */
  lemma CanStep(s: State, pool: Pool, tid: Tid)
    requires tid in s.phases && !s.phases[tid].Idle?
    requires s.phases[tid].Waiting? ==> s.phases[tid].lock !in s.holders
    requires s.phases[tid].Locked? ==> s.guard.None?
    ensures Apply(s, pool, NextStep(tid, s.phases[tid])).Some?
  {
    hide ValidRunId, HeldKey, UidBusy;
  }

  /** Never is every request in flight stuck behind another: while there is one, some request in flight has a
      step of its own that can happen, whatever the interleaving so far. */
  lemma NoDeadlock(start: State, pool: Pool, steps: seq<Step>, waiting: Tid)
    requires Start(start, pool) && !PhaseOf(After(start, pool, steps), waiting).Idle?
    ensures var s := After(start, pool, steps);
            exists tid <- s.phases :: !s.phases[tid].Idle? && Apply(s, pool, NextStep(tid, s.phases[tid])).Some?
  {
    InvAlways(start, pool, steps);
    HoldersAlways(start, pool, steps);
    var s := After(start, pool, steps);
    var tid := waiting;
    if s.guard.Some? {
      tid := s.guard.value;
    } else if s.phases[waiting].Waiting? && s.phases[waiting].lock in s.holders {
      tid := s.holders[s.phases[waiting].lock];
    }
    hide After, Apply, LockInv, ProcessInv, ValidTable, NextStep;
    CanStep(s, pool, tid);
  }
}
