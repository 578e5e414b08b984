/** Every interleaving of exec and delete requests in the sandbox server: per-run locks, the global
    uid guard, the map file, and the processes that run under pool uids.

    A request is a thread that moves through the phases below.  The map file is read and written in
    separate steps, as are the look at the process table and the write that relies on it.  Processes
    fork, exit and are killed between any two steps; a kill is an exit, so a kill loop that fails, or
    a watcher that kills late, adds nothing. */
module SandboxThreads {
  import opened Options
  import opened UidMap

  type Tid = int
  type Pid = int
  type LockId = nat

  datatype Op = Exec | Delete

  datatype Phase =
    | Idle
    | Waiting(op: Op, run: string, lock: LockId)               // has the lock object, not the lock
    | Locked(op: Op, run: string)                              // inside `with run_lock(run_id)`
    | Assigning(run: string, local: UidTable)                  // uid guard held, map file read
    | Chosen(run: string, local: UidTable, uid: int)           // a free uid found, not yet written
    | Running(run: string, uid: int)                           // exec owns its uid
    | Releasing(run: string, local: UidTable, popped: Option<int>) // guard held, entry popped in memory
    | Checked(run: string, local: UidTable, popped: Option<int>, survivors: bool)

  /** A process under a pool uid, and the run whose exec it descends from. */
  datatype Process = Process(uid: int, run: string)

  datatype State = State(
    table: UidTable,                // the map file
    locks: map<string, LockId>,     // lock objects by run
    holders: map<LockId, Tid>,      // locks that are held
    guard: Option<Tid>,             // the uid guard
    processes: map<Pid, Process>,
    phases: map<Tid, Phase>)

  datatype Step =
    | Request(tid: Tid, op: Op, run: string)
    | Lock(tid: Tid)
    | Leave(tid: Tid)               // the lock's block ends: done, over cap, or an error
    | TakeGuard(tid: Tid)
    | Reuse(tid: Tid)
    | Choose(tid: Tid, uid: int)
    | WriteAssigned(tid: Tid)
    | Exhausted(tid: Tid)
    | Spawn(tid: Tid, pid: Pid)
    | Fork(parent: Pid, child: Pid)
    | Exit(pid: Pid)
    | CheckSurvivors(tid: Tid)
    | WriteReleased(tid: Tid)
    | Restart                       // the server ends and comes back; the map and the processes stay

  function PhaseOf(s: State, tid: Tid): Phase {
    if tid in s.phases then s.phases[tid] else Idle
  }

  function Goto(s: State, tid: Tid, phase: Phase): State {
    s.(phases := s.phases[tid := phase])
  }

  predicate UidBusy(s: State, uid: int) {
    exists pid <- s.processes :: s.processes[pid].uid == uid
  }

  /** `run_lock`: the run's lock object, made on first use and never dropped. */
  function WithLock(s: State, run: string): State {
    if run in s.locks then s else s.(locks := s.locks[run := |s.locks|])
  }

  /** Giving up the run's lock. */
  function Unlock(s: State, tid: Tid, run: string): State {
    if run in s.locks then Goto(s.(holders := s.holders - {s.locks[run]}), tid, Idle) else s
  }

  /** One step, or None where the step cannot happen. */
  function Apply(s: State, pool: Pool, step: Step): Option<State> {
    match step
    case Request(tid, op, run) =>
      if PhaseOf(s, tid).Idle? && ValidRunId(run) then
        var t := WithLock(s, run);
        Some(Goto(t, tid, Waiting(op, run, t.locks[run])))
      else None
    case Lock(tid) =>
      (match PhaseOf(s, tid)
       case Waiting(op, run, lock) =>
         if lock in s.holders then None
         else Some(Goto(s.(holders := s.holders[lock := tid]), tid, Locked(op, run)))
       case _ => None)
    case Leave(tid) =>
      (match PhaseOf(s, tid)
       case Locked(_, run) => Some(Unlock(s, tid, run))
       case Running(run, _) => Some(Unlock(s, tid, run))
       case _ => None)
    case TakeGuard(tid) =>
      (match PhaseOf(s, tid)
       case Locked(op, run) =>
         if s.guard.Some? then None
         else
           var held := s.(guard := Some(tid));
           if op.Exec? then Some(Goto(held, tid, Assigning(run, s.table)))
           else
             Some(Goto(held, tid, Releasing(run, s.table - {run}, if run in s.table then Some(s.table[run]) else None)))
       case _ => None)
    case Reuse(tid) =>
      (match PhaseOf(s, tid)
       case Assigning(run, local) =>
         if run in local then Some(Goto(s.(guard := None), tid, Running(run, local[run]))) else None
       case _ => None)
    case Choose(tid, uid) =>
      (match PhaseOf(s, tid)
       case Assigning(run, local) =>
         if run !in local && pool.first <= uid <= pool.last && uid !in local.Values && !UidBusy(s, uid)
         then Some(Goto(s, tid, Chosen(run, local, uid))) else None
       case _ => None)
    case WriteAssigned(tid) =>
      (match PhaseOf(s, tid)
       case Chosen(run, local, uid) =>
         Some(Goto(s.(table := local[run := uid], guard := None), tid, Running(run, uid)))
       case _ => None)
    case Exhausted(tid) =>
      (match PhaseOf(s, tid)
       case Assigning(run, local) => if run !in local then Some(Unlock(s.(guard := None), tid, run)) else None
       case _ => None)
    case Spawn(tid, pid) =>
      (match PhaseOf(s, tid)
       case Running(run, uid) =>
         if pid in s.processes then None else Some(s.(processes := s.processes[pid := Process(uid, run)]))
       case _ => None)
    case Fork(parent, child) =>
      if parent in s.processes && child !in s.processes
      then Some(s.(processes := s.processes[child := s.processes[parent]])) else None
    case Exit(pid) =>
      if pid in s.processes then Some(s.(processes := s.processes - {pid})) else None
    case CheckSurvivors(tid) =>
      (match PhaseOf(s, tid)
       case Releasing(run, local, uid) =>
         Some(Goto(s, tid, Checked(run, local, uid, uid.Some? && UidBusy(s, uid.value))))
       case _ => None)
    case WriteReleased(tid) =>
      (match PhaseOf(s, tid)
       case Checked(run, local, uid, survivors) =>
         var held := uid.Some? && uid.value >= 0 && survivors;
         var table := if held then local[HeldKey(uid.value) := uid.value] else local;
         Some(Unlock(s.(table := table, guard := None), tid, run))
       case _ => None)
    case Restart => Some(Restarted(s))
  }

  /** A new server: no requests yet, and new lock objects. */
  function Restarted(s: State): State {
    s.(locks := map[], holders := map[], guard := None, phases := map[])
  }

  /** The state after a run of steps, skipping those that cannot happen. */
  function After(start: State, pool: Pool, steps: seq<Step>): State {
    if steps == [] then start
    else
      var s := After(start, pool, steps[..|steps| - 1]);
      match Apply(s, pool, steps[|steps| - 1])
      case Some(t) => t
      case None => s
  }

  // ---------- The invariant ----------

  /** The run whose lock a thread in this phase holds. */
  function LockedRun(p: Phase): Option<string> {
    match p
    case Idle => None
    case Waiting(_, _, _) => None
    case Locked(_, run) => Some(run)
    case Assigning(run, _) => Some(run)
    case Chosen(run, _, _) => Some(run)
    case Running(run, _) => Some(run)
    case Releasing(run, _, _) => Some(run)
    case Checked(run, _, _, _) => Some(run)
  }

  predicate HoldsGuard(p: Phase) {
    p.Assigning? || p.Chosen? || p.Releasing? || p.Checked?
  }

  /** Lock objects are distinct, and a thread inside a run's block holds that run's lock. */
  ghost predicate LockInv(s: State) {
    && (forall a, b :: a in s.locks && b in s.locks && s.locks[a] == s.locks[b] ==> a == b)
    && (forall a <- s.locks :: s.locks[a] < |s.locks|)
    && (forall tid <- s.phases :: s.phases[tid].Waiting? ==>
          && s.phases[tid].run in s.locks && s.locks[s.phases[tid].run] == s.phases[tid].lock
          && ValidRunId(s.phases[tid].run))
    && (forall tid <- s.phases :: LockedRun(s.phases[tid]).Some? ==>
          var run := LockedRun(s.phases[tid]).value;
          run in s.locks && s.locks[run] in s.holders && s.holders[s.locks[run]] == tid && ValidRunId(run))
  }

  ghost predicate GuardInv(s: State) {
    && (forall tid <- s.phases :: HoldsGuard(s.phases[tid]) ==> s.guard == Some(tid))
    && (s.guard.Some? ==> s.guard.value in s.phases && HoldsGuard(s.phases[s.guard.value]))
  }

  /** What a thread has read still holds when it acts on it. */
  ghost predicate PhaseInv(s: State, pool: Pool, p: Phase) {
    match p
    case Idle => true
    case Waiting(_, _, _) => true
    case Locked(_, _) => true
    case Assigning(run, local) => local == s.table
    case Chosen(run, local, uid) =>
      local == s.table && run !in local && uid !in s.table.Values && pool.first <= uid <= pool.last && !UidBusy(s, uid)
    case Running(run, uid) => run in s.table && s.table[run] == uid
    case Releasing(run, local, uid) =>
      local == s.table - {run} && uid == (if run in s.table then Some(s.table[run]) else None)
    case Checked(run, local, uid, survivors) =>
      && local == s.table - {run} && uid == (if run in s.table then Some(s.table[run]) else None)
      && (uid.Some? && !survivors ==> !UidBusy(s, uid.value))
  }

  /** Every process runs under a uid that the map gives to its own run, or to that uid's tombstone;
      and processes that share a uid descend from the same run. */
  ghost predicate ProcessInv(s: State) {
    && (forall pid <- s.processes :: Owned(s.table, s.processes[pid]))
    && (forall p, q :: p in s.processes && q in s.processes && s.processes[p].uid == s.processes[q].uid
                       ==> s.processes[p].run == s.processes[q].run)
  }

  ghost predicate Owned(table: UidTable, p: Process) {
    || (p.run in table && table[p.run] == p.uid)
    || (p.uid >= 0 && HeldKey(p.uid) in table && table[HeldKey(p.uid)] == p.uid)
  }

  ghost predicate Inv(s: State, pool: Pool) {
    && ValidTable(s.table, pool)
    && LockInv(s) && GuardInv(s) && ProcessInv(s)
    && (forall tid <- s.phases :: PhaseInv(s, pool, s.phases[tid]))
    && (forall pid <- s.processes :: ValidRunId(s.processes[pid].run))
  }

  /** A server that has just come up, on a map and processes an earlier one may have left. */
  ghost predicate Start(s: State, pool: Pool) {
    && s == Restarted(s) && ValidTable(s.table, pool) && ProcessInv(s)
    && forall pid <- s.processes :: ValidRunId(s.processes[pid].run)
  }

  // ---------- Every step keeps it ----------

  /** No two threads are inside the same run's block. */
  lemma OneThreadPerRun(s: State, a: Tid, b: Tid)
    requires LockInv(s) && a in s.phases && b in s.phases
    requires LockedRun(s.phases[a]).Some? && LockedRun(s.phases[a]) == LockedRun(s.phases[b])
    ensures a == b
  {
    hide ValidRunId;
  }

  // Locks.

  lemma NewLockIsDistinct(s: State, run: string)
    requires LockInv(s)
    ensures LockInv(WithLock(s, run)) && run in WithLock(s, run).locks
  {
    hide ValidRunId;
    if run !in s.locks {
      var locks := s.locks[run := |s.locks|];
      assert |locks| == |s.locks| + 1;
      forall a <- locks ensures locks[a] < |locks| { assert a == run || s.locks[a] < |s.locks|; }
      forall a, b | a in locks && b in locks && locks[a] == locks[b] ensures a == b {
        assert a != run ==> s.locks[a] < |s.locks|;
        assert b != run ==> s.locks[b] < |s.locks|;
      }
      OtherLocksKept(s, locks, run);
    }
  }

  lemma OtherLocksKept(s: State, locks: map<string, LockId>, run: string)
    requires LockInv(s) && run !in s.locks && locks == s.locks[run := |s.locks|]
    ensures forall tid <- s.phases :: s.phases[tid].Waiting? ==>
              s.phases[tid].run in locks && locks[s.phases[tid].run] == s.phases[tid].lock
    ensures forall tid <- s.phases :: LockedRun(s.phases[tid]).Some? ==>
              LockedRun(s.phases[tid]).value in locks
              && locks[LockedRun(s.phases[tid]).value] == s.locks[LockedRun(s.phases[tid]).value]
  {
    hide ValidRunId;
  }

  lemma RequestKeepsLocks(s: State, t: State, tid: Tid, op: Op, run: string)
    requires LockInv(s) && ValidRunId(run) && PhaseOf(s, tid).Idle? && run in s.locks
    requires t == Goto(s, tid, Waiting(op, run, s.locks[run]))
    ensures LockInv(t)
  {
    hide ValidRunId;
  }

  lemma LockKeepsLocks(s: State, t: State, tid: Tid)
    requires LockInv(s) && PhaseOf(s, tid).Waiting? && PhaseOf(s, tid).lock !in s.holders
    requires t == Goto(s.(holders := s.holders[PhaseOf(s, tid).lock := tid]), tid,
                       Locked(PhaseOf(s, tid).op, PhaseOf(s, tid).run))
    ensures LockInv(t)
  {
    hide ValidRunId;
  }

  lemma UnlockKeepsLocks(s: State, t: State, tid: Tid, run: string)
    requires LockInv(s) && tid in s.phases && LockedRun(s.phases[tid]) == Some(run)
    requires t.locks == s.locks && t.phases == s.phases[tid := Idle] && t.holders == s.holders - {s.locks[run]}
    ensures LockInv(t)
  {
    hide ValidRunId;
  }

  lemma MoveKeepsLocks(s: State, t: State, tid: Tid, p: Phase)
    requires LockInv(s) && tid in s.phases && LockedRun(p).Some? && LockedRun(s.phases[tid]) == LockedRun(p)
    requires t.locks == s.locks && t.phases == s.phases[tid := p] && t.holders == s.holders
    ensures LockInv(t)
  {
    hide ValidRunId;
  }

  /** The thread a step belongs to, if it is a thread's and not a process's. */
  function Actor(step: Step): Option<Tid> {
    match step
    case Request(tid, _, _) => Some(tid)
    case Lock(tid) => Some(tid)
    case Leave(tid) => Some(tid)
    case TakeGuard(tid) => Some(tid)
    case Reuse(tid) => Some(tid)
    case Choose(tid, _) => Some(tid)
    case WriteAssigned(tid) => Some(tid)
    case Exhausted(tid) => Some(tid)
    case Spawn(_, _) => None
    case Fork(_, _) => None
    case Exit(_) => None
    case CheckSurvivors(tid) => Some(tid)
    case WriteReleased(tid) => Some(tid)
    case Restart => None
  }

  /** Steps inside a run's block. */
  lemma InsideKeepsLocks(s: State, pool: Pool, step: Step, t: State)
    requires LockInv(s) && Apply(s, pool, step) == Some(t)
    requires step.TakeGuard? || step.Reuse? || step.Choose? || step.WriteAssigned? || step.CheckSurvivors?
    ensures LockInv(t)
  {
    hide ValidRunId, HeldKey, UidBusy, LockInv;
    var tid := Actor(step).value;
    MoveKeepsLocks(s, t, tid, t.phases[tid]);
  }

  /** Steps that end it. */
  lemma EndKeepsLocks(s: State, pool: Pool, step: Step, t: State)
    requires LockInv(s) && Apply(s, pool, step) == Some(t)
    requires step.Leave? || step.Exhausted? || step.WriteReleased?
    ensures LockInv(t)
  {
    RunHasLock(s, step);
    hide ValidRunId, HeldKey, UidBusy, LockInv;
    var tid := Actor(step).value;
    UnlockKeepsLocks(s, t, tid, LockedRun(PhaseOf(s, tid)).value);
  }

  lemma LocksKept(s: State, pool: Pool, step: Step, t: State)
    requires LockInv(s) && Apply(s, pool, step) == Some(t)
    requires !step.Restart?
    ensures LockInv(t)
  {
    hide ValidRunId, HeldKey, UidBusy, LockInv;
    match step
    case Request(tid, op, r) => NewLockIsDistinct(s, r); RequestKeepsLocks(WithLock(s, r), t, tid, op, r);
    case Lock(tid) => LockKeepsLocks(s, t, tid);
    case Leave(_) => hide Apply; EndKeepsLocks(s, pool, step, t);
    case Exhausted(_) => hide Apply; EndKeepsLocks(s, pool, step, t);
    case WriteReleased(_) => hide Apply; EndKeepsLocks(s, pool, step, t);
    case Spawn(_, _) => SameLocks(s, t);
    case Fork(_, _) => SameLocks(s, t);
    case Exit(_) => SameLocks(s, t);
    case _ => hide Apply; InsideKeepsLocks(s, pool, step, t);
  }

  lemma RunHasLock(s: State, step: Step)
    requires LockInv(s)
    ensures Actor(step).Some? && LockedRun(PhaseOf(s, Actor(step).value)).Some?
            ==> LockedRun(PhaseOf(s, Actor(step).value)).value in s.locks
  {
    hide ValidRunId;
  }

  lemma SameLocks(s: State, t: State)
    requires LockInv(s) && t.locks == s.locks && t.holders == s.holders && t.phases == s.phases
    ensures LockInv(t)
  {
    hide ValidRunId;
  }

  // The guard.

  lemma GuardMoveKept(s: State, t: State, tid: Tid, p: Phase)
    requires GuardInv(s) && t.phases == s.phases[tid := p]
    requires HoldsGuard(p) ==> t.guard == Some(tid) && (s.guard.None? || s.guard == Some(tid))
    requires !HoldsGuard(p) ==> t.guard == if HoldsGuard(PhaseOf(s, tid)) then None else s.guard
    ensures GuardInv(t)
  {
  }

  lemma GuardTaken(s: State, t: State, pool: Pool, step: Step, tid: Tid)
    requires step == TakeGuard(tid) && Apply(s, pool, step) == Some(t)
    ensures s.guard.None? && t.guard == Some(tid)
    ensures t.phases == s.phases[tid := t.phases[tid]] && HoldsGuard(t.phases[tid])
  {
    hide ValidRunId, HeldKey, UidBusy, WithLock, Unlock;
  }

  lemma GuardUsed(s: State, t: State, pool: Pool, step: Step, tid: Tid)
    requires (step.Choose? || step.CheckSurvivors? || step.Reuse? || step.WriteAssigned?) && Actor(step) == Some(tid)
    requires Apply(s, pool, step) == Some(t)
    ensures t.phases == s.phases[tid := t.phases[tid]] && HoldsGuard(PhaseOf(s, tid))
    ensures t.guard == if HoldsGuard(t.phases[tid]) then s.guard else None
  {
    hide ValidRunId, HeldKey, UidBusy, WithLock, Unlock;
  }

  lemma GuardLeft(s: State, t: State, pool: Pool, step: Step, tid: Tid)
    requires (step.Leave? || step.Exhausted? || step.WriteReleased?) && Actor(step) == Some(tid)
    requires LockInv(s) && Apply(s, pool, step) == Some(t)
    ensures t.phases == s.phases[tid := Idle]
    ensures t.guard == if HoldsGuard(PhaseOf(s, tid)) then None else s.guard
  {
    RunHasLock(s, step);
    hide ValidRunId, HeldKey, UidBusy, WithLock, LockInv;
  }

  lemma GuardIgnored(s: State, t: State, pool: Pool, step: Step, tid: Tid)
    requires (step.Request? || step.Lock?) && Actor(step) == Some(tid) && Apply(s, pool, step) == Some(t)
    ensures t.phases == s.phases[tid := t.phases[tid]] && t.guard == s.guard
    ensures !HoldsGuard(PhaseOf(s, tid)) && !HoldsGuard(t.phases[tid])
  {
    hide ValidRunId, HeldKey, UidBusy, Unlock;
  }

  lemma GuardKept(s: State, pool: Pool, step: Step, t: State)
    requires LockInv(s) && GuardInv(s) && Apply(s, pool, step) == Some(t)
    requires !step.Restart?
    ensures GuardInv(t)
  {
    assert Actor(step).Some? && HoldsGuard(PhaseOf(s, Actor(step).value)) ==> s.guard == Actor(step);
    if Actor(step).None? {
      hide ValidRunId, HeldKey, LockInv, GuardInv;
      SameGuard(s, t);
    } else {
      hide LockInv, GuardInv, Apply, HoldsGuard;
      var tid := Actor(step).value;
      match step {
        case TakeGuard(_) => GuardTaken(s, t, pool, step, tid);
        case Request(_, _, _) => GuardIgnored(s, t, pool, step, tid);
        case Lock(_) => GuardIgnored(s, t, pool, step, tid);
        case Leave(_) => GuardLeft(s, t, pool, step, tid);
        case Exhausted(_) => GuardLeft(s, t, pool, step, tid);
        case WriteReleased(_) => GuardLeft(s, t, pool, step, tid);
        case _ => GuardUsed(s, t, pool, step, tid);
      }
      IdleIsUnguarded();
      GuardMoveKept(s, t, tid, t.phases[tid]);
    }
  }

  lemma IdleIsUnguarded()
    ensures !HoldsGuard(Idle)
  {
  }

  lemma SameGuard(s: State, t: State)
    requires GuardInv(s) && t.guard == s.guard && t.phases == s.phases
    ensures GuardInv(t)
  {
  }

  // Phases: what a thread has read.

  lemma MoveKeepsPhases(s: State, t: State, pool: Pool, tid: Tid, p: Phase)
    requires forall i <- s.phases :: PhaseInv(s, pool, s.phases[i])
    requires t.table == s.table && t.processes == s.processes && t.phases == s.phases[tid := p]
    requires PhaseInv(t, pool, p)
    ensures forall i <- t.phases :: PhaseInv(t, pool, t.phases[i])
  {
    hide HeldKey;
    forall i <- t.phases ensures PhaseInv(t, pool, t.phases[i]) {
      if i != tid { assert PhaseInv(s, pool, s.phases[i]); }
    }
  }

  /** Writing the map under the guard, by a thread inside `run`'s block, disturbs nobody else. */
  lemma WriteKeepsPhases(s: State, t: State, pool: Pool, tid: Tid, run: string, p: Phase)
    requires Inv(s, pool) && tid in s.phases && LockedRun(s.phases[tid]) == Some(run) && s.guard == Some(tid)
    requires t.processes == s.processes && t.phases == s.phases[tid := p] && PhaseInv(t, pool, p)
    requires forall k <- s.table :: k != run && ValidRunId(k) ==> k in t.table && t.table[k] == s.table[k]
    ensures forall i <- t.phases :: PhaseInv(t, pool, t.phases[i])
  {
    hide HeldKey, ValidRunId, ValidTable, ProcessInv;
    forall i <- t.phases ensures PhaseInv(t, pool, t.phases[i]) {
      if i != tid {
        assert PhaseInv(s, pool, s.phases[i]);
        assert !HoldsGuard(s.phases[i]);
        if s.phases[i].Running? && s.phases[i].run == run { OneThreadPerRun(s, i, tid); }
      }
    }
  }

  lemma SpawnKeepsPhases(s: State, t: State, pool: Pool, tid: Tid, pid: Pid)
    requires Inv(s, pool) && PhaseOf(s, tid).Running? && pid !in s.processes
    requires t == s.(processes := s.processes[pid := Process(PhaseOf(s, tid).uid, PhaseOf(s, tid).run)])
    ensures forall i <- t.phases :: PhaseInv(t, pool, t.phases[i])
  {
    hide HeldKey, ValidRunId, ProcessInv, WellKeyed;
    var run, uid := s.phases[tid].run, s.phases[tid].uid;
    forall i <- t.phases ensures PhaseInv(t, pool, t.phases[i]) {
      assert PhaseInv(s, pool, s.phases[i]) && PhaseInv(s, pool, s.phases[tid]);
      if s.phases[i].Checked? && s.phases[i].run == run { OneThreadPerRun(s, i, tid); }
    }
  }

  lemma FewerUidsKeepPhases(s: State, t: State, pool: Pool)
    requires forall i <- s.phases :: PhaseInv(s, pool, s.phases[i])
    requires t.table == s.table && t.phases == s.phases
    requires forall uid :: UidBusy(t, uid) ==> UidBusy(s, uid)
    ensures forall i <- t.phases :: PhaseInv(t, pool, t.phases[i])
  {
    hide HeldKey, UidBusy;
    forall i <- t.phases ensures PhaseInv(t, pool, t.phases[i]) {
      assert PhaseInv(s, pool, s.phases[i]);
    }
  }

  /** A thread moved to `p`, with the map and the processes as they were. */
  predicate Moved(s: State, t: State, tid: Tid, p: Phase) {
    t.table == s.table && t.processes == s.processes && t.phases == s.phases[tid := p]
  }

  /** A thread that comes in, or goes out, takes no reading with it. */
  lemma EnteringHolds(s: State, t: State, pool: Pool, step: Step, tid: Tid)
    requires (step.Request? || step.Lock?) && Actor(step) == Some(tid)
    requires Apply(s, pool, step) == Some(t)
    ensures Moved(s, t, tid, t.phases[tid]) && PhaseInv(t, pool, t.phases[tid])
  {
    hide ValidRunId, HeldKey, UidBusy, Unlock;
  }

  lemma TakingGuardHolds(s: State, t: State, pool: Pool, tid: Tid)
    requires Apply(s, pool, TakeGuard(tid)) == Some(t)
    ensures Moved(s, t, tid, t.phases[tid]) && PhaseInv(t, pool, t.phases[tid])
  {
    hide ValidRunId, HeldKey, UidBusy, Unlock, WithLock;
  }

  lemma ReadingHolds(s: State, t: State, pool: Pool, step: Step, tid: Tid)
    requires (step.Reuse? || step.Choose? || step.CheckSurvivors?) && Actor(step) == Some(tid)
    requires Apply(s, pool, step) == Some(t) && PhaseInv(s, pool, s.phases[tid])
    ensures Moved(s, t, tid, t.phases[tid]) && PhaseInv(t, pool, t.phases[tid])
  {
    hide ValidRunId, HeldKey, WithLock, Unlock;
  }

  lemma LeavingHolds(s: State, t: State, pool: Pool, step: Step, tid: Tid)
    requires LockInv(s) && (step == Leave(tid) || step == Exhausted(tid))
    requires Apply(s, pool, step) == Some(t)
    ensures Moved(s, t, tid, Idle) && PhaseInv(t, pool, t.phases[tid])
  {
    RunHasLock(s, step);
    hide ValidRunId, HeldKey, LockInv, UidBusy, WithLock;
  }

  /** Any thread's step but the two writes: only its phase changes (and locks and guard), and the
      new phase rests on what holds. */
  lemma ThreadStepHolds(s: State, t: State, pool: Pool, step: Step, tid: Tid)
    requires Inv(s, pool) && Apply(s, pool, step) == Some(t) && Actor(step) == Some(tid)
    requires !step.WriteAssigned? && !step.WriteReleased?
    ensures Moved(s, t, tid, t.phases[tid]) && PhaseInv(t, pool, t.phases[tid])
  {
    hide PhaseInv, HeldKey, ValidRunId, LockInv, GuardInv, ProcessInv, ValidTable, Apply;
    match step
    case Leave(_) => LeavingHolds(s, t, pool, step, tid);
    case Exhausted(_) => LeavingHolds(s, t, pool, step, tid);
    case Reuse(_) => ActorPresent(s, t, pool, step, tid); ReadingHolds(s, t, pool, step, tid);
    case Choose(_, _) => ActorPresent(s, t, pool, step, tid); ReadingHolds(s, t, pool, step, tid);
    case CheckSurvivors(_) => ActorPresent(s, t, pool, step, tid); ReadingHolds(s, t, pool, step, tid);
    case TakeGuard(_) => TakingGuardHolds(s, t, pool, tid);
    case _ => EnteringHolds(s, t, pool, step, tid);
  }

  lemma PhasesKept(s: State, pool: Pool, step: Step, t: State)
    requires Inv(s, pool) && Apply(s, pool, step) == Some(t)
    requires !step.Restart?
    ensures forall tid <- t.phases :: PhaseInv(t, pool, t.phases[tid])
  {
    if step.WriteAssigned? {
      WriteAssignedKeepsPhases(s, t, pool, step.tid);
    } else if step.WriteReleased? {
      WriteReleasedKeepsPhases(s, t, pool, step.tid);
    } else if step.Spawn? {
      SpawnKeepsPhases(s, t, pool, step.tid, step.pid);
    } else if step.Fork? || step.Exit? {
      hide PhaseInv, HeldKey, ValidRunId, LockInv, GuardInv, ProcessInv, ValidTable;
      FewerUidsKeepPhases(s, t, pool);
    } else {
      hide PhaseInv, HeldKey, ValidRunId, LockInv, GuardInv, ProcessInv, ValidTable, Apply;
      var tid := Actor(step).value;
      ThreadStepHolds(s, t, pool, step, tid);
      MoveKeepsPhases(s, t, pool, tid, t.phases[tid]);
    }
  }

  lemma ActorPresent(s: State, t: State, pool: Pool, step: Step, tid: Tid)
    requires Apply(s, pool, step) == Some(t) && Actor(step) == Some(tid)
    ensures step.Request? || tid in s.phases
  {
    hide ValidRunId, HeldKey, UidBusy, WithLock, Unlock;
  }

  lemma WriteAssignedKeepsPhases(s: State, t: State, pool: Pool, tid: Tid)
    requires Inv(s, pool) && Apply(s, pool, WriteAssigned(tid)) == Some(t)
    ensures forall i <- t.phases :: PhaseInv(t, pool, t.phases[i])
  {
    hide ValidRunId, HeldKey, ProcessInv, ValidTable, UidBusy;
    assert PhaseInv(s, pool, s.phases[tid]);
    assert s.guard == Some(tid);
    WriteKeepsPhases(s, t, pool, tid, s.phases[tid].run, t.phases[tid]);
  }

  lemma WriteReleasedKeepsPhases(s: State, t: State, pool: Pool, tid: Tid)
    requires Inv(s, pool) && Apply(s, pool, WriteReleased(tid)) == Some(t)
    ensures forall i <- t.phases :: PhaseInv(t, pool, t.phases[i])
  {
    hide ValidRunId, HeldKey, ProcessInv, ValidTable, UidBusy;
    assert PhaseInv(s, pool, s.phases[tid]);
    assert s.guard == Some(tid);
    RunHasLock(s, WriteReleased(tid));
    if s.phases[tid].popped.Some? && s.phases[tid].popped.value >= 0 { HeldIsNoRun(s.phases[tid].popped.value); }
    WriteKeepsPhases(s, t, pool, tid, s.phases[tid].run, Idle);
  }

  // The table and the processes.

  lemma TableKept(s: State, pool: Pool, step: Step, t: State)
    requires Inv(s, pool) && Apply(s, pool, step) == Some(t)
    ensures ValidTable(t.table, pool)
  {
    hide ValidRunId, HeldKey, UidBusy, ProcessInv, GuardInv;
    if step.WriteAssigned? {
      assert PhaseInv(s, pool, s.phases[step.tid]);
      assert ValidRunId(s.phases[step.tid].run);
    } else if step.WriteReleased? {
      ReleasedTable(s, t, pool, step.tid);
      hide Apply, LockInv, PhaseInv;
      ReleasedIsValid(s.table, pool, s.phases[step.tid].run, s.phases[step.tid].survivors);
    } else if Actor(step).Some? {
      hide Apply, LockInv, PhaseInv;
      ThreadStepHolds(s, t, pool, step, Actor(step).value);
    }
  }

  /** The in-memory pop and the late tombstone together are the release of `UidMap`. */
  lemma ReleasedTable(s: State, t: State, pool: Pool, tid: Tid)
    requires Inv(s, pool) && Apply(s, pool, WriteReleased(tid)) == Some(t)
    ensures var p := s.phases[tid];
            ValidRunId(p.run) && t.table == Released(s.table, p.run, p.survivors)
  {
    hide ValidRunId, HeldKey, UidBusy, ProcessInv, GuardInv, ValidTable;
    assert PhaseInv(s, pool, s.phases[tid]);
    RunHasLock(s, WriteReleased(tid));
  }

  lemma SpawnKeepsProcesses(s: State, t: State, pool: Pool, tid: Tid, pid: Pid)
    requires Inv(s, pool) && PhaseOf(s, tid).Running? && pid !in s.processes
    requires t == s.(processes := s.processes[pid := Process(PhaseOf(s, tid).uid, PhaseOf(s, tid).run)])
    ensures ProcessInv(t) && forall p <- t.processes :: ValidRunId(t.processes[p].run)
  {
    var run, uid := s.phases[tid].run, s.phases[tid].uid;
    assert PhaseInv(s, pool, s.phases[tid]);
    if uid >= 0 { HeldIsNoRun(uid); }
    assert ValidRunId(run);
    hide ValidRunId, HeldKey, GuardInv, LockInv;
    forall p <- s.processes | s.processes[p].uid == uid ensures s.processes[p].run == run {
      assert Owned(s.table, s.processes[p]);
    }
  }

  /** A released uid has no process left, or stays reserved by its tombstone. */
  lemma ReleaseKeepsProcesses(s: State, t: State, pool: Pool, tid: Tid)
    requires Inv(s, pool) && Apply(s, pool, WriteReleased(tid)) == Some(t)
    ensures ProcessInv(t) && t.processes == s.processes
  {
    ReleasedTable(s, t, pool, tid);
    assert PhaseInv(s, pool, s.phases[tid]);
    var run, survivors := s.phases[tid].run, s.phases[tid].survivors;
    hide ValidRunId, HeldKey, GuardInv, LockInv, Apply;
    forall p <- s.processes ensures Owned(t.table, s.processes[p]) {
      var uid := s.processes[p].uid;
      assert Owned(s.table, s.processes[p]);
      if run in s.table && s.table[run] == uid {
        assert UidBusy(s, uid);
        assert survivors && uid >= 0;
      }
      if uid >= 0 { HeldIsNoRun(uid); }
      if run in s.table && s.table[run] >= 0 {
        HeldIsNoRun(s.table[run]);
        if uid >= 0 { HeldKeyInjective(uid, s.table[run]); }
      }
    }
  }

  lemma AssignKeepsProcesses(s: State, t: State, pool: Pool, tid: Tid)
    requires Inv(s, pool) && Apply(s, pool, WriteAssigned(tid)) == Some(t)
    ensures ProcessInv(t) && t.processes == s.processes
  {
    assert PhaseInv(s, pool, s.phases[tid]);
    hide ValidRunId, HeldKey, GuardInv, LockInv, ValidTable, UidBusy;
  }

  /** A process that comes from another one, or goes. */
  lemma ForkKeepsProcesses(s: State, t: State, pool: Pool, step: Step)
    requires Inv(s, pool) && (step.Fork? || step.Exit?) && Apply(s, pool, step) == Some(t)
    ensures ProcessInv(t) && forall pid <- t.processes :: ValidRunId(t.processes[pid].run)
  {
    hide ValidRunId, HeldKey, GuardInv, LockInv, ValidTable, UidBusy, PhaseInv, PhaseOf;
  }

  lemma ProcessesKept(s: State, pool: Pool, step: Step, t: State)
    requires Inv(s, pool) && Apply(s, pool, step) == Some(t)
    requires !step.Restart?
    ensures ProcessInv(t)
    ensures forall pid <- t.processes :: ValidRunId(t.processes[pid].run)
  {
    hide ValidRunId, HeldKey, GuardInv, LockInv, ValidTable, UidBusy, PhaseInv, ProcessInv;
    match step
    case Spawn(tid, pid) => SpawnKeepsProcesses(s, t, pool, tid, pid);
    case WriteReleased(tid) => hide Apply; ReleaseKeepsProcesses(s, t, pool, tid);
    case WriteAssigned(tid) => hide Apply; AssignKeepsProcesses(s, t, pool, tid);
    case Fork(_, _) => hide Apply; ForkKeepsProcesses(s, t, pool, step);
    case Exit(_) => hide Apply; ForkKeepsProcesses(s, t, pool, step);
    case Restart =>
    case _ =>
      hide Apply;
      ThreadStepHolds(s, t, pool, step, Actor(step).value);
      SameProcesses(s, t);
  }

  lemma SameProcesses(s: State, t: State)
    requires ProcessInv(s) && t.processes == s.processes && t.table == s.table
    ensures ProcessInv(t)
  {
    hide HeldKey;
  }

  lemma StepKeepsInv(s: State, pool: Pool, step: Step, t: State)
    requires Inv(s, pool) && Apply(s, pool, step) == Some(t)
    ensures Inv(t, pool)
  {
    if step.Restart? {
      assert t == Restarted(s);
      hide Apply;
      StartHolds(t, pool);
    } else {
      hide Apply;
      LocksKept(s, pool, step, t);
      GuardKept(s, pool, step, t);
      TableKept(s, pool, step, t);
      PhasesKept(s, pool, step, t);
      ProcessesKept(s, pool, step, t);
      hide *;
    }
  }

  lemma StartHolds(s: State, pool: Pool)
    requires Start(s, pool)
    ensures Inv(s, pool)
  {
    hide ValidTable, ProcessInv, ValidRunId;
  }

  /** From any valid map and whatever of the runs' processes an earlier server left, over every
      interleaving of any number of requests and processes, and any number of restarts. */
  lemma {:induction false} InvAlways(start: State, pool: Pool, steps: seq<Step>)
    requires Start(start, pool)
    ensures Inv(After(start, pool, steps), pool)
  {
    if steps == [] {
      StartHolds(start, pool);
    } else {
      var s := After(start, pool, steps[..|steps| - 1]);
      InvAlways(start, pool, steps[..|steps| - 1]);
      hide Inv, Start;
      var next := Apply(s, pool, steps[|steps| - 1]);
      if next.Some? { StepKeepsInv(s, pool, steps[|steps| - 1], next.value); }
    }
  }

  // ---------- What it means ----------

  /** Two live processes under one pool uid descend from the same run: runs never share a uid. */
  lemma RunsNeverShareUid(start: State, pool: Pool, steps: seq<Step>, p: Pid, q: Pid)
    requires Start(start, pool)
    requires p in After(start, pool, steps).processes && q in After(start, pool, steps).processes
    requires After(start, pool, steps).processes[p].uid == After(start, pool, steps).processes[q].uid
    ensures After(start, pool, steps).processes[p].run == After(start, pool, steps).processes[q].run
  {
    InvAlways(start, pool, steps);
  }

  /** While an exec is in flight its uid is the run's in the map, every live process under that uid
      is the run's own, and no other request for the run is inside the lock. */
  lemma ExecOwnsItsUid(start: State, pool: Pool, steps: seq<Step>, tid: Tid)
    requires Start(start, pool)
    requires PhaseOf(After(start, pool, steps), tid).Running?
    ensures var s := After(start, pool, steps);
            var p := s.phases[tid];
            && p.run in s.table && s.table[p.run] == p.uid && pool.first <= p.uid <= pool.last
            && (forall k <- s.table :: s.table[k] == p.uid ==> k == p.run)
            && (forall pid <- s.processes :: s.processes[pid].uid == p.uid ==> s.processes[pid].run == p.run)
            && (forall other <- s.phases :: LockedRun(s.phases[other]) == Some(p.run) ==> other == tid)
  {
    InvAlways(start, pool, steps);
    var s := After(start, pool, steps);
    var p := s.phases[tid];
    assert PhaseInv(s, pool, p);
    hide After, ValidRunId, HeldKey, GuardInv;
    if p.uid >= 0 { HeldIsNoRun(p.uid); }
    forall other <- s.phases | LockedRun(s.phases[other]) == Some(p.run) ensures other == tid {
      OneThreadPerRun(s, other, tid);
    }
    forall pid <- s.processes | s.processes[pid].uid == p.uid ensures s.processes[pid].run == p.run {
      assert Owned(s.table, s.processes[pid]);
    }
  }

  /** A uid is handed out only when nothing runs under it: no run inherits another's processes. */
  lemma NewUidIsQuiet(start: State, pool: Pool, steps: seq<Step>, tid: Tid)
    requires Start(start, pool)
    requires PhaseOf(After(start, pool, steps), tid).Chosen?
    ensures var s := After(start, pool, steps);
            && !UidBusy(s, s.phases[tid].uid) && s.phases[tid].uid !in s.table.Values
            && s.phases[tid].run !in s.table && s.phases[tid].local == s.table
  {
    InvAlways(start, pool, steps);
    assert PhaseInv(After(start, pool, steps), pool, After(start, pool, steps).phases[tid]);
  }

  /** A tombstone is for good: no step frees a held uid. */
  lemma HeldForGood(start: State, pool: Pool, steps: seq<Step>, step: Step, uid: nat, t: State)
    requires Start(start, pool)
    requires HeldKey(uid) in After(start, pool, steps).table && Apply(After(start, pool, steps), pool, step) == Some(t)
    ensures HeldKey(uid) in t.table && t.table[HeldKey(uid)] == uid == After(start, pool, steps).table[HeldKey(uid)]
  {
    InvAlways(start, pool, steps);
    hide After, Apply, HeldKey, Inv;
    StepKeepsHeld(After(start, pool, steps), pool, step, uid, t);
  }

  lemma StepKeepsHeld(s: State, pool: Pool, step: Step, uid: nat, t: State)
    requires Inv(s, pool) && HeldKey(uid) in s.table && Apply(s, pool, step) == Some(t)
    ensures HeldKey(uid) in t.table && t.table[HeldKey(uid)] == uid == s.table[HeldKey(uid)]
  {
    HeldValue(s.table, pool, uid);
    HeldIsNoRun(uid);
    if step.WriteReleased? {
      ReleasedTable(s, t, pool, step.tid);
      var run := s.phases[step.tid].run;
      if run in s.table && s.table[run] >= 0 { HeldKeyInjective(uid, s.table[run]); }
      hide ValidRunId, HeldKey, Inv, Apply;
    } else if step.WriteAssigned? {
      WriteAssignedAdds(s, pool, step.tid, t);
      hide ValidRunId, HeldKey, Inv, Apply;
    } else if Actor(step).Some? {
      hide ValidRunId, HeldKey, Inv, Apply;
      ThreadStepHolds(s, t, pool, step, Actor(step).value);
    }
  }

  lemma HeldValue(table: UidTable, pool: Pool, uid: nat)
    requires ValidTable(table, pool) && HeldKey(uid) in table
    ensures table[HeldKey(uid)] == uid
  {
    HeldIsNoRun(uid);
    HeldKeyInjective(uid, table[HeldKey(uid)]);
    hide HeldKey, ValidRunId;
  }

  lemma WriteAssignedAdds(s: State, pool: Pool, tid: Tid, t: State)
    requires Inv(s, pool) && Apply(s, pool, WriteAssigned(tid)) == Some(t)
    ensures ValidRunId(s.phases[tid].run) && t.table == s.table[s.phases[tid].run := s.phases[tid].uid]
  {
    hide ValidRunId, HeldKey, GuardInv, ProcessInv, ValidTable, UidBusy;
    assert PhaseInv(s, pool, s.phases[tid]);
  }
}
