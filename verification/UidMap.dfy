/** The sandbox's persisted map from run to Unix uid, as one request sees it while it holds the
    uid guard. */
module UidMap {
  import opened Options
  import opened LocalDateTime

  type UidTable = map<string, int>

  datatype Pool = Pool(first: nat, last: nat)

  predicate RunIdChar(c: char) {
    'a' <= c <= 'z' || 'A' <= c <= 'Z' || '0' <= c <= '9' || c == '-' || c == '_'
  }

  predicate ValidRunId(run: string) {
    1 <= |run| <= 128 && forall c <- run :: RunIdChar(c)
  }

  /** A run id has 1 to 128 characters, each a letter or digit of ASCII, `-` or `_`; given here by their codes. */
  lemma ValidRunIds(run: string)
    ensures ValidRunId(run) <==>
              && 0 < |run| < 129
              && forall i :: 0 <= i < |run| ==>
                   var code := run[i] as int;
                   96 < code < 123 || 64 < code < 91 || 47 < code < 58 || code == 45 || code == 95
  {
    forall i | 0 <= i < |run|
      ensures var code := run[i] as int;
              RunIdChar(run[i]) <==> 96 < code < 123 || 64 < code < 91 || 47 < code < 58 || code == 45 || code == 95
    {
    }
    assert forall i :: 0 <= i < |run| ==> run[i] in run;
  }

  /** The tombstone key of a uid whose processes outlived their run. */
  function HeldKey(uid: nat): string {
    ".held-" + Decimal(uid)
  }

  lemma HeldIsNoRun(uid: nat)
    ensures !ValidRunId(HeldKey(uid))
  {
    assert HeldKey(uid)[0] == '.' && !RunIdChar('.');
  }

  lemma HeldKeyInjective(a: nat, b: nat)
    ensures HeldKey(a) == HeldKey(b) ==> a == b
  {
    DecimalRoundTrip(a); DecimalRoundTrip(b);
    assert HeldKey(a)[6..] == Decimal(a) && HeldKey(b)[6..] == Decimal(b);
  }

  /** What releasing a run leaves: its entry goes, and a uid with live processes stays reserved. */
  function Released(table: UidTable, run: string, survivors: bool): UidTable {
    var rest := table - {run};
    if run in table && table[run] >= 0 && survivors then rest[HeldKey(table[run]) := table[run]] else rest
  }

  ghost predicate Injective(table: UidTable) {
    forall j, k :: j in table && k in table && table[j] == table[k] ==> j == k
  }

  /** Every key is a run, or the tombstone of its own uid; every uid is the pool's. */
  ghost predicate WellKeyed(table: UidTable, pool: Pool) {
    forall k <- table ::
      pool.first <= table[k] <= pool.last && (ValidRunId(k) || k == HeldKey(table[k]))
  }

  ghost predicate ValidTable(table: UidTable, pool: Pool) {
    Injective(table) && WellKeyed(table, pool)
  }

  lemma ReleasedIsValid(table: UidTable, pool: Pool, run: string, survivors: bool)
    requires ValidTable(table, pool) && ValidRunId(run)
    ensures ValidTable(Released(table, run, survivors), pool)
  {
    hide ValidRunId, HeldKey;
  }

  function Uids(first: int, last: int): (uids: set<int>)
    ensures forall u :: u in uids <==> first <= u <= last
    ensures first <= last + 1 ==> |uids| == last - first + 1
    decreases last - first
  {
    if first > last then {} else Uids(first, last - 1) + {last}
  }

  /** The map never holds more entries, tombstones included, than the pool has uids. */
  lemma {:induction false} TableFitsPool(table: UidTable, pool: Pool)
    requires ValidTable(table, pool) && pool.first <= pool.last
    ensures |table| <= pool.last - pool.first + 1
  {
    hide HeldKey, ValidRunId;
    KeysAsUids(table, table.Keys, Uids(pool.first, pool.last));
    assert |table| == |table.Keys|;
  }

  lemma {:induction false} KeysAsUids(table: UidTable, keys: set<string>, uids: set<int>)
    requires Injective(table) && keys <= table.Keys && forall k <- keys :: table[k] in uids
    ensures |keys| <= |uids|
    decreases keys
  {
    if keys != {} {
      var k :| k in keys;
      KeysAsUids(table, keys - {k}, uids - {table[k]});
    }
  }

  /** Uids of the live processes, by pid. */
  type Processes = map<int, int>

  /** What a round of signals leads to: the process table at the next look, from the one before and the
      pids that were signalled.  Some may not be reaped yet, some may have forked, others come and go. */
  type Aftermath = (nat, Processes, set<int>) -> Processes

  function Owned(processes: Processes, uid: int): set<int> {
    set pid <- processes | processes[pid] == uid
  }

  /** Processes that were not signalled go on. */
  ghost predicate SparesRest(after: Aftermath) {
    forall i, t: Processes, pids: set<int>, pid :: pid in t && pid !in pids ==>
      pid in after(i, t, pids) && after(i, t, pids)[pid] == t[pid]
  }

  /** Every round leaves fewer of the uid's processes than it found, forks and all. */
  ghost predicate EachRoundFewer(after: Aftermath, uid: int) {
    forall i, t: Processes :: Owned(t, uid) != {} ==> |Owned(after(i, t, Owned(t, uid)), uid)| < |Owned(t, uid)|
  }

  lemma SparedOthers(after: Aftermath, i: nat, t: Processes, uid: int)
    requires SparesRest(after)
    ensures forall pid <- t :: t[pid] != uid ==>
              pid in after(i, t, Owned(t, uid)) && after(i, t, Owned(t, uid))[pid] == t[pid]
  {
    forall pid <- t | t[pid] != uid
      ensures pid in after(i, t, Owned(t, uid)) && after(i, t, Owned(t, uid))[pid] == t[pid]
    {
      assert pid !in Owned(t, uid);
    }
  }

  /** The server process's view: the map file, and the processes alive by uid. */
  class Sandbox {
    const pool: Pool
    var table: UidTable
    var processes: Processes

    constructor (pool: Pool)
      ensures this.pool == pool && table == map[] && processes == map[]
    {
      this.pool := pool;
      table := map[];
      processes := map[];
    }

    predicate Busy(uid: int)
      reads `processes
    {
      exists pid <- processes :: processes[pid] == uid
    }

    /** Gives a run its uid: the one it has, or the first that no entry and no process uses.
        None stands for the error raised when there is no such uid. */
    method AssignUid(run: string) returns (uid: Option<int>)
      modifies `table
      ensures run in old(table) ==> table == old(table) && uid == Some(table[run])
      ensures run !in old(table) && uid.Some? ==>
                && table == old(table)[run := uid.value]
                && pool.first <= uid.value <= pool.last
                && uid.value !in old(table).Values && !Busy(uid.value)
                && forall u :: pool.first <= u < uid.value ==> u in old(table).Values || Busy(u)
      ensures uid.None? ==>
                && table == old(table)
                && forall u :: pool.first <= u <= pool.last ==> u in table.Values || Busy(u)
    {
      if run in table {
        return Some(table[run]);
      }
      var used := table.Values;
      var candidate: int := pool.first;
      while candidate <= pool.last
        invariant pool.first <= candidate && table == old(table)
        invariant forall u :: pool.first <= u < candidate ==> u in old(table).Values || Busy(u)
        decreases pool.last - candidate
      {
        if candidate !in used && !Busy(candidate) {
          table := table[run := candidate];
          return Some(candidate);
        }
        candidate := candidate + 1;
      }
      return None;
    }

    /** At most twenty rounds of killing what is seen under the uid; `looks` is the process table at each
        look, and last as it is left. */
    method KillOwned(uid: int, after: Aftermath) returns (ghost looks: seq<Processes>)
      modifies `processes
      ensures 1 <= |looks| <= 21 && looks[0] == old(processes) && looks[|looks| - 1] == processes
      ensures forall i :: 0 <= i < |looks| - 1 ==>
                && Owned(looks[i], uid) != {} && looks[i + 1] == after(i, looks[i], Owned(looks[i], uid))
      ensures |looks| <= 20 ==> Owned(processes, uid) == {}
      ensures EachRoundFewer(after, uid) && |Owned(old(processes), uid)| <= 20 ==> Owned(processes, uid) == {}
      ensures SparesRest(after) ==> forall pid <- old(processes) :: old(processes)[pid] != uid ==>
                pid in processes && processes[pid] == old(processes)[pid]
    {
      var round := 0;
      looks := [processes];
      while round < 20
        invariant round <= 20 && |looks| == round + 1 && looks[0] == old(processes) && looks[round] == processes
        invariant forall i :: 0 <= i < round ==>
                    && Owned(looks[i], uid) != {} && looks[i + 1] == after(i, looks[i], Owned(looks[i], uid))
        invariant EachRoundFewer(after, uid) ==>
                    |Owned(processes, uid)| + round <= |Owned(old(processes), uid)| || Owned(processes, uid) == {}
        invariant SparesRest(after) ==> forall pid <- old(processes) :: old(processes)[pid] != uid ==>
                    pid in processes && processes[pid] == old(processes)[pid]
      {
        var pids := Owned(processes, uid);
        if pids == {} {
          return;
        }
        if SparesRest(after) { SparedOthers(after, round, processes, uid); }
        processes := after(round, processes, pids);
        looks := looks + [processes];
        round := round + 1;
      }
    }

    /** Forgets a run: kills what runs under its uid, and keeps the uid reserved while any survives. */
    method ReleaseUid(run: string, after: Aftermath)
      requires ValidTable(table, pool)
      modifies this
      ensures table == Released(old(table), run, run in old(table) && Busy(old(table)[run]))
      ensures run in old(table) ==>
                var uid := old(table)[run];
                table == if exists pid <- processes :: processes[pid] == uid
                         then (old(table) - {run})[".held-" + Decimal(uid) := uid] else old(table) - {run}
      ensures run !in old(table) ==> table == old(table)
      ensures ValidTable(table, pool) || !ValidRunId(run)
      ensures run !in old(table) ==> processes == old(processes)
      ensures SparesRest(after) && run in old(table) ==>
                forall pid <- old(processes) :: old(processes)[pid] != old(table)[run] ==>
                  pid in processes && processes[pid] == old(processes)[pid]
      ensures run in old(table) && |Owned(old(processes), old(table)[run])| <= 20 ==>
                EachRoundFewer(after, old(table)[run]) ==> table == old(table) - {run}
    {
      if ValidRunId(run) {
        ReleasedIsValid(table, pool, run, true);
        ReleasedIsValid(table, pool, run, false);
      }
      hide ValidTable, ValidRunId, EachRoundFewer, SparesRest, HeldKey;
      var mapping := table;
      if run in mapping {
        var uid := mapping[run];
        mapping := mapping - {run};
        ghost var looks := KillOwned(uid, after);
        assert forall pid :: pid in Owned(processes, uid) <==> pid in processes && processes[pid] == uid;
        if Busy(uid) {
          mapping := mapping[HeldKey(uid) := uid];
        }
      }
      table := mapping;
    }
  }
}
