/** The `runs` table as one process sees it: every statement is awaited, and before it takes effect
    any number of other statements may have. */
module RunTable {
  import opened Options
  import opened RunRow
  import opened RunThread

  type Rows = map<string, Row>

  /** What everybody else did to the table before this process's `k`-th statement took effect. */
  type Others = (nat, Rows) -> Rows

  /** Nobody else is at work. */
  ghost predicate Alone(others: Others) {
    forall k, rows :: others(k, rows) == rows
  }

  /** Nobody removes the run. */
  ghost predicate Keeps(others: Others, id: string) {
    forall k, rows: Rows :: id in rows ==> id in others(k, rows)
  }

  /** Nobody reopens the run. */
  ghost predicate NeverReopens(others: Others, id: string) {
    Keeps(others, id)
    && forall k, rows: Rows :: id in rows && rows[id].status.Completed? ==> others(k, rows)[id].status.Completed?
  }

  /** A statement this process ran, and whether it matched a row. */
  datatype Answer = Answer(id: string, statement: Statement, ok: bool)

  /** The answers take a thread through its phases from `p` to `end`. */
  ghost predicate Follows(p: Phase, ran: seq<Answer>, id: string, end: Phase)
    decreases |ran|
  {
    if ran == [] then p == end
    else
      && ran[0].id == id && StatementOf(p) == Some(ran[0].statement)
      && Follows(Stepped(p, ran[0].ok), ran[1..], id, end)
  }

  lemma {:induction false} FollowsMore(p: Phase, ran: seq<Answer>, id: string, mid: Phase, a: Answer)
    requires Follows(p, ran, id, mid) && a.id == id && StatementOf(mid) == Some(a.statement)
    ensures Follows(p, ran + [a], id, Stepped(mid, a.ok))
    decreases |ran|
  {
    hide StatementOf, Stepped;
    if ran != [] {
      assert (ran + [a])[1..] == ran[1..] + [a];
      FollowsMore(Stepped(p, ran[0].ok), ran[1..], id, mid, a);
    } else {
      assert (ran + [a])[1..] == [];
    }
  }

  lemma FollowsFirst(p: Phase, ran: seq<Answer>, id: string, end: Phase)
    requires Follows(p, ran, id, end)
    ensures StatementOf(p).None? ==> ran == []
    ensures p != end ==> ran != []
    ensures ran != [] ==>
              && ran[0].id == id && StatementOf(p) == Some(ran[0].statement)
              && Follows(Stepped(p, ran[0].ok), ran[1..], id, end)
  {
    hide StatementOf, Stepped;
  }

  lemma FollowsOne(p: Phase, id: string, a: Answer)
    requires a.id == id && StatementOf(p) == Some(a.statement)
    ensures Follows(p, [a], id, Stepped(p, a.ok))
  {
    hide StatementOf, Stepped;
    assert [a][1..] == [];
  }

  /** How many awaits a process has had, and the table after them. */
  datatype Moment = Moment(awaits: nat, rows: Rows)

  /** The table a process finds at its next await. */
  function Next(others: Others, m: Moment): Rows {
    others(m.awaits, m.rows)
  }

  /** The moment after a process's own statements, each run on what the others had left by then. */
  function RanFrom(others: Others, m: Moment, mine: seq<Answer>): Moment
    ensures RanFrom(others, m, mine).awaits == m.awaits + |mine|
  {
    if mine == [] then m
    else
      var u, a := RanFrom(others, m, mine[..|mine| - 1]), mine[|mine| - 1];
      var found := Next(others, u);
      Moment(u.awaits + 1, if a.id in found then found[a.id := Executed(found[a.id], a.statement)] else found)
  }

  predicate Told(others: Others, m: Moment, a: Answer) {
    var found := Next(others, m);
    a.ok <==> a.id in found && Execute(found[a.id], a.statement).Some?
  }

  /** Each answer says whether the statement matched the row it met. */
  predicate AllTold(others: Others, m: Moment, mine: seq<Answer>) {
    mine == []
    || (var n := |mine| - 1;
        AllTold(others, m, mine[..n]) && Told(others, RanFrom(others, m, mine[..n]), mine[n]))
  }

  /** Between two moments a process ran just these statements. */
  predicate Ran(others: Others, before: Moment, mine: seq<Answer>, after: Moment) {
    after == RanFrom(others, before, mine) && AllTold(others, before, mine)
  }

  lemma RanOne(others: Others, before: Moment, a: Answer, after: Moment)
    requires Told(others, before, a) && after.awaits == before.awaits + 1
    requires var found := Next(others, before);
             after.rows == if a.id in found then found[a.id := Executed(found[a.id], a.statement)] else found
    ensures Ran(others, before, [a], after)
  {
    assert [a][..0] == [] && RanFrom(others, before, []) == before && AllTold(others, before, []);
    hide Execute, Executed;
  }

  lemma RanMore(others: Others, before: Moment, mine: seq<Answer>, mid: Moment, a: Answer, after: Moment)
    requires Ran(others, before, mine, mid) && Ran(others, mid, [a], after)
    ensures Ran(others, before, mine + [a], after)
  {
    assert (mine + [a])[..|mine|] == mine && (mine + [a])[|mine|] == a;
    assert [a][..0] == [] && RanFrom(others, mid, []) == mid;
    hide Execute, Executed;
  }

  class Table {
    var rows: Rows
    var awaits: nat
    /** The statements this process ran itself, oldest first. */
    var ran: seq<Answer>

    constructor (rows: Rows)
      ensures this.rows == rows && ran == []
    {
      this.rows := rows;
      awaits, ran := 0, [];
    }

    /** A query: the others act, and the table is read. */
    method Await(others: Others)
      modifies this`rows, this`awaits
      ensures rows == others(old(awaits), old(rows)) && awaits == old(awaits) + 1
    {
      rows := others(awaits, rows);
      awaits := awaits + 1;
    }

    function Now(): Moment
      reads this
    {
      Moment(awaits, rows)
    }

    method Run(id: string, st: Statement, others: Others) returns (ok: bool)
      modifies this
      ensures awaits == old(awaits) + 1 && ran == old(ran) + [Answer(id, st, ok)]
      ensures var found := others(old(awaits), old(rows));
              && (ok <==> id in found && Execute(found[id], st).Some?)
              && rows == if id in found then found[id := Executed(found[id], st)] else found
      ensures Ran(others, old(Now()), [Answer(id, st, ok)], Now())
    {
      Await(others);
      ok := id in rows && Execute(rows[id], st).Some?;
      if ok {
        rows := rows[id := Execute(rows[id], st).value];
      } else {
        assert id in rows ==> rows == rows[id := rows[id]];
      }
      ran := ran + [Answer(id, st, ok)];
      RanOne(others, old(Now()), Answer(id, st, ok), Now());
    }
  }
}
