/** The owner table: binding identity-provider subjects to owners at login, and the guard that keeps
    an active admin. */
module Owners {
  import opened Options

  datatype OwnerStatus = Enabled | Disabled
  datatype Role = Admin | Member

  /** Issuer and subject are stored together or not at all. */
  datatype Subject = Subject(issuer: string, sub: string)

  datatype Owner = Owner(
    status: OwnerStatus,
    role: Role,
    subject: Option<Subject>,
    email: Option<string>,
    createdAt: int)

  type OwnerTable = map<string, Owner>

  /** The unique index on (issuer, subject); rows without a subject do not collide. */
  ghost predicate UniqueSubjects(t: OwnerTable) {
    forall a, b :: a in t && b in t && t[a].subject.Some? && t[a].subject == t[b].subject ==> a == b
  }

  predicate SubjectTaken(t: OwnerTable, subject: Subject, except: string) {
    exists id <- t :: id != except && t[id].subject == Some(subject)
  }

  ghost predicate Bound(t: OwnerTable, id: string, subject: Subject) {
    id in t && t[id].subject == Some(subject)
  }

  predicate IsActiveAdmin(o: Owner) {
    o.status.Enabled? && o.role.Admin?
  }

  predicate HasAdmin(t: OwnerTable) {
    exists id <- t :: IsActiveAdmin(t[id])
  }

  function ActiveAdmins(t: OwnerTable): set<string> {
    set id <- t | IsActiveAdmin(t[id])
  }

  // ---------- What logins may do to the table ----------

  /** No row goes, no status or role changes, subjects stay unique. */
  ghost predicate KeepsRows(t: OwnerTable, u: OwnerTable) {
    && UniqueSubjects(u)
    && (forall id <- t :: id in u && u[id].status == t[id].status && u[id].role == t[id].role)
  }

  /** Nor does a bound row change its subject. */
  ghost predicate Logins(t: OwnerTable, u: OwnerTable) {
    KeepsRows(t, u) && forall id <- t :: t[id].subject.Some? ==> u[id].subject == t[id].subject
  }

  lemma LoginsCompose(t: OwnerTable, u: OwnerTable, v: OwnerTable)
    requires Logins(t, u) && Logins(u, v)
    ensures Logins(t, v)
  {
  }

  lemma AdminStays(t: OwnerTable, u: OwnerTable)
    requires KeepsRows(t, u) && HasAdmin(t)
    ensures HasAdmin(u)
  {
  }

  // ---------- Statements ----------

  datatype Identity = Identity(subject: Subject, email: string)

  /** An UPDATE that finds no row, or breaks the unique index, changes nothing. */
  datatype Write = Written(table: OwnerTable) | NoRow | UniqueViolation

  function UpdateIdentity(t: OwnerTable, id: string, who: Identity): Write {
    if id !in t then NoRow
    else if SubjectTaken(t, who.subject, id) then UniqueViolation
    else Written(t[id := t[id].(subject := Some(who.subject), email := Some(who.email))])
  }

  function InsertProvisioned(t: OwnerTable, id: string, who: Identity, role: Role, now: int): Write {
    if id in t || SubjectTaken(t, who.subject, id) then UniqueViolation
    else Written(t[id := Owner(Enabled, role, Some(who.subject), Some(who.email), now)])
  }

  predicate CanBind(o: Owner, subject: Subject) {
    o.subject.None? || o.subject == Some(subject)
  }

  /** Writing an identity always keeps the rows, and it keeps every binding exactly when the row, as
      the write finds it, is unbound or bound to that very subject. */
  lemma UpdateKeepsBindingsIff(t: OwnerTable, id: string, who: Identity)
    requires UniqueSubjects(t) && UpdateIdentity(t, id, who).Written?
    ensures KeepsRows(t, UpdateIdentity(t, id, who).table)
    ensures Logins(t, UpdateIdentity(t, id, who).table) <==> CanBind(t[id], who.subject)
  {
    assert id in t;
  }

  lemma InsertKeeps(t: OwnerTable, id: string, who: Identity, role: Role, now: int)
    requires UniqueSubjects(t) && InsertProvisioned(t, id, who, role, now).Written?
    ensures Logins(t, InsertProvisioned(t, id, who, role, now).table)
  {
  }

  // ---------- Every interleaving of logins, statement by statement ----------

  /** The statements by which logins change the table. */
  datatype LoginStatement = Bind(id: string, who: Identity) | Insert(id: string, who: Identity, role: Role, now: int)

  function RunStatement(t: OwnerTable, st: LoginStatement): OwnerTable {
    var w := match st
      case Bind(id, who) => UpdateIdentity(t, id, who)
      case Insert(id, who, role, now) => InsertProvisioned(t, id, who, role, now);
    if w.Written? then w.table else t
  }

  function RunAll(t: OwnerTable, sts: seq<LoginStatement>): OwnerTable {
    if sts == [] then t else RunStatement(RunAll(t, sts[..|sts| - 1]), sts[|sts| - 1])
  }

  /** The statement gives the row `id` to another subject. */
  predicate Rebinds(t: OwnerTable, st: LoginStatement, id: string, subject: Subject) {
    st.Bind? && st.id == id && st.who.subject != subject && UpdateIdentity(t, id, st.who).Written?
  }

  lemma StatementBinds(t: OwnerTable, st: LoginStatement, id: string, subject: Subject)
    requires UniqueSubjects(t)
    ensures KeepsRows(t, RunStatement(t, st))
    ensures Bound(t, id, subject) ==> (Bound(RunStatement(t, st), id, subject) <==> !Rebinds(t, st, id, subject))
  {
    match st
    case Bind(i, who) => if UpdateIdentity(t, i, who).Written? { UpdateKeepsBindingsIff(t, i, who); }
    case Insert(i, who, role, now) =>
      if InsertProvisioned(t, i, who, role, now).Written? { InsertKeeps(t, i, who, role, now); }
  }

  ghost predicate AlwaysBound(t: OwnerTable, sts: seq<LoginStatement>, id: string, subject: Subject) {
    forall i :: 0 <= i <= |sts| ==> Bound(RunAll(t, sts[..i]), id, subject)
  }

  ghost predicate NeverRebound(t: OwnerTable, sts: seq<LoginStatement>, id: string, subject: Subject) {
    forall k :: 0 <= k < |sts| ==> !Rebinds(RunAll(t, sts[..k]), sts[k], id, subject)
  }

  /** Over any interleaving of any number of logins' statements: rows, statuses and an active admin
      stay, no two owners share a subject, and a bound subject stays with its owner throughout exactly
      when no statement writes another subject over it. */
  lemma {:induction false} BoundForGoodIff(t: OwnerTable, sts: seq<LoginStatement>, id: string, subject: Subject)
    requires UniqueSubjects(t) && Bound(t, id, subject)
    ensures KeepsRows(t, RunAll(t, sts)) && (HasAdmin(t) ==> HasAdmin(RunAll(t, sts)))
    ensures AlwaysBound(t, sts, id, subject) <==> NeverRebound(t, sts, id, subject)
  {
    if sts != [] {
      var n := |sts| - 1;
      var u := RunAll(t, sts[..n]);
      assert RunAll(t, sts) == RunStatement(u, sts[n]);
      hide RunAll, RunStatement, Rebinds, Bound, UniqueSubjects;
      assert forall k :: 0 <= k <= n ==> sts[..n][..k] == sts[..k];
      assert forall k :: 0 <= k < n ==> sts[..n][k] == sts[k];
      assert sts[..n + 1] == sts;
      BoundForGoodIff(t, sts[..n], id, subject);
      RowsAreUnique(t, u);
      StatementBinds(u, sts[n], id, subject);
      if HasAdmin(t) { AdminStays(u, RunAll(t, sts)); }
      assert AlwaysBound(t, sts, id, subject)
        <==> AlwaysBound(t, sts[..n], id, subject) && Bound(RunAll(t, sts), id, subject);
      assert NeverRebound(t, sts, id, subject)
        <==> NeverRebound(t, sts[..n], id, subject) && !Rebinds(u, sts[n], id, subject);
      assert AlwaysBound(t, sts[..n], id, subject) ==> Bound(RunAll(t, sts[..n]), id, subject);
    }
  }

  lemma RowsAreUnique(t: OwnerTable, u: OwnerTable)
    requires KeepsRows(t, u)
    ensures UniqueSubjects(u)
  {
  }

  /** It happens: two first logins that both read an unbound row before either writes it leave it with
      the second one's subject, and the first one's subject with no owner.  Seen from the start the row
      was free; it is the binding made in between that is lost. */
  lemma BindRaceRebinds(t: OwnerTable, id: string, first: Identity, second: Identity)
    requires UniqueSubjects(t) && id in t && t[id].subject.None? && first.subject != second.subject
    requires !SubjectTaken(t, first.subject, id) && !SubjectTaken(t, second.subject, id)
    ensures CanBind(t[id], first.subject) && CanBind(t[id], second.subject)
    ensures var u := RunAll(t, [Bind(id, first)]);
            var v := RunAll(t, [Bind(id, first), Bind(id, second)]);
            && Bound(u, id, first.subject) && Rebinds(u, Bind(id, second), id, first.subject)
            && Bound(v, id, second.subject) && (forall o :: !Bound(v, o, first.subject))
            && Logins(t, u) && Logins(t, v) && !Logins(u, v)
  {
    var u := UpdateIdentity(t, id, first).table;
    assert [Bind(id, first)][..0] == [] && [Bind(id, first), Bind(id, second)][..1] == [Bind(id, first)];
    assert !SubjectTaken(u, second.subject, id);
    assert RunAll(t, [Bind(id, first)]) == u;
    UpdateKeepsBindingsIff(t, id, first);
    UpdateKeepsBindingsIff(u, id, second);
  }

  // ---------- A login ----------

  datatype Login = Login(who: Identity, hint: Option<string>, role: Option<Role>, now: int)

  datatype Resolved = Signed(ownerId: string) | Refused(ownerId: string) | Error

  /** What other logins did to the table before this login's `k`-th statement. */
  type Others = (nat, OwnerTable) -> OwnerTable

  /** All that other logins are sure to keep. */
  ghost predicate OnlyRows(others: Others) {
    forall k, t :: UniqueSubjects(t) ==> KeepsRows(t, others(k, t))
  }

  /** Other logins that overwrite no binding. */
  ghost predicate OnlyLogins(others: Others) {
    forall k, t :: UniqueSubjects(t) ==> Logins(t, others(k, t))
  }

  /** No other login runs. */
  ghost predicate Alone(others: Others) {
    forall k, t :: others(k, t) == t
  }

  /** The identity this login wrote: onto which row, and the table as that write found it. */
  datatype Wrote = Wrote(found: OwnerTable, id: string)

  /** What a login did from `t` to `u`.  The identity write, if there was one, was its last statement. */
  ghost predicate Did(t: OwnerTable, u: OwnerTable, who: Identity, wrote: Option<Wrote>, orderly: bool) {
    && KeepsRows(t, u)
    && (wrote.Some? ==>
          KeepsRows(t, wrote.value.found) && UpdateIdentity(wrote.value.found, wrote.value.id, who) == Written(u))
    && (orderly ==> Logins(t, u) && (wrote.Some? ==> Logins(t, wrote.value.found)))
  }

  lemma DidAfter(s: OwnerTable, t: OwnerTable, u: OwnerTable, who: Identity, wrote: Option<Wrote>, orderly: bool)
    requires KeepsRows(s, t) && (orderly ==> Logins(s, t)) && Did(t, u, who, wrote, orderly)
    ensures Did(s, u, who, wrote, orderly)
  {
    hide UniqueSubjects, UpdateIdentity;
    if orderly {
      LoginsCompose(s, t, u);
      if wrote.Some? { LoginsCompose(s, t, wrote.value.found); }
    }
  }

  /** Owner ids as logins derive them from an email address, and lower-casing as the database does it. */
  datatype Naming = Naming(derive: string -> string, lower: string -> string, suffixed: (string, int) -> string)

  // ---------- What one login by itself decides ----------

  /** An empty hint is no hint. */
  predicate Hinted(login: Login) {
    login.hint.Some? && login.hint.value != ""
  }

  predicate MatchesEmail(o: Owner, email: string, naming: Naming) {
    o.subject.None? && o.email.Some? && naming.lower(o.email.value) == naming.lower(email)
  }

  predicate OldestUnbound(t: OwnerTable, id: string, email: string, naming: Naming) {
    && id in t && MatchesEmail(t[id], email, naming)
    && forall o <- t :: MatchesEmail(t[o], email, naming) ==> t[id].createdAt <= t[o].createdAt
  }

  /** `base`, then `base-2` up to `base-999`. */
  function Candidate(base: string, k: int, naming: Naming): string {
    if k == 1 then base else naming.suffixed(base, k)
  }

  ghost predicate FirstFree(t: OwnerTable, base: string, id: string, naming: Naming) {
    exists k :: 1 <= k < 1000 && id == Candidate(base, k, naming) && id !in t
                && forall j :: 1 <= j < k ==> Candidate(base, j, naming) in t
  }

  ghost predicate NoneFree(t: OwnerTable, base: string, naming: Naming) {
    forall j :: 1 <= j < 1000 ==> Candidate(base, j, naming) in t
  }

  /** A new row is an enabled one; it is an admin's when that is asked for or nobody else is one. */
  function Provisioned(t: OwnerTable, id: string, login: Login): OwnerTable {
    var role := if login.role == Some(Admin) || !HasAdmin(t) then Admin else Member;
    t[id := Owner(Enabled, role, Some(login.who.subject), Some(login.who.email), login.now)]
  }

  /** The existing row `id` is signed in to, and carries the identity, unless it is disabled. */
  ghost predicate SignsIn(t: OwnerTable, u: OwnerTable, id: string, who: Identity, r: Resolved) {
    id in t
    && if t[id].status.Enabled?
       then r == Signed(id) && u == t[id := t[id].(subject := Some(who.subject), email := Some(who.email))]
       else r == Refused(id) && u == t
  }

  ghost predicate ProvisionsDerived(t: OwnerTable, u: OwnerTable, login: Login, naming: Naming, r: Resolved) {
    var base := naming.derive(login.who.email);
    match r
    case Signed(id) => FirstFree(t, base, id, naming) && u == Provisioned(t, id, login)
    case Refused(_) => false
    case Error => NoneFree(t, base, naming) && u == t
  }

  /** The row the subject has; else the hinted row, made if there is none and passed over if it is
      someone else's; else, without a hint, the oldest unbound row with the address; else a new row
      under the first free id derived from the address. */
  ghost predicate Decides(t: OwnerTable, u: OwnerTable, login: Login, naming: Naming, r: Resolved) {
    var who := login.who;
    if exists id :: Bound(t, id, who.subject) then exists id :: Bound(t, id, who.subject) && SignsIn(t, u, id, who, r)
    else if Hinted(login) then
      var hint := login.hint.value;
      if hint !in t then r == Signed(hint) && u == Provisioned(t, hint, login)
      else if CanBind(t[hint], who.subject) then SignsIn(t, u, hint, who, r)
      else ProvisionsDerived(t, u, login, naming, r)
    else if exists id <- t :: MatchesEmail(t[id], who.email, naming) then
      exists id :: OldestUnbound(t, id, who.email, naming) && SignsIn(t, u, id, who, r)
    else ProvisionsDerived(t, u, login, naming, r)
  }

  ghost predicate Unknown(t: OwnerTable, subject: Subject) {
    forall id :: !Bound(t, id, subject)
  }

  class OwnerRepository {
    var owners: OwnerTable
    var statements: nat

    constructor (owners: OwnerTable)
      ensures this.owners == owners
    {
      this.owners := owners;
      statements := 0;
    }

    /** An await: any number of other logins. */
    method Await(others: Others)
      requires UniqueSubjects(owners) && OnlyRows(others)
      modifies this
      ensures KeepsRows(old(owners), owners)
      ensures OnlyLogins(others) ==> Logins(old(owners), owners)
      ensures statements == old(statements) + 1 && owners == others(statements, old(owners))
    {
      statements := statements + 1;
      owners := others(statements, owners);
    }

    method GetByIdp(subject: Subject) returns (found: Option<string>)
      ensures found.Some? ==> Bound(owners, found.value, subject)
      ensures found.None? ==> Unknown(owners, subject)
    {
      if id :| id in owners && owners[id].subject == Some(subject) {
        found := Some(id);
      } else {
        found := None;
      }
    }

    /** The oldest row with this address and no subject. */
    method GetUnboundByEmail(email: string, naming: Naming) returns (found: Option<string>)
      ensures found.Some? ==> OldestUnbound(owners, found.value, email, naming)
      ensures found.None? ==> forall id <- owners :: !MatchesEmail(owners[id], email, naming)
      ensures found.Some? ==>
                && found.value in owners && owners[found.value].subject.None? && owners[found.value].email.Some?
                && naming.lower(owners[found.value].email.value) == naming.lower(email)
      ensures forall id <- owners | owners[id].subject.None? && owners[id].email.Some?
                                    && naming.lower(owners[id].email.value) == naming.lower(email) ::
                found.Some? && owners[found.value].createdAt <= owners[id].createdAt
    {
      var matching := set id <- owners | MatchesEmail(owners[id], email, naming);
      found := None;
      var left := matching;
      while left != {}
        invariant left <= matching && (found.None? ==> left == matching)
        invariant found.Some? ==> found.value in matching
                                  && forall o <- matching - left :: owners[found.value].createdAt <= owners[o].createdAt
        decreases left
      {
        var id :| id in left;
        if found.None? || owners[id].createdAt < owners[found.value].createdAt {
          found := Some(id);
        }
        left := left - {id};
      }
      assert forall id <- owners :: MatchesEmail(owners[id], email, naming) ==> id in matching;
    }

    /** The UPDATE, on the table as it is by then. */
    method WriteIdentity(id: string, who: Identity, others: Others)
      returns (result: Resolved, ghost wrote: Option<Wrote>)
      requires UniqueSubjects(owners) && OnlyRows(others) && id in owners && owners[id].status.Enabled?
      requires CanBind(owners[id], who.subject)
      modifies this
      ensures Did(old(owners), owners, who, wrote, OnlyLogins(others))
      ensures wrote.Some? <==> result == Signed(id)
      ensures result == Signed(id) || result == Error
      ensures wrote.Some? ==> wrote.value.id == id && Bound(owners, id, who.subject) && owners[id].status.Enabled?
      ensures OnlyLogins(others) && Bound(old(owners), id, who.subject) ==> result == Signed(id)
      ensures Alone(others) && NobodyElse(old(owners), id, who.subject) ==>
                SignsIn(old(owners), owners, id, who, result)
    {
      ghost var start := owners;
      Await(others);
      ghost var found := owners;
      match UpdateIdentity(owners, id, who) {
        case Written(table) =>
          UpdateKeepsBindingsIff(owners, id, who);
          owners := table;
          result, wrote := Signed(id), Some(Wrote(found, id));
        case NoRow => result, wrote := Error, None;
        case UniqueViolation => result, wrote := Error, None;
      }
      WriteDid(start, found, owners, id, who, wrote, OnlyLogins(others));
    }

    /** Passed over when the row, as just read, is someone else's; refused when it is disabled. */
    method BindOrReject(id: string, who: Identity, others: Others)
      returns (result: Option<Resolved>, ghost wrote: Option<Wrote>)
      requires id in owners && UniqueSubjects(owners) && OnlyRows(others)
      modifies this
      ensures Did(old(owners), owners, who, wrote, OnlyLogins(others))
      ensures result.None? <==> !CanBind(old(owners)[id], who.subject)
      ensures result.None? ==> owners == old(owners)
      ensures result.Some? ==> Signs(owners, result.value, who.subject)
      ensures wrote.Some? ==> wrote.value.id == id && result == Some(Signed(id))
      ensures result.Some? && result.value.Refused? ==> result.value.ownerId == id && owners == old(owners)
      ensures CanBind(old(owners)[id], who.subject) && Unknown(old(owners), who.subject) && Alone(others) ==>
                result.Some? && SignsIn(old(owners), owners, id, who, result.value)
    {
      wrote := None;
      if !CanBind(owners[id], who.subject) {
        return None, None;
      }
      if owners[id].status.Disabled? {
        return Some(Refused(id)), None;
      }
      UnknownIsFree(owners, id, who.subject);
      var written;
      written, wrote := WriteIdentity(id, who, others);
      result := Some(written);
    }

    /** A subject that is bound already signs in as its owner, or is refused if that is disabled. */
    method ResolveExistingByIdp(who: Identity, others: Others)
      returns (result: Option<Resolved>, ghost wrote: Option<Wrote>)
      requires UniqueSubjects(owners) && OnlyRows(others)
      modifies this
      ensures Did(old(owners), owners, who, wrote, OnlyLogins(others))
      ensures result.Some? ==> Signs(owners, result.value, who.subject)
      ensures wrote.Some? ==> result == Some(Signed(wrote.value.id))
      ensures OnlyLogins(others) ==> forall id :: Bound(old(owners), id, who.subject) ==>
                result.Some? && (result.value == Signed(id) || result.value == Refused(id))
      ensures Alone(others) ==>
                if result.None? then owners == old(owners) && Unknown(owners, who.subject)
                else exists id :: Bound(old(owners), id, who.subject)
                                  && SignsIn(old(owners), owners, id, who, result.value)
    {
      ghost var start := owners;
      wrote := None;
      Await(others);
      ghost var seen := owners;
      assert OnlyLogins(others) ==> forall id :: Bound(start, id, who.subject) ==> Bound(owners, id, who.subject);
      var found := GetByIdp(who.subject);
      if found.None? {
        return None, None;
      }
      var id := found.value;
      if owners[id].status.Disabled? {
        return Some(Refused(id)), None;
      }
      BoundIsOnly(owners, id, who.subject);
      var written;
      written, wrote := WriteIdentity(id, who, others);
      DidAfter(start, seen, owners, who, wrote, OnlyLogins(others));
      result := Some(written);
    }

    /** Admin when asked for, or when there is no active admin. */
    method RoleForNewOwner(hinted: Option<Role>, others: Others) returns (role: Role)
      requires UniqueSubjects(owners) && OnlyRows(others)
      modifies this
      ensures KeepsRows(old(owners), owners) && (OnlyLogins(others) ==> Logins(old(owners), owners))
      ensures role.Admin? || HasAdmin(owners)
      ensures Alone(others) ==> owners == old(owners)
                                && role == if hinted == Some(Admin) || !HasAdmin(owners) then Admin else Member
    {
      if hinted == Some(Admin) {
        return Admin;
      }
      Await(others);
      role := if HasAdmin(owners) then Member else Admin;
    }

    /** Inserts a new owner; false on a unique violation. */
    method InsertProvisionedOwner(id: string, login: Login, others: Others) returns (inserted: bool)
      requires UniqueSubjects(owners) && OnlyRows(others)
      modifies this
      ensures KeepsRows(old(owners), owners) && (OnlyLogins(others) ==> Logins(old(owners), owners))
      ensures inserted ==> id !in old(owners) && Bound(owners, id, login.who.subject) && owners[id].status.Enabled?
      ensures inserted ==> HasAdmin(owners)
      ensures Alone(others) && id !in old(owners) && Unknown(old(owners), login.who.subject) ==>
                inserted && owners == Provisioned(old(owners), id, login)
    {
      var role := RoleForNewOwner(login.role, others);
      ghost var seen := owners;
      Await(others);
      UnknownIsFree(owners, id, login.who.subject);
      match InsertProvisioned(owners, id, login.who, role, login.now) {
        case Written(table) =>
          if role.Member? { AdminStays(seen, owners); }
          InsertKeeps(owners, id, login.who, role, login.now);
          owners := table;
          return true;
        case NoRow => return false;
        case UniqueViolation => return false;
      }
    }

    /** The first of `base`, `base-2`, … `base-999` that no owner has; None when all are taken. */
    method AllocateOwnerId(base: string, naming: Naming, others: Others) returns (id: Option<string>)
      requires UniqueSubjects(owners) && OnlyRows(others)
      modifies this
      ensures KeepsRows(old(owners), owners) && (OnlyLogins(others) ==> Logins(old(owners), owners))
      ensures id.Some? ==> id.value !in owners
      ensures Alone(others) ==> owners == old(owners)
      ensures Alone(others) && id.Some? ==> FirstFree(owners, base, id.value, naming)
      ensures Alone(others) && id.None? ==> NoneFree(owners, base, naming)
    {
      Await(others);
      if base !in owners {
        assert Candidate(base, 1, naming) == base;
        return Some(base);
      }
      var suffix := 2;
      while suffix < 1000
        invariant 2 <= suffix <= 1000 && KeepsRows(old(owners), owners)
        invariant OnlyLogins(others) ==> Logins(old(owners), owners)
        invariant Alone(others) ==> owners == old(owners)
        invariant Alone(others) ==> forall j :: 1 <= j < suffix ==> Candidate(base, j, naming) in owners
      {
        Await(others);
        var candidate := naming.suffixed(base, suffix);
        assert candidate == Candidate(base, suffix, naming);
        if candidate !in owners {
          return Some(candidate);
        }
        suffix := suffix + 1;
      }
      return None;
    }

    /** A new owner under an id derived from the address, tried again when another login takes it. */
    method ProvisionDerived(login: Login, naming: Naming, others: Others)
      returns (result: Resolved, inserted: bool, ghost wrote: Option<Wrote>)
      requires UniqueSubjects(owners) && OnlyRows(others)
      modifies this
      ensures Did(old(owners), owners, login.who, wrote, OnlyLogins(others))
      ensures Signs(owners, result, login.who.subject)
      ensures wrote.Some? ==> result == Signed(wrote.value.id)
      ensures inserted ==> result.Signed? && result.ownerId !in old(owners) && HasAdmin(owners)
      ensures Alone(others) && Unknown(old(owners), login.who.subject) ==>
                ProvisionsDerived(old(owners), owners, login, naming, result)
    {
      hide Provisioned, FirstFree, NoneFree, SignsIn, UpdateIdentity, HasAdmin;
      ghost var start := owners;
      wrote := None;
      for attempt := 0 to 5
        invariant KeepsRows(start, owners) && (OnlyLogins(others) ==> Logins(start, owners))
        invariant Alone(others) && Unknown(start, login.who.subject) ==> attempt == 0 && owners == start
      {
        var candidate := AllocateOwnerId(naming.derive(login.who.email), naming, others);
        if candidate.None? {
          return Error, false, None;
        }
        var created := InsertProvisionedOwner(candidate.value, login, others);
        if created {
          return Signed(candidate.value), true, None;
        }
        ghost var before := owners;
        var raced;
        raced, wrote := ResolveExistingByIdp(login.who, others);
        DidAfter(start, before, owners, login.who, wrote, OnlyLogins(others));
        if raced.Some? {
          return raced.value, false, wrote;
        }
      }
      return Error, false, None;
    }

    /** Another login took the hinted id, or the subject, first. */
    method ResolveAfterRace(hint: string, who: Identity, others: Others)
      returns (result: Option<Resolved>, ghost wrote: Option<Wrote>)
      requires UniqueSubjects(owners) && OnlyRows(others)
      modifies this
      ensures Did(old(owners), owners, who, wrote, OnlyLogins(others))
      ensures result.Some? ==> Signs(owners, result.value, who.subject)
      ensures wrote.Some? ==> result == Some(Signed(wrote.value.id))
    {
      hide SignsIn, UpdateIdentity;
      ghost var start := owners;
      result, wrote := ResolveExistingByIdp(who, others);
      if result.None? {
        Await(others);
        ghost var before := owners;
        if hint in owners {
          result, wrote := BindOrReject(hint, who, others);
          DidAfter(start, before, owners, who, wrote, OnlyLogins(others));
        }
      }
    }

    /** The hinted row is signed in to, or made; None when it is someone else's. */
    method ResolveHinted(hint: string, login: Login, others: Others)
      returns (result: Option<Resolved>, inserted: bool, ghost wrote: Option<Wrote>)
      requires UniqueSubjects(owners) && OnlyRows(others)
      modifies this
      ensures Did(old(owners), owners, login.who, wrote, OnlyLogins(others))
      ensures result.Some? ==> Signs(owners, result.value, login.who.subject)
      ensures wrote.Some? ==> result == Some(Signed(wrote.value.id))
      ensures inserted ==>
                result.Some? && result.value.Signed? && result.value.ownerId !in old(owners) && HasAdmin(owners)
      ensures Alone(others) && Unknown(old(owners), login.who.subject) ==>
                if hint !in old(owners)
                then result == Some(Signed(hint)) && owners == Provisioned(old(owners), hint, login)
                else if CanBind(old(owners)[hint], login.who.subject)
                then result.Some? && SignsIn(old(owners), owners, hint, login.who, result.value)
                else result.None? && owners == old(owners)
    {
      hide Provisioned, SignsIn, UpdateIdentity, HasAdmin;
      ghost var start := owners;
      result, inserted, wrote := None, false, None;
      Await(others);
      ghost var before := owners;
      if hint in owners {
        result, wrote := BindOrReject(hint, login.who, others);
        DidAfter(start, before, owners, login.who, wrote, OnlyLogins(others));
      } else {
        inserted := InsertProvisionedOwner(hint, login, others);
        if inserted {
          return Some(Signed(hint)), true, None;
        }
        before := owners;
        result, wrote := ResolveAfterRace(hint, login.who, others);
        DidAfter(start, before, owners, login.who, wrote, OnlyLogins(others));
      }
    }

    method ResolveByEmail(login: Login, naming: Naming, others: Others)
      returns (result: Option<Resolved>, ghost wrote: Option<Wrote>)
      requires UniqueSubjects(owners) && OnlyRows(others)
      modifies this
      ensures Did(old(owners), owners, login.who, wrote, OnlyLogins(others))
      ensures result.Some? ==> Signs(owners, result.value, login.who.subject)
      ensures wrote.Some? ==> result == Some(Signed(wrote.value.id))
      ensures Alone(others) && Unknown(old(owners), login.who.subject) ==>
                match result
                case Some(r) => exists id :: OldestUnbound(old(owners), id, login.who.email, naming)
                                             && SignsIn(old(owners), owners, id, login.who, r)
                case None => owners == old(owners)
                             && forall id <- owners :: !MatchesEmail(owners[id], login.who.email, naming)
    {
      hide SignsIn, OldestUnbound, MatchesEmail, UpdateIdentity;
      ghost var start := owners;
      Await(others);
      ghost var before := owners;
      var byEmail := GetUnboundByEmail(login.who.email, naming);
      if byEmail.None? {
        return None, None;
      }
      UnboundCanBind(owners, byEmail.value, login.who, naming);
      result, wrote := BindOrReject(byEmail.value, login.who, others);
      DidAfter(start, before, owners, login.who, wrote, OnlyLogins(others));
    }

    /** Resolves a subject to an owner, creating one on its first login, while any number of other
        logins run between any two of its statements.  `wrote` is the identity it wrote, if it did. */
    method ResolveOrProvisionOwner(login: Login, naming: Naming, others: Others)
      returns (result: Resolved, inserted: bool, ghost wrote: Option<Wrote>)
      requires UniqueSubjects(owners) && OnlyRows(others)
      modifies this
      ensures Did(old(owners), owners, login.who, wrote, OnlyLogins(others))
      ensures KeepsBindings(old(owners), owners, login.who, wrote, OnlyLogins(others))
      ensures Signs(owners, result, login.who.subject)
      ensures wrote.Some? ==> result == Signed(wrote.value.id)
      ensures OnlyLogins(others) ==> forall id :: Bound(old(owners), id, login.who.subject) ==>
                result == Signed(id) || result == Refused(id)
      ensures inserted ==> result.Signed? && result.ownerId !in old(owners) && HasAdmin(owners)
      ensures Alone(others) ==> Decides(old(owners), owners, login, naming, result)
      ensures Alone(others) && Unknown(old(owners), login.who.subject)
              && (login.hint.None? || login.hint.value == "") ==>
                ByAddress(old(owners), login.who.email, naming, result)
    {
      hide Provisioned, ProvisionsDerived, SignsIn, OldestUnbound, MatchesEmail, Signs, UpdateIdentity, HasAdmin;
      hide KeepsBindings, ByAddress;
      ghost var start := owners;
      inserted := false;
      var known;
      known, wrote := ResolveExistingByIdp(login.who, others);
      if known.None? {
        ghost var before := owners;
        if Hinted(login) {
          known, inserted, wrote := ResolveHinted(login.hint.value, login, others);
        } else {
          known, wrote := ResolveByEmail(login, naming, others);
          OldestMatches(start, login.who.email, naming);
        }
        DidAfter(start, before, owners, login.who, wrote, OnlyLogins(others));
      }
      if known.Some? {
        result := known.value;
      } else {
        ghost var before := owners;
        result, inserted, wrote := ProvisionDerived(login, naming, others);
        DidAfter(start, before, owners, login.who, wrote, OnlyLogins(others));
      }
      DidKeepsBindings(start, owners, login.who, wrote, OnlyLogins(others));
      if Alone(others) && Unknown(start, login.who.subject) && (login.hint.None? || login.hint.value == "") {
        UnhintedDecision(start, owners, login, naming, result);
      }
    }
  }

  /** Among logins that overwrite no binding, this one overwrites none that was there when it began; and
      its own identity write overwrites none at all exactly when the row, as that write found it, was
      unbound or already the subject's. */
  ghost predicate KeepsBindings(t: OwnerTable, u: OwnerTable, who: Identity, wrote: Option<Wrote>, orderly: bool) {
    && (orderly ==> Logins(t, u))
    && (wrote.Some? ==>
          && wrote.value.id in wrote.value.found
          && (Logins(wrote.value.found, u) <==> CanBind(wrote.value.found[wrote.value.id], who.subject)))
  }

  lemma DidKeepsBindings(t: OwnerTable, u: OwnerTable, who: Identity, wrote: Option<Wrote>, orderly: bool)
    requires Did(t, u, who, wrote, orderly)
    ensures KeepsBindings(t, u, who, wrote, orderly)
  {
    if wrote.Some? { UpdateKeepsBindingsIff(wrote.value.found, wrote.value.id, who); }
  }

  /** From a row that could be bound when it was read, to the write some awaits later. */
  lemma WriteDid(t: OwnerTable, found: OwnerTable, u: OwnerTable, id: string, who: Identity, wrote: Option<Wrote>,
                 orderly: bool)
    requires KeepsRows(t, found) && (orderly ==> Logins(t, found)) && id in t && CanBind(t[id], who.subject)
    requires if wrote.Some? then wrote.value == Wrote(found, id) && UpdateIdentity(found, id, who) == Written(u)
             else u == found
    ensures Did(t, u, who, wrote, orderly)
  {
    if wrote.Some? { UpdateKeepsBindingsIff(found, id, who); }
  }

  /** Nobody but `id` has the subject. */
  ghost predicate NobodyElse(t: OwnerTable, id: string, subject: Subject) {
    !SubjectTaken(t, subject, id)
  }

  lemma BoundIsOnly(t: OwnerTable, id: string, subject: Subject)
    requires UniqueSubjects(t) && Bound(t, id, subject)
    ensures NobodyElse(t, id, subject)
    ensures forall o :: Bound(t, o, subject) ==> o == id
  {
  }

  lemma OldestMatches(t: OwnerTable, email: string, naming: Naming)
    ensures forall id :: OldestUnbound(t, id, email, naming) ==> id in t && MatchesEmail(t[id], email, naming)
  {
  }

  lemma UnknownIsFree(t: OwnerTable, id: string, subject: Subject)
    ensures Unknown(t, subject) ==> !SubjectTaken(t, subject, id)
  {
    if SubjectTaken(t, subject, id) {
      var o :| o in t && o != id && t[o].subject == Some(subject);
      assert Bound(t, o, subject);
    }
  }

  lemma UnboundCanBind(t: OwnerTable, id: string, who: Identity, naming: Naming)
    requires OldestUnbound(t, id, who.email, naming)
    ensures id in t && CanBind(t[id], who.subject) && MatchesEmail(t[id], who.email, naming)
  {
  }

  /** A signed-in subject is bound to an enabled owner; a refused one was pointed at a disabled owner. */
  ghost predicate Signs(t: OwnerTable, r: Resolved, subject: Subject) {
    match r
    case Signed(id) => Bound(t, id, subject) && t[id].status.Enabled?
    case Refused(id) => id in t && t[id].status.Disabled?
    case Error => true
  }

  // ---------- What a login's decision means, on the rows ----------

  /** A first login without a hint: an existing row it comes to has no subject and has the login's address,
      and is the oldest such row; it comes to a new one, or to none, only if there is no such row. */
  ghost predicate ByAddress(t: OwnerTable, email: string, naming: Naming, r: Resolved) {
    && (forall id <- t :: r == Signed(id) || r == Refused(id) ==>
          t[id].subject.None? && t[id].email.Some? && naming.lower(t[id].email.value) == naming.lower(email))
    && (forall o <- t :: t[o].subject.None? && t[o].email.Some? && naming.lower(t[o].email.value) == naming.lower(email)
          ==> !r.Error? && r.ownerId in t && t[r.ownerId].createdAt <= t[o].createdAt)
  }

  lemma UnhintedDecision(t: OwnerTable, u: OwnerTable, login: Login, naming: Naming, r: Resolved)
    requires Decides(t, u, login, naming, r) && Unknown(t, login.who.subject)
    requires login.hint.None? || login.hint.value == ""
    ensures ByAddress(t, login.who.email, naming, r)
  {
    hide FirstFree, NoneFree, Provisioned;
    assert !exists id :: Bound(t, id, login.who.subject);
    if exists id <- t :: MatchesEmail(t[id], login.who.email, naming) {
      var id :| OldestUnbound(t, id, login.who.email, naming) && SignsIn(t, u, id, login.who, r);
    } else {
      DerivedIsNew(t, u, login, naming, r);
    }
  }

  /** An id derived from the address is one that no owner has, and a derived owner is never refused. */
  lemma DerivedIsNew(t: OwnerTable, u: OwnerTable, login: Login, naming: Naming, r: Resolved)
    requires ProvisionsDerived(t, u, login, naming, r)
    ensures !r.Refused? && (r.Signed? ==> r.ownerId !in t)
  {
  }

  /** A first login with a hint: to the hinted row if there is none yet or it has no subject, whatever its
      address; past it, to a new row, if it is someone else's. */
  lemma HintedDecision(t: OwnerTable, u: OwnerTable, login: Login, naming: Naming, r: Resolved, hint: string)
    requires Decides(t, u, login, naming, r) && Unknown(t, login.who.subject)
    requires login.hint == Some(hint) && hint != ""
    ensures hint !in t ==> r == Signed(hint)
    ensures hint in t && t[hint].subject.None? ==> r == if t[hint].status.Enabled? then Signed(hint) else Refused(hint)
    ensures hint in t && t[hint].subject.Some? ==> r.Error? || (r.Signed? && r.ownerId !in t)
  {
    hide FirstFree, NoneFree, Provisioned;
    assert !exists id :: Bound(t, id, login.who.subject);
    if hint in t && !CanBind(t[hint], login.who.subject) { DerivedIsNew(t, u, login, naming, r); }
    assert hint in t ==> !Bound(t, hint, login.who.subject);
  }

  /** The id of a new owner that was not hinted at: the address's own id, else the least free suffix from 2
      to 999; an error means that all of them are taken. */
  lemma DerivedId(t: OwnerTable, u: OwnerTable, login: Login, naming: Naming, r: Resolved)
    requires ProvisionsDerived(t, u, login, naming, r)
    ensures var base := naming.derive(login.who.email);
            && (base !in t ==> r == Signed(base))
            && (base in t && r.Signed? ==>
                  exists k :: 2 <= k < 1000 && r.ownerId == naming.suffixed(base, k) && r.ownerId !in t
                              && forall j :: 2 <= j < k ==> naming.suffixed(base, j) in t)
            && (r.Error? ==> base in t && forall j :: 2 <= j < 1000 ==> naming.suffixed(base, j) in t)
  {
    hide Provisioned;
    var base := naming.derive(login.who.email);
    assert Candidate(base, 1, naming) == base;
    assert forall j :: 2 <= j ==> Candidate(base, j, naming) == naming.suffixed(base, j);
  }

  /** What a login leaves: nothing changed unless it signed in; else its owner's row carries the subject and
      the address, a new row is an enabled one and an admin's exactly when that was asked for or nobody was
      an active admin, and every other row is as it was. */
  lemma LoginWrites(t: OwnerTable, u: OwnerTable, login: Login, naming: Naming, r: Resolved)
    requires Decides(t, u, login, naming, r)
    ensures !r.Signed? ==> u == t
    ensures r.Signed? ==>
              var id := r.ownerId;
              && u.Keys == t.Keys + {id} && (forall o <- t :: o != id ==> u[o] == t[o])
              && u[id].subject == Some(login.who.subject) && u[id].email == Some(login.who.email)
              && u[id].status.Enabled?
              && (id in t ==> u[id].role == t[id].role && u[id].createdAt == t[id].createdAt)
              && (id !in t ==>
                    && u[id].createdAt == login.now
                    && (u[id].role.Admin? <==>
                          login.role == Some(Admin) || forall o <- t :: !(t[o].status.Enabled? && t[o].role.Admin?)))
  {
    hide FirstFree, NoneFree, OldestUnbound, MatchesEmail, Hinted, CanBind, Provisioned;
    if ProvisionsDerived(t, u, login, naming, r) { DerivedIsNew(t, u, login, naming, r); }
    if r.Signed? && u == Provisioned(t, r.ownerId, login) { ProvisionedRow(t, u, r.ownerId, login); }
  }

  lemma ProvisionedRow(t: OwnerTable, u: OwnerTable, id: string, login: Login)
    requires u == Provisioned(t, id, login)
    ensures u.Keys == t.Keys + {id} && forall o <- t :: o != id ==> u[o] == t[o]
    ensures u[id].createdAt == login.now && u[id].status.Enabled?
    ensures u[id].subject == Some(login.who.subject) && u[id].email == Some(login.who.email)
    ensures u[id].role.Admin? <==>
              login.role == Some(Admin) || forall o <- t :: !(t[o].status.Enabled? && t[o].role.Admin?)
  {
  }

  // ---------- One login after another ----------

  /** What a login by itself decides keeps every binding, and signs its own subject in or refuses it. */
  lemma DecidesKeeps(t: OwnerTable, u: OwnerTable, login: Login, naming: Naming, r: Resolved)
    requires UniqueSubjects(t) && Decides(t, u, login, naming, r)
    ensures Logins(t, u) && Signs(u, r, login.who.subject)
    ensures forall id :: Bound(t, id, login.who.subject) ==>
              r == if t[id].status.Enabled? then Signed(id) else Refused(id)
  {
    hide MatchesEmail, FirstFree, NoneFree, HasAdmin;
    var subject := login.who.subject;
    if id :| Bound(t, id, subject) {
      BoundIsOnly(t, id, subject);
    } else {
      assert Unknown(t, subject);
      forall id { UnknownIsFree(t, id, subject); }
      FreshKeeps(t, u, login, naming, r);
    }
  }

  lemma ProvisionKeeps(t: OwnerTable, id: string, login: Login)
    requires UniqueSubjects(t) && Unknown(t, login.who.subject) && id !in t
    ensures Logins(t, Provisioned(t, id, login)) && Signs(Provisioned(t, id, login), Signed(id), login.who.subject)
  {
    hide HasAdmin;
    forall o <- t ensures t[o].subject != Some(login.who.subject) { assert !Bound(t, o, login.who.subject); }
  }

  lemma SignInKeeps(t: OwnerTable, u: OwnerTable, id: string, who: Identity, r: Resolved)
    requires UniqueSubjects(t) && Unknown(t, who.subject) && SignsIn(t, u, id, who, r) && CanBind(t[id], who.subject)
    ensures Logins(t, u) && Signs(u, r, who.subject)
  {
    forall o <- t ensures t[o].subject != Some(who.subject) { assert !Bound(t, o, who.subject); }
  }

  lemma DerivedKeeps(t: OwnerTable, u: OwnerTable, login: Login, naming: Naming, r: Resolved)
    requires UniqueSubjects(t) && Unknown(t, login.who.subject) && ProvisionsDerived(t, u, login, naming, r)
    ensures Logins(t, u) && Signs(u, r, login.who.subject)
  {
    hide NoneFree, Provisioned, Unknown, HasAdmin;
    if r.Signed? { ProvisionKeeps(t, r.ownerId, login); }
  }

  lemma FreshKeeps(t: OwnerTable, u: OwnerTable, login: Login, naming: Naming, r: Resolved)
    requires UniqueSubjects(t) && Unknown(t, login.who.subject) && Decides(t, u, login, naming, r)
    ensures Logins(t, u) && Signs(u, r, login.who.subject)
  {
    assert !exists id :: Bound(t, id, login.who.subject);
    hide Unknown, Bound, UniqueSubjects, Logins, Signs, SignsIn, Provisioned, ProvisionsDerived, MatchesEmail,
      OldestUnbound, HasAdmin, KeepsRows;
    if Hinted(login) && login.hint.value !in t {
      ProvisionKeeps(t, login.hint.value, login);
    } else if Hinted(login) && CanBind(t[login.hint.value], login.who.subject) {
      SignInKeeps(t, u, login.hint.value, login.who, r);
    } else if !Hinted(login) && exists id <- t :: MatchesEmail(t[id], login.who.email, naming) {
      var id :| OldestUnbound(t, id, login.who.email, naming) && SignsIn(t, u, id, login.who, r);
      UnboundCanBind(t, id, login.who, naming);
      SignInKeeps(t, u, id, login.who, r);
    } else {
      DerivedKeeps(t, u, login, naming, r);
    }
  }

  /** Logins one at a time: what each decided, and the table after it. */
  ghost predicate LoginHistory(tables: seq<OwnerTable>, logins: seq<Login>, results: seq<Resolved>, naming: Naming) {
    && |tables| == |logins| + 1 && |results| == |logins| && UniqueSubjects(tables[0])
    && forall i :: 0 <= i < |logins| ==> Decides(tables[i], tables[i + 1], logins[i], naming, results[i])
  }

  lemma {:induction false} HistoryKeeps(tables: seq<OwnerTable>, logins: seq<Login>, results: seq<Resolved>,
                                        naming: Naming, i: nat, j: nat)
    requires LoginHistory(tables, logins, results, naming) && i <= j < |tables|
    ensures UniqueSubjects(tables[i]) && Logins(tables[i], tables[j])
    decreases i, j - i
  {
    hide Decides;
    if i < j {
      HistoryKeeps(tables, logins, results, naming, i, j - 1);
      DecidesKeeps(tables[j - 1], tables[j], logins[j - 1], naming, results[j - 1]);
      LoginsCompose(tables[i], tables[j - 1], tables[j]);
    } else if i > 0 {
      HistoryKeeps(tables, logins, results, naming, i - 1, i);
    }
  }

  lemma StillSigns(t: OwnerTable, u: OwnerTable, id: string, subject: Subject)
    requires Signs(t, Signed(id), subject) && Logins(t, u)
    ensures Bound(u, id, subject) && u[id].status.Enabled?
  {
  }

  /** A subject that once resolved to an owner resolves to it again, whatever its address or hint has
      become and whoever logged in meanwhile; no login changes a bound owner's subject, and no two
      owners ever share one. */
  lemma SameOwnerAgain(tables: seq<OwnerTable>, logins: seq<Login>, results: seq<Resolved>, naming: Naming,
                       i: nat, j: nat, id: string)
    requires LoginHistory(tables, logins, results, naming)
    requires i < j < |logins| && results[i] == Signed(id) && logins[j].who.subject == logins[i].who.subject
    ensures results[j] == Signed(id)
    ensures Logins(tables[i], tables[j]) && UniqueSubjects(tables[j])
  {
    hide Decides, Logins, UniqueSubjects, KeepsRows;
    HistoryKeeps(tables, logins, results, naming, i, j);
    HistoryKeeps(tables, logins, results, naming, i + 1, j);
    HistoryKeeps(tables, logins, results, naming, j, j);
    var t, u, v, w := tables[i], tables[i + 1], tables[j], tables[j + 1];
    assert Decides(t, u, logins[i], naming, results[i]) && Decides(v, w, logins[j], naming, results[j]);
    hide *;
    LaterLogin(t, u, v, w, logins[i], logins[j], naming, results[i], results[j], id);
  }

  lemma LaterLogin(t: OwnerTable, u: OwnerTable, v: OwnerTable, w: OwnerTable, first: Login, later: Login,
                   naming: Naming, r: Resolved, again: Resolved, id: string)
    requires UniqueSubjects(t) && UniqueSubjects(v) && Logins(u, v) && first.who.subject == later.who.subject
    requires Decides(t, u, first, naming, r) && Decides(v, w, later, naming, again) && r == Signed(id)
    ensures again == Signed(id)
  {
    hide Decides, Logins, UniqueSubjects, Signs;
    DecidesKeeps(t, u, first, naming, r);
    StillSigns(u, v, id, first.who.subject);
    DecidesKeeps(v, w, later, naming, again);
  }

  // ---------- The last active admin ----------

  /** The guard: `next` is the row after an update, None for a removal. */
  predicate RemovesLastActiveAdmin(t: OwnerTable, owner: Owner, next: Option<Owner>) {
    if !IsActiveAdmin(owner) then false
    else if next.Some? && IsActiveAdmin(next.value) then false
    else |ActiveAdmins(t)| <= 1
  }

  function Changed(t: OwnerTable, id: string, next: Option<Owner>): OwnerTable {
    if next.Some? then t[id := next.value] else t - {id}
  }

  /** On the table as it is, the guard refuses exactly the changes that would leave no active admin. */
  lemma GuardIsExact(t: OwnerTable, id: string, next: Option<Owner>)
    requires id in t && HasAdmin(t)
    ensures RemovesLastActiveAdmin(t, t[id], next) <==> !HasAdmin(Changed(t, id, next))
  {
    var admins, u := ActiveAdmins(t), Changed(t, id, next);
    if IsActiveAdmin(t[id]) {
      if next.Some? && IsActiveAdmin(next.value) {
        assert id in u;
      } else if |admins| <= 1 {
        SingletonOnly(admins, id);
        assert forall y <- u :: y != id && IsActiveAdmin(u[y]) ==> y in admins;
      } else {
        assert |admins - {id}| == |admins| - 1;
        var other :| other in admins - {id};
        assert other in u && IsActiveAdmin(u[other]);
      }
    } else {
      var a :| a in t && IsActiveAdmin(t[a]);
      assert a in u && IsActiveAdmin(u[a]);
    }
  }

  lemma SingletonOnly(s: set<string>, x: string)
    requires x in s && |s| <= 1
    ensures forall y <- s :: y == x
  {
    assert |s - {x}| == |s| - 1;
  }

  ghost predicate GuardedChange(t: OwnerTable, u: OwnerTable) {
    exists id, next :: id in t && !RemovesLastActiveAdmin(t, t[id], next) && u == Changed(t, id, next)
  }

  /** One request after another: logins, and updates and removals behind the guard. */
  ghost predicate AdminHistory(tables: seq<OwnerTable>) {
    && |tables| >= 1
    && (|tables| > 1 ==>
          (KeepsRows(tables[0], tables[1]) || GuardedChange(tables[0], tables[1])) && AdminHistory(tables[1..]))
  }

  /** Once there is an active admin there is always one. */
  lemma {:induction false} AdminForGood(tables: seq<OwnerTable>)
    requires AdminHistory(tables) && HasAdmin(tables[0])
    ensures HasAdmin(tables[|tables| - 1])
  {
    if |tables| > 1 {
      var t, u := tables[0], tables[1];
      if KeepsRows(t, u) {
        AdminStays(t, u);
      } else {
        var id, next :| id in t && !RemovesLastActiveAdmin(t, t[id], next) && u == Changed(t, id, next);
        GuardIsExact(t, id, next);
      }
      AdminForGood(tables[1..]);
      assert tables[1..][|tables| - 2] == tables[|tables| - 1];
    }
  }

  /** The guard reads the table before the change is written: two requests that each demote one of
      the last two active admins both pass it, and then there is none. */
  lemma GuardRace(t: OwnerTable, a: string, b: string)
    requires a in t && b in t && a != b && ActiveAdmins(t) == {a, b}
    ensures var demotedA, demotedB := t[a].(role := Member), t[b].(role := Member);
            && !RemovesLastActiveAdmin(t, t[a], Some(demotedA)) && !RemovesLastActiveAdmin(t, t[b], Some(demotedB))
            && !HasAdmin(Changed(Changed(t, a, Some(demotedA)), b, Some(demotedB)))
  {
    var u := t[a := t[a].(role := Member)][b := t[b].(role := Member)];
    forall id <- u ensures !IsActiveAdmin(u[id]) {
      assert id != a && id != b ==> id !in ActiveAdmins(t);
    }
  }

  datatype Patch = Patch(status: Option<OwnerStatus>, role: Option<Role>)

  function Patched(o: Owner, patch: Patch): Owner {
    o.(status := if patch.status.Some? then patch.status.value else o.status,
       role := if patch.role.Some? then patch.role.value else o.role)
  }

  /** What an update leaves of a row that was read as `read`: status and role as the patch gives them, or as
      they were read; and the rest as the row has it. */
  lemma PatchWrites(o: Owner, read: Owner, patch: Patch)
    ensures var u := Repatched(o, read, patch);
            && (patch.status.Some? ==> u.status == patch.status.value)
            && (patch.status.None? ==> u.status == read.status)
            && (patch.role.Some? ==> u.role == patch.role.value) && (patch.role.None? ==> u.role == read.role)
            && u.subject == o.subject && u.email == o.email && u.createdAt == o.createdAt
            && (o == read ==> u == Patched(read, patch))
  {
  }

  datatype Reply = Done | NotFound | LastAdmin | CleanupFailed

  class OwnersController {
    var owners: OwnerTable
    var statements: nat

    constructor (owners: OwnerTable)
      ensures this.owners == owners
    {
      this.owners := owners;
      statements := 0;
    }

    /** An await: any other requests. */
    method Await(others: Others)
      modifies this
      ensures statements == old(statements) + 1 && owners == others(statements, old(owners))
    {
      statements := statements + 1;
      owners := others(statements, owners);
    }

    /** PATCH: fields left out keep the value they were read with.  `read`, `asked` and `found` are the
        tables the row was read from, the guard counted in and the write met, as other requests left
        them; those not reached are what the next awaits would have shown. */
    method Update(id: string, patch: Patch, others: Others)
      returns (reply: Reply, ghost read: OwnerTable, ghost asked: OwnerTable, ghost found: OwnerTable)
      modifies this
      ensures Shown(others, old(statements), old(owners), read, asked, found)
      ensures reply == if id !in read then NotFound
                       else if RemovesLastActiveAdmin(asked, read[id], Some(Patched(read[id], patch))) then LastAdmin
                       else if id in found then Done else NotFound
      ensures owners == if reply.Done? then found[id := Repatched(found[id], read[id], patch)]
                        else if id !in read then read else if reply.LastAdmin? then asked else found
      ensures reply.Done? && HasAdmin(found) ==>
                (!HasAdmin(owners) <==> GuardTooEarly(read[id], asked, found, id, Some(owners[id])))
      ensures Alone(others) ==>
                && (reply.NotFound? <==> id !in old(owners))
                && owners == (if reply.Done? then old(owners)[id := Patched(old(owners)[id], patch)] else old(owners))
                && (HasAdmin(old(owners)) && id in old(owners) ==>
                      (reply.LastAdmin? <==> !HasAdmin(old(owners)[id := Patched(old(owners)[id], patch)])))
                && (HasAdmin(old(owners)) ==> HasAdmin(owners))
    {
      asked := others(statements + 2, others(statements + 1, owners));
      found := others(statements + 3, asked);
      Await(others);
      read := owners;
      if id !in owners {
        return NotFound, read, asked, found;
      }
      var existing := owners[id];
      var next := Patched(existing, patch);
      Await(others);
      if HasAdmin(owners) && id in owners { GuardIsExact(owners, id, Some(next)); }
      if RemovesLastActiveAdmin(owners, existing, Some(next)) {
        return LastAdmin, read, asked, found;
      }
      Await(others);
      if id !in owners {
        return NotFound, read, asked, found;
      }
      var row := owners[id].(status := next.status, role := next.role);
      owners := owners[id := row];
      if HasAdmin(found) { GuardTooEarlyIff(existing, asked, found, id, Some(row)); }
      reply := Done;
    }

    /** DELETE; `wiped` is false when the OAuth grant cleaner failed, which leaves the row in place. */
    method Remove(id: string, wiped: bool, others: Others)
      returns (reply: Reply, ghost read: OwnerTable, ghost asked: OwnerTable, ghost found: OwnerTable)
      modifies this
      ensures Shown(others, old(statements), old(owners), read, asked, found)
      ensures reply == if id !in read then NotFound
                       else if RemovesLastActiveAdmin(asked, read[id], None) then LastAdmin
                       else if !wiped then CleanupFailed
                       else if id in found then Done else NotFound
      ensures owners == if reply.Done? then found - {id}
                        else if id !in read then read
                        else if reply.LastAdmin? || reply.CleanupFailed? then asked else found
      ensures reply.Done? && HasAdmin(found) ==>
                (!HasAdmin(owners) <==> GuardTooEarly(read[id], asked, found, id, None))
      ensures Alone(others) ==>
                && (reply.NotFound? <==> id !in old(owners))
                && (HasAdmin(old(owners)) && id in old(owners) ==>
                      && (reply.LastAdmin? <==> !HasAdmin(old(owners) - {id}))
                      && (reply.CleanupFailed? <==> HasAdmin(old(owners) - {id}) && !wiped))
                && (HasAdmin(old(owners)) ==> HasAdmin(owners))
    {
      asked := others(statements + 2, others(statements + 1, owners));
      found := others(statements + 3, asked);
      Await(others);
      read := owners;
      if id !in owners {
        return NotFound, read, asked, found;
      }
      var existing := owners[id];
      Await(others);
      if HasAdmin(owners) && id in owners { GuardIsExact(owners, id, None); }
      if RemovesLastActiveAdmin(owners, existing, None) {
        return LastAdmin, read, asked, found;
      }
      if !wiped {
        return CleanupFailed, read, asked, found;
      }
      Await(others);
      if id !in owners {
        return NotFound, read, asked, found;
      }
      owners := owners - {id};
      if HasAdmin(found) { GuardTooEarlyIff(existing, asked, found, id, None); }
      reply := Done;
    }
  }

  /** The tables of a request's three awaits, from the `k`-th statement on. */
  ghost predicate Shown(others: Others, k: nat, start: OwnerTable, read: OwnerTable, asked: OwnerTable,
                        found: OwnerTable) {
    read == others(k + 1, start) && asked == others(k + 2, read) && found == others(k + 3, asked)
  }

  function Repatched(o: Owner, read: Owner, patch: Patch): Owner {
    var next := Patched(read, patch);
    o.(status := next.status, role := next.role)
  }

  /** The guard let the change pass by what it read, and the write meets a table on which it would not:
      `id` is by then the only active admin, and it was not one when it was read, or there were two
      active admins when the guard counted. */
  predicate GuardTooEarly(read: Owner, asked: OwnerTable, found: OwnerTable, id: string, next: Option<Owner>) {
    && ActiveAdmins(found) == {id} && !(next.Some? && IsActiveAdmin(next.value))
    && (!IsActiveAdmin(read) || |ActiveAdmins(asked)| > 1)
  }

  /** A change that passed the guard takes the last active admin exactly when the guard was asked too early;
      then the row had not been an active admin's when it was read, or another active admin that the
      guard counted was gone when the change was written. */
  lemma GuardTooEarlyIff(read: Owner, asked: OwnerTable, found: OwnerTable, id: string, next: Option<Owner>)
    requires id in found && HasAdmin(found) && !RemovesLastActiveAdmin(asked, read, next)
    ensures !HasAdmin(Changed(found, id, next)) <==> GuardTooEarly(read, asked, found, id, next)
    ensures GuardTooEarly(read, asked, found, id, next) ==>
              !IsActiveAdmin(read) || exists other <- ActiveAdmins(asked) :: other !in ActiveAdmins(found)
  {
    GuardIsExact(found, id, next);
    if !HasAdmin(Changed(found, id, next)) {
      SingletonOnly(ActiveAdmins(found), id);
      assert ActiveAdmins(found) == {id};
    }
    if GuardTooEarly(read, asked, found, id, next) && IsActiveAdmin(read) {
      assert id in ActiveAdmins(found) && IsActiveAdmin(found[id]);
      if ActiveAdmins(asked) <= {id} {
        SubsetSize(ActiveAdmins(asked), {id});
      }
    }
  }

  lemma {:induction false} SubsetSize(s: set<string>, t: set<string>)
    requires s <= t
    ensures |s| <= |t|
  {
    if s != {} {
      var x :| x in s;
      SubsetSize(s - {x}, t - {x});
    }
  }

  /** A change of the row `id` from `found` to `u` keeps an active admin exactly when the guard, asked
      about the table the write found, lets it pass; what an earlier reading said does not matter. */
  ghost predicate GuardDecides(found: OwnerTable, u: OwnerTable, id: string)
    requires id in found
  {
    var next := if id in u then Some(u[id]) else None;
    HasAdmin(found) ==> (HasAdmin(u) <==> !RemovesLastActiveAdmin(found, found[id], next))
  }

  lemma GuardMeets(found: OwnerTable, id: string, next: Option<Owner>)
    requires id in found
    ensures GuardDecides(found, Changed(found, id, next), id)
  {
    if HasAdmin(found) { GuardIsExact(found, id, next); }
  }
}
