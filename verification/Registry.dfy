/** Agents, their persona versions, bearers and grants; the integrity checks run at boot; and the
    removal of owners with their agents. */
module Registry {
  import opened Options

  datatype Agent = Agent(slug: string, ownerId: string, version: int)

  type PersonaKey = (string, int)
  type GrantKey = (string, string)  // bearer, agent

  datatype Tables = Tables(
    owners: set<string>,
    agents: map<string, Agent>,
    personas: map<PersonaKey, string>,
    bearers: set<string>,
    grants: set<GrantKey>)

  // ---------- Integrity ----------

  datatype Fault =
    | DuplicateSlug(slug: string)
    | GrantWithoutAgent(bearer: string, agent: string)
    | GrantWithoutBearer(bearer: string, agent: string)
    | MissingPersona(agent: string, version: int)

  predicate SlugTwice(t: Tables, slug: string) {
    exists a, b :: a in t.agents && b in t.agents && a != b && t.agents[a].slug == slug && t.agents[b].slug == slug
  }

  ghost predicate HasFault(t: Tables, f: Fault) {
    match f
    case DuplicateSlug(slug) => SlugTwice(t, slug)
    case GrantWithoutAgent(b, a) => (b, a) in t.grants && a !in t.agents
    case GrantWithoutBearer(b, a) => (b, a) in t.grants && b !in t.bearers
    case MissingPersona(a, v) => a in t.agents && t.agents[a].version == v && (a, v) !in t.personas
  }

  /** What the statements keep: no fault, and for each agent exactly the versions 1 to its current one. */
  ghost predicate Sound(t: Tables) {
    && (forall a, b :: a in t.agents && b in t.agents && t.agents[a].slug == t.agents[b].slug ==> a == b)
    && (forall g <- t.grants :: g.0 in t.bearers && g.1 in t.agents)
    && (forall k <- t.personas :: k.0 in t.agents && 1 <= k.1 <= t.agents[k.0].version)
    && (forall a, v :: a in t.agents && 1 <= v <= t.agents[a].version ==> (a, v) in t.personas)
    && (forall a <- t.agents :: t.agents[a].version >= 1)
  }

  /** Earlier persona contents stay as they are for as long as their agent does. */
  ghost predicate PersonasKept(t: Tables, u: Tables) {
    forall k <- t.personas :: k.0 in u.agents ==> k in u.personas && u.personas[k] == t.personas[k]
  }

  lemma SoundHasNoFault(t: Tables, f: Fault)
    requires Sound(t)
    ensures !HasFault(t, f)
  {
    if f.MissingPersona? && f.agent in t.agents { assert (f.agent, t.agents[f.agent].version) in t.personas; }
  }

  /** The boot check passes exactly when no two agents share a slug, every grant joins a bearer and an agent
      there are, and every agent's current persona is there. */
  lemma FaultlessIff(t: Tables)
    ensures (forall f :: !HasFault(t, f)) <==>
              && (forall a, b :: a in t.agents && b in t.agents && a != b ==> t.agents[a].slug != t.agents[b].slug)
              && (forall b, a :: (b, a) in t.grants ==> b in t.bearers && a in t.agents)
              && (forall a <- t.agents :: (a, t.agents[a].version) in t.personas)
  {
    if forall f :: !HasFault(t, f) {
      forall a, b | a in t.agents && b in t.agents && a != b ensures t.agents[a].slug != t.agents[b].slug {
        assert !HasFault(t, DuplicateSlug(t.agents[a].slug));
      }
      forall b, a | (b, a) in t.grants ensures b in t.bearers && a in t.agents {
        assert !HasFault(t, GrantWithoutAgent(b, a)) && !HasFault(t, GrantWithoutBearer(b, a));
      }
      forall a <- t.agents ensures (a, t.agents[a].version) in t.personas {
        assert !HasFault(t, MissingPersona(a, t.agents[a].version));
      }
    }
  }

  // ---------- Requests ----------

  datatype Request =
    | CreateAgent(id: string, slug: string, ownerId: string, persona: string)
    | AppendPersona(agent: string, content: string)
    | DeleteAgent(agent: string)
    | CreateBearer(bearer: string)
    | DeleteBearer(bearer: string)
    | GrantAgent(bearer: string, agent: string)
    | EnsureGrant(bearer: string, agent: string)
    | Revoke(bearer: string, agent: string)
    | UpsertOwner(owner: string)
    | DeleteOwnerRow(owner: string)

  /** A statement that breaks a constraint rolls its transaction back. */
  datatype Answer = Done | Missing | UniqueViolation | ForeignKeyViolation

  function Without(t: Tables, agent: string): Tables {
    t.(agents := t.agents - {agent},
       personas := map k <- t.personas | k.0 != agent :: t.personas[k],
       grants := set g <- t.grants | g.1 != agent)
  }

  function Handle(t: Tables, r: Request): (Tables, Answer) {
    match r
    case CreateAgent(id, slug, ownerId, persona) =>
      if id in t.agents || (exists a <- t.agents :: t.agents[a].slug == slug) || (id, 1) in t.personas
      then (t, UniqueViolation)
      else (t.(agents := t.agents[id := Agent(slug, ownerId, 1)], personas := t.personas[(id, 1) := persona]), Done)
    case AppendPersona(agent, content) =>
      if agent !in t.agents then (t, Missing)
      else
        var next := t.agents[agent].version + 1;
        if (agent, next) in t.personas then (t, UniqueViolation)
        else (t.(personas := t.personas[(agent, next) := content],
                 agents := t.agents[agent := t.agents[agent].(version := next)]), Done)
    case DeleteAgent(agent) => if agent in t.agents then (Without(t, agent), Done) else (t, Missing)
    case CreateBearer(bearer) =>
      if bearer in t.bearers then (t, UniqueViolation) else (t.(bearers := t.bearers + {bearer}), Done)
    case DeleteBearer(bearer) =>
      if bearer in t.bearers
      then (t.(bearers := t.bearers - {bearer}, grants := set g <- t.grants | g.0 != bearer), Done)
      else (t, Missing)
    case GrantAgent(bearer, agent) =>
      if (bearer, agent) in t.grants then (t, UniqueViolation)
      else if bearer !in t.bearers || agent !in t.agents then (t, ForeignKeyViolation)
      else (t.(grants := t.grants + {(bearer, agent)}), Done)
    case EnsureGrant(bearer, agent) =>
      if (bearer, agent) in t.grants then (t, Done)
      else if bearer !in t.bearers || agent !in t.agents then (t, ForeignKeyViolation)
      else (t.(grants := t.grants + {(bearer, agent)}), Done)
    case Revoke(bearer, agent) =>
      if (bearer, agent) in t.grants then (t.(grants := t.grants - {(bearer, agent)}), Done) else (t, Missing)
    case UpsertOwner(owner) => (t.(owners := t.owners + {owner}), Done)
    case DeleteOwnerRow(owner) => if owner in t.owners then (t.(owners := t.owners - {owner}), Done) else (t, Missing)
  }

  const EMPTY: Tables := Tables({}, map[], map[], {}, {})

  function After(requests: seq<Request>): Tables {
    if requests == [] then EMPTY else Handle(After(requests[..|requests| - 1]), requests[|requests| - 1]).0
  }

  lemma CreateKeepsSound(t: Tables, r: Request)
    requires Sound(t) && r.CreateAgent?
    ensures Sound(Handle(t, r).0) && PersonasKept(t, Handle(t, r).0)
  {
    var u := Handle(t, r).0;
    if u != t {
      forall k <- u.personas ensures k.0 in u.agents && 1 <= k.1 <= u.agents[k.0].version {
        assert k in t.personas || k == (r.id, 1);
        assert k in t.personas ==> k.0 in t.agents && k.0 != r.id;
      }
      forall a, v | a in u.agents && 1 <= v <= u.agents[a].version ensures (a, v) in u.personas {
        assert a != r.id ==> a in t.agents && (a, v) in t.personas;
      }
    }
  }

  lemma AppendKeepsSound(t: Tables, r: Request)
    requires Sound(t) && r.AppendPersona?
    ensures Sound(Handle(t, r).0) && PersonasKept(t, Handle(t, r).0)
  {
    var u := Handle(t, r).0;
    if u != t {
      forall a, v | a in u.agents && 1 <= v <= u.agents[a].version ensures (a, v) in u.personas {
        assert a in t.agents && (v <= t.agents[a].version ==> (a, v) in t.personas);
      }
    }
  }

  lemma DeleteKeepsSound(t: Tables, r: Request)
    requires Sound(t) && (r.DeleteAgent? || r.DeleteBearer?)
    ensures Sound(Handle(t, r).0) && PersonasKept(t, Handle(t, r).0)
  {
    var u := Handle(t, r).0;
    forall a, v | a in u.agents && 1 <= v <= u.agents[a].version ensures (a, v) in u.personas {
      assert a in t.agents && (a, v) in t.personas;
    }
  }

  lemma RequestKeepsSound(t: Tables, r: Request)
    requires Sound(t)
    ensures Sound(Handle(t, r).0) && PersonasKept(t, Handle(t, r).0)
  {
    match r
    case CreateAgent(_, _, _, _) => hide *; CreateKeepsSound(t, r);
    case AppendPersona(_, _) => hide *; AppendKeepsSound(t, r);
    case DeleteAgent(_) => hide *; DeleteKeepsSound(t, r);
    case DeleteBearer(_) => hide *; DeleteKeepsSound(t, r);
    case _ => hide *; SameAgentsKeepSound(t, r);
  }

  lemma SameAgentsKeepSound(t: Tables, r: Request)
    requires Sound(t) && !r.CreateAgent? && !r.AppendPersona? && !r.DeleteAgent? && !r.DeleteBearer?
    ensures Sound(Handle(t, r).0) && PersonasKept(t, Handle(t, r).0)
  {
    var u := Handle(t, r).0;
    assert u.agents == t.agents && u.personas == t.personas;
    assert forall g <- u.grants :: g.0 in u.bearers && g.1 in u.agents;
    hide Handle, PersonasKept;
    OtherKeepsSound(t, u);
  }

  lemma OtherKeepsSound(t: Tables, u: Tables)
    requires Sound(t) && u.agents == t.agents && u.personas == t.personas
    requires forall g <- u.grants :: g.0 in u.bearers && g.1 in u.agents
    ensures Sound(u) && PersonasKept(t, u)
  {
  }

  /** Whatever requests were handled, the boot check finds nothing, every agent has exactly the
      persona versions 1 to its current one, and the next request leaves earlier contents alone. */
  lemma {:induction false} ReachableIsSound(requests: seq<Request>, f: Fault, next: Request)
    ensures Sound(After(requests)) && !HasFault(After(requests), f)
    ensures PersonasKept(After(requests), After(requests + [next]))
  {
    if requests != [] {
      ReachableIsSound(requests[..|requests| - 1], f, next);
      RequestKeepsSound(After(requests[..|requests| - 1]), requests[|requests| - 1]);
    }
    SoundHasNoFault(After(requests), f);
    RequestKeepsSound(After(requests), next);
    assert (requests + [next])[..|requests|] == requests;
  }

  /** And for good: whatever is requested further, short of deleting the agent, a persona version keeps
      its content. */
  lemma {:induction false} VersionStays(requests: seq<Request>, more: seq<Request>, key: PersonaKey)
    requires key in After(requests).personas && forall r <- more :: r != DeleteAgent(key.0)
    ensures key.0 in After(requests + more).agents
    ensures key in After(requests + more).personas
    ensures After(requests + more).personas[key] == After(requests).personas[key]
    decreases |more|
  {
    AlwaysSound(requests);
    if more == [] {
      assert requests + more == requests;
    } else {
      var n := |more| - 1;
      assert (requests + more)[..|requests + more| - 1] == requests + more[..n];
      assert (requests + more)[|requests + more| - 1] == more[n] && more[n] in more;
      assert forall r <- more[..n] :: r in more;
      var t := After(requests + more[..n]);
      assert After(requests + more) == Handle(t, more[n]).0;
      hide After, Handle, Sound;
      VersionStays(requests, more[..n], key);
      AlwaysSound(requests + more[..n]);
      hide *;
      RequestKeepsSound(t, more[n]);
      AgentStays(t, more[n], key.0);
      KeptKey(t, Handle(t, more[n]).0, key);
    }
  }

  lemma AlwaysSound(requests: seq<Request>)
    ensures Sound(After(requests))
    ensures forall k <- After(requests).personas :: k.0 in After(requests).agents
  {
    ReachableIsSound(requests, MissingPersona("", 0), Revoke("", ""));
  }

  lemma AgentStays(t: Tables, r: Request, agent: string)
    requires agent in t.agents && r != DeleteAgent(agent)
    ensures agent in Handle(t, r).0.agents
  {
  }

  lemma KeptKey(t: Tables, u: Tables, key: PersonaKey)
    requires PersonasKept(t, u) && key in t.personas && key.0 in u.agents
    ensures key in u.personas && u.personas[key] == t.personas[key]
  {
  }

  /** A conflicting or dangling statement is refused and changes nothing; an accepted append adds
      the next version and makes it current. */
  lemma RefusedChangesNothing(t: Tables, r: Request)
    requires Sound(t)
    ensures !Handle(t, r).1.Done? ==> Handle(t, r).0 == t
    ensures r.AppendPersona? && r.agent in t.agents ==>
              && Handle(t, r).1.Done?
              && Handle(t, r).0.agents[r.agent].version == t.agents[r.agent].version + 1
              && Handle(t, r).0.personas[(r.agent, t.agents[r.agent].version + 1)] == r.content
  {
  }

  /** When each request is accepted, and how it is refused otherwise. */
  lemma Answers(t: Tables, r: Request)
    requires Sound(t)
    ensures var answer := Handle(t, r).1;
            match r
            case CreateAgent(id, slug, _, _) =>
              answer == if id !in t.agents && forall a <- t.agents :: t.agents[a].slug != slug then Done
                        else UniqueViolation
            case AppendPersona(agent, _) => answer == if agent in t.agents then Done else Missing
            case DeleteAgent(agent) => answer == if agent in t.agents then Done else Missing
            case CreateBearer(bearer) => answer == if bearer in t.bearers then UniqueViolation else Done
            case DeleteBearer(bearer) => answer == if bearer in t.bearers then Done else Missing
            case GrantAgent(bearer, agent) =>
              && (answer.UniqueViolation? <==> (bearer, agent) in t.grants)
              && (answer.ForeignKeyViolation? <==> bearer !in t.bearers || agent !in t.agents)
              && !answer.Missing?
            case EnsureGrant(bearer, agent) =>
              answer == if bearer in t.bearers && agent in t.agents then Done else ForeignKeyViolation
            case Revoke(bearer, agent) => answer == if (bearer, agent) in t.grants then Done else Missing
            case UpsertOwner(_) => answer.Done?
            case DeleteOwnerRow(owner) => answer == if owner in t.owners then Done else Missing
  {
  }

  /** What is in the tables after a request, row by row: what was there, but for what the request deletes and
      what hangs on that, and what it adds if it is accepted. */
  lemma RowsAfter(t: Tables, r: Request)
    requires Sound(t)
    ensures var u, done := Handle(t, r).0, Handle(t, r).1.Done?;
            && (forall o :: o in u.owners <==> (o in t.owners && r != DeleteOwnerRow(o)) || r == UpsertOwner(o))
            && (forall b :: b in u.bearers <==> (b in t.bearers && r != DeleteBearer(b)) || r == CreateBearer(b))
            && (forall b, a :: (b, a) in u.grants <==>
                  || ((b, a) in t.grants && r != Revoke(b, a) && r != DeleteBearer(b) && r != DeleteAgent(a))
                  || (done && (r == GrantAgent(b, a) || r == EnsureGrant(b, a))))
  {
  }

  lemma AgentsAfter(t: Tables, r: Request)
    ensures var u, done := Handle(t, r).0, Handle(t, r).1.Done?;
            && (forall a :: a in u.agents <==>
                  (a in t.agents && r != DeleteAgent(a)) || (done && r.CreateAgent? && r.id == a))
            && (forall a <- u.agents :: u.agents[a] ==
                  if a !in t.agents then Agent(r.slug, r.ownerId, 1)
                  else if r.AppendPersona? && r.agent == a && done then t.agents[a].(version := t.agents[a].version + 1)
                  else t.agents[a])
  {
  }

  lemma PersonasAfter(t: Tables, r: Request)
    requires Sound(t)
    ensures var u, done := Handle(t, r).0, Handle(t, r).1.Done?;
            && (forall a, v :: (a, v) in u.personas <==>
                  || ((a, v) in t.personas && r != DeleteAgent(a))
                  || (done && r.CreateAgent? && a == r.id && v == 1)
                  || (done && r.AppendPersona? && a == r.agent && v == t.agents[a].version + 1))
            && (forall k <- u.personas :: u.personas[k] ==
                  if k in t.personas then t.personas[k] else if r.CreateAgent? then r.persona else r.content)
  {
    var u, done := Handle(t, r).0, Handle(t, r).1.Done?;
    assert forall k <- t.personas :: k.0 in t.agents;
    hide Sound;
    if r.DeleteAgent? && !done {
      assert forall k <- t.personas :: k.0 != r.agent;
    }
  }

  // ---------- The database ----------

  class Database {
    var tables: Tables

    constructor (tables: Tables)
      ensures this.tables == tables
    {
      this.tables := tables;
    }

    /** The agent and its first persona: one transaction. */
    method Create(id: string, slug: string, ownerId: string, persona: string) returns (answer: Answer)
      modifies this
      ensures (tables, answer) == Handle(old(tables), CreateAgent(id, slug, ownerId, persona))
    {
      var before := tables;
      if id in tables.agents || (exists a <- tables.agents :: tables.agents[a].slug == slug) {
        return UniqueViolation;
      }
      tables := tables.(agents := tables.agents[id := Agent(slug, ownerId, 1)]);
      if (id, 1) in tables.personas {
        tables := before;
        return UniqueViolation;
      }
      tables := tables.(personas := tables.personas[(id, 1) := persona]);
      return Done;
    }

    /** A plain INSERT, or with `ensure` one that does nothing when the grant is there. */
    method Grant(bearer: string, agent: string, ensure: bool) returns (answer: Answer)
      modifies this
      ensures (tables, answer)
           == Handle(old(tables), if ensure then EnsureGrant(bearer, agent) else GrantAgent(bearer, agent))
    {
      if (bearer, agent) in tables.grants {
        return if ensure then Done else UniqueViolation;
      }
      if bearer !in tables.bearers || agent !in tables.agents {
        return ForeignKeyViolation;
      }
      tables := tables.(grants := tables.grants + {(bearer, agent)});
      return Done;
    }

    method RevokeGrant(bearer: string, agent: string) returns (revoked: bool)
      modifies this
      ensures revoked <==> (bearer, agent) in old(tables).grants
      ensures tables == Handle(old(tables), Revoke(bearer, agent)).0
    {
      revoked := (bearer, agent) in tables.grants;
      if revoked {
        tables := tables.(grants := tables.grants - {(bearer, agent)});
      }
    }

    /** Its grants go before the bearer: one transaction. */
    method DeleteBearerRows(bearer: string) returns (deleted: bool)
      modifies this
      ensures deleted <==> bearer in old(tables).bearers
      ensures tables == Handle(old(tables), DeleteBearer(bearer)).0
    {
      if bearer !in tables.bearers {
        return false;
      }
      tables := tables.(grants := set g <- tables.grants | g.0 != bearer);
      tables := tables.(bearers := tables.bearers - {bearer});
      return true;
    }

    /** Reads the current version, inserts the next one, moves the agent to it: one transaction. */
    method Append(agent: string, content: string) returns (answer: Answer)
      modifies this
      ensures (tables, answer) == Handle(old(tables), AppendPersona(agent, content))
    {
      if agent !in tables.agents {
        return Missing;
      }
      var version := tables.agents[agent].version + 1;
      if (agent, version) in tables.personas {
        return UniqueViolation;
      }
      tables := tables.(personas := tables.personas[(agent, version) := content]);
      tables := tables.(agents := tables.agents[agent := tables.agents[agent].(version := version)]);
      return Done;
    }

    /** Grants and personas go before the agent they refer to: one transaction. */
    method DeleteAgentRows(agent: string) returns (deleted: bool)
      modifies this
      ensures deleted <==> agent in old(tables).agents
      ensures tables == Handle(old(tables), DeleteAgent(agent)).0
      ensures deleted ==> tables == Without(old(tables), agent)
    {
      if agent !in tables.agents {
        return false;
      }
      tables := tables.(grants := set g <- tables.grants | g.1 != agent);
      tables := tables.(personas := map k <- tables.personas | k.0 != agent :: tables.personas[k]);
      tables := tables.(agents := tables.agents - {agent});
      return true;
    }

    /** Deletes an owner and that owner's agents, then reports how many agents went. */
    method DeleteOwner(owner: string) returns (agentsDeleted: Option<nat>)
      modifies this
      ensures agentsDeleted.None? <==> owner !in old(tables).owners
      ensures agentsDeleted.None? ==> tables == old(tables)
      ensures agentsDeleted.Some? ==>
                && tables == OwnersRemoved(old(tables), {owner})
                && agentsDeleted.value == |AgentsOf(old(tables), {owner})|
    {
      if owner !in tables.owners {
        return None;
      }
      ghost var mine := AgentsOf(tables, {owner});
      var left := tables.agents.Keys;
      var count := 0;
      ghost var gone: set<string> := {};
      NoneRemoved(tables);
      hide AgentsRemoved, Without, Handle;
      while left != {}
        invariant left <= old(tables).agents.Keys
        invariant gone !! left && gone <= mine <= gone + left
        invariant tables == AgentsRemoved(old(tables), gone) && count == |gone|
        decreases left
      {
        var agent :| agent in left;
        OneMoreRemoved(old(tables), gone, agent);
        if tables.agents[agent].ownerId == owner {
          var deleted := DeleteAgentRows(agent);
          if deleted {
            count := count + 1;
          }
          gone := gone + {agent};
        }
        left := left - {agent};
      }
      assert gone == mine;
      tables := tables.(owners := tables.owners - {owner});
      return Some(count);
    }

    method UpsertOwners(desired: set<string>) returns (upserted: nat)
      modifies this
      ensures tables == old(tables).(owners := old(tables).owners + desired)
      ensures upserted == |desired - old(tables).owners|
    {
      upserted := 0;
      var left := desired;
      ghost var was := tables;
      ghost var done: set<string> := {};
      assert was.owners + done == was.owners && done - was.owners == {};
      while left != {}
        invariant done + left == desired && done !! left
        invariant tables == was.(owners := was.owners + done)
        invariant upserted == |done - was.owners|
        decreases left
      {
        var owner :| owner in left;
        OneMoreUpsert(was.owners, done, owner);
        if owner !in tables.owners {
          upserted := upserted + 1;
        }
        tables := tables.(owners := tables.owners + {owner});
        done := done + {owner};
        left := left - {owner};
      }
      assert done == desired;
    }

    method DeleteAbsentOwners(desired: set<string>) returns (removed: nat, agentsDeleted: nat)
      modifies this
      ensures tables == OwnersRemoved(old(tables), old(tables).owners - desired)
      ensures removed == |old(tables).owners - desired|
      ensures agentsDeleted == |AgentsOf(old(tables), old(tables).owners - desired)|
    {
      removed, agentsDeleted := 0, 0;
      var left := tables.owners;
      ghost var gone: set<string> := {};
      NothingRemoved(tables);
      hide OwnersRemoved, AgentsOf;
      while left != {}
        invariant left <= old(tables).owners && gone == (old(tables).owners - desired) - left
        invariant tables == OwnersRemoved(old(tables), gone)
        invariant removed == |gone| && agentsDeleted == |AgentsOf(old(tables), gone)|
        decreases left
      {
        var owner :| owner in left;
        if owner !in desired {
          OneMoreOwner(old(tables), gone, owner);
          OneMoreCount(old(tables), gone, owner);
          var deleted := DeleteOwner(owner);
          if deleted.Some? {
            removed := removed + 1;
            agentsDeleted := agentsDeleted + deleted.value;
          }
          gone := gone + {owner};
        }
        left := left - {owner};
      }
      assert gone == old(tables).owners - desired;
    }

    /** Strict reconcile: afterwards the owners are exactly the desired ones. */
    method ReconcileOwners(desired: set<string>) returns (upserted: nat, removed: nat, agentsDeleted: nat)
      modifies this
      ensures tables == OwnersRemoved(old(tables), old(tables).owners - desired).(owners := desired)
      ensures upserted == |desired - old(tables).owners| && removed == |old(tables).owners - desired|
      ensures agentsDeleted == |AgentsOf(old(tables), old(tables).owners - desired)|
    {
      upserted := UpsertOwners(desired);
      ghost var full := tables;
      assert full.owners - desired == old(tables).owners - desired;
      assert full.owners - (full.owners - desired) == desired;
      removed, agentsDeleted := DeleteAbsentOwners(desired);
    }

    /** The boot check: one query per kind of fault, one error per row it returns. */
    method ValidateSchemaIntegrity() returns (errors: seq<Fault>)
      ensures forall f :: f in errors <==> HasFault(tables, f)
      ensures errors == [] <==> forall f :: !HasFault(tables, f)
    {
      errors := [];
      var slugs := set a <- tables.agents | SlugTwice(tables, tables.agents[a].slug) :: tables.agents[a].slug;
      ghost var all := slugs;
      while slugs != {}
        invariant slugs <= all
        invariant forall f :: f in errors <==> f.DuplicateSlug? && f.slug in all && f.slug !in slugs
        decreases slugs
      {
        var slug :| slug in slugs;
        errors := errors + [DuplicateSlug(slug)];
        slugs := slugs - {slug};
      }
      var orphans := set g <- tables.grants | g.1 !in tables.agents;
      ghost var allOrphans := orphans;
      ghost var before := errors;
      while orphans != {}
        invariant orphans <= allOrphans
        invariant forall f :: f in errors <==>
                    || f in before
                    || (f.GrantWithoutAgent? && (f.bearer, f.agent) in allOrphans && (f.bearer, f.agent) !in orphans)
        decreases orphans
      {
        var g :| g in orphans;
        errors := errors + [GrantWithoutAgent(g.0, g.1)];
        orphans := orphans - {g};
      }
      orphans := set g <- tables.grants | g.0 !in tables.bearers;
      allOrphans := orphans;
      before := errors;
      while orphans != {}
        invariant orphans <= allOrphans
        invariant forall f :: f in errors <==>
                    || f in before
                    || (f.GrantWithoutBearer? && (f.bearer, f.agent) in allOrphans && (f.bearer, f.agent) !in orphans)
        decreases orphans
      {
        var g :| g in orphans;
        errors := errors + [GrantWithoutBearer(g.0, g.1)];
        orphans := orphans - {g};
      }
      var agents := set a <- tables.agents | (a, tables.agents[a].version) !in tables.personas;
      ghost var allAgents := agents;
      before := errors;
      while agents != {}
        invariant agents <= allAgents
        invariant forall f :: f in errors <==>
                    || f in before
                    || (f.MissingPersona? && f.agent in allAgents && f.agent !in agents
                        && f.version == tables.agents[f.agent].version)
        decreases agents
      {
        var a :| a in agents;
        errors := errors + [MissingPersona(a, tables.agents[a].version)];
        agents := agents - {a};
      }
      assert forall f :: HasFault(tables, f) ==> f in errors;
      assert errors != [] ==> errors[0] in errors;
    }
  }

  // ---------- Removing owners ----------

  lemma OneMoreUpsert(owners: set<string>, done: set<string>, owner: string)
    requires owner !in done
    ensures owners + (done + {owner}) == (owners + done) + {owner}
    ensures |(done + {owner}) - owners| == |done - owners| + (if owner in owners + done then 0 else 1)
  {
    if owner in owners {
      assert (done + {owner}) - owners == done - owners;
    } else {
      assert (done + {owner}) - owners == (done - owners) + {owner};
    }
  }

  function AgentsOf(t: Tables, owners: set<string>): set<string> {
    set a <- t.agents | t.agents[a].ownerId in owners
  }

  /** Agents go with their personas and grants, and nothing else does. */
  function AgentsRemoved(t: Tables, agents: set<string>): Tables {
    t.(agents := t.agents - agents,
       personas := map k <- t.personas | k.0 !in agents :: t.personas[k],
       grants := set g <- t.grants | g.1 !in agents)
  }

  function OwnersRemoved(t: Tables, owners: set<string>): Tables {
    AgentsRemoved(t, AgentsOf(t, owners)).(owners := t.owners - owners)
  }

  /** What stays when owners are removed: everything but those owners, the agents that were theirs, and those
      agents' personas and grants. */
  lemma OwnersRemovedRows(t: Tables, owners: set<string>)
    ensures var u := OwnersRemoved(t, owners);
            && (forall o :: o in u.owners <==> o in t.owners && o !in owners)
            && u.bearers == t.bearers
            && (forall a :: a in u.agents <==> a in t.agents && t.agents[a].ownerId !in owners)
            && (forall a <- u.agents :: u.agents[a] == t.agents[a])
            && (forall k :: k in u.personas <==>
                  k in t.personas && !(k.0 in t.agents && t.agents[k.0].ownerId in owners))
            && (forall k <- u.personas :: u.personas[k] == t.personas[k])
            && (forall g :: g in u.grants <==> g in t.grants && !(g.1 in t.agents && t.agents[g.1].ownerId in owners))
  {
  }

  lemma OneMoreRemoved(t: Tables, gone: set<string>, agent: string)
    requires agent in t.agents && agent !in gone
    ensures Without(AgentsRemoved(t, gone), agent) == AgentsRemoved(t, gone + {agent})
    ensures agent in AgentsRemoved(t, gone).agents && AgentsRemoved(t, gone).agents[agent] == t.agents[agent]
  {
    var u := Without(AgentsRemoved(t, gone), agent);
    var v := AgentsRemoved(t, gone + {agent});
    assert u.agents == v.agents && u.personas == v.personas && u.grants == v.grants;
  }

  lemma NoneRemoved(t: Tables)
    ensures AgentsRemoved(t, {}) == t
    ensures forall gone :: AgentsRemoved(t, gone).owners == t.owners
  {
    assert AgentsRemoved(t, {}).agents == t.agents && AgentsRemoved(t, {}).personas == t.personas;
  }

  lemma NothingRemoved(t: Tables)
    ensures OwnersRemoved(t, {}) == t && AgentsOf(t, {}) == {}
  {
    assert OwnersRemoved(t, {}).personas == t.personas;
  }

  lemma OneMoreCount(t: Tables, gone: set<string>, owner: string)
    requires owner in t.owners && owner !in gone
    ensures |AgentsOf(t, gone + {owner})| == |AgentsOf(t, gone)| + |AgentsOf(OwnersRemoved(t, gone), {owner})|
  {
    var mine := AgentsOf(OwnersRemoved(t, gone), {owner});
    assert AgentsOf(t, gone + {owner}) == AgentsOf(t, gone) + mine;
    assert AgentsOf(t, gone) !! mine;
  }

  lemma OneMoreOwner(t: Tables, gone: set<string>, owner: string)
    requires owner in t.owners && owner !in gone
    ensures owner in OwnersRemoved(t, gone).owners
    ensures OwnersRemoved(OwnersRemoved(t, gone), {owner}) == OwnersRemoved(t, gone + {owner})
  {
    var mine := AgentsOf(OwnersRemoved(t, gone), {owner});
    assert AgentsOf(t, gone + {owner}) == AgentsOf(t, gone) + mine;
    RemovedTwice(t, AgentsOf(t, gone), mine);
    assert t.owners - gone - {owner} == t.owners - (gone + {owner});
  }

  lemma RemovedTwice(t: Tables, a: set<string>, b: set<string>)
    ensures AgentsRemoved(AgentsRemoved(t, a), b) == AgentsRemoved(t, a + b)
  {
    var u, v := AgentsRemoved(AgentsRemoved(t, a), b), AgentsRemoved(t, a + b);
    assert u.agents == v.agents && u.personas == v.personas && u.grants == v.grants;
  }

  /** Reconciling keeps the registry sound, keeps every agent whose owner stays, and doing it again
      finds nothing to insert, remove or delete. */
  lemma ReconcileSettles(t: Tables, desired: set<string>)
    requires Sound(t)
    ensures var u := OwnersRemoved(t, t.owners - desired).(owners := desired);
            && Sound(u) && PersonasKept(t, u)
            && (forall a <- t.agents :: a in u.agents <==> t.agents[a].ownerId !in t.owners - desired)
            && desired - u.owners == {} && u.owners - desired == {} && AgentsOf(u, u.owners - desired) == {}
            && OwnersRemoved(u, u.owners - desired).(owners := desired) == u
  {
    var u := OwnersRemoved(t, t.owners - desired).(owners := desired);
    assert u.owners - desired == {};
    assert AgentsOf(u, {}) == {};
    assert u.agents - {} == u.agents;
  }
}
