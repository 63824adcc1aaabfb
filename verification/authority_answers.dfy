/** What each request to the agent registry and the tool gateway is answered and what it leaves, in
    terms of the rows alone. */
module AuthorityAnswers {
  import opened Options
  import opened Authority
  import Shutdown

  // ----------------------------------------------------------------- the gateway

  predicate HasStatus(t: Tables, a: ActorId, status: AgentStatus) {
    a in t.agents && t.agents[a].status == status
  }

  /** The grant is the agent's, names the tool, and is neither revoked nor expired. */
  predicate Covers(g: Grant, a: ActorId, tool: ToolName, now: int) {
    g.agent == a && tool in g.tools && g.revokedAt == None && (g.expiresAt == None || now < g.expiresAt.value)
  }

  predicate HoldsGrant(t: Tables, a: ActorId, tool: ToolName, now: int) {
    exists g :: g in t.grants && Covers(t.grants[g], a, tool, now)
  }

  lemma HoldsGrantIff(t: Tables, a: ActorId, tool: ToolName, now: int)
    ensures HoldsGrant(t, a, tool, now) <==> IsGranted(t, a, tool, now)
  {
    if g :| g in t.grants && Covers(t.grants[g], a, tool, now) {
      assert g in t.grants && IsCurrent(t.grants[g], a, now) && tool in t.grants[g].tools;
    }
  }

  /** The path has two dots in a row. */
  ghost predicate HasDoubleDot(path: string) {
    exists before, after :: path == before + ".." + after
  }

  /** The file tools accept every path but the empty one and those with two dots in a row, the
      other tools accept anything. */
  ghost predicate AcceptsParameters(r: Request) {
    r.tool == "file_reader" || r.tool == "file_writer" ==> r.path != "" && !HasDoubleDot(r.path)
  }

  lemma DoubleDotIff(path: string)
    ensures HasDoubleDot(path) <==> Climbs(path)
  {
    if Climbs(path) {
      var i :| 0 <= i < |path| - 1 && path[i] == '.' && path[i + 1] == '.';
      assert path == path[..i] + ".." + path[i + 2..];
    }
    if before, after :| path == before + ".." + after {
      assert path[|before|] == '.' && path[|before| + 1] == '.';
    }
  }

  lemma AcceptsIff(r: Request)
    ensures AcceptsParameters(r) <==> !ToolRaises(r)
  {
    DoubleDotIff(r.path);
    hide HasDoubleDot, Climbs;
  }

  /** Nothing but the owner's rank replaces a grant, and nothing replaces the rest. */
  ghost predicate MayRun(t: Tables, r: Request, actor: Role, runState: Shutdown.RunState, now: int) {
    && runState.Normal?
    && HasStatus(t, r.agent, Active)
    && r.tool in t.tools && t.tools[r.tool]
    && (actor.Owner? || HoldsGrant(t, r.agent, r.tool, now))
    && AcceptsParameters(r)
  }

  /** A tool call goes through exactly when it may run, whoever makes it. */
  lemma CallGoesThroughIff(t: Tables, r: Request, actor: Role, runState: Shutdown.RunState, caught: bool, now: int)
    ensures OutcomeOf(t, Tx(Execute(r, actor, runState, caught), now)) == Done <==> MayRun(t, r, actor, runState, now)
  {
    HoldsGrantIff(t, r.agent, r.tool, now);
    AcceptsIff(r);
    hide HoldsGrant, IsGranted, AcceptsParameters, ToolRaises;
  }

  /** Why a tool call is refused: the first of the checks that fails. */
  lemma CallRefusedBecause(t: Tables, r: Request, actor: Role, runState: Shutdown.RunState, caught: bool, now: int)
    ensures var o := OutcomeOf(t, Tx(Execute(r, actor, runState, caught), now));
      var enabled := r.tool in t.tools && t.tools[r.tool];
      && (o == SystemRestricted <==> runState.Degraded? || runState.EmergencyShutdown?)
      && (o == AgentNotActive <==> runState.Normal? && !HasStatus(t, r.agent, Active))
      && (o == ToolMissing <==> runState.Normal? && HasStatus(t, r.agent, Active) && r.tool !in t.tools)
      && (o == ToolDisabled <==>
            runState.Normal? && HasStatus(t, r.agent, Active) && r.tool in t.tools && !t.tools[r.tool])
      && (o == NotGranted <==>
            runState.Normal? && HasStatus(t, r.agent, Active) && enabled && !actor.Owner? && !HoldsGrant(t, r.agent, r.tool, now))
      && (o == ToolFailed <==>
            && runState.Normal? && HasStatus(t, r.agent, Active) && enabled
            && (actor.Owner? || HoldsGrant(t, r.agent, r.tool, now)) && !AcceptsParameters(r))
  {
    HoldsGrantIff(t, r.agent, r.tool, now);
    AcceptsIff(r);
    hide HoldsGrant, IsGranted, AcceptsParameters, ToolRaises;
  }

  /** What a tool call leaves: a SUCCESS row when it went through, and one rollback artifact if it
      wrote a file for a task; a BLOCKED or FAILED row when the caller caught the refusal for want of a
      grant or the tool's own; otherwise nothing.  Agents, grants and catalog stay. */
  lemma CallLeaves(t: Tables, r: Request, actor: Role, runState: Shutdown.RunState, caught: bool, now: int)
    ensures var tx := Tx(Execute(r, actor, runState, caught), now);
      var (t', o) := (Apply(t, tx), OutcomeOf(t, tx));
      && t'.agents == t.agents && t'.grants == t.grants && t'.tools == t.tools
      && t'.executions == t.executions + (
           if MayRun(t, r, actor, runState, now) then [Execution(r, Success)]
           else if o == NotGranted && caught then [Execution(r, BlockedByPolicy)]
           else if o == ToolFailed && caught then [Execution(r, Failed)]
           else [])
      && t'.artifacts == t.artifacts + (
           if MayRun(t, r, actor, runState, now) && r.tool == "file_writer" && r.task.Some?
           then [Artifact(r.task.value, r.agent, "file_writer", r.path)] else [])
  {
    CallGoesThroughIff(t, r, actor, runState, caught, now);
    hide MayRun, GatewayCheck;
  }

  // ---------------------------------------------------------------- the registry

  /** Agents other than a, and the tables other than agents and grants, are as they were. */
  predicate OnlyAgentMoves(t: Tables, t': Tables, a: ActorId) {
    && t'.tools == t.tools && t'.executions == t.executions && t'.artifacts == t.artifacts
    && t'.agents.Keys == t.agents.Keys + {a}
    && forall b | b in t.agents && b != a :: t'.agents[b] == t.agents[b]
  }

  /** Workers create temporary sub-agents only, a temporary sub-agent needs a parent, and a department
      that is named must be active; the new agent is active. */
  lemma CreationIff(t: Tables, id: ActorId, role: Role, parent: Option<ActorId>, department: DepartmentRef, actor: Role, now: int)
    ensures var tx := Tx(Create(id, role, parent, department, actor), now);
      var (t', o) := (Apply(t, tx), OutcomeOf(t, tx));
      && (o == WorkerForbidden <==> actor.Worker? && !role.TemporarySubAgent?)
      && (o == ParentRequired <==> role.TemporarySubAgent? && parent == None)
      && (o == DepartmentUnusable <==>
            department.MissingOrInactive? && (role.TemporarySubAgent? ==> parent.Some?) && (actor.Worker? ==> role.TemporarySubAgent?))
      && (o == Done <==>
            !department.MissingOrInactive? && (role.TemporarySubAgent? ==> parent.Some?) && (actor.Worker? ==> role.TemporarySubAgent?))
      && (o == Done ==> t'.agents[id] == Agent(role, Active) && t'.grants == t.grants && OnlyAgentMoves(t, t', id))
      && (o != Done ==> t' == t)
  {
  }

  /** Every grant of agent a is revoked, now unless it was before, and all else about it stays; the
      grants of others stay. */
  predicate EndsAllGrants(before: map<GrantId, Grant>, after: map<GrantId, Grant>, a: ActorId, now: int) {
    && after.Keys == before.Keys
    && forall g | g in before ::
         && (after[g].agent, after[g].tools, after[g].expiresAt, after[g].issuer)
            == (before[g].agent, before[g].tools, before[g].expiresAt, before[g].issuer)
         && after[g].revokedAt == if before[g].agent == a && before[g].revokedAt == None then Some(now) else before[g].revokedAt
  }

  /** Anybody but a worker retires an agent that exists, whatever its status: it keeps its role, gets
      the new status, and loses all its grants. */
  lemma RetirementIff(t: Tables, a: ActorId, actor: Role, terminate: bool, now: int)
    ensures var tx := Tx(if terminate then Terminate(a, actor) else Suspend(a, actor), now);
      var (t', o) := (Apply(t, tx), OutcomeOf(t, tx));
      && (o == WorkerForbidden <==> actor.Worker?)
      && (o == AgentMissing <==> !actor.Worker? && a !in t.agents)
      && (o == Done <==> !actor.Worker? && a in t.agents)
      && (o == Done ==>
            && OnlyAgentMoves(t, t', a) && t'.agents[a].role == t.agents[a].role
            && HasStatus(t', a, if terminate then Terminated else Suspended)
            && EndsAllGrants(t.grants, t'.grants, a, now))
      && (o != Done ==> t' == t)
  {
  }

  /** Anybody but a worker restores an agent that exists and is not terminated: it becomes active, and
      no grant changes. */
  lemma RestorationIff(t: Tables, a: ActorId, actor: Role, now: int)
    ensures var tx := Tx(Restore(a, actor), now);
      var (t', o) := (Apply(t, tx), OutcomeOf(t, tx));
      && (o == WorkerForbidden <==> actor.Worker?)
      && (o == AgentMissing <==> !actor.Worker? && a !in t.agents)
      && (o == AgentIsTerminated <==> !actor.Worker? && HasStatus(t, a, Terminated))
      && (o == Done <==> !actor.Worker? && (HasStatus(t, a, Active) || HasStatus(t, a, Suspended)))
      && (o == Done ==>
            && OnlyAgentMoves(t, t', a) && t'.agents[a].role == t.agents[a].role
            && HasStatus(t', a, Active) && t'.grants == t.grants)
      && (o != Done ==> t' == t)
  {
  }

  /** A grant is issued to an active agent by anybody but itself, with what was asked for, and nothing
      else changes. */
  lemma IssueIff(t: Tables, id: GrantId, a: ActorId, tools: set<ToolName>, expiresAt: Option<int>, issuer: ActorId, now: int)
    ensures var tx := Tx(Issue(id, a, tools, expiresAt, issuer), now);
      var (t', o) := (Apply(t, tx), OutcomeOf(t, tx));
      && (o == AgentNotActive <==> !HasStatus(t, a, Active))
      && (o == SelfGrant <==> HasStatus(t, a, Active) && issuer == a)
      && (o == Done <==> HasStatus(t, a, Active) && issuer != a)
      && (o == Done ==> t' == Tables(t.agents, t.grants[id := Grant(a, tools, expiresAt, issuer, None)], t.tools, t.executions, t.artifacts))
      && (o != Done ==> t' == t)
  {
  }

  /** A grant is revoked when it is on record and was not, and nothing else changes. */
  lemma RevocationIff(t: Tables, g: GrantId, now: int)
    ensures var tx := Tx(Revoke(g), now);
      var (t', o) := (Apply(t, tx), OutcomeOf(t, tx));
      && (o == GrantMissing <==> g !in t.grants)
      && (o == AlreadyRevoked <==> g in t.grants && t.grants[g].revokedAt.Some?)
      && (o == Done <==> g in t.grants && t.grants[g].revokedAt == None)
      && (o == Done ==>
            && t'.agents == t.agents && t'.tools == t.tools && t'.executions == t.executions && t'.artifacts == t.artifacts
            && t'.grants.Keys == t.grants.Keys && (forall f | f in t.grants && f != g :: t'.grants[f] == t.grants[f])
            && var was := t.grants[g];
               t'.grants[g] == Grant(was.agent, was.tools, was.expiresAt, was.issuer, Some(now)))
      && (o != Done ==> t' == t)
  {
  }

  /** The owner alone registers tools, each name once. */
  lemma RegistrationIff(t: Tables, tool: ToolName, enabled: bool, actor: Role, now: int)
    ensures var tx := Tx(Register(tool, enabled, actor), now);
      var (t', o) := (Apply(t, tx), OutcomeOf(t, tx));
      && (o == OwnerOnly <==> !actor.Owner?)
      && (o == AlreadyRegistered <==> actor.Owner? && tool in t.tools)
      && (o == Done <==> actor.Owner? && tool !in t.tools)
      && (o == Done ==> t' == Tables(t.agents, t.grants, t.tools[tool := enabled], t.executions, t.artifacts))
      && (o != Done ==> t' == t)
  {
  }
}
