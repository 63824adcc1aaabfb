/** The agent registry and the tool gateway as they run, on the tables of agents, grants, tools
    and executions. */
module AgentRegistry {
  import opened Options
  import opened Authority
  import Shutdown

  class AgentRegistry {
    var agents: map<ActorId, Agent>
    var grants: map<GrantId, Grant>
    var catalog: map<ToolName, bool>
    var executions: seq<Execution>
    var artifacts: seq<Artifact>

    constructor ()
      ensures Rows() == Empty
    {
      agents, grants, catalog, executions, artifacts := map[], map[], map[], [], [];
    }

    function Rows(): Tables
      reads this
    {
      Tables(agents, grants, catalog, executions, artifacts)
    }

    method CreateAgent(id: ActorId, role: Role, parent: Option<ActorId>, department: DepartmentRef, actor: Role, now: int)
      returns (r: Outcome)
      requires id !in agents
      modifies this
      ensures var tx := Tx(Create(id, role, parent, department, actor), now);
        r == OutcomeOf(old(Rows()), tx) && Rows() == Apply(old(Rows()), tx)
    {
      if actor == Worker && role != TemporarySubAgent {
        return WorkerForbidden;
      }
      if role == TemporarySubAgent && parent.None? {
        return ParentRequired;
      }
      if department == MissingOrInactive {
        return DepartmentUnusable;
      }
      agents := agents[id := Agent(role, Active)];
      return Done;
    }

    method SuspendAgent(agent: ActorId, actor: Role, now: int) returns (r: Outcome)
      modifies this
      ensures var tx := Tx(Suspend(agent, actor), now);
        r == OutcomeOf(old(Rows()), tx) && Rows() == Apply(old(Rows()), tx)
    {
      if actor == Worker {
        return WorkerForbidden;
      }
      if agent !in agents {
        return AgentMissing;
      }
      agents := agents[agent := agents[agent].(status := Suspended)];
      grants := RevokeAll(grants, agent, now);
      return Done;
    }

    method TerminateAgent(agent: ActorId, actor: Role, now: int) returns (r: Outcome)
      modifies this
      ensures var tx := Tx(Terminate(agent, actor), now);
        r == OutcomeOf(old(Rows()), tx) && Rows() == Apply(old(Rows()), tx)
    {
      if actor == Worker {
        return WorkerForbidden;
      }
      if agent !in agents {
        return AgentMissing;
      }
      agents := agents[agent := agents[agent].(status := Terminated)];
      grants := RevokeAll(grants, agent, now);
      return Done;
    }

    method RestoreAgent(agent: ActorId, actor: Role, now: int) returns (r: Outcome)
      modifies this
      ensures var tx := Tx(Restore(agent, actor), now);
        r == OutcomeOf(old(Rows()), tx) && Rows() == Apply(old(Rows()), tx)
    {
      if actor == Worker {
        return WorkerForbidden;
      }
      if agent !in agents {
        return AgentMissing;
      }
      if agents[agent].status == Terminated {
        return AgentIsTerminated;
      }
      agents := agents[agent := agents[agent].(status := Active)];
      return Done;
    }

    method IssuePermissionGrant(id: GrantId, agent: ActorId, tools: set<ToolName>, expiresAt: Option<int>, issuer: ActorId, now: int)
      returns (r: Outcome)
      requires id !in grants
      modifies this
      ensures var tx := Tx(Issue(id, agent, tools, expiresAt, issuer), now);
        r == OutcomeOf(old(Rows()), tx) && Rows() == Apply(old(Rows()), tx)
    {
      if agent !in agents || agents[agent].status != Active {
        return AgentNotActive;
      }
      if issuer == agent {
        return SelfGrant;
      }
      grants := grants[id := Grant(agent, tools, expiresAt, issuer, None)];
      return Done;
    }

    method RevokePermissionGrant(id: GrantId, now: int) returns (r: Outcome)
      modifies this
      ensures var tx := Tx(Revoke(id), now);
        r == OutcomeOf(old(Rows()), tx) && Rows() == Apply(old(Rows()), tx)
    {
      if id !in grants {
        return GrantMissing;
      }
      if grants[id].revokedAt.Some? {
        return AlreadyRevoked;
      }
      grants := grants[id := grants[id].(revokedAt := Some(now))];
      return Done;
    }

    method RegisterToolDefinition(tool: ToolName, enabled: bool, actor: Role, now: int) returns (r: Outcome)
      modifies this
      ensures var tx := Tx(Register(tool, enabled, actor), now);
        r == OutcomeOf(old(Rows()), tx) && Rows() == Apply(old(Rows()), tx)
    {
      if actor != Owner {
        return OwnerOnly;
      }
      if tool in catalog {
        return AlreadyRegistered;
      }
      catalog := catalog[tool := enabled];
      return Done;
    }

    /** Whether some unrevoked, unexpired grant of the agent names the tool. */
    method AllowsTool(agent: ActorId, tool: ToolName, now: int) returns (granted: bool)
      ensures granted <==> IsGranted(Rows(), agent, tool, now)
    {
      var current := map id | id in grants && IsCurrent(grants[id], agent, now) :: grants[id];
      assert forall id | id in grants && IsCurrent(grants[id], agent, now) :: id in current;
      granted := exists id :: id in current && tool in current[id].tools;
    }

    /** The gateway as the runner calls it, which catches its refusals and commits the rows. */
    method ExecuteTool(request: Request, actor: Role, runState: Shutdown.RunState, now: int) returns (r: Outcome)
      modifies this
      ensures var tx := Tx(Execute(request, actor, runState, true), now);
        r == OutcomeOf(old(Rows()), tx) && Rows() == Apply(old(Rows()), tx)
    {
      hide IsGranted, ToolRaises;
      if runState == Shutdown.EmergencyShutdown {
        return SystemRestricted;
      }
      if runState == Shutdown.Degraded {
        return SystemRestricted;
      }
      if request.agent !in agents || agents[request.agent].status != Active {
        return AgentNotActive;
      }
      if request.tool !in catalog {
        return ToolMissing;
      }
      if !catalog[request.tool] {
        return ToolDisabled;
      }
      if actor != Owner {
        var granted := AllowsTool(request.agent, request.tool, now);
        if !granted {
          executions := executions + [Execution(request, BlockedByPolicy)];
          return NotGranted;
        }
      }
      if ToolRaises(request) {
        executions := executions + [Execution(request, Failed)];
        return ToolFailed;
      }
      executions := executions + [Execution(request, Success)];
      if request.tool == "file_writer" && request.task.Some? {
        artifacts := artifacts + [Artifact(request.task.value, request.agent, request.tool, request.path)];
      }
      return Done;
    }
  }
}
