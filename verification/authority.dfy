/** Agents, permission grants and the tool gateway: the committed tables and the transactions on
    them, one after the other. */
module Authority {
  import opened Options
  import Shutdown

  /** Agents and owners are named by the same kind of id. */
  type ActorId = nat
  type GrantId = nat
  type TaskId = nat
  type ToolName = string

  datatype Role = Owner | Ceo | Hr | DepartmentManager | Worker | Verifier | Judge | TemporarySubAgent

  datatype AgentStatus = Active | Suspended | Terminated

  datatype Agent = Agent(role: Role, status: AgentStatus)

  datatype Grant = Grant(agent: ActorId, tools: set<ToolName>, expiresAt: Option<int>, issuer: ActorId, revokedAt: Option<int>)

  datatype ExecutionStatus = Success | Failed | BlockedByPolicy

  /** A tool request: the path parameter is empty when it is missing. */
  datatype Request = Request(tool: ToolName, agent: ActorId, task: Option<TaskId>, path: string)

  datatype Execution = Execution(request: Request, status: ExecutionStatus)

  datatype Artifact = Artifact(task: TaskId, agent: ActorId, tool: ToolName, resource: string)

  datatype Tables = Tables(
    agents: map<ActorId, Agent>,
    grants: map<GrantId, Grant>,
    tools: map<ToolName, bool>,               // registered, and enabled or not
    executions: seq<Execution>,
    artifacts: seq<Artifact>)

  const Empty := Tables(map[], map[], map[], [], [])

  /** The department named in a new agent's data, as the department table knows it. */
  datatype DepartmentRef = NoDepartment | ActiveDepartment | MissingOrInactive

  datatype Op =
    | Create(id: ActorId, role: Role, parent: Option<ActorId>, department: DepartmentRef, actor: Role)
    | Suspend(agent: ActorId, actor: Role)
    | Terminate(agent: ActorId, actor: Role)
    | Restore(agent: ActorId, actor: Role)
    | Issue(grant: GrantId, agent: ActorId, tools: set<ToolName>, expiresAt: Option<int>, issuer: ActorId)
    | Revoke(grant: GrantId)
    | Register(tool: ToolName, enabled: bool, actor: Role)
    /** A tool call; rows written before a refusal survive only if the caller catches it. */
    | Execute(request: Request, actor: Role, runState: Shutdown.RunState, caught: bool)

  datatype Tx = Tx(op: Op, now: int)

  datatype Outcome =
    | Done
    | WorkerForbidden | ParentRequired | DepartmentUnusable
    | AgentMissing | AgentIsTerminated | AgentNotActive | SelfGrant
    | GrantMissing | AlreadyRevoked
    | OwnerOnly | AlreadyRegistered
    | SystemRestricted | ToolMissing | ToolDisabled | NotGranted | ToolFailed

  // -------------------------------------------------------------- the gateway

  predicate Climbs(path: string) {
    exists i :: 0 <= i < |path| - 1 && path[i] == '.' && path[i + 1] == '.'
  }

  /** The built-in file tools refuse an empty path and one that climbs. */
  predicate ToolRaises(r: Request) {
    (r.tool == "file_reader" || r.tool == "file_writer") && (r.path == "" || Climbs(r.path))
  }

  predicate IsCurrent(g: Grant, agent: ActorId, now: int) {
    g.agent == agent && g.revokedAt.None? && (g.expiresAt.Some? ==> now < g.expiresAt.value)
  }

  predicate IsGranted(t: Tables, agent: ActorId, tool: ToolName, now: int) {
    exists id :: id in t.grants && IsCurrent(t.grants[id], agent, now) && tool in t.grants[id].tools
  }

  predicate IsActive(t: Tables, a: ActorId) {
    a in t.agents && t.agents[a].status == Active
  }

  function GatewayCheck(t: Tables, r: Request, actor: Role, runState: Shutdown.RunState, now: int): Outcome {
    if runState != Shutdown.Normal then SystemRestricted
    else if !IsActive(t, r.agent) then AgentNotActive
    else if r.tool !in t.tools then ToolMissing
    else if !t.tools[r.tool] then ToolDisabled
    else if actor != Owner && !IsGranted(t, r.agent, r.tool, now) then NotGranted
    else if ToolRaises(r) then ToolFailed
    else Done
  }

  function Written(t: Tables, r: Request, status: ExecutionStatus): Tables {
    t.(executions := t.executions + [Execution(r, status)])
  }

  /** What a successful write leaves for a later rollback of its task. */
  function ArtifactOf(r: Request): seq<Artifact> {
    if r.tool == "file_writer" && r.task.Some? then [Artifact(r.task.value, r.agent, r.tool, r.path)] else []
  }

  // ------------------------------------------------------------- transactions

  function OutcomeOf(t: Tables, tx: Tx): Outcome {
    match tx.op
    case Create(_, role, parent, department, actor) =>
      if actor == Worker && role != TemporarySubAgent then WorkerForbidden
      else if role == TemporarySubAgent && parent.None? then ParentRequired
      else if department == MissingOrInactive then DepartmentUnusable
      else Done
    case Suspend(a, actor) => if actor == Worker then WorkerForbidden else if a !in t.agents then AgentMissing else Done
    case Terminate(a, actor) => if actor == Worker then WorkerForbidden else if a !in t.agents then AgentMissing else Done
    case Restore(a, actor) =>
      if actor == Worker then WorkerForbidden
      else if a !in t.agents then AgentMissing
      else if t.agents[a].status == Terminated then AgentIsTerminated
      else Done
    case Issue(_, a, _, _, issuer) =>
      if !IsActive(t, a) then AgentNotActive else if issuer == a then SelfGrant else Done
    case Revoke(g) =>
      if g !in t.grants then GrantMissing else if t.grants[g].revokedAt.Some? then AlreadyRevoked else Done
    case Register(tool, _, actor) =>
      if actor != Owner then OwnerOnly else if tool in t.tools then AlreadyRegistered else Done
    case Execute(r, actor, runState, _) => GatewayCheck(t, r, actor, runState, tx.now)
  }

  function SetStatus(t: Tables, a: ActorId, status: AgentStatus): Tables
    requires a in t.agents
  {
    t.(agents := t.agents[a := t.agents[a].(status := status)])
  }

  /** The bulk update that revokes every unrevoked grant of an agent. */
  function RevokeAll(grants: map<GrantId, Grant>, a: ActorId, now: int): map<GrantId, Grant> {
    map g | g in grants :: if grants[g].agent == a && grants[g].revokedAt.None? then grants[g].(revokedAt := Some(now)) else grants[g]
  }

  /** The tables after a transaction that went through. */
  function Effect(t: Tables, tx: Tx): Tables
    requires OutcomeOf(t, tx) == Done
  {
    match tx.op
    case Create(id, role, _, _, _) => t.(agents := t.agents[id := Agent(role, Active)])
    case Suspend(a, _) => SetStatus(t, a, Suspended).(grants := RevokeAll(t.grants, a, tx.now))
    case Terminate(a, _) => SetStatus(t, a, Terminated).(grants := RevokeAll(t.grants, a, tx.now))
    case Restore(a, _) => SetStatus(t, a, Active)
    case Issue(g, a, tools, expiresAt, issuer) => t.(grants := t.grants[g := Grant(a, tools, expiresAt, issuer, None)])
    case Revoke(g) => t.(grants := t.grants[g := t.grants[g].(revokedAt := Some(tx.now))])
    case Register(tool, enabled, _) => t.(tools := t.tools[tool := enabled])
    case Execute(r, _, _, _) => Written(t, r, Success).(artifacts := t.artifacts + ArtifactOf(r))
  }

  /** The tables after a transaction: a refused one is rolled back, except for the execution row
      of a refused or failed tool call whose exception the caller catches. */
  function Apply(t: Tables, tx: Tx): Tables {
    match OutcomeOf(t, tx)
    case Done => Effect(t, tx)
    case NotGranted => if tx.op.Execute? && tx.op.caught then Written(t, tx.op.request, BlockedByPolicy) else t
    case ToolFailed => if tx.op.Execute? && tx.op.caught then Written(t, tx.op.request, Failed) else t
    case _ => t
  }

  // ---------------------------------------------------------------- histories

  type History = seq<Tx>

  function Replay(h: History): Tables {
    if h == [] then Empty else Apply(Replay(h[..|h| - 1]), h[|h| - 1])
  }

  /** Generated ids are new and the clock does not run backwards. */
  ghost predicate Legal(h: History) {
    && (forall i | 0 <= i < |h| :: FreshIds(Replay(h[..i]), h[i]))
    && (forall i, j | 0 <= i < j < |h| :: h[i].now <= h[j].now)
  }

  predicate FreshIds(t: Tables, tx: Tx) {
    && (tx.op.Create? ==> tx.op.id !in t.agents)
    && (tx.op.Issue? ==> tx.op.grant !in t.grants)
  }

  /** Transaction i of the history went through. */
  predicate Succeeds(h: History, i: int)
    requires 0 <= i < |h|
  {
    OutcomeOf(Replay(h[..i]), h[i]) == Done
  }

  lemma ReplayStep(h: History, i: int)
    requires 0 <= i < |h|
    ensures Replay(h[..i + 1]) == Apply(Replay(h[..i]), h[i])
  {
    assert h[..i + 1][..i] == h[..i];
  }
}
