/** Tasks and cross-department bridges: the committed tables and the transactions on them, one
    after the other. */
module Tasks {
  import opened Options

  type DepartmentId = nat
  type AgentId = nat
  type TaskId = nat
  type BridgeId = nat

  datatype Role = Owner | Ceo | Hr | DepartmentManager | Worker | OtherRole

  datatype BridgeStatus = Pending | Active | Revoked | Expired

  datatype Bridge = Bridge(source: DepartmentId, target: DepartmentId, status: BridgeStatus, expiresAt: int)

  datatype TaskStatus = Created | Assigned | InProgress | Blocked | AwaitingReview | Completed | Failed | Cancelled

  datatype Task = Task(status: TaskStatus, origin: DepartmentId, department: DepartmentId, agent: Option<AgentId>)

  datatype Tables = Tables(bridges: map<BridgeId, Bridge>, tasks: map<TaskId, Task>)

  const Empty := Tables(map[], map[])

  /** A department or agent row as the transaction reads it; None when there is none. */
  datatype Department = Department(active: bool, sensitive: bool, open: bool)
  datatype Agent = Agent(active: bool, department: Option<DepartmentId>)

  function ValidTransitions(from: TaskStatus): set<TaskStatus> {
    match from
    case Created => {Assigned, Cancelled}
    case Assigned => {InProgress, Blocked, Cancelled}
    case InProgress => {AwaitingReview, Blocked, Completed, Failed, Cancelled}
    case Blocked => {InProgress, Cancelled, Failed}
    case AwaitingReview => {Completed, InProgress, Failed}
    case Completed => {}
    case Failed => {}
    case Cancelled => {}
  }

  predicate IsTerminal(s: TaskStatus) {
    s == Completed || s == Failed || s == Cancelled
  }

  datatype Op =
    | RequestBridge(bridge: BridgeId, source: DepartmentId, target: DepartmentId, expiresAt: int,
                    sourceRow: Option<Department>, targetRow: Option<Department>, actor: Role)
    /** An expired bridge is marked before the refusal; the mark survives only if the caller catches it. */
    | ApproveBridge(bridge: BridgeId, actor: Role, caught: bool)
    | RevokeBridge(bridge: BridgeId)
    | CreateTask(task: TaskId, origin: DepartmentId, department: DepartmentId,
                 originRow: Option<Department>, departmentRow: Option<Department>,
                 assignee: Option<AgentId>, agentRow: Option<Agent>)
    | AssignTask(task: TaskId, agent: AgentId, agentRow: Option<Agent>)
    | Transition(task: TaskId, to: TaskStatus)
    | Delegate(task: TaskId, bridge: BridgeId, agent: AgentId, agentRow: Option<Agent>)

  datatype Tx = Tx(op: Op, now: int)

  datatype Outcome =
    | Done
    | RoleForbidden | SameDepartment | ExpiryInPast | SourceUnusable | TargetUnusable | NeedsExecutive
    | BridgeMissing | BridgeNotPending | BridgeIsExpired
    | TaskMissing | TaskIsTerminal | BadTransition
    | DepartmentUnusable | BridgeRequired | AgentUnusable | AgentElsewhere

  predicate IsUsable(row: Option<Department>) {
    row.Some? && row.value.active
  }

  predicate Joins(b: Bridge, d: DepartmentId, e: DepartmentId) {
    (b.source == d && b.target == e) || (b.source == e && b.target == d)
  }

  predicate IsOpen(b: Bridge, now: int) {
    b.status == Active && now < b.expiresAt
  }

  /** Some active, unexpired bridge joins the two departments, in either direction; an agent
      without a department is joined to nothing. */
  predicate IsBridged(t: Tables, d: DepartmentId, e: Option<DepartmentId>, now: int) {
    e.Some? && exists b :: b in t.bridges && IsOpen(t.bridges[b], now) && Joins(t.bridges[b], d, e.value)
  }

  function RequestOutcome(op: Op, now: int): Outcome
    requires op.RequestBridge?
  {
    if op.actor == Worker then RoleForbidden
    else if op.source == op.target then SameDepartment
    else if op.expiresAt <= now then ExpiryInPast
    else if !IsUsable(op.sourceRow) then SourceUnusable
    else if !IsUsable(op.targetRow) then TargetUnusable
    else if op.sourceRow.value.sensitive && op.targetRow.value.open && op.actor != Owner && op.actor != Ceo then NeedsExecutive
    else Done
  }

  function CreateOutcome(t: Tables, op: Op, now: int): Outcome
    requires op.CreateTask?
  {
    if !IsUsable(op.originRow) || !IsUsable(op.departmentRow) then DepartmentUnusable
    else if op.origin != op.department && !IsBridged(t, op.origin, Some(op.department), now) then BridgeRequired
    else if op.assignee.Some? && (op.agentRow.None? || !op.agentRow.value.active) then AgentUnusable
    else if op.assignee.Some? && op.agentRow.value.department != Some(op.department) then AgentElsewhere
    else Done
  }

  function AssignOutcome(t: Tables, op: Op, now: int): Outcome
    requires op.AssignTask?
  {
    if op.task !in t.tasks then TaskMissing
    else if IsTerminal(t.tasks[op.task].status) then TaskIsTerminal
    else if op.agentRow.None? || !op.agentRow.value.active then AgentUnusable
    else
      var here, there := t.tasks[op.task].department, op.agentRow.value.department;
      if there != Some(here) && !IsBridged(t, here, there, now) then BridgeRequired else Done
  }

  function DelegateOutcome(t: Tables, op: Op, now: int): Outcome
    requires op.Delegate?
  {
    if op.task !in t.tasks then TaskMissing
    else if op.bridge !in t.bridges || !IsOpen(t.bridges[op.bridge], now) then BridgeRequired
    else if op.agentRow.None? || !op.agentRow.value.active then AgentUnusable
    else
      var b := t.bridges[op.bridge];
      if op.agentRow.value.department != Some(b.source) && op.agentRow.value.department != Some(b.target) then AgentElsewhere
      else Done
  }

  function OutcomeOf(t: Tables, tx: Tx): Outcome {
    match tx.op
    case RequestBridge(_, _, _, _, _, _, _) => RequestOutcome(tx.op, tx.now)
    case ApproveBridge(b, actor, _) =>
      if actor != Owner && actor != Ceo && actor != DepartmentManager then RoleForbidden
      else if b !in t.bridges then BridgeMissing
      else if t.bridges[b].status != Pending then BridgeNotPending
      else if t.bridges[b].expiresAt <= tx.now then BridgeIsExpired
      else Done
    case RevokeBridge(b) => if b !in t.bridges then BridgeMissing else Done
    case CreateTask(_, _, _, _, _, _, _) => CreateOutcome(t, tx.op, tx.now)
    case AssignTask(_, _, _) => AssignOutcome(t, tx.op, tx.now)
    case Transition(task, to) =>
      if task !in t.tasks then TaskMissing
      else if to !in ValidTransitions(t.tasks[task].status) then BadTransition
      else Done
    case Delegate(_, _, _, _) => DelegateOutcome(t, tx.op, tx.now)
  }

  function PutBridge(t: Tables, b: BridgeId, status: BridgeStatus): Tables
    requires b in t.bridges
  {
    t.(bridges := t.bridges[b := t.bridges[b].(status := status)])
  }

  function PutTask(t: Tables, id: TaskId, task: Task): Tables {
    t.(tasks := t.tasks[id := task])
  }

  /** The tables after a transaction that went through. */
  function Effect(t: Tables, tx: Tx): Tables
    requires OutcomeOf(t, tx) == Done
  {
    match tx.op
    case RequestBridge(b, source, target, expiresAt, _, _, _) =>
      t.(bridges := t.bridges[b := Bridge(source, target, Pending, expiresAt)])
    case ApproveBridge(b, _, _) => PutBridge(t, b, Active)
    case RevokeBridge(b) => PutBridge(t, b, Revoked)
    case CreateTask(id, origin, department, _, _, agent, _) =>
      PutTask(t, id, Task(if agent.Some? then Assigned else Created, origin, department, agent))
    case AssignTask(id, agent, _) => PutTask(t, id, t.tasks[id].(status := Assigned, agent := Some(agent)))
    case Transition(id, to) => PutTask(t, id, t.tasks[id].(status := to))
    case Delegate(id, _, agent, agentRow) =>
      PutTask(t, id, t.tasks[id].(status := Assigned, agent := Some(agent), department := agentRow.value.department.value))
  }

  /** The tables after a transaction: a refused one is rolled back, unless a caller catches the
      refusal to approve an expired bridge. */
  function Apply(t: Tables, tx: Tx): Tables {
    match OutcomeOf(t, tx)
    case Done => Effect(t, tx)
    case BridgeIsExpired => if tx.op.ApproveBridge? && tx.op.caught then PutBridge(t, tx.op.bridge, Expired) else t
    case _ => t
  }

  // ---------------------------------------------------------------- histories

  type History = seq<Tx>

  function Replay(h: History): Tables {
    if h == [] then Empty else Apply(Replay(h[..|h| - 1]), h[|h| - 1])
  }

  predicate FreshIds(t: Tables, tx: Tx) {
    && (tx.op.RequestBridge? ==> tx.op.bridge !in t.bridges)
    && (tx.op.CreateTask? ==> tx.op.task !in t.tasks)
  }

  /** Generated ids are new and the clock does not run backwards. */
  ghost predicate Legal(h: History) {
    && (forall i | 0 <= i < |h| :: FreshIds(Replay(h[..i]), h[i]))
    && (forall i, j | 0 <= i < j < |h| :: h[i].now <= h[j].now)
  }

  predicate Succeeds(h: History, i: int)
    requires 0 <= i < |h|
  {
    OutcomeOf(Replay(h[..i]), h[i]) == Done
  }

  lemma ReplayStep(h: History, i: int)
    requires 0 <= i < |h|
    ensures Replay(h[..i + 1]) == Apply(Replay(h[..i]), h[i])
  {
    assert h[..i + 1][..i] == h[..i];
  }
}
