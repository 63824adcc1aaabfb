/** The task and bridge services as they run, on the tables of bridges and tasks. */
module TaskService {
  import opened Options
  import opened Tasks

  class TaskService {
    var bridges: map<BridgeId, Bridge>
    var tasks: map<TaskId, Task>

    constructor ()
      ensures Rows() == Empty
    {
      bridges, tasks := map[], map[];
    }

    function Rows(): Tables
      reads this
    {
      Tables(bridges, tasks)
    }

    method RequestBridge(id: BridgeId, source: DepartmentId, target: DepartmentId, expiresAt: int,
                         sourceRow: Option<Department>, targetRow: Option<Department>, actor: Role, now: int)
      returns (r: Outcome)
      requires id !in bridges
      modifies this
      ensures var tx := Tx(Op.RequestBridge(id, source, target, expiresAt, sourceRow, targetRow, actor), now);
        r == OutcomeOf(old(Rows()), tx) && Rows() == Apply(old(Rows()), tx)
    {
      if actor == Worker {
        return RoleForbidden;
      }
      if source == target {
        return SameDepartment;
      }
      if expiresAt <= now {
        return ExpiryInPast;
      }
      if sourceRow.None? || !sourceRow.value.active {
        return SourceUnusable;
      }
      if targetRow.None? || !targetRow.value.active {
        return TargetUnusable;
      }
      if sourceRow.value.sensitive && targetRow.value.open && actor !in {Owner, Ceo} {
        return NeedsExecutive;
      }
      bridges := bridges[id := Bridge(source, target, Pending, expiresAt)];
      return Done;
    }

    /** Marks an expired bridge and refuses; the caller that lets the refusal out rolls the mark
        back. */
    method ApproveBridge(id: BridgeId, actor: Role, now: int) returns (r: Outcome)
      modifies this
      ensures var tx := Tx(Op.ApproveBridge(id, actor, true), now);
        r == OutcomeOf(old(Rows()), tx) && Rows() == Apply(old(Rows()), tx)
    {
      if actor !in {Owner, Ceo, DepartmentManager} {
        return RoleForbidden;
      }
      if id !in bridges {
        return BridgeMissing;
      }
      if bridges[id].status != Pending {
        return BridgeNotPending;
      }
      if bridges[id].expiresAt <= now {
        bridges := bridges[id := bridges[id].(status := Expired)];
        return BridgeIsExpired;
      }
      bridges := bridges[id := bridges[id].(status := Active)];
      return Done;
    }

    method RevokeBridge(id: BridgeId, now: int) returns (r: Outcome)
      modifies this
      ensures var tx := Tx(Op.RevokeBridge(id), now);
        r == OutcomeOf(old(Rows()), tx) && Rows() == Apply(old(Rows()), tx)
    {
      if id !in bridges {
        return BridgeMissing;
      }
      bridges := bridges[id := bridges[id].(status := Revoked)];
      return Done;
    }

    /** Some active, unexpired bridge between the two departments, if there is one. */
    method CheckActiveBridge(d: DepartmentId, e: Option<DepartmentId>, now: int) returns (found: Option<BridgeId>)
      ensures found.Some? <==> IsBridged(Rows(), d, e, now)
      ensures found.Some? ==> found.value in bridges && IsOpen(bridges[found.value], now) && Joins(bridges[found.value], d, e.value)
    {
      if e.Some? && exists b :: b in bridges && IsOpen(bridges[b], now) && Joins(bridges[b], d, e.value) {
        var b :| b in bridges && IsOpen(bridges[b], now) && Joins(bridges[b], d, e.value);
        return Some(b);
      }
      return None;
    }

    method CreateTask(id: TaskId, origin: DepartmentId, department: DepartmentId, originRow: Option<Department>,
                      departmentRow: Option<Department>, assignee: Option<AgentId>, agentRow: Option<Agent>, now: int)
      returns (r: Outcome)
      requires id !in tasks
      modifies this
      ensures var tx := Tx(Op.CreateTask(id, origin, department, originRow, departmentRow, assignee, agentRow), now);
        r == OutcomeOf(old(Rows()), tx) && Rows() == Apply(old(Rows()), tx)
    {
      if originRow.None? || !originRow.value.active {
        return DepartmentUnusable;
      }
      if departmentRow.None? || !departmentRow.value.active {
        return DepartmentUnusable;
      }
      if origin != department {
        var bridge := CheckActiveBridge(origin, Some(department), now);
        if bridge.None? {
          return BridgeRequired;
        }
      }
      var status := Created;
      if assignee.Some? {
        if agentRow.None? || !agentRow.value.active {
          return AgentUnusable;
        }
        if agentRow.value.department != Some(department) {
          return AgentElsewhere;
        }
        status := Assigned;
      }
      tasks := tasks[id := Task(status, origin, department, assignee)];
      return Done;
    }

    method AssignTask(id: TaskId, agent: AgentId, agentRow: Option<Agent>, now: int) returns (r: Outcome)
      modifies this
      ensures var tx := Tx(Op.AssignTask(id, agent, agentRow), now);
        r == OutcomeOf(old(Rows()), tx) && Rows() == Apply(old(Rows()), tx)
    {
      if id !in tasks {
        return TaskMissing;
      }
      if tasks[id].status in {Completed, Failed, Cancelled} {
        return TaskIsTerminal;
      }
      if agentRow.None? || !agentRow.value.active {
        return AgentUnusable;
      }
      if agentRow.value.department != Some(tasks[id].department) {
        var bridge := CheckActiveBridge(tasks[id].department, agentRow.value.department, now);
        if bridge.None? {
          return BridgeRequired;
        }
      }
      tasks := tasks[id := tasks[id].(status := Assigned, agent := Some(agent))];
      return Done;
    }

    method TransitionTaskStatus(id: TaskId, to: TaskStatus, now: int) returns (r: Outcome)
      modifies this
      ensures var tx := Tx(Transition(id, to), now);
        r == OutcomeOf(old(Rows()), tx) && Rows() == Apply(old(Rows()), tx)
    {
      if id !in tasks {
        return TaskMissing;
      }
      if to !in ValidTransitions(tasks[id].status) {
        return BadTransition;
      }
      tasks := tasks[id := tasks[id].(status := to)];
      return Done;
    }

    method DelegateTask(id: TaskId, bridge: BridgeId, agent: AgentId, agentRow: Option<Agent>, now: int) returns (r: Outcome)
      modifies this
      ensures var tx := Tx(Delegate(id, bridge, agent, agentRow), now);
        r == OutcomeOf(old(Rows()), tx) && Rows() == Apply(old(Rows()), tx)
    {
      if id !in tasks {
        return TaskMissing;
      }
      if bridge !in bridges || bridges[bridge].status != Active || bridges[bridge].expiresAt <= now {
        return BridgeRequired;
      }
      if agentRow.None? || !agentRow.value.active {
        return AgentUnusable;
      }
      var row := bridges[bridge];
      if agentRow.value.department !in {Some(row.source), Some(row.target)} {
        return AgentElsewhere;
      }
      tasks := tasks[id := tasks[id].(status := Assigned, agent := Some(agent), department := agentRow.value.department.value)];
      return Done;
    }
  }
}
