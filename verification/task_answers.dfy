/** What each request on bridges and tasks is answered and what it leaves, in terms of the rows
    alone; and which bridge a delegation needs, in every history. */
module TaskAnswers {
  import opened Options
  import opened Tasks
  import opened TaskGuarantees

  predicate IsOnRecordAndActive(row: Option<Department>) {
    match row
    case None => false
    case Some(department) => department.active
  }

  predicate IsAtWork(row: Option<Agent>) {
    match row
    case None => false
    case Some(agent) => agent.active
  }

  predicate BelongsTo(row: Option<Agent>, d: DepartmentId) {
    row.Some? && row.value.department.Some? && row.value.department.value == d
  }

  /** An active bridge whose end lies ahead. */
  predicate CanBeCrossed(t: Tables, b: BridgeId, now: int) {
    b in t.bridges && t.bridges[b].status.Active? && now < t.bridges[b].expiresAt
  }

  /** A bridge that can be crossed leads from one department to the other, or back. */
  predicate Connected(t: Tables, d: DepartmentId, e: DepartmentId, now: int) {
    exists b :: b in t.bridges && CanBeCrossed(t, b, now) && {t.bridges[b].source, t.bridges[b].target} == {d, e}
  }

  lemma ConnectedIff(t: Tables, d: DepartmentId, e: DepartmentId, now: int)
    requires d != e
    ensures Connected(t, d, e, now) <==> IsBridged(t, d, Some(e), now)
  {
    forall b | b in t.bridges
      ensures {t.bridges[b].source, t.bridges[b].target} == {d, e} <==> Joins(t.bridges[b], d, e)
    {
      PairsAgree(t.bridges[b], d, e);
    }
    if Connected(t, d, e, now) {
      var b :| b in t.bridges && CanBeCrossed(t, b, now) && {t.bridges[b].source, t.bridges[b].target} == {d, e};
      assert IsOpen(t.bridges[b], now) && Joins(t.bridges[b], d, e);
    }
    if b :| b in t.bridges && IsOpen(t.bridges[b], now) && Joins(t.bridges[b], d, e) {
      assert CanBeCrossed(t, b, now);
    }
  }

  lemma PairsAgree(b: Bridge, d: DepartmentId, e: DepartmentId)
    requires d != e
    ensures {b.source, b.target} == {d, e} <==> Joins(b, d, e)
  {
    if {b.source, b.target} == {d, e} {
      assert d in {b.source, b.target} && e in {b.source, b.target};
    }
    if Joins(b, d, e) {
      assert {b.source, b.target} == {d, e};
    }
  }

  // ---------------------------------------------------------------------- bridges

  /** A bridge is requested by anybody but a worker, between two different active departments, with its
      end ahead; from sensitive data to the public only by the owner or the CEO. */
  lemma BridgeRequestIff(t: Tables, b: BridgeId, source: DepartmentId, target: DepartmentId, expiresAt: int,
                         sourceRow: Option<Department>, targetRow: Option<Department>, actor: Role, now: int)
    ensures var tx := Tx(RequestBridge(b, source, target, expiresAt, sourceRow, targetRow, actor), now);
      var (t', o) := (Apply(t, tx), OutcomeOf(t, tx));
      && (o == Done <==>
            && !actor.Worker? && source != target && now < expiresAt
            && IsOnRecordAndActive(sourceRow) && IsOnRecordAndActive(targetRow)
            && (sourceRow.value.sensitive && targetRow.value.open ==> actor.Owner? || actor.Ceo?))
      && (o == Done ==> t' == Tables(t.bridges[b := Bridge(source, target, Pending, expiresAt)], t.tasks))
      && (o != Done ==> t' == t)
  {
  }

  /** Why a request for a bridge is refused: the first of the checks that fails. */
  lemma BridgeRequestRefusedBecause(t: Tables, b: BridgeId, source: DepartmentId, target: DepartmentId, expiresAt: int,
                                    sourceRow: Option<Department>, targetRow: Option<Department>, actor: Role, now: int)
    ensures var o := OutcomeOf(t, Tx(RequestBridge(b, source, target, expiresAt, sourceRow, targetRow, actor), now));
      var proper := !actor.Worker? && source != target && now < expiresAt;
      && (o == RoleForbidden <==> actor.Worker?)
      && (o == SameDepartment <==> !actor.Worker? && source == target)
      && (o == ExpiryInPast <==> !actor.Worker? && source != target && expiresAt <= now)
      && (o == SourceUnusable <==> proper && !IsOnRecordAndActive(sourceRow))
      && (o == TargetUnusable <==> proper && IsOnRecordAndActive(sourceRow) && !IsOnRecordAndActive(targetRow))
      && (o == NeedsExecutive <==>
            && proper && IsOnRecordAndActive(sourceRow) && IsOnRecordAndActive(targetRow)
            && sourceRow.value.sensitive && targetRow.value.open && !actor.Owner? && !actor.Ceo?)
  {
  }

  /** The bridge changes its status and nothing else changes. */
  predicate OnlyStatusChanges(t: Tables, t': Tables, b: BridgeId, status: BridgeStatus) {
    && t'.tasks == t.tasks && b in t.bridges && t'.bridges.Keys == t.bridges.Keys
    && t'.bridges[b] == Bridge(t.bridges[b].source, t.bridges[b].target, status, t.bridges[b].expiresAt)
    && forall c | c in t.bridges && c != b :: t'.bridges[c] == t.bridges[c]
  }

  /** A bridge is approved by owner, CEO or manager when it is pending and its end lies ahead; the
      refusal of one that has expired marks it, if that is committed. */
  lemma BridgeApprovalIff(t: Tables, b: BridgeId, actor: Role, caught: bool, now: int)
    ensures var tx := Tx(ApproveBridge(b, actor, caught), now);
      var (t', o) := (Apply(t, tx), OutcomeOf(t, tx));
      var allowed := actor.Owner? || actor.Ceo? || actor.DepartmentManager?;
      var pending := b in t.bridges && t.bridges[b].status.Pending?;
      && (o == RoleForbidden <==> !allowed)
      && (o == BridgeMissing <==> allowed && b !in t.bridges)
      && (o == BridgeNotPending <==> allowed && b in t.bridges && !pending)
      && (o == BridgeIsExpired <==> allowed && pending && t.bridges[b].expiresAt <= now)
      && (o == Done <==> allowed && pending && now < t.bridges[b].expiresAt)
      && (o == Done ==> OnlyStatusChanges(t, t', b, Active))
      && (o == BridgeIsExpired && caught ==> OnlyStatusChanges(t, t', b, Expired))
      && (o != Done && !(o == BridgeIsExpired && caught) ==> t' == t)
  {
  }

  /** A bridge on record is revoked, whatever its status. */
  lemma BridgeRevocationIff(t: Tables, b: BridgeId, now: int)
    ensures var tx := Tx(RevokeBridge(b), now);
      var (t', o) := (Apply(t, tx), OutcomeOf(t, tx));
      && (o == Done <==> b in t.bridges) && (o == BridgeMissing <==> b !in t.bridges)
      && (o == Done ==> OnlyStatusChanges(t, t', b, Revoked))
      && (o != Done ==> t' == t)
  {
  }

  // ------------------------------------------------------------------------ tasks

  /** A task is created between active departments, in another department only over a bridge, for an
      agent only if it is active and of the department; it is assigned at once when it has one. */
  lemma CreationIff(t: Tables, id: TaskId, origin: DepartmentId, department: DepartmentId,
                    originRow: Option<Department>, departmentRow: Option<Department>,
                    assignee: Option<AgentId>, agentRow: Option<Agent>, now: int)
    ensures var tx := Tx(CreateTask(id, origin, department, originRow, departmentRow, assignee, agentRow), now);
      var (t', o) := (Apply(t, tx), OutcomeOf(t, tx));
      && (o == Done <==>
            && IsOnRecordAndActive(originRow) && IsOnRecordAndActive(departmentRow)
            && (origin == department || Connected(t, origin, department, now))
            && (assignee.Some? ==> IsAtWork(agentRow) && BelongsTo(agentRow, department)))
      && (o == DepartmentUnusable <==> !IsOnRecordAndActive(originRow) || !IsOnRecordAndActive(departmentRow))
      && (o == BridgeRequired <==>
            && IsOnRecordAndActive(originRow) && IsOnRecordAndActive(departmentRow)
            && origin != department && !Connected(t, origin, department, now))
      && (o == AgentUnusable ==> assignee.Some? && !IsAtWork(agentRow))
      && (o == AgentElsewhere ==> assignee.Some? && IsAtWork(agentRow) && !BelongsTo(agentRow, department))
      && o in {Done, DepartmentUnusable, BridgeRequired, AgentUnusable, AgentElsewhere}
      && (o == Done ==>
            && t'.bridges == t.bridges
            && t'.tasks == t.tasks[id := Task(if assignee == None then Created else Assigned, origin, department, assignee)])
      && (o != Done ==> t' == t)
  {
    if origin != department {
      ConnectedIff(t, origin, department, now);
    }
    hide Connected, IsBridged;
  }

  predicate HasEnded(task: Task) {
    task.status.Completed? || task.status.Failed? || task.status.Cancelled?
  }

  predicate OnlyTaskChanges(t: Tables, t': Tables, id: TaskId, status: TaskStatus, department: DepartmentId, agent: Option<AgentId>) {
    && t'.bridges == t.bridges && id in t.tasks && t'.tasks.Keys == t.tasks.Keys
    && t'.tasks[id] == Task(status, t.tasks[id].origin, department, agent)
    && forall u | u in t.tasks && u != id :: t'.tasks[u] == t.tasks[u]
  }

  /** A task that has not ended is assigned to an active agent of its department, or of one that a
      bridge connects to it; it stays in its department. */
  lemma AssignmentIff(t: Tables, id: TaskId, agent: AgentId, agentRow: Option<Agent>, now: int)
    ensures var tx := Tx(AssignTask(id, agent, agentRow), now);
      var (t', o) := (Apply(t, tx), OutcomeOf(t, tx));
      && (o == TaskMissing <==> id !in t.tasks)
      && (o == TaskIsTerminal <==> id in t.tasks && HasEnded(t.tasks[id]))
      && (o == AgentUnusable <==> id in t.tasks && !HasEnded(t.tasks[id]) && !IsAtWork(agentRow))
      && (o != Done && id in t.tasks && !HasEnded(t.tasks[id]) && IsAtWork(agentRow) ==> o == BridgeRequired)
      && (o == Done <==>
            && id in t.tasks && !HasEnded(t.tasks[id]) && IsAtWork(agentRow) && agentRow.value.department.Some?
            && (BelongsTo(agentRow, t.tasks[id].department)
                || Connected(t, t.tasks[id].department, agentRow.value.department.value, now)))
      && (o == Done ==> OnlyTaskChanges(t, t', id, Assigned, t.tasks[id].department, Some(agent)))
      && (o != Done ==> t' == t)
  {
    if id in t.tasks && agentRow.Some? && agentRow.value.department.Some?
       && agentRow.value.department.value != t.tasks[id].department {
      ConnectedIff(t, t.tasks[id].department, agentRow.value.department.value, now);
    }
    hide Connected, IsBridged;
  }

  /** The moves between statuses, pair by pair. */
  predicate MayFollow(from: TaskStatus, to: TaskStatus) {
    || (from, to) == (Created, Assigned) || (from, to) == (Created, Cancelled)
    || (from, to) == (Assigned, InProgress) || (from, to) == (Assigned, Blocked) || (from, to) == (Assigned, Cancelled)
    || (from, to) == (InProgress, AwaitingReview) || (from, to) == (InProgress, Blocked)
    || (from, to) == (InProgress, Completed) || (from, to) == (InProgress, Failed) || (from, to) == (InProgress, Cancelled)
    || (from, to) == (Blocked, InProgress) || (from, to) == (Blocked, Cancelled) || (from, to) == (Blocked, Failed)
    || (from, to) == (AwaitingReview, Completed) || (from, to) == (AwaitingReview, InProgress)
    || (from, to) == (AwaitingReview, Failed)
  }

  lemma TransitionIff(t: Tables, id: TaskId, to: TaskStatus, now: int)
    ensures var tx := Tx(Transition(id, to), now);
      var (t', o) := (Apply(t, tx), OutcomeOf(t, tx));
      && (o == TaskMissing <==> id !in t.tasks)
      && (o == Done <==> id in t.tasks && MayFollow(t.tasks[id].status, to))
      && (o == BadTransition <==> id in t.tasks && !MayFollow(t.tasks[id].status, to))
      && (o == Done ==> OnlyTaskChanges(t, t', id, to, t.tasks[id].department, t.tasks[id].agent))
      && (o != Done ==> t' == t)
  {
  }

  /** A task is delegated when the bridge named is active and its end lies ahead, to an active agent of
      one of its two departments, whatever the status and the department of the task. */
  lemma DelegationIff(t: Tables, id: TaskId, b: BridgeId, agent: AgentId, agentRow: Option<Agent>, now: int)
    ensures var tx := Tx(Delegate(id, b, agent, agentRow), now);
      var (t', o) := (Apply(t, tx), OutcomeOf(t, tx));
      && (o == TaskMissing <==> id !in t.tasks)
      && (o == BridgeRequired <==> id in t.tasks && !CanBeCrossed(t, b, now))
      && (o == AgentUnusable <==> id in t.tasks && CanBeCrossed(t, b, now) && !IsAtWork(agentRow))
      && (o == AgentElsewhere <==>
            && id in t.tasks && CanBeCrossed(t, b, now) && IsAtWork(agentRow)
            && !BelongsTo(agentRow, t.bridges[b].source) && !BelongsTo(agentRow, t.bridges[b].target))
      && (o == Done <==>
            && id in t.tasks && CanBeCrossed(t, b, now) && IsAtWork(agentRow)
            && (BelongsTo(agentRow, t.bridges[b].source) || BelongsTo(agentRow, t.bridges[b].target)))
      && (o == Done ==> OnlyTaskChanges(t, t', id, Assigned, agentRow.value.department.value, Some(agent)))
      && (o != Done ==> t' == t)
  {
  }

  // ----------------------------------------------------------- delegation in histories

  /** In every history: a delegation goes through exactly when the bridge it names was requested and
      approved, was not revoked since and has not expired, and the agent is active and of one of the
      departments the request named. */
  lemma DelegationRunsIffBridgeStands(h: History, k: nat)
    requires Legal(h) && k < |h| && h[k].op.Delegate?
    ensures var (op, t) := (h[k].op, Replay(h[..k]));
      Succeeds(h, k) <==>
        && op.task in t.tasks && IsAtWork(op.agentRow)
        && exists r: nat, a: nat :: Stands(h, k, r, a, op.bridge) && IsCrossedBy(h[r].op, h[k])
  {
    var (op, t) := (h[k].op, Replay(h[..k]));
    ActiveIffStands(h, k, op.bridge);
    DelegationIff(t, op.task, op.bridge, op.agent, op.agentRow, h[k].now);
    assert h[k] == Tx(Delegate(op.task, op.bridge, op.agent, op.agentRow), h[k].now);
    hide Legal, Replay, OutcomeOf, Stands;
    if Succeeds(h, k) {
      var r: nat, a: nat :| Stands(h, k, r, a, op.bridge);
      assert IsBridgeOf(t, op.bridge, h[r].op);
      assert IsCrossedBy(h[r].op, h[k]);
    }
    if r: nat, a: nat :| Stands(h, k, r, a, op.bridge) && IsCrossedBy(h[r].op, h[k]) {
      assert IsBridgeOf(t, op.bridge, h[r].op);
    }
  }

  /** The delegation happens before the end of the requested bridge, to an agent from one end of it. */
  predicate IsCrossedBy(request: Op, delegation: Tx) {
    && request.RequestBridge? && delegation.op.Delegate? && delegation.now < request.expiresAt
    && (BelongsTo(delegation.op.agentRow, request.source) || BelongsTo(delegation.op.agentRow, request.target))
  }

  /** Over a bridge that was revoked before, no delegation goes through. */
  lemma NoDelegationOverRevoked(h: History, i: nat, k: nat)
    requires Legal(h) && i < k < |h| && h[k].op.Delegate? && RevokedAt(h, i, h[k].op.bridge)
    ensures !Succeeds(h, k)
  {
    var (op, t) := (h[k].op, Replay(h[..k]));
    RevocationIsFinal(h, i, k, op.bridge);
    DelegationIff(t, op.task, op.bridge, op.agent, op.agentRow, h[k].now);
    assert h[k] == Tx(Delegate(op.task, op.bridge, op.agent, op.agentRow), h[k].now);
    hide Legal, Replay, OutcomeOf;
  }
}
