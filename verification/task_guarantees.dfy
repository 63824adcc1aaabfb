/** What bridges and task statuses promise over any history of transactions. */
module TaskGuarantees {
  import opened Options
  import opened Tasks

  // ----------------------------------------------------------- a bridge's story

  predicate RequestedAt(h: History, i: nat, b: BridgeId) {
    i < |h| && h[i].op.RequestBridge? && h[i].op.bridge == b && Succeeds(h, i)
  }

  predicate ApprovedAt(h: History, i: nat, b: BridgeId) {
    i < |h| && h[i].op.ApproveBridge? && h[i].op.bridge == b && Succeeds(h, i)
  }

  predicate RevokedAt(h: History, i: nat, b: BridgeId) {
    i < |h| && h[i].op == RevokeBridge(b) && Succeeds(h, i)
  }

  /** Bridge b was requested at r, approved at a, and up to n nobody revoked it. */
  ghost predicate Stands(h: History, n: nat, r: nat, a: nat, b: BridgeId)
    requires n <= |h|
  {
    r < a < n && RequestedAt(h, r, b) && ApprovedAt(h, a, b) && forall j | a < j < n :: !RevokedAt(h, j, b)
  }

  /** What one transaction may do to one bridge. */
  ghost predicate BridgeMoves(t: Tables, tx: Tx, t': Tables, b: BridgeId) {
    if b in t.bridges then
      var row := t.bridges[b];
      && b in t'.bridges
      && t'.bridges[b] == row.(status := t'.bridges[b].status)
      && (tx.op == RevokeBridge(b) ==> OutcomeOf(t, tx) == Done && t'.bridges[b].status == Revoked)
      && (tx.op.ApproveBridge? && tx.op.bridge == b && OutcomeOf(t, tx) == Done ==>
            row.status == Pending && t'.bridges[b].status == Active)
      && (t'.bridges[b].status != row.status ==>
            (tx.op.ApproveBridge? && tx.op.bridge == b && row.status == Pending
             && (t'.bridges[b].status == Active ==> OutcomeOf(t, tx) == Done))
            || (tx.op == RevokeBridge(b) && OutcomeOf(t, tx) == Done))
    else
      && (b in t'.bridges <==> tx.op.RequestBridge? && tx.op.bridge == b && OutcomeOf(t, tx) == Done)
      && (b in t'.bridges ==>
            t'.bridges[b] == Bridge(tx.op.source, tx.op.target, Pending, tx.op.expiresAt) && tx.op.source != tx.op.target)
  }

  lemma BridgeStep(t: Tables, tx: Tx, b: BridgeId)
    requires FreshIds(t, tx)
    ensures BridgeMoves(t, tx, Apply(t, tx), b)
  {
    hide IsBridged, ValidTransitions;
  }

  lemma BridgeNext(h: History, n: nat, b: BridgeId)
    requires Legal(h) && n < |h|
    ensures BridgeMoves(Replay(h[..n]), h[n], Replay(h[..n + 1]), b)
    ensures h[n].op.RequestBridge? && h[n].op.bridge == b ==> b !in Replay(h[..n]).bridges
    ensures RevokedAt(h, n, b) || ApprovedAt(h, n, b) ==> b in Replay(h[..n]).bridges
  {
    ReplayStep(h, n);
    assert FreshIds(Replay(h[..n]), h[n]);
    hide Legal, Replay, Apply, BridgeMoves;
    BridgeStep(Replay(h[..n]), h[n], b);
  }

  predicate IsActiveBridge(t: Tables, b: BridgeId) {
    b in t.bridges && t.bridges[b].status == Active
  }

  lemma StartsEmpty(h: History)
    ensures Replay(h[..0]) == Empty
    ensures forall b :: !IsActiveBridge(Replay(h[..0]), b)
    ensures forall task :: StatusOf(Replay(h[..0]), task) == None
  {
  }

  lemma {:induction false} BridgeWasRequested(h: History, n: nat, b: BridgeId) returns (r: nat)
    requires Legal(h) && n <= |h| && b in Replay(h[..n]).bridges
    ensures r < n && RequestedAt(h, r, b) && h[r].op.source != h[r].op.target
    ensures var row := Replay(h[..n]).bridges[b];
      row.source == h[r].op.source && row.target == h[r].op.target && row.expiresAt == h[r].op.expiresAt
  {
    StartsEmpty(h);
    hide Legal, Replay, OutcomeOf;
    if n > 0 {
      BridgeNext(h, n - 1, b);
      if b in Replay(h[..n - 1]).bridges {
        r := BridgeWasRequested(h, n - 1, b);
      } else {
        r := n - 1;
      }
    }
  }

  predicate IsRevokedBridge(t: Tables, b: BridgeId) {
    b in t.bridges && t.bridges[b].status == Revoked
  }

  /** Being active and being revoked, from one moment to the next. */
  lemma StatusNext(h: History, n: nat, b: BridgeId)
    requires Legal(h) && n < |h|
    ensures IsActiveBridge(Replay(h[..n + 1]), b) <==>
      ApprovedAt(h, n, b) || (IsActiveBridge(Replay(h[..n]), b) && !RevokedAt(h, n, b))
    ensures IsRevokedBridge(Replay(h[..n]), b) || RevokedAt(h, n, b) ==> IsRevokedBridge(Replay(h[..n + 1]), b)
  {
    BridgeNext(h, n, b);
    hide Legal, Replay, OutcomeOf;
  }

  lemma {:induction false} ActiveWasApproved(h: History, n: nat, b: BridgeId) returns (a: nat)
    requires Legal(h) && n <= |h| && IsActiveBridge(Replay(h[..n]), b)
    ensures a < n && ApprovedAt(h, a, b) && forall j | a < j < n :: !RevokedAt(h, j, b)
  {
    StartsEmpty(h);
    hide Legal, Replay, IsActiveBridge, ApprovedAt, RevokedAt;
    if n > 0 {
      StatusNext(h, n - 1, b);
      if ApprovedAt(h, n - 1, b) {
        a := n - 1;
      } else {
        a := ActiveWasApproved(h, n - 1, b);
      }
    }
  }

  lemma {:induction false} StandingIsActive(h: History, n: nat, r: nat, a: nat, b: BridgeId)
    requires Legal(h) && n <= |h| && Stands(h, n, r, a, b)
    ensures IsActiveBridge(Replay(h[..n]), b)
  {
    hide Legal, Replay, IsActiveBridge, ApprovedAt, RevokedAt, RequestedAt;
    StatusNext(h, n - 1, b);
    if a < n - 1 {
      assert Stands(h, n - 1, r, a, b) && !RevokedAt(h, n - 1, b);
      StandingIsActive(h, n - 1, r, a, b);
    }
  }

  predicate IsBridgeOf(t: Tables, b: BridgeId, op: Op) {
    && op.RequestBridge? && b in t.bridges
    && t.bridges[b] == Bridge(op.source, op.target, Active, op.expiresAt)
  }

  lemma StandingIsRequested(h: History, n: nat, r: nat, a: nat, b: BridgeId)
    requires Legal(h) && n <= |h| && Stands(h, n, r, a, b)
    ensures IsBridgeOf(Replay(h[..n]), b, h[r].op)
  {
    StandingIsActive(h, n, r, a, b);
    var r' := BridgeWasRequested(h, n, b);
    OneRequest(h, n, r, r', b);
    hide Legal, Replay, Succeeds;
  }

  /** In both directions: a bridge is active exactly when it was requested, then approved, and
      nobody has revoked it since; its departments and its expiry are those of the request. */
  lemma ActiveIffStands(h: History, n: nat, b: BridgeId)
    requires Legal(h) && n <= |h|
    ensures IsActiveBridge(Replay(h[..n]), b) <==> exists r: nat, a: nat :: Stands(h, n, r, a, b)
    ensures forall r: nat, a: nat | Stands(h, n, r, a, b) :: IsBridgeOf(Replay(h[..n]), b, h[r].op)
  {
    forall r: nat, a: nat | Stands(h, n, r, a, b) ensures IsBridgeOf(Replay(h[..n]), b, h[r].op) {
      StandingIsRequested(h, n, r, a, b);
    }
    if IsActiveBridge(Replay(h[..n]), b) {
      var a := ActiveWasApproved(h, n, b);
      var r := BridgeWasRequested(h, a, b);
      hide Legal, Replay, Succeeds;
      assert Stands(h, n, r, a, b);
    }
    hide Legal, Replay;
    if r: nat, a: nat :| Stands(h, n, r, a, b) {
      StandingIsActive(h, n, r, a, b);
    }
  }

  /** A revoked bridge stays revoked: no approval brings it back. */
  lemma {:induction false} RevocationIsFinal(h: History, i: nat, n: nat, b: BridgeId)
    requires Legal(h) && i < n <= |h| && RevokedAt(h, i, b)
    ensures IsRevokedBridge(Replay(h[..n]), b)
    decreases n
  {
    hide Legal, Replay, IsActiveBridge, ApprovedAt, RevokedAt, IsRevokedBridge;
    StatusNext(h, n - 1, b);
    if i < n - 1 {
      RevocationIsFinal(h, i, n - 1, b);
    }
  }

  // --------------------------------------------------------- crossing departments

  /** Bridge b joined exactly these departments at k, approved and neither revoked nor expired. */
  ghost predicate Spans(h: History, k: nat, r: nat, a: nat, b: BridgeId, d: DepartmentId, e: DepartmentId)
    requires k < |h|
  {
    && Stands(h, k, r, a, b) && h[k].now < h[r].op.expiresAt
    && ((h[r].op.source == d && h[r].op.target == e) || (h[r].op.source == e && h[r].op.target == d))
  }

  ghost predicate IsSpanned(h: History, k: nat, d: DepartmentId, e: DepartmentId)
    requires k < |h|
  {
    exists r: nat, a: nat, b: BridgeId :: Spans(h, k, r, a, b, d, e)
  }

  lemma OneRequest(h: History, n: nat, r: nat, r': nat, b: BridgeId)
    requires Legal(h) && n <= |h| && RequestedAt(h, r, b) && RequestedAt(h, r', b)
    ensures r == r'
  {
    if r < r' {
      BridgeStays(h, r, r', b);
      BridgeNext(h, r', b);
    } else if r' < r {
      BridgeStays(h, r', r, b);
      BridgeNext(h, r, b);
    }
  }

  lemma {:induction false} BridgeStays(h: History, r: nat, n: nat, b: BridgeId)
    requires Legal(h) && r < n <= |h| && RequestedAt(h, r, b)
    ensures b in Replay(h[..n]).bridges
    decreases n
  {
    BridgeNext(h, n - 1, b);
    hide Legal, Replay;
    if r < n - 1 {
      BridgeStays(h, r, n - 1, b);
    }
  }

  lemma BridgedIffSpanned(h: History, k: nat, d: DepartmentId, e: DepartmentId)
    requires Legal(h) && k < |h|
    ensures IsBridged(Replay(h[..k]), d, Some(e), h[k].now) <==> IsSpanned(h, k, d, e)
  {
    var t := Replay(h[..k]);
    if IsBridged(t, d, Some(e), h[k].now) {
      var b :| b in t.bridges && IsOpen(t.bridges[b], h[k].now) && Joins(t.bridges[b], d, e);
      var a := ActiveWasApproved(h, k, b);
      var r := BridgeWasRequested(h, k, b);
      ApprovalFollowsRequest(h, k, r, a, b);
      hide Legal, Replay, Succeeds;
      assert Spans(h, k, r, a, b, d, e);
    }
    if IsSpanned(h, k, d, e) {
      var r: nat, a: nat, b: BridgeId :| Spans(h, k, r, a, b, d, e);
      StandingIsActive(h, k, r, a, b);
      var r' := BridgeWasRequested(h, k, b);
      OneRequest(h, k, r, r', b);
      hide Legal, Replay, Succeeds, Stands;
      assert IsOpen(t.bridges[b], h[k].now) && Joins(t.bridges[b], d, e);
    }
  }

  lemma ApprovalFollowsRequest(h: History, n: nat, r: nat, a: nat, b: BridgeId)
    requires Legal(h) && n <= |h| && RequestedAt(h, r, b) && ApprovedAt(h, a, b)
    ensures r < a
  {
    assert b in Replay(h[..a]).bridges;
    var r' := BridgeWasRequested(h, a, b);
    OneRequest(h, n, r, r', b);
  }

  /** A task is created in another department exactly over a bridge that joined the two, was
      approved and not revoked, and had not expired at that moment (other checks aside). */
  lemma CreationIsBridged(h: History, k: nat)
    requires Legal(h) && k < |h| && h[k].op.CreateTask?
    ensures var op := h[k].op;
      Succeeds(h, k) <==>
        && IsUsable(op.originRow) && IsUsable(op.departmentRow)
        && (op.origin == op.department || IsSpanned(h, k, op.origin, op.department))
        && (op.assignee.Some? ==> op.agentRow.Some? && op.agentRow.value.active && op.agentRow.value.department == Some(op.department))
  {
    BridgedIffSpanned(h, k, h[k].op.origin, h[k].op.department);
    hide Legal, Replay, IsBridged, IsSpanned;
  }

  /** An agent is assigned exactly when it is active and belongs to the department of the open
      task, or to one joined to it by such a bridge. */
  lemma AssignmentIsBridged(h: History, k: nat)
    requires Legal(h) && k < |h| && h[k].op.AssignTask?
    ensures var op, t := h[k].op, Replay(h[..k]);
      Succeeds(h, k) <==>
        && op.task in t.tasks && !IsTerminal(t.tasks[op.task].status)
        && op.agentRow.Some? && op.agentRow.value.active && op.agentRow.value.department.Some?
        && var (here, there) := (t.tasks[op.task].department, op.agentRow.value.department.value);
        (here == there || IsSpanned(h, k, here, there))
  {
    var op, t := h[k].op, Replay(h[..k]);
    if op.task in t.tasks && op.agentRow.Some? && op.agentRow.value.department.Some? {
      BridgedIffSpanned(h, k, t.tasks[op.task].department, op.agentRow.value.department.value);
    }
    hide Legal, Replay, IsSpanned;
  }

  /** A bridge revoked before k spans nothing at k. */
  lemma RevokedSpansNothing(h: History, i: nat, k: nat, r: nat, a: nat, b: BridgeId, d: DepartmentId, e: DepartmentId)
    requires Legal(h) && i < k < |h| && RevokedAt(h, i, b)
    ensures !Spans(h, k, r, a, b, d, e)
  {
    RevocationIsFinal(h, i, k, b);
    if Stands(h, k, r, a, b) {
      StandingIsActive(h, k, r, a, b);
    }
    hide Legal, Replay, Stands;
  }

  /** Delegation does not ask where the task is: the department it moves the task to is the old
      one or joined to it by the bridge used, exactly when that bridge touches the old one. */
  lemma DelegationIsBridgedIff(t: Tables, tx: Tx)
    requires tx.op.Delegate? && OutcomeOf(t, tx) == Done && t.bridges[tx.op.bridge].source != t.bridges[tx.op.bridge].target
    ensures var (here, bridge) := (t.tasks[tx.op.task].department, t.bridges[tx.op.bridge]);
      var there := Apply(t, tx).tasks[tx.op.task].department;
      (there == here || Joins(bridge, here, there)) <==> (here == bridge.source || here == bridge.target)
  {
  }

  // ---------------------------------------------------------------- task statuses

  function StatusOf(t: Tables, task: TaskId): Option<TaskStatus> {
    if task in t.tasks then Some(t.tasks[task].status) else None
  }

  predicate Delegates(t: Tables, tx: Tx, task: TaskId) {
    tx.op.Delegate? && tx.op.task == task && OutcomeOf(t, tx) == Done
  }

  /** How a status may change: by creation, by the table, by (re)assignment of an open task, or
      by delegation of any task. */
  lemma StatusStep(t: Tables, tx: Tx, task: TaskId)
    requires FreshIds(t, tx)
    ensures var was, became := StatusOf(t, task), StatusOf(Apply(t, tx), task);
      || became == was
      || (was.None? && (became == Some(Created) || became == Some(Assigned)))
      || (was.Some? && became.Some? && became.value in ValidTransitions(was.value))
      || (was.Some? && !IsTerminal(was.value) && became == Some(Assigned))
      || (was.Some? && became == Some(Assigned) && Delegates(t, tx, task))
    ensures Delegates(t, tx, task) ==> StatusOf(Apply(t, tx), task) == Some(Assigned)
  {
    hide IsBridged, ValidTransitions;
  }

  lemma StatusChange(h: History, n: nat, task: TaskId)
    requires Legal(h) && n < |h|
    ensures var was, became := StatusOf(Replay(h[..n]), task), StatusOf(Replay(h[..n + 1]), task);
      || became == was
      || (was.None? && (became == Some(Created) || became == Some(Assigned)))
      || (was.Some? && became.Some? && became.value in ValidTransitions(was.value))
      || (was.Some? && !IsTerminal(was.value) && became == Some(Assigned))
      || (was.Some? && became == Some(Assigned) && Delegates(Replay(h[..n]), h[n], task))
    ensures Delegates(Replay(h[..n]), h[n], task) ==> StatusOf(Replay(h[..n + 1]), task) == Some(Assigned)
  {
    ReplayStep(h, n);
    assert FreshIds(Replay(h[..n]), h[n]);
    hide Legal, Replay, Apply, StatusOf, Delegates, ValidTransitions;
    StatusStep(Replay(h[..n]), h[n], task);
  }

  predicate HasEnded(t: Tables, task: TaskId) {
    StatusOf(t, task).Some? && IsTerminal(StatusOf(t, task).value)
  }

  lemma EndedNext(h: History, n: nat, task: TaskId)
    requires Legal(h) && n < |h| && HasEnded(Replay(h[..n]), task)
    ensures HasEnded(Replay(h[..n + 1]), task) <==> !Delegates(Replay(h[..n]), h[n], task)
    ensures HasEnded(Replay(h[..n + 1]), task) ==> StatusOf(Replay(h[..n + 1]), task) == StatusOf(Replay(h[..n]), task)
  {
    StatusChange(h, n, task);
    hide Legal, Replay, StatusOf, Delegates;
  }

  lemma {:induction false} EndedStays(h: History, i: nat, n: nat, task: TaskId)
    requires Legal(h) && i <= n <= |h| && HasEnded(Replay(h[..i]), task)
    requires forall j | i <= j < n :: !Delegates(Replay(h[..j]), h[j], task)
    ensures HasEnded(Replay(h[..n]), task) && StatusOf(Replay(h[..n]), task) == StatusOf(Replay(h[..i]), task)
    decreases n
  {
    hide Legal, Replay, StatusOf, Delegates, HasEnded;
    if i < n {
      EndedStays(h, i, n - 1, task);
      EndedNext(h, n - 1, task);
    }
  }

  /** A completed, failed or cancelled task keeps its status exactly as long as nobody delegates
      it: delegation is the one operation that revives a finished task. */
  lemma TerminalLastsIffNotDelegated(h: History, i: nat, task: TaskId)
    requires Legal(h) && i <= |h| && HasEnded(Replay(h[..i]), task)
    ensures (forall j | i <= j <= |h| :: StatusOf(Replay(h[..j]), task) == StatusOf(Replay(h[..i]), task))
            <==> (forall j | i <= j < |h| :: !Delegates(Replay(h[..j]), h[j], task))
  {
    if forall j | i <= j < |h| :: !Delegates(Replay(h[..j]), h[j], task) {
      forall j | i <= j <= |h| ensures StatusOf(Replay(h[..j]), task) == StatusOf(Replay(h[..i]), task) {
        EndedStays(h, i, j, task);
      }
    } else {
      var j :| i <= j < |h| && Delegates(Replay(h[..j]), h[j], task);
      StatusChange(h, j, task);
      hide Legal, Replay, StatusOf, Delegates;
      assert StatusOf(Replay(h[..j + 1]), task) == Some(Assigned);
    }
  }

  predicate WorkedOn(status: TaskStatus) {
    status == InProgress || status == AwaitingReview || status == Completed
  }

  /** At p the task was in progress, and it has not been assigned anew up to n. */
  ghost predicate WorkedSince(h: History, p: nat, n: nat, task: TaskId)
    requires n <= |h|
  {
    && p <= n && StatusOf(Replay(h[..p]), task) == Some(InProgress)
    && forall j | p <= j <= n :: StatusOf(Replay(h[..j]), task) != Some(Assigned)
  }

  /** Whatever was delegated or reassigned before: a task that is completed, or awaits review,
      was in progress after it was last assigned. */
  lemma {:induction false} CompletedWasWorkedOn(h: History, n: nat, task: TaskId) returns (p: nat)
    requires Legal(h) && n <= |h|
    requires StatusOf(Replay(h[..n]), task).Some? && WorkedOn(StatusOf(Replay(h[..n]), task).value)
    ensures WorkedSince(h, p, n, task)
  {
    StartsEmpty(h);
    hide Legal, Replay, StatusOf, Delegates;
    if n > 0 {
      StatusChange(h, n - 1, task);
      var was, became := StatusOf(Replay(h[..n - 1]), task), StatusOf(Replay(h[..n]), task);
      if became == Some(InProgress) {
        p := n;
      } else {
        assert was.Some? && WorkedOn(was.value);
        p := CompletedWasWorkedOn(h, n - 1, task);
      }
    }
  }

  /** A completed task can be delegated over a bridge between two departments that have nothing
      to do with it, and is open again there. */
  lemma DelegationRevivesAForeignTask(t: Tables, task: TaskId, b: BridgeId, agent: AgentId, now: int)
    requires task in t.tasks && t.tasks[task].status == Completed
    requires b in t.bridges && IsOpen(t.bridges[b], now)
    requires t.tasks[task].department != t.bridges[b].source && t.tasks[task].department != t.bridges[b].target
    ensures var tx := Tx(Delegate(task, b, agent, Some(Agent(true, Some(t.bridges[b].target)))), now);
      var row := Apply(t, tx).tasks[task];
      OutcomeOf(t, tx) == Done && row.status == Assigned && row.department == t.bridges[b].target != t.tasks[task].department
  {
  }

  lemma ReplayAppended(h: History, tx: Tx)
    ensures Replay(h + [tx]) == Apply(Replay(h), tx)
  {
    hide Apply;
    assert (h + [tx])[..|h|] == h;
  }

  lemma LegalAppended(h: History, tx: Tx)
    requires Legal(h) && FreshIds(Replay(h), tx) && (h != [] ==> h[|h| - 1].now <= tx.now)
    ensures Legal(h + [tx])
  {
    hide FreshIds, Replay;
    var longer := h + [tx];
    assert longer[..|h|] == h;
    forall i | 0 <= i < |longer| ensures FreshIds(Replay(longer[..i]), longer[i]) {
      if i < |h| {
        assert longer[..i] == h[..i];
      }
    }
    forall i, j | 0 <= i < j < |longer| ensures longer[i].now <= longer[j].now {
      if j == |h| && i < |h| - 1 {
        assert h[i].now <= h[|h| - 1].now;
      }
    }
  }

  lemma Then(h: History, op: Op) returns (longer: History)
    requires Legal(h) && FreshIds(Replay(h), Tx(op, 0)) && (h != [] ==> h[|h| - 1].now == 0)
    ensures Legal(longer) && longer == h + [Tx(op, 0)] && Replay(longer) == Apply(Replay(h), Tx(op, 0))
  {
    ReplayAppended(h, Tx(op, 0));
    LegalAppended(h, Tx(op, 0));
    longer := h + [Tx(op, 0)];
  }

  lemma EmptyIsLegal()
    ensures Legal([]) && Replay([]) == Empty
  {
  }

  /** A legal history after which a task of department 1 is completed and a bridge between
      departments 2 and 3 is active. */
  lemma CompletedBesideABridge() returns (h: History)
    ensures Legal(h) && h != [] && h[|h| - 1].now == 0
    ensures Replay(h) == Tables(map[0 := Bridge(2, 3, Active, 10)], map[0 := Task(Completed, 1, 1, None)])
  {
    hide Legal, Replay, IsBridged;
    EmptyIsLegal();
    var fine := Some(Department(true, false, false));
    h := Then([], RequestBridge(0, 2, 3, 10, fine, fine, Owner));
    h := Then(h, ApproveBridge(0, Owner, false));
    assert Replay(h) == Tables(map[0 := Bridge(2, 3, Active, 10)], map[]);
    h := Then(h, CreateTask(0, 1, 1, fine, fine, None, None));
    h := Then(h, Transition(0, Assigned));
    h := Then(h, Transition(0, InProgress));
    h := Then(h, Transition(0, Completed));
  }

  /** It happens: a completed task of department 1 is open again in department 3. */
  lemma CompletedTaskMoves() returns (h: History, n: nat)
    ensures Legal(h) && n < |h| && Delegates(Replay(h[..n]), h[n], 0)
    ensures StatusOf(Replay(h[..n]), 0) == Some(Completed) && StatusOf(Replay(h), 0) == Some(Assigned)
    ensures 0 in Replay(h).tasks && Replay(h).tasks[0].department == 3
  {
    hide Legal, Replay;
    var before := CompletedBesideABridge();
    n := |before|;
    DelegationRevivesAForeignTask(Replay(before), 0, 0, 7, 0);
    h := Then(before, Delegate(0, 0, 7, Some(Agent(true, Some(3)))));
    assert h[..n] == before;
  }
}
