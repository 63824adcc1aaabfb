/** The deny-by-default authorization engine, and the rules it amounts to. */
module Permissions {
  import opened Options
  import opened Authority
  import Shutdown

  datatype Action =
    | CreateHr | CreateWorker | AssignWorker | CreatePermanentAgent | TerminateWorker | PromoteCandidate
    | ExecuteTask | PerformWork | ExecuteTool | CallTool
    | ApproveOutput | VerifyTask | JudgeSubmission
    | GrantPermission | RevokePermission | ChangeOwnPermissions
    | ChangeConstitution | UpdateConstitution
    | RequestApproval | OtherAction

  datatype Reason =
    | EmergencyShutdownActive | SoftShutdownActive | NotAuthenticated | OwnerNotActive | ActorNotActive
    | CannotModifyOwnPermissions | CannotApproveOwnOutput | OwnerAuthorized | OnlyOwnerCanModifyConstitution
    | CeoForCreateHr | CreateHrRole | ForCreateWorker | CreateWorkerRole | ForAssignWorker | ManagerInScope
    | ManagerOutOfScope | AssignWorkerRole | ForPermanentAgent | PermanentAgentRole | CeoForTerminate | HrForTerminate
    | ManagerMayOnlyRecommend | TerminateRole | ForTaskExecution | ForToolExecution | ForVerification | InsufficientRole

  datatype Result = Result(allowed: bool, reason: Reason)

  /** Who asks for what; None is a missing actor, a role outside the hierarchy, or a missing id. */
  datatype Query = Query(
    actor: Option<ActorId>,
    role: Option<Role>,
    active: bool,
    action: Action,
    runState: Shutdown.RunState,
    actorDepartment: Option<nat>,
    targetDepartment: Option<nat>,
    targetAgent: Option<ActorId>,
    targetAuthor: Option<ActorId>)

  const SOFT_BLOCKED: set<Action> := {CreateWorker, CreateHr, ExecuteTask, ExecuteTool, PromoteCandidate}

  predicate Has(q: Query, roles: set<Role>) {
    q.role.Some? && q.role.value in roles
  }

  function Authorize(q: Query): Result {
    if q.runState == Shutdown.EmergencyShutdown && q.role != Some(Owner) then Result(false, EmergencyShutdownActive)
    else if q.runState == Shutdown.Degraded && q.role != Some(Owner) && q.action in SOFT_BLOCKED then
      Result(false, SoftShutdownActive)
    else if q.actor.None? then Result(false, NotAuthenticated)
    else if !q.active then Result(false, if q.role == Some(Owner) then OwnerNotActive else ActorNotActive)
    else if q.action in {GrantPermission, RevokePermission, ChangeOwnPermissions} && q.targetAgent == q.actor then
      Result(false, CannotModifyOwnPermissions)
    else if q.action in {ApproveOutput, VerifyTask, JudgeSubmission} && q.targetAuthor.Some? && q.actor == q.targetAuthor then
      Result(false, CannotApproveOwnOutput)
    else if q.action in {ChangeConstitution, UpdateConstitution} then
      if q.role == Some(Owner) then Result(true, OwnerAuthorized) else Result(false, OnlyOwnerCanModifyConstitution)
    else if q.role == Some(Owner) then Result(true, OwnerAuthorized)
    else ByRole(q)
  }

  /** The role hierarchy below the owner. */
  function ByRole(q: Query): Result {
    match q.action
    case CreateHr => if Has(q, {Ceo}) then Result(true, CeoForCreateHr) else Result(false, CreateHrRole)
    case CreateWorker => if Has(q, {Ceo, Hr}) then Result(true, ForCreateWorker) else Result(false, CreateWorkerRole)
    case AssignWorker =>
      if Has(q, {Ceo, Hr}) then Result(true, ForAssignWorker)
      else if Has(q, {DepartmentManager}) then
        if q.actorDepartment.Some? && q.targetDepartment.Some? && q.actorDepartment == q.targetDepartment
        then Result(true, ManagerInScope) else Result(false, ManagerOutOfScope)
      else Result(false, AssignWorkerRole)
    case CreatePermanentAgent =>
      if Has(q, {Ceo, Hr}) then Result(true, ForPermanentAgent) else Result(false, PermanentAgentRole)
    case TerminateWorker =>
      if Has(q, {Ceo}) then Result(true, CeoForTerminate)
      else if Has(q, {Hr}) then Result(true, HrForTerminate)
      else if Has(q, {DepartmentManager}) then Result(false, ManagerMayOnlyRecommend)
      else Result(false, TerminateRole)
    case _ =>
      if q.action in {ExecuteTask, PerformWork}
         && Has(q, {Worker, TemporarySubAgent, DepartmentManager, Ceo, Verifier, Judge}) then Result(true, ForTaskExecution)
      else if q.action in {ExecuteTool, CallTool} && Has(q, {Worker, TemporarySubAgent}) then Result(true, ForToolExecution)
      else if q.action in {VerifyTask, JudgeSubmission} && Has(q, {Verifier, Judge}) then Result(true, ForVerification)
      else Result(false, InsufficientRole)
  }

  /** The roles below the owner that may ever do something. */
  function RolesFor(a: Action): set<Role> {
    match a
    case CreateHr => {Ceo}
    case CreateWorker => {Ceo, Hr}
    case AssignWorker => {Ceo, Hr, DepartmentManager}
    case CreatePermanentAgent => {Ceo, Hr}
    case TerminateWorker => {Ceo, Hr}
    case ExecuteTask => {Worker, TemporarySubAgent, DepartmentManager, Ceo, Verifier, Judge}
    case PerformWork => {Worker, TemporarySubAgent, DepartmentManager, Ceo, Verifier, Judge}
    case ExecuteTool => {Worker, TemporarySubAgent}
    case CallTool => {Worker, TemporarySubAgent}
    case VerifyTask => {Verifier, Judge}
    case JudgeSubmission => {Verifier, Judge}
    case _ => {}
  }

  /** Nobody acts on their own permissions or judges their own work. */
  predicate ActsOnOneself(q: Query) {
    || (q.action in {GrantPermission, RevokePermission, ChangeOwnPermissions} && q.actor.Some? && q.targetAgent == q.actor)
    || (q.action in {ApproveOutput, VerifyTask, JudgeSubmission} && q.actor.Some? && q.targetAuthor == q.actor)
  }

  /** Deny by default, in one sentence: allowed are authenticated active actors who do not act on
      themselves and are the owner, or hold a role for the action in a run state that leaves it
      open, a department manager only within the department. */
  lemma AllowedIff(q: Query)
    ensures Authorize(q).allowed <==>
      && q.actor.Some? && q.active && !ActsOnOneself(q)
      && (q.role == Some(Owner) ||
          (&& q.role.Some? && q.role.value in RolesFor(q.action)
           && q.runState != Shutdown.EmergencyShutdown
           && (q.runState == Shutdown.Degraded ==> q.action !in SOFT_BLOCKED)
           && (q.role.value == DepartmentManager && q.action == AssignWorker ==>
                 q.actorDepartment.Some? && q.actorDepartment == q.targetDepartment)))
  {
  }

  /** A shutdown only takes away: whatever is allowed in any run state is allowed, for the same
      reason, when the system is normal, and the owner loses nothing at all. */
  lemma ShutdownOnlyRestricts(q: Query)
    ensures var normal := q.(runState := Shutdown.Normal);
      && (Authorize(q).allowed ==> Authorize(normal) == Authorize(q))
      && (q.role == Some(Owner) ==> Authorize(normal) == Authorize(q))
  {
  }

  /** The owner may do whatever anybody in the same place may. */
  lemma OwnerDominates(q: Query)
    ensures Authorize(q).allowed ==> Authorize(q.(role := Some(Owner))).allowed
  {
    AllowedIff(q);
    AllowedIff(q.(role := Some(Owner)));
    hide Authorize;
  }
}
