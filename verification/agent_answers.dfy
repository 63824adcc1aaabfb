/** What an agent cycle is charged and how it ends, and what the authorization engine answers, role
    by role and price by price. */
module AgentAnswers {
  import opened Options
  import opened Rounding
  import opened Authority
  import opened AgentRunner
  import P = Permissions
  import Shutdown

  // ---------------------------------------------------------------------- prices

  /** a is a hundredth of x, rounded to the nearest integer, a tie to the even one. */
  predicate IsHundredth(a: int, x: int) {
    && x - 50 <= a * 100 <= x + 50
    && (a * 100 == x - 50 || a * 100 == x + 50 ==> a % 2 == 0)
  }

  lemma RoundedHundredth(x: int)
    ensures IsHundredth(Rounded(x, 100), x)
  {
  }

  /** The cost in micro-dollars at the listed prices in cents for a million tokens. */
  lemma CostsByModel(prompt: int, completion: int)
    ensures IsHundredth(ComputeCost(Claude35Sonnet, prompt, completion), 300 * prompt + 1500 * completion)
    ensures IsHundredth(ComputeCost(Claude3Haiku, prompt, completion), 25 * prompt + 125 * completion)
    ensures IsHundredth(ComputeCost(Gpt4o, prompt, completion), 500 * prompt + 1500 * completion)
    ensures IsHundredth(ComputeCost(Gpt4oMini, prompt, completion), 15 * prompt + 60 * completion)
    ensures ComputeCost(MockAgentV1, prompt, completion) == 0
  {
    RoundedHundredth(300 * prompt + 1500 * completion);
    RoundedHundredth(25 * prompt + 125 * completion);
    RoundedHundredth(500 * prompt + 1500 * completion);
    RoundedHundredth(15 * prompt + 60 * completion);
    hide IsHundredth;
  }

  /** A cycle's cost in micro-dollars is added to the budget in units of a hundred of them, rounded
      once; nothing and less than nothing are not charged. */
  lemma ChargedToTheUnit(spent: int, cost: int)
    ensures cost > 0 ==> IsHundredth(Charged(spent, cost), 100 * spent + cost)
    ensures cost <= 0 ==> Charged(spent, cost) == spent
  {
    RoundedHundredth(100 * spent + cost);
  }

  // ----------------------------------------------------------------- the engine

  /** Which role below the owner may do what. */
  predicate RoleMay(role: Role, q: P.Query) {
    match q.action
    case CreateHr => role.Ceo?
    case CreateWorker => role.Ceo? || role.Hr?
    case CreatePermanentAgent => role.Ceo? || role.Hr?
    case TerminateWorker => role.Ceo? || role.Hr?
    case AssignWorker =>
      role.Ceo? || role.Hr?
      || (role.DepartmentManager? && q.actorDepartment.Some? && q.targetDepartment.Some?
          && q.actorDepartment.value == q.targetDepartment.value)
    case ExecuteTask => !role.Owner? && !role.Hr?
    case PerformWork => !role.Owner? && !role.Hr?
    case ExecuteTool => role.Worker? || role.TemporarySubAgent?
    case CallTool => role.Worker? || role.TemporarySubAgent?
    case VerifyTask => role.Verifier? || role.Judge?
    case JudgeSubmission => role.Verifier? || role.Judge?
    case _ => false
  }

  /** What a degraded system leaves to everybody but the owner undone. */
  predicate IsSuspended(a: P.Action) {
    a.CreateHr? || a.CreateWorker? || a.ExecuteTask? || a.ExecuteTool? || a.PromoteCandidate?
  }

  /** Somebody asks to change their own permissions, or to approve, verify or judge their own work. */
  predicate ConcernsOneself(q: P.Query) {
    && q.actor.Some?
    && ((q.targetAgent == q.actor && (q.action.GrantPermission? || q.action.RevokePermission? || q.action.ChangeOwnPermissions?))
        || (q.targetAuthor == q.actor && (q.action.ApproveOutput? || q.action.VerifyTask? || q.action.JudgeSubmission?)))
  }

  /** The whole engine, case by case: the owner, when active and not acting on themselves, always; the
      others as the run state and the role allow; nobody else, and nobody inactive or unknown. */
  lemma EngineAllowsIff(q: P.Query)
    ensures P.Authorize(q).allowed <==>
      && q.actor.Some? && q.active && !ConcernsOneself(q) && q.role.Some?
      && (q.role.value.Owner? ||
          (RoleMay(q.role.value, q) && (q.runState.Normal? || (q.runState.Degraded? && !IsSuspended(q.action)))))
  {
  }

  /** The reasons that come before the role is asked, first one first. */
  lemma EngineReasons(q: P.Query)
    ensures var (reason, owner) := (P.Authorize(q).reason, q.role.Some? && q.role.value.Owner?);
      var halted := !owner && (q.runState.EmergencyShutdown? || (q.runState.Degraded? && IsSuspended(q.action)));
      && (reason == P.EmergencyShutdownActive <==> !owner && q.runState.EmergencyShutdown?)
      && (reason == P.SoftShutdownActive <==> !owner && q.runState.Degraded? && IsSuspended(q.action))
      && (reason == P.NotAuthenticated <==> !halted && q.actor.None?)
      && (reason == P.OwnerNotActive <==> q.actor.Some? && !q.active && owner)
      && (reason == P.ActorNotActive <==> !halted && q.actor.Some? && !q.active && !owner)
      && (reason == P.CannotModifyOwnPermissions <==>
            !halted && q.actor.Some? && q.active && ConcernsOneself(q)
            && (q.action.GrantPermission? || q.action.RevokePermission? || q.action.ChangeOwnPermissions?))
      && (reason == P.CannotApproveOwnOutput <==>
            !halted && q.actor.Some? && q.active && ConcernsOneself(q)
            && (q.action.ApproveOutput? || q.action.VerifyTask? || q.action.JudgeSubmission?))
      && (reason == P.OwnerAuthorized <==> q.actor.Some? && q.active && !ConcernsOneself(q) && owner)
      && (reason == P.OnlyOwnerCanModifyConstitution <==>
            !halted && q.actor.Some? && q.active && !owner && (q.action.ChangeConstitution? || q.action.UpdateConstitution?))
  {
  }

  /** The reason given once the role decides, for everybody but the owner. */
  lemma RoleReasons(q: P.Query)
    requires q.actor.Some? && q.active && !ConcernsOneself(q) && (q.role.Some? ==> !q.role.value.Owner?)
    requires q.runState.Normal? || (q.runState.Degraded? && !IsSuspended(q.action))
    requires !q.action.ChangeConstitution? && !q.action.UpdateConstitution?
    ensures var may := q.role.Some? && RoleMay(q.role.value, q);
      var manager := q.role.Some? && q.role.value.DepartmentManager?;
      P.Authorize(q).reason == match q.action
        case CreateHr => if may then P.CeoForCreateHr else P.CreateHrRole
        case CreateWorker => if may then P.ForCreateWorker else P.CreateWorkerRole
        case CreatePermanentAgent => if may then P.ForPermanentAgent else P.PermanentAgentRole
        case AssignWorker =>
          if manager then (if may then P.ManagerInScope else P.ManagerOutOfScope)
          else if may then P.ForAssignWorker else P.AssignWorkerRole
        case TerminateWorker =>
          if manager then P.ManagerMayOnlyRecommend
          else if !may then P.TerminateRole
          else if q.role.value.Ceo? then P.CeoForTerminate else P.HrForTerminate
        case _ =>
          if !may then P.InsufficientRole
          else if q.action.ExecuteTask? || q.action.PerformWork? then P.ForTaskExecution
          else if q.action.ExecuteTool? || q.action.CallTool? then P.ForToolExecution
          else P.ForVerification
  {
  }

  // ------------------------------------------------------------------- a cycle

  /** Whether the role may follow the decision in the run state: working on a task is for everybody
      but HR, tools are for workers and their sub-agents, both in normal operation only; the owner may
      do either at any time, and asking for an approval is the owner's alone. */
  predicate MayFollow(role: Role, runState: Shutdown.RunState, d: Decision) {
    match d
    case Delegate => role.Owner? || (runState.Normal? && !role.Hr?)
    case CompleteTask => role.Owner? || (runState.Normal? && !role.Hr?)
    case RejectTask => role.Owner? || (runState.Normal? && !role.Hr?)
    case ExecuteTool => role.Owner? || (runState.Normal? && (role.Worker? || role.TemporarySubAgent?))
    case RequestApproval => role.Owner?
  }

  predicate AsksForTool(answer: Answer) {
    answer.Decided? && answer.decision.ExecuteTool? && |answer.tools| > 0
  }

  /** How a cycle ends: with an error when the provider failed, or when a permitted tool call did not
      run; refused when the agent is not active or its role may not follow the decision; else allowed. */
  lemma CycleEndsIff(c: Cycle, answer: Answer, tool: ToolReply)
    ensures var permitted := answer.Decided? && c.active && MayFollow(c.role, c.runState, answer.decision);
      && (VerdictOn(c, answer, tool) == Allow <==> permitted && (AsksForTool(answer) ==> tool.ToolRan?))
      && (VerdictOn(c, answer, tool) == Deny <==> answer.Decided? && !permitted)
      && (VerdictOn(c, answer, tool) == Error <==>
            answer.ProviderFailed? || (permitted && AsksForTool(answer) && !tool.ToolRan?))
      && (Crashes(c, answer, tool) <==> permitted && AsksForTool(answer) && tool.ToolCrashed?)
  {
    if answer.Decided? {
      EngineAllowsIff(QueryOf(c, answer.decision));
    }
    hide P.Authorize;
  }

  /** What a cycle leaves in the books: nothing when it crashes, and otherwise one event with its
      cost, and the cost charged to its task, if it has one and the cost is more than nothing. */
  lemma CycleLeaves(l: Ledger, a: Attempt)
    ensures var l' := AfterCycle(l, a);
      var crashed := a.answer.Decided? && a.cycle.active && MayFollow(a.cycle.role, a.cycle.runState, a.answer.decision)
                     && AsksForTool(a.answer) && a.tool.ToolCrashed?;
      && (crashed ==> l' == l)
      && (!crashed ==>
            && l'.audit == l.audit + [Event(VerdictOn(a.cycle, a.answer, a.tool), a.answer.cost)]
            && (if a.cycle.hasTask && a.answer.cost > 0 then IsHundredth(l'.spent, 100 * l.spent + a.answer.cost)
                else l'.spent == l.spent))
  {
    CycleEndsIff(a.cycle, a.answer, a.tool);
    ChargedToTheUnit(l.spent, a.answer.cost);
    hide MayFollow, Charged, VerdictOn, Crashes, IsHundredth;
  }
}
