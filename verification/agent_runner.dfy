/** One agent cycle after the other: what is charged to the task and what is audited.  Costs are
    exact micro-dollars; the budget is kept in units of 0.0001 dollars. */
module AgentRunner {
  import opened Options
  import opened Rounding
  import opened Authority
  import P = Permissions
  import Shutdown

  /** Micro-dollars in a unit of the task budget. */
  const UNIT := 100

  // ---------------------------------------------------------------- model prices

  /** Prices in cents for a million tokens. */
  datatype Rates = Rates(prompt: nat, completion: nat)

  datatype Model = Claude35Sonnet | Claude3Haiku | Gpt4o | Gpt4oMini | MockAgentV1

  function RatesOf(m: Model): Rates {
    match m
    case Claude35Sonnet => Rates(300, 1500)
    case Claude3Haiku => Rates(25, 125)
    case Gpt4o => Rates(500, 1500)
    case Gpt4oMini => Rates(15, 60)
    case MockAgentV1 => Rates(0, 0)
  }

  /** The cost in micro-dollars, rounded to a whole one: a token at one cent for a million costs a
      hundredth of a micro-dollar. */
  function ComputeCost(m: Model, promptTokens: int, completionTokens: int): int {
    Rounded(promptTokens * RatesOf(m).prompt + completionTokens * RatesOf(m).completion, 100)
  }

  /** The cost is within half a micro-dollar of the price of the tokens, more tokens never cost
      less, and no tokens cost nothing. */
  lemma CostIsFair(m: Model, prompt: nat, completion: nat, prompt': nat, completion': nat)
    requires prompt <= prompt' && completion <= completion'
    ensures var exact := prompt * RatesOf(m).prompt + completion * RatesOf(m).completion;
      -100 <= 2 * (ComputeCost(m, prompt, completion) * 100 - exact) <= 100
    ensures 0 <= ComputeCost(m, prompt, completion) <= ComputeCost(m, prompt', completion')
    ensures ComputeCost(m, 0, 0) == 0
  {
    var r := RatesOf(m);
    var exact, exact' := prompt * r.prompt + completion * r.completion, prompt' * r.prompt + completion' * r.completion;
    Grows(prompt, prompt', r.prompt);
    Grows(completion, completion', r.completion);
    RoundingError(exact, 100);
    RoundingIsMonotone(0, exact, 100);
    RoundingIsMonotone(exact, exact', 100);
  }

  lemma Grows(a: nat, b: nat, rate: nat)
    requires a <= b
    ensures 0 <= a * rate <= b * rate
  {
  }

  // ------------------------------------------------------------------ the budget

  /** The budget after a cycle of the given cost, in units. */
  function Charged(spent: int, cost: int): int {
    if cost > 0 then Rounded(spent * UNIT + cost, UNIT) else spent
  }

  function Spent(start: int, costs: seq<int>): int {
    if costs == [] then start else Charged(Spent(start, costs[..|costs| - 1]), costs[|costs| - 1])
  }

  function Total(costs: seq<int>): int {
    if costs == [] then 0 else Total(costs[..|costs| - 1]) + costs[|costs| - 1]
  }

  lemma ChargeError(spent: int, cost: int)
    requires cost >= 0
    ensures spent <= Charged(spent, cost)
    ensures -UNIT <= 2 * (Charged(spent, cost) * UNIT - (spent * UNIT + cost)) <= UNIT
    ensures cost % UNIT == 0 ==> Charged(spent, cost) * UNIT == spent * UNIT + cost
  {
    RoundingError(spent * UNIT + cost, UNIT);
    RoundedBounds(spent * UNIT + cost, UNIT, spent, spent + cost);
  }

  /** Which cycles are charged exactly, and which are not charged at all: those that cost whole
      units, and those that cost less than half a unit, or half a unit on an even budget. */
  lemma ChargedExactlyIff(spent: int, cost: int)
    requires cost > 0
    ensures Charged(spent, cost) * UNIT == spent * UNIT + cost <==> cost % UNIT == 0
    ensures Charged(spent, cost) == spent <==> 2 * cost < UNIT || (2 * cost == UNIT && spent % 2 == 0)
  {
    var q, r := cost / UNIT, cost % UNIT;
    assert spent * UNIT + cost == (spent + q) * UNIT + r;
  }

  /** After n cycles the recorded budget has drifted from the true sum by at most half a unit
      for every cycle: n times 0.00005 dollars. */
  lemma {:induction false} DriftIsBounded(start: int, costs: seq<int>)
    requires forall i | 0 <= i < |costs| :: costs[i] >= 0
    ensures -UNIT * |costs| <= 2 * (Spent(start, costs) * UNIT - (start * UNIT + Total(costs))) <= UNIT * |costs|
  {
    if costs != [] {
      DriftIsBounded(start, costs[..|costs| - 1]);
      ChargeError(Spent(start, costs[..|costs| - 1]), costs[|costs| - 1]);
    }
  }

  /** The recorded budget never decreases. */
  lemma {:induction false} BudgetNeverDecreases(start: int, costs: seq<int>, n: nat)
    requires n <= |costs| && forall i | 0 <= i < |costs| :: costs[i] >= 0
    ensures Spent(start, costs[..n]) <= Spent(start, costs)
    decreases |costs|
  {
    if n < |costs| {
      var init := costs[..|costs| - 1];
      BudgetNeverDecreases(start, init, n);
      assert init[..n] == costs[..n];
      ChargeError(Spent(start, init), costs[|costs| - 1]);
    } else {
      assert costs[..n] == costs;
    }
  }

  /** Costs in whole units are recorded exactly. */
  lemma {:induction false} WholeUnitsAreExact(start: int, costs: seq<int>)
    requires forall i | 0 <= i < |costs| :: costs[i] >= 0 && costs[i] % UNIT == 0
    ensures Spent(start, costs) * UNIT == start * UNIT + Total(costs)
  {
    if costs != [] {
      WholeUnitsAreExact(start, costs[..|costs| - 1]);
      ChargeError(Spent(start, costs[..|costs| - 1]), costs[|costs| - 1]);
    }
  }

  /** The bound is reached: cycles of half a unit each are never charged at all. */
  lemma {:induction false} HalfUnitsAreNeverCharged(n: nat)
    ensures var costs := seq(n, _ => UNIT / 2);
      Spent(0, costs) == 0 && 2 * (Total(costs) - Spent(0, costs) * UNIT) == UNIT * n
  {
    if n > 0 {
      var costs := seq(n, _ => UNIT / 2);
      HalfUnitsAreNeverCharged(n - 1);
      assert costs[..n - 1] == seq(n - 1, _ => UNIT / 2);
    }
  }

  // ------------------------------------------------------------------- one cycle

  datatype Decision = Delegate | ExecuteTool | CompleteTask | RequestApproval | RejectTask

  function ActionFor(d: Decision): P.Action {
    match d
    case Delegate => P.ExecuteTask
    case ExecuteTool => P.ExecuteTool
    case CompleteTask => P.ExecuteTask
    case RequestApproval => P.RequestApproval
    case RejectTask => P.ExecuteTask
  }

  datatype Verdict = Allow | Deny | Error

  /** The runner's own audit record; the gateway writes others of its own. */
  datatype Event = Event(verdict: Verdict, cost: int)

  /** What the model provider answers. */
  datatype Answer = Decided(decision: Decision, tools: seq<ToolName>, cost: int) | ProviderFailed(cost: int)

  /** What the tool gateway does when it is asked: it may also raise something unforeseen. */
  datatype ToolReply = ToolRan | ToolRefused | ToolCrashed

  /** A returned result, or an exception that leaves the cycle. */
  datatype Result = Result(success: bool, cost: int) | Raised

  datatype Cycle = Cycle(agent: ActorId, role: Role, active: bool, department: Option<nat>, hasTask: bool, runState: Shutdown.RunState)

  function QueryOf(c: Cycle, d: Decision): P.Query {
    P.Query(Some(c.agent), Some(c.role), c.active, ActionFor(d), c.runState, c.department, None, None, None)
  }

  predicate CallsTool(a: Answer) {
    a.Decided? && a.decision == ExecuteTool && a.tools != []
  }

  /** What the record of a cycle must say. */
  function VerdictOn(c: Cycle, answer: Answer, tool: ToolReply): Verdict {
    if answer.ProviderFailed? then Error
    else if !P.Authorize(QueryOf(c, answer.decision)).allowed then Deny
    else if CallsTool(answer) && tool != ToolRan then Error
    else Allow
  }

  predicate Crashes(c: Cycle, answer: Answer, tool: ToolReply) {
    answer.Decided? && P.Authorize(QueryOf(c, answer.decision)).allowed && CallsTool(answer) && tool == ToolCrashed
  }

  /** One call of the cycle with everything it depends on. */
  datatype Attempt = Attempt(cycle: Cycle, answer: Answer, tool: ToolReply)

  /** The task's recorded budget and the runner's audit events. */
  datatype Ledger = Ledger(spent: int, audit: seq<Event>)

  function AfterCycle(l: Ledger, a: Attempt): Ledger {
    if Crashes(a.cycle, a.answer, a.tool) then l
    else Ledger(
      if a.cycle.hasTask then Charged(l.spent, a.answer.cost) else l.spent,
      l.audit + [Event(VerdictOn(a.cycle, a.answer, a.tool), a.answer.cost)])
  }

  function AfterCycles(l: Ledger, attempts: seq<Attempt>): Ledger {
    if attempts == [] then l
    else AfterCycle(AfterCycles(l, attempts[..|attempts| - 1]), attempts[|attempts| - 1])
  }

  class AgentRunner {
    var budgetSpent: int
    var audit: seq<Event>

    constructor (budgetSpent: int)
      ensures Books() == Ledger(budgetSpent, [])
    {
      this.budgetSpent, audit := budgetSpent, [];
    }

    function Books(): Ledger
      reads this
    {
      Ledger(budgetSpent, audit)
    }

    method AccumulateTaskBudget(hasTask: bool, cost: int)
      modifies this`budgetSpent
      ensures budgetSpent == if hasTask then Charged(old(budgetSpent), cost) else old(budgetSpent)
    {
      if hasTask && cost > 0 {
        budgetSpent := Rounded(budgetSpent * UNIT + cost, UNIT);
      }
    }

    /** Whatever happens in a cycle, a returned result is charged exactly once and recorded by
        exactly one event that carries its cost; an exception does neither. */
    method RunAgentCycle(c: Cycle, answer: Answer, tool: ToolReply) returns (r: Result)
      modifies this
      ensures r.Raised? <==> Crashes(c, answer, tool)
      ensures r.Raised? ==> audit == old(audit) && budgetSpent == old(budgetSpent)
      ensures !r.Raised? ==>
        && r == Result(VerdictOn(c, answer, tool) == Allow, answer.cost)
        && audit == old(audit) + [Event(VerdictOn(c, answer, tool), answer.cost)]
        && budgetSpent == if c.hasTask then Charged(old(budgetSpent), answer.cost) else old(budgetSpent)
      ensures Books() == AfterCycle(old(Books()), Attempt(c, answer, tool))
    {
      if answer.ProviderFailed? {
        audit := audit + [Event(Error, answer.cost)];
        AccumulateTaskBudget(c.hasTask, answer.cost);
        return Result(false, answer.cost);
      }
      var authorization := P.Authorize(QueryOf(c, answer.decision));
      if !authorization.allowed {
        AccumulateTaskBudget(c.hasTask, answer.cost);
        audit := audit + [Event(Deny, answer.cost)];
        return Result(false, answer.cost);
      }
      if answer.decision == ExecuteTool && answer.tools != [] {
        if tool == ToolCrashed {
          return Raised;
        }
        if tool == ToolRefused {
          AccumulateTaskBudget(c.hasTask, answer.cost);
          audit := audit + [Event(Error, answer.cost)];
          return Result(false, answer.cost);
        }
      }
      AccumulateTaskBudget(c.hasTask, answer.cost);
      audit := audit + [Event(Allow, answer.cost)];
      return Result(true, answer.cost);
    }
  }

  /** A cycle succeeds exactly when the provider answered, the role may do what was decided in
      this run state, and a requested tool ran; nobody but an owner may request an approval. */
  lemma SuccessIff(c: Cycle, answer: Answer, tool: ToolReply)
    ensures VerdictOn(c, answer, tool) == Allow <==>
      && answer.Decided? && c.active
      && (c.role == Owner ||
          (&& c.role in P.RolesFor(ActionFor(answer.decision)) && c.runState != Shutdown.EmergencyShutdown
           && (c.runState == Shutdown.Degraded ==> ActionFor(answer.decision) !in P.SOFT_BLOCKED)))
      && (CallsTool(answer) ==> tool == ToolRan)
    ensures VerdictOn(c, answer, tool) == Allow && answer.decision == RequestApproval ==> c.role == Owner
  {
    if answer.Decided? {
      P.AllowedIff(QueryOf(c, answer.decision));
    }
    hide P.Authorize;
  }

  function CostsIn(audit: seq<Event>): seq<int> {
    seq(|audit|, i requires 0 <= i < |audit| => audit[i].cost)
  }

  function Returned(attempts: seq<Attempt>): nat {
    if attempts == [] then 0
    else
      var last := attempts[|attempts| - 1];
      Returned(attempts[..|attempts| - 1]) + if Crashes(last.cycle, last.answer, last.tool) then 0 else 1
  }

  /** The audit trail explains the budget: after any cycles on a task there is one event for each
      cycle that returned, and the recorded budget is exactly what the recorded costs charge. */
  lemma {:induction false} AuditExplainsBudget(start: int, attempts: seq<Attempt>)
    requires forall i | 0 <= i < |attempts| :: attempts[i].cycle.hasTask
    ensures var l := AfterCycles(Ledger(start, []), attempts);
      |l.audit| == Returned(attempts) && l.spent == Spent(start, CostsIn(l.audit))
  {
    hide Crashes, VerdictOn, Charged;
    if attempts != [] {
      var init, last := attempts[..|attempts| - 1], attempts[|attempts| - 1];
      AuditExplainsBudget(start, init);
      var before, after := AfterCycles(Ledger(start, []), init), AfterCycles(Ledger(start, []), attempts);
      if after != before {
        assert CostsIn(after.audit)[..|before.audit|] == CostsIn(before.audit);
      }
    }
  }

  /** So the budget never strays from the audited costs by more than 0.00005 dollars a record. */
  lemma BudgetMatchesAudit(start: int, attempts: seq<Attempt>)
    requires forall i | 0 <= i < |attempts| :: attempts[i].cycle.hasTask && attempts[i].answer.cost >= 0
    ensures var l := AfterCycles(Ledger(start, []), attempts);
      -UNIT * |l.audit| <= 2 * (l.spent * UNIT - (start * UNIT + Total(CostsIn(l.audit)))) <= UNIT * |l.audit|
  {
    AuditExplainsBudget(start, attempts);
    CostsAreNonNegative(start, attempts);
    DriftIsBounded(start, CostsIn(AfterCycles(Ledger(start, []), attempts).audit));
    hide AfterCycles;
  }

  lemma {:induction false} CostsAreNonNegative(start: int, attempts: seq<Attempt>)
    requires forall i | 0 <= i < |attempts| :: attempts[i].answer.cost >= 0
    ensures forall e | e in AfterCycles(Ledger(start, []), attempts).audit :: e.cost >= 0
  {
    hide Crashes, VerdictOn, Charged;
    if attempts != [] {
      CostsAreNonNegative(start, attempts[..|attempts| - 1]);
      assert attempts[|attempts| - 1].answer.cost >= 0;
    }
  }
}
