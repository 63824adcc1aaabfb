/** Every tool call traces back to a grant, and every grant that counts to its issue. */
module AuthorityProvenance {
  import opened Options
  import opened Authority
  import opened AuthorityGuarantees
  import opened AuthorityAnswers
  import Shutdown

  // ------------------------------------------------------------ a grant's story

  /** This transaction revokes grant g of the given agent: by itself, or with all its grants. */
  predicate EndsGrant(t: Tables, tx: Tx, g: GrantId, agent: ActorId) {
    && OutcomeOf(t, tx) == Done
    && (tx.op == Revoke(g) || ((tx.op.Suspend? || tx.op.Terminate?) && tx.op.agent == agent))
  }

  predicate IssuedAt(h: History, i: nat, g: GrantId) {
    i < |h| && h[i].op.Issue? && h[i].op.grant == g && Succeeds(h, i)
  }

  /** Grant g was issued at i, and up to n nothing has ended it. */
  ghost predicate Stands(h: History, n: nat, i: nat, g: GrantId)
    requires n <= |h|
  {
    i < n && IssuedAt(h, i, g) && forall j | i < j < n :: !EndsGrant(Replay(h[..j]), h[j], g, h[i].op.agent)
  }

  function IssuedGrant(op: Op): Grant
    requires op.Issue?
  {
    Grant(op.agent, op.tools, op.expiresAt, op.issuer, None)
  }

  /** What one transaction may do to one grant: it appears when issued, and loses its force when
      ended. */
  ghost predicate GrantMoves(t: Tables, tx: Tx, t': Tables, g: GrantId) {
    if g in t.grants then
      && g in t'.grants
      && t'.grants[g] == if t.grants[g].revokedAt.None? && EndsGrant(t, tx, g, t.grants[g].agent)
                         then t.grants[g].(revokedAt := Some(tx.now)) else t.grants[g]
    else
      && (g in t'.grants <==> tx.op.Issue? && tx.op.grant == g && OutcomeOf(t, tx) == Done)
      && (g in t'.grants ==> t'.grants[g] == IssuedGrant(tx.op))
  }

  lemma GrantStep(t: Tables, tx: Tx, g: GrantId)
    requires FreshIds(t, tx)
    ensures GrantMoves(t, tx, Apply(t, tx), g)
  {
    if tx.op.Execute? {
      ApplyFrame(t, tx);
    } else {
      ApplyIsAllOrNothing(t, tx);
    }
    hide Apply, GatewayCheck;
  }

  lemma GrantNext(h: History, n: nat, g: GrantId)
    requires Legal(h) && n < |h|
    ensures GrantMoves(Replay(h[..n]), h[n], Replay(h[..n + 1]), g)
    ensures h[n].op.Issue? && h[n].op.grant == g ==> g !in Replay(h[..n]).grants
  {
    ReplayStep(h, n);
    assert FreshIds(Replay(h[..n]), h[n]);
    hide Legal, Replay, Apply, GrantMoves;
    GrantStep(Replay(h[..n]), h[n], g);
  }

  predicate IsUnrevoked(t: Tables, g: GrantId) {
    g in t.grants && t.grants[g].revokedAt.None?
  }

  lemma {:induction false} StandingIsUnrevoked(h: History, n: nat, i: nat, g: GrantId)
    requires Legal(h) && n <= |h| && Stands(h, n, i, g)
    ensures IsUnrevoked(Replay(h[..n]), g) && Replay(h[..n]).grants[g] == IssuedGrant(h[i].op)
  {
    GrantNext(h, n - 1, g);
    hide Legal, Replay, OutcomeOf;
    if i < n - 1 {
      assert Stands(h, n - 1, i, g) && !EndsGrant(Replay(h[..n - 1]), h[n - 1], g, h[i].op.agent);
      StandingIsUnrevoked(h, n - 1, i, g);
    }
  }

  lemma {:induction false} UnrevokedWasIssued(h: History, n: nat, g: GrantId) returns (i: nat)
    requires Legal(h) && n <= |h| && IsUnrevoked(Replay(h[..n]), g)
    ensures Stands(h, n, i, g)
  {
    if n == 0 {
      assert false;
    } else {
      GrantNext(h, n - 1, g);
      hide Legal, Replay, OutcomeOf;
      if g in Replay(h[..n - 1]).grants {
        i := UnrevokedWasIssued(h, n - 1, g);
        StandingIsUnrevoked(h, n - 1, i, g);
      } else {
        i := n - 1;
      }
    }
  }

  /** In both directions: a grant is unrevoked exactly when it was issued at some point and no
      revocation of it, and no suspension or termination of its agent, went through since. */
  lemma UnrevokedIffStands(h: History, n: nat, g: GrantId)
    requires Legal(h) && n <= |h|
    ensures IsUnrevoked(Replay(h[..n]), g) <==> exists i: nat :: Stands(h, n, i, g)
    ensures forall i: nat | Stands(h, n, i, g) :: Replay(h[..n]).grants[g] == IssuedGrant(h[i].op)
  {
    hide Legal, Replay;
    forall i: nat | Stands(h, n, i, g)
      ensures IsUnrevoked(Replay(h[..n]), g) && Replay(h[..n]).grants[g] == IssuedGrant(h[i].op)
    {
      StandingIsUnrevoked(h, n, i, g);
    }
    if IsUnrevoked(Replay(h[..n]), g) {
      var i := UnrevokedWasIssued(h, n, g);
    }
  }

  // -------------------------------------------------------- tool calls and grants

  /** The grant issued at i entitles the tool call at k. */
  ghost predicate Entitles(h: History, i: nat, g: GrantId, k: nat)
    requires k < |h| && h[k].op.Execute?
  {
    && Stands(h, k, i, g)
    && h[i].op.agent == h[k].op.request.agent && h[k].op.request.tool in h[i].op.tools
    && (h[i].op.expiresAt.Some? ==> h[k].now < h[i].op.expiresAt.value)
    && HasStatus(Replay(h[..i]), h[i].op.agent, Active) && h[i].op.issuer != h[i].op.agent
  }

  lemma IssueConditions(h: History, i: nat, g: GrantId)
    requires IssuedAt(h, i, g)
    ensures HasStatus(Replay(h[..i]), h[i].op.agent, Active) && h[i].op.issuer != h[i].op.agent
  {
  }

  /** The grant check of the gateway, in terms of history. */
  lemma GrantedIffEntitled(h: History, k: nat)
    requires Legal(h) && k < |h| && h[k].op.Execute?
    ensures IsGranted(Replay(h[..k]), h[k].op.request.agent, h[k].op.request.tool, h[k].now)
            <==> exists i, g :: Entitles(h, i, g, k)
  {
    hide Legal, Replay, Succeeds;
    var t, r := Replay(h[..k]), h[k].op.request;
    if IsGranted(t, r.agent, r.tool, h[k].now) {
      var g :| g in t.grants && IsCurrent(t.grants[g], r.agent, h[k].now) && r.tool in t.grants[g].tools;
      UnrevokedIffStands(h, k, g);
      assert IsUnrevoked(t, g);
      var i :| Stands(h, k, i, g);
      IssueConditions(h, i, g);
      assert Entitles(h, i, g, k);
    }
    if i, g :| Entitles(h, i, g, k) {
      UnrevokedIffStands(h, k, g);
    }
  }

  /** When a tool runs: the system is normal, the agent active, the tool enabled and its parameters
      acceptable, whoever calls; and for everybody but the owner, a grant naming the tool,
      unexpired, was issued to the agent while active, with no revocation, suspension or
      termination since. */
  lemma ToolRunsIffEntitled(h: History, k: nat)
    requires Legal(h) && k < |h| && h[k].op.Execute?
    ensures var t, r := Replay(h[..k]), h[k].op.request;
      Succeeds(h, k) <==>
        && h[k].op.runState.Normal?
        && HasStatus(t, r.agent, Active) && r.tool in t.tools && t.tools[r.tool] && AcceptsParameters(r)
        && (h[k].op.actor.Owner? || exists i, g :: Entitles(h, i, g, k))
  {
    var t, r := Replay(h[..k]), h[k].op.request;
    GrantedIffEntitled(h, k);
    HoldsGrantIff(t, r.agent, r.tool, h[k].now);
    CallGoesThroughIff(t, r, h[k].op.actor, h[k].op.runState, h[k].op.caught, h[k].now);
    assert h[k] == Tx(Execute(r, h[k].op.actor, h[k].op.runState, h[k].op.caught), h[k].now);
    hide Legal, Replay, Entitles, IsGranted, HoldsGrant, AcceptsParameters, HasStatus, OutcomeOf;
  }

  lemma {:induction false} SuccessRowHasCall(h: History, n: nat, m: nat) returns (k: nat)
    requires n <= |h| && m < |Replay(h[..n]).executions| && Replay(h[..n]).executions[m].status == Success
    ensures k < n && h[k].op.Execute? && h[k].op.request == Replay(h[..n]).executions[m].request && Succeeds(h, k)
  {
    if n == 0 {
      assert false;
    } else {
      var t, t', tx := Replay(h[..n - 1]), Replay(h[..n]), h[n - 1];
      ReplayStep(h, n - 1);
      RowsGrow(t, tx);
      hide Replay, Apply, OutcomeOf;
      if m < |t.executions| {
        k := SuccessRowHasCall(h, n - 1, m);
      } else {
        k := n - 1;
      }
    }
  }

  /** Rows are only added, and a success row only by a call that went through. */
  lemma RowsGrow(t: Tables, tx: Tx)
    ensures t.executions <= Apply(t, tx).executions && |Apply(t, tx).executions| <= |t.executions| + 1
    ensures |Apply(t, tx).executions| == |t.executions| + 1 ==>
      && tx.op.Execute? && var last := Apply(t, tx).executions[|t.executions|];
      last.request == tx.op.request && (last.status == Success <==> OutcomeOf(t, tx) == Done)
  {
    if !tx.op.Execute? {
      ApplyFrame(t, tx);
      hide Apply;
    } else {
      hide IsGranted, ArtifactOf, ToolRaises;
    }
  }

  /** The call at k found the system normal, its agent active, its tool registered and enabled and its
      parameters acceptable, and it was the owner's or a standing grant entitled it. */
  ghost predicate WasEntitled(h: History, k: nat)
    requires k < |h| && h[k].op.Execute?
  {
    var t, r := Replay(h[..k]), h[k].op.request;
    && h[k].op.runState.Normal?
    && HasStatus(t, r.agent, Active) && r.tool in t.tools && t.tools[r.tool] && AcceptsParameters(r)
    && (h[k].op.actor.Owner? || exists i, g :: Entitles(h, i, g, k))
  }

  /** Every success row is the record of a tool call made in normal operation for an agent that was
      active then, by the owner or on a standing grant. */
  lemma SuccessRowsAreEntitled(h: History, m: nat) returns (k: nat)
    requires Legal(h) && m < |Replay(h).executions| && Replay(h).executions[m].status == Success
    ensures k < |h| && h[k].op.Execute? && h[k].op.request == Replay(h).executions[m].request && WasEntitled(h, k)
  {
    assert h[..|h|] == h;
    k := SuccessRowHasCall(h, |h|, m);
    ToolRunsIffEntitled(h, k);
    hide Legal, Replay, Entitles, Succeeds, AcceptsParameters, HasStatus;
  }

  // --------------------------------------------------- suspension and termination

  /** Nothing an agent was granted before a suspension or termination entitles anything after
      it, restored or not. */
  lemma OldGrantsAreDead(h: History, j: nat, k: nat, i: nat, g: GrantId)
    requires Legal(h) && j < k < |h| && h[k].op.Execute? && Succeeds(h, j)
    requires (h[j].op.Suspend? || h[j].op.Terminate?) && h[j].op.agent == h[k].op.request.agent
    requires Entitles(h, i, g, k)
    ensures i > j
  {
    hide Legal, Replay;
    if i < j {
      EndedDoesNotStand(h, k, i, j, g);
    }
  }

  lemma EndedDoesNotStand(h: History, n: nat, i: nat, j: nat, g: GrantId)
    requires i < j < n <= |h| && h[i].op.Issue? && EndsGrant(Replay(h[..j]), h[j], g, h[i].op.agent)
    ensures !Stands(h, n, i, g)
  {
  }

  /** Restoring an agent that was not active gives no grant back. */
  lemma RestoreRevivesNoGrant(h: History, k: nat, g: GrantId)
    requires Legal(h) && k < |h| && h[k].op.Restore? && Succeeds(h, k)
    requires h[k].op.agent in Replay(h[..k]).agents && Replay(h[..k]).agents[h[k].op.agent].status != Active
    ensures Replay(h[..k + 1]).grants == Replay(h[..k]).grants
    ensures g in Replay(h[..k + 1]).grants && Replay(h[..k + 1]).grants[g].agent == h[k].op.agent ==>
      Replay(h[..k + 1]).grants[g].revokedAt.Some?
  {
    ReplayStep(h, k);
    LegalPrefix(h, k);
    ReplayKeepsInv(h[..k]);
    hide Replay, Legal;
  }

  predicate IsTerminated(t: Tables, a: ActorId) {
    a in t.agents && t.agents[a].status == Terminated
  }

  predicate Suspends(t: Tables, tx: Tx, a: ActorId) {
    tx.op.Suspend? && tx.op.agent == a && OutcomeOf(t, tx) == Done
  }

  lemma TerminatedStep(t: Tables, tx: Tx, a: ActorId)
    requires FreshIds(t, tx) && IsTerminated(t, a)
    ensures IsTerminated(Apply(t, tx), a) <==> !Suspends(t, tx, a)
  {
    if tx.op.Execute? {
      ApplyFrame(t, tx);
    } else {
      ApplyIsAllOrNothing(t, tx);
    }
    hide Apply, GatewayCheck;
  }

  /** Termination is permanent exactly as long as nobody suspends the terminated agent. */
  lemma TerminationLastsIffNeverSuspended(h: History, i: nat, a: ActorId)
    requires Legal(h) && i <= |h| && IsTerminated(Replay(h[..i]), a)
    ensures (forall j | i <= j <= |h| :: IsTerminated(Replay(h[..j]), a))
            <==> (forall j | i <= j < |h| :: !Suspends(Replay(h[..j]), h[j], a))
  {
    if forall j | i <= j < |h| :: !Suspends(Replay(h[..j]), h[j], a) {
      forall j | i <= j <= |h| ensures IsTerminated(Replay(h[..j]), a) {
        TerminationLasts(h, i, j, a);
      }
    } else {
      var j :| i <= j < |h| && Suspends(Replay(h[..j]), h[j], a);
      hide Suspends, Replay;
      if forall l | i <= l <= |h| :: IsTerminated(Replay(h[..l]), a) {
        assert IsTerminated(Replay(h[..j]), a) && IsTerminated(Replay(h[..j + 1]), a);
        TerminatedNext(h, j, a);
      }
    }
  }

  lemma {:induction false} TerminationLasts(h: History, i: nat, j: nat, a: ActorId)
    requires Legal(h) && i <= j <= |h| && IsTerminated(Replay(h[..i]), a)
    requires forall l | i <= l < j :: !Suspends(Replay(h[..l]), h[l], a)
    ensures IsTerminated(Replay(h[..j]), a)
    decreases j
  {
    hide Legal, Replay, Suspends, IsTerminated;
    if i < j {
      TerminationLasts(h, i, j - 1, a);
      TerminatedNext(h, j - 1, a);
    }
  }

  lemma TerminatedNext(h: History, j: nat, a: ActorId)
    requires Legal(h) && j < |h| && IsTerminated(Replay(h[..j]), a)
    ensures IsTerminated(Replay(h[..j + 1]), a) <==> !Suspends(Replay(h[..j]), h[j], a)
  {
    assert FreshIds(Replay(h[..j]), h[j]);
    ReplayStep(h, j);
    hide Legal, Replay, Suspends, IsTerminated, Apply;
    TerminatedStep(Replay(h[..j]), h[j], a);
  }

  /** A terminated agent can come back: suspend it, then restore it. */
  lemma SuspensionRevivesTerminated(t: Tables, a: ActorId, actor: Role, now: int)
    requires IsTerminated(t, a) && actor != Worker
    ensures Apply(t, Tx(Restore(a, actor), now)) == t
    ensures IsActive(Apply(Apply(t, Tx(Suspend(a, actor), now)), Tx(Restore(a, actor), now)), a)
  {
  }

  /** Artifacts are exactly those of the successful writes done for a task, in order, and none
      of them names an empty or climbing path. */
  lemma ArtifactsAreSuccessfulWrites(h: History)
    requires Legal(h)
    ensures Replay(h).artifacts == ArtifactsOf(Replay(h).executions)
    ensures forall i | 0 <= i < |Replay(h).artifacts| ::
      Replay(h).artifacts[i].resource != "" && !Climbs(Replay(h).artifacts[i].resource)
  {
    ReplayKeepsInv(h);
    var executions := Replay(h).executions;
    hide Replay, Legal;
    ArtifactsAreClean(executions);
  }

  lemma {:induction false} ArtifactsAreClean(executions: seq<Execution>)
    requires forall i | 0 <= i < |executions| && executions[i].status == Success :: !ToolRaises(executions[i].request)
    ensures forall i | 0 <= i < |ArtifactsOf(executions)| ::
      ArtifactsOf(executions)[i].resource != "" && !Climbs(ArtifactsOf(executions)[i].resource)
  {
    hide Climbs;
    if executions != [] {
      ArtifactsAreClean(executions[..|executions| - 1]);
      assert executions[|executions| - 1].status == Success ==> !ToolRaises(executions[|executions| - 1].request);
    }
  }

  // -------------------------------------------------------------------- a revival

  lemma ReplayAppended(h: History, tx: Tx)
    ensures Replay(h + [tx]) == Apply(Replay(h), tx)
  {
    hide Apply;
    assert (h + [tx])[..|h|] == h;
  }

  lemma LegalAppended(h: History, tx: Tx)
    requires Legal(h) && FreshIds(Replay(h), tx) && (h != [] ==> h[|h| - 1].now <= tx.now)
    ensures Legal(h + [tx])
  {
    hide FreshIds, Replay;
    var longer := h + [tx];
    assert longer[..|h|] == h;
    forall i | 0 <= i < |longer| ensures FreshIds(Replay(longer[..i]), longer[i]) {
      if i < |h| {
        assert longer[..i] == h[..i];
      }
    }
    forall i, j | 0 <= i < j < |longer| ensures longer[i].now <= longer[j].now {
      if j == |h| && i < |h| - 1 {
        assert h[i].now <= h[|h| - 1].now;
      }
    }
  }

  lemma Then(h: History, op: Op) returns (longer: History)
    requires Legal(h) && FreshIds(Replay(h), Tx(op, 0)) && (h != [] ==> h[|h| - 1].now == 0)
    ensures Legal(longer) && longer == h + [Tx(op, 0)] && Replay(longer) == Apply(Replay(h), Tx(op, 0))
  {
    ReplayAppended(h, Tx(op, 0));
    LegalAppended(h, Tx(op, 0));
    longer := h + [Tx(op, 0)];
  }

  lemma EmptyIsLegal()
    ensures Legal([]) && Replay([]) == Empty
  {
  }

  /** It happens in four transactions: created, terminated, suspended and restored by the owner,
      an agent is active again. */
  lemma TerminatedAgentReturns() returns (h: History)
    ensures Legal(h) && |h| == 4 && IsTerminated(Replay(h[..2]), 0) && IsActive(Replay(h), 0)
  {
    hide Legal, Replay;
    EmptyIsLegal();
    h := Then([], Create(0, Worker, None, NoDepartment, Owner));
    h := Then(h, Terminate(0, Owner));
    var two := h;
    assert IsTerminated(Replay(two), 0);
    h := Then(h, Suspend(0, Owner));
    h := Then(h, Restore(0, Owner));
    SuspensionRevivesTerminated(Replay(two), 0, Owner, 0);
    assert h[..2] == two;
  }
}
