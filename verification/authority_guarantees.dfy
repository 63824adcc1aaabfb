/** Where authority comes from: a tool runs for an agent only on a grant that was issued while
    the agent was active and that nothing has ended since. */
module AuthorityGuarantees {
  import opened Options
  import opened Authority

  // --------------------------------------------------------------- invariants

  /** Only active agents hold grants that are not revoked. */
  ghost predicate InactiveHoldNothing(t: Tables) {
    forall g | g in t.grants && t.grants[g].revokedAt.None? :: IsActive(t, t.grants[g].agent)
  }

  ghost predicate NoSelfGrants(t: Tables) {
    forall g | g in t.grants :: t.grants[g].issuer != t.grants[g].agent
  }

  function ArtifactsOf(executions: seq<Execution>): seq<Artifact> {
    if executions == [] then []
    else
      var last := executions[|executions| - 1];
      ArtifactsOf(executions[..|executions| - 1]) + if last.status == Success then ArtifactOf(last.request) else []
  }

  ghost predicate Inv(t: Tables) {
    && InactiveHoldNothing(t)
    && NoSelfGrants(t)
    && t.artifacts == ArtifactsOf(t.executions)
    && NoFailedSuccess(t)
  }

  ghost predicate NoFailedSuccess(t: Tables) {
    forall i | 0 <= i < |t.executions| && t.executions[i].status == Success :: !ToolRaises(t.executions[i].request)
  }

  lemma ArtifactsGrow(executions: seq<Execution>, e: Execution)
    ensures ArtifactsOf(executions + [e]) == ArtifactsOf(executions) + if e.status == Success then ArtifactOf(e.request) else []
  {
    assert (executions + [e])[..|executions|] == executions;
  }

  /** A tool call leaves agents, grants and catalog alone; everything else leaves the rows alone. */
  lemma ApplyFrame(t: Tables, tx: Tx)
    ensures var t' := Apply(t, tx);
      if tx.op.Execute? then t'.agents == t.agents && t'.grants == t.grants && t'.tools == t.tools
      else t'.executions == t.executions && t'.artifacts == t.artifacts
  {
    hide GatewayCheck, ArtifactOf;
  }

  /** A transaction on agents or grants is applied in full or not at all. */
  lemma ApplyIsAllOrNothing(t: Tables, tx: Tx)
    requires !tx.op.Execute?
    ensures Apply(t, tx) == if OutcomeOf(t, tx) == Done then Effect(t, tx) else t
  {
  }

  lemma ApplyKeepsGrantsSound(t: Tables, tx: Tx)
    requires InactiveHoldNothing(t) && NoSelfGrants(t) && FreshIds(t, tx)
    ensures InactiveHoldNothing(Apply(t, tx)) && NoSelfGrants(Apply(t, tx))
  {
    ApplyFrame(t, tx);
    if !tx.op.Execute? {
      ApplyIsAllOrNothing(t, tx);
    }
    hide Apply, GatewayCheck;
  }

  /** What a tool call can leave: nothing, a success with its artifact, or a caught refusal. */
  lemma ToolCallRows(t: Tables, tx: Tx)
    requires tx.op.Execute?
    ensures var r := tx.op.request;
      || Apply(t, tx) == t
      || (Apply(t, tx) == Written(t, r, Success).(artifacts := t.artifacts + ArtifactOf(r)) && !ToolRaises(r))
      || Apply(t, tx) == Written(t, r, Failed)
      || Apply(t, tx) == Written(t, r, BlockedByPolicy)
  {
    hide IsGranted, ArtifactOf, Written, ToolRaises;
  }

  lemma ApplyKeepsRowsSound(t: Tables, tx: Tx)
    requires t.artifacts == ArtifactsOf(t.executions) && NoFailedSuccess(t)
    ensures Apply(t, tx).artifacts == ArtifactsOf(Apply(t, tx).executions) && NoFailedSuccess(Apply(t, tx))
  {
    hide Apply, ArtifactsOf, ToolRaises, ArtifactOf;
    if tx.op.Execute? {
      ToolCallRows(t, tx);
      ArtifactsGrow(t.executions, Execution(tx.op.request, Success));
      ArtifactsGrow(t.executions, Execution(tx.op.request, Failed));
      ArtifactsGrow(t.executions, Execution(tx.op.request, BlockedByPolicy));
    } else {
      ApplyFrame(t, tx);
    }
  }

  lemma ApplyKeepsInv(t: Tables, tx: Tx)
    requires Inv(t) && FreshIds(t, tx)
    ensures Inv(Apply(t, tx))
  {
    ApplyKeepsGrantsSound(t, tx);
    ApplyKeepsRowsSound(t, tx);
    hide Apply;
  }

  lemma {:induction false} ReplayKeepsInv(h: History)
    requires Legal(h)
    ensures Inv(Replay(h))
  {
    if h != [] {
      var init := h[..|h| - 1];
      LegalPrefix(h, |h| - 1);
      ReplayKeepsInv(init);
      assert FreshIds(Replay(h[..|h| - 1]), h[|h| - 1]);
      hide Inv, Apply;
      ApplyKeepsInv(Replay(init), h[|h| - 1]);
    }
  }

  lemma LegalPrefix(h: History, n: nat)
    requires Legal(h) && n <= |h|
    ensures Legal(h[..n])
  {
    hide Replay, FreshIds;
    forall i | 0 <= i < n ensures FreshIds(Replay(h[..n][..i]), h[..n][i]) {
      assert h[..n][..i] == h[..i];
    }
  }
}
