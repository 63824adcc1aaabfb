/** What revoke_all_sessions reaches while other requests run beside it. */
module IdentityRevocation {
  import opened Options
  import opened Identity
  import opened IdentityHistory
  import opened IdentityConcurrent
  import opened IdentityInterleaving
  import G = IdentityGuarantees

  /** One committed state after another: rows stay, their fixed columns and revocations too. */
  lemma TablesGrow(cfg: Settings, s: Sys, step: Step)
    requires Inv(cfg, s) && Enabled(s, step)
    ensures Grows(s.db, Do(cfg, s, step).db)
  {
    hide Inv, Grows, WritesOf, Admissible, OutcomeOf;
    if step.Commit? {
      InvThread(cfg, s, step.th);
      ApplyGrows(cfg, s.db, s.threads[step.th].pc.tx);
    } else {
      OthersKeepTables(cfg, s, step);
      GrowsReflexive(s.db);
    }
  }

  lemma OthersKeepTables(cfg: Settings, s: Sys, step: Step)
    requires Enabled(s, step) && !step.Commit?
    ensures Do(cfg, s, step).db == s.db
  {
    hide MarkUnused, Matching, Decide, WritesOf, MarksTokens;
  }

  lemma {:induction false} RunGrows(cfg: Settings, run: seq<Sys>, i: nat, j: nat)
    requires IsRun(cfg, run) && i <= j < |run|
    ensures Grows(run[i].db, run[j].db)
    decreases j
  {
    hide Inv, Do, Enabled, Grows, Next;
    if i == j {
      GrowsReflexive(run[i].db);
    } else {
      RunGrows(cfg, run, i, j - 1);
      RunsAreSerializable(cfg, run, j - 1);
      assert Next(cfg, run[j - 1], run[j]);
      NextGrows(cfg, run[j - 1], run[j]);
      GrowsTransitive(run[i].db, run[j - 1].db, run[j].db);
    }
  }

  lemma NextGrows(cfg: Settings, s: Sys, s': Sys)
    requires Inv(cfg, s) && Next(cfg, s, s')
    ensures Grows(s.db, s'.db)
  {
    hide Inv, Do, Enabled, Grows;
    var step :| Enabled(s, step) && s' == Do(cfg, s, step);
    TablesGrow(cfg, s, step);
  }

  ghost predicate AllRevoked(db: Db, targets: set<SessionId>) {
    forall x | x in targets :: RevokedIn(db, x)
  }

  /** How far a revoke-all request has come with the sessions it selected. */
  ghost predicate OnItsWay(s: Sys, th: ThreadId, targets: set<SessionId>) {
    && th in s.threads && s.threads[th].request.RevokeAll?
    && match s.threads[th].pc
       case Selected(rows) => rows.Keys == targets
       case Pending(_, _, w, _, _) => forall x | x in targets :: x in w.sessions && w.sessions[x].revokedAt.Some?
       case Finished(Answered(_)) => AllRevoked(s.db, targets)
       case Finished(Aborted) => true
       case _ => false
  }

  predicate IsStepOf(step: Step, th: ThreadId) {
    !step.Tick? && !step.SetOwner? && step.th == th
  }

  lemma OthersLeaveThread(cfg: Settings, s: Sys, step: Step, th: ThreadId)
    requires Enabled(s, step) && th in s.threads && !IsStepOf(step, th)
    ensures th in Do(cfg, s, step).threads && Do(cfg, s, step).threads[th] == s.threads[th]
  {
    hide MarkUnused, Matching, Decide, WritesOf, MarksTokens;
  }

  lemma OwnStep(cfg: Settings, s: Sys, step: Step, th: ThreadId, targets: set<SessionId>)
    requires Enabled(s, step) && OnItsWay(s, th, targets) && IsStepOf(step, th)
    ensures OnItsWay(Do(cfg, s, step), th, targets)
  {
    hide MarkUnused, Matching, Decide, WritesOf, MarksTokens;
  }

  lemma StepGoesOn(cfg: Settings, s: Sys, step: Step, th: ThreadId, targets: set<SessionId>)
    requires Inv(cfg, s) && Enabled(s, step) && OnItsWay(s, th, targets)
    ensures OnItsWay(Do(cfg, s, step), th, targets)
  {
    if IsStepOf(step, th) {
      OwnStep(cfg, s, step, th, targets);
    } else {
      OthersLeaveThread(cfg, s, step, th);
      TablesGrow(cfg, s, step);
      hide Inv, Do, Enabled;
    }
  }

  lemma {:induction false} RunGoesOn(cfg: Settings, run: seq<Sys>, i: nat, j: nat, th: ThreadId, targets: set<SessionId>)
    requires IsRun(cfg, run) && i <= j < |run| && OnItsWay(run[i], th, targets)
    ensures OnItsWay(run[j], th, targets)
    decreases j
  {
    hide Inv, Do, Enabled, OnItsWay, Next;
    if i < j {
      RunGoesOn(cfg, run, i, j - 1, th, targets);
      RunsAreSerializable(cfg, run, j - 1);
      assert Next(cfg, run[j - 1], run[j]);
      NextGoesOn(cfg, run[j - 1], run[j], th, targets);
    }
  }

  lemma NextGoesOn(cfg: Settings, s: Sys, s': Sys, th: ThreadId, targets: set<SessionId>)
    requires Inv(cfg, s) && Next(cfg, s, s') && OnItsWay(s, th, targets)
    ensures OnItsWay(s', th, targets)
  {
    hide Inv, Do, Enabled, OnItsWay;
    var step :| Enabled(s, step) && s' == Do(cfg, s, step);
    StepGoesOn(cfg, s, step, th, targets);
  }

  lemma SelectionStarts(cfg: Settings, s: Sys, th: ThreadId)
    requires Enabled(s, SelectRows(th)) && s.threads[th].request.RevokeAll?
    ensures var t := s.threads[th];
      OnItsWay(Do(cfg, s, SelectRows(th)), th, Matching(s.db, t.request.owner, t.now, t.request.keep))
  {
    hide MarkUnused;
  }

  /** Once a revoke-all request is answered, every session of its owner that was live when it
      selected its rows is revoked, whatever ran beside it; a session that is live afterwards,
      other than the one it keeps, was opened by a login that committed since. */
  lemma RevokeAllReach(cfg: Settings, run: seq<Sys>, i: nat, j: nat, th: ThreadId, outcome: Outcome)
    requires IsRun(cfg, run) && i < j < |run|
    requires Enabled(run[i], SelectRows(th)) && run[i + 1] == Do(cfg, run[i], SelectRows(th))
    requires run[i].threads[th].request.RevokeAll? && G.HasAnswer(run[j], th, outcome)
    ensures var t := run[i].threads[th];
      && AllRevoked(run[j].db, Matching(run[i].db, t.request.owner, t.now, t.request.keep))
      && forall x | x in Matching(run[j].db, t.request.owner, t.now, t.request.keep) :: x !in run[i].db.sessions
  {
    var t := run[i].threads[th];
    SelectionStarts(cfg, run[i], th);
    RunGoesOn(cfg, run, i + 1, j, th, Matching(run[i].db, t.request.owner, t.now, t.request.keep));
    RunGrows(cfg, run, i, j);
    hide IsRun, Do, Enabled, Grows, Matching;
    forall x | x in Matching(run[j].db, t.request.owner, t.now, t.request.keep) ensures x !in run[i].db.sessions {
      LiveWasLive(run[i].db, run[j].db, t.request.owner, t.now, t.request.keep, x);
    }
  }

  lemma LiveWasLive(a: Db, b: Db, owner: OwnerId, now: int, keep: Option<SessionId>, x: SessionId)
    requires Grows(a, b) && x in Matching(b, owner, now, keep)
    ensures x in a.sessions ==> x in Matching(a, owner, now, keep)
    ensures !RevokedIn(b, x)
  {
  }
}
