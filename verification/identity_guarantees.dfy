/** The identity service's promises, read off every state of every interleaved run. */
module IdentityGuarantees {
  import opened Options
  import opened Identity
  import opened IdentityHistory
  import opened IdentityConcurrent
  import opened IdentityInterleaving

  // ------------------------------------------------------------ what runs keep

  /** Every committed state has at most one unused token per session, and every session
      that is not revoked has one. */
  lemma CommittedStatesAreValid(cfg: Settings, s: Sys)
    requires Reachable(cfg, s)
    ensures Valid(s.db)
  {
    hide Reachable, ThreadOk, Exclusive, Minted, LogMatches, Valid;
    ReachableInv(cfg, s);
    HistoryValid(cfg, Txs(s.log));
  }

  /** The committed tables of every reachable state are those of the answered transactions run
      one after the other, and each request got the answer its transaction gives there. */
  lemma ReachableTablesAreSerial(cfg: Settings, s: Sys)
    requires Reachable(cfg, s)
    ensures LogExplains(cfg, s.db, s.log) && LogMatches(s.threads, s.log)
  {
    hide Reachable, LogExplains, LogMatches;
    ReachableInv(cfg, s);
  }

  predicate HasAnswer(s: Sys, a: ThreadId, outcome: Outcome) {
    a in s.threads && s.threads[a].pc == Finished(Answered(outcome))
  }

  /** The log entry of an answered request. */
  lemma FindEntry(cfg: Settings, s: Sys, a: ThreadId, outcome: Outcome) returns (i: int)
    requires Inv(cfg, s) && HasAnswer(s, a, outcome)
    ensures 0 <= i < |s.log| && s.log[i] == Entry(a, s.log[i].tx, outcome)
    ensures Serves(s.threads[a], s.log[i].tx)
    ensures outcome == OutcomeOf(Replay(cfg, Txs(s.log)[..i]), s.log[i].tx)
  {
    hide ThreadOk, Exclusive, Minted, Serves, OutcomeOf, Replay, Legal;
    assert InLog(s.log, a);
    i :| 0 <= i < |s.log| && s.log[i].thread == a;
    assert AnsweredBy(s.threads, s.log[i]);
  }

  /** Two requests that present the same refresh token are never both answered with a new one. */
  lemma OneRotationPerToken(cfg: Settings, s: Sys, a: ThreadId, b: ThreadId)
    requires Reachable(cfg, s) && a != b && HasAnswer(s, a, Rotated) && HasAnswer(s, b, Rotated)
    requires s.threads[a].request.Refresh? && s.threads[b].request.Refresh?
    ensures s.threads[a].request.token != s.threads[b].request.token
  {
    hide Reachable;
    ReachableInv(cfg, s);
    hide OutcomeOf, Replay, Legal, ThreadOk, Exclusive, Minted, LogMatches;
    var i := FindEntry(cfg, s, a, Rotated);
    var j := FindEntry(cfg, s, b, Rotated);
    var h := Txs(s.log);
    assert RotatedAt(cfg, h, i) && RotatedAt(cfg, h, j);
    if i < j {
      RotatedAtMostOnce(cfg, h, i, j);
    } else {
      RotatedAtMostOnce(cfg, h, j, i);
    }
  }

  /** The tables an answered request ran on, and that they and its effect are still there. */
  lemma EntryTables(cfg: Settings, s: Sys, a: ThreadId, outcome: Outcome) returns (before: Db, tx: Tx)
    requires Inv(cfg, s) && HasAnswer(s, a, outcome)
    ensures outcome == OutcomeOf(before, tx) && Serves(s.threads[a], tx) && Admissible(before, tx)
    ensures Grows(before, s.db) && Grows(Apply(cfg, before, tx), s.db)
  {
    hide Apply, OutcomeOf, Admissible, Serves, Grows, ThreadOk, Exclusive, Minted, LogMatches, HasAnswer;
    var i := FindEntry(cfg, s, a, outcome);
    var h := Txs(s.log);
    before, tx := Replay(cfg, h[..i]), h[i];
    assert h[..|h|] == h;
    ReplayStep(cfg, h, i);
    HistoryGrows(cfg, h, i, |h|);
    HistoryGrows(cfg, h, i + 1, |h|);
  }

  /** A request answered with replay detection failed, and the session of the token it
      presented is committed as revoked from then on. */
  lemma ReplayAnswerMeansRevoked(cfg: Settings, s: Sys, a: ThreadId)
    requires Reachable(cfg, s) && HasAnswer(s, a, ReplayDetected)
    ensures s.threads[a].request.Refresh? && s.threads[a].request.token in s.db.tokens
    ensures RevokedIn(s.db, s.db.tokens[s.threads[a].request.token].session)
  {
    hide Reachable, Inv, Apply, OutcomeOf, Admissible;
    ReachableInv(cfg, s);
    var before, tx := EntryTables(cfg, s, a, ReplayDetected);
    ReplayTxFacts(cfg, before, tx);
  }

  lemma ReplayTxFacts(cfg: Settings, db: Db, tx: Tx)
    requires OutcomeOf(db, tx) == ReplayDetected
    ensures tx.RefreshTx? && tx.token in Apply(cfg, db, tx).tokens
    ensures RevokedIn(Apply(cfg, db, tx), Apply(cfg, db, tx).tokens[tx.token].session)
  {
  }

  /** After one request rotated a token, any later answered request that presents it is told
      nothing but replay detection; the session is then revoked. */
  lemma SecondPresentationIsReplay(cfg: Settings, s: Sys, i: int, j: int)
    requires Reachable(cfg, s) && 0 <= i < j < |s.log|
    requires s.log[i].tx.RefreshTx? && s.log[j].tx.RefreshTx? && s.log[i].tx.token == s.log[j].tx.token
    requires s.log[i].outcome == Rotated
    ensures s.log[j].outcome == ReplayDetected
    ensures HasAnswer(s, s.log[j].thread, ReplayDetected)
  {
    hide Reachable;
    ReachableInv(cfg, s);
    hide OutcomeOf, Replay, Legal, ThreadOk, Exclusive, Minted;
    var h := Txs(s.log);
    assert RotatedAt(cfg, h, i);
    ReuseEndsSession(cfg, h, i, j, j);
    assert AnsweredBy(s.threads, s.log[j]);
  }

  /** A rotation is answered only to a request that arrived before its session's expiry, and
      that session was not revoked when it was decided. */
  lemma RotationArrivedInTime(cfg: Settings, s: Sys, a: ThreadId)
    requires Reachable(cfg, s) && HasAnswer(s, a, Rotated)
    ensures s.threads[a].request.Refresh? && s.threads[a].request.token in s.db.tokens
    ensures s.db.tokens[s.threads[a].request.token].session in s.db.sessions
    ensures s.threads[a].now < s.db.sessions[s.db.tokens[s.threads[a].request.token].session].expiresAt
  {
    hide Reachable, Inv, Apply, OutcomeOf, Admissible;
    ReachableInv(cfg, s);
    var before, tx := EntryTables(cfg, s, a, Rotated);
    RotatedIsRefresh(before, tx);
    RotationFacts(cfg, before, tx);
  }

  lemma RotatedIsRefresh(db: Db, tx: Tx)
    requires OutcomeOf(db, tx) == Rotated
    ensures tx.RefreshTx?
  {
  }

  // -------------------------------------------------------- what changes the tables

  /** The tables change only when a request commits, and then its answer is not a denial: a
      refresh that is denied, aborted or still running has left no trace. */
  lemma OnlyCommitsChangeTables(cfg: Settings, s: Sys, step: Step)
    requires Reachable(cfg, s) && Enabled(s, step) && Do(cfg, s, step).db != s.db
    ensures step.Commit?
    ensures !s.threads[step.th].pc.outcome.Denied?
    ensures Do(cfg, s, step).db == Apply(cfg, s.db, s.threads[step.th].pc.tx)
    ensures HasAnswer(Do(cfg, s, step), step.th, s.threads[step.th].pc.outcome)
  {
    hide Reachable;
    ReachableInv(cfg, s);
    assert step.Commit?;
    hide LogExplains, LogMatches, Exclusive, Minted;
    assert ThreadOk(cfg, s.db, s.threads[step.th]);
    DeniedWritesNothing(cfg, s.db, s.threads[step.th].pc.tx);
  }

  lemma DeniedWritesNothing(cfg: Settings, db: Db, tx: Tx)
    ensures OutcomeOf(db, tx).Denied? ==> Apply(cfg, db, tx) == db
  {
  }

  // ----------------------------------------------------------------- progress

  predicate Advances(step: Step, th: ThreadId) {
    match step
    case PrepareLogin(a, _, _) => a == th
    case Find(a) => a == th
    case LockSession(a) => a == th
    case LockToken(a) => a == th
    case DecideRefresh(a, _) => a == th
    case SelectRows(a) => a == th
    case BulkUpdate(a) => a == th
    case Commit(a) => a == th
    case _ => false
  }

  ghost predicate CanAdvance(s: Sys, th: ThreadId) {
    exists step :: Enabled(s, step) && Advances(step, th)
  }

  lemma {:induction false} UnusedId(used: set<nat>) returns (n: nat)
    ensures n !in used
    ensures forall k | k in used :: k < n
    decreases |used|
  {
    if used == {} {
      n := 0;
    } else {
      var k :| k in used;
      var m := UnusedId(used - {k});
      n := if m <= k then k + 1 else m;
      assert used == (used - {k}) + {k};
    }
  }

  lemma TokensHeldFollowSessions(cfg: Settings, s: Sys, a: ThreadId)
    requires Inv(cfg, s) && a in s.threads
    ensures forall t | t in TokensHeld(s.threads[a]) :: t in s.db.tokens && s.db.tokens[t].session in SessionsHeld(s.threads[a].pc)
  {
    hide Inv;
    InvThread(cfg, s, a);
  }

  lemma OwnTokensAreFree(cfg: Settings, s: Sys, th: ThreadId, t: TokenId)
    requires Inv(cfg, s) && th in s.threads
    requires t in s.db.tokens && s.db.tokens[t].session in SessionsHeld(s.threads[th].pc)
    ensures TokenFree(s, t, th)
  {
    hide ThreadOk, LogExplains, LogMatches, Minted, SessionsHeld, TokensHeld;
    forall a | a in s.threads && a != th ensures t !in TokensHeld(s.threads[a]) {
      TokensHeldFollowSessions(cfg, s, a);
      assert Apart(s.threads[th].pc, s.threads[a].pc);
    }
  }

  /** Whoever holds a session lock can always take its next step: the token locks it may still
      need belong to sessions it already holds. */
  lemma HolderNeverWaits(cfg: Settings, s: Sys, th: ThreadId)
    requires Reachable(cfg, s) && th in s.threads && SessionsHeld(s.threads[th].pc) != {}
    ensures CanAdvance(s, th)
  {
    hide Reachable, Inv;
    ReachableInv(cfg, s);
    InvThread(cfg, s, th);
    var t := s.threads[th];
    match t.pc
    case HoldsSession(sid, _) =>
      OwnTokensAreFree(cfg, s, th, t.request.token);
      assert Enabled(s, LockToken(th)) && Advances(LockToken(th), th);
    case HoldsToken(_, _, _) =>
      var tid := UnusedId(s.mintedTokens);
      assert Enabled(s, DecideRefresh(th, tid)) && Advances(DecideRefresh(th, tid), th);
    case Selected(rows) =>
      forall u | u in MarkUnused(s.db.tokens, rows.Keys, t.now) ensures TokenFree(s, u, th) {
        OwnTokensAreFree(cfg, s, th, u);
      }
      assert Enabled(s, BulkUpdate(th)) && Advances(BulkUpdate(th), th);
    case Pending(_, _, _, _, _) =>
      assert Enabled(s, Commit(th)) && Advances(Commit(th), th);
  }

  /** No deadlock: while a request is unfinished, some request can take a step other than
      being aborted. */
  lemma SomeRequestCanAdvance(cfg: Settings, s: Sys, th: ThreadId)
    requires Reachable(cfg, s) && th in s.threads && !s.threads[th].pc.Finished?
    ensures exists a :: a in s.threads && CanAdvance(s, a)
  {
    hide Reachable, Inv, CanAdvance;
    ReachableInv(cfg, s);
    var t := s.threads[th];
    if SessionsHeld(t.pc) != {} {
      HolderNeverWaits(cfg, s, th);
    } else if t.pc.Pending? {
      Witness(s, Commit(th), th);
    } else if t.pc.Arrived? && t.request.Login? {
      var sid := UnusedId(s.mintedSessions);
      var tid := UnusedId(s.mintedTokens);
      Witness(s, PrepareLogin(th, sid, tid), th);
    } else if t.pc.Arrived? && t.request.Refresh? {
      Witness(s, Find(th), th);
    } else if t.pc.Located? {
      if SessionFree(s, t.pc.sid) {
        Witness(s, LockSession(th), th);
      } else {
        HolderOf(cfg, s, t.pc.sid);
      }
    } else if t.pc.Arrived? {
      if sid :| sid in Selection(s.db, t.request, t.now) && !SessionFree(s, sid) {
        HolderOf(cfg, s, sid);
      } else {
        Witness(s, SelectRows(th), th);
      }
    } else {
      InvThread(cfg, s, th);
    }
  }

  lemma Witness(s: Sys, step: Step, th: ThreadId)
    requires Enabled(s, step) && Advances(step, th)
    ensures CanAdvance(s, th)
  {
  }

  lemma HolderOf(cfg: Settings, s: Sys, sid: SessionId)
    requires Reachable(cfg, s) && !SessionFree(s, sid)
    ensures exists a :: a in s.threads && CanAdvance(s, a)
  {
    hide Reachable, CanAdvance;
    var a :| a in s.threads && sid in SessionsHeld(s.threads[a].pc);
    HolderNeverWaits(cfg, s, a);
  }
}
