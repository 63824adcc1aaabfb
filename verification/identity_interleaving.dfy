/** Every interleaving of identity requests commits a legal history, one transaction at a
    time, and no request that holds a lock ever waits. */
module IdentityInterleaving {
  import opened Options
  import opened Identity
  import opened IdentityHistory
  import opened IdentityConcurrent

  // ---------------------------------------------------------------- invariant

  /** What a thread knows about the committed tables at its program point. */
  ghost predicate ThreadOk(cfg: Settings, db: Db, t: Thread) {
    match t.pc
    case Arrived => true
    case Located(sid) => LocatesToken(db, t, sid)
    case HoldsSession(sid, row) => LocatesToken(db, t, sid) && sid in db.sessions && db.sessions[sid] == row
    case HoldsToken(sid, row, token) =>
      LocatesToken(db, t, sid) && sid in db.sessions && db.sessions[sid] == row && db.tokens[t.request.token] == token
    case Selected(rows) => SelectedOk(db, t, rows)
    case Pending(tx, outcome, w, sessions, tokens) => PendingOk(cfg, db, tx, outcome, w, sessions, tokens) && Serves(t, tx)
    case Finished(_) => true
  }

  ghost predicate LocatesToken(db: Db, t: Thread, sid: SessionId) {
    t.request.Refresh? && t.request.token in db.tokens && db.tokens[t.request.token].session == sid
  }

  ghost predicate SelectedOk(db: Db, t: Thread, rows: map<SessionId, Session>) {
    && !t.request.Login? && !t.request.Refresh?
    && rows.Keys != {}
    && rows.Keys <= Selection(db, t.request, t.now)
    && (forall s | s in rows :: s in db.sessions && rows[s] == db.sessions[s])
  }

  ghost predicate PendingOk(cfg: Settings, db: Db, tx: Tx, outcome: Outcome, w: Writes, sessions: set<SessionId>, tokens: set<TokenId>) {
    && Admissible(db, tx)
    && w == WritesOf(cfg, db, tx)
    && outcome == OutcomeOf(db, tx)
    && (forall s | s in sessions :: s in db.sessions)
    && (forall t | t in tokens :: t in db.tokens && db.tokens[t].session in sessions)
    && Confined(db, tx, sessions)
  }

  /** Every existing row that tx reads or writes belongs to one of the locked sessions. */
  ghost predicate Confined(db: Db, tx: Tx, sessions: set<SessionId>) {
    match tx
    case LoginTx(_, _, _, _) => sessions == {}
    case RefreshTx(token, _, _, _) => token in db.tokens && sessions == {db.tokens[token].session}
    case LogoutTx(sid, _) => sessions == {sid}
    case RevokeTx(owner, sid, _) => sessions == {sid}
    case RevokeAllTx(_, _, targets) => sessions == targets
  }

  /** The transaction is the one the thread's request asks for, at the time it arrived. */
  predicate Serves(t: Thread, tx: Tx) {
    match t.request
    case Login(owner) => tx.LoginTx? && tx.owner == owner && tx.now == t.now
    case Refresh(token) => tx.RefreshTx? && tx.token == token && tx.now == t.now
    case Logout(sid) => tx == LogoutTx(sid, t.now)
    case RevokeOne(owner, sid) => tx == RevokeTx(owner, sid, t.now)
    case RevokeAll(owner, _) => tx.RevokeAllTx? && tx.owner == owner && tx.now == t.now
  }

  function NewTokens(pc: Pc): set<TokenId> {
    match pc
    case Pending(LoginTx(_, _, _, tid), _, _, _, _) => {tid}
    case Pending(RefreshTx(_, _, _, tid), outcome, _, _, _) => if outcome == Rotated then {tid} else {}
    case _ => {}
  }

  function NewSessions(pc: Pc): set<SessionId> {
    match pc
    case Pending(LoginTx(_, _, sid, _), _, _, _, _) => {sid}
    case _ => {}
  }

  /** Two requests share no locked session and no id they are about to insert. */
  ghost predicate Apart(p: Pc, q: Pc) {
    && SessionsHeld(p) !! SessionsHeld(q)
    && NewTokens(p) !! NewTokens(q)
    && NewSessions(p) !! NewSessions(q)
  }

  ghost predicate Exclusive(threads: map<ThreadId, Thread>) {
    forall a, b | a in threads && b in threads && a != b :: Apart(threads[a].pc, threads[b].pc)
  }

  ghost predicate Minted(s: Sys) {
    && s.db.tokens.Keys <= s.mintedTokens
    && s.db.sessions.Keys <= s.mintedSessions
    && (forall a | a in s.threads :: NewTokens(s.threads[a].pc) <= s.mintedTokens && NewSessions(s.threads[a].pc) <= s.mintedSessions)
  }

  function Txs(log: seq<Entry>): History {
    seq(|log|, i requires 0 <= i < |log| => log[i].tx)
  }

  /** The committed tables are the answered transactions run one after the other, and each
      answer is the one its transaction gives there. */
  ghost predicate LogExplains(cfg: Settings, db: Db, log: seq<Entry>) {
    && Legal(cfg, Txs(log))
    && db == Replay(cfg, Txs(log))
    && (forall i | 0 <= i < |log| :: log[i].outcome == OutcomeOf(Replay(cfg, Txs(log)[..i]), log[i].tx))
  }

  /** The answered threads and the log entries correspond one to one. */
  ghost predicate LogMatches(threads: map<ThreadId, Thread>, log: seq<Entry>) {
    && (forall i | 0 <= i < |log| :: AnsweredBy(threads, log[i]))
    && (forall i, j | 0 <= i < j < |log| :: log[i].thread != log[j].thread)
    && (forall a | a in threads && threads[a].pc.Finished? && threads[a].pc.result.Answered? :: InLog(log, a))
  }

  ghost predicate InLog(log: seq<Entry>, a: ThreadId) {
    exists i :: 0 <= i < |log| && log[i].thread == a
  }

  predicate AnsweredBy(threads: map<ThreadId, Thread>, e: Entry) {
    e.thread in threads && threads[e.thread].pc == Finished(Answered(e.outcome)) && Serves(threads[e.thread], e.tx)
  }

  ghost predicate Inv(cfg: Settings, s: Sys) {
    && (forall a | a in s.threads :: ThreadOk(cfg, s.db, s.threads[a]))
    && Exclusive(s.threads)
    && Minted(s)
    && LogExplains(cfg, s.db, s.log)
    && LogMatches(s.threads, s.log)
  }

  // ------------------------------------------------------------ local steps

  lemma ApartSymmetric()
    ensures forall p, q | Apart(p, q) :: Apart(q, p)
  {
  }

  /** The state after thread th moved to pc, minting the given ids. */
  function Moved(s: Sys, th: ThreadId, pc: Pc, sids: set<SessionId>, tids: set<TokenId>): Sys
    requires th in s.threads
  {
    Put(s, th, pc).(mintedSessions := s.mintedSessions + sids, mintedTokens := s.mintedTokens + tids)
  }

  /** A thread that moves without touching the tables keeps the invariant when it knows the
      tables at its new point, locks only free rows and mints only new ids. */
  lemma MoveKeepsInv(cfg: Settings, s: Sys, th: ThreadId, pc: Pc, sids: set<SessionId>, tids: set<TokenId>)
    requires Inv(cfg, s) && th in s.threads && !s.threads[th].pc.Finished?
    requires ThreadOk(cfg, s.db, s.threads[th].(pc := pc))
    requires SessionsHeld(pc) <= SessionsHeld(s.threads[th].pc) || forall sid | sid in SessionsHeld(pc) :: SessionFree(s, sid)
    requires NewTokens(pc) <= tids && tids !! s.mintedTokens && NewSessions(pc) <= sids && sids !! s.mintedSessions
    requires pc.Finished? ==> pc.result == Aborted
    ensures Inv(cfg, Moved(s, th, pc, sids, tids))
  {
    hide ThreadOk, LogExplains, LogMatches, NewTokens, NewSessions, SessionsHeld, Exclusive;
    MovesApart(cfg, s, th, pc, sids, tids);
    MoveKeepsMatches(s.threads, s.log, th, pc);
  }

  lemma MoveKeepsMatches(threads: map<ThreadId, Thread>, log: seq<Entry>, th: ThreadId, pc: Pc)
    requires LogMatches(threads, log) && th in threads && !threads[th].pc.Finished?
    requires pc.Finished? ==> pc.result == Aborted
    ensures LogMatches(threads[th := threads[th].(pc := pc)], log)
  {
    hide Serves;
    var threads' := threads[th := threads[th].(pc := pc)];
    forall i | 0 <= i < |log| ensures AnsweredBy(threads', log[i]) {
      assert AnsweredBy(threads, log[i]);
    }
  }

  lemma MovesApart(cfg: Settings, s: Sys, th: ThreadId, pc: Pc, sids: set<SessionId>, tids: set<TokenId>)
    requires Exclusive(s.threads) && Minted(s) && th in s.threads
    requires SessionsHeld(pc) <= SessionsHeld(s.threads[th].pc) || forall sid | sid in SessionsHeld(pc) :: SessionFree(s, sid)
    requires NewTokens(pc) <= tids && tids !! s.mintedTokens && NewSessions(pc) <= sids && sids !! s.mintedSessions
    ensures Exclusive(Moved(s, th, pc, sids, tids).threads)
  {
    hide NewTokens, NewSessions, SessionsHeld;
    forall a | a in s.threads && a != th ensures Apart(pc, s.threads[a].pc) {
      assert Apart(s.threads[th].pc, s.threads[a].pc);
    }
    hide Apart;
    ApartSymmetric();
  }

  lemma InvThread(cfg: Settings, s: Sys, th: ThreadId)
    requires Inv(cfg, s) && th in s.threads
    ensures ThreadOk(cfg, s.db, s.threads[th])
    ensures s.db.tokens.Keys <= s.mintedTokens && s.db.sessions.Keys <= s.mintedSessions
  {
    hide LogExplains, LogMatches, ThreadOk;
  }

  // ---------------------------------------------------------- answering steps

  lemma AppendExplained(cfg: Settings, db: Db, log: seq<Entry>, e: Entry)
    requires LogExplains(cfg, db, log) && Admissible(db, e.tx) && e.outcome == OutcomeOf(db, e.tx)
    ensures LogExplains(cfg, Apply(cfg, db, e.tx), log + [e])
  {
    hide Apply, OutcomeOf, Admissible;
    var h, h' := Txs(log), Txs(log + [e]);
    var n := |h|;
    assert h' == h + [e.tx];
    assert h'[..n] == h;
    forall i | 0 <= i < |h'|
      ensures Admissible(Replay(cfg, h'[..i]), h'[i])
      ensures (log + [e])[i].outcome == OutcomeOf(Replay(cfg, h'[..i]), h'[i])
    {
      if i < n {
        assert h'[..i] == h[..i];
        assert log[i].outcome == OutcomeOf(Replay(cfg, h[..i]), log[i].tx);
      }
    }
  }

  lemma FinishKeepsExclusive(threads: map<ThreadId, Thread>, th: ThreadId, result: Result)
    requires Exclusive(threads) && th in threads
    ensures Exclusive(threads[th := threads[th].(pc := Finished(result))])
  {
    hide Apart;
    FinishedApart(result);
    ApartSymmetric();
  }

  lemma FinishedApart(result: Result)
    ensures forall p :: Apart(Finished(result), p)
    ensures NewTokens(Finished(result)) == {} && NewSessions(Finished(result)) == {}
  {
  }

  lemma AppendMatches(threads: map<ThreadId, Thread>, log: seq<Entry>, e: Entry)
    requires LogMatches(threads, log) && e.thread in threads && !threads[e.thread].pc.Finished?
    requires Serves(threads[e.thread], e.tx)
    ensures LogMatches(threads[e.thread := threads[e.thread].(pc := Finished(Answered(e.outcome)))], log + [e])
  {
    hide Serves;
    var threads' := threads[e.thread := threads[e.thread].(pc := Finished(Answered(e.outcome)))];
    var log' := log + [e];
    assert Serves(threads'[e.thread], e.tx) by {
      ServesIgnoresPc(threads[e.thread], threads'[e.thread], e.tx);
    }
    forall i | 0 <= i < |log'| ensures AnsweredBy(threads', log'[i]) {
      if i < |log| {
        assert AnsweredBy(threads, log[i]);
      }
    }
    forall i, j | 0 <= i < j < |log'| ensures log'[i].thread != log'[j].thread {
      assert AnsweredBy(threads, log[i]);
    }
    forall a | a in threads' && threads'[a].pc.Finished? && threads'[a].pc.result.Answered? ensures InLog(log', a) {
      if a == e.thread {
        assert log'[|log|].thread == a;
      } else {
        assert InLog(log, a);
        var i :| 0 <= i < |log| && log[i].thread == a;
        assert log'[i].thread == a;
      }
    }
  }

  lemma ServesIgnoresPc(t: Thread, t': Thread, tx: Tx)
    requires Serves(t, tx) && t'.request == t.request && t'.now == t.now
    ensures Serves(t', tx)
  {
  }

  /** A request that wrote nothing is answered as its transaction would be at this moment. */
  lemma AnswerKeepsInv(cfg: Settings, s: Sys, th: ThreadId, tx: Tx, outcome: Outcome)
    requires Inv(cfg, s) && th in s.threads && !s.threads[th].pc.Finished?
    requires Serves(s.threads[th], tx) && Admissible(s.db, tx) && outcome == OutcomeOf(s.db, tx)
    requires Apply(cfg, s.db, tx) == s.db
    ensures Inv(cfg, Answer(s, th, tx, outcome))
  {
    hide ThreadOk, Apply, OutcomeOf, Admissible, LogExplains, LogMatches, Serves, Exclusive, NewTokens, NewSessions;
    FinishKeepsExclusive(s.threads, th, Answered(outcome));
    FinishedApart(Answered(outcome));
    var e := Entry(th, tx, outcome);
    AppendExplained(cfg, s.db, s.log, e);
    AppendMatches(s.threads, s.log, e);
    var s' := Answer(s, th, tx, outcome);
    FinishedOk(cfg, s'.db, s'.threads[th]);
  }

  lemma FinishedOk(cfg: Settings, db: Db, t: Thread)
    requires t.pc.Finished?
    ensures ThreadOk(cfg, db, t)
  {
  }

  // ------------------------------------------------------------------- commit

  /** The two databases hold the same rows for the given sessions and their tokens. */
  ghost predicate AgreeOn(a: Db, b: Db, sids: set<SessionId>) {
    && (forall s | s in sids :: (s in a.sessions <==> s in b.sessions) && (s in a.sessions ==> a.sessions[s] == b.sessions[s]))
    && (forall t | t in a.tokens && a.tokens[t].session in sids :: t in b.tokens && b.tokens[t] == a.tokens[t])
    && (forall t | t in b.tokens && b.tokens[t].session in sids :: t in a.tokens && b.tokens[t] == a.tokens[t])
  }

  /** A transaction leaves alone every session outside those it is confined to. */
  lemma ConfinedWritesAgree(cfg: Settings, db: Db, tx: Tx, locked: set<SessionId>, others: set<SessionId>)
    requires Valid(db) && Admissible(db, tx) && Confined(db, tx, locked) && locked !! others
    requires tx.LoginTx? ==> tx.session !in others
    ensures AgreeOn(db, Apply(cfg, db, tx), others)
  {
  }

  /** A transaction reads nothing outside the sessions it is confined to. */
  lemma ConfinedReadsAgree(cfg: Settings, a: Db, b: Db, tx: Tx, locked: set<SessionId>)
    requires AgreeOn(a, b, locked) && Confined(a, tx, locked) && Grows(a, b)
    ensures OutcomeOf(b, tx) == OutcomeOf(a, tx)
    ensures WritesOf(cfg, b, tx) == WritesOf(cfg, a, tx)
    ensures Confined(b, tx, locked)
  {
    if tx.RefreshTx? {
    } else if tx.LogoutTx? {
      MarkAgrees(a, b, {tx.session}, tx.now);
    } else if tx.RevokeTx? {
      MarkAgrees(a, b, {tx.session}, tx.now);
    } else if tx.RevokeAllTx? {
      MarkAgrees(a, b, tx.targets, tx.now);
    }
  }

  lemma MarkAgrees(a: Db, b: Db, sids: set<SessionId>, now: int)
    requires AgreeOn(a, b, sids)
    ensures MarkUnused(a.tokens, sids, now) == MarkUnused(b.tokens, sids, now)
  {
  }

  /** What a thread knows survives another thread's commit. */
  lemma ThreadOkStable(cfg: Settings, a: Db, b: Db, t: Thread)
    requires ThreadOk(cfg, a, t) && Grows(a, b) && AgreeOn(a, b, SessionsHeld(t.pc))
    requires NewTokens(t.pc) !! b.tokens.Keys && NewSessions(t.pc) !! b.sessions.Keys
    ensures ThreadOk(cfg, b, t)
  {
    if t.pc.Pending? {
      PendingOkStable(cfg, a, b, t.pc);
    } else if t.pc.Selected? {
    }
  }

  lemma PendingOkStable(cfg: Settings, a: Db, b: Db, pc: Pc)
    requires pc.Pending? && PendingOk(cfg, a, pc.tx, pc.outcome, pc.writes, pc.sessions, pc.tokens)
    requires Grows(a, b) && AgreeOn(a, b, pc.sessions)
    requires NewTokens(pc) !! b.tokens.Keys && NewSessions(pc) !! b.sessions.Keys
    ensures PendingOk(cfg, b, pc.tx, pc.outcome, pc.writes, pc.sessions, pc.tokens)
  {
    ConfinedReadsAgree(cfg, a, b, pc.tx, pc.sessions);
    AdmissibleStable(a, b, pc);
  }

  lemma AdmissibleStable(a: Db, b: Db, pc: Pc)
    requires pc.Pending? && Admissible(a, pc.tx) && Confined(a, pc.tx, pc.sessions) && AgreeOn(a, b, pc.sessions)
    requires OutcomeOf(b, pc.tx) == OutcomeOf(a, pc.tx) == pc.outcome
    requires NewTokens(pc) !! b.tokens.Keys && NewSessions(pc) !! b.sessions.Keys
    ensures Admissible(b, pc.tx)
  {
  }

  lemma HeldSessionsExist(cfg: Settings, db: Db, t: Thread)
    requires ThreadOk(cfg, db, t)
    ensures SessionsHeld(t.pc) <= db.sessions.Keys
  {
    if t.pc.Selected? {
      forall s | s in t.pc.rows ensures s in db.sessions {}
    }
  }

  lemma NewIdsAreNew(cfg: Settings, db: Db, t: Thread)
    requires ThreadOk(cfg, db, t)
    ensures NewTokens(t.pc) !! db.tokens.Keys && NewSessions(t.pc) !! db.sessions.Keys
  {
  }

  /** A commit adds exactly the ids its thread minted. */
  lemma CommitAddsNewIds(cfg: Settings, db: Db, t: Thread)
    requires t.pc.Pending? && ThreadOk(cfg, db, t)
    ensures Apply(cfg, db, t.pc.tx).tokens.Keys == db.tokens.Keys + NewTokens(t.pc)
    ensures Apply(cfg, db, t.pc.tx).sessions.Keys == db.sessions.Keys + NewSessions(t.pc)
  {
  }

  lemma CommitKeepsOthers(cfg: Settings, s: Sys, th: ThreadId, a: ThreadId)
    requires Inv(cfg, s) && Enabled(s, Commit(th)) && a in s.threads && a != th
    ensures ThreadOk(cfg, Apply(cfg, s.db, s.threads[th].pc.tx), s.threads[a])
  {
    hide LogMatches;
    var t, u := s.threads[th], s.threads[a];
    var after := Apply(cfg, s.db, t.pc.tx);
    assert Valid(s.db) && PendingFacts(cfg, s.db, t) by {
      HistoryValid(cfg, Txs(s.log));
    }
    assert SessionsHeld(t.pc) !! SessionsHeld(u.pc);
    CommitStable(cfg, s.db, t, u);
  }

  ghost predicate PendingFacts(cfg: Settings, db: Db, t: Thread) {
    && t.pc.Pending?
    && ThreadOk(cfg, db, t)
    && Admissible(db, t.pc.tx) && Confined(db, t.pc.tx, t.pc.sessions)
    && t.pc.writes == WritesOf(cfg, db, t.pc.tx) && t.pc.outcome == OutcomeOf(db, t.pc.tx) && Serves(t, t.pc.tx)
  }

  lemma CommitStable(cfg: Settings, db: Db, t: Thread, u: Thread)
    requires Valid(db) && PendingFacts(cfg, db, t) && ThreadOk(cfg, db, u)
    requires SessionsHeld(t.pc) !! SessionsHeld(u.pc)
    requires NewTokens(t.pc) !! NewTokens(u.pc) && NewSessions(t.pc) !! NewSessions(u.pc)
    ensures ThreadOk(cfg, Apply(cfg, db, t.pc.tx), u)
  {
    hide ThreadOk, Apply, Valid, WritesOf, OutcomeOf;
    var after := Apply(cfg, db, t.pc.tx);
    HeldSessionsExist(cfg, db, u);
    NewIdsAreNew(cfg, db, u);
    CommitAddsNewIds(cfg, db, t);
    ApplyGrows(cfg, db, t.pc.tx);
    ConfinedWritesAgree(cfg, db, t.pc.tx, t.pc.sessions, SessionsHeld(u.pc));
    ThreadOkStable(cfg, db, after, u);
  }

  lemma CommitShape(cfg: Settings, s: Sys, th: ThreadId)
    requires Inv(cfg, s) && Enabled(s, Commit(th))
    ensures var t := s.threads[th];
      && PendingFacts(cfg, s.db, t)
      && Do(cfg, s, Commit(th)) == s.(
           db := Apply(cfg, s.db, t.pc.tx),
           threads := s.threads[th := t.(pc := Finished(Answered(t.pc.outcome)))],
           log := s.log + [Entry(th, t.pc.tx, t.pc.outcome)])
  {
    hide LogExplains, LogMatches, WritesOf, OutcomeOf, Admissible;
    assert ThreadOk(cfg, s.db, s.threads[th]);
  }

  lemma CommitKeepsThreads(cfg: Settings, s: Sys, s': Sys, th: ThreadId, result: Result)
    requires Inv(cfg, s) && Enabled(s, Commit(th))
    requires s'.db == Apply(cfg, s.db, s.threads[th].pc.tx)
    requires s'.threads == s.threads[th := s.threads[th].(pc := Finished(result))]
    ensures forall a | a in s'.threads :: ThreadOk(cfg, s'.db, s'.threads[a])
  {
    hide Do, ThreadOk, Apply, Inv, Enabled;
    forall a | a in s'.threads ensures ThreadOk(cfg, s'.db, s'.threads[a]) {
      if a == th {
        FinishedOk(cfg, s'.db, s'.threads[a]);
      } else {
        CommitKeepsOthers(cfg, s, th, a);
      }
    }
  }

  lemma CommitKeepsMinted(cfg: Settings, s: Sys, s': Sys, th: ThreadId, result: Result)
    requires Minted(s) && th in s.threads && PendingFacts(cfg, s.db, s.threads[th])
    requires s' == s.(db := s'.db, log := s'.log, threads := s.threads[th := s.threads[th].(pc := Finished(result))])
    requires s'.db == Apply(cfg, s.db, s.threads[th].pc.tx)
    ensures Minted(s')
  {
    hide ThreadOk, Apply, Admissible, Confined, WritesOf, OutcomeOf, Serves, NewTokens, NewSessions;
    CommitAddsNewIds(cfg, s.db, s.threads[th]);
    FinishedApart(result);
  }

  lemma CommitKeepsInv(cfg: Settings, s: Sys, th: ThreadId)
    requires Inv(cfg, s) && Enabled(s, Commit(th))
    ensures Inv(cfg, Do(cfg, s, Commit(th)))
  {
    CommitShape(cfg, s, th);
    hide Do, ThreadOk, Apply, LogExplains, LogMatches, Serves, OutcomeOf, Admissible, Confined, WritesOf, Exclusive, Minted;
    var s' := Do(cfg, s, Commit(th));
    var t := s.threads[th];
    AppendExplained(cfg, s.db, s.log, Entry(th, t.pc.tx, t.pc.outcome));
    AppendMatches(s.threads, s.log, Entry(th, t.pc.tx, t.pc.outcome));
    CommitKeepsThreads(cfg, s, s', th, Answered(t.pc.outcome));
    FinishKeepsExclusive(s.threads, th, Answered(t.pc.outcome));
    CommitKeepsMinted(cfg, s, s', th, Answered(t.pc.outcome));
  }

  // --------------------------------------------------------------- other steps

  lemma LoginKeepsInv(cfg: Settings, s: Sys, th: ThreadId, sid: SessionId, tid: TokenId)
    requires Inv(cfg, s) && Enabled(s, PrepareLogin(th, sid, tid))
    ensures Inv(cfg, DoLogin(cfg, s, th, sid, tid))
  {
    hide Inv;
    InvThread(cfg, s, th);
    var s' := DoLogin(cfg, s, th, sid, tid);
    MoveKeepsInv(cfg, s, th, s'.threads[th].pc, {sid}, {tid});
  }

  /** A move that mints nothing. */
  lemma PlainMoveKeepsInv(cfg: Settings, s: Sys, th: ThreadId, pc: Pc)
    requires Inv(cfg, s) && th in s.threads && !s.threads[th].pc.Finished?
    requires ThreadOk(cfg, s.db, s.threads[th].(pc := pc))
    requires SessionsHeld(pc) <= SessionsHeld(s.threads[th].pc) || forall sid | sid in SessionsHeld(pc) :: SessionFree(s, sid)
    requires NewTokens(pc) == {} && NewSessions(pc) == {}
    requires pc.Finished? ==> pc.result == Aborted
    ensures Inv(cfg, Put(s, th, pc))
  {
    hide Inv, ThreadOk, SessionsHeld, NewTokens, NewSessions;
    assert s.mintedTokens + {} == s.mintedTokens && s.mintedSessions + {} == s.mintedSessions;
    MoveKeepsInv(cfg, s, th, pc, {}, {});
  }

  lemma FindKeepsInv(cfg: Settings, s: Sys, th: ThreadId)
    requires Inv(cfg, s) && Enabled(s, Find(th))
    ensures Inv(cfg, Do(cfg, s, Find(th)))
  {
    hide Inv;
    var t := s.threads[th].request.token;
    if t in s.db.tokens {
      PlainMoveKeepsInv(cfg, s, th, Located(s.db.tokens[t].session));
    } else {
      var tx := RefreshTx(t, false, s.threads[th].now, t);
      assert Apply(cfg, s.db, tx) == s.db;
      AnswerKeepsInv(cfg, s, th, tx, Denied(TokenNotFound));
    }
  }

  lemma LockSessionKeepsInv(cfg: Settings, s: Sys, th: ThreadId)
    requires Inv(cfg, s) && Enabled(s, LockSession(th))
    ensures Inv(cfg, Do(cfg, s, LockSession(th)))
  {
    hide Inv;
    InvThread(cfg, s, th);
    PlainMoveKeepsInv(cfg, s, th, Do(cfg, s, LockSession(th)).threads[th].pc);
  }

  lemma LockTokenKeepsInv(cfg: Settings, s: Sys, th: ThreadId)
    requires Inv(cfg, s) && Enabled(s, LockToken(th))
    ensures Inv(cfg, Do(cfg, s, LockToken(th)))
  {
    hide Inv;
    InvThread(cfg, s, th);
    PlainMoveKeepsInv(cfg, s, th, Do(cfg, s, LockToken(th)).threads[th].pc);
  }

  lemma DecideIsOutcome(cfg: Settings, db: Db, t: Thread, active: bool, tid: TokenId)
    requires t.pc.HoldsToken? && ThreadOk(cfg, db, t) && tid !in db.tokens
    ensures var tx := RefreshTx(t.request.token, active, t.now, tid);
      var outcome := Decide(t.pc.row, t.pc.token, active, t.now);
      && outcome == OutcomeOf(db, tx) && Admissible(db, tx) && Confined(db, tx, {t.pc.sid}) && Serves(t, tx)
      && RefreshWrites(cfg, t.request.token, t.pc.sid, t.pc.row, t.pc.token, outcome, t.now, tid) == WritesOf(cfg, db, tx)
      && (outcome.Denied? ==> Apply(cfg, db, tx) == db)
  {
  }

  lemma DecideKeepsInv(cfg: Settings, s: Sys, th: ThreadId, tid: TokenId)
    requires Inv(cfg, s) && Enabled(s, DecideRefresh(th, tid))
    ensures Inv(cfg, DoDecide(cfg, s, th, tid))
  {
    hide Inv, WritesOf, OutcomeOf, Decide, Admissible, Apply, Serves, RefreshWrites;
    InvThread(cfg, s, th);
    var t := s.threads[th];
    var active := t.pc.row.owner in s.activeOwners;
    var tx := RefreshTx(t.request.token, active, t.now, tid);
    DecideIsOutcome(cfg, s.db, t, active, tid);
    var outcome := Decide(t.pc.row, t.pc.token, active, t.now);
    if outcome.Denied? {
      AnswerKeepsInv(cfg, s, th, tx, outcome);
    } else {
      var s' := DoDecide(cfg, s, th, tid);
      ServesIgnoresPc(t, s'.threads[th], tx);
      assert s.mintedSessions + {} == s.mintedSessions;
      MoveKeepsInv(cfg, s, th, s'.threads[th].pc, {}, {tid});
    }
  }

  lemma SelectKeepsInv(cfg: Settings, s: Sys, th: ThreadId)
    requires Inv(cfg, s) && Enabled(s, SelectRows(th))
    ensures Inv(cfg, Do(cfg, s, SelectRows(th)))
  {
    hide Inv;
    var t := s.threads[th];
    var sids := Selection(s.db, t.request, t.now);
    if sids == {} {
      EmptySelection(cfg, s.db, t);
      AnswerKeepsInv(cfg, s, th, RevocationTx(t.request, t.now, {}), Revoked(0));
    } else {
      var rows := map sid | sid in sids && sid in s.db.sessions :: s.db.sessions[sid];
      assert rows.Keys == sids;
      PlainMoveKeepsInv(cfg, s, th, Selected(rows));
    }
  }

  lemma EmptySelection(cfg: Settings, db: Db, t: Thread)
    requires !t.request.Login? && !t.request.Refresh? && Selection(db, t.request, t.now) == {}
    ensures var tx := RevocationTx(t.request, t.now, {});
      Apply(cfg, db, tx) == db && OutcomeOf(db, tx) == Revoked(0) && Admissible(db, tx) && Serves(t, tx)
  {
    var tx := RevocationTx(t.request, t.now, {});
    assert WritesOf(cfg, db, tx) == NoWrites;
  }

  lemma BulkIsWrites(cfg: Settings, db: Db, t: Thread)
    requires t.pc.Selected? && SelectedOk(db, t, t.pc.rows)
    ensures var rows := t.pc.rows;
      var tx := RevocationTx(t.request, t.now, rows.Keys);
      && WritesOf(cfg, db, tx) == Writes(RevokedRows(t.request, rows, t.now),
           if MarksTokens(t.request, rows) then MarkUnused(db.tokens, rows.Keys, t.now) else map[])
      && OutcomeOf(db, tx) == RevocationOutcome(t.request, rows)
      && Admissible(db, tx) && Confined(db, tx, rows.Keys) && Serves(t, tx)
  {
    var rows := t.pc.rows;
    match t.request
    case Logout(sid) => assert rows.Keys == {sid}; assert |rows| == |rows.Keys| == 1;
    case RevokeOne(_, sid) => assert rows.Keys == {sid}; assert |rows| == |rows.Keys| == 1;
    case RevokeAll(_, _) =>
      assert |rows| == |rows.Keys|;
      assert forall s | s in rows :: db.sessions[s].revokedAt.None?;
  }

  lemma BulkPendingOk(cfg: Settings, s: Sys, th: ThreadId)
    requires Enabled(s, BulkUpdate(th)) && SelectedOk(s.db, s.threads[th], s.threads[th].pc.rows)
    ensures var pc := DoBulkUpdate(s, th).threads[th].pc;
      && ThreadOk(cfg, s.db, s.threads[th].(pc := pc))
      && DoBulkUpdate(s, th) == Put(s, th, pc) && pc.Pending?
      && SessionsHeld(pc) == SessionsHeld(s.threads[th].pc) && NewTokens(pc) == {} && NewSessions(pc) == {}
  {
    var t := s.threads[th];
    assert t.pc.Selected? && !t.request.Login? && !t.request.Refresh?;
    hide WritesOf, OutcomeOf, Admissible, Serves, RevokedRows, RevocationOutcome, MarksTokens, Enabled;
    BulkIsWrites(cfg, s.db, t);
    var s' := DoBulkUpdate(s, th);
    ServesIgnoresPc(t, s'.threads[th], s'.threads[th].pc.tx);
  }

  lemma BulkMoves(cfg: Settings, s: Sys, th: ThreadId) returns (pc: Pc)
    requires Inv(cfg, s) && Enabled(s, BulkUpdate(th))
    ensures th in s.threads && !s.threads[th].pc.Finished? && pc.Pending?
    ensures Do(cfg, s, BulkUpdate(th)) == Put(s, th, pc)
    ensures ThreadOk(cfg, s.db, s.threads[th].(pc := pc))
    ensures SessionsHeld(pc) == SessionsHeld(s.threads[th].pc) && NewTokens(pc) == {} && NewSessions(pc) == {}
  {
    hide Inv, MarkUnused;
    InvThread(cfg, s, th);
    assert SelectedOk(s.db, s.threads[th], s.threads[th].pc.rows);
    pc := DoBulkUpdate(s, th).threads[th].pc;
    hide ThreadOk, SelectedOk, SessionsHeld, NewTokens, NewSessions;
    BulkPendingOk(cfg, s, th);
  }

  lemma BulkKeepsInv(cfg: Settings, s: Sys, th: ThreadId)
    requires Inv(cfg, s) && Enabled(s, BulkUpdate(th))
    ensures Inv(cfg, Do(cfg, s, BulkUpdate(th)))
  {
    hide *;
    var pc := BulkMoves(cfg, s, th);
    PlainMoveKeepsInv(cfg, s, th, pc);
  }

  lemma AbortKeepsInv(cfg: Settings, s: Sys, th: ThreadId)
    requires Inv(cfg, s) && Enabled(s, Abort(th))
    ensures Inv(cfg, Put(s, th, Finished(Aborted)))
  {
    hide Inv;
    PlainMoveKeepsInv(cfg, s, th, Finished(Aborted));
  }

  lemma SpawnKeepsInv(cfg: Settings, s: Sys, th: ThreadId, request: Request)
    requires Inv(cfg, s) && th !in s.threads
    ensures Inv(cfg, s.(threads := s.threads[th := Thread(request, s.clock, Arrived)]))
  {
    hide LogExplains, Serves, ThreadOk, NewTokens, NewSessions, SessionsHeld, Apart;
    var t := Thread(request, s.clock, Arrived);
    ArrivedFacts(cfg, s.db, t);
    ApartSymmetric();
    var s' := s.(threads := s.threads[th := t]);
    forall i | 0 <= i < |s.log| ensures AnsweredBy(s'.threads, s.log[i]) {
      assert AnsweredBy(s.threads, s.log[i]);
    }
  }

  lemma ArrivedFacts(cfg: Settings, db: Db, t: Thread)
    requires t.pc == Arrived
    ensures ThreadOk(cfg, db, t) && NewTokens(t.pc) == {} && NewSessions(t.pc) == {}
    ensures forall p :: Apart(t.pc, p)
  {
  }

  /** Every step keeps the invariant. */
  lemma StepKeepsInv(cfg: Settings, s: Sys, step: Step)
    requires Inv(cfg, s) && Enabled(s, step)
    ensures Inv(cfg, Do(cfg, s, step))
  {
    hide Inv, Enabled, DoLogin, DoDecide, DoBulkUpdate;
    match step
    case Tick(later) => EnvironmentKeepsInv(cfg, s, Do(cfg, s, step));
    case SetOwner(_, _) => EnvironmentKeepsInv(cfg, s, Do(cfg, s, step));
    case Spawn(th, request) => SpawnIsNew(s, th, request); SpawnKeepsInv(cfg, s, th, request);
    case PrepareLogin(th, sid, tid) => LoginKeepsInv(cfg, s, th, sid, tid);
    case Find(th) => FindKeepsInv(cfg, s, th);
    case LockSession(th) => LockSessionKeepsInv(cfg, s, th);
    case LockToken(th) => LockTokenKeepsInv(cfg, s, th);
    case DecideRefresh(th, tid) => DecideKeepsInv(cfg, s, th, tid);
    case SelectRows(th) => SelectKeepsInv(cfg, s, th);
    case BulkUpdate(th) => BulkKeepsInv(cfg, s, th);
    case Commit(th) => CommitKeepsInv(cfg, s, th);
    case Abort(th) => AbortKeepsInv(cfg, s, th);
  }

  lemma SpawnIsNew(s: Sys, th: ThreadId, request: Request)
    requires Enabled(s, Spawn(th, request))
    ensures th !in s.threads
  {
  }

  lemma EnvironmentKeepsInv(cfg: Settings, s: Sys, s': Sys)
    requires Inv(cfg, s) && s' == s.(clock := s'.clock, activeOwners := s'.activeOwners)
    ensures Inv(cfg, s')
  {
    hide LogExplains, LogMatches, ThreadOk, Exclusive;
  }

  /** In every state of every run the committed tables are a legal history of the answered
      transactions, each answered as it would be alone. */
  lemma {:induction false} RunsAreSerializable(cfg: Settings, run: seq<Sys>, i: int)
    requires IsRun(cfg, run) && 0 <= i < |run|
    ensures Inv(cfg, run[i])
  {
    if i == 0 {
      InitKeepsInv(cfg);
    } else {
      RunsAreSerializable(cfg, run, i - 1);
      hide Inv, Enabled, Do;
      assert Next(cfg, run[i - 1], run[i - 1 + 1]);
      var step :| Enabled(run[i - 1], step) && run[i] == Do(cfg, run[i - 1], step);
      StepKeepsInv(cfg, run[i - 1], step);
    }
  }

  lemma InitKeepsInv(cfg: Settings)
    ensures Inv(cfg, Init)
  {
  }

  ghost predicate Reachable(cfg: Settings, s: Sys) {
    exists run :: IsRun(cfg, run) && run[|run| - 1] == s
  }

  lemma ReachableInv(cfg: Settings, s: Sys)
    requires Reachable(cfg, s)
    ensures Inv(cfg, s)
  {
    hide Inv;
    var run :| IsRun(cfg, run) && run[|run| - 1] == s;
    RunsAreSerializable(cfg, run, |run| - 1);
  }
}
