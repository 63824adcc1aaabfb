/** What each identity request is answered and what it leaves, in terms of the rows themselves. */
module IdentityAnswers {
  import opened Options
  import opened Identity
  import opened IdentityConcurrent
  import opened IdentityInterleaving
  import H = IdentityHistory
  import G = IdentityGuarantees

  // -------------------------------------------------------------------- refresh

  /** The rows that a refresh of token t is about. */
  predicate OnRecord(db: Db, t: TokenId) {
    t in db.tokens && db.tokens[t].session in db.sessions
  }

  /** A refresh is granted exactly when the token and its session are on record, the token is
      unused and unexpired, the session neither revoked nor expired, and the owner active. */
  lemma RefreshGrantedIff(db: Db, t: TokenId, active: bool, now: int, minted: TokenId)
    ensures OutcomeOf(db, RefreshTx(t, active, now, minted)) == Rotated <==>
      && OnRecord(db, t)
      && var (token, session) := (db.tokens[t], db.sessions[db.tokens[t].session]);
      token.usedAt == None && session.revokedAt == None && now < session.expiresAt && now < token.expiresAt && active
  {
  }

  /** Why a refresh is refused: the first of the checks that fails, replay before everything. */
  lemma RefreshRefusedBecause(db: Db, t: TokenId, active: bool, now: int, minted: TokenId)
    ensures var o := OutcomeOf(db, RefreshTx(t, active, now, minted));
      && (o == Denied(TokenNotFound) <==> t !in db.tokens)
      && (o == Denied(SessionNotFound) <==> t in db.tokens && !OnRecord(db, t))
      && (OnRecord(db, t) ==>
            var (token, session) := (db.tokens[t], db.sessions[db.tokens[t].session]);
            && (o == ReplayDetected <==> token.usedAt.Some?)
            && (o == Denied(SessionRevoked) <==> token.usedAt == None && session.revokedAt.Some?)
            && (o == Denied(SessionExpired) <==> token.usedAt == None && session.revokedAt == None && session.expiresAt <= now)
            && (o == Denied(TokenExpired) <==>
                  token.usedAt == None && session.revokedAt == None && now < session.expiresAt && token.expiresAt <= now)
            && (o == Denied(OwnerLocked) <==>
                  token.usedAt == None && session.revokedAt == None && now < session.expiresAt && now < token.expiresAt && !active))
  {
  }

  /** A granted refresh marks its token used now and adds one unused token of the same session,
      which lives for the configured time but not beyond the session; nothing else changes. */
  lemma RotationLeaves(cfg: Settings, db: Db, t: TokenId, active: bool, now: int, minted: TokenId)
    requires OutcomeOf(db, RefreshTx(t, active, now, minted)) == Rotated && minted !in db.tokens
    ensures var after := Apply(cfg, db, RefreshTx(t, active, now, minted));
      var session := db.sessions[db.tokens[t].session];
      && after.sessions == db.sessions
      && after.tokens.Keys == db.tokens.Keys + {minted}
      && after.tokens[t] == Token(db.tokens[t].session, db.tokens[t].createdAt, db.tokens[t].expiresAt, Some(now))
      && after.tokens[minted].session == db.tokens[t].session
      && after.tokens[minted].createdAt == now && after.tokens[minted].usedAt == None
      && after.tokens[minted].expiresAt <= now + cfg.refreshLife && after.tokens[minted].expiresAt <= session.expiresAt
      && (after.tokens[minted].expiresAt == now + cfg.refreshLife || after.tokens[minted].expiresAt == session.expiresAt)
      && forall u | u in db.tokens && u != t :: after.tokens[u] == db.tokens[u]
  {
  }

  // ------------------------------------------------------------ login and logout

  /** A login opens one live session with one unused token, each for its configured life. */
  lemma LoginLeaves(cfg: Settings, db: Db, owner: OwnerId, now: int, s: SessionId, t: TokenId)
    ensures var after := Apply(cfg, db, LoginTx(owner, now, s, t));
      && after.sessions == db.sessions[s := Session(owner, now, now + cfg.sessionLife, None, None)]
      && after.tokens == db.tokens[t := Token(s, now, now + cfg.refreshLife, None)]
      && OutcomeOf(db, LoginTx(owner, now, s, t)) == LoggedIn
  {
  }

  /** The tokens of session s are used up, those of other sessions untouched. */
  ghost predicate UsesUp(before: map<TokenId, Token>, after: map<TokenId, Token>, sids: set<SessionId>, now: int) {
    && after.Keys == before.Keys
    && forall t | t in before ::
         after[t] == Token(before[t].session, before[t].createdAt, before[t].expiresAt,
                           if before[t].session in sids && before[t].usedAt == None then Some(now) else before[t].usedAt)
  }

  /** A logout revokes a live session and uses up its tokens; of any other session it changes
      nothing. */
  lemma LogoutLeaves(cfg: Settings, db: Db, s: SessionId, now: int)
    ensures var after := Apply(cfg, db, LogoutTx(s, now));
      if s in db.sessions && db.sessions[s].revokedAt == None then
        && after.sessions == db.sessions[s := Session(db.sessions[s].owner, db.sessions[s].createdAt,
                                                      db.sessions[s].expiresAt, Some(now), Some(LoggedOut))]
        && UsesUp(db.tokens, after.tokens, {s}, now)
      else after == db
  {
  }

  /** The owner's revocation of one session: its tokens are used up in any case, the session
      itself is revoked unless it was; somebody else's session is not touched. */
  lemma RevocationLeaves(cfg: Settings, db: Db, owner: OwnerId, s: SessionId, now: int)
    ensures var after := Apply(cfg, db, RevokeTx(owner, s, now));
      if s in db.sessions && db.sessions[s].owner == owner then
        && after.sessions == (if db.sessions[s].revokedAt.Some? then db.sessions
                              else db.sessions[s := Session(owner, db.sessions[s].createdAt, db.sessions[s].expiresAt,
                                                            Some(now), Some(RevokedByOwner))])
        && UsesUp(db.tokens, after.tokens, {s}, now)
        && OutcomeOf(db, RevokeTx(owner, s, now)) == Revoked(1)
      else after == db && OutcomeOf(db, RevokeTx(owner, s, now)) == Revoked(0)
  {
  }

  /** Revoking all: which sessions the select finds, and that exactly those are revoked. */
  lemma RevokeAllLeaves(cfg: Settings, db: Db, owner: OwnerId, now: int, keep: Option<SessionId>)
    ensures var targets := Matching(db, owner, now, keep);
      var after := Apply(cfg, db, RevokeAllTx(owner, now, targets));
      && (forall s :: s in targets <==>
            s in db.sessions && db.sessions[s].owner == owner && db.sessions[s].revokedAt == None
            && now < db.sessions[s].expiresAt && (keep == None || keep.value != s))
      && after.sessions.Keys == db.sessions.Keys
      && (forall s | s in db.sessions :: after.sessions[s] ==
            if s in targets then Session(owner, db.sessions[s].createdAt, db.sessions[s].expiresAt, Some(now), Some(RevokedByOwner))
            else db.sessions[s])
      && UsesUp(db.tokens, after.tokens, targets, now)
      && OutcomeOf(db, RevokeAllTx(owner, now, targets)) == Revoked(|targets|)
  {
  }

  // ---------------------------------------------------------------- in every run

  /** The deciding step of a refresh, on the rows as they are committed then: it goes on to rotate
      exactly when token and session are in order and the owner is active at this step. */
  lemma DecidingStepGrantsIff(cfg: Settings, s: Sys, th: ThreadId, minted: TokenId)
    requires Inv(cfg, s) && Enabled(s, DecideRefresh(th, minted))
    ensures var (t, now) := (s.threads[th].request.token, s.threads[th].now);
      OnRecord(s.db, t)
      && var (token, session) := (s.db.tokens[t], s.db.sessions[s.db.tokens[t].session]);
      IsRotating(Do(cfg, s, DecideRefresh(th, minted)), th) <==>
        token.usedAt == None && session.revokedAt == None && now < session.expiresAt && now < token.expiresAt
        && session.owner in s.activeOwners
  {
    hide Inv;
    InvThread(cfg, s, th);
    DecideIsByTheRows(cfg, s, th, minted);
  }

  lemma DecideIsByTheRows(cfg: Settings, s: Sys, th: ThreadId, minted: TokenId)
    requires Enabled(s, DecideRefresh(th, minted)) && ThreadOk(cfg, s.db, s.threads[th])
    ensures var (t, now) := (s.threads[th].request.token, s.threads[th].now);
      OnRecord(s.db, t)
      && var (token, session) := (s.db.tokens[t], s.db.sessions[s.db.tokens[t].session]);
      IsRotating(DoDecide(cfg, s, th, minted), th) <==>
        token.usedAt == None && session.revokedAt == None && now < session.expiresAt && now < token.expiresAt
        && session.owner in s.activeOwners
  {
    hide RefreshWrites;
  }

  /** Locking the owner counts until the deciding step: done just before it, a refresh that was about to
      rotate is refused, and nothing is written. */
  lemma LockingCountsUntilTheDecision(cfg: Settings, s: Sys, th: ThreadId, minted: TokenId)
    requires Enabled(s, DecideRefresh(th, minted)) && IsRotating(DoDecide(cfg, s, th, minted), th)
    ensures Enabled(s, SetOwner(s.threads[th].pc.row.owner, false))
    ensures var locked := Do(cfg, s, SetOwner(s.threads[th].pc.row.owner, false));
      Enabled(locked, DecideRefresh(th, minted))
      && var after := Do(cfg, locked, DecideRefresh(th, minted));
      after.threads[th].pc == Finished(Answered(Denied(OwnerLocked))) && after.db == s.db
  {
    hide RefreshWrites;
  }

  /** The request has decided to rotate and is committing, or has been answered so. */
  predicate IsRotating(s: Sys, th: ThreadId) {
    th in s.threads && s.threads[th].request.Refresh?
    && ((s.threads[th].pc.Pending? && s.threads[th].pc.outcome == Rotated) || s.threads[th].pc == Finished(Answered(Rotated)))
  }

  /** Step i of the run is where this request decided, with its session's owner active. */
  ghost predicate DecidedWithActiveOwner(cfg: Settings, run: seq<Sys>, i: nat, th: ThreadId) {
    && i + 1 < |run| && th in run[i].threads && run[i].threads[th].request.Refresh?
    && (exists minted :: Enabled(run[i], DecideRefresh(th, minted)) && run[i + 1] == Do(cfg, run[i], DecideRefresh(th, minted)))
    && var t := run[i].threads[th].request.token;
    && OnRecord(run[i].db, t)
    && run[i].db.sessions[run[i].db.tokens[t].session].owner in run[i].activeOwners
  }

  lemma RotatingComesFrom(cfg: Settings, s: Sys, step: Step, th: ThreadId)
    requires Inv(cfg, s) && Enabled(s, step) && IsRotating(Do(cfg, s, step), th)
    ensures IsRotating(s, th) || (step.DecideRefresh? && step.th == th)
  {
    hide Inv, Matching, MarkUnused, MarksTokens, RefreshWrites, Decide, WritesOf;
    if step.Commit? && step.th == th {
      InvThread(cfg, s, th);
    }
  }

  /** In every run: a request that is answered with a rotation decided at a step at which the owner
      of its session was active. */
  lemma {:induction false} RotationHadActiveOwner(cfg: Settings, run: seq<Sys>, j: nat, th: ThreadId) returns (i: nat)
    requires IsRun(cfg, run) && j < |run| && IsRotating(run[j], th)
    ensures i < j && DecidedWithActiveOwner(cfg, run, i, th)
  {
    hide IsRotating, DecidedWithActiveOwner, Next;
    if j == 0 {
      NothingRotatesYet(run[0], th);
      assert false;
    } else if IsRotating(run[j - 1], th) {
      i := RotationHadActiveOwner(cfg, run, j - 1, th);
    } else {
      i := j - 1;
      RotationBegan(cfg, run, i, th);
    }
  }

  lemma NothingRotatesYet(s: Sys, th: ThreadId)
    requires s == Init
    ensures !IsRotating(s, th)
  {
  }

  lemma RotationBegan(cfg: Settings, run: seq<Sys>, i: nat, th: ThreadId)
    requires IsRun(cfg, run) && i + 1 < |run| && !IsRotating(run[i], th) && IsRotating(run[i + 1], th)
    ensures DecidedWithActiveOwner(cfg, run, i, th)
  {
    hide Inv, Do, Enabled, IsRotating, DecidedWithActiveOwner;
    RunsAreSerializable(cfg, run, i);
    assert Next(cfg, run[i], run[i + 1]);
    var step :| Enabled(run[i], step) && run[i + 1] == Do(cfg, run[i], step);
    hide IsRun, Next;
    RotatingComesFrom(cfg, run[i], step, th);
    DecidedHere(cfg, run, i, th, step);
  }

  lemma DecidedHere(cfg: Settings, run: seq<Sys>, i: nat, th: ThreadId, step: Step)
    requires i + 1 < |run| && Inv(cfg, run[i]) && Enabled(run[i], step) && run[i + 1] == Do(cfg, run[i], step)
    requires step.DecideRefresh? && step.th == th && IsRotating(run[i + 1], th)
    ensures DecidedWithActiveOwner(cfg, run, i, th)
  {
    DecidingStepGrantsIff(cfg, run[i], th, step.newToken);
    hide Inv, Do, IsRotating;
    assert Enabled(run[i], DecideRefresh(th, step.newToken)) && run[i + 1] == Do(cfg, run[i], DecideRefresh(th, step.newToken));
  }
}
