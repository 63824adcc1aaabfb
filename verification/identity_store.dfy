/** The identity service's transactions as they run, statement by statement, on the owner
    session and refresh token tables. */
module IdentityStore {
  import opened Options
  import opened Identity

  /** What login finds under the submitted e-mail address. */
  datatype Credentials = Credentials(owner: OwnerId, passwordMatches: bool, active: bool, mfaEnabled: bool, mfaPassed: bool)

  datatype LoginFailure = OwnerNotFound | PasswordMismatch | OwnerNotActive | MfaFailed

  datatype LoginResult = TokenPair(session: SessionId, token: TokenId) | Refused(why: LoginFailure)

  class IdentityStore {
    const cfg: Settings
    var sessions: map<SessionId, Session>
    var tokens: map<TokenId, Token>

    constructor (cfg: Settings)
      ensures this.cfg == cfg && Tables() == EmptyDb
    {
      this.cfg := cfg;
      sessions, tokens := map[], map[];
    }

    function Tables(): Db
      reads this
    {
      Db(sessions, tokens)
    }

    /** Opens a session with its first token exactly when the address is known, the password
        matches, the owner is active and a required second factor passed. */
    method Login(found: Option<Credentials>, now: int, newSession: SessionId, newToken: TokenId) returns (r: LoginResult)
      requires newSession !in sessions && newToken !in tokens
      modifies this
      ensures r.TokenPair? <==>
        found.Some? && found.value.passwordMatches && found.value.active && (found.value.mfaEnabled ==> found.value.mfaPassed)
      ensures r.TokenPair? ==>
        && r == TokenPair(newSession, newToken)
        && Tables() == Apply(cfg, old(Tables()), LoginTx(found.value.owner, now, newSession, newToken))
      ensures r == Refused(OwnerNotFound) <==> found.None?
      ensures r == Refused(PasswordMismatch) <==> found.Some? && !found.value.passwordMatches
      ensures r == Refused(OwnerNotActive) <==> found.Some? && found.value.passwordMatches && !found.value.active
      ensures r.Refused? ==> Tables() == old(Tables())
    {
      if found.None? {
        return Refused(OwnerNotFound);
      }
      var credentials := found.value;
      if !credentials.passwordMatches {
        return Refused(PasswordMismatch);
      }
      if !credentials.active {
        return Refused(OwnerNotActive);
      }
      if credentials.mfaEnabled && !credentials.mfaPassed {
        return Refused(MfaFailed);
      }
      sessions := sessions[newSession := Session(credentials.owner, now, now + cfg.sessionLife, None, None)];
      tokens := tokens[newToken := Token(newSession, now, now + cfg.refreshLife, None)];
      return TokenPair(newSession, newToken);
    }

    /** Rotates a token, or refuses; the one refusal that writes is a detected replay. */
    method Refresh(token: TokenId, activeOwners: set<OwnerId>, now: int, newToken: TokenId) returns (r: Outcome)
      requires newToken !in tokens
      modifies this
      ensures var active := token in old(tokens) && old(tokens)[token].session in old(sessions)
                            && old(sessions)[old(tokens)[token].session].owner in activeOwners;
        var tx := RefreshTx(token, active, now, newToken);
        r == OutcomeOf(old(Tables()), tx) && Tables() == Apply(cfg, old(Tables()), tx)
    {
      if token !in tokens {
        return Denied(TokenNotFound);
      }
      var sid := tokens[token].session;
      if sid !in sessions {
        return Denied(SessionNotFound);
      }
      var session, row := sessions[sid], tokens[token];
      if row.usedAt.Some? {
        sessions := sessions[sid := session.(revokedAt := Some(now), reason := Some(RefreshTokenReplay))];
        return ReplayDetected;
      }
      if session.revokedAt.Some? {
        return Denied(SessionRevoked);
      }
      if session.expiresAt <= now {
        return Denied(SessionExpired);
      }
      if row.expiresAt <= now {
        return Denied(TokenExpired);
      }
      if session.owner !in activeOwners {
        return Denied(OwnerLocked);
      }
      tokens := tokens[token := row.(usedAt := Some(now))];
      var expiry := Min(now + cfg.refreshLife, session.expiresAt);
      tokens := tokens[newToken := Token(sid, now, expiry, None)];
      return Rotated;
    }

    method Logout(sid: SessionId, now: int)
      modifies this
      ensures Tables() == Apply(cfg, old(Tables()), LogoutTx(sid, now))
    {
      if sid in sessions && sessions[sid].revokedAt.None? {
        sessions := sessions[sid := sessions[sid].(revokedAt := Some(now), reason := Some(LoggedOut))];
        tokens := tokens + MarkUnused(tokens, {sid}, now);
      }
    }

    method RevokeSession(owner: OwnerId, sid: SessionId, now: int) returns (found: bool)
      modifies this
      ensures Tables() == Apply(cfg, old(Tables()), RevokeTx(owner, sid, now))
      ensures found <==> OutcomeOf(old(Tables()), RevokeTx(owner, sid, now)) == Revoked(1)
    {
      if sid !in sessions || sessions[sid].owner != owner {
        return false;
      }
      if sessions[sid].revokedAt.None? {
        sessions := sessions[sid := sessions[sid].(revokedAt := Some(now), reason := Some(RevokedByOwner))];
      }
      tokens := tokens + MarkUnused(tokens, {sid}, now);
      return true;
    }

    /** Revokes the owner's live sessions one by one, then marks all their unused tokens. */
    method RevokeAllSessions(owner: OwnerId, keep: Option<SessionId>, now: int) returns (count: nat)
      modifies this
      ensures var targets := Matching(old(Tables()), owner, now, keep);
        && count == |targets|
        && Tables() == Apply(cfg, old(Tables()), RevokeAllTx(owner, now, targets))
    {
      var targets := Matching(Tables(), owner, now, keep);
      if targets == {} {
        assert MarkUnused(tokens, {}, now) == map[];
        return 0;
      }
      var todo := targets;
      while todo != {}
        invariant todo <= targets
        invariant tokens == old(tokens) && sessions.Keys == old(sessions).Keys
        invariant forall s | s in sessions ::
          sessions[s] == if s in targets - todo then Revoke(old(sessions)[s], now, RevokedByOwner) else old(sessions)[s]
        decreases todo
      {
        var s :| s in todo;
        sessions := sessions[s := sessions[s].(revokedAt := Some(now), reason := Some(RevokedByOwner))];
        todo := todo - {s};
      }
      tokens := tokens + MarkUnused(tokens, targets, now);
      return |targets|;
    }
  }
}
