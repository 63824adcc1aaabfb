/** Owner sessions and refresh tokens: the committed tables and the transactions
    that change them, one after the other.  What they promise over any history of
    transactions is proved here; IdentityConcurrent shows that interleaved requests
    always commit such a history. */
module Identity {
  import opened Options

  type OwnerId = nat
  type SessionId = nat
  /** A token row is named by the digest of its raw value. */
  type TokenId = nat

  datatype Reason = RefreshTokenReplay | LoggedOut | RevokedByOwner

  datatype Session = Session(
    owner: OwnerId,
    createdAt: int,
    expiresAt: int,
    revokedAt: Option<int>,
    reason: Option<Reason>)

  datatype Token = Token(session: SessionId, createdAt: int, expiresAt: int, usedAt: Option<int>)

  datatype Db = Db(sessions: map<SessionId, Session>, tokens: map<TokenId, Token>)

  /** The configured session and refresh-token lifetimes. */
  datatype Settings = Settings(sessionLife: int, refreshLife: int)

  datatype Denial = TokenNotFound | SessionNotFound | SessionRevoked | SessionExpired | TokenExpired | OwnerLocked

  datatype Outcome =
    | LoggedIn
    | Rotated
    | ReplayDetected
    | Denied(why: Denial)
    | Revoked(count: nat)

  /** One transaction with every value it took from outside the two tables. */
  datatype Tx =
    | LoginTx(owner: OwnerId, now: int, session: SessionId, token: TokenId)
    | RefreshTx(token: TokenId, ownerActive: bool, now: int, minted: TokenId)
    | LogoutTx(session: SessionId, now: int)
    | RevokeTx(owner: OwnerId, session: SessionId, now: int)
    | RevokeAllTx(owner: OwnerId, now: int, targets: set<SessionId>)

  /** The rows a transaction writes. */
  datatype Writes = Writes(sessions: map<SessionId, Session>, tokens: map<TokenId, Token>)

  const NoWrites := Writes(map[], map[])

  function Min(a: int, b: int): int { if a < b then a else b }

  /** Steps 4 to 7 of a refresh, on the two locked rows. */
  function Decide(s: Session, t: Token, ownerActive: bool, now: int): Outcome {
    if t.usedAt.Some? then ReplayDetected
    else if s.revokedAt.Some? then Denied(SessionRevoked)
    else if s.expiresAt <= now then Denied(SessionExpired)
    else if t.expiresAt <= now then Denied(TokenExpired)
    else if !ownerActive then Denied(OwnerLocked)
    else Rotated
  }

  function Revoke(s: Session, now: int, reason: Reason): Session {
    s.(revokedAt := Some(now), reason := Some(reason))
  }

  /** The bulk update that marks every unused token of the given sessions. */
  function MarkUnused(tokens: map<TokenId, Token>, sids: set<SessionId>, now: int): map<TokenId, Token> {
    map t | t in tokens && tokens[t].session in sids && tokens[t].usedAt.None? :: tokens[t].(usedAt := Some(now))
  }

  function RotatedToken(cfg: Settings, sid: SessionId, s: Session, now: int): Token {
    Token(sid, now, Min(now + cfg.refreshLife, s.expiresAt), None)
  }

  function OutcomeOf(db: Db, tx: Tx): Outcome {
    match tx
    case LoginTx(_, _, _, _) => LoggedIn
    case RefreshTx(token, ownerActive, now, _) =>
      if token !in db.tokens then Denied(TokenNotFound)
      else if db.tokens[token].session !in db.sessions then Denied(SessionNotFound)
      else Decide(db.sessions[db.tokens[token].session], db.tokens[token], ownerActive, now)
    case LogoutTx(sid, _) => Revoked(if sid in db.sessions && db.sessions[sid].revokedAt.None? then 1 else 0)
    case RevokeTx(owner, sid, _) => Revoked(if sid in db.sessions && db.sessions[sid].owner == owner then 1 else 0)
    case RevokeAllTx(_, _, targets) => Revoked(|targets|)
  }

  /** The rows written by tx when it runs on db. */
  function WritesOf(cfg: Settings, db: Db, tx: Tx): Writes {
    match tx
    case LoginTx(owner, now, sid, tid) =>
      Writes(
        map[sid := Session(owner, now, now + cfg.sessionLife, None, None)],
        map[tid := Token(sid, now, now + cfg.refreshLife, None)])
    case RefreshTx(token, _, now, minted) =>
      if OutcomeOf(db, tx) == Rotated then
        var t := db.tokens[token];
        Writes(map[], map[token := t.(usedAt := Some(now)), minted := RotatedToken(cfg, t.session, db.sessions[t.session], now)])
      else if OutcomeOf(db, tx) == ReplayDetected then
        var sid := db.tokens[token].session;
        Writes(map[sid := Revoke(db.sessions[sid], now, RefreshTokenReplay)], map[])
      else NoWrites
    case LogoutTx(sid, now) =>
      if sid in db.sessions && db.sessions[sid].revokedAt.None? then
        Writes(map[sid := Revoke(db.sessions[sid], now, LoggedOut)], MarkUnused(db.tokens, {sid}, now))
      else NoWrites
    case RevokeTx(owner, sid, now) =>
      if sid in db.sessions && db.sessions[sid].owner == owner then
        Writes(
          if db.sessions[sid].revokedAt.None? then map[sid := Revoke(db.sessions[sid], now, RevokedByOwner)] else map[],
          MarkUnused(db.tokens, {sid}, now))
      else NoWrites
    case RevokeAllTx(_, now, targets) =>
      Writes(
        map s | s in targets && s in db.sessions :: Revoke(db.sessions[s], now, RevokedByOwner),
        MarkUnused(db.tokens, targets, now))
  }

  function Merge(db: Db, w: Writes): Db {
    Db(db.sessions + w.sessions, db.tokens + w.tokens)
  }

  function Apply(cfg: Settings, db: Db, tx: Tx): Db {
    Merge(db, WritesOf(cfg, db, tx))
  }

  const EmptyDb := Db(map[], map[])

  /** The sessions revoke_all_sessions selects. */
  function Matching(db: Db, owner: OwnerId, now: int, keep: Option<SessionId>): set<SessionId> {
    set s | s in db.sessions && db.sessions[s].owner == owner && db.sessions[s].revokedAt.None?
            && now < db.sessions[s].expiresAt && keep != Some(s)
  }

  /** What the callers of a transaction guarantee: generated ids are new, and the
      sessions in a bulk revocation were selected by its query. */
  predicate Admissible(db: Db, tx: Tx) {
    match tx
    case LoginTx(_, _, sid, tid) => sid !in db.sessions && tid !in db.tokens
    case RefreshTx(_, _, _, minted) => OutcomeOf(db, tx) == Rotated ==> minted !in db.tokens
    case LogoutTx(_, _) => true
    case RevokeTx(_, _, _) => true
    case RevokeAllTx(owner, now, targets) => targets <= Matching(db, owner, now, None)
  }

  // ---------------------------------------------------------------- histories

  type History = seq<Tx>

  /** The committed tables after a history. */
  function Replay(cfg: Settings, h: History): Db {
    if h == [] then EmptyDb else Apply(cfg, Replay(cfg, h[..|h| - 1]), h[|h| - 1])
  }

  ghost predicate Legal(cfg: Settings, h: History) {
    forall i | 0 <= i < |h| :: Admissible(Replay(cfg, h[..i]), h[i])
  }

  /** Transaction i of the history rotated its token. */
  predicate RotatedAt(cfg: Settings, h: History, i: int)
    requires 0 <= i < |h|
  {
    h[i].RefreshTx? && OutcomeOf(Replay(cfg, h[..i]), h[i]) == Rotated
  }

  lemma ReplayStep(cfg: Settings, h: History, i: int)
    requires 0 <= i < |h|
    ensures Replay(cfg, h[..i + 1]) == Apply(cfg, Replay(cfg, h[..i]), h[i])
  {
    assert h[..i + 1][..i] == h[..i];
  }

  lemma LegalPrefix(cfg: Settings, h: History, i: int)
    requires Legal(cfg, h) && 0 <= i <= |h|
    ensures Legal(cfg, h[..i])
  {
    forall k | 0 <= k < i ensures Admissible(Replay(cfg, h[..i][..k]), h[..i][k]) {
      assert h[..i][..k] == h[..k];
    }
  }

  // -------------------------------------------------------------- what is kept

  /** The tables: tokens belong to sessions, a session has at most one unused token,
      and a session that is not revoked has one. */
  ghost predicate Valid(db: Db) {
    && TokensBelong(db)
    && (forall t, u | Unused(db, t) && Unused(db, u) && db.tokens[t].session == db.tokens[u].session :: t == u)
    && (forall s | s in db.sessions && db.sessions[s].revokedAt.None? :: HasUnused(db, s))
  }

  ghost predicate TokensBelong(db: Db) {
    forall t | t in db.tokens :: db.tokens[t].session in db.sessions
  }

  predicate Unused(db: Db, t: TokenId) {
    t in db.tokens && db.tokens[t].usedAt.None?
  }

  ghost predicate HasUnused(db: Db, s: SessionId) {
    exists t :: Unused(db, t) && db.tokens[t].session == s
  }

  /** Nothing a later state may undo: rows stay, their fixed columns keep their values,
      a used token stays used since the same time, a revoked session stays revoked. */
  ghost predicate Grows(a: Db, b: Db) {
    && (forall s | s in a.sessions ::
          && s in b.sessions
          && b.sessions[s].owner == a.sessions[s].owner
          && b.sessions[s].createdAt == a.sessions[s].createdAt
          && b.sessions[s].expiresAt == a.sessions[s].expiresAt
          && (a.sessions[s].revokedAt.Some? ==> b.sessions[s].revokedAt.Some?))
    && (forall t | t in a.tokens ::
          && t in b.tokens
          && b.tokens[t].session == a.tokens[t].session
          && b.tokens[t].createdAt == a.tokens[t].createdAt
          && b.tokens[t].expiresAt == a.tokens[t].expiresAt
          && (a.tokens[t].usedAt.Some? ==> b.tokens[t].usedAt == a.tokens[t].usedAt))
  }

  lemma ApplyGrows(cfg: Settings, db: Db, tx: Tx)
    requires Admissible(db, tx)
    ensures Grows(db, Apply(cfg, db, tx))
  {
  }

  lemma ApplyKeepsValid(cfg: Settings, db: Db, tx: Tx)
    requires Valid(db) && Admissible(db, tx)
    ensures Valid(Apply(cfg, db, tx))
  {
    var after := Apply(cfg, db, tx);
    ApplyKeepsTokensBelong(cfg, db, tx);
    forall t, u | Unused(after, t) && Unused(after, u) && after.tokens[t].session == after.tokens[u].session
      ensures t == u
    {
      UnusedAfter(cfg, db, tx, t);
      UnusedAfter(cfg, db, tx, u);
    }
    forall s | s in after.sessions && after.sessions[s].revokedAt.None? ensures HasUnused(after, s) {
      ApplyKeepsUnused(cfg, db, tx, s);
    }
  }

  lemma ApplyKeepsTokensBelong(cfg: Settings, db: Db, tx: Tx)
    requires TokensBelong(db) && Admissible(db, tx)
    ensures TokensBelong(Apply(cfg, db, tx))
  {
    ApplyGrows(cfg, db, tx);
    var after := Apply(cfg, db, tx);
    forall t | t in after.tokens ensures after.tokens[t].session in after.sessions {
      if t in db.tokens {
        assert after.tokens[t].session == db.tokens[t].session;
      }
    }
  }

  /** The token a transaction introduces, if any. */
  function Introduced(db: Db, tx: Tx): Option<TokenId> {
    if tx.LoginTx? then Some(tx.token)
    else if tx.RefreshTx? && OutcomeOf(db, tx) == Rotated then Some(tx.minted)
    else None
  }

  /** A token unused afterwards was unused before, or it is the one just introduced into a
      session that had no other unused token left. */
  lemma UnusedAfter(cfg: Settings, db: Db, tx: Tx, t: TokenId)
    requires TokensBelong(db) && Admissible(db, tx)
    requires Unused(Apply(cfg, db, tx), t)
    ensures Introduced(db, tx) != Some(t) ==> Unused(db, t) && Apply(cfg, db, tx).tokens[t] == db.tokens[t]
    ensures Introduced(db, tx) == Some(t) && tx.LoginTx? ==> Apply(cfg, db, tx).tokens[t].session !in db.sessions
    ensures Introduced(db, tx) == Some(t) && tx.RefreshTx? ==>
      Unused(db, tx.token) && Apply(cfg, db, tx).tokens[t].session == db.tokens[tx.token].session
    ensures tx.RefreshTx? && Introduced(db, tx).Some? ==> t != tx.token
  {
  }

  lemma ApplyKeepsUnused(cfg: Settings, db: Db, tx: Tx, s: SessionId)
    requires Valid(db) && Admissible(db, tx)
    requires var after := Apply(cfg, db, tx); s in after.sessions && after.sessions[s].revokedAt.None?
    ensures HasUnused(Apply(cfg, db, tx), s)
  {
    var after := Apply(cfg, db, tx);
    if tx.LoginTx? && s == tx.session {
      assert Unused(after, tx.token);
    } else {
      assert HasUnused(db, s);
      var t :| Unused(db, t) && db.tokens[t].session == s;
      if Introduced(db, tx).Some? && tx.RefreshTx? && tx.token == t {
        assert Unused(after, tx.minted) && after.tokens[tx.minted].session == s;
      } else {
        UnusedStays(cfg, db, tx, t);
      }
    }
  }

  /** A token stays unused unless it is rotated or its session is revoked. */
  lemma UnusedStays(cfg: Settings, db: Db, tx: Tx, t: TokenId)
    requires TokensBelong(db) && Admissible(db, tx) && Unused(db, t)
    requires tx.RefreshTx? && OutcomeOf(db, tx) == Rotated ==> tx.token != t
    requires var s, after := db.tokens[t].session, Apply(cfg, db, tx); s in after.sessions && after.sessions[s].revokedAt.None?
    ensures Unused(Apply(cfg, db, tx), t) && Apply(cfg, db, tx).tokens[t].session == db.tokens[t].session
  {
    hide Decide;
  }
}
