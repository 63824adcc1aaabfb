/** What every history of identity transactions promises: rotation is linear, reuse of a
    superseded token ends the session for good, and no session outlives its expiry. */
module IdentityHistory {
  import opened Options
  import opened Identity

  lemma {:induction false} HistoryValid(cfg: Settings, h: History)
    requires Legal(cfg, h)
    ensures Valid(Replay(cfg, h))
  {
    if h != [] {
      var n := |h| - 1;
      LegalPrefix(cfg, h, n);
      HistoryValid(cfg, h[..n]);
      ApplyKeepsValid(cfg, Replay(cfg, h[..n]), h[n]);
    }
  }

  /** Whatever is committed stays: rows, fixed columns, used marks and revocations. */
  lemma {:induction false} HistoryGrows(cfg: Settings, h: History, i: int, j: int)
    requires Legal(cfg, h) && 0 <= i <= j <= |h|
    ensures Grows(Replay(cfg, h[..i]), Replay(cfg, h[..j]))
    decreases j - i
  {
    hide *;
    GrowsReflexive(Replay(cfg, h[..i]));
    if i < j {
      HistoryGrows(cfg, h, i, j - 1);
      NextGrows(cfg, h, j - 1);
      GrowsTransitive(Replay(cfg, h[..i]), Replay(cfg, h[..j - 1]), Replay(cfg, h[..j]));
    }
  }

  lemma NextGrows(cfg: Settings, h: History, j: nat)
    requires Legal(cfg, h) && j < |h|
    ensures Grows(Replay(cfg, h[..j]), Replay(cfg, h[..j + 1]))
  {
    assert Admissible(Replay(cfg, h[..j]), h[j]);
    hide *;
    ReplayStep(cfg, h, j);
    ApplyGrows(cfg, Replay(cfg, h[..j]), h[j]);
  }

  lemma GrowsReflexive(db: Db)
    ensures Grows(db, db)
  {
  }

  lemma GrowsTransitive(a: Db, b: Db, c: Db)
    requires Grows(a, b) && Grows(b, c)
    ensures Grows(a, c)
  {
  }

  // ------------------------------------------------------------------- chains

  /** The tokens of session s in the order they were issued. */
  function Chain(cfg: Settings, h: History, s: SessionId): seq<TokenId> {
    if h == [] then []
    else
      var n := |h| - 1;
      var earlier := Chain(cfg, h[..n], s);
      if h[n].LoginTx? && h[n].session == s then earlier + [h[n].token]
      else if RotatedAt(cfg, h, n) && SessionAt(cfg, h, n) == s then earlier + [h[n].minted]
      else earlier
  }

  /** The session whose token transaction i rotates. */
  function SessionAt(cfg: Settings, h: History, i: int): SessionId
    requires 0 <= i < |h| && RotatedAt(cfg, h, i)
  {
    Replay(cfg, h[..i]).tokens[h[i].token].session
  }

  ghost predicate ChainOf(db: Db, s: SessionId, c: seq<TokenId>) {
    && (forall t :: t in c <==> t in db.tokens && db.tokens[t].session == s)
    && (forall j, k | 0 <= j < k < |c| :: c[j] != c[k])
    && (forall k | 0 <= k < |c| - 1 :: !Unused(db, c[k]))
    && (s in db.sessions <==> c != [])
    && (s in db.sessions && db.sessions[s].revokedAt.None? ==> Unused(db, c[|c| - 1]))
    && (forall k | 1 <= k < |c| :: db.tokens[c[k]].expiresAt <= db.sessions[s].expiresAt)
  }

  /** The tokens of a session form one chain without repetition; all but the newest are
      consumed, the newest is usable as long as the session is not revoked, and every
      rotated token expires no later than the session. */
  lemma {:induction false} ChainIsSession(cfg: Settings, h: History, s: SessionId)
    requires Legal(cfg, h)
    ensures ChainOf(Replay(cfg, h), s, Chain(cfg, h, s))
  {
    if h != [] {
      var n := |h| - 1;
      LegalPrefix(cfg, h, n);
      ChainIsSession(cfg, h[..n], s);
      HistoryValid(cfg, h[..n]);
      var db, after := Replay(cfg, h[..n]), Replay(cfg, h);
      assert h[..n] + [h[n]] == h;
      assert Admissible(db, h[n]);
      ApplyGrows(cfg, db, h[n]);
      ApplyKeepsValid(cfg, db, h[n]);
      if RotatedAt(cfg, h, n) && SessionAt(cfg, h, n) == s {
        RotationExtends(cfg, db, h[n], s, Chain(cfg, h[..n], s));
      } else {
        OthersKeepChain(cfg, db, h[n], s, Chain(cfg, h[..n], s));
      }
    }
  }

  lemma RotationExtends(cfg: Settings, db: Db, tx: Tx, s: SessionId, c: seq<TokenId>)
    requires Valid(db) && Admissible(db, tx) && ChainOf(db, s, c)
    requires tx.RefreshTx? && OutcomeOf(db, tx) == Rotated && db.tokens[tx.token].session == s
    ensures c != [] && tx.token == c[|c| - 1]
    ensures ChainOf(Apply(cfg, db, tx), s, c + [tx.minted])
  {
    var after := Apply(cfg, db, tx);
    var c' := c + [tx.minted];
    assert tx.token in c;
    assert forall t :: t in c' <==> t in c || t == tx.minted;
    assert forall t :: t in after.tokens <==> t in db.tokens || t == tx.minted;
    forall k | 0 <= k < |c'| - 1 ensures !Unused(after, c'[k]) {
      assert c'[k] == c[k];
      assert c[k] in c;
    }
    forall k | 1 <= k < |c'| ensures after.tokens[c'[k]].expiresAt <= after.sessions[s].expiresAt {
      if k < |c| {
        assert c'[k] == c[k] && c[k] in c;
      }
    }
  }

  lemma OthersKeepChain(cfg: Settings, db: Db, tx: Tx, s: SessionId, c: seq<TokenId>)
    requires Valid(db) && Admissible(db, tx) && ChainOf(db, s, c)
    requires tx.RefreshTx? && OutcomeOf(db, tx) == Rotated ==> db.tokens[tx.token].session != s
    ensures ChainOf(Apply(cfg, db, tx), s, if tx.LoginTx? && tx.session == s then c + [tx.token] else c)
  {
    var after := Apply(cfg, db, tx);
    ApplyGrows(cfg, db, tx);
    ApplyKeepsValid(cfg, db, tx);
    if tx.LoginTx? && tx.session == s {
      LoginStartsChain(cfg, db, tx, c);
    } else {
      OthersKeepRows(cfg, db, tx, s);
      SameRowsSameChain(db, after, s, c);
    }
  }

  /** A transaction that neither opens session s nor rotates one of its tokens adds no token to it. */
  lemma OthersKeepRows(cfg: Settings, db: Db, tx: Tx, s: SessionId)
    requires Admissible(db, tx) && TokensBelong(db)
    requires tx.RefreshTx? && OutcomeOf(db, tx) == Rotated ==> db.tokens[tx.token].session != s
    requires !(tx.LoginTx? && tx.session == s)
    ensures forall t | t in Apply(cfg, db, tx).tokens && Apply(cfg, db, tx).tokens[t].session == s :: t in db.tokens
    ensures s in Apply(cfg, db, tx).sessions ==> s in db.sessions
  {
  }

  lemma LoginStartsChain(cfg: Settings, db: Db, tx: Tx, c: seq<TokenId>)
    requires Valid(db) && Admissible(db, tx) && tx.LoginTx? && ChainOf(db, tx.session, c)
    ensures ChainOf(Apply(cfg, db, tx), tx.session, c + [tx.token])
  {
    assert c == [];
    assert forall t | t in db.tokens :: Apply(cfg, db, tx).tokens[t] == db.tokens[t];
  }

  lemma SameRowsSameChain(db: Db, after: Db, s: SessionId, c: seq<TokenId>)
    requires Valid(db) && Valid(after) && ChainOf(db, s, c) && Grows(db, after)
    requires forall t | t in after.tokens && after.tokens[t].session == s :: t in db.tokens
    requires s in after.sessions ==> s in db.sessions
    ensures ChainOf(after, s, c)
  {
    forall t ensures t in c <==> t in after.tokens && after.tokens[t].session == s {
      if t in db.tokens {
        assert after.tokens[t].session == db.tokens[t].session;
      }
    }
    forall k | 0 <= k < |c| ensures c[k] in db.tokens && after.tokens[c[k]].expiresAt == db.tokens[c[k]].expiresAt {
      assert c[k] in c;
    }
    if s in after.sessions && after.sessions[s].revokedAt.None? {
      assert HasUnused(after, s);
      var t :| Unused(after, t) && after.tokens[t].session == s;
      assert t in c;
    }
  }

  /** A rotation presents the newest token of its session and appends its one successor. */
  lemma RotationPresentsNewest(cfg: Settings, h: History, i: int)
    requires Legal(cfg, h) && 0 <= i < |h| && RotatedAt(cfg, h, i)
    ensures var s := SessionAt(cfg, h, i);
      var c := Chain(cfg, h[..i], s);
      c != [] && h[i].token == c[|c| - 1] && Chain(cfg, h[..i + 1], s) == c + [h[i].minted]
  {
    hide Apply;
    LegalPrefix(cfg, h, i);
    HistoryValid(cfg, h[..i]);
    var s := SessionAt(cfg, h, i);
    ChainIsSession(cfg, h[..i], s);
    RotationExtends(cfg, Replay(cfg, h[..i]), h[i], s, Chain(cfg, h[..i], s));
    assert h[..i + 1][..i] == h[..i];
  }

  // ---------------------------------------------------------- rotation at most once

  /** One successful rotation, seen from its own tables. */
  lemma RotationFacts(cfg: Settings, db: Db, tx: Tx)
    requires Admissible(db, tx) && tx.RefreshTx? && OutcomeOf(db, tx) == Rotated
    ensures Unused(db, tx.token) && db.tokens[tx.token].session in db.sessions
    ensures var s := db.sessions[db.tokens[tx.token].session]; s.revokedAt.None? && tx.now < s.expiresAt
    ensures tx.minted !in db.tokens
    ensures var after := Apply(cfg, db, tx);
      && tx.minted in after.tokens && tx.token in after.tokens && after.tokens[tx.token].usedAt.Some?
      && after.tokens[tx.minted].expiresAt <= db.sessions[db.tokens[tx.token].session].expiresAt
  {
  }

  lemma IntroductionFacts(cfg: Settings, db: Db, tx: Tx, t: TokenId)
    requires Admissible(db, tx)
    ensures Introduced(db, tx) == Some(t) ==> t !in db.tokens && t in Apply(cfg, db, tx).tokens
    ensures t in Apply(cfg, db, tx).tokens && t !in db.tokens ==> Introduced(db, tx) == Some(t)
  {
  }

  lemma LoginFacts(cfg: Settings, db: Db, tx: Tx)
    requires tx.LoginTx?
    ensures var after := Apply(cfg, db, tx);
      && tx.session in after.sessions && after.sessions[tx.session].expiresAt == tx.now + cfg.sessionLife
  {
  }

  /** A token is rotated at most once, and no two rotations mint the same successor: the
      successor relation is one to one. */
  lemma RotatedAtMostOnce(cfg: Settings, h: History, i: int, j: int)
    requires Legal(cfg, h) && 0 <= i < j < |h| && RotatedAt(cfg, h, i) && RotatedAt(cfg, h, j)
    ensures h[i].token != h[j].token
    ensures h[i].minted != h[j].minted
  {
    hide Apply;
    RotationFacts(cfg, Replay(cfg, h[..i]), h[i]);
    RotationFacts(cfg, Replay(cfg, h[..j]), h[j]);
    ReplayStep(cfg, h, i);
    HistoryGrows(cfg, h, i + 1, j);
  }

  /** Every token on record was introduced by exactly one login or rotation. */
  lemma {:induction false} TokenHasOneOrigin(cfg: Settings, h: History, t: TokenId)
    requires Legal(cfg, h) && t in Replay(cfg, h).tokens
    ensures exists i :: 0 <= i < |h| && IntroducedAt(cfg, h, i, t)
    ensures forall i, j | 0 <= i < |h| && 0 <= j < |h| && IntroducedAt(cfg, h, i, t) && IntroducedAt(cfg, h, j, t) :: i == j
  {
    hide Apply, OutcomeOf, Admissible;
    OriginExists(cfg, h, t);
    forall i, j | 0 <= i < j < |h| && IntroducedAt(cfg, h, i, t) && IntroducedAt(cfg, h, j, t) ensures false {
      IntroductionFacts(cfg, Replay(cfg, h[..i]), h[i], t);
      IntroductionFacts(cfg, Replay(cfg, h[..j]), h[j], t);
      ReplayStep(cfg, h, i);
      HistoryGrows(cfg, h, i + 1, j);
    }
  }

  predicate IntroducedAt(cfg: Settings, h: History, i: int, t: TokenId)
    requires 0 <= i < |h|
  {
    Introduced(Replay(cfg, h[..i]), h[i]) == Some(t)
  }

  lemma {:induction false} OriginExists(cfg: Settings, h: History, t: TokenId)
    requires Legal(cfg, h) && t in Replay(cfg, h).tokens
    ensures exists i :: 0 <= i < |h| && IntroducedAt(cfg, h, i, t)
  {
    hide Apply, OutcomeOf, Admissible;
    var n := |h| - 1;
    assert h[..n] + [h[n]] == h;
    IntroductionFacts(cfg, Replay(cfg, h[..n]), h[n], t);
    if IntroducedAt(cfg, h, n, t) {
    } else {
      LegalPrefix(cfg, h, n);
      OriginExists(cfg, h[..n], t);
      var i :| 0 <= i < n && IntroducedAt(cfg, h[..n], i, t);
      assert h[..n][..i] == h[..i];
      assert IntroducedAt(cfg, h, i, t);
    }
  }

  // -------------------------------------------------------------------- reuse

  ghost predicate RevokedIn(db: Db, s: SessionId) {
    s in db.sessions && db.sessions[s].revokedAt.Some?
  }

  /** A revoked session never refreshes again. */
  lemma RevokedNeverRotates(cfg: Settings, h: History, i: int, j: int)
    requires Legal(cfg, h) && 0 <= i <= j < |h| && RotatedAt(cfg, h, j)
    ensures !RevokedIn(Replay(cfg, h[..i]), SessionAt(cfg, h, j))
  {
    hide Apply;
    RotationFacts(cfg, Replay(cfg, h[..j]), h[j]);
    HistoryGrows(cfg, h, i, j);
  }

  /** Replay detection: presenting a token that was rotated before is refused, revokes its
      session, and from then on no token of that session, stolen or not, is ever rotated. */
  lemma ReuseEndsSession(cfg: Settings, h: History, i: int, j: int, k: int)
    requires Legal(cfg, h) && 0 <= i < j < |h| && RotatedAt(cfg, h, i)
    requires h[j].RefreshTx? && h[j].token == h[i].token
    ensures OutcomeOf(Replay(cfg, h[..j]), h[j]) == ReplayDetected
    ensures RevokedIn(Replay(cfg, h[..j + 1]), SessionAt(cfg, h, i))
    ensures j < k < |h| && RotatedAt(cfg, h, k) ==> SessionAt(cfg, h, k) != SessionAt(cfg, h, i)
  {
    hide Apply;
    RotationFacts(cfg, Replay(cfg, h[..i]), h[i]);
    ReplayStep(cfg, h, i);
    HistoryGrows(cfg, h, i, j);
    HistoryGrows(cfg, h, i + 1, j);
    LegalPrefix(cfg, h, j);
    HistoryValid(cfg, h[..j]);
    RefusedRefreshEffect(cfg, Replay(cfg, h[..j]), h[j]);
    ReplayStep(cfg, h, j);
    if j < k < |h| && RotatedAt(cfg, h, k) {
      RevokedNeverRotates(cfg, h, j + 1, k);
    }
  }

  /** The only refused refresh that changes the tables is the one that presents a used token;
      it revokes exactly that token's session and touches no token. */
  lemma RefusedRefreshEffect(cfg: Settings, db: Db, tx: Tx)
    requires Valid(db) && tx.RefreshTx? && OutcomeOf(db, tx) != Rotated
    ensures OutcomeOf(db, tx) == ReplayDetected <==> tx.token in db.tokens && !Unused(db, tx.token)
    ensures OutcomeOf(db, tx) != ReplayDetected ==> Apply(cfg, db, tx) == db
    ensures OutcomeOf(db, tx) == ReplayDetected ==>
      var s := db.tokens[tx.token].session;
      var after := Apply(cfg, db, tx);
      && after.tokens == db.tokens
      && after.sessions == db.sessions[s := after.sessions[s]]
      && after.sessions[s] == db.sessions[s].(revokedAt := Some(tx.now), reason := Some(RefreshTokenReplay))
  {
  }

  // ------------------------------------------------------------------- expiry

  /** No rotation happens at or after the expiry fixed when the session was created, however
      often it was refreshed, and the new token never outlives it. */
  lemma RotationBeforeExpiry(cfg: Settings, h: History, l: int, i: int)
    requires Legal(cfg, h) && 0 <= l < i < |h|
    requires h[l].LoginTx? && RotatedAt(cfg, h, i) && SessionAt(cfg, h, i) == h[l].session
    ensures h[i].now < h[l].now + cfg.sessionLife
    ensures h[i].minted in Replay(cfg, h[..i + 1]).tokens
    ensures Replay(cfg, h[..i + 1]).tokens[h[i].minted].expiresAt <= h[l].now + cfg.sessionLife
  {
    hide Apply;
    LoginFacts(cfg, Replay(cfg, h[..l]), h[l]);
    ReplayStep(cfg, h, l);
    HistoryGrows(cfg, h, l + 1, i);
    RotationFacts(cfg, Replay(cfg, h[..i]), h[i]);
    ReplayStep(cfg, h, i);
  }

  /** Logout and revocation leave a session without any unused token; replay detection leaves
      the newest one unmarked, and the revocation alone stops it. */
  lemma RevocationAndUnusedTokens(cfg: Settings, db: Db, tx: Tx, s: SessionId)
    requires Valid(db) && Admissible(db, tx) && s in db.sessions && db.sessions[s].revokedAt.None?
    requires RevokedIn(Apply(cfg, db, tx), s)
    ensures HasUnused(Apply(cfg, db, tx), s) <==> tx.RefreshTx?
  {
    var after := Apply(cfg, db, tx);
    if tx.RefreshTx? {
      assert HasUnused(db, s);
      var t :| Unused(db, t) && db.tokens[t].session == s;
      assert Unused(after, t) && after.tokens[t].session == s;
    }
  }
}
