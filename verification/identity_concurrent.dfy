/** Login, refresh, logout and revocation as interleaved requests.  Each request runs as a
    thread whose statements are separate steps; row locks are held from the locking select
    until commit or rollback, sessions before tokens.  Rows read under a lock are kept in the
    thread, and writes stay in the thread until it commits. */
module IdentityConcurrent {
  import opened Options
  import opened Identity
  import opened IdentityHistory

  type ThreadId = nat

  datatype Request =
    | Login(owner: OwnerId)
    | Refresh(token: TokenId)
    | Logout(session: SessionId)
    | RevokeOne(owner: OwnerId, session: SessionId)
    | RevokeAll(owner: OwnerId, keep: Option<SessionId>)

  /** A request is answered when its transaction ends with this outcome, committed if it wrote;
      one whose commit fails is aborted, whatever reply was already sent. */
  datatype Result = Answered(outcome: Outcome) | Aborted

  datatype Pc =
    | Arrived
    | Located(sid: SessionId)                                   // token row found, nothing locked
    | HoldsSession(sid: SessionId, row: Session)                // session row locked and read
    | HoldsToken(sid: SessionId, row: Session, token: Token)    // token row locked and read again
    | Selected(rows: map<SessionId, Session>)                   // rows to revoke, locked and read
    | Pending(tx: Tx, outcome: Outcome, writes: Writes, sessions: set<SessionId>, tokens: set<TokenId>)
    | Finished(result: Result)

  datatype Thread = Thread(request: Request, now: int, pc: Pc)

  /** One answered request: its transaction and the answer, in commit order. */
  datatype Entry = Entry(thread: ThreadId, tx: Tx, outcome: Outcome)

  datatype Sys = Sys(
    db: Db,
    threads: map<ThreadId, Thread>,
    activeOwners: set<OwnerId>,
    clock: int,
    mintedSessions: set<SessionId>,
    mintedTokens: set<TokenId>,
    log: seq<Entry>)

  // --------------------------------------------------------------- row locks

  function SessionsHeld(pc: Pc): set<SessionId> {
    match pc
    case HoldsSession(sid, _) => {sid}
    case HoldsToken(sid, _, _) => {sid}
    case Selected(rows) => rows.Keys
    case Pending(_, _, _, sessions, _) => sessions
    case _ => {}
  }

  function TokensHeld(t: Thread): set<TokenId> {
    match t.pc
    case HoldsToken(_, _, _) => if t.request.Refresh? then {t.request.token} else {}
    case Pending(_, _, _, _, tokens) => tokens
    case _ => {}
  }

  predicate SessionFree(s: Sys, sid: SessionId) {
    forall th | th in s.threads :: sid !in SessionsHeld(s.threads[th].pc)
  }

  predicate TokenFree(s: Sys, t: TokenId, me: ThreadId) {
    forall th | th in s.threads && th != me :: t !in TokensHeld(s.threads[th])
  }

  // -------------------------------------------------------------------- steps

  datatype Step =
    | Tick(later: int)
    | SetOwner(owner: OwnerId, active: bool)
    | Spawn(th: ThreadId, request: Request)
    | PrepareLogin(th: ThreadId, newSession: SessionId, newToken: TokenId)
    | Find(th: ThreadId)
    | LockSession(th: ThreadId)
    | LockToken(th: ThreadId)
    | DecideRefresh(th: ThreadId, newToken: TokenId)
    | SelectRows(th: ThreadId)
    | BulkUpdate(th: ThreadId)
    | Commit(th: ThreadId)
    | Abort(th: ThreadId)

  function Put(s: Sys, th: ThreadId, pc: Pc): Sys
    requires th in s.threads
  {
    s.(threads := s.threads[th := s.threads[th].(pc := pc)])
  }

  /** Answers a request whose transaction wrote nothing. */
  function Answer(s: Sys, th: ThreadId, tx: Tx, outcome: Outcome): Sys
    requires th in s.threads
  {
    Put(s, th, Finished(Answered(outcome))).(log := s.log + [Entry(th, tx, outcome)])
  }

  /** The rows a refresh writes, computed from the rows it read under its locks. */
  function RefreshWrites(cfg: Settings, token: TokenId, sid: SessionId, row: Session, t: Token, outcome: Outcome,
                         now: int, newToken: TokenId): Writes {
    if outcome == Rotated then
      Writes(map[], map[token := t.(usedAt := Some(now)), newToken := RotatedToken(cfg, sid, row, now)])
    else if outcome == ReplayDetected then Writes(map[sid := Revoke(row, now, RefreshTokenReplay)], map[])
    else NoWrites
  }

  /** The rows a logout or revocation selects for update. */
  function Selection(db: Db, request: Request, now: int): set<SessionId>
    requires !request.Login? && !request.Refresh?
  {
    match request
    case Logout(sid) => if sid in db.sessions then {sid} else {}
    case RevokeOne(owner, sid) => if sid in db.sessions && db.sessions[sid].owner == owner then {sid} else {}
    case RevokeAll(owner, keep) => Matching(db, owner, now, keep)
  }

  function RevocationTx(request: Request, now: int, sids: set<SessionId>): Tx
    requires !request.Login? && !request.Refresh?
  {
    match request
    case Logout(sid) => LogoutTx(sid, now)
    case RevokeOne(owner, sid) => RevokeTx(owner, sid, now)
    case RevokeAll(owner, _) => RevokeAllTx(owner, now, sids)
  }

  /** The session rows a revocation writes, computed from the rows it selected. */
  function RevokedRows(request: Request, rows: map<SessionId, Session>, now: int): map<SessionId, Session> {
    map s | s in rows && (request.RevokeAll? || rows[s].revokedAt.None?) ::
      Revoke(rows[s], now, if request.Logout? then LoggedOut else RevokedByOwner)
  }

  function RevocationOutcome(request: Request, rows: map<SessionId, Session>): Outcome {
    Revoked(if request.Logout? && !MarksTokens(request, rows) then 0 else |rows|)
  }

  /** logout skips the bulk update when it finds its session revoked already. */
  predicate MarksTokens(request: Request, rows: map<SessionId, Session>) {
    request.Logout? && request.session in rows ==> rows[request.session].revokedAt.None?
  }

  predicate Enabled(s: Sys, step: Step) {
    match step
    case Tick(later) => s.clock <= later
    case SetOwner(_, _) => true
    case Spawn(th, _) => th !in s.threads
    case PrepareLogin(th, sid, tid) =>
      && th in s.threads && s.threads[th].pc == Arrived && s.threads[th].request.Login?
      && sid !in s.mintedSessions && tid !in s.mintedTokens
    case Find(th) => th in s.threads && s.threads[th].pc == Arrived && s.threads[th].request.Refresh?
    case LockSession(th) => th in s.threads && s.threads[th].pc.Located? && SessionFree(s, s.threads[th].pc.sid)
    case LockToken(th) =>
      && th in s.threads && s.threads[th].pc.HoldsSession? && s.threads[th].request.Refresh?
      && s.threads[th].request.token in s.db.tokens && TokenFree(s, s.threads[th].request.token, th)
    case DecideRefresh(th, tid) =>
      th in s.threads && s.threads[th].pc.HoldsToken? && s.threads[th].request.Refresh? && tid !in s.mintedTokens
    case SelectRows(th) =>
      && th in s.threads && s.threads[th].pc == Arrived
      && !s.threads[th].request.Login? && !s.threads[th].request.Refresh?
      && (forall sid | sid in Selection(s.db, s.threads[th].request, s.threads[th].now) :: SessionFree(s, sid))
    case BulkUpdate(th) =>
      && th in s.threads && s.threads[th].pc.Selected?
      && !s.threads[th].request.Login? && !s.threads[th].request.Refresh?
      && (MarksTokens(s.threads[th].request, s.threads[th].pc.rows) ==>
            forall t | t in MarkUnused(s.db.tokens, s.threads[th].pc.rows.Keys, s.threads[th].now) :: TokenFree(s, t, th))
    case Commit(th) => th in s.threads && s.threads[th].pc.Pending?
    case Abort(th) => th in s.threads && !s.threads[th].pc.Finished?
  }

  function Do(cfg: Settings, s: Sys, step: Step): Sys
    requires Enabled(s, step)
  {
    match step
    case Tick(later) => s.(clock := later)
    case SetOwner(owner, active) =>
      s.(activeOwners := if active then s.activeOwners + {owner} else s.activeOwners - {owner})
    case Spawn(th, request) => s.(threads := s.threads[th := Thread(request, s.clock, Arrived)])
    case PrepareLogin(th, sid, tid) => DoLogin(cfg, s, th, sid, tid)
    case Find(th) =>
      var t := s.threads[th].request.token;
      if t in s.db.tokens then Put(s, th, Located(s.db.tokens[t].session))
      else Answer(s, th, RefreshTx(t, false, s.threads[th].now, t), Denied(TokenNotFound))
    case LockSession(th) =>
      var sid := s.threads[th].pc.sid;
      if sid in s.db.sessions then Put(s, th, HoldsSession(sid, s.db.sessions[sid]))
      else Put(s, th, Finished(Aborted))
    case LockToken(th) =>
      var pc := s.threads[th].pc;
      Put(s, th, HoldsToken(pc.sid, pc.row, s.db.tokens[s.threads[th].request.token]))
    case DecideRefresh(th, tid) => DoDecide(cfg, s, th, tid)
    case SelectRows(th) =>
      var t := s.threads[th];
      var sids := Selection(s.db, t.request, t.now);
      if sids == {} then Answer(s, th, RevocationTx(t.request, t.now, {}), Revoked(0))
      else Put(s, th, Selected(map sid | sid in sids && sid in s.db.sessions :: s.db.sessions[sid]))
    case BulkUpdate(th) => DoBulkUpdate(s, th)
    case Commit(th) =>
      var t := s.threads[th];
      Answer(s, th, t.pc.tx, t.pc.outcome).(db := Merge(s.db, t.pc.writes))
    case Abort(th) => Put(s, th, Finished(Aborted))
  }

  function DoLogin(cfg: Settings, s: Sys, th: ThreadId, sid: SessionId, tid: TokenId): Sys
    requires th in s.threads && s.threads[th].request.Login?
  {
    var tx := LoginTx(s.threads[th].request.owner, s.threads[th].now, sid, tid);
    Put(s, th, Pending(tx, LoggedIn, WritesOf(cfg, EmptyDb, tx), {}, {}))
      .(mintedSessions := s.mintedSessions + {sid}, mintedTokens := s.mintedTokens + {tid})
  }

  function DoDecide(cfg: Settings, s: Sys, th: ThreadId, tid: TokenId): Sys
    requires th in s.threads && s.threads[th].pc.HoldsToken? && s.threads[th].request.Refresh?
  {
    var t := s.threads[th];
    var active := t.pc.row.owner in s.activeOwners;
    var outcome := Decide(t.pc.row, t.pc.token, active, t.now);
    var tx := RefreshTx(t.request.token, active, t.now, tid);
    if outcome.Denied? then Answer(s, th, tx, outcome)
    else
      var w := RefreshWrites(cfg, t.request.token, t.pc.sid, t.pc.row, t.pc.token, outcome, t.now, tid);
      Put(s, th, Pending(tx, outcome, w, {t.pc.sid}, {t.request.token})).(mintedTokens := s.mintedTokens + {tid})
  }

  function DoBulkUpdate(s: Sys, th: ThreadId): Sys
    requires th in s.threads && s.threads[th].pc.Selected?
    requires !s.threads[th].request.Login? && !s.threads[th].request.Refresh?
  {
    var t := s.threads[th];
    var rows := t.pc.rows;
    var marked := if MarksTokens(t.request, rows) then MarkUnused(s.db.tokens, rows.Keys, t.now) else map[];
    var w := Writes(RevokedRows(t.request, rows, t.now), marked);
    Put(s, th, Pending(RevocationTx(t.request, t.now, rows.Keys), RevocationOutcome(t.request, rows), w, rows.Keys, marked.Keys))
  }

  const Init := Sys(EmptyDb, map[], {}, 0, {}, {}, [])

  ghost predicate Next(cfg: Settings, s: Sys, s': Sys) {
    exists step :: Enabled(s, step) && s' == Do(cfg, s, step)
  }

  /** A run of the system from the empty tables. */
  ghost predicate IsRun(cfg: Settings, run: seq<Sys>) {
    && run != [] && run[0] == Init
    && forall i | 0 <= i < |run| - 1 :: Next(cfg, run[i], run[i + 1])
  }
}
