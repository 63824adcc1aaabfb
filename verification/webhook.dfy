/** Concurrent webhook requests around the nonce cache and the idempotency store.  Every call
    into a tracker is one atomic step, as its lock makes it; requests interleave between calls. */
module Webhook {
  import opened Options
  import opened Idempotency
  import NonceWindow

  type ThreadId = nat

  const TOLERANCE := 300

  /** A signed request: its idempotency key, if it names one, its timestamp and its nonce. */
  datatype Request = Request(key: Option<Key>, timestamp: NonceWindow.Timestamp, nonce: string)

  datatype Reply =
    | Processed(response: Response) // sent, and its effect is committed
    | Unsaved(response: Response)   // sent, but the commit that followed failed
    | FromCache(response: Response)
    | BadRequest(why: NonceWindow.Verdict)
    | Conflict
    | ServerError
    | Dropped                       // cancelled, nothing was sent
    | Abandoned                     // cancelled while executing: the failure handler did not run

  datatype Pc =
    | Received
    | Missed                        // no cached response for the key
    | Checked                       // timestamp and nonce accepted
    | Contended                     // the key is taken, about to look for its response again
    | Running                       // business logic, holding the key if there is one
    | Committing(response: Response)  // response stored, database transaction still open
    | Replied(response: Response)   // and the reply is already on its way
    | Done(reply: Reply)

  datatype Thread = Thread(request: Request, pc: Pc)

  datatype Event =
    | Began(thread: ThreadId, key: Option<Key>)
    | Finished(thread: ThreadId, key: Option<Key>, response: Response)
    | Broke(thread: ThreadId, key: Option<Key>)
    | Served(thread: ThreadId, key: Option<Key>, response: Response)
    | Effected(thread: ThreadId, key: Option<Key>)     // the database transaction committed

  /** One nonce check and the request that made it. */
  datatype Probe = Probe(thread: ThreadId, check: NonceWindow.Request)

  datatype Sys = Sys(
    records: Records,
    nonces: NonceWindow.Cache,
    threads: map<ThreadId, Thread>,
    clock: int,
    executions: nat,
    log: seq<Event>,
    probes: seq<Probe>)

  const Init := Sys(map[], map[], map[], 0, 0, [], [])

  datatype Step =
    | Tick(later: int)
    | Arrive(th: ThreadId, request: Request)
    | LookUp(th: ThreadId)
    | CheckNonce(th: ThreadId)
    | Acquire(th: ThreadId)
    | LookAgain(th: ThreadId)
    | Complete(th: ThreadId, body: Body)
    | Fail(th: ThreadId)
    | SendReply(th: ThreadId)
    | CommitWork(th: ThreadId)
    | CommitError(th: ThreadId)
    | Cancel(th: ThreadId)

  predicate At(s: Sys, th: ThreadId, pc: Pc) {
    th in s.threads && s.threads[th].pc == pc
  }

  /** The transaction is open and the response stored, whether or not the reply has been sent:
      whether the framework sends it before or after the commit depends on its version. */
  predicate IsOpen(pc: Pc) {
    pc.Committing? || pc.Replied?
  }

  predicate Enabled(s: Sys, step: Step) {
    match step
    case Tick(later) => s.clock <= later
    case Arrive(th, _) => th !in s.threads
    case LookUp(th) => At(s, th, Received)
    case CheckNonce(th) => At(s, th, Missed)
    case Acquire(th) => At(s, th, Checked)
    case LookAgain(th) => At(s, th, Contended)
    case Complete(th, _) => At(s, th, Running)
    case Fail(th) => At(s, th, Running)
    case SendReply(th) => th in s.threads && s.threads[th].pc.Committing?
    case CommitWork(th) => th in s.threads && IsOpen(s.threads[th].pc)
    case CommitError(th) => th in s.threads && IsOpen(s.threads[th].pc)
    case Cancel(th) => th in s.threads && !s.threads[th].pc.Done?
  }

  function Put(s: Sys, th: ThreadId, pc: Pc): Sys
    requires th in s.threads
  {
    s.(threads := s.threads[th := s.threads[th].(pc := pc)])
  }

  function Log(s: Sys, e: Event): Sys {
    s.(log := s.log + [e])
  }

  /** What the client got when the transaction is rolled back: a reply that was sent stands. */
  function Undone(pc: Pc, otherwise: Reply): Reply {
    if pc.Replied? then Unsaved(pc.response) else otherwise
  }

  /** Answers from the cache, or moves on. */
  function LookedUp(s: Sys, th: ThreadId, otherwise: Pc): Sys
    requires th in s.threads
  {
    var key := s.threads[th].request.key;
    if key.Some? && Cached(s.records, key.value).Some? then
      var response := Cached(s.records, key.value).value;
      Log(Put(s, th, Done(FromCache(response))), Served(th, key, response))
    else Put(s, th, otherwise)
  }

  function NonceChecked(s: Sys, th: ThreadId): Sys
    requires th in s.threads
  {
    var check := NonceWindow.Request(s.clock, s.threads[th].request.timestamp, s.threads[th].request.nonce);
    var (verdict, nonces) := NonceWindow.Check(s.nonces, TOLERANCE, 2 * TOLERANCE, check);
    var next := match verdict
      case Accepted => Checked
      case Raised => Done(ServerError)
      case _ => Done(BadRequest(verdict));
    Put(s, th, next).(nonces := nonces, probes := s.probes + [Probe(th, check)])
  }

  function Acquired(s: Sys, th: ThreadId): Sys
    requires th in s.threads
  {
    var key := s.threads[th].request.key;
    if key.Some? && Taken(s.records, key.value) then Put(s, th, Contended)
    else
      var records := if key.Some? then Started(s.records, key.value) else s.records;
      Log(Put(s, th, Running), Began(th, key)).(records := records, executions := s.executions + 1)
  }

  function Do(s: Sys, step: Step): Sys
    requires Enabled(s, step)
  {
    match step
    case Tick(later) => s.(clock := later)
    case Arrive(th, request) => s.(threads := s.threads[th := Thread(request, Received)])
    case LookUp(th) => LookedUp(s, th, Missed)
    case CheckNonce(th) => NonceChecked(s, th)
    case Acquire(th) => Acquired(s, th)
    case LookAgain(th) => LookedUp(s, th, Done(Conflict))
    case Complete(th, body) =>
      var key := s.threads[th].request.key;
      var response := Response(200, body);
      var records := if key.Some? then Stored(s.records, key.value, response) else s.records;
      Log(Put(s, th, Committing(response)), Finished(th, key, response)).(records := records)
    case Fail(th) =>
      var key := s.threads[th].request.key;
      var records := if key.Some? then Released(s.records, key.value) else s.records;
      Log(Put(s, th, Done(ServerError)), Broke(th, key)).(records := records)
    case CommitWork(th) =>
      Log(Put(s, th, Done(Processed(s.threads[th].pc.response))), Effected(th, s.threads[th].request.key))
    case SendReply(th) => Put(s, th, Replied(s.threads[th].pc.response))
    case CommitError(th) => Put(s, th, Done(Undone(s.threads[th].pc, ServerError)))
    case Cancel(th) => Put(s, th, Done(if s.threads[th].pc == Running then Abandoned else Undone(s.threads[th].pc, Dropped)))
  }

  ghost predicate Next(s: Sys, s': Sys) {
    exists step :: Enabled(s, step) && s' == Do(s, step)
  }

  ghost predicate IsRun(run: seq<Sys>) {
    && run != [] && run[0] == Init
    && forall i | 0 <= i < |run| - 1 :: Next(run[i], run[i + 1])
  }

  ghost predicate Reachable(s: Sys) {
    exists run :: IsRun(run) && run[|run| - 1] == s
  }

  // ------------------------------------------------------- reading the event log

  /** Who is executing under the key, according to the log: whoever began last, until that
      execution completed or failed. */
  function Executing(log: seq<Event>, key: Key): Option<ThreadId> {
    if log == [] then None
    else match log[|log| - 1]
      case Began(th, k) => if k == Some(key) then Some(th) else Executing(log[..|log| - 1], key)
      case Finished(_, k, _) => if k == Some(key) then None else Executing(log[..|log| - 1], key)
      case Broke(_, k) => if k == Some(key) then None else Executing(log[..|log| - 1], key)
      case _ => Executing(log[..|log| - 1], key)
  }

  /** The response stored under the key, according to the log. */
  function ResponseOf(log: seq<Event>, key: Key): Option<Response> {
    if log == [] then None
    else match log[|log| - 1]
      case Finished(_, k, response) => if k == Some(key) then Some(response) else ResponseOf(log[..|log| - 1], key)
      case _ => ResponseOf(log[..|log| - 1], key)
  }

  /** What may come next after a log. */
  ghost predicate Follows(log: seq<Event>, e: Event) {
    match e
    case Began(_, key) => key.Some? ==> Executing(log, key.value) == None && ResponseOf(log, key.value) == None
    case Finished(th, key, _) => key.Some? ==> Executing(log, key.value) == Some(th) && ResponseOf(log, key.value) == None
    case Broke(th, key) => key.Some? ==> Executing(log, key.value) == Some(th) && ResponseOf(log, key.value) == None
    case Served(_, key, response) => key.Some? && ResponseOf(log, key.value) == Some(response)
    case Effected(th, key) =>
      && (forall i | 0 <= i < |log| :: log[i] != e)
      && exists i, response :: 0 <= i < |log| && log[i] == Finished(th, key, response)
  }

  ghost predicate WellFormed(log: seq<Event>) {
    forall i | 0 <= i < |log| :: Follows(log[..i], log[i])
  }
}
