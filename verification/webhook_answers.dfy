/** What a webhook request is answered at each of its steps, in terms of its key, its timestamp, its
    nonce and the two stores alone. */
module WebhookAnswers {
  import opened Options
  import opened Idempotency
  import opened Webhook
  import opened WebhookProtocol
  import opened WebhookEndpoint
  import NonceWindow

  // ----------------------------------------------------------- timestamp and nonce

  /** At most five minutes old and at most five minutes ahead. */
  predicate IsTimely(now: int, at: int) {
    now - 300 <= at <= now + 300
  }

  /** The nonce was accepted in the last ten minutes. */
  predicate WasUsed(cache: NonceWindow.Cache, nonce: string, now: int) {
    nonce in cache && now - 600 <= cache[nonce]
  }

  function Checked(s: Sys, r: Request): (NonceWindow.Verdict, NonceWindow.Cache) {
    NonceWindow.Check(s.nonces, TOLERANCE, 2 * TOLERANCE, NonceWindow.Request(s.clock, r.timestamp, r.nonce))
  }

  /** A whole second within five minutes of the clock, with a nonce that is not blank and was not used
      in the last ten minutes. */
  predicate PassesTheCheck(s: Sys, r: Request) {
    match r.timestamp
    case Seconds(at) => IsTimely(s.clock, at) && r.nonce != "" && !WasUsed(s.nonces, r.nonce, s.clock)
    case _ => false
  }

  /** The verdict on timestamp and nonce. */
  lemma VerdictIff(s: Sys, r: Request)
    ensures var (verdict, _) := Checked(s, r);
      && (verdict.Accepted? <==> PassesTheCheck(s, r))
      && (verdict.MissingTimestamp? <==> r.timestamp.Missing?)
      && (verdict.InvalidTimestamp? <==> r.timestamp.Malformed?)
      && (verdict.Raised? <==> r.timestamp.Unrepresentable?)
      && (verdict.TimestampExpired? <==> r.timestamp.Seconds? && !IsTimely(s.clock, r.timestamp.value))
      && (verdict.MissingNonce? <==> r.timestamp.Seconds? && IsTimely(s.clock, r.timestamp.value) && r.nonce == "")
      && (verdict.NonceReplayed? <==>
            && r.timestamp.Seconds? && IsTimely(s.clock, r.timestamp.value) && r.nonce != ""
            && WasUsed(s.nonces, r.nonce, s.clock))
  {
  }

  /** What the check leaves in the cache: untouched unless it came to the nonce, and then the nonces of
      the last ten minutes, with this one if it was accepted. */
  lemma CheckLeaves(s: Sys, r: Request)
    ensures var (_, kept) := Checked(s, r);
      if r.timestamp.Seconds? && IsTimely(s.clock, r.timestamp.value) && r.nonce != "" then
        && (forall n | n != r.nonce :: n in kept <==> WasUsed(s.nonces, n, s.clock))
        && (forall n | n in kept && n != r.nonce :: kept[n] == s.nonces[n])
        && r.nonce in kept
        && kept[r.nonce] == if WasUsed(s.nonces, r.nonce, s.clock) then s.nonces[r.nonce] else s.clock
      else kept == s.nonces
  {
  }

  // ------------------------------------------------------------------------ steps

  /** The key is not in use: never seen, or freed by a failure. */
  predicate IsFree(records: Records, key: Option<Key>) {
    key.Some? ==> key.value !in records || records[key.value].status.Failed?
  }

  predicate HasResponse(records: Records, key: Option<Key>, response: Response) {
    key.Some? && key.value in records && records[key.value].status.Completed? && records[key.value].response == response
  }

  predicate HasNoResponse(records: Records, key: Option<Key>) {
    key.Some? && key.value in records ==> !records[key.value].status.Completed?
  }

  predicate OtherRecordsStay(before: Records, after: Records, key: Key) {
    && (forall k | k in before && k != key :: k in after && after[k] == before[k])
    && forall k | k in after && k != key :: k in before
  }

  /** The store, operation by operation: a key is taken while it is being processed or completed; taking
      a free one marks it, storing completes it with its response, failing frees it only while it is being
      processed, and the response of a completed one is found.  Other keys are never touched. */
  lemma StoreAnswers(records: Records, key: Key, response: Response)
    ensures Taken(records, key) <==> !IsFree(records, Some(key))
    ensures var started := Started(records, key);
      && OtherRecordsStay(records, started, key) && key in started
      && (IsFree(records, Some(key)) ==> started[key] == Record(Processing, Response(200, "")))
      && (!IsFree(records, Some(key)) ==> started[key] == records[key])
    ensures var stored := Stored(records, key, response);
      OtherRecordsStay(records, stored, key) && key in stored && stored[key] == Record(Completed, response)
    ensures var released := Released(records, key);
      && OtherRecordsStay(records, released, key)
      && (key in released <==> key in records && !records[key].status.Processing?)
      && (key in released ==> released[key] == records[key])
    ensures Cached(records, key) == Some(response) <==> HasResponse(records, Some(key), response)
    ensures Cached(records, key) == None <==> HasNoResponse(records, Some(key))
  {
  }

  /** Other requests, and the records of other keys, are as they were. */
  ghost predicate OthersStay(s: Sys, s': Sys, th: ThreadId) {
    && s'.threads.Keys == s.threads.Keys && s'.clock == s.clock
    && (forall a | a in s.threads && a != th :: s'.threads[a] == s.threads[a])
    && (th in s.threads ==> s'.threads[th].request == s.threads[th].request)
    && forall k | th in s.threads && s.threads[th].request.key != Some(k) ::
         (k in s'.records <==> k in s.records) && (k in s.records ==> s'.records[k] == s.records[k])
  }

  /** A request arrives at the first step and leaves everything else alone; the clock moves by itself. */
  lemma ArrivalAnswers(s: Sys, th: ThreadId, r: Request, later: int)
    requires th !in s.threads && s.clock <= later
    ensures var (arrived, ticked) := (Do(s, Arrive(th, r)), Do(s, Tick(later)));
      && arrived == s.(threads := arrived.threads) && arrived.threads == s.threads[th := Thread(r, Received)]
      && ticked == s.(clock := ticked.clock) && ticked.clock == later
  {
  }

  /** Looking for a response: with one on record for the key the request is answered with it, without
      one it goes on, and is refused when it had lost the key to another. */
  lemma LookUpAnswers(s: Sys, th: ThreadId, again: bool)
    requires Enabled(s, if again then LookAgain(th) else LookUp(th))
    ensures var s' := Do(s, if again then LookAgain(th) else LookUp(th));
      var key := s.threads[th].request.key;
      && OthersStay(s, s', th) && s'.records == s.records && s'.nonces == s.nonces && s'.executions == s.executions
      && (forall response :: HasResponse(s.records, key, response) <==> s'.threads[th].pc == Done(FromCache(response)))
      && (HasNoResponse(s.records, key) <==> s'.threads[th].pc == if again then Done(Conflict) else Missed)
  {
  }

  /** Checking timestamp and nonce: the request goes on exactly when it passes, and is told what was
      wrong otherwise. */
  lemma CheckAnswers(s: Sys, th: ThreadId)
    requires Enabled(s, CheckNonce(th))
    ensures var (s', r) := (Do(s, CheckNonce(th)), s.threads[th].request);
      && OthersStay(s, s', th) && s'.records == s.records && s'.executions == s.executions && s'.log == s.log
      && s'.nonces == Checked(s, r).1
      && (s'.threads[th].pc == Pc.Checked <==> PassesTheCheck(s, r))
      && (s'.threads[th].pc == Done(ServerError) <==> r.timestamp.Unrepresentable?)
      && (!PassesTheCheck(s, r) && !r.timestamp.Unrepresentable? ==>
            s'.threads[th].pc == Done(BadRequest(Checked(s, r).0)))
  {
    VerdictIff(s, s.threads[th].request);
    hide NonceWindow.Check, PassesTheCheck;
  }

  /** Taking the key: the request executes exactly when its key is free, or it names none, and the key
      is then in use. */
  lemma AcquireAnswers(s: Sys, th: ThreadId)
    requires Enabled(s, Acquire(th))
    ensures var (s', key) := (Do(s, Acquire(th)), s.threads[th].request.key);
      && OthersStay(s, s', th) && s'.nonces == s.nonces
      && (s'.threads[th].pc == Running <==> IsFree(s.records, key))
      && (s'.threads[th].pc == Contended <==> !IsFree(s.records, key))
      && s'.executions == s.executions + (if IsFree(s.records, key) then 1 else 0)
      && s'.log == s.log + (if IsFree(s.records, key) then [Began(th, key)] else [])
      && (IsFree(s.records, key) && key.Some? ==> key.value in s'.records && s'.records[key.value].status.Processing?)
      && (!IsFree(s.records, key) ==> s'.records == s.records)
  {
  }

  /** The end of an execution: its response is stored under its key before the commit, and a failure
      frees the key it holds. */
  lemma ExecutionAnswers(s: Sys, th: ThreadId, body: Body)
    requires Enabled(s, Complete(th, body))
    ensures var (done, failed, key) := (Do(s, Complete(th, body)), Do(s, Fail(th)), s.threads[th].request.key);
      && OthersStay(s, done, th) && done.nonces == s.nonces
      && done.threads[th].pc == Committing(Response(200, body)) && done.log == s.log + [Finished(th, key, Response(200, body))]
      && (key.Some? ==> HasResponse(done.records, key, Response(200, body)))
      && OthersStay(s, failed, th) && failed.nonces == s.nonces
      && failed.threads[th].pc == Done(ServerError) && failed.log == s.log + [Broke(th, key)]
      && (key.Some? && key.value in s.records && s.records[key.value].status.Processing? ==> key.value !in failed.records)
  {
  }

  /** The end of the transaction: the effect appears with its commit and no other way, and what the
      client was sent before stands. */
  lemma CommitAnswers(s: Sys, th: ThreadId)
    requires Enabled(s, CommitWork(th))
    ensures var (done, failed, cancelled) := (Do(s, CommitWork(th)), Do(s, CommitError(th)), Do(s, Cancel(th)));
      var (pc, key) := (s.threads[th].pc, s.threads[th].request.key);
      && OthersStay(s, done, th) && done.records == s.records
      && done.threads[th].pc == Done(Processed(pc.response)) && done.log == s.log + [Effected(th, key)]
      && OthersStay(s, failed, th) && failed.records == s.records && failed.log == s.log
      && OthersStay(s, cancelled, th) && cancelled.records == s.records && cancelled.log == s.log
      && (pc.Replied? ==> failed.threads[th].pc == cancelled.threads[th].pc == Done(Unsaved(pc.response)))
      && (pc.Committing? ==> failed.threads[th].pc == Done(ServerError) && cancelled.threads[th].pc == Done(Dropped))
  {
  }

  // ------------------------------------------------------------------ a whole request

  /** In every reachable state, whatever the others are at: a request that passes the check, and whose
      key is free if it names one, is executed once and answered 200 with its body when nobody comes in
      between and its work succeeds; its response is then on record and its effect committed. */
  lemma ProperRequestIsProcessed(s: Sys, th: ThreadId, body: Body)
    requires Reachable(s) && At(s, th, Received)
    requires var r := s.threads[th].request; PassesTheCheck(s, r) && IsFree(s.records, r.key)
    ensures var (after, key) := (Alone(s, th, Some(body)), s.threads[th].request.key);
      && At(after, th, Done(Processed(Response(200, body))))
      && after.executions == s.executions + 1
      && after.log == s.log + [Began(th, key), Finished(th, key, Response(200, body)), Effected(th, key)]
      && (key.Some? ==> HasResponse(after.records, key, Response(200, body)))
  {
    hide Do, Reachable, PassesTheCheck;
    LookUpAloneGoesOn(s, th);
    var looked := Do(s, LookUp(th));
    CheckAloneGoesOn(s, looked, th);
    var checked := Do(looked, CheckNonce(th));
    AcquireAnswers(checked, th);
    FinishAlone(Do(checked, Acquire(th)), th, body);
  }

  lemma LookUpAloneGoesOn(s: Sys, th: ThreadId)
    requires At(s, th, Received) && IsFree(s.records, s.threads[th].request.key)
    ensures Do(s, LookUp(th)) == Put(s, th, Missed)
  {
  }

  lemma CheckAloneGoesOn(s: Sys, looked: Sys, th: ThreadId)
    requires At(s, th, Received) && looked == Put(s, th, Missed) && PassesTheCheck(s, s.threads[th].request)
    ensures var checked := Do(looked, CheckNonce(th));
      && At(checked, th, Pc.Checked) && checked.threads[th].request == s.threads[th].request
      && checked.records == s.records && checked.executions == s.executions && checked.log == s.log
  {
    CheckAnswers(looked, th);
    assert PassesTheCheck(looked, looked.threads[th].request);
    hide Do, PassesTheCheck;
  }

  lemma FinishAlone(s: Sys, th: ThreadId, body: Body)
    requires At(s, th, Running)
    ensures var (after, key) := (Do(Do(s, Complete(th, body)), CommitWork(th)), s.threads[th].request.key);
      && At(after, th, Done(Processed(Response(200, body)))) && after.executions == s.executions
      && after.log == s.log + [Finished(th, key, Response(200, body)), Effected(th, key)]
      && (key.Some? ==> HasResponse(after.records, key, Response(200, body)))
  {
  }

  /** The reply to an undisturbed request: its stored response first; then what is wrong with its
      timestamp or nonce; then a conflict while its key is in use; and then what its work gives. */
  lemma SoloReplies(s: Sys, r: Request, work: Option<Body>)
    ensures var reply := Solo(s.records, s.nonces, r, s.clock, s.executions, work).reply;
      && (forall response :: reply == FromCache(response) <==> HasResponse(s.records, r.key, response))
      && (reply.BadRequest? <==>
            HasNoResponse(s.records, r.key) && !PassesTheCheck(s, r) && !r.timestamp.Unrepresentable?)
      && (reply == Conflict <==>
            HasNoResponse(s.records, r.key) && PassesTheCheck(s, r) && !IsFree(s.records, r.key))
      && (forall body :: reply == Processed(Response(200, body)) <==>
            HasNoResponse(s.records, r.key) && PassesTheCheck(s, r) && IsFree(s.records, r.key) && work == Some(body))
      && (reply == ServerError <==>
            HasNoResponse(s.records, r.key)
            && (r.timestamp.Unrepresentable? || (PassesTheCheck(s, r) && IsFree(s.records, r.key) && work == None)))
  {
    VerdictIff(s, r);
    hide PassesTheCheck, NonceWindow.Check;
  }
}
