/** The webhook handler as it runs when nobody interrupts it, on the two trackers. */
module WebhookEndpoint {
  import opened Options
  import opened Idempotency
  import opened Webhook
  import NonceWindow

  /** A request's own steps, one after the other, without anybody else's in between. */
  function Alone(s: Sys, th: ThreadId, work: Option<Body>): Sys
    requires At(s, th, Received)
  {
    var looked := Do(s, LookUp(th));
    if looked.threads[th].pc.Done? then looked
    else
      var checked := Do(looked, CheckNonce(th));
      if checked.threads[th].pc.Done? then checked
      else
        var acquired := Do(checked, Acquire(th));
        if acquired.threads[th].pc == Contended then Do(acquired, LookAgain(th))
        else if work.None? then Do(acquired, Fail(th))
        else Do(Do(acquired, Complete(th, work.value)), CommitWork(th))
  }

  /** The handler's view of the system when request 0 arrives. */
  function Seen(records: Records, nonces: NonceWindow.Cache, request: Request, now: int, executions: nat): Sys {
    Sys(records, nonces, map[0 := Thread(request, Received)], now, executions, [], [])
  }

  /** What one undisturbed request replies and leaves behind. */
  datatype Effect = Effect(reply: Reply, records: Records, nonces: NonceWindow.Cache, executions: nat)

  function Solo(records: Records, nonces: NonceWindow.Cache, r: Request, now: int, executions: nat, work: Option<Body>): Effect {
    if r.key.Some? && Cached(records, r.key.value).Some? then
      Effect(FromCache(Cached(records, r.key.value).value), records, nonces, executions)
    else
      var (verdict, kept) := NonceWindow.Check(nonces, TOLERANCE, 2 * TOLERANCE, NonceWindow.Request(now, r.timestamp, r.nonce));
      if verdict == NonceWindow.Raised then Effect(ServerError, records, kept, executions)
      else if verdict != NonceWindow.Accepted then Effect(BadRequest(verdict), records, kept, executions)
      else if r.key.Some? && Taken(records, r.key.value) then Effect(Conflict, records, kept, executions)
      else Executed(records, kept, r.key, executions + 1, work)
  }

  function Executed(records: Records, nonces: NonceWindow.Cache, key: Option<Key>, executions: nat, work: Option<Body>): Effect {
    match work
    case None => Effect(ServerError, if key.Some? then records - {key.value} else records, nonces, executions)
    case Some(body) =>
      Effect(Processed(Response(200, body)), if key.Some? then Stored(records, key.value, Response(200, body)) else records, nonces, executions)
  }

  /** An undisturbed request does what its protocol steps do. */
  lemma SoloFollowsProtocol(records: Records, nonces: NonceWindow.Cache, r: Request, now: int, executions: nat, work: Option<Body>)
    requires forall k | k in records :: !records[k].status.Failed?
    ensures var after := Alone(Seen(records, nonces, r, now, executions), 0, work);
      && after.threads.Keys == {0} && after.threads[0].pc.Done?
      && Effect(after.threads[0].pc.reply, after.records, after.nonces, after.executions)
         == Solo(records, nonces, r, now, executions, work)
  {
    hide NonceWindow.Check;
    var s := Seen(records, nonces, r, now, executions);
    var looked := Do(s, LookUp(0));
    if !looked.threads[0].pc.Done? {
      assert looked == Put(s, 0, Missed);
      hide LookedUp;
      var checked := Do(looked, CheckNonce(0));
      if !checked.threads[0].pc.Done? {
        AcquireAlone(checked, r, work);
      }
    }
  }

  lemma AcquireAlone(s: Sys, r: Request, work: Option<Body>)
    requires s.threads == map[0 := Thread(r, Checked)]
    requires r.key.Some? ==> Cached(s.records, r.key.value).None?
    requires forall k | k in s.records :: !s.records[k].status.Failed?
    ensures var acquired := Do(s, Acquire(0));
      var after := if acquired.threads[0].pc == Contended then Do(acquired, LookAgain(0))
                   else if work.None? then Do(acquired, Fail(0))
                   else Do(Do(acquired, Complete(0, work.value)), CommitWork(0));
      && after.threads.Keys == {0} && after.threads[0].pc.Done?
      && Effect(after.threads[0].pc.reply, after.records, after.nonces, after.executions) ==
           if r.key.Some? && Taken(s.records, r.key.value) then Effect(Conflict, s.records, s.nonces, s.executions)
           else Executed(s.records, s.nonces, r.key, s.executions + 1, work)
  {
    if r.key.Some? && Taken(s.records, r.key.value) {
    } else if r.key.Some? {
      var k := r.key.value;
      assert k !in s.records;
      assert Released(Started(s.records, k), k) == s.records - {k};
      if work.Some? {
        assert Stored(Started(s.records, k), k, Response(200, work.value)) == Stored(s.records, k, Response(200, work.value));
      }
    }
  }

  /** The reply to a request whose key was taken: its response if there is one by now. */
  function SecondLook(cached: Option<Response>): Reply {
    match cached
    case Some(response) => FromCache(response)
    case None => Conflict
  }

  class WebhookEndpoint {
    const tracker: IdempotencyTracker
    const nonceTracker: NonceWindow.NonceTracker
    var executions: nat

    constructor ()
      ensures fresh(tracker) && fresh(nonceTracker)
      ensures tracker.records == map[] && nonceTracker.nonces == map[] && executions == 0
    {
      tracker := new IdempotencyTracker();
      nonceTracker := new NonceWindow.NonceTracker();
      executions := 0;
    }

    /** Handles one request: a bad signature is refused before anything is read or written
        (None); otherwise the reply and the trackers are those of the undisturbed protocol.
        The business logic either returns a body or raises (work is None). */
    method ApiTribeWebhook(signed: bool, request: Request, now: int, work: Option<Body>) returns (reply: Option<Reply>)
      requires forall k | k in tracker.records :: !tracker.records[k].status.Failed?
      modifies this, tracker, nonceTracker
      ensures !signed ==> reply.None? && tracker.records == old(tracker.records)
                          && nonceTracker.nonces == old(nonceTracker.nonces) && executions == old(executions)
      ensures signed ==> reply.Some?
      ensures signed ==>
        Effect(reply.value, tracker.records, nonceTracker.nonces, executions)
        == Solo(old(tracker.records), old(nonceTracker.nonces), request, now, old(executions), work)
    {
      if !signed {
        return None;
      }
      if request.key.Some? {
        var cached := tracker.GetCachedResponse(request.key.value);
        if cached.Some? {
          return Some(FromCache(cached.value));
        }
      }
      var verdict := nonceTracker.VerifyTimestampAndNonce(
        NonceWindow.Request(now, request.timestamp, request.nonce), TOLERANCE);
      if verdict == NonceWindow.Raised {
        return Some(ServerError);
      }
      if verdict != NonceWindow.Accepted {
        return Some(BadRequest(verdict));
      }
      if request.key.Some? {
        var acquired := tracker.StartProcessing(request.key.value);
        if !acquired {
          var cached := tracker.GetCachedResponse(request.key.value);
          return Some(SecondLook(cached));
        }
      }
      executions := executions + 1;
      if work.None? {
        if request.key.Some? {
          tracker.FailProcessing(request.key.value);
        }
        return Some(ServerError);
      }
      if request.key.Some? {
        tracker.CompleteProcessing(request.key.value, 200, work.value);
      }
      return Some(Processed(Response(200, work.value)));
    }
  }
}
