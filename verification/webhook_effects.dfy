/** When a webhook's reply means what it says, and when a key is lost: the exact conditions, over
    every run and every continuation. */
module WebhookEffects {
  import opened Options
  import opened Idempotency
  import opened Webhook
  import opened WebhookProtocol
  import opened WebhookStories
  import opened WebhookGuarantees
  import NonceWindow

  // ------------------------------------------------------- effects and commits

  /** Step i of the run is the successful commit of this request. */
  ghost predicate CommitsAt(run: seq<Sys>, i: nat, th: ThreadId) {
    i + 1 < |run| && Enabled(run[i], CommitWork(th)) && run[i + 1] == Do(run[i], CommitWork(th))
  }

  predicate HasEffect(s: Sys, th: ThreadId) {
    th in s.threads && Effected(th, s.threads[th].request.key) in s.log
  }

  lemma EffectIsLoggedByCommit(s: Sys, step: Step, th: ThreadId)
    requires Enabled(s, step) && th in Do(s, step).threads && (th in s.threads || !LogsFor(s.log, th))
    ensures HasEffect(Do(s, step), th) <==> HasEffect(s, th) || step == CommitWork(th)
  {
    hide Cached, NonceWindow.Check, Taken, Started, Stored, Released;
  }

  predicate LogsFor(log: seq<Event>, th: ThreadId) {
    exists i :: 0 <= i < |log| && log[i].thread == th
  }

  lemma NewcomersHaveNoEvents(s: Sys, th: ThreadId)
    requires Reachable(s) && th !in s.threads
    ensures !LogsFor(s.log, th)
  {
    hide Reachable, ProbesMatch;
    ReachableStories(s);
  }

  lemma PrefixIsReachable(run: seq<Sys>, j: nat)
    requires IsRun(run) && j < |run|
    ensures Reachable(run[j])
  {
    var front := run[..j + 1];
    forall i | 0 <= i < |front| - 1 ensures Next(front[i], front[i + 1]) {
      assert Next(run[i], run[i + 1]);
    }
    assert IsRun(front) && front[|front| - 1] == run[j];
  }

  /** The commit step of the request succeeded before position j of the run. */
  ghost predicate CommittedBefore(run: seq<Sys>, j: nat, th: ThreadId) {
    exists i: nat :: i < j && CommitsAt(run, i, th)
  }

  lemma CommittedByNow(run: seq<Sys>, j: nat, th: ThreadId)
    ensures CommittedBefore(run, j + 1, th) <==> CommittedBefore(run, j, th) || CommitsAt(run, j, th)
  {
    hide CommitsAt;
  }

  /** One step of the run: the effect appears with the commit of its own request. */
  lemma EffectNext(run: seq<Sys>, j: nat, th: ThreadId)
    requires IsRun(run) && j + 1 < |run| && th in run[j + 1].threads
    ensures HasEffect(run[j + 1], th) <==> HasEffect(run[j], th) || CommitsAt(run, j, th)
    ensures th !in run[j].threads ==> !HasEffect(run[j], th)
  {
    var s, s' := run[j], run[j + 1];
    assert Next(run[j], run[j + 1]);
    var step :| Enabled(s, step) && s' == Do(s, step);
    PrefixIsReachable(run, j);
    hide IsRun, Next, Reachable, Do, Enabled;
    if th !in s.threads {
      NewcomersHaveNoEvents(s, th);
    }
    EffectIsLoggedByCommit(s, step, th);
    if CommitsAt(run, j, th) {
      EffectIsLoggedByCommit(s, CommitWork(th), th);
    }
  }

  /** The effect of a request is in the database exactly when the commit step of that request
      succeeded at some point of the run, whether its reply was sent before or after. */
  lemma {:induction false} EffectIffCommitted(run: seq<Sys>, j: nat, th: ThreadId)
    requires IsRun(run) && j < |run| && th in run[j].threads
    ensures HasEffect(run[j], th) <==> CommittedBefore(run, j, th)
  {
    if j > 0 {
      hide *;
      EffectNext(run, j - 1, th);
      CommittedByNow(run, j - 1, th);
      if th in run[j - 1].threads {
        EffectIffCommitted(run, j - 1, th);
      } else {
        NotHereNotCommitted(run, j - 1, th);
      }
    }
  }

  lemma NotHereNext(run: seq<Sys>, j: nat, th: ThreadId)
    requires IsRun(run) && j + 1 < |run| && th !in run[j + 1].threads
    ensures th !in run[j].threads && !CommitsAt(run, j, th)
  {
    assert Next(run[j], run[j + 1]);
    var step :| Enabled(run[j], step) && run[j + 1] == Do(run[j], step);
    hide IsRun, Next, Do;
    ThreadsOnlyArrive(run[j], step, th);
  }

  lemma {:induction false} NotHereNotCommitted(run: seq<Sys>, j: nat, th: ThreadId)
    requires IsRun(run) && j < |run| && th !in run[j].threads
    ensures !CommittedBefore(run, j, th)
  {
    if j > 0 {
      hide *;
      NotHereNext(run, j - 1, th);
      CommittedByNow(run, j - 1, th);
      NotHereNotCommitted(run, j - 1, th);
    }
  }

  lemma ThreadsOnlyArrive(s: Sys, step: Step, th: ThreadId)
    requires Enabled(s, step)
    ensures th in s.threads ==> th in Do(s, step).threads
  {
    hide Cached, NonceWindow.Check, Taken;
  }

  /** The client was sent 200 with this response by the execution itself. */
  predicate WasTold(pc: Pc, response: Response) {
    pc == Replied(response) || pc == Done(Processed(response)) || pc == Done(Unsaved(response))
  }

  /** A request that was told 200 and is over had its effect exactly when it was not the commit
      after the reply that failed. */
  lemma ToldMeansEffectIff(s: Sys, th: ThreadId, response: Response)
    requires Reachable(s) && th in s.threads && WasTold(s.threads[th].pc, response) && s.threads[th].pc.Done?
    ensures HasEffect(s, th) <==> s.threads[th].pc != Done(Unsaved(response))
  {
    hide Reachable, ProbesMatch;
    ReachableStories(s);
    var e := Effected(th, s.threads[th].request.key);
    if e in s.log {
      var j :| 0 <= j < |s.log| && s.log[j] == e;
      assert OwnEvent(s.threads, s.log[j]);
    }
  }

  predicate KeyHasEffect(s: Sys, k: Key) {
    exists i :: 0 <= i < |s.log| && s.log[i].Effected? && s.log[i].key == Some(k)
  }

  /** The one execution whose response is served for key k. */
  predicate StoredBy(log: seq<Event>, i: nat, k: Key, response: Response) {
    i < |log| && log[i].Finished? && log[i].key == Some(k) && log[i].response == response
  }

  /** What a cached reply is worth: exactly one execution stored it, and the effect it reports is
      in the database exactly when the commit of that one request succeeded. */
  lemma CachedReplyHasEffectIff(s: Sys, j: int, k: Key) returns (i: nat)
    requires Reachable(s) && 0 <= j < |s.log| && s.log[j].Served? && s.log[j].key == Some(k)
    ensures i < j && StoredBy(s.log, i, k, s.log[j].response)
    ensures forall m: nat | m < |s.log| && s.log[m].Finished? && s.log[m].key == Some(k) :: m == i
    ensures s.log[i].thread in s.threads
    ensures KeyHasEffect(s, k) <==> s.threads[s.log[i].thread].pc == Done(Processed(s.log[j].response))
  {
    CachedReplyIsTheStoredOne(s, j, k);
    var first :| 0 <= first < j && s.log[first].Finished? && s.log[first].key == Some(k);
    i := first;
    hide Reachable;
    forall m: nat | m < |s.log| && s.log[m].Finished? && s.log[m].key == Some(k) ensures m == i {
      if m < i {
        NothingAfterSuccess(s, m, i, k);
      } else if i < m {
        NothingAfterSuccess(s, i, m, k);
      }
    }
    EffectMeansProcessed(s, i);
    EffectBelongsToTheExecution(s, i, k);
  }

  lemma EffectBelongsToTheExecution(s: Sys, i: nat, k: Key)
    requires Reachable(s) && i < |s.log| && s.log[i].Finished? && s.log[i].key == Some(k)
    requires forall m: nat | m < |s.log| && s.log[m].Finished? && s.log[m].key == Some(k) :: m == i
    ensures KeyHasEffect(s, k) <==> Effected(s.log[i].thread, s.log[i].key) in s.log
  {
    if KeyHasEffect(s, k) {
      var e :| 0 <= e < |s.log| && s.log[e].Effected? && s.log[e].key == Some(k);
      ReachableInv(s);
      hide Reachable, StoreMatchesLog, HoldersMatchLog, EffectsMatchThreads;
      var a := EffectFollowsFinish(s.log, e);
    }
  }

  /** A run in which a request is told 200 and its own effect is never committed. */
  lemma RepliedWithoutEffect() returns (s: Sys)
    ensures Reachable(s) && At(s, 0, Done(Unsaved(Response(200, "done")))) && !HasEffect(s, 0)
  {
    hide Reachable, NonceWindow.After;
    s := RunningFirst();
    ReachStep(s, Complete(0, "done"));
    s := Do(s, Complete(0, "done"));
    ReachStep(s, SendReply(0));
    s := Do(s, SendReply(0));
    ReachStep(s, CommitError(0));
    s := Do(s, CommitError(0));
  }

  // ----------------------------------------------------------- a key that is lost

  /** Any states that may come next, one step at a time. */
  ghost predicate IsContinuation(cont: seq<Sys>, s: Sys) {
    cont != [] && cont[0] == s && forall i | 0 <= i < |cont| - 1 :: Next(cont[i], cont[i + 1])
  }

  predicate IsProcessing(s: Sys, k: Key) {
    k in s.records && s.records[k].status.Processing?
  }

  predicate WasAbandoned(s: Sys, th: ThreadId, k: Key) {
    At(s, th, Done(Abandoned)) && s.threads[th].request.key == Some(k)
  }

  ghost predicate LockedForGood(s: Sys, k: Key) {
    forall cont: seq<Sys> | IsContinuation(cont, s) :: IsProcessing(cont[|cont| - 1], k)
  }

  lemma {:induction false} AbandonedForEver(cont: seq<Sys>, s: Sys, j: nat, th: ThreadId, k: Key)
    requires Reachable(s) && IsContinuation(cont, s) && j < |cont| && WasAbandoned(s, th, k)
    ensures Reachable(cont[j]) && WasAbandoned(cont[j], th, k)
  {
    if j > 0 {
      AbandonedForEver(cont, s, j - 1, th, k);
      assert Next(cont[j - 1], cont[j - 1 + 1]);
      hide Reachable, Do, Enabled;
      var step :| Enabled(cont[j - 1], step) && cont[j] == Do(cont[j - 1], step);
      ReachStep(cont[j - 1], step);
      AbandonedStays(cont[j - 1], step, th);
    }
  }

  /** In every reachable state a key is locked for good, whatever comes next, exactly when an
      execution under it was cancelled. */
  lemma LockedForGoodIffAbandoned(s: Sys, k: Key)
    requires Reachable(s)
    ensures LockedForGood(s, k) <==> exists th :: WasAbandoned(s, th, k)
  {
    if th :| WasAbandoned(s, th, k) {
      forall cont: seq<Sys> | IsContinuation(cont, s) ensures IsProcessing(cont[|cont| - 1], k) {
        AbandonedForEver(cont, s, |cont| - 1, th, k);
        hide Reachable, IsContinuation;
        assert Holds(cont[|cont| - 1].threads, th, k);
        ProcessingMeansOneOwner(cont[|cont| - 1], k);
      }
    } else if LockedForGood(s, k) {
      assert IsContinuation([s], s) && [s][|[s]| - 1] == s;
      ProcessingMeansOneOwner(s, k);
      var th :| Holds(s.threads, th, k);
      assert !WasAbandoned(s, th, k);
      FailingFrees(s, th, k);
    }
  }

  lemma FailingFrees(s: Sys, th: ThreadId, k: Key)
    requires Reachable(s) && At(s, th, Running) && s.threads[th].request.key == Some(k)
    ensures !LockedForGood(s, k)
  {
    var s' := Do(s, Fail(th));
    assert Next(s, s') by {
      assert Enabled(s, Fail(th));
    }
    assert IsContinuation([s, s'], s) && [s, s'][|[s, s']| - 1] == s';
  }

  /** The first request of all, executing under key "k". */
  lemma RunningFirst() returns (s: Sys)
    ensures Reachable(s) && s.threads == map[0 := Thread(Request(Some("k"), NonceWindow.Seconds(0), "n"), Running)]
    ensures s.records == map["k" := Record(Processing, Blank)] && s.log == [Began(0, Some("k"))]
    ensures s.clock == 0 && s.nonces.Keys == {"n"}
  {
    hide Reachable, NonceWindow.After;
    InitReachable();
    s := Init;
    var r := Request(Some("k"), NonceWindow.Seconds(0), "n");
    ReachStep(s, Arrive(0, r));
    s := Do(s, Arrive(0, r));
    ReachStep(s, LookUp(0));
    s := Do(s, LookUp(0));
    ReachStep(s, CheckNonce(0));
    s := Do(s, CheckNonce(0));
    assert At(s, 0, Checked);
    ReachStep(s, Acquire(0));
    s := Do(s, Acquire(0));
  }

  /** It happens: the first request is cancelled while executing, and a retry with a fresh nonce
      is told that the request is still in progress. */
  lemma CancelledKeyRefusesRetries() returns (s: Sys)
    ensures Reachable(s) && WasAbandoned(s, 0, "k") && IsProcessing(s, "k") && LockedForGood(s, "k")
    ensures At(s, 1, Done(Conflict)) && s.threads[1].request == Request(Some("k"), NonceWindow.Seconds(0), "m")
  {
    hide Reachable, LockedForGood;
    s := RunningFirst();
    ReachStep(s, Cancel(0));
    s := Do(s, Cancel(0));
    s := RetryIsRefused(s);
    LockedForGoodIffAbandoned(s, "k");
  }

  lemma RetryIsRefused(s: Sys) returns (s': Sys)
    requires Reachable(s) && s.threads.Keys == {0} && WasAbandoned(s, 0, "k")
    requires s.records == map["k" := Record(Processing, Blank)] && s.clock == 0 && s.nonces.Keys == {"n"}
    ensures Reachable(s') && WasAbandoned(s', 0, "k") && s'.records == s.records
    ensures At(s', 1, Done(Conflict)) && s'.threads[1].request == Request(Some("k"), NonceWindow.Seconds(0), "m")
  {
    hide Reachable, NonceChecked;
    var r := Request(Some("k"), NonceWindow.Seconds(0), "m");
    s' := RetryLooksUp(s, r);
    FreshNonceIsAccepted(s', 1);
    ReachStep(s', CheckNonce(1));
    s' := Do(s', CheckNonce(1));
    s' := RetryMeetsTheLock(s', r);
  }

  lemma RetryLooksUp(s: Sys, r: Request) returns (s': Sys)
    requires Reachable(s) && 1 !in s.threads && r.key == Some("k")
    requires s.records == map["k" := Record(Processing, Blank)]
    ensures Reachable(s') && s' == s.(threads := s.threads[1 := Thread(r, Missed)])
  {
    hide Reachable;
    ReachStep(s, Arrive(1, r));
    s' := Do(s, Arrive(1, r));
    ReachStep(s', LookUp(1));
    s' := Do(s', LookUp(1));
  }

  lemma RetryMeetsTheLock(s: Sys, r: Request) returns (s': Sys)
    requires Reachable(s) && At(s, 1, Checked) && s.threads[1].request == r && r.key == Some("k")
    requires s.records == map["k" := Record(Processing, Blank)]
    ensures Reachable(s') && s' == s.(threads := s.threads[1 := Thread(r, Done(Conflict))])
  {
    hide Reachable;
    ReachStep(s, Acquire(1));
    s' := Do(s, Acquire(1));
    ReachStep(s', LookAgain(1));
    s' := Do(s', LookAgain(1));
  }

  lemma FreshNonceIsAccepted(s: Sys, th: ThreadId)
    requires At(s, th, Missed) && s.threads[th].request.timestamp == NonceWindow.Seconds(0) && s.clock == 0
    requires s.threads[th].request.nonce == "m" && s.nonces.Keys == {"n"}
    ensures NonceChecked(s, th).threads == s.threads[th := s.threads[th].(pc := Checked)]
    ensures NonceChecked(s, th).records == s.records
  {
  }
}
