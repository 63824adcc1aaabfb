/** The webhook's promises, read off every state of every interleaved run. */
module WebhookGuarantees {
  import opened Options
  import opened Idempotency
  import opened Webhook
  import opened WebhookProtocol
  import opened WebhookStories
  import NonceWindow

  // ------------------------------------------------------------- reading a log

  lemma PrefixStep(log: seq<Event>, i: int, k: Key)
    requires 0 <= i < |log|
    ensures ResponseOf(log[..i + 1], k) == if log[i].Finished? && log[i].key == Some(k) then Some(log[i].response) else ResponseOf(log[..i], k)
    ensures Executing(log[..i + 1], k) == ExecutingAfter(log[..i], log[i], k)
  {
    assert log[..i + 1] == log[..i] + [log[i]];
    Append(log[..i], log[i], k);
  }

  /** The first stored response is the response from then on. */
  lemma {:induction false} ResponseStays(log: seq<Event>, i: int, j: int, k: Key)
    requires WellFormed(log) && 0 <= i <= j <= |log| && ResponseOf(log[..i], k).Some?
    ensures ResponseOf(log[..j], k) == ResponseOf(log[..i], k)
    decreases j
  {
    if i < j {
      ResponseStays(log, i, j - 1, k);
      PrefixStep(log, j - 1, k);
      assert Follows(log[..j - 1], log[j - 1]);
    }
  }

  ghost predicate BrokeBetween(log: seq<Event>, i: int, j: int, th: ThreadId, k: Key) {
    exists m :: i < m < j && 0 <= m < |log| && log[m] == Broke(th, Some(k))
  }

  lemma {:induction false} ExecutionLasts(log: seq<Event>, i: int, j: int, k: Key)
    requires WellFormed(log) && 0 <= i < j <= |log| && log[i].Began? && log[i].key == Some(k)
    requires ResponseOf(log[..j], k).None?
    ensures Executing(log[..j], k) == Some(log[i].thread) || BrokeBetween(log, i, j, log[i].thread, k)
    decreases j
  {
    PrefixStep(log, j - 1, k);
    if i + 1 < j {
      if ResponseOf(log[..j - 1], k).Some? {
        ResponseStays(log, j - 1, j, k);
      }
      ExecutionLasts(log, i, j - 1, k);
      assert Follows(log[..j - 1], log[j - 1]);
      if BrokeBetween(log, i, j - 1, log[i].thread, k) {
        var m :| i < m < j - 1 && 0 <= m < |log| && log[m] == Broke(log[i].thread, Some(k));
        assert BrokeBetween(log, i, j, log[i].thread, k);
      } else if log[j - 1].Broke? && log[j - 1].key == Some(k) {
        assert log[j - 1] == Broke(log[i].thread, Some(k));
      }
    }
  }

  /** The business logic for a key is never run twice at once: before it begins again, the
      earlier execution failed and released the key. */
  lemma OneExecutionAtATime(s: Sys, i: int, j: int, k: Key)
    requires Reachable(s) && 0 <= i < j < |s.log|
    requires s.log[i].Began? && s.log[i].key == Some(k) && s.log[j].Began? && s.log[j].key == Some(k)
    ensures BrokeBetween(s.log, i, j, s.log[i].thread, k)
  {
    hide Reachable, StoreMatchesLog, HoldersMatchLog, EffectsMatchThreads;
    ReachableInv(s);
    assert Follows(s.log[..j], s.log[j]);
    ExecutionLasts(s.log, i, j, k);
  }

  /** After an execution for a key finished, none ever begins, finishes or fails again. */
  lemma NothingAfterSuccess(s: Sys, i: int, j: int, k: Key)
    requires Reachable(s) && 0 <= i < j < |s.log|
    requires s.log[i].Finished? && s.log[i].key == Some(k)
    ensures s.log[j].key == Some(k) ==> s.log[j].Served? || s.log[j].Effected?
  {
    hide Reachable, StoreMatchesLog, HoldersMatchLog, EffectsMatchThreads;
    ReachableInv(s);
    PrefixStep(s.log, i, k);
    ResponseStays(s.log, i + 1, j, k);
    assert Follows(s.log[..j], s.log[j]);
  }

  lemma {:induction false} StoredSomewhere(log: seq<Event>, n: int, k: Key)
    requires 0 <= n <= |log| && ResponseOf(log[..n], k).Some?
    ensures exists i :: 0 <= i < n && log[i].Finished? && log[i].key == Some(k) && ResponseOf(log[..n], k) == Some(log[i].response)
  {
    PrefixStep(log, n - 1, k);
    if !(log[n - 1].Finished? && log[n - 1].key == Some(k)) {
      StoredSomewhere(log, n - 1, k);
    }
  }

  /** Every reply from the cache is the one response ever stored for its key, and the store
      still holds it. */
  lemma CachedReplyIsTheStoredOne(s: Sys, j: int, k: Key)
    requires Reachable(s) && 0 <= j < |s.log| && s.log[j].Served? && s.log[j].key == Some(k)
    ensures exists i :: 0 <= i < j && s.log[i].Finished? && s.log[i].key == Some(k)
    ensures forall i | 0 <= i < |s.log| && s.log[i].Finished? && s.log[i].key == Some(k) :: i < j && s.log[i].response == s.log[j].response
    ensures Cached(s.records, k) == Some(s.log[j].response)
  {
    hide Reachable, HoldersMatchLog, EffectsMatchThreads;
    ReachableInv(s);
    assert Follows(s.log[..j], s.log[j]);
    StoredSomewhere(s.log, j, k);
    ResponseStays(s.log, j, |s.log|, k);
    assert s.log[..|s.log|] == s.log;
    forall i | 0 <= i < |s.log| && s.log[i].Finished? && s.log[i].key == Some(k)
      ensures i < j && s.log[i].response == s.log[j].response
    {
      PrefixStep(s.log, i, k);
      ResponseStays(s.log, i + 1, |s.log|, k);
      var first :| 0 <= first < j && s.log[first].Finished? && s.log[first].key == Some(k);
      if first < i {
        NothingAfterSuccess(s, first, i, k);
      }
    }
  }

  // ------------------------------------------------------------- the key lock

  /** A PROCESSING record exists for a key exactly while one request owns it: it is executing,
      or it was cancelled while executing and never released the key. */
  lemma ProcessingMeansOneOwner(s: Sys, k: Key)
    requires Reachable(s)
    ensures k in s.records && s.records[k].status.Processing? <==> exists th :: Holds(s.threads, th, k)
    ensures forall a, b | Holds(s.threads, a, k) && Holds(s.threads, b, k) :: a == b
    ensures k in s.records ==> s.records[k].status != Status.Failed
  {
    hide Reachable, WellFormed, EffectsMatchThreads;
    ReachableInv(s);
    if Executing(s.log, k).Some? {
      assert Holds(s.threads, Executing(s.log, k).value, k);
    }
  }

  lemma AbandonedStays(s: Sys, step: Step, th: ThreadId)
    requires Enabled(s, step) && At(s, th, Done(Abandoned))
    ensures At(Do(s, step), th, Done(Abandoned)) && Do(s, step).threads[th].request == s.threads[th].request
  {
  }

  /** A cancelled execution locks its key for good: in every later state the key is still
      PROCESSING, so no later request is ever processed or served from the cache. */
  lemma {:induction false} CancelledExecutionLocksKey(run: seq<Sys>, i: int, j: int, th: ThreadId, k: Key)
    requires IsRun(run) && 0 <= i <= j < |run|
    requires At(run[i], th, Done(Abandoned)) && run[i].threads[th].request.key == Some(k)
    ensures At(run[j], th, Done(Abandoned)) && run[j].threads[th].request.key == Some(k)
    ensures k in run[j].records && run[j].records[k].status.Processing?
    ensures forall e | 0 <= e < |run[j].log| && run[j].log[e].key == Some(k) :: !run[j].log[e].Served? && !run[j].log[e].Finished?
    decreases j
  {
    if i < j {
      hide Do, Enabled;
      CancelledExecutionLocksKey(run, i, j - 1, th, k);
      assert Next(run[j - 1], run[j - 1 + 1]);
      var step :| Enabled(run[j - 1], step) && run[j] == Do(run[j - 1], step);
      AbandonedStays(run[j - 1], step, th);
    }
    LockedKeyHasNoResponse(run, j, th, k);
  }

  lemma LockedKeyHasNoResponse(run: seq<Sys>, j: int, th: ThreadId, k: Key)
    requires IsRun(run) && 0 <= j < |run| && At(run[j], th, Done(Abandoned)) && run[j].threads[th].request.key == Some(k)
    ensures k in run[j].records && run[j].records[k].status.Processing?
    ensures forall e | 0 <= e < |run[j].log| && run[j].log[e].key == Some(k) :: !run[j].log[e].Served? && !run[j].log[e].Finished?
  {
    hide IsRun, EffectsMatchThreads;
    RunKeepsInv(run, j);
    var log := run[j].log;
    assert Holds(run[j].threads, th, k);
    assert Cached(run[j].records, k).None?;
    forall e | 0 <= e < |log| && log[e].key == Some(k) ensures !log[e].Served? && !log[e].Finished? {
      assert log[..|log|] == log;
      assert Follows(log[..e], log[e]);
      if log[e].Finished? {
        PrefixStep(log, e, k);
        ResponseStays(log, e + 1, |log|, k);
      } else if log[e].Served? {
        ResponseStays(log, e, |log|, k);
      }
    }
  }

  // ----------------------------------------------------------------- effects

  /** The database effect of a keyed webhook is committed at most once. */
  lemma EffectAtMostOnce(s: Sys, i: int, j: int, k: Key)
    requires Reachable(s) && 0 <= i < j < |s.log|
    requires s.log[i].Effected? && s.log[i].key == Some(k)
    ensures !(s.log[j].Effected? && s.log[j].key == Some(k))
  {
    hide Reachable, StoreMatchesLog, HoldersMatchLog, EffectsMatchThreads;
    ReachableInv(s);
    if s.log[j].Effected? && s.log[j].key == Some(k) {
      var a := EffectFollowsFinish(s.log, i);
      var b := EffectFollowsFinish(s.log, j);
      if a < b {
        NothingAfterSuccess(s, a, b, k);
      } else if b < a {
        NothingAfterSuccess(s, b, a, k);
      }
    }
  }

  lemma EffectFollowsFinish(log: seq<Event>, i: int) returns (a: int)
    requires WellFormed(log) && 0 <= i < |log| && log[i].Effected?
    ensures 0 <= a < i && log[a].Finished? && log[a].thread == log[i].thread && log[a].key == log[i].key
  {
    assert Follows(log[..i], log[i]);
    var m, response :| 0 <= m < i && log[..i][m] == Finished(log[i].thread, log[i].key, response);
    a := m;
  }

  /** Whether the effect of a finished execution was committed is exactly whether its request
      was answered as processed. */
  lemma EffectMeansProcessed(s: Sys, i: int)
    requires Reachable(s) && 0 <= i < |s.log| && s.log[i].Finished?
    ensures s.log[i].thread in s.threads
    ensures Effected(s.log[i].thread, s.log[i].key) in s.log <==>
      s.threads[s.log[i].thread].pc == Done(Processed(s.log[i].response))
  {
    hide Reachable, ProbesMatch;
    ReachableStories(s);
    var e := Effected(s.log[i].thread, s.log[i].key);
    assert OwnEvent(s.threads, s.log[i]);
    if e in s.log {
      var j :| 0 <= j < |s.log| && s.log[j] == e;
      assert OwnEvent(s.threads, s.log[j]);
    }
  }

  /** One pair of timestamp and nonce starts at most one execution, whatever keys the requests
      name. */
  lemma OneExecutionPerStampedNonce(s: Sys, i: int, j: int)
    requires Reachable(s) && 0 <= i < j < |s.log| && s.log[i].Began? && s.log[j].Began?
    ensures s.log[i].thread in s.threads && s.log[j].thread in s.threads
    ensures var a, b := s.threads[s.log[i].thread].request, s.threads[s.log[j].thread].request;
      a.nonce == b.nonce ==> a.timestamp != b.timestamp
  {
    hide Reachable, NonceWindow.AcceptedAt, NonceWindow.After, NonceWindow.Ordered;
    ReachableStories(s);
    var a :| 0 <= a < |s.probes| && s.probes[a].thread == s.log[i].thread && PassedAt(s.probes, a);
    var b :| 0 <= b < |s.probes| && s.probes[b].thread == s.log[j].thread && PassedAt(s.probes, b);
    assert OwnProbe(s.threads, s.probes[a]) && OwnProbe(s.threads, s.probes[b]);
    assert s.probes[a].thread != s.probes[b].thread;
    var cs := Checks(s.probes);
    if cs[a].nonce == cs[b].nonce {
      if a < b {
        NonceWindow.WebhookPairAcceptedOnce(TOLERANCE, cs, a, b);
      } else {
        NonceWindow.WebhookPairAcceptedOnce(TOLERANCE, cs, b, a);
      }
    }
  }

  // --------------------------------------------------------- a lost effect

  lemma ReachStep(s: Sys, step: Step)
    requires Reachable(s) && Enabled(s, step)
    ensures Reachable(Do(s, step))
  {
    hide Do, Enabled;
    var run :| IsRun(run) && run[|run| - 1] == s;
    var run' := run + [Do(s, step)];
    forall i | 0 <= i < |run'| - 1 ensures Next(run'[i], run'[i + 1]) {
      if i < |run| - 1 {
        assert Next(run[i], run[i + 1]);
      }
    }
    assert IsRun(run') && run'[|run'| - 1] == Do(s, step);
  }

  lemma InitReachable()
    ensures Reachable(Init)
  {
    assert IsRun([Init]) && [Init][|[Init]| - 1] == Init;
  }

  /** One request runs its business logic to the end, and its database commit fails. */
  lemma CommitCanFail() returns (s: Sys)
    ensures Reachable(s) && s.log == [Began(0, Some("k")), Finished(0, Some("k"), Response(200, "done"))]
    ensures s.threads.Keys == {0} && s.records == map["k" := Record(Completed, Response(200, "done"))]
  {
    hide Reachable, NonceWindow.After;
    InitReachable();
    s := Init;
    var r := Request(Some("k"), NonceWindow.Seconds(0), "n");
    ReachStep(s, Arrive(0, r));
    s := Do(s, Arrive(0, r));
    ReachStep(s, LookUp(0));
    s := Do(s, LookUp(0));
    ReachStep(s, CheckNonce(0));
    s := Do(s, CheckNonce(0));
    assert At(s, 0, Checked);
    ReachStep(s, Acquire(0));
    s := Do(s, Acquire(0));
    assert s.log == [Began(0, Some("k"))] && s.records == map["k" := Record(Processing, Blank)];
    ReachStep(s, Complete(0, "done"));
    s := Do(s, Complete(0, "done"));
    ReachStep(s, CommitError(0));
    s := Do(s, CommitError(0));
  }

  /** A response can be stored and served although its effect was never committed: here the
      database commit fails after the response was stored, and a retry is told it was done. */
  lemma ServedWithoutEffect() returns (s: Sys)
    ensures Reachable(s)
    ensures Served(1, Some("k"), Response(200, "done")) in s.log
    ensures forall i | 0 <= i < |s.log| :: !s.log[i].Effected?
  {
    hide Reachable;
    s := CommitCanFail();
    var r := Request(Some("k"), NonceWindow.Seconds(0), "n");
    ReachStep(s, Arrive(1, r));
    s := Do(s, Arrive(1, r));
    ReachStep(s, LookUp(1));
    s := Do(s, LookUp(1));
    assert s.log[2] == Served(1, Some("k"), Response(200, "done"));
  }
}
