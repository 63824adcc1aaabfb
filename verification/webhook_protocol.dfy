/** In every interleaving of webhook requests: one execution per key at a time, none after
    the first success, and one stored response for everybody. */
module WebhookProtocol {
  import opened Options
  import opened Idempotency
  import opened Webhook
  import NonceWindow

  // ---------------------------------------------------------------- invariants

  /** The store says about every key what the log says. */
  ghost predicate StoreMatchesLog(records: Records, log: seq<Event>) {
    forall k: Key ::
      && (k in records && records[k].status.Processing? <==> Executing(log, k).Some?)
      && Cached(records, k) == ResponseOf(log, k)
      && (k in records ==> !records[k].status.Failed?)
  }

  /** Whoever executes under a key, according to the log, is running or was cancelled while
      running, and nobody else is. */
  ghost predicate HoldersMatchLog(threads: map<ThreadId, Thread>, log: seq<Event>) {
    && (forall k: Key :: Executing(log, k).Some? ==> Holds(threads, Executing(log, k).value, k))
    && (forall th: ThreadId, k: Key | Holds(threads, th, k) :: Executing(log, k) == Some(th))
  }

  predicate Holds(threads: map<ThreadId, Thread>, th: ThreadId, k: Key) {
    && th in threads
    && threads[th].request.key == Some(k)
    && (threads[th].pc == Running || threads[th].pc == Done(Abandoned))
  }

  /** A request between storing its response and committing is in the log as finished and has
      had no effect yet; one that never finished has had none either. */
  ghost predicate EffectsMatchThreads(threads: map<ThreadId, Thread>, log: seq<Event>) {
    && (forall th | th in threads && IsOpen(threads[th].pc) ::
          FinishedIn(log, th, threads[th].request.key, threads[th].pc.response))
    && (forall i | 0 <= i < |log| && log[i].Effected? ::
          log[i].thread in threads && threads[log[i].thread].pc.Done? && threads[log[i].thread].pc.reply.Processed?)
  }

  ghost predicate FinishedIn(log: seq<Event>, th: ThreadId, key: Option<Key>, response: Response) {
    exists i :: 0 <= i < |log| && log[i] == Finished(th, key, response)
  }

  function Begun(log: seq<Event>): nat {
    if log == [] then 0 else Begun(log[..|log| - 1]) + if log[|log| - 1].Began? then 1 else 0
  }

  ghost predicate Inv(s: Sys) {
    && WellFormed(s.log)
    && StoreMatchesLog(s.records, s.log)
    && HoldersMatchLog(s.threads, s.log)
    && EffectsMatchThreads(s.threads, s.log)
    && s.executions == Begun(s.log)
  }

  // ---------------------------------------------------------------- appending

  function ExecutingAfter(log: seq<Event>, e: Event, k: Key): Option<ThreadId> {
    if e.Began? && e.key == Some(k) then Some(e.thread)
    else if (e.Finished? || e.Broke?) && e.key == Some(k) then None
    else Executing(log, k)
  }

  lemma Append(log: seq<Event>, e: Event, k: Key)
    ensures ResponseOf(log + [e], k) == if e.Finished? && e.key == Some(k) then Some(e.response) else ResponseOf(log, k)
    ensures Executing(log + [e], k) == ExecutingAfter(log, e, k)
    ensures Begun(log + [e]) == Begun(log) + if e.Began? then 1 else 0
  {
    assert (log + [e])[..|log|] == log;
  }

  lemma AppendAll(log: seq<Event>, e: Event)
    ensures forall k: Key :: ResponseOf(log + [e], k) == if e.Finished? && e.key == Some(k) then Some(e.response) else ResponseOf(log, k)
    ensures forall k: Key :: Executing(log + [e], k) == ExecutingAfter(log, e, k)
    ensures Begun(log + [e]) == Begun(log) + if e.Began? then 1 else 0
  {
    forall k: Key {
      Append(log, e, k);
    }
    Append(log, e, "");
  }

  lemma AppendWellFormed(log: seq<Event>, e: Event)
    requires WellFormed(log) && Follows(log, e)
    ensures WellFormed(log + [e])
  {
    hide Follows;
    var log' := log + [e];
    forall i | 0 <= i < |log'| ensures Follows(log'[..i], log'[i]) {
      assert log'[..i] == log[..i];
      if i == |log| {
        assert log[..i] == log;
      }
    }
  }

  lemma FinishedInGrows(log: seq<Event>, e: Event)
    ensures forall th, key, response | FinishedIn(log, th, key, response) :: FinishedIn(log + [e], th, key, response)
  {
    forall th, key, response | FinishedIn(log, th, key, response) ensures FinishedIn(log + [e], th, key, response) {
      var i :| 0 <= i < |log| && log[i] == Finished(th, key, response);
      assert (log + [e])[i] == Finished(th, key, response);
    }
  }

  // -------------------------------------------------------------------- steps

  /** A step that logs nothing and leaves the store alone. */
  lemma QuietStep(s: Sys, th: ThreadId, pc: Pc)
    requires Inv(s) && th in s.threads && !s.threads[th].pc.Done?
    requires !pc.Committing? && (pc.Replied? ==> s.threads[th].pc == Committing(pc.response)) && pc != Running
    requires s.threads[th].pc == Running <==> pc == Done(Abandoned)
    ensures Inv(Put(s, th, pc))
  {
    hide WellFormed, StoreMatchesLog, FinishedIn, Executing, Begun;
    var s' := Put(s, th, pc);
    forall i | 0 <= i < |s.log| && s.log[i].Effected? ensures s.log[i].thread != th {
    }
    assert HoldersMatchLog(s'.threads, s'.log);
    assert EffectsMatchThreads(s'.threads, s'.log);
  }

  lemma LookUpKeepsInv(s: Sys, th: ThreadId, otherwise: Pc)
    requires Inv(s) && th in s.threads && (s.threads[th].pc == Received || s.threads[th].pc == Contended)
    requires otherwise == Missed || otherwise == Done(Conflict)
    ensures Inv(LookedUp(s, th, otherwise))
  {
    var key := s.threads[th].request.key;
    if key.Some? && Cached(s.records, key.value).Some? {
      var response := Cached(s.records, key.value).value;
      var e := Served(th, key, response);
      assert Follows(s.log, e);
      LoggedMove(s, th, Done(FromCache(response)), e, s.records);
    } else {
      QuietStep(s, th, otherwise);
    }
  }

  /** A step that logs one event: the pieces of the invariant follow from what the event is. */
  lemma LoggedMove(s: Sys, th: ThreadId, pc: Pc, e: Event, records: Records)
    requires Inv(s) && th in s.threads && !s.threads[th].pc.Done? && e.thread == th
    requires Follows(s.log, e)
    requires e.key == s.threads[th].request.key
    requires match e
      case Began(_, _) => pc == Running && s.threads[th].pc != Running && !IsOpen(s.threads[th].pc)
      case Finished(_, _, response) => pc == Committing(response) && s.threads[th].pc == Running
      case Broke(_, _) => pc == Done(ServerError) && s.threads[th].pc == Running
      case Served(_, _, _) => pc.Done? && pc.reply.FromCache? && s.threads[th].pc != Running && !IsOpen(s.threads[th].pc)
      case Effected(_, _) => pc.Done? && pc.reply.Processed? && IsOpen(s.threads[th].pc)
    requires StoreMatchesLog(records, s.log + [e])
    ensures Inv(Log(Put(s, th, pc), e).(records := records, executions := s.executions + if e.Began? then 1 else 0))
  {
    AppendWellFormed(s.log, e);
    AppendAll(s.log, e);
    var threads := s.threads[th := s.threads[th].(pc := pc)];
    HoldersAfter(s, th, pc, e);
    EffectsAfter(s, th, pc, e);
  }

  lemma HoldersAfter(s: Sys, th: ThreadId, pc: Pc, e: Event)
    requires HoldersMatchLog(s.threads, s.log) && th in s.threads && !s.threads[th].pc.Done? && e.thread == th
    requires e.key == s.threads[th].request.key
    requires Follows(s.log, e)
    requires (e.Began? <==> pc == Running) && pc != Done(Abandoned)
    requires s.threads[th].pc == Running <==> e.Finished? || e.Broke?
    ensures HoldersMatchLog(s.threads[th := s.threads[th].(pc := pc)], s.log + [e])
  {
    hide Executing;
    AppendAll(s.log, e);
  }

  lemma EffectsAfter(s: Sys, th: ThreadId, pc: Pc, e: Event)
    requires EffectsMatchThreads(s.threads, s.log) && th in s.threads && !s.threads[th].pc.Done? && e.thread == th
    requires (pc.Committing? <==> e.Finished?) && !pc.Replied?
    requires e.Finished? ==> pc == Committing(e.response) && e.key == s.threads[th].request.key
    requires e.Effected? ==> pc.Done? && pc.reply.Processed?
    ensures EffectsMatchThreads(s.threads[th := s.threads[th].(pc := pc)], s.log + [e])
  {
    hide FinishedIn;
    FinishedInGrows(s.log, e);
    if e.Finished? {
      LastIsFinished(s.log, e);
    }
  }

  lemma LastIsFinished(log: seq<Event>, e: Event)
    requires e.Finished?
    ensures FinishedIn(log + [e], e.thread, e.key, e.response)
  {
    assert (log + [e])[|log|] == e;
  }

  lemma StartMatchesLog(records: Records, log: seq<Event>, th: ThreadId, key: Key)
    requires StoreMatchesLog(records, log) && !Taken(records, key)
    ensures Follows(log, Began(th, Some(key)))
    ensures StoreMatchesLog(Started(records, key), log + [Began(th, Some(key))])
  {
    hide Executing, ResponseOf;
    AppendAll(log, Began(th, Some(key)));
  }

  lemma KeylessStartMatchesLog(records: Records, log: seq<Event>, th: ThreadId)
    requires StoreMatchesLog(records, log)
    ensures StoreMatchesLog(records, log + [Began(th, None)])
  {
    hide Executing, ResponseOf;
    AppendAll(log, Began(th, None));
  }

  lemma AcquireKeepsInv(s: Sys, th: ThreadId)
    requires Inv(s) && At(s, th, Checked)
    ensures Inv(Acquired(s, th))
  {
    hide StoreMatchesLog, Executing, ResponseOf, WellFormed, Started;
    var key := s.threads[th].request.key;
    if key.Some? && Taken(s.records, key.value) {
      QuietStep(s, th, Contended);
    } else if key.Some? {
      StartMatchesLog(s.records, s.log, th, key.value);
      LoggedMove(s, th, Running, Began(th, key), Started(s.records, key.value));
    } else {
      KeylessStartMatchesLog(s.records, s.log, th);
      LoggedMove(s, th, Running, Began(th, key), s.records);
    }
  }

  /** A running execution owns its key: the store says PROCESSING and the log has no response. */
  lemma RunningOwns(s: Sys, th: ThreadId, key: Key)
    requires Inv(s) && At(s, th, Running) && s.threads[th].request.key == Some(key)
    ensures Executing(s.log, key) == Some(th) && ResponseOf(s.log, key).None?
    ensures key in s.records && s.records[key].status.Processing?
  {
    hide Executing, ResponseOf, WellFormed;
    assert Holds(s.threads, th, key);
    assert Cached(s.records, key) == ResponseOf(s.log, key);
  }

  lemma StopMatchesLog(records: Records, log: seq<Event>, e: Event)
    requires StoreMatchesLog(records, log) && (e.Finished? || e.Broke?)
    requires e.key.Some? ==> e.key.value in records && records[e.key.value].status.Processing?
    ensures StoreMatchesLog(
        if e.key.None? then records else if e.Finished? then Stored(records, e.key.value, e.response) else Released(records, e.key.value),
        log + [e])
  {
    hide Executing, ResponseOf;
    AppendAll(log, e);
  }

  lemma CompleteKeepsInv(s: Sys, th: ThreadId, body: Body)
    requires Inv(s) && At(s, th, Running)
    ensures Inv(Do(s, Complete(th, body)))
  {
    hide Inv;
    var key := s.threads[th].request.key;
    var e := Finished(th, key, Response(200, body));
    StopKeepsInv(s, th, Committing(e.response), e, if key.Some? then Stored(s.records, key.value, e.response) else s.records);
  }

  lemma FailKeepsInv(s: Sys, th: ThreadId)
    requires Inv(s) && At(s, th, Running)
    ensures Inv(Do(s, Fail(th)))
  {
    hide Inv;
    var key := s.threads[th].request.key;
    StopKeepsInv(s, th, Done(ServerError), Broke(th, key), if key.Some? then Released(s.records, key.value) else s.records);
  }

  lemma StopKeepsInv(s: Sys, th: ThreadId, pc: Pc, e: Event, records: Records)
    requires Inv(s) && At(s, th, Running) && e.thread == th && e.key == s.threads[th].request.key
    requires match e
      case Finished(_, _, response) => pc == Committing(response) && records == (if e.key.Some? then Stored(s.records, e.key.value, response) else s.records)
      case Broke(_, _) => pc == Done(ServerError) && records == (if e.key.Some? then Released(s.records, e.key.value) else s.records)
      case _ => false
    ensures Inv(Log(Put(s, th, pc), e).(records := records))
  {
    hide StoreMatchesLog, Executing, ResponseOf, WellFormed, Stored, Released;
    if e.key.Some? {
      RunningOwns(s, th, e.key.value);
    }
    StopMatchesLog(s.records, s.log, e);
    LoggedMove(s, th, pc, e, records);
  }

  lemma CommitKeepsInv(s: Sys, th: ThreadId)
    requires Inv(s) && Enabled(s, CommitWork(th))
    ensures Inv(Do(s, CommitWork(th)))
  {
    var e := Effected(th, s.threads[th].request.key);
    AppendAll(s.log, e);
    assert FinishedIn(s.log, th, e.key, s.threads[th].pc.response);
    assert Follows(s.log, e);
    LoggedMove(s, th, Done(Processed(s.threads[th].pc.response)), e, s.records);
  }

  lemma ArriveKeepsInv(s: Sys, th: ThreadId, request: Request)
    requires Inv(s) && th !in s.threads
    ensures Inv(s.(threads := s.threads[th := Thread(request, Received)]))
  {
    hide WellFormed, StoreMatchesLog, FinishedIn, Executing, Begun;
  }

  lemma StepKeepsInv(s: Sys, step: Step)
    requires Inv(s) && Enabled(s, step)
    ensures Inv(Do(s, step))
  {
    match step
    case Tick(later) =>
    case Arrive(th, request) => ArriveKeepsInv(s, th, request);
    case LookUp(th) => LookUpKeepsInv(s, th, Missed);
    case CheckNonce(th) => CheckKeepsInv(s, th);
    case Acquire(th) => AcquireKeepsInv(s, th);
    case LookAgain(th) => LookUpKeepsInv(s, th, Done(Conflict));
    case Complete(th, body) => CompleteKeepsInv(s, th, body);
    case Fail(th) => FailKeepsInv(s, th);
    case CommitWork(th) => CommitKeepsInv(s, th);
    case SendReply(th) => QuietStep(s, th, Replied(s.threads[th].pc.response));
    case CommitError(th) => QuietStep(s, th, Do(s, step).threads[th].pc);
    case Cancel(th) => QuietStep(s, th, Do(s, step).threads[th].pc);
  }

  lemma CheckKeepsInv(s: Sys, th: ThreadId)
    requires Inv(s) && At(s, th, Missed)
    ensures Inv(NonceChecked(s, th))
  {
    hide Inv;
    var s' := NonceChecked(s, th);
    QuietStep(s, th, s'.threads[th].pc);
    IgnoresNonces(Put(s, th, s'.threads[th].pc), s');
  }

  lemma IgnoresNonces(s: Sys, s': Sys)
    requires Inv(s) && s' == s.(nonces := s'.nonces, probes := s'.probes)
    ensures Inv(s')
  {
  }

  lemma {:induction false} RunKeepsInv(run: seq<Sys>, i: int)
    requires IsRun(run) && 0 <= i < |run|
    ensures Inv(run[i])
  {
    if i > 0 {
      hide Inv, Do, Enabled;
      RunKeepsInv(run, i - 1);
      assert Next(run[i - 1], run[i - 1 + 1]);
      var step :| Enabled(run[i - 1], step) && run[i] == Do(run[i - 1], step);
      StepKeepsInv(run[i - 1], step);
    }
  }

  lemma ReachableInv(s: Sys)
    requires Reachable(s)
    ensures Inv(s)
  {
    hide Inv;
    var run :| IsRun(run) && run[|run| - 1] == s;
    RunKeepsInv(run, |run| - 1);
  }
}
