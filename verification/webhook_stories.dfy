/** What the log and the nonce probes say about each single webhook request. */
module WebhookStories {
  import opened Options
  import opened Idempotency
  import opened Webhook
  import NonceWindow

  // ------------------------------------------------------------------- events

  /** The program points at which a request can have caused an event. */
  predicate Explains(pc: Pc, e: Event) {
    match e
    case Began(_, _) => pc == Running || IsOpen(pc) || pc.Done?
    case Finished(_, _, response) =>
      || pc == Committing(response) || pc == Replied(response)
      || (pc.Done? && pc.reply in {Processed(response), Unsaved(response), ServerError, Dropped})
    case Broke(_, _) => pc == Done(ServerError)
    case Served(_, _, response) => pc == Done(FromCache(response))
    case Effected(_, _) => pc.Done? && pc.reply.Processed?
  }

  predicate OwnEvent(threads: map<ThreadId, Thread>, e: Event) {
    e.thread in threads && e.key == threads[e.thread].request.key && Explains(threads[e.thread].pc, e)
  }

  ghost predicate EventsMatch(threads: map<ThreadId, Thread>, log: seq<Event>) {
    && (forall i | 0 <= i < |log| :: OwnEvent(threads, log[i]))
    && (forall i, j | 0 <= i < j < |log| && log[i].Began? && log[j].Began? :: log[i].thread != log[j].thread)
    && (forall th | th in threads && threads[th].pc.Done? && threads[th].pc.reply.Processed? ::
          Effected(th, threads[th].request.key) in log)
  }

  // ------------------------------------------------------------------- probes

  function Checks(probes: seq<Probe>): seq<NonceWindow.Request> {
    seq(|probes|, i requires 0 <= i < |probes| => probes[i].check)
  }

  predicate PassedAt(probes: seq<Probe>, i: int) {
    NonceWindow.AcceptedAt(TOLERANCE, 2 * TOLERANCE, Checks(probes), i)
  }

  /** The request's timestamp and nonce were accepted by the nonce check. */
  ghost predicate Passed(probes: seq<Probe>, th: ThreadId) {
    exists i :: 0 <= i < |probes| && probes[i].thread == th && PassedAt(probes, i)
  }

  predicate OwnProbe(threads: map<ThreadId, Thread>, p: Probe) {
    && p.thread in threads
    && p.check.timestamp == threads[p.thread].request.timestamp && p.check.nonce == threads[p.thread].request.nonce
    && threads[p.thread].pc != Received && threads[p.thread].pc != Missed
  }

  predicate PastCheck(pc: Pc) {
    pc == Checked || pc == Contended || pc == Running || IsOpen(pc)
  }

  ghost predicate ProbesMatch(s: Sys) {
    && s.nonces == NonceWindow.After(TOLERANCE, 2 * TOLERANCE, Checks(s.probes))
    && NonceWindow.Ordered(Checks(s.probes))
    && (forall i | 0 <= i < |s.probes| :: s.probes[i].check.now <= s.clock && OwnProbe(s.threads, s.probes[i]))
    && (forall i, j | 0 <= i < j < |s.probes| :: s.probes[i].thread != s.probes[j].thread)
    && (forall th | th in s.threads && PastCheck(s.threads[th].pc) :: Passed(s.probes, th))
    && (forall i | 0 <= i < |s.log| && s.log[i].Began? :: Passed(s.probes, s.log[i].thread))
  }

  ghost predicate Stories(s: Sys) {
    EventsMatch(s.threads, s.log) && ProbesMatch(s)
  }

  // -------------------------------------------------------------------- steps

  lemma MoveKeepsEvents(threads: map<ThreadId, Thread>, log: seq<Event>, th: ThreadId, pc: Pc)
    requires EventsMatch(threads, log) && th in threads
    requires forall e | Explains(threads[th].pc, e) :: Explains(pc, e)
    requires pc.Done? ==> !pc.reply.Processed?
    ensures EventsMatch(threads[th := threads[th].(pc := pc)], log)
  {
    hide Explains;
    var threads' := threads[th := threads[th].(pc := pc)];
    forall i | 0 <= i < |log| ensures OwnEvent(threads', log[i]) {
      assert OwnEvent(threads, log[i]);
    }
  }

  lemma LoggedMoveKeepsEvents(threads: map<ThreadId, Thread>, log: seq<Event>, th: ThreadId, pc: Pc, e: Event)
    requires EventsMatch(threads, log) && th in threads
    requires forall d | Explains(threads[th].pc, d) :: Explains(pc, d)
    requires e.thread == th && e.key == threads[th].request.key && Explains(pc, e)
    requires e.Began? ==> threads[th].pc == Checked
    requires pc.Done? && pc.reply.Processed? ==> e == Effected(th, threads[th].request.key)
    ensures EventsMatch(threads[th := threads[th].(pc := pc)], log + [e])
  {
    var threads', log' := threads[th := threads[th].(pc := pc)], log + [e];
    forall i, j | 0 <= i < j < |log'| && log'[i].Began? && log'[j].Began? ensures log'[i].thread != log'[j].thread {
      assert OwnEvent(threads, log[i]);
    }
    hide Explains;
    forall i | 0 <= i < |log'| ensures OwnEvent(threads', log'[i]) {
      if i < |log| {
        assert OwnEvent(threads, log[i]);
      }
    }
    forall a | a in threads' && threads'[a].pc.Done? && threads'[a].pc.reply.Processed?
      ensures Effected(a, threads'[a].request.key) in log'
    {
      if a == th {
        assert log'[|log|] == e;
      }
    }
  }

  lemma EventsKept(s: Sys, step: Step)
    requires EventsMatch(s.threads, s.log) && Enabled(s, step)
    ensures EventsMatch(Do(s, step).threads, Do(s, step).log)
  {
    hide EventsMatch;
    match step
    case Tick(_) =>
    case Arrive(th, request) => ArriveKeepsEvents(s, th, request);
    case LookUp(th) => LookUpKeepsEvents(s, th, Missed);
    case CheckNonce(th) => MoveKeepsEvents(s.threads, s.log, th, NonceChecked(s, th).threads[th].pc);
    case Acquire(th) => AcquireKeepsEvents(s, th);
    case LookAgain(th) => LookUpKeepsEvents(s, th, Done(Conflict));
    case Complete(th, body) =>
      var response := Response(200, body);
      LoggedMoveKeepsEvents(s.threads, s.log, th, Committing(response), Finished(th, s.threads[th].request.key, response));
    case Fail(th) =>
      LoggedMoveKeepsEvents(s.threads, s.log, th, Done(ServerError), Broke(th, s.threads[th].request.key));
    case CommitWork(th) =>
      LoggedMoveKeepsEvents(s.threads, s.log, th, Done(Processed(s.threads[th].pc.response)), Effected(th, s.threads[th].request.key));
    case SendReply(th) => MoveKeepsEvents(s.threads, s.log, th, Replied(s.threads[th].pc.response));
    case CommitError(th) => MoveKeepsEvents(s.threads, s.log, th, Do(s, step).threads[th].pc);
    case Cancel(th) => MoveKeepsEvents(s.threads, s.log, th, Do(s, step).threads[th].pc);
  }

  lemma ArriveKeepsEvents(s: Sys, th: ThreadId, request: Request)
    requires EventsMatch(s.threads, s.log) && th !in s.threads
    ensures EventsMatch(s.threads[th := Thread(request, Received)], s.log)
  {
    forall i | 0 <= i < |s.log| ensures OwnEvent(s.threads[th := Thread(request, Received)], s.log[i]) {
      assert OwnEvent(s.threads, s.log[i]);
    }
  }

  lemma LookUpKeepsEvents(s: Sys, th: ThreadId, otherwise: Pc)
    requires EventsMatch(s.threads, s.log) && th in s.threads
    requires (s.threads[th].pc == Received && otherwise == Missed) || (s.threads[th].pc == Contended && otherwise == Done(Conflict))
    ensures EventsMatch(LookedUp(s, th, otherwise).threads, LookedUp(s, th, otherwise).log)
  {
    hide EventsMatch;
    var key := s.threads[th].request.key;
    if key.Some? && Cached(s.records, key.value).Some? {
      var response := Cached(s.records, key.value).value;
      LoggedMoveKeepsEvents(s.threads, s.log, th, Done(FromCache(response)), Served(th, key, response));
    } else {
      MoveKeepsEvents(s.threads, s.log, th, otherwise);
    }
  }

  lemma AcquireKeepsEvents(s: Sys, th: ThreadId)
    requires EventsMatch(s.threads, s.log) && At(s, th, Checked)
    ensures EventsMatch(Acquired(s, th).threads, Acquired(s, th).log)
  {
    hide EventsMatch;
    var key := s.threads[th].request.key;
    if key.Some? && Taken(s.records, key.value) {
      MoveKeepsEvents(s.threads, s.log, th, Contended);
    } else {
      LoggedMoveKeepsEvents(s.threads, s.log, th, Running, Began(th, key));
    }
  }

  /** A step that makes no nonce check keeps what is known about the checks. */
  lemma MoveKeepsProbes(s: Sys, s': Sys, th: ThreadId)
    requires ProbesMatch(s) && th in s.threads && th in s'.threads
    requires s'.threads == s.threads[th := s'.threads[th]] && s'.threads[th].request == s.threads[th].request
    requires s'.nonces == s.nonces && s'.probes == s.probes && s'.clock == s.clock
    requires s'.threads[th].pc != Received && (s'.threads[th].pc == Missed ==> s.threads[th].pc == Received)
    requires PastCheck(s'.threads[th].pc) ==> PastCheck(s.threads[th].pc)
    requires s'.log == s.log || (|s'.log| == |s.log| + 1 && s'.log[..|s.log|] == s.log
      && (s'.log[|s.log|].Began? ==> s'.log[|s.log|].thread == th && PastCheck(s.threads[th].pc)))
    ensures ProbesMatch(s')
  {
    hide Passed, PastCheck, NonceWindow.After, NonceWindow.Ordered;
    forall i | 0 <= i < |s'.probes| ensures OwnProbe(s'.threads, s'.probes[i]) {
      assert OwnProbe(s.threads, s.probes[i]);
    }
    forall i | 0 <= i < |s'.log| && s'.log[i].Began? ensures Passed(s'.probes, s'.log[i].thread) {
      if i < |s.log| {
        assert s'.log[i] == s.log[i];
      }
    }
  }

  lemma PassedGrows(probes: seq<Probe>, p: Probe)
    ensures forall th | Passed(probes, th) :: Passed(probes + [p], th)
  {
    assert Checks(probes + [p]) == Checks(probes) + [p.check];
    forall th | Passed(probes, th) ensures Passed(probes + [p], th) {
      var i :| 0 <= i < |probes| && probes[i].thread == th && PassedAt(probes, i);
      assert Checks(probes + [p])[..i] == Checks(probes)[..i];
      assert (probes + [p])[i] == probes[i] && PassedAt(probes + [p], i);
    }
  }

  lemma CheckExtendsHistory(probes: seq<Probe>, p: Probe)
    requires NonceWindow.Ordered(Checks(probes)) && forall i | 0 <= i < |probes| :: probes[i].check.now <= p.check.now
    ensures NonceWindow.Ordered(Checks(probes + [p]))
    ensures var nonces := NonceWindow.After(TOLERANCE, 2 * TOLERANCE, Checks(probes));
      NonceWindow.After(TOLERANCE, 2 * TOLERANCE, Checks(probes + [p])) == NonceWindow.Check(nonces, TOLERANCE, 2 * TOLERANCE, p.check).1
  {
    hide NonceWindow.Check;
    var cs, cs' := Checks(probes), Checks(probes + [p]);
    assert cs' == cs + [p.check];
    assert cs'[..|cs|] == cs;
    forall i, j | 0 <= i < j < |cs'| ensures cs'[i].now <= cs'[j].now {
      if j == |cs| {
        assert cs'[i] == probes[i].check;
      }
    }
  }

  function ProbeOf(s: Sys, th: ThreadId): Probe
    requires th in s.threads
  {
    Probe(th, NonceWindow.Request(s.clock, s.threads[th].request.timestamp, s.threads[th].request.nonce))
  }

  lemma CheckShape(s: Sys, th: ThreadId) returns (pc: Pc, nonces: NonceWindow.Cache)
    requires At(s, th, Missed)
    ensures NonceChecked(s, th) == Put(s, th, pc).(nonces := nonces, probes := s.probes + [ProbeOf(s, th)])
    ensures nonces == NonceWindow.Check(s.nonces, TOLERANCE, 2 * TOLERANCE, ProbeOf(s, th).check).1
    ensures pc == Checked ==> NonceWindow.Check(s.nonces, TOLERANCE, 2 * TOLERANCE, ProbeOf(s, th).check).0 == NonceWindow.Accepted
    ensures pc == Checked || pc.Done?
  {
    pc, nonces := NonceChecked(s, th).threads[th].pc, NonceChecked(s, th).nonces;
  }

  lemma CheckKeepsProbes(s: Sys, th: ThreadId)
    requires ProbesMatch(s) && At(s, th, Missed)
    ensures ProbesMatch(NonceChecked(s, th))
  {
    hide Passed, NonceWindow.Check, NonceWindow.After, NonceWindow.Ordered, NonceChecked;
    var p := ProbeOf(s, th);
    var pc, nonces := CheckShape(s, th);
    var s' := Put(s, th, pc).(nonces := nonces, probes := s.probes + [p]);
    if pc == Checked {
      PassedLast(s.probes, p);
    }
    CheckExtendsHistory(s.probes, p);
    PassedGrows(s.probes, p);
    NewProbeIsOwn(s, s', th);
  }

  lemma NewProbeIsOwn(s: Sys, s': Sys, th: ThreadId)
    requires ProbesMatch(s) && At(s, th, Missed) && th in s'.threads
    requires s'.threads == s.threads[th := s'.threads[th]] && s'.threads[th].request == s.threads[th].request
    requires s'.threads[th].pc == Checked || s'.threads[th].pc.Done?
    requires s'.probes == s.probes + [ProbeOf(s, th)] && s'.clock == s.clock
    ensures forall i | 0 <= i < |s'.probes| :: s'.probes[i].check.now <= s'.clock && OwnProbe(s'.threads, s'.probes[i])
    ensures forall i, j | 0 <= i < j < |s'.probes| :: s'.probes[i].thread != s'.probes[j].thread
  {
    hide Passed, NonceWindow.After, NonceWindow.Ordered;
    forall i | 0 <= i < |s'.probes| ensures OwnProbe(s'.threads, s'.probes[i]) && s'.probes[i].check.now <= s'.clock {
      if i < |s.probes| {
        assert OwnProbe(s.threads, s.probes[i]);
      }
    }
    forall i, j | 0 <= i < j < |s'.probes| ensures s'.probes[i].thread != s'.probes[j].thread {
      assert OwnProbe(s.threads, s.probes[i]);
    }
  }

  lemma PassedLast(probes: seq<Probe>, p: Probe)
    requires var nonces := NonceWindow.After(TOLERANCE, 2 * TOLERANCE, Checks(probes));
      NonceWindow.Check(nonces, TOLERANCE, 2 * TOLERANCE, p.check).0 == NonceWindow.Accepted
    ensures Passed(probes + [p], p.thread)
  {
    assert Checks(probes + [p])[..|probes|] == Checks(probes);
    assert (probes + [p])[|probes|].thread == p.thread && PassedAt(probes + [p], |probes|);
  }

  lemma ProbesKept(s: Sys, step: Step)
    requires ProbesMatch(s) && Enabled(s, step)
    ensures ProbesMatch(Do(s, step))
  {
    hide ProbesMatch;
    match step
    case Tick(later) => EnvironmentKeepsProbes(s, Do(s, step));
    case Arrive(th, request) => ArriveKeepsProbes(s, th, request);
    case CheckNonce(th) => CheckKeepsProbes(s, th);
    case LookUp(th) => MoveKeepsProbes(s, Do(s, step), th);
    case Acquire(th) => MoveKeepsProbes(s, Do(s, step), th);
    case LookAgain(th) => MoveKeepsProbes(s, Do(s, step), th);
    case Complete(th, _) => MoveKeepsProbes(s, Do(s, step), th);
    case Fail(th) => MoveKeepsProbes(s, Do(s, step), th);
    case CommitWork(th) => MoveKeepsProbes(s, Do(s, step), th);
    case SendReply(th) => MoveKeepsProbes(s, Do(s, step), th);
    case CommitError(th) => MoveKeepsProbes(s, Do(s, step), th);
    case Cancel(th) => MoveKeepsProbes(s, Do(s, step), th);
  }

  lemma EnvironmentKeepsProbes(s: Sys, s': Sys)
    requires ProbesMatch(s) && s' == s.(clock := s'.clock) && s.clock <= s'.clock
    ensures ProbesMatch(s')
  {
  }

  lemma ArriveKeepsProbes(s: Sys, th: ThreadId, request: Request)
    requires ProbesMatch(s) && th !in s.threads
    ensures ProbesMatch(s.(threads := s.threads[th := Thread(request, Received)]))
  {
    hide Passed, NonceWindow.After, NonceWindow.Ordered;
    forall i | 0 <= i < |s.probes| ensures OwnProbe(s.threads[th := Thread(request, Received)], s.probes[i]) {
      assert OwnProbe(s.threads, s.probes[i]);
    }
  }

  lemma {:induction false} RunKeepsStories(run: seq<Sys>, i: int)
    requires IsRun(run) && 0 <= i < |run|
    ensures Stories(run[i])
  {
    if i > 0 {
      hide EventsMatch, ProbesMatch, Do, Enabled;
      RunKeepsStories(run, i - 1);
      assert Next(run[i - 1], run[i - 1 + 1]);
      var step :| Enabled(run[i - 1], step) && run[i] == Do(run[i - 1], step);
      EventsKept(run[i - 1], step);
      ProbesKept(run[i - 1], step);
    }
  }

  lemma ReachableStories(s: Sys)
    requires Reachable(s)
    ensures Stories(s)
  {
    hide Stories;
    var run :| IsRun(run) && run[|run| - 1] == s;
    RunKeepsStories(run, |run| - 1);
  }
}
