/** What a stale cache can and cannot do: where its content comes from, that the gate never
    refreshes it, and that reading the state does. */
module ShutdownStaleness {
  import opened Options
  import opened Shutdown
  import opened ShutdownGuarantees

  // ------------------------------------------------------------- the row is locked

  predicate HoldsRow(pc: Pc) {
    pc.Locked? || pc.Writing? || pc.Seeding?
  }

  /** At most one thread has the row locked, changed or inserted, and it is the recorded one. */
  ghost predicate OneHolder(s: Sys) {
    forall th | th in s.threads :: HoldsRow(s.threads[th].pc) <==> s.holder == Some(th)
  }

  ghost predicate HolderExists(s: Sys) {
    s.holder.Some? ==> s.holder.value in s.threads
  }

  lemma StepKeepsOneHolder(s: Sys, step: Step)
    requires OneHolder(s) && HolderExists(s) && Enabled(s, step)
    ensures OneHolder(Do(s, step)) && HolderExists(Do(s, step))
  {
    hide Verdict;
    var s' := Do(s, step);
    forall th | th in s'.threads ensures HoldsRow(s'.threads[th].pc) <==> s'.holder == Some(th) {
      if th != step.th {
        OneThreadMoves(s, step, th);
      }
    }
  }

  lemma {:induction false} RunHasOneHolder(run: seq<Sys>, j: nat)
    requires IsRun(run) && j < |run|
    ensures OneHolder(run[j]) && HolderExists(run[j])
  {
    if j > 0 {
      RunHasOneHolder(run, j - 1);
      assert Next(run[j - 1], run[j]);
      var step :| Enabled(run[j - 1], step) && run[j] == Do(run[j - 1], step);
      hide Do, Enabled, OneHolder;
      StepKeepsOneHolder(run[j - 1], step);
    }
  }

  /** While a thread holds the row nobody else changes it: the committed row moves only when
      the holder commits what it wrote. */
  lemma OnlyTheHolderCommits(run: seq<Sys>, j: nat)
    requires IsRun(run) && j + 1 < |run| && run[j + 1].row != run[j].row
    ensures run[j].holder.Some? && run[j].holder.value in run[j].threads
    ensures var pc := run[j].threads[run[j].holder.value].pc;
      (pc.Writing? || pc.Seeding?) && run[j + 1].row == Some(pc.info) && run[j + 1].holder == None
  {
    RunHasOneHolder(run, j);
    assert Next(run[j], run[j + 1]);
    var step :| Enabled(run[j], step) && run[j + 1] == Do(run[j], step);
    hide IsRun, Verdict;
  }

  // --------------------------------------------------------- reading refreshes it

  /** get_system_state with nobody else in between makes cache and committed row agree: with a
      row, the cache takes its value; without one, the row is created from the cache. */
  lemma QuiescentReadAgrees(s: Sys, th: ThreadId)
    requires At(s, th, Idle) && s.threads[th].job.Look? && s.holder == None
    ensures var p := s.threads[th].process;
      var read := Do(Do(s, Query(th)), Return(th));
      var after := if s.row.Some? then read else Do(read, Commit(th));
      && after.row == Some(CacheOf(after, p))
      && (s.row.Some? ==> after.row == s.row)
      && (s.row.None? ==> CacheOf(after, p) == CacheOf(s, p))
      && forall q: ProcessId | q != p :: CacheOf(after, q) == CacheOf(s, q)
  {
  }

  // ------------------------------------------------------ where a state comes from

  /** Somebody in this system asked for this state: it is NORMAL, or an owner asked to change to it,
      whether or not that change was ever committed. */
  ghost predicate WasRequested(s: Sys, info: Info) {
    info.state == Normal || exists th :: th in s.threads && AskedFor(s.threads[th], info)
  }

  predicate AskedFor(t: Thread, info: Info) {
    t.job.Change? && (t.pc == Writing(info) || t.pc == Over) && info == Requested(t.job.to, t.job.reason)
  }

  predicate OnlyNormal(s: Sys) {
    && (s.row.Some? ==> s.row.value.state == Normal)
    && (forall p | p in s.caches :: s.caches[p].state == Normal)
  }

  ghost predicate InfoOfThreadRequested(s: Sys, t: Thread) {
    && (t.pc.Answered? && t.pc.row.Some? ==> WasRequested(s, t.pc.row.value))
    && (t.pc.Seeding? ==> WasRequested(s, t.pc.info))
    && (t.pc.Writing? ==> t.job.Change? && t.pc.info == Requested(t.job.to, t.job.reason))
    && (t.pc.Locked? ==> t.job.Change?)
    && (t.decision.Some? && t.decision.value.basis != ByOverride ==> WasRequested(s, t.decision.value.info))
  }

  ghost predicate AllRequested(s: Sys) {
    && (s.row.Some? ==> WasRequested(s, s.row.value))
    && (forall p | p in s.caches :: WasRequested(s, s.caches[p]))
    && (forall th | th in s.threads :: InfoOfThreadRequested(s, s.threads[th]))
  }

  lemma RequestsStay(s: Sys, step: Step, info: Info)
    requires Enabled(s, step) && WasRequested(s, info)
    ensures WasRequested(Do(s, step), info)
  {
    hide Verdict;
    if info.state != Normal {
      var th :| th in s.threads && AskedFor(s.threads[th], info);
      if th != step.th {
        OneThreadMoves(s, step, th);
      }
      assert AskedFor(Do(s, step).threads[th], info);
    }
  }

  /** A step changes one cache at most, to something that was requested. */
  lemma CachesStayRequested(s: Sys, step: Step, p: ProcessId)
    requires AllRequested(s) && Enabled(s, step) && p in Do(s, step).caches
    ensures WasRequested(Do(s, step), Do(s, step).caches[p])
  {
    var s' := Do(s, step);
    if p in s.caches && s'.caches[p] == s.caches[p] {
      RequestsStay(s, step, s.caches[p]);
    } else if step.Return? {
      assert InfoOfThreadRequested(s, s.threads[step.th]);
      RequestsStay(s, step, s'.caches[p]);
    } else {
      assert step.Write?;
      assert AskedFor(s'.threads[step.th], s'.caches[p]);
    }
  }

  lemma RowStaysRequested(s: Sys, step: Step)
    requires AllRequested(s) && Enabled(s, step) && Do(s, step).row.Some?
    ensures WasRequested(Do(s, step), Do(s, step).row.value)
  {
    var s' := Do(s, step);
    if s'.row == s.row {
      RequestsStay(s, step, s.row.value);
    } else {
      assert step.Commit?;
      assert InfoOfThreadRequested(s, s.threads[step.th]);
      if s.threads[step.th].pc.Seeding? {
        RequestsStay(s, step, s'.row.value);
      } else {
        assert AskedFor(s'.threads[step.th], s'.row.value);
      }
    }
  }

  lemma CacheIsRequested(s: Sys, p: ProcessId)
    requires AllRequested(s)
    ensures WasRequested(s, CacheOf(s, p))
  {
  }

  lemma OthersStayRequested(s: Sys, step: Step, th: ThreadId)
    requires AllRequested(s) && Enabled(s, step) && th in s.threads && Do(s, step).threads[th] == s.threads[th]
    ensures th in Do(s, step).threads && InfoOfThreadRequested(Do(s, step), s.threads[th])
  {
    var t := s.threads[th];
    assert InfoOfThreadRequested(s, t);
    if t.pc.Answered? && t.pc.row.Some? {
      RequestsStay(s, step, t.pc.row.value);
    }
    if t.pc.Seeding? {
      RequestsStay(s, step, t.pc.info);
    }
    if t.decision.Some? && t.decision.value.basis != ByOverride {
      RequestsStay(s, step, t.decision.value.info);
    }
    hide Do, Enabled;
  }

  lemma ActorStaysRequested(s: Sys, step: Step)
    requires AllRequested(s) && Enabled(s, step)
    ensures step.th in Do(s, step).threads && InfoOfThreadRequested(Do(s, step), Do(s, step).threads[step.th])
  {
    hide Verdict, WasRequested;
    var s' := Do(s, step);
    var th := step.th;
    if !step.Arrive? {
      var t := s.threads[th];
      assert InfoOfThreadRequested(s, t);
      CacheIsRequested(s, t.process);
      RequestsStay(s, step, CacheOf(s, t.process));
      if s.row.Some? {
        RequestsStay(s, step, s.row.value);
      }
      if t.pc.Answered? && t.pc.row.Some? {
        RequestsStay(s, step, t.pc.row.value);
      }
      if t.decision.Some? && t.decision.value.basis != ByOverride {
        RequestsStay(s, step, t.decision.value.info);
      }
    }
  }

  lemma StepKeepsRequested(s: Sys, step: Step)
    requires AllRequested(s) && Enabled(s, step)
    ensures AllRequested(Do(s, step))
  {
    var s' := Do(s, step);
    forall p | p in s'.caches ensures WasRequested(s', s'.caches[p]) {
      CachesStayRequested(s, step, p);
    }
    if s'.row.Some? {
      RowStaysRequested(s, step);
    }
    forall th | th in s'.threads ensures InfoOfThreadRequested(s', s'.threads[th]) {
      if th == step.th {
        ActorStaysRequested(s, step);
      } else {
        OneThreadMoves(s, step, th);
        OthersStayRequested(s, step, th);
      }
    }
  }

  lemma {:induction false} RunIsRequested(run: seq<Sys>, j: nat)
    requires IsRun(run) && OnlyNormal(run[0]) && j < |run|
    ensures AllRequested(run[j])
  {
    if j > 0 {
      RunIsRequested(run, j - 1);
      assert Next(run[j - 1], run[j]);
      var step :| Enabled(run[j - 1], step) && run[j] == Do(run[j - 1], step);
      hide Do, Enabled, AllRequested;
      StepKeepsRequested(run[j - 1], step);
    }
  }

  /** No shutdown out of nowhere: in a system that started out normal, a gate that refuses a
      request (not by test override) does so with a state and reason that some owner asked for,
      although the change may never have been committed. */
  lemma RefusalWasRequested(run: seq<Sys>, j: nat, th: ThreadId, d: Decision)
    requires IsRun(run) && OnlyNormal(run[0]) && j < |run| && HasDecided(run[j], th, d)
    requires d.basis != ByOverride && d.outcome.Refused?
    ensures exists owner :: owner in run[j].threads && AskedFor(run[j].threads[owner], d.outcome.info)
  {
    RunIsRequested(run, j);
    RunIsSound(run, j);
    hide IsRun;
    assert DecidedSoundly(run[j].threads[th]);
    assert InfoOfThreadRequested(run[j], run[j].threads[th]);
    VerdictTable(d.info, run[j].threads[th].job.call);
    hide Verdict;
  }

  // ------------------------------------------------------ the gate never heals it

  /** Process p does nothing but pass requests through the gate: nobody there has read the
      state or is changing it, and no gate is in the middle of asking the database. */
  ghost predicate OnlyGates(s: Sys, p: ProcessId) {
    forall th | th in s.threads && s.threads[th].process == p :: GateAtRest(s.threads[th])
  }

  predicate GateAtRest(t: Thread) {
    t.pc == Over || (t.pc == Idle && t.job.Gate?)
  }

  /** Every thread of p that has decided since was overridden or refused by this cache. */
  predicate DecidedByCache(t: Thread, cached: Info) {
    t.decision.Some? ==> t.decision.value.basis == ByOverride || (t.decision.value.basis == ByCache && t.decision.value.info == cached)
  }

  ghost predicate Frozen(s: Sys, p: ProcessId, cached: Info, before: set<ThreadId>) {
    && CacheOf(s, p) == cached && OnlyGates(s, p)
    && forall th | th in s.threads && s.threads[th].process == p && th !in before :: DecidedByCache(s.threads[th], cached)
  }

  lemma FrozenStep(s: Sys, step: Step, p: ProcessId, cached: Info, before: set<ThreadId>)
    requires Frozen(s, p, cached, before) && Enabled(s, step) && cached.state != Normal
    requires step.Arrive? && step.process == p ==> step.job.Gate?
    ensures Frozen(Do(s, step), p, cached, before)
  {
    hide Verdict;
    var s' := Do(s, step);
    forall th | th in s'.threads && s'.threads[th].process == p
      ensures GateAtRest(s'.threads[th]) && (th !in before ==> DecidedByCache(s'.threads[th], cached))
    {
      if th != step.th {
        OneThreadMoves(s, step, th);
      } else if !step.Arrive? {
        assert GateAtRest(s.threads[th]);
      }
    }
  }

  ghost predicate NewcomersAreGates(s: Sys, s': Sys, p: ProcessId) {
    forall th | th in s'.threads && th !in s.threads && s'.threads[th].process == p :: s'.threads[th].job.Gate?
  }

  lemma FrozenNext(s: Sys, s': Sys, p: ProcessId, cached: Info, before: set<ThreadId>)
    requires Next(s, s') && Frozen(s, p, cached, before) && cached.state != Normal && NewcomersAreGates(s, s', p)
    ensures Frozen(s', p, cached, before)
  {
    var step :| Enabled(s, step) && s' == Do(s, step);
    if step.Arrive? {
      assert s'.threads[step.th] == Thread(step.process, step.job, Idle, None);
    }
    FrozenStep(s, step, p, cached, before);
  }

  /** The gate never refreshes a cache that is not NORMAL, whatever becomes of the row: as long
      as a process does nothing but serve requests, that cache stays, and decides every
      request, until somebody there reads or changes the state. */
  lemma {:induction false} GateNeverHealsTheCache(run: seq<Sys>, a: nat, b: nat, p: ProcessId)
    requires IsRun(run) && a <= b < |run|
    requires OnlyGates(run[a], p) && CacheOf(run[a], p).state != Normal
    requires forall i | a <= i < b :: NewcomersAreGates(run[i], run[i + 1], p)
    ensures Frozen(run[b], p, CacheOf(run[a], p), run[a].threads.Keys)
  {
    if a < b {
      GateNeverHealsTheCache(run, a, b - 1, p);
      assert Next(run[b - 1], run[b]) && NewcomersAreGates(run[b - 1], run[b - 1 + 1], p);
      hide *;
      FrozenNext(run[b - 1], run[b], p, CacheOf(run[a], p), run[a].threads.Keys);
    }
  }

  // -------------------------------------------------------------------- witnesses

  const WRITE_CALL := Call(true, true, "/tasks", false, None, true, Nobody)

  /** Fresh caches, a normal row, and nobody there yet. */
  const START := Sys(Some(FRESH_CACHE), None, map[], map[])

  lemma Then(run: seq<Sys>, step: Step) returns (longer: seq<Sys>)
    requires run != [] && IsRun(run) && Enabled(run[|run| - 1], step)
    ensures longer == run + [Do(run[|run| - 1], step)] && IsRun(longer)
  {
    longer := run + [Do(run[|run| - 1], step)];
    hide Enabled, Do;
    forall i | 0 <= i < |longer| - 1 ensures Next(longer[i], longer[i + 1]) {
      if i < |run| - 1 {
        assert Next(run[i], run[i + 1]);
      }
    }
  }

  lemma WriteCallIsPlain()
    ensures IsPlainMutation(WRITE_CALL)
  {
  }

  const FIRE := Info(EmergencyShutdown, Some("fire"))

  /** An owner's shutdown in process p, up to its write. */
  lemma ShutdownWritten(run: seq<Sys>, p: ProcessId, th: ThreadId) returns (longer: seq<Sys>)
    requires run != [] && IsRun(run) && th !in run[|run| - 1].threads && run[|run| - 1].holder == None
    ensures longer != [] && IsRun(longer) && run <= longer
    ensures forall i | |run| <= i < |longer| :: longer[i].row == run[|run| - 1].row
    ensures var s := run[|run| - 1];
      longer[|longer| - 1] == Sys(s.row, Some(th), s.caches[p := FIRE],
        s.threads[th := Thread(p, Change(EmergencyShutdown, "fire"), Writing(FIRE), None)])
  {
    hide IsRun, Next;
    longer := Then(run, Arrive(th, p, Change(EmergencyShutdown, "fire")));
    longer := Then(longer, Lock(th));
    longer := Then(longer, Write(th));
  }

  /** A shutdown that was rolled back still refuses mutations: the committed row was NORMAL all
      along, the cache of the process says otherwise. */
  lemma RolledBackShutdownStillRefuses() returns (run: seq<Sys>)
    ensures IsRun(run) && forall i | 0 <= i < |run| :: run[i].row == Some(FRESH_CACHE)
    ensures var last := run[|run| - 1];
      && 1 in last.threads && last.threads[1].job == Gate(WRITE_CALL)
      && last.threads[1].decision.Some? && last.threads[1].decision.value.outcome.Refused?
  {
    run := [START];
    assert IsRun(run);
    WriteCallIsPlain();
    PlainMutationVerdict(FIRE, WRITE_CALL);
    hide IsRun, Next, Verdict, IsPlainMutation;
    run := ShutdownWritten(run, 0, 0);
    run := Then(run, Rollback(0));
    run := Then(run, Arrive(1, 0, Gate(WRITE_CALL)));
    run := Then(run, CheckCache(1));
  }

  /** A gate that queried before the shutdown and returns after it puts NORMAL back into the
      cache of the very process that committed the shutdown. */
  lemma LateReturnHidesTheShutdown() returns (run: seq<Sys>)
    ensures IsRun(run)
    ensures var last := run[|run| - 1]; last.row == Some(FIRE) && CacheOf(last, 0) == FRESH_CACHE
  {
    run := [START];
    assert IsRun(run);
    hide IsRun, Next, Verdict;
    run := Then(run, Arrive(1, 0, Gate(WRITE_CALL)));
    run := Then(run, CheckCache(1));
    run := Then(run, Query(1));
    var t := Thread(0, Gate(WRITE_CALL), Answered(Some(FRESH_CACHE)), None);
    assert run[|run| - 1] == Sys(Some(FRESH_CACHE), None, map[], map[1 := t]);
    run := ShutdownWritten(run, 0, 0);
    run := Then(run, Commit(0));
    run := Then(run, Return(1));
  }

  /** Without an answer from the database the cache alone decides: here a mutation passes that
      arrived after another process committed the shutdown. */
  lemma UnansweredGateCanPass() returns (run: seq<Sys>)
    ensures IsRun(run)
    ensures var last := run[|run| - 1];
      && last.row == Some(FIRE) && HasDecided(last, 1, Decision(ByFallback, FRESH_CACHE, Passes))
      && last.threads[1].job == Gate(WRITE_CALL)
  {
    run := [START];
    assert IsRun(run);
    WriteCallIsPlain();
    PlainMutationVerdict(FRESH_CACHE, WRITE_CALL);
    hide IsRun, Next, Verdict, IsPlainMutation;
    run := ShutdownWritten(run, 0, 0);
    run := Then(run, Commit(0));
    run := Then(run, Arrive(1, 1, Gate(WRITE_CALL)));
    run := Then(run, CheckCache(1));
    run := Then(run, ReadFails(1));
  }
}
