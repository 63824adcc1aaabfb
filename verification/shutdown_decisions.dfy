/** What a gate decides by, and when a cache can be relied on: the exact conditions, over every
    run and every continuation. */
module ShutdownDecisions {
  import opened Options
  import opened Shutdown
  import opened ShutdownGuarantees
  import opened ShutdownStaleness

  // ------------------------------------------------------------ what decides a gate

  predicate SawRow(s: Sys, th: ThreadId) {
    th in s.threads && s.threads[th].pc.Answered? && s.threads[th].pc.row.Some?
  }

  /** What a gate that decides now goes by: the row its query saw, and otherwise the cache of its
      process at this very step. */
  function Evidence(s: Sys, th: ThreadId): Info
    requires th in s.threads
  {
    if SawRow(s, th) then s.threads[th].pc.row.value else CacheOf(s, s.threads[th].process)
  }

  predicate IsUndecided(s: Sys, th: ThreadId) {
    th in s.threads && s.threads[th].decision.None?
  }

  /** A plain mutation without the test hook. */
  predicate IsPlainGate(t: Thread) {
    t.job.Gate? && IsPlainMutation(t.job.call) && t.job.call.testOverride.None?
  }

  /** The gate gives up on the database: there is none, or the read raised. */
  predicate IsUnanswered(s: Sys, step: Step, th: ThreadId)
    requires th in s.threads && s.threads[th].job.Gate?
  {
    || step == ReadFails(th)
    || (step == CheckCache(th) && CacheOf(s, s.threads[th].process).state == Normal && !s.threads[th].job.call.hasDatabase)
  }

  /** One deciding step of a plain mutation that was not overridden. */
  lemma StepDecides(s: Sys, step: Step, th: ThreadId, d: Decision)
    requires Sound(s) && Enabled(s, step) && IsUndecided(s, th) && HasDecided(Do(s, step), th, d)
    requires IsPlainGate(s.threads[th])
    ensures d.info == Evidence(s, th) && (d.basis == ByRow <==> SawRow(s, th))
    ensures d.outcome.Refused? <==> Evidence(s, th).state != Normal
    ensures d.basis == ByFallback <==> IsUnanswered(s, step, th)
  {
    PlainMutationVerdict(d.info, s.threads[th].job.call);
    hide Verdict, IsPlainMutation;
    if th != step.th {
      OneThreadMoves(s, step, th);
    }
    assert AskedSoundly(s.threads[th]);
  }

  // ---------------------------------------------------------------- over every run

  /** Step i of the run is where the gate makes its decision. */
  ghost predicate DecidesAt(run: seq<Sys>, i: nat, th: ThreadId, d: Decision) {
    i + 1 < |run| && IsUndecided(run[i], th) && HasDecided(run[i + 1], th, d)
  }

  /** A thread that has decided is done deciding. */
  predicate DecidedIsDone(t: Thread) {
    t.decision.Some? ==> t.pc == Over || t.pc.Seeding?
  }

  ghost predicate DecisionsAreDone(s: Sys) {
    forall th | th in s.threads :: DecidedIsDone(s.threads[th])
  }

  lemma StepKeepsDecisions(s: Sys, step: Step, th: ThreadId)
    requires DecisionsAreDone(s) && Enabled(s, step)
    ensures DecisionsAreDone(Do(s, step))
    ensures th in s.threads && s.threads[th].decision.Some? ==>
      th in Do(s, step).threads && Do(s, step).threads[th].decision == s.threads[th].decision
    ensures th !in s.threads && th in Do(s, step).threads ==> Do(s, step).threads[th].decision.None?
  {
    hide Verdict;
    var s' := Do(s, step);
    forall a | a in s'.threads ensures DecidedIsDone(s'.threads[a]) {
      if a != step.th {
        OneThreadMoves(s, step, a);
      }
    }
    if th != step.th {
      OneThreadMoves(s, step, th);
    }
  }

  lemma {:induction false} RunKeepsDecisions(run: seq<Sys>, j: nat)
    requires IsRun(run) && j < |run|
    ensures DecisionsAreDone(run[j])
  {
    if j > 0 {
      RunKeepsDecisions(run, j - 1);
      DecisionNext(run, j - 1, 0);
    }
  }

  lemma DecisionNext(run: seq<Sys>, j: nat, th: ThreadId)
    requires IsRun(run) && j + 1 < |run| && DecisionsAreDone(run[j])
    ensures DecisionsAreDone(run[j + 1])
    ensures th in run[j].threads && run[j].threads[th].decision.Some? ==>
      th in run[j + 1].threads && run[j + 1].threads[th].decision == run[j].threads[th].decision
    ensures th !in run[j].threads && th in run[j + 1].threads ==> run[j + 1].threads[th].decision.None?
  {
    assert Next(run[j], run[j + 1]);
    var step :| Enabled(run[j], step) && run[j + 1] == Do(run[j], step);
    hide *;
    StepKeepsDecisions(run[j], step, th);
  }

  /** Every decision was made at one step of the run. */
  lemma {:induction false} DecisionWasMade(run: seq<Sys>, j: nat, th: ThreadId, d: Decision) returns (i: nat)
    requires IsRun(run) && j < |run| && HasDecided(run[j], th, d)
    ensures i < j && DecidesAt(run, i, th, d)
  {
    if j == 0 {
      assert false;
    } else {
      RunKeepsDecisions(run, j - 1);
      DecisionNext(run, j - 1, th);
      hide IsRun, DecisionsAreDone;
      if IsUndecided(run[j - 1], th) {
        i := j - 1;
      } else {
        i := DecisionWasMade(run, j - 1, th, d);
      }
    }
  }

  lemma {:induction false} DecisionStands(run: seq<Sys>, i: nat, j: nat, th: ThreadId, d: Decision)
    requires IsRun(run) && i <= j < |run| && HasDecided(run[i], th, d)
    ensures HasDecided(run[j], th, d)
    decreases j
  {
    if i < j {
      DecisionStands(run, i, j - 1, th, d);
      RunKeepsDecisions(run, j - 1);
      DecisionNext(run, j - 1, th);
    }
    hide IsRun, DecisionsAreDone;
  }

  /** The decision is made once: its step and its value are unique. */
  lemma DecisionIsUnique(run: seq<Sys>, i: nat, k: nat, th: ThreadId, d: Decision, e: Decision)
    requires IsRun(run) && DecidesAt(run, i, th, d) && DecidesAt(run, k, th, e)
    ensures i == k && d == e
  {
    if i < k {
      DecisionStands(run, i + 1, k, th, d);
    } else if k < i {
      DecisionStands(run, k + 1, i, th, e);
    }
  }

  /** In every run a plain mutation that was not overridden is refused if and only if what it went
      by at its one deciding step was not NORMAL: the row its query saw, which had been committed
      while it was there, and otherwise the cache of its process at that step. */
  lemma RefusedIffEvidence(run: seq<Sys>, j: nat, th: ThreadId, d: Decision) returns (i: nat)
    requires IsRun(run) && j < |run| && HasDecided(run[j], th, d) && IsPlainGate(run[j].threads[th])
    ensures i < j && DecidesAt(run, i, th, d)
    ensures d.info == Evidence(run[i], th)
    ensures d.outcome.Refused? <==> Evidence(run[i], th).state != Normal
    ensures d.basis == ByRow <==> SawRow(run[i], th)
    ensures SawRow(run[i], th) ==> SeenBy(run, i, th, Some(d.info))
  {
    i := DecisionWasMade(run, j, th, d);
    RunIsSound(run, i);
    ThreadsStay(run, i, j, th);
    RunIsGrounded(run, i, th);
    assert Next(run[i], run[i + 1]);
    var step :| Enabled(run[i], step) && run[i + 1] == Do(run[i], step);
    hide IsRun, Sound, Do, Enabled, IsPlainMutation;
    StepDecides(run[i], step, th, d);
  }

  predicate IsNormalRow(row: Option<Info>) {
    row.Some? && row.value.state == Normal
  }

  /** The unjustified refusal, exactly: while the committed row is NORMAL during the whole stay of
      a plain mutation, it is refused if and only if it did not get to see the row and the cache
      of its process was not NORMAL when it decided. */
  lemma RefusedUnderNormalIff(run: seq<Sys>, j: nat, th: ThreadId, d: Decision) returns (i: nat)
    requires IsRun(run) && j < |run| && HasDecided(run[j], th, d) && IsPlainGate(run[j].threads[th])
    requires forall k | 0 <= k < j && th in run[k].threads :: IsNormalRow(run[k].row)
    ensures i < j && DecidesAt(run, i, th, d)
    ensures d.outcome.Refused? <==> !SawRow(run[i], th) && CacheOf(run[i], run[i].threads[th].process).state != Normal
  {
    i := RefusedIffEvidence(run, j, th, d);
    hide IsRun, IsPlainMutation;
    if SawRow(run[i], th) {
      var k :| 0 <= k <= i && th in run[k].threads && run[k].row == Some(d.info);
    }
  }

  /** The unanswered pass, exactly: while the committed row is restricted during the whole stay of
      a plain mutation, it passes if and only if the database did not answer it and the cache of
      its process was NORMAL when it decided. */
  lemma PassedUnderRestrictionIff(run: seq<Sys>, j: nat, th: ThreadId, d: Decision) returns (i: nat)
    requires IsRun(run) && j < |run| && HasDecided(run[j], th, d) && IsPlainGate(run[j].threads[th])
    requires forall k | 0 <= k < j && th in run[k].threads :: Restricted(run[k].row)
    ensures i < j && DecidesAt(run, i, th, d)
    ensures d.outcome == Passes <==>
      d.basis == ByFallback && CacheOf(run[i], run[i].threads[th].process).state == Normal
  {
    i := RefusedIffEvidence(run, j, th, d);
    RunIsSound(run, j);
    BasisOfDecision(run, i, th, d);
    assert DecidedSoundly(run[j].threads[th]);
    hide IsRun, IsPlainMutation, Verdict;
    if d.basis == ByRow {
      var k :| 0 <= k <= i && th in run[k].threads && run[k].row == Some(d.info);
    }
  }

  /** A gate decides by a seed only when there is no committed row at that step. */
  lemma BasisOfDecision(run: seq<Sys>, i: nat, th: ThreadId, d: Decision)
    requires IsRun(run) && DecidesAt(run, i, th, d)
    ensures d.basis == BySeed ==> run[i].row == None
  {
    assert Next(run[i], run[i + 1]);
    var step :| Enabled(run[i], step) && run[i + 1] == Do(run[i], step);
    hide IsRun, Verdict;
    if th != step.th {
      OneThreadMoves(run[i], step, th);
    }
  }

  // --------------------------------------------------- when a cache can be relied on

  /** A step that keeps the committed row, and in which nobody in process p writes a change. */
  ghost predicate QuietNext(s: Sys, s': Sys, p: ProcessId) {
    exists step :: Enabled(s, step) && s' == Do(s, step) && s'.row == s.row && !WritesIn(s, step, p)
  }

  predicate WritesIn(s: Sys, step: Step, p: ProcessId) {
    step.Write? && step.th in s.threads && s.threads[step.th].process == p
  }

  ghost predicate IsQuiet(cont: seq<Sys>, s: Sys, p: ProcessId) {
    cont != [] && cont[0] == s && forall i | 0 <= i < |cont| - 1 :: QuietNext(cont[i], cont[i + 1], p)
  }

  /** Whatever happens, as long as the row stays and nobody in p changes it, p shows info. */
  ghost predicate ShowsForGood(s: Sys, p: ProcessId, info: Info) {
    forall cont | IsQuiet(cont, s, p) :: CacheOf(cont[|cont| - 1], p) == info
  }

  /** A reader of process p that has seen another row and has not returned. */
  predicate IsLateReader(s: Sys, th: ThreadId, p: ProcessId, info: Info) {
    SawRow(s, th) && s.threads[th].process == p && s.threads[th].pc.row.value != info
  }

  ghost predicate CanRelyOn(s: Sys, p: ProcessId, info: Info) {
    s.row == Some(info) && CacheOf(s, p) == info && !exists th :: IsLateReader(s, th, p, info)
  }

  lemma QuietStepKeepsReliance(s: Sys, step: Step, p: ProcessId, info: Info)
    requires CanRelyOn(s, p, info) && Enabled(s, step) && Do(s, step).row == s.row && !WritesIn(s, step, p)
    ensures CanRelyOn(Do(s, step), p, info)
  {
    hide Verdict;
    var s' := Do(s, step);
    assert !IsLateReader(s, step.th, p, info);
    forall th ensures !IsLateReader(s', th, p, info) {
      assert !IsLateReader(s, th, p, info);
      if th != step.th {
        OneThreadMoves(s, step, th);
      }
    }
  }

  lemma {:induction false} QuietKeepsReliance(cont: seq<Sys>, s: Sys, p: ProcessId, info: Info, j: nat)
    requires IsQuiet(cont, s, p) && j < |cont| && CanRelyOn(s, p, info)
    ensures CanRelyOn(cont[j], p, info)
  {
    if j > 0 {
      QuietKeepsReliance(cont, s, p, info, j - 1);
      assert QuietNext(cont[j - 1], cont[j - 1 + 1], p);
      hide CanRelyOn, Do, Enabled;
      var step :| Enabled(cont[j - 1], step) && cont[j] == Do(cont[j - 1], step)
        && cont[j].row == cont[j - 1].row && !WritesIn(cont[j - 1], step, p);
      QuietStepKeepsReliance(cont[j - 1], step, p, info);
    }
  }

  lemma LateReaderHides(s: Sys, th: ThreadId, p: ProcessId, info: Info)
    requires IsLateReader(s, th, p, info)
    ensures !ShowsForGood(s, p, info)
  {
    hide Verdict;
    var s' := Do(s, Return(th));
    assert s'.row == s.row && CacheOf(s', p) != info;
    QuietPair(s, Return(th), p);
    assert [s, s'][|[s, s']| - 1] == s';
  }

  lemma QuietPair(s: Sys, step: Step, p: ProcessId)
    requires Enabled(s, step) && Do(s, step).row == s.row && !WritesIn(s, step, p)
    ensures IsQuiet([s, Do(s, step)], s, p)
  {
    hide Do, Enabled;
    assert QuietNext(s, Do(s, step), p);
  }

  /** A process goes on showing the committed row, in every continuation that keeps it, exactly
      when its cache shows it now and no reader of the process is late with another one. */
  lemma ShowsForGoodIff(s: Sys, p: ProcessId, info: Info)
    requires s.row == Some(info)
    ensures ShowsForGood(s, p, info) <==> CanRelyOn(s, p, info)
  {
    if CanRelyOn(s, p, info) {
      forall cont | IsQuiet(cont, s, p) ensures CacheOf(cont[|cont| - 1], p) == info {
        QuietKeepsReliance(cont, s, p, info, |cont| - 1);
      }
    } else if ShowsForGood(s, p, info) {
      assert IsQuiet([s], s, p) && [s][|[s]| - 1] == s;
      var th :| IsLateReader(s, th, p, info);
      LateReaderHides(s, th, p, info);
    }
  }

  /** After a change is committed, its process goes on showing it, whatever comes next without a
      further change, if and only if at the commit the cache showed it and no reader of the
      process was late with something else. */
  lemma CommitIsShownIff(s: Sys, th: ThreadId)
    requires Enabled(s, Commit(th)) && s.threads[th].pc.Writing?
    ensures var (p, info) := (s.threads[th].process, s.threads[th].pc.info);
      ShowsForGood(Do(s, Commit(th)), p, info)
      <==> CacheOf(s, p) == info && !exists a :: IsLateReader(s, a, p, info)
  {
    var p, info, s' := s.threads[th].process, s.threads[th].pc.info, Do(s, Commit(th));
    ShowsForGoodIff(s', p, info);
    forall a ensures IsLateReader(s', a, p, info) <==> IsLateReader(s, a, p, info) {
      if a != th {
        OneThreadMoves(s, Commit(th), a);
      }
    }
    hide ShowsForGood;
  }

  // ------------------------------------------------------- when the gate heals a cache

  /** A step that keeps the committed row, and with which nothing but gates arrives in p. */
  ghost predicate GateNext(s: Sys, s': Sys, p: ProcessId) {
    Next(s, s') && s'.row == s.row && NewcomersAreGates(s, s', p)
  }

  ghost predicate IsGating(cont: seq<Sys>, s: Sys, p: ProcessId) {
    cont != [] && cont[0] == s && forall i | 0 <= i < |cont| - 1 :: GateNext(cont[i], cont[i + 1], p)
  }

  /** Serving requests never changes the cache of p. */
  ghost predicate StuckWhileGating(s: Sys, p: ProcessId) {
    forall cont | IsGating(cont, s, p) :: CacheOf(cont[|cont| - 1], p) == CacheOf(s, p)
  }

  ghost predicate OnlyGateJobs(s: Sys, p: ProcessId) {
    forall th | th in s.threads && s.threads[th].process == p :: s.threads[th].job.Gate? || s.threads[th].pc == Over
  }

  lemma GatingIsQuiet(s: Sys, s': Sys, p: ProcessId)
    requires GateNext(s, s', p) && OnlyGateJobs(s, p)
    ensures QuietNext(s, s', p) && OnlyGateJobs(s', p)
  {
    var step :| Enabled(s, step) && s' == Do(s, step);
    hide Verdict;
    assert !WritesIn(s, step, p);
    forall th | th in s'.threads && s'.threads[th].process == p ensures s'.threads[th].job.Gate? || s'.threads[th].pc == Over {
      if th != step.th {
        OneThreadMoves(s, step, th);
      }
    }
  }

  lemma {:induction false} GatingKeepsCache(cont: seq<Sys>, s: Sys, p: ProcessId, j: nat)
    requires IsGating(cont, s, p) && j < |cont| && OnlyGates(s, p)
    requires CacheOf(s, p).state != Normal || CanRelyOn(s, p, CacheOf(s, p))
    ensures OnlyGateJobs(cont[j], p) && CacheOf(cont[j], p) == CacheOf(s, p)
    ensures CacheOf(s, p).state != Normal ==> Frozen(cont[j], p, CacheOf(s, p), s.threads.Keys)
    ensures CacheOf(s, p).state == Normal ==> CanRelyOn(cont[j], p, CacheOf(s, p))
  {
    if j > 0 {
      var cached := CacheOf(s, p);
      GatingKeepsCache(cont, s, p, j - 1);
      assert GateNext(cont[j - 1], cont[j - 1 + 1], p);
      GatingIsQuiet(cont[j - 1], cont[j], p);
      hide OnlyGateJobs, OnlyGates;
      if cached.state != Normal {
        FrozenNext(cont[j - 1], cont[j], p, cached, s.threads.Keys);
      } else {
        QuietNextKeepsReliance(cont[j - 1], cont[j], p, cached);
      }
    }
  }

  lemma QuietNextKeepsReliance(s: Sys, s': Sys, p: ProcessId, info: Info)
    requires QuietNext(s, s', p) && CanRelyOn(s, p, info)
    ensures CanRelyOn(s', p, info)
  {
    hide CanRelyOn, Do, Enabled;
    var step :| Enabled(s, step) && s' == Do(s, step) && s'.row == s.row && !WritesIn(s, step, p);
    QuietStepKeepsReliance(s, step, p, info);
  }

  lemma {:induction false} UnusedThread(used: set<ThreadId>) returns (th: ThreadId)
    ensures th !in used && forall a | a in used :: a < th
    decreases |used|
  {
    if used == {} {
      th := 0;
    } else {
      var a :| a in used;
      th := UnusedThread(used - {a});
      assert forall b | b in used :: b == a || b in used - {a};
      th := if th <= a then a + 1 else th;
    }
  }

  /** One request through the gate of p, as long as nobody else moves. */
  lemma OneRequestHeals(s: Sys, p: ProcessId, row: Info) returns (cont: seq<Sys>)
    requires s.row == Some(row) && CacheOf(s, p).state == Normal
    ensures IsGating(cont, s, p) && CacheOf(cont[|cont| - 1], p) == row
  {
    var th := UnusedThread(s.threads.Keys);
    hide Verdict, IsRecovery;
    var s1 := Do(s, Arrive(th, p, Gate(WRITE_CALL)));
    var s2 := Do(s1, CheckCache(th));
    assert s2 == Put(s1, th, Asking);
    var s3 := Do(s2, Query(th));
    var s4 := Do(s3, Return(th));
    assert CacheOf(s4, p) == row;
    cont := [s, s1, s2, s3, s4];
    GatePair(s, Arrive(th, p, Gate(WRITE_CALL)), p);
    GatePair(s1, CheckCache(th), p);
    GatePair(s2, Query(th), p);
    GatePair(s3, Return(th), p);
  }

  lemma GatePair(s: Sys, step: Step, p: ProcessId)
    requires Enabled(s, step) && Do(s, step).row == s.row && NewcomersAreGates(s, Do(s, step), p)
    ensures GateNext(s, Do(s, step), p)
  {
    hide Enabled, Do, NewcomersAreGates;
  }

  /** Whether serving requests repairs a cache: with a committed row that stays and nothing but
      gates in the process, the cache never changes if and only if it is not NORMAL, or shows the
      row already.  Only a NORMAL cache that is wrong is corrected by the gate. */
  lemma GateHealsIff(s: Sys, p: ProcessId)
    requires OnlyGates(s, p) && s.row.Some?
    ensures StuckWhileGating(s, p) <==> CacheOf(s, p).state != Normal || s.row == Some(CacheOf(s, p))
  {
    var cached := CacheOf(s, p);
    if cached.state != Normal || s.row == Some(cached) {
      assert CanRelyOn(s, p, cached) || cached.state != Normal;
      forall cont | IsGating(cont, s, p) ensures CacheOf(cont[|cont| - 1], p) == cached {
        GatingKeepsCache(cont, s, p, |cont| - 1);
      }
    } else {
      var cont := OneRequestHeals(s, p, s.row.value);
    }
  }
}
