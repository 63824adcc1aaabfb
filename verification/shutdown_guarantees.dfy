/** The gate is one-sidedly safe: a stale cache can refuse too much, never let a mutation pass
    while the committed state forbids it, as long as the database answers. */
module ShutdownGuarantees {
  import opened Options
  import opened Shutdown

  // --------------------------------------------------------------- what is seen

  /** Thread th was already here at some moment up to j when the committed row was this. */
  ghost predicate SeenBy(run: seq<Sys>, j: nat, th: ThreadId, row: Option<Info>)
    requires j < |run|
  {
    exists i :: 0 <= i <= j && th in run[i].threads && run[i].row == row
  }

  /** What a thread knows about the row was committed while the thread was waiting. */
  ghost predicate Grounded(run: seq<Sys>, j: nat, th: ThreadId)
    requires j < |run| && th in run[j].threads
  {
    var t := run[j].threads[th];
    && (t.pc.Answered? ==> SeenBy(run, j, th, t.pc.row))
    && (t.decision.Some? && t.decision.value.basis == ByRow ==> SeenBy(run, j, th, Some(t.decision.value.info)))
    && (t.decision.Some? && t.decision.value.basis == BySeed ==> SeenBy(run, j, th, None))
  }

  predicate DecidedSoundly(t: Thread) {
    t.decision.Some? ==>
      var d := t.decision.value;
      && t.job.Gate? && d.outcome == Verdict(d.info, t.job.call)
      && match d.basis
         case ByOverride => t.job.call.testOverride == Some(d.info)
         case ByCache => d.info.state != Normal && t.job.call.testOverride.None?
         case _ => t.job.call.testOverride.None?
  }

  /** A gate that has gone on to ask the database was not overridden. */
  predicate AskedSoundly(t: Thread) {
    t.job.Gate? && (t.pc == Asking || t.pc.Answered?) ==> t.job.call.testOverride.None?
  }

  ghost predicate Sound(s: Sys) {
    forall th | th in s.threads :: DecidedSoundly(s.threads[th]) && AskedSoundly(s.threads[th])
  }

  lemma OneThreadMoves(s: Sys, step: Step, th: ThreadId)
    requires Enabled(s, step) && th != step.th
    ensures th in Do(s, step).threads <==> th in s.threads
    ensures th in s.threads ==> Do(s, step).threads[th] == s.threads[th]
  {
    hide Verdict;
  }

  lemma StepKeepsSound(s: Sys, step: Step)
    requires Sound(s) && Enabled(s, step)
    ensures Sound(Do(s, step))
  {
    hide Verdict;
    var s' := Do(s, step);
    forall th | th in s'.threads ensures DecidedSoundly(s'.threads[th]) && AskedSoundly(s'.threads[th]) {
      if th != step.th {
        OneThreadMoves(s, step, th);
      }
    }
  }

  lemma {:induction false} RunIsSound(run: seq<Sys>, j: nat)
    requires IsRun(run) && j < |run|
    ensures Sound(run[j])
  {
    if j > 0 {
      RunIsSound(run, j - 1);
      assert Next(run[j - 1], run[j]);
      var step :| Enabled(run[j - 1], step) && run[j] == Do(run[j - 1], step);
      hide Do, Enabled, Sound;
      StepKeepsSound(run[j - 1], step);
    }
  }

  lemma {:induction false} RunIsGrounded(run: seq<Sys>, j: nat, th: ThreadId)
    requires IsRun(run) && j < |run| && th in run[j].threads
    ensures Grounded(run, j, th)
  {
    if j > 0 {
      var s, s' := run[j - 1], run[j];
      assert Next(s, s');
      var step :| Enabled(s, step) && s' == Do(s, step);
      hide IsRun, Next, Verdict;
      if th in s.threads {
        RunIsGrounded(run, j - 1, th);
        Earlier(run, j, th);
      }
      if th != step.th {
        OneThreadMoves(s, step, th);
      } else if step.Query? {
        assert s'.threads[th].pc.row == s.row;
        assert SeenBy(run, j, th, s.row);
      }
    }
  }

  lemma Earlier(run: seq<Sys>, j: nat, th: ThreadId)
    requires 0 < j < |run|
    ensures forall row | SeenBy(run, j - 1, th, row) :: SeenBy(run, j, th, row)
    ensures th in run[j - 1].threads ==> SeenBy(run, j, th, run[j - 1].row)
  {
    forall row | SeenBy(run, j - 1, th, row) ensures SeenBy(run, j, th, row) {
      var i :| 0 <= i <= j - 1 && th in run[i].threads && run[i].row == row;
    }
  }

  // ---------------------------------------------------------------- the verdict

  /** When a mutation without exception passes, in terms of the state the gate went by. */
  lemma PlainMutationVerdict(info: Info, call: Call)
    requires IsPlainMutation(call)
    ensures Verdict(info, call) == Passes <==> info.state == Normal
  {
  }

  /** The whole table of the gate. */
  lemma VerdictTable(info: Info, call: Call)
    ensures Verdict(info, call) == Passes <==>
      match info.state
      case Normal => true
      case Degraded => !IsMutation(call) || call.allowInDegraded
      case EmergencyShutdown => IsRecovery(call.path) || (!IsMutation(call) && IsOwner(call))
    ensures Verdict(info, call).Refused? ==>
      Verdict(info, call) == Refused(if info.state == Degraded then 60 else 300, info)
  {
  }

  ghost predicate HasDecided(s: Sys, th: ThreadId, d: Decision) {
    th in s.threads && s.threads[th].decision == Some(d)
  }

  /** One-sided safety, for any number of processes, whatever their caches hold and however
      cache writes, commits and rollbacks interleave: a plain mutation that passes, not
      overridden and with the database answering, was here at a moment when the committed
      state was NORMAL, or when there was no committed state at all. */
  lemma PassedMutationSawNormal(run: seq<Sys>, j: nat, th: ThreadId, d: Decision)
    requires IsRun(run) && j < |run| && HasDecided(run[j], th, d)
    requires run[j].threads[th].job.Gate? && IsPlainMutation(run[j].threads[th].job.call)
    requires run[j].threads[th].job.call.testOverride.None?
    requires d.basis != ByFallback && d.outcome == Passes
    ensures exists i :: 0 <= i <= j && th in run[i].threads && (run[i].row.Some? ==> run[i].row.value.state == Normal)
    ensures d.basis == ByRow ==> SeenBy(run, j, th, Some(d.info)) && d.info.state == Normal
    ensures d.basis == BySeed ==> SeenBy(run, j, th, None) && d.info.state == Normal
  {
    RunIsSound(run, j);
    RunIsGrounded(run, j, th);
    PlainMutationVerdict(d.info, run[j].threads[th].job.call);
    hide IsRun, Verdict, IsPlainMutation;
  }

  lemma {:induction false} ThreadsStay(run: seq<Sys>, i: nat, j: nat, th: ThreadId)
    requires IsRun(run) && i <= j < |run| && th in run[i].threads
    ensures th in run[j].threads && run[j].threads[th].job == run[i].threads[th].job
    ensures run[j].threads[th].process == run[i].threads[th].process
  {
    if i < j {
      ThreadsStay(run, i, j - 1, th);
      assert Next(run[j - 1], run[j]);
      var step :| Enabled(run[j - 1], step) && run[j] == Do(run[j - 1], step);
      hide IsRun, Verdict;
      if th != step.th {
        OneThreadMoves(run[j - 1], step, th);
      }
    }
  }

  predicate Restricted(row: Option<Info>) {
    row.Some? && row.value.state != Normal
  }

  /** While the committed state is anything but NORMAL, every plain mutation that arrives is
      refused, in every process, whatever its cache says, if the database answers. */
  lemma RestrictionHolds(run: seq<Sys>, a: nat, b: nat, th: ThreadId, d: Decision)
    requires IsRun(run) && a <= b < |run|
    requires forall i | a <= i <= b :: Restricted(run[i].row)
    requires th !in run[a].threads && HasDecided(run[b], th, d)
    requires run[b].threads[th].job.Gate? && IsPlainMutation(run[b].threads[th].job.call)
    requires run[b].threads[th].job.call.testOverride.None? && d.basis != ByFallback
    ensures d.outcome.Refused?
  {
    if d.outcome == Passes {
      PassedMutationSawNormal(run, b, th, d);
      var i :| 0 <= i <= b && th in run[i].threads && (run[i].row.Some? ==> run[i].row.value.state == Normal);
      assert !Restricted(run[i].row);
      ThreadsStay(run, i, a, th);
      assert false;
    }
  }
}
