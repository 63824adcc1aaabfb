/** When the rate limiter lets a request through, in terms of what happened to its key. */
module RateLimitAnswers {
  import opened RateLimiter
  import P = RateLimitProtocol

  /** Operation i recorded an attempt, and the key has not been reset since. */
  predicate Stands(ops: seq<Op>, i: nat) {
    i < |ops| && ops[i].Recorded? && forall j | i < j < |ops| :: !ops[j].WasReset?
  }

  /** The attempts that stand and are less than a window old. */
  function Counting(limits: Limits, ops: seq<Op>, now: real): set<nat> {
    set i: nat | i < |ops| && Stands(ops, i) && now - ops[i].now < limits.window as real
  }

  lemma CountingNext(limits: Limits, ops: seq<Op>, op: Op, now: real)
    ensures Counting(limits, ops + [op], now) ==
      if op.WasReset? then {}
      else if op.Recorded? && now - op.now < limits.window as real then Counting(limits, ops, now) + {|ops|}
      else Counting(limits, ops, now)
  {
    var longer := ops + [op];
    forall i: nat ensures Stands(longer, i) <==> !op.WasReset? && (Stands(ops, i) || (op.Recorded? && i == |ops|)) {
      if Stands(longer, i) && i < |ops| {
        assert !longer[|ops|].WasReset?;
        assert forall j | i < j < |ops| :: longer[j] == ops[j];
      }
    }
    assert forall i: nat | i < |ops| :: longer[i] == ops[i];
  }

  lemma {:induction false} LiveAreCounting(limits: Limits, ops: seq<Op>, now: real)
    ensures |Live(limits, History(ops), now)| == |Counting(limits, ops, now)|
  {
    if ops != [] {
      var (before, op) := (ops[..|ops| - 1], ops[|ops| - 1]);
      assert ops == before + [op];
      LiveAreCounting(limits, before, now);
      CountingNext(limits, before, op, now);
      if op.Recorded? {
        PruneAppend(History(before), op.now, now - limits.window as real);
      }
    }
  }

  /** The verdict of a check on a key, whatever was pruned before: it passes exactly when fewer attempts
      count than the limit allows, and breaks on an empty list when the limit allows none at all. */
  lemma CheckPassesIff(limits: Limits, ops: seq<Op>, now: real)
    requires Ordered(ops) && (ops != [] ==> ops[|ops| - 1].now <= now)
    ensures var verdict := Decide(limits, Live(limits, Kept(limits, ops), now), now);
      var count := |Counting(limits, ops, now)|;
      && (verdict.Allowed? <==> count < limits.maxRequests)
      && (verdict.Raised? <==> limits.maxRequests <= 0 && count == 0)
      && (verdict.Limited? <==> limits.maxRequests <= count && 0 < count)
  {
    PrunedListAgreesWithHistory(limits, ops, now);
    LiveAreCounting(limits, ops, now);
  }

  /** In every run a login gets past the limiter exactly when fewer failed attempts since the last
      success, less than a window old, are on record than the limit allows; who gets past is in flight
      until authentication fails, succeeds or breaks. */
  lemma BeginPassesIff(limits: Limits, k: nat, s: P.Sys)
    requires P.Reachable(limits, k, s)
    ensures var s' := P.Do(limits, s, P.Begin);
      && s'.inFlight == s.inFlight + (if |Counting(limits, s.ops, s.clock)| < limits.maxRequests then 1 else 0)
      && s'.clock == s.clock && Counting(limits, s'.ops, s.clock) == Counting(limits, s.ops, s.clock)
  {
    ReachableIsOrdered(limits, k, s);
    CheckPassesIff(limits, s.ops, s.clock);
    CountingNext(limits, s.ops, Checked(s.clock), s.clock);
    hide P.Reachable, Decide, Live, Kept, Counting;
  }

  /** What the outcome of an authentication does to what counts: a failure adds one attempt, a success
      leaves none, any other error changes nothing. */
  lemma OutcomeCounts(limits: Limits, s: P.Sys)
    requires s.inFlight > 0 && 0 < limits.window
    ensures var (refused, accepted, broken) := (P.Do(limits, s, P.Refused), P.Do(limits, s, P.Accepted), P.Do(limits, s, P.Broken));
      && Counting(limits, refused.ops, s.clock) == Counting(limits, s.ops, s.clock) + {|s.ops|}
      && Counting(limits, accepted.ops, s.clock) == {}
      && broken.ops == s.ops
      && refused.inFlight == accepted.inFlight == broken.inFlight == s.inFlight - 1
      && refused.clock == accepted.clock == broken.clock == s.clock
  {
    CountingNext(limits, s.ops, Recorded(s.clock), s.clock);
    CountingNext(limits, s.ops, WasReset(s.clock), s.clock);
    hide Counting;
  }

  // ------------------------------------------------------------- the clock of a run

  ghost predicate IsOrdered(s: P.Sys) {
    Ordered(s.ops) && (s.ops != [] ==> s.ops[|s.ops| - 1].now <= s.clock)
  }

  lemma StepKeepsOrdered(limits: Limits, s: P.Sys, step: P.Step)
    requires IsOrdered(s) && P.Enabled(s, step)
    ensures IsOrdered(P.Do(limits, s, step))
  {
    P.AppendOp(limits, s, Checked(s.clock));
    P.AppendOp(limits, s, Recorded(s.clock));
    P.AppendOp(limits, s, WasReset(s.clock));
    hide Ordered, History, P.Passes;
  }

  lemma {:induction false} RunIsOrdered(limits: Limits, k: nat, run: seq<P.Sys>, i: nat)
    requires P.IsRun(limits, k, run) && i < |run|
    ensures IsOrdered(run[i])
  {
    if i > 0 {
      RunIsOrdered(limits, k, run, i - 1);
      assert P.Next(limits, run[i - 1], run[i - 1 + 1]);
      var step :| P.Enabled(run[i - 1], step) && run[i] == P.Do(limits, run[i - 1], step);
      hide IsOrdered, P.Do, P.IsRun;
      StepKeepsOrdered(limits, run[i - 1], step);
    }
  }

  lemma ReachableIsOrdered(limits: Limits, k: nat, s: P.Sys)
    requires P.Reachable(limits, k, s)
    ensures IsOrdered(s)
  {
    var run :| P.IsRun(limits, k, run) && run[|run| - 1] == s;
    RunIsOrdered(limits, k, run, |run| - 1);
  }
}
