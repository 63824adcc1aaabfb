/** Login and refresh requests around the rate limiter: each checks first, and records or
    resets only after its credentials were examined, so requests overlap in between. */
module RateLimitProtocol {
  import opened RateLimiter

  /** One key of the limiter: its operations so far, the requests that passed the check and
      have not finished, and the clock. */
  datatype Sys = Sys(ops: seq<Op>, inFlight: nat, clock: real)

  datatype Step =
    | Tick(later: real)
    | Begin          // check: allowed requests go on, the others are refused
    | Refused        // authentication failed: the attempt is recorded
    | Accepted       // authentication succeeded: the history is reset
    | Broken         // any other error: neither

  const Init := Sys([], 0, 0.0)

  predicate Enabled(s: Sys, step: Step) {
    match step
    case Tick(later) => s.clock <= later
    case Begin => true
    case _ => s.inFlight > 0
  }

  function Passes(limits: Limits, s: Sys): bool {
    Decide(limits, Live(limits, Kept(limits, s.ops), s.clock), s.clock) == Allowed
  }

  function Do(limits: Limits, s: Sys, step: Step): Sys
    requires Enabled(s, step)
  {
    match step
    case Tick(later) => s.(clock := later)
    case Begin => Sys(s.ops + [Checked(s.clock)], if Passes(limits, s) then s.inFlight + 1 else s.inFlight, s.clock)
    case Refused => Sys(s.ops + [Recorded(s.clock)], s.inFlight - 1, s.clock)
    case Accepted => Sys(s.ops + [WasReset(s.clock)], s.inFlight - 1, s.clock)
    case Broken => s.(inFlight := s.inFlight - 1)
  }

  ghost predicate Next(limits: Limits, s: Sys, s': Sys) {
    exists step :: Enabled(s, step) && s' == Do(limits, s, step)
  }

  /** A run in which at most k requests are ever between check and outcome. */
  ghost predicate IsRun(limits: Limits, k: nat, run: seq<Sys>) {
    && run != [] && run[0] == Init
    && (forall i | 0 <= i < |run| :: run[i].inFlight <= k)
    && forall i | 0 <= i < |run| - 1 :: Next(limits, run[i], run[i + 1])
  }

  ghost predicate Reachable(limits: Limits, k: nat, s: Sys) {
    exists run :: IsRun(limits, k, run) && run[|run| - 1] == s
  }

  /** The attempts that count against the next request. */
  function LiveCount(limits: Limits, s: Sys): nat {
    |Live(limits, Kept(limits, s.ops), s.clock)|
  }

  // ---------------------------------------------------------------- invariant

  /** Any bound + 1 attempts in a row span at least a whole window. */
  ghost predicate Spread(window: int, bound: int, h: seq<real>) {
    forall i, j | 0 <= i < j < |h| && j - i >= bound :: h[i] + window as real <= h[j]
  }

  ghost predicate Inv(limits: Limits, k: nat, s: Sys) {
    && Ordered(s.ops) && (s.ops != [] ==> s.ops[|s.ops| - 1].now <= s.clock)
    && LiveCount(limits, s) + s.inFlight <= limits.maxRequests + k - 1
    && Spread(limits.window, limits.maxRequests + k - 1, History(s.ops))
  }

  lemma AppendOp(limits: Limits, s: Sys, op: Op)
    requires Ordered(s.ops) && (s.ops != [] ==> s.ops[|s.ops| - 1].now <= s.clock) && op.now == s.clock
    ensures Ordered(s.ops + [op])
    ensures History(s.ops + [op]) ==
      match op { case Checked(_) => History(s.ops) case Recorded(now) => History(s.ops) + [now] case WasReset(_) => [] }
  {
    var ops := s.ops + [op];
    assert ops[..|ops| - 1] == s.ops;
    forall i, j | 0 <= i < j < |ops| ensures ops[i].now <= ops[j].now {
      if j == |s.ops| && i < |s.ops| - 1 {
        assert s.ops[i].now <= s.ops[|s.ops| - 1].now;
      }
    }
  }

  /** Counting on the pruned list or on the full history is the same. */
  lemma CountOnHistory(limits: Limits, ops: seq<Op>, now: real)
    requires Ordered(ops) && (ops != [] ==> ops[|ops| - 1].now <= now)
    ensures Live(limits, Kept(limits, ops), now) == Live(limits, History(ops), now)
  {
    PrunedListAgreesWithHistory(limits, ops, now);
  }

  lemma TickKeepsInv(limits: Limits, k: nat, s: Sys, later: real)
    requires Inv(limits, k, s) && s.clock <= later
    ensures Inv(limits, k, s.(clock := later))
  {
    var kept := Kept(limits, s.ops);
    PruneTwice(kept, s.clock - limits.window as real, later - limits.window as real);
    PruneFacts(Live(limits, kept, s.clock), later - limits.window as real);
  }

  lemma BeginKeepsInv(limits: Limits, k: nat, s: Sys)
    requires Inv(limits, k, s) && Do(limits, s, Begin).inFlight <= k
    ensures Inv(limits, k, Do(limits, s, Begin))
  {
    AppendOp(limits, s, Checked(s.clock));
    CountOnHistory(limits, s.ops, s.clock);
    CountOnHistory(limits, s.ops + [Checked(s.clock)], s.clock);
  }

  /** A recorded attempt is the newest; by then the one bound attempts back has expired. */
  lemma RecordKeepsSpread(limits: Limits, bound: int, h: seq<real>, now: real)
    requires Spread(limits.window, bound, h) && Sorted(h) && |Live(limits, h, now)| < bound && forall t | t in h :: t <= now
    ensures Spread(limits.window, bound, h + [now])
  {
    var h' := h + [now];
    forall i, j | 0 <= i < j < |h'| && j - i >= bound ensures h'[i] + limits.window as real <= h'[j] {
      if j == |h| {
        SortedPruneCount(h, now - limits.window as real, bound);
        assert h[i] <= h[|h| - bound];
      }
    }
  }

  lemma RefusedKeepsInv(limits: Limits, k: nat, s: Sys)
    requires Inv(limits, k, s) && s.inFlight > 0
    ensures Inv(limits, k, Do(limits, s, Refused))
  {
    hide Prune, Kept, Spread, Sorted;
    var op := Recorded(s.clock);
    AppendOp(limits, s, op);
    CountOnHistory(limits, s.ops, s.clock);
    CountOnHistory(limits, s.ops + [op], s.clock);
    PruneAppend(History(s.ops), s.clock, s.clock - limits.window as real);
    HistoryIsSorted(s.ops);
    RecordKeepsSpread(limits, limits.maxRequests + k - 1, History(s.ops), s.clock);
  }

  lemma AcceptedKeepsInv(limits: Limits, k: nat, s: Sys)
    requires Inv(limits, k, s) && s.inFlight > 0
    ensures Inv(limits, k, Do(limits, s, Accepted))
  {
    var op := WasReset(s.clock);
    AppendOp(limits, s, op);
    CountOnHistory(limits, s.ops + [op], s.clock);
  }

  lemma {:induction false} RunKeepsInv(limits: Limits, k: nat, run: seq<Sys>, i: int)
    requires 1 <= limits.maxRequests && IsRun(limits, k, run) && 0 <= i < |run|
    ensures Inv(limits, k, run[i])
  {
    if i > 0 {
      assert Next(limits, run[i - 1], run[i - 1 + 1]);
      hide Inv, Do, Passes;
      RunKeepsInv(limits, k, run, i - 1);
      var step :| Enabled(run[i - 1], step) && run[i] == Do(limits, run[i - 1], step);
      StepKeepsInv(limits, k, run[i - 1], step);
    }
  }

  lemma StepKeepsInv(limits: Limits, k: nat, s: Sys, step: Step)
    requires Inv(limits, k, s) && Enabled(s, step) && Do(limits, s, step).inFlight <= k
    ensures Inv(limits, k, Do(limits, s, step))
  {
    match step
    case Tick(later) => TickKeepsInv(limits, k, s, later);
    case Begin => BeginKeepsInv(limits, k, s);
    case Refused => RefusedKeepsInv(limits, k, s);
    case Accepted => AcceptedKeepsInv(limits, k, s);
    case Broken =>
  }

  // --------------------------------------------------------------- guarantees

  /** With at most k requests in flight, live attempts and requests in flight together never
      exceed maxRequests + k - 1; one request at a time never exceeds maxRequests. */
  lemma OvershootIsBounded(limits: Limits, k: nat, s: Sys)
    requires 1 <= limits.maxRequests && Reachable(limits, k, s)
    ensures LiveCount(limits, s) + s.inFlight <= limits.maxRequests + k - 1
  {
    var run :| IsRun(limits, k, run) && run[|run| - 1] == s;
    RunKeepsInv(limits, k, run, |run| - 1);
  }

  /** No window, wherever it lies, holds more than maxRequests + k - 1 of the attempts made
      since the last reset. */
  lemma EveryWindowIsBounded(limits: Limits, k: nat, s: Sys, i: nat, j: nat)
    requires 1 <= limits.maxRequests && Reachable(limits, k, s)
    requires i <= j < |History(s.ops)| && History(s.ops)[j] < History(s.ops)[i] + limits.window as real
    ensures j - i + 1 <= limits.maxRequests + k - 1
  {
    var run :| IsRun(limits, k, run) && run[|run| - 1] == s;
    RunKeepsInv(limits, k, run, |run| - 1);
    if i == j && limits.maxRequests + k - 1 < 1 {
      NobodyFlies(limits, run, |run| - 1);
    }
  }

  /** With k = 0 nothing is ever recorded. */
  lemma {:induction false} NobodyFlies(limits: Limits, run: seq<Sys>, i: int)
    requires IsRun(limits, 0, run) && 0 <= i < |run|
    ensures History(run[i].ops) == []
  {
    if i > 0 {
      NobodyFlies(limits, run, i - 1);
      assert Next(limits, run[i - 1], run[i - 1 + 1]);
      var step :| Enabled(run[i - 1], step) && run[i] == Do(limits, run[i - 1], step);
      if step.Begin? {
        assert run[i].ops[..|run[i].ops| - 1] == run[i - 1].ops;
      }
    }
  }

  // ---------------------------------------------------------------- tightness

  lemma Extend(limits: Limits, k: nat, s: Sys, step: Step)
    requires Reachable(limits, k, s) && Enabled(s, step) && Do(limits, s, step).inFlight <= k
    ensures Reachable(limits, k, Do(limits, s, step))
  {
    hide Do;
    var run :| IsRun(limits, k, run) && run[|run| - 1] == s;
    var run' := run + [Do(limits, s, step)];
    forall i | 0 <= i < |run'| - 1 ensures Next(limits, run'[i], run'[i + 1]) {
      if i < |run| - 1 {
        assert Next(limits, run[i], run[i + 1]);
      }
    }
    assert IsRun(limits, k, run') && run'[|run'| - 1] == Do(limits, s, step);
  }

  lemma InitIsReachable(limits: Limits, k: nat) returns (s: Sys)
    ensures s == Init && Reachable(limits, k, s) && AtZero(s) && LiveCount(limits, s) == 0
  {
    s := Init;
    assert IsRun(limits, k, [s]) && [s][|[s]| - 1] == s;
  }

  lemma {:induction false} FailInTurn(limits: Limits, k: nat, m: nat) returns (s: Sys)
    requires 0 < limits.window && 1 <= k && m < limits.maxRequests
    ensures Reachable(limits, k, s) && AtZero(s) && s.inFlight == 0 && LiveCount(limits, s) == m
  {
    if m == 0 {
      s := InitIsReachable(limits, k);
    } else {
      hide Reachable, AtZero, LiveCount, Decide;
      var t := FailInTurn(limits, k, m - 1);
      BeginCounts(limits, t);
      Extend(limits, k, t, Begin);
      var u := Do(limits, t, Begin);
      RefusedCounts(limits, u);
      Extend(limits, k, u, Refused);
      s := Do(limits, u, Refused);
    }
  }

  ghost predicate AtZero(s: Sys) {
    s.clock == 0.0 && Ordered(s.ops) && (s.ops != [] ==> s.ops[|s.ops| - 1].now <= 0.0)
  }

  lemma BeginCounts(limits: Limits, s: Sys)
    requires AtZero(s) && LiveCount(limits, s) < limits.maxRequests
    ensures var s' := Do(limits, s, Begin); AtZero(s') && s'.inFlight == s.inFlight + 1 && LiveCount(limits, s') == LiveCount(limits, s)
  {
    hide Prune, Kept, History, Ordered;
    AppendOp(limits, s, Checked(0.0));
    CountOnHistory(limits, s.ops, 0.0);
    CountOnHistory(limits, s.ops + [Checked(0.0)], 0.0);
  }

  lemma RefusedCounts(limits: Limits, s: Sys)
    requires AtZero(s) && s.inFlight > 0 && 0 < limits.window
    ensures var s' := Do(limits, s, Refused); AtZero(s') && s'.inFlight == s.inFlight - 1 && LiveCount(limits, s') == LiveCount(limits, s) + 1
  {
    AppendOp(limits, s, Recorded(0.0));
    CountOnHistory(limits, s.ops, 0.0);
    CountOnHistory(limits, s.ops + [Recorded(0.0)], 0.0);
    PruneAppend(History(s.ops), 0.0, 0.0 - limits.window as real);
  }

  lemma {:induction false} BeginTogether(limits: Limits, k: nat, n: nat) returns (s: Sys)
    requires 0 < limits.window && 1 <= limits.maxRequests && 1 <= k && n <= k
    ensures Reachable(limits, k, s) && AtZero(s) && s.inFlight == n && LiveCount(limits, s) == limits.maxRequests - 1
  {
    if n == 0 {
      s := FailInTurn(limits, k, limits.maxRequests - 1);
    } else {
      hide Reachable, AtZero, LiveCount;
      var t := BeginTogether(limits, k, n - 1);
      BeginCounts(limits, t);
      Extend(limits, k, t, Begin);
      s := Do(limits, t, Begin);
    }
  }

  /** The bound is reached: with k overlapping requests all failing, maxRequests + k - 1
      attempts are live at once. */
  lemma {:induction false} OvershootIsReached(limits: Limits, k: nat, n: nat) returns (s: Sys)
    requires 0 < limits.window && 1 <= limits.maxRequests && 1 <= k && n <= k
    ensures Reachable(limits, k, s) && AtZero(s) && s.inFlight == k - n
    ensures LiveCount(limits, s) == limits.maxRequests - 1 + n
  {
    if n == 0 {
      s := BeginTogether(limits, k, k);
    } else {
      hide Reachable, AtZero, LiveCount;
      var t := OvershootIsReached(limits, k, n - 1);
      RefusedCounts(limits, t);
      Extend(limits, k, t, Refused);
      s := Do(limits, t, Refused);
    }
  }

  // --------------------------------------------- an overshoot outlives Retry-After

  /** It happens with two overlapping requests at a limit of one: both pass the check, one fails
      at once and the other half a minute later, and then waiting the Retry-After seconds that
      the next check answers does not suffice. */
  lemma WaitingFallsShortInARun() returns (s: Sys)
    ensures var limits := Limits(1, 60);
      && Reachable(limits, 2, s) && s.clock == 30.0 && s.inFlight == 0
      && Kept(limits, s.ops) == [0.0, 30.0] && History(s.ops) == [0.0, 30.0]
      && var live := Live(limits, Kept(limits, s.ops), s.clock);
      && Decide(limits, live, s.clock) == Limited(31)
      && Decide(limits, Live(limits, live, 61.0), 61.0) != Allowed
  {
    var limits := Limits(1, 60);
    s := TwoPassTogether();
    hide Reachable;
    Extend(limits, 2, s, Refused);
    s := Do(limits, s, Refused);
    assert s.ops[..2] == [Checked(0.0), Checked(0.0)] && Kept(limits, s.ops) == [0.0];
    Extend(limits, 2, s, Tick(30.0));
    s := Do(limits, s, Tick(30.0));
    var before := s.ops;
    Extend(limits, 2, s, Refused);
    s := Do(limits, s, Refused);
    assert s.ops[..3] == before;
    AllLive([0.0], -30.0);
    AllLive([0.0, 30.0], -30.0);
    WaitingCanFallShort();
  }

  lemma TwoPassTogether() returns (s: Sys)
    ensures var limits := Limits(1, 60);
      && Reachable(limits, 2, s) && s == Sys([Checked(0.0), Checked(0.0)], 2, 0.0)
      && Kept(limits, s.ops) == [] && History(s.ops) == []
  {
    var limits := Limits(1, 60);
    s := InitIsReachable(limits, 2);
    hide Reachable;
    Extend(limits, 2, s, Begin);
    s := Do(limits, s, Begin);
    assert s == Sys([Checked(0.0)], 1, 0.0) && Kept(limits, s.ops) == [];
    var before := s.ops;
    Extend(limits, 2, s, Begin);
    s := Do(limits, s, Begin);
    assert s.ops[..1] == before;
  }
}
