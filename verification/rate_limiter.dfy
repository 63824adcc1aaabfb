/** The sliding-window rate limiter: a pruned list of attempt times per key. */
module RateLimiter {
  import opened Options

  type Key = string

  datatype Limits = Limits(maxRequests: int, window: int)

  datatype Verdict =
    | Allowed
    | Limited(retryAfter: int)
    | Raised                       // the list is read before it has an element

  /** The times after the cutoff, in order. */
  function Prune(ts: seq<real>, cutoff: real): seq<real> {
    if ts == [] then []
    else if ts[0] > cutoff then [ts[0]] + Prune(ts[1..], cutoff)
    else Prune(ts[1..], cutoff)
  }

  function Live(limits: Limits, ts: seq<real>, now: real): seq<real> {
    Prune(ts, now - limits.window as real)
  }

  /** Python's int() on the remaining time: towards zero. */
  function Truncate(x: real): int {
    if x >= 0.0 then x.Floor else -((-x).Floor)
  }

  function Max(a: int, b: int): int { if a < b then b else a }

  /** What check decides from the attempts that are still live. */
  function Decide(limits: Limits, live: seq<real>, now: real): Verdict {
    if |live| < limits.maxRequests then Allowed
    else if live == [] then Raised
    else Limited(Max(1, Truncate(limits.window as real - (now - live[0])) + 1))
  }

  class SlidingWindowRateLimiter {
    const limits: Limits
    var records: map<Key, seq<real>>

    constructor (maxRequests: int := 5, windowSeconds: int := 60)
      ensures limits == Limits(maxRequests, windowSeconds) && records == map[]
    {
      limits := Limits(maxRequests, windowSeconds);
      records := map[];
    }

    /** The attempts on record for a key; a key not seen yet has none. */
    function Attempts(key: Key): seq<real>
      reads this
    {
      if key in records then records[key] else []
    }

    /** Drops the expired attempts of the key, one by one. */
    method PruneKey(key: Key, now: real)
      modifies this
      ensures records == old(records)[key := Live(limits, old(Attempts(key)), now)]
    {
      var ts := Attempts(key);
      var cutoff := now - limits.window as real;
      var kept := [];
      for i := 0 to |ts|
        invariant kept + Prune(ts[i..], cutoff) == Prune(ts, cutoff)
      {
        assert ts[i..][1..] == ts[i + 1..];
        if ts[i] > cutoff {
          kept := kept + [ts[i]];
        }
      }
      assert kept + Prune(ts[|ts|..], cutoff) == kept;
      records := records[key := kept];
    }

    method Check(key: Key, now: real) returns (v: Verdict)
      modifies this
      ensures records == old(records)[key := Live(limits, old(Attempts(key)), now)]
      ensures v == Decide(limits, Live(limits, old(Attempts(key)), now), now)
    {
      PruneKey(key, now);
      var timestamps := records[key];
      if |timestamps| >= limits.maxRequests {
        if |timestamps| == 0 {
          return Raised;
        }
        var oldest := timestamps[0];
        var retryAfter := Truncate(limits.window as real - (now - oldest)) + 1;
        return Limited(Max(1, retryAfter));
      }
      return Allowed;
    }

    method RecordAttempt(key: Key, now: real)
      modifies this
      ensures records == old(records)[key := Live(limits, old(Attempts(key)), now) + [now]]
    {
      PruneKey(key, now);
      records := records[key := records[key] + [now]];
    }

    method Reset(key: Key)
      modifies this
      ensures records == old(records) - {key} && Attempts(key) == []
    {
      records := records - {key};
    }

    method ClearAll()
      modifies this
      ensures records == map[]
    {
      records := map[];
    }
  }

  // ------------------------------------------- the pruned list and the history

  /** What happens to one key, with the time each operation reads. */
  datatype Op = Checked(now: real) | Recorded(now: real) | WasReset(now: real)

  /** The list kept for the key. */
  function Kept(limits: Limits, ops: seq<Op>): seq<real> {
    if ops == [] then []
    else
      var before := Kept(limits, ops[..|ops| - 1]);
      match ops[|ops| - 1]
      case Checked(now) => Live(limits, before, now)
      case Recorded(now) => Live(limits, before, now) + [now]
      case WasReset(_) => []
  }

  /** Every attempt since the last reset, never pruned. */
  function History(ops: seq<Op>): seq<real> {
    if ops == [] then []
    else
      var before := History(ops[..|ops| - 1]);
      match ops[|ops| - 1]
      case Checked(_) => before
      case Recorded(now) => before + [now]
      case WasReset(_) => []
  }

  ghost predicate Ordered(ops: seq<Op>) {
    forall i, j | 0 <= i < j < |ops| :: ops[i].now <= ops[j].now
  }

  ghost predicate Sorted(ts: seq<real>) {
    forall i, j | 0 <= i < j < |ts| :: ts[i] <= ts[j]
  }

  lemma SortedAppend(ts: seq<real>, t: real)
    requires Sorted(ts) && forall u | u in ts :: u <= t
    ensures Sorted(ts + [t])
  {
    var us := ts + [t];
    forall i, j | 0 <= i < j < |us| ensures us[i] <= us[j] {
      if j == |ts| {
        assert us[i] in ts;
      }
    }
  }

  lemma SortedCons(t: real, ts: seq<real>)
    requires Sorted(ts) && forall u | u in ts :: t <= u
    ensures Sorted([t] + ts)
  {
    var us := [t] + ts;
    forall i, j | 0 <= i < j < |us| ensures us[i] <= us[j] {
      if i == 0 {
        assert us[j] in ts;
      }
    }
  }

  lemma {:induction false} PruneAppend(ts: seq<real>, t: real, cutoff: real)
    ensures Prune(ts + [t], cutoff) == Prune(ts, cutoff) + if t > cutoff then [t] else []
  {
    if ts == [] {
      assert ts + [t] == [t];
    } else {
      assert (ts + [t])[1..] == ts[1..] + [t];
      PruneAppend(ts[1..], t, cutoff);
    }
  }

  /** Pruning again at a later cutoff forgets that it was pruned before. */
  lemma {:induction false} PruneTwice(ts: seq<real>, a: real, b: real)
    requires a <= b
    ensures Prune(Prune(ts, a), b) == Prune(ts, b)
  {
    if ts != [] {
      PruneTwice(ts[1..], a, b);
      if ts[0] > a {
        assert Prune(ts, a)[1..] == Prune(ts[1..], a);
      }
    }
  }

  /** At no earlier time than the last operation, the pruned list and the full history have
      the same live attempts, so they get the same verdict and the same Retry-After. */
  lemma {:induction false} PrunedListAgreesWithHistory(limits: Limits, ops: seq<Op>, now: real)
    requires Ordered(ops) && (ops != [] ==> ops[|ops| - 1].now <= now)
    ensures Live(limits, Kept(limits, ops), now) == Live(limits, History(ops), now)
    ensures Decide(limits, Live(limits, Kept(limits, ops), now), now) == Decide(limits, Live(limits, History(ops), now), now)
    decreases |ops|
  {
    if ops != [] {
      var before := ops[..|ops| - 1];
      var last := ops[|ops| - 1];
      var cutoff := now - limits.window as real;
      PrunedListAgreesWithHistory(limits, before, now);
      PruneTwice(Kept(limits, before), last.now - limits.window as real, cutoff);
      if last.Recorded? {
        PruneAppend(Live(limits, Kept(limits, before), last.now), last.now, cutoff);
        PruneAppend(History(before), last.now, cutoff);
      }
    }
  }

  /** Right after a check or an attempt the kept list is the full history since the last reset,
      filtered to the window. */
  lemma KeptIsFilteredHistory(limits: Limits, ops: seq<Op>)
    requires Ordered(ops) && ops != [] && !ops[|ops| - 1].WasReset? && limits.window > 0
    ensures Kept(limits, ops) == Live(limits, History(ops), ops[|ops| - 1].now)
  {
    var before := ops[..|ops| - 1];
    var last := ops[|ops| - 1];
    hide Live, Ordered, Kept, History, Decide;
    LastOperation(limits, ops);
    BeforeTheLast(limits, ops);
    if last.Recorded? {
      NewestIsLive(limits, History(before), last.now);
    }
  }

  lemma NewestIsLive(limits: Limits, ts: seq<real>, now: real)
    requires limits.window > 0
    ensures Live(limits, ts + [now], now) == Live(limits, ts, now) + [now]
  {
    PruneAppend(ts, now, now - limits.window as real);
  }

  lemma BeforeTheLast(limits: Limits, ops: seq<Op>)
    requires Ordered(ops) && ops != []
    ensures var (before, last) := (ops[..|ops| - 1], ops[|ops| - 1]);
      Live(limits, Kept(limits, before), last.now) == Live(limits, History(before), last.now)
  {
    hide Prune, Kept, History, Decide;
    PrunedListAgreesWithHistory(limits, ops[..|ops| - 1], ops[|ops| - 1].now);
  }

  lemma LastOperation(limits: Limits, ops: seq<Op>)
    requires ops != []
    ensures var (before, last) := (ops[..|ops| - 1], ops[|ops| - 1]);
      && (last.Checked? ==> Kept(limits, ops) == Live(limits, Kept(limits, before), last.now) && History(ops) == History(before))
      && (last.Recorded? ==>
            && Kept(limits, ops) == Live(limits, Kept(limits, before), last.now) + [last.now]
            && History(ops) == History(before) + [last.now])
  {
  }

  /** The history is in order of time. */
  lemma {:induction false} HistoryIsSorted(ops: seq<Op>)
    requires Ordered(ops)
    ensures Sorted(History(ops)) && forall t | t in History(ops) :: t <= ops[|ops| - 1].now
  {
    if ops != [] {
      var before := ops[..|ops| - 1];
      HistoryIsSorted(before);
      if ops[|ops| - 1].Recorded? {
        SortedAppend(History(before), ops[|ops| - 1].now);
      }
    }
  }

  lemma {:induction false} PruneFacts(ts: seq<real>, cutoff: real)
    ensures forall t :: t in Prune(ts, cutoff) <==> t in ts && t > cutoff
    ensures |Prune(ts, cutoff)| <= |ts|
    ensures Sorted(ts) ==> Sorted(Prune(ts, cutoff))
  {
    if ts != [] {
      PruneFacts(ts[1..], cutoff);
      assert ts == [ts[0]] + ts[1..];
      if Sorted(ts) && ts[0] > cutoff {
        forall u | u in Prune(ts[1..], cutoff) ensures ts[0] <= u {
          assert u in ts[1..];
        }
        SortedCons(ts[0], Prune(ts[1..], cutoff));
      }
    }
  }

  /** So is the kept list. */
  lemma {:induction false} KeptIsSorted(limits: Limits, ops: seq<Op>)
    requires Ordered(ops)
    ensures Sorted(Kept(limits, ops)) && forall t | t in Kept(limits, ops) :: t <= ops[|ops| - 1].now
  {
    if ops != [] {
      var before := ops[..|ops| - 1];
      var now := ops[|ops| - 1].now;
      KeptIsSorted(limits, before);
      PruneFacts(Kept(limits, before), now - limits.window as real);
      if ops[|ops| - 1].Recorded? {
        SortedAppend(Live(limits, Kept(limits, before), now), now);
      }
    }
  }

  // -------------------------------------------------------------- Retry-After

  /** On a sorted list, what is left after the cutoff is the end of the list. */
  lemma {:induction false} SortedPruneCount(ts: seq<real>, cutoff: real, n: nat)
    requires Sorted(ts) && 1 <= n <= |ts|
    ensures |Prune(ts, cutoff)| < n <==> ts[|ts| - n] <= cutoff
  {
    if ts[0] > cutoff {
      AllLive(ts, cutoff);
    } else if n < |ts| {
      SortedPruneCount(ts[1..], cutoff, n);
    } else {
      PruneFacts(ts[1..], cutoff);
    }
  }

  lemma {:induction false} AllLive(ts: seq<real>, cutoff: real)
    requires forall i | 0 <= i < |ts| :: ts[i] > cutoff
    ensures Prune(ts, cutoff) == ts
  {
    if ts != [] {
      AllLive(ts[1..], cutoff);
      assert ts == [ts[0]] + ts[1..];
    }
  }

  /** A sorted list of live attempts, none in the future, that is at or over the limit. */
  ghost predicate Full(limits: Limits, live: seq<real>, now: real) {
    && Sorted(live) && (forall t | t in live :: now - limits.window as real < t <= now)
    && 1 <= limits.maxRequests <= |live|
  }

  /** Retry-After lies between one second and the window plus one second, and exceeds the time
      until the oldest attempt expires by at most one second. */
  lemma RetryAfterIsTight(limits: Limits, live: seq<real>, now: real)
    requires Full(limits, live, now)
    ensures Decide(limits, live, now).Limited?
    ensures var wait := Decide(limits, live, now).retryAfter;
      var needed := live[0] + limits.window as real - now;
      1 <= wait <= limits.window + 1 && needed < wait as real <= needed + 1.0
  {
    assert live[0] in live;
  }

  /** Waiting the Retry-After seconds without a new attempt lets check pass exactly when the
      attempt that is maxRequests-th from the end has expired by then. */
  lemma WaitingSuffices(limits: Limits, live: seq<real>, now: real)
    requires Full(limits, live, now)
    ensures var later := now + Decide(limits, live, now).retryAfter as real;
      Decide(limits, Live(limits, live, later), later) == Allowed
      <==> live[|live| - limits.maxRequests] <= later - limits.window as real
  {
    var later := now + Decide(limits, live, now).retryAfter as real;
    SortedPruneCount(live, later - limits.window as real, limits.maxRequests);
  }

  /** With exactly maxRequests live attempts waiting always suffices, and no wait shorter than
      the time until the oldest expires does. */
  lemma WaitingSufficesAtTheLimit(limits: Limits, live: seq<real>, now: real, wait: real)
    requires Full(limits, live, now) && |live| == limits.maxRequests && 0.0 <= wait
    ensures var later := now + Decide(limits, live, now).retryAfter as real;
      Decide(limits, Live(limits, live, later), later) == Allowed
    ensures Decide(limits, Live(limits, live, now + wait), now + wait) == Allowed
      <==> live[0] + limits.window as real - now <= wait
  {
    RetryAfterIsTight(limits, live, now);
    WaitingSuffices(limits, live, now);
    SortedPruneCount(live, now + wait - limits.window as real, limits.maxRequests);
  }

  /** Over the limit it need not: here the second attempt is still live after the wait. */
  lemma WaitingCanFallShort()
    ensures var limits := Limits(1, 60);
      var live := [0.0, 30.0];
      && Full(limits, live, 30.0)
      && Decide(limits, live, 30.0) == Limited(31)
      && Decide(limits, Live(limits, live, 61.0), 61.0) != Allowed
  {
    var limits := Limits(1, 60);
    var live := [0.0, 30.0];
    assert Full(limits, live, 30.0);
    WaitingSuffices(limits, live, 30.0);
  }
}
