/** The two retry loops: how often they call, how long they sleep, and whose answer they give.
    Times are exact real seconds. */
module Retry {
  import opened Options

  // ------------------------------------------------------------------ arithmetic

  function Pow(b: real, n: nat): real {
    if n == 0 then 1.0 else b * Pow(b, n - 1)
  }

  function Sum(xs: seq<real>): real {
    if xs == [] then 0.0 else Sum(xs[..|xs| - 1]) + xs[|xs| - 1]
  }

  /** 1 + b + b^2 + ..., n terms. */
  function Geometric(b: real, n: nat): real {
    if n == 0 then 0.0 else Geometric(b, n - 1) + Pow(b, n - 1)
  }

  lemma {:induction false} GeometricClosedForm(b: real, n: nat)
    ensures Geometric(b, n) * (b - 1.0) == Pow(b, n) - 1.0
  {
    if n > 0 {
      GeometricClosedForm(b, n - 1);
      assert Geometric(b, n) * (b - 1.0) == Geometric(b, n - 1) * (b - 1.0) + Pow(b, n - 1) * (b - 1.0);
    }
  }

  lemma {:induction false} PowIsAtLeastOne(b: real, n: nat)
    requires b >= 1.0
    ensures Pow(b, n) >= 1.0
  {
    if n > 0 {
      PowIsAtLeastOne(b, n - 1);
      assert b * Pow(b, n - 1) >= 1.0 * Pow(b, n - 1);
    }
  }

  lemma {:induction false} PowIsNonNegative(b: real, n: nat)
    requires b >= 0.0
    ensures Pow(b, n) >= 0.0
  {
    if n > 0 {
      PowIsNonNegative(b, n - 1);
    }
  }

  // -------------------------------------------------------- which call is decisive

  /** What a call answers: a value, a failure worth another try, or one that is not. */
  datatype Answer<T> = Ok(value: T) | Retryable(error: string) | Fatal(error: string)

  /** Call k is the one whose answer is given: nothing but retryable failures before it, and it is
      decisive itself or the last one allowed. */
  predicate Decides<T>(answers: seq<Answer<T>>, allowed: nat, k: nat) {
    && k < |answers| && k <= allowed
    && (forall i | 0 <= i < k :: answers[i].Retryable?)
    && (!answers[k].Retryable? || k == allowed)
  }

  lemma DecisiveCallIsUnique<T>(answers: seq<Answer<T>>, allowed: nat, k: nat, l: nat)
    requires Decides(answers, allowed, k) && Decides(answers, allowed, l)
    ensures k == l
  {
  }

  // ------------------------------------------------------------ the model provider

  datatype HttpReply = Status(code: int) | Timeout | ConnectError | Unexpected

  /** How the loop takes a reply: 5xx and 429 are retried like network failures. */
  function Judge(r: HttpReply): Answer<int> {
    match r
    case Status(code) =>
      if 200 <= code < 300 then Ok(code)
      else if code >= 500 || code == 429 then Retryable("http status")
      else Fatal("http status")
    case Timeout => Retryable("timeout")
    case ConnectError => Retryable("connect")
    case Unexpected => Fatal("unexpected")
  }

  function Judged(replies: seq<HttpReply>): seq<Answer<int>> {
    seq(|replies|, i requires 0 <= i < |replies| => Judge(replies[i]))
  }

  const PROVIDER_JITTER := 0.05

  function Doubled(base: real, n: nat): real {
    base * Pow(2.0, n)
  }

  /** The delay before the next call after the given failed attempt; no jitter without a base. */
  function BackoffDelay(base: real, attempt: nat, jitter: real): real
    requires attempt >= 1
  {
    var delay := Doubled(base, attempt - 1);
    delay + if delay > 0.0 then jitter else 0.0
  }

  /** n sleeps add up to base * (2^n - 1), plus at most 0.05 seconds each, and exactly to it
      without a base. */
  ghost predicate BackoffTotal(base: real, sleeps: seq<real>) {
    var plain := base * (Pow(2.0, |sleeps|) - 1.0);
    && plain <= Sum(sleeps) <= plain + PROVIDER_JITTER * |sleeps| as real
    && (base <= 0.0 ==> Sum(sleeps) == plain)
  }

  lemma BackoffGrows(base: real, sleeps: seq<real>, jitter: real)
    requires BackoffTotal(base, sleeps) && 0.0 <= jitter <= PROVIDER_JITTER
    ensures BackoffTotal(base, sleeps + [BackoffDelay(base, |sleeps| + 1, jitter)])
  {
    DelayBounds(base, |sleeps| + 1, jitter);
    var delay := BackoffDelay(base, |sleeps| + 1, jitter);
    assert (sleeps + [delay])[..|sleeps|] == sleeps;
    hide BackoffDelay;
  }

  /** The sleeps are the delays after the first failure, the second, and so on. */
  predicate AreBackoffs(base: real, jitters: seq<real>, sleeps: seq<real>) {
    |sleeps| <= |jitters| && forall i | 0 <= i < |sleeps| :: sleeps[i] == BackoffDelay(base, i + 1, jitters[i])
  }

  function Allowed(maxRetries: int): nat {
    if maxRetries < 0 then 0 else maxRetries
  }

  /** The provider loop.  It makes at most max(0, maxRetries) + 1 calls with a sleep between any
      two, and its result is the decisive call's. */
  method GenerateDecision(maxRetries: int, base: real, replies: seq<HttpReply>, jitters: seq<real>)
    returns (answer: Answer<int>, calls: nat, sleeps: seq<real>)
    requires |replies| > maxRetries && |replies| > 0 && |jitters| >= |replies|
    requires forall i | 0 <= i < |jitters| :: 0.0 <= jitters[i] <= PROVIDER_JITTER
    ensures calls == |sleeps| + 1 && calls <= Allowed(maxRetries) + 1
    ensures Decides(Judged(replies), Allowed(maxRetries), calls - 1)
    ensures answer == Judge(replies[calls - 1])
    ensures answer.Retryable? ==> calls == if maxRetries < 0 then 1 else maxRetries + 1
    ensures AreBackoffs(base, jitters, sleeps)
    ensures BackoffTotal(base, sleeps)
  {
    hide BackoffTotal, BackoffDelay, Judge;
    var attempt := 0;
    sleeps := [];
    calls := 0;
    NoBackoffYet(base);
    while true
      invariant 0 <= attempt <= Allowed(maxRetries) && calls == |sleeps| == attempt
      invariant forall i | 0 <= i < attempt :: Judge(replies[i]).Retryable?
      invariant AreBackoffs(base, jitters, sleeps)
      invariant BackoffTotal(base, sleeps)
      decreases |replies| - attempt
    {
      answer := Judge(replies[attempt]);
      calls := calls + 1;
      if !answer.Retryable? {
        return;
      }
      attempt := attempt + 1;
      if attempt > maxRetries {
        return;
      }
      BackoffGrows(base, sleeps, jitters[attempt - 1]);
      sleeps := sleeps + [BackoffDelay(base, attempt, jitters[attempt - 1])];
    }
  }

  lemma NoBackoffYet(base: real)
    ensures BackoffTotal(base, [])
  {
  }

  lemma DelayBounds(base: real, attempt: nat, jitter: real)
    requires attempt >= 1 && 0.0 <= jitter <= PROVIDER_JITTER
    ensures base * (Pow(2.0, attempt) - 1.0) == base * (Pow(2.0, attempt - 1) - 1.0) + Doubled(base, attempt - 1)
    ensures 0.0 <= BackoffDelay(base, attempt, jitter) - Doubled(base, attempt - 1) <= PROVIDER_JITTER
    ensures base <= 0.0 ==> BackoffDelay(base, attempt, jitter) == Doubled(base, attempt - 1)
  {
    PowIsAtLeastOne(2.0, attempt - 1);
    var p := Pow(2.0, attempt - 1);
    assert Pow(2.0, attempt) == 2.0 * p;
    assert base * (2.0 * p - 1.0) == base * (p - 1.0) + base * p;
    assert base <= 0.0 ==> base * p <= 0.0;
  }

  // ------------------------------------------------------------- external sync

  const MIN_DELAY := 0.001

  function PlainDelay(initial: real, factor: real, attempt: nat): real {
    initial * Pow(factor, attempt)
  }

  /** A uniform draw between the two bounds, from one in the unit interval. */
  function Uniform(lo: real, hi: real, draw: real): real {
    lo + (hi - lo) * draw
  }

  /** The caller's parameters of the backoff. */
  datatype Backoff = Backoff(initial: real, factor: real, jitter: bool, jitterFactor: real)

  function DelayOf(b: Backoff, attempt: nat, draw: real): real {
    var delay := PlainDelay(b.initial, b.factor, attempt);
    if b.jitter && b.jitterFactor > 0.0 then
      var moved := delay + Uniform(-b.jitterFactor * delay, b.jitterFactor * delay, draw);
      if moved < MIN_DELAY then MIN_DELAY else moved
    else delay
  }

  /** The share of the plain delay that jitter may add or take away. */
  function Share(b: Backoff): real {
    if b.jitter && b.jitterFactor > 0.0 then b.jitterFactor else 0.0
  }

  /** The least and, but for the floor, the most that jitter makes of one delay, and of the first
      n delays together. */
  function LeastDelay(b: Backoff, attempt: nat): real {
    (1.0 - Share(b)) * PlainDelay(b.initial, b.factor, attempt)
  }

  function MostDelay(b: Backoff, attempt: nat): real {
    (1.0 + Share(b)) * PlainDelay(b.initial, b.factor, attempt)
  }

  function LeastTotal(b: Backoff, n: nat): real {
    (1.0 - Share(b)) * (b.initial * Geometric(b.factor, n))
  }

  function MostTotal(b: Backoff, n: nat): real {
    (1.0 + Share(b)) * (b.initial * Geometric(b.factor, n))
  }

  lemma NextTerm(b: Backoff, n: nat)
    ensures LeastTotal(b, n + 1) == LeastTotal(b, n) + LeastDelay(b, n)
    ensures MostTotal(b, n + 1) == MostTotal(b, n) + MostDelay(b, n)
    ensures LeastTotal(b, 0) == 0.0 == MostTotal(b, 0)
  {
    var share, g, d := Share(b), b.initial * Geometric(b.factor, n), PlainDelay(b.initial, b.factor, n);
    assert b.initial * Geometric(b.factor, n + 1) == g + d;
    assert (1.0 - share) * (g + d) == (1.0 - share) * g + (1.0 - share) * d;
    assert (1.0 + share) * (g + d) == (1.0 + share) * g + (1.0 + share) * d;
  }

  /** One delay against the plain one. */
  lemma JitterBounds(b: Backoff, attempt: nat, draw: real)
    requires b.initial >= 0.0 && b.factor >= 0.0 && 0.0 <= draw <= 1.0
    ensures LeastDelay(b, attempt) <= DelayOf(b, attempt, draw) <= MostDelay(b, attempt) + MIN_DELAY
    ensures LeastDelay(b, attempt) >= MIN_DELAY ==> DelayOf(b, attempt, draw) <= MostDelay(b, attempt)
  {
    PowIsNonNegative(b.factor, attempt);
    var plain, share := PlainDelay(b.initial, b.factor, attempt), Share(b);
    assert plain >= 0.0;
    var width := share * plain;
    assert width >= 0.0;
    assert (1.0 - share) * plain == plain - width && (1.0 + share) * plain == plain + width;
    if b.jitter && b.jitterFactor > 0.0 {
      assert -b.jitterFactor * plain == -width && b.jitterFactor * plain == width;
      UniformBounds(width, draw);
    }
  }

  lemma UniformBounds(width: real, draw: real)
    requires width >= 0.0 && 0.0 <= draw <= 1.0
    ensures -width <= Uniform(-width, width, draw) <= width
  {
    var moved := (width + width) * draw;
    assert 0.0 <= moved;
    assert moved == (width + width) - (width + width) * (1.0 - draw);
    assert (width + width) * (1.0 - draw) >= 0.0;
  }

  predicate AreDelays(b: Backoff, draws: seq<real>, sleeps: seq<real>) {
    |sleeps| <= |draws| && forall i | 0 <= i < |sleeps| :: sleeps[i] == DelayOf(b, i, draws[i])
  }

  /** The sleeps are the jittered delays, and their total is between (1 - j) and (1 + j) times
      initial * (1 + f + f^2 + ...), up to the floor of a millisecond for each. */
  ghost predicate SyncTotal(b: Backoff, draws: seq<real>, sleeps: seq<real>) {
    && AreDelays(b, draws, sleeps)
    && LeastTotal(b, |sleeps|) <= Sum(sleeps) <= MostTotal(b, |sleeps|) + MIN_DELAY * |sleeps| as real
  }

  lemma SumGrows(xs: seq<real>, x: real)
    ensures Sum(xs + [x]) == Sum(xs) + x
  {
    assert (xs + [x])[..|xs|] == xs;
  }

  lemma SyncGrows(b: Backoff, draws: seq<real>, sleeps: seq<real>)
    requires |sleeps| < |draws| && SyncTotal(b, draws, sleeps)
    requires b.initial >= 0.0 && b.factor >= 0.0 && 0.0 <= draws[|sleeps|] <= 1.0
    ensures SyncTotal(b, draws, sleeps + [DelayOf(b, |sleeps|, draws[|sleeps|])])
  {
    hide DelayOf, LeastTotal, MostTotal, LeastDelay, MostDelay, Sum;
    var n := |sleeps|;
    JitterBounds(b, n, draws[n]);
    NextTerm(b, n);
    SumGrows(sleeps, DelayOf(b, n, draws[n]));
  }

  lemma NoSyncYet(b: Backoff, draws: seq<real>)
    ensures SyncTotal(b, draws, [])
  {
  }

  /** The sync loop.  It makes at most maxRetries + 1 calls with a sleep between any two, and
      gives the decisive call's answer; with a negative maxRetries it does not call at all. */
  method RetryExternalSync<T>(answers: seq<Answer<T>>, maxRetries: int, b: Backoff, draws: seq<real>)
    returns (answer: Option<Answer<T>>, calls: nat, sleeps: seq<real>)
    requires |answers| > maxRetries && |draws| >= |answers|
    requires forall i | 0 <= i < |draws| :: 0.0 <= draws[i] <= 1.0
    ensures maxRetries < 0 ==> answer.None? && calls == 0 && sleeps == []
    ensures maxRetries >= 0 ==>
      && calls == |sleeps| + 1 && calls <= maxRetries + 1
      && Decides(answers, maxRetries, calls - 1) && answer == Some(answers[calls - 1])
    ensures AreDelays(b, draws, sleeps)
    ensures b.initial >= 0.0 && b.factor >= 0.0 ==> SyncTotal(b, draws, sleeps)
  {
    hide SyncTotal, DelayOf;
    sleeps := [];
    calls := 0;
    NoSyncYet(b, draws);
    for attempt := 0 to if maxRetries < 0 then 0 else maxRetries + 1
      invariant calls == |sleeps| == attempt && attempt <= Allowed(maxRetries)
      invariant forall i | 0 <= i < attempt :: answers[i].Retryable?
      invariant AreDelays(b, draws, sleeps)
      invariant b.initial >= 0.0 && b.factor >= 0.0 ==> SyncTotal(b, draws, sleeps)
    {
      answer := Some(answers[attempt]);
      calls := calls + 1;
      if !answers[attempt].Retryable? {
        return;
      }
      if attempt >= maxRetries {
        return;
      }
      if b.initial >= 0.0 && b.factor >= 0.0 {
        SyncGrows(b, draws, sleeps);
      }
      sleeps := sleeps + [DelayOf(b, attempt, draws[attempt])];
    }
    answer := None;
  }

  lemma Scaled(a: real, p: real)
    requires a >= 0.0 && p >= 1.0
    ensures a * p >= a
  {
    assert a * p == a + a * (p - 1.0);
  }

  /** With growing delays that start above the floor even after jitter, the floor never matters:
      the total is within the jitter's share of initial * (1 + f + f^2 + ...). */
  lemma {:induction false} FloorNeverMatters(b: Backoff, draws: seq<real>, sleeps: seq<real>)
    requires AreDelays(b, draws, sleeps) && forall i | 0 <= i < |draws| :: 0.0 <= draws[i] <= 1.0
    requires b.initial >= 0.0 && b.factor >= 1.0 && (1.0 - Share(b)) * b.initial >= MIN_DELAY
    ensures LeastTotal(b, |sleeps|) <= Sum(sleeps) <= MostTotal(b, |sleeps|)
  {
    hide DelayOf, LeastTotal, MostTotal, LeastDelay, MostDelay, Sum;
    if sleeps == [] {
      NothingSlept();
      NextTerm(b, 0);
    } else {
      var n := |sleeps| - 1;
      FloorNeverMatters(b, draws, sleeps[..n]);
      FloorIsLow(b, n);
      JitterBounds(b, n, draws[n]);
      NextTerm(b, n);
      SumGrows(sleeps[..n], sleeps[n]);
      assert sleeps == sleeps[..n] + [sleeps[n]];
    }
  }

  lemma NothingSlept()
    ensures Sum([]) == 0.0
  {
  }

  lemma FloorIsLow(b: Backoff, n: nat)
    requires b.factor >= 1.0 && (1.0 - Share(b)) * b.initial >= MIN_DELAY
    ensures LeastDelay(b, n) >= MIN_DELAY
  {
    PowIsAtLeastOne(b.factor, n);
    var low, p := (1.0 - Share(b)) * b.initial, Pow(b.factor, n);
    Scaled(low, p);
    assert low * p == (1.0 - Share(b)) * (b.initial * p);
  }
}
