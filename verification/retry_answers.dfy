/** What the retry loops retry and how long each of their sleeps is, in numbers. */
module RetryAnswers {
  import opened Retry

  /** The provider loop gives a success back, retries what may pass, and gives up on the rest. */
  lemma RetriedIff(r: HttpReply)
    ensures Judge(r).Ok? <==> r.Status? && 200 <= r.code <= 299
    ensures Judge(r).Retryable? <==> r.Timeout? || r.ConnectError? || (r.Status? && (r.code == 429 || r.code >= 500))
    ensures Judge(r).Fatal? <==> r.Unexpected? || (r.Status? && r.code != 429 && (r.code < 200 || 300 <= r.code <= 499))
  {
  }

  /** The decisive call is the first whose answer is not worth another try, or the last one allowed when
      there is none such before it. */
  lemma DecidedByTheFirst<T>(answers: seq<Answer<T>>, allowed: nat, k: nat)
    requires allowed < |answers|
    ensures Decides(answers, allowed, k) <==>
      && (k < allowed ==> !answers[k].Retryable?)
      && k <= allowed && forall i | 0 <= i < k :: answers[i].Retryable?
  {
  }

  /** Two to the n-th, counted up. */
  lemma {:induction false} PowersOfTwo(n: nat)
    ensures Pow(2.0, 0) == 1.0 && Pow(2.0, n + 1) == Pow(2.0, n) + Pow(2.0, n)
  {
  }

  /** The provider loop's sleep number n, counted from zero, is the base doubled n times, and with a
      base longer by the jitter, which is at most a twentieth of a second. */
  lemma ProviderSleeps(base: real, jitters: seq<real>, sleeps: seq<real>, n: nat)
    requires AreBackoffs(base, jitters, sleeps) && n < |sleeps|
    requires 0.0 <= jitters[n] <= PROVIDER_JITTER
    ensures sleeps[n] == base * Pow(2.0, n) + if base > 0.0 then jitters[n] else 0.0
    ensures base * Pow(2.0, n) <= sleeps[n] <= base * Pow(2.0, n) + 0.05
  {
    PowIsAtLeastOne(2.0, n);
    var p := Pow(2.0, n);
    if base > 0.0 {
      assert base * p > 0.0;
    } else {
      assert -base * p >= 0.0;
      assert base * p == -(-base * p);
    }
  }

  /** The sync loop's sleep after attempt n is initial times factor to the n-th, and with jitter that
      times a factor drawn between 1 - j and 1 + j, but a thousandth of a second at least. */
  lemma SyncSleeps(b: Backoff, draws: seq<real>, sleeps: seq<real>, n: nat)
    requires AreDelays(b, draws, sleeps) && n < |sleeps|
    ensures var plain := b.initial * Pow(b.factor, n);
      if b.jitter && 0.0 < b.jitterFactor then
        var drawn := plain * (1.0 - b.jitterFactor + 2.0 * b.jitterFactor * draws[n]);
        sleeps[n] == (if drawn < 0.001 then 0.001 else drawn)
      else sleeps[n] == plain
  {
    var plain, j, u := b.initial * Pow(b.factor, n), b.jitterFactor, draws[n];
    if b.jitter && 0.0 < j {
      Spreads(plain, j, u);
    }
  }

  lemma Spreads(plain: real, j: real, u: real)
    ensures plain + Uniform(-j * plain, j * plain, u) == plain * (1.0 - j + 2.0 * j * u)
  {
    var x := j * plain;
    assert -j * plain == -x;
    assert (x + x) * u == plain * (2.0 * j * u) by {
      assert (x + x) * u == 2.0 * x * u;
      assert plain * (2.0 * j * u) == 2.0 * (plain * j) * u;
    }
    assert plain * (1.0 - j + 2.0 * j * u) == plain - plain * j + plain * (2.0 * j * u);
  }
}
