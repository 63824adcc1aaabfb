/** The webhook's timestamp and nonce check: a cache of accepted nonces, pruned by age. */
module NonceWindow {

  type Cache = map<string, int>

  /** The timestamp header after parsing: absent or blank, not a number, a number with no
      integer value, or a number of seconds. */
  datatype Timestamp = Missing | Malformed | Unrepresentable | Seconds(value: int)

  /** One check: the clock it read, its timestamp, and its nonce stripped of surrounding
      whitespace (empty when absent or blank). */
  datatype Request = Request(now: int, timestamp: Timestamp, nonce: string)

  datatype Verdict =
    | Accepted
    | MissingTimestamp
    | InvalidTimestamp
    | TimestampExpired
    | MissingNonce
    | NonceReplayed
    | Raised

  function Distance(a: int, b: int): int { if a < b then b - a else a - b }

  function Prune(cache: Cache, cutoff: int): Cache {
    map n | n in cache && cutoff <= cache[n] :: cache[n]
  }

  /** The check with a tolerance and a cache that keeps nonces for the given retention. */
  function Check(cache: Cache, tolerance: int, retention: int, r: Request): (Verdict, Cache) {
    match r.timestamp
    case Missing => (MissingTimestamp, cache)
    case Malformed => (InvalidTimestamp, cache)
    case Unrepresentable => (Raised, cache)
    case Seconds(ts) =>
      if Distance(r.now, ts) > tolerance then (TimestampExpired, cache)
      else if r.nonce == "" then (MissingNonce, cache)
      else
        var kept := Prune(cache, r.now - retention);
        if r.nonce in kept then (NonceReplayed, kept) else (Accepted, kept[r.nonce := r.now])
  }

  class NonceTracker {
    var nonces: Cache

    constructor ()
      ensures nonces == map[]
    {
      nonces := map[];
    }

    /** Deletes the nonces older than maxAge, one by one. */
    method PruneOld(currentTime: int, maxAge: int)
      modifies this
      ensures nonces == Prune(old(nonces), currentTime - maxAge)
    {
      var cutoff := currentTime - maxAge;
      var expired := set n | n in nonces && nonces[n] < cutoff;
      var todo := expired;
      while todo != {}
        invariant todo <= expired
        invariant nonces == map n | n in old(nonces) && n !in expired - todo :: old(nonces)[n]
        decreases todo
      {
        var n :| n in todo;
        nonces := nonces - {n};
        todo := todo - {n};
      }
    }

    method CheckAndRecord(nonce: string, currentTime: int, tolerance: int) returns (unique: bool)
      modifies this
      ensures var kept := Prune(old(nonces), currentTime - tolerance * 2);
        unique == (nonce !in kept) && nonces == if unique then kept[nonce := currentTime] else kept
    {
      PruneOld(currentTime, tolerance * 2);
      if nonce in nonces {
        return false;
      }
      nonces := nonces[nonce := currentTime];
      return true;
    }

    method VerifyTimestampAndNonce(r: Request, tolerance: int) returns (v: Verdict)
      modifies this
      ensures (v, nonces) == Check(old(nonces), tolerance, 2 * tolerance, r)
    {
      if r.timestamp.Missing? {
        return MissingTimestamp;
      }
      if r.timestamp.Malformed? {
        return InvalidTimestamp;
      }
      if r.timestamp.Unrepresentable? {
        return Raised;
      }
      if Distance(r.now, r.timestamp.value) > tolerance {
        return TimestampExpired;
      }
      if r.nonce == "" {
        return MissingNonce;
      }
      var unique := CheckAndRecord(r.nonce, r.now, tolerance);
      return if unique then Accepted else NonceReplayed;
    }
  }

  // --------------------------------------------------------------------- runs

  /** The cache after a sequence of checks. */
  function After(tolerance: int, retention: int, rs: seq<Request>): Cache {
    if rs == [] then map[]
    else Check(After(tolerance, retention, rs[..|rs| - 1]), tolerance, retention, rs[|rs| - 1]).1
  }

  predicate AcceptedAt(tolerance: int, retention: int, rs: seq<Request>, i: int) {
    0 <= i < |rs| && Check(After(tolerance, retention, rs[..i]), tolerance, retention, rs[i]).0 == Accepted
  }

  /** The clock never goes back. */
  ghost predicate Ordered(rs: seq<Request>) {
    forall i, j | 0 <= i < j < |rs| :: rs[i].now <= rs[j].now
  }

  /** While its age is within the retention, an accepted nonce stays cached. */
  lemma {:induction false} AcceptedNonceIsKept(tolerance: int, retention: int, rs: seq<Request>, i: int, k: int)
    requires Ordered(rs) && AcceptedAt(tolerance, retention, rs, i) && i < k <= |rs|
    requires rs[k - 1].now - rs[i].now <= retention
    ensures var cache := After(tolerance, retention, rs[..k]); rs[i].nonce in cache && rs[i].now <= cache[rs[i].nonce]
  {
    assert rs[..k][..k - 1] == rs[..k - 1];
    if k - 1 > i {
      AcceptedNonceIsKept(tolerance, retention, rs, i, k - 1);
    }
  }

  /** Two accepted checks of one nonce are further apart than the retention. */
  lemma RepeatsAreFarApart(tolerance: int, retention: int, rs: seq<Request>, i: int, j: int)
    requires Ordered(rs) && i < j && AcceptedAt(tolerance, retention, rs, i) && AcceptedAt(tolerance, retention, rs, j)
    requires rs[i].nonce == rs[j].nonce
    ensures retention < rs[j].now - rs[i].now
  {
    if rs[j].now - rs[i].now <= retention {
      AcceptedNonceIsKept(tolerance, retention, rs, i, j);
    }
  }

  ghost predicate AcceptsPairTwice(tolerance: int, retention: int, rs: seq<Request>) {
    exists i, j :: i < j && AcceptedAt(tolerance, retention, rs, i) && AcceptedAt(tolerance, retention, rs, j)
      && rs[i].nonce == rs[j].nonce && rs[i].timestamp == rs[j].timestamp
  }

  /** No run with a non-decreasing clock accepts one pair of timestamp and nonce twice. */
  ghost predicate ReplaySafe(tolerance: int, retention: int) {
    forall rs | Ordered(rs) :: !AcceptsPairTwice(tolerance, retention, rs)
  }

  /** Twice the tolerance is exactly the retention that makes replays impossible. */
  lemma RetentionIsTight(tolerance: int, retention: int)
    requires 0 <= tolerance
    ensures ReplaySafe(tolerance, retention) <==> 2 * tolerance <= retention
  {
    if 2 * tolerance <= retention {
      forall rs: seq<Request> | Ordered(rs) ensures !AcceptsPairTwice(tolerance, retention, rs) {
        if AcceptsPairTwice(tolerance, retention, rs) {
          var i, j :| i < j && AcceptedAt(tolerance, retention, rs, i) && AcceptedAt(tolerance, retention, rs, j)
            && rs[i].nonce == rs[j].nonce && rs[i].timestamp == rs[j].timestamp;
          RepeatsAreFarApart(tolerance, retention, rs, i, j);
        }
      }
    } else {
      EarlyPruningAcceptsTwice(tolerance, retention);
    }
  }

  /** With a shorter retention, a request stamped a tolerance ahead of the clock is accepted at once and
      again two tolerances later, when its nonce has just been pruned. */
  lemma EarlyPruningAcceptsTwice(tolerance: int, retention: int)
    requires 0 <= tolerance && retention < 2 * tolerance
    ensures !ReplaySafe(tolerance, retention)
  {
    var rs := [Request(0, Seconds(tolerance), "n"), Request(2 * tolerance, Seconds(tolerance), "n")];
    assert rs[..1] == [rs[0]];
    assert rs[..0] == [];
    assert [rs[0]][..0] == [];
    assert After(tolerance, retention, []) == map[];
    assert Check(map[], tolerance, retention, rs[0]) == (Accepted, map["n" := 0]);
    assert After(tolerance, retention, rs[..1]) == map["n" := 0];
    assert AcceptedAt(tolerance, retention, rs, 0) && AcceptedAt(tolerance, retention, rs, 1);
    assert Ordered(rs) && AcceptsPairTwice(tolerance, retention, rs);
  }

  /** The webhook's own check, with retention twice its tolerance: two acceptances of a nonce
      are more than two tolerances apart, and then their timestamps differ. */
  lemma WebhookPairAcceptedOnce(tolerance: int, rs: seq<Request>, i: int, j: int)
    requires Ordered(rs) && i < j && AcceptedAt(tolerance, 2 * tolerance, rs, i) && AcceptedAt(tolerance, 2 * tolerance, rs, j)
    requires rs[i].nonce == rs[j].nonce
    ensures 2 * tolerance < rs[j].now - rs[i].now
    ensures rs[i].timestamp != rs[j].timestamp
  {
    RepeatsAreFarApart(tolerance, 2 * tolerance, rs, i, j);
  }

  /** The clock must not go back: after a step back of one second a pair is accepted twice. */
  lemma BackwardClockAcceptsTwice(tolerance: int)
    requires 0 <= tolerance
    ensures exists rs: seq<Request> :: AcceptsPairTwice(tolerance, 2 * tolerance, rs) && |rs| == 3 && rs[2].now == rs[1].now - 1
  {
    var ahead := Seconds(tolerance);
    var rs := [Request(0, ahead, "n"), Request(2 * tolerance + 1, Seconds(2 * tolerance + 1), "m"), Request(2 * tolerance, ahead, "n")];
    assert rs[..1] == [rs[0]] && rs[..2] == [rs[0], rs[1]];
    assert rs[..0] == [] && rs[..1][..0] == [] && rs[..2][..1] == rs[..1];
    assert Check(map[], tolerance, 2 * tolerance, rs[0]) == (Accepted, map["n" := 0]);
    assert After(tolerance, 2 * tolerance, rs[..1]) == map["n" := 0];
    assert Check(map["n" := 0], tolerance, 2 * tolerance, rs[1]).1 == map["m" := 2 * tolerance + 1];
    assert AcceptedAt(tolerance, 2 * tolerance, rs, 0) && AcceptedAt(tolerance, 2 * tolerance, rs, 2);
    assert AcceptsPairTwice(tolerance, 2 * tolerance, rs);
  }
}
