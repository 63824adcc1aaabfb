/** What the gate answers and what it goes by, in terms of the request, the owner's row and the
    run state alone. */
module ShutdownAnswers {
  import opened Options
  import opened Shutdown
  import opened ShutdownGuarantees
  import opened ShutdownDecisions
  import opened ShutdownService

  // ------------------------------------------------------------------- the table

  /** Any number of slashes. */
  predicate IsSlashes(s: string) {
    forall i | 0 <= i < |s| :: s[i] == '/'
  }

  predicate IsEndpoint(e: string) {
    || e == "/owner/emergency-shutdown" || e == "/owner/override" || e == "/owner/dashboard"
    || e == "/owner/console/summary" || e == "/owner/audit"
    || e == "/auth/logout" || e == "/auth/login" || e == "/auth/refresh" || e == "/auth/me"
  }

  /** The path is some prefix, a recovery endpoint, and slashes. */
  ghost predicate LeadsToRecovery(path: string) {
    exists prefix, endpoint, slashes :: IsEndpoint(endpoint) && IsSlashes(slashes) && path == prefix + endpoint + slashes
  }

  lemma {:induction false} TrimmedIs(path: string) returns (slashes: string)
    ensures IsSlashes(slashes) && path == TrimSlashes(path) + slashes
    ensures TrimSlashes(path) == [] || TrimSlashes(path)[|TrimSlashes(path)| - 1] != '/'
  {
    if path != [] && path[|path| - 1] == '/' {
      slashes := TrimmedIs(path[..|path| - 1]);
      slashes := slashes + "/";
      assert path == path[..|path| - 1] + "/";
    } else {
      slashes := "";
    }
  }

  lemma {:induction false} TrimStops(s: string, slashes: string)
    requires IsSlashes(slashes) && s != [] && s[|s| - 1] != '/'
    ensures TrimSlashes(s + slashes) == s
    decreases |slashes|
  {
    if slashes == [] {
      assert s + slashes == s;
    } else {
      TrimStops(s, slashes[..|slashes| - 1]);
      assert (s + slashes)[..|s + slashes| - 1] == s + slashes[..|slashes| - 1];
    }
  }

  lemma EndpointsAreListed(e: string)
    ensures IsEndpoint(e) <==> e in RECOVERY_ENDPOINTS
    ensures e in RECOVERY_ENDPOINTS ==> e != [] && e[|e| - 1] != '/'
  {
    assert IsEndpoint(e) ==>
      || e == RECOVERY_ENDPOINTS[0] || e == RECOVERY_ENDPOINTS[1] || e == RECOVERY_ENDPOINTS[2] || e == RECOVERY_ENDPOINTS[3]
      || e == RECOVERY_ENDPOINTS[4] || e == RECOVERY_ENDPOINTS[5] || e == RECOVERY_ENDPOINTS[6] || e == RECOVERY_ENDPOINTS[7]
      || e == RECOVERY_ENDPOINTS[8];
  }

  /** A path is a recovery path exactly when it ends in one of the nine endpoints, whatever slashes
      follow it. */
  lemma RecoveryIff(path: string)
    ensures IsRecovery(path) <==> LeadsToRecovery(path)
  {
    if IsRecovery(path) {
      var i :| 0 <= i < |RECOVERY_ENDPOINTS| && EndsWith(TrimSlashes(path), RECOVERY_ENDPOINTS[i]);
      var e := RECOVERY_ENDPOINTS[i];
      EndpointsAreListed(e);
      hide IsEndpoint;
      var trimmed := TrimSlashes(path);
      var slashes := TrimmedIs(path);
      assert path == trimmed[..|trimmed| - |e|] + e + slashes;
    }
    if LeadsToRecovery(path) {
      var prefix, e, slashes :| IsEndpoint(e) && IsSlashes(slashes) && path == prefix + e + slashes;
      EndpointsAreListed(e);
      hide IsEndpoint;
      TrimStops(prefix + e, slashes);
      assert EndsWith(TrimSlashes(path), e);
      var i :| 0 <= i < |RECOVERY_ENDPOINTS| && RECOVERY_ENDPOINTS[i] == e;
      assert EndsWith(TrimSlashes(path), RECOVERY_ENDPOINTS[i]);
    }
  }

  /** A request that only reads: not declared a mutation, and not sent with a method that writes. */
  predicate OnlyReads(call: Call) {
    !call.declaredMutation && !call.unsafeMethod
  }

  /** A valid owner token, and no database to ask, or an owner's row that can be read and is either
      missing or active. */
  predicate FromActiveOwner(call: Call) {
    match call.bearer
    case Nobody => false
    case OwnerToken(row, unreadable) => !call.hasDatabase || (!unreadable && (row == None || row == Some(true)))
  }

  /** The answer of the gate: everything passes in normal operation; reads, and what is allowed
      then, in degraded mode; recovery paths and the active owner's reads in an emergency.  The rest
      is told to come back after one minute, or after five. */
  ghost predicate AnswersByTable(info: Info, call: Call, o: Outcome) {
    match info.state
    case Normal => o == Passes
    case Degraded => o == if OnlyReads(call) || call.allowInDegraded then Passes else Refused(60, info)
    case EmergencyShutdown =>
      o == if LeadsToRecovery(call.path) || (OnlyReads(call) && FromActiveOwner(call)) then Passes else Refused(300, info)
  }

  lemma VerdictFollowsTable(info: Info, call: Call)
    ensures AnswersByTable(info, call, Verdict(info, call))
  {
    RecoveryIff(call.path);
    hide IsRecovery, LeadsToRecovery;
  }

  /** In an emergency a read off the recovery paths passes exactly for the active owner. */
  lemma EmergencyReadPassesIff(reason: Option<string>, call: Call)
    requires !call.declaredMutation && !call.unsafeMethod && !LeadsToRecovery(call.path)
    ensures Verdict(Info(EmergencyShutdown, reason), call) == Passes <==>
      call.bearer.OwnerToken?
      && (!call.hasDatabase || (!call.bearer.unreadable && (call.bearer.row.None? || call.bearer.row.value)))
  {
    VerdictFollowsTable(Info(EmergencyShutdown, reason), call);
  }

  // ---------------------------------------------------------------- in every run

  /** In every run, every gate, mutation or not, overridden or not, decided at one step, by the test
      hook when there is one and otherwise by its evidence, and its answer is the table's. */
  lemma DecisionFollowsTable(run: seq<Sys>, j: nat, th: ThreadId, d: Decision) returns (i: nat)
    requires IsRun(run) && j < |run| && HasDecided(run[j], th, d)
    ensures i < j && DecidesAt(run, i, th, d)
    ensures run[j].threads[th].job.Gate?
    ensures var call := run[j].threads[th].job.call;
      && d.info == (if call.testOverride.Some? then call.testOverride.value else Evidence(run[i], th))
      && AnswersByTable(d.info, call, d.outcome)
  {
    i := DecisionWasMade(run, j, th, d);
    RunIsSound(run, i);
    RunIsSound(run, j);
    ThreadsStay(run, i, j, th);
    assert Next(run[i], run[i + 1]);
    var step :| Enabled(run[i], step) && run[i + 1] == Do(run[i], step);
    assert DecidedSoundly(run[j].threads[th]);
    var call := run[j].threads[th].job.call;
    hide IsRun, Do, Enabled, AnswersByTable, Verdict;
    GateDecides(run[i], step, th, d);
    VerdictFollowsTable(d.info, call);
  }

  lemma GateDecides(s: Sys, step: Step, th: ThreadId, d: Decision)
    requires Sound(s) && Enabled(s, step) && IsUndecided(s, th) && HasDecided(Do(s, step), th, d)
    ensures var t := s.threads[th];
      t.job.Gate? && d.info == if t.job.call.testOverride.Some? then t.job.call.testOverride.value else Evidence(s, th)
  {
    hide Verdict;
    if th != step.th {
      OneThreadMoves(s, step, th);
    }
    assert AskedSoundly(s.threads[th]);
  }

  /** The gate was at the cache of its process when that said NORMAL, had a database, and no test
      hook. */
  ghost predicate PassedTheCache(run: seq<Sys>, k: nat, th: ThreadId) {
    && k + 1 < |run| && At(run[k], th, Idle) && run[k].threads[th].job.Gate?
    && run[k + 1] == Do(run[k], CheckCache(th))
    && CacheOf(run[k], run[k].threads[th].process).state == Normal
    && run[k].threads[th].job.call.hasDatabase && run[k].threads[th].job.call.testOverride.None?
  }

  predicate IsAsking(s: Sys, th: ThreadId) {
    th in s.threads && s.threads[th].job.Gate? && (s.threads[th].pc == Asking || s.threads[th].pc.Answered?)
  }

  lemma AskingComesFrom(s: Sys, step: Step, th: ThreadId)
    requires Enabled(s, step) && IsAsking(Do(s, step), th) && !IsAsking(s, th)
    ensures step == CheckCache(th) && At(s, th, Idle) && s.threads[th].job.Gate?
    ensures CacheOf(s, s.threads[th].process).state == Normal
    ensures s.threads[th].job.call.hasDatabase && s.threads[th].job.call.testOverride.None?
  {
    hide Verdict;
    if th != step.th {
      OneThreadMoves(s, step, th);
    }
  }

  /** The cache comes first: a gate queries the row only after the cache of its process said
      NORMAL. */
  lemma {:induction false} QueriedAfterTheCache(run: seq<Sys>, j: nat, th: ThreadId) returns (k: nat)
    requires IsRun(run) && j < |run| && IsAsking(run[j], th)
    ensures k < j && PassedTheCache(run, k, th)
  {
    if j == 0 {
      assert false;
    } else {
      assert Next(run[j - 1], run[j]);
      var step :| Enabled(run[j - 1], step) && run[j] == Do(run[j - 1], step);
      if IsAsking(run[j - 1], th) {
        k := QueriedAfterTheCache(run, j - 1, th);
      } else {
        AskingComesFrom(run[j - 1], step, th);
        k := j - 1;
      }
    }
  }

  // ------------------------------------------------------------- what is left behind

  /** What an undisturbed gate leaves: the row is created from a NORMAL cache when it was asked for
      and missing, the cache takes over a row that was read, and nothing else changes. */
  lemma GateLeaves(cache: Info, row: Option<Info>, call: Call, readFails: bool)
    ensures var p := Undisturbed(cache, row, call, readFails);
      var asked := call.testOverride.None? && cache.state.Normal? && call.hasDatabase && !readFails;
      && (p.row != row <==> asked && row.None?)
      && (p.row != row ==> p.row == Some(cache))
      && (p.cache != cache ==> asked && row == Some(p.cache))
      && (asked && row.Some? ==> p.cache == row.value)
      && AnswersByTable(p.decision.info, call, p.decision.outcome)
      && p.decision.info == (if call.testOverride.Some? then call.testOverride.value
                             else if asked && row.Some? then row.value else cache)
  {
    VerdictFollowsTable(Undisturbed(cache, row, call, readFails).decision.info, call);
    hide AnswersByTable, Verdict;
  }

  /** What an owner's committed change leaves in the row and in the cache: the state asked for,
      with the reason given, except that a return to NORMAL forgets it. */
  lemma ChangeLeaves(s: Sys, th: ThreadId)
    requires At(s, th, Idle) && s.threads[th].job.Change? && s.holder == None
    ensures var (after, job) := (AloneChanging(s, th, true), s.threads[th].job);
      && after.row.Some? && CacheOf(after, s.threads[th].process) == after.row.value
      && after.row.value.state == job.to
      && (job.to.Normal? ==> after.row.value.reason == None)
      && (!job.to.Normal? ==> after.row.value.reason == Some(job.reason))
  {
  }
}
