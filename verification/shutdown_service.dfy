/** The run-state functions of one process as they run when nobody interrupts them, on the
    module-level cache and the singleton row of the session. */
module ShutdownService {
  import opened Options
  import opened Shutdown

  /** What an undisturbed gate decides and leaves behind. */
  datatype Passage = Passage(decision: Decision, cache: Info, row: Option<Info>)

  /** The gate with nobody else around; readFails says that the query or the insert raises. */
  function Undisturbed(cache: Info, row: Option<Info>, call: Call, readFails: bool): Passage {
    if call.testOverride.Some? then
      Passage(Decision(ByOverride, call.testOverride.value, Verdict(call.testOverride.value, call)), cache, row)
    else if cache.state != Normal then Passage(Decision(ByCache, cache, Verdict(cache, call)), cache, row)
    else if !call.hasDatabase || readFails then Passage(Decision(ByFallback, cache, Verdict(cache, call)), cache, row)
    else match row
      case Some(info) => Passage(Decision(ByRow, info, Verdict(info, call)), info, row)
      case None => Passage(Decision(BySeed, cache, Verdict(cache, call)), cache, Some(cache))
  }

  /** A gate's own steps, one after the other. */
  function AloneAtTheGate(s: Sys, th: ThreadId, readFails: bool): Sys
    requires At(s, th, Idle) && s.threads[th].job.Gate? && s.holder == None
  {
    var checked := Do(s, CheckCache(th));
    if checked.threads[th].pc == Over then checked
    else if readFails then Do(checked, ReadFails(th))
    else
      var returned := Do(Do(checked, Query(th)), Return(th));
      if returned.threads[th].pc == Over then returned
      else Do(returned, Commit(th))
  }

  /** An undisturbed gate does what its protocol steps do. */
  lemma UndisturbedFollowsProtocol(s: Sys, th: ThreadId, readFails: bool)
    requires At(s, th, Idle) && s.threads[th].job.Gate? && s.holder == None
    ensures var p, after := s.threads[th].process, AloneAtTheGate(s, th, readFails);
      && after.threads[th].pc == Over && after.threads[th].decision.Some? && after.holder == None
      && Passage(after.threads[th].decision.value, CacheOf(after, p), after.row)
         == Undisturbed(CacheOf(s, p), s.row, s.threads[th].job.call, readFails)
  {
    hide IsRecovery, IsOwner;
  }

  /** An owner's change with nobody else around: committed, or rolled back after its write. */
  function AloneChanging(s: Sys, th: ThreadId, committed: bool): Sys
    requires At(s, th, Idle) && s.threads[th].job.Change? && s.holder == None
  {
    var written := Do(Do(s, Lock(th)), Write(th));
    if committed then Do(written, Commit(th)) else Do(written, Rollback(th))
  }

  /** A committed change leaves row and cache in agreement; one that was rolled back leaves the
      row alone and the cache changed. */
  lemma ChangeAgreesIffCommitted(s: Sys, th: ThreadId, committed: bool)
    requires At(s, th, Idle) && s.threads[th].job.Change? && s.holder == None
    ensures var p, job, after := s.threads[th].process, s.threads[th].job, AloneChanging(s, th, committed);
      var info := Requested(job.to, job.reason);
      && CacheOf(after, p) == info
      && after.row == (if committed then Some(info) else s.row)
      && (after.row == Some(CacheOf(after, p)) <==> committed || s.row == Some(info))
  {
  }

  class RunStateService {
    var cachedState: RunState
    var cachedReason: Option<string>
    var row: Option<Info>

    constructor (row: Option<Info>)
      ensures Cache() == FRESH_CACHE && this.row == row
    {
      cachedState, cachedReason := Normal, None;
      this.row := row;
    }

    function Cache(): Info
      reads this
    {
      Info(cachedState, cachedReason)
    }

    method SetCachedRunState(state: RunState, reason: Option<string>)
      modifies this
      ensures Cache() == Info(state, reason) && row == old(row)
    {
      cachedState, cachedReason := state, reason;
    }

    /** Reads the row into the cache, or creates it from the cache; either way they agree. */
    method GetSystemState() returns (state: Info)
      modifies this
      ensures row == Some(state) && Cache() == state
      ensures old(row).Some? ==> row == old(row)
      ensures old(row).None? ==> Cache() == old(Cache())
    {
      if row.None? {
        row := Some(Info(cachedState, cachedReason));
      } else {
        SetCachedRunState(row.value.state, row.value.reason);
      }
      state := row.value;
    }

    method TriggerEmergencyShutdown(reason: string) returns (state: Info)
      modifies this
      ensures state == Requested(EmergencyShutdown, reason)
      ensures row == Some(state) && Cache() == state
    {
      state := GetSystemState();
      row := Some(Info(EmergencyShutdown, Some(reason)));
      SetCachedRunState(EmergencyShutdown, Some(reason));
      state := row.value;
    }

    method OverrideSystemState(target: RunState, reason: string) returns (state: Info)
      modifies this
      ensures state == Requested(target, reason)
      ensures row == Some(state) && Cache() == state
    {
      state := GetSystemState();
      var newReason := Some(reason);
      if target == Normal {
        newReason := None;
      }
      row := Some(Info(target, newReason));
      SetCachedRunState(target, newReason);
      state := row.value;
    }

    /** The gate.  A row it creates carries the cache's NORMAL and is committed with the request. */
    method Verify(call: Call, readFails: bool) returns (o: Outcome)
      modifies this
      ensures var p := Undisturbed(old(Cache()), old(row), call, readFails);
        o == p.decision.outcome && Cache() == p.cache && row == p.row
    {
      var runState: Option<Info> := None;
      if call.testOverride.Some? {
        runState := call.testOverride;
      }
      if runState.None? {
        if cachedState != Normal {
          runState := Some(Info(cachedState, cachedReason));
        }
      }
      if runState.None? && call.hasDatabase {
        if !readFails {
          var state := GetSystemState();
          runState := Some(state);
        }
      }
      if runState.None? {
        runState := Some(Info(cachedState, cachedReason));
      }
      var info := runState.value;
      if info.state == Normal {
        return Passes;
      }
      if info.state == Degraded {
        if IsMutation(call) && !call.allowInDegraded {
          return Refused(60, info);
        }
        return Passes;
      }
      if IsRecovery(call.path) {
        return Passes;
      }
      if IsMutation(call) {
        return Refused(300, info);
      }
      if !IsOwner(call) {
        return Refused(300, info);
      }
      return Passes;
    }
  }
}
