/** The emergency shutdown: one committed run-state row, a cache of it in every process, and the
    request gate that reads the cache first and the row second. */
module Shutdown {
  import opened Options

  type ProcessId = nat
  type ThreadId = nat

  datatype RunState = Normal | Degraded | EmergencyShutdown

  /** A run state and the reason given for it. */
  datatype Info = Info(state: RunState, reason: Option<string>)

  /** What a process believes before it has read or written anything. */
  const FRESH_CACHE := Info(Normal, None)

  // -------------------------------------------------------------------- the gate

  const RECOVERY_ENDPOINTS: seq<string> := [
    "/owner/emergency-shutdown", "/owner/override", "/owner/dashboard", "/owner/console/summary",
    "/owner/audit", "/auth/logout", "/auth/login", "/auth/refresh", "/auth/me"]

  function TrimSlashes(path: string): string {
    if path != [] && path[|path| - 1] == '/' then TrimSlashes(path[..|path| - 1]) else path
  }

  predicate EndsWith(s: string, suffix: string) {
    |suffix| <= |s| && s[|s| - |suffix|..] == suffix
  }

  predicate IsRecovery(path: string) {
    exists i :: 0 <= i < |RECOVERY_ENDPOINTS| && EndsWith(TrimSlashes(path), RECOVERY_ENDPOINTS[i])
  }

  /** A valid owner token, or none; the owner's row is missing, active or not, or unreadable. */
  datatype Bearer = Nobody | OwnerToken(row: Option<bool>, unreadable: bool)

  /** One request at the gate.  The override is the test hook in the application state. */
  datatype Call = Call(
    declaredMutation: bool,
    unsafeMethod: bool,
    path: string,
    allowInDegraded: bool,
    testOverride: Option<Info>,
    hasDatabase: bool,
    bearer: Bearer)

  predicate IsMutation(call: Call) {
    call.declaredMutation || call.unsafeMethod
  }

  predicate IsOwner(call: Call) {
    call.bearer.OwnerToken? && (call.hasDatabase ==>
      !call.bearer.unreadable && (call.bearer.row.Some? ==> call.bearer.row.value))
  }

  /** A mutation that no exception of the gate covers. */
  predicate IsPlainMutation(call: Call) {
    IsMutation(call) && !IsRecovery(call.path) && !call.allowInDegraded
  }

  datatype Outcome = Passes | Refused(retryAfter: nat, info: Info)

  function Verdict(info: Info, call: Call): Outcome {
    match info.state
    case Normal => Passes
    case Degraded =>
      if IsMutation(call) && !call.allowInDegraded then Refused(60, info) else Passes
    case EmergencyShutdown =>
      if IsRecovery(call.path) then Passes
      else if IsMutation(call) || !IsOwner(call) then Refused(300, info)
      else Passes
  }

  /** Where the gate took the run state from. */
  datatype Basis = ByOverride | ByCache | ByRow | BySeed | ByFallback

  /** The row an owner's change writes: back to normal forgets the reason. */
  function Requested(to: RunState, reason: string): Info {
    Info(to, if to == Normal then None else Some(reason))
  }

  // ------------------------------------------------------------------- the system

  /** What a thread is here for: passing the gate, reading the state for the owner's dashboard,
      or changing it. */
  datatype Job = Gate(call: Call) | Look | Change(to: RunState, reason: string)

  datatype Pc =
    | Idle
    | Asking                                   // gate: cache was normal, about to query
    | Answered(row: Option<Info>)              // the query saw this committed row
    | Seeding(info: Info)                      // inserted a missing row, not committed
    | Locked                                   // change: holds the row
    | Writing(info: Info)                      // change: wrote row and cache, not committed
    | Over

  /** The decision of a gate, once made. */
  datatype Decision = Decision(basis: Basis, info: Info, outcome: Outcome)

  datatype Thread = Thread(process: ProcessId, job: Job, pc: Pc, decision: Option<Decision>)

  datatype Sys = Sys(
    row: Option<Info>,                         // committed
    holder: Option<ThreadId>,                  // who has the row locked or inserted
    caches: map<ProcessId, Info>,
    threads: map<ThreadId, Thread>)

  function CacheOf(s: Sys, p: ProcessId): Info {
    if p in s.caches then s.caches[p] else FRESH_CACHE
  }

  datatype Step =
    | Arrive(th: ThreadId, process: ProcessId, job: Job)
    | CheckCache(th: ThreadId)
    | Query(th: ThreadId)
    | Return(th: ThreadId)
    | ReadFails(th: ThreadId)
    | Lock(th: ThreadId)
    | Write(th: ThreadId)
    | Commit(th: ThreadId)
    | Rollback(th: ThreadId)

  predicate At(s: Sys, th: ThreadId, pc: Pc) {
    th in s.threads && s.threads[th].pc == pc
  }

  predicate Enabled(s: Sys, step: Step) {
    match step
    case Arrive(th, _, _) => th !in s.threads
    case CheckCache(th) => At(s, th, Idle) && s.threads[th].job.Gate?
    case Query(th) => At(s, th, Asking) || (At(s, th, Idle) && s.threads[th].job.Look?)
    case Return(th) =>
      && th in s.threads && s.threads[th].pc.Answered?
      && (s.threads[th].pc.row.None? ==> s.holder.None? && s.row.None?)
    case ReadFails(th) =>
      && th in s.threads && s.threads[th].job.Gate?
      && (s.threads[th].pc == Asking || s.threads[th].pc == Answered(None))
    case Lock(th) => At(s, th, Idle) && s.threads[th].job.Change? && s.holder.None?
    case Write(th) => At(s, th, Locked) && s.threads[th].job.Change?
    case Commit(th) =>
      && th in s.threads
      && (s.threads[th].pc.Writing? || (s.threads[th].pc.Seeding? && !WasRefused(s.threads[th])))
    case Rollback(th) =>
      && th in s.threads
      && (s.threads[th].pc.Locked? || s.threads[th].pc.Writing? || s.threads[th].pc.Seeding?)
  }

  predicate WasRefused(t: Thread) {
    t.decision.Some? && t.decision.value.outcome.Refused?
  }

  function Put(s: Sys, th: ThreadId, pc: Pc): Sys
    requires th in s.threads
  {
    s.(threads := s.threads[th := s.threads[th].(pc := pc)])
  }

  /** The gate decides on the given information. */
  function Decide(s: Sys, th: ThreadId, basis: Basis, info: Info, pc: Pc): Sys
    requires th in s.threads
  {
    var t := s.threads[th];
    var decision := if t.job.Gate? then Some(Decision(basis, info, Verdict(info, t.job.call))) else None;
    s.(threads := s.threads[th := t.(pc := pc, decision := decision)])
  }

  function SetCache(s: Sys, p: ProcessId, info: Info): Sys {
    s.(caches := s.caches[p := info])
  }

  function Checked(s: Sys, th: ThreadId): Sys
    requires th in s.threads && s.threads[th].job.Gate?
  {
    var t := s.threads[th];
    var cached := CacheOf(s, t.process);
    if t.job.call.testOverride.Some? then Decide(s, th, ByOverride, t.job.call.testOverride.value, Over)
    else if cached.state != Normal then Decide(s, th, ByCache, cached, Over)
    else if !t.job.call.hasDatabase then Decide(s, th, ByFallback, cached, Over)
    else Put(s, th, Asking)
  }

  function Returned(s: Sys, th: ThreadId): Sys
    requires th in s.threads && s.threads[th].pc.Answered?
  {
    var t := s.threads[th];
    match t.pc.row
    case Some(info) => SetCache(Decide(s, th, ByRow, info, Over), t.process, info)
    case None =>
      var cached := CacheOf(s, t.process);
      Decide(s, th, BySeed, cached, Seeding(cached)).(holder := Some(th))
  }

  function Do(s: Sys, step: Step): Sys
    requires Enabled(s, step)
  {
    match step
    case Arrive(th, process, job) => s.(threads := s.threads[th := Thread(process, job, Idle, None)])
    case CheckCache(th) => Checked(s, th)
    case Query(th) => Put(s, th, Answered(s.row))
    case Return(th) => Returned(s, th)
    case ReadFails(th) => Decide(s, th, ByFallback, CacheOf(s, s.threads[th].process), Over)
    case Lock(th) => Put(s, th, Locked).(holder := Some(th))
    case Write(th) =>
      var info := Requested(s.threads[th].job.to, s.threads[th].job.reason);
      SetCache(Put(s, th, Writing(info)), s.threads[th].process, info)
    case Commit(th) => Put(s, th, Over).(row := Some(s.threads[th].pc.info), holder := None)
    case Rollback(th) => Put(s, th, Over).(holder := None)
  }

  ghost predicate Next(s: Sys, s': Sys) {
    exists step :: Enabled(s, step) && s' == Do(s, step)
  }

  /** Any committed row, or none, and any caches, stale or not, to begin with. */
  ghost predicate Initial(s: Sys) {
    s.threads == map[] && s.holder == None
  }

  ghost predicate IsRun(run: seq<Sys>) {
    && run != [] && Initial(run[0])
    && forall i | 0 <= i < |run| - 1 :: Next(run[i], run[i + 1])
  }
}
