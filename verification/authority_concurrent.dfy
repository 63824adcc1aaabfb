/** Suspension, termination, restoration and grants of one agent as interleaved transactions.
    None of them locks the agent's row when reading it, so a grant can be issued beside a
    suspension.  Writes of a transaction are seen by others when it commits; the row locks of a
    bulk update only delay others and do not change what is live, so they are left out. */
module AuthorityConcurrent {
  import opened Options
  import opened Authority

  type ThreadId = nat

  /** Suspending or terminating, restoring, or issuing a grant. */
  datatype Job = Retire(to: AgentStatus) | Reinstate | Give(grant: GrantId)

  datatype Pc =
    | Arrived
    | Read(seen: AgentStatus)                              // the agent's row, read without a lock
    | Marked(seen: AgentStatus, targets: set<GrantId>)     // bulk update done, not committed
    | Over

  datatype Thread = Thread(job: Job, pc: Pc)

  /** The committed status, the committed grants with whether they are live, and who is at work. */
  datatype Sys = Sys(status: AgentStatus, grants: map<GrantId, bool>, threads: map<ThreadId, Thread>, minted: set<GrantId>)

  const Init := Sys(Active, map[], map[], {})

  datatype Step =
    | Arrive(th: ThreadId, job: Job)
    | ReadAgent(th: ThreadId)
    | Bulk(th: ThreadId)
    | Commit(th: ThreadId)
    | Abort(th: ThreadId)
    | RevokeOne(grant: GrantId)

  predicate IsLive(s: Sys, g: GrantId) {
    g in s.grants && s.grants[g]
  }

  function LiveGrants(s: Sys): set<GrantId> {
    set g | g in s.grants && s.grants[g]
  }

  predicate At(s: Sys, th: ThreadId, pc: Pc) {
    th in s.threads && s.threads[th].pc == pc
  }

  predicate HasRead(s: Sys, th: ThreadId) {
    th in s.threads && s.threads[th].pc.Read?
  }

  predicate Enabled(s: Sys, step: Step) {
    match step
    case Arrive(th, job) =>
      th !in s.threads && (job.Give? ==> job.grant !in s.minted) && (job.Retire? ==> job.to != Active)
    case ReadAgent(th) => At(s, th, Arrived)
    case Bulk(th) => HasRead(s, th) && s.threads[th].job.Retire?
    case Commit(th) =>
      && th in s.threads
      && (s.threads[th].pc.Marked? || (s.threads[th].pc.Read? && !s.threads[th].job.Retire?))
    case Abort(th) => th in s.threads
    case RevokeOne(g) => IsLive(s, g)
  }

  function Put(s: Sys, th: ThreadId, pc: Pc): Sys
    requires th in s.threads
  {
    s.(threads := s.threads[th := s.threads[th].(pc := pc)])
  }

  /** A grant is refused to an agent that is not active, a restoration to a terminated one. */
  function AfterRead(job: Job, seen: AgentStatus): Pc {
    if (job.Give? && seen != Active) || (job.Reinstate? && seen == Terminated) then Over else Read(seen)
  }

  /** The status column is written only if it differs from the one that was read. */
  function StatusAfter(s: Sys, seen: AgentStatus, to: AgentStatus): AgentStatus {
    if seen == to then s.status else to
  }

  function Revoked(grants: map<GrantId, bool>, targets: set<GrantId>): map<GrantId, bool> {
    map g | g in grants :: grants[g] && g !in targets
  }

  function Committed(s: Sys, th: ThreadId): Sys
    requires Enabled(s, Commit(th))
  {
    var t := s.threads[th];
    match t.job
    case Retire(to) =>
      Put(s, th, Over).(status := StatusAfter(s, t.pc.seen, to), grants := if t.pc.Marked? then Revoked(s.grants, t.pc.targets) else s.grants)
    case Reinstate => Put(s, th, Over).(status := StatusAfter(s, t.pc.seen, Active))
    case Give(g) => Put(s, th, Over).(grants := s.grants[g := true])
  }

  function Do(s: Sys, step: Step): Sys
    requires Enabled(s, step)
  {
    match step
    case Arrive(th, job) =>
      s.(threads := s.threads[th := Thread(job, Arrived)], minted := if job.Give? then s.minted + {job.grant} else s.minted)
    case ReadAgent(th) => Put(s, th, AfterRead(s.threads[th].job, s.status))
    case Bulk(th) => Put(s, th, Marked(s.threads[th].pc.seen, LiveGrants(s)))
    case Commit(th) => Committed(s, th)
    case Abort(th) => Put(s, th, Over)
    case RevokeOne(g) => s.(grants := s.grants[g := false])
  }

  ghost predicate Next(s: Sys, s': Sys) {
    exists step :: Enabled(s, step) && s' == Do(s, step)
  }

  ghost predicate IsRun(run: seq<Sys>) {
    && run != [] && run[0] == Init
    && forall i | 0 <= i < |run| - 1 :: Next(run[i], run[i + 1])
  }

  // ---------------------------------------------------------------- what runs keep

  predicate ThreadOk(t: Thread) {
    && (t.job.Give? && t.pc.Read? ==> t.pc.seen == Active)
    && (t.pc.Marked? ==> t.job.Retire?)
    && (t.job.Retire? ==> t.job.to != Active)
    && (t.job.Reinstate? && t.pc.Read? ==> t.pc.seen != Terminated)
  }

  /** Grants have been minted, each for one request, and are committed by it. */
  ghost predicate Inv(s: Sys) {
    && (forall th | th in s.threads :: ThreadOk(s.threads[th]))
    && (forall g | g in s.grants :: g in s.minted)
    && (forall th | th in s.threads && s.threads[th].job.Give? :: s.threads[th].job.grant in s.minted)
    && (forall th | th in s.threads && s.threads[th].job.Give? && s.threads[th].pc != Over :: s.threads[th].job.grant !in s.grants)
    && (forall a, b | a in s.threads && b in s.threads && a != b && s.threads[a].job.Give? && s.threads[b].job.Give? ::
          s.threads[a].job.grant != s.threads[b].job.grant)
  }

  lemma StepKeepsInv(s: Sys, step: Step)
    requires Inv(s) && Enabled(s, step)
    ensures Inv(Do(s, step))
  {
    hide LiveGrants;
  }

  lemma {:induction false} RunKeepsInv(run: seq<Sys>, j: nat)
    requires IsRun(run) && j < |run|
    ensures Inv(run[j])
  {
    if j > 0 {
      RunKeepsInv(run, j - 1);
      assert Next(run[j - 1], run[j - 1 + 1]);
      var step :| Enabled(run[j - 1], step) && run[j] == Do(run[j - 1], step);
      hide *;
      StepKeepsInv(run[j - 1], step);
    }
  }

  /** A committed grant stays on record, and a dead one stays dead. */
  lemma GrantsOnlyDie(s: Sys, step: Step, g: GrantId)
    requires Inv(s) && Enabled(s, step) && g in s.grants
    ensures g in Do(s, step).grants && (IsLive(Do(s, step), g) ==> IsLive(s, g))
  {
    hide LiveGrants;
  }

  lemma {:induction false} GrantsOnlyDieInRuns(run: seq<Sys>, i: nat, j: nat, g: GrantId)
    requires IsRun(run) && i <= j < |run| && g in run[i].grants
    ensures g in run[j].grants && (IsLive(run[j], g) ==> IsLive(run[i], g))
    decreases j
  {
    if i < j {
      GrantsOnlyDieInRuns(run, i, j - 1, g);
      RunKeepsInv(run, j - 1);
      assert Next(run[j - 1], run[j - 1 + 1]);
      var step :| Enabled(run[j - 1], step) && run[j] == Do(run[j - 1], step);
      hide *;
      GrantsOnlyDie(run[j - 1], step, g);
    }
  }

  // ------------------------------------------------------------ steps of a run

  ghost predicate StepAt(run: seq<Sys>, i: nat, step: Step) {
    i + 1 < |run| && Enabled(run[i], step) && run[i + 1] == Do(run[i], step)
  }

  lemma SomeStep(run: seq<Sys>, i: nat) returns (step: Step)
    requires IsRun(run) && i + 1 < |run|
    ensures StepAt(run, i, step)
  {
    assert Next(run[i], run[i + 1]);
    step :| Enabled(run[i], step) && run[i + 1] == Do(run[i], step);
  }

  /** Another request's step leaves a thread as it is. */
  lemma OthersLeaveThread(s: Sys, step: Step, th: ThreadId)
    requires Enabled(s, step) && th in Do(s, step).threads && (step.RevokeOne? || step.th != th)
    ensures th in s.threads && Do(s, step).threads[th] == s.threads[th]
  {
    hide LiveGrants;
  }

  /** Request th read this status at step r and had not done anything further by j. */
  lemma {:induction false} ReadHappened(run: seq<Sys>, j: nat, th: ThreadId) returns (r: nat)
    requires IsRun(run) && j < |run| && HasRead(run[j], th)
    ensures r < j && StepAt(run, r, ReadAgent(th)) && run[r].status == run[j].threads[th].pc.seen
  {
    if j == 0 {
      assert false;
    } else {
      var step := SomeStep(run, j - 1);
      if step == ReadAgent(th) {
        r := j - 1;
      } else {
        StillReading(run[j - 1], step, th);
        hide Do, Enabled, IsRun;
        r := ReadHappened(run, j - 1, th);
      }
    }
  }

  lemma StillReading(s: Sys, step: Step, th: ThreadId)
    requires Enabled(s, step) && step != ReadAgent(th) && HasRead(Do(s, step), th)
    ensures HasRead(s, th) && Do(s, step).threads[th] == s.threads[th]
  {
    hide LiveGrants;
  }

  lemma {:induction false} BulkHappened(run: seq<Sys>, j: nat, th: ThreadId) returns (b: nat)
    requires IsRun(run) && j < |run| && th in run[j].threads && run[j].threads[th].pc.Marked?
    ensures b < j && StepAt(run, b, Bulk(th)) && run[j].threads[th].pc.targets == LiveGrants(run[b])
  {
    if j == 0 {
      assert false;
    } else {
      var step := SomeStep(run, j - 1);
      if step == Bulk(th) {
        b := j - 1;
      } else {
        StillMarked(run[j - 1], step, th);
        hide Do, Enabled, IsRun;
        b := BulkHappened(run, j - 1, th);
      }
    }
  }

  lemma StillMarked(s: Sys, step: Step, th: ThreadId)
    requires Enabled(s, step) && step != Bulk(th) && th in Do(s, step).threads && Do(s, step).threads[th].pc.Marked?
    ensures th in s.threads && Do(s, step).threads[th] == s.threads[th]
  {
    hide LiveGrants;
  }

  predicate Gives(s: Sys, th: ThreadId, g: GrantId) {
    th in s.threads && s.threads[th].job == Give(g)
  }

  /** Every committed grant was committed by its request, which had read the agent as ACTIVE. */
  lemma {:induction false} GrantHappened(run: seq<Sys>, j: nat, g: GrantId) returns (th: ThreadId, r: nat, c: nat)
    requires IsRun(run) && j < |run| && g in run[j].grants
    ensures r < c < j && StepAt(run, r, ReadAgent(th)) && StepAt(run, c, Commit(th))
    ensures run[r].status == Active && Gives(run[c], th, g) && g !in run[c].grants
  {
    if j == 0 {
      assert false;
    } else {
      var step := SomeStep(run, j - 1);
      if g in run[j - 1].grants {
        hide Do, Enabled, IsRun;
        th, r, c := GrantHappened(run, j - 1, g);
      } else {
        assert step.Commit?;
        th, c := step.th, j - 1;
        RunKeepsInv(run, c);
        assert ThreadOk(run[c].threads[th]);
        hide Do, IsRun;
        r := ReadHappened(run, c, th);
      }
    }
  }

  /** A request whose read found the agent goes on unless it asks for a grant to an agent that is not
      active, or for the restoration of a terminated one; then it is over without a trace. */
  lemma ReadPassesIff(s: Sys, th: ThreadId)
    requires Enabled(s, ReadAgent(th))
    ensures var s' := Do(s, ReadAgent(th));
      var job := s.threads[th].job;
      && (HasRead(s', th) <==> (job.Give? ==> s.status.Active?) && (job.Reinstate? ==> !s.status.Terminated?))
      && (!HasRead(s', th) ==> At(s', th, Over))
      && s'.status == s.status && s'.grants == s.grants && s'.threads.Keys == s.threads.Keys
      && forall a | a in s.threads && a != th :: s'.threads[a] == s.threads[a]
  {
  }

  /** What each commit writes: a retirement its status, unless the agent had it when it was read, and
      the end of the grants it found; a restoration ACTIVE, unless that was read; a grant itself. */
  lemma CommitWrites(s: Sys, th: ThreadId)
    requires Inv(s) && Enabled(s, Commit(th))
    ensures At(Do(s, Commit(th)), th, Over)
    ensures var (t, s') := (s.threads[th], Do(s, Commit(th)));
      match t.job
      case Retire(to) =>
        && t.pc.Marked? && s'.status == (if t.pc.seen != to then to else s.status)
        && s'.grants.Keys == s.grants.Keys
        && forall g | g in s.grants :: s'.grants[g] <==> s.grants[g] && g !in t.pc.targets
      case Reinstate => s'.grants == s.grants && s'.status == (if t.pc.seen.Active? then s.status else Active)
      case Give(g) =>
        && s'.status == s.status && g !in s.grants && s'.grants.Keys == s.grants.Keys + {g} && s'.grants[g]
        && forall f | f in s.grants :: s'.grants[f] == s.grants[f]
  {
    assert ThreadOk(s.threads[th]);
  }

  /** Revoking one grant ends this grant and nothing else; a transaction that aborts leaves no trace. */
  lemma RevocationAndAbort(s: Sys, g: GrantId, th: ThreadId)
    requires Enabled(s, RevokeOne(g)) && Enabled(s, Abort(th))
    ensures var revoked := Do(s, RevokeOne(g));
      && LiveGrants(revoked) == LiveGrants(s) - {g} && revoked.grants.Keys == s.grants.Keys
      && revoked.status == s.status && revoked.threads == s.threads
    ensures var aborted := Do(s, Abort(th));
      && aborted.grants == s.grants && aborted.status == s.status && At(aborted, th, Over)
      && aborted.threads.Keys == s.threads.Keys && forall a | a in s.threads && a != th :: aborted.threads[a] == s.threads[a]
  {
  }

  /** In every run: an agent that is not active becomes active only by the commit of a restoration,
      which had read it as suspended. */
  lemma ReactivationHappened(run: seq<Sys>, j: nat) returns (th: ThreadId, r: nat)
    requires IsRun(run) && j + 1 < |run| && run[j].status != Active && run[j + 1].status == Active
    ensures r < j && StepAt(run, j, Commit(th)) && run[j].threads[th].job.Reinstate?
    ensures StepAt(run, r, ReadAgent(th)) && run[r].status == Suspended
  {
    var step := SomeStep(run, j);
    RunKeepsInv(run, j);
    ActivatedBy(run[j], step);
    th := step.th;
    hide Do, IsRun, Inv;
    r := ReadHappened(run, j, th);
  }

  lemma ActivatedBy(s: Sys, step: Step)
    requires Inv(s) && Enabled(s, step) && s.status != Active && Do(s, step).status == Active
    ensures step.Commit? && s.threads[step.th].job.Reinstate? && s.threads[step.th].pc.Read?
    ensures s.threads[step.th].pc.seen == Suspended
  {
    assert step.Commit?;
    assert ThreadOk(s.threads[step.th]);
  }

  // --------------------------------------------------------- what a retirement reaches

  /** After a retirement has committed, no grant that was on record at its bulk update is live. */
  lemma RetirementReaches(run: seq<Sys>, b: nat, x: nat, j: nat, th: ThreadId, g: GrantId)
    requires IsRun(run) && b < x < j < |run| && StepAt(run, x, Commit(th))
    requires th in run[x].threads && run[x].threads[th].pc.Marked? && run[x].threads[th].pc.targets == LiveGrants(run[b])
    requires g in run[b].grants
    ensures !IsLive(run[j], g)
  {
    GrantsOnlyDieInRuns(run, b, x, g);
    RunKeepsInv(run, x);
    DiesAtCommit(run[x], th, g, LiveGrants(run[b]));
    GrantsOnlyDieInRuns(run, x + 1, j, g);
    hide IsRun, Do, Enabled, Inv;
  }

  lemma DiesAtCommit(s: Sys, th: ThreadId, g: GrantId, targets: set<GrantId>)
    requires Inv(s) && Enabled(s, Commit(th)) && s.threads[th].pc.Marked? && s.threads[th].pc.targets == targets
    requires g in s.grants && (IsLive(s, g) ==> g in targets)
    ensures g in Do(s, Commit(th)).grants && !IsLive(Do(s, Commit(th)), g)
  {
    assert ThreadOk(s.threads[th]);
  }

  /** The agent is not active and holds a live grant all the same. */
  predicate IsOrphan(s: Sys, g: GrantId) {
    s.status != Active && IsLive(s, g)
  }

  /** Somewhere between an ACTIVE status and one that is not, a retirement committed. */
  lemma {:induction false} RetirementHappened(run: seq<Sys>, r: nat, j: nat) returns (x: nat, u: ThreadId)
    requires IsRun(run) && r <= j < |run| && run[r].status == Active && run[j].status != Active
    ensures r <= x < j && StepAt(run, x, Commit(u)) && u in run[x].threads && run[x].threads[u].pc.Marked?
    decreases j
  {
    if r == j {
      assert false;
    } else if run[j - 1].status != Active {
      hide Do, Enabled, IsRun;
      x, u := RetirementHappened(run, r, j - 1);
    } else {
      var step := SomeStep(run, j - 1);
      RunKeepsInv(run, j - 1);
      hide IsRun, LiveGrants;
      assert step.Commit?;
      x, u := j - 1, step.th;
      assert ThreadOk(run[x].threads[u]);
    }
  }

  /** How a suspended or terminated agent comes to hold a live grant, in every run: its request
      read the agent as ACTIVE before a retirement committed, and committed after that
      retirement's bulk update.  Transactions that do not overlap in this way never leave one. */
  lemma OrphanNeedsOverlap(run: seq<Sys>, j: nat, g: GrantId)
    returns (th: ThreadId, r: nat, c: nat, u: ThreadId, b: nat, x: nat)
    requires IsRun(run) && j < |run| && IsOrphan(run[j], g)
    ensures r < c < j && StepAt(run, r, ReadAgent(th)) && StepAt(run, c, Commit(th)) && Gives(run[c], th, g)
    ensures b < x < j && StepAt(run, b, Bulk(u)) && StepAt(run, x, Commit(u))
    ensures r < x && b < c
  {
    th, r, c := GrantHappened(run, j, g);
    hide Do, Enabled;
    x, u := RetirementHappened(run, r, j);
    b := BulkHappened(run, x, u);
    if g in run[b].grants {
      RetirementReaches(run, b, x, j, u, g);
    }
    Distinct(run, r, x, th, u);
    if c < b {
      GrantCommitted(run, c, th, g);
      GrantsOnlyDieInRuns(run, c + 1, b, g);
    }
    BulkIsNoCommit(run, b, c, u, th);
  }

  lemma GrantCommitted(run: seq<Sys>, c: nat, th: ThreadId, g: GrantId)
    requires StepAt(run, c, Commit(th)) && Gives(run[c], th, g)
    ensures g in run[c + 1].grants
  {
  }

  lemma Distinct(run: seq<Sys>, r: nat, x: nat, th: ThreadId, u: ThreadId)
    requires StepAt(run, r, ReadAgent(th)) && StepAt(run, x, Commit(u))
    requires u in run[x].threads && run[x].threads[u].pc.Marked?
    ensures r != x
  {
    if r == x && u != th {
      OthersLeaveThread(run[x], ReadAgent(th), u);
    }
    hide LiveGrants;
  }

  lemma BulkIsNoCommit(run: seq<Sys>, b: nat, c: nat, u: ThreadId, th: ThreadId)
    requires StepAt(run, b, Bulk(u)) && StepAt(run, c, Commit(th))
    ensures b != c
  {
    if b == c && u != th {
      OthersLeaveThread(run[b], Bulk(u), th);
    }
    hide LiveGrants;
  }

  // ------------------------------------------------------------ when it can happen

  /** Any states that may come next while the agent is not active. */
  ghost predicate IsInactive(cont: seq<Sys>, s: Sys) {
    && cont != [] && cont[0] == s
    && (forall i | 0 <= i < |cont| :: cont[i].status != Active)
    && forall i | 0 <= i < |cont| - 1 :: Next(cont[i], cont[i + 1])
  }

  predicate EndsLive(cont: seq<Sys>, g: GrantId) {
    cont != [] && IsLive(cont[|cont| - 1], g)
  }

  /** Until it is restored the agent holds no live grant, whatever comes next. */
  ghost predicate HoldsNothingUntilRestored(s: Sys) {
    forall cont, g | IsInactive(cont, s) :: !EndsLive(cont, g)
  }

  /** A grant that has passed its check and is not committed. */
  predicate IsPendingGift(s: Sys, th: ThreadId) {
    HasRead(s, th) && s.threads[th].job.Give?
  }

  ghost predicate NothingInSight(s: Sys) {
    (forall g :: !IsLive(s, g)) && forall th :: !IsPendingGift(s, th)
  }

  lemma InactiveStepKeepsNothing(s: Sys, step: Step)
    requires Inv(s) && NothingInSight(s) && s.status != Active && Enabled(s, step)
    ensures NothingInSight(Do(s, step))
  {
    var s' := Do(s, step);
    forall th ensures !IsPendingGift(s', th) {
      assert !IsPendingGift(s, th);
    }
    forall g ensures !IsLive(s', g) {
      assert !IsLive(s, g);
      if step.Commit? {
        assert !IsPendingGift(s, step.th) && ThreadOk(s.threads[step.th]);
      }
    }
  }

  lemma {:induction false} InactiveKeepsNothing(cont: seq<Sys>, s: Sys, j: nat)
    requires Inv(s) && IsInactive(cont, s) && j < |cont| && NothingInSight(s)
    ensures Inv(cont[j]) && NothingInSight(cont[j])
  {
    if j > 0 {
      InactiveKeepsNothing(cont, s, j - 1);
      assert Next(cont[j - 1], cont[j - 1 + 1]);
      var step :| Enabled(cont[j - 1], step) && cont[j] == Do(cont[j - 1], step);
      hide NothingInSight, Do, Enabled, Inv;
      StepKeepsInv(cont[j - 1], step);
      InactiveStepKeepsNothing(cont[j - 1], step);
    }
  }

  lemma PendingGiftArrives(s: Sys, th: ThreadId)
    requires s.status != Active && IsPendingGift(s, th)
    ensures !HoldsNothingUntilRestored(s)
  {
    var s' := Do(s, Commit(th));
    assert Next(s, s') by {
      assert Enabled(s, Commit(th));
    }
    assert IsInactive([s, s'], s);
    assert EndsLive([s, s'], s.threads[th].job.grant);
  }

  lemma HoldsNothing(s: Sys)
    requires Inv(s) && s.status != Active
    ensures HoldsNothingUntilRestored(s) <==> NothingInSight(s)
  {
    if NothingInSight(s) {
      forall cont, g | IsInactive(cont, s) ensures !EndsLive(cont, g) {
        InactiveKeepsNothing(cont, s, |cont| - 1);
      }
    } else if HoldsNothingUntilRestored(s) {
      assert IsInactive([s], s);
      forall g ensures !IsLive(s, g) {
        assert !EndsLive([s], g);
      }
      var th :| IsPendingGift(s, th);
      PendingGiftArrives(s, th);
    }
  }

  /** In every run: a suspended or terminated agent holds no live grant until it is restored,
      whatever comes next, if and only if it holds none now and no grant has passed its check on
      an ACTIVE status and is still to be committed. */
  lemma HoldsNothingIff(run: seq<Sys>, j: nat)
    requires IsRun(run) && j < |run| && run[j].status != Active
    ensures HoldsNothingUntilRestored(run[j]) <==> NothingInSight(run[j])
  {
    RunKeepsInv(run, j);
    hide *;
    HoldsNothing(run[j]);
  }

  /** What a retirement promises when it commits, exactly: the agent holds nothing until it is
      restored if and only if every live grant was there at its bulk update and no grant is
      between its check and its commit. */
  lemma RetirementHoldsIff(run: seq<Sys>, x: nat, th: ThreadId)
    requires IsRun(run) && StepAt(run, x, Commit(th)) && run[x].threads[th].pc.Marked? && run[x + 1].status != Active
    ensures HoldsNothingUntilRestored(run[x + 1])
      <==> LiveGrants(run[x]) <= run[x].threads[th].pc.targets && forall a :: !IsPendingGift(run[x], a)
  {
    var s, s' := run[x], run[x + 1];
    RunKeepsInv(run, x);
    HoldsNothingIff(run, x + 1);
    assert ThreadOk(s.threads[th]);
    hide HoldsNothingUntilRestored, IsRun;
    forall a ensures IsPendingGift(s', a) <==> IsPendingGift(s, a) {
    }
    forall g ensures IsLive(s', g) <==> g in LiveGrants(s) && g !in s.threads[th].pc.targets {
    }
  }

  // ------------------------------------------------------------------- it happens

  lemma Then(run: seq<Sys>, step: Step) returns (longer: seq<Sys>)
    requires run != [] && IsRun(run) && Enabled(run[|run| - 1], step)
    ensures longer == run + [Do(run[|run| - 1], step)] && IsRun(longer)
  {
    longer := run + [Do(run[|run| - 1], step)];
    hide Enabled, Do;
    forall i | 0 <= i < |longer| - 1 ensures Next(longer[i], longer[i + 1]) {
      if i < |run| - 1 {
        assert Next(run[i], run[i + 1]);
      }
    }
  }

  /** A grant checked before a suspension and committed after it survives the suspension, and
      works again once the agent is restored: restoration does revive it. */
  lemma GrantSurvivesSuspension() returns (run: seq<Sys>, j: nat)
    ensures IsRun(run) && j < |run| && IsOrphan(run[j], 0) && run[j].status == Suspended
    ensures run[|run| - 1].status == Active && IsLive(run[|run| - 1], 0)
  {
    run := [Init];
    assert IsRun(run);
    hide IsRun, Next;
    run := Then(run, Arrive(0, Give(0)));
    run := Then(run, ReadAgent(0));
    run := SuspendedBeside(run);
    run := Then(run, Commit(0));
    j := |run| - 1;
    run := Then(run, Arrive(2, Reinstate));
    run := Then(run, ReadAgent(2));
    run := Then(run, Commit(2));
  }

  lemma SuspendedBeside(run: seq<Sys>) returns (longer: seq<Sys>)
    requires run != [] && IsRun(run) && run[|run| - 1] == Sys(Active, map[], map[0 := Thread(Give(0), Read(Active))], {0})
    ensures IsRun(longer) && longer != []
    ensures longer[|longer| - 1]
      == Sys(Suspended, map[], map[0 := Thread(Give(0), Read(Active)), 1 := Thread(Retire(Suspended), Over)], {0})
  {
    hide IsRun, Next;
    longer := Then(run, Arrive(1, Retire(Suspended)));
    longer := Then(longer, ReadAgent(1));
    longer := Then(longer, Bulk(1));
    assert longer[|longer| - 1].threads[1].pc == Marked(Active, {});
    longer := Then(longer, Commit(1));
  }
}
