/** The judging council: scorecards, conflicts of interest, consensus and escalation.
    Scores are exact hundredths of a point. */
module Judging {
  import opened Options
  import opened Rounding

  type AgentId = nat
  type DepartmentId = nat

  datatype Verdict = Passed | Failed | NeedsRevision | Disqualified

  datatype Status = PendingReview | InDeliberation | ConsensusReached | EscalatedToOwner | Closed

  /** A scorecard of the session. */
  datatype Card = Card(judge: AgentId, score: int, verdict: Verdict, conflict: bool)

  /** What the agent table says about an agent. */
  datatype Agent = Agent(active: bool, department: Option<DepartmentId>)

  datatype Session = Session(
    author: AgentId,
    required: nat,
    status: Status,
    cards: seq<Card>,
    aggregate: Option<int>,
    finalVerdict: Option<Verdict>,
    closedAt: Option<int>)

  datatype Refusal = AlreadyClosed | AuthorIsJudge | JudgeInactive | SameDepartment | Duplicate

  datatype Reply = Submitted | Rejected(why: Refusal)

  /** More than 25 points between two scores calls the owner. */
  const TOLERATED_SPREAD := 2500

  // --------------------------------------------------------------- evaluation

  function Valid(cards: seq<Card>): seq<Card> {
    if cards == [] then []
    else Valid(cards[..|cards| - 1]) + if cards[|cards| - 1].conflict then [] else [cards[|cards| - 1]]
  }

  function Scores(cards: seq<Card>): (r: seq<int>)
    ensures |r| == |cards|
  {
    seq(|cards|, i requires 0 <= i < |cards| => cards[i].score)
  }

  function Verdicts(cards: seq<Card>): (r: seq<Verdict>)
    ensures |r| == |cards|
  {
    seq(|cards|, i requires 0 <= i < |cards| => cards[i].verdict)
  }

  function Sum(xs: seq<int>): int {
    if xs == [] then 0 else Sum(xs[..|xs| - 1]) + xs[|xs| - 1]
  }

  function Max(xs: seq<int>): (m: int)
    requires xs != []
    ensures m in xs
    ensures forall i | 0 <= i < |xs| :: xs[i] <= m
  {
    var last := xs[|xs| - 1];
    if |xs| == 1 then last
    else
      var rest := Max(xs[..|xs| - 1]);
      if rest < last then last else rest
  }

  function Min(xs: seq<int>): (m: int)
    requires xs != []
    ensures m in xs
    ensures forall i | 0 <= i < |xs| :: m <= xs[i]
  {
    var last := xs[|xs| - 1];
    if |xs| == 1 then last
    else
      var rest := Min(xs[..|xs| - 1]);
      if last < rest then last else rest
  }

  function Mean(xs: seq<int>): int
    requires xs != []
  {
    Rounded(Sum(xs), |xs|)
  }

  function Spread(xs: seq<int>): int
    requires xs != []
  {
    Max(xs) - Min(xs)
  }

  /** The first of vs[..n] that is in vs at least as often as any other of vs[..n]. */
  function Leader(vs: seq<Verdict>, n: nat): Verdict
    requires 1 <= n <= |vs|
  {
    if n == 1 then vs[0]
    else
      var l := Leader(vs, n - 1);
      if multiset(vs)[vs[n - 1]] > multiset(vs)[l] then vs[n - 1] else l
  }

  function Majority(vs: seq<Verdict>): Verdict
    requires vs != []
  {
    Leader(vs, |vs|)
  }

  // ---------------------------------------------------------------- submission

  /** The conflict-of-interest and duplicate checks, in their order. */
  function Objection(s: Session, judge: AgentId, judgeRow: Option<Agent>, authorRow: Option<Agent>): Option<Refusal> {
    if s.status == ConsensusReached || s.status == Closed then Some(AlreadyClosed)
    else if judge == s.author then Some(AuthorIsJudge)
    else if judgeRow.None? || !judgeRow.value.active then Some(JudgeInactive)
    else if authorRow.Some? && authorRow.value.department.Some? && judgeRow.value.department == authorRow.value.department then
      Some(SameDepartment)
    else if exists i :: 0 <= i < |s.cards| && s.cards[i].judge == judge then Some(Duplicate)
    else None
  }

  /** The session with its cards, evaluated. */
  function Evaluated(s: Session, now: int): Session {
    var valid := Valid(s.cards);
    if |valid| >= s.required && valid != [] then
      var scored := s.(aggregate := Some(Mean(Scores(valid))));
      if Spread(Scores(valid)) > TOLERATED_SPREAD then scored.(status := EscalatedToOwner)
      else scored.(status := ConsensusReached, finalVerdict := Some(Majority(Verdicts(valid))), closedAt := Some(now))
    else s.(status := InDeliberation)
  }

  /** One call: who submits which card, what the agent table says then, and the clock. */
  datatype Submission = Submission(card: Card, judgeRow: Option<Agent>, authorRow: Option<Agent>, now: int)

  function After(s: Session, call: Submission): Session {
    if Objection(s, call.card.judge, call.judgeRow, call.authorRow).Some? then s
    else Evaluated(s.(cards := s.cards + [call.card]), call.now)
  }

  function ReplyTo(s: Session, call: Submission): Reply {
    match Objection(s, call.card.judge, call.judgeRow, call.authorRow)
    case Some(why) => Rejected(why)
    case None => Submitted
  }

  function Opened(author: AgentId, required: nat): Session {
    Session(author, required, PendingReview, [], None, None, None)
  }

  /** A row of the session table with its scorecards. */
  class JudgingSession {
    const author: AgentId
    const required: nat
    var status: Status
    var cards: seq<Card>
    var aggregate: Option<int>
    var finalVerdict: Option<Verdict>
    var closedAt: Option<int>

    /** Sessions are created with one to nine required judges. */
    constructor (author: AgentId, required: nat)
      requires 1 <= required <= 9
      ensures Row() == Opened(author, required)
    {
      this.author, this.required := author, required;
      status, cards, aggregate, finalVerdict, closedAt := PendingReview, [], None, None, None;
    }

    function Row(): Session
      reads this
    {
      Session(author, required, status, cards, aggregate, finalVerdict, closedAt)
    }

    method SubmitScorecard(card: Card, judgeRow: Option<Agent>, authorRow: Option<Agent>, now: int) returns (r: Reply)
      requires 1 <= required
      modifies this
      ensures Row() == After(old(Row()), Submission(card, judgeRow, authorRow, now))
      ensures r == ReplyTo(old(Row()), Submission(card, judgeRow, authorRow, now))
    {
      hide Valid, Scores, Verdicts, Mean, Spread, Majority;
      if status == ConsensusReached || status == Closed {
        return Rejected(AlreadyClosed);
      }
      if card.judge == author {
        return Rejected(AuthorIsJudge);
      }
      if judgeRow.None? || !judgeRow.value.active {
        return Rejected(JudgeInactive);
      }
      if authorRow.Some? && authorRow.value.department.Some? && judgeRow.value.department == authorRow.value.department {
        return Rejected(SameDepartment);
      }
      if exists i :: 0 <= i < |cards| && cards[i].judge == card.judge {
        return Rejected(Duplicate);
      }
      cards := cards + [card];
      var valid := Valid(cards);
      if |valid| >= required {
        var scores := Scores(valid);
        aggregate := Some(Mean(scores));
        if Spread(scores) > TOLERATED_SPREAD {
          status := EscalatedToOwner;
        } else {
          status := ConsensusReached;
          finalVerdict := Some(Majority(Verdicts(valid)));
          closedAt := Some(now);
        }
      } else {
        status := InDeliberation;
      }
      return Submitted;
    }
  }
}
