/** What a submission is answered and what it leaves, in terms of the session, its cards and the
    agent table alone. */
module JudgingAnswers {
  import opened Options
  import opened Judging
  import opened JudgingGuarantees
  import opened Rounding

  // ------------------------------------------------------------------ the answer

  predicate Open(s: Session) {
    s.status.PendingReview? || s.status.InDeliberation? || s.status.EscalatedToOwner?
  }

  /** Judge and author are on record in one department. */
  predicate Colleagues(judge: Agent, authorRow: Option<Agent>) {
    && judge.department.Some? && authorRow.Some? && authorRow.value.department.Some?
    && judge.department.value == authorRow.value.department.value
  }

  predicate HasCardOf(s: Session, judge: AgentId) {
    exists c :: c in s.cards && c.judge == judge
  }

  /** A proper card: from an active judge who is neither the author nor a colleague of the author,
      and who has no card in the session yet. */
  predicate Proper(s: Session, call: Submission) {
    && call.card.judge != s.author
    && call.judgeRow.Some? && call.judgeRow.value.active && !Colleagues(call.judgeRow.value, call.authorRow)
    && !HasCardOf(s, call.card.judge)
  }

  lemma CardOfIff(s: Session, judge: AgentId)
    ensures HasCardOf(s, judge) <==> exists i :: 0 <= i < |s.cards| && s.cards[i].judge == judge
  {
    if i :| 0 <= i < |s.cards| && s.cards[i].judge == judge {
      assert s.cards[i] in s.cards;
    }
  }

  /** A card is accepted exactly when the session is open and the card is proper. */
  lemma AcceptedIff(s: Session, call: Submission)
    ensures ReplyTo(s, call) == Submitted <==> Open(s) && Proper(s, call)
  {
    CardOfIff(s, call.card.judge);
    hide HasCardOf;
  }

  /** Why a card is refused: the first of the checks that fails. */
  lemma RefusedBecause(s: Session, call: Submission)
    ensures var (r, judge) := (ReplyTo(s, call), call.judgeRow);
      && (r == Rejected(AlreadyClosed) <==> s.status.ConsensusReached? || s.status.Closed?)
      && (r == Rejected(AuthorIsJudge) <==> Open(s) && call.card.judge == s.author)
      && (r == Rejected(JudgeInactive) <==>
            Open(s) && call.card.judge != s.author && (judge.Some? ==> !judge.value.active))
      && (r == Rejected(SameDepartment) <==>
            && Open(s) && call.card.judge != s.author
            && judge.Some? && judge.value.active && Colleagues(judge.value, call.authorRow))
      && (r == Rejected(Duplicate) <==>
            && Open(s) && call.card.judge != s.author
            && judge.Some? && judge.value.active && !Colleagues(judge.value, call.authorRow)
            && HasCardOf(s, call.card.judge))
  {
    CardOfIff(s, call.card.judge);
    hide HasCardOf;
  }

  // --------------------------------------------------------------- the evaluation

  /** The cards without a declared conflict, in their order. */
  ghost predicate AreTheCountingCards(cards: seq<Card>, counting: seq<Card>, at: seq<nat>) {
    && |at| == |counting|
    && (forall k | 0 <= k < |at| :: at[k] < |cards| && cards[at[k]] == counting[k])
    && (forall k, l | 0 <= k < l < |at| :: at[k] < at[l])
    && (forall i | 0 <= i < |cards| :: !cards[i].conflict <==> i in at)
  }

  lemma {:induction false} ValidAreCounting(cards: seq<Card>) returns (at: seq<nat>)
    ensures AreTheCountingCards(cards, Valid(cards), at)
  {
    if cards == [] {
      at := [];
    } else {
      var n := |cards| - 1;
      at := ValidAreCounting(cards[..n]);
      hide AreTheCountingCards;
      at := OneMoreCard(cards[..n], cards[n], Valid(cards[..n]), at);
      assert cards == cards[..n] + [cards[n]];
    }
  }

  lemma OneMoreCard(cards: seq<Card>, card: Card, counting: seq<Card>, at: seq<nat>) returns (at': seq<nat>)
    requires AreTheCountingCards(cards, counting, at)
    ensures AreTheCountingCards(cards + [card], counting + if card.conflict then [] else [card], at')
  {
    at' := if card.conflict then at else at + [|cards|];
    forall i | 0 <= i < |cards + [card]| ensures !(cards + [card])[i].conflict <==> i in at' {
      assert i < |cards| ==> (cards + [card])[i] == cards[i];
      assert i == |cards| && !card.conflict ==> at'[|at|] == i;
    }
  }

  /** a is the mean of the scores: no integer is nearer to sum / n, and a tie goes to the even one. */
  predicate IsNearestTo(a: int, sum: int, n: int) {
    && -n <= 2 * (a * n - sum) <= n
    && (2 * (a * n - sum) == n || 2 * (a * n - sum) == -n ==> a % 2 == 0)
  }

  lemma RoundedIsNearest(sum: int, n: int)
    requires n > 0
    ensures IsNearestTo(Rounded(sum, n), sum, n)
  {
    var q, r := sum / n, sum % n;
    assert sum == q * n + r && 0 <= r < n;
    assert (q + 1) * n == q * n + n;
  }

  /** Two of the scores are more than 25.00 points apart. */
  predicate FarApart(cards: seq<Card>) {
    exists c, d :: c in cards && d in cards && c.score - d.score > 2500
  }

  lemma FarApartIff(cards: seq<Card>)
    requires cards != []
    ensures FarApart(cards) <==> Spread(Scores(cards)) > TOLERATED_SPREAD
  {
    var xs := Scores(cards);
    if c, d :| c in cards && d in cards && c.score - d.score > 2500 {
      var i :| 0 <= i < |cards| && cards[i] == c;
      var j :| 0 <= j < |cards| && cards[j] == d;
      assert xs[i] <= Max(xs) && Min(xs) <= xs[j];
    }
    var i :| 0 <= i < |xs| && xs[i] == Max(xs);
    var j :| 0 <= j < |xs| && xs[j] == Min(xs);
    assert cards[i] in cards && cards[j] in cards;
  }

  /** v is the verdict of the first card whose verdict is among the most frequent. */
  ghost predicate IsFirstMostFrequent(v: Verdict, vs: seq<Verdict>) {
    exists i :: 0 <= i < |vs| && vs[i] == v
      && (forall w: Verdict :: multiset(vs)[w] <= multiset(vs)[v])
      && forall k | 0 <= k < i :: multiset(vs)[vs[k]] < multiset(vs)[v]
  }

  lemma MajorityIsFirst(vs: seq<Verdict>)
    requires vs != []
    ensures IsFirstMostFrequent(Majority(vs), vs)
  {
    LeaderLeads(vs, |vs|);
    MajorityIsMaximal(vs);
    var i :| 0 <= i < |vs| && IsFirstLeader(vs, |vs|, i);
    assert vs[i] == Majority(vs);
  }

  /** The session after a proper card: the card is last; with too few counting cards the council
      deliberates; with enough it escalates when two scores are more than 25.00 apart, and closes
      with the first most frequent verdict when not, the mean recorded either way. */
  lemma AcceptedCardLeaves(s: Session, call: Submission)
    requires Open(s) && Proper(s, call) && 1 <= s.required
    ensures var (s', valid) := (After(s, call), Valid(s.cards + [call.card]));
      && (s'.author, s'.required, s'.cards) == (s.author, s.required, s.cards + [call.card])
      && if |valid| < s.required then
           s'.status == InDeliberation && (s'.aggregate, s'.finalVerdict, s'.closedAt) == (s.aggregate, s.finalVerdict, s.closedAt)
         else
           && s'.aggregate.Some? && IsNearestTo(s'.aggregate.value, Sum(Scores(valid)), |valid|)
           && if FarApart(valid) then
                s'.status == EscalatedToOwner && (s'.finalVerdict, s'.closedAt) == (s.finalVerdict, s.closedAt)
              else
                && s'.status == ConsensusReached && s'.closedAt == Some(call.now)
                && s'.finalVerdict.Some? && IsFirstMostFrequent(s'.finalVerdict.value, Verdicts(valid))
  {
    AcceptedIff(s, call);
    var valid := Valid(s.cards + [call.card]);
    if |valid| >= s.required {
      FarApartIff(valid);
      RoundedIsNearest(Sum(Scores(valid)), |valid|);
      MajorityIsFirst(Verdicts(valid));
    }
    hide Valid, Scores, Verdicts, Sum, FarApart, IsFirstMostFrequent, IsNearestTo, Spread, Majority, Rounded, Proper, Open;
  }

  /** A refused card leaves the session as it was. */
  lemma RefusedCardLeaves(s: Session, call: Submission)
    requires !Open(s) || !Proper(s, call)
    ensures After(s, call) == s
  {
    AcceptedIff(s, call);
    hide Open, Proper, Evaluated;
  }

  /** In every run: the calls a session has seen can be followed by a proper card whenever the
      session is open, and it is then the last card of the session. */
  lemma ProperCardIsAppended(run: seq<Session>, call: Submission)
    requires IsRun(run) && Open(run[|run| - 1]) && Proper(run[|run| - 1], call)
    ensures var s := run[|run| - 1];
      var s' := After(s, call);
      ReplyTo(s, call) == Submitted && s'.cards == s.cards + [call.card] && IsRun(run + [s'])
  {
    var s := run[|run| - 1];
    var s' := After(s, call);
    RunKeepsRequired(run, |run| - 1);
    AcceptedIff(s, call);
    AcceptedCardLeaves(s, call);
    hide Open, Proper, After, ReplyTo;
    forall i | 0 <= i < |run| ensures Next((run + [s'])[i], (run + [s'])[i + 1]) {
      assert i < |run| - 1 ==> Next(run[i], run[i + 1]);
    }
  }

  /** In every run a session is pending exactly as long as nobody has submitted a card. */
  lemma {:induction false} PendingIffNoCards(run: seq<Session>, i: nat)
    requires IsRun(run) && i < |run|
    ensures run[i].status == PendingReview <==> run[i].cards == []
  {
    if i > 0 {
      PendingIffNoCards(run, i - 1);
      assert Next(run[i - 1], run[i]);
      var call: Submission :| run[i] == After(run[i - 1], call);
      hide IsRun, Next;
      StillPendingIff(run[i - 1], call);
    }
  }

  lemma StillPendingIff(s: Session, call: Submission)
    requires s.status == PendingReview <==> s.cards == []
    ensures After(s, call).status == PendingReview <==> After(s, call).cards == []
  {
    hide Valid, Mean, Spread, Scores, Verdicts, Majority;
  }

  lemma {:induction false} RunKeepsRequired(run: seq<Session>, i: nat)
    requires IsRun(run) && i < |run|
    ensures 1 <= run[i].required
  {
    if i > 0 {
      RunKeepsRequired(run, i - 1);
      assert Next(run[i - 1], run[i]);
    }
  }

  // -------------------------------------------------------------- two of two cards

  function FromNewJudge(judge: AgentId, score: int, verdict: Verdict): Submission {
    Submission(Card(judge, score, verdict, false), Some(Agent(true, None)), None, 0)
  }

  /** With two judges required, two scores escalate the session exactly when they are more than
      25.00 points apart, and close it otherwise. */
  lemma TwoJudges(a: int, b: int)
    ensures var s := After(After(Opened(1, 2), FromNewJudge(2, a, Passed)), FromNewJudge(3, b, Passed));
      && (s.status == EscalatedToOwner <==> a - b > 2500 || b - a > 2500)
      && (s.status == ConsensusReached <==> a - b <= 2500 && b - a <= 2500)
  {
    var (one, two) := (Card(2, a, Passed, false), Card(3, b, Passed, false));
    var s := Opened(1, 2);
    var first := After(s, FromNewJudge(2, a, Passed));
    TwoCards(one, two);
    assert s.cards + [one] == [one];
    hide Valid, Evaluated, After, Sum, FarApart;
    AcceptedCardLeaves(s, FromNewJudge(2, a, Passed));
    assert first.cards == [one] && first.required == 2 && first.author == 1 && first.status == InDeliberation;
    AcceptedCardLeaves(first, FromNewJudge(3, b, Passed));
    FarApartOfTwo(one, two);
  }

  lemma FarApartOfTwo(c: Card, d: Card)
    ensures FarApart([c, d]) <==> c.score - d.score > 2500 || d.score - c.score > 2500
  {
    assert c in [c, d] && d in [c, d];
  }

  lemma TwoCards(c: Card, d: Card)
    requires !c.conflict && !d.conflict
    ensures Valid([c]) == [c] && Valid([c, d]) == [c, d]
    ensures Sum(Scores([c, d])) == c.score + d.score && [c] + [d] == [c, d]
  {
    assert [c][..0] == [];
    assert [c, d][..1] == [c];
    assert Scores([c, d]) == [c.score, d.score];
    assert [c.score, d.score][..1] == [c.score];
    assert [c.score][..0] == [];
    assert Sum([c.score]) == c.score;
  }
}
