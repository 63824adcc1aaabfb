/** What the council promises: escalation is final, consensus is a consensus, and the order
    of the cards does not matter. */
module JudgingGuarantees {
  import opened Options
  import opened Judging
  import opened Rounding

  // ------------------------------------------------------------ the evaluation

  lemma {:induction false} SumBounds(xs: seq<int>, lo: int, hi: int)
    requires forall i | 0 <= i < |xs| :: lo <= xs[i] <= hi
    ensures lo * |xs| <= Sum(xs) <= hi * |xs|
  {
    if xs != [] {
      SumBounds(xs[..|xs| - 1], lo, hi);
      assert lo * |xs| == lo * (|xs| - 1) + lo && hi * |xs| == hi * (|xs| - 1) + hi;
    }
  }

  /** The rounded mean lies between the smallest and the largest score. */
  lemma MeanIsBetween(xs: seq<int>)
    requires xs != []
    ensures Min(xs) <= Mean(xs) <= Max(xs)
  {
    SumBounds(xs, Min(xs), Max(xs));
    RoundedBounds(Sum(xs), |xs|, Min(xs), Max(xs));
  }

  /** Within the tolerated spread, any two scores and the aggregate are within 25 points. */
  lemma ScoresAreClose(xs: seq<int>, i: nat, j: nat)
    requires i < |xs| && j < |xs| && Spread(xs) <= TOLERATED_SPREAD
    ensures -TOLERATED_SPREAD <= xs[i] - xs[j] <= TOLERATED_SPREAD
    ensures -TOLERATED_SPREAD <= xs[i] - Mean(xs) <= TOLERATED_SPREAD
  {
    MeanIsBetween(xs);
    assert xs[i] in xs && xs[j] in xs;
  }

  lemma {:induction false} LeaderLeads(vs: seq<Verdict>, n: nat)
    requires 1 <= n <= |vs|
    ensures exists i :: 0 <= i < n && IsFirstLeader(vs, n, i)
  {
    if n == 1 {
      assert IsFirstLeader(vs, n, 0);
    } else {
      LeaderLeads(vs, n - 1);
      var i :| 0 <= i < n - 1 && IsFirstLeader(vs, n - 1, i);
      if multiset(vs)[vs[n - 1]] > multiset(vs)[vs[i]] {
        assert IsFirstLeader(vs, n, n - 1);
      } else {
        assert IsFirstLeader(vs, n, i);
      }
    }
  }

  /** Position i holds the leader of vs[..n]: nobody there is more frequent, and everybody
      before it is less frequent. */
  ghost predicate IsFirstLeader(vs: seq<Verdict>, n: nat, i: nat)
    requires 1 <= n <= |vs|
  {
    && i < n && vs[i] == Leader(vs, n)
    && (forall k | 0 <= k < n :: multiset(vs)[vs[k]] <= multiset(vs)[vs[i]])
    && (forall k | 0 <= k < i :: multiset(vs)[vs[k]] < multiset(vs)[vs[i]])
  }

  predicate MaximalCount(vs: seq<Verdict>, v: Verdict) {
    v in vs && forall w: Verdict :: multiset(vs)[w] <= multiset(vs)[v]
  }

  /** The majority verdict was given by a judge and no verdict was given more often. */
  lemma MajorityIsMaximal(vs: seq<Verdict>)
    requires vs != []
    ensures MaximalCount(vs, Majority(vs))
  {
    LeaderLeads(vs, |vs|);
    var i :| 0 <= i < |vs| && IsFirstLeader(vs, |vs|, i);
    forall w: Verdict ensures multiset(vs)[w] <= multiset(vs)[vs[i]] {
      if w in vs {
        var k :| 0 <= k < |vs| && vs[k] == w;
      } else {
        assert w !in multiset(vs);
      }
    }
  }

  // ------------------------------------------------------------- permutations

  lemma {:induction false} SumOfMultiset(xs: seq<int>, ys: seq<int>)
    requires multiset(xs) == multiset(ys)
    ensures Sum(xs) == Sum(ys)
    decreases |xs|
  {
    if xs == [] {
      assert |multiset(ys)| == 0;
    } else {
      var n := |xs| - 1;
      var x := xs[n];
      assert xs == xs[..n] + [x];
      assert x in multiset(ys);
      var k :| 0 <= k < |ys| && ys[k] == x;
      var zs := ys[..k] + ys[k + 1..];
      assert ys == ys[..k] + [x] + ys[k + 1..];
      assert multiset(xs[..n]) == multiset(xs) - multiset{x};
      assert multiset(zs) == multiset(ys) - multiset{x};
      SumOfMultiset(xs[..n], zs);
      SumWithout(ys, k);
    }
  }

  lemma {:induction false} SumWithout(ys: seq<int>, k: nat)
    requires k < |ys|
    ensures Sum(ys) == Sum(ys[..k] + ys[k + 1..]) + ys[k]
  {
    var n := |ys| - 1;
    if k < n {
      SumWithout(ys[..n], k);
      assert ys[..n][..k] + ys[..n][k + 1..] == (ys[..k] + ys[k + 1..])[..n - 1];
      assert (ys[..k] + ys[k + 1..])[n - 1] == ys[n];
    } else {
      assert ys[..k] + ys[k + 1..] == ys[..n];
    }
  }

  lemma SameElements(xs: seq<int>, ys: seq<int>)
    requires multiset(xs) == multiset(ys)
    ensures forall x :: x in xs <==> x in ys
    ensures |xs| == |ys|
  {
    assert |multiset(xs)| == |xs| && |multiset(ys)| == |ys|;
    forall x ensures x in xs <==> x in ys {
      assert x in xs <==> x in multiset(xs);
      assert x in ys <==> x in multiset(ys);
    }
  }

  /** Mean and spread, and with them the status, do not depend on the order of the scores. */
  lemma OrderDoesNotMatter(xs: seq<int>, ys: seq<int>)
    requires xs != [] && multiset(xs) == multiset(ys)
    ensures ys != [] && Mean(xs) == Mean(ys) && Spread(xs) == Spread(ys)
  {
    SameElements(xs, ys);
    SumOfMultiset(xs, ys);
    assert Max(xs) in ys && Max(ys) in xs && Min(xs) in ys && Min(ys) in xs;
  }

  /** The mode is unique: one verdict was given more often than every other. */
  predicate UniqueMode(vs: seq<Verdict>) {
    exists v: Verdict :: v in vs && forall w: Verdict | w != v :: multiset(vs)[w] < multiset(vs)[v]
  }

  /** The majority verdict is the same for every order of the verdicts exactly when the mode is
      unique: a tie is decided by which card comes first. */
  lemma VerdictIgnoresOrderIffModeUnique(vs: seq<Verdict>)
    requires vs != []
    ensures (forall ws | multiset(ws) == multiset(vs) :: ws != [] && Majority(ws) == Majority(vs)) <==> UniqueMode(vs)
  {
    MajorityIsMaximal(vs);
    if UniqueMode(vs) {
      forall ws | multiset(ws) == multiset(vs) ensures ws != [] && Majority(ws) == Majority(vs) {
        assert |multiset(ws)| == |ws| && |multiset(vs)| == |vs|;
        MajorityIsMaximal(ws);
      }
    } else {
      TieDependsOnOrder(vs);
    }
  }

  lemma TieDependsOnOrder(vs: seq<Verdict>)
    requires vs != [] && !UniqueMode(vs)
    ensures exists ws :: multiset(ws) == multiset(vs) && ws != [] && Majority(ws) != Majority(vs)
  {
    MajorityIsMaximal(vs);
    var v := Majority(vs);
    var w: Verdict :| w != v && multiset(vs)[w] >= multiset(vs)[v];
    hide Majority, Leader;
    var ws := MovedToFront(vs, w);
    FirstOfTheMostFrequent(ws);
  }

  lemma MovedToFront(vs: seq<Verdict>, w: Verdict) returns (ws: seq<Verdict>)
    requires multiset(vs)[w] > 0
    ensures ws != [] && ws[0] == w && multiset(ws) == multiset(vs)
  {
    assert w in vs;
    var k :| 0 <= k < |vs| && vs[k] == w;
    ws := [w] + vs[..k] + vs[k + 1..];
    assert vs == vs[..k] + [w] + vs[k + 1..];
  }

  /** If the first verdict is among the most frequent, it is the majority verdict. */
  lemma FirstOfTheMostFrequent(ws: seq<Verdict>)
    requires ws != [] && forall w: Verdict :: multiset(ws)[w] <= multiset(ws)[ws[0]]
    ensures Majority(ws) == ws[0]
  {
    LeaderLeads(ws, |ws|);
    var i :| 0 <= i < |ws| && IsFirstLeader(ws, |ws|, i);
    assert multiset(ws)[ws[i]] <= multiset(ws)[ws[0]];
  }

  // --------------------------------------------------------------------- runs

  ghost predicate DistinctJudges(s: Session) {
    && (forall i | 0 <= i < |s.cards| :: s.cards[i].judge != s.author)
    && (forall i, j | 0 <= i < j < |s.cards| :: s.cards[i].judge != s.cards[j].judge)
  }

  /** What the status says about the cards that count. */
  ghost predicate StatusFits(s: Session, valid: seq<Card>) {
    match s.status
    case PendingReview => valid == [] && s.finalVerdict == None && s.aggregate == None
    case InDeliberation => |valid| < s.required && s.finalVerdict == None && s.aggregate == None
    case ConsensusReached =>
      && |valid| == s.required > 0 && Spread(Scores(valid)) <= TOLERATED_SPREAD
      && s.aggregate == Some(Mean(Scores(valid))) && s.finalVerdict == Some(Majority(Verdicts(valid)))
    case EscalatedToOwner =>
      && |valid| >= s.required > 0 && Spread(Scores(valid)) > TOLERATED_SPREAD
      && s.aggregate == Some(Mean(Scores(valid))) && s.finalVerdict == None
    case Closed => false
  }

  ghost predicate Inv(s: Session) {
    1 <= s.required && DistinctJudges(s) && StatusFits(s, Valid(s.cards))
  }

  /** One submission, whatever the agent table says at that moment. */
  ghost predicate Next(s: Session, s': Session) {
    exists call: Submission :: s' == After(s, call)
  }

  ghost predicate IsRun(run: seq<Session>) {
    && run != [] && 1 <= run[0].required && run[0] == Opened(run[0].author, run[0].required)
    && forall i | 0 <= i < |run| - 1 :: Next(run[i], run[i + 1])
  }

  lemma ValidGrows(cards: seq<Card>, card: Card)
    ensures Valid(cards + [card]) == Valid(cards) + if card.conflict then [] else [card]
  {
    assert (cards + [card])[..|cards|] == cards;
  }

  lemma SpreadGrows(xs: seq<int>, x: int)
    requires xs != []
    ensures Spread(xs + [x]) >= Spread(xs)
  {
    assert Max(xs) in xs + [x] && Min(xs) in xs + [x];
  }

  lemma ScoresOf(cards: seq<Card>, card: Card)
    ensures Scores(cards + [card]) == Scores(cards) + [card.score]
  {
  }

  lemma JudgesStayDistinct(s: Session, card: Card, judgeRow: Option<Agent>, authorRow: Option<Agent>)
    requires DistinctJudges(s) && Objection(s, card.judge, judgeRow, authorRow).None?
    ensures DistinctJudges(s.(cards := s.cards + [card]))
  {
  }

  /** The evaluation after one more card: a session that was not closed gets the status its
      cards call for, and an escalated one stays escalated because the spread has not shrunk. */
  lemma EvaluationFits(s: Session, s': Session, now: int)
    requires 1 <= s.required && s.status != ConsensusReached
    requires StatusFits(s, Valid(s.cards))
    requires s' == Evaluated(s.(cards := s'.cards), now)
    requires Valid(s'.cards) == Valid(s.cards) || exists card: Card :: Valid(s'.cards) == Valid(s.cards) + [card]
    ensures StatusFits(s', Valid(s'.cards))
    ensures s.status == EscalatedToOwner ==> s'.status == EscalatedToOwner
  {
    hide Valid, Majority, Mean, Spread, Scores, Verdicts;
    var valid, valid' := Valid(s.cards), Valid(s'.cards);
    if valid' != valid {
      var card: Card :| valid' == valid + [card];
      SpreadOfCardsGrows(valid, card);
    }
  }

  lemma SpreadOfCardsGrows(cards: seq<Card>, card: Card)
    ensures cards != [] ==> Spread(Scores(cards + [card])) >= Spread(Scores(cards))
  {
    ScoresOf(cards, card);
    if cards != [] {
      SpreadGrows(Scores(cards), card.score);
    }
  }

  lemma SubmissionKeepsInv(s: Session, card: Card, judgeRow: Option<Agent>, authorRow: Option<Agent>, now: int)
    requires Inv(s) && Objection(s, card.judge, judgeRow, authorRow).None?
    ensures Inv(Evaluated(s.(cards := s.cards + [card]), now))
    ensures s.status == EscalatedToOwner ==> Evaluated(s.(cards := s.cards + [card]), now).status == EscalatedToOwner
  {
    hide Valid, Majority, Mean, Spread, Scores, Verdicts, StatusFits;
    ValidGrows(s.cards, card);
    JudgesStayDistinct(s, card, judgeRow, authorRow);
    EvaluationFits(s, Evaluated(s.(cards := s.cards + [card]), now), now);
  }

  /** One step: the invariant is kept, an escalated session stays escalated, and a session
      with consensus is left exactly as it is. */
  lemma NextKeepsInv(s: Session, s': Session)
    requires Inv(s) && Next(s, s')
    ensures Inv(s')
    ensures s.status == EscalatedToOwner ==> s'.status == EscalatedToOwner
    ensures s.status == ConsensusReached ==> s' == s
  {
    var call: Submission :| s' == After(s, call);
    var card := call.card;
    hide Inv, Evaluated;
    if Objection(s, card.judge, call.judgeRow, call.authorRow).None? {
      SubmissionKeepsInv(s, card, call.judgeRow, call.authorRow, call.now);
    }
    assert s.status == ConsensusReached ==> Objection(s, card.judge, call.judgeRow, call.authorRow).Some?;
  }

  lemma {:induction false} RunKeepsInv(run: seq<Session>, i: nat)
    requires IsRun(run) && i < |run|
    ensures Inv(run[i])
  {
    if i > 0 {
      RunKeepsInv(run, i - 1);
      NextKeepsInv(run[i - 1], run[i]);
    }
  }

  lemma EscalatedHasNoVerdict(s: Session)
    requires Inv(s)
    ensures s.status == EscalatedToOwner ==> s.finalVerdict == None
  {
  }

  /** A session once escalated stays escalated: it never goes back to deliberation and never
      reaches consensus, because neither the spread nor the number of valid cards can shrink. */
  lemma {:induction false} EscalationIsAbsorbing(run: seq<Session>, i: nat, j: nat)
    requires IsRun(run) && i <= j < |run| && run[i].status == EscalatedToOwner
    ensures run[j].status == EscalatedToOwner && run[j].finalVerdict == None
  {
    hide *;
    RunKeepsInv(run, j);
    EscalatedHasNoVerdict(run[j]);
    if i < j {
      EscalationIsAbsorbing(run, i, j - 1);
      RunStep(run, j - 1);
    }
  }

  lemma RunStep(run: seq<Session>, j: nat)
    requires IsRun(run) && j + 1 < |run|
    ensures run[j].status == EscalatedToOwner ==> run[j + 1].status == EscalatedToOwner
    ensures run[j].status == ConsensusReached ==> run[j + 1] == run[j]
  {
    RunKeepsInv(run, j);
    assert Next(run[j], run[j + 1]);
    hide *;
    NextKeepsInv(run[j], run[j + 1]);
  }

  /** A session with consensus never changes again. */
  lemma {:induction false} ConsensusIsFinal(run: seq<Session>, i: nat, j: nat)
    requires IsRun(run) && i <= j < |run| && run[i].status == ConsensusReached
    ensures run[j] == run[i]
  {
    hide *;
    if i < j {
      ConsensusIsFinal(run, i, j - 1);
      RunStep(run, j - 1);
    }
  }

  lemma {:induction false} ValidIsSubsequence(cards: seq<Card>) returns (at: seq<nat>)
    ensures |at| == |Valid(cards)|
    ensures forall k | 0 <= k < |at| :: at[k] < |cards| && cards[at[k]] == Valid(cards)[k] && !cards[at[k]].conflict
    ensures forall k, l | 0 <= k < l < |at| :: at[k] < at[l]
  {
    if cards == [] {
      at := [];
    } else {
      at := ValidIsSubsequence(cards[..|cards| - 1]);
      if !cards[|cards| - 1].conflict {
        at := at + [|cards| - 1];
      }
    }
  }

  /** Consensus is a consensus: exactly the required number of cards without declared conflict,
      from that many different judges, none of them the author; every score within 25 points of
      every other and of the recorded aggregate; and a final verdict given most often. */
  lemma ConsensusIsSound(run: seq<Session>, i: nat)
    requires IsRun(run) && i < |run| && run[i].status == ConsensusReached
    ensures var s := run[i]; var valid := Valid(s.cards);
      && |valid| == s.required && s.aggregate.Some? && s.finalVerdict.Some?
      && (forall k | 0 <= k < |valid| :: valid[k] in s.cards && !valid[k].conflict && valid[k].judge != s.author)
      && (forall k, l | 0 <= k < l < |valid| :: valid[k].judge != valid[l].judge)
      && (forall k, l | 0 <= k < |valid| && 0 <= l < |valid| :: valid[k].score - valid[l].score <= TOLERATED_SPREAD)
      && (forall k | 0 <= k < |valid| :: -TOLERATED_SPREAD <= valid[k].score - s.aggregate.value <= TOLERATED_SPREAD)
      && MaximalCount(Verdicts(valid), s.finalVerdict.value)
  {
    RunKeepsInv(run, i);
    var s := run[i];
    var valid := Valid(s.cards);
    var at := ValidIsSubsequence(s.cards);
    var scores := Scores(valid);
    forall k, l | 0 <= k < |valid| && 0 <= l < |valid|
      ensures valid[k].score - valid[l].score <= TOLERATED_SPREAD
      ensures -TOLERATED_SPREAD <= valid[k].score - s.aggregate.value <= TOLERATED_SPREAD
    {
      ScoresAreClose(scores, k, l);
      assert scores[k] == valid[k].score && scores[l] == valid[l].score;
    }
    MajorityIsMaximal(Verdicts(valid));
  }

  // ----------------------------------------------------- how a card got in

  /** What the agent table said when the card was admitted: an active judge who is not the author
      and not in the author's department. */
  predicate WasAdmitted(s: Session, call: Submission) {
    && call.card.judge != s.author
    && call.judgeRow.Some? && call.judgeRow.value.active
    && (call.authorRow.Some? && call.authorRow.value.department.Some? ==>
          call.judgeRow.value.department != call.authorRow.value.department)
  }

  /** The card at position k was added by step j of the run, and any call that explains that step
      was a submission of this card that passed every conflict check. */
  ghost predicate AdmittedAt(run: seq<Session>, j: nat, k: nat, card: Card) {
    && j + 1 < |run| && |run[j].cards| == k && run[j + 1].cards == run[j].cards + [card]
    && (exists call :: run[j + 1] == After(run[j], call))
    && forall call | run[j + 1] == After(run[j], call) :: call.card == card && WasAdmitted(run[j], call)
  }

  lemma NextAdmits(s: Session, call: Submission)
    ensures var s' := After(s, call);
      s'.cards == s.cards || (s'.cards == s.cards + [call.card] && WasAdmitted(s, call))
  {
    hide Valid, Mean, Spread, Scores, Verdicts, Majority;
  }

  lemma AddedCardWasAdmitted(run: seq<Session>, j: nat)
    requires IsRun(run) && j + 1 < |run| && run[j + 1].cards != run[j].cards
    ensures exists card :: AdmittedAt(run, j, |run[j].cards|, card)
  {
    assert Next(run[j], run[j + 1]);
    var call :| run[j + 1] == After(run[j], call);
    hide IsRun, Next, After;
    NextAdmits(run[j], call);
    forall c | run[j + 1] == After(run[j], c) ensures c.card == call.card && WasAdmitted(run[j], c) {
      NextAdmits(run[j], c);
      assert (run[j].cards + [c.card])[|run[j].cards|] == c.card;
      assert (run[j].cards + [call.card])[|run[j].cards|] == call.card;
    }
    assert AdmittedAt(run, j, |run[j].cards|, call.card);
  }

  /** Every card of a session, and so every card that counts, was admitted at one step of the run
      by an active judge outside the author's department, as the agent table stood then. */
  lemma {:induction false} CardsWereAdmitted(run: seq<Session>, i: nat, k: nat) returns (j: nat)
    requires IsRun(run) && i < |run| && k < |run[i].cards|
    ensures j < i && AdmittedAt(run, j, k, run[i].cards[k])
  {
    if i == 0 {
      assert false;
    } else if run[i - 1 + 1].cards == run[i - 1].cards {
      j := CardsWereAdmitted(run, i - 1, k);
    } else {
      AddedCardWasAdmitted(run, i - 1);
      hide IsRun;
      var card :| AdmittedAt(run, i - 1, |run[i - 1].cards|, card);
      if k < |run[i - 1].cards| {
        j := CardsWereAdmitted(run, i - 1, k);
      } else {
        j := i - 1;
      }
    }
  }

  // ---------------------------------------------------- the order of the cards

  lemma {:induction false} ValidMultiset(cards: seq<Card>, c: Card)
    ensures multiset(Valid(cards))[c] == if c.conflict then 0 else multiset(cards)[c]
  {
    if cards != [] {
      assert cards == cards[..|cards| - 1] + [cards[|cards| - 1]];
      ValidMultiset(cards[..|cards| - 1], c);
    }
  }

  lemma FieldsWithout(front: seq<Card>, c: Card, back: seq<Card>)
    ensures multiset(Scores(front + [c] + back)) == multiset(Scores(front + back)) + multiset{c.score}
    ensures multiset(Verdicts(front + [c] + back)) == multiset(Verdicts(front + back)) + multiset{c.verdict}
  {
    assert Scores(front + [c] + back) == Scores(front) + [c.score] + Scores(back);
    assert Scores(front + back) == Scores(front) + Scores(back);
    assert Verdicts(front + [c] + back) == Verdicts(front) + [c.verdict] + Verdicts(back);
    assert Verdicts(front + back) == Verdicts(front) + Verdicts(back);
  }

  lemma Around(ds: seq<Card>, c: Card) returns (front: seq<Card>, back: seq<Card>)
    requires multiset(ds)[c] > 0
    ensures ds == front + [c] + back
    ensures multiset(front + back) == multiset(ds) - multiset{c}
  {
    assert c in ds;
    var k :| 0 <= k < |ds| && ds[k] == c;
    front, back := ds[..k], ds[k + 1..];
    assert ds == front + [c] + back;
  }

  lemma {:induction false} FieldsPermute(cs: seq<Card>, ds: seq<Card>)
    requires multiset(cs) == multiset(ds)
    ensures multiset(Scores(cs)) == multiset(Scores(ds))
    ensures multiset(Verdicts(cs)) == multiset(Verdicts(ds))
    decreases |cs|
  {
    hide Scores, Verdicts;
    if cs == [] {
      assert |multiset(ds)| == 0;
      assert ds == [];
    } else {
      var c := cs[0];
      var before, after := Around(cs, c);
      var front, back := Around(ds, c);
      assert |before + after| < |cs|;
      FieldsPermute(before + after, front + back);
      FieldsWithout(before, c, after);
      FieldsWithout(front, c, back);
    }
  }

  lemma ValidPermutes(cards: seq<Card>, others: seq<Card>)
    requires multiset(cards) == multiset(others)
    ensures multiset(Valid(cards)) == multiset(Valid(others)) && |Valid(cards)| == |Valid(others)|
  {
    var cs, ds := Valid(cards), Valid(others);
    forall c: Card ensures multiset(cs)[c] == multiset(ds)[c] {
      ValidMultiset(cards, c);
      ValidMultiset(others, c);
    }
    assert multiset(cs) == multiset(ds);
    assert |cs| == |multiset(cs)| == |multiset(ds)| == |ds|;
  }

  lemma MeasuresPermute(cs: seq<Card>, ds: seq<Card>)
    requires cs != [] && ds != [] && multiset(cs) == multiset(ds)
    ensures Mean(Scores(cs)) == Mean(Scores(ds)) && Spread(Scores(cs)) == Spread(Scores(ds))
    ensures UniqueMode(Verdicts(cs)) ==> Majority(Verdicts(cs)) == Majority(Verdicts(ds))
  {
    FieldsPermute(cs, ds);
    OrderDoesNotMatter(Scores(cs), Scores(ds));
    VerdictIgnoresOrderIffModeUnique(Verdicts(cs));
    hide UniqueMode, Majority;
  }

  /** The same cards in another order give the same status and aggregate, and the same final
      verdict when one verdict was given more often than every other. */
  lemma EvaluationIgnoresOrder(s: Session, t: Session, now: int)
    requires t == s.(cards := t.cards) && multiset(s.cards) == multiset(t.cards)
    ensures var e, f := Evaluated(s, now), Evaluated(t, now);
      && e.status == f.status && e.aggregate == f.aggregate && e.closedAt == f.closedAt
      && (UniqueMode(Verdicts(Valid(s.cards))) ==> e.finalVerdict == f.finalVerdict)
  {
    hide Valid, Majority, Mean, Spread, Scores, Verdicts, UniqueMode;
    ValidPermutes(s.cards, t.cards);
    if Valid(s.cards) != [] {
      MeasuresPermute(Valid(s.cards), Valid(t.cards));
    }
  }
}
