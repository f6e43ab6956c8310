/** How often an interview can be moved on from one question, counting both ways to do it: an answered turn and a
    completed coding round. */
module Advances {
  import opened Domain
  import opened Execution
  import opened Invariant
  import opened Runs
  import opened Interleavings
  import opened StaleReads

  /** `ev` moves the interview on from question `q`. */
  predicate MovesOn(db: Db, ev: Event, q: nat) { IsTurn(ev) && ev.question == q && Committed(Apply(db, ev).1) }

  function AdvancesFrom(db: Db, events: seq<Event>, q: nat): nat {
    if events == [] then 0
    else
      var before := events[..|events| - 1];
      AdvancesFrom(db, before, q) + (if MovesOn(Run(db, before), events[|events| - 1], q) then 1 else 0)
  }

  /** An advance with committed reads takes the pointer off an asked question. */
  lemma {:induction false} AdvanceLeaves(db: Db, ev: Event, q: nat)
    requires Unique(db) && Fresh(ev) && MovesOn(db, ev, q)
    ensures db.session.currentQuestion == Some(q) && q < |db.questions|
    ensures Apply(db, ev).0.session.currentQuestion != Some(q)
  {
    hide FinishTurn, CompleteCodingRound;
    TurnMovesPointer(db, ev);
    PointerIsNewest(db);
  }

  /** With committed reads, every question is moved on from at most once, and then it is not the open one. */
  lemma {:induction false} AtMostOneAdvance(db: Db, events: seq<Event>, q: nat)
    requires Unique(db) && AllFresh(events)
    ensures AdvancesFrom(db, events, q) <= 1
    ensures AdvancesFrom(db, events, q) == 1 ==>
              q < |Run(db, events).questions| && Run(db, events).session.currentQuestion != Some(q)
  {
    hide Apply, MovesOn, Unique, Grows;
    if events != [] {
      var (before, last) := (events[..|events| - 1], events[|events| - 1]);
      var middle := Run(db, before);
      AtMostOneAdvance(db, before, q);
      RunIsSafe(db, before);
      StepIsSafe(middle, last);
      GrowsAtLeast(middle, Run(db, events));
      if MovesOn(middle, last, q) {
        AdvanceLeaves(middle, last, q);
      } else if AdvancesFrom(db, before, q) == 1 {
        StaysAway(middle, last, q);
      }
    }
  }

  lemma {:induction false} StaysAway(db: Db, ev: Event, q: nat)
    requires Unique(db) && q < |db.questions| && db.session.currentQuestion != Some(q)
    ensures Apply(db, ev).0.session.currentQuestion != Some(q)
  {
    hide Apply, Unique;
    PointerNeverReturns(db, [ev], q);
    assert [ev][..0] == [] && Run(db, [ev]) == Apply(Run(db, []), ev).0;
  }

  /** A question that is not a coding task is moved on from at most once, whatever any read returns, and then its
      answer is evaluated. */
  lemma {:induction false} AtMostOneAdvanceOfTextQuestion(db: Db, events: seq<Event>, q: nat)
    requires Unique(db)
    requires q < |Run(db, events).questions| ==> Run(db, events).questions[q].questionType != CodingTask
    ensures AdvancesFrom(db, events, q) <= 1
    ensures AdvancesFrom(db, events, q) == 1 ==> Evaluated(Run(db, events), q)
  {
    hide Apply, Unique, Evaluated;
    AtMostOneTextTurn(db, events, q);
    TextAdvancesAreTurns(db, events, q);
  }

  lemma {:induction false} TextAdvancesAreTurns(db: Db, events: seq<Event>, q: nat)
    requires Unique(db)
    requires q < |Run(db, events).questions| ==> Run(db, events).questions[q].questionType != CodingTask
    ensures AdvancesFrom(db, events, q) == TextTurnsAbout(db, events, q)
  {
    hide FinishTurn, CompleteCodingRound, StartInterview, Unique;
    if events != [] {
      var (before, last) := (events[..|events| - 1], events[|events| - 1]);
      RunIsSafe(db, before);
      StepIsSafe(Run(db, before), last);
      TextAdvancesAreTurns(db, before, q);
    }
  }

  // --- A second advance -----------------------------------------------------------------------

  /** `before` is when a late request read its rows; meanwhile the interview may have been moved on from question `q`
      once. The answered turn still commits, for some answer of the model, exactly when the question's answer row is
      stored and not evaluated; the grading job of a coding question always can, because nothing stored stops it. */
  lemma {:induction false} SecondAdvanceExactlyWhen(before: Db, events: seq<Event>, q: nat)
    requires Inv(before) && AllFresh(events)
    requires before.session.status == InProgress && before.session.currentQuestion == Some(q)
    ensures var now := Run(before, events);
      (exists env :: Committed(Apply(now, FinishEvent(q, Some(before.session), env)).1))
      <==> (AnswerOf(now.answers, q).Some? && !Evaluated(now, q))
    ensures var now := Run(before, events);
      (exists env :: Committed(Apply(now, CodingDoneEvent(q, Some(CurrentRead(before, q)), env)).1))
      <==> before.questions[q].questionType == CodingTask
  {
    hide FinishTurn, CompleteCodingRound, Run, Threaded, RowsAgree, EarlierAnswered, DifficultyFolds, RoundsFit, Plain,
         CurrentRead;
    var now := Run(before, events);
    InvImpliesUnique(before);
    EveryRunKeepsInvariant(before, events);
    RunIsSafe(before, events);
    QuestionKept(before, now, q);
    assert now.questions[q] == before.questions[q];
    ReadsActive(before, q);
    PlainCodingCommits(now, CurrentRead(before, q), q);
    var late := CodingDoneEvent(q, Some(CurrentRead(before, q)), Plain());
    assert before.questions[q].questionType == CodingTask ==> Committed(Apply(now, late).1);
    var turn := FinishEvent(q, Some(before.session), Plain());
    if AnswerOf(now.answers, q).Some? && !Evaluated(now, q) {
      PlainTurnCommits(now, before.session, q);
      assert Committed(Apply(now, turn).1);
    }
  }

  /** Only a coding question can be moved on from without being evaluated: its round was completed. */
  lemma {:induction false} UnevaluatedAdvanceIsCoding(before: Db, events: seq<Event>, q: nat)
    requires Inv(before) && AllFresh(events) && AdvancesFrom(before, events, q) == 1
    ensures var now := Run(before, events);
      q < |now.questions| && (Evaluated(now, q) || now.questions[q].questionType == CodingTask)
  {
    hide Run, AdvancesFrom, Inv, Unique, Evaluated;
    InvImpliesUnique(before);
    AtMostOneAdvance(before, events, q);
    if Run(before, events).questions[q].questionType != CodingTask {
      AtMostOneAdvanceOfTextQuestion(before, events, q);
    }
  }
}
