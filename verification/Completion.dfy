/** No interview gets stuck: from every state a run can reach there is a way to its end. */
module Completion {
  import opened Domain
  import opened TurnGraph
  import opened Execution
  import opened Invariant
  import opened Steps
  import opened Runs
  import opened StaleReads
  import opened Termination
  import opened Decisions

  /** The open question of a running interview has an answer row, or phase one can add one. */
  lemma {:induction false} CanAnswer(db: Db) returns (events: seq<Event>, after: Db)
    requires Inv(db) && db.session.status == InProgress
    ensures AllFresh(events) && after == Run(db, events) && Inv(after) && TurnsLeft(after) <= TurnsLeft(db)
    ensures after.session == db.session && after.questions == db.questions
    ensures AnswerOf(after.answers, |db.questions| - 1).Some?
  {
    hide Inv, Apply, TurnsLeft, EvaluationOf;
    var q: nat := OpenQuestionIsNewest(db);
    if AnswerOf(db.answers, q).Some? {
      events, after := [], db;
    } else {
      var ev := SaveEvent(q, "an answer", false);
      events, after := [ev], Apply(db, ev).0;
      assert [ev] == [] + [ev];
      RunThen(db, [], ev);
      StepKeepsInvariant(db, ev);
      OtherEventsKeepTurnsLeft(db, ev);
      AnswerAdded(db, q);
    }
  }

  lemma {:induction false} OpenQuestionIsNewest(db: Db) returns (q: nat)
    requires Inv(db) && db.session.status == InProgress
    ensures db.questions != [] && q == |db.questions| - 1 && db.session.currentQuestion == Some(q)
    ensures db.session.currentRound == db.questions[q].round + 1
  {
    q := |db.questions| - 1;
  }

  lemma {:induction false} AnswerAdded(db: Db, q: nat)
    requires q < |db.questions| && db.session.status == InProgress && db.session.currentQuestion == Some(q)
    requires AnswerOf(db.answers, q).None?
    ensures Apply(db, SaveEvent(q, "an answer", false)).0 == db.(answers := db.answers + [Answer(q, Some("an answer"))])
    ensures AnswerOf(db.answers + [Answer(q, Some("an answer"))], q).Some?
  {}

  /** One turn that commits: it ends the interview or leaves fewer possible turns. */
  lemma {:induction false} CanTakeTurn(db: Db) returns (events: seq<Event>, after: Db)
    requires Inv(db) && db.session.status == InProgress
    ensures AllFresh(events) && after == Run(db, events) && Inv(after)
    ensures after.session.status == Finished || (after.session.status == InProgress && TurnsLeft(after) < TurnsLeft(db))
  {
    hide Inv, Apply, TurnsLeft, Run, FinishTurn, RowsFollow, Called, Plain;
    var q: nat := OpenQuestionIsNewest(db);
    var first, ready := CanAnswer(db);
    var ev := FinishEvent(q, None, Plain());
    TurnCommits(ready, q);
    StepKeepsInvariant(ready, ev);
    TurnLowersMeasure(ready, ev);
    StatusAfterTurn(ready, q, Plain());
    RunThen(db, first, ev);
    events, after := first + [ev], Apply(ready, ev).0;
  }

  lemma {:induction false} TurnCommits(db: Db, q: nat)
    requires Inv(db) && db.session.status == InProgress && q == |db.questions| - 1 && AnswerOf(db.answers, q).Some?
    ensures Committed(Apply(db, FinishEvent(q, None, Plain())).1)
    ensures Apply(db, FinishEvent(q, None, Plain())) == FinishTurn(db, db.session, q, Plain())
  {
    hide FinishTurn, Threaded, RowsAgree, EarlierAnswered, DifficultyFolds, RoundsFit, Plain;
    var newest := OpenQuestionIsNewest(db);
    NewestIsUnevaluated(db, q);
    PlainTurnCommits(db, db.session, q);
  }

  lemma {:induction false} StatusAfterTurn(db: Db, q: nat, env: Env)
    requires Inv(db) && Committed(FinishTurn(db, db.session, q, env).1)
    ensures FinishTurn(db, db.session, q, env).0.session.status in {InProgress, Finished}
  {
    hide Inv, FinishTurn, Called;
    TurnDecidedByRows(db, q, env);
  }

  /** Whatever has happened to a running interview, some further calls complete it. */
  lemma {:induction false} CanAlwaysFinish(db: Db) returns (events: seq<Event>)
    requires Inv(db) && db.session.status == InProgress
    ensures AllFresh(events) && Run(db, events).session.status == Finished
    decreases TurnsLeft(db)
  {
    hide Inv, Run, TurnsLeft;
    TurnsLeftIsNatural(db);
    var first, after := CanTakeTurn(db);
    if after.session.status == Finished {
      events := first;
    } else {
      TurnsLeftIsNatural(after);
      var rest := CanAlwaysFinish(after);
      RunConcat(db, first, rest);
      events := first + rest;
    }
  }

  /** Every numbered plan can be started and completed. */
  lemma {:induction false} EveryPlanCanBeCompleted(plan: Db) returns (events: seq<Event>)
    requires NewPlan(plan)
    ensures AllFresh(events) && Run(plan, events).session.status == Finished
  {
    hide Inv, Run, StartInterview, Plain;
    var ev := StartEvent(Plain());
    NewPlanSatisfiesInvariant(plan);
    StepKeepsInvariant(plan, ev);
    PlainStarts(plan);
    var started := Apply(plan, ev).0;
    var rest := CanAlwaysFinish(started);
    RunThen(plan, [], ev);
    NoEvents(plan);
    assert [] + [ev] == [ev];
    RunConcat(plan, [ev], rest);
    events := [ev] + rest;
  }

  lemma {:induction false} PlainStarts(plan: Db)
    requires NewPlan(plan)
    ensures StartInterview(plan, Plain()).0.session.status == InProgress
  {
    hide Plain, OpenQuestion;
    RoundNumber(plan.rounds, 1);
    assert FirstSequence(plan.rounds) == 1 by { assert plan.rounds[0].sequenceNo == 1; }
    PlainOpens(StartInput(plan));
    PlainIsStorable();
    OpenQuestionShape(StartInput(plan), Plain());
  }
}
