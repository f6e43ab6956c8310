/** Phase two re-reads the session row under a lock, but the row object loaded in phase one may be returned
    with its old column values. This module says exactly when that makes a difference. */
module StaleReads {
  import opened Domain
  import opened Policy
  import opened TurnGraph
  import opened Execution
  import opened Rounding
  import opened Invariant
  import opened Steps
  import opened Runs
  import opened Interleavings
  import FollowUps

  // --- The session row while a question stays open ---------------------------------------------

  lemma {:induction false} TailMovesPointer(db: Db, view: Session, r: nat, s: TurnState, env: Env)
    requires r < |db.rounds| && ApplyTransition(db, view, r, s, env).Success? && view.currentQuestion.Some?
    ensures ApplyTransition(db, view, r, s, env).value.0.session.currentQuestion in {None, Some(|db.questions|)}
  {}

  lemma {:induction false} TurnMovesPointer(db: Db, ev: Event)
    requires Fresh(ev) && IsTurn(ev) && Committed(Apply(db, ev).1)
    ensures Apply(db, ev).0.session.currentQuestion in {None, Some(|db.questions|)}
  {
    hide RunGraph, ApplyTransition;
    match ev
    case FinishEvent(q, reread, env) =>
      var r, s, pending := TurnIsTail(db, db.session, q, env);
      TailMovesPointer(pending, db.session, r, s, env);
    case CodingDoneEvent(q, reread, env) =>
      var r := db.questions[q].round;
      TailMovesPointer(db, db.session, r, RunGraph(InitialState(db, CodingRoundComplete, r, db.session.currentDifficulty), env).value, env);
  }

  /** As long as the interview runs and the pointer stays where it is, no column of the session row changes. */
  lemma {:induction false} SessionFrozen(db: Db, events: seq<Event>, q: nat)
    requires Unique(db) && AllFresh(events)
    requires db.session.status == InProgress && db.session.currentQuestion == Some(q)
    ensures var after := Run(db, events);
      after.session == db.session || Terminal(after) || after.session.currentQuestion != Some(q)
  {
    hide FinishTurn, CompleteCodingRound, Unique, Grows;
    if events != [] {
      var before := events[..|events| - 1];
      var last := events[|events| - 1];
      var middle := Run(db, before);
      SessionFrozen(db, before, q);
      RunIsSafe(db, before);
      if middle.session == db.session {
        PointerIsNewest(middle);
        if IsTurn(last) && Committed(Apply(middle, last).1) {
          TurnMovesPointer(middle, last);
        }
      } else if Terminal(middle) {
        TerminalStatesAbsorb(middle, [last]);
        assert Run(middle, [last]) == Apply(Run(middle, [last][..0]), last).0;
      } else {
        PointerIsNewest(db);
        GrowsAtLeast(db, middle);
        PointerNeverReturns(middle, [last], q);
        assert Run(middle, [last]) == Apply(Run(middle, [last][..0]), last).0;
      }
    }
  }

  lemma {:induction false} PointerIsNewest(db: Db)
    requires Unique(db)
    ensures db.session.currentQuestion.Some? ==> db.session.currentQuestion.value < |db.questions|
  {}

  lemma {:induction false} GrowsAtLeast(db: Db, after: Db)
    requires Grows(db, after)
    ensures |db.questions| <= |after.questions|
  {}

  lemma {:induction false} InvImpliesUnique(db: Db)
    requires Inv(db)
    ensures Unique(db)
  {
    hide Threaded, RoundsFit, EarlierAnswered, DifficultyFolds;
    forall i: nat, j: nat | i < j < |db.evaluations|
      ensures db.evaluations[i].answer != db.evaluations[j].answer
    {
      assert EvaluatedQuestion(db.answers, db.evaluations, i) < EvaluatedQuestion(db.answers, db.evaluations, j);
    }
  }

  // --- A turn that certainly commits --------------------------------------------------------------

  function EveryLevel(): seq<Problem> { [Problem(0, Easy, []), Problem(1, Medium, []), Problem(2, Hard, [])] }

  /** Everything is up, the answer is middling and needs no follow-up, and the catalog covers every level. */
  function Plain(): Env { Env(true, Scores(50.0, 50.0, 50.0, 50.0), false, true, EveryLevel(), true) }

  lemma {:induction false} PlainAlwaysSelects(difficulty: DifficultyLevel, roleKey: Option<string>, used: set<nat>)
    ensures SelectCodingProblem(EveryLevel(), difficulty, roleKey, used).Some?
  {
    hide SelectCodingProblem;
    var i := SelectsTheLeast(EveryLevel(), difficulty, roleKey, used);
    assert EveryLevel()[Rank(difficulty)].difficulty == difficulty;
  }

  lemma {:induction false} PlainOpens(s: TurnState)
    ensures OpenQuestion(s, Plain()).Success?
  {
    hide SelectCodingProblem, EveryLevel;
    PlainAlwaysSelects(s.currentDifficulty, s.roleKey, s.codingProblemHistory);
  }

  /** A round that has opened has a root question, so a plain turn of a coding round leaves it. */
  lemma {:induction false} OpenedRoundHasRoot(db: Db, q: nat)
    requires Inv(db) && q < |db.questions|
    ensures db.questions[q].round < |db.rounds| && Roots(db.questions, db.questions[q].round) >= 1
  {
    hide RowsAgree, EarlierAnswered, DifficultyFolds, Roots;
    var r := db.questions[q].round;
    assert AskedInOrder(db.rounds, db.questions, q);
    RoundsAscend(db.rounds, db.questions, q, |db.questions| - 1);
    if Over(db) {
      assert RoundFits(db.rounds, db.questions, |db.rounds|, r);
    } else {
      assert RoundFits(db.rounds, db.questions, ActiveRound(db), r);
    }
  }

  lemma {:induction false} PlainTurnSucceeds(db: Db, view: Session, r: nat, q: nat)
    requires Numbered(db.rounds) && r < |db.rounds| && view.currentRound == r + 1 && q < |db.questions|
    requires Roots(db.questions, r) >= 1
    ensures var outcome := RunGraph(TurnInput(db, view, r, q), Plain());
      && outcome.Success? && outcome.value.evaluation.Some? && outcome.value.evaluation.value.0 == Plain().scores
      && (outcome.value.completed
          || (outcome.value.currentQuestion.Some? && 1 <= outcome.value.currentRoundIndex <= |db.rounds|
              && (outcome.value.currentQuestion.value.roundType == Coding ==> outcome.value.currentQuestion.value.problem.Some?)))
  {
    hide Roots, RoundHistory, ComputeInterviewScores, AddScores, UsedProblems, OpenQuestion, Numbered;
    assert db.rounds[r].sequenceNo == r + 1 by { NumberedAt(db.rounds, r); }
    RootsRecounted(db.questions, r, db.rounds[r].roundType);
    var decided := DecideNextAction(AdaptDifficulty(TurnInput(db, view, r, q), Plain()));
    if decided.nextAction == Some(NextRound) {
      var moved := RoundTransition(decided).value;
      PlainOpens(moved);
      OpenQuestionShape(moved, Plain());
    }
  }

  lemma {:induction false} NumberedAt(rounds: seq<Round>, r: nat)
    requires Numbered(rounds) && r < |rounds|
    ensures rounds[r].sequenceNo == r + 1
  {}

  lemma {:induction false} PlainIsStorable()
    ensures Storable(Plain().scores) && Plain().stillActive
  {
    assert HalfAway(5000.0) == 5000 by { assert (5000.5 as real).Floor == 5000; }
  }

  lemma {:induction false} PlainTurnCommits(db: Db, view: Session, q: nat)
    requires Inv(db) && q < |db.questions|
    requires view.status == InProgress && view.currentQuestion == Some(q) && view.currentRound == db.questions[q].round + 1
    requires AnswerOf(db.answers, q).Some? && !Evaluated(db, q)
    ensures Committed(FinishTurn(db, view, q, Plain()).1)
  {
    hide RunGraph, Threaded, RowsAgree, EarlierAnswered, DifficultyFolds, Standing, Over, Plain, Storable, Roots;
    var r := db.questions[q].round;
    OpenedRoundHasRoot(db, q);
    RoundNumber(db.rounds, r + 1);
    PlainTurnSucceeds(db, view, r, q);
    PlainIsStorable();
    var s := RunGraph(TurnInput(db, view, r, q), Plain()).value;
    RoundNumber(Mark(db.rounds, r, Completed), s.currentRoundIndex);
  }

  /** One question is added, in round `r`, and becomes the open one. */
  predicate AsksNext(db: Db, after: Db, r: nat) {
    && |after.questions| == |db.questions| + 1 && after.questions[..|db.questions|] == db.questions
    && after.questions[|db.questions|].round == r && after.session.currentQuestion == Some(|db.questions|)
  }

  lemma {:induction false} TailAsksNext(db: Db, view: Session, r: nat, s: TurnState, env: Env)
    requires Numbered(db.rounds) && r + 1 < |db.rounds| && ApplyTransition(db, view, r, s, env).Success?
    requires !s.completed && s.currentRoundIndex == r + 2
    ensures AsksNext(db, ApplyTransition(db, view, r, s, env).value.0, r + 1)
  {
    RoundNumber(Mark(db.rounds, r, Completed), r + 2);
  }

  lemma {:induction false} PlainTurnLeavesFullRound(db: Db, view: Session, r: nat, q: nat)
    requires Numbered(db.rounds) && r + 1 < |db.rounds| && view.currentRound == r + 1 && q < |db.questions|
    requires Roots(db.questions, r) >= Target(db.rounds, r) >= 1
    ensures var outcome := RunGraph(TurnInput(db, view, r, q), Plain());
      outcome.Success? && !outcome.value.completed && outcome.value.currentRoundIndex == r + 2 && outcome.value.currentQuestion.Some?
  {
    hide Roots, RoundHistory, ComputeInterviewScores, AddScores, UsedProblems, OpenQuestion, Numbered, FollowUps.CountFollowUps;
    NumberedAt(db.rounds, r);
    RootsRecounted(db.questions, r, db.rounds[r].roundType);
    var moved := RoundTransition(DecideNextAction(AdaptDifficulty(TurnInput(db, view, r, q), Plain()))).value;
    PlainOpens(moved);
    OpenQuestionShape(moved, Plain());
  }

  /** A plain turn leaves a full round for the next one, whichever question is open by now. */
  lemma {:induction false} PlainTurnAsksNext(db: Db, view: Session, q: nat)
    requires Inv(db) && q < |db.questions| && db.questions[q].round + 1 < |db.rounds|
    requires view.status == InProgress && view.currentQuestion == Some(q) && view.currentRound == db.questions[q].round + 1
    requires AnswerOf(db.answers, q).Some? && !Evaluated(db, q)
    requires Roots(db.questions, db.questions[q].round) >= Target(db.rounds, db.questions[q].round)
    ensures Committed(FinishTurn(db, view, q, Plain()).1)
    ensures AsksNext(db, FinishTurn(db, view, q, Plain()).0, db.questions[q].round + 1)
  {
    hide FinishTurn, Threaded, RowsAgree, EarlierAnswered, DifficultyFolds, Standing, Over, Roots, RunGraph, ApplyTransition, Plain;
    PlainTurnCommits(db, view, q);
    var r, s, pending := TurnIsTail(db, view, q, Plain());
    RoundNumber(db.rounds, db.questions[q].round + 1);
    PlainTurnLeavesFullRound(db, view, r, q);
    TailAsksNext(pending, view, r, s, Plain());
  }

  // --- When a stale re-read matters --------------------------------------------------------------

  /** `then` is when phase one passed its checks, `now` is when phase two runs, with any committed calls in
      between. The old session row and the committed one lead to the same stored rows, whatever the model
      answers, exactly when the question is already evaluated or the interview still runs with it open. */
  lemma {:induction false} StaleRereadIsHarmlessExactlyWhen(before: Db, events: seq<Event>, q: nat)
    requires Inv(before) && AllFresh(events)
    requires before.session.status == InProgress && before.session.currentQuestion == Some(q)
    requires AnswerOf(Run(before, events).answers, q).Some?
    ensures var now := Run(before, events);
      (forall env :: FinishTurn(now, before.session, q, env).0 == FinishTurn(now, now.session, q, env).0)
      <==> (Evaluated(now, q) || (now.session.status == InProgress && now.session.currentQuestion == Some(q)))
  {
    hide FinishTurn, Run, Threaded, RowsAgree, EarlierAnswered, DifficultyFolds, RoundsFit;
    var now := Run(before, events);
    InvImpliesUnique(before);
    EveryRunKeepsInvariant(before, events);
    RunIsSafe(before, events);
    if now.session.status == InProgress && now.session.currentQuestion == Some(q) {
      SessionFrozen(before, events, q);
      assert now.session == before.session;
    } else if !Evaluated(now, q) {
      QuestionKept(before, now, q);
      PlainTurnCommits(now, before.session, q);
      assert FinishTurn(now, before.session, q, Plain()).0.evaluations != now.evaluations;
      assert FinishTurn(now, now.session, q, Plain()).0 == now;
    }
  }

  lemma {:induction false} QuestionKept(before: Db, now: Db, q: nat)
    requires Grows(before, now) && Standing(before) && before.session.currentQuestion == Some(q)
    ensures q < |now.questions| && before.session.currentRound == now.questions[q].round + 1
  {
    assert now.questions[q] == before.questions[q];
  }

  /** For a text question of an interview nobody has abandoned the stale row never matters. */
  lemma {:induction false} StaleRereadOfTextQuestion(before: Db, events: seq<Event>, q: nat, env: Env)
    requires Inv(before) && AllFresh(events)
    requires before.session.status == InProgress && before.session.currentQuestion == Some(q)
    requires before.questions[q].questionType != CodingTask
    requires AnswerOf(Run(before, events).answers, q).Some? && Run(before, events).session.status != Abandoned
    ensures var now := Run(before, events);
      FinishTurn(now, before.session, q, env).0 == FinishTurn(now, now.session, q, env).0
  {
    hide FinishTurn, Run, Threaded, DifficultyFolds, RoundsFit;
    var now := Run(before, events);
    InvImpliesUnique(before);
    EveryRunKeepsInvariant(before, events);
    RunIsSafe(before, events);
    QuestionKept(before, now, q);
    assert now.questions[q] == before.questions[q];
    if now.session.currentQuestion != Some(q) {
      EvaluatedHasRow(now, q);
    }
    StaleRereadIsHarmlessExactlyWhen(before, events, q);
  }

  lemma {:induction false} EvaluatedHasRow(db: Db, q: nat)
    requires Unique(db) && IsEvaluated(db, q)
    ensures Evaluated(db, q)
  {
    var j: nat :| j < |db.evaluations| && db.evaluations[j].answer < |db.answers|
                  && EvaluatedQuestion(db.answers, db.evaluations, j) == q;
    assert AnswerOf(db.answers, q) == Some(db.evaluations[j].answer);
  }

  /** A completed or abandoned interview is changed by no outdated second read, whatever the model answers, exactly
      when the question has no answer row or its answer is already evaluated. */
  lemma {:induction false} TerminalStateAbsorbsStaleRereadExactlyWhen(before: Db, events: seq<Event>, q: nat)
    requires Inv(before) && AllFresh(events)
    requires before.session.status == InProgress && before.session.currentQuestion == Some(q)
    requires Terminal(Run(before, events))
    ensures var now := Run(before, events);
      (forall env :: FinishTurn(now, before.session, q, env).0 == now) <==> (AnswerOf(now.answers, q).None? || Evaluated(now, q))
  {
    hide FinishTurn, Run, Inv, Evaluated;
    var now := Run(before, events);
    if AnswerOf(now.answers, q).Some? {
      StaleRereadIsHarmlessExactlyWhen(before, events, q);
      forall env
        ensures FinishTurn(now, now.session, q, env).0 == now
      {
        NotRunningRefused(now, now.session, q, env);
      }
    } else {
      forall env
        ensures FinishTurn(now, before.session, q, env).0 == now
      {
        NotRunningRefused(now, before.session, q, env);
      }
    }
  }

  lemma {:induction false} NotRunningRefused(db: Db, view: Session, q: nat, env: Env)
    requires view.status != InProgress || AnswerOf(db.answers, q).None?
    ensures FinishTurn(db, view, q, env).0 == db
  {}

  // --- Outdated reads of a grading job ----------------------------------------------------------------

  /** Once it has read its coding round as open, a job completes it: with everything up, the call commits. */
  lemma {:induction false} PlainCodingCommits(db: Db, read: CodingRead, q: nat)
    requires Inv(db) && q < |db.questions|
    requires read.roundStatus != Completed && read.session.status == InProgress && read.session.currentQuestion == Some(q)
    ensures Committed(CompleteCodingRound(db, read, q, Plain()).1)
  {
    hide Threaded, RowsAgree, EarlierAnswered, DifficultyFolds, Standing, Over, Plain, Roots, OpenQuestion;
    var r := db.questions[q].round;
    OpenedRoundHasRoot(db, q);
    var input := InitialState(db, CodingRoundComplete, r, read.session.currentDifficulty);
    PlainIsStorable();
    if r + 1 < |db.rounds| {
      var moved := RoundTransition(input).value;
      PlainOpens(moved);
      OpenQuestionShape(moved, Plain());
      RoundNumber(Mark(db.rounds, r, Completed), r + 2);
    }
  }

  /** A job that completes the last round writes the same three things whatever else is stored. */
  lemma {:induction false} LastRoundCompletion(db: Db, read: CodingRead, q: nat, env: Env)
    requires Numbered(db.rounds) && q < |db.questions| && db.questions[q].round + 1 == |db.rounds|
    requires read.roundStatus != Completed && read.session.status == InProgress && read.session.currentQuestion == Some(q)
    requires read.session.currentRound == |db.rounds|
    ensures var r := db.questions[q].round;
      CompleteCodingRound(db, read, q, env).0
      == db.(session := db.session.(status := Finished, currentQuestion := None), rounds := Mark(db.rounds, r, Completed))
  {
    hide OpenQuestion;
  }

  /** A job that completes any other round opens the next one. */
  lemma {:induction false} CompletionAsks(db: Db, read: CodingRead, q: nat, env: Env)
    requires Numbered(db.rounds) && q < |db.questions| && db.questions[q].round + 1 < |db.rounds|
    requires Committed(CompleteCodingRound(db, read, q, env).1)
    ensures AsksNext(db, CompleteCodingRound(db, read, q, env).0, db.questions[q].round + 1)
  {
    hide OpenQuestion;
    var input := InitialState(db, CodingRoundComplete, db.questions[q].round, read.session.currentDifficulty);
    RoundNumber(Mark(db.rounds, db.questions[q].round, Completed), db.questions[q].round + 2);
    if OpenQuestion(RoundTransition(input).value, env).Success? {
      OpenQuestionShape(RoundTransition(input).value, env);
    }
  }

  lemma {:induction false} ClosedCodingRefused(db: Db, q: nat, env: Env)
    requires db.session.status != InProgress || db.session.currentQuestion != Some(q)
    ensures CompleteCodingRound(db, CurrentRead(db, q), q, env).0 == db
  {}

  /** `before` is when the job loaded its rows, `now` is when it gets the lock. The older copies and the committed
      rows lead to the same stored rows, whatever the catalog and the model answer, exactly when the interview still
      runs with the question open, or has been completed and the question was in its last round. No unique
      constraint helps here. */
  lemma {:induction false} StaleCodingReadIsHarmlessExactlyWhen(before: Db, events: seq<Event>, q: nat)
    requires Inv(before) && AllFresh(events)
    requires before.session.status == InProgress && before.session.currentQuestion == Some(q)
    ensures var now := Run(before, events);
      q < |now.questions|
      && ((forall env :: CompleteCodingRound(now, CurrentRead(before, q), q, env).0
                         == CompleteCodingRound(now, CurrentRead(now, q), q, env).0)
          <==> || (now.session.status == InProgress && now.session.currentQuestion == Some(q))
               || (now.session.status == Finished && now.questions[q].round == |now.rounds| - 1))
  {
    hide CompleteCodingRound, Run, RowsAgree, EarlierAnswered, DifficultyFolds, Threaded, RoundsFit, Grows, CurrentRead;
    var now := Run(before, events);
    var read := CurrentRead(before, q);
    InvImpliesUnique(before);
    EveryRunKeepsInvariant(before, events);
    RunIsSafe(before, events);
    QuestionKept(before, now, q);
    ReadsActive(before, q);
    if now.session.status == InProgress && now.session.currentQuestion == Some(q) {
      SessionFrozen(before, events, q);
      ReadsActive(now, q);
      assert CurrentRead(now, q) == read;
    } else {
      forall env
        ensures CompleteCodingRound(now, CurrentRead(now, q), q, env).0 == now
      {
        ClosedCodingRefused(now, q, env);
      }
      ClosedCodingRead(before, now, q);
    }
  }

  /** What an outdated job does once the question is no longer open. */
  lemma {:induction false} ClosedCodingRead(before: Db, now: Db, q: nat)
    requires Inv(now) && q < |now.questions| && CurrentRead(before, q) == CodingRead(before.session, Active)
    requires before.session.status == InProgress && before.session.currentQuestion == Some(q)
    requires before.session.currentRound == now.questions[q].round + 1
    requires !(now.session.status == InProgress && now.session.currentQuestion == Some(q))
    ensures (forall env :: CompleteCodingRound(now, CurrentRead(before, q), q, env).0 == now)
            <==> (now.session.status == Finished && now.questions[q].round == |now.rounds| - 1)
  {
    hide CompleteCodingRound, Threaded, RowsAgree, EarlierAnswered, DifficultyFolds, Standing, Plain, CurrentRead;
    var read := CurrentRead(before, q);
    var r := now.questions[q].round;
    OpenedRoundHasRoot(now, q);
    PlainCodingCommits(now, read, q);
    if r + 1 < |now.rounds| {
      CompletionAsks(now, read, q, Plain());
      assert CompleteCodingRound(now, read, q, Plain()).0 != now;
    } else {
      forall env
        ensures CompleteCodingRound(now, read, q, env).0
                == now.(session := now.session.(status := Finished, currentQuestion := None), rounds := Mark(now.rounds, r, Completed))
      {
        LastRoundCompletion(now, read, q, env);
      }
      if now.session.status == Finished {
        assert RoundFits(now.rounds, now.questions, |now.rounds|, r);
        assert Mark(now.rounds, r, Completed) == now.rounds;
      } else {
        assert CompleteCodingRound(now, read, q, Plain()).0.session.status == Finished;
      }
    }
  }

  /** While its question is open, a job reads the round as active. */
  lemma {:induction false} ReadsActive(db: Db, q: nat)
    requires Inv(db) && db.session.status == InProgress && db.session.currentQuestion == Some(q)
    ensures CurrentRead(db, q) == CodingRead(db.session, Active)
  {
    hide Threaded, RowsAgree, EarlierAnswered, DifficultyFolds, Roots;
    assert RoundFits(db.rounds, db.questions, ActiveRound(db), ActiveRound(db));
  }
}
