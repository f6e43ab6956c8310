/** Every service call keeps the invariant of module Invariant. */
module Steps {
  import opened Domain
  import opened Policy
  import opened TurnGraph
  import opened Execution
  import opened Invariant
  import FollowUps

  /** Position of the active round row. */
  function ActiveRound(db: Db): int { db.session.currentRound - 1 }

  ghost predicate AllAnswered(db: Db) {
    forall q: nat :: q < |db.questions| ==> db.questions[q].questionType == CodingTask || IsEvaluated(db, q)
  }

  /** Everything the invariant says of a running interview whose newest question has just been dealt with. */
  ghost predicate Ready(db: Db) {
    && Numbered(db.rounds)
    && Threaded(db.rounds, db.questions)
    && RowsAgree(db)
    && db.session.status == InProgress
    && Standing(db)
    && AllAnswered(db)
    && DifficultyFolds(db)
  }

  /** A question the graph may ask next in round `r`. */
  predicate Opens(db: Db, r: nat, ref: QuestionRef)
    requires r < |db.rounds|
  {
    && ref.roundType == db.rounds[r].roundType
    && ref.difficulty == db.session.currentDifficulty
    && ref.parent == None
    && (ref.problem.Some? <==> ref.roundType == Coding)
  }

  /** A question that deepens the newest one. */
  ghost predicate FollowsUp(db: Db, ref: QuestionRef)
    requires Standing(db)
  {
    && ref.roundType == db.rounds[ActiveRound(db)].roundType
    && ref.difficulty == db.session.currentDifficulty
    && ref.parent == Some(|db.questions| - 1)
    && ref.problem == None
    && Depth(db.questions, |db.questions| - 1) < MAX_FOLLOW_UPS_PER_QUESTION
  }

  /** The four ways a turn can end. */
  ghost predicate Ends(db: Db, s: TurnState)
    requires Standing(db)
  {
    var r := ActiveRound(db);
    if s.completed then
      r == |db.rounds| - 1 && s.currentRoundIndex == |db.rounds| && Roots(db.questions, r) == Target(db.rounds, r)
    else if s.currentRoundIndex == r + 1 then
      && s.currentQuestion.Some?
      && (|| (Opens(db, r, s.currentQuestion.value) && Roots(db.questions, r) < Target(db.rounds, r))
          || (s.followUpWorthy && FollowsUp(db, s.currentQuestion.value)))
    else
      && s.currentRoundIndex == r + 2 <= |db.rounds|
      && Roots(db.questions, r) == Target(db.rounds, r)
      && s.currentQuestion.Some? && Opens(db, r + 1, s.currentQuestion.value)
  }

  // --- What the graph can return ---------------------------------------------------------

  lemma {:induction false} OpenQuestionShape(s: TurnState, env: Env)
    requires OpenQuestion(s, env).Success?
    ensures var t := OpenQuestion(s, env).value;
      && t.currentQuestion.Some? && t == s.(currentQuestion := t.currentQuestion)
      && t.currentQuestion.value.roundType == s.currentRound
      && t.currentQuestion.value.difficulty == s.currentDifficulty
      && t.currentQuestion.value.parent == None
      && (t.currentQuestion.value.problem.Some? <==> s.currentRound == Coding)
  {
    if s.currentRound == Coding {
      var i := SelectsTheLeast(env.catalog, s.currentDifficulty, s.roleKey, s.codingProblemHistory);
    }
  }

  lemma {:induction false} RoundNumber(rounds: seq<Round>, n: int)
    requires Numbered(rounds)
    ensures 1 <= n <= |rounds| ==> RoundBySequence(rounds, n) == Some(n - 1)
    ensures !(1 <= n <= |rounds|) ==> RoundBySequence(rounds, n) == None
  {
    assert 1 <= n <= |rounds| ==> rounds[n - 1].sequenceNo == n;
  }

  /** Leaving a full round: the next plan entry opens, or there is none and the interview completes. */
  lemma {:induction false} TransitionShape(db: Db, s: TurnState, env: Env)
    requires Numbered(db.rounds) && Standing(db)
    requires s.roundPlan == RoundPlan(db.rounds) && s.currentRoundIndex == ActiveRound(db) + 1 && !s.completed
    requires s.currentDifficulty == db.session.currentDifficulty
    requires Roots(db.questions, ActiveRound(db)) == Target(db.rounds, ActiveRound(db))
    requires TransitionAndAsk(s, env).Success?
    ensures var t := TransitionAndAsk(s, env).value;
      Ends(db, t) && t.evaluation == s.evaluation && t.followUpWorthy == s.followUpWorthy
      && t.currentDifficulty == s.currentDifficulty
      && (t.completed || t.currentRoundIndex == ActiveRound(db) + 2)
  {
    if s.currentRoundIndex < |db.rounds| {
      var moved := RoundTransition(s).value;
      assert moved.currentRound == db.rounds[ActiveRound(db) + 1].roundType;
      OpenQuestionShape(moved, env);
    }
  }

  /** The supervisor's decision on the rebuilt state, in terms of the rows it was rebuilt from. */
  lemma {:induction false} DecidedFromRows(db: Db, q: nat, env: Env)
    requires Numbered(db.rounds) && Threaded(db.rounds, db.questions)
    requires Standing(db) && db.session.currentQuestion == Some(q)
    ensures var (r, s) := (ActiveRound(db), DecideNextAction(AdaptDifficulty(TurnInput(db, db.session, ActiveRound(db), q), env)));
      && s.trigger == SubmitAnswer && s.roundPlan == RoundPlan(db.rounds) && !s.completed
      && s.currentRoundIndex == r + 1 && s.currentRound == db.rounds[r].roundType
      && s.lastQuestion == Some(Ref(db.questions, q, db.rounds[r].roundType))
      && s.evaluation == Some((env.scores, ComputeDifficultySignal(env.scores.technical, env.scores.problemSolving)))
      && s.followUpWorthy == env.followUpWorthy
      && s.currentDifficulty == ApplyDifficultySignal(db.session.currentDifficulty, s.evaluation.value.1)
      && s.nextAction == Some(
           if env.followUpWorthy && Depth(db.questions, q) < MAX_FOLLOW_UPS_PER_QUESTION then FollowUp
           else if Roots(db.questions, r) < Target(db.rounds, r) then NextQuestion
           else if r + 1 == |db.rounds| then Complete
           else NextRound)
  {
    hide Threaded, Roots, RoundHistory, FollowUps.CountFollowUps, AddScores, ComputeInterviewScores, UsedProblems, Depth, RoundsFit,
         ComputeDifficultySignal, ApplyDifficultySignal;
    RecountIsDepth(db.rounds, db.questions, ActiveRound(db), q);
    RootsRecounted(db.questions, ActiveRound(db), db.rounds[ActiveRound(db)].roundType);
  }

  /** One answered question: the evaluation is what the evaluator said, and the turn ends in one of the four ways. */
  lemma {:induction false} TurnShape(db: Db, q: nat, env: Env, e: Evaluation)
    requires Numbered(db.rounds) && Threaded(db.rounds, db.questions)
    requires Standing(db) && db.session.currentQuestion == Some(q)
    requires RunGraph(TurnInput(db, db.session, ActiveRound(db), q), env).Success?
    requires e.signal == ComputeDifficultySignal(env.scores.technical, env.scores.problemSolving)
    ensures var s := RunGraph(TurnInput(db, db.session, ActiveRound(db), q), env).value;
      && env.evaluatorUp && s.evaluation == Some((env.scores, e.signal)) && s.followUpWorthy == env.followUpWorthy
      && s.currentDifficulty == WithEvaluation(db, e).session.currentDifficulty
      && Ends(WithEvaluation(db, e), s)
  {
    hide Threaded, RowsAgree, Roots, Depth, TransitionAndAsk, DecideNextAction, AdaptDifficulty, RoundHistory, UsedProblems,
         ComputeInterviewScores, FollowUps.CountFollowUps;
    var after := WithEvaluation(db, e);
    var decided := DecideNextAction(AdaptDifficulty(TurnInput(db, db.session, ActiveRound(db), q), env));
    DecidedFromRows(db, q, env);
    assert Standing(after);
    assert RoundFits(db.rounds, db.questions, ActiveRound(db), ActiveRound(db));
    if decided.nextAction == Some(NextRound) {
      TransitionShape(after, decided, env);
    }
  }

  // --- What the shared tail stores ----------------------------------------------------------

  predicate SeesSession(db: Db, view: Session) {
    && view.status == db.session.status
    && view.currentRound == db.session.currentRound
    && view.currentQuestion == db.session.currentQuestion
  }

  function Asks(db: Db, rounds: seq<Round>, currentRound: int, question: Question): Db {
    db.(rounds := rounds, questions := db.questions + [question],
        session := db.session.(currentRound := currentRound, currentQuestion := Some(|db.questions|)))
  }

  lemma {:induction false} StandsInSameRound(db: Db, question: Question)
    requires Standing(db) && question.round == ActiveRound(db)
    requires question.parent == None ==> Roots(db.questions, ActiveRound(db)) < Target(db.rounds, ActiveRound(db))
    ensures Standing(Asks(db, db.rounds, db.session.currentRound, question))
  {
    forall i: nat | i < |db.rounds|
      ensures RoundFits(db.rounds, db.questions + [question], ActiveRound(db), i)
    {
      RootsAppend(db.questions, question, i);
      assert RoundFits(db.rounds, db.questions, ActiveRound(db), i);
    }
  }

  /** The rounds once the active one is completed and the next one opened. */
  function Advanced(db: Db): (rounds: seq<Round>)
    requires 0 <= ActiveRound(db) && ActiveRound(db) + 1 < |db.rounds|
    ensures |rounds| == |db.rounds|
  {
    Mark(Mark(db.rounds, ActiveRound(db), Completed), ActiveRound(db) + 1, Active)
  }

  lemma {:induction false} StandsInNextRound(db: Db, question: Question)
    requires Standing(db) && Roots(db.questions, ActiveRound(db)) == Target(db.rounds, ActiveRound(db))
    requires ActiveRound(db) + 1 < |db.rounds|
    requires question.round == ActiveRound(db) + 1 && question.parent == None
    ensures Standing(Asks(db, Advanced(db), db.session.currentRound + 1, question))
  {
    var r := ActiveRound(db);
    var next := r + 1;
    forall i: nat | i < |db.rounds|
      ensures RoundFits(Advanced(db), db.questions + [question], next, i)
    {
      RootsAppend(db.questions, question, i);
      assert RoundFits(db.rounds, db.questions, r, i);
    }
  }

  lemma {:induction false} AskKeepsInvariant(db: Db, rounds: seq<Round>, currentRound: int, question: Question)
    requires Ready(db)
    requires Numbered(rounds) && |rounds| == |db.rounds|
    requires forall i :: 0 <= i < |rounds| ==> rounds[i].roundType == db.rounds[i].roundType
    requires Standing(Asks(db, rounds, currentRound, question))
    requires question.difficulty == db.session.currentDifficulty
    requires Threaded(rounds, db.questions + [question])
    ensures Inv(Asks(db, rounds, currentRound, question))
  {
    var after := Asks(db, rounds, currentRound, question);
    AskingKeepsRows(db, question, rounds, after.session);
    forall q: nat | q < |db.questions|
      ensures db.questions[q].questionType == CodingTask || IsEvaluated(after, q)
    {
      if db.questions[q].questionType != CodingTask {
        var j: nat :| j < |db.evaluations| && db.evaluations[j].answer < |db.answers| && EvaluatedQuestion(db.answers, db.evaluations, j) == q;
        assert EvaluatedQuestion(after.answers, after.evaluations, j) == q;
      }
    }
  }

  lemma {:induction false} SameRoundKeepsInvariant(db: Db, view: Session, s: TurnState, env: Env)
    requires Ready(db) && Ends(db, s) && !s.completed && s.currentRoundIndex == ActiveRound(db) + 1
    requires ApplyTransition(db, view, ActiveRound(db), s, env).Success?
    ensures Inv(ApplyTransition(db, view, ActiveRound(db), s, env).value.0)
  {
    var r := ActiveRound(db);
    var question := NewQuestion(s.currentQuestion.value, r, env).value;
    StandsInSameRound(db, question);
    ThreadedAppend(db.rounds, db.rounds, db.questions, question);
    AskKeepsInvariant(db, db.rounds, db.session.currentRound, question);
    assert ApplyTransition(db, view, r, s, env).value.0 == Asks(db, db.rounds, db.session.currentRound, question);
  }

  lemma {:induction false} AdvancedRows(db: Db, question: Question)
    requires Ready(db) && Roots(db.questions, ActiveRound(db)) == Target(db.rounds, ActiveRound(db))
    requires ActiveRound(db) + 1 < |db.rounds|
    requires question.round == ActiveRound(db) + 1 && question.parent == None
    requires question.questionType == CodingTask <==> db.rounds[question.round].roundType == Coding
    requires question.questionType == DesignTask <==> db.rounds[question.round].roundType == SystemDesign
    requires question.problem.Some? <==> question.questionType == CodingTask
    ensures Numbered(Advanced(db)) && Threaded(Advanced(db), db.questions + [question])
    ensures Standing(Asks(db, Advanced(db), db.session.currentRound + 1, question))
  {
    hide RowsAgree, AllAnswered, DifficultyFolds, RoundsFit, Depth;
    StandsInNextRound(db, question);
    ThreadedAppend(db.rounds, Advanced(db), db.questions, question);
  }

  lemma {:induction false} NextRoundResult(db: Db, view: Session, s: TurnState, env: Env)
    requires Numbered(db.rounds) && Standing(db) && SeesSession(db, view)
    requires !s.completed && s.currentRoundIndex == ActiveRound(db) + 2 && s.currentQuestion.Some?
    requires ActiveRound(db) + 1 < |db.rounds|
    requires ApplyTransition(db, view, ActiveRound(db), s, env).Success?
    ensures var question := NewQuestion(s.currentQuestion.value, ActiveRound(db) + 1, env);
      question.Success?
      && ApplyTransition(db, view, ActiveRound(db), s, env).value.0 == Asks(db, Advanced(db), ActiveRound(db) + 2, question.value)
  {
    hide RoundsFit;
    RoundNumber(Mark(db.rounds, ActiveRound(db), Completed), ActiveRound(db) + 2);
  }

  lemma {:induction false} NextRoundKeepsInvariant(db: Db, view: Session, s: TurnState, env: Env)
    requires Ready(db) && SeesSession(db, view)
    requires Ends(db, s) && !s.completed && s.currentRoundIndex == ActiveRound(db) + 2
    requires ApplyTransition(db, view, ActiveRound(db), s, env).Success?
    ensures Inv(ApplyTransition(db, view, ActiveRound(db), s, env).value.0)
  {
    hide ApplyTransition, Threaded, RoundsFit, RowsAgree, DifficultyFolds, AllAnswered, Inv;
    NextRoundResult(db, view, s, env);
    var question := NewQuestion(s.currentQuestion.value, ActiveRound(db) + 1, env).value;
    AdvancedRows(db, question);
    AskKeepsInvariant(db, Advanced(db), ActiveRound(db) + 2, question);
  }

  lemma {:induction false} CompletionKeepsInvariant(db: Db, view: Session, s: TurnState, env: Env)
    requires Ready(db) && SeesSession(db, view) && Ends(db, s) && s.completed
    ensures ApplyTransition(db, view, ActiveRound(db), s, env).Success?
    ensures Inv(ApplyTransition(db, view, ActiveRound(db), s, env).value.0)
  {
    var r := ActiveRound(db);
    var (after, reply) := ApplyTransition(db, view, r, s, env).value;
    forall i: nat | i < |db.rounds|
      ensures RoundFits(after.rounds, after.questions, |after.rounds|, i)
    {
      assert RoundFits(db.rounds, db.questions, r, i);
    }
    ThreadedMarked(db.rounds, after.rounds, db.questions);
    CompletionKeepsRows(db, after);
  }

  lemma {:induction false} ThreadedMarked(rounds: seq<Round>, marked: seq<Round>, questions: seq<Question>)
    requires Threaded(rounds, questions)
    requires |marked| == |rounds| && forall i :: 0 <= i < |rounds| ==> marked[i].roundType == rounds[i].roundType
    ensures Threaded(marked, questions)
  {
    forall i: nat | i < |questions|
      ensures AskedInOrder(marked, questions, i)
    {
      assert AskedInOrder(rounds, questions, i);
    }
  }

  /** The tail commits a state that satisfies the invariant, whichever of the four ways the turn ended. */
  lemma {:induction false} TransitionKeepsInvariant(db: Db, view: Session, s: TurnState, env: Env)
    requires Ready(db) && SeesSession(db, view) && Ends(db, s)
    requires ApplyTransition(db, view, ActiveRound(db), s, env).Success?
    ensures Inv(ApplyTransition(db, view, ActiveRound(db), s, env).value.0)
  {
    if s.completed {
      CompletionKeepsInvariant(db, view, s, env);
    } else if s.currentRoundIndex == ActiveRound(db) + 1 {
      SameRoundKeepsInvariant(db, view, s, env);
    } else {
      NextRoundKeepsInvariant(db, view, s, env);
    }
  }

  lemma {:induction false} CompletionKeepsRows(db: Db, after: Db)
    requires RowsAgree(db) && DifficultyFolds(db) && AllAnswered(db)
    requires after == db.(rounds := after.rounds, session := after.session)
    requires after.session.currentDifficulty == db.session.currentDifficulty
    ensures RowsAgree(after) && DifficultyFolds(after) && EarlierAnswered(after)
  {
    forall q: nat | q < |db.questions|
      ensures CarriesFold(after, q) && (db.questions[q].questionType == CodingTask || IsEvaluated(after, q))
    {
      RowsOnly(db, after, q);
    }
  }

  /** Marking rounds or moving the session row touches no evaluation and no question. */
  lemma {:induction false} RowsOnly(db: Db, after: Db, q: nat)
    requires RowsAgree(db) && q < |db.questions|
    requires after == db.(rounds := after.rounds, session := after.session)
    ensures RowsAgree(after) && (CarriesFold(db, q) ==> CarriesFold(after, q)) && (IsEvaluated(db, q) ==> IsEvaluated(after, q))
  {
    forall j: nat | j < |db.evaluations|
      ensures EvaluatedQuestion(after.answers, after.evaluations, j) == EvaluatedQuestion(db.answers, db.evaluations, j)
    {}
    if CarriesFold(db, q) {
      var k: nat :| AskedAt(db, q, k);
      assert AskedAt(after, q, k);
    }
  }

  // --- The service calls ------------------------------------------------------------------------

  function StartInput(db: Db): TurnState
    requires db.rounds != []
  {
    InitialState(db, StartTrigger, 0, db.startingDifficulty).(interviewScores := ComputeInterviewScores([]))
  }

  /** On a numbered plan a successful start asks one opening question of the first round. */
  lemma {:induction false} StartShape(db: Db, env: Env)
    requires Numbered(db.rounds) && Committed(StartInterview(db, env).1)
    ensures db.session.status == NotStarted && OpenQuestion(StartInput(db), env).Success?
    ensures var ref := OpenQuestion(StartInput(db), env).value.currentQuestion.value;
      && NewQuestion(ref, 0, env).Success?
      && StartInterview(db, env).0
         == db.(session := db.session.(status := InProgress, currentRound := 1, currentQuestion := Some(|db.questions|)),
                rounds := Mark(db.rounds, 0, Active),
                questions := db.questions + [NewQuestion(ref, 0, env).value])
  {
    RoundNumber(db.rounds, 1);
    assert FirstSequence(db.rounds) == 1 by { assert db.rounds[0].sequenceNo == 1; }
    assert RunGraph(StartInput(db), env) == OpenQuestion(StartInput(db), env);
    OpenQuestionShape(StartInput(db), env);
  }

  lemma {:induction false} StartKeepsInvariant(db: Db, env: Env)
    requires Inv(db)
    ensures Inv(StartInterview(db, env).0)
  {
    hide StartInterview, OpenQuestion;
    if Committed(StartInterview(db, env).1) {
      StartShape(db, env);
      OpenQuestionShape(StartInput(db), env);
      var after := StartInterview(db, env).0;
      var question := after.questions[0];
      assert after.questions == [question] && db.questions + [question] == [question];
      forall i: nat | i < |db.rounds|
        ensures RoundFits(after.rounds, after.questions, 0, i)
      {
        RootsAppend(db.questions, question, i);
      }
      ThreadedAppend(db.rounds, after.rounds, db.questions, question);
      assert db.evaluations[..0] == [];
      assert AskedAt(after, 0, 0);
      assert CarriesFold(after, 0);
    }
  }

  lemma {:induction false} SaveAnswerKeepsInvariant(db: Db, q: nat, answer: Answer)
    requires Inv(db) && answer.question == q < |db.questions|
    requires AnswerOf(db.answers, q).None?
    ensures Inv(db.(answers := db.answers + [answer]))
  {
    hide Threaded, RoundsFit, FoldSignals, Signals;
    var after := db.(answers := db.answers + [answer]);
    forall j: nat | j < |db.evaluations|
      ensures db.evaluations[j].answer < |db.answers|
      ensures EvaluatedQuestion(after.answers, after.evaluations, j) == EvaluatedQuestion(db.answers, db.evaluations, j)
    {}
    forall p: nat | p < |db.questions|
      ensures CarriesFold(after, p) && (IsEvaluated(after, p) <==> IsEvaluated(db, p))
    {
      assert CarriesFold(db, p);
      var k: nat :| AskedAt(db, p, k);
      assert AskedAt(after, p, k);
      if IsEvaluated(db, p) {
        var j: nat :| j < |db.evaluations| && db.evaluations[j].answer < |db.answers|
                      && EvaluatedQuestion(db.answers, db.evaluations, j) == p;
        assert EvaluatedQuestion(after.answers, after.evaluations, j) == p;
      }
    }
  }

  /** The newest question's answer, once found, has no evaluation yet. */
  lemma {:induction false} NewestIsUnevaluated(db: Db, q: nat)
    requires Inv(db) && db.session.status == InProgress && db.session.currentQuestion == Some(q)
    requires AnswerOf(db.answers, q).Some?
    ensures EvaluationOf(db.evaluations, AnswerOf(db.answers, q).value).None?
  {
    forall j: nat | j < |db.evaluations| && db.evaluations[j].answer < |db.answers|
      ensures EvaluatedQuestion(db.answers, db.evaluations, j) != q
    {}
  }

  /** After the evaluation is stored the interview is ready for the tail. */
  lemma {:induction false} EvaluatedIsReady(db: Db, e: Evaluation)
    requires Inv(db) && db.session.status == InProgress && EvaluatesNewest(db, e)
    ensures Ready(WithEvaluation(db, e))
  {
    var after := WithEvaluation(db, e);
    EvaluationFolds(db, e);
    forall p: nat | p < |db.questions|
      ensures db.questions[p].questionType == CodingTask || IsEvaluated(after, p)
    {
      if db.questions[p].questionType != CodingTask {
        EvaluationClosesNewest(db, e, p);
      }
    }
  }

  /** The evaluation row a turn about question `q` stores. */
  function TurnEvaluation(db: Db, q: nat, env: Env): Evaluation
    requires AnswerOf(db.answers, q).Some?
  {
    Evaluation(AnswerOf(db.answers, q).value, ToColumns(env.scores),
               ComputeDifficultySignal(env.scores.technical, env.scores.problemSolving))
  }

  /** With the committed row in hand, a successful turn is the evaluation followed by the shared tail. */
  lemma {:induction false} FreshWriteBack(db: Db, q: nat, env: Env)
    requires Inv(db)
    requires Committed(FinishTurn(db, db.session, q, env).1)
    ensures db.session.status == InProgress && db.session.currentQuestion == Some(q) && q < |db.questions|
    ensures AnswerOf(db.answers, q).Some?
    ensures var e := TurnEvaluation(db, q, env);
      && EvaluatesNewest(db, e) && Standing(db)
      && RunGraph(TurnInput(db, db.session, ActiveRound(db), q), env).Success?
      && Success(FinishTurn(db, db.session, q, env))
         == ApplyTransition(WithEvaluation(db, e), db.session, ActiveRound(db),
                            RunGraph(TurnInput(db, db.session, ActiveRound(db), q), env).value, env)
  {
    hide Threaded, EarlierAnswered, DifficultyFolds, ApplyTransition, RunGraph, Ends, RoundsFit;
    RoundNumber(db.rounds, db.session.currentRound);
    var e := TurnEvaluation(db, q, env);
    TurnShape(db, q, env, e);
  }

  lemma {:induction false} FinishTurnKeepsInvariant(db: Db, q: nat, env: Env)
    requires Inv(db)
    ensures Inv(FinishTurn(db, db.session, q, env).0)
  {
    hide Inv, RunGraph, FinishTurn, StoreTurn, Ready, Ends, ApplyTransition, IsEvaluated, RoundsFit;
    if Committed(FinishTurn(db, db.session, q, env).1) {
      FreshWriteBack(db, q, env);
      var e := TurnEvaluation(db, q, env);
      EvaluatedIsReady(db, e);
      TurnShape(db, q, env, e);
      var s := RunGraph(TurnInput(db, db.session, ActiveRound(db), q), env).value;
      TransitionKeepsInvariant(WithEvaluation(db, e), db.session, s, env);
    }
  }

  /** A coding round that is completed was full, and the graph is entered at the round transition. */
  lemma {:induction false} CodingIsReady(db: Db, q: nat, env: Env) returns (input: TurnState)
    requires Inv(db) && q < |db.questions| && db.questions[q].questionType == CodingTask
    requires Committed(CompleteCodingRound(db, CurrentRead(db, q), q, env).1)
    ensures Ready(db)
    ensures RunGraph(input, env).Success? && Ends(db, RunGraph(input, env).value)
    ensures Success(CompleteCodingRound(db, CurrentRead(db, q), q, env))
            == ApplyTransition(db, db.session, ActiveRound(db), RunGraph(input, env).value, env)
  {
    hide ApplyTransition, Ends, OpenQuestion, TransitionAndAsk;
    var r := ActiveRound(db);
    assert AskedInOrder(db.rounds, db.questions, q);
    assert RoundFits(db.rounds, db.questions, r, r);
    input := InitialState(db, CodingRoundComplete, r, db.session.currentDifficulty);
    TransitionShape(db, input, env);
  }

  lemma {:induction false} CompleteCodingKeepsInvariant(db: Db, q: nat, env: Env)
    requires Inv(db) && q < |db.questions| && db.questions[q].questionType == CodingTask
    ensures Inv(CompleteCodingRound(db, CurrentRead(db, q), q, env).0)
  {
    hide Inv, CompleteCodingRound, RunGraph, Ready, Ends, ApplyTransition;
    if Committed(CompleteCodingRound(db, CurrentRead(db, q), q, env).1) {
      var input := CodingIsReady(db, q, env);
      TransitionKeepsInvariant(db, db.session, RunGraph(input, env).value, env);
    }
  }
}
