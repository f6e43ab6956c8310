/** When a call moves the interview on, when it is refused, and with which code: exactly, from the rows and from what
    the outside world does. */
module Refusals {
  import opened Domain
  import opened Policy
  import opened Rounding
  import opened TurnGraph
  import opened Execution
  import opened Invariant
  import opened Steps
  import opened Interleavings
  import opened Outcomes
  import opened Decisions
  import FollowUps

  ghost predicate HasProblem(catalog: seq<Problem>, difficulty: DifficultyLevel) {
    exists i :: 0 <= i < |catalog| && catalog[i].difficulty == difficulty
  }

  ghost predicate CanBeStored(scores: Scores) {
    && -999.995 < scores.technical < 999.995 && -999.995 < scores.problemSolving < 999.995
    && -999.995 < scores.communication < 999.995 && -999.995 < scores.confidence < 999.995
  }

  lemma {:induction false} StorableExactlyWhen(scores: Scores)
    ensures Storable(scores) <==> CanBeStored(scores)
  {
    hide FitsColumn;
    FitsExactlyWhen(scores.technical);
    FitsExactlyWhen(scores.problemSolving);
    FitsExactlyWhen(scores.communication);
    FitsExactlyWhen(scores.confidence);
  }

  /** Why no first question of a round of type `t` can be found. */
  ghost function NothingToAsk(t: RoundType, difficulty: DifficultyLevel, env: Env): Option<ErrorCode> {
    if t == Coding then (if HasProblem(env.catalog, difficulty) then None else Some(NoCatalogProblem))
    else if env.generatorUp then None
    else Some(EngineUnavailable)
  }

  /** A chosen problem can be withdrawn before the question is stored. */
  ghost function Withdrawn(t: RoundType, env: Env): Option<ErrorCode> {
    if t == Coding && !env.stillActive then Some(ProblemNotFound) else None
  }

  ghost function Either(first: Option<ErrorCode>, second: Option<ErrorCode>): Option<ErrorCode> {
    if first.Some? then first else second
  }

  lemma {:induction false} OpenRefuses(s: TurnState, env: Env)
    ensures NothingToAsk(s.currentRound, s.currentDifficulty, env)
            == if OpenQuestion(s, env).Failure? then Some(OpenQuestion(s, env).error) else None
  {
    hide SelectCodingProblem;
    var i := SelectsTheLeast(env.catalog, s.currentDifficulty, s.roleKey, s.codingProblemHistory);
  }

  // --- Answering the open question ----------------------------------------------------------

  /** What keeps the decided question from being asked. */
  ghost function GraphObstacle(db: Db, env: Env): Option<ErrorCode>
    requires Standing(db)
  {
    if !env.evaluatorUp then Some(EngineUnavailable)
    else
      match Called(db, env.followUpWorthy)
      case Deepen | SameRound => if env.generatorUp then None else Some(EngineUnavailable)
      case NextRoundOpens =>
        NothingToAsk(db.rounds[ActiveRound(db) + 1].roundType,
                     Adapted(db.session.currentDifficulty, env.scores.technical + env.scores.problemSolving), env)
      case InterviewEnds => None
  }

  /** What keeps the turn from being stored. A follow-up on a coding question never can be. */
  ghost function StoreObstacle(db: Db, env: Env): Option<ErrorCode>
    requires Standing(db)
  {
    if !CanBeStored(env.scores) then Some(NumericOutOfRange)
    else
      match Called(db, env.followUpWorthy)
      case Deepen => if db.rounds[ActiveRound(db)].roundType == Coding then Some(CodingProblemIdMissing) else None
      case NextRoundOpens => Withdrawn(db.rounds[ActiveRound(db) + 1].roundType, env)
      case SameRound | InterviewEnds => None
  }

  lemma {:induction false} DecisionKeepsLevel(s: TurnState)
    ensures DecideNextAction(s).currentDifficulty == s.currentDifficulty
  {}

  lemma {:induction false} GraphRefuses(db: Db, q: nat, env: Env)
    requires Numbered(db.rounds) && Threaded(db.rounds, db.questions)
    requires Standing(db) && db.session.currentQuestion == Some(q)
    ensures var result := RunGraph(TurnInput(db, db.session, ActiveRound(db), q), env);
      GraphObstacle(db, env) == if result.Failure? then Some(result.error) else None
  {
    hide Threaded, RowsAgree, Roots, Depth, OpenQuestion, DecideNextAction, AdaptDifficulty, RoundHistory, UsedProblems,
         ComputeInterviewScores, FollowUps.CountFollowUps, NothingToAsk, RoundsFit, Adapted;
    var r := ActiveRound(db);
    var input := TurnInput(db, db.session, r, q);
    DecidedFromRows(db, q, env);
    ScoresAdapt(input, env);
    var decided := DecideNextAction(AdaptDifficulty(input, env));
    DecisionKeepsLevel(AdaptDifficulty(input, env));
    if env.evaluatorUp && decided.nextAction == Some(NextRound) {
      OpenRefuses(RoundTransition(decided).value, env);
    }
  }

  /** Why the question the graph decided on cannot be stored. */
  ghost function Unaskable(s: TurnState, env: Env): Option<ErrorCode>
    requires !s.completed ==> s.currentQuestion.Some?
  {
    if s.completed then None
    else if s.currentQuestion.value.roundType == Coding && s.currentQuestion.value.problem.None? then Some(CodingProblemIdMissing)
    else Withdrawn(s.currentQuestion.value.roundType, env)
  }

  /** The tail of a turn, or of a coding round, fails only on the question it has to store. */
  lemma {:induction false} TailRefuses(db: Db, view: Session, s: TurnState, env: Env)
    requires Numbered(db.rounds) && Standing(db) && Ends(db, s)
    ensures var done := ApplyTransition(db, view, ActiveRound(db), s, env);
      && Unaskable(s, env) == (if done.Failure? then Some(done.error) else None)
      && (done.Success? ==> done.value.1 == if s.completed then InterviewOver else Asked(|db.questions|))
  {
    hide Roots, Depth;
    RoundNumber(Mark(db.rounds, ActiveRound(db), Completed), s.currentRoundIndex);
  }

  /** A coding round never asks a second root question. */
  lemma {:induction false} UnaskableFromRows(db: Db, s: TurnState, env: Env)
    requires Numbered(db.rounds) && Standing(db) && Ends(db, s) && CanBeStored(env.scores)
    requires GraphFollows(db, Called(db, env.followUpWorthy), s)
    ensures Unaskable(s, env) == StoreObstacle(db, env)
    ensures s.completed <==> Called(db, env.followUpWorthy) == InterviewEnds
  {
    hide Roots, Depth;
    assert RoundFits(db.rounds, db.questions, ActiveRound(db), ActiveRound(db));
  }

  lemma {:induction false} StoredAsTail(db: Db, q: nat, env: Env)
    requires Inv(db) && db.session.status == InProgress && db.session.currentQuestion == Some(q) && AnswerOf(db.answers, q).Some?
    requires RunGraph(TurnInput(db, db.session, ActiveRound(db), q), env).Success? && Storable(env.scores)
    ensures var s := RunGraph(TurnInput(db, db.session, ActiveRound(db), q), env).value;
      FinishTurn(db, db.session, q, env)
      == StoreTransition(db, WithEvaluation(db, TurnEvaluation(db, q, env)), db.session, ActiveRound(db), s, env)
  {
    hide Threaded, RowsAgree, EarlierAnswered, DifficultyFolds, RunGraph, StoreTransition, Ends, RoundsFit, Storable;
    NewestIsUnevaluated(db, q);
    RoundNumber(db.rounds, db.session.currentRound);
    TurnShape(db, q, env, TurnEvaluation(db, q, env));
  }

  lemma {:induction false} StoredExactlyWhen(db: Db, q: nat, env: Env)
    requires Inv(db) && db.session.status == InProgress && db.session.currentQuestion == Some(q) && AnswerOf(db.answers, q).Some?
    requires RunGraph(TurnInput(db, db.session, ActiveRound(db), q), env).Success? && Storable(env.scores)
    ensures var reply := FinishTurn(db, db.session, q, env).1;
      match StoreObstacle(db, env)
      case Some(code) => reply == Refused(code)
      case None => reply == if Called(db, env.followUpWorthy) == InterviewEnds then InterviewOver else Asked(|db.questions|)
  {
    hide Threaded, RowsAgree, EarlierAnswered, DifficultyFolds, RunGraph, ApplyTransition, GraphFollows, Called,
         Ends, RoundsFit, Storable, CanBeStored, FinishTurn, StoreObstacle, Unaskable;
    var s := RunGraph(TurnInput(db, db.session, ActiveRound(db), q), env).value;
    var e := TurnEvaluation(db, q, env);
    StorableExactlyWhen(env.scores);
    StoredAsTail(db, q, env);
    TurnShape(db, q, env, e);
    GraphDecides(db, q, env);
    SameRowsFollow(db, e, Called(db, env.followUpWorthy), s);
    SameDecision(db, e, env);
    UnaskableFromRows(WithEvaluation(db, e), s, env);
    TailRefuses(WithEvaluation(db, e), db.session, s, env);
  }

  lemma {:induction false} SameDecision(db: Db, e: Evaluation, env: Env)
    requires Standing(db)
    ensures Standing(WithEvaluation(db, e))
    ensures Called(WithEvaluation(db, e), env.followUpWorthy) == Called(db, env.followUpWorthy)
    ensures StoreObstacle(WithEvaluation(db, e), env) == StoreObstacle(db, env)
  {}

  /** With an answer on record, a request about the open question stores its evaluation and goes on as the rows call for,
      unless one of the listed obstacles stands in the way; then it is refused with that code and stores nothing. */
  lemma {:induction false} TurnHappensExactlyWhen(db: Db, q: nat, env: Env)
    requires Inv(db) && db.session.status == InProgress && db.session.currentQuestion == Some(q) && Answered(db, q)
    ensures Standing(db)
    ensures var (after, reply) := FinishTurn(db, db.session, q, env);
      match Either(GraphObstacle(db, env), StoreObstacle(db, env))
      case Some(code) => reply == Refused(code) && after == db
      case None =>
        && reply == (if Called(db, env.followUpWorthy) == InterviewEnds then InterviewOver else Asked(|db.questions|))
        && RowsFollow(db, Called(db, env.followUpWorthy), after)
  {
    hide Threaded, RowsAgree, EarlierAnswered, DifficultyFolds, RunGraph, StoreTurn, FinishTurn, RowsFollow, Called,
         RoundsFit, StoresVerdict, Adapted, GraphObstacle, StoreObstacle, CanBeStored, Storable;
    assert AnswerOf(db.answers, q).Some?;
    GraphRefuses(db, q, env);
    if GraphObstacle(db, env).Some? {
      GraphFails(db, q, env);
    } else if CanBeStored(env.scores) {
      StorableExactlyWhen(env.scores);
      StoredExactlyWhen(db, q, env);
      if StoreObstacle(db, env).None? {
        TurnDecidedByRows(db, q, env);
      }
    } else {
      Unstorable(db, q, env);
    }
  }

  lemma {:induction false} GraphFails(db: Db, q: nat, env: Env)
    requires Inv(db) && db.session.status == InProgress && db.session.currentQuestion == Some(q) && AnswerOf(db.answers, q).Some?
    requires RunGraph(TurnInput(db, db.session, ActiveRound(db), q), env).Failure?
    ensures FinishTurn(db, db.session, q, env) == (db, Refused(RunGraph(TurnInput(db, db.session, ActiveRound(db), q), env).error))
  {
    hide Threaded, RowsAgree, EarlierAnswered, DifficultyFolds, RunGraph, RoundsFit;
    RoundNumber(db.rounds, db.session.currentRound);
  }

  lemma {:induction false} Unstorable(db: Db, q: nat, env: Env)
    requires Inv(db) && db.session.status == InProgress && db.session.currentQuestion == Some(q) && AnswerOf(db.answers, q).Some?
    requires RunGraph(TurnInput(db, db.session, ActiveRound(db), q), env).Success? && !CanBeStored(env.scores)
    ensures FinishTurn(db, db.session, q, env) == (db, Refused(NumericOutOfRange))
    ensures StoreObstacle(db, env) == Some(NumericOutOfRange)
  {
    hide Threaded, RowsAgree, EarlierAnswered, DifficultyFolds, RunGraph, RoundsFit, Ends, Storable, CanBeStored;
    StorableExactlyWhen(env.scores);
    RoundNumber(db.rounds, db.session.currentRound);
    TurnShape(db, q, env, TurnEvaluation(db, q, env));
  }

  /** Every other request gets an answer that moves nothing: an unknown question, an interview that is not running, or a
      question that is no longer open, whose evaluation is then replayed if it has one. */
  lemma {:induction false} LateRequestIsAnswered(db: Db, view: Session, q: nat, env: Env)
    requires Unique(db)
    ensures var reply := FinishTurn(db, view, q, env).1;
      && (reply == Refused(QuestionNotFound) <==> q >= |db.questions|)
      && (reply == Refused(NotInProgress) <==> q < |db.questions| && Answered(db, q) && view.status != InProgress)
      && (reply.Replayed? <==> q < |db.questions| && Replayable(db, q) && view.status == InProgress && view.currentQuestion != Some(q))
      && (reply.Replayed? ==> IsAbout(db, q, reply.evaluation))
      && (reply == Refused(StaleQuestion) <==>
            && q < |db.questions|
            && (!Answered(db, q) || (view.status == InProgress && view.currentQuestion != Some(q) && !Replayable(db, q))))
  {
    hide RunGraph, ApplyTransition, Unique, Answered, IsAbout;
    FoundRows(db, q);
    if q < |db.questions| && RoundBySequence(db.rounds, view.currentRound).Some? {
      var r := RoundBySequence(db.rounds, view.currentRound).value;
      var outcome := RunGraph(TurnInput(db, view, r, q), env);
      GraphCodes(TurnInput(db, view, r, q), env);
      if outcome.Success? && AnswerOf(db.answers, q).Some? {
        StoreCodes(db, view, r, AnswerOf(db.answers, q).value, outcome, env);
      }
    }
  }

  const Early: set<ErrorCode> := {QuestionNotFound, NotInProgress, StaleQuestion, AlreadyStarted, EmptyRoundPlan}

  lemma {:induction false} GraphCodes(s: TurnState, env: Env)
    ensures RunGraph(s, env).Failure? ==> RunGraph(s, env).error !in Early
  {
    hide AddScores, SelectCodingProblem, RootsAsked, ComputeDifficultySignal, ApplyDifficultySignal, QuestionsPerRound;
  }

  lemma {:induction false} StoreCodes(db: Db, view: Session, r: nat, a: nat, outcome: Outcome, env: Env)
    requires r < |db.rounds| && outcome.Success?
    ensures StoreTurn(db, view, r, a, outcome, env).1.Refused? ==> StoreTurn(db, view, r, a, outcome, env).1.code !in Early
    ensures !StoreTurn(db, view, r, a, outcome, env).1.Replayed?
  {}

  // --- Completing a coding round -----------------------------------------------------------------

  lemma {:induction false} TransitionRefuses(db: Db, s: TurnState, env: Env)
    requires Numbered(db.rounds) && Standing(db)
    requires s.roundPlan == RoundPlan(db.rounds) && s.currentRoundIndex == ActiveRound(db) + 1
    ensures var (next, result) := (ActiveRound(db) + 1, TransitionAndAsk(s, env));
      if next == |db.rounds| then result.Success? && result.value.completed
      else NothingToAsk(db.rounds[next].roundType, s.currentDifficulty, env) == if result.Failure? then Some(result.error) else None
  {
    hide OpenQuestion, NothingToAsk, RoundsFit;
    if s.currentRoundIndex < |db.rounds| {
      OpenRefuses(RoundTransition(s).value, env);
    }
  }

  lemma {:induction false} RoundIsFull(db: Db, q: nat)
    requires Numbered(db.rounds) && Threaded(db.rounds, db.questions) && Standing(db)
    requires db.session.currentQuestion == Some(q) && db.questions[q].questionType == CodingTask
    ensures var r := ActiveRound(db);
      db.questions[q].round == r && db.rounds[r].status == Active && Roots(db.questions, r) == Target(db.rounds, r)
  {
    hide Roots, Depth;
    assert AskedInOrder(db.rounds, db.questions, q);
    assert RoundFits(db.rounds, db.questions, ActiveRound(db), ActiveRound(db));
  }

  lemma {:induction false} TransitionFollows(db: Db, s: TurnState, env: Env)
    requires Standing(db) && Ends(db, s) && (s.completed || s.currentRoundIndex == ActiveRound(db) + 2)
    ensures GraphFollows(db, if s.completed then InterviewEnds else NextRoundOpens, s)
    ensures Unaskable(s, env) == if s.completed then None else Withdrawn(db.rounds[ActiveRound(db) + 1].roundType, env)
    ensures s.completed <==> ActiveRound(db) + 1 == |db.rounds|
    ensures !s.completed ==> s.currentQuestion.value.difficulty == db.session.currentDifficulty && s.currentQuestion.value.parent == None
  {
    hide Roots, Depth, RoundsFit;
  }

  /** The job of a graded submission completes the coding round of the open question. It goes on with the next round, at
      the difficulty as it is, or ends the interview; nothing but that round's first question can keep it from doing so. */
  lemma {:induction false} CodingHappensExactlyWhen(db: Db, q: nat, env: Env)
    requires Inv(db) && db.session.status == InProgress && db.session.currentQuestion == Some(q)
    requires db.questions[q].questionType == CodingTask
    ensures Standing(db)
    ensures var (after, reply) := CompleteCodingRound(db, CurrentRead(db, q), q, env);
      var next := ActiveRound(db) + 1;
      if next == |db.rounds| then
        reply == InterviewOver && RowsFollow(db, InterviewEnds, after)
      else
        match Either(NothingToAsk(db.rounds[next].roundType, db.session.currentDifficulty, env), Withdrawn(db.rounds[next].roundType, env))
        case Some(code) => reply == Refused(code) && after == db
        case None =>
          && reply == Asked(|db.questions|) && RowsFollow(db, NextRoundOpens, after)
          && after.questions[|db.questions|].difficulty == after.session.currentDifficulty == db.session.currentDifficulty
          && after.evaluations == db.evaluations && after.answers == db.answers
  {
    hide ApplyTransition, Ends, OpenQuestion, TransitionAndAsk, Roots, Depth, RowsAgree, EarlierAnswered, DifficultyFolds,
         NothingToAsk, GraphFollows, Unaskable, SelectCodingProblem, RoundsFit;
    var r := ActiveRound(db);
    assert AskedInOrder(db.rounds, db.questions, q);
    RoundIsFull(db, q);
    var input := InitialState(db, CodingRoundComplete, r, db.session.currentDifficulty);
    TransitionRefuses(db, input, env);
    if TransitionAndAsk(input, env).Success? {
      var s := TransitionAndAsk(input, env).value;
      TransitionShape(db, input, env);
      TransitionFollows(db, s, env);
      TailRefuses(db, db.session, s, env);
      if ApplyTransition(db, db.session, r, s, env).Success? {
        TailFollows(db, db.session, if s.completed then InterviewEnds else NextRoundOpens, s, env);
        TailAsks(db, db.session, r, s, env);
      }
    }
  }

  /** What the job is told when there is nothing to complete, by what it holds of the rows. */
  lemma {:induction false} LateJobIsAnswered(db: Db, read: CodingRead, q: nat, env: Env)
    ensures var reply := CompleteCodingRound(db, read, q, env).1;
      var known := q < |db.questions| && db.questions[q].round < |db.rounds|;
      && (reply == Refused(QuestionNotFound) <==> !known)
      && (reply == RoundAlreadyOver <==> known && read.roundStatus == Completed)
      && (reply == Refused(NotInProgress) <==> known && read.roundStatus != Completed && read.session.status != InProgress)
      && (reply == Refused(StaleQuestion) <==>
            known && read.roundStatus != Completed && read.session.status == InProgress && read.session.currentQuestion != Some(q))
  {
    hide RunGraph, ApplyTransition;
    if q < |db.questions| && db.questions[q].round < |db.rounds| {
      var r := db.questions[q].round;
      var input := InitialState(db, CodingRoundComplete, r, read.session.currentDifficulty);
      GraphCodes(input, env);
      if RunGraph(input, env).Success? {
        TailCodes(db, read.session, r, RunGraph(input, env).value, env);
      }
    }
  }

  lemma {:induction false} TailCodes(db: Db, view: Session, r: nat, s: TurnState, env: Env)
    requires r < |db.rounds|
    ensures ApplyTransition(db, view, r, s, env).Failure? ==> ApplyTransition(db, view, r, s, env).error !in Early
  {}

  // --- Starting -----------------------------------------------------------------------------------

  /** Only a planned interview with a round starts. It opens a round with the least sequence number and asks that round's
      first question at the starting difficulty; if there is none to ask, nothing is stored. */
  lemma {:induction false} StartHappensExactlyWhen(db: Db, env: Env) returns (r: nat)
    ensures var (after, reply) := StartInterview(db, env);
      if db.session.status != NotStarted then reply == Refused(AlreadyStarted) && after == db
      else if db.rounds == [] then reply == Refused(EmptyRoundPlan) && after == db
      else
        && r < |db.rounds| && (forall i :: 0 <= i < |db.rounds| ==> db.rounds[r].sequenceNo <= db.rounds[i].sequenceNo)
        && var t := db.rounds[r].roundType;
           match Either(NothingToAsk(t, db.startingDifficulty, env), Withdrawn(t, env))
           case Some(code) => reply == Refused(code) && after == db
           case None =>
             && reply == Asked(|db.questions|) && after.questions == db.questions + [after.questions[|db.questions|]]
             && after.session == Session(InProgress, db.rounds[r].sequenceNo, Some(|db.questions|), db.session.currentDifficulty)
             && after == db.(session := after.session, questions := after.questions,
                             rounds := db.rounds[r := db.rounds[r].(status := Active)])
             && Begins(after.questions[|db.questions|], r, t, db.startingDifficulty)
  {
    hide OpenQuestion, NothingToAsk;
    r := 0;
    if db.session.status == NotStarted && db.rounds != [] {
      r := RoundBySequence(db.rounds, FirstSequence(db.rounds)).value;
      var input := InitialState(db, StartTrigger, r, db.startingDifficulty).(interviewScores := ComputeInterviewScores([]));
      assert RunGraph(input, env) == OpenQuestion(input, env);
      OpenRefuses(input, env);
      if OpenQuestion(input, env).Success? {
        OpenQuestionShape(input, env);
      }
    }
  }

  /** A first question of round `r`: a catalog problem in a coding round, a design task in a system-design round. */
  predicate Begins(q: Question, r: nat, t: RoundType, difficulty: DifficultyLevel) {
    && q.round == r && q.difficulty == difficulty && q.parent == None
    && (q.questionType == CodingTask <==> t == Coding) && (q.questionType == DesignTask <==> t == SystemDesign)
    && (q.problem.Some? <==> t == Coding)
  }
}
