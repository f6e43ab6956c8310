/** What one answered question leads to, said about the stored rows alone. */
module Decisions {
  import opened Domain
  import opened Policy
  import opened TurnGraph
  import opened Execution
  import opened Invariant
  import opened Steps
  import opened Outcomes
  import FollowUps

  datatype Decision = Deepen | SameRound | NextRoundOpens | InterviewEnds

  /** The decision as the rows call for it: the true number of follow-ups under the open question's root and the
      true number of root questions of the active round. */
  ghost function Called(db: Db, worthy: bool): Decision
    requires Standing(db)
  {
    var r := ActiveRound(db);
    if worthy && Depth(db.questions, |db.questions| - 1) < 2 then Deepen
    else if Roots(db.questions, r) < Target(db.rounds, r) then SameRound
    else if r + 1 < |db.rounds| then NextRoundOpens
    else InterviewEnds
  }

  ghost predicate GraphFollows(db: Db, d: Decision, s: TurnState)
    requires Standing(db)
  {
    var r := ActiveRound(db);
    match d
    case Deepen =>
      !s.completed && s.currentRoundIndex == r + 1
      && s.currentQuestion.Some? && s.currentQuestion.value.parent == Some(|db.questions| - 1)
    case SameRound =>
      !s.completed && s.currentRoundIndex == r + 1 && s.currentQuestion.Some? && s.currentQuestion.value.parent == None
    case NextRoundOpens =>
      !s.completed && s.currentRoundIndex == r + 2 && s.currentQuestion.Some? && s.currentQuestion.value.parent == None
    case InterviewEnds => s.completed
  }

  lemma {:induction false} GraphDecides(db: Db, q: nat, env: Env)
    requires Numbered(db.rounds) && Threaded(db.rounds, db.questions)
    requires Standing(db) && db.session.currentQuestion == Some(q)
    requires RunGraph(TurnInput(db, db.session, ActiveRound(db), q), env).Success?
    ensures GraphFollows(db, Called(db, env.followUpWorthy), RunGraph(TurnInput(db, db.session, ActiveRound(db), q), env).value)
  {
    hide Threaded, RowsAgree, Roots, Depth, OpenQuestion, DecideNextAction, AdaptDifficulty, RoundHistory, UsedProblems,
         ComputeInterviewScores, FollowUps.CountFollowUps;
    var decided := DecideNextAction(AdaptDifficulty(TurnInput(db, db.session, ActiveRound(db), q), env));
    DecidedFromRows(db, q, env);
    assert RoundFits(db.rounds, db.questions, ActiveRound(db), ActiveRound(db));
    if decided.nextAction == Some(NextRound) && RoundTransition(decided).Success?
       && OpenQuestion(RoundTransition(decided).value, env).Success? {
      OpenQuestionShape(RoundTransition(decided).value, env);
    }
  }

  ghost predicate RowsFollow(db: Db, d: Decision, after: Db)
    requires Standing(db)
  {
    var r := ActiveRound(db);
    match d
    case Deepen => AsksInRound(db, after, r, Some(|db.questions| - 1)) && after.rounds == db.rounds
    case SameRound => AsksInRound(db, after, r, None) && after.rounds == db.rounds
    case NextRoundOpens =>
      r + 1 < |db.rounds| && AsksInRound(db, after, r + 1, None)
      && after.rounds == Advanced(db)
    case InterviewEnds =>
      after.session.status == Finished && after.session.currentQuestion == None && after.questions == db.questions
      && after.rounds == Mark(db.rounds, r, Completed)
  }

  /** One question is added, in round `r`, and it is the open one. */
  predicate AsksInRound(db: Db, after: Db, r: nat, parent: Option<nat>) {
    && after.session.status == InProgress && after.session.currentQuestion == Some(|db.questions|)
    && |after.questions| == |db.questions| + 1 && after.questions[..|db.questions|] == db.questions
    && after.questions[|db.questions|].round == r && after.questions[|db.questions|].parent == parent
  }

  lemma {:induction false} TailFollows(db: Db, view: Session, d: Decision, s: TurnState, env: Env)
    requires Numbered(db.rounds) && Standing(db) && SeesSession(db, view) && db.session.status == InProgress
    requires GraphFollows(db, d, s) && (d == NextRoundOpens ==> ActiveRound(db) + 1 < |db.rounds|)
    requires ApplyTransition(db, view, ActiveRound(db), s, env).Success?
    requires !s.completed && s.currentQuestion.value.roundType == Coding ==> s.currentQuestion.value.parent == None
    ensures RowsFollow(db, d, ApplyTransition(db, view, ActiveRound(db), s, env).value.0)
  {
    hide RoundsFit;
    var marked := Mark(db.rounds, ActiveRound(db), Completed);
    assert Numbered(marked);
    RoundNumber(marked, s.currentRoundIndex);
  }

  /** Every committed turn stores the evaluator's scores with the signal they give, adapts the difficulty by it, and
      goes on as the rows call for: a follow-up exactly when the answer deserves one and the thread has room,
      another root question exactly when the round is not full, the next round exactly when it is and there is
      one, and the end otherwise. */
  lemma {:induction false} TurnDecidedByRows(db: Db, q: nat, env: Env)
    requires Inv(db) && Committed(FinishTurn(db, db.session, q, env).1)
    ensures Standing(db) && AnswerOf(db.answers, q).Some?
    ensures var after := FinishTurn(db, db.session, q, env).0;
      && StoresVerdict(db, after, q, env.scores)
      && after.session.currentDifficulty == Adapted(db.session.currentDifficulty, env.scores.technical + env.scores.problemSolving)
      && RowsFollow(db, Called(db, env.followUpWorthy), after)
  {
    hide Threaded, RowsAgree, EarlierAnswered, DifficultyFolds, RunGraph, ApplyTransition, GraphFollows, RowsFollow, Called,
         Ends, RoundsFit, FinishTurn, IsEvaluated, StoresVerdict, Adapted;
    FreshWriteBack(db, q, env);
    VerdictIsStored(db, db.session, q, env);
    var e := TurnEvaluation(db, q, env);
    var s := RunGraph(TurnInput(db, db.session, ActiveRound(db), q), env).value;
    TurnShape(db, q, env, e);
    GraphDecides(db, q, env);
    EvaluatedFollows(db, e, Called(db, env.followUpWorthy), s, env);
  }

  lemma {:induction false} EvaluatedFollows(db: Db, e: Evaluation, d: Decision, s: TurnState, env: Env)
    requires Numbered(db.rounds) && Standing(db) && db.session.status == InProgress
    requires GraphFollows(db, d, s) && Ends(WithEvaluation(db, e), s)
    requires d == Called(db, s.followUpWorthy)
    requires ApplyTransition(WithEvaluation(db, e), db.session, ActiveRound(db), s, env).Success?
    ensures var after := ApplyTransition(WithEvaluation(db, e), db.session, ActiveRound(db), s, env).value.0;
      && after.evaluations == db.evaluations + [e]
      && after.session.currentDifficulty == ApplyDifficultySignal(db.session.currentDifficulty, e.signal)
      && RowsFollow(db, d, after)
  {
    hide RoundsFit, Roots, Depth, ApplyTransition, RowsFollow, GraphFollows, Ends, Called;
    var pending := WithEvaluation(db, e);
    CodingHasNoParent(pending, db.session, s, env);
    CalledFits(db, s.followUpWorthy);
    SameRowsFollow(db, e, d, s);
    TailFollows(pending, db.session, d, s, env);
    TailKeepsDifficulty(pending, db.session, ActiveRound(db), s, env);
    SameRowsFollowed(db, e, d, ApplyTransition(pending, db.session, ActiveRound(db), s, env).value.0);
  }

  lemma {:induction false} CalledFits(db: Db, worthy: bool)
    requires Standing(db)
    ensures Called(db, worthy) == NextRoundOpens ==> ActiveRound(db) + 1 < |db.rounds|
  {}

  lemma {:induction false} SameRowsFollow(db: Db, e: Evaluation, d: Decision, s: TurnState)
    requires Standing(db)
    ensures Standing(WithEvaluation(db, e)) && (GraphFollows(db, d, s) ==> GraphFollows(WithEvaluation(db, e), d, s))
  {}

  lemma {:induction false} SameRowsFollowed(db: Db, e: Evaluation, d: Decision, after: Db)
    requires Standing(db) && Standing(WithEvaluation(db, e)) && RowsFollow(WithEvaluation(db, e), d, after)
    ensures RowsFollow(db, d, after)
  {}

  lemma {:induction false} TailKeepsDifficulty(db: Db, view: Session, r: nat, s: TurnState, env: Env)
    requires r < |db.rounds| && ApplyTransition(db, view, r, s, env).Success?
    ensures ApplyTransition(db, view, r, s, env).value.0.session.currentDifficulty == db.session.currentDifficulty
  {}

  lemma {:induction false} CodingHasNoParent(db: Db, view: Session, s: TurnState, env: Env)
    requires Standing(db) && ApplyTransition(db, view, ActiveRound(db), s, env).Success? && Ends(db, s)
    ensures !s.completed ==> s.currentQuestion.Some? && (s.currentQuestion.value.roundType == Coding ==> s.currentQuestion.value.parent == None)
  {
    hide RoundsFit, Roots, Depth;
  }
}
