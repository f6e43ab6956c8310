/** The interview execution service as it works: statements that assign columns and add rows inside one
    transaction, with a rollback on every error. Each call is proved to do what module Execution says. */
module ExecutionService {
  import opened Domain
  import opened TurnGraph
  import opened Execution
  import FollowUps
  import Spec = Execution

  class InterviewExecutionService {
    var status: SessionStatus
    var currentRound: int
    var currentQuestion: Option<nat>
    var currentDifficulty: DifficultyLevel
    const startingDifficulty: DifficultyLevel
    const roleKey: Option<string>
    var rounds: seq<Round>
    var questions: seq<Question>
    var answers: seq<Answer>
    var evaluations: seq<Evaluation>

    constructor (plan: Db)
      ensures Rows() == plan
    {
      status, currentRound := plan.session.status, plan.session.currentRound;
      currentQuestion, currentDifficulty := plan.session.currentQuestion, plan.session.currentDifficulty;
      startingDifficulty, roleKey := plan.startingDifficulty, plan.roleKey;
      rounds, questions, answers, evaluations := plan.rounds, plan.questions, plan.answers, plan.evaluations;
    }

    function Row(): Session
      reads this
    {
      Session(status, currentRound, currentQuestion, currentDifficulty)
    }

    function Rows(): Db
      reads this
    {
      Db(Row(), startingDifficulty, roleKey, rounds, questions, answers, evaluations)
    }

    method Rollback(saved: Db)
      requires saved.startingDifficulty == startingDifficulty && saved.roleKey == roleKey
      modifies this
      ensures Rows() == saved
    {
      status, currentRound := saved.session.status, saved.session.currentRound;
      currentQuestion, currentDifficulty := saved.session.currentQuestion, saved.session.currentDifficulty;
      rounds, questions, answers, evaluations := saved.rounds, saved.questions, saved.answers, saved.evaluations;
    }

    method MarkStatus(r: nat, status: RoundStatus)
      requires r < |rounds|
      modifies this`rounds
      ensures rounds == Mark(old(rounds), r, status)
    {
      rounds := rounds[r := rounds[r].(status := status)];
    }

    method PersistQuestion(ref: QuestionRef, r: nat, env: Env) returns (stored: Result<nat, ErrorCode>)
      modifies this`questions
      ensures match NewQuestion(ref, r, env)
              case Failure(e) => stored == Failure(e) && questions == old(questions)
              case Success(q) => stored == Success(|old(questions)|) && questions == old(questions) + [q]
    {
      if ref.roundType == Coding {
        if ref.problem.None? {
          return Failure(CodingProblemIdMissing);
        }
        if !env.stillActive {
          return Failure(ProblemNotFound);
        }
        questions := questions + [Question(r, ref.difficulty, CodingTask, None, ref.problem)];
      } else {
        var questionType := if ref.roundType == SystemDesign then DesignTask else Open;
        questions := questions + [Question(r, ref.difficulty, questionType, ref.parent, None)];
      }
      return Success(|questions| - 1);
    }

    method StartInterview(env: Env) returns (reply: Reply)
      modifies this
      ensures (Rows(), reply) == Spec.StartInterview(old(Rows()), env)
    {
      hide RunGraph, ComputeInterviewScores, UsedProblems, RoundPlan, NewQuestion;
      var saved := Rows();
      if status != NotStarted {
        return Refused(AlreadyStarted);
      }
      if rounds == [] {
        return Refused(EmptyRoundPlan);
      }
      var first := FirstSequence(rounds);
      var r := RoundBySequence(rounds, first);
      if r.None? {
        return Refused(RoundNotFound);
      }
      var state := InitialState(Rows(), StartTrigger, r.value, startingDifficulty).(interviewScores := ComputeInterviewScores([]));
      var result := RunGraph(state, env);
      if result.Failure? {
        return Refused(result.error);
      }
      MarkStatus(r.value, Active);
      if result.value.currentQuestion.None? {
        Rollback(saved);
        return Refused(MissingEvaluation);
      }
      var question := PersistQuestion(result.value.currentQuestion.value, r.value, env);
      if question.Failure? {
        Rollback(saved);
        return Refused(question.error);
      }
      status := InProgress;
      currentRound := first;
      currentQuestion := Some(question.value);
      return Asked(question.value);
    }

    method SaveAnswer(q: nat, text: string, missed: bool) returns (reply: Reply)
      modifies this`answers
      ensures (Rows(), reply) == Spec.SaveAnswer(old(Rows()), q, text, missed)
    {
      if q >= |questions| {
        return Refused(QuestionNotFound);
      }
      var answer := if missed then None else AnswerOf(answers, q);
      if answer.Some? {
        var existing := EvaluationOf(evaluations, answer.value);
        if existing.Some? {
          return Replayed(existing.value);
        }
      }
      if status != InProgress {
        return Refused(NotInProgress);
      }
      if currentQuestion != Some(q) {
        return Refused(StaleQuestion);
      }
      if answer.None? {
        if AnswerOf(answers, q).Some? {
          return Refused(DuplicateRow);
        }
        answers := answers + [Answer(q, Some(text))];
        answer := Some(|answers| - 1);
      }
      return AnswerStored(answer.value);
    }

    /** `loaded` holds the session columns as this request read them; only columns it changes are written. */
    method ApplyRoundTransitionResult(result: TurnState, r: nat, loaded: Session, env: Env) returns (done: Result<Reply, ErrorCode>)
      requires r < |rounds|
      modifies this
      ensures match ApplyTransition(old(Rows()), loaded, r, result, env)
              case Failure(e) => done == Failure(e)
              case Success((db, reply)) => done == Success(reply) && Rows() == db
    {
      var roundChanged := result.currentRoundIndex != rounds[r].sequenceNo;
      if roundChanged || result.completed {
        MarkStatus(r, Completed);
      }
      if result.completed {
        status := WriteBack(loaded.status, Finished, status);
        currentQuestion := WriteBack(loaded.currentQuestion, None, currentQuestion);
        currentRound := WriteBack(loaded.currentRound, result.currentRoundIndex, currentRound);
        return Success(InterviewOver);
      }
      var target := r;
      if roundChanged {
        var found := RoundBySequence(rounds, result.currentRoundIndex);
        if found.None? {
          return Failure(RoundNotFound);
        }
        target := found.value;
        MarkStatus(target, Active);
        currentRound := WriteBack(loaded.currentRound, result.currentRoundIndex, currentRound);
      }
      if result.currentQuestion.None? {
        return Failure(MissingEvaluation);
      }
      var question := PersistQuestion(result.currentQuestion.value, target, env);
      if question.Failure? {
        return Failure(question.error);
      }
      currentQuestion := Some(question.value);
      return Success(Asked(question.value));
    }

    method FinishTurn(loaded: Session, q: nat, env: Env) returns (reply: Reply)
      modifies this
      ensures (Rows(), reply) == Spec.FinishTurn(old(Rows()), loaded, q, env)
    {
      var saved := Rows();
      if q >= |questions| {
        return Refused(QuestionNotFound);
      }
      var answer := AnswerOf(answers, q);
      if answer.None? {
        return Refused(StaleQuestion);
      }
      var existing := EvaluationOf(evaluations, answer.value);
      if loaded.status != InProgress {
        return Refused(NotInProgress);
      }
      if loaded.currentQuestion != Some(q) {
        if existing.Some? {
          return Replayed(existing.value);
        }
        return Refused(StaleQuestion);
      }
      var r := RoundBySequence(rounds, loaded.currentRound);
      if r.None? {
        return Refused(RoundNotFound);
      }
      var followUpCount := FollowUps.CountForRoot(RoundParents(questions, r.value), q);
      var roundType := rounds[r.value].roundType;
      var state := InitialState(saved, SubmitAnswer, r.value, loaded.currentDifficulty).(
        lastQuestion := Some(Ref(questions, q, roundType)),
        questionHistory := RoundHistory(questions, r.value, roundType),
        followUpCount := followUpCount);
      assert state == TurnInput(saved, loaded, r.value, q);
      var outcome := RunGraph(state, env);
      reply := StoreTurn(loaded, r.value, answer.value, outcome, env);
    }

    method StoreTurn(loaded: Session, r: nat, a: nat, outcome: Outcome, env: Env) returns (reply: Reply)
      requires r < |rounds|
      modifies this
      ensures (Rows(), reply) == Spec.StoreTurn(old(Rows()), loaded, r, a, outcome, env)
    {
      var saved := Rows();
      if outcome.Failure? {
        return Refused(outcome.error);
      }
      var result := outcome.value;
      if result.evaluation.None? {
        return Refused(MissingEvaluation);
      }
      if !Storable(result.evaluation.value.0) {
        return Refused(NumericOutOfRange);
      }
      if EvaluationOf(evaluations, a).Some? {
        return Refused(DuplicateRow);
      }
      evaluations := evaluations + [Evaluation(a, ToColumns(result.evaluation.value.0), result.evaluation.value.1)];
      currentDifficulty := WriteBack(loaded.currentDifficulty, result.currentDifficulty, currentDifficulty);
      var done := ApplyRoundTransitionResult(result, r, loaded, env);
      if done.Failure? {
        Rollback(saved);
        return Refused(done.error);
      }
      return done.value;
    }

    method OpenCodingAnswer(q: nat) returns (reply: Reply)
      modifies this`answers
      ensures (Rows(), reply) == Spec.OpenCodingAnswer(old(Rows()), q)
    {
      if q >= |questions| || questions[q].questionType != CodingTask {
        return Refused(QuestionNotFound);
      }
      var answer := AnswerOf(answers, q);
      if answer.None? {
        answers := answers + [Answer(q, None)];
        answer := Some(|answers| - 1);
      }
      return AnswerStored(answer.value);
    }

    method CompleteCodingRound(loaded: CodingRead, q: nat, env: Env) returns (reply: Reply)
      modifies this
      ensures (Rows(), reply) == Spec.CompleteCodingRound(old(Rows()), loaded, q, env)
    {
      var saved := Rows();
      if q >= |questions| || questions[q].round >= |rounds| {
        return Refused(QuestionNotFound);
      }
      var r := questions[q].round;
      if loaded.roundStatus == Completed {
        return RoundAlreadyOver;
      }
      if loaded.session.status != InProgress {
        return Refused(NotInProgress);
      }
      if loaded.session.currentQuestion != Some(q) {
        return Refused(StaleQuestion);
      }
      var result := RunGraph(InitialState(saved, CodingRoundComplete, r, loaded.session.currentDifficulty), env);
      if result.Failure? {
        return Refused(result.error);
      }
      var done := ApplyRoundTransitionResult(result.value, r, loaded.session, env);
      if done.Failure? {
        Rollback(saved);
        return Refused(done.error);
      }
      return done.value;
    }

    method Abandon() returns (reply: Reply)
      modifies this`status
      ensures (Rows(), reply) == Spec.Abandon(old(Rows()))
    {
      if status != NotStarted && status != InProgress {
        return Refused(InvalidTransition);
      }
      status := Abandoned;
      return Left;
    }
  }
}
