/** The stored rows of one interview and what each service call does to them. A call either commits the
    whole new state or leaves every row as it was; ids are insertion positions, so they are never reused. */
module Execution {
  import opened Domain
  import opened TurnGraph
  import opened Rounding
  import FollowUps

  datatype Round = Round(sequenceNo: int, roundType: RoundType, status: RoundStatus)

  /** `round` is the position of the owning round row. */
  datatype Question = Question(
    round: nat,
    difficulty: DifficultyLevel,
    questionType: QuestionType,
    parent: Option<nat>,
    problem: Option<nat>)

  /** A coding question's answer row carries no text. */
  datatype Answer = Answer(question: nat, text: Option<string>)

  datatype Evaluation = Evaluation(answer: nat, scores: Scores, signal: DifficultySignal)

  /** The mutable columns of the session row; also what one read of that row returns. */
  datatype Session = Session(
    status: SessionStatus,
    currentRound: int,
    currentQuestion: Option<nat>,
    currentDifficulty: DifficultyLevel)

  datatype Db = Db(
    session: Session,
    startingDifficulty: DifficultyLevel,
    roleKey: Option<string>,
    rounds: seq<Round>,
    questions: seq<Question>,
    answers: seq<Answer>,
    evaluations: seq<Evaluation>)

  datatype Reply =
    | AnswerStored(answer: nat)
    | Asked(question: nat)
    | InterviewOver
    | Replayed(evaluation: nat)
    | RoundAlreadyOver
    | Left
    | Refused(code: ErrorCode)

  /** The replies of a call that moved the interview on. */
  predicate Committed(reply: Reply) { reply.Asked? || reply.InterviewOver? }

  // --- Queries -------------------------------------------------------------------

  function RoundBySequence(rounds: seq<Round>, sequenceNo: int): (r: Option<nat>)
    ensures r.Some? ==> r.value < |rounds| && rounds[r.value].sequenceNo == sequenceNo
    ensures r.None? ==> forall i :: 0 <= i < |rounds| ==> rounds[i].sequenceNo != sequenceNo
  {
    if rounds == [] then None
    else if rounds[|rounds| - 1].sequenceNo == sequenceNo then Some(|rounds| - 1)
    else RoundBySequence(rounds[..|rounds| - 1], sequenceNo)
  }

  function AnswerOf(answers: seq<Answer>, question: nat): (a: Option<nat>)
    ensures a.Some? ==> a.value < |answers| && answers[a.value].question == question
    ensures a.None? ==> forall i :: 0 <= i < |answers| ==> answers[i].question != question
  {
    if answers == [] then None
    else if answers[|answers| - 1].question == question then Some(|answers| - 1)
    else AnswerOf(answers[..|answers| - 1], question)
  }

  function EvaluationOf(evaluations: seq<Evaluation>, answer: nat): (e: Option<nat>)
    ensures e.Some? ==> e.value < |evaluations| && evaluations[e.value].answer == answer
    ensures e.None? ==> forall i :: 0 <= i < |evaluations| ==> evaluations[i].answer != answer
  {
    if evaluations == [] then None
    else if evaluations[|evaluations| - 1].answer == answer then Some(|evaluations| - 1)
    else EvaluationOf(evaluations[..|evaluations| - 1], answer)
  }

  /** The least sequence number of a non-empty plan. */
  function FirstSequence(rounds: seq<Round>): (m: int)
    requires rounds != []
    ensures forall i :: 0 <= i < |rounds| ==> m <= rounds[i].sequenceNo
    ensures exists i :: 0 <= i < |rounds| && m == rounds[i].sequenceNo
  {
    if |rounds| == 1 then rounds[0].sequenceNo
    else Min(rounds[|rounds| - 1].sequenceNo, FirstSequence(rounds[..|rounds| - 1]))
  }

  function RoundPlan(rounds: seq<Round>): seq<RoundType> { seq(|rounds|, i requires 0 <= i < |rounds| => rounds[i].roundType) }

  function Ref(questions: seq<Question>, q: nat, roundType: RoundType): QuestionRef
    requires q < |questions|
  {
    QuestionRef(Some(q), roundType, questions[q].difficulty, questions[q].parent, questions[q].problem)
  }

  /** The questions of one round, oldest first. */
  function RoundHistory(questions: seq<Question>, r: nat, roundType: RoundType): seq<QuestionRef> {
    if questions == [] then []
    else
      var last := |questions| - 1;
      RoundHistory(questions[..last], r, roundType)
        + (if questions[last].round == r then [Ref(questions, last, roundType)] else [])
  }

  function RoundParents(questions: seq<Question>, r: nat): FollowUps.Parents {
    map q: nat | q < |questions| && questions[q].round == r :: questions[q].parent
  }

  function UsedProblems(questions: seq<Question>): set<nat> {
    set q | 0 <= q < |questions| && questions[q].problem.Some? :: questions[q].problem.value
  }

  function SumOf(evaluations: seq<Evaluation>, dimension: Scores -> real): real {
    if evaluations == [] then 0.0
    else SumOf(evaluations[..|evaluations| - 1], dimension) + dimension(evaluations[|evaluations| - 1].scores)
  }

  function Mean(evaluations: seq<Evaluation>, dimension: Scores -> real): real
    requires evaluations != []
  {
    SumOf(evaluations, dimension) / |evaluations| as real
  }

  function ComputeInterviewScores(evaluations: seq<Evaluation>): RunningScores {
    if evaluations == [] then RunningScores(Scores(0.0, 0.0, 0.0, 0.0), 0)
    else
      RunningScores(
        Scores(
          Mean(evaluations, (s: Scores) => s.technical),
          Mean(evaluations, (s: Scores) => s.problemSolving),
          Mean(evaluations, (s: Scores) => s.communication),
          Mean(evaluations, (s: Scores) => s.confidence)),
        |evaluations|)
  }

  // --- Shared pieces ---------------------------------------------------------------

  function InitialState(db: Db, trigger: Trigger, r: nat, difficulty: DifficultyLevel): TurnState
    requires r < |db.rounds|
  {
    TurnState(
      trigger, db.roleKey, RoundPlan(db.rounds), db.rounds[r].roundType, db.rounds[r].sequenceNo,
      None, difficulty, None, [], 0, ComputeInterviewScores(db.evaluations), None, false,
      UsedProblems(db.questions), None, false)
  }

  function NewQuestion(ref: QuestionRef, r: nat, env: Env): Result<Question, ErrorCode> {
    if ref.roundType == Coding then
      if ref.problem.None? then Failure(CodingProblemIdMissing)
      else if !env.stillActive then Failure(ProblemNotFound)
      else Success(Question(r, ref.difficulty, CodingTask, None, ref.problem))
    else
      Success(Question(r, ref.difficulty, if ref.roundType == SystemDesign then DesignTask else Open, ref.parent, None))
  }

  function Mark(rounds: seq<Round>, r: nat, status: RoundStatus): (s: seq<Round>)
    requires r < |rounds|
    ensures |s| == |rounds|
  {
    rounds[r := rounds[r].(status := status)]
  }

  /** An assignment reaches the row only when it changes the value that was loaded. */
  function WriteBack<T(==)>(loaded: T, wanted: T, stored: T): T { if wanted == loaded then stored else wanted }

  /** The tail shared by every call that can advance a round. */
  function ApplyTransition(db: Db, view: Session, r: nat, s: TurnState, env: Env)
    : (done: Result<(Db, Reply), ErrorCode>)
    requires r < |db.rounds|
    ensures done.Success? ==>
              Committed(done.value.1) && done.value.0.evaluations == db.evaluations && done.value.0.answers == db.answers
  {
    var changed := s.currentRoundIndex != db.rounds[r].sequenceNo;
    var rounds := if changed || s.completed then Mark(db.rounds, r, Completed) else db.rounds;
    if s.completed then
      var session := db.session.(
        status := WriteBack(view.status, Finished, db.session.status),
        currentQuestion := WriteBack(view.currentQuestion, None, db.session.currentQuestion),
        currentRound := WriteBack(view.currentRound, s.currentRoundIndex, db.session.currentRound));
      Success((db.(session := session, rounds := rounds), InterviewOver))
    else
      match if changed then RoundBySequence(rounds, s.currentRoundIndex) else Some(r)
      case None => Failure(RoundNotFound)
      case Some(target) =>
        if s.currentQuestion.None? then Failure(MissingEvaluation) else
        match NewQuestion(s.currentQuestion.value, target, env)
        case Failure(e) => Failure(e)
        case Success(question) =>
          var session := db.session.(
            currentRound := if changed then WriteBack(view.currentRound, s.currentRoundIndex, db.session.currentRound)
                            else db.session.currentRound,
            currentQuestion := Some(|db.questions|));
          Success((db.(session := session,
                       rounds := if changed then Mark(rounds, target, Active) else rounds,
                       questions := db.questions + [question]),
                   Asked(|db.questions|)))
  }

  // --- Service calls -----------------------------------------------------------------

  function StartInterview(db: Db, env: Env): (done: (Db, Reply))
    ensures !Committed(done.1) ==> done.0 == db
    ensures Committed(done.1) ==> done.0.evaluations == db.evaluations && done.0.answers == db.answers
  {
    if db.session.status != NotStarted then (db, Refused(AlreadyStarted))
    else if db.rounds == [] then (db, Refused(EmptyRoundPlan))
    else
      var first := FirstSequence(db.rounds);
      match RoundBySequence(db.rounds, first)
      case None => (db, Refused(RoundNotFound))
      case Some(r) =>
        match RunGraph(InitialState(db, StartTrigger, r, db.startingDifficulty).(interviewScores := ComputeInterviewScores([])), env)
        case Failure(e) => (db, Refused(e))
        case Success(s) =>
          if s.currentQuestion.None? then (db, Refused(MissingEvaluation)) else
          match NewQuestion(s.currentQuestion.value, r, env)
          case Failure(e) => (db, Refused(e))
          case Success(question) =>
            (db.(session := db.session.(status := InProgress, currentRound := first, currentQuestion := Some(|db.questions|)),
                 rounds := Mark(db.rounds, r, Active),
                 questions := db.questions + [question]),
             Asked(|db.questions|))
  }

  /** Phase one of submitting an answer. `missed` says that the answer row was inserted by a coding request
      after this request had looked for it. */
  function SaveAnswer(db: Db, q: nat, text: string, missed: bool): (Db, Reply) {
    if q >= |db.questions| then (db, Refused(QuestionNotFound)) else
    var stored := AnswerOf(db.answers, q);
    var seen := if missed then None else stored;
    var evaluated := if seen.Some? then EvaluationOf(db.evaluations, seen.value) else None;
    if evaluated.Some? then (db, Replayed(evaluated.value))
    else if db.session.status != InProgress then (db, Refused(NotInProgress))
    else if db.session.currentQuestion != Some(q) then (db, Refused(StaleQuestion))
    else if seen.Some? then (db, AnswerStored(seen.value))
    else if stored.Some? then (db, Refused(DuplicateRow))
    else (db.(answers := db.answers + [Answer(q, Some(text))]), AnswerStored(|db.answers|))
  }

  /** The state phase two hands to the graph, rebuilt from rows. */
  function TurnInput(db: Db, view: Session, r: nat, q: nat): TurnState
    requires r < |db.rounds| && q < |db.questions|
  {
    var roundType := db.rounds[r].roundType;
    InitialState(db, SubmitAnswer, r, view.currentDifficulty).(
      lastQuestion := Some(Ref(db.questions, q, roundType)),
      questionHistory := RoundHistory(db.questions, r, roundType),
      followUpCount := FollowUps.CountFollowUps(RoundParents(db.questions, r), q))
  }

  predicate Storable(scores: Scores) {
    FitsColumn(scores.technical) && FitsColumn(scores.problemSolving)
    && FitsColumn(scores.communication) && FitsColumn(scores.confidence)
  }

  function ToColumns(scores: Scores): Scores {
    Scores(Column(scores.technical), Column(scores.problemSolving), Column(scores.communication), Column(scores.confidence))
  }

  /** One evaluation row, for answer `a`, has been added. */
  predicate AddsEvaluation(db: Db, after: Db, a: nat) {
    && |after.evaluations| == |db.evaluations| + 1
    && after.evaluations[..|db.evaluations|] == db.evaluations
    && after.evaluations[|db.evaluations|].answer == a
    && after.answers == db.answers
  }

  /** The one transaction that stores a turn: the evaluation row, the adapted difficulty, the transition. */
  function StoreTurn(db: Db, view: Session, r: nat, a: nat, outcome: Outcome, env: Env): (done: (Db, Reply))
    requires r < |db.rounds|
    ensures !Committed(done.1) ==> done.0 == db
    ensures Committed(done.1) ==> EvaluationOf(db.evaluations, a).None? && AddsEvaluation(db, done.0, a)
  {
    match outcome
    case Failure(e) => (db, Refused(e))
    case Success(s) =>
      if s.evaluation.None? then (db, Refused(MissingEvaluation))
      else if !Storable(s.evaluation.value.0) then (db, Refused(NumericOutOfRange))
      else if EvaluationOf(db.evaluations, a).Some? then (db, Refused(DuplicateRow))
      else
        var row := Evaluation(a, ToColumns(s.evaluation.value.0), s.evaluation.value.1);
        var evaluated := db.(
          evaluations := db.evaluations + [row],
          session := db.session.(currentDifficulty :=
            WriteBack(view.currentDifficulty, s.currentDifficulty, db.session.currentDifficulty)));
        StoreTransition(db, evaluated, view, r, s, env)
  }

  /** A transition that fails takes everything stored before it in the same transaction back with it. */
  function StoreTransition(db: Db, pending: Db, view: Session, r: nat, s: TurnState, env: Env): (done: (Db, Reply))
    requires r < |pending.rounds|
    ensures !Committed(done.1) ==> done.0 == db
    ensures Committed(done.1) ==> done.0.evaluations == pending.evaluations && done.0.answers == pending.answers
  {
    match ApplyTransition(pending, view, r, s, env)
    case Failure(e) => (db, Refused(e))
    case Success(done) => done
  }

  /** Phase two, after phase one stored or found the answer row. `view` is what the re-read of the session
      row returned: the committed row, or an older copy of it. */
  function FinishTurn(db: Db, view: Session, q: nat, env: Env): (done: (Db, Reply))
    ensures !Committed(done.1) ==> done.0 == db
    ensures Committed(done.1) ==>
              && view.status == InProgress && view.currentQuestion == Some(q) && AnswerOf(db.answers, q).Some?
              && EvaluationOf(db.evaluations, AnswerOf(db.answers, q).value).None?
              && AddsEvaluation(db, done.0, AnswerOf(db.answers, q).value)
  {
    if q >= |db.questions| then (db, Refused(QuestionNotFound)) else
    match AnswerOf(db.answers, q)
    case None => (db, Refused(StaleQuestion))
    case Some(a) =>
      var existing := EvaluationOf(db.evaluations, a);
      if view.status != InProgress then (db, Refused(NotInProgress))
      else if view.currentQuestion != Some(q) then
        (db, if existing.Some? then Replayed(existing.value) else Refused(StaleQuestion))
      else
        match RoundBySequence(db.rounds, view.currentRound)
        case None => (db, Refused(RoundNotFound))
        case Some(r) => StoreTurn(db, view, r, a, RunGraph(TurnInput(db, view, r, q), env), env)
  }

  /** A coding request makes sure its question has an answer row. */
  function OpenCodingAnswer(db: Db, q: nat): (Db, Reply) {
    if q >= |db.questions| || db.questions[q].questionType != CodingTask then (db, Refused(QuestionNotFound))
    else
      match AnswerOf(db.answers, q)
      case Some(a) => (db, AnswerStored(a))
      case None => (db.(answers := db.answers + [Answer(q, None)]), AnswerStored(|db.answers|))
  }

  /** What a grading job reads before it completes a coding round: the session row and the round's status. */
  datatype CodingRead = CodingRead(session: Session, roundStatus: RoundStatus)

  /** The committed values of that read. */
  function CurrentRead(db: Db, q: nat): CodingRead {
    CodingRead(db.session,
               if q < |db.questions| && db.questions[q].round < |db.rounds| then db.rounds[db.questions[q].round].status
               else Pending)
  }

  /** `read` is what the job's session object and round object hold: the committed values, or older copies that
      were loaded before the job got the row lock. */
  function CompleteCodingRound(db: Db, read: CodingRead, q: nat, env: Env): (done: (Db, Reply))
    ensures !Committed(done.1) ==> done.0 == db
    ensures Committed(done.1) ==>
              && read.session.status == InProgress && read.session.currentQuestion == Some(q) && q < |db.questions|
              && done.0.evaluations == db.evaluations && done.0.answers == db.answers
  {
    if q >= |db.questions| || db.questions[q].round >= |db.rounds| then (db, Refused(QuestionNotFound)) else
    var r := db.questions[q].round;
    if read.roundStatus == Completed then (db, RoundAlreadyOver)
    else if read.session.status != InProgress then (db, Refused(NotInProgress))
    else if read.session.currentQuestion != Some(q) then (db, Refused(StaleQuestion))
    else
      match RunGraph(InitialState(db, CodingRoundComplete, r, read.session.currentDifficulty), env)
      case Failure(e) => (db, Refused(e))
      case Success(s) => StoreTransition(db, db, read.session, r, s, env)
  }

  function Abandon(db: Db): (Db, Reply) {
    if db.session.status != NotStarted && db.session.status != InProgress then (db, Refused(InvalidTransition))
    else (db.(session := db.session.(status := Abandoned)), Left)
  }
}
