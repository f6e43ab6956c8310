/** What a call answers and which rows it leaves, for every state and every read: the thresholds, the levels and the
    conditions are written out here, apart from the functions that compute with them. */
module Outcomes {
  import opened Domain
  import opened Policy
  import opened Rounding
  import opened TurnGraph
  import opened Execution
  import opened Invariant
  import opened Steps
  import opened Runs
  import opened Interleavings
  import FollowUps

  ghost predicate Answered(db: Db, q: nat) { exists a :: 0 <= a < |db.answers| && db.answers[a].question == q }

  /** Evaluation `e` is about question `q`. */
  ghost predicate IsAbout(db: Db, q: nat, e: nat) {
    e < |db.evaluations| && db.evaluations[e].answer < |db.answers| && db.answers[db.evaluations[e].answer].question == q
  }

  ghost predicate Replayable(db: Db, q: nat) { exists e: nat :: IsAbout(db, q, e) }

  lemma {:induction false} FoundRows(db: Db, q: nat)
    requires Unique(db)
    ensures AnswerOf(db.answers, q).Some? <==> Answered(db, q)
    ensures forall e: nat :: IsAbout(db, q, e) <==>
              AnswerOf(db.answers, q).Some? && EvaluationOf(db.evaluations, AnswerOf(db.answers, q).value) == Some(e)
  {}

  // --- Recording an answer -------------------------------------------------------------------

  /** Phase one adds at most one row, and that row holds the whole text: exactly when the question is the open one of a
      running interview and has no answer yet. Every other submission is answered from the rows as they are. */
  lemma {:induction false} AnswerIsRecorded(db: Db, q: nat, text: string, missed: bool)
    requires Unique(db)
    ensures var (after, reply) := SaveAnswer(db, q, text, missed);
      var open := q < |db.questions| && db.session.status == InProgress && db.session.currentQuestion == Some(q);
      var replay := q < |db.questions| && !missed && Replayable(db, q);
      && after == db.(answers := if open && !Answered(db, q) then db.answers + [Answer(q, Some(text))] else db.answers)
      && (reply.AnswerStored? <==> open && !replay && (missed ==> !Answered(db, q)))
      && (reply.AnswerStored? ==> reply.answer < |after.answers| && after.answers[reply.answer].question == q)
      && (reply.Replayed? <==> replay) && (reply.Replayed? ==> IsAbout(db, q, reply.evaluation))
      && (reply == Refused(QuestionNotFound) <==> q >= |db.questions|)
      && (reply == Refused(NotInProgress) <==> q < |db.questions| && !replay && db.session.status != InProgress)
      && (reply == Refused(StaleQuestion) <==>
            q < |db.questions| && !replay && db.session.status == InProgress && db.session.currentQuestion != Some(q))
      && (reply == Refused(DuplicateRow) <==> open && missed && Answered(db, q))
  {
    hide Unique, Answered, IsAbout;
    FoundRows(db, q);
  }

  /** A coding request leaves its question with an answer row and adds an empty one only where there was none. */
  lemma {:induction false} CodingAnswerIsThere(db: Db, q: nat)
    requires Unique(db)
    ensures var (after, reply) := OpenCodingAnswer(db, q);
      var coding := q < |db.questions| && db.questions[q].questionType == CodingTask;
      && after == db.(answers := if coding && !Answered(db, q) then db.answers + [Answer(q, None)] else db.answers)
      && (if coding then reply.AnswerStored? && reply.answer < |after.answers| && after.answers[reply.answer].question == q
          else reply == Refused(QuestionNotFound))
  {
    hide Unique, Answered, IsAbout;
    FoundRows(db, q);
  }

  /** An interview can be left before it starts and while it runs, and never again after that. */
  lemma {:induction false} LeftOnlyOnce(db: Db)
    ensures var (after, reply) := Execution.Abandon(db);
      if db.session.status in {NotStarted, InProgress} then
        reply == Left && after == db.(session := after.session) && after.session == db.session.(status := Abandoned)
        && Execution.Abandon(after) == (after, Refused(InvalidTransition))
      else reply == Refused(InvalidTransition) && after == db
  {}

  /** The answer rows one step adds. */
  lemma {:induction false} StepAddsAnswer(db: Db, ev: Event)
    requires Unique(db)
    ensures var after := Apply(db, ev).0.answers;
      after == db.answers || (ev.SaveEvent? && after == db.answers + [Answer(ev.question, Some(ev.text))])
      || (ev.CodingAnswerEvent? && after == db.answers + [Answer(ev.question, None)])
  {
    hide StartInterview, FinishTurn, CompleteCodingRound, SaveAnswer, OpenCodingAnswer, Unique;
    match ev
    case SaveEvent(q, text, missed) => AnswerIsRecorded(db, q, text, missed);
    case CodingAnswerEvent(q) => CodingAnswerIsThere(db, q);
    case _ =>
  }

  /** Over every run, whatever is re-read: an answer row holds exactly the text of the submission that created it, which
      found its question open and unanswered; a row without a text was created by a coding request. */
  lemma {:induction false} AnswersAreSubmissions(db: Db, events: seq<Event>, a: nat) returns (i: nat)
    requires Unique(db) && |db.answers| <= a < |Run(db, events).answers|
    ensures i < |events| && |Run(db, events[..i]).answers| == a
    ensures var (row, before) := (Run(db, events).answers[a], Run(db, events[..i]));
      match row.text
      case Some(text) =>
        && events[i].SaveEvent? && events[i].question == row.question && events[i].text == text
        && before.session.status == InProgress && before.session.currentQuestion == Some(row.question)
        && !Answered(before, row.question)
      case None =>
        && events[i] == CodingAnswerEvent(row.question) && row.question < |before.questions|
        && before.questions[row.question].questionType == CodingTask && !Answered(before, row.question)
  {
    hide Apply, Unique, Answered;
    var n := |events| - 1;
    var (before, last) := (events[..n], events[n]);
    RunIsSafe(db, before);
    StepAddsAnswer(Run(db, before), last);
    if a < |Run(db, before).answers| {
      i := AnswersAreSubmissions(db, before, a);
      assert before[..i] == events[..i];
    } else {
      i := n;
      NewAnswer(Run(db, before), last);
    }
  }

  lemma {:induction false} NewAnswer(db: Db, ev: Event)
    requires Unique(db) && Apply(db, ev).0.answers != db.answers
    ensures ev.SaveEvent? || ev.CodingAnswerEvent?
    ensures !Answered(db, ev.question) && ev.question < |db.questions|
    ensures ev.SaveEvent? ==> db.session.status == InProgress && db.session.currentQuestion == Some(ev.question)
    ensures ev.CodingAnswerEvent? ==> db.questions[ev.question].questionType == CodingTask
  {
    hide StartInterview, FinishTurn, CompleteCodingRound, SaveAnswer, OpenCodingAnswer, Unique, Answered;
    match ev
    case SaveEvent(q, text, missed) => AnswerIsRecorded(db, q, text, missed);
    case CodingAnswerEvent(q) => CodingAnswerIsThere(db, q);
    case _ =>
  }

  // --- What a turn stores ------------------------------------------------------------------------

  /** The level after an answer whose technical and problem-solving scores add up to `sum`: one up from an average of 80,
      one down from an average of 40, and never past the ends. */
  ghost function Adapted(level: DifficultyLevel, sum: real): DifficultyLevel {
    if sum >= 160.0 then (if level == Easy then Medium else Hard)
    else if sum <= 80.0 then (if level == Hard then Medium else Easy)
    else level
  }

  /** One evaluation row has been added: it is about question `q` and holds all four scores and the signal they give. */
  ghost predicate StoresVerdict(db: Db, after: Db, q: nat, scores: Scores) {
    && |after.evaluations| == |db.evaluations| + 1 && after.evaluations[..|db.evaluations|] == db.evaluations
    && after.answers == db.answers && IsAbout(after, q, |db.evaluations|)
    && var row := after.evaluations[|db.evaluations|];
    && row.scores.technical == Column(scores.technical)
    && row.scores.problemSolving == Column(scores.problemSolving)
    && row.scores.communication == Column(scores.communication)
    && row.scores.confidence == Column(scores.confidence)
    && (row.signal == Increase <==> scores.technical + scores.problemSolving >= 160.0)
    && (row.signal == Decrease <==> scores.technical + scores.problemSolving <= 80.0)
  }

  lemma {:induction false} ScoresAdapt(s: TurnState, env: Env)
    ensures var (t, sum) := (AdaptDifficulty(s, env), env.scores.technical + env.scores.problemSolving);
      && t.evaluation.Some? && t.evaluation.value.0 == env.scores
      && (t.evaluation.value.1 == Increase <==> sum >= 160.0)
      && (t.evaluation.value.1 == Decrease <==> sum <= 80.0)
      && t.currentDifficulty == Adapted(s.currentDifficulty, sum)
  {
    hide AddScores;
  }

  lemma {:induction false} TransitionAsks(s: TurnState, env: Env)
    requires TransitionAndAsk(s, env).Success?
    ensures var t := TransitionAndAsk(s, env).value;
      && t.evaluation == s.evaluation && t.currentDifficulty == s.currentDifficulty
      && (t.currentQuestion.Some? && !t.completed ==>
            t.currentQuestion.value.difficulty == t.currentDifficulty && t.currentQuestion.value.parent == None)
      && (!t.completed ==> t.currentRoundIndex == s.currentRoundIndex + 1)
  {
    hide OpenQuestion;
    var moved := RoundTransition(s).value;
    if moved.nextAction != Some(Complete) {
      OpenQuestionShape(moved, env);
    }
  }

  /** Whatever is decided, the graph goes on with the adapted difficulty. */
  lemma {:induction false} GraphAsksAdapted(s: TurnState, env: Env)
    requires s.trigger == SubmitAnswer && RunGraph(s, env).Success?
    ensures var (adapted, t) := (AdaptDifficulty(s, env), RunGraph(s, env).value);
      && env.evaluatorUp && t.evaluation == adapted.evaluation && t.currentDifficulty == adapted.currentDifficulty
      && (t.currentQuestion.Some? && !t.completed ==> t.currentQuestion.value.difficulty == t.currentDifficulty)
  {
    hide AddScores, TransitionAndAsk, RootsAsked, ComputeDifficultySignal, ApplyDifficultySignal, QuestionsPerRound;
    var decided := DecideNextAction(AdaptDifficulty(s, env));
    if decided.nextAction == Some(NextRound) {
      TransitionAsks(decided, env);
    }
  }

  lemma {:induction false} TailAsks(db: Db, view: Session, r: nat, s: TurnState, env: Env)
    requires r < |db.rounds| && ApplyTransition(db, view, r, s, env).Success?
    ensures var after := ApplyTransition(db, view, r, s, env).value.0;
      && after.session.currentDifficulty == db.session.currentDifficulty
      && (after.questions == db.questions
          || (&& s.currentQuestion.Some? && !s.completed && |after.questions| == |db.questions| + 1
              && after.questions[..|db.questions|] == db.questions
              && var asked := after.questions[|db.questions|];
              && asked.difficulty == s.currentQuestion.value.difficulty
              && asked.round < |db.rounds| && db.rounds[asked.round].sequenceNo == s.currentRoundIndex))
  {}

  /** The two rows a committed turn is judged by: the evaluation it adds and the question it asks. The difficulty adapts
      from the level the request read, and the session row follows when that changes it. */
  lemma {:induction false} VerdictIsStored(db: Db, view: Session, q: nat, env: Env)
    requires Committed(FinishTurn(db, view, q, env).1)
    ensures var after := FinishTurn(db, view, q, env).0;
      var adapted := Adapted(view.currentDifficulty, env.scores.technical + env.scores.problemSolving);
      && StoresVerdict(db, after, q, env.scores)
      && after.session.currentDifficulty == (if adapted == view.currentDifficulty then db.session.currentDifficulty else adapted)
      && (after.questions == db.questions
          || (&& |after.questions| == |db.questions| + 1 && after.questions[..|db.questions|] == db.questions
              && after.questions[|db.questions|].difficulty == adapted))
  {
    hide RunGraph, ApplyTransition, AdaptDifficulty, Adapted, Column, FitsColumn;
    var r := RoundBySequence(db.rounds, view.currentRound).value;
    var s := RunGraph(TurnInput(db, view, r, q), env).value;
    GraphAsksAdapted(TurnInput(db, view, r, q), env);
    ScoresAdapt(TurnInput(db, view, r, q), env);
    var row := Evaluation(AnswerOf(db.answers, q).value, ToColumns(s.evaluation.value.0), s.evaluation.value.1);
    var pending := db.(
      evaluations := db.evaluations + [row],
      session := db.session.(currentDifficulty :=
        WriteBack(view.currentDifficulty, s.currentDifficulty, db.session.currentDifficulty)));
    TailAsks(pending, view, r, s, env);
  }

  predicate Deepens(s: TurnState, env: Env) { env.followUpWorthy && s.followUpCount < 2 }

  predicate HasRoom(s: TurnState) { RootsAsked(s.questionHistory) < QuestionsPerRound(s.currentRound) }

  lemma {:induction false} GraphGoesOn(s: TurnState, env: Env)
    requires s.trigger == SubmitAnswer && !s.completed && RunGraph(s, env).Success?
    ensures var t := RunGraph(s, env).value;
      && (t.completed <==> !Deepens(s, env) && !HasRoom(s) && s.currentRoundIndex >= |s.roundPlan|)
      && (!t.completed ==>
            && t.currentQuestion.Some?
            && t.currentRoundIndex == s.currentRoundIndex + (if Deepens(s, env) || HasRoom(s) then 0 else 1)
            && (if Deepens(s, env) then
                  && s.lastQuestion.Some? && t.currentQuestion.value.parent == s.lastQuestion.value.id
                  && t.currentQuestion.value.problem == None
                else t.currentQuestion.value.parent == None))
  {
    hide AddScores, TransitionAndAsk, RootsAsked, ComputeDifficultySignal, ApplyDifficultySignal, QuestionsPerRound;
    var decided := DecideNextAction(AdaptDifficulty(s, env));
    if decided.nextAction == Some(NextRound) {
      TransitionAsks(decided, env);
      TransitionCompletes(decided, env);
    }
  }

  lemma {:induction false} TransitionCompletes(s: TurnState, env: Env)
    requires TransitionAndAsk(s, env).Success? && !s.completed
    ensures TransitionAndAsk(s, env).value.completed <==> s.currentRoundIndex >= |s.roundPlan|
    ensures !TransitionAndAsk(s, env).value.completed ==> TransitionAndAsk(s, env).value.currentQuestion.Some?
  {
    hide OpenQuestion;
    var moved := RoundTransition(s).value;
    if moved.nextAction != Some(Complete) {
      OpenQuestionShape(moved, env);
    }
  }

  /** The session and round rows once a round has been left for round `next`, or for good. */
  ghost predicate Leaves(db: Db, after: Db, r: nat, next: Option<nat>)
    requires r < |db.rounds|
  {
    var closed := db.rounds[r := db.rounds[r].(status := Completed)];
    match next
    case None => after.session.status == Finished && after.session.currentQuestion == None && after.rounds == closed
    case Some(n) =>
      && n < |db.rounds| && after.session.status == db.session.status && after.session.currentQuestion == Some(|db.questions|)
      && after.session.currentRound == db.rounds[n].sequenceNo && after.rounds == closed[n := closed[n].(status := Active)]
  }

  /** What the tail makes of the graph's result. */
  lemma {:induction false} TailPlaces(db: Db, view: Session, r: nat, s: TurnState, env: Env)
    requires r < |db.rounds| && ApplyTransition(db, view, r, s, env).Success?
    requires view.status == InProgress && view.currentQuestion.Some?
    ensures var (after, reply) := ApplyTransition(db, view, r, s, env).value;
      if s.completed then reply == InterviewOver && after.questions == db.questions && Leaves(db, after, r, None)
      else
        && reply == Asked(|db.questions|) && |after.questions| == |db.questions| + 1 && s.currentQuestion.Some?
        && after.questions[..|db.questions|] == db.questions
        && var (asked, ref) := (after.questions[|db.questions|], s.currentQuestion.value);
           && asked.round < |db.rounds| && db.rounds[asked.round].sequenceNo == s.currentRoundIndex
           && asked.difficulty == ref.difficulty
           && asked.parent == (if ref.roundType == Coding then None else ref.parent)
           && (ref.roundType == Coding ==> ref.problem.Some?)
           && (if s.currentRoundIndex == db.rounds[r].sequenceNo then
                 && asked.round == r && after.rounds == db.rounds
                 && after.session == db.session.(currentQuestion := Some(|db.questions|))
               else if s.currentRoundIndex != view.currentRound then Leaves(db, after, r, Some(asked.round))
               else after.session.currentRound == db.session.currentRound)
  {}

  /** How a turn goes on, for every read of the session row: with a follow-up to its question exactly when the answer
      deserves one and fewer than two are counted under the question's root, else with another root question exactly when
      the read round has room, else with the round after it, and with the end when the plan has none. */
  lemma {:induction false} TurnGoesOn(db: Db, view: Session, q: nat, env: Env) returns (r: nat)
    requires Committed(FinishTurn(db, view, q, env).1)
    ensures r < |db.rounds| && db.rounds[r].sequenceNo == view.currentRound
    ensures var (after, reply) := FinishTurn(db, view, q, env);
      var deepen := env.followUpWorthy && FollowUps.CountFollowUps(RoundParents(db.questions, r), q) < 2;
      var room := Roots(db.questions, r) < Target(db.rounds, r);
      if !deepen && !room && view.currentRound >= |db.rounds| then reply == InterviewOver && Leaves(db, after, r, None)
      else
        && reply == Asked(|db.questions|) && |after.questions| == |db.questions| + 1
        && var asked := after.questions[|db.questions|];
           && asked.parent == (if deepen then Some(q) else None) && asked.round < |db.rounds|
           && (if deepen || room then
                 && asked.round == r && after.rounds == db.rounds
                 && after.session == db.session.(currentQuestion := Some(|db.questions|), currentDifficulty := after.session.currentDifficulty)
               else
                 && db.rounds[asked.round].sequenceNo == view.currentRound + 1 && Leaves(db, after, r, Some(asked.round)))
  {
    hide RunGraph, ApplyTransition, FinishTurn, RootsAsked, RoundHistory, Roots, QuestionsPerRound, FollowUps.CountFollowUps;
    var s, pending;
    r, s, pending := TurnIsTail(db, view, q, env);
    RootsRecounted(db.questions, r, db.rounds[r].roundType);
    GraphGoesOn(TurnInput(db, view, r, q), env);
    TailPlaces(pending, view, r, s, env);
  }

  /** A completed coding round stores no evaluation and leaves the difficulty of the session alone. It goes on with a
      question at the level the job read, in the round after the coding question's, or ends the interview. */
  lemma {:induction false} CodingTurnIsStored(db: Db, read: CodingRead, q: nat, env: Env)
    requires Committed(CompleteCodingRound(db, read, q, env).1)
    ensures q < |db.questions| && db.questions[q].round < |db.rounds|
    ensures var ((after, reply), r) := (CompleteCodingRound(db, read, q, env), db.questions[q].round);
      && after.evaluations == db.evaluations && after.answers == db.answers
      && after.session.currentDifficulty == db.session.currentDifficulty
      && (if db.rounds[r].sequenceNo >= |db.rounds| then reply == InterviewOver && Leaves(db, after, r, None)
          else
            && reply == Asked(|db.questions|) && |after.questions| == |db.questions| + 1
            && var asked := after.questions[|db.questions|];
               && asked.difficulty == read.session.currentDifficulty && asked.parent == None && asked.round < |db.rounds|
               && db.rounds[asked.round].sequenceNo == db.rounds[r].sequenceNo + 1
               && (if read.session.currentRound != db.rounds[asked.round].sequenceNo then Leaves(db, after, r, Some(asked.round))
                   else after.session.currentRound == db.session.currentRound))
  {
    hide TransitionAndAsk, ApplyTransition;
    var r := db.questions[q].round;
    var input := InitialState(db, CodingRoundComplete, r, read.session.currentDifficulty);
    TransitionAsks(input, env);
    TransitionCompletes(input, env);
    TailAsks(db, read.session, r, TransitionAndAsk(input, env).value, env);
    TailPlaces(db, read.session, r, TransitionAndAsk(input, env).value, env);
  }
}
