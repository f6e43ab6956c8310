/** One invocation of the interview graph: pure nodes over a transient state, wired by routing functions.
    The language model is an oracle; nothing here looks at why it answers what it answers. */
module TurnGraph {
  import opened Domain
  import opened Policy

  datatype Trigger = StartTrigger | SubmitAnswer | CodingRoundComplete

  datatype NextAction = FollowUp | NextQuestion | NextRound | Complete

  /** `id` is None until the question is stored. */
  datatype QuestionRef = QuestionRef(
    id: Option<nat>,
    roundType: RoundType,
    difficulty: DifficultyLevel,
    parent: Option<nat>,
    problem: Option<nat>)

  datatype Scores = Scores(technical: real, problemSolving: real, communication: real, confidence: real)

  datatype RunningScores = RunningScores(mean: Scores, count: nat)

  /** Everything the outside world decides during one turn. */
  datatype Env = Env(
    evaluatorUp: bool,
    scores: Scores,
    followUpWorthy: bool,
    generatorUp: bool,
    catalog: seq<Problem>,
    stillActive: bool)

  datatype TurnState = TurnState(
    trigger: Trigger,
    roleKey: Option<string>,
    roundPlan: seq<RoundType>,
    currentRound: RoundType,
    currentRoundIndex: int,
    currentQuestion: Option<QuestionRef>,
    currentDifficulty: DifficultyLevel,
    lastQuestion: Option<QuestionRef>,
    questionHistory: seq<QuestionRef>,
    followUpCount: nat,
    interviewScores: RunningScores,
    evaluation: Option<(Scores, DifficultySignal)>,
    followUpWorthy: bool,
    codingProblemHistory: set<nat>,
    nextAction: Option<NextAction>,
    completed: bool)

  type Outcome = Result<TurnState, ErrorCode>

  // --- Nodes -------------------------------------------------------------------

  function GenerateQuestion(s: TurnState, env: Env): Outcome {
    if !env.generatorUp then Failure(EngineUnavailable)
    else Success(s.(currentQuestion := Some(QuestionRef(None, s.currentRound, s.currentDifficulty, None, None))))
  }

  function SelectProblem(s: TurnState, env: Env): Outcome {
    match SelectCodingProblem(env.catalog, s.currentDifficulty, s.roleKey, s.codingProblemHistory)
    case None => Failure(NoCatalogProblem)
    case Some(p) =>
      Success(s.(currentQuestion := Some(QuestionRef(None, s.currentRound, p.difficulty, None, Some(p.id)))))
  }

  function AskFollowUp(s: TurnState, env: Env): Outcome {
    if s.lastQuestion.None? then Failure(MissingEvaluation)
    else if !env.generatorUp then Failure(EngineUnavailable)
    else Success(s.(currentQuestion :=
      Some(QuestionRef(None, s.currentRound, s.currentDifficulty, s.lastQuestion.value.id, None))))
  }

  function RunningAverage(previous: real, count: nat, value: real): real {
    if count == 0 then value else (previous * count as real + value) / (count + 1) as real
  }

  function AddScores(r: RunningScores, x: Scores): RunningScores {
    RunningScores(
      Scores(
        RunningAverage(r.mean.technical, r.count, x.technical),
        RunningAverage(r.mean.problemSolving, r.count, x.problemSolving),
        RunningAverage(r.mean.communication, r.count, x.communication),
        RunningAverage(r.mean.confidence, r.count, x.confidence)),
      r.count + 1)
  }

  function AdaptDifficulty(s: TurnState, env: Env): TurnState {
    var signal := ComputeDifficultySignal(env.scores.technical, env.scores.problemSolving);
    s.(currentDifficulty := ApplyDifficultySignal(s.currentDifficulty, signal),
       evaluation := Some((env.scores, signal)),
       followUpWorthy := env.followUpWorthy,
       interviewScores := AddScores(s.interviewScores, env.scores))
  }

  /** How many of the listed questions open a topic rather than deepen one. */
  function RootsAsked(history: seq<QuestionRef>): nat {
    if history == [] then 0
    else RootsAsked(history[..|history| - 1]) + (if history[|history| - 1].parent.None? then 1 else 0)
  }

  function DecideNextAction(s: TurnState): TurnState {
    if s.followUpWorthy && s.followUpCount < MAX_FOLLOW_UPS_PER_QUESTION then
      s.(nextAction := Some(FollowUp), followUpCount := s.followUpCount + 1)
    else if RootsAsked(s.questionHistory) < QuestionsPerRound(s.currentRound) then
      s.(nextAction := Some(NextQuestion), followUpCount := 0)
    else if s.currentRoundIndex >= |s.roundPlan| then
      s.(nextAction := Some(Complete), followUpCount := 0)
    else
      s.(nextAction := Some(NextRound), followUpCount := 0)
  }

  /** List indexing as the implementation language does it: negative positions count from the end. */
  function Index<T>(s: seq<T>, i: int): Option<T> {
    if 0 <= i < |s| then Some(s[i])
    else if -|s| <= i < 0 then Some(s[|s| + i])
    else None
  }

  function RoundTransition(s: TurnState): Outcome {
    var next := s.currentRoundIndex + 1;
    if next > |s.roundPlan| then Success(s.(nextAction := Some(Complete)))
    else
      match Index(s.roundPlan, next - 1)
      case None => Failure(PlanIndexError)
      case Some(t) =>
        Success(s.(currentRoundIndex := next, currentRound := t, questionHistory := [],
                   nextAction := Some(NextQuestion)))
  }

  function CompleteInterview(s: TurnState): TurnState {
    s.(completed := true, nextAction := Some(Complete), currentQuestion := None)
  }

  // --- Edges -------------------------------------------------------------------

  /** Asking a first question of the state's current round. */
  function OpenQuestion(s: TurnState, env: Env): Outcome {
    if s.currentRound == Coding then SelectProblem(s, env) else GenerateQuestion(s, env)
  }

  function TransitionAndAsk(s: TurnState, env: Env): Outcome {
    match RoundTransition(s)
    case Failure(e) => Failure(e)
    case Success(t) => if t.nextAction == Some(Complete) then Success(CompleteInterview(t)) else OpenQuestion(t, env)
  }

  function RunGraph(s: TurnState, env: Env): Outcome {
    match s.trigger
    case CodingRoundComplete => TransitionAndAsk(s, env)
    case StartTrigger => OpenQuestion(s, env)
    case SubmitAnswer =>
      if !env.evaluatorUp then Failure(EngineUnavailable) else
      var decided := DecideNextAction(AdaptDifficulty(s, env));
      match decided.nextAction.value
      case FollowUp => AskFollowUp(decided, env)
      case NextQuestion => GenerateQuestion(decided, env)
      case NextRound => TransitionAndAsk(decided, env)
      case Complete => Success(CompleteInterview(decided))
  }
}
