/** Whole runs: any sequence of service calls from any number of clients, including retries, calls that
    stop between the two phases, and phase-two re-reads that return an old copy of the session row. */
module Runs {
  import opened Domain
  import opened Policy
  import opened TurnGraph
  import opened Execution
  import opened Invariant
  import opened Steps
  import FollowUps

  /** `reread` is what the second read of the session row returns, `read` what a grading job holds of the session
      and round rows; None means the committed rows.
      A client that dies between its phases is a SaveEvent with no FinishEvent. */
  datatype Event =
    | StartEvent(env: Env)
    | SaveEvent(question: nat, text: string, missed: bool)
    | FinishEvent(question: nat, reread: Option<Session>, env: Env)
    | CodingAnswerEvent(question: nat)
    | CodingDoneEvent(question: nat, read: Option<CodingRead>, env: Env)
    | AbandonEvent

  function Reread(db: Db, reread: Option<Session>): Session { if reread.Some? then reread.value else db.session }

  function RereadCoding(db: Db, q: nat, read: Option<CodingRead>): CodingRead {
    if read.Some? then read.value else CurrentRead(db, q)
  }

  /** The grading job completes rounds of coding questions only. */
  function Apply(db: Db, ev: Event): (Db, Reply) {
    match ev
    case StartEvent(env) => StartInterview(db, env)
    case SaveEvent(q, text, missed) => SaveAnswer(db, q, text, missed)
    case FinishEvent(q, reread, env) => FinishTurn(db, Reread(db, reread), q, env)
    case CodingAnswerEvent(q) => OpenCodingAnswer(db, q)
    case CodingDoneEvent(q, reread, env) =>
      if q < |db.questions| && db.questions[q].questionType == CodingTask then
        CompleteCodingRound(db, RereadCoding(db, q, reread), q, env)
      else (db, Refused(QuestionNotFound))
    case AbandonEvent => Execution.Abandon(db)
  }

  function Run(db: Db, events: seq<Event>): Db {
    if events == [] then db
    else Apply(Run(db, events[..|events| - 1]), events[|events| - 1]).0
  }

  predicate Fresh(ev: Event) { (ev.FinishEvent? ==> ev.reread.None?) && (ev.CodingDoneEvent? ==> ev.read.None?) }

  lemma {:induction false} RunThen(db: Db, events: seq<Event>, ev: Event)
    ensures Run(db, events + [ev]) == Apply(Run(db, events), ev).0
  {
    hide Apply;
    assert (events + [ev])[..|events + [ev]| - 1] == events;
  }

  lemma {:induction false} RunConcat(db: Db, first: seq<Event>, second: seq<Event>)
    ensures Run(db, first + second) == Run(Run(db, first), second)
  {
    hide Apply;
    if second == [] {
      assert first + second == first;
    } else {
      assert (first + second)[..|first + second| - 1] == first + second[..|second| - 1];
      RunConcat(db, first, second[..|second| - 1]);
    }
  }

  lemma {:induction false} NoEvents(db: Db)
    ensures Run(db, []) == db
  {}

  /** The two events that can move an interview on. */
  predicate IsTurn(ev: Event) { ev.FinishEvent? || ev.CodingDoneEvent? }

  predicate AllFresh(events: seq<Event>) { forall i :: 0 <= i < |events| ==> Fresh(events[i]) }

  /** A plan as the planner stores it. */
  ghost predicate NewPlan(db: Db) { Numbered(db.rounds) && db.session.status == NotStarted && Planned(db) }

  // --- The invariant holds throughout ---------------------------------------------------------

  lemma {:induction false} NewPlanSatisfiesInvariant(db: Db)
    requires NewPlan(db)
    ensures Inv(db)
  {
    assert db.evaluations[..0] == [];
  }

  lemma {:induction false} AbandonKeepsInvariant(db: Db)
    requires Inv(db)
    ensures Inv(Execution.Abandon(db).0)
  {
    hide Threaded, RoundsFit;
    var after := Execution.Abandon(db).0;
    forall q: nat | q < |db.questions|
      ensures CarriesFold(after, q) && (IsEvaluated(db, q) ==> IsEvaluated(after, q))
    {
      RowsOnly(db, after, q);
    }
  }

  lemma {:induction false} StepKeepsInvariant(db: Db, ev: Event)
    requires Inv(db) && Fresh(ev)
    ensures Inv(Apply(db, ev).0)
  {
    hide Inv, StartInterview, FinishTurn, CompleteCodingRound;
    match ev
    case StartEvent(env) => StartKeepsInvariant(db, env);
    case SaveEvent(q, text, missed) =>
      if Apply(db, ev).0 != db {
        SaveAnswerKeepsInvariant(db, q, Answer(q, Some(text)));
      }
    case FinishEvent(q, reread, env) => FinishTurnKeepsInvariant(db, q, env);
    case CodingAnswerEvent(q) =>
      if Apply(db, ev).0 != db {
        SaveAnswerKeepsInvariant(db, q, Answer(q, None));
      }
    case CodingDoneEvent(q, reread, env) =>
      if Apply(db, ev).0 != db {
        CompleteCodingKeepsInvariant(db, q, env);
      }
    case AbandonEvent => AbandonKeepsInvariant(db);
  }

  /** Round and session statuses, threads, answers, evaluations and difficulties agree after every run. */
  lemma {:induction false} EveryRunKeepsInvariant(db: Db, events: seq<Event>)
    requires Inv(db) && AllFresh(events)
    ensures Inv(Run(db, events))
  {
    hide Inv, Apply;
    if events != [] {
      EveryRunKeepsInvariant(db, events[..|events| - 1]);
      StepKeepsInvariant(Run(db, events[..|events| - 1]), events[|events| - 1]);
    }
  }

  /** While an interview runs exactly one round is active, all earlier ones are completed and all later ones
      pending, and the open question lies in the active round; a finished interview has only completed rounds
      and no open question. */
  lemma {:induction false} RoundsOfEveryRun(plan: Db, events: seq<Event>, i: nat)
    requires NewPlan(plan) && AllFresh(events) && i < |Run(plan, events).rounds|
    ensures var db := Run(plan, events);
      db.session.status == InProgress ==>
        var active := db.session.currentRound - 1;
        && 0 <= active < |db.rounds|
        && db.rounds[i].status == (if i < active then Completed else if i == active then Active else Pending)
        && db.session.currentQuestion.Some? && db.session.currentQuestion.value < |db.questions|
        && db.questions[db.session.currentQuestion.value].round == active
    ensures var db := Run(plan, events);
      db.session.status == Finished ==> db.session.currentQuestion == None && db.rounds[i].status == Completed
  {
    hide Run, Threaded, RowsAgree, EarlierAnswered, DifficultyFolds, Roots, Target;
    NewPlanSatisfiesInvariant(plan);
    EveryRunKeepsInvariant(plan, events);
    var db := Run(plan, events);
    if db.session.status == InProgress {
      assert RoundFits(db.rounds, db.questions, ActiveRound(db), i);
    } else if db.session.status == Finished {
      assert RoundFits(db.rounds, db.questions, |db.rounds|, i);
    }
  }

  /** A completed round holds three root questions when it is technical, one when it is an introduction, a coding round
      or the final one, and two otherwise. */
  lemma {:induction false} CompletedRoundsAreFull(plan: Db, events: seq<Event>, r: nat)
    requires NewPlan(plan) && AllFresh(events)
    requires r < |Run(plan, events).rounds| && Run(plan, events).rounds[r].status == Completed
    ensures var (roots, t) := (Roots(Run(plan, events).questions, r), Run(plan, events).rounds[r].roundType);
      && (roots == 3 <==> t == Technical)
      && (roots == 1 <==> t in {Introduction, Coding, Final})
      && 1 <= roots <= 3
  {
    hide Run, Threaded, RowsAgree, EarlierAnswered, DifficultyFolds, Roots;
    NewPlanSatisfiesInvariant(plan);
    EveryRunKeepsInvariant(plan, events);
    var db := Run(plan, events);
    if Standing(db) {
      assert RoundFits(db.rounds, db.questions, ActiveRound(db), r);
    } else if Over(db) {
      assert RoundFits(db.rounds, db.questions, |db.rounds|, r);
    }
  }

  /** Every text question but the open one has a stored evaluation. */
  lemma {:induction false} OnlyTheOpenQuestionIsUnevaluated(plan: Db, events: seq<Event>, q: nat)
    requires NewPlan(plan) && AllFresh(events)
    requires q < |Run(plan, events).questions| && Run(plan, events).questions[q].questionType != CodingTask
    ensures Run(plan, events).session.currentQuestion == Some(q) || IsEvaluated(Run(plan, events), q)
  {
    hide Run, Threaded, DifficultyFolds, Standing, Over, Planned;
    NewPlanSatisfiesInvariant(plan);
    EveryRunKeepsInvariant(plan, events);
  }

  /** In every run a coding round asks coding tasks about catalog problems, a system-design round design tasks, and every
      other round open questions; a follow-up deepens the question just before it, in its round, and rounds are asked in
      order. */
  lemma {:induction false} QuestionsOfEveryRun(plan: Db, events: seq<Event>, q: nat)
    requires NewPlan(plan) && AllFresh(events) && q < |Run(plan, events).questions|
    ensures var (rounds, questions) := (Run(plan, events).rounds, Run(plan, events).questions);
      var asked := questions[q];
      && asked.round < |rounds|
      && asked.questionType == (match rounds[asked.round].roundType case Coding => CodingTask case SystemDesign => DesignTask case _ => Open)
      && (asked.problem.Some? <==> rounds[asked.round].roundType == Coding)
      && (q > 0 ==> questions[q - 1].round <= asked.round)
      && (asked.parent.Some? ==> asked.parent == Some(q - 1) && questions[q - 1].round == asked.round)
  {
    hide Run, RowsAgree, EarlierAnswered, DifficultyFolds, Standing, Over, Planned;
    NewPlanSatisfiesInvariant(plan);
    EveryRunKeepsInvariant(plan, events);
    assert AskedInOrder(Run(plan, events).rounds, Run(plan, events).questions, q);
  }

  /** No question of a reachable interview has more than two descendants. */
  lemma {:induction false} ThreadsStayShort(plan: Db, events: seq<Event>, r: nat, root: nat)
    requires NewPlan(plan) && AllFresh(events)
    ensures var db := Run(plan, events);
      |FollowUps.Tree(RoundParents(db.questions, r), root) - {root}| <= 2
  {
    hide Run, RowsAgree, EarlierAnswered, DifficultyFolds, Standing, Over, Planned;
    NewPlanSatisfiesInvariant(plan);
    EveryRunKeepsInvariant(plan, events);
    DescendantsCapped(Run(plan, events).rounds, Run(plan, events).questions, r, root);
  }

  /** At every point of a run the current difficulty is the fold of the stored signals over the starting one,
      and question `q` carries the fold of the evaluations stored before it was asked. */
  lemma {:induction false} DifficultyOfEveryRun(plan: Db, events: seq<Event>, q: nat) returns (k: nat)
    requires NewPlan(plan) && AllFresh(events) && q < |Run(plan, events).questions|
    ensures var db := Run(plan, events);
      && db.session.currentDifficulty == FoldSignals(db.startingDifficulty, Signals(db.evaluations))
      && RowsAgree(db) && k <= |db.evaluations|
      && db.questions[q].difficulty == FoldSignals(db.startingDifficulty, Signals(db.evaluations[..k]))
      && forall j: nat :: j < |db.evaluations| ==> (j < k <==> EvaluatedQuestion(db.answers, db.evaluations, j) < q)
  {
    hide Run, Threaded, Standing, Over, EarlierAnswered;
    NewPlanSatisfiesInvariant(plan);
    EveryRunKeepsInvariant(plan, events);
    var db := Run(plan, events);
    assert CarriesFold(db, q);
    k :| AskedAt(db, q, k);
    assert db.evaluations[..|db.evaluations|] == db.evaluations;
  }

  /** Completing a coding round never changes the difficulty. */
  lemma {:induction false} CodingKeepsDifficulty(db: Db, read: CodingRead, q: nat, env: Env)
    ensures CompleteCodingRound(db, read, q, env).0.session.currentDifficulty == db.session.currentDifficulty
  {
    hide RunGraph;
  }

  // --- Errors that cannot happen ------------------------------------------------------------------

  lemma {:induction false} GraphNeverLost(s: TurnState, env: Env)
    requires s.lastQuestion.Some? || s.trigger != SubmitAnswer
    requires 0 <= s.currentRoundIndex
    ensures RunGraph(s, env).Failure? ==> RunGraph(s, env).error in {EngineUnavailable, NoCatalogProblem}
  {}

  lemma {:induction false} TailNeverLost(db: Db, view: Session, s: TurnState, env: Env)
    requires Numbered(db.rounds) && Standing(db) && Ends(db, s)
    ensures ApplyTransition(db, view, ActiveRound(db), s, env).Failure? ==>
              ApplyTransition(db, view, ActiveRound(db), s, env).error in {CodingProblemIdMissing, ProblemNotFound}
  {
    RoundNumber(Mark(db.rounds, ActiveRound(db), Completed), s.currentRoundIndex);
  }

  const Lost: set<Reply> := {Refused(RoundNotFound), Refused(PlanIndexError), Refused(EmptyRoundPlan), Refused(MissingEvaluation)}

  lemma {:induction false} StoreNeverLost(db: Db, a: nat, e: Evaluation, outcome: Outcome, env: Env)
    requires Numbered(db.rounds) && Standing(db) && EvaluationOf(db.evaluations, a).None?
    requires outcome.Failure? ==> outcome.error in {EngineUnavailable, NoCatalogProblem}
    requires e.answer == a
    requires outcome.Success? ==>
      var s := outcome.value;
      && s.evaluation == Some((env.scores, e.signal))
      && e.scores == ToColumns(env.scores)
      && s.currentDifficulty == WithEvaluation(db, e).session.currentDifficulty
      && Ends(WithEvaluation(db, e), s)
    ensures StoreTurn(db, db.session, ActiveRound(db), a, outcome, env).1 !in Lost
    ensures StoreTurn(db, db.session, ActiveRound(db), a, outcome, env).1 != Refused(DuplicateRow)
  {
    hide RunGraph, ApplyTransition;
    if outcome.Success? {
      TailNeverLost(WithEvaluation(db, e), db.session, outcome.value, env);
    }
  }

  lemma {:induction false} FinishNeverLost(db: Db, q: nat, env: Env)
    requires Numbered(db.rounds) && Threaded(db.rounds, db.questions) && Running(db) && db.session.status == InProgress
    requires db.session.currentQuestion == Some(q) && AnswerOf(db.answers, q).Some?
    requires EvaluationOf(db.evaluations, AnswerOf(db.answers, q).value).None?
    ensures FinishTurn(db, db.session, q, env).1 !in Lost && FinishTurn(db, db.session, q, env).1 != Refused(DuplicateRow)
  {
    var r := ActiveRound(db);
    RoundNumber(db.rounds, r + 1);
    var outcome := RunGraph(TurnInput(db, db.session, r, q), env);
    GraphNeverLost(TurnInput(db, db.session, r, q), env);
    if outcome.Success? {
      TurnShape(db, q, env, TurnEvaluation(db, q, env));
    }
    StoreNeverLost(db, AnswerOf(db.answers, q).value, TurnEvaluation(db, q, env), outcome, env);
  }

  lemma {:induction false} StartNeverLost(db: Db, env: Env)
    requires Numbered(db.rounds)
    ensures StartInterview(db, env).1 !in Lost
  {
    RoundNumber(db.rounds, 1);
    assert FirstSequence(db.rounds) == 1 by { assert db.rounds[0].sequenceNo == 1; }
    assert RunGraph(StartInput(db), env) == OpenQuestion(StartInput(db), env);
    if OpenQuestion(StartInput(db), env).Success? {
      OpenQuestionShape(StartInput(db), env);
    }
  }

  lemma {:induction false} CodingDoneNeverLost(db: Db, q: nat, env: Env)
    requires Numbered(db.rounds) && Threaded(db.rounds, db.questions) && Running(db) && db.session.status == InProgress
    requires db.session.currentQuestion == Some(q) && db.questions[q].questionType == CodingTask
    ensures CompleteCodingRound(db, CurrentRead(db, q), q, env).1 !in Lost
  {
    hide ApplyTransition, Roots, TransitionAndAsk;
    var r := ActiveRound(db);
    assert AskedInOrder(db.rounds, db.questions, q);
    assert RoundFits(db.rounds, db.questions, r, r);
    var input := InitialState(db, CodingRoundComplete, r, db.session.currentDifficulty);
    GraphNeverLost(input, env);
    if TransitionAndAsk(input, env).Success? {
      TransitionShape(db, input, env);
      TailNeverLost(db, db.session, TransitionAndAsk(input, env).value, env);
    }
  }

  /** On a numbered plan no call ever misses a round row, runs past the plan or meets a duplicate evaluation. */
  lemma {:induction false} RoundAlwaysFound(db: Db, ev: Event)
    requires Inv(db) && Fresh(ev)
    ensures Apply(db, ev).1 !in Lost
    ensures ev.FinishEvent? ==> Apply(db, ev).1 != Refused(DuplicateRow)
  {
    hide StartInterview, RunGraph, StoreTurn, StoreTransition, RowsAgree, EarlierAnswered, DifficultyFolds, Planned;
    match ev
    case StartEvent(env) => StartNeverLost(db, env);
    case SaveEvent(q, text, missed) =>
    case FinishEvent(q, reread, env) =>
      if db.session.status == InProgress && db.session.currentQuestion == Some(q) && AnswerOf(db.answers, q).Some? {
        NewestIsUnevaluated(db, q);
        FinishNeverLost(db, q, env);
      }
    case CodingAnswerEvent(q) =>
    case CodingDoneEvent(q, reread, env) =>
      if db.session.status == InProgress && db.session.currentQuestion == Some(q) && db.questions[q].questionType == CodingTask {
        CodingDoneNeverLost(db, q, env);
      }
    case AbandonEvent =>
  }

  /** A follow-up decision on a coding question aborts the turn, and nothing else produces that error. */
  lemma {:induction false} CodingFollowUpAborts(db: Db, q: nat, env: Env)
    requires Inv(db) && db.session.status == InProgress && db.session.currentQuestion == Some(q)
    requires AnswerOf(db.answers, q).Some?
    ensures FinishTurn(db, db.session, q, env) == (db, Refused(CodingProblemIdMissing)) <==>
              && db.questions[q].questionType == CodingTask
              && env.evaluatorUp && env.followUpWorthy && env.generatorUp && Storable(env.scores)
  {
    NewestIsUnevaluated(db, q);
    FollowUpAborts(db, q, env);
  }

  lemma {:induction false} FollowUpAsked(s: TurnState, env: Env)
    requires s.trigger == SubmitAnswer && !s.completed && s.lastQuestion.Some? && env.evaluatorUp && env.followUpWorthy
    requires s.followUpCount < MAX_FOLLOW_UPS_PER_QUESTION
    ensures env.generatorUp <==> RunGraph(s, env).Success?
    ensures env.generatorUp ==>
      var t := RunGraph(s, env).value;
      && !t.completed && t.currentRoundIndex == s.currentRoundIndex && t.evaluation.Some? && t.evaluation.value.0 == env.scores
      && t.currentQuestion.Some? && t.currentQuestion.value.roundType == s.currentRound && t.currentQuestion.value.problem == None
  {}

  lemma {:induction false} FollowUpAborts(db: Db, q: nat, env: Env)
    requires Numbered(db.rounds) && Threaded(db.rounds, db.questions) && Running(db) && db.session.status == InProgress
    requires db.session.currentQuestion == Some(q) && AnswerOf(db.answers, q).Some?
    requires EvaluationOf(db.evaluations, AnswerOf(db.answers, q).value).None?
    ensures FinishTurn(db, db.session, q, env) == (db, Refused(CodingProblemIdMissing)) <==>
              && db.questions[q].questionType == CodingTask
              && env.evaluatorUp && env.followUpWorthy && env.generatorUp && Storable(env.scores)
  {
    hide RunGraph;
    var r := ActiveRound(db);
    RoundNumber(db.rounds, r + 1);
    assert AskedInOrder(db.rounds, db.questions, q);
    RecountIsDepth(db.rounds, db.questions, r, q);
    var input := TurnInput(db, db.session, r, q);
    GraphNeverLost(input, env);
    if RunGraph(input, env).Success? {
      TurnShape(db, q, env, TurnEvaluation(db, q, env));
    }
    if env.evaluatorUp && env.followUpWorthy && input.followUpCount < MAX_FOLLOW_UPS_PER_QUESTION {
      FollowUpAsked(input, env);
    }
  }
}
