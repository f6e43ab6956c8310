/** Concrete runs and inputs at which a guarantee stops holding; the modules of the guarantees state exactly when. */
module Failures {
  import opened Domain
  import opened TurnGraph
  import opened Execution
  import opened Rounding
  import opened Invariant
  import opened Steps
  import opened Runs
  import opened Interleavings
  import opened StaleReads
  import opened Advances
  import opened Decisions
  import opened Completion
  import opened ScoreAverages
  import FollowUps
  import Progress

  /** A plan with one round of each listed type. */
  function PlanWith(types: seq<RoundType>): Db {
    Db(Session(NotStarted, 0, None, Medium), Medium, None,
       seq(|types|, i requires 0 <= i < |types| => Round(i + 1, types[i], Pending)), [], [], [])
  }

  lemma {:induction false} PlanIsNew(types: seq<RoundType>)
    requires types != []
    ensures NewPlan(PlanWith(types))
  {}

  const AnswerRows: seq<Answer> := [Answer(0, Some("an answer"))]

  /** The interview has been started and its first question, number 0, has an answer row without an evaluation. */
  ghost predicate FirstAnswered(plan: Db, db: Db) {
    && Inv(db) && db.session.status == InProgress && db.session.currentQuestion == Some(0)
    && |db.questions| == 1 && db.questions[0].round == 0 && db.session.currentRound == 1
    && |db.rounds| == |plan.rounds| && (forall i :: 0 <= i < |db.rounds| ==> db.rounds[i].roundType == plan.rounds[i].roundType)
    && db.answers == AnswerRows && db.evaluations == []
  }

  lemma {:induction false} RunOne(db: Db, ev: Event)
    ensures Run(db, [ev]) == Apply(db, ev).0
  {
    hide Apply;
    assert [] + [ev] == [ev];
    RunThen(db, [], ev);
    NoEvents(db);
  }

  lemma {:induction false} FirstAsked(plan: Db) returns (db: Db)
    requires NewPlan(plan)
    ensures db == Run(plan, [StartEvent(Plain())]) && Inv(db)
    ensures db.session.status == InProgress && db.session.currentQuestion == Some(0)
    ensures |db.questions| == 1 && db.answers == [] && db.evaluations == []
    ensures |db.rounds| == |plan.rounds| && forall i :: 0 <= i < |db.rounds| ==> db.rounds[i].roundType == plan.rounds[i].roundType
  {
    hide Inv, Plain, RunGraph, Run;
    NewPlanSatisfiesInvariant(plan);
    StepKeepsInvariant(plan, StartEvent(Plain()));
    PlainStarts(plan);
    RunOne(plan, StartEvent(Plain()));
    db := Apply(plan, StartEvent(Plain())).0;
  }

  lemma {:induction false} AnswerFirst(plan: Db) returns (events: seq<Event>, db: Db)
    requires NewPlan(plan)
    ensures events == [StartEvent(Plain()), SaveEvent(0, "an answer", false)] && AllFresh(events)
    ensures db == Run(plan, events) && FirstAnswered(plan, db)
    ensures db.session == Run(plan, events[..1]).session
  {
    hide Inv, Apply, Run, Plain;
    events := [StartEvent(Plain()), SaveEvent(0, "an answer", false)];
    var asked := FirstAsked(plan);
    assert events[..1] == [StartEvent(Plain())] && events == events[..1] + [SaveEvent(0, "an answer", false)];
    RunThen(plan, events[..1], events[1]);
    StepKeepsInvariant(asked, events[1]);
    AnswerAdded(asked, 0);
    var q := OpenQuestionIsNewest(asked);
    FirstRoundFirst(asked);
    db := Apply(asked, events[1]).0;
  }

  lemma {:induction false} FirstRoundFirst(db: Db)
    requires Inv(db) && db.session.status == InProgress && |db.questions| == 1
    ensures db.questions[0].round == 0
  {
    hide Threaded, RowsAgree, EarlierAnswered, DifficultyFolds;
    assert db.questions[..|db.questions| - 1] == [];
    assert Roots([], 0) == 0;
    assert RoundFits(db.rounds, db.questions, ActiveRound(db), 0);
  }

  lemma {:induction false} FirstUnevaluated(db: Db)
    requires db.answers == AnswerRows && db.evaluations == []
    ensures AnswerOf(db.answers, 0) == Some(0) && !Evaluated(db, 0) && !Evaluated(db, 1)
  {}

  /** A round whose length is one question is full once it is open. */
  lemma {:induction false} FirstRoundFull(db: Db)
    requires Inv(db) && db.session.status == InProgress && db.session.currentRound == 1
    requires Target(db.rounds, 0) == 1
    ensures Roots(db.questions, 0) == 1
  {
    hide Threaded, RowsAgree, EarlierAnswered, DifficultyFolds, Roots;
    assert RoundFits(db.rounds, db.questions, 0, 0);
  }

  lemma {:induction false} RootsGrow(questions: seq<Question>, longer: seq<Question>, r: nat)
    requires |longer| == |questions| + 1 && longer[..|questions|] == questions
    ensures Roots(longer, r) >= Roots(questions, r)
  {}

  // --- Reading an older session row ----------------------------------------------------------------

  lemma {:induction false} AdvancesThen(db: Db, events: seq<Event>, ev: Event, q: nat)
    ensures AdvancesFrom(db, events + [ev], q) == AdvancesFrom(db, events, q) + if MovesOn(Run(db, events), ev, q) then 1 else 0
  {
    hide MovesOn, Run;
    assert (events + [ev])[..|events + [ev]| - 1] == events;
  }

  lemma {:induction false} NoAdvanceYet(plan: Db)
    ensures AdvancesFrom(plan, [StartEvent(Plain()), SaveEvent(0, "an answer", false)], 0) == 0
  {
    hide Apply, Plain;
    var (start, save) := (StartEvent(Plain()), SaveEvent(0, "an answer", false));
    assert [] + [start] == [start] && [start] + [save] == [start, save];
    AdvancesThen(plan, [], start, 0);
    AdvancesThen(plan, [start], save, 0);
  }

  lemma {:induction false} FirstIsCoding(plan: Db, db: Db)
    requires FirstAnswered(plan, db) && plan.rounds != [] && plan.rounds[0].roundType == Coding
    ensures db.questions[0].questionType == CodingTask
  {
    hide RowsAgree, EarlierAnswered, DifficultyFolds, RoundsFit;
    assert AskedInOrder(db.rounds, db.questions, 0);
  }

  lemma {:induction false} CodingDoneCommits(plan: Db, ready: Db)
    requires FirstAnswered(plan, ready) && |plan.rounds| > 1 && plan.rounds[0].roundType == Coding
    ensures var done := CodingDoneEvent(0, None, Plain());
      && MovesOn(ready, done, 0) && AsksNext(ready, Apply(ready, done).0, 1)
      && Apply(ready, done).0.answers == AnswerRows && Apply(ready, done).0.evaluations == []
      && |Apply(ready, done).0.rounds| == |ready.rounds|
      && Apply(ready, done).0.rounds[0].roundType == Coding
  {
    hide CompleteCodingRound, Threaded, RowsAgree, EarlierAnswered, DifficultyFolds, RoundsFit, Plain;
    FirstIsCoding(plan, ready);
    ReadsActive(ready, 0);
    PlainCodingCommits(ready, CurrentRead(ready, 0), 0);
    CompletionAsks(ready, CurrentRead(ready, 0), 0, Plain());
    TypesKept(ready, CurrentRead(ready, 0), 0, Plain());
  }

  lemma {:induction false} TypesKept(db: Db, read: CodingRead, q: nat, env: Env)
    ensures var rounds := CompleteCodingRound(db, read, q, env).0.rounds;
      |rounds| == |db.rounds| && forall i :: 0 <= i < |rounds| ==> rounds[i].roundType == db.rounds[i].roundType
  {
    hide RunGraph;
  }

  /** Two advances from one coding question: the grading job completes its round while the candidate's own answer to
      it waits between its phases; the late answer then leaves the next round's question behind unanswered. */
  lemma {:induction false} CodingQuestionAdvancesTwice() returns (plan: Db, events: seq<Event>)
    ensures NewPlan(plan) && |events| == 4
    ensures events[3].FinishEvent? && events[3].reread == Some(Run(plan, events[..1]).session)
    ensures AllFresh(events[..3]) && AdvancesFrom(plan, events, 0) == 2
    ensures Run(plan, events[..3]).session.currentQuestion == Some(1) && Run(plan, events).session.currentQuestion == Some(2)
    ensures !Evaluated(Run(plan, events), 1)
  {
    hide Inv, Apply, Run, Plain, AdvancesFrom, Evaluated, PlanWith, AsksNext, FinishTurn, Roots;
    plan := PlanWith([Coding, Introduction]);
    PlanIsNew([Coding, Introduction]);
    PlanTypes([Coding, Introduction]);
    var first, ready := AnswerFirst(plan);
    var done := CodingDoneEvent(0, None, Plain());
    var late := FinishEvent(0, Some(ready.session), Plain());
    events := first + [done, late];
    assert events[..3] == first + [done] && events == events[..3] + [late] && events[..1] == first[..1];
    RunThen(plan, first, done);
    RunThen(plan, events[..3], late);
    var middle := Apply(ready, done).0;
    CodingDoneCommits(plan, ready);
    StepKeepsInvariant(ready, done);
    LateAnswer(ready, middle);
    NoAdvanceYet(plan);
    AdvancesThen(plan, first, done, 0);
    AdvancesThen(plan, events[..3], late, 0);
  }

  lemma {:induction false} PlanTypes(types: seq<RoundType>)
    ensures |PlanWith(types).rounds| == |types|
    ensures forall i :: 0 <= i < |types| ==> PlanWith(types).rounds[i].roundType == types[i]
  {}

  lemma {:induction false} LateAnswer(ready: Db, middle: Db)
    requires Inv(ready) && Inv(middle) && AsksNext(ready, middle, 1) && |ready.questions| == 1 && ready.questions[0].round == 0
    requires ready.session.status == InProgress && ready.session.currentQuestion == Some(0) && ready.session.currentRound == 1
    requires middle.answers == AnswerRows && middle.evaluations == []
    requires |middle.rounds| > 1 && |middle.rounds| == |ready.rounds| && middle.rounds[0].roundType == ready.rounds[0].roundType == Coding
    ensures var late := FinishEvent(0, Some(ready.session), Plain());
      && MovesOn(middle, late, 0) && middle.session.currentQuestion == Some(1)
      && Apply(middle, late).0.session.currentQuestion == Some(2) && !Evaluated(Apply(middle, late).0, 1)
  {
    hide Inv, FinishTurn, Plain, Roots;
    assert middle.questions[0] == ready.questions[0];
    FirstUnevaluated(middle);
    FirstRoundFull(ready);
    RootsGrow(ready.questions, middle.questions, 0);
    PlainTurnAsksNext(middle, ready.session, 0);
    var after := FinishTurn(middle, ready.session, 0, Plain()).0;
    assert after.answers == AnswerRows;
    assert AnswerOf(AnswerRows, 1).None?;
  }

  /** An interview abandoned between the two phases of an answer to its last question is completed after all. */
  lemma {:induction false} AbandonedInterviewFinishes() returns (plan: Db, events: seq<Event>)
    ensures NewPlan(plan) && |events| == 4
    ensures events[3].FinishEvent? && events[3].reread == Some(Run(plan, events[..1]).session)
    ensures AllFresh(events[..3])
    ensures Run(plan, events[..3]).session.status == Abandoned && Run(plan, events).session.status == Finished
  {
    hide Inv, Apply, Run, Plain, PlanWith, FinishTurn, Roots;
    plan := PlanWith([Introduction]);
    PlanIsNew([Introduction]);
    PlanTypes([Introduction]);
    var first, ready := AnswerFirst(plan);
    var late := FinishEvent(0, Some(ready.session), Plain());
    events := first + [AbandonEvent, late];
    assert events[..3] == first + [AbandonEvent] && events == events[..3] + [late] && events[..1] == first[..1];
    RunThen(plan, first, AbandonEvent);
    RunThen(plan, events[..3], late);
    var left := AbandonRows(ready);
    StepKeepsInvariant(ready, AbandonEvent);
    FirstRoundFull(ready);
    LateFinish(ready, left);
  }

  lemma {:induction false} AbandonRows(db: Db) returns (left: Db)
    requires db.session.status == InProgress
    ensures left == Apply(db, AbandonEvent).0 == db.(session := db.session.(status := Abandoned))
  {
    left := Apply(db, AbandonEvent).0;
  }

  lemma {:induction false} LateFinish(ready: Db, left: Db)
    requires Inv(ready) && Inv(left) && left == ready.(session := ready.session.(status := Abandoned))
    requires ready.session.status == InProgress && ready.session.currentQuestion == Some(0) && ready.session.currentRound == 1
    requires |ready.questions| == 1 && ready.questions[0].round == 0 && |ready.rounds| == 1
    requires ready.answers == AnswerRows && ready.evaluations == []
    requires Roots(ready.questions, 0) == Target(ready.rounds, 0)
    ensures Apply(left, FinishEvent(0, Some(ready.session), Plain())).0.session.status == Finished
  {
    hide Threaded, RowsAgree, EarlierAnswered, DifficultyFolds, RoundsFit, Plain, Roots, RunGraph, FollowUps.CountFollowUps,
         RoundHistory, Evaluated, Depth;
    FirstUnevaluated(left);
    PlainTurnCommits(left, ready.session, 0);
    RoundNumber(left.rounds, 1);
    assert TurnInput(left, ready.session, 0, 0) == TurnInput(left, left.session, 0, 0);
    PlainTurnSucceeds(left, ready.session, 0, 0);
    GraphDecides(left, 0, Plain());
    PlainNeedsNoFollowUp();
  }

  lemma {:induction false} PlainNeedsNoFollowUp()
    ensures !Plain().followUpWorthy
  {}

  // --- A follow-up on a coding question ---------------------------------------------------------------

  /** An answered turn that asks for a follow-up on a coding question is thrown away. */
  lemma {:induction false} FollowUpOnCodingIsLost() returns (plan: Db, events: seq<Event>, turn: Event)
    ensures NewPlan(plan) && AllFresh(events + [turn]) && turn.FinishEvent?
    ensures Apply(Run(plan, events), turn) == (Run(plan, events), Refused(CodingProblemIdMissing))
  {
    hide Inv, Run, Plain, PlanWith, FinishTurn, Storable;
    plan := PlanWith([Coding]);
    PlanIsNew([Coding]);
    PlanTypes([Coding]);
    var ready: Db;
    events, ready := AnswerFirst(plan);
    var env := Plain().(followUpWorthy := true);
    turn := FinishEvent(0, None, env);
    PlainIsUp();
    PlainIsStorable();
    FirstUnevaluated(ready);
    FirstIsCoding(plan, ready);
    CodingFollowUpAborts(ready, 0, env);
  }

  lemma {:induction false} PlainIsUp()
    ensures Plain().evaluatorUp && Plain().generatorUp
  {}

  // --- Scores ---------------------------------------------------------------------------------------------

  /** One score of 33.333 is stored as 33.33, and the averages of the turn and of the rows differ. */
  lemma {:induction false} RoundedScoreSplitsAverages() returns (raw: Scores, e: Evaluation)
    ensures raw.technical == 33.333 && e.scores == ToColumns(raw) && e.scores.technical == 33.33
    ensures AddScores(ComputeInterviewScores([]), raw) != ComputeInterviewScores([] + [e])
  {
    raw := Scores(33.333, 50.0, 50.0, 50.0);
    e := Evaluation(0, ToColumns(raw), Maintain);
    assert HalfAway(3333.3) == 3333 by { assert (3333.8 as real).Floor == 3333; }
    hide AddScores, ComputeInterviewScores, HalfAway;
    RunningScoresRefineBatch([], e, raw);
  }

  /** Recorded once, a rise from 50 to 60 is IMPROVING; recorded again, the same report makes it STABLE. */
  lemma {:induction false} TrendIsForgotten()
    returns (before: Progress.Tables, report: Progress.Report, normalize: string -> string, once: Progress.Tables, twice: Progress.Tables)
    ensures Progress.Recorded(before, report, normalize, once) && Progress.Recorded(once, report, normalize, twice)
    ensures before.skills == map["sql" := Progress.SkillProgress(50.0, Progress.Stable)]
    ensures once.skills == map["sql" := Progress.SkillProgress(60.0, Progress.Improving)]
    ensures twice.skills == map["sql" := Progress.SkillProgress(60.0, Progress.Stable)]
  {
    var area := Progress.Area("sql", Some("technical"));
    normalize := (topic: string) => topic;
    report := Progress.Report(0, None, 60.0, map["technical" := 60.0], [area], [], 0, Progress.DailySnapshot(1, 60.0));
    before := Progress.Tables(map["sql" := Progress.SkillProgress(50.0, Progress.Stable)], map[], map[]);
    once := Progress.Tables(map["sql" := Progress.SkillProgress(60.0, Progress.Improving)], map[], map[0 := Progress.DailySnapshot(1, 60.0)]);
    twice := once.(skills := map["sql" := Progress.SkillProgress(60.0, Progress.Stable)]);
    assert Filter(Progress.HasSection, [area]) == [area] by { assert [area][1..] == []; }
    assert Progress.TopicSections(report) == [area];
    assert [area][..0] == [];
    assert forall skill :: Progress.FirstScore(normalize, report.sectionScores, [area], skill)
                           == if skill == "sql" then Some(60.0) else None;
  }
}
