/** How long an interview can last, whatever the evaluator and the candidate do. */
module Termination {
  import opened Domain
  import opened Policy
  import opened TurnGraph
  import opened Execution
  import opened Invariant
  import opened Steps
  import opened Runs

  /** Each root question can be deepened this many times at most, itself included. */
  const TURNS_PER_ROOT: nat := 1 + MAX_FOLLOW_UPS_PER_QUESTION

  /** The most turns the plan entries from position `k` on can take. */
  function TurnsFrom(rounds: seq<Round>, k: nat): nat
    decreases |rounds| - k
  {
    if k >= |rounds| then 0 else TURNS_PER_ROOT * Target(rounds, k) + TurnsFrom(rounds, k + 1)
  }

  lemma {:induction false} TurnsFromTypes(rounds: seq<Round>, marked: seq<Round>, k: nat)
    requires |marked| == |rounds| && forall i :: 0 <= i < |rounds| ==> marked[i].roundType == rounds[i].roundType
    ensures TurnsFrom(marked, k) == TurnsFrom(rounds, k)
    decreases |rounds| - k
  {
    if k < |rounds| {
      TurnsFromTypes(rounds, marked, k + 1);
    }
  }

  // --- The measure --------------------------------------------------------------------------

  ghost function RoundsLeft(db: Db): int { |db.rounds| - ActiveRound(db) }

  ghost function RootsLeft(db: Db): int
    requires Standing(db)
  {
    Target(db.rounds, ActiveRound(db)) - Roots(db.questions, ActiveRound(db))
  }

  ghost function FollowUpsLeft(db: Db): int
    requires db.questions != []
  {
    MAX_FOLLOW_UPS_PER_QUESTION - Depth(db.questions, |db.questions| - 1)
  }

  /** Rounds not completed, then root questions left in the active round, then follow-ups left for the
      current root. */
  ghost predicate MeasureDrops(db: Db, after: Db)
    requires Standing(db) && Standing(after)
  {
    || RoundsLeft(after) < RoundsLeft(db)
    || (RoundsLeft(after) == RoundsLeft(db)
        && (|| RootsLeft(after) < RootsLeft(db)
            || (RootsLeft(after) == RootsLeft(db) && FollowUpsLeft(after) < FollowUpsLeft(db))))
  }

  /** The most turns that can still follow. */
  ghost function TurnsLeft(db: Db): int {
    match db.session.status
    case NotStarted => TurnsFrom(db.rounds, 0)
    case InProgress =>
      if Standing(db) then
        TurnsFrom(db.rounds, ActiveRound(db) + 1) + TURNS_PER_ROOT * RootsLeft(db) + FollowUpsLeft(db) + 1
      else 0
    case _ => 0
  }

  lemma {:induction false} TurnsLeftIsNatural(db: Db)
    requires Inv(db)
    ensures TurnsLeft(db) >= 0 && (db.session.status == InProgress ==> TurnsLeft(db) >= 1)
  {
    hide RowsAgree, EarlierAnswered, DifficultyFolds, Roots, Depth, TurnsFrom;
    if db.session.status == InProgress {
      assert AskedInOrder(db.rounds, db.questions, |db.questions| - 1);
      assert RoundFits(db.rounds, db.questions, ActiveRound(db), ActiveRound(db));
    }
  }

  // --- Every turn lowers it -------------------------------------------------------------------

  ghost predicate SameTypes(db: Db, after: Db) {
    |after.rounds| == |db.rounds| && forall i :: 0 <= i < |db.rounds| ==> after.rounds[i].roundType == db.rounds[i].roundType
  }

  /** What the shared tail leaves behind, up to what the measure looks at. */
  lemma {:induction false} TailResult(db: Db, view: Session, s: TurnState, env: Env)
    requires Numbered(db.rounds) && Standing(db) && SeesSession(db, view) && db.session.status == InProgress
    requires Ends(db, s)
    requires ApplyTransition(db, view, ActiveRound(db), s, env).Success?
    ensures var after := ApplyTransition(db, view, ActiveRound(db), s, env).value.0;
      && SameTypes(db, after)
      && (s.completed ==> after.session.status == Finished)
      && (!s.completed ==>
            && after.session.status == InProgress && after.session.currentRound == s.currentRoundIndex
            && |after.questions| == |db.questions| + 1
            && after.questions == db.questions + [after.questions[|db.questions|]]
            && var asked := after.questions[|db.questions|];
               asked.round == s.currentRoundIndex - 1
               && (asked.parent == s.currentQuestion.value.parent || asked.parent == None))
  {
    hide RoundsFit, Roots;
    var marked := Mark(db.rounds, ActiveRound(db), Completed);
    RoundNumber(marked, s.currentRoundIndex);
  }

  lemma {:induction false} AskingLowersMeasure(db: Db, after: Db, asked: Question)
    requires Threaded(db.rounds, db.questions) && Standing(db) && Standing(after) && SameTypes(db, after)
    requires db.session.status == InProgress && after.session.status == InProgress
    requires after.questions == db.questions + [asked] && asked.round == ActiveRound(after)
    requires
      || (ActiveRound(after) == ActiveRound(db) && (asked.parent == None || asked.parent == Some(|db.questions| - 1)))
      || (ActiveRound(after) == ActiveRound(db) + 1 && RootsLeft(db) == 0 && asked.parent == None)
    ensures MeasureDrops(db, after) && TurnsLeft(after) < TurnsLeft(db)
  {
    hide Roots;
    var r := ActiveRound(db);
    var newest: nat := |db.questions| - 1;
    assert AskedInOrder(db.rounds, db.questions, newest);
    DepthStable(db.questions, asked, newest);
    RootsAppend(db.questions, asked, asked.round);
    TurnsFromTypes(db.rounds, after.rounds, r + 1);
    TurnsFromTypes(db.rounds, after.rounds, r + 2);
    assert r + 1 < |db.rounds| ==> RoundFits(db.rounds, db.questions, r, r + 1);
  }

  /** Any successful turn, text or coding, lowers the measure or finishes the interview. */
  lemma {:induction false} TailLowersMeasure(db: Db, view: Session, s: TurnState, env: Env)
    requires Ready(db) && SeesSession(db, view) && Ends(db, s)
    requires ApplyTransition(db, view, ActiveRound(db), s, env).Success?
    ensures var after := ApplyTransition(db, view, ActiveRound(db), s, env).value.0;
      && TurnsLeft(after) < TurnsLeft(db)
      && (after.session.status == Finished || (Standing(after) && MeasureDrops(db, after)))
  {
    hide ApplyTransition, DifficultyFolds, RowsAgree, AllAnswered, Roots, Depth;
    var after := ApplyTransition(db, view, ActiveRound(db), s, env).value.0;
    TailResult(db, view, s, env);
    TransitionKeepsInvariant(db, view, s, env);
    assert RoundFits(db.rounds, db.questions, ActiveRound(db), ActiveRound(db));
    assert AskedInOrder(db.rounds, db.questions, |db.questions| - 1);
    if !s.completed {
      AskingLowersMeasure(db, after, after.questions[|db.questions|]);
    }
  }

  /** Storing the evaluation alone leaves the measure where it was. */
  lemma {:induction false} EvaluationKeepsMeasure(db: Db, e: Evaluation)
    requires Standing(db)
    ensures Standing(WithEvaluation(db, e)) && TurnsLeft(WithEvaluation(db, e)) == TurnsLeft(db)
    ensures forall after :: Standing(after) ==> (MeasureDrops(WithEvaluation(db, e), after) <==> MeasureDrops(db, after))
  {}

  lemma {:induction false} TurnLowersMeasure(db: Db, ev: Event)
    requires Inv(db) && Fresh(ev) && IsTurn(ev) && Committed(Apply(db, ev).1)
    ensures db.session.status == InProgress
    ensures var after := Apply(db, ev).0;
      && TurnsLeft(after) < TurnsLeft(db)
      && (after.session.status == Finished || (Standing(after) && MeasureDrops(db, after)))
  {
    hide RunGraph, StoreTurn, ApplyTransition, Ends, MeasureDrops, TurnsLeft, Ready, Threaded, RowsAgree, DifficultyFolds, EarlierAnswered;
    match ev
    case FinishEvent(q, reread, env) =>
      FreshWriteBack(db, q, env);
      var e := TurnEvaluation(db, q, env);
      EvaluatedIsReady(db, e);
      TurnShape(db, q, env, e);
      EvaluationKeepsMeasure(db, e);
      TailLowersMeasure(WithEvaluation(db, e), db.session, RunGraph(TurnInput(db, db.session, ActiveRound(db), q), env).value, env);
    case CodingDoneEvent(q, reread, env) =>
      var input := CodingIsReady(db, q, env);
      TailLowersMeasure(db, db.session, RunGraph(input, env).value, env);
  }

  // --- The bound on whole runs ------------------------------------------------------------------

  /** How many turns of a run moved the interview on. */
  function TurnsTaken(db: Db, events: seq<Event>): nat {
    if events == [] then 0
    else
      var before := events[..|events| - 1];
      var last := events[|events| - 1];
      TurnsTaken(db, before) + (if IsTurn(last) && Committed(Apply(Run(db, before), last).1) then 1 else 0)
  }

  lemma {:induction false} StartKeepsTurnsLeft(db: Db, env: Env)
    requires Inv(db)
    ensures TurnsLeft(StartInterview(db, env).0) <= TurnsLeft(db)
  {
    hide StartInterview, RowsAgree, EarlierAnswered, DifficultyFolds, OpenQuestion;
    if Committed(StartInterview(db, env).1) {
      StartShape(db, env);
      StartKeepsInvariant(db, env);
      var after := StartInterview(db, env).0;
      TurnsFromTypes(db.rounds, after.rounds, 1);
      assert RoundFits(after.rounds, after.questions, 0, 0);
    }
  }

  lemma {:induction false} OtherEventsKeepTurnsLeft(db: Db, ev: Event)
    requires Inv(db) && Fresh(ev) && !(IsTurn(ev) && Committed(Apply(db, ev).1))
    ensures TurnsLeft(Apply(db, ev).0) <= TurnsLeft(db)
  {
    hide StartInterview, FinishTurn, CompleteCodingRound, RoundsFit, Threaded, RowsAgree, EarlierAnswered, DifficultyFolds, TurnsFrom;
    TurnsLeftIsNatural(db);
    if ev.StartEvent? {
      StartKeepsTurnsLeft(db, ev.env);
    } else if ev.SaveEvent? || ev.CodingAnswerEvent? {
      var after := Apply(db, ev).0;
      assert after == db.(answers := after.answers);
      assert Standing(after) == Standing(db);
    }
  }

  /** Turns taken and turns left never add up to more than the plan allows at the start. */
  lemma {:induction false} TurnsAreBudgeted(db: Db, events: seq<Event>)
    requires Inv(db) && AllFresh(events)
    ensures TurnsTaken(db, events) + TurnsLeft(Run(db, events)) <= TurnsLeft(db)
  {
    hide Inv, Apply, TurnsLeft, IsTurn;
    if events != [] {
      var before := events[..|events| - 1];
      var last := events[|events| - 1];
      TurnsAreBudgeted(db, before);
      EveryRunKeepsInvariant(db, before);
      if IsTurn(last) && Committed(Apply(Run(db, before), last).1) {
        TurnLowersMeasure(Run(db, before), last);
      } else {
        OtherEventsKeepTurnsLeft(Run(db, before), last);
      }
    }
  }

  /** No run of a plan takes more turns than the sum over its rounds of target questions times one plus the
      follow-up cap, however often clients retry. */
  lemma {:induction false} RunsAreBounded(plan: Db, events: seq<Event>)
    requires NewPlan(plan) && AllFresh(events)
    ensures TurnsTaken(plan, events) <= TurnsFrom(plan.rounds, 0)
  {
    hide Inv, Run, TurnsTaken, TurnsFrom;
    NewPlanSatisfiesInvariant(plan);
    TurnsAreBudgeted(plan, events);
    EveryRunKeepsInvariant(plan, events);
    TurnsLeftIsNatural(Run(plan, events));
  }
}
