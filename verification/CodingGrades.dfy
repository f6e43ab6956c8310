/** An interview together with the submission protocols of its coding questions: a coding round is completed by the
    job of a graded submission, or left by an evaluated answer. */
module CodingGrades {
  import opened Domain
  import opened TurnGraph
  import opened Execution
  import opened Invariant
  import opened Steps
  import opened Runs
  import opened Interleavings
  import opened StaleReads
  import Submissions

  /** `protocols` holds the submissions of each coding question. */
  datatype World = World(db: Db, protocols: map<nat, Submissions.State>)

  /** `Finish` is what a job does after its gate has let it through, or never, if it dies in between. */
  datatype Happening =
    | Call(call: Event)
    | Submit(question: nat, step: Submissions.Event)
    | Finish(question: nat, env: Env)

  function ProtocolOf(w: World, q: nat): Submissions.State {
    if q in w.protocols then w.protocols[q] else Submissions.Empty
  }

  predicate IsCoding(db: Db, q: nat) { q < |db.questions| && db.questions[q].questionType == CodingTask }

  function Happens(w: World, h: Happening): World {
    match h
    case Call(call) => if call.CodingDoneEvent? then w else w.(db := Apply(w.db, call).0)
    case Submit(q, step) =>
      if IsCoding(w.db, q) then w.(protocols := w.protocols[q := Submissions.Step(ProtocolOf(w, q), step)]) else w
    case Finish(q, env) =>
      if ProtocolOf(w, q).advances != [] then w.(db := Apply(w.db, CodingDoneEvent(q, None, env)).0) else w
  }

  function History(w: World, happenings: seq<Happening>): World {
    if happenings == [] then w
    else Happens(History(w, happenings[..|happenings| - 1]), happenings[|happenings| - 1])
  }

  /** Reads are committed, and every job runs at most once. */
  predicate Orderly(h: Happening) { (h.Call? ==> Fresh(h.call)) && (h.Submit? ==> !h.step.Duplicate?) }

  // --- One coding question per coding round ------------------------------------------------------------

  lemma {:induction false} RootCounts(questions: seq<Question>, a: nat, r: nat)
    requires a < |questions| && questions[a].round == r && questions[a].parent.None?
    ensures Roots(questions, r) >= 1
    ensures Roots(questions, r) == 1 ==>
              forall b :: 0 <= b < |questions| && b != a && questions[b].round == r ==> questions[b].parent.Some?
  {
    var init := questions[..|questions| - 1];
    if a < |init| {
      RootCounts(init, a, r);
      assert forall b :: 0 <= b < |init| ==> init[b] == questions[b];
    } else {
      forall b: nat | b < |init| && init[b].round == r && init[b].parent.None?
        ensures Roots(init, r) >= 1
      {
        RootCounts(init, b, r);
      }
      assert forall b :: 0 <= b < |init| ==> init[b] == questions[b];
    }
  }

  lemma {:induction false} RootExists(questions: seq<Question>, r: nat) returns (a: nat)
    requires Roots(questions, r) >= 1
    ensures a < |questions| && questions[a].round == r && questions[a].parent.None?
  {
    var last := |questions| - 1;
    if questions[last].round == r && questions[last].parent.None? {
      a := last;
    } else {
      a := RootExists(questions[..last], r);
    }
  }

  /** The coding question of the active round is the open one. */
  lemma {:induction false} ActiveCodingIsOpen(db: Db, q: nat)
    requires Inv(db) && db.session.status == InProgress && IsCoding(db, q) && db.questions[q].round == ActiveRound(db)
    ensures db.session.currentQuestion == Some(q)
  {
    hide RowsAgree, EarlierAnswered, DifficultyFolds, Roots;
    var (r, last) := (ActiveRound(db), |db.questions| - 1);
    assert AskedInOrder(db.rounds, db.questions, q) && AskedInOrder(db.rounds, db.questions, last);
    assert RoundFits(db.rounds, db.questions, r, r);
    RootCounts(db.questions, q, r);
  }

  // --- How a round comes to be completed ------------------------------------------------------------------

  predicate RoundCompleted(db: Db, q: nat) {
    q < |db.questions| && db.questions[q].round < |db.rounds| && db.rounds[db.questions[q].round].status == Completed
  }

  lemma {:induction false} TailAsks(db: Db, view: Session, r: nat, s: TurnState, env: Env)
    requires r < |db.rounds| && ApplyTransition(db, view, r, s, env).Success?
    ensures AsksAtMostOne(db, ApplyTransition(db, view, r, s, env).value.0)
  {}

  /** The questions are as they were, or one was added and is the open one. */
  predicate AsksAtMostOne(db: Db, after: Db) {
    || after.questions == db.questions
    || (&& |after.questions| == |db.questions| + 1 && after.questions[..|db.questions|] == db.questions
        && after.session.currentQuestion == Some(|db.questions|))
  }

  lemma {:induction false} TurnAsks(db: Db, ev: Event)
    requires IsTurn(ev) && Fresh(ev) && Committed(Apply(db, ev).1)
    ensures AsksAtMostOne(db, Apply(db, ev).0)
    ensures db.session.status == InProgress && db.session.currentQuestion == Some(ev.question)
  {
    hide RunGraph, ApplyTransition;
    match ev
    case FinishEvent(q, reread, env) =>
      var r, s, pending := TurnIsTail(db, db.session, q, env);
      TailAsks(pending, db.session, r, s, env);
    case CodingDoneEvent(q, read, env) =>
      var input := InitialState(db, CodingRoundComplete, db.questions[q].round, db.session.currentDifficulty);
      TailAsks(db, db.session, db.questions[q].round, RunGraph(input, env).value, env);
  }

  lemma {:induction false} OtherCallsCompleteNothing(db: Db, ev: Event, q: nat)
    requires Inv(db) && !(IsTurn(ev) && Committed(Apply(db, ev).1))
    ensures RoundCompleted(Apply(db, ev).0, q) ==> RoundCompleted(db, q)
  {
    hide RunGraph, FinishTurn, CompleteCodingRound, Threaded, RowsAgree, EarlierAnswered, DifficultyFolds, Running, Over;
  }

  lemma {:induction false} OpenRoundIsNotCompleted(db: Db, q: nat)
    requires Inv(db) && db.session.currentQuestion == Some(q)
    ensures !RoundCompleted(db, q)
  {
    hide Threaded, RowsAgree, EarlierAnswered, DifficultyFolds, Roots;
    assert RoundFits(db.rounds, db.questions, ActiveRound(db), ActiveRound(db));
  }

  lemma {:induction false} OlderRoundsAreCompleted(db: Db, q: nat)
    requires Inv(db) && db.session.status == InProgress && q < |db.questions|
    ensures RoundCompleted(db, q) || db.questions[q].round == ActiveRound(db)
  {
    hide RowsAgree, EarlierAnswered, DifficultyFolds, Roots;
    RoundsAscend(db.rounds, db.questions, q, |db.questions| - 1);
    assert RoundFits(db.rounds, db.questions, ActiveRound(db), db.questions[q].round);
  }

  /** Only a committed turn about a coding question completes its round. */
  lemma {:induction false} CompletedByOwnTurn(db: Db, ev: Event, q: nat)
    requires Inv(db) && Fresh(ev)
    requires IsCoding(Apply(db, ev).0, q) && RoundCompleted(Apply(db, ev).0, q) && !RoundCompleted(db, q)
    ensures IsTurn(ev) && ev.question == q && Committed(Apply(db, ev).1)
  {
    hide Apply, Inv, IsTurn;
    var after := Apply(db, ev).0;
    if IsTurn(ev) && Committed(Apply(db, ev).1) {
      StepKeepsInvariant(db, ev);
      TurnAsks(db, ev);
      if q < |db.questions| {
        assert after.questions[q] == db.questions[q];
        OlderRoundsAreCompleted(db, q);
        ActiveCodingIsOpen(db, q);
      } else {
        OpenRoundIsNotCompleted(after, q);
      }
    } else {
      OtherCallsCompleteNothing(db, ev, q);
    }
  }

  // --- The joint invariant ----------------------------------------------------------------------------------

  /** A coding evaluation, or an evaluated answer in words. */
  ghost predicate Graded(w: World, q: nat) { Evaluated(w.db, q) || ProtocolOf(w, q).evaluations != [] }

  ghost predicate Closed(w: World) {
    forall q: nat :: IsCoding(w.db, q) && RoundCompleted(w.db, q) ==> Graded(w, q)
  }

  ghost predicate WorldFits(w: World) {
    && Inv(w.db)
    && (forall q :: q in w.protocols ==> Submissions.Inv(w.protocols[q]))
    && Closed(w)
  }

  lemma {:induction false} CallKeepsClosed(w: World, ev: Event)
    requires Inv(w.db) && Fresh(ev) && Closed(w)
    requires ev.CodingDoneEvent? ==> ProtocolOf(w, ev.question).evaluations != []
    ensures Inv(Apply(w.db, ev).0) && Closed(w.(db := Apply(w.db, ev).0))
  {
    hide Apply, Inv, RoundCompleted, Evaluated, Unique, Grows;
    var (db, after) := (w.db, Apply(w.db, ev).0);
    InvImpliesUnique(db);
    StepKeepsInvariant(db, ev);
    StepIsSafe(db, ev);
    forall q: nat | IsCoding(after, q) && RoundCompleted(after, q)
      ensures Graded(w.(db := after), q)
    {
      if RoundCompleted(db, q) {
        CompletedIsOld(db, after, q);
        if Evaluated(db, q) {
          StaysEvaluated(db, after, q);
        }
      } else {
        CompletedByOwnTurn(db, ev, q);
        if ev.FinishEvent? {
          TurnEvaluates(db, ev);
        }
      }
    }
  }

  lemma {:induction false} CompletedIsOld(db: Db, after: Db, q: nat)
    requires Grows(db, after) && RoundCompleted(db, q) && IsCoding(after, q)
    ensures IsCoding(db, q)
  {
    assert after.questions[q] == db.questions[q];
  }

  lemma {:induction false} SubmitKeepsWorld(w: World, q: nat, step: Submissions.Event)
    requires WorldFits(w) && !step.Duplicate?
    ensures WorldFits(Happens(w, Submit(q, step)))
  {
    hide Inv, Submissions.Inv, Submissions.Step, RoundCompleted, Evaluated;
    var after := Happens(w, Submit(q, step));
    Submissions.EmptySatisfiesInvariant();
    Submissions.StepKeepsInvariant(ProtocolOf(w, q), step);
    Submissions.EvaluationsGrow(ProtocolOf(w, q), step);
    forall c: nat | IsCoding(after.db, c) && RoundCompleted(after.db, c)
      ensures Graded(after, c)
    {
      assert Graded(w, c);
    }
  }

  lemma {:induction false} HappeningKeepsWorld(w: World, h: Happening)
    requires WorldFits(w) && Orderly(h)
    ensures WorldFits(Happens(w, h))
  {
    hide Apply, Inv, Closed, Submissions.Inv, Submissions.Step;
    match h
    case Call(call) =>
      if !call.CodingDoneEvent? {
        CallKeepsClosed(w, call);
      }
    case Submit(q, step) => SubmitKeepsWorld(w, q, step);
    case Finish(q, env) =>
      if ProtocolOf(w, q).advances != [] {
        AdvancedIsEvaluated(w, q);
        CallKeepsClosed(w, CodingDoneEvent(q, None, env));
      }
  }

  lemma {:induction false} AdvancedIsEvaluated(w: World, q: nat)
    requires WorldFits(w) && ProtocolOf(w, q).advances != []
    ensures ProtocolOf(w, q).evaluations != []
  {
    hide Inv, Closed;
    assert ProtocolOf(w, q).advances[0] in ProtocolOf(w, q).advances;
    assert Submissions.EvaluationsFit(ProtocolOf(w, q));
  }

  lemma {:induction false} EveryHistoryFits(plan: Db, happenings: seq<Happening>)
    requires NewPlan(plan) && forall i :: 0 <= i < |happenings| ==> Orderly(happenings[i])
    ensures WorldFits(History(World(plan, map[]), happenings))
  {
    hide Happens, Inv, NewPlan;
    if happenings == [] {
      NewPlanSatisfiesInvariant(plan);
      NothingAsked(plan);
    } else {
      EveryHistoryFits(plan, happenings[..|happenings| - 1]);
      HappeningKeepsWorld(History(World(plan, map[]), happenings[..|happenings| - 1]), happenings[|happenings| - 1]);
    }
  }

  lemma {:induction false} NothingAsked(plan: Db)
    requires NewPlan(plan)
    ensures Closed(World(plan, map[]))
  {}

  /** In every history of calls, submissions and jobs, a completed coding round has a question whose code was evaluated
      or whose answer was. */
  lemma {:induction false} CompletedCodingRoundIsGraded(plan: Db, happenings: seq<Happening>, r: nat) returns (q: nat)
    requires NewPlan(plan) && forall i :: 0 <= i < |happenings| ==> Orderly(happenings[i])
    requires var db := History(World(plan, map[]), happenings).db;
      r < |db.rounds| && db.rounds[r].roundType == Coding && db.rounds[r].status == Completed
    ensures var w := History(World(plan, map[]), happenings);
      q < |w.db.questions| && w.db.questions[q].round == r && Graded(w, q)
  {
    hide History, NewPlan, Roots, Evaluated;
    EveryHistoryFits(plan, happenings);
    var w := History(World(plan, map[]), happenings);
    CompletedRoundHasRoot(w.db, r);
    q := RootExists(w.db.questions, r);
    IsCodingThere(w.db, q);
    assert Graded(w, q);
  }

  lemma {:induction false} CompletedRoundHasRoot(db: Db, r: nat)
    requires Inv(db) && r < |db.rounds| && db.rounds[r].status == Completed
    ensures Roots(db.questions, r) >= 1
  {
    hide Threaded, RowsAgree, EarlierAnswered, DifficultyFolds, Roots;
    if Standing(db) {
      assert RoundFits(db.rounds, db.questions, ActiveRound(db), r);
    } else if Over(db) {
      assert RoundFits(db.rounds, db.questions, |db.rounds|, r);
    }
  }

  lemma {:induction false} IsCodingThere(db: Db, q: nat)
    requires Inv(db) && q < |db.questions| && db.questions[q].round < |db.rounds| && db.rounds[db.questions[q].round].roundType == Coding
    ensures IsCoding(db, q)
  {
    assert AskedInOrder(db.rounds, db.questions, q);
  }
}
