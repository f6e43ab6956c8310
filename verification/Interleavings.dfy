/** What holds of every interleaving of requests, even when the phase-two re-read of the session row
    returns something other than the committed row: only the unique constraints are relied on. */
module Interleavings {
  import opened Domain
  import opened TurnGraph
  import opened Execution
  import opened Runs

  /** One answer per question, one evaluation per answer, and the pointer, when set, is at the newest question. */
  ghost predicate Unique(db: Db) {
    && (forall i, j :: 0 <= i < j < |db.answers| ==> db.answers[i].question != db.answers[j].question)
    && (forall i, j :: 0 <= i < j < |db.evaluations| ==> db.evaluations[i].answer != db.evaluations[j].answer)
    && (forall j :: 0 <= j < |db.evaluations| ==> db.evaluations[j].answer < |db.answers|)
    && (db.session.currentQuestion.Some? ==> db.session.currentQuestion.value + 1 == |db.questions|)
  }

  /** Nothing stored is lost or rewritten; whatever becomes the open question is newly asked. */
  ghost predicate Grows(db: Db, after: Db) {
    && db.answers <= after.answers
    && db.evaluations <= after.evaluations
    && db.questions <= after.questions
    && (after.session.currentQuestion.Some? ==>
          after.session.currentQuestion == db.session.currentQuestion || after.session.currentQuestion.value >= |db.questions|)
  }

  /** The questions only grow, and the pointer is unchanged, cleared, or at a question asked just now. */
  ghost predicate PointerFits(db: Db, after: Db) {
    && db.questions <= after.questions
    && (after.session.currentQuestion.Some? ==>
          || (after.session.currentQuestion == db.session.currentQuestion && after.questions == db.questions)
          || (after.session.currentQuestion.value == |db.questions| == |after.questions| - 1))
  }

  lemma {:induction false} TailGrows(db: Db, view: Session, r: nat, s: TurnState, env: Env)
    requires r < |db.rounds| && ApplyTransition(db, view, r, s, env).Success?
    ensures PointerFits(db, ApplyTransition(db, view, r, s, env).value.0)
  {}

  lemma {:induction false} StartIsSafe(db: Db, env: Env)
    requires Unique(db)
    ensures Unique(StartInterview(db, env).0) && Grows(db, StartInterview(db, env).0)
  {
    hide RunGraph;
  }

  lemma {:induction false} SaveIsSafe(db: Db, q: nat, text: string, missed: bool)
    requires Unique(db)
    ensures Unique(SaveAnswer(db, q, text, missed).0) && Grows(db, SaveAnswer(db, q, text, missed).0)
  {}

  lemma {:induction false} CodingAnswerIsSafe(db: Db, q: nat)
    requires Unique(db)
    ensures Unique(OpenCodingAnswer(db, q).0) && Grows(db, OpenCodingAnswer(db, q).0)
  {}

  lemma {:induction false} StepIsSafe(db: Db, ev: Event)
    requires Unique(db)
    ensures Unique(Apply(db, ev).0) && Grows(db, Apply(db, ev).0)
  {
    hide FinishTurn, CompleteCodingRound, StartInterview, SaveAnswer, OpenCodingAnswer;
    match ev
    case StartEvent(env) => StartIsSafe(db, env);
    case SaveEvent(q, text, missed) => SaveIsSafe(db, q, text, missed);
    case FinishEvent(q, reread, env) =>
      if Committed(Apply(db, ev).1) {
        FinishIsTail(db, Reread(db, reread), q, env);
      }
    case CodingAnswerEvent(q) => CodingAnswerIsSafe(db, q);
    case CodingDoneEvent(q, reread, env) =>
      if Committed(Apply(db, ev).1) {
        CodingDoneIsTail(db, RereadCoding(db, q, reread), q, env);
      }
    case AbandonEvent =>
  }

  /** A committed turn is one new evaluation row, perhaps another difficulty, and the shared tail. */
  lemma {:induction false} TurnIsTail(db: Db, view: Session, q: nat, env: Env) returns (r: nat, s: TurnState, pending: Db)
    requires Committed(FinishTurn(db, view, q, env).1)
    ensures r < |db.rounds| && RoundBySequence(db.rounds, view.currentRound) == Some(r) && q < |db.questions|
    ensures RunGraph(TurnInput(db, view, r, q), env) == Success(s)
    ensures pending == db.(evaluations := pending.evaluations,
                           session := db.session.(currentDifficulty := pending.session.currentDifficulty))
    ensures Success(FinishTurn(db, view, q, env)) == ApplyTransition(pending, view, r, s, env)
  {
    hide RunGraph, ApplyTransition;
    r := RoundBySequence(db.rounds, view.currentRound).value;
    s := RunGraph(TurnInput(db, view, r, q), env).value;
    var row := Evaluation(AnswerOf(db.answers, q).value, ToColumns(s.evaluation.value.0), s.evaluation.value.1);
    pending := db.(
      evaluations := db.evaluations + [row],
      session := db.session.(currentDifficulty :=
        WriteBack(view.currentDifficulty, s.currentDifficulty, db.session.currentDifficulty)));
  }

  lemma {:induction false} FinishIsTail(db: Db, view: Session, q: nat, env: Env)
    requires Committed(FinishTurn(db, view, q, env).1)
    ensures PointerFits(db, FinishTurn(db, view, q, env).0)
  {
    hide RunGraph, ApplyTransition, FinishTurn;
    var r, s, pending := TurnIsTail(db, view, q, env);
    TailGrows(pending, view, r, s, env);
  }

  lemma {:induction false} CodingDoneIsTail(db: Db, read: CodingRead, q: nat, env: Env)
    requires Committed(CompleteCodingRound(db, read, q, env).1)
    ensures PointerFits(db, CompleteCodingRound(db, read, q, env).0)
  {
    hide RunGraph, ApplyTransition;
    var r := db.questions[q].round;
    TailGrows(db, read.session, r, RunGraph(InitialState(db, CodingRoundComplete, r, read.session.currentDifficulty), env).value, env);
  }

  /** At most one answer per question and one evaluation per answer in every run; the first recorded answer
      and every evaluation stay as they are. */
  lemma {:induction false} RunIsSafe(db: Db, events: seq<Event>)
    requires Unique(db)
    ensures Unique(Run(db, events)) && Grows(db, Run(db, events))
  {
    hide Apply;
    if events != [] {
      var before := events[..|events| - 1];
      RunIsSafe(db, before);
      StepIsSafe(Run(db, before), events[|events| - 1]);
    }
  }

  /** Once the pointer has left an asked question it never comes back to it. */
  lemma {:induction false} PointerNeverReturns(db: Db, events: seq<Event>, q: nat)
    requires Unique(db) && q < |db.questions| && db.session.currentQuestion != Some(q)
    ensures Run(db, events).session.currentQuestion != Some(q)
  {
    hide Run;
    RunIsSafe(db, events);
  }

  /** How many times a run has stored an answered turn about question `q`. */
  function TextTurnsAbout(db: Db, events: seq<Event>, q: nat): nat {
    if events == [] then 0
    else
      var before := events[..|events| - 1];
      var last := events[|events| - 1];
      TextTurnsAbout(db, before, q)
      + (if last.FinishEvent? && last.question == q && Committed(Apply(Run(db, before), last).1) then 1 else 0)
  }

  ghost predicate Evaluated(db: Db, q: nat) {
    AnswerOf(db.answers, q).Some? && EvaluationOf(db.evaluations, AnswerOf(db.answers, q).value).Some?
  }

  lemma {:induction false} SameAnswer(db: Db, after: Db, q: nat)
    requires Unique(db) && Unique(after) && Grows(db, after) && AnswerOf(db.answers, q).Some?
    ensures AnswerOf(after.answers, q) == AnswerOf(db.answers, q)
    ensures var a := AnswerOf(db.answers, q).value;
      && after.answers[a] == db.answers[a]
      && (EvaluationOf(db.evaluations, a).Some? ==>
            EvaluationOf(after.evaluations, a) == EvaluationOf(db.evaluations, a)
            && after.evaluations[EvaluationOf(db.evaluations, a).value] == db.evaluations[EvaluationOf(db.evaluations, a).value])
  {
    var a := AnswerOf(db.answers, q).value;
    assert after.answers[a] == db.answers[a];
    if EvaluationOf(db.evaluations, a).Some? {
      var e := EvaluationOf(db.evaluations, a).value;
      assert after.evaluations[e] == db.evaluations[e];
    }
  }

  lemma {:induction false} StaysEvaluated(db: Db, after: Db, q: nat)
    requires Unique(db) && Unique(after) && Grows(db, after) && Evaluated(db, q)
    ensures Evaluated(after, q)
  {
    SameAnswer(db, after, q);
  }

  /** At most one evaluated turn is ever stored about a question, whatever the re-reads return. */
  lemma {:induction false} AtMostOneTextTurn(db: Db, events: seq<Event>, q: nat)
    requires Unique(db)
    ensures TextTurnsAbout(db, events, q) <= 1
    ensures TextTurnsAbout(db, events, q) == 1 ==> Evaluated(Run(db, events), q)
  {
    hide Apply, FinishTurn, Unique, Grows, AnswerOf, EvaluationOf;
    if events != [] {
      var before := events[..|events| - 1];
      var last := events[|events| - 1];
      AtMostOneTextTurn(db, before, q);
      RunIsSafe(db, before);
      StepIsSafe(Run(db, before), last);
      if Evaluated(Run(db, before), q) {
        SameAnswer(Run(db, before), Run(db, events), q);
      }
      if last.FinishEvent? && last.question == q && Committed(Apply(Run(db, before), last).1) {
        TurnEvaluates(Run(db, before), last);
      }
    }
  }

  lemma {:induction false} TurnEvaluates(db: Db, ev: Event)
    requires Unique(db) && ev.FinishEvent? && Committed(Apply(db, ev).1)
    ensures !Evaluated(db, ev.question) && Evaluated(Apply(db, ev).0, ev.question)
  {
    hide FinishTurn;
    var after := Apply(db, ev).0;
    assert after == FinishTurn(db, Reread(db, ev.reread), ev.question, ev.env).0;
  }

  /** Once a question's answer is evaluated, submitting to it again replays that evaluation and changes
      nothing, in every later state. */
  lemma {:induction false} ReplayForever(db: Db, events: seq<Event>, q: nat, text: string)
    requires Unique(db) && q < |db.questions| && Evaluated(db, q)
    ensures var e := EvaluationOf(db.evaluations, AnswerOf(db.answers, q).value).value;
      && SaveAnswer(Run(db, events), q, text, false) == (Run(db, events), Replayed(e))
      && Run(db, events).evaluations[e] == db.evaluations[e]
  {
    hide Run;
    RunIsSafe(db, events);
    SameAnswer(db, Run(db, events), q);
  }

  /** The first answer recorded for a question is the one every later state holds. */
  lemma {:induction false} FirstAnswerStays(db: Db, events: seq<Event>, q: nat)
    requires Unique(db) && AnswerOf(db.answers, q).Some?
    ensures AnswerOf(Run(db, events).answers, q) == AnswerOf(db.answers, q)
    ensures var a := AnswerOf(db.answers, q).value; Run(db, events).answers[a] == db.answers[a]
  {
    hide Run;
    RunIsSafe(db, events);
    SameAnswer(db, Run(db, events), q);
  }

  // --- Terminal states --------------------------------------------------------------------------

  predicate Terminal(db: Db) { db.session.status == Finished || db.session.status == Abandoned }

  /** With committed re-reads a completed or abandoned interview never changes again; only a coding request
      may still add an empty answer row. */
  lemma {:induction false} TerminalStatesAbsorb(db: Db, events: seq<Event>)
    requires Terminal(db) && AllFresh(events)
    ensures Run(db, events) == db.(answers := Run(db, events).answers) && db.answers <= Run(db, events).answers
  {
    hide RunGraph, ApplyTransition;
    if events != [] {
      TerminalStatesAbsorb(db, events[..|events| - 1]);
    }
  }
}
