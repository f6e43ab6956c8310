/** Coding problems over a whole interview: with a fixed catalog a problem comes back only when nothing of
    its difficulty is left unused. */
module ProblemReuse {
  import opened Domain
  import opened Policy
  import opened TurnGraph
  import opened Execution
  import opened Runs
  import opened Interleavings

  /** `p` is the selector's choice at `difficulty`, given the problems used before. */
  ghost predicate Picked(catalog: seq<Problem>, roleKey: Option<string>, used: set<nat>, difficulty: DifficultyLevel, p: nat) {
    var choice := SelectCodingProblem(catalog, difficulty, roleKey, used);
    choice.Some? && choice.value.id == p
  }

  /** A question has been asked about problem `p`. */
  ghost predicate Asked(questions: seq<Question>, p: nat) {
    exists j :: 0 <= j < |questions| && questions[j].problem == Some(p)
  }

  /** A problem made for the interview's role fits best, then one made for no role in particular. */
  ghost function Fit(roleKey: Option<string>, c: Problem): nat {
    if roleKey.Some? && roleKey.value != "" && roleKey.value in c.roleKeys then 2 else if c.roleKeys == [] then 1 else 0
  }

  /** Catalog entry `i` is at least as good a choice as entry `k` after these questions: not asked yet, then better
      fitting, then earlier in the catalog. */
  ghost predicate NoWorse(catalog: seq<Problem>, roleKey: Option<string>, questions: seq<Question>, i: nat, k: nat)
    requires i < |catalog| && k < |catalog|
  {
    var (askedI, askedK) := (Asked(questions, catalog[i].id), Asked(questions, catalog[k].id));
    var (fitI, fitK) := (Fit(roleKey, catalog[i]), Fit(roleKey, catalog[k]));
    (!askedI && askedK) || ((askedI <==> askedK) && (fitI > fitK || (fitI == fitK && i <= k)))
  }

  /** Catalog entry `i` is the choice at `difficulty` after these questions. */
  ghost predicate IsBest(catalog: seq<Problem>, roleKey: Option<string>, questions: seq<Question>, difficulty: DifficultyLevel, i: nat) {
    && i < |catalog| && catalog[i].difficulty == difficulty
    && forall k: nat :: k < |catalog| && catalog[k].difficulty == difficulty ==> NoWorse(catalog, roleKey, questions, i, k)
  }

  lemma {:induction false} PreferredIsNoWorse(catalog: seq<Problem>, roleKey: Option<string>, questions: seq<Question>, i: nat, k: nat)
    requires i < |catalog| && k < |catalog| && Preferred(catalog, roleKey, UsedProblems(questions), i, k)
    ensures NoWorse(catalog, roleKey, questions, i, k)
  {
    assert catalog[i].id in UsedProblems(questions) <==> Asked(questions, catalog[i].id);
    assert catalog[k].id in UsedProblems(questions) <==> Asked(questions, catalog[k].id);
  }

  /** A picked problem is the best catalog entry of the exact difficulty. */
  lemma {:induction false} PickedMeans(
    catalog: seq<Problem>, roleKey: Option<string>, questions: seq<Question>, difficulty: DifficultyLevel, p: nat)
    returns (i: nat)
    requires Picked(catalog, roleKey, UsedProblems(questions), difficulty, p)
    ensures IsBest(catalog, roleKey, questions, difficulty, i) && catalog[i].id == p
  {
    hide SelectCodingProblem, Preferred, NoWorse, UsedProblems;
    i := SelectsTheLeast(catalog, difficulty, roleKey, UsedProblems(questions));
    forall k: nat | k < |catalog| && catalog[k].difficulty == difficulty
      ensures NoWorse(catalog, roleKey, questions, i, k)
    {
      PreferredIsNoWorse(catalog, roleKey, questions, i, k);
    }
  }

  lemma {:induction false} OpenPicks(s: TurnState, env: Env)
    requires OpenQuestion(s, env).Success?
    ensures var ref := OpenQuestion(s, env).value.currentQuestion;
      ref.Some? && (ref.value.problem.Some? ==>
        Picked(env.catalog, s.roleKey, s.codingProblemHistory, ref.value.difficulty, ref.value.problem.value))
  {
    hide SelectCodingProblem;
    var i := SelectsTheLeast(env.catalog, s.currentDifficulty, s.roleKey, s.codingProblemHistory);
  }

  lemma {:induction false} GraphPicks(s: TurnState, env: Env)
    requires s.currentQuestion.None? && RunGraph(s, env).Success?
    ensures var ref := RunGraph(s, env).value.currentQuestion;
      ref.Some? && ref.value.problem.Some? ==>
        Picked(env.catalog, s.roleKey, s.codingProblemHistory, ref.value.difficulty, ref.value.problem.value)
  {
    hide AddScores, Picked, OpenQuestion, RootsAsked;
    var decided := if s.trigger == SubmitAnswer then DecideNextAction(AdaptDifficulty(s, env)) else s;
    if OpenQuestion(decided, env).Success? {
      OpenPicks(decided, env);
    }
    if RoundTransition(decided).Success? && OpenQuestion(RoundTransition(decided).value, env).Success? {
      OpenPicks(RoundTransition(decided).value, env);
    }
  }

  /** At most one question is added, and a coding problem it carries was picked from the catalog. */
  ghost predicate AsksFrom(db: Db, after: Db, catalog: seq<Problem>) {
    && after.roleKey == db.roleKey
    && (|| after.questions == db.questions
        || (&& |after.questions| == |db.questions| + 1 && after.questions[..|db.questions|] == db.questions
            && var q := after.questions[|db.questions|];
               q.problem.Some? ==> Picked(catalog, db.roleKey, UsedProblems(db.questions), q.difficulty, q.problem.value)))
  }

  lemma {:induction false} TailAsks(db: Db, view: Session, r: nat, s: TurnState, env: Env)
    requires r < |db.rounds| && ApplyTransition(db, view, r, s, env).Success?
    requires s.currentQuestion.Some? && s.currentQuestion.value.problem.Some? ==>
               Picked(env.catalog, db.roleKey, UsedProblems(db.questions), s.currentQuestion.value.difficulty, s.currentQuestion.value.problem.value)
    ensures AsksFrom(db, ApplyTransition(db, view, r, s, env).value.0, env.catalog)
  {}

  function CatalogOf(ev: Event): Option<seq<Problem>> {
    match ev
    case StartEvent(env) => Some(env.catalog)
    case FinishEvent(_, _, env) => Some(env.catalog)
    case CodingDoneEvent(_, _, env) => Some(env.catalog)
    case _ => None
  }

  predicate UsesCatalog(ev: Event, catalog: seq<Problem>) { CatalogOf(ev) in {None, Some(catalog)} }

  lemma {:induction false} FinishAsks(db: Db, view: Session, q: nat, env: Env)
    ensures AsksFrom(db, FinishTurn(db, view, q, env).0, env.catalog)
  {
    hide RunGraph, ApplyTransition, UsedProblems, Picked, FinishTurn;
    if Committed(FinishTurn(db, view, q, env).1) {
      var r, s, pending := TurnIsTail(db, view, q, env);
      GraphPicks(TurnInput(db, view, r, q), env);
      TailAsks(pending, view, r, s, env);
    }
  }

  lemma {:induction false} CodingDoneAsks(db: Db, read: CodingRead, q: nat, env: Env)
    ensures AsksFrom(db, CompleteCodingRound(db, read, q, env).0, env.catalog)
  {
    hide RunGraph, ApplyTransition, UsedProblems, Picked;
    if Committed(CompleteCodingRound(db, read, q, env).1) {
      var r := db.questions[q].round;
      var input := InitialState(db, CodingRoundComplete, r, read.session.currentDifficulty);
      GraphPicks(input, env);
      TailAsks(db, read.session, r, RunGraph(input, env).value, env);
    }
  }

  lemma {:induction false} StartAsks(db: Db, env: Env)
    ensures AsksFrom(db, StartInterview(db, env).0, env.catalog)
  {
    hide RunGraph, UsedProblems, Picked;
    if Committed(StartInterview(db, env).1) {
      var r := RoundBySequence(db.rounds, FirstSequence(db.rounds)).value;
      GraphPicks(InitialState(db, StartTrigger, r, db.startingDifficulty).(interviewScores := ComputeInterviewScores([])), env);
    }
  }

  lemma {:induction false} StepAsks(db: Db, ev: Event, catalog: seq<Problem>)
    requires UsesCatalog(ev, catalog)
    ensures AsksFrom(db, Apply(db, ev).0, catalog)
  {
    hide StartInterview, FinishTurn, CompleteCodingRound, Picked, UsedProblems;
    match ev
    case StartEvent(env) => StartAsks(db, env);
    case FinishEvent(q, reread, env) => FinishAsks(db, Reread(db, reread), q, env);
    case CodingDoneEvent(q, reread, env) => CodingDoneAsks(db, RereadCoding(db, q, reread), q, env);
    case _ =>
  }

  /** The problem of question `j` is the best choice after the questions before it. */
  ghost predicate WellChosen(catalog: seq<Problem>, roleKey: Option<string>, questions: seq<Question>, j: nat)
    requires j < |questions| && questions[j].problem.Some?
  {
    exists i: nat :: IsBest(catalog, roleKey, questions[..j], questions[j].difficulty, i) && catalog[i].id == questions[j].problem.value
  }

  lemma {:induction false} EveryProblemIsBest(plan: Db, events: seq<Event>, catalog: seq<Problem>, j: nat)
    requires plan.questions == []
    requires forall i :: 0 <= i < |events| ==> UsesCatalog(events[i], catalog)
    requires j < |Run(plan, events).questions| && Run(plan, events).questions[j].problem.Some?
    ensures Run(plan, events).roleKey == plan.roleKey
    ensures WellChosen(catalog, plan.roleKey, Run(plan, events).questions, j)
  {
    hide Apply, UsesCatalog, Picked, IsBest, UsedProblems;
    if events != [] {
      var before := events[..|events| - 1];
      var db := Run(plan, before);
      RoleIsKept(plan, before, catalog);
      StepAsks(db, events[|events| - 1], catalog);
      var after := Run(plan, events);
      if j < |db.questions| {
        EveryProblemIsBest(plan, before, catalog, j);
        assert after.questions[..j] == db.questions[..j] && after.questions[j] == db.questions[j];
      } else {
        assert after.questions[..j] == db.questions;
        var q := after.questions[j];
        var i := PickedMeans(catalog, db.roleKey, db.questions, q.difficulty, q.problem.value);
      }
    }
  }

  lemma {:induction false} RoleIsKept(plan: Db, events: seq<Event>, catalog: seq<Problem>)
    requires forall i :: 0 <= i < |events| ==> UsesCatalog(events[i], catalog)
    ensures Run(plan, events).roleKey == plan.roleKey
  {
    hide Apply, UsesCatalog, Picked, UsedProblems;
    if events != [] {
      RoleIsKept(plan, events[..|events| - 1], catalog);
      StepAsks(Run(plan, events[..|events| - 1]), events[|events| - 1], catalog);
    }
  }

  /** Over every run with a fixed catalog, even with stale re-reads, each coding question is about the best catalog entry
      of its difficulty, and two questions share a problem only if every problem of that difficulty had been asked. */
  lemma {:induction false} ReuseOnlyWhenExhausted(plan: Db, events: seq<Event>, catalog: seq<Problem>, j: nat)
    requires plan.questions == []
    requires forall i :: 0 <= i < |events| ==> UsesCatalog(events[i], catalog)
    requires j < |Run(plan, events).questions| && Run(plan, events).questions[j].problem.Some?
    ensures var questions := Run(plan, events).questions;
      && WellChosen(catalog, plan.roleKey, questions, j)
      && (Asked(questions[..j], questions[j].problem.value) ==>
            forall k :: 0 <= k < |catalog| && catalog[k].difficulty == questions[j].difficulty ==> Asked(questions[..j], catalog[k].id))
  {
    hide Run, UsesCatalog, Asked, Fit;
    EveryProblemIsBest(plan, events, catalog, j);
    var questions := Run(plan, events).questions;
    var i: nat :| IsBest(catalog, plan.roleKey, questions[..j], questions[j].difficulty, i) && catalog[i].id == questions[j].problem.value;
    forall k: nat | k < |catalog| && catalog[k].difficulty == questions[j].difficulty
      ensures Asked(questions[..j], catalog[i].id) ==> Asked(questions[..j], catalog[k].id)
    {
      assert NoWorse(catalog, plan.roleKey, questions[..j], i, k);
    }
  }
}
