/** What the stored rows of an interview look like in every state its service calls can reach, and the
    proof that each call keeps it. */
module Invariant {
  import opened Domain
  import opened Policy
  import opened TurnGraph
  import opened Execution
  import FollowUps

  // --- Follow-up threads -------------------------------------------------------------

  /** How many follow-ups lie between question `i` and the root it deepens, counting `i` itself. */
  ghost function Depth(questions: seq<Question>, i: nat): nat
    requires i < |questions|
  {
    if questions[i].parent.None? || i == 0 then 0 else Depth(questions, i - 1) + 1
  }

  /** How many root questions round `r` holds. */
  function Roots(questions: seq<Question>, r: nat): nat {
    if questions == [] then 0
    else
      var last := questions[|questions| - 1];
      Roots(questions[..|questions| - 1], r) + (if last.round == r && last.parent.None? then 1 else 0)
  }

  ghost predicate AskedInOrder(rounds: seq<Round>, questions: seq<Question>, i: nat)
    requires i < |questions|
  {
    var q := questions[i];
    && q.round < |rounds|
    && (q.questionType == CodingTask <==> rounds[q.round].roundType == Coding)
    && (q.questionType == DesignTask <==> rounds[q.round].roundType == SystemDesign)
    && (q.problem.Some? <==> q.questionType == CodingTask)
    && (i > 0 ==> questions[i - 1].round <= q.round)
    && (q.parent.Some? ==> i > 0 && q.parent == Some(i - 1) && questions[i - 1].round == q.round && q.problem.None?)
    && Depth(questions, i) <= MAX_FOLLOW_UPS_PER_QUESTION
  }

  /** Every follow-up points at the question just before it, in the same round, and no thread is longer than
      the cap allows. */
  ghost predicate Threaded(rounds: seq<Round>, questions: seq<Question>) {
    forall i: nat :: i < |questions| ==> AskedInOrder(rounds, questions, i)
  }

  lemma {:induction false} DepthStable(questions: seq<Question>, q: Question, i: nat)
    requires i < |questions|
    ensures Depth(questions + [q], i) == Depth(questions, i)
  {
    if questions[i].parent.Some? && i > 0 {
      DepthStable(questions, q, i - 1);
    }
  }

  lemma {:induction false} RootsAppend(questions: seq<Question>, q: Question, r: nat)
    ensures Roots(questions + [q], r) == Roots(questions, r) + (if q.round == r && q.parent.None? then 1 else 0)
  {
    assert (questions + [q])[..|questions|] == questions;
  }

  lemma {:induction false} RoundsAscend(rounds: seq<Round>, questions: seq<Question>, i: nat, j: nat)
    requires Threaded(rounds, questions) && i <= j < |questions|
    ensures questions[i].round <= questions[j].round
  {
    if i < j {
      RoundsAscend(rounds, questions, i, j - 1);
      assert AskedInOrder(rounds, questions, j);
    }
  }

  /** Appending a question that continues the thread, or opens a topic no earlier than the last round. */
  lemma {:induction false} ThreadedAppend(rounds: seq<Round>, marked: seq<Round>, questions: seq<Question>, q: Question)
    requires Threaded(rounds, questions)
    requires |marked| == |rounds| && forall i :: 0 <= i < |rounds| ==> marked[i].roundType == rounds[i].roundType
    requires q.round < |rounds|
    requires q.questionType == CodingTask <==> rounds[q.round].roundType == Coding
    requires q.questionType == DesignTask <==> rounds[q.round].roundType == SystemDesign
    requires q.problem.Some? <==> q.questionType == CodingTask
    requires questions != [] ==> questions[|questions| - 1].round <= q.round
    requires q.parent.Some? ==>
               && questions != [] && q.parent == Some(|questions| - 1) && q.problem.None?
               && questions[|questions| - 1].round == q.round
               && Depth(questions, |questions| - 1) < MAX_FOLLOW_UPS_PER_QUESTION
    ensures Threaded(marked, questions + [q])
  {
    var longer := questions + [q];
    forall i: nat | i < |longer|
      ensures AskedInOrder(marked, longer, i)
    {
      if i < |questions| {
        assert AskedInOrder(rounds, questions, i);
        DepthStable(questions, q, i);
      } else if q.parent.Some? {
        DepthStable(questions, q, i - 1);
      }
    }
  }

  // --- The recount done before each turn ------------------------------------------------

  lemma {:induction false} RootsRecounted(questions: seq<Question>, r: nat, t: RoundType)
    ensures RootsAsked(RoundHistory(questions, r, t)) == Roots(questions, r)
  {
    if questions != [] {
      var last := |questions| - 1;
      RootsRecounted(questions[..last], r, t);
      var history := RoundHistory(questions, r, t);
      if questions[last].round == r {
        assert history[..|history| - 1] == RoundHistory(questions[..last], r, t);
      } else {
        assert history == RoundHistory(questions[..last], r, t);
      }
    }
  }

  /** A thread leads back to its root, inside the round's own parent map. */
  lemma {:induction false} ThreadReaches(rounds: seq<Round>, questions: seq<Question>, r: nat, i: nat)
    requires Threaded(rounds, questions) && i < |questions| && questions[i].round == r
    ensures Depth(questions, i) <= i
    ensures var root := i - Depth(questions, i);
      && FollowUps.Reaches(RoundParents(questions, r), i, root, Depth(questions, i))
      && FollowUps.IsRoot(RoundParents(questions, r), root)
  {
    assert AskedInOrder(rounds, questions, i);
    if questions[i].parent.Some? {
      ThreadReaches(rounds, questions, r, i - 1);
    }
  }

  lemma {:induction false} ParentsPointBack(rounds: seq<Round>, questions: seq<Question>, r: nat, x: nat, y: nat, k: nat)
    requires Threaded(rounds, questions)
    requires FollowUps.Reaches(RoundParents(questions, r), x, y, k)
    ensures y + k <= x
    decreases k
  {
    if k > 0 {
      assert AskedInOrder(rounds, questions, x);
      ParentsPointBack(rounds, questions, r, x - 1, y, k - 1);
    }
  }

  lemma {:induction false} RoundForest(rounds: seq<Round>, questions: seq<Question>, r: nat)
    requires Threaded(rounds, questions)
    ensures FollowUps.Acyclic(RoundParents(questions, r)) && FollowUps.Closed(RoundParents(questions, r))
  {
    var parents := RoundParents(questions, r);
    forall x, k: nat | k > 0
      ensures !FollowUps.Reaches(parents, x, x, k)
    {
      if FollowUps.Reaches(parents, x, x, k) {
        ParentsPointBack(rounds, questions, r, x, x, k);
      }
    }
    forall x | x in parents && parents[x].Some?
      ensures parents[x].value in parents
    {
      assert AskedInOrder(rounds, questions, x);
    }
  }

  lemma {:induction false} ThreadRoot(rounds: seq<Round>, questions: seq<Question>, r: nat, i: nat)
    requires Threaded(rounds, questions) && i < |questions| && questions[i].round == r
    ensures Depth(questions, i) <= i && FollowUps.RootOf(RoundParents(questions, r), i) == i - Depth(questions, i)
  {
    var parents := RoundParents(questions, r);
    RoundForest(rounds, questions, r);
    ThreadReaches(rounds, questions, r, i);
    var k := FollowUps.WalkEndsAtRoot(parents, i);
    FollowUps.ReachesUnique(parents, i, i - Depth(questions, i), Depth(questions, i), FollowUps.RootOf(parents, i), k);
  }

  function Interval(low: nat, high: nat): (s: set<nat>)
    ensures forall x: nat :: x in s <==> low < x <= high
    ensures low <= high ==> |s| == high - low
    decreases high
  {
    if low < high then Interval(low, high - 1) + {high} else {}
  }

  lemma {:induction false} ThreadIsRun(rounds: seq<Round>, questions: seq<Question>, i: nat, x: nat)
    requires Threaded(rounds, questions) && i < |questions|
    requires i - Depth(questions, i) <= x <= i
    ensures x - Depth(questions, x) == i - Depth(questions, i) && questions[x].round == questions[i].round
  {
    if x < i {
      assert AskedInOrder(rounds, questions, i);
      ThreadIsRun(rounds, questions, i - 1, x);
    }
  }

  /** The count rebuilt from rows is the true number of follow-ups under the newest question's root. */
  lemma {:induction false} RecountIsDepth(rounds: seq<Round>, questions: seq<Question>, r: nat, q: nat)
    requires Threaded(rounds, questions)
    requires q == |questions| - 1 && questions[q].round == r
    ensures FollowUps.CountFollowUps(RoundParents(questions, r), q) == Depth(questions, q)
  {
    var parents := RoundParents(questions, r);
    ThreadRoot(rounds, questions, r, q);
    var root := q - Depth(questions, q);
    var thread := Interval(root, q);
    forall x: nat
      ensures x in FollowUps.Siblings(parents, q) <==> x in thread
    {
      if root < x <= q {
        ThreadIsRun(rounds, questions, q, x);
        ThreadRoot(rounds, questions, r, x);
      } else if x in parents {
        ThreadRoot(rounds, questions, r, x);
      }
    }
    assert FollowUps.Siblings(parents, q) == thread;
  }

  /** No question ever has more descendants than the cap. */
  lemma {:induction false} DescendantsCapped(rounds: seq<Round>, questions: seq<Question>, r: nat, root: nat)
    requires Threaded(rounds, questions)
    ensures |FollowUps.Tree(RoundParents(questions, r), root) - {root}| <= MAX_FOLLOW_UPS_PER_QUESTION
  {
    var parents := RoundParents(questions, r);
    var below := FollowUps.Tree(parents, root) - {root};
    forall x | x in below
      ensures x in {root + 1, root + 2}
    {
      var k: nat :| FollowUps.Reaches(parents, x, root, k);
      ReachIsDepth(rounds, questions, r, x, root, k);
      assert AskedInOrder(rounds, questions, x);
    }
    assert below <= {root + 1, root + 2};
    SubsetSize(below, {root + 1, root + 2});
  }

  lemma {:induction false} ReachIsDepth(rounds: seq<Round>, questions: seq<Question>, r: nat, x: nat, y: nat, k: nat)
    requires Threaded(rounds, questions) && x in RoundParents(questions, r)
    requires FollowUps.Reaches(RoundParents(questions, r), x, y, k)
    ensures x == y + k && k <= Depth(questions, x)
    decreases k
  {
    if k > 0 {
      assert AskedInOrder(rounds, questions, x);
      ReachIsDepth(rounds, questions, r, x - 1, y, k - 1);
    }
  }

  lemma {:induction false} SubsetSize<T>(a: set<T>, b: set<T>)
    requires a <= b
    ensures |a| <= |b|
  {
    if a != {} {
      var x :| x in a;
      SubsetSize(a - {x}, b - {x});
    }
  }

  // --- The invariant --------------------------------------------------------------------

  /** Plans are numbered 1..n, as the templates are; see NumberingMatters in module PlanNumbering. */
  ghost predicate Numbered(rounds: seq<Round>) {
    rounds != [] && forall i :: 0 <= i < |rounds| ==> rounds[i].sequenceNo == i + 1
  }

  function Target(rounds: seq<Round>, r: nat): nat
    requires r < |rounds|
  {
    QuestionsPerRound(rounds[r].roundType)
  }

  /** Round `i` while round `active` is the open one: completed with exactly its target of root questions,
      untouched, or active and not beyond its target. */
  ghost predicate RoundFits(rounds: seq<Round>, questions: seq<Question>, active: int, i: nat)
    requires i < |rounds|
  {
    if i < active then rounds[i].status == Completed && Roots(questions, i) == Target(rounds, i)
    else if i > active then rounds[i].status == Pending && Roots(questions, i) == 0
    else rounds[i].status == Active && 1 <= Roots(questions, i) <= Target(rounds, i)
  }

  ghost predicate RoundsFit(rounds: seq<Round>, questions: seq<Question>, active: int) {
    forall i: nat :: i < |rounds| ==> RoundFits(rounds, questions, active, i)
  }

  /** Planned, not started. */
  ghost predicate Planned(db: Db) {
    && db.session.currentQuestion == None
    && db.session.currentDifficulty == db.startingDifficulty
    && db.questions == [] && db.answers == [] && db.evaluations == []
    && forall r :: 0 <= r < |db.rounds| ==> db.rounds[r].status == Pending
  }

  /** The question that stored evaluation `j` is about. */
  function EvaluatedQuestion(answers: seq<Answer>, evaluations: seq<Evaluation>, j: nat): nat
    requires j < |evaluations| && evaluations[j].answer < |answers|
  {
    answers[evaluations[j].answer].question
  }

  ghost predicate IsEvaluated(db: Db, q: nat) {
    exists j: nat :: j < |db.evaluations| && db.evaluations[j].answer < |db.answers| && EvaluatedQuestion(db.answers, db.evaluations, j) == q
  }

  /** One round is active: all before it are completed with exactly their target of root questions, all after
      it are untouched, and the newest question is the open one. */
  ghost predicate Standing(db: Db) {
    var r := db.session.currentRound - 1;
    && 0 <= r < |db.rounds|
    && db.questions != []
    && db.session.currentQuestion == Some(|db.questions| - 1)
    && db.questions[|db.questions| - 1].round == r
    && RoundsFit(db.rounds, db.questions, r)
  }

  ghost predicate Running(db: Db) { Standing(db) && !IsEvaluated(db, |db.questions| - 1) }

  ghost predicate Over(db: Db) {
    && db.session.currentQuestion == None
    && db.questions != []
    && RoundsFit(db.rounds, db.questions, |db.rounds|)
  }

  /** Unique answers per question, unique evaluations per answer, evaluations in question order. */
  ghost predicate RowsAgree(db: Db) {
    && (forall i: nat :: i < |db.answers| ==> db.answers[i].question < |db.questions|)
    && (forall i, j :: 0 <= i < j < |db.answers| ==> db.answers[i].question != db.answers[j].question)
    && (forall j: nat :: j < |db.evaluations| ==> db.evaluations[j].answer < |db.answers|)
    && (forall i: nat, j: nat :: i < j < |db.evaluations| ==> EvaluatedQuestion(db.answers, db.evaluations, i) < EvaluatedQuestion(db.answers, db.evaluations, j))
  }

  ghost predicate EarlierAnswered(db: Db) {
    forall q: nat :: q < |db.questions| ==>
      db.questions[q].questionType == CodingTask || db.session.currentQuestion == Some(q) || IsEvaluated(db, q)
  }

  function Signals(evaluations: seq<Evaluation>): seq<DifficultySignal> {
    seq(|evaluations|, j requires 0 <= j < |evaluations| => evaluations[j].signal)
  }

  function DifficultyAfter(db: Db, k: nat): DifficultyLevel
    requires k <= |db.evaluations|
  {
    FoldSignals(db.startingDifficulty, Signals(db.evaluations[..k]))
  }

  /** Question `q` was asked after exactly the first `k` evaluations and carries the difficulty they led to. */
  ghost predicate AskedAt(db: Db, q: nat, k: nat)
    requires q < |db.questions| && RowsAgree(db)
  {
    && k <= |db.evaluations|
    && db.questions[q].difficulty == DifficultyAfter(db, k)
    && (forall j: nat :: j < |db.evaluations| ==> (j < k <==> EvaluatedQuestion(db.answers, db.evaluations, j) < q))
  }

  ghost predicate CarriesFold(db: Db, q: nat)
    requires q < |db.questions| && RowsAgree(db)
  {
    exists k: nat :: AskedAt(db, q, k)
  }

  ghost predicate DifficultyFolds(db: Db)
    requires RowsAgree(db)
  {
    && db.session.currentDifficulty == DifficultyAfter(db, |db.evaluations|)
    && forall q: nat :: q < |db.questions| ==> CarriesFold(db, q)
  }

  ghost predicate Inv(db: Db) {
    && Numbered(db.rounds)
    && Threaded(db.rounds, db.questions)
    && RowsAgree(db)
    && (match db.session.status
        case NotStarted => Planned(db)
        case InProgress => Running(db)
        case Finished => Over(db)
        case Abandoned => Planned(db) || Running(db))
    && EarlierAnswered(db)
    && DifficultyFolds(db)
  }

  // --- Frame lemmas ------------------------------------------------------------------------

  lemma {:induction false} SignalsAppend(start: DifficultyLevel, evaluations: seq<Evaluation>, e: Evaluation)
    ensures FoldSignals(start, Signals(evaluations + [e]))
            == ApplyDifficultySignal(FoldSignals(start, Signals(evaluations)), e.signal)
  {
    var longer := Signals(evaluations + [e]);
    assert longer[..|longer| - 1] == Signals(evaluations);
  }

  /** The newest question's evaluation is stored and the difficulty adapts to its signal. */
  function WithEvaluation(db: Db, e: Evaluation): Db {
    db.(evaluations := db.evaluations + [e],
        session := db.session.(currentDifficulty := ApplyDifficultySignal(db.session.currentDifficulty, e.signal)))
  }

  ghost predicate EvaluatesNewest(db: Db, e: Evaluation) {
    && db.questions != []
    && db.session.currentQuestion == Some(|db.questions| - 1)
    && e.answer < |db.answers| && db.answers[e.answer].question == |db.questions| - 1
    && !IsEvaluated(db, |db.questions| - 1)
  }

  lemma {:induction false} EvaluationOrder(db: Db, e: Evaluation, j: nat)
    requires RowsAgree(db) && EvaluatesNewest(db, e) && j < |db.evaluations|
    ensures EvaluatedQuestion(db.answers, WithEvaluation(db, e).evaluations, j) == EvaluatedQuestion(db.answers, db.evaluations, j) < |db.questions| - 1
  {
    assert db.evaluations[j].answer < |db.answers|;
    assert EvaluatedQuestion(db.answers, db.evaluations, j) < |db.questions|;
  }

  lemma {:induction false} EvaluationKeepsRows(db: Db, e: Evaluation)
    requires RowsAgree(db) && EvaluatesNewest(db, e)
    ensures RowsAgree(WithEvaluation(db, e))
  {
    var after := WithEvaluation(db, e);
    forall j: nat | j < |db.evaluations|
      ensures EvaluatedQuestion(after.answers, after.evaluations, j) == EvaluatedQuestion(db.answers, db.evaluations, j) < |db.questions| - 1
    {
      EvaluationOrder(db, e, j);
    }
    assert EvaluatedQuestion(after.answers, after.evaluations, |db.evaluations|) == |db.questions| - 1;
  }

  lemma {:induction false} EvaluationClosesNewest(db: Db, e: Evaluation, q: nat)
    requires RowsAgree(db) && EvaluatesNewest(db, e) && EarlierAnswered(db)
    requires q < |db.questions| && db.questions[q].questionType != CodingTask
    ensures IsEvaluated(WithEvaluation(db, e), q)
  {
    var after := WithEvaluation(db, e);
    if q == |db.questions| - 1 {
      assert EvaluatedQuestion(after.answers, after.evaluations, |db.evaluations|) == q;
    } else {
      var j: nat :| j < |db.evaluations| && db.evaluations[j].answer < |db.answers| && EvaluatedQuestion(db.answers, db.evaluations, j) == q;
      EvaluationOrder(db, e, j);
      assert EvaluatedQuestion(after.answers, after.evaluations, j) == q;
    }
  }

  lemma {:induction false} EvaluationFolds(db: Db, e: Evaluation)
    requires RowsAgree(db) && EvaluatesNewest(db, e) && DifficultyFolds(db)
    ensures RowsAgree(WithEvaluation(db, e)) && DifficultyFolds(WithEvaluation(db, e))
  {
    EvaluationKeepsRows(db, e);
    var after := WithEvaluation(db, e);
    var n := |db.evaluations|;
    SignalsAppend(db.startingDifficulty, db.evaluations, e);
    assert db.evaluations[..n] == db.evaluations && after.evaluations[..n + 1] == after.evaluations;
    forall q: nat | q < |db.questions|
      ensures CarriesFold(after, q)
    {
      assert CarriesFold(db, q);
      var k: nat :| AskedAt(db, q, k);
      FoldStable(db, e, q, k);
    }
  }

  lemma {:induction false} FoldStable(db: Db, e: Evaluation, q: nat, k: nat)
    requires RowsAgree(db) && EvaluatesNewest(db, e) && RowsAgree(WithEvaluation(db, e))
    requires q < |db.questions| && AskedAt(db, q, k)
    ensures AskedAt(WithEvaluation(db, e), q, k)
  {
    var after := WithEvaluation(db, e);
    assert after.evaluations[..k] == db.evaluations[..k];
    forall j: nat | j < |after.evaluations|
      ensures j < k <==> EvaluatedQuestion(after.answers, after.evaluations, j) < q
    {
      if j < |db.evaluations| {
        EvaluationOrder(db, e, j);
      }
    }
  }

  /** Asking a new question at the current difficulty, whatever becomes of the rounds. */
  lemma {:induction false} AskingKeepsRows(db: Db, question: Question, rounds: seq<Round>, session: Session)
    requires RowsAgree(db) && DifficultyFolds(db)
    requires question.difficulty == db.session.currentDifficulty == session.currentDifficulty
    ensures var after := db.(questions := db.questions + [question], rounds := rounds, session := session);
      RowsAgree(after) && DifficultyFolds(after) && !IsEvaluated(after, |db.questions|)
  {
    var after := db.(questions := db.questions + [question], rounds := rounds, session := session);
    forall j: nat | j < |db.evaluations|
      ensures EvaluatedQuestion(after.answers, after.evaluations, j) == EvaluatedQuestion(db.answers, db.evaluations, j) < |db.questions|
    {}
    assert RowsAgree(after);
    forall q: nat | q < |after.questions|
      ensures CarriesFold(after, q)
    {
      if q < |db.questions| {
        assert CarriesFold(db, q);
        var k: nat :| AskedAt(db, q, k);
        assert AskedAt(after, q, k);
      } else {
        assert AskedAt(after, q, |db.evaluations|);
      }
    }
  }
}
