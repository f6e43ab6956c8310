/** The running averages kept inside a turn against the batch averages rebuilt from stored rows. */
module ScoreAverages {
  import opened TurnGraph
  import opened Execution
  import opened Rounding
  import Policy

  lemma {:induction false} SumAppend(evaluations: seq<Evaluation>, e: Evaluation, dimension: Scores -> real)
    ensures SumOf(evaluations + [e], dimension) == SumOf(evaluations, dimension) + dimension(e.scores)
  {
    assert (evaluations + [e])[..|evaluations|] == evaluations;
  }

  lemma {:induction false} SharedDenominator(sum: real, n: nat, x: real, y: real)
    ensures (sum + x) / (n + 1) as real == (sum + y) / (n + 1) as real <==> x == y
  {
    var d := (n + 1) as real;
    assert ((sum + x) / d) * d == sum + x && ((sum + y) / d) * d == sum + y;
  }

  /** Extending the batch mean by a raw score gives the batch mean that includes the stored row, exactly when
      storing the score did not round it. */
  lemma {:induction false} RunningMeanIsBatchMean(evaluations: seq<Evaluation>, e: Evaluation, raw: real, dimension: Scores -> real)
    requires dimension(e.scores) == Column(raw)
    ensures var before := if evaluations == [] then 0.0 else Mean(evaluations, dimension);
      RunningAverage(before, |evaluations|, raw) == Mean(evaluations + [e], dimension) <==> Column(raw) == raw
  {
    var n := |evaluations|;
    SumAppend(evaluations, e, dimension);
    if n > 0 {
      var mean := Mean(evaluations, dimension);
      assert mean * n as real == SumOf(evaluations, dimension);
      SharedDenominator(SumOf(evaluations, dimension), n, raw, Column(raw));
    }
  }

  predicate StoredExactly(scores: Scores) { ToColumns(scores) == scores }

  /** Folding the running update over a turn refines rebuilding the averages from all rows: the two agree on
      all four dimensions and on the count exactly when the four scores are whole hundredths. */
  lemma {:induction false} RunningScoresRefineBatch(evaluations: seq<Evaluation>, e: Evaluation, raw: Scores)
    requires e.scores == ToColumns(raw)
    ensures AddScores(ComputeInterviewScores(evaluations), raw) == ComputeInterviewScores(evaluations + [e])
            <==> StoredExactly(raw)
  {
    hide SumOf, Mean, RunningAverage, Column;
    RunningMeanIsBatchMean(evaluations, e, raw.technical, (s: Scores) => s.technical);
    RunningMeanIsBatchMean(evaluations, e, raw.problemSolving, (s: Scores) => s.problemSolving);
    RunningMeanIsBatchMean(evaluations, e, raw.communication, (s: Scores) => s.communication);
    RunningMeanIsBatchMean(evaluations, e, raw.confidence, (s: Scores) => s.confidence);
  }

  function FoldScores(raw: seq<Scores>): RunningScores {
    if raw == [] then RunningScores(Scores(0.0, 0.0, 0.0, 0.0), 0)
    else AddScores(FoldScores(raw[..|raw| - 1]), raw[|raw| - 1])
  }

  /** The running update folded over any sequence of evaluations is the batch average of its rows. */
  lemma {:induction false} FoldRefinesBatch(raw: seq<Scores>, evaluations: seq<Evaluation>)
    requires |raw| == |evaluations|
    requires forall i :: 0 <= i < |raw| ==> StoredExactly(raw[i]) && evaluations[i].scores == ToColumns(raw[i])
    ensures FoldScores(raw) == ComputeInterviewScores(evaluations)
  {
    hide AddScores, ComputeInterviewScores, ToColumns, StoredExactly;
    if raw == [] {
      NoScores();
      assert evaluations == [];
    } else {
      var n := |raw| - 1;
      FoldRefinesBatch(raw[..n], evaluations[..n]);
      RunningScoresRefineBatch(evaluations[..n], evaluations[n], raw[n]);
      assert evaluations == evaluations[..n] + [evaluations[n]];
    }
  }

  lemma {:induction false} NoScores()
    ensures ComputeInterviewScores([]) == RunningScores(Scores(0.0, 0.0, 0.0, 0.0), 0)
  {}

  /** The graph's averages after a turn are one running update of the averages rebuilt before it. */
  lemma {:induction false} GraphExtendsAverages(db: Db, view: Session, r: nat, q: nat, env: Env)
    requires r < |db.rounds| && q < |db.questions|
    requires RunGraph(TurnInput(db, view, r, q), env).Success?
    ensures RunGraph(TurnInput(db, view, r, q), env).value.interviewScores
            == AddScores(ComputeInterviewScores(db.evaluations), env.scores)
  {
    hide AddScores, ComputeInterviewScores, RoundHistory, Policy.SelectCodingProblem;
  }

  /** After a committed turn the averages shown in the graph state are the averages of the stored rows. */
  lemma {:induction false} TurnAveragesMatchRows(db: Db, view: Session, q: nat, env: Env) returns (r: nat)
    requires Committed(FinishTurn(db, view, q, env).1)
    ensures r < |db.rounds| && q < |db.questions| && RunGraph(TurnInput(db, view, r, q), env).Success?
    ensures var after := FinishTurn(db, view, q, env).0;
      RunGraph(TurnInput(db, view, r, q), env).value.interviewScores == ComputeInterviewScores(after.evaluations)
      <==> StoredExactly(env.scores)
  {
    hide RunGraph, AddScores, ComputeInterviewScores, StoredExactly, ToColumns, ApplyTransition;
    r := RoundBySequence(db.rounds, view.currentRound).value;
    GraphExtendsAverages(db, view, r, q, env);
    var s := RunGraph(TurnInput(db, view, r, q), env).value;
    var row := Evaluation(AnswerOf(db.answers, q).value, ToColumns(s.evaluation.value.0), s.evaluation.value.1);
    EvaluatorScores(TurnInput(db, view, r, q), env);
    RunningScoresRefineBatch(db.evaluations, row, env.scores);
  }

  lemma {:induction false} EvaluatorScores(s: TurnState, env: Env)
    requires s.trigger == SubmitAnswer && RunGraph(s, env).Success?
    ensures RunGraph(s, env).value.evaluation.Some? && RunGraph(s, env).value.evaluation.value.0 == env.scores
  {
    hide AddScores, Policy.SelectCodingProblem;
  }
}
