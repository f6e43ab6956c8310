/** The graph finds the next plan entry by position, the service finds its row by sequence number. This
    module says exactly which plans both agree on. */
module PlanNumbering {
  import opened Domain
  import opened TurnGraph
  import opened Execution
  import opened Invariant

  /** Rows of one plan in sequence order; the table allows no two equal numbers. */
  predicate Ascending(rounds: seq<Round>) {
    rounds != [] && forall i, j :: 0 <= i < j < |rounds| ==> rounds[i].sequenceNo < rounds[j].sequenceNo
  }

  /** The row an interview moves to when it leaves row `r`: the graph's transition followed by the service's
      lookup; no row when the interview completes. */
  function Leave(rounds: seq<Round>, r: nat, state: TurnState): Result<Option<nat>, ErrorCode>
    requires r < |rounds|
  {
    match RoundTransition(state.(roundPlan := RoundPlan(rounds), currentRoundIndex := rounds[r].sequenceNo))
    case Failure(e) => Failure(e)
    case Success(s) =>
      if s.nextAction == Some(Complete) then Success(None)
      else
        match RoundBySequence(rounds, s.currentRoundIndex)
        case None => Failure(RoundNotFound)
        case Some(next) => Success(Some(next))
  }

  /** Leaving the rows one after the other visits each in turn and then completes. */
  ghost predicate VisitsAll(rounds: seq<Round>, state: TurnState) {
    forall r: nat :: r < |rounds| ==> Leave(rounds, r, state) == Success(if r + 1 < |rounds| then Some(r + 1) else None)
  }

  lemma {:induction false} Consecutive(rounds: seq<Round>, state: TurnState, r: nat)
    requires Ascending(rounds) && VisitsAll(rounds, state) && r < |rounds|
    ensures rounds[r].sequenceNo == rounds[0].sequenceNo + r
  {
    if r > 0 {
      Consecutive(rounds, state, r - 1);
      assert Leave(rounds, r - 1, state) == Success(Some(r));
    }
  }

  lemma {:induction false} LastIsLength(rounds: seq<Round>, state: TurnState)
    requires Ascending(rounds) && VisitsAll(rounds, state)
    ensures rounds[|rounds| - 1].sequenceNo >= |rounds|
    ensures |rounds| > 1 ==> rounds[|rounds| - 1].sequenceNo == |rounds|
  {
    var n := |rounds|;
    assert Leave(rounds, n - 1, state) == Success(None);
    if n > 1 {
      assert Leave(rounds, n - 2, state) == Success(Some(n - 1));
      Consecutive(rounds, state, n - 1);
      Consecutive(rounds, state, n - 2);
    }
  }

  lemma {:induction false} NumberedIsVisited(rounds: seq<Round>, state: TurnState, r: nat)
    requires Numbered(rounds) && r < |rounds|
    ensures Leave(rounds, r, state) == Success(if r + 1 < |rounds| then Some(r + 1) else None)
  {
    if r + 1 < |rounds| {
      assert rounds[r + 1].sequenceNo == r + 2;
      assert RoundBySequence(rounds, r + 2) == Some(r + 1);
    }
  }

  lemma {:induction false} SingleRound(rounds: seq<Round>, state: TurnState)
    requires |rounds| == 1 && rounds[0].sequenceNo >= 1
    ensures Leave(rounds, 0, state) == Success(None)
  {}

  /** Every round of a plan is reached, in order, exactly when the plan is numbered 1..n; a plan with a single
      round only needs a positive number. */
  lemma {:induction false} NumberingMatters(rounds: seq<Round>, state: TurnState)
    requires Ascending(rounds)
    ensures VisitsAll(rounds, state) <==> (Numbered(rounds) || (|rounds| == 1 && rounds[0].sequenceNo >= 1))
  {
    hide Leave;
    if VisitsAll(rounds, state) {
      LastIsLength(rounds, state);
      Consecutive(rounds, state, |rounds| - 1);
      forall r: nat | r < |rounds| && |rounds| > 1
        ensures rounds[r].sequenceNo == r + 1
      {
        Consecutive(rounds, state, r);
      }
    } else if Numbered(rounds) {
      forall r: nat | r < |rounds|
        ensures Leave(rounds, r, state) == Success(if r + 1 < |rounds| then Some(r + 1) else None)
      {
        NumberedIsVisited(rounds, state, r);
      }
    } else if |rounds| == 1 && rounds[0].sequenceNo >= 1 {
      SingleRound(rounds, state);
    }
  }

  /** A plan numbered 1, 3 strands its candidate after the first round. */
  lemma {:induction false} GapLosesRound(state: TurnState, first: RoundType, second: RoundType)
    ensures var rounds := [Round(1, first, Active), Round(3, second, Pending)];
      Ascending(rounds) && Leave(rounds, 0, state) == Failure(RoundNotFound)
  {
    var rounds := [Round(1, first, Active), Round(3, second, Pending)];
    assert RoundBySequence(rounds, 2).None?;
  }
}
