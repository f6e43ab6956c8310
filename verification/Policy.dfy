/** The deterministic execution policy: round lengths, difficulty adaptation, problem selection. */
module Policy {
  import opened Domain

  const MAX_FOLLOW_UPS_PER_QUESTION: nat := 2

  const DIFFICULTY_INCREASE_THRESHOLD: real := 80.0
  const DIFFICULTY_DECREASE_THRESHOLD: real := 40.0

  function QuestionsPerRound(t: RoundType): (n: nat)
    ensures 1 <= n <= 3
  {
    match t
    case Technical => 3
    case Behavioral | ResumeDiscussion | SystemDesign => 2
    case Introduction | Coding | Final => 1
  }

  // --- Adaptive difficulty -------------------------------------------------

  function ComputeDifficultySignal(technicalScore: real, problemSolvingScore: real): DifficultySignal {
    var average := (technicalScore + problemSolvingScore) / 2.0;
    if average >= DIFFICULTY_INCREASE_THRESHOLD then Increase
    else if average <= DIFFICULTY_DECREASE_THRESHOLD then Decrease
    else Maintain
  }

  function Rank(d: DifficultyLevel): (i: nat)
    ensures i <= 2
  {
    match d
    case Easy => 0
    case Medium => 1
    case Hard => 2
  }

  function Level(i: int): DifficultyLevel {
    if i <= 0 then Easy else if i == 1 then Medium else Hard
  }

  function ApplyDifficultySignal(current: DifficultyLevel, signal: DifficultySignal): DifficultyLevel {
    var index := Rank(current);
    match signal
    case Increase => Level(Min(index + 1, 2))
    case Decrease => Level(Max(index - 1, 0))
    case Maintain => Level(index)
  }

  /** The difficulty reached from `start` by a whole history of signals, oldest first. */
  function FoldSignals(start: DifficultyLevel, signals: seq<DifficultySignal>): DifficultyLevel {
    if signals == [] then start
    else ApplyDifficultySignal(FoldSignals(start, signals[..|signals| - 1]), signals[|signals| - 1])
  }

  function Strength(signal: DifficultySignal): int {
    match signal
    case Decrease => -1
    case Maintain => 0
    case Increase => 1
  }

  /** Better scores never give a weaker signal. */
  lemma {:induction false} SignalMonotone(technical: real, problemSolving: real, technical': real, problemSolving': real)
    requires technical <= technical' && problemSolving <= problemSolving'
    ensures Strength(ComputeDifficultySignal(technical, problemSolving))
            <= Strength(ComputeDifficultySignal(technical', problemSolving'))
  {}

  /** One signal moves the difficulty by exactly its strength, except at the two ends, where it stays. */
  lemma {:induction false} OneLevelAtATime(current: DifficultyLevel, signal: DifficultySignal)
    ensures Rank(ApplyDifficultySignal(current, signal)) == Max(0, Min(2, Rank(current) + Strength(signal)))
  {}

  /** Starting no lower and with no weaker signal at any answer, the difficulty reached is no lower. */
  lemma {:induction false} BetterSignalsNeverEasier(start: DifficultyLevel, start': DifficultyLevel,
                                                    signals: seq<DifficultySignal>, signals': seq<DifficultySignal>)
    requires Rank(start) <= Rank(start') && |signals| == |signals'|
    requires forall i :: 0 <= i < |signals| ==> Strength(signals[i]) <= Strength(signals'[i])
    ensures Rank(FoldSignals(start, signals)) <= Rank(FoldSignals(start', signals'))
  {
    hide ApplyDifficultySignal;
    if signals != [] {
      var (n, init, init') := (|signals| - 1, signals[..|signals| - 1], signals'[..|signals| - 1]);
      BetterSignalsNeverEasier(start, start', init, init');
      OneLevelAtATime(FoldSignals(start, init), signals[n]);
      OneLevelAtATime(FoldSignals(start', init'), signals'[n]);
    }
  }

  datatype AnswerScores = AnswerScores(technical: real, problemSolving: real)

  function SignalsFor(answers: seq<AnswerScores>): (signals: seq<DifficultySignal>)
    ensures |signals| == |answers|
    ensures forall i :: 0 <= i < |answers| ==>
              signals[i] == ComputeDifficultySignal(answers[i].technical, answers[i].problemSolving)
  {
    seq(|answers|, i requires 0 <= i < |answers| => ComputeDifficultySignal(answers[i].technical, answers[i].problemSolving))
  }

  /** A candidate who starts no lower and scores at least as well on every answer, in both scores, never ends at a
      lower difficulty. */
  lemma {:induction false} BetterScoresNeverEasier(start: DifficultyLevel, start': DifficultyLevel,
                                                   answers: seq<AnswerScores>, answers': seq<AnswerScores>)
    requires Rank(start) <= Rank(start') && |answers| == |answers'|
    requires forall i :: 0 <= i < |answers| ==>
               answers[i].technical <= answers'[i].technical && answers[i].problemSolving <= answers'[i].problemSolving
    ensures Rank(FoldSignals(start, SignalsFor(answers))) <= Rank(FoldSignals(start', SignalsFor(answers')))
  {
    hide ComputeDifficultySignal, FoldSignals;
    forall i | 0 <= i < |answers|
      ensures Strength(SignalsFor(answers)[i]) <= Strength(SignalsFor(answers')[i])
    {
      SignalMonotone(answers[i].technical, answers[i].problemSolving, answers'[i].technical, answers'[i].problemSolving);
    }
    BetterSignalsNeverEasier(start, start', SignalsFor(answers), SignalsFor(answers'));
  }

  // --- Coding-problem selection --------------------------------------------

  predicate HasRole(roleKey: Option<string>) {
    roleKey.Some? && roleKey.value != ""
  }

  function AtLevel(difficulty: DifficultyLevel): Problem -> bool { (c: Problem) => c.difficulty == difficulty }

  function NotUsed(excluded: set<nat>): Problem -> bool { (c: Problem) => c.id !in excluded }

  function ForRole(roleKey: string): Problem -> bool { (c: Problem) => roleKey in c.roleKeys }

  function Generic(): Problem -> bool { (c: Problem) => c.roleKeys == [] }

  function SelectCodingProblem(
    candidates: seq<Problem>, difficulty: DifficultyLevel, roleKey: Option<string>, excluded: set<nat>)
    : Option<Problem>
  {
    var byDifficulty := Filter(AtLevel(difficulty), candidates);
    if byDifficulty == [] then None else
    var unused := Filter(NotUsed(excluded), byDifficulty);
    var pool := if unused != [] then unused else byDifficulty;
    var roleMatched := if HasRole(roleKey) then Filter(ForRole(roleKey.value), pool) else [];
    if roleMatched != [] then Some(roleMatched[0]) else
    var generic := Filter(Generic(), pool);
    Some((if generic != [] then generic else pool)[0])
  }

  /** 0 is the most specific match the role allows; larger is less wanted. */
  function RoleRank(roleKey: Option<string>, c: Problem): nat {
    if roleKey.Some? && roleKey.value != "" && roleKey.value in c.roleKeys then 0
    else if c.roleKeys == [] then 1
    else 2
  }

  function UsedRank(excluded: set<nat>, c: Problem): nat { if c.id in excluded then 1 else 0 }

  /** Candidate `i` is at least as good as candidate `j`: unused first, then role fit, then list order. */
  predicate Preferred(candidates: seq<Problem>, roleKey: Option<string>, excluded: set<nat>, i: nat, j: nat)
    requires i < |candidates| && j < |candidates|
  {
    var (ui, uj) := (UsedRank(excluded, candidates[i]), UsedRank(excluded, candidates[j]));
    var (ri, rj) := (RoleRank(roleKey, candidates[i]), RoleRank(roleKey, candidates[j]));
    ui < uj || (ui == uj && (ri < rj || (ri == rj && i <= j)))
  }

  /** The head of the pool: the first generic candidate, or else the first one. */
  lemma {:induction false} PoolHead(candidates: seq<Problem>, inPool: Problem -> bool) returns (i: nat)
    requires Filter(inPool, candidates) != []
    ensures i < |candidates| && inPool(candidates[i])
    ensures var (pool, generic) := (Filter(inPool, candidates), Filter(Generic(), Filter(inPool, candidates)));
      candidates[i] == (if generic != [] then generic else pool)[0]
    ensures forall j :: 0 <= j < |candidates| && inPool(candidates[j]) ==>
              || (candidates[i].roleKeys == [] && candidates[j].roleKeys != [])
              || (i <= j && (candidates[i].roleKeys == [] <==> candidates[j].roleKeys == []))
  {
    FilterTwice(inPool, Generic(), candidates);
    var p := FilterHead(inPool, candidates);
    var g := FilterHead(Both(inPool, Generic()), candidates);
    i := if Filter(Both(inPool, Generic()), candidates) != [] then g else p;
  }

  /** The first candidate of the pool made for the role, if any. */
  lemma {:induction false} RoleHead(candidates: seq<Problem>, inPool: Problem -> bool, roleKey: string) returns (i: nat)
    ensures var matched := Filter(ForRole(roleKey), Filter(inPool, candidates));
      if matched != [] then
        && i < |candidates| && inPool(candidates[i]) && roleKey in candidates[i].roleKeys && candidates[i] == matched[0]
        && forall j :: 0 <= j < |candidates| && inPool(candidates[j]) && roleKey in candidates[j].roleKeys ==> i <= j
      else forall j :: 0 <= j < |candidates| && inPool(candidates[j]) ==> roleKey !in candidates[j].roleKeys
  {
    FilterTwice(inPool, ForRole(roleKey), candidates);
    i := FilterHead(Both(inPool, ForRole(roleKey)), candidates);
  }

  /** The pool the selector draws from: the unused candidates of the difficulty, or all of them. */
  lemma {:induction false} PoolOf(candidates: seq<Problem>, difficulty: DifficultyLevel, excluded: set<nat>)
    returns (inPool: Problem -> bool)
    requires Filter(AtLevel(difficulty), candidates) != []
    ensures var byDifficulty := Filter(AtLevel(difficulty), candidates);
      var unused := Filter(NotUsed(excluded), byDifficulty);
      Filter(inPool, candidates) == if unused != [] then unused else byDifficulty
    ensures Filter(inPool, candidates) != []
    ensures forall c :: inPool(c) ==> c.difficulty == difficulty
    ensures forall i, j :: 0 <= i < |candidates| && 0 <= j < |candidates| && candidates[j].difficulty == difficulty
                           && inPool(candidates[i]) ==>
              if inPool(candidates[j]) then UsedRank(excluded, candidates[i]) == UsedRank(excluded, candidates[j])
              else UsedRank(excluded, candidates[i]) < UsedRank(excluded, candidates[j])
  {
    var both := Both(AtLevel(difficulty), NotUsed(excluded));
    FilterTwice(AtLevel(difficulty), NotUsed(excluded), candidates);
    var u := FilterHead(both, candidates);
    inPool := if Filter(both, candidates) != [] then both else AtLevel(difficulty);
  }

  /** The selector fails only when the difficulty has no candidate at all, and otherwise returns the
      least candidate of that exact difficulty in the order (already used, role fit, list position). */
  lemma {:induction false} SelectsTheLeast(
    candidates: seq<Problem>, difficulty: DifficultyLevel, roleKey: Option<string>, excluded: set<nat>)
    returns (i: nat)
    ensures SelectCodingProblem(candidates, difficulty, roleKey, excluded).None?
            <==> forall j :: 0 <= j < |candidates| ==> candidates[j].difficulty != difficulty
    ensures SelectCodingProblem(candidates, difficulty, roleKey, excluded).Some? ==>
              && i < |candidates|
              && candidates[i].difficulty == difficulty
              && SelectCodingProblem(candidates, difficulty, roleKey, excluded) == Some(candidates[i])
              && forall j :: 0 <= j < |candidates| && candidates[j].difficulty == difficulty
                   ==> Preferred(candidates, roleKey, excluded, i, j)
  {
    i := FilterHead(AtLevel(difficulty), candidates);
    if Filter(AtLevel(difficulty), candidates) != [] {
      hide Filter;
      var inPool := PoolOf(candidates, difficulty, excluded);
      i := PoolHead(candidates, inPool);
      if HasRole(roleKey) {
        var m := RoleHead(candidates, inPool, roleKey.value);
        if Filter(ForRole(roleKey.value), Filter(inPool, candidates)) != [] {
          i := m;
        }
      }
    }
  }
}
