/** Vocabulary shared by every module: the stored enumerations and a few stock types. */
module Domain {

  datatype Option<+T> = None | Some(value: T)

  datatype Result<+T, +E> = Success(value: T) | Failure(error: E)

  datatype DifficultyLevel = Easy | Medium | Hard

  datatype DifficultySignal = Increase | Decrease | Maintain

  datatype RoundType = Introduction | Technical | Coding | Behavioral | SystemDesign | ResumeDiscussion | Final

  datatype RoundStatus = Pending | Active | Completed | Skipped

  datatype SessionStatus = NotStarted | InProgress | Finished | Abandoned

  datatype QuestionType = Open | CodingTask | DesignTask

  /** A catalog coding problem as the selector sees it. */
  datatype Problem = Problem(id: nat, difficulty: DifficultyLevel, roleKeys: seq<string>)

  /** Why a request is turned away; every one of these leaves the stored rows as they were. */
  datatype ErrorCode =
    | AlreadyStarted
    | EmptyRoundPlan
    | RoundNotFound
    | NotInProgress
    | StaleQuestion
    | QuestionNotFound
    | EngineUnavailable
    | NoCatalogProblem
    | ProblemNotFound
    | CodingProblemIdMissing
    | PlanIndexError
    | MissingEvaluation
    | DuplicateRow
    | NumericOutOfRange
    | InvalidTransition

  function Max(x: int, y: int): int { if x < y then y else x }

  function Min(x: int, y: int): int { if x < y then x else y }

  /** The elements of `s` that satisfy `p`, in order. */
  function Filter<T>(p: T -> bool, s: seq<T>): (r: seq<T>) {
    if s == [] then []
    else if p(s[0]) then [s[0]] + Filter(p, s[1..])
    else Filter(p, s[1..])
  }

  /** A filter is empty exactly when nothing satisfies it; otherwise its head is the first match. */
  lemma {:induction false} FilterHead<T>(p: T -> bool, s: seq<T>) returns (i: nat)
    ensures Filter(p, s) == [] <==> forall j :: 0 <= j < |s| ==> !p(s[j])
    ensures Filter(p, s) != [] ==> i < |s| && s[i] == Filter(p, s)[0] && p(s[i])
    ensures Filter(p, s) != [] ==> forall j :: 0 <= j < i ==> !p(s[j])
  {
    i := 0;
    if s != [] && !p(s[0]) {
      i := FilterHead(p, s[1..]);
      i := i + 1;
      assert forall j :: 0 < j < |s| ==> s[j] == s[1..][j - 1];
    }
  }

  function Both<T>(p: T -> bool, q: T -> bool): T -> bool { x => p(x) && q(x) }

  /** Filtering twice is filtering by the conjunction. */
  lemma {:induction false} FilterTwice<T>(p: T -> bool, q: T -> bool, s: seq<T>)
    ensures Filter(q, Filter(p, s)) == Filter(Both(p, q), s)
  {
    if s != [] {
      FilterTwice(p, q, s[1..]);
      if p(s[0]) {
        assert Filter(p, s)[1..] == Filter(p, s[1..]);
      }
    }
  }
}
