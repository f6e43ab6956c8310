/** Grading one submission: the aggregation of its test results, the weighted correctness, and the job body
    that executes and evaluates it. */
module Grading {
  import opened Domain
  import opened Lookup
  import opened Rounding
  import opened Sums
  import opened Sandbox
  import opened Submissions
  import opened Scoring

  datatype ExecutionOutcome = CompileFailed(message: string) | Compiled(results: seq<TestCaseResult>)

  // --- What the outcome says about each test case ----------------------------------------

  function ResultId(r: TestCaseResult): string { r.testCaseId }

  function ResultFor(results: seq<TestCaseResult>, id: string): Option<TestCaseResult> {
    LastBy(ResultId, results, id)
  }

  predicate Passes(results: seq<TestCaseResult>, tc: TestCase) {
    var r := ResultFor(results, tc.id);
    r.Some? && r.value.passed
  }

  predicate TimesOut(results: seq<TestCaseResult>, tc: TestCase) {
    var r := ResultFor(results, tc.id);
    r.Some? && r.value.timedOut
  }

  predicate Truncates(results: seq<TestCaseResult>, tc: TestCase) {
    var r := ResultFor(results, tc.id);
    r.Some? && r.value.outputTruncated
  }

  predicate Crashes(results: seq<TestCaseResult>, tc: TestCase) {
    var r := ResultFor(results, tc.id);
    r.Some? && !r.value.passed && !r.value.timedOut && r.value.exitCode.Some? && r.value.exitCode != Some(0)
  }

  function Runtime(results: seq<TestCaseResult>, tc: TestCase): nat {
    var r := ResultFor(results, tc.id);
    if r.Some? && r.value.runtimeMs.Some? then r.value.runtimeMs.value else 0
  }

  function Tally(f: TestCase -> nat, testCases: seq<TestCase>): nat {
    if testCases == [] then 0 else Tally(f, testCases[..|testCases| - 1]) + f(testCases[|testCases| - 1])
  }

  function PassMark(results: seq<TestCaseResult>): TestCase -> nat { (tc: TestCase) => if Passes(results, tc) then 1 else 0 }

  function RuntimeOf(results: seq<TestCaseResult>): TestCase -> nat { (tc: TestCase) => Runtime(results, tc) }

  predicate AnyTimesOut(results: seq<TestCaseResult>, testCases: seq<TestCase>) {
    exists tc :: tc in testCases && TimesOut(results, tc)
  }

  predicate AnyTruncates(results: seq<TestCaseResult>, testCases: seq<TestCase>) {
    exists tc :: tc in testCases && Truncates(results, tc)
  }

  predicate AnyCrashes(results: seq<TestCaseResult>, testCases: seq<TestCase>) {
    exists tc :: tc in testCases && Crashes(results, tc)
  }

  predicate AllPass(results: seq<TestCaseResult>, testCases: seq<TestCase>) {
    forall tc :: tc in testCases ==> Passes(results, tc)
  }

  function PassedIds(results: seq<TestCaseResult>, testCases: seq<TestCase>): set<string> {
    set tc | tc in testCases && Passes(results, tc) :: tc.id
  }

  /** The worst signal over all test cases, whatever their order. */
  function StatusOf(results: seq<TestCaseResult>, testCases: seq<TestCase>): VerdictStatus {
    if AnyTimesOut(results, testCases) then Timeout
    else if AnyTruncates(results, testCases) then OutputLimit
    else if AnyCrashes(results, testCases) then RuntimeError
    else if AllPass(results, testCases) then ExecutionStatus.Success
    else Partial
  }

  lemma {:induction false} PassedTallyBound(results: seq<TestCaseResult>, testCases: seq<TestCase>)
    ensures Tally(PassMark(results), testCases) <= |testCases|
    ensures Tally(PassMark(results), testCases) == |testCases| <==> AllPass(results, testCases)
  {
    if testCases != [] {
      var init := testCases[..|testCases| - 1];
      PassedTallyBound(results, init);
      assert testCases == init + [testCases[|testCases| - 1]];
    }
  }

  // --- Order independence -------------------------------------------------------------------

  predicate DistinctIds(testCases: seq<TestCase>) {
    forall i, j :: 0 <= i < j < |testCases| ==> testCases[i].id != testCases[j].id
  }

  function AsReal(f: TestCase -> nat): TestCase -> real { (tc: TestCase) => f(tc) as real }

  lemma {:induction false} TallyIsTotal(f: TestCase -> nat, testCases: seq<TestCase>)
    ensures Tally(f, testCases) as real == Total(AsReal(f), testCases)
  {
    if testCases != [] {
      var (init, last) := (testCases[..|testCases| - 1], testCases[|testCases| - 1]);
      TallyIsTotal(f, init);
      assert testCases == init + [last];
      TotalConcat(AsReal(f), init, [last]);
      assert Total(AsReal(f), [last]) == AsReal(f)(last) + Total(AsReal(f), [last][1..]);
    }
  }

  /** Counts, total runtime, status and passed ids do not depend on the order of the test cases. */
  lemma {:induction false} OrderDoesNotMatter(results: seq<TestCaseResult>, testCases: seq<TestCase>, shuffled: seq<TestCase>)
    requires multiset(testCases) == multiset(shuffled)
    ensures StatusOf(results, testCases) == StatusOf(results, shuffled)
    ensures PassedIds(results, testCases) == PassedIds(results, shuffled)
    ensures Tally(PassMark(results), testCases) == Tally(PassMark(results), shuffled)
    ensures Tally(RuntimeOf(results), testCases) == Tally(RuntimeOf(results), shuffled)
  {
    assert forall tc :: tc in testCases <==> tc in multiset(testCases);
    assert forall tc :: tc in shuffled <==> tc in multiset(shuffled);
    TallyPermuted(PassMark(results), testCases, shuffled);
    TallyPermuted(RuntimeOf(results), testCases, shuffled);
  }

  lemma {:induction false} TallyPermuted(f: TestCase -> nat, testCases: seq<TestCase>, shuffled: seq<TestCase>)
    requires multiset(testCases) == multiset(shuffled)
    ensures Tally(f, testCases) == Tally(f, shuffled)
  {
    TallyIsTotal(f, testCases);
    TallyIsTotal(f, shuffled);
    TotalPermuted(AsReal(f), testCases, shuffled);
  }

  lemma {:induction false} OneMorePassedId(results: seq<TestCaseResult>, init: seq<TestCase>, last: TestCase)
    requires DistinctIds(init + [last])
    ensures last.id !in PassedIds(results, init) && DistinctIds(init)
    ensures PassedIds(results, init + [last]) == PassedIds(results, init) + if Passes(results, last) then {last.id} else {}
  {
    hide Passes;
    forall i | 0 <= i < |init|
      ensures init[i].id != last.id
    {
      assert (init + [last])[i] == init[i] && (init + [last])[|init|] == last;
    }
    forall i, k | 0 <= i < k < |init|
      ensures init[i].id != init[k].id
    {
      assert (init + [last])[i] == init[i] && (init + [last])[k] == init[k];
    }
  }

  /** With distinct ids the passed count is the size of the passed-id set. */
  lemma {:induction false} CountIsSetSize(results: seq<TestCaseResult>, testCases: seq<TestCase>)
    requires DistinctIds(testCases)
    ensures Tally(PassMark(results), testCases) == |PassedIds(results, testCases)|
  {
    hide Passes;
    if testCases != [] {
      var (init, last) := (testCases[..|testCases| - 1], testCases[|testCases| - 1]);
      assert testCases == init + [last];
      OneMorePassedId(results, init, last);
      hide PassedIds, DistinctIds;
      CountIsSetSize(results, init);
    } else {
      assert PassedIds(results, []) == {};
    }
  }

  // --- What a submission judged by the sandbox comes to ------------------------------------

  /** With distinct ids every test case is judged by its own result. */
  lemma {:induction false} OwnResult(testCases: seq<TestCase>, raw: seq<RawResult>, i: nat)
    requires DistinctIds(testCases) && i < |testCases|
    ensures ResultFor(JudgeAll(testCases, raw), testCases[i].id) == Some(JudgeAll(testCases, raw)[i])
    ensures Reports(JudgeAll(testCases, raw)[i], testCases[i], raw)
  {
    hide Judge, LastFor, LastBy, Reports;
    var results := JudgeAll(testCases, raw);
    forall j | 0 <= j < |testCases|
      ensures results[j].testCaseId == testCases[j].id
    {
      JudgesOwnId(testCases[j], LastFor(raw, testCases[j].id));
    }
    FoundByKey(ResultId, results, i);
    JudgeReports(testCases[i], raw);
  }

  lemma {:induction false} JudgesOwnId(tc: TestCase, raw: Option<RawResult>)
    ensures Judge(tc, raw).testCaseId == tc.id
  {}

  /** The counting run of a test case ended in time, with exit code 0 and the expected output. */
  ghost predicate RanWell(tc: TestCase, raw: seq<RawResult>) {
    exists k: nat :: Latest(raw, tc.id, k) && !raw[k].timedOut && raw[k].exitCode == Some(0) && SameOutput(raw[k].stdout, tc.expectedOutput)
  }

  ghost predicate RanTooLong(tc: TestCase, raw: seq<RawResult>) { exists k: nat :: Latest(raw, tc.id, k) && raw[k].timedOut }

  ghost predicate WroteTooMuch(tc: TestCase, raw: seq<RawResult>) { exists k: nat :: Latest(raw, tc.id, k) && raw[k].outputTruncated }

  /** It ended in time, with an exit code other than 0. */
  ghost predicate RanIntoError(tc: TestCase, raw: seq<RawResult>) {
    exists k: nat :: Latest(raw, tc.id, k) && !raw[k].timedOut && raw[k].exitCode.Some? && raw[k].exitCode.value != 0
  }

  lemma {:induction false} CaseExactlyWhen(testCases: seq<TestCase>, raw: seq<RawResult>, tc: TestCase)
    requires DistinctIds(testCases) && tc in testCases
    ensures var results := JudgeAll(testCases, raw);
      && (TimesOut(results, tc) <==> RanTooLong(tc, raw))
      && (Truncates(results, tc) <==> WroteTooMuch(tc, raw))
      && (Crashes(results, tc) <==> RanIntoError(tc, raw))
      && (Passes(results, tc) <==> RanWell(tc, raw))
  {
    hide SameOutput, JudgeAll, LastBy, ResultFor, LastFor, DistinctIds;
    var i :| 0 <= i < |testCases| && testCases[i] == tc;
    OwnResult(testCases, raw, i);
    LatestIsUsed(raw, tc.id);
    if LastFor(raw, tc.id).None? {
      LastByIsLast(RawId, raw, tc.id);
    }
  }

  /** What the worker's raw results make the stored status. A run out of time comes before a cut output, that before a
      crash; without any of them it is a success exactly when every test case passes. */
  lemma {:induction false} StatusExactlyWhen(testCases: seq<TestCase>, raw: seq<RawResult>)
    requires DistinctIds(testCases)
    ensures var status := VerdictOn(testCases, Compiled(JudgeAll(testCases, raw)));
      var late := exists tc :: tc in testCases && RanTooLong(tc, raw);
      var cut := exists tc :: tc in testCases && WroteTooMuch(tc, raw);
      var crashed := exists tc :: tc in testCases && RanIntoError(tc, raw);
      var passed := forall tc :: tc in testCases ==> RanWell(tc, raw);
      && (status == Timeout <==> late)
      && (status == OutputLimit <==> !late && cut)
      && (status == RuntimeError <==> !late && !cut && crashed)
      && (status == ExecutionStatus.Success <==> passed && !cut)
      && (status == Partial <==> !late && !cut && !crashed && !passed)
  {
    hide JudgeAll, DistinctIds, Passes, TimesOut, Truncates, Crashes, RanWell, RanTooLong, WroteTooMuch, RanIntoError;
    forall tc | tc in testCases
      ensures var results := JudgeAll(testCases, raw);
        && (TimesOut(results, tc) <==> RanTooLong(tc, raw))
        && (Truncates(results, tc) <==> WroteTooMuch(tc, raw))
        && (Crashes(results, tc) <==> RanIntoError(tc, raw))
        && (Passes(results, tc) <==> RanWell(tc, raw))
        && (RanWell(tc, raw) ==> !RanTooLong(tc, raw) && !RanIntoError(tc, raw))
    {
      CaseExactlyWhen(testCases, raw, tc);
      if RanWell(tc, raw) {
        WellIsClean(tc, raw);
      }
    }
  }

  lemma {:induction false} WellIsClean(tc: TestCase, raw: seq<RawResult>)
    requires RanWell(tc, raw)
    ensures !RanTooLong(tc, raw) && !RanIntoError(tc, raw)
  {
    hide SameOutput;
    LatestIsUsed(raw, tc.id);
  }

  /** A submission judged by the sandbox succeeds exactly when every test case passes and no output was cut. */
  lemma {:induction false} SuccessExactlyWhen(testCases: seq<TestCase>, raw: seq<RawResult>)
    requires DistinctIds(testCases)
    ensures StatusOf(JudgeAll(testCases, raw), testCases) == ExecutionStatus.Success
            <==> forall i :: 0 <= i < |testCases| ==>
                   var r := JudgeAll(testCases, raw)[i]; r.passed && !r.outputTruncated
  {
    hide Judge, LastFor, StatusOf, DistinctIds, ResultFor, RanWell, RanTooLong, WroteTooMuch, RanIntoError;
    StatusExactlyWhen(testCases, raw);
    forall i | 0 <= i < |testCases|
      ensures RanWell(testCases[i], raw) <==> JudgeAll(testCases, raw)[i].passed
      ensures WroteTooMuch(testCases[i], raw) <==> JudgeAll(testCases, raw)[i].outputTruncated
    {
      OwnResult(testCases, raw, i);
      CaseExactlyWhen(testCases, raw, testCases[i]);
    }
    assert forall i :: 0 <= i < |testCases| ==> testCases[i] in testCases;
  }

  /** The runtimes that were reported, added up. */
  function ReportedRuntime(results: seq<TestCaseResult>): nat {
    if results == [] then 0
    else
      var last := results[|results| - 1].runtimeMs;
      ReportedRuntime(results[..|results| - 1]) + if last.Some? then last.value else 0
  }

  /** Every case's own result is stored, in the order of the cases; the passed ids are the ids of the passed results and
      the runtime is the sum of theirs. */
  lemma {:induction false} JudgedRows(testCases: seq<TestCase>, raw: seq<RawResult>)
    requires DistinctIds(testCases)
    ensures var results := JudgeAll(testCases, raw);
      && ResultRows(results, testCases) == results
      && Tally(RuntimeOf(results), testCases) == ReportedRuntime(results)
      && forall id :: id in PassedIds(results, testCases) <==>
           exists i :: 0 <= i < |results| && results[i].passed && results[i].testCaseId == id
  {
    hide Judge, LastFor, ResultFor, DistinctIds, Reports, ResultRows, Tally, RuntimeOf, ReportedRuntime, PassedIds;
    var results := JudgeAll(testCases, raw);
    forall i | 0 <= i < |testCases|
      ensures ResultFor(results, testCases[i].id) == Some(results[i]) && results[i].testCaseId == testCases[i].id
    {
      OwnResult(testCases, raw, i);
      JudgesOwnId(testCases[i], LastFor(raw, testCases[i].id));
    }
    RowsUpTo(results, testCases, |testCases|);
    assert testCases[..|testCases|] == testCases && results[..|results|] == results;
    PassedAre(results, testCases);
  }

  lemma {:induction false} PassedAre(results: seq<TestCaseResult>, testCases: seq<TestCase>)
    requires |results| == |testCases|
    requires forall i :: 0 <= i < |testCases| ==>
               ResultFor(results, testCases[i].id) == Some(results[i]) && results[i].testCaseId == testCases[i].id
    ensures forall id :: id in PassedIds(results, testCases) <==>
              exists i :: 0 <= i < |results| && results[i].passed && results[i].testCaseId == id
  {
    hide ResultFor;
    assert forall i :: 0 <= i < |testCases| ==> testCases[i] in testCases;
  }

  lemma {:induction false} RowsUpTo(results: seq<TestCaseResult>, testCases: seq<TestCase>, n: nat)
    requires |results| == |testCases| && n <= |testCases|
    requires forall i :: 0 <= i < |testCases| ==> ResultFor(results, testCases[i].id) == Some(results[i])
    ensures ResultRows(results, testCases[..n]) == results[..n]
    ensures Tally(RuntimeOf(results), testCases[..n]) == ReportedRuntime(results[..n])
  {
    hide ResultFor, ResultRows, Tally, RuntimeOf, PassedIds, AnyTimesOut, AnyTruncates, AnyCrashes;
    NoCases(Compiled(results));
    if n == 0 {
      assert testCases[..n] == [] && results[..n] == [];
    } else {
      RowsUpTo(results, testCases, n - 1);
      OneMoreCase(results, testCases, n - 1);
      assert results[..n] == results[..n - 1] + [results[n - 1]] && results[..n][..n - 1] == results[..n - 1];
    }
  }

  // --- Weighted correctness -------------------------------------------------------------------

  function WeightOf(tc: TestCase): real { tc.weight }

  function PassedWeight(passedIds: set<string>): TestCase -> real {
    (tc: TestCase) => if tc.id in passedIds then tc.weight else 0.0
  }

  function WeightedCorrectness(testCases: seq<TestCase>, status: ExecutionStatus, passedIds: set<string>): real {
    var totalWeight := Total(WeightOf, testCases);
    if totalWeight <= 0.0 then 0.0
    else if status == ExecutionStatus.Success then 100.0
    else Round2(100.0 * Total(PassedWeight(passedIds), testCases) / totalWeight)
  }

  /** Without any weight nothing is earned; otherwise every passed case earns its share of the total weight. */
  lemma {:induction false} CorrectnessIsWeightedShare(testCases: seq<TestCase>, status: ExecutionStatus, passedIds: set<string>)
    requires status != ExecutionStatus.Success
    ensures var weight := Total((tc: TestCase) => tc.weight, testCases);
      var passed := Total((tc: TestCase) => if tc.id in passedIds then tc.weight else 0.0, testCases);
      WeightedCorrectness(testCases, status, passedIds) == if weight <= 0.0 then 0.0 else Round2(100.0 * passed / weight)
  {
    hide Round2;
    TotalSame(WeightOf, (tc: TestCase) => tc.weight, testCases);
    TotalSame(PassedWeight(passedIds), (tc: TestCase) => if tc.id in passedIds then tc.weight else 0.0, testCases);
  }

  predicate NoNegativeWeight(testCases: seq<TestCase>) {
    forall i :: 0 <= i < |testCases| ==> testCases[i].weight >= 0.0
  }

  function Share(testCases: seq<TestCase>, passedIds: set<string>): real
    requires Total(WeightOf, testCases) > 0.0
  {
    100.0 * Total(PassedWeight(passedIds), testCases) / Total(WeightOf, testCases)
  }

  /** One more passed case adds its weight, out of a hundred for the total, before the result is rounded. */
  lemma {:induction false} PassedCaseAdds(testCases: seq<TestCase>, status: ExecutionStatus, passedIds: set<string>, i: nat)
    returns (share: real)
    requires DistinctIds(testCases) && i < |testCases| && testCases[i].id !in passedIds
    requires status != ExecutionStatus.Success && Total(WeightOf, testCases) > 0.0
    ensures WeightedCorrectness(testCases, status, passedIds) == Round2(share)
    ensures WeightedCorrectness(testCases, status, passedIds + {testCases[i].id})
            == Round2(share + 100.0 * testCases[i].weight / Total(WeightOf, testCases))
  {
    hide Round2, Total, DistinctIds;
    var more := passedIds + {testCases[i].id};
    share := Share(testCases, passedIds);
    TotalWithout(PassedWeight(passedIds), testCases, i);
    TotalWithout(PassedWeight(more), testCases, i);
    OthersUnchanged(testCases, passedIds, i);
    var (weight, w, others) := (Total(WeightOf, testCases), testCases[i].weight, Total(PassedWeight(passedIds), testCases));
    assert Total(PassedWeight(more), testCases) == others + w;
    assert 100.0 * (others + w) / weight == 100.0 * others / weight + 100.0 * w / weight;
  }

  lemma {:induction false} OthersUnchanged(testCases: seq<TestCase>, passedIds: set<string>, i: nat)
    requires DistinctIds(testCases) && i < |testCases|
    ensures var others := testCases[..i] + testCases[i + 1..];
      Total(PassedWeight(passedIds + {testCases[i].id}), others) == Total(PassedWeight(passedIds), others)
  {
    TotalSame(PassedWeight(passedIds + {testCases[i].id}), PassedWeight(passedIds), testCases[..i] + testCases[i + 1..]);
  }

  lemma {:induction false} ShareMonotone(testCases: seq<TestCase>, fewer: set<string>, more: set<string>)
    requires NoNegativeWeight(testCases) && fewer <= more && Total(WeightOf, testCases) > 0.0
    ensures 0.0 <= Share(testCases, fewer) <= Share(testCases, more) <= 100.0
  {
    var total := Total(WeightOf, testCases);
    TotalNonNegative(PassedWeight(fewer), testCases);
    TotalMonotone(PassedWeight(fewer), testCases, PassedWeight(more), testCases);
    TotalMonotone(PassedWeight(more), testCases, WeightOf, testCases);
    QuotientMonotone(0.0, 100.0 * Total(PassedWeight(fewer), testCases), total);
    QuotientMonotone(100.0 * Total(PassedWeight(fewer), testCases), 100.0 * Total(PassedWeight(more), testCases), total);
    QuotientMonotone(100.0 * Total(PassedWeight(more), testCases), 100.0 * total, total);
    Cancel(100.0, total);
  }

  /** A status is honest about a set of passed ids when it is SUCCESS only if every case passed. */
  predicate Honest(testCases: seq<TestCase>, status: ExecutionStatus, passedIds: set<string>) {
    status == ExecutionStatus.Success ==> forall tc :: tc in testCases ==> tc.id in passedIds
  }

  /** The shortcut for SUCCESS gives what the general formula gives. */
  lemma {:induction false} ShortcutAgrees(testCases: seq<TestCase>, passedIds: set<string>)
    requires Honest(testCases, ExecutionStatus.Success, passedIds) && Total(WeightOf, testCases) > 0.0
    ensures Round2(Share(testCases, passedIds))
            == WeightedCorrectness(testCases, ExecutionStatus.Success, passedIds) == 100.0
  {
    TotalMonotone(PassedWeight(passedIds), testCases, WeightOf, testCases);
    TotalMonotone(WeightOf, testCases, PassedWeight(passedIds), testCases);
    var total := Total(WeightOf, testCases);
    Cancel(100.0, total);
    WholeHundredths();
    Round2Exact(100.0);
  }

  lemma {:induction false} WholeHundredths()
    ensures IsHundredths(0.0) && IsHundredths(100.0)
  {
    assert 0.0.Floor == 0 && 10000.0.Floor == 10000;
  }

  /** Correctness lies in 0..100 and never falls when more cases pass. */
  lemma {:induction false} CorrectnessMonotone(testCases: seq<TestCase>, status: ExecutionStatus, fewer: set<string>,
                                               status': ExecutionStatus, more: set<string>)
    requires NoNegativeWeight(testCases) && fewer <= more
    requires Honest(testCases, status, fewer) && Honest(testCases, status', more)
    ensures 0.0 <= WeightedCorrectness(testCases, status, fewer)
                <= WeightedCorrectness(testCases, status', more) <= 100.0
  {
    if Total(WeightOf, testCases) > 0.0 {
      ShareMonotone(testCases, fewer, more);
      WholeHundredths();
      Round2Within(0.0, Share(testCases, fewer), 100.0);
      Round2Within(0.0, Share(testCases, more), 100.0);
      Round2Monotone(Share(testCases, fewer), Share(testCases, more));
      if Honest(testCases, ExecutionStatus.Success, fewer) {
        ShortcutAgrees(testCases, fewer);
      }
      if Honest(testCases, ExecutionStatus.Success, more) {
        ShortcutAgrees(testCases, more);
      }
    }
  }

  lemma {:induction false} VerdictsAreHonest(results: seq<TestCaseResult>, testCases: seq<TestCase>)
    ensures Honest(testCases, StatusOf(results, testCases), PassedIds(results, testCases))
  {}

  // --- The evaluation ----------------------------------------------------------------------------

  /** The scores the evaluation provider returns. */
  datatype Quality = Quality(readability: real, optimization: real, edgeCase: real)

  datatype CodingEvaluation =
    CodingEvaluation(correctness: real, readability: real, optimization: real, edgeCase: real, overall: real)

  const ZERO_EVALUATION: CodingEvaluation := CodingEvaluation(0.0, 0.0, 0.0, 0.0, 0.0)

  function Evaluated(correctness: real, q: Quality): CodingEvaluation {
    CodingEvaluation(correctness, q.readability, q.optimization, q.edgeCase,
                     ComputeOverallCodeScore(correctness, q.readability, q.optimization, q.edgeCase))
  }

  /** The evaluation a judged final submission ends up with; None when the provider fails. */
  function EvaluationOf(testCases: seq<TestCase>, outcome: ExecutionOutcome, review: Option<Quality>): Option<CodingEvaluation> {
    match (outcome, review)
    case (CompileFailed(_), _) => Some(ZERO_EVALUATION)
    case (Compiled(_), None) => None
    case (Compiled(results), Some(q)) =>
      Some(Evaluated(WeightedCorrectness(testCases, StatusOf(results, testCases), PassedIds(results, testCases)), q))
  }

  /** Code that did not compile gets zeros, a silent provider nothing, and everything else the provider's scores, the
      weighted correctness and their weighted sum. */
  lemma {:induction false} EvaluationMeans(testCases: seq<TestCase>, outcome: ExecutionOutcome, review: Option<Quality>)
    ensures var e := EvaluationOf(testCases, outcome, review);
      match (outcome, review)
      case (CompileFailed(_), _) => e == Some(CodingEvaluation(0.0, 0.0, 0.0, 0.0, 0.0))
      case (Compiled(_), None) => e == None
      case (Compiled(results), Some(q)) =>
        var c := WeightedCorrectness(testCases, VerdictOn(testCases, outcome), PassedIds(results, testCases));
        e == Some(CodingEvaluation(c, q.readability, q.optimization, q.edgeCase,
                                   Round2(0.40 * c + 0.25 * q.readability + 0.20 * q.optimization + 0.15 * q.edgeCase)))
  {
    hide WeightedCorrectness, StatusOf, PassedIds, ComputeOverallCodeScore, Round2;
    if outcome.Compiled? && review.Some? {
      var q := review.value;
      ReadabilityCountsTwice(WeightedCorrectness(testCases, VerdictOn(testCases, outcome), PassedIds(outcome.results, testCases)),
                             q.readability, q.optimization, q.edgeCase);
    }
  }

  predicate Percentage(x: real) { 0.0 <= x <= 100.0 }

  predicate Percentages(q: Quality) { Percentage(q.readability) && Percentage(q.optimization) && Percentage(q.edgeCase) }

  /** Percentages from the provider give percentages. */
  lemma {:induction false} EvaluationWithin(testCases: seq<TestCase>, outcome: ExecutionOutcome, review: Option<Quality>)
    requires NoNegativeWeight(testCases) && (review.Some? ==> Percentages(review.value))
    ensures var e := EvaluationOf(testCases, outcome, review);
      e.Some? ==> Percentage(e.value.correctness) && Percentage(e.value.overall)
  {
    hide WeightedCorrectness, StatusOf, PassedIds, ComputeOverallCodeScore, NoNegativeWeight, Honest, IsHundredths;
    if outcome.Compiled? && review.Some? {
      var (q, status, ids) := (review.value, StatusOf(outcome.results, testCases), PassedIds(outcome.results, testCases));
      VerdictsAreHonest(outcome.results, testCases);
      CorrectnessMonotone(testCases, status, ids, status, ids);
      WholeHundredths();
      CodeScoreIsAverage(WeightedCorrectness(testCases, status, ids), q.readability, q.optimization, q.edgeCase, 0.0, 100.0);
    }
  }

  /** Passing more test cases, all else equal, never lowers the evaluation. */
  lemma {:induction false} EvaluationMonotone(testCases: seq<TestCase>, results: seq<TestCaseResult>,
                                              better: seq<TestCaseResult>, q: Quality)
    requires NoNegativeWeight(testCases)
    requires forall tc :: tc in testCases && Passes(results, tc) ==> Passes(better, tc)
    ensures EvaluationOf(testCases, Compiled(results), Some(q)).value.overall
            <= EvaluationOf(testCases, Compiled(better), Some(q)).value.overall
  {
    hide WeightedCorrectness, StatusOf, Passes, ComputeOverallCodeScore, NoNegativeWeight, Honest;
    var (ids, ids') := (PassedIds(results, testCases), PassedIds(better, testCases));
    VerdictsAreHonest(results, testCases);
    VerdictsAreHonest(better, testCases);
    CorrectnessMonotone(testCases, StatusOf(results, testCases), ids, StatusOf(better, testCases), ids');
    CodeScoreMonotone(WeightedCorrectness(testCases, StatusOf(results, testCases), ids), q.readability, q.optimization, q.edgeCase,
                      WeightedCorrectness(testCases, StatusOf(better, testCases), ids'), q.readability, q.optimization, q.edgeCase);
  }

  // --- The job body -------------------------------------------------------------------------------

  /** What one commit of the job leaves behind. */
  datatype Snapshot = Snapshot(row: Submission, evaluated: bool)

  /** A protocol state that holds this one submission and its waiting job. */
  function Solo(row: Submission): State { State([row], [], [Job(0, Waiting)], map[], []) }

  function View(s: State): Snapshot
    requires s.submissions != []
  {
    Snapshot(s.submissions[0], s.evaluations != [])
  }

  /** The commits of the job steps of the protocol, run to the end on one submission. */
  function JobTrace(row: Submission, anyTests: bool, outcome: Option<VerdictStatus>, up: bool): seq<Snapshot> {
    if !Ungraded(row.status) then []
    else
      var begun := JobStep(Solo(row), Begin(0, anyTests));
      if begun.jobs[0].stage != Executing then [View(begun)]
      else
        var executed := JobStep(begun, Execute(0, outcome));
        if executed.jobs[0].stage != Judged then [View(begun), View(executed)]
        else [View(begun), View(executed), View(JobStep(executed, Evaluate(0, up)))]
  }

  function VerdictOn(testCases: seq<TestCase>, outcome: ExecutionOutcome): VerdictStatus {
    match outcome
    case CompileFailed(_) => CompileError
    case Compiled(results) => StatusOf(results, testCases)
  }

  predicate IsSample(tc: TestCase) { tc.isSample }

  /** A run executes the sample cases only, a final submission all of them. */
  function CasesFor(isFinal: bool, testCases: seq<TestCase>): seq<TestCase> {
    if isFinal then testCases else Filter(IsSample, testCases)
  }

  /** A final submission runs every case; a run takes a case exactly when it is a sample, in the given order. */
  lemma {:induction false} RunsSamplesOnly(testCases: seq<TestCase>, tc: TestCase)
    ensures CasesFor(true, testCases) == testCases && CasesFor(false, []) == []
    ensures CasesFor(false, testCases + [tc]) == CasesFor(false, testCases) + if tc.isSample then [tc] else []
  {
    if testCases == [] {
      assert testCases + [tc] == [tc] && [tc][1..] == [];
    } else {
      RunsSamplesOnly(testCases[1..], tc);
      assert (testCases + [tc])[1..] == testCases[1..] + [tc];
    }
  }

  function ResultRows(results: seq<TestCaseResult>, testCases: seq<TestCase>): seq<TestCaseResult> {
    if testCases == [] then []
    else
      var r := ResultFor(results, testCases[|testCases| - 1].id);
      ResultRows(results, testCases[..|testCases| - 1]) + if r.Some? then [r.value] else []
  }

  /** What one more test case adds to the aggregates. */
  lemma {:induction false} OneMoreCase(results: seq<TestCaseResult>, testCases: seq<TestCase>, i: nat)
    requires i < |testCases|
    ensures var (init, more, tc) := (testCases[..i], testCases[..i + 1], testCases[i]);
      && PassedIds(results, more) == PassedIds(results, init) + (if Passes(results, tc) then {tc.id} else {})
      && Tally(PassMark(results), more) == Tally(PassMark(results), init) + (if Passes(results, tc) then 1 else 0)
      && Tally(RuntimeOf(results), more) == Tally(RuntimeOf(results), init) + Runtime(results, tc)
      && ResultRows(results, more)
         == ResultRows(results, init) + (var r := ResultFor(results, tc.id); if r.Some? then [r.value] else [])
      && AnyTimesOut(results, more) == (AnyTimesOut(results, init) || TimesOut(results, tc))
      && AnyTruncates(results, more) == (AnyTruncates(results, init) || Truncates(results, tc))
      && AnyCrashes(results, more) == (AnyCrashes(results, init) || Crashes(results, tc))
  {
    hide ResultFor;
    var (init, more, tc) := (testCases[..i], testCases[..i + 1], testCases[i]);
    assert more == init + [tc] && more[..i] == init;
    assert forall c :: c in more <==> c in init || c == tc;
  }

  /** The protocol's commits, spelled out. */
  lemma {:induction false} TraceShape(row: Submission, anyTests: bool, outcome: Option<VerdictStatus>, up: bool)
    ensures !Ungraded(row.status) ==> JobTrace(row, anyTests, outcome, up) == []
    ensures Ungraded(row.status) && !anyTests ==>
      JobTrace(row, anyTests, outcome, up) == [Snapshot(row.(status := Error, isFinal := false), false)]
    ensures Ungraded(row.status) && anyTests && outcome.None? ==>
      JobTrace(row, anyTests, outcome, up)
      == [Snapshot(row.(status := Running), false), Snapshot(row.(status := Error, isFinal := false), false)]
    ensures Ungraded(row.status) && anyTests && outcome.Some? ==>
      var judged := row.(status := outcome.value);
      JobTrace(row, anyTests, outcome, up)
      == [Snapshot(row.(status := Running), false), Snapshot(judged, false)]
         + (if !row.isFinal then []
            else if judged.status != CompileError && !up then [Snapshot(judged.(isFinal := false), false)]
            else [Snapshot(judged, true)])
  {}

  /** A job that starts on an ungraded submission leaves a final verdict exactly when it leaves an evaluation. */
  lemma {:induction false} TraceEnds(row: Submission, anyTests: bool, outcome: Option<VerdictStatus>, up: bool)
    ensures JobTrace(row, anyTests, outcome, up) == [] <==> !Ungraded(row.status)
    ensures Ungraded(row.status) ==>
      var commits := JobTrace(row, anyTests, outcome, up);
      var last := commits[|commits| - 1];
      last.evaluated <==> last.row.isFinal && Verdict(last.row.status)
  {}

  /** `t` shows job 0 what `s` shows job `j`. */
  ghost predicate Mirrors(s: State, j: nat, t: State) {
    && j < |s.jobs| && s.jobs[j].submission < |s.submissions|
    && |t.jobs| == |t.submissions| == 1 && t.jobs[0] == s.jobs[j].(submission := 0)
    && t.submissions[0] == s.submissions[s.jobs[j].submission]
    && (s.jobs[j].submission in s.evaluations <==> 0 in t.evaluations)
  }

  function ForJob(ev: Event, j: nat): (r: Event)
    requires IsJobEvent(ev)
    ensures IsJobEvent(r)
  {
    match ev
    case Begin(_, anyTests) => Begin(j, anyTests)
    case Execute(_, outcome) => Execute(j, outcome)
    case Evaluate(_, up) => Evaluate(j, up)
    case Gate(_) => Gate(j)
    case _ => Crash(j)
  }

  lemma {:induction false} StartsActLocally(s: State, j: nat, t: State, ev: Event)
    requires Mirrors(s, j, t) && (ev.Begin? || ev.Gate? || ev.Crash?) && ev.job == 0
    ensures Mirrors(JobStep(s, ForJob(ev, j)), j, JobStep(t, ev))
  {}

  lemma {:induction false} VerdictsActLocally(s: State, j: nat, t: State, ev: Event)
    requires Mirrors(s, j, t) && (ev.Execute? || ev.Evaluate?) && ev.job == 0
    ensures Mirrors(JobStep(s, ForJob(ev, j)), j, JobStep(t, ev))
  {}

  /** A job does in a shared state what it does alone, so the commits of the job body are those of its steps in
      every run of the protocol. */
  lemma {:induction false} JobsActLocally(s: State, j: nat, t: State, ev: Event)
    requires Mirrors(s, j, t) && IsJobEvent(ev) && ev.job == 0
    ensures Mirrors(JobStep(s, ForJob(ev, j)), j, JobStep(t, ev))
  {
    hide JobStep, Mirrors;
    if ev.Execute? || ev.Evaluate? {
      VerdictsActLocally(s, j, t, ev);
    } else {
      StartsActLocally(s, j, t, ev);
    }
  }

  lemma {:induction false} NoCases(outcome: ExecutionOutcome)
    ensures outcome.Compiled? ==>
      var results := outcome.results;
      && PassedIds(results, []) == {} && ResultRows(results, []) == []
      && Tally(PassMark(results), []) == 0 && Tally(RuntimeOf(results), []) == 0
      && !AnyTimesOut(results, []) && !AnyTruncates(results, []) && !AnyCrashes(results, [])
  {}

  /** The aggregate columns of a submission and its result rows. */
  datatype Totals = Totals(passedTests: Option<nat>, tests: Option<nat>, runtimeMs: Option<nat>, results: seq<TestCaseResult>)

  function Recorded(before: Totals, testCases: seq<TestCase>, outcome: ExecutionOutcome): Totals {
    match outcome
    case CompileFailed(_) => before.(passedTests := Some(0), tests := Some(|testCases|))
    case Compiled(results) =>
      Totals(Some(Tally(PassMark(results), testCases)), Some(|testCases|), Some(Tally(RuntimeOf(results), testCases)),
             before.results + ResultRows(results, testCases))
  }

  /** A submission judged by the sandbox records how many of its cases passed, out of how many, the sum of their runtimes
      and each case's own result; one that did not compile records that none passed. */
  lemma {:induction false} RecordedTotals(before: Totals, testCases: seq<TestCase>, raw: seq<RawResult>, message: string)
    requires DistinctIds(testCases)
    ensures var (results, after) := (JudgeAll(testCases, raw), Recorded(before, testCases, Compiled(JudgeAll(testCases, raw))));
      && after.tests == Some(|testCases|)
      && after.passedTests == Some(|set r | r in results && r.passed :: r.testCaseId|)
      && after.runtimeMs == Some(ReportedRuntime(results))
      && after.results == before.results + results
    ensures Recorded(before, testCases, CompileFailed(message)) == Totals(Some(0), Some(|testCases|), before.runtimeMs, before.results)
  {
    hide JudgeAll, DistinctIds, Tally, ReportedRuntime, PassMark, RuntimeOf;
    var results := JudgeAll(testCases, raw);
    JudgedRows(testCases, raw);
    CountIsSetSize(results, testCases);
    var ids := set r | r in results && r.passed :: r.testCaseId;
    forall id
      ensures id in ids <==> id in PassedIds(results, testCases)
    {
      if id in ids {
        var r :| r in results && r.passed && r.testCaseId == id;
        var i :| 0 <= i < |results| && results[i] == r;
      }
    }
    assert ids == PassedIds(results, testCases);
  }

  class CodeSubmission {
    const attemptNo: nat
    var isFinal: bool
    var executionStatus: ExecutionStatus
    var errorMessage: Option<string>
    var passedTestCount: Option<nat>
    var totalTestCount: Option<nat>
    var totalRuntimeMs: Option<nat>
    var graded: bool
    var testResults: seq<TestCaseResult>
    var evaluations: seq<CodingEvaluation>

    constructor (attemptNo: nat, isFinal: bool)
      ensures Row() == Submission(attemptNo, isFinal, Queued)
      ensures testResults == [] && evaluations == [] && !graded
      ensures errorMessage == None && passedTestCount == None && totalTestCount == None && totalRuntimeMs == None
    {
      this.attemptNo := attemptNo;
      this.isFinal := isFinal;
      executionStatus := Queued;
      errorMessage, passedTestCount, totalTestCount, totalRuntimeMs := None, None, None, None;
      graded, testResults, evaluations := false, [], [];
    }

    function Row(): Submission
      reads this
    {
      Submission(attemptNo, isFinal, executionStatus)
    }

    function Aggregates(): Totals
      reads this
    {
      Totals(passedTestCount, totalTestCount, totalRuntimeMs, testResults)
    }

    method ReleaseFinalSlotOnInfraFailure()
      modifies `isFinal
      ensures Row() == old(Row()).(isFinal := false)
    {
      if isFinal {
        isFinal := false;
      }
    }

    method PersistExecutionOutcome(testCases: seq<TestCase>, outcome: ExecutionOutcome) returns (passedIds: set<string>)
      modifies `executionStatus, `errorMessage, `passedTestCount, `totalTestCount, `totalRuntimeMs, `testResults
      ensures executionStatus == VerdictOn(testCases, outcome)
      ensures Aggregates() == Recorded(old(Aggregates()), testCases, outcome)
      ensures passedIds == if outcome.CompileFailed? then {} else PassedIds(outcome.results, testCases)
      ensures errorMessage == if outcome.CompileFailed? then Some(outcome.message) else old(errorMessage)
    {
      hide LastBy, PassedIds, Tally, ResultRows, AnyTimesOut, AnyTruncates, AnyCrashes, AllPass, PassMark, RuntimeOf;
      assert testCases[..0] == [];
      NoCases(outcome);
      passedIds := {};
      totalTestCount := Some(|testCases|);
      if outcome.CompileFailed? {
        executionStatus := CompileError;
        errorMessage := Some(outcome.message);
        passedTestCount := Some(0);
        return;
      }
      var results := outcome.results;
      var resultsById := IndexBy(ResultId, results);
      var passedCount, totalRuntime := 0, 0;
      var anyTimedOut, anyOutputTruncated, anyCrashed := false, false, false;
      for i := 0 to |testCases|
        invariant passedIds == PassedIds(results, testCases[..i])
        invariant passedCount == Tally(PassMark(results), testCases[..i])
        invariant totalRuntime == Tally(RuntimeOf(results), testCases[..i])
        invariant testResults == old(testResults) + ResultRows(results, testCases[..i])
        invariant anyTimedOut == AnyTimesOut(results, testCases[..i])
        invariant anyOutputTruncated == AnyTruncates(results, testCases[..i])
        invariant anyCrashed == AnyCrashes(results, testCases[..i])
        invariant totalTestCount == Some(|testCases|) && errorMessage == old(errorMessage)
      {
        var tc := testCases[i];
        OneMoreCase(results, testCases, i);
        if tc.id in resultsById {
          var result := resultsById[tc.id];
          testResults := testResults + [result];
          if result.passed {
            passedCount := passedCount + 1;
            passedIds := passedIds + {tc.id};
          }
          totalRuntime := totalRuntime + if result.runtimeMs.Some? then result.runtimeMs.value else 0;
          anyTimedOut := anyTimedOut || result.timedOut;
          anyOutputTruncated := anyOutputTruncated || result.outputTruncated;
          if !result.passed && !result.timedOut && result.exitCode.Some? && result.exitCode != Some(0) {
            anyCrashed := true;
          }
        }
      }
      assert testCases[..|testCases|] == testCases;
      PassedTallyBound(results, testCases);
      passedTestCount, totalRuntimeMs := Some(passedCount), Some(totalRuntime);
      if anyTimedOut {
        executionStatus := Timeout;
      } else if anyOutputTruncated {
        executionStatus := OutputLimit;
      } else if anyCrashed {
        executionStatus := RuntimeError;
      } else if passedCount == |testCases| {
        executionStatus := ExecutionStatus.Success;
      } else {
        executionStatus := Partial;
      }
    }

    /** The submit-only part: code that did not compile gets a zero evaluation without asking the provider. */
    method EvaluateFinal(testCases: seq<TestCase>, ghost outcome: ExecutionOutcome, passedIds: set<string>, review: Option<Quality>)
      returns (evaluated: bool)
      requires executionStatus == VerdictOn(testCases, outcome)
      requires outcome.Compiled? ==> passedIds == PassedIds(outcome.results, testCases)
      modifies `evaluations, `graded, `errorMessage, `isFinal
      ensures evaluated <==> executionStatus == CompileError || review.Some?
      ensures Row() == if evaluated then old(Row()) else old(Row()).(isFinal := false)
      ensures evaluated ==> EvaluationOf(testCases, outcome, review).Some? && graded
                            && evaluations == old(evaluations) + [EvaluationOf(testCases, outcome, review).value]
      ensures !evaluated ==> evaluations == old(evaluations) && graded == old(graded) && errorMessage.Some?
      ensures evaluated ==> errorMessage == old(errorMessage)
    {
      hide StatusOf, WeightedCorrectness, PassedIds, ComputeOverallCodeScore;
      StatusNeverCompileError(testCases, outcome);
      if executionStatus == CompileError {
        evaluations := evaluations + [ZERO_EVALUATION];
        graded := true;
        return true;
      }
      var correctness := WeightedCorrectness(testCases, executionStatus, passedIds);
      if review.None? {
        errorMessage := Some("Code quality evaluation failed");
        ReleaseFinalSlotOnInfraFailure();
        return false;
      }
      var q := review.value;
      var overall := ComputeOverallCodeScore(correctness, q.readability, q.optimization, q.edgeCase);
      evaluations := evaluations + [CodingEvaluation(correctness, q.readability, q.optimization, q.edgeCase, overall)];
      graded := true;
      return true;
    }

    /** The job body, with the executor's and the evaluation provider's answers as inputs (None when they fail).
        Its commits are exactly those of the protocol's job steps, and it leaves the evaluation of the outcome. */
    method ExecuteAndGrade(allTestCases: seq<TestCase>, run: Option<ExecutionOutcome>, review: Option<Quality>)
      returns (commits: seq<Snapshot>)
      modifies this
      ensures var cases := CasesFor(old(isFinal), allTestCases);
        && commits == JobTrace(old(Row()), cases != [], if run.None? then None else Some(VerdictOn(cases, run.value)),
                               review.Some?)
        && Row() == (if commits == [] then old(Row()) else commits[|commits| - 1].row)
        && Aggregates() == (if |commits| >= 2 && run.Some? then Recorded(old(Aggregates()), cases, run.value) else old(Aggregates()))
        && (if commits != [] && commits[|commits| - 1].evaluated
            then run.Some? && EvaluationOf(cases, run.value, review).Some? && graded
                 && evaluations == old(evaluations) + [EvaluationOf(cases, run.value, review).value]
            else evaluations == old(evaluations) && graded == old(graded))
    {
      hide StatusOf, WeightedCorrectness, LastBy, CasesFor, PassedIds, Tally, ResultRows, ComputeOverallCodeScore,
           JobTrace, JobStep, RuntimeOf, PassMark, PassedWeight, EvaluationOf, Recorded, VerdictOn, Release, Verdict;
      commits := [];
      var testCases := CasesFor(isFinal, allTestCases);
      TraceShape(Row(), testCases != [], if run.None? then None else Some(VerdictOn(testCases, run.value)), review.Some?);
      if executionStatus != Queued && executionStatus != Running {
        return;
      }
      if testCases == [] {
        executionStatus := Error;
        errorMessage := Some("This problem has no test cases configured.");
        ReleaseFinalSlotOnInfraFailure();
        commits := [Snapshot(Row(), false)];
        return;
      }
      executionStatus := Running;
      commits := [Snapshot(Row(), false)];
      if run.None? {
        executionStatus := Error;
        errorMessage := Some("Execution failed");
        ReleaseFinalSlotOnInfraFailure();
        commits := commits + [Snapshot(Row(), false)];
        return;
      }
      var passedIds := PersistExecutionOutcome(testCases, run.value);
      commits := commits + [Snapshot(Row(), false)];
      if !isFinal {
        return;
      }
      var evaluated := EvaluateFinal(testCases, run.value, passedIds, review);
      commits := commits + [Snapshot(Row(), evaluated)];
    }

    /** The background job: grade, then say whether the interview may advance. A job that finds the submission
        ungraded lets it advance exactly when it has just stored its evaluation. */
    method RunCodeSubmissionJob(allTestCases: seq<TestCase>, run: Option<ExecutionOutcome>, review: Option<Quality>)
      returns (advance: bool)
      modifies this
      ensures advance <==> isFinal && executionStatus in {ExecutionStatus.Success, Partial, CompileError, RuntimeError, Timeout, OutputLimit}
      ensures old(executionStatus) in {Queued, Running} ==> (advance <==> |evaluations| == |old(evaluations)| + 1)
      ensures old(executionStatus) !in {Queued, Running} ==> evaluations == old(evaluations) && Row() == old(Row())
    {
      hide JobTrace, EvaluationOf, VerdictOn, CasesFor;
      ghost var cases := CasesFor(isFinal, allTestCases);
      TraceEnds(Row(), cases != [], if run.None? then None else Some(VerdictOn(cases, run.value)), review.Some?);
      var commits := ExecuteAndGrade(allTestCases, run, review);
      advance := isFinal && Verdict(executionStatus);
    }
  }

  lemma {:induction false} StatusNeverCompileError(testCases: seq<TestCase>, outcome: ExecutionOutcome)
    ensures VerdictOn(testCases, outcome) == CompileError <==> outcome.CompileFailed?
  {}
}
