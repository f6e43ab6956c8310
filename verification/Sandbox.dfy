/** How the sandbox executor's raw results become one judged result per test case. */
module Sandbox {
  import opened Domain
  import opened Lookup

  datatype TestCase = TestCase(id: string, expectedOutput: string, isSample: bool, weight: real)

  /** One untyped result as the execution worker reports it. */
  datatype RawResult = RawResult(id: string, stdout: string, timedOut: bool, exitCode: Option<int>,
                                 outputTruncated: bool, runtimeMs: Option<nat>)

  datatype TestCaseResult = TestCaseResult(testCaseId: string, passed: bool, actualOutput: Option<string>,
                                           runtimeMs: Option<nat>, timedOut: bool, exitCode: Option<int>,
                                           outputTruncated: bool)

  // --- Output comparison ----------------------------------------------------------------

  /** The characters `str.strip` removes. */
  predicate IsSpace(c: char) {
    var code := c as int;
    || 0x09 <= code <= 0x0D
    || 0x1C <= code <= 0x20
    || code == 0x85 || code == 0xA0 || code == 0x1680
    || 0x2000 <= code <= 0x200A
    || code == 0x2028 || code == 0x2029 || code == 0x202F || code == 0x205F || code == 0x3000
  }

  predicate Blank(s: string) { forall i :: 0 <= i < |s| ==> IsSpace(s[i]) }

  function TrimStart(s: string): string { if s != "" && IsSpace(s[0]) then TrimStart(s[1..]) else s }

  function TrimEnd(s: string): string { if s != "" && IsSpace(s[|s| - 1]) then TrimEnd(s[..|s| - 1]) else s }

  /** What is left starts with something visible, and only whitespace is gone. */
  lemma {:induction false} TrimStartCutsBlank(s: string)
    ensures var r := TrimStart(s);
      |r| <= |s| && r == s[|s| - |r|..] && Blank(s[..|s| - |r|]) && (r != "" ==> !IsSpace(r[0]))
  {
    hide IsSpace;
    if s != "" && IsSpace(s[0]) {
      TrimStartCutsBlank(s[1..]);
      var r := TrimStart(s);
      assert s[..|s| - |r|] == [s[0]] + s[1..][..|s[1..]| - |r|];
    }
  }

  lemma {:induction false} TrimEndCutsBlank(s: string)
    ensures var r := TrimEnd(s); r <= s && Blank(s[|r|..]) && (r != "" ==> !IsSpace(r[|r| - 1]))
  {
    hide IsSpace;
    if s != "" && IsSpace(s[|s| - 1]) {
      TrimEndCutsBlank(s[..|s| - 1]);
      var r := TrimEnd(s);
      assert s[|r|..] == s[..|s| - 1][|r|..] + [s[|s| - 1]];
    }
  }

  /** Both ends are stripped. */
  function Normalize(text: string): string { TrimStart(TrimEnd(text)) }

  /** Whitespace is cut at both ends, and only there. */
  lemma {:induction false} NormalizeCutsBothEnds(text: string) returns (left: string, right: string)
    ensures text == left + Normalize(text) + right && Blank(left) && Blank(right)
    ensures var kept := Normalize(text); kept != "" ==> !IsSpace(kept[0]) && !IsSpace(kept[|kept| - 1])
  {
    hide TrimStart, TrimEnd, Blank, IsSpace;
    var trimmed := TrimEnd(text);
    TrimEndCutsBlank(text);
    TrimStartCutsBlank(trimmed);
    left, right := trimmed[..|trimmed| - |Normalize(text)|], text[|trimmed|..];
  }

  function Indent(s: string): string { if |TrimStart(s)| <= |s| then s[..|s| - |TrimStart(s)|] else "" }

  lemma {:induction false} IndentThenRest(s: string)
    ensures s == Indent(s) + TrimStart(s) && Blank(Indent(s))
  {
    TrimStartCutsBlank(s);
  }

  /** Below 128 the five control characters from tab on, the four separators and the space are stripped; above it the
      other characters Unicode counts as white space. Visible ASCII never is. */
  lemma {:induction false} StrippedCharacters(c: char)
    ensures IsSpace(c) <==>
              c as int in {9, 10, 11, 12, 13, 28, 29, 30, 31, 32, 133, 160, 5760, 8192, 8193, 8194, 8195, 8196, 8197, 8198, 8199,
                           8200, 8201, 8202, 8232, 8233, 8239, 8287, 12288}
    ensures '!' <= c <= '~' ==> !IsSpace(c)
  {}

  predicate SameOutput(actual: string, expected: string) { Normalize(actual) == Normalize(expected) }

  /** The comparison the executor's description promises: only trailing whitespace is ignored. */
  predicate SameUpToTrailingSpace(actual: string, expected: string) { TrimEnd(actual) == TrimEnd(expected) }

  /** The described comparison is the one made plus equal indentation: an answer indented differently from the
      expected output passes although the description would fail it, and nothing else differs. */
  lemma {:induction false} ComparisonIgnoresIndent(actual: string, expected: string)
    ensures SameUpToTrailingSpace(actual, expected)
            <==> SameOutput(actual, expected) && Indent(TrimEnd(actual)) == Indent(TrimEnd(expected))
  {
    hide TrimStart, TrimEnd, Indent, Blank;
    IndentThenRest(TrimEnd(actual));
    IndentThenRest(TrimEnd(expected));
  }

  /** The comparison made and the one described agree on two outputs exactly when these differ anyway or are indented
      alike. */
  lemma {:induction false} ComparisonsAgreeExactlyWhen(actual: string, expected: string)
    ensures (SameOutput(actual, expected) <==> SameUpToTrailingSpace(actual, expected))
            <==> (Normalize(actual) != Normalize(expected) || Indent(TrimEnd(actual)) == Indent(TrimEnd(expected)))
  {
    hide TrimStart, TrimEnd, Indent;
    ComparisonIgnoresIndent(actual, expected);
  }

  lemma {:induction false} IndentedAnswerPasses()
    ensures SameOutput(" 1", "1") && !SameUpToTrailingSpace(" 1", "1")
  {
    assert TrimEnd(" 1") == " 1" && TrimEnd("1") == "1";
    assert " 1"[1..] == "1";
    assert TrimStart(" 1") == TrimStart("1");
  }

  // --- Matching results to test cases -----------------------------------------------------

  function RawId(r: RawResult): string { r.id }

  function LastFor(raw: seq<RawResult>, id: string): Option<RawResult> { LastBy(RawId, raw, id) }

  function Judge(tc: TestCase, raw: Option<RawResult>): TestCaseResult {
    if raw.None? then TestCaseResult(tc.id, false, None, None, false, None, false)
    else
      var r := raw.value;
      TestCaseResult(tc.id, !r.timedOut && r.exitCode == Some(0) && SameOutput(r.stdout, tc.expectedOutput),
                     Some(r.stdout), r.runtimeMs, r.timedOut, r.exitCode, r.outputTruncated)
  }

  function JudgeAll(testCases: seq<TestCase>, raw: seq<RawResult>): (results: seq<TestCaseResult>) {
    seq(|testCases|, i requires 0 <= i < |testCases| => Judge(testCases[i], LastFor(raw, testCases[i].id)))
  }

  /** Raw result `k` is the one that counts for an id: the last one reported under it. */
  ghost predicate Latest(raw: seq<RawResult>, id: string, k: nat) {
    k < |raw| && raw[k].id == id && forall l :: k < l < |raw| ==> raw[l].id != id
  }

  lemma {:induction false} LatestIsUsed(raw: seq<RawResult>, id: string)
    ensures forall k: nat :: Latest(raw, id, k) ==> LastFor(raw, id) == Some(raw[k])
    ensures LastFor(raw, id).Some? ==> exists k: nat :: Latest(raw, id, k)
  {
    forall k: nat | Latest(raw, id, k)
      ensures LastFor(raw, id) == Some(raw[k])
    {
      FoundByKey(RawId, raw, k);
    }
    LastByIsLast(RawId, raw, id);
    if LastFor(raw, id).Some? {
      var k :| 0 <= k < |raw| && raw[k] == LastFor(raw, id).value && RawId(raw[k]) == id
               && forall l :: k < l < |raw| ==> RawId(raw[l]) != id;
      assert Latest(raw, id, k);
    }
  }

  /** What is reported for a test case: everything the counting raw result says, and a pass exactly when that run ended
      in time with exit code 0 and the expected output; a failure without any of it when nothing came back. */
  ghost predicate Reports(r: TestCaseResult, tc: TestCase, raw: seq<RawResult>) {
    && r.testCaseId == tc.id
    && (forall k: nat :: Latest(raw, tc.id, k) ==>
          && r.actualOutput == Some(raw[k].stdout) && r.runtimeMs == raw[k].runtimeMs && r.timedOut == raw[k].timedOut
          && r.exitCode == raw[k].exitCode && r.outputTruncated == raw[k].outputTruncated
          && (r.passed <==> !raw[k].timedOut && raw[k].exitCode == Some(0) && SameOutput(raw[k].stdout, tc.expectedOutput)))
    && ((forall k :: 0 <= k < |raw| ==> raw[k].id != tc.id) ==>
          r.actualOutput == None && r.runtimeMs == None && r.exitCode == None && !r.timedOut && !r.outputTruncated && !r.passed)
  }

  lemma {:induction false} JudgeReports(tc: TestCase, raw: seq<RawResult>)
    ensures Reports(Judge(tc, LastFor(raw, tc.id)), tc, raw)
  {
    hide SameOutput;
    LatestIsUsed(raw, tc.id);
  }

  /** One result per test case, in the order of the test cases, whatever the worker sent back. */
  method MatchResults(testCases: seq<TestCase>, raw: seq<RawResult>) returns (results: seq<TestCaseResult>)
    ensures results == JudgeAll(testCases, raw)
    ensures |results| == |testCases|
    ensures forall i :: 0 <= i < |testCases| ==> Reports(results[i], testCases[i], raw)
  {
    hide LastBy, Normalize;
    var resultsById := IndexBy(RawId, raw);
    results := [];
    for i := 0 to |testCases|
      invariant results == JudgeAll(testCases[..i], raw)
    {
      var tc := testCases[i];
      if tc.id !in resultsById {
        results := results + [TestCaseResult(tc.id, false, None, None, false, None, false)];
      } else {
        var r := resultsById[tc.id];
        var passed := !r.timedOut && r.exitCode == Some(0) && Normalize(r.stdout) == Normalize(tc.expectedOutput);
        results := results + [TestCaseResult(tc.id, passed, Some(r.stdout), r.runtimeMs, r.timedOut, r.exitCode,
                                             r.outputTruncated)];
      }
    }
    assert testCases[..|testCases|] == testCases;
    forall i | 0 <= i < |testCases|
      ensures Reports(results[i], testCases[i], raw)
    {
      JudgeReports(testCases[i], raw);
    }
  }
}
