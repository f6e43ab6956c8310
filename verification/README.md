# Interview platform: verified model

This project models the parts of the interview platform in which stored rows, retries and concurrent requests
have to agree, and proves what they guarantee. Language-model answers, HTTP replies of the sandbox worker, clocks
and the interleaving of requests are arbitrary inputs: every statement holds whatever they are.

* **Interview turns.** `Domain`, `Policy`, `TurnGraph` and `FollowUps` hold the deterministic nodes and policies;
  `Execution` is the meaning of every service call on the stored rows (a call commits its whole new state or
  changes nothing); `ExecutionService` is the same service as a class whose methods assign columns, append rows and
  roll back, each proved equal to that meaning. `Invariant`, `Steps` and `Runs` prove what every run keeps,
  `Outcomes` what each call stores, `Decisions` what one
  turn leads to, `Refusals` exactly when a call is turned away, `Termination` bounds the number of turns, `Completion` shows that no interview
  gets stuck, `Interleavings` drops the assumption that the second read of the session row is up to date,
  `StaleReads` says exactly when an outdated one matters, `AsRead` proves whole runs equal to up-to-date ones when
  every request reads what it really reads, `Advances` counts how often an interview is moved on from a question,
  `PlanNumbering` says which plan numberings work, and `ProblemReuse` when a coding problem can come back.
* **Code submissions.** `Submissions` is the protocol of one answer as interleaved database steps of any number of
  requests and grading jobs. `CodingRoundService` (a request) and `Grading` (a job) are the imperative forms, proved
  to take exactly those steps; `Sandbox` matches worker results to test cases. `CodingGrades` joins the protocol to the
  interview: what a completed coding round says about grading.
* **Scores.** `Rounding`, `Sums`, `Scoring` and `ScoreAverages` use exact numbers. `round(x, 2)` takes ties to even
  (section 4.3.1 of IEEE 754-2019); a NUMERIC(5, 2) column takes ties away from zero.
* **Tokens.** `Tokens` interleaves logins, refreshes, logouts and password resets with row locks (the rotation
  scheme of section 10.4 of RFC 6749); `Auth` is the service of one request, proved to take those steps.
* **Plans and catalog.** `Planning` goes from template to plan snapshot to execution context, `Catalog` seeds
  template rounds, `CatalogHistory` interleaves the two.
* **Progress.** `Progress` records a report's scores per skill, with the retry after a lost race.
* **Limits.** `Failures` holds concrete runs and inputs at which a guarantee of the turns, scores or progress fails;
  those about submissions, tokens, plan numbering and output comparison stand in their own modules.

`dafny verify dfyconfig.toml` checks everything.

## Reading the model

* Row ids are insertion positions, so an id is never reused. Fields that exist for the proof only (a token's
  `lineage` and `parent`, a reset's `seen`) are called history where they are declared.
* Python reads a negative list index from the end; `TurnGraph.Index` does the same.
* An assignment to a loaded row is written back only if it changes the loaded value (`Execution.WriteBack`), which is
  what makes outdated reads interesting. A grading job's copies of the session and
  round rows are an input (`Execution.CodingRead`). Requests read other rows fresh.
* The statements of `Runs`, `Decisions`, `Termination`, `Completion` and `CodingGrades` are about runs in which locked
  reads return the committed rows; those of `Interleavings`, except the one on terminal states, hold for any such read.
* Unique constraints, row locks, ON DELETE RESTRICT and rollback are part of the steps; a request that dies is an
  event of its own.

## Where the code and its description differ

* The sandbox description says trailing whitespace is ignored when outputs are compared; the code strips both ends
  (`Sandbox.ComparisonsAgreeExactlyWhen`, `Sandbox.IndentedAnswerPasses`).
* The grading job commits a submission's terminal status before its evaluation exists. "Nothing queued or running, so
  final means evaluated" therefore fails in between; `Submissions.FinalMeansEvaluatedExactlyWhen` has the exact
  condition. A second job for the same submission can use that moment to advance the interview early.
* Rounds are found by position in one place and by sequence number in another; both agree only on plans numbered
  1..n (`PlanNumbering.NumberingMatters`). The run theorems require such plans (`Invariant.Numbered`).
* Completed and abandoned are meant to be final, and the interview to move on from a question once. An answer whose
  second read returns the session row as its first read saw it can still commit after the interview was abandoned
  (`Failures.AbandonedInterviewFinishes`) or after the grading job completed the coding round
  (`Failures.CodingQuestionAdvancesTwice`), exactly while its own answer row is not evaluated
  (`StaleReads.TerminalStateAbsorbsStaleRereadExactlyWhen`, `Advances.SecondAdvanceExactlyWhen`). A grading job that
  loaded its rows before it got the lock has no such check (`StaleReads.StaleCodingReadIsHarmlessExactlyWhen`).
* A password reset revokes the tokens it has read; one rotated meanwhile leaves a live successor
  (`Tokens.ResetEndsEverySessionExactlyWhen`).
* The running averages of a turn equal the averages rebuilt from rows only when the scores are whole hundredths,
  because rows round them (`ScoreAverages.RunningScoresRefineBatch`, `Failures.RoundedScoreSplitsAverages`).
* Recording the same report twice is idempotent for keys and scores but resets the touched skills' trends to STABLE
  (`Progress.RecordingAgain`, `Failures.TrendIsForgotten`).
* A follow-up decided for a coding question aborts the turn and rolls it back instead of being skipped
  (`Runs.CodingFollowUpAborts`, `Failures.FollowUpOnCodingIsLost`).

## Model

| member | source | states |
|---|---|---|
| Runs.EveryRunKeepsInvariant | backend/app/services/interview/execution_service.py:127-606 | after any sequence of starts, both submit phases, retries, crashes between phases, coding completions and abandons, whatever the evaluator answers, the rows satisfy `Inv`: numbering, threads, unique rows, statuses, answered questions, difficulty |
| Runs.RoundsOfEveryRun | backend/app/services/interview/execution_service.py:567-606 | while an interview runs exactly one round is ACTIVE, all earlier ones COMPLETED, all later ones PENDING, and the open question lies in the active round; a completed interview has only COMPLETED rounds and no open question |
| Runs.CompletedRoundsAreFull | backend/app/agents/policy.py:23-36 | in every run a completed round holds three root questions if it is technical, one if it is an introduction, a coding round or the final one, and two otherwise |
| Runs.OnlyTheOpenQuestionIsUnevaluated | backend/app/services/interview/execution_service.py:309-425 | in every run each text question other than the open one has a stored evaluation |
| Runs.ThreadsStayShort | backend/app/agents/nodes/supervisor.py:51-52 | in every run no question has more than two descendants |
| Runs.QuestionsOfEveryRun | backend/app/services/interview/execution_service.py:616-700 | in every run a coding round asks coding tasks about catalog problems, a system-design round design tasks, every other round open questions; a follow-up deepens the question just before it in its round; rounds are asked in order |
| Runs.DifficultyOfEveryRun | backend/app/services/interview/execution_service.py:396-416 | in every run the session's difficulty is the clamped fold of all stored signals over the starting difficulty, and each question carries the fold of exactly the evaluations stored before it was asked |
| Runs.CodingKeepsDifficulty | backend/app/services/interview/execution_service.py:429-528 | completing a coding round never changes the session's difficulty, in any state |
| Runs.RoundAlwaysFound | backend/app/services/interview/execution_service.py:336-338 | in every state satisfying the invariant no call answers ROUND_NOT_FOUND or EMPTY_ROUND_PLAN or runs past the plan, and phase two never meets a duplicate evaluation |
| Failures.FollowUpOnCodingIsLost | backend/app/services/interview/execution_service.py:648-661 | a run of a new plan in which a turn on its coding question is thrown away with CODING_PROBLEM_ID_MISSING |
| Runs.CodingFollowUpAborts | backend/app/services/interview/execution_service.py:648-661 | a turn fails with CODING_PROBLEM_ID_MISSING exactly when a storable evaluation asks for a follow-up on a coding question; the rows are then untouched |
| Decisions.TurnDecidedByRows | backend/app/agents/nodes/supervisor.py:43-68 | every committed turn stores the four scores and the signal (INCREASE exactly from a technical and problem-solving sum of 160, DECREASE exactly up to 80), moves the difficulty one level by it, and goes on as the true row counts call for: follow-up exactly when wanted and fewer than two lie below the root, same round, next round or end, with the statuses and parent pointer that go with it |
| Decisions.GraphDecides | backend/app/agents/graph.py:82-117 | the graph, started from the state rebuilt from rows, ends in the branch the rows call for |
| Outcomes.VerdictIsStored | backend/app/services/interview/execution_service.py:390-425 | for every read of the session row, a committed turn adds one evaluation, about its question, with all four scores as columns hold them and the signal their sum gives (160 and 80); the difficulty adapts from the level read, at most one level and never past the ends, and the question asked carries it |
| Outcomes.TurnGoesOn | backend/app/agents/nodes/supervisor.py:43-68 | for every read of the session row, a committed turn asks a follow-up to its question exactly when the answer deserves one and fewer than two are counted under its root, else another root question exactly when the read round has room, else it closes the round and opens the next with a root question, and ends exactly when the plan has no further position; session and round rows follow |
| Outcomes.AnswerIsRecorded | backend/app/services/interview/execution_service.py:248-307 | phase one adds exactly one row, with the whole text, exactly when the question is open in a running interview and unanswered; a stored evaluation is replayed, and each refusal comes exactly under its own condition |
| Outcomes.AnswersAreSubmissions | backend/app/services/interview/execution_service.py:289-307 | over every run and any reads, each answer row holds exactly the text of the submission that created it, which found its question open and unanswered; a row without a text was created by a coding request |
| Outcomes.CodingAnswerIsThere | backend/app/services/coding/coding_round_service.py:148-153 | a coding request leaves its coding question with an answer row and adds an empty one exactly where there was none |
| Outcomes.LeftOnlyOnce | backend/app/services/interview/execution_service.py:532-545 | an interview can be left before and while it runs, only its status changes, and a second leave is refused |
| Outcomes.CodingTurnIsStored | backend/app/services/interview/execution_service.py:429-528 | for every read, completing a coding round adds no evaluation and keeps the session's difficulty; it closes the coding question's round and opens the next one with a root question at the level the job read, or ends the interview, exactly when the plan has no further position |
| Refusals.TurnHappensExactlyWhen | backend/app/services/interview/execution_service.py:309-425 | a turn about the open question is refused exactly for one of the listed obstacles, in that order (evaluator or generator down, no catalog problem of the adapted difficulty, a score no column holds, a follow-up on a coding question, a withdrawn problem), with that code and unchanged rows; otherwise it commits, and the reply names the new question or the end |
| Refusals.LateRequestIsAnswered | backend/app/services/interview/execution_service.py:309-335 | phase two answers NOT_IN_PROGRESS, a replay of the question's own evaluation or STALE_QUESTION_ID each exactly under its own condition on the read row |
| Refusals.CodingHappensExactlyWhen | backend/app/services/interview/execution_service.py:429-528 | the completion of the open coding round is refused exactly when the next round has no first question to ask or its problem was withdrawn; otherwise the round is completed and the next one opened, or the interview ends |
| Refusals.LateJobIsAnswered | backend/app/services/interview/execution_service.py:449-482 | the grading job is told that the round is over, the interview not running or the question not open each exactly under its own condition on what it read |
| Refusals.StartHappensExactlyWhen | backend/app/services/interview/execution_service.py:127-213 | only a planned interview with a round starts: a round with the least sequence number becomes ACTIVE and its first question is asked at the starting difficulty; if there is none to ask, or on a second start, nothing is stored |
| Refusals.StorableExactlyWhen | backend/app/models/evaluation.py:30-36 | an evaluation can be stored exactly if all four scores lie strictly between -999.995 and 999.995 |
| Invariant.RecountIsDepth | backend/app/services/interview/execution_service.py:340-354 | the follow-up count rebuilt from a round's parent pointers is the true number of follow-ups between the newest question and its root |
| Invariant.RootsRecounted | backend/app/agents/nodes/supervisor.py:56-60 | the number of root questions counted in the rebuilt history is the number of root rows of the round |
| Invariant.DescendantsCapped | backend/app/agents/nodes/supervisor.py:51-52 | well-threaded questions never have a tree larger than the cap, for every root |
| Steps.FinishTurnKeepsInvariant | backend/app/services/interview/execution_service.py:309-425 | phase two of submitting an answer keeps the whole invariant for every oracle answer |
| Steps.CompleteCodingKeepsInvariant | backend/app/services/interview/execution_service.py:429-528 | completing a coding round keeps the whole invariant |
| Steps.StartKeepsInvariant | backend/app/services/interview/execution_service.py:127-213 | starting a planned interview establishes the running invariant or changes nothing |
| Steps.SaveAnswerKeepsInvariant | backend/app/services/interview/execution_service.py:289-307 | adding an answer row for an unanswered question keeps the whole invariant |
| Steps.DecidedFromRows | backend/app/agents/nodes/supervisor.py:43-68 | the supervisor's decision on the rebuilt state is the one the true follow-up depth, root count and position in the plan call for |
| Steps.TurnShape | backend/app/agents/nodes/supervisor.py:15-83 | for any evaluator answer the graph returns one of four endings, each with the row condition that justifies it, and the evaluator's own scores |
| Termination.TurnLowersMeasure | backend/app/agents/nodes/supervisor.py:43-68 | every committed turn finishes the interview or strictly lowers (rounds not completed, root questions left, follow-ups left) lexicographically |
| Termination.TurnsAreBudgeted | backend/app/services/interview/execution_service.py:217-606 | turns taken plus turns still possible never exceed what was possible at the start, along any run |
| Termination.RunsAreBounded | backend/app/agents/policy.py:23-36 | no run of a plan takes more turns than the sum over its rounds of target questions times (1 + MAX_FOLLOW_UPS_PER_QUESTION) |
| Completion.CanAlwaysFinish | backend/app/services/interview/execution_service.py:217-606 | no running interview that satisfies the invariant is stuck: some further calls complete it, whatever happened before |
| Completion.EveryPlanCanBeCompleted | backend/app/services/interview/execution_service.py:127-606 | every plan numbered 1..n, with any round types, can be started and completed |
| Completion.CanTakeTurn | backend/app/services/interview/execution_service.py:217-425 | from every running state there is a turn that commits and ends the interview or lowers the number of turns left |
| Interleavings.RunIsSafe | backend/app/services/interview/execution_service.py:248-425 | under any interleaving and with any phase-two re-read: at most one answer per question and one evaluation per answer; stored answers, evaluations and questions are never rewritten or lost |
| Interleavings.AtMostOneTextTurn | backend/app/models/evaluation.py:24-29 | whatever the re-reads return, at most one answered turn about a question is ever committed, and then its evaluation exists |
| Advances.AtMostOneAdvance | backend/app/services/interview/execution_service.py:309-606 | with committed reads the interview is moved on from each question at most once, by an answered turn or a completed coding round, and then it is not the open question |
| Advances.AtMostOneAdvanceOfTextQuestion | backend/app/models/evaluation.py:24-29 | whatever any read returns, the interview is moved on from a question that is not a coding task at most once, and then its answer is evaluated |
| Advances.SecondAdvanceExactlyWhen | backend/app/services/interview/execution_service.py:309-317 | with the session row read while the question was open, a late answered turn commits for some model answer if and only if the question's answer row is stored and not evaluated, and a late coding completion if and only if the question is a coding task |
| Advances.UnevaluatedAdvanceIsCoding | backend/app/services/interview/execution_service.py:429-528 | a question the interview was moved on from once is evaluated or is a coding task |
| Failures.CodingQuestionAdvancesTwice | backend/app/services/interview/execution_service.py:309-317 | a run of a new plan in which the interview is moved on twice from one coding question, leaving the next question behind unanswered |
| Interleavings.PointerNeverReturns | backend/app/services/interview/execution_service.py:601-602 | once the current-question pointer has left an asked question it never comes back to it |
| Interleavings.FirstAnswerStays | backend/app/models/interview.py:244-249 | the first answer recorded for a question is the row every later state holds |
| Interleavings.ReplayForever | backend/app/services/interview/execution_service.py:256-275 | submitting again to an evaluated question replays that same evaluation and changes nothing, in every later state |
| Interleavings.TerminalStatesAbsorb | backend/app/services/interview/execution_service.py:532-545 | with committed reads a completed or abandoned interview never changes again, apart from an empty answer row a coding request may still add |
| StaleReads.TerminalStateAbsorbsStaleRereadExactlyWhen | backend/app/services/interview/execution_service.py:309-317 | a completed or abandoned interview is changed by no outdated second read, for any model answer, if and only if the question has no answer row or its answer is already evaluated |
| Failures.AbandonedInterviewFinishes | backend/app/services/interview/execution_service.py:309-317 | a run of a new plan that goes from ABANDONED to COMPLETED, because it was abandoned between the phases of its last answer |
| AsRead.OwnReadsChangeNothing | backend/app/services/interview/execution_service.py:248-425 | in every run whose second reads are the copies the requests' own phase one left, with no abandon and no completion of that coding round between a request's phases, the rows are those of the same calls with committed reads, and the invariant holds |
| AsRead.OpenUntilEvaluated | backend/app/services/interview/execution_service.py:309-317 | if nobody abandons the interview or completes the coding round, an open question stays open until its own answer is evaluated |
| StaleReads.StaleRereadIsHarmlessExactlyWhen | backend/app/services/interview/execution_service.py:309-317 | an outdated copy of the session row in phase two leads to the same rows as the committed one for every oracle answer if and only if the question is already evaluated or is still the open question of a running interview |
| StaleReads.StaleRereadOfTextQuestion | backend/app/services/interview/execution_service.py:309-317 | for a text question of an interview nobody abandoned the outdated copy never matters |
| StaleReads.StaleCodingReadIsHarmlessExactlyWhen | backend/app/jobs/coding_execution.py:90-100 | the older session and round objects a grading job holds lead to the same rows as the committed ones, for every catalog and model answer, if and only if the question is still open in a running interview, or the interview is completed and this was its last round |
| StaleReads.SessionFrozen | backend/app/services/interview/execution_service.py:309-317 | as long as the interview runs and the pointer stays, no column of the session row changes, through any committed calls |
| PlanNumbering.NumberingMatters | backend/app/agents/nodes/round_management.py:25-33 | the graph's position and the service's sequence number visit every round in order if and only if the plan is numbered 1..n (a one-round plan: any positive number) |
| PlanNumbering.GapLosesRound | backend/app/services/interview/execution_service.py:592-597 | a plan numbered 1, 3 fails with ROUND_NOT_FOUND after its first round |
| FollowUps.FindRoot | backend/app/services/interview/execution_service.py:816-827 | the walking loop, with its `seen` set, ends on every parent map and returns the last id of the walk |
| FollowUps.CountForRoot | backend/app/services/interview/execution_service.py:829-830 | the counting loop returns the number of other ids whose walk ends at the same root |
| FollowUps.WalkOnAnyMap | backend/app/services/interview/execution_service.py:816-827 | on cyclic and dangling maps too, the walk visits distinct ids along parent pointers and stops only at a root, at an id not loaded, or where the next pointer closes a cycle |
| FollowUps.WalkEndsAtRoot | backend/app/services/interview/execution_service.py:816-827 | on an acyclic closed map the walk ends at a root that is reachable from the question |
| FollowUps.CountIsTreeSize | backend/app/services/interview/execution_service.py:809-830 | on an acyclic closed forest the count is the size of the tree minus its root, from every question of the tree |
| Execution.FinishTurn | backend/app/services/interview/execution_service.py:309-425 | a refused turn leaves every row unchanged; a committed one saw the interview running with this question open and adds exactly one evaluation, for this question's so far unevaluated answer |
| Execution.ApplyTransition | backend/app/services/interview/execution_service.py:567-606 | the shared tail adds no evaluation or answer, and its replies are a new question or the end |
| ExecutionService.InterviewExecutionService.StartInterview | backend/app/services/interview/execution_service.py:127-213 | the statement-by-statement call leaves exactly the rows and reply of the specification the run theorems are about, rollback included |
| ExecutionService.InterviewExecutionService.SaveAnswer | backend/app/services/interview/execution_service.py:248-307 | phase one leaves exactly the specified rows and reply, including the unique-constraint race |
| ExecutionService.InterviewExecutionService.FinishTurn | backend/app/services/interview/execution_service.py:309-425 | phase two, with the counting loop and the write-back of changed columns only, leaves exactly the specified rows and reply |
| ExecutionService.InterviewExecutionService.StoreTurn | backend/app/services/interview/execution_service.py:396-425 | storing the turn is all or nothing: evaluation, difficulty and transition together, or the old rows |
| ExecutionService.InterviewExecutionService.ApplyRoundTransitionResult | backend/app/services/interview/execution_service.py:567-606 | the in-place transition equals the specified one |
| ExecutionService.InterviewExecutionService.PersistQuestion | backend/app/services/interview/execution_service.py:616-700 | one question row is appended, or none on an error |
| ExecutionService.InterviewExecutionService.OpenCodingAnswer | backend/app/services/coding/coding_round_service.py:148-153 | a coding request finds its answer row or adds an empty one |
| ExecutionService.InterviewExecutionService.CompleteCodingRound | backend/app/services/interview/execution_service.py:429-528 | with whatever session and round copies the job holds, leaves exactly the specified rows and reply, idempotent when it reads the round as completed |
| ExecutionService.InterviewExecutionService.Abandon | backend/app/services/interview/execution_service.py:532-545 | only the status changes, and only from NOT_STARTED or IN_PROGRESS |
| Policy.SignalMonotone | backend/app/agents/policy.py:50-63 | better scores never give a weaker difficulty signal |
| Policy.OneLevelAtATime | backend/app/agents/policy.py:66-81 | a signal moves the difficulty by exactly one level in its direction, clamped at both ends |
| Policy.BetterSignalsNeverEasier | backend/app/agents/policy.py:66-81 | over a whole history, signals that are no weaker each time never lead to a lower difficulty |
| Policy.BetterScoresNeverEasier | backend/app/agents/policy.py:50-81 | over a whole history, answers that score at least as well each time, in both scores, never lead to a lower difficulty |
| Policy.SelectsTheLeast | backend/app/agents/policy.py:86-124 | the selector fails exactly when the difficulty has no candidate and otherwise returns the least exact-difficulty candidate in the order (already used, role fit, list position) |
| ProblemReuse.ReuseOnlyWhenExhausted | backend/app/agents/nodes/coding_problem_selector.py:25-54 | over every run with a fixed catalog each coding question is about the best catalog entry of its difficulty (no earlier question about it, then made for the role, then for none, then list order), and a problem comes back only if every problem of that difficulty has an earlier question |
| ScoreAverages.RunningMeanIsBatchMean | backend/app/agents/nodes/difficulty.py:17-20 | extending a batch mean by one raw score gives the mean including the stored row if and only if storing did not round the score |
| ScoreAverages.RunningScoresRefineBatch | backend/app/agents/nodes/difficulty.py:55-71 | the running update agrees with the averages rebuilt from all rows, on all four dimensions and the count, if and only if the four scores are whole hundredths |
| Failures.RoundedScoreSplitsAverages | backend/app/services/interview/execution_service.py:796-806 | a score of 33.333 is stored as 33.33 and the averages of the turn and of the rows differ |
| ScoreAverages.FoldRefinesBatch | backend/app/services/interview/execution_service.py:796-806 | the running update folded over any sequence of exactly storable evaluations is the batch average of their rows |
| ScoreAverages.TurnAveragesMatchRows | backend/app/services/interview/execution_service.py:361-396 | after a committed turn the averages in the graph state equal those rebuilt from the new rows if and only if the scores were stored exactly |
| Rounding.NearestHundredth | backend/app/agents/policy.py:177-177 | `round(x, 2)` and a NUMERIC(5, 2) column both return a whole hundredth at most half a hundredth away |
| Rounding.TiesToEven | backend/app/agents/policy.py:177-177 | `round(x, 2)` is the nearest hundredth and at a tie the even one |
| Rounding.TiesAwayFromZero | backend/app/models/evaluation.py:30-36 | a NUMERIC(5, 2) column holds the nearest hundredth and at a tie the one further from zero |
| Rounding.FitsExactlyWhen | backend/app/models/evaluation.py:30-36 | a NUMERIC(5, 2) column takes a score exactly if its absolute value is below 999.995 |
| Rounding.Round2Within | backend/app/agents/policy.py:177-177 | rounding never leaves an interval whose ends are whole hundredths |
| Scoring.CodeScoreIsAverage | backend/app/agents/policy.py:147-169 | the code score lies between its least and greatest part up to half a hundredth, and inside any whole-hundredth interval holding the parts |
| Scoring.CodeScoreMonotone | backend/app/agents/policy.py:147-169 | raising any part never lowers the code score |
| Scoring.ReadabilityCountsTwice | backend/app/agents/policy.py:134-169 | the code score is 40% correctness, 25% readability, 20% optimization and 15% edge cases, because code quality is the readability score again |
| Scoring.AverageWithin | backend/app/agents/policy.py:180-205 | section scores and round composites stay between their least and greatest input, up to half a hundredth |
| Scoring.AverageIsMean | backend/app/agents/policy.py:180-205 | every score counts the same in a section score or round composite: it is the sum over the number, rounded |
| Scoring.OverallScoreIsAverage | backend/app/agents/policy.py:208-222 | with non-negative weights the interview score stays between the least and greatest round score up to half a hundredth |
| Scoring.OverallScoreIsWeightedMean | backend/app/agents/policy.py:208-222 | each round counts by its weight, and without any weight the interview score is 0.0 |
| Scoring.OverallScoreMonotone | backend/app/agents/policy.py:208-222 | raising any round's score never lowers the interview score |
| Scoring.OverallScorePermuted | backend/app/agents/policy.py:208-222 | the interview score does not depend on the order of the rounds |
| Scoring.OverallScoreScaled | backend/app/agents/policy.py:208-222 | scaling all weights by the same non-zero factor changes nothing |
| Submissions.StaleNumbersAreRefused | backend/app/models/interview.py:264-272 | an insert passes the unique constraints if and only if its number is the next one and no final row stands in its way, so every stale number is refused |
| Submissions.KeysHoldInEveryRun | backend/app/repositories/coding.py:102-106 | under every interleaving, even with repeated jobs, attempt numbers are exactly 1..k and at most one submission is final |
| Submissions.EveryRunKeepsInvariant | backend/app/services/coding/coding_round_service.py:126-384 | with each job run at most once, every interleaving keeps the stage of each job and the state of its submission in step |
| Submissions.AtMostOneEvaluation | backend/app/services/coding/coding_round_service.py:240-384 | a coding question gets at most one coding evaluation, ever |
| Submissions.EvaluatedForever | backend/app/services/coding/coding_round_service.py:415-423 | an evaluated submission is never released and its evaluation never goes away |
| Submissions.AdvancedOnlyAfterEvaluation | backend/app/jobs/coding_execution.py:79-100 | the job advances the interview only for a final submission that already has its evaluation |
| Submissions.FinalMeansEvaluatedExactlyWhen | backend/app/services/coding/coding_round_service.py:305-306 | with nothing queued or running, final and evaluated coincide for every submission if and only if no job has committed an outcome whose evaluation it still owes |
| Submissions.OutcomeCommittedBeforeEvaluation | backend/app/services/coding/coding_round_service.py:305-306 | a run that ends with nothing queued or running and a final submission that has no evaluation |
| Submissions.DuplicateJobAdvancesEarly | backend/app/jobs/coding_execution.py:73-80 | a run in which a second job for the same submission advances the interview before any evaluation exists |
| Submissions.EarlyAdvanceNeedsOwingJob | backend/app/jobs/coding_execution.py:73-80 | even with duplicate jobs, the gate lets an unevaluated submission advance the interview only while some other job for it has committed the outcome and owes, or died owing, its evaluation |
| Submissions.VerdictsAreOwedInEveryRun | backend/app/services/coding/coding_round_service.py:305-384 | in every run, duplicate jobs included, a final verdict without an evaluation is owed one by some job |
| Submissions.EmptySatisfiesInvariant | backend/app/services/coding/coding_round_service.py:163-212 | a question without submissions satisfies the invariant and the key conditions |
| CodingGrades.CompletedCodingRoundIsGraded | backend/app/jobs/coding_execution.py:79-108 | in every history of calls, submissions and jobs run at most once, with committed reads, a completed coding round has a question with a coding evaluation or an evaluated answer |
| CodingGrades.CompletedByOwnTurn | backend/app/services/interview/execution_service.py:567-606 | only a committed turn about a coding question completes its round |
| CodingGrades.ActiveCodingIsOpen | backend/app/agents/nodes/supervisor.py:54-68 | the coding question of the active round is the open question |
| CodingRoundService.CodeSubmissions.CreateSubmission | backend/app/services/coding/coding_round_service.py:163-225 | the request's reads, checks and insert are the protocol's client steps, whatever other requests committed in between, and exactly a created row gets a job |
| CodingRoundService.RequestIsAnswered | backend/app/services/coding/coding_round_service.py:163-225 | a final request finds the final submission there is, still being graded or done; one that loses the final slot finds the winner; one that loses only its number is told so; every other adds one queued row with the number after the largest it read |
| Grading.CodeSubmission.ExecuteAndGrade | backend/app/services/coding/coding_round_service.py:227-384 | the job body's commits are exactly those of the protocol's job steps; the counts, runtime and result rows are recorded exactly when the executor answered, and the evaluation it leaves is the one its outcome calls for |
| Grading.CodeSubmission.EvaluateFinal | backend/app/services/coding/coding_round_service.py:316-384 | a final submission gets the evaluation its outcome calls for, or is released with nothing stored when the provider fails; its status never changes |
| Grading.CodeSubmission.RunCodeSubmissionJob | backend/app/jobs/coding_execution.py:73-80 | the interview may advance exactly for a final submission with one of the six verdicts; a job that finds its submission queued or running says so exactly when it has just stored the evaluation, and any other job changes nothing |
| Grading.CodeSubmission.PersistExecutionOutcome | backend/app/services/coding/coding_round_service.py:426-494 | the accumulating loop's status, counts, runtime, result rows and passed ids are the order-free aggregates of the test cases, whose meaning `StatusExactlyWhen`, `JudgedRows` and `RecordedTotals` state |
| Grading.CodeSubmission.ReleaseFinalSlotOnInfraFailure | backend/app/services/coding/coding_round_service.py:415-423 | the final slot is given back and nothing else changes |
| Grading.JobsActLocally | backend/app/services/coding/coding_round_service.py:227-384 | a job does in a shared state exactly what it does alone |
| Grading.TraceEnds | backend/app/services/coding/coding_round_service.py:240-384 | a job that starts on an ungraded submission leaves a final verdict if and only if it leaves an evaluation |
| Grading.OrderDoesNotMatter | backend/app/services/coding/coding_round_service.py:445-494 | status, passed ids, passed count and total runtime are unchanged by permuting the test cases |
| Grading.CountIsSetSize | backend/app/services/coding/coding_round_service.py:469-471 | for distinct ids the passed count is the size of the passed-id set |
| Grading.PassedTallyBound | backend/app/services/coding/coding_round_service.py:488-492 | the passed count reaches the number of test cases if and only if every case passes |
| Grading.SuccessExactlyWhen | backend/app/services/coding/coding_round_service.py:483-492 | a submission judged by the sandbox is SUCCESS if and only if every case passed and none was truncated |
| Grading.StatusExactlyWhen | backend/app/services/coding/coding_round_service.py:456-492 | over the raw worker results: TIMEOUT exactly if some case's last result ran out of time, else OUTPUT_LIMIT exactly if one was cut, else RUNTIME_ERROR exactly if one ended with a non-zero exit code, SUCCESS exactly if every case ran in time with exit code 0 and the expected output and none was cut, PARTIAL exactly otherwise |
| Grading.JudgedRows | backend/app/services/coding/coding_round_service.py:456-474 | every case's own result is stored, in order; the passed ids are those of the passed results and the total runtime is the sum of the reported ones |
| Grading.RecordedTotals | backend/app/services/coding/coding_round_service.py:437-481 | a judged submission records how many of its cases passed, out of how many, the summed runtime and each case's result; one that did not compile records 0 passed and no results |
| Grading.RunsSamplesOnly | backend/app/services/coding/coding_round_service.py:263-265 | a final submission runs every case, a run exactly the sample cases, in order |
| Grading.CorrectnessIsWeightedShare | backend/app/services/coding/coding_round_service.py:497-511 | without the SUCCESS shortcut correctness is 100 times the weight of the passed cases over the total weight, rounded, and 0.0 without a positive total |
| Grading.PassedCaseAdds | backend/app/services/coding/coding_round_service.py:510-511 | one more passed case adds 100 times its weight over the total weight, before rounding |
| Grading.EvaluationMeans | backend/app/services/coding/coding_round_service.py:316-384 | code that did not compile gets five zeros, a failing provider nothing, everything else the provider's three scores, the weighted correctness and their weighted sum, each in its own column |
| Grading.CorrectnessMonotone | backend/app/services/coding/coding_round_service.py:497-511 | weighted correctness lies in 0..100 and never falls when more cases pass, across the SUCCESS shortcut too |
| Grading.ShortcutAgrees | backend/app/services/coding/coding_round_service.py:507-511 | the SUCCESS shortcut gives what the general formula gives |
| Grading.EvaluationWithin | backend/app/services/coding/coding_round_service.py:336-357 | percentages from the provider give a percentage for correctness and for the overall score |
| Grading.EvaluationMonotone | backend/app/services/coding/coding_round_service.py:319-357 | passing more test cases, all else equal, never lowers the overall code score |
| Sandbox.MatchResults | backend/app/execution/docker_sandbox.py:97-152 | one result per test case in order, whatever the worker sent; each copies the last raw result under its id and passes exactly when that one ended in time, with exit code 0 and the expected output; a case without a result fails with nothing else set |
| Sandbox.ComparisonIgnoresIndent | backend/app/execution/docker_sandbox.py:34-35 | the documented comparison holds if and only if the one made holds and both outputs start with the same whitespace |
| Sandbox.ComparisonsAgreeExactlyWhen | backend/app/execution/docker_sandbox.py:34-35 | the comparison made and the documented one give the same answer if and only if the stripped outputs differ or both outputs start with the same whitespace |
| Sandbox.TrimStartCutsBlank | backend/app/execution/docker_sandbox.py:34-35 | stripping the front removes whitespace only and leaves something visible in front |
| Sandbox.TrimEndCutsBlank | backend/app/execution/docker_sandbox.py:34-35 | stripping the end removes whitespace only and leaves something visible at the end |
| Sandbox.NormalizeCutsBothEnds | backend/app/execution/docker_sandbox.py:34-35 | comparison removes white space at both ends and nothing else |
| Sandbox.StrippedCharacters | backend/app/execution/docker_sandbox.py:34-35 | exactly the listed code points are stripped; visible ASCII never is |
| Sandbox.IndentedAnswerPasses | backend/app/execution/docker_sandbox.py:34-35 | an indented answer passes although the documented comparison fails it |
| Lookup.IndexBy | backend/app/execution/docker_sandbox.py:97-97 | the dictionary built by the loop holds the last element under each key |
| Lookup.LastByIsLast | backend/app/services/coding/coding_round_service.py:445-445 | the last element under a key is the one no later element shares the key with |
| Tokens.EveryRunKeepsInvariant | backend/app/services/auth_service.py:101-346 | every interleaving of login, refresh, logout and password reset, with row locks and crashes, keeps locks exclusive, parents chained and at most one live token per login |
| Tokens.RotatedAtMostOnce | backend/app/services/auth_service.py:114-142 | in every run each login has at most one unrevoked token, no token has two successors, and a token with a successor is revoked and belongs to the same user and login |
| Tokens.RevokedForever | backend/app/repositories/user.py:48-50 | whatever happens next, a revoked token stays revoked, a used reset token used, and rows keep their owner |
| Tokens.ReplayIsRefused | backend/app/services/auth_service.py:144-148 | presenting a token that was replaced once changes nothing, in every later state |
| Tokens.ExpiredResetsAreNeverUsed | backend/app/services/auth_service.py:231-257 | in every interleaving a reset token that is used up, or locked to be used, was presented while unexpired, for an active user |
| Tokens.ExpiredTokensAreNeverRotated | backend/app/services/auth_service.py:114-148 | in every interleaving a refresh token that has a successor was presented by its own active user before it expired |
| Tokens.ResetRevokesAllSeen | backend/app/services/auth_service.py:231-251 | a confirmed reset leaves every token the user had when it read them revoked, touches no other token, and uses its reset token up exactly once |
| Tokens.ResetEndsEverySessionExactlyWhen | backend/app/services/auth_service.py:245-251 | a confirmed reset leaves its user without a live token if and only if every token of the user stored after the reset read the others is already revoked |
| Tokens.RotationDuringResetSurvives | backend/app/services/auth_service.py:323-331 | a run in which a rotation between the reset's read and its update leaves a live successor |
| Auth.AuthService.Refresh | backend/app/services/auth_service.py:114-148 | succeeds exactly for a stored token that is unrevoked, unexpired and its active user's own; it is then revoked and followed by one token of the same login, as in the protocol's lock and rotate steps; otherwise nothing changes |
| Auth.AuthService.Logout | backend/app/services/auth_service.py:152-163 | revokes the stored token exactly if it is the user's own, as in the protocol's read, flush and commit steps |
| Auth.AuthService.RevokeAllRefreshTokens | backend/app/services/auth_service.py:323-331 | after the loop every token of the user is revoked and every other one is as it was |
| Auth.AuthService.ConfirmPasswordReset | backend/app/services/auth_service.py:231-257 | succeeds exactly for a stored token that is unused and unexpired and whose user is active; it is then used up and every token of the user revoked, in whatever order the rows are locked; otherwise no row changes |
| Auth.AuthService.Login | backend/app/services/auth_service.py:101-110 | adds exactly one live token, with a login of its own |
| Planning.ContextRecoversPlan | backend/app/services/interview/execution_context.py:81-93 | planning and then building the execution context lists the template's rounds in ascending order, each with its type, weight, required flag and its own difficulty override if it has one, the starting difficulty otherwise, whatever order the rows are loaded in |
| Planning.CreatePlan | backend/app/services/planning/interview_planner.py:121-131 | row and snapshot copy template round after template round, each at its override or else the starting difficulty; an empty template is refused |
| Planning.ContextOfAnyRows | backend/app/services/interview/execution_context.py:80-93 | whatever rows and snapshot are stored, the context lists each round in ascending order with its own columns; it is required unless the snapshot's last entry for its number says otherwise |
| Planning.AscendingIsUnique | backend/app/services/interview/execution_context.py:92-92 | with distinct sequence numbers there is only one ascending order of the same rounds |
| Planning.SortedFits | backend/app/services/planning/interview_planner.py:121-121 | the sort returns the same rounds in ascending order |
| CatalogHistory.ContextOutlivesSeeding | backend/app/services/interview/execution_context.py:68-93 | however often the catalog is seeded after planning, the interview's context is what the template's rounds were at that moment |
| CatalogHistory.ReferencedRowsAreNeverDeleted | backend/app/services/planning/catalog_seed.py:268-288 | in every history of planning and seeding row ids stay unique and every planned round keeps its template row under the same key |
| CatalogHistory.SecondSeedingChangesNothing | backend/app/services/planning/catalog_seed.py:240-290 | seeding the same catalog twice in a row leaves what seeding it once leaves |
| Catalog.TemplateRounds.UpsertRounds | backend/app/services/planning/catalog_seed.py:240-290 | the loops leave seeds plus referenced leftovers: matched rows keep their id and take the last seed's values, new keys get new ids; two new rows under one key undo everything |
| Catalog.TemplateRounds.WriteSeeds | backend/app/services/planning/catalog_seed.py:249-266 | inserting and updating touches exactly the seeded keys and fails exactly on two new rows under one key |
| Catalog.TemplateRounds.DropLeftovers | backend/app/services/planning/catalog_seed.py:268-288 | exactly the unmentioned and unreferenced rows go |
| Catalog.UpsertIsIdempotent | backend/app/services/planning/catalog_seed.py:240-290 | a second upsert with the same seeds cannot fail and changes no row, even if more rows are referenced by then |
| Catalog.UpsertsFits | backend/app/services/planning/catalog_seed.py:268-288 | every referenced row survives an upsert under its key with its id |
| Progress.ScoreAfterReport | backend/app/services/progress/progress_service.py:84-90 | after a report a skill has the score of the first area, weak before strong, that normalises to it and whose section has a score; a skill without one is untouched |
| Progress.TrendAfterReport | backend/app/agents/policy.py:252-269 | a skill the report speaks for is IMPROVING exactly from a rise of 5 points on, DECLINING exactly from a fall of 5 points on, and STABLE otherwise and at its first assessment |
| Progress.WeakBeforeStrong | backend/app/services/progress/progress_service.py:84-90 | a weak area beats every strong area for the same skill |
| Progress.FirstScoreIsFirst | backend/app/services/progress/progress_service.py:149-156 | the chosen score belongs to the least position that speaks for the skill, and there is none exactly when nothing does |
| Progress.RecordingAgain | backend/app/services/progress/progress_service.py:68-103 | recording the same report again keeps all keys and scores and sets the touched skills' trends to STABLE; the rows are unchanged if and only if they were STABLE already |
| Failures.TrendIsForgotten | backend/app/services/progress/progress_service.py:158-163 | a rise from 50 to 60 is IMPROVING after the report is recorded once and STABLE after it is recorded twice |
| Progress.RecordingSettles | backend/app/services/progress/progress_service.py:68-103 | a third recording changes nothing |
| Progress.ProgressService.RecordSessionProgress | backend/app/services/progress/progress_service.py:92-103 | the retry loop records on top of whatever was committed last, a lost attempt leaves no trace, and a second loss is reported |
| Progress.ProgressService.UpsertSkillProgress | backend/app/services/progress/progress_service.py:142-175 | the loop with its `seen` set gives every touched skill its first score and the trend against the old row, and leaves the others alone |

## Left out

- Language-model providers, prompts, response parsing, question texts and the duplicate-question retry of the question generator: their results are inputs, their failures abort the turn.
- HTTP routers, schemas, dependency injection, logging, configuration and ownership checks of interviews and submissions.
- The ORM and the graph checkpointer beyond row maps, unique constraints, row locks, write-back of changed columns, commit and rollback.
- Execution.FinishTurn: its own contract states what is stored once and what a refusal leaves; the difficulty, round and question effects of a committed turn are stated by Outcomes.VerdictIsStored, Decisions.TurnDecidedByRows and Refusals.TurnHappensExactlyWhen.
- Execution.ApplyTransition: its own contract leaves out round statuses and the pointer, which Decisions.TurnDecidedByRows and Runs.RoundsOfEveryRun state.
- CodingGrades.CompletedCodingRoundIsGraded: is stated for committed reads; with older copies a round can be completed as StaleReads.StaleCodingReadIsHarmlessExactlyWhen describes.
- Execution.StartInterview: the loop that marks leading rounds SKIPPED is not modelled, because the first round has the least sequence number and the loop never runs.
- Submissions.EveryRunKeepsInvariant: the job's early exit for a vanished question is not modelled; a submission's answer and question are never deleted on their own.
- Grading.CodeSubmission.ExecuteAndGrade: explanations, strengths, weaknesses and timestamps of an evaluation are not stored in the model; the error message is stated by PersistExecutionOutcome and EvaluateFinal only, without the text of the caught exception.
- Sandbox.MatchResults: stderr texts and the memory column, which nothing reads back, are not modelled; neither is the HTTP call.
- Scoring.OverallScoreIsAverage: binary floating point is replaced by exact numbers, so the sums carry no rounding of their own.
- Tokens.EveryRunKeepsInvariant: `revoked_at` and `used_at` are flags, not timestamps; token hashes are taken to be injective; deadlocks between two resets appear as a request that dies.
- Password hashing, JWT signing, Google sign-in, email verification and email delivery.
- Planning.ContextRecoversPlan: personalization, company and role snapshots, which the context copies field by field, and the resolution of mode, resume and starting difficulty are left out; the starting difficulty is an input.
- Catalog.TemplateRounds.UpsertRounds: companies, roles, templates and coding problems are upserted by the same match-or-insert loop and are not modelled; the coding test-case upsert is this one with no row referenced.
- Progress.ProgressService.RecordSessionProgress: the interview count and average of the daily snapshot come from a query over completed interviews and are inputs; timestamps are left out.
- Report narrative, weak-area severity, dashboards, resume parsing, embeddings, storage and the frontend: no state beyond what is modelled, or only easy members.
- The sandbox worker's processes and resource limits: operating-system behaviour.
