/** The code-submission protocol of one answer: many clients create submissions in separate read, insert and
    commit steps, and one background job per submission grades it. Every step is one atomic database action,
    so a run is any interleaving of them. */
module Submissions {
  import opened Domain

  datatype ExecutionStatus =
    | Queued | Running | Success | Partial | Error | Timeout | CompileError | RuntimeError | MemoryLimit | OutputLimit

  predicate Ungraded(s: ExecutionStatus) { s == Queued || s == Running }

  /** The statuses the job accepts as a verdict. */
  predicate Verdict(s: ExecutionStatus) { s in {ExecutionStatus.Success, Partial, CompileError, RuntimeError, Timeout, OutputLimit} }

  type VerdictStatus = s: ExecutionStatus | Verdict(s) witness Partial

  datatype Submission = Submission(attemptNo: nat, isFinal: bool, status: ExecutionStatus)

  /** Where a request to create a submission is. `Flushed` rows are written but not committed. */
  datatype Client =
    | Idle
    | Checked(isFinal: bool)
    | Numbered(isFinal: bool, attemptNo: nat)
    | Flushed(isFinal: bool, attemptNo: nat)

  /** Where a grading job is: `Judged` jobs have committed the execution outcome of a final submission and
      still owe its evaluation. */
  datatype Stage = Waiting | Executing | Judged | Returned | Done | Crashed(at: CrashPoint)

  datatype CrashPoint = BeforeStart | WhileExecuting | WhileJudged | AfterReturn

  datatype Job = Job(submission: nat, stage: Stage)

  datatype State = State(
    submissions: seq<Submission>,
    evaluations: seq<nat>,
    jobs: seq<Job>,
    clients: map<nat, Client>,
    advances: seq<nat>)

  datatype Event =
    | Check(client: nat, isFinal: bool)
    | Number(client: nat)
    | Flush(client: nat)
    | Commit(client: nat)
    | Vanish(client: nat)
    | Begin(job: nat, anyTests: bool)
    | Execute(job: nat, outcome: Option<VerdictStatus>)
    | Evaluate(job: nat, up: bool)
    | Gate(job: nat)
    | Crash(job: nat)
    | Duplicate(submission: nat)

  datatype Reply = Created(submission: nat) | Existing(submission: nat) | BeingGraded | Race | Silent

  // --- Queries ---------------------------------------------------------------------

  function FinalOf(submissions: seq<Submission>): (f: Option<nat>)
    ensures f.Some? ==> f.value < |submissions| && submissions[f.value].isFinal
    ensures f.None? ==> forall i :: 0 <= i < |submissions| ==> !submissions[i].isFinal
  {
    if submissions == [] then None
    else if submissions[|submissions| - 1].isFinal then Some(|submissions| - 1)
    else FinalOf(submissions[..|submissions| - 1])
  }

  /** One more than the largest committed attempt number. */
  function NextAttempt(submissions: seq<Submission>): (n: nat)
    ensures n >= 1 && forall i :: 0 <= i < |submissions| ==> submissions[i].attemptNo < n
  {
    if submissions == [] then 1
    else Max(NextAttempt(submissions[..|submissions| - 1]), submissions[|submissions| - 1].attemptNo + 1)
  }

  predicate Clashes(submissions: seq<Submission>, isFinal: bool, attemptNo: nat) {
    || (exists i :: 0 <= i < |submissions| && submissions[i].attemptNo == attemptNo)
    || (isFinal && FinalOf(submissions).Some?)
  }

  function ClientOf(s: State, c: nat): Client { if c in s.clients then s.clients[c] else Idle }

  function Move(s: State, c: nat, client: Client): State { s.(clients := s.clients[c := client]) }

  /** Another request holds an uncommitted row under one of the same unique keys; the insert has to wait. */
  predicate Blocked(s: State, c: nat, isFinal: bool, attemptNo: nat) {
    exists d :: d in s.clients && d != c && s.clients[d].Flushed?
                && (s.clients[d].attemptNo == attemptNo || (isFinal && s.clients[d].isFinal))
  }

  // --- Steps -------------------------------------------------------------------------

  function SetStage(s: State, j: nat, stage: Stage): State
    requires j < |s.jobs|
  {
    s.(jobs := s.jobs[j := s.jobs[j].(stage := stage)])
  }

  function SetSubmission(s: State, i: nat, row: Submission): State
    requires i < |s.submissions|
  {
    s.(submissions := s.submissions[i := row])
  }

  /** Infrastructure failures give the final slot back. */
  function Release(row: Submission): Submission { row.(isFinal := false) }

  function ClientStep(s: State, ev: Event): (State, Reply)
    requires IsClientEvent(ev)
  {
    var c := ev.client;
    match (ev, ClientOf(s, c))
    case (Check(_, isFinal), Idle) =>
      var final := FinalOf(s.submissions);
      if isFinal && final.Some? then
        (s, if Ungraded(s.submissions[final.value].status) then BeingGraded else Existing(final.value))
      else (Move(s, c, Checked(isFinal)), Silent)
    case (Number(_), Checked(isFinal)) => (Move(s, c, Numbered(isFinal, NextAttempt(s.submissions))), Silent)
    case (Flush(_), Numbered(isFinal, attemptNo)) =>
      if Blocked(s, c, isFinal, attemptNo) then (s, Silent)
      else if Clashes(s.submissions, isFinal, attemptNo) then
        var final := FinalOf(s.submissions);
        (Move(s, c, Idle), if isFinal && final.Some? then Existing(final.value) else Race)
      else (Move(s, c, Flushed(isFinal, attemptNo)), Silent)
    case (Commit(_), Flushed(isFinal, attemptNo)) =>
      (Move(s, c, Idle).(submissions := s.submissions + [Submission(attemptNo, isFinal, Queued)],
                         jobs := s.jobs + [Job(|s.submissions|, Waiting)]),
       Created(|s.submissions|))
    case (Vanish(_), _) => (Move(s, c, Idle), Silent)
    case _ => (s, Silent)
  }

  function CrashPointOf(stage: Stage): CrashPoint {
    match stage
    case Waiting => BeforeStart
    case Executing => WhileExecuting
    case Judged => WhileJudged
    case _ => AfterReturn
  }

  function JobStep(s: State, ev: Event): State
    requires IsJobEvent(ev)
  {
    var j := ev.job;
    if j >= |s.jobs| || s.jobs[j].submission >= |s.submissions| then s else
    var i := s.jobs[j].submission;
    var row := s.submissions[i];
    match (ev, s.jobs[j].stage)
    case (Begin(_, anyTests), Waiting) =>
      if !Ungraded(row.status) then SetStage(s, j, Returned)
      else if !anyTests then SetStage(SetSubmission(s, i, Release(row.(status := Error))), j, Returned)
      else SetStage(SetSubmission(s, i, row.(status := Running)), j, Executing)
    case (Execute(_, outcome), Executing) =>
      if outcome.None? then
        SetStage(SetSubmission(s, i, Release(row.(status := Error))), j, Returned)
      else
        SetStage(SetSubmission(s, i, row.(status := outcome.value)), j, if row.isFinal then Judged else Returned)
    case (Evaluate(_, up), Judged) =>
      if row.status != CompileError && !up then SetStage(SetSubmission(s, i, Release(row)), j, Returned)
      else if i in s.evaluations then SetStage(s, j, Crashed(WhileJudged))
      else SetStage(s, j, Returned).(evaluations := s.evaluations + [i])
    case (Gate(_), Returned) =>
      if row.isFinal && Verdict(row.status) then SetStage(s, j, Done).(advances := s.advances + [i])
      else SetStage(s, j, Done)
    case (Crash(_), stage) =>
      if stage.Done? || stage.Crashed? then s else SetStage(s, j, Crashed(CrashPointOf(stage)))
    case _ => s
  }

  function Step(s: State, ev: Event): State {
    match ev
    case Check(_, _) | Number(_) | Flush(_) | Commit(_) | Vanish(_) => ClientStep(s, ev).0
    case Duplicate(i) => if i < |s.submissions| then s.(jobs := s.jobs + [Job(i, Waiting)]) else s
    case _ => JobStep(s, ev)
  }

  function Run(s: State, events: seq<Event>): State {
    if events == [] then s else Step(Run(s, events[..|events| - 1]), events[|events| - 1])
  }

  const Empty: State := State([], [], [], map[], [])

  /** Each enqueued job runs at most once. */
  predicate NoDuplicates(events: seq<Event>) { forall i :: 0 <= i < |events| ==> !events[i].Duplicate? }

  // --- The invariant ------------------------------------------------------------------

  ghost predicate AttemptsCount(s: State) {
    forall i :: 0 <= i < |s.submissions| ==> s.submissions[i].attemptNo == i + 1
  }

  ghost predicate OneFinal(s: State) {
    forall i, k :: 0 <= i < k < |s.submissions| ==> !(s.submissions[i].isFinal && s.submissions[k].isFinal)
  }

  /** Requests hold numbers that were right when they read them, and an uncommitted row holds the next one. */
  ghost predicate ClientsFit(s: State) {
    && (forall c :: c in s.clients && s.clients[c].Numbered? ==> 1 <= s.clients[c].attemptNo <= |s.submissions| + 1)
    && (forall c :: c in s.clients && s.clients[c].Flushed? ==> s.clients[c].attemptNo == |s.submissions| + 1)
    && (forall c, d :: c in s.clients && d in s.clients && s.clients[c].Flushed? && s.clients[d].Flushed? ==> c == d)
    && (forall c :: c in s.clients && s.clients[c].Flushed? && s.clients[c].isFinal ==>
          forall i :: 0 <= i < |s.submissions| ==> !s.submissions[i].isFinal)
  }

  /** What the stage of its job says about a submission. */
  ghost predicate StageFits(s: State, i: nat)
    requires i < |s.submissions| && i < |s.jobs|
  {
    var row := s.submissions[i];
    var evaluated := i in s.evaluations;
    match s.jobs[i].stage
    case Waiting => row.status == Queued && !evaluated
    case Executing => row.status == Running && !evaluated
    case Judged => row.isFinal && Verdict(row.status) && !evaluated
    case Crashed(BeforeStart) => row.status == Queued && !evaluated
    case Crashed(WhileExecuting) => row.status == Running && !evaluated
    case Crashed(WhileJudged) => row.isFinal && Verdict(row.status) && !evaluated
    case _ => !Ungraded(row.status) && (row.isFinal <==> evaluated) && (evaluated ==> Verdict(row.status))
  }

  ghost predicate JobsFit(s: State) {
    && |s.jobs| == |s.submissions|
    && (forall i: nat :: i < |s.jobs| ==> s.jobs[i].submission == i)
    && (forall i: nat :: i < |s.submissions| ==> StageFits(s, i))
  }

  ghost predicate EvaluationsFit(s: State) {
    && (forall e :: 0 <= e < |s.evaluations| ==> s.evaluations[e] < |s.submissions|)
    && (forall a, b :: 0 <= a < b < |s.evaluations| ==> s.evaluations[a] != s.evaluations[b])
    && (forall i :: i in s.advances ==> i in s.evaluations)
  }

  ghost predicate Inv(s: State) {
    AttemptsCount(s) && OneFinal(s) && ClientsFit(s) && JobsFit(s) && EvaluationsFit(s)
  }

  lemma {:induction false} NextIsCount(submissions: seq<Submission>)
    requires forall i :: 0 <= i < |submissions| ==> submissions[i].attemptNo == i + 1
    ensures NextAttempt(submissions) == |submissions| + 1
  {
    if submissions != [] {
      NextIsCount(submissions[..|submissions| - 1]);
    }
  }

  predicate IsClientEvent(ev: Event) { ev.Check? || ev.Number? || ev.Flush? || ev.Commit? || ev.Vanish? }

  predicate IsJobEvent(ev: Event) { ev.Begin? || ev.Execute? || ev.Evaluate? || ev.Gate? || ev.Crash? }

  /** An insert is let through exactly when its number is the next one and no final row stands in its way;
      a number read before another request committed is refused. */
  lemma {:induction false} StaleNumbersAreRefused(s: State, isFinal: bool, attemptNo: nat)
    requires AttemptsCount(s) && 1 <= attemptNo <= |s.submissions| + 1
    ensures Clashes(s.submissions, isFinal, attemptNo)
            <==> attemptNo != NextAttempt(s.submissions) || (isFinal && FinalOf(s.submissions).Some?)
  {
    NextIsCount(s.submissions);
    if attemptNo <= |s.submissions| {
      assert s.submissions[attemptNo - 1].attemptNo == attemptNo;
    }
  }

  lemma {:induction false} FlushKeepsClients(s: State, c: nat)
    requires AttemptsCount(s) && ClientsFit(s) && ClientOf(s, c).Numbered?
    ensures ClientsFit(ClientStep(s, Flush(c)).0)
  {
    hide FinalOf, NextAttempt;
    var (isFinal, attemptNo) := (ClientOf(s, c).isFinal, ClientOf(s, c).attemptNo);
    StaleNumbersAreRefused(s, isFinal, attemptNo);
    NextIsCount(s.submissions);
    var after := ClientStep(s, Flush(c)).0;
    if ClientOf(after, c).Flushed? {
      forall d | d in s.clients && d != c
        ensures !s.clients[d].Flushed?
      {}
    }
  }

  lemma {:induction false} ClientsStayFit(s: State, ev: Event)
    requires AttemptsCount(s) && ClientsFit(s) && IsClientEvent(ev)
    ensures ClientsFit(ClientStep(s, ev).0)
  {
    hide FinalOf, NextAttempt, Clashes, Blocked;
    NextIsCount(s.submissions);
    if ev.Flush? && ClientOf(s, ev.client).Numbered? {
      FlushKeepsClients(s, ev.client);
    }
  }

  lemma {:induction false} ClientKeepsInvariant(s: State, ev: Event)
    requires Inv(s) && IsClientEvent(ev)
    ensures Inv(ClientStep(s, ev).0)
  {
    hide FinalOf, NextAttempt, Clashes, Blocked;
    ClientsStayFit(s, ev);
    var after := ClientStep(s, ev).0;
    forall i: nat | i < |after.submissions|
      ensures StageFits(after, i)
    {
      if i < |s.submissions| {
        assert StageFits(s, i);
      }
    }
  }

  /** A job touches its own submission only. */
  lemma {:induction false} OtherJobsUntouched(s: State, ev: Event, i: nat)
    requires JobsFit(s) && IsJobEvent(ev) && i < |s.submissions| && i != ev.job
    ensures var after := JobStep(s, ev);
      && |after.submissions| == |after.jobs| == |s.submissions|
      && after.jobs[i] == s.jobs[i] && after.submissions[i] == s.submissions[i]
      && (i in after.evaluations <==> i in s.evaluations)
  {
    hide StageFits;
    if ev.job < |s.jobs| {
      assert s.jobs[ev.job].submission == ev.job;
    }
  }

  lemma {:induction false} OwnStageFits(s: State, ev: Event)
    requires JobsFit(s) && IsJobEvent(ev) && ev.job < |s.submissions|
    ensures var (after, i) := (JobStep(s, ev), ev.job);
      && |after.submissions| == |after.jobs| == |s.submissions|
      && after.jobs[i].submission == i && StageFits(after, i)
      && after.submissions[i].attemptNo == s.submissions[i].attemptNo
      && (after.submissions[i].isFinal ==> s.submissions[i].isFinal)
  {
    assert s.jobs[ev.job].submission == ev.job && StageFits(s, ev.job);
  }

  lemma {:induction false} StagesStayFit(s: State, ev: Event, i: nat)
    requires JobsFit(s) && IsJobEvent(ev) && i < |s.submissions|
    ensures |JobStep(s, ev).submissions| == |JobStep(s, ev).jobs| == |s.submissions|
    ensures JobStep(s, ev).jobs[i].submission == i && StageFits(JobStep(s, ev), i)
    ensures JobStep(s, ev).submissions[i].attemptNo == s.submissions[i].attemptNo
    ensures JobStep(s, ev).submissions[i].isFinal ==> s.submissions[i].isFinal
  {
    assert StageFits(s, i);
    if i == ev.job {
      OwnStageFits(s, ev);
    } else {
      OtherJobsUntouched(s, ev, i);
      hide JobStep;
    }
  }

  lemma {:induction false} EvaluationsStayFit(s: State, ev: Event)
    requires JobsFit(s) && EvaluationsFit(s) && IsJobEvent(ev)
    ensures EvaluationsFit(JobStep(s, ev))
  {
    if ev.job < |s.jobs| {
      assert s.jobs[ev.job].submission == ev.job;
      assert StageFits(s, ev.job);
      StagesStayFit(s, ev, ev.job);
    }
  }

  lemma {:induction false} JobKeepsInvariant(s: State, ev: Event)
    requires Inv(s) && IsJobEvent(ev)
    ensures Inv(JobStep(s, ev))
  {
    EvaluationsStayFit(s, ev);
    JobsTouchNoClient(s, ev);
    hide JobStep, StageFits, EvaluationsFit;
    var after := JobStep(s, ev);
    forall i: nat | i < |s.submissions|
      ensures |after.submissions| == |after.jobs| == |s.submissions|
      ensures after.jobs[i].submission == i && StageFits(after, i)
      ensures after.submissions[i].attemptNo == s.submissions[i].attemptNo
      ensures after.submissions[i].isFinal ==> s.submissions[i].isFinal
    {
      StagesStayFit(s, ev, i);
    }
  }

  lemma {:induction false} JobsTouchNoClient(s: State, ev: Event)
    requires IsJobEvent(ev)
    ensures JobStep(s, ev).clients == s.clients
    ensures |JobStep(s, ev).submissions| == |s.submissions| && |JobStep(s, ev).jobs| == |s.jobs|
  {}

  lemma {:induction false} StepKeepsInvariant(s: State, ev: Event)
    requires Inv(s) && !ev.Duplicate?
    ensures Inv(Step(s, ev))
  {
    hide Inv, ClientStep, JobStep;
    if IsJobEvent(ev) {
      JobKeepsInvariant(s, ev);
    } else {
      ClientKeepsInvariant(s, ev);
    }
  }

  lemma {:induction false} EveryRunKeepsInvariant(s: State, events: seq<Event>)
    requires Inv(s) && NoDuplicates(events)
    ensures Inv(Run(s, events))
  {
    hide Inv, Step;
    if events != [] {
      EveryRunKeepsInvariant(s, events[..|events| - 1]);
      StepKeepsInvariant(Run(s, events[..|events| - 1]), events[|events| - 1]);
    }
  }

  // --- What every run guarantees --------------------------------------------------------------

  /** Attempt numbers are exactly 1..k and at most one submission is final, even if jobs are run twice. */
  ghost predicate KeysHold(s: State) { AttemptsCount(s) && OneFinal(s) && ClientsFit(s) }

  lemma {:induction false} JobsKeepKeys(s: State, ev: Event)
    requires KeysHold(s) && !IsClientEvent(ev)
    ensures KeysHold(Step(s, ev))
  {
    hide FinalOf, NextAttempt, Clashes, Blocked;
    if IsJobEvent(ev) {
      JobsTouchNoClient(s, ev);
    }
  }

  lemma {:induction false} ClientsKeepKeys(s: State, ev: Event)
    requires KeysHold(s) && IsClientEvent(ev)
    ensures KeysHold(Step(s, ev))
  {
    hide FinalOf, NextAttempt, Clashes, Blocked;
    ClientsStayFit(s, ev);
  }

  lemma {:induction false} KeysHoldInEveryRun(s: State, events: seq<Event>)
    requires KeysHold(s)
    ensures KeysHold(Run(s, events))
  {
    hide KeysHold, Step;
    if events != [] {
      var before := Run(s, events[..|events| - 1]);
      KeysHoldInEveryRun(s, events[..|events| - 1]);
      if IsClientEvent(events[|events| - 1]) {
        ClientsKeepKeys(before, events[|events| - 1]);
      } else {
        JobsKeepKeys(before, events[|events| - 1]);
      }
    }
  }

  lemma {:induction false} EvaluatedIsFinal(s: State, i: nat)
    requires JobsFit(s) && EvaluationsFit(s) && i in s.evaluations
    ensures i < |s.submissions| && s.submissions[i].isFinal && Verdict(s.submissions[i].status)
  {
    assert StageFits(s, i);
  }

  /** Each coding question gets at most one coding evaluation, ever. */
  lemma {:induction false} AtMostOneEvaluation(s: State, events: seq<Event>)
    requires Inv(s) && NoDuplicates(events)
    ensures |Run(s, events).evaluations| <= 1
  {
    hide Run, StageFits, ClientsFit;
    EveryRunKeepsInvariant(s, events);
    var after := Run(s, events);
    if |after.evaluations| > 1 {
      EvaluatedIsFinal(after, after.evaluations[0]);
      EvaluatedIsFinal(after, after.evaluations[1]);
    }
  }

  /** Once evaluated, a submission is never released and its evaluation never goes away. */
  lemma {:induction false} EvaluatedForever(s: State, events: seq<Event>, i: nat)
    requires Inv(s) && NoDuplicates(events) && i in s.evaluations
    ensures i in Run(s, events).evaluations
    ensures i < |Run(s, events).submissions| && Run(s, events).submissions[i].isFinal
  {
    hide StageFits, ClientsFit, AttemptsCount, OneFinal;
    if events != [] {
      EvaluatedForever(s, events[..|events| - 1], i);
    }
    EveryRunKeepsInvariant(s, events);
    EvaluatedIsFinal(Run(s, events), i);
  }

  /** The job advances the interview only for a submission that already has its evaluation. */
  lemma {:induction false} AdvancedOnlyAfterEvaluation(s: State, events: seq<Event>, i: nat)
    requires Inv(s) && NoDuplicates(events) && i in Run(s, events).advances
    ensures i in Run(s, events).evaluations
    ensures i < |Run(s, events).submissions| && Run(s, events).submissions[i].isFinal
  {
    hide Run, StageFits, ClientsFit;
    EveryRunKeepsInvariant(s, events);
    EvaluatedIsFinal(Run(s, events), i);
  }

  predicate Settled(s: State) { forall i :: 0 <= i < |s.submissions| ==> !Ungraded(s.submissions[i].status) }

  predicate OwesEvaluation(job: Job) { job.stage == Judged || job.stage == Crashed(WhileJudged) }

  /** With nothing queued or running, "final if and only if evaluated" holds exactly when no job has committed
      an outcome without having decided about its evaluation. */
  lemma {:induction false} FinalMeansEvaluatedExactlyWhen(s: State, events: seq<Event>)
    requires Inv(s) && NoDuplicates(events) && Settled(Run(s, events))
    ensures var after := Run(s, events);
      (forall i: nat :: i < |after.submissions| ==> (after.submissions[i].isFinal <==> i in after.evaluations))
      <==> (forall j :: 0 <= j < |after.jobs| ==> !OwesEvaluation(after.jobs[j]))
  {
    hide Run, ClientsFit;
    EveryRunKeepsInvariant(s, events);
    var after := Run(s, events);
    forall i: nat | i < |after.submissions|
      ensures (after.submissions[i].isFinal <==> i in after.evaluations) <==> !OwesEvaluation(after.jobs[i])
    {
      assert StageFits(after, i);
    }
  }

  // --- What the guarantees need ------------------------------------------------------------------

  lemma {:induction false} Extend(events: seq<Event>, s: State, ev: Event) returns (longer: seq<Event>, next: State)
    requires s == Run(Empty, events)
    ensures longer == events + [ev] && next == Step(s, ev) && next == Run(Empty, longer)
    ensures NoDuplicates(events) && !ev.Duplicate? ==> NoDuplicates(longer)
  {
    longer, next := events + [ev], Step(s, ev);
    assert longer[..|events|] == events;
  }

  /** One client has created a final submission and its job has not started. */
  lemma {:induction false} OneFinalSubmission() returns (events: seq<Event>, s: State)
    ensures NoDuplicates(events) && s == Run(Empty, events)
    ensures s == State([Submission(1, true, Queued)], [], [Job(0, Waiting)], map[0 := Idle], [])
  {
    hide Run, NoDuplicates;
    assert Empty == Run(Empty, []) && NoDuplicates([]) by { NoEvents(); }
    events, s := Extend([], Empty, Check(0, true));
    events, s := Extend(events, s, Number(0));
    events, s := Extend(events, s, Flush(0));
    events, s := Extend(events, s, Commit(0));
  }

  /** "Nothing queued or running" alone is not enough: a job that has committed its outcome, but not yet the
      evaluation, leaves a final submission without one. */
  lemma {:induction false} OutcomeCommittedBeforeEvaluation() returns (events: seq<Event>, s: State)
    ensures NoDuplicates(events) && s == Run(Empty, events) && Settled(s)
    ensures s.submissions == [Submission(1, true, Partial)] && s.evaluations == [] && s.advances == []
    ensures s.jobs == [Job(0, Judged)]
  {
    hide Run, NoDuplicates;
    events, s := OneFinalSubmission();
    events, s := Extend(events, s, Begin(0, true));
    events, s := Extend(events, s, Execute(0, Some(Partial)));
  }

  lemma {:induction false} NoEvents()
    ensures Run(Empty, []) == Empty && NoDuplicates([])
  {}

  /** A second job for the same submission can see that outcome and advance the interview before any
      evaluation exists, which is why each job must run at most once. */
  lemma {:induction false} DuplicateJobAdvancesEarly() returns (events: seq<Event>, s: State)
    ensures s == Run(Empty, events) && s.advances == [0] && s.evaluations == []
  {
    hide Run;
    events, s := OutcomeCommittedBeforeEvaluation();
    events, s := Extend(events, s, Duplicate(0));
    events, s := Extend(events, s, Begin(1, true));
    events, s := Extend(events, s, Gate(1));
  }

  // --- Runs with duplicate jobs ------------------------------------------------------------------

  /** Some job for submission `i` has committed its outcome and still owes its evaluation, or died owing it. */
  ghost predicate Owed(s: State, i: nat) {
    exists j :: 0 <= j < |s.jobs| && s.jobs[j].submission == i && OwesEvaluation(s.jobs[j])
  }

  /** A final verdict without an evaluation is owed one by some job. */
  ghost predicate VerdictsOwed(s: State) {
    forall i: nat :: i < |s.submissions| && s.submissions[i].isFinal && Verdict(s.submissions[i].status) && i !in s.evaluations ==>
      Owed(s, i)
  }

  lemma {:induction false} JobKeepsVerdictsOwed(s: State, ev: Event, i: nat)
    requires IsJobEvent(ev) && VerdictsOwed(s) && i < |s.submissions|
    ensures var after := JobStep(s, ev);
      |after.submissions| == |s.submissions|
      && (after.submissions[i].isFinal && Verdict(after.submissions[i].status) && i !in after.evaluations ==> Owed(after, i))
  {
    var after := JobStep(s, ev);
    JobsTouchNoClient(s, ev);
    if after.submissions[i].isFinal && Verdict(after.submissions[i].status) && i !in after.evaluations {
      if after.submissions[i] == s.submissions[i] && Owed(s, i) {
        var j :| 0 <= j < |s.jobs| && s.jobs[j].submission == i && OwesEvaluation(s.jobs[j]);
        assert after.jobs[j].submission == i && OwesEvaluation(after.jobs[j]);
      } else {
        assert after.jobs[ev.job].submission == i && OwesEvaluation(after.jobs[ev.job]);
      }
    }
  }

  lemma {:induction false} OtherStepsKeepVerdictsOwed(s: State, ev: Event)
    requires !IsJobEvent(ev) && VerdictsOwed(s)
    ensures VerdictsOwed(Step(s, ev))
  {
    hide FinalOf, NextAttempt, Clashes, Blocked;
    var after := Step(s, ev);
    assert s.jobs <= after.jobs && s.submissions <= after.submissions && after.evaluations == s.evaluations;
    forall i: nat | i < |after.submissions| && after.submissions[i].isFinal && Verdict(after.submissions[i].status) && i !in after.evaluations
      ensures Owed(after, i)
    {
      assert i < |s.submissions|;
      var j :| 0 <= j < |s.jobs| && s.jobs[j].submission == i && OwesEvaluation(s.jobs[j]);
      assert after.jobs[j] == s.jobs[j];
    }
  }

  lemma {:induction false} VerdictsAreOwedInEveryRun(events: seq<Event>)
    ensures VerdictsOwed(Run(Empty, events))
  {
    hide JobStep, ClientStep, Owed;
    if events != [] {
      var (before, last) := (Run(Empty, events[..|events| - 1]), events[|events| - 1]);
      VerdictsAreOwedInEveryRun(events[..|events| - 1]);
      if IsJobEvent(last) {
        JobsTouchNoClient(before, last);
        forall i: nat | i < |before.submissions|
          ensures var after := JobStep(before, last);
            after.submissions[i].isFinal && Verdict(after.submissions[i].status) && i !in after.evaluations ==> Owed(after, i)
        {
          JobKeepsVerdictsOwed(before, last, i);
        }
      } else {
        OtherStepsKeepVerdictsOwed(before, last);
      }
    }
  }

  /** Even with duplicate jobs, the gate advances an unevaluated submission only while some other job for it has
      committed the outcome and still owes, or died owing, the evaluation. */
  lemma {:induction false} EarlyAdvanceNeedsOwingJob(events: seq<Event>, j: nat)
    requires var s := Run(Empty, events); j < |s.jobs| && Step(s, Gate(j)).advances != s.advances
    ensures var s := Run(Empty, events); var i := s.jobs[j].submission;
      i in s.evaluations
      || exists k :: 0 <= k < |s.jobs| && k != j && s.jobs[k].submission == i && OwesEvaluation(s.jobs[k])
  {
    hide Run;
    VerdictsAreOwedInEveryRun(events);
    var s := Run(Empty, events);
    var i := s.jobs[j].submission;
    if i !in s.evaluations {
      assert Owed(s, i);
      var k :| 0 <= k < |s.jobs| && s.jobs[k].submission == i && OwesEvaluation(s.jobs[k]);
      assert k != j;
    }
  }

  /** The starting point of a question's submissions. */
  lemma {:induction false} EmptySatisfiesInvariant()
    ensures Inv(Empty) && KeysHold(Empty)
  {}

  lemma {:induction false} EvaluationsGrow(s: State, ev: Event)
    ensures s.evaluations <= Step(s, ev).evaluations
  {}
}
