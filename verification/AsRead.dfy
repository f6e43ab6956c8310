/** Runs as the requests really read: the second read of the session row returns the copy that the request's own
    first read left in its database session. */
module AsRead {
  import opened Domain
  import opened TurnGraph
  import opened Execution
  import opened Invariant
  import opened Runs
  import opened Interleavings
  import opened StaleReads

  /** The same call with committed reads. */
  function Refreshed(ev: Event): (r: Event)
    ensures Fresh(r)
  {
    match ev
    case FinishEvent(q, _, env) => FinishEvent(q, None, env)
    case CodingDoneEvent(q, _, env) => CodingDoneEvent(q, None, env)
    case _ => ev
  }

  function AllRefreshed(events: seq<Event>): (r: seq<Event>)
    ensures |r| == |events| && AllFresh(r) && forall i :: 0 <= i < |events| ==> r[i] == Refreshed(events[i])
  {
    seq(|events|, i requires 0 <= i < |events| => Refreshed(events[i]))
  }

  /** Nobody abandons the interview or completes the coding round of question `q`. */
  predicate LeavesAlone(events: seq<Event>, q: nat) {
    forall k :: 0 <= k < |events| ==> !events[k].AbandonEvent? && !(events[k].CodingDoneEvent? && events[k].question == q)
  }

  /** Call `j` was phase one of a submission to `q`: it let the request through, `view` is the session row it read,
      and until the end of `events` nobody else closes the question except by answering it. */
  ghost predicate PhaseOne(plan: Db, events: seq<Event>, j: nat, q: nat, view: Session)
    requires j < |events|
  {
    var before := Run(plan, events[..j]);
    && events[j].SaveEvent? && events[j].question == q
    && Apply(before, events[j]).1.AnswerStored?
    && view == before.session
    && LeavesAlone(events[j..], q)
  }

  /** The second read of call `i` is committed, or is what the request's own phase one read. */
  ghost predicate ReadsItsOwn(plan: Db, events: seq<Event>, i: nat)
    requires i < |events|
  {
    && (events[i].CodingDoneEvent? ==> events[i].read.None?)
    && (events[i].FinishEvent? && events[i].reread.Some? ==>
          exists j: nat :: j < i && PhaseOne(plan, events[..i], j, events[i].question, events[i].reread.value))
  }

  ghost predicate AllReadTheirOwn(plan: Db, events: seq<Event>) {
    forall i: nat :: i < |events| ==> ReadsItsOwn(plan, events, i)
  }

  // --- What can happen between the phases --------------------------------------------------------

  /** If nobody abandons the interview or completes the coding round, an open question stays open until its own answer
      is evaluated. */
  lemma {:induction false} OpenUntilEvaluated(before: Db, events: seq<Event>, q: nat)
    requires Unique(before) && AllFresh(events) && LeavesAlone(events, q)
    requires before.session.status == InProgress && before.session.currentQuestion == Some(q)
    ensures var now := Run(before, events);
      (now.session.status == InProgress && now.session.currentQuestion == Some(q)) || Evaluated(now, q)
  {
    hide Apply, Unique, Grows, Evaluated;
    if events != [] {
      var (init, last) := (events[..|events| - 1], events[|events| - 1]);
      var middle := Run(before, init);
      OpenUntilEvaluated(before, init, q);
      RunIsSafe(before, init);
      StepIsSafe(middle, last);
      if Evaluated(middle, q) {
        StaysEvaluated(middle, Run(before, events), q);
      } else {
        OneCallLeavesOpen(middle, last, q);
      }
    }
  }

  lemma {:induction false} OneCallLeavesOpen(db: Db, ev: Event, q: nat)
    requires Unique(db) && Fresh(ev) && !ev.AbandonEvent? && !(ev.CodingDoneEvent? && ev.question == q)
    requires db.session.status == InProgress && db.session.currentQuestion == Some(q)
    ensures var after := Apply(db, ev).0;
      (after.session.status == InProgress && after.session.currentQuestion == Some(q)) || Evaluated(after, q)
  {
    hide FinishTurn, CompleteCodingRound, Unique, Evaluated;
    if ev.FinishEvent? && Committed(Apply(db, ev).1) {
      TurnEvaluates(db, ev);
    }
  }

  /** A request that phase one let through finds its answer row in phase two. */
  lemma {:induction false} AnswerIsThere(before: Db, events: seq<Event>, q: nat)
    requires Unique(before) && events != [] && events[0].SaveEvent? && events[0].question == q
    requires Apply(before, events[0]).1.AnswerStored?
    ensures AnswerOf(Run(before, events).answers, q).Some?
    ensures before.session.status == InProgress && before.session.currentQuestion == Some(q)
  {
    hide Apply, Unique, Grows;
    var saved := Apply(before, events[0]).0;
    SavedAnswer(before, events[0]);
    StepIsSafe(before, events[0]);
    assert events == [] + [events[0]] + events[1..] && [] + [events[0]] == [events[0]];
    RunThen(before, [], events[0]);
    NoEvents(before);
    RunConcat(before, [events[0]], events[1..]);
    FirstAnswerStays(saved, events[1..], q);
  }

  lemma {:induction false} SavedAnswer(db: Db, ev: Event)
    requires ev.SaveEvent? && Apply(db, ev).1.AnswerStored?
    ensures AnswerOf(Apply(db, ev).0.answers, ev.question).Some?
    ensures db.session.status == InProgress && db.session.currentQuestion == Some(ev.question)
  {}

  lemma {:induction false} OwnReadIsHarmless(before: Db, events: seq<Event>, q: nat, env: Env)
    requires Inv(before) && AllFresh(events) && LeavesAlone(events, q)
    requires events != [] && events[0].SaveEvent? && events[0].question == q && Apply(before, events[0]).1.AnswerStored?
    ensures var now := Run(before, events);
      FinishTurn(now, before.session, q, env).0 == FinishTurn(now, now.session, q, env).0
  {
    hide FinishTurn, Inv, Apply, Run, Unique, Evaluated;
    InvImpliesUnique(before);
    AnswerIsThere(before, events, q);
    OpenUntilEvaluated(before, events, q);
    StaleRereadIsHarmlessExactlyWhen(before, events, q);
  }

  // --- Whole runs ------------------------------------------------------------------------------------

  /** With every request reading what it really reads, the rows are those of the same calls with committed reads, as
      long as nobody abandons the interview or completes a coding round between the two phases of an answer to it. */
  lemma {:induction false} OwnReadsChangeNothing(plan: Db, events: seq<Event>)
    requires NewPlan(plan) && AllReadTheirOwn(plan, events)
    ensures Run(plan, events) == Run(plan, AllRefreshed(events)) && Inv(Run(plan, events))
    decreases |events|, 0
  {
    hide Apply, Inv, NewPlan, PhaseOne, LeavesAlone;
    var calm := AllRefreshed(events);
    NewPlanSatisfiesInvariant(plan);
    EveryRunKeepsInvariant(plan, calm);
    if events != [] {
      var n := |events| - 1;
      PrefixReadsItsOwn(plan, events, n);
      OwnReadsChangeNothing(plan, events[..n]);
      assert calm[..n] == AllRefreshed(events[..n]);
      assert ReadsItsOwn(plan, events, n);
      if events[n].FinishEvent? && events[n].reread.Some? {
        var j: nat :| j < n && PhaseOne(plan, events[..n], j, events[n].question, events[n].reread.value);
        LateCallAgrees(plan, events[..n], j, events[n]);
      } else {
        assert calm[n] == events[n];
      }
    }
  }

  lemma {:induction false} PrefixReadsItsOwn(plan: Db, events: seq<Event>, n: nat)
    requires AllReadTheirOwn(plan, events) && n <= |events|
    ensures AllReadTheirOwn(plan, events[..n])
  {
    hide PhaseOne;
    forall i: nat | i < n
      ensures ReadsItsOwn(plan, events[..n], i)
    {
      assert ReadsItsOwn(plan, events, i) && events[..n][..i] == events[..i] && events[..n][i] == events[i];
    }
  }

  /** The same call with its own old read and with a committed one, after a run that agrees with its calm version. */
  lemma {:induction false} LateCallAgrees(plan: Db, events: seq<Event>, j: nat, ev: Event)
    requires NewPlan(plan) && AllReadTheirOwn(plan, events) && j < |events|
    requires ev.FinishEvent? && ev.reread.Some? && PhaseOne(plan, events, j, ev.question, ev.reread.value)
    ensures Apply(Run(plan, events), ev).0 == Apply(Run(plan, events), Refreshed(ev)).0
    decreases |events|, 1
  {
    hide FinishTurn, Inv, NewPlan, ReadsItsOwn, LeavesAlone, Run;
    PrefixReadsItsOwn(plan, events, j);
    OwnReadsChangeNothing(plan, events[..j]);
    OwnReadsChangeNothing(plan, events);
    var calm := AllRefreshed(events);
    var before := Run(plan, events[..j]);
    assert calm[..j] == AllRefreshed(events[..j]) && calm == calm[..j] + calm[j..];
    RunConcat(plan, calm[..j], calm[j..]);
    StillLeftAlone(events, j, ev.question);
    OwnReadIsHarmless(before, calm[j..], ev.question, ev.env);
  }

  lemma {:induction false} StillLeftAlone(events: seq<Event>, j: nat, q: nat)
    requires j < |events| && LeavesAlone(events[j..], q)
    ensures LeavesAlone(AllRefreshed(events)[j..], q)
  {
    forall k | 0 <= k < |events| - j
      ensures !AllRefreshed(events)[j..][k].AbandonEvent?
      ensures !(AllRefreshed(events)[j..][k].CodingDoneEvent? && AllRefreshed(events)[j..][k].question == q)
    {
      assert !events[j..][k].AbandonEvent?;
    }
  }
}
