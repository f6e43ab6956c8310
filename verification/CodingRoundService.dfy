/** One request to create a submission, as it works: it reads, checks and inserts, and other requests may commit
    rows between its reads and its insert. */
module CodingRoundService {
  import opened Submissions

  function Alone(rows: seq<Submission>): State { State(rows, [], [], map[], []) }

  /** The protocol's read steps of client 0. */
  function AfterReads(rows: seq<Submission>, isFinal: bool): (State, Reply) {
    var (checked, reply) := ClientStep(Alone(rows), Check(0, isFinal));
    (ClientStep(checked, Number(0)).0, reply)
  }

  /** The protocol's write steps of client 0, against the rows committed by then. */
  function AfterWrites(s: State, rows: seq<Submission>): (State, Reply) {
    var (flushed, reply) := ClientStep(s.(submissions := rows), Flush(0));
    if ClientOf(flushed, 0).Flushed? then ClientStep(flushed, Commit(0)) else (flushed, reply)
  }

  /** The rows one request leaves, and its answer. */
  function Requested(rows: seq<Submission>, isFinal: bool, meanwhile: seq<Submission>): (seq<Submission>, Reply) {
    var (s, early) := AfterReads(rows, isFinal);
    if ClientOf(s, 0).Idle? then (rows, early)
    else
      var (after, reply) := AfterWrites(s, meanwhile);
      (after.submissions, reply)
  }

  ghost predicate HasFinal(rows: seq<Submission>) { exists i :: 0 <= i < |rows| && rows[i].isFinal }

  /** Number `n` is the next one after these rows. */
  ghost predicate IsNext(rows: seq<Submission>, n: nat) {
    && (forall i :: 0 <= i < |rows| ==> rows[i].attemptNo < n)
    && (n == 1 || exists i :: 0 <= i < |rows| && rows[i].attemptNo + 1 == n)
  }

  lemma {:induction false} NextIsNext(rows: seq<Submission>)
    ensures IsNext(rows, NextAttempt(rows))
  {
    if rows != [] {
      NextIsNext(rows[..|rows| - 1]);
      assert forall i :: 0 <= i < |rows| - 1 ==> rows[..|rows| - 1][i] == rows[i];
    }
  }

  /** A final request finds the final submission there is, still being graded or done; one that lost the race for the final
      slot finds the winner, one that lost only its number is told so, and every other request adds a queued row with the
      number after those it read. */
  lemma {:induction false} RequestIsAnswered(rows: seq<Submission>, isFinal: bool, meanwhile: seq<Submission>) returns (n: nat)
    ensures IsNext(rows, n)
    ensures var (after, reply) := Requested(rows, isFinal, meanwhile);
      if isFinal && HasFinal(rows) then
        && after == rows && (reply == BeingGraded || (reply.Existing? && reply.submission < |rows|))
        && (reply == BeingGraded ==> exists i :: 0 <= i < |rows| && rows[i].isFinal && rows[i].status in {Queued, Running})
        && (reply.Existing? ==> rows[reply.submission].isFinal && rows[reply.submission].status !in {Queued, Running})
      else if isFinal && HasFinal(meanwhile) then
        after == meanwhile && reply.Existing? && reply.submission < |meanwhile| && meanwhile[reply.submission].isFinal
      else if exists i :: 0 <= i < |meanwhile| && meanwhile[i].attemptNo == n then
        after == meanwhile && reply == Race
      else
        after == meanwhile + [Submission(n, isFinal, Queued)] && reply == Created(|meanwhile|)
  {
    hide NextAttempt, IsNext;
    n := NextAttempt(rows);
    NextIsNext(rows);
    var s := AfterReads(rows, isFinal).0;
    assert !Blocked(s.(submissions := meanwhile), 0, isFinal, n);
  }

  class CodeSubmissions {
    var rows: seq<Submission>
    var enqueued: seq<nat>

    constructor ()
      ensures rows == [] && enqueued == []
    {
      rows, enqueued := [], [];
    }

    /** `meanwhile` are the rows at the moment of the insert. The request answers from its reads, or does what the
        protocol's write steps do and enqueues one job for a row it created. */
    method CreateSubmission(isFinal: bool, meanwhile: seq<Submission>) returns (reply: Reply)
      modifies this
      ensures (rows, reply) == Requested(old(rows), isFinal, meanwhile)
      ensures enqueued == old(enqueued) + (if reply.Created? then [reply.submission] else [])
    {
      hide FinalOf, NextAttempt;
      if isFinal {
        var final := FinalOf(rows);
        if final.Some? {
          if Ungraded(rows[final.value].status) {
            return BeingGraded;
          }
          return Existing(final.value);
        }
      }
      var attemptNo := NextAttempt(rows);
      rows := meanwhile;
      if Clashes(rows, isFinal, attemptNo) {
        if isFinal {
          var final := FinalOf(rows);
          if final.Some? {
            return Existing(final.value);
          }
        }
        return Race;
      }
      rows := rows + [Submission(attemptNo, isFinal, Queued)];
      enqueued := enqueued + [|rows| - 1];
      return Created(|rows| - 1);
    }
  }
}
