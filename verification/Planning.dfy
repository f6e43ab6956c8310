/** The plan of an interview: the template's rounds are copied, sorted, into interview rounds and a snapshot,
    and the execution context is later rebuilt from those two alone. */
module Planning {
  import opened Domain
  import opened Lookup

  datatype TemplateRound = TemplateRound(id: nat, roundType: RoundType, sequenceNo: int, weight: real,
                                         isRequired: bool, difficultyOverride: Option<DifficultyLevel>)

  datatype InterviewRound = InterviewRound(templateRoundId: nat, roundType: RoundType, sequenceNo: int, weight: real,
                                           plannedDifficulty: DifficultyLevel)

  datatype SnapshotRound = SnapshotRound(roundType: RoundType, sequenceNo: int, weight: real,
                                         plannedDifficulty: DifficultyLevel, isRequired: bool)

  datatype Interview = Interview(template: nat, startingDifficulty: DifficultyLevel,
                                 rounds: seq<InterviewRound>, snapshot: seq<SnapshotRound>)

  datatype RoundExecutionPlan = RoundExecutionPlan(roundType: RoundType, sequenceNo: int, weight: real,
                                                   plannedDifficulty: DifficultyLevel, isRequired: bool)

  // --- Sorting by a key -------------------------------------------------------------------

  function Insert<T>(key: T -> int, x: T, s: seq<T>): seq<T> {
    if s == [] || key(s[|s| - 1]) <= key(x) then s + [x]
    else Insert(key, x, s[..|s| - 1]) + [s[|s| - 1]]
  }

  /** A stable sort. */
  function Sorted<T>(key: T -> int, s: seq<T>): seq<T> {
    if s == [] then [] else Insert(key, s[|s| - 1], Sorted(key, s[..|s| - 1]))
  }

  ghost predicate Ascending<T>(key: T -> int, s: seq<T>) {
    forall i, k :: 0 <= i < k < |s| ==> key(s[i]) <= key(s[k])
  }

  ghost predicate DistinctBy<T>(key: T -> int, s: seq<T>) {
    forall i, k :: 0 <= i < k < |s| ==> key(s[i]) != key(s[k])
  }

  lemma {:induction false} SplitLast<T>(s: seq<T>)
    requires s != []
    ensures multiset(s) == multiset(s[..|s| - 1]) + multiset{s[|s| - 1]}
  {
    assert s == s[..|s| - 1] + [s[|s| - 1]];
  }

  lemma {:induction false} Cancel<T>(a: multiset<T>, b: multiset<T>, x: T)
    requires a + multiset{x} == b + multiset{x}
    ensures a == b
  {
    assert a == (a + multiset{x}) - multiset{x};
    assert b == (b + multiset{x}) - multiset{x};
  }

  lemma {:induction false} SameMembers<T>(s: seq<T>, t: seq<T>)
    requires multiset(s) == multiset(t)
    ensures forall x :: x in s <==> x in t
  {
    assert forall x :: x in s <==> x in multiset(s);
    assert forall x :: x in t <==> x in multiset(t);
  }

  lemma {:induction false} MemberOf<T>(s: seq<T>, t: seq<T>, i: nat)
    requires i < |s| && multiset(s) == multiset(t)
    ensures s[i] in t
  {
    assert s[i] in multiset(s);
  }

  lemma {:induction false} LastIsGreatest<T>(key: T -> int, s: seq<T>, x: T)
    requires Ascending(key, s) && x in s
    ensures key(x) <= key(s[|s| - 1])
  {}

  lemma {:induction false} InsertMembers<T>(key: T -> int, x: T, s: seq<T>)
    ensures multiset(Insert(key, x, s)) == multiset(s) + multiset{x}
  {
    if s != [] && key(s[|s| - 1]) > key(x) {
      InsertMembers(key, x, s[..|s| - 1]);
      SplitLast(s);
    }
  }

  lemma {:induction false} InsertFits<T>(key: T -> int, x: T, s: seq<T>)
    requires Ascending(key, s)
    ensures Ascending(key, Insert(key, x, s))
  {
    if s != [] && key(s[|s| - 1]) > key(x) {
      var (init, last) := (s[..|s| - 1], s[|s| - 1]);
      InsertFits(key, x, init);
      InsertMembers(key, x, init);
      var inserted := Insert(key, x, init);
      assert multiset(init + [x]) == multiset(init) + multiset{x};
      forall i | 0 <= i < |inserted|
        ensures key(inserted[i]) <= key(last)
      {
        MemberOf(inserted, init + [x], i);
      }
    }
  }

  lemma {:induction false} SortedFits<T>(key: T -> int, s: seq<T>)
    ensures Ascending(key, Sorted(key, s)) && multiset(Sorted(key, s)) == multiset(s)
  {
    if s != [] {
      SortedFits(key, s[..|s| - 1]);
      InsertFits(key, s[|s| - 1], Sorted(key, s[..|s| - 1]));
      InsertMembers(key, s[|s| - 1], Sorted(key, s[..|s| - 1]));
      SplitLast(s);
    }
  }

  /** With distinct keys there is only one ascending order. */
  lemma {:induction false} AscendingIsUnique<T>(key: T -> int, s: seq<T>, t: seq<T>)
    requires Ascending(key, s) && Ascending(key, t) && DistinctBy(key, s) && multiset(s) == multiset(t)
    ensures s == t
  {
    assert |multiset(s)| == |multiset(t)|;
    if s != [] {
      LastsAgree(key, s, t);
      SplitLast(s);
      SplitLast(t);
      Cancel(multiset(s[..|s| - 1]), multiset(t[..|t| - 1]), s[|s| - 1]);
      AscendingIsUnique(key, s[..|s| - 1], t[..|t| - 1]);
      assert s == s[..|s| - 1] + [s[|s| - 1]] && t == t[..|t| - 1] + [t[|t| - 1]];
    }
  }

  lemma {:induction false} LastsAgree<T>(key: T -> int, s: seq<T>, t: seq<T>)
    requires s != [] && t != [] && multiset(s) == multiset(t)
    requires Ascending(key, s) && Ascending(key, t) && DistinctBy(key, s)
    ensures s[|s| - 1] == t[|t| - 1]
  {
    SameMembers(s, t);
    var (a, b) := (s[|s| - 1], t[|t| - 1]);
    assert a in s && b in t;
    LastIsGreatest(key, s, b);
    LastIsGreatest(key, t, a);
  }

  lemma {:induction false} DistinctPermuted<T>(key: T -> int, s: seq<T>, t: seq<T>)
    requires DistinctBy(key, s) && multiset(s) == multiset(t)
    ensures DistinctBy(key, t)
  {
    forall i, k | 0 <= i < k < |t|
      ensures key(t[i]) != key(t[k])
    {
      if key(t[i]) == key(t[k]) {
        TwiceInMultiset(t, i, k);
        assert t[i] in multiset(s) && t[k] in multiset(s);
        var a :| 0 <= a < |s| && s[a] == t[i];
        var b :| 0 <= b < |s| && s[b] == t[k];
        assert a == b;
        OnceInMultiset(key, s, a);
      }
    }
  }

  lemma {:induction false} TwiceInMultiset<T>(t: seq<T>, i: nat, k: nat)
    requires i < k < |t|
    ensures t[i] == t[k] ==> multiset(t)[t[i]] >= 2
  {
    assert t == t[..k] + [t[k]] + t[k + 1..];
    assert t[i] == t[..k][i];
  }

  lemma {:induction false} OnceInMultiset<T>(key: T -> int, s: seq<T>, a: nat)
    requires a < |s| && DistinctBy(key, s)
    ensures multiset(s)[s[a]] == 1
  {
    assert s == s[..a] + [s[a]] + s[a + 1..];
    assert s[a] !in s[..a] && s[a] !in s[a + 1..];
  }

  function MapSeq<S, T>(f: S -> T, s: seq<S>): (r: seq<T>)
    ensures |r| == |s| && forall i :: 0 <= i < |s| ==> r[i] == f(s[i])
  {
    seq(|s|, i requires 0 <= i < |s| => f(s[i]))
  }

  // --- Planning -----------------------------------------------------------------------------

  function TemplateKey(r: TemplateRound): int { r.sequenceNo }

  function RoundKey(r: InterviewRound): int { r.sequenceNo }

  function SnapshotKey(r: SnapshotRound): int { r.sequenceNo }

  function Planned(r: TemplateRound, starting: DifficultyLevel): DifficultyLevel {
    if r.difficultyOverride.Some? then r.difficultyOverride.value else starting
  }

  function RoundOf(starting: DifficultyLevel): TemplateRound -> InterviewRound {
    (r: TemplateRound) => InterviewRound(r.id, r.roundType, r.sequenceNo, r.weight, Planned(r, starting))
  }

  function SnapshotOf(starting: DifficultyLevel): TemplateRound -> SnapshotRound {
    (r: TemplateRound) => SnapshotRound(r.roundType, r.sequenceNo, r.weight, Planned(r, starting), r.isRequired)
  }

  function PlanOf(template: nat, rounds: seq<TemplateRound>, starting: DifficultyLevel): Interview {
    var ordered := Sorted(TemplateKey, rounds);
    Interview(template, starting, MapSeq(RoundOf(starting), ordered), MapSeq(SnapshotOf(starting), ordered))
  }

  /** The plan copies template round after template round, in the row and in the snapshot alike; a round's difficulty is
      its own override when it has one and the starting difficulty otherwise. */
  ghost predicate PlansEach(plan: Interview, template: nat, ordered: seq<TemplateRound>, starting: DifficultyLevel) {
    && plan.template == template && plan.startingDifficulty == starting
    && |plan.rounds| == |plan.snapshot| == |ordered|
    && (forall i :: 0 <= i < |ordered| ==>
          && plan.rounds[i].templateRoundId == ordered[i].id
          && plan.rounds[i].roundType == plan.snapshot[i].roundType == ordered[i].roundType
          && plan.rounds[i].sequenceNo == plan.snapshot[i].sequenceNo == ordered[i].sequenceNo
          && plan.rounds[i].weight == plan.snapshot[i].weight == ordered[i].weight
          && plan.rounds[i].plannedDifficulty == plan.snapshot[i].plannedDifficulty
             == (match ordered[i].difficultyOverride case Some(own) => own case None => starting)
          && plan.snapshot[i].isRequired == ordered[i].isRequired)
  }

  datatype PlanError = TemplateEmpty

  /** Appends one round after the other; a template without rounds cannot be planned. */
  method CreatePlan(template: nat, rounds: seq<TemplateRound>, starting: DifficultyLevel)
    returns (result: Result<Interview, PlanError>)
    ensures result == if rounds == [] then Failure(TemplateEmpty) else Success(PlanOf(template, rounds, starting))
    ensures result.Success? ==> PlansEach(result.value, template, Sorted(TemplateKey, rounds), starting)
  {
    if rounds == [] {
      return Failure(TemplateEmpty);
    }
    var ordered := Sorted(TemplateKey, rounds);
    assert PlansEach(PlanOf(template, rounds, starting), template, ordered, starting);
    var interview := Interview(template, starting, [], MapSeq(SnapshotOf(starting), ordered));
    for i := 0 to |ordered|
      invariant interview == Interview(template, starting, MapSeq(RoundOf(starting), ordered[..i]), MapSeq(SnapshotOf(starting), ordered))
    {
      var r := ordered[i];
      interview := interview.(rounds := interview.rounds
        + [InterviewRound(r.id, r.roundType, r.sequenceNo, r.weight,
                          if r.difficultyOverride.Some? then r.difficultyOverride.value else starting)]);
      assert MapSeq(RoundOf(starting), ordered[..i + 1]) == MapSeq(RoundOf(starting), ordered[..i]) + [RoundOf(starting)(r)];
    }
    assert ordered[..|ordered|] == ordered;
    return Success(interview);
  }

  // --- The execution context ------------------------------------------------------------------

  function ContextRound(snapshot: seq<SnapshotRound>): InterviewRound -> RoundExecutionPlan {
    (r: InterviewRound) =>
      var s := LastBy(SnapshotKey, snapshot, r.sequenceNo);
      RoundExecutionPlan(r.roundType, r.sequenceNo, r.weight, r.plannedDifficulty, if s.Some? then s.value.isRequired else true)
  }

  /** `loaded` are the interview's rounds in whatever order the database returned them. */
  function BuildExecutionContext(loaded: seq<InterviewRound>, snapshot: seq<SnapshotRound>): seq<RoundExecutionPlan> {
    MapSeq(ContextRound(snapshot), Sorted(RoundKey, loaded))
  }

  /** Whatever rows come back, the context lists each round once, in ascending order, with its own columns; it is required
      unless the snapshot's last entry for its sequence number says otherwise. */
  lemma {:induction false} ContextOfAnyRows(loaded: seq<InterviewRound>, snapshot: seq<SnapshotRound>, i: nat) returns (r: InterviewRound)
    requires i < |loaded|
    ensures |BuildExecutionContext(loaded, snapshot)| == |loaded| && r in loaded
    ensures i > 0 ==> BuildExecutionContext(loaded, snapshot)[i - 1].sequenceNo <= r.sequenceNo
    ensures var plan := BuildExecutionContext(loaded, snapshot)[i];
      && plan.roundType == r.roundType && plan.sequenceNo == r.sequenceNo && plan.weight == r.weight
      && plan.plannedDifficulty == r.plannedDifficulty
      && (!plan.isRequired <==>
            exists k :: 0 <= k < |snapshot| && snapshot[k].sequenceNo == r.sequenceNo && !snapshot[k].isRequired
                        && forall l :: k < l < |snapshot| ==> snapshot[l].sequenceNo != r.sequenceNo)
  {
    hide Sorted;
    SortedFits(RoundKey, loaded);
    var ordered := Sorted(RoundKey, loaded);
    assert |multiset(ordered)| == |multiset(loaded)|;
    MemberOf(ordered, loaded, i);
    r := ordered[i];
    LastByIsLast(SnapshotKey, snapshot, r.sequenceNo);
  }

  /** The context lists the template's rounds in ascending order, each with its type, weight and required flag, and
      with its own difficulty override when it has one and the starting difficulty otherwise. */
  ghost predicate Recovers(context: seq<RoundExecutionPlan>, rounds: seq<TemplateRound>, starting: DifficultyLevel) {
    && |context| == |rounds|
    && (forall i, k :: 0 <= i < k < |context| ==> context[i].sequenceNo < context[k].sequenceNo)
    && (forall r :: r in rounds ==> exists i :: 0 <= i < |context| && Shows(context[i], r, starting))
  }

  ghost predicate Shows(plan: RoundExecutionPlan, r: TemplateRound, starting: DifficultyLevel) {
    && plan.roundType == r.roundType && plan.sequenceNo == r.sequenceNo && plan.weight == r.weight
    && plan.isRequired == r.isRequired
    && plan.plannedDifficulty == (match r.difficultyOverride case Some(own) => own case None => starting)
  }

  /** Planning and then building the context recovers the template's rounds, in whatever order the rows come back. */
  lemma {:induction false} ContextRecoversPlan(template: nat, rounds: seq<TemplateRound>, starting: DifficultyLevel,
                                               loaded: seq<InterviewRound>)
    requires forall i, k :: 0 <= i < k < |rounds| ==> rounds[i].sequenceNo != rounds[k].sequenceNo
    requires multiset(loaded) == multiset(PlanOf(template, rounds, starting).rounds)
    ensures Recovers(BuildExecutionContext(loaded, PlanOf(template, rounds, starting).snapshot), rounds, starting)
  {
    hide Sorted, Insert, LastBy;
    var ordered := Sorted(TemplateKey, rounds);
    var plan := PlanOf(template, rounds, starting);
    var context := BuildExecutionContext(loaded, plan.snapshot);
    assert DistinctBy(TemplateKey, rounds);
    SortedFits(TemplateKey, rounds);
    DistinctPermuted(TemplateKey, rounds, ordered);
    SortedFits(RoundKey, loaded);
    assert Ascending(RoundKey, plan.rounds) && DistinctBy(RoundKey, plan.rounds);
    AscendingIsUnique(RoundKey, plan.rounds, Sorted(RoundKey, loaded));
    forall i | 0 <= i < |ordered|
      ensures Shows(context[i], ordered[i], starting)
    {
      FoundByKey(SnapshotKey, plan.snapshot, i);
    }
    assert |multiset(ordered)| == |multiset(rounds)|;
    forall i, k | 0 <= i < k < |context|
      ensures context[i].sequenceNo < context[k].sequenceNo
    {
      assert TemplateKey(ordered[i]) <= TemplateKey(ordered[k]) && TemplateKey(ordered[i]) != TemplateKey(ordered[k]);
    }
    forall r | r in rounds
      ensures exists i :: 0 <= i < |context| && Shows(context[i], r, starting)
    {
      var k :| 0 <= k < |rounds| && rounds[k] == r;
      MemberOf(rounds, ordered, k);
      var i :| 0 <= i < |ordered| && ordered[i] == r;
      assert Shows(context[i], r, starting);
    }
  }
}
