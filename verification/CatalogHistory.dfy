/** Every history of planning and re-seeding: what was planned stays what it was, and the rows it came from stay. */
module CatalogHistory {
  import opened Domain
  import opened Planning
  import opened Catalog

  datatype State = State(templates: map<nat, Rounds>, interviews: seq<Interview>, nextId: nat)

  /** `listed` are a template's rows in the order they were loaded. */
  datatype Event =
    | Plan(template: nat, listed: seq<TemplateRound>, starting: DifficultyLevel)
    | Seed(template: nat, seeds: seq<RoundSeed>)

  function TemplateOf(s: State, t: nat): Rounds { if t in s.templates then s.templates[t] else map[] }

  ghost predicate Lists(listed: seq<TemplateRound>, rows: Rounds) {
    && (forall i :: 0 <= i < |listed| ==> listed[i].sequenceNo in rows && rows[listed[i].sequenceNo] == listed[i])
    && (forall k :: k in rows ==> rows[k] in listed)
    && DistinctBy(TemplateKey, listed)
  }

  function Referenced(interviews: seq<Interview>): set<nat> {
    set i, k | 0 <= i < |interviews| && 0 <= k < |interviews[i].rounds| :: interviews[i].rounds[k].templateRoundId
  }

  /** One committed transaction; a seeding whose new rows clash commits nothing. */
  ghost predicate Next(s: State, ev: Event, s': State) {
    match ev
    case Plan(t, listed, starting) =>
      && t in s.templates && Lists(listed, s.templates[t]) && listed != []
      && s' == s.(interviews := s.interviews + [PlanOf(t, listed, starting)])
    case Seed(t, seeds) =>
      if InsertsTwice(TemplateOf(s, t), seeds) then s' == s
      else
        && t in s'.templates && s'.templates == s.templates[t := s'.templates[t]]
        && Upserts(TemplateOf(s, t), seeds, Referenced(s.interviews), s.nextId, s'.templates[t])
        && IdsBelow(s'.templates[t], s'.nextId) && s.nextId <= s'.nextId
        && s'.interviews == s.interviews
  }

  ghost predicate History(states: seq<State>, events: seq<Event>) {
    && |states| == |events| + 1 && states[0] == State(map[], [], 0)
    && (forall i :: 0 <= i < |events| ==> Next(states[i], events[i], states[i + 1]))
  }

  // --- The invariant -------------------------------------------------------------------------

  ghost predicate TableFits(rows: Rounds, nextId: nat) { KeysFit(rows) && IdsUnique(rows) && IdsBelow(rows, nextId) }

  /** No row id is used by two templates. */
  ghost predicate NoSharedId(a: Rounds, b: Rounds) { forall k, l :: k in a && l in b ==> a[k].id != b[l].id }

  ghost predicate TemplatesFit(s: State) {
    && (forall t :: t in s.templates ==> TableFits(s.templates[t], s.nextId))
    && (forall t, u :: t in s.templates && u in s.templates && t != u ==> NoSharedId(s.templates[t], s.templates[u]))
  }

  /** The round still has the template row it was planned from, under the same key. */
  ghost predicate RowStands(s: State, t: nat, r: InterviewRound) {
    t in s.templates && r.sequenceNo in s.templates[t] && s.templates[t][r.sequenceNo].id == r.templateRoundId
  }

  ghost predicate ReferencesStand(s: State) {
    forall i, k :: 0 <= i < |s.interviews| && 0 <= k < |s.interviews[i].rounds| ==>
      RowStands(s, s.interviews[i].template, s.interviews[i].rounds[k])
  }

  lemma {:induction false} IdsOldOrNew(before: Rounds, seeds: seq<RoundSeed>, referenced: set<nat>, nextId: nat, after: Rounds)
    requires Upserts(before, seeds, referenced, nextId, after)
    ensures forall k :: k in after ==> (k in before && after[k].id == before[k].id) || after[k].id >= nextId
  {}

  /** New ids are above every id of another template, old ones were not shared. */
  lemma {:induction false} StillNoSharedId(before: Rounds, after: Rounds, other: Rounds, nextId: nat)
    requires NoSharedId(before, other) && IdsBelow(other, nextId)
    requires forall k :: k in after ==> (k in before && after[k].id == before[k].id) || after[k].id >= nextId
    ensures NoSharedId(after, other) && NoSharedId(other, after)
  {}

  lemma {:induction false} SeededTableFits(before: Rounds, seeds: seq<RoundSeed>, referenced: set<nat>, nextId: nat,
                                           after: Rounds, nextId': nat)
    requires KeysFit(before) && Upserts(before, seeds, referenced, nextId, after) && IdsBelow(after, nextId')
    ensures TableFits(after, nextId')
  {
    UpsertsFits(before, seeds, referenced, nextId, after);
  }

  lemma {:induction false} SeedKeepsTemplates(s: State, t: nat, seeds: seq<RoundSeed>, s': State)
    requires TemplatesFit(s) && Next(s, Seed(t, seeds), s')
    ensures TemplatesFit(s')
  {
    hide InsertsTwice, Referenced, Upserts, NoSharedId, IdsBelow, IdsUnique, KeysFit;
    if !InsertsTwice(TemplateOf(s, t), seeds) {
      var (before, after) := (TemplateOf(s, t), s'.templates[t]);
      NoRows(s);
      SeededTableFits(before, seeds, Referenced(s.interviews), s.nextId, after, s'.nextId);
      IdsOldOrNew(before, seeds, Referenced(s.interviews), s.nextId, after);
      forall u | u in s.templates && u != t
        ensures TableFits(s.templates[u], s'.nextId) && NoSharedId(after, s.templates[u]) && NoSharedId(s.templates[u], after)
      {
        StillBelow(s.templates[u], s.nextId, s'.nextId);
        StillNoSharedId(before, after, s.templates[u], s.nextId);
      }
    }
  }

  lemma {:induction false} NoRows(s: State)
    ensures KeysFit(map[]) && forall u :: u in s.templates ==> NoSharedId(map[], s.templates[u])
  {}

  lemma {:induction false} StillBelow(rows: Rounds, low: nat, high: nat)
    requires TableFits(rows, low) && low <= high
    ensures TableFits(rows, high)
  {}

  lemma {:induction false} ReferencedHas(interviews: seq<Interview>, i: nat, k: nat)
    requires i < |interviews| && k < |interviews[i].rounds|
    ensures interviews[i].rounds[k].templateRoundId in Referenced(interviews)
  {}

  lemma {:induction false} SeedKeepsReferences(s: State, t: nat, seeds: seq<RoundSeed>, s': State)
    requires TemplatesFit(s) && ReferencesStand(s) && Next(s, Seed(t, seeds), s')
    ensures ReferencesStand(s')
  {
    hide InsertsTwice, Referenced, Upserts;
    if s' != s {
      var (before, after) := (TemplateOf(s, t), s'.templates[t]);
      if Upserts(before, seeds, Referenced(s.interviews), s.nextId, after) {
        UpsertsFits(before, seeds, Referenced(s.interviews), s.nextId, after);
        forall i, k | 0 <= i < |s.interviews| && 0 <= k < |s.interviews[i].rounds|
          ensures RowStands(s', s.interviews[i].template, s.interviews[i].rounds[k])
        {
          ReferencedHas(s.interviews, i, k);
          assert RowStands(s, s.interviews[i].template, s.interviews[i].rounds[k]);
        }
      }
    }
  }

  lemma {:induction false} PlanKeepsReferences(s: State, t: nat, listed: seq<TemplateRound>, starting: DifficultyLevel, s': State)
    requires ReferencesStand(s) && Next(s, Plan(t, listed, starting), s')
    ensures ReferencesStand(s')
  {
    var (rows, ordered) := (s.templates[t], Sorted(TemplateKey, listed));
    SortedFits(TemplateKey, listed);
    forall k: nat | k < |ordered|
      ensures ordered[k].sequenceNo in rows && rows[ordered[k].sequenceNo] == ordered[k]
    {
      MemberOf(ordered, listed, k);
    }
    forall i, k | 0 <= i < |s'.interviews| && 0 <= k < |s'.interviews[i].rounds|
      ensures RowStands(s', s'.interviews[i].template, s'.interviews[i].rounds[k])
    {
      if i < |s.interviews| {
        assert RowStands(s, s.interviews[i].template, s.interviews[i].rounds[k]);
      }
    }
  }

  /** In every history the template rows keep unique ids, and every planned round keeps the row it references. */
  lemma {:induction false} ReferencedRowsAreNeverDeleted(states: seq<State>, events: seq<Event>, n: nat)
    requires History(states, events) && n < |states|
    ensures TemplatesFit(states[n]) && ReferencesStand(states[n])
  {
    if n > 0 {
      ReferencedRowsAreNeverDeleted(states, events, n - 1);
      var (s, s') := (states[n - 1], states[n]);
      assert Next(s, events[n - 1], s');
      hide TemplatesFit, ReferencesStand, History;
      match events[n - 1]
      case Plan(t, listed, starting) =>
        PlanKeepsReferences(s, t, listed, starting, s');
        SameTemplates(s, s');
      case Seed(t, seeds) =>
        SeedKeepsTemplates(s, t, seeds, s');
        SeedKeepsReferences(s, t, seeds, s');
    }
  }

  lemma {:induction false} SameTemplates(s: State, s': State)
    requires TemplatesFit(s) && s'.templates == s.templates && s'.nextId == s.nextId
    ensures TemplatesFit(s')
  {}

  lemma {:induction false} InterviewsOnlyGrow(states: seq<State>, events: seq<Event>, m: nat, n: nat)
    requires History(states, events) && m <= n < |states|
    ensures states[m].interviews <= states[n].interviews
  {
    if m < n {
      InterviewsOnlyGrow(states, events, m, n - 1);
      assert Next(states[n - 1], events[n - 1], states[n]);
    }
  }

  /** However often the catalog is seeded after an interview was planned, its execution context is what the
      template's rounds were at that moment. */
  lemma {:induction false} ContextOutlivesSeeding(states: seq<State>, events: seq<Event>, m: nat, n: nat,
                                                  loaded: seq<InterviewRound>)
    requires History(states, events) && m < n < |states| && events[m].Plan?
    requires |states[m].interviews| < |states[n].interviews|
    requires multiset(loaded) == multiset(states[n].interviews[|states[m].interviews|].rounds)
    ensures Recovers(BuildExecutionContext(loaded, states[n].interviews[|states[m].interviews|].snapshot),
                     events[m].listed, events[m].starting)
    ensures Lists(events[m].listed, TemplateOf(states[m], events[m].template))
  {
    hide BuildExecutionContext, Sorted, PlanOf, Upserts, Recovers;
    var ev := events[m];
    assert Next(states[m], ev, states[m + 1]);
    InterviewsOnlyGrow(states, events, m + 1, n);
    assert states[n].interviews[|states[m].interviews|] == PlanOf(ev.template, ev.listed, ev.starting);
    ContextRecoversPlan(ev.template, ev.listed, ev.starting, loaded);
  }

  /** Seeding the same catalog twice in a row leaves what seeding it once leaves. */
  lemma {:induction false} SecondSeedingChangesNothing(s: State, t: nat, seeds: seq<RoundSeed>, once: State, twice: State)
    requires !InsertsTwice(TemplateOf(s, t), seeds)
    requires Next(s, Seed(t, seeds), once) && Next(once, Seed(t, seeds), twice)
    ensures twice.templates == once.templates && twice.interviews == once.interviews
  {
    hide InsertsTwice, Upserts;
    var ids := Referenced(s.interviews);
    if !InsertsTwice(TemplateOf(once, t), seeds) {
      UpsertIsIdempotent(TemplateOf(s, t), seeds, ids, s.nextId, once.templates[t], ids, once.nextId, twice.templates[t]);
    }
  }
}
