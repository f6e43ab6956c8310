/** The progress rows of one user, updated once per generated report. Skill normalisation is any function. */
module Progress {
  import opened Domain

  datatype Trend = Improving | Stable | Declining

  datatype SkillProgress = SkillProgress(score: real, trend: Trend)

  datatype CompanyReadiness = CompanyReadiness(score: real, lastSession: nat)

  datatype DailySnapshot = DailySnapshot(interviewsCompleted: nat, averageScore: real)

  datatype Tables = Tables(skills: map<string, SkillProgress>, readiness: map<nat, CompanyReadiness>,
                           snapshots: map<int, DailySnapshot>)

  /** A weak or strong area of a report; its section may be missing. */
  datatype Area = Area(topic: string, section: Option<string>)

  datatype Report = Report(session: nat, company: Option<nat>, overallScore: real, sectionScores: map<string, real>,
                           weakAreas: seq<Area>, strongAreas: seq<Area>, today: int, totals: DailySnapshot)

  const IMPROVE_DELTA: real := 5.0
  const DECLINE_DELTA: real := -5.0

  function ClassifyScoreTrend(delta: real): Trend {
    if delta >= IMPROVE_DELTA then Improving
    else if delta <= DECLINE_DELTA then Declining
    else Stable
  }

  // --- Which score a skill gets ------------------------------------------------------------

  predicate HasSection(a: Area) { a.section.Some? }

  /** Weak areas first, then strong ones. */
  function TopicSections(report: Report): seq<Area> {
    Filter(HasSection, report.weakAreas) + Filter(HasSection, report.strongAreas)
  }

  function ScoreOf(scores: map<string, real>, a: Area): Option<real> {
    if a.section.Some? && a.section.value in scores then Some(scores[a.section.value]) else None
  }

  predicate Speaks(normalize: string -> string, scores: map<string, real>, a: Area, skill: string) {
    normalize(a.topic) == skill && ScoreOf(scores, a).Some?
  }

  /** The score of the first area that normalises to the skill and whose section has a score. */
  function FirstScore(normalize: string -> string, scores: map<string, real>, areas: seq<Area>, skill: string): Option<real> {
    if areas == [] then None
    else
      var (earlier, last) := (FirstScore(normalize, scores, areas[..|areas| - 1], skill), areas[|areas| - 1]);
      if earlier.Some? then earlier
      else if Speaks(normalize, scores, last, skill) then ScoreOf(scores, last)
      else None
  }

  lemma {:induction false} FirstScoreIsFirst(normalize: string -> string, scores: map<string, real>, areas: seq<Area>, skill: string)
    ensures FirstScore(normalize, scores, areas, skill).None?
            <==> forall i :: 0 <= i < |areas| ==> !Speaks(normalize, scores, areas[i], skill)
    ensures FirstScore(normalize, scores, areas, skill).Some? ==>
              exists i :: 0 <= i < |areas| && Speaks(normalize, scores, areas[i], skill)
                          && ScoreOf(scores, areas[i]) == FirstScore(normalize, scores, areas, skill)
                          && forall j :: 0 <= j < i ==> !Speaks(normalize, scores, areas[j], skill)
  {
    if areas != [] {
      var init := areas[..|areas| - 1];
      FirstScoreIsFirst(normalize, scores, init, skill);
      assert forall i :: 0 <= i < |init| ==> init[i] == areas[i];
    }
  }

  /** A weak area beats every strong area for the same skill. */
  lemma {:induction false} WeakBeforeStrong(normalize: string -> string, scores: map<string, real>, weak: seq<Area>,
                                            strong: seq<Area>, skill: string)
    ensures FirstScore(normalize, scores, weak + strong, skill)
            == var first := FirstScore(normalize, scores, weak, skill);
               if first.Some? then first else FirstScore(normalize, scores, strong, skill)
  {
    if strong == [] {
      assert weak + strong == weak;
    } else {
      var init := strong[..|strong| - 1];
      WeakBeforeStrong(normalize, scores, weak, init, skill);
      assert (weak + strong)[..|weak + strong| - 1] == weak + init;
    }
  }

  // --- What recording a report does ------------------------------------------------------------

  function Assessed(before: map<string, SkillProgress>, skill: string, score: real): SkillProgress {
    SkillProgress(score, if skill in before then ClassifyScoreTrend(score - before[skill].score) else Stable)
  }

  /** Touched skills take their first score, the others stay. */
  ghost predicate SkillsRecorded(before: map<string, SkillProgress>, normalize: string -> string, scores: map<string, real>,
                                 areas: seq<Area>, after: map<string, SkillProgress>) {
    && (forall skill :: skill in after <==> skill in before || FirstScore(normalize, scores, areas, skill).Some?)
    && (forall skill :: skill in after ==>
          var first := FirstScore(normalize, scores, areas, skill);
          after[skill] == if first.Some? then Assessed(before, skill, first.value) else before[skill])
  }

  ghost predicate Recorded(before: Tables, report: Report, normalize: string -> string, after: Tables) {
    && after.snapshots == before.snapshots[report.today := report.totals]
    && after.readiness == (if report.company.Some?
                           then before.readiness[report.company.value := CompanyReadiness(report.overallScore, report.session)]
                           else before.readiness)
    && SkillsRecorded(before.skills, normalize, report.sectionScores, TopicSections(report), after.skills)
  }

  lemma {:induction false} FilterMore(areas: seq<Area>, a: Area)
    ensures Filter(HasSection, areas + [a]) == Filter(HasSection, areas) + if HasSection(a) then [a] else []
  {
    if areas == [] {
      assert areas + [a] == [a] && [a][1..] == [];
    } else {
      assert (areas + [a])[1..] == areas[1..] + [a];
      FilterMore(areas[1..], a);
    }
  }

  lemma {:induction false} FilteringKeepsFirst(normalize: string -> string, scores: map<string, real>, areas: seq<Area>, skill: string)
    ensures FirstScore(normalize, scores, Filter(HasSection, areas), skill) == FirstScore(normalize, scores, areas, skill)
  {
    if areas != [] {
      var (init, last) := (areas[..|areas| - 1], areas[|areas| - 1]);
      FilteringKeepsFirst(normalize, scores, init, skill);
      assert areas == init + [last];
      FilterMore(init, last);
      if HasSection(last) {
        assert Filter(HasSection, areas) == Filter(HasSection, init) + [last];
        assert Filter(HasSection, areas)[..|Filter(HasSection, areas)| - 1] == Filter(HasSection, init);
      } else {
        assert Filter(HasSection, areas) == Filter(HasSection, init) && !Speaks(normalize, scores, last, skill);
      }
    }
  }

  /** The area is about the skill, and its section has a score. */
  ghost predicate Concerns(report: Report, normalize: string -> string, a: Area, skill: string) {
    normalize(a.topic) == skill && a.section.Some? && a.section.value in report.sectionScores
  }

  /** After a report each skill has the score of the first area, weak before strong, that normalises to it and whose
      section has a score; a skill without such an area is as it was. */
  lemma {:induction false} ScoreAfterReport(before: Tables, report: Report, normalize: string -> string, after: Tables, skill: string)
    requires Recorded(before, report, normalize, after)
    ensures var areas := report.weakAreas + report.strongAreas;
      if forall i :: 0 <= i < |areas| ==> !Concerns(report, normalize, areas[i], skill)
      then (skill in after.skills <==> skill in before.skills)
           && (skill in before.skills ==> after.skills[skill] == before.skills[skill])
      else exists i :: 0 <= i < |areas| && Concerns(report, normalize, areas[i], skill)
                       && (forall j :: 0 <= j < i ==> !Concerns(report, normalize, areas[j], skill))
                       && skill in after.skills
                       && after.skills[skill].score == report.sectionScores[areas[i].section.value]
  {
    hide FirstScore, Filter;
    var (weak, strong, scores) := (report.weakAreas, report.strongAreas, report.sectionScores);
    SpeaksMeansConcerns(report, normalize, skill);
    WeakBeforeStrong(normalize, scores, weak, strong, skill);
    WeakBeforeStrong(normalize, scores, Filter(HasSection, weak), Filter(HasSection, strong), skill);
    FilteringKeepsFirst(normalize, scores, weak, skill);
    FilteringKeepsFirst(normalize, scores, strong, skill);
    FirstScoreIsFirst(normalize, scores, weak + strong, skill);
    hide Speaks, ScoreOf;
  }

  lemma {:induction false} SpeaksMeansConcerns(report: Report, normalize: string -> string, skill: string)
    ensures forall a :: Speaks(normalize, report.sectionScores, a, skill) <==> Concerns(report, normalize, a, skill)
    ensures forall a :: Concerns(report, normalize, a, skill) ==>
              ScoreOf(report.sectionScores, a) == Some(report.sectionScores[a.section.value])
  {}

  /** The trend of a skill a report speaks for: IMPROVING from a rise of 5 points on, DECLINING from a fall of 5 points
      on, STABLE in between and at the first assessment. */
  lemma {:induction false} TrendAfterReport(before: Tables, report: Report, normalize: string -> string, after: Tables, skill: string)
    requires Recorded(before, report, normalize, after)
    requires var areas := report.weakAreas + report.strongAreas;
      exists i :: 0 <= i < |areas| && Concerns(report, normalize, areas[i], skill)
    ensures skill in after.skills
    ensures skill !in before.skills ==> after.skills[skill].trend == Stable
    ensures skill in before.skills ==>
      var rise := after.skills[skill].score - before.skills[skill].score;
      && (after.skills[skill].trend == Improving <==> rise >= 5.0)
      && (after.skills[skill].trend == Declining <==> rise <= -5.0)
      && (after.skills[skill].trend == Stable <==> -5.0 < rise < 5.0)
  {
    hide FirstScore, Filter, Speaks, ScoreOf;
    SpeaksMeansConcerns(report, normalize, skill);
    var (weak, strong, scores) := (report.weakAreas, report.strongAreas, report.sectionScores);
    WeakBeforeStrong(normalize, scores, weak, strong, skill);
    WeakBeforeStrong(normalize, scores, Filter(HasSection, weak), Filter(HasSection, strong), skill);
    FilteringKeepsFirst(normalize, scores, weak, skill);
    FilteringKeepsFirst(normalize, scores, strong, skill);
    FirstScoreIsFirst(normalize, scores, weak + strong, skill);
  }

  lemma {:induction false} FirstScoreMore(normalize: string -> string, scores: map<string, real>, areas: seq<Area>, i: nat)
    requires i < |areas|
    ensures forall skill ::
      FirstScore(normalize, scores, areas[..i + 1], skill)
      == var earlier := FirstScore(normalize, scores, areas[..i], skill);
         if earlier.Some? then earlier
         else if normalize(areas[i].topic) == skill then ScoreOf(scores, areas[i])
         else None
  {
    assert areas[..i + 1][..i] == areas[..i];
  }

  lemma {:induction false} NothingSaid(normalize: string -> string, scores: map<string, real>)
    ensures forall skill :: FirstScore(normalize, scores, [], skill).None?
  {}

  /** The rows after one more area: a skill nobody spoke for yet takes its score, anything else changes nothing. */
  lemma {:induction false} OneMoreArea(before: map<string, SkillProgress>, normalize: string -> string, scores: map<string, real>,
                                       areas: seq<Area>, i: nat, rows: map<string, SkillProgress>)
    requires i < |areas| && SkillsRecorded(before, normalize, scores, areas[..i], rows)
    ensures var (score, skill) := (ScoreOf(scores, areas[i]), normalize(areas[i].topic));
      var known := FirstScore(normalize, scores, areas[..i], skill).Some?;
      && SkillsRecorded(before, normalize, scores, areas[..i + 1],
                        if score.Some? && !known then rows[skill := Assessed(before, skill, score.value)] else rows)
      && (!known ==> (skill in rows <==> skill in before) && (skill in before ==> rows[skill] == before[skill]))
  {
    FirstScoreMore(normalize, scores, areas, i);
    hide FirstScore, ScoreOf;
  }

  // --- Idempotence -----------------------------------------------------------------------------

  predicate SameKeysAndScores(t: Tables, u: Tables) {
    && t.readiness == u.readiness && t.snapshots == u.snapshots && t.skills.Keys == u.skills.Keys
    && forall skill :: skill in t.skills ==> u.skills[skill].score == t.skills[skill].score
  }

  /** Recording the same report again keeps every key and every score; the touched skills' trends become STABLE and
      nothing else changes, so the rows are unchanged exactly when those trends were STABLE already. */
  lemma {:induction false} RecordingAgain(before: Tables, report: Report, normalize: string -> string, once: Tables, twice: Tables)
    requires Recorded(before, report, normalize, once) && Recorded(once, report, normalize, twice)
    ensures SameKeysAndScores(once, twice)
    ensures forall skill :: skill in twice.skills ==>
              twice.skills[skill].trend == if FirstScore(normalize, report.sectionScores, TopicSections(report), skill).Some?
                                           then Stable else once.skills[skill].trend
    ensures twice == once
            <==> forall skill :: skill in once.skills
                                 && FirstScore(normalize, report.sectionScores, TopicSections(report), skill).Some? ==>
                   once.skills[skill].trend == Stable
  {
    hide FirstScore, TopicSections;
    assert twice.snapshots == once.snapshots;
    assert twice.readiness == once.readiness;
    assert twice.skills.Keys == once.skills.Keys;
    forall skill | skill in twice.skills
      ensures skill in once.skills && twice.skills[skill].score == once.skills[skill].score
    {}
    if forall skill :: skill in once.skills
                       && FirstScore(normalize, report.sectionScores, TopicSections(report), skill).Some? ==>
         once.skills[skill].trend == Stable {
      assert twice.skills == once.skills;
    }
  }

  /** A third recording changes nothing any more. */
  lemma {:induction false} RecordingSettles(before: Tables, report: Report, normalize: string -> string, once: Tables, twice: Tables, thrice: Tables)
    requires Recorded(before, report, normalize, once) && Recorded(once, report, normalize, twice)
    requires Recorded(twice, report, normalize, thrice)
    ensures thrice == twice
  {
    hide FirstScore, TopicSections, Recorded;
    RecordingAgain(before, report, normalize, once, twice);
    RecordingAgain(once, report, normalize, twice, thrice);
  }

  // --- The service ------------------------------------------------------------------------------

  class ProgressService {
    var skills: map<string, SkillProgress>
    var readiness: map<nat, CompanyReadiness>
    var snapshots: map<int, DailySnapshot>

    constructor ()
      ensures Rows() == Tables(map[], map[], map[])
    {
      skills, readiness, snapshots := map[], map[], map[];
    }

    function Rows(): Tables
      reads this
    {
      Tables(skills, readiness, snapshots)
    }

    method UpsertSkillProgress(normalize: string -> string, areas: seq<Area>, scores: map<string, real>)
      modifies `skills
      ensures SkillsRecorded(old(skills), normalize, scores, areas, skills)
    {
      assert areas[..0] == [] && SkillsRecorded(skills, normalize, scores, [], skills);
      hide FirstScore, ScoreOf, SkillsRecorded;
      var seen: set<string> := {};
      NothingSaid(normalize, scores);
      for i := 0 to |areas|
        invariant forall skill :: skill in seen <==> FirstScore(normalize, scores, areas[..i], skill).Some?
        invariant SkillsRecorded(old(skills), normalize, scores, areas[..i], skills)
      {
        FirstScoreMore(normalize, scores, areas, i);
        OneMoreArea(old(skills), normalize, scores, areas, i, skills);
        var score := ScoreOf(scores, areas[i]);
        if score.Some? {
          var skill := normalize(areas[i].topic);
          if skill !in seen {
            seen := seen + {skill};
            if skill in skills {
              var delta := score.value - skills[skill].score;
              skills := skills[skill := SkillProgress(score.value, ClassifyScoreTrend(delta))];
            } else {
              skills := skills[skill := SkillProgress(score.value, Stable)];
            }
          }
        }
      }
      assert areas[..|areas|] == areas;
    }

    method UpsertSnapshot(today: int, totals: DailySnapshot)
      modifies `snapshots
      ensures snapshots == old(snapshots)[today := totals]
    {
      snapshots := snapshots[today := totals];
    }

    method UpsertCompanyReadiness(company: nat, session: nat, score: real)
      modifies `readiness
      ensures readiness == old(readiness)[company := CompanyReadiness(score, session)]
    {
      readiness := readiness[company := CompanyReadiness(score, session)];
    }

    method Rollback(committed: Tables)
      modifies this
      ensures Rows() == committed
    {
      skills, readiness, snapshots := committed.skills, committed.readiness, committed.snapshots;
    }

    /** Two attempts. `races[k]` says that attempt `k` loses to a concurrent request and which rows that one has
        committed; the second loss is reported. A lost attempt leaves no trace. */
    method RecordSessionProgress(report: Report, normalize: string -> string, races: seq<Option<Tables>>) returns (ok: bool)
      requires |races| == 2
      modifies this
      ensures ok <==> races[0].None? || races[1].None?
      ensures ok ==> Recorded(if races[0].None? then old(Rows()) else races[0].value, report, normalize, Rows())
      ensures !ok ==> Rows() == races[1].value
    {
      hide FirstScore, TopicSections, SkillsRecorded;
      for attempt := 0 to 2
        invariant attempt == 1 ==> races[0].Some?
        invariant attempt <= 1 && Rows() == if attempt == 0 then old(Rows()) else races[0].value
      {
        ghost var before := Rows();
        UpsertSnapshot(report.today, report.totals);
        if report.company.Some? {
          UpsertCompanyReadiness(report.company.value, report.session, report.overallScore);
        }
        UpsertSkillProgress(normalize, TopicSections(report), report.sectionScores);
        if races[attempt].None? {
          assert Recorded(before, report, normalize, Rows());
          return true;
        }
        Rollback(races[attempt].value);
        if attempt == 1 {
          return false;
        }
      }
    }
  }
}
