/**
 * Teaching-quality survey (components/TeacherEvaluation.tsx): per-teacher
 * averages of the four star ratings, the ranking by average, the best teacher,
 * the global satisfaction figure, the count of critical reports, the
 * evaluation form and the panel of recent opinions.
 */
module TeacherEvaluations {
  import opened Types
  import opened Seqs
  import opened Sorting
  import opened Text

  /** A teacher with their average rating and number of evaluations. */
  datatype TeacherStat = TeacherStat(teacher: Teacher, avg: real, count: nat)

  /** The mean of one evaluation's four ratings. */
  function EvalMean(e: TeacherEvaluation): real
  {
    (e.scores.clarity + e.scores.material + e.scores.punctuality + e.scores.support) as real / 4.0
  }

  function EvaluationsOf(teacherId: string, evals: seq<TeacherEvaluation>): seq<TeacherEvaluation>
  {
    Filter(evals, (e: TeacherEvaluation) => e.teacherId == teacherId)
  }

  /** The mean of the teacher's evaluation means; 0 for a teacher nobody evaluated. */
  function TeacherAvg(teacherId: string, evals: seq<TeacherEvaluation>): (r: real)
    ensures |EvaluationsOf(teacherId, evals)| == 0 ==> r == 0.0
    ensures |EvaluationsOf(teacherId, evals)| > 0 ==>
      r * |EvaluationsOf(teacherId, evals)| as real == Sum(EvaluationsOf(teacherId, evals), EvalMean)
  {
    var own := EvaluationsOf(teacherId, evals);
    if |own| > 0 then Sum(own, EvalMean) / |own| as real else 0.0
  }

  function Stat(t: Teacher, evals: seq<TeacherEvaluation>): TeacherStat
  {
    TeacherStat(t, TeacherAvg(t.id, evals), |EvaluationsOf(t.id, evals)|)
  }

  function StatAvg(s: TeacherStat): real { s.avg }

  /** The stats in teacher order, before sorting. */
  function Stats(state: AppState): (r: seq<TeacherStat>)
    ensures |r| == |state.teachers|
    ensures forall i :: 0 <= i < |r| ==> r[i] == Stat(state.teachers[i], state.teacherEvaluations)
  {
    Map(state.teachers, (t: Teacher) => Stat(t, state.teacherEvaluations))
  }

  /** `teacherStats`: the stats sorted by average, best first. */
  function TeacherStats(state: AppState): seq<TeacherStat>
  {
    SortDesc(Stats(state), StatAvg)
  }

  /** The ranking is a permutation of the teachers' stats in non-increasing average. */
  lemma TeacherStatsRanking(state: AppState)
    ensures multiset(TeacherStats(state)) == multiset(Stats(state))
    ensures SortedDesc(TeacherStats(state), StatAvg)
  {
    SortDescSorted(Stats(state), StatAvg);
  }

  /**
   * A teacher's count is the number of evaluations naming them; an evaluation
   * naming no teacher of the list counts for none.
   */
  lemma EvaluationCounted(state: AppState, e: TeacherEvaluation, t: Teacher)
    ensures e in EvaluationsOf(t.id, state.teacherEvaluations) <==> e in state.teacherEvaluations && e.teacherId == t.id
    ensures (forall u :: u in state.teachers ==> u.id != e.teacherId) && t in state.teachers ==>
      e !in EvaluationsOf(t.id, state.teacherEvaluations)
  {
    FilterMember(state.teacherEvaluations, (x: TeacherEvaluation) => x.teacherId == t.id, e);
  }

  predicate InStarRange(x: int) { 1 <= x <= 5 }

  predicate StarsInRange(s: Scores)
  {
    InStarRange(s.clarity) && InStarRange(s.material) && InStarRange(s.punctuality) && InStarRange(s.support)
  }

  lemma EvalMeanInRange(e: TeacherEvaluation)
    requires StarsInRange(e.scores)
    ensures 1.0 <= EvalMean(e) <= 5.0
  {
  }

  /** With every rating between 1 and 5 stars, an evaluated teacher's average lies in [1, 5]. */
  lemma {:induction false} TeacherAvgInRange(teacherId: string, evals: seq<TeacherEvaluation>)
    requires forall i :: 0 <= i < |evals| ==> StarsInRange(evals[i].scores)
    requires |EvaluationsOf(teacherId, evals)| > 0
    ensures 1.0 <= TeacherAvg(teacherId, evals) <= 5.0
  {
    var own := EvaluationsOf(teacherId, evals);
    forall i | 0 <= i < |own| ensures 1.0 <= EvalMean(own[i]) <= 5.0 {
      FilterMember(evals, (e: TeacherEvaluation) => e.teacherId == teacherId, own[i]);
      var j :| 0 <= j < |evals| && evals[j] == own[i];
      EvalMeanInRange(own[i]);
    }
    SumBounds(own, EvalMean, 1.0, 5.0);
    MeanBounds(TeacherAvg(teacherId, evals), Sum(own, EvalMean), |own| as real, 1.0, 5.0);
  }

  lemma MeanBounds(avg: real, total: real, n: real, lo: real, hi: real)
    requires n > 0.0 && avg * n == total && n * lo <= total <= n * hi
    ensures lo <= avg <= hi
  {
    assert avg == total / n;
    assert total / n >= lo && total / n <= hi;
  }

  /** `bestTeacher`: the head of the ranking, if there is a teacher at all. */
  function BestTeacher(state: AppState): (r: Option<TeacherStat>)
    ensures r.None? <==> |state.teachers| == 0
  {
    var stats := TeacherStats(state);
    if |stats| > 0 then Some(stats[0]) else None
  }

  /**
   * The best teacher has the highest average, and among teachers sharing that
   * average it is the one listed first.
   */
  lemma BestTeacherIsFirstMaximum(state: AppState)
    requires |state.teachers| > 0
    ensures var best := BestTeacher(state).value;
            exists i :: 0 <= i < |state.teachers| && best == Stat(state.teachers[i], state.teacherEvaluations) &&
                        (forall j :: 0 <= j < |state.teachers| ==>
                           TeacherAvg(state.teachers[j].id, state.teacherEvaluations) <= best.avg) &&
                        (forall j :: 0 <= j < i ==>
                           TeacherAvg(state.teachers[j].id, state.teacherEvaluations) < best.avg)
  {
    var stats := Stats(state);
    SortDescHead(stats, StatAvg);
    var best := BestTeacher(state).value;
    var i :| 0 <= i < |stats| && stats[i] == best && forall j :: 0 <= j < i ==> StatAvg(stats[j]) < StatAvg(stats[i]);
    forall j | 0 <= j < |state.teachers|
      ensures TeacherAvg(state.teachers[j].id, state.teacherEvaluations) <= best.avg
    {
      assert StatAvg(stats[j]) <= StatAvg(best);
    }
    forall j | 0 <= j < i
      ensures TeacherAvg(state.teachers[j].id, state.teacherEvaluations) < best.avg
    {
      assert StatAvg(stats[j]) < StatAvg(stats[i]);
    }
  }

  /** `globalTeacherAvg`: the mean of the per-teacher averages, unevaluated teachers included as 0. */
  function GlobalTeacherAvg(state: AppState): real
  {
    var stats := TeacherStats(state);
    if |stats| > 0 then Sum(stats, StatAvg) / |stats| as real else 0.0
  }

  function TeacherAvgOf(evals: seq<TeacherEvaluation>): Teacher -> real
  {
    (t: Teacher) => TeacherAvg(t.id, evals)
  }

  /**
   * The global figure is the plain mean over the teacher list of each
   * teacher's average, so an unevaluated teacher pulls it down as a 0; it is 0
   * with no teachers.
   */
  lemma {:induction false} GlobalTeacherAvgIsMean(state: AppState)
    ensures |state.teachers| == 0 ==> GlobalTeacherAvg(state) == 0.0
    ensures |state.teachers| > 0 ==>
      GlobalTeacherAvg(state) == Sum(state.teachers, TeacherAvgOf(state.teacherEvaluations)) / |state.teachers| as real
  {
    TeacherStatsSum(state);
  }

  /** The ranked stats hold the same averages as the teacher list. */
  lemma {:induction false} TeacherStatsSum(state: AppState)
    ensures |TeacherStats(state)| == |state.teachers|
    ensures Sum(TeacherStats(state), StatAvg) == Sum(state.teachers, TeacherAvgOf(state.teacherEvaluations))
  {
    var stats := Stats(state);
    SumSortDesc(stats, StatAvg, StatAvg);
    SumMapStats(state.teachers, state.teacherEvaluations);
    assert stats == Map(state.teachers, (t: Teacher) => Stat(t, state.teacherEvaluations));
  }

  lemma {:induction false} SumMapStats(teachers: seq<Teacher>, evals: seq<TeacherEvaluation>)
    ensures Sum(Map(teachers, (t: Teacher) => Stat(t, evals)), StatAvg) == Sum(teachers, TeacherAvgOf(evals))
  {
    if |teachers| > 0 {
      SumMapStats(teachers[1..], evals);
      assert Map(teachers, (t: Teacher) => Stat(t, evals))[1..] == Map(teachers[1..], (t: Teacher) => Stat(t, evals));
    }
  }

  predicate IsCritical(s: TeacherStat) { 0.0 < s.avg < 3.0 }

  /** The number on the critical-reports card: teachers whose average is above 0 and below 3. */
  function CriticalReports(state: AppState): (n: nat)
    ensures n <= |state.teachers|
  {
    |Filter(TeacherStats(state), IsCritical)|
  }

  /**
   * The count does not depend on the ranking order, and a teacher nobody
   * evaluated (average 0) is never critical.
   */
  lemma {:induction false} CriticalReportsSpec(state: AppState)
    ensures CriticalReports(state) == |Filter(Stats(state), IsCritical)|
    ensures forall t :: t in state.teachers && |EvaluationsOf(t.id, state.teacherEvaluations)| == 0 ==>
      !IsCritical(Stat(t, state.teacherEvaluations))
  {
    FilterCountSortDesc(Stats(state), StatAvg, IsCritical);
  }

  /** The evaluation form: chosen teacher, the four ratings and the comment. */
  datatype EvalForm = EvalForm(selectedTeacher: string, scores: Scores, comment: string)

  /** The form as first shown: no teacher, five stars everywhere, no comment. */
  function InitialForm(): (f: EvalForm)
    ensures StarsInRange(f.scores)
  {
    EvalForm("", Scores(5, 5, 5, 5), "")
  }

  datatype ScoreField = Clarity | Material | Punctuality | Support

  /** Clicking the `star`-th star of one rating. */
  function SetScore(s: Scores, field: ScoreField, star: int): (r: Scores)
    ensures StarsInRange(s) && InStarRange(star) ==> StarsInRange(r)
  {
    match field
    case Clarity => s.(clarity := star)
    case Material => s.(material := star)
    case Punctuality => s.(punctuality := star)
    case Support => s.(support := star)
  }

  /**
   * `handleSubmit`: with no teacher chosen nothing is recorded and the form
   * stays; otherwise the evaluation is recorded anonymously for the current
   * period, dated with the day of `nowIso`, and the teacher and comment are
   * cleared while the ratings stay.
   */
  function Submit(form: EvalForm, id: string, nowIso: string): (r: (Option<TeacherEvaluation>, EvalForm))
    ensures form.selectedTeacher == "" <==> r.0.None?
    ensures r.0.None? ==> r.1 == form
    ensures r.0.Some? ==>
      r.0.value.teacherId == form.selectedTeacher && r.0.value.studentId == "anon-student" &&
      r.0.value.scores == form.scores && r.0.value.comment == form.comment &&
      r.0.value.id == id && r.0.value.period == "Cuatrimestre Actual" &&
      r.0.value.date == DatePart(nowIso) &&
      r.1 == EvalForm("", form.scores, "")
  {
    if form.selectedTeacher == "" then (None, form)
    else (Some(TeacherEvaluation(id, form.selectedTeacher, "anon-student", DatePart(nowIso),
                                 "Cuatrimestre Actual", form.scores, form.comment)),
          form.(selectedTeacher := "", comment := ""))
  }

  function Reverse<T>(s: seq<T>): (r: seq<T>)
    ensures |r| == |s|
    ensures forall i :: 0 <= i < |s| ==> r[i] == s[|s| - 1 - i]
  {
    if |s| == 0 then [] else Reverse(s[1..]) + [s[0]]
  }

  /** `slice(-6).reverse()`: at most the six latest evaluations, newest first. */
  function RecentOpinions(evals: seq<TeacherEvaluation>): (r: seq<TeacherEvaluation>)
    ensures |r| == if |evals| < 6 then |evals| else 6
    ensures forall i :: 0 <= i < |r| ==> r[i] == evals[|evals| - 1 - i]
  {
    Reverse(evals[if |evals| < 6 then 0 else |evals| - 6..])
  }
}
