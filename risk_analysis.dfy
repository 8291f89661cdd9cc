/**
 * Dropout-risk screening (components/RiskAnalysis.tsx): for each student, the
 * mean of their grades, their attendance rate and the wellbeing alert of their
 * learning profile, a first-match four-tier classification, and the list of
 * assessments sorted by tier, most severe first.
 */
module RiskAnalysis {
  import opened Types
  import opened Seqs
  import opened Sorting

  datatype RiskLevel = Critico | Alto | Medio | Bajo

  datatype StudentRisk = StudentRisk(
    student: Student,
    avgGrade: real,
    attendanceRate: real,
    riskLevel: RiskLevel,
    wellbeingAlert: bool)

  function GradeScore(g: Grade): real { g.score }

  function IsPresent(a: AttendanceRecord): bool { a.status == Present }

  /** The grades recorded for one student, in their recorded order. */
  function GradesOf(id: string, grades: seq<Grade>): seq<Grade>
  {
    Filter(grades, (g: Grade) => g.studentId == id)
  }

  /** The attendance records of one student, in their recorded order. */
  function AttendanceOf(id: string, attendance: seq<AttendanceRecord>): seq<AttendanceRecord>
  {
    Filter(attendance, (a: AttendanceRecord) => a.studentId == id)
  }

  /** The mean is taken over that student's grades and no other. */
  lemma GradesOfMember(id: string, grades: seq<Grade>, g: Grade)
    ensures g in GradesOf(id, grades) <==> g in grades && g.studentId == id
  {
    FilterMember(grades, (g: Grade) => g.studentId == id, g);
  }

  lemma AttendanceOfMember(id: string, attendance: seq<AttendanceRecord>, a: AttendanceRecord)
    ensures a in AttendanceOf(id, attendance) <==> a in attendance && a.studentId == id
  {
    FilterMember(attendance, (a: AttendanceRecord) => a.studentId == id, a);
  }

  /**
   * The student's grade mean; 10 when the student has no grade at all, so a
   * student without grades is never at risk on account of grades.
   */
  function AvgGrade(id: string, grades: seq<Grade>): (r: real)
    ensures |GradesOf(id, grades)| == 0 ==> r == 10.0
    ensures |GradesOf(id, grades)| > 0 ==>
      r * |GradesOf(id, grades)| as real == Sum(GradesOf(id, grades), GradeScore)
  {
    var own := GradesOf(id, grades);
    if |own| > 0 then Sum(own, GradeScore) / |own| as real else 10.0
  }

  /** How many records the student has, and how many of them are 'present'. */
  function RecordCount(id: string, attendance: seq<AttendanceRecord>): nat
  {
    |AttendanceOf(id, attendance)|
  }

  function PresentCount(id: string, attendance: seq<AttendanceRecord>): nat
  {
    Count(AttendanceOf(id, attendance), IsPresent)
  }

  /** `part` out of `total` as a percentage. */
  function Percent(part: nat, total: nat): (r: real)
    requires total > 0
    ensures r * total as real == 100.0 * part as real
    ensures part <= total ==> 0.0 <= r <= 100.0
    ensures part <= total ==> (r == 100.0 <==> part == total)
  {
    PercentScales(part as real, total as real);
    var r := (part as real / total as real) * 100.0;
    if part <= total then PercentFacts(r, part, total); r else r
  }

  lemma PercentScales(part: real, total: real)
    requires total > 0.0
    ensures (part / total) * 100.0 * total == 100.0 * part
  {
  }

  /** A rate `r` with `r * total == 100 * part` and `part <= total` is a percentage, full exactly when `part == total`. */
  lemma PercentFacts(r: real, part: nat, total: nat)
    requires 0 < total && part <= total && r * total as real == 100.0 * part as real
    ensures 0.0 <= r <= 100.0
    ensures r == 100.0 <==> part == total
  {
    assert r == 100.0 * (part as real / total as real);
    assert part as real / total as real <= 1.0;
    if r == 100.0 {
      assert 100.0 * total as real == 100.0 * part as real;
    }
  }

  /**
   * The percentage of the student's records marked present; 100 when there is
   * no record. A late arrival counts as not present.
   */
  function AttendanceRate(id: string, attendance: seq<AttendanceRecord>): (r: real)
    ensures RecordCount(id, attendance) == 0 ==> r == 100.0
    ensures 0.0 <= r <= 100.0
    ensures r == 100.0 <==> PresentCount(id, attendance) == RecordCount(id, attendance)
  {
    CountBounds(AttendanceOf(id, attendance), IsPresent);
    if RecordCount(id, attendance) > 0 then Percent(PresentCount(id, attendance), RecordCount(id, attendance))
    else 100.0
  }

  /** With records on file, the rate is the present share scaled to 100. */
  lemma AttendanceRateValue(id: string, attendance: seq<AttendanceRecord>)
    ensures RecordCount(id, attendance) > 0 ==>
      AttendanceRate(id, attendance) * RecordCount(id, attendance) as real == 100.0 * PresentCount(id, attendance) as real
  {
    if RecordCount(id, attendance) > 0 {
      assert AttendanceRate(id, attendance) == Percent(PresentCount(id, attendance), RecordCount(id, attendance));
    }
  }

  /** The rate is 100 exactly when every record of the student is 'present'. */
  lemma AttendanceRateFull(id: string, attendance: seq<AttendanceRecord>)
    ensures AttendanceRate(id, attendance) == 100.0 <==>
      forall a :: a in AttendanceOf(id, attendance) ==> a.status == Present
  {
    CountBounds(AttendanceOf(id, attendance), IsPresent);
  }

  /** The alert holds only for a recorded profile whose wellbeing is 'Alerta (Carga Alta)'. */
  predicate WellbeingAlert(s: Student)
  {
    s.profile.Some? && s.profile.value.wellbeing == AlertaCargaAlta
  }

  /** The tier of a student, by the first rule that applies. */
  function Classify(avgGrade: real, attendanceRate: real, alert: bool): (t: RiskLevel)
    ensures t == Critico <==> avgGrade < 6.0 || attendanceRate < 60.0 || alert
    ensures t == Alto <==> !(avgGrade < 6.0 || attendanceRate < 60.0 || alert) &&
                           (avgGrade < 7.5 || attendanceRate < 80.0)
    ensures t == Bajo <==> avgGrade >= 8.5 && attendanceRate >= 80.0 && !alert
  {
    if avgGrade < 6.0 || attendanceRate < 60.0 || alert then Critico
    else if avgGrade < 7.5 || attendanceRate < 80.0 then Alto
    else if avgGrade < 8.5 then Medio
    else Bajo
  }

  /** The sort weights Crítico 3, Alto 2, Medio 1, Bajo 0. */
  function Weight(t: RiskLevel): (w: real)
    ensures 0.0 <= w <= 3.0
    ensures t == Critico <==> w == 3.0
    ensures t == Alto <==> w == 2.0
    ensures t == Medio <==> w == 1.0
    ensures t == Bajo <==> w == 0.0
  {
    match t
    case Critico => 3.0
    case Alto => 2.0
    case Medio => 1.0
    case Bajo => 0.0
  }

  function RowWeight(row: StudentRisk): real { Weight(row.riskLevel) }

  /** The assessment of one student. */
  function Assess(s: Student, grades: seq<Grade>, attendance: seq<AttendanceRecord>): (row: StudentRisk)
    ensures row.student == s
    ensures row.avgGrade == AvgGrade(s.id, grades)
    ensures row.attendanceRate == AttendanceRate(s.id, attendance)
    ensures row.riskLevel == Classify(row.avgGrade, row.attendanceRate, row.wellbeingAlert)
    ensures row.wellbeingAlert == WellbeingAlert(s)
  {
    var avg := AvgGrade(s.id, grades);
    var rate := AttendanceRate(s.id, attendance);
    var alert := WellbeingAlert(s);
    StudentRisk(s, avg, rate, Classify(avg, rate, alert), alert)
  }

  /** The assessments in student order, before sorting. */
  function Assessments(state: AppState): (rows: seq<StudentRisk>)
    ensures |rows| == |state.students|
    ensures forall i :: 0 <= i < |rows| ==> rows[i] == Assess(state.students[i], state.grades, state.attendance)
  {
    Map(state.students, (s: Student) => Assess(s, state.grades, state.attendance))
  }

  /** The list shown on the screen: the assessments sorted by weight, most severe first. */
  function StudentsWithRisk(state: AppState): seq<StudentRisk>
  {
    SortDesc(Assessments(state), RowWeight)
  }

  /**
   * One entry per student (the list is a permutation of the per-student
   * assessments), in non-increasing weight, and students of equal tier keep
   * their order in the student list.
   */
  lemma StudentsWithRiskSpec(state: AppState, k: real)
    ensures |StudentsWithRisk(state)| == |state.students|
    ensures multiset(StudentsWithRisk(state)) == multiset(Assessments(state))
    ensures SortedDesc(StudentsWithRisk(state), RowWeight)
    ensures Filter(StudentsWithRisk(state), KeyIs(RowWeight, k)) == Filter(Assessments(state), KeyIs(RowWeight, k))
  {
    SortDescSorted(Assessments(state), RowWeight);
    SortDescStable(Assessments(state), RowWeight, k);
  }

  /**
   * The ranking puts the critical students first: no row ranked above a
   * Crítico row is of a lighter tier, and nothing below a Bajo row is heavier.
   */
  lemma CriticalFirst(state: AppState)
    ensures forall i, j :: 0 <= i < j < |StudentsWithRisk(state)| && StudentsWithRisk(state)[j].riskLevel == Critico ==>
      StudentsWithRisk(state)[i].riskLevel == Critico
    ensures forall i, j :: 0 <= i < j < |StudentsWithRisk(state)| && StudentsWithRisk(state)[i].riskLevel == Bajo ==>
      StudentsWithRisk(state)[j].riskLevel == Bajo
  {
    SortDescSorted(Assessments(state), RowWeight);
    var rows := StudentsWithRisk(state);
    forall i, j | 0 <= i < j < |rows|
      ensures Weight(rows[i].riskLevel) >= Weight(rows[j].riskLevel)
    {
      assert RowWeight(rows[i]) >= RowWeight(rows[j]);
    }
  }

  /** Every entry of the list is the assessment of some student, and every student has one. */
  lemma {:induction false} StudentsWithRiskMembers(state: AppState)
    ensures forall row :: row in StudentsWithRisk(state) ==>
      row.student in state.students && row == Assess(row.student, state.grades, state.attendance)
    ensures forall s :: s in state.students ==> Assess(s, state.grades, state.attendance) in StudentsWithRisk(state)
  {
    var rows := Assessments(state);
    var r := StudentsWithRisk(state);
    forall row | row in r
      ensures row.student in state.students && row == Assess(row.student, state.grades, state.attendance)
    {
      assert row in multiset(rows);
      var i :| 0 <= i < |rows| && rows[i] == row;
    }
    forall s | s in state.students ensures Assess(s, state.grades, state.attendance) in r {
      var i :| 0 <= i < |state.students| && state.students[i] == s;
      assert rows[i] in multiset(r);
    }
  }

  /**
   * With the wellbeing alert fixed, a better grade mean or attendance rate
   * never gives a heavier tier.
   */
  lemma ClassifyMonotone(avg1: real, rate1: real, avg2: real, rate2: real, alert: bool)
    requires avg1 <= avg2 && rate1 <= rate2
    ensures Weight(Classify(avg2, rate2, alert)) <= Weight(Classify(avg1, rate1, alert))
  {
  }

  /** Worked cases of the tier rule. */
  lemma ClassifyExamples()
    ensures Classify(5.9, 90.0, false) == Critico
    ensures Classify(9.0, 50.0, false) == Critico
    ensures Classify(9.0, 95.0, true) == Critico
    ensures Classify(8.0, 95.0, false) == Medio
    ensures Classify(9.0, 85.0, false) == Bajo
    ensures Classify(7.0, 95.0, false) == Alto
  {
  }

  /** A student with no grade and no attendance record is only at risk through the wellbeing alert. */
  lemma NoDataStudent(s: Student, grades: seq<Grade>, attendance: seq<AttendanceRecord>)
    requires forall g :: g in grades ==> g.studentId != s.id
    requires forall a :: a in attendance ==> a.studentId != s.id
    ensures Assess(s, grades, attendance).avgGrade == 10.0
    ensures Assess(s, grades, attendance).attendanceRate == 100.0
    ensures Assess(s, grades, attendance).riskLevel == if WellbeingAlert(s) then Critico else Bajo
  {
    var own := GradesOf(s.id, grades);
    if |own| > 0 { GradesOfMember(s.id, grades, own[0]); }
    var att := AttendanceOf(s.id, attendance);
    if |att| > 0 { AttendanceOfMember(s.id, attendance, att[0]); }
  }
}
