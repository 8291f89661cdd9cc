/**
 * The student's own page (components/StudentPortal.tsx): their record, their
 * grades and mean, the class schedule of their career, and the kardex that a
 * financial block hides.
 */
module StudentPortal {
  import opened Types
  import opened Seqs
  import RiskAnalysis
  import Dashboard
  import FinanceManagement

  /** `myGrades`: the grades recorded for this student, in their recorded order. */
  function MyGrades(studentId: string, grades: seq<Grade>): (r: seq<Grade>)
    ensures forall i :: 0 <= i < |r| ==> r[i].studentId == studentId
  {
    RiskAnalysis.GradesOf(studentId, grades)
  }

  /** Exactly the student's grades, and none reordered. */
  lemma MyGradesSpec(studentId: string, grades: seq<Grade>)
    ensures forall g :: g in MyGrades(studentId, grades) <==> g in grades && g.studentId == studentId
    ensures IsSubsequence(MyGrades(studentId, grades), grades)
  {
    forall g ensures g in MyGrades(studentId, grades) <==> g in grades && g.studentId == studentId {
      RiskAnalysis.GradesOfMember(studentId, grades, g);
    }
    FilterIsSubsequence(grades, (g: Grade) => g.studentId == studentId);
  }

  /** The mean of the student's grades, 0 when there is none. */
  function Gpa(studentId: string, grades: seq<Grade>): real
  {
    Dashboard.GlobalAvgGrade(MyGrades(studentId, grades))
  }

  /**
   * The portal and the risk screen agree on a student with grades; on one
   * without, the portal shows 0 where the risk screen assumes 10.
   */
  lemma GpaVersusRisk(studentId: string, grades: seq<Grade>)
    ensures |MyGrades(studentId, grades)| > 0 ==> Gpa(studentId, grades) == RiskAnalysis.AvgGrade(studentId, grades)
    ensures |MyGrades(studentId, grades)| == 0 ==>
      Gpa(studentId, grades) == 0.0 && RiskAnalysis.AvgGrade(studentId, grades) == 10.0
  {
  }

  /** With every score in [0, 10] the mean lies in [0, 10]. */
  lemma GpaRange(studentId: string, grades: seq<Grade>)
    requires forall g :: g in grades ==> 0.0 <= g.score <= 10.0
    ensures 0.0 <= Gpa(studentId, grades) <= 10.0
  {
    var mine := MyGrades(studentId, grades);
    forall i | 0 <= i < |mine| ensures 0.0 <= mine[i].score <= 10.0 {
      RiskAnalysis.GradesOfMember(studentId, grades, mine[i]);
    }
    Dashboard.GlobalAvgGradeBounds(mine, 0.0, 10.0);
  }

  /** A class in the student's timetable, with the name of its subject. */
  datatype ScheduleRow = ScheduleRow(schedule: Schedule, subjectName: string)

  function RowSchedule(r: ScheduleRow): Schedule { r.schedule }

  /** The subject a schedule refers to: the first subject with that id. */
  function SubjectOf(subjects: seq<Subject>, subjectId: string): Option<Subject>
  {
    Find(subjects, (s: Subject) => s.id == subjectId)
  }

  /** A schedule belongs in the timetable when its subject exists and is of the student's career. */
  predicate Offered(subjects: seq<Subject>, career: string, sch: Schedule)
  {
    SubjectOf(subjects, sch.subjectId).Some? && SubjectOf(subjects, sch.subjectId).value.career == career
  }

  /** `mySchedules`: the map to an annotated row or `null`, then the filter that drops the nulls. */
  function MySchedules(schedules: seq<Schedule>, subjects: seq<Subject>, career: string): (rows: seq<ScheduleRow>)
    ensures |rows| <= |schedules|
    ensures forall i :: 0 <= i < |rows| ==>
      Offered(subjects, career, rows[i].schedule) &&
      rows[i].subjectName == SubjectOf(subjects, rows[i].schedule.subjectId).value.name
  {
    if |schedules| == 0 then []
    else
      var sch := schedules[0];
      var rest := MySchedules(schedules[1..], subjects, career);
      if Offered(subjects, career, sch) then [ScheduleRow(sch, SubjectOf(subjects, sch.subjectId).value.name)] + rest
      else rest
  }

  /** The timetable keeps, in order, exactly the schedules of the student's career. */
  lemma {:induction false} MySchedulesSpec(schedules: seq<Schedule>, subjects: seq<Subject>, career: string)
    ensures Map(MySchedules(schedules, subjects, career), RowSchedule) ==
            Filter(schedules, (sch: Schedule) => Offered(subjects, career, sch))
  {
    if |schedules| > 0 {
      var p := (sch: Schedule) => Offered(subjects, career, sch);
      MySchedulesSpec(schedules[1..], subjects, career);
      var rest := MySchedules(schedules[1..], subjects, career);
      assert Filter(schedules, p) == (if p(schedules[0]) then [schedules[0]] else []) + Filter(schedules[1..], p);
      if Offered(subjects, career, schedules[0]) {
        var head := [ScheduleRow(schedules[0], SubjectOf(subjects, schedules[0].subjectId).value.name)];
        assert MySchedules(schedules, subjects, career) == head + rest;
        MapConcat(head, rest, RowSchedule);
      }
    }
  }

  /** What the portal shows for a student id. */
  datatype PortalView =
    | NotFound
    | Portal(student: Student, grades: seq<Grade>, schedules: seq<ScheduleRow>, gpa: real, kardexHidden: bool)

  /**
   * The page for `studentId`: the error view when no student has that id,
   * otherwise the first such student's page. The kardex is hidden exactly when
   * the student's financial record says blocked.
   */
  function View(studentId: string, state: AppState): (v: PortalView)
    ensures v.NotFound? <==> forall i :: 0 <= i < |state.students| ==> state.students[i].id != studentId
    ensures v.Portal? ==>
      (exists i :: 0 <= i < |state.students| && state.students[i] == v.student &&
                   forall j :: 0 <= j < i ==> state.students[j].id != studentId) &&
      v.student in state.students && v.student.id == studentId &&
      v.grades == MyGrades(studentId, state.grades) &&
      v.schedules == MySchedules(state.schedules, state.subjects, v.student.career) &&
      v.gpa == Gpa(studentId, state.grades) &&
      v.kardexHidden == FinanceManagement.IsBlocked(v.student)
  {
    match Find(state.students, (s: Student) => s.id == studentId)
    case None => NotFound
    case Some(s) =>
      Portal(s, MyGrades(studentId, state.grades), MySchedules(state.schedules, state.subjects, s.career),
             Gpa(studentId, state.grades), FinanceManagement.IsBlocked(s))
  }
}
