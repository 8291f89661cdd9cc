/**
 * Grade book (components/GradesTracker.tsx): the three-bucket distribution
 * chart, the new-grade form and its submit guard, and the per-row result and
 * payment badges.
 */
module GradesTracker {
  import opened Types
  import opened Seqs
  import opened Text
  import FinanceManagement

  /** '0 - 5.9 (Crítico)' */
  predicate Failing(g: Grade) { g.score < 6.0 }

  /** '6.0 - 7.9 (Regular)' */
  predicate Regular(g: Grade) { 6.0 <= g.score && g.score < 8.0 }

  /** '8.0 - 10.0 (Excelente)' */
  predicate Excellent(g: Grade) { g.score >= 8.0 }

  /** The bar heights of the distribution chart, in chart order. */
  datatype Distribution = Distribution(failing: nat, regular: nat, excellent: nat)

  function Buckets(grades: seq<Grade>): (d: Distribution)
    ensures d.failing == |Filter(grades, Failing)|
    ensures d.regular == |Filter(grades, Regular)|
    ensures d.excellent == |Filter(grades, Excellent)|
  {
    CountFilter(grades, Failing);
    CountFilter(grades, Regular);
    CountFilter(grades, Excellent);
    Distribution(Count(grades, Failing), Count(grades, Regular), Count(grades, Excellent))
  }

  /** Every score lies in exactly one bucket. */
  lemma BucketsDisjoint(g: Grade)
    ensures Failing(g) || Regular(g) || Excellent(g)
    ensures !(Failing(g) && Regular(g)) && !(Failing(g) && Excellent(g)) && !(Regular(g) && Excellent(g))
  {
  }

  /** So the three bars together count every grade once. */
  lemma {:induction false} BucketsTotal(grades: seq<Grade>)
    ensures Buckets(grades).failing + Buckets(grades).regular + Buckets(grades).excellent == |grades|
  {
    CountsPartition(grades);
  }

  lemma {:induction false} CountsPartition(grades: seq<Grade>)
    ensures Count(grades, Failing) + Count(grades, Regular) + Count(grades, Excellent) == |grades|
  {
    if |grades| > 0 {
      CountsPartition(grades[1..]);
      BucketsDisjoint(grades[0]);
    }
  }

  /** The new-grade form. */
  datatype GradeForm = GradeForm(studentId: string, subject: string, score: real, description: string, date: string)

  /** The form as first shown and after each submit: no student, the first subject, score 0, dated today. */
  function BlankForm(nowIso: string): (f: GradeForm)
    ensures f.studentId == "" && f.subject == "Teoría del Derecho" && f.score == 0.0
    ensures f.description == "" && f.date == DatePart(nowIso)
  {
    GradeForm("", "Teoría del Derecho", 0.0, "", DatePart(nowIso))
  }

  /**
   * `handleSubmit`: with no student chosen nothing is recorded and the form
   * stays; otherwise the grade is the form's fields under a fresh id, and the
   * form goes back to blank.
   */
  function Submit(form: GradeForm, id: string, nowIso: string): (r: (Option<Grade>, GradeForm))
    ensures form.studentId == "" <==> r.0.None?
    ensures r.0.None? ==> r.1 == form
    ensures r.0.Some? ==>
      r.0.value.id == id && r.0.value.studentId == form.studentId &&
      r.0.value.subject == form.subject && r.0.value.score == form.score &&
      r.0.value.date == form.date && r.0.value.description == form.description &&
      r.1 == BlankForm(nowIso)
  {
    if form.studentId == "" then (None, form)
    else (Some(Grade(id, form.studentId, form.subject, form.score, form.date, form.description)), BlankForm(nowIso))
  }

  /** The green result badge. */
  predicate Passing(g: Grade) { g.score >= 6.0 }

  /** A passing grade is exactly one outside the failing bucket. */
  lemma PassingNotFailing(g: Grade)
    ensures Passing(g) <==> !Failing(g)
    ensures Passing(g) <==> Regular(g) || Excellent(g)
  {
  }

  /**
   * The lock icon and payment badge: the first student with the grade's id is
   * blocked. A grade of an unknown student, or of one without a financial
   * record, shows as not blocked.
   */
  function RowBlocked(students: seq<Student>, g: Grade): (b: bool)
    ensures b ==> exists i :: 0 <= i < |students| && students[i].id == g.studentId &&
                              FinanceManagement.IsBlocked(students[i])
    ensures (forall i :: 0 <= i < |students| ==> students[i].id != g.studentId) ==> !b
  {
    match Find(students, (s: Student) => s.id == g.studentId)
    case None => false
    case Some(s) => FinanceManagement.IsBlocked(s)
  }

  /** It is the status of the first student with that id, even if a later one differs. */
  lemma RowBlockedFirst(students: seq<Student>, g: Grade, i: nat)
    requires i < |students| && students[i].id == g.studentId
    requires forall j :: 0 <= j < i ==> students[j].id != g.studentId
    ensures RowBlocked(students, g) == FinanceManagement.IsBlocked(students[i])
  {
    FindIndexIs(students, (s: Student) => s.id == g.studentId, i);
  }
}
