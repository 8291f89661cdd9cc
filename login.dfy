/**
 * Sign-in (components/Login.tsx): the typed email is lower-cased and trimmed,
 * the password is taken as typed, and three kinds of account are tried in a
 * fixed order: the administrator pair, then students (password = enrolment
 * id), then teachers (password = employee id).
 */
module Login {
  import opened Types
  import opened Seqs
  import opened Text

  /** The administrator's email and password, a fixed pair in the component. */
  datatype Credentials = Credentials(email: string, password: string)

  /**
   * What one submit ends in: a role selected (with the student id for a
   * student), the error message, or the exception thrown by looking up a
   * teacher in a list that was never passed.
   */
  datatype Outcome =
    | SignedIn(role: Role, studentId: Option<string>)
    | Rejected
    | Crash

  /** `emailLower` */
  function NormalEmail(email: string): string
  {
    Trim(ToLower(email))
  }

  predicate IsAdmin(email: string, password: string, admin: Credentials)
  {
    NormalEmail(email) == admin.email && password == admin.password
  }

  /** The first student whose lower-cased email is the typed one. */
  function StudentFor(email: string, students: seq<Student>): Option<Student>
  {
    Find(students, (s: Student) => ToLower(s.email) == NormalEmail(email))
  }

  /** The first teacher whose lower-cased email is the typed one. */
  function TeacherFor(email: string, teachers: seq<Teacher>): Option<Teacher>
  {
    Find(teachers, (t: Teacher) => ToLower(t.email) == NormalEmail(email))
  }

  /**
   * `handleSubmit`, with the teacher list as the component receives it:
   * `None` when the parent passes no `teachers` prop.
   */
  function Submit(email: string, password: string, students: seq<Student>,
                  teachers: Option<seq<Teacher>>, admin: Credentials): (r: Outcome)
    ensures IsAdmin(email, password, admin) <==> r == SignedIn(ControlEscolar, None)
    ensures r.SignedIn? && r.role == Alumno ==>
      !IsAdmin(email, password, admin) && StudentFor(email, students).Some? &&
      r.studentId == Some(StudentFor(email, students).value.id) && password == StudentFor(email, students).value.id
    ensures r.SignedIn? ==> r.role in {ControlEscolar, Alumno, Maestro}
    ensures r.SignedIn? && r.role == Maestro ==>
      teachers.Some? && TeacherFor(email, teachers.value).Some? && password == TeacherFor(email, teachers.value).value.id &&
      r.studentId.None?
    ensures r == Crash <==>
      !IsAdmin(email, password, admin) &&
      !(StudentFor(email, students).Some? && password == StudentFor(email, students).value.id) &&
      teachers.None?
  {
    if IsAdmin(email, password, admin) then SignedIn(ControlEscolar, None)
    else
      var student := StudentFor(email, students);
      if student.Some? && password == student.value.id then SignedIn(Alumno, Some(student.value.id))
      else if teachers.None? then Crash
      else
        var teacher := TeacherFor(email, teachers.value);
        if teacher.Some? && password == teacher.value.id then SignedIn(Maestro, None)
        else Rejected
  }

  /** With a teacher list, every submit ends in a selected role or the error, never an exception. */
  lemma SubmitWithTeachers(email: string, password: string, students: seq<Student>,
                           teachers: seq<Teacher>, admin: Credentials)
    ensures Submit(email, password, students, Some(teachers), admin) != Crash
    ensures Submit(email, password, students, Some(teachers), admin) == Rejected <==>
      !IsAdmin(email, password, admin) &&
      !(StudentFor(email, students).Some? && password == StudentFor(email, students).value.id) &&
      !(TeacherFor(email, teachers).Some? && password == TeacherFor(email, teachers).value.id)
  {
  }

  /**
   * A student signs in with their email in any case and with surrounding
   * blanks, and their enrolment id as the password, unless an earlier
   * student has the same email or the pair is the administrator's.
   */
  lemma StudentSignsIn(email: string, students: seq<Student>, teachers: Option<seq<Teacher>>,
                       admin: Credentials, i: nat)
    requires i < |students| && ToLower(students[i].email) == NormalEmail(email)
    requires forall j :: 0 <= j < i ==> ToLower(students[j].email) != NormalEmail(email)
    requires !IsAdmin(email, students[i].id, admin)
    ensures Submit(email, students[i].id, students, teachers, admin) == SignedIn(Alumno, Some(students[i].id))
  {
    FindIndexIs(students, (s: Student) => ToLower(s.email) == NormalEmail(email), i);
  }

  /** A student's correct email with a wrong password falls through to the teacher accounts. */
  lemma WrongStudentPasswordFallsThrough(email: string, password: string, students: seq<Student>,
                                         teachers: seq<Teacher>, admin: Credentials)
    requires !IsAdmin(email, password, admin)
    requires StudentFor(email, students).Some? && password != StudentFor(email, students).value.id
    ensures Submit(email, password, students, Some(teachers), admin) ==
      if TeacherFor(email, teachers).Some? && password == TeacherFor(email, teachers).value.id
      then SignedIn(Maestro, None) else Rejected
  {
  }

  /** Only the normalised email matters: case and surrounding blanks change nothing. */
  lemma EmailNormalised(e1: string, e2: string, password: string, students: seq<Student>,
                        teachers: Option<seq<Teacher>>, admin: Credentials)
    requires NormalEmail(e1) == NormalEmail(e2)
    ensures Submit(e1, password, students, teachers, admin) == Submit(e2, password, students, teachers, admin)
  {
    assert StudentFor(e1, students) == StudentFor(e2, students);
    if teachers.Some? {
      assert TeacherFor(e1, teachers.value) == TeacherFor(e2, teachers.value);
    }
  }
}
