/**
 * The application shell (App.tsx): the three cells it keeps (whether someone
 * is signed in, the open tab, the whole application state), the sign-in and
 * sign-out handlers, the per-collection updates the screens hand back, and
 * the choice of screen for the open tab.
 */
module App {
  import opened Types
  import opened Seqs
  import opened Text
  import Login
  import Layout
  import StudentPortal
  import AttendanceTracker

  /** A change a screen asks for through its callback. */
  datatype Action =
    | AddStudent(student: Student)
    | RemoveStudent(studentId: string)
    | SaveAttendance(batch: seq<AttendanceRecord>)
    | AddExam(exam: Exam)
    | RemoveExam(examId: string)
    | AddGrade(grade: Grade)
    | RemoveGrade(gradeId: string)
    | UpdateStudent(student: Student)
    | AddEvaluation(evaluation: TeacherEvaluation)

  /** `onAddStudent`: the new student goes last; nothing else changes. */
  function WithStudent(st: AppState, s: Student): (r: AppState)
    ensures r.students == st.students + [s]
    ensures r.(students := st.students) == st
  {
    st.(students := st.students + [s])
  }

  /** `onRemoveStudent`: every student with that id leaves. */
  function WithoutStudent(st: AppState, id: string): (r: AppState)
    ensures |r.students| <= |st.students|
    ensures forall i :: 0 <= i < |r.students| ==> r.students[i].id != id
    ensures r.(students := st.students) == st
  {
    st.(students := Filter(st.students, (s: Student) => s.id != id))
  }

  /** Removal deletes exactly the students with that id and keeps the others in order. */
  lemma WithoutStudentSpec(st: AppState, id: string, s: Student)
    ensures s in WithoutStudent(st, id).students <==> s in st.students && s.id != id
    ensures IsSubsequence(WithoutStudent(st, id).students, st.students)
  {
    FilterMember(st.students, (s: Student) => s.id != id, s);
    FilterIsSubsequence(st.students, (s: Student) => s.id != id);
  }

  /** Removing a student just added is removing that id from the list as it was. */
  lemma AddThenRemoveStudent(st: AppState, s: Student)
    ensures WithoutStudent(WithStudent(st, s), s.id) == WithoutStudent(st, s.id)
  {
    var keep := (x: Student) => x.id != s.id;
    FilterConcat(st.students, [s], keep);
    assert Filter([s], keep) == [];
  }

  /** `onSaveAttendance`: the batch goes after the stored records, with no de-duplication. */
  function WithAttendance(st: AppState, batch: seq<AttendanceRecord>): (r: AppState)
    ensures |r.attendance| == |st.attendance| + |batch|
    ensures r.attendance[..|st.attendance|] == st.attendance && r.attendance[|st.attendance|..] == batch
    ensures r.(attendance := st.attendance) == st
  {
    st.(attendance := st.attendance + batch)
  }

  /**
   * Saving the same earlier absence twice stores it twice, and a later alert
   * counts it twice.
   */
  lemma SavedTwiceCountsTwice(st: AppState, earlier: AttendanceRecord, date: string)
    requires earlier.status == Absent && earlier.date != date
    ensures AttendanceTracker.AbsenceCount(earlier.studentId,
              WithAttendance(WithAttendance(st, [earlier]), [earlier]).attendance, date) ==
            AttendanceTracker.AbsenceCount(earlier.studentId, st.attendance, date) + 2
  {
    AttendanceTracker.DuplicateSaveCountsTwice(st.attendance, earlier, date);
  }

  /** `onAddExam`: the new exam goes first. */
  function WithExam(st: AppState, e: Exam): (r: AppState)
    ensures |r.exams| == |st.exams| + 1 && r.exams[0] == e && r.exams[1..] == st.exams
    ensures r.(exams := st.exams) == st
  {
    st.(exams := [e] + st.exams)
  }

  /** `onRemoveExam`: every exam with that id leaves. */
  function WithoutExam(st: AppState, id: string): (r: AppState)
    ensures forall i :: 0 <= i < |r.exams| ==> r.exams[i].id != id
    ensures r.(exams := st.exams) == st
  {
    st.(exams := Filter(st.exams, (e: Exam) => e.id != id))
  }

  /** Removal deletes exactly the exams with that id and keeps the others in order. */
  lemma WithoutExamSpec(st: AppState, id: string, e: Exam)
    ensures e in WithoutExam(st, id).exams <==> e in st.exams && e.id != id
    ensures IsSubsequence(WithoutExam(st, id).exams, st.exams)
  {
    FilterMember(st.exams, (e: Exam) => e.id != id, e);
    FilterIsSubsequence(st.exams, (e: Exam) => e.id != id);
  }

  /** Publishing an exam under a fresh id and deleting it again restores the list. */
  lemma AddThenRemoveExam(st: AppState, e: Exam)
    requires forall i :: 0 <= i < |st.exams| ==> st.exams[i].id != e.id
    ensures WithoutExam(WithExam(st, e), e.id) == st
  {
    var keep := (x: Exam) => x.id != e.id;
    FilterAll(st.exams, keep);
    assert [e] + st.exams == [e] + st.exams;
    assert Filter([e] + st.exams, keep) == Filter(st.exams, keep) by {
      assert ([e] + st.exams)[0] == e && ([e] + st.exams)[1..] == st.exams;
    }
  }

  /** `onAddGrade`: the new grade goes first. */
  function WithGrade(st: AppState, g: Grade): (r: AppState)
    ensures |r.grades| == |st.grades| + 1 && r.grades[0] == g && r.grades[1..] == st.grades
    ensures r.(grades := st.grades) == st
  {
    st.(grades := [g] + st.grades)
  }

  /** `onRemoveGrade`: every grade with that id leaves. */
  function WithoutGrade(st: AppState, id: string): (r: AppState)
    ensures forall i :: 0 <= i < |r.grades| ==> r.grades[i].id != id
    ensures r.(grades := st.grades) == st
  {
    st.(grades := Filter(st.grades, (g: Grade) => g.id != id))
  }

  /** Removal deletes exactly the grades with that id and keeps the others in order. */
  lemma WithoutGradeSpec(st: AppState, id: string, g: Grade)
    ensures g in WithoutGrade(st, id).grades <==> g in st.grades && g.id != id
    ensures IsSubsequence(WithoutGrade(st, id).grades, st.grades)
  {
    FilterMember(st.grades, (g: Grade) => g.id != id, g);
    FilterIsSubsequence(st.grades, (g: Grade) => g.id != id);
  }

  /** Recording a grade under a fresh id and deleting it again restores the list. */
  lemma AddThenRemoveGrade(st: AppState, g: Grade)
    requires forall i :: 0 <= i < |st.grades| ==> st.grades[i].id != g.id
    ensures WithoutGrade(WithGrade(st, g), g.id) == st
  {
    var keep := (x: Grade) => x.id != g.id;
    FilterAll(st.grades, keep);
    assert Filter([g] + st.grades, keep) == Filter(st.grades, keep) by {
      assert ([g] + st.grades)[0] == g && ([g] + st.grades)[1..] == st.grades;
    }
  }

  /** The replacement `onUpdateStudent` makes at one position. */
  function Replace(s: Student): Student -> Student
  {
    (st: Student) => if st.id == s.id then s else st
  }

  /** `onUpdateStudent`: every student with the updated student's id is replaced by it. */
  function WithUpdatedStudent(st: AppState, s: Student): (r: AppState)
    ensures r.(students := st.students) == st
    ensures |r.students| == |st.students|
  {
    st.(students := Map(st.students, Replace(s)))
  }

  /**
   * The list keeps its length; entries with the id become the new record and
   * the others are untouched; an id no student has changes nothing; doing the
   * same update twice is doing it once.
   */
  lemma WithUpdatedStudentSpec(st: AppState, s: Student)
    ensures forall i :: 0 <= i < |st.students| ==>
      WithUpdatedStudent(st, s).students[i] == (if st.students[i].id == s.id then s else st.students[i])
    ensures (forall i :: 0 <= i < |st.students| ==> st.students[i].id != s.id) ==> WithUpdatedStudent(st, s) == st
    ensures WithUpdatedStudent(WithUpdatedStudent(st, s), s) == WithUpdatedStudent(st, s)
  {
    var once := WithUpdatedStudent(st, s);
    if forall i :: 0 <= i < |st.students| ==> st.students[i].id != s.id {
      assert once.students == st.students;
    }
    assert WithUpdatedStudent(once, s).students == once.students;
  }

  /** `onAddEvaluation`: the new evaluation goes last. */
  function WithEvaluation(st: AppState, e: TeacherEvaluation): (r: AppState)
    ensures r.teacherEvaluations == st.teacherEvaluations + [e]
    ensures r.(teacherEvaluations := st.teacherEvaluations) == st
  {
    st.(teacherEvaluations := st.teacherEvaluations + [e])
  }

  /** The new state a callback sets. */
  function Apply(st: AppState, a: Action): AppState
  {
    match a
    case AddStudent(s) => WithStudent(st, s)
    case RemoveStudent(id) => WithoutStudent(st, id)
    case SaveAttendance(batch) => WithAttendance(st, batch)
    case AddExam(e) => WithExam(st, e)
    case RemoveExam(id) => WithoutExam(st, id)
    case AddGrade(g) => WithGrade(st, g)
    case RemoveGrade(id) => WithoutGrade(st, id)
    case UpdateStudent(s) => WithUpdatedStudent(st, s)
    case AddEvaluation(e) => WithEvaluation(st, e)
  }

  /** No callback touches the session fields: the role and the signed-in id stay as they are. */
  lemma ApplyKeepsSession(st: AppState, a: Action)
    ensures Apply(st, a).currentUserRole == st.currentUserRole
    ensures Apply(st, a).currentUserId == st.currentUserId
    ensures Apply(st, a).automation == st.automation && Apply(st, a).teachers == st.teachers
  {
  }

  /**
   * The screen `renderContent` draws for the open tab, as written: one case
   * per id, and the dashboard for every other id. There is no case for
   * `'announcements'`.
   */
  function ScreenAsWritten(activeTab: string): Layout.Tab
  {
    if activeTab == "dashboard" then Layout.DashboardTab
    else if activeTab == "student-portal" then Layout.StudentPortalTab
    else if activeTab == "academic-mgmt" then Layout.AcademicTab
    else if activeTab == "students" then Layout.StudentsTab
    else if activeTab == "attendance" then Layout.AttendanceTab
    else if activeTab == "exams" then Layout.ExamsTab
    else if activeTab == "grades" then Layout.GradesTab
    else if activeTab == "finances" then Layout.FinancesTab
    else if activeTab == "risk-analysis" then Layout.RiskTab
    else if activeTab == "ai-insights" then Layout.InsightsTab
    else if activeTab == "teacher-eval" then Layout.TeacherEvalTab
    else if activeTab == "export" then Layout.ExportTab
    else Layout.DashboardTab
  }

  /**
   * The sidebar offers every role the notices entry, but as written it opens
   * the institutional dashboard, which is not in a student's sidebar.
   */
  lemma AnnouncementsOpensDashboard()
    ensures Layout.AnnouncementsTab in Layout.NavItems(Alumno)
    ensures ScreenAsWritten(Layout.TabId(Layout.AnnouncementsTab)) == Layout.DashboardTab
    ensures Layout.DashboardTab !in Layout.NavItems(Alumno)
  {
    assert Layout.AnnouncementsTab in Layout.NavItems(Alumno) && Layout.DashboardTab !in Layout.NavItems(Alumno) by {
      Layout.AlumnoSidebar();
    }
    AnnouncementsAsWritten();
  }

  /** The notices id reaches the switch's default case. */
  lemma AnnouncementsAsWritten()
    ensures ScreenAsWritten(Layout.TabId(Layout.AnnouncementsTab)) == Layout.DashboardTab
  {
  }

  /** The screen for the open tab with the notices case added: every sidebar entry opens its own screen. */
  function Screen(activeTab: string): Layout.Tab
  {
    if activeTab == "announcements" then Layout.AnnouncementsTab else ScreenAsWritten(activeTab)
  }

  /** Each entry of the table opens the screen it names. */
  lemma ScreenOfTab(t: Layout.Tab)
    ensures Screen(Layout.TabId(t)) == t
  {
  }

  /** Apart from the notices, the switch as written already opens the right screen. */
  lemma ScreenAsWrittenAgrees(t: Layout.Tab)
    requires t != Layout.AnnouncementsTab
    ensures ScreenAsWritten(Layout.TabId(t)) == t
  {
  }

  /** An id that names no entry shows the dashboard. */
  lemma UnknownTabShowsDashboard(activeTab: string)
    requires forall t :: activeTab != Layout.TabId(t)
    ensures Screen(activeTab) == Layout.DashboardTab
    ensures ScreenAsWritten(activeTab) == Layout.DashboardTab
  {
    assert activeTab != Layout.TabId(Layout.AnnouncementsTab);
    assert activeTab != Layout.TabId(Layout.DashboardTab);
    assert activeTab != Layout.TabId(Layout.StudentPortalTab);
    assert activeTab != Layout.TabId(Layout.AcademicTab);
    assert activeTab != Layout.TabId(Layout.StudentsTab);
    assert activeTab != Layout.TabId(Layout.AttendanceTab);
    assert activeTab != Layout.TabId(Layout.ExamsTab);
    assert activeTab != Layout.TabId(Layout.GradesTab);
    assert activeTab != Layout.TabId(Layout.FinancesTab);
    assert activeTab != Layout.TabId(Layout.RiskTab);
    assert activeTab != Layout.TabId(Layout.InsightsTab);
    assert activeTab != Layout.TabId(Layout.TeacherEvalTab);
    assert activeTab != Layout.TabId(Layout.ExportTab);
  }

  /** The sign-in as written: the login screen receives no teacher list. */
  function LoginOutcomeAsWritten(st: AppState, email: string, password: string, admin: Login.Credentials): Login.Outcome
  {
    Login.Submit(email, password, st.students, None, admin)
  }

  /** The sign-in with the stored teachers handed to the login screen. */
  function LoginOutcome(st: AppState, email: string, password: string, admin: Login.Credentials): (r: Login.Outcome)
    ensures r != Login.Crash
  {
    Login.SubmitWithTeachers(email, password, st.students, st.teachers, admin);
    Login.Submit(email, password, st.students, Some(st.teachers), admin)
  }

  /**
   * A teacher typing their own email and id, with no student matching, makes
   * the screen as written throw; with the teacher list handed over they sign
   * in as a teacher.
   */
  lemma TeacherLoginCrashesAsWritten(st: AppState, email: string, admin: Login.Credentials, i: nat)
    requires i < |st.teachers| && ToLower(st.teachers[i].email) == Login.NormalEmail(email)
    requires forall j :: 0 <= j < i ==> ToLower(st.teachers[j].email) != Login.NormalEmail(email)
    requires !Login.IsAdmin(email, st.teachers[i].id, admin)
    requires Login.StudentFor(email, st.students).None?
    ensures LoginOutcomeAsWritten(st, email, st.teachers[i].id, admin) == Login.Crash
    ensures LoginOutcome(st, email, st.teachers[i].id, admin) == Login.SignedIn(Maestro, None)
  {
    FindIndexIs(st.teachers, (t: Teacher) => ToLower(t.email) == Login.NormalEmail(email), i);
  }

  /** The application's cells. */
  class Shell {
    var isLoggedIn: bool
    var activeTab: string
    var state: AppState

    /** Signed out, on the dashboard tab, with the stored or seed state. */
    constructor(initial: AppState)
      ensures !isLoggedIn && activeTab == Layout.TabId(Layout.DashboardTab) && state == initial
    {
      isLoggedIn := false;
      activeTab := "dashboard";
      state := initial;
    }

    /** `handleLogin`: record the role and id, sign in, and open the role's landing tab. */
    method HandleLogin(role: Role, studentId: Option<string>)
      modifies this
      ensures state == old(state).(currentUserRole := role, currentUserId := studentId)
      ensures isLoggedIn
      ensures activeTab == (if role == Alumno then Layout.TabId(Layout.StudentPortalTab) else Layout.TabId(Layout.DashboardTab))
    {
      state := state.(currentUserRole := role, currentUserId := studentId);
      isLoggedIn := true;
      activeTab := if role == Alumno then "student-portal" else "dashboard";
    }

    /** `handleLogout`: sign out only; the tab and the state are kept. */
    method HandleLogout()
      modifies this
      ensures !isLoggedIn && activeTab == old(activeTab) && state == old(state)
    {
      isLoggedIn := false;
    }

    /** `setActiveTab`, as the sidebar calls it. */
    method SetActiveTab(tab: string)
      modifies this
      ensures activeTab == tab && isLoggedIn == old(isLoggedIn) && state == old(state)
    {
      activeTab := tab;
    }

    /** A screen's callback: the state becomes the updated one; nothing else changes. */
    method Dispatch(a: Action)
      modifies this
      ensures state == Apply(old(state), a)
      ensures isLoggedIn == old(isLoggedIn) && activeTab == old(activeTab)
    {
      state := Apply(state, a);
    }

    /**
     * A submit on the login screen, with the teacher list handed over: a
     * selected role signs in through `HandleLogin`; the error leaves
     * everything as it was.
     */
    method SubmitLogin(email: string, password: string, admin: Login.Credentials) returns (outcome: Login.Outcome)
      modifies this
      ensures outcome == LoginOutcome(old(state), email, password, admin) && outcome != Login.Crash
      ensures outcome.SignedIn? ==>
        isLoggedIn &&
        state == old(state).(currentUserRole := outcome.role, currentUserId := outcome.studentId) &&
        activeTab == (if outcome.role == Alumno then Layout.TabId(Layout.StudentPortalTab) else Layout.TabId(Layout.DashboardTab))
      ensures outcome.Rejected? ==>
        isLoggedIn == old(isLoggedIn) && activeTab == old(activeTab) && state == old(state)
    {
      outcome := LoginOutcome(state, email, password, admin);
      if outcome.SignedIn? {
        HandleLogin(outcome.role, outcome.studentId);
      }
    }
  }

  /**
   * A student who signs in lands on a portal that finds their record: the id
   * stored at sign-in is that of a student on the roll.
   */
  lemma StudentLoginFindsRecord(st: AppState, email: string, password: string, admin: Login.Credentials)
    requires LoginOutcome(st, email, password, admin).SignedIn?
    requires LoginOutcome(st, email, password, admin).role == Alumno
    ensures LoginOutcome(st, email, password, admin).studentId.Some?
    ensures StudentPortal.View(LoginOutcome(st, email, password, admin).studentId.value,
                               st.(currentUserRole := Alumno,
                                   currentUserId := LoginOutcome(st, email, password, admin).studentId)).Portal?
  {
    var s := Login.StudentFor(email, st.students);
    var k :| 0 <= k < |st.students| && st.students[k] == s.value;
  }
}
