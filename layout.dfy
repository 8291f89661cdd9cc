/**
 * The shell around every screen (components/Layout.tsx): the table of
 * navigation entries with the roles allowed to see each, the sidebar that
 * keeps the entries of the signed-in role, and the caption of each role.
 */
module Layout {
  import opened Types
  import opened Seqs

  /** The screens the sidebar can open. */
  datatype Tab =
    | DashboardTab | AnnouncementsTab | StudentPortalTab | AcademicTab | StudentsTab | AttendanceTab
    | ExamsTab | GradesTab | FinancesTab | TeacherEvalTab | RiskTab | InsightsTab | ExportTab

  /** The id a sidebar entry sets `activeTab` to. */
  function TabId(t: Tab): string
  {
    match t
    case DashboardTab => "dashboard"
    case AnnouncementsTab => "announcements"
    case StudentPortalTab => "student-portal"
    case AcademicTab => "academic-mgmt"
    case StudentsTab => "students"
    case AttendanceTab => "attendance"
    case ExamsTab => "exams"
    case GradesTab => "grades"
    case FinancesTab => "finances"
    case TeacherEvalTab => "teacher-eval"
    case RiskTab => "risk-analysis"
    case InsightsTab => "ai-insights"
    case ExportTab => "export"
  }

  /** The entry's text in the sidebar. */
  function Caption(t: Tab): string
  {
    match t
    case DashboardTab => "Dashboard Institucional"
    case AnnouncementsTab => "Comunicados"
    case StudentPortalTab => "Expediente Alumno"
    case AcademicTab => "Oferta Académica"
    case StudentsTab => "Censo Estudiantil"
    case AttendanceTab => "Asistencia"
    case ExamsTab => "Evaluaciones Digitales"
    case GradesTab => "Calificaciones RVOE"
    case FinancesTab => "Control Financiero"
    case TeacherEvalTab => "Calidad Docente"
    case RiskTab => "Análisis de Retención"
    case InsightsTab => "Inteligencia de Datos"
    case ExportTab => "Exportación de Datos"
  }

  /** The roles column of `allItems`: who may open each screen. */
  function Roles(t: Tab): seq<Role>
  {
    match t
    case DashboardTab => [ControlEscolar, Coordinador]
    case AnnouncementsTab => [Alumno, Maestro, ControlEscolar, Coordinador]
    case StudentPortalTab => [Alumno]
    case AcademicTab => [ControlEscolar, Coordinador]
    case StudentsTab => [ControlEscolar, Coordinador]
    case AttendanceTab => [ControlEscolar, Maestro]
    case ExamsTab => [ControlEscolar, Maestro, Alumno]
    case GradesTab => [ControlEscolar, Maestro]
    case FinancesTab => [ControlEscolar]
    case TeacherEvalTab => [ControlEscolar, Coordinador, Alumno]
    case RiskTab => [ControlEscolar, Coordinador]
    case InsightsTab => [ControlEscolar, Maestro, Coordinador]
    case ExportTab => [ControlEscolar, Coordinador]
  }

  /** The rows of `allItems`, in sidebar order. */
  const AllItems: seq<Tab> := [
    DashboardTab, AnnouncementsTab, StudentPortalTab, AcademicTab, StudentsTab, AttendanceTab,
    ExamsTab, GradesTab, FinancesTab, TeacherEvalTab, RiskTab, InsightsTab, ExportTab
  ]

  /** The test `navItems` applies to each entry: its roles include the signed-in role. */
  function OpenTo(role: Role): Tab -> bool
  {
    (t: Tab) => role in Roles(t)
  }

  /** `navItems`: the entries open to the signed-in role. */
  function NavItems(role: Role): seq<Tab>
  {
    Filter(AllItems, OpenTo(role))
  }

  /** The sidebar shows exactly the entries open to the role... */
  lemma NavItemsMember(role: Role, t: Tab)
    ensures t in NavItems(role) <==> role in Roles(t)
  {
    FilterMember(AllItems, OpenTo(role), t);
  }

  /** ... in table order. */
  lemma NavItemsOrder(role: Role)
    ensures IsSubsequence(NavItems(role), AllItems)
  {
    FilterIsSubsequence(AllItems, OpenTo(role));
  }

  /** Every screen has its row in the table, once. */
  lemma AllItemsComplete(t: Tab)
    ensures t in AllItems
    ensures forall i, j :: 0 <= i < j < |AllItems| ==> AllItems[i] != AllItems[j]
  {
  }

  /** The student's entries among the first three rows of the table... */
  lemma AlumnoRows1()
    ensures Filter([DashboardTab, AnnouncementsTab, StudentPortalTab], OpenTo(Alumno)) ==
            [AnnouncementsTab, StudentPortalTab]
  {
    var p := OpenTo(Alumno);
    assert !p(DashboardTab) && p(AnnouncementsTab) && p(StudentPortalTab);
    FilterCons(StudentPortalTab, [], p);
    FilterCons(AnnouncementsTab, [StudentPortalTab], p);
    FilterCons(DashboardTab, [AnnouncementsTab, StudentPortalTab], p);
  }

  /** ... the next three ... */
  lemma AlumnoRows2()
    ensures Filter([AcademicTab, StudentsTab, AttendanceTab], OpenTo(Alumno)) == []
  {
    var p := OpenTo(Alumno);
    assert !p(AcademicTab) && !p(StudentsTab) && !p(AttendanceTab);
    FilterCons(AttendanceTab, [], p);
    FilterCons(StudentsTab, [AttendanceTab], p);
    FilterCons(AcademicTab, [StudentsTab, AttendanceTab], p);
  }

  /** ... the next three ... */
  lemma AlumnoRows3()
    ensures Filter([ExamsTab, GradesTab, FinancesTab], OpenTo(Alumno)) == [ExamsTab]
  {
    var p := OpenTo(Alumno);
    assert p(ExamsTab) && !p(GradesTab) && !p(FinancesTab);
    FilterCons(FinancesTab, [], p);
    FilterCons(GradesTab, [FinancesTab], p);
    FilterCons(ExamsTab, [GradesTab, FinancesTab], p);
  }

  /** ... and the last four. */
  lemma AlumnoRows4()
    ensures Filter([TeacherEvalTab, RiskTab, InsightsTab, ExportTab], OpenTo(Alumno)) == [TeacherEvalTab]
  {
    var p := OpenTo(Alumno);
    assert p(TeacherEvalTab) && !p(RiskTab) && !p(InsightsTab) && !p(ExportTab);
    FilterCons(ExportTab, [], p);
    FilterCons(InsightsTab, [ExportTab], p);
    FilterCons(RiskTab, [InsightsTab, ExportTab], p);
    FilterCons(TeacherEvalTab, [RiskTab, InsightsTab, ExportTab], p);
  }

  /** A student's sidebar: notices, their record, exams and the teacher survey, in that order. */
  lemma AlumnoSidebar()
    ensures NavItems(Alumno) == [AnnouncementsTab, StudentPortalTab, ExamsTab, TeacherEvalTab]
  {
    var p := OpenTo(Alumno);
    var a := [DashboardTab, AnnouncementsTab, StudentPortalTab];
    var b := [AcademicTab, StudentsTab, AttendanceTab];
    var c := [ExamsTab, GradesTab, FinancesTab];
    var d := [TeacherEvalTab, RiskTab, InsightsTab, ExportTab];
    assert Filter(a + b, p) == [AnnouncementsTab, StudentPortalTab] by {
      FilterConcat(a, b, p);
      AlumnoRows1();
      AlumnoRows2();
    }
    assert Filter((a + b) + c, p) == [AnnouncementsTab, StudentPortalTab, ExamsTab] by {
      FilterConcat(a + b, c, p);
      AlumnoRows3();
    }
    assert Filter(((a + b) + c) + d, p) == [AnnouncementsTab, StudentPortalTab, ExamsTab, TeacherEvalTab] by {
      FilterConcat((a + b) + c, d, p);
      AlumnoRows4();
    }
    assert AllItems == ((a + b) + c) + d;
  }

  /** Finances is open only to control escolar... */
  lemma FinancesOnlyForControl(role: Role)
    ensures FinancesTab in NavItems(role) <==> role == ControlEscolar
  {
    var open := role in Roles(FinancesTab);
    assert open <==> role == ControlEscolar by {
      assert Roles(FinancesTab) == [ControlEscolar];
    }
    NavItemsMember(role, FinancesTab);
  }

  /** ... the student record only to students... */
  lemma StudentPortalOnlyForAlumno(role: Role)
    ensures StudentPortalTab in NavItems(role) <==> role == Alumno
  {
    assert Roles(StudentPortalTab) == [Alumno];
    NavItemsMember(role, StudentPortalTab);
  }

  /** ... and the notices to everyone. */
  lemma AnnouncementsForAll(role: Role)
    ensures AnnouncementsTab in NavItems(role)
  {
    NavItemsMember(role, AnnouncementsTab);
    assert role in Roles(AnnouncementsTab);
  }

  /** `roleLabels`: the caption under the user's name, one per role. */
  function RoleLabel(role: Role): (text: string)
    ensures text != ""
  {
    match role
    case ControlEscolar => "Dirección General"
    case Coordinador => "Coordinación"
    case Maestro => "Docente Académico"
    case Alumno => "Portal de Estudiante"
  }

  /** Every role has its own caption. */
  lemma RoleLabelsDistinct(r1: Role, r2: Role)
    ensures RoleLabel(r1) == RoleLabel(r2) ==> r1 == r2
  {
    if r1 != r2 {
      var l1, l2 := RoleLabel(r1), RoleLabel(r2);
      assert l1[0] != l2[0] || l1[1] != l2[1] || |l1| != |l2|;
    }
  }
}
