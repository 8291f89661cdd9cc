/**
 * The records of the school-administration dashboard (types.ts), as values.
 * Optional fields (`profile?`, `financialStatus?`, ...) are `Option`s, so that
 * "no profile recorded" and "profile recorded as stable" stay distinct.
 */
module Types {

  datatype Option<T> = None | Some(value: T)

  datatype Role = ControlEscolar | Coordinador | Maestro | Alumno

  datatype Style = Visual | Auditivo | Kinestesico
  datatype Intelligence = Linguistica | LogicoMatematica | EspacialCreativa
  datatype Temperament = ReflexivoEstable | EmocionalExpresivo | ImpulsivoAdaptable
  /** 'Estable' | 'Atención Preventiva' | 'Alerta (Carga Alta)' */
  datatype Wellbeing = Estable | AtencionPreventiva | AlertaCargaAlta

  datatype LearningProfile = LearningProfile(
    style: Style,
    intelligence: Intelligence,
    temperament: Temperament,
    wellbeing: Wellbeing,
    completedAt: string)

  /** 'En línea' | 'Escolarizado' | 'Ejecutivo' */
  datatype Modality = EnLinea | Escolarizado | Ejecutivo

  datatype DocumentStatus = DocumentStatus(name: string, isUploaded: bool, isVerified: bool)

  datatype FinancialStatus = FinancialStatus(
    hasScholarship: bool,
    scholarshipPercentage: Option<real>,
    hasDebt: bool,
    debtAmount: real,
    isBlocked: bool,
    lastPaymentDate: Option<string>)

  datatype Student = Student(
    id: string,
    name: string,
    email: string,
    tutorEmail: string,
    group: string,
    career: string,
    modality: Modality,
    profile: Option<LearningProfile>,
    financialStatus: Option<FinancialStatus>,
    documents: Option<seq<DocumentStatus>>)

  datatype Subject = Subject(id: string, name: string, credits: int, career: string, term: int)

  datatype Day = Lunes | Martes | Miercoles | Jueves | Viernes | Sabado

  datatype Schedule = Schedule(subjectId: string, teacherId: string, day: Day, time: string, room: string)

  /** The category is kept as text: a stored announcement may carry any label. */
  datatype Announcement = Announcement(
    id: string,
    title: string,
    content: string,
    category: string,
    targetRoles: seq<Role>,
    date: string,
    pdfData: Option<string>,
    pdfName: Option<string>)

  datatype ExamQuestion = ExamQuestion(id: string, text: string, options: seq<string>, correctAnswer: int)

  datatype ExamStatus = Draft | Published

  datatype Exam = Exam(
    id: string,
    title: string,
    subject: string,
    career: string,
    questions: seq<ExamQuestion>,
    status: ExamStatus,
    createdAt: string)

  /** The seed data and the login screen give teachers an email as well. */
  datatype Teacher = Teacher(id: string, name: string, email: string, subject: string, department: string)

  datatype AttendanceStatus = Present | Absent | Late

  datatype AttendanceRecord = AttendanceRecord(studentId: string, date: string, status: AttendanceStatus)

  datatype Grade = Grade(id: string, studentId: string, subject: string, score: real, date: string, description: string)

  /** Star ratings, 1 to 5 when entered through the evaluation form. */
  datatype Scores = Scores(clarity: int, material: int, punctuality: int, support: int)

  datatype TeacherEvaluation = TeacherEvaluation(
    id: string,
    teacherId: string,
    studentId: string,
    date: string,
    period: string,
    scores: Scores,
    comment: string)

  datatype AutomationSettings = AutomationSettings(webhookUrl: string, threshold: int, enabled: bool)

  datatype AppState = AppState(
    currentUserRole: Role,
    currentUserId: Option<string>,
    students: seq<Student>,
    teachers: seq<Teacher>,
    subjects: seq<Subject>,
    schedules: seq<Schedule>,
    announcements: seq<Announcement>,
    attendance: seq<AttendanceRecord>,
    grades: seq<Grade>,
    exams: seq<Exam>,
    teacherEvaluations: seq<TeacherEvaluation>,
    automation: AutomationSettings,
    userProfile: Option<LearningProfile>)
}
