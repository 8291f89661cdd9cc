/**
 * The enrolment roster (components/StudentList.tsx): the search box with the
 * career and modality filters, and the student record the enrolment form
 * creates.
 */
module StudentList {
  import opened Types
  import opened Seqs
  import opened Text
  import FinanceManagement

  /** The careers the form offers, in the order of its drop-down. */
  const Careers: seq<string> := [
    "Derecho",
    "Criminología y Criminalística",
    "Psicología",
    "Administración y Estrategias de Negocios",
    "Ingeniería en Logística Internacional",
    "Ingeniería Industrial",
    "Pedagogía (Ciencias de la Educación)",
    "Ingeniería en Software y Sistemas"
  ]

  /** The search term is found, ignoring case, in the name or in the group. */
  predicate MatchesSearch(s: Student, term: string)
  {
    Contains(ToLower(s.name), ToLower(term)) || Contains(ToLower(s.group), ToLower(term))
  }

  /**
   * The roster's filter. An empty career filter and a modality filter of
   * `None` (the empty option of each drop-down) let everyone through.
   */
  predicate Listed(s: Student, term: string, career: string, modality: Option<Modality>)
  {
    MatchesSearch(s, term) &&
    (career != "" ==> s.career == career) &&
    (modality.Some? ==> s.modality == modality.value)
  }

  /** `filteredStudents` */
  function Filtered(students: seq<Student>, term: string, career: string, modality: Option<Modality>): seq<Student>
  {
    Filter(students, (s: Student) => Listed(s, term, career, modality))
  }

  /** A student is listed iff the search and both active filters match, and the roster keeps its order. */
  lemma FilteredSpec(students: seq<Student>, term: string, career: string, modality: Option<Modality>, s: Student)
    ensures s in Filtered(students, term, career, modality) <==>
      s in students && MatchesSearch(s, term) &&
      (career != "" ==> s.career == career) && (modality.Some? ==> s.modality == modality.value)
    ensures IsSubsequence(Filtered(students, term, career, modality), students)
  {
    FilterMember(students, (s: Student) => Listed(s, term, career, modality), s);
    FilterIsSubsequence(students, (s: Student) => Listed(s, term, career, modality));
  }

  /** With an empty search box and no filter, everyone is listed. */
  lemma NoFilterListsAll(students: seq<Student>)
    ensures Filtered(students, "", "", None) == students
  {
    assert ToLower("") == "";
    forall i | 0 <= i < |students| ensures Listed(students[i], "", "", None) {
      ContainsEmpty(ToLower(students[i].name));
    }
    FilterAll(students, (s: Student) => Listed(s, "", "", None));
  }

  /** The case of the search term does not matter. */
  lemma SearchIgnoresCase(students: seq<Student>, term: string, career: string, modality: Option<Modality>)
    ensures Filtered(students, ToLower(term), career, modality) == Filtered(students, term, career, modality)
  {
    ToLowerIdempotent(term);
    FilterExt(students, (s: Student) => Listed(s, ToLower(term), career, modality),
              (s: Student) => Listed(s, term, career, modality));
  }

  /** The enrolment form. */
  datatype EnrolForm = EnrolForm(
    name: string,
    email: string,
    tutorEmail: string,
    group: string,
    career: string,
    modality: Modality,
    hasScholarship: bool,
    scholarshipPercentage: real,
    hasInitialDebt: bool,
    initialDebtAmount: real)

  /** The form as first shown and after each enrolment: empty, the first career, escolarizado, no money. */
  function BlankForm(): (f: EnrolForm)
    ensures f.career == Careers[0] && f.modality == Escolarizado
    ensures !f.hasScholarship && !f.hasInitialDebt && f.scholarshipPercentage == 0.0 && f.initialDebtAmount == 0.0
  {
    EnrolForm("", "", "", "", "Derecho", Escolarizado, false, 0.0, false, 0.0)
  }

  /** The two documents every new student starts with. */
  const InitialDocuments: seq<DocumentStatus> :=
    [DocumentStatus("Acta de Nacimiento", false, false), DocumentStatus("CURP", false, false)]

  /**
   * `handleSubmit`: the new student under the id `'st-' + suffix` (the random
   * part is a parameter), paid up to the day of `nowIso`; the form is then
   * cleared.
   */
  function Enrol(form: EnrolForm, suffix: string, nowIso: string): (r: (Student, EnrolForm))
    ensures StartsWith(r.0.id, "st-") && r.0.id[3..] == suffix
    ensures r.0.name == form.name && r.0.email == form.email && r.0.tutorEmail == form.tutorEmail
    ensures r.0.group == form.group && r.0.career == form.career && r.0.modality == form.modality
    ensures r.0.profile.None?
    ensures r.0.financialStatus.Some?
    ensures r.0.financialStatus.value.hasScholarship == form.hasScholarship
    ensures r.0.financialStatus.value.scholarshipPercentage ==
      Some(if form.hasScholarship then form.scholarshipPercentage else 0.0)
    ensures r.0.financialStatus.value.debtAmount == (if form.hasInitialDebt then form.initialDebtAmount else 0.0)
    ensures r.0.financialStatus.value.isBlocked == r.0.financialStatus.value.hasDebt == form.hasInitialDebt
    ensures r.0.financialStatus.value.lastPaymentDate == Some(DatePart(nowIso))
    ensures r.0.documents == Some(InitialDocuments)
    ensures r.1 == BlankForm()
  {
    var fs := FinancialStatus(
      form.hasScholarship,
      Some(if form.hasScholarship then form.scholarshipPercentage else 0.0),
      form.hasInitialDebt,
      if form.hasInitialDebt then form.initialDebtAmount else 0.0,
      form.hasInitialDebt,
      Some(DatePart(nowIso)));
    var id := "st-" + suffix;
    assert id[..3] == "st-" && id[3..] == suffix;
    (Student(id, form.name, form.email, form.tutorEmail, form.group, form.career, form.modality,
             None, Some(fs), Some(InitialDocuments)),
     BlankForm())
  }

  /**
   * On the finance screen a new student is blocked and owing exactly when
   * enrolled with an initial debt, owes nothing otherwise, and starts with
   * every document pending.
   */
  lemma EnrolFinance(form: EnrolForm, suffix: string, nowIso: string)
    ensures FinanceManagement.IsBlocked(Enrol(form, suffix, nowIso).0) <==> form.hasInitialDebt
    ensures FinanceManagement.HasDebt(Enrol(form, suffix, nowIso).0) <==> form.hasInitialDebt
    ensures !form.hasInitialDebt ==> FinanceManagement.DebtAmount(Enrol(form, suffix, nowIso).0) == 0.0
    ensures FinanceManagement.HasScholarship(Enrol(form, suffix, nowIso).0) <==> form.hasScholarship
    ensures forall d :: d in Enrol(form, suffix, nowIso).0.documents.value ==> !d.isUploaded && !d.isVerified
  {
  }
}
