/**
 * The exam builder (components/ExamManager.tsx): the draft form whose
 * question list grows by generated batches and shrinks by deletion, and the
 * published exam a submit records.
 */
module ExamManager {
  import opened Types
  import opened Seqs

  /** The careers the form offers, in the order of its drop-down. */
  const Careers: seq<string> := [
    "Derecho", "Criminología y Criminalística", "Psicología", "Administración y Estrategias de Negocios",
    "Ingeniería en Logística Internacional", "Ingeniería Industrial", "Pedagogía", "Ingeniería en Software"
  ]

  /** The draft being built (`newExam`). */
  datatype ExamForm = ExamForm(title: string, subject: string, career: string, questions: seq<ExamQuestion>)

  /** The draft as first shown and after each publication. */
  function BlankForm(): (f: ExamForm)
    ensures f.title == "" && f.subject == "Derecho Penal I" && f.career == Careers[0] && f.questions == []
  {
    ExamForm("", "Derecho Penal I", "Derecho", [])
  }

  /** What the generate button ends in. */
  datatype GenerateResult =
    | NeedSubject          // the "enter a subject first" alert; the generator is not asked
    | NoConnection         // the generator returned nothing; the draft is kept as it was
    | Generated(form: ExamForm)

  /**
   * `handleGenerateIA`, with the generator's answer for the draft's subject
   * as the parameter `generated`.
   */
  function Generate(form: ExamForm, generated: seq<ExamQuestion>): (r: GenerateResult)
    ensures r.NeedSubject? <==> form.subject == ""
    ensures r.NoConnection? <==> form.subject != "" && |generated| == 0
    ensures r.Generated? ==>
      r.form.questions == form.questions + generated &&
      r.form.title == form.title && r.form.subject == form.subject && r.form.career == form.career
  {
    if form.subject == "" then NeedSubject
    else if |generated| > 0 then Generated(form.(questions := form.questions + generated))
    else NoConnection
  }

  /** A generated batch goes after the questions already there, which keep their place. */
  lemma GenerateAppends(form: ExamForm, generated: seq<ExamQuestion>)
    requires Generate(form, generated).Generated?
    ensures |Generate(form, generated).form.questions| == |form.questions| + |generated| > |form.questions|
    ensures Generate(form, generated).form.questions[..|form.questions|] == form.questions
    ensures Generate(form, generated).form.questions[|form.questions|..] == generated
  {
  }

  /** What the publish button ends in. */
  datatype SubmitResult =
    | NoQuestions          // the "at least one question" alert; the draft is kept
    | Publish(exam: Exam, form: ExamForm)

  /**
   * `handleSubmit`: a draft with questions becomes a published exam under a
   * fresh id, stamped `nowIso`, and the draft is cleared.
   */
  function Submit(form: ExamForm, id: string, nowIso: string): (r: SubmitResult)
    ensures r.NoQuestions? <==> |form.questions| == 0
    ensures r.Publish? ==>
      r.exam.id == id && r.exam.title == form.title && r.exam.subject == form.subject &&
      r.exam.career == form.career && r.exam.questions == form.questions &&
      r.exam.status == Published && r.exam.createdAt == nowIso &&
      r.form == BlankForm()
  {
    if |form.questions| == 0 then NoQuestions
    else Publish(Exam(id, form.title, form.subject, form.career, form.questions, Published, nowIso), BlankForm())
  }

  /** A draft that has just received a batch can be published, with every question of the batch. */
  lemma GeneratedCanBePublished(form: ExamForm, generated: seq<ExamQuestion>, id: string, nowIso: string)
    requires Generate(form, generated).Generated?
    ensures Submit(Generate(form, generated).form, id, nowIso).Publish?
    ensures forall q :: q in generated ==> q in Submit(Generate(form, generated).form, id, nowIso).exam.questions
  {
  }

  /** The trash button of a question: drop every question with that id. */
  function RemoveQuestion(form: ExamForm, questionId: string): (r: ExamForm)
    ensures r.title == form.title && r.subject == form.subject && r.career == form.career
    ensures |r.questions| <= |form.questions|
  {
    form.(questions := Filter(form.questions, (q: ExamQuestion) => q.id != questionId))
  }

  /**
   * Removal deletes exactly the questions with that id; the others stay, in
   * their order; an id no question has changes nothing.
   */
  lemma RemoveQuestionSpec(form: ExamForm, questionId: string, q: ExamQuestion)
    ensures q in RemoveQuestion(form, questionId).questions <==> q in form.questions && q.id != questionId
    ensures IsSubsequence(RemoveQuestion(form, questionId).questions, form.questions)
    ensures (forall i :: 0 <= i < |form.questions| ==> form.questions[i].id != questionId) ==>
      RemoveQuestion(form, questionId) == form
  {
    var keep := (q: ExamQuestion) => q.id != questionId;
    FilterMember(form.questions, keep, q);
    FilterIsSubsequence(form.questions, keep);
    if forall i :: 0 <= i < |form.questions| ==> form.questions[i].id != questionId {
      FilterAll(form.questions, keep);
    }
  }
}
