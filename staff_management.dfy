/**
 * The teaching-staff census (components/StaffManagement.tsx): the search box
 * and the teacher record the registration form creates.
 */
module StaffManagement {
  import opened Types
  import opened Seqs
  import opened Text

  /** The departments the form offers, in the order of its drop-down. */
  const Departments: seq<string> := [
    "Derecho",
    "Psicología",
    "Ingeniería y Sistemas",
    "Administración y Negocios",
    "Ciencias de la Educación",
    "Criminología"
  ]

  /** The search term is found, ignoring case, in the name or in the subject. */
  predicate MatchesSearch(t: Teacher, term: string)
  {
    Contains(ToLower(t.name), ToLower(term)) || Contains(ToLower(t.subject), ToLower(term))
  }

  /** `filteredTeachers` */
  function Filtered(teachers: seq<Teacher>, term: string): seq<Teacher>
  {
    Filter(teachers, (t: Teacher) => MatchesSearch(t, term))
  }

  /** A teacher is listed iff the term matches the name or subject, and the census keeps its order. */
  lemma FilteredSpec(teachers: seq<Teacher>, term: string, t: Teacher)
    ensures t in Filtered(teachers, term) <==> t in teachers && MatchesSearch(t, term)
    ensures IsSubsequence(Filtered(teachers, term), teachers)
  {
    FilterMember(teachers, (t: Teacher) => MatchesSearch(t, term), t);
    FilterIsSubsequence(teachers, (t: Teacher) => MatchesSearch(t, term));
  }

  /** An empty search box lists everyone. */
  lemma EmptyTermListsAll(teachers: seq<Teacher>)
    ensures Filtered(teachers, "") == teachers
  {
    assert ToLower("") == "";
    forall i | 0 <= i < |teachers| ensures MatchesSearch(teachers[i], "") {
      ContainsEmpty(ToLower(teachers[i].name));
    }
    FilterAll(teachers, (t: Teacher) => MatchesSearch(t, ""));
  }

  /** The registration form. */
  datatype StaffForm = StaffForm(name: string, email: string, subject: string, department: string)

  /** The form as first shown and after each registration: empty, the first department. */
  function BlankForm(): (f: StaffForm)
    ensures f.name == "" && f.email == "" && f.subject == "" && f.department == Departments[0]
  {
    StaffForm("", "", "", "Derecho")
  }

  /**
   * `handleSubmit`: the form's fields under the id `'t-' + suffix` (the random
   * part is a parameter); the form is then cleared.
   */
  function Register(form: StaffForm, suffix: string): (r: (Teacher, StaffForm))
    ensures StartsWith(r.0.id, "t-") && r.0.id[2..] == suffix
    ensures r.0.name == form.name && r.0.email == form.email
    ensures r.0.subject == form.subject && r.0.department == form.department
    ensures r.1 == BlankForm()
  {
    var id := "t-" + suffix;
    assert id[..2] == "t-" && id[2..] == suffix;
    (Teacher(id, form.name, form.email, form.subject, form.department), BlankForm())
  }

  /** A freshly registered teacher is found by a search for their own name. */
  lemma RegisteredIsFound(form: StaffForm, suffix: string)
    ensures Filtered([Register(form, suffix).0], form.name) == [Register(form, suffix).0]
  {
    var t := Register(form, suffix).0;
    assert StartsWith(ToLower(t.name), ToLower(form.name));
    assert MatchesSearch(t, form.name);
  }
}
