/**
 * The notice board (components/Announcements.tsx): who sees which notice and
 * in what order, the audience check-boxes of the new-notice form, the notice
 * a submit records, and the category badge a stored notice is shown with.
 */
module Announcements {
  import opened Types
  import opened Seqs
  import opened Sorting
  import opened Text

  /** The badge labels, in table order. */
  const Categories: seq<string> := ["Académico", "Tesorería", "Evento", "Urgente"]

  /** Control escolar and coordinación manage the board. */
  predicate IsStaff(role: Role)
  {
    role == ControlEscolar || role == Coordinador
  }

  /** The filter: a notice is shown to staff, and to anyone it targets. */
  predicate ShownTo(role: Role, a: Announcement)
  {
    role in a.targetRoles || IsStaff(role)
  }

  /** The sort key: the notice's date. */
  function DateOf(a: Announcement): real { DateKey(a.date) }

  /** `visibleAnnouncements`: the notices shown to `role`, newest first. */
  function Visible(anns: seq<Announcement>, role: Role): seq<Announcement>
  {
    SortDesc(Filter(anns, (a: Announcement) => ShownTo(role, a)), DateOf)
  }

  /** Staff see every notice, each as often as it is stored. */
  lemma VisibleToStaff(anns: seq<Announcement>, role: Role)
    requires IsStaff(role)
    ensures multiset(Visible(anns, role)) == multiset(anns)
  {
    FilterAll(anns, (a: Announcement) => ShownTo(role, a));
  }

  /** Anyone else sees exactly the notices whose audience includes their role. */
  lemma VisibleToOthers(anns: seq<Announcement>, role: Role, a: Announcement)
    requires !IsStaff(role)
    ensures a in Visible(anns, role) <==> a in anns && role in a.targetRoles
  {
    var kept := Filter(anns, (a: Announcement) => ShownTo(role, a));
    assert a in Visible(anns, role) <==> a in multiset(kept);
    FilterMember(anns, (a: Announcement) => ShownTo(role, a), a);
  }

  /**
   * The list is newest first, and the notices of any one date keep their
   * stored order.
   */
  lemma VisibleOrder(anns: seq<Announcement>, role: Role, day: real)
    ensures SortedDesc(Visible(anns, role), DateOf)
    ensures Filter(Visible(anns, role), KeyIs(DateOf, day)) ==
            Filter(Filter(anns, (a: Announcement) => ShownTo(role, a)), KeyIs(DateOf, day))
  {
    SortDescSorted(Filter(anns, (a: Announcement) => ShownTo(role, a)), DateOf);
    SortDescStable(Filter(anns, (a: Announcement) => ShownTo(role, a)), DateOf, day);
  }

  /** The new-notice form. */
  datatype NoticeForm = NoticeForm(title: string, content: string, category: string, targetRoles: seq<Role>)

  /** The attached PDF (`pdfFile`): the file's name and its data URL. */
  datatype Attachment = Attachment(name: string, data: string)

  /** The form as first shown and after each submit: empty, 'Académico', for students only. */
  function BlankForm(): (f: NoticeForm)
    ensures f.targetRoles == [Alumno] && f.category == Categories[0]
  {
    NoticeForm("", "", "Académico", [Alumno])
  }

  /** `toggleRole`: tick or untick one audience. */
  function ToggleRole(roles: seq<Role>, role: Role): (r: seq<Role>)
    ensures role in r <==> role !in roles
    ensures forall x :: x != role ==> (x in r <==> x in roles)
  {
    if role in roles then
      var kept := Filter(roles, (x: Role) => x != role);
      forall x ensures x in kept <==> x in roles && x != role {
        FilterMember(roles, (x: Role) => x != role, x);
      }
      kept
    else roles + [role]
  }

  /** Ticking an unticked audience and unticking it again gives back the same list. */
  lemma ToggleRoleTwice(roles: seq<Role>, role: Role)
    requires role !in roles
    ensures ToggleRole(ToggleRole(roles, role), role) == roles
  {
    var notRole := (x: Role) => x != role;
    FilterConcat(roles, [role], notRole);
    FilterAll(roles, notRole);
    assert Filter([role], notRole) == [];
  }

  /** Unticking keeps the other audiences in their order. */
  lemma ToggleRoleRemoves(roles: seq<Role>, role: Role)
    requires role in roles
    ensures IsSubsequence(ToggleRole(roles, role), roles)
    ensures |ToggleRole(roles, role)| < |roles|
  {
    var notRole := (x: Role) => x != role;
    FilterIsSubsequence(roles, notRole);
    var i :| 0 <= i < |roles| && roles[i] == role;
    FilterMissesOne(roles, notRole, i);
  }

  /**
   * `handleSubmit`: the notice is the form's fields under a fresh id, dated
   * with the day of `nowIso`, with the attachment if there is one; the form
   * and the attachment are then cleared.
   */
  function Submit(form: NoticeForm, pdf: Option<Attachment>, id: string, nowIso: string): (r: (Announcement, NoticeForm, Option<Attachment>))
    ensures r.0.id == id && r.0.title == form.title && r.0.content == form.content
    ensures r.0.category == form.category && r.0.targetRoles == form.targetRoles
    ensures r.0.date == DatePart(nowIso)
    ensures pdf.None? ==> r.0.pdfData.None? && r.0.pdfName.None?
    ensures pdf.Some? ==> r.0.pdfData == Some(pdf.value.data) && r.0.pdfName == Some(pdf.value.name)
    ensures r.1 == BlankForm() && r.2.None?
  {
    var data := if pdf.Some? then Some(pdf.value.data) else None;
    var name := if pdf.Some? then Some(pdf.value.name) else None;
    (Announcement(id, form.title, form.content, form.category, form.targetRoles, DatePart(nowIso), data, name),
     BlankForm(), None)
  }

  /** For an ISO timestamp the notice is dated with its `YYYY-MM-DD` prefix. */
  lemma SubmitDate(form: NoticeForm, pdf: Option<Attachment>, id: string, nowIso: string)
    requires |nowIso| > 10 && nowIso[10] == 'T' && 'T' !in nowIso[..10]
    ensures Submit(form, pdf, id, nowIso).0.date == nowIso[..10]
  {
    DatePartOfTimestamp(nowIso);
  }

  /** The badge of a stored notice: its own category if it is one of the four, else the first. */
  function BadgeFor(category: string): (c: string)
    ensures c in Categories
    ensures category in Categories ==> c == category
    ensures category !in Categories ==> c == Categories[0]
  {
    var found := Find(Categories, (name: string) => name == category);
    if found.Some? then found.value else Categories[0]
  }
}
