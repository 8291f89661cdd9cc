/**
 * Treasury screen (components/FinanceManagement.tsx): blocking and unblocking
 * a student's academic access, the four summary figures and the debt column
 * of the table.
 */
module FinanceManagement {
  import opened Types
  import opened Seqs

  /**
   * `toggleBlock`: no update for a student without a financial record;
   * otherwise the update that flips `isBlocked` and nothing else.
   */
  function ToggleBlock(s: Student): (r: Option<Student>)
    ensures s.financialStatus.None? <==> r.None?
    ensures r.Some? ==>
      r.value.financialStatus.Some? &&
      r.value.financialStatus.value.isBlocked == !s.financialStatus.value.isBlocked &&
      r.value.financialStatus.value.(isBlocked := s.financialStatus.value.isBlocked) == s.financialStatus.value &&
      r.value.(financialStatus := s.financialStatus) == s
  {
    match s.financialStatus
    case None => None
    case Some(fs) => Some(s.(financialStatus := Some(fs.(isBlocked := !fs.isBlocked))))
  }

  /** Toggling twice gives back the original student. */
  lemma ToggleBlockTwice(s: Student)
    requires s.financialStatus.Some?
    ensures ToggleBlock(ToggleBlock(s).value) == Some(s)
  {
  }

  /** `s.financialStatus?.debtAmount || 0`: the recorded amount, whatever `hasDebt` says. */
  function DebtAmount(s: Student): real
  {
    if s.financialStatus.Some? then s.financialStatus.value.debtAmount else 0.0
  }

  predicate HasDebt(s: Student) { s.financialStatus.Some? && s.financialStatus.value.hasDebt }

  predicate HasScholarship(s: Student) { s.financialStatus.Some? && s.financialStatus.value.hasScholarship }

  predicate IsBlocked(s: Student) { s.financialStatus.Some? && s.financialStatus.value.isBlocked }

  datatype FinanceStats = FinanceStats(totalDebt: real, withDebt: nat, withScholarship: nat, blocked: nat)

  /** The summary cards. */
  function Stats(students: seq<Student>): (r: FinanceStats)
    ensures r.withDebt <= |students| && r.withScholarship <= |students| && r.blocked <= |students|
  {
    FinanceStats(Sum(students, DebtAmount),
                 |Filter(students, HasDebt)|,
                 |Filter(students, HasScholarship)|,
                 |Filter(students, IsBlocked)|)
  }

  /** With no student every card shows zero. */
  lemma StatsEmpty()
    ensures Stats([]) == FinanceStats(0.0, 0, 0, 0)
  {
  }

  /**
   * Adding a student to the list adds their recorded amount (0 without a
   * financial record) to the total debt, and one to each headcount whose flag
   * they carry; with `StatsEmpty` this fixes every card.
   */
  lemma {:induction false} StatsAppend(students: seq<Student>, s: Student)
    ensures Stats(students + [s]).totalDebt == Stats(students).totalDebt + DebtAmount(s)
    ensures Stats(students + [s]).withDebt == Stats(students).withDebt + (if HasDebt(s) then 1 else 0)
    ensures Stats(students + [s]).withScholarship == Stats(students).withScholarship + (if HasScholarship(s) then 1 else 0)
    ensures Stats(students + [s]).blocked == Stats(students).blocked + (if IsBlocked(s) then 1 else 0)
  {
    SumConcat(students, [s], DebtAmount);
    FilterConcat(students, [s], HasDebt);
    FilterConcat(students, [s], HasScholarship);
    FilterConcat(students, [s], IsBlocked);
    assert Sum([s], DebtAmount) == DebtAmount(s);
    assert Filter([s], HasDebt) == if HasDebt(s) then [s] else [];
    assert Filter([s], HasScholarship) == if HasScholarship(s) then [s] else [];
    assert Filter([s], IsBlocked) == if IsBlocked(s) then [s] else [];
  }

  /** A student is among the debtors counted iff they are listed and flagged as owing; likewise for the other cards. */
  lemma StatsMembers(students: seq<Student>, s: Student)
    ensures s in Filter(students, HasDebt) <==> s in students && HasDebt(s)
    ensures s in Filter(students, HasScholarship) <==> s in students && HasScholarship(s)
    ensures s in Filter(students, IsBlocked) <==> s in students && IsBlocked(s)
    ensures Stats(students).withDebt == |Filter(students, HasDebt)|
    ensures Stats(students).withScholarship == |Filter(students, HasScholarship)|
    ensures Stats(students).blocked == |Filter(students, IsBlocked)|
  {
    FilterMember(students, HasDebt, s);
    FilterMember(students, HasScholarship, s);
    FilterMember(students, IsBlocked, s);
  }

  /** The table's debt column: the amount for a student marked as owing, $0 otherwise. */
  function DebtColumn(s: Student): (r: real)
    ensures HasDebt(s) ==> r == DebtAmount(s)
    ensures !HasDebt(s) ==> r == 0.0
  {
    if HasDebt(s) then s.financialStatus.value.debtAmount else 0.0
  }

  /**
   * The total-debt card counts every recorded amount, even of students not
   * marked as owing, so with non-negative amounts it is at least the sum of
   * the debt column, and it exceeds it as soon as a student not marked as
   * owing has a positive amount.
   */
  lemma {:induction false} TotalDebtCoversColumn(students: seq<Student>)
    requires forall i :: 0 <= i < |students| ==> DebtAmount(students[i]) >= 0.0
    ensures Sum(students, DebtColumn) <= Stats(students).totalDebt
    ensures (exists i :: 0 <= i < |students| && !HasDebt(students[i]) && DebtAmount(students[i]) > 0.0) ==>
      Sum(students, DebtColumn) < Stats(students).totalDebt
  {
    if |students| > 0 {
      TotalDebtCoversColumn(students[1..]);
      if exists i :: 1 <= i < |students| && !HasDebt(students[i]) && DebtAmount(students[i]) > 0.0 {
        var i :| 1 <= i < |students| && !HasDebt(students[i]) && DebtAmount(students[i]) > 0.0;
        assert students[1..][i - 1] == students[i];
      }
    }
  }

  /** Toggling a block leaves the debt and scholarship figures as they were. */
  lemma ToggleKeepsDebt(s: Student)
    requires s.financialStatus.Some?
    ensures DebtAmount(ToggleBlock(s).value) == DebtAmount(s)
    ensures HasDebt(ToggleBlock(s).value) == HasDebt(s)
    ensures HasScholarship(ToggleBlock(s).value) == HasScholarship(s)
    ensures IsBlocked(ToggleBlock(s).value) == !IsBlocked(s)
  {
  }
}
