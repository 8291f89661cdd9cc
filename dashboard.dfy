/**
 * Institutional overview (components/Dashboard.tsx): enrolment, the global
 * grade mean and attendance rate, the debtor count with its pie split and loss
 * estimate, and the per-career histogram that a `reduce` accumulates in place.
 */
module Dashboard {
  import opened Types
  import opened Seqs
  import RiskAnalysis
  import FinanceManagement

  /** The mean of every grade on record; 0 when there is none. */
  function GlobalAvgGrade(grades: seq<Grade>): (r: real)
    ensures |grades| == 0 ==> r == 0.0
    ensures |grades| > 0 ==> r * |grades| as real == Sum(grades, RiskAnalysis.GradeScore)
  {
    if |grades| > 0 then Sum(grades, RiskAnalysis.GradeScore) / |grades| as real else 0.0
  }

  /** With every score in [lo, hi], a non-empty mean lies in [lo, hi]; with no grade it is 0. */
  lemma GlobalAvgGradeBounds(grades: seq<Grade>, lo: real, hi: real)
    requires forall i :: 0 <= i < |grades| ==> lo <= grades[i].score <= hi
    ensures |grades| == 0 ==> GlobalAvgGrade(grades) == 0.0
    ensures |grades| > 0 ==> lo <= GlobalAvgGrade(grades) <= hi
  {
    if |grades| > 0 {
      SumBounds(grades, RiskAnalysis.GradeScore, lo, hi);
      QuotientBounds(Sum(grades, RiskAnalysis.GradeScore), |grades| as real, lo, hi);
    }
  }

  lemma QuotientBounds(total: real, n: real, lo: real, hi: real)
    requires n > 0.0 && n * lo <= total <= n * hi
    ensures lo <= total / n <= hi
  {
  }

  /**
   * The "no grades" defaults disagree: with no grade recorded the overview
   * shows a mean of 0, while the risk screen gives every student a mean of 10.
   */
  lemma NoGradesSentinels(state: AppState)
    requires |state.grades| == 0
    ensures GlobalAvgGrade(state.grades) == 0.0
    ensures forall s :: s in state.students ==> RiskAnalysis.AvgGrade(s.id, state.grades) == 10.0
  {
  }

  /** The share of all records marked present, as a percentage; 100 with no record. */
  function GlobalAttendanceRate(attendance: seq<AttendanceRecord>): (r: real)
    ensures 0.0 <= r <= 100.0
    ensures r == 100.0 <==> forall a :: a in attendance ==> a.status == Present
    ensures |attendance| == 0 ==> r == 100.0
    ensures |attendance| > 0 ==> r * |attendance| as real == 100.0 * Count(attendance, RiskAnalysis.IsPresent) as real
  {
    CountBounds(attendance, RiskAnalysis.IsPresent);
    if |attendance| > 0 then RiskAnalysis.Percent(Count(attendance, RiskAnalysis.IsPresent), |attendance|) else 100.0
  }

  /** `deudores`: the students whose financial record says they owe. */
  function Debtors(students: seq<Student>): (n: nat)
    ensures n <= |students|
    ensures n == FinanceManagement.Stats(students).withDebt
  {
    |Filter(students, FinanceManagement.HasDebt)|
  }

  /** The treasury pie: regularised students and students in arrears. */
  function PieSlices(students: seq<Student>): (r: (int, int))
    ensures r.0 >= 0 && r.1 >= 0
    ensures r.0 + r.1 == |students|
    ensures r.1 == |Filter(students, FinanceManagement.HasDebt)|
  {
    (|students| - Debtors(students), Debtors(students))
  }

  /** The estimated arrears: a flat 3200 MXN per debtor. */
  function Morosity(students: seq<Student>): (r: nat)
    ensures r == 3200 * Debtors(students)
    ensures r <= 3200 * |students|
  {
    Debtors(students) * 3200
  }

  /** One bar of the career chart. */
  datatype CareerSlice = CareerSlice(name: string, value: nat)

  function SliceName(x: CareerSlice): string { x.name }

  function SliceValue(x: CareerSlice): real { x.value as real }

  function Careers(students: seq<Student>): (cs: seq<string>)
    ensures |cs| == |students|
    ensures forall i :: 0 <= i < |students| ==> cs[i] == students[i].career
  {
    Map(students, (s: Student) => s.career)
  }

  /** One step of the reduce: count the career in its bar, or open a bar for it at the end. */
  function Bump(h: seq<CareerSlice>, c: string): seq<CareerSlice>
  {
    match FindIndex(h, (x: CareerSlice) => x.name == c)
    case Some(i) => h[i := h[i].(value := h[i].value + 1)]
    case None => h + [CareerSlice(c, 1)]
  }

  /** The chart the reduce builds from a list of careers. */
  function Histogram(cs: seq<string>): seq<CareerSlice>
  {
    if |cs| == 0 then [] else Bump(Histogram(cs[..|cs| - 1]), cs[|cs| - 1])
  }

  ghost predicate DistinctNames(h: seq<CareerSlice>)
  {
    forall i, j :: 0 <= i < j < |h| ==> h[i].name != h[j].name
  }

  /** One bar per distinct career: no name twice, and a name appears iff some student has that career. */
  lemma {:induction false} HistogramNames(cs: seq<string>)
    ensures DistinctNames(Histogram(cs))
    ensures forall c :: c in Map(Histogram(cs), SliceName) <==> c in cs
  {
    if |cs| > 0 {
      var n := |cs| - 1;
      var c := cs[n];
      var h := Histogram(cs[..n]);
      HistogramNames(cs[..n]);
      var r := Histogram(cs);
      assert cs == cs[..n] + [c];
      match FindIndex(h, (x: CareerSlice) => x.name == c)
      case Some(i) => {
        assert r == h[i := h[i].(value := h[i].value + 1)];
        assert Map(r, SliceName) == Map(h, SliceName);
      }
      case None => {
        assert r == h + [CareerSlice(c, 1)];
        assert Map(r, SliceName) == Map(h, SliceName) + [c];
        forall j | 0 <= j < |h| ensures h[j].name != c {
          assert !((x: CareerSlice) => x.name == c)(h[j]);
        }
      }
    }
  }

  /** Each bar's value is the number of students in that career. */
  lemma {:induction false} HistogramCounts(cs: seq<string>)
    ensures forall i :: 0 <= i < |Histogram(cs)| ==> Histogram(cs)[i].value == multiset(cs)[Histogram(cs)[i].name]
  {
    if |cs| > 0 {
      var n := |cs| - 1;
      var c := cs[n];
      var h := Histogram(cs[..n]);
      HistogramCounts(cs[..n]);
      HistogramNames(cs[..n]);
      var r := Histogram(cs);
      assert cs == cs[..n] + [c];
      assert multiset(cs) == multiset(cs[..n]) + multiset{c};
      match FindIndex(h, (x: CareerSlice) => x.name == c)
      case Some(i) => {
        assert r == h[i := h[i].(value := h[i].value + 1)];
      }
      case None => {
        assert r == h + [CareerSlice(c, 1)];
        forall j | 0 <= j < |h| ensures h[j].name != c {
          assert !((x: CareerSlice) => x.name == c)(h[j]);
        }
        assert c !in Map(h, SliceName);
        assert c !in cs[..n];
      }
    }
  }

  /** The bar values add up to the number of students. */
  lemma {:induction false} HistogramTotal(cs: seq<string>)
    ensures Sum(Histogram(cs), SliceValue) == |cs| as real
  {
    if |cs| > 0 {
      var n := |cs| - 1;
      var c := cs[n];
      var h := Histogram(cs[..n]);
      HistogramTotal(cs[..n]);
      match FindIndex(h, (x: CareerSlice) => x.name == c)
      case Some(i) => {
        SumUpdate(h, i, h[i].(value := h[i].value + 1), SliceValue);
      }
      case None => {
        SumConcat(h, [CareerSlice(c, 1)], SliceValue);
      }
    }
  }

  /** `c` occurs in `cs` before any occurrence of `d`. */
  ghost predicate SeenBefore(cs: seq<string>, c: string, d: string)
  {
    exists p :: 0 <= p < |cs| && cs[p] == c && forall q :: 0 <= q <= p ==> cs[q] != d
  }

  /** The bars are in the order in which their careers first appear in the student list. */
  lemma {:induction false} HistogramOrder(cs: seq<string>)
    ensures forall i, j :: 0 <= i < j < |Histogram(cs)| ==> SeenBefore(cs, Histogram(cs)[i].name, Histogram(cs)[j].name)
  {
    if |cs| > 0 {
      var n := |cs| - 1;
      var c := cs[n];
      var pre := cs[..n];
      var h := Histogram(pre);
      HistogramOrder(pre);
      HistogramNames(pre);
      var r := Histogram(cs);
      forall i, j | 0 <= i < j < |r| ensures SeenBefore(cs, r[i].name, r[j].name) {
        match FindIndex(h, (x: CareerSlice) => x.name == c)
        case Some(k) => {
          assert r == h[k := h[k].(value := h[k].value + 1)];
          assert SeenBefore(pre, h[i].name, h[j].name);
          var p :| 0 <= p < |pre| && pre[p] == h[i].name && forall q :: 0 <= q <= p ==> pre[q] != h[j].name;
          assert cs[p] == r[i].name;
        }
        case None => {
          assert r == h + [CareerSlice(c, 1)];
          if j < |h| {
            assert SeenBefore(pre, h[i].name, h[j].name);
            var p :| 0 <= p < |pre| && pre[p] == h[i].name && forall q :: 0 <= q <= p ==> pre[q] != h[j].name;
            assert cs[p] == r[i].name;
          } else {
            assert h[i].name in Map(h, SliceName);
            var p :| 0 <= p < |pre| && pre[p] == h[i].name;
            assert c !in pre by {
              forall m | 0 <= m < |h| ensures h[m].name != c {
                assert !((x: CareerSlice) => x.name == c)(h[m]);
              }
              assert c !in Map(h, SliceName);
            }
            forall q | 0 <= q <= p ensures cs[q] != c {
              assert cs[q] == pre[q];
            }
            assert cs[p] == r[i].name;
          }
        }
      }
    }
  }

  /**
   * `careerData`: the reduce at lines 26-31 as the loop it runs, finding the
   * bar for each student's career and bumping it in place or appending a new
   * one.
   */
  method CareerData(students: seq<Student>) returns (acc: seq<CareerSlice>)
    ensures acc == Histogram(Careers(students))
    ensures DistinctNames(acc)
    ensures Sum(acc, SliceValue) == |students| as real
  {
    ghost var cs := Careers(students);
    acc := [];
    var k := 0;
    while k < |students|
      invariant 0 <= k <= |students|
      invariant acc == Histogram(cs[..k])
    {
      var career := students[k].career;
      var existing := FindIndex(acc, (x: CareerSlice) => x.name == career);
      if existing.Some? {
        var i := existing.value;
        acc := acc[i := acc[i].(value := acc[i].value + 1)];
      } else {
        acc := acc + [CareerSlice(career, 1)];
      }
      assert cs[..k + 1][..k] == cs[..k];
      k := k + 1;
    }
    assert cs[..k] == cs;
    HistogramNames(cs);
    HistogramTotal(cs);
  }
}
