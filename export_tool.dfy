/**
 * Data export (components/ExportTool.tsx): which header and which cells each
 * of the three exports writes, and the CSV text built from them: lines joined
 * by '\n', cells joined by ',', with no quoting.
 */
module ExportTool {
  import opened Types
  import opened Seqs
  import opened Text

  datatype ExportKind = StudentsExport | GradesExport | AttendanceExport

  /** `headers`, `rows` and `filename` as one branch of `downloadCSV` assigns them. */
  datatype Table = Table(headers: seq<string>, rows: seq<seq<string>>, filename: string)

  function ModalityText(m: Modality): string
  {
    match m
    case EnLinea => "En línea"
    case Escolarizado => "Escolarizado"
    case Ejecutivo => "Ejecutivo"
  }

  function StatusText(s: AttendanceStatus): string
  {
    match s
    case Present => "present"
    case Absent => "absent"
    case Late => "late"
  }

  function StudentRow(s: Student): seq<string>
  {
    [s.id, s.name, s.email, s.career, ModalityText(s.modality), s.group]
  }

  function AttendanceRow(a: AttendanceRecord): seq<string>
  {
    [a.studentId, a.date, StatusText(a.status)]
  }

  /**
   * The table of one export. `scoreText` is how a score prints when the row
   * is joined.
   */
  function Select(kind: ExportKind, state: AppState, scoreText: real -> string): (t: Table)
    ensures forall i :: 0 <= i < |t.rows| ==> |t.rows[i]| == |t.headers|
    ensures kind == StudentsExport ==>
      t.headers == ["ID", "Nombre", "Email", "Carrera", "Modalidad", "Grupo"] &&
      t.rows == Map(state.students, StudentRow) && t.filename == "UFD_Censo_Estudiantil.csv"
    ensures kind == GradesExport ==>
      t.headers == ["ID", "ID Estudiante", "Asignatura", "Nota", "Fecha", "Descripción"] &&
      |t.rows| == |state.grades| && t.filename == "UFD_Libro_Calificaciones.csv" &&
      forall i :: 0 <= i < |t.rows| ==> t.rows[i][3] == scoreText(state.grades[i].score)
    ensures kind == AttendanceExport ==>
      t.headers == ["ID Estudiante", "Fecha", "Estado"] &&
      t.rows == Map(state.attendance, AttendanceRow) && t.filename == "UFD_Asistencia_Cuatrimestral.csv"
  {
    match kind
    case StudentsExport =>
      Table(["ID", "Nombre", "Email", "Carrera", "Modalidad", "Grupo"],
            Map(state.students, StudentRow), "UFD_Censo_Estudiantil.csv")
    case GradesExport =>
      Table(["ID", "ID Estudiante", "Asignatura", "Nota", "Fecha", "Descripción"],
            Map(state.grades, (g: Grade) => [g.id, g.studentId, g.subject, scoreText(g.score), g.date, g.description]),
            "UFD_Libro_Calificaciones.csv")
    case AttendanceExport =>
      Table(["ID Estudiante", "Fecha", "Estado"], Map(state.attendance, AttendanceRow),
            "UFD_Asistencia_Cuatrimestral.csv")
  }

  function JoinCells(r: seq<string>): string { Join(r, ',') }

  /** `csvContent`: the header line, then one line per row. */
  function Csv(headers: seq<string>, rows: seq<seq<string>>): string
  {
    Join([JoinCells(headers)] + Map(rows, JoinCells), '\n')
  }

  function SplitCells(line: string): seq<string> { Split(line, ',') }

  /** No cell holds a separator. */
  predicate PlainCells(r: seq<string>)
  {
    forall i :: 0 <= i < |r| ==> ',' !in r[i] && '\n' !in r[i]
  }

  /** A join of pieces free of `c`, with a separator other than `c`, is free of `c`. */
  lemma {:induction false} JoinAvoids(xs: seq<string>, sep: char, c: char)
    requires sep != c
    requires forall i :: 0 <= i < |xs| ==> c !in xs[i]
    ensures c !in Join(xs, sep)
  {
    if |xs| > 1 {
      JoinAvoids(xs[1..], sep, c);
    }
  }

  /**
   * Without a ',' or '\n' in any cell, and with no empty row, reading the
   * text back (split on '\n', then each line on ',') gives the header and the
   * rows exactly: one line more than there are rows.
   */
  lemma CsvRoundTrip(headers: seq<string>, rows: seq<seq<string>>)
    requires |headers| >= 1 && PlainCells(headers)
    requires forall i :: 0 <= i < |rows| ==> |rows[i]| >= 1 && PlainCells(rows[i])
    ensures |Split(Csv(headers, rows), '\n')| == |rows| + 1
    ensures Map(Split(Csv(headers, rows), '\n'), SplitCells) == [headers] + rows
  {
    var lines := [JoinCells(headers)] + Map(rows, JoinCells);
    forall i | 0 <= i < |lines| ensures '\n' !in lines[i] {
      if i == 0 {
        JoinAvoids(headers, ',', '\n');
      } else {
        JoinAvoids(rows[i - 1], ',', '\n');
      }
    }
    SplitJoin(lines, '\n');
    forall i | 0 <= i < |lines| ensures SplitCells(lines[i]) == ([headers] + rows)[i] {
      if i == 0 {
        SplitJoin(headers, ',');
      } else {
        SplitJoin(rows[i - 1], ',');
      }
    }
  }

  /** How often `c` occurs in `s`. */
  function Occurrences(s: string, c: char): nat
  {
    if |s| == 0 then 0 else (if s[0] == c then 1 else 0) + Occurrences(s[1..], c)
  }

  lemma {:induction false} OccurrencesConcat(a: string, b: string, c: char)
    ensures Occurrences(a + b, c) == Occurrences(a, c) + Occurrences(b, c)
  {
    if |a| == 0 {
      assert a + b == b;
    } else {
      assert (a + b)[0] == a[0];
      assert (a + b)[1..] == a[1..] + b;
      OccurrencesConcat(a[1..], b, c);
    }
  }

  /** A split yields one piece more than there are separators. */
  lemma {:induction false} SplitCount(s: string, sep: char)
    ensures |Split(s, sep)| == Occurrences(s, sep) + 1
  {
    if |s| > 0 {
      SplitCount(s[1..], sep);
      var rest := Split(s[1..], sep);
      assert Occurrences(s, sep) == (if s[0] == sep then 1 else 0) + Occurrences(s[1..], sep);
      if s[0] == sep {
        assert Split(s, sep) == [""] + rest;
      } else {
        assert Split(s, sep) == [[s[0]] + rest[0]] + rest[1..];
      }
    }
  }

  /** A join of `n` cells holds `n - 1` separators plus those inside the cells. */
  lemma {:induction false} JoinCount(xs: seq<string>, sep: char)
    requires |xs| >= 1
    ensures Occurrences(Join(xs, sep), sep) >= |xs| - 1 + Occurrences(xs[0], sep)
    ensures forall i :: 0 <= i < |xs| ==> Occurrences(Join(xs, sep), sep) >= |xs| - 1 + Occurrences(xs[i], sep)
  {
    if |xs| > 1 {
      JoinCount(xs[1..], sep);
      OccurrencesConcat(xs[0] + [sep], Join(xs[1..], sep), sep);
      OccurrencesConcat(xs[0], [sep], sep);
      assert Occurrences([sep], sep) == 1;
      forall i | 1 <= i < |xs| ensures Occurrences(Join(xs, sep), sep) >= |xs| - 1 + Occurrences(xs[i], sep) {
        assert xs[1..][i - 1] == xs[i];
      }
    }
  }

  lemma {:induction false} OccursIn(s: string, c: char)
    requires c in s
    ensures Occurrences(s, c) >= 1
  {
    if s[0] != c {
      OccursIn(s[1..], c);
    }
  }

  /**
   * No quoting: a cell holding a ',' makes its line read back with more
   * cells than the row has.
   */
  lemma CommaAddsColumns(r: seq<string>, i: nat)
    requires i < |r| && ',' in r[i]
    ensures |SplitCells(JoinCells(r))| > |r|
  {
    JoinCount(r, ',');
    OccursIn(r[i], ',');
    SplitCount(JoinCells(r), ',');
  }
}
