/** curve-update.py `update_curve_csv`: read every row of the curve CSV,
    recompute the four metric columns from the row's `Coordinates` cell
    (least-squares radius), and write all rows back under the same field
    names. */
module CurveUpdate {
  import opened Common
  import opened CurveMetrics
  import opened PointText

  /** A row as `csv.DictReader` gives it: field name to cell text. */
  type Row = map<string, string>

  /** A CSV file as `DictReader` sees it: the header and the rows. */
  datatype CsvTable = CsvTable(fieldnames: seq<string>, rows: seq<Row>)

  const CoordinatesColumn: string := "Coordinates"
  const ArcColumn: string := "Arc Length (m)"
  const RadiusColumn: string := "Radius (m)"
  const CurvatureColumn: string := "Curvature (1/m)"
  const AngleColumn: string := "Angle (deg)"

  /** The four columns the update overwrites. */
  predicate IsMetricColumn(k: string) {
    k == ArcColumn || k == RadiusColumn || k == CurvatureColumn || k == AngleColumn
  }

  /** Float formatting: `f"{x:.6f}"` and `f"{x:.8f}"`. */
  datatype Formats = Formats(fixed6: real -> string, fixed8: real -> string)

  /** `f"{R:.6f}"`, which renders the sentinel as `inf`. */
  function RadiusText(fmt: Formats, R: Radius): string {
    if R.Infinite? then "inf" else fmt.fixed6(R.r)
  }

  /** Everything the loop body computes for one row, before writing it:
      KeyError without a `Coordinates` cell, ValueError from `float()`,
      IndexError from the fit when no point is found. */
  function RecomputeRow(n: Numerics, solve: seq<Point> -> real, fmt: Formats, row: Row): Result<Row>
    requires Sound(n)
  {
    if CoordinatesColumn !in row then Err(KeyError(CoordinatesColumn))
    else
      var pts := ParseQgsPointList(row[CoordinatesColumn]);
      if pts.Err? then Err(pts.error)
      else
        var arc := ArcLength(n, pts.value);
        var R := LeastSquaresRadius(solve, pts.value);
        if R.Err? then Err(R.error)
        else
          var m := Measure(n, arc, R.value);
          Ok(row[ArcColumn := fmt.fixed6(m.arcLength)]
                [RadiusColumn := RadiusText(fmt, m.radius)]
                [CurvatureColumn := fmt.fixed8(m.curvature)]
                [AngleColumn := fmt.fixed6(m.angleDeg)])
  }

  /** Overwriting the four metric cells adds them and keeps every other cell. */
  lemma SetMetrics(row: Row, arc: string, radius: string, curvature: string, angle: string)
    ensures var out := row[ArcColumn := arc][RadiusColumn := radius][CurvatureColumn := curvature][AngleColumn := angle];
      && out.Keys == row.Keys + {ArcColumn, RadiusColumn, CurvatureColumn, AngleColumn}
      && (forall k :: k in row && !IsMetricColumn(k) ==> out[k] == row[k])
      && out[ArcColumn] == arc && out[RadiusColumn] == radius
      && out[CurvatureColumn] == curvature && out[AngleColumn] == angle
  {
    assert ArcColumn != RadiusColumn && ArcColumn != CurvatureColumn && ArcColumn != AngleColumn;
    assert RadiusColumn != CurvatureColumn && RadiusColumn != AngleColumn && CurvatureColumn != AngleColumn;
  }

  /** A row is recomputed exactly when it has a `Coordinates` cell that
      parses to at least one point. The four metric cells then hold the
      formatted arc length, radius, curvature and angle of that point list,
      and every other cell, `Coordinates` included, passes through. */
  lemma RecomputeRowSpec(n: Numerics, solve: seq<Point> -> real, fmt: Formats, row: Row)
    requires Sound(n)
    ensures RecomputeRow(n, solve, fmt, row).Ok? <==>
      CoordinatesColumn in row && ParseQgsPointList(row[CoordinatesColumn]).Ok?
      && |ParseQgsPointList(row[CoordinatesColumn]).value| > 0
    ensures RecomputeRow(n, solve, fmt, row).Ok? ==>
      var out := RecomputeRow(n, solve, fmt, row).value;
      var pts := ParseQgsPointList(row[CoordinatesColumn]).value;
      var m := Measure(n, ArcLength(n, pts), LeastSquaresRadius(solve, pts).value);
      && out.Keys == row.Keys + {ArcColumn, RadiusColumn, CurvatureColumn, AngleColumn}
      && (forall k :: k in row && !IsMetricColumn(k) ==> out[k] == row[k])
      && out[CoordinatesColumn] == row[CoordinatesColumn]
      && out[ArcColumn] == fmt.fixed6(ArcLength(n, pts))
      && out[RadiusColumn] == RadiusText(fmt, LeastSquaresRadius(solve, pts).value)
      && out[CurvatureColumn] == fmt.fixed8(m.curvature)
      && out[AngleColumn] == fmt.fixed6(m.angleDeg)
  {
    if CoordinatesColumn in row {
      var pts := ParseQgsPointList(row[CoordinatesColumn]);
      if pts.Ok? && |pts.value| > 0 {
        var m := Measure(n, ArcLength(n, pts.value), LeastSquaresRadius(solve, pts.value).value);
        SetMetrics(row, fmt.fixed6(m.arcLength), RadiusText(fmt, m.radius), fmt.fixed8(m.curvature), fmt.fixed6(m.angleDeg));
      }
    }
  }

  /** `writer.writerow(row)`: ValueError when the row has a key that is not
      a field name; otherwise the row read back from the file, each field
      taken from the row and empty where the row lacks it. The error carries
      a fixed text: the list of extra keys in Python's message is not kept. */
  function WriteRow(names: seq<string>, row: Row): (r: Result<Row>)
    ensures r.Ok? <==> forall k :: k in row ==> k in names
    ensures r.Ok? ==> r.value.Keys == set k | k in names
    ensures r.Ok? ==> forall k :: k in names ==> r.value[k] == if k in row then row[k] else ""
  {
    if exists k :: k in row && k !in names then Err(ValueError("dict contains fields not in fieldnames"))
    else Ok(map k | k in names :: if k in row then row[k] else "")
  }

  /** How far the loop got: the rows written so far and whether it stopped
      on an exception. */
  datatype Progress = Progress(written: seq<Row>, status: Result<()>)

  /** The row loop over the first rows with loop body `step` (recompute,
      then write); an exception ends it, and the rows written before it
      stay in the file. */
  function Loop(step: Row --> Result<Row>, rows: seq<Row>): Progress
    requires forall r :: step.requires(r)
  {
    if |rows| == 0 then Progress([], Ok(()))
    else
      var p := Loop(step, rows[..|rows| - 1]);
      if p.status.Err? then p
      else
        match step(rows[|rows| - 1])
        case Err(e) => Progress(p.written, Err(e))
        case Ok(line) => Progress(p.written + [line], Ok(()))
  }

  /** The loop body for one row: recompute it, then write it. */
  function Process(n: Numerics, solve: seq<Point> -> real, fmt: Formats, names: seq<string>, row: Row): Result<Row>
    requires Sound(n)
  {
    match RecomputeRow(n, solve, fmt, row)
    case Err(e) => Err(e)
    case Ok(r) => WriteRow(names, r)
  }

  /** `Process` as the loop body. */
  function Step(n: Numerics, solve: seq<Point> -> real, fmt: Formats, names: seq<string>): (step: Row --> Result<Row>)
    requires Sound(n)
    ensures forall r :: step.requires(r)
    ensures forall r :: step(r) == Process(n, solve, fmt, names, r)
  {
    r requires Sound(n) => Process(n, solve, fmt, names, r)
  }

  /** The row loop of `update_curve_csv`. */
  function Rewrite(n: Numerics, solve: seq<Point> -> real, fmt: Formats, names: seq<string>, rows: seq<Row>): Progress
    requires Sound(n)
  {
    Loop(Step(n, solve, fmt, names), rows)
  }

  /** On success every row is written exactly once, in input order, as the
      loop body makes it. */
  lemma {:induction false} LoopSuccess(step: Row --> Result<Row>, rows: seq<Row>)
    requires forall r :: step.requires(r)
    requires Loop(step, rows).status.Ok?
    ensures |Loop(step, rows).written| == |rows|
    ensures forall i :: 0 <= i < |rows| ==> step(rows[i]) == Ok(Loop(step, rows).written[i])
  {
    if |rows| > 0 {
      var init := rows[..|rows| - 1];
      LoopSuccess(step, init);
      assert forall i :: 0 <= i < |init| ==> init[i] == rows[i];
    }
  }

  /** Without failure the loop writes one row per input row, and never more
      rows than it reads. */
  lemma {:induction false} LoopLength(step: Row --> Result<Row>, rows: seq<Row>)
    requires forall r :: step.requires(r)
    ensures Loop(step, rows).status.Ok? ==> |Loop(step, rows).written| == |rows|
    ensures |Loop(step, rows).written| <= |rows|
  {
    if |rows| > 0 {
      LoopLength(step, rows[..|rows| - 1]);
    }
  }

  /** On failure the file holds the rows before the failing one, all
      written successfully, and the error is that row's. */
  lemma {:induction false} LoopFailure(step: Row --> Result<Row>, rows: seq<Row>)
    requires forall r :: step.requires(r)
    requires Loop(step, rows).status.Err?
    ensures |Loop(step, rows).written| < |rows|
    ensures Loop(step, rows[..|Loop(step, rows).written|]) == Progress(Loop(step, rows).written, Ok(()))
    ensures step(rows[|Loop(step, rows).written|]) == Err(Loop(step, rows).status.error)
  {
    var init := rows[..|rows| - 1];
    var p0 := Loop(step, init);
    if p0.status.Err? {
      LoopFailure(step, init);
      assert rows[..|p0.written|] == init[..|p0.written|];
    } else {
      LoopLength(step, init);
      assert rows[..|p0.written|] == init;
    }
  }

  /** One more row: its failure stops the loop, its success is appended. */
  lemma LoopSnoc(step: Row --> Result<Row>, rows: seq<Row>, i: nat, written: seq<Row>)
    requires forall r :: step.requires(r)
    requires i < |rows|
    requires Loop(step, rows[..i]) == Progress(written, Ok(()))
    ensures step(rows[i]).Err? ==> Loop(step, rows[..i + 1]) == Progress(written, Err(step(rows[i]).error))
    ensures step(rows[i]).Ok? ==> Loop(step, rows[..i + 1]) == Progress(written + [step(rows[i]).value], Ok(()))
  {
    assert rows[..i + 1][..i] == rows[..i];
  }

  /** A failure in the first `i` rows is the outcome of the whole loop. */
  lemma {:induction false} LoopStop(step: Row --> Result<Row>, rows: seq<Row>, i: nat)
    requires forall r :: step.requires(r)
    requires i <= |rows|
    requires Loop(step, rows[..i]).status.Err?
    ensures Loop(step, rows) == Loop(step, rows[..i])
    decreases |rows| - i
  {
    if i < |rows| {
      assert rows[..i + 1][..i] == rows[..i];
      LoopStop(step, rows, i + 1);
    } else {
      assert rows[..i] == rows;
    }
  }

  /** A header without the arc-length column: the writer refuses the first
      row once it is recomputed (it then carries that column), so when the
      first row recomputes the run stops with ValueError and the output
      holds the header only. */
  lemma MissingMetricColumn(n: Numerics, solve: seq<Point> -> real, fmt: Formats, names: seq<string>, rows: seq<Row>)
    requires Sound(n)
    requires |rows| >= 1 && RecomputeRow(n, solve, fmt, rows[0]).Ok?
    requires ArcColumn !in names
    ensures Rewrite(n, solve, fmt, names, rows) == Progress([], Err(ValueError("dict contains fields not in fieldnames")))
  {
    var out := RecomputeRow(n, solve, fmt, rows[0]).value;
    assert ArcColumn in out by {
      RecomputeRowSpec(n, solve, fmt, rows[0]);
    }
    assert Process(n, solve, fmt, names, rows[0]).Err?;
    var step := Step(n, solve, fmt, names);
    assert rows[..1][..0] == [];
    assert Loop(step, rows[..1]) == Progress([], Err(ValueError("dict contains fields not in fieldnames")));
    LoopStop(step, rows, 1);
  }

  /** Rows read from a file all carry exactly the header's fields. */
  predicate Regular(t: CsvTable) {
    forall i :: 0 <= i < |t.rows| ==> t.rows[i].Keys == set k | k in t.fieldnames
  }

  /** When the header has the four metric columns, a regular file is
      rewritten with each row exactly as recomputed: nothing is lost or
      blanked by the writer. */
  lemma RegularRowsPassThrough(n: Numerics, solve: seq<Point> -> real, fmt: Formats, t: CsvTable, i: nat)
    requires Sound(n)
    requires Regular(t) && i < |t.rows|
    requires ArcColumn in t.fieldnames && RadiusColumn in t.fieldnames
    requires CurvatureColumn in t.fieldnames && AngleColumn in t.fieldnames
    requires RecomputeRow(n, solve, fmt, t.rows[i]).Ok?
    ensures Process(n, solve, fmt, t.fieldnames, t.rows[i]) == RecomputeRow(n, solve, fmt, t.rows[i])
  {
    var row := t.rows[i];
    RecomputeRowSpec(n, solve, fmt, row);
    var out := RecomputeRow(n, solve, fmt, row).value;
    assert row.Keys == set k | k in t.fieldnames;
    assert out.Keys == set k | k in t.fieldnames;
    assert WriteRow(t.fieldnames, out).value == out;
  }

  /** `output_csv = input_csv` when no output path is given. */
  function OutputPath(input: string, output: Option<string>): (p: string)
    ensures output.None? ==> p == input
    ensures output.Some? ==> p == output.value
  {
    if output.None? then input else output.value
  }

  /** The loop body: parse the cell, measure (the arc length by the
      accumulating loop), overwrite the four cells and pass the row to the
      writer. */
  method ProcessRow(n: Numerics, solve: seq<Point> -> real, fmt: Formats, names: seq<string>, row: Row)
    returns (r: Result<Row>)
    requires Sound(n)
    ensures r == Process(n, solve, fmt, names, row)
  {
    if CoordinatesColumn !in row {
      return Err(KeyError(CoordinatesColumn));
    }
    var pts := ParseQgsPointList(row[CoordinatesColumn]);
    if pts.Err? {
      return Err(pts.error);
    }
    var arc := CalculateArcLength(n, pts.value);
    var R := LeastSquaresRadius(solve, pts.value);
    if R.Err? {
      return Err(R.error);
    }
    var m := Measure(n, arc, R.value);
    var updated := row[ArcColumn := fmt.fixed6(m.arcLength)]
                      [RadiusColumn := RadiusText(fmt, m.radius)]
                      [CurvatureColumn := fmt.fixed8(m.curvature)]
                      [AngleColumn := fmt.fixed6(m.angleDeg)];
    r := WriteRow(names, updated);
  }

  /** The files the script reads and writes, by path. */
  class Workspace {
    var files: map<string, CsvTable>

    constructor (fs: map<string, CsvTable>)
      ensures files == fs
    {
      files := fs;
    }

    /** `update_curve_csv`: FileNotFoundError for a missing input, which
        leaves every file as it was; otherwise all rows are read first, the
        output (by default the input itself) is truncated to the header,
        and the rows are written until the first exception. */
    method UpdateCurveCsv(n: Numerics, solve: seq<Point> -> real, fmt: Formats, input: string, output: Option<string>)
      returns (r: Result<()>)
      requires Sound(n)
      modifies this
      ensures input !in old(files) ==> r == Err(FileNotFoundError(input)) && files == old(files)
      ensures input in old(files) ==>
        var t := old(files)[input];
        var p := Rewrite(n, solve, fmt, t.fieldnames, t.rows);
        && files == old(files)[OutputPath(input, output) := CsvTable(t.fieldnames, p.written)]
        && r == p.status
    {
      if input !in files {
        return Err(FileNotFoundError(input));
      }
      var t := files[input];
      var rows := t.rows;
      var out := OutputPath(input, output);
      ghost var before := files;
      ghost var step := Step(n, solve, fmt, t.fieldnames);
      files := files[out := CsvTable(t.fieldnames, [])];
      var written := [];
      var i := 0;
      while i < |rows|
        invariant i <= |rows|
        invariant Loop(step, rows[..i]) == Progress(written, Ok(()))
        invariant files == before[out := CsvTable(t.fieldnames, written)]
      {
        var line := ProcessRow(n, solve, fmt, t.fieldnames, rows[i]);
        assert step(rows[i]) == line;
        LoopSnoc(step, rows, i, written);
        if line.Err? {
          LoopStop(step, rows, i + 1);
          return Err(line.error);
        }
        written := written + [line.value];
        files := files[out := CsvTable(t.fieldnames, written)];
        i := i + 1;
      }
      assert rows[..i] == rows;
      r := Ok(());
    }
  }

  /** Updating in place keeps the field names and, on success, replaces
      every row of the input file by its recomputed version, in order. */
  lemma InPlaceUpdate(n: Numerics, solve: seq<Point> -> real, fmt: Formats, t: CsvTable)
    requires Sound(n)
    requires Rewrite(n, solve, fmt, t.fieldnames, t.rows).status.Ok?
    ensures |Rewrite(n, solve, fmt, t.fieldnames, t.rows).written| == |t.rows|
    ensures forall i :: 0 <= i < |t.rows| ==>
      Process(n, solve, fmt, t.fieldnames, t.rows[i]) == Ok(Rewrite(n, solve, fmt, t.fieldnames, t.rows).written[i])
  {
    LoopSuccess(Step(n, solve, fmt, t.fieldnames), t.rows);
  }
}
