/** curvature-tool-qgis.py: the "Find Curvature" action of the QGIS
    toolbar. It measures the most recently drawn arc (three-point
    circumradius), stores the metrics on the feature, appends a row to the
    CSV file chosen on first use, and deletes every older arc. */
module CurvatureTool {
  import opened Common
  import opened CurveMetrics

  /** A feature of the memory layer: its vertices in the layer's CRS and
      its four metric attributes, `None` until measured. */
  datatype DrawnArc = DrawnArc(vertices: seq<Point>, attrs: Option<Metrics>)

  /** A record of the save file: the header written when the path is
      chosen, or one measurement `[arc, R, curvature, angle, coords]`. */
  datatype Record = HeaderRecord | MeasureRecord(metrics: Metrics, coords: seq<Point>)

  const Header: seq<string> := ["Arc Length (m)", "Radius (m)", "Curvature (1/m)", "Angle (deg)", "Coordinates"]

  /** The globals `drawn_layer` and `save_file`, and the files on disk. */
  datatype ToolState = ToolState(layer: Option<map<int, DrawnArc>>, saveFile: Option<string>, files: map<string, seq<Record>>)

  /** How a call ends: one of the two warnings, a cancelled dialog, a
      saved measurement, or an exception. */
  datatype Outcome = NoArc | TooFewPoints | Cancelled | Saved | Failed(error: Failure)

  // ---------------------------------------------------------------------
  // The measured feature (curvature-tool-qgis.py:52-71)

  /** `max(f.id() for f in drawn_layer.getFeatures())`. */
  ghost function LatestFid(fids: set<int>): (m: int)
    requires fids != {}
    ensures m in fids && forall f :: f in fids ==> f <= m
  {
    MaxExists(fids);
    var m :| m in fids && forall f :: f in fids ==> f <= m;
    m
  }

  /** A non-empty set of ids has a member. */
  lemma HasMember(fids: set<int>)
    requires fids != {}
    ensures exists f :: f in fids
  {
    if forall f :: f !in fids {
      assert false;
    }
  }

  lemma {:induction false} MaxExists(fids: set<int>)
    requires fids != {}
    ensures exists m :: m in fids && forall f :: f in fids ==> f <= m
    decreases |fids|
  {
    HasMember(fids);
    var x :| x in fids;
    if fids - {x} != {} {
      MaxExists(fids - {x});
      var m :| m in fids - {x} && forall f :: f in fids - {x} ==> f <= m;
      assert forall f :: f in fids ==> f == x || f in fids - {x};
      if x > m {
        assert forall f :: f in fids ==> f <= x;
      } else {
        assert forall f :: f in fids ==> f <= m;
      }
    } else {
      assert fids == {x};
    }
  }

  /** The largest feature id, by a pass over the ids. */
  method MaxFeatureId(fids: set<int>) returns (m: int)
    requires fids != {}
    ensures m == LatestFid(fids)
  {
    var rest := fids;
    HasMember(fids);
    m :| m in fids;
    while rest != {}
      invariant rest <= fids && m in fids
      invariant forall f :: f in fids && f !in rest ==> f <= m
      decreases |rest|
    {
      HasMember(rest);
      var f :| f in rest;
      if f > m {
        m := f;
      }
      rest := rest - {f};
    }
  }

  /** `geom_m.transform(xform)` then `asPolyline()`: every vertex mapped to
      the metre-based CRS, in order. */
  function Transform(xform: Point -> Point, vs: seq<Point>): (ps: seq<Point>)
    ensures |ps| == |vs| && forall i :: 0 <= i < |vs| ==> ps[i] == xform(vs[i])
  {
    seq(|vs|, i requires 0 <= i < |vs| => xform(vs[i]))
  }

  /** What the call has measured once past both guards. */
  datatype Prepared = Stop(outcome: Outcome) | Ready(fid: int, coords: seq<Point>, metrics: Metrics)

  /** The two guards, then arc length, radius, curvature and angle of the
      latest feature. */
  ghost function Prepare(n: Numerics, xform: Point -> Point, s: ToolState): Prepared
    requires Sound(n)
  {
    if s.layer.None? || |s.layer.value| == 0 then Stop(NoArc)
    else
      var fid := LatestFid(s.layer.value.Keys);
      var coords := Transform(xform, s.layer.value[fid].vertices);
      if |coords| < 3 then Stop(TooFewPoints)
      else Ready(fid, coords, Measure(n, ArcLength(n, coords), ThreePointRadius(n, coords)))
  }

  // ---------------------------------------------------------------------
  // Saving (curvature-tool-qgis.py:83-93)

  /** `open(path, 'a')` and one `writerow`: the record is appended to the
      file, which is created when missing; the empty path raises
      FileNotFoundError. */
  function AppendRecord(files: map<string, seq<Record>>, path: string, rec: Record): (r: Result<map<string, seq<Record>>>)
    ensures r.Err? <==> path == ""
    ensures r.Ok? ==> r.value == files[path := (if path in files then files[path] else []) + [rec]]
  {
    if path == "" then Err(FileNotFoundError(path))
    else Ok(files[path := (if path in files then files[path] else []) + [rec]])
  }

  /** The save step once a path is in effect: `answer` when the dialog was
      shown in this call (the file is created with its header first),
      `save_file` otherwise; then one record is appended. */
  function SaveTo(s: ToolState, answer: string, rec: Record): (ToolState, Outcome) {
    if s.saveFile.None? then
      var created := s.files[answer := [HeaderRecord]];
      match AppendRecord(created, answer, rec)
      case Err(e) => (s.(saveFile := Some(answer), files := created), Failed(e))
      case Ok(fs) => (s.(saveFile := Some(answer), files := fs), Saved)
    else
      match AppendRecord(s.files, s.saveFile.value, rec)
      case Err(e) => (s, Failed(e))
      case Ok(fs) => (s.(files := fs), Saved)
  }

  /** The save step as written: the dialog's answer is stored in
      `save_file` before it is tested, so a cancelled dialog leaves `''`
      there, the dialog is never shown again, and every later save opens
      the empty path (EmptyPathSticks). */
  function SaveAsWritten(s: ToolState, answer: string, rec: Record): (ToolState, Outcome) {
    if s.saveFile.None? && answer == "" then (s.(saveFile := Some(answer)), Cancelled)
    else SaveTo(s, answer, rec)
  }

  /** The save step as intended: a cancelled dialog leaves `save_file`
      unset, so the next measurement asks again. */
  function SaveStep(s: ToolState, answer: string, rec: Record): (ToolState, Outcome) {
    if s.saveFile.None? && answer == "" then (s, Cancelled)
    else SaveTo(s, answer, rec)
  }

  // ---------------------------------------------------------------------
  // The whole call (curvature-tool-qgis.py:44-107)

  /** `feat[...] = ...; updateFeature(feat)`: the metrics on feature `fid`. */
  function Annotate(layer: map<int, DrawnArc>, fid: int, m: Metrics): (l: map<int, DrawnArc>)
    requires fid in layer
    ensures l.Keys == layer.Keys
    ensures l[fid] == DrawnArc(layer[fid].vertices, Some(m))
    ensures forall f :: f in layer && f != fid ==> l[f] == layer[f]
  {
    layer[fid := layer[fid].(attrs := Some(m))]
  }

  /** The call with a given save step; after a save every feature but
      `fid` is deleted. */
  ghost function Call(n: Numerics, xform: Point -> Point, answer: string, s: ToolState, asWritten: bool): (ToolState, Outcome)
    requires Sound(n)
  {
    match Prepare(n, xform, s)
    case Stop(o) => (s, o)
    case Ready(fid, coords, m) =>
      var s1 := s.(layer := Some(Annotate(s.layer.value, fid, m)));
      var rec := MeasureRecord(m, coords);
      var (s2, o) := if asWritten then SaveAsWritten(s1, answer, rec) else SaveStep(s1, answer, rec);
      if o == Saved then (s2.(layer := Some(map[fid := s1.layer.value[fid]])), o) else (s2, o)
  }

  /** `calculate_curvature` as written. */
  ghost function CalculateCurvatureAsWritten(n: Numerics, xform: Point -> Point, answer: string, s: ToolState): (ToolState, Outcome)
    requires Sound(n)
  {
    Call(n, xform, answer, s, true)
  }

  /** `calculate_curvature` with the intended save step: the model of the action. */
  ghost function CalculateCurvatureFixed(n: Numerics, xform: Point -> Point, answer: string, s: ToolState): (ToolState, Outcome)
    requires Sound(n)
  {
    Call(n, xform, answer, s, false)
  }

  // ---------------------------------------------------------------------
  // Properties

  /** Without a layer, without features, or with fewer than three vertices
      on the latest feature, the call warns and changes nothing. */
  lemma GuardsChangeNothing(n: Numerics, xform: Point -> Point, answer: string, s: ToolState)
    requires Sound(n)
    ensures CalculateCurvatureFixed(n, xform, answer, s).1 == NoArc <==> s.layer.None? || |s.layer.value| == 0
    ensures CalculateCurvatureFixed(n, xform, answer, s).1 == TooFewPoints <==>
      s.layer.Some? && |s.layer.value| > 0 && |s.layer.value[LatestFid(s.layer.value.Keys)].vertices| < 3
    ensures CalculateCurvatureFixed(n, xform, answer, s).1 in {NoArc, TooFewPoints} ==>
      CalculateCurvatureFixed(n, xform, answer, s).0 == s
  {
  }

  /** A call that gets past the guards measures the feature with the
      largest id, from its transformed vertices, with the three-point fit;
      the metrics obey the curvature and angle rule. */
  lemma MeasuresLatest(n: Numerics, xform: Point -> Point, s: ToolState)
    requires Sound(n)
    requires Prepare(n, xform, s).Ready?
    ensures var p := Prepare(n, xform, s);
      && s.layer.Some? && p.fid in s.layer.value
      && (forall f :: f in s.layer.value ==> f <= p.fid)
      && p.coords == Transform(xform, s.layer.value[p.fid].vertices) && |p.coords| >= 3
      && p.metrics.arcLength == ArcLength(n, p.coords)
      && p.metrics.radius == ThreePointRadius(n, p.coords)
      && FollowsRule(n, p.metrics)
      && p.metrics.curvature >= 0.0 && p.metrics.angleDeg >= 0.0
      && p.metrics == Measure(n, ArcLength(n, p.coords), ThreePointRadius(n, p.coords))
  {
    PrepareReady(n, xform, s);
    var fid := LatestFid(s.layer.value.Keys);
    var coords := Transform(xform, s.layer.value[fid].vertices);
    var m := Prepare(n, xform, s).metrics;
    MeasureRule(n, m);
  }

  /** Past the guards, `Prepare` measures the latest feature. */
  lemma PrepareReady(n: Numerics, xform: Point -> Point, s: ToolState)
    requires Sound(n)
    requires Prepare(n, xform, s).Ready?
    ensures s.layer.Some? && |s.layer.value| > 0
    ensures var fid := LatestFid(s.layer.value.Keys);
      var coords := Transform(xform, s.layer.value[fid].vertices);
      && |coords| >= 3
      && Prepare(n, xform, s) == Ready(fid, coords, Measure(n, ArcLength(n, coords), ThreePointRadius(n, coords)))
  {
  }

  /** A saved measurement leaves exactly the measured feature, carrying its
      metrics, and appends exactly one record to the save file: after the
      header when the path was chosen in this call, after the file's
      previous records otherwise. No other file changes. */
  lemma {:induction false} SavedState(n: Numerics, xform: Point -> Point, answer: string, s: ToolState)
    requires Sound(n)
    requires CalculateCurvatureFixed(n, xform, answer, s).1 == Saved
    ensures Prepare(n, xform, s).Ready?
    ensures var p, s' := Prepare(n, xform, s), CalculateCurvatureFixed(n, xform, answer, s).0;
      var path := if s.saveFile.None? then answer else s.saveFile.value;
      var before := if s.saveFile.None? then [HeaderRecord] else if path in s.files then s.files[path] else [];
      && s'.layer == Some(map[p.fid := DrawnArc(s.layer.value[p.fid].vertices, Some(p.metrics))])
      && s'.saveFile == Some(path) && path != ""
      && s'.files == s.files[path := before + [MeasureRecord(p.metrics, p.coords)]]
  {
  }

  /** Cancelling the dialog keeps every feature (the latest one now with
      its metrics), writes nothing and leaves `save_file` unset. */
  lemma CancelledState(n: Numerics, xform: Point -> Point, s: ToolState)
    requires Sound(n)
    requires Prepare(n, xform, s).Ready? && s.saveFile.None?
    ensures var p, r := Prepare(n, xform, s), CalculateCurvatureFixed(n, xform, "", s);
      && r.1 == Cancelled
      && r.0 == s.(layer := Some(Annotate(s.layer.value, p.fid, p.metrics)))
  {
  }

  /** `save_file` never holds the empty path. */
  predicate UsableSave(s: ToolState) {
    s.saveFile != Some("")
  }

  /** With the intended save step the path stays usable and a call never
      fails, whatever the dialog answers. */
  lemma NeverFails(n: Numerics, xform: Point -> Point, answer: string, s: ToolState)
    requires Sound(n) && UsableSave(s)
    ensures UsableSave(CalculateCurvatureFixed(n, xform, answer, s).0)
    ensures !CalculateCurvatureFixed(n, xform, answer, s).1.Failed?
  {
  }

  /** The finding, as written: a measurement whose dialog is cancelled
      leaves `''` in `save_file`, and the next measurement that passes the
      guards fails with FileNotFoundError, whatever is answered; from then
      on EmptyPathSticks applies. */
  lemma {:induction false} CancelThenFails(n: Numerics, xform: Point -> Point, answer: string, s: ToolState)
    requires Sound(n)
    requires Prepare(n, xform, s).Ready? && s.saveFile.None?
    ensures var s1 := CalculateCurvatureAsWritten(n, xform, "", s);
      && s1.1 == Cancelled && s1.0.saveFile == Some("")
      && CalculateCurvatureAsWritten(n, xform, answer, s1.0).1 == Failed(FileNotFoundError(""))
  {
    var s1 := CalculateCurvatureAsWritten(n, xform, "", s).0;
    SamePreparation(n, xform, s, s1);
  }

  /** As written, once `save_file` holds `''` it holds it for good: on any
      layer and whatever the dialog would answer, a call keeps `''`, and a
      call that passes the guards fails with FileNotFoundError. With
      CancelThenFails, every measurement after a cancel fails. */
  lemma EmptyPathSticks(n: Numerics, xform: Point -> Point, answer: string, s: ToolState)
    requires Sound(n) && s.saveFile == Some("")
    ensures CalculateCurvatureAsWritten(n, xform, answer, s).0.saveFile == Some("")
    ensures Prepare(n, xform, s).Ready? ==>
      CalculateCurvatureAsWritten(n, xform, answer, s).1 == Failed(FileNotFoundError(""))
  {
  }

  /** The same sequence with the intended save step: the second
      measurement asks again and saves. */
  lemma {:induction false} CancelThenAsksAgain(n: Numerics, xform: Point -> Point, answer: string, s: ToolState)
    requires Sound(n)
    requires Prepare(n, xform, s).Ready? && s.saveFile.None? && answer != ""
    ensures var s1 := CalculateCurvatureFixed(n, xform, "", s);
      && s1.1 == Cancelled && s1.0.saveFile.None?
      && CalculateCurvatureFixed(n, xform, answer, s1.0).1 == Saved
  {
    var s1 := CalculateCurvatureFixed(n, xform, "", s).0;
    SamePreparation(n, xform, s, s1);
  }

  /** Storing the metrics changes neither the ids nor the vertices, so the
      next call measures the same feature the same way. */
  lemma SamePreparation(n: Numerics, xform: Point -> Point, s: ToolState, s1: ToolState)
    requires Sound(n) && Prepare(n, xform, s).Ready?
    requires s1.layer == Some(Annotate(s.layer.value, Prepare(n, xform, s).fid, Prepare(n, xform, s).metrics))
    ensures Prepare(n, xform, s1) == Prepare(n, xform, s)
  {
    var p := Prepare(n, xform, s);
    assert s1.layer.value.Keys == s.layer.value.Keys;
    assert |s1.layer.value| == |s.layer.value|;
  }

  // ---------------------------------------------------------------------
  // The tool

  class Tool {
    var layer: Option<map<int, DrawnArc>>
    var saveFile: Option<string>
    var files: map<string, seq<Record>>

    function State(): ToolState
      reads this
    {
      ToolState(layer, saveFile, files)
    }

    /** Loading the script: `save_file = None` and `create_drawing_layer()`
        adds an empty memory layer. */
    constructor (fs: map<string, seq<Record>>)
      ensures State() == ToolState(Some(map[]), None, fs)
    {
      layer := Some(map[]);
      saveFile := None;
      files := fs;
    }

    /** `reset_layer`: truncate the layer if there is one. */
    method ResetLayer()
      modifies this
      ensures layer == (if old(layer).Some? then Some(map[]) else None)
      ensures saveFile == old(saveFile) && files == old(files)
    {
      if layer.Some? {
        layer := Some(map[]);
      }
    }

    /** The deletion loop: every feature whose id is not `fid` goes. */
    method DeleteOthers(fid: int)
      requires layer.Some? && fid in layer.value
      modifies this
      ensures layer == Some(map[fid := old(layer).value[fid]])
      ensures saveFile == old(saveFile) && files == old(files)
    {
      var features := layer.value;
      var rest := features.Keys;
      while rest != {}
        invariant rest <= features.Keys
        invariant layer.Some? && layer.value.Keys == rest + {fid}
        invariant forall f :: f in layer.value ==> layer.value[f] == features[f]
        invariant saveFile == old(saveFile) && files == old(files)
        decreases |rest|
      {
        HasMember(rest);
        var f :| f in rest;
        if f != fid {
          layer := Some(layer.value - {f});
        }
        rest := rest - {f};
      }
      assert layer.value == map[fid := features[fid]];
    }

    /** The "Find Curvature" action. `xform` is the transform to EPSG:3857
        and `answer` what the file dialog returns if it is shown (`""` for
        cancel). */
    method CalculateCurvature(n: Numerics, xform: Point -> Point, answer: string) returns (o: Outcome)
      requires Sound(n)
      modifies this
      ensures (State(), o) == CalculateCurvatureFixed(n, xform, answer, old(State()))
    {
      if layer.None? || |layer.value| == 0 {
        return NoArc;
      }
      var features := layer.value;
      var fid := MaxFeatureId(features.Keys);
      var coords := Transform(xform, features[fid].vertices);
      if |coords| < 3 {
        return TooFewPoints;
      }
      var arc := CalculateArcLength(n, coords);
      var R := ThreePointRadius(n, coords);
      var m := Measure(n, arc, R);
      layer := Some(Annotate(features, fid, m));
      ghost var s1 := State();
      var rec := MeasureRecord(m, coords);
      if saveFile.None? {
        if answer == "" {
          return Cancelled;
        }
        saveFile := Some(answer);
        files := files[answer := [HeaderRecord]];
      }
      var appended := AppendRecord(files, saveFile.value, rec);
      if appended.Err? {
        return Failed(appended.error);
      }
      files := appended.value;
      assert (State(), Saved) == SaveStep(s1, answer, rec);
      DeleteOthers(fid);
      o := Saved;
    }
  }
}
