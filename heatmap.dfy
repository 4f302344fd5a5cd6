/** elevation_heatmap_and_curvature.py: flatten the GeoJSON lines into
    numbered nodes and ways, centre the map, colour the segments by
    elevation (the scale and the segments are RailGraph's), and overlay
    the measured curves read back from the CSV. */
module CurveHeatmap {
  import opened Common
  import opened GeoJson
  import opened RailGraph
  import opened PointText

  // ---------------------------------------------------------------------
  // Flattening

  /** A way of the flattened graph: the feature's `id` property and the
      ids given to its coordinates. */
  datatype FlatWay = FlatWay(id: Option<int>, nodes: seq<int>)

  /** All coordinates of all features, in document order. */
  function AllCoords(fs: seq<Feature>): seq<Position> {
    if |fs| == 0 then [] else AllCoords(fs[..|fs| - 1]) + fs[|fs| - 1].coords
  }

  /** `lon, lat, elevation = coord` succeeds: exactly three components. */
  predicate Unpacks(p: Position) {
    |p.rest| == 1
  }

  /** The node dict built from an unpacked coordinate; a JSON `null`
      elevation is stored as `None`. */
  function NodeFrom(p: Position): Node
    requires Unpacks(p)
  {
    Node(p.lat, p.lon, if p.rest[0].Some? then Elev(p.rest[0].value) else Null)
  }

  /** The ids `first, first + 1, ..., first + count - 1`. */
  function IdRange(first: int, count: nat): (ids: seq<int>)
    ensures |ids| == count
    ensures forall j :: 0 <= j < count ==> ids[j] == first + j
  {
    seq(count, j requires 0 <= j < count => first + j)
  }

  /** The nodes dict the loop builds: node `i` of `ns` under id `i + 1`,
      ids inserted in increasing order. */
  function TableOf(ns: seq<Node>): (t: NodeTable)
    ensures WellFormed(t)
    ensures t.order == IdRange(1, |ns|)
    ensures Values(t) == ns
  {
    var ids := IdRange(1, |ns|);
    NodeTable(ids, map id | id in ids :: ns[id - 1])
  }

  /** The node of every coordinate, in document order. */
  predicate NodesFrom(ns: seq<Node>, cs: seq<Position>) {
    && |ns| == |cs|
    && forall i :: 0 <= i < |cs| ==> Unpacks(cs[i]) && ns[i] == NodeFrom(cs[i])
  }

  /** What flattening promises: one node per coordinate, numbered 1, 2, 3,
      ... in document order, and each feature's way lists exactly the ids
      of its own coordinates, ways in feature order. */
  predicate Flattened(fs: seq<Feature>, ns: seq<Node>, ways: seq<FlatWay>) {
    && NodesFrom(ns, AllCoords(fs))
    && WaysUpTo(fs, ways, |fs|)
  }

  /** The first `n` ways: way `k` carries feature `k`'s `id` and the ids of
      its coordinates, numbered on from those of the features before it. */
  predicate WaysUpTo(fs: seq<Feature>, ways: seq<FlatWay>, n: nat)
    requires n <= |fs|
  {
    && |ways| == n
    && forall k :: 0 <= k < n ==>
         ways[k] == FlatWay(fs[k].id, IdRange(|AllCoords(fs[..k])| + 1, |fs[k].coords|))
  }

  lemma WaysSnoc(fs: seq<Feature>, ways: seq<FlatWay>, n: nat)
    requires n < |fs| && WaysUpTo(fs, ways, n)
    ensures WaysUpTo(fs, ways + [FlatWay(fs[n].id, IdRange(|AllCoords(fs[..n])| + 1, |fs[n].coords|))], n + 1)
  {
  }

  lemma AllCoordsSplit(fs: seq<Feature>, k: nat)
    requires k < |fs|
    ensures AllCoords(fs[..k + 1]) == AllCoords(fs[..k]) + fs[k].coords
  {
    assert fs[..k + 1][..k] == fs[..k];
  }

  /** The coordinates of a prefix of the features are a prefix of all of
      them. */
  lemma {:induction false} AllCoordsPrefix(fs: seq<Feature>, k: nat)
    requires k <= |fs|
    ensures |AllCoords(fs[..k])| <= |AllCoords(fs)|
    ensures AllCoords(fs[..k]) == AllCoords(fs)[..|AllCoords(fs[..k])|]
    decreases |fs| - k
  {
    if k < |fs| {
      AllCoordsPrefix(fs, k + 1);
      AllCoordsSplit(fs, k);
    } else {
      assert fs[..k] == fs;
    }
  }

  /** Feature `k`'s coordinates sit in the flat list right after those of
      the features before it. */
  lemma AllCoordsAt(fs: seq<Feature>, k: nat, j: nat)
    requires k < |fs| && j < |fs[k].coords|
    ensures |AllCoords(fs[..k])| + j < |AllCoords(fs)|
    ensures AllCoords(fs)[|AllCoords(fs[..k])| + j] == fs[k].coords[j]
  {
    AllCoordsPrefix(fs, k + 1);
    AllCoordsSplit(fs, k);
    assert AllCoords(fs[..k + 1])[|AllCoords(fs[..k])| + j] == fs[k].coords[j];
  }

  /** Node `ways[k].nodes[j]` is in the table and holds coordinate `j` of
      feature `k`: every way refers to its own coordinates. */
  lemma WayNodesAreCoords(fs: seq<Feature>, ns: seq<Node>, ways: seq<FlatWay>, k: nat, j: nat)
    requires Flattened(fs, ns, ways)
    requires k < |fs| && j < |fs[k].coords|
    ensures ways[k].nodes[j] in TableOf(ns).data && Unpacks(fs[k].coords[j])
    ensures TableOf(ns).data[ways[k].nodes[j]] == NodeFrom(fs[k].coords[j])
  {
    AllCoordsAt(fs, k, j);
    var i := |AllCoords(fs[..k])| + j;
    var t := TableOf(ns);
    assert ways[k].nodes[j] == t.order[i];
    assert t.order[i] in t.data;
    assert Values(t)[i] == ns[i];
  }

  /** One feature's inner loop: the nodes of its coordinates and the ids
      `counter, counter + 1, ...` they get; the first coordinate that does
      not unpack raises ValueError. */
  method FlattenCoords(counter: int, cs: seq<Position>) returns (r: Result<(seq<Node>, seq<int>)>)
    ensures r.Ok? <==> forall j :: 0 <= j < |cs| ==> Unpacks(cs[j])
    ensures r.Err? ==> r.error.ValueError?
    ensures r.Ok? ==> NodesFrom(r.value.0, cs) && r.value.1 == IdRange(counter, |cs|)
  {
    var nodes: seq<Node> := [];
    var ids: seq<int> := [];
    var j := 0;
    while j < |cs|
      invariant j <= |cs|
      invariant NodesFrom(nodes, cs[..j])
      invariant ids == IdRange(counter, j)
    {
      var p := cs[j];
      if |p.rest| != 1 {
        return Err(ValueError("coordinate does not unpack into lon, lat, elevation"));
      }
      nodes := nodes + [NodeFrom(p)];
      ids := ids + [counter + j];
      j := j + 1;
    }
    assert cs[..j] == cs;
    r := Ok((nodes, ids));
  }

  /** The flattening loop: Ok with the numbered graph exactly when every
      coordinate has three components, else the ValueError of the first
      one that does not. */
  method Flatten(fs: seq<Feature>) returns (r: Result<(seq<Node>, seq<FlatWay>)>)
    ensures r.Ok? <==> forall i :: 0 <= i < |AllCoords(fs)| ==> Unpacks(AllCoords(fs)[i])
    ensures r.Err? ==> r.error.ValueError?
    ensures r.Ok? ==> Flattened(fs, r.value.0, r.value.1)
  {
    var nodes: seq<Node> := [];
    var ways: seq<FlatWay> := [];
    var counter := 1;
    var k := 0;
    while k < |fs|
      invariant k <= |fs|
      invariant counter == |AllCoords(fs[..k])| + 1
      invariant NodesFrom(nodes, AllCoords(fs[..k]))
      invariant WaysUpTo(fs, ways, k)
    {
      AllCoordsSplit(fs, k);
      var step := FlattenCoords(counter, fs[k].coords);
      if step.Err? {
        var j :| 0 <= j < |fs[k].coords| && !Unpacks(fs[k].coords[j]);
        AllCoordsAt(fs, k, j);
        return Err(step.error);
      }
      var (more, ids) := step.value;
      NodesFromAppend(nodes, AllCoords(fs[..k]), more, fs[k].coords);
      WaysSnoc(fs, ways, k);
      nodes := nodes + more;
      ways := ways + [FlatWay(fs[k].id, ids)];
      counter := counter + |fs[k].coords|;
      k := k + 1;
    }
    assert fs[..k] == fs;
    r := Ok((nodes, ways));
  }

  lemma NodesFromAppend(ns: seq<Node>, cs: seq<Position>, more: seq<Node>, ds: seq<Position>)
    requires NodesFrom(ns, cs) && NodesFrom(more, ds)
    ensures NodesFrom(ns + more, cs + ds)
  {
    forall i | 0 <= i < |cs + ds|
      ensures Unpacks((cs + ds)[i]) && (ns + more)[i] == NodeFrom((cs + ds)[i])
    {
      if i >= |cs| {
        assert (cs + ds)[i] == ds[i - |cs|];
      }
    }
  }

  // ---------------------------------------------------------------------
  // Map centre

  function Lats(ns: seq<Node>): (ls: seq<real>)
    ensures |ls| == |ns| && forall i :: 0 <= i < |ns| ==> ls[i] == ns[i].lat
  {
    seq(|ns|, i requires 0 <= i < |ns| => ns[i].lat)
  }

  function Lons(ns: seq<Node>): (ls: seq<real>)
    ensures |ls| == |ns| && forall i :: 0 <= i < |ns| ==> ls[i] == ns[i].lon
  {
    seq(|ns|, i requires 0 <= i < |ns| => ns[i].lon)
  }

  /** `((min_lat + max_lat) / 2, (min_lon + max_lon) / 2)` over
      `nodes.values()`; `min` of an empty list raises ValueError. */
  function MapCentre(ns: seq<Node>): (c: Result<(real, real)>)
    ensures c.Err? <==> |ns| == 0
  {
    if |ns| == 0 then Err(ValueError("min() arg is an empty sequence"))
    else Ok(((MinOf(Lats(ns)) + MaxOf(Lats(ns))) / 2.0, (MinOf(Lons(ns)) + MaxOf(Lons(ns))) / 2.0))
  }

  /** The centre lies between the southernmost and the northernmost node
      and between the westernmost and the easternmost node. */
  lemma CentreWithinBounds(ns: seq<Node>)
    requires |ns| > 0
    ensures exists i :: 0 <= i < |ns| && ns[i].lat <= MapCentre(ns).value.0
    ensures exists i :: 0 <= i < |ns| && MapCentre(ns).value.0 <= ns[i].lat
    ensures exists i :: 0 <= i < |ns| && ns[i].lon <= MapCentre(ns).value.1
    ensures exists i :: 0 <= i < |ns| && MapCentre(ns).value.1 <= ns[i].lon
  {
    var lats, lons := Lats(ns), Lons(ns);
    var a :| 0 <= a < |ns| && lats[a] == MinOf(lats);
    var b :| 0 <= b < |ns| && lats[b] == MaxOf(lats);
    var e :| 0 <= e < |ns| && lons[e] == MinOf(lons);
    var f :| 0 <= f < |ns| && lons[f] == MaxOf(lons);
    assert lats[b] in lats && lons[f] in lons;
    assert ns[a].lat <= MapCentre(ns).value.0 <= ns[b].lat;
    assert ns[e].lon <= MapCentre(ns).value.1 <= ns[f].lon;
  }

  // ---------------------------------------------------------------------
  // Elevation heatmap

  function WayIds(ways: seq<FlatWay>): (ids: seq<seq<int>>)
    ensures |ids| == |ways| && forall k :: 0 <= k < |ways| ==> ids[k] == ways[k].nodes
  {
    seq(|ways|, k requires 0 <= k < |ways| => ways[k].nodes)
  }

  /** The heatmap is drawn only `if elevations:`; then the scale's offset
      and the coloured segments of all ways. */
  method ColourSegments(ns: seq<Node>, ways: seq<FlatWay>) returns (r: Option<(real, seq<Segment>)>)
    ensures r.None? <==> |KnownElevations(ns)| == 0
    ensures r.Some? ==> r.value.0 == Offset(MinOf(KnownElevations(ns)))
    ensures r.Some? ==> r.value.1 == AllSegments(TableOf(ns), WayIds(ways))
  {
    var elevations := KnownElevations(ns);
    if |elevations| == 0 {
      return None;
    }
    var offset := Offset(MinOf(elevations));
    var segs := DrawSegments(TableOf(ns), WayIds(ways));
    r := Some((offset, segs));
  }

  /** Every segment of the heatmap has a positive shifted mean elevation,
      so `np.log(avg_elevation + offset)` is defined. */
  lemma HeatmapLogDefined(ns: seq<Node>, ways: seq<FlatWay>, s: Segment)
    requires s in AllSegments(TableOf(ns), WayIds(ways))
    ensures |KnownElevations(ns)| > 0
    ensures s.average + Offset(MinOf(KnownElevations(ns))) > 0.0
  {
    AllSegmentsShiftedPositive(TableOf(ns), WayIds(ways), s);
  }

  // ---------------------------------------------------------------------
  // Curve coordinates

  /** The equatorial radius the inverse Web Mercator (EPSG:3857) divides by. */
  const EarthRadius: real := 6378137.0

  /** `lon = (x / 6378137.0) * (180.0 / pi)`. */
  function LonOf(pi: real, x: real): real
    requires pi > 0.0
  {
    (x / EarthRadius) * (180.0 / pi)
  }

  /** Each point as `(lat, lon)`; the latitude formula (`arctan` of `exp`)
      is the parameter `latOf`, applied to the northing `y`. */
  function Unproject(pi: real, latOf: real -> real, pts: seq<Point>): (ll: seq<(real, real)>)
    requires pi > 0.0
    ensures |ll| == |pts|
    ensures forall k :: 0 <= k < |pts| ==> ll[k] == (latOf(pts[k].y), LonOf(pi, pts[k].x))
  {
    seq(|pts|, k requires 0 <= k < |pts| => (latOf(pts[k].y), LonOf(pi, pts[k].x)))
  }

  /** Converting one more pair appends its point to a successful result. */
  lemma {:induction false} ConvertPairsSnoc(ps: seq<(string, string)>, p: (string, string))
    requires ConvertPairs(ps).Ok?
    requires ParseFloat(p.0).Some? && ParseFloat(p.1).Some?
    ensures ConvertPairs(ps + [p]) == Ok(ConvertPairs(ps).value + [Point(ParseFloat(p.0).value, ParseFloat(p.1).value)])
  {
    var qs := ps + [p];
    var pt := [Point(ParseFloat(p.0).value, ParseFloat(p.1).value)];
    if |ps| == 0 {
      assert ps == [] && qs == [p] && qs[1..] == [];
      assert ConvertPairs(qs) == Ok(pt + []);
      assert [] + pt == pt + [] == pt;
    } else {
      assert qs[0] == ps[0];
      assert qs[1..] == ps[1..] + [p];
      ConvertPairsSnoc(ps[1..], p);
      var head := [Point(ParseFloat(ps[0].0).value, ParseFloat(ps[0].1).value)];
      var rest := ConvertPairs(ps[1..]).value;
      assert ConvertPairs(ps) == Ok(head + rest);
      assert ConvertPairs(qs) == Ok(head + (rest + pt));
      AppendAssoc(head, rest, pt);
    }
  }

  /** `parse_qgis_coords`: the scanner's matches, each converted with
      `float()` (the same pattern and conversion as the CSV updater's
      parser) and unprojected to `(lat, lon)`. */
  method ParseQgisCoords(pi: real, latOf: real -> real, s: string) returns (r: Result<seq<(real, real)>>)
    requires pi > 0.0
    ensures r.Ok? <==> ParseQgsPointList(s).Ok?
    ensures r.Ok? ==> r.value == Unproject(pi, latOf, ParseQgsPointList(s).value)
    ensures r.Err? ==> r.error == ParseQgsPointList(s).error
  {
    var matches := FindAll(s);
    assert ParseQgsPointList(s) == ConvertPairs(matches);
    var coords: seq<(real, real)> := [];
    ghost var pts: seq<Point> := [];
    var k := 0;
    while k < |matches|
      invariant k <= |matches|
      invariant ConvertPairs(matches[..k]) == Ok(pts)
      invariant coords == Unproject(pi, latOf, pts)
    {
      var (xs, ys) := matches[k];
      var x := ParseFloat(xs);
      var y := ParseFloat(ys);
      if x.None? || y.None? {
        FirstRejected(matches, k);
        return Err(ValueError(if x.None? then xs else ys));
      }
      ConvertPairsSnoc(matches[..k], matches[k]);
      PrefixSnoc(matches, k);
      UnprojectSnoc(pi, latOf, pts, Point(x.value, y.value));
      pts := pts + [Point(x.value, y.value)];
      coords := coords + [(latOf(y.value), LonOf(pi, x.value))];
      k := k + 1;
    }
    assert matches[..k] == matches;
    r := Ok(coords);
  }

  /** The first pair `float()` refuses decides the error: its `x` token
      when that one is refused, else its `y` token. */
  lemma {:induction false} FirstRejected(ps: seq<(string, string)>, k: nat)
    requires k < |ps|
    requires ConvertPairs(ps[..k]).Ok?
    requires ParseFloat(ps[k].0).None? || ParseFloat(ps[k].1).None?
    ensures ConvertPairs(ps) == Err(ValueError(if ParseFloat(ps[k].0).None? then ps[k].0 else ps[k].1))
  {
    if k > 0 {
      assert ps[..k][0] == ps[0];
      assert ps[..k][1..] == ps[1..][..k - 1];
      assert ps[1..][k - 1] == ps[k];
      FirstRejected(ps[1..], k - 1);
    }
  }

  lemma PrefixSnoc<T>(s: seq<T>, k: nat)
    requires k < |s|
    ensures s[..k + 1] == s[..k] + [s[k]]
  {
  }

  lemma UnprojectSnoc(pi: real, latOf: real -> real, pts: seq<Point>, pt: Point)
    requires pi > 0.0
    ensures Unproject(pi, latOf, pts + [pt]) == Unproject(pi, latOf, pts) + [(latOf(pt.y), LonOf(pi, pt.x))]
  {
    var a := Unproject(pi, latOf, pts + [pt]);
    var b := Unproject(pi, latOf, pts) + [(latOf(pt.y), LonOf(pi, pt.x))];
    forall k | 0 <= k < |a| ensures a[k] == b[k] {
      if k < |pts| { assert (pts + [pt])[k] == pts[k]; }
    }
  }

  // ---------------------------------------------------------------------
  // Curve overlay

  /** A CSV row read by `csv.DictReader`. */
  type Row = map<string, string>

  /** One overlaid curve: its coordinates and the two label texts. */
  datatype Overlay = Overlay(coords: seq<(real, real)>, arcLabel: string, angleLabel: string)

  const NotAvailable: string := "N/A"

  /** `row.get(column, 'N/A')`, then `f"{float(v):.2f}"` unless it is
      `'N/A'`; `format2` is that formatting, `None` where `float()` raises. */
  function Label(row: Row, column: string, format2: string -> Option<string>): (l: Result<string>)
    ensures (column !in row || row[column] == NotAvailable) ==> l == Ok(NotAvailable)
    ensures column in row && row[column] != NotAvailable ==>
      (l.Ok? <==> format2(row[column]).Some?) &&
      (l.Ok? ==> l.value == format2(row[column]).value) &&
      (l.Err? ==> l.error == ValueError(row[column]))
  {
    var v := if column in row then row[column] else NotAvailable;
    if v == NotAvailable then Ok(NotAvailable)
    else if format2(v).Some? then Ok(format2(v).value)
    else Err(ValueError(v))
  }

  /** One row of the curve file: its curve, drawn when it has more than one
      point, or `None`; a row without `Coordinates` raises KeyError. */
  function RowOverlay(pi: real, latOf: real -> real, format2: string -> Option<string>, row: Row)
    : Result<Option<Overlay>>
    requires pi > 0.0
  {
    if "Coordinates" !in row then Err(KeyError("Coordinates"))
    else
      var pts := ParseQgsPointList(row["Coordinates"]);
      if pts.Err? then Err(pts.error)
      else if |pts.value| <= 1 then Ok(None)
      else
        var arc := Label(row, "Arc Length (m)", format2);
        var angle := Label(row, "Angle (deg)", format2);
        if arc.Err? then Err(arc.error)
        else if angle.Err? then Err(angle.error)
        else Ok(Some(Overlay(Unproject(pi, latOf, pts.value), arc.value, angle.value)))
  }

  /** The overlays of the rows, in row order; the first error stops the
      script. */
  function Overlays(pi: real, latOf: real -> real, format2: string -> Option<string>, rows: seq<Row>)
    : Result<seq<Overlay>>
    requires pi > 0.0
  {
    if |rows| == 0 then Ok([])
    else
      match Overlays(pi, latOf, format2, rows[..|rows| - 1])
      case Err(e) => Err(e)
      case Ok(done) =>
        match RowOverlay(pi, latOf, format2, rows[|rows| - 1])
        case Err(e) => Err(e)
        case Ok(o) => Ok(done + (if o.Some? then [o.value] else []))
  }

  /** The body of the overlay loop for one row. */
  method DrawRow(pi: real, latOf: real -> real, format2: string -> Option<string>, row: Row)
    returns (r: Result<Option<Overlay>>)
    requires pi > 0.0
    ensures r == RowOverlay(pi, latOf, format2, row)
  {
    if "Coordinates" !in row {
      return Err(KeyError("Coordinates"));
    }
    var coords := ParseQgisCoords(pi, latOf, row["Coordinates"]);
    if coords.Err? {
      return Err(coords.error);
    }
    if |coords.value| <= 1 {
      return Ok(None);
    }
    var arc := Label(row, "Arc Length (m)", format2);
    var angle := Label(row, "Angle (deg)", format2);
    if arc.Err? {
      return Err(arc.error);
    }
    if angle.Err? {
      return Err(angle.error);
    }
    r := Ok(Some(Overlay(coords.value, arc.value, angle.value)));
  }

  /** The overlay loop; `None` is a missing curve file, which skips the
      whole overlay. */
  method DrawCurves(pi: real, latOf: real -> real, format2: string -> Option<string>, file: Option<seq<Row>>)
    returns (r: Result<seq<Overlay>>)
    requires pi > 0.0
    ensures file.None? ==> r == Ok([])
    ensures file.Some? ==> r == Overlays(pi, latOf, format2, file.value)
  {
    if file.None? {
      return Ok([]);
    }
    var rows := file.value;
    var drawn: seq<Overlay> := [];
    var i := 0;
    while i < |rows|
      invariant i <= |rows|
      invariant Overlays(pi, latOf, format2, rows[..i]) == Ok(drawn)
    {
      var o := DrawRow(pi, latOf, format2, rows[i]);
      OverlaysSnoc(pi, latOf, format2, rows, i, drawn);
      if o.Err? {
        OverlaysStop(pi, latOf, format2, rows, i + 1);
        return Err(o.error);
      }
      ghost var want := drawn + if o.value.Some? then [o.value.value] else [];
      if o.value.Some? {
        drawn := drawn + [o.value.value];
      } else {
        assert want == drawn;
      }
      assert Overlays(pi, latOf, format2, rows[..i + 1]) == Ok(drawn);
      i := i + 1;
    }
    assert rows[..i] == rows;
    r := Ok(drawn);
  }

  /** One more row: its error ends the loop, its overlay (if any) extends
      the result. */
  lemma OverlaysSnoc(pi: real, latOf: real -> real, format2: string -> Option<string>, rows: seq<Row>, i: nat, drawn: seq<Overlay>)
    requires pi > 0.0 && i < |rows|
    requires Overlays(pi, latOf, format2, rows[..i]) == Ok(drawn)
    ensures RowOverlay(pi, latOf, format2, rows[i]).Err? ==>
      Overlays(pi, latOf, format2, rows[..i + 1]) == Err(RowOverlay(pi, latOf, format2, rows[i]).error)
    ensures RowOverlay(pi, latOf, format2, rows[i]).Ok? ==>
      var o := RowOverlay(pi, latOf, format2, rows[i]).value;
      Overlays(pi, latOf, format2, rows[..i + 1]) == Ok(drawn + if o.Some? then [o.value] else [])
  {
    assert rows[..i + 1][..i] == rows[..i];
  }

  /** An error in the first `i` rows is the error of the whole file: the
      script stops there. */
  lemma {:induction false} OverlaysStop(pi: real, latOf: real -> real, format2: string -> Option<string>, rows: seq<Row>, i: nat)
    requires pi > 0.0
    requires i <= |rows|
    requires Overlays(pi, latOf, format2, rows[..i]).Err?
    ensures Overlays(pi, latOf, format2, rows) == Overlays(pi, latOf, format2, rows[..i])
    decreases |rows| - i
  {
    if i < |rows| {
      assert rows[..i + 1][..i] == rows[..i];
      OverlaysStop(pi, latOf, format2, rows, i + 1);
    } else {
      assert rows[..i] == rows;
    }
  }

  /** Every drawn curve has at least two points, there are no more curves
      than rows, and a label is `N/A` exactly when the row lacks that
      column or holds `N/A` in it. */
  lemma {:induction false} OverlaysShape(pi: real, latOf: real -> real, format2: string -> Option<string>, rows: seq<Row>)
    requires pi > 0.0
    requires Overlays(pi, latOf, format2, rows).Ok?
    ensures |Overlays(pi, latOf, format2, rows).value| <= |rows|
    ensures forall o :: o in Overlays(pi, latOf, format2, rows).value ==>
      |o.coords| >= 2 &&
      exists i :: 0 <= i < |rows| && RowOverlay(pi, latOf, format2, rows[i]) == Ok(Some(o))
  {
    if |rows| > 0 {
      var init := rows[..|rows| - 1];
      OverlaysShape(pi, latOf, format2, init);
      var done := Overlays(pi, latOf, format2, init).value;
      forall o | o in Overlays(pi, latOf, format2, rows).value
        ensures |o.coords| >= 2 &&
          exists i :: 0 <= i < |rows| && RowOverlay(pi, latOf, format2, rows[i]) == Ok(Some(o))
      {
        if o in done {
          var i :| 0 <= i < |init| && RowOverlay(pi, latOf, format2, init[i]) == Ok(Some(o));
          assert init[i] == rows[i];
        } else {
          assert RowOverlay(pi, latOf, format2, rows[|rows| - 1]) == Ok(Some(o));
        }
      }
    }
  }

  /** The labels of a drawn curve: `N/A` when the column is absent or says
      `N/A`, else the two-decimal rendering of the cell. */
  lemma RowOverlayLabels(pi: real, latOf: real -> real, format2: string -> Option<string>, row: Row)
    requires pi > 0.0
    requires RowOverlay(pi, latOf, format2, row).Ok? && RowOverlay(pi, latOf, format2, row).value.Some?
    ensures "Coordinates" in row && ParseQgsPointList(row["Coordinates"]).Ok?
    ensures var o := RowOverlay(pi, latOf, format2, row).value.value;
      && |o.coords| == |ParseQgsPointList(row["Coordinates"]).value| >= 2
      && (o.arcLabel == NotAvailable <==>
          "Arc Length (m)" !in row || row["Arc Length (m)"] == NotAvailable
          || format2(row["Arc Length (m)"]) == Some(NotAvailable))
      && ("Arc Length (m)" in row && row["Arc Length (m)"] != NotAvailable ==>
          Some(o.arcLabel) == format2(row["Arc Length (m)"]))
      && ("Angle (deg)" in row && row["Angle (deg)"] != NotAvailable ==>
          Some(o.angleLabel) == format2(row["Angle (deg)"]))
  {
  }
}
