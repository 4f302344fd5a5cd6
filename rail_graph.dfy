/** The node table and way lists both map scripts build
    (getting-coordinates.py, elevation_heatmap_and_curvature.py), the
    logarithmic colour scale's offset, and the pairing of consecutive way
    nodes into coloured segments. */
module RailGraph {
  import opened Common

  /** A node dict's `elevation` entry: not set yet, `None`, or a number. */
  datatype ElevationField = NoKey | Null | Elev(e: real)

  datatype Node = Node(lat: real, lon: real, elevation: ElevationField)

  /** A Python dict from node id to node: the entries and the insertion
      order of the keys, which `values()` and `items()` follow. */
  datatype NodeTable = NodeTable(order: seq<int>, data: map<int, Node>)

  predicate WellFormed(t: NodeTable) {
    && (forall i, j :: 0 <= i < j < |t.order| ==> t.order[i] != t.order[j])
    && t.data.Keys == set id | id in t.order
  }

  const Empty: NodeTable := NodeTable([], map[])

  /** `nodes[id] = node`: a new key goes to the end, an existing key keeps
      its place and gets the new value. */
  function Put(t: NodeTable, id: int, n: Node): (r: NodeTable)
    requires WellFormed(t)
    ensures WellFormed(r)
    ensures r.data == t.data[id := n]
    ensures id in t.data ==> r.order == t.order
    ensures id !in t.data ==> r.order == t.order + [id]
  {
    if id in t.data then NodeTable(t.order, t.data[id := n])
    else NodeTable(t.order + [id], t.data[id := n])
  }

  /** `nodes.get(id)`. */
  function Get(t: NodeTable, id: int): Option<Node> {
    if id in t.data then Some(t.data[id]) else None
  }

  /** `nodes.values()`, in insertion order. */
  function Values(t: NodeTable): (vs: seq<Node>)
    requires WellFormed(t)
    ensures |vs| == |t.order|
    ensures forall i :: 0 <= i < |vs| ==> vs[i] == t.data[t.order[i]]
  {
    seq(|t.order|, i requires 0 <= i < |t.order| => t.data[t.order[i]])
  }

  // ---------------------------------------------------------------------
  // The colour scale

  /** `[node['elevation'] for node in nodes.values() if ... is not None]`. */
  function KnownElevations(ns: seq<Node>): (es: seq<real>)
    ensures forall x :: x in es <==> exists i :: 0 <= i < |ns| && ns[i].elevation == Elev(x)
  {
    if |ns| == 0 then []
    else
      var rest := KnownElevations(ns[..|ns| - 1]);
      var last := ns[|ns| - 1];
      assert forall i :: 0 <= i < |ns| - 1 ==> ns[..|ns| - 1][i] == ns[i];
      rest + (if last.elevation.Elev? then [last.elevation.e] else [])
  }

  /** Python's `min` on a non-empty list. */
  function MinOf(s: seq<real>): (m: real)
    requires |s| > 0
    ensures m in s
    ensures forall x :: x in s ==> m <= x
  {
    if |s| == 1 then s[0]
    else
      var m := MinOf(s[1..]);
      assert forall x :: x in s ==> x == s[0] || x in s[1..];
      if s[0] <= m then s[0] else m
  }

  /** Python's `max` on a non-empty list. */
  function MaxOf(s: seq<real>): (m: real)
    requires |s| > 0
    ensures m in s
    ensures forall x :: x in s ==> x <= m
  {
    if |s| == 1 then s[0]
    else
      var m := MaxOf(s[1..]);
      assert forall x :: x in s ==> x == s[0] || x in s[1..];
      if s[0] >= m then s[0] else m
  }

  /** `-min_elevation + 1 if min_elevation <= 0 else 0`. */
  function Offset(minElevation: real): real {
    if minElevation <= 0.0 then -minElevation + 1.0 else 0.0
  }

  /** Every elevation of the list, shifted by the offset, is positive, so
      its logarithm is defined; the smallest one becomes exactly 1 when it
      was not positive. */
  lemma ShiftedPositive(es: seq<real>, x: real)
    requires x in es
    ensures x + Offset(MinOf(es)) > 0.0
    ensures MinOf(es) <= 0.0 ==> MinOf(es) + Offset(MinOf(es)) == 1.0
  {
  }

  /** So is the mean of any two of them, the value a segment is coloured by. */
  lemma AveragePositive(es: seq<real>, x: real, y: real)
    requires x in es && y in es
    ensures (x + y) / 2.0 + Offset(MinOf(es)) > 0.0
  {
    ShiftedPositive(es, x);
    ShiftedPositive(es, y);
  }

  // ---------------------------------------------------------------------
  // Segments

  /** One drawn line: the endpoints as `(lat, lon)` and the mean elevation. */
  datatype Segment = Segment(from: (real, real), to: (real, real), average: real)

  /** The test `node1 and node2 and both elevations are not None` and the
      segment drawn when it holds. */
  function SegmentOf(t: NodeTable, a: int, b: int): Option<Segment> {
    match (Get(t, a), Get(t, b))
    case (Some(n1), Some(n2)) =>
      if n1.elevation.Elev? && n2.elevation.Elev? then
        Some(Segment((n1.lat, n1.lon), (n2.lat, n2.lon), (n1.elevation.e + n2.elevation.e) / 2.0))
      else None
    case _ => None
  }

  /** The segments of one way: consecutive node ids `i`, `i + 1`. */
  function WaySegments(t: NodeTable, ids: seq<int>): (segs: seq<Segment>)
    decreases |ids|
  {
    if |ids| < 2 then []
    else
      var s := SegmentOf(t, ids[|ids| - 2], ids[|ids| - 1]);
      WaySegments(t, ids[..|ids| - 1]) + (if s.Some? then [s.value] else [])
  }

  /** The segments of all ways, way after way. */
  function AllSegments(t: NodeTable, ways: seq<seq<int>>): seq<Segment> {
    if |ways| == 0 then []
    else AllSegments(t, ways[..|ways| - 1]) + WaySegments(t, ways[|ways| - 1])
  }

  /** A way of `k` nodes gives at most `k - 1` segments. */
  lemma {:induction false} WaySegmentsBound(t: NodeTable, ids: seq<int>)
    ensures |WaySegments(t, ids)| <= if |ids| == 0 then 0 else |ids| - 1
    decreases |ids|
  {
    if |ids| >= 2 {
      WaySegmentsBound(t, ids[..|ids| - 1]);
    }
  }

  /** Each segment joins two consecutive nodes of its way that are both in
      the table with an elevation, and carries their mean. */
  lemma {:induction false} WaySegmentsSound(t: NodeTable, ids: seq<int>, s: Segment)
    requires s in WaySegments(t, ids)
    ensures exists i :: 0 <= i < |ids| - 1 && SegmentOf(t, ids[i], ids[i + 1]) == Some(s)
    decreases |ids|
  {
    var init := ids[..|ids| - 1];
    var last := SegmentOf(t, ids[|ids| - 2], ids[|ids| - 1]);
    if s in WaySegments(t, init) {
      WaySegmentsSound(t, init, s);
      var i :| 0 <= i < |init| - 1 && SegmentOf(t, init[i], init[i + 1]) == Some(s);
      assert init[i] == ids[i] && init[i + 1] == ids[i + 1];
    } else {
      assert last == Some(s);
    }
  }

  /** Every drawn segment is coloured by a mean whose shifted value is
      positive: the logarithm of the scale is always defined. */
  lemma SegmentShiftedPositive(t: NodeTable, ids: seq<int>, s: Segment)
    requires WellFormed(t)
    requires s in WaySegments(t, ids)
    ensures |KnownElevations(Values(t))| > 0
    ensures s.average + Offset(MinOf(KnownElevations(Values(t)))) > 0.0
  {
    WaySegmentsSound(t, ids, s);
    var i :| 0 <= i < |ids| - 1 && SegmentOf(t, ids[i], ids[i + 1]) == Some(s);
    var n1 := t.data[ids[i]];
    var n2 := t.data[ids[i + 1]];
    var vs := Values(t);
    var k1 :| 0 <= k1 < |t.order| && t.order[k1] == ids[i];
    var k2 :| 0 <= k2 < |t.order| && t.order[k2] == ids[i + 1];
    assert vs[k1] == n1 && vs[k2] == n2;
    var es := KnownElevations(vs);
    assert n1.elevation.e in es;
    assert n2.elevation.e in es;
    AveragePositive(es, n1.elevation.e, n2.elevation.e);
  }

  /** The same for the segments of all ways. */
  lemma {:induction false} AllSegmentsShiftedPositive(t: NodeTable, ways: seq<seq<int>>, s: Segment)
    requires WellFormed(t)
    requires s in AllSegments(t, ways)
    ensures |KnownElevations(Values(t))| > 0
    ensures s.average + Offset(MinOf(KnownElevations(Values(t)))) > 0.0
  {
    var init := ways[..|ways| - 1];
    if s in AllSegments(t, init) {
      AllSegmentsShiftedPositive(t, init, s);
    } else {
      SegmentShiftedPositive(t, ways[|ways| - 1], s);
    }
  }

  /** The drawing loops over the ways and their consecutive node pairs. */
  method DrawSegments(t: NodeTable, ways: seq<seq<int>>) returns (segs: seq<Segment>)
    ensures segs == AllSegments(t, ways)
  {
    segs := [];
    var w := 0;
    while w < |ways|
      invariant w <= |ways|
      invariant segs == AllSegments(t, ways[..w])
    {
      var ids := ways[w];
      assert ways[..w + 1][..w] == ways[..w];
      if |ids| > 0 {
        var i := 0;
        while i + 1 < |ids|
          invariant i < |ids|
          invariant segs == AllSegments(t, ways[..w]) + WaySegments(t, ids[..i + 1])
        {
          assert ids[..i + 2][..i + 1] == ids[..i + 1];
          var s := SegmentOf(t, ids[i], ids[i + 1]);
          if s.Some? {
            segs := segs + [s.value];
          }
          i := i + 1;
        }
        assert ids[..i + 1] == ids;
      }
      w := w + 1;
    }
    assert ways[..w] == ways;
  }
}
