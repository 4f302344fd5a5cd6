/** getting-coordinates.py: split the Overpass elements into a node table
    and a list of ways, look up every node's elevation in batches, join the
    answers back onto the nodes by `(lat, lon)`, and export one GeoJSON
    LineString per way. */
module OsmElevation {
  import opened Common
  import opened GeoJson
  import opened Batching
  import opened RailGraph

  /** `batch_size`. */
  const LookupBatch: nat := 100

  /** A way element: its id, its node ids and its `tags.name`, if any. */
  datatype Way = Way(id: int, nodes: seq<int>, name: Option<string>)

  /** One entry of the Overpass reply's `elements`. */
  datatype Element =
    | NodeElement(id: int, lat: real, lon: real)
    | WayElement(way: Way)
    | OtherElement

  // ---------------------------------------------------------------------
  // The partition loop (getting-coordinates.py:40-44)

  /** `nodes` after the loop: each node element stored under its id, with
      `lat` and `lon` and no `elevation` key yet. */
  function NodesOf(es: seq<Element>): (t: NodeTable)
    ensures WellFormed(t)
  {
    if |es| == 0 then Empty
    else
      var t := NodesOf(es[..|es| - 1]);
      match es[|es| - 1]
      case NodeElement(id, lat, lon) => Put(t, id, Node(lat, lon, NoKey))
      case _ => t
  }

  /** `ways` after the loop. */
  function WaysOf(es: seq<Element>): seq<Way> {
    if |es| == 0 then []
    else
      WaysOf(es[..|es| - 1]) + (if es[|es| - 1].WayElement? then [es[|es| - 1].way] else [])
  }

  predicate IsNode(e: Element, id: int) {
    e.NodeElement? && e.id == id
  }

  /** An id is in the table exactly when some node element carries it, and
      it holds the coordinates of the last such element: a later duplicate
      overwrites an earlier one. */
  lemma {:induction false} NodesOfLookup(es: seq<Element>, id: int, i: nat)
    requires i < |es| && IsNode(es[i], id)
    requires forall j :: i < j < |es| ==> !IsNode(es[j], id)
    ensures id in NodesOf(es).data
    ensures NodesOf(es).data[id] == Node(es[i].lat, es[i].lon, NoKey)
  {
    var init := es[..|es| - 1];
    if i < |es| - 1 {
      assert init[i] == es[i];
      forall j | i < j < |init| ensures !IsNode(init[j], id) {
        assert init[j] == es[j];
      }
      NodesOfLookup(init, id, i);
    }
  }

  /** An id no node element carries is not in the table. */
  lemma {:induction false} NodesOfAbsent(es: seq<Element>, id: int)
    requires forall j :: 0 <= j < |es| ==> !IsNode(es[j], id)
    ensures id !in NodesOf(es).data
  {
    if |es| > 0 {
      var init := es[..|es| - 1];
      forall j | 0 <= j < |init| ensures !IsNode(init[j], id) {
        assert init[j] == es[j];
      }
      NodesOfAbsent(init, id);
    }
  }

  /** Ways are kept in order: the way list of two stretches of elements is
      the ways of the first followed by the ways of the second, and other
      element types contribute nothing. */
  lemma {:induction false} WaysOfAppend(a: seq<Element>, b: seq<Element>)
    ensures WaysOf(a + b) == WaysOf(a) + WaysOf(b)
    decreases |b|
  {
    if |b| > 0 {
      assert (a + b)[..|a + b| - 1] == a + b[..|b| - 1];
      WaysOfAppend(a, b[..|b| - 1]);
    } else {
      assert a + b == a;
    }
  }

  lemma WaysOfSingle(e: Element)
    ensures WaysOf([e]) == if e.WayElement? then [e.way] else []
  {
    assert [e][..0] == [];
  }

  // ---------------------------------------------------------------------
  // Elevation lookup (getting-coordinates.py:59-86)

  /** `[(lat, lon) for node_data in nodes.values()]`. */
  function Locations(t: NodeTable): (locs: seq<(real, real)>)
    requires WellFormed(t)
    ensures |locs| == |t.order|
    ensures forall i :: 0 <= i < |locs| ==>
      locs[i] == (t.data[t.order[i]].lat, t.data[t.order[i]].lon)
  {
    seq(|t.order|, i requires 0 <= i < |t.order| => (t.data[t.order[i]].lat, t.data[t.order[i]].lon))
  }

  /** One entry of a reply's `results`: the location the service echoes and
      its `elevation`, `None` when absent or null. */
  datatype ElevationResult = ElevationResult(lat: real, lng: real, elevation: Option<real>)

  /** What one request yields: an exception, a reply without `"results"`,
      or the results. */
  datatype LookupResponse = Failed | Unanswered | Answered(results: seq<ElevationResult>)

  /** `elevation_results` after the fetch loop: the results of every
      answered batch, in batch order. */
  function Collected(bs: seq<seq<(real, real)>>, fetch: (nat, seq<(real, real)>) -> LookupResponse, i: nat): seq<ElevationResult>
    decreases |bs|
  {
    if |bs| == 0 then []
    else
      (match fetch(i, bs[0]) case Answered(rs) => rs case _ => [])
        + Collected(bs[1..], fetch, i + 1)
  }

  /** The fetch loop; `i` numbers the batches from 1. */
  method CollectResults(locs: seq<(real, real)>, fetch: (nat, seq<(real, real)>) -> LookupResponse)
    returns (results: seq<ElevationResult>)
    ensures results == Collected(Chunks(locs, LookupBatch), fetch, 1)
  {
    var batches := ChunkList(locs, LookupBatch);
    results := [];
    var i := 1;
    while i <= |batches|
      invariant 1 <= i <= |batches| + 1
      invariant results + Collected(batches[i - 1..], fetch, i) == Collected(batches, fetch, 1)
    {
      assert batches[i - 1..][1..] == batches[i..];
      var response := fetch(i, batches[i - 1]);
      ghost var got := match response case Answered(rs) => rs case _ => [];
      ghost var rest := Collected(batches[i..], fetch, i + 1);
      assert Collected(batches[i - 1..], fetch, i) == got + rest;
      ghost var prev := results;
      if response.Answered? {
        results := results + response.results;
      }
      assert results == prev + got;
      AppendAssoc(prev, got, rest);
      i := i + 1;
    }
    assert batches[i - 1..] == [];
  }

  /** `elevation_map`: location to elevation, a later result for the same
      location replacing an earlier one. */
  function ElevationMap(rs: seq<ElevationResult>): map<(real, real), Option<real>> {
    if |rs| == 0 then map[]
    else
      var r := rs[|rs| - 1];
      ElevationMap(rs[..|rs| - 1])[(r.lat, r.lng) := r.elevation]
  }

  /** A location is a key exactly when some result echoes it, and it maps
      to the elevation of the last such result. */
  lemma {:induction false} ElevationMapLookup(rs: seq<ElevationResult>, i: nat)
    requires i < |rs|
    requires forall j :: i < j < |rs| ==> (rs[j].lat, rs[j].lng) != (rs[i].lat, rs[i].lng)
    ensures (rs[i].lat, rs[i].lng) in ElevationMap(rs)
    ensures ElevationMap(rs)[(rs[i].lat, rs[i].lng)] == rs[i].elevation
  {
    var init := rs[..|rs| - 1];
    if i < |rs| - 1 {
      assert init[i] == rs[i];
      forall j | i < j < |init| ensures (init[j].lat, init[j].lng) != (init[i].lat, init[i].lng) {
        assert init[j] == rs[j];
      }
      ElevationMapLookup(init, i);
    }
  }

  lemma {:induction false} ElevationMapAbsent(rs: seq<ElevationResult>, loc: (real, real))
    requires forall j :: 0 <= j < |rs| ==> (rs[j].lat, rs[j].lng) != loc
    ensures loc !in ElevationMap(rs)
  {
    if |rs| > 0 {
      var init := rs[..|rs| - 1];
      forall j | 0 <= j < |init| ensures (init[j].lat, init[j].lng) != loc {
        assert init[j] == rs[j];
      }
      ElevationMapAbsent(init, loc);
    }
  }

  // ---------------------------------------------------------------------
  // Enrichment (getting-coordinates.py:88-93)

  /** The elevation a looked-up value gives the node dict. */
  function FieldOf(v: Option<real>): ElevationField {
    if v.Some? then Elev(v.value) else Null
  }

  /** The node after `nodes[node_id]['elevation'] = ...`. */
  function Enriched(n: Node, emap: map<(real, real), Option<real>>): Node {
    n.(elevation := if (n.lat, n.lon) in emap then FieldOf(emap[(n.lat, n.lon)]) else Null)
  }

  function EnrichTable(t: NodeTable, emap: map<(real, real), Option<real>>): (r: NodeTable)
    requires WellFormed(t)
    ensures WellFormed(r)
  {
    NodeTable(t.order, map id | id in t.data :: Enriched(t.data[id], emap))
  }

  /** After enrichment every node has an elevation entry: the looked-up
      value when its location is a key, otherwise `None`; ids, order,
      latitudes and longitudes are unchanged. */
  lemma EnrichTableSpec(t: NodeTable, emap: map<(real, real), Option<real>>, id: int)
    requires WellFormed(t) && id in t.data
    ensures EnrichTable(t, emap).order == t.order
    ensures EnrichTable(t, emap).data.Keys == t.data.Keys
    ensures var n := t.data[id];
      var m := EnrichTable(t, emap).data[id];
      && m.lat == n.lat && m.lon == n.lon && !m.elevation.NoKey?
      && (m.elevation.Elev? <==> (n.lat, n.lon) in emap && emap[(n.lat, n.lon)].Some?)
      && (m.elevation.Elev? ==> Some(m.elevation.e) == emap[(n.lat, n.lon)])
  {
  }

  // ---------------------------------------------------------------------
  // Export (getting-coordinates.py:169-194)

  const UnnamedRailway: string := "Unnamed Railway"

  /** `node.get('elevation', 0)`: the default only applies to a node with
      no elevation key at all. */
  function ExportedElevation(f: ElevationField): Option<real> {
    match f
    case NoKey => Some(0.0)
    case Null => None
    case Elev(e) => Some(e)
  }

  /** The coordinates of one way: `[lon, lat, elevation]` for each of its
      node ids found in the table, in order. */
  function ExportCoords(t: NodeTable, ids: seq<int>): seq<Position> {
    if |ids| == 0 then []
    else
      var id := ids[|ids| - 1];
      ExportCoords(t, ids[..|ids| - 1])
        + (if id in t.data
           then [WithElevation(t.data[id].lon, t.data[id].lat, ExportedElevation(t.data[id].elevation))]
           else [])
  }

  function ExportWay(t: NodeTable, w: Way): Feature {
    Feature(Some(if w.name.Some? then w.name.value else UnnamedRailway), Some(w.id), ExportCoords(t, w.nodes))
  }

  /** The export is a homomorphism over the way's node list: the positions
      of two stretches of ids are those of the first followed by those of
      the second. */
  lemma {:induction false} ExportCoordsAppend(t: NodeTable, a: seq<int>, b: seq<int>)
    ensures ExportCoords(t, a + b) == ExportCoords(t, a) + ExportCoords(t, b)
    decreases |b|
  {
    if |b| > 0 {
      assert (a + b)[..|a + b| - 1] == a + b[..|b| - 1];
      ExportCoordsAppend(t, a, b[..|b| - 1]);
    } else {
      assert a + b == a;
    }
  }

  /** One node id: its position if the node is in the table, nothing if
      it is not. */
  lemma ExportCoordsSingle(t: NodeTable, id: int)
    ensures ExportCoords(t, [id]) == if id in t.data
      then [WithElevation(t.data[id].lon, t.data[id].lat, ExportedElevation(t.data[id].elevation))]
      else []
  {
    assert [id][..0] == [];
  }

  /** Because enrichment gave every node an elevation key, an exported
      position's third component is the looked-up elevation, and `None`
      (never the default 0) for a node whose location was not answered. */
  lemma ExportAfterEnrich(t: NodeTable, emap: map<(real, real), Option<real>>, id: int)
    requires WellFormed(t) && id in t.data
    ensures var n := t.data[id];
      ExportCoords(EnrichTable(t, emap), [id])
        == [WithElevation(n.lon, n.lat, if (n.lat, n.lon) in emap then emap[(n.lat, n.lon)] else None)]
  {
    ExportCoordsSingle(EnrichTable(t, emap), id);
  }

  /** The inner loop of the export, over one way's node ids. */
  method ExportCoordinates(t: NodeTable, ids: seq<int>) returns (coords: seq<Position>)
    ensures coords == ExportCoords(t, ids)
  {
    coords := [];
    var k := 0;
    while k < |ids|
      invariant k <= |ids|
      invariant coords == ExportCoords(t, ids[..k])
    {
      assert ids[..k + 1][..k] == ids[..k];
      var id := ids[k];
      if id in t.data {
        var node := t.data[id];
        coords := coords + [WithElevation(node.lon, node.lat, ExportedElevation(node.elevation))];
      }
      k := k + 1;
    }
    assert ids[..k] == ids;
  }

  /** The way ids and node ids as the drawing loop reads them. */
  function NodeLists(ways: seq<Way>): (ls: seq<seq<int>>)
    ensures |ls| == |ways|
    ensures forall k :: 0 <= k < |ways| ==> ls[k] == ways[k].nodes
  {
    seq(|ways|, k requires 0 <= k < |ways| => ways[k].nodes)
  }

  // ---------------------------------------------------------------------
  // The script's state

  class OsmData {
    /** `nodes`. */
    var nodes: NodeTable
    /** `ways`. */
    var ways: seq<Way>

    ghost predicate Valid()
      reads this
    {
      WellFormed(nodes)
    }

    constructor ()
      ensures Valid() && nodes == Empty && ways == []
    {
      nodes := Empty;
      ways := [];
    }

    /** The partition loop (getting-coordinates.py:40-44), from empty. */
    method Partition(elements: seq<Element>)
      requires nodes == Empty && ways == []
      modifies this
      ensures Valid()
      ensures nodes == NodesOf(elements) && ways == WaysOf(elements)
    {
      var k := 0;
      while k < |elements|
        invariant k <= |elements|
        invariant nodes == NodesOf(elements[..k]) && ways == WaysOf(elements[..k])
      {
        assert elements[..k + 1][..k] == elements[..k];
        match elements[k] {
          case NodeElement(id, lat, lon) =>
            nodes := Put(nodes, id, Node(lat, lon, NoKey));
          case WayElement(w) =>
            ways := ways + [w];
          case OtherElement =>
        }
        k := k + 1;
      }
      assert elements[..k] == elements;
    }

    /** The enrichment loop (getting-coordinates.py:88-93). */
    method Enrich(emap: map<(real, real), Option<real>>)
      requires Valid()
      modifies this
      ensures Valid()
      ensures nodes == EnrichTable(old(nodes), emap) && ways == old(ways)
    {
      var k := 0;
      while k < |nodes.order|
        invariant WellFormed(nodes) && nodes.order == old(nodes).order && ways == old(ways)
        invariant nodes.data.Keys == old(nodes).data.Keys
        invariant k <= |nodes.order|
        invariant forall j :: 0 <= j < k ==> nodes.data[nodes.order[j]] == Enriched(old(nodes).data[nodes.order[j]], emap)
        invariant forall j :: k <= j < |nodes.order| ==> nodes.data[nodes.order[j]] == old(nodes).data[nodes.order[j]]
      {
        var id := nodes.order[k];
        var node := nodes.data[id];
        var elevation := if (node.lat, node.lon) in emap then FieldOf(emap[(node.lat, node.lon)]) else Null;
        nodes := NodeTable(nodes.order, nodes.data[id := node.(elevation := elevation)]);
        k := k + 1;
      }
      forall id | id in nodes.data
        ensures nodes.data[id] == Enriched(old(nodes).data[id], emap)
      {
        assert id in nodes.order;
        var j :| 0 <= j < |nodes.order| && nodes.order[j] == id;
      }
      assert nodes.data == EnrichTable(old(nodes), emap).data;
    }

    /** The segment loop (getting-coordinates.py:127-157). */
    method Segments() returns (segs: seq<Segment>)
      ensures segs == AllSegments(nodes, NodeLists(ways))
    {
      segs := DrawSegments(nodes, NodeLists(ways));
    }

    /** The export loop (getting-coordinates.py:169-194): one feature per
        way, in way order. */
    method Export() returns (features: seq<Feature>)
      ensures |features| == |ways|
      ensures forall k :: 0 <= k < |ways| ==> features[k] == ExportWay(nodes, ways[k])
    {
      features := [];
      var k := 0;
      while k < |ways|
        invariant k <= |ways| && |features| == k
        invariant forall j :: 0 <= j < k ==> features[j] == ExportWay(nodes, ways[j])
      {
        var w := ways[k];
        var coordinates := ExportCoordinates(nodes, w.nodes);
        var name := if w.name.Some? then w.name.value else UnnamedRailway;
        features := features + [Feature(Some(name), Some(w.id), coordinates)];
        k := k + 1;
      }
    }
  }
}
