/** The GeoJSON values the railway scripts read and write: LineString
    features whose positions follow section 3.1.1 of RFC 7946,
    `[longitude, latitude, elevation]`. */
module GeoJson {
  import opened Common

  /** One position `[lon, lat, *rest]`; `rest` holds the components after
      the first two, a JSON `null` being `None`. */
  datatype Position = Position(lon: real, lat: real, rest: seq<Option<real>>)

  /** A LineString feature: its `name` property (`None` when absent), its
      `id` property (`None` when absent or null) and its coordinates. */
  datatype Feature = Feature(name: Option<string>, id: Option<int>, coords: seq<Position>)

  /** `rest[0] if rest else None`: the elevation a position carries. */
  function Elevation(p: Position): Option<real> {
    if |p.rest| > 0 then p.rest[0] else None
  }

  /** The position `[lon, lat, elevation]`. */
  function WithElevation(lon: real, lat: real, e: Option<real>): (p: Position)
    ensures Elevation(p) == e && |p.rest| == 1
  {
    Position(lon, lat, [e])
  }
}
