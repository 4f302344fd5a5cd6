/** Curve metrics shared by the batch re-computation (curve-update.py) and the
    interactive tool (curvature-tool-qgis.py): arc length along the traced
    polyline, the two circle fits, and the rule that turns an arc length and
    a radius into a curvature and a subtended angle. */
module CurveMetrics {
  import opened Common

  /** A fitted radius, or the `float('inf')` sentinel both scripts use for a
      straight (degenerate) fit. */
  datatype Radius = Finite(r: real) | Infinite

  /** What each script derives from one curve. */
  datatype Metrics = Metrics(arcLength: real, radius: Radius, curvature: real, angleDeg: real)

  /** Sum of the distances between consecutive points, as a specification. */
  function ArcLength(n: Numerics, pts: seq<Point>): (len: real)
    requires Sound(n)
    ensures len >= 0.0
    ensures |pts| < 2 ==> len == 0.0
  {
    if |pts| < 2 then 0.0
    else ArcLength(n, pts[..|pts| - 1]) + n.dist(pts[|pts| - 2], pts[|pts| - 1])
  }

  /** `calculate_arc_length`: the accumulating loop. */
  method CalculateArcLength(n: Numerics, coords: seq<Point>) returns (length: real)
    requires Sound(n)
    ensures length == ArcLength(n, coords)
  {
    length := 0.0;
    if |coords| == 0 {
      return;
    }
    var i := 0;
    while i < |coords| - 1
      invariant 0 <= i <= |coords| - 1
      invariant length == ArcLength(n, coords[..i + 1])
    {
      assert coords[..i + 2][..i + 1] == coords[..i + 1];
      length := length + n.dist(coords[i], coords[i + 1]);
      i := i + 1;
    }
    assert coords[..i + 1] == coords;
  }

  /** Appending one point adds exactly the distance from the old last point. */
  lemma ArcLengthAppend(n: Numerics, pts: seq<Point>, p: Point)
    requires Sound(n) && |pts| >= 1
    ensures ArcLength(n, pts + [p]) == ArcLength(n, pts) + n.dist(pts[|pts| - 1], p)
  {
    assert (pts + [p])[..|pts|] == pts;
  }

  /** Prepending one point adds exactly the distance to the old first point. */
  lemma {:induction false} ArcLengthPrepend(n: Numerics, p: Point, pts: seq<Point>)
    requires Sound(n) && |pts| >= 1
    ensures ArcLength(n, [p] + pts) == n.dist(p, pts[0]) + ArcLength(n, pts)
  {
    if |pts| == 1 {
      assert ([p] + pts)[..1] == [p];
    } else {
      var init := pts[..|pts| - 1];
      ArcLengthPrepend(n, p, init);
      assert ([p] + pts)[..|pts|] == [p] + init;
    }
  }

  function Reverse<T>(s: seq<T>): (r: seq<T>)
    ensures |r| == |s|
    ensures forall i :: 0 <= i < |s| ==> r[i] == s[|s| - 1 - i]
  {
    if s == [] then [] else Reverse(s[1..]) + [s[0]]
  }

  /** Tracing the same polyline backwards gives the same arc length. */
  lemma {:induction false} ArcLengthReverse(n: Numerics, pts: seq<Point>)
    requires Sound(n)
    ensures ArcLength(n, Reverse(pts)) == ArcLength(n, pts)
  {
    if |pts| >= 2 {
      var tail := pts[1..];
      ArcLengthReverse(n, tail);
      ArcLengthAppend(n, Reverse(tail), pts[0]);
      ArcLengthPrepend(n, pts[0], tail);
      assert [pts[0]] + tail == pts;
    }
  }

  /** The positions of the three points the circumradius fit uses: first,
      middle (`len // 2`) and last. */
  function FitIndices(len: nat): (idx: (nat, nat, nat))
    requires len >= 1
    ensures idx.0 <= idx.1 <= idx.2 < len
    ensures len >= 3 ==> idx.0 < idx.1 < idx.2
  {
    (0, len / 2, len - 1)
  }

  /** Heron's radicand s(s-a)(s-b)(s-c) with s the half perimeter. */
  function HeronRadicand(a: real, b: real, c: real): real {
    var s := (a + b + c) / 2.0;
    s * (s - a) * (s - b) * (s - c)
  }

  /** `math.sqrt(max(radicand, 0))`: the area, never negative, and zero
      exactly when the radicand is not positive. */
  function TriangleArea(n: Numerics, a: real, b: real, c: real): (area: real)
    requires Sound(n)
    ensures area >= 0.0
    ensures area == 0.0 <==> HeronRadicand(a, b, c) <= 0.0
  {
    var h := HeronRadicand(a, b, c);
    n.sqrt(if h > 0.0 then h else 0.0)
  }

  /** A triangle with a side of length zero has a zero radicand: the two
      other sides are then equal and the half perimeter equals one of them. */
  lemma HeronDegenerate(a: real, b: real, c: real)
    requires a == 0.0 && b == c
    ensures HeronRadicand(a, b, c) == 0.0
  {
    var s := (a + b + c) / 2.0;
    assert s - b == 0.0;
    ZeroFactor(s * (s - a), s - b, s - c);
  }

  lemma ZeroFactor(x: real, y: real, z: real)
    requires y == 0.0
    ensures x * y * z == 0.0
  {
  }

  /** `fit_circle_radius` of curvature-tool-qgis.py: the circumradius of the
      first, middle and last points, or the infinite sentinel when the area is
      zero. A finite result is always positive. */
  function ThreePointRadius(n: Numerics, pts: seq<Point>): (R: Radius)
    requires Sound(n) && |pts| >= 1
    ensures R.Finite? ==> R.r > 0.0
    ensures R.Infinite? <==> HeronRadicand(Sides(n, pts).0, Sides(n, pts).1, Sides(n, pts).2) <= 0.0
    ensures R.Finite? ==> R.r * 4.0 * TriangleArea(n, Sides(n, pts).0, Sides(n, pts).1, Sides(n, pts).2)
                          == Sides(n, pts).0 * Sides(n, pts).1 * Sides(n, pts).2
  {
    var (a, b, c) := Sides(n, pts);
    ZeroSideFlat(n, pts);
    CircleFromSides(n, a, b, c)
  }

  /** `A*B*C / (4*area)` if the area is non-zero, else the sentinel. */
  function CircleFromSides(n: Numerics, a: real, b: real, c: real): (R: Radius)
    requires Sound(n) && a >= 0.0 && b >= 0.0 && c >= 0.0
    requires a == 0.0 || b == 0.0 || c == 0.0 ==> HeronRadicand(a, b, c) == 0.0
    ensures R.Finite? ==> R.r > 0.0 && R.r * 4.0 * TriangleArea(n, a, b, c) == a * b * c
    ensures R.Infinite? <==> HeronRadicand(a, b, c) <= 0.0
  {
    var area := TriangleArea(n, a, b, c);
    if area != 0.0 then Circumradius(a, b, c, area) else Infinite
  }

  /** The circumradius does not depend on the order of the sides. */
  lemma CircleFromSidesSymmetric(n: Numerics, a: real, b: real, c: real)
    requires Sound(n) && a >= 0.0 && b >= 0.0 && c >= 0.0
    requires a == 0.0 || b == 0.0 || c == 0.0 ==> HeronRadicand(a, b, c) == 0.0
    ensures HeronRadicand(c, b, a) == HeronRadicand(a, b, c)
    ensures CircleFromSides(n, c, b, a) == CircleFromSides(n, a, b, c)
  {
    assert HeronRadicand(c, b, a) == HeronRadicand(a, b, c);
    assert c * b * a == a * b * c;
  }

  /** The side lengths A, B, C opposite the first, middle and last point. */
  function Sides(n: Numerics, pts: seq<Point>): (abc: (real, real, real))
    requires Sound(n) && |pts| >= 1
    ensures abc.0 >= 0.0 && abc.1 >= 0.0 && abc.2 >= 0.0
  {
    var (i, j, k) := FitIndices(|pts|);
    (n.dist(pts[j], pts[k]), n.dist(pts[i], pts[k]), n.dist(pts[i], pts[j]))
  }

  /** A side of length zero makes the radicand zero: two of the three
      points coincide, so the two other sides are equal. */
  lemma ZeroSideFlat(n: Numerics, pts: seq<Point>)
    requires Sound(n) && |pts| >= 1
    ensures var (a, b, c) := Sides(n, pts);
            a == 0.0 || b == 0.0 || c == 0.0 ==> HeronRadicand(a, b, c) == 0.0
  {
    var (a, b, c) := Sides(n, pts);
    if a == 0.0 {
      HeronDegenerate(a, b, c);
    } else if b == 0.0 {
      HeronDegenerate(b, a, c);
      assert HeronRadicand(b, a, c) == HeronRadicand(a, b, c);
    } else if c == 0.0 {
      HeronDegenerate(c, a, b);
      assert HeronRadicand(c, a, b) == HeronRadicand(a, b, c);
    }
  }

  function Circumradius(a: real, b: real, c: real, area: real): (R: Radius)
    requires a > 0.0 && b > 0.0 && c > 0.0 && area > 0.0
    ensures R.Finite? && R.r > 0.0 && R.r * 4.0 * area == a * b * c
  {
    Finite(a * b * c / (4.0 * area))
  }

  /** For an odd number of points the middle point of the reversed curve is
      the same point, so tracing backwards gives the same circumradius. */
  lemma ThreePointRadiusReverse(n: Numerics, pts: seq<Point>)
    requires Sound(n) && |pts| >= 1 && |pts| % 2 == 1
    ensures ThreePointRadius(n, Reverse(pts)) == ThreePointRadius(n, pts)
  {
    var (a, b, c) := Sides(n, pts);
    assert Reverse(pts)[|pts| / 2] == pts[|pts| / 2];
    assert Sides(n, Reverse(pts)) == (c, b, a);
    ZeroSideFlat(n, pts);
    CircleFromSidesSymmetric(n, a, b, c);
  }

  /** The post-processing of the least-squares fit in curve-update.py: the
      solver's radius `r` is kept when positive and becomes the infinite
      sentinel when `r <= 0`. The solver itself is the parameter `solve`;
      an empty point list makes numpy's column indexing raise IndexError
      before the solver runs. */
  function LeastSquaresRadius(solve: seq<Point> -> real, pts: seq<Point>): (R: Result<Radius>)
    ensures R.Err? <==> |pts| == 0
    ensures R.Err? ==> R.error == IndexError
    ensures R.Ok? ==> (R.value.Infinite? <==> solve(pts) <= 0.0)
    ensures R.Ok? && R.value.Finite? ==> R.value.r > 0.0 && R.value.r == solve(pts)
  {
    if |pts| == 0 then Err(IndexError)
    else
      var r := solve(pts);
      if r <= 0.0 then Ok(Infinite) else Ok(Finite(r))
  }

  /** The radii the two fits can produce: the sentinel or a positive value. */
  predicate Admissible(R: Radius) {
    R.Finite? ==> R.r > 0.0
  }

  /** The rule both scripts apply to a radius R: curvature `1/R` and angle
      `(arc/R)(180/pi)`, both 0 for the sentinel. */
  predicate FollowsRule(n: Numerics, m: Metrics) {
    && (m.radius.Infinite? ==> m.curvature == 0.0 && m.angleDeg == 0.0)
    && (m.radius.Finite? ==> m.curvature * m.radius.r == 1.0)
    && (m.radius.Finite? ==> m.angleDeg * n.pi == m.arcLength * m.curvature * 180.0)
  }

  /** Metrics that `Measure` computed follow the rule. */
  lemma MeasureRule(n: Numerics, m: Metrics)
    requires Sound(n) && Admissible(m.radius)
    requires m == Measure(n, m.arcLength, m.radius)
    ensures FollowsRule(n, m)
    ensures m.arcLength >= 0.0 ==> m.curvature >= 0.0 && m.angleDeg >= 0.0
  {
  }

  /** Curvature `1/R` and angle `(arc/R)(180/pi)`, both 0 for the sentinel. */
  function Measure(n: Numerics, arc: real, R: Radius): (m: Metrics)
    requires Sound(n) && Admissible(R)
    ensures m.arcLength == arc && m.radius == R
    ensures R.Infinite? ==> m.curvature == 0.0 && m.angleDeg == 0.0
    ensures R.Finite? ==> m.curvature * R.r == 1.0
    ensures R.Finite? ==> m.angleDeg * n.pi == arc * m.curvature * 180.0
    ensures arc >= 0.0 ==> m.curvature >= 0.0 && m.angleDeg >= 0.0
  {
    match R
    case Infinite => Metrics(arc, R, 0.0, 0.0)
    case Finite(r) => Metrics(arc, R, 1.0 / r, (arc / r) * (180.0 / n.pi))
  }
}
