/** Values shared by every script of the railway-curvature workflow: optional
    values, results that carry the Python exception a step would raise, and
    planar points with the numeric primitives the curve scripts rely on. */
module Common {

  datatype Option<+T> = None | Some(value: T)

  /** Either a value, or the exception the Python code raises instead. */
  datatype Result<+T> = Ok(value: T) | Err(error: Failure)

  /** The Python exceptions the modelled code can raise and does not catch. */
  datatype Failure =
    | ValueError(detail: string)
    | KeyError(key: string)
    | IndexError
    | FileNotFoundError(path: string)

  /** A point in a planar, metric coordinate system (EPSG:3857 metres for the
      curve scripts). */
  datatype Point = Point(x: real, y: real)

  /** The numeric primitives the curve scripts take from Python's `math`
      module, as parameters: `math.dist`, `math.sqrt` and `math.pi`. Each is
      known only through the laws of `Sound`. */
  datatype Numerics = Numerics(dist: (Point, Point) -> real, sqrt: real -> real, pi: real)

  ghost predicate Sound(n: Numerics) {
    && (forall p, q :: n.dist(p, q) >= 0.0)
    && (forall p, q :: n.dist(p, q) == n.dist(q, p))
    && (forall p, q :: n.dist(p, q) == 0.0 <==> p == q)
    && (forall v :: v >= 0.0 ==> n.sqrt(v) >= 0.0)
    && (forall v :: v > 0.0 ==> n.sqrt(v) > 0.0)
    && n.sqrt(0.0) == 0.0
    && n.pi > 0.0
  }

  /** Concatenation is associative; stated once so that loops appending to
      an accumulator need not rediscover it. */
  lemma AppendAssoc<T>(a: seq<T>, b: seq<T>, c: seq<T>)
    ensures (a + b) + c == a + (b + c)
  {
  }

  /** Cutting a concatenation at the seam gives back its two parts. */
  lemma AppendSplit<T>(a: seq<T>, b: seq<T>)
    ensures (a + b)[..|a|] == a && (a + b)[|a|..] == b
  {
  }
}
