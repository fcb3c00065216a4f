/** Values exchanged by the Geobuf geometry codec: geometries whose coordinates
    are already quantised to integers, and the flat wire record
    `{type, lengths, coords}` that the encoder produces and the decoder reads. */
module GeoTypes {

  /** Success or failure of an encode or decode call (the source throws instead). */
  datatype Result<+T, +E> = Success(value: T) | Failure(error: E) {
    predicate IsFailure() {
      Failure?
    }

    function PropagateFailure<U>(): Result<U, E>
      requires Failure?
    {
      Failure(error)
    }

    function Extract(): T
      requires Success?
    {
      value
    }
  }

  /** A coordinate after quantisation: each ordinate is round(v * 10^precision).
      `z` is only meaningful when the codec is configured with a Z ordinate. */
  datatype Coord = Coord(x: int, y: int, z: int)

  /** The value every running accumulator starts from. */
  const Origin := Coord(0, 0, 0)

  /** A polygon: an exterior ring and its interior rings (holes), each closed. */
  datatype Poly = Poly(shell: seq<Coord>, holes: seq<seq<Coord>>)

  /** The geometry model: one variant per geometry kind. */
  datatype Geometry =
    | Point(coord: Coord)
    | MultiPoint(points: seq<Coord>)
    | LineString(points: seq<Coord>)
    | MultiLineString(lines: seq<seq<Coord>>)
    | Polygon(poly: Poly)
    | MultiPolygon(polys: seq<Poly>)
    | GeometryCollection(members: seq<Geometry>)

  /** The type tag of a wire geometry record. */
  datatype GeometryType =
    | PointType
    | MultiPointType
    | LineStringType
    | MultiLineStringType
    | PolygonType
    | MultiPolygonType
    | GeometryCollectionType

  /** The wire geometry record: a type tag, the lengths stream and the flat,
      dimension-interleaved stream of coordinate deltas. */
  datatype Wire = Wire(kind: GeometryType, lengths: seq<int>, coords: seq<int>)

  datatype EncodeError = UnknownGeometryKind

  datatype DecodeError =
    | UnknownGeometryType
      /** the record's lengths and coords do not describe a geometry: a read past
          the end of either stream, a negative count, or an empty closed ring */
    | MalformedRecord

  /** Number of ordinates per coordinate: 3 with Z, otherwise 2. */
  function Dim(useZ: bool): nat
  {
    if useZ then 3 else 2
  }

  /** Ordinates taken by `n` coordinates: `n` times `Dim(useZ)`. */
  function Span(n: int, useZ: bool): int
  {
    if useZ then 3 * n else 2 * n
  }

  /** Whole coordinates in `len` ordinates: `len / Dim(useZ)`, rounded down. */
  function Count(len: nat, useZ: bool): nat
  {
    if useZ then len / 3 else len / 2
  }

  /** `len` ordinates make whole coordinates: a multiple of `Dim(useZ)`. */
  predicate Whole(len: int, useZ: bool)
  {
    if useZ then len % 3 == 0 else len % 2 == 0
  }

  lemma SpanWhole(n: int, useZ: bool)
    ensures Whole(Span(n, useZ), useZ)
  {
    if useZ {
      assert 3 * n == 3 * n + 0;
    }
  }

  /** The coordinate as the codec sees it: without Z, the Z ordinate is dropped. */
  function Project(c: Coord, useZ: bool): Coord
  {
    if useZ then c else Coord(c.x, c.y, 0)
  }

  /** The ordinates of a coordinate that go on the wire, in X, Y[, Z] order. */
  function Ordinates(c: Coord, useZ: bool): (r: seq<int>)
    ensures |r| == Dim(useZ)
  {
    if useZ then [c.x, c.y, c.z] else [c.x, c.y]
  }

  function ProjectAll(pts: seq<Coord>, useZ: bool): (r: seq<Coord>)
    ensures |r| == |pts|
    ensures forall i :: 0 <= i < |pts| ==> r[i] == Project(pts[i], useZ)
    decreases |pts|
  {
    if pts == [] then [] else [Project(pts[0], useZ)] + ProjectAll(pts[1..], useZ)
  }

  function ProjectRuns(runs: seq<seq<Coord>>, useZ: bool): (r: seq<seq<Coord>>)
    ensures |r| == |runs|
    decreases |runs|
  {
    if runs == [] then [] else [ProjectAll(runs[0], useZ)] + ProjectRuns(runs[1..], useZ)
  }

  function ProjectPoly(p: Poly, useZ: bool): Poly
  {
    Poly(ProjectAll(p.shell, useZ), ProjectRuns(p.holes, useZ))
  }

  function ProjectPolys(ps: seq<Poly>, useZ: bool): (r: seq<Poly>)
    ensures |r| == |ps|
    decreases |ps|
  {
    if ps == [] then [] else [ProjectPoly(ps[0], useZ)] + ProjectPolys(ps[1..], useZ)
  }

  /** The geometry as it reads back from the wire: every coordinate projected
      onto the configured dimension. Collections are not supported and stay as they are. */
  function ProjectGeometry(g: Geometry, useZ: bool): Geometry
  {
    match g
    case Point(c) => Point(Project(c, useZ))
    case MultiPoint(ps) => MultiPoint(ProjectAll(ps, useZ))
    case LineString(ps) => LineString(ProjectAll(ps, useZ))
    case MultiLineString(ls) => MultiLineString(ProjectRuns(ls, useZ))
    case Polygon(p) => Polygon(ProjectPoly(p, useZ))
    case MultiPolygon(ps) => MultiPolygon(ProjectPolys(ps, useZ))
    case GeometryCollection(ms) => g
  }
}
