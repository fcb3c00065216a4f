/** The wire layout of each geometry kind, as functions: what the encoder
    writes (`Encoded`) and what the decoder reads back (`Decoded`). The decoder
    is described as consuming the lengths stream and the coordinate stream from
    the front, one run at a time, with one running sum for the whole record. */
module WireLayout {
  import opened GeoTypes
  import opened DeltaCoding

  // ---------------------------------------------------------------- encoding

  /** A closed ring goes on the wire without its closing point; an open run
      (a line string part) goes on whole. An empty ring emits nothing. */
  function RunBody(run: seq<Coord>, closed: bool): seq<Coord>
  {
    if closed && |run| > 0 then run[..|run| - 1] else run
  }

  /** The lengths entry of a run: its point count, less the closing point when closed. */
  function RunLength(run: seq<Coord>, closed: bool): int
  {
    if closed then |run| - 1 else |run|
  }

  function RunLengths(runs: seq<seq<Coord>>, closed: bool): (r: seq<int>)
    ensures |r| == |runs|
    decreases |runs|
  {
    if runs == [] then [] else [RunLength(runs[0], closed)] + RunLengths(runs[1..], closed)
  }

  /** The points of all runs as they go on the wire, in traversal order. */
  function Flatten(runs: seq<seq<Coord>>, closed: bool): seq<Coord>
    decreases |runs|
  {
    if runs == [] then [] else RunBody(runs[0], closed) + Flatten(runs[1..], closed)
  }

  /** The rings of a polygon in wire order: the shell, then the holes. */
  function Rings(p: Poly): seq<seq<Coord>>
  {
    [p.shell] + p.holes
  }

  /** A multipolygon's lengths after the polygon count: per polygon, its ring
      count and then its ring lengths. */
  function PolygonsLengths(ps: seq<Poly>): seq<int>
    decreases |ps|
  {
    if ps == [] then []
    else [|ps[0].holes| + 1] + RunLengths(Rings(ps[0]), true) + PolygonsLengths(ps[1..])
  }

  /** A multipolygon's ring lengths alone, in traversal order. */
  function PolygonsRingLengths(ps: seq<Poly>): seq<int>
    decreases |ps|
  {
    if ps == [] then [] else RunLengths(Rings(ps[0]), true) + PolygonsRingLengths(ps[1..])
  }

  /** The points of all rings of all polygons as they go on the wire. */
  function PolygonsFlatten(ps: seq<Poly>): seq<Coord>
    decreases |ps|
  {
    if ps == [] then [] else Flatten(Rings(ps[0]), true) + PolygonsFlatten(ps[1..])
  }

  /** The wire record of a geometry: one accumulator, starting from the origin,
      threaded through the whole traversal. Collections are refused. */
  function Encoded(g: Geometry, useZ: bool): (r: Result<Wire, EncodeError>)
    ensures r.Failure? <==> g.GeometryCollection?
    ensures r.Success? ==> r.value.kind == KindOf(g)
  {
    match g
    case Point(c) => Success(Wire(PointType, [], DeltaEncode([c], Origin, useZ)))
    case MultiPoint(ps) => Success(Wire(MultiPointType, [], DeltaEncode(ps, Origin, useZ)))
    case LineString(ps) => Success(Wire(LineStringType, [], DeltaEncode(ps, Origin, useZ)))
    case MultiLineString(ls) =>
      Success(Wire(MultiLineStringType, RunLengths(ls, false),
                   DeltaEncode(Flatten(ls, false), Origin, useZ)))
    case Polygon(p) =>
      Success(Wire(PolygonType, RunLengths(Rings(p), true),
                   DeltaEncode(Flatten(Rings(p), true), Origin, useZ)))
    case MultiPolygon(ps) =>
      Success(Wire(MultiPolygonType, [|ps|] + PolygonsLengths(ps),
                   DeltaEncode(PolygonsFlatten(ps), Origin, useZ)))
    case GeometryCollection(_) => Failure(UnknownGeometryKind)
  }

  /** The encoder writes whole coordinates only: the coords stream's length is
      a multiple of the dimension. */
  lemma EncodedWhole(g: Geometry, useZ: bool)
    requires Encoded(g, useZ).Success?
    ensures Whole(|Encoded(g, useZ).value.coords|, useZ)
  {
    var pts := match g
      case Point(c) => [c]
      case MultiPoint(ps) => ps
      case LineString(ps) => ps
      case MultiLineString(ls) => Flatten(ls, false)
      case Polygon(p) => Flatten(Rings(p), true)
      case MultiPolygon(ps) => PolygonsFlatten(ps)
      case GeometryCollection(_) => [];
    assert Encoded(g, useZ).value.coords == DeltaEncode(pts, Origin, useZ);
    SpanWhole(|pts|, useZ);
  }

  /** The type tag that belongs to each geometry kind. */
  function KindOf(g: Geometry): GeometryType
  {
    match g
    case Point(_) => PointType
    case MultiPoint(_) => MultiPointType
    case LineString(_) => LineStringType
    case MultiLineString(_) => MultiLineStringType
    case Polygon(_) => PolygonType
    case MultiPolygon(_) => MultiPolygonType
    case GeometryCollection(_) => GeometryCollectionType
  }

  // ---------------------------------------------------------------- decoding

  /** The decoder's position in the coordinate stream: what is left of it and
      the running sum so far. */
  datatype Stream = Stream(coords: seq<int>, sum: Coord)

  /** A decoded value with what is left of the lengths and coordinate streams. */
  datatype Parsed<T> = Parsed(value: T, lengths: seq<int>, stream: Stream)

  /** Reads a run of `n` points; a closed run gets its first point appended as
      the closing point. Fails on a negative count, on an empty closed ring
      (its closing point would be missing) and when the stream is too short. */
  function TakeRun(n: int, closed: bool, s: Stream, useZ: bool): (r: Result<(seq<Coord>, Stream), DecodeError>)
    ensures r.Success? ==> n >= 0 && |r.value.0| == if closed then n + 1 else n
  {
    if n < 0 || (closed && n == 0) || |s.coords| < Span(n, useZ) then Failure(MalformedRecord)
    else
      var d := s.coords[..Span(n, useZ)];
      var pts := PrefixSums(d, s.sum, useZ);
      Success((if closed then pts + [pts[0]] else pts,
               Stream(s.coords[Span(n, useZ)..], SumAfter(d, s.sum, useZ))))
  }

  /** A closed ring reads back with `n + 1` points, its last the copy of its first. */
  lemma TakeRunCloses(n: int, s: Stream, useZ: bool)
    requires TakeRun(n, true, s, useZ).Success?
    ensures var run := TakeRun(n, true, s, useZ).value.0;
      n > 0 && |run| == n + 1 && run[n] == run[0]
  {
  }

  /** Reads `count` runs whose sizes are the next `count` lengths entries. */
  function TakeRuns(count: nat, closed: bool, lengths: seq<int>, s: Stream, useZ: bool)
    : (r: Result<Parsed<seq<seq<Coord>>>, DecodeError>)
    ensures r.Success? ==> |r.value.value| == count
    decreases count
  {
    if count == 0 then Success(Parsed([], lengths, s))
    else if lengths == [] then Failure(MalformedRecord)
    else
      var run :- TakeRun(lengths[0], closed, s, useZ);
      var rest :- TakeRuns(count - 1, closed, lengths[1..], run.1, useZ);
      Success(Parsed([run.0] + rest.value, rest.lengths, rest.stream))
  }

  /** Reads one polygon of a multipolygon: its ring count, its shell's size
      and shell, then one size and ring per hole. Fails on a missing entry,
      on a ring count below one and on a ring that cannot be read. */
  function TakePolygon(lengths: seq<int>, s: Stream, useZ: bool): (r: Result<Parsed<Poly>, DecodeError>)
  {
    if |lengths| < 2 then Failure(MalformedRecord)
    else
      var shell :- TakeRun(lengths[1], true, s, useZ);
      if lengths[0] < 1 then Failure(MalformedRecord)
      else
        var holes :- TakeRuns(lengths[0] - 1, true, lengths[2..], shell.1, useZ);
        Success(Parsed(Poly(shell.0, holes.value), holes.lengths, holes.stream))
  }

  /** Reads `count` polygons of a multipolygon, each from where the one
      before it left the streams. */
  function TakePolygons(count: nat, lengths: seq<int>, s: Stream, useZ: bool)
    : (r: Result<Parsed<seq<Poly>>, DecodeError>)
    ensures r.Success? ==> |r.value.value| == count
    decreases count
  {
    if count == 0 then Success(Parsed([], lengths, s))
    else
      var poly :- TakePolygon(lengths, s, useZ);
      var rest :- TakePolygons(count - 1, poly.lengths, poly.stream, useZ);
      Success(Parsed([poly.value] + rest.value, rest.lengths, rest.stream))
  }

  /** The geometry a wire record decodes to. */
  function Decoded(w: Wire, useZ: bool): Result<Geometry, DecodeError>
  {
    var start := Stream(w.coords, Origin);
    match w.kind
    case PointType =>
      var run :- TakeRun(1, false, start, useZ);
      Success(Point(run.0[0]))
    case MultiPointType =>
      var run :- TakeRun(Count(|w.coords|, useZ), false, start, useZ);
      Success(MultiPoint(run.0))
    case LineStringType =>
      var run :- TakeRun(Count(|w.coords|, useZ), false, start, useZ);
      Success(LineString(run.0))
    case MultiLineStringType =>
      var parts :- TakeRuns(|w.lengths|, false, w.lengths, start, useZ);
      Success(MultiLineString(parts.value))
    case PolygonType =>
      var rings :- TakeRuns(|w.lengths|, true, w.lengths, start, useZ);
      if |w.lengths| == 0 then Failure(MalformedRecord)
      else Success(Polygon(Poly(rings.value[0], rings.value[1..])))
    case MultiPolygonType =>
      if |w.lengths| == 0 || w.lengths[0] < 0 then Failure(MalformedRecord)
      else
        var polys :- TakePolygons(w.lengths[0], w.lengths[1..], start, useZ);
        Success(MultiPolygon(polys.value))
    case GeometryCollectionType => Failure(UnknownGeometryType)
  }
}
