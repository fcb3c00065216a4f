/** The decoder as the source writes it: a decoder object whose methods read a
    wire record by index, adding each group of deltas onto a running sum held in
    locals or in a three-element array, and fill fresh coordinate arrays. Each
    method is proved to return exactly what `WireLayout.Decoded` (through
    `TakeRun`, `TakeRuns` and `TakePolygons`) describes, failures included; a
    method that stops part-way through a record also says where it left the
    lengths and coordinate streams. */
module Decoding {
  import opened GeoTypes
  import opened DeltaCoding
  import opened WireLayout

  /** The running sum array `{x, y, z}` shared by the rings of a multipolygon. */
  function SumOf(sum: array<int>): Coord
    requires sum.Length == 3
    reads sum
  {
    Coord(sum[0], sum[1], sum[2])
  }

  /** The points read by `TakeRun`, or its failure. */
  function ValueOf<A, B>(t: Result<(A, B), DecodeError>): Result<A, DecodeError>
  {
    match t
    case Success(v) => Success(v.0)
    case Failure(e) => Failure(e)
  }

  /** The value read by `TakeRuns`, `TakePolygon` or `TakePolygons`, or its failure. */
  function ParsedValue<T>(t: Result<Parsed<T>, DecodeError>): Result<T, DecodeError>
  {
    match t
    case Success(p) => Success(p.value)
    case Failure(e) => Failure(e)
  }

  /** A successful reading `t` left the lengths stream at entry `len` of `ls`
      and the coordinate stream at position `at` of `c`, with running sum `sum`. */
  predicate Leaves<T>(t: Result<Parsed<T>, DecodeError>, ls: seq<int>, len: nat, c: seq<int>, at: nat, sum: Coord)
  {
    t.Success? ==>
      len <= |ls| && at <= |c| && t.value.lengths == ls[len..] && t.value.stream == Stream(c[at..], sum)
  }

  // ------------------------------------------------ one run, point by point

  /** The running sum moved by the point whose deltas start at position `k` of
      `c`: X and Y (and Z when it is used) each add their delta. */
  function AddAt(sum: Coord, c: seq<int>, k: nat, useZ: bool): Coord
    requires k + Dim(useZ) <= |c|
  {
    Coord(sum.x + c[k], sum.y + c[k + 1], if useZ then sum.z + c[k + 2] else sum.z)
  }

  /** Reading one more point at position `i`: the points of the deltas from
      `base` to `i + Dim(useZ)` are those up to `i` and then the running sum
      moved by the point at `i`, which is also the sum after them. */
  lemma ReadStep(c: seq<int>, base: nat, i: nat, j: nat, s0: Coord, useZ: bool)
    requires base <= i && j == i + Dim(useZ) && j <= |c| && Whole(i - base, useZ)
    ensures var s := AddAt(SumAfter(c[base..i], s0, useZ), c, i, useZ);
      PrefixSums(c[base..j], s0, useZ) == PrefixSums(c[base..i], s0, useZ) + [Project(s, useZ)]
      && SumAfter(c[base..j], s0, useZ) == s
  {
    var d := c[base..i];
    var g := c[i..j];
    assert c[base..j] == d + g;
    PrefixSumsAppend(d, g, s0, useZ);
    assert AddDeltas(SumAfter(d, s0, useZ), g, useZ) == AddAt(SumAfter(d, s0, useZ), c, i, useZ);
    assert g[Dim(useZ)..] == [];
  }

  /** Reading `n` points from position `at` of `c` is reading them from the rest
      of the stream: the points of the deltas there (the first one repeated
      when the run is a ring), with the stream left past them. */
  lemma TakeRunAt(c: seq<int>, at: nat, n: nat, next: nat, closed: bool, s0: Coord, useZ: bool)
    requires next == at + Span(n, useZ) && next <= |c| && (closed ==> n > 0)
    ensures var pts := PrefixSums(c[at..next], s0, useZ);
      TakeRun(n, closed, Stream(c[at..], s0), useZ)
        == Success((if closed then pts + [pts[0]] else pts, Stream(c[next..], SumAfter(c[at..next], s0, useZ))))
  {
    assert c[at..][..Span(n, useZ)] == c[at..next];
    assert c[at..][Span(n, useZ)..] == c[next..];
  }

  // ------------------------------------------------ lists of runs and polygons

  /** A list read so far: the items already read, in front of what the rest of
      the record reads. */
  function Prepend<T>(done: seq<T>, t: Result<Parsed<seq<T>>, DecodeError>): Result<Parsed<seq<T>>, DecodeError>
  {
    match t
    case Success(p) => Success(Parsed(done + p.value, p.lengths, p.stream))
    case Failure(e) => Failure(e)
  }

  /** Nothing read yet: the list reads as the rest of the record does. */
  lemma PrependNothing<T>(t: Result<Parsed<seq<T>>, DecodeError>)
    ensures Prepend([], t) == t
  {
    if t.Success? {
      assert [] + t.value.value == t.value.value;
    }
  }

  /** Everything read: the list is what has been read. */
  lemma PrependAll<T>(done: seq<T>, l: seq<int>, s: Stream)
    ensures Prepend(done, Success(Parsed([], l, s))) == Success(Parsed(done, l, s))
  {
    assert done + [] == done;
  }

  /** Reading the next run of a run list moves it from what is left to read to
      what has been read; the lengths entry it used is gone and the stream is
      where the run left it. */
  lemma TakeRunsStep(done: seq<seq<Coord>>, count: nat, left: nat, closed: bool, ls: seq<int>, len: nat,
                     s: Stream, run: seq<Coord>, s1: Stream, useZ: bool)
    requires count == left + 1 && len < |ls| && TakeRun(ls[len], closed, s, useZ) == Success((run, s1))
    ensures Prepend(done, TakeRuns(count, closed, ls[len..], s, useZ))
         == Prepend(done + [run], TakeRuns(left, closed, ls[len + 1..], s1, useZ))
  {
    var l := ls[len..];
    assert l[0] == ls[len] && l[1..] == ls[len + 1..];
    var rest := TakeRuns(count - 1, closed, ls[len + 1..], s1, useZ);
    if rest.Success? {
      assert done + ([run] + rest.value.value) == done + [run] + rest.value.value;
    }
  }

  /** A run list whose next lengths entry is missing, or whose next run fails
      to read, fails with it. */
  lemma TakeRunsStop(count: nat, closed: bool, ls: seq<int>, len: nat, s: Stream, useZ: bool)
    requires 0 < count && len <= |ls| && (len < |ls| ==> TakeRun(ls[len], closed, s, useZ).Failure?)
    ensures TakeRuns(count, closed, ls[len..], s, useZ)
         == Failure(if len == |ls| then MalformedRecord else TakeRun(ls[len], closed, s, useZ).error)
  {
    if len < |ls| {
      assert ls[len..][0] == ls[len];
    }
  }

  /** A polygon whose shell cannot be read fails as the shell does. */
  lemma TakePolygonNoShell(l: seq<int>, size: int, s: Stream, useZ: bool)
    requires |l| >= 2 && l[1] == size && TakeRun(size, true, s, useZ).Failure?
    ensures TakePolygon(l, s, useZ) == Failure(TakeRun(size, true, s, useZ).error)
  {
  }

  /** After its shell, a polygon with a positive ring count reads its holes
      from where the shell left the streams. */
  lemma TakePolygonHoles(l: seq<int>, holeCount: nat, size: int, rest: seq<int>, s: Stream, useZ: bool,
                         shell: seq<Coord>, s1: Stream)
    requires |l| >= 2 && l[0] == holeCount + 1 && l[1] == size && l[2..] == rest
    requires TakeRun(size, true, s, useZ) == Success((shell, s1))
    ensures var h := TakeRuns(holeCount, true, rest, s1, useZ);
      TakePolygon(l, s, useZ)
        == if h.Failure? then Failure(h.error)
           else Success(Parsed(Poly(shell, h.value.value), h.value.lengths, h.value.stream))
  {
  }

  /** A polygon list is its first polygon in front of the rest of the list,
      read from where the first polygon left the streams; when the first
      polygon fails, so does the list. */
  lemma TakePolygonsFirst(count: nat, l: seq<int>, s: Stream, useZ: bool)
    requires 0 < count
    ensures var p := TakePolygon(l, s, useZ);
      TakePolygons(count, l, s, useZ)
        == match p
           case Failure(e) => Failure(e)
           case Success(v) =>
             match TakePolygons(count - 1, v.lengths, v.stream, useZ)
             case Failure(e) => Failure(e)
             case Success(rest) => Success(Parsed([v.value] + rest.value, rest.lengths, rest.stream))
  {
  }

  /** Reading the next polygon of a polygon list moves it from what is left to
      read to what has been read. */
  lemma TakePolygonsStep(done: seq<Poly>, count: nat, left: nat, l: seq<int>, s: Stream,
                         poly: Poly, l1: seq<int>, s1: Stream, useZ: bool)
    requires count == left + 1 && TakePolygon(l, s, useZ) == Success(Parsed(poly, l1, s1))
    ensures Prepend(done, TakePolygons(count, l, s, useZ))
         == Prepend(done + [poly], TakePolygons(left, l1, s1, useZ))
  {
    TakePolygonsFirst(count, l, s, useZ);
    var rest := TakePolygons(left, l1, s1, useZ);
    if rest.Success? {
      assert done + ([poly] + rest.value.value) == done + [poly] + rest.value.value;
    }
  }

  /** A polygon list whose next polygon fails to read fails with it. */
  lemma TakePolygonsStop(count: nat, l: seq<int>, s: Stream, useZ: bool)
    requires 0 < count && TakePolygon(l, s, useZ).Failure?
    ensures TakePolygons(count, l, s, useZ) == Failure(TakePolygon(l, s, useZ).error)
  {
    TakePolygonsFirst(count, l, s, useZ);
  }

  class GeometryDecoder {
    /** Whether the records carry a Z ordinate. */
    const useZ: bool
    /** Ordinates per coordinate. */
    const dim: nat := Dim(useZ)

    constructor(useZ: bool)
      ensures this.useZ == useZ
    {
      this.useZ := useZ;
    }

    /** Decodes a record according to its type tag; a collection is refused. */
    method Decode(w: Wire) returns (r: Result<Geometry, DecodeError>)
      ensures r == Decoded(w, useZ)
    {
      assert w.coords[0..] == w.coords;
      match w.kind {
        case PointType =>
          var sum := new int[] [0, 0, 0];
          var pts := DeltaDecode(w, false, 0, 1, sum);
          if pts.Failure? {
            return Failure(pts.error);
          }
          return Success(Point(pts.value[0]));
        case MultiPointType =>
          var pts := DeltaDecodeAll(w);
          return Success(MultiPoint(pts));
        case LineStringType =>
          var pts := DeltaDecodeAll(w);
          return Success(LineString(pts));
        case MultiLineStringType =>
          r := DecodeMultiLineString(w);
        case PolygonType =>
          r := DecodePolygon(w);
        case MultiPolygonType =>
          r := DecodeMultiPolygon(w);
        case GeometryCollectionType =>
          return Failure(UnknownGeometryType);
      }
    }

    /** The rings of a polygon record: the first run is the shell, the others holes. */
    method DecodePolygon(w: Wire) returns (r: Result<Geometry, DecodeError>)
      ensures r == Decoded(Wire(PolygonType, w.lengths, w.coords), useZ)
    {
      var rings := DeltaDecodeRuns(w, true);
      if rings.Failure? {
        return Failure(rings.error);
      }
      var coordArrays := rings.value;
      if |w.lengths| == 0 {
        // there is no first ring to take as the shell
        return Failure(MalformedRecord);
      }
      var shell := coordArrays[0];
      var holes := new seq<Coord>[|w.lengths| - 1];
      for i := 1 to |w.lengths|
        invariant holes[..i - 1] == coordArrays[1..i]
      {
        ghost var before := holes[..i - 1];
        holes[i - 1] := coordArrays[i];
        assert holes[..i] == before + [coordArrays[i]];
        assert coordArrays[1..i + 1] == coordArrays[1..i] + [coordArrays[i]];
      }
      assert holes[..] == holes[..|w.lengths| - 1];
      assert holes[..] == coordArrays[1..];
      return Success(Polygon(Poly(shell, holes[..])));
    }

    /** The parts of a multi-line-string record, one per lengths entry. */
    method DecodeMultiLineString(w: Wire) returns (r: Result<Geometry, DecodeError>)
      ensures r == Decoded(Wire(MultiLineStringType, w.lengths, w.coords), useZ)
    {
      var parts := DeltaDecodeRuns(w, false);
      if parts.Failure? {
        return Failure(parts.error);
      }
      var coordArrays := parts.value;
      var geoms := new seq<Coord>[|w.lengths|];
      for i := 0 to |w.lengths|
        invariant geoms[..i] == coordArrays[..i]
      {
        geoms[i] := coordArrays[i];
      }
      assert geoms[..] == coordArrays;
      return Success(MultiLineString(geoms[..]));
    }

    /** Reads the polygon count, then each polygon in turn, with a cursor into
        each stream and one running sum for all rings. */
    method DecodeMultiPolygon(w: Wire) returns (r: Result<Geometry, DecodeError>)
      ensures r == Decoded(Wire(MultiPolygonType, w.lengths, w.coords), useZ)
    {
      var coordIdx: nat := 0;
      var lenIdx: nat := 0;
      if |w.lengths| <= lenIdx {
        return Failure(MalformedRecord);
      }
      var numPolygons := w.lengths[lenIdx];
      lenIdx := lenIdx + 1;
      var sum := new int[] [0, 0, 0];
      if numPolygons < 0 {
        // the polygon array cannot have a negative size
        return Failure(MalformedRecord);
      }
      var polygons := new Poly[numPolygons];
      ghost var all := TakePolygons(numPolygons, w.lengths[1..], Stream(w.coords, Origin), useZ);
      assert w.coords[0..] == w.coords;
      ghost var left: nat := numPolygons;
      PrependNothing(all);
      for i := 0 to numPolygons
        invariant lenIdx <= |w.lengths| && Span(coordIdx, useZ) <= |w.coords|
        invariant left == numPolygons - i
        invariant all == Prepend(polygons[..i], TakePolygons(left, w.lengths[lenIdx..],
                                                             Stream(w.coords[Span(coordIdx, useZ)..], SumOf(sum)), useZ))
      {
        ghost var l := w.lengths[lenIdx..];
        ghost var s := Stream(w.coords[Span(coordIdx, useZ)..], SumOf(sum));
        var poly;
        poly, lenIdx, coordIdx := ReadPolygon(w, lenIdx, coordIdx, sum);
        if poly.Failure? {
          TakePolygonsStop(left, l, s, useZ);
          return Failure(poly.error);
        }
        ghost var before := polygons[..i];
        polygons[i] := poly.value;
        assert polygons[..i + 1] == before + [poly.value];
        ghost var n := left;
        left := left - 1;
        TakePolygonsStep(before, n, left, l, s, poly.value, w.lengths[lenIdx..],
                         Stream(w.coords[Span(coordIdx, useZ)..], SumOf(sum)), useZ);
      }
      assert polygons[..] == polygons[..numPolygons];
      PrependAll(polygons[..], w.lengths[lenIdx..], Stream(w.coords[Span(coordIdx, useZ)..], SumOf(sum)));
      return Success(MultiPolygon(polygons[..]));
    }

    /** One polygon of a multi-polygon record: its ring count, its shell's
        size and shell, then its holes, from the cursors `lenIdx` and
        `coordIdx`; returns the cursors past it. */
    method ReadPolygon(w: Wire, lenIdx: nat, coordIdx: nat, sum: array<int>)
      returns (r: Result<Poly, DecodeError>, nextLen: nat, nextCoord: nat)
      requires sum.Length == 3
      requires lenIdx <= |w.lengths| && Span(coordIdx, useZ) <= |w.coords|
      modifies sum
      ensures var t := TakePolygon(w.lengths[lenIdx..], Stream(w.coords[Span(coordIdx, useZ)..], old(SumOf(sum))), useZ);
        r == ParsedValue(t) && Leaves(t, w.lengths, nextLen, w.coords, Span(nextCoord, useZ), SumOf(sum))
    {
      ghost var l := w.lengths[lenIdx..];
      ghost var s := Stream(w.coords[Span(coordIdx, useZ)..], SumOf(sum));
      nextLen, nextCoord := lenIdx, coordIdx;
      if |w.lengths| <= nextLen + 1 {
        // the ring count or the shell's size is missing
        return Failure(MalformedRecord), nextLen, nextCoord;
      }
      var numRings := w.lengths[nextLen];
      var size := w.lengths[nextLen + 1];
      assert l[0] == numRings && l[1] == size && l[2..] == w.lengths[lenIdx + 2..];
      nextLen := nextLen + 2;
      var shell := DeltaDecode(w, true, nextCoord, size, sum);
      if shell.Failure? {
        TakePolygonNoShell(l, size, s, useZ);
        return Failure(shell.error), nextLen, nextCoord;
      }
      nextCoord := nextCoord + size;
      if numRings - 1 < 0 {
        // the hole array cannot have a negative size
        return Failure(MalformedRecord), nextLen, nextCoord;
      }
      var holeCount := numRings - 1;
      ghost var s1 := Stream(w.coords[Span(nextCoord, useZ)..], SumOf(sum));
      TakePolygonHoles(l, holeCount, size, w.lengths[nextLen..], s, useZ, shell.value, s1);
      var holes;
      holes, nextLen, nextCoord := ReadRings(w, holeCount, nextLen, nextCoord, sum);
      if holes.Failure? {
        return Failure(holes.error), nextLen, nextCoord;
      }
      return Success(Poly(shell.value, holes.value)), nextLen, nextCoord;
    }

    /** `count` closed rings, each its size then its coordinates, from the
        cursors `lenIdx` and `coordIdx`; returns the cursors past them. */
    method ReadRings(w: Wire, count: nat, lenIdx: nat, coordIdx: nat, sum: array<int>)
      returns (r: Result<seq<seq<Coord>>, DecodeError>, nextLen: nat, nextCoord: nat)
      requires sum.Length == 3
      requires lenIdx <= |w.lengths| && Span(coordIdx, useZ) <= |w.coords|
      modifies sum
      ensures var t := TakeRuns(count, true, w.lengths[lenIdx..], Stream(w.coords[Span(coordIdx, useZ)..], old(SumOf(sum))), useZ);
        r == ParsedValue(t) && Leaves(t, w.lengths, nextLen, w.coords, Span(nextCoord, useZ), SumOf(sum))
    {
      nextLen, nextCoord := lenIdx, coordIdx;
      var rings := new seq<Coord>[count];
      ghost var all := TakeRuns(count, true, w.lengths[lenIdx..], Stream(w.coords[Span(coordIdx, useZ)..], SumOf(sum)), useZ);
      ghost var left: nat := count;
      ghost var cur := SumOf(sum);
      PrependNothing(all);
      for h := 0 to count
        invariant nextLen <= |w.lengths| && Span(nextCoord, useZ) <= |w.coords|
        invariant left == count - h && cur == SumOf(sum)
        invariant all == Prepend(rings[..h], TakeRuns(left, true, w.lengths[nextLen..],
                                                      Stream(w.coords[Span(nextCoord, useZ)..], cur), useZ))
      {
        ghost var len := nextLen;
        ghost var s := Stream(w.coords[Span(nextCoord, useZ)..], cur);
        var ring;
        ring, nextLen, nextCoord := ReadRing(w, nextLen, nextCoord, sum);
        if ring.Failure? {
          TakeRunsStop(left, true, w.lengths, len, s, useZ);
          return Failure(ring.error), nextLen, nextCoord;
        }
        cur := SumOf(sum);
        ghost var before := rings[..h];
        rings[h] := ring.value;
        assert rings[..h + 1] == before + [ring.value];
        ghost var n := left;
        left := left - 1;
        TakeRunsStep(before, n, left, true, w.lengths, len, s, ring.value,
                     Stream(w.coords[Span(nextCoord, useZ)..], cur), useZ);
      }
      assert rings[..] == rings[..count];
      PrependAll(rings[..], w.lengths[nextLen..], Stream(w.coords[Span(nextCoord, useZ)..], SumOf(sum)));
      return Success(rings[..]), nextLen, nextCoord;
    }

    /** One closed ring: its size, then its coordinates. */
    method ReadRing(w: Wire, lenIdx: nat, coordIdx: nat, sum: array<int>)
      returns (r: Result<seq<Coord>, DecodeError>, nextLen: nat, nextCoord: nat)
      requires sum.Length == 3
      requires lenIdx <= |w.lengths| && Span(coordIdx, useZ) <= |w.coords|
      modifies sum
      ensures lenIdx == |w.lengths| ==> r == Failure(MalformedRecord)
      ensures lenIdx < |w.lengths| ==>
        var t := TakeRun(w.lengths[lenIdx], true, Stream(w.coords[Span(coordIdx, useZ)..], old(SumOf(sum))), useZ);
        r == ValueOf(t)
        && (r.Success? ==> nextLen == lenIdx + 1 && Span(nextCoord, useZ) <= |w.coords|
                           && t == Success((r.value, Stream(w.coords[Span(nextCoord, useZ)..], SumOf(sum)))))
    {
      nextLen, nextCoord := lenIdx, coordIdx;
      if |w.lengths| <= nextLen {
        // the ring's size is missing
        return Failure(MalformedRecord), nextLen, nextCoord;
      }
      var size := w.lengths[nextLen];
      nextLen := nextLen + 1;
      r := DeltaDecode(w, true, nextCoord, size, sum);
      if r.Success? {
        nextCoord := nextCoord + size;
      }
    }

    /** All whole coordinates of the record as one run from a zero sum. */
    method DeltaDecodeAll(w: Wire) returns (r: seq<Coord>)
      ensures Success(r) == ValueOf(TakeRun(Count(|w.coords|, useZ), false, Stream(w.coords, Origin), useZ))
    {
      var length := |w.coords| / dim;
      var sum := new int[] [0, 0, 0];
      var pts := DeltaDecode(w, false, 0, length, sum);
      assert w.coords[0..] == w.coords;
      return pts.value;
    }

    /** Reads every run the lengths list names, from one running sum held in
        locals; a closed run gets its first point appended as its closing point. */
    method DeltaDecodeRuns(w: Wire, closed: bool) returns (r: Result<seq<seq<Coord>>, DecodeError>)
      ensures r == ParsedValue(TakeRuns(|w.lengths|, closed, w.lengths, Stream(w.coords, Origin), useZ))
    {
      var x, y, z := 0, 0, 0;
      var coords := new seq<Coord>[|w.lengths|];
      ghost var all := TakeRuns(|w.lengths|, closed, w.lengths, Stream(w.coords, Origin), useZ);
      assert w.lengths[0..] == w.lengths && w.coords[0..] == w.coords;
      var i: nat := 0;
      ghost var left: nat := |w.lengths|;
      PrependNothing(all);
      for j := 0 to |w.lengths|
        invariant i <= |w.coords|
        invariant left == |w.lengths| - j
        invariant all == Prepend(coords[..j], TakeRuns(left, closed, w.lengths[j..],
                                                       Stream(w.coords[i..], Coord(x, y, z)), useZ))
      {
        ghost var s := Stream(w.coords[i..], Coord(x, y, z));
        var run;
        run, i, x, y, z := ReadRun(w, i, w.lengths[j], closed, x, y, z);
        if run.Failure? {
          TakeRunsStop(left, closed, w.lengths, j, s, useZ);
          return Failure(run.error);
        }
        ghost var s1 := Stream(w.coords[i..], Coord(x, y, z));
        ghost var before := coords[..j];
        coords[j] := run.value;
        assert coords[..j + 1] == before + [run.value];
        ghost var n := left;
        left := left - 1;
        TakeRunsStep(before, n, left, closed, w.lengths, j, s, run.value, s1, useZ);
      }
      assert coords[..] == coords[..|w.lengths|];
      PrependAll(coords[..], w.lengths[|w.lengths|..], Stream(w.coords[i..], Coord(x, y, z)));
      return Success(coords[..]);
    }

    /** One run of `DeltaDecodeRuns`: a fresh array of `length` points (one more
        when closed) filled from position `i` onwards, then closed with its
        first point; returns the position and the running sum after it. */
    method ReadRun(w: Wire, i: nat, length: int, closed: bool, x0: int, y0: int, z0: int)
      returns (r: Result<seq<Coord>, DecodeError>, next: nat, x: int, y: int, z: int)
      requires i <= |w.coords|
      ensures var t := TakeRun(length, closed, Stream(w.coords[i..], Coord(x0, y0, z0)), useZ);
        r == ValueOf(t) && (r.Success? ==> next <= |w.coords| && t == Success((r.value, Stream(w.coords[next..], Coord(x, y, z)))))
    {
      var size := length + if closed then 1 else 0;
      if size < 0 {
        // the run's array cannot have a negative size
        return Failure(MalformedRecord), i, x0, y0, z0;
      }
      var run := new Coord[size];
      var ok;
      ok, next, x, y, z := ReadRunPoints(w, i, if length < 0 then 0 else length, x0, y0, z0, run);
      if !ok {
        // a read past the end of the coordinate stream
        return Failure(MalformedRecord), next, x, y, z;
      }
      if closed {
        if length <= 0 {
          // no point to close the ring with
          return Failure(MalformedRecord), next, x, y, z;
        }
        run[length] := run[0];
        assert run[..] == run[..length] + [run[0]];
      } else {
        assert run[..] == run[..length];
      }
      TakeRunAt(w.coords, i, length, next, closed, Coord(x0, y0, z0), useZ);
      return Success(run[..]), next, x, y, z;
    }

    /** The inner loop of `DeltaDecodeRuns`: reads `length` points from position
        `i` into the front of `run`, adding each point's deltas onto the
        locals `x`, `y` (and `z` when used); false when the stream ends first. */
    method ReadRunPoints(w: Wire, i: nat, length: nat, x0: int, y0: int, z0: int, run: array<Coord>)
      returns (ok: bool, next: nat, x: int, y: int, z: int)
      requires length <= run.Length && i <= |w.coords|
      modifies run
      ensures ok <==> i + Span(length, useZ) <= |w.coords|
      ensures ok ==> next == i + Span(length, useZ)
      ensures ok ==> run[..length] == PrefixSums(w.coords[i..next], Coord(x0, y0, z0), useZ)
      ensures ok ==> Coord(x, y, z) == SumAfter(w.coords[i..next], Coord(x0, y0, z0), useZ)
    {
      x, y, z := x0, y0, z0;
      ghost var s0 := Coord(x0, y0, z0);
      next := i;
      var n := 0;
      assert w.coords[i..i] == [];
      while n < length
        invariant 0 <= n <= length
        invariant next == i + Span(n, useZ) && next <= |w.coords|
        invariant run[..n] == PrefixSums(w.coords[i..next], s0, useZ)
        invariant Coord(x, y, z) == SumAfter(w.coords[i..next], s0, useZ)
      {
        if |w.coords| < next + dim {
          return false, next, x, y, z;
        }
        ghost var k0 := next;
        ghost var before := run[..n];
        ghost var s := AddAt(Coord(x, y, z), w.coords, next, useZ);
        x := x + w.coords[next];
        next := next + 1;
        y := y + w.coords[next];
        next := next + 1;
        if useZ {
          z := z + w.coords[next];
          next := next + 1;
          run[n] := Coord(x, y, z);
        } else {
          run[n] := Coord(x, y, 0);
        }
        assert Coord(x, y, z) == s && run[n] == Project(s, useZ);
        SpanWhole(n, useZ);
        ReadStep(w.coords, i, k0, next, s0, useZ);
        assert run[..n + 1] == before + [run[n]];
        n := n + 1;
      }
      return true, next, x, y, z;
    }

    /** Reads a run of `length` points starting at coordinate `offset`, adding
        onto the running sum in `sum`; a closed run gets its first point
        appended as its closing point. */
    method DeltaDecode(w: Wire, closed: bool, offset: int, length: int, sum: array<int>)
      returns (r: Result<seq<Coord>, DecodeError>)
      requires sum.Length == 3
      requires 0 <= offset && Span(offset, useZ) <= |w.coords|
      modifies sum
      ensures var t := TakeRun(length, closed, Stream(w.coords[Span(offset, useZ)..], old(SumOf(sum))), useZ);
        r == ValueOf(t)
        && (r.Success? ==> Span(offset + length, useZ) <= |w.coords|
                           && t == Success((r.value, Stream(w.coords[Span(offset + length, useZ)..], SumOf(sum)))))
    {
      var size := length + if closed then 1 else 0;
      if size < 0 {
        // the run's array cannot have a negative size
        return Failure(MalformedRecord);
      }
      var coords := new Coord[size];
      var i := offset * dim;
      assert i == Span(offset, useZ);
      ghost var s0 := SumOf(sum);
      var ok := ReadPoints(w, i, if length < 0 then 0 else length, sum, coords);
      if !ok {
        // a read past the end of the coordinate stream
        return Failure(MalformedRecord);
      }
      ghost var next := i + Span(length, useZ);
      assert next == Span(offset + length, useZ);
      ghost var s1 := SumOf(sum);
      if closed {
        if length <= 0 {
          // no point to close the ring with
          return Failure(MalformedRecord);
        }
        coords[length] := coords[0];
        assert coords[..] == coords[..length] + [coords[0]];
      } else {
        assert coords[..] == coords[..length];
      }
      assert SumOf(sum) == s1;
      TakeRunAt(w.coords, i, length, next, closed, s0, useZ);
      return Success(coords[..]);
    }

    /** The loop of `DeltaDecode`: reads `length` points from position `i` into
        the front of `coords`; false when the stream ends first. */
    method ReadPoints(w: Wire, i: nat, length: nat, sum: array<int>, coords: array<Coord>) returns (ok: bool)
      requires sum.Length == 3 && length <= coords.Length && i <= |w.coords|
      modifies sum, coords
      ensures ok <==> i + Span(length, useZ) <= |w.coords|
      ensures ok ==> coords[..length] == PrefixSums(w.coords[i..i + Span(length, useZ)], old(SumOf(sum)), useZ)
      ensures ok ==> SumOf(sum) == SumAfter(w.coords[i..i + Span(length, useZ)], old(SumOf(sum)), useZ)
    {
      var k := i;
      ghost var s0 := SumOf(sum);
      var n := 0;
      assert w.coords[i..i] == [];
      while n < length
        invariant 0 <= n <= length
        invariant k == i + Span(n, useZ) && k <= |w.coords|
        invariant coords[..n] == PrefixSums(w.coords[i..k], s0, useZ)
        invariant SumOf(sum) == SumAfter(w.coords[i..k], s0, useZ)
      {
        if |w.coords| < k + dim {
          return false;
        }
        ghost var k0 := k;
        var c;
        c, k := ReadCoordinate(w, k, sum);
        coords[n] := c;
        SpanWhole(n, useZ);
        ReadStep(w.coords, i, k0, k, s0, useZ);
        assert coords[..n + 1] == coords[..n] + [c];
        n := n + 1;
      }
      return true;
    }

    /** The body of that loop: adds the deltas at position `k` onto `sum` and
        returns the point, with the position after it. */
    method ReadCoordinate(w: Wire, k: nat, sum: array<int>) returns (c: Coord, next: nat)
      requires sum.Length == 3 && k + dim <= |w.coords|
      modifies sum
      ensures next == k + Dim(useZ)
      ensures SumOf(sum) == AddAt(old(SumOf(sum)), w.coords, k, useZ)
      ensures c == Project(SumOf(sum), useZ)
    {
      next := k;
      sum[0] := sum[0] + w.coords[next];
      next := next + 1;
      sum[1] := sum[1] + w.coords[next];
      next := next + 1;
      if useZ {
        sum[2] := sum[2] + w.coords[next];
        next := next + 1;
        c := Coord(sum[0], sum[1], sum[2]);
      } else {
        c := Coord(sum[0], sum[1], 0);
      }
    }
  }
}
