/** The encoder as the source writes it: a wire builder whose lengths and
    coords lists grow by appending, and an encoder object whose write methods
    walk a geometry and append to the builder while one accumulator follows
    the last point written. Each method is proved to append exactly what
    `WireLayout.Encoded` describes. */
module Encoding {
  import opened GeoTypes
  import opened DeltaCoding
  import opened WireLayout

  /** The geometry record under construction. */
  class WireBuilder {
    var kind: GeometryType
    var lengths: seq<int>
    var coords: seq<int>

    /** A fresh record: the type tag holds its default (the first tag) and both lists are empty. */
    constructor()
      ensures kind == PointType && lengths == [] && coords == []
    {
      kind := PointType;
      lengths := [];
      coords := [];
    }

    method SetType(t: GeometryType)
      modifies this
      ensures kind == t && lengths == old(lengths) && coords == old(coords)
    {
      kind := t;
    }

    method AddLengths(n: int)
      modifies this
      ensures lengths == old(lengths) + [n]
      ensures kind == old(kind) && coords == old(coords)
    {
      lengths := lengths + [n];
    }

    method AddCoords(d: int)
      modifies this
      ensures coords == old(coords) + [d]
      ensures kind == old(kind) && lengths == old(lengths)
    {
      coords := coords + [d];
    }

    /** The record as built so far. */
    function Build(): Wire
      reads this
    {
      Wire(kind, lengths, coords)
    }
  }

  /** The accumulator array `{x, y, z}` shared by the rings of a polygon or multipolygon. */
  function AccOf(last: array<int>): Coord
    requires last.Length == 3
    reads last
  {
    Coord(last[0], last[1], last[2])
  }

  /** Emitting one more point without Z: after the deltas of `pts[..i]`, the
      X and Y deltas of `pts[i]` against the accumulator they leave complete
      the deltas of `pts[..i + 1]`, and the accumulator moves to `pts[i]`. */
  lemma EmitPlanar(c0: seq<int>, pts: seq<Coord>, i: nat, acc: Coord)
    requires i < |pts|
    ensures var a := EncodeAcc(pts[..i], acc, false);
      c0 + DeltaEncode(pts[..i], acc, false) + [pts[i].x - a.x] + [pts[i].y - a.y]
        == c0 + DeltaEncode(pts[..i + 1], acc, false)
      && EncodeAcc(pts[..i + 1], acc, false) == Advance(a, pts[i], false)
  {
    assert pts[..i + 1] == pts[..i] + [pts[i]];
    DeltaEncodeAppend(pts[..i], [pts[i]], acc, false);
  }

  /** The same with Z: the X, Y and Z deltas of `pts[i]`. */
  lemma EmitSpatial(c0: seq<int>, pts: seq<Coord>, i: nat, acc: Coord)
    requires i < |pts|
    ensures var a := EncodeAcc(pts[..i], acc, true);
      c0 + DeltaEncode(pts[..i], acc, true) + [pts[i].x - a.x] + [pts[i].y - a.y] + [pts[i].z - a.z]
        == c0 + DeltaEncode(pts[..i + 1], acc, true)
      && EncodeAcc(pts[..i + 1], acc, true) == Advance(a, pts[i], true)
  {
    assert pts[..i + 1] == pts[..i] + [pts[i]];
    DeltaEncodeAppend(pts[..i], [pts[i]], acc, true);
  }

  /** Appending the deltas of `b` after those of `a` appends the deltas of `a + b`. */
  lemma EncodeMore(c0: seq<int>, a: seq<Coord>, b: seq<Coord>, acc: Coord, useZ: bool)
    ensures c0 + DeltaEncode(a, acc, useZ) + DeltaEncode(b, EncodeAcc(a, acc, useZ), useZ)
         == c0 + DeltaEncode(a + b, acc, useZ)
    ensures EncodeAcc(a + b, acc, useZ) == EncodeAcc(b, EncodeAcc(a, acc, useZ), useZ)
  {
    DeltaEncodeAppend(a, b, acc, useZ);
  }

  /** The run-list functions on a list with one more run at the end. */
  lemma {:induction false} RunsSnoc(rs: seq<seq<Coord>>, r: seq<Coord>, closed: bool)
    ensures RunLengths(rs + [r], closed) == RunLengths(rs, closed) + [RunLength(r, closed)]
    ensures Flatten(rs + [r], closed) == Flatten(rs, closed) + RunBody(r, closed)
    decreases |rs|
  {
    if rs == [] {
      assert rs + [r] == [r];
    } else {
      assert (rs + [r])[1..] == rs[1..] + [r];
      RunsSnoc(rs[1..], r, closed);
    }
  }

  /** A multipolygon's lengths after its polygon count, with one more polygon at the end. */
  lemma {:induction false} PolygonsLengthsSnoc(ps: seq<Poly>, p: Poly)
    ensures PolygonsLengths(ps + [p])
         == PolygonsLengths(ps) + ([|p.holes| + 1] + RunLengths(Rings(p), true))
    decreases |ps|
  {
    var tail := [|p.holes| + 1] + RunLengths(Rings(p), true);
    if ps == [] {
      assert ps + [p] == [p];
      assert PolygonsLengths([p]) == tail + PolygonsLengths([]);
    } else {
      var q := ps[0];
      var head := [|q.holes| + 1] + RunLengths(Rings(q), true);
      assert (ps + [p])[0] == q;
      assert (ps + [p])[1..] == ps[1..] + [p];
      PolygonsLengthsSnoc(ps[1..], p);
      assert PolygonsLengths(ps + [p]) == head + (PolygonsLengths(ps[1..]) + tail);
      assert head + (PolygonsLengths(ps[1..]) + tail) == (head + PolygonsLengths(ps[1..])) + tail;
    }
  }

  /** A multipolygon's points on the wire, with one more polygon at the end. */
  lemma {:induction false} PolygonsFlattenSnoc(ps: seq<Poly>, p: Poly)
    ensures PolygonsFlatten(ps + [p]) == PolygonsFlatten(ps) + Flatten(Rings(p), true)
    decreases |ps|
  {
    var tail := Flatten(Rings(p), true);
    if ps == [] {
      assert ps + [p] == [p];
      assert PolygonsFlatten([p]) == tail + PolygonsFlatten([]);
    } else {
      var head := Flatten(Rings(ps[0]), true);
      assert (ps + [p])[0] == ps[0];
      assert (ps + [p])[1..] == ps[1..] + [p];
      PolygonsFlattenSnoc(ps[1..], p);
      assert PolygonsFlatten(ps + [p]) == head + (PolygonsFlatten(ps[1..]) + tail);
      assert head + (PolygonsFlatten(ps[1..]) + tail) == (head + PolygonsFlatten(ps[1..])) + tail;
    }
  }

  /** Writing the shell of a polygon is writing the rings before its first hole. */
  lemma ShellWritten(l0: seq<int>, c0: seq<int>, shell: seq<Coord>, holes: seq<seq<Coord>>, acc0: Coord, useZ: bool)
    ensures var rs := [shell] + holes[..0];
      l0 + [|shell| - 1] == l0 + RunLengths(rs, true)
      && c0 + DeltaEncode(RunBody(shell, true), acc0, useZ) == c0 + DeltaEncode(Flatten(rs, true), acc0, useZ)
      && EncodeAcc(RunBody(shell, true), acc0, useZ) == EncodeAcc(Flatten(rs, true), acc0, useZ)
  {
    assert [shell] + holes[..0] == [shell];
    assert RunLengths([shell], true) == [RunLength(shell, true)] + RunLengths([], true);
    assert Flatten([shell], true) == RunBody(shell, true) + Flatten([], true);
    assert RunBody(shell, true) + [] == RunBody(shell, true);
  }

  /** Writing ring `i` of a polygon's holes (its length, then its deltas from
      where the earlier rings left the accumulator) extends the record of the
      rings before it to the record of the rings up to it. */
  lemma RingWritten(l0: seq<int>, c0: seq<int>, shell: seq<Coord>, holes: seq<seq<Coord>>, i: nat,
                    acc0: Coord, useZ: bool)
    requires i < |holes|
    ensures var rs := [shell] + holes[..i];
      var done := Flatten(rs, true);
      var acc := EncodeAcc(done, acc0, useZ);
      var rs1 := [shell] + holes[..i + 1];
      l0 + RunLengths(rs, true) + [|holes[i]| - 1] == l0 + RunLengths(rs1, true)
      && c0 + DeltaEncode(done, acc0, useZ) + DeltaEncode(RunBody(holes[i], true), acc, useZ)
         == c0 + DeltaEncode(Flatten(rs1, true), acc0, useZ)
      && EncodeAcc(RunBody(holes[i], true), acc, useZ) == EncodeAcc(Flatten(rs1, true), acc0, useZ)
  {
    var rs := [shell] + holes[..i];
    RunsSnoc(rs, holes[i], true);
    assert [shell] + holes[..i + 1] == rs + [holes[i]];
    EncodeMore(c0, Flatten(rs, true), RunBody(holes[i], true), acc0, useZ);
  }

  /** Writing polygon `i` of a multipolygon (its ring count, then its rings
      from where the earlier polygons left the accumulator) extends the record
      of the polygons before it to the record of the polygons up to it. */
  lemma PolygonWritten(l0: seq<int>, c0: seq<int>, ps: seq<Poly>, i: nat, useZ: bool)
    requires i < |ps|
    ensures var p := ps[i];
      var done := PolygonsFlatten(ps[..i]);
      var acc := EncodeAcc(done, Origin, useZ);
      l0 + PolygonsLengths(ps[..i]) + [|p.holes| + 1] + RunLengths(Rings(p), true)
        == l0 + PolygonsLengths(ps[..i + 1])
      && c0 + DeltaEncode(done, Origin, useZ) + DeltaEncode(Flatten(Rings(p), true), acc, useZ)
         == c0 + DeltaEncode(PolygonsFlatten(ps[..i + 1]), Origin, useZ)
      && EncodeAcc(Flatten(Rings(p), true), acc, useZ) == EncodeAcc(PolygonsFlatten(ps[..i + 1]), Origin, useZ)
  {
    PolygonsLengthsSnoc(ps[..i], ps[i]);
    PolygonsFlattenSnoc(ps[..i], ps[i]);
    assert ps[..i + 1] == ps[..i] + [ps[i]];
    EncodeMore(c0, PolygonsFlatten(ps[..i]), Flatten(Rings(ps[i]), true), Origin, useZ);
  }

  class GeometryEncoder {
    /** Whether the Z ordinate goes on the wire. */
    const useZ: bool

    constructor(useZ: bool)
      ensures this.useZ == useZ
    {
      this.useZ := useZ;
    }

    /** Encodes a geometry into a fresh record; a collection is refused. */
    method Encode(g: Geometry) returns (r: Result<Wire, EncodeError>)
      ensures r == Encoded(g, useZ)
    {
      var b := new WireBuilder();
      match g {
        case Point(c) =>
          b.SetType(PointType);
          WritePoint(c, b);
          assert b.coords == DeltaEncode([c], Origin, useZ);
          return Success(b.Build());
        case MultiPoint(ps) =>
          b.SetType(MultiPointType);
          WriteMultiPoint(ps, b);
          assert b.coords == DeltaEncode(ps, Origin, useZ);
          return Success(b.Build());
        case LineString(ps) =>
          b.SetType(LineStringType);
          WriteLineString(ps, b);
          assert b.coords == DeltaEncode(ps, Origin, useZ);
          return Success(b.Build());
        case MultiLineString(ls) =>
          b.SetType(MultiLineStringType);
          WriteMultiLineString(ls, b);
          assert b.lengths == RunLengths(ls, false) && b.coords == DeltaEncode(Flatten(ls, false), Origin, useZ);
          return Success(b.Build());
        case Polygon(p) =>
          b.SetType(PolygonType);
          var last := new int[] [0, 0, 0];
          assert AccOf(last) == Origin;
          WritePolygon(p, b, last);
          assert b.lengths == RunLengths(Rings(p), true) && b.coords == DeltaEncode(Flatten(Rings(p), true), Origin, useZ);
          return Success(b.Build());
        case MultiPolygon(ps) =>
          b.SetType(MultiPolygonType);
          WriteMultiPolygon(ps, b);
          assert b.lengths == [|ps|] + PolygonsLengths(ps) && b.coords == DeltaEncode(PolygonsFlatten(ps), Origin, useZ);
          return Success(b.Build());
        case GeometryCollection(_) =>
          b.SetType(GeometryCollectionType);
          return Failure(UnknownGeometryKind);
      }
    }

    /** A point is a one-element coordinate array. */
    method WritePoint(c: Coord, b: WireBuilder)
      modifies b
      ensures b.coords == old(b.coords) + DeltaEncode([c], Origin, useZ)
      ensures b.kind == old(b.kind) && b.lengths == old(b.lengths)
    {
      var a := new Coord[] [c];
      assert a[..] == [c];
      DeltaEncodeArray(a, b);
    }

    /** A multipoint copies its points' coordinates into an array first. */
    method WriteMultiPoint(ps: seq<Coord>, b: WireBuilder)
      modifies b
      ensures b.coords == old(b.coords) + DeltaEncode(ps, Origin, useZ)
      ensures b.kind == old(b.kind) && b.lengths == old(b.lengths)
    {
      var a := new Coord[|ps|];
      var i := 0;
      while i < |ps|
        modifies a
        invariant 0 <= i <= |ps|
        invariant a[..i] == ps[..i]
      {
        a[i] := ps[i];
        i := i + 1;
      }
      assert a[..] == ps;
      DeltaEncodeArray(a, b);
    }

    method WriteLineString(ps: seq<Coord>, b: WireBuilder)
      modifies b
      ensures b.coords == old(b.coords) + DeltaEncode(ps, Origin, useZ)
      ensures b.kind == old(b.kind) && b.lengths == old(b.lengths)
    {
      DeltaEncodeSequence(ps, b);
    }

    /** One lengths entry per part (its point count), then all parts' points,
        gathered into one coordinate array, as one run with one accumulator. */
    method WriteMultiLineString(ls: seq<seq<Coord>>, b: WireBuilder)
      modifies b
      ensures b.lengths == old(b.lengths) + RunLengths(ls, false)
      ensures b.coords == old(b.coords) + DeltaEncode(Flatten(ls, false), Origin, useZ)
      ensures b.kind == old(b.kind)
    {
      var i := 0;
      while i < |ls|
        invariant 0 <= i <= |ls|
        invariant b.lengths == old(b.lengths) + RunLengths(ls[..i], false)
        invariant b.coords == old(b.coords) && b.kind == old(b.kind)
      {
        RunsSnoc(ls[..i], ls[i], false);
        assert ls[..i + 1] == ls[..i] + [ls[i]];
        b.AddLengths(|ls[i]|);
        i := i + 1;
      }
      assert ls[..i] == ls;
      var flat := Flatten(ls, false);
      var a := new Coord[|flat|](j requires 0 <= j < |flat| => flat[j]);
      assert a[..] == flat;
      DeltaEncodeArray(a, b);
    }

    /** The polygon count, then per polygon its ring count and its rings, all
        rings of all polygons sharing one accumulator. */
    method WriteMultiPolygon(ps: seq<Poly>, b: WireBuilder)
      modifies b
      ensures b.lengths == old(b.lengths) + [|ps|] + PolygonsLengths(ps)
      ensures b.coords == old(b.coords) + DeltaEncode(PolygonsFlatten(ps), Origin, useZ)
      ensures b.kind == old(b.kind)
    {
      b.AddLengths(|ps|);
      ghost var l0 := b.lengths;
      var last := new int[] [0, 0, 0];
      var i := 0;
      while i < |ps|
        invariant 0 <= i <= |ps|
        invariant b.lengths == l0 + PolygonsLengths(ps[..i])
        invariant b.coords == old(b.coords) + DeltaEncode(PolygonsFlatten(ps[..i]), Origin, useZ)
        invariant AccOf(last) == EncodeAcc(PolygonsFlatten(ps[..i]), Origin, useZ)
        invariant b.kind == old(b.kind)
      {
        var p := ps[i];
        PolygonWritten(l0, old(b.coords), ps, i, useZ);
        b.AddLengths(|p.holes| + 1);
        WritePolygon(p, b, last);
        i := i + 1;
      }
      assert ps[..i] == ps;
    }

    /** The shell's length and points without the closing point, then the same
        for each hole, continuing the accumulator in `last`. */
    method WritePolygon(p: Poly, b: WireBuilder, last: array<int>)
      requires last.Length == 3
      modifies b, last
      ensures b.lengths == old(b.lengths) + RunLengths(Rings(p), true)
      ensures b.coords == old(b.coords) + DeltaEncode(Flatten(Rings(p), true), old(AccOf(last)), useZ)
      ensures AccOf(last) == EncodeAcc(Flatten(Rings(p), true), old(AccOf(last)), useZ)
      ensures b.kind == old(b.kind)
    {
      ghost var acc0 := AccOf(last);
      ShellWritten(old(b.lengths), old(b.coords), p.shell, p.holes, acc0, useZ);
      b.AddLengths(|p.shell| - 1);
      DeltaEncodeClosed(p.shell, b, true, last);
      var i := 0;
      while i < |p.holes|
        invariant 0 <= i <= |p.holes|
        invariant b.lengths == old(b.lengths) + RunLengths([p.shell] + p.holes[..i], true)
        invariant b.coords == old(b.coords) + DeltaEncode(Flatten([p.shell] + p.holes[..i], true), acc0, useZ)
        invariant AccOf(last) == EncodeAcc(Flatten([p.shell] + p.holes[..i], true), acc0, useZ)
        invariant b.kind == old(b.kind)
      {
        var ring := p.holes[i];
        RingWritten(old(b.lengths), old(b.coords), p.shell, p.holes, i, acc0, useZ);
        b.AddLengths(|ring| - 1);
        DeltaEncodeClosed(ring, b, true, last);
        i := i + 1;
      }
      assert p.holes[..i] == p.holes;
    }

    /** Emits a run against the accumulator in `last` and leaves the last
        emitted point there; a closed run leaves out its closing point. */
    method DeltaEncodeClosed(pts: seq<Coord>, b: WireBuilder, closed: bool, last: array<int>)
      requires last.Length == 3
      modifies b, last
      ensures b.coords == old(b.coords) + DeltaEncode(RunBody(pts, closed), old(AccOf(last)), useZ)
      ensures AccOf(last) == EncodeAcc(RunBody(pts, closed), old(AccOf(last)), useZ)
      ensures b.kind == old(b.kind) && b.lengths == old(b.lengths)
    {
      ghost var acc0 := AccOf(last);
      var length := |pts|;
      if closed {
        length := length - 1;
      }
      var i := 0;
      while i < length
        invariant 0 <= i <= |pts| && (i <= length || i == 0)
        invariant b.coords == old(b.coords) + DeltaEncode(pts[..i], acc0, useZ)
        invariant Coord(last[0], last[1], last[2]) == EncodeAcc(pts[..i], acc0, useZ)
        invariant b.kind == old(b.kind) && b.lengths == old(b.lengths)
      {
        var x := pts[i].x;
        var y := pts[i].y;
        b.AddCoords(x - last[0]);
        b.AddCoords(y - last[1]);
        last[0] := x;
        last[1] := y;
        if useZ {
          var z := pts[i].z;
          b.AddCoords(z - last[2]);
          last[2] := z;
          EmitSpatial(old(b.coords), pts, i, acc0);
        } else {
          EmitPlanar(old(b.coords), pts, i, acc0);
        }
        i := i + 1;
      }
      assert pts[..i] == RunBody(pts, closed);
    }

    /** Emits a run from a zero accumulator. */
    method DeltaEncodeSequence(pts: seq<Coord>, b: WireBuilder)
      modifies b
      ensures b.coords == old(b.coords) + DeltaEncode(pts, Origin, useZ)
      ensures b.kind == old(b.kind) && b.lengths == old(b.lengths)
    {
      var lastX, lastY, lastZ := 0, 0, 0;
      var i := 0;
      while i < |pts|
        invariant 0 <= i <= |pts|
        invariant b.coords == old(b.coords) + DeltaEncode(pts[..i], Origin, useZ)
        invariant Coord(lastX, lastY, lastZ) == EncodeAcc(pts[..i], Origin, useZ)
        invariant b.kind == old(b.kind) && b.lengths == old(b.lengths)
      {
        var x := pts[i].x;
        var y := pts[i].y;
        b.AddCoords(x - lastX);
        b.AddCoords(y - lastY);
        lastX := x;
        lastY := y;
        if useZ {
          var z := pts[i].z;
          b.AddCoords(z - lastZ);
          lastZ := z;
          EmitSpatial(old(b.coords), pts, i, Origin);
        } else {
          EmitPlanar(old(b.coords), pts, i, Origin);
        }
        i := i + 1;
      }
      assert pts[..i] == pts;
    }

    /** Emits the points of a coordinate array from a zero accumulator. */
    method DeltaEncodeArray(a: array<Coord>, b: WireBuilder)
      modifies b
      ensures b.coords == old(b.coords) + DeltaEncode(a[..], Origin, useZ)
      ensures b.kind == old(b.kind) && b.lengths == old(b.lengths)
    {
      var lastX, lastY, lastZ := 0, 0, 0;
      for i := 0 to a.Length
        invariant b.coords == old(b.coords) + DeltaEncode(a[..i], Origin, useZ)
        invariant Coord(lastX, lastY, lastZ) == EncodeAcc(a[..i], Origin, useZ)
        invariant b.kind == old(b.kind) && b.lengths == old(b.lengths)
      {
        assert a[..][..i] == a[..i] && a[..][..i + 1] == a[..i + 1];
        var x := a[i].x;
        var y := a[i].y;
        b.AddCoords(x - lastX);
        b.AddCoords(y - lastY);
        lastX := x;
        lastY := y;
        if useZ {
          var z := a[i].z;
          b.AddCoords(z - lastZ);
          lastZ := z;
          EmitSpatial(old(b.coords), a[..], i, Origin);
        } else {
          EmitPlanar(old(b.coords), a[..], i, Origin);
        }
      }
      assert a[..a.Length] == a[..];
    }
  }
}
