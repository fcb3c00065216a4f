/** What the codec promises, proved about the wire layout: decoding an encoded
    geometry gives it back, decoding consumes exactly what encoding wrote, and
    the lengths and coords streams have the documented shape. */
module CodecProperties {
  import opened GeoTypes
  import opened DeltaCoding
  import opened WireLayout

  /** A ring the codec can carry: at least two points, closed in the dimension
      the codec uses (the geometry model keeps rings closed). */
  predicate ValidRing(r: seq<Coord>, useZ: bool)
  {
    |r| >= 2 && Project(r[0], useZ) == Project(r[|r| - 1], useZ)
  }

  predicate ValidRuns(runs: seq<seq<Coord>>, closed: bool, useZ: bool)
  {
    closed ==> forall i :: 0 <= i < |runs| ==> ValidRing(runs[i], useZ)
  }

  predicate ValidPolys(ps: seq<Poly>, useZ: bool)
  {
    forall i :: 0 <= i < |ps| ==> ValidRuns(Rings(ps[i]), true, useZ)
  }

  /** The geometries the codec supports: every kind but collections, with valid rings. */
  predicate Supported(g: Geometry, useZ: bool)
  {
    match g
    case Polygon(p) => ValidRuns(Rings(p), true, useZ)
    case MultiPolygon(ps) => ValidPolys(ps, useZ)
    case GeometryCollection(_) => false
    case _ => true
  }

  predicate IsPrefix(a: seq<int>, b: seq<int>)
  {
    |a| <= |b| && b[..|a|] == a
  }

  /** Reading the deltas of `pts` from stream `s` leaves stream `s1`: the
      coordinates of `s` start with what the encoder writes for `pts` from the
      accumulator `s.sum`, and the decoder's sum ends where that accumulator does. */
  predicate Emits(pts: seq<Coord>, s: Stream, s1: Stream, useZ: bool)
  {
    s.coords == DeltaEncode(pts, s.sum, useZ) + s1.coords
    && s1.sum == EncodeAcc(pts, s.sum, useZ)
  }

  lemma EmitsAppend(a: seq<Coord>, b: seq<Coord>, s: Stream, s1: Stream, s2: Stream, useZ: bool)
    requires Emits(a, s, s1, useZ) && Emits(b, s1, s2, useZ)
    ensures Emits(a + b, s, s2, useZ)
  {
    DeltaEncodeAppend(a, b, s.sum, useZ);
    var ea := DeltaEncode(a, s.sum, useZ);
    var eb := DeltaEncode(b, s1.sum, useZ);
    assert s.coords == ea + (eb + s2.coords);
    assert ea + (eb + s2.coords) == (ea + eb) + s2.coords;
  }

  lemma EmitsSplit(a: seq<Coord>, b: seq<Coord>, s: Stream, s2: Stream, useZ: bool)
    requires Emits(a + b, s, s2, useZ)
    ensures var acc := EncodeAcc(a, s.sum, useZ);
      var mid := Stream(DeltaEncode(b, acc, useZ) + s2.coords, acc);
      Emits(a, s, mid, useZ) && Emits(b, mid, s2, useZ)
  {
    var acc := EncodeAcc(a, s.sum, useZ);
    var ea := DeltaEncode(a, s.sum, useZ);
    var eb := DeltaEncode(b, acc, useZ);
    DeltaEncodeAppend(a, b, s.sum, useZ);
    assert s.coords == (ea + eb) + s2.coords;
    Assoc(ea, eb, s2.coords);
  }

  lemma EmitsNothing(s: Stream, s1: Stream, useZ: bool)
    requires Emits([], s, s1, useZ)
    ensures s1 == s
  {
    assert s.coords == [] + s1.coords;
    assert [] + s1.coords == s1.coords;
  }

  lemma EmitsNothingFrom(s: Stream, useZ: bool)
    ensures Emits([], s, s, useZ)
  {
    assert [] + s.coords == s.coords;
  }

  /** The run-list functions on a list with a first run. */
  lemma RunsCons(run: seq<Coord>, runs: seq<seq<Coord>>, closed: bool, useZ: bool)
    ensures var all := [run] + runs;
      && RunLengths(all, closed) == [RunLength(run, closed)] + RunLengths(runs, closed)
      && Flatten(all, closed) == RunBody(run, closed) + Flatten(runs, closed)
      && ProjectRuns(all, useZ) == [ProjectAll(run, useZ)] + ProjectRuns(runs, useZ)
      && (ValidRuns(all, closed, useZ) <==> (closed ==> ValidRing(run, useZ)) && ValidRuns(runs, closed, useZ))
  {
    var all := [run] + runs;
    assert all[0] == run;
    assert all[1..] == runs;
    assert forall i :: 0 <= i < |runs| ==> all[i + 1] == runs[i];
  }

  /** The polygon-list functions on a list with a first polygon. */
  lemma PolysCons(p: Poly, ps: seq<Poly>, useZ: bool)
    ensures var all := [p] + ps;
      && PolygonsLengths(all) == [|p.holes| + 1] + RunLengths(Rings(p), true) + PolygonsLengths(ps)
      && PolygonsFlatten(all) == Flatten(Rings(p), true) + PolygonsFlatten(ps)
      && ProjectPolys(all, useZ) == [ProjectPoly(p, useZ)] + ProjectPolys(ps, useZ)
      && (ValidPolys(all, useZ) <==> ValidRuns(Rings(p), true, useZ) && ValidPolys(ps, useZ))
  {
    var all := [p] + ps;
    assert all[0] == p;
    assert all[1..] == ps;
    assert forall i :: 0 <= i < |ps| ==> all[i + 1] == ps[i];
  }

  /** A multipolygon's lengths stream, polygon by polygon: ring count, shell
      length, hole lengths, then the remaining polygons' entries. */
  lemma PolyLengthsCons(p: Poly, ps: seq<Poly>, lout: seq<int>)
    ensures PolygonsLengths([p] + ps) + lout
         == [|p.holes| + 1, RunLength(p.shell, true)] + (RunLengths(p.holes, true) + (PolygonsLengths(ps) + lout))
  {
    var all := [p] + ps;
    assert all[0] == p && all[1..] == ps;
    RunsCons(p.shell, p.holes, true, false);
    var h := [|p.holes| + 1];
    var r := [RunLength(p.shell, true)];
    var l := RunLengths(p.holes, true);
    var c := PolygonsLengths(ps);
    assert PolygonsLengths(all) == (h + (r + l)) + c;
    Assoc(h + (r + l), c, lout);
    Assoc(h, r + l, c + lout);
    Assoc(r, l, c + lout);
    Assoc(h, r, l + (c + lout));
    assert h + r == [|p.holes| + 1, RunLength(p.shell, true)];
  }

  /** A lengths stream that starts with a polygon's ring count and shell length,
      followed by its hole lengths and the remaining polygons' entries. */
  lemma PolyLengthsOf(lengths: seq<int>, p: Poly, ps: seq<Poly>, lout: seq<int>)
    requires |lengths| >= 2 && lengths[0] == |p.holes| + 1 && lengths[1] == RunLength(p.shell, true)
    requires lengths[2..] == RunLengths(p.holes, true) + (PolygonsLengths(ps) + lout)
    ensures lengths == PolygonsLengths([p] + ps) + lout
  {
    PolyLengthsCons(p, ps, lout);
    assert lengths == [lengths[0], lengths[1]] + lengths[2..];
  }

  lemma Assoc<T>(a: seq<T>, b: seq<T>, c: seq<T>)
    ensures (a + b) + c == a + (b + c)
  {
  }

  /** The decoder reads `count` runs from `lengths` and `s`, giving `p`. */
  predicate ReadsRuns(count: nat, closed: bool, lengths: seq<int>, s: Stream, useZ: bool, p: Parsed<seq<seq<Coord>>>)
  {
    TakeRuns(count, closed, lengths, s, useZ) == Success(p)
  }

  /** The decoder reads `count` polygons from `lengths` and `s`, giving `p`. */
  predicate ReadsPolygons(count: nat, lengths: seq<int>, s: Stream, useZ: bool, p: Parsed<seq<Poly>>)
  {
    TakePolygons(count, lengths, s, useZ) == Success(p)
  }

  /** One step of `TakeRuns`, read forwards: a first run and the rest make the list. */
  lemma TakeRunsFront(count: nat, closed: bool, n: int, ltail: seq<int>, s: Stream, useZ: bool,
                     run: seq<Coord>, s1: Stream, rest: Parsed<seq<seq<Coord>>>)
    requires count > 0
    requires TakeRun(n, closed, s, useZ) == Success((run, s1))
    requires ReadsRuns(count - 1, closed, ltail, s1, useZ, rest)
    ensures ReadsRuns(count, closed, [n] + ltail, s, useZ, Parsed([run] + rest.value, rest.lengths, rest.stream))
  {
    assert ([n] + ltail)[1..] == ltail;
  }

  /** One step of `TakeRuns`, read backwards: a successful read had a first run. */
  lemma TakeRunsCons(count: nat, closed: bool, lengths: seq<int>, s: Stream, useZ: bool)
    returns (first: (seq<Coord>, Stream), rest: Parsed<seq<seq<Coord>>>)
    requires count > 0 && TakeRuns(count, closed, lengths, s, useZ).Success?
    ensures lengths != [] && lengths == [lengths[0]] + lengths[1..]
    ensures TakeRun(lengths[0], closed, s, useZ) == Success(first)
    ensures ReadsRuns(count - 1, closed, lengths[1..], first.1, useZ, rest)
    ensures TakeRuns(count, closed, lengths, s, useZ)
         == Success(Parsed([first.0] + rest.value, rest.lengths, rest.stream))
  {
    first := TakeRun(lengths[0], closed, s, useZ).value;
    rest := TakeRuns(count - 1, closed, lengths[1..], first.1, useZ).value;
  }

  /** One step of `TakePolygons`, read forwards: the ring count, the shell's
      length and then the hole lengths and the remaining polygons' entries. */
  lemma TakePolygonsFront(count: nat, nholes: nat, n: int, ltail: seq<int>, s: Stream, useZ: bool,
                         shell: seq<Coord>, s1: Stream, holes: Parsed<seq<seq<Coord>>>,
                         rest: Parsed<seq<Poly>>)
    requires count > 0
    requires TakeRun(n, true, s, useZ) == Success((shell, s1))
    requires ReadsRuns(nholes, true, ltail, s1, useZ, holes)
    requires ReadsPolygons(count - 1, holes.lengths, holes.stream, useZ, rest)
    ensures ReadsPolygons(count, [nholes + 1, n] + ltail, s, useZ,
                          Parsed([Poly(shell, holes.value)] + rest.value, rest.lengths, rest.stream))
  {
    assert ([nholes + 1, n] + ltail)[2..] == ltail;
  }

  /** One step of `TakePolygons`, read backwards: a successful read had a
      first polygon, made of a shell and its holes. */
  lemma TakePolygonsCons(count: nat, lengths: seq<int>, s: Stream, useZ: bool)
    returns (shell: (seq<Coord>, Stream), holes: Parsed<seq<seq<Coord>>>, rest: Parsed<seq<Poly>>)
    requires count > 0 && TakePolygons(count, lengths, s, useZ).Success?
    ensures |lengths| >= 2 && lengths[0] >= 1
    ensures TakeRun(lengths[1], true, s, useZ) == Success(shell)
    ensures ReadsRuns(lengths[0] - 1, true, lengths[2..], shell.1, useZ, holes)
    ensures ReadsPolygons(count - 1, holes.lengths, holes.stream, useZ, rest)
    ensures TakePolygons(count, lengths, s, useZ)
         == Success(Parsed([Poly(shell.0, holes.value)] + rest.value, rest.lengths, rest.stream))
  {
    shell := TakeRun(lengths[1], true, s, useZ).value;
    holes := TakeRuns(lengths[0] - 1, true, lengths[2..], shell.1, useZ).value;
    rest := TakePolygons(count - 1, holes.lengths, holes.stream, useZ).value;
  }

  // ------------------------------------------------------- encode, then decode

  /** One run read back from what the encoder wrote for it, whatever follows it. */
  lemma {:induction false} RunRoundTrip(run: seq<Coord>, closed: bool, s: Stream, s1: Stream, useZ: bool)
    requires closed ==> ValidRing(run, useZ)
    requires Emits(RunBody(run, closed), s, s1, useZ)
    ensures TakeRun(RunLength(run, closed), closed, s, useZ) == Success((ProjectAll(run, useZ), s1))
  {
    var body := RunBody(run, closed);
    var e := DeltaEncode(body, s.sum, useZ);
    assert Span(RunLength(run, closed), useZ) == |e|;
    assert s.coords[..|e|] == e;
    assert s.coords[|e|..] == s1.coords;
    DecodeOfEncode(body, s.sum, useZ);
    if closed {
      var pts := ProjectAll(body, useZ);
      var whole := ProjectAll(run, useZ);
      assert pts + [pts[0]] == whole by {
        forall i | 0 <= i < |whole|
          ensures (pts + [pts[0]])[i] == whole[i]
        {
          if i == |body| {
            assert whole[i] == Project(run[|run| - 1], useZ);
          }
        }
      }
    }
  }

  /** The run-list functions on a non-empty list, split at its first run. */
  lemma RunsTail(runs: seq<seq<Coord>>, closed: bool, lrest: seq<int>, useZ: bool)
    requires runs != []
    ensures Flatten(runs, closed) == RunBody(runs[0], closed) + Flatten(runs[1..], closed)
    ensures ValidRuns(runs, closed, useZ) ==> (closed ==> ValidRing(runs[0], useZ)) && ValidRuns(runs[1..], closed, useZ)
    ensures RunLengths(runs, closed) + lrest == [RunLength(runs[0], closed)] + (RunLengths(runs[1..], closed) + lrest)
    ensures ProjectRuns(runs, useZ) == [ProjectAll(runs[0], useZ)] + ProjectRuns(runs[1..], useZ)
  {
    assert runs == [runs[0]] + runs[1..];
    RunsCons(runs[0], runs[1..], closed, useZ);
    Assoc([RunLength(runs[0], closed)], RunLengths(runs[1..], closed), lrest);
  }

  /** The first run of a list read back, and what the rest of the list needs. */
  lemma RunsRoundTripSplit(runs: seq<seq<Coord>>, closed: bool, lrest: seq<int>, s: Stream, s1: Stream, useZ: bool)
    returns (mid: Stream)
    requires runs != [] && ValidRuns(runs, closed, useZ)
    requires Emits(Flatten(runs, closed), s, s1, useZ)
    ensures TakeRun(RunLength(runs[0], closed), closed, s, useZ) == Success((ProjectAll(runs[0], useZ), mid))
    ensures ValidRuns(runs[1..], closed, useZ) && Emits(Flatten(runs[1..], closed), mid, s1, useZ)
    ensures RunLengths(runs, closed) + lrest == [RunLength(runs[0], closed)] + (RunLengths(runs[1..], closed) + lrest)
    ensures ProjectRuns(runs, useZ) == [ProjectAll(runs[0], useZ)] + ProjectRuns(runs[1..], useZ)
  {
    var run := runs[0];
    var rest := runs[1..];
    RunsTail(runs, closed, lrest, useZ);
    var body := RunBody(run, closed);
    EmitsSplit(body, Flatten(rest, closed), s, s1, useZ);
    var acc := EncodeAcc(body, s.sum, useZ);
    mid := Stream(DeltaEncode(Flatten(rest, closed), acc, useZ) + s1.coords, acc);
    RunRoundTrip(run, closed, s, mid, useZ);
  }

  /** Runs read back from the lengths entries and deltas the encoder wrote for them. */
  lemma {:induction false} RunsRoundTrip(runs: seq<seq<Coord>>, closed: bool, lrest: seq<int>,
                                         s: Stream, s1: Stream, useZ: bool)
    requires ValidRuns(runs, closed, useZ)
    requires Emits(Flatten(runs, closed), s, s1, useZ)
    ensures ReadsRuns(|runs|, closed, RunLengths(runs, closed) + lrest, s, useZ,
                      Parsed(ProjectRuns(runs, useZ), lrest, s1))
    decreases |runs|
  {
    if runs == [] {
      assert RunLengths(runs, closed) + lrest == lrest;
      EmitsNothing(s, s1, useZ);
    } else {
      var mid := RunsRoundTripSplit(runs, closed, lrest, s, s1, useZ);
      RunsRoundTrip(runs[1..], closed, lrest, mid, s1, useZ);
      TakeRunsFront(|runs|, closed, RunLength(runs[0], closed), RunLengths(runs[1..], closed) + lrest, s, useZ,
                   ProjectAll(runs[0], useZ), mid, Parsed(ProjectRuns(runs[1..], useZ), lrest, s1));
    }
  }

  /** The first polygon of a list read back, and what the rest of the list needs. */
  lemma PolygonsRoundTripSplit(ps: seq<Poly>, lrest: seq<int>, s: Stream, s1: Stream, useZ: bool)
    returns (mid1: Stream, mid2: Stream)
    requires ps != [] && ValidPolys(ps, useZ)
    requires Emits(PolygonsFlatten(ps), s, s1, useZ)
    ensures TakeRun(RunLength(ps[0].shell, true), true, s, useZ) == Success((ProjectAll(ps[0].shell, useZ), mid1))
    ensures ReadsRuns(|ps[0].holes|, true, RunLengths(ps[0].holes, true) + (PolygonsLengths(ps[1..]) + lrest), mid1, useZ,
                      Parsed(ProjectRuns(ps[0].holes, useZ), PolygonsLengths(ps[1..]) + lrest, mid2))
    ensures ValidPolys(ps[1..], useZ) && Emits(PolygonsFlatten(ps[1..]), mid2, s1, useZ)
    ensures PolygonsLengths(ps) + lrest
         == [|ps[0].holes| + 1, RunLength(ps[0].shell, true)]
            + (RunLengths(ps[0].holes, true) + (PolygonsLengths(ps[1..]) + lrest))
    ensures ProjectPolys(ps, useZ) == [ProjectPoly(ps[0], useZ)] + ProjectPolys(ps[1..], useZ)
  {
    var p := ps[0];
    var rest := ps[1..];
    assert ps == [p] + rest;
    PolysCons(p, rest, useZ);
    RunsCons(p.shell, p.holes, true, useZ);
    PolyLengthsCons(p, rest, lrest);
    var shellBody := RunBody(p.shell, true);
    var holesFlat := Flatten(p.holes, true);
    // split the coordinate stream: shell, holes, remaining polygons
    EmitsSplit(shellBody + holesFlat, PolygonsFlatten(rest), s, s1, useZ);
    var acc2 := EncodeAcc(shellBody + holesFlat, s.sum, useZ);
    mid2 := Stream(DeltaEncode(PolygonsFlatten(rest), acc2, useZ) + s1.coords, acc2);
    EmitsSplit(shellBody, holesFlat, s, mid2, useZ);
    var acc1 := EncodeAcc(shellBody, s.sum, useZ);
    mid1 := Stream(DeltaEncode(holesFlat, acc1, useZ) + mid2.coords, acc1);
    RunRoundTrip(p.shell, true, s, mid1, useZ);
    RunsRoundTrip(p.holes, true, PolygonsLengths(rest) + lrest, mid1, mid2, useZ);
  }

  /** Polygons of a multipolygon read back from what the encoder wrote for them. */
  lemma {:induction false} PolygonsRoundTrip(ps: seq<Poly>, lrest: seq<int>, s: Stream, s1: Stream, useZ: bool)
    requires ValidPolys(ps, useZ)
    requires Emits(PolygonsFlatten(ps), s, s1, useZ)
    ensures ReadsPolygons(|ps|, PolygonsLengths(ps) + lrest, s, useZ,
                          Parsed(ProjectPolys(ps, useZ), lrest, s1))
    decreases |ps|
  {
    if ps == [] {
      assert PolygonsLengths(ps) + lrest == lrest;
      EmitsNothing(s, s1, useZ);
    } else {
      var mid1, mid2 := PolygonsRoundTripSplit(ps, lrest, s, s1, useZ);
      PolygonsRoundTrip(ps[1..], lrest, mid2, s1, useZ);
      var p := ps[0];
      TakePolygonsFront(|ps|, |p.holes|, RunLength(p.shell, true), RunLengths(p.holes, true) + (PolygonsLengths(ps[1..]) + lrest),
                       s, useZ, ProjectAll(p.shell, useZ), mid1,
                       Parsed(ProjectRuns(p.holes, useZ), PolygonsLengths(ps[1..]) + lrest, mid2),
                       Parsed(ProjectPolys(ps[1..], useZ), lrest, s1));
    }
  }

  /** The round trip for the kinds written as one open run. */
  lemma RunKindRoundTrip(g: Geometry, useZ: bool)
    requires g.Point? || g.MultiPoint? || g.LineString?
    ensures Decoded(Encoded(g, useZ).value, useZ) == Success(ProjectGeometry(g, useZ))
  {
    var pts := if g.Point? then [g.coord] else g.points;
    var w := Encoded(g, useZ).value;
    assert w.coords == DeltaEncode(pts, Origin, useZ) + [];
    RunRoundTrip(pts, false, Stream(w.coords, Origin), Stream([], EncodeAcc(pts, Origin, useZ)), useZ);
    assert g.Point? ==> ProjectAll(pts, useZ) == [Project(g.coord, useZ)];
  }

  lemma MultiLineStringRoundTrip(ls: seq<seq<Coord>>, useZ: bool)
    ensures Decoded(Encoded(MultiLineString(ls), useZ).value, useZ) == Success(MultiLineString(ProjectRuns(ls, useZ)))
  {
    var w := Encoded(MultiLineString(ls), useZ).value;
    var flat := Flatten(ls, false);
    assert w.coords == DeltaEncode(flat, Origin, useZ) + [];
    assert w.lengths == RunLengths(ls, false) + [];
    RunsRoundTrip(ls, false, [], Stream(w.coords, Origin), Stream([], EncodeAcc(flat, Origin, useZ)), useZ);
  }

  lemma PolygonRoundTrip(p: Poly, useZ: bool)
    requires ValidRuns(Rings(p), true, useZ)
    ensures Decoded(Encoded(Polygon(p), useZ).value, useZ) == Success(Polygon(ProjectPoly(p, useZ)))
  {
    var w := Encoded(Polygon(p), useZ).value;
    var flat := Flatten(Rings(p), true);
    assert w.coords == DeltaEncode(flat, Origin, useZ) + [];
    assert w.lengths == RunLengths(Rings(p), true) + [];
    RunsRoundTrip(Rings(p), true, [], Stream(w.coords, Origin), Stream([], EncodeAcc(flat, Origin, useZ)), useZ);
    RunsCons(p.shell, p.holes, true, useZ);
  }

  lemma MultiPolygonRoundTrip(ps: seq<Poly>, useZ: bool)
    requires ValidPolys(ps, useZ)
    ensures Decoded(Encoded(MultiPolygon(ps), useZ).value, useZ) == Success(MultiPolygon(ProjectPolys(ps, useZ)))
  {
    var w := Encoded(MultiPolygon(ps), useZ).value;
    var flat := PolygonsFlatten(ps);
    assert w.coords == DeltaEncode(flat, Origin, useZ) + [];
    assert w.lengths[1..] == PolygonsLengths(ps) + [];
    PolygonsRoundTrip(ps, [], Stream(w.coords, Origin), Stream([], EncodeAcc(flat, Origin, useZ)), useZ);
  }

  /** Round trip: decoding the record an encoder writes for a supported geometry
      gives back that geometry, as seen in the configured dimension. */
  lemma RoundTrip(g: Geometry, useZ: bool)
    requires Supported(g, useZ)
    ensures Encoded(g, useZ).Success?
    ensures Decoded(Encoded(g, useZ).value, useZ) == Success(ProjectGeometry(g, useZ))
  {
    match g
    case Point(_) => RunKindRoundTrip(g, useZ);
    case MultiPoint(_) => RunKindRoundTrip(g, useZ);
    case LineString(_) => RunKindRoundTrip(g, useZ);
    case MultiLineString(ls) => MultiLineStringRoundTrip(ls, useZ);
    case Polygon(p) => PolygonRoundTrip(p, useZ);
    case MultiPolygon(ps) => MultiPolygonRoundTrip(ps, useZ);
  }

  // ------------------------------------------------------- decode, then encode

  /** A decoded ring: its points, then its first point again to close it. */
  lemma ClosedRun(pts: seq<Coord>, useZ: bool)
    requires |pts| >= 1 && ProjectAll(pts, useZ) == pts
    ensures var run := pts + [pts[0]];
      && RunBody(run, true) == pts
      && RunLength(run, true) == |pts|
      && ValidRing(run, useZ)
      && ProjectAll(run, useZ) == run
  {
    var run := pts + [pts[0]];
    assert run[..|run| - 1] == pts;
    assert Project(pts[0], useZ) == pts[0];
    forall i | 0 <= i < |run| ensures ProjectAll(run, useZ)[i] == run[i] {
      if i < |pts| {
        assert Project(pts[i], useZ) == ProjectAll(pts, useZ)[i];
      }
    }
  }

  /** A run the decoder accepts is re-encoded to exactly the deltas it was read from. */
  lemma {:induction false} RunReencodes(n: int, closed: bool, s: Stream, useZ: bool, run: seq<Coord>, s1: Stream)
    requires TakeRun(n, closed, s, useZ) == Success((run, s1))
    ensures RunLength(run, closed) == n
    ensures closed ==> ValidRing(run, useZ)
    ensures ProjectAll(run, useZ) == run
    ensures Emits(RunBody(run, closed), s, s1, useZ)
  {
    var k := Span(n, useZ);
    var d := s.coords[..k];
    var pts := PrefixSums(d, s.sum, useZ);
    assert run == (if closed then pts + [pts[0]] else pts);
    assert s1 == Stream(s.coords[k..], SumAfter(d, s.sum, useZ));
    assert |pts| == n;
    EncodeOfDecode(d, s.sum, useZ);
    PrefixSumsProjected(d, s.sum, useZ);
    if closed {
      ClosedRun(pts, useZ);
    }
    assert s.coords == d + s.coords[k..];
  }

  /** Re-encoding `runs` writes exactly what was read for them: the lengths
      entries at the front of `lengths` (before `lout`) and the deltas at the
      front of `s` (before `s2`); closed runs are valid rings, and every point
      is already in the codec's dimension. */
  predicate RunsReread(runs: seq<seq<Coord>>, closed: bool, lengths: seq<int>, lout: seq<int>,
                       s: Stream, s2: Stream, useZ: bool)
  {
    && ValidRuns(runs, closed, useZ)
    && ProjectRuns(runs, useZ) == runs
    && lengths == RunLengths(runs, closed) + lout
    && Emits(Flatten(runs, closed), s, s2, useZ)
  }

  /** A run and the runs after it, each re-encoding to what was read, make a
      list that re-encodes to everything that was read. */
  lemma RunsJoin(run: seq<Coord>, runs: seq<seq<Coord>>, closed: bool, n: int, lrest: seq<int>, lout: seq<int>,
                 s: Stream, s1: Stream, s2: Stream, useZ: bool)
    requires RunLength(run, closed) == n && (closed ==> ValidRing(run, useZ)) && ProjectAll(run, useZ) == run
    requires Emits(RunBody(run, closed), s, s1, useZ)
    requires RunsReread(runs, closed, lrest, lout, s1, s2, useZ)
    ensures RunsReread([run] + runs, closed, [n] + lrest, lout, s, s2, useZ)
  {
    RunsCons(run, runs, closed, useZ);
    EmitsAppend(RunBody(run, closed), Flatten(runs, closed), s, s1, s2, useZ);
    assert [n] + (RunLengths(runs, closed) + lout) == ([n] + RunLengths(runs, closed)) + lout;
  }

  /** The first run the decoder reads re-encodes to what was read for it; with
      the runs after it, so does the list. */
  lemma RunReencodesJoin(closed: bool, n: int, ltail: seq<int>, s: Stream, useZ: bool,
                         first: (seq<Coord>, Stream), rest: Parsed<seq<seq<Coord>>>)
    requires TakeRun(n, closed, s, useZ) == Success(first)
    requires RunsReread(rest.value, closed, ltail, rest.lengths, first.1, rest.stream, useZ)
    ensures RunsReread([first.0] + rest.value, closed, [n] + ltail, rest.lengths, s, rest.stream, useZ)
  {
    RunReencodes(n, closed, s, useZ, first.0, first.1);
    RunsJoin(first.0, rest.value, closed, n, ltail, rest.lengths, s, first.1, rest.stream, useZ);
  }

  /** Runs the decoder accepts: their lengths entries and deltas are exactly what
      re-encoding them writes, so the lengths cursor consumed `count` entries. */
  lemma {:induction false} RunsReencode(count: nat, closed: bool, lengths: seq<int>, s: Stream, useZ: bool,
                                        p: Parsed<seq<seq<Coord>>>)
    requires ReadsRuns(count, closed, lengths, s, useZ, p)
    ensures RunsReread(p.value, closed, lengths, p.lengths, s, p.stream, useZ)
    decreases count
  {
    if count == 0 {
      assert RunLengths([], closed) + lengths == lengths;
      EmitsNothingFrom(s, useZ);
    } else {
      var first, rest := TakeRunsCons(count, closed, lengths, s, useZ);
      RunsReencode(count - 1, closed, lengths[1..], first.1, useZ, rest);
      RunReencodesJoin(closed, lengths[0], lengths[1..], s, useZ, first, rest);
    }
  }

  /** Re-encoding the polygons `ps` writes exactly what was read for them:
      their lengths entries at the front of `lengths` (before `lout`) and their
      deltas at the front of `s` (before `s2`); every ring is valid and every
      point is already in the codec's dimension. */
  predicate PolysReread(ps: seq<Poly>, lengths: seq<int>, lout: seq<int>, s: Stream, s2: Stream, useZ: bool)
  {
    && ValidPolys(ps, useZ)
    && ProjectPolys(ps, useZ) == ps
    && lengths == PolygonsLengths(ps) + lout
    && Emits(PolygonsFlatten(ps), s, s2, useZ)
  }

  /** A shell, its holes and the polygons after them, each re-encoding to what
      was read, make a list of polygons that re-encodes to everything read. */
  lemma PolysJoin(lengths: seq<int>, shell: seq<Coord>, holes: seq<seq<Coord>>, ps: seq<Poly>,
                  lholes: seq<int>, lrest: seq<int>, lout: seq<int>,
                  s: Stream, s1: Stream, s2: Stream, s3: Stream, useZ: bool)
    requires |lengths| >= 2 && lengths[2..] == lholes
    requires RunLength(shell, true) == lengths[1] && ValidRing(shell, useZ) && ProjectAll(shell, useZ) == shell
    requires Emits(RunBody(shell, true), s, s1, useZ)
    requires lengths[0] == |holes| + 1
    requires RunsReread(holes, true, lholes, lrest, s1, s2, useZ)
    requires PolysReread(ps, lrest, lout, s2, s3, useZ)
    ensures PolysReread([Poly(shell, holes)] + ps, lengths, lout, s, s3, useZ)
  {
    var poly := Poly(shell, holes);
    PolysCons(poly, ps, useZ);
    RunsCons(shell, holes, true, useZ);
    PolyLengthsOf(lengths, poly, ps, lout);
    var shellBody := RunBody(shell, true);
    var holesFlat := Flatten(holes, true);
    EmitsAppend(shellBody, holesFlat, s, s1, s2, useZ);
    EmitsAppend(shellBody + holesFlat, PolygonsFlatten(ps), s, s2, s3, useZ);
  }

  /** The first polygon of a multipolygon the decoder accepts re-encodes to
      what was read for it; with the polygons after it, so does the list. */
  lemma PolygonReencodes(lengths: seq<int>, s: Stream, useZ: bool, shell: (seq<Coord>, Stream),
                         holes: Parsed<seq<seq<Coord>>>, rest: Parsed<seq<Poly>>)
    requires |lengths| >= 2 && lengths[0] >= 1
    requires TakeRun(lengths[1], true, s, useZ) == Success(shell)
    requires ReadsRuns(lengths[0] - 1, true, lengths[2..], shell.1, useZ, holes)
    requires PolysReread(rest.value, holes.lengths, rest.lengths, holes.stream, rest.stream, useZ)
    ensures PolysReread([Poly(shell.0, holes.value)] + rest.value, lengths, rest.lengths, s, rest.stream, useZ)
  {
    RunReencodes(lengths[1], true, s, useZ, shell.0, shell.1);
    RunsReencode(lengths[0] - 1, true, lengths[2..], shell.1, useZ, holes);
    PolysJoin(lengths, shell.0, holes.value, rest.value, lengths[2..], holes.lengths, rest.lengths,
              s, shell.1, holes.stream, rest.stream, useZ);
  }

  /** Polygons the decoder accepts: the lengths they were read from are their
      ring counts and ring lengths, and the deltas are what re-encoding writes. */
  lemma {:induction false} PolygonsReencode(count: nat, lengths: seq<int>, s: Stream, useZ: bool,
                                            p: Parsed<seq<Poly>>)
    requires ReadsPolygons(count, lengths, s, useZ, p)
    ensures PolysReread(p.value, lengths, p.lengths, s, p.stream, useZ)
    decreases count
  {
    if count == 0 {
      assert PolygonsLengths([]) + lengths == lengths;
      EmitsNothingFrom(s, useZ);
    } else {
      var shell, holes, rest := TakePolygonsCons(count, lengths, s, useZ);
      PolygonsReencode(count - 1, holes.lengths, holes.stream, useZ, rest);
      PolygonReencodes(lengths, s, useZ, shell, holes, rest);
    }
  }

  lemma EmitsPrefix(pts: seq<Coord>, s: Stream, s1: Stream, useZ: bool)
    requires Emits(pts, s, s1, useZ)
    ensures IsPrefix(DeltaEncode(pts, s.sum, useZ), s.coords)
  {
    var e := DeltaEncode(pts, s.sum, useZ);
    assert s.coords[..|e|] == e;
  }

  /** `g`, read from `w`, is a supported geometry that re-encodes to a prefix of
      `w`: same type tag, the lengths entries that were read (all of them for a
      polygon or multilinestring) and the deltas that were read. */
  predicate Reencodes(w: Wire, g: Geometry, useZ: bool)
  {
    && Supported(g, useZ)
    && ProjectGeometry(g, useZ) == g
    && Encoded(g, useZ).Success?
    && Encoded(g, useZ).value.kind == w.kind
    && IsPrefix(Encoded(g, useZ).value.lengths, w.lengths)
    && IsPrefix(Encoded(g, useZ).value.coords, w.coords)
    && (w.kind == PolygonType || w.kind == MultiLineStringType ==> Encoded(g, useZ).value.lengths == w.lengths)
  }

  lemma RunDecodeThenEncode(w: Wire, useZ: bool)
    requires w.kind == PointType || w.kind == MultiPointType || w.kind == LineStringType
    requires Decoded(w, useZ).Success?
    ensures Reencodes(w, Decoded(w, useZ).value, useZ)
  {
    var start := Stream(w.coords, Origin);
    var n := if w.kind == PointType then 1 else Count(|w.coords|, useZ);
    var r := TakeRun(n, false, start, useZ).value;
    RunReencodes(n, false, start, useZ, r.0, r.1);
    EmitsPrefix(r.0, start, r.1, useZ);
    assert [] == w.lengths[..0];
    if w.kind == PointType {
      assert r.0 == [r.0[0]];
    }
  }

  /** The runs of a multilinestring or polygon record: all lengths entries are
      read, and re-encoding the runs writes them and a prefix of the deltas. */
  lemma AllRunsReread(w: Wire, closed: bool, useZ: bool) returns (p: Parsed<seq<seq<Coord>>>)
    requires TakeRuns(|w.lengths|, closed, w.lengths, Stream(w.coords, Origin), useZ).Success?
    ensures ReadsRuns(|w.lengths|, closed, w.lengths, Stream(w.coords, Origin), useZ, p)
    ensures |p.value| == |w.lengths| && w.lengths == RunLengths(p.value, closed)
    ensures ValidRuns(p.value, closed, useZ) && ProjectRuns(p.value, useZ) == p.value
    ensures IsPrefix(DeltaEncode(Flatten(p.value, closed), Origin, useZ), w.coords)
  {
    var start := Stream(w.coords, Origin);
    p := TakeRuns(|w.lengths|, closed, w.lengths, start, useZ).value;
    RunsReencode(|w.lengths|, closed, w.lengths, start, useZ, p);
    assert p.lengths == [];
    assert w.lengths == RunLengths(p.value, closed) + [];
    EmitsPrefix(Flatten(p.value, closed), start, p.stream, useZ);
  }

  lemma MultiLineStringDecodeThenEncode(w: Wire, useZ: bool)
    requires w.kind == MultiLineStringType && Decoded(w, useZ).Success?
    ensures Reencodes(w, Decoded(w, useZ).value, useZ)
  {
    var p := AllRunsReread(w, false, useZ);
    assert Decoded(w, useZ) == Success(MultiLineString(p.value));
  }

  lemma PolygonDecodeThenEncode(w: Wire, useZ: bool)
    requires w.kind == PolygonType && Decoded(w, useZ).Success?
    ensures Reencodes(w, Decoded(w, useZ).value, useZ)
  {
    var p := AllRunsReread(w, true, useZ);
    assert Decoded(w, useZ) == Success(Polygon(Poly(p.value[0], p.value[1..])));
    RingsReencode(w, p.value, useZ);
  }

  /** The rings a polygon record was read into make a polygon that re-encodes to it. */
  lemma RingsReencode(w: Wire, rings: seq<seq<Coord>>, useZ: bool)
    requires w.kind == PolygonType && rings != []
    requires w.lengths == RunLengths(rings, true)
    requires ValidRuns(rings, true, useZ) && ProjectRuns(rings, useZ) == rings
    requires IsPrefix(DeltaEncode(Flatten(rings, true), Origin, useZ), w.coords)
    ensures Reencodes(w, Polygon(Poly(rings[0], rings[1..])), useZ)
  {
    var poly := Poly(rings[0], rings[1..]);
    assert rings == [rings[0]] + rings[1..];
    RunsCons(rings[0], rings[1..], true, useZ);
    assert Rings(poly) == rings;
  }

  /** A multipolygon's lengths stream: the polygon count, then the polygons'
      entries, then whatever was not read. */
  lemma LengthsPrefix(lengths: seq<int>, polys: seq<int>, lout: seq<int>)
    requires |lengths| > 0 && lengths[1..] == polys + lout
    ensures IsPrefix([lengths[0]] + polys, lengths)
  {
    assert lengths == ([lengths[0]] + polys) + lout;
  }

  lemma MultiPolygonDecodeThenEncode(w: Wire, useZ: bool)
    requires w.kind == MultiPolygonType && Decoded(w, useZ).Success?
    ensures Reencodes(w, Decoded(w, useZ).value, useZ)
  {
    var start := Stream(w.coords, Origin);
    var p := TakePolygons(w.lengths[0], w.lengths[1..], start, useZ).value;
    assert ReadsPolygons(w.lengths[0], w.lengths[1..], start, useZ, p);
    assert Decoded(w, useZ) == Success(MultiPolygon(p.value));
    PolygonsReencode(w.lengths[0], w.lengths[1..], start, useZ, p);
    EmitsPrefix(PolygonsFlatten(p.value), start, p.stream, useZ);
    LengthsPrefix(w.lengths, PolygonsLengths(p.value), p.lengths);
  }

  /** Every record the decoder accepts holds a supported geometry that re-encodes
      to a prefix of the record: same type tag, the lengths entries the decoder
      read (all of them for a polygon or multilinestring) and the deltas it read;
      only unread trailing entries can differ. */
  lemma DecodeThenEncode(w: Wire, useZ: bool)
    requires Decoded(w, useZ).Success?
    ensures var g := Decoded(w, useZ).value;
      && Supported(g, useZ)
      && ProjectGeometry(g, useZ) == g
      && Encoded(g, useZ).Success?
      && Encoded(g, useZ).value.kind == w.kind
      && IsPrefix(Encoded(g, useZ).value.lengths, w.lengths)
      && IsPrefix(Encoded(g, useZ).value.coords, w.coords)
      && (w.kind == PolygonType || w.kind == MultiLineStringType ==> Encoded(g, useZ).value.lengths == w.lengths)
  {
    match w.kind
    case PointType => RunDecodeThenEncode(w, useZ);
    case MultiPointType => RunDecodeThenEncode(w, useZ);
    case LineStringType => RunDecodeThenEncode(w, useZ);
    case MultiLineStringType => MultiLineStringDecodeThenEncode(w, useZ);
    case PolygonType => PolygonDecodeThenEncode(w, useZ);
    case MultiPolygonType => MultiPolygonDecodeThenEncode(w, useZ);
  }

  /** Both directions together: a record the decoder accepts decodes to a
      geometry that survives the round trip unchanged. */
  lemma FixedPoint(w: Wire, useZ: bool)
    requires Decoded(w, useZ).Success?
    ensures Decoded(Encoded(Decoded(w, useZ).value, useZ).value, useZ) == Decoded(w, useZ)
  {
    DecodeThenEncode(w, useZ);
    RoundTrip(Decoded(w, useZ).value, useZ);
  }

  // ------------------------------------------------------------- record shape

  /** The sum of a list of lengths entries. */
  function Total(xs: seq<int>): int
    decreases |xs|
  {
    if xs == [] then 0 else xs[0] + Total(xs[1..])
  }

  lemma {:induction false} TotalAppend(a: seq<int>, b: seq<int>)
    ensures Total(a + b) == Total(a) + Total(b)
    decreases |a|
  {
    if a == [] {
      assert a + b == b;
    } else {
      assert (a + b)[1..] == a[1..] + b;
      TotalAppend(a[1..], b);
    }
  }

  /** The points of a list of runs on the wire number as many as their lengths
      entries say (a closed ring's entry leaves out its closing point). */
  lemma {:induction false} FlattenSize(runs: seq<seq<Coord>>, closed: bool, useZ: bool)
    requires ValidRuns(runs, closed, useZ)
    ensures |Flatten(runs, closed)| == Total(RunLengths(runs, closed))
    decreases |runs|
  {
    if runs != [] {
      assert closed ==> ValidRing(runs[0], useZ);
      assert ValidRuns(runs[1..], closed, useZ) by {
        if closed {
          forall i | 0 <= i < |runs[1..]| ensures ValidRing(runs[1..][i], useZ) {
            assert runs[1..][i] == runs[i + 1];
          }
        }
      }
      FlattenSize(runs[1..], closed, useZ);
    }
  }

  /** The same for all rings of all polygons of a multipolygon. */
  lemma {:induction false} PolygonsFlattenSize(ps: seq<Poly>, useZ: bool)
    requires ValidPolys(ps, useZ)
    ensures |PolygonsFlatten(ps)| == Total(PolygonsRingLengths(ps))
    decreases |ps|
  {
    if ps != [] {
      assert ValidRuns(Rings(ps[0]), true, useZ);
      assert ValidPolys(ps[1..], useZ) by {
        forall i | 0 <= i < |ps[1..]| ensures ValidRuns(Rings(ps[1..][i]), true, useZ) {
          assert ps[1..][i] == ps[i + 1];
        }
      }
      FlattenSize(Rings(ps[0]), true, useZ);
      PolygonsFlattenSize(ps[1..], useZ);
      TotalAppend(RunLengths(Rings(ps[0]), true), PolygonsRingLengths(ps[1..]));
    }
  }

  /** The shape of every record the encoder writes: the point kinds write no
      lengths entries and `Dim` ordinates per point; a multilinestring or
      polygon writes `Dim` ordinates per point its lengths entries count; a
      multipolygon starts its lengths with the polygon count and writes `Dim`
      ordinates per point its ring lengths count. */
  lemma EncodedLayout(g: Geometry, useZ: bool)
    requires Supported(g, useZ)
    ensures Encoded(g, useZ).Success?
    ensures var w := Encoded(g, useZ).value;
      && (g.Point? ==> w.lengths == [] && |w.coords| == Dim(useZ))
      && (g.MultiPoint? || g.LineString? ==> w.lengths == [] && |w.coords| == Span(|g.points|, useZ))
      && (g.MultiLineString? || g.Polygon? ==> |w.coords| == Span(Total(w.lengths), useZ))
      && (g.MultiPolygon? ==> |w.lengths| > 0 && w.lengths[0] == |g.polys|
                              && |w.coords| == Span(Total(PolygonsRingLengths(g.polys)), useZ))
  {
    match g
    case MultiLineString(ls) => FlattenSize(ls, false, useZ);
    case Polygon(p) => FlattenSize(Rings(p), true, useZ);
    case MultiPolygon(ps) => PolygonsFlattenSize(ps, useZ);
    case _ =>
  }

  /** Runs read from the lengths stream have the sizes their entries give,
      one more for a closed ring's closing point. */
  lemma {:induction false} TakeRunsSizes(count: nat, closed: bool, lengths: seq<int>, s: Stream, useZ: bool)
    requires TakeRuns(count, closed, lengths, s, useZ).Success?
    ensures var runs := TakeRuns(count, closed, lengths, s, useZ).value.value;
      count <= |lengths|
      && forall i :: 0 <= i < count ==> |runs[i]| == lengths[i] + if closed then 1 else 0
    decreases count
  {
    if count > 0 {
      var run := TakeRun(lengths[0], closed, s, useZ).value;
      TakeRunsSizes(count - 1, closed, lengths[1..], run.1, useZ);
    }
  }

  /** The decoded shape of a multilinestring or polygon record: one part per
      lengths entry, part `i` with `lengths[i]` points; for a polygon the first
      entry gives the shell and the others the holes, in order, each ring with
      its closing point added. */
  lemma DecodedRunSizes(w: Wire, useZ: bool)
    requires Decoded(w, useZ).Success?
    ensures var g := Decoded(w, useZ).value;
      && (w.kind == MultiLineStringType ==>
            g.MultiLineString? && |g.lines| == |w.lengths|
            && forall i :: 0 <= i < |w.lengths| ==> |g.lines[i]| == w.lengths[i])
      && (w.kind == PolygonType ==>
            g.Polygon? && |w.lengths| > 0 && |g.poly.shell| == w.lengths[0] + 1
            && |g.poly.holes| == |w.lengths| - 1
            && forall i :: 0 <= i < |g.poly.holes| ==> |g.poly.holes[i]| == w.lengths[i + 1] + 1)
  {
    var start := Stream(w.coords, Origin);
    if w.kind == MultiLineStringType {
      TakeRunsSizes(|w.lengths|, false, w.lengths, start, useZ);
    } else if w.kind == PolygonType {
      TakeRunsSizes(|w.lengths|, true, w.lengths, start, useZ);
      var rings := TakeRuns(|w.lengths|, true, w.lengths, start, useZ).value.value;
      forall i | 0 <= i < |rings| - 1 ensures |rings[1..][i]| == w.lengths[i + 1] + 1 {
        assert rings[1..][i] == rings[i + 1];
      }
    }
  }
}
