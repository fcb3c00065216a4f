/** Running-delta coding of quantised coordinates, the primitive shared by the
    encoder (`deltaEncode`) and the decoder (`deltaDecode`). The encoder emits
    each point's ordinates minus a running accumulator and moves the accumulator
    to that point; the decoder adds the deltas back onto a running sum. */
module DeltaCoding {
  import opened GeoTypes

  /** The encoder's accumulator after emitting `p`: X and Y (and Z when it is
      used) become `p`'s; without Z the third entry is left as it was. */
  function Advance(acc: Coord, p: Coord, useZ: bool): Coord
  {
    Coord(p.x, p.y, if useZ then p.z else acc.z)
  }

  /** The deltas emitted for `p` against the accumulator `acc`. */
  function Delta(p: Coord, acc: Coord, useZ: bool): seq<int>
  {
    Ordinates(Coord(p.x - acc.x, p.y - acc.y, p.z - acc.z), useZ)
  }

  /** The deltas emitted for `pts`, in order, starting from accumulator `acc`. */
  function DeltaEncode(pts: seq<Coord>, acc: Coord, useZ: bool): (r: seq<int>)
    ensures |r| == Span(|pts|, useZ)
    decreases |pts|
  {
    if pts == [] then []
    else Delta(pts[0], acc, useZ) + DeltaEncode(pts[1..], Advance(acc, pts[0], useZ), useZ)
  }

  /** The encoder's accumulator once `pts` have been emitted from `acc`. */
  function EncodeAcc(pts: seq<Coord>, acc: Coord, useZ: bool): Coord
    decreases |pts|
  {
    if pts == [] then acc else EncodeAcc(pts[1..], Advance(acc, pts[0], useZ), useZ)
  }

  /** The decoder's running sum after adding the first point's deltas of `d`. */
  function AddDeltas(sum: Coord, d: seq<int>, useZ: bool): Coord
    requires |d| >= Dim(useZ)
  {
    Coord(sum.x + d[0], sum.y + d[1], if useZ then sum.z + d[2] else sum.z)
  }

  /** The points decoded from `d` starting from running sum `sum`: one point per
      whole group of `Dim(useZ)` deltas; a trailing partial group is ignored. */
  function PrefixSums(d: seq<int>, sum: Coord, useZ: bool): (r: seq<Coord>)
    ensures |r| == Count(|d|, useZ)
    decreases |d|
  {
    if |d| < Dim(useZ) then []
    else
      var s := AddDeltas(sum, d, useZ);
      [Project(s, useZ)] + PrefixSums(d[Dim(useZ)..], s, useZ)
  }

  /** The decoder's running sum once the whole groups of `d` have been added. */
  function SumAfter(d: seq<int>, sum: Coord, useZ: bool): Coord
    decreases |d|
  {
    if |d| < Dim(useZ) then sum
    else SumAfter(d[Dim(useZ)..], AddDeltas(sum, d, useZ), useZ)
  }

  /** Decoded points carry no ordinate beyond the codec's dimension. */
  lemma {:induction false} PrefixSumsProjected(d: seq<int>, sum: Coord, useZ: bool)
    ensures ProjectAll(PrefixSums(d, sum, useZ), useZ) == PrefixSums(d, sum, useZ)
    decreases |d|
  {
    if |d| >= Dim(useZ) {
      PrefixSumsProjected(d[Dim(useZ)..], AddDeltas(sum, d, useZ), useZ);
    }
  }

  /** Reference definition: the sum of ordinate `j` over the whole groups of `d`. */
  function OrdinateSum(d: seq<int>, j: nat, useZ: bool): int
    requires j < Dim(useZ)
    decreases |d|
  {
    if |d| < Dim(useZ) then 0 else d[j] + OrdinateSum(d[Dim(useZ)..], j, useZ)
  }

  /** Emitting `a` then `b` is emitting `a + b`, with the accumulator threaded through. */
  lemma {:induction false} DeltaEncodeAppend(a: seq<Coord>, b: seq<Coord>, acc: Coord, useZ: bool)
    ensures DeltaEncode(a + b, acc, useZ)
         == DeltaEncode(a, acc, useZ) + DeltaEncode(b, EncodeAcc(a, acc, useZ), useZ)
    ensures EncodeAcc(a + b, acc, useZ) == EncodeAcc(b, EncodeAcc(a, acc, useZ), useZ)
    decreases |a|
  {
    if a != [] {
      assert (a + b)[0] == a[0];
      assert (a + b)[1..] == a[1..] + b;
      DeltaEncodeAppend(a[1..], b, Advance(acc, a[0], useZ), useZ);
    } else {
      assert a + b == b;
    }
  }

  /** After emitting a non-empty run, the accumulator holds the last point's X, Y
      (and Z when used); without Z, the third entry is still the one it started with. */
  lemma {:induction false} EncodeAccLast(pts: seq<Coord>, acc: Coord, useZ: bool)
    ensures EncodeAcc(pts, acc, useZ)
         == if pts == [] then acc else Advance(acc, pts[|pts| - 1], useZ)
    decreases |pts|
  {
    if |pts| > 1 {
      EncodeAccLast(pts[1..], Advance(acc, pts[0], useZ), useZ);
    }
  }

  /** Decoding `a + b` is decoding `a` and then `b` from where `a` left the sum. */
  lemma {:induction false} PrefixSumsAppend(a: seq<int>, b: seq<int>, sum: Coord, useZ: bool)
    requires Whole(|a|, useZ)
    ensures PrefixSums(a + b, sum, useZ)
         == PrefixSums(a, sum, useZ) + PrefixSums(b, SumAfter(a, sum, useZ), useZ)
    ensures SumAfter(a + b, sum, useZ) == SumAfter(b, SumAfter(a, sum, useZ), useZ)
    decreases |a|
  {
    var n := Dim(useZ);
    if |a| < n {
      assert a == [];
      assert a + b == b;
    } else {
      assert (a + b)[..n] == a[..n];
      assert (a + b)[n..] == a[n..] + b;
      assert AddDeltas(sum, a + b, useZ) == AddDeltas(sum, a, useZ);
      PrefixSumsAppend(a[n..], b, AddDeltas(sum, a, useZ), useZ);
    }
  }

  /** Delta coding inverts exactly: prefix-summing the emitted deltas from the
      same accumulator gives back the points (as the codec's dimension sees them),
      and the decoder's sum ends where the encoder's accumulator did. */
  lemma {:induction false} DecodeOfEncode(pts: seq<Coord>, acc: Coord, useZ: bool)
    ensures PrefixSums(DeltaEncode(pts, acc, useZ), acc, useZ) == ProjectAll(pts, useZ)
    ensures SumAfter(DeltaEncode(pts, acc, useZ), acc, useZ) == EncodeAcc(pts, acc, useZ)
    decreases |pts|
  {
    if pts != [] {
      var n := Dim(useZ);
      var d := DeltaEncode(pts, acc, useZ);
      var next := Advance(acc, pts[0], useZ);
      assert d[..n] == Delta(pts[0], acc, useZ);
      assert d[n..] == DeltaEncode(pts[1..], next, useZ);
      assert AddDeltas(acc, d, useZ) == next;
      DecodeOfEncode(pts[1..], next, useZ);
      assert ProjectAll(pts, useZ) == [Project(pts[0], useZ)] + ProjectAll(pts[1..], useZ);
    }
  }

  /** And the other way: re-encoding decoded points from the same accumulator
      gives back the deltas they were read from. */
  lemma {:induction false} EncodeOfDecode(d: seq<int>, sum: Coord, useZ: bool)
    requires Whole(|d|, useZ)
    ensures DeltaEncode(PrefixSums(d, sum, useZ), sum, useZ) == d
    ensures EncodeAcc(PrefixSums(d, sum, useZ), sum, useZ) == SumAfter(d, sum, useZ)
    decreases |d|
  {
    var n := Dim(useZ);
    if |d| >= n {
      var s := AddDeltas(sum, d, useZ);
      var pts := PrefixSums(d, sum, useZ);
      assert pts[0] == Project(s, useZ);
      assert pts[1..] == PrefixSums(d[n..], s, useZ);
      assert Advance(sum, pts[0], useZ) == s;
      assert Delta(pts[0], sum, useZ) == d[..n];
      EncodeOfDecode(d[n..], s, useZ);
      assert d == d[..n] + d[n..];
    }
  }

  /** Decoded point `k` is the per-ordinate sum of the deltas of points 0..k
      (decoding starts from a zero sum, so nothing else contributes). */
  lemma {:induction false} PrefixSumsAt(d: seq<int>, k: nat, useZ: bool)
    requires k < Count(|d|, useZ)
    ensures var c := d[..Span(k + 1, useZ)];
      PrefixSums(d, Origin, useZ)[k]
      == Coord(OrdinateSum(c, 0, useZ), OrdinateSum(c, 1, useZ),
               if useZ then OrdinateSum(c, 2, useZ) else 0)
  {
    PrefixSumsAtFrom(d, k, Origin, useZ);
  }

  lemma {:induction false} PrefixSumsAtFrom(d: seq<int>, k: nat, sum: Coord, useZ: bool)
    requires k < Count(|d|, useZ)
    ensures var c := d[..Span(k + 1, useZ)];
      PrefixSums(d, sum, useZ)[k]
      == Coord(sum.x + OrdinateSum(c, 0, useZ), sum.y + OrdinateSum(c, 1, useZ),
               if useZ then sum.z + OrdinateSum(c, 2, useZ) else 0)
    decreases k
  {
    var n := Dim(useZ);
    var c := d[..(k + 1) * n];
    var s := AddDeltas(sum, d, useZ);
    assert c[..n] == d[..n];
    if k == 0 {
      assert c[n..] == [];
    } else {
      assert |d[n..]| / n == |d| / n - 1 by {
        assert |d[n..]| == |d| - n;
      }
      PrefixSumsAtFrom(d[n..], k - 1, s, useZ);
      assert c[n..] == d[n..][..k * n];
    }
  }

  /** Delta continuity: the deltas of point `k` are its ordinates minus those of
      the point before it (or of the starting accumulator for the first point),
      so a multi-part run is never reset between parts. */
  lemma {:induction false} DeltaAt(pts: seq<Coord>, acc: Coord, k: nat, useZ: bool)
    requires k < |pts|
    ensures var prev := if k == 0 then acc else Advance(acc, pts[k - 1], useZ);
      DeltaEncode(pts, acc, useZ)[Span(k, useZ) .. Span(k + 1, useZ)]
      == Ordinates(Coord(pts[k].x - prev.x, pts[k].y - prev.y, pts[k].z - prev.z), useZ)
    decreases k
  {
    var n := Dim(useZ);
    var d := DeltaEncode(pts, acc, useZ);
    var next := Advance(acc, pts[0], useZ);
    assert d[n..] == DeltaEncode(pts[1..], next, useZ);
    if k > 0 {
      DeltaAt(pts[1..], next, k - 1, useZ);
      assert d[Span(k, useZ) .. Span(k + 1, useZ)] == d[n..][Span(k - 1, useZ) .. Span(k, useZ)];
      if k - 1 > 0 {
        assert Advance(next, pts[k - 1], useZ) == Advance(acc, pts[k - 1], useZ);
      }
    }
  }
}
