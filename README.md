# geobuf4j geometry codec, modelled in Dafny

geobuf4j turns a geometry into a Geobuf geometry record, and a record back
into a geometry. The geometry kinds are Point, MultiPoint, LineString,
MultiLineString, Polygon and MultiPolygon. A record holds three things:
- a type tag;
- a `lengths` list of integers describing the nesting;
- a flat `coords` list of coordinate deltas.

Each coordinate is first quantised to an integer. X and Y (and Z when the
codec is configured with `useZ`) are then written as the difference from a
running accumulator. The decoder adds the deltas back onto a running sum.

This project models the two halves of that codec, `GeometryEncoder` and
`GeometryDecoder`, in the form the source has them. It proves that what they
compute is exactly what a small set of layout functions describes, and proves
the codec's properties about those functions.

- `geo_types.dfy` (module `GeoTypes`) defines the types and the dimension arithmetic:
  - the geometry, coordinate and wire record types;
  - the error types;
  - `Dim`, `Span`, `Count` and `Whole`, which say how many ordinates a
    coordinate takes (2 or 3);
  - `Project`, which gives a coordinate as the codec sees it (without Z, Z is dropped).
- `delta_coding.dfy` (module `DeltaCoding`) is running-delta coding on its own.
  - `DeltaEncode` and `EncodeAcc` are what the encoder's loops emit and where
    they leave the accumulator.
  - `PrefixSums` and `SumAfter` are what the decoder's loops rebuild and where
    they leave the running sum.
  - Lemmas prove that these invert each other in both directions, and state
    what each decoded point and each emitted delta is.
- `wire_layout.dfy` (module `WireLayout`) holds the layout functions.
  - `Encoded` gives the record written for each geometry kind.
  - `Decoded` gives the geometry read back from a record, failures included.
  - `Decoded` reads the lengths list and the coordinate stream from the front:
    one run (`TakeRun`), a list of runs (`TakeRuns`), one polygon
    (`TakePolygon`) or a list of polygons (`TakePolygons`) at a time, with one running sum for the whole record.
- `geometry_encoder.dfy` (module `Encoding`) is the encoder as the source writes it.
  - `WireBuilder` is a builder whose `lengths` and `coords` lists grow by appending.
  - `GeometryEncoder` has one method per `write*` and `deltaEncode` overload.
  - The accumulator array `last` is shared by all rings of a polygon or multipolygon.
  - Every method is proved to append exactly what `Encoded` describes.
- `geometry_decoder.dfy` (module `Decoding`) is the decoder as the source writes it.
  - `GeometryDecoder` uses index cursors into both lists and the `sum` array
    shared by all rings of a multipolygon.
  - It fills fresh coordinate arrays and closes each ring by copying its first point.
  - Every method is proved to return exactly what `Decoded` returns, failures included.
  - A method that stops part-way through a record also states where it left
    both cursors and the running sum.
- `codec_properties.dfy` (module `CodecProperties`) proves the codec's properties:
  - the round trip `Decoded(Encoded(g)) == g` for every supported geometry
    (in the configured dimension);
  - the converse: every accepted record decodes to a geometry that re-encodes
    to the part of the record the decoder read;
  - that the decode/encode round trip is therefore a fixed point;
  - the shape of the records (how many ordinates, how many lengths entries)
    and of the decoded geometries.

Two conditions on `RoundTrip`:
- Polygon rings must have at least two points.
- A ring's first and last points must agree in the configured dimension.

The reason: the encoder writes a ring's length as its point count minus one,
and drops the closing point. So an empty ring goes on the wire as the length
entry `-1` with no coordinates, and the decoder refuses that entry.

## Model

| member | source | states |
|---|---|---|
| `DeltaCoding.DeltaEncode` | src/main/java/com/instantdelay/geobuf4j/GeometryEncoder.java:130-146 | encoding `n` points emits exactly `dim × n` deltas |
| `DeltaCoding.PrefixSums` | src/main/java/com/instantdelay/geobuf4j/GeometryDecoder.java:96-99 | decoding a delta list gives `len / dim` points; a trailing partial group is ignored, not refused |
| `DeltaCoding.DecodeOfEncode` | src/main/java/com/instantdelay/geobuf4j/GeometryEncoder.java:130-146 | prefix-summing the emitted deltas from the same start gives back the points (in the codec's dimension); the decoder's sum ends where the encoder's accumulator does |
| `DeltaCoding.EncodeOfDecode` | src/main/java/com/instantdelay/geobuf4j/GeometryDecoder.java:127-142 | re-encoding decoded points from the same start gives back exactly the deltas they were read from, and the accumulator ends at the decoder's sum |
| `DeltaCoding.DeltaEncodeAppend` | src/main/java/com/instantdelay/geobuf4j/GeometryEncoder.java:87-95 | emitting two parts with one accumulator is emitting their concatenation; the accumulator is not reset between parts |
| `DeltaCoding.EncodeAccLast` | src/main/java/com/instantdelay/geobuf4j/GeometryEncoder.java:114-127 | after a non-empty run, the accumulator holds the last emitted point's X, Y (and Z when used); without Z its third entry is unchanged |
| `DeltaCoding.PrefixSumsAppend` | src/main/java/com/instantdelay/geobuf4j/GeometryDecoder.java:64-80 | decoding two delta lists in turn with one running sum is decoding their concatenation (one sum spans all rings) |
| `DeltaCoding.PrefixSumsProjected` | src/main/java/com/instantdelay/geobuf4j/GeometryDecoder.java:114-118 | decoded points carry no ordinate beyond the configured dimension |
| `DeltaCoding.PrefixSumsAt` | src/main/java/com/instantdelay/geobuf4j/GeometryDecoder.java:101-119 | decoded point `k` is, per ordinate, the sum of the deltas of points `0..k` |
| `DeltaCoding.PrefixSumsAtFrom` | src/main/java/com/instantdelay/geobuf4j/GeometryDecoder.java:131-141 | the same from a running sum carried over from earlier rings: the carried sum plus the deltas of points `0..k` |
| `DeltaCoding.DeltaAt` | src/main/java/com/instantdelay/geobuf4j/GeometryEncoder.java:114-127 | the deltas of point `k` are its ordinates minus those of point `k - 1` (minus the starting accumulator for `k = 0`) |
| `WireLayout.Encoded` | src/main/java/com/instantdelay/geobuf4j/GeometryEncoder.java:27-60 | encoding fails exactly for a collection; otherwise the type tag is the geometry's kind |
| `WireLayout.EncodedWhole` | src/main/java/com/instantdelay/geobuf4j/GeometryEncoder.java:114-127 | every record's coords list has a length that is a multiple of `dim` |
| `WireLayout.RunLengths` | src/main/java/com/instantdelay/geobuf4j/GeometryEncoder.java:78-83 | one lengths entry per run |
| `WireLayout.TakeRun` | src/main/java/com/instantdelay/geobuf4j/GeometryDecoder.java:127-147 | a run read with count `n` has `n` points, or `n + 1` when it is a closed ring |
| `WireLayout.TakeRunCloses` | src/main/java/com/instantdelay/geobuf4j/GeometryDecoder.java:143-145 | a ring read with length entry `L` has `L + 1` points, and its last point is its first |
| `WireLayout.TakeRuns` | src/main/java/com/instantdelay/geobuf4j/GeometryDecoder.java:101-125 | reading `count` runs yields `count` runs |
| `WireLayout.TakePolygons` | src/main/java/com/instantdelay/geobuf4j/GeometryDecoder.java:66-82 | reading `count` polygons yields `count` polygons |
| `Encoding.WireBuilder.constructor` | src/main/java/com/instantdelay/geobuf4j/GeometryEncoder.java:28 | a fresh record has empty lengths and coords lists |
| `Encoding.WireBuilder.SetType` | src/main/java/com/instantdelay/geobuf4j/GeometryEncoder.java:31 | sets the tag and leaves both lists as they were |
| `Encoding.WireBuilder.AddLengths` | src/main/java/com/instantdelay/geobuf4j/GeometryEncoder.java:81 | appends one entry to lengths; nothing else changes |
| `Encoding.WireBuilder.AddCoords` | src/main/java/com/instantdelay/geobuf4j/GeometryEncoder.java:117 | appends one delta to coords; nothing else changes |
| `Encoding.EmitPlanar` | src/main/java/com/instantdelay/geobuf4j/GeometryEncoder.java:115-120 | one loop step without Z: the X and Y deltas against the accumulator extend the encoding by one point and move the accumulator to it |
| `Encoding.EmitSpatial` | src/main/java/com/instantdelay/geobuf4j/GeometryEncoder.java:115-126 | the same with the Z delta |
| `Encoding.RingWritten` | src/main/java/com/instantdelay/geobuf4j/GeometryEncoder.java:100-104 | writing hole `i` (its length, then its deltas from where the earlier rings left `last`) extends the record of rings `0..i-1` to that of rings `0..i` |
| `Encoding.PolygonWritten` | src/main/java/com/instantdelay/geobuf4j/GeometryEncoder.java:91-94 | writing polygon `i` (its ring count, then its rings from where the earlier polygons left `last`) extends the record of polygons `0..i-1` to that of polygons `0..i` |
| `Encoding.GeometryEncoder.constructor` | src/main/java/com/instantdelay/geobuf4j/GeometryEncoder.java:22-25 | keeps the `useZ` setting |
| `Encoding.GeometryEncoder.Encode` | src/main/java/com/instantdelay/geobuf4j/GeometryEncoder.java:27-60 | the record returned is exactly `Encoded(g)`: the tag of the kind, its lengths and its deltas; a collection is refused |
| `Encoding.GeometryEncoder.WritePoint` | src/main/java/com/instantdelay/geobuf4j/GeometryEncoder.java:62-64 | appends the deltas of the one point from a zero accumulator; lengths untouched |
| `Encoding.GeometryEncoder.WriteMultiPoint` | src/main/java/com/instantdelay/geobuf4j/GeometryEncoder.java:66-72 | copies the points into an array, then appends their deltas from a zero accumulator; lengths untouched |
| `Encoding.GeometryEncoder.WriteLineString` | src/main/java/com/instantdelay/geobuf4j/GeometryEncoder.java:74-76 | appends the deltas of the points from a zero accumulator; lengths untouched |
| `Encoding.GeometryEncoder.WriteMultiLineString` | src/main/java/com/instantdelay/geobuf4j/GeometryEncoder.java:78-85 | appends one lengths entry per part (its point count), then the deltas of all parts gathered into one coordinate array, with one accumulator |
| `Encoding.GeometryEncoder.WriteMultiPolygon` | src/main/java/com/instantdelay/geobuf4j/GeometryEncoder.java:87-95 | appends the polygon count, then per polygon its ring count and ring lengths; appends the deltas of all rings of all polygons (closing points left out), with one accumulator |
| `Encoding.GeometryEncoder.WritePolygon` | src/main/java/com/instantdelay/geobuf4j/GeometryEncoder.java:97-106 | appends `size - 1` per ring (shell first) and the rings' deltas without closing points, continuing from the accumulator in `last`; `last` ends at the accumulator after the last ring |
| `Encoding.GeometryEncoder.DeltaEncodeClosed` | src/main/java/com/instantdelay/geobuf4j/GeometryEncoder.java:108-128 | appends the deltas of the run (less its closing point when closed) against `last`; `last` ends at the accumulator after them |
| `Encoding.GeometryEncoder.DeltaEncodeSequence` | src/main/java/com/instantdelay/geobuf4j/GeometryEncoder.java:130-146 | appends the deltas of the points from a zero accumulator |
| `Encoding.GeometryEncoder.DeltaEncodeArray` | src/main/java/com/instantdelay/geobuf4j/GeometryEncoder.java:148-164 | appends the deltas of the array's points from a zero accumulator |
| `Decoding.ReadStep` | src/main/java/com/instantdelay/geobuf4j/GeometryDecoder.java:131-141 | one loop step: adding the deltas at the cursor to the running sum adds exactly one decoded point and moves the sum past it |
| `Decoding.TakeRunAt` | src/main/java/com/instantdelay/geobuf4j/GeometryDecoder.java:127-147 | reading `n` points at an index into the coords list gives their prefix sums (closed: plus the first point) and leaves the stream after them |
| `Decoding.TakeRunsStep` | src/main/java/com/instantdelay/geobuf4j/GeometryDecoder.java:105-123 | reading one more run moves it from the runs left to read to the runs read, with one lengths entry consumed |
| `Decoding.TakeRunsStop` | src/main/java/com/instantdelay/geobuf4j/GeometryDecoder.java:105-109 | a missing lengths entry, or a run that cannot be read, makes the whole list fail with that error |
| `Decoding.TakePolygonsStep` | src/main/java/com/instantdelay/geobuf4j/GeometryDecoder.java:66-82 | reading one more polygon moves it from the polygons left to read to the polygons read |
| `Decoding.TakePolygonsStop` | src/main/java/com/instantdelay/geobuf4j/GeometryDecoder.java:66-81 | a polygon that cannot be read makes the whole multipolygon fail with that error |
| `Decoding.GeometryDecoder.constructor` | src/main/java/com/instantdelay/geobuf4j/GeometryDecoder.java:21-25 | keeps the `useZ` setting |
| `Decoding.GeometryDecoder.Decode` | src/main/java/com/instantdelay/geobuf4j/GeometryDecoder.java:27-47 | the result is exactly `Decoded(w)`: a point from the first `dim` deltas; a multipoint or line string from all whole coordinates; a collection refused; every failure the codec itself raises is included (the JTS validation left out below is not) |
| `Decoding.GeometryDecoder.DecodePolygon` | src/main/java/com/instantdelay/geobuf4j/GeometryDecoder.java:49-58 | the first run is the shell and the other `lengthsCount - 1` runs are the holes, in order; fails when a ring cannot be read or there is no ring |
| `Decoding.GeometryDecoder.DecodeMultiLineString` | src/main/java/com/instantdelay/geobuf4j/GeometryDecoder.java:87-94 | one part per lengths entry, read as open runs with one running sum |
| `Decoding.GeometryDecoder.DecodeMultiPolygon` | src/main/java/com/instantdelay/geobuf4j/GeometryDecoder.java:60-85 | reads the polygon count, then that many polygons with one running sum; fails on a missing or negative count and on any polygon that fails |
| `Decoding.GeometryDecoder.ReadPolygon` | src/main/java/com/instantdelay/geobuf4j/GeometryDecoder.java:68-81 | reads the ring count, the shell size and shell, then `numRings - 1` holes, from the two cursors; on success returns the cursors and the sum where the polygon ends; fails on a missing entry or `numRings < 1` |
| `Decoding.GeometryDecoder.ReadRings` | src/main/java/com/instantdelay/geobuf4j/GeometryDecoder.java:76-80 | reads `count` closed rings, each its size then its points; on success returns the cursors and the sum after the last |
| `Decoding.GeometryDecoder.ReadRing` | src/main/java/com/instantdelay/geobuf4j/GeometryDecoder.java:77-79 | reads one size entry and that many points as a closed ring; the lengths cursor moves by one and the coordinate cursor by the size |
| `Decoding.GeometryDecoder.DeltaDecodeAll` | src/main/java/com/instantdelay/geobuf4j/GeometryDecoder.java:96-99 | always succeeds, with `coordsCount / dim` points from a zero sum |
| `Decoding.GeometryDecoder.DeltaDecodeRuns` | src/main/java/com/instantdelay/geobuf4j/GeometryDecoder.java:101-125 | one run per lengths entry, in order, with one running sum never reset between runs; closed runs get their first point appended |
| `Decoding.GeometryDecoder.ReadRun` | src/main/java/com/instantdelay/geobuf4j/GeometryDecoder.java:106-122 | one run: fails on a negative size, on a read past the end, and on an empty closed ring; otherwise the points, and the index and sums after them |
| `Decoding.GeometryDecoder.ReadRunPoints` | src/main/java/com/instantdelay/geobuf4j/GeometryDecoder.java:107-119 | succeeds exactly when `dim × length` deltas remain; the filled prefix of the array is their prefix sums, and `x`, `y`, `z` end at the running sum after them |
| `Decoding.GeometryDecoder.DeltaDecode` | src/main/java/com/instantdelay/geobuf4j/GeometryDecoder.java:127-147 | reads `length` points at coordinate `offset` onto the sum in `sum` (closed: plus the first point); `sum` ends at the running sum after them; fails on a negative size, a read past the end or an empty closed ring |
| `Decoding.GeometryDecoder.ReadPoints` | src/main/java/com/instantdelay/geobuf4j/GeometryDecoder.java:131-142 | succeeds exactly when `dim × length` deltas remain after index `i`; the array prefix is their prefix sums and `sum` the sum after them |
| `Decoding.GeometryDecoder.ReadCoordinate` | src/main/java/com/instantdelay/geobuf4j/GeometryDecoder.java:132-141 | adds the `dim` deltas at the cursor onto `sum` and returns the point (Z zero without Z), with the cursor `dim` further on |
| `CodecProperties.RunRoundTrip` | src/main/java/com/instantdelay/geobuf4j/GeometryEncoder.java:108-128 | a run read back from the deltas written for it (a ring without its closing point) is the run itself, whatever follows it |
| `CodecProperties.RunsRoundTrip` | src/main/java/com/instantdelay/geobuf4j/GeometryEncoder.java:97-106 | runs read back from the lengths entries and deltas written for them are the runs themselves |
| `CodecProperties.PolygonsRoundTrip` | src/main/java/com/instantdelay/geobuf4j/GeometryEncoder.java:87-95 | polygons read back from what was written for them are the polygons themselves, with the lengths and coordinate streams left where they ended |
| `CodecProperties.RunKindRoundTrip` | src/test/java/geobuf4j/CoderTest.java:33 | the round trip for points, multipoints and line strings |
| `CodecProperties.MultiLineStringRoundTrip` | src/test/java/geobuf4j/CoderTest.java:33 | the round trip for multilinestrings |
| `CodecProperties.PolygonRoundTrip` | src/test/java/geobuf4j/CoderTest.java:33 | the round trip for polygons whose rings are valid |
| `CodecProperties.MultiPolygonRoundTrip` | src/test/java/geobuf4j/CoderTest.java:33 | the round trip for multipolygons whose rings are valid |
| `CodecProperties.RoundTrip` | src/test/java/geobuf4j/CoderTest.java:33 | decoding the record written for any supported geometry gives back that geometry (in the configured dimension) |
| `CodecProperties.ClosedRun` | src/main/java/com/instantdelay/geobuf4j/GeometryDecoder.java:143-145 | a decoded ring (points plus a copy of the first) is a valid ring whose length entry and written body are the points read |
| `CodecProperties.RunReencodes` | src/main/java/com/instantdelay/geobuf4j/GeometryDecoder.java:127-147 | a run the decoder accepts re-encodes to its length entry and to exactly the deltas it was read from |
| `CodecProperties.RunsReencode` | src/main/java/com/instantdelay/geobuf4j/GeometryDecoder.java:101-125 | runs the decoder accepts re-encode to the lengths entries and deltas that were read |
| `CodecProperties.PolygonReencodes` | src/main/java/com/instantdelay/geobuf4j/GeometryDecoder.java:68-81 | the first polygon read re-encodes to its ring count, ring lengths and deltas, followed by what the rest re-encodes to |
| `CodecProperties.PolygonsReencode` | src/main/java/com/instantdelay/geobuf4j/GeometryDecoder.java:60-85 | polygons the decoder accepts re-encode to the lengths entries and deltas that were read |
| `CodecProperties.AllRunsReread` | src/main/java/com/instantdelay/geobuf4j/GeometryDecoder.java:101-125 | a multilinestring or polygon record that reads successfully is read in full: its lengths are the runs' lengths and its coords start with their deltas |
| `CodecProperties.RunDecodeThenEncode` | src/main/java/com/instantdelay/geobuf4j/GeometryDecoder.java:29-34 | a point, multipoint or line string record re-encodes to a prefix of itself |
| `CodecProperties.MultiLineStringDecodeThenEncode` | src/main/java/com/instantdelay/geobuf4j/GeometryDecoder.java:87-94 | a multilinestring record re-encodes to its own lengths and a prefix of its deltas |
| `CodecProperties.PolygonDecodeThenEncode` | src/main/java/com/instantdelay/geobuf4j/GeometryDecoder.java:49-58 | a polygon record re-encodes to its own lengths and a prefix of its deltas |
| `CodecProperties.RingsReencode` | src/main/java/com/instantdelay/geobuf4j/GeometryDecoder.java:49-58 | the rings read from a polygon record, as shell and holes, make a polygon that re-encodes to the record |
| `CodecProperties.MultiPolygonDecodeThenEncode` | src/main/java/com/instantdelay/geobuf4j/GeometryDecoder.java:60-85 | a multipolygon record re-encodes to a prefix of its lengths and of its deltas |
| `CodecProperties.DecodeThenEncode` | src/main/java/com/instantdelay/geobuf4j/GeometryDecoder.java:27-47 | every accepted record decodes to a supported geometry that re-encodes with the same tag, the lengths entries and deltas that were read (all lengths for a polygon or multilinestring); only unread trailing entries can differ |
| `CodecProperties.FixedPoint` | src/test/java/geobuf4j/CoderTest.java:33 | encoding a decoded geometry and decoding again gives the same result |
| `CodecProperties.FlattenSize` | src/main/java/com/instantdelay/geobuf4j/GeometryEncoder.java:97-106 | the points written for a list of valid runs number as many as their lengths entries sum to |
| `CodecProperties.PolygonsFlattenSize` | src/main/java/com/instantdelay/geobuf4j/GeometryEncoder.java:87-95 | the points written for a multipolygon number as many as its ring lengths entries sum to |
| `CodecProperties.EncodedLayout` | src/main/java/com/instantdelay/geobuf4j/GeometryEncoder.java:62-106 | record shapes: point kinds have no lengths and `dim` ordinates per point; a multilinestring or polygon has `dim ×` the sum of its lengths; a multipolygon starts with its polygon count and has `dim ×` the sum of its ring lengths |
| `CodecProperties.TakeRunsSizes` | src/main/java/com/instantdelay/geobuf4j/GeometryDecoder.java:103-106 | run `i` read from the lengths list has `lengths[i]` points, plus one for a closed ring |
| `CodecProperties.DecodedRunSizes` | src/main/java/com/instantdelay/geobuf4j/GeometryDecoder.java:49-58 | a multilinestring has one part per lengths entry with `lengths[i]` points; a polygon's shell has `lengths[0] + 1` points and hole `i` has `lengths[i + 1] + 1` |

## Left out

- Floating point is not modelled. This covers `Math.pow(10, precision)`,
  `Math.round(v * e)` on encoding and `sum / e` on decoding. Coordinates are
  the quantised integers, so the round trip is exact at the integer level,
  which is where the source's test checks it.
- JTS geometry classes and `GeometryFactory` are replaced by the `Geometry`
  datatype. Ring validation in `createLinearRing` is external and not
  modelled: JTS refuses open rings and rings of one to three points, and the
  model accepts them.
- `Decoded`, `Decoding.GeometryDecoder.Decode`: the line-string validation
  in JTS `createLineString` is external and not modelled. JTS refuses a line
  string of exactly one point, and the model accepts it. Two records reach it:
  - a LineString record with one whole coordinate (GeometryDecoder.java:34);
  - a MultiLineString record with a lengths entry of 1 (GeometryDecoder.java:91).
- Without Z, JTS gives a decoded point a Z of NaN. The model gives it 0
  (`Project`), and JTS equality ignores Z anyway.
- The protobuf builder and getters are replaced by `WireBuilder` and the
  `Wire` datatype with `seq<int>` lists. A read past the end of either list,
  which the source reports as the library's index exception, is the error
  `MalformedRecord`.
- All exceptions are collapsed into one error each. On the decoder side,
  `MalformedRecord` covers:
  - an index out of range;
  - a negative array size (a negative length entry, polygon count, or ring
    count below one);
  - an empty ring, which the source closes with a missing point that JTS then refuses.
- `GeometryCollection` is modelled only as an error:
  - encoding returns `UnknownGeometryKind`; the source sets the tag and then throws;
  - decoding returns `UnknownGeometryType`.
- Tags the protobuf layer cannot map to a type are not modelled: `Wire.kind`
  holds the seven types only.
- Java `long` overflow of deltas and sums, and `int` overflow of indices, are
  not modelled: integers are unbounded.
- Empty Point geometries, which JTS represents with a missing coordinate, are
  not modelled: `Point` always has a coordinate.
- Several Java methods are split into helper methods so that each loop and
  its invariants stand on their own. The statements, their order and their
  failure points are those of the source:
  - `decodeMultiPolygon`'s loop body becomes `ReadPolygon`, `ReadRings` and `ReadRing`;
  - `deltaDecode(g, closed)`'s loop body becomes `ReadRun` and `ReadRunPoints`;
  - `deltaDecode(g, closed, offset, length, sum)`'s loop becomes `ReadPoints`
    and `ReadCoordinate`.
- On a failure part-way through a record, the partly filled arrays and the
  running sums are not described: the source abandons them with the exception.
- `RoundTrip`: requires every ring of a polygon or multipolygon to have at
  least two points, with equal first and last points in the configured
  dimension. An empty ring is written as the length entry `-1`, which the
  decoder refuses, and an open ring loses its last point on the wire.
- `DecodeThenEncode`: states that the re-encoded record is a prefix of the
  one read, not the record itself. The decoder ignores entries after the
  ones it reads:
  - point kinds ignore a trailing partial coordinate and any lengths entries;
  - a multipolygon ignores lengths entries after its last polygon;
  - records that differ only there decode alike.
