# Well-Known Binary geometry reader

A Dafny model of `GeometryReader`, the Well-Known Binary (WKB) decoder of the
simple-features library geopackage-wkb-java. The reader decodes a geometry
from a byte cursor. Each geometry starts with a header:

- a byte-order marker, where 0 means big-endian and anything else means
  little-endian;
- a four-byte type code, which can carry the ISO Z/M bands (1000, 2000,
  3000) or the legacy "2.5D" high bit.

After the header comes a body chosen by the type:

- a point is x and y, then z and m when the flags say so;
- line strings and circular strings are a count and then headerless points;
- polygons and triangles are a count and then headerless rings;
- the eight collection types are a count and then full geometries, each
  with its own header.

An optional caller filter can drop any element or the geometry itself. An
optional expected class rejects a geometry of the wrong class.

The project has two layers:

- **Functions.** `WkbDecoding` gives each reader as a function of the byte
  buffer and a start position. Each returns the decoded value and the
  position after it, or an error.
- **Methods.** `GeometryReader` holds the reader as methods over a `Reader`
  object. The object has an immutable buffer, a cursor and a current byte
  order. Its loops read element after element, and each method's `ensures`
  says it returns exactly what the matching function computes and leaves
  the cursor where that function ends.

`WkbProperties` and `WkbShapes` state what the decoder promises, as lemmas
about those functions:

- the header layout and its errors;
- the legacy and ISO Z flags;
- the point layout;
- the filter's effect;
- the class, flags and well-formedness of every geometry returned.

Modules:

| module | file | content |
|---|---|---|
| `Wrappers` | wrappers.dfy | `Option`, `Result` |
| `WkbErrors` | wkb_errors.dfy | the reasons a decode fails |
| `ByteReader` | byte_reader.dfy | byte-order reads, their round trips, the `Reader` class |
| `GeometryTypes` | geometry_types.dfy | geometry type enumeration and class assignability |
| `GeometryCodes` | geometry_codes.dfy | type-code table (base code plus Z/M band) |
| `Geometries` | geometries.dfy | the geometry tree and its well-formedness |
| `WkbDecoding` | wkb_decoding.dfy | the decoder as functions |
| `GeometryReader` | geometry_reader.dfy | the decoder as methods on a `Reader` |
| `WkbProperties` | wkb_properties.dfy | header, point and filter properties |
| `WkbShapes` | wkb_shapes.dfy | the shape of every decoded geometry |

Java's checked exceptions become `Err` results with a `WkbError` reason:

- `Truncated` for a read past the end of the buffer;
- `UnsupportedCode` for a type code the code table rejects;
- `AbstractType` for GEOMETRY, CURVE and SURFACE;
- `TypeMismatch` for a geometry the expected class does not accept.

A Java `null` result (a filtered-out geometry) is `Ok(None)`. The expected
class `Class<T>` becomes an optional `GeometryType`, and `isAssignableFrom`
becomes `IsAssignable` over the class tree of the object model. Coordinates
stay 64-bit raw words.

## Model

| member | source | states |
|---|---|---|
| `ByteReader.Reader.SetByteOrder` | src/main/java/mil/nga/sf/wkb/GeometryReader.java:234 | the reader's byte order becomes the one given and nothing else changes |
| `ByteReader.Reader.ReadByte` | src/main/java/mil/nga/sf/wkb/GeometryReader.java:231 | returns the byte at the cursor and advances one byte, or fails with truncation and leaves the cursor |
| `ByteReader.Reader.ReadUnsignedInt` | src/main/java/mil/nga/sf/wkb/GeometryReader.java:237 | returns the four bytes at the cursor as an unsigned value in the current byte order and advances four bytes, or fails with truncation |
| `ByteReader.Reader.ReadInt` | src/main/java/mil/nga/sf/wkb/GeometryReader.java:339 | returns the four bytes at the cursor as a signed two's-complement count and advances four bytes, or fails with truncation |
| `ByteReader.Reader.ReadDouble` | src/main/java/mil/nga/sf/wkb/GeometryReader.java:281-282 | returns the eight bytes at the cursor as a coordinate word in the current byte order and advances eight bytes, or fails with truncation |
| `ByteReader.ToInt32` | src/main/java/mil/nga/sf/wkb/GeometryReader.java:246 | the `(int)` narrowing: the result is a 32-bit signed value equal to the input, or to the input minus 2^32 when it is negative |
| `ByteReader.UIntRoundTrip` | src/main/java/mil/nga/sf/wkb/GeometryReader.java:232-237 | a value written in either byte order reads back as itself in that order |
| `ByteReader.ReadBytesRoundTrip` | src/main/java/mil/nga/sf/wkb/GeometryReader.java:232-237 | the value a read returns is below 256^n, and writing it back in the same order gives exactly the bytes read |
| `GeometryCodes.CodeResolvesBack` | src/main/java/mil/nga/sf/wkb/GeometryReader.java:249-257 | every type and Z/M pair resolves back from the code a writer gives it |
| `GeometryCodes.ResolvedCodeIsCanonical` | src/main/java/mil/nga/sf/wkb/GeometryReader.java:249-257 | a code whose type, Z and M all resolve is exactly the writer's code for them |
| `GeometryTypes.GeometryAcceptsAll` | src/main/java/mil/nga/sf/wkb/GeometryReader.java:605-606 | the expected class GEOMETRY of a collection's elements accepts every type |
| `GeometryTypes.PointAccepts` | src/main/java/mil/nga/sf/wkb/GeometryReader.java:445-446 | the expected class of multipoint elements accepts a concrete type iff it is POINT |
| `GeometryTypes.LineStringAccepts` | src/main/java/mil/nga/sf/wkb/GeometryReader.java:498-499 | the expected class of multilinestring and compound-curve elements accepts a concrete type iff it is LINESTRING or CIRCULARSTRING |
| `GeometryTypes.PolygonAccepts` | src/main/java/mil/nga/sf/wkb/GeometryReader.java:551-552 | the expected class of multipolygon, polyhedral-surface and TIN elements accepts a concrete type iff it is POLYGON or TRIANGLE |
| `GeometryTypes.CurveAccepts` | src/main/java/mil/nga/sf/wkb/GeometryReader.java:763-764 | the expected class of curve-polygon rings accepts a concrete type iff it is LINESTRING, CIRCULARSTRING or COMPOUNDCURVE |
| `GeometryTypes.IsAssignableTransitive` | src/main/java/mil/nga/sf/wkb/GeometryReader.java:202-203 | the assignability the expected-type check uses is transitive |
| `Geometries.TypeOf` | src/main/java/mil/nga/sf/wkb/GeometryReader.java:203 | the class of a decoded geometry is never one of the abstract types |
| `Geometries.CollectionWellFormed` | src/main/java/mil/nga/sf/wkb/GeometryReader.java:440-452 | a collection is well formed iff every element is well formed and of the collection's element class |
| `WkbDecoding.ByteOrderOf` | src/main/java/mil/nga/sf/wkb/GeometryReader.java:232-233 | marker 0 selects big-endian, any other byte little-endian |
| `WkbDecoding.ResolveTypeCode` | src/main/java/mil/nga/sf/wkb/GeometryReader.java:240-262 | a resolved code has lost the 2.5D bit exactly when the raw code was above it, lies in 0..3999, and the bare 2.5D bit never resolves; a code that does not resolve fails as unsupported, naming the code with the bit stripped, or narrowed to a Java `int` |
| `WkbDecoding.ParseGeometryType` | src/main/java/mil/nga/sf/wkb/GeometryReader.java:227-263 | fewer than five bytes left is a truncation error; a header always takes exactly five bytes |
| `WkbDecoding.ParsePoint` | src/main/java/mil/nga/sf/wkb/GeometryReader.java:278-297 | a point ends inside the buffer and its only failure is truncation |
| `WkbDecoding.ParsePoints` | src/main/java/mil/nga/sf/wkb/GeometryReader.java:341-346 | headerless points end inside the buffer and their only failure is truncation |
| `WkbDecoding.ParsePointList` | src/main/java/mil/nga/sf/wkb/GeometryReader.java:333-349 | a line takes at least its four-byte count, ends inside the buffer and fails only by truncation |
| `WkbDecoding.ParseRings` | src/main/java/mil/nga/sf/wkb/GeometryReader.java:392-397 | headerless rings end inside the buffer and their only failure is truncation |
| `WkbDecoding.ParseRingList` | src/main/java/mil/nga/sf/wkb/GeometryReader.java:385-400 | a polygon takes at least its four-byte count, ends inside the buffer and fails only by truncation |
| `WkbDecoding.ParseGeometry` | src/main/java/mil/nga/sf/wkb/GeometryReader.java:125-216 | a decoded geometry takes at least its five-byte header and ends inside the buffer |
| `WkbDecoding.ParseBody` | src/main/java/mil/nga/sf/wkb/GeometryReader.java:140-195 | a body ends inside the buffer, at or after its start |
| `WkbDecoding.ParseCollection` | src/main/java/mil/nga/sf/wkb/GeometryReader.java:436-453 | a collection takes at least its four-byte count and ends inside the buffer |
| `WkbDecoding.ParseChildren` | src/main/java/mil/nga/sf/wkb/GeometryReader.java:444-450 | the children of a collection end inside the buffer, at or after their start |
| `WkbDecoding.ParseChild` | src/main/java/mil/nga/sf/wkb/GeometryReader.java:445-449 | each child takes at least a five-byte header, so a collection loop always advances |
| `GeometryReader.ReadGeometry` | src/main/java/mil/nga/sf/wkb/GeometryReader.java:125-216 | returns exactly what `ParseGeometry` computes and leaves the cursor at its end; on success the byte order is the one on entry |
| `GeometryReader.ReadBody` | src/main/java/mil/nga/sf/wkb/GeometryReader.java:140-195 | dispatches on the header's type exactly as `ParseBody`: abstract types fail, MULTICURVE and MULTISURFACE read as a geometry collection |
| `GeometryReader.ReadGeometryType` | src/main/java/mil/nga/sf/wkb/GeometryReader.java:227-263 | returns `ParseGeometryType`'s type information and sets the reader's byte order to the one the marker selects |
| `GeometryReader.ReadCoordinateIf` | src/main/java/mil/nga/sf/wkb/GeometryReader.java:286-294 | reads a coordinate only when it is present, otherwise reads nothing |
| `GeometryReader.ReadPoint` | src/main/java/mil/nga/sf/wkb/GeometryReader.java:278-297 | returns exactly `ParsePoint` in the current byte order and ends where it ends |
| `GeometryReader.ReadPoints` | src/main/java/mil/nga/sf/wkb/GeometryReader.java:339-346 | the point loop returns exactly `ParsePoints` from an empty list |
| `GeometryReader.ReadNextPoint` | src/main/java/mil/nga/sf/wkb/GeometryReader.java:342-345 | one pass of the point loop takes `ParsePoints` one point further: same remaining result, one count fewer |
| `GeometryReader.ReadLineString` | src/main/java/mil/nga/sf/wkb/GeometryReader.java:333-349 | returns exactly `ParsePointList` for LINESTRING |
| `GeometryReader.ReadCircularString` | src/main/java/mil/nga/sf/wkb/GeometryReader.java:649-665 | returns exactly `ParsePointList` for CIRCULARSTRING |
| `GeometryReader.ReadRings` | src/main/java/mil/nga/sf/wkb/GeometryReader.java:390-397 | the ring loop returns exactly `ParseRings` from an empty list |
| `GeometryReader.ReadNextRing` | src/main/java/mil/nga/sf/wkb/GeometryReader.java:393-396 | one pass of the ring loop takes `ParseRings` one ring further |
| `GeometryReader.ReadPolygon` | src/main/java/mil/nga/sf/wkb/GeometryReader.java:385-400 | returns exactly `ParseRingList` for POLYGON |
| `GeometryReader.ReadTriangle` | src/main/java/mil/nga/sf/wkb/GeometryReader.java:912-928 | returns exactly `ParseRingList` for TRIANGLE |
| `GeometryReader.ReadChildren` | src/main/java/mil/nga/sf/wkb/GeometryReader.java:444-450 | the element loop of every collection returns exactly `ParseChildren` from an empty list; on success the byte order is unchanged |
| `GeometryReader.ReadChild` | src/main/java/mil/nga/sf/wkb/GeometryReader.java:445-449 | one pass of the element loop advances the cursor, keeps the byte order and takes `ParseChildren` one child further |
| `GeometryReader.ReadMultiPoint` | src/main/java/mil/nga/sf/wkb/GeometryReader.java:436-453 | returns exactly `ParseCollection` for MULTIPOINT, with POINT as element class |
| `GeometryReader.ReadMultiLineString` | src/main/java/mil/nga/sf/wkb/GeometryReader.java:489-506 | returns exactly `ParseCollection` for MULTILINESTRING, with LINESTRING as element class |
| `GeometryReader.ReadMultiPolygon` | src/main/java/mil/nga/sf/wkb/GeometryReader.java:542-559 | returns exactly `ParseCollection` for MULTIPOLYGON, with POLYGON as element class |
| `GeometryReader.ReadGeometryCollection` | src/main/java/mil/nga/sf/wkb/GeometryReader.java:595-613 | returns exactly `ParseCollection` for GEOMETRYCOLLECTION, with GEOMETRY as element class |
| `GeometryReader.ReadCompoundCurve` | src/main/java/mil/nga/sf/wkb/GeometryReader.java:701-718 | returns exactly `ParseCollection` for COMPOUNDCURVE, with LINESTRING as element class |
| `GeometryReader.ReadCurvePolygon` | src/main/java/mil/nga/sf/wkb/GeometryReader.java:754-771 | returns exactly `ParseCollection` for CURVEPOLYGON, with CURVE as element class |
| `GeometryReader.ReadPolyhedralSurface` | src/main/java/mil/nga/sf/wkb/GeometryReader.java:807-824 | returns exactly `ParseCollection` for POLYHEDRALSURFACE, with POLYGON as element class |
| `GeometryReader.ReadTIN` | src/main/java/mil/nga/sf/wkb/GeometryReader.java:860-876 | returns exactly `ParseCollection` for TIN, with POLYGON as element class |
| `GeometryReader.Read` | src/main/java/mil/nga/sf/wkb/GeometryReader.java:102-105 | a top-level read is `ParseGeometry` with no containing type; on success the byte order is the one on entry |
| `WkbProperties.HeaderLayout` | src/main/java/mil/nga/sf/wkb/GeometryReader.java:231-237 | marker 0 selects big-endian and any other byte little-endian; the type code is the next four bytes in that order, and the header ends five bytes on |
| `WkbProperties.LegacyBitOnlyAddsZ` | src/main/java/mil/nga/sf/wkb/GeometryReader.java:240-246 | adding the 2.5D bit to a code below it only sets Z: same type, same M, same errors |
| `WkbProperties.LegacyAndIsoZAgree` | src/main/java/mil/nga/sf/wkb/GeometryReader.java:240-257 | for every type but GEOMETRY, the 2.5D code and the ISO Z code both resolve to the type with Z and without M |
| `WkbProperties.WrittenCodeResolves` | src/main/java/mil/nga/sf/wkb/GeometryReader.java:246-262 | every code a writer produces resolves to its own type, Z and M |
| `WkbProperties.ResolvedCodeIsWritten` | src/main/java/mil/nga/sf/wkb/GeometryReader.java:246-257 | a code without the 2.5D bit resolves only if it is the writer's code for what it resolves to |
| `WkbProperties.HeaderErrors` | src/main/java/mil/nga/sf/wkb/GeometryReader.java:132-195 | a short header fails with truncation, an unresolvable header's error is the geometry's error, a complete header that does not resolve fails as an unsupported code, and GEOMETRY, CURVE and SURFACE fail as abstract |
| `WkbProperties.FilterAndExpectedType` | src/main/java/mil/nga/sf/wkb/GeometryReader.java:197-207 | a geometry the filter rejects is absent without error and without a type check; a kept one fails iff the expected class does not accept it |
| `WkbProperties.PointLayout` | src/main/java/mil/nga/sf/wkb/GeometryReader.java:281-296 | a point is x, y, then z only with Z and m only with M; it takes exactly 16, 24 or 32 bytes and fails only when fewer remain |
| `WkbDecoding.Passes` | src/main/java/mil/nga/sf/wkb/GeometryReader.java:941-945 | with no filter every geometry passes; otherwise the filter's answer for the containing type and the geometry decides |
| `WkbProperties.KeepMembers` | src/main/java/mil/nga/sf/wkb/GeometryReader.java:941-945 | a filter keeps exactly the elements it passes |
| `WkbProperties.KeepWithoutFilter` | src/main/java/mil/nga/sf/wkb/GeometryReader.java:943 | with no filter every element is kept |
| `WkbProperties.KeepAppend` | src/main/java/mil/nga/sf/wkb/GeometryReader.java:341-346 | filtering elements in stream order distributes over concatenation |
| `WkbProperties.PointsEndIsProduct` | src/main/java/mil/nga/sf/wkb/GeometryReader.java:341-342 | n headerless points take n times the point size |
| `WkbProperties.ParsePointsReads` | src/main/java/mil/nga/sf/wkb/GeometryReader.java:339-346 | a point loop reads all of its points, none for a count of zero or less; it fails only when they overrun the buffer and keeps exactly the points the filter passes, in order |
| `WkbProperties.PointsAtWith` | src/main/java/mil/nga/sf/wkb/GeometryReader.java:284-294 | every point of a line carries the line's flags and exactly the coordinates they call for |
| `WkbShapes.PointListLayout` | src/main/java/mil/nga/sf/wkb/GeometryReader.java:333-349 | a line fails when its count is cut off or its points overrun the buffer; otherwise it ends after all its points and holds those the filter passes with the line's own type |
| `WkbShapes.PointListOverruns` | src/main/java/mil/nga/sf/wkb/GeometryReader.java:337-346 | a line whose announced points run past the end of the buffer fails with truncation |
| `WkbShapes.PointListShape` | src/main/java/mil/nga/sf/wkb/GeometryReader.java:337-348 | a decoded line has its header's type and flags, is well formed, and without a filter holds as many points as its count announced |
| `WkbShapes.RingsShape` | src/main/java/mil/nga/sf/wkb/GeometryReader.java:390-397 | the ring loop appends only well-formed line strings with the polygon's flags that the filter passes, and without a filter one per ring announced |
| `WkbShapes.RingListShape` | src/main/java/mil/nga/sf/wkb/GeometryReader.java:385-400 | a decoded polygon or triangle has its header's type and flags, is well formed, and without a filter holds as many rings as its count announced |
| `WkbShapes.RingsAll` | src/main/java/mil/nga/sf/wkb/GeometryReader.java:390-397 | reading the rings without the ring-level filter (each ring's points are still filtered) yields one line string per ring announced, none for a count of zero or less, and ends inside the buffer |
| `WkbShapes.RingsKeep` | src/main/java/mil/nga/sf/wkb/GeometryReader.java:390-397 | the ring loop fails exactly when reading its rings fails, with that error; otherwise it appends exactly the rings the filter passes, in stream order, and ends after the last ring |
| `WkbShapes.RingListLayout` | src/main/java/mil/nga/sf/wkb/GeometryReader.java:385-400 | a polygon or triangle fails with truncation when its count is cut off and with a ring's error when a ring fails; otherwise it has the header's type and flags, holds exactly the rings the filter passes, in order, and ends after the last ring |
| `WkbShapes.BodyDispatch` | src/main/java/mil/nga/sf/wkb/GeometryReader.java:140-195 | every header type selects one body reader: abstract types fail, MULTICURVE and MULTISURFACE read as a geometry collection |
| `WkbShapes.BodyShape` | src/main/java/mil/nga/sf/wkb/GeometryReader.java:140-195 | a decoded body is well formed, has the class the header names and has the header's flags |
| `WkbShapes.GeometryShape` | src/main/java/mil/nga/sf/wkb/GeometryReader.java:125-216 | a returned geometry is well formed, has its header's class and flags, passes the filter and fits the expected class; without a filter a successful decode always returns a geometry |
| `WkbShapes.CollectionShape` | src/main/java/mil/nga/sf/wkb/GeometryReader.java:436-453 | a decoded collection has its own type and the header's flags, and holds only well-formed elements of its element class |
| `WkbShapes.ChildrenShape` | src/main/java/mil/nga/sf/wkb/GeometryReader.java:442-451 | a collection's element loop keeps what it already has and appends only well-formed elements of the expected class that pass the filter |
| `WkbShapes.ChildShape` | src/main/java/mil/nga/sf/wkb/GeometryReader.java:445-449 | one pass of the element loop appends at most one geometry: well formed, of the expected class, passing the filter |
| `WkbShapes.ChildrenCount` | src/main/java/mil/nga/sf/wkb/GeometryReader.java:444-450 | without a filter the element loop drops nothing: one element per count announced |
| `WkbShapes.ChildrenAll` | src/main/java/mil/nga/sf/wkb/GeometryReader.java:442-451 | reading the elements yields one result, present or absent, per element announced, none for a count of zero or less, and ends inside the buffer |
| `WkbShapes.PresentMembers` | src/main/java/mil/nga/sf/wkb/GeometryReader.java:447-449 | the elements kept are exactly the geometries that came back present |
| `WkbShapes.ChildrenPresent` | src/main/java/mil/nga/sf/wkb/GeometryReader.java:442-451 | the element loop fails exactly when reading its elements fails, with that error; otherwise it appends exactly the elements that came back present, in stream order, and ends after the last |
| `WkbShapes.CollectionLayout` | src/main/java/mil/nga/sf/wkb/GeometryReader.java:436-453 | a collection fails with truncation when its count is cut off and with an element's error when an element fails; otherwise it holds exactly the present elements, in order, and ends after the last |

## Left out

- The byte reader is modelled only as a buffer, a cursor and a byte order.
  `ByteReader.java` is not part of this model.
- Coordinates are not decoded as IEEE-754 doubles. They stay as the 64-bit
  word read, because the decoder never inspects them.
- `GeometryCodes`, the type-code table, is not part of this model. Its
  table is written from section 8.2 of OGC 06-103r4 and ISO 13249-3:
  - base code = code % 1000;
  - band = code / 1000, with Java's truncating operators;
  - bands 0 to 3 for plain, Z, M and ZM;
  - any other base or band is an `UnsupportedCode` error.

  This table is an assumption of the model.
- The class hierarchy `isAssignableFrom` consults is written from the
  simple-features object model. It is the `Supertype` relation, and it is
  an assumption of the model.
- The object model's internals are not modelled: reflection, generics,
  `addPoint` and the like. Geometries are values. The well-formedness the
  generic types promise is the predicate `WellFormed`.
- The overloads at lines 47-84 are not modelled separately. They only pass
  `null` for the filter or expected type; `Read` with `None` covers them.
  The same holds for every per-type reader's overload without a filter
  (`readLineString` at 312, `readPolygon` at 364, `readMultiPoint` at 415,
  and the others at 468, 521, 574, 628, 680, 733, 786, 839 and 891): each
  passes `null` for the filter, which is `None` here.
- Exception message strings are not modelled. The error reasons are kept.
- The reader's byte order after an error is not modelled. The source
  restores it only on a normal return (line 210), and so does the model:
  `ReadGeometry` states the restored order only for a successful result.
- There is no nesting-depth limit, as in the source. Recursion ends
  because every header takes five bytes of a finite buffer.
- The writer, the text (WKT) reader and stream I/O are not modelled.

## Notes on the source

- **Null geometry in the filter.** `filter` (941-945) passes a `null`
  geometry. `readGeometry` never hands it one, because every case of the
  switch either assigns a geometry or throws. So `Passes` has no
  null case.
- **The `default` branch (192-194) is unreachable.** The switch covers
  every enumeration value. An unknown code fails earlier, inside the
  code-table lookup, which is `UnsupportedCode` here.
- **MULTICURVE and MULTISURFACE** are read by `readGeometryCollection`.
  Their elements are therefore checked only against GEOMETRY, and the
  result is a plain geometry collection (`DecodedType`).
- **The legacy 2.5D test is a strict `>`** (line 241). The bare bit
  0x80000000, which would be GEOMETRY with Z, keeps the bit. It then
  narrows to a negative `int`, and the code table rejects it as
  unsupported instead of reporting an abstract type. Either way the
  decode fails. `LegacyAndIsoZAgree` excludes GEOMETRY for this reason.
- **Byte order on errors, and nesting depth.** The source restores the
  reader's byte order only on a normal return (line 210, with no
  `finally`), so an exception leaves the byte order of the geometry that
  failed. It sets no limit on nesting depth. The model does the same.
- **Negative counts read nothing.** The loops run `for (i = 0; i < n; i++)`,
  so a negative count behaves like zero (`Max0`).
