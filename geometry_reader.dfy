/**
 * The Well-Known Binary reader: methods that decode geometries from a
 * `Reader`, advancing its cursor and switching its byte order per header.
 * Each method is proved to return what the matching WkbDecoding function
 * computes from the buffer and the cursor on entry.
 */
module GeometryReader {

  import opened Wrappers
  import opened GeometryTypes
  import opened WkbErrors
  import opened ByteReader
  import opened Geometries
  import opened WkbDecoding

  /**
   * Reads one geometry, with its own header. On success the reader's byte
   * order is the one it had on entry, whatever orders this geometry and its
   * elements used.
   */
  method ReadGeometry(reader: Reader, filter: Option<GeometryFilter>,
                      containingType: Option<GeometryType>, expectedType: Option<GeometryType>)
    returns (r: Result<Option<Geometry>, WkbError>)
    requires reader.Valid()
    modifies reader
    decreases |reader.data| - reader.pos, 0
    ensures reader.Valid()
    ensures match ParseGeometry(reader.data, old(reader.pos), filter, containingType, expectedType)
      case Ok(p) => r == Ok(p.value) && reader.pos == p.end
      case Err(e) => r == Err(e)
    ensures r.Ok? ==> reader.byteOrder == old(reader.byteOrder)
  {
    var originalByteOrder := reader.byteOrder;

    var info :- ReadGeometryType(reader);
    var geometry :- ReadBody(reader, info, filter);

    var kept := if Passes(filter, containingType, geometry) then Some(geometry) else None;

    if expectedType.Some? && kept.Some? && !IsAssignable(expectedType.value, TypeOf(geometry)) {
      return Err(TypeMismatch(expectedType.value, TypeOf(geometry)));
    }

    reader.SetByteOrder(originalByteOrder);
    r := Ok(kept);
  }

  /** Reads the body of a geometry whose header gave `info`, in the reader's current byte order. */
  method ReadBody(reader: Reader, info: GeometryTypeInfo, filter: Option<GeometryFilter>)
    returns (r: Result<Geometry, WkbError>)
    requires reader.Valid()
    modifies reader
    decreases |reader.data| - reader.pos, 4
    ensures reader.Valid()
    ensures match ParseBody(reader.data, old(reader.pos), Header(old(reader.byteOrder), info), filter)
      case Ok(p) => r == Ok(p.value) && reader.pos == p.end
      case Err(e) => r == Err(e)
  {
    var hasZ, hasM := info.hasZ, info.hasM;
    match info.geometryType {
      case GEOMETRY => r := Err(AbstractType(GEOMETRY));
      case POINT => r := ReadPoint(reader, hasZ, hasM);
      case LINESTRING => r := ReadLineString(reader, filter, hasZ, hasM);
      case POLYGON => r := ReadPolygon(reader, filter, hasZ, hasM);
      case MULTIPOINT => r := ReadMultiPoint(reader, filter, hasZ, hasM);
      case MULTILINESTRING => r := ReadMultiLineString(reader, filter, hasZ, hasM);
      case MULTIPOLYGON => r := ReadMultiPolygon(reader, filter, hasZ, hasM);
      case GEOMETRYCOLLECTION => r := ReadGeometryCollection(reader, filter, hasZ, hasM);
      case MULTICURVE => r := ReadGeometryCollection(reader, filter, hasZ, hasM);
      case MULTISURFACE => r := ReadGeometryCollection(reader, filter, hasZ, hasM);
      case CIRCULARSTRING => r := ReadCircularString(reader, filter, hasZ, hasM);
      case COMPOUNDCURVE => r := ReadCompoundCurve(reader, filter, hasZ, hasM);
      case CURVEPOLYGON => r := ReadCurvePolygon(reader, filter, hasZ, hasM);
      case CURVE => r := Err(AbstractType(CURVE));
      case SURFACE => r := Err(AbstractType(SURFACE));
      case POLYHEDRALSURFACE => r := ReadPolyhedralSurface(reader, filter, hasZ, hasM);
      case TIN => r := ReadTIN(reader, filter, hasZ, hasM);
      case TRIANGLE => r := ReadTriangle(reader, filter, hasZ, hasM);
    }
  }

  /** Reads a header: the byte-order marker, which becomes the reader's order, then the type code. */
  method ReadGeometryType(reader: Reader) returns (r: Result<GeometryTypeInfo, WkbError>)
    requires reader.Valid()
    modifies reader
    ensures reader.Valid()
    ensures match ParseGeometryType(reader.data, old(reader.pos))
      case Ok(p) => r == Ok(p.value.info) && reader.pos == p.end && reader.byteOrder == p.value.byteOrder
      case Err(e) => r == Err(e)
  {
    var byteOrderValue :- reader.ReadByte();
    reader.SetByteOrder(ByteOrderOf(byteOrderValue));
    var unsignedGeometryTypeCode :- reader.ReadUnsignedInt();
    r := ResolveTypeCode(unsignedGeometryTypeCode);
  }

  method ReadCoordinateIf(reader: Reader, present: bool) returns (r: Result<Option<Word64>, WkbError>)
    requires reader.Valid()
    modifies reader`pos
    ensures reader.Valid()
    ensures match ReadCoordinateIfAt(reader.data, old(reader.pos), reader.byteOrder, present)
      case Ok(p) => r == Ok(p.value) && reader.pos == p.end
      case Err(e) => r == Err(e)
  {
    if present {
      var w :- reader.ReadDouble();
      r := Ok(Some(w));
    } else {
      r := Ok(None);
    }
  }

  method ReadPoint(reader: Reader, hasZ: bool, hasM: bool) returns (r: Result<Geometry, WkbError>)
    requires reader.Valid()
    modifies reader`pos
    ensures reader.Valid()
    ensures match ParsePoint(reader.data, old(reader.pos), reader.byteOrder, hasZ, hasM)
      case Ok(p) => r == Ok(p.value) && reader.pos == p.end
      case Err(e) => r == Err(e)
  {
    var x :- reader.ReadDouble();
    var y :- reader.ReadDouble();
    var z :- ReadCoordinateIf(reader, hasZ);
    var m :- ReadCoordinateIf(reader, hasM);
    r := Ok(Point(hasZ, hasM, x, y, z, m));
  }

  /** Reads `numPoints` headerless points, keeping those the filter passes with `containingType`. */
  method ReadPoints(reader: Reader, filter: Option<GeometryFilter>, hasZ: bool, hasM: bool,
                    containingType: GeometryType, numPoints: int)
    returns (r: Result<seq<Geometry>, WkbError>)
    requires reader.Valid()
    modifies reader`pos
    ensures reader.Valid()
    ensures match ParsePoints(reader.data, old(reader.pos), reader.byteOrder, filter,
                              hasZ, hasM, containingType, numPoints, [])
      case Ok(p) => r == Ok(p.value) && reader.pos == p.end
      case Err(e) => r == Err(e)
  {
    var points: seq<Geometry> := [];
    var i := 0;
    ghost var order, remaining := reader.byteOrder, numPoints;
    while i < numPoints
      invariant reader.Valid()
      invariant 0 <= i && remaining == numPoints - i
      invariant ParsePoints(reader.data, old(reader.pos), order, filter, hasZ, hasM, containingType, numPoints, [])
             == ParsePoints(reader.data, reader.pos, order, filter, hasZ, hasM, containingType, remaining, points)
    {
      points :- ReadNextPoint(reader, filter, hasZ, hasM, containingType, order, remaining, points);
      i, remaining := i + 1, remaining - 1;
    }
    r := Ok(points);
  }

  /** One pass of the loop above: the next point, appended to `points` when the filter passes it. */
  method ReadNextPoint(reader: Reader, filter: Option<GeometryFilter>, hasZ: bool, hasM: bool,
                       containingType: GeometryType, ghost order: ByteOrder, ghost remaining: int,
                       points: seq<Geometry>)
    returns (r: Result<seq<Geometry>, WkbError>)
    requires reader.Valid() && reader.byteOrder == order
    requires remaining > 0
    modifies reader`pos
    ensures reader.Valid()
    ensures match r
      case Ok(acc) =>
        ParsePoints(reader.data, old(reader.pos), order, filter, hasZ, hasM, containingType, remaining, points)
        == ParsePoints(reader.data, reader.pos, order, filter, hasZ, hasM, containingType, remaining - 1, acc)
      case Err(e) =>
        ParsePoints(reader.data, old(reader.pos), order, filter, hasZ, hasM, containingType, remaining, points)
        == Err(e)
  {
    ParsePointsStep(reader.data, reader.pos, order, filter, hasZ, hasM, containingType, remaining, points);
    var point :- ReadPoint(reader, hasZ, hasM);
    r := Ok(if Passes(filter, Some(containingType), point) then points + [point] else points);
  }

  method ReadLineString(reader: Reader, filter: Option<GeometryFilter>, hasZ: bool, hasM: bool)
    returns (r: Result<Geometry, WkbError>)
    requires reader.Valid()
    modifies reader`pos
    ensures reader.Valid()
    ensures match ParsePointList(reader.data, old(reader.pos), reader.byteOrder, filter, hasZ, hasM, LINESTRING)
      case Ok(p) => r == Ok(p.value) && reader.pos == p.end
      case Err(e) => r == Err(e)
  {
    var numPoints :- reader.ReadInt();
    var points :- ReadPoints(reader, filter, hasZ, hasM, LINESTRING, numPoints);
    r := Ok(LineString(hasZ, hasM, points));
  }

  method ReadCircularString(reader: Reader, filter: Option<GeometryFilter>, hasZ: bool, hasM: bool)
    returns (r: Result<Geometry, WkbError>)
    requires reader.Valid()
    modifies reader`pos
    ensures reader.Valid()
    ensures match ParsePointList(reader.data, old(reader.pos), reader.byteOrder, filter, hasZ, hasM, CIRCULARSTRING)
      case Ok(p) => r == Ok(p.value) && reader.pos == p.end
      case Err(e) => r == Err(e)
  {
    var numPoints :- reader.ReadInt();
    var points :- ReadPoints(reader, filter, hasZ, hasM, CIRCULARSTRING, numPoints);
    r := Ok(CircularString(hasZ, hasM, points));
  }

  /** Reads `numRings` headerless rings, keeping those the filter passes with `containingType`. */
  method ReadRings(reader: Reader, filter: Option<GeometryFilter>, hasZ: bool, hasM: bool,
                   containingType: GeometryType, numRings: int)
    returns (r: Result<seq<Geometry>, WkbError>)
    requires reader.Valid()
    modifies reader`pos
    ensures reader.Valid()
    ensures match ParseRings(reader.data, old(reader.pos), reader.byteOrder, filter, hasZ, hasM, containingType, numRings, [])
      case Ok(p) => r == Ok(p.value) && reader.pos == p.end
      case Err(e) => r == Err(e)
  {
    var rings: seq<Geometry> := [];
    var i := 0;
    ghost var order, remaining := reader.byteOrder, numRings;
    while i < numRings
      invariant reader.Valid()
      invariant 0 <= i && remaining == numRings - i
      invariant ParseRings(reader.data, old(reader.pos), order, filter, hasZ, hasM, containingType, numRings, [])
             == ParseRings(reader.data, reader.pos, order, filter, hasZ, hasM, containingType, remaining, rings)
    {
      rings :- ReadNextRing(reader, filter, hasZ, hasM, containingType, order, remaining, rings);
      i, remaining := i + 1, remaining - 1;
    }
    r := Ok(rings);
  }

  /** One pass of the loop above: the next ring, appended to `rings` when the filter passes it. */
  method ReadNextRing(reader: Reader, filter: Option<GeometryFilter>, hasZ: bool, hasM: bool,
                      containingType: GeometryType, ghost order: ByteOrder, ghost remaining: int,
                      rings: seq<Geometry>)
    returns (r: Result<seq<Geometry>, WkbError>)
    requires reader.Valid() && reader.byteOrder == order
    requires remaining > 0
    modifies reader`pos
    ensures reader.Valid()
    ensures match r
      case Ok(acc) =>
        ParseRings(reader.data, old(reader.pos), order, filter, hasZ, hasM, containingType, remaining, rings)
        == ParseRings(reader.data, reader.pos, order, filter, hasZ, hasM, containingType, remaining - 1, acc)
      case Err(e) =>
        ParseRings(reader.data, old(reader.pos), order, filter, hasZ, hasM, containingType, remaining, rings)
        == Err(e)
  {
    ParseRingsStep(reader.data, reader.pos, order, filter, hasZ, hasM, containingType, remaining, rings);
    var ring :- ReadLineString(reader, filter, hasZ, hasM);
    r := Ok(if Passes(filter, Some(containingType), ring) then rings + [ring] else rings);
  }

  method ReadPolygon(reader: Reader, filter: Option<GeometryFilter>, hasZ: bool, hasM: bool)
    returns (r: Result<Geometry, WkbError>)
    requires reader.Valid()
    modifies reader`pos
    ensures reader.Valid()
    ensures match ParseRingList(reader.data, old(reader.pos), reader.byteOrder, filter, hasZ, hasM, POLYGON)
      case Ok(p) => r == Ok(p.value) && reader.pos == p.end
      case Err(e) => r == Err(e)
  {
    var numRings :- reader.ReadInt();
    var rings :- ReadRings(reader, filter, hasZ, hasM, POLYGON, numRings);
    r := Ok(Polygon(hasZ, hasM, rings));
  }

  method ReadTriangle(reader: Reader, filter: Option<GeometryFilter>, hasZ: bool, hasM: bool)
    returns (r: Result<Geometry, WkbError>)
    requires reader.Valid()
    modifies reader`pos
    ensures reader.Valid()
    ensures match ParseRingList(reader.data, old(reader.pos), reader.byteOrder, filter, hasZ, hasM, TRIANGLE)
      case Ok(p) => r == Ok(p.value) && reader.pos == p.end
      case Err(e) => r == Err(e)
  {
    var numRings :- reader.ReadInt();
    var rings :- ReadRings(reader, filter, hasZ, hasM, TRIANGLE, numRings);
    r := Ok(Triangle(hasZ, hasM, rings));
  }

  /**
   * Reads `count` full geometries with containing type `containingType` and
   * expected class `expectedType`, keeping the present ones in order.
   */
  method ReadChildren(reader: Reader, filter: Option<GeometryFilter>,
                      containingType: GeometryType, expectedType: GeometryType, count: int)
    returns (r: Result<seq<Geometry>, WkbError>)
    requires reader.Valid()
    modifies reader
    decreases |reader.data| - reader.pos, 2
    ensures reader.Valid()
    ensures match ParseChildren(reader.data, old(reader.pos), filter, containingType, expectedType, count, [])
      case Ok(p) => r == Ok(p.value) && reader.pos == p.end
      case Err(e) => r == Err(e)
    ensures r.Ok? ==> reader.byteOrder == old(reader.byteOrder)
  {
    var elements: seq<Geometry> := [];
    var i := 0;
    ghost var remaining := count;
    while i < count
      invariant reader.Valid()
      invariant old(reader.pos) <= reader.pos && reader.byteOrder == old(reader.byteOrder)
      invariant 0 <= i && remaining == count - i
      invariant ParseChildren(reader.data, old(reader.pos), filter, containingType, expectedType, count, [])
             == ParseChildren(reader.data, reader.pos, filter, containingType, expectedType, remaining, elements)
    {
      elements :- ReadChild(reader, filter, containingType, expectedType, remaining, elements);
      i, remaining := i + 1, remaining - 1;
    }
    r := Ok(elements);
  }

  /** One pass of the loop above: the next geometry, appended to `elements` when present. */
  method ReadChild(reader: Reader, filter: Option<GeometryFilter>,
                   containingType: GeometryType, expectedType: GeometryType, ghost remaining: int,
                   elements: seq<Geometry>)
    returns (r: Result<seq<Geometry>, WkbError>)
    requires reader.Valid()
    requires remaining > 0
    modifies reader
    decreases |reader.data| - reader.pos, 1
    ensures reader.Valid()
    ensures match r
      case Ok(acc) =>
        old(reader.pos) < reader.pos && reader.byteOrder == old(reader.byteOrder)
        && ParseChildren(reader.data, old(reader.pos), filter, containingType, expectedType, remaining, elements)
           == ParseChildren(reader.data, reader.pos, filter, containingType, expectedType, remaining - 1, acc)
      case Err(e) =>
        ParseChildren(reader.data, old(reader.pos), filter, containingType, expectedType, remaining, elements)
        == Err(e)
  {
    ParseChildrenStep(reader.data, reader.pos, filter, containingType, expectedType, remaining, elements);
    var element :- ReadGeometry(reader, filter, Some(containingType), Some(expectedType));
    r := Ok(if element.Some? then elements + [element.value] else elements);
  }

  method ReadMultiPoint(reader: Reader, filter: Option<GeometryFilter>, hasZ: bool, hasM: bool)
    returns (r: Result<Geometry, WkbError>)
    requires reader.Valid()
    modifies reader
    decreases |reader.data| - reader.pos, 3
    ensures reader.Valid()
    ensures match ParseCollection(reader.data, old(reader.pos), old(reader.byteOrder), filter, hasZ, hasM, MULTIPOINT)
      case Ok(p) => r == Ok(p.value) && reader.pos == p.end
      case Err(e) => r == Err(e)
    ensures r.Ok? ==> reader.byteOrder == old(reader.byteOrder)
  {
    var numPoints :- reader.ReadInt();
    var points :- ReadChildren(reader, filter, MULTIPOINT, POINT, numPoints);
    r := Ok(MultiPoint(hasZ, hasM, points));
  }

  method ReadMultiLineString(reader: Reader, filter: Option<GeometryFilter>, hasZ: bool, hasM: bool)
    returns (r: Result<Geometry, WkbError>)
    requires reader.Valid()
    modifies reader
    decreases |reader.data| - reader.pos, 3
    ensures reader.Valid()
    ensures match ParseCollection(reader.data, old(reader.pos), old(reader.byteOrder), filter, hasZ, hasM, MULTILINESTRING)
      case Ok(p) => r == Ok(p.value) && reader.pos == p.end
      case Err(e) => r == Err(e)
    ensures r.Ok? ==> reader.byteOrder == old(reader.byteOrder)
  {
    var numLineStrings :- reader.ReadInt();
    var lineStrings :- ReadChildren(reader, filter, MULTILINESTRING, LINESTRING, numLineStrings);
    r := Ok(MultiLineString(hasZ, hasM, lineStrings));
  }

  method ReadMultiPolygon(reader: Reader, filter: Option<GeometryFilter>, hasZ: bool, hasM: bool)
    returns (r: Result<Geometry, WkbError>)
    requires reader.Valid()
    modifies reader
    decreases |reader.data| - reader.pos, 3
    ensures reader.Valid()
    ensures match ParseCollection(reader.data, old(reader.pos), old(reader.byteOrder), filter, hasZ, hasM, MULTIPOLYGON)
      case Ok(p) => r == Ok(p.value) && reader.pos == p.end
      case Err(e) => r == Err(e)
    ensures r.Ok? ==> reader.byteOrder == old(reader.byteOrder)
  {
    var numPolygons :- reader.ReadInt();
    var polygons :- ReadChildren(reader, filter, MULTIPOLYGON, POLYGON, numPolygons);
    r := Ok(MultiPolygon(hasZ, hasM, polygons));
  }

  /** Also reads MULTICURVE and MULTISURFACE bodies, with no restriction on their elements. */
  method ReadGeometryCollection(reader: Reader, filter: Option<GeometryFilter>, hasZ: bool, hasM: bool)
    returns (r: Result<Geometry, WkbError>)
    requires reader.Valid()
    modifies reader
    decreases |reader.data| - reader.pos, 3
    ensures reader.Valid()
    ensures match ParseCollection(reader.data, old(reader.pos), old(reader.byteOrder), filter, hasZ, hasM, GEOMETRYCOLLECTION)
      case Ok(p) => r == Ok(p.value) && reader.pos == p.end
      case Err(e) => r == Err(e)
    ensures r.Ok? ==> reader.byteOrder == old(reader.byteOrder)
  {
    var numGeometries :- reader.ReadInt();
    var geometries :- ReadChildren(reader, filter, GEOMETRYCOLLECTION, GEOMETRY, numGeometries);
    r := Ok(GeometryCollection(hasZ, hasM, geometries));
  }

  method ReadCompoundCurve(reader: Reader, filter: Option<GeometryFilter>, hasZ: bool, hasM: bool)
    returns (r: Result<Geometry, WkbError>)
    requires reader.Valid()
    modifies reader
    decreases |reader.data| - reader.pos, 3
    ensures reader.Valid()
    ensures match ParseCollection(reader.data, old(reader.pos), old(reader.byteOrder), filter, hasZ, hasM, COMPOUNDCURVE)
      case Ok(p) => r == Ok(p.value) && reader.pos == p.end
      case Err(e) => r == Err(e)
    ensures r.Ok? ==> reader.byteOrder == old(reader.byteOrder)
  {
    var numLineStrings :- reader.ReadInt();
    var lineStrings :- ReadChildren(reader, filter, COMPOUNDCURVE, LINESTRING, numLineStrings);
    r := Ok(CompoundCurve(hasZ, hasM, lineStrings));
  }

  method ReadCurvePolygon(reader: Reader, filter: Option<GeometryFilter>, hasZ: bool, hasM: bool)
    returns (r: Result<Geometry, WkbError>)
    requires reader.Valid()
    modifies reader
    decreases |reader.data| - reader.pos, 3
    ensures reader.Valid()
    ensures match ParseCollection(reader.data, old(reader.pos), old(reader.byteOrder), filter, hasZ, hasM, CURVEPOLYGON)
      case Ok(p) => r == Ok(p.value) && reader.pos == p.end
      case Err(e) => r == Err(e)
    ensures r.Ok? ==> reader.byteOrder == old(reader.byteOrder)
  {
    var numRings :- reader.ReadInt();
    var rings :- ReadChildren(reader, filter, CURVEPOLYGON, CURVE, numRings);
    r := Ok(CurvePolygon(hasZ, hasM, rings));
  }

  method ReadPolyhedralSurface(reader: Reader, filter: Option<GeometryFilter>, hasZ: bool, hasM: bool)
    returns (r: Result<Geometry, WkbError>)
    requires reader.Valid()
    modifies reader
    decreases |reader.data| - reader.pos, 3
    ensures reader.Valid()
    ensures match ParseCollection(reader.data, old(reader.pos), old(reader.byteOrder), filter, hasZ, hasM, POLYHEDRALSURFACE)
      case Ok(p) => r == Ok(p.value) && reader.pos == p.end
      case Err(e) => r == Err(e)
    ensures r.Ok? ==> reader.byteOrder == old(reader.byteOrder)
  {
    var numPolygons :- reader.ReadInt();
    var polygons :- ReadChildren(reader, filter, POLYHEDRALSURFACE, POLYGON, numPolygons);
    r := Ok(PolyhedralSurface(hasZ, hasM, polygons));
  }

  method ReadTIN(reader: Reader, filter: Option<GeometryFilter>, hasZ: bool, hasM: bool)
    returns (r: Result<Geometry, WkbError>)
    requires reader.Valid()
    modifies reader
    decreases |reader.data| - reader.pos, 3
    ensures reader.Valid()
    ensures match ParseCollection(reader.data, old(reader.pos), old(reader.byteOrder), filter, hasZ, hasM, TIN)
      case Ok(p) => r == Ok(p.value) && reader.pos == p.end
      case Err(e) => r == Err(e)
    ensures r.Ok? ==> reader.byteOrder == old(reader.byteOrder)
  {
    var numPolygons :- reader.ReadInt();
    var polygons :- ReadChildren(reader, filter, TIN, POLYGON, numPolygons);
    r := Ok(Tin(hasZ, hasM, polygons));
  }

  /** The public entry point: a top-level geometry, with no containing type. */
  method Read(reader: Reader, filter: Option<GeometryFilter>, expectedType: Option<GeometryType>)
    returns (r: Result<Option<Geometry>, WkbError>)
    requires reader.Valid()
    modifies reader
    ensures reader.Valid()
    ensures match ParseGeometry(reader.data, old(reader.pos), filter, None, expectedType)
      case Ok(p) => r == Ok(p.value) && reader.pos == p.end
      case Err(e) => r == Err(e)
    ensures r.Ok? ==> reader.byteOrder == old(reader.byteOrder)
  {
    r := ReadGeometry(reader, filter, None, expectedType);
  }

}
